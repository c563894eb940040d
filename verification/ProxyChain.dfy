/** Writing an ordered proxy chain as `dialer-proxy` links and reading it back by following them. */
module ProxyChain {
  import opened Options
  import opened Sequences

  /** A configuration value; mapping keys are strings. */
  datatype Value =
    | Str(s: string)
    | Mapping(fields: map<string, Value>)
    | Sequence(items: seq<Value>)
    | Other(tag: int)

  function Get(v: Value, key: string): Option<Value> {
    if v.Mapping? && key in v.fields then Some(v.fields[key]) else None
  }

  /** A looked-up value as a string: absent, present but no string, or a string. */
  function Text(v: Option<Value>): Option<Option<string>> {
    if v.None? then None else if v.value.Str? then Some(Some(v.value.s)) else Some(None)
  }

  const NAME := "name"
  const DIALER := "dialer-proxy"
  const PROXIES := "proxies"

  // ---- Writing ----------------------------------------------------------------------------------

  /** The value without its link. */
  function Bare(v: Value): Value {
    if v.Mapping? then Mapping(v.fields - {DIALER}) else v
  }

  function Unlinked(proxies: seq<Value>): seq<Value> {
    seq(|proxies|, i requires 0 <= i < |proxies| => Bare(proxies[i]))
  }

  /** The position of the first proxy with the name, or the length of the list. */
  function FirstNamed(proxies: seq<Value>, name: Value): (i: nat)
    ensures i <= |proxies|
    ensures i < |proxies| ==> Get(proxies[i], NAME) == Some(name)
    ensures forall k :: 0 <= k < i ==> Get(proxies[k], NAME) != Some(name)
  {
    if proxies == [] || Get(proxies[0], NAME) == Some(name) then 0 else 1 + FirstNamed(proxies[1..], name)
  }

  function Dialing(v: Value, dialer: Value): Value
    requires v.Mapping?
  {
    Mapping(v.fields[DIALER := dialer])
  }

  /** The proxies once the links of the first k chain entries are written. */
  function Linked(proxies: seq<Value>, chain: seq<Value>, k: nat): seq<Value>
    requires k <= |chain|
  {
    if k <= 1 then proxies
    else
      var done := Linked(proxies, chain, k - 1);
      var i := FirstNamed(done, chain[k - 1]);
      if i < |done| then done[i := Dialing(done[i], chain[k - 2])] else done
  }

  function Rewritten(proxies: seq<Value>, chain: Option<Value>): seq<Value> {
    if chain.Some? && chain.value.Sequence? then Linked(Unlinked(proxies), chain.value.items, |chain.value.items|)
    else Unlinked(proxies)
  }

  function Updated(config: map<string, Value>, chain: Option<Value>): map<string, Value> {
    if PROXIES in config && config[PROXIES].Sequence?
    then config[PROXIES := Sequence(Rewritten(config[PROXIES].items, chain))]
    else config
  }

  /** The same but for `dialer-proxy` fields of the mappings in a list. */
  ghost predicate SameButLinks(before: Value, after: Value) {
    if !before.Sequence? then after == before
    else
      && after.Sequence? && |after.items| == |before.items|
      && forall i :: 0 <= i < |after.items| ==> SameButLink(before.items[i], after.items[i])
  }

  ghost predicate SameButLink(before: Value, after: Value) {
    if !before.Mapping? then after == before
    else
      && after.Mapping?
      && forall key :: key != "dialer-proxy" ==>
           (key in after.fields <==> key in before.fields)
           && (key in before.fields ==> after.fields[key] == before.fields[key])
  }

  lemma {:induction false} LinkedTouchesOnlyLinks(proxies: seq<Value>, chain: seq<Value>, k: nat)
    requires k <= |chain|
    ensures SameButLinks(Sequence(proxies), Sequence(Linked(proxies, chain, k)))
  {
    if k > 1 {
      LinkedTouchesOnlyLinks(proxies, chain, k - 1);
    }
  }

  lemma UpdatedTouchesOnlyLinks(config: map<string, Value>, chain: Option<Value>)
    ensures var after := Updated(config, chain);
            && after.Keys == config.Keys
            && (forall key :: key in after && key != "proxies" ==> after[key] == config[key])
            && ("proxies" in after ==> SameButLinks(config["proxies"], after["proxies"]))
  {
    if PROXIES in config && config[PROXIES].Sequence? {
      var proxies := Unlinked(config[PROXIES].items);
      if chain.Some? && chain.value.Sequence? {
        LinkedTouchesOnlyLinks(proxies, chain.value.items, |chain.value.items|);
      }
    }
  }

  class IRuntime {
    var config: Option<map<string, Value>>

    constructor (config: Option<map<string, Value>>)
      ensures this.config == config
    {
      this.config := config;
    }

    /** Rewrites the links of the proxies; everything else in the configuration stays. */
    method UpdateProxyChainConfig(chain: Option<Value>)
      modifies this
      ensures config == if old(config).Some? then Some(Updated(old(config).value, chain)) else None
      ensures config.Some? <==> old(config).Some?
      ensures config.Some? ==>
                && config.value.Keys == old(config).value.Keys
                && (forall key :: key in config.value && key != "proxies" ==>
                      config.value[key] == old(config).value[key])
                && ("proxies" in config.value ==>
                      SameButLinks(old(config).value["proxies"], config.value["proxies"]))
    {
      if old(config).Some? {
        UpdatedTouchesOnlyLinks(old(config).value, chain);
      }
      if config.None? || PROXIES !in config.value || !config.value[PROXIES].Sequence? {
        return;
      }
      var proxies := config.value[PROXIES].items;
      ghost var before := proxies;
      for i := 0 to |proxies|
        invariant |proxies| == |before|
        invariant forall k :: 0 <= k < i ==> proxies[k] == Bare(before[k])
        invariant forall k :: i <= k < |proxies| ==> proxies[k] == before[k]
      {
        if Get(proxies[i], DIALER).Some? {
          proxies := proxies[i := Mapping(proxies[i].fields - {DIALER})];
        } else if proxies[i].Mapping? {
          assert proxies[i].fields - {DIALER} == proxies[i].fields;
        }
      }
      assert proxies == Unlinked(before);
      if chain.Some? && chain.value.Sequence? {
        var dialers := chain.value.items;
        for i := 0 to |dialers|
          invariant proxies == Linked(Unlinked(before), dialers, i)
        {
          var k := FirstNamed(proxies, dialers[i]);
          if k < |proxies| && i != 0 {
            proxies := proxies[k := Dialing(proxies[k], dialers[i - 1])];
          }
        }
      }
      config := Some(config.value[PROXIES := Sequence(proxies)]);
    }
  }

  // ---- Reading ----------------------------------------------------------------------------------

  type Name = Option<Option<string>>

  predicate LinksFrom(v: Value, name: Name) {
    v.Mapping? && Text(Get(v, NAME)) == name && Get(v, DIALER).Some?
  }

  /** The position of the first proxy with the name and a link, or the length of the list. */
  function FindLink(proxies: seq<Value>, name: Name): (i: nat)
    ensures i <= |proxies|
    ensures i < |proxies| ==> LinksFrom(proxies[i], name)
    ensures forall k :: 0 <= k < i ==> !LinksFrom(proxies[k], name)
  {
    if proxies == [] || LinksFrom(proxies[0], name) then 0 else 1 + FindLink(proxies[1..], name)
  }

  function FindEntry(proxies: seq<Value>, name: Name): (i: nat)
    ensures i <= |proxies|
    ensures i < |proxies| ==> Text(Get(proxies[i], NAME)) == name
    ensures forall k :: 0 <= k < i ==> Text(Get(proxies[k], NAME)) != name
  {
    if proxies == [] || Text(Get(proxies[0], NAME)) == name then 0 else 1 + FindEntry(proxies[1..], name)
  }

  /** The name that one step of the walk leads to. */
  function Next(proxies: seq<Value>, name: Name): Name
    requires FindLink(proxies, name) < |proxies|
  {
    Text(Get(proxies[FindLink(proxies, name)], DIALER))
  }

  predicate Ends(proxies: seq<Value>, name: Name) {
    FindLink(proxies, name) == |proxies|
  }

  /** The walk ends after at most n steps. */
  predicate Halts(proxies: seq<Value>, name: Name, n: nat)
    decreases n
  {
    Ends(proxies, name) || (n > 0 && Halts(proxies, Next(proxies, name), n - 1))
  }

  /** The proxies that the walk passes, and the name it ends at. */
  function Trail(proxies: seq<Value>, name: Name, n: nat): (seq<Value>, Name)
    requires Halts(proxies, name, n)
    decreases n
  {
    if Ends(proxies, name) then ([], name)
    else
      var (rest, end) := Trail(proxies, Next(proxies, name), n - 1);
      ([proxies[FindLink(proxies, name)]] + rest, end)
  }

  /** The chain read from its exit node: entry first. */
  function ReadChain(proxies: seq<Value>, exit: string, n: nat): seq<Value>
    requires Halts(proxies, Some(Some(exit)), n)
  {
    var (passed, end) := Trail(proxies, Some(Some(exit)), n);
    var entry := FindEntry(proxies, end);
    if entry < |proxies| && passed != [] then [proxies[entry]] + Reversed(passed) else Reversed(passed)
  }

  /** The walk as a loop. The result is None for the inputs on which the code loops for ever: a walk
    * that has not ended after as many links as there are proxies never ends. */
  method GetProxyChain(proxies: seq<Value>, exit: string) returns (r: Option<seq<Value>>)
    ensures r.Some? <==> Halts(proxies, Some(Some(exit)), |proxies|)
    ensures r.Some? ==> r.value == ReadChain(proxies, exit, |proxies|)
  {
    var name: Name := Some(Some(exit));
    var chain, left: nat := [], |proxies|;
    var i := FindLink(proxies, name);
    if Halts(proxies, name, left) {
      assert [] + Trail(proxies, name, left).0 == Trail(proxies, name, left).0;
    }
    while i < |proxies|
      invariant i == FindLink(proxies, name)
      invariant Halts(proxies, Some(Some(exit)), |proxies|) <==> Halts(proxies, name, left)
      invariant Halts(proxies, name, left) ==>
                  Trail(proxies, Some(Some(exit)), |proxies|)
                  == (chain + Trail(proxies, name, left).0, Trail(proxies, name, left).1)
      decreases left
    {
      if left == 0 {
        return None;
      }
      var proxy := proxies[i];
      if Halts(proxies, name, left) {
        ghost var rest := Trail(proxies, Next(proxies, name), left - 1).0;
        assert chain + ([proxy] + rest) == (chain + [proxy]) + rest;
      }
      chain := chain + [proxy];
      name := Text(Get(proxy, DIALER));
      left := left - 1;
      i := FindLink(proxies, name);
    }
    assert chain + [] == chain;
    var entry := FindEntry(proxies, name);
    if entry < |proxies| && chain != [] {
      ReversedAppend(chain, proxies[entry]);
      chain := chain + [proxies[entry]];
    }
    r := Some(Reversed(chain));
  }
}
