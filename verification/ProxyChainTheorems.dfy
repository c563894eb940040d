/** Reading a chain undoes writing it, and when the reading loop ends at all. */
module ProxyChainTheorems {
  import opened Options
  import opened Sequences
  import opened ProxyChain

  // ---- Only links change ------------------------------------------------------------------------

  lemma {:induction false} LinkedKeepsTheRest(proxies: seq<Value>, chain: seq<Value>, k: nat)
    requires k <= |chain|
    ensures Unlinked(Linked(proxies, chain, k)) == Unlinked(proxies)
  {
    if k > 1 {
      LinkedKeepsTheRest(proxies, chain, k - 1);
      var done := Linked(proxies, chain, k - 1);
      var i := FirstNamed(done, chain[k - 1]);
      if i < |done| {
        assert Bare(Dialing(done[i], chain[k - 2])) == Bare(done[i]) by {
          assert done[i].fields[DIALER := chain[k - 2]] - {DIALER} == done[i].fields - {DIALER};
        }
        var next := Linked(proxies, chain, k);
        assert forall j :: 0 <= j < |done| ==> Unlinked(next)[j] == Unlinked(done)[j];
      }
    }
  }

  lemma BareTwice(v: Value)
    ensures Bare(Bare(v)) == Bare(v) && Get(Bare(v), DIALER) == None
  {
    if v.Mapping? {
      assert v.fields - {DIALER} - {DIALER} == v.fields - {DIALER};
    }
  }

  lemma UnlinkedTwice(proxies: seq<Value>)
    ensures Unlinked(Unlinked(proxies)) == Unlinked(proxies)
  {
    forall i | 0 <= i < |proxies|
      ensures Unlinked(Unlinked(proxies))[i] == Unlinked(proxies)[i]
    {
      BareTwice(proxies[i]);
    }
  }

  /** A rewrite changes nothing but the links of the proxies; without a chain it removes them all;
    * and the last rewrite alone decides the result. */
  lemma RewritesTouchOnlyLinks(proxies: seq<Value>, chain: Option<Value>, later: Option<Value>)
    ensures Unlinked(Rewritten(proxies, chain)) == Unlinked(proxies)
    ensures Rewritten(Rewritten(proxies, chain), later) == Rewritten(proxies, later)
    ensures forall i :: 0 <= i < |proxies| ==> Get(Rewritten(proxies, None)[i], DIALER) == None
  {
    UnlinkedTwice(proxies);
    if chain.Some? && chain.value.Sequence? {
      LinkedKeepsTheRest(Unlinked(proxies), chain.value.items, |chain.value.items|);
    }
    forall i | 0 <= i < |proxies|
      ensures Get(Rewritten(proxies, None)[i], DIALER) == None
    {
      BareTwice(proxies[i]);
    }
  }

  // ---- Round trip -------------------------------------------------------------------------------

  function Names(chain: seq<string>): seq<Value> {
    seq(|chain|, i requires 0 <= i < |chain| => Str(chain[i]))
  }

  /** A chain that can be written: at least two distinct names, each the name of some proxy. */
  ghost predicate Writable(proxies: seq<Value>, chain: seq<string>) {
    && |chain| >= 2 && Distinct(chain)
    && (forall i :: 0 <= i < |chain| ==> FirstNamed(proxies, Str(chain[i])) < |proxies|)
  }

  /** Same length and same names, position by position. */
  ghost predicate SameNames(p: seq<Value>, q: seq<Value>) {
    |p| == |q| && forall j :: 0 <= j < |p| ==> Get(p[j], NAME) == Get(q[j], NAME)
  }

  lemma {:induction false} SameNamesSamePlace(p: seq<Value>, q: seq<Value>, name: Value)
    requires SameNames(p, q)
    ensures FirstNamed(p, name) == FirstNamed(q, name)
  {
    if p != [] {
      assert SameNames(p[1..], q[1..]);
      SameNamesSamePlace(p[1..], q[1..], name);
    }
  }

  /** `at` gives the place of the first proxy of each chain name. */
  ghost predicate Places(proxies: seq<Value>, chain: seq<string>, at: seq<nat>) {
    && |at| == |chain| && Distinct(at)
    && (forall i :: 0 <= i < |at| ==> at[i] < |proxies| && at[i] == FirstNamed(proxies, Str(chain[i])))
  }

  lemma FindPlaces(proxies: seq<Value>, chain: seq<string>) returns (at: seq<nat>)
    requires Writable(proxies, chain)
    ensures Places(proxies, chain, at)
  {
    at := seq(|chain|, i requires 0 <= i < |chain| => FirstNamed(proxies, Str(chain[i])));
    forall i, j | 0 <= i < j < |at|
      ensures at[i] != at[j]
    {
      assert Get(proxies[at[i]], NAME) == Some(Str(chain[i])) && Get(proxies[at[j]], NAME) == Some(Str(chain[j]));
      assert chain[i] != chain[j];
    }
  }

  lemma PlacesMove(p: seq<Value>, q: seq<Value>, chain: seq<string>, at: seq<nat>)
    requires Places(p, chain, at) && SameNames(p, q)
    ensures Places(q, chain, at)
  {
    forall i | 0 <= i < |at|
      ensures at[i] == FirstNamed(q, Str(chain[i]))
    {
      SameNamesSamePlace(p, q, Str(chain[i]));
    }
  }

  /** After k links the first proxy of each later chain name dials the name before it, and no other
    * proxy dials anything. */
  ghost predicate LinkedUpTo(q: seq<Value>, chain: seq<string>, at: seq<nat>, k: nat) {
    && k <= |at| == |chain|
    && (forall i :: 1 <= i < k ==> at[i] < |q| && Get(q[at[i]], DIALER) == Some(Str(chain[i - 1])))
    && (forall j :: 0 <= j < |q| && Get(q[j], DIALER).Some? ==> exists i :: 1 <= i < k && at[i] == j)
  }

  lemma LinkOne(q: seq<Value>, chain: seq<string>, at: seq<nat>, k: nat)
    requires LinkedUpTo(q, chain, at, k) && 1 <= k < |chain| && Distinct(at)
    requires at[k] < |q| && q[at[k]].Mapping?
    ensures LinkedUpTo(q[at[k] := Dialing(q[at[k]], Str(chain[k - 1]))], chain, at, k + 1)
    ensures SameNames(q, q[at[k] := Dialing(q[at[k]], Str(chain[k - 1]))])
  {
    var r := q[at[k] := Dialing(q[at[k]], Str(chain[k - 1]))];
    DialingFields(q[at[k]], Str(chain[k - 1]));
    hide Get, Dialing;
    forall j | 0 <= j < |r| && Get(r[j], DIALER).Some?
      ensures exists i :: 1 <= i < k + 1 && at[i] == j
    {
      if j != at[k] {
        var i :| 1 <= i < k && at[i] == j;
        assert 1 <= i < k + 1;
      }
    }
  }

  lemma DialingFields(v: Value, dialer: Value)
    requires v.Mapping?
    ensures Get(Dialing(v, dialer), DIALER) == Some(dialer) && Get(Dialing(v, dialer), NAME) == Get(v, NAME)
  {
  }

  lemma LinkedStep(p: seq<Value>, chain: seq<string>, k: nat)
    requires 1 < k <= |chain|
    ensures var done := Linked(p, Names(chain), k - 1);
            var i := FirstNamed(done, Str(chain[k - 1]));
            Linked(p, Names(chain), k) == if i < |done| then done[i := Dialing(done[i], Str(chain[k - 2]))] else done
  {
    hide FirstNamed, Dialing;
  }

  lemma {:induction false} LinkedReaches(p: seq<Value>, chain: seq<string>, at: seq<nat>, k: nat)
    requires Places(p, chain, at) && k <= |chain|
    requires forall j :: 0 <= j < |p| ==> Get(p[j], DIALER) == None
    ensures LinkedUpTo(Linked(p, Names(chain), k), chain, at, k)
    ensures SameNames(p, Linked(p, Names(chain), k))
  {
    if k > 1 {
      var done := Linked(p, Names(chain), k - 1);
      LinkedReaches(p, chain, at, k - 1);
      LinkedStep(p, chain, k);
      PlacesMove(p, done, chain, at);
      assert Get(done[at[k - 1]], NAME).Some?;
      LinkOne(done, chain, at, k - 1);
    }
  }

  function Named(s: string): Name {
    Some(Some(s))
  }

  lemma NamedIff(v: Value, s: string)
    ensures Text(Get(v, NAME)) == Named(s) <==> Get(v, NAME) == Some(Str(s))
  {
  }

  /** The walk from each chain name steps to the name before it, and ends at the first. */
  ghost predicate Walks(q: seq<Value>, chain: seq<string>, at: seq<nat>) {
    && |at| == |chain| > 0
    && (forall i :: 0 <= i < |at| ==> at[i] < |q|)
    && Ends(q, Named(chain[0]))
    && (forall i :: 1 <= i < |at| ==>
          FindLink(q, Named(chain[i])) == at[i] && Next(q, Named(chain[i])) == Named(chain[i - 1]))
  }

  lemma OnlyOwnLink(q: seq<Value>, chain: seq<string>, at: seq<nat>, i: nat, j: nat)
    requires Places(q, chain, at) && LinkedUpTo(q, chain, at, |chain|) && Distinct(chain) && i < |chain| && j < |q|
    requires LinksFrom(q[j], Named(chain[i]))
    ensures i > 0 && j == at[i]
  {
    NamedIff(q[j], chain[i]);
    var k :| 1 <= k < |chain| && at[k] == j;
    assert Get(q[j], NAME) == Some(Str(chain[k]));
    assert chain[k] == chain[i];
  }

  lemma LinksWalk(q: seq<Value>, chain: seq<string>, at: seq<nat>)
    requires Places(q, chain, at) && LinkedUpTo(q, chain, at, |chain|) && Distinct(chain) && |chain| > 0
    ensures Walks(q, chain, at)
    ensures FindEntry(q, Named(chain[0])) == at[0]
  {
    forall i | 0 <= i < |at|
      ensures FindLink(q, Named(chain[i])) == if i == 0 then |q| else at[i]
      ensures i > 0 ==> Next(q, Named(chain[i])) == Named(chain[i - 1])
    {
      NamedIff(q[at[i]], chain[i]);
      if FindLink(q, Named(chain[i])) < |q| {
        OnlyOwnLink(q, chain, at, i, FindLink(q, Named(chain[i])));
      }
      assert i > 0 ==> LinksFrom(q[at[i]], Named(chain[i]));
    }
    FirstEntry(q, chain[0]);
  }

  lemma FirstEntry(q: seq<Value>, s: string)
    ensures FindEntry(q, Named(s)) == FirstNamed(q, Str(s))
  {
    var i, k := FindEntry(q, Named(s)), FirstNamed(q, Str(s));
    if i < |q| {
      NamedIff(q[i], s);
    }
    if k < |q| {
      NamedIff(q[k], s);
    }
  }

  /** The chain proxies as the list has them, from entry to exit. */
  function Stations(q: seq<Value>, at: seq<nat>): seq<Value>
    requires forall i :: 0 <= i < |at| ==> at[i] < |q|
  {
    seq(|at|, i requires 0 <= i < |at| => q[at[i]])
  }

  lemma {:induction false} WalkBack(q: seq<Value>, chain: seq<string>, at: seq<nat>, i: nat)
    requires Walks(q, chain, at) && i < |chain|
    ensures Halts(q, Named(chain[i]), i)
    ensures Reversed(Trail(q, Named(chain[i]), i).0) == Stations(q, at)[1..i + 1]
    ensures Trail(q, Named(chain[i]), i).1 == Named(chain[0])
  {
    hide FindLink, Next, Get;
    if i > 0 {
      WalkBack(q, chain, at, i - 1);
      var all := Stations(q, at);
      var rest := Trail(q, Named(chain[i - 1]), i - 1).0;
      assert all[1..i + 1] == all[1..i] + [all[i]];
      assert Trail(q, Named(chain[i]), i).0 == [q[at[i]]] + rest;
      assert ([q[at[i]]] + rest)[1..] == rest;
    }
  }

  lemma {:induction false} TrailMonotone(proxies: seq<Value>, name: Name, n: nat, m: nat)
    requires Halts(proxies, name, n) && n <= m
    ensures Halts(proxies, name, m) && Trail(proxies, name, m) == Trail(proxies, name, n)
    decreases n
  {
    if !Ends(proxies, name) {
      TrailMonotone(proxies, Next(proxies, name), n - 1, m - 1);
    }
  }

  /** Writing a chain of at least two distinct names that are all present, and following the links
    * from its last name, ends and returns exactly that chain in order, whatever else the list holds
    * and even if names repeat in it. */
  lemma ChainRoundTrip(proxies: seq<Value>, chain: seq<string>)
    requires Writable(proxies, chain)
    ensures var q := Rewritten(proxies, Some(Sequence(Names(chain))));
            var exit := chain[|chain| - 1];
            && Halts(q, Named(exit), |q|)
            && (var read := ReadChain(q, exit, |q|);
                && |read| == |chain|
                && (forall i :: 0 <= i < |chain| ==>
                      FirstNamed(q, Str(chain[i])) < |q| && read[i] == q[FirstNamed(q, Str(chain[i]))]))
  {
    hide Rewritten, Walks, ReadChain, FindEntry, Halts, Places;
    var q := Rewritten(proxies, Some(Sequence(Names(chain))));
    var at := WrittenPlaces(proxies, chain);
    WalkReads(q, chain, at);
  }

  lemma WalkReads(q: seq<Value>, chain: seq<string>, at: seq<nat>)
    requires Places(q, chain, at) && Walks(q, chain, at) && |chain| >= 2 && FindEntry(q, Named(chain[0])) == at[0]
    ensures var exit := chain[|chain| - 1];
            && Halts(q, Named(exit), |q|)
            && (var read := ReadChain(q, exit, |q|);
                && |read| == |chain|
                && (forall i :: 0 <= i < |chain| ==>
                      FirstNamed(q, Str(chain[i])) < |q| && read[i] == q[FirstNamed(q, Str(chain[i]))]))
  {
    hide Walks, ReadChain, FindEntry, Trail, Halts;
    var n := |chain| - 1;
    Pigeonhole(at, |q|);
    WalkBack(q, chain, at, n);
    TrailMonotone(q, Named(chain[n]), n, |q|);
    ReadsAlike(q, chain[n], n, |q|);
    ReadStations(q, chain, at);
    assert forall i :: 0 <= i < |chain| ==> Stations(q, at)[i] == q[at[i]];
  }

  lemma ReadsAlike(q: seq<Value>, exit: string, n: nat, m: nat)
    requires Halts(q, Named(exit), n) && Halts(q, Named(exit), m)
    requires Trail(q, Named(exit), n) == Trail(q, Named(exit), m)
    ensures ReadChain(q, exit, n) == ReadChain(q, exit, m)
  {
    hide Trail, Halts;
  }

  /** The places of a written chain, along which the walk leads. */
  lemma WrittenPlaces(proxies: seq<Value>, chain: seq<string>) returns (at: seq<nat>)
    requires Writable(proxies, chain)
    ensures var q := Rewritten(proxies, Some(Sequence(Names(chain))));
            Places(q, chain, at) && Walks(q, chain, at) && FindEntry(q, Named(chain[0])) == at[0]
  {
    var p := Unlinked(proxies);
    var q := Rewritten(proxies, Some(Sequence(Names(chain))));
    at := FindPlaces(proxies, chain);
    RewritesTouchOnlyLinks(proxies, None, None);
    assert SameNames(proxies, p);
    PlacesMove(proxies, p, chain, at);
    LinkedReaches(p, chain, at, |chain|);
    PlacesMove(p, q, chain, at);
    LinksWalk(q, chain, at);
  }

  lemma ReadStations(q: seq<Value>, chain: seq<string>, at: seq<nat>)
    requires Walks(q, chain, at) && |chain| >= 2 && FindEntry(q, Named(chain[0])) == at[0]
    requires Halts(q, Named(chain[|chain| - 1]), |chain| - 1)
    ensures ReadChain(q, chain[|chain| - 1], |chain| - 1) == Stations(q, at)
  {
    var n := |chain| - 1;
    WalkBack(q, chain, at, n);
    var all := Stations(q, at);
    assert all == [all[0]] + all[1..n + 1];
  }

  // ---- Any chain --------------------------------------------------------------------------------

  /** The i-th entry of the chain is the last one that names the proxy at j. */
  ghost predicate LastNaming(proxies: seq<Value>, chain: seq<Value>, k: nat, i: nat, j: nat) {
    && 1 <= i < k <= |chain| && FirstNamed(proxies, chain[i]) == j
    && forall l :: i < l < k ==> FirstNamed(proxies, chain[l]) != j
  }

  lemma {:induction false} LinkedNames(p: seq<Value>, chain: seq<Value>, k: nat)
    requires k <= |chain|
    ensures SameNames(p, Linked(p, chain, k))
  {
    if k > 1 {
      LinkedNames(p, chain, k - 1);
      var done := Linked(p, chain, k - 1);
      var at := FirstNamed(done, chain[k - 1]);
      if at < |done| {
        DialingFields(done[at], chain[k - 2]);
      }
    }
  }

  /** The k-th link is written on the first proxy of its name, and changes no other. */
  lemma LinkAt(p: seq<Value>, chain: seq<Value>, k: nat, j: nat)
    requires 1 < k <= |chain| && j < |p|
    ensures |Linked(p, chain, k)| == |Linked(p, chain, k - 1)| == |p|
    ensures Get(Linked(p, chain, k)[j], DIALER) ==
            if FirstNamed(p, chain[k - 1]) == j then Some(chain[k - 2]) else Get(Linked(p, chain, k - 1)[j], DIALER)
  {
    var done := Linked(p, chain, k - 1);
    LinkedNames(p, chain, k - 1);
    SameNamesSamePlace(p, done, chain[k - 1]);
    if FirstNamed(p, chain[k - 1]) == j {
      DialingFields(done[j], chain[k - 2]);
    }
  }

  lemma {:induction false} LinkedLinks(p: seq<Value>, chain: seq<Value>, k: nat, j: nat)
    requires k <= |chain| && j < |p| && Get(p[j], DIALER) == None
    ensures |Linked(p, chain, k)| == |p|
    ensures forall i :: LastNaming(p, chain, k, i, j) ==> Get(Linked(p, chain, k)[j], DIALER) == Some(chain[i - 1])
    ensures (forall i :: 1 <= i < k ==> FirstNamed(p, chain[i]) != j) ==> Get(Linked(p, chain, k)[j], DIALER) == None
  {
    if k > 1 {
      LinkAt(p, chain, k, j);
      LinkedLinks(p, chain, k - 1, j);
      hide Linked, Get;
      forall i: nat | LastNaming(p, chain, k, i, j) && i < k - 1
        ensures LastNaming(p, chain, k - 1, i, j)
      {
      }
    }
  }

  /** For any chain, even with repeated or unknown names: a proxy dials the entry before the last one
    * that names it first in the list, and nothing when no later entry does. */
  lemma LinksFollowTheChain(proxies: seq<Value>, chain: seq<Value>, j: nat)
    requires j < |proxies|
    ensures var q := Rewritten(proxies, Some(Sequence(chain)));
            && |q| == |proxies|
            && (forall i :: LastNaming(proxies, chain, |chain|, i, j) ==>
                  Get(q[j], "dialer-proxy") == Some(chain[i - 1]))
            && ((forall i :: 1 <= i < |chain| ==> FirstNamed(proxies, chain[i]) != j) ==>
                  Get(q[j], "dialer-proxy") == None)
  {
    var p := Unlinked(proxies);
    RewritesTouchOnlyLinks(proxies, None, None);
    assert Rewritten(proxies, None) == p;
    assert SameNames(proxies, p);
    forall i | 1 <= i < |chain|
      ensures FirstNamed(p, chain[i]) == FirstNamed(proxies, chain[i])
    {
      SameNamesSamePlace(proxies, p, chain[i]);
    }
    LinkedLinks(p, chain, |chain|, j);
    forall i | LastNaming(proxies, chain, |chain|, i, j)
      ensures LastNaming(p, chain, |chain|, i, j)
    {
    }
  }

  /** The proxy dials another one by its name. */
  ghost predicate Dials(v: Value, w: Value) {
    Get(v, "dialer-proxy").Some? && Text(Get(v, "dialer-proxy")) == Text(Get(w, "name"))
  }

  lemma {:induction false} TrailIsLinked(proxies: seq<Value>, name: Name, n: nat)
    requires Halts(proxies, name, n)
    ensures var (passed, end) := Trail(proxies, name, n);
            && (passed == [] <==> Ends(proxies, name))
            && (passed == [] ==> end == name)
            && (passed != [] ==>
                  && passed[0] == proxies[FindLink(proxies, name)] && Text(Get(passed[0], NAME)) == name
                  && Get(passed[|passed| - 1], DIALER).Some? && Text(Get(passed[|passed| - 1], DIALER)) == end)
            && forall i, j :: 0 <= i < j < |passed| && j == i + 1 ==> Dials(passed[i], passed[j])
    decreases n
  {
    if !Ends(proxies, name) {
      TrailIsLinked(proxies, Next(proxies, name), n - 1);
    }
  }

  lemma ReversedDials(passed: seq<Value>)
    requires forall i, j :: 0 <= i < j < |passed| && j == i + 1 ==> Dials(passed[i], passed[j])
    ensures |Reversed(passed)| == |passed|
    ensures passed != [] ==> Reversed(passed)[|passed| - 1] == passed[0]
    ensures passed != [] ==> Reversed(passed)[0] == passed[|passed| - 1]
    ensures forall i, j :: 0 <= i < j < |passed| && j == i + 1 ==> Dials(Reversed(passed)[j], Reversed(passed)[i])
  {
    hide Dials;
    if passed != [] {
      ReversedAt(passed, 0);
      ReversedAt(passed, |passed| - 1);
    }
    forall i, j | 0 <= i < j < |passed| && j == i + 1
      ensures Dials(Reversed(passed)[j], Reversed(passed)[i])
    {
      ReversedAt(passed, i);
      ReversedAt(passed, j);
    }
  }

  /** What is read, whatever the links: nothing when the exit has no link; else a list that ends with
    * the exit and in which every proxy dials the one before it. */
  lemma ReadChainIsLinked(proxies: seq<Value>, exit: string)
    requires Halts(proxies, Named(exit), |proxies|)
    ensures var chain := ReadChain(proxies, exit, |proxies|);
            && (chain == [] <==> FindLink(proxies, Named(exit)) == |proxies|)
            && (chain != [] ==> chain[|chain| - 1] == proxies[FindLink(proxies, Named(exit))])
            && forall i, j :: 0 <= i < j < |chain| && j == i + 1 ==> Dials(chain[j], chain[i])
  {
    var (passed, end) := Trail(proxies, Named(exit), |proxies|);
    TrailIsLinked(proxies, Named(exit), |proxies|);
    ReversedDials(passed);
    hide Trail, Halts, Reversed;
    var back := Reversed(passed);
    var entry := FindEntry(proxies, end);
    if entry < |proxies| && passed != [] {
      assert Dials(back[0], proxies[entry]);
      EntryFirst(back, proxies[entry]);
    }
  }

  lemma EntryFirst(back: seq<Value>, entry: Value)
    requires back != [] && Dials(back[0], entry)
    requires forall i, j :: 0 <= i < j < |back| && j == i + 1 ==> Dials(back[j], back[i])
    ensures var chain := [entry] + back;
            && chain[|chain| - 1] == back[|back| - 1]
            && forall i, j :: 0 <= i < j < |chain| && j == i + 1 ==> Dials(chain[j], chain[i])
  {
    hide Dials;
    var chain := [entry] + back;
    forall i, j | 0 <= i < j < |chain| && j == i + 1
      ensures Dials(chain[j], chain[i])
    {
      assert chain[j] == back[i] && chain[i] == if i == 0 then entry else back[i - 1];
      if i > 0 {
        assert Dials(back[i], back[i - 1]);
      }
    }
  }

  // ---- Termination ------------------------------------------------------------------------------

  /** Distinct numbers below n are at most n many. */
  lemma {:induction false} Pigeonhole(s: seq<nat>, n: nat)
    requires Distinct(s) && forall i :: 0 <= i < |s| ==> s[i] < n
    ensures |s| <= n
  {
    if s != [] {
      if n - 1 in s {
        var k :| 0 <= k < |s| && s[k] == n - 1;
        var rest := s[..k] + s[k + 1..];
        forall i | 0 <= i < |rest|
          ensures rest[i] < n - 1 && rest[i] == s[if i < k then i else i + 1]
        {
        }
        Pigeonhole(rest, n - 1);
      } else {
        Pigeonhole(s, n - 1);
      }
    }
  }

  /** The name that the walk has reached after k links; None when it has ended before. */
  function After(proxies: seq<Value>, name: Name, k: nat): Option<Name>
    decreases k
  {
    if k == 0 then Some(name) else if Ends(proxies, name) then None else After(proxies, Next(proxies, name), k - 1)
  }

  /** Following the links leads from some name back to itself. */
  predicate Revisits(proxies: seq<Value>, name: Name) {
    exists a: nat, b: nat :: a < b <= |proxies| && After(proxies, name, a).Some?
      && After(proxies, name, a) == After(proxies, name, b)
  }

  /** A walk of k + n links is one of k links followed by one of n. */
  lemma {:induction false} HaltsSplit(proxies: seq<Value>, name: Name, k: nat, n: nat)
    requires After(proxies, name, k).Some?
    ensures Halts(proxies, name, k + n) <==> Halts(proxies, After(proxies, name, k).value, n)
    decreases k
  {
    if k > 0 {
      HaltsSplit(proxies, Next(proxies, name), k - 1, n);
    }
  }

  lemma {:induction false} HaltsLess(proxies: seq<Value>, name: Name, k: nat)
    requires After(proxies, name, k).Some?
    ensures k > 0 ==> !Halts(proxies, name, k - 1)
    decreases k
  {
    if k > 1 {
      HaltsLess(proxies, Next(proxies, name), k - 1);
    }
  }

  /** A walk that comes back to a name goes round for ever. */
  lemma {:induction false} RoundsNeverEnd(proxies: seq<Value>, name: Name, a: nat, b: nat, n: nat)
    requires a < b && After(proxies, name, a).Some? && After(proxies, name, a) == After(proxies, name, b)
    ensures !Halts(proxies, name, n)
    decreases n
  {
    HaltsLess(proxies, name, b);
    if n < b {
      if Halts(proxies, name, n) {
        TrailMonotone(proxies, name, n, b - 1);
      }
    } else {
      HaltsSplit(proxies, name, b, n - b);
      HaltsSplit(proxies, name, a, n - b);
      RoundsNeverEnd(proxies, name, a, b, a + n - b);
    }
  }

  /** A walk that has not ended after n links has passed a linked proxy with the name at each step. */
  lemma {:induction false} StillWalking(proxies: seq<Value>, name: Name, n: nat, k: nat)
    requires !Halts(proxies, name, n) && k <= n
    ensures After(proxies, name, k).Some?
    ensures var at := FindLink(proxies, After(proxies, name, k).value);
            at < |proxies| && Text(Get(proxies[at], NAME)) == After(proxies, name, k).value
    decreases k
  {
    if k > 0 {
      StillWalking(proxies, Next(proxies, name), n - 1, k - 1);
    }
  }

  lemma LongWalksRevisit(proxies: seq<Value>, name: Name)
    requires !Halts(proxies, name, |proxies|)
    ensures Revisits(proxies, name)
  {
    var n := |proxies|;
    forall k: nat | k <= n
      ensures After(proxies, name, k).Some? && FindLink(proxies, After(proxies, name, k).value) < n
    {
      StillWalking(proxies, name, n, k);
    }
    var passed := seq(n + 1, k requires 0 <= k <= n => FindLink(proxies, After(proxies, name, k).value));
    if Distinct(passed) {
      Pigeonhole(passed, n);
    } else {
      var a, b :| 0 <= a < b < |passed| && passed[a] == passed[b];
      StillWalking(proxies, name, n, a);
      StillWalking(proxies, name, n, b);
    }
  }

  ghost predicate Terminates(proxies: seq<Value>, name: Name) {
    exists n: nat :: Halts(proxies, name, n)
  }

  /** The reading loop ends exactly when the links do not lead from a name back to itself; and then it
    * ends within as many steps as there are proxies. */
  lemma ReadingEndsIff(proxies: seq<Value>, name: Name)
    ensures Terminates(proxies, name) <==> !Revisits(proxies, name)
    ensures Halts(proxies, name, |proxies|) <==> !Revisits(proxies, name)
  {
    if Revisits(proxies, name) {
      var a: nat, b: nat :| a < b <= |proxies| && After(proxies, name, a).Some?
        && After(proxies, name, a) == After(proxies, name, b);
      forall n: nat
        ensures !Halts(proxies, name, n)
      {
        RoundsNeverEnd(proxies, name, a, b, n);
      }
    } else {
      if !Halts(proxies, name, |proxies|) {
        LongWalksRevisit(proxies, name);
      }
      assert Halts(proxies, name, |proxies|);
    }
  }

  /** Two proxies that dial each other make the loop run for ever. */
  lemma CyclicLinksNeverEnd(n: nat)
    ensures var a := Mapping(map[NAME := Str("a"), DIALER := Str("b")]);
            var b := Mapping(map[NAME := Str("b"), DIALER := Str("a")]);
            !Halts([a, b], Named("a"), n) && !Halts([a, b], Named("b"), n)
  {
    var a := Mapping(map[NAME := Str("a"), DIALER := Str("b")]);
    var b := Mapping(map[NAME := Str("b"), DIALER := Str("a")]);
    assert "a"[0] != "b"[0] && |NAME| != |DIALER|;
    assert LinksFrom([a, b][0], Named("a")) && LinksFrom([a, b][1], Named("b"));
    assert Next([a, b], Named("a")) == Named("b") && Next([a, b], Named("b")) == Named("a");
    RoundsNeverEnd([a, b], Named("a"), 0, 2, n);
    RoundsNeverEnd([a, b], Named("b"), 0, 2, n);
  }
}
