/** Planning how saved node selections are put back: which records to keep, which to repair and
  * which groups to switch, from one or two snapshots of what the core has loaded. */
module Reconcile {
  import opened Options
  import opened Sequences

  /** A saved selection: a group and the node chosen in it. */
  datatype Selected = Selected(name: Option<string>, now: Option<string>)

  datatype ProxyType = Selector | URLTest | Fallback | LoadBalance | OtherType

  datatype Proxy = Proxy(proxyType: ProxyType, all: Option<seq<string>>, now: Option<string>)

  type Proxies = map<string, Proxy>

  datatype Activation = Activation(group: string, node: string)

  datatype Plan = Plan(selected: seq<Selected>, activations: seq<Activation>, repaired: nat)

  /** The nodes of a group; empty while its provider has not loaded. */
  function Members(p: Proxy): seq<string> {
    if p.all.Some? then p.all.value else []
  }

  predicate Selectable(p: Proxy) {
    p.proxyType.Selector? || p.proxyType.URLTest? || p.proxyType.Fallback? || p.proxyType.LoadBalance?
  }

  /** The node that the group is on, when that is one of its members. */
  function CurrentMember(p: Proxy): Option<string> {
    if p.now.Some? && p.now.value in Members(p) then p.now else None
  }

  predicate Complete(item: Selected) {
    item.name.Some? && item.now.Some?
  }

  predicate Names(s: seq<Selected>, name: Option<string>) {
    exists i :: 0 <= i < |s| && s[i].name == name
  }

  /** The last record of each named group, in order. */
  function LastRecords(s: seq<Selected>): seq<Selected> {
    if s == [] then []
    else (if s[0].name.Some? && !Names(s[1..], s[0].name) then [s[0]] else []) + LastRecords(s[1..])
  }

  /** What becomes of one record. */
  datatype Verdict = Verdict(kept: Option<Selected>, activation: Option<Activation>, repaired: bool)

  function Keep(item: Selected): Verdict {
    Verdict(Some(item), None, false)
  }

  function Missed(item: Selected, previous: Option<Proxies>): bool
    requires Complete(item)
  {
    previous.Some? && item.name.value in previous.value
    && Members(previous.value[item.name.value]) != []
    && item.now.value !in Members(previous.value[item.name.value])
  }

  function Decide(item: Selected, previous: Option<Proxies>, proxies: Proxies): Verdict {
    if !Complete(item) then Verdict(None, None, true) else
    var name, node := item.name.value, item.now.value;
    if name !in proxies then
      if previous.Some? && name !in previous.value then Verdict(None, None, true) else Keep(item)
    else
      var group := proxies[name];
      if Members(group) == [] then Keep(item)
      else if !Selectable(group) then
        var preferred := if CurrentMember(group).Some? then CurrentMember(group)
                         else if node in Members(group) then Some(node) else None;
        if preferred.Some? then Verdict(Some(Selected(item.name, preferred)), None, preferred != Some(node))
        else Verdict(None, None, true)
      else if node in Members(group) then
        Verdict(Some(item), if group.now == Some(node) then None else Some(Activation(name, node)), false)
      else if !Missed(item, previous) then Keep(item)
      else
        Verdict(if CurrentMember(group).Some? then Some(Selected(item.name, CurrentMember(group))) else None,
                None, true)
  }

  function Listed<T>(o: Option<T>): seq<T> {
    if o.Some? then [o.value] else []
  }

  /** The plan that settles the records one after the other. */
  function Settle(items: seq<Selected>, previous: Option<Proxies>, proxies: Proxies): Plan {
    if items == [] then Plan([], [], 0)
    else
      var rest := Settle(items[..|items| - 1], previous, proxies);
      var v := Decide(items[|items| - 1], previous, proxies);
      Plan(rest.selected + Listed(v.kept), rest.activations + Listed(v.activation),
           rest.repaired + if v.repaired then 1 else 0)
  }

  function PlanFor(selected: seq<Selected>, previous: Option<Proxies>, proxies: Proxies): Plan {
    var plan := Settle(LastRecords(selected), previous, proxies);
    LastRecordsShorter(selected);
    plan.(repaired := plan.repaired + |selected| - |LastRecords(selected)|)
  }

  lemma {:induction false} LastRecordsShorter(s: seq<Selected>)
    ensures |LastRecords(s)| <= |s|
    ensures |LastRecords(s)| == |s| ==> LastRecords(s) == s
  {
    if s != [] {
      LastRecordsShorter(s[1..]);
    }
  }

  /** Scans from the newest record, keeps the first of each group, and restores the order. */
  method UniqueSelected(selected: seq<Selected>) returns (unique: seq<Selected>)
    ensures unique == LastRecords(selected)
  {
    var seen: set<string> := {};
    unique := [];
    var i := |selected|;
    while i > 0
      invariant 0 <= i <= |selected|
      invariant forall g :: g in seen <==> Names(selected[i..], Some(g))
      invariant Reversed(unique) == LastRecords(selected[i..])
    {
      i := i - 1;
      var item := selected[i];
      assert selected[i..] == [item] + selected[i + 1..];
      NamesCons(item, selected[i + 1..]);
      if item.name.Some? && item.name.value !in seen {
        seen := seen + {item.name.value};
        ReversedAppend(unique, item);
        unique := unique + [item];
      }
    }
    unique := Reversed(unique);
  }

  lemma SettleStart(previous: Option<Proxies>, proxies: Proxies)
    ensures Settle([], previous, proxies) == Plan([], [], 0)
  {
  }

  lemma SettleNext(items: seq<Selected>, k: nat, previous: Option<Proxies>, proxies: Proxies)
    requires k < |items|
    ensures var done := Settle(items[..k], previous, proxies);
            var v := Decide(items[k], previous, proxies);
            Settle(items[..k + 1], previous, proxies) ==
            Plan(done.selected + Listed(v.kept), done.activations + Listed(v.activation),
                 done.repaired + if v.repaired then 1 else 0)
  {
    hide Decide;
    assert items[..k + 1][..k] == items[..k];
  }

  /** The body of the loop: settles one record. */
  method SettleRecord(plan: Plan, item: Selected, previous: Option<Proxies>, proxies: Proxies) returns (next: Plan)
    ensures var v := Decide(item, previous, proxies);
            next == Plan(plan.selected + Listed(v.kept), plan.activations + Listed(v.activation),
                         plan.repaired + if v.repaired then 1 else 0)
  {
    next := plan;
    if !Complete(item) {
      return next.(repaired := next.repaired + 1);
    }
    var name, node := item.name.value, item.now.value;
    if name !in proxies {
      if previous.Some? && name !in previous.value {
        return next.(repaired := next.repaired + 1);
      }
      return next.(selected := next.selected + [item]);
    }
    var group := proxies[name];
    var available := Members(group);
    if available == [] {
      return next.(selected := next.selected + [item]);
    }
    var current := CurrentMember(group);
    if !Selectable(group) {
      var preferred := if current.Some? then current else if node in available then Some(node) else None;
      if preferred.None? {
        return next.(repaired := next.repaired + 1);
      }
      if preferred.value != node {
        next := next.(repaired := next.repaired + 1);
      }
      return next.(selected := next.selected + [Selected(item.name, preferred)]);
    }
    if node in available {
      if group.now != Some(node) {
        next := next.(activations := next.activations + [Activation(name, node)]);
      }
      return next.(selected := next.selected + [item]);
    }
    if !Missed(item, previous) {
      return next.(selected := next.selected + [item]);
    }
    next := next.(repaired := next.repaired + 1);
    if current.Some? {
      next := next.(selected := next.selected + [Selected(item.name, current)]);
    }
  }

  /** The loop that fills the plan, record by record. */
  method ReconcileSelectedNodes(selected: seq<Selected>, previous: Option<Proxies>, proxies: Proxies)
    returns (plan: Plan)
    ensures plan == PlanFor(selected, previous, proxies)
  {
    hide LastRecords, Decide, Settle;
    assert Settle([], previous, proxies) == Plan([], [], 0) by { SettleStart(previous, proxies); }
    var unique := UniqueSelected(selected);
    LastRecordsShorter(selected);
    plan := Plan([], [], |selected| - |unique|);
    for k := 0 to |unique|
      invariant var done := Settle(unique[..k], previous, proxies);
                plan == Plan(done.selected, done.activations, |selected| - |unique| + done.repaired)
    {
      SettleNext(unique, k, previous, proxies);
      plan := SettleRecord(plan, unique[k], previous, proxies);
    }
    assert unique[..|unique|] == unique;
  }

  lemma NamesCons(item: Selected, s: seq<Selected>)
    ensures forall g :: Names([item] + s, g) <==> g == item.name || Names(s, g)
  {
    var t := [item] + s;
    forall g
      ensures Names(t, g) <==> g == item.name || Names(s, g)
    {
      if g == item.name {
        assert t[0].name == g;
      } else if Names(s, g) {
        var i :| 0 <= i < |s| && s[i].name == g;
        assert t[i + 1].name == g;
      }
    }
  }
}
