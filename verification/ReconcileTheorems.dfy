/** What a reconciled plan means: which records survive, what it activates, and why planning again
  * after the activations changes nothing. */
module ReconcileTheorems {
  import opened Options
  import opened Sequences
  import opened Reconcile

  /** Every record has a group, and no group has two. */
  ghost predicate Keyed(s: seq<Selected>) {
    && (forall i :: 0 <= i < |s| ==> s[i].name.Some?)
    && (forall i, j :: 0 <= i < j < |s| ==> s[i].name != s[j].name)
  }

  /** `at` lists the positions of the kept records, each the last of its group. */
  ghost predicate LastPositions(s: seq<Selected>, kept: seq<Selected>, at: seq<nat>) {
    && |at| == |kept|
    && (forall i, j :: 0 <= i < j < |at| ==> at[i] < at[j])
    && (forall i :: 0 <= i < |at| ==> at[i] < |s| && s[at[i]] == kept[i] && kept[i].name.Some?)
    && (forall i, j :: 0 <= i < |at| && at[i] < j < |s| ==> s[j].name != kept[i].name)
  }

  lemma {:induction false} LastRecordsAreLast(s: seq<Selected>) returns (at: seq<nat>)
    ensures LastPositions(s, LastRecords(s), at)
    decreases |s|
  {
    if s == [] {
      return [];
    }
    var kept := LastRecords(s[1..]);
    var rest := LastRecordsAreLast(s[1..]);
    var shifted := PositionsShift(s, kept, rest);
    if s[0].name.Some? && !Names(s[1..], s[0].name) {
      assert LastRecords(s) == [s[0]] + kept;
      NotNamedAgain(s);
      PositionsCons(s, kept, shifted);
      return [0] + shifted;
    } else {
      assert LastRecords(s) == kept;
      return shifted;
    }
  }

  /** Every record of a group that is its last one is there. */
  lemma {:induction false} LastRecordIsKept(s: seq<Selected>, i: nat)
    requires i < |s| && s[i].name.Some? && forall j :: i < j < |s| ==> s[j].name != s[i].name
    ensures s[i] in LastRecords(s)
  {
    if i == 0 {
      assert forall j :: 0 <= j < |s[1..]| ==> s[1..][j] == s[j + 1];
    } else {
      LastRecordIsKept(s[1..], i - 1);
    }
  }

  lemma NotNamedAgain(s: seq<Selected>)
    requires s != [] && !Names(s[1..], s[0].name)
    ensures forall j :: 0 < j < |s| ==> s[j].name != s[0].name
  {
    forall j | 0 < j < |s|
      ensures s[j].name != s[0].name
    {
      assert s[1..][j - 1] == s[j];
    }
  }

  lemma PositionsShift(s: seq<Selected>, kept: seq<Selected>, rest: seq<nat>) returns (shifted: seq<nat>)
    requires s != [] && LastPositions(s[1..], kept, rest)
    ensures LastPositions(s, kept, shifted)
    ensures forall i :: 0 <= i < |shifted| ==> 0 < shifted[i]
  {
    shifted := seq(|rest|, i requires 0 <= i < |rest| => rest[i] + 1);
    forall i, j | 0 <= i < |shifted| && shifted[i] < j < |s|
      ensures s[j].name != kept[i].name
    {
      assert s[1..][j - 1] == s[j];
    }
  }

  lemma PositionsCons(s: seq<Selected>, kept: seq<Selected>, shifted: seq<nat>)
    requires s != [] && s[0].name.Some? && LastPositions(s, kept, shifted)
    requires forall i :: 0 <= i < |shifted| ==> 0 < shifted[i]
    requires forall j :: 0 < j < |s| ==> s[j].name != s[0].name
    ensures LastPositions(s, [s[0]] + kept, [0] + shifted)
  {
    var at, all := [0] + shifted, [s[0]] + kept;
    forall i | 0 < i < |at|
      ensures at[i] == shifted[i - 1] && all[i] == kept[i - 1]
    {
    }
  }

  lemma LastRecordsKeyed(s: seq<Selected>)
    ensures Keyed(LastRecords(s))
  {
    var at := LastRecordsAreLast(s);
  }

  lemma {:induction false} KeyedIsUnique(s: seq<Selected>)
    requires Keyed(s)
    ensures LastRecords(s) == s
  {
    if s != [] {
      KeyedIsUnique(s[1..]);
    }
  }

  // ---- The kept records -------------------------------------------------------------------------

  /** Records keep their group when they are kept, and every repair is a visible change. */
  lemma VerdictShape(item: Selected, previous: Option<Proxies>, proxies: Proxies)
    ensures var v := Decide(item, previous, proxies);
            && (v.repaired <==> v.kept != Some(item))
            && (v.kept.Some? ==> Complete(item) && v.kept.value.name == item.name && Complete(v.kept.value))
            && (v.activation.Some? ==> v.kept == Some(item) && v.activation.value.group == item.name.value
                                       && v.activation.value.node == item.now.value)
  {
  }

  /** `at` lists the records whose verdicts keep something, with what they keep. */
  ghost predicate KeptPositions(items: seq<Selected>, previous: Option<Proxies>, proxies: Proxies,
                                kept: seq<Selected>, at: seq<nat>)
  {
    && |at| == |kept| <= |items|
    && (forall i, j :: 0 <= i < j < |at| ==> at[i] < at[j])
    && (forall i :: 0 <= i < |at| ==>
          at[i] < |items| && Decide(items[at[i]], previous, proxies).kept == Some(kept[i]))
  }

  lemma {:induction false} SettleShape(items: seq<Selected>, previous: Option<Proxies>, proxies: Proxies)
    returns (at: seq<nat>)
    ensures KeptPositions(items, previous, proxies, Settle(items, previous, proxies).selected, at)
  {
    hide Decide;
    at := [];
    if items != [] {
      var n := |items| - 1;
      at := SettleShape(items[..n], previous, proxies);
      var kept := Settle(items[..n], previous, proxies).selected;
      assert KeptPositions(items, previous, proxies, kept, at);
      if Decide(items[n], previous, proxies).kept.Some? {
        at := at + [n];
      }
    }
  }

  lemma {:induction false} VerdictsAreKept(items: seq<Selected>, previous: Option<Proxies>, proxies: Proxies, k: nat)
    requires k < |items| && Decide(items[k], previous, proxies).kept.Some?
    ensures Decide(items[k], previous, proxies).kept.value in Settle(items, previous, proxies).selected
  {
    hide Decide;
    var n := |items| - 1;
    if k < n {
      VerdictsAreKept(items[..n], previous, proxies, k);
    }
  }

  lemma SettleKeyed(items: seq<Selected>, previous: Option<Proxies>, proxies: Proxies)
    requires Keyed(items)
    ensures Keyed(Settle(items, previous, proxies).selected)
  {
    var at := SettleShape(items, previous, proxies);
    var kept := Settle(items, previous, proxies).selected;
    forall i | 0 <= i < |kept|
      ensures kept[i].name == items[at[i]].name
    {
      VerdictShape(items[at[i]], previous, proxies);
    }
  }

  /** The kept records name distinct groups, in the order of the last records of those groups. */
  lemma PlanKeepsLastRecordsInOrder(selected: seq<Selected>, previous: Option<Proxies>, proxies: Proxies)
    returns (at: seq<nat>)
    ensures var plan := PlanFor(selected, previous, proxies);
            && Keyed(plan.selected)
            && |at| == |plan.selected|
            && (forall i, j :: 0 <= i < j < |at| ==> at[i] < at[j])
            && (forall i :: 0 <= i < |at| ==>
                  && at[i] < |selected|
                  && selected[at[i]].name == plan.selected[i].name
                  && forall j :: at[i] < j < |selected| ==> selected[j].name != plan.selected[i].name)
  {
    var items := LastRecords(selected);
    var last := LastRecordsAreLast(selected);
    LastRecordsKeyed(selected);
    SettleKeyed(items, previous, proxies);
    var kept := SettleShape(items, previous, proxies);
    forall i | 0 <= i < |kept|
      ensures PlanFor(selected, previous, proxies).selected[i].name == items[kept[i]].name
    {
      VerdictShape(items[kept[i]], previous, proxies);
    }
    at := seq(|kept|, i requires 0 <= i < |kept| => last[kept[i]]);
  }

  lemma {:induction false} SettleRepairs(items: seq<Selected>, previous: Option<Proxies>, proxies: Proxies)
    ensures var plan := Settle(items, previous, proxies);
            && |plan.selected| <= |items|
            && (plan.repaired == 0 <==> plan.selected == items)
  {
    hide Decide;
    if items != [] {
      var n := |items| - 1;
      SettleRepairs(items[..n], previous, proxies);
      VerdictShape(items[n], previous, proxies);
      assert items == items[..n] + [items[n]];
    }
  }

  /** Nothing was repaired exactly when the records come out unchanged, so a plan without repairs
    * need not be saved and a plan with repairs must be. */
  lemma NoRepairsIffUnchanged(selected: seq<Selected>, previous: Option<Proxies>, proxies: Proxies)
    ensures var plan := PlanFor(selected, previous, proxies);
            plan.repaired == 0 <==> plan.selected == selected
  {
    LastRecordsShorter(selected);
    SettleRepairs(LastRecords(selected), previous, proxies);
  }

  /** The group is there with at least one node. */
  predicate Loaded(proxies: Proxies, g: string) {
    g in proxies && proxies[g].all.Some? && proxies[g].all.value != []
  }

  predicate Offers(proxies: Proxies, g: string, node: string) {
    g in proxies && proxies[g].all.Some? && node in proxies[g].all.value
  }

  predicate Switchable(proxies: Proxies, g: string) {
    g in proxies && proxies[g].proxyType != OtherType
  }

  /** The group is on one of its own nodes. */
  predicate OnOwnNode(proxies: Proxies, g: string) {
    g in proxies && proxies[g].now.Some? && Offers(proxies, g, proxies[g].now.value)
  }

  /** The evidence that a record is stale: its group is in neither snapshot; or the group is loaded
    * and can be switched but lacks the node, in both snapshots; or the group cannot be switched and
    * is on another of its nodes, or on none of them while lacking the recorded one. */
  ghost predicate Stale(item: Selected, previous: Option<Proxies>, proxies: Proxies)
    requires Complete(item)
  {
    var g, node := item.name.value, item.now.value;
    || (g !in proxies && previous.Some? && g !in previous.value)
    || (&& Loaded(proxies, g) && Switchable(proxies, g) && !Offers(proxies, g, node)
        && previous.Some? && Loaded(previous.value, g) && !Offers(previous.value, g, node))
    || (&& Loaded(proxies, g) && !Switchable(proxies, g)
        && (if OnOwnNode(proxies, g) then proxies[g].now != Some(node) else !Offers(proxies, g, node)))
  }

  /** What the verdict keeps, told from the snapshots. */
  lemma VerdictKeeps(item: Selected, previous: Option<Proxies>, proxies: Proxies)
    requires Complete(item)
    ensures Decide(item, previous, proxies).kept ==
            if !Stale(item, previous, proxies) then Some(item)
            else if OnOwnNode(proxies, item.name.value) then Some(Selected(item.name, proxies[item.name.value].now))
            else None
  {
  }

  lemma KeptUnlessStale(item: Selected, previous: Option<Proxies>, proxies: Proxies)
    requires Complete(item)
    ensures Decide(item, previous, proxies).kept == Some(item) <==> !Stale(item, previous, proxies)
  {
  }

  /** A complete last record is changed or dropped exactly on that evidence. */
  lemma RecordSurvivesUnlessStale(selected: seq<Selected>, previous: Option<Proxies>, proxies: Proxies, item: Selected)
    requires item in LastRecords(selected) && Complete(item)
    ensures item in PlanFor(selected, previous, proxies).selected <==> !Stale(item, previous, proxies)
  {
    var items := LastRecords(selected);
    KeptUnlessStale(item, previous, proxies);
    var k :| 0 <= k < |items| && items[k] == item;
    if !Stale(item, previous, proxies) {
      VerdictsAreKept(items, previous, proxies, k);
    } else if item in Settle(items, previous, proxies).selected {
      var j := KeptBy(selected, previous, proxies, item);
    }
  }

  /** The record that a kept record comes from. */
  lemma KeptBy(selected: seq<Selected>, previous: Option<Proxies>, proxies: Proxies, item: Selected) returns (k: nat)
    requires item in Settle(LastRecords(selected), previous, proxies).selected
    ensures var items := LastRecords(selected);
            && k < |items| && Decide(items[k], previous, proxies).kept == Some(item)
            && items[k].name == item.name && items[k] in selected && Keyed(items)
  {
    var items := LastRecords(selected);
    LastRecordsKeyed(selected);
    var last := LastRecordsAreLast(selected);
    var at := SettleShape(items, previous, proxies);
    var kept := Settle(items, previous, proxies).selected;
    var i :| 0 <= i < |kept| && kept[i] == item;
    k := at[i];
    VerdictShape(items[k], previous, proxies);
    assert selected[last[k]] == items[k];
  }

  /** The group of a complete last record stays in the list exactly when the record is not stale, or the
    * group is on one of its own nodes. Then the record is the old one or names that node. */
  lemma GroupIsKeptIff(selected: seq<Selected>, previous: Option<Proxies>, proxies: Proxies, item: Selected)
    requires item in LastRecords(selected) && Complete(item)
    ensures var kept := PlanFor(selected, previous, proxies).selected;
            && ((exists r :: r in kept && r.name == item.name) <==>
                  !Stale(item, previous, proxies) || OnOwnNode(proxies, item.name.value))
            && (forall r :: r in kept && r.name == item.name ==>
                  r == if Stale(item, previous, proxies) then Selected(item.name, proxies[item.name.value].now)
                       else item)
  {
    hide LastRecords, Decide, Stale, OnOwnNode;
    var items := LastRecords(selected);
    var k :| 0 <= k < |items| && items[k] == item;
    VerdictKeeps(item, previous, proxies);
    if Decide(item, previous, proxies).kept.Some? {
      VerdictsAreKept(items, previous, proxies, k);
      VerdictShape(item, previous, proxies);
    }
    forall r | r in PlanFor(selected, previous, proxies).selected && r.name == item.name
      ensures Decide(item, previous, proxies).kept == Some(r)
    {
      var j := KeptBy(selected, previous, proxies, r);
      assert j == k;
    }
  }

  lemma {:induction false} SettleCounts(items: seq<Selected>, previous: Option<Proxies>, proxies: Proxies)
    ensures Settle(items, previous, proxies).repaired
            == |items| - |Filter(items, Unchanged(previous, proxies))|
  {
    hide Decide;
    if items != [] {
      var n := |items| - 1;
      SettleCounts(items[..n], previous, proxies);
      VerdictShape(items[n], previous, proxies);
      if Complete(items[n]) {
        KeptUnlessStale(items[n], previous, proxies);
      }
      FilterNext(items, n, Unchanged(previous, proxies));
      assert items[..n + 1] == items;
    }
  }

  /** Complete and not stale. */
  ghost function Unchanged(previous: Option<Proxies>, proxies: Proxies): Selected -> bool {
    (x: Selected) => Complete(x) && !Stale(x, previous, proxies)
  }

  /** The repairs reported are the records that have no place in the new list as they are. */
  lemma RepairsAreCounted(selected: seq<Selected>, previous: Option<Proxies>, proxies: Proxies)
    ensures PlanFor(selected, previous, proxies).repaired
            == |selected| - |Filter(LastRecords(selected), Unchanged(previous, proxies))|
  {
    LastRecordsShorter(selected);
    SettleCounts(LastRecords(selected), previous, proxies);
  }

  lemma ReplacedByCurrent(item: Selected, previous: Option<Proxies>, proxies: Proxies, next: Selected)
    requires Decide(item, previous, proxies).kept == Some(next) && next != item
    ensures Complete(next) && next.name.value in proxies && proxies[next.name.value].now == next.now
            && Offers(proxies, next.name.value, next.now.value)
  {
  }

  /** A record that replaces another one names the node its group is on. */
  lemma ReplacementsAreCurrent(selected: seq<Selected>, previous: Option<Proxies>, proxies: Proxies, item: Selected)
    requires item in PlanFor(selected, previous, proxies).selected && item !in selected
    ensures Complete(item) && item.name.value in proxies
            && proxies[item.name.value].now == item.now
            && Offers(proxies, item.name.value, item.now.value)
  {
    var k := KeptBy(selected, previous, proxies, item);
    ReplacedByCurrent(LastRecords(selected)[k], previous, proxies, item);
  }

  // ---- The activations --------------------------------------------------------------------------

  lemma {:induction false} SettleActivates(items: seq<Selected>, previous: Option<Proxies>, proxies: Proxies,
                                           x: Activation)
    ensures x in Settle(items, previous, proxies).activations <==>
              exists k :: 0 <= k < |items| && Decide(items[k], previous, proxies).activation == Some(x)
  {
    hide Decide;
    if items != [] {
      var n := |items| - 1;
      SettleActivates(items[..n], previous, proxies, x);
      if Decide(items[n], previous, proxies).activation != Some(x) {
        forall k | 0 <= k < |items| && Decide(items[k], previous, proxies).activation == Some(x)
          ensures Decide(items[..n][k], previous, proxies).activation == Some(x)
        {
        }
      }
    }
  }

  predicate DistinctGroups(s: seq<Activation>) {
    forall i, j :: 0 <= i < j < |s| ==> s[i].group != s[j].group
  }

  lemma {:induction false} SettleDistinct(items: seq<Selected>, previous: Option<Proxies>, proxies: Proxies)
    requires Keyed(items)
    ensures DistinctGroups(Settle(items, previous, proxies).activations)
  {
    hide Decide;
    if items != [] {
      var n := |items| - 1;
      SettleDistinct(items[..n], previous, proxies);
      var rest := Settle(items[..n], previous, proxies).activations;
      VerdictShape(items[n], previous, proxies);
      forall i | 0 <= i < |rest|
        ensures Some(rest[i].group) != items[n].name
      {
        SettleActivates(items[..n], previous, proxies, rest[i]);
        var k :| 0 <= k < n && Decide(items[..n][k], previous, proxies).activation == Some(rest[i]);
        VerdictShape(items[k], previous, proxies);
      }
    }
  }

  ghost predicate Activates(item: Selected, proxies: Proxies, x: Activation) {
    && item == Selected(Some(x.group), Some(x.node))
    && Switchable(proxies, x.group) && Offers(proxies, x.group, x.node)
    && proxies[x.group].now != Some(x.node)
  }

  lemma VerdictActivates(item: Selected, previous: Option<Proxies>, proxies: Proxies, x: Activation)
    ensures Decide(item, previous, proxies).activation == Some(x) <==> Activates(item, proxies, x)
  {
  }

  /** A plan activates exactly the last records whose loaded, switchable group has the node but is
    * not on it, each group once. */
  lemma PlanActivates(selected: seq<Selected>, previous: Option<Proxies>, proxies: Proxies, x: Activation)
    ensures var plan := PlanFor(selected, previous, proxies);
            && DistinctGroups(plan.activations)
            && (x in plan.activations <==> exists item :: item in LastRecords(selected) && Activates(item, proxies, x))
  {
    var items := LastRecords(selected);
    LastRecordsKeyed(selected);
    SettleDistinct(items, previous, proxies);
    SettleActivates(items, previous, proxies, x);
    forall k | 0 <= k < |items|
      ensures Decide(items[k], previous, proxies).activation == Some(x) <==> Activates(items[k], proxies, x)
    {
      VerdictActivates(items[k], previous, proxies, x);
    }
  }

  /** The snapshot after the core has carried out the activations. */
  function Activate(proxies: Proxies, activations: seq<Activation>): Proxies {
    if activations == [] then proxies
    else
      var rest := Activate(proxies, activations[..|activations| - 1]);
      var x := activations[|activations| - 1];
      if x.group in rest then rest[x.group := rest[x.group].(now := Some(x.node))] else rest
  }

  lemma {:induction false} Activated(proxies: Proxies, activations: seq<Activation>, name: string)
    requires DistinctGroups(activations)
    ensures var after := Activate(proxies, activations);
            && (name in after <==> name in proxies)
            && ((forall x :: x in activations ==> x.group != name) && name in proxies ==> after[name] == proxies[name])
            && (forall x :: x in activations && x.group == name && name in proxies ==>
                  after[name] == proxies[name].(now := Some(x.node)))
  {
    if activations != [] {
      var n := |activations| - 1;
      Activated(proxies, activations[..n], name);
      assert forall x :: x in activations <==> x in activations[..n] || x == activations[n];
    }
  }

  /** A kept record is settled in the snapshot that its own activation leads to. */
  lemma VerdictIsStable(item: Selected, previous: Option<Proxies>, before: Proxies, after: Proxies)
    requires var v := Decide(item, previous, before);
             v.kept.Some? ==>
               && (item.name.value in after <==> item.name.value in before)
               && (item.name.value in before ==>
                     after[item.name.value] ==
                     if v.activation.Some? then before[item.name.value].(now := Some(v.activation.value.node))
                     else before[item.name.value])
    ensures var v := Decide(item, previous, before);
            v.kept.Some? ==> Decide(v.kept.value, previous, after) == Verdict(v.kept, None, false)
  {
  }

  ghost predicate Stable(item: Selected, previous: Option<Proxies>, proxies: Proxies) {
    Decide(item, previous, proxies) == Verdict(Some(item), None, false)
  }

  lemma {:induction false} StableSettle(items: seq<Selected>, previous: Option<Proxies>, after: Proxies)
    requires forall x :: x in items ==> Stable(x, previous, after)
    ensures Settle(items, previous, after) == Plan(items, [], 0)
  {
    hide Decide;
    if items != [] {
      var init, x := items[..|items| - 1], items[|items| - 1];
      StableSettle(init, previous, after);
      var v := Decide(x, previous, after);
      assert Stable(x, previous, after);
      assert Settle(items, previous, after) == Plan(init + Listed(v.kept), [] + Listed(v.activation), 0);
      assert items == init + [x];
    }
  }

  /** Reconciling is a fixpoint in one step: once the core has carried out the activations, planning
    * again from the kept records keeps them all, activates nothing and repairs nothing. */
  lemma ReconcilingTwiceChangesNothing(selected: seq<Selected>, previous: Option<Proxies>, proxies: Proxies)
    ensures var plan := PlanFor(selected, previous, proxies);
            PlanFor(plan.selected, previous, Activate(proxies, plan.activations)) == Plan(plan.selected, [], 0)
  {
    hide Decide, LastRecords, Settle;
    var items := LastRecords(selected);
    var plan := PlanFor(selected, previous, proxies);
    var after := Activate(proxies, plan.activations);
    LastRecordsKeyed(selected);
    SettleKeyed(items, previous, proxies);
    SettleDistinct(items, previous, proxies);
    KeyedIsUnique(plan.selected);
    var at := SettleShape(items, previous, proxies);
    forall i | 0 <= i < |plan.selected|
      ensures Stable(plan.selected[i], previous, after)
    {
      VerdictShape(items[at[i]], previous, proxies);
      OwnActivation(selected, previous, proxies, at[i]);
      VerdictIsStable(items[at[i]], previous, proxies, after);
    }
    StableSettle(plan.selected, previous, after);
  }

  /** In the activated snapshot a record's group has moved only if that record asked for it. */
  lemma OwnActivation(selected: seq<Selected>, previous: Option<Proxies>, proxies: Proxies, k: nat)
    requires k < |LastRecords(selected)| && Complete(LastRecords(selected)[k])
    ensures var item := LastRecords(selected)[k];
            var v := Decide(item, previous, proxies);
            var after := Activate(proxies, PlanFor(selected, previous, proxies).activations);
            && (item.name.value in after <==> item.name.value in proxies)
            && (item.name.value in proxies ==>
                  after[item.name.value] ==
                  if v.activation.Some? then proxies[item.name.value].(now := Some(v.activation.value.node))
                  else proxies[item.name.value])
  {
    hide Decide, LastRecords;
    var items := LastRecords(selected);
    var item := items[k];
    var activations := PlanFor(selected, previous, proxies).activations;
    LastRecordsKeyed(selected);
    SettleDistinct(items, previous, proxies);
    Activated(proxies, activations, item.name.value);
    forall x | x in activations && x.group == item.name.value
      ensures Decide(item, previous, proxies).activation == Some(x)
    {
      SettleActivates(items, previous, proxies, x);
      var j :| 0 <= j < |items| && Decide(items[j], previous, proxies).activation == Some(x);
      VerdictShape(items[j], previous, proxies);
      assert j == k;
    }
    var v := Decide(item, previous, proxies);
    if v.activation.Some? {
      VerdictShape(item, previous, proxies);
      SettleActivates(items, previous, proxies, v.activation.value);
    }
  }

  // ---- Confirmation -----------------------------------------------------------------------------

  predicate NeedsConfirmation(selected: seq<Selected>, proxies: Proxies) {
    exists i :: 0 <= i < |selected| && Complete(selected[i])
      && (selected[i].name.value !in proxies || selected[i].now.value !in Members(proxies[selected[i].name.value]))
  }

  lemma {:induction false} SettleAgrees(items: seq<Selected>, p: Option<Proxies>, q: Option<Proxies>, proxies: Proxies)
    requires forall i :: 0 <= i < |items| ==> Decide(items[i], p, proxies) == Decide(items[i], q, proxies)
    ensures Settle(items, p, proxies) == Settle(items, q, proxies)
  {
    if items != [] {
      SettleAgrees(items[..|items| - 1], p, q, proxies);
    }
  }

  /** When no record needs confirming, no second look could change the plan. */
  lemma ConfirmationIsAskedWheneverItMatters(selected: seq<Selected>, previous: Option<Proxies>, proxies: Proxies)
    requires !NeedsConfirmation(selected, proxies)
    ensures PlanFor(selected, previous, proxies) == PlanFor(selected, None, proxies)
  {
    hide Decide;
    var at := LastRecordsAreLast(selected);
    forall item | item in LastRecords(selected)
      ensures !Doubtful(item, proxies)
    {
      var i :| 0 <= i < |LastRecords(selected)| && LastRecords(selected)[i] == item;
      assert selected[at[i]] == item;
    }
    PlanIsCertain(selected, previous, proxies);
  }

  /** An earlier snapshot could speak against the record: its group is missing, or can be switched and
    * is loaded without the node. */
  predicate Doubtful(item: Selected, proxies: Proxies) {
    && Complete(item)
    && (item.name.value in proxies ==>
          && Switchable(proxies, item.name.value) && Loaded(proxies, item.name.value)
          && !Offers(proxies, item.name.value, item.now.value))
  }

  lemma CertainVerdict(item: Selected, previous: Option<Proxies>, proxies: Proxies)
    requires !Doubtful(item, proxies)
    ensures Decide(item, previous, proxies) == Decide(item, None, proxies)
  {
  }

  lemma PlanIsCertain(selected: seq<Selected>, previous: Option<Proxies>, proxies: Proxies)
    requires forall item :: item in LastRecords(selected) ==> !Doubtful(item, proxies)
    ensures PlanFor(selected, previous, proxies) == PlanFor(selected, None, proxies)
  {
    hide Decide, Doubtful;
    var items := LastRecords(selected);
    forall i | 0 <= i < |items|
      ensures Decide(items[i], previous, proxies) == Decide(items[i], None, proxies)
    {
      CertainVerdict(items[i], previous, proxies);
    }
    SettleAgrees(items, previous, None, proxies);
  }

  /** An earlier snapshot in which the record's group has only another node. */
  function Contrary(item: Selected, proxies: Proxies): Proxies
    requires Doubtful(item, proxies)
  {
    if item.name.value in proxies then map[item.name.value := Proxy(Selector, Some([item.now.value + "x"]), None)]
    else map[]
  }

  lemma ContraryIsStale(item: Selected, proxies: Proxies)
    requires Doubtful(item, proxies)
    ensures Stale(item, Some(Contrary(item, proxies)), proxies) && !Stale(item, None, proxies)
  {
    assert |item.now.value + "x"| != |item.now.value|;
  }

  ghost predicate ConfirmationMatters(selected: seq<Selected>, proxies: Proxies) {
    exists previous :: PlanFor(selected, previous, proxies) != PlanFor(selected, None, proxies)
  }

  /** Some earlier snapshot would change the plan exactly when some last record is doubtful. */
  lemma ConfirmationMattersIff(selected: seq<Selected>, proxies: Proxies)
    ensures ConfirmationMatters(selected, proxies) <==>
              exists item :: item in LastRecords(selected) && Doubtful(item, proxies)
  {
    hide LastRecords, PlanFor, Stale;
    if item :| item in LastRecords(selected) && Doubtful(item, proxies) {
      var previous := Some(Contrary(item, proxies));
      ContraryIsStale(item, proxies);
      RecordSurvivesUnlessStale(selected, previous, proxies, item);
      RecordSurvivesUnlessStale(selected, None, proxies, item);
      assert PlanFor(selected, previous, proxies) != PlanFor(selected, None, proxies);
    } else {
      forall previous
        ensures PlanFor(selected, previous, proxies) == PlanFor(selected, None, proxies)
      {
        PlanIsCertain(selected, previous, proxies);
      }
    }
  }

  /** When all groups concerned are loaded and can be switched and none is recorded twice, confirmation
    * is asked for exactly when it matters. */
  lemma ConfirmationIsExactOnceLoaded(selected: seq<Selected>, proxies: Proxies)
    requires LastRecords(selected) == selected
    requires forall item :: item in selected && Complete(item) && item.name.value in proxies ==>
               Switchable(proxies, item.name.value) && Loaded(proxies, item.name.value)
    ensures NeedsConfirmation(selected, proxies) <==> ConfirmationMatters(selected, proxies)
  {
    ConfirmationMattersIff(selected, proxies);
    forall i | 0 <= i < |selected|
      ensures selected[i] in selected
    {
    }
  }
}
