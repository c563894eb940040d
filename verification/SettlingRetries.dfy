/** The rounds that retry to put selections back until nothing is unsettled. A round plans from a new
  * snapshot, and skips the activations that its worker has recorded as carried out. */
module SettlingRetries {
  import opened Options
  import opened Sequences
  import opened Reconcile
  import opened ReconcileTheorems

  type Completed = map<string, string>

  predicate CarriedOut(x: Activation, completed: Completed) {
    x.group in completed && completed[x.group] == x.node
  }

  /** The activations that are not already recorded as carried out. */
  function Remaining(activations: seq<Activation>, completed: Completed): seq<Activation> {
    Filter(activations, (x: Activation) => !CarriedOut(x, completed))
  }

  lemma {:induction false} FilterDistinct(activations: seq<Activation>, p: Activation -> bool)
    requires DistinctGroups(activations)
    ensures DistinctGroups(Filter(activations, p))
  {
    if activations != [] {
      FilterDistinct(activations[1..], p);
      var rest := Filter(activations[1..], p);
      forall i | 0 <= i < |rest|
        ensures rest[i].group != activations[0].group
      {
        assert rest[i] in activations[1..];
      }
    }
  }

  ghost predicate Pending(todo: seq<Activation>, completed: Completed) {
    DistinctGroups(todo) && forall x :: x in todo ==> !CarriedOut(x, completed)
  }

  lemma RemainingDistinct(activations: seq<Activation>, completed: Completed)
    requires DistinctGroups(activations)
    ensures Pending(Remaining(activations, completed), completed)
  {
    FilterDistinct(activations, (x: Activation) => !CarriedOut(x, completed));
  }

  // ---- One round --------------------------------------------------------------------------------

  /** What a round carries out, when the core refuses the activations in `failed`. */
  function Achieved(activations: seq<Activation>, completed: Completed, failed: set<Activation>): seq<Activation> {
    Filter(Remaining(activations, completed), (x: Activation) => x !in failed)
  }

  function Noted(completed: Completed, done: seq<Activation>): Completed {
    if done == [] then completed
    else
      var x := done[|done| - 1];
      Noted(completed, done[..|done| - 1])[x.group := x.node]
  }

  /** Issues what remains, one selection after the other, and notes those that succeed. */
  method ApplyActivations(activations: seq<Activation>, completed: Completed, failed: set<Activation>)
    returns (done: seq<Activation>, noted: Completed)
    ensures done == Achieved(activations, completed, failed) && noted == Noted(completed, done)
  {
    hide Filter, Noted;
    var todo := Remaining(activations, completed);
    ghost var p := (x: Activation) => x !in failed;
    done, noted := [], completed;
    NothingNoted(completed);
    FilterNone(todo[..0], p);
    for k := 0 to |todo|
      invariant done == Filter(todo[..k], p) && noted == Noted(completed, done)
    {
      FilterNext(todo, k, p);
      if todo[k] !in failed {
        NotedNext(completed, done, todo[k]);
        done := done + [todo[k]];
        noted := noted[todo[k].group := todo[k].node];
      }
    }
    assert todo[..|todo|] == todo;
  }

  lemma NothingNoted(completed: Completed)
    ensures Noted(completed, []) == completed
  {
  }

  lemma NotedNext(completed: Completed, done: seq<Activation>, x: Activation)
    ensures Noted(completed, done + [x]) == Noted(completed, done)[x.group := x.node]
  {
    assert (done + [x])[..|done|] == done;
  }

  /** The core after a round that started from its snapshot `proxies`. */
  function AfterRound(selected: seq<Selected>, proxies: Proxies, completed: Completed, failed: set<Activation>):
    Proxies
  {
    Activate(proxies, Achieved(PlanFor(selected, None, proxies).activations, completed, failed))
  }

  /** The core can put the record back right now. */
  predicate Restorable(item: Selected, proxies: Proxies)
    requires Complete(item)
  {
    Switchable(proxies, item.name.value) && Offers(proxies, item.name.value, item.now.value)
  }

  /** The group's last record names the node, and the core could be put on it. */
  predicate Restores(selected: seq<Selected>, proxies: Proxies, g: string, node: string) {
    Selected(Some(g), Some(node)) in LastRecords(selected) && Restorable(Selected(Some(g), Some(node)), proxies)
  }

  /** The group ends the round on the node of its last record: it is there already, or the selection is
    * not noted as carried out earlier and does not fail. */
  predicate Puts(selected: seq<Selected>, proxies: Proxies, completed: Completed, failed: set<Activation>,
                 g: string, node: string)
  {
    && Restores(selected, proxies, g, node)
    && (proxies[g].now == Some(node)
        || (!CarriedOut(Activation(g, node), completed) && Activation(g, node) !in failed))
  }

  ghost predicate CanPut(selected: seq<Selected>, proxies: Proxies, completed: Completed, failed: set<Activation>,
                         g: string)
  {
    exists node :: Puts(selected, proxies, completed, failed, g, node)
  }

  lemma RestoresOne(selected: seq<Selected>, proxies: Proxies, g: string, a: string, b: string)
    requires Restores(selected, proxies, g, a) && Restores(selected, proxies, g, b)
    ensures a == b
  {
    LastRecordsKeyed(selected);
  }

  lemma AchievedIff(selected: seq<Selected>, proxies: Proxies, completed: Completed, failed: set<Activation>,
                    x: Activation)
    ensures var done := Achieved(PlanFor(selected, None, proxies).activations, completed, failed);
            && DistinctGroups(done)
            && (x in done <==>
                  && Restores(selected, proxies, x.group, x.node) && proxies[x.group].now != Some(x.node)
                  && !CarriedOut(x, completed) && x !in failed)
  {
    hide LastRecords, PlanFor;
    var activations := PlanFor(selected, None, proxies).activations;
    PlanActivates(selected, None, proxies, x);
    RemainingDistinct(activations, completed);
    FilterDistinct(Remaining(activations, completed), (y: Activation) => y !in failed);
    assert Activates(Selected(Some(x.group), Some(x.node)), proxies, x) <==>
      Restorable(Selected(Some(x.group), Some(x.node)), proxies) && proxies[x.group].now != Some(x.node);
  }

  /** What a round does to a group. */
  lemma GroupAfterRound(selected: seq<Selected>, proxies: Proxies, completed: Completed, failed: set<Activation>,
                        g: string)
    ensures var after := AfterRound(selected, proxies, completed, failed);
            && (g in after <==> g in proxies)
            && (forall node :: Puts(selected, proxies, completed, failed, g, node) ==> after[g].now == Some(node))
            && (!CanPut(selected, proxies, completed, failed, g) && g in proxies ==> after[g].now == proxies[g].now)
  {
    hide Restores, Achieved;
    var done := Achieved(PlanFor(selected, None, proxies).activations, completed, failed);
    AchievedIff(selected, proxies, completed, failed, Activation(g, g));
    Activated(proxies, done, g);
    forall x | x in done && x.group == g
      ensures Puts(selected, proxies, completed, failed, g, x.node)
      ensures g in proxies && proxies[g].now != Some(x.node)
    {
      AchievedIff(selected, proxies, completed, failed, x);
      RestoredIsLoaded(selected, proxies, g, x.node);
    }
    forall node | Puts(selected, proxies, completed, failed, g, node)
      ensures g in proxies && AfterRound(selected, proxies, completed, failed)[g].now == Some(node)
    {
      RestoredIsLoaded(selected, proxies, g, node);
      AchievedIff(selected, proxies, completed, failed, Activation(g, node));
      forall x | x in done && x.group == g
        ensures x.node == node
      {
        RestoresOne(selected, proxies, g, x.node, node);
      }
    }
  }

  lemma RestoredIsLoaded(selected: seq<Selected>, proxies: Proxies, g: string, node: string)
    requires Restores(selected, proxies, g, node)
    ensures g in proxies
  {
  }

  predicate Settled(item: Selected, proxies: Proxies)
    requires Complete(item)
  {
    item.name.value in proxies && proxies[item.name.value].now == item.now
  }

  /** The groups whose recorded node the core is not on. */
  function Unsettled(selected: seq<Selected>, proxies: Proxies): seq<string> {
    if selected == [] then []
    else
      (if Complete(selected[0]) && !Settled(selected[0], proxies) then [selected[0].name.value] else [])
      + Unsettled(selected[1..], proxies)
  }

  ghost predicate Lags(item: Selected, proxies: Proxies, g: string) {
    item.name == Some(g) && Complete(item) && !Settled(item, proxies)
  }

  lemma {:induction false} UnsettledIff(selected: seq<Selected>, proxies: Proxies, g: string)
    ensures g in Unsettled(selected, proxies) <==> exists item :: item in selected && Lags(item, proxies, g)
    ensures forall item :: Lags(item, proxies, g) <==>
              item.name == Some(g) && item.now.Some? && !(g in proxies && proxies[g].now == item.now)
  {
    if selected != [] {
      UnsettledIff(selected[1..], proxies, g);
      assert forall item :: item in selected <==> item == selected[0] || item in selected[1..];
      assert g in Unsettled(selected, proxies) <==>
        Lags(selected[0], proxies, g) || g in Unsettled(selected[1..], proxies);
    }
  }

  lemma SettledAfterRound(selected: seq<Selected>, proxies: Proxies, completed: Completed, failed: set<Activation>,
                          item: Selected)
    requires Complete(item)
    ensures var g := item.name.value;
            Settled(item, AfterRound(selected, proxies, completed, failed)) <==>
              if CanPut(selected, proxies, completed, failed, g)
              then Puts(selected, proxies, completed, failed, g, item.now.value)
              else Settled(item, proxies)
  {
    hide Restores, AfterRound;
    var g := item.name.value;
    GroupAfterRound(selected, proxies, completed, failed, g);
    if node :| Puts(selected, proxies, completed, failed, g, node) {
      RestoredIsLoaded(selected, proxies, g, node);
    }
  }

  /** What a round achieves: a group that it puts on the node of its last record is unsettled exactly
    * when another record of it names another node, and any other group exactly when it was before. */
  lemma SettlingRound(selected: seq<Selected>, proxies: Proxies, completed: Completed, failed: set<Activation>,
                      g: string)
    ensures g in Unsettled(selected, AfterRound(selected, proxies, completed, failed)) <==>
              if CanPut(selected, proxies, completed, failed, g) then
                exists item :: item in selected && item.name == Some(g) && Complete(item)
                               && !Puts(selected, proxies, completed, failed, g, item.now.value)
              else
                g in Unsettled(selected, proxies)
  {
    hide AfterRound, Puts, CanPut;
    UnsettledIff(selected, AfterRound(selected, proxies, completed, failed), g);
    UnsettledIff(selected, proxies, g);
    forall item | item in selected && item.name == Some(g) && Complete(item)
      ensures Lags(item, AfterRound(selected, proxies, completed, failed), g) <==>
                if CanPut(selected, proxies, completed, failed, g)
                then !Puts(selected, proxies, completed, failed, g, item.now.value)
                else Lags(item, proxies, g)
    {
      SettledAfterRound(selected, proxies, completed, failed, item);
    }
  }

  /** A round puts a group that its snapshot could restore on its node exactly when the group is there,
    * or the worker has not noted that selection earlier and it does not fail now. */
  lemma RoundRestoresIff(selected: seq<Selected>, proxies: Proxies, completed: Completed, failed: set<Activation>,
                         g: string, node: string)
    requires Restores(selected, proxies, g, node)
    ensures var x := Activation(g, node);
            var after := AfterRound(selected, proxies, completed, failed);
            g in after && (after[g].now == Some(node) <==>
              proxies[g].now == Some(node) || (!CarriedOut(x, completed) && x !in failed))
  {
    hide AfterRound;
    GroupAfterRound(selected, proxies, completed, failed, g);
    forall other | Puts(selected, proxies, completed, failed, g, other)
      ensures other == node
    {
      RestoresOne(selected, proxies, g, other, node);
    }
  }

  /** So a restorable group can be passed over: g was put on a earlier, the core has left a since, and
    * the round does nothing. */
  lemma RestorableGroupsCanBeSkipped()
    ensures var selected := [Selected(Some("g"), Some("a"))];
            var proxies := map["g" := Proxy(Selector, Some(["a", "b"]), Some("b"))];
            && Restores(selected, proxies, "g", "a")
            && "g" in Unsettled(selected, AfterRound(selected, proxies, map["g" := "a"], {}))
  {
    var item := Selected(Some("g"), Some("a"));
    var selected, completed := [item], map["g" := "a"];
    var proxies := map["g" := Proxy(Selector, Some(["a", "b"]), Some("b"))];
    assert "a"[0] != "b"[0];
    assert LastRecords(selected) == [item] + LastRecords(selected[1..]);
    assert ["a", "b"][0] == "a";
    RoundRestoresIff(selected, proxies, completed, {}, "g", "a");
    UnsettledIff(selected, AfterRound(selected, proxies, completed, {}), "g");
    assert item in selected;
  }

  // ---- Every round ------------------------------------------------------------------------------

  /** A round's snapshot and what the core refuses in it. */
  datatype Round = Round(proxies: Proxies, failed: set<Activation>)

  function AchievedIn(selected: seq<Selected>, r: Round, completed: Completed): seq<Activation> {
    Achieved(PlanFor(selected, None, r.proxies).activations, completed, r.failed)
  }

  /** Everything that the rounds of one worker carry out. */
  function AllAchieved(selected: seq<Selected>, rounds: seq<Round>, completed: Completed): seq<Activation>
    decreases |rounds|
  {
    if rounds == [] then []
    else
      var done := AchievedIn(selected, rounds[0], completed);
      done + AllAchieved(selected, rounds[1..], Noted(completed, done))
  }

  lemma {:induction false} NotedIff(completed: Completed, done: seq<Activation>, g: string)
    requires DistinctGroups(done)
    ensures forall x :: x in done && x.group == g ==> g in Noted(completed, done) && Noted(completed, done)[g] == x.node
    ensures (forall x :: x in done ==> x.group != g) ==>
              (g in Noted(completed, done) <==> g in completed)
              && (g in completed ==> Noted(completed, done)[g] == completed[g])
  {
    if done != [] {
      NotedIff(completed, done[..|done| - 1], g);
      assert forall x :: x in done <==> x in done[..|done| - 1] || x == done[|done| - 1];
    }
  }

  /** A group that the worker has put on its node is never restored by that worker again, whatever
    * becomes of it in the snapshots of later rounds. */
  lemma {:induction false} RestoredOnlyOnce(selected: seq<Selected>, rounds: seq<Round>, completed: Completed,
                                            g: string, node: string)
    requires Selected(Some(g), Some(node)) in LastRecords(selected) && CarriedOut(Activation(g, node), completed)
    ensures forall x :: x in AllAchieved(selected, rounds, completed) ==> x.group != g
    decreases |rounds|
  {
    if rounds != [] {
      hide LastRecords, PlanFor, Achieved;
      var r := rounds[0];
      var done := AchievedIn(selected, r, completed);
      AchievedIff(selected, r.proxies, completed, r.failed, Activation(g, node));
      LastRecordsKeyed(selected);
      forall x | x in done
        ensures x.group != g
      {
        AchievedIff(selected, r.proxies, completed, r.failed, x);
      }
      NotedIff(completed, done, g);
      RestoredOnlyOnce(selected, rounds[1..], Noted(completed, done), g, node);
    }
  }

  // ---- Success ----------------------------------------------------------------------------------

  /** The complete records of one group all name the same node. */
  predicate Agreeing(selected: seq<Selected>) {
    forall i, j ::
      0 <= i < j < |selected| && Complete(selected[i]) && Complete(selected[j]) && selected[i].name == selected[j].name
      ==> selected[i].now == selected[j].now
  }

  /** A snapshot in which every group is on the node of its first complete record. */
  function Wanted(selected: seq<Selected>): Proxies {
    if selected == [] then map[]
    else if Complete(selected[0]) then
      Wanted(selected[1..])[selected[0].name.value := Proxy(Selector, None, selected[0].now)]
    else Wanted(selected[1..])
  }

  lemma {:induction false} WantedSettles(selected: seq<Selected>, item: Selected)
    requires Agreeing(selected) && item in selected && Complete(item)
    ensures Settled(item, Wanted(selected))
  {
    var i :| 0 <= i < |selected| && selected[i] == item;
    if i > 0 {
      assert selected[1..][i - 1] == item;
      WantedSettles(selected[1..], item);
    }
  }

  ghost predicate CanSettle(selected: seq<Selected>) {
    exists proxies :: Unsettled(selected, proxies) == []
  }

  /** The retries can come to an end before their deadline, in whatever state of the core, exactly when
    * no group is recorded with two different nodes. */
  lemma RetriesCanSucceedIff(selected: seq<Selected>)
    ensures CanSettle(selected) <==> Agreeing(selected)
  {
    if Agreeing(selected) {
      var proxies := Wanted(selected);
      if Unsettled(selected, proxies) != [] {
        var g := Unsettled(selected, proxies)[0];
        UnsettledIff(selected, proxies, g);
        var item :| item in selected && Lags(item, proxies, g);
        WantedSettles(selected, item);
      }
      assert Unsettled(selected, proxies) == [];
    } else {
      var i, j :| 0 <= i < j < |selected| && Complete(selected[i]) && Complete(selected[j])
                  && selected[i].name == selected[j].name && selected[i].now != selected[j].now;
      forall proxies
        ensures Unsettled(selected, proxies) != []
      {
        var g := selected[i].name.value;
        assert selected[i] in selected && selected[j] in selected;
        assert Lags(selected[i], proxies, g) || Lags(selected[j], proxies, g);
        UnsettledIff(selected, proxies, g);
      }
    }
  }

  /** Such a list: the planner restores b, and then a is reported as unsettled until the deadline. */
  lemma DuplicatesNeverSettle()
    ensures var selected := [Selected(Some("g"), Some("a")), Selected(Some("g"), Some("b"))];
            !CanSettle(selected) && LastRecords(selected) == [selected[1]]
  {
    var selected := [Selected(Some("g"), Some("a")), Selected(Some("g"), Some("b"))];
    assert "a"[0] != "b"[0];
    RetriesCanSucceedIff(selected);
    assert selected[1..] == [selected[1]] && selected[1..][0].name == selected[0].name;
    assert Names(selected[1..], selected[0].name);
    assert LastRecords(selected[1..]) == [selected[1]] + LastRecords(selected[1..][1..]);
  }

  lemma UnsettledNothingIff(selected: seq<Selected>, proxies: Proxies)
    ensures Unsettled(selected, proxies) == [] <==>
              forall item :: item in selected && Complete(item) ==> Settled(item, proxies)
  {
    if Unsettled(selected, proxies) != [] {
      UnsettledIff(selected, proxies, Unsettled(selected, proxies)[0]);
    }
    forall item | item in selected && Complete(item) && !Settled(item, proxies)
      ensures Unsettled(selected, proxies) != []
    {
      UnsettledIff(selected, proxies, item.name.value);
      assert Lags(item, proxies, item.name.value);
    }
  }

  /** A round ends the retries exactly when no group is recorded with two nodes and every record is
    * settled before it or put in effect by it. */
  lemma RoundSettlesAllIff(selected: seq<Selected>, proxies: Proxies, completed: Completed, failed: set<Activation>)
    ensures Unsettled(selected, AfterRound(selected, proxies, completed, failed)) == [] <==>
              && Agreeing(selected)
              && forall item :: item in selected && Complete(item) ==>
                   || Settled(item, proxies)
                   || Puts(selected, proxies, completed, failed, item.name.value, item.now.value)
  {
    hide AfterRound, Puts;
    var after := AfterRound(selected, proxies, completed, failed);
    UnsettledNothingIff(selected, after);
    forall item | item in selected && Complete(item)
      ensures Settled(item, after) <==>
                if CanPut(selected, proxies, completed, failed, item.name.value)
                then Puts(selected, proxies, completed, failed, item.name.value, item.now.value)
                else Settled(item, proxies)
      ensures Agreeing(selected) && CanPut(selected, proxies, completed, failed, item.name.value) ==>
                Puts(selected, proxies, completed, failed, item.name.value, item.now.value)
    {
      SettledAfterRound(selected, proxies, completed, failed, item);
      if node :| Agreeing(selected) && Puts(selected, proxies, completed, failed, item.name.value, node) {
        PutIsAgreed(selected, proxies, completed, failed, item, node);
      }
    }
    if Unsettled(selected, after) == [] {
      forall i, j | 0 <= i < j < |selected| && Complete(selected[i]) && Complete(selected[j])
                    && selected[i].name == selected[j].name
        ensures selected[i].now == selected[j].now
      {
        assert Settled(selected[i], after) && Settled(selected[j], after);
      }
    }
  }

  lemma PutIsAgreed(selected: seq<Selected>, proxies: Proxies, completed: Completed, failed: set<Activation>,
                    item: Selected, node: string)
    requires Agreeing(selected) && item in selected && Complete(item)
    requires Puts(selected, proxies, completed, failed, item.name.value, node)
    ensures item.now == Some(node)
  {
    var last := Selected(item.name, Some(node));
    var at := LastRecordsAreLast(selected);
    var k :| 0 <= k < |LastRecords(selected)| && LastRecords(selected)[k] == last;
    assert selected[at[k]] == last;
    var i :| 0 <= i < |selected| && selected[i] == item;
  }
}
