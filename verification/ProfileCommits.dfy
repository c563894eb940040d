/** What the committed edits of the profile list do to it and to the saved selections. */
module ProfileCommits {
  import opened Options
  import opened Sequences
  import opened Reconcile
  import opened ProfileData
  import opened ProfileTheorems
  import opened ProfileEdits
  import opened SavedSelections
  import opened DraftSpec
  import DataModify

  /** `after` is `before` with a single field changed: the selections of item k. */
  ghost predicate OnlySelected(before: Profiles, after: Profiles, k: nat) {
    && k < |Items(before)| && |Items(after)| == |Items(before)| && after.current == before.current
    && (forall i :: 0 <= i < |Items(before)| && i != k ==> Items(after)[i] == Items(before)[i])
    && Items(after)[k] == Items(before)[k].(selected := Items(after)[k].selected)
  }

  /** What makes an edit fail, as one can tell before it is made: the item it needs is missing, the core
    * does not answer, or a file that it has to write cannot be written. */
  predicate Fails(p: Profiles, e: Edit) {
    match e
    case Persisting(uid, original, _, live, saved) =>
      var k := First(Items(p), Some(uid));
      live && p.current == Some(uid) && (k == |Items(p)| || (SelectedOf(Items(p)[k]) == original && !saved))
    case Recording(g, n, saved) =>
      var k := CurrentIndex(p);
      k < |Items(p)| && !saved
      && (var s := SelectedOf(Items(p)[k]); FirstNamed(s, g) == |s| || s[FirstNamed(s, g)].now != Some(n))
    case Forgetting(g, saved) =>
      CurrentIndex(p) < |Items(p)| && !saved && Names(SelectedOf(Items(p)[CurrentIndex(p)]), Some(g))
    case Switching(_) => false
    case Appending(item, written) => item.uid.None? || (item.fileData.Some? && (item.file.None? || !written))
    case Reordering(active, over, saved) => Has(Items(p), Some(active)) && Has(Items(p), Some(over)) && !saved
    case Deleting(uid, outcome, saved) =>
      || !Has(Items(p), Some(uid))
      || (if p.current.None? || p.current == Some(uid) then outcome.Failed? else !saved)
    case Patching(uid, patch, valid, saved) => (patch.file.Some? && !valid) || !Has(Items(p), Some(uid)) || !saved
    case Refreshing(uid, update, written, saved) =>
      (update.fileData.Some? && !written) || !Has(Items(p), Some(uid)) || !saved
    case Saving(saved) => !saved
  }

  /** An edit that fails commits nothing; these are exactly the ones. */
  lemma EditFailsIff(p: Profiles, e: Edit)
    ensures Enact(e, p).None? <==> Fails(p, e)
  {
    if e.Forgetting? && CurrentIndex(p) < |Items(p)| {
      ForgottenShorterIff(SelectedOf(Items(p)[CurrentIndex(p)]), e.group);
    }
  }

  /** Only switches, appends and deletions move `current`. */
  lemma OtherEditsKeepCurrent(p: Profiles, e: Edit)
    requires Enact(e, p).Some?
    ensures !e.Switching? && !e.Appending? && !e.Deleting? ==> Enact(e, p).value.current == p.current
    ensures e.Saving? ==> Enact(e, p).value == p
  {
  }

  /** A committed append puts the item at the end, and makes it current when there was no current one
    * and it can be. */
  lemma AppendCommits(p: Profiles, e: Edit)
    requires e.Appending? && Enact(e, p).Some?
    ensures var after := Enact(e, p).value;
            && Items(after) == Items(p) + [e.item.(fileData := None)]
            && after.current == if p.current.None? && e.item.itype in {Some("remote"), Some("local")}
                                then e.item.uid else p.current
  {
  }

  /** A committed reorder moves the first item to the place of the second, and the others keep their
    * order. */
  lemma ReorderCommits(p: Profiles, e: Edit)
    requires Wf(Items(p)) && e.Reordering? && Enact(e, p).Some?
    ensures var after := Enact(e, p).value;
            var i, j := First(Items(p), Some(e.active)), First(Items(p), Some(e.over));
            && after.current == p.current
            && if i == |Items(p)| || j == |Items(p)| then after == p
               else
                 && |Items(after)| == |Items(p)| && Items(after)[j] == Items(p)[i]
                 && Items(after)[..j] + Items(after)[j + 1..] == Items(p)[..i] + Items(p)[i + 1..]
  {
    hide Reordered, AfterLast, Move, Wf;
    var i, j := First(Items(p), Some(e.active)), First(Items(p), Some(e.over));
    ReorderMoves(p, e.active, e.over);
    if i < |Items(p)| && j < |Items(p)| {
      MoveThere(Items(p), i, j);
    }
  }

  /** A committed deletion takes out the item and what it refers to, unless the core has rejected it. */
  lemma DeleteCommits(p: Profiles, e: Edit, x: Item)
    requires Wf(Items(p)) && e.Deleting? && Enact(e, p).Some?
    ensures Has(Items(p), Some(e.uid))
    ensures var after := Enact(e, p).value;
            var deletingCurrent := p.current.None? || p.current == Some(e.uid);
            if deletingCurrent && e.outcome.Rejected? then after == p
            else
              && (x in Items(after) <==>
                    x in Items(p) && Spared(x, Items(p)[First(Items(p), Some(e.uid))]))
              && (!deletingCurrent ==> after.current == p.current)
  {
    hide TakeAll, Wf;
    DeletionTakesReferences(p, e.uid, x);
  }

  /** A committed patch or refresh changes one item. */
  lemma PatchCommits(p: Profiles, e: Edit)
    requires (e.Patching? || e.Refreshing?) && Enact(e, p).Some?
    ensures var after := Enact(e, p).value;
            var k := First(Items(p), Some(e.uid));
            && k < |Items(p)| && |Items(after)| == |Items(p)| && after.current == p.current
            && (forall i :: 0 <= i < |Items(p)| && i != k ==> Items(after)[i] == Items(p)[i])
            && Items(after)[k] == if e.Patching? then Patched(Items(p)[k], e.patch)
                                  else Refreshed(Items(p)[k], e.update, e.uid)
  {
  }

  /** A persisting update changes the committed profiles, as they stand at the instant of its commit,
    * only if its profile is still current and still has the very list the plan was computed from;
    * then it replaces that list and nothing else. */
  lemma PersistOverwritesOnlyItsSource(s: Store<Profiles>, u: nat, e: Edit)
    requires Coherent(s) && u in s.updates && e.Persisting?
    ensures var after := Step(s, FinishUpdate(u, Closure(e))).committed;
            after != s.committed ==>
              var k := First(Items(s.committed), Some(e.uid));
              && e.live && s.committed.current == Some(e.uid)
              && OnlySelected(s.committed, after, k)
              && SelectedOf(Items(s.committed)[k]) == e.original
              && SelectedOf(Items(after)[k]) == e.selected
  {
    FinishedUpdate(s, u, Closure(e));
    assert Closure(e)(s.committed) == Persist(s.committed, e.uid, e.original, e.selected, e.live, e.saved);
  }

  /** Recording sets the first record of the group, or adds one, and touches no other group. */
  lemma {:induction false} RecordedList(s: seq<Selected>, group: string, node: string)
    ensures var t := Recorded(s, group, node);
            && FirstNamed(t, group) == FirstNamed(s, group) < |t|
            && t[FirstNamed(t, group)] == Selected(Some(group), Some(node))
            && Forgotten(t, group) == Forgotten(s, group)
  {
    var t := Recorded(s, group, node);
    if s != [] && s[0].name != Some(group) {
      RecordedList(s[1..], group, node);
      assert t[0] == s[0] && t[1..] == Recorded(s[1..], group, node);
    } else if s != [] {
      assert t[0] == Selected(Some(group), Some(node)) && t[1..] == s[1..];
    }
  }

  /** A node is recorded in the group's first record, for the profile that is current at the instant of
    * the commit; the records of all other groups, and every other profile, stay as they are. */
  lemma RecordKeepsOtherSelections(s: Store<Profiles>, u: nat, e: Edit)
    requires Coherent(s) && u in s.updates && e.Recording? && Succeeds(s, u, Closure(e))
    requires CurrentIndex(s.committed) < |Items(s.committed)|
    ensures var k := CurrentIndex(s.committed);
            var after := Step(s, FinishUpdate(u, Closure(e))).committed;
            && OnlySelected(s.committed, after, k)
            && FirstNamed(SelectedOf(Items(after)[k]), e.group) < |SelectedOf(Items(after)[k])|
            && SelectedOf(Items(after)[k])[FirstNamed(SelectedOf(Items(after)[k]), e.group)].now == Some(e.node)
            && Forgotten(SelectedOf(Items(after)[k]), e.group) == Forgotten(SelectedOf(Items(s.committed)[k]), e.group)
  {
    FinishedUpdate(s, u, Closure(e));
    assert Closure(e)(s.committed) == Record(s.committed, e.group, e.node, e.saved);
    RecordedList(SelectedOf(Items(s.committed)[CurrentIndex(s.committed)]), e.group, e.node);
  }

  /** After a forget commits, the current profile has no record of the group. */
  lemma ForgetRemovesTheGroup(s: Store<Profiles>, u: nat, e: Edit)
    requires Coherent(s) && u in s.updates && e.Forgetting? && Succeeds(s, u, Closure(e))
    requires CurrentIndex(s.committed) < |Items(s.committed)|
    ensures var k := CurrentIndex(s.committed);
            var after := Step(s, FinishUpdate(u, Closure(e))).committed;
            && OnlySelected(s.committed, after, k)
            && SelectedOf(Items(after)[k])
               == Filter(SelectedOf(Items(s.committed)[k]), (x: Selected) => x.name != Some(e.group))
            && FirstNamed(SelectedOf(Items(after)[k]), e.group) == |SelectedOf(Items(after)[k])|
  {
    FinishedUpdate(s, u, Closure(e));
    assert Closure(e)(s.committed) == Forget(s.committed, e.group, e.saved);
    ForgottenIsGone(SelectedOf(Items(s.committed)[CurrentIndex(s.committed)]), e.group);
    ForgottenIsFilter(SelectedOf(Items(s.committed)[CurrentIndex(s.committed)]), e.group);
  }

  /** A switch that succeeds commits the then-latest list with nothing but `current` changed. */
  lemma SwitchKeepsTheLatestList(s: Store<Profiles>, u: nat, current: string)
    requires Coherent(s) && u in s.updates && Succeeds(s, u, Closure(Switching(current)))
    ensures var after := Step(s, FinishUpdate(u, Closure(Switching(current)))).committed;
            && Items(after) == Items(s.committed)
            && after.current == if Has(Items(s.committed), Some(current)) then Some(current) else s.committed.current
  {
    FinishedUpdate(s, u, Closure(Switching(current)));
    assert Closure(Switching(current))(s.committed) == SwitchTo(s.committed, current);
  }

  /** In every interleaving, a switch that has reached its commit is refused exactly when somebody
    * applied a draft while it ran, and then changes nothing. Otherwise the list as others have left it
    * stays, and only `current` moves, when the target is still in it. */
  lemma SwitchIsRefusedIffDraftApplied(s: DataModify.System<Profiles>, t: nat,
                                       events: seq<DataModify.Event<Profiles>>, target: string)
    requires DataModify.Inv(s) && DataModify.Holds(s, t) && t !in s.store.updates
    requires forall i :: 0 <= i < |events| ==> DataModify.Awaits(events[i], t)
    ensures var begun := DataModify.Step(s, DataModify.Read(t));
            var before := DataModify.Run(begun, events).store.committed;
            var after := DataModify.Step(DataModify.Run(begun, events),
                                         DataModify.Write(t, Closure(Switching(target)))).store.committed;
            if AppliesDraft(begun.store, DataModify.AllOps(begun, events)) then after == before
            else
              && Items(after) == Items(before)
              && after.current == if Has(Items(before), Some(target)) then Some(target) else before.current
  {
    hide DataModify.Run, DataModify.Step, DataModify.AllOps, DataModify.Inv, DataModify.Holds, AppliesDraft, Has;
    var change := Closure(Switching(target));
    assert forall p :: change(p) == SwitchTo(p, target);
    DataModify.UpdateIsRefusedIffDraftApplied(s, t, events, change);
  }
}
