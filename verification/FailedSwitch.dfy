/** Putting the previous profile back after a failed switch. The program stages the list and applies it
  * in two steps, and what others commit between them is overwritten. */
module FailedSwitch {
  import opened Options
  import opened Reconcile
  import opened ProfileData
  import opened ProfileTheorems
  import opened ProfileEdits
  import opened SavedSelections
  import opened DraftSpec

  function Staged(s: Store<Profiles>, previous: string): Store<Profiles> {
    Step(Step(s, Discard), Op.Edit((p: Profiles) => PatchConfig(p, Some(previous))))
  }

  /** What other threads have made of it before the apply, and after it. */
  function BeforeApply(s: Store<Profiles>, previous: string, between: seq<Op<Profiles>>): Store<Profiles> {
    Run(Staged(s, previous), between)
  }

  function Restore(s: Store<Profiles>, previous: string, between: seq<Op<Profiles>>): Store<Profiles> {
    Step(BeforeApply(s, previous, between), Apply)
  }

  predicate LeavesDraft(op: Op<Profiles>) {
    !op.Edit? && !op.Apply? && !op.Discard?
  }

  lemma {:induction false} RunLeavesDraft(s: Store<Profiles>, ops: seq<Op<Profiles>>)
    requires forall i :: 0 <= i < |ops| ==> LeavesDraft(ops[i])
    ensures Run(s, ops).staged == s.staged
    decreases |ops|
  {
    if ops != [] {
      RunLeavesDraft(Step(s, ops[0]), ops[1..]);
    }
  }

  /** The restore drops everything committed in between; without any commit it loses nothing. */
  lemma RestoreDropsCommits(s: Store<Profiles>, previous: string, between: seq<Op<Profiles>>)
    requires Coherent(s) && forall i :: 0 <= i < |between| ==> LeavesDraft(between[i])
    ensures var before := BeforeApply(s, previous, between);
            var after := Restore(s, previous, between);
            && after.committed == PatchConfig(s.committed, Some(previous))
            && (before.version == s.version ==>
                  before.committed == s.committed && Items(after.committed) == Items(before.committed))
  {
    hide Run, Changes;
    RunLeavesDraft(Staged(s, previous), between);
    CommitsAreSequential(Staged(s, previous), between);
  }

  /** Which edits change the items of the list, as one can tell before they are committed to `p`. */
  predicate Alters(p: Profiles, e: Edit)
    requires Enact(e, p).Some?
  {
    match e
    case Persisting(u, original, selected, live, _) =>
      var k := First(Items(p), Some(u));
      live && p.current == Some(u) && SelectedOf(Items(p)[k]) == original && Items(p)[k].selected != Packed(selected)
    case Recording(g, n, _) =>
      var k := CurrentIndex(p);
      k < |Items(p)|
      && (var s := SelectedOf(Items(p)[k]); FirstNamed(s, g) == |s| || s[FirstNamed(s, g)].now != Some(n))
    case Forgetting(g, _) => CurrentIndex(p) < |Items(p)| && Names(SelectedOf(Items(p)[CurrentIndex(p)]), Some(g))
    case Appending(_, _) => true
    case Reordering(active, over, _) => active != over && Has(Items(p), Some(active)) && Has(Items(p), Some(over))
    case Deleting(u, outcome, _) => !(DeletesCurrent(p, u) && outcome.Rejected?)
    case Patching(u, patch, _, _) =>
      var item := Items(p)[First(Items(p), Some(u))];
      item != Patched(item, patch)
    case Refreshing(u, update, _, _) =>
      var item := Items(p)[First(Items(p), Some(u))];
      item != Refreshed(item, update, u)
    case Switching(_) => false
    case Saving(_) => false
  }

  lemma ReplacedDiffersIff(p: Profiles, k: nat, item: Item)
    requires k < |Items(p)|
    ensures Items(Replaced(p, k, item)) == Items(p) <==> item == Items(p)[k]
  {
    assert Items(Replaced(p, k, item))[k] == item;
  }

  lemma RecordedDiffersIff(s: seq<Selected>, group: string, node: string)
    ensures Recorded(s, group, node) == s <==> FirstNamed(s, group) < |s| && s[FirstNamed(s, group)].now == Some(node)
  {
    var i := FirstNamed(s, group);
    if i < |s| {
      assert Recorded(s, group, node)[i].now == Some(node);
    }
  }

  lemma ReorderedDiffersIff(p: Profiles, active: string, over: string)
    requires Wf(Items(p)) && Has(Items(p), Some(active)) && Has(Items(p), Some(over))
    ensures Items(Reordered(p, active, over)) == Items(p) <==> active == over
  {
    hide Reordered, RemoveAt, Move, Wf;
    var items := Items(p);
    var i, j := First(items, Some(active)), First(items, Some(over));
    ReorderMoves(p, active, over);
    MoveThere(items, i, j);
    if i == j {
      MoveNowhere(items, i);
    }
  }

  lemma MoveNowhere<T>(s: seq<T>, i: nat)
    requires i < |s|
    ensures Move(s, i, i) == s
  {
  }

  lemma DeletedDiffers(p: Profiles, uid: string)
    requires Wf(Items(p)) && Has(Items(p), Some(uid))
    ensures Items(Deleted(p, uid)) != Items(p)
  {
    hide Wf, Deleted, TakeAll;
    DeletionIsExact(p, uid);
    var x := Items(p)[First(Items(p), Some(uid))];
    assert x in Items(p) && Doomed(p, uid)[0] == Some(uid);
    assert x !in Items(Deleted(p, uid));
  }

  lemma EditAltersIff(p: Profiles, e: Edit)
    requires Wf(Items(p)) && Enact(e, p).Some?
    ensures Items(Enact(e, p).value) != Items(p) <==> Alters(p, e)
  {
    hide Wf, Reordered, Deleted, Patched, Refreshed;
    match e
    case Persisting(u, _, selected, _, _) =>
      var k := First(Items(p), Some(u));
      if k < |Items(p)| {
        ReplacedDiffersIff(p, k, Items(p)[k].(selected := Packed(selected)));
      }
    case Recording(g, n, _) =>
      var k := CurrentIndex(p);
      if k < |Items(p)| {
        var s := SelectedOf(Items(p)[k]);
        RecordedDiffersIff(s, g, n);
        ReplacedDiffersIff(p, k, Items(p)[k].(selected := Some(Recorded(s, g, n))));
      }
    case Forgetting(g, _) =>
      var k := CurrentIndex(p);
      if k < |Items(p)| {
        var s := SelectedOf(Items(p)[k]);
        ForgottenShorterIff(s, g);
        ReplacedDiffersIff(p, k, Items(p)[k].(selected := Packed(Forgotten(s, g))));
      }
    case Reordering(active, over, _) =>
      if Has(Items(p), Some(active)) && Has(Items(p), Some(over)) {
        ReorderedDiffersIff(p, active, over);
      }
    case Deleting(u, _, _) =>
      DeletedDiffers(p, u);
    case Patching(u, patch, _, _) =>
      var k := First(Items(p), Some(u));
      ReplacedDiffersIff(p, k, Patched(Items(p)[k], patch));
    case Refreshing(u, update, _, _) =>
      var k := First(Items(p), Some(u));
      ReplacedDiffersIff(p, k, Refreshed(Items(p)[k], update, u));
    case _ =>
  }

  /** When a single edit is committed in between, the restore undoes it exactly when the edit changes
    * the items. */
  lemma RestoreLosesCommitIff(s: Store<Profiles>, previous: string, between: seq<Op<Profiles>>, e: Edit)
    requires Coherent(s) && Wf(Items(s.committed))
    requires forall i :: 0 <= i < |between| ==> LeavesDraft(between[i])
    requires Changes(Staged(s, previous), between) == [Update(Closure(e))]
    ensures Enact(e, s.committed).Some?
    ensures Items(Restore(s, previous, between).committed) != Items(BeforeApply(s, previous, between).committed)
            <==> Alters(s.committed, e)
  {
    hide Run, Changes, Enact, Alters, Wf;
    var staged := Staged(s, previous);
    RestoreDropsCommits(s, previous, between);
    CommitsAreSequential(staged, between);
    FirstChangeSucceeded(staged, between);
    assert Closure(e)(s.committed) == Enact(e, s.committed);
    assert Replay(s.committed, [Update(Closure(e))]) == Replay(Enact(e, s.committed).value, []);
    EditAltersIff(s.committed, e);
  }

  /** Such a loss happens: a selection recorded between the two steps is gone after them. */
  lemma RestoreCanLoseASelection()
    ensures var item := Item(Some("a"), Some("local"), None, None, None, None);
            var s := Initial(Profiles(Some("a"), Some([item])));
            var between := [BeginUpdate(0), FinishUpdate(0, Closure(Recording("g", "n", true)))];
            var before := BeforeApply(s, "a", between);
            && SelectedOf(Items(before.committed)[0]) == [Selected(Some("g"), Some("n"))]
            && SelectedOf(Items(Restore(s, "a", between).committed)[0]) == []
  {
    var item := Item(Some("a"), Some("local"), None, None, None, None);
    var s := Initial(Profiles(Some("a"), Some([item])));
    var edit := Recording("g", "n", true);
    var between := [BeginUpdate(0), FinishUpdate(0, Closure(edit))];
    var staged := Staged(s, "a");
    var begun := Step(staged, BeginUpdate(0));
    var finished := Step(begun, FinishUpdate(0, Closure(edit)));
    assert between[1..] == [FinishUpdate(0, Closure(edit))];
    assert Run(begun, between[1..]) == Run(finished, []);
    assert Run(staged, between) == finished;
    assert Closure(edit)(s.committed) == Record(s.committed, "g", "n", true);
    RestoreDropsCommits(s, "a", between);
  }
}
