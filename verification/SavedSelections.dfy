/** What becomes of a saved selection: the record of a group that the planner would put back. The
  * planner takes the last record of a group, while recording writes the first one. */
module SavedSelections {
  import opened Options
  import opened Sequences
  import opened Reconcile
  import opened ProfileData
  import opened ReconcileTheorems
  import opened SettlingRetries
  import opened ProfileTheorems
  import opened ProfileEdits
  import opened DraftSpec

  /** The planner would put the group on the node. */
  predicate Chosen(s: seq<Selected>, group: string, node: string) {
    Selected(Some(group), Some(node)) in LastRecords(s)
  }

  /** The group has a second record. */
  predicate Repeats(s: seq<Selected>, group: string) {
    exists i, j :: 0 <= i < j < |s| && s[i].name == Some(group) && s[j].name == Some(group)
  }

  /** The profile has the node as its saved selection for the group. */
  predicate Saved(p: Profiles, uid: string, group: string, node: string) {
    Has(Items(p), Some(uid)) && Chosen(SelectedOf(Items(p)[First(Items(p), Some(uid))]), group, node)
  }

  // ---- One list of records ----------------------------------------------------------------------

  lemma NamesTail(s: seq<Selected>)
    requires s != []
    ensures forall g :: Names(s, g) <==> g == s[0].name || Names(s[1..], g)
  {
    assert s == [s[0]] + s[1..];
    NamesCons(s[0], s[1..]);
  }

  lemma RepeatsTail(s: seq<Selected>, group: string)
    requires s != []
    ensures Repeats(s, group) <==> (s[0].name == Some(group) && Names(s[1..], Some(group))) || Repeats(s[1..], group)
  {
    var t := s[1..];
    if Repeats(s, group) {
      var i, j :| 0 <= i < j < |s| && s[i].name == Some(group) && s[j].name == Some(group);
      assert t[j - 1].name == Some(group);
      if i > 0 {
        assert t[i - 1].name == Some(group);
      }
    } else if Repeats(t, group) || (s[0].name == Some(group) && Names(t, Some(group))) {
      RepeatsMore(s, group);
    }
  }

  lemma RepeatsMore(s: seq<Selected>, group: string)
    requires s != []
    requires Repeats(s[1..], group) || (s[0].name == Some(group) && Names(s[1..], Some(group)))
    ensures Repeats(s, group)
  {
    var t := s[1..];
    var i, j := 0, 0;
    if Repeats(t, group) {
      i, j :| 0 <= i < j < |t| && t[i].name == Some(group) && t[j].name == Some(group);
      i := i + 1;
    } else {
      j :| 0 <= j < |t| && t[j].name == Some(group);
    }
    assert s[i].name == Some(group) && s[j + 1].name == Some(group);
  }

  lemma {:induction false} ChosenIsNamed(s: seq<Selected>, group: string, node: string)
    requires Chosen(s, group, node)
    ensures Names(s, Some(group))
  {
    NamesTail(s);
    if Chosen(s[1..], group, node) {
      ChosenIsNamed(s[1..], group, node);
    }
  }

  lemma {:induction false} ForgottenNames(s: seq<Selected>, g: string, x: string)
    ensures Names(Forgotten(s, g), Some(x)) <==> x != g && Names(s, Some(x))
  {
    if s != [] {
      ForgottenNames(s[1..], g, x);
      NamesTail(s);
      if s[0].name != Some(g) {
        NamesCons(s[0], Forgotten(s[1..], g));
      } else {
        assert Forgotten(s, g) == Forgotten(s[1..], g);
      }
    }
  }

  /** A forget takes out the records of its group, and keeps all others in their order. */
  lemma {:induction false} ForgottenIsFilter(s: seq<Selected>, g: string)
    ensures Forgotten(s, g) == Filter(s, (x: Selected) => x.name != Some(g))
  {
    if s != [] {
      ForgottenIsFilter(s[1..], g);
    }
  }

  /** A forget removes the selection of its own group and of no other. */
  lemma {:induction false} ForgottenChosen(s: seq<Selected>, g: string, group: string, node: string)
    ensures Chosen(Forgotten(s, g), group, node) <==> group != g && Chosen(s, group, node)
  {
    if s != [] {
      ForgottenChosen(s[1..], g, group, node);
      ForgottenNames(s[1..], g, group);
      var rest := Forgotten(s[1..], g);
      if s[0].name != Some(g) {
        assert Forgotten(s, g) == [s[0]] + rest && ([s[0]] + rest)[1..] == rest;
      } else {
        assert Forgotten(s, g) == rest;
      }
    }
  }

  lemma {:induction false} RecordedNames(s: seq<Selected>, g: string, n: string, x: string)
    ensures Names(Recorded(s, g, n), Some(x)) <==> x == g || Names(s, Some(x))
  {
    var t := Recorded(s, g, n);
    NamesTail(t);
    if s == [] {
    } else if s[0].name == Some(g) {
      assert t[1..] == s[1..];
      NamesTail(s);
    } else {
      assert t[0] == s[0] && t[1..] == Recorded(s[1..], g, n);
      RecordedNames(s[1..], g, n, x);
      NamesTail(s);
    }
  }

  /** Recording a node for a group makes it the group's selection, unless the group has a second
    * record; every other selection stays. */
  lemma {:induction false} RecordedChosen(s: seq<Selected>, g: string, n: string, group: string, node: string)
    ensures Chosen(Recorded(s, g, n), group, node) <==>
              if group != g || Repeats(s, g) then Chosen(s, group, node) else node == n
  {
    var t := Recorded(s, g, n);
    if s == [] {
      assert t == [Selected(Some(g), Some(n))];
      assert LastRecords(t) == t + LastRecords(t[1..]);
    } else {
      RepeatsTail(s, g);
      if Chosen(s[1..], group, node) {
        ChosenIsNamed(s[1..], group, node);
      }
      if s[0].name == Some(g) {
        assert t[0] == Selected(Some(g), Some(n)) && t[1..] == s[1..];
        if Repeats(s[1..], g) {
          RepeatedIsNamed(s[1..], g);
        }
      } else {
        assert t[0] == s[0] && t[1..] == Recorded(s[1..], g, n);
        RecordedChosen(s[1..], g, n, group, node);
        RecordedNames(s[1..], g, n, group);
      }
    }
  }

  lemma RepeatedIsNamed(s: seq<Selected>, group: string)
    requires Repeats(s, group)
    ensures Names(s, Some(group))
  {
  }

  // ---- One edit ---------------------------------------------------------------------------------

  /** Which edits leave the selection in place, as one can tell before they are committed to `p`. */
  predicate Spares(p: Profiles, e: Edit, uid: string, group: string, node: string)
    requires Enact(e, p).Some? && Saved(p, uid, group, node)
  {
    var s := SelectedOf(Items(p)[First(Items(p), Some(uid))]);
    match e
    case Persisting(u, original, selected, live, _) =>
      live && p.current == Some(u) && u == uid && s == original ==> Chosen(selected, group, node)
    case Recording(g, n, _) => p.current == Some(uid) && g == group ==> n == node || Repeats(s, group)
    case Forgetting(g, _) => !(p.current == Some(uid) && g == group)
    case Deleting(u, outcome, _) =>
      (DeletesCurrent(p, u) && outcome.Rejected?) || Some(uid) !in Doomed(p, u)
    case Patching(u, patch, _, _) => u == uid && patch.selected.Some? ==> Chosen(patch.selected.value, group, node)
    case _ => true
  }

  lemma ReplacedSaved(p: Profiles, k: nat, item: Item, uid: string, group: string, node: string)
    requires k < |Items(p)| && item.uid == Items(p)[k].uid
    ensures var after := Replaced(p, k, item);
            && First(Items(after), Some(uid)) == First(Items(p), Some(uid))
            && (Wf(Items(p)) ==> Wf(Items(after)))
            && (Saved(after, uid, group, node) <==>
                  if k == First(Items(p), Some(uid)) then Chosen(SelectedOf(item), group, node)
                  else Saved(p, uid, group, node))
  {
    var items, next := Items(p), Items(Replaced(p, k, item));
    assert forall i :: 0 <= i < |items| ==> next[i].uid == items[i].uid;
  }

  lemma ItemIsFirst(items: seq<Item>, x: Item)
    requires Wf(items) && x in items
    ensures var k := First(items, x.uid);
            k < |items| && items[k] == x
  {
  }

  /** With distinct uids only the items themselves matter, not their places. */
  lemma SameItemsSaved(p: Profiles, q: Profiles, uid: string, group: string, node: string)
    requires Wf(Items(p)) && Wf(Items(q)) && Saved(p, uid, group, node)
    requires forall x :: x in Items(p) && x.uid == Some(uid) ==> x in Items(q)
    ensures Saved(q, uid, group, node)
  {
    hide Wf, Chosen;
    var x := Items(p)[First(Items(p), Some(uid))];
    assert x in Items(p);
    ItemIsFirst(Items(q), x);
  }

  lemma PersistSpares(p: Profiles, e: Edit, uid: string, group: string, node: string)
    requires Saved(p, uid, group, node) && e.Persisting? && Enact(e, p).Some?
    ensures Saved(Enact(e, p).value, uid, group, node) <==> Spares(p, e, uid, group, node)
    ensures Wf(Items(p)) ==> Wf(Items(Enact(e, p).value))
  {
    var k := First(Items(p), Some(e.uid));
    if k < |Items(p)| {
      ReplacedSaved(p, k, Items(p)[k].(selected := Packed(e.selected)), uid, group, node);
    }
  }

  lemma RecordSpares(p: Profiles, e: Edit, uid: string, group: string, node: string)
    requires Saved(p, uid, group, node) && e.Recording? && Enact(e, p).Some?
    ensures Saved(Enact(e, p).value, uid, group, node) <==> Spares(p, e, uid, group, node)
    ensures Wf(Items(p)) ==> Wf(Items(Enact(e, p).value))
  {
    hide Chosen;
    var k := CurrentIndex(p);
    if k < |Items(p)| {
      var s := SelectedOf(Items(p)[k]);
      RecordedChosen(s, e.group, e.node, group, node);
      RecordedAlready(s, e.group, e.node);
      ReplacedSaved(p, k, Items(p)[k].(selected := Some(Recorded(s, e.group, e.node))), uid, group, node);
    }
  }

  /** Recording what the first record says already changes nothing. */
  lemma RecordedAlready(s: seq<Selected>, group: string, node: string)
    ensures var i := FirstNamed(s, group);
            i < |s| && s[i].now == Some(node) ==> Recorded(s, group, node) == s
  {
  }

  lemma ForgetSpares(p: Profiles, e: Edit, uid: string, group: string, node: string)
    requires Saved(p, uid, group, node) && e.Forgetting? && Enact(e, p).Some?
    ensures Saved(Enact(e, p).value, uid, group, node) <==> Spares(p, e, uid, group, node)
    ensures Wf(Items(p)) ==> Wf(Items(Enact(e, p).value))
  {
    hide Chosen;
    var k := CurrentIndex(p);
    if k < |Items(p)| {
      var s := SelectedOf(Items(p)[k]);
      ForgottenChosen(s, e.group, group, node);
      ForgottenIsGone(s, e.group);
      ReplacedSaved(p, k, Items(p)[k].(selected := Packed(Forgotten(s, e.group))), uid, group, node);
    }
  }

  lemma {:induction false} ForgottenIsGone(s: seq<Selected>, group: string)
    ensures FirstNamed(Forgotten(s, group), group) == |Forgotten(s, group)| <= |s|
    ensures |Forgotten(s, group)| == |s| ==> Forgotten(s, group) == s
  {
    if s != [] {
      ForgottenIsGone(s[1..], group);
    }
  }

  lemma {:induction false} ForgottenShorterIff(s: seq<Selected>, group: string)
    ensures |Forgotten(s, group)| <= |s|
    ensures |Forgotten(s, group)| < |s| <==> Names(s, Some(group))
  {
    if s != [] {
      ForgottenShorterIff(s[1..], group);
      NamesTail(s);
    }
  }

  lemma DeletedItems(p: Profiles, deleted: string, uid: string)
    requires Wf(Items(p)) && Has(Items(p), Some(deleted))
    ensures Has(Items(Deleted(p, deleted)), Some(uid)) ==> Some(uid) !in Doomed(p, deleted)
    ensures Some(uid) !in Doomed(p, deleted) ==>
              forall x :: x in Items(p) && x.uid == Some(uid) ==> x in Items(Deleted(p, deleted))
  {
    hide Wf, TakeAll, Doomed, Deleted;
    DeletionIsExact(p, deleted);
    var after := Items(Deleted(p, deleted));
    if Has(after, Some(uid)) {
      assert after[First(after, Some(uid))] in after;
    }
  }

  lemma DeletedSaved(p: Profiles, deleted: string, uid: string, group: string, node: string)
    requires Wf(Items(p)) && Saved(p, uid, group, node) && Has(Items(p), Some(deleted))
    ensures Wf(Items(Deleted(p, deleted)))
    ensures Saved(Deleted(p, deleted), uid, group, node) <==> Some(uid) !in Doomed(p, deleted)
  {
    hide Chosen, Wf, Doomed, Deleted, Has;
    DeletionIsExact(p, deleted);
    DeletedItems(p, deleted, uid);
    if Some(uid) !in Doomed(p, deleted) {
      SameItemsSaved(p, Deleted(p, deleted), uid, group, node);
    }
  }

  lemma DeleteSpares(p: Profiles, e: Edit, uid: string, group: string, node: string)
    requires Wf(Items(p)) && Saved(p, uid, group, node) && e.Deleting? && Enact(e, p).Some?
    ensures Saved(Enact(e, p).value, uid, group, node) <==> Spares(p, e, uid, group, node)
    ensures Wf(Items(Enact(e, p).value))
  {
    hide Chosen, Wf, Doomed, Deleted, Has, Saved, DeletesCurrent;
    DeletedSaved(p, e.uid, uid, group, node);
  }

  lemma ReorderSpares(p: Profiles, e: Edit, uid: string, group: string, node: string)
    requires Wf(Items(p)) && Saved(p, uid, group, node) && e.Reordering? && Enact(e, p).Some?
    ensures Saved(Enact(e, p).value, uid, group, node) && Wf(Items(Enact(e, p).value))
  {
    hide Chosen, Wf, Reordered, AfterLast, Move, Saved;
    ReorderPermutes(p, e.active, e.over);
    var after := Reordered(p, e.active, e.over);
    assert forall x :: x in Items(p) ==> x in multiset(Items(after));
    SameItemsSaved(p, after, uid, group, node);
  }

  lemma AppendSpares(p: Profiles, e: Edit, uid: string, group: string, node: string)
    requires Wf(Items(p)) && Saved(p, uid, group, node) && e.Appending? && Enact(e, p).Some?
    requires !Has(Items(p), e.item.uid)
    ensures Saved(Enact(e, p).value, uid, group, node) && Wf(Items(Enact(e, p).value))
  {
    hide Chosen, Wf, Saved;
    AppendKeepsList(p, e.item);
    SameItemsSaved(p, Appended(p, e.item), uid, group, node);
  }

  lemma PatchSpares(p: Profiles, e: Edit, uid: string, group: string, node: string)
    requires Saved(p, uid, group, node) && (e.Patching? || e.Refreshing?) && Enact(e, p).Some?
    ensures Saved(Enact(e, p).value, uid, group, node) <==> Spares(p, e, uid, group, node)
    ensures Wf(Items(p)) ==> Wf(Items(Enact(e, p).value))
  {
    hide Chosen;
    var k := First(Items(p), Some(e.uid));
    var item := if e.Patching? then Patched(Items(p)[k], e.patch) else Refreshed(Items(p)[k], e.update, e.uid);
    ReplacedSaved(p, k, item, uid, group, node);
  }

  /** Appended items have a new uid; this is all that is asked of callers. */
  predicate Proper(p: Profiles, e: Edit) {
    e.Appending? ==> !Has(Items(p), e.item.uid)
  }

  /** A committed edit keeps a saved selection exactly when it spares it. */
  lemma EditKeepsSelectionIff(p: Profiles, e: Edit, uid: string, group: string, node: string)
    requires Wf(Items(p)) && Saved(p, uid, group, node) && Proper(p, e) && Enact(e, p).Some?
    ensures Saved(Enact(e, p).value, uid, group, node) <==> Spares(p, e, uid, group, node)
    ensures Wf(Items(Enact(e, p).value))
  {
    match e
    case Persisting(_, _, _, _, _) => PersistSpares(p, e, uid, group, node);
    case Recording(_, _, _) => RecordSpares(p, e, uid, group, node);
    case Forgetting(_, _) => ForgetSpares(p, e, uid, group, node);
    case Switching(_) =>
    case Appending(_, _) => AppendSpares(p, e, uid, group, node);
    case Reordering(_, _, _) => ReorderSpares(p, e, uid, group, node);
    case Deleting(_, _, _) => DeleteSpares(p, e, uid, group, node);
    case Patching(_, _, _, _) => PatchSpares(p, e, uid, group, node);
    case Refreshing(_, _, _, _) => PatchSpares(p, e, uid, group, node);
    case Saving(_) =>
  }

  // ---- Recording and planning -------------------------------------------------------------------

  /** A node recorded for the current profile is what the planner will put back exactly when it was
    * that before, or the group has no second record. */
  lemma RecordTakesEffectIff(s: Store<Profiles>, u: nat, e: Edit, uid: string)
    requires Coherent(s) && u in s.updates && e.Recording? && Succeeds(s, u, Closure(e))
    requires s.committed.current == Some(uid) && Has(Items(s.committed), Some(uid))
    ensures var before := s.committed;
            var after := Step(s, FinishUpdate(u, Closure(e))).committed;
            Saved(after, uid, e.group, e.node) <==>
              || Saved(before, uid, e.group, e.node)
              || !Repeats(SelectedOf(Items(before)[First(Items(before), Some(uid))]), e.group)
  {
    hide Chosen, Repeats;
    FinishedUpdate(s, u, Closure(e));
    assert Closure(e)(s.committed) == Record(s.committed, e.group, e.node, e.saved);
    var p := s.committed;
    var k := CurrentIndex(p);
    var list := SelectedOf(Items(p)[k]);
    RecordedChosen(list, e.group, e.node, e.group, e.node);
    RecordedAlready(list, e.group, e.node);
    ReplacedSaved(p, k, Items(p)[k].(selected := Some(Recorded(list, e.group, e.node))), uid, e.group, e.node);
  }

  /** It can be ignored: with a second record, recording c leaves b to be put back. */
  lemma RecordingCanBeIgnored()
    ensures var list := [Selected(Some("g"), Some("a")), Selected(Some("g"), Some("b"))];
            var after := Recorded(list, "g", "c");
            Chosen(list, "g", "b") && Chosen(after, "g", "b") && !Chosen(after, "g", "c")
  {
    var list := [Selected(Some("g"), Some("a")), Selected(Some("g"), Some("b"))];
    assert "b"[0] != "c"[0];
    DuplicatesNeverSettle();
    assert Repeats(list, "g") by {
      assert list[0].name == Some("g") && list[1].name == Some("g");
    }
    RecordedChosen(list, "g", "c", "g", "b");
    RecordedChosen(list, "g", "c", "g", "c");
  }

  /** The plan computed from a list keeps a selection of that list exactly when the snapshots do not
    * show it stale. */
  lemma PlanKeepsSelectionIff(original: seq<Selected>, previous: Option<Proxies>, proxies: Proxies,
                              group: string, node: string)
    requires Chosen(original, group, node)
    ensures Chosen(PlanFor(original, previous, proxies).selected, group, node) <==>
              !Stale(Selected(Some(group), Some(node)), previous, proxies)
  {
    hide LastRecords, PlanFor, Stale;
    var at := PlanKeepsLastRecordsInOrder(original, previous, proxies);
    KeyedIsUnique(PlanFor(original, previous, proxies).selected);
    RecordSurvivesUnlessStale(original, previous, proxies, Selected(Some(group), Some(node)));
  }

  /** So persisting a plan over the list it was computed from spares exactly what is not stale. */
  lemma PersistedPlanSparesIff(p: Profiles, e: Edit, previous: Option<Proxies>, proxies: Proxies,
                               group: string, node: string)
    requires e.Persisting? && e.live && e.selected == PlanFor(e.original, previous, proxies).selected
    requires Enact(e, p).Some? && Saved(p, e.uid, group, node) && p.current == Some(e.uid)
    requires SelectedOf(Items(p)[First(Items(p), Some(e.uid))]) == e.original
    ensures Spares(p, e, e.uid, group, node) <==> !Stale(Selected(Some(group), Some(node)), previous, proxies)
  {
    hide Chosen, PlanFor, Stale;
    PlanKeepsSelectionIff(e.original, previous, proxies, group, node);
  }

  // ---- Every run --------------------------------------------------------------------------------

  /** The committed updates are edits, and a staged draft that is applied has distinct uids. */
  ghost predicate Lawful(s: Store<Profiles>, op: Op<Profiles>) {
    match op
    case Apply => s.staged.Some? ==> Wf(Items(s.staged.value))
    case FinishUpdate(u, change) =>
      Succeeds(s, u, change) ==> exists e :: change == Closure(e) && Proper(s.committed, e)
    case _ => true
  }

  /** An applied draft has the selection, and a committed edit spares it. */
  ghost predicate Harmless(s: Store<Profiles>, op: Op<Profiles>, uid: string, group: string, node: string)
    requires Saved(s.committed, uid, group, node)
  {
    match op
    case Apply => s.staged.Some? ==> Saved(s.staged.value, uid, group, node)
    case FinishUpdate(u, change) =>
      Succeeds(s, u, change) ==>
        exists e :: change == Closure(e) && Proper(s.committed, e)
          && Enact(e, s.committed).Some? && Spares(s.committed, e, uid, group, node)
    case _ => true
  }

  /** One step of the store keeps a saved selection exactly when it is harmless. */
  lemma StepKeepsSelectionIff(s: Store<Profiles>, op: Op<Profiles>, uid: string, group: string, node: string)
    requires Coherent(s) && Wf(Items(s.committed)) && Saved(s.committed, uid, group, node) && Lawful(s, op)
    ensures Wf(Items(Step(s, op).committed))
    ensures Saved(Step(s, op).committed, uid, group, node) <==> Harmless(s, op, uid, group, node)
  {
    hide Wf, Saved, Spares, Enact, Proper;
    if op.FinishUpdate? && Succeeds(s, op.u, op.change) {
      FinishedUpdate(s, op.u, op.change);
      forall e | op.change == Closure(e) && Proper(s.committed, e)
        ensures Enact(e, s.committed) == Some(Step(s, op).committed)
        ensures Wf(Items(Step(s, op).committed))
        ensures Saved(Step(s, op).committed, uid, group, node) <==> Spares(s.committed, e, uid, group, node)
      {
        assert Closure(e)(s.committed) == Enact(e, s.committed);
        EditKeepsSelectionIff(s.committed, e, uid, group, node);
      }
    }
  }

  ghost predicate AllHarmless(s: Store<Profiles>, ops: seq<Op<Profiles>>, uid: string, group: string, node: string)
    decreases |ops|
  {
    ops == []
    || (&& Lawful(s, ops[0])
        && (Saved(s.committed, uid, group, node) ==> Harmless(s, ops[0], uid, group, node))
        && AllHarmless(Step(s, ops[0]), ops[1..], uid, group, node))
  }

  /** No saved selection is lost on its own: through any interleaving of updates and drafts it stays
    * until a step that is not harmless. */
  lemma {:induction false} SelectionsSurvive(s: Store<Profiles>, ops: seq<Op<Profiles>>,
                                             uid: string, group: string, node: string)
    requires Coherent(s) && Wf(Items(s.committed)) && Saved(s.committed, uid, group, node)
    requires AllHarmless(s, ops, uid, group, node)
    ensures Wf(Items(Run(s, ops).committed)) && Saved(Run(s, ops).committed, uid, group, node)
    decreases |ops|
  {
    hide Wf, Saved, Harmless, Lawful;
    if ops != [] {
      StepKeepsSelectionIff(s, ops[0], uid, group, node);
      StepKeepsCoherent(s, ops[0]);
      SelectionsSurvive(Step(s, ops[0]), ops[1..], uid, group, node);
    }
  }
}
