/** What the operations on the profile list preserve. */
module ProfileTheorems {
  import opened Options
  import opened Sequences
  import opened Reconcile
  import opened ProfileData

  ghost predicate Wf(items: seq<Item>) {
    && (forall i :: 0 <= i < |items| ==> items[i].uid.Some?)
    && (forall i, j :: 0 <= i < j < |items| ==> items[i].uid != items[j].uid)
  }

  /** `current` names an existing item, when it names anything. */
  ghost predicate Named(p: Profiles) {
    p.current.Some? ==> exists x :: x in Items(p) && x.uid == p.current
  }

  lemma HasIff(items: seq<Item>, uid: Option<string>)
    ensures Has(items, uid) <==> exists x :: x in items && x.uid == uid
  {
    if Has(items, uid) {
      assert items[First(items, uid)] in items;
    }
  }

  // ---- Deletion ---------------------------------------------------------------------------------

  function Without(items: seq<Item>, uids: seq<Option<string>>): seq<Item> {
    Filter(items, (x: Item) => x.uid !in uids)
  }

  lemma {:induction false} WithoutOne(items: seq<Item>, uid: Option<string>)
    requires Wf(items)
    ensures Without(items, [uid]) == if Has(items, uid) then RemoveAt(items, First(items, uid)) else items
  {
    if items != [] {
      if items[0].uid == uid {
        FilterAll(items[1..], (x: Item) => x.uid !in [uid]);
        assert RemoveAt(items, 0) == items[1..];
      } else {
        WithoutOne(items[1..], uid);
        var k := First(items[1..], uid);
        if k < |items[1..]| {
          RemoveFromTail(items, k + 1);
        }
      }
    }
  }

  lemma {:induction false} WithoutTwice(items: seq<Item>, a: seq<Option<string>>, b: seq<Option<string>>)
    ensures Without(Without(items, a), b) == Without(items, a + b)
  {
    if items != [] {
      WithoutTwice(items[1..], a, b);
      if items[0].uid !in a {
        assert Without(items, a) == [items[0]] + Without(items[1..], a);
      } else {
        assert Without(items, a) == Without(items[1..], a);
      }
    }
  }

  lemma {:induction false} FilterWf(items: seq<Item>, p: Item -> bool)
    requires Wf(items)
    ensures Wf(Filter(items, p))
  {
    if items != [] {
      FilterWf(items[1..], p);
      var rest := Filter(items[1..], p);
      forall i | 0 <= i < |rest|
        ensures rest[i].uid != items[0].uid
      {
        assert rest[i] in items[1..];
      }
    }
  }

  lemma {:induction false} TakeAllIsWithout(items: seq<Item>, uids: seq<Option<string>>)
    requires Wf(items)
    ensures TakeAll(items, uids) == Without(items, uids)
    ensures Wf(TakeAll(items, uids))
  {
    if uids == [] {
      FilterAll(items, (x: Item) => x.uid !in uids);
    } else {
      var init, last := uids[..|uids| - 1], uids[|uids| - 1];
      TakeAllIsWithout(items, init);
      WithoutOne(TakeAll(items, init), last);
      WithoutTwice(items, init, [last]);
      assert init + [last] == uids;
      FilterWf(items, (x: Item) => x.uid !in uids);
    }
  }

  /** The files of the items, with multiplicity. */
  function Files(items: seq<Item>): multiset<string> {
    if items == [] then multiset{} else multiset(Listed(items[0].file)) + Files(items[1..])
  }

  lemma {:induction false} FilesSplit(items: seq<Item>, k: nat)
    requires k < |items|
    ensures Files(items) == Files(RemoveAt(items, k)) + multiset(Listed(items[k].file))
  {
    if k == 0 {
      assert RemoveAt(items, 0) == items[1..];
    } else {
      RemoveFromTail(items, k);
      FilesSplit(items[1..], k - 1);
    }
  }

  lemma RemoveFromTail<T>(s: seq<T>, k: nat)
    requires 0 < k < |s|
    ensures RemoveAt(s, k) == [s[0]] + RemoveAt(s[1..], k - 1)
    ensures RemoveAt(s, k)[0] == s[0] && RemoveAt(s, k)[1..] == RemoveAt(s[1..], k - 1)
    ensures s[1..][k - 1] == s[k]
  {
  }

  lemma {:induction false} TakenFilesConserved(items: seq<Item>, uids: seq<Option<string>>)
    ensures multiset(TakenFiles(items, uids)) + Files(TakeAll(items, uids)) == Files(items)
  {
    if uids != [] {
      var init := uids[..|uids| - 1];
      TakenFilesConserved(items, init);
      var rest := TakeAll(items, init);
      var k := First(rest, uids[|uids| - 1]);
      if k < |rest| {
        FilesSplit(rest, k);
      }
    }
  }

  /** Deleting a profile removes exactly it and what it refers to, keeps the rest in order, and
    * lists every removed file once and no other. */
  lemma DeletionIsExact(p: Profiles, uid: string)
    requires Wf(Items(p)) && Has(Items(p), Some(uid))
    ensures var after := Items(Deleted(p, uid));
            && Wf(after)
            && after == Without(Items(p), Doomed(p, uid))
            && multiset(TakenFiles(Items(p), Doomed(p, uid))) + Files(after) == Files(Items(p))
  {
    TakeAllIsWithout(Items(p), Doomed(p, uid));
    TakenFilesConserved(Items(p), Doomed(p, uid));
  }

  /** The item x stays when the one at k is deleted: it is another one and none of its five references. */
  predicate Spared(x: Item, deleted: Item) {
    && x.uid != deleted.uid
    && (deleted.option.Some? ==>
          && x.uid != deleted.option.value.merge && x.uid != deleted.option.value.script
          && x.uid != deleted.option.value.rules && x.uid != deleted.option.value.proxies
          && x.uid != deleted.option.value.groups)
  }

  /** An item is left exactly when it is neither the deleted one nor one that it refers to, be it as its
    * merge, script, rules, proxies or groups profile. */
  lemma DeletionTakesReferences(p: Profiles, uid: string, x: Item)
    requires Wf(Items(p)) && Has(Items(p), Some(uid))
    ensures x in Items(Deleted(p, uid)) <==> x in Items(p) && Spared(x, Items(p)[First(Items(p), Some(uid))])
    ensures !(p.current.None? || p.current == Some(uid)) ==> Deleted(p, uid).current == p.current
  {
    hide TakeAll, Wf, Doomed, Deleted, References, Spared;
    DeletionIsExact(p, uid);
    DoomedIff(p, uid, x);
    if !(p.current.None? || p.current == Some(uid)) {
      CurrentStays(p, uid);
    }
  }

  lemma CurrentStays(p: Profiles, uid: string)
    requires Has(Items(p), Some(uid)) && !(p.current.None? || p.current == Some(uid))
    ensures Deleted(p, uid).current == p.current
  {
  }

  lemma DoomedIff(p: Profiles, uid: string, x: Item)
    requires Has(Items(p), Some(uid))
    ensures x.uid in Doomed(p, uid) <==> !Spared(x, Items(p)[First(Items(p), Some(uid))])
  {
    var deleted := Items(p)[First(Items(p), Some(uid))];
    if deleted.option.Some? {
      var o := deleted.option.value;
      assert Doomed(p, uid) == [Some(uid), o.merge, o.script, o.rules, o.proxies, o.groups];
    } else {
      assert Doomed(p, uid) == [Some(uid)];
    }
  }

  lemma {:induction false} FirstLaunchableIs(items: seq<Item>) returns (k: nat)
    requires Wf(items)
    ensures k <= |items| && (forall i :: 0 <= i < k ==> !Launchable(items[i]))
    ensures FirstLaunchable(items) == if k < |items| then items[k].uid else None
    ensures k < |items| ==> Launchable(items[k])
  {
    k := 0;
    if items != [] && !Launchable(items[0]) {
      var rest := FirstLaunchableIs(items[1..]);
      k := rest + 1;
    }
  }

  /** When the current profile goes, or none was set, the first remaining one that can run takes its
    * place. */
  lemma DeletionPicksTheNextProfile(p: Profiles, uid: string) returns (k: nat)
    requires Wf(Items(p)) && Has(Items(p), Some(uid)) && DeletesCurrent(p, uid)
    ensures var after := Deleted(p, uid);
            && k <= |Items(after)|
            && (forall i :: 0 <= i < k ==> Items(after)[i].itype !in {Some("remote"), Some("local")})
            && (k < |Items(after)| ==> Items(after)[k].itype in {Some("remote"), Some("local")})
            && after.current == (if k < |Items(after)| then Items(after)[k].uid else None)
            && Named(after)
  {
    DeletionIsExact(p, uid);
    k := FirstLaunchableIs(Items(Deleted(p, uid)));
  }

  /** Deletion leaves `current` dangling exactly when the deleted profile, not itself current, refers
    * to the current one. */
  lemma DeletionKeepsCurrentIff(p: Profiles, uid: string)
    requires Wf(Items(p)) && Has(Items(p), Some(uid)) && Named(p)
    ensures Named(Deleted(p, uid)) <==>
              DeletesCurrent(p, uid) || p.current !in References(Items(p)[First(Items(p), Some(uid))])
  {
    DeletionIsExact(p, uid);
    if DeletesCurrent(p, uid) {
      var k := DeletionPicksTheNextProfile(p, uid);
    } else {
      var x :| x in Items(p) && x.uid == p.current;
      assert p.current in Doomed(p, uid) <==> p.current in References(Items(p)[First(Items(p), Some(uid))]);
      if p.current !in Doomed(p, uid) {
        assert x in Items(Deleted(p, uid));
      }
    }
  }

  /** Such a list exists: the merge profile of "a" is the current one. */
  lemma DeletionCanDangle()
    ensures var option := PrfOption(Some("b"), None, None, None, None);
            var a := Item(Some("a"), Some("local"), None, None, Some(option), None);
            var b := Item(Some("b"), Some("local"), None, None, None, None);
            var p := Profiles(Some("b"), Some([a, b]));
            Wf(Items(p)) && Named(p) && Has(Items(p), Some("a")) && !Named(Deleted(p, "a"))
  {
    var a := Item(Some("a"), Some("local"), None, None, Some(PrfOption(Some("b"), None, None, None, None)), None);
    var b := Item(Some("b"), Some("local"), None, None, None, None);
    var p := Profiles(Some("b"), Some([a, b]));
    assert "a"[0] != "b"[0];
    assert Items(p)[1] in Items(p);
    assert References(a)[0] == Some("b");
    DeletionKeepsCurrentIff(p, "a");
  }

  // ---- Items ------------------------------------------------------------------------------------

  /** A patched item has the fields that the patch carries, and keeps the others. */
  lemma PatchedFields(item: Item, patch: Item)
    ensures var after := Patched(item, patch);
            && after.uid == item.uid && after.fileData == item.fileData
            && after.itype == (if patch.itype.Some? then patch.itype else item.itype)
            && after.file == (if patch.file.Some? then patch.file else item.file)
            && after.selected == (if patch.selected.Some? then patch.selected else item.selected)
            && after.option == (if patch.option.Some? then patch.option else item.option)
  {
  }

  /** A refreshed item keeps its uid, kind and selections. Its own file wins over the one of the update,
    * and each new option wins over the old one. */
  lemma RefreshedFields(item: Item, update: Item, uid: string)
    ensures var after := Refreshed(item, update, uid);
            && after.uid == item.uid && after.itype == item.itype && after.selected == item.selected
            && (update.fileData.None? ==> after.file == item.file)
            && (update.fileData.Some? ==>
                  after.file == if item.file.Some? then item.file
                                else if update.file.Some? then update.file else Some(uid + ".yaml"))
            && (after.option.Some? <==> item.option.Some? || update.option.Some?)
            && (item.option.None? ==> after.option == update.option)
            && (update.option.None? ==> after.option == item.option)
            && (item.option.Some? && update.option.Some? ==>
                  var a, b, o := item.option.value, update.option.value, after.option.value;
                  && o.merge == (if b.merge.Some? then b.merge else a.merge)
                  && o.script == (if b.script.Some? then b.script else a.script)
                  && o.rules == (if b.rules.Some? then b.rules else a.rules)
                  && o.proxies == (if b.proxies.Some? then b.proxies else a.proxies)
                  && o.groups == (if b.groups.Some? then b.groups else a.groups))
  {
  }

  // ---- Reordering -------------------------------------------------------------------------------

  /** A move takes one element to its new place and leaves the others in their order; moving it back
    * restores the list. */
  lemma MoveThere<T>(s: seq<T>, i: nat, j: nat)
    requires i < |s| && j < |s|
    ensures var t := Move(s, i, j);
            && |t| == |s| && t[j] == s[i]
            && RemoveAt(t, j) == RemoveAt(s, i)
            && Move(t, j, i) == s
  {
    var t := Move(s, i, j);
    var rest := RemoveAt(s, i);
    assert t[..j] == rest[..j] && t[j + 1..] == rest[j..];
    assert rest[..i] == s[..i] && rest[i..] == s[i + 1..];
  }

  lemma InsertedMultiset<T>(s: seq<T>, i: nat, x: T)
    requires i <= |s|
    ensures multiset(InsertAt(s, i, x)) == multiset(s) + multiset{x}
  {
    assert s == s[..i] + s[i..];
  }

  lemma MovePermutes<T>(s: seq<T>, i: nat, j: nat)
    requires i < |s| && j < |s|
    ensures multiset(Move(s, i, j)) == multiset(s)
  {
    var rest := RemoveAt(s, i);
    InsertedMultiset(rest, i, s[i]);
    InsertedMultiset(rest, j, s[i]);
    assert InsertAt(rest, i, s[i]) == s by {
      assert rest[..i] == s[..i] && rest[i..] == s[i + 1..];
    }
  }

  /** Where the element at position k of a moved list comes from. */
  function MovedFrom(i: nat, j: nat, k: nat): nat {
    if k == j then i
    else
      var r := if k < j then k else k - 1;
      if r < i then r else r + 1
  }

  lemma MoveKeepsWf(items: seq<Item>, i: nat, j: nat)
    requires Wf(items) && i < |items| && j < |items|
    ensures Wf(Move(items, i, j))
  {
    var t := Move(items, i, j);
    forall k | 0 <= k < |t|
      ensures MovedFrom(i, j, k) < |items| && t[k] == items[MovedFrom(i, j, k)]
    {
    }
    forall k, l | 0 <= k < l < |t|
      ensures t[k].uid != t[l].uid
    {
      assert MovedFrom(i, j, k) != MovedFrom(i, j, l);
    }
  }

  lemma AfterLastAt(items: seq<Item>, k: nat)
    requires Wf(items) && k < |items|
    ensures AfterLast(items, items[k].uid) == k + 1
  {
  }

  /** With known uids a reorder is the move between their positions, otherwise nothing. */
  lemma ReorderMoves(p: Profiles, active: string, over: string)
    requires Wf(Items(p))
    ensures var i, j := First(Items(p), Some(active)), First(Items(p), Some(over));
            Reordered(p, active, over) ==
            if i < |Items(p)| && j < |Items(p)| then p.(items := Some(Move(Items(p), i, j))) else p
  {
    var items := Items(p);
    var i, j := First(items, Some(active)), First(items, Some(over));
    if i < |items| {
      AfterLastAt(items, i);
    }
    if j < |items| {
      AfterLastAt(items, j);
    }
  }

  /** Reordering permutes the items and leaves `current` alone. */
  lemma ReorderPermutes(p: Profiles, active: string, over: string)
    requires Wf(Items(p))
    ensures var after := Reordered(p, active, over);
            multiset(Items(after)) == multiset(Items(p)) && Wf(Items(after)) && after.current == p.current
  {
    var items := Items(p);
    var i, j := First(items, Some(active)), First(items, Some(over));
    ReorderMoves(p, active, over);
    if i < |items| && j < |items| {
      MovePermutes(items, i, j);
      MoveKeepsWf(items, i, j);
    }
  }

  lemma FirstAt(items: seq<Item>, k: nat)
    requires Wf(items) && k < |items|
    ensures First(items, items[k].uid) == k
  {
  }

  /** A reorder is undone by moving the same item onto the one that now stands where it came from. */
  lemma ReorderIsUndone(p: Profiles, active: string, over: string)
    requires Wf(Items(p)) && Has(Items(p), Some(active)) && Has(Items(p), Some(over))
    ensures var after := Reordered(p, active, over);
            var i := First(Items(p), Some(active));
            && i < |Items(after)| && Items(after)[i].uid.Some?
            && Reordered(after, active, Items(after)[i].uid.value) == p
  {
    hide Wf, Move, RemoveAt, Reordered, AfterLast;
    var items := Items(p);
    var i, j := First(items, Some(active)), First(items, Some(over));
    var after := Reordered(p, active, over);
    ReorderMoves(p, active, over);
    MoveThere(items, i, j);
    MoveKeepsWf(items, i, j);
    assert Items(after) == Move(items, i, j);
    UidAt(Items(after), i);
    FirstAt(Items(after), i);
    FirstAt(Items(after), j);
    ReorderMoves(after, active, Items(after)[i].uid.value);
  }

  lemma UidAt(items: seq<Item>, i: nat)
    requires Wf(items) && i < |items|
    ensures items[i].uid.Some?
  {
  }

  // ---- Every operation --------------------------------------------------------------------------

  datatype Change =
    | Append(item: Item)
    | Reorder(active: string, over: string)
    | Patch(current: Option<string>)
    | Delete(uid: string)

  /** What callers owe: appended items have a new uid. */
  ghost predicate Allowed(p: Profiles, c: Change) {
    c.Append? ==> c.item.uid.Some? && !Has(Items(p), c.item.uid)
  }

  /** No deleted profile refers to the current one. */
  ghost predicate Careful(p: Profiles, c: Change) {
    c.Delete? && Has(Items(p), Some(c.uid)) && !DeletesCurrent(p, c.uid) ==>
      p.current !in References(Items(p)[First(Items(p), Some(c.uid))])
  }

  function Apply(p: Profiles, c: Change): Profiles {
    match c
    case Append(item) => Appended(p, item)
    case Reorder(active, over) => Reordered(p, active, over)
    case Patch(current) => PatchConfig(p, current)
    case Delete(uid) => if Has(Items(p), Some(uid)) then Deleted(p, uid) else p
  }

  ghost predicate AllAllowed(p: Profiles, changes: seq<Change>)
    decreases |changes|
  {
    changes == [] || (Allowed(p, changes[0]) && AllAllowed(Apply(p, changes[0]), changes[1..]))
  }

  ghost predicate AllCareful(p: Profiles, changes: seq<Change>)
    decreases |changes|
  {
    changes == [] || (Careful(p, changes[0]) && AllCareful(Apply(p, changes[0]), changes[1..]))
  }

  function ApplyAll(p: Profiles, changes: seq<Change>): Profiles
    decreases |changes|
  {
    if changes == [] then p else ApplyAll(Apply(p, changes[0]), changes[1..])
  }

  lemma AppendKeepsList(p: Profiles, item: Item)
    requires Wf(Items(p)) && item.uid.Some? && !Has(Items(p), item.uid)
    ensures Wf(Items(Appended(p, item)))
    ensures Named(p) ==> Named(Appended(p, item))
  {
    var after := Appended(p, item);
    assert Items(after)[|Items(p)|] in Items(after);
    assert forall x :: x in Items(p) ==> x in Items(after);
  }

  lemma ReorderKeepsList(p: Profiles, active: string, over: string)
    requires Wf(Items(p))
    ensures Wf(Items(Reordered(p, active, over)))
    ensures Named(p) ==> Named(Reordered(p, active, over))
  {
    var after := Reordered(p, active, over);
    ReorderPermutes(p, active, over);
    assert forall x :: x in Items(p) ==> x in multiset(Items(after));
  }

  lemma ChangeKeepsList(p: Profiles, c: Change)
    requires Wf(Items(p)) && Allowed(p, c)
    ensures Wf(Items(Apply(p, c)))
    ensures Named(p) && Careful(p, c) ==> Named(Apply(p, c))
  {
    match c
    case Append(item) =>
      AppendKeepsList(p, item);
    case Reorder(active, over) =>
      ReorderKeepsList(p, active, over);
    case Patch(current) =>
      HasIff(Items(p), current);
    case Delete(uid) =>
      if Has(Items(p), Some(uid)) {
        DeletionIsExact(p, uid);
        if Named(p) {
          DeletionKeepsCurrentIff(p, uid);
        }
      }
  }

  /** Over every run of appends, reorders, patches and deletions the uids stay present and distinct,
    * and `current` names an item as long as no deleted profile refers to the current one. */
  lemma {:induction false} ListStaysConsistent(p: Profiles, changes: seq<Change>)
    requires Wf(Items(p)) && AllAllowed(p, changes)
    ensures Wf(Items(ApplyAll(p, changes)))
    ensures Named(p) && AllCareful(p, changes) ==> Named(ApplyAll(p, changes))
    decreases |changes|
  {
    if changes != [] {
      ChangeKeepsList(p, changes[0]);
      ListStaysConsistent(Apply(p, changes[0]), changes[1..]);
    }
  }
}
