/** The copy-on-write draft store: reference-counted cells that are shared with callers and
  * edited in place only when nobody else can see them. */
module DraftStore {
  import opened Options
  import opened DraftSpec

  /** A shared allocation with its strong count. */
  class Cell<T> {
    var value: T
    var shares: nat

    constructor (value: T)
      ensures this.value == value && shares == 1
    {
      this.value := value;
      shares := 1;
    }
  }

  /** The places that may keep a pointer to a cell. */
  datatype Holder = Committed | Staged | Snapshot(h: nat) | Updater(u: nat)

  /** How many of the pointers lead to the cell. */
  ghost function Count<T>(pointers: map<Holder, Cell<T>>, c: Cell<T>): nat {
    |set r | r in pointers && pointers[r] == c|
  }

  lemma CountAdded<T>(pointers: map<Holder, Cell<T>>, r: Holder, c: Cell<T>, cells: set<Cell<T>>)
    requires r !in pointers
    ensures forall d :: d in cells ==>
              Count(pointers[r := c], d) == Count(pointers, d) + if d == c then 1 else 0
  {
    forall d | d in cells
      ensures Count(pointers[r := c], d) == Count(pointers, d) + if d == c then 1 else 0
    {
      var next := pointers[r := c];
      var before := set x | x in pointers && pointers[x] == d;
      var after := set x | x in next && next[x] == d;
      assert after == if d == c then before + {r} else before;
    }
  }

  lemma CountRemoved<T>(pointers: map<Holder, Cell<T>>, r: Holder, cells: set<Cell<T>>)
    requires r in pointers
    ensures forall d :: d in cells ==>
              Count(pointers, d) == Count(pointers - {r}, d) + if d == pointers[r] then 1 else 0
  {
    CountAdded(pointers - {r}, r, pointers[r], cells);
    assert (pointers - {r})[r := pointers[r]] == pointers;
  }

  lemma OnlyPointer<T>(pointers: map<Holder, Cell<T>>, r: Holder)
    requires r in pointers && Count(pointers, pointers[r]) == 1
    ensures forall x :: x in pointers && x != r ==> pointers[x] != pointers[r]
  {
    forall x | x in pointers && x != r
      ensures pointers[x] != pointers[r]
    {
      var all := set y | y in pointers && pointers[y] == pointers[r];
      assert |all - {r}| == 0;
      assert x !in all - {r};
    }
  }

  lemma SharedTwice<T>(pointers: map<Holder, Cell<T>>, r: Holder, s: Holder)
    requires r in pointers && s in pointers && r != s && pointers[r] == pointers[s]
    ensures Count(pointers, pointers[r]) >= 2
  {
    var all := set x | x in pointers && pointers[x] == pointers[r];
    assert {r, s} <= all;
    assert |all| == |{r, s}| + |all - {r, s}|;
  }

  class Draft<T> {
    var committed: Cell<T>
    var staged: Cell?<T>

    /** The plain-value state that callers observe. */
    ghost var view: Store<T>
    /** Every pointer that exists, in the store or with a caller. */
    ghost var pointers: map<Holder, Cell<T>>
    ghost var repr: set<Cell<T>>

    /** Every strong count is exact. */
    ghost predicate Counted()
      reads this, repr
    {
      && (forall r :: r in pointers ==> pointers[r] in repr)
      && (forall c :: c in repr ==> c.shares == Count(pointers, c))
    }

    /** The view shows the value behind every pointer. */
    ghost predicate Shown()
      reads this, repr
    {
      && (forall r :: r in pointers ==> pointers[r] in repr)
      && Committed in pointers && pointers[Committed] == committed
      && (Staged in pointers <==> staged != null)
      && (staged != null ==> pointers[Staged] == staged && staged != committed)
      && view.committed == committed.value
      && view.staged == (if staged == null then None else Some(staged.value))
      && (forall h :: h in view.snapshots <==> Snapshot(h) in pointers)
      && (forall h :: h in view.snapshots ==> view.snapshots[h] == pointers[Snapshot(h)].value)
      && (forall u :: u in view.updates <==> Updater(u) in pointers)
      && (forall u :: u in view.updates ==>
            && view.updates[u].version <= view.version
            && pointers[Updater(u)] != staged
            && (pointers[Updater(u)] == committed <==> view.updates[u].version == view.version))
    }

    ghost predicate Valid()
      reads this, repr
    {
      Counted() && Shown()
    }

    constructor (value: T)
      ensures Valid() && fresh(repr) && view == Initial(value)
    {
      var cell := new Cell(value);
      committed := cell;
      staged := null;
      view := Initial(value);
      pointers := map[Committed := cell];
      repr := {cell};
      new;
      CountAdded(map[], Committed, cell, repr);
      assert map[][Committed := cell] == pointers;
    }

    /** Clones a pointer. */
    method Share(ghost r: Holder, c: Cell<T>)
      requires Counted() && r !in pointers && c in repr
      modifies this`pointers, c`shares
      ensures Counted() && pointers == old(pointers)[r := c]
    {
      CountAdded(pointers, r, c, repr);
      c.shares := c.shares + 1;
      pointers := pointers[r := c];
    }

    /** Drops a pointer. */
    method Drop(ghost r: Holder, c: Cell<T>)
      requires Counted() && r in pointers && pointers[r] == c
      modifies this`pointers, c`shares
      ensures Counted() && pointers == old(pointers) - {r}
    {
      CountRemoved(pointers, r, repr);
      c.shares := c.shares - 1;
      pointers := pointers - {r};
    }

    /** Allocates a cell behind a new pointer. */
    method Allocate(ghost r: Holder, value: T) returns (c: Cell<T>)
      requires Counted() && r !in pointers
      modifies this`pointers, this`repr
      ensures Counted() && fresh(c) && c.value == value && c.shares == 1
      ensures pointers == old(pointers)[r := c] && repr == old(repr) + {c}
    {
      c := new Cell(value);
      assert (set x | x in pointers && pointers[x] == c) == {};
      CountAdded(pointers, r, c, repr + {c});
      repr := repr + {c};
      pointers := pointers[r := c];
    }

    /** Replaces what a pointer leads to by a new cell. */
    method Reallocate(ghost r: Holder, c: Cell<T>, value: T) returns (d: Cell<T>)
      requires Counted() && r in pointers && pointers[r] == c
      modifies this`pointers, this`repr, c`shares
      ensures Counted() && fresh(d) && d.value == value
      ensures pointers == old(pointers)[r := d] && repr == old(repr) + {d}
    {
      Drop(r, c);
      d := Allocate(r, value);
    }

    /** Moves a pointer over another one, whose cell loses a share. */
    method MoveOver(ghost from: Holder, ghost to: Holder, c: Cell<T>)
      requires Counted() && from in pointers && to in pointers && from != to && pointers[to] == c
      modifies this`pointers, c`shares
      ensures Counted() && pointers == (old(pointers) - {from})[to := old(pointers)[from]]
    {
      Drop(to, c);
      ghost var rest := pointers - {from};
      CountRemoved(pointers, from, repr);
      CountAdded(rest, to, pointers[from], repr);
      pointers := rest[to := pointers[from]];
    }

    method DataArc(ghost h: nat) returns (snapshot: Cell<T>)
      requires Valid() && h !in view.snapshots
      modifies this, repr`shares
      ensures Valid() && repr == old(repr)
      ensures view == Step(old(view), TakeData(h))
      ensures snapshot == committed == old(committed) && staged == old(staged)
      ensures pointers == old(pointers)[Snapshot(h) := snapshot]
    {
      snapshot := committed;
      Share(Snapshot(h), snapshot);
      view := Step(view, TakeData(h));
    }

    method LatestArc(ghost h: nat) returns (snapshot: Cell<T>)
      requires Valid() && h !in view.snapshots
      modifies this, repr`shares
      ensures Valid() && repr == old(repr)
      ensures view == Step(old(view), TakeLatest(h))
      ensures committed == old(committed) && staged == old(staged)
      ensures snapshot == if staged != null then staged else committed
      ensures pointers == old(pointers)[Snapshot(h) := snapshot]
    {
      snapshot := if staged != null then staged else committed;
      Share(Snapshot(h), snapshot);
      view := Step(view, TakeLatest(h));
    }

    /** The caller drops its snapshot. */
    method ReleaseSnapshot(ghost h: nat, snapshot: Cell<T>)
      requires Valid() && h in view.snapshots && pointers[Snapshot(h)] == snapshot
      modifies this, repr`shares
      ensures Valid() && repr == old(repr)
      ensures view == Step(old(view), DropSnapshot(h))
      ensures pointers == old(pointers) - {Snapshot(h)}
    {
      Drop(Snapshot(h), snapshot);
      view := Step(view, DropSnapshot(h));
    }

    /** Takes the draft out of its slot, or a clone of the committed pointer when there is none. */
    method TakeDraft() returns (draft: Cell<T>)
      requires Valid()
      modifies this`staged, this`pointers, committed`shares
      ensures Counted() && staged == null
      ensures draft == if old(staged) != null then old(staged) else committed
      ensures pointers == old(pointers)[Staged := draft]
      ensures old(staged) != null ==> draft.shares == old(draft.shares)
    {
      if staged == null {
        draft := committed;
        Share(Staged, draft);
      } else {
        draft := staged;
        staged := null;
      }
    }

    /** Readies a taken draft for writing: the cell itself when this pointer is its only one,
      * otherwise a clone of it. */
    method MakeMut(draft: Cell<T>) returns (unique: Cell<T>)
      requires Counted() && Staged in pointers && pointers[Staged] == draft
      modifies this`pointers, this`repr, draft`shares
      ensures Counted() && fresh(repr - old(repr)) && old(repr) <= repr
      ensures unique in repr && unique.value == draft.value && pointers == old(pointers)[Staged := unique]
      ensures unique == draft <==> old(draft.shares) == 1
      ensures unique != draft ==> fresh(unique)
      ensures forall r :: r in pointers && r != Staged ==> pointers[r] != unique
    {
      unique := draft;
      if draft.shares != 1 {
        unique := Reallocate(Staged, draft, draft.value);
      } else {
        OnlyPointer(pointers, Staged);
      }
    }

    /** A draft that only the slot can see. As the committed pointer is always shared with the slot
      * it was cloned into, the committed cell is never the result. */
    method TakeUnshared() returns (unique: Cell<T>)
      requires Valid()
      modifies this`staged, this`pointers, this`repr, repr`shares
      ensures Counted() && fresh(repr - old(repr)) && old(repr) <= repr
      ensures unique.value == Latest(view) && pointers == old(pointers)[Staged := unique]
      ensures forall r :: r in pointers && r != Staged ==> pointers[r] != unique
      ensures if old(staged) != null && old(staged.shares) == 1 then unique == old(staged) else fresh(unique)
    {
      hide Count;
      var draft := TakeDraft();
      if old(staged) == null {
        SharedTwice(pointers, Committed, Staged);
      }
      unique := MakeMut(draft);
    }

    /** Puts such a draft, still unedited, back into the slot. */
    method UnshareDraft()
      requires Valid()
      modifies this, repr`shares
      ensures Valid() && fresh(repr - old(repr))
      ensures view == old(view).(staged := Some(Latest(old(view))))
      ensures committed == old(committed)
      ensures staged != null && pointers == old(pointers)[Staged := staged]
      ensures forall r :: r in pointers && r != Staged ==> pointers[r] != staged
      ensures if old(staged) != null && old(staged.shares) == 1 then staged == old(staged) else fresh(staged)
    {
      hide Count;
      staged := TakeUnshared();
      view := view.(staged := Some(staged.value));
    }

    /** Writes to a draft that only the slot can see. */
    method WriteDraft(value: T)
      requires Valid() && staged != null
      requires forall r :: r in pointers && r != Staged ==> pointers[r] != staged
      modifies this`view, staged`value
      ensures Valid() && staged.value == value
      ensures view == old(view).(staged := Some(value))
    {
      staged.value := value;
      view := view.(staged := Some(value));
    }

    /** Edits the draft: in place when no snapshot can see it, and otherwise in a clone. The edit starts
      * from the draft, or from the committed value when there is none. */
    method EditDraft<R>(f: T -> (T, R)) returns (result: R)
      requires Valid()
      modifies this, repr
      ensures Valid() && fresh(repr - old(repr))
      ensures view == Step(old(view), Edit(x => f(x).0))
      ensures staged != null && committed == old(committed)
      ensures (staged.value, result) == f(if old(staged) != null then old(staged.value) else old(committed.value))
      ensures forall c :: c in old(repr) && c != staged ==> c.value == old(c.value)
      ensures pointers == old(pointers)[Staged := staged]
      ensures if old(staged) != null && old(staged.shares) == 1 then staged == old(staged) else fresh(staged)
    {
      hide Counted;
      UnshareDraft();
      var edited := f(staged.value);
      WriteDraft(edited.0);
      result := edited.1;
    }

    method ApplyDraft()
      requires Valid()
      modifies this, repr`shares
      ensures Valid() && repr == old(repr)
      ensures view == Step(old(view), Apply)
      ensures committed == if old(staged) != null then old(staged) else old(committed)
      ensures staged == null
      ensures pointers == (old(pointers) - {Staged})[Committed := committed]
    {
      if staged != null {
        MoveOver(Staged, Committed, committed);
        committed := staged;
        staged := null;
        view := Step(view, Apply);
      }
    }

    method DiscardDraft()
      requires Valid()
      modifies this, repr`shares
      ensures Valid() && repr == old(repr)
      ensures view == Step(old(view), Discard)
      ensures staged == null && committed == old(committed)
      ensures pointers == old(pointers) - {Staged}
    {
      if staged != null {
        Drop(Staged, staged);
        staged := null;
        view := Step(view, Discard);
      }
    }

    /** The first half of an asynchronous update: copy the value and keep the pointer. */
    method StartUpdate(ghost u: nat) returns (local: T, origin: Cell<T>)
      requires Valid() && u !in view.updates
      modifies this, repr`shares
      ensures Valid() && repr == old(repr)
      ensures view == Step(old(view), BeginUpdate(u))
      ensures origin == committed == old(committed) && staged == old(staged) && local == committed.value
      ensures pointers == old(pointers)[Updater(u) := origin] && local == view.updates[u].local
    {
      origin := committed;
      Share(Updater(u), origin);
      local := origin.value;
      view := Step(view, BeginUpdate(u));
    }

    /** The second half: compare pointers and install the result in a new cell. */
    method EndUpdate(ghost u: nat, origin: Cell<T>, local: T, change: T -> Option<T>) returns (ok: bool)
      requires Valid() && u in view.updates
      requires pointers[Updater(u)] == origin && view.updates[u].local == local
      modifies this, repr`shares
      ensures Valid() && fresh(repr - old(repr))
      ensures view == Step(old(view), FinishUpdate(u, change))
      ensures ok == Succeeds(old(view), u, change)
      ensures ok <==> change(local).Some? && old(committed) == origin
      ensures if ok then fresh(committed) && change(local) == Some(committed.value) else committed == old(committed)
      ensures staged == old(staged)
      ensures pointers == (old(pointers) - {Updater(u)})[Committed := committed]
    {
      var outcome := change(local);
      ok := outcome.Some? && committed == origin;
      if ok {
        ReplaceCommitted(outcome.value);
      }
      ReleaseOrigin(u, origin);
    }

    method ReleaseOrigin(ghost u: nat, origin: Cell<T>)
      requires Valid() && u in view.updates && pointers[Updater(u)] == origin
      modifies this, repr`shares
      ensures Valid() && repr == old(repr) && committed == old(committed) && staged == old(staged)
      ensures view == old(view).(updates := old(view).updates - {u})
      ensures pointers == old(pointers) - {Updater(u)}
    {
      Drop(Updater(u), origin);
      view := view.(updates := view.updates - {u});
    }

    method ReplaceCommitted(value: T)
      requires Valid()
      modifies this, repr`shares
      ensures Valid() && fresh(repr - old(repr))
      ensures view == old(view).(committed := value, version := old(view).version + 1)
      ensures fresh(committed) && committed.value == value && staged == old(staged)
      ensures pointers == old(pointers)[Committed := committed]
    {
      committed := Reallocate(Committed, committed, value);
      view := view.(committed := value, version := view.version + 1);
    }
  }
}
