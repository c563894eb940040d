/** What a draft store means to its callers: plain values, no sharing.
  *
  * `version` stands for the identity of the committed allocation: it moves exactly when
  * the committed pointer is replaced. */
module DraftSpec {
  import opened Options

  /** What a running asynchronous update remembers of the value it started from. */
  datatype Token<T> = Token(local: T, version: nat)

  datatype Store<T> = Store(
    committed: T,
    staged: Option<T>,
    version: nat,
    snapshots: map<nat, T>,
    updates: map<nat, Token<T>>)

  /** The atomic steps; each one runs under the store's mutex. */
  datatype Op<!T> =
    | TakeData(h: nat)
    | TakeLatest(h: nat)
    | DropSnapshot(h: nat)
    | Edit(edit: T -> T)
    | Apply
    | Discard
    | BeginUpdate(u: nat)
    | FinishUpdate(u: nat, change: T -> Option<T>)

  function Latest<T>(s: Store<T>): T {
    if s.staged.Some? then s.staged.value else s.committed
  }

  /** An asynchronous update takes effect iff its closure succeeds and the committed pointer
    * is the one it started from. */
  predicate Succeeds<T>(s: Store<T>, u: nat, change: T -> Option<T>) {
    u in s.updates && s.updates[u].version == s.version && change(s.updates[u].local).Some?
  }

  function Step<T>(s: Store<T>, op: Op<T>): Store<T> {
    match op
    case TakeData(h) =>
      if h in s.snapshots then s else s.(snapshots := s.snapshots[h := s.committed])
    case TakeLatest(h) =>
      if h in s.snapshots then s else s.(snapshots := s.snapshots[h := Latest(s)])
    case DropSnapshot(h) =>
      s.(snapshots := s.snapshots - {h})
    case Edit(edit) =>
      s.(staged := Some(edit(Latest(s))))
    case Apply =>
      if s.staged.None? then s
      else s.(committed := s.staged.value, staged := None, version := s.version + 1)
    case Discard =>
      s.(staged := None)
    case BeginUpdate(u) =>
      if u in s.updates then s else s.(updates := s.updates[u := Token(s.committed, s.version)])
    case FinishUpdate(u, change) =>
      var ended := s.(updates := s.updates - {u});
      if Succeeds(s, u, change) then
        ended.(committed := change(s.updates[u].local).value, version := s.version + 1)
      else
        ended
  }

  function Run<T>(s: Store<T>, ops: seq<Op<T>>): Store<T>
    decreases |ops|
  {
    if ops == [] then s else Run(Step(s, ops[0]), ops[1..])
  }

  /** A replacement of the committed value: an update applied to whatever is committed at
    * that instant, or the installation of a staged draft. */
  datatype Change<!T> = Update(change: T -> Option<T>) | Install(value: T)

  function ChangeOf<T>(s: Store<T>, op: Op<T>): seq<Change<T>> {
    match op
    case Apply => if s.staged.Some? then [Install(s.staged.value)] else []
    case FinishUpdate(u, change) => if Succeeds(s, u, change) then [Update(change)] else []
    case _ => []
  }

  /** The changes that a run reports as made, in commit order. */
  function Changes<T>(s: Store<T>, ops: seq<Op<T>>): seq<Change<T>>
    decreases |ops|
  {
    if ops == [] then [] else ChangeOf(s, ops[0]) + Changes(Step(s, ops[0]), ops[1..])
  }

  /** The changes performed one after the other on a single value, with no concurrency. */
  function Replay<T>(value: T, changes: seq<Change<T>>): T
    decreases |changes|
  {
    if changes == [] then value else Replay(Perform(value, changes[0]), changes[1..])
  }

  function Perform<T>(value: T, change: Change<T>): T {
    match change
    case Install(v) => v
    case Update(f) => if f(value).Some? then f(value).value else value
  }

  /** No update remembers a pointer from the future, and one that remembers the current
    * pointer remembers its value. */
  ghost predicate Coherent<T>(s: Store<T>) {
    forall u :: u in s.updates ==>
      s.updates[u].version <= s.version
      && (s.updates[u].version == s.version ==> s.updates[u].local == s.committed)
  }

  function Initial<T>(value: T): (s: Store<T>)
    ensures Coherent(s)
  {
    Store(value, None, 0, map[], map[])
  }

  lemma StepKeepsCoherent<T>(s: Store<T>, op: Op<T>)
    requires Coherent(s)
    ensures Coherent(Step(s, op))
  {
  }

  lemma {:induction false} RunKeepsCoherent<T>(s: Store<T>, ops: seq<Op<T>>)
    requires Coherent(s)
    ensures Coherent(Run(s, ops))
    decreases |ops|
  {
    if ops != [] {
      RunKeepsCoherent(Step(s, ops[0]), ops[1..]);
    }
  }

  /** An update that reports success has applied its closure to the value committed at the
    * instant of the commit and left the draft alone; one that fails has changed nothing. */
  lemma FinishedUpdate<T>(s: Store<T>, u: nat, change: T -> Option<T>)
    requires Coherent(s) && u in s.updates
    ensures var after := Step(s, FinishUpdate(u, change));
            && after.staged == s.staged && after.snapshots == s.snapshots
            && (Succeeds(s, u, change) ==> change(s.committed) == Some(after.committed))
            && (!Succeeds(s, u, change) ==> after.committed == s.committed && after.version == s.version)
  {
  }

  lemma {:induction false} ReplayAppend<T>(value: T, a: seq<Change<T>>, b: seq<Change<T>>)
    ensures Replay(value, a + b) == Replay(Replay(value, a), b)
    decreases |a|
  {
    if a == [] {
      assert a + b == b;
    } else {
      assert (a + b)[0] == a[0] && (a + b)[1..] == a[1..] + b;
      ReplayAppend(Perform(value, a[0]), a[1..], b);
    }
  }

  /** No committed change is ever lost: after any interleaving the committed value is what the
    * reported changes give when performed one at a time, in the order of their commits. */
  lemma {:induction false} CommitsAreSequential<T>(s: Store<T>, ops: seq<Op<T>>)
    requires Coherent(s)
    ensures Run(s, ops).committed == Replay(s.committed, Changes(s, ops))
    ensures Run(s, ops).version == s.version + |Changes(s, ops)|
    decreases |ops|
  {
    if ops != [] {
      var next := Step(s, ops[0]);
      var first := ChangeOf(s, ops[0]);
      CommitsAreSequential(next, ops[1..]);
      ReplayAppend(s.committed, first, Changes(next, ops[1..]));
      assert next.committed == Replay(s.committed, first);
    }
  }

  /** The first update that a run commits has succeeded on the value that it started with. */
  lemma {:induction false} FirstChangeSucceeded<T>(s: Store<T>, ops: seq<Op<T>>)
    requires Coherent(s) && Changes(s, ops) != [] && Changes(s, ops)[0].Update?
    ensures Changes(s, ops)[0].change(s.committed).Some?
    decreases |ops|
  {
    var op := ops[0];
    if ChangeOf(s, op) == [] {
      StepKeepsCoherent(s, op);
      FirstChangeSucceeded(Step(s, op), ops[1..]);
    }
  }

  predicate Concerns<T>(op: Op<T>, u: nat) {
    (op.BeginUpdate? || op.FinishUpdate?) && op.u == u
  }

  lemma {:induction false} RunKeepsToken<T>(s: Store<T>, ops: seq<Op<T>>, u: nat)
    requires u in s.updates
    requires forall i :: 0 <= i < |ops| ==> !Concerns(ops[i], u)
    ensures u in Run(s, ops).updates && Run(s, ops).updates[u] == s.updates[u]
    decreases |ops|
  {
    if ops != [] {
      RunKeepsToken(Step(s, ops[0]), ops[1..], u);
    }
  }

  /** An update whose closure succeeds is refused exactly when some change was committed between
    * its start and its end; otherwise it commits its closure over that unchanged value. */
  lemma UpdateSucceedsIffUndisturbed<T>(s: Store<T>, u: nat, ops: seq<Op<T>>, change: T -> Option<T>)
    requires Coherent(s) && u !in s.updates && change(s.committed).Some?
    requires forall i :: 0 <= i < |ops| ==> !Concerns(ops[i], u)
    ensures var begun := Step(s, BeginUpdate(u));
            var before := Run(begun, ops);
            && (Succeeds(before, u, change) <==> Changes(begun, ops) == [])
            && (Succeeds(before, u, change) ==>
                  Step(before, FinishUpdate(u, change)).committed == change(s.committed).value)
  {
    hide Run, Changes, Replay;
    var begun := Step(s, BeginUpdate(u));
    var before := Run(begun, ops);
    assert begun.updates[u] == Token(s.committed, s.version) && Coherent(begun);
    RunKeepsToken(begun, ops, u);
    CommitsAreSequential(begun, ops);
    assert before.version == s.version + |Changes(begun, ops)|;
  }

  predicate AppliesDraft<T>(s: Store<T>, ops: seq<Op<T>>)
    decreases |ops|
  {
    ops != [] && ((ops[0].Apply? && s.staged.Some?) || AppliesDraft(Step(s, ops[0]), ops[1..]))
  }

  lemma {:induction false} OnlyAppliesChange<T>(s: Store<T>, ops: seq<Op<T>>)
    requires forall i :: 0 <= i < |ops| ==> !ops[i].FinishUpdate?
    ensures Changes(s, ops) == [] <==> !AppliesDraft(s, ops)
    decreases |ops|
  {
    if ops != [] {
      OnlyAppliesChange(Step(s, ops[0]), ops[1..]);
    }
  }

  /** As the permit lets no other update end in the meantime, an update whose closure succeeds is
    * refused exactly when a draft was applied while it ran. */
  lemma UpdateFailsIffDraftApplied<T>(s: Store<T>, u: nat, ops: seq<Op<T>>, change: T -> Option<T>)
    requires Coherent(s) && u !in s.updates && change(s.committed).Some?
    requires forall i :: 0 <= i < |ops| ==> !ops[i].FinishUpdate? && !Concerns(ops[i], u)
    ensures var begun := Step(s, BeginUpdate(u));
            Succeeds(Run(begun, ops), u, change) <==> !AppliesDraft(begun, ops)
  {
    hide Run, Changes, AppliesDraft;
    UpdateSucceedsIffUndisturbed(s, u, ops, change);
    OnlyAppliesChange(Step(s, BeginUpdate(u)), ops);
  }

  /** The edits of a run, in order. */
  function EditsOf<T>(ops: seq<Op<T>>): seq<T -> T> {
    if ops == [] then [] else (if ops[0].Edit? then [ops[0].edit] else []) + EditsOf(ops[1..])
  }

  /** The edits made one after the other on a value. */
  function Composed<T>(value: T, edits: seq<T -> T>): T
    decreases |edits|
  {
    if edits == [] then value else Composed(edits[0](value), edits[1..])
  }

  predicate KeepsDraft<T>(op: Op<T>) {
    !op.Apply? && !op.Discard?
  }

  /** Edits build on each other: on a store with a draft, and with no apply or discard in between, the
    * draft ends as all edits composed in order over the one there was. */
  lemma {:induction false} EditsBuildOnTheDraft<T>(s: Store<T>, ops: seq<Op<T>>)
    requires s.staged.Some? && forall i :: 0 <= i < |ops| ==> KeepsDraft(ops[i])
    ensures Run(s, ops).staged == Some(Composed(s.staged.value, EditsOf(ops)))
    decreases |ops|
  {
    if ops != [] {
      EditsBuildOnTheDraft(Step(s, ops[0]), ops[1..]);
      if ops[0].Edit? {
        assert ([ops[0].edit] + EditsOf(ops[1..]))[1..] == EditsOf(ops[1..]);
      } else {
        assert EditsOf(ops) == EditsOf(ops[1..]);
      }
    }
  }

  lemma {:induction false} NoEditsNoDraft<T>(s: Store<T>, ops: seq<Op<T>>)
    requires s.staged.None? && EditsOf(ops) == []
    ensures Run(s, ops).staged.None?
    decreases |ops|
  {
    if ops != [] {
      NoEditsNoDraft(Step(s, ops[0]), ops[1..]);
    }
  }

  lemma {:induction false} RunAppend<T>(s: Store<T>, a: seq<Op<T>>, b: seq<Op<T>>)
    ensures Run(s, a + b) == Run(Run(s, a), b)
    decreases |a|
  {
    if a == [] {
      assert a + b == b;
    } else {
      assert (a + b)[0] == a[0] && (a + b)[1..] == a[1..] + b;
      RunAppend(Step(s, a[0]), a[1..], b);
    }
  }

  lemma OneStep<T>(s: Store<T>, op: Op<T>)
    ensures Run(s, [op]) == Step(s, op)
  {
    assert Run(Step(s, op), [op][1..]) == Step(s, op);
  }

  /** Without a draft the first edit starts from the value that is committed at that instant, and an
    * apply after further edits commits all of them composed in order. */
  lemma EditsStartFromTheCommitted<T>(s: Store<T>, before: seq<Op<T>>, edit: T -> T, after: seq<Op<T>>)
    requires s.staged.None? && EditsOf(before) == []
    requires forall i :: 0 <= i < |after| ==> KeepsDraft(after[i])
    ensures var base := Run(s, before).committed;
            var all := before + ([Edit(edit)] + after);
            && Run(s, all).staged == Some(Composed(edit(base), EditsOf(after)))
            && Run(s, all + [Apply]).committed == Composed(edit(base), EditsOf(after))
            && Run(s, all + [Apply]).staged == None
  {
    var t := Run(s, before);
    var all := before + ([Edit(edit)] + after);
    NoEditsNoDraft(s, before);
    RunAppend(s, before, [Edit(edit)] + after);
    RunAppend(t, [Edit(edit)], after);
    OneStep(t, Edit(edit));
    EditsBuildOnTheDraft(Step(t, Edit(edit)), after);
    RunAppend(s, all, [Apply]);
    OneStep(Run(s, all), Apply);
  }

  /** A snapshot keeps its value for as long as it is held, whatever happens to the store. */
  lemma {:induction false} SnapshotsNeverChange<T>(s: Store<T>, ops: seq<Op<T>>, h: nat)
    requires h in s.snapshots
    requires forall i :: 0 <= i < |ops| ==> ops[i] != DropSnapshot(h)
    ensures h in Run(s, ops).snapshots && Run(s, ops).snapshots[h] == s.snapshots[h]
    decreases |ops|
  {
    if ops != [] {
      SnapshotsNeverChange(Step(s, ops[0]), ops[1..], h);
    }
  }
}
