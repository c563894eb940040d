/** Asynchronous updates as a whole: threads that take the permit, read the committed value, compute,
  * and commit optimistically, while others stage, apply and discard drafts without any permit. */
module DataModify {
  import opened Options
  import opened DraftSpec
  import Permit = ModifyPermit

  datatype System<T> = System(permit: Permit.State, store: Store<T>)

  datatype Event<!T> =
    | OnPermit(e: Permit.Event)
    | Read(t: nat)                                // the holder copies the committed value
    | Write(t: nat, change: T -> Option<T>)       // its closure has ended: compare and install
    | OnStore(op: Op<T>)                          // anybody's snapshot, edit, apply or discard

  predicate Holds<T>(s: System<T>, t: nat) {
    Permit.At(s.permit, t) == Some(Permit.Holding)
  }

  /** What an event does to the store; nothing when its thread cannot perform it. */
  function Ops<T>(s: System<T>, e: Event<T>): seq<Op<T>> {
    match e
    case OnPermit(_) => []
    case Read(t) => if Holds(s, t) && t !in s.store.updates then [BeginUpdate(t)] else []
    case Write(t, change) => if Holds(s, t) && t in s.store.updates then [FinishUpdate(t, change)] else []
    case OnStore(op) => if op.BeginUpdate? || op.FinishUpdate? then [] else [op]
  }

  /** A holder keeps its permit until its update has ended. */
  function PermitStep<T>(s: System<T>, e: Event<T>): Permit.State {
    if e.OnPermit? && !(e.e.Clear? && e.e.t in s.store.updates) then Permit.Step(s.permit, e.e) else s.permit
  }

  function Step<T>(s: System<T>, e: Event<T>): System<T> {
    System(PermitStep(s, e), DraftSpec.Run(s.store, Ops(s, e)))
  }

  function Run<T>(s: System<T>, events: seq<Event<T>>): System<T>
    decreases |events|
  {
    if events == [] then s else Run(Step(s, events[0]), events[1..])
  }

  /** The steps of the store in a run of the system. */
  function AllOps<T>(s: System<T>, events: seq<Event<T>>): seq<Op<T>>
    decreases |events|
  {
    if events == [] then [] else Ops(s, events[0]) + AllOps(Step(s, events[0]), events[1..])
  }

  ghost predicate Inv<T>(s: System<T>) {
    && Permit.Inv(s.permit) && Coherent(s.store)
    && forall u :: u in s.store.updates ==> Holds(s, u)
  }

  function Initial<T>(value: T): System<T> {
    System(Permit.Initial(), DraftSpec.Initial(value))
  }

  /** Every run of the system is a run of the store, so what holds of all those holds of it. */
  lemma {:induction false} RunsProject<T>(s: System<T>, events: seq<Event<T>>)
    ensures Run(s, events).store == DraftSpec.Run(s.store, AllOps(s, events))
    decreases |events|
  {
    if events != [] {
      var next := Step(s, events[0]);
      RunsProject(next, events[1..]);
      RunAppend(s.store, Ops(s, events[0]), AllOps(next, events[1..]));
    }
  }

  /** Events of anybody who takes snapshots, edits, applies or discards. */
  function Unpermitted<T>(ops: seq<Op<T>>): seq<Event<T>> {
    seq(|ops|, i requires 0 <= i < |ops| => OnStore(ops[i]))
  }

  /** Those need no permit: whoever holds it, each of them takes effect on the store, in order. */
  lemma {:induction false} DraftsNeedNoPermit<T>(s: System<T>, ops: seq<Op<T>>)
    requires forall i :: 0 <= i < |ops| ==> !ops[i].BeginUpdate? && !ops[i].FinishUpdate?
    ensures Run(s, Unpermitted(ops)) == System(s.permit, DraftSpec.Run(s.store, ops))
    decreases |ops|
  {
    if ops != [] {
      OneStep(s.store, ops[0]);
      assert Unpermitted(ops)[1..] == Unpermitted(ops[1..]);
      DraftsNeedNoPermit(Step(s, OnStore(ops[0])), ops[1..]);
    }
  }

  /** The permit is held up by nothing but an update that its holder has not ended. */
  lemma PermitIsHeldUpIff<T>(s: System<T>, e: Permit.Event)
    requires Permit.Step(s.permit, e) != s.permit
    ensures Step(s, OnPermit(e)) == System(s.permit, s.store) <==> e.Clear? && e.t in s.store.updates
    ensures !(e.Clear? && e.t in s.store.updates) ==>
              Step(s, OnPermit(e)) == System(Permit.Step(s.permit, e), s.store)
  {
  }

  lemma HoldersStay(p: Permit.State, e: Permit.Event, t: nat)
    requires Permit.Inv(p) && Permit.At(p, t) == Some(Permit.Holding) && e != Permit.Clear(t)
    ensures Permit.At(Permit.Step(p, e), t) == Some(Permit.Holding)
  {
    assert t !in p.queue;
  }

  lemma StepKeepsInv<T>(s: System<T>, e: Event<T>)
    requires Inv(s)
    ensures Inv(Step(s, e))
  {
    hide Permit.Inv, Permit.Step;
    RunKeepsCoherent(s.store, Ops(s, e));
    if e.OnPermit? {
      Permit.StepKeepsInv(s.permit, e.e);
    }
    forall u | u in Step(s, e).store.updates
      ensures Holds(Step(s, e), u)
    {
      if Ops(s, e) != [] {
        OneStep(s.store, Ops(s, e)[0]);
      }
      if e.OnPermit? && u in s.store.updates && e.e != Permit.Clear(u) {
        HoldersStay(s.permit, e.e, u);
      }
    }
  }

  lemma {:induction false} RunKeepsInv<T>(s: System<T>, events: seq<Event<T>>)
    requires Inv(s)
    ensures Inv(Run(s, events))
    decreases |events|
  {
    if events != [] {
      StepKeepsInv(s, events[0]);
      RunKeepsInv(Step(s, events[0]), events[1..]);
    }
  }

  /** In every interleaving at most one update is under way. */
  lemma UpdatesAreSerial<T>(value: T, events: seq<Event<T>>, t: nat, u: nat)
    ensures var s := Run(Initial(value), events);
            t in s.store.updates && u in s.store.updates ==> t == u
  {
    RunKeepsInv(Initial(value), events);
  }

  /** The closure of thread t is still running. */
  predicate Awaits<T>(e: Event<T>, t: nat) {
    !(e.Read? && e.t == t) && !(e.Write? && e.t == t)
  }

  /** The steps neither end any update nor concern the one of thread t. */
  ghost predicate Quiet<T>(ops: seq<Op<T>>, t: nat) {
    forall i :: 0 <= i < |ops| ==> !ops[i].FinishUpdate? && !Concerns(ops[i], t)
  }

  lemma QuietAppend<T>(a: seq<Op<T>>, b: seq<Op<T>>, t: nat)
    requires Quiet(a, t) && Quiet(b, t)
    ensures Quiet(a + b, t)
  {
  }

  lemma OnlyTheHolder<T>(s: System<T>, t: nat, e: Event<T>)
    requires Inv(s) && t in s.store.updates && Awaits(e, t)
    ensures Quiet(Ops(s, e), t)
  {
    assert forall u :: Holds(s, u) ==> u == t;
  }

  lemma {:induction false} NobodyElseWrites<T>(s: System<T>, events: seq<Event<T>>, t: nat)
    requires Inv(s) && t in s.store.updates
    requires forall i :: 0 <= i < |events| ==> Awaits(events[i], t)
    ensures Quiet(AllOps(s, events), t)
    decreases |events|
  {
    if events != [] {
      OnlyTheHolder(s, t, events[0]);
      RunKeepsToken(s.store, Ops(s, events[0]), t);
      StepKeepsInv(s, events[0]);
      NobodyElseWrites(Step(s, events[0]), events[1..], t);
      QuietAppend(Ops(s, events[0]), AllOps(Step(s, events[0]), events[1..]), t);
    }
  }

  /** In every interleaving, an update whose closure succeeds is refused exactly when somebody applied
    * a draft while it ran; otherwise it commits its closure over the value that is committed at that
    * instant, and leaves the draft alone. */
  lemma UpdateIsRefusedIffDraftApplied<T>(s: System<T>, t: nat, events: seq<Event<T>>, change: T -> Option<T>)
    requires Inv(s) && Holds(s, t) && t !in s.store.updates && change(s.store.committed).Some?
    requires forall i :: 0 <= i < |events| ==> Awaits(events[i], t)
    ensures var begun := Step(s, Read(t));
            var before := Run(begun, events);
            var after := Step(before, Write(t, change));
            && after.store.staged == before.store.staged
            && if AppliesDraft(begun.store, AllOps(begun, events))
               then after.store.committed == before.store.committed && after.store.version == before.store.version
               else change(before.store.committed) == Some(after.store.committed)
  {
    hide Permit.Inv, Permit.Step, AppliesDraft;
    var begun := Step(s, Read(t));
    StepKeepsInv(s, Read(t));
    OneStep(s.store, BeginUpdate(t));
    NobodyElseWrites(begun, events, t);
    var before := Run(begun, events);
    var ops := AllOps(begun, events);
    RunsProject(begun, events);
    RunKeepsInv(begun, events);
    RunKeepsToken(begun.store, ops, t);
    UpdateFailsIffDraftApplied(s.store, t, ops, change);
    FinishedUpdate(before.store, t, change);
    OneStep(before.store, FinishUpdate(t, change));
  }
}
