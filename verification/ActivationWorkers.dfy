/** The workers that put saved selections back. A global generation number says which worker is
  * current; every worker first awaits the one before it, and checks the generation before each
  * selection. Events of the workers, of new activations and of supersedes interleave freely. */
module ActivationWorkers {
  import opened Options
  import opened Reconcile
  import opened ReconcileTheorems
  import opened SettlingRetries

  /** `Armed` has passed its check and will issue the first activation it has left; `Selecting` waits
    * for the core to answer. */
  datatype Pc =
    | Waiting
    | Running(todo: seq<Activation>)
    | Armed(todo: seq<Activation>)
    | Selecting(todo: seq<Activation>)
    | Done

  datatype Worker = Worker(generation: nat, pc: Pc, completed: Completed)

  /** A selection sent to the core: by whom, at which value of the global generation, and what its
    * worker had already recorded. */
  datatype Issue = Issue(worker: nat, at: nat, activation: Activation, completed: Completed)

  /** The worker before worker i is worker i - 1. */
  datatype State = State(generation: nat, workers: seq<Worker>, log: seq<Issue>)

  datatype Event =
    | Supersede
    | Activate
    | Proceed(i: nat)                               // the predecessor has ended
    | Load(i: nat, activations: seq<Activation>)    // a new plan from a new snapshot
    | Check(i: nat)
    | Send(i: nat)
    | Answer(i: nat, ok: bool)
    | Exit(i: nat)                                  // every other way out

  function Initial(): State {
    State(0, [], [])
  }

  function Goto(s: State, i: nat, pc: Pc): State
    requires i < |s.workers|
  {
    s.(workers := s.workers[i := s.workers[i].(pc := pc)])
  }

  predicate Current(s: State, i: nat)
    requires i < |s.workers|
  {
    s.workers[i].generation == s.generation
  }

  function WorkerStep(s: State, i: nat, e: Event): State
    requires i < |s.workers|
  {
    var w := s.workers[i];
    match (e, w.pc)
    case (Proceed(_), Waiting) =>
      if i > 0 && !s.workers[i - 1].pc.Done? then s
      else Goto(s, i, if Current(s, i) then Running([]) else Done)
    case (Load(_, activations), Running(_)) =>
      if DistinctGroups(activations) then Goto(s, i, Running(Remaining(activations, w.completed))) else s
    case (Check(_), Running(todo)) =>
      if todo == [] then s else Goto(s, i, if Current(s, i) then Armed(todo) else Done)
    case (Send(_), Armed(todo)) =>
      if todo == [] then s
      else Goto(s, i, Selecting(todo)).(log := s.log + [Issue(i, s.generation, todo[0], w.completed)])
    case (Answer(_, ok), Selecting(todo)) =>
      if todo == [] then s
      else if !Current(s, i) then Goto(s, i, Done)
      else
        var completed := if ok then w.completed[todo[0].group := todo[0].node] else w.completed;
        s.(workers := s.workers[i := Worker(w.generation, Running(todo[1..]), completed)])
    case (Exit(_), Running(_)) => Goto(s, i, Done)
    case _ => s
  }

  function Step(s: State, e: Event): State {
    match e
    case Supersede => s.(generation := s.generation + 1)
    case Activate =>
      State(s.generation + 1, s.workers + [Worker(s.generation + 1, Waiting, map[])], s.log)
    case _ => if e.i < |s.workers| then WorkerStep(s, e.i, e) else s
  }

  function Run(s: State, events: seq<Event>): State
    decreases |events|
  {
    if events == [] then s else Run(Step(s, events[0]), events[1..])
  }

  // ---- Order ------------------------------------------------------------------------------------

  /** Later workers carry larger generations, and none that has started precedes an unfinished one. */
  ghost predicate Serial(s: State) {
    && (forall i :: 0 <= i < |s.workers| ==> s.workers[i].generation <= s.generation)
    && (forall i, j :: 0 <= i < j < |s.workers| ==> s.workers[i].generation < s.workers[j].generation)
    && (forall i, j :: 0 <= i < j < |s.workers| && !s.workers[j].pc.Waiting? ==> s.workers[i].pc.Done?)
  }

  /** Only started workers have issued anything, the earlier ones first. */
  ghost predicate Logged(s: State) {
    && (forall k :: 0 <= k < |s.log| ==>
          s.log[k].worker < |s.workers| && !s.workers[s.log[k].worker].pc.Waiting?)
    && (forall k, l :: 0 <= k < l < |s.log| ==> s.log[k].worker <= s.log[l].worker)
  }

  /** What one worker's event can touch: its own entry, and the end of the log while it is armed. */
  lemma WorkerFrame(s: State, i: nat, e: Event)
    requires i < |s.workers|
    ensures var s' := WorkerStep(s, i, e);
            && s'.generation == s.generation && |s'.workers| == |s.workers|
            && (forall j :: 0 <= j < |s.workers| && j != i ==> s'.workers[j] == s.workers[j])
            && s'.workers[i].generation == s.workers[i].generation
            && (s.workers[i].pc.Done? ==> s'.workers[i].pc.Done?)
            && (!s.workers[i].pc.Waiting? ==> !s'.workers[i].pc.Waiting?)
            && (s.workers[i].pc.Waiting? && !s'.workers[i].pc.Waiting? ==> i == 0 || s.workers[i - 1].pc.Done?)
            && (s'.workers[i].pc.Armed? ==> s.workers[i].pc.Armed? || Current(s, i))
            && (s'.log == s.log
                || (|s'.log| == |s.log| + 1 && s'.log[..|s.log|] == s.log && s'.log[|s.log|].worker == i
                    && s.workers[i].pc.Armed? && s'.workers[i].pc.Selecting?))
  {
  }

  lemma WorkerKeepsSerial(s: State, i: nat, e: Event)
    requires Serial(s) && i < |s.workers|
    ensures Serial(WorkerStep(s, i, e))
  {
    var s' := WorkerStep(s, i, e);
    WorkerFrame(s, i, e);
    forall j, k | 0 <= j < k < |s'.workers| && !s'.workers[k].pc.Waiting?
      ensures s'.workers[j].pc.Done?
    {
      if k == i && s.workers[i].pc.Waiting? {
        assert s.workers[i - 1].pc.Done?;
        assert j < i - 1 ==> s.workers[j].pc.Done?;
      } else {
        assert s.workers[j].pc.Done?;
      }
    }
  }

  lemma WorkerKeepsLogged(s: State, i: nat, e: Event)
    requires Serial(s) && Logged(s) && i < |s.workers|
    ensures Logged(WorkerStep(s, i, e))
  {
    var s' := WorkerStep(s, i, e);
    WorkerFrame(s, i, e);
    forall k | 0 <= k < |s'.log|
      ensures s'.log[k].worker < |s'.workers| && !s'.workers[s'.log[k].worker].pc.Waiting?
      ensures s'.log != s.log ==> s'.log[k].worker <= i
    {
      if k < |s.log| {
        assert s'.log[k] == s.log[k];
      }
    }
  }

  lemma StepKeepsOrder(s: State, e: Event)
    requires Serial(s) && Logged(s)
    ensures Serial(Step(s, e)) && Logged(Step(s, e))
  {
    if !e.Supersede? && !e.Activate? && e.i < |s.workers| {
      WorkerKeepsSerial(s, e.i, e);
      WorkerKeepsLogged(s, e.i, e);
    }
  }

  lemma {:induction false} RunKeepsOrder(s: State, events: seq<Event>)
    requires Serial(s) && Logged(s)
    ensures Serial(Run(s, events)) && Logged(Run(s, events))
    decreases |events|
  {
    if events != [] {
      StepKeepsOrder(s, events[0]);
      RunKeepsOrder(Step(s, events[0]), events[1..]);
    }
  }

  /** Over every run selections are sent in non-decreasing order of their workers' generations, and
    * two workers are never under way at once. */
  lemma SelectionsFollowGenerations(events: seq<Event>)
    ensures var s := Run(Initial(), events);
            && (forall k :: 0 <= k < |s.log| ==> s.log[k].worker < |s.workers|)
            && (forall k, l :: 0 <= k < l < |s.log| ==>
                  s.workers[s.log[k].worker].generation <= s.workers[s.log[l].worker].generation)
            && (forall i, j :: 0 <= i < j < |s.workers| ==> s.workers[i].pc.Done? || s.workers[j].pc.Waiting?)
  {
    RunKeepsOrder(Initial(), events);
    var s := Run(Initial(), events);
    forall k, l | 0 <= k < l < |s.log|
      ensures s.workers[s.log[k].worker].generation <= s.workers[s.log[l].worker].generation
    {
      assert s.log[k].worker <= s.log[l].worker;
    }
  }

  // ---- Overtaking -------------------------------------------------------------------------------

  /** How many selections a worker has sent. */
  function Sent(log: seq<Issue>, i: nat): nat {
    if log == [] then 0
    else Sent(log[..|log| - 1], i) + if log[|log| - 1].worker == i then 1 else 0
  }

  function InHand(s: State, i: nat): nat
    requires i < |s.workers|
  {
    if s.workers[i].pc.Armed? then 1 else 0
  }

  lemma OvertakenStep(s: State, e: Event, i: nat)
    requires Serial(s) && i < |s.workers| && !Current(s, i)
    ensures var s' := Step(s, e);
            && i < |s'.workers| && !Current(s', i)
            && Sent(s'.log, i) + InHand(s', i) <= Sent(s.log, i) + InHand(s, i)
  {
    var s' := Step(s, e);
    if s'.log != s.log {
      assert s'.log[..|s'.log| - 1] == s.log;
    }
  }

  lemma {:induction false} OvertakenRun(s: State, events: seq<Event>, i: nat)
    requires Serial(s) && Logged(s) && i < |s.workers| && !Current(s, i)
    ensures Sent(Run(s, events).log, i) <= Sent(s.log, i) + InHand(s, i)
    decreases |events|
  {
    if events != [] {
      OvertakenStep(s, events[0], i);
      StepKeepsOrder(s, events[0]);
      OvertakenRun(Step(s, events[0]), events[1..], i);
    }
  }

  /** Once a supersede or a new activation has overtaken a worker it sends at most one more selection,
    * and only if its check had already passed. */
  lemma OvertakenWorkerStandsDown(s: State, e: Event, events: seq<Event>, i: nat)
    requires Serial(s) && Logged(s) && i < |s.workers| && (e.Supersede? || e.Activate?)
    ensures Sent(Run(Step(s, e), events).log, i) <= Sent(s.log, i) + InHand(s, i)
  {
    StepKeepsOrder(s, e);
    OvertakenRun(Step(s, e), events, i);
  }

  /** An activation makes its own worker current. */
  lemma NewWorkerIsCurrent(s: State)
    ensures var s' := Step(s, Activate);
            |s'.workers| == |s.workers| + 1 && Current(s', |s.workers|) && s'.workers[|s.workers|].pc.Waiting?
  {
  }

  /** At most one worker has a selection in hand. */
  function AnyInHand(s: State): nat {
    if exists i :: 0 <= i < |s.workers| && s.workers[i].pc.Armed? then 1 else 0
  }

  lemma SupersededStep(s: State, e: Event)
    requires Serial(s) && !e.Activate?
    requires forall i :: 0 <= i < |s.workers| ==> !Current(s, i)
    ensures var s' := Step(s, e);
            && (forall i :: 0 <= i < |s'.workers| ==> !Current(s', i))
            && |s'.log| + AnyInHand(s') <= |s.log| + AnyInHand(s)
  {
    var s' := Step(s, e);
    if !e.Supersede? && e.i < |s.workers| {
      WorkerFrame(s, e.i, e);
      assert s.workers[e.i].pc.Armed? && s'.log != s.log ==> AnyInHand(s) == 1;
    }
    forall i | 0 <= i < |s'.workers|
      ensures !Current(s', i)
    {
      assert !Current(s, i);
    }
    if AnyInHand(s') == 1 {
      var i :| 0 <= i < |s'.workers| && s'.workers[i].pc.Armed?;
      assert s.workers[i].pc.Armed?;
    }
  }

  lemma {:induction false} SupersededRun(s: State, events: seq<Event>)
    requires Serial(s) && Logged(s)
    requires forall i :: 0 <= i < |s.workers| ==> !Current(s, i)
    requires forall k :: 0 <= k < |events| ==> !events[k].Activate?
    ensures |Run(s, events).log| <= |s.log| + AnyInHand(s)
    decreases |events|
  {
    if events != [] {
      SupersededStep(s, events[0]);
      StepKeepsOrder(s, events[0]);
      SupersededRun(Step(s, events[0]), events[1..]);
    }
  }

  /** After a supersede, and until the next activation, at most one selection is sent in all. */
  lemma SupersedeSilencesEveryWorker(s: State, events: seq<Event>)
    requires Serial(s) && Logged(s)
    requires forall k :: 0 <= k < |events| ==> !events[k].Activate?
    ensures |Run(Step(s, Supersede), events).log| <= |s.log| + AnyInHand(s)
  {
    var s' := Step(s, Supersede);
    assert s'.workers == s.workers && AnyInHand(s') == AnyInHand(s);
    SupersededRun(s', events);
  }

  /** How many selections a worker has sent at a generation other than its own. */
  function Late(log: seq<Issue>, i: nat, generation: nat): nat {
    if log == [] then 0
    else
      var x := log[|log| - 1];
      Late(log[..|log| - 1], i, generation) + if x.worker == i && x.at != generation then 1 else 0
  }

  /** A worker has sent nothing late while it is current, and at most what it has in hand afterwards. */
  ghost predicate Timely(s: State, i: nat)
    requires i < |s.workers|
  {
    var late := Late(s.log, i, s.workers[i].generation);
    late + (if Current(s, i) then 0 else InHand(s, i)) <= 1 && (Current(s, i) ==> late == 0)
  }

  ghost predicate AllTimely(s: State) {
    forall i :: 0 <= i < |s.workers| ==> Timely(s, i)
  }

  lemma {:induction false} NothingLate(log: seq<Issue>, i: nat, generation: nat)
    requires forall k :: 0 <= k < |log| ==> log[k].worker < i
    ensures Late(log, i, generation) == 0
  {
    if log != [] {
      NothingLate(log[..|log| - 1], i, generation);
    }
  }

  lemma StepKeepsTimely(s: State, e: Event)
    requires Serial(s) && Logged(s) && AllTimely(s)
    ensures AllTimely(Step(s, e))
  {
    var s' := Step(s, e);
    forall i | 0 <= i < |s'.workers|
      ensures Timely(s', i)
    {
      if i == |s.workers| {
        NothingLate(s.log, i, s'.workers[i].generation);
      } else {
        assert Timely(s, i);
        StepIsTimely(s, e, i);
      }
    }
  }

  lemma StepIsTimely(s: State, e: Event, i: nat)
    requires Serial(s) && i < |s.workers| && Timely(s, i)
    ensures Timely(Step(s, e), i)
  {
    var s' := Step(s, e);
    if s'.log != s.log {
      assert s'.log[..|s'.log| - 1] == s.log;
    }
  }

  lemma {:induction false} RunKeepsTimely(s: State, events: seq<Event>)
    requires Serial(s) && Logged(s) && AllTimely(s)
    ensures AllTimely(Run(s, events))
    decreases |events|
  {
    if events != [] {
      hide Serial, Logged, AllTimely;
      StepKeepsOrder(s, events[0]);
      StepKeepsTimely(s, events[0]);
      RunKeepsTimely(Step(s, events[0]), events[1..]);
    }
  }

  /** Over every run each worker sends at most one selection at a generation that is not its own. */
  lemma LateSelectionsAreRare(events: seq<Event>, i: nat)
    requires i < |Run(Initial(), events).workers|
    ensures var s := Run(Initial(), events);
            Late(s.log, i, s.workers[i].generation) <= 1
  {
    RunKeepsTimely(Initial(), events);
    assert Timely(Run(Initial(), events), i);
  }

  // ---- Completed selections ---------------------------------------------------------------------

  /** Nothing that a worker has left to do, or has sent, was already recorded as carried out. */
  ghost predicate Fresh(s: State) {
    && (forall i :: 0 <= i < |s.workers| && !s.workers[i].pc.Waiting? && !s.workers[i].pc.Done? ==>
          Pending(s.workers[i].pc.todo, s.workers[i].completed))
    && (forall k :: 0 <= k < |s.log| ==> !CarriedOut(s.log[k].activation, s.log[k].completed))
  }

  lemma StepKeepsFresh(s: State, e: Event)
    requires Fresh(s)
    ensures Fresh(Step(s, e))
  {
    if !e.Supersede? && !e.Activate? && e.i < |s.workers| {
      var w := s.workers[e.i];
      if e.Load? && DistinctGroups(e.activations) {
        RemainingDistinct(e.activations, w.completed);
      } else if e.Answer? && w.pc.Selecting? && w.pc.todo != [] {
        var todo := w.pc.todo;
        var completed := w.completed[todo[0].group := todo[0].node];
        forall x | x in todo[1..]
          ensures !CarriedOut(x, completed)
        {
          var j :| 0 < j < |todo| && todo[j] == x;
          assert todo[0].group != todo[j].group && !CarriedOut(todo[j], w.completed);
        }
        assert Pending(todo[1..], completed) && Pending(todo[1..], w.completed);
      }
    }
  }

  /** A worker never sends a selection that it has already recorded as carried out, however often
    * it plans again. */
  lemma {:induction false} CompletedSelectionsAreNotRepeated(s: State, events: seq<Event>)
    requires Fresh(s)
    ensures Fresh(Run(s, events))
    ensures forall k :: 0 <= k < |Run(s, events).log| ==>
              !CarriedOut(Run(s, events).log[k].activation, Run(s, events).log[k].completed)
    decreases |events|
  {
    if events != [] {
      StepKeepsFresh(s, events[0]);
      CompletedSelectionsAreNotRepeated(Step(s, events[0]), events[1..]);
    }
  }

  /** The selection that the core has carried out for a worker, told to it while it is current. */
  function Replied(s: State, e: Event, i: nat): Option<Activation> {
    if e == Answer(i, true) && i < |s.workers| && Current(s, i)
       && s.workers[i].pc.Selecting? && s.workers[i].pc.todo != []
    then Some(s.workers[i].pc.todo[0]) else None
  }

  /** During the run the worker is told of another node for the group. */
  predicate Overwrites(s: State, events: seq<Event>, i: nat, x: Activation)
    decreases |events|
  {
    && events != []
    && (|| (var y := Replied(s, events[0], i); y.Some? && y.value.group == x.group && y.value.node != x.node)
        || Overwrites(Step(s, events[0]), events[1..], i, x))
  }

  lemma RepliesAreNoted(s: State, e: Event, i: nat)
    requires i < |s.workers|
    ensures var s' := Step(s, e);
            && i < |s'.workers|
            && s'.workers[i].completed ==
               (var y := Replied(s, e, i);
                if y.Some? then s.workers[i].completed[y.value.group := y.value.node] else s.workers[i].completed)
  {
  }

  lemma FreshSend(s: State, e: Event, i: nat, x: Activation)
    requires Fresh(s) && i < |s.workers| && CarriedOut(x, s.workers[i].completed)
    ensures var s' := Step(s, e);
            && |s.log| <= |s'.log| && s'.log[..|s.log|] == s.log
            && forall k :: |s.log| <= k < |s'.log| && s'.log[k].worker == i ==> s'.log[k].activation != x
  {
  }

  lemma {:induction false} CarriedOutOnce(s: State, events: seq<Event>, i: nat, x: Activation)
    requires Fresh(s) && i < |s.workers| && CarriedOut(x, s.workers[i].completed) && !Overwrites(s, events, i, x)
    ensures var after := Run(s, events);
            && |s.log| <= |after.log| && after.log[..|s.log|] == s.log
            && forall k :: |s.log| <= k < |after.log| && after.log[k].worker == i ==> after.log[k].activation != x
    decreases |events|
  {
    if events != [] {
      hide Fresh, Step;
      var next := Step(s, events[0]);
      StepKeepsFresh(s, events[0]);
      RepliesAreNoted(s, events[0], i);
      FreshSend(s, events[0], i, x);
      CarriedOutOnce(next, events[1..], i, x);
      var after := Run(next, events[1..]);
      assert forall k :: 0 <= k < |next.log| ==> after.log[k] == next.log[k];
    }
  }

  /** Once a worker has been told that a selection was carried out, it does not send it again, unless it
    * is told of another node for that group in between. */
  lemma AnsweredSelectionsAreNotRepeated(before: seq<Event>, i: nat, x: Activation, events: seq<Event>)
    requires Replied(Run(Initial(), before), Answer(i, true), i) == Some(x)
    requires !Overwrites(Step(Run(Initial(), before), Answer(i, true)), events, i, x)
    ensures var s := Run(Initial(), before);
            var after := Run(Step(s, Answer(i, true)), events);
            && |s.log| <= |after.log| && after.log[..|s.log|] == s.log
            && forall k :: |s.log| <= k < |after.log| && after.log[k].worker == i ==> after.log[k].activation != x
  {
    var s := Run(Initial(), before);
    CompletedSelectionsAreNotRepeated(Initial(), before);
    StepKeepsFresh(s, Answer(i, true));
    RepliesAreNoted(s, Answer(i, true), i);
    CarriedOutOnce(Step(s, Answer(i, true)), events, i, x);
  }

  /** During the run the worker is told that the selection was carried out. */
  predicate Succeeds(s: State, events: seq<Event>, i: nat, x: Activation)
    decreases |events|
  {
    events != [] && (Replied(s, events[0], i) == Some(x) || Succeeds(Step(s, events[0]), events[1..], i, x))
  }

  lemma {:induction false} StaysOpen(s: State, events: seq<Event>, i: nat, x: Activation)
    requires i < |s.workers| && !CarriedOut(x, s.workers[i].completed) && !Succeeds(s, events, i, x)
    ensures i < |Run(s, events).workers| && !CarriedOut(x, Run(s, events).workers[i].completed)
    decreases |events|
  {
    if events != [] {
      hide Step;
      RepliesAreNoted(s, events[0], i);
      StaysOpen(Step(s, events[0]), events[1..], i, x);
    }
  }

  /** A selection that the core has not carried out yet is tried again with the worker's next plan. */
  lemma RefusedSelectionsAreRetried(s: State, events: seq<Event>, i: nat, x: Activation, plan: seq<Activation>)
    requires Fresh(s) && i < |s.workers| && s.workers[i].pc.Selecting?
    requires x in s.workers[i].pc.todo && !Succeeds(s, events, i, x)
    requires i < |Run(s, events).workers| && Run(s, events).workers[i].pc.Running?
    requires DistinctGroups(plan) && x in plan
    ensures x in Step(Run(s, events), Load(i, plan)).workers[i].pc.todo
  {
    StaysOpen(s, events, i, x);
  }

  // ---- A worker that nobody overtakes -----------------------------------------------------------

  /** Check, send and answer, once for each outcome. */
  function Drive(i: nat, outcomes: seq<bool>): seq<Event> {
    if outcomes == [] then [] else [Check(i), Send(i), Answer(i, outcomes[0])] + Drive(i, outcomes[1..])
  }

  function NotedInTurn(completed: Completed, todo: seq<Activation>, outcomes: seq<bool>): Completed
    requires |todo| == |outcomes|
    decreases |todo|
  {
    if todo == [] then completed
    else
      var next := if outcomes[0] then completed[todo[0].group := todo[0].node] else completed;
      NotedInTurn(next, todo[1..], outcomes[1..])
  }

  lemma RunFrom(s: State, e: Event, rest: seq<Event>)
    ensures Run(s, [e] + rest) == Run(Step(s, e), rest)
  {
    assert ([e] + rest)[1..] == rest;
  }

  lemma RunThree(s: State, a: Event, b: Event, c: Event, rest: seq<Event>)
    ensures Run(s, [a, b, c] + rest) == Run(Step(Step(Step(s, a), b), c), rest)
  {
    RunFrom(s, a, [b] + ([c] + rest));
    RunFrom(Step(s, a), b, [c] + rest);
    RunFrom(Step(Step(s, a), b), c, rest);
    assert [a, b, c] + rest == [a] + ([b] + ([c] + rest));
  }

  /** The worker has sent exactly these, in order. */
  ghost predicate SendsAll(s: State, after: State, i: nat, todo: seq<Activation>) {
    && |s.log| <= |after.log| && after.log[..|s.log|] == s.log
    && Sends(after.log[|s.log|..], i, s.generation, todo)
  }

  ghost predicate Sends(sent: seq<Issue>, i: nat, at: nat, todo: seq<Activation>) {
    && |sent| == |todo|
    && forall k :: 0 <= k < |sent| ==> sent[k].worker == i && sent[k].at == at && sent[k].activation == todo[k]
  }

  lemma OneSelection(s: State, i: nat, ok: bool)
    requires i < |s.workers| && Current(s, i) && s.workers[i].pc.Running? && s.workers[i].pc.todo != []
    ensures var w := s.workers[i];
            var x := w.pc.todo[0];
            var next := Step(Step(Step(s, Check(i)), Send(i)), Answer(i, ok));
            && |next.workers| == |s.workers| && next.generation == s.generation
            && next.workers[i] == Worker(w.generation, Running(w.pc.todo[1..]),
                                         if ok then w.completed[x.group := x.node] else w.completed)
            && next.log == s.log + [Issue(i, s.generation, x, w.completed)]
  {
  }

  lemma {:induction false} DriveSendsAll(s: State, i: nat, outcomes: seq<bool>)
    requires i < |s.workers| && Current(s, i) && s.workers[i].pc.Running?
    requires |outcomes| == |s.workers[i].pc.todo|
    ensures var after := Run(s, Drive(i, outcomes));
            && |after.workers| == |s.workers| && after.workers[i].pc == Running([])
            && after.workers[i].completed == NotedInTurn(s.workers[i].completed, s.workers[i].pc.todo, outcomes)
            && SendsAll(s, after, i, s.workers[i].pc.todo)
    decreases |outcomes|
  {
    if outcomes != [] {
      var next := Step(Step(Step(s, Check(i)), Send(i)), Answer(i, outcomes[0]));
      OneSelection(s, i, outcomes[0]);
      hide Step;
      RunThree(s, Check(i), Send(i), Answer(i, outcomes[0]), Drive(i, outcomes[1..]));
      DriveSendsAll(next, i, outcomes[1..]);
      SendsOneMore(s, next, Run(s, Drive(i, outcomes)), i, s.workers[i].pc.todo);
    }
  }

  lemma SendsOneMore(s: State, next: State, after: State, i: nat, todo: seq<Activation>)
    requires todo != [] && |next.log| == |s.log| + 1 && next.log[..|s.log|] == s.log
    requires next.log[|s.log|].worker == i && next.log[|s.log|].activation == todo[0]
    requires next.log[|s.log|].at == s.generation == next.generation
    requires SendsAll(next, after, i, todo[1..])
    ensures SendsAll(s, after, i, todo)
  {
    var rest := after.log[|next.log|..];
    assert after.log[|s.log|] == next.log[|s.log|];
    assert after.log[|s.log|..] == [next.log[|s.log|]] + rest;
    assert after.log[..|s.log|] == next.log[..|s.log|];
  }

  /** A worker that is current when its predecessor has ended, and stays so, sends all that its plan asks
    * for and that is not noted yet, in order, and notes what succeeds. */
  lemma UndisturbedWorkerSendsItsPlan(s: State, i: nat, plan: seq<Activation>, outcomes: seq<bool>)
    requires i < |s.workers| && Current(s, i) && s.workers[i].pc.Waiting? && (i > 0 ==> s.workers[i - 1].pc.Done?)
    requires DistinctGroups(plan) && |outcomes| == |Remaining(plan, s.workers[i].completed)|
    ensures var todo := Remaining(plan, s.workers[i].completed);
            var after := Run(Step(Step(s, Proceed(i)), Load(i, plan)), Drive(i, outcomes));
            && |after.workers| == |s.workers|
            && after.workers[i].completed == NotedInTurn(s.workers[i].completed, todo, outcomes)
            && SendsAll(s, after, i, todo)
  {
    DriveSendsAll(Step(Step(s, Proceed(i)), Load(i, plan)), i, outcomes);
  }
}
