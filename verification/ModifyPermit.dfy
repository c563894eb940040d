/** The permit that serialises asynchronous updates: an atomic flag, and a notifier that is one
  * stored wake-up plus a queue of parked waiters. Each event is one atomic operation of one thread,
  * so a run is an arbitrary interleaving of any number of threads. */
module ModifyPermit {
  import opened Options
  import opened Sequences

  /** Where an acquirer stands. `woken` marks a retry that a wake-up caused. */
  datatype Pc =
    | FastTry
    | Yielded
    | Retry(woken: bool)
    | Missed
    | Parked
    | Holding
    | Releasing

  /** Threads outside `pcs` neither hold nor want the permit. */
  datatype State = State(modifying: bool, stored: bool, queue: seq<nat>, pcs: map<nat, Pc>)

  datatype Event =
    | Arrive(t: nat)
    | Try(t: nat)       // the compare-exchange of the fast path or of the loop
    | Resume(t: nat)    // back from the yield, into the loop
    | Poll(t: nat)      // first poll of the notification: take the stored wake-up or park
    | Clear(t: nat)     // the holder stores false
    | Notify(t: nat)    // and then wakes one waiter

  function Initial(): State {
    State(false, false, [], map[])
  }

  function At(s: State, t: nat): Option<Pc> {
    if t in s.pcs then Some(s.pcs[t]) else None
  }

  function Goto(s: State, t: nat, pc: Pc): State {
    s.(pcs := s.pcs[t := pc])
  }

  /** An event that its thread cannot perform leaves the state as it is. */
  function Step(s: State, e: Event): State {
    match (e, At(s, e.t))
    case (Arrive(t), None) => Goto(s, t, FastTry)
    case (Try(t), Some(FastTry)) =>
      if s.modifying then Goto(s, t, Yielded) else Goto(s, t, Holding).(modifying := true)
    case (Resume(t), Some(Yielded)) => Goto(s, t, Retry(false))
    case (Try(t), Some(Retry(_))) =>
      if s.modifying then Goto(s, t, Missed) else Goto(s, t, Holding).(modifying := true)
    case (Poll(t), Some(Missed)) =>
      if s.stored then Goto(s, t, Retry(true)).(stored := false)
      else Goto(s, t, Parked).(queue := s.queue + [t])
    case (Clear(t), Some(Holding)) => Goto(s, t, Releasing).(modifying := false)
    case (Notify(t), Some(Releasing)) =>
      var gone := s.(pcs := s.pcs - {t});
      if s.queue == [] then gone.(stored := true)
      else Goto(gone, s.queue[0], Retry(true)).(queue := s.queue[1..])
    case _ => s
  }

  function Run(s: State, events: seq<Event>): State
    decreases |events|
  {
    if events == [] then s else Run(Step(s, events[0]), events[1..])
  }

  /** A thread that will look at the flag again because of a past release. */
  ghost predicate WakeUpInFlight(s: State) {
    exists t :: t in s.pcs && (s.pcs[t] == Releasing || s.pcs[t] == Retry(true))
  }

  ghost predicate Waits(s: State, t: nat) {
    t in s.pcs && (s.pcs[t] == Parked || s.pcs[t] == Missed)
  }

  /** The thread that an event parks, and the one that it wakes from the queue. */
  function Parks(s: State, e: Event): seq<nat> {
    if e.Poll? && At(s, e.t) == Some(Missed) && !s.stored then [e.t] else []
  }

  function Wakes(s: State, e: Event): seq<nat> {
    if e.Notify? && At(s, e.t) == Some(Releasing) && s.queue != [] then [s.queue[0]] else []
  }

  lemma QueueMoves(s: State, e: Event)
    ensures s.queue + Parks(s, e) == Wakes(s, e) + Step(s, e).queue
  {
  }

  /** The flag is up exactly while one thread holds the permit. */
  ghost predicate Exclusive(s: State) {
    && (s.modifying <==> exists t :: t in s.pcs && s.pcs[t] == Holding)
    && (forall t, u :: t in s.pcs && u in s.pcs && s.pcs[t] == Holding && s.pcs[u] == Holding ==> t == u)
  }

  ghost predicate Queued(s: State) {
    && Distinct(s.queue)
    && (forall t :: t in s.queue <==> t in s.pcs && s.pcs[t] == Parked)
    && (s.stored ==> s.queue == [])
  }

  /** While the flag is down and somebody waits, somebody is about to look or to wake. */
  ghost predicate Attended(s: State) {
    !s.modifying ==> forall t :: Waits(s, t) ==> s.stored || WakeUpInFlight(s)
  }

  ghost predicate Inv(s: State) {
    Exclusive(s) && Queued(s) && Attended(s)
  }

  lemma StepKeepsExclusive(s: State, e: Event)
    requires Inv(s)
    ensures Exclusive(Step(s, e))
  {
    var s' := Step(s, e);
    if s'.modifying {
      var holder := e.t;
      if s.modifying {
        holder :| holder in s.pcs && s.pcs[holder] == Holding;
      }
      assert holder in s'.pcs && s'.pcs[holder] == Holding;
    }
  }

  lemma StepKeepsQueued(s: State, e: Event)
    requires Inv(s)
    ensures Queued(Step(s, e))
  {
    if Parks(s, e) == [] && Wakes(s, e) == [] {
      QueueUntouched(s, e);
    } else if Wakes(s, e) != [] {
      HeadWoken(s, e.t);
    } else {
      assert forall t :: t in s.queue + [e.t] <==> t in s.queue || t == e.t;
    }
  }

  lemma QueueUntouched(s: State, e: Event)
    requires Queued(s) && Parks(s, e) == [] && Wakes(s, e) == []
    ensures Queued(Step(s, e))
  {
    var s' := Step(s, e);
    assert s'.queue == s.queue;
    assert forall t :: At(s', t) == Some(Parked) <==> At(s, t) == Some(Parked);
    assert forall t :: t in s'.queue <==> At(s', t) == Some(Parked);
  }

  lemma HeadWoken(s: State, t: nat)
    requires Queued(s) && At(s, t) == Some(Releasing) && s.queue != []
    ensures Queued(Step(s, Notify(t)))
  {
    var s' := Step(s, Notify(t));
    assert s.queue == [s.queue[0]] + s'.queue;
    assert forall u :: u in s'.queue <==> u in s.queue && u != s.queue[0];
    assert forall u :: At(s', u) == Some(Parked) <==> At(s, u) == Some(Parked) && u != s.queue[0];
    assert forall u :: u in s'.queue <==> At(s', u) == Some(Parked);
  }

  lemma StepKeepsAttended(s: State, e: Event)
    requires Inv(s)
    ensures Attended(Step(s, e))
  {
    var s' := Step(s, e);
    if !s'.modifying && !s'.stored {
      forall t | Waits(s', t)
        ensures WakeUpInFlight(s')
      {
        var waker := e.t;
        if Wakes(s, e) != [] {
          waker := s.queue[0];
        } else if !s.modifying && !s.stored {
          assert Waits(s, t);
          waker :| waker in s.pcs && (s.pcs[waker] == Releasing || s.pcs[waker] == Retry(true));
        }
        assert waker in s'.pcs && (s'.pcs[waker] == Releasing || s'.pcs[waker] == Retry(true));
      }
    }
  }

  lemma StepKeepsInv(s: State, e: Event)
    requires Inv(s)
    ensures Inv(Step(s, e))
  {
    StepKeepsExclusive(s, e);
    StepKeepsQueued(s, e);
    StepKeepsAttended(s, e);
  }

  lemma {:induction false} RunKeepsInv(s: State, events: seq<Event>)
    requires Inv(s)
    ensures Inv(Run(s, events))
    decreases |events|
  {
    if events != [] {
      StepKeepsInv(s, events[0]);
      RunKeepsInv(Step(s, events[0]), events[1..]);
    }
  }

  /** In every interleaving at most one thread holds the permit. */
  lemma MutualExclusion(events: seq<Event>, t: nat, u: nat)
    ensures var s := Run(Initial(), events);
            At(s, t) == Some(Holding) && At(s, u) == Some(Holding) ==> t == u
  {
    RunKeepsInv(Initial(), events);
  }

  /** No wake-up is lost: a thread is never left parked beside a free flag unless some other
    * thread is about to look at the flag or to wake somebody. */
  lemma NoLostWakeUp(events: seq<Event>, t: nat)
    ensures var s := Run(Initial(), events);
            At(s, t) == Some(Parked) && !s.modifying ==> WakeUpInFlight(s)
  {
    RunKeepsInv(Initial(), events);
    var s := Run(Initial(), events);
    if At(s, t) == Some(Parked) && !s.modifying {
      assert Waits(s, t);
    }
  }

  /** The only event that a thread at this point can perform. */
  function NextEvent(t: nat, pc: Pc): Event {
    match pc
    case FastTry => Try(t)
    case Yielded => Resume(t)
    case Retry(_) => Try(t)
    case Missed | Parked => Poll(t)
    case Holding => Clear(t)
    case Releasing => Notify(t)
  }

  /** The protocol cannot deadlock: while any thread is engaged, one of them can move. */
  lemma SomeThreadCanMove(events: seq<Event>)
    ensures var s := Run(Initial(), events);
            s.pcs != map[] ==> exists t :: t in s.pcs && Step(s, NextEvent(t, s.pcs[t])) != s
  {
    RunKeepsInv(Initial(), events);
    var s := Run(Initial(), events);
    if s.pcs != map[] {
      var t :| t in s.pcs;
      var mover := t;
      if s.pcs[t] == Parked {
        assert Waits(s, t);
        mover :| mover in s.pcs && s.pcs[mover] != Parked;
      }
      assert Step(s, NextEvent(mover, s.pcs[mover])) != s by {
        var s' := Step(s, NextEvent(mover, s.pcs[mover]));
        if s.pcs[mover] == Releasing && s.queue != [] {
          assert s.queue[0] in s.queue;
          assert mover !in s'.pcs;
        }
      }
    }
  }

  function AllParks(s: State, events: seq<Event>): seq<nat>
    decreases |events|
  {
    if events == [] then [] else Parks(s, events[0]) + AllParks(Step(s, events[0]), events[1..])
  }

  function AllWakes(s: State, events: seq<Event>): seq<nat>
    decreases |events|
  {
    if events == [] then [] else Wakes(s, events[0]) + AllWakes(Step(s, events[0]), events[1..])
  }

  /** Waiters are woken in the order in which they parked, none skipped and none twice. */
  lemma {:induction false} WokenInArrivalOrder(s: State, events: seq<Event>)
    ensures s.queue + AllParks(s, events) == AllWakes(s, events) + Run(s, events).queue
    decreases |events|
  {
    if events != [] {
      var next := Step(s, events[0]);
      WokenInArrivalOrder(next, events[1..]);
      QueueMoves(s, events[0]);
      Splice(s.queue, Parks(s, events[0]), Wakes(s, events[0]), next.queue,
             AllParks(next, events[1..]), AllWakes(next, events[1..]), Run(next, events[1..]).queue);
    }
  }

  // ---- Progress ---------------------------------------------------------------------------------

  /** An attempt takes the permit exactly when the flag is free, whoever has been waiting longer. */
  lemma TryTakesIff(s: State, t: nat)
    requires At(s, t) == Some(FastTry) || At(s, t) == Some(Retry(false)) || At(s, t) == Some(Retry(true))
    ensures At(Step(s, Try(t)), t) == Some(Holding) <==> !s.modifying
    ensures !s.modifying ==> Step(s, Try(t)).modifying
  {
  }

  /** A newcomer gets a free permit at once. */
  lemma FreePermitIsTaken(s: State, t: nat)
    requires t !in s.pcs && !s.modifying
    ensures Run(s, [Arrive(t), Try(t)]) == s.(modifying := true, pcs := s.pcs[t := Holding])
  {
    var a := Step(s, Arrive(t));
    assert Run(a, [Try(t)]) == Run(Step(a, Try(t)), []);
    assert [Arrive(t), Try(t)][1..] == [Try(t)];
    assert s.pcs[t := FastTry][t := Holding] == s.pcs[t := Holding];
  }

  lemma RunFrom(s: State, e: Event, events: seq<Event>)
    ensures Run(s, [e] + events) == Run(Step(s, e), events)
  {
    assert ([e] + events)[1..] == events;
  }

  /** A newcomer that finds the permit taken is parked behind the others, when no wake-up is stored. */
  lemma TakenPermitParks(s: State, t: nat)
    requires t !in s.pcs && s.modifying && !s.stored
    ensures Run(s, [Arrive(t), Try(t), Resume(t), Try(t), Poll(t)])
            == s.(pcs := s.pcs[t := Parked], queue := s.queue + [t])
  {
    var a := Step(s, Arrive(t));
    var b := Step(a, Try(t));
    var c := Step(b, Resume(t));
    var d := Step(c, Try(t));
    RunFrom(s, Arrive(t), [Try(t), Resume(t), Try(t), Poll(t)]);
    RunFrom(a, Try(t), [Resume(t), Try(t), Poll(t)]);
    RunFrom(b, Resume(t), [Try(t), Poll(t)]);
    TwoSteps(c, Try(t), Poll(t));
    assert [Arrive(t)] + ([Try(t)] + ([Resume(t)] + [Try(t), Poll(t)]))
        == [Arrive(t), Try(t), Resume(t), Try(t), Poll(t)];
    assert s.pcs[t := FastTry][t := Yielded][t := Retry(false)][t := Missed][t := Parked] == s.pcs[t := Parked];
  }

  lemma TwoSteps(s: State, a: Event, b: Event)
    ensures Run(s, [a, b]) == Step(Step(s, a), b)
  {
    assert [a, b][1..] == [b];
    assert Run(Step(s, a), [b]) == Run(Step(Step(s, a), b), []);
  }

  /** A release lets the permit go and wakes the thread that has been parked longest, which takes it
    * unless a newcomer has been faster. */
  lemma ReleaseHandsOver(s: State, h: nat)
    requires Inv(s) && At(s, h) == Some(Holding) && s.queue != []
    ensures var next := s.queue[0];
            var free := Run(s, [Clear(h), Notify(h)]);
            && !free.modifying && free.queue == s.queue[1..] && At(free, h) == None
            && At(Step(free, Try(next)), next) == Some(Holding)
  {
    var next := s.queue[0];
    assert next in s.queue && next != h;
    TwoSteps(s, Clear(h), Notify(h));
  }

  /** A release with nobody parked stores a wake-up, and a thread that was about to park retries. */
  lemma ReleaseIsRemembered(s: State, h: nat, t: nat)
    requires Inv(s) && At(s, h) == Some(Holding) && s.queue == [] && At(s, t) == Some(Missed)
    ensures var free := Run(s, [Clear(h), Notify(h)]);
            && !free.modifying && free.stored && At(free, h) == None
            && At(Run(free, [Poll(t), Try(t)]), t) == Some(Holding)
            && !Run(free, [Poll(t), Try(t)]).stored
  {
    TwoSteps(s, Clear(h), Notify(h));
    TwoSteps(Run(s, [Clear(h), Notify(h)]), Poll(t), Try(t));
  }
}
