/** The supervisor that keeps one socket open while anybody listens. Its callbacks run one at a time
  * but interleave at every await; each event below runs one of them to its next await. */
module SupervisorSteps {
  import opened Options

  /** The connection attempt in progress: waiting for a socket, or for an unwanted one to close. */
  datatype Attempt = Idle | Opening | Rejecting

  /** `reconnects` counts reconnects that wait for their socket to close. `created` and `disposed` record
    * every socket that was ever created and every one that has had close called on it. */
  datatype State = State(
    listeners: set<nat>,
    socket: Option<nat>,
    attempt: Attempt,
    timer: bool,
    reconnects: nat,
    created: set<nat>,
    disposed: set<nat>)

  datatype Event =
    | Subscribe(listener: nat)
    | Unsubscribe(listener: nat)
    | SocketOpened(socket: nat)
    | OpenFailed
    | Rejected(ok: bool)          // the close of an unwanted socket has succeeded or failed
    | SocketError(socket: nat)
    | OldSocketClosed             // a reconnect resumes
    | TimerFires

  function Initial(): State {
    State({}, None, Idle, false, 0, {}, {})
  }

  function Connect(s: State): State {
    if s.socket.Some? || s.attempt != Idle || s.listeners == {} then s
    else s.(timer := false, attempt := Opening)
  }

  function CloseSocket(s: State): State {
    if s.socket.None? then s else s.(socket := None, disposed := s.disposed + {s.socket.value})
  }

  function ScheduleReconnect(s: State): State {
    if s.listeners == {} then s else s.(timer := true)
  }

  /** An event that cannot happen in a state leaves it as it is; opened sockets are new. */
  function Step(s: State, e: Event): State {
    match e
    case Subscribe(l) => Connect(s.(listeners := s.listeners + {l}))
    case Unsubscribe(l) =>
      var left := s.(listeners := s.listeners - {l});
      if left.listeners != {} then left else CloseSocket(left.(timer := false))
    case SocketOpened(x) =>
      if s.attempt != Opening || x in s.created then s
      else if s.listeners == {} then s.(created := s.created + {x}, disposed := s.disposed + {x}, attempt := Rejecting)
      else s.(created := s.created + {x}, socket := Some(x), attempt := Idle)
    case OpenFailed =>
      if s.attempt != Opening then s else ScheduleReconnect(s).(attempt := Idle)
    case Rejected(ok) =>
      if s.attempt != Rejecting then s
      else (if ok then s else ScheduleReconnect(s)).(attempt := Idle)
    case SocketError(x) =>
      if s.socket != Some(x) || s.listeners == {} then s
      else CloseSocket(s).(reconnects := s.reconnects + 1)
    case OldSocketClosed =>
      if s.reconnects == 0 then s else ScheduleReconnect(s.(reconnects := s.reconnects - 1))
    case TimerFires =>
      if !s.timer then s else Connect(s.(timer := false))
  }

  function Run(s: State, events: seq<Event>): State
    decreases |events|
  {
    if events == [] then s else Run(Step(s, events[0]), events[1..])
  }

  /** Something is there that delivers data or will try to. */
  predicate Served(s: State) {
    s.socket.Some? || s.attempt != Idle || s.timer || s.reconnects > 0
  }

  ghost predicate Inv(s: State) {
    && s.disposed <= s.created
    && s.created - s.disposed == (if s.socket.Some? then {s.socket.value} else {})
    && (s.attempt != Idle ==> s.socket.None?)
    && (s.listeners == {} ==> s.socket.None? && !s.timer)
  }

  lemma StepKeepsInv(s: State, e: Event)
    requires Inv(s)
    ensures Inv(Step(s, e))
  {
    match e
    case SocketOpened(x) =>
      if s.attempt == Opening && x !in s.created {
        forall y | y in s.created
          ensures y in s.disposed
        {
          assert y !in s.created - s.disposed;
        }
      }
    case _ =>
  }

  lemma {:induction false} RunKeepsInv(s: State, events: seq<Event>)
    requires Inv(s)
    ensures Inv(Run(s, events))
    decreases |events|
  {
    if events != [] {
      StepKeepsInv(s, events[0]);
      RunKeepsInv(Step(s, events[0]), events[1..]);
    }
  }

  /** In every interleaving each socket ever opened is the installed one or has had close called on
    * it, so at most one is open, and without listeners there is neither a socket nor a timer. */
  lemma SocketsAreNeverLeaked(events: seq<Event>, x: nat)
    ensures var s := Run(Initial(), events);
            && (x in s.created ==> (x in s.disposed <==> s.socket != Some(x)))
            && (s.socket.Some? ==> s.socket.value in s.created && s.listeners != {})
            && (s.listeners == {} ==> s.socket.None? && !s.timer)
  {
    RunKeepsInv(Initial(), events);
    var s := Run(Initial(), events);
    assert x in s.created - s.disposed <==> x in s.created && x !in s.disposed;
    if s.socket.Some? {
      assert s.socket.value in s.created - s.disposed;
    }
  }

  /** One event takes the connection away from listeners that have one, or are about to get one,
    * exactly when it is the successful close of a socket that was unwanted when it opened, while
    * listeners are back and no timer or reconnect is under way. */
  lemma ListenersAreStrandedIff(s: State, e: Event)
    requires Inv(s) && (s.listeners == {} || Served(s))
    ensures var after := Step(s, e);
            after.listeners != {} && !Served(after) <==>
              && e == Rejected(true) && s.attempt == Rejecting
              && s.listeners != {} && !s.timer && s.reconnects == 0
  {
    if e.SocketOpened? {
      StepKeepsInv(s, e);
    }
  }

  /** The first one to subscribe is left alone by the end of that close exactly when it comes during
    * the close and no reconnect is under way. */
  lemma SubscriberIsStrandedIff(s: State, l: nat)
    requires Inv(s) && s.listeners == {}
    ensures !Served(Step(Step(s, Subscribe(l)), Rejected(true))) <==> s.attempt == Rejecting && s.reconnects == 0
  {
    assert l in Step(s, Subscribe(l)).listeners;
  }

  /** Nobody subscribes while an unwanted socket is being closed. */
  predicate SubscribesOutsideCloses(s: State, events: seq<Event>)
    decreases |events|
  {
    events == []
    || (!(events[0].Subscribe? && s.attempt == Rejecting) && SubscribesOutsideCloses(Step(s, events[0]), events[1..]))
  }

  /** Listeners have a connection or will get one. */
  ghost predicate Live(s: State) {
    && Inv(s)
    && (s.attempt == Rejecting ==> s.listeners == {})
    && (s.listeners != {} ==> Served(s))
  }

  lemma StepKeepsLive(s: State, e: Event)
    requires Live(s) && !(e.Subscribe? && s.attempt == Rejecting)
    ensures Live(Step(s, e))
  {
    StepKeepsInv(s, e);
    ListenersAreStrandedIff(s, e);
  }

  /** In a run in which nobody subscribes during such a close, listeners are always served. */
  lemma {:induction false} ListenersAreServed(s: State, events: seq<Event>)
    requires Live(s) && SubscribesOutsideCloses(s, events)
    ensures Live(Run(s, events))
    ensures Run(s, events).listeners != {} ==> Served(Run(s, events))
    decreases |events|
  {
    if events != [] {
      StepKeepsLive(s, events[0]);
      ListenersAreServed(Step(s, events[0]), events[1..]);
    }
  }

  /** That does happen: a listener that subscribes during the close is left alone. */
  lemma ListenersCanBeStranded()
    ensures var s := Run(Initial(), [Subscribe(1), Unsubscribe(1), SocketOpened(7), Subscribe(2), Rejected(true)]);
            s.listeners == {2} && !Served(s)
  {
    var s0 := Initial();
    var s1 := Step(s0, Subscribe(1));
    var s2 := Step(s1, Unsubscribe(1));
    var s3 := Step(s2, SocketOpened(7));
    var s4 := Step(s3, Subscribe(2));
    var s5 := Step(s4, Rejected(true));
    assert s1.listeners == {1} && s2.listeners == {} && s4.listeners == {2};
    assert Run(s4, [Rejected(true)]) == Run(s5, []);
    assert [Subscribe(2), Rejected(true)][1..] == [Rejected(true)];
    assert [SocketOpened(7), Subscribe(2), Rejected(true)][1..] == [Subscribe(2), Rejected(true)];
    assert [Unsubscribe(1), SocketOpened(7), Subscribe(2), Rejected(true)][1..]
        == [SocketOpened(7), Subscribe(2), Rejected(true)];
    assert [Subscribe(1), Unsubscribe(1), SocketOpened(7), Subscribe(2), Rejected(true)][1..]
        == [Unsubscribe(1), SocketOpened(7), Subscribe(2), Rejected(true)];
  }
}

/** The supervisor's own variables and callbacks. */
module SocketSupervisor {
  import opened Options
  import opened SupervisorSteps

  class Supervisor {
    var listeners: set<nat>
    var socket: Option<nat>
    var connecting: bool
    var reconnectTimer: bool

    /** What the suspended callbacks and the outside world hold. */
    ghost var attempt: Attempt
    ghost var reconnects: nat
    ghost var created: set<nat>
    ghost var disposed: set<nat>

    ghost function View(): State
      reads this
    {
      State(listeners, socket, attempt, reconnectTimer, reconnects, created, disposed)
    }

    ghost predicate Valid()
      reads this
    {
      Inv(View()) && (connecting <==> attempt != Idle)
    }

    constructor ()
      ensures Valid() && View() == Initial()
    {
      listeners, socket, connecting, reconnectTimer := {}, None, false, false;
      attempt, reconnects, created, disposed := Idle, 0, {}, {};
    }

    method CloseCurrent()
      modifies this`socket, this`disposed
      ensures View() == CloseSocket(old(View()))
      ensures socket == None && disposed == old(disposed) + (if old(socket).Some? then {old(socket).value} else {})
    {
      var current := socket;
      socket := None;
      if current.Some? {
        disposed := disposed + {current.value};
      }
    }

    method ScheduleReconnect()
      modifies this`reconnectTimer
      ensures View() == SupervisorSteps.ScheduleReconnect(old(View()))
      ensures reconnectTimer <==> old(reconnectTimer) || listeners != {}
    {
      if listeners == {} || reconnectTimer {
        return;
      }
      reconnectTimer := true;
    }

    method Connect()
      requires connecting <==> attempt != Idle
      modifies this`reconnectTimer, this`connecting, this`attempt
      ensures View() == SupervisorSteps.Connect(old(View()))
      ensures connecting <==> old(connecting) || (socket == None && listeners != {})
      ensures reconnectTimer <==> old(reconnectTimer) && (old(connecting) || socket != None || listeners == {})
      ensures connecting <==> attempt != Idle
    {
      if socket.Some? || connecting {
        return;
      }
      if listeners == {} {
        return;
      }
      reconnectTimer := false;
      connecting := true;
      attempt := Opening;
    }

    method OnSubscribe(listener: nat)
      requires Valid()
      modifies this
      ensures Valid() && View() == Step(old(View()), Subscribe(listener))
      ensures listeners == old(listeners) + {listener} && socket == old(socket) && disposed == old(disposed)
      ensures connecting <==> old(connecting) || socket == None
    {
      StepKeepsInv(View(), Subscribe(listener));
      listeners := listeners + {listener};
      Connect();
    }

    method OnUnsubscribe(listener: nat)
      requires Valid()
      modifies this
      ensures Valid() && View() == Step(old(View()), Unsubscribe(listener))
      ensures listeners == old(listeners) - {listener} && connecting == old(connecting)
      ensures listeners != {} ==> socket == old(socket) && reconnectTimer == old(reconnectTimer)
      ensures listeners == {} ==> socket == None && !reconnectTimer
                                  && (old(socket).Some? ==> old(socket).value in disposed)
    {
      StepKeepsInv(View(), Unsubscribe(listener));
      listeners := listeners - {listener};
      if listeners == {} {
        reconnectTimer := false;
        CloseCurrent();
      }
    }

    /** connectSocket has returned a new socket. */
    method OnSocketOpened(connected: nat)
      requires Valid() && attempt == Opening && connected !in created
      modifies this
      ensures Valid() && View() == Step(old(View()), SocketOpened(connected))
      ensures if listeners == {} then socket == None && connecting && disposed == old(disposed) + {connected}
              else socket == Some(connected) && !connecting && disposed == old(disposed)
    {
      StepKeepsInv(View(), SocketOpened(connected));
      created := created + {connected};
      if listeners == {} {
        disposed := disposed + {connected};
        attempt := Rejecting;
        return;
      }
      socket := Some(connected);
      connecting := false;
      attempt := Idle;
    }

    /** connectSocket has thrown. */
    method OnOpenFailed()
      requires Valid() && attempt == Opening
      modifies this
      ensures Valid() && View() == Step(old(View()), OpenFailed)
      ensures socket == None && !connecting && (reconnectTimer <==> old(reconnectTimer) || listeners != {})
    {
      StepKeepsInv(View(), OpenFailed);
      ScheduleReconnect();
      connecting := false;
      attempt := Idle;
    }

    /** The close of an unwanted socket is over; one that throws ends up in the same handler as a
      * failed connection. */
    method OnRejected(ok: bool)
      requires Valid() && attempt == Rejecting
      modifies this
      ensures Valid() && View() == Step(old(View()), Rejected(ok))
      ensures socket == None && !connecting && (reconnectTimer <==> old(reconnectTimer) || (!ok && listeners != {}))
    {
      StepKeepsInv(View(), Rejected(ok));
      if !ok {
        ScheduleReconnect();
      }
      connecting := false;
      attempt := Idle;
    }

    method OnSocketError(from: nat)
      requires Valid()
      modifies this
      ensures Valid() && View() == Step(old(View()), SocketError(from))
      ensures old(socket) != Some(from) ==> View() == old(View())
      ensures old(socket) == Some(from) ==>
                && socket == None && disposed == old(disposed) + {from} && reconnects == old(reconnects) + 1
                && listeners == old(listeners) && reconnectTimer == old(reconnectTimer)
    {
      StepKeepsInv(View(), SocketError(from));
      if socket != Some(from) {
        return;
      }
      if listeners == {} {
        return;
      }
      CloseCurrent();
      reconnects := reconnects + 1;
    }

    method OnOldSocketClosed()
      requires Valid() && reconnects > 0
      modifies this
      ensures Valid() && View() == Step(old(View()), OldSocketClosed)
      ensures reconnects == old(reconnects) - 1 && (reconnectTimer <==> old(reconnectTimer) || listeners != {})
      ensures socket == old(socket) && connecting == old(connecting)
    {
      StepKeepsInv(View(), OldSocketClosed);
      reconnects := reconnects - 1;
      ScheduleReconnect();
    }

    method OnTimer()
      requires Valid() && reconnectTimer
      modifies this
      ensures Valid() && View() == Step(old(View()), TimerFires)
      ensures !reconnectTimer && (connecting <==> old(connecting) || (socket == None && listeners != {}))
      ensures socket == old(socket) && disposed == old(disposed)
    {
      StepKeepsInv(View(), TimerFires);
      reconnectTimer := false;
      Connect();
    }
  }
}
