/** Transactions over several draft layers, run step by step: every claim, release, apply and
  * discard is one atomic operation, and any number of threads interleave. */
module TransactionSteps {
  import opened Sequences

  type Layer = nat

  /** `Claiming(ls, i)` has claimed the first i layers; `Unwinding(ls, i, k)` failed on layer i and
    * has released the first k; `Dropping(ls, k, ..)` has finished the first k layers. */
  datatype Txn =
    | Claiming(layers: seq<Layer>, i: nat)
    | Unwinding(layers: seq<Layer>, i: nat, k: nat)
    | Refused(busy: Layer)
    | Live(layers: seq<Layer>)
    | Applying(layers: seq<Layer>, k: nat)
    | Dropping(layers: seq<Layer>, k: nat, committed: bool, cleared: bool)
    | Closed

  datatype State = State(claimed: set<Layer>, staged: set<Layer>, txns: map<nat, Txn>)

  datatype Event =
    | Begin(t: nat, layers: seq<Layer>)
    | Commit(t: nat)
    | Drop(t: nat)
    | Tick(t: nat)       // the thread's next atomic operation
    | Edit(layer: Layer) // anybody stages a draft on the layer

  predicate WellFormed(x: Txn) {
    match x
    case Claiming(ls, i) => i <= |ls|
    case Unwinding(ls, i, k) => k <= i < |ls|
    case Applying(ls, k) => k <= |ls|
    case Dropping(ls, k, _, _) => k <= |ls|
    case _ => true
  }

  /** The layers whose claim belongs to the transaction, in the order it took them. */
  function Holds(x: Txn): seq<Layer> {
    if !WellFormed(x) then [] else
    match x
    case Claiming(ls, i) => ls[..i]
    case Unwinding(ls, i, k) => ls[k..i]
    case Live(ls) => ls
    case Applying(ls, k) => ls
    case Dropping(ls, k, _, _) => ls[k..]
    case _ => []
  }

  function Set(s: State, t: nat, x: Txn): State {
    s.(txns := s.txns[t := x])
  }

  function TickTxn(s: State, t: nat, x: Txn): State
    requires WellFormed(x)
  {
    match x
    case Claiming(ls, i) =>
      if i == |ls| then Set(s, t, Live(ls))
      else if ls[i] in s.claimed then Set(s, t, Unwinding(ls, i, 0))
      else Set(s, t, Claiming(ls, i + 1)).(claimed := s.claimed + {ls[i]})
    case Unwinding(ls, i, k) =>
      if k == i then Set(s, t, Refused(ls[i]))
      else Set(s, t, Unwinding(ls, i, k + 1)).(claimed := s.claimed - {ls[k]})
    case Applying(ls, k) =>
      if k == |ls| then Set(s, t, Dropping(ls, 0, true, false))
      else Set(s, t, Applying(ls, k + 1)).(staged := s.staged - {ls[k]})
    case Dropping(ls, k, committed, cleared) =>
      if k == |ls| then Set(s, t, Closed)
      else if !committed && !cleared then Set(s, t, Dropping(ls, k, committed, true)).(staged := s.staged - {ls[k]})
      else Set(s, t, Dropping(ls, k + 1, committed, false)).(claimed := s.claimed - {ls[k]})
    case _ => s
  }

  function Step(s: State, e: Event): State {
    match e
    case Begin(t, layers) => if t in s.txns then s else Set(s, t, Claiming(layers, 0))
    case Commit(t) => if t in s.txns && s.txns[t].Live? then Set(s, t, Applying(s.txns[t].layers, 0)) else s
    case Drop(t) => if t in s.txns && s.txns[t].Live? then Set(s, t, Dropping(s.txns[t].layers, 0, false, false)) else s
    case Tick(t) => if t in s.txns && WellFormed(s.txns[t]) then TickTxn(s, t, s.txns[t]) else s
    case Edit(layer) => s.(staged := s.staged + {layer})
  }

  function Run(s: State, events: seq<Event>): State
    decreases |events|
  {
    if events == [] then s else Run(Step(s, events[0]), events[1..])
  }

  function Of(s: State, t: nat): Txn {
    if t in s.txns then s.txns[t] else Closed
  }

  function Held(s: State, t: nat): seq<Layer> {
    Holds(Of(s, t))
  }

  /** The claimed flags are the disjoint union of what the transactions hold, and no transaction
    * holds a layer twice. */
  ghost predicate Inv(s: State) {
    && (forall t :: WellFormed(Of(s, t)) && Distinct(Held(s, t)))
    && (forall t, l :: l in Held(s, t) ==> l in s.claimed)
    && (forall l :: l in s.claimed ==> exists t :: l in Held(s, t))
    && (forall t, u, l :: l in Held(s, t) && l in Held(s, u) ==> t == u)
  }

  function Initial(): (s: State)
    ensures Inv(s)
  {
    State({}, {}, map[])
  }

  /** The layer that the next operation of a transaction claims, and the one it releases. */
  function Takes(s: State, t: nat): seq<Layer> {
    match Of(s, t)
    case Claiming(ls, i) => if i < |ls| && ls[i] !in s.claimed then [ls[i]] else []
    case _ => []
  }

  function Frees(s: State, t: nat): seq<Layer> {
    match Of(s, t)
    case Unwinding(ls, i, k) => if k < i < |ls| then [ls[k]] else []
    case Dropping(ls, k, committed, cleared) => if k < |ls| && (committed || cleared) then [ls[k]] else []
    case _ => []
  }

  /** The operation touches no other transaction, and moves from `Held` what it says it moves. */
  ghost predicate Moves(s: State, t: nat) {
    var s' := Step(s, Tick(t));
    && WellFormed(Of(s', t))
    && (forall u :: u != t ==> Of(s', u) == Of(s, u))
    && Held(s, t) + Takes(s, t) == Frees(s, t) + Held(s', t)
  }

  lemma ClaimingMoves(s: State, t: nat)
    requires Of(s, t).Claiming? && WellFormed(Of(s, t))
    ensures Moves(s, t)
  {
    var Claiming(ls, i) := Of(s, t);
    if i == |ls| {
      assert ls[..i] == ls;
    } else if ls[i] in s.claimed {
      assert ls[..i] == ls[0..i];
    } else {
      assert ls[..i] + [ls[i]] == ls[..i + 1];
    }
  }

  lemma UnwindingMoves(s: State, t: nat)
    requires Of(s, t).Unwinding? && WellFormed(Of(s, t))
    ensures Moves(s, t)
  {
    var Unwinding(ls, i, k) := Of(s, t);
    if k < i {
      assert ls[k..i] == [ls[k]] + ls[k + 1..i];
    }
  }

  lemma DroppingMoves(s: State, t: nat)
    requires Of(s, t).Dropping? && WellFormed(Of(s, t))
    ensures Moves(s, t)
  {
    var Dropping(ls, k, committed, cleared) := Of(s, t);
    if k < |ls| {
      assert ls[k..] == [ls[k]] + ls[k + 1..];
    }
  }

  /** One operation moves at most one layer into or out of what its transaction holds, and leaves
    * the other transactions alone. */
  lemma TickMoves(s: State, t: nat)
    requires WellFormed(Of(s, t))
    ensures Moves(s, t)
  {
    if Of(s, t).Claiming? {
      ClaimingMoves(s, t);
    } else if Of(s, t).Unwinding? {
      UnwindingMoves(s, t);
    } else if Of(s, t).Dropping? {
      DroppingMoves(s, t);
    }
  }

  lemma TickClaims(s: State, t: nat)
    requires WellFormed(Of(s, t))
    ensures Takes(s, t) == [] && Frees(s, t) == [] ==> Step(s, Tick(t)).claimed == s.claimed
    ensures Takes(s, t) != [] ==>
              && Frees(s, t) == [] && |Takes(s, t)| == 1 && Takes(s, t)[0] !in s.claimed
              && Step(s, Tick(t)).claimed == s.claimed + {Takes(s, t)[0]}
    ensures Frees(s, t) != [] ==>
              && Takes(s, t) == [] && |Frees(s, t)| == 1
              && Step(s, Tick(t)).claimed == s.claimed - {Frees(s, t)[0]}
  {
  }

  lemma TickKeepsInv(s: State, t: nat)
    requires Inv(s)
    ensures Inv(Step(s, Tick(t)))
  {
    var s' := Step(s, Tick(t));
    TickMoves(s, t);
    TickClaims(s, t);
    assert forall u :: u != t ==> Held(s', u) == Held(s, u);
    if Takes(s, t) != [] {
      Grow(s, s', t, Takes(s, t)[0]);
    } else if Frees(s, t) != [] {
      Shrink(s, s', t, Frees(s, t)[0]);
    } else {
      assert Held(s', t) == Held(s, t);
      assert forall u :: Held(s', u) == Held(s, u);
    }
  }

  lemma Grow(s: State, s': State, t: nat, l: Layer)
    requires Inv(s) && l !in s.claimed && s'.claimed == s.claimed + {l}
    requires forall u :: WellFormed(Of(s', u))
    requires forall u :: u != t ==> Held(s', u) == Held(s, u)
    requires Held(s', t) == Held(s, t) + [l]
    ensures Inv(s')
  {
    assert l in Held(s', t);
    forall x | x in s'.claimed
      ensures exists u :: x in Held(s', u)
    {
      if x != l {
        var u :| x in Held(s, u);
        assert x in Held(s', u);
      }
    }
  }

  lemma Shrink(s: State, s': State, t: nat, l: Layer)
    requires Inv(s) && s'.claimed == s.claimed - {l}
    requires forall u :: WellFormed(Of(s', u))
    requires forall u :: u != t ==> Held(s', u) == Held(s, u)
    requires Held(s, t) == [l] + Held(s', t)
    ensures Inv(s')
  {
    assert Held(s, t)[0] == l;
    assert forall i :: 0 <= i < |Held(s', t)| ==> Held(s', t)[i] == Held(s, t)[i + 1];
    assert l in Held(s, t);
    forall x | x in s'.claimed
      ensures exists u :: x in Held(s', u)
    {
      var u :| x in Held(s, u);
      assert x in Held(s', u);
    }
  }

  /** Only ticks claim and release. */
  lemma OutsideTicks(s: State, e: Event, t: nat)
    requires WellFormed(Of(s, t)) && !e.Tick?
    ensures WellFormed(Of(Step(s, e), t)) && Held(Step(s, e), t) == Held(s, t)
    ensures Step(s, e).claimed == s.claimed
  {
  }

  lemma StepKeepsInv(s: State, e: Event)
    requires Inv(s)
    ensures Inv(Step(s, e))
  {
    if e.Tick? {
      TickKeepsInv(s, e.t);
    } else {
      var s' := Step(s, e);
      forall t
        ensures WellFormed(Of(s', t)) && Held(s', t) == Held(s, t)
      {
        OutsideTicks(s, e, t);
      }
    }
  }

  lemma {:induction false} RunKeepsInv(s: State, events: seq<Event>)
    requires Inv(s)
    ensures Inv(Run(s, events))
    decreases |events|
  {
    if events != [] {
      StepKeepsInv(s, events[0]);
      RunKeepsInv(Step(s, events[0]), events[1..]);
    }
  }

  /** In every interleaving the claimed flags are exactly the layers held, and two transactions,
    * live or partly begun, never hold the same one. */
  lemma ClaimsAreExclusive(events: seq<Event>, t: nat, u: nat)
    ensures var s := Run(Initial(), events);
            && (forall l :: l in s.claimed <==> exists v :: l in Held(s, v))
            && Distinct(Held(s, t))
            && (t != u ==> forall l :: l in Held(s, t) ==> l !in Held(s, u))
  {
    RunKeepsInv(Initial(), events);
  }

  /** A claim fails exactly when the list repeats a layer or another transaction holds it. */
  lemma ClaimFailsIff(events: seq<Event>, t: nat, ls: seq<Layer>, i: nat)
    requires i < |ls| && Of(Run(Initial(), events), t) == Claiming(ls, i)
    ensures var s := Run(Initial(), events);
            Of(Step(s, Tick(t)), t) == Unwinding(ls, i, 0)
            <==> ls[i] in ls[..i] || exists u :: u != t && ls[i] in Held(s, u)
  {
    RunKeepsInv(Initial(), events);
    var s := Run(Initial(), events);
    assert Held(s, t) == ls[..i];
    if ls[i] in s.claimed {
      var u :| ls[i] in Held(s, u);
      assert u != t ==> ls[i] in Held(s, u);
    }
  }

  /** A layer list with a repeated layer is never granted. */
  lemma RepeatedLayersAreRefused(events: seq<Event>, t: nat)
    ensures var x := Of(Run(Initial(), events), t);
            x.Live? || x.Applying? ==> Distinct(x.layers)
  {
    RunKeepsInv(Initial(), events);
  }

  function TakesOf(s: State, e: Event, t: nat): seq<Layer> {
    if e == Tick(t) then Takes(s, t) else []
  }

  function FreesOf(s: State, e: Event, t: nat): seq<Layer> {
    if e == Tick(t) then Frees(s, t) else []
  }

  /** Everything that one thread claims, and releases, during a run. */
  function AllTakes(s: State, events: seq<Event>, t: nat): seq<Layer>
    decreases |events|
  {
    if events == [] then [] else TakesOf(s, events[0], t) + AllTakes(Step(s, events[0]), events[1..], t)
  }

  function AllFrees(s: State, events: seq<Event>, t: nat): seq<Layer>
    decreases |events|
  {
    if events == [] then [] else FreesOf(s, events[0], t) + AllFrees(Step(s, events[0]), events[1..], t)
  }

  lemma StepMoves(s: State, e: Event, t: nat)
    requires Inv(s)
    ensures Held(s, t) + TakesOf(s, e, t) == FreesOf(s, e, t) + Held(Step(s, e), t)
  {
    if e == Tick(t) {
      TickMoves(s, t);
    } else if e.Tick? {
      TickMoves(s, e.t);
    }
  }

  lemma {:induction false} HoldingsAreConserved(s: State, events: seq<Event>, t: nat)
    requires Inv(s)
    ensures Held(s, t) + AllTakes(s, events, t) == AllFrees(s, events, t) + Held(Run(s, events), t)
    decreases |events|
  {
    if events != [] {
      var next := Step(s, events[0]);
      StepKeepsInv(s, events[0]);
      StepMoves(s, events[0], t);
      HoldingsAreConserved(next, events[1..], t);
      Splice(Held(s, t), TakesOf(s, events[0], t), FreesOf(s, events[0], t), Held(next, t),
             AllTakes(next, events[1..], t), AllFrees(next, events[1..], t), Held(Run(next, events[1..]), t));
    }
  }

  /** A begin that fails has released exactly the layers it claimed, in order, and so has a
    * transaction that has ended; neither holds anything any more. */
  lemma EndedTransactionsReleaseTheirClaims(s: State, events: seq<Event>, t: nat)
    requires Inv(s) && t !in s.txns
    requires Of(Run(s, events), t).Refused? || Of(Run(s, events), t).Closed?
    ensures AllTakes(s, events, t) == AllFrees(s, events, t)
  {
    HoldingsAreConserved(s, events, t);
    var takes, frees := AllTakes(s, events, t), AllFrees(s, events, t);
    assert Held(s, t) == [] && Held(Run(s, events), t) == [];
    assert takes == Held(s, t) + takes == frees + Held(Run(s, events), t) == frees;
  }

  /** The layers that an uncommitted transaction has passed while dropping have no draft. */
  ghost predicate RollingBack(s: State, t: nat, ls: seq<Layer>) {
    match Of(s, t)
    case Dropping(layers, k, committed, cleared) =>
      && layers == ls && !committed && k <= |ls|
      && (forall j :: 0 <= j < k ==> ls[j] !in s.staged)
      && (cleared ==> k < |ls| && ls[k] !in s.staged)
    case Closed => t in s.txns && forall l :: l in ls ==> l !in s.staged
    case _ => false
  }

  lemma StepKeepsRollingBack(s: State, e: Event, t: nat, ls: seq<Layer>)
    requires RollingBack(s, t, ls) && !(e.Edit? && e.layer in ls)
    ensures RollingBack(Step(s, e), t, ls)
  {
  }

  /** A transaction that is dropped uncommitted leaves every layer of its own without a draft,
    * whatever the others do, as long as nobody edits those layers while it drops. */
  lemma {:induction false} RollbackClears(s: State, events: seq<Event>, t: nat, ls: seq<Layer>)
    requires RollingBack(s, t, ls)
    requires forall i :: 0 <= i < |events| ==> !(events[i].Edit? && events[i].layer in ls)
    ensures RollingBack(Run(s, events), t, ls)
    ensures Of(Run(s, events), t).Closed? ==> forall l :: l in ls ==> l !in Run(s, events).staged
    decreases |events|
  {
    if events != [] {
      StepKeepsRollingBack(s, events[0], t, ls);
      RollbackClears(Step(s, events[0]), events[1..], t, ls);
    }
  }

  // ---- Transactions that nobody interrupts ------------------------------------------------------

  /** The next n operations of one thread. */
  function Alone(s: State, t: nat, n: nat): State
    decreases n
  {
    if n == 0 then s else Alone(Step(s, Tick(t)), t, n - 1)
  }

  lemma {:induction false} AloneIsARun(s: State, t: nat, n: nat)
    ensures Alone(s, t, n) == Run(s, seq(n, i => Tick(t)))
    decreases n
  {
    if n > 0 {
      assert seq(n, i => Tick(t))[1..] == seq(n - 1, i => Tick(t));
      AloneIsARun(Step(s, Tick(t)), t, n - 1);
    }
  }

  /** The thread has come to `x`; the flags and drafts are these, and the other threads are unmoved. */
  ghost predicate Reached(s: State, t: nat, x: Txn, claimed: set<Layer>, staged: set<Layer>, after: State) {
    && Of(after, t) == x && t in after.txns && after.claimed == claimed && after.staged == staged
    && forall u :: u != t ==> Of(after, u) == Of(s, u)
  }

  /** The layers of a piece of the list. */
  function Piece(ls: seq<Layer>, i: nat, j: nat): set<Layer>
    requires i <= j <= |ls|
  {
    set l | l in ls[i..j]
  }

  lemma PieceNext(ls: seq<Layer>, i: nat, j: nat)
    requires i < j <= |ls|
    ensures Piece(ls, i, j) == {ls[i]} + Piece(ls, i + 1, j)
    ensures Piece(ls, j, j) == {}
  {
    assert ls[i..j] == [ls[i]] + ls[i + 1..j];
  }

  lemma {:induction false} ClaimsAlone(s: State, t: nat, ls: seq<Layer>, i: nat, j: nat)
    requires i <= j <= |ls| && t in s.txns && s.txns[t] == Claiming(ls, i)
    requires Distinct(ls[..j]) && forall k :: i <= k < j ==> ls[k] !in s.claimed
    ensures Reached(s, t, Claiming(ls, j), s.claimed + Piece(ls, i, j), s.staged, Alone(s, t, j - i))
    decreases j - i
  {
    if i < j {
      PieceNext(ls, i, j);
      assert ls[..j][i] == ls[i] && forall k :: i < k < j ==> ls[..j][k] == ls[k];
      ClaimsAlone(Step(s, Tick(t)), t, ls, i + 1, j);
    }
  }

  lemma {:induction false} UnwindsAlone(s: State, t: nat, ls: seq<Layer>, i: nat, k: nat)
    requires k <= i < |ls| && t in s.txns && s.txns[t] == Unwinding(ls, i, k)
    ensures Reached(s, t, Refused(ls[i]), s.claimed - Piece(ls, k, i), s.staged, Alone(s, t, i - k + 1))
    decreases i - k
  {
    if k < i {
      PieceNext(ls, k, i);
      UnwindsAlone(Step(s, Tick(t)), t, ls, i, k + 1);
    } else {
      assert Alone(Step(s, Tick(t)), t, 0) == Step(s, Tick(t));
    }
  }

  lemma {:induction false} AloneAppend(s: State, t: nat, m: nat, n: nat)
    ensures Alone(s, t, m + n) == Alone(Alone(s, t, m), t, n)
    decreases m
  {
    if m > 0 {
      AloneAppend(Step(s, Tick(t)), t, m - 1, n);
    }
  }

  /** A begin that nobody interrupts claims all of a list of distinct free layers. */
  lemma BeginIsGranted(s: State, t: nat, ls: seq<Layer>)
    requires t !in s.txns && Distinct(ls) && forall l :: l in ls ==> l !in s.claimed
    ensures Reached(s, t, Live(ls), s.claimed + Piece(ls, 0, |ls|), s.staged,
                    Alone(Step(s, Begin(t, ls)), t, |ls| + 1))
  {
    var begun := Step(s, Begin(t, ls));
    assert ls[..|ls|] == ls;
    ClaimsAlone(begun, t, ls, 0, |ls|);
    AloneAppend(begun, t, |ls|, 1);
    var claimed := Alone(begun, t, |ls|);
    assert Alone(claimed, t, 1) == Alone(Step(claimed, Tick(t)), t, 0) == Step(claimed, Tick(t));
    OthersStay(s, Begin(t, ls), t);
    OthersStay(claimed, Tick(t), t);
  }

  lemma OthersStay(s: State, e: Event, t: nat)
    requires !e.Edit? && e.t == t
    ensures forall u :: u != t ==> Of(Step(s, e), u) == Of(s, u)
  {
  }

  lemma FailsAlone(s: State, t: nat, ls: seq<Layer>, i: nat)
    requires i < |ls| && t in s.txns && s.txns[t] == Claiming(ls, i) && ls[i] in s.claimed
    ensures Reached(s, t, Refused(ls[i]), s.claimed - Piece(ls, 0, i), s.staged, Alone(s, t, i + 2))
  {
    OthersStay(s, Tick(t), t);
    UnwindsAlone(Step(s, Tick(t)), t, ls, i, 0);
  }

  /** And otherwise it names the first layer that it could not claim, and leaves every flag as it was. */
  lemma BeginIsRefused(s: State, t: nat, ls: seq<Layer>, i: nat)
    requires t !in s.txns && i < |ls| && (ls[i] in s.claimed || ls[i] in ls[..i])
    requires Distinct(ls[..i]) && forall l :: l in ls[..i] ==> l !in s.claimed
    ensures Reached(s, t, Refused(ls[i]), s.claimed, s.staged, Alone(Step(s, Begin(t, ls)), t, 2 * i + 2))
  {
    var begun := Step(s, Begin(t, ls));
    assert begun.txns[t] == Claiming(ls, 0) && begun.claimed == s.claimed && begun.staged == s.staged;
    OthersStay(s, Begin(t, ls), t);
    hide Step, Alone;
    forall k | 0 <= k < i
      ensures ls[k] !in begun.claimed
    {
      assert ls[..i][k] == ls[k];
    }
    ClaimsAlone(begun, t, ls, 0, i);
    var claimed := Alone(begun, t, i);
    assert ls[..i] == ls[0..i];
    FailsAlone(claimed, t, ls, i);
    AloneAppend(begun, t, i, i + 2);
    assert s.claimed + Piece(ls, 0, i) - Piece(ls, 0, i) == s.claimed;
  }

  lemma {:induction false} AppliesAlone(s: State, t: nat, ls: seq<Layer>, k: nat)
    requires k <= |ls| && t in s.txns && s.txns[t] == Applying(ls, k)
    ensures Reached(s, t, Dropping(ls, 0, true, false), s.claimed, s.staged - Piece(ls, k, |ls|),
                    Alone(s, t, |ls| - k + 1))
    decreases |ls| - k
  {
    if k < |ls| {
      PieceNext(ls, k, |ls|);
      AppliesAlone(Step(s, Tick(t)), t, ls, k + 1);
    } else {
      assert Alone(Step(s, Tick(t)), t, 0) == Step(s, Tick(t));
    }
  }

  lemma {:induction false} ReleasesAlone(s: State, t: nat, ls: seq<Layer>, k: nat)
    requires k <= |ls| && t in s.txns && s.txns[t] == Dropping(ls, k, true, false)
    ensures Reached(s, t, Closed, s.claimed - Piece(ls, k, |ls|), s.staged, Alone(s, t, |ls| - k + 1))
    decreases |ls| - k
  {
    if k < |ls| {
      PieceNext(ls, k, |ls|);
      ReleasesAlone(Step(s, Tick(t)), t, ls, k + 1);
    } else {
      assert Alone(Step(s, Tick(t)), t, 0) == Step(s, Tick(t));
    }
  }

  /** A commit that nobody interrupts applies the draft of every layer and then releases them all. */
  lemma CommitAppliesAndReleases(s: State, t: nat, ls: seq<Layer>)
    requires t in s.txns && s.txns[t] == Live(ls)
    ensures Reached(s, t, Closed, s.claimed - Piece(ls, 0, |ls|), s.staged - Piece(ls, 0, |ls|),
                    Alone(Step(s, Commit(t)), t, 2 * |ls| + 2))
  {
    var applying := Step(s, Commit(t));
    OthersStay(s, Commit(t), t);
    assert Reached(s, t, Applying(ls, 0), s.claimed, s.staged, applying);
    hide Step, Alone, Piece;
    AppliesAlone(applying, t, ls, 0);
    var applied := Alone(applying, t, |ls| + 1);
    ReleasesAlone(applied, t, ls, 0);
    AloneAppend(applying, t, |ls| + 1, |ls| + 1);
    hide Reached;
    var staged := s.staged - Piece(ls, 0, |ls|);
    ReachedOnward(s, applying, applied, t, Dropping(ls, 0, true, false), s.claimed, staged);
    ReachedOnward(s, applied, Alone(applied, t, |ls| + 1), t, Closed, s.claimed - Piece(ls, 0, |ls|), staged);
  }

  lemma ReachedOnward(s: State, mid: State, after: State, t: nat, x: Txn, claimed: set<Layer>, staged: set<Layer>)
    requires Reached(mid, t, x, claimed, staged, after)
    requires forall u :: u != t ==> Of(mid, u) == Of(s, u)
    ensures Reached(s, t, x, claimed, staged, after)
    ensures forall u :: u != t ==> Of(after, u) == Of(s, u)
  {
  }

  lemma {:induction false} RollsBackAlone(s: State, t: nat, ls: seq<Layer>, k: nat)
    requires k <= |ls| && t in s.txns && s.txns[t] == Dropping(ls, k, false, false)
    ensures Reached(s, t, Closed, s.claimed - Piece(ls, k, |ls|), s.staged - Piece(ls, k, |ls|),
                    Alone(s, t, 2 * (|ls| - k) + 1))
    decreases |ls| - k
  {
    if k < |ls| {
      PieceNext(ls, k, |ls|);
      var cleared := Step(s, Tick(t));
      RollsBackAlone(Step(cleared, Tick(t)), t, ls, k + 1);
      AloneAppend(s, t, 2, 2 * (|ls| - k - 1) + 1);
      assert Alone(s, t, 2) == Alone(cleared, t, 1) == Alone(Step(cleared, Tick(t)), t, 0);
    } else {
      assert Alone(Step(s, Tick(t)), t, 0) == Step(s, Tick(t));
    }
  }

  /** A drop without a commit discards the draft of every layer and releases them all. */
  lemma DropDiscardsAndReleases(s: State, t: nat, ls: seq<Layer>)
    requires t in s.txns && s.txns[t] == Live(ls)
    ensures Reached(s, t, Closed, s.claimed - Piece(ls, 0, |ls|), s.staged - Piece(ls, 0, |ls|),
                    Alone(Step(s, Drop(t)), t, 2 * |ls| + 1))
  {
    OthersStay(s, Drop(t), t);
    RollsBackAlone(Step(s, Drop(t)), t, ls, 0);
  }

  /** The layers that a committing transaction has passed have no draft, until somebody edits them. */
  ghost predicate Committing(s: State, t: nat, ls: seq<Layer>) {
    match Of(s, t)
    case Applying(layers, k) => layers == ls && k <= |ls| && forall j :: 0 <= j < k ==> ls[j] !in s.staged
    case Dropping(layers, _, committed, _) => layers == ls && committed && forall l :: l in ls ==> l !in s.staged
    case Closed => t in s.txns && forall l :: l in ls ==> l !in s.staged
    case _ => false
  }

  /** A commit applies the drafts of all its layers, whatever the others do, as long as nobody edits
    * those layers meanwhile. */
  lemma {:induction false} CommitApplies(s: State, events: seq<Event>, t: nat, ls: seq<Layer>)
    requires Committing(s, t, ls)
    requires forall i :: 0 <= i < |events| ==> !(events[i].Edit? && events[i].layer in ls)
    ensures Committing(Run(s, events), t, ls)
    decreases |events|
  {
    if events != [] {
      CommitApplies(Step(s, events[0]), events[1..], t, ls);
    }
  }
}

/** The same transactions run by one thread on layer objects, as the loops are written. */
module LayerTransactions {
  import opened Options
  import opened Sequences

  /** A draft layer: its claim flag and the pair of committed value and optional draft. */
  class Layer<T> {
    var claimed: bool
    var committed: T
    var staged: Option<T>

    constructor (value: T)
      ensures !claimed && committed == value && staged == None
    {
      claimed, committed, staged := false, value, None;
    }

    method TryClaim() returns (ok: bool)
      modifies this`claimed
      ensures claimed && ok == !old(claimed)
    {
      ok := !claimed;
      claimed := true;
    }

    method Release()
      modifies this`claimed
      ensures !claimed
    {
      claimed := false;
    }

    method ApplyDraft()
      modifies this`committed, this`staged
      ensures staged == None && committed == if old(staged).Some? then old(staged).value else old(committed)
    {
      if staged.Some? {
        committed := staged.value;
        staged := None;
      }
    }

    method DiscardDraft()
      modifies this`staged
      ensures staged == None
    {
      staged := None;
    }
  }

  datatype Begun = Granted | Busy(index: nat)

  /** Claims the layers in order; on the first that is taken, releases the ones before it. */
  method Begin<T>(layers: seq<Layer<T>>) returns (r: Begun)
    modifies (set l | l in layers)`claimed
    ensures r.Granted? <==> Distinct(layers) && forall l :: l in layers ==> !old(l.claimed)
    ensures r.Granted? ==> forall l :: l in layers ==> l.claimed
    ensures r.Busy? ==>
              && r.index < |layers|
              && (old(layers[r.index].claimed) || layers[r.index] in layers[..r.index])
              && Distinct(layers[..r.index]) && (forall l :: l in layers[..r.index] ==> !old(l.claimed))
              && forall l :: l in layers ==> l.claimed == old(l.claimed)
  {
    var i := 0;
    while i < |layers|
      invariant i <= |layers|
      invariant Distinct(layers[..i])
      invariant forall l :: l in layers[..i] ==> l.claimed && !old(l.claimed)
      invariant forall l :: l in layers && l !in layers[..i] ==> l.claimed == old(l.claimed)
    {
      var ok := layers[i].TryClaim();
      if !ok {
        var k := 0;
        while k < i
          invariant k <= i
          invariant forall l :: l in layers && l in layers[..k] ==> !l.claimed
          invariant forall l :: l in layers[..i] && l !in layers[..k] ==> l.claimed
          invariant forall l :: l in layers && l !in layers[..i] ==> l.claimed == old(l.claimed)
        {
          layers[k].Release();
          k := k + 1;
        }
        return Busy(i);
      }
      i := i + 1;
    }
    r := Granted;
  }

  /** Commits every layer and ends the transaction. */
  method Commit<T>(layers: seq<Layer<T>>)
    requires Distinct(layers)
    modifies set l | l in layers
    ensures forall l :: l in layers ==>
              && !l.claimed && l.staged == None
              && l.committed == if old(l.staged).Some? then old(l.staged).value else old(l.committed)
  {
    var k := 0;
    while k < |layers|
      invariant k <= |layers|
      invariant forall l :: l in layers[..k] ==>
                  && l.staged == None
                  && l.committed == if old(l.staged).Some? then old(l.staged).value else old(l.committed)
      invariant forall l :: l in layers && l !in layers[..k] ==>
                  l.staged == old(l.staged) && l.committed == old(l.committed)
    {
      layers[k].ApplyDraft();
      k := k + 1;
    }
    Finish(layers, true);
  }

  /** Ends the transaction; without a commit every draft is discarded first. */
  method Finish<T>(layers: seq<Layer<T>>, committed: bool)
    modifies (set l | l in layers)`claimed
    modifies (set l | l in layers)`staged
    ensures forall l :: l in layers ==>
              !l.claimed && l.staged == if committed then old(l.staged) else None
  {
    var k := 0;
    while k < |layers|
      invariant k <= |layers|
      invariant forall l :: l in layers[..k] ==>
                  !l.claimed && l.staged == if committed then old(l.staged) else None
      invariant forall l :: l in layers && l !in layers[..k] ==> l.staged == old(l.staged)
    {
      if !committed {
        layers[k].DiscardDraft();
      }
      layers[k].Release();
      k := k + 1;
    }
  }
}
