/** What the merged connection data mean over whole runs of payloads and clears. */
module ConnectionTheorems {
  import opened Options
  import opened Sequences
  import opened ConnectionMonitor

  // ---- Reuse ------------------------------------------------------------------------------------

  /** Stored metadata have every field. */
  predicate Normal(c: Connection) {
    c.metadata.Keys == FIELDS
  }

  /** Reusing parts of the previous record never changes the value of the new one. */
  lemma ReuseChangesNothing(c: Incoming, previous: Option<Connection>)
    requires previous.Some? ==> previous.value.id == c.id && Normal(previous.value)
    ensures NormalizeConnection(c, previous) == Rebuilt(c, previous)
    ensures Normal(NormalizeConnection(c, previous))
  {
    if previous.Some? && SameMetadata(previous.value.metadata, c.metadata) {
      var m := previous.value.metadata;
      assert m == Completed(c.metadata) by {
        forall f | f in FIELDS
          ensures m[f] == Completed(c.metadata)[f]
        {
          assert MetadataValue(m, f) == MetadataValue(c.metadata, f);
        }
      }
    }
  }

  // ---- Identifiers ------------------------------------------------------------------------------

  ghost predicate DistinctIds(s: seq<Connection>) {
    forall i, j :: 0 <= i < j < |s| ==> s[i].id != s[j].id
  }

  ghost predicate DistinctIncoming(s: seq<Incoming>) {
    forall i, j :: 0 <= i < j < |s| ==> s[i].id != s[j].id
  }

  ghost predicate WellFormed(active: seq<Connection>) {
    DistinctIds(active) && forall c :: c in active ==> Normal(c)
  }

  lemma {:induction false} ByIdFinds(active: seq<Connection>, id: string)
    ensures id in ById(active) ==> ById(active)[id] in active && ById(active)[id].id == id
    ensures id in ById(active) <==> exists c :: c in active && c.id == id
    ensures forall c :: c in active && c.id == id && DistinctIds(active) ==> ById(active)[id] == c
  {
    if active != [] {
      var init, last := active[..|active| - 1], active[|active| - 1];
      assert forall c :: c in active <==> c in init || c == last;
      ByIdFinds(init, id);
      if DistinctIds(active) && last.id == id {
        forall c | c in active && c.id == id
          ensures c == last
        {
          var i :| 0 <= i < |active| && active[i] == c;
        }
      }
    }
  }

  lemma ActiveIsRebuilt(active: seq<Connection>, next: seq<Incoming>)
    requires WellFormed(active) && DistinctIncoming(next)
    ensures var merged := MergedActive(active, next);
            && WellFormed(merged) && |merged| == |next|
            && forall i :: 0 <= i < |next| ==>
                 merged[i].id == next[i].id
                 && merged[i] == Rebuilt(next[i], if next[i].id in ById(active) then Some(ById(active)[next[i].id])
                                                  else None)
  {
    var merged := MergedActive(active, next);
    forall i | 0 <= i < |next|
      ensures merged[i].id == next[i].id && Normal(merged[i])
      ensures merged[i] == Rebuilt(next[i], if next[i].id in ById(active) then Some(ById(active)[next[i].id]) else None)
    {
      ByIdFinds(active, next[i].id);
      assert next[i].id !in Ids(next[..i]);
      ReuseChangesNothing(next[i], Continues(active, next, i));
    }
  }

  /** With several records of an id, the last one is found. */
  lemma {:induction false} ByIdIsLast(active: seq<Connection>, k: nat)
    requires k < |active| && forall l :: k < l < |active| ==> active[l].id != active[k].id
    ensures active[k].id in ById(active) && ById(active)[active[k].id] == active[k]
  {
    if k < |active| - 1 {
      ByIdIsLast(active[..|active| - 1], k);
    }
  }

  lemma {:induction false} LastWithId(active: seq<Connection>, id: string) returns (k: nat)
    requires exists c :: c in active && c.id == id
    ensures k < |active| && active[k].id == id && forall l :: k < l < |active| ==> active[l].id != id
  {
    k := |active| - 1;
    if active[k].id != id {
      assert forall c :: c in active <==> c in active[..k] || c == active[k];
      k := LastWithId(active[..k], id);
    }
  }

  /** The record that a reported connection continues: the last active one of its id, unless an earlier
    * report of the payload has that id too. */
  ghost predicate Preceding(active: seq<Connection>, next: seq<Incoming>, i: nat, previous: Option<Connection>)
    requires i < |next|
  {
    var repeated := exists j :: 0 <= j < i && next[j].id == next[i].id;
    match previous
    case None => repeated || forall c :: c in active ==> c.id != next[i].id
    case Some(p) =>
      !repeated && exists k :: 0 <= k < |active| && active[k] == p && p.id == next[i].id
                     && forall l :: k < l < |active| ==> active[l].id != next[i].id
  }

  /** The record shows what the core reports, with defaults for what is absent, and the growth of both
    * volumes over the previous record. */
  ghost predicate Shows(m: Connection, c: Incoming, previous: Option<Connection>) {
    && m.id == c.id
    && m.upload == (if c.upload.Some? then c.upload.value else 0)
    && m.download == (if c.download.Some? then c.download.value else 0)
    && m.start == (if c.start.Some? then c.start.value else "")
    && m.chains == (if c.chains.Some? then c.chains.value else [])
    && m.rule == (if c.rule.Some? then c.rule.value else "")
    && m.rulePayload == (if c.rulePayload.Some? then c.rulePayload.value else "")
    && m.curUpload == (if previous.Some? then m.upload - previous.value.upload else 0)
    && m.curDownload == (if previous.Some? then m.download - previous.value.download else 0)
    && forall f: Field :: f in m.metadata && m.metadata[f] == if f in c.metadata then c.metadata[f] else ""
  }

  lemma ContinuesPreceding(active: seq<Connection>, next: seq<Incoming>, i: nat)
    requires i < |next|
    ensures Preceding(active, next, i, Continues(active, next, i))
  {
    var id := next[i].id;
    ByIdFinds(active, id);
    assert id in Ids(next[..i]) <==> exists j :: 0 <= j < i && next[j].id == id by {
      if j :| 0 <= j < i && next[j].id == id {
        assert next[..i][j] in next[..i];
      }
    }
    if c :| c in active && c.id == id {
      var k := LastWithId(active, id);
      ByIdIsLast(active, k);
    }
  }

  lemma EveryField(f: Field)
    ensures f in FIELDS
  {
    match f
    case _ =>
  }

  /** The active list follows any payload, in its order: each record shows its report and continues the
    * record that precedes it. */
  lemma ActiveFollowsPayload(active: seq<Connection>, next: seq<Incoming>, i: nat)
    requires i < |next| && forall c :: c in active ==> Normal(c)
    ensures var merged := MergedActive(active, next);
            && |merged| == |next|
            && Preceding(active, next, i, Continues(active, next, i))
            && Shows(merged[i], next[i], Continues(active, next, i))
  {
    forall f: Field
      ensures f in FIELDS
    {
      EveryField(f);
    }
    ByIdFinds(active, next[i].id);
    ContinuesPreceding(active, next, i);
    ReuseChangesNothing(next[i], Continues(active, next, i));
  }

  /** What departs is what the payload does not report, in its old order. */
  lemma RemovedAreUnreported(active: seq<Connection>, next: seq<Incoming>)
    ensures Removed(active, next) == Filter(active, Unreported(next))
  {
    forall i | 0 <= i < |active|
      ensures active[i].id in Gone(active, next) <==> Unreported(next)(active[i])
    {
      ByIdFinds(active, active[i].id);
      assert active[i] in active;
    }
    SameFilter(active, (c: Connection) => c.id in Gone(active, next), Unreported(next));
  }

  ghost function Unreported(next: seq<Incoming>): Connection -> bool {
    (c: Connection) => forall r :: r in next ==> r.id != c.id
  }

  // ---- The closed list --------------------------------------------------------------------------

  function Among(ids: set<string>): Connection -> bool {
    (c: Connection) => c.id in ids
  }

  lemma FilterLast(s: seq<Connection>, p: Connection -> bool)
    requires s != []
    ensures Filter(s, p) == Filter(s[..|s| - 1], p) + if p(s[|s| - 1]) then [s[|s| - 1]] else []
  {
    var init, last := s[..|s| - 1], s[|s| - 1];
    assert s == init + [last];
    FilterAppend(init, [last], p);
    assert [last][1..] == [];
  }

  /** Every id that goes takes at least one record with it. */
  lemma {:induction false} AmongAtLeast(active: seq<Connection>, gone: set<string>)
    requires gone <= ById(active).Keys
    ensures |gone| <= |Filter(active, Among(gone))|
  {
    if active == [] {
      assert gone == {};
    } else {
      var init, last := active[..|active| - 1], active[|active| - 1];
      var rest := gone - {last.id};
      FilterLast(active, Among(gone));
      AmongAtLeast(init, rest);
      FilterMore(init, Among(rest), Among(gone));
      assert |gone| == |rest| + if last.id in gone then 1 else 0;
    }
  }

  /** And exactly one when ids are distinct. */
  lemma {:induction false} AmongCount(active: seq<Connection>, gone: set<string>)
    requires DistinctIds(active) && gone <= ById(active).Keys
    ensures |Filter(active, Among(gone))| == |gone|
  {
    if active == [] {
      assert gone == {};
    } else {
      var init, last := active[..|active| - 1], active[|active| - 1];
      var rest := gone - {last.id};
      FilterLast(active, Among(gone));
      AmongCount(init, rest);
      SameFilter(init, Among(gone), Among(rest));
      assert |gone| == |rest| + if last.id in gone then 1 else 0;
    }
  }

  lemma {:induction false} FilterMore(s: seq<Connection>, p: Connection -> bool, q: Connection -> bool)
    requires forall c :: p(c) ==> q(c)
    ensures |Filter(s, p)| <= |Filter(s, q)|
  {
    if s != [] {
      FilterMore(s[1..], p, q);
    }
  }

  lemma RemovedCount(active: seq<Connection>, next: seq<Incoming>)
    ensures |Gone(active, next)| <= |Removed(active, next)|
    ensures DistinctIds(active) ==> |Removed(active, next)| == |Gone(active, next)|
  {
    var gone := Gone(active, next);
    AmongAtLeast(active, gone);
    if DistinctIds(active) {
      AmongCount(active, gone);
    }
    SameFilter(active, Among(gone), (c: Connection) => c.id in gone);
  }

  lemma {:induction false} SameFilter(s: seq<Connection>, p: Connection -> bool, q: Connection -> bool)
    requires forall i :: 0 <= i < |s| ==> p(s[i]) == q(s[i])
    ensures Filter(s, p) == Filter(s, q)
  {
    if s != [] {
      SameFilter(s[1..], p, q);
    }
  }

  /** With as many removed records as removed ids, the two trims keep the last 500 of everything. */
  lemma TrimKeepsLast(closed: seq<Connection>, removed: seq<Connection>)
    requires |closed| <= MAX_CLOSED
    ensures Trimmed(closed, removed, |removed|) == Last(MAX_CLOSED, closed + removed)
  {
  }

  /** A payload may repeat an id, and then more records than ids depart at once. A merge keeps the
    * bound of 500 exactly when the records that depart have distinct ids or fit in the free room. */
  lemma BoundHoldsIff(payload: Payload, previous: Data)
    requires |previous.closed| <= MAX_CLOSED
    ensures var removed := Removed(previous.active, Or(payload.connections, []));
            |Merged(payload, previous).closed| <= 500 <==>
              |removed| == |Gone(previous.active, Or(payload.connections, []))|
              || |previous.closed| + |removed| <= 500
  {
    hide Removed, Trimmed;
    var next := Or(payload.connections, []);
    var removed := Removed(previous.active, next);
    RemovedCount(previous.active, next);
    if Gone(previous.active, next) == {} {
      NothingRemoved(previous.active, next);
    }
    TrimBound(previous.closed, removed, |Gone(previous.active, next)|);
  }

  lemma NothingRemoved(active: seq<Connection>, next: seq<Incoming>)
    requires Gone(active, next) == {}
    ensures Removed(active, next) == []
  {
    FilterNone(active, (c: Connection) => c.id in Gone(active, next));
  }

  lemma TrimBound(closed: seq<Connection>, removed: seq<Connection>, count: nat)
    requires |closed| <= MAX_CLOSED && count <= |removed|
    ensures |Trimmed(closed, removed, count)| <= MAX_CLOSED <==>
              |removed| == count || |closed| + |removed| <= MAX_CLOSED
  {
  }

  lemma LastOfLast<T>(n: nat, a: seq<T>, b: seq<T>)
    ensures Last(n, Last(n, a) + b) == Last(n, a + b)
  {
  }

  datatype Event = Arrive(payload: Payload) | Clear

  function Reported(e: Event): seq<Incoming>
    requires e.Arrive?
  {
    Or(e.payload.connections, [])
  }

  function Step(s: Data, e: Event): Data {
    match e
    case Arrive(payload) => Merged(payload, s)
    case Clear => s.(closed := [])
  }

  function Run(s: Data, events: seq<Event>): Data
    decreases |events|
  {
    if events == [] then s else Run(Step(s, events[0]), events[1..])
  }

  lemma {:induction false} CopiesById(c: Connection, n: nat)
    requires n > 0
    ensures ById(seq(n, i => c)) == map[c.id := c]
  {
    var s := seq(n, i => c);
    assert s[..n - 1] == seq(n - 1, i => c);
    if n > 1 {
      CopiesById(c, n - 1);
    }
  }

  lemma CopiesMerge(c: Incoming, n: nat)
    ensures MergedActive([], seq(n, i => c)) == seq(n, i => NormalizeConnection(c, None))
  {
  }

  lemma FirstOfCopies(c: Incoming, n: nat)
    ensures Merged(Payload(None, None, Some(seq(n, i => c))), Data(0, 0, [], [])) ==
            Data(0, 0, seq(n, i => NormalizeConnection(c, None)), [])
  {
    hide NormalizeConnection;
    CopiesMerge(c, n);
    assert Gone([], seq(n, i => c)) == {};
  }

  lemma CopiesDepart(c: Connection, n: nat)
    requires n > MAX_CLOSED
    ensures |Merged(Payload(None, None, None), Data(0, 0, seq(n, i => c), [])).closed| == n
  {
    var active := seq(n, i => c);
    CopiesById(c, n);
    assert Gone(active, []) == {c.id};
    FilterAll(active, (x: Connection) => x.id in Gone(active, []));
  }

  /** It does not always hold: after a payload that reports one connection n times and one that
    * reports none, all n records are kept. */
  lemma RepeatedIdsOverflow(c: Incoming, n: nat)
    requires n > MAX_CLOSED
    ensures var twice := [Arrive(Payload(None, None, Some(seq(n, i => c)))), Arrive(Payload(None, None, None))];
            |Run(Data(0, 0, [], []), twice).closed| == n
  {
    hide Merged, NormalizeConnection;
    var first, second := Arrive(Payload(None, None, Some(seq(n, i => c)))), Arrive(Payload(None, None, None));
    var s := Step(Data(0, 0, [], []), first);
    FirstOfCopies(c, n);
    CopiesDepart(NormalizeConnection(c, None), n);
    assert s == Data(0, 0, seq(n, i => NormalizeConnection(c, None)), []);
    assert [first, second][1..] == [second];
    assert Run(s, [second]) == Run(Step(s, second), []);
  }

  /** Every departure since the last clear, in order, after those already known. */
  function Departures(s: Data, known: seq<Connection>, events: seq<Event>): seq<Connection>
    decreases |events|
  {
    if events == [] then known
    else
      var now := if events[0].Clear? then [] else known + Removed(s.active, Reported(events[0]));
      Departures(Step(s, events[0]), now, events[1..])
  }

  ghost predicate ProperEvent(e: Event) {
    e.Arrive? ==> DistinctIncoming(Reported(e))
  }

  lemma ClosedStep(s: Data, known: seq<Connection>, e: Event)
    requires WellFormed(s.active) && s.closed == Last(MAX_CLOSED, known) && ProperEvent(e)
    ensures WellFormed(Step(s, e).active)
    ensures Step(s, e).closed == Last(MAX_CLOSED, if e.Clear? then [] else known + Removed(s.active, Reported(e)))
  {
    if e.Arrive? {
      var next := Reported(e);
      var removed := Removed(s.active, next);
      ActiveIsRebuilt(s.active, next);
      RemovedCount(s.active, next);
      TrimKeepsLast(s.closed, removed);
      LastOfLast(MAX_CLOSED, known, removed);
      if Gone(s.active, next) == {} {
        assert removed == [] && known + removed == known;
      }
    }
  }

  /** Over any run of payloads with distinct ids and of clears, the closed list is the last 500
    * departures since the last clear, in the order they departed. */
  lemma {:induction false} ClosedIsLastDepartures(s: Data, known: seq<Connection>, events: seq<Event>)
    requires WellFormed(s.active) && s.closed == Last(MAX_CLOSED, known)
    requires forall i :: 0 <= i < |events| ==> ProperEvent(events[i])
    ensures WellFormed(Run(s, events).active)
    ensures Run(s, events).closed == Last(500, Departures(s, known, events))
    ensures |Run(s, events).closed| <= 500
    decreases |events|
  {
    if events != [] {
      var e := events[0];
      ClosedStep(s, known, e);
      var now := if e.Clear? then [] else known + Removed(s.active, Reported(e));
      ClosedIsLastDepartures(Step(s, e), now, events[1..]);
    }
  }

  // ---- Transferred volumes ----------------------------------------------------------------------

  /** The volume that the snapshots of a run attribute to one connection. */
  function Uploaded(s: Data, events: seq<Event>, id: string): int
    decreases |events|
  {
    if events == [] then 0
    else
      var next := Step(s, events[0]);
      (if events[0].Arrive? && id in ById(next.active) then ById(next.active)[id].curUpload else 0)
      + Uploaded(next, events[1..], id)
  }

  function Downloaded(s: Data, events: seq<Event>, id: string): int
    decreases |events|
  {
    if events == [] then 0
    else
      var next := Step(s, events[0]);
      (if events[0].Arrive? && id in ById(next.active) then ById(next.active)[id].curDownload else 0)
      + Downloaded(next, events[1..], id)
  }

  ghost predicate Reports(e: Event, id: string) {
    e.Arrive? ==> exists c :: c in Reported(e) && c.id == id
  }

  lemma DeltaStep(s: Data, e: Event, id: string)
    requires WellFormed(s.active) && ProperEvent(e) && Reports(e, id) && id in ById(s.active)
    ensures var next := Step(s, e);
            && WellFormed(next.active) && id in ById(next.active)
            && (e.Arrive? ==>
                  && ById(next.active)[id].curUpload == ById(next.active)[id].upload - ById(s.active)[id].upload
                  && ById(next.active)[id].curDownload == ById(next.active)[id].download - ById(s.active)[id].download)
  {
    if e.Arrive? {
      var incoming := Reported(e);
      var merged := MergedActive(s.active, incoming);
      ActiveIsRebuilt(s.active, incoming);
      var c :| c in incoming && c.id == id;
      var i :| 0 <= i < |incoming| && incoming[i] == c;
      ByIdFinds(merged, id);
      assert merged[i] in merged;
    }
  }

  /** While a connection stays present, the deltas shown for it add up to the growth of its totals. */
  lemma {:induction false} DeltasTelescope(s: Data, events: seq<Event>, id: string)
    requires WellFormed(s.active) && id in ById(s.active)
    requires forall i :: 0 <= i < |events| ==> ProperEvent(events[i]) && Reports(events[i], id)
    ensures id in ById(Run(s, events).active)
    ensures Uploaded(s, events, id) == ById(Run(s, events).active)[id].upload - ById(s.active)[id].upload
    ensures Downloaded(s, events, id) == ById(Run(s, events).active)[id].download - ById(s.active)[id].download
    decreases |events|
  {
    if events != [] {
      DeltaStep(s, events[0], id);
      DeltasTelescope(Step(s, events[0]), events[1..], id);
    }
  }
}
