/** The delay manager's snapshot caches: one identity per group, and cached sets of them that readers
  * compare by identity. */
module DelayCaches {

  /** A snapshot is known by its identity, a number never used before. */
  type Snapshot = nat

  datatype Caches = Caches(
    groups: map<string, Snapshot>,
    sets: map<seq<string>, map<string, Snapshot>>,
    batches: map<string, nat>,
    pending: set<string>,
    next: Snapshot)

  function Initial(): Caches {
    Caches(map[], map[], map[], {}, 0)
  }

  predicate Busy(c: Caches, group: string) {
    group in c.batches && c.batches[group] > 0
  }

  /** Notes that a group has settled, unless one of its batches is under way. */
  function Settle(c: Caches, group: string): Caches {
    if Busy(c, group) then c
    else c.(groups := c.groups - {group}, sets := map[], pending := c.pending + {group})
  }

  /** Reads one group, giving it an identity when it has none. */
  function Read(c: Caches, group: string): Caches {
    if group in c.groups then c
    else c.(groups := c.groups[group := c.next], next := c.next + 1)
  }

  function ReadAll(c: Caches, names: seq<string>): Caches {
    if names == [] then c else Read(ReadAll(c, names[..|names| - 1]), names[|names| - 1])
  }

  lemma {:induction false} ReadAllKnows(c: Caches, names: seq<string>)
    ensures var d := ReadAll(c, names);
            && d.sets == c.sets && d.batches == c.batches && d.pending == c.pending && d.next >= c.next
            && (forall n :: n in names ==> n in d.groups)
            && (forall g :: g in c.groups ==> g in d.groups && d.groups[g] == c.groups[g])
            && (forall g :: g in d.groups && g !in c.groups ==> c.next <= d.groups[g] < d.next)
  {
    if names != [] {
      ReadAllKnows(c, names[..|names| - 1]);
    }
  }

  /** The identities of the named groups. */
  function Chosen(groups: map<string, Snapshot>, names: seq<string>): map<string, Snapshot>
    requires forall n :: n in names ==> n in groups
  {
    map n | n in names :: groups[n]
  }

  /** Reads a set of groups, through the cache of sets. */
  function ReadSet(c: Caches, names: seq<string>): Caches {
    if names in c.sets then c
    else
      ReadAllKnows(c, names);
      var d := ReadAll(c, names);
      d.(sets := d.sets[names := Chosen(d.groups, names)])
  }

  function BeginBatch(c: Caches, group: string): Caches {
    c.(batches := c.batches[group := 1 + if group in c.batches then c.batches[group] else 0])
  }

  function EndBatch(c: Caches, group: string): Caches {
    var before := if group in c.batches then c.batches[group] else 1;
    if before > 1 then c.(batches := c.batches[group := before - 1])
    else Settle(c.(batches := c.batches - {group}), group)
  }

  datatype Event =
    | ReadGroup(group: string)
    | ReadGroups(names: seq<string>)
    | Measured(group: string)
    | BatchBegins(group: string)
    | BatchEnds(group: string)

  function Step(c: Caches, e: Event): Caches {
    match e
    case ReadGroup(group) => Read(c, group)
    case ReadGroups(names) => ReadSet(c, names)
    case Measured(group) => Settle(c, group)
    case BatchBegins(group) => BeginBatch(c, group)
    case BatchEnds(group) => EndBatch(c, group)
  }

  function Run(c: Caches, events: seq<Event>): Caches
    decreases |events|
  {
    if events == [] then c else Run(Step(c, events[0]), events[1..])
  }

  /** Every cached set agrees entry by entry with the cache of groups; identities in use are distinct
    * and old; counts are positive. */
  ghost predicate Coherent(c: Caches) {
    && (forall key :: key in c.sets ==>
          && (forall n :: n in key ==> n in c.groups)
          && c.sets[key] == Chosen(c.groups, key))
    && (forall g :: g in c.groups ==> c.groups[g] < c.next)
    && (forall g, h :: g in c.groups && h in c.groups && c.groups[g] == c.groups[h] ==> g == h)
    && (forall g :: g in c.batches ==> c.batches[g] > 0)
  }

  lemma ReadKeepsCoherent(c: Caches, group: string)
    requires Coherent(c)
    ensures Coherent(Read(c, group))
  {
    var d := Read(c, group);
    forall key | key in d.sets
      ensures (forall n :: n in key ==> n in d.groups) && d.sets[key] == Chosen(d.groups, key)
    {
      assert c.sets[key] == Chosen(c.groups, key);
    }
  }

  lemma {:induction false} ReadAllKeepsCoherent(c: Caches, names: seq<string>)
    requires Coherent(c)
    ensures Coherent(ReadAll(c, names))
  {
    if names != [] {
      ReadAllKeepsCoherent(c, names[..|names| - 1]);
      ReadKeepsCoherent(ReadAll(c, names[..|names| - 1]), names[|names| - 1]);
    }
  }

  /** A set that has been read names the identities that its groups have. */
  lemma SetKnows(c: Caches, names: seq<string>)
    requires Coherent(c)
    ensures var d := ReadSet(c, names);
            && names in d.sets && (forall n :: n in names ==> n in d.groups)
            && d.sets[names] == Chosen(d.groups, names)
  {
    ReadAllKnows(c, names);
  }

  lemma StepKeepsCoherent(c: Caches, e: Event)
    requires Coherent(c)
    ensures Coherent(Step(c, e))
  {
    match e
    case ReadGroup(group) => ReadKeepsCoherent(c, group);
    case ReadGroups(names) =>
      ReadAllKeepsCoherent(c, names);
      ReadAllKnows(c, names);
    case _ =>
  }

  /** In every reachable state the cached sets agree with the cache of groups. */
  lemma {:induction false} CachesStayCoherent(c: Caches, events: seq<Event>)
    requires Coherent(c)
    ensures Coherent(Run(c, events))
    decreases |events|
  {
    if events != [] {
      StepKeepsCoherent(c, events[0]);
      CachesStayCoherent(Step(c, events[0]), events[1..]);
    }
  }

  /** The event settles the group: a measurement outside any batch, or the end of its last batch. */
  predicate Settles(c: Caches, e: Event, group: string) {
    match e
    case Measured(g) => g == group && !Busy(c, g)
    case BatchEnds(g) => g == group && !(g in c.batches && c.batches[g] > 1)
    case _ => false
  }

  /** A settle drops the identity of its own group and of no other; every other event keeps all. */
  lemma StepIdentity(c: Caches, e: Event, group: string)
    requires Coherent(c)
    ensures var d := Step(c, e);
            && d.next >= c.next
            && (Settles(c, e, group) ==> group !in d.groups && d.sets == map[] && group in d.pending)
            && (!Settles(c, e, group) && group in c.groups ==> group in d.groups && d.groups[group] == c.groups[group])
            && (group !in c.groups && group in d.groups ==> d.groups[group] >= c.next)
  {
    if e.ReadGroups? {
      ReadAllKnows(c, e.names);
    }
  }

  predicate SettlesDuring(c: Caches, events: seq<Event>, group: string)
    decreases |events|
  {
    events != [] && (Settles(c, events[0], group) || SettlesDuring(Step(c, events[0]), events[1..], group))
  }

  lemma {:induction false} NewIdentities(c: Caches, events: seq<Event>, group: string, old': Snapshot)
    requires Coherent(c) && old' < c.next && (group in c.groups ==> c.groups[group] != old')
    ensures group in Run(c, events).groups ==> Run(c, events).groups[group] != old'
    decreases |events|
  {
    if events != [] {
      StepIdentity(c, events[0], group);
      StepKeepsCoherent(c, events[0]);
      NewIdentities(Step(c, events[0]), events[1..], group, old');
    }
  }

  /** An identity that has been handed out is still the group's after a run exactly when the group
    * has not settled during it. */
  lemma {:induction false} IdentityChangesOnlyBySettling(c: Caches, events: seq<Event>, group: string)
    requires Coherent(c) && group in c.groups
    ensures var d := Run(c, events);
            (group in d.groups && d.groups[group] == c.groups[group]) <==> !SettlesDuring(c, events, group)
    decreases |events|
  {
    if events != [] {
      var next := Step(c, events[0]);
      StepIdentity(c, events[0], group);
      StepKeepsCoherent(c, events[0]);
      if Settles(c, events[0], group) {
        NewIdentities(next, events[1..], group, c.groups[group]);
      } else {
        IdentityChangesOnlyBySettling(next, events[1..], group);
      }
    }
  }

  /** The batches of a group begun and ended by an event. */
  function Delta(e: Event, group: string): int {
    if e == BatchBegins(group) then 1 else if e == BatchEnds(group) then -1 else 0
  }

  function Unfinished(n: int, events: seq<Event>, group: string): int {
    if events == [] then n else Unfinished(n, events[..|events| - 1], group) + Delta(events[|events| - 1], group)
  }

  ghost predicate AlwaysUnfinished(n: int, events: seq<Event>, group: string) {
    forall k :: 0 <= k <= |events| ==> Unfinished(n, events[..k], group) > 0
  }

  lemma {:induction false} UnfinishedShift(n: int, events: seq<Event>, group: string)
    requires events != []
    ensures Unfinished(n, events, group) == Unfinished(n + Delta(events[0], group), events[1..], group)
  {
    if |events| > 1 {
      var init := events[..|events| - 1];
      UnfinishedShift(n, init, group);
      assert init[1..] == events[1..][..|events| - 2];
    }
  }

  lemma StepCounts(c: Caches, e: Event, group: string)
    requires group in c.batches && c.batches[group] + Delta(e, group) > 0
    ensures !Settles(c, e, group)
    ensures group in Step(c, e).batches && Step(c, e).batches[group] == c.batches[group] + Delta(e, group)
  {
    if e.ReadGroups? {
      ReadAllKnows(c, e.names);
    }
  }

  lemma AlwaysUnfinishedNext(n: int, events: seq<Event>, group: string)
    requires events != [] && AlwaysUnfinished(n, events, group)
    ensures n + Delta(events[0], group) > 0
    ensures AlwaysUnfinished(n + Delta(events[0], group), events[1..], group)
  {
    assert events[..1][..0] == [] && Unfinished(n, events[..1], group) == n + Delta(events[0], group);
    forall k | 0 <= k <= |events[1..]|
      ensures Unfinished(n + Delta(events[0], group), events[1..][..k], group) > 0
    {
      UnfinishedShift(n, events[..k + 1], group);
      assert events[..k + 1][1..] == events[1..][..k];
    }
  }

  /** While some batch of the group is unfinished the group does not settle, so its identity stays. */
  lemma {:induction false} BatchesHoldTheIdentity(c: Caches, events: seq<Event>, group: string)
    requires group in c.batches && AlwaysUnfinished(c.batches[group], events, group)
    ensures !SettlesDuring(c, events, group)
    decreases |events|
  {
    if events != [] {
      AlwaysUnfinishedNext(c.batches[group], events, group);
      StepCounts(c, events[0], group);
      BatchesHoldTheIdentity(Step(c, events[0]), events[1..], group);
    }
  }

  /** The end of the last unfinished batch drops the identity. */
  lemma LastBatchEndSettles(c: Caches, group: string)
    requires group in c.batches && c.batches[group] == 1
    ensures Settles(c, BatchEnds(group), group) && group !in Step(c, BatchEnds(group)).groups
  {
  }
}

/** The manager's caches as the fields that its methods update. */
module DelayManager {
  import opened DelayCaches

  class Manager {
    var groupSnapshots: map<string, Snapshot>
    var groupSetSnapshots: map<seq<string>, map<string, Snapshot>>
    var activeBatches: map<string, nat>
    var pendingGroupUpdates: set<string>
    var nextIdentity: Snapshot

    ghost function View(): Caches
      reads this
    {
      Caches(groupSnapshots, groupSetSnapshots, activeBatches, pendingGroupUpdates, nextIdentity)
    }

    ghost predicate Valid()
      reads this
    {
      Coherent(View())
    }

    constructor ()
      ensures Valid() && View() == Initial()
    {
      groupSnapshots, groupSetSnapshots, activeBatches := map[], map[], map[];
      pendingGroupUpdates, nextIdentity := {}, 0;
    }

    method QueueGroupNotification(group: string)
      requires Valid()
      modifies this
      ensures Valid() && View() == Settle(old(View()), group)
      ensures if group in activeBatches && activeBatches[group] > 0 then View() == old(View())
              else
                && groupSnapshots == old(groupSnapshots) - {group} && groupSetSnapshots == map[]
                && pendingGroupUpdates == old(pendingGroupUpdates) + {group}
    {
      if group in activeBatches && activeBatches[group] > 0 {
        return;
      }
      groupSnapshots := groupSnapshots - {group};
      groupSetSnapshots := map[];
      pendingGroupUpdates := pendingGroupUpdates + {group};
    }

    method GroupDelays(group: string) returns (snapshot: Snapshot)
      requires Valid()
      modifies this
      ensures Valid() && View() == Read(old(View()), group)
      ensures group in groupSnapshots && snapshot == groupSnapshots[group]
    {
      ReadKeepsCoherent(View(), group);
      if group in groupSnapshots {
        return groupSnapshots[group];
      }
      snapshot := nextIdentity;
      groupSnapshots := groupSnapshots[group := snapshot];
      nextIdentity := nextIdentity + 1;
    }

    method GroupsDelays(names: seq<string>) returns (snapshots: map<string, Snapshot>)
      requires Valid()
      modifies this
      ensures Valid() && View() == ReadSet(old(View()), names)
      ensures names in groupSetSnapshots && snapshots == groupSetSnapshots[names]
      ensures snapshots.Keys == (set n | n in names)
      ensures forall n :: n in names ==> n in groupSnapshots && snapshots[n] == groupSnapshots[n]
    {
      ghost var before := View();
      StepKeepsCoherent(before, ReadGroups(names));
      SetKnows(before, names);
      hide Coherent, ReadAll;
      if names in groupSetSnapshots {
        return groupSetSnapshots[names];
      }
      snapshots := ReadEach(names);
      groupSetSnapshots := groupSetSnapshots[names := snapshots];
    }

    method ReadEach(names: seq<string>) returns (snapshots: map<string, Snapshot>)
      requires Valid()
      modifies this
      ensures Valid() && View() == ReadAll(old(View()), names)
      ensures forall n :: n in names ==> n in groupSnapshots
      ensures snapshots == Chosen(groupSnapshots, names)
    {
      hide Coherent;
      snapshots := map[];
      for i := 0 to |names|
        invariant Valid() && View() == ReadAll(old(View()), names[..i])
        invariant forall n :: n in names[..i] ==> n in groupSnapshots
        invariant snapshots == Chosen(groupSnapshots, names[..i])
      {
        assert names[..i + 1][..i] == names[..i] && names[..i + 1] == names[..i] + [names[i]];
        var snapshot := GroupDelays(names[i]);
        snapshots := snapshots[names[i] := snapshot];
      }
      assert names[..|names|] == names;
    }

    method StartBatch(group: string)
      requires Valid()
      modifies this
      ensures Valid() && View() == BeginBatch(old(View()), group)
      ensures activeBatches ==
              old(activeBatches)[group := if group in old(activeBatches) then old(activeBatches)[group] + 1 else 1]
      ensures groupSnapshots == old(groupSnapshots) && pendingGroupUpdates == old(pendingGroupUpdates)
    {
      activeBatches := activeBatches[group := (if group in activeBatches then activeBatches[group] else 0) + 1];
    }

    method FinishBatch(group: string)
      requires Valid()
      modifies this
      ensures Valid() && View() == EndBatch(old(View()), group)
      ensures if group in old(activeBatches) && old(activeBatches)[group] > 1
              then
                && activeBatches == old(activeBatches)[group := old(activeBatches)[group] - 1]
                && groupSnapshots == old(groupSnapshots) && pendingGroupUpdates == old(pendingGroupUpdates)
              else
                && activeBatches == old(activeBatches) - {group}
                && group !in groupSnapshots && group in pendingGroupUpdates
    {
      var remaining := (if group in activeBatches then activeBatches[group] else 1) - 1;
      if remaining > 0 {
        activeBatches := activeBatches[group := remaining];
      } else {
        activeBatches := activeBatches - {group};
        QueueGroupNotification(group);
      }
    }
  }
}

/** The workers of one batch, which share an index into the list of members. */
module DelayBatch {

  const MAX_WORKERS: int := 10

  datatype Worker = Ready | Measuring(member: nat) | Stopped

  /** `taken` records which worker took which member. */
  datatype Take = Take(worker: nat, member: nat)

  datatype State = State(members: nat, index: nat, workers: seq<Worker>, taken: seq<Take>)

  function Min(a: int, b: int): int {
    if a < b then a else b
  }

  function WorkerCount(members: nat, concurrency: int): nat {
    var k := Min(Min(concurrency, members), MAX_WORKERS);
    if k < 0 then 0 else k
  }

  function Start(members: nat, concurrency: int): State {
    State(members, 0, seq(WorkerCount(members, concurrency), i => Ready), [])
  }

  datatype Event = Advance(worker: nat) | Settled(worker: nat)

  /** A ready worker takes the next index, and stops when it is past the list; a measuring one becomes
    * ready whether its measurement succeeds or fails. */
  function Step(s: State, e: Event): State {
    if e.worker >= |s.workers| then s
    else
      match (e, s.workers[e.worker])
      case (Advance(w), Ready) =>
        var next := s.(index := s.index + 1);
        if s.index < s.members then
          next.(workers := s.workers[w := Measuring(s.index)], taken := s.taken + [Take(w, s.index)])
        else
          next.(workers := s.workers[w := Stopped])
      case (Settled(w), Measuring(_)) => s.(workers := s.workers[w := Ready])
      case _ => s
  }

  function Run(s: State, events: seq<Event>): State
    decreases |events|
  {
    if events == [] then s else Run(Step(s, events[0]), events[1..])
  }

  predicate Finished(s: State) {
    forall w :: 0 <= w < |s.workers| ==> s.workers[w].Stopped?
  }

  /** The members taken are exactly those below the index, each once and in order. */
  ghost predicate Inv(s: State) {
    && |s.taken| == Min(s.index, s.members)
    && (forall m :: 0 <= m < |s.taken| ==> s.taken[m].member == m && s.taken[m].worker < |s.workers|)
    && (forall w :: 0 <= w < |s.workers| && s.workers[w].Stopped? ==> s.index >= s.members)
  }

  lemma {:induction false} RunKeepsInv(s: State, events: seq<Event>)
    requires Inv(s)
    ensures Inv(Run(s, events)) && Run(s, events).members == s.members && |Run(s, events).workers| == |s.workers|
    decreases |events|
  {
    if events != [] {
      RunKeepsInv(Step(s, events[0]), events[1..]);
    }
  }

  predicate Taken(s: State, member: nat) {
    exists i :: 0 <= i < |s.taken| && s.taken[i].member == member
  }

  /** In every interleaving there are as many workers as the concurrency, the members and the limit of
    * ten allow, no member is taken twice, and when the batch is over every member has been
    * taken exactly when the list was empty or at least one worker was allowed. */
  lemma BatchTakesEachMemberOnce(members: nat, concurrency: int, events: seq<Event>)
    ensures var s := Run(Start(members, concurrency), events);
            && |s.workers| <= 10 && |s.workers| <= members && (concurrency >= 0 ==> |s.workers| <= concurrency)
            && (|s.workers| == 10 || |s.workers| == members || |s.workers| == concurrency || concurrency < 0)
            && (forall i, j :: 0 <= i < j < |s.taken| ==> s.taken[i].member != s.taken[j].member)
            && (Finished(s) ==>
                  ((forall m :: 0 <= m < members ==> Taken(s, m)) <==> members == 0 || concurrency >= 1))
  {
    RunKeepsInv(Start(members, concurrency), events);
    var s := Run(Start(members, concurrency), events);
    if Finished(s) && members > 0 {
      if concurrency >= 1 {
        assert s.workers[0].Stopped?;
        assert |s.taken| == members;
        forall m | 0 <= m < members
          ensures Taken(s, m)
        {
          assert s.taken[m].member == m;
        }
      } else {
        assert |s.workers| == 0;
        assert !Taken(s, 0);
      }
    }
  }
}
