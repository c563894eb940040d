/** One profile switch from start to end on the real draft store, with no other thread in between. */
module ProfileSwitch {
  import opened Options
  import opened ProfileData
  import opened DraftSpec
  import opened DraftStore

  datatype Reply = Busy | Switched | Restored

  class Switcher {
    var switching: bool
    const profiles: Draft<Profiles>

    constructor (profiles: Draft<Profiles>)
      ensures this.profiles == profiles && !switching
    {
      this.profiles := profiles;
      switching := false;
    }

    /** Drops the staged switch and sets `current` on whatever is committed now. */
    method CommitCurrentProfile(current: Option<string>, ghost u: nat) returns (ok: bool)
      requires profiles.Valid() && Coherent(profiles.view) && u !in profiles.view.updates
      modifies profiles, profiles.repr
      ensures profiles.Valid() && fresh(profiles.repr - old(profiles.repr)) && Coherent(profiles.view)
      ensures ok && profiles.view.staged == None && profiles.view.snapshots == old(profiles.view.snapshots)
      ensures profiles.view.committed ==
              if current.Some? then PatchConfig(old(profiles.view.committed), current)
              else old(profiles.view.committed)
    {
      hide Draft.Counted, Draft.Shown;
      profiles.DiscardDraft();
      if current.None? {
        return true;
      }
      var local, origin := profiles.StartUpdate(u);
      ghost var begun := profiles.view;
      var change := (p: Profiles) => Some(PatchConfig(p, current));
      FinishedUpdate(begun, u, change);
      ok := profiles.EndUpdate(u, origin, local, change);
    }

    /** Drops the staged switch and stages and installs the previous profile. */
    method DiscardAndRestore(previous: Option<string>)
      requires profiles.Valid() && Coherent(profiles.view)
      modifies profiles, profiles.repr
      ensures profiles.Valid() && fresh(profiles.repr - old(profiles.repr)) && Coherent(profiles.view)
      ensures profiles.view.staged == None && profiles.view.snapshots == old(profiles.view.snapshots)
      ensures profiles.view.committed ==
              if previous.Some? then PatchConfig(old(profiles.view.committed), previous)
              else old(profiles.view.committed)
    {
      hide Draft.Counted, Draft.Shown;
      profiles.DiscardDraft();
      if previous.Some? {
        var _ := profiles.EditDraft((p: Profiles) => (PatchConfig(p, previous), ()));
        profiles.ApplyDraft();
      }
    }

    /** Stages the switch that a request asks for. */
    method StageSwitch(target: Option<string>)
      requires profiles.Valid() && Coherent(profiles.view)
      modifies profiles, profiles.repr
      ensures profiles.Valid() && fresh(profiles.repr - old(profiles.repr)) && Coherent(profiles.view)
      ensures profiles.view.committed == old(profiles.view.committed)
      ensures profiles.view.snapshots == old(profiles.view.snapshots)
      ensures profiles.view.updates == old(profiles.view.updates)
    {
      hide Draft.Counted, Draft.Shown;
      var _ := profiles.EditDraft((p: Profiles) => (PatchConfig(p, target), ()));
    }

    /** Ends a staged switch, whichever way validation went. */
    method Conclude(target: Option<string>, previous: Option<string>, outcome: Outcome, ghost u: nat)
      returns (reply: Reply)
      requires profiles.Valid() && Coherent(profiles.view) && u !in profiles.view.updates
      requires previous == profiles.view.committed.current
      modifies profiles, profiles.repr
      ensures profiles.Valid() && Coherent(profiles.view)
      ensures profiles.view.staged == None && profiles.view.snapshots == old(profiles.view.snapshots)
      ensures reply == if outcome.Accepted? then Switched else Restored
      ensures Concluded(target, reply.Switched?, old(profiles.view.committed), profiles.view.committed)
    {
      hide Draft.Counted, Draft.Shown, Concluded;
      PatchedIsConcluded(target, profiles.view.committed);
      if outcome.Accepted? {
        var ok := CommitCurrentProfile(target, u);
        return Switched;
      }
      DiscardAndRestore(previous);
      return Restored;
    }

    /** A second request while one is under way is turned away. Otherwise a switch ends with no draft
      * and with the list as it was; only `current` may have moved, and only when the new configuration
      * was accepted and the target exists. Snapshots taken before are untouched throughout. */
    method PatchProfilesConfig(target: Option<string>, outcome: Outcome, ghost u: nat) returns (reply: Reply)
      requires profiles.Valid() && Coherent(profiles.view) && u !in profiles.view.updates
      modifies this`switching, profiles, profiles.repr
      ensures profiles.Valid() && Coherent(profiles.view)
      ensures reply.Busy? <==> old(switching)
      ensures reply.Busy? ==> switching && profiles.view == old(profiles.view)
      ensures !reply.Busy? ==>
                && !switching && profiles.view.staged == None
                && (reply.Switched? <==> outcome.Accepted?)
                && Concluded(target, reply.Switched?, old(profiles.view.committed), profiles.view.committed)
                && profiles.view.snapshots == old(profiles.view.snapshots)
    {
      assert profiles.committed.value == profiles.view.committed;
      hide Draft.Counted, Draft.Shown, Concluded;
      if switching {
        return Busy;
      }
      switching := true;
      var previous := profiles.committed.value.current;
      StageSwitch(target);
      reply := Conclude(target, previous, outcome, u);
      switching := false;
    }
  }

  /** The items are as before, and `current` has moved iff the switch succeeded to an existing item. */
  predicate Concluded(target: Option<string>, switched: bool, before: Profiles, after: Profiles) {
    && Items(after) == Items(before)
    && after.current == if switched && target.Some? && Has(Items(before), target) then target else before.current
  }

  lemma PatchedIsConcluded(target: Option<string>, p: Profiles)
    ensures Concluded(target, true, p, if target.Some? then PatchConfig(p, target) else p)
    ensures Concluded(target, false, p, if p.current.Some? then PatchConfig(p, p.current) else p)
  {
  }
}
