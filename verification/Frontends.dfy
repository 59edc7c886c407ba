/** The frontend a tuner shows: which scenario wins, independent of the order in
    which sessions joined and of when the lab was polled. */
module Frontends {
  import opened Bytes
  import opened Catalog
  import opened Tuning
  import opened Scenarios
  import opened Allocation

  /** The scenario applies to this session's service and mux. */
  predicate AppliesToSession(c: Catalog, sessions: Sessions, id: string, s: Scenario) {
    id in sessions
    && var service, mux := ServiceByID(c.services, sessions[id].serviceID), MuxByID(c.muxes, sessions[id].muxID);
       service.Some? && mux.Some? && AppliesTo(s, service.value, mux.value)
  }

  predicate AppliesToSome(c: Catalog, sessions: Sessions, ids: seq<string>, s: Scenario) {
    exists id :: id in ids && AppliesToSession(c, sessions, id, s)
  }

  /** The step before a recovery that the timeline itself times: lock loss
      followed by normal operation or by signal recovery. */
  predicate TimedRecovery(t: Timeline, now: Time) {
    && 0 < t.stepIndex < |t.steps|
    && var current, previous := t.steps[t.stepIndex], t.steps[t.stepIndex - 1];
       && (current.name == Normal || current.name == SignalRecovery)
       && previous.name == LockLoss
       && now >= t.startedAt + current.atMS * MILLISECOND
  }

  /** `timelineRecoveryFrontendLocked`. */
  function TimelineRecovery(c: Catalog, sessions: Sessions, ids: seq<string>, t: Option<Timeline>,
      now: Time): Option<Frontend> {
    if t == None || !TimedRecovery(t.value, now) then None
    else
      var t := t.value;
      if !AppliesToSome(c, sessions, ids, FromStep(t.steps[t.stepIndex - 1])) then None
      else
        var since := t.startedAt + t.steps[t.stepIndex].atMS * MILLISECOND;
        Some(if now < since + LockDuration() then RecoveringFrontend(since) else LockedFrontend(since + LockDuration()))
  }

  /** What a tuner shows at `now`. */
  function FrontendOf(c: Catalog, sessions: Sessions, slot: Slot, s: Scenario, changedAt: Time, t: Option<Timeline>,
      now: Time): Frontend
  {
    if !slot.tuned || slot.sessions == [] then IDLE
    else
      var recovery := TimelineRecovery(c, sessions, slot.sessions, t, now);
      var applies := AppliesToSome(c, sessions, slot.sessions, s);
      if recovery == None && s.name == SignalRecovery && applies then SignalRecoveryFrontend(changedAt, now)
      else if applies && Forced(s.name, now).Some? then Forced(s.name, now).value
      else if recovery.Some? then recovery.value
      else Lifecycle(slot.tuneStartedAt, now)
  }

  /** Two tuners with the same sessions, in whatever order, show the same. */
  lemma OrderIrrelevant(c: Catalog, sessions: Sessions, a: Slot, b: Slot, s: Scenario, changedAt: Time,
      t: Option<Timeline>, now: Time)
    requires a.tuned == b.tuned && a.tuneStartedAt == b.tuneStartedAt
    requires forall id :: id in a.sessions <==> id in b.sessions
    ensures FrontendOf(c, sessions, a, s, changedAt, t, now) == FrontendOf(c, sessions, b, s, changedAt, t, now)
  {
    hide AppliesToSession, TimedRecovery, FromStep;
    assert a.sessions != [] ==> a.sessions[0] in b.sessions;
    assert b.sessions != [] ==> b.sessions[0] in a.sessions;
  }

  /** The one case that consults the moment of the last scenario change: signal
      recovery that no lock loss before it times. */
  predicate ConsultsChange(c: Catalog, sessions: Sessions, slot: Slot, s: Scenario, t: Option<Timeline>, now: Time) {
    && slot.tuned && slot.sessions != []
    && s.name == SignalRecovery
    && AppliesToSome(c, sessions, slot.sessions, s)
    && TimelineRecovery(c, sessions, slot.sessions, t, now) == None
  }

  /** The frontend is the same whenever the last change was noticed, exactly
      outside that case. */
  lemma ChangeTimeIrrelevant(c: Catalog, sessions: Sessions, slot: Slot, s: Scenario, t: Option<Timeline>, now: Time)
    ensures (forall a, b :: FrontendOf(c, sessions, slot, s, a, t, now) == FrontendOf(c, sessions, slot, s, b, t, now))
            <==> !ConsultsChange(c, sessions, slot, s, t, now)
  {
    hide AppliesToSome, TimelineRecovery;
    if ConsultsChange(c, sessions, slot, s, t, now) {
      var late := if now - LockDuration() == ZERO_TIME then now - LockDuration() - 1 else now - LockDuration();
      assert FrontendOf(c, sessions, slot, s, now, t, now) == RecoveringFrontend(now);
      assert FrontendOf(c, sessions, slot, s, late, t, now).state == Locked;
    }
  }

  // ---------- the source's loops

  /** Does any session of the list make the scenario apply? The source stops at
      the first. */
  method AnyApplies(c: Catalog, sessions: Sessions, ids: seq<string>, s: Scenario) returns (found: bool)
    ensures found == AppliesToSome(c, sessions, ids, s)
  {
    hide AppliesToSession;
    for i := 0 to |ids|
      invariant forall j :: 0 <= j < i ==> !AppliesToSession(c, sessions, ids[j], s)
    {
      if AppliesToSession(c, sessions, ids[i], s) {
        return true;
      }
    }
    return false;
  }

  method RecomputeFrontend(c: Catalog, sessions: Sessions, slot: Slot, s: Scenario, changedAt: Time,
      t: Option<Timeline>, now: Time)
    returns (frontend: Frontend)
    ensures frontend == FrontendOf(c, sessions, slot, s, changedAt, t, now)
  {
    hide AppliesToSession, AppliesToSome, TimedRecovery;
    if !slot.tuned || |slot.sessions| == 0 {
      return IDLE;
    }
    frontend := Lifecycle(slot.tuneStartedAt, now);
    var timelineRecovery := false;
    if t.Some? && TimedRecovery(t.value, now) {
      TimedIndex(t.value, now);
      var previous := FromStep(t.value.steps[t.value.stepIndex - 1]);
      var covered := AnyApplies(c, sessions, slot.sessions, previous);
      if covered {
        var since := t.value.startedAt + t.value.steps[t.value.stepIndex].atMS * MILLISECOND;
        frontend := if now < since + LockDuration() then RecoveringFrontend(since)
            else LockedFrontend(since + LockDuration());
        timelineRecovery := true;
      }
    }
    ghost var base := frontend;
    for i := 0 to |slot.sessions|
      invariant frontend == base
      invariant forall j :: 0 <= j < i && AppliesToSession(c, sessions, slot.sessions[j], s) ==>
                  (timelineRecovery || s.name != SignalRecovery) && Forced(s.name, now) == None
    {
      var applies := AppliesToSession(c, sessions, slot.sessions[i], s);
      if !timelineRecovery && s.name == SignalRecovery && applies {
        frontend := SignalRecoveryFrontend(changedAt, now);
        SomeApplies(c, sessions, slot.sessions, i, s);
        return;
      }
      if applies && Forced(s.name, now).Some? {
        frontend := Forced(s.name, now).value;
        SomeApplies(c, sessions, slot.sessions, i, s);
        return;
      }
    }
    NoneMatters(c, sessions, slot.sessions, s);
  }

  lemma TimedIndex(t: Timeline, now: Time)
    requires TimedRecovery(t, now)
    ensures 0 < t.stepIndex < |t.steps|
  {
  }

  lemma SomeApplies(c: Catalog, sessions: Sessions, ids: seq<string>, i: nat, s: Scenario)
    requires i < |ids| && AppliesToSession(c, sessions, ids[i], s)
    ensures AppliesToSome(c, sessions, ids, s)
  {
  }

  lemma NoneMatters(c: Catalog, sessions: Sessions, ids: seq<string>, s: Scenario)
    ensures AppliesToSome(c, sessions, ids, s) ==>
        exists i :: 0 <= i < |ids| && AppliesToSession(c, sessions, ids[i], s)
  {
  }
}
