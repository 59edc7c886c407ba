/** What a tuner shows, written down case by case with states and numbers, and
    that it is what the code computes. Nothing here uses the code's own notions
    of a scenario that applies, of a lock time or of a frontend per state. */
module Telemetry {
  import opened Bytes
  import opened Catalog
  import opened Tuning
  import opened Scenarios
  import opened Allocation
  import opened Frontends

  /** A live session of the tuner is on the service and the mux named (an empty
      id names all), and the catalog lists both. */
  ghost predicate Hit(c: Catalog, sessions: Sessions, slot: Slot, serviceID: string, muxID: string) {
    exists id :: id in slot.sessions && id in sessions && OnTarget(c, sessions[id], serviceID, muxID)
  }

  ghost predicate OnTarget(c: Catalog, x: Session, serviceID: string, muxID: string) {
    && (exists k :: 0 <= k < |c.services| && c.services[k].id == x.serviceID)
    && (exists k :: 0 <= k < |c.muxes| && c.muxes[k].id == x.muxID)
    && (serviceID == "" || serviceID == x.serviceID)
    && (muxID == "" || muxID == x.muxID)
  }

  /** The moment at which the timeline's current step begins. */
  function StepStart(t: Timeline): Time
    requires t.stepIndex < |t.steps|
  {
    t.startedAt + t.steps[t.stepIndex].atMS * 1_000_000
  }

  /** The current step, normal operation or signal recovery, has begun and ended
      a lock loss that hit the tuner. */
  ghost predicate LockLossEnded(c: Catalog, sessions: Sessions, slot: Slot, t: Option<Timeline>, now: Time) {
    && t.Some? && 0 < t.value.stepIndex < |t.value.steps|
    && var current, before := t.value.steps[t.value.stepIndex], t.value.steps[t.value.stepIndex - 1];
       && (current.name == Normal || current.name == SignalRecovery)
       && before.name == LockLoss
       && StepStart(t.value) <= now
       && Hit(c, sessions, slot, before.serviceID, before.muxID)
  }

  /** Tuning for a quarter of a second, locked from then on; a tuner with no
      tuning time is locked. */
  predicate Settles(since: Time, now: Time, f: Frontend) {
    f == if since == ZERO_TIME then Frontend(Locked, 88, 13.5, 0.0, 0.0, 250, Some(now))
         else if now < since + 250_000_000 then Frontend(Tuning, 55, 8.0, 0.0001, 0.01, 250, Some(since))
         else Frontend(Locked, 88, 13.5, 0.0, 0.0, 250, Some(since + 250_000_000))
  }

  /** Recovering for a quarter of a second, locked from then on. */
  predicate Recovers(since: Time, now: Time, f: Frontend) {
    f == if now < since + 250_000_000 then Frontend(Recovering, 65, 9.5, 0.00005, 0.005, 250, Some(since))
         else Frontend(Locked, 88, 13.5, 0.0, 0.0, 250, Some(since + 250_000_000))
  }

  predicate Impaired(n: Name) {
    n == SignalDegraded || n == LockLoss || n == SlowLock
  }

  /** What a tuner must show at `now`. */
  ghost predicate Displays(c: Catalog, sessions: Sessions, slot: Slot, s: Scenario, changedAt: Time,
      t: Option<Timeline>, now: Time, f: Frontend) {
    var on := slot.tuned && slot.sessions != [];
    var hit := on && Hit(c, sessions, slot, s.serviceID, s.muxID);
    var ended := on && LockLossEnded(c, sessions, slot, t, now);
    && (!on ==> f == Frontend(Idle, 0, 0.0, 0.0, 0.0, 0, None))
    && (hit && s.name == SignalDegraded ==> f == Frontend(Degraded, 42, 6.5, 0.00025, 0.02, 250, Some(now)))
    && (hit && s.name == LockLoss ==> f == Frontend(Lost, 0, 0.0, 1.0, 1.0, 250, Some(now)))
    && (hit && s.name == SlowLock ==> f == Frontend(Tuning, 55, 8.0, 0.0001, 0.01, 1200, Some(now)))
    && (ended && !(hit && Impaired(s.name)) ==> Recovers(StepStart(t.value), now, f))
    && (!ended && hit && s.name == SignalRecovery ==>
          Recovers(if changedAt == ZERO_TIME then now else changedAt, now, f))
    && (on && !ended && !(hit && (Impaired(s.name) || s.name == SignalRecovery)) ==>
          Settles(slot.tuneStartedAt, now, f))
  }

  /** The timeline is in the last step that has begun, and the scenario is that
      step's. Before its start a timeline is in its first step. */
  ghost predicate Plays(t: Timeline, s: Scenario, now: Time) {
    var i := t.stepIndex;
    && i < |t.steps|
    && (i == 0 || t.startedAt + t.steps[i].atMS * 1_000_000 <= now)
    && (forall j :: i < j < |t.steps| ==> now < t.startedAt + t.steps[j].atMS * 1_000_000)
    && (t.steps[i].name != Unknown ==> s.name == t.steps[i].name)
    && s.serviceID == t.steps[i].serviceID && s.muxID == t.steps[i].muxID && s.durationMin == t.steps[i].durationMin
  }

  // ---------- the code agrees

  lemma SessionHit(c: Catalog, sessions: Sessions, id: string, s: Scenario)
    ensures AppliesToSession(c, sessions, id, s)
            == (id in sessions && OnTarget(c, sessions[id], s.serviceID, s.muxID))
  {
    if id in sessions {
      var service, mux := ServiceByID(c.services, sessions[id].serviceID), MuxByID(c.muxes, sessions[id].muxID);
      hide ServiceByID, MuxByID;
      assert service.Some? ==> exists k :: 0 <= k < |c.services| && c.services[k] == service.value;
      assert mux.Some? ==> exists k :: 0 <= k < |c.muxes| && c.muxes[k] == mux.value;
    }
  }

  lemma SomeHit(c: Catalog, sessions: Sessions, slot: Slot, s: Scenario)
    ensures AppliesToSome(c, sessions, slot.sessions, s) == Hit(c, sessions, slot, s.serviceID, s.muxID)
  {
    hide AppliesToSession, OnTarget;
    forall id
      ensures AppliesToSession(c, sessions, id, s)
              == (id in sessions && OnTarget(c, sessions[id], s.serviceID, s.muxID))
    {
      SessionHit(c, sessions, id, s);
    }
  }

  /** The frontend the code computes is the one that must be shown. */
  lemma FrontendDisplayed(c: Catalog, sessions: Sessions, slot: Slot, s: Scenario, changedAt: Time,
      t: Option<Timeline>, now: Time)
    ensures Displays(c, sessions, slot, s, changedAt, t, now,
                     FrontendOf(c, sessions, slot, s, changedAt, t, now))
  {
    hide AppliesToSome, Hit;
    SomeHit(c, sessions, slot, s);
    if t.Some? && 0 < t.value.stepIndex < |t.value.steps| {
      SomeHit(c, sessions, slot, FromStep(t.value.steps[t.value.stepIndex - 1]));
    }
  }

  /** What the timeline answers with belongs to the last step that has begun. */
  lemma AnswerPlays(t: Timeline, now: Time)
    requires Increasing(t.steps)
    ensures StepNow(t, now) < |t.steps| && Plays(t.(stepIndex := StepNow(t, now)), Answer(t, now), now)
  {
    hide Scan;
    ScanReaches(t.steps, Elapsed(t.startedAt, now), 0);
    var i := StepNow(t, now);
    if i > 0 {
      IncreasingApart(t.steps, 0, i);
      Begun(t.startedAt, t.steps[i].atMS, now);
    }
    forall j | i < j < |t.steps|
      ensures now < t.startedAt + t.steps[j].atMS * 1_000_000
    {
      IncreasingApart(t.steps, 0, j);
      Begun(t.startedAt, t.steps[j].atMS, now);
    }
  }

  lemma PlaysAnyStatus(t: Timeline, s: Scenario, status: Option<TimelineStatus>, now: Time)
    ensures Plays(t, s.(timeline := status), now) == Plays(t, s, now)
  {
  }

  lemma Begun(startedAt: Time, atMS: int, now: Time)
    requires atMS > 0
    ensures atMS <= Elapsed(startedAt, now) <==> startedAt + atMS * 1_000_000 <= now
  {
  }
}
