/** Scenarios, scenario timelines and the frontend telemetry derived from them.
    Times are whole nanoseconds. */
module Scenarios {
  import opened Bytes
  import opened Catalog
  import opened Tuning

  type Time = int

  /** The zero value of a time, 1 January of year 1. */
  const ZERO_TIME: Time := -62135596800_000000000

  const MILLISECOND: int := 1_000_000
  const LOCK_MS: int := 250

  datatype Name =
    | Normal | NoSignal | BadM3U | TunerBusy | TunerWedged | RtpStop | SlowRtsp | ColdBoot | MalformedPsi | RtpLoss
    | RtpJitter | RtpBlackhole | DelayedPsi | ContinuityErrors | EpgGap | EpgMismatch | EpgStale | SignalDegraded
    | LockLoss | SignalRecovery | SlowLock
    | Unknown // any other name a request may carry

  datatype Step = Step(atMS: int, name: Name, serviceID: string, muxID: string, durationMin: int)

  datatype TimelineStatus = TimelineStatus(active: bool, stepIndex: nat, elapsedMS: int, steps: seq<Step>)

  datatype Scenario = Scenario(name: Name, serviceID: string, muxID: string, durationMin: int,
      timeline: Option<TimelineStatus>)

  datatype Timeline = Timeline(startedAt: Time, stepIndex: nat, steps: seq<Step>)

  predicate AppliesTo(s: Scenario, service: Service, mux: Mux) {
    (s.serviceID == "" || s.serviceID == service.id) && (s.muxID == "" || s.muxID == mux.id)
  }

  predicate SupportsTarget(n: Name) {
    n == NoSignal || n == RtpStop || n == MalformedPsi || n == RtpLoss || n == RtpJitter || n == RtpBlackhole
    || n == DelayedPsi || n == ContinuityErrors || n == EpgGap || n == SignalDegraded || n == LockLoss
    || n == SignalRecovery || n == SlowLock
  }

  function FromStep(s: Step): Scenario {
    Scenario(if s.name == Unknown then Normal else s.name, s.serviceID, s.muxID, s.durationMin, None)
  }

  // ---------- timelines

  /** What a target and a duration may be given for. */
  predicate Targeted(c: Catalog, n: Name, serviceID: string, muxID: string, durationMin: int) {
    && n != Unknown
    && (serviceID != "" || muxID != "" ==> SupportsTarget(n))
    && (durationMin > 0 ==> n == EpgGap)
    && (serviceID != "" ==> ServiceByID(c.services, serviceID).Some?)
    && (muxID != "" ==> MuxByID(c.muxes, muxID).Some?)
  }

  /** A scenario may be chosen, with a target or without, exactly when its name
      is known, a target is listed and the name is none of those that concern
      the whole lab, and a duration comes only with an EPG gap. */
  lemma TargetedExactly(c: Catalog, n: Name, serviceID: string, muxID: string, durationMin: int)
    ensures Targeted(c, n, serviceID, muxID, durationMin) <==>
              && n != Unknown
              && (serviceID != "" || muxID != "" ==>
                    n !in {Normal, BadM3U, TunerBusy, TunerWedged, SlowRtsp, ColdBoot, EpgMismatch, EpgStale})
              && (durationMin > 0 ==> n == EpgGap)
              && (serviceID != "" ==> exists i :: 0 <= i < |c.services| && c.services[i].id == serviceID)
              && (muxID != "" ==> exists i :: 0 <= i < |c.muxes| && c.muxes[i].id == muxID)
  {
    var service, mux := ServiceByID(c.services, serviceID), MuxByID(c.muxes, muxID);
    hide ServiceByID, MuxByID;
    assert service.Some? ==> exists i :: 0 <= i < |c.services| && c.services[i] == service.value;
    assert mux.Some? ==> exists i :: 0 <= i < |c.muxes| && c.muxes[i] == mux.value;
  }

  predicate ValidStep(c: Catalog, s: Step) {
    s.name != TunerWedged && Targeted(c, s.name, s.serviceID, s.muxID, s.durationMin)
  }

  predicate Increasing(steps: seq<Step>) {
    && steps != [] && steps[0].atMS == 0
    && forall i :: 0 < i < |steps| ==> steps[i - 1].atMS < steps[i].atMS
  }

  predicate ValidSteps(c: Catalog, steps: seq<Step>) {
    Increasing(steps) && forall i :: 0 <= i < |steps| ==> ValidStep(c, steps[i])
  }

  method ValidateSteps(c: Catalog, steps: seq<Step>) returns (ok: bool)
    ensures ok == ValidSteps(c, steps)
  {
    if |steps| == 0 || steps[0].atMS != 0 {
      return false;
    }
    hide ValidStep;
    var previous := -1;
    for i := 0 to |steps|
      invariant previous == if i == 0 then -1 else steps[i - 1].atMS
      invariant forall j :: 0 <= j < i ==> ValidStep(c, steps[j])
      invariant forall j :: 0 < j < i ==> steps[j - 1].atMS < steps[j].atMS
      invariant forall j :: 0 <= j < i ==> steps[j].atMS >= 0
    {
      if steps[i].atMS < 0 || steps[i].atMS <= previous || !ValidStep(c, steps[i]) {
        assert Increasing(steps) && i > 0 ==> steps[i - 1].atMS < steps[i].atMS;
        return false;
      }
      previous := steps[i].atMS;
    }
    return true;
  }

  /** Whole milliseconds since the start, never negative. */
  function Elapsed(startedAt: Time, now: Time): nat {
    if now < startedAt then 0 else (now - startedAt) / MILLISECOND
  }

  /** The index the source's scan over the steps ends with. */
  function Scan(steps: seq<Step>, elapsed: int, index: nat): nat {
    if steps == [] then index
    else
      var init := Scan(steps[..|steps| - 1], elapsed, index);
      if steps[|steps| - 1].atMS <= elapsed then |steps| - 1 else init
  }

  /** `i` is the last step that has been reached. */
  predicate Reached(steps: seq<Step>, elapsed: int, i: nat) {
    && i < |steps| && steps[i].atMS <= elapsed
    && forall j :: i < j < |steps| ==> steps[j].atMS > elapsed
  }

  lemma {:induction false} IncreasingApart(steps: seq<Step>, i: nat, j: nat)
    requires Increasing(steps) && i < j < |steps|
    ensures steps[i].atMS < steps[j].atMS
    decreases j
  {
    if i < j - 1 {
      IncreasingApart(steps, i, j - 1);
    }
  }

  /** The scan finds the reached step, whatever index it starts from. */
  lemma {:induction false} ScanReaches(steps: seq<Step>, elapsed: int, index: nat)
    requires Increasing(steps) && elapsed >= 0
    ensures Reached(steps, elapsed, Scan(steps, elapsed, index))
  {
    if |steps| > 1 {
      var init := steps[..|steps| - 1];
      ScanReaches(init, elapsed, index);
      var i := Scan(init, elapsed, index);
      if steps[|steps| - 1].atMS > elapsed {
        assert forall j :: i < j < |steps| ==> steps[j].atMS > elapsed;
      }
    } else {
      assert Scan(steps, elapsed, index) == 0;
    }
  }

  lemma ReachedUnique(steps: seq<Step>, elapsed: int, i: nat, j: nat)
    requires Reached(steps, elapsed, i) && Reached(steps, elapsed, j)
    ensures i == j
  {
  }

  /** What a poll at `now` must answer: a function of the timeline and the clock
      alone. */
  function StepNow(t: Timeline, now: Time): nat {
    Scan(t.steps, Elapsed(t.startedAt, now), 0)
  }

  function Answer(t: Timeline, now: Time): Scenario
    requires Increasing(t.steps)
  {
    ScanReaches(t.steps, Elapsed(t.startedAt, now), 0);
    FromStep(t.steps[StepNow(t, now)]).(
      timeline := Some(TimelineStatus(true, StepNow(t, now), Elapsed(t.startedAt, now), t.steps)))
  }

  // ---------- frontends

  datatype FrontendState = Idle | Tuning | Locked | Degraded | Lost | Recovering

  datatype Frontend = Frontend(
    state: FrontendState, signalStrength: int, snrDB: real, ber: real, per: real, lockMS: int,
        lastLockChange: Option<Time>)

  const IDLE: Frontend := Frontend(Idle, 0, 0.0, 0.0, 0.0, 0, None)

  function TuningFrontend(since: Time): Frontend {
    Frontend(Tuning, 55, 8.0, 0.0001, 0.01, LOCK_MS, Some(since))
  }

  function LockedFrontend(since: Time): Frontend {
    Frontend(Locked, 88, 13.5, 0.0, 0.0, LOCK_MS, Some(since))
  }

  function RecoveringFrontend(since: Time): Frontend {
    Frontend(Recovering, 65, 9.5, 0.00005, 0.005, LOCK_MS, Some(since))
  }

  function LockDuration(): int {
    LOCK_MS * MILLISECOND
  }

  function Lifecycle(tuneStartedAt: Time, now: Time): Frontend {
    if tuneStartedAt == ZERO_TIME then LockedFrontend(now)
    else
      var lockAt := tuneStartedAt + LockDuration();
      if now < lockAt then TuningFrontend(tuneStartedAt) else LockedFrontend(lockAt)
  }

  function SignalRecoveryFrontend(startedAt: Time, now: Time): Frontend {
    if startedAt == ZERO_TIME then RecoveringFrontend(now)
    else
      var recoveredAt := startedAt + LockDuration();
      if now < recoveredAt then RecoveringFrontend(startedAt) else LockedFrontend(recoveredAt)
  }

  /** The frontend a scenario forces by itself. */
  function Forced(n: Name, now: Time): Option<Frontend> {
    match n
    case SignalDegraded => Some(Frontend(Degraded, 42, 6.5, 0.00025, 0.02, LOCK_MS, Some(now)))
    case LockLoss => Some(Frontend(Lost, 0, 0.0, 1.0, 1.0, LOCK_MS, Some(now)))
    case SlowLock => Some(Frontend(Tuning, 55, 8.0, 0.0001, 0.01, 1200, Some(now)))
    case _ => None
  }
}
