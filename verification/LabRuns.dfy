/** Whole runs of the lab manager: any interleaving of requests, polls and
    scenario changes, with clocks that may move either way. */
module LabRuns {
  import opened Bytes
  import opened Catalog
  import opened Pids
  import opened Scenarios
  import opened Allocation
  import opened Frontends
  import opened Telemetry
  import opened LabManager

  datatype Command =
    | DoSetup(id: string, query: Query, client: string, now: Time)
    | DoPlay(id: string, now: Time)
    | DoPause(id: string, now: Time)
    | DoTouch(id: string, now: Time)
    | DoUpdate(id: string, change: PidChange, now: Time)
    | DoTeardown(id: string, now: Time)
    | DoExpire(now: Time, timeout: int, clock: Time)
    | DoPoll(now: Time)
    | DoStatus(now: Time)
    | DoScenario(name: Name, serviceID: string, muxID: string, durationMin: int, now: Time)
    | DoTimeline(steps: seq<Step>, now: Time)
    | DoReset

  /** Only the scenario commands and a reset touch the script. */
  function ScriptNext(c: Catalog, script: Script, command: Command): Script {
    match command
    case DoScenario(n, serviceID, muxID, durationMin, now) =>
      if Targeted(c, n, serviceID, muxID, durationMin) then Fixed(Scenario(n, serviceID, muxID, durationMin, None), now)
      else script
    case DoTimeline(steps, now) => if ValidSteps(c, steps) then Timed(now, steps) else script
    case DoReset => AfterReset(script)
    case _ => script
  }

  /** The commands that poll the script, and those that set a new one. */
  function PollsNext(c: Catalog, polls: seq<Time>, command: Command): seq<Time> {
    match command
    case DoSetup(_, q, _, now) => if MatchService(c, q).Found? then polls + [now] else polls
    case DoPoll(now) => polls + [now]
    case DoStatus(now) => polls + [now]
    case DoScenario(n, serviceID, muxID, durationMin, _) =>
      if Targeted(c, n, serviceID, muxID, durationMin) then [] else polls
    case DoTimeline(steps, _) => if ValidSteps(c, steps) then [] else polls
    case _ => polls
  }

  /** The script a lab begun at `started` has after some commands, and the polls
      since it was set. */
  function ScriptAfter(c: Catalog, started: Time, commands: seq<Command>): Script {
    if commands == [] then Fixed(NORMAL, started)
    else ScriptNext(c, ScriptAfter(c, started, commands[..|commands| - 1]), commands[|commands| - 1])
  }

  function PollsAfter(c: Catalog, commands: seq<Command>): seq<Time> {
    if commands == [] then [] else PollsNext(c, PollsAfter(c, commands[..|commands| - 1]), commands[|commands| - 1])
  }

  function SetupIDs(commands: seq<Command>): set<string> {
    if commands == [] then {}
    else
      var last := commands[|commands| - 1];
      SetupIDs(commands[..|commands| - 1]) + if last.DoSetup? then {last.id} else {}
  }

  /** No id is set up twice, as the server guarantees. */
  predicate FreshSetups(commands: seq<Command>) {
    forall i :: 0 <= i < |commands| && commands[i].DoSetup? ==> commands[i].id !in SetupIDs(commands[..i])
  }

  predicate OfSession(command: Command) {
    command.DoPlay? || command.DoPause? || command.DoTouch? || command.DoUpdate? || command.DoTeardown?
        || command.DoExpire?
  }

  predicate OfScript(command: Command) {
    command.DoPoll? || command.DoStatus? || command.DoScenario? || command.DoTimeline?
  }

  /** One command: the allocation takes at most one step of its machine, and
      script and polls move as the command alone says. */
  method Do(m: Manager, command: Command) returns (ghost events: seq<Event>)
    requires m.Valid() && (command.DoSetup? ==> command.id !in m.sessions)
    modifies m
    ensures m.Valid() && m.Playbill() == ScriptNext(m.catalog, old(m.Playbill()), command)
    ensures m.polls == PollsNext(m.catalog, old(m.polls), command)
    ensures m.View() == if events == [] then old(m.View()) else React(old(m.View()), events[0])
    ensures |events| <= 1
    ensures m.sessions.Keys <= old(m.sessions).Keys + if command.DoSetup? then {command.id} else {}
  {
    if OfSession(command) {
      hide m.Valid, React;
      events := DoSession(m, command);
      return;
    }
    if OfScript(command) {
      hide m.Valid, React, ScriptNext, PollsNext;
      DoScript(m, command);
      return [];
    }
    hide m.Valid, ScriptAt, Refusal, Requested, MatchService, AfterReset, Seat, Chosen;
    if command.DoReset? {
      m.Reset();
      return [Clear];
    }
    var r := m.Setup(command.id, command.query, command.client, command.now);
    return if r.Ready? then [Arrive(r.session, command.now)] else [];
  }

  /** A command that polls or sets the script leaves sessions and allocation
      alone. */
  method DoScript(m: Manager, command: Command)
    requires m.Valid() && OfScript(command)
    modifies m
    ensures m.Valid() && m.View() == old(m.View())
    ensures m.Playbill() == ScriptNext(m.catalog, old(m.Playbill()), command)
    ensures m.polls == PollsNext(m.catalog, old(m.polls), command)
  {
    hide m.Valid, ScriptAt, Targeted, ValidSteps, Shown;
    match command {
      case DoPoll(now) =>
        var _ := m.ScenarioAt(now);
      case DoStatus(now) =>
        m.StatusAt(now);
      case DoScenario(n, serviceID, muxID, durationMin, now) =>
        var _ := m.SetScenarioOptions(n, serviceID, muxID, durationMin, now);
      case DoTimeline(steps, now) =>
        var _ := m.SetScenarioTimeline(steps, now);
    }
  }

  /** A command about sessions there are leaves script and polls alone. */
  method DoSession(m: Manager, command: Command) returns (ghost events: seq<Event>)
    requires m.Valid() && OfSession(command)
    modifies m`tuners, m`sessions
    ensures m.Valid() && |events| <= 1
    ensures m.View() == if events == [] then old(m.View()) else React(old(m.View()), events[0])
    ensures m.sessions.Keys <= old(m.sessions).Keys
  {
    hide m.Valid, Updated, Stale, Consistent, PidsApart, Canonical, Denotes;
    events := [];
    match command {
      case DoPlay(id, now) =>
        var ok := m.Play(id, now);
        events := if ok then [Amend(id, Playing, old(m.sessions[id].pids), now)] else [];
      case DoPause(id, now) =>
        var ok := m.Pause(id, now);
        events := if ok then [Amend(id, Paused, old(m.sessions[id].pids), now)] else [];
      case DoTouch(id, now) =>
        var ok := m.Touch(id, now);
        events := if ok then [Amend(id, old(m.sessions[id].state), old(m.sessions[id].pids), now)] else [];
      case DoUpdate(id, change, now) =>
        var error := m.UpdatePIDs(id, change, now);
        if error == None && change != NO_CHANGE {
          events := [Amend(id, old(m.sessions[id].state), m.sessions[id].pids, now)];
        }
      case DoTeardown(id, now) =>
        events := if id in m.sessions then [Leave({id})] else [];
        m.Teardown(id, now);
      case DoExpire(now, timeout, clock) =>
        var expired := m.ExpireSessions(now, timeout, clock);
        events := [Leave(expired)];
    }
  }

  /** Whatever was done to the lab before, and whenever it was polled, the next
      poll answers with what the scenario commands alone determine; every
      frontend is a function of the live sessions and of the commands; and the
      allocation is one its machine reaches, so that tuners and sessions agree
      and the next mux is admitted exactly when it fits. */
  method Drive(c: Catalog, tunerCount: int, started: Time, commands: seq<Command>, now: Time)
      returns (m: Manager, answer: Scenario, ghost events: seq<Event>)
    requires FreshSetups(commands)
    ensures m.Valid() && m.catalog == c
    ensures answer == ScriptAt(ScriptAfter(c, started, commands), now).0
    ensures m.View() == Run(if tunerCount <= 0 then 1 else tunerCount, events)
    ensures forall i :: 0 <= i < |m.tuners| ==>
              m.tuners[i].frontend == Shown(c, m.sessions, m.tuners[i].slot, ScriptAfter(c, started, commands),
                                            PollsAfter(c, commands) + [now], now)
    ensures forall i :: 0 <= i < |m.tuners| ==>
              Displays(c, m.sessions, m.tuners[i].slot, m.scenario, m.scenarioChangedAt, m.timeline, now,
                       m.tuners[i].frontend)
    ensures match ScriptAfter(c, started, commands)
            case Fixed(s, since) =>
              m.timeline == None && m.scenario == s && m.scenarioChangedAt == since
            case Timed(startedAt, steps) =>
              m.timeline.Some? && m.timeline.value.startedAt == startedAt && m.timeline.value.steps == steps
              && Plays(m.timeline.value, m.scenario, now)
  {
    hide Displays, Plays, ScriptAt, React, ScriptNext, PollsNext, Shown, Noticed;
    hide Consistent, ListsKept, IdleShowsIdle, OnStep;
    m := new Manager(c, tunerCount, started);
    NoSessionsYet(if tunerCount <= 0 then 1 else tunerCount);
    events := [];
    for i := 0 to |commands|
      invariant m.Valid() && m.catalog == c && fresh(m)
      invariant m.Playbill() == ScriptAfter(c, started, commands[..i]) && m.polls == PollsAfter(c, commands[..i])
      invariant m.View() == Run(if tunerCount <= 0 then 1 else tunerCount, events)
      invariant m.sessions.Keys <= SetupIDs(commands[..i])
    {
      assert commands[..i + 1][..i] == commands[..i];
      var more := Do(m, commands[i]);
      RunNext(if tunerCount <= 0 then 1 else tunerCount, events, more);
      events := events + more;
    }
    assert commands[..|commands|] == commands;
    m.StatusAt(now);
    answer := m.ScenarioAt(now);
  }

  lemma NoSessionsYet(n: nat)
    ensures Run(n, []).sessions == map[]
  {
  }

  lemma RunNext(n: nat, events: seq<Event>, more: seq<Event>)
    requires |more| <= 1
    ensures Run(n, events + more) == if more == [] then Run(n, events) else React(Run(n, events), more[0])
  {
    hide React;
    if more == [] {
      assert events + more == events;
    } else {
      assert (events + more)[..|events|] == events;
    }
  }

  // ---------- when the moments of the polls matter

  /** Two moments of one millisecond, neither of them the zero time. */
  function Nearby(startedAt: Time, now: Time): (u: Time)
    ensures u != now && u != ZERO_TIME && Elapsed(startedAt, u) == Elapsed(startedAt, now)
  {
    if now < startedAt then (if now - 1 == ZERO_TIME then now - 2 else now - 1)
    else
      SameMillisecond(now - startedAt);
      if (now - startedAt) % MILLISECOND >= 2 then (if now - 1 == ZERO_TIME then now - 2 else now - 1)
      else if now + 1 == ZERO_TIME then now + 2 else now + 1
  }

  lemma SameMillisecond(d: nat)
    ensures d % MILLISECOND >= 2 ==> (d - 1) / MILLISECOND == (d - 2) / MILLISECOND == d / MILLISECOND
    ensures d % MILLISECOND < 2 ==> (d + 1) / MILLISECOND == (d + 2) / MILLISECOND == d / MILLISECOND
  {
  }

  /** A moment at which the timeline is in another step. */
  function Elsewhere(startedAt: Time, steps: seq<Step>, i: nat): Time {
    if i == 0 && |steps| > 1 then startedAt + steps[1].atMS * MILLISECOND else startedAt
  }

  lemma ElsewhereApart(startedAt: Time, steps: seq<Step>, i: nat)
    requires Increasing(steps) && |steps| > 1
    ensures StepNow(Timeline(startedAt, 0, steps), Elsewhere(startedAt, steps, i)) != i
  {
    hide Scan;
    var v := Elsewhere(startedAt, steps, i);
    var e := Elapsed(startedAt, v);
    ScanReaches(steps, e, 0);
    assert steps[1].atMS > steps[0].atMS;
    if i == 0 {
      assert e == steps[1].atMS;
    } else {
      assert e == 0;
      assert Reached(steps, 0, 0) by { FirstReached(steps); }
      ReachedUnique(steps, 0, 0, Scan(steps, 0, 0));
    }
  }

  lemma FirstReached(steps: seq<Step>)
    requires Increasing(steps)
    ensures Reached(steps, 0, 0)
  {
    forall j | 0 < j < |steps|
      ensures steps[j].atMS > 0
    {
      IncreasingApart(steps, 0, j);
    }
  }

  /** Whether all ways to poll a timeline, last at `now`, show the same. */
  ghost predicate PollsIrrelevant(c: Catalog, sessions: Sessions, slot: Slot, script: Script, now: Time) {
    forall p: seq<Time>, q: seq<Time> ::
      Shown(c, sessions, slot, script, p + [now], now) == Shown(c, sessions, slot, script, q + [now], now)
  }

  /** For a scenario set by hand the moments of the polls never matter. */
  lemma HandSetDetermined(c: Catalog, sessions: Sessions, slot: Slot, s: Scenario, since: Time, now: Time)
    ensures PollsIrrelevant(c, sessions, slot, Fixed(s, since), now)
  {
    hide FrontendOf;
  }

  /** For a timeline they matter exactly when it has another step to come from
      and signal recovery is shown that no lock loss before it times. */
  lemma TimelineDetermined(c: Catalog, sessions: Sessions, slot: Slot, startedAt: Time, steps: seq<Step>, now: Time)
    requires Increasing(steps)
    ensures var script := Timed(startedAt, steps);
            var (s, t) := ScriptAt(script, now);
            PollsIrrelevant(c, sessions, slot, script, now) <==>
                |steps| == 1 || !ConsultsChange(c, sessions, slot, s, t, now)
  {
    hide ScriptAt, FrontendOf, Noticed, ConsultsChange;
    var script := Timed(startedAt, steps);
    var (s, t) := ScriptAt(script, now);
    if |steps| == 1 {
      forall p: seq<Time>
        ensures Noticed(script, p) == (0, startedAt)
      {
        OneStepNoticed(startedAt, steps, p);
      }
    } else if !ConsultsChange(c, sessions, slot, s, t, now) {
      ChangeTimeIrrelevant(c, sessions, slot, s, t, now);
    } else {
      TwoWays(c, sessions, slot, startedAt, steps, now);
    }
  }

  lemma {:induction false} OneStepNoticed(startedAt: Time, steps: seq<Step>, polls: seq<Time>)
    requires Increasing(steps) && |steps| == 1
    ensures Noticed(Timed(startedAt, steps), polls) == (0, startedAt)
  {
    if polls != [] {
      OneStepNoticed(startedAt, steps, polls[..|polls| - 1]);
      ScanReaches(steps, Elapsed(startedAt, polls[|polls| - 1]), 0);
    }
  }

  /** Coming from another step right now, or a moment of the same millisecond
      apart from now, shows differently. */
  lemma TwoWays(c: Catalog, sessions: Sessions, slot: Slot, startedAt: Time, steps: seq<Step>, now: Time)
    requires Increasing(steps) && |steps| > 1
    requires var (s, t) := ScriptAt(Timed(startedAt, steps), now); ConsultsChange(c, sessions, slot, s, t, now)
    ensures var script := Timed(startedAt, steps);
            var v := Elsewhere(startedAt, steps, StepNow(Timeline(startedAt, 0, steps), now));
            var u := Nearby(startedAt, now);
            Shown(c, sessions, slot, script, [v] + [now], now) != Shown(c, sessions, slot, script, [v, u] + [now], now)
  {
    hide ScriptAt, FrontendOf, Noticed, ConsultsChange, Increasing, StepNow, Elsewhere, Nearby;
    var script, i := Timed(startedAt, steps), StepNow(Timeline(startedAt, 0, steps), now);
    var v, u := Elsewhere(startedAt, steps, i), Nearby(startedAt, now);
    ElsewhereApart(startedAt, steps, i);
    SameStep(startedAt, steps, u, now);
    NoticedNext(script, [v], now);
    NoticedNext(script, [v], u);
    NoticedNext(script, [v, u], now);
    assert [v] + [u] == [v, u];
    OnePollNoticed(startedAt, steps, v);
    assert Noticed(script, [v] + [now]).1 == now && Noticed(script, [v, u] + [now]).1 == u;
    var (s, t) := ScriptAt(script, now);
    ConsultedMoments(c, sessions, slot, s, t, u, now);
  }

  lemma SameStep(startedAt: Time, steps: seq<Step>, u: Time, now: Time)
    requires Elapsed(startedAt, u) == Elapsed(startedAt, now)
    ensures StepNow(Timeline(startedAt, 0, steps), u) == StepNow(Timeline(startedAt, 0, steps), now)
  {
  }

  lemma OnePollNoticed(startedAt: Time, steps: seq<Step>, v: Time)
    ensures Noticed(Timed(startedAt, steps), [v]).0 == StepNow(Timeline(startedAt, 0, steps), v)
  {
    hide StepNow;
    assert [v][..0] == [];
  }

  lemma ConsultedMoments(c: Catalog, sessions: Sessions, slot: Slot, s: Scenario, t: Option<Timeline>, u: Time,
      now: Time)
    requires ConsultsChange(c, sessions, slot, s, t, now) && u != now && u != ZERO_TIME
    ensures FrontendOf(c, sessions, slot, s, u, t, now) != FrontendOf(c, sessions, slot, s, now, t, now)
  {
    hide AppliesToSome, TimelineRecovery;
  }

  // ---------- an example

  const RECOVERY: seq<Step> := [Step(0, Normal, "", "", 0), Step(1000, SignalRecovery, "", "", 0)]

  /** The same timeline, polled 1000 and 1200 milliseconds after its start. */
  const EARLY: seq<Command> := [DoTimeline(RECOVERY, 0), DoPoll(1000 * MILLISECOND)]
  const LATE: seq<Command> := [DoTimeline(RECOVERY, 0), DoPoll(1200 * MILLISECOND)]

  /** Their frontends differ 1300 milliseconds after the start, on any tuner with
      a session whose service is known. */
  lemma PollTimesShow(c: Catalog, started: Time, sessions: Sessions, slot: Slot, id: string)
    requires slot.tuned && id in slot.sessions && AppliesToSession(c, sessions, id, FromStep(RECOVERY[1]))
    ensures ScriptAfter(c, started, EARLY) == ScriptAfter(c, started, LATE) == Timed(0, RECOVERY)
    ensures var (script, now) := (Timed(0, RECOVERY), 1300 * MILLISECOND);
            && Shown(c, sessions, slot, script, PollsAfter(c, EARLY) + [now], now).state == Locked
            && Shown(c, sessions, slot, script, PollsAfter(c, LATE) + [now], now).state == Recovering
  {
    hide AppliesToSession, FrontendOf;
    var (script, now) := (Timed(0, RECOVERY), 1300 * MILLISECOND);
    RecoverySet(c, started, 1000 * MILLISECOND);
    RecoverySet(c, started, 1200 * MILLISECOND);
    RecoveryNoticed(1000 * MILLISECOND, now);
    RecoveryNoticed(1200 * MILLISECOND, now);
    RecoveryShown(c, sessions, slot, id, 1000 * MILLISECOND, now);
    RecoveryShown(c, sessions, slot, id, 1200 * MILLISECOND, now);
  }

  lemma RecoverySet(c: Catalog, started: Time, poll: Time)
    ensures var commands := [DoTimeline(RECOVERY, 0), DoPoll(poll)];
            ScriptAfter(c, started, commands) == Timed(0, RECOVERY) && PollsAfter(c, commands) == [poll]
  {
    var commands := [DoTimeline(RECOVERY, 0), DoPoll(poll)];
    assert commands[..1] == [DoTimeline(RECOVERY, 0)] && commands[..1][..0] == [];
    assert ValidSteps(c, RECOVERY);
  }

  lemma RecoveryStep(now: Time)
    requires 1000 * MILLISECOND <= now
    ensures StepNow(Timeline(0, 0, RECOVERY), now) == 1
  {
    assert RECOVERY[..1] == [RECOVERY[0]];
  }

  lemma RecoveryNoticed(poll: Time, now: Time)
    requires 1000 * MILLISECOND <= poll && 1000 * MILLISECOND <= now
    ensures Noticed(Timed(0, RECOVERY), [poll] + [now]) == (1, poll)
  {
    hide StepNow;
    RecoveryStep(poll);
    RecoveryStep(now);
    NoticedNext(Timed(0, RECOVERY), [], poll);
    NoticedNext(Timed(0, RECOVERY), [poll], now);
    assert [] + [poll] == [poll];
  }

  lemma RecoveryShown(c: Catalog, sessions: Sessions, slot: Slot, id: string, poll: Time, now: Time)
    requires slot.tuned && id in slot.sessions && AppliesToSession(c, sessions, id, FromStep(RECOVERY[1]))
    requires 1000 * MILLISECOND <= poll && 1000 * MILLISECOND <= now
    requires Noticed(Timed(0, RECOVERY), [poll] + [now]).1 == poll
    ensures Shown(c, sessions, slot, Timed(0, RECOVERY), [poll] + [now], now) == SignalRecoveryFrontend(poll, now)
  {
    hide AppliesToSession, Noticed, StepNow;
    RecoveryStep(now);
    var s := ScriptAt(Timed(0, RECOVERY), now).0;
    StatusIgnored(c, sessions, slot.sessions, s, FromStep(RECOVERY[1]));
    assert AppliesToSome(c, sessions, slot.sessions, FromStep(RECOVERY[1]));
    hide AppliesToSome;
  }
}
