/** The lab manager: tuners, sessions and scenarios in one object. Every method
    takes the moment it runs at; the lock of the source makes each one step. */
module LabManager {
  import opened Bytes
  import opened Catalog
  import opened Pids
  import opened Scenarios
  import opened Allocation
  import opened Frontends
  import opened Telemetry

  datatype Tuner = Tuner(slot: Slot, frontend: Frontend)

  datatype LabError = BadTune | NoService | NoTuner | NoSession | Signal | Wedged | BadTimeline

  datatype SetupResult = Ready(session: Session, service: Service, mux: Mux) | Refused(error: LabError)

  /** The three PID keys of a request; a key may be missing. */
  datatype PidChange = PidChange(pids: Option<string>, addpids: Option<string>, delpids: Option<string>)

  function OrEmpty(o: Option<string>): string {
    if o.Some? then o.value else ""
  }

  function ChangeOf(p: PidChange): Update {
    Update(OrEmpty(p.pids), OrEmpty(p.addpids), OrEmpty(p.delpids))
  }

  function SlotsOf(tuners: seq<Tuner>): (r: seq<Slot>)
    ensures |r| == |tuners| && forall i :: 0 <= i < |r| ==> r[i] == tuners[i].slot
  {
    seq(|tuners|, i requires 0 <= i < |tuners| => tuners[i].slot)
  }

  /** The service's five default PIDs are no list with repeats. */
  function DefaultPids(s: Service): seq<int> {
    [0, 17, s.pmtPID, s.videoPID, s.audioPID]
  }

  /** They are the channel's own list when it has five. */
  lemma DefaultPidsOwn(c: Channel)
    requires ValidPids(c.pids)
    ensures DefaultPids(ServiceOf(c)) == c.pids[..5]
  {
    hide MuxOf;
  }

  predicate PidsApart(c: Catalog) {
    forall i :: 0 <= i < |c.services| ==>
        NoDuplicates(DefaultPids(c.services[i])) && AllPids(DefaultPids(c.services[i]))
  }

  /** The scenario in force belongs to the timeline's current step. */
  predicate OnStep(s: Scenario, t: Timeline) {
    && Increasing(t.steps) && t.stepIndex < |t.steps| && s.(timeline := None) == FromStep(t.steps[t.stepIndex])
    && forall i :: 0 <= i < |t.steps| ==> t.steps[i].name != TunerWedged
  }

  /** All-mode has no explicit list, and no list repeats a PID. */
  predicate ListKept(c: Catalog, l: PidList) {
    (l.all ==> l.pids == []) && (PidsApart(c) ==> Listed(l))
  }

  predicate ListsKept(c: Catalog, sessions: Sessions) {
    forall id :: id in sessions ==> ListKept(c, sessions[id].pids)
  }

  predicate IdleShowsIdle(tuners: seq<Tuner>) {
    forall i :: 0 <= i < |tuners| && !tuners[i].slot.tuned ==> tuners[i].frontend == IDLE
  }

  /** Which scenario the lab was told to play: one set by hand, and when, or the
      steps of a timeline and when it began. Nothing about earlier polls. */
  datatype Script = Fixed(scenario: Scenario, since: Time) | Timed(startedAt: Time, steps: seq<Step>)

  function ScriptAt(script: Script, now: Time): (Scenario, Option<Timeline>) {
    match script
    case Fixed(s, _) => (s, None)
    case Timed(startedAt, steps) =>
      if !Increasing(steps) then (NORMAL, None)
      else
        var t := Timeline(startedAt, 0, steps);
        (Answer(t, now), Some(t.(stepIndex := StepNow(t, now))))
  }

  /** The step the lab is in after some polls of a script, and when it noticed
      that. A scenario set by hand is noticed at once. */
  function Noticed(script: Script, polls: seq<Time>): (nat, Time) {
    match script
    case Fixed(_, since) => (0, since)
    case Timed(startedAt, steps) =>
      if polls == [] then (0, startedAt)
      else
        var before, now := Noticed(script, polls[..|polls| - 1]), polls[|polls| - 1];
        var i := StepNow(Timeline(startedAt, 0, steps), now);
        if i == before.0 then before else (i, now)
  }

  const NORMAL := FromStep(Step(0, Normal, "", "", 0))

  /** A reset clears a wedged tuner and no other scenario. */
  function AfterReset(script: Script): Script {
    if script.Fixed? && script.scenario.name == TunerWedged then Fixed(NORMAL, script.since) else script
  }

  /** The list a SETUP asks for: the one it names, or the service's own five. */
  predicate Requested(l: PidList, raw: string, service: Service) {
    if raw == "" then l == PidList(DefaultPids(service), false)
    else Parseable(raw) && Canonical(l) && Denotes(l) == Meaning(raw)
  }

  /** Why a SETUP fails, if it does. */
  function Refusal(c: Catalog, l: Lab, s: Scenario, q: Query): Option<LabError> {
    match MatchService(c, q)
    case Failed(InvalidTune) => Some(BadTune)
    case Failed(ServiceNotFound) => Some(NoService)
    case Found(service, mux) =>
      if Blocked(s, service, mux).Some? then Blocked(s, service, mux)
      else if !Parseable(Get(q, "pids")) then Some(BadTune)
      else if |MuxesInUse(l.sessions) + {mux.id}| > |l.slots| then Some(NoTuner)
      else None
  }

  /** Why a tune that found its service is refused before allocation. */
  function Blocked(s: Scenario, service: Service, mux: Mux): Option<LabError> {
    if s.name == NoSignal && AppliesTo(s, service, mux) then Some(Signal)
    else if s.name == TunerWedged then Some(Wedged)
    else if s.name == TunerBusy then Some(NoTuner)
    else None
  }

  /** Which scenario refuses with which error, and what is refused without one. */
  lemma RefusedExactly(c: Catalog, l: Lab, s: Scenario, q: Query)
    requires MatchService(c, q).Found?
    ensures var service, mux, e := MatchService(c, q).service, MatchService(c, q).mux, Refusal(c, l, s, q);
            var hit := (s.serviceID == "" || s.serviceID == service.id) && (s.muxID == "" || s.muxID == mux.id);
            var barred := s.name == TunerWedged || s.name == TunerBusy || (s.name == NoSignal && hit);
            var fits := |MuxesInUse(l.sessions) + {mux.id}| <= |l.slots|;
            && (e == Some(Signal) <==> s.name == NoSignal && hit)
            && (e == Some(Wedged) <==> s.name == TunerWedged)
            && (e == Some(NoTuner) <==> s.name == TunerBusy || (!barred && Parseable(Get(q, "pids")) && !fits))
            && (e == Some(BadTune) <==> !barred && !Parseable(Get(q, "pids")))
            && (e == None <==> !barred && Parseable(Get(q, "pids")) && fits)
  {
    hide MatchService, Parseable, MuxesInUse;
  }

  function TuneTo(s: Slot, muxID: string, now: Time): Slot {
    if s.tuned then s else s.(tuned := true, muxID := muxID, tuneStartedAt := now)
  }

  predicate IsFreshSession(x: Session, id: string, service: Service, mux: Mux, client: string, now: Time) {
    x.id == id && x.state == SetUp && x.serviceID == service.id && x.muxID == mux.id && x.client == client
    && x.createdAt == x.updatedAt == now
  }

  const NO_CHANGE := PidChange(None, None, None)

  function UpdateError(sessions: Sessions, id: string, change: PidChange): Option<LabError> {
    if change == NO_CHANGE then None
    else if id !in sessions then Some(NoSession)
    else if Updated(Denotes(sessions[id].pids), ChangeOf(change)) == None then Some(BadTune)
    else None
  }

  /** The sessions a pass at `now` expires. */
  function Stale(sessions: Sessions, now: Time, timeout: int): set<string> {
    set id | id in sessions && 0 < timeout < now - sessions[id].updatedAt
  }

  /** The frontend a status poll at `now` must show when it is the last of
      `polls`: a function of sessions, script, clock and those polls. */
  function Shown(c: Catalog, sessions: Sessions, slot: Slot, script: Script, polls: seq<Time>, now: Time): Frontend {
    var (s, t) := ScriptAt(script, now);
    FrontendOf(c, sessions, slot, s, Noticed(script, polls).1, t, now)
  }

  class Manager {
    const catalog: Catalog
    var tuners: seq<Tuner>
    var sessions: Sessions
    var scenario: Scenario
    var scenarioChangedAt: Time
    var timeline: Option<Timeline>
    ghost var polls: seq<Time> // the polls since the script was set

    function View(): Lab
      reads this
    {
      Lab(SlotsOf(tuners), sessions)
    }

    function Playbill(): Script
      reads this
    {
      if timeline == None then Fixed(scenario, scenarioChangedAt)
          else Timed(timeline.value.startedAt, timeline.value.steps)
    }

    ghost predicate Valid()
      reads this
    {
      && tuners != []
      && Consistent(View().slots, sessions)
      && (timeline.Some? ==> OnStep(scenario, timeline.value) && Watched())
      && ListsKept(catalog, sessions)
      && IdleShowsIdle(tuners)
    }

    /** Step and moment are those the polls so far noticed. */
    ghost predicate Watched()
      reads this
    {
      timeline.Some? && (timeline.value.stepIndex, scenarioChangedAt) == Noticed(Playbill(), polls)
    }

    constructor (catalog: Catalog, tunerCount: int, now: Time)
      ensures Valid() && this.catalog == catalog
      ensures View() == Run(if tunerCount <= 0 then 1 else tunerCount, [])
      ensures Playbill() == Fixed(NORMAL, now) && polls == []
      ensures scenario == Scenario(Normal, "", "", 0, None)
    {
      var n: nat := if tunerCount <= 0 then 1 else tunerCount;
      IdleConsistent(n);
      this.catalog := catalog;
      tuners := seq(n, i requires 0 <= i < n => Tuner(IdleSlot(i + 1), IDLE));
      sessions := map[];
      scenario := NORMAL;
      scenarioChangedAt := now;
      timeline := None;
      polls := [];
      new;
      assert View().slots == IdleSlots(n);
    }

    lemma ViewConsistent()
      requires Valid()
      ensures Consistent(View().slots, View().sessions)
    {
    }

    // ---------- frontends

    /** Every tuner shows what its sessions, the scenario and the clock say. */
    ghost predicate Fresh(now: Time)
      reads this
    {
      forall i :: 0 <= i < |tuners| ==>
        tuners[i].frontend == FrontendOf(catalog, sessions, tuners[i].slot, scenario, scenarioChangedAt, timeline, now)
    }

    method RecomputeTuner(k: nat, now: Time)
      requires k < |tuners| && IdleShowsIdle(tuners)
      modifies this`tuners
      ensures |tuners| == |old(tuners)|
      ensures tuners == old(tuners)[k := Tuner(old(tuners[k].slot),
                FrontendOf(catalog, sessions, old(tuners[k].slot), scenario, scenarioChangedAt, timeline, now))]
      ensures SlotsOf(tuners) == old(SlotsOf(tuners)) && IdleShowsIdle(tuners)
    {
      var frontend := RecomputeFrontend(catalog, sessions, tuners[k].slot, scenario, scenarioChangedAt, timeline, now);
      tuners := tuners[k := Tuner(tuners[k].slot, frontend)];
    }

    method RecomputeAll(now: Time)
      requires IdleShowsIdle(tuners)
      modifies this`tuners
      ensures SlotsOf(tuners) == old(SlotsOf(tuners)) && IdleShowsIdle(tuners) && Fresh(now)
    {
      hide FrontendOf, IdleShowsIdle;
      ghost var n := |tuners|;
      for k := 0 to |tuners|
        invariant |tuners| == n && SlotsOf(tuners) == old(SlotsOf(tuners)) && IdleShowsIdle(tuners)
        invariant forall i :: 0 <= i < k ==>
          tuners[i].frontend == FrontendOf(catalog, sessions, tuners[i].slot, scenario, scenarioChangedAt, timeline,
              now)
      {
        RecomputeTuner(k, now);
      }
    }

    // ---------- polling

    /** `scenarioAtLocked`: moves to the reached step and answers with it. What it
        answers depends on the script and the clock, on no earlier poll. */
    method ScenarioAt(now: Time) returns (s: Scenario)
      requires Valid()
      modifies this`tuners, this`scenario, this`scenarioChangedAt, this`timeline, this`polls
      ensures Valid()
      ensures s == ScriptAt(Playbill(), now).0 && timeline == ScriptAt(Playbill(), now).1
      ensures Playbill() == old(Playbill()) && View() == old(View())
      ensures timeline == old(timeline) ==>
                scenario == old(scenario) && scenarioChangedAt == old(scenarioChangedAt) && tuners == old(tuners)
      ensures timeline.Some? == old(timeline).Some?
      ensures timeline.Some? ==>
                && Plays(timeline.value, s, now) && Plays(timeline.value, scenario, now)
                && s.timeline == Some(TimelineStatus(true, timeline.value.stepIndex,
                                  if now < timeline.value.startedAt then 0
                                  else (now - timeline.value.startedAt) / 1_000_000, timeline.value.steps))
                && (timeline != old(timeline) ==> scenarioChangedAt == now)
      ensures timeline == None ==> s == scenario
      ensures polls == old(polls) + [now]
    {
      hide Consistent, ListsKept, Scan, FrontendOf, IdleShowsIdle, Noticed, Plays;
      NoticedNext(Playbill(), polls, now);
      if timeline.Some? {
        AnswerPlays(timeline.value, now);
      }
      polls := polls + [now];
      if timeline == None {
        return scenario;
      }
      var t := timeline.value;
      var elapsed := Elapsed(t.startedAt, now);
      var stepIndex := ScanSteps(t.steps, elapsed, t.stepIndex);
      AnswerStep(t, now);
      if stepIndex != t.stepIndex {
        timeline := Some(t.(stepIndex := stepIndex));
        scenario := FromStep(t.steps[stepIndex]);
        scenarioChangedAt := now;
        RecomputeAll(now);
      }
      s := scenario.(timeline := Some(TimelineStatus(true, stepIndex, elapsed, t.steps)));
      PlaysAnyStatus(timeline.value, scenario, s.timeline, now);
    }

    /** After a status poll every tuner displays what its sessions, the scenario in
        force and the clock demand, and that is a function of sessions, script and
        clock, and of when the polls of a timeline took place. */
    method StatusAt(now: Time)
      requires Valid()
      modifies this`tuners, this`scenario, this`scenarioChangedAt, this`timeline, this`polls
      ensures Valid() && Playbill() == old(Playbill()) && View() == old(View()) && polls == old(polls) + [now]
      ensures timeline == ScriptAt(Playbill(), now).1
      ensures forall i :: 0 <= i < |tuners| ==>
          tuners[i].frontend == Shown(catalog, sessions, tuners[i].slot, Playbill(), polls, now)
      ensures forall i :: 0 <= i < |tuners| ==>
          Displays(catalog, sessions, tuners[i].slot, scenario, scenarioChangedAt, timeline, now, tuners[i].frontend)
      ensures timeline.Some? == old(timeline).Some?
      ensures timeline == None ==> scenario == old(scenario) && scenarioChangedAt == old(scenarioChangedAt)
      ensures timeline.Some? ==>
                && Plays(timeline.value, scenario, now)
                && scenarioChangedAt == if timeline == old(timeline) then old(scenarioChangedAt) else now
    {
      hide Consistent, ListsKept, FrontendOf, IdleShowsIdle, OnStep, ScriptAt, Shown, Displays;
      var s := ScenarioAt(now);
      RecomputeAll(now);
      forall i | 0 <= i < |tuners|
        ensures tuners[i].frontend == Shown(catalog, sessions, tuners[i].slot, Playbill(), polls, now)
        ensures Displays(catalog, sessions, tuners[i].slot, scenario, scenarioChangedAt, timeline, now,
                         tuners[i].frontend)
      {
        FrontendDisplayed(catalog, sessions, tuners[i].slot, scenario, scenarioChangedAt, timeline, now);
        InForce(scenario, timeline, Playbill(), now);
        AnswerShown(catalog, sessions, tuners[i].slot, scenario, scenarioChangedAt, timeline, Playbill(), polls, now);
      }
    }

    // ---------- sessions

    /** The tuner on the mux, else the first idle one, which is then tuned. */
    method AllocateTuner(muxID: string, now: Time) returns (k: Option<nat>)
      requires IdleShowsIdle(tuners)
      modifies this`tuners
      ensures IdleShowsIdle(tuners)
      ensures k == Chosen(old(SlotsOf(tuners)), muxID)
      ensures |tuners| == |old(tuners)|
      ensures k == None ==> tuners == old(tuners)
      ensures k.Some? ==> tuners == old(tuners)[
                k.value := Tuner(TuneTo(old(tuners[k.value].slot), muxID, now), old(tuners[k.value].frontend))]
    {
      ghost var slots := SlotsOf(tuners);
      for i := 0 to |tuners|
        invariant tuners == old(tuners)
        invariant FindTuned(slots[..i], muxID) == None
      {
        assert slots[..i + 1][..i] == slots[..i];
        if tuners[i].slot.tuned && tuners[i].slot.muxID == muxID {
          FoundTuned(slots, muxID, i);
          return Some(i);
        }
      }
      assert slots[..|slots|] == slots;
      for i := 0 to |tuners|
        invariant tuners == old(tuners)
        invariant FindIdle(slots[..i]) == None
      {
        assert slots[..i + 1][..i] == slots[..i];
        if !tuners[i].slot.tuned {
          FoundIdle(slots, i);
          tuners := tuners[i :=
              tuners[i].(slot := tuners[i].slot.(tuned := true, muxID := muxID, tuneStartedAt := now))];
          return Some(i);
        }
      }
      assert slots[..|slots|] == slots;
      return None;
    }

    /** Admission is exact: a SETUP with a fresh id succeeds iff the tune resolves,
        no scenario blocks it, its PIDs parse and its mux fits beside those in
        use. A refused one changes no session and no allocation. */
    method Setup(id: string, q: Query, client: string, now: Time) returns (r: SetupResult)
      requires Valid() && id !in sessions
      modifies this`tuners, this`sessions, this`scenario, this`scenarioChangedAt, this`timeline, this`polls
      ensures Valid() && Playbill() == old(Playbill())
      ensures polls == if MatchService(catalog, q).Found? then old(polls) + [now] else old(polls)
      ensures var refusal := Refusal(catalog, old(View()), ScriptAt(Playbill(), now).0, q);
              if refusal.Some? then r == Refused(refusal.value) && View() == old(View())
              else
                && r.Ready? && View() == React(old(View()), Arrive(r.session, now))
                && sessions == old(sessions)[id := r.session]
                && Found(r.service, r.mux) == MatchService(catalog, q)
                && IsFreshSession(r.session, id, r.service, r.mux, client, now)
                && Requested(r.session.pids, Get(q, "pids"), r.service)
    {
      hide Consistent, ListsKept, FrontendOf, IdleShowsIdle, OnStep, ScriptAt, Chosen, Canonical, Seat, MuxesInUse,
          MatchService, Requested;
      var match_ := MatchService(catalog, q);
      if match_.Failed? {
        return Refused(if match_.error == InvalidTune then BadTune else NoService);
      }
      var service, mux := match_.service, match_.mux;
      FoundKnown(catalog, q);
      var active := ScenarioAt(now);
      if active.name == NoSignal && AppliesTo(active, service, mux) {
        return Refused(Signal);
      }
      if active.name == TunerWedged {
        return Refused(Wedged);
      }
      if active.name == TunerBusy {
        return Refused(NoTuner);
      }
      var pids := RequestedPids(Get(q, "pids"), service);
      if pids == None {
        return Refused(BadTune);
      }
      var session := Admit(Session(id, SetUp, 0, service.id, mux.id, pids.value, client, now, now), now);
      if session == None {
        return Refused(NoTuner);
      }
      return Ready(session.value, service, mux);
    }

    /** The part of a SETUP that allocates: the mux fits or nothing changes. */
    method Admit(wanted: Session, now: Time) returns (r: Option<Session>)
      requires Valid() && wanted.id !in sessions && ListKept(catalog, wanted.pids)
      modifies this`tuners, this`sessions
      ensures Valid()
      ensures r.Some? <==> |MuxesInUse(old(sessions)) + {wanted.muxID}| <= |old(View()).slots|
      ensures r == None ==> View() == old(View())
      ensures r.Some? ==>
                          && sessions == old(sessions)[wanted.id := r.value]
                          && View() == React(old(View()), Arrive(r.value, now))
                          && r.value == wanted.(tunerID := r.value.tunerID)
    {
      hide Consistent, FrontendOf, IdleShowsIdle, OnStep, Chosen, MuxesInUse, ListKept;
      AdmissionExact(View().slots, sessions, wanted.muxID);
      var k := AllocateTuner(wanted.muxID, now);
      if k == None {
        return None;
      }
      var session := wanted.(tunerID := k.value + 1);
      SeatConsistent(old(View()).slots, old(sessions), session, now);
      sessions := sessions[session.id := session];
      AddSession(k.value, session.id);
      RecomputeTuner(k.value, now);
      ChosenFits(old(View()).slots, session.muxID);
      assert View().slots == Seat(old(View()).slots, k.value, session.muxID, session.id, now);
      return Some(session);
    }

    method RequestedPids(raw: string, service: Service) returns (r: Option<PidList>)
      requires service in catalog.services
      ensures r.Some? <==> Parseable(raw)
      ensures r.Some? ==> Requested(r.value, raw, service) && ListKept(catalog, r.value)
    {
      hide Parseable, Sort, Ascending, Meaning;
      if raw == "" {
        EmptyParses();
        return Some(PidList(DefaultPids(service), false));
      }
      r := ParsePidList(raw);
      if r.Some? {
        AscendingNoDuplicates(r.value.pids);
      }
    }

    /** `addSessionToTunerLocked`. */
    method AddSession(k: nat, id: string)
      requires k < |tuners| && tuners[k].slot.tuned && IdleShowsIdle(tuners)
      modifies this`tuners
      ensures tuners == old(tuners)[
                k := old(tuners[k]).(slot := old(tuners[k].slot).(sessions := old(tuners[k].slot.sessions) + [id]))]
      ensures IdleShowsIdle(tuners)
    {
      tuners := tuners[k := tuners[k].(slot := tuners[k].slot.(sessions := tuners[k].slot.sessions + [id]))];
    }

    method Play(id: string, now: Time) returns (ok: bool)
      requires Valid()
      modifies this`sessions
      ensures Valid() && ok == (id in old(sessions))
      ensures View() == if ok then React(old(View()), Amend(id, Playing, old(sessions[id].pids), now)) else old(View())
      ensures ok ==> sessions == old(sessions)[id := old(sessions[id]).(state := Playing, updatedAt := now)]
    {
      hide Consistent, FrontendOf, IdleShowsIdle, OnStep, Listed;
      if id !in sessions {
        return false;
      }
      var session := sessions[id].(state := SessionState.Playing, updatedAt := now);
      AmendConsistent(View().slots, sessions, id, session);
      sessions := sessions[id := session];
      return true;
    }

    method Pause(id: string, now: Time) returns (ok: bool)
      requires Valid()
      modifies this`sessions
      ensures Valid() && ok == (id in old(sessions))
      ensures View() == if ok then React(old(View()), Amend(id, Paused, old(sessions[id].pids), now)) else old(View())
      ensures ok ==> sessions == old(sessions)[id := old(sessions[id]).(state := Paused, updatedAt := now)]
    {
      hide Consistent, FrontendOf, IdleShowsIdle, OnStep, Listed;
      if id !in sessions {
        return false;
      }
      var session := sessions[id].(state := Paused, updatedAt := now);
      AmendConsistent(View().slots, sessions, id, session);
      sessions := sessions[id := session];
      return true;
    }

    method Touch(id: string, now: Time) returns (ok: bool)
      requires Valid()
      modifies this`sessions
      ensures Valid() && ok == (id in old(sessions))
      ensures View() == if ok then React(old(View()), Amend(id, old(sessions[id].state), old(sessions[id].pids), now))
          else old(View())
      ensures ok ==> sessions == old(sessions)[id := old(sessions[id]).(updatedAt := now)]
    {
      hide Consistent, FrontendOf, IdleShowsIdle, OnStep, Listed;
      if id !in sessions {
        return false;
      }
      var session := sessions[id].(updatedAt := now);
      AmendConsistent(View().slots, sessions, id, session);
      sessions := sessions[id := session];
      return true;
    }

    /** The session's list becomes what the set algebra says, sorted and without
        duplicates; a refused change leaves the session untouched. */
    method UpdatePIDs(id: string, change: PidChange, now: Time) returns (error: Option<LabError>)
      requires Valid()
      modifies this`sessions
      ensures Valid()
      ensures error == UpdateError(old(sessions), id, change)
      ensures error.Some? || change == NO_CHANGE ==> View() == old(View())
      ensures error == None && change != NO_CHANGE ==>
                && id in sessions
                && View() == React(old(View()), Amend(id, old(sessions[id].state), sessions[id].pids, now))
                && sessions == old(sessions)[id := old(sessions[id]).(pids := sessions[id].pids, updatedAt := now)]
                && Some(Denotes(sessions[id].pids)) == Updated(Denotes(old(sessions[id].pids)), ChangeOf(change))
                && (PidsApart(catalog) ==> Canonical(sessions[id].pids))
    {
      hide Consistent, FrontendOf, IdleShowsIdle, OnStep, Listed, Canonical, Updated, Denotes, PidsApart;
      if change.pids == None && change.addpids == None && change.delpids == None {
        return None;
      }
      if id !in sessions {
        return Some(NoSession);
      }
      assert ListKept(catalog, sessions[id].pids);
      var next := UpdateList(sessions[id].pids, ChangeOf(change));
      if next == None {
        return Some(BadTune);
      }
      CanonicalListed(next.value);
      var session := sessions[id].(pids := next.value, updatedAt := now);
      AmendConsistent(View().slots, sessions, id, session);
      sessions := sessions[id := session];
      return None;
    }

    /** `removeSessionFromTunerLocked`. */
    method LeaveTuner(tunerID: int, id: string, now: Time)
      requires SlotsOk(SlotsOf(tuners)) && 1 <= tunerID <= |tuners| && IdleShowsIdle(tuners)
      modifies this`tuners
      ensures |tuners| == |old(tuners)| && IdleShowsIdle(tuners)
      ensures SlotsOf(tuners)
           == old(SlotsOf(tuners))[tunerID - 1 := Vacate(old(SlotsOf(tuners))[tunerID - 1], {id})]
    {
      hide Without, FrontendOf;
      ghost var slots := SlotsOf(tuners);
      var i := 0;
      assert forall j :: 0 <= j < |slots| ==> SlotOk(slots[j], j + 1);
      while tuners[i].slot.id != tunerID
        invariant 0 <= i <= tunerID - 1
      {
        i := i + 1;
      }
      var kept := Filtered(tuners[i].slot.sessions, id);
      if kept == [] {
        tuners := tuners[i := Tuner(IdleSlot(tuners[i].slot.id), IDLE)];
        WithoutNothing({id});
      } else {
        WithoutNothing({id});
        tuners := tuners[i := tuners[i].(slot := tuners[i].slot.(sessions := kept))];
        RecomputeTuner(i, now);
      }
    }

    method Teardown(id: string, now: Time)
      requires Valid()
      modifies this`tuners, this`sessions
      ensures Valid()
      ensures View() == if id in old(sessions) then React(old(View()), Leave({id})) else old(View())
    {
      hide FrontendOf, IdleShowsIdle, OnStep, ListKept, Vacate, ListedLive, LiveListed, MuxesApart, SlotsOk;
      if id !in sessions {
        return;
      }
      VacateConsistent(View().slots, sessions, {id});
      VacateOne(View().slots, sessions, id);
      var session := sessions[id];
      sessions := sessions - {id};
      LeaveTuner(session.tunerID, id, now);
    }

    /** One more session leaves after some have. */
    method ExpireOne(id: string, clock: Time, ghost before: Lab, ghost expired: set<string>)
      requires Valid() && id in sessions && Consistent(before.slots, before.sessions)
      requires View() == React(before, Leave(expired))
      modifies this`tuners, this`sessions
      ensures Valid() && sessions == old(sessions) - {id}
      ensures View() == React(before, Leave(expired + {id}))
    {
      hide Valid, Consistent, React;
      LeaveTwice(before, expired, {id});
      LeftSessions(View(), {id});
      Teardown(id, clock);
    }

    /** The sessions idle for longer than the timeout leave, whatever the order
        the map is walked in; no other session notices. */
    method ExpireSessions(now: Time, timeout: int, clock: Time) returns (expired: set<string>)
      requires Valid()
      modifies this`tuners, this`sessions
      ensures Valid()
      ensures expired == Stale(old(sessions), now, timeout)
      ensures View() == React(old(View()), Leave(expired))
    {
      hide Valid, Consistent, React, Stale;
      expired := {};
      ViewConsistent();
      NoneStale(sessions, now, timeout);
      LeaveStrangers(View(), {});
      if timeout <= 0 {
        return;
      }
      var rest := sessions.Keys;
      while rest != {}
        invariant Valid() && rest <= sessions.Keys && sessions == old(sessions) - expired
        invariant expired == Stale(old(sessions), now, timeout) - rest
        invariant View() == React(old(View()), Leave(expired))
        decreases |rest|
      {
        var id :| id in rest;
        OneStale(old(sessions), now, timeout, rest, id);
        rest := rest - {id};
        if now - sessions[id].updatedAt > timeout {
          ExpireOne(id, clock, old(View()), expired);
          expired := expired + {id};
        }
      }
    }

    /** Ends every session. */
    method Reset()
      requires Valid()
      modifies this`tuners, this`sessions, this`scenario, this`timeline
      ensures Valid() && View() == React(old(View()), Clear)
      ensures Playbill() == AfterReset(old(Playbill()))
    {
      hide FrontendOf, Noticed;
      sessions := map[];
      IdleAll();
      IdleConsistent(|tuners|);
      if scenario.name == TunerWedged {
        timeline := None;
        scenario := NORMAL;
      }
    }

    method IdleAll()
      requires SlotsOk(SlotsOf(tuners))
      modifies this`tuners
      ensures SlotsOf(tuners) == IdleSlots(|old(tuners)|) && IdleShowsIdle(tuners)
    {
      ghost var n := |tuners|;
      ghost var slots := SlotsOf(tuners);
      assert forall i :: 0 <= i < n ==> SlotOk(slots[i], i + 1);
      for i := 0 to |tuners|
        invariant |tuners| == n && (forall j :: i <= j < n ==> tuners[j].slot == slots[j])
        invariant forall j :: 0 <= j < i ==> tuners[j] == Tuner(IdleSlot(j + 1), IDLE)
      {
        tuners := tuners[i := Tuner(IdleSlot(tuners[i].slot.id), IDLE)];
      }
      assert SlotsOf(tuners) == IdleSlots(n);
    }

    // ---------- scenarios

    method SetScenarioOptions(n: Name, serviceID: string, muxID: string, durationMin: int, now: Time) returns (ok: bool)
      requires Valid()
      modifies this`tuners, this`scenario, this`scenarioChangedAt, this`timeline, this`polls
      ensures Valid() && View() == old(View())
      ensures ok == Targeted(catalog, n, serviceID, muxID, durationMin)
      ensures Playbill() == if ok then Fixed(Scenario(n, serviceID, muxID, durationMin, None), now) else old(Playbill())
      ensures polls == (if ok then [] else old(polls)) && (ok ==> Fresh(now))
    {
      hide Consistent, ListsKept, FrontendOf, IdleShowsIdle, OnStep, ScriptAt;
      if !Targeted(catalog, n, serviceID, muxID, durationMin) {
        return false;
      }
      var _ := ScenarioAt(now);
      scenario := Scenario(n, serviceID, muxID, durationMin, None);
      scenarioChangedAt := now;
      timeline := None;
      polls := [];
      RecomputeAll(now);
      return true;
    }

    method SetScenarioTimeline(steps: seq<Step>, now: Time) returns (ok: bool)
      requires Valid()
      modifies this`tuners, this`scenario, this`scenarioChangedAt, this`timeline, this`polls
      ensures Valid() && View() == old(View())
      ensures ok == ValidSteps(catalog, steps)
      ensures Playbill() == if ok then Timed(now, steps) else old(Playbill())
      ensures polls == (if ok then [] else old(polls)) && (ok ==> Fresh(now))
    {
      hide Consistent, ListsKept, FrontendOf, IdleShowsIdle;
      ok := ValidateSteps(catalog, steps);
      if !ok {
        return;
      }
      timeline := Some(Timeline(now, 0, steps));
      polls := [];
      scenario := FromStep(steps[0]).(timeline := Some(TimelineStatus(true, 0, 0, steps)));
      scenarioChangedAt := now;
      RecomputeAll(now);
    }
  }

  lemma {:induction false} FoundTuned(slots: seq<Slot>, muxID: string, i: nat)
    requires i < |slots| && FindTuned(slots[..i], muxID) == None && slots[i].tuned && slots[i].muxID == muxID
    ensures FindTuned(slots, muxID) == Some(i)
    decreases |slots|
  {
    if i == |slots| - 1 {
    } else {
      var init := slots[..|slots| - 1];
      assert init[..i] == slots[..i];
      FoundTuned(init, muxID, i);
    }
  }

  lemma {:induction false} FoundIdle(slots: seq<Slot>, i: nat)
    requires i < |slots| && FindIdle(slots[..i]) == None && !slots[i].tuned
    ensures FindIdle(slots) == Some(i)
    decreases |slots|
  {
    if i < |slots| - 1 {
      var init := slots[..|slots| - 1];
      assert init[..i] == slots[..i];
      FoundIdle(init, i);
    }
  }

  method ScanSteps(steps: seq<Step>, elapsed: int, index: nat) returns (r: nat)
    ensures r == Scan(steps, elapsed, index)
  {
    r := index;
    for i := 0 to |steps|
      invariant r == Scan(steps[..i], elapsed, index)
    {
      assert steps[..i + 1][..i] == steps[..i];
      if steps[i].atMS <= elapsed {
        r := i;
      }
    }
    assert steps[..|steps|] == steps;
  }

  /** Whatever index a scan starts from, it ends with the answered step. */
  lemma AnswerStep(t: Timeline, now: Time)
    requires Increasing(t.steps)
    ensures forall index: nat :: Scan(t.steps, Elapsed(t.startedAt, now), index) == StepNow(t, now)
    ensures StepNow(t, now) < |t.steps|
  {
    var elapsed := Elapsed(t.startedAt, now);
    ScanReaches(t.steps, elapsed, 0);
    forall index: nat
      ensures Scan(t.steps, elapsed, index) == StepNow(t, now)
    {
      ScanReaches(t.steps, elapsed, index);
      ReachedUnique(t.steps, elapsed, Scan(t.steps, elapsed, index), StepNow(t, now));
    }
  }

  /** The stored scenario is the answer, but for the timeline report. */
  lemma InForce(s: Scenario, t: Option<Timeline>, script: Script, now: Time)
    requires t.Some? ==> OnStep(s, t.value)
    requires if t == None then script.Fixed? && script.scenario == s
        else script == Timed(t.value.startedAt, t.value.steps)
    requires t == ScriptAt(script, now).1
    ensures s.(timeline := None) == ScriptAt(script, now).0.(timeline := None)
  {
    hide Scan;
  }

  lemma StatusIgnored(c: Catalog, sessions: Sessions, ids: seq<string>, a: Scenario, b: Scenario)
    requires a.(timeline := None) == b.(timeline := None)
    ensures AppliesToSome(c, sessions, ids, a) == AppliesToSome(c, sessions, ids, b)
  {
    assert forall id :: AppliesToSession(c, sessions, id, a) == AppliesToSession(c, sessions, id, b);
  }

  lemma AnswerShown(c: Catalog, sessions: Sessions, slot: Slot, s: Scenario, changedAt: Time, t: Option<Timeline>,
                    script: Script, polls: seq<Time>, now: Time)
    requires t == ScriptAt(script, now).1 && s.(timeline := None) == ScriptAt(script, now).0.(timeline := None)
    requires changedAt == Noticed(script, polls).1
    ensures FrontendOf(c, sessions, slot, s, changedAt, t, now) == Shown(c, sessions, slot, script, polls, now)
  {
    hide ScriptAt, AppliesToSome, TimelineRecovery, Noticed;
    StatusIgnored(c, sessions, slot.sessions, s, ScriptAt(script, now).0);
  }

  lemma NoticedNext(script: Script, polls: seq<Time>, now: Time)
    ensures var (before, after) := (Noticed(script, polls), Noticed(script, polls + [now]));
            match script
            case Fixed(_, since) => after == before == (0, since)
            case Timed(startedAt, steps) =>
              var i := StepNow(Timeline(startedAt, 0, steps), now);
              after == if i == before.0 then before else (i, now)
  {
    hide StepNow;
    assert (polls + [now])[..|polls|] == polls;
  }

  method Filtered(ids: seq<string>, id: string) returns (kept: seq<string>)
    ensures kept == Without(ids, {id})
  {
    kept := [];
    for i := 0 to |ids|
      invariant kept == Without(ids[..i], {id})
    {
      assert ids[..i + 1][..i] == ids[..i];
      if ids[i] != id {
        kept := kept + [ids[i]];
      }
    }
    assert ids[..|ids|] == ids;
  }

  lemma FoundKnown(c: Catalog, q: Query)
    ensures MatchService(c, q).Found? ==> MatchService(c, q).service in c.services
  {
    hide FirstService, TunedTo;
    if !MatchService(c, q).Failed? {
      FoundFrom(c, q, 0);
    }
  }

  lemma {:induction false} FoundFrom(c: Catalog, q: Query, k: nat)
    requires k <= |c.muxes|
    ensures MatchFrom(c, q, k).Found? ==> MatchFrom(c, q, k).service in c.services
    decreases |c.muxes| - k
  {
    hide FirstService, TunedTo;
    if k < |c.muxes| {
      FoundFrom(c, q, k + 1);
    }
  }

  lemma ChosenFits(slots: seq<Slot>, muxID: string)
    ensures var k := Chosen(slots, muxID); k.Some? && slots[k.value].tuned ==> slots[k.value].muxID == muxID
  {
    hide FindTuned, FindIdle;
  }

  lemma NoneStale(sessions: Sessions, now: Time, timeout: int)
    ensures Stale(sessions, now, timeout) <= sessions.Keys && sessions - {} == sessions
    ensures timeout <= 0 ==> Stale(sessions, now, timeout) == {}
  {
  }

  /** One session considered: what has expired by then, and what that leaves. */
  lemma OneStale(sessions: Sessions, now: Time, timeout: int, rest: set<string>, id: string)
    requires id in rest && rest <= sessions.Keys && timeout > 0
    ensures var (stale, expired) := (Stale(sessions, now, timeout), Stale(sessions, now, timeout) - rest);
            && id !in expired
            && (now - sessions[id].updatedAt > timeout ==>
                  stale - (rest - {id}) == expired + {id} && (sessions - expired) - {id} == sessions - (expired + {id}))
            && (now - sessions[id].updatedAt <= timeout ==> stale - (rest - {id}) == expired)
  {
  }

  lemma LeftSessions(l: Lab, gone: set<string>)
    ensures React(l, Leave(gone)).sessions == l.sessions - gone
  {
  }

  lemma CanonicalListed(l: PidList)
    ensures Canonical(l) ==> Listed(l)
  {
  }
}
