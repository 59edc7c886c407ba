/** The tuner allocator: which session sits on which tuner, and when another
    mux still fits. */
module Allocation {
  import opened Bytes
  import opened Pids
  import opened Scenarios

  datatype SessionState = SetUp | Playing | Paused

  datatype Session = Session(
    id: string, state: SessionState, tunerID: int, serviceID: string, muxID: string, pids: PidList, client: string,
    createdAt: Time, updatedAt: Time)

  type Sessions = map<string, Session>

  /** The allocation part of a tuner. */
  datatype Slot = Slot(id: int, tuned: bool, muxID: string, sessions: seq<string>, tuneStartedAt: Time)

  function IdleSlot(id: int): Slot {
    Slot(id, false, "", [], ZERO_TIME)
  }

  // ---------- the operations

  /** The tuner already on `muxID`, else the first idle one. */
  function FindTuned(slots: seq<Slot>, muxID: string): (r: Option<nat>)
    ensures r.Some? ==> r.value < |slots| && slots[r.value].tuned && slots[r.value].muxID == muxID
    ensures r == None ==> forall i :: 0 <= i < |slots| ==> !(slots[i].tuned && slots[i].muxID == muxID)
  {
    if slots == [] then None
    else
      var init := FindTuned(slots[..|slots| - 1], muxID);
      var last := slots[|slots| - 1];
      if init.Some? then init else if last.tuned && last.muxID == muxID then Some(|slots| - 1) else None
  }

  function FindIdle(slots: seq<Slot>): (r: Option<nat>)
    ensures r.Some? ==> r.value < |slots| && !slots[r.value].tuned
    ensures r == None ==> forall i :: 0 <= i < |slots| ==> slots[i].tuned
  {
    if slots == [] then None
    else
      var init := FindIdle(slots[..|slots| - 1]);
      if init.Some? then init else if !slots[|slots| - 1].tuned then Some(|slots| - 1) else None
  }

  function Chosen(slots: seq<Slot>, muxID: string): (r: Option<nat>)
    ensures r.Some? ==> r.value < |slots|
  {
    if FindTuned(slots, muxID).Some? then FindTuned(slots, muxID) else FindIdle(slots)
  }

  /** The chosen tuner with one more session. */
  function Seat(slots: seq<Slot>, k: nat, muxID: string, id: string, now: Time): seq<Slot>
    requires k < |slots|
  {
    var s := slots[k];
    slots[k := Slot(s.id, true, muxID, s.sessions + [id], if s.tuned then s.tuneStartedAt else now)]
  }

  function Without(ids: seq<string>, gone: set<string>): seq<string> {
    if ids == [] then []
    else
      var init := Without(ids[..|ids| - 1], gone);
      if ids[|ids| - 1] in gone then init else init + [ids[|ids| - 1]]
  }

  /** A tuner after some sessions have left. */
  function Vacate(s: Slot, gone: set<string>): Slot {
    if s.tuned && Without(s.sessions, gone) == [] then IdleSlot(s.id) else s.(sessions := Without(s.sessions, gone))
  }

  function VacateAll(slots: seq<Slot>, gone: set<string>): (r: seq<Slot>)
    ensures |r| == |slots| && forall i :: 0 <= i < |r| ==> r[i] == Vacate(slots[i], gone)
  {
    seq(|slots|, i requires 0 <= i < |slots| => Vacate(slots[i], gone))
  }

  // ---------- the invariant

  predicate NoRepeats(ids: seq<string>) {
    forall i, j :: 0 <= i < j < |ids| ==> ids[i] != ids[j]
  }

  /** A tuner is idle iff it has no sessions, and then it has no mux. */
  predicate SlotOk(s: Slot, id: int) {
    && s.id == id
    && (s.tuned <==> s.sessions != [])
    && (!s.tuned ==> s == Slot(id, false, "", [], ZERO_TIME))
    && NoRepeats(s.sessions)
  }

  /** `id` sits on this tuner. */
  predicate SeatedOn(x: Session, s: Slot, id: string) {
    x.id == id && x.tunerID == s.id && x.muxID == s.muxID
  }

  predicate SlotsOk(slots: seq<Slot>) {
    forall i :: 0 <= i < |slots| ==> SlotOk(slots[i], i + 1)
  }

  predicate ListedLive(slots: seq<Slot>, sessions: Sessions) {
    forall i, k :: 0 <= i < |slots| && 0 <= k < |slots[i].sessions| ==>
      slots[i].sessions[k] in sessions && SeatedOn(sessions[slots[i].sessions[k]], slots[i], slots[i].sessions[k])
  }

  predicate LiveListed(slots: seq<Slot>, sessions: Sessions) {
    forall id :: id in sessions ==>
        1 <= sessions[id].tunerID <= |slots| && id in slots[sessions[id].tunerID - 1].sessions
  }

  /** Tuners and sessions agree: each session is listed exactly once, on its own
      tuner and that tuner's mux, and no two tuned tuners share a mux. */
  predicate Consistent(slots: seq<Slot>, sessions: Sessions) {
    SlotsOk(slots) && ListedLive(slots, sessions) && LiveListed(slots, sessions) && MuxesApart(slots)
  }

  predicate MuxesApart(slots: seq<Slot>) {
    forall i, j :: 0 <= i < j < |slots| && slots[i].tuned && slots[j].tuned ==> slots[i].muxID != slots[j].muxID
  }

  lemma WithoutMembers(ids: seq<string>, gone: set<string>, id: string)
    ensures id in Without(ids, gone) <==> id in ids && id !in gone
  {
    if ids != [] {
      WithoutMembers(ids[..|ids| - 1], gone, id);
      assert ids == ids[..|ids| - 1] + [ids[|ids| - 1]];
    }
  }

  lemma {:induction false} WithoutNoRepeats(ids: seq<string>, gone: set<string>)
    requires NoRepeats(ids)
    ensures NoRepeats(Without(ids, gone))
  {
    if ids != [] {
      var init := ids[..|ids| - 1];
      WithoutNoRepeats(init, gone);
      WithoutMembers(init, gone, ids[|ids| - 1]);
    }
  }

  // ---------- setting up keeps the invariant

  lemma SeatConsistent(slots: seq<Slot>, sessions: Sessions, x: Session, now: Time)
    requires Consistent(slots, sessions) && x.id !in sessions
    requires Chosen(slots, x.muxID).Some? && x.tunerID == Chosen(slots, x.muxID).value + 1
    ensures Consistent(Seat(slots, Chosen(slots, x.muxID).value, x.muxID, x.id, now), sessions[x.id := x])
  {
    var k := Chosen(slots, x.muxID).value;
    SeatSlots(slots, sessions, k, x, now);
    SeatListed(slots, sessions, k, x, now);
    SeatLive(slots, sessions, k, x, now);
    SeatApart(slots, x, now);
    hide SlotsOk, ListedLive, LiveListed, MuxesApart, Seat, Chosen;
  }

  lemma SeatSlots(slots: seq<Slot>, sessions: Sessions, k: nat, x: Session, now: Time)
    requires SlotsOk(slots) && ListedLive(slots, sessions) && x.id !in sessions && k < |slots|
    ensures SlotsOk(Seat(slots, k, x.muxID, x.id, now))
  {
    assert SlotOk(slots[k], k + 1);
    assert x.id !in slots[k].sessions;
  }

  lemma SeatListed(slots: seq<Slot>, sessions: Sessions, k: nat, x: Session, now: Time)
    requires ListedLive(slots, sessions) && SlotsOk(slots) && x.id !in sessions && k < |slots| && x.tunerID == k + 1
    requires slots[k].tuned ==> slots[k].muxID == x.muxID
    ensures ListedLive(Seat(slots, k, x.muxID, x.id, now), sessions[x.id := x])
  {
    assert SlotOk(slots[k], k + 1);
  }

  lemma SeatLive(slots: seq<Slot>, sessions: Sessions, k: nat, x: Session, now: Time)
    requires LiveListed(slots, sessions) && k < |slots| && x.tunerID == k + 1
    ensures LiveListed(Seat(slots, k, x.muxID, x.id, now), sessions[x.id := x])
  {
    assert Seat(slots, k, x.muxID, x.id, now)[k].sessions == slots[k].sessions + [x.id];
  }

  lemma SeatApart(slots: seq<Slot>, x: Session, now: Time)
    requires MuxesApart(slots) && Chosen(slots, x.muxID).Some?
    ensures MuxesApart(Seat(slots, Chosen(slots, x.muxID).value, x.muxID, x.id, now))
  {
    hide FindTuned, FindIdle;
  }

  /** Sessions leaving keeps the invariant, whichever they are. */
  lemma VacateConsistent(slots: seq<Slot>, sessions: Sessions, gone: set<string>)
    requires Consistent(slots, sessions)
    ensures Consistent(VacateAll(slots, gone), sessions - gone)
  {
    hide SlotsOk, ListedLive, LiveListed, MuxesApart;
    VacateSlots(slots, gone);
    VacateListed(slots, sessions, gone);
    VacateLive(slots, sessions, gone);
    VacateApart(slots, gone);
  }

  lemma VacateSlots(slots: seq<Slot>, gone: set<string>)
    requires SlotsOk(slots)
    ensures SlotsOk(VacateAll(slots, gone))
  {
    hide Without;
    forall i | 0 <= i < |slots|
      ensures SlotOk(VacateAll(slots, gone)[i], i + 1)
    {
      assert SlotOk(slots[i], i + 1);
      WithoutNoRepeats(slots[i].sessions, gone);
      WithoutNothing(gone);
    }
  }

  lemma VacateListed(slots: seq<Slot>, sessions: Sessions, gone: set<string>)
    requires ListedLive(slots, sessions)
    ensures ListedLive(VacateAll(slots, gone), sessions - gone)
  {
    hide Without;
    var r, left := VacateAll(slots, gone), sessions - gone;
    forall i, k | 0 <= i < |r| && 0 <= k < |r[i].sessions|
      ensures r[i].sessions[k] in left && SeatedOn(left[r[i].sessions[k]], r[i], r[i].sessions[k])
    {
      var id := r[i].sessions[k];
      assert id in Without(slots[i].sessions, gone);
      WithoutMembers(slots[i].sessions, gone, id);
    }
  }

  lemma VacateLive(slots: seq<Slot>, sessions: Sessions, gone: set<string>)
    requires LiveListed(slots, sessions)
    ensures LiveListed(VacateAll(slots, gone), sessions - gone)
  {
    hide Without;
    forall id | id in sessions - gone
      ensures id in VacateAll(slots, gone)[sessions[id].tunerID - 1].sessions
    {
      WithoutMembers(slots[sessions[id].tunerID - 1].sessions, gone, id);
    }
  }

  lemma VacateApart(slots: seq<Slot>, gone: set<string>)
    requires MuxesApart(slots)
    ensures MuxesApart(VacateAll(slots, gone))
  {
    hide Without;
  }

  lemma WithoutNothing(gone: set<string>)
    ensures Without([], gone) == []
  {
  }

  lemma {:induction false} WithoutTwice(ids: seq<string>, a: set<string>, b: set<string>)
    ensures Without(Without(ids, a), b) == Without(ids, a + b)
  {
    if ids != [] {
      WithoutTwice(ids[..|ids| - 1], a, b);
      var rest := Without(ids[..|ids| - 1], a);
      assert (rest + [ids[|ids| - 1]])[..|rest|] == rest;
    }
  }

  lemma VacateTwice(slots: seq<Slot>, a: set<string>, b: set<string>)
    requires SlotsOk(slots)
    ensures VacateAll(VacateAll(slots, a), b) == VacateAll(slots, a + b)
  {
    hide Without;
    assert forall i :: 0 <= i < |slots| ==> SlotOk(slots[i], i + 1);
    forall i | 0 <= i < |slots|
      ensures Vacate(Vacate(slots[i], a), b) == Vacate(slots[i], a + b)
    {
      WithoutTwice(slots[i].sessions, a, b);
      WithoutNothing(b);
      WithoutNothing(a + b);
    }
  }

  /** A session leaves its own tuner; the others do not notice. */
  lemma VacateOne(slots: seq<Slot>, sessions: Sessions, id: string)
    requires Consistent(slots, sessions) && id in sessions
    ensures var k := sessions[id].tunerID - 1;
            0 <= k < |slots| && VacateAll(slots, {id}) == slots[k := Vacate(slots[k], {id})]
  {
    hide Without;
    var k := sessions[id].tunerID - 1;
    forall i | 0 <= i < |slots| && i != k
      ensures Vacate(slots[i], {id}) == slots[i]
    {
      assert SlotOk(slots[i], i + 1);
      assert forall j :: 0 <= j < |slots[i].sessions| ==> slots[i].sessions[j] != id;
      WithoutAbsent(slots[i].sessions, {id});
    }
    assert VacateAll(slots, {id})[k] == Vacate(slots[k], {id});
  }

  lemma {:induction false} WithoutAbsent(ids: seq<string>, gone: set<string>)
    requires forall i :: 0 <= i < |ids| ==> ids[i] !in gone
    ensures Without(ids, gone) == ids
  {
    if ids != [] {
      WithoutAbsent(ids[..|ids| - 1], gone);
    }
  }

  // ---------- admission is exact

  function MuxesInUse(sessions: Sessions): set<string> {
    set id | id in sessions :: sessions[id].muxID
  }

  function TunedMuxes(slots: seq<Slot>): set<string> {
    if slots == [] then {}
    else TunedMuxes(slots[..|slots| - 1]) + if slots[|slots| - 1].tuned then {slots[|slots| - 1].muxID} else {}
  }

  lemma {:induction false} TunedMuxesAre(slots: seq<Slot>, m: string)
    ensures m in TunedMuxes(slots) <==> exists i :: 0 <= i < |slots| && slots[i].tuned && slots[i].muxID == m
  {
    if slots != [] {
      var init := slots[..|slots| - 1];
      TunedMuxesAre(init, m);
      if m in TunedMuxes(init) {
        var i :| 0 <= i < |init| && init[i].tuned && init[i].muxID == m;
        assert slots[i] == init[i];
      }
      if i :| 0 <= i < |slots| && slots[i].tuned && slots[i].muxID == m {
        assert i < |init| ==> init[i] == slots[i];
      }
    }
  }

  lemma {:induction false} TunedCount(slots: seq<Slot>)
    requires MuxesApart(slots)
    ensures |TunedMuxes(slots)| <= |slots|
    ensures |TunedMuxes(slots)| == |slots| <==> forall i :: 0 <= i < |slots| ==> slots[i].tuned
  {
    if slots != [] {
      var init, last := slots[..|slots| - 1], slots[|slots| - 1];
      TunedCount(init);
      if last.tuned {
        TunedMuxesAre(init, last.muxID);
      }
    }
  }

  lemma SeatedMuxes(slots: seq<Slot>, sessions: Sessions)
    requires Consistent(slots, sessions)
    ensures TunedMuxes(slots) == MuxesInUse(sessions)
  {
    forall m
      ensures m in TunedMuxes(slots) <==> m in MuxesInUse(sessions)
    {
      TunedMuxesAre(slots, m);
      if i :| 0 <= i < |slots| && slots[i].tuned && slots[i].muxID == m {
        assert SlotOk(slots[i], i + 1);
        var id := slots[i].sessions[0];
        assert id in sessions && sessions[id].muxID == m;
      }
      if m in MuxesInUse(sessions) {
        var id :| id in sessions && sessions[id].muxID == m;
        var i := sessions[id].tunerID - 1;
        assert SlotOk(slots[i], i + 1);
        var k :| 0 <= k < |slots[i].sessions| && slots[i].sessions[k] == id;
        assert SeatedOn(sessions[id], slots[i], id);
      }
    }
  }

  lemma AdmissionCounts(slots: seq<Slot>, m: string)
    requires MuxesApart(slots)
    ensures Chosen(slots, m).Some? <==> |TunedMuxes(slots) + {m}| <= |slots|
  {
    hide TunedMuxes, FindTuned, FindIdle;
    TunedCount(slots);
    TunedMuxesAre(slots, m);
    var used := TunedMuxes(slots);
    if m in used {
      assert used + {m} == used;
    } else {
      assert |used + {m}| == |used| + 1;
    }
  }

  /** A mux is admitted exactly when the muxes of the live sessions together
      with it are no more than the tuners. */
  lemma AdmissionExact(slots: seq<Slot>, sessions: Sessions, m: string)
    requires Consistent(slots, sessions)
    ensures Chosen(slots, m).Some? <==> |MuxesInUse(sessions) + {m}| <= |slots|
  {
    hide Consistent, TunedMuxes, MuxesInUse, Chosen;
    SeatedMuxes(slots, sessions);
    ConsistentApart(slots, sessions);
    AdmissionCounts(slots, m);
  }

  lemma ConsistentApart(slots: seq<Slot>, sessions: Sessions)
    requires Consistent(slots, sessions)
    ensures MuxesApart(slots)
  {
  }

  // ---------- runs

  /** What can happen to the allocation: a SETUP that tunes, sessions leaving by
      TEARDOWN, expiry or a lost connection, a session played, paused, touched or
      given other PIDs, and a reset. */
  datatype Event =
    | Arrive(session: Session, now: Time)
    | Leave(gone: set<string>)
    | Amend(id: string, state: SessionState, pids: PidList, updatedAt: Time)
    | Clear

  datatype Lab = Lab(slots: seq<Slot>, sessions: Sessions)

  function IdleSlots(n: nat): (r: seq<Slot>)
    ensures |r| == n && forall i :: 0 <= i < n ==> r[i] == IdleSlot(i + 1)
  {
    seq(n, i requires 0 <= i < n => IdleSlot(i + 1))
  }

  /** A refused arrival changes nothing. Session ids are never reused. */
  function React(l: Lab, e: Event): Lab {
    match e
    case Arrive(x, now) =>
      var k := Chosen(l.slots, x.muxID);
      if k == None || x.id in l.sessions then l
      else
        Lab(Seat(l.slots, k.value, x.muxID, x.id, now), l.sessions[x.id := x.(tunerID := k.value + 1)])
    case Leave(gone) => Lab(VacateAll(l.slots, gone), l.sessions - gone)
    case Amend(id, state, pids, updatedAt) =>
      if id !in l.sessions then l
      else l.(sessions := l.sessions[id := l.sessions[id].(state := state, pids := pids, updatedAt := updatedAt)])
    case Clear => Lab(IdleSlots(|l.slots|), map[])
  }

  /** Leaving one after the other is leaving together. */
  lemma LeaveTwice(l: Lab, a: set<string>, b: set<string>)
    requires Consistent(l.slots, l.sessions)
    ensures React(React(l, Leave(a)), Leave(b)) == React(l, Leave(a + b))
  {
    hide SlotsOk, ListedLive, LiveListed, MuxesApart, VacateAll;
    VacateTwice(l.slots, a, b);
    assert l.sessions - a - b == l.sessions - (a + b);
  }

  /** Nothing changes when those who leave were not there. */
  lemma LeaveStrangers(l: Lab, gone: set<string>)
    requires Consistent(l.slots, l.sessions) && gone !! l.sessions.Keys
    ensures React(l, Leave(gone)) == l
  {
    hide LiveListed, MuxesApart;
    forall i | 0 <= i < |l.slots|
      ensures Vacate(l.slots[i], gone) == l.slots[i]
    {
      assert SlotOk(l.slots[i], i + 1);
      WithoutAbsent(l.slots[i].sessions, gone);
    }
    assert l.sessions - gone == l.sessions;
  }

  function Run(n: nat, events: seq<Event>): Lab {
    if events == [] then Lab(IdleSlots(n), map[]) else React(Run(n, events[..|events| - 1]), events[|events| - 1])
  }

  /** In every state a run reaches, tuners and sessions agree, the number of
      tuners is the one the lab began with, and the next mux is admitted
      exactly when it fits. */
  lemma {:induction false} RunConsistent(n: nat, events: seq<Event>, m: string)
    ensures var l := Run(n, events);
            && Consistent(l.slots, l.sessions) && |l.slots| == n
            && (Chosen(l.slots, m).Some? <==> |MuxesInUse(l.sessions) + {m}| <= n)
  {
    hide Consistent, Chosen, Seat, VacateAll, MuxesInUse;
    IdleConsistent(n);
    if events != [] {
      var l := Run(n, events[..|events| - 1]);
      RunConsistent(n, events[..|events| - 1], m);
      match events[|events| - 1] {
        case Arrive(x, now) =>
          var k := Chosen(l.slots, x.muxID);
          if k.Some? && x.id !in l.sessions {
            SeatConsistent(l.slots, l.sessions, x.(tunerID := k.value + 1), now);
            SeatLength(l.slots, k.value, x.muxID, x.id, now);
          }
        case Leave(gone) =>
          VacateConsistent(l.slots, l.sessions, gone);
        case Amend(id, state, pids, updatedAt) =>
          if id in l.sessions {
            AmendConsistent(l.slots, l.sessions, id,
                l.sessions[id].(state := state, pids := pids, updatedAt := updatedAt));
          }
        case Clear =>
      }
    }
    AdmissionExact(Run(n, events).slots, Run(n, events).sessions, m);
  }

  lemma AmendConsistent(slots: seq<Slot>, sessions: Sessions, id: string, x: Session)
    requires Consistent(slots, sessions) && id in sessions
    requires x.id == sessions[id].id && x.tunerID == sessions[id].tunerID && x.muxID == sessions[id].muxID
    ensures Consistent(slots, sessions[id := x])
  {
  }

  lemma IdleConsistent(n: nat)
    ensures Consistent(IdleSlots(n), map[])
  {
  }

  lemma SeatLength(slots: seq<Slot>, k: nat, muxID: string, id: string, now: Time)
    requires k < |slots|
    ensures |Seat(slots, k, muxID, id, now)| == |slots|
  {
  }
}
