/** The RTSP server's session table beside the manager's: requests, expiry,
    closing connections and resets, each one step. */
module RtspServer {
  import opened Bytes
  import opened Text
  import opened Catalog
  import opened Pids
  import opened Scenarios
  import opened Allocation
  import opened LabManager

  const SESSION_TIMEOUT: int := 60_000 * MILLISECOND

  datatype Transport = Udp | Interleaved

  datatype Verb = OPTIONS | DESCRIBE | SETUP | PLAY | PAUSE | TEARDOWN | GET_PARAMETER | OTHER

  /** A request: the session it names ("" for none), the query of its URI, and
      for a SETUP what its Transport header asks for (`None`: unusable). */
  datatype Request = Request(verb: Verb, session: string, query: Query, transport: Option<Transport>)

  datatype Reply =
    | Ok
    | OkSession(id: string)
    | BadRequest
    | NotFound
    | NoSession454
    | WrongState
    | Unsupported
    | Busy
    | Unavailable
    | ServerError
    | NotImplemented

  // ---------- session ids

  /** `%08d`. */
  function SessionID(n: nat): string {
    var digits := Itoa(n);
    Padding(if |digits| < 8 then 8 - |digits| else 0) + digits
  }

  function Padding(k: nat): string {
    if k == 0 then "" else "0" + Padding(k - 1)
  }

  lemma {:induction false} LeadingZero(digits: string)
    requires AllDigits(digits)
    ensures AllDigits("0" + digits) && DigitsValue("0" + digits) == DigitsValue(digits)
    decreases |digits|
  {
    var s, n := "0" + digits, |digits|;
    if n == 1 {
      assert s[..1] == "0" && digits[..0] == "";
      assert "0"[..0] == "";
    } else {
      LeadingZero(digits[..n - 1]);
      assert s[..n] == "0" + digits[..n - 1];
    }
  }

  lemma {:induction false} LeadingZeros(k: nat, digits: string)
    requires AllDigits(digits)
    ensures AllDigits(Padding(k) + digits) && DigitsValue(Padding(k) + digits) == DigitsValue(digits)
  {
    hide DigitsValue;
    if k == 0 {
      assert Padding(k) + digits == digits;
    } else {
      LeadingZeros(k - 1, digits);
      LeadingZero(Padding(k - 1) + digits);
      assert Padding(k) + digits == "0" + (Padding(k - 1) + digits);
    }
  }

  /** No two numbers share an id. */
  lemma SessionIDInjective(m: nat, n: nat)
    requires SessionID(m) == SessionID(n)
    ensures m == n
  {
    hide Itoa, DigitsValue;
    SessionIDValue(m);
    SessionIDValue(n);
  }

  lemma PaddingLength(k: nat)
    ensures |Padding(k)| == k
  {
  }

  /** The number in decimal, at least eight digits of it. */
  lemma SessionIDValue(n: nat)
    ensures AllDigits(SessionID(n)) && DigitsValue(SessionID(n)) == n
    ensures |SessionID(n)| == if |Itoa(n)| < 8 then 8 else |Itoa(n)|
  {
    ItoaValue(n);
    hide Itoa, DigitsValue;
    var digits := Itoa(n);
    PaddingLength(if |digits| < 8 then 8 - |digits| else 0);
    LeadingZeros(if |digits| < 8 then 8 - |digits| else 0, digits);
  }

  // ---------- the server

  /** What a connection keeps between its requests. */
  datatype Connection = Connection(described: bool, remembered: set<string>)

  function Lookup(q: Query, key: string): Option<string> {
    if key in q then Some(q[key]) else None
  }

  function ChangeIn(q: Query): PidChange {
    PidChange(Lookup(q, "pids"), Lookup(q, "addpids"), Lookup(q, "delpids"))
  }

  function Refusing(e: LabError): (r: Reply)
    ensures !r.OkSession? && r != Ok && r != NoSession454
    ensures (r == Busy <==> e == NoTuner) && (r == Unavailable <==> e == Signal || e == Wedged)
    ensures (r == NotFound <==> e == NoService) && (r == BadRequest <==> e in {BadTune, NoSession, BadTimeline})
  {
    match e
    case NoTuner => Busy
    case Signal => Unavailable
    case Wedged => Unavailable
    case NoService => NotFound
    case _ => BadRequest
  }

  // ---------- what a request does to the sessions

  /** The PID lists of a request; "" for a missing one. */
  function Wanted(q: Query): Update {
    Update(Get(q, "pids"), Get(q, "addpids"), Get(q, "delpids"))
  }

  /** The sessions that have not been used for more than a minute. */
  function Late(sessions: Sessions, now: Time): set<string> {
    set id | id in sessions && now - sessions[id].updatedAt > 60_000_000_000
  }

  lemma MinuteLate(sessions: Sessions, now: Time)
    ensures Stale(sessions, now, SESSION_TIMEOUT) == Late(sessions, now)
  {
  }

  /** What the session a request names has become: in any case used now. */
  predicate Used(x: Session, y: Session, r: Request, reply: Reply, now: Time) {
    && y == x.(state := y.state, pids := y.pids, updatedAt := now)
    && (if r.verb == PLAY && (reply == Ok || reply == ServerError) then
          y.state == Playing && Updated(Denotes(x.pids), Wanted(r.query)) == Some(Denotes(y.pids))
        else
          y.state == (if r.verb == PAUSE then Paused else x.state) && y.pids == x.pids)
  }

  /** The sessions after a request: a SETUP may have added its own, a TEARDOWN
      has removed the one it names, which any other verb has marked as used; no
      other session has changed. */
  predicate Answered(live: Sessions, after: Sessions, r: Request, reply: Reply, now: Time) {
    && after.Keys == (if r.verb == TEARDOWN then live.Keys - {r.session} else live.Keys)
                     + (if reply.OkSession? then {reply.id} else {})
    && (reply.OkSession? ==>
          && r.verb == SETUP && reply.id !in live && after[reply.id].state == SetUp
          && after[reply.id].createdAt == after[reply.id].updatedAt == now)
    && (forall id :: id in live && id in after ==>
          if id == r.session then Used(live[id], after[id], r, reply, now) else after[id] == live[id])
  }

  /** The server's own table after a request. */
  predicate Tabled(live: map<string, Transport>, after: map<string, Transport>, r: Request, reply: Reply) {
    after == if reply.OkSession? && r.transport.Some? then live[reply.id := r.transport.value]
             else if r.verb == TEARDOWN then live - {r.session} else live
  }

  /** What is answered, a SETUP apart. */
  predicate Replied(live: Sessions, r: Request, reply: Reply, loads: bool) {
    match r.verb
    case OPTIONS => reply == Ok
    case DESCRIBE => reply == Ok
    case TEARDOWN => reply == Ok
    case OTHER => reply == NotImplemented
    case SETUP => reply != Ok && reply != NoSession454
    case PLAY =>
      reply == if r.session !in live then NoSession454
               else if Updated(Denotes(live[r.session].pids), Wanted(r.query)) == None then BadRequest
               else if loads then Ok else ServerError
    case _ => reply == if r.session in live then Ok else NoSession454
  }

  /** The session a SETUP entered: new, on the service and mux its query finds,
      for its client, with the PIDs it asks for. */
  predicate Entered(c: Catalog, sessions: Sessions, id: string, q: Query, client: string, now: Time) {
    && id in sessions && MatchService(c, q).Found?
    && IsFreshSession(sessions[id], id, MatchService(c, q).service, MatchService(c, q).mux, client, now)
    && Requested(sessions[id].pids, Get(q, "pids"), MatchService(c, q).service)
  }

  /** What a SETUP that is not turned away is answered. */
  predicate SetUpReplied(refusal: Option<LabError>, transport: Option<Transport>, reply: Reply) {
    if transport == None then reply == Unsupported
    else if refusal.Some? then reply == Refusing(refusal.value) else reply.OkSession?
  }

  /** Marking a session as used refuses nobody. */
  lemma RefusalMarked(c: Catalog, slots: seq<Slot>, live: Sessions, id: string, now: Time, s: Scenario, q: Query)
    ensures Refusal(c, Lab(slots, Marked(live, id, now)), s, q) == Refusal(c, Lab(slots, live), s, q)
  {
    hide MatchService, Blocked, Parseable;
    var marked := Marked(live, id, now);
    forall m
      ensures m in MuxesInUse(marked) <==> m in MuxesInUse(live)
    {
      if m in MuxesInUse(marked) {
        var x :| x in marked && marked[x].muxID == m;
        assert x in live && live[x].muxID == m;
      }
      if m in MuxesInUse(live) {
        var x :| x in live && live[x].muxID == m;
        assert x in marked && marked[x].muxID == m;
      }
    }
    assert MuxesInUse(marked) == MuxesInUse(live);
    hide MuxesInUse;
  }

  function Marked(live: Sessions, id: string, now: Time): Sessions {
    if id in live then live[id := live[id].(updatedAt := now)] else live
  }

  /** A request that does no more than mark its session as used. */
  lemma OnlyMarked(live: Sessions, r: Request, reply: Reply, now: Time)
    requires !reply.OkSession? && r.verb != TEARDOWN && (r.verb == PAUSE ==> r.session !in live)
    requires r.verb == PLAY ==> reply != Ok && reply != ServerError
    ensures Answered(live, Marked(live, r.session, now), r, reply, now)
  {
  }

  lemma TurnedAwayAnswer(live: Sessions, table: map<string, Transport>, r: Request, reply: Reply, now: Time,
      loads: bool)
    requires r.verb == SETUP && (reply == WrongState || reply == Busy)
    ensures Answered(live, Marked(live, r.session, now), r, reply, now) && Replied(live, r, reply, loads)
    ensures Tabled(table, table, r, reply)
  {
    OnlyMarked(live, r, reply, now);
  }

  lemma NamedLive(live: Sessions, id: string, now: Time)
    ensures Marked(live, id, now).Keys == live.Keys
    ensures id in live ==> Marked(live, id, now)[id] == live[id].(updatedAt := now)
  {
  }

  lemma PlayedAnswer(live: Sessions, after: Sessions, r: Request, reply: Reply, now: Time)
    requires r.verb == PLAY && r.session in live && (reply == Ok || reply == ServerError)
    requires r.session in after && Some(Denotes(after[r.session].pids))
                                   == Updated(Denotes(live[r.session].pids), Wanted(r.query))
    requires after == Marked(live, r.session, now)[r.session :=
                        Marked(live, r.session, now)[r.session].(
                          state := Playing, pids := after[r.session].pids, updatedAt := now)]
    ensures Answered(live, after, r, reply, now)
  {
    hide Denotes, Updated, Wanted;
  }

  lemma PausedAnswer(live: Sessions, after: Sessions, r: Request, reply: Reply, now: Time)
    requires r.verb == PAUSE && r.session in live && reply == Ok
    requires after == Marked(live, r.session, now)[r.session :=
                        Marked(live, r.session, now)[r.session].(state := Paused, updatedAt := now)]
    ensures Answered(live, after, r, reply, now)
  {
  }

  lemma TornDownAnswer(live: Sessions, r: Request, reply: Reply, now: Time)
    requires r.verb == TEARDOWN && reply == Ok
    ensures Answered(live, Marked(live, r.session, now) - {r.session}, r, reply, now)
  {
  }

  lemma SetUpAnswer(live: Sessions, after: Sessions, r: Request, reply: Reply, now: Time)
    requires r.verb == SETUP && reply.OkSession? && reply.id !in live && reply.id in after
    requires after == Marked(live, r.session, now)[reply.id := after[reply.id]]
    requires after[reply.id].state == SetUp && after[reply.id].createdAt == after[reply.id].updatedAt == now
    ensures Answered(live, after, r, reply, now)
  {
  }

  type Owners = map<string, nat>

  /** Ids come from the counter, so a new one was never used. */
  ghost predicate Issued(owner: Owners, nextID: nat) {
    forall id :: id in owner ==> exists k: nat :: k <= nextID && id == SessionID(k)
  }

  /** A connection remembers only sessions it set up, and an interleaved session
      lives only while its own connection is open and remembers it. */
  predicate Owned(sessions: map<string, Transport>, owner: Owners, connections: map<nat, Connection>, accepted: nat) {
    && sessions.Keys <= owner.Keys
    && (forall c :: c in connections ==> c < accepted)
    && (forall c, id :: c in connections && id in connections[c].remembered ==> id in owner && owner[id] == c)
    && (forall id :: id in sessions && sessions[id] == Interleaved ==>
          owner[id] in connections && id in connections[owner[id]].remembered)
  }

  /** The live interleaved sessions a connection set up. */
  function Mine(sessions: map<string, Transport>, owner: Owners, c: nat): set<string> {
    set id | id in sessions && sessions[id] == Interleaved && id in owner && owner[id] == c
  }

  /** The id of the next number was never issued. */
  lemma FreshID(owner: Owners, nextID: nat, c: nat)
    requires Issued(owner, nextID)
    ensures SessionID(nextID + 1) !in owner
    ensures Issued(owner, nextID + 1) && Issued(owner[SessionID(nextID + 1) := c], nextID + 1)
  {
    hide SessionID;
    if SessionID(nextID + 1) in owner {
      var k: nat :| k <= nextID && SessionID(nextID + 1) == SessionID(k);
      SessionIDInjective(k, nextID + 1);
    }
  }

  lemma OwnedLess(sessions: map<string, Transport>, owner: Owners, connections: map<nat, Connection>, accepted: nat,
      gone: set<string>)
    requires Owned(sessions, owner, connections, accepted)
    ensures Owned(sessions - gone, owner, connections, accepted)
  {
  }

  /** After a request on `c`: a DESCRIBE is remembered from then on, and no other
      connection has changed. */
  predicate Heard(before: map<nat, Connection>, after: map<nat, Connection>, c: nat, verb: Verb) {
    && after.Keys == before.Keys
    && forall d :: d in after ==>
         if d == c then after[c].described == (before[c].described || verb == DESCRIBE) else after[d] == before[d]
  }

  /** A SETUP that the vendor profile or the configured scenario turns away. */
  predicate TurnedAway(described: bool, describeFirst: bool, busy: bool, verb: Verb) {
    verb == SETUP && (busy || (describeFirst && !described))
  }

  function Remembering(connections: map<nat, Connection>, c: nat, id: string): map<nat, Connection>
    requires c in connections
  {
    connections[c := connections[c].(remembered := connections[c].remembered + {id})]
  }

  function Forgetting(connections: map<nat, Connection>, c: nat, id: string): map<nat, Connection>
    requires c in connections
  {
    connections[c := connections[c].(remembered := connections[c].remembered - {id})]
  }

  lemma OwnedMore(sessions: map<string, Transport>, owner: Owners, connections: map<nat, Connection>, accepted: nat,
                  c: nat, id: string, t: Transport)
    requires Owned(sessions, owner, connections, accepted) && c in connections && id !in owner
    ensures id !in sessions
    ensures Owned(sessions[id := t], owner[id := c], Remembering(connections, c, id), accepted)
  {
  }

  lemma OwnedForgotten(sessions: map<string, Transport>, owner: Owners, connections: map<nat, Connection>,
      accepted: nat, c: nat, id: string)
    requires Owned(sessions, owner, connections, accepted) && c in connections && id !in sessions
    ensures Owned(sessions, owner, Forgetting(connections, c, id), accepted)
  {
  }

  lemma OwnedClosed(sessions: map<string, Transport>, owner: Owners, connections: map<nat, Connection>, accepted: nat,
      c: nat)
    requires Owned(sessions, owner, connections, accepted) && Mine(sessions, owner, c) == {}
    ensures Owned(sessions, owner, connections - {c}, accepted)
  {
    forall id | id in sessions && sessions[id] == Interleaved
      ensures owner[id] != c
    {
      assert id !in Mine(sessions, owner, c);
    }
  }

  lemma NoneLeft(sessions: map<string, Transport>, owner: Owners, c: nat)
    ensures Mine(sessions - Mine(sessions, owner, c), owner, c) == {}
  {
  }

  lemma MineRemembered(sessions: map<string, Transport>, owner: Owners, connections: map<nat, Connection>,
      accepted: nat, c: nat)
    requires Owned(sessions, owner, connections, accepted) && c in connections
    ensures Mine(sessions, owner, c) - connections[c].remembered == {}
  {
  }

  /** One remembered id: whether it is the connection's to close, before and
      after the earlier ones have been, and what that leaves. */
  lemma OneOfMine(sessions: map<string, Transport>, owner: Owners, connections: map<nat, Connection>, accepted: nat,
                  c: nat, id: string, rest: set<string>)
    requires Owned(sessions, owner, connections, accepted) && c in connections && id in rest
        && rest <= connections[c].remembered
    ensures var mine := Mine(sessions, owner, c);
            var gone := mine - rest;
            var left := sessions - gone;
            && (id in left && left[id] == Interleaved <==> id in mine)
            && (id in mine ==> mine - (rest - {id}) == gone + {id} && left - {id} == sessions - (gone + {id}))
            && (id !in mine ==> mine - (rest - {id}) == gone)
  {
  }

  class Server {
    const lab: Manager
    const describeFirst: bool // the vendor profile wants DESCRIBE before SETUP
    const busy: bool // the configured scenario is a busy tuner
    var sessions: map<string, Transport>
    var nextID: nat
    var connections: map<nat, Connection>
    var accepted: nat
    ghost var owner: Owners // the connection that set up each session there ever was

    /** The two tables hold the same sessions. */
    ghost predicate Agree()
      reads this, lab
    {
      sessions.Keys == lab.sessions.Keys
    }

    ghost predicate Valid()
      reads this, lab
    {
      lab.Valid() && Agree() && Issued(owner, nextID) && Owned(sessions, owner, connections, accepted)
    }

    constructor (lab: Manager, describeFirst: bool, busy: bool)
      requires lab.Valid() && lab.sessions == map[]
      ensures Valid() && this.lab == lab && sessions == map[] && connections == map[] && accepted == 0
      ensures owner == map[]
    {
      this.lab, this.describeFirst, this.busy := lab, describeFirst, busy;
      sessions, nextID, connections, accepted, owner := map[], 0, map[], 0, map[];
    }

    /** A connection is accepted. */
    method Accept() returns (c: nat)
      requires Valid()
      modifies this
      ensures Valid() && c !in old(connections) && connections == old(connections)[c := Connection(false, {})]
      ensures sessions == old(sessions) && owner == old(owner) && c == old(accepted) && accepted == c + 1
    {
      hide lab.Valid;
      c := accepted;
      connections := connections[c := Connection(false, {})];
      accepted := accepted + 1;
    }

    // ---------- sessions ending

    /** `expireSessions`. */
    method Expire(now: Time) returns (expired: set<string>)
      requires Valid()
      modifies this`sessions, lab
      ensures Valid()
      ensures expired == Stale(old(lab.sessions), now, SESSION_TIMEOUT)
      ensures sessions == old(sessions) - expired
      ensures lab.View() == React(old(lab.View()), Leave(expired))
      ensures expired == Late(old(lab.sessions), now) && lab.sessions == old(lab.sessions) - expired
      ensures lab.Playbill() == old(lab.Playbill())
    {
      hide lab.Valid, Stale, Late, Owned, Issued, React;
      MinuteLate(lab.sessions, now);
      expired := lab.ExpireSessions(now, SESSION_TIMEOUT, now);
      LeftSessions(old(lab.View()), expired);
      OwnedLess(sessions, owner, connections, accepted, expired);
      var rest := expired;
      while rest != {}
        invariant rest <= expired && sessions == old(sessions) - (expired - rest)
        decreases |rest|
        modifies this`sessions
      {
        var id :| id in rest;
        rest := rest - {id};
        sessions := sessions - {id};
      }
      assert expired - rest == expired;
    }

    /** `closeSessionAfterConnectionLoss`, also run by a stream whose connection
        broke. */
    method CloseSession(id: string, now: Time)
      requires Valid()
      modifies this`sessions, lab
      ensures Valid() && sessions == old(sessions) - {id}
      ensures lab.View() == React(old(lab.View()), Leave({id})) && lab.sessions == old(lab.sessions) - {id}
    {
      hide lab.Valid, Owned, Issued, React;
      LeftSessions(lab.View(), {id});
      Strangers(id);
      OwnedLess(sessions, owner, connections, accepted, {id});
      sessions := sessions - {id};
      lab.Teardown(id, now);
    }

    /** `closeConnectionSessions`: exactly the connection's own interleaved
        sessions end, in both tables; no other connection's session does. */
    method Close(c: nat, now: Time)
      requires Valid() && c in connections
      modifies this`sessions, this`connections, lab
      ensures Valid() && connections == old(connections) - {c}
      ensures sessions == old(sessions) - Mine(old(sessions), owner, c)
      ensures lab.View() == React(old(lab.View()), Leave(Mine(old(sessions), owner, c)))
      ensures lab.sessions == old(lab.sessions) - Mine(old(sessions), owner, c)
    {
      hide Valid, React, Owned, Mine, Consistent;
      Parts();
      LeaveStrangers(lab.View(), {});
      ghost var mine, gone := Mine(sessions, owner, c), {};
      MineRemembered(sessions, owner, connections, accepted, c);
      NoneLeft(sessions, owner, c);
      var rest := connections[c].remembered;
      assert sessions == sessions - gone;
      while rest != {}
        invariant Valid() && connections == old(connections) && rest <= connections[c].remembered
        invariant gone == mine - rest
        invariant sessions == old(sessions) - gone && lab.View() == React(old(lab.View()), Leave(gone))
        decreases |rest|
      {
        var id :| id in rest;
        OneOfMine(old(sessions), owner, connections, accepted, c, id, rest);
        rest := rest - {id};
        if id in sessions && sessions[id] == Interleaved {
          LeaveTwice(old(lab.View()), gone, {id});
          gone := gone + {id};
          CloseSession(id, now);
        }
      }
      assert gone == mine;
      LeftSessions(old(lab.View()), mine);
      Drop(c);
    }

    lemma Parts()
      requires Valid()
      ensures Owned(sessions, owner, connections, accepted) && Consistent(lab.View().slots, lab.View().sessions)
    {
      hide Owned;
      lab.ViewConsistent();
    }

    /** A connection none of whose sessions is left is forgotten. */
    method Drop(c: nat)
      requires Valid() && Mine(sessions, owner, c) == {}
      modifies this`connections
      ensures Valid() && connections == old(connections) - {c}
    {
      hide lab.Valid, Owned, Issued, Mine;
      OwnedClosed(sessions, owner, connections, accepted, c);
      connections := connections - {c};
    }

    /** The API's reset: the server's table, then the manager's. */
    method ApiReset()
      requires Valid()
      modifies this`sessions, lab
      ensures Valid() && sessions == map[] && lab.View() == React(old(lab.View()), Clear) && lab.sessions == map[]
    {
      hide lab.Valid, Owned, Issued, AfterReset, IdleSlots;
      OwnedLess(sessions, owner, connections, accepted, sessions.Keys);
      assert sessions - sessions.Keys == map[];
      sessions := map[];
      lab.Reset();
    }

    /** The API's choice of a scenario touches neither table. */
    method Choose(n: Name, serviceID: string, muxID: string, durationMin: int, now: Time) returns (ok: bool)
      requires Valid()
      modifies lab
      ensures Valid() && lab.View() == old(lab.View())
      ensures ok == Targeted(lab.catalog, n, serviceID, muxID, durationMin)
      ensures lab.Playbill() == if ok then Fixed(Scenario(n, serviceID, muxID, durationMin, None), now)
          else old(lab.Playbill())
    {
      hide lab.Valid, Owned, Issued, Targeted;
      ok := lab.SetScenarioOptions(n, serviceID, muxID, durationMin, now);
    }

    /** Nor does a timeline. */
    method Schedule(steps: seq<Step>, now: Time) returns (ok: bool)
      requires Valid()
      modifies lab
      ensures Valid() && lab.View() == old(lab.View())
      ensures ok == ValidSteps(lab.catalog, steps)
      ensures lab.Playbill() == if ok then Timed(now, steps) else old(lab.Playbill())
    {
      hide lab.Valid, Owned, Issued, ValidSteps;
      ok := lab.SetScenarioTimeline(steps, now);
    }

    /** Nor does a look at the status. */
    method Look(now: Time)
      requires Valid()
      modifies lab
      ensures Valid() && lab.View() == old(lab.View()) && lab.Playbill() == old(lab.Playbill())
    {
      hide lab.Valid, Owned, Issued, Shown, ScriptAt;
      lab.StatusAt(now);
    }

    // ---------- requests

    /** Whatever the reply, the id is new; only a SETUP that succeeds enters it,
        in both tables, for this connection. */
    method Setup(c: nat, r: Request, client: string, now: Time) returns (reply: Reply)
      requires Valid() && c in connections
      modifies this, lab
      ensures Valid() && nextID == old(nextID) + 1
      ensures reply != Ok && reply != NoSession454 && (reply.OkSession? ==> r.transport.Some?)
      ensures reply.OkSession? ==> Entered(lab.catalog, lab.sessions, reply.id, r.query, client, now)
      ensures SetUpReplied(Refusal(lab.catalog, old(lab.View()), ScriptAt(old(lab.Playbill()), now).0, r.query),
                           r.transport, reply)
      ensures connections == if reply.OkSession? then Remembering(old(connections), c, reply.id) else old(connections)
      ensures if reply.OkSession? then
                && reply.id !in old(owner) && owner == old(owner)[reply.id := c]
                && sessions == old(sessions)[reply.id := r.transport.value]
                && reply.id in lab.sessions && lab.sessions == old(lab.sessions)[reply.id := lab.sessions[reply.id]]
                && lab.sessions[reply.id].state == SetUp
                && lab.sessions[reply.id].createdAt == lab.sessions[reply.id].updatedAt == now
              else sessions == old(sessions) && owner == old(owner) && lab.View() == old(lab.View())
      ensures accepted == old(accepted)
    {
      hide lab.Valid, Refusal, ScriptAt, Requested, SessionID, Issued, Owned, Refusing, React,
           MatchService, Remembering;
      FreshID(owner, nextID, c);
      nextID := nextID + 1;
      var id := SessionID(nextID);
      if r.transport == None {
        return Unsupported;
      }
      OwnedMore(sessions, owner, connections, accepted, c, id, r.transport.value);
      var result := lab.Setup(id, r.query, client, now);
      if result.Refused? {
        return Refusing(result.error);
      }
      connections := Remembering(connections, c, id);
      owner := owner[id := c];
      sessions := sessions[id := r.transport.value];
      return OkSession(id);
    }

    method Play(r: Request, now: Time, loads: bool) returns (reply: Reply)
      requires Valid()
      modifies lab
      ensures Valid()
      ensures reply == if r.session == "" || r.session !in sessions then NoSession454
                       else if Updated(Denotes(old(lab.sessions[r.session].pids)), Wanted(r.query)) == None
                       then BadRequest
                       else if loads then Ok else ServerError
      ensures reply == NoSession454 || reply == BadRequest ==> lab.View() == old(lab.View())
      ensures reply == Ok || reply == ServerError ==>
                && lab.View() == React(old(lab.View()), Amend(r.session, Playing, lab.sessions[r.session].pids, now))
                && lab.sessions == old(lab.sessions)[r.session :=
                     old(lab.sessions[r.session]).(state := Playing, pids := lab.sessions[r.session].pids,
                                                   updatedAt := now)]
                && Some(Denotes(lab.sessions[r.session].pids))
                   == Updated(Denotes(old(lab.sessions[r.session].pids)), Wanted(r.query))
    {
      hide lab.Valid, Updated, Canonical, Owned, Issued, PidsApart, Denotes;
      if r.session == "" || r.session !in sessions {
        return NoSession454;
      }
      NothingAsked(Denotes(lab.sessions[r.session].pids));
      var error := lab.UpdatePIDs(r.session, ChangeIn(r.query), now);
      if error.Some? {
        return BadRequest;
      }
      var ok := lab.Play(r.session, now);
      if !ok {
        return NoSession454;
      }
      return if loads then Ok else ServerError;
    }

    method Pause(r: Request, now: Time) returns (reply: Reply)
      requires Valid()
      modifies lab
      ensures Valid()
      ensures reply == if r.session == "" || r.session !in sessions then NoSession454 else Ok
      ensures lab.View() == if reply == NoSession454 then old(lab.View())
                            else React(old(lab.View()),
                                Amend(r.session, Paused, old(lab.sessions[r.session].pids), now))
      ensures lab.sessions == if reply == NoSession454 then old(lab.sessions)
                              else old(lab.sessions)[r.session :=
                                     old(lab.sessions[r.session]).(state := Paused, updatedAt := now)]
    {
      hide lab.Valid, Owned, Issued;
      if r.session == "" || r.session !in sessions {
        return NoSession454;
      }
      var ok := lab.Pause(r.session, now);
      return if ok then Ok else NoSession454;
    }

    /** Ends the named session, whichever connection asks, in both tables; any
        other session stays. */
    method Teardown(c: nat, r: Request, now: Time) returns (reply: Reply)
      requires Valid() && c in connections
      modifies this`sessions, this`connections, lab
      ensures Valid() && reply == Ok
      ensures sessions == old(sessions) - {r.session}
      ensures Heard(old(connections), connections, c, OTHER)
      ensures lab.View() == if r.session in old(sessions) then React(old(lab.View()), Leave({r.session}))
          else old(lab.View())
      ensures lab.sessions == old(lab.sessions) - {r.session}
    {
      hide lab.Valid, Owned, Issued, React;
      if r.session != "" {
        Strangers(r.session);
        CloseSession(r.session, now);
        OwnedForgotten(sessions, owner, connections, accepted, c, r.session);
        connections := Forgetting(connections, c, r.session);
      } else {
        NoEmptyID();
      }
      return Ok;
    }

    lemma Strangers(id: string)
      requires Valid()
      ensures id !in sessions ==> React(lab.View(), Leave({id})) == lab.View()
    {
      lab.ViewConsistent();
      hide lab.Valid, Owned, Issued, React, Consistent;
      if id !in sessions {
        LeaveStrangers(lab.View(), {id});
      }
    }

    lemma InterleavedOpen()
      requires Valid()
      ensures forall id :: id in sessions && sessions[id] == Interleaved ==>
                id in owner && owner[id] in connections
    {
      hide lab.Valid, Issued;
    }

    lemma SameKeys()
      requires Valid()
      ensures sessions.Keys == lab.sessions.Keys
    {
      hide lab.Valid, Issued, Owned;
    }

    lemma AllOwned()
      requires Valid()
      ensures lab.sessions.Keys <= owner.Keys
    {
      hide lab.Valid, Issued;
    }

    lemma NoEmptyID()
      requires Valid()
      ensures "" !in sessions
    {
      hide lab.Valid, SessionID;
      if "" in sessions {
        assert "" in owner;
        var k: nat :| k <= nextID && "" == SessionID(k);
        SessionIDValue(k);
      }
    }

    /** A request: expired sessions go first, then the named session is touched,
        then the request runs. Nothing but a SETUP adds a session, nothing but
        expiry and a TEARDOWN naming it removes one, and no other session is
        changed than the one named, which has then been used now. */
    method Handle(c: nat, r: Request, client: string, now: Time, loads: bool) returns (reply: Reply)
      requires Valid() && c in connections
      modifies this, lab
      ensures Valid() && accepted == old(accepted) && Heard(old(connections), connections, c, r.verb)
      ensures TurnedAway(old(connections)[c].described, describeFirst, busy, r.verb) ==>
                reply == if describeFirst && !old(connections)[c].described then WrongState else Busy
      ensures reply.OkSession? ==> r.verb == SETUP && r.transport.Some? && reply.id !in old(owner)
      ensures Tabled(old(sessions) - Late(old(lab.sessions), now), sessions, r, reply)
      ensures owner == if reply.OkSession? then old(owner)[reply.id := c] else old(owner)
      ensures var live := old(lab.sessions) - Late(old(lab.sessions), now);
              Answered(live, lab.sessions, r, reply, now) && Replied(live, r, reply, loads)
      ensures r.verb == SETUP && !TurnedAway(old(connections)[c].described, describeFirst, busy, r.verb) ==>
                SetUpReplied(Refusal(lab.catalog, React(old(lab.View()), Leave(Late(old(lab.sessions), now))),
                                     ScriptAt(old(lab.Playbill()), now).0, r.query), r.transport, reply)
      ensures reply.OkSession? ==> Entered(lab.catalog, lab.sessions, reply.id, r.query, client, now)
    {
      hide SetUpReplied, Refusal, React, Entered;
      hide Valid, Late, Answered, Replied, Marked, ScriptAt, Tabled, Used;
      ghost var live := Begin(c, r, now);
      if describeFirst && r.verb == SETUP && !connections[c].described {
        reply := WrongState;
      } else if busy && r.verb == SETUP {
        reply := Busy;
      } else {
        Consult(now);
        ghost var left := React(old(lab.View()), Leave(Late(old(lab.sessions), now)));
        LeftSessions(old(lab.View()), Late(old(lab.sessions), now));
        RefusalMarked(lab.catalog, left.slots, live, r.session, now, ScriptAt(old(lab.Playbill()), now).0, r.query);
        reply := Dispatch(c, r, client, now, loads, live);
        return;
      }
      TurnedAwayAnswer(live, sessions, r, reply, now, loads);
    }

    /** What comes before every request. */
    method Begin(c: nat, r: Request, now: Time) returns (ghost live: Sessions)
      requires Valid() && c in connections
      modifies this`sessions, this`connections, lab
      ensures Valid() && live == old(lab.sessions) - Late(old(lab.sessions), now)
      ensures lab.sessions == Marked(live, r.session, now)
      ensures sessions == old(sessions) - Late(old(lab.sessions), now)
      ensures Heard(old(connections), connections, c, r.verb)
      ensures r.verb == SETUP ==> connections == old(connections)
      ensures lab.Playbill() == old(lab.Playbill())
      ensures lab.View() == Lab(React(old(lab.View()), Leave(Late(old(lab.sessions), now))).slots, lab.sessions)
    {
      hide lab.Valid, Owned, Issued, React, Stale, Late, Marked;
      var _ := Expire(now);
      live := lab.sessions;
      Touch(r.session, now);
      if r.verb == DESCRIBE {
        Describe(c);
      }
    }

    /** The scenario is looked up for the delays it may ask for. */
    method Consult(now: Time)
      requires Valid()
      modifies lab
      ensures Valid() && lab.View() == old(lab.View()) && lab.Playbill() == old(lab.Playbill())
    {
      hide lab.Valid, Owned, Issued, ScriptAt;
      var _ := lab.ScenarioAt(now);
    }

    /** The request itself, its session already marked. */
    method Dispatch(c: nat, r: Request, client: string, now: Time, loads: bool, ghost live: Sessions)
        returns (reply: Reply)
      requires Valid() && c in connections && lab.sessions == Marked(live, r.session, now)
      modifies this, lab
      ensures Valid() && Heard(old(connections), connections, c, OTHER) && accepted == old(accepted)
      ensures reply.OkSession? ==> r.verb == SETUP && r.transport.Some? && reply.id !in old(owner)
      ensures Tabled(old(sessions), sessions, r, reply)
      ensures owner == if reply.OkSession? then old(owner)[reply.id := c] else old(owner)
      ensures Answered(live, lab.sessions, r, reply, now) && Replied(live, r, reply, loads)
      ensures r.verb == SETUP ==>
                SetUpReplied(Refusal(lab.catalog, old(lab.View()), ScriptAt(old(lab.Playbill()), now).0, r.query),
                             r.transport, reply)
      ensures reply.OkSession? ==> Entered(lab.catalog, lab.sessions, reply.id, r.query, client, now)
    {
      hide lab.Valid, Owned, Issued, React, SetUpReplied, Entered, Refusal, ScriptAt, Updated, Denotes, Wanted,
          Answered, Marked;
      NoEmptyID();
      AllOwned();
      NamedLive(live, r.session, now);
      match r.verb {
        case OPTIONS =>
          reply := Ok;
          OnlyMarked(live, r, reply, now);
        case DESCRIBE =>
          reply := Ok;
          OnlyMarked(live, r, reply, now);
        case SETUP =>
          reply := Setup(c, r, client, now);
          if reply.OkSession? {
            SetUpAnswer(live, lab.sessions, r, reply, now);
          } else {
            OnlyMarked(live, r, reply, now);
          }
        case PLAY =>
          reply := Play(r, now, loads);
          if reply == Ok || reply == ServerError {
            PlayedAnswer(live, lab.sessions, r, reply, now);
          } else {
            OnlyMarked(live, r, reply, now);
          }
        case PAUSE =>
          reply := Pause(r, now);
          if reply == Ok {
            PausedAnswer(live, lab.sessions, r, reply, now);
          } else {
            OnlyMarked(live, r, reply, now);
          }
        case TEARDOWN =>
          reply := Teardown(c, r, now);
          TornDownAnswer(live, r, reply, now);
        case GET_PARAMETER =>
          reply := if r.session == "" || r.session !in sessions then NoSession454 else Ok;
          OnlyMarked(live, r, reply, now);
        case OTHER =>
          reply := NotImplemented;
          OnlyMarked(live, r, reply, now);
      }
    }

    method Touch(id: string, now: Time)
      requires Valid()
      modifies lab
      ensures Valid() && lab.Playbill() == old(lab.Playbill())
      ensures lab.sessions == Marked(old(lab.sessions), id, now) && lab.View().slots == old(lab.View()).slots
    {
      hide lab.Valid, Owned, Issued, React;
      NoEmptyID();
      if id != "" && id in sessions {
        var _ := lab.Touch(id, now);
      }
    }

    method Describe(c: nat)
      requires Valid() && c in connections
      modifies this`connections
      ensures Valid() && connections == old(connections)[c := old(connections[c]).(described := true)]
    {
      hide lab.Valid, Issued;
      connections := connections[c := connections[c].(described := true)];
    }
  }
}
