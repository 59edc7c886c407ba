/** Whole runs of the server: requests, expiry, lost connections, resets and
    scenario changes in any order, with clocks that may move either way. */
module ServerRuns {
  import opened Bytes
  import opened Catalog
  import opened Scenarios
  import opened Allocation
  import opened LabManager
  import opened RtspServer

  datatype Event =
    | Connects
    | Asks(c: nat, request: Request, client: string, now: Time, loads: bool)
    | Disconnects(c: nat, now: Time)
    | Reaps(now: Time) // the periodic expiry
    | Breaks(id: string, now: Time) // a stream's connection broke
    | Resets
    | Chooses(name: Name, serviceID: string, muxID: string, durationMin: int, now: Time)
    | Schedules(steps: seq<Step>, now: Time)
    | Looks(now: Time)

  /** How many connections there have been, and which are open. */
  datatype Lines = Lines(accepted: nat, open: set<nat>)

  function LinesAfter(events: seq<Event>): Lines {
    if events == [] then Lines(0, {})
    else
      var l := LinesAfter(events[..|events| - 1]);
      match events[|events| - 1]
      case Connects => Lines(l.accepted + 1, l.open + {l.accepted})
      case Disconnects(c, _) => l.(open := l.open - {c})
      case _ => l
  }

  // ---------- the life of one session

  /** Where a session comes from: the event that set it up, on which connection
      and for which transport. */
  datatype Birth = Birth(index: nat, c: nat, transport: Transport)

  /** Requests of a connection that is not open do not occur. */
  predicate Requested(events: seq<Event>, j: nat)
    requires j < |events|
  {
    events[j].Asks? && events[j].c in LinesAfter(events[..j]).open
  }

  predicate Names(events: seq<Event>, j: nat, id: string)
    requires j < |events|
  {
    Requested(events, j) && events[j].request.session == id
  }

  predicate Born(events: seq<Event>, b: Birth) {
    && b.index < |events| && Requested(events, b.index)
    && events[b.index].c == b.c && events[b.index].request.verb == SETUP
    && events[b.index].request.transport == Some(b.transport)
  }

  /** The event ends the session by itself: a TEARDOWN that names it, the loss of
      the connection it streams over, or a reset. */
  predicate Ends(events: seq<Event>, b: Birth, id: string, j: nat)
    requires j < |events|
  {
    match events[j]
    case Asks(_, r, _, _, _) => Names(events, j, id) && r.verb == TEARDOWN
    case Disconnects(c, _) => c in LinesAfter(events[..j]).open && c == b.c && b.transport == Interleaved
    case Breaks(x, _) => x == id
    case Resets => true
    case _ => false
  }

  /** The event looks for sessions to expire. */
  predicate Expires(events: seq<Event>, j: nat)
    requires j < |events|
  {
    Requested(events, j) || events[j].Reaps?
  }

  function When(e: Event): Time {
    if e.Asks? || e.Reaps? then e.now else 0
  }

  /** The last request that named the session, or else the one that set it up. */
  function LastUse(events: seq<Event>, b: Birth, id: string): (i: nat)
    requires b.index < |events|
    ensures b.index <= i < |events| && (i == b.index || Names(events, i, id))
    ensures forall k :: i < k < |events| ==> !Names(events, k, id)
  {
    var n := |events| - 1;
    if b.index == n || Names(events, n, id) then n
    else
      NamesBefore(events, n, id);
      LastUse(events[..n], b, id)
  }

  lemma NamesBefore(events: seq<Event>, n: nat, id: string)
    requires n <= |events|
    ensures forall k :: 0 <= k < n ==> Names(events[..n], k, id) == Names(events, k, id)
  {
    forall k | 0 <= k < n
      ensures Names(events[..n], k, id) == Names(events, k, id)
    {
      assert events[..n][..k] == events[..k];
    }
  }

  /** Nothing has ended the session, and whenever sessions were expired its last
      use was no more than a minute ago. */
  ghost predicate KeptUp(events: seq<Event>, b: Birth, id: string)
    requires b.index < |events|
  {
    forall j :: b.index < j < |events| ==> Fine(events, b, id, j)
  }

  predicate Fine(events: seq<Event>, b: Birth, id: string, j: nat)
    requires b.index < j < |events|
  {
    !Ends(events, b, id, j)
    && (Expires(events, j) ==> When(events[j]) <= When(events[LastUse(events[..j], b, id)]) + 60_000_000_000)
  }

  /** A session that was set up and has been kept up since. */
  ghost predicate Live(events: seq<Event>, births: map<string, Birth>, id: string) {
    id in births && births[id].index < |events| && KeptUp(events, births[id], id)
  }

  ghost function LastUsedAt(events: seq<Event>, births: map<string, Birth>, id: string): Time
    requires Live(events, births, id)
  {
    When(events[LastUse(events, births[id], id)])
  }

  /** The clock does not go back from one look for stale sessions to the next. */
  predicate Forward(events: seq<Event>) {
    forall i, j :: 0 <= i < j < |events| && Expires(events, i) && Expires(events, j) ==>
      When(events[i]) <= When(events[j])
  }

  /** The session was set up or named in the minute before event `j`. */
  predicate Recent(events: seq<Event>, b: Birth, id: string, j: nat)
    requires b.index < j < |events|
  {
    exists i :: b.index <= i < j && (i == b.index || Names(events, i, id))
      && When(events[j]) <= When(events[i]) + 60_000_000_000
  }

  /** While the clock does not go back, a session that nothing ends is kept up by
      being named in the minute before each look for stale sessions. */
  lemma NamedEveryMinute(events: seq<Event>, b: Birth, id: string)
    requires Born(events, b) && Forward(events)
    requires forall j :: b.index < j < |events| ==> !Ends(events, b, id, j)
    requires forall j :: b.index < j < |events| && Expires(events, j) ==> Recent(events, b, id, j)
    ensures KeptUp(events, b, id)
  {
    hide Requested, When, Ends, LastUse, Forward, Recent;
    forall j | b.index < j < |events|
      ensures Fine(events, b, id, j)
    {
      if Expires(events, j) {
        RecentLast(events, b, id, j);
      }
    }
  }

  lemma RecentLast(events: seq<Event>, b: Birth, id: string, j: nat)
    requires Born(events, b) && Forward(events) && b.index < j < |events| && Recent(events, b, id, j)
    ensures When(events[j]) <= When(events[LastUse(events[..j], b, id)]) + 60_000_000_000
  {
    hide LinesAfter, LastUse, When;
    var i :| b.index <= i < j && (i == b.index || Names(events, i, id))
             && When(events[j]) <= When(events[i]) + 60_000_000_000;
    NamesBefore(events, j, id);
    var last := LastUse(events[..j], b, id);
    hide Requested;
    assert i <= last;
    assert last == b.index || Names(events, last, id);
    if i < last {
      assert Expires(events, i) && Expires(events, last);
    }
  }

  // ---------- event by event

  /** When a session last used at `at` has been used after one more event, or
      `None` when that ends it. */
  function Lives(open: set<nat>, b: Birth, id: string, at: Time, e: Event): Option<Time> {
    match e
    case Asks(c, r, _, now, _) =>
      if c !in open then Some(at)
      else if now - at > 60_000_000_000 then None
      else if r.session != id then Some(at)
      else if r.verb == TEARDOWN then None else Some(now)
    case Disconnects(c, _) => if c in open && c == b.c && b.transport == Interleaved then None else Some(at)
    case Reaps(now) => if now - at > 60_000_000_000 then None else Some(at)
    case Breaks(x, _) => if x == id then None else Some(at)
    case Resets => None
    case _ => Some(at)
  }

  function LifeAfter(events: seq<Event>, b: Birth, id: string): Option<Time>
    requires b.index < |events|
  {
    var n := |events| - 1;
    if b.index == n then Some(When(events[n]))
    else
      var before := LifeAfter(events[..n], b, id);
      if before == None then None else Lives(LinesAfter(events[..n]).open, b, id, before.value, events[n])
  }

  /** Going through the events one by one finds exactly the sessions kept up, and
      their last use. */
  lemma {:induction false} LifeExactly(events: seq<Event>, b: Birth, id: string)
    requires b.index < |events|
    ensures LifeAfter(events, b, id).Some? <==> KeptUp(events, b, id)
    ensures LifeAfter(events, b, id).Some? ==>
              LifeAfter(events, b, id).value == When(events[LastUse(events, b, id)])
  {
    var n := |events| - 1;
    if b.index < n {
      var init := events[..n];
      LifeExactly(init, b, id);
      KeptUpNext(init, b, id, events[n]);
      assert init + [events[n]] == events;
    }
  }

  lemma KeptUpNext(init: seq<Event>, b: Birth, id: string, e: Event)
    requires b.index < |init|
    ensures var events, n := init + [e], |init|;
            KeptUp(events, b, id) <==>
              && KeptUp(init, b, id) && !Ends(events, b, id, n)
              && (Expires(events, n) ==> When(e) <= When(init[LastUse(init, b, id)]) + 60_000_000_000)
  {
    hide LastUse, LinesAfter, When;
    var events, n := init + [e], |init|;
    assert events[..n] == init;
    forall j | b.index < j < n
      ensures Fine(events, b, id, j) == Fine(init, b, id, j)
    {
      assert events[..j] == init[..j];
    }
    if KeptUp(events, b, id) {
      assert Fine(events, b, id, n);
      assert forall j :: b.index < j < n ==> Fine(events, b, id, j) && Fine(init, b, id, j);
    }
  }

  // ---------- the tables and the history

  /** A session is there exactly when its history says so, with the transport it
      was set up with and the moment of its last use. */
  predicate Account(sessions: Sessions, table: map<string, Transport>, b: Birth, events: seq<Event>, id: string) {
    && b.index < |events|
    && (id in sessions <==> LifeAfter(events, b, id).Some?)
    && (id in sessions ==>
          && id in table && table[id] == b.transport
          && Some(sessions[id].updatedAt) == LifeAfter(events, b, id))
  }

  predicate Accounted(sessions: Sessions, table: map<string, Transport>, births: map<string, Birth>,
      events: seq<Event>) {
    && sessions.Keys <= births.Keys && table.Keys == sessions.Keys
    && forall id :: id in births ==> Account(sessions, table, births[id], events, id)
  }

  predicate Rooted(owner: Owners, births: map<string, Birth>, events: seq<Event>) {
    births.Keys == owner.Keys && forall id :: id in births ==> Born(events, births[id]) && owner[id] == births[id].c
  }

  /** No event sets up two sessions. */
  predicate Apart(births: map<string, Birth>) {
    forall x, y :: x in births && y in births && births[x].index == births[y].index ==> x == y
  }

  predicate Tracked(sessions: Sessions, table: map<string, Transport>, owner: Owners, births: map<string, Birth>,
      events: seq<Event>) {
    Accounted(sessions, table, births, events) && Rooted(owner, births, events) && Apart(births)
  }

  /** What one event does to the sessions there were. */
  ghost predicate Moves(before: Sessions, after: Sessions, births: map<string, Birth>, open: set<nat>, e: Event) {
    forall id :: id in births ==>
      var next := if id in before then Lives(open, births[id], id, before[id].updatedAt, e) else None;
      (id in after <==> next.Some?) && (id in after ==> Some(after[id].updatedAt) == next)
  }

  lemma Still(sessions: Sessions, births: map<string, Birth>, open: set<nat>, e: Event)
    requires e.Connects? || e.Chooses? || e.Schedules? || e.Looks? || ((e.Asks? || e.Disconnects?) && e.c !in open)
    ensures Moves(sessions, sessions, births, open, e)
  {
  }

  lemma AskedMoves(before: Sessions, after: Sessions, births: map<string, Birth>, open: set<nat>, e: Event,
      reply: Reply)
    requires e.Asks? && e.c in open && (reply.OkSession? ==> reply.id !in births)
    requires Answered(before - Late(before, e.now), after, e.request, reply, e.now)
    ensures Moves(before, after, births, open, e)
  {
    hide Wanted;
  }

  lemma ReapedMoves(before: Sessions, births: map<string, Birth>, open: set<nat>, now: Time)
    ensures Moves(before, before - Late(before, now), births, open, Reaps(now))
  {
  }

  lemma ClosedMoves(before: Sessions, table: map<string, Transport>, owner: Owners, births: map<string, Birth>,
      events: seq<Event>, open: set<nat>, c: nat, now: Time)
    requires Tracked(before, table, owner, births, events) && c in open
    ensures Moves(before, before - Mine(table, owner, c), births, open, Disconnects(c, now))
  {
  }

  lemma EndedMoves(before: Sessions, births: map<string, Birth>, open: set<nat>, id: string, now: Time)
    ensures Moves(before, before - {id}, births, open, Breaks(id, now))
    ensures Moves(before, map[], births, open, Resets)
  {
  }

  lemma LifeNext(events: seq<Event>, b: Birth, id: string, e: Event)
    requires b.index < |events|
    ensures LifeAfter(events + [e], b, id)
         == if LifeAfter(events, b, id) == None then None
            else Lives(LinesAfter(events).open, b, id, LifeAfter(events, b, id).value, e)
    ensures Born(events, b) ==> Born(events + [e], b)
  {
    hide Lives;
    assert (events + [e])[..|events|] == events && (events + [e])[..b.index] == events[..b.index];
  }

  /** The tables go on agreeing with the history when no session is set up. */
  lemma TrackedNext(sessions: Sessions, table: map<string, Transport>, owner: Owners, births: map<string, Birth>,
      events: seq<Event>, e: Event, after: Sessions, tableAfter: map<string, Transport>)
    requires Tracked(sessions, table, owner, births, events)
    requires Moves(sessions, after, births, LinesAfter(events).open, e)
    requires tableAfter.Keys == after.Keys <= births.Keys
    requires forall id :: id in after && id in table ==> tableAfter[id] == table[id]
    ensures Tracked(after, tableAfter, owner, births, events + [e])
  {
    hide LifeAfter, Lives, LinesAfter, Born, Apart;
    forall id | id in births
      ensures Account(after, tableAfter, births[id], events + [e], id) && Born(events + [e], births[id])
    {
      assert Account(sessions, table, births[id], events, id);
      LifeNext(events, births[id], id, e);
    }
  }

  /** And when one is. */
  lemma TrackedBirth(sessions: Sessions, table: map<string, Transport>, owner: Owners, births: map<string, Birth>,
      events: seq<Event>, id: string, b: Birth)
    requires Tracked(sessions - {id}, table - {id}, owner, births, events) && id !in births
    requires b.index == |events| - 1 && Born(events, b) && id in sessions && id in table
    requires table[id] == b.transport && sessions[id].updatedAt == When(events[b.index])
    requires forall x :: x in births ==> births[x].index < b.index
    ensures Tracked(sessions, table, owner[id := b.c], births[id := b], events)
  {
    hide Accounted, Born;
    assert Apart(births[id := b]);
    hide Apart;
    AccountedBirth(sessions, table, births, events, id, b);
  }

  lemma AccountedBirth(sessions: Sessions, table: map<string, Transport>, births: map<string, Birth>,
      events: seq<Event>, id: string, b: Birth)
    requires Accounted(sessions - {id}, table - {id}, births, events) && id !in births
    requires b.index == |events| - 1 && id in sessions && id in table
    requires table[id] == b.transport && sessions[id].updatedAt == When(events[b.index])
    ensures Accounted(sessions, table, births[id := b], events)
  {
    assert Account(sessions, table, b, events, id);
    hide LifeAfter, When;
    var all := births[id := b];
    forall x | x in births
      ensures Account(sessions, table, births[x], events, x)
    {
      assert Account(sessions - {id}, table - {id}, births[x], events, x);
    }
    assert (sessions - {id}).Keys == sessions.Keys - {id} && (table - {id}).Keys == table.Keys - {id};
    assert sessions.Keys == (sessions.Keys - {id}) + {id} && table.Keys == (table.Keys - {id}) + {id};
  }

  /** For a request. */
  lemma AskedTracked(sessions: Sessions, table: map<string, Transport>, owner: Owners, births: map<string, Birth>,
      events: seq<Event>, after: Sessions, tableAfter: map<string, Transport>, e: Event, reply: Reply)
    requires Tracked(sessions, table, owner, births, events)
    requires e.Asks? && e.c in LinesAfter(events).open && !reply.OkSession?
    requires Answered(sessions - Late(sessions, e.now), after, e.request, reply, e.now)
    requires Tabled(table - Late(sessions, e.now), tableAfter, e.request, reply) && tableAfter.Keys == after.Keys
    ensures Tracked(after, tableAfter, owner, births, events + [e])
  {
    AskedMoves(sessions, after, births, LinesAfter(events).open, e, reply);
    hide Moves, Late, Used, LinesAfter, Account, Rooted, Apart;
    TrackedNext(sessions, table, owner, births, events, e, after, tableAfter);
  }

  /** For a SETUP that succeeds. */
  lemma SetUpTracked(sessions: Sessions, table: map<string, Transport>, owner: Owners, births: map<string, Birth>,
      events: seq<Event>, after: Sessions, tableAfter: map<string, Transport>, e: Event, id: string, b: Birth)
    requires Tracked(sessions, table, owner, births, events)
    requires e.Asks? && e.c in LinesAfter(events).open && id !in owner
    requires e.request.verb == SETUP && e.request.transport == Some(b.transport)
        && b == Birth(|events|, e.c, b.transport)
    requires Answered(sessions - Late(sessions, e.now), after, e.request, OkSession(id), e.now)
    requires Tabled(table - Late(sessions, e.now), tableAfter, e.request, OkSession(id))
        && tableAfter.Keys == after.Keys
    ensures Tracked(after, tableAfter, owner[id := e.c], births[id := b], events + [e])
  {
    AskedMoves(sessions, after, births, LinesAfter(events).open, e, OkSession(id));
    MovesWithout(sessions, after, births, LinesAfter(events).open, e, id);
    var rest, tableRest := after - {id}, tableAfter - {id};
    assert rest.Keys == after.Keys - {id} && tableRest.Keys == tableAfter.Keys - {id};
    assert (events + [e])[..|events|] == events;
    BornBefore(births, owner, events);
    hide Moves, Late, Used, LinesAfter, Account, Rooted, Apart;
    TrackedNext(sessions, table, owner, births, events, e, rest, tableRest);
    TrackedBirth(after, tableAfter, owner, births, events + [e], id, b);
  }

  lemma BirthsCover(sessions: Sessions, table: map<string, Transport>, owner: Owners, births: map<string, Birth>,
      events: seq<Event>)
    requires Tracked(sessions, table, owner, births, events)
    ensures sessions.Keys <= births.Keys
  {
    hide Rooted, Apart, Account;
  }

  lemma NothingYet()
    ensures Tracked(map[], map[], map[], map[], [])
  {
  }

  lemma MovesWithout(before: Sessions, after: Sessions, births: map<string, Birth>, open: set<nat>, e: Event,
      id: string)
    requires Moves(before, after, births, open, e) && id !in births
    ensures Moves(before, after - {id}, births, open, e)
  {
    hide Lives;
  }

  lemma BornBefore(births: map<string, Birth>, owner: Owners, events: seq<Event>)
    requires Rooted(owner, births, events)
    ensures forall x :: x in births ==> births[x].index < |events|
  {
    hide LinesAfter;
  }

  /** What the agreement means, without going through the events. */
  lemma TrackedMeans(sessions: Sessions, table: map<string, Transport>, owner: Owners, births: map<string, Birth>,
      events: seq<Event>)
    requires Tracked(sessions, table, owner, births, events)
    ensures births.Keys == owner.Keys && Apart(births)
    ensures forall id :: id in births ==> Born(events, births[id])
    ensures forall id :: id in table <==> Live(events, births, id)
    ensures forall id :: id in table ==>
              && id in sessions && table[id] == births[id].transport
              && sessions[id].updatedAt == LastUsedAt(events, births, id)
  {
    hide LifeAfter, KeptUp, LastUse, When, Apart, LinesAfter;
    forall id | id in births
      ensures id in table <==> KeptUp(events, births[id], id)
      ensures id in table ==>
                && id in sessions && table[id] == births[id].transport
                && sessions[id].updatedAt == When(events[LastUse(events, births[id], id)])
    {
      assert Account(sessions, table, births[id], events, id);
      LifeExactly(events, births[id], id);
    }
  }

  lemma LinesNext(events: seq<Event>, e: Event)
    ensures LinesAfter(events + [e])
         == match e
            case Connects => Lines(LinesAfter(events).accepted + 1,
                LinesAfter(events).open + {LinesAfter(events).accepted})
            case Disconnects(c, _) => LinesAfter(events).(open := LinesAfter(events).open - {c})
            case _ => LinesAfter(events)
  {
    assert (events + [e])[..|events|] == events;
  }

  // ---------- runs

  /** The server agrees with its history. */
  ghost predicate Follows(s: Server, births: map<string, Birth>, events: seq<Event>)
    reads s, s.lab
  {
    && s.accepted == LinesAfter(events).accepted && s.connections.Keys == LinesAfter(events).open
    && Tracked(s.lab.sessions, s.sessions, s.owner, births, events)
  }

  /** A request on an open connection. */
  method ServeRequest(s: Server, e: Event, ghost births: map<string, Birth>, ghost events: seq<Event>)
      returns (ghost after: map<string, Birth>)
    requires s.Valid() && Follows(s, births, events) && e.Asks? && e.c in s.connections
    modifies s, s.lab
    ensures s.Valid() && Follows(s, after, events + [e])
  {
    hide s.Valid, Answered, Replied, Late, Tracked, Lives, LifeAfter, Moves, TurnedAway;
    ghost var table := s.sessions;
    var reply := s.Handle(e.c, e.request, e.client, e.now, e.loads);
    LinesNext(events, e);
    s.SameKeys();
    if reply.OkSession? {
      ghost var b := Birth(|events|, e.c, e.request.transport.value);
      SetUpTracked(old(s.lab.sessions), old(s.sessions), old(s.owner), births, events, s.lab.sessions, s.sessions, e,
                   reply.id, b);
      after := births[reply.id := b];
    } else {
      AskedTracked(old(s.lab.sessions), old(s.sessions), s.owner, births, events, s.lab.sessions, s.sessions, e, reply);
      after := births;
    }
  }

  /** One event. */
  method ServeOne(s: Server, e: Event, ghost births: map<string, Birth>, ghost events: seq<Event>)
      returns (ghost after: map<string, Birth>)
    requires s.Valid() && Follows(s, births, events)
    modifies s, s.lab
    ensures s.Valid() && Follows(s, after, events + [e])
  {
    hide s.Valid, Answered, Replied, Late, Tracked, Lives, LifeAfter, Moves, Mine, ScriptAt, Targeted, ValidSteps,
        React;
    ghost var open := LinesAfter(events).open;
    LinesNext(events, e);
    if e.Asks? && e.c in s.connections {
      after := ServeRequest(s, e, births, events);
      return;
    }
    match e {
      case Connects =>
        var _ := s.Accept();
        Still(s.lab.sessions, births, open, e);
      case Asks(_, _, _, _, _) =>
        Still(s.lab.sessions, births, open, e);
      case Disconnects(c, now) =>
        if c in s.connections {
          ClosedMoves(s.lab.sessions, s.sessions, s.owner, births, events, open, c, now);
          s.Close(c, now);
        } else {
          Still(s.lab.sessions, births, open, e);
        }
      case Reaps(now) =>
        ReapedMoves(s.lab.sessions, births, open, now);
        var _ := s.Expire(now);
      case Breaks(id, now) =>
        EndedMoves(s.lab.sessions, births, open, id, now);
        s.CloseSession(id, now);
      case Resets =>
        EndedMoves(s.lab.sessions, births, open, "", 0);
        s.ApiReset();
      case Chooses(n, serviceID, muxID, durationMin, now) =>
        Still(s.lab.sessions, births, open, e);
        var _ := s.Choose(n, serviceID, muxID, durationMin, now);
      case Schedules(steps, now) =>
        Still(s.lab.sessions, births, open, e);
        var _ := s.Schedule(steps, now);
      case Looks(now) =>
        Still(s.lab.sessions, births, open, e);
        s.Look(now);
    }
    after := births;
    s.SameKeys();
    BirthsCover(old(s.lab.sessions), old(s.sessions), s.owner, births, events);
    TrackedNext(old(s.lab.sessions), old(s.sessions), s.owner, births, events, e, s.lab.sessions, s.sessions);
  }

  method Started(c: Catalog, tunerCount: int, describeFirst: bool, busy: bool, started: Time) returns (s: Server)
    ensures s.Valid() && fresh(s) && fresh(s.lab) && Follows(s, map[], [])
  {
    var lab := new Manager(c, tunerCount, started);
    hide lab.Valid;
    NoSessionsYet(if tunerCount <= 0 then 1 else tunerCount);
    s := new Server(lab, describeFirst, busy);
    hide s.Valid;
    NothingYet();
  }

  /** Over any sequence of events from a new server, each one step, the tables
      hold the same sessions, no interleaved session outlives its connection,
      and a session is live exactly when its history has kept it up: nothing
      ended it and no look for stale sessions came more than a minute after its
      last use. */
  method Serve(c: Catalog, tunerCount: int, describeFirst: bool, busy: bool, started: Time, events: seq<Event>)
      returns (s: Server, ghost births: map<string, Birth>)
    ensures s.Valid() && s.sessions.Keys == s.lab.sessions.Keys && births.Keys == s.owner.Keys
    ensures forall id :: id in s.sessions && s.sessions[id] == Interleaved ==>
        id in s.owner && s.owner[id] in s.connections
    ensures Apart(births) && forall id :: id in births ==> Born(events, births[id])
    ensures forall id :: id in s.sessions <==> Live(events, births, id)
    ensures forall id :: id in s.sessions ==>
              && s.sessions[id] == births[id].transport
              && s.lab.sessions[id].updatedAt == LastUsedAt(events, births, id)
  {
    hide s.Valid, Tracked, Born, Live, LastUsedAt, Apart, LinesAfter;
    s := Started(c, tunerCount, describeFirst, busy, started);
    births := map[];
    assert events[..0] == [];
    for i := 0 to |events|
      invariant s.Valid() && fresh(s) && fresh(s.lab) && Follows(s, births, events[..i])
    {
      assert events[..i + 1] == events[..i] + [events[i]];
      births := ServeOne(s, events[i], births, events[..i]);
    }
    assert events[..|events|] == events;
    s.SameKeys();
    s.InterleavedOpen();
    TrackedMeans(s.lab.sessions, s.sessions, s.owner, births, events);
  }

  lemma NoSessionsYet(n: nat)
    ensures Run(n, []).sessions == map[]
  {
  }
}
