/** One RTP stream: on every tick it looks up the behaviour in force, draws a
    chunk from the loop and sends or drops it. */
module StreamLoop {
  import opened Arithmetic
  import opened Bytes
  import opened Catalog
  import opened Scenarios
  import opened LoopEngine
  import opened LoopRuns
  import opened Rtp

  datatype Behavior = Behavior(packetLimit: int, dropEvery: int, dropAll: bool, startupDelay: int, jitterEvery: int,
      jitterDelay: int)

  const PLAIN: Behavior := Behavior(0, 0, false, 0, 0, 0)

  /** `streamBehavior`. */
  function BehaviorFor(s: Scenario, service: Service, mux: Mux): Behavior {
    if !AppliesTo(s, service, mux) then PLAIN
    else
      match s.name
      case RtpStop => PLAIN.(packetLimit := 3)
      case RtpLoss => PLAIN.(dropEvery := 3)
      case RtpJitter => PLAIN.(jitterEvery := 3, jitterDelay := 40 * MILLISECOND)
      case RtpBlackhole => PLAIN.(dropAll := true)
      case DelayedPsi => PLAIN.(startupDelay := STARTUP_DELAY)
      case _ => PLAIN
  }

  const STARTUP_DELAY: int := 80 * MILLISECOND

  predicate ShouldDrop(b: Behavior, n: nat) {
    b.dropAll || (b.dropEvery > 0 && n % b.dropEvery == 0)
  }

  function JitterFor(b: Behavior, n: nat): int {
    if b.jitterEvery > 0 && n % b.jitterEvery == 0 then b.jitterDelay else 0
  }

  /** Where the packets go: over UDP, or interleaved on the connection; and how
      the status reports are configured. */
  datatype Link = Link(interleaved: bool, rtcpPort: int, rtcpInterval: int)

  const DEFAULT_INTERVAL: int := 200 * MILLISECOND

  function StatusInterval(link: Link): int {
    if link.rtcpInterval > 0 then link.rtcpInterval else DEFAULT_INTERVAL
  }

  /** What became of a chunk. */
  datatype Drawn =
    | Dropped(chunk: seq<byte>)
    | Written(chunk: seq<byte>, packet: seq<byte>, delay: int)
    | Broken(chunk: seq<byte>) // the connection broke

  datatype Progress = Progress(
    behaviorSent: nat, packetNumber: nat, behaviorNumber: nat, behavior: Behavior, since: Time, nextReport: Time,
        over: bool)

  const START: Progress := Progress(0, 0, 0, PLAIN, ZERO_TIME, ZERO_TIME, false)

  /** A tick: the clock, the behaviour and payload in force, and whether writing
      a packet, and a status report if one is due, would succeed on the
      connection. */
  datatype Tick = Tick(now: Time, behavior: Behavior, call: Call, writes: bool, reports: bool)

  /** A status report is to be sent; over UDP only to a port. */
  predicate ReportDue(link: Link, p: Progress, now: Time) {
    (link.interleaved || link.rtcpPort > 0) && (p.nextReport == ZERO_TIME || now >= p.nextReport)
  }

  /** The report of this tick breaks the connection. */
  predicate ReportFails(link: Link, p: Progress, t: Tick) {
    !p.over && link.interleaved && ReportDue(link, p, t.now) && !t.reports
  }

  function Reported(link: Link, p: Progress, now: Time): Progress {
    if ReportDue(link, p, now) then p.(nextReport := now + StatusInterval(link)) else p
  }

  /** A new behaviour starts its own counts. */
  function Observed(p: Progress, t: Tick): Progress {
    if t.behavior == p.behavior then p
    else p.(behaviorSent := 0, behaviorNumber := 0, behavior := t.behavior, since := t.now)
  }

  predicate Waits(p: Progress, now: Time) {
    p.behavior.startupDelay > 0 && now - p.since < p.behavior.startupDelay
  }

  /** The chunk's fate. UDP writes are not checked. */
  function Dispose(link: Link, p: Progress, chunk: seq<byte>, writes: bool): (Progress, Drawn) {
    var q := p.(packetNumber := p.packetNumber + 1, behaviorNumber := p.behaviorNumber + 1);
    if ShouldDrop(p.behavior, q.behaviorNumber) then (q, Dropped(chunk))
    else if link.interleaved && !writes then (q.(over := true), Broken(chunk))
    else
      (q.(behaviorSent := q.behaviorSent + 1, over := 0 < p.behavior.packetLimit <= q.behaviorSent + 1),
       Written(chunk, PacketBytes(SequenceOf(p.packetNumber), TimestampOf(p.packetNumber), SSRC, chunk),
               JitterFor(p.behavior, q.packetNumber)))
  }

  /** What a tick does before it draws, and whether it draws. A report that
      cannot be written ends the stream before anything else happens. */
  function Poised(link: Link, p: Progress, t: Tick): (Progress, bool) {
    if p.over then (p, false)
    else if ReportFails(link, p, t) then (p.(over := true), false)
    else
      var o := Observed(Reported(link, p, t.now), t);
      (o, !Waits(o, t.now))
  }

  function TickStep(link: Link, p: Progress, l: State, t: Tick): (Progress, State, Option<Drawn>) {
    var (o, draws) := Poised(link, p, t);
    if !draws then (o, l, None)
    else
      var (m, chunk) := NextCall(l, t.call.key, t.call.payload, t.call.preserve);
      if chunk == [] then (o, m, None)
      else
        var (q, d) := Dispose(link, o, chunk, t.writes);
        (q, m, Some(d))
  }

  // ---------- runs

  function AfterTicks(link: Link, ticks: seq<Tick>): (Progress, State, Option<Drawn>) {
    if ticks == [] then (START, FRESH, None)
    else
      var (p, l, _) := AfterTicks(link, ticks[..|ticks| - 1]);
      TickStep(link, p, l, ticks[|ticks| - 1])
  }

  function AsSeq(d: Option<Drawn>): seq<Drawn> {
    if d.Some? then [d.value] else []
  }

  /** Everything drawn in a run. */
  function Log(link: Link, ticks: seq<Tick>): seq<Drawn> {
    if ticks == [] then [] else Log(link, ticks[..|ticks| - 1]) + AsSeq(AfterTicks(link, ticks).2)
  }

  /** The tick notices another behaviour. */
  predicate Switches(link: Link, p: Progress, t: Tick) {
    !p.over && !ReportFails(link, p, t) && t.behavior != p.behavior
  }

  /** Some tick so far had a report that broke the connection. */
  predicate ReportLost(link: Link, ticks: seq<Tick>) {
    ticks != []
    && (ReportLost(link, ticks[..|ticks| - 1])
        || ReportFails(link, AfterTicks(link, ticks[..|ticks| - 1]).0, ticks[|ticks| - 1]))
  }

  /** What was drawn since the behaviour last changed. */
  function Stretch(link: Link, ticks: seq<Tick>): seq<Drawn> {
    if ticks == [] then []
    else
      var init, t := ticks[..|ticks| - 1], ticks[|ticks| - 1];
      var p := AfterTicks(link, init).0;
      var before := if Switches(link, p, t) then [] else Stretch(link, init);
      before + AsSeq(AfterTicks(link, ticks).2)
  }

  /** The calls that drew the log. */
  function Calls(link: Link, ticks: seq<Tick>): seq<Call> {
    if ticks == [] then []
    else
      Calls(link, ticks[..|ticks| - 1]) + if AfterTicks(link, ticks).2.Some? then [ticks[|ticks| - 1].call] else []
  }

  function WrittenCount(s: seq<Drawn>): nat {
    if s == [] then 0 else WrittenCount(s[..|s| - 1]) + if s[|s| - 1].Written? then 1 else 0
  }

  function DroppedCount(s: seq<Drawn>): nat {
    if s == [] then 0 else DroppedCount(s[..|s| - 1]) + if s[|s| - 1].Dropped? then 1 else 0
  }

  /** Every chunk drawn, sent or not, takes one sequence number and 3600 ticks
      of the clock: the packet of chunk `i` says so to any receiver. */
  predicate Numbered(log: seq<Drawn>) {
    forall i :: 0 <= i < |log| ==> IsNumbered(log[i], i)
  }

  predicate IsNumbered(d: Drawn, i: nat) {
    d.Written? ==> ReadPacket(d.packet) == Some((Header(33, i % 0x1_0000, 3600 * i % 0x1_0000_0000, SSRC), d.chunk))
  }

  lemma {:induction false} LogNumbered(link: Link, ticks: seq<Tick>)
    ensures Numbered(Log(link, ticks)) && |Log(link, ticks)| == AfterTicks(link, ticks).0.packetNumber
  {
    hide TickStep, IsNumbered, Numbered;
    if ticks == [] {
      NothingNumbered();
    } else {
      var init := ticks[..|ticks| - 1];
      LogNumbered(link, init);
      var (p, l, _) := AfterTicks(link, init);
      TickNumbered(link, p, l, ticks[|ticks| - 1]);
      NumberedMore(Log(link, init), AfterTicks(link, ticks).2);
    }
  }

  lemma NothingNumbered()
    ensures Numbered([])
  {
  }

  lemma NumberedMore(log: seq<Drawn>, d: Option<Drawn>)
    requires Numbered(log) && (d.Some? ==> IsNumbered(d.value, |log|))
    ensures Numbered(log + AsSeq(d))
  {
    hide IsNumbered;
  }

  lemma TickNumbered(link: Link, p: Progress, l: State, t: Tick)
    ensures var (q, _, d) := TickStep(link, p, l, t);
            && q.packetNumber == p.packetNumber + |AsSeq(d)|
            && (d.Some? ==> IsNumbered(d.value, p.packetNumber))
  {
    hide NextCall, ReadPacket, PacketBytes;
    var k := p.packetNumber;
    NumberOf(k);
    hide SequenceOf, TimestampOf;
    var d := TickStep(link, p, l, t).2;
    if d.Some? && d.value.Written? {
      ReadBack(SequenceOf(k), TimestampOf(k), SSRC, d.value.chunk);
    }
  }

  lemma NumberOf(k: nat)
    ensures SequenceOf(k) == k % 0x1_0000 < 0x1_0000 && TimestampOf(k) == 3600 * k % 0x1_0000_0000 < 0x1_0000_0000
  {
  }

  // ---------- the impairments are exact

  predicate Broke(s: seq<Drawn>) {
    s != [] && s[|s| - 1].Broken?
  }

  /** The counters are true of a stretch drawn under one behaviour: its drops
      are the scheduled ones, only the last write can have failed, and the stream
      is over exactly when the packet limit is reached or the connection broke,
      under a packet or under a report (`lost`). */
  predicate Account(p: Progress, s: seq<Drawn>, lost: bool) {
    && p.behaviorNumber == |s| && p.behaviorSent == WrittenCount(s)
    && (forall i :: 0 <= i < |s| ==> (s[i].Dropped? <==> ShouldDrop(p.behavior, i + 1)))
    && (forall i :: 0 <= i < |s| - 1 ==> !s[i].Broken?)
    && (p.behavior.packetLimit > 0 ==> WrittenCount(s) <= p.behavior.packetLimit)
    && (p.over <==> 0 < p.behavior.packetLimit == WrittenCount(s) || Broke(s) || lost)
  }

  lemma {:induction false} StretchAccount(link: Link, ticks: seq<Tick>)
    ensures Account(AfterTicks(link, ticks).0, Stretch(link, ticks), ReportLost(link, ticks))
  {
    hide TickStep, Account, ReportFails, Switches;
    if ticks == [] {
      NothingDrawn();
    } else {
      var init, t := ticks[..|ticks| - 1], ticks[|ticks| - 1];
      StretchAccount(link, init);
      var (p, l, _) := AfterTicks(link, init);
      TickAccount(link, p, l, t, Stretch(link, init), ReportLost(link, init));
    }
  }

  lemma NothingDrawn()
    ensures Account(START, [], false)
  {
  }

  lemma TickAccount(link: Link, p: Progress, l: State, t: Tick, s: seq<Drawn>, lost: bool)
    requires Account(p, s, lost)
    ensures var (q, _, d) := TickStep(link, p, l, t);
            Account(q, (if Switches(link, p, t) then [] else s) + AsSeq(d), lost || ReportFails(link, p, t))
  {
    hide NextCall, Account, Dispose, Waits, ReportDue;
    var (q, m, d) := TickStep(link, p, l, t);
    var before := if Switches(link, p, t) then [] else s;
    assert before + [] == before;
    OverAccount(p, s, lost);
    if p.over {
    } else if ReportFails(link, p, t) {
    } else {
      ReportAccount(link, p, t.now, s);
      var o := Observed(Reported(link, p, t.now), t);
      SwitchAccount(Reported(link, p, t.now), t, s);
      if d.Some? {
        var chunk := NextCall(l, t.call.key, t.call.payload, t.call.preserve).1;
        DisposeAccount(link, o, chunk, t.writes, before);
      }
    }
  }

  /** A running stream lost no report, and losing one only ends it. */
  lemma OverAccount(p: Progress, s: seq<Drawn>, lost: bool)
    requires Account(p, s, lost)
    ensures !p.over ==> !lost && Account(p.(over := true), s, true)
  {
  }

  lemma ReportAccount(link: Link, p: Progress, now: Time, s: seq<Drawn>)
    requires Account(p, s, false)
    ensures Account(Reported(link, p, now), s, false)
    ensures Reported(link, p, now).over == p.over && Reported(link, p, now).behavior == p.behavior
  {
  }

  lemma SwitchAccount(p: Progress, t: Tick, s: seq<Drawn>)
    requires Account(p, s, false) && !p.over
    ensures Account(Observed(p, t), if t.behavior != p.behavior then [] else s, false) && !Observed(p, t).over
  {
  }

  lemma DisposeAccount(link: Link, p: Progress, chunk: seq<byte>, writes: bool, s: seq<Drawn>)
    requires Account(p, s, false) && !p.over
    ensures var (q, d) := Dispose(link, p, chunk, writes); Account(q, s + [d], false)
  {
    hide PacketBytes, JitterFor, SequenceOf, TimestampOf, ShouldDrop;
    var (q, d) := Dispose(link, p, chunk, writes);
    assert (s + [d])[..|s|] == s;
  }

  lemma {:induction false} DropsEvery(b: Behavior, s: seq<Drawn>)
    requires forall i :: 0 <= i < |s| ==> (s[i].Dropped? <==> ShouldDrop(b, i + 1))
    ensures b.dropEvery > 0 && !b.dropAll ==> DroppedCount(s) == |s| / b.dropEvery
    ensures b.dropEvery <= 0 && !b.dropAll ==> DroppedCount(s) == 0
    ensures b.dropAll ==> DroppedCount(s) == |s|
  {
    if s != [] {
      DropsEvery(b, s[..|s| - 1]);
      if b.dropEvery > 0 {
        NextMultiple(|s|, b.dropEvery);
      }
    } else if b.dropEvery > 0 {
      NoneBelow(b.dropEvery);
    }
  }

  lemma NoneBelow(d: int)
    requires d > 0
    ensures 0 / d == 0
  {
  }

  lemma NextMultiple(n: nat, d: int)
    requires n > 0 && d > 0
    ensures n / d == (n - 1) / d + if n % d == 0 then 1 else 0
  {
    var q, r := (n - 1) / d, (n - 1) % d;
    assert n - 1 == q * d + r;
    if r + 1 < d {
      DivisionUnique(n, d, q, r + 1);
    } else {
      assert (q + 1) * d == q * d + d;
      DivisionUnique(n, d, q + 1, 0);
    }
  }

  lemma {:induction false} CountsAddUp(s: seq<Drawn>)
    requires forall i :: 0 <= i < |s| - 1 ==> !s[i].Broken?
    ensures |s| == WrittenCount(s) + DroppedCount(s) + if Broke(s) then 1 else 0
  {
    if s != [] {
      CountsAddUp(s[..|s| - 1]);
    }
  }

  function BrokenCount(s: seq<Drawn>): nat {
    if Broke(s) then 1 else 0
  }

  /** What a scenario does to the `n` chunks drawn since it is in force, when all
      that broke is the connection. */
  lemma ImpairmentExact(link: Link, ticks: seq<Tick>, s: Scenario, service: Service, mux: Mux)
    requires AfterTicks(link, ticks).0.behavior == BehaviorFor(s, service, mux)
    ensures var (over, drawn) := (AfterTicks(link, ticks).0.over, Stretch(link, ticks));
            var (applies, n, lost) := (AppliesTo(s, service, mux), |drawn|, Broke(drawn) || ReportLost(link, ticks));
            && n == WrittenCount(drawn) + DroppedCount(drawn) + BrokenCount(drawn)
            && (applies && s.name == RtpLoss ==> DroppedCount(drawn) == n / 3 && (over <==> lost))
            && (applies && s.name == RtpBlackhole ==> DroppedCount(drawn) == n && (over <==> lost))
            && (applies && s.name == RtpStop ==>
                  DroppedCount(drawn) == 0 && WrittenCount(drawn) <= 3 && (over <==> WrittenCount(drawn) == 3 || lost))
            && (!applies || !(s.name in {RtpLoss, RtpBlackhole, RtpStop}) ==>
                DroppedCount(drawn) == 0 && (over <==> lost))
  {
    hide AfterTicks, Stretch, ShouldDrop, ReportLost;
    var (p, drawn) := (AfterTicks(link, ticks).0, Stretch(link, ticks));
    StretchAccount(link, ticks);
    DropsEvery(p.behavior, drawn);
    CountsAddUp(drawn);
  }

  /** The scenario names this service and this mux, or names none. */
  predicate Hits(s: Scenario, service: Service, mux: Mux) {
    (s.serviceID == "" || s.serviceID == service.id) && (s.muxID == "" || s.muxID == mux.id)
  }

  /** When a chunk is drawn, and how long its packet is then held back: a running
      stream draws on every tick, except that delayed tables hold it for 80
      milliseconds from the tick that noticed them; and jitter holds every third
      packet of the stream for 40. */
  lemma TimingExact(link: Link, ticks: seq<Tick>, t: Tick, s: Scenario, service: Service, mux: Mux)
    requires t.behavior == BehaviorFor(s, service, mux)
    requires !AfterTicks(link, ticks).0.over && !ReportFails(link, AfterTicks(link, ticks).0, t)
    ensures var (p, all) := (AfterTicks(link, ticks).0, ticks + [t]);
            var (q, _, d) := AfterTicks(link, all);
            && q.since == (if t.behavior == p.behavior then p.since else t.now)
            && (d.Some? <==> t.call.payload != []
                             && !(Hits(s, service, mux) && s.name == DelayedPsi && t.now - q.since < 80_000_000))
            && (d.Some? && d.value.Written? ==>
                  d.value.delay == if Hits(s, service, mux) && s.name == RtpJitter && |Log(link, all)| % 3 == 0
                                   then 40_000_000 else 0)
  {
    hide NextCall, AfterTicks, Log, PacketBytes, SequenceOf, TimestampOf, ShouldDrop, ReportDue;
    LogNumbered(link, ticks + [t]);
    LogIsTheLoop(link, ticks);
    TickAfter(link, ticks, t);
    ReachableInv(Calls(link, ticks));
    ChunkNotEmpty(AfterTicks(link, ticks).1, t.call);
  }

  lemma TickAfter(link: Link, ticks: seq<Tick>, t: Tick)
    ensures AfterTicks(link, ticks + [t])
         == TickStep(link, AfterTicks(link, ticks).0, AfterTicks(link, ticks).1, t)
  {
    hide TickStep;
    assert (ticks + [t])[..|ticks|] == ticks;
  }

  /** The first tick of a stream reports its status, except over UDP without a
      port for it; after a report the next is due when its interval has passed,
      a fifth of a second unless the vendor profile sets another. */
  lemma ReportsApart(link: Link, p: Progress, now: Time, later: Time)
    ensures ReportDue(link, START, now) <==> link.interleaved || link.rtcpPort > 0
    ensures !link.interleaved && link.rtcpPort <= 0 ==> !ReportDue(link, p, now)
    ensures var interval := if link.rtcpInterval > 0 then link.rtcpInterval else 200_000_000;
            ReportDue(link, p, now) && now + interval != ZERO_TIME ==>
              (ReportDue(link, Reported(link, p, now), later) <==> now + interval <= later)
  {
  }

  // ---------- what is drawn is what the loop emits

  lemma ChunkNotEmpty(l: State, c: Call)
    requires Inv(l)
    ensures NextCall(l, c.key, c.payload, c.preserve).1 != [] <==> c.payload != []
    ensures c.payload == [] ==> NextCall(l, c.key, c.payload, c.preserve).0 == l
  {
    if c.payload != [] {
      hide NextCall, Ready;
      NextSpec(l, c.key, c.payload, c.preserve);
      PendingNotEmpty(l, c);
    }
  }

  lemma PendingNotEmpty(l: State, c: Call)
    requires Inv(l) && c.payload != []
    ensures Pending(l, c.key, c.payload) != []
  {
    hide Ready;
    ReadyInv(l, c.key, c.payload);
  }

  /** The log is the loop's run, chunk for chunk, dropped or not: an impairment
      never disturbs the transport stream, and waiting never advances it. */
  lemma {:induction false} LogIsTheLoop(link: Link, ticks: seq<Tick>)
    ensures var (log, calls) := (Log(link, ticks), Calls(link, ticks));
            && |log| == |calls| && AfterTicks(link, ticks).1 == After(calls)
            && forall i :: 0 <= i < |log| ==> log[i].chunk == LastChunk(calls[..i + 1])
  {
    hide TickStep, After, LastChunk;
    if ticks == [] {
      NoCalls();
    } else {
      var init, t := ticks[..|ticks| - 1], ticks[|ticks| - 1];
      LogIsTheLoop(link, init);
      var (p, l, _) := AfterTicks(link, init);
      var calls := Calls(link, init);
      TickDraws(link, p, t, calls);
      var log, more := Log(link, ticks), Calls(link, ticks);
      forall i | 0 <= i < |log|
        ensures log[i].chunk == LastChunk(more[..i + 1])
      {
        if i < |calls| {
          assert more[..i + 1] == calls[..i + 1];
        } else {
          assert more[..i + 1] == calls + [t.call];
        }
      }
      assert calls + [] == calls;
    }
  }

  lemma NoCalls()
    ensures After([]) == FRESH
  {
  }

  lemma TickDraws(link: Link, p: Progress, t: Tick, calls: seq<Call>)
    ensures var (_, m, d) := TickStep(link, p, After(calls), t);
            if d == None then m == After(calls)
            else m == After(calls + [t.call]) && d.value.chunk == LastChunk(calls + [t.call])
  {
    hide NextCall, Waits, Inv, PacketBytes;
    ReachableInv(calls);
    ChunkNotEmpty(After(calls), t.call);
    assert (calls + [t.call])[..|calls|] == calls;
  }

  // ---------- the object

  /** What a stream's goroutine keeps between ticks. */
  class Stream {
    const link: Link
    const loop: TimestampLoop
    const sender: RTPSender
    var behaviorSent: nat
    var packetNumber: nat
    var behaviorPacketNumber: nat
    var lastBehavior: Behavior
    var behaviorStartedAt: Time
    var nextRTCP: Time
    var over: bool

    function Counts(): Progress
      reads this
    {
      Progress(behaviorSent, packetNumber, behaviorPacketNumber, lastBehavior, behaviorStartedAt, nextRTCP, over)
    }

    ghost predicate Valid()
      reads this, loop, loop.payload, loop.rendered, sender
    {
      loop.Valid() && Inv(loop.View()) && sender.At(packetNumber)
    }

    constructor (link: Link)
      ensures Valid() && this.link == link
      ensures Counts() == START && loop.View() == FRESH && fresh(loop) && fresh(sender)
    {
      this.link := link;
      loop := new TimestampLoop();
      sender := new RTPSender();
      behaviorSent, packetNumber, behaviorPacketNumber, over := 0, 0, 0, false;
      lastBehavior, behaviorStartedAt, nextRTCP := PLAIN, ZERO_TIME, ZERO_TIME;
      new;
      FreshInv();
    }

    /** One tick of the ticker. */
    method OnTick(now: Time, behavior: Behavior, key: string, payload: array<byte>, preserve: bool, writes: bool,
        reports: bool)
        returns (d: Option<Drawn>)
      requires Valid()
      modifies this, sender, loop, loop.rendered
      ensures Valid()
      ensures var t := Tick(now, behavior, Call(key, old(payload[..]), preserve), writes, reports);
              (Counts(), loop.View(), d) == TickStep(link, old(Counts()), old(loop.View()), t)
    {
      hide NextCall, Inv, PacketBytes, SequenceOf, TimestampOf, Dispose, Poised;
      ghost var call := Call(key, payload[..], preserve);
      var draws := Prepare(now, behavior, reports, call, writes);
      if !draws {
        return None;
      }
      StepInv(loop.View(), call);
      ChunkNotEmpty(loop.View(), call);
      var slice := loop.Next(key, payload, preserve);
      if slice == Nil {
        return None;
      }
      var fate := SendChunk(slice.buf[slice.lo..slice.hi], writes);
      return Some(fate);
    }

    /** The status report, the behaviour and its startup delay; says whether a
        chunk is to be drawn. */
    method Prepare(now: Time, behavior: Behavior, reports: bool, ghost call: Call, ghost writes: bool)
        returns (draws: bool)
      modifies this
      ensures (Counts(), draws) == Poised(link, old(Counts()), Tick(now, behavior, call, writes, reports))
      ensures packetNumber == old(packetNumber) && (draws ==> !over)
    {
      if over {
        return false;
      }
      if (link.interleaved || link.rtcpPort > 0) && (nextRTCP == ZERO_TIME || now >= nextRTCP) {
        if link.interleaved && !reports {
          over := true;
          return false;
        }
        nextRTCP := now + StatusInterval(link);
      }
      if behavior != lastBehavior {
        behaviorSent, behaviorPacketNumber := 0, 0;
        lastBehavior, behaviorStartedAt := behavior, now;
      }
      return !(behavior.startupDelay > 0 && now - behaviorStartedAt < behavior.startupDelay);
    }

    /** Sends or skips one chunk. */
    method SendChunk(chunk: seq<byte>, writes: bool) returns (d: Drawn)
      requires sender.At(packetNumber) && !over
      modifies this, sender
      ensures sender.At(packetNumber)
      ensures (Counts(), d) == Dispose(link, old(Counts()), chunk, writes)
    {
      hide PacketBytes, SequenceOf, TimestampOf;
      ghost var k := packetNumber;
      packetNumber := packetNumber + 1;
      behaviorPacketNumber := behaviorPacketNumber + 1;
      if ShouldDrop(lastBehavior, behaviorPacketNumber) {
        sender.Skip(k);
        return Dropped(chunk);
      }
      var delay := JitterFor(lastBehavior, packetNumber);
      var packet := sender.Packet(chunk, k);
      if link.interleaved && !writes {
        over := true;
        return Broken(chunk);
      }
      behaviorSent := behaviorSent + 1;
      if lastBehavior.packetLimit > 0 && behaviorSent >= lastBehavior.packetLimit {
        over := true;
      }
      return Written(chunk, packet[..], delay);
    }
  }
}
