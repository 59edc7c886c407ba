/** The two scenario mutators: one breaks the table ids of a PAT and a PMT, the
    other breaks continuity counters. Each damages only what it names. */
module Mutators {
  import opened Bytes
  import opened Transport
  import opened Stamps
  import opened Timestamps
  import opened Continuity
  import opened Crc
  import opened CycleDuration
  import opened Sections
  import opened LoopClock

  // ---------- table ids

  /** The table id position of a PAT that `corruptPAT` accepts. */
  predicate HitsPat(p: Packet) {
    && Pid(p) == 0 && UnitStart(p) && TableIdOffset(p).Some?
    && var at := TableIdOffset(p).value;
       p[at] == 0x00 && at + 12 <= 188
  }

  function PatPointsTo(p: Packet): nat
    requires HitsPat(p)
  {
    var at := TableIdOffset(p).value;
    p[at + 10] as int % 32 * 256 + p[at + 11] as int
  }

  predicate HitsPmt(p: Packet, pid: nat) {
    Pid(p) == pid && UnitStart(p) && TableIdOffset(p).Some? && p[TableIdOffset(p).value] == 0x02
  }

  /** The first packet from `o` on that is hit. */
  function FirstPat(s: seq<byte>, o: nat): (r: Option<nat>)
    ensures r.Some? ==> o <= r.value && r.value + 188 <= |s| && HitsPat(PacketAt(s, r.value))
    decreases |s| - o
  {
    if o + 188 > |s| then None else if HitsPat(PacketAt(s, o)) then Some(o) else FirstPat(s, o + 188)
  }

  function FirstPmt(s: seq<byte>, pid: nat, o: nat): (r: Option<nat>)
    ensures r.Some? ==> o <= r.value && r.value + 188 <= |s| && HitsPmt(PacketAt(s, r.value), pid)
    decreases |s| - o
  {
    if o + 188 > |s| then None else if HitsPmt(PacketAt(s, o), pid) then Some(o) else FirstPmt(s, pid, o + 188)
  }

  /** The table id of the packet at `o` overwritten. */
  function BreakTable(s: seq<byte>, o: nat): (r: seq<byte>)
    requires o + 188 <= |s| && TableIdOffset(PacketAt(s, o)).Some?
    ensures |r| == |s|
  {
    s[o + TableIdOffset(PacketAt(s, o)).value := 0xFF]
  }

  function MalformedPsi(s: seq<byte>): (r: seq<byte>)
    ensures |r| == |s|
  {
    match FirstPat(s, 0)
    case None => s
    case Some(o) =>
      var broken := BreakTable(s, o);
      match FirstPmt(broken, PatPointsTo(PacketAt(s, o)), 0)
      case None => broken
      case Some(q) => BreakTable(broken, q)
  }

  method CorruptPat(buf: array<byte>) returns (pmtPid: nat, ok: bool)
    modifies buf
    ensures ok == FirstPat(old(buf[..]), 0).Some?
    ensures !ok ==> buf[..] == old(buf[..])
    ensures ok ==> var o := FirstPat(old(buf[..]), 0).value;
                   buf[..] == BreakTable(old(buf[..]), o) && pmtPid == PatPointsTo(PacketAt(old(buf[..]), o))
  {
    hide HitsPat, TableIdOffset, UnitStart, Pid;
    ghost var s := buf[..];
    var o := 0;
    while o + 188 <= buf.Length
      invariant o <= buf.Length && buf[..] == s
      invariant FirstPat(s, 0) == FirstPat(s, o)
    {
      var packet: Packet := buf[o..o + 188];
      assert packet == PacketAt(s, o);
      if HitsPat(packet) {
        pmtPid := PatPointsTo(packet);
        TableIdInPacket(packet);
        buf[o + TableIdOffset(packet).value] := 0xFF;
        return pmtPid, true;
      }
      o := o + 188;
    }
    return 0, false;
  }

  lemma TableIdInPacket(p: Packet)
    ensures HitsPat(p) ==> TableIdOffset(p).Some?
    ensures TableIdOffset(p).Some? ==> TableIdOffset(p).value < 188
    ensures forall pid :: HitsPmt(p, pid) ==> TableIdOffset(p).Some?
  {
  }

  method CorruptPmt(buf: array<byte>, pmtPid: nat) returns (ok: bool)
    modifies buf
    ensures ok == FirstPmt(old(buf[..]), pmtPid, 0).Some?
    ensures buf[..] == if ok then BreakTable(old(buf[..]), FirstPmt(old(buf[..]), pmtPid, 0).value) else old(buf[..])
  {
    hide HitsPmt, TableIdOffset, UnitStart, Pid;
    ghost var s := buf[..];
    var o := 0;
    while o + 188 <= buf.Length
      invariant o <= buf.Length && buf[..] == s
      invariant FirstPmt(s, pmtPid, 0) == FirstPmt(s, pmtPid, o)
    {
      var packet: Packet := buf[o..o + 188];
      assert packet == PacketAt(s, o);
      if HitsPmt(packet, pmtPid) {
        TableIdInPacket(packet);
        buf[o + TableIdOffset(packet).value] := 0xFF;
        return true;
      }
      o := o + 188;
    }
    return false;
  }

  method MalformedPSI(payload: array<byte>) returns (out: array<byte>)
    ensures fresh(out) && out[..] == MalformedPsi(payload[..])
  {
    out := new byte[payload.Length](i requires 0 <= i < payload.Length reads payload => payload[i]);
    assert out[..] == payload[..];
    var pmtPid, ok := CorruptPat(out);
    if ok {
      var hit := CorruptPmt(out, pmtPid);
    }
  }

  /** `r` is `s` with one byte replaced by 0xFF: the table id, until then `id`,
      of a packet on `pid` that begins a PSI section. */
  predicate Breaks(s: seq<byte>, r: seq<byte>, o: nat, pid: nat, id: byte) {
    && o + 188 <= |s|
    && var p := PacketAt(s, o);
       && Pid(p) == pid && UnitStart(p) && TableIdOffset(p).Some?
       && p[TableIdOffset(p).value] == id
       && r == s[o + TableIdOffset(p).value := 0xFF]
  }

  /** At most two bytes change: the table id of one PAT on pid 0, and that of
      one PMT on the pid this PAT names. */
  lemma OnlyTableIds(s: seq<byte>)
    ensures MalformedPsi(s) == s <==> FirstPat(s, 0) == None
    ensures FirstPat(s, 0).Some? ==>
              var o := FirstPat(s, 0).value;
              var half := BreakTable(s, o);
              && Breaks(s, half, o, 0, 0x00)
              && (MalformedPsi(s) == half
                  || exists q :: 0 <= q <= |s| && Breaks(half, MalformedPsi(s), q, PatPointsTo(PacketAt(s, o)), 0x02))
  {
    if FirstPat(s, 0).Some? {
      var o := FirstPat(s, 0).value;
      var half := BreakTable(s, o);
      var pid := PatPointsTo(PacketAt(s, o));
      BreakTableBreaks(s, o, 0, 0x00);
      var at := o + TableIdOffset(PacketAt(s, o)).value;
      hide BreakTable, Breaks, PatPointsTo, TableIdOffset, HitsPat;
      if FirstPmt(half, pid, 0).Some? {
        BreakTableBreaks(half, FirstPmt(half, pid, 0).value, pid, 0x02);
        BreaksKeeps(half, MalformedPsi(s), FirstPmt(half, pid, 0).value, pid, 0x02, at);
      }
      hide HitsPmt;
    }
  }

  lemma BreakTableBreaks(s: seq<byte>, o: nat, pid: nat, id: byte)
    requires o + 188 <= |s|
        && ((HitsPmt(PacketAt(s, o), pid) && id == 0x02) || (HitsPat(PacketAt(s, o)) && pid == 0 && id == 0x00))
    ensures Breaks(s, BreakTable(s, o), o, pid, id)
    ensures var at := o + TableIdOffset(PacketAt(s, o)).value; s[at] == id && BreakTable(s, o)[at] == 0xFF
  {
    hide UnitStart, Pid, TableIdOffset;
    var p := PacketAt(s, o);
    TableIdInPacket(p);
    assert s[o + TableIdOffset(p).value] == p[TableIdOffset(p).value];
  }

  lemma BreaksKeeps(s: seq<byte>, r: seq<byte>, o: nat, pid: nat, id: byte, i: nat)
    requires Breaks(s, r, o, pid, id) && i < |s| && s[i] == 0xFF
    ensures |r| == |s| && r[i] == 0xFF
  {
  }

  // ---------- the damage shows

  /** A receiver finds a section in the packet and its CRC does not close. */
  predicate SectionFails(p: Packet) {
    ReadSection(p).Some? && Crc32(ReadSection(p).value) != 0
  }

  /** A section read from a packet fails its CRC once its table id is broken. */
  lemma BrokenTableFails(p: Packet)
    requires ReadSection(p).Some? && WellFormed(ReadSection(p).value)
    requires p[TableIdOffset(p).value] != 0xFF
    ensures var q: Packet := p[TableIdOffset(p).value := 0xFF];
            SectionFails(q)
  {
    hide Crc32;
    var at := TableIdOffset(p).value;
    var q: Packet := p[at := 0xFF];
    TableIdKept(p, at);
    var s, t := ReadSection(p).value, ReadSection(q).value;
    hide ReadSection, TableIdOffset;
    assert s == [] + [s[0]] + s[1..] && t == [] + [0xFF] + s[1..];
    BurstDetected([], [s[0]], [0xFF], s[1..]);
  }

  lemma TableIdKept(p: Packet, at: nat)
    requires TableIdOffset(p) == Some(at)
    ensures TableIdOffset(p[at := 0xFF]) == Some(at) && 5 <= at
  {
    var q: Packet := p[at := 0xFF];
    var start := PayloadOffset(p).value;
    assert at > start && at >= 5 && q[0] == p[0] && q[3] == p[3] && q[start] == p[start] && q[4] == p[4];
  }

  /** The stream of a synthetic service begins with its PAT and its PMT. */
  function ServiceStream(p: Profile, rest: seq<byte>): seq<byte> {
    SyntheticPacket(0, true, 0, PsiPayload(PatSection(p)))
    + SyntheticPacket(p.pmtPID, true, 0, PsiPayload(PmtSection(p)))
    + rest
  }

  lemma StreamParts(p: Profile, rest: seq<byte>)
    ensures var s := ServiceStream(p, rest);
            && |s| >= 376
            && PacketAt(s, 0) == SyntheticPacket(0, true, 0, PsiPayload(PatSection(p)))
            && PacketAt(s, 188) == SyntheticPacket(p.pmtPID, true, 0, PsiPayload(PmtSection(p)))
  {
    hide SyntheticPacket, PatSection, PmtSection;
  }

  lemma PmtHit(p: Profile, pmt: Packet)
    requires pmt == SyntheticPacket(p.pmtPID, true, 0, PsiPayload(PmtSection(p)))
    ensures HitsPmt(pmt, p.pmtPID % 8192) && TableIdOffset(pmt) == Some(5) && pmt[5] == 0x02
    ensures ReadSection(pmt).Some? && WellFormed(ReadSection(pmt).value)
  {
    PmtWellFormed(p);
    SectionReadBack(p.pmtPID, 0, PmtSection(p));
    hide PmtSection, WellFormed, SyntheticPacket, ReadSection, TableIdOffset, UnitStart, Pid;
    assert pmt[5] == pmt[5..5 + |PmtSection(p)|][0];
  }

  lemma PatHit(p: Profile, pat: Packet)
    requires pat == SyntheticPacket(0, true, 0, PsiPayload(PatSection(p)))
    ensures HitsPat(pat) && PatPointsTo(pat) == p.pmtPID % 8192 && TableIdOffset(pat) == Some(5) && pat[5] == 0x00
    ensures ReadSection(pat).Some? && WellFormed(ReadSection(pat).value)
  {
    PatWellFormed(p);
    SectionReadBack(0, 0, PatSection(p));
    HitPat(p, pat);
    hide PatSection, WellFormed, SyntheticPacket, ReadSection, TableIdOffset, UnitStart, Pid;
    assert pat[5] == pat[5..5 + |PatSection(p)|][0];
  }

  /** `out` is `s` with the table ids of its first two packets broken. */
  predicate BothBroken(s: seq<byte>, out: seq<byte>) {
    |s| >= 376 && out == s[5 := 0xFF][193 := 0xFF]
  }

  lemma ServiceStreamHits(p: Profile, rest: seq<byte>)
    ensures BothBroken(ServiceStream(p, rest), MalformedPsi(ServiceStream(p, rest)))
  {
    hide ServiceStream, WellFormed, SyntheticPacket, ReadSection, HitsPat, HitsPmt, PatPointsTo, TableIdOffset,
         PacketAt, MalformedPsi, PatSection, PmtSection;
    var s := ServiceStream(p, rest);
    StreamParts(p, rest);
    PatHit(p, PacketAt(s, 0));
    PmtHit(p, PacketAt(s, 188));
    TwoHits(s, p.pmtPID % 8192);
  }

  lemma TwoHits(s: seq<byte>, pid: nat)
    requires |s| >= 376
    requires HitsPat(PacketAt(s, 0)) && PatPointsTo(PacketAt(s, 0)) == pid && TableIdOffset(PacketAt(s, 0)) == Some(5)
    requires HitsPmt(PacketAt(s, 188), pid) && TableIdOffset(PacketAt(s, 188)) == Some(5)
    ensures BothBroken(s, MalformedPsi(s))
  {
    hide TableIdOffset, HitsPat, HitsPmt, PatPointsTo;
    var half := s[5 := 0xFF];
    assert FirstPat(s, 0) == Some(0);
    TableIdKept(PacketAt(s, 0), 5);
    assert PacketAt(half, 0) == PacketAt(s, 0)[5 := 0xFF] && PacketAt(half, 188) == PacketAt(s, 188);
    BrokenNotPmt(PacketAt(half, 0), pid);
    hide PacketAt;
    assert FirstPmt(half, pid, 0) == FirstPmt(half, pid, 188) == Some(188);
  }

  lemma BrokenNotPmt(p: Packet, pid: nat)
    requires TableIdOffset(p) == Some(5) && p[5] == 0xFF
    ensures !HitsPmt(p, pid)
  {
  }

  predicate BothFail(s: seq<byte>) {
    |s| >= 376 && SectionFails(PacketAt(s, 0)) && SectionFails(PacketAt(s, 188))
  }

  /** In the stream of a synthetic service exactly the PAT and the PMT are hit,
      whatever the pids are, and both sections then fail their CRC. */
  lemma ServiceStreamFails(p: Profile, rest: seq<byte>)
    ensures BothBroken(ServiceStream(p, rest), MalformedPsi(ServiceStream(p, rest)))
    ensures BothFail(MalformedPsi(ServiceStream(p, rest)))
  {
    hide ServiceStream, MalformedPsi, SectionFails, PacketAt;
    ServiceStreamHits(p, rest);
    PartsFail(p, rest);
    BreakParts(ServiceStream(p, rest));
  }

  /** What breaking the tables of `s` must give: no change without a PAT; a byte
      that changes was the id of a PAT or a PMT and becomes 0xFF; and in the
      stream of a built service both tables are hit and fail their CRC. */
  ghost predicate TablesBroken(s: seq<byte>, out: seq<byte>) {
    && |out| == |s| && (out == s <==> FirstPat(s, 0) == None)
    && (forall i :: 0 <= i < |s| && out[i] != s[i] ==> out[i] == 0xFF && (s[i] == 0x00 || s[i] == 0x02))
    && (forall p: Profile, rest: seq<byte> :: s == ServiceStream(p, rest) ==> BothBroken(s, out) && BothFail(out))
  }

  lemma MalformedBroken(s: seq<byte>)
    ensures TablesBroken(s, MalformedPsi(s))
  {
    hide BothBroken, BothFail, ServiceStream, FirstPat, FirstPmt, TableIdOffset, Pid, UnitStart;
    OnlyTableIds(s);
    forall p: Profile, rest: seq<byte> | s == ServiceStream(p, rest)
      ensures BothBroken(s, MalformedPsi(s)) && BothFail(MalformedPsi(s))
    {
      ServiceStreamFails(p, rest);
    }
  }

  predicate FailOnceBroken(s: seq<byte>) {
    |s| >= 376 && SectionFails(PacketAt(s, 0)[5 := 0xFF]) && SectionFails(PacketAt(s, 188)[5 := 0xFF])
  }

  lemma PartsFail(p: Profile, rest: seq<byte>)
    ensures FailOnceBroken(ServiceStream(p, rest))
  {
    hide ServiceStream, SyntheticPacket, HitsPat, HitsPmt, PatPointsTo, WellFormed, ReadSection, SectionFails,
         TableIdOffset, PacketAt, PatSection, PmtSection;
    var s := ServiceStream(p, rest);
    StreamParts(p, rest);
    PatHit(p, PacketAt(s, 0));
    PmtHit(p, PacketAt(s, 188));
    BrokenTableFails(PacketAt(s, 0));
    BrokenTableFails(PacketAt(s, 188));
  }

  lemma BreakParts(s: seq<byte>)
    requires |s| >= 376
    ensures var out := s[5 := 0xFF][193 := 0xFF];
            PacketAt(out, 0) == PacketAt(s, 0)[5 := 0xFF] && PacketAt(out, 188) == PacketAt(s, 188)[5 := 0xFF]
  {
  }

  lemma HitPat(p: Profile, pat: Packet)
    requires Pid(pat) == 0 && UnitStart(pat) && TableIdOffset(pat) == Some(5)
    requires WellFormed(PatSection(p)) && pat[5..5 + |PatSection(p)|] == PatSection(p)
    ensures HitsPat(pat) && PatPointsTo(pat) == p.pmtPID % 8192
  {
    PatWellFormed(p);
    PatIsHead(p);
    hide WellFormed, UnitStart, Pid, TableIdOffset, AppendCrc;
    var s := PatSection(p);
    assert pat[5] == pat[5..5 + |s|][0] && pat[15] == pat[5..5 + |s|][10] && pat[16] == pat[5..5 + |s|][11];
  }

  // ---------- continuity counters

  /** How often each pid has been seen. */
  type Seen = map<nat, nat>

  function SeenOn(seen: Seen, pid: nat): nat {
    if pid in seen then seen[pid] else 0
  }

  function BreakCounter(p: Packet, seen: Seen): (Packet, Seen) {
    if !Sync(p) then (p, seen)
    else
      var n := SeenOn(seen, Pid(p));
      (if n % 2 == 0 then SetCounter(p, (Counter(p) as int + 7) % 16) else p, seen[Pid(p) := n + 1])
  }

  function CounterErrors(s: seq<byte>, seen: Seen): (r: seq<byte>)
    ensures |r| == |s|
  {
    if |s| < 188 then s
    else
      var (q, next) := BreakCounter(s[..188], seen);
      q + CounterErrors(s[188..], next)
  }

  /** How many packets on a pid begin before `o`. */
  function Earlier(s: seq<byte>, pid: nat, o: nat): nat {
    if o < 188 || |s| < 188 then 0
    else (if Sync(s[..188]) && Pid(s[..188]) == pid then 1 else 0) + Earlier(s[188..], pid, o - 188)
  }

  function Broken(p: Packet, n: nat): Packet {
    if Sync(p) && n % 2 == 0 then SetCounter(p, (Counter(p) as int + 7) % 16) else p
  }

  lemma {:induction false} CounterErrorsFrom(s: seq<byte>, seen: Seen, o: nat)
    requires o % 188 == 0 && o + 188 <= |s|
    ensures var p := PacketAt(s, o);
            PacketAt(CounterErrors(s, seen), o) == Broken(p, SeenOn(seen, Pid(p)) + Earlier(s, Pid(p), o))
    decreases o
  {
    hide Pid, Sync, Counter, SetCounter, CounterErrors;
    var (q, next) := BreakCounter(s[..188], seen);
    var rest := CounterErrors(s[188..], next);
    CounterErrorsFront(s, seen);
    if o == 0 {
      assert PacketAt(CounterErrors(s, seen), 0) == q && PacketAt(s, 0) == s[..188];
    } else {
      var p := PacketAt(s, o);
      assert p == PacketAt(s[188..], o - 188);
      assert PacketAt(CounterErrors(s, seen), o) == PacketAt(rest, o - 188);
      CounterErrorsFrom(s[188..], next, o - 188);
      SeenNext(s[..188], seen, Pid(p));
    }
  }

  lemma SeenNext(p: Packet, seen: Seen, pid: nat)
    ensures SeenOn(BreakCounter(p, seen).1, pid) == SeenOn(seen, pid) + if Sync(p) && Pid(p) == pid then 1 else 0
  {
    hide Pid, SetCounter;
  }

  /** The packet at `o` has counter plus 7 if it is the first, third, fifth and
      so on of its pid, and is otherwise the same. */
  predicate CounterOff(s: seq<byte>, out: seq<byte>, o: nat)
    requires o + 188 <= |s| == |out|
  {
    var (p, q) := (PacketAt(s, o), PacketAt(out, o));
    && OnlyCounter(p, q)
    && Counter(q) == if Sync(p) && Earlier(s, Pid(p), o) % 2 == 0 then (Counter(p) as int + 7) % 16 else Counter(p)
  }

  /** Every other packet of every pid has a wrong counter, and nothing else has
      changed. */
  predicate CountersOff(s: seq<byte>, out: seq<byte>) {
    && |out| == |s| && out[|s| / 188 * 188..] == s[|s| / 188 * 188..]
    && forall o: nat :: o % 188 == 0 && o + 188 <= |s| ==> CounterOff(s, out, o)
  }

  /** The first, third, fifth packet of every pid, and so on, gets a wrong
      counter, and nothing else changes. */
  lemma CounterErrorsExact(s: seq<byte>, o: nat)
    requires o % 188 == 0 && o + 188 <= |s|
    ensures CounterOff(s, CounterErrors(s, map[]), o)
    ensures var (p, q) := (PacketAt(s, o), PacketAt(CounterErrors(s, map[]), o));
            Counter(q) != Counter(p) <==> Sync(p) && Earlier(s, Pid(p), o) % 2 == 0
  {
    hide CounterErrors, Earlier;
    var p := PacketAt(s, o);
    CounterErrorsFrom(s, map[], o);
    SetCounterFacts(p, (Counter(p) as int + 7) % 16);
    OnlyItself(p);
    hide SetCounter, Counter, OnlyCounter, Pid, PacketAt;
  }

  lemma {:induction false} CounterErrorsTail(s: seq<byte>, seen: Seen)
    ensures CounterErrors(s, seen)[|s| / 188 * 188..] == s[|s| / 188 * 188..]
  {
    if |s| >= 188 {
      var (q, next) := BreakCounter(s[..188], seen);
      hide BreakCounter;
      CounterErrorsTail(s[188..], next);
      var n := |s| / 188 * 188;
      assert |s[188..]| / 188 * 188 == n - 188;
      assert s[n..] == s[188..][n - 188..];
      assert (q + CounterErrors(s[188..], next))[n..] == CounterErrors(s[188..], next)[n - 188..];
    }
  }

  /** The whole payload. */
  lemma CountersAllOff(s: seq<byte>)
    ensures CountersOff(s, CounterErrors(s, map[]))
  {
    hide CounterOff;
    CounterErrorsTail(s, map[]);
    forall o: nat | o % 188 == 0 && o + 188 <= |s|
      ensures CounterOff(s, CounterErrors(s, map[]), o)
    {
      CounterErrorsExact(s, o);
    }
  }

  lemma OnlyItself(p: Packet)
    ensures OnlyCounter(p, p)
  {
  }

  /** Only counters are touched, so the payload keeps its clock and its cycle
      duration, and every run may switch to it and back. */
  lemma CounterErrorsKeepClock(s: seq<byte>, seen: Seen)
    ensures SameClock(CounterErrors(s, seen), s)
    ensures Duration(StreamStamps(CounterErrors(s, seen))) == Duration(StreamStamps(s))
  {
    hide CounterErrors, StreamStamps, SameClock, Duration;
    CounterErrorsSameClock(s, seen);
    SameClockDuration(CounterErrors(s, seen), s);
  }

  lemma {:induction false} CounterErrorsSameClock(s: seq<byte>, seen: Seen)
    ensures SameClock(CounterErrors(s, seen), s)
  {
    if |s| >= 188 {
      var p: Packet := s[..188];
      var (q, next) := BreakCounter(p, seen);
      SetCounterFacts(p, (Counter(p) as int + 7) % 16);
      assert OnlyCounter(p, q);
      OnlyCounterHeader(p, q);
      hide BreakCounter, PacketStamps, OnlyCounter;
      CounterErrorsSameClock(s[188..], next);
      var r := CounterErrors(s, seen);
      assert r[..188] == q && r[188..] == CounterErrors(s[188..], next);
    }
  }

  method ContinuityCounterErrors(payload: array<byte>) returns (out: array<byte>)
    ensures fresh(out) && out[..] == CounterErrors(payload[..], map[])
  {
    hide BreakCounter, CounterErrors;
    out := new byte[payload.Length](i requires 0 <= i < payload.Length reads payload => payload[i]);
    ghost var s := payload[..];
    assert out[..] == s;
    var seen: Seen := map[];
    var o := 0;
    while o + 188 <= out.Length
      invariant o <= out.Length && out[o..] == s[o..]
      invariant out[..o] + CounterErrors(s[o..], seen) == CounterErrors(s, map[])
    {
      ghost var rest, before := s[o..], seen;
      ghost var done := out[..o];
      CounterErrorsFront(rest, seen);
      assert out[o..o + 188] == rest[..188];
      seen := BreakCounterInPlace(out, o, seen);
      assert rest[188..] == s[o + 188..];
      assert out[..o + 188] == done + out[o..o + 188];
      o := o + 188;
    }
    CounterErrorsEnd(s[o..], seen);
    assert out[..] == out[..o] + s[o..];
  }

  lemma CounterErrorsFront(s: seq<byte>, seen: Seen)
    requires |s| >= 188
    ensures var (q, next) := BreakCounter(s[..188], seen); CounterErrors(s, seen) == q + CounterErrors(s[188..], next)
  {
    hide BreakCounter;
  }

  lemma CounterErrorsEnd(s: seq<byte>, seen: Seen)
    requires |s| < 188
    ensures CounterErrors(s, seen) == s
  {
  }

  method BreakCounterInPlace(buf: array<byte>, o: nat, seen: Seen) returns (next: Seen)
    requires o + 188 <= buf.Length
    modifies buf
    ensures forall i :: 0 <= i < buf.Length && i != o + 3 ==> buf[i] == old(buf[i])
    ensures (buf[o..o + 188], next) == BreakCounter(old(buf[o..o + 188]), seen)
  {
    var packet: Packet := buf[o..o + 188];
    next := seen;
    if buf[o] != 0x47 {
      return;
    }
    var pid := Pid(packet);
    var n := SeenOn(seen, pid);
    next := next[pid := n + 1];
    if n % 2 == 0 {
      buf[o + 3] := buf[o + 3] / 16 * 16 + (buf[o + 3] as int + 7) % 16;
      assert buf[o..o + 188] == SetCounter(packet, (Counter(packet) as int + 7) % 16);
    }
  }
}
