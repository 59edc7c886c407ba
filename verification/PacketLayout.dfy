/** Transport packets put together bit by bit as ISO/IEC 13818-1 lays them out
    (sections 2.4.3.2, 2.4.3.4 and 2.4.3.6), and what the code reads from them
    and writes into them. Nothing here looks into a packet by way of the code's
    own readers except to compare the two. */
module PacketLayout {
  import opened Arithmetic
  import opened Bytes
  import opened Bits
  import opened Transport
  import opened Stamps
  import opened Timestamps
  import opened Continuity
  import Sections
  import Mutators

  /** The bytes of a string of bits, eight at a time. */
  function BytesOf(bits: seq<bool>): (r: seq<byte>)
    requires |bits| % 8 == 0
    ensures |r| == |bits| / 8
  {
    if bits == [] then []
    else
      var n := |bits| - 8;
      ValueBound(bits[n..]);
      BytesOf(bits[..n]) + [Value(bits[n..])]
  }

  /** An adaptation field: one byte of length 0, or eight flags (discontinuity,
      random access, priority, PCR, OPCR, splicing point, private data,
      extension), the PCR when its flag says so, and whatever follows. */
  datatype Adaptation =
    | Bare
    | Field(before: seq<bool>, clock: bool, after: seq<bool>, pcr: seq<bool>, low: seq<bool>, rest: seq<byte>)

  /** The times a PES header carries, announced by two flags. */
  datatype Times = Untimed(flag: bool) | Presented(pts: seq<bool>) | Both(pts: seq<bool>, dts: seq<bool>)

  datatype Payload =
    | Plain(bytes: seq<byte>)
    | Pes(id: byte, size: seq<byte>, first: seq<bool>, times: Times, second: seq<bool>, length: byte, bytes: seq<byte>)

  datatype Layout = Layout(
    error: bool, unit: bool, priority: bool, pid: seq<bool>, scrambling: seq<bool>, counter: seq<bool>,
    adaptation: Option<Adaptation>, payload: Option<Payload>)

  // ---------- the right sizes

  predicate ProperField(a: Adaptation) {
    a.Field? ==> |a.before| == 3 && |a.after| == 4 && |a.pcr| == 33 && |a.low| == 15 && |a.rest| < 177
  }

  predicate ProperTimes(t: Times) {
    match t
    case Untimed(_) => true
    case Presented(pts) => |pts| == 33
    case Both(pts, dts) => |pts| == 33 && |dts| == 33
  }

  predicate ProperPayload(p: Payload, unit: bool) {
    match p
    case Plain(bytes) => unit && |bytes| >= 3 ==> bytes[..3] != [0, 0, 1]
    case Pes(_, size, first, times, second, _, _) =>
      unit && |size| == 2 && |first| == 6 && |second| == 6 && ProperTimes(times)
  }

  predicate ProperHeader(x: Layout) {
    |x.pid| == 13 && |x.scrambling| == 2 && |x.counter| == 4
  }

  predicate Proper(x: Layout) {
    && ProperHeader(x)
    && (x.adaptation.Some? ==> ProperField(x.adaptation.value))
    && (x.payload.Some? ==> ProperPayload(x.payload.value, x.unit))
    && |FieldOf(x)| + |PayloadOf(x)| == 184
  }

  // ---------- assembly

  function HeaderBits(x: Layout): (r: seq<bool>)
    requires ProperHeader(x)
    ensures |r| == 24
  {
    [x.error, x.unit, x.priority] + x.pid + x.scrambling + [x.adaptation.Some?, x.payload.Some?] + x.counter
  }

  function FieldBytes(a: Adaptation): seq<byte>
    requires ProperField(a)
  {
    match a
    case Bare => [0]
    case Field(before, clock, after, pcr, low, rest) =>
      var body := BytesOf(before + [clock] + after) + (if clock then BytesOf(pcr + low) else []) + rest;
      [|body|] + body
  }

  /** A PES timestamp: four bits of prefix, then three, fifteen and fifteen bits
      with a marker bit after each. */
  function TimeBytes(prefix: seq<bool>, time: seq<bool>): (r: seq<byte>)
    requires |prefix| == 4 && |time| == 33
    ensures |r| == 5
  {
    BytesOf(prefix + time[..3] + [true] + time[3..18] + [true] + time[18..] + [true])
  }

  const PTS_ONLY: seq<bool> := [false, false, true, false]
  const PTS_FIRST: seq<bool> := [false, false, true, true]
  const DTS_SECOND: seq<bool> := [false, false, false, true]

  function TimesFlags(t: Times): (r: seq<bool>)
    ensures |r| == 2
  {
    match t
    case Untimed(flag) => [false, flag]
    case Presented(_) => [true, false]
    case Both(_, _) => [true, true]
  }

  function TimesBytes(t: Times): seq<byte>
    requires ProperTimes(t)
  {
    match t
    case Untimed(_) => []
    case Presented(pts) => TimeBytes(PTS_ONLY, pts)
    case Both(pts, dts) => TimeBytes(PTS_FIRST, pts) + TimeBytes(DTS_SECOND, dts)
  }

  function PayloadBytes(p: Payload, unit: bool): seq<byte>
    requires ProperPayload(p, unit)
  {
    match p
    case Plain(bytes) => bytes
    case Pes(id, size, first, times, second, length, bytes) =>
      [0, 0, 1, id] + size + BytesOf([true, false] + first) + BytesOf(TimesFlags(times) + second) + [length]
      + TimesBytes(times) + bytes
  }

  function FieldOf(x: Layout): seq<byte> {
    if x.adaptation.Some? && ProperField(x.adaptation.value) then FieldBytes(x.adaptation.value) else []
  }

  function PayloadOf(x: Layout): seq<byte> {
    if x.payload.Some? && ProperPayload(x.payload.value, x.unit) then PayloadBytes(x.payload.value, x.unit) else []
  }

  function Assembled(x: Layout): Packet
    requires Proper(x)
  {
    [0x47] + BytesOf(HeaderBits(x)) + FieldOf(x) + PayloadOf(x)
  }

  // ---------- what the packet carries

  function ClockStamps(x: Layout): seq<Stamp> {
    if x.adaptation.Some? && x.adaptation.value.Field? && x.adaptation.value.clock
    then [Stamp(Value(x.pid), Pcr, Value(x.adaptation.value.pcr))] else []
  }

  function TimesStamps(x: Layout): seq<Stamp> {
    if x.payload.None? || x.payload.value.Plain? then []
    else
      match x.payload.value.times
      case Untimed(_) => []
      case Presented(pts) => [Stamp(Value(x.pid), Pts, Value(pts))]
      case Both(pts, dts) => [Stamp(Value(x.pid), Pts, Value(pts)), Stamp(Value(x.pid), Dts, Value(dts))]
  }

  function MovedBits(time: seq<bool>, d: int): (r: seq<bool>)
    ensures |r| == 33
  {
    Digits((Value(time) + d) % CLOCK, 33)
  }

  function MovedField(a: Adaptation, d: int): Adaptation {
    if a.Field? && a.clock then a.(pcr := MovedBits(a.pcr, d)) else a
  }

  function MovedTimes(t: Times, d: int): Times {
    match t
    case Untimed(_) => t
    case Presented(pts) => Presented(MovedBits(pts, d))
    case Both(pts, dts) => Both(MovedBits(pts, d), MovedBits(dts, d))
  }

  /** The same packet with every time moved on by `d`, modulo 2^33. */
  function Moved(x: Layout, d: int): Layout {
    x.(adaptation := if x.adaptation.Some? then Some(MovedField(x.adaptation.value, d)) else None,
       payload := if x.payload.Some? && x.payload.value.Pes?
                  then Some(x.payload.value.(times := MovedTimes(x.payload.value.times, d))) else x.payload)
  }

  // ---------- bits and numbers

  lemma ValueSnoc(d: seq<bool>, x: bool)
    ensures Value(d + [x]) == 2 * Value(d) + if x then 1 else 0
  {
    assert (d + [x])[..|d|] == d;
  }

  lemma Pow2Next(k: nat)
    ensures Pow2(k + 1) == 2 * Pow2(k)
  {
  }

  lemma {:induction false} ValueAppend(a: seq<bool>, b: seq<bool>)
    ensures Value(a + b) == Value(a) * Pow2(|b|) + Value(b)
  {
    if b == [] {
      assert a + b == a;
    } else {
      var c, x := b[..|b| - 1], b[|b| - 1];
      hide Value, Pow2;
      ValueAppend(a, c);
      assert a + b == (a + c) + [x] && b == c + [x];
      ValueSnoc(a + c, x);
      ValueSnoc(c, x);
      Pow2Next(|c|);
      assert Pow2(|b|) == 2 * Pow2(|c|);
      Doubled(Value(a), Pow2(|c|));
    }
  }

  lemma Pow2Values()
    ensures Pow2(1) == 2 && Pow2(2) == 4 && Pow2(4) == 16 && Pow2(5) == 32 && Pow2(6) == 64 && Pow2(7) == 128
    ensures Pow2(8) == 256 && Pow2(15) == 0x8000 && Pow2(18) == 0x4_0000 && Pow2(30) == 0x4000_0000 && Pow2(33) == CLOCK
  {
    assert Pow2(3) == 8;
    assert Pow2(10) == 1024 by { assert Pow2(9) == 512; }
    assert Pow2(13) == 8192 by { assert Pow2(12) == 4096; }
    assert Pow2(20) == 0x10_0000 by { assert Pow2(16) == 0x1_0000; }
    assert Pow2(25) == 0x200_0000 by { assert Pow2(22) == 0x40_0000; }
    assert Pow2(28) == 0x1000_0000;
    assert Pow2(31) == 0x8000_0000;
  }

  lemma BytesOfEight(a: seq<bool>)
    requires |a| == 8
    ensures BytesOf(a) == [Value(a)] && Value(a) < 256
  {
    ValueBound(a);
    assert a[..0] == [] && a[0..] == a;
  }

  /** Eight more bits are one more byte. */
  lemma BytesOfNext(a: seq<bool>, last: seq<bool>)
    requires |a| % 8 == 0 && |last| == 8
    ensures BytesOf(a + last) == BytesOf(a) + BytesOf(last)
  {
    BytesOfEight(last);
    hide Value;
    assert (a + last)[..|a|] == a && (a + last)[|a|..] == last;
  }

  lemma {:induction false} BytesOfAppend(a: seq<bool>, b: seq<bool>)
    requires |a| % 8 == 0 && |b| % 8 == 0
    ensures BytesOf(a + b) == BytesOf(a) + BytesOf(b)
    decreases |b|
  {
    hide Value, BytesOf;
    if b == [] {
      assert a + b == a;
      NoBytes();
    } else {
      var n := |b| - 8;
      var init, last := b[..n], b[n..];
      assert b == init + last && a + b == (a + init) + last;
      BytesOfAppend(a, init);
      BytesOfNext(a + init, last);
      BytesOfNext(init, last);
    }
  }

  lemma NoBytes()
    ensures BytesOf([]) == []
  {
  }

  lemma {:induction false} BytesOfValue(a: seq<bool>)
    requires |a| % 8 == 0
    ensures FromBigEndian(BytesOf(a)) == Value(a)
  {
    if a != [] {
      var n := |a| - 8;
      BytesOfValue(a[..n]);
      BytesOfEight(a[n..]);
      ValueAppend(a[..n], a[n..]);
      Pow2Values();
      assert a[..n] + a[n..] == a;
      var r := BytesOf(a);
      assert r[..|r| - 1] == BytesOf(a[..n]);
    }
  }

  // ---------- reading the header

  lemma HeaderBytes(x: Layout)
    requires ProperHeader(x)
    ensures BytesOf(HeaderBits(x))
         == [Value([x.error, x.unit, x.priority] + x.pid[..5]), Value(x.pid[5..]),
             Value(x.scrambling + [x.adaptation.Some?, x.payload.Some?] + x.counter)]
  {
    hide Value;
    var a, b := [x.error, x.unit, x.priority] + x.pid[..5], x.pid[5..];
    var c := x.scrambling + [x.adaptation.Some?, x.payload.Some?] + x.counter;
    assert HeaderBits(x) == a + (b + c);
    BytesOfAppend(b, c);
    BytesOfAppend(a, b + c);
    BytesOfEight(a);
    BytesOfEight(b);
    BytesOfEight(c);
  }

  lemma FirstByte(error: bool, unit: bool, priority: bool, high: seq<bool>)
    requires |high| == 5
    ensures var b := Value([error, unit, priority] + high);
            b % 32 == Value(high) && b / 64 % 2 == (if unit then 1 else 0) && b < 256
  {
    hide Value, Pow2;
    ValueAppend([error, unit, priority], high);
    ValueBound(high);
    Pow2Values();
    ThreeBits(error, unit, priority);
    var (e, u, p, h) := (if error then 1 else 0, if unit then 1 else 0, if priority then 1 else 0, Value(high));
    assert Value([error, unit, priority] + high) == 64 * (2 * e + u) + (32 * p + h);
  }

  lemma OneBit(a: bool)
    ensures Value([a]) == if a then 1 else 0
  {
    ValueSnoc([], a);
    assert [] + [a] == [a];
  }

  lemma TwoBits(a: bool, b: bool)
    ensures Value([a, b]) == (if a then 2 else 0) + if b then 1 else 0
  {
    hide Value;
    OneBit(a);
    ValueSnoc([a], b);
    assert [a] + [b] == [a, b];
  }

  lemma ThreeBits(a: bool, b: bool, c: bool)
    ensures Value([a, b, c]) == (if a then 4 else 0) + (if b then 2 else 0) + if c then 1 else 0
  {
    hide Value;
    TwoBits(a, b);
    ValueSnoc([a, b], c);
    assert [a, b] + [c] == [a, b, c];
  }

  lemma ThirdByte(scrambling: seq<bool>, a: bool, p: bool, counter: seq<bool>)
    requires |scrambling| == 2 && |counter| == 4
    ensures var b := Value(scrambling + [a, p] + counter);
            b % 16 == Value(counter) < 16 && b / 16 % 4 == (if a then 2 else 0) + (if p then 1 else 0) && b < 256
  {
    hide Value, Pow2;
    ValueAppend(scrambling + [a, p], counter);
    ValueAppend(scrambling, [a, p]);
    TwoBits(a, p);
    ValueBound(counter);
    ValueBound(scrambling);
    Pow2Values();
    var (s, c, n) := (Value(scrambling), Value([a, p]), Value(counter));
    assert Value(scrambling + [a, p] + counter) == 16 * (4 * s + c) + n;
  }

  /** Pid, counter, unit start and the kind of the packet are read as laid out. */
  lemma HeaderRead(x: Layout)
    requires Proper(x)
    ensures var p := Assembled(x);
            && Sync(p) && Pid(p) == Value(x.pid) && UnitStart(p) == x.unit && Counter(p) == Value(x.counter)
            && HasPayload(p) == x.payload.Some? && Counted(p) == (x.adaptation.Some? || x.payload.Some?)
            && AdaptationControl(p) == (if x.adaptation.Some? then 2 else 0) + (if x.payload.Some? then 1 else 0)
  {
    hide Value, BytesOf, FieldOf, PayloadOf;
    HeaderBytes(x);
    FirstByte(x.error, x.unit, x.priority, x.pid[..5]);
    ThirdByte(x.scrambling, x.adaptation.Some?, x.payload.Some?, x.counter);
    ValueAppend(x.pid[..5], x.pid[5..]);
    Pow2Values();
    assert x.pid[..5] + x.pid[5..] == x.pid;
  }

  // ---------- the clock

  lemma ClockRead(pcr: seq<bool>, low: seq<bool>)
    requires |pcr| == 33 && |low| == 15
    ensures var e := BytesOf(pcr + low);
            ReadPcr(e[..5]) == Value(pcr) && e[4] % 128 == Value(low[..7]) && e[5] == Value(low[7..])
  {
    hide Value, BytesOf, FromBigEndian;
    var a, b, c := pcr[..32], pcr[32..] + low[..7], low[7..];
    assert pcr + low == a + (b + c);
    BytesOfAppend(b, c);
    BytesOfAppend(a, b + c);
    BytesOfEight(b);
    BytesOfEight(c);
    BytesOfValue(a);
    ValueAppend(pcr[..32], pcr[32..]);
    ValueAppend(pcr[32..], low[..7]);
    ValueBound(low[..7]);
    ValueBound(pcr[32..]);
    Pow2Values();
    assert pcr[..32] + pcr[32..] == pcr;
    var e := BytesOf(pcr + low);
    assert e[..5][..4] == BytesOf(a);
  }

  lemma FlagsByte(before: seq<bool>, clock: bool, after: seq<bool>)
    requires |before| == 3 && |after| == 4
    ensures BytesOf(before + [clock] + after) == [Value(before + [clock] + after)]
    ensures Value(before + [clock] + after) / 16 % 2 == if clock then 1 else 0
  {
    hide Value, Pow2, BytesOf;
    BytesOfEight(before + [clock] + after);
    ValueAppend(before + [clock], after);
    ValueSnoc(before, clock);
    ValueBound(after);
    Pow2Values();
    assert Value(before + [clock] + after) == 16 * (2 * Value(before) + if clock then 1 else 0) + Value(after);
  }

  lemma FieldStart(x: Layout)
    requires Proper(x) && x.adaptation.Some?
    ensures var p, f := Assembled(x), FieldOf(x);
            p[4..4 + |f|] == f && |f| >= 1 && p[4] as int == |f| - 1
  {
    hide Value, BytesOf;
  }

  lemma ClockFound(x: Layout)
    requires Proper(x)
    ensures PcrStamps(Assembled(x)) == ClockStamps(x)
  {
    hide Value, BytesOf, ReadPcr, PayloadOf;
    var p := Assembled(x);
    HeaderRead(x);
    if x.adaptation.Some? {
      FieldStart(x);
      match x.adaptation.value {
        case Bare =>
        case Field(before, clock, after, pcr, low, rest) =>
          FlagsByte(before, clock, after);
          var f := FieldOf(x);
          assert p[5] == f[1];
          if clock {
            ClockRead(pcr, low);
            assert f[2..8] == BytesOf(pcr + low);
            assert p[6..11] == f[2..7] == BytesOf(pcr + low)[..5];
          }
      }
    }
  }

  // ---------- the times of a PES header

  lemma TimeGroups(prefix: seq<bool>, time: seq<bool>)
    requires |prefix| == 4 && |time| == 33
    ensures TimeBytes(prefix, time)
         == [Value(prefix + time[..3] + [true]), Value(time[3..11]), Value(time[11..18] + [true]), Value(time[18..26]),
             Value(time[26..] + [true])]
  {
    hide Value, BytesOf;
    var a, b, c := prefix + time[..3] + [true], time[3..11], time[11..18] + [true];
    var d, e := time[18..26], time[26..] + [true];
    assert prefix + time[..3] + [true] + time[3..18] + [true] + time[18..] + [true] == a + (b + (c + (d + e)));
    BytesOfAppend(d, e);
    BytesOfAppend(c, d + e);
    BytesOfAppend(b, c + (d + e));
    BytesOfAppend(a, b + (c + (d + e)));
    BytesOfEight(a);
    BytesOfEight(b);
    BytesOfEight(c);
    BytesOfEight(d);
    BytesOfEight(e);
  }

  lemma Fifteen(bits: seq<bool>)
    requires |bits| == 15
    ensures var (a, b) := (Value(bits[..8]), Value(bits[8..] + [true]));
            a < 256 && b < 256 && b % 2 == 1 && a * 128 + b / 2 == Value(bits)
  {
    hide Value, Pow2;
    ValueBound(bits[..8]);
    ValueBound(bits[8..] + [true]);
    ValueSnoc(bits[8..], true);
    ValueAppend(bits[..8], bits[8..]);
    Pow2Values();
    assert bits[..8] + bits[8..] == bits;
  }

  lemma ThreeGroups(time: seq<bool>)
    requires |time| == 33
    ensures Value(time) == Value(time[..3]) * 0x4000_0000 + Value(time[3..18]) * 0x8000 + Value(time[18..])
  {
    hide Value, Pow2;
    assert time == time[..18] + time[18..] && time[..18] == time[..3] + time[3..18];
    ValueAppend(time[..18], time[18..]);
    ValueAppend(time[..3], time[3..18]);
    Pow2Values();
  }

  lemma Leading(prefix: seq<bool>, three: seq<bool>)
    requires |prefix| == 4 && |three| == 3
    ensures var b := Value(prefix + three + [true]);
            b < 256 && b % 2 == 1 && b / 2 % 8 == Value(three) && b / 16 == Value(prefix)
  {
    hide Value, Pow2;
    ValueSnoc(prefix + three, true);
    ValueAppend(prefix, three);
    ValueBound(prefix + three + [true]);
    ValueBound(three);
    Pow2Values();
    assert Pow2(3) == 8 by { Pow2Next(2); }
    var (p, t) := (Value(prefix), Value(three));
    assert Value(prefix + three + [true]) == 16 * p + (2 * t + 1);
  }

  lemma TimeRead(prefix: seq<bool>, time: seq<bool>)
    requires |prefix| == 4 && |time| == 33
    ensures var e := TimeBytes(prefix, time);
            ReadPes(e) == Value(time) && Marked(e) && e[0] as int / 16 == Value(prefix)
  {
    hide Value, BytesOf;
    TimeGroups(prefix, time);
    Leading(prefix, time[..3]);
    Fifteen(time[3..18]);
    Fifteen(time[18..]);
    ThreeGroups(time);
    assert time[3..18][..8] == time[3..11] && time[3..18][8..] == time[11..18];
    assert time[18..][..8] == time[18..26] && time[18..][8..] == time[26..];
  }

  lemma TimesFlagsByte(t: Times, second: seq<bool>)
    requires |second| == 6
    ensures BytesOf(TimesFlags(t) + second) == [Value(TimesFlags(t) + second)]
    ensures Value(TimesFlags(t) + second) / 64
        == (if t.Untimed? then (if t.flag then 1 else 0) else if t.Both? then 3 else 2)
  {
    hide BytesOf, Value, Pow2;
    BytesOfEight(TimesFlags(t) + second);
    ValueAppend(TimesFlags(t), second);
    ValueBound(second);
    Pow2Values();
    TwoBits(!t.Untimed?, if t.Untimed? then t.flag else t.Both?);
  }

  /** The first nine bytes of a PES payload, then the times. */
  lemma PesStart(p: Payload)
    requires p.Pes? && ProperPayload(p, true)
    ensures var l := PayloadBytes(p, true);
            && |l| == 9 + |TimesBytes(p.times)| + |p.bytes|
            && l[..3] == [0, 0, 1] && l[7] == Value(TimesFlags(p.times) + p.second)
            && l[9..9 + |TimesBytes(p.times)|] == TimesBytes(p.times)
  {
    hide TimeBytes, Value;
    BytesOfEight([true, false] + p.first);
    TimesFlagsByte(p.times, p.second);
    hide BytesOf, TimesFlags;
  }

  lemma PayloadStart(x: Layout)
    requires Proper(x)
    ensures var p, at := Assembled(x), 4 + |FieldOf(x)|;
            && p[at..] == PayloadOf(x)
            && (x.payload.Some? && at < 188 ==> PayloadOffset(p) == Some(at))
            && (x.payload.None? || at == 188 ==> PayloadOffset(p) == None)
  {
    hide Value, BytesOf, PayloadOf;
    HeaderRead(x);
    if x.adaptation.Some? {
      FieldStart(x);
    }
  }

  lemma TimesFound(x: Layout)
    requires Proper(x)
    ensures PesStamps(Assembled(x)) == TimesStamps(x)
    ensures PesAt(Assembled(x)) == if TimesStamps(x) == [] then None else Some(4 + |FieldOf(x)|)
    ensures TimesStamps(x) != [] ==> HasDts(Assembled(x), 4 + |FieldOf(x)|) == x.payload.value.times.Both?
  {
    hide Assembled, Value, FieldOf, PayloadOf, PayloadOffset, PayloadBytes, ProperField;
    var p, at := Assembled(x), 4 + |FieldOf(x)|;
    HeaderRead(x);
    PayloadStart(x);
    if x.payload.Some? && at < 188 {
      PayloadIs(x);
      if x.payload.value.Plain? {
        PlainFound(p, at, x.payload.value);
      } else {
        PesFound(p, at, x.payload.value);
      }
    } else if x.payload.Some? && x.payload.value.Pes? {
      PayloadIs(x);
      NoRoomForPes(x.payload.value);
    }
  }

  lemma PayloadIs(x: Layout)
    requires Proper(x) && x.payload.Some?
    ensures PayloadOf(x) == PayloadBytes(x.payload.value, x.unit)
  {
    hide PayloadBytes;
  }

  lemma NoRoomForPes(p: Payload)
    requires p.Pes? && ProperPayload(p, true)
    ensures PayloadBytes(p, true) != []
  {
    PesStart(p);
  }

  lemma PlainFound(p: Packet, at: nat, payload: Payload)
    requires payload.Plain? && ProperPayload(payload, UnitStart(p)) && PayloadOffset(p) == Some(at)
    requires p[at..] == PayloadBytes(payload, UnitStart(p))
    ensures PesAt(p) == None
  {
    hide PayloadOffset, UnitStart;
    if at + 3 <= 188 {
      assert p[at..at + 3] == p[at..][..3];
    }
  }

  lemma PesFound(p: Packet, at: nat, payload: Payload)
    requires payload.Pes? && ProperPayload(payload, true) && UnitStart(p) && PayloadOffset(p) == Some(at)
    requires p[at..] == PayloadBytes(payload, true)
    ensures var t := payload.times;
            if t.Untimed? then PesAt(p) == None
            else
              && PesAt(p) == Some(at) && HasDts(p, at) == t.Both? && ReadPes(p[at + 9..at + 14]) == Value(t.pts)
              && (t.Both? ==> ReadPes(p[at + 14..at + 19]) == Value(t.dts))
  {
    hide Value, ReadPes, PayloadOffset, UnitStart, PayloadBytes, TimeBytes;
    var l, t := PayloadBytes(payload, true), payload.times;
    PesStart(payload);
    TimesFlagsByte(t, payload.second);
    assert p[at..at + 3] == p[at..][..3] && p[at + 7] == p[at..][7];
    if !t.Untimed? {
      TimesAt(p, at, l, t);
    }
  }

  /** Five bytes of a slice. */
  lemma SliceOfSlice(s: seq<byte>, lo: nat, hi: nat, i: nat)
    requires lo + i + 5 <= hi <= |s|
    ensures s[lo..hi][i..i + 5] == s[lo + i..lo + i + 5]
  {
    var f, k := s[lo..hi], lo + i;
    assert f[i..i + 5] == [f[i], f[i + 1], f[i + 2], f[i + 3], f[i + 4]];
    assert s[k..k + 5] == [s[k], s[k + 1], s[k + 2], s[k + 3], s[k + 4]];
  }

  /** The fields lie behind the nine bytes. */
  lemma TimesAt(p: Packet, at: nat, l: seq<byte>, t: Times)
    requires at + |l| == 188 && p[at..] == l && ProperTimes(t) && |l| >= 9 + |TimesBytes(t)| && !t.Untimed?
    requires l[9..9 + |TimesBytes(t)|] == TimesBytes(t)
    ensures t.Presented? ==> p[at + 9..at + 14] == TimeBytes(PTS_ONLY, t.pts)
    ensures t.Both? ==>
              p[at + 9..at + 14] == TimeBytes(PTS_FIRST, t.pts) && p[at + 14..at + 19] == TimeBytes(DTS_SECOND, t.dts)
    ensures ReadPes(p[at + 9..at + 14]) == Value(t.pts)
    ensures t.Both? ==> ReadPes(p[at + 14..at + 19]) == Value(t.dts)
  {
    hide TimeBytes, ReadPes, Value;
    var n := |TimesBytes(t)|;
    assert p[at..188] == p[at..];
    SliceOfSlice(l, 9, 9 + n, 0);
    SliceOfSlice(p, at, 188, 9);
    if t.Both? {
      SliceOfSlice(l, 9, 9 + n, 5);
      SliceOfSlice(p, at, 188, 14);
      TimeRead(PTS_FIRST, t.pts);
      TimeRead(DTS_SECOND, t.dts);
    } else {
      TimeRead(PTS_ONLY, t.pts);
    }
  }

  /** The code finds in a packet exactly the times it was assembled with, the
      PCR exactly when its flag is set, PTS and DTS exactly as announced. */
  lemma StampsFound(x: Layout)
    requires Proper(x)
    ensures PacketStamps(Assembled(x)) == ClockStamps(x) + TimesStamps(x)
  {
    hide Assembled, ClockStamps, TimesStamps;
    HeaderRead(x);
    ClockFound(x);
    TimesFound(x);
  }

  // ---------- the first section

  /** A payload that begins a section: a pointer, that many bytes to pass over,
      and the section. */
  predicate Begins(x: Layout, skipped: seq<byte>, section: seq<byte>) {
    && |skipped| < 256 && x.payload.Some?
    && x.payload.value == Plain([|skipped|] + skipped + section)
  }

  /** The table id is found behind the pointer and what it passes over, if the
      packet has room for it. */
  lemma TableIdFound(x: Layout, skipped: seq<byte>, section: seq<byte>)
    requires Proper(x) && Begins(x, skipped, section)
    ensures var (p, at) := (Assembled(x), 188 - |section|);
            && Sections.TableIdOffset(p) == (if section == [] then None else Some(at))
            && p[at..] == section
  {
    hide Value, BytesOf, FieldOf, PayloadOffset;
    var p, at := Assembled(x), 4 + |FieldOf(x)|;
    HeaderRead(x);
    PayloadStart(x);
    assert p[at..] == [|skipped|] + skipped + section;
    assert p[at] == p[at..][0];
    assert p[188 - |section|..] == p[at..][1 + |skipped|..];
  }

  /** A PAT is taken for one exactly when it begins in a packet of pid 0 with
      room for its first program. */
  lemma PatFound(x: Layout, skipped: seq<byte>, section: seq<byte>)
    requires Proper(x) && Begins(x, skipped, section) && x.unit
    ensures Mutators.HitsPat(Assembled(x)) <==> Value(x.pid) == 0 && |section| >= 12 && section[0] == 0x00
    ensures forall pid :: Mutators.HitsPmt(Assembled(x), pid) <==>
                            Value(x.pid) == pid && section != [] && section[0] == 0x02
  {
    hide Value, Assembled, Sections.TableIdOffset, Proper, Begins;
    TableIdFound(x, skipped, section);
    HeaderRead(x);
    var (p, at) := (Assembled(x), 188 - |section|);
    assert section != [] ==> p[at] == p[at..][0];
  }

  // ---------- writing

  lemma DigitsBack(v: nat)
    requires v < CLOCK
    ensures Value(Digits(v, 33)) == v
  {
    Pow2Values();
    ValueDigits(v, 33);
  }

  lemma ClockWritten(pcr: seq<bool>, low: seq<bool>, v: nat)
    requires |pcr| == 33 && |low| == 15 && v < CLOCK
    ensures WritePcr(BytesOf(pcr + low)[..5], v) == BytesOf(Digits(v, 33) + low)[..5]
    ensures BytesOf(Digits(v, 33) + low)[5] == BytesOf(pcr + low)[5]
  {
    hide ReadPcr, Value, BytesOf, BigEndian, Digits;
    ClockRead(pcr, low);
    ClockRead(Digits(v, 33), low);
    DigitsBack(v);
    PcrCodec(BytesOf(Digits(v, 33) + low)[..5], v);
  }

  lemma TimeWritten(prefix: seq<bool>, time: seq<bool>, v: nat)
    requires |prefix| == 4 && |time| == 33 && v < CLOCK
    ensures WritePes(TimeBytes(prefix, time), v) == TimeBytes(prefix, Digits(v, 33))
  {
    hide ReadPes, Value, TimeBytes, Digits, Marked;
    var e, f := TimeBytes(prefix, time), TimeBytes(prefix, Digits(v, 33));
    TimeRead(prefix, time);
    TimeRead(prefix, Digits(v, 33));
    DigitsBack(v);
    PesCodec(f, v);
    SamePrefix(e, f, v);
  }

  lemma SamePrefix(e: seq<byte>, f: seq<byte>, v: int)
    requires |e| == |f| == 5 && 0 <= v < CLOCK && e[0] as int / 16 == f[0] as int / 16
    ensures WritePes(e, v) == WritePes(f, v)
  {
    hide Write15;
  }

  lemma MovedProper(x: Layout, d: int)
    requires Proper(x)
    ensures Proper(Moved(x, d)) && |FieldOf(Moved(x, d))| == |FieldOf(x)| && |PayloadOf(Moved(x, d))| == |PayloadOf(x)|
  {
    hide Value, BytesOf, Digits;
  }

  /** Moving changes the first five bytes of the PCR and nothing else. */
  lemma FieldMoved(x: Layout, d: int)
    requires Proper(x) && Proper(Moved(x, d))
    ensures var f, g := FieldOf(x), FieldOf(Moved(x, d));
            && |g| == |f| && (ClockStamps(x) == [] ==> g == f)
            && (ClockStamps(x) != [] ==>
                  && |f| >= 8 && g[..2] == f[..2] && g[7..] == f[7..]
                  && g[2..7] == WritePcr(f[2..7], ClockAdd(ReadPcr(f[2..7]), d)))
  {
    hide Value, ReadPcr, WritePcr, Digits, BytesOf, FieldBytes;
    if ClockStamps(x) != [] {
      var a := x.adaptation.value;
      var v := ClockAdd(Value(a.pcr), d);
      var b := a.(pcr := Digits(v, 33));
      FieldParts(a);
      FieldParts(b);
      ClockRead(a.pcr, a.low);
      ClockWritten(a.pcr, a.low, v);
      var f, g := FieldBytes(a), FieldBytes(b);
      assert f[2..7] == f[2..8][..5] && g[2..7] == g[2..8][..5];
      assert f[7..] == [f[2..8][5]] + f[8..] && g[7..] == [g[2..8][5]] + g[8..];
    }
  }

  lemma FieldParts(a: Adaptation)
    requires ProperField(a) && a.Field? && a.clock
    ensures var f := FieldBytes(a);
            && |f| == 8 + |a.rest| && f[..2] == [7 + |a.rest|, Value(a.before + [true] + a.after)]
            && f[2..8] == BytesOf(a.pcr + a.low) && f[8..] == a.rest
  {
    FlagsByte(a.before, true, a.after);
    hide Value, BytesOf;
    var e := BytesOf(a.pcr + a.low);
    assert FieldBytes(a) == [7 + |a.rest|, Value(a.before + [true] + a.after)] + e + a.rest;
  }

  /** Moving changes the bytes of the times and nothing else. */
  lemma PayloadMoved(x: Layout, d: int)
    requires Proper(x) && Proper(Moved(x, d))
    ensures var l, m := PayloadOf(x), PayloadOf(Moved(x, d));
            && |m| == |l| && (TimesStamps(x) == [] ==> m == l)
            && (TimesStamps(x) != [] ==>
                  var k := if x.payload.value.times.Both? then 19 else 14;
                  && |l| >= k && m[..9] == l[..9] && m[k..] == l[k..]
                  && m[9..14] == WritePes(l[9..14], ClockAdd(ReadPes(l[9..14]), d))
                  && (k == 19 ==> m[14..19] == WritePes(l[14..19], ClockAdd(ReadPes(l[14..19]), d))))
  {
    hide Value, ReadPes, WritePes, Digits, BytesOf, TimeBytes, PayloadBytes;
    if TimesStamps(x) != [] {
      var p := x.payload.value;
      var q := p.(times := MovedTimes(p.times, d));
      PesParts(p);
      PesParts(q);
      assert PayloadOf(x) == PayloadBytes(p, true) && PayloadOf(Moved(x, d)) == PayloadBytes(q, true);
      match p.times {
        case Presented(pts) =>
          TimeMoved(PTS_ONLY, pts, d);
        case Both(pts, dts) =>
          TimeMoved(PTS_FIRST, pts, d);
          TimeMoved(DTS_SECOND, dts, d);
      }
    }
  }

  lemma TimeMoved(prefix: seq<bool>, time: seq<bool>, d: int)
    requires |prefix| == 4 && |time| == 33
    ensures var e := TimeBytes(prefix, time);
            TimeBytes(prefix, MovedBits(time, d)) == WritePes(e, ClockAdd(ReadPes(e), d))
  {
    hide ReadPes, WritePes, Value, Digits, TimeBytes;
    TimeRead(prefix, time);
    TimeWritten(prefix, time, ClockAdd(Value(time), d));
  }

  lemma PesParts(p: Payload)
    requires p.Pes? && ProperPayload(p, true) && !p.times.Untimed?
    ensures var l, k := PayloadBytes(p, true), if p.times.Both? then 19 else 14;
            && |l| == k + |p.bytes| && l[k..] == p.bytes
            && l[..9] == [0, 0, 1, p.id] + p.size + BytesOf([true, false] + p.first)
                         + BytesOf([true, p.times.Both?] + p.second) + [p.length]
            && l[9..14] == TimeBytes(if p.times.Both? then PTS_FIRST else PTS_ONLY, p.times.pts)
            && (p.times.Both? ==> l[14..19] == TimeBytes(DTS_SECOND, p.times.dts))
  {
    hide TimeBytes, BytesOf;
    var l := PayloadBytes(p, true);
    var head := [0, 0, 1, p.id] + p.size + BytesOf([true, false] + p.first)
                + BytesOf([true, p.times.Both?] + p.second) + [p.length];
    assert |head| == 9 && l == head + TimesBytes(p.times) + p.bytes;
  }

  // ---------- the packet moved

  lemma Parts(x: Layout)
    requires Proper(x)
    ensures var p, n := Assembled(x), |FieldOf(x)|;
            && |BytesOf(HeaderBits(x))| == 3 && n + |PayloadOf(x)| == 184
            && p[..4] == [0x47] + BytesOf(HeaderBits(x)) && p[4..4 + n] == FieldOf(x) && p[4 + n..] == PayloadOf(x)
  {
    hide BytesOf, FieldOf, PayloadOf;
  }

  /** How many bytes of times there are. */
  function TimesLength(x: Layout): (k: nat)
    ensures k in {0, 5, 10}
    ensures k > 0 <==> TimesStamps(x) != []
    ensures k > 0 ==> (k == 10 <==> x.payload.value.times.Both?)
  {
    if TimesStamps(x) == [] then 0 else if x.payload.value.times.Both? then 10 else 5
  }

  lemma ElsewhereKept(x: Layout, d: int)
    requires Proper(x) && Proper(Moved(x, d))
    ensures var (p, q, at, k) := (Assembled(x), Assembled(Moved(x, d)), 4 + |FieldOf(x)|, TimesLength(x));
            && (k > 0 ==> at + 9 + k <= 188)
            && forall i :: 0 <= i < 188 && !(ClockStamps(x) != [] && 6 <= i < 11) && !(at + 9 <= i < at + 9 + k) ==>
                 q[i] == p[i]
  {
    hide BytesOf, FieldOf, PayloadOf, Assembled, ProperField, ProperPayload, ReadPcr, WritePcr, ReadPes, WritePes;
    hide TimesStamps, ClockStamps;
    Parts(x);
    Parts(Moved(x, d));
    FieldMoved(x, d);
    PayloadMoved(x, d);
    MovedHeader(x, d);
    hide Moved;
    MovedBytes(Assembled(x), Assembled(Moved(x, d)), |FieldOf(x)|, ClockStamps(x) != [], TimesLength(x));
  }

  lemma ClockMoves(x: Layout, d: int)
    requires Proper(x) && Proper(Moved(x, d)) && ClockStamps(x) != []
    ensures var (p, q) := (Assembled(x), Assembled(Moved(x, d)));
            q[6..11] == WritePcr(p[6..11], ClockAdd(ReadPcr(p[6..11]), d))
  {
    hide BytesOf, FieldOf, PayloadOf, Assembled, ProperField, ProperPayload, ReadPcr, WritePcr, Moved, ClockStamps;
    var p, q, n := Assembled(x), Assembled(Moved(x, d)), |FieldOf(x)|;
    Parts(x);
    Parts(Moved(x, d));
    FieldMoved(x, d);
    SliceOfSlice(p, 4, 4 + n, 2);
    SliceOfSlice(q, 4, 4 + n, 2);
  }

  lemma TimesMove(x: Layout, d: int)
    requires Proper(x) && Proper(Moved(x, d)) && TimesLength(x) > 0
    ensures var (p, q, at) := (Assembled(x), Assembled(Moved(x, d)), 4 + |FieldOf(x)|);
            && at + 9 + TimesLength(x) <= 188 && ShiftedField(p, q, at + 9, d)
            && (TimesLength(x) == 10 ==> ShiftedField(p, q, at + 14, d))
  {
    hide BytesOf, FieldOf, PayloadOf, Assembled, ProperField, ProperPayload, ReadPes, WritePes, TimesStamps;
    var p, q, at := Assembled(x), Assembled(Moved(x, d)), 4 + |FieldOf(x)|;
    Parts(x);
    Parts(Moved(x, d));
    MovedProper(x, d);
    PayloadMoved(x, d);
    hide Moved;
    assert p[at..188] == p[at..] && q[at..188] == q[at..];
    SliceOfSlice(p, at, 188, 9);
    SliceOfSlice(q, at, 188, 9);
    if TimesLength(x) == 10 {
      SliceOfSlice(p, at, 188, 14);
      SliceOfSlice(q, at, 188, 14);
    }
  }

  /** The moved assembly is the packet with its fields, and nothing else,
      rewritten. */
  lemma MovedIsShifted(x: Layout, d: int)
    requires Proper(x) && Proper(Moved(x, d))
    ensures ShiftedTo(Assembled(x), Assembled(Moved(x, d)), d)
  {
    hide Proper, FieldOf, Assembled, Moved, ReadPcr, WritePcr, HasPcr, HasDts, PesAt, Sync, ShiftedTo, ShiftedField;
    hide ClockStamps, TimesStamps;
    HeaderRead(x);
    TimesFound(x);
    ClockPlace(x);
    ElsewhereKept(x, d);
    if ClockStamps(x) != [] {
      ClockMoves(x, d);
    }
    if TimesLength(x) > 0 {
      TimesMove(x, d);
    }
    ShiftedByFields(Assembled(x), Assembled(Moved(x, d)), d, ClockStamps(x) != [], 4 + |FieldOf(x)|, TimesLength(x));
  }

  lemma ShiftedByFields(p: Packet, q: Packet, d: int, clock: bool, at: nat, k: nat)
    requires Sync(p) && HasPcr(p) == clock && k in {0, 5, 10} && (k > 0 ==> at + 9 + k <= 188)
    requires PesAt(p) == (if k == 0 then None else Some(at)) && (k > 0 ==> HasDts(p, at) == (k == 10))
    requires forall i :: 0 <= i < 188 && !(clock && 6 <= i < 11) && !(at + 9 <= i < at + 9 + k) ==> q[i] == p[i]
    requires clock ==> q[6..11] == WritePcr(p[6..11], ClockAdd(ReadPcr(p[6..11]), d))
    requires k > 0 ==> ShiftedField(p, q, at + 9, d)
    requires k == 10 ==> ShiftedField(p, q, at + 14, d)
    ensures ShiftedTo(p, q, d)
  {
    hide HasPcr, HasDts, PesAt, ReadPcr, WritePcr, ShiftedField;
  }

  lemma MovedHeader(x: Layout, d: int)
    requires ProperHeader(x)
    ensures ProperHeader(Moved(x, d)) && HeaderBits(Moved(x, d)) == HeaderBits(x)
  {
  }

  lemma ClockPlace(x: Layout)
    requires Proper(x)
    ensures HasPcr(Assembled(x)) == (ClockStamps(x) != [])
  {
    hide Assembled, ClockStamps;
    ClockFound(x);
  }

  /** Every byte outside the clock (`clock`) and the `k` bytes of times is kept. */
  lemma MovedBytes(p: Packet, q: Packet, n: nat, clock: bool, k: nat)
    requires 4 + n <= 188 && p[..4] == q[..4]
    requires if clock then n >= 8 && q[4..4 + n][..2] == p[4..4 + n][..2] && q[4..4 + n][7..] == p[4..4 + n][7..]
             else q[4..4 + n] == p[4..4 + n]
    requires if k > 0 then 4 + n + 9 + k <= 188 && q[4 + n..][..9] == p[4 + n..][..9]
        && q[4 + n..][9 + k..] == p[4 + n..][9 + k..]
             else q[4 + n..] == p[4 + n..]
    ensures forall i :: 0 <= i < 188 && !(clock && 6 <= i < 11) && !(4 + n + 9 <= i < 4 + n + 9 + k) ==> q[i] == p[i]
  {
    forall i | 0 <= i < 188 && !(clock && 6 <= i < 11) && !(4 + n + 9 <= i < 4 + n + 9 + k)
      ensures q[i] == p[i]
    {
      if i < 4 {
        assert p[i] == p[..4][i] && q[i] == q[..4][i];
      } else if i < 4 + n {
        var f, g := p[4..4 + n], q[4..4 + n];
        assert p[i] == f[i - 4] && q[i] == g[i - 4];
        if clock {
          assert i < 6 ==> f[i - 4] == f[..2][i - 4] && g[i - 4] == g[..2][i - 4];
          assert i >= 11 ==> f[i - 4] == f[7..][i - 11] && g[i - 4] == g[7..][i - 11];
        }
      } else {
        var l, m, j := p[4 + n..], q[4 + n..], i - (4 + n);
        assert p[i] == l[j] && q[i] == m[j];
        if k > 0 {
          assert j < 9 ==> l[j] == l[..9][j] && m[j] == m[..9][j];
          assert j >= 9 + k ==> l[j] == l[9 + k..][j - 9 - k] && m[j] == m[9 + k..][j - 9 - k];
        }
      }
    }
  }

  /** Rewriting the timestamps of an assembled packet gives the assembly of the
      times moved on by the offset, bit for bit. */
  lemma AssembledRetimed(x: Layout, d: int)
    requires Proper(x)
    ensures Proper(Moved(x, d)) && Retimed(Assembled(x), d) == Assembled(Moved(x, d))
  {
    hide Assembled, Moved, ShiftPacket, ShiftedTo, Proper;
    MovedProper(x, d);
    var p, q := Assembled(x), Assembled(Moved(x, d));
    if d == 0 {
      MovedByNothing(x);
    } else {
      MovedIsShifted(x, d);
      ShiftPacketSpec(p, d);
      ShiftedUnique(p, ShiftPacket(p, d), q, d, d);
      assert p[..188] == p && p[188..] == [];
      assert ShiftPacket(p, d) + [] == q;
    }
  }

  lemma MovedByNothing(x: Layout)
    requires Proper(x)
    ensures Moved(x, 0) == x
  {
    hide BytesOf, Value, Digits, FieldOf, PayloadOf;
    if x.adaptation.Some? && x.adaptation.value.Field? {
      BitsByNothing(x.adaptation.value.pcr);
    }
    if x.payload.Some? && x.payload.value.Pes? {
      match x.payload.value.times {
        case Untimed(_) =>
        case Presented(pts) => BitsByNothing(pts);
        case Both(pts, dts) => BitsByNothing(pts); BitsByNothing(dts);
      }
    }
  }

  lemma WithinClock(v: nat)
    requires v < CLOCK
    ensures (v + 0) % CLOCK == v
  {
  }

  lemma BitsByNothing(time: seq<bool>)
    requires |time| == 33
    ensures MovedBits(time, 0) == time
  {
    hide Pow2, Value, Digits;
    ValueBound(time);
    Pow2Values();
    DigitsValue(time);
    WithinClock(Value(time));
  }
}
