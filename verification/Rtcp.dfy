/** RTCP: the compound packet a stream sends beside its RTP, a sender report, a
    source description and the status of the tuner (sections 6.1, 6.5 and 6.7 of
    RFC 3550). */
module Rtcp {
  import opened Bytes
  import opened Text
  import opened Pids
  import opened Rtp

  const SENDER_REPORT: byte := 200
  const SOURCE_DESCRIPTION: byte := 202
  const APP: byte := 204
  const SES1: seq<byte> := [0x53, 0x45, 0x53, 0x31]
  const CNAME: seq<byte> := [0x73, 0x61, 0x74, 0x69, 0x70, 0x2D, 0x6C, 0x61, 0x62] // "satip-lab"

  datatype Status = Status(
    src: int, tunerID: int, level: int, lock: int, quality: int, frequency: int, polarity: string, delivery: string,
    symbolRate: int, pids: string)

  function StatusString(s: Status): string {
    "ver=1.2;src=" + Decimal(s.src) + ";tuner=" + Decimal(s.tunerID) + "," + Decimal(s.level) + "," + Decimal(s.lock)
    + "," + Decimal(s.quality) + "," + Decimal(s.frequency) + "," + s.polarity + "," + s.delivery + ","
    + Decimal(s.symbolRate) + ";pids=" + s.pids
  }

  function Ascii(s: string): (r: seq<byte>)
    ensures |r| == |s|
  {
    seq(|s|, i requires 0 <= i < |s| => s[i] as int % 256)
  }

  function PadTo32Bit(n: nat): (r: nat)
    ensures r % 4 == 0 && n <= r < n + 4
  {
    if n % 4 == 0 then n else n + 4 - n % 4
  }

  function Zeros(n: nat): (r: seq<byte>)
    ensures |r| == n && forall i :: 0 <= i < n ==> r[i] == 0
  {
    seq(n, _ => 0)
  }

  // ---------- the three packets

  function ReportBytes(ssrc: nat): seq<byte> {
    [0x80, SENDER_REPORT] + BigEndian(6, 2) + BigEndian(ssrc, 4) + Zeros(20)
  }

  function DescriptionBytes(ssrc: nat, cname: seq<byte>): seq<byte> {
    var n := 4 + 4 + 2 + |cname| + 1;
    [0x81, SOURCE_DESCRIPTION] + BigEndian(PadTo32Bit(n) / 4 - 1, 2) + BigEndian(ssrc, 4)
    + [1, |cname| % 256] + cname + Zeros(1 + PadTo32Bit(n) - n)
  }

  function AppBytes(ssrc: nat, text: seq<byte>): seq<byte> {
    var n := 16 + |text|;
    [0x80, APP] + BigEndian(PadTo32Bit(n) / 4 - 1, 2) + BigEndian(ssrc, 4)
    + SES1 + [0, 0] + BigEndian(|text|, 2) + text + Zeros(PadTo32Bit(n) - n)
  }

  function CompoundBytes(ssrc: nat, cname: seq<byte>, text: seq<byte>): seq<byte> {
    ReportBytes(ssrc) + DescriptionBytes(ssrc, cname) + AppBytes(ssrc, text)
  }

  // ---------- a receiver

  /** One packet of a compound: the flag byte, the type, what follows the length. */
  datatype Part = Part(flags: byte, kind: byte, body: seq<byte>)

  /** Walks a compound by its length fields; `None` unless the last packet ends
      with the last byte. */
  function Walk(s: seq<byte>): Option<seq<Part>> {
    if s == [] then Some([])
    else if |s| < 4 then None
    else
      var n := 4 * (FromBigEndian(s[2..4]) + 1);
      if n > |s| then None
      else
        Ahead(Part(s[0], s[1], s[4..n]), Walk(s[n..]))
  }

  function Ahead(p: Part, rest: Option<seq<Part>>): Option<seq<Part>> {
    if rest == None then None else Some([p] + rest.value)
  }

  /** The items of a description's one chunk, as far as the canonical name. */
  function ReadName(body: seq<byte>): Option<seq<byte>> {
    if |body| < 6 || body[4] != 1 || |body| < 6 + body[5] as int + 1 || body[6 + body[5] as int] != 0 then None
    else Some(body[6..6 + body[5] as int])
  }

  /** The text of a SES1 packet. */
  function ReadText(body: seq<byte>): Option<seq<byte>> {
    if |body| < 12 || body[4..8] != SES1 then None
    else
      var n := FromBigEndian(body[10..12]);
      if |body| < 12 + n then None else Some(body[12..12 + n])
  }

  lemma WalkOne(flags: byte, kind: byte, length: nat, body: seq<byte>, rest: seq<byte>)
    requires |body| == 4 * length && length < 0x1_0000
    ensures Walk([flags, kind] + BigEndian(length, 2) + body + rest) == Ahead(Part(flags, kind, body), Walk(rest))
  {
    var s := [flags, kind] + BigEndian(length, 2) + body + rest;
    var n := 4 + |body|;
    assert s[2..4] == BigEndian(length, 2);
    hide FromBigEndian, BigEndian;
    BigEndianRoundTrip(length, 2);
    assert s[4..n] == body && s[n..] == rest;
  }

  function ReportBody(ssrc: nat): seq<byte> {
    BigEndian(ssrc, 4) + Zeros(20)
  }

  function DescriptionBody(ssrc: nat, cname: seq<byte>): seq<byte> {
    var n := 4 + 4 + 2 + |cname| + 1;
    BigEndian(ssrc, 4) + [1, |cname| % 256] + cname + Zeros(1 + PadTo32Bit(n) - n)
  }

  function AppBody(ssrc: nat, text: seq<byte>): seq<byte> {
    var n := 16 + |text|;
    BigEndian(ssrc, 4) + SES1 + [0, 0] + BigEndian(|text|, 2) + text + Zeros(PadTo32Bit(n) - n)
  }

  /** The compound is walked into exactly the three packets, ending at its last
      byte. */
  lemma CompoundWalks(ssrc: nat, cname: seq<byte>, text: seq<byte>)
    requires |cname| < 256 && |text| < 0x1_0000
    ensures Walk(CompoundBytes(ssrc, cname, text))
         == Some([Part(0x80, SENDER_REPORT, ReportBody(ssrc)),
             Part(0x81, SOURCE_DESCRIPTION, DescriptionBody(ssrc, cname)),
                  Part(0x80, APP, AppBody(ssrc, text))])
    ensures |CompoundBytes(ssrc, cname, text)| % 4 == 0
  {
    hide Walk, ReportBytes, DescriptionBytes, AppBytes, ReportBody, DescriptionBody, AppBody;
    var app := AppBytes(ssrc, text);
    var more := DescriptionBytes(ssrc, cname) + app;
    assert app + [] == app;
    assert CompoundBytes(ssrc, cname, text) == ReportBytes(ssrc) + more;
    WalkNothing();
    AppWalks(ssrc, text, []);
    DescriptionWalks(ssrc, cname, app);
    ReportWalks(ssrc, more);
    var x, y := Part(0x80, APP, AppBody(ssrc, text)), Part(0x81, SOURCE_DESCRIPTION, DescriptionBody(ssrc, cname));
    var z := Part(0x80, SENDER_REPORT, ReportBody(ssrc));
    assert [x] + [] == [x] && [y] + [x] == [y, x] && [z] + [y, x] == [z, y, x];
  }

  lemma ReportWalks(ssrc: nat, rest: seq<byte>)
    ensures Walk(ReportBytes(ssrc) + rest) == Ahead(Part(0x80, SENDER_REPORT, ReportBody(ssrc)), Walk(rest))
    ensures |ReportBytes(ssrc)| % 4 == 0
  {
    hide Walk, BigEndian;
    assert ReportBytes(ssrc) == [0x80, SENDER_REPORT] + BigEndian(6, 2) + ReportBody(ssrc);
    WalkOne(0x80, SENDER_REPORT, 6, ReportBody(ssrc), rest);
  }

  lemma DescriptionWalks(ssrc: nat, cname: seq<byte>, rest: seq<byte>)
    requires |cname| < 256
    ensures Walk(DescriptionBytes(ssrc, cname) + rest)
        == Ahead(Part(0x81, SOURCE_DESCRIPTION, DescriptionBody(ssrc, cname)), Walk(rest))
    ensures |DescriptionBytes(ssrc, cname)| % 4 == 0
  {
    hide Walk, BigEndian;
    var body := DescriptionBody(ssrc, cname);
    assert DescriptionBytes(ssrc, cname) == [0x81, SOURCE_DESCRIPTION] + BigEndian(|body| / 4, 2) + body;
    WalkOne(0x81, SOURCE_DESCRIPTION, |body| / 4, body, rest);
  }

  lemma AppWalks(ssrc: nat, text: seq<byte>, rest: seq<byte>)
    requires |text| < 0x1_0000
    ensures Walk(AppBytes(ssrc, text) + rest) == Ahead(Part(0x80, APP, AppBody(ssrc, text)), Walk(rest))
    ensures |AppBytes(ssrc, text)| % 4 == 0
  {
    hide Walk, BigEndian;
    var body := AppBody(ssrc, text);
    assert AppBytes(ssrc, text) == [0x80, APP] + BigEndian(|body| / 4, 2) + body;
    WalkOne(0x80, APP, |body| / 4, body, rest);
  }

  lemma WalkNothing()
    ensures Walk([]) == Some([])
  {
  }

  /** The canonical name is there with its terminating null. */
  lemma NameRead(ssrc: nat, cname: seq<byte>)
    requires |cname| < 256
    ensures ReadName(DescriptionBody(ssrc, cname)) == Some(cname)
  {
    hide BigEndian;
    var body := DescriptionBody(ssrc, cname);
    assert body[4] == 1 && body[5] as int == |cname| && body[6..6 + |cname|] == cname;
    assert body[6 + |cname|] == 0;
  }

  /** The text is read back to its last byte exactly when its length fits the
      two bytes that carry it. */
  lemma TextRead(ssrc: nat, text: seq<byte>)
    ensures ReadText(AppBody(ssrc, text)) == Some(text) <==> |text| < 0x1_0000
  {
    var body := AppBody(ssrc, text);
    assert body[4..8] == SES1 && body[10..12] == BigEndian(|text|, 2) && body[12..12 + |text|] == text;
    hide BigEndian, FromBigEndian;
    if |text| < 0x1_0000 {
      BigEndianRoundTrip(|text|, 2);
    } else {
      BigEndianBound(BigEndian(|text|, 2));
    }
  }

  /** A text of 65536 bytes is not read back. */
  lemma LongTextNotRead(ssrc: nat)
    ensures var text := seq(0x1_0000, _ => 0x20); ReadText(AppBody(ssrc, text)) != Some(text)
  {
    hide ReadText, AppBody;
    TextRead(ssrc, seq(0x1_0000, _ => 0x20));
  }

  // ---------- how long it gets

  function Pow10(k: nat): nat {
    if k == 0 then 1 else 10 * Pow10(k - 1)
  }

  lemma {:induction false} ItoaLength(n: nat, k: nat)
    requires k > 0 && n < Pow10(k)
    ensures |Itoa(n)| <= k
  {
    if n >= 10 {
      assert k > 1;
      ItoaLength(n / 10, k - 1);
    }
  }

  /** A 64-bit integer prints in at most twenty characters. */
  predicate Machine(n: int) {
    -0x8000_0000_0000_0000 <= n < 0x8000_0000_0000_0000
  }

  lemma DecimalLength(n: int)
    requires Machine(n)
    ensures |Decimal(n)| <= 20
  {
    assert Pow10(19) == 10_000_000_000_000_000_000 by {
      assert Pow10(5) == 100_000;
      assert Pow10(10) == 10_000_000_000;
      assert Pow10(15) == 1_000_000_000_000_000;
    }
    ItoaLength(if n < 0 then -n else n, 19);
  }

  function Below(n: nat): (r: set<int>)
    ensures |r| == n && forall x :: x in r <==> 0 <= x < n
  {
    if n == 0 then {} else Below(n - 1) + {n - 1}
  }

  lemma {:induction false} DistinctCount(s: seq<int>)
    requires NoDuplicates(s)
    ensures |SetOf(s)| == |s|
  {
    if s != [] {
      var init := s[..|s| - 1];
      DistinctCount(init);
      assert SetOf(s) == SetOf(init) + {s[|s| - 1]};
      assert s[|s| - 1] !in SetOf(init);
    } else {
      assert SetOf(s) == {};
    }
  }

  /** There are 8192 PIDs. */
  lemma AtMostAllPids(s: seq<int>)
    requires NoDuplicates(s) && AllPids(s)
    ensures |s| <= 8192
  {
    DistinctCount(s);
    assert forall x :: x in SetOf(s) ==> IsPid(x);
    Within(SetOf(s), Below(8192));
  }

  lemma Within(a: set<int>, b: set<int>)
    requires a <= b
    ensures |a| <= |b|
  {
    assert a + (b - a) == b;
  }

  lemma {:induction false} JoinLength(parts: seq<string>)
    requires forall i :: 0 <= i < |parts| ==> |parts[i]| <= 4
    ensures |Join(parts, ',')| <= 5 * |parts|
  {
    if |parts| > 1 {
      JoinLength(parts[1..]);
    }
  }

  lemma PidsLength(l: PidList)
    requires Listed(l)
    ensures |PrintPids(l)| <= 40960
  {
    if !l.all {
      AtMostAllPids(l.pids);
      var parts := Printed(l.pids);
      forall i | 0 <= i < |parts|
        ensures |parts[i]| <= 4
      {
        PrintedAt(l.pids, i);
        assert Pow10(4) == 10_000;
        ItoaLength(l.pids[i], 4);
      }
      JoinLength(parts);
    }
  }

  /** A status whose numbers are machine integers and whose words are those of a
      tunable mux. */
  predicate Ordinary(s: Status) {
    && Machine(s.src) && Machine(s.tunerID) && Machine(s.level) && Machine(s.lock) && Machine(s.quality)
    && Machine(s.frequency) && Machine(s.symbolRate)
    && (s.polarity == "h" || s.polarity == "v") && (s.delivery == "dvbs" || s.delivery == "dvbs2")
  }

  lemma StatusLength(s: Status)
    requires Ordinary(s) && |s.pids| <= 40960
    ensures |StatusString(s)| <= 41200
  {
    hide Decimal;
    DecimalLength(s.src);
    DecimalLength(s.tunerID);
    DecimalLength(s.level);
    DecimalLength(s.lock);
    DecimalLength(s.quality);
    DecimalLength(s.frequency);
    DecimalLength(s.symbolRate);
  }

  // ---------- the fields of the status

  /** What follows a prefix; "" when it is missing. */
  function After(s: string, prefix: string): string {
    if prefix <= s then s[|prefix|..] else ""
  }

  /** A receiver of the status text: four parts, the third of them eight fields:
      tuner, level, lock, quality, frequency, polarity, system and symbol rate. */
  function ReadStatus(text: string): Option<Status> {
    var parts := Split(text, ';');
    if |parts| != 4 || parts[0] != "ver=1.2" then None
    else
      var f := Split(After(parts[2], "tuner="), ',');
      if |f| != 8 then None
      else
        var src, symbolRate := Atoi(After(parts[1], "src=")), Atoi(f[7]);
        var tuner, level, lock, quality, frequency := Atoi(f[0]), Atoi(f[1]), Atoi(f[2]), Atoi(f[3]), Atoi(f[4]);
        if None in [src, tuner, level, lock, quality, frequency, symbolRate] then None
        else
          Some(Status(src.value, tuner.value, level.value, lock.value, quality.value, frequency.value, f[5], f[6],
                      symbolRate.value, After(parts[3], "pids=")))
  }

  lemma SplitOff(a: string, c: char, rest: string)
    requires c !in a
    ensures Split(a + [c] + rest, c) == [a] + Split(rest, c)
  {
    var s := a + [c] + rest;
    FirstPart(a, c, rest);
    assert s[..|a|] == a && s[|a| + 1..] == rest;
  }

  lemma SplitLast(a: string, c: char)
    requires c !in a
    ensures Split(a, c) == [a]
  {
  }

  predicate Clean(s: string) {
    ',' !in s && ';' !in s
  }

  lemma DecimalClean(n: int)
    ensures Clean(Decimal(n))
  {
  }

  function TunerFields(s: Status): seq<string> {
    [Decimal(s.tunerID), Decimal(s.level), Decimal(s.lock), Decimal(s.quality), Decimal(s.frequency), s.polarity,
     s.delivery, Decimal(s.symbolRate)]
  }

  lemma {:induction false} JoinClean(parts: seq<string>)
    requires forall i :: 0 <= i < |parts| ==> Clean(parts[i])
    ensures ';' !in Join(parts, ',')
  {
    if |parts| > 1 {
      JoinClean(parts[1..]);
    }
  }

  lemma TunerJoined(s: Status)
    ensures Join(TunerFields(s), ',')
         == Decimal(s.tunerID) + "," + Decimal(s.level) + "," + Decimal(s.lock) + "," + Decimal(s.quality) + ","
            + Decimal(s.frequency) + "," + s.polarity + "," + s.delivery + "," + Decimal(s.symbolRate)
  {
    hide Decimal;
    var f := TunerFields(s);
    assert f[7..] == [f[7]] && f[6..][1..] == f[7..] && f[5..][1..] == f[6..] && f[4..][1..] == f[5..];
    assert f[3..][1..] == f[4..] && f[2..][1..] == f[3..] && f[1..][1..] == f[2..];
    assert Join(f[7..], ',') == f[7];
    assert Join(f[6..], ',') == f[6] + "," + f[7];
    assert Join(f[5..], ',') == f[5] + "," + Join(f[6..], ',');
    assert Join(f[4..], ',') == f[4] + "," + Join(f[5..], ',');
    assert Join(f[3..], ',') == f[3] + "," + Join(f[4..], ',');
    assert Join(f[2..], ',') == f[2] + "," + Join(f[3..], ',');
    assert Join(f[1..], ',') == f[1] + "," + Join(f[2..], ',');
  }

  lemma StatusParts(s: Status)
    requires Clean(s.polarity) && Clean(s.delivery) && ';' !in s.pids
    ensures Split(StatusString(s), ';')
         == ["ver=1.2", "src=" + Decimal(s.src), "tuner=" + Join(TunerFields(s), ','), "pids=" + s.pids]
    ensures Split(Join(TunerFields(s), ','), ',') == TunerFields(s)
  {
    FieldsClean(s);
    JoinClean(TunerFields(s));
    SplitJoin(TunerFields(s), ',');
    DecimalClean(s.src);
    StatusShape(s);
    hide Split, Join, Decimal, TunerFields, StatusString;
    FourParts("ver=1.2", "src=" + Decimal(s.src), "tuner=" + Join(TunerFields(s), ','), "pids=" + s.pids);
  }

  lemma StatusShape(s: Status)
    ensures StatusString(s) == "ver=1.2" + [';'] + ("src=" + Decimal(s.src) + [';']
                               + ("tuner=" + Join(TunerFields(s), ',') + [';'] + ("pids=" + s.pids)))
  {
    TunerJoined(s);
    hide Join, Decimal, TunerFields;
    var t := Join(TunerFields(s), ',');
    assert StatusString(s) == "ver=1.2;src=" + Decimal(s.src) + ";tuner=" + t + ";pids=" + s.pids;
    hide StatusString;
    Reassociated(Decimal(s.src), t, s.pids);
  }

  lemma Reassociated(a: string, b: string, c: string)
    ensures "ver=1.2;src=" + a + ";tuner=" + b + ";pids=" + c
         == "ver=1.2" + [';'] + ("src=" + a + [';'] + ("tuner=" + b + [';'] + ("pids=" + c)))
  {
  }

  lemma FourParts(a: string, b: string, c: string, d: string)
    requires ';' !in a && ';' !in b && ';' !in c && ';' !in d
    ensures Split(a + [';'] + (b + [';'] + (c + [';'] + d)), ';') == [a, b, c, d]
  {
    hide Split;
    SplitLast(d, ';');
    SplitOff(c, ';', d);
    SplitOff(b, ';', c + [';'] + d);
    SplitOff(a, ';', b + [';'] + (c + [';'] + d));
  }

  lemma FieldsClean(s: Status)
    requires Clean(s.polarity) && Clean(s.delivery)
    ensures forall i :: 0 <= i < 8 ==> Clean(TunerFields(s)[i])
  {
    hide Decimal;
    DecimalClean(s.tunerID);
    DecimalClean(s.level);
    DecimalClean(s.lock);
    DecimalClean(s.quality);
    DecimalClean(s.frequency);
    DecimalClean(s.symbolRate);
  }

  /** The status is read back from its text, field by field. */
  lemma StatusRead(s: Status)
    requires Clean(s.polarity) && Clean(s.delivery) && ';' !in s.pids
    ensures ReadStatus(StatusString(s)) == Some(s)
  {
    hide Split, Join, Decimal, StatusString, Atoi, Clean;
    StatusParts(s);
    AtoiDecimal(s.src);
    AtoiDecimal(s.tunerID);
    AtoiDecimal(s.level);
    AtoiDecimal(s.lock);
    AtoiDecimal(s.quality);
    AtoiDecimal(s.frequency);
    AtoiDecimal(s.symbolRate);
    assert After("src=" + Decimal(s.src), "src=") == Decimal(s.src);
    assert After("tuner=" + Join(TunerFields(s), ','), "tuner=") == Join(TunerFields(s), ',');
    assert After("pids=" + s.pids, "pids=") == s.pids;
  }

  lemma PidsClean(l: PidList)
    requires Listed(l)
    ensures ';' !in PrintPids(l)
  {
    if !l.all {
      var parts := Printed(l.pids);
      forall i | 0 <= i < |parts|
        ensures Clean(parts[i])
      {
        PrintedAt(l.pids, i);
      }
      JoinClean(parts);
    }
  }

  /** For every PID list a session can have, the packet is a compound of exactly
      the three packets, a receiver reads the name and the whole status from it,
      and it fits the two-byte length of an interleaved frame. */
  lemma ReportComplete(s: Status, l: PidList)
    requires Ordinary(s) && Listed(l) && s.pids == PrintPids(l)
    ensures var text := Ascii(StatusString(s));
            var packet := CompoundBytes(SSRC, CNAME, text);
            && |packet| < 0x1_0000
            && (var parts := Walk(packet);
                parts.Some? && |parts.value| == 3
                && parts.value[0].kind == SENDER_REPORT && |parts.value[0].body| == 24
                && parts.value[1].kind == SOURCE_DESCRIPTION && ReadName(parts.value[1].body) == Some(CNAME)
                && parts.value[2].kind == APP && ReadText(parts.value[2].body) == Some(text))
  {
    hide Walk, StatusString, BigEndian, ReadName, ReadText, Listed, Ordinary, PrintPids, DescriptionBody, AppBody;
    PidsLength(l);
    StatusLength(s);
    var text := Ascii(StatusString(s));
    CompoundWalks(SSRC, CNAME, text);
    NameRead(SSRC, CNAME);
    TextRead(SSRC, text);
  }

  /** And the status it carries is read back field by field. */
  lemma ReportRead(s: Status, l: PidList)
    requires Ordinary(s) && Listed(l) && s.pids == PrintPids(l)
    ensures ReadStatus(StatusString(s)) == Some(s) && CNAME == Ascii("satip-lab")
  {
    hide ReadStatus, StatusString, Listed, PrintPids;
    PidsClean(l);
    StatusRead(s);
  }

  // ---------- the sender

  class RTCPStatusSender {
    const ssrc: nat
    const cname: seq<byte>

    constructor ()
      ensures ssrc == SSRC && cname == CNAME
    {
      ssrc, cname := SSRC, CNAME;
    }

    /** The eight bytes every packet begins with, in a zeroed buffer. */
    method NewPacket(flags: byte, kind: byte, length: nat) returns (packet: array<byte>)
      requires length >= 8 && length % 4 == 0
      ensures fresh(packet) && packet.Length == length
      ensures packet[..8] == [flags, kind] + BigEndian(length / 4 - 1, 2) + BigEndian(ssrc, 4)
      ensures forall i :: 8 <= i < length ==> packet[i] == 0
    {
      hide BigEndian;
      packet := new byte[length](_ => 0);
      packet[0] := flags;
      packet[1] := kind;
      assert packet[..2] == [flags, kind];
      Put(packet, 2, BigEndian(length / 4 - 1, 2));
      Put(packet, 4, BigEndian(ssrc, 4));
    }

    method SenderReportPacket() returns (packet: array<byte>)
      ensures fresh(packet) && packet[..] == ReportBytes(ssrc)
    {
      hide BigEndian;
      packet := NewPacket(0x80, SENDER_REPORT, 28);
      assert packet[..] == packet[..8] + Zeros(20);
    }

    method SourceDescriptionPacket() returns (packet: array<byte>)
      ensures fresh(packet) && packet[..] == DescriptionBytes(ssrc, cname)
    {
      hide BigEndian;
      var n := 4 + 4 + 2 + |cname| + 1;
      packet := NewPacket(0x81, SOURCE_DESCRIPTION, PadTo32Bit(n));
      Put(packet, 8, [1, |cname| % 256]);
      Put(packet, 10, cname);
      assert packet[..] == packet[..10 + |cname|] + Zeros(1 + PadTo32Bit(n) - n);
    }

    method AppStatusPacket(status: Status) returns (packet: array<byte>)
      ensures fresh(packet) && packet[..] == AppBytes(ssrc, Ascii(StatusString(status)))
    {
      hide BigEndian, StatusString;
      var text := Ascii(StatusString(status));
      var n := 16 + |text|;
      packet := NewPacket(0x80, APP, PadTo32Bit(n));
      Put(packet, 8, SES1);
      Put(packet, 12, [0, 0]);
      Put(packet, 14, BigEndian(|text|, 2));
      Put(packet, 16, text);
      assert packet[..] == packet[..n] + Zeros(PadTo32Bit(n) - n);
    }

    method Packet(status: Status) returns (packet: seq<byte>)
      ensures packet == CompoundBytes(ssrc, cname, Ascii(StatusString(status)))
    {
      var report := SenderReportPacket();
      var description := SourceDescriptionPacket();
      var app := AppStatusPacket(status);
      packet := report[..] + description[..] + app[..];
    }
  }
}
