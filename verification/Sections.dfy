/** PSI and SI sections as the synthetic service builds them, the packets that
    carry them, and what a receiver reads back. */
module Sections {
  import opened Bytes
  import opened Transport
  import opened Continuity
  import opened Crc

  datatype Profile = Profile(name: seq<byte>, serviceID: int, pmtPID: int, videoPID: int, audioPID: int)

  /** `byte(n >> 8), byte(n)`. */
  function Wide(n: int): (r: seq<byte>)
    ensures |r| == 2
  {
    [n / 256 % 256, n % 256]
  }

  /** `flags | byte(n >> 8), byte(n)` with the top three bits of `flags` set. */
  function PidField(n: int): (r: seq<byte>)
    ensures |r| == 2
  {
    [0xE0 + n / 256 % 32, n % 256]
  }

  /** A section header: table id, twelve-bit length under `flags`, rest. */
  function Closed(table: byte, flags: byte, body: seq<byte>): seq<byte>
    requires flags <= 0xF0
  {
    var length := |body| + 4;
    AppendCrc([table, flags as int + length / 256 % 16, length % 256] + body)
  }

  function Capped(s: seq<byte>, max: nat): (r: seq<byte>)
    ensures |r| <= max
  {
    if |s| > max then s[..max] else s
  }

  function PatSection(p: Profile): seq<byte> {
    AppendCrc([0x00, 0xB0, 0x0D, 0x00, 0x01, 0xC1, 0x00, 0x00] + Wide(p.serviceID) + PidField(p.pmtPID))
  }

  function PmtSection(p: Profile): seq<byte> {
    AppendCrc([0x02, 0xB0, 0x17] + Wide(p.serviceID) + [0xC1, 0x00, 0x00] + PidField(p.videoPID) + [0xF0, 0x00]
              + [0x02] + PidField(p.videoPID) + [0xF0, 0x00] + [0x03] + PidField(p.audioPID) + [0xF0, 0x00])
  }

  function ServiceDescriptor(provider: seq<byte>, service: seq<byte>): seq<byte> {
    var a, b := Capped(provider, 32), Capped(service, 64);
    [0x48, |a| + |b| + 3, 0x19, |a|] + a + [|b|] + b
  }

  function SdtSection(p: Profile, provider: seq<byte>, presentFollowing: bool): seq<byte> {
    var d := ServiceDescriptor(provider, p.name);
    Closed(0x42, 0xF0,
           [0x00, 0x01, 0xC1, 0x00, 0x00, 0x00, 0x01, 0xFF] + Wide(p.serviceID)
           + [if presentFollowing then 0xFE else 0xFC, 0x80 + |d| / 256 % 16, |d| % 256] + d)
  }

  function NitSection(network: seq<byte>): seq<byte> {
    var n := Capped(network, 64);
    var d := [0x40, |n|] + n;
    Closed(0x40, 0xF0,
           [0x00, 0x01, 0xC1, 0x00, 0x00, 0xF0 + |d| / 256 % 16, |d| % 256] + d
           + [0xF0, 0x06, 0x00, 0x01, 0x00, 0x01, 0xF0, 0x00])
  }

  function ShortEventDescriptor(title: seq<byte>): seq<byte> {
    var t := Capped(title, 146);
    [0x4D, |t| + 5, 0x65, 0x6E, 0x67, |t|] + t + [0x00]
  }

  /** `event` holds the ten bytes of event id, date, time and duration. */
  function EitSection(p: Profile, number: byte, last: byte, running: int, event: seq<byte>, title: seq<byte>): seq<byte>
    requires |event| == 10
  {
    var d := ShortEventDescriptor(title);
    Closed(0x4E, 0xB0,
           Wide(p.serviceID) + [0xC1, number, last, 0x00, 0x01, 0x00, 0x01, last, 0x4E] + event
           + [running % 8 * 32 + |d| / 256 % 16, |d| % 256] + d)
  }

  // ---------- packets

  function PsiPayload(section: seq<byte>): seq<byte> {
    [0x00] + section
  }

  function Stuffing(n: nat): (r: seq<byte>)
    ensures |r| == n
  {
    seq(n, _ => 0xFF)
  }

  function SyntheticPacket(pid: int, unitStart: bool, counter: int, payload: seq<byte>): Packet {
    var body := Capped(payload, 184);
    [0x47, pid / 256 % 32 + (if unitStart then 0x40 else 0), pid % 256, 0x10 + counter % 16] + body
        + Stuffing(184 - |body|)
  }

  /** Where the table id of the first section of a packet is. */
  function TableIdOffset(p: Packet): (r: Option<nat>)
    ensures r.Some? ==> 5 <= r.value < 188
  {
    if !Sync(p) then None
    else
      match PayloadOffset(p)
      case None => None
      case Some(at) => if at + 1 + p[at] as int < 188 then Some(at + 1 + p[at] as int) else None
  }

  /** What a receiver takes as the first section of a packet: as many bytes as
      the section's own length field announces. */
  function ReadSection(p: Packet): Option<seq<byte>> {
    match TableIdOffset(p)
    case None => None
    case Some(at) =>
      if at + 3 > 188 then None
      else
        var end := at + 3 + p[at + 1] as int % 16 * 256 + p[at + 2] as int;
        if end <= 188 then Some(p[at..end]) else None
  }

  /** A section that fits one packet behind its pointer byte, announces its
      exact length and is closed by its CRC. */
  predicate WellFormed(s: seq<byte>) {
    && 3 <= |s| <= 183
    && s[1] as int % 16 * 256 + s[2] as int == |s| - 3
    && Crc32(s) == 0
  }

  // ---------- every section is well formed

  lemma ClosedWellFormed(table: byte, flags: byte, body: seq<byte>)
    requires flags <= 0xF0 && flags % 16 == 0 && |body| <= 176
    ensures WellFormed(Closed(table, flags, body))
  {
    hide Crc32, AppendCrc;
    var head: seq<byte> := [table, flags, |body| + 4];
    assert (|body| + 4) / 256 == 0 && (|body| + 4) % 256 == |body| + 4;
    assert Closed(table, flags, body) == AppendCrc(head + body);
    FixedWellFormed(head + body);
  }

  lemma FixedWellFormed(s: seq<byte>)
    requires 3 <= |s| <= 179 && s[1] as int % 16 * 256 + s[2] as int == |s| + 1
    ensures WellFormed(AppendCrc(s))
  {
    ResidueZero(s);
    hide Crc32, AppendCrc;
  }

  function PatHead(p: Profile): (s: seq<byte>)
    ensures |s| == 12 && s[..3] == [0x00, 0xB0, 0x0D] && s[10..] == PidField(p.pmtPID)
  {
    var s := [0x00, 0xB0, 0x0D, 0x00, 0x01, 0xC1, 0x00, 0x00] + Wide(p.serviceID) + PidField(p.pmtPID);
    assert s[10..] == PidField(p.pmtPID);
    s
  }

  lemma PatIsHead(p: Profile)
    ensures PatSection(p) == AppendCrc(PatHead(p))
  {
    hide AppendCrc;
  }

  lemma PatWellFormed(p: Profile)
    ensures WellFormed(PatSection(p)) && PatSection(p)[0] == 0x00
    ensures PatSection(p)[10] as int % 32 * 256 + PatSection(p)[11] as int == p.pmtPID % 8192
  {
    var s := PatHead(p);
    PatIsHead(p);
    hide PatHead, PatSection, AppendCrc, WellFormed;
    assert s[0] == s[..3][0] && s[1] == s[..3][1] && s[2] == s[..3][2];
    assert s[10] == s[10..][0] && s[11] == s[10..][1];
    FixedWellFormed(s);
    ThirteenBits(p.pmtPID);
    assert PatSection(p)[0] == PatSection(p)[..12][0];
    assert PatSection(p)[10] == PatSection(p)[..12][10] && PatSection(p)[11] == PatSection(p)[..12][11];
  }

  lemma ThirteenBits(n: int)
    ensures n % 8192 == n / 256 % 32 * 256 + n % 256
  {
    var k := n / 256;
    var m := k / 32;
    assert n == 256 * k + n % 256 && k == 32 * m + k % 32;
  }

  lemma PmtWellFormed(p: Profile)
    ensures WellFormed(PmtSection(p)) && PmtSection(p)[0] == 0x02
  {
    var s := [0x02, 0xB0, 0x17] + Wide(p.serviceID) + [0xC1, 0x00, 0x00] + PidField(p.videoPID) + [0xF0, 0x00]
             + [0x02] + PidField(p.videoPID) + [0xF0, 0x00] + [0x03] + PidField(p.audioPID) + [0xF0, 0x00];
    FixedWellFormed(s);
    hide WellFormed, AppendCrc;
    assert PmtSection(p)[0] == PmtSection(p)[..22][0];
  }

  /** For every service, network and event name, however long, the sections
      fit one packet and announce their exact length. */
  lemma SiWellFormed(p: Profile, provider: seq<byte>, network: seq<byte>, presentFollowing: bool,
                     number: byte, last: byte, running: int, event: seq<byte>, title: seq<byte>)
    requires |event| == 10
    ensures WellFormed(SdtSection(p, provider, presentFollowing))
    ensures WellFormed(NitSection(network))
    ensures WellFormed(EitSection(p, number, last, running, event, title))
  {
    hide WellFormed, Closed;
    var d := ServiceDescriptor(provider, p.name);
    ClosedWellFormed(0x42, 0xF0,
                     [0x00, 0x01, 0xC1, 0x00, 0x00, 0x00, 0x01, 0xFF] + Wide(p.serviceID)
                     + [if presentFollowing then 0xFE else 0xFC, 0x80 + |d| / 256 % 16, |d| % 256] + d);
    var n := Capped(network, 64);
    var e := [0x40, |n|] + n;
    ClosedWellFormed(0x40, 0xF0,
                     [0x00, 0x01, 0xC1, 0x00, 0x00, 0xF0 + |e| / 256 % 16, |e| % 256] + e
                     + [0xF0, 0x06, 0x00, 0x01, 0x00, 0x01, 0xF0, 0x00]);
    var f := ShortEventDescriptor(title);
    ClosedWellFormed(0x4E, 0xB0,
                     Wide(p.serviceID) + [0xC1, number, last, 0x00, 0x01, 0x00, 0x01, last, 0x4E] + event
                     + [running % 8 * 32 + |f| / 256 % 16, |f| % 256] + f);
  }

  lemma SyntheticFields(pid: int, unitStart: bool, counter: int, payload: seq<byte>)
    requires |payload| <= 184
    ensures var p := SyntheticPacket(pid, unitStart, counter, payload);
            && Sync(p) && UnitStart(p) == unitStart && Pid(p) == pid % 8192 && Counter(p) == counter % 16
            && PayloadOffset(p) == Some(4) && p[4..4 + |payload|] == payload
  {
    var p := SyntheticPacket(pid, unitStart, counter, payload);
    ThirteenBits(pid);
    assert p[3] == 0x10 + counter % 16;
    assert AdaptationControl(p) == 1;
  }

  /** A packet built around a well-formed section is on its pid, has its
      counter, and gives the section back. */
  lemma SectionReadBack(pid: int, counter: int, s: seq<byte>)
    requires WellFormed(s)
    ensures var p := SyntheticPacket(pid, true, counter, PsiPayload(s));
            && Sync(p) && UnitStart(p) && Pid(p) == pid % 8192 && Counter(p) == counter % 16
            && TableIdOffset(p) == Some(5) && p[5..5 + |s|] == s && ReadSection(p) == Some(s)
  {
    hide Crc32, SyntheticPacket, UnitStart, Pid, Counter, Sync, PayloadOffset;
    var p := SyntheticPacket(pid, true, counter, PsiPayload(s));
    SyntheticFields(pid, true, counter, PsiPayload(s));
    assert p[4] == p[4..5 + |s|][0];
    assert p[5..5 + |s|] == p[4..5 + |s|][1..];
    assert p[6] == p[5..5 + |s|][1] && p[7] == p[5..5 + |s|][2];
  }
}
