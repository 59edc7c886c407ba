/** What a receiver reads out of the synthetic service's sections (section 2.4.4
    of ISO/IEC 13818-1, section 5.2 of ETSI EN 300 468). */
module Tables {
  import opened Bytes
  import opened Crc
  import opened Sections

  function Sixteen(s: seq<byte>, i: nat): nat
    requires i + 2 <= |s|
  {
    s[i] as int * 256 + s[i + 1] as int
  }

  function Thirteen(s: seq<byte>, i: nat): nat
    requires i + 2 <= |s|
  {
    s[i] as int % 32 * 256 + s[i + 1] as int
  }

  function Twelve(s: seq<byte>, i: nat): nat
    requires i + 2 <= |s|
  {
    s[i] as int % 16 * 256 + s[i + 1] as int
  }

  // ---------- program tables

  /** Program number and PMT pid of each program. */
  datatype Pat = Pat(stream: nat, programs: seq<(nat, nat)>)

  /** Program number, PCR pid, and the type and pid of each stream. */
  datatype Pmt = Pmt(program: nat, pcrPid: nat, streams: seq<(byte, nat)>)

  function ReadPrograms(s: seq<byte>): seq<(nat, nat)> {
    if |s| < 4 then [] else [(Sixteen(s, 0), Thirteen(s, 2))] + ReadPrograms(s[4..])
  }

  function ReadPat(s: seq<byte>): Option<Pat> {
    if |s| < 12 || s[0] != 0x00 then None else Some(Pat(Sixteen(s, 3), ReadPrograms(s[8..|s| - 4])))
  }

  function ReadStreams(s: seq<byte>): seq<(byte, nat)> {
    if |s| < 5 || |s| < 5 + Twelve(s, 3) then []
    else [(s[0], Thirteen(s, 1))] + ReadStreams(s[5 + Twelve(s, 3)..])
  }

  function ReadPmt(s: seq<byte>): Option<Pmt> {
    if |s| < 16 || s[0] != 0x02 || |s| < 16 + Twelve(s, 10) then None
    else Some(Pmt(Sixteen(s, 3), Thirteen(s, 8), ReadStreams(s[12 + Twelve(s, 10)..|s| - 4])))
  }

  lemma WideRead(n: int)
    ensures Sixteen(Wide(n), 0) == n % 0x1_0000
  {
    var k := n / 256;
    assert n == 256 * k + n % 256 && k == 256 * (k / 256) + k % 256;
  }

  lemma PidRead(n: int)
    ensures Thirteen(PidField(n), 0) == n % 8192
  {
    ThirteenBits(n);
  }

  lemma ClosedStart(s: seq<byte>)
    ensures AppendCrc(s)[..|s|] == s && |AppendCrc(s)| == |s| + 4
  {
  }

  /** The PAT lists one program, the service, on its PMT pid. */
  lemma PatRead(p: Profile)
    ensures ReadPat(PatSection(p)) == Some(Pat(1, [(p.serviceID % 0x1_0000, p.pmtPID % 8192)]))
  {
    hide Wide, PidField, AppendCrc, ReadPrograms;
    var number, pid := Wide(p.serviceID), PidField(p.pmtPID);
    var s: seq<byte> := [0x00, 0xB0, 0x0D, 0x00, 0x01, 0xC1, 0x00, 0x00, number[0], number[1], pid[0], pid[1]];
    assert PatSection(p) == AppendCrc(s) by {
      assert [0x00, 0xB0, 0x0D, 0x00, 0x01, 0xC1, 0x00, 0x00] + number + pid == s;
    }
    var r := AppendCrc(s);
    ClosedStart(s);
    assert forall i :: 0 <= i < 12 ==> r[i] == r[..12][i] == s[i];
    OneProgram(r[8..12]);
    WideRead(p.serviceID);
    PidRead(p.pmtPID);
  }

  lemma OneProgram(t: seq<byte>)
    requires |t| == 4
    ensures ReadPrograms(t) == [(Sixteen(t, 0), Thirteen(t, 2))]
  {
    assert t[4..] == [];
  }

  /** The PMT says that the video pid carries the PCR and MPEG-2 video, and the
      audio pid MPEG-1 audio. */
  lemma PmtRead(p: Profile)
    ensures ReadPmt(PmtSection(p))
         == Some(Pmt(p.serviceID % 0x1_0000, p.videoPID % 8192,
                     [(0x02, p.videoPID % 8192), (0x03, p.audioPID % 8192)]))
  {
    hide Wide, PidField, AppendCrc, ReadStreams;
    var number, video, audio := Wide(p.serviceID), PidField(p.videoPID), PidField(p.audioPID);
    var head: seq<byte> := [0x02, 0xB0, 0x17, number[0], number[1], 0xC1, 0x00, 0x00, video[0], video[1], 0xF0, 0x00];
    var streams: seq<byte> := [0x02] + video + [0xF0, 0x00] + ([0x03] + audio + [0xF0, 0x00]);
    assert PmtSection(p) == AppendCrc(head + streams) by {
      assert [0x02, 0xB0, 0x17] + number + [0xC1, 0x00, 0x00] + video + [0xF0, 0x00]
             + [0x02] + video + [0xF0, 0x00] + [0x03] + audio + [0xF0, 0x00] == head + streams;
    }
    var r := AppendCrc(head + streams);
    ClosedStart(head + streams);
    PmtParts(r, head, streams);
    StreamsRead(video, audio);
    WideRead(p.serviceID);
    PidRead(p.videoPID);
    PidRead(p.audioPID);
  }

  lemma PmtParts(r: seq<byte>, head: seq<byte>, streams: seq<byte>)
    requires |r| == 26 && |head| == 12 && |streams| == 10 && r[..22] == head + streams
    requires head[0] == 0x02 && head[10] == 0xF0 && head[11] == 0x00
    ensures ReadPmt(r) == Some(Pmt(Sixteen(head, 3), Thirteen(head, 8), ReadStreams(streams)))
  {
    hide ReadStreams;
    assert forall i :: 0 <= i < 12 ==> r[i] == r[..22][i] == head[i];
    assert r[12..22] == r[..22][12..] == streams;
  }

  lemma StreamsRead(video: seq<byte>, audio: seq<byte>)
    requires |video| == 2 && |audio| == 2
    ensures ReadStreams([0x02] + video + [0xF0, 0x00] + ([0x03] + audio + [0xF0, 0x00]))
         == [(0x02, Thirteen(video, 0)), (0x03, Thirteen(audio, 0))]
  {
    var b: seq<byte> := [0x03] + audio + [0xF0, 0x00];
    OneStream(0x03, audio, []);
    OneStream(0x02, video, b);
    assert b + [] == b;
  }

  lemma OneStream(kind: byte, pid: seq<byte>, rest: seq<byte>)
    requires |pid| == 2
    ensures ReadStreams([kind] + pid + [0xF0, 0x00] + rest) == [(kind, Thirteen(pid, 0))] + ReadStreams(rest)
    ensures ReadStreams([]) == []
  {
    var s: seq<byte> := [kind] + pid + [0xF0, 0x00] + rest;
    assert s[5..] == rest;
    assert s[1] == pid[0] && s[2] == pid[1] && s[3] == 0xF0 && s[4] == 0x00;
  }

  // ---------- service information

  /** The service, its flags for an EIT schedule and for present and following
      events, its running status, provider and name. */
  datatype Sdt = Sdt(service: nat, schedule: bool, following: bool, running: nat, provider: seq<byte>, name: seq<byte>)

  /** A string after its length. */
  function ReadString(s: seq<byte>): seq<byte> {
    if |s| < 1 || |s| < 1 + s[0] as int then [] else s[1..1 + s[0] as int]
  }

  /** The one service of an SDT, from its service descriptor. */
  function ReadSdt(s: seq<byte>): Option<Sdt> {
    if |s| < 24 || s[0] != 0x42 || |s| != 20 + Twelve(s, 14) || s[16] != 0x48 then None
    else
      var d := s[19..];
      var provider := ReadString(d);
      if |d| < 1 + |provider| then None
      else
        Some(Sdt(Sixteen(s, 11), s[13] as int / 2 % 2 == 1, s[13] % 2 == 1, s[14] as int / 32, provider,
                 ReadString(d[1 + |provider|..])))
  }

  /** The name a network name descriptor at the front of a NIT gives. */
  function ReadNit(s: seq<byte>): Option<seq<byte>> {
    if |s| < 12 || s[0] != 0x40 || s[10] != 0x40 then None else Some(ReadString(s[11..]))
  }

  /** One event of an EIT: the service, the section's number and the last one's,
      the ten bytes of id and times, the running status and the title. */
  datatype Eit = Eit(service: nat, number: byte, last: byte, event: seq<byte>, running: nat, title: seq<byte>)

  function ReadEit(s: seq<byte>): Option<Eit> {
    if |s| < 32 || s[0] != 0x4E || s[26] != 0x4D then None
    else Some(Eit(Sixteen(s, 3), s[6], s[7], s[14..24], s[24] as int / 32, ReadString(s[31..])))
  }

  lemma StringRead(a: seq<byte>, rest: seq<byte>)
    requires |a| < 256
    ensures ReadString([|a|] + (a + rest)) == a && ([|a|] + (a + rest))[1 + |a|..] == rest
  {
    var s: seq<byte> := [|a|] + (a + rest);
    assert s[1..1 + |a|] == a;
  }

  /** A section whose contents are so many fixed bytes and then the rest. */
  lemma FixedThere(table: byte, flags: byte, fixed: seq<byte>, rest: seq<byte>)
    requires flags <= 0xF0
    ensures var r := Closed(table, flags, fixed + rest);
            && |r| == 7 + |fixed| + |rest| && r[0] == table && (forall i :: 0 <= i < |fixed| ==> r[3 + i] == fixed[i])
            && r[3 + |fixed|..] == rest + r[|r| - 4..]
  {
    hide AppendCrc;
    var length := |fixed| + |rest| + 4;
    var head: seq<byte> := [table, flags as int + length / 256 % 16, length % 256];
    var all := head + (fixed + rest);
    ClosedStart(all);
    var r := AppendCrc(all);
    assert r == all + r[|r| - 4..];
    Pieces(head, fixed, rest, r[|r| - 4..]);
  }

  lemma Pieces(a: seq<byte>, b: seq<byte>, c: seq<byte>, d: seq<byte>)
    ensures var s := a + (b + c) + d;
            && |s| == |a| + |b| + |c| + |d| && (forall i :: 0 <= i < |a| ==> s[i] == a[i])
            && (forall i :: 0 <= i < |b| ==> s[|a| + i] == b[i]) && s[|a| + |b|..] == c + d
  {
  }

  /** The SDT gives the service's number, provider and name back. The flag it
      sets for present and following events is that of a schedule. */
  lemma SdtRead(p: Profile, provider: seq<byte>, presentFollowing: bool)
    ensures ReadSdt(SdtSection(p, provider, presentFollowing))
         == Some(Sdt(p.serviceID % 0x1_0000, presentFollowing, false, 4, Capped(provider, 32), Capped(p.name, 64)))
  {
    hide Wide, Capped, SdtSection, ReadSdt, Closed;
    var a, b := Capped(provider, 32), Capped(p.name, 64);
    var fixed := SdtFixed(Wide(p.serviceID), presentFollowing, |a| + |b| + 5);
    SdtParts(p, provider, presentFollowing);
    FixedThere(0x42, 0xF0, fixed, [|a|] + (a + ([|b|] + b)));
    SdtFields(SdtSection(p, provider, presentFollowing), fixed, a, b);
    WideRead(p.serviceID);
  }

  /** What comes before the provider, `n` being the descriptor's length. */
  function SdtFixed(id: seq<byte>, presentFollowing: bool, n: byte): (r: seq<byte>)
    requires |id| == 2 && n >= 2
    ensures |r| == 16
  {
    [0x00, 0x01, 0xC1, 0x00, 0x00, 0x00, 0x01, 0xFF, id[0], id[1], if presentFollowing then 0xFE else 0xFC, 0x80, n,
     0x48, n - 2, 0x19]
  }

  lemma SdtParts(p: Profile, provider: seq<byte>, presentFollowing: bool)
    ensures var a, b := Capped(provider, 32), Capped(p.name, 64);
            SdtSection(p, provider, presentFollowing)
            == Closed(0x42, 0xF0, SdtFixed(Wide(p.serviceID), presentFollowing, |a| + |b| + 5)
                                  + ([|a|] + (a + ([|b|] + b))))
  {
    hide Wide, Capped, Closed;
    var number, a, b := Wide(p.serviceID), Capped(provider, 32), Capped(p.name, 64);
    var d := ServiceDescriptor(provider, p.name);
    assert |d| / 256 == 0;
    assert [0x00, 0x01, 0xC1, 0x00, 0x00, 0x00, 0x01, 0xFF] + number
           + [if presentFollowing then 0xFE else 0xFC, 0x80 + |d| / 256 % 16, |d| % 256] + d
           == SdtFixed(number, presentFollowing, |a| + |b| + 5) + ([|a|] + (a + ([|b|] + b)));
  }

  lemma SdtFields(r: seq<byte>, fixed: seq<byte>, a: seq<byte>, b: seq<byte>)
    requires |a| <= 32 && |b| <= 64 && |fixed| == 16 && |r| == 25 + |a| + |b| && r[0] == 0x42
    requires fixed[11] == 0x80 && fixed[12] as int == |a| + |b| + 5 && fixed[13] == 0x48
    requires forall i :: 0 <= i < 16 ==> r[3 + i] == fixed[i]
    requires r[19..] == [|a|] + (a + ([|b|] + b)) + r[|r| - 4..]
    ensures ReadSdt(r)
         == Some(Sdt(Sixteen(fixed, 8), fixed[10] as int / 2 % 2 == 1, fixed[10] % 2 == 1, 4, a, b))
  {
    hide ReadString;
    var crc := r[|r| - 4..];
    assert [|a|] + (a + ([|b|] + b)) + crc == [|a|] + (a + ([|b|] + (b + crc)));
    StringRead(a, [|b|] + (b + crc));
    StringRead(b, crc);
    assert r[11] == fixed[8] && r[12] == fixed[9] && r[13] == fixed[10] && r[14] == fixed[11] && r[15] == fixed[12];
    assert r[16] == fixed[13];
  }

  /** The NIT gives the network's name back. */
  lemma NitRead(network: seq<byte>)
    ensures ReadNit(NitSection(network)) == Some(Capped(network, 64))
  {
    hide Capped, NitSection, ReadString, Closed;
    var n := Capped(network, 64);
    var fixed: seq<byte> := [0x00, 0x01, 0xC1, 0x00, 0x00, 0xF0, |n| + 2, 0x40];
    NitParts(network);
    FixedThere(0x40, 0xF0, fixed, [|n|] + (n + NIT_TAIL));
    var r := NitSection(network);
    var crc := r[|r| - 4..];
    assert [|n|] + (n + NIT_TAIL) + crc == [|n|] + (n + (NIT_TAIL + crc));
    StringRead(n, NIT_TAIL + crc);
    assert r[10] == fixed[7];
  }

  const NIT_TAIL: seq<byte> := [0xF0, 0x06, 0x00, 0x01, 0x00, 0x01, 0xF0, 0x00]

  lemma NitParts(network: seq<byte>)
    ensures var n := Capped(network, 64);
            NitSection(network)
            == Closed(0x40, 0xF0, [0x00, 0x01, 0xC1, 0x00, 0x00, 0xF0, |n| + 2, 0x40] + ([|n|] + (n + NIT_TAIL)))
  {
    hide Capped, Closed;
    var n := Capped(network, 64);
    var d := [0x40, |n|] + n;
    assert |d| / 256 == 0;
    assert [0x00, 0x01, 0xC1, 0x00, 0x00, 0xF0 + |d| / 256 % 16, |d| % 256] + d + NIT_TAIL
           == [0x00, 0x01, 0xC1, 0x00, 0x00, 0xF0, |n| + 2, 0x40] + ([|n|] + (n + NIT_TAIL));
  }

  /** The EIT gives its event back. */
  lemma EitRead(p: Profile, number: byte, last: byte, running: int, event: seq<byte>, title: seq<byte>)
    requires |event| == 10
    ensures ReadEit(EitSection(p, number, last, running, event, title))
         == Some(Eit(p.serviceID % 0x1_0000, number, last, event, running % 8, Capped(title, 146)))
  {
    hide Wide, Capped, EitSection, ReadEit, Closed, EitFixed;
    var t := Capped(title, 146);
    var fixed := EitFixed(Wide(p.serviceID), number, last, running, event, |t| + 7);
    EitParts(p, number, last, running, event, title);
    FixedThere(0x4E, 0xB0, fixed, [|t|] + (t + [0x00]));
    EitFields(EitSection(p, number, last, running, event, title), fixed, event, t);
    WideRead(p.serviceID);
  }

  /** What comes before the title's text, `n` being the descriptor's length. */
  function EitFixed(id: seq<byte>, number: byte, last: byte, running: int, event: seq<byte>, n: byte): (r: seq<byte>)
    requires |id| == 2 && |event| == 10 && n >= 2
    ensures |r| == 28 && r[0] == id[0] && r[1] == id[1] && r[3] == number && r[4] == last
    ensures r[11..21] == event && r[21] as int / 32 == running % 8 && r[23] == 0x4D
  {
    var r: seq<byte> := id + [0xC1, number, last, 0x00, 0x01, 0x00, 0x01, last, 0x4E] + event
                        + [running % 8 * 32, n, 0x4D, n - 2, 0x65, 0x6E, 0x67];
    assert r[11..21] == event;
    r
  }

  lemma EitParts(p: Profile, number: byte, last: byte, running: int, event: seq<byte>, title: seq<byte>)
    requires |event| == 10
    ensures var t := Capped(title, 146);
            EitSection(p, number, last, running, event, title)
            == Closed(0x4E, 0xB0, EitFixed(Wide(p.serviceID), number, last, running, event, |t| + 7)
                                  + ([|t|] + (t + [0x00])))
  {
    hide Capped, Closed, Wide;
    var t, id, d := Capped(title, 146), Wide(p.serviceID), ShortEventDescriptor(title);
    assert |d| == |t| + 7 && |d| / 256 == 0;
    assert d == [0x4D, |t| + 5, 0x65, 0x6E, 0x67] + ([|t|] + (t + [0x00]));
    var a: seq<byte> := id + [0xC1, number, last, 0x00, 0x01, 0x00, 0x01, last, 0x4E] + event;
    var b: seq<byte> := [running % 8 * 32, |t| + 7];
    assert [running % 8 * 32 + |d| / 256 % 16, |d| % 256] == b;
    var c: seq<byte> := [0x4D, |t| + 5, 0x65, 0x6E, 0x67];
    hide ShortEventDescriptor;
    assert EitFixed(id, number, last, running, event, |t| + 7) == a + (b + c);
    hide EitFixed;
    assert a + b + (c + ([|t|] + (t + [0x00]))) == a + (b + c) + ([|t|] + (t + [0x00]));
  }

  lemma EitFields(r: seq<byte>, fixed: seq<byte>, event: seq<byte>, t: seq<byte>)
    requires |t| <= 146 && |fixed| == 28 && |r| == 37 + |t| && r[0] == 0x4E && fixed[23] == 0x4D
    requires forall i :: 0 <= i < 28 ==> r[3 + i] == fixed[i]
    requires |event| == 10 && fixed[11..21] == event
    requires r[31..] == [|t|] + (t + [0x00]) + r[|r| - 4..]
    ensures ReadEit(r) == Some(Eit(Sixteen(fixed, 0), fixed[3], fixed[4], event, fixed[21] as int / 32, t))
  {
    hide ReadString;
    var crc := r[|r| - 4..];
    assert [|t|] + (t + [0x00]) + crc == [|t|] + (t + ([0x00] + crc));
    StringRead(t, [0x00] + crc);
    assert r[3] == fixed[0] && r[4] == fixed[1] && r[6] == fixed[3] && r[7] == fixed[4];
    assert forall i :: 0 <= i < 10 ==> r[14 + i] == fixed[11 + i] == fixed[11..21][i];
    assert r[14..24] == event;
    assert r[24] == fixed[21] && r[26] == fixed[23];
  }
}
