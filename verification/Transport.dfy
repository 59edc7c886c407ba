/** MPEG transport packets: header fields, the places where a packet carries a
    33-bit timestamp, and the PCR and PES timestamp codecs
    (ISO/IEC 13818-1 sections 2.4.3.3, 2.4.3.5 and 2.4.3.7).
    A mask and shift of the source is written as a quotient and remainder by a
    power of two: `(b >> 4) & 0x03` is `b / 16 % 4`. */
module Transport {
  import opened Bytes

  const CLOCK: int := 0x2_0000_0000
  const HALF_CLOCK: int := 0x1_0000_0000

  type Packet = s: seq<byte> | |s| == 188 witness seq(188, _ => 0)

  /** The three clocks a packet can carry: `R`, `P` and `D` in the source. */
  datatype Kind = Pcr | Pts | Dts

  /** Addition on the 33-bit clock. */
  function ClockAdd(x: int, d: int): (r: int)
    ensures 0 <= r < CLOCK
  {
    (x + d) % CLOCK
  }

  datatype Stamp = Stamp(pid: nat, kind: Kind, raw: int)

  // ---------- header fields

  predicate Sync(p: Packet) {
    p[0] == 0x47
  }

  function Pid(p: Packet): (pid: nat)
    ensures pid < 8192
  {
    (p[1] % 32) as int * 256 + p[2] as int
  }

  function AdaptationControl(p: Packet): nat {
    p[3] / 16 % 4
  }

  predicate UnitStart(p: Packet) {
    p[1] / 64 % 2 == 1
  }

  function PayloadOffset(p: Packet): (r: Option<nat>)
    ensures r.Some? ==> 4 <= r.value < 188
  {
    match AdaptationControl(p)
    case 1 => Some(4)
    case 3 => if 5 + p[4] as int < 188 then Some(5 + p[4] as int) else None
    case _ => None
  }

  // ---------- codecs

  /** The PCR base: 32 bits in network order, then one bit. */
  function ReadPcr(e: seq<byte>): (v: int)
    requires |e| == 5
    ensures 0 <= v < CLOCK
  {
    BigEndianBound(e[..4]);
    FromBigEndian(e[..4]) * 2 + e[4] as int / 128
  }

  function WritePcr(e: seq<byte>, v: int): (r: seq<byte>)
    requires |e| == 5 && 0 <= v < CLOCK
    ensures |r| == 5
  {
    BigEndian(v / 2, 4) + [e[4] % 128 + v % 2 * 128]
  }

  /** Fifteen bits of a PES timestamp, the low bit of the second byte being a
      marker. */
  function Read15(a: byte, b: byte): (v: int)
    ensures 0 <= v < 0x8000
  {
    a as int * 128 + b as int / 2
  }

  function Write15(v: int): seq<byte>
    requires 0 <= v < 0x8000
  {
    [v / 128, v % 128 * 2 + 1]
  }

  /** A PES timestamp: three bits, then twice fifteen, each group closed by a
      marker bit. */
  function ReadPes(e: seq<byte>): (v: int)
    requires |e| == 5
    ensures 0 <= v < CLOCK
  {
    e[0] as int / 2 % 8 * 0x4000_0000 + Read15(e[1], e[2]) * 0x8000 + Read15(e[3], e[4])
  }

  function WritePes(e: seq<byte>, v: int): (r: seq<byte>)
    requires |e| == 5 && 0 <= v < CLOCK
    ensures |r| == 5
  {
    var high := v / 0x8000;
    [e[0] / 16 * 16 + high / 0x8000 * 2 + 1] + Write15(high % 0x8000) + Write15(v % 0x8000)
  }

  /** The three PES marker bits are set. */
  predicate Marked(e: seq<byte>)
    requires |e| == 5
  {
    e[0] % 2 == 1 && e[2] % 2 == 1 && e[4] % 2 == 1
  }

  /** Reading gives back what was written, writing back what was read changes
      nothing, and the seven bits after the PCR base are kept. */
  lemma PcrCodec(e: seq<byte>, v: int)
    requires |e| == 5 && 0 <= v < CLOCK
    ensures ReadPcr(WritePcr(e, v)) == v
    ensures WritePcr(e, ReadPcr(e)) == e
    ensures WritePcr(e, v)[4] % 128 == e[4] % 128
    ensures forall w | 0 <= w < CLOCK :: WritePcr(WritePcr(e, v), w) == WritePcr(e, w)
  {
    assert WritePcr(e, v)[..4] == BigEndian(v / 2, 4);
    BigEndianRoundTrip(v / 2, 4);
    FromBigEndianRoundTrip(e[..4]);
    BigEndianBound(e[..4]);
    assert ReadPcr(e) / 2 == FromBigEndian(e[..4]);
    assert e == e[..4] + [e[4]];
  }

  /** As `PcrCodec`, but a PES write also sets the marker bits, so writing back
      what was read is the identity exactly where they were set already. */
  lemma PesCodec(e: seq<byte>, v: int)
    requires |e| == 5 && 0 <= v < CLOCK
    ensures ReadPes(WritePes(e, v)) == v
    ensures WritePes(e, ReadPes(e)) == e <==> Marked(e)
    ensures Marked(WritePes(e, v)) && WritePes(e, v)[0] / 16 == e[0] / 16
    ensures forall w | 0 <= w < CLOCK :: WritePes(WritePes(e, v), w) == WritePes(e, w)
  {
    hide ReadPes;
    PesReadBack(e, v);
    PesUnchanged(e);
    forall w | 0 <= w < CLOCK
      ensures WritePes(WritePes(e, v), w) == WritePes(e, w)
    {
      PesOverwrite(e, v, w);
    }
    hide WritePes;
  }

  lemma PesOverwrite(e: seq<byte>, v: int, w: int)
    requires |e| == 5 && 0 <= v < CLOCK && 0 <= w < CLOCK
    ensures WritePes(WritePes(e, v), w) == WritePes(e, w)
  {
    PesReadBack(e, v);
    hide Write15, ReadPes;
  }

  lemma PesUnchanged(e: seq<byte>)
    requires |e| == 5
    ensures WritePes(e, ReadPes(e)) == e <==> Marked(e)
  {
    hide WritePes, ReadPes;
    PesWriteBack(e);
    OddPart(e[0]);
    OddPart(e[2]);
    OddPart(e[4]);
    assert e == [e[0], e[1], e[2], e[3], e[4]];
  }

  lemma OddPart(b: byte)
    ensures b as int / 2 * 2 + 1 == b as int <==> b % 2 == 1
  {
  }

  lemma PesReadBack(e: seq<byte>, v: int)
    requires |e| == 5 && 0 <= v < CLOCK
    ensures ReadPes(WritePes(e, v)) == v
    ensures Marked(WritePes(e, v)) && WritePes(e, v)[0] / 16 == e[0] / 16
  {
    hide Write15, Read15;
    var high := v / 0x8000;
    Group15(high % 0x8000, 0, 0);
    Group15(v % 0x8000, 0, 0);
    Marker(e[0] as int / 16, high / 0x8000);
  }

  lemma PesWriteBack(e: seq<byte>)
    requires |e| == 5
    ensures WritePes(e, ReadPes(e)) == [e[0] / 2 * 2 + 1, e[1], e[2] / 2 * 2 + 1, e[3], e[4] / 2 * 2 + 1]
  {
    hide Write15, Read15;
    Group15(0, e[1], e[2]);
    Group15(0, e[3], e[4]);
    var low, mid, top := Read15(e[3], e[4]), Read15(e[1], e[2]), e[0] as int / 2 % 8;
    assert ReadPes(e) / 0x8000 == top * 0x8000 + mid && ReadPes(e) % 0x8000 == low;
    assert (top * 0x8000 + mid) / 0x8000 == top && (top * 0x8000 + mid) % 0x8000 == mid;
    EvenPart(e[0]);
  }

  lemma EvenPart(b: byte)
    ensures b as int / 16 * 16 + b as int / 2 % 8 * 2 + 1 == b as int / 2 * 2 + 1
  {
    var h := b as int / 2;
    assert b as int / 16 == h / 8;
  }

  lemma Group15(v: int, a: byte, b: byte)
    requires 0 <= v < 0x8000
    ensures Write15(Read15(a, b)) == [a, b / 2 * 2 + 1]
    ensures |Write15(v)| == 2 && Read15(Write15(v)[0], Write15(v)[1]) == v && Write15(v)[1] % 2 == 1
  {
  }

  lemma Marker(high: int, bits: int)
    requires 0 <= bits < 8
    ensures var b := high * 16 + bits * 2 + 1; b / 2 % 8 == bits && b / 16 == high && b % 2 == 1
  {
    var b := high * 16 + bits * 2 + 1;
    assert b / 2 == high * 8 + bits;
  }
}
