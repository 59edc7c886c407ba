/** Whole payloads: collecting every timestamp, and shifting every timestamp
    in place. */
module Timestamps {
  import opened Bytes
  import opened Transport
  import opened Stamps

  /** The packet that starts at `o`. */
  function PacketAt(s: seq<byte>, o: nat): Packet
    requires o + 188 <= |s|
  {
    s[o..o + 188]
  }

  /** The timestamps of a payload in the order they are visited. Bytes after
      the last whole packet are not looked at. */
  function StreamStamps(s: seq<byte>): seq<Stamp> {
    if |s| < 188 then [] else PacketStamps(s[..188]) + StreamStamps(s[188..])
  }

  function Shifted(s: seq<byte>, d: int): (r: seq<byte>)
    ensures |r| == |s|
  {
    if |s| < 188 then s else ShiftPacket(s[..188], d) + Shifted(s[188..], d)
  }

  function Retimed(s: seq<byte>, d: int): (r: seq<byte>)
    ensures |r| == |s|
  {
    if d == 0 then s else Shifted(s, d)
  }

  predicate MarkedStream(s: seq<byte>) {
    |s| >= 188 ==> MarkedPacket(s[..188]) && MarkedStream(s[188..])
  }

  // ---------- properties

  lemma RawsInRange(p: Packet)
    ensures forall i :: 0 <= i < |PacketStamps(p)| ==> 0 <= PacketStamps(p)[i].raw < CLOCK
  {
    hide PesAt, HasDts, HasPcr, Pid, Sync, ReadPcr, ReadPes;
    if PesAt(p).Some? {
      PcrBeforePes(p, PesAt(p).value);
    }
  }

  lemma {:induction false} StreamRaws(s: seq<byte>)
    ensures forall i :: 0 <= i < |StreamStamps(s)| ==> 0 <= StreamStamps(s)[i].raw < CLOCK
  {
    hide PacketStamps;
    if |s| >= 188 {
      RawsInRange(s[..188]);
      StreamRaws(s[188..]);
    }
  }

  lemma {:induction false} ShiftedStream(s: seq<byte>, d: int)
    ensures StreamStamps(Shifted(s, d)) == ShiftStamps(StreamStamps(s), d)
  {
    hide PacketStamps, ShiftPacket, ShiftedTo;
    if |s| >= 188 {
      var p, q := s[..188], ShiftPacket(s[..188], d);
      ShiftPacketSpec(p, d);
      ShiftedStamps(p, q, d);
      ShiftedStream(s[188..], d);
      var r := Shifted(s, d);
      assert r[..188] == q && r[188..] == Shifted(s[188..], d);
      ShiftConcat(PacketStamps(p), StreamStamps(s[188..]), d);
    }
  }

  lemma ShiftByNothing(s: seq<Stamp>)
    requires forall i :: 0 <= i < |s| ==> 0 <= s[i].raw < CLOCK
    ensures ShiftStamps(s, 0) == s
  {
  }

  /** Revisiting a rewritten payload finds the same pids and kinds in the same
      order, each raw value moved by the offset. */
  lemma RetimedStamps(s: seq<byte>, d: int)
    ensures StreamStamps(Retimed(s, d)) == ShiftStamps(StreamStamps(s), d)
  {
    if d == 0 {
      StreamRaws(s);
      ShiftByNothing(StreamStamps(s));
    } else {
      ShiftedStream(s, d);
    }
  }

  /** Outside its timestamp fields every packet of a rewritten payload is the
      original one, and so are the bytes after the last whole packet. */
  lemma {:induction false} ShiftedFrame(s: seq<byte>, d: int, o: nat)
    requires o % 188 == 0
    ensures o + 188 <= |s| ==> ShiftedTo(PacketAt(s, o), PacketAt(Shifted(s, d), o), d)
    ensures o <= |s| < o + 188 ==> Shifted(s, d)[o..] == s[o..]
    ensures o <= |s| ==> Shifted(s, d)[o..] == Shifted(s[o..], d)
    decreases o
  {
    hide PacketStamps, ShiftPacket, ShiftedTo;
    if |s| >= 188 {
      ShiftPacketSpec(s[..188], d);
      if o > 0 {
        ShiftedFrame(s[188..], d, o - 188);
        if o <= |s| {
          assert Shifted(s, d)[o..] == Shifted(s[188..], d)[o - 188..];
          assert s[188..][o - 188..] == s[o..];
        }
        if o + 188 <= |s| {
          assert PacketAt(s, o) == PacketAt(s[188..], o - 188);
          assert PacketAt(Shifted(s, d), o) == PacketAt(Shifted(s[188..], d), o - 188);
        }
      } else {
        assert s[0..] == s && Shifted(s, d)[0..] == Shifted(s, d);
      }
    }
  }

  lemma {:induction false} ShiftedTwice(s: seq<byte>, a: int, b: int, c: int)
    requires (a + b) % CLOCK == c % CLOCK
    ensures Shifted(Shifted(s, a), b) == Shifted(s, c)
    ensures c % CLOCK == 0 ==> (Shifted(s, c) == s <==> MarkedStream(s))
  {
    hide ShiftPacket, ShiftedTo, MarkedPacket;
    if |s| >= 188 {
      var p, q := s[..188], ShiftPacket(s[..188], a);
      ShiftPacketSpec(p, a);
      ShiftPacketSpec(q, b);
      ShiftPacketSpec(p, c);
      ShiftedCompose(p, q, ShiftPacket(q, b), a, b);
      ShiftedUnique(p, ShiftPacket(q, b), ShiftPacket(p, c), a + b, c);
      ShiftedTwice(s[188..], a, b, c);
      assert Shifted(s, a)[..188] == q && Shifted(s, a)[188..] == Shifted(s[188..], a);
      if c % CLOCK == 0 {
        ShiftedByNothing(p, ShiftPacket(p, c), c);
        assert s == p + s[188..];
        assert Shifted(s, c)[..188] == ShiftPacket(p, c) && Shifted(s, c)[188..] == Shifted(s[188..], c);
      }
    }
  }

  /** Rewriting by `a` and then by `b` is rewriting by `a + b` modulo 2^33,
      except that offsets which cancel leave the marker bits set: they give
      the payload back exactly when its marker bits were set. */
  lemma RetimedAction(s: seq<byte>, a: int, b: int)
    ensures Retimed(Retimed(s, a), b) == Retimed(s, ClockAdd(a, b))
            <==> a == b == 0 || ClockAdd(a, b) != 0 || MarkedStream(s)
  {
    hide Shifted, MarkedStream;
    var c := ClockAdd(a, b);
    ShiftedTwice(s, a, b, c);
    ShiftedTwice(s, 0, 0, 0);
    if a == 0 {
      ShiftedSame(s, b, c);
    } else if b == 0 {
      ShiftedSame(s, a, c);
    }
  }

  /** A packet with a PES header whose PTS lacks its marker bits. */
  const UNMARKED: Packet := [0x47, 0x40, 0x64, 0x10, 0, 0, 1, 0xE0, 0, 0, 0x80, 0x80, 5, 0x20] + seq(174, _ => 0)

  /** Shifting it on by one tick and back does not give it back. */
  lemma CancelledShiftDiffers()
    ensures Retimed(Retimed(UNMARKED, 1), CLOCK - 1) != UNMARKED == Retimed(UNMARKED, ClockAdd(1, CLOCK - 1))
  {
    var p := UNMARKED;
    assert p[..188] == p && p[4..7] == [0, 0, 1] && PesAt(p) == Some(4);
    assert p[13..18][0] == p[13] && !MarkedPacket(p);
    hide Retimed, MarkedPacket;
    RetimedAction(p, 1, CLOCK - 1);
    RetimedByZero(p);
  }

  lemma RetimedByZero(s: seq<byte>)
    ensures Retimed(s, ClockAdd(1, CLOCK - 1)) == s
  {
  }

  lemma {:induction false} ShiftedSame(s: seq<byte>, a: int, b: int)
    requires a % CLOCK == b % CLOCK
    ensures Shifted(s, a) == Shifted(s, b)
  {
    hide ShiftPacket, ShiftedTo;
    if |s| >= 188 {
      var p: Packet := s[..188];
      ShiftPacketSpec(p, a);
      ShiftPacketSpec(p, b);
      ShiftedUnique(p, ShiftPacket(p, a), ShiftPacket(p, b), a, b);
      ShiftedSame(s[188..], a, b);
    }
  }

  // ---------- in place

  method WritePcrBase(buf: array<byte>, at: nat, value: int)
    requires at + 5 <= buf.Length && 0 <= value < CLOCK
    modifies buf
    ensures buf[..] == Splice(old(buf[..]), at, WritePcr(old(buf[at..at + 5]), value))
  {
    ghost var e := buf[at..at + 5];
    PcrBytes(e, value);
    buf[at] := value / 0x200_0000 % 256;
    buf[at + 1] := value / 0x2_0000 % 256;
    buf[at + 2] := value / 0x200 % 256;
    buf[at + 3] := value / 2 % 256;
    buf[at + 4] := buf[at + 4] % 128 + value % 2 * 128;
    assert buf[at..at + 5] == WritePcr(e, value);
    assert buf[..] == Splice(old(buf[..]), at, WritePcr(e, value));
  }

  lemma PcrBytes(e: seq<byte>, v: int)
    requires |e| == 5 && 0 <= v < CLOCK
    ensures WritePcr(e, v) == [v / 0x200_0000 % 256, v / 0x2_0000 % 256, v / 0x200 % 256, v / 2 % 256,
                               e[4] % 128 + v % 2 * 128]
  {
    var a := v / 2;
    var b := a / 256;
    var c := b / 256;
    assert v / 0x200 == b && v / 0x2_0000 == c && v / 0x200_0000 == c / 256;
    assert BigEndian(a, 4) == BigEndian(b, 3) + [a % 256];
    assert BigEndian(b, 3) == BigEndian(c, 2) + [b % 256];
    assert BigEndian(c, 2) == BigEndian(c / 256, 1) + [c % 256];
    assert BigEndian(c / 256, 1) == BigEndian(c / 256 / 256, 0) + [c / 256 % 256];
  }

  method WritePesTimestamp(buf: array<byte>, at: nat, value: int)
    requires at + 5 <= buf.Length && 0 <= value < CLOCK
    modifies buf
    ensures buf[..] == Splice(old(buf[..]), at, WritePes(old(buf[at..at + 5]), value))
  {
    ghost var e := buf[at..at + 5];
    PesBytes(e, value);
    buf[at] := buf[at] / 16 * 16 + value / 0x4000_0000 % 8 * 2 + 1;
    buf[at + 1] := value / 0x40_0000 % 256;
    buf[at + 2] := value / 0x8000 % 128 * 2 + 1;
    buf[at + 3] := value / 128 % 256;
    buf[at + 4] := value % 128 * 2 + 1;
    assert buf[at..at + 5] == WritePes(e, value);
    assert buf[..] == Splice(old(buf[..]), at, WritePes(e, value));
  }

  lemma PesBytes(e: seq<byte>, v: int)
    requires |e| == 5 && 0 <= v < CLOCK
    ensures WritePes(e, v) == [e[0] / 16 * 16 + v / 0x4000_0000 % 8 * 2 + 1, v / 0x40_0000 % 256,
                               v / 0x8000 % 128 * 2 + 1, v / 128 % 256, v % 128 * 2 + 1]
  {
    var high := v / 0x8000;
    assert v / 0x4000_0000 == high / 0x8000 && v / 0x40_0000 == high / 128;
    FifteenBits(high);
    FifteenBits(v);
  }

  lemma FifteenBits(n: nat)
    ensures Write15(n % 0x8000) == [n / 128 % 256, n % 128 * 2 + 1]
  {
    var k, m := n / 128, n / 0x8000;
    assert m == k / 256;
    assert n % 0x8000 == k % 256 * 128 + n % 128;
  }

  lemma SpliceWithin(s: seq<byte>, o: nat, at: nat, e: seq<byte>)
    requires o + 188 <= |s| && at + |e| <= 188
    ensures Splice(s, o + at, e) == Splice(s, o, Splice(s[o..o + 188], at, e))
  {
  }

  lemma SliceOfSlice(s: seq<byte>, o: nat, at: nat)
    requires o + 188 <= |s| && at + 5 <= 188
    ensures s[o..o + 188][at..at + 5] == s[o + at..o + at + 5]
  {
    var a, b := s[o..o + 188][at..at + 5], s[o + at..o + at + 5];
    assert forall i :: 0 <= i < 5 ==> a[i] == b[i];
  }

  method ShiftPcrInPlace(buf: array<byte>, o: nat, d: int)
    requires o + 188 <= buf.Length
    modifies buf
    ensures buf[..] == Splice(old(buf[..]), o, ShiftPcr(old(buf[o..o + 188]), d))
  {
    hide ReadPcr, WritePcr, ClockAdd, AdaptationControl;
    var packet := buf[o..o + 188];
    assert packet == buf[..][o..o + 188];
    if !HasPcr(packet) {
      assert buf[..] == Splice(buf[..], o, packet);
      return;
    }
    var encoded := packet[6..11];
    SliceOfSlice(buf[..], o, 6);
    SpliceWithin(buf[..], o, 6, WritePcr(encoded, ClockAdd(ReadPcr(encoded), d)));
    WritePcrBase(buf, o + 6, ClockAdd(ReadPcr(encoded), d));
  }

  method ShiftFieldInPlace(buf: array<byte>, o: nat, at: nat, d: int)
    requires o + 188 <= buf.Length && at + 5 <= 188
    modifies buf
    ensures buf[..] == Splice(old(buf[..]), o, ShiftField(old(buf[o..o + 188]), at, d))
  {
    hide ReadPes, WritePes, ClockAdd, ShiftField, Splice;
    var encoded := buf[o + at..o + at + 5];
    FieldWithin(buf[..], o, at, d);
    assert buf[o..o + 188] == buf[..][o..o + 188] && encoded == buf[..][o + at..o + at + 5];
    WritePesTimestamp(buf, o + at, ClockAdd(ReadPes(encoded), d));
  }

  lemma FieldWithin(s: seq<byte>, o: nat, at: nat, d: int)
    requires o + 188 <= |s| && at + 5 <= 188
    ensures var encoded := s[o + at..o + at + 5];
            Splice(s, o + at, WritePes(encoded, ClockAdd(ReadPes(encoded), d)))
                == Splice(s, o, ShiftField(s[o..o + 188], at, d))
  {
    hide ReadPes, WritePes, ClockAdd, Splice;
    var encoded := s[o + at..o + at + 5];
    SliceOfSlice(s, o, at);
    SpliceWithin(s, o, at, WritePes(encoded, ClockAdd(ReadPes(encoded), d)));
  }

  method ShiftPesInPlace(buf: array<byte>, o: nat, d: int)
    requires o + 188 <= buf.Length
    modifies buf
    ensures buf[..] == Splice(old(buf[..]), o, ShiftPes(old(buf[o..o + 188]), d))
  {
    hide ShiftField, PesAt;
    var packet: Packet := buf[o..o + 188];
    assert packet == buf[..][o..o + 188];
    if PesAt(packet) == None {
      assert buf[..] == Splice(buf[..], o, packet);
      return;
    }
    var start := PesAt(packet).value;
    var hasDts := HasDts(packet, start);
    ShiftFieldInPlace(buf, o, start + 9, d);
    if hasDts {
      ghost var q := ShiftField(packet, start + 9, d);
      assert buf[o..o + 188] == buf[..][o..o + 188] == q;
      ShiftFieldInPlace(buf, o, start + 14, d);
    }
  }

  method ShiftInPlace(buf: array<byte>, o: nat, d: int)
    requires o + 188 <= buf.Length
    modifies buf
    ensures buf[..] == Splice(old(buf[..]), o, ShiftPacket(old(buf[o..o + 188]), d))
  {
    hide ShiftPes, ShiftPcr;
    ghost var packet: Packet := buf[o..o + 188];
    assert packet == buf[..][o..o + 188];
    if buf[o] != 0x47 {
      assert buf[..] == Splice(buf[..], o, packet);
      return;
    }
    ShiftPcrInPlace(buf, o, d);
    assert buf[o..o + 188] == buf[..][o..o + 188] == ShiftPcr(packet, d);
    ShiftPesInPlace(buf, o, d);
  }

  method ShiftNext(out: array<byte>, o: nat, d: int, ghost s: seq<byte>)
    requires o % 188 == 0 && o + 188 <= out.Length == |s|
    requires out[..] == Shifted(s, d)[..o] + s[o..]
    modifies out
    ensures out[..] == Shifted(s, d)[..o + 188] + s[o + 188..]
  {
    hide ShiftPacket, Shifted, Splice;
    ShiftedStep(s, d, o);
    SpliceProgress(Shifted(s, d), s, o);
    assert out[o..o + 188] == out[..][o..o + 188];
    ShiftInPlace(out, o, d);
  }

  method ShiftAllInPlace(out: array<byte>, offset: int)
    modifies out
    ensures out[..] == Shifted(old(out[..]), offset)
  {
    hide ShiftPacket, Shifted;
    ghost var s := out[..];
    ghost var r := Shifted(s, offset);
    var o := 0;
    while o + 188 <= out.Length
      invariant o % 188 == 0 && o <= out.Length
      invariant out[..] == r[..o] + s[o..]
    {
      ShiftNext(out, o, offset, s);
      o := o + 188;
    }
    ShiftedFrame(s, offset, o);
    assert r[..o] + r[o..] == r;
  }

  lemma SpliceProgress(r: seq<byte>, s: seq<byte>, o: nat)
    requires o + 188 <= |s| == |r|
    ensures var half := r[..o] + s[o..];
            half[o..o + 188] == s[o..o + 188]
            && Splice(half, o, r[o..o + 188]) == r[..o + 188] + s[o + 188..]
  {
  }

  /** Adds `offset` to every timestamp of a fresh copy of the payload; the
      payload itself is not written. */
  method RewriteTimestamps(payload: array<byte>, offset: int) returns (out: array<byte>)
    ensures fresh(out)
    ensures out[..] == Retimed(payload[..], offset)
  {
    hide Shifted;
    out := new byte[payload.Length](i requires 0 <= i < payload.Length reads payload => payload[i]);
    assert out[..] == payload[..];
    if offset != 0 {
      ShiftAllInPlace(out, offset);
    }
  }

  lemma ShiftedStep(s: seq<byte>, d: int, o: nat)
    requires o % 188 == 0 && o + 188 <= |s|
    ensures Shifted(s, d)[o..o + 188] == ShiftPacket(s[o..o + 188], d)
  {
    hide ShiftPacket, ShiftedTo;
    ShiftedFrame(s, d, o);
    assert s[o..][..188] == s[o..o + 188];
    assert Shifted(s, d)[o..o + 188] == Shifted(s, d)[o..][..188];
  }
}
