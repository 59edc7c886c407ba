/** RTP packets: the twelve-byte header and the sender that numbers them
    (section 5.1 of RFC 3550). */
module Rtp {
  import opened Bytes

  const MP2T: byte := 33
  const TICKS: nat := 3600 // 90 kHz over 25
  const SSRC: nat := 0x73617470

  datatype Header = Header(payloadType: nat, sequence: nat, timestamp: nat, ssrc: nat)

  function PacketBytes(sequence: nat, timestamp: nat, ssrc: nat, chunk: seq<byte>): seq<byte> {
    [0x80, MP2T] + BigEndian(sequence, 2) + BigEndian(timestamp, 4) + BigEndian(ssrc, 4) + chunk
  }

  /** A receiver's view: version 2 without padding, extension or sources. */
  function ReadPacket(p: seq<byte>): Option<(Header, seq<byte>)> {
    if |p| < 12 || p[0] != 0x80 then None
    else
      Some((Header(p[1] % 128, FromBigEndian(p[2..4]), FromBigEndian(p[4..8]), FromBigEndian(p[8..12])), p[12..]))
  }

  lemma ReadBack(sequence: nat, timestamp: nat, ssrc: nat, chunk: seq<byte>)
    requires sequence < 0x1_0000 && timestamp < 0x1_0000_0000 && ssrc < 0x1_0000_0000
    ensures ReadPacket(PacketBytes(sequence, timestamp, ssrc, chunk))
        == Some((Header(33, sequence, timestamp, ssrc), chunk))
  {
    var p := PacketBytes(sequence, timestamp, ssrc, chunk);
    assert p[2..4] == BigEndian(sequence, 2) && p[4..8] == BigEndian(timestamp, 4);
    assert p[8..12] == BigEndian(ssrc, 4) && p[12..] == chunk;
    hide BigEndian, FromBigEndian;
    BigEndianRoundTrip(sequence, 2);
    BigEndianRoundTrip(timestamp, 4);
    BigEndianRoundTrip(ssrc, 4);
  }

  /** What the `k`-th chunk of a stream carries, counted from 0. */
  function SequenceOf(k: nat): nat {
    k % 0x1_0000
  }

  function TimestampOf(k: nat): nat {
    3600 * k % 0x1_0000_0000
  }

  lemma Numbering(k: nat)
    ensures SequenceOf(k) < 0x1_0000 && TimestampOf(k) < 0x1_0000_0000
    ensures SequenceOf(k + 1) == (SequenceOf(k) + 1) % 0x1_0000
    ensures TimestampOf(k + 1) == (TimestampOf(k) + TICKS) % 0x1_0000_0000
  {
    SequenceStep(k);
    TimestampStep(k);
    hide SequenceOf, TimestampOf;
  }

  lemma SequenceStep(k: nat)
    ensures SequenceOf(k) < 0x1_0000 && SequenceOf(k + 1) == (SequenceOf(k) + 1) % 0x1_0000
  {
  }

  lemma TimestampStep(k: nat)
    ensures TimestampOf(k) < 0x1_0000_0000 && TimestampOf(k + 1) == (TimestampOf(k) + TICKS) % 0x1_0000_0000
  {
    var a := 3600 * k;
    assert TimestampOf(k) == a % 0x1_0000_0000;
    assert TimestampOf(k + 1) == (a + 3600) % 0x1_0000_0000;
    hide TimestampOf;
    Wrap32(a);
  }

  lemma Wrap32(a: nat)
    ensures (a + 3600) % 0x1_0000_0000 == (a % 0x1_0000_0000 + 3600) % 0x1_0000_0000
  {
  }

  class RTPSender {
    var sequence: nat
    var timestamp: nat
    var ssrc: nat

    /** The next packet is the `k`-th. */
    ghost predicate At(k: nat)
      reads this
    {
      sequence == SequenceOf(k) && timestamp == TimestampOf(k) && ssrc == SSRC
    }

    constructor ()
      ensures At(0)
    {
      sequence, timestamp, ssrc := 0, 0, SSRC;
    }

    method Packet(chunk: seq<byte>, ghost k: nat) returns (packet: array<byte>)
      requires At(k)
      modifies this
      ensures At(k + 1) && fresh(packet)
      ensures packet[..] == PacketBytes(SequenceOf(k), TimestampOf(k), SSRC, chunk)
    {
      hide SequenceOf, TimestampOf;
      Numbering(k);
      packet := new byte[12 + |chunk|](_ => 0);
      packet[0] := 0x80;
      packet[1] := MP2T % 128;
      assert packet[..2] == [0x80, MP2T];
      Put(packet, 2, BigEndian(sequence, 2));
      Put(packet, 4, BigEndian(timestamp, 4));
      Put(packet, 8, BigEndian(ssrc, 4));
      Put(packet, 12, chunk);
      assert packet[..] == packet[..12 + |chunk|];
      Skip(k);
    }

    method Skip(ghost k: nat)
      requires At(k)
      modifies this
      ensures At(k + 1)
    {
      Numbering(k);
      sequence := (sequence + 1) % 0x1_0000;
      timestamp := (timestamp + 90000 / 25) % 0x1_0000_0000;
    }
  }

  /** `copy` into a buffer. */
  method Put(buf: array<byte>, at: nat, s: seq<byte>)
    requires at + |s| <= buf.Length
    modifies buf
    ensures buf[..at + |s|] == old(buf[..at]) + s && forall j :: at + |s| <= j < buf.Length ==> buf[j] == old(buf[j])
  {
    for i := 0 to |s|
      invariant buf[..at + i] == old(buf[..at]) + s[..i]
      invariant forall j :: at + i <= j < buf.Length ==> buf[j] == old(buf[j])
    {
      buf[at + i] := s[i];
    }
  }
}
