/** Where a transport packet carries PCR, PTS and DTS, and what shifting all of
    them by one offset does to the packet. */
module Stamps {
  import opened Bytes
  import opened Transport

  // ---------- reading

  predicate HasPcr(p: Packet) {
    (AdaptationControl(p) == 2 || AdaptationControl(p) == 3) && p[4] >= 7 && p[5] / 16 % 2 == 1
  }

  /** The start of a PES header whose flags announce a PTS. */
  function PesAt(p: Packet): (r: Option<nat>)
    ensures r.Some? ==> r == PayloadOffset(p) && r.value + 14 <= 188
  {
    match PayloadOffset(p)
    case None => None
    case Some(at) =>
      if UnitStart(p) && at + 14 <= 188 && p[at..at + 3] == [0, 0, 1] && p[at + 7] / 64 >= 2 then Some(at) else None
  }

  predicate HasDts(p: Packet, at: nat)
    requires at + 14 <= 188
  {
    p[at + 7] / 64 == 3 && at + 19 <= 188
  }

  function PcrStamps(p: Packet): seq<Stamp> {
    if HasPcr(p) then [Stamp(Pid(p), Pcr, ReadPcr(p[6..11]))] else []
  }

  function PesStamps(p: Packet): seq<Stamp> {
    match PesAt(p)
    case None => []
    case Some(at) =>
      [Stamp(Pid(p), Pts, ReadPes(p[at + 9..at + 14]))]
      + if HasDts(p, at) then [Stamp(Pid(p), Dts, ReadPes(p[at + 14..at + 19]))] else []
  }

  function PacketStamps(p: Packet): seq<Stamp> {
    if Sync(p) then PcrStamps(p) + PesStamps(p) else []
  }

  /** Every PES timestamp of the packet has its marker bits set. */
  predicate MarkedPacket(p: Packet) {
    Sync(p) && PesAt(p).Some? ==>
      var at := PesAt(p).value;
      Marked(p[at + 9..at + 14]) && (HasDts(p, at) ==> Marked(p[at + 14..at + 19]))
  }

  // ---------- shifting

  function ShiftPcr(p: Packet, d: int): Packet {
    if HasPcr(p) then Splice(p, 6, WritePcr(p[6..11], ClockAdd(ReadPcr(p[6..11]), d))) else p
  }

  function ShiftField(p: Packet, at: nat, d: int): Packet
    requires at + 5 <= 188
  {
    Splice(p, at, WritePes(p[at..at + 5], ClockAdd(ReadPes(p[at..at + 5]), d)))
  }

  function ShiftPes(p: Packet, d: int): Packet {
    match PesAt(p)
    case None => p
    case Some(at) =>
      var q := ShiftField(p, at + 9, d);
      if HasDts(p, at) then ShiftField(q, at + 14, d) else q
  }

  function ShiftPacket(p: Packet, d: int): Packet {
    if Sync(p) then ShiftPes(ShiftPcr(p, d), d) else p
  }

  function ShiftStamps(s: seq<Stamp>, d: int): (r: seq<Stamp>)
    ensures |r| == |s|
    ensures forall i :: 0 <= i < |s| ==> r[i] == Stamp(s[i].pid, s[i].kind, ClockAdd(s[i].raw, d))
  {
    seq(|s|, i requires 0 <= i < |s| => Stamp(s[i].pid, s[i].kind, ClockAdd(s[i].raw, d)))
  }

  lemma ShiftConcat(a: seq<Stamp>, b: seq<Stamp>, d: int)
    ensures ShiftStamps(a + b, d) == ShiftStamps(a, d) + ShiftStamps(b, d)
  {
  }

  // ---------- what a shift does

  /** Everything that decides where a packet's timestamps are is the same in
      both packets. */
  predicate SameLayout(p: Packet, q: Packet) {
    && Sync(q) == Sync(p)
    && Pid(q) == Pid(p)
    && HasPcr(q) == HasPcr(p)
    && PesAt(q) == PesAt(p)
    && (PesAt(p).Some? ==> HasDts(q, PesAt(p).value) == HasDts(p, PesAt(p).value))
  }

  predicate InPcr(p: Packet, i: nat) {
    HasPcr(p) && 6 <= i < 11
  }

  predicate InPes(p: Packet, i: nat) {
    PesAt(p).Some? && var at := PesAt(p).value; at + 9 <= i < if HasDts(p, at) then at + 19 else at + 14
  }

  /** `q` is `p` with `d` added to each of its timestamps and no other byte
      touched. */
  predicate ShiftedTo(p: Packet, q: Packet, d: int) {
    if !Sync(p) then q == p else
      && (forall i :: 0 <= i < 188 && !InPcr(p, i) && !InPes(p, i) ==> q[i] == p[i])
      && (HasPcr(p) ==> q[6..11] == WritePcr(p[6..11], ClockAdd(ReadPcr(p[6..11]), d)))
      && (PesAt(p).Some? ==> var at := PesAt(p).value;
                             && ShiftedField(p, q, at + 9, d)
                             && (HasDts(p, at) ==> ShiftedField(p, q, at + 14, d)))
  }

  predicate ShiftedField(p: Packet, q: Packet, at: nat, d: int)
    requires at + 5 <= 188
  {
    q[at..at + 5] == WritePes(p[at..at + 5], ClockAdd(ReadPes(p[at..at + 5]), d))
  }

  /** Only the first six bytes and the nine bytes of a PES header are consulted
      to find the timestamps. */
  lemma LayoutFromHeaders(p: Packet, q: Packet)
    requires forall i :: 0 <= i < 6 ==> q[i] == p[i]
    requires PayloadOffset(p).Some? ==>
      forall i :: PayloadOffset(p).value <= i < 188 && i < PayloadOffset(p).value + 9 ==> q[i] == p[i]
    ensures SameLayout(p, q)
  {
    assert PayloadOffset(q) == PayloadOffset(p);
    if PayloadOffset(p).Some? && PayloadOffset(p).value + 14 <= 188 {
      var at := PayloadOffset(p).value;
      assert q[at..at + 3] == p[at..at + 3];
    }
  }

  /** A PCR and a PES timestamp of one packet never overlap. */
  lemma RegionsApart(p: Packet)
    requires HasPcr(p) && PayloadOffset(p).Some?
    ensures PayloadOffset(p).value >= 12
  {
  }

  lemma StampsAfterHeaders(p: Packet, i: nat)
    requires InPcr(p, i) || InPes(p, i)
    ensures i >= 6 && (PayloadOffset(p).Some? && i >= PayloadOffset(p).value ==> i >= PayloadOffset(p).value + 9)
  {
    if HasPcr(p) && PayloadOffset(p).Some? {
      RegionsApart(p);
    }
  }

  lemma UntouchedLayout(p: Packet, q: Packet)
    requires forall i :: 0 <= i < 188 && !InPcr(p, i) && !InPes(p, i) ==> q[i] == p[i]
    ensures SameLayout(p, q)
  {
    forall i: nat | InPcr(p, i) || InPes(p, i)
      ensures i >= 6 && (PayloadOffset(p).Some? && i >= PayloadOffset(p).value ==> i >= PayloadOffset(p).value + 9)
    {
      StampsAfterHeaders(p, i);
    }
    hide InPcr, InPes;
    LayoutFromHeaders(p, q);
  }

  lemma ShiftPcrBytes(p: Packet, d: int)
    ensures var q := ShiftPcr(p, d);
            && SameLayout(p, q)
            && (forall i :: 0 <= i < 188 && !InPcr(p, i) ==> q[i] == p[i])
            && (HasPcr(p) ==> q[6..11] == WritePcr(p[6..11], ClockAdd(ReadPcr(p[6..11]), d)))
  {
    hide ReadPcr, WritePcr, ClockAdd;
    UntouchedLayout(p, ShiftPcr(p, d));
  }

  lemma ShiftPesBytes(p: Packet, at: nat, d: int)
    requires PesAt(p) == Some(at)
    ensures var q := ShiftPes(p, d);
            && (forall i :: 0 <= i < 188 && !InPes(p, i) ==> q[i] == p[i])
            && ShiftedField(p, q, at + 9, d)
            && (HasDts(p, at) ==> ShiftedField(p, q, at + 14, d))
  {
    hide ReadPes, WritePes, ClockAdd, PesAt;
    if HasDts(p, at) {
      var q := ShiftField(p, at + 9, d);
      assert q[at + 14..at + 19] == p[at + 14..at + 19];
      var r := ShiftField(q, at + 14, d);
      assert r[at + 9..at + 14] == q[at + 9..at + 14];
    }
  }

  /** The in-place walk over a packet's timestamps adds the offset to each of
      them and changes nothing else. */
  lemma ShiftPacketSpec(p: Packet, d: int)
    ensures ShiftedTo(p, ShiftPacket(p, d), d)
  {
    if Sync(p) {
      var q := ShiftPcr(p, d);
      ShiftPcrBytes(p, d);
      if PesAt(p).Some? {
        ShiftPesBytes(q, PesAt(p).value, d);
        PcrThenPes(p, q, ShiftPes(q, d), PesAt(p).value, d);
      }
    }
  }

  lemma PcrThenPes(p: Packet, q: Packet, r: Packet, at: nat, d: int)
    requires Sync(p) && PesAt(p) == Some(at) && SameLayout(p, q)
    requires forall i :: 0 <= i < 188 && !InPcr(p, i) ==> q[i] == p[i]
    requires HasPcr(p) ==> q[6..11] == WritePcr(p[6..11], ClockAdd(ReadPcr(p[6..11]), d))
    requires forall i :: 0 <= i < 188 && !InPes(q, i) ==> r[i] == q[i]
    requires ShiftedField(q, r, at + 9, d) && (HasDts(p, at) ==> at + 19 <= 188 && ShiftedField(q, r, at + 14, d))
    ensures ShiftedTo(p, r, d)
  {
    hide ReadPcr, ReadPes, WritePcr, WritePes, ClockAdd, PesAt, HasDts, Sync, Pid, HasPcr;
    PcrBeforePes(p, at);
    forall i | 0 <= i < 188 && !InPcr(p, i) && !InPes(p, i)
      ensures r[i] == p[i]
    {
      assert !InPes(q, i);
    }
    assert q[at + 9..at + 14] == p[at + 9..at + 14];
    if HasDts(p, at) {
      assert q[at + 14..at + 19] == p[at + 14..at + 19];
    }
    if HasPcr(p) {
      assert r[6..11] == q[6..11];
    }
  }

  lemma PcrBeforePes(p: Packet, at: nat)
    requires PesAt(p) == Some(at)
    ensures at + 14 <= 188 && (HasDts(p, at) ==> at + 19 <= 188) && (HasPcr(p) ==> at >= 12)
  {
  }

  // ---------- the shift is an action of the integers modulo 2^33

  lemma ShiftedLayout(p: Packet, q: Packet, d: int)
    requires ShiftedTo(p, q, d)
    ensures SameLayout(p, q)
  {
    if Sync(p) {
      UntouchedLayout(p, q);
    }
  }

  /** Revisiting a shifted packet finds the same timestamps in the same order,
      each moved by the offset modulo 2^33. */
  lemma ShiftedStamps(p: Packet, q: Packet, d: int)
    requires ShiftedTo(p, q, d)
    ensures PacketStamps(q) == ShiftStamps(PacketStamps(p), d)
  {
    ShiftedLayout(p, q, d);
    if Sync(p) {
      hide ReadPcr, ReadPes, WritePcr, WritePes, ClockAdd, PesAt, HasDts, Sync, Pid, HasPcr;
      ShiftConcat(PcrStamps(p), PesStamps(p), d);
      if HasPcr(p) {
        PcrCodec(p[6..11], ClockAdd(ReadPcr(p[6..11]), d));
      }
      ShiftedPesStamps(p, q, d);
    }
  }

  lemma ShiftedPesStamps(p: Packet, q: Packet, d: int)
    requires Sync(p) && ShiftedTo(p, q, d) && SameLayout(p, q)
    ensures PesStamps(q) == ShiftStamps(PesStamps(p), d)
    ensures MarkedPacket(q)
  {
    if PesAt(p).Some? {
      var at := PesAt(p).value;
      PcrBeforePes(p, at);
      hide ReadPcr, ReadPes, WritePcr, WritePes, ClockAdd, PesAt, HasDts, Sync, Pid, HasPcr, Marked;
      PesCodec(p[at + 9..at + 14], ClockAdd(ReadPes(p[at + 9..at + 14]), d));
      if HasDts(p, at) {
        PesCodec(p[at + 14..at + 19], ClockAdd(ReadPes(p[at + 14..at + 19]), d));
      }
    }
  }

  lemma ClockAddCompose(x: int, a: int, b: int)
    ensures ClockAdd(ClockAdd(x, a), b) == ClockAdd(x, a + b)
    ensures ClockAdd(x, a % CLOCK) == ClockAdd(x, a)
  {
  }

  lemma ShiftedCompose(p: Packet, q: Packet, r: Packet, a: int, b: int)
    requires ShiftedTo(p, q, a) && ShiftedTo(q, r, b)
    ensures ShiftedTo(p, r, a + b)
  {
    ShiftedLayout(p, q, a);
    if Sync(p) {
      if HasPcr(p) {
        var e := p[6..11];
        PcrCodec(e, ClockAdd(ReadPcr(e), a));
        ClockAddCompose(ReadPcr(e), a, b);
      }
      if PesAt(p).Some? {
        var at := PesAt(p).value;
        PcrBeforePes(p, at);
        FieldCompose(p, q, r, at + 9, a, b);
        if HasDts(p, at) {
          FieldCompose(p, q, r, at + 14, a, b);
        }
      }
      hide ReadPcr, ReadPes, WritePcr, WritePes, ClockAdd, PesAt, HasDts, Sync, Pid, HasPcr, ShiftedField;
    }
  }

  lemma FieldCompose(p: Packet, q: Packet, r: Packet, at: nat, a: int, b: int)
    requires at + 5 <= 188
    ensures ShiftedField(p, q, at, a) && ShiftedField(q, r, at, b) ==> ShiftedField(p, r, at, a + b)
  {
    hide ReadPes, WritePes, ClockAdd;
    var e := p[at..at + 5];
    PesCodec(e, ClockAdd(ReadPes(e), a));
    ClockAddCompose(ReadPes(e), a, b);
  }

  lemma ShiftedUnique(p: Packet, q: Packet, r: Packet, a: int, b: int)
    requires ShiftedTo(p, q, a) && ShiftedTo(p, r, b) && a % CLOCK == b % CLOCK
    ensures q == r
  {
    hide ReadPcr, ReadPes, WritePcr, WritePes, PesAt, HasDts, Sync, Pid, HasPcr, ClockAdd;
    SameShift(a, b);
    if PesAt(p).Some? {
      PcrBeforePes(p, PesAt(p).value);
    }
    forall i | 0 <= i < 188
      ensures q[i] == r[i]
    {
      if Sync(p) {
        if InPcr(p, i) {
          SliceAgrees(q, r, 6, i);
        } else if InPes(p, i) {
          SliceAgrees(q, r, if i < PesAt(p).value + 14 then PesAt(p).value + 9 else PesAt(p).value + 14, i);
        }
      }
    }
  }

  lemma SameShift(a: int, b: int)
    requires a % CLOCK == b % CLOCK
    ensures forall x :: ClockAdd(x, a) == ClockAdd(x, b)
  {
    forall x
      ensures ClockAdd(x, a) == ClockAdd(x, b)
    {
      ClockAddCompose(x, a, 0);
      ClockAddCompose(x, b, 0);
    }
  }

  lemma SliceAgrees(q: Packet, r: Packet, at: nat, i: nat)
    requires at <= i < at + 5 <= 188 && q[at..at + 5] == r[at..at + 5]
    ensures q[i] == r[i]
  {
    assert q[i] == q[at..at + 5][i - at];
  }

  /** A shift by nothing is the identity exactly where the marker bits of the
      PES timestamps are set. */
  lemma ShiftedByNothing(p: Packet, q: Packet, d: int)
    requires ShiftedTo(p, q, d) && d % CLOCK == 0
    ensures q == p <==> MarkedPacket(p)
  {
    ShiftedLayout(p, q, d);
    if Sync(p) {
      if q == p {
        ShiftedPesStamps(p, q, d);
      } else if MarkedPacket(p) {
        MarkedIsShifted(p);
        ShiftedUnique(p, p, q, 0, d);
      }
    }
  }

  lemma MarkedIsShifted(p: Packet)
    requires Sync(p) && MarkedPacket(p)
    ensures ShiftedTo(p, p, 0)
  {
    hide ReadPcr, ReadPes, WritePcr, WritePes, PesAt, HasDts, Sync, Pid, HasPcr, Marked;
    if HasPcr(p) {
      PcrCodec(p[6..11], ReadPcr(p[6..11]));
    }
    if PesAt(p).Some? {
      var at := PesAt(p).value;
      PcrBeforePes(p, at);
      PesCodec(p[at + 9..at + 14], ReadPes(p[at + 9..at + 14]));
      if HasDts(p, at) {
        PesCodec(p[at + 14..at + 19], ReadPes(p[at + 14..at + 19]));
      }
    }
  }
}
