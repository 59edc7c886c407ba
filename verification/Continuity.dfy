/** Continuity counters (ISO/IEC 13818-1 section 2.4.3.3): renumbering a stream
    per pid, and the law the emitted packets obey. */
module Continuity {
  import opened Bytes
  import opened Transport
  import opened Stamps
  import opened Timestamps

  /** The next counter of each pid seen so far. */
  type Counters = map<nat, nibble>

  type nibble = x: int | 0 <= x < 16

  function Counter(p: Packet): nibble {
    p[3] % 16
  }

  function SetCounter(p: Packet, c: nibble): Packet {
    p[3 := p[3] / 16 * 16 + c as int]
  }

  function NextCounter(c: nibble): nibble {
    (c as int + 1) % 16
  }

  /** The packet takes part in counting: it is in sync and its adaptation
      field control is not the reserved value. */
  predicate Counted(p: Packet) {
    Sync(p) && AdaptationControl(p) != 0
  }

  predicate HasPayload(p: Packet) {
    AdaptationControl(p) == 1 || AdaptationControl(p) == 3
  }

  // ---------- renumbering

  function RenumberPacket(p: Packet, next: Counters, preserve: bool): (Packet, Counters) {
    var pid, own := Pid(p), NextCounter(Counter(p));
    if !Counted(p) then (p, next)
    else if preserve then (p, if HasPayload(p) || pid !in next then next[pid := own] else next)
    else if pid !in next then (p, next[pid := own])
    else
      var n := next[pid];
      if HasPayload(p) then (SetCounter(p, n), next[pid := NextCounter(n)])
          else (SetCounter(p, (n as int + 15) % 16), next)
  }

  function Renumber(s: seq<byte>, next: Counters, preserve: bool): (r: (seq<byte>, Counters))
    ensures |r.0| == |s|
  {
    if |s| < 188 then (s, next)
    else
      var (q, m) := RenumberPacket(s[..188], next, preserve);
      var rest := Renumber(s[188..], m, preserve);
      (q + rest.0, rest.1)
  }

  // ---------- the law

  /** One packet before and after renumbering. */
  datatype Sent = Sent(original: Packet, emitted: Packet, preserve: bool)

  /** The counter of the last payload-bearing packet emitted on `pid`. */
  function LastPayload(log: seq<Sent>, pid: nat): Option<nibble> {
    if log == [] then None
    else
      var e := log[|log| - 1].emitted;
      if Counted(e) && Pid(e) == pid && HasPayload(e) then Some(Counter(e)) else LastPayload(log[..|log| - 1], pid)
  }

  /** The counter of the first adaptation-only packet emitted on `pid`. */
  function FirstAdaptation(log: seq<Sent>, pid: nat): Option<nibble> {
    if log == [] then None
    else
      var e := log[|log| - 1].emitted;
      var before := FirstAdaptation(log[..|log| - 1], pid);
      if before == None && Counted(e) && Pid(e) == pid && !HasPayload(e) then Some(Counter(e)) else before
  }

  /** The counter a receiver last counted on `pid`. */
  function Carried(log: seq<Sent>, pid: nat): Option<nibble> {
    if LastPayload(log, pid).Some? then LastPayload(log, pid) else FirstAdaptation(log, pid)
  }

  /** Nothing but the counter nibble of a packet was written. */
  predicate OnlyCounter(p: Packet, q: Packet) {
    q == p[3 := q[3]] && q[3] / 16 == p[3] / 16
  }

  /** What may be emitted after `carried`: in preserve mode the packet itself;
      otherwise the next counter for a payload and the same counter for an
      adaptation field alone. */
  predicate Continues(carried: Option<nibble>, e: Sent) {
    && OnlyCounter(e.original, e.emitted)
    && (!Counted(e.original) || e.preserve || carried == None ==> e.emitted == e.original)
    && (Counted(e.original) && !e.preserve && carried.Some? ==>
          Counter(e.emitted) == if HasPayload(e.original) then NextCounter(carried.value) else carried.value)
  }

  predicate Lawful(log: seq<Sent>) {
    forall i :: 0 <= i < |log| ==> Continues(Carried(log[..i], Pid(log[i].original)), log[i])
  }

  /** The table holds, for exactly the pids counted so far, the carried counter
      plus one. */
  ghost predicate Describes(next: Counters, log: seq<Sent>) {
    forall pid :: match Carried(log, pid)
                  case None => pid !in next
                  case Some(c) => pid in next && next[pid] == NextCounter(c)
  }

  // ---------- one packet

  lemma OnlyCounterHeader(p: Packet, q: Packet)
    requires OnlyCounter(p, q)
    ensures Counted(q) == Counted(p) && HasPayload(q) == HasPayload(p) && Pid(q) == Pid(p)
    ensures SameLayout(p, q) && PacketStamps(q) == PacketStamps(p)
  {
    assert forall i :: 0 <= i < 188 && i != 3 ==> q[i] == p[i];
    assert AdaptationControl(q) == AdaptationControl(p);
    LayoutKept(p, q);
  }

  lemma LayoutKept(p: Packet, q: Packet)
    requires forall i :: 0 <= i < 188 && i != 3 ==> q[i] == p[i]
    requires AdaptationControl(q) == AdaptationControl(p)
    ensures SameLayout(p, q) && PacketStamps(q) == PacketStamps(p)
  {
    hide ReadPcr, ReadPes, AdaptationControl, PayloadOffset, PcrStamps, PesStamps, PesAt;
    OffsetKept(p, q);
    PcrKept(p, q);
    PesKept(p, q);
  }

  lemma Same(p: Packet, q: Packet, at: nat, n: nat)
    requires (forall i :: 0 <= i < 188 && i != 3 ==> q[i] == p[i]) && 3 < at && at + n <= 188
    ensures q[at..at + n] == p[at..at + n]
  {
  }

  lemma OffsetKept(p: Packet, q: Packet)
    requires (forall i :: 0 <= i < 188 && i != 3 ==> q[i] == p[i]) && AdaptationControl(q) == AdaptationControl(p)
    ensures PayloadOffset(q) == PayloadOffset(p) && (PayloadOffset(p).Some? ==> PayloadOffset(p).value > 3)
  {
    hide AdaptationControl;
  }

  lemma PcrKept(p: Packet, q: Packet)
    requires (forall i :: 0 <= i < 188 && i != 3 ==> q[i] == p[i]) && AdaptationControl(q) == AdaptationControl(p)
    ensures HasPcr(q) == HasPcr(p) && PcrStamps(q) == PcrStamps(p)
  {
    hide ReadPcr, AdaptationControl;
    Same(p, q, 6, 5);
  }

  lemma PesKept(p: Packet, q: Packet)
    requires (forall i :: 0 <= i < 188 && i != 3 ==> q[i] == p[i]) && PayloadOffset(q) == PayloadOffset(p)
    requires PayloadOffset(p).Some? ==> PayloadOffset(p).value > 3
    ensures PesAt(q) == PesAt(p) && PesStamps(q) == PesStamps(p)
    ensures PesAt(p).Some? ==> HasDts(q, PesAt(p).value) == HasDts(p, PesAt(p).value)
  {
    hide ReadPes, PayloadOffset;
    if PayloadOffset(p).Some? && PayloadOffset(p).value + 14 <= 188 {
      var at := PayloadOffset(p).value;
      Same(p, q, at, 3);
      Same(p, q, at + 9, 5);
      if at + 19 <= 188 {
        Same(p, q, at + 14, 5);
      }
    }
  }

  lemma SetCounterFacts(p: Packet, c: nibble)
    ensures OnlyCounter(p, SetCounter(p, c)) && Counter(SetCounter(p, c)) == c
  {
  }

  lemma CarriedNext(log: seq<Sent>, e: Sent, pid: nat)
    requires OnlyCounter(e.original, e.emitted)
    ensures Carried(log + [e], pid) ==
              if Counted(e.original) && Pid(e.original) == pid && (HasPayload(e.original) || Carried(log, pid) == None)
              then Some(Counter(e.emitted)) else Carried(log, pid)
  {
    OnlyCounterHeader(e.original, e.emitted);
    hide Counted, HasPayload, Pid, Counter, OnlyCounter;
    assert (log + [e])[..|log|] == log;
  }

  lemma RenumberPacketLaw(p: Packet, next: Counters, preserve: bool, log: seq<Sent>)
    requires Describes(next, log)
    ensures var (q, m) := RenumberPacket(p, next, preserve);
            Continues(Carried(log, Pid(p)), Sent(p, q, preserve)) && Describes(m, log + [Sent(p, q, preserve)])
  {
    hide RenumberPacket, Describes, Continues;
    RenumberPacketContinues(p, next, preserve, log);
    RenumberPacketDescribes(p, next, preserve, log);
  }

  lemma RenumberPacketContinues(p: Packet, next: Counters, preserve: bool, log: seq<Sent>)
    requires Describes(next, log)
    ensures Continues(Carried(log, Pid(p)), Sent(p, RenumberPacket(p, next, preserve).0, preserve))
  {
    hide Counted, HasPayload, Pid, Carried, SetCounter, OnlyCounter;
    RenumberOnlyCounter(p, next, preserve);
    if Pid(p) in next {
      SetCounterFacts(p, next[Pid(p)]);
      SetCounterFacts(p, (next[Pid(p)] as int + 15) % 16);
    }
  }

  lemma RenumberPacketDescribes(p: Packet, next: Counters, preserve: bool, log: seq<Sent>)
    requires Describes(next, log)
    ensures var (q, m) := RenumberPacket(p, next, preserve); Describes(m, log + [Sent(p, q, preserve)])
  {
    hide Counted, HasPayload, Pid, Carried, SetCounter, OnlyCounter;
    var (q, m) := RenumberPacket(p, next, preserve);
    var e := Sent(p, q, preserve);
    RenumberOnlyCounter(p, next, preserve);
    if Pid(p) in next {
      SetCounterFacts(p, next[Pid(p)]);
      SetCounterFacts(p, (next[Pid(p)] as int + 15) % 16);
    }
    forall pid: nat
      ensures Carried(log + [e], pid) ==
                if Counted(p) && Pid(p) == pid && (HasPayload(p) || Carried(log, pid) == None)
                then Some(Counter(q)) else Carried(log, pid)
    {
      CarriedNext(log, e, pid);
    }
  }

  // ---------- a stream

  function ChunkLog(before: seq<byte>, after: seq<byte>, preserve: bool): seq<Sent>
    requires |before| == |after|
  {
    if |before| < 188 then []
    else [Sent(before[..188], after[..188], preserve)] + ChunkLog(before[188..], after[188..], preserve)
  }

  lemma LawfulNext(log: seq<Sent>, e: Sent)
    requires Lawful(log) && Continues(Carried(log, Pid(e.original)), e)
    ensures Lawful(log + [e])
  {
    var l := log + [e];
    hide Continues, Carried, Pid;
    forall i | 0 <= i < |l|
      ensures Continues(Carried(l[..i], Pid(l[i].original)), l[i])
    {
      assert l[..i] == log[..i];
    }
  }

  /** Renumbering a stretch of packets extends a lawful log lawfully and leaves
      the table describing the longer log. */
  lemma {:induction false} RenumberLaw(s: seq<byte>, next: Counters, preserve: bool, log: seq<Sent>)
    requires Lawful(log) && Describes(next, log)
    ensures var (r, m) := Renumber(s, next, preserve);
            Lawful(log + ChunkLog(s, r, preserve)) && Describes(m, log + ChunkLog(s, r, preserve))
  {
    hide RenumberPacket, Lawful, Describes, Continues, Carried, Pid;
    var (r, m) := Renumber(s, next, preserve);
    if |s| < 188 {
      assert log + [] == log;
    } else {
      var (q, n) := RenumberPacket(s[..188], next, preserve);
      var e := Sent(s[..188], q, preserve);
      RenumberPacketLaw(s[..188], next, preserve, log);
      LawfulNext(log, e);
      RenumberLaw(s[188..], n, preserve, log + [e]);
      var rest := Renumber(s[188..], n, preserve).0;
      assert r[..188] == q && r[188..] == rest;
      assert log + [e] + ChunkLog(s[188..], rest, preserve) == log + ChunkLog(s, r, preserve);
    }
  }

  /** Renumbering does not move a timestamp. */
  lemma {:induction false} RenumberStamps(s: seq<byte>, next: Counters, preserve: bool)
    ensures StreamStamps(Renumber(s, next, preserve).0) == StreamStamps(s)
  {
    if |s| >= 188 {
      var p: Packet := s[..188];
      var (q, m) := RenumberPacket(p, next, preserve);
      RenumberOnlyCounter(p, next, preserve);
      OnlyCounterHeader(p, q);
      hide RenumberPacket, PacketStamps, OnlyCounter;
      RenumberStamps(s[188..], m, preserve);
      var r := Renumber(s, next, preserve).0;
      assert r[..188] == q && r[188..] == Renumber(s[188..], m, preserve).0;
    }
  }

  lemma RenumberOnlyCounter(p: Packet, next: Counters, preserve: bool)
    ensures OnlyCounter(p, RenumberPacket(p, next, preserve).0)
  {
    if Pid(p) in next {
      SetCounterFacts(p, next[Pid(p)]);
      SetCounterFacts(p, (next[Pid(p)] as int + 15) % 16);
    }
    hide Counted, HasPayload, Pid, SetCounter;
  }

  lemma RenumberNothing(next: Counters, preserve: bool)
    ensures Renumber([], next, preserve) == ([], next)
  {
  }

  lemma RenumberFront(s: seq<byte>, next: Counters, preserve: bool)
    requires |s| >= 188
    ensures var (q, m) := RenumberPacket(s[..188], next, preserve);
            var rest := Renumber(s[188..], m, preserve);
            Renumber(s, next, preserve) == (q + rest.0, rest.1)
  {
    hide RenumberPacket;
  }

  /** Renumbering in two pieces, split between packets, is renumbering once. */
  lemma {:induction false} RenumberSplit(s: seq<byte>, o: nat, next: Counters, preserve: bool)
    requires o % 188 == 0 && o <= |s|
    ensures var first := Renumber(s[..o], next, preserve);
            var second := Renumber(s[o..], first.1, preserve);
            Renumber(s, next, preserve) == (first.0 + second.0, second.1)
    decreases o
  {
    hide RenumberPacket, Renumber;
    if o == 0 {
      RenumberNothing(next, preserve);
      assert s[..0] == [] && s[0..] == s && [] + Renumber(s, next, preserve).0 == Renumber(s, next, preserve).0;
    } else {
      RenumberFront(s, next, preserve);
      RenumberFront(s[..o], next, preserve);
      var (q, m) := RenumberPacket(s[..188], next, preserve);
      RenumberSplit(s[188..], o - 188, m, preserve);
      assert s[..o][..188] == s[..188] && s[..o][188..] == s[188..][..o - 188] && s[188..][o - 188..] == s[o..];
      var first := Renumber(s[..o], next, preserve);
      var x := Renumber(s[188..][..o - 188], m, preserve);
      assert first == (q + x.0, x.1);
      var second := Renumber(s[o..], x.1, preserve).0;
      assert q + (x.0 + second) == (q + x.0) + second;
    }
  }

  lemma RenumberOne(s: seq<byte>, o: nat, next: Counters, preserve: bool)
    requires o % 188 == 0 && o + 188 <= |s|
    ensures var first := Renumber(s[..o], next, preserve);
            var (q, m) := RenumberPacket(s[o..o + 188], first.1, preserve);
            Renumber(s[..o + 188], next, preserve) == (first.0 + q, m)
  {
    hide RenumberPacket;
    var t := s[..o + 188];
    RenumberSplit(t, o, next, preserve);
    assert t[..o] == s[..o] && t[o..] == s[o..o + 188] && t[o..][..188] == t[o..] && t[o..][188..] == [];
    var m := Renumber(s[..o], next, preserve).1;
    var q := RenumberPacket(s[o..o + 188], m, preserve).0;
    assert q + [] == q;
  }

  lemma RenumberTail(s: seq<byte>, o: nat, next: Counters, preserve: bool)
    requires o % 188 == 0 && o <= |s| < o + 188
    ensures var first := Renumber(s[..o], next, preserve);
            Renumber(s, next, preserve) == (first.0 + s[o..], first.1)
  {
    hide RenumberPacket;
    if o == 0 {
      assert s[..0] == [] && [] + s[0..] == s;
    } else {
      RenumberSplit(s, o, next, preserve);
    }
  }

  // ---------- in place

  method RewritePacket(buf: array<byte>, o: nat, next: Counters, preserve: bool) returns (m: Counters)
    requires o + 188 <= buf.Length
    modifies buf
    ensures var (q, n) := RenumberPacket(old(buf[o..o + 188]), next, preserve);
            buf[..] == Splice(old(buf[..]), o, q) && m == n
  {
    hide Pid;
    var packet: Packet := buf[o..o + 188];
    SpliceSame(buf[..], o, packet);
    m := next;
    var control := buf[o + 3] / 16 % 4;
    if buf[o] != 0x47 || control == 0 {
      return;
    }
    var hasPayload := control == 1 || control == 3;
    var pid := Pid(packet);
    var current: nibble := buf[o + 3] % 16;
    if preserve {
      if hasPayload || pid !in next {
        m := m[pid := NextCounter(current)];
      }
      return;
    }
    var n := current;
    if pid !in next {
      m := m[pid := NextCounter(current)];
      if !hasPayload {
        return;
      }
    } else if hasPayload {
      n := next[pid];
      m := m[pid := NextCounter(n)];
    } else {
      n := (next[pid] as int + 15) % 16;
    }
    SpliceOne(buf[..], o, 3, buf[o + 3] / 16 * 16 + n as int);
    buf[o + 3] := buf[o + 3] / 16 * 16 + n as int;
    assert SetCounter(packet, current) == packet;
  }

  lemma SpliceSame(s: seq<byte>, o: nat, p: Packet)
    requires o + 188 <= |s| && p == s[o..o + 188]
    ensures Splice(s, o, p) == s
  {
  }

  lemma SpliceOne(s: seq<byte>, o: nat, i: nat, b: byte)
    requires o + 188 <= |s| && i < 188
    ensures s[o + i := b] == Splice(s, o, s[o..o + 188][i := b])
  {
  }

  /** Renumbers `buf[lo..hi]` in place and returns the table for what follows. */
  method RewriteContinuityCounters(buf: array<byte>, lo: nat, hi: nat, next: Counters, preserve: bool)
      returns (m: Counters)
    requires lo <= hi <= buf.Length
    modifies buf
    ensures var (r, n) := Renumber(old(buf[lo..hi]), next, preserve);
            buf[..] == Splice(old(buf[..]), lo, r) && m == n
  {
    hide RenumberPacket, Renumber, Splice;
    ghost var s, whole := buf[lo..hi], buf[..];
    ghost var r := Renumber(s, next, preserve).0;
    m := next;
    var offset := 0;
    NothingSent(whole, lo, s, next, preserve);
    while offset + 188 <= hi - lo
      invariant offset <= hi - lo && offset % 188 == 0
      invariant buf[..] == Splice(whole, lo, r[..offset])
      invariant m == Renumber(s[..offset], next, preserve).1
    {
      RenumberStep(s, offset, next, preserve);
      SpliceOnward(whole, lo, r, offset, s);
      assert buf[lo + offset..lo + offset + 188] == buf[..][lo + offset..lo + offset + 188];
      m := RewritePacket(buf, lo + offset, m, preserve);
      offset := offset + 188;
    }
    RenumberRest(s, offset, next, preserve);
    SpliceEnd(whole, lo, r, offset, s);
  }

  lemma NothingSent(whole: seq<byte>, lo: nat, s: seq<byte>, next: Counters, preserve: bool)
    requires lo <= |whole|
    ensures Splice(whole, lo, Renumber(s, next, preserve).0[..0]) == whole
    ensures Renumber(s[..0], next, preserve) == ([], next)
  {
    assert s[..0] == [] && Renumber(s, next, preserve).0[..0] == [];
  }

  lemma RenumberStep(s: seq<byte>, k: nat, next: Counters, preserve: bool)
    requires k % 188 == 0 && k + 188 <= |s|
    ensures var r := Renumber(s, next, preserve).0;
            (r[k..k + 188], Renumber(s[..k + 188], next, preserve).1)
            == RenumberPacket(s[k..k + 188], Renumber(s[..k], next, preserve).1, preserve)
  {
    hide RenumberPacket, Renumber;
    RenumberOne(s, k, next, preserve);
    RenumberSplit(s, k + 188, next, preserve);
    RenumberSplit(s, k, next, preserve);
    var a, b := Renumber(s[..k], next, preserve).0, Renumber(s[..k + 188], next, preserve).0;
    assert b[k..] == b[k..k + 188] == Renumber(s, next, preserve).0[k..k + 188];
  }

  lemma RenumberRest(s: seq<byte>, k: nat, next: Counters, preserve: bool)
    requires k % 188 == 0 && k <= |s| < k + 188
    ensures Renumber(s, next, preserve).0[k..] == s[k..]
    ensures Renumber(s, next, preserve).1 == Renumber(s[..k], next, preserve).1
  {
    hide RenumberPacket, Renumber;
    RenumberTail(s, k, next, preserve);
  }

  lemma SpliceOnward(whole: seq<byte>, lo: nat, r: seq<byte>, k: nat, s: seq<byte>)
    requires lo + |r| <= |whole| && k + 188 <= |r| && s == whole[lo..lo + |r|]
    ensures var t := Splice(whole, lo, r[..k]);
            t[lo + k..lo + k + 188] == s[k..k + 188]
            && Splice(t, lo + k, r[k..k + 188]) == Splice(whole, lo, r[..k + 188])
  {
    var t := Splice(whole, lo, r[..k]);
    assert t[lo + k..lo + k + 188] == whole[lo + k..lo + k + 188];
    var a, b := s[k..k + 188], whole[lo + k..lo + k + 188];
    forall i | 0 <= i < 188
      ensures a[i] == b[i]
    {
      assert a[i] == s[k + i] == whole[lo + (k + i)];
      assert b[i] == whole[(lo + k) + i];
    }
    assert a == b;
  }

  lemma SpliceEnd(whole: seq<byte>, lo: nat, r: seq<byte>, k: nat, s: seq<byte>)
    requires lo + |r| <= |whole| && k <= |r| && s == whole[lo..lo + |r|] && r[k..] == s[k..]
    ensures Splice(whole, lo, r[..k]) == Splice(whole, lo, r)
  {
    assert r == r[..k] + whole[lo..lo + |r|][k..];
  }
}
