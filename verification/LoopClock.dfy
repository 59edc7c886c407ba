/** The clocks of a looped payload: what every pass emits, and why a receiver
    that unwraps the PCR never sees it step back. */
module LoopClock {
  import opened Arithmetic
  import opened Bytes
  import opened Transport
  import opened Stamps
  import opened Timestamps
  import opened CycleDuration
  import opened Continuity
  import opened LoopEngine
  import opened LoopRuns

  /** Two payloads of one length whose packets carry the same timestamps. */
  predicate SameClock(a: seq<byte>, b: seq<byte>) {
    |a| == |b| && (|a| >= 188 ==> PacketStamps(a[..188]) == PacketStamps(b[..188]) && SameClock(a[188..], b[188..]))
  }

  lemma {:induction false} SameClockPrefix(a: seq<byte>, b: seq<byte>, hi: nat)
    requires SameClock(a, b) && hi <= |a|
    ensures StreamStamps(a[..hi]) == StreamStamps(b[..hi])
  {
    hide PacketStamps;
    if hi >= 188 {
      assert a[..hi][..188] == a[..188] && a[..hi][188..] == a[188..][..hi - 188];
      assert b[..hi][..188] == b[..188] && b[..hi][188..] == b[188..][..hi - 188];
      SameClockPrefix(a[188..], b[188..], hi - 188);
    }
  }

  lemma {:induction false} StampsSplit(s: seq<byte>, o: nat)
    requires o % 188 == 0 && o <= |s|
    ensures StreamStamps(s) == StreamStamps(s[..o]) + StreamStamps(s[o..])
    decreases o
  {
    hide PacketStamps;
    if o == 0 {
      assert s[..0] == [] && s[0..] == s;
    } else {
      StampsSplit(s[188..], o - 188);
      assert s[..o][..188] == s[..188] && s[..o][188..] == s[188..][..o - 188] && s[188..][o - 188..] == s[o..];
    }
  }

  lemma {:induction false} RetimedPrefix(s: seq<byte>, d: int, hi: nat)
    requires hi <= |s|
    ensures StreamStamps(Retimed(s, d)[..hi]) == ShiftStamps(StreamStamps(s[..hi]), d)
  {
    if d == 0 {
      StreamRaws(s[..hi]);
      ShiftByNothing(StreamStamps(s[..hi]));
    } else {
      ShiftedPrefix(s, d, hi);
    }
  }

  lemma {:induction false} ShiftedPrefix(s: seq<byte>, d: int, hi: nat)
    requires hi <= |s|
    ensures StreamStamps(Shifted(s, d)[..hi]) == ShiftStamps(StreamStamps(s[..hi]), d)
  {
    hide PacketStamps, ShiftPacket, ShiftedTo, Shifted, ShiftStamps;
    if hi >= 188 {
      var p: Packet := s[..188];
      var q := ShiftPacket(p, d);
      var rest := Shifted(s[188..], d);
      ShiftedFront(s, d);
      ShiftPacketSpec(p, d);
      ShiftedStamps(p, q, d);
      ShiftedPrefix(s[188..], d, hi - 188);
      assert Shifted(s, d)[..hi][..188] == q && Shifted(s, d)[..hi][188..] == rest[..hi - 188];
      assert s[..hi][..188] == p && s[..hi][188..] == s[188..][..hi - 188];
      StampsFront(Shifted(s, d)[..hi]);
      StampsFront(s[..hi]);
      ShiftConcat(PacketStamps(p), StreamStamps(s[188..][..hi - 188]), d);
    } else {
      ShiftedShort(s, d, hi);
    }
  }

  lemma ShiftedShort(s: seq<byte>, d: int, hi: nat)
    requires hi <= |s| && hi < 188
    ensures StreamStamps(Shifted(s, d)[..hi]) == ShiftStamps(StreamStamps(s[..hi]), d) == []
  {
  }

  lemma ShiftedFront(s: seq<byte>, d: int)
    requires |s| >= 188
    ensures Shifted(s, d) == ShiftPacket(s[..188], d) + Shifted(s[188..], d)
  {
    hide ShiftPacket;
  }

  lemma StampsFront(s: seq<byte>)
    requires |s| >= 188
    ensures StreamStamps(s) == PacketStamps(s[..188]) + StreamStamps(s[188..])
  {
    hide PacketStamps;
  }

  // ---------- what a run emits

  /** The timestamps of everything a run has sent. */
  function Emitted(calls: seq<Call>): seq<Stamp> {
    if calls == [] then [] else Emitted(calls[..|calls| - 1]) + StreamStamps(LastChunk(calls))
  }

  /** `q` whole passes over the timestamps `s`, each moved on by `d`. */
  function Passes(s: seq<Stamp>, d: int, q: nat): seq<Stamp> {
    if q == 0 then [] else Passes(s, d, q - 1) + ShiftStamps(s, (q - 1) * d)
  }

  /** The passes a run has completed before the one it is in. */
  function PassesDone(calls: seq<Call>): nat {
    if calls == [] then 0
    else PassesDone(calls[..|calls| - 1]) + if After(calls[..|calls| - 1]).nextLoop then 1 else 0
  }

  /** How much of the payload the current pass has sent. */
  function SentOfPass(l: State, n: nat): nat {
    if l.nextLoop then n else if 0 <= l.offset <= n then l.offset else 0
  }

  /** Every call of the run brings a payload with the clock of `base`. */
  predicate KeepsClock(calls: seq<Call>, base: seq<byte>) {
    forall i :: 0 <= i < |calls| ==> SameClock(calls[i].payload, base)
  }

  ghost predicate OnTime(l: State, base: seq<byte>, q: nat) {
    && (l.ready ==> SameClock(l.payload, base) && l.shift == q * Duration(StreamStamps(base)) % CLOCK)
    && (!l.ready ==> q == 0)
  }

  lemma SameClockDuration(a: seq<byte>, b: seq<byte>)
    requires SameClock(a, b)
    ensures StreamStamps(a) == StreamStamps(b)
  {
    SameClockPrefix(a, b, |a|);
    assert a[..|a|] == a && b[..|b|] == b;
  }

  lemma ReadyOnTime(l: State, c: Call, base: seq<byte>, q: nat)
    requires Inv(l) && OnTime(l, base, q) && c.payload != [] && SameClock(c.payload, base)
    ensures OnTime(Ready(l, c.key, c.payload), base, if l.nextLoop then q + 1 else q)
  {
    hide Retimed, StreamStamps, SameClock, Duration, ClockAdd;
    SameClockDuration(c.payload, base);
    if l.ready {
      SameClockDuration(l.payload, base);
    }
    NextShift(q, Duration(StreamStamps(base)));
  }

  lemma NextShift(q: nat, d: int)
    ensures ClockAdd(q * d % CLOCK, d) == (q + 1) * d % CLOCK
  {
    var x := q * d;
    assert (q + 1) * d == x + d;
  }

  lemma ShiftCongruent(s: seq<Stamp>, a: int, b: int)
    requires a % CLOCK == b % CLOCK
    ensures ShiftStamps(s, a) == ShiftStamps(s, b)
  {
    hide ClockAdd;
    SameShift(a, b);
  }

  /** The timestamps of one stretch of a retimed payload. */
  lemma PendingStamps(payload: seq<byte>, base: seq<byte>, d: int, lo: nat, hi: nat)
    requires SameClock(payload, base) && lo % 188 == 0 && lo <= hi <= |base|
    ensures ShiftStamps(StreamStamps(base[..hi]), d)
            == ShiftStamps(StreamStamps(base[..lo]), d) + StreamStamps(Retimed(payload, d)[lo..hi])
  {
    hide Retimed, StreamStamps, ShiftStamps;
    var w := Retimed(payload, d);
    StampsSplit(w[..hi], lo);
    assert w[..hi][..lo] == w[..lo] && w[..hi][lo..] == w[lo..hi];
    RetimedPrefix(payload, d, lo);
    RetimedPrefix(payload, d, hi);
    SameClockPrefix(payload, base, lo);
    SameClockPrefix(payload, base, hi);
  }

  /** The timestamps sent after `q` passes and `hi` bytes of the next. */
  function Sofar(base: seq<byte>, q: nat, hi: nat): seq<Stamp>
    requires hi <= |base|
  {
    var s := StreamStamps(base);
    Passes(s, Duration(s), q) + ShiftStamps(StreamStamps(base[..hi]), q * Duration(s))
  }

  lemma NextPassBegins(base: seq<byte>, q: nat)
    ensures Sofar(base, q, |base|) == Sofar(base, q + 1, 0)
  {
    assert base[..|base|] == base && base[..0] == [];
  }

  lemma SendStretch(payload: seq<byte>, base: seq<byte>, shift: int, q: nat, lo: nat, hi: nat)
    requires SameClock(payload, base) && lo % 188 == 0 && lo <= hi <= |base|
    requires shift == q * Duration(StreamStamps(base)) % CLOCK
    ensures Sofar(base, q, lo) + StreamStamps(Retimed(payload, shift)[lo..hi]) == Sofar(base, q, hi)
  {
    hide Retimed, StreamStamps, ShiftStamps, Passes, Duration;
    ShiftedStretch(payload, base, shift, q * Duration(StreamStamps(base)), lo, hi);
  }

  lemma Reduced(d: int)
    ensures d % CLOCK % CLOCK == d % CLOCK
  {
  }

  lemma ShiftedStretch(payload: seq<byte>, base: seq<byte>, shift: int, d: int, lo: nat, hi: nat)
    requires SameClock(payload, base) && lo % 188 == 0 && lo <= hi <= |base| && shift == d % CLOCK
    ensures ShiftStamps(StreamStamps(base[..lo]), d) + StreamStamps(Retimed(payload, shift)[lo..hi])
            == ShiftStamps(StreamStamps(base[..hi]), d)
  {
    hide Retimed, StreamStamps, ShiftStamps, SameClock;
    Reduced(d);
    PendingStamps(payload, base, shift, lo, hi);
    ShiftCongruent(StreamStamps(base[..lo]), shift, d);
    ShiftCongruent(StreamStamps(base[..hi]), shift, d);
  }

  /** One call moves what has been sent on along the looped timeline. */
  lemma EmitsNext(l: State, c: Call, base: seq<byte>, q: nat)
    requires Inv(l) && OnTime(l, base, q) && c.payload != [] && SameClock(c.payload, base)
    ensures var (n, chunk) := NextCall(l, c.key, c.payload, c.preserve);
            var p := if l.nextLoop then q + 1 else q;
            && Inv(n) && OnTime(n, base, p)
            && Sofar(base, q, SentOfPass(l, |base|)) + StreamStamps(chunk) == Sofar(base, p, SentOfPass(n, |base|))
  {
    hide Retimed, StreamStamps, SameClock, Duration, NextCall, Ready, Renumber, Sofar;
    var p := if l.nextLoop then q + 1 else q;
    var r := Ready(l, c.key, c.payload);
    ReadyOnTime(l, c, base, q);
    NextSpec(l, c.key, c.payload, c.preserve);
    ReadyInv(l, c.key, c.payload);
    RenumberStamps(Pending(l, c.key, c.payload), l.counters, c.preserve);
    SameLengths(l, c, base, q);
    ReadyPosition(l, c, base);
    NextPassBegins(base, q);
    var hi := SentOfPass(NextCall(l, c.key, c.payload, c.preserve).0, |base|);
    ChunkAligned(r);
    SendStretch(r.payload, base, r.shift, p, r.offset, hi);
  }

  lemma SameLengths(l: State, c: Call, base: seq<byte>, q: nat)
    requires OnTime(l, base, q) && SameClock(c.payload, base)
    ensures |c.payload| == |base| && (l.ready ==> |l.payload| == |base|)
  {
  }

  lemma ReadyPosition(l: State, c: Call, base: seq<byte>)
    requires Inv(l) && c.payload != [] && |c.payload| == |base| && (l.ready ==> |l.payload| == |base|)
    ensures var r := Ready(l, c.key, c.payload);
            |r.payload| == |base| && r.offset == if l.nextLoop then 0 else SentOfPass(l, |base|)
  {
    hide Retimed, StreamStamps, Duration;
  }

  lemma ChunkAligned(l: State)
    requires Inv(l)
    ensures l.offset % 188 == 0
  {
    hide Retimed, StreamStamps, Duration;
    SevenPackets(l.offset);
  }

  lemma SevenPackets(n: int)
    requires n % CHUNK_SIZE == 0
    ensures n % 188 == 0
  {
    assert n == n / CHUNK_SIZE * CHUNK_SIZE;
    MultipleOf(n / CHUNK_SIZE * 7, 188);
  }

  /** Over every run whose payloads keep one clock, what has been sent is the
      looped timeline: whole passes, each moved on by the cycle duration, and
      the beginning of the next. */
  lemma {:induction false} EmittedTimeline(calls: seq<Call>, base: seq<byte>)
    requires base != [] && KeepsClock(calls, base)
    ensures Emitted(calls) == Sofar(base, PassesDone(calls), SentOfPass(After(calls), |base|))
    ensures OnTime(After(calls), base, PassesDone(calls))
  {
    hide Inv, NextCall, Sofar, StreamStamps, SameClock, Duration;
    ReachableInv(calls);
    if calls == [] {
      NothingYet(base);
    } else {
      var init, c := calls[..|calls| - 1], calls[|calls| - 1];
      ReachableInv(init);
      EmittedTimeline(init, base);
      assert |c.payload| == |base| by {
        LengthKept(c.payload, base);
      }
      EmitsNext(After(init), c, base, PassesDone(init));
    }
  }

  lemma LengthKept(a: seq<byte>, b: seq<byte>)
    requires SameClock(a, b)
    ensures |a| == |b|
  {
  }

  lemma NothingYet(base: seq<byte>)
    ensures Sofar(base, 0, 0) == []
  {
    assert base[..0] == [];
  }
}
