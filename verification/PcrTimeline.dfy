/** The main results about the looped clock: a receiver that unwraps the PCRs of
    one pid sees them rise for ever, each pass closed by the same gap. */
module PcrTimeline {
  import opened Arithmetic
  import opened Bytes
  import opened Transport
  import opened Stamps
  import opened Timestamps
  import opened Tracks
  import opened CycleDuration
  import opened LoopRuns
  import opened LoopClock

  // ---------- raw values of a looped stream

  lemma {:induction false} RawsConcat(a: seq<Stamp>, b: seq<Stamp>, pid: nat, kind: Kind)
    ensures Raws(a + b, pid, kind) == Raws(a, pid, kind) + Raws(b, pid, kind)
  {
    if b == [] {
      assert a + b == a;
    } else {
      RawsConcat(a, b[..|b| - 1], pid, kind);
      assert (a + b)[..|a + b| - 1] == a + b[..|b| - 1];
    }
  }

  function AddAll(t: seq<int>, d: int): (r: seq<int>)
    ensures |r| == |t| && forall i :: 0 <= i < |t| ==> r[i] == t[i] + d
  {
    seq(|t|, i requires 0 <= i < |t| => t[i] + d)
  }

  /** The true times of `q` whole passes over a clock, each `d` later. */
  function Turns(t: seq<int>, d: int, q: nat): (r: seq<int>)
  {
    if q == 0 then [] else Turns(t, d, q - 1) + AddAll(t, (q - 1) * d)
  }

  predicate InRange(raws: seq<int>) {
    forall i :: 0 <= i < |raws| ==> 0 <= raws[i] < CLOCK
  }

  lemma {:induction false} UnwrappedCongruent(raws: seq<int>)
    requires InRange(raws)
    ensures Readings(Unwrapped(raws)) == raws
  {
    if |raws| > 1 {
      var n := |raws| - 1;
      UnwrappedCongruent(raws[..n]);
      var t := Unwrapped(raws[..n]);
      assert Readings(t)[n - 1] == raws[n - 1];
      CongruentStep(t[n - 1], raws[n - 1], raws[n]);
    }
  }

  lemma CongruentStep(time: int, from: int, to: int)
    requires time % CLOCK == from && 0 <= to < CLOCK
    ensures (time + Delta(from, to)) % CLOCK == to
  {
    var d := (to - from) % CLOCK;
    assert (time + d) % CLOCK == to;
    assert (time + d - CLOCK) % CLOCK == (time + d) % CLOCK;
  }

  lemma ShiftReadings(t: seq<int>, d: int)
    ensures ShiftRaws(Readings(t), d) == Readings(AddAll(t, d))
  {
    hide ClockAdd;
    forall i | 0 <= i < |t|
      ensures ShiftRaws(Readings(t), d)[i] == Readings(AddAll(t, d))[i]
    {
      ShiftReading(t[i], d);
    }
  }

  lemma ShiftReading(x: int, d: int)
    ensures ClockAdd(x % CLOCK, d) == (x + d) % CLOCK
  {
  }

  lemma ReadingsConcat(a: seq<int>, b: seq<int>)
    ensures Readings(a + b) == Readings(a) + Readings(b)
  {
  }

  lemma {:induction false} PassesRaws(s: seq<Stamp>, d: int, q: nat, pid: nat, kind: Kind, t: seq<int>)
    requires Raws(s, pid, kind) == Readings(t)
    ensures Raws(Passes(s, d, q), pid, kind) == Readings(Turns(t, d, q))
  {
    hide Raws, Readings, ShiftStamps, AddAll;
    if q == 0 {
      NoRaws(pid, kind);
    } else {
      PassesRaws(s, d, q - 1, pid, kind, t);
      RawsConcat(Passes(s, d, q - 1), ShiftStamps(s, (q - 1) * d), pid, kind);
      RawsShift(s, pid, kind, (q - 1) * d);
      ShiftReadings(t, (q - 1) * d);
      ReadingsConcat(Turns(t, d, q - 1), AddAll(t, (q - 1) * d));
    }
  }

  lemma NoRaws(pid: nat, kind: Kind)
    ensures Raws([], pid, kind) == [] && Readings([]) == []
  {
  }

  lemma RawsPrefix(a: seq<Stamp>, b: seq<Stamp>, pid: nat, kind: Kind)
    requires a <= b
    ensures Raws(a, pid, kind) <= Raws(b, pid, kind)
  {
    RawsConcat(a, b[|a|..], pid, kind);
    assert a + b[|a|..] == b;
  }

  lemma {:induction false} RawsBound(s: seq<Stamp>, pid: nat, kind: Kind)
    requires forall i :: 0 <= i < |s| ==> 0 <= s[i].raw < CLOCK
    ensures InRange(Raws(s, pid, kind))
  {
    if s != [] {
      var init, last := s[..|s| - 1], s[|s| - 1];
      RawsBound(init, pid, kind);
      assert Raws(s, pid, kind) == Raws(init, pid, kind) || Raws(s, pid, kind) == Raws(init, pid, kind) + [last.raw];
    }
  }

  // ---------- the looped timeline rises

  /** Every step is forward and shorter than half the clock's range. */
  predicate Rising(t: seq<int>) {
    forall i :: 0 < i < |t| ==> 0 < Step(t, i) < HALF_CLOCK
  }

  /** From the last time of one pass to the first of the next. */
  function Gap(t: seq<int>, d: int): int
    requires t != []
  {
    d - (t[|t| - 1] - t[0])
  }

  /** Steps of a looped timeline are those of the pass, with the gap between
      passes. */
  predicate LoopsWith(r: seq<int>, t: seq<int>, d: int)
    requires t != []
  {
    && (r != [] ==> r[0] == t[0])
    && forall i :: 0 < i < |r| ==> Step(r, i) == if i % |t| == 0 then Gap(t, d) else Step(t, i % |t|)
  }

  lemma {:induction false} TurnsEnd(t: seq<int>, d: int, q: nat)
    requires t != []
    ensures |Turns(t, d, q)| == q * |t|
    ensures q > 0 ==> |Turns(t, d, q)| > 0 && Turns(t, d, q)[|Turns(t, d, q)| - 1] == t[|t| - 1] + (q - 1) * d
  {
    if q > 0 {
      TurnsEnd(t, d, q - 1);
      assert q * |t| == (q - 1) * |t| + |t|;
    }
  }

  lemma AppendPass(r: seq<int>, t: seq<int>, d: int, q: nat, k: nat)
    requires t != [] && LoopsWith(r, t, d) && |r| == q * |t| && k <= |t|
    requires q > 0 ==> |r| > 0 && r[|r| - 1] == t[|t| - 1] + (q - 1) * d
    ensures LoopsWith(r + AddAll(t[..k], q * d), t, d)
  {
    var u := r + AddAll(t[..k], q * d);
    forall i | 0 < i < |u|
      ensures Step(u, i) == if i % |t| == 0 then Gap(t, d) else Step(t, i % |t|)
    {
      if i < |r| {
        assert Step(u, i) == Step(r, i);
      } else {
        WithinPass(i, q, |t|);
        var j := i - |r|;
        if j == 0 {
          assert q * d == (q - 1) * d + d;
        } else {
          assert Step(u, i) == t[j] - t[j - 1];
        }
      }
    }
  }

  lemma WithinPass(i: nat, q: nat, c: nat)
    requires c > 0 && q * c <= i < q * c + c
    ensures i % c == i - q * c
  {
    DivisionUnique(i, c, q, i - q * c);
  }

  lemma {:induction false} TurnsLoop(t: seq<int>, d: int, q: nat)
    requires t != []
    ensures LoopsWith(Turns(t, d, q), t, d)
  {
    if q > 0 {
      TurnsLoop(t, d, q - 1);
      TurnsEnd(t, d, q - 1);
      AppendPass(Turns(t, d, q - 1), t, d, q - 1, |t|);
      assert t[..|t|] == t;
    }
  }

  // ---------- the main results

  /** The true times of the PCRs of `pid` in one pass. */
  function PassTimes(base: seq<byte>, pid: nat): seq<int> {
    Unwrapped(Raws(StreamStamps(base), pid, Pcr))
  }

  /** The PCRs a run has sent on `pid`, as a receiver unwraps them. */
  function ReceivedTimes(calls: seq<Call>, pid: nat): seq<int> {
    Unwrapped(Raws(Emitted(calls), pid, Pcr))
  }

  predicate OnlyClock(s: seq<Stamp>, pid: nat) {
    forall i :: 0 <= i < |s| && s[i].kind == Pcr ==> s[i].pid == pid
  }

  /** The gap between passes is at least the smallest step of the clock, and
      is that step when no other pid carries a PCR. */
  lemma GapIsAStep(s: seq<Stamp>, pid: nat)
    requires pid < 8192
    requires var t := Unwrapped(Raws(s, pid, Pcr)); |t| >= 2 && Rising(t)
    ensures var t := Unwrapped(Raws(s, pid, Pcr));
            && Gap(t, Duration(s)) >= SmallestStep(t) > 0
            && (OnlyClock(s, pid) ==> Gap(t, Duration(s)) == SmallestStep(t) < HALF_CLOCK)
  {
    hide Raws, KindDuration, Unwrapped, SmallestStep;
    var raws := Raws(s, pid, Pcr);
    var t := Unwrapped(raws);
    RisingCandidate(raws);
    hide Candidate;
    KindDurationLargest(s, Pcr, 8192);
    if OnlyClock(s, pid) {
      forall other: nat | other < 8192 && other != pid
        ensures Candidate(Raws(s, other, Pcr)) == 0
      {
        OtherPidSilent(s, pid, other);
      }
    }
  }

  lemma RisingCandidate(raws: seq<int>)
    requires var t := Unwrapped(raws); |t| >= 2 && Rising(t)
    ensures var t := Unwrapped(raws);
            Candidate(raws) == t[|t| - 1] - t[0] + SmallestStep(t) && 0 < SmallestStep(t) < HALF_CLOCK
  {
    hide Unwrapped, MinOf, MaxOf, SmallestStep;
    var t := Unwrapped(raws);
    MeasuresExact(t);
    RisingEnds(t);
    assert 0 < Step(t, 1) < HALF_CLOCK;
  }

  lemma {:induction false} OtherPidSilent(s: seq<Stamp>, pid: nat, other: nat)
    requires OnlyClock(s, pid) && other != pid
    ensures Raws(s, other, Pcr) == []
  {
    if s != [] {
      OtherPidSilent(s[..|s| - 1], pid, other);
    }
  }

  lemma {:induction false} RisingEnds(t: seq<int>)
    requires t != [] && Rising(t)
    ensures MinOf(t) == t[0] && MaxOf(t) == t[|t| - 1] && t[0] <= t[|t| - 1]
  {
    if |t| > 1 {
      var s := t[..|t| - 1];
      assert forall i :: 0 < i < |s| ==> Step(s, i) == Step(t, i);
      RisingEnds(s);
      assert Step(t, |t| - 1) > 0;
    }
  }

  /** What a run has sent on `pid` are the readings of the looped timeline. */
  lemma SentReadings(calls: seq<Call>, base: seq<byte>, pid: nat)
    requires base != [] && KeepsClock(calls, base)
    ensures var t, d := PassTimes(base, pid), Duration(StreamStamps(base));
            exists q: nat, k: nat | k <= |t| ::
              Raws(Emitted(calls), pid, Pcr) == Readings(Turns(t, d, q) + AddAll(t[..k], q * d))
  {
    var s, t, d := StreamStamps(base), PassTimes(base, pid), Duration(StreamStamps(base));
    var q, hi := PassesDone(calls), SentOfPass(After(calls), |base|);
    EmittedTimeline(calls, base);
    StreamRaws(base);
    RawsBound(s, pid, Pcr);
    UnwrappedCongruent(Raws(s, pid, Pcr));
    PassesRaws(s, d, q, pid, Pcr, t);
    SentIsPrefix(calls, base);
    var part := StreamStamps(base[..hi]);
    RawsPrefix(part, s, pid, Pcr);
    var k := |Raws(part, pid, Pcr)|;
    hide Raws, Readings, StreamStamps, Duration, Unwrapped, ShiftStamps, AddAll;
    assert Raws(part, pid, Pcr) == Readings(t[..k]) by {
      ReadingsPrefix(t, k, Raws(part, pid, Pcr));
    }
    RawsConcat(Passes(s, d, q), ShiftStamps(part, q * d), pid, Pcr);
    RawsShift(part, pid, Pcr, q * d);
    ShiftReadings(t[..k], q * d);
    ReadingsConcat(Turns(t, d, q), AddAll(t[..k], q * d));
  }

  lemma ReadingsPrefix(t: seq<int>, k: nat, r: seq<int>)
    requires r <= Readings(t) && k == |r|
    ensures r == Readings(t[..k])
  {
  }

  lemma SentIsPrefix(calls: seq<Call>, base: seq<byte>)
    requires base != [] && KeepsClock(calls, base)
    ensures StreamStamps(base[..SentOfPass(After(calls), |base|)]) <= StreamStamps(base)
  {
    var l := After(calls);
    ReachableInv(calls);
    if l.nextLoop {
      assert base[..|base|] == base;
    } else {
      ChunkAligned(l);
      if l.offset <= |base| {
        StampsSplit(base, l.offset);
      }
    }
  }

  lemma FirstTime(base: seq<byte>, pid: nat)
    ensures PassTimes(base, pid) != [] ==> 0 <= PassTimes(base, pid)[0] < CLOCK
  {
    StreamRaws(base);
    RawsBound(StreamStamps(base), pid, Pcr);
    hide StreamStamps;
    var raws := Raws(StreamStamps(base), pid, Pcr);
    if raws != [] {
      FirstUnwrapped(raws);
    }
  }

  lemma {:induction false} FirstUnwrapped(raws: seq<int>)
    requires raws != []
    ensures Unwrapped(raws)[0] == raws[0]
  {
    if |raws| > 1 {
      FirstUnwrapped(raws[..|raws| - 1]);
    }
  }

  lemma LoopedTimes(t: seq<int>, d: int, q: nat, k: nat)
    requires t != [] && k <= |t|
    ensures LoopsWith(Turns(t, d, q) + AddAll(t[..k], q * d), t, d)
  {
    TurnsLoop(t, d, q);
    TurnsEnd(t, d, q);
    AppendPass(Turns(t, d, q), t, d, q, k);
  }

  lemma LoopRises(r: seq<int>, t: seq<int>, d: int)
    requires t != [] && LoopsWith(r, t, d) && Rising(t) && 0 < Gap(t, d) < HALF_CLOCK
    ensures Rising(r)
  {
    hide Step, Gap;
    forall i | 0 < i < |r|
      ensures 0 < Step(r, i) < HALF_CLOCK
    {
      Remainder(i, |t|);
    }
  }

  lemma Remainder(i: nat, c: nat)
    requires c > 0
    ensures 0 <= i % c < c
  {
  }

  lemma RisingIsReceived(r: seq<int>)
    requires Rising(r) && (r != [] ==> 0 <= r[0] < CLOCK)
    ensures Unwrapped(Readings(r)) == r
  {
    hide Unwrapped, Readings, Step;
    UnwrapExact(r);
    if r != [] {
      assert r[0] % CLOCK == r[0];
    }
  }

  /** For every run that keeps one clock: a receiver unwraps the PCRs of a pid
      whose PCRs rise within a pass as rising for ever. Inside a pass the steps
      are those of the payload; every pass is closed by the same gap. */
  lemma PcrNeverStepsBack(calls: seq<Call>, base: seq<byte>, pid: nat)
    requires base != [] && KeepsClock(calls, base) && pid < 8192
    requires |PassTimes(base, pid)| >= 2 && Rising(PassTimes(base, pid))
    requires Gap(PassTimes(base, pid), Duration(StreamStamps(base))) < HALF_CLOCK
    ensures LoopsWith(ReceivedTimes(calls, pid), PassTimes(base, pid), Duration(StreamStamps(base)))
    ensures Rising(ReceivedTimes(calls, pid))
  {
    var t, d := PassTimes(base, pid), Duration(StreamStamps(base));
    SentReadings(calls, base, pid);
    GapIsAStep(StreamStamps(base), pid);
    FirstTime(base, pid);
    hide Raws, StreamStamps, Duration, Emitted, Readings, Unwrapped, LoopsWith, Rising, Turns, AddAll, SmallestStep;
    var q: nat, k: nat :| k <= |t|
        && Raws(Emitted(calls), pid, Pcr) == Readings(Turns(t, d, q) + AddAll(t[..k], q * d));
    var r := Turns(t, d, q) + AddAll(t[..k], q * d);
    LoopedTimes(t, d, q, k);
    LoopRises(r, t, d);
    LoopsFrom(r, t, d);
    RisingIsReceived(r);
  }

  lemma LoopsFrom(r: seq<int>, t: seq<int>, d: int)
    requires t != [] && LoopsWith(r, t, d)
    ensures r != [] ==> r[0] == t[0]
  {
  }

  /** The usual payload, one whose PCRs sit on one pid: the receiver's clock
      rises for ever, through every pass boundary and every wrap, and the
      boundary step is exactly the clock's smallest step. */
  lemma OneClockLoops(calls: seq<Call>, base: seq<byte>, pid: nat)
    requires base != [] && KeepsClock(calls, base) && pid < 8192
    requires OnlyClock(StreamStamps(base), pid) && |PassTimes(base, pid)| >= 2 && Rising(PassTimes(base, pid))
    ensures var (r, t) := (ReceivedTimes(calls, pid), PassTimes(base, pid));
            && Rising(r)
            && forall i :: 0 < i < |r| ==> Step(r, i) == if i % |t| == 0 then SmallestStep(t) else Step(t, i % |t|)
  {
    hide StreamStamps, Rising, SmallestStep, OnlyClock, KeepsClock, Raws, Unwrapped, Emitted, Duration;
    GapIsAStep(StreamStamps(base), pid);
    PcrNeverStepsBack(calls, base, pid);
  }

  // ---------- within a pass nothing moves against anything else

  /** `e` is the timestamp `s` moved on by `d`. */
  predicate Moved(e: Stamp, s: Stamp, d: int) {
    e == Stamp(s.pid, s.kind, ClockAdd(s.raw, d))
  }

  /** Everything sent is the payload's timestamps in order, those of pass `p`
      all moved by `p` cycles. */
  predicate PassByPass(e: seq<Stamp>, s: seq<Stamp>, d: int)
    requires s != []
  {
    forall x :: 0 <= x < |e| ==> Moved(e[x], s[x % |s|], x / |s| * d)
  }

  lemma MovedNext(e: seq<Stamp>, part: seq<Stamp>, s: seq<Stamp>, d: int, q: nat)
    requires s != [] && part <= s && |e| == q * |s| && PassByPass(e, s, d)
    ensures PassByPass(e + ShiftStamps(part, q * d), s, d)
  {
    var all, n := e + ShiftStamps(part, q * d), |s|;
    hide ClockAdd;
    forall x | 0 <= x < |all|
      ensures Moved(all[x], s[x % n], x / n * d)
    {
      if x < |e| {
        assert Moved(e[x], s[x % n], x / n * d);
      } else {
        DivisionUnique(x, n, q, x - |e|);
        assert all[x] == ShiftStamps(part, q * d)[x - |e|];
      }
    }
  }

  lemma {:induction false} PassesByPass(s: seq<Stamp>, d: int, q: nat)
    requires s != []
    ensures |Passes(s, d, q)| == q * |s| && PassByPass(Passes(s, d, q), s, d)
  {
    hide PassByPass, ShiftStamps;
    if q == 0 {
      NothingMoved(s, d);
    } else {
      PassesByPass(s, d, q - 1);
      MovedNext(Passes(s, d, q - 1), s, s, d, q - 1);
      assert (q - 1) * |s| + |s| == q * |s|;
    }
  }

  lemma NothingMoved(s: seq<Stamp>, d: int)
    requires s != []
    ensures PassByPass([], s, d)
  {
  }

  lemma SentPassByPass(calls: seq<Call>, base: seq<byte>)
    requires base != [] && KeepsClock(calls, base) && StreamStamps(base) != []
    ensures PassByPass(Emitted(calls), StreamStamps(base), Duration(StreamStamps(base)))
  {
    hide PassByPass, StreamStamps, Duration, KeepsClock, Emitted, ShiftStamps, Passes;
    var s, d := StreamStamps(base), Duration(StreamStamps(base));
    var q, hi := PassesDone(calls), SentOfPass(After(calls), |base|);
    EmittedTimeline(calls, base);
    SentIsPrefix(calls, base);
    PassesByPass(s, d, q);
    MovedNext(Passes(s, d, q), StreamStamps(base[..hi]), s, d, q);
  }

  /** In every pass the distance between two timestamps, a presentation time and
      a PCR say, is what it is in the payload. */
  lemma OffsetsKept(calls: seq<Call>, base: seq<byte>, x: nat, y: nat)
    requires base != [] && KeepsClock(calls, base) && StreamStamps(base) != []
    requires x < |Emitted(calls)| && y < |Emitted(calls)|
    ensures var (e, s) := (Emitted(calls), StreamStamps(base));
            && e[x].pid == s[x % |s|].pid && e[x].kind == s[x % |s|].kind
            && (x / |s| == y / |s| ==> (e[x].raw - e[y].raw) % CLOCK == (s[x % |s|].raw - s[y % |s|].raw) % CLOCK)
  {
    hide StreamStamps, Duration, KeepsClock, Emitted;
    var e, s, d := Emitted(calls), StreamStamps(base), Duration(StreamStamps(base));
    SentPassByPass(calls, base);
    assert Moved(e[x], s[x % |s|], x / |s| * d) && Moved(e[y], s[y % |s|], y / |s| * d);
    if x / |s| == y / |s| {
      SameDistance(s[x % |s|].raw, s[y % |s|].raw, x / |s| * d);
    }
  }

  lemma SameDistance(a: int, b: int, d: int)
    ensures (ClockAdd(a, d) - ClockAdd(b, d)) % CLOCK == (a - b) % CLOCK
  {
  }
}
