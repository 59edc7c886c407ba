/** Unwrapping a 33-bit clock and measuring how long one pass over a payload
    lasts. */
module Tracks {
  import opened Transport

  /** The signed distance from one raw value to the next, in [-2^32, 2^32). */
  function Delta(from: int, to: int): (d: int)
    ensures -HALF_CLOCK <= d < HALF_CLOCK
  {
    var d := (to - from) % CLOCK;
    if d >= HALF_CLOCK then d - CLOCK else d
  }

  /** The unwrapped series: the first raw value, then the sum of the signed
      distances. */
  function Unwrapped(raws: seq<int>): (t: seq<int>)
    ensures |t| == |raws|
  {
    if |raws| == 0 then []
    else if |raws| == 1 then raws
    else
      var t := Unwrapped(raws[..|raws| - 1]);
      t + [t[|t| - 1] + Delta(raws[|raws| - 2], raws[|raws| - 1])]
  }

  function Min(a: int, b: int): int {
    if a < b then a else b
  }

  function Max(a: int, b: int): int {
    if a > b then a else b
  }

  /** What a track has recorded. */
  datatype TrackView = TrackView(previousRaw: int, current: int, minimum: int, maximum: int, minimumStep: int,
      observed: nat)

  /** The recorded values are those of the unwrapped series. */
  ghost predicate Describes(v: TrackView, raws: seq<int>) {
    if raws == [] then v.observed == 0 && v.minimumStep == 0 else
      var t := Unwrapped(raws);
      && v.observed == |raws|
      && v.previousRaw == raws[|raws| - 1]
      && v.current == t[|t| - 1]
      && IsMinimum(t, v.minimum)
      && IsMaximum(t, v.maximum)
      && IsSmallestStep(t, v.minimumStep)
  }

  class Track {
    var initialized: bool
    var previousRaw: int
    var current: int
    var minimum: int
    var maximum: int
    var minimumStep: int
    var observed: nat

    function View(): TrackView
      reads this
    {
      TrackView(previousRaw, current, minimum, maximum, minimumStep, observed)
    }

    ghost predicate Follows(raws: seq<int>)
      reads this
    {
      initialized == (raws != []) && Describes(View(), raws)
    }

    constructor ()
      ensures Follows([])
    {
      initialized := false;
      previousRaw, current, minimum, maximum, minimumStep, observed := 0, 0, 0, 0, 0, 0;
    }

    /** Takes in one more raw value. */
    method Observe(raw: int, ghost seen: seq<int>)
      requires Follows(seen)
      modifies this
      ensures Follows(seen + [raw])
    {
      hide Describes;
      DescribesNext(View(), seen, raw);
      if !initialized {
        initialized := true;
        previousRaw, current, minimum, maximum, observed := raw, raw, raw, raw, 1;
        return;
      }
      observed := observed + 1;
      var delta := (raw - previousRaw) % CLOCK;
      if delta >= HALF_CLOCK {
        delta := delta - CLOCK;
      }
      current := current + delta;
      previousRaw := raw;
      if current < minimum {
        minimum := current;
      }
      if current > maximum {
        maximum := current;
      }
      if delta > 0 && (minimumStep == 0 || delta < minimumStep) {
        minimumStep := delta;
      }
    }
  }

  /** What describes a series after one more raw value. */
  lemma DescribesNext(v: TrackView, seen: seq<int>, raw: int)
    requires Describes(v, seen)
    ensures seen == [] ==> Describes(TrackView(raw, raw, raw, raw, v.minimumStep, 1), seen + [raw])
    ensures var delta := Delta(v.previousRaw, raw);
            seen != [] ==>
              Describes(
                TrackView(raw, v.current + delta, Min(v.minimum, v.current + delta), Max(v.maximum, v.current + delta),
                          if delta > 0 && (v.minimumStep == 0 || delta < v.minimumStep) then delta else v.minimumStep,
                          v.observed + 1), seen + [raw])
  {
    hide Delta, IsMinimum, IsMaximum, IsSmallestStep;
    var raws := seen + [raw];
    assert raws[..|raws| - 1] == seen;
    if seen != [] {
      var delta := Delta(v.previousRaw, raw);
      assert Unwrapped(raws) == Unwrapped(seen) + [v.current + delta];
      ExtendSeries(Unwrapped(seen), v.current + delta, v.minimum, v.maximum, v.minimumStep);
    } else {
      assert Unwrapped(raws) == [raw];
      SingleMeasures(raw);
    }
  }

  lemma SingleMeasures(x: int)
    ensures IsMinimum([x], x) && IsMaximum([x], x) && IsSmallestStep([x], 0)
  {
  }

  predicate IsMinimum(t: seq<int>, m: int) {
    m in t && forall i :: 0 <= i < |t| ==> m <= t[i]
  }

  predicate IsMaximum(t: seq<int>, m: int) {
    m in t && forall i :: 0 <= i < |t| ==> t[i] <= m
  }

  /** The smallest positive step of a series, or 0 when it never rises. */
  predicate IsSmallestStep(t: seq<int>, step: int) {
    && step >= 0
    && (forall i :: 0 < i < |t| ==> Step(t, i) <= 0 || (0 < step <= Step(t, i)))
    && (step > 0 ==> exists i :: 0 < i < |t| && Step(t, i) == step)
  }

  function Step(t: seq<int>, i: int): int
    requires 0 < i < |t|
  {
    t[i] - t[i - 1]
  }

  lemma ExtendSeries(t: seq<int>, x: int, lo: int, hi: int, step: int)
    requires t != [] && IsMinimum(t, lo) && IsMaximum(t, hi) && IsSmallestStep(t, step)
    ensures IsMinimum(t + [x], Min(lo, x)) && IsMaximum(t + [x], Max(hi, x))
    ensures var d := x - t[|t| - 1];
            IsSmallestStep(t + [x], if d > 0 && (step == 0 || d < step) then d else step)
  {
    var u := t + [x];
    assert u[..|t|] == t && u[|t|] == x;
    assert forall i :: 0 < i < |t| ==> Step(u, i) == Step(t, i);
    assert Step(u, |t|) == x - t[|t| - 1];
  }

  // ---------- unwrapping is exact

  /** The raw readings of a clock whose true times are `t`. */
  function Readings(t: seq<int>): (raws: seq<int>)
    ensures |raws| == |t|
    ensures forall i :: 0 <= i < |t| ==> raws[i] == t[i] % CLOCK
  {
    seq(|t|, i requires 0 <= i < |t| => t[i] % CLOCK)
  }

  predicate Trackable(t: seq<int>) {
    forall i :: 0 < i < |t| ==> -HALF_CLOCK <= Step(t, i) < HALF_CLOCK
  }

  lemma DeltaExact(a: int, b: int)
    requires -HALF_CLOCK <= b - a < HALF_CLOCK
    ensures Delta(a % CLOCK, b % CLOCK) == b - a
  {
  }

  /** Unwrapping the readings of a clock that never moves by half its range
      gives the true times, up to the whole turns before the first of them. */
  lemma {:induction false} UnwrapExact(t: seq<int>)
    requires Trackable(t)
    ensures t != [] ==> forall i :: 0 <= i < |t| ==> Unwrapped(Readings(t))[i] == t[i] - t[0] + t[0] % CLOCK
  {
    if |t| > 1 {
      var s := t[..|t| - 1];
      assert forall i :: 0 < i < |s| ==> Step(s, i) == Step(t, i);
      UnwrapExact(s);
      assert Readings(t)[..|t| - 1] == Readings(s);
      assert Step(t, |t| - 1) == t[|t| - 1] - t[|t| - 2];
      DeltaExact(t[|t| - 2], t[|t| - 1]);
    }
  }
}
