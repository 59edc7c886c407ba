/** The length of one pass over a payload: the longest span of its best clock,
    closed by that clock's smallest step. */
module CycleDuration {
  import opened Bytes
  import opened Transport
  import opened Stamps
  import opened Timestamps
  import opened Tracks

  const DEFAULT_STEP: int := 3600

  /** The raw values of one kind on one pid, in stream order. */
  function Raws(s: seq<Stamp>, pid: nat, kind: Kind): seq<int> {
    if s == [] then []
    else
      var last := s[|s| - 1];
      Raws(s[..|s| - 1], pid, kind) + if last.pid == pid && last.kind == kind then [last.raw] else []
  }

  function MinOf(t: seq<int>): int
    requires t != []
  {
    if |t| == 1 then t[0] else Min(MinOf(t[..|t| - 1]), t[|t| - 1])
  }

  function MaxOf(t: seq<int>): int
    requires t != []
  {
    if |t| == 1 then t[0] else Max(MaxOf(t[..|t| - 1]), t[|t| - 1])
  }

  function SmallestStep(t: seq<int>): int {
    if |t| < 2 then 0
    else
      var step, d := SmallestStep(t[..|t| - 1]), Step(t, |t| - 1);
      if d > 0 && (step == 0 || d < step) then d else step
  }

  /** What one track offers as the cycle duration; 0 when it offers none. */
  function Candidate(raws: seq<int>): int {
    var t := Unwrapped(raws);
    if |t| < 2 || SmallestStep(t) == 0 then 0 else MaxOf(t) - MinOf(t) + SmallestStep(t)
  }

  /** The largest candidate of a kind over the pids below `n`. */
  function KindDuration(s: seq<Stamp>, kind: Kind, n: nat): int {
    if n == 0 then 0 else Max(KindDuration(s, kind, n - 1), Candidate(Raws(s, n - 1, kind)))
  }

  function Duration(s: seq<Stamp>): int {
    if KindDuration(s, Pcr, 8192) > 0 then KindDuration(s, Pcr, 8192)
    else if KindDuration(s, Dts, 8192) > 0 then KindDuration(s, Dts, 8192)
    else if KindDuration(s, Pts, 8192) > 0 then KindDuration(s, Pts, 8192)
    else DEFAULT_STEP
  }

  /** The best clock of a pid offers its span and its smallest step. */
  predicate Offers(s: seq<Stamp>, kind: Kind, d: int) {
    exists pid :: 0 <= pid < 8192 && Candidate(Raws(s, pid, kind)) == d
  }

  /** The PCR decides if any offers a duration, else the DTS, else the PTS, else
      it is a twenty-fifth of a second. */
  lemma DurationChoice(s: seq<Stamp>)
    ensures var d := Duration(s);
            var pcr, dts, pts := SomeOffer(s, Pcr), SomeOffer(s, Dts), SomeOffer(s, Pts);
            && d > 0
            && (pcr ==> Offers(s, Pcr, d))
            && (!pcr && dts ==> Offers(s, Dts, d))
            && (!pcr && !dts && pts ==> Offers(s, Pts, d))
            && (!pcr && !dts && !pts ==> d == 3600)
  {
    hide Candidate, Raws;
    KindDurationLargest(s, Pcr, 8192);
    KindDurationLargest(s, Dts, 8192);
    KindDurationLargest(s, Pts, 8192);
    hide KindDuration;
  }

  predicate SomeOffer(s: seq<Stamp>, kind: Kind) {
    exists pid :: 0 <= pid < 8192 && Candidate(Raws(s, pid, kind)) > 0
  }

  // ---------- facts about the measures

  lemma {:induction false} MeasuresExact(t: seq<int>)
    requires t != []
    ensures IsMinimum(t, MinOf(t)) && IsMaximum(t, MaxOf(t)) && IsSmallestStep(t, SmallestStep(t))
  {
    if |t| == 1 {
      OneMeasured(t);
    } else {
      hide IsMinimum, IsMaximum, IsSmallestStep;
      var s := t[..|t| - 1];
      MeasuresExact(s);
      ExtendSeries(s, t[|t| - 1], MinOf(s), MaxOf(s), SmallestStep(s));
      assert s + [t[|t| - 1]] == t;
    }
  }

  lemma OneMeasured(t: seq<int>)
    requires |t| == 1
    ensures IsMinimum(t, MinOf(t)) && IsMaximum(t, MaxOf(t)) && IsSmallestStep(t, SmallestStep(t))
  {
  }

  lemma SmallestStepUnique(t: seq<int>, a: int, b: int)
    requires IsSmallestStep(t, a) && IsSmallestStep(t, b)
    ensures a == b
  {
  }

  lemma {:induction false} KindDurationLargest(s: seq<Stamp>, kind: Kind, n: nat)
    ensures KindDuration(s, kind, n) >= 0
    ensures forall pid :: 0 <= pid < n ==> Candidate(Raws(s, pid, kind)) <= KindDuration(s, kind, n)
    ensures KindDuration(s, kind, n) > 0 ==>
              exists pid :: 0 <= pid < n && Candidate(Raws(s, pid, kind)) == KindDuration(s, kind, n)
  {
    if n > 0 {
      KindDurationLargest(s, kind, n - 1);
    }
  }

  // ---------- the duration does not see a shift

  lemma DeltaShift(a: int, b: int, d: int)
    ensures Delta(ClockAdd(a, d), ClockAdd(b, d)) == Delta(a, b)
  {
    var x, y := a + d, b + d;
    assert ((y % CLOCK) - (x % CLOCK)) % CLOCK == (y - x) % CLOCK;
  }

  function ShiftRaws(raws: seq<int>, d: int): (r: seq<int>)
    ensures |r| == |raws| && forall i :: 0 <= i < |r| ==> r[i] == ClockAdd(raws[i], d)
  {
    seq(|raws|, i requires 0 <= i < |raws| => ClockAdd(raws[i], d))
  }

  lemma {:induction false} RawsShift(s: seq<Stamp>, pid: nat, kind: Kind, d: int)
    ensures Raws(ShiftStamps(s, d), pid, kind) == ShiftRaws(Raws(s, pid, kind), d)
  {
    if s != [] {
      RawsShift(s[..|s| - 1], pid, kind, d);
      assert ShiftStamps(s, d)[..|s| - 1] == ShiftStamps(s[..|s| - 1], d);
    }
  }

  lemma {:induction false} UnwrappedShift(raws: seq<int>, d: int)
    requires raws != []
    ensures forall i :: 0 <= i < |raws| ==>
              Unwrapped(ShiftRaws(raws, d))[i] == Unwrapped(raws)[i] + ClockAdd(raws[0], d) - raws[0]
  {
    if |raws| > 1 {
      var init := raws[..|raws| - 1];
      UnwrappedShift(init, d);
      assert ShiftRaws(raws, d)[..|raws| - 1] == ShiftRaws(init, d);
      DeltaShift(raws[|raws| - 2], raws[|raws| - 1], d);
    }
  }

  lemma {:induction false} MeasuresShift(t: seq<int>, u: seq<int>, c: int)
    requires |t| == |u| > 0 && forall i :: 0 <= i < |t| ==> u[i] == t[i] + c
    ensures MinOf(u) == MinOf(t) + c && MaxOf(u) == MaxOf(t) + c && SmallestStep(u) == SmallestStep(t)
  {
    if |t| > 1 {
      MeasuresShift(t[..|t| - 1], u[..|u| - 1], c);
    }
  }

  lemma CandidateShift(raws: seq<int>, d: int)
    ensures Candidate(ShiftRaws(raws, d)) == Candidate(raws)
  {
    if raws != [] {
      UnwrappedShift(raws, d);
      MeasuresShift(Unwrapped(raws), Unwrapped(ShiftRaws(raws, d)), ClockAdd(raws[0], d) - raws[0]);
    }
  }

  lemma {:induction false} KindDurationShift(s: seq<Stamp>, kind: Kind, n: nat, d: int)
    ensures KindDuration(ShiftStamps(s, d), kind, n) == KindDuration(s, kind, n)
  {
    hide Candidate, Raws, ShiftRaws, ShiftStamps;
    if n > 0 {
      KindDurationShift(s, kind, n - 1, d);
      RawsShift(s, n - 1, kind, d);
      CandidateShift(Raws(s, n - 1, kind), d);
    }
  }

  /** Rewriting a payload by any offset leaves its cycle duration alone. */
  lemma DurationInvariant(payload: seq<byte>, d: int)
    ensures Duration(StreamStamps(Retimed(payload, d))) == Duration(StreamStamps(payload))
  {
    var s := StreamStamps(payload);
    RetimedStamps(payload, d);
    KindDurationShift(s, Pcr, 8192, d);
    KindDurationShift(s, Dts, 8192, d);
    KindDurationShift(s, Pts, 8192, d);
  }

  // ---------- measuring

  datatype TrackKey = TrackKey(pid: nat, kind: Kind)

  /** Every track in the table follows its own share of the timestamps seen. */
  ghost predicate Tracking(tracks: map<TrackKey, Track>, seen: seq<Stamp>)
    reads tracks.Values
  {
    && (forall k :: k in tracks ==> tracks[k].Follows(Raws(seen, k.pid, k.kind)))
    && (forall k :: k in tracks <==> Raws(seen, k.pid, k.kind) != [])
    && (forall k, j :: k in tracks && j in tracks && k != j ==> tracks[k] != tracks[j])
  }

  lemma RawsSnoc(seen: seq<Stamp>, stamp: Stamp)
    ensures forall pid, kind :: Raws(seen + [stamp], pid, kind) ==
              if stamp.pid == pid && stamp.kind == kind then Raws(seen, pid, kind) + [stamp.raw]
                  else Raws(seen, pid, kind)
  {
    assert (seen + [stamp])[..|seen|] == seen;
  }

  method ObserveStamp(tracks: map<TrackKey, Track>, stamp: Stamp, ghost seen: seq<Stamp>)
      returns (r: map<TrackKey, Track>)
    requires Tracking(tracks, seen)
    modifies tracks.Values
    ensures Tracking(r, seen + [stamp])
    ensures forall k :: k in r ==> (k in tracks && r[k] == tracks[k]) || fresh(r[k])
  {
    hide Describes, Raws;
    var key := TrackKey(stamp.pid, stamp.kind);
    r := tracks;
    RawsSnoc(seen, stamp);
    if key !in tracks {
      var track := new Track();
      r := r[key := track];
    }
    r[key].Observe(stamp.raw, Raws(seen, key.pid, key.kind));
  }

  /** The duration of one kind, whatever order the table is walked in. */
  method DurationForKind(tracks: map<TrackKey, Track>, kind: Kind, ghost seen: seq<Stamp>) returns (duration: int)
    requires Tracking(tracks, seen)
    requires forall k :: k in tracks ==> k.pid < 8192
    ensures duration == KindDuration(seen, kind, 8192)
  {
    hide Describes, Raws, Candidate, KindDuration;
    duration := 0;
    var todo := tracks.Keys;
    while todo != {}
      invariant todo <= tracks.Keys && duration >= 0
      invariant forall k :: k in tracks && k !in todo && k.kind == kind ==>
                  Candidate(Raws(seen, k.pid, k.kind)) <= duration
      invariant duration > 0 ==>
          exists k :: k in tracks && k.kind == kind && Candidate(Raws(seen, k.pid, kind)) == duration
    {
      var key :| key in todo;
      todo := todo - {key};
      var track := tracks[key];
      CandidateOfTrack(Raws(seen, key.pid, key.kind), track);
      if key.kind == kind && track.observed >= 2 && track.minimumStep != 0 {
        var candidate := track.maximum - track.minimum + track.minimumStep;
        if candidate > duration {
          duration := candidate;
        }
      }
    }
    KindDurationLargest(seen, kind, 8192);
    forall pid | 0 <= pid < 8192
      ensures Candidate(Raws(seen, pid, kind)) <= duration
    {
      NoCandidate();
      assert TrackKey(pid, kind) in tracks <==> Raws(seen, pid, kind) != [];
    }
  }

  lemma NoCandidate()
    ensures Candidate([]) == 0
  {
  }

  lemma CandidateOfTrack(raws: seq<int>, track: Track)
    requires track.Follows(raws) && raws != []
    ensures Candidate(raws) == if track.observed >= 2 && track.minimumStep != 0
                               then track.maximum - track.minimum + track.minimumStep else 0
  {
    MeasuresExact(Unwrapped(raws));
    SmallestStepUnique(Unwrapped(raws), SmallestStep(Unwrapped(raws)), track.minimumStep);
  }

  lemma {:induction false} StampPids(s: seq<byte>)
    ensures forall i :: 0 <= i < |StreamStamps(s)| ==> StreamStamps(s)[i].pid < 8192
  {
    if |s| >= 188 {
      StampPids(s[188..]);
      assert forall i :: 0 <= i < |PacketStamps(s[..188])| ==> PacketStamps(s[..188])[i].pid == Pid(s[..188]);
    }
  }

  lemma {:induction false} RawsHavePid(s: seq<Stamp>, pid: nat, kind: Kind)
    requires forall i :: 0 <= i < |s| ==> s[i].pid < 8192
    ensures Raws(s, pid, kind) != [] ==> pid < 8192
  {
    if s != [] {
      RawsHavePid(s[..|s| - 1], pid, kind);
    }
  }

  method ObservePacket(tracks: map<TrackKey, Track>, packet: Packet, ghost seen: seq<Stamp>)
      returns (r: map<TrackKey, Track>)
    requires Tracking(tracks, seen)
    modifies tracks.Values
    ensures Tracking(r, seen + PacketStamps(packet))
    ensures forall k :: k in r ==> (k in tracks && r[k] == tracks[k]) || fresh(r[k])
  {
    hide PacketStamps, Tracking;
    r := tracks;
    var stamps := PacketStamps(packet);
    assert seen + stamps[..0] == seen;
    for i := 0 to |stamps|
      invariant Tracking(r, seen + stamps[..i])
      invariant forall k :: k in r ==> (k in tracks && r[k] == tracks[k]) || fresh(r[k])
    {
      r := ObserveStamp(r, stamps[i], seen + stamps[..i]);
      assert seen + stamps[..i] + [stamps[i]] == seen + stamps[..i + 1];
    }
    assert stamps[..|stamps|] == stamps;
  }

  method ObserveAll(payload: array<byte>) returns (tracks: map<TrackKey, Track>)
    ensures Tracking(tracks, StreamStamps(payload[..]))
  {
    hide PacketStamps, Tracking;
    ghost var s := payload[..];
    tracks := map[];
    ghost var seen: seq<Stamp> := [];
    NothingTracked();
    var o := 0;
    while o + 188 <= payload.Length
      invariant 0 <= o <= payload.Length
      invariant Tracking(tracks, seen)
      invariant forall k :: k in tracks ==> fresh(tracks[k])
      invariant seen + StreamStamps(s[o..]) == StreamStamps(s)
    {
      var packet: Packet := payload[o..o + 188];
      assert s[o..][..188] == packet && s[o..][188..] == s[o + 188..];
      tracks := ObservePacket(tracks, packet, seen);
      seen := seen + PacketStamps(packet);
      o := o + 188;
    }
    assert seen == StreamStamps(s);
  }

  lemma NothingTracked()
    ensures Tracking(map[], [])
  {
  }

  /** One visit of the payload, then the first kind that has a duration. */
  method MeasureCycle(payload: array<byte>) returns (duration: int)
    ensures duration == Duration(StreamStamps(payload[..]))
  {
    hide PacketStamps, KindDuration, StreamStamps;
    var tracks := ObserveAll(payload);
    ghost var seen := StreamStamps(payload[..]);
    StampPids(payload[..]);
    forall k | k in tracks
      ensures k.pid < 8192
    {
      RawsHavePid(seen, k.pid, k.kind);
    }
    hide Tracking;
    duration := DurationForKind(tracks, Pcr, seen);
    if duration > 0 {
      return;
    }
    duration := DurationForKind(tracks, Dts, seen);
    if duration > 0 {
      return;
    }
    duration := DurationForKind(tracks, Pts, seen);
    if duration <= 0 {
      duration := DEFAULT_STEP;
    }
  }
}
