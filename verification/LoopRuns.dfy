/** Whole runs of the loop: the counter law over every run, one pass as a single
    transformation, and a clock that never steps back. */
module LoopRuns {
  import opened Arithmetic
  import opened Bytes
  import opened Timestamps
  import opened Continuity
  import opened LoopEngine

  datatype Call = Call(key: string, payload: seq<byte>, preserve: bool)

  /** The state after a run of calls on a new loop. */
  function After(calls: seq<Call>): State {
    if calls == [] then FRESH
    else
      var c := calls[|calls| - 1];
      NextCall(After(calls[..|calls| - 1]), c.key, c.payload, c.preserve).0
  }

  /** The chunk returned by the last call of a run. */
  function LastChunk(calls: seq<Call>): seq<byte>
    requires calls != []
  {
    var c := calls[|calls| - 1];
    NextCall(After(calls[..|calls| - 1]), c.key, c.payload, c.preserve).1
  }

  lemma {:induction false} ReachableInv(calls: seq<Call>)
    ensures Inv(After(calls))
  {
    hide Inv, NextCall;
    if calls == [] {
      FreshInv();
    } else {
      var c := calls[|calls| - 1];
      ReachableInv(calls[..|calls| - 1]);
      StepInv(After(calls[..|calls| - 1]), c);
    }
  }

  lemma FreshInv()
    ensures Inv(FRESH)
  {
  }

  lemma StepInv(l: State, c: Call)
    requires Inv(l)
    ensures Inv(NextCall(l, c.key, c.payload, c.preserve).0)
  {
    hide Inv, Emit, Advance, Load;
    if c.payload != [] {
      NextSpec(l, c.key, c.payload, c.preserve);
    }
  }

  // ---------- the counter law

  /** Every packet sent in a run, before and after renumbering. */
  function RunLog(calls: seq<Call>): seq<Sent> {
    if calls == [] then []
    else
      var c := calls[|calls| - 1];
      RunLog(calls[..|calls| - 1]) + CallLog(After(calls[..|calls| - 1]), c)
  }

  function CallLog(l: State, c: Call): seq<Sent> {
    if c.payload == [] then []
    else
      var before, chunk := Pending(l, c.key, c.payload), NextCall(l, c.key, c.payload, c.preserve).1;
      if |before| == |chunk| then ChunkLog(before, chunk, c.preserve) else []
  }

  /** Over every run, with any payload switches and any mix of modes, each
      emitted packet continues the counter its pid carries, and the table is
      that carried counter plus one. */
  lemma {:induction false} CountersLawful(calls: seq<Call>)
    ensures Lawful(RunLog(calls)) && Describes(After(calls).counters, RunLog(calls))
  {
    hide Inv, NextCall, Lawful, Describes, Renumber, Pending;
    if calls == [] {
      EmptyLawful();
    } else {
      var init, c := calls[..|calls| - 1], calls[|calls| - 1];
      CountersLawful(init);
      ReachableInv(init);
      if c.payload == [] {
        NothingSent(After(init), c);
        assert RunLog(init) + [] == RunLog(init);
      } else {
        NextSpec(After(init), c.key, c.payload, c.preserve);
        RenumberLaw(Pending(After(init), c.key, c.payload), After(init).counters, c.preserve, RunLog(init));
      }
    }
  }

  lemma EmptyLawful()
    ensures Lawful([]) && Describes(FRESH.counters, [])
  {
  }

  lemma NothingSent(l: State, c: Call)
    requires c.payload == []
    ensures NextCall(l, c.key, c.payload, c.preserve) == (l, [])
  {
  }

  /** The log is faithful to what was sent: a call logs exactly the packets of
      the chunk it returns. */
  lemma CallLogFaithful(calls: seq<Call>)
    requires calls != [] && calls[|calls| - 1].payload != []
    ensures var c := calls[|calls| - 1];
            var l := After(calls[..|calls| - 1]);
            |Pending(l, c.key, c.payload)| == |LastChunk(calls)|
            && CallLog(l, c) == ChunkLog(Pending(l, c.key, c.payload), LastChunk(calls), c.preserve)
  {
    hide Inv, NextCall, Renumber, Pending;
    var c := calls[|calls| - 1];
    ReachableInv(calls[..|calls| - 1]);
    NextSpec(After(calls[..|calls| - 1]), c.key, c.payload, c.preserve);
  }

  // ---------- one pass

  /** `k` calls with the same arguments: the state and everything returned. */
  function Repeat(l: State, c: Call, k: nat): (State, seq<byte>) {
    if k == 0 then (l, [])
    else
      var (m, out) := Repeat(l, c, k - 1);
      var (n, chunk) := NextCall(m, c.key, c.payload, c.preserve);
      (n, out + chunk)
  }

  /** The loop is about to start a pass over the payload. */
  predicate AtBoundary(l: State) {
    !l.ready || l.nextLoop
  }

  /** `m` has sent the first `hi` bytes of the pass that `r` begins. */
  predicate Within(m: State, r: State, hi: nat) {
    && m.ready && m.key == r.key && m.payload == r.payload && m.shift == r.shift
    && m.nextLoop == (hi >= |r.payload|)
    && m.offset == if m.nextLoop then 0 else hi
  }

  function Upto(k: nat, n: nat): nat {
    if k * CHUNK_SIZE < n then k * CHUNK_SIZE else n
  }

  lemma FirstOfPass(l: State, c: Call)
    requires Inv(l) && AtBoundary(l) && c.payload != []
    ensures var r := Ready(l, c.key, c.payload);
            var (m, chunk) := NextCall(l, c.key, c.payload, c.preserve);
            && Inv(m) && Within(m, r, Upto(1, |r.payload|))
            && (chunk, m.counters)
                == Renumber(Retimed(r.payload, r.shift)[..Upto(1, |r.payload|)], l.counters, c.preserve)
  {
    NextSpec(l, c.key, c.payload, c.preserve);
    hide Inv, Renumber, NextCall, Retimed, StreamStamps;
    var r := Ready(l, c.key, c.payload);
    BoundaryOffset(l, c);
    assert Pending(l, c.key, c.payload) == Retimed(r.payload, r.shift)[..Upto(1, |r.payload|)];
  }

  lemma BoundaryOffset(l: State, c: Call)
    requires Inv(l) && AtBoundary(l) && c.payload != []
    ensures Ready(l, c.key, c.payload).offset == 0 && |Ready(l, c.key, c.payload).payload| > 0
    ensures Ready(l, c.key, c.payload).key == c.key
  {
    hide StreamStamps;
  }

  lemma NextOfPass(m: State, c: Call, r: State, k: nat)
    requires Inv(m) && c.key == r.key && c.payload != [] && k * CHUNK_SIZE < |r.payload| && Within(m, r, k * CHUNK_SIZE)
    ensures var (n, chunk) := NextCall(m, c.key, c.payload, c.preserve);
            var whole := Retimed(r.payload, r.shift);
            var lo, hi := k * CHUNK_SIZE, Upto(k + 1, |r.payload|);
            && Inv(n) && Within(n, r, hi) && lo <= hi <= |whole|
            && (chunk, n.counters) == Renumber(whole[lo..hi], m.counters, c.preserve)
  {
    NextSpec(m, c.key, c.payload, c.preserve);
    hide Inv, Renumber, NextCall, Retimed, StreamStamps;
    assert Ready(m, c.key, c.payload) == m;
    assert (k + 1) * CHUNK_SIZE == k * CHUNK_SIZE + CHUNK_SIZE;
  }

  lemma {:induction false} PartOfPass(l: State, c: Call, k: nat)
    requires Inv(l) && AtBoundary(l) && c.payload != []
    requires 1 <= k && (k - 1) * CHUNK_SIZE < |Ready(l, c.key, c.payload).payload|
    ensures var r := Ready(l, c.key, c.payload);
            var hi := Upto(k, |r.payload|);
            var (m, out) := Repeat(l, c, k);
            && Inv(m) && Within(m, r, hi)
            && (out, m.counters) == Renumber(Retimed(r.payload, r.shift)[..hi], l.counters, c.preserve)
    decreases k
  {
    hide Inv, Renumber, NextCall, Retimed, StreamStamps, Ready, AtBoundary;
    var r := Ready(l, c.key, c.payload);
    BoundaryOffset(l, c);
    FirstOfPass(l, c);
    if k == 1 {
      assert Repeat(l, c, 0) == (l, []);
      var chunk := NextCall(l, c.key, c.payload, c.preserve).1;
      assert [] + chunk == chunk;
    } else {
      PartOfPass(l, c, k - 1);
      var (m, out) := Repeat(l, c, k - 1);
      NextOfPass(m, c, r, k - 1);
      var whole := Retimed(r.payload, r.shift);
      var lo, hi := (k - 1) * CHUNK_SIZE, Upto(k, |r.payload|);
      ChunksAligned(k - 1);
      assert whole[..hi][..lo] == whole[..lo] && whole[..hi][lo..] == whole[lo..hi];
      RenumberSplit(whole[..hi], lo, l.counters, c.preserve);
    }
  }

  lemma ChunksAligned(k: nat)
    ensures k * CHUNK_SIZE % 188 == 0
  {
    MultipleOf(7 * k, 188);
  }

  /** The chunks of one pass, put together, are the whole shifted payload
      renumbered once from the carried table; the pass takes exactly the
      payload length over the chunk size, rounded up, calls. */
  lemma OnePass(l: State, c: Call, k: nat)
    requires Inv(l) && AtBoundary(l) && c.payload != []
    requires var n := |Ready(l, c.key, c.payload).payload|; (k - 1) * CHUNK_SIZE < n <= k * CHUNK_SIZE
    ensures var r := Ready(l, c.key, c.payload);
            var (m, out) := Repeat(l, c, k);
            (out, m.counters) == Renumber(Retimed(r.payload, r.shift), l.counters, c.preserve)
    ensures AtBoundary(Repeat(l, c, k).0) && forall j :: 1 <= j < k ==> !AtBoundary(Repeat(l, c, j).0)
  {
    hide Inv, Renumber, Retimed, StreamStamps, Ready, Repeat;
    var r := Ready(l, c.key, c.payload);
    BoundaryOffset(l, c);
    PartOfPass(l, c, k);
    var whole := Retimed(r.payload, r.shift);
    assert whole[..|whole|] == whole;
    forall j | 1 <= j < k
      ensures !AtBoundary(Repeat(l, c, j).0)
    {
      assert j * CHUNK_SIZE <= (k - 1) * CHUNK_SIZE && (j - 1) * CHUNK_SIZE <= (k - 1) * CHUNK_SIZE;
      PartOfPass(l, c, j);
    }
  }

  // ---------- one pass, whatever is passed

  /** Any calls in a row: the state and everything returned. */
  function RunFrom(l: State, calls: seq<Call>): (State, seq<byte>) {
    if calls == [] then (l, [])
    else
      var (m, out) := RunFrom(l, calls[..|calls| - 1]);
      var c := calls[|calls| - 1];
      var (n, chunk) := NextCall(m, c.key, c.payload, c.preserve);
      (n, out + chunk)
  }

  /** Calls under one key and in one mode, each with some payload. */
  predicate OneKey(calls: seq<Call>) {
    calls != []
    && forall i :: 0 <= i < |calls| ==>
         calls[i].key == calls[0].key && calls[i].preserve == calls[0].preserve && calls[i].payload != []
  }

  /** A loop that has the key looks at no payload. */
  lemma KeyTrusted(l: State, c: Call, d: Call)
    requires l.ready && l.key == c.key == d.key && c.preserve == d.preserve && c.payload != [] && d.payload != []
    ensures NextCall(l, c.key, c.payload, c.preserve) == NextCall(l, d.key, d.payload, d.preserve)
  {
    hide Advance, Emit;
  }

  lemma {:induction false} OneKeyRepeats(l: State, calls: seq<Call>)
    requires Inv(l) && OneKey(calls)
    ensures var (m, out) := RunFrom(l, calls);
            (m, out) == Repeat(l, calls[0], |calls|) && Inv(m) && m.ready && m.key == calls[0].key
    decreases |calls|
  {
    hide Inv, NextCall;
    var n := |calls| - 1;
    var init, c := calls[..n], calls[n];
    if n == 0 {
      assert init == [];
      NextSpec(l, c.key, c.payload, c.preserve);
    } else {
      OneKeyRepeats(l, init);
      var m := RunFrom(l, init).0;
      KeyTrusted(m, c, calls[0]);
      NextSpec(m, c.key, c.payload, c.preserve);
    }
  }

  /** The pass is the same whatever payloads the calls under one key bring. */
  lemma OnePassOfKey(l: State, calls: seq<Call>)
    requires Inv(l) && AtBoundary(l) && OneKey(calls)
    requires var (k, n) := (|calls|, |Ready(l, calls[0].key, calls[0].payload).payload|);
             (k - 1) * CHUNK_SIZE < n <= k * CHUNK_SIZE
    ensures var r := Ready(l, calls[0].key, calls[0].payload);
            var (m, out) := RunFrom(l, calls);
            AtBoundary(m) && (out, m.counters) == Renumber(Retimed(r.payload, r.shift), l.counters, calls[0].preserve)
  {
    hide Inv, Renumber, Retimed, Ready, Repeat, RunFrom, AtBoundary;
    OneKeyRepeats(l, calls);
    OnePass(l, calls[0], |calls|);
  }
}
