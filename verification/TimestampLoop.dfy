/** The loop that replays a finite payload for ever in chunks of seven packets:
    the object itself, and what one call of it does. */
module LoopEngine {
  import opened Bytes
  import opened Transport
  import opened Timestamps
  import opened Continuity
  import CycleDuration

  const CHUNK_SIZE: nat := 1316

  /** Where the chunk at `offset` lies and where the next one starts; 0 closes
      the pass. */
  datatype Span = Span(lo: nat, hi: nat, next: nat)

  function ChunkAt(length: nat, offset: int): (r: Span)
    ensures r.lo <= r.hi <= length
    ensures length > 0 ==> r.lo < length && r.hi - r.lo == if length - r.lo < 7 * 188 then length - r.lo else 7 * 188
    ensures 0 <= offset < length ==> r.lo == offset && r.next == if r.hi == length then 0 else r.hi
  {
    if length == 0 then Span(0, 0, 0)
    else
      var lo := if offset < 0 || offset >= length then 0 else offset;
      if lo + CHUNK_SIZE >= length then Span(lo, length, 0) else Span(lo, lo + CHUNK_SIZE, lo + CHUNK_SIZE)
  }

  /** The loop's state as a value. `ready` is false until the first payload has
      been rendered. */
  datatype State = State(
    ready: bool, key: string, payload: seq<byte>, rendered: seq<byte>, offset: int, nextLoop: bool,
    shift: int, cycle: int, counters: Counters)

  const FRESH: State := State(false, "", [], [], 0, false, 0, 0, map[])

  function Load(l: State, key: string, payload: seq<byte>): State {
    if l.ready && key == l.key then l
    else
      State(true, key, payload, Retimed(payload, l.shift),
            if l.offset < 0 || l.offset >= |payload| then 0 else l.offset, l.nextLoop,
            l.shift, CycleDuration.Duration(StreamStamps(payload)), l.counters)
  }

  function Advance(l: State): State {
    if !l.nextLoop then l
    else
      var shift := ClockAdd(l.shift, l.cycle);
      l.(shift := shift, rendered := Retimed(l.payload, shift), offset := 0, nextLoop := false)
  }

  function Emit(l: State, preserve: bool): (State, seq<byte>) {
    var span := ChunkAt(|l.rendered|, l.offset);
    var (chunk, counters) := Renumber(l.rendered[span.lo..span.hi], l.counters, preserve);
    (l.(rendered := Splice(l.rendered, span.lo, chunk), counters := counters, offset := span.next,
        nextLoop := span.next == 0),
     chunk)
  }

  /** One call: the state after it and the chunk it returns. */
  function NextCall(l: State, key: string, payload: seq<byte>, preserve: bool): (State, seq<byte>) {
    if payload == [] then (l, []) else Emit(Advance(Load(l, key, payload)), preserve)
  }

  /** What every reachable state satisfies: the position is a multiple of the
      chunk size, and what has not been sent yet is the untouched, shifted
      payload. */
  ghost predicate Inv(l: State) {
    && 0 <= l.shift < CLOCK
    && (!l.ready ==> l == FRESH)
    && (l.ready ==>
          && |l.rendered| == |l.payload| > 0
          && 0 <= l.offset < |l.payload|
          && l.offset % CHUNK_SIZE == 0
          && l.cycle == CycleDuration.Duration(StreamStamps(l.payload))
          && (l.nextLoop ==> l.offset == 0)
          && (!l.nextLoop ==> l.rendered[l.offset..] == Retimed(l.payload, l.shift)[l.offset..]))
  }

  /** The state in which the chunk is cut. */
  function Ready(l: State, key: string, payload: seq<byte>): State {
    Advance(Load(l, key, payload))
  }

  /** The bytes a call is going to renumber and send. */
  function Pending(l: State, key: string, payload: seq<byte>): seq<byte> {
    var r := Ready(l, key, payload);
    var span := ChunkAt(|r.payload|, r.offset);
    Retimed(r.payload, r.shift)[span.lo..span.hi]
  }

  lemma ReadyInv(l: State, key: string, payload: seq<byte>)
    requires Inv(l) && payload != []
    ensures var r := Ready(l, key, payload); Inv(r) && r.ready && !r.nextLoop && r.counters == l.counters
  {
    hide Retimed, StreamStamps, CycleDuration.Duration;
  }

  lemma EmitChunk(r: State, preserve: bool)
    requires Inv(r) && r.ready && !r.nextLoop
    ensures var (n, chunk) := Emit(r, preserve);
            var span := ChunkAt(|r.payload|, r.offset);
            (chunk, n.counters) == Renumber(Retimed(r.payload, r.shift)[span.lo..span.hi], r.counters, preserve)
  {
    var span := ChunkAt(|r.payload|, r.offset);
    hide Retimed, StreamStamps, CycleDuration.Duration, Renumber;
    SliceOfTail(r.rendered, Retimed(r.payload, r.shift), r.offset, span.hi);
  }

  lemma EmitInv(r: State, preserve: bool)
    requires Inv(r) && r.ready && !r.nextLoop
    ensures Inv(Emit(r, preserve).0)
  {
    hide Retimed, StreamStamps, CycleDuration.Duration, Renumber;
    var n := Emit(r, preserve).0;
    assert |n.rendered| == |r.rendered|;
    if !n.nextLoop {
      assert (r.offset + CHUNK_SIZE) % CHUNK_SIZE == 0;
      TailOfTail(n.rendered, r.rendered, Retimed(r.payload, r.shift), r.offset, n.offset);
    }
  }

  lemma SliceOfTail(s: seq<byte>, t: seq<byte>, lo: nat, hi: nat)
    requires lo <= hi <= |s| == |t| && s[lo..] == t[lo..]
    ensures s[lo..hi] == t[lo..hi]
  {
    assert s[lo..hi] == s[lo..][..hi - lo];
  }

  lemma TailOfTail(n: seq<byte>, s: seq<byte>, t: seq<byte>, lo: nat, hi: nat)
    requires lo <= hi <= |n| == |s| == |t| && s[lo..] == t[lo..]
    requires forall i :: hi <= i < |s| ==> n[i] == s[i]
    ensures n[hi..] == t[hi..]
  {
    assert s[hi..] == s[lo..][hi - lo..];
    assert n[hi..] == s[hi..];
  }

  /** A call keeps the invariant; its chunk is the pending stretch of the
      shifted payload, renumbered from the carried table. */
  lemma NextSpec(l: State, key: string, payload: seq<byte>, preserve: bool)
    requires Inv(l) && payload != []
    ensures var (n, chunk) := NextCall(l, key, payload, preserve);
            && Inv(n) && n.ready
            && (chunk, n.counters) == Renumber(Pending(l, key, payload), l.counters, preserve)
    ensures var r := Ready(l, key, payload);
            var n := NextCall(l, key, payload, preserve).0;
            && n.payload == r.payload && n.shift == r.shift && n.key == key && n.cycle == r.cycle
            && n.nextLoop == (r.offset + CHUNK_SIZE >= |r.payload|)
            && n.offset == if n.nextLoop then 0 else r.offset + CHUNK_SIZE
  {
    ReadyInv(l, key, payload);
    EmitChunk(Ready(l, key, payload), preserve);
    EmitInv(Ready(l, key, payload), preserve);
    hide Inv, Retimed, StreamStamps, CycleDuration.Duration, Renumber;
  }

  // ---------- the object

  /** A stretch of a buffer, or Go's nil slice. */
  datatype Slice = Nil | Slice(buf: array<byte>, lo: nat, hi: nat)

  class TimestampLoop {
    var key: string
    var payload: array?<byte>
    var rendered: array?<byte>
    var offset: int
    var nextLoop: bool
    var timestampOffset: int
    var cycleDuration: int
    var continuity: Counters

    ghost predicate Valid()
      reads this
    {
      (rendered != null ==> payload != null && rendered != payload) && 0 <= timestampOffset < CLOCK
    }

    ghost function View(): State
      reads this, payload, rendered
    {
      State(rendered != null, key, if payload == null then [] else payload[..],
            if rendered == null then [] else rendered[..], offset, nextLoop, timestampOffset, cycleDuration, continuity)
    }

    constructor ()
      ensures Valid() && View() == FRESH
    {
      key := "";
      payload, rendered := null, null;
      offset, nextLoop, timestampOffset, cycleDuration := 0, false, 0, 0;
      continuity := map[];
    }

    method LoadPayload(key: string, payload: array<byte>)
      requires Valid()
      modifies this
      ensures Valid() && rendered != null && (rendered == old(rendered) || fresh(rendered))
      ensures View() == Load(old(View()), key, payload[..])
    {
      if rendered == null || key != this.key {
        this.key := key;
        this.payload := payload;
        cycleDuration := CycleDuration.MeasureCycle(payload);
        rendered := RewriteTimestamps(payload, timestampOffset);
        if offset < 0 || offset >= rendered.Length {
          offset := 0;
        }
      }
    }

    method StartNextPass()
      requires Valid() && rendered != null
      modifies this
      ensures Valid() && rendered != null && (rendered == old(rendered) || fresh(rendered))
      ensures View() == Advance(old(View()))
    {
      if nextLoop {
        timestampOffset := ClockAdd(timestampOffset, cycleDuration);
        rendered := RewriteTimestamps(payload, timestampOffset);
        offset := 0;
        nextLoop := false;
      }
    }

    method CutChunk(preserve: bool) returns (chunk: Slice)
      requires Valid() && rendered != null
      modifies this`offset, this`nextLoop, this`continuity, rendered
      ensures Valid()
      ensures View() == Emit(old(View()), preserve).0
      ensures chunk.Slice? && chunk.lo <= chunk.hi <= chunk.buf.Length && chunk.buf == rendered
      ensures chunk.buf[chunk.lo..chunk.hi] == Emit(old(View()), preserve).1
    {
      hide Renumber;
      var span := ChunkAt(rendered.Length, offset);
      ghost var before := rendered[..];
      assert rendered[span.lo..span.hi] == before[span.lo..span.hi];
      continuity := RewriteContinuityCounters(rendered, span.lo, span.hi, continuity, preserve);
      assert rendered[span.lo..span.hi] == rendered[..][span.lo..span.hi];
      offset := span.next;
      nextLoop := span.next == 0;
      chunk := Slice(rendered, span.lo, span.hi);
    }

    /** Loads a payload under a new key, starts the next pass when the last one
        ended, and cuts, renumbers and returns one chunk. The chunk shares its
        bytes with `rendered`; the caller's payload is never written. */
    method Next(key: string, payload: array<byte>, preserve: bool) returns (chunk: Slice)
      requires Valid()
      modifies this, rendered
      ensures Valid()
      ensures payload != old(rendered) ==> payload[..] == old(payload[..])
      ensures View() == NextCall(old(View()), key, old(payload[..]), preserve).0
      ensures payload.Length == 0 <==> chunk == Nil
      ensures chunk.Slice? ==>
                && chunk.lo <= chunk.hi <= chunk.buf.Length
                && chunk.buf == rendered
                && chunk.buf[chunk.lo..chunk.hi] == NextCall(old(View()), key, old(payload[..]), preserve).1
    {
      hide Load, Advance, Emit;
      if payload.Length == 0 {
        return Nil;
      }
      LoadPayload(key, payload);
      StartNextPass();
      chunk := CutChunk(preserve);
    }
  }
}
