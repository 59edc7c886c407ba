/** The payload a stream plays under the scenario in force, cached under a key;
    with a fixed EPG clock and a source whose answers do not change, though it
    may fail to answer. */
module PayloadCache {
  import opened Bytes
  import opened Text
  import opened Catalog
  import opened Scenarios
  import opened Timestamps
  import Tracks
  import opened CycleDuration
  import opened LoopEngine
  import opened LoopRuns
  import opened LoopClock
  import opened PcrTimeline
  import Mutators

  /** What the source gives for a service, with and without its EIT. */
  datatype Source = Source(plain: seq<byte>, suppressed: seq<byte>)

  datatype StreamPayload = StreamPayload(key: string, data: seq<byte>, preserve: bool)

  predicate Preserves(s: Scenario, service: Service, mux: Mux) {
    s.name == ContinuityErrors && AppliesTo(s, service, mux)
  }

  /** `playPayloadForScenario`, when the source answers. */
  function PayloadFor(src: Source, s: Scenario, service: Service, mux: Mux): seq<byte> {
    var applies := AppliesTo(s, service, mux);
    var payload := if s.name == EpgGap && applies then src.suppressed else src.plain;
    if !applies then payload
    else if s.name == Name.MalformedPsi then Mutators.MalformedPsi(payload)
    else if s.name == ContinuityErrors then Mutators.CounterErrors(payload, map[])
    else payload
  }

  function KeyTail(s: Scenario): string {
    "|" + s.serviceID + "|" + s.muxID + "|" + Decimal(s.durationMin)
  }

  /** `streamPayloadKey`. */
  function KeyOf(s: Scenario, service: Service, mux: Mux): string {
    if !AppliesTo(s, service, mux) then "normal"
    else
      match s.name
      case MalformedPsi => "malformed_psi" + KeyTail(s)
      case ContinuityErrors => "cc_errors" + KeyTail(s)
      case EpgGap => "epg_gap" + KeyTail(s)
      case _ => "normal"
  }

  /** Key, payload and mode that belong together. */
  function Whole(src: Source, s: Scenario, service: Service, mux: Mux): StreamPayload {
    StreamPayload(KeyOf(s, service, mux), PayloadFor(src, s, service, mux), Preserves(s, service, mux))
  }

  /** What a scenario must play: broken tables, broken counters, kept as they
      are, the payload without its EIT, or the source's payload as it is. */
  ghost predicate Suits(src: Source, s: Scenario, service: Service, mux: Mux, p: StreamPayload) {
    var hit := (s.serviceID == "" || s.serviceID == service.id) && (s.muxID == "" || s.muxID == mux.id);
    && (hit && s.name == Name.MalformedPsi ==> Mutators.TablesBroken(src.plain, p.data) && !p.preserve)
    && (hit && s.name == ContinuityErrors ==> Mutators.CountersOff(src.plain, p.data) && p.preserve)
    && (hit && s.name == EpgGap ==> p.data == src.suppressed && !p.preserve)
    && (!hit || (s.name != Name.MalformedPsi && s.name != ContinuityErrors && s.name != EpgGap) ==>
          p == StreamPayload("normal", src.plain, false))
  }

  lemma WholeSuits(src: Source, s: Scenario, service: Service, mux: Mux)
    ensures Suits(src, s, service, mux, Whole(src, s, service, mux))
  {
    hide Mutators.MalformedPsi, Mutators.CounterErrors, Mutators.TablesBroken, Mutators.CountersOff, KeyTail;
    Mutators.MalformedBroken(src.plain);
    Mutators.CountersAllOff(src.plain);
  }

  /** Scenarios with the same key play the same payload in the same mode, even
      when ids that contain the separator make different targets share a key. */
  lemma KeyDetermines(src: Source, a: Scenario, b: Scenario, service: Service, mux: Mux)
    requires KeyOf(a, service, mux) == KeyOf(b, service, mux)
    ensures Whole(src, a, service, mux) == Whole(src, b, service, mux)
  {
    hide Mutators.MalformedPsi, Mutators.CounterErrors, KeyTail;
    FirstLetter(a, service, mux);
    FirstLetter(b, service, mux);
    hide KeyOf;
  }

  function Letter(s: Scenario, service: Service, mux: Mux): char {
    if !AppliesTo(s, service, mux) then 'n'
    else if s.name == MalformedPsi then 'm'
    else if s.name == ContinuityErrors then 'c'
    else if s.name == EpgGap then 'e'
    else 'n'
  }

  lemma FirstLetter(s: Scenario, service: Service, mux: Mux)
    ensures KeyOf(s, service, mux) != "" && KeyOf(s, service, mux)[0] == Letter(s, service, mux)
  {
  }

  class PayloadProvider {
    const source: Source
    const service: Service
    const mux: Mux
    var cache: map<string, seq<byte>>
    var lastKey: string
    var lastPreserve: bool
    ghost var last: Scenario // the last scenario whose payload was at hand

    /** Everything cached is what an uncached computation would give. */
    ghost predicate Valid()
      reads this
    {
      && (forall s: Scenario :: KeyOf(s, service, mux) in cache ==>
            cache[KeyOf(s, service, mux)] == PayloadFor(source, s, service, mux))
      && lastKey in cache && lastKey == KeyOf(last, service, mux) && lastPreserve == Preserves(last, service, mux)
    }

    /** A provider exists only once a first payload has been loaded. */
    constructor (source: Source, service: Service, mux: Mux, first: Scenario)
      ensures Valid() && last == first && cache.Keys == {KeyOf(first, service, mux)}
      ensures this.source == source && this.service == service && this.mux == mux
    {
      hide KeyOf, PayloadFor;
      this.source, this.service, this.mux := source, service, mux;
      var key := KeyOf(first, service, mux);
      cache := map[key := PayloadFor(source, first, service, mux)];
      lastKey, lastPreserve := key, Preserves(first, service, mux);
      last := first;
      new;
      SameKeys(source, first, service, mux);
    }

    method Load(scenario: Scenario, loads: bool) returns (payload: Option<seq<byte>>)
      requires Valid()
      modifies this
      ensures Valid()
      ensures payload.Some? <==> loads || KeyOf(scenario, service, mux) in old(cache)
      ensures payload.Some? ==> last == scenario && payload.value == PayloadFor(source, scenario, service, mux)
                                && cache.Keys == old(cache).Keys + {KeyOf(scenario, service, mux)}
                                && lastKey == KeyOf(scenario, service, mux)
                                && Suits(source, scenario, service, mux,
                                         StreamPayload(lastKey, payload.value, lastPreserve))
      ensures payload == None ==> last == old(last) && cache == old(cache)
    {
      hide KeyOf, PayloadFor, Suits;
      WholeSuits(source, scenario, service, mux);
      var key := KeyOf(scenario, service, mux);
      if key !in cache {
        if !loads {
          return None;
        }
        cache := cache[key := PayloadFor(source, scenario, service, mux)];
        SameKeys(source, scenario, service, mux);
      }
      lastKey, lastPreserve := key, Preserves(scenario, service, mux);
      last := scenario;
      return Some(cache[key]);
    }

    /** The provider's answer: the uncached one, or, while the source fails, the
        whole of the last one that was at hand, never a mixture. */
    method Next(scenario: Scenario, loads: bool) returns (p: StreamPayload)
      requires Valid()
      modifies this
      ensures Valid()
      ensures last == if loads || KeyOf(scenario, service, mux) in old(cache) then scenario else old(last)
      ensures cache.Keys == if last == scenario then old(cache).Keys + {KeyOf(scenario, service, mux)}
          else old(cache).Keys
      ensures p == Whole(source, last, service, mux) && Suits(source, last, service, mux, p)
    {
      hide KeyOf, PayloadFor, Preserves, Suits;
      WholeSuits(source, scenario, service, mux);
      WholeSuits(source, last, service, mux);
      var payload := Load(scenario, loads);
      if payload.Some? {
        return StreamPayload(KeyOf(scenario, service, mux), payload.value, Preserves(scenario, service, mux));
      }
      return StreamPayload(lastKey, cache[lastKey], lastPreserve);
    }
  }

  lemma SameKeys(src: Source, s: Scenario, service: Service, mux: Mux)
    ensures forall r: Scenario :: KeyOf(r, service, mux) == KeyOf(s, service, mux) ==>
              PayloadFor(src, r, service, mux) == PayloadFor(src, s, service, mux)
  {
    hide KeyOf, PayloadFor, Preserves;
    forall r: Scenario | KeyOf(r, service, mux) == KeyOf(s, service, mux)
      ensures PayloadFor(src, r, service, mux) == PayloadFor(src, s, service, mux)
    {
      KeyDetermines(src, r, s, service, mux);
    }
  }

  // ---------- the loop may trust the key

  function CallFor(p: StreamPayload): Call {
    Call(p.key, p.data, p.preserve)
  }

  /** The calls a stream makes when scenario `ss[i]` is the one at hand at its
      `i`-th draw. */
  function CallsFor(src: Source, service: Service, mux: Mux, ss: seq<Scenario>): seq<Call> {
    seq(|ss|, i requires 0 <= i < |ss| => CallFor(Whole(src, ss[i], service, mux)))
  }

  predicate KeysTrue(calls: seq<Call>) {
    forall i, j :: 0 <= i < |calls| && 0 <= j < |calls| && calls[i].key == calls[j].key ==>
        calls[i].payload == calls[j].payload
  }

  /** After any history of scenarios the loop replays the payload that belongs to
      the current one, although it looks at its payload argument only when the
      key changes. */
  lemma LoopPlaysCurrent(src: Source, service: Service, mux: Mux, ss: seq<Scenario>)
    requires ss != [] && PayloadFor(src, ss[|ss| - 1], service, mux) != []
    ensures var l := After(CallsFor(src, service, mux, ss));
            && l.key == KeyOf(ss[|ss| - 1], service, mux) && l.payload == PayloadFor(src, ss[|ss| - 1], service, mux)
            && Suits(src, ss[|ss| - 1], service, mux,
                     StreamPayload(l.key, l.payload, CallsFor(src, service, mux, ss)[|ss| - 1].preserve))
  {
    hide KeyOf, PayloadFor, Preserves, After, Suits;
    WholeSuits(src, ss[|ss| - 1], service, mux);
    var calls := CallsFor(src, service, mux, ss);
    forall i, j | 0 <= i < |calls| && 0 <= j < |calls| && calls[i].key == calls[j].key
      ensures calls[i].payload == calls[j].payload
    {
      KeyDetermines(src, ss[i], ss[j], service, mux);
    }
    LastPlayed(calls);
  }

  predicate PlaysOne(l: State, calls: seq<Call>) {
    l.ready ==> exists i :: 0 <= i < |calls| && calls[i].key == l.key && calls[i].payload == l.payload
  }

  lemma {:induction false} PlaysSome(calls: seq<Call>)
    requires KeysTrue(calls)
    ensures PlaysOne(After(calls), calls)
    ensures calls != [] && calls[|calls| - 1].payload != [] ==>
              After(calls).key == calls[|calls| - 1].key && After(calls).payload == calls[|calls| - 1].payload
  {
    hide NextCall, Inv;
    if calls != [] {
      var init, c := calls[..|calls| - 1], calls[|calls| - 1];
      PlaysSome(init);
      var l := After(init);
      ReachableInv(init);
      OnePlayed(l, c);
      if l.ready {
        var i :| 0 <= i < |init| && init[i].key == l.key && init[i].payload == l.payload;
        assert calls[i] == init[i];
      }
      assert calls[|calls| - 1] == c;
    }
  }

  lemma LastPlayed(calls: seq<Call>)
    requires KeysTrue(calls) && calls != [] && calls[|calls| - 1].payload != []
    ensures After(calls).key == calls[|calls| - 1].key && After(calls).payload == calls[|calls| - 1].payload
  {
    PlaysSome(calls);
  }

  /** One call either keeps the payload at hand, its key being unchanged, or
      takes the one it is given. */
  lemma OnePlayed(l: State, c: Call)
    requires Inv(l)
    ensures var n := NextCall(l, c.key, c.payload, c.preserve).0;
            if c.payload == [] then n == l
            else n.ready && n.key == c.key && n.payload == if l.ready && l.key == c.key then l.payload else c.payload
  {
    if c.payload != [] {
      NextSpec(l, c.key, c.payload, c.preserve);
      hide Inv, Emit;
      ReadyPayload(l, c);
    }
  }

  lemma ReadyPayload(l: State, c: Call)
    ensures Ready(l, c.key, c.payload).payload == if l.ready && l.key == c.key then l.payload else c.payload
  {
  }

  // ---------- and its clock

  /** The scenario plays the source's payload, perhaps with counter errors. */
  predicate PlaysPlain(s: Scenario, service: Service, mux: Mux) {
    AppliesTo(s, service, mux) ==> s.name != Name.MalformedPsi && s.name != EpgGap
  }

  lemma {:induction false} SameClockSelf(s: seq<byte>)
    ensures SameClock(s, s)
  {
    if |s| >= 188 {
      SameClockSelf(s[188..]);
    }
  }

  lemma PlainKeepsClock(src: Source, service: Service, mux: Mux, ss: seq<Scenario>)
    requires forall i :: 0 <= i < |ss| ==> PlaysPlain(ss[i], service, mux)
    ensures KeepsClock(CallsFor(src, service, mux, ss), src.plain)
  {
    hide SameClock, KeyOf, Mutators.CounterErrors, Mutators.MalformedPsi;
    SameClockSelf(src.plain);
    Mutators.CounterErrorsKeepClock(src.plain, map[]);
  }

  /** However often counter errors are switched on and off, a receiver sees the
      payload's clock rise, through every pass boundary and every wrap. */
  lemma ErrorsKeepClockRising(src: Source, service: Service, mux: Mux, ss: seq<Scenario>, pid: nat)
    requires forall i :: 0 <= i < |ss| ==> PlaysPlain(ss[i], service, mux)
    requires src.plain != [] && pid < 8192 && OnlyClock(StreamStamps(src.plain), pid)
    requires |PassTimes(src.plain, pid)| >= 2 && Rising(PassTimes(src.plain, pid))
    ensures var (r, t) := (ReceivedTimes(CallsFor(src, service, mux, ss), pid), PassTimes(src.plain, pid));
            && Rising(r)
            && forall i :: 0 < i < |r| ==>
                Tracks.Step(r, i) == if i % |t| == 0 then SmallestStep(t) else Tracks.Step(t, i % |t|)
  {
    hide StreamStamps, Rising, SmallestStep, OnlyClock, KeepsClock, PassTimes, ReceivedTimes, PlaysPlain, CallsFor;
    PlainKeepsClock(src, service, mux, ss);
    OneClockLoops(CallsFor(src, service, mux, ss), src.plain, pid);
  }
}
