/** Channels, the catalog of muxes and services built from them, and tuning by
    query. */
module Catalog {
  import opened Bytes
  import opened Text

  datatype Channel = Channel(
    id: string, number: int, name: string, group: string, tvgID: string,
    frequency: int, polarization: string, symbolRate: int, delivery: string, src: int, pids: seq<int>)

  datatype Mux = Mux(id: string, src: int, frequency: int, polarization: string, symbolRate: int, delivery: string)

  datatype Service = Service(
    id: string, number: int, name: string, group: string, tvgID: string, muxID: string,
    serviceID: int, pmtPID: int, videoPID: int, audioPID: int)

  datatype Catalog = Catalog(muxes: seq<Mux>, services: seq<Service>)

  /** A parsed query: the first value of each key. */
  type Query = map<string, string>

  function Get(q: Query, key: string): string {
    if key in q then q[key] else ""
  }

  // ---------- the loader

  predicate Tunable(c: Channel) {
    && c.src > 0 && c.frequency > 0 && c.symbolRate > 0
    && (c.polarization == "h" || c.polarization == "v")
    && (c.delivery == "dvbs" || c.delivery == "dvbs2")
  }

  predicate ValidPids(pids: seq<int>) {
    && |pids| >= 5 && pids[0] == 0 && pids[1] == 17
    && forall i :: 0 <= i < |pids| ==> 0 <= pids[i] <= 8191
  }

  predicate ValidChannel(c: Channel) {
    && c.id != "" && c.number > 0 && c.name != "" && c.group != "" && c.tvgID != ""
    && Tunable(c) && ValidPids(c.pids)
  }

  predicate Apart(a: Channel, b: Channel) {
    a.id != b.id && a.number != b.number && a.tvgID != b.tvgID
  }

  /** What the loader promises about a list it accepts. */
  predicate Accepted(list: seq<Channel>) {
    && list != []
    && (forall i :: 0 <= i < |list| ==> ValidChannel(list[i]))
    && (forall i, j :: 0 <= i < j < |list| ==> Apart(list[i], list[j]))
  }

  function Normalized(c: Channel): Channel {
    c.(id := TrimSpace(c.id), name := TrimSpace(c.name), group := TrimSpace(c.group), tvgID := TrimSpace(c.tvgID),
       polarization := ToLower(TrimSpace(c.polarization)), delivery := ToLower(TrimSpace(c.delivery)))
  }

  function NormalizedAll(list: seq<Channel>): (r: seq<Channel>)
    ensures |r| == |list|
    ensures forall i :: 0 <= i < |list| ==> r[i] == Normalized(list[i])
  {
    seq(|list|, i requires 0 <= i < |list| => Normalized(list[i]))
  }

  /** `s` with blanks around it. */
  ghost predicate Padded(raw: string, s: string) {
    exists a, b :: Blank(a) && Blank(b) && raw == a + s + b
  }

  /** `s` in some case with blanks around it. */
  ghost predicate Written(raw: string, s: string) {
    exists x :: Padded(raw, x) && Tight(x) && InSomeCase(x, s)
  }

  /** Normalizing takes the blanks off the text fields, and the case off
      polarization and delivery. */
  lemma NormalizedIs(raw: Channel, c: Channel)
    requires Tight(c.id) && Tight(c.name) && Tight(c.group) && Tight(c.tvgID)
    requires Padded(raw.id, c.id) && Padded(raw.name, c.name) && Padded(raw.group, c.group)
    requires Padded(raw.tvgID, c.tvgID)
    requires Written(raw.polarization, c.polarization) && Written(raw.delivery, c.delivery)
    requires raw.number == c.number && raw.frequency == c.frequency && raw.symbolRate == c.symbolRate
    requires raw.src == c.src && raw.pids == c.pids
    ensures Normalized(raw) == c
  {
    hide TrimSpace, ToLower, Padded, Written, Tight;
    PaddedTrimmed(raw.id, c.id);
    PaddedTrimmed(raw.name, c.name);
    PaddedTrimmed(raw.group, c.group);
    PaddedTrimmed(raw.tvgID, c.tvgID);
    WrittenFolded(raw.polarization, c.polarization);
    WrittenFolded(raw.delivery, c.delivery);
  }

  lemma PaddedTrimmed(raw: string, s: string)
    requires Padded(raw, s) && Tight(s)
    ensures TrimSpace(raw) == s
  {
    hide TrimSpace;
    var a, b :| Blank(a) && Blank(b) && raw == a + s + b;
    Trimmed(a, s, b);
  }

  lemma WrittenFolded(raw: string, s: string)
    requires Written(raw, s)
    ensures ToLower(TrimSpace(raw)) == s
  {
    hide TrimSpace, ToLower, Padded;
    var x :| Padded(raw, x) && Tight(x) && InSomeCase(x, s);
    PaddedTrimmed(raw, x);
    LowerIs(x, s);
  }

  /** Counts the problems of one channel, in the order the loader looks. */
  method ValidateChannel(c: Channel) returns (problems: nat)
    ensures problems == 0 <==> ValidChannel(c)
  {
    problems := 0;
    if c.id == "" { problems := problems + 1; }
    if c.number <= 0 { problems := problems + 1; }
    if c.name == "" { problems := problems + 1; }
    if c.group == "" { problems := problems + 1; }
    if c.tvgID == "" { problems := problems + 1; }
    if c.src <= 0 { problems := problems + 1; }
    if c.frequency <= 0 { problems := problems + 1; }
    if c.polarization != "h" && c.polarization != "v" { problems := problems + 1; }
    if c.symbolRate <= 0 { problems := problems + 1; }
    if c.delivery != "dvbs" && c.delivery != "dvbs2" { problems := problems + 1; }
    if |c.pids| < 5 { problems := problems + 1; }
    if |c.pids| > 0 && c.pids[0] != 0 { problems := problems + 1; }
    if |c.pids| > 1 && c.pids[1] != 17 { problems := problems + 1; }
    ghost var before := problems;
    for i := 0 to |c.pids|
      invariant problems >= before
      invariant problems == before <==> forall j :: 0 <= j < i ==> 0 <= c.pids[j] <= 8191
    {
      if c.pids[i] < 0 || c.pids[i] > 8191 {
        problems := problems + 1;
      }
    }
  }

  function Ids(list: seq<Channel>, n: nat): set<string>
    requires n <= |list|
  {
    set i | 0 <= i < n :: list[i].id
  }

  function Numbers(list: seq<Channel>, n: nat): set<int>
    requires n <= |list|
  {
    set i | 0 <= i < n :: list[i].number
  }

  function TvgIDs(list: seq<Channel>, n: nat): set<string>
    requires n <= |list|
  {
    set i | 0 <= i < n :: list[i].tvgID
  }

  predicate AcceptedSoFar(list: seq<Channel>, n: nat)
    requires n <= |list|
  {
    && (forall i :: 0 <= i < n ==> ValidChannel(list[i]))
    && (forall i, j :: 0 <= i < j < n ==> Apart(list[i], list[j]))
  }

  lemma AcceptedNext(list: seq<Channel>, n: nat)
    requires n < |list|
    ensures var c := list[n];
            AcceptedSoFar(list, n + 1) <==>
              AcceptedSoFar(list, n) && ValidChannel(c)
              && c.id !in Ids(list, n) && c.number !in Numbers(list, n) && c.tvgID !in TvgIDs(list, n)
  {
    hide ValidChannel;
    var c := list[n];
    if AcceptedSoFar(list, n + 1) {
      forall i | 0 <= i < n
        ensures list[i].id != c.id && list[i].number != c.number && list[i].tvgID != c.tvgID
      {
        assert Apart(list[i], list[n]);
      }
    }
  }

  lemma SeenNext(list: seq<Channel>, n: nat)
    requires n < |list|
    ensures Ids(list, n + 1) == Ids(list, n) + {list[n].id}
    ensures Numbers(list, n + 1) == Numbers(list, n) + {list[n].number}
    ensures TvgIDs(list, n + 1) == TvgIDs(list, n) + {list[n].tvgID}
  {
  }

  lemma ValidNamed(c: Channel)
    ensures ValidChannel(c) ==> c.id != "" && c.number > 0 && c.tvgID != ""
  {
  }

  /** The loader's three maps, from a value to the last entry that used it. */
  datatype Seen = Seen(ids: map<string, nat>, numbers: map<int, nat>, tvgIDs: map<string, nat>)

  predicate Remembers(seen: Seen, list: seq<Channel>, n: nat)
    requires n <= |list|
  {
    seen.ids.Keys == Ids(list, n) && seen.numbers.Keys == Numbers(list, n) && seen.tvgIDs.Keys == TvgIDs(list, n)
  }

  method CheckEntry(c: Channel, ghost list: seq<Channel>, n: nat, seen: Seen) returns (problems: nat, next: Seen)
    requires n < |list| && c == list[n] && Remembers(seen, list, n)
    ensures Remembers(next, list, n + 1)
    ensures AcceptedSoFar(list, n + 1) <==> AcceptedSoFar(list, n) && problems == 0
  {
    hide ValidChannel, AcceptedSoFar, Ids, Numbers, TvgIDs;
    AcceptedNext(list, n);
    SeenNext(list, n);
    ValidNamed(c);
    problems := ValidateChannel(c);
    if c.id in seen.ids && c.id != "" { problems := problems + 1; }
    if c.number in seen.numbers && c.number > 0 { problems := problems + 1; }
    if c.tvgID in seen.tvgIDs && c.tvgID != "" { problems := problems + 1; }
    next := Seen(seen.ids[c.id := n], seen.numbers[c.number := n], seen.tvgIDs[c.tvgID := n]);
  }

  /** Normalizes every entry and counts the problems of the whole list. */
  method CheckEntries(entries: seq<Channel>) returns (out: seq<Channel>, problems: nat)
    ensures out == NormalizedAll(entries)
    ensures problems == 0 <==> AcceptedSoFar(out, |out|)
  {
    hide Remembers, AcceptedSoFar, Normalized;
    ghost var all := NormalizedAll(entries);
    out, problems := [], 0;
    var seen := Seen(map[], map[], map[]);
    NothingSeen(all);
    for i := 0 to |entries|
      invariant out == all[..i]
      invariant Remembers(seen, all, i)
      invariant problems == 0 <==> AcceptedSoFar(all, i)
    {
      var c := Normalized(entries[i]);
      var found;
      found, seen := CheckEntry(c, all, i, seen);
      problems, out := problems + found, out + [c];
    }
    assert all[..|entries|] == all;
  }

  /** Accepts a list exactly when every entry is valid and no two entries share
      an id, a number or a tvg id. */
  method LoadChannels(entries: seq<Channel>) returns (r: Option<seq<Channel>>)
    ensures r.Some? <==> Accepted(NormalizedAll(entries))
    ensures r.Some? ==> r.value == NormalizedAll(entries)
  {
    hide AcceptedSoFar, Accepted, Normalized, NormalizedAll;
    SoFarIsAll(NormalizedAll(entries));
    if |entries| == 0 {
      return None;
    }
    var out, problems := CheckEntries(entries);
    return if problems > 0 then None else Some(out);
  }

  lemma NothingSeen(list: seq<Channel>)
    ensures Remembers(Seen(map[], map[], map[]), list, 0) && AcceptedSoFar(list, 0)
  {
  }

  lemma SoFarIsAll(list: seq<Channel>)
    ensures Accepted(list) <==> list != [] && AcceptedSoFar(list, |list|)
  {
  }

  // ---------- the catalog

  function MuxID(src: int, frequency: int, polarization: string, symbolRate: int, delivery: string): string {
    "src" + Decimal(src) + "-" + Decimal(frequency) + ToLower(polarization) + "-" + Decimal(symbolRate) + "-"
        + ToLower(delivery)
  }

  function PidAt(pids: seq<int>, i: nat): int {
    if i < |pids| then pids[i] else 0
  }

  function MuxOf(c: Channel): Mux {
    Mux(MuxID(c.src, c.frequency, c.polarization, c.symbolRate, c.delivery),
        c.src, c.frequency, c.polarization, c.symbolRate, c.delivery)
  }

  function ServiceOf(c: Channel): Service {
    Service(c.id, c.number, c.name, c.group, c.tvgID, MuxOf(c).id, 1000 + c.number,
            PidAt(c.pids, 2), PidAt(c.pids, 3), PidAt(c.pids, 4))
  }

  predicate AllTunable(list: seq<Channel>) {
    forall i :: 0 <= i < |list| ==> Tunable(list[i])
  }

  function MuxIDs(muxes: seq<Mux>): set<string> {
    set m | m in muxes :: m.id
  }

  /** The muxes in order of first appearance. */
  function MuxesOf(list: seq<Channel>): seq<Mux> {
    if list == [] then []
    else
      var before, mux := MuxesOf(list[..|list| - 1]), MuxOf(list[|list| - 1]);
      if mux.id in MuxIDs(before) then before else before + [mux]
  }

  function ServicesOf(list: seq<Channel>): (r: seq<Service>)
    ensures |r| == |list| && forall i :: 0 <= i < |r| ==> r[i] == ServiceOf(list[i])
  {
    seq(|list|, i requires 0 <= i < |list| => ServiceOf(list[i]))
  }

  function CatalogOf(list: seq<Channel>): Catalog {
    Catalog(MuxesOf(list), ServicesOf(list))
  }

  method CatalogFromChannels(list: seq<Channel>) returns (r: Catalog)
    ensures r == CatalogOf(list)
  {
    hide MuxOf, MuxesOf, MuxIDs, ServiceOf;
    NoMuxes();
    var muxesByID: map<string, Mux> := map[];
    var muxes: seq<Mux> := [];
    var services: seq<Service> := [];
    ghost var all := ServicesOf(list);
    assert list[..0] == [];
    for i := 0 to |list|
      invariant muxes == MuxesOf(list[..i]) && muxesByID.Keys == MuxIDs(muxes)
      invariant services == all[..i]
    {
      var mux := MuxOf(list[i]);
      MuxesNext(list, i);
      MuxIDsSnoc(muxes, mux);
      if mux.id !in muxesByID {
        muxesByID := muxesByID[mux.id := mux];
        muxes := muxes + [mux];
      }
      services := services + [ServiceOf(list[i])];
    }
    assert list[..|list|] == list && all[..|list|] == all;
    r := Catalog(muxes, services);
  }

  lemma NoMuxes()
    ensures MuxesOf([]) == [] && MuxIDs([]) == {}
  {
  }

  lemma MuxesNext(list: seq<Channel>, i: nat)
    requires i < |list|
    ensures var before, mux := MuxesOf(list[..i]), MuxOf(list[i]);
            MuxesOf(list[..i + 1]) == if mux.id in MuxIDs(before) then before else before + [mux]
  {
    hide MuxOf;
    assert list[..i + 1][..i] == list[..i];
  }

  lemma MuxIDsSnoc(muxes: seq<Mux>, m: Mux)
    ensures MuxIDs(muxes + [m]) == MuxIDs(muxes) + {m.id}
  {
    forall id
      ensures id in MuxIDs(muxes + [m]) <==> id in MuxIDs(muxes) + {m.id}
    {
      if id in MuxIDs(muxes) {
        var x :| x in muxes && x.id == id;
        assert x in muxes + [m];
      }
      assert m in muxes + [m];
    }
  }

  // ---------- mux ids are injective

  /** A number followed by something that is not a digit can be split off. */
  lemma {:induction false} DigitPrefix(a: string, b: string, c: string, d: string)
    requires AllDigits(a) && AllDigits(b) && a + c == b + d
    requires c != "" && d != "" && !IsDigit(c[0]) && !IsDigit(d[0])
    ensures a == b && c == d
  {
    var s, t := a + c, b + d;
    assert (forall i :: 0 <= i < |a| ==> IsDigit(s[i])) && !IsDigit(s[|a|]);
    assert (forall i :: 0 <= i < |b| ==> IsDigit(t[i])) && !IsDigit(t[|b|]);
    assert a == (a + c)[..|a|] && b == (b + d)[..|b|];
    assert c == (a + c)[|a|..] && d == (b + d)[|b|..];
  }

  lemma LowerTail(c: Channel)
    requires Tunable(c)
    ensures ToLower(c.polarization) == c.polarization && ToLower(c.delivery) == c.delivery
  {
  }

  /** Two channels tuned alike are on one mux, and only they are. */
  lemma MuxIDInjective(a: Channel, b: Channel)
    requires Tunable(a) && Tunable(b)
    ensures MuxOf(a).id == MuxOf(b).id <==> MuxOf(a) == MuxOf(b)
  {
    if MuxOf(a).id == MuxOf(b).id {
      MuxIDParts(a);
      MuxIDParts(b);
      PositiveDigits(a);
      PositiveDigits(b);
      hide MuxID, Decimal, ToLower, Middle, Tail;
      Drop("src", Decimal(a.src) + Middle(a), Decimal(b.src) + Middle(b));
      MiddleStart(a);
      MiddleStart(b);
      DigitPrefix(Decimal(a.src), Decimal(b.src), Middle(a), Middle(b));
      FrequencyPart(a, b);
      TailPart(a, b);
      DecimalInjective(a.src, b.src);
      DecimalInjective(a.frequency, b.frequency);
      DecimalInjective(a.symbolRate, b.symbolRate);
    }
  }

  lemma PositiveDigits(c: Channel)
    requires Tunable(c)
    ensures AllDigits(Decimal(c.src)) && AllDigits(Decimal(c.frequency)) && AllDigits(Decimal(c.symbolRate))
  {
  }

  lemma DecimalInjective(a: int, b: int)
    requires Decimal(a) == Decimal(b)
    ensures a == b
  {
    AtoiDecimal(a);
    AtoiDecimal(b);
  }

  function Tail(c: Channel): string {
    "-" + (Decimal(c.symbolRate) + ("-" + c.delivery))
  }

  function Middle(c: Channel): string {
    "-" + (Decimal(c.frequency) + (c.polarization + Tail(c)))
  }

  lemma MuxIDParts(c: Channel)
    requires Tunable(c)
    ensures MuxOf(c).id == "src" + (Decimal(c.src) + Middle(c))
  {
    LowerTail(c);
    hide ToLower, Decimal;
  }

  lemma MiddleStart(c: Channel)
    requires Tunable(c)
    ensures Middle(c) != "" && Middle(c)[0] == '-'
  {
  }

  lemma TailPart(a: Channel, b: Channel)
    requires Tunable(a) && Tunable(b) && Tail(a) == Tail(b)
    ensures Decimal(a.symbolRate) == Decimal(b.symbolRate) && a.delivery == b.delivery
  {
    PositiveDigits(a);
    PositiveDigits(b);
    hide Decimal;
    Drop("-", Decimal(a.symbolRate) + ("-" + a.delivery), Decimal(b.symbolRate) + ("-" + b.delivery));
    DigitPrefix(Decimal(a.symbolRate), Decimal(b.symbolRate), "-" + a.delivery, "-" + b.delivery);
    Drop("-", a.delivery, b.delivery);
  }

  lemma Drop(p: string, a: string, b: string)
    requires p + a == p + b
    ensures a == b
  {
    assert a == (p + a)[|p|..] && b == (p + b)[|p|..];
  }

  lemma FrequencyPart(a: Channel, b: Channel)
    requires Tunable(a) && Tunable(b) && Middle(a) == Middle(b)
    ensures Decimal(a.frequency) == Decimal(b.frequency) && a.polarization == b.polarization && Tail(a) == Tail(b)
  {
    PositiveDigits(a);
    PositiveDigits(b);
    hide Decimal, Tail;
    var x, y := a.polarization + Tail(a), b.polarization + Tail(b);
    Drop("-", Decimal(a.frequency) + x, Decimal(b.frequency) + y);
    DigitPrefix(Decimal(a.frequency), Decimal(b.frequency), x, y);
    assert x[0] == a.polarization[0] && y[0] == b.polarization[0];
    Drop(a.polarization, Tail(a), Tail(b));
  }

  // ---------- tuning

  function TuningQuery(c: Channel): Query {
    map["src" := Decimal(c.src), "freq" := Decimal(c.frequency), "pol" := c.polarization, "msys" := c.delivery,
        "sr" := Decimal(c.symbolRate), "pids" := Join(PidStrings(c.pids), ',')]
  }

  function PidStrings(pids: seq<int>): (r: seq<string>)
    ensures |r| == |pids| && forall i :: 0 <= i < |r| ==> r[i] == Decimal(pids[i])
  {
    seq(|pids|, i requires 0 <= i < |pids| => Decimal(pids[i]))
  }

  /** The numbers a comma-separated list names; parts that are no numbers are
      passed over. */
  function NumbersIn(raw: string): set<int> {
    var parts := Split(raw, ',');
    set i | 0 <= i < |parts| && Atoi(TrimSpace(parts[i])).Some? :: Atoi(TrimSpace(parts[i])).value
  }

  function Required(s: Service): set<int> {
    {s.pmtPID, s.videoPID, s.audioPID}
  }

  predicate ServiceMatches(s: Service, raw: string) {
    raw == "" || EqualFold(raw, "all") || Required(s) <= NumbersIn(raw)
  }

  predicate TunedTo(m: Mux, q: Query) {
    && Atoi(Get(q, "src")) == Some(m.src)
    && Atoi(Get(q, "freq")) == Some(m.frequency)
    && Atoi(Get(q, "sr")) == Some(m.symbolRate)
    && EqualFold(m.polarization, ToLower(Get(q, "pol")))
    && EqualFold(m.delivery, ToLower(Get(q, "msys")))
  }

  datatype TuneError = InvalidTune | ServiceNotFound
  datatype Tuned = Found(service: Service, mux: Mux) | Failed(error: TuneError)

  function FirstService(services: seq<Service>, muxID: string, raw: string): (r: Option<nat>)
    ensures r.Some? ==>
        r.value < |services| && services[r.value].muxID == muxID && ServiceMatches(services[r.value], raw)
    ensures r.Some? ==> forall i :: 0 <= i < r.value ==>
        !(services[i].muxID == muxID && ServiceMatches(services[i], raw))
    ensures r == None ==> forall i :: 0 <= i < |services| ==>
        !(services[i].muxID == muxID && ServiceMatches(services[i], raw))
  {
    if services == [] then None
    else
      var init := FirstService(services[..|services| - 1], muxID, raw);
      var last := services[|services| - 1];
      if init.Some? then init
      else if last.muxID == muxID && ServiceMatches(last, raw) then Some(|services| - 1) else None
  }

  function MatchFrom(c: Catalog, q: Query, k: nat): Tuned
    requires k <= |c.muxes|
    decreases |c.muxes| - k
  {
    if k == |c.muxes| then Failed(ServiceNotFound)
    else
      var m := c.muxes[k];
      var i := FirstService(c.services, m.id, Get(q, "pids"));
      if TunedTo(m, q) && i.Some? then Found(c.services[i.value], m) else MatchFrom(c, q, k + 1)
  }

  function MatchService(c: Catalog, q: Query): Tuned {
    if Atoi(Get(q, "src")) == None || Atoi(Get(q, "freq")) == None
        || Atoi(Get(q, "sr")) == None then Failed(InvalidTune)
    else MatchFrom(c, q, 0)
  }

  /** Marks the required PIDs a list names, as the source does. */
  method ServiceMatchesPids(s: Service, raw: string) returns (matches: bool)
    ensures matches == ServiceMatches(s, raw)
  {
    if raw == "" || EqualFold(raw, "all") {
      return true;
    }
    var required: map<int, bool> := map[s.pmtPID := false, s.videoPID := false, s.audioPID := false];
    var parts := Split(raw, ',');
    for i := 0 to |parts|
      invariant required.Keys == Required(s)
      invariant forall p :: p in required ==>
          (required[p] <==> exists j :: 0 <= j < i && Atoi(TrimSpace(parts[j])) == Some(p))
    {
      var pid := Atoi(TrimSpace(parts[i]));
      if pid.Some? && pid.value in required {
        required := required[pid.value := true];
      }
    }
    matches := forall p | p in required.Keys :: required[p];
    MarkedAll(s, raw, parts, required);
  }

  lemma MarkedAll(s: Service, raw: string, parts: seq<string>, required: map<int, bool>)
    requires parts == Split(raw, ',') && required.Keys == Required(s)
    requires forall p :: p in required ==>
               (required[p] <==> exists j :: 0 <= j < |parts| && Atoi(TrimSpace(parts[j])) == Some(p))
    ensures (forall p | p in required.Keys :: required[p]) <==> Required(s) <= NumbersIn(raw)
  {
    hide Atoi, TrimSpace;
    forall p | p in required
      ensures required[p] <==> p in NumbersIn(raw)
    {
    }
  }
}
