/** Tuning and listing over an accepted catalog: a channel's own query finds it,
    and the catalog gives its channels back. */
module Tuning {
  import opened Bytes
  import opened Text
  import opened Catalog

  lemma AcceptedTunable(list: seq<Channel>)
    requires Accepted(list)
    ensures AllTunable(list) && forall i :: 0 <= i < |list| ==> ValidPids(list[i].pids)
  {
    assert forall i :: 0 <= i < |list| ==> ValidChannel(list[i]);
  }

  lemma MuxIDsAt(muxes: seq<Mux>, id: string)
    ensures id in MuxIDs(muxes) <==> exists i :: 0 <= i < |muxes| && muxes[i].id == id
  {
  }

  /** Some channel of the list is on this mux. */
  predicate Carries(list: seq<Channel>, m: Mux) {
    exists i :: 0 <= i < |list| && m == MuxOf(list[i])
  }

  /** `muxes` holds the mux of every channel, each once, and nothing else. */
  ghost predicate Lists(muxes: seq<Mux>, list: seq<Channel>) {
    && (forall i :: 0 <= i < |list| ==> MuxOf(list[i]) in muxes)
    && (forall k :: 0 <= k < |muxes| ==> Carries(list, muxes[k]))
    && (forall k, l :: 0 <= k < l < |muxes| ==> muxes[k].id != muxes[l].id)
  }

  lemma CarriesMore(list: seq<Channel>, c: Channel, m: Mux)
    requires Carries(list, m) || m == MuxOf(c)
    ensures Carries(list + [c], m)
  {
    hide MuxOf;
    if Carries(list, m) {
      var i :| 0 <= i < |list| && m == MuxOf(list[i]);
      assert (list + [c])[i] == list[i];
    } else {
      assert (list + [c])[|list|] == c;
    }
  }

  lemma ListsKnown(muxes: seq<Mux>, list: seq<Channel>, c: Channel)
    requires AllTunable(list) && Tunable(c) && Lists(muxes, list) && MuxOf(c).id in MuxIDs(muxes)
    ensures Lists(muxes, list + [c])
  {
    hide MuxOf, Tunable, MuxIDs, Carries;
    MuxIDsAt(muxes, MuxOf(c).id);
    var k :| 0 <= k < |muxes| && muxes[k].id == MuxOf(c).id;
    SameMux(list, c, muxes[k]);
    forall l | 0 <= l < |muxes|
      ensures Carries(list + [c], muxes[l])
    {
      CarriesMore(list, c, muxes[l]);
    }
  }

  lemma SameMux(list: seq<Channel>, c: Channel, m: Mux)
    requires AllTunable(list) && Tunable(c) && Carries(list, m) && m.id == MuxOf(c).id
    ensures m == MuxOf(c)
  {
    hide MuxOf, Tunable;
    var i :| 0 <= i < |list| && m == MuxOf(list[i]);
    MuxIDInjective(list[i], c);
  }

  lemma ListsNew(muxes: seq<Mux>, list: seq<Channel>, c: Channel)
    requires AllTunable(list) && Tunable(c) && Lists(muxes, list) && MuxOf(c).id !in MuxIDs(muxes)
    ensures Lists(muxes + [MuxOf(c)], list + [c])
  {
    hide MuxOf, Tunable, MuxIDs, Carries;
    MuxIDsAt(muxes, MuxOf(c).id);
    var more, longer := muxes + [MuxOf(c)], list + [c];
    forall i | 0 <= i < |longer|
      ensures MuxOf(longer[i]) in more
    {
      if i < |list| {
        assert MuxOf(list[i]) in muxes;
      } else {
        assert more[|muxes|] == MuxOf(longer[i]);
      }
    }
    forall k | 0 <= k < |more|
      ensures Carries(longer, more[k])
    {
      assert k < |muxes| ==> more[k] == muxes[k];
      CarriesMore(list, c, more[k]);
    }
  }

  lemma {:induction false} MuxesListed(list: seq<Channel>)
    requires AllTunable(list)
    ensures Lists(MuxesOf(list), list)
  {
    if list != [] {
      var init, c := list[..|list| - 1], list[|list| - 1];
      MuxesListed(init);
      assert init + [c] == list;
      hide MuxOf, Tunable, MuxIDs, Lists;
      if MuxOf(c).id in MuxIDs(MuxesOf(init)) {
        ListsKnown(MuxesOf(init), init, c);
      } else {
        ListsNew(MuxesOf(init), init, c);
      }
    }
  }

  // ---------- tuning

  function PidSet(pids: seq<int>): set<int> {
    set p | p in pids
  }

  lemma QueryPids(c: Channel)
    requires Tunable(c) && ValidPids(c.pids)
    ensures var raw := Get(TuningQuery(c), "pids");
            raw != "" && !EqualFold(raw, "all") && NumbersIn(raw) == PidSet(c.pids)
  {
    hide Atoi, TrimSpace, PidStrings, Tunable;
    var parts := PidStrings(c.pids);
    var raw := Join(parts, ',');
    QueryParts(c);
    SplitJoin(parts, ',');
    StartsWithDigit(parts);
    hide Join, EqualFold;
    forall x
      ensures x in NumbersIn(raw) <==> x in PidSet(c.pids)
    {
      if x in PidSet(c.pids) {
        var i :| 0 <= i < |c.pids| && c.pids[i] == x;
        assert Atoi(TrimSpace(parts[i])).value == x;
      }
    }
  }

  lemma QueryParts(c: Channel)
    requires ValidPids(c.pids)
    ensures var parts := PidStrings(c.pids);
            |parts| == |c.pids|
            && forall i :: 0 <= i < |parts| ==>
                 ',' !in parts[i] && Atoi(TrimSpace(parts[i])) == Some(c.pids[i]) && AllDigits(parts[i])
  {
    var parts := PidStrings(c.pids);
    forall i | 0 <= i < |parts|
      ensures ',' !in parts[i] && Atoi(TrimSpace(parts[i])) == Some(c.pids[i]) && AllDigits(parts[i])
    {
      AtoiDecimal(c.pids[i]);
      DigitsTrimmed(parts[i]);
    }
  }

  lemma OwnTuning(c: Channel, d: Channel)
    requires Tunable(c) && Tunable(d) && ValidPids(c.pids)
    ensures TunedTo(MuxOf(d), TuningQuery(c)) <==> MuxOf(d) == MuxOf(c)
  {
    AtoiDecimal(c.src);
    AtoiDecimal(c.frequency);
    AtoiDecimal(c.symbolRate);
    LowerTail(c);
    LowerTail(d);
    hide Atoi, Decimal, ToLower, PidStrings;
    assert MuxOf(d) == MuxOf(c) <==>
           d.src == c.src && d.frequency == c.frequency && d.symbolRate == c.symbolRate
           && d.polarization == c.polarization && d.delivery == c.delivery;
  }

  lemma {:induction false} MatchAt(cat: Catalog, q: Query, k: nat, own: nat)
    requires k <= own < |cat.muxes| && TunedTo(cat.muxes[own], q)
    requires FirstService(cat.services, cat.muxes[own].id, Get(q, "pids")).Some?
    requires forall j :: k <= j < own ==> !TunedTo(cat.muxes[j], q)
    ensures var i := FirstService(cat.services, cat.muxes[own].id, Get(q, "pids")).value;
            MatchFrom(cat, q, k) == Found(cat.services[i], cat.muxes[own])
    decreases own - k
  {
    hide TunedTo, FirstService;
    if k < own {
      MatchAt(cat, q, k + 1, own);
    }
  }

  /** An earlier service of the same mux answers the channel's PID list. */
  predicate Shadowed(list: seq<Channel>, i: nat)
    requires i < |list|
  {
    exists j :: 0 <= j < i && MuxOf(list[j]) == MuxOf(list[i]) && Required(ServiceOf(list[j])) <= PidSet(list[i].pids)
  }

  /** A channel's own query finds its own mux, and finds the channel's service
      exactly when no earlier service of that mux has its PMT, video and audio
      PIDs all among the channel's PIDs. */
  lemma TuneOwn(list: seq<Channel>, i: nat)
    requires Accepted(list) && i < |list|
    ensures var r := MatchService(CatalogOf(list), TuningQuery(list[i]));
            && r.Found? && r.mux == MuxOf(list[i]) && r.service.muxID == r.mux.id
            && (r.service == ServiceOf(list[i]) <==> !Shadowed(list, i))
  {
    AcceptedTunable(list);
    FirstMatch(list, i);
    TuneFirst(list, i);
    hide MuxOf, TuningQuery, ServiceOf, Accepted, Shadowed, CatalogOf, MatchService, FirstService;
    ServiceApart(list, FirstService(ServicesOf(list), MuxOf(list[i]).id, Get(TuningQuery(list[i]), "pids")).value, i);
  }

  /** Two services of one mux with the same PIDs. */
  const FORMER: Channel := Channel("a", 1, "A", "Lab", "a.tv", 11494, "h", 22000, "dvbs2", 1, [0, 17, 100, 101, 102])
  const LATTER: Channel := FORMER.(id := "b", number := 2, name := "B", tvgID := "b.tv")

  /** The later one's query finds the earlier one. */
  lemma LatterHidden()
    ensures Accepted([FORMER, LATTER])
    ensures var r := MatchService(CatalogOf([FORMER, LATTER]), TuningQuery(LATTER));
            r.Found? && r.service != ServiceOf(LATTER)
  {
    hide Shadowed, Accepted, CatalogOf, MatchService, TuningQuery, ServiceOf;
    LatterAccepted();
    LatterShadowed();
    TuneOwn([FORMER, LATTER], 1);
  }

  lemma LatterAccepted()
    ensures Accepted([FORMER, LATTER])
  {
    hide Apart;
    var list := [FORMER, LATTER];
    assert ValidChannel(list[0]) && ValidChannel(list[1]);
    assert Apart(FORMER, LATTER) by { LatterApart(); }
  }

  lemma LatterApart()
    ensures Apart(FORMER, LATTER)
  {
  }

  lemma LatterShadowed()
    ensures Shadowed([FORMER, LATTER], 1)
  {
    hide MuxID;
    var list := [FORMER, LATTER];
    var pids := list[1].pids;
    assert pids[2] == 100 && pids[3] == 101 && pids[4] == 102;
    assert MuxOf(list[0]) == MuxOf(list[1]) && Required(ServiceOf(list[0])) <= PidSet(pids);
  }

  /** The search ends with the first matching service of the own mux. */
  lemma TuneFirst(list: seq<Channel>, i: nat)
    requires AllTunable(list) && i < |list| && ValidPids(list[i].pids)
    requires FirstService(ServicesOf(list), MuxOf(list[i]).id, Get(TuningQuery(list[i]), "pids")).Some?
    ensures var c := list[i];
            MatchService(CatalogOf(list), TuningQuery(c))
            == Found(ServicesOf(list)[FirstService(ServicesOf(list), MuxOf(c).id, Get(TuningQuery(c), "pids")).value],
                MuxOf(c))
  {
    hide MuxOf, MuxesOf, MatchService, TuningQuery, ServicesOf, FirstService, TunedTo, Atoi, ValidPids, Tunable, Get,
        Decimal;
    var c := list[i];
    MuxesListed(list);
    QueryParses(c);
    var own :| 0 <= own < |MuxesOf(list)| && MuxesOf(list)[own] == MuxOf(c);
    OnlyOwnMux(list, c, own);
    MatchUnique(CatalogOf(list), TuningQuery(c), own);
  }

  lemma MatchUnique(cat: Catalog, q: Query, own: nat)
    requires own < |cat.muxes|
    requires Atoi(Get(q, "src")).Some? && Atoi(Get(q, "freq")).Some? && Atoi(Get(q, "sr")).Some?
    requires forall j :: 0 <= j < |cat.muxes| ==> (TunedTo(cat.muxes[j], q) <==> j == own)
    requires FirstService(cat.services, cat.muxes[own].id, Get(q, "pids")).Some?
    ensures MatchService(cat, q)
            == Found(cat.services[FirstService(cat.services, cat.muxes[own].id, Get(q, "pids")).value], cat.muxes[own])
  {
    hide TunedTo, Atoi, Get, FirstService, MatchFrom;
    MatchAt(cat, q, 0, own);
  }

  lemma QueryParses(c: Channel)
    requires Tunable(c) && ValidPids(c.pids)
    ensures var q := TuningQuery(c);
            Atoi(Get(q, "src")) == Some(c.src) && Atoi(Get(q, "freq")) == Some(c.frequency)
                && Atoi(Get(q, "sr")) == Some(c.symbolRate)
  {
    hide Atoi, Decimal;
    AtoiDecimal(c.src);
    AtoiDecimal(c.frequency);
    AtoiDecimal(c.symbolRate);
  }

  lemma OnlyOwnMux(list: seq<Channel>, c: Channel, own: nat)
    requires AllTunable(list) && Tunable(c) && ValidPids(c.pids)
    requires own < |MuxesOf(list)| && MuxesOf(list)[own] == MuxOf(c)
    ensures forall j :: 0 <= j < |MuxesOf(list)| ==> (TunedTo(MuxesOf(list)[j], TuningQuery(c)) <==> j == own)
  {
    MuxesListed(list);
    hide MuxOf, MuxesOf, TunedTo, TuningQuery;
    forall j | 0 <= j < |MuxesOf(list)|
      ensures TunedTo(MuxesOf(list)[j], TuningQuery(c)) <==> j == own
    {
      assert Carries(list, MuxesOf(list)[j]);
      var d :| 0 <= d < |list| && MuxesOf(list)[j] == MuxOf(list[d]);
      OwnTuning(c, list[d]);
      assert j != own ==> MuxesOf(list)[j].id != MuxesOf(list)[own].id;
    }
  }

  /** Which service the search of the own mux comes to first. */
  lemma FirstMatch(list: seq<Channel>, i: nat)
    requires AllTunable(list) && i < |list| && ValidPids(list[i].pids)
    ensures var c := list[i];
            var f := FirstService(ServicesOf(list), MuxOf(c).id, Get(TuningQuery(c), "pids"));
            && f.Some? && f.value <= i && (f.value == i <==> !Shadowed(list, i))
  {
    var c := list[i];
    var raw := Get(TuningQuery(c), "pids");
    QueryPids(c);
    OwnPids(c);
    forall j | 0 <= j < |list|
      ensures ServicesOf(list)[j].muxID == MuxOf(c).id <==> MuxOf(list[j]) == MuxOf(c)
      ensures ServiceMatches(ServicesOf(list)[j], raw) <==> Required(ServiceOf(list[j])) <= PidSet(c.pids)
    {
      MuxIDInjective(list[j], c);
      MatchesByPids(ServicesOf(list)[j], raw, c.pids);
    }
    hide MuxOf, TuningQuery, ServiceOf, ServiceMatches, Required, PidSet;
  }

  lemma MatchesByPids(s: Service, raw: string, pids: seq<int>)
    requires raw != "" && !EqualFold(raw, "all") && NumbersIn(raw) == PidSet(pids)
    ensures ServiceMatches(s, raw) <==> Required(s) <= PidSet(pids)
  {
  }

  lemma OwnPids(c: Channel)
    requires Tunable(c) && ValidPids(c.pids)
    ensures Required(ServiceOf(c)) <= PidSet(c.pids)
  {
    hide MuxOf;
  }

  lemma ServiceApart(list: seq<Channel>, i: nat, j: nat)
    requires Accepted(list) && AllTunable(list) && i < |list| && j < |list|
    ensures ServiceOf(list[i]) == ServiceOf(list[j]) <==> i == j
  {
    hide MuxOf, ValidChannel;
    if i < j {
      assert Apart(list[i], list[j]);
    } else if j < i {
      assert Apart(list[j], list[i]);
    }
  }

  // ---------- any query

  /** Every PID a service needs is a number in the list. */
  predicate AllNamed(s: Service, raw: string) {
    var parts := Split(raw, ',');
    forall p :: p in [s.pmtPID, s.videoPID, s.audioPID] ==>
      exists i :: 0 <= i < |parts| && Atoi(TrimSpace(parts[i])) == Some(p)
  }

  /** The service on this mux is what the query asks for: the numbers agree,
      polarization and delivery do but for case, and the PIDs are missing, all,
      or name those of the service. */
  predicate Answers(m: Mux, s: Service, q: Query) {
    && Atoi(Get(q, "src")) == Some(m.src) && Atoi(Get(q, "freq")) == Some(m.frequency)
    && Atoi(Get(q, "sr")) == Some(m.symbolRate)
    && ToLower(Get(q, "pol")) == ToLower(m.polarization) && ToLower(Get(q, "msys")) == ToLower(m.delivery)
    && s.muxID == m.id
    && (Get(q, "pids") == "" || ToLower(Get(q, "pids")) == "all" || AllNamed(s, Get(q, "pids")))
  }

  lemma LowerTwice(s: string)
    ensures ToLower(ToLower(s)) == ToLower(s)
  {
  }

  lemma AnswersIs(m: Mux, s: Service, q: Query)
    ensures Answers(m, s, q) <==> TunedTo(m, q) && s.muxID == m.id && ServiceMatches(s, Get(q, "pids"))
  {
    LowerTwice(Get(q, "pol"));
    LowerTwice(Get(q, "msys"));
    NamedIs(s, Get(q, "pids"));
    hide ToLower, Atoi, AllNamed, NumbersIn, Required;
    assert ToLower("all") == "all" by { LowerAll(); }
  }

  lemma LowerAll()
    ensures ToLower("all") == "all"
  {
  }

  lemma NamedIs(s: Service, raw: string)
    ensures AllNamed(s, raw) <==> Required(s) <= NumbersIn(raw)
  {
    hide Atoi, TrimSpace, Split;
    var parts := Split(raw, ',');
    forall p
      ensures p in NumbersIn(raw) <==> exists i :: 0 <= i < |parts| && Atoi(TrimSpace(parts[i])) == Some(p)
    {
    }
    hide NumbersIn;
    assert forall p :: p in Required(s) <==> p in [s.pmtPID, s.videoPID, s.audioPID];
  }

  /** The pair at `k`, `i` is the first that answers. */
  predicate FirstAnswer(c: Catalog, q: Query, k: nat, i: nat) {
    && k < |c.muxes| && i < |c.services| && Answers(c.muxes[k], c.services[i], q)
    && (forall l, j :: 0 <= l < k && 0 <= j < |c.services| ==> !Answers(c.muxes[l], c.services[j], q))
    && (forall j :: 0 <= j < i ==> !Answers(c.muxes[k], c.services[j], q))
  }

  predicate NoAnswer(c: Catalog, q: Query) {
    forall l, j :: 0 <= l < |c.muxes| && 0 <= j < |c.services| ==> !Answers(c.muxes[l], c.services[j], q)
  }

  predicate NumbersGiven(q: Query) {
    Atoi(Get(q, "src")).Some? && Atoi(Get(q, "freq")).Some? && Atoi(Get(q, "sr")).Some?
  }

  /** A query is invalid exactly when one of its three numbers is none; it finds
      the first service, mux by mux, that answers it; and nothing is found
      exactly when none does. */
  lemma MatchExactly(c: Catalog, q: Query)
    ensures match MatchService(c, q)
            case Failed(InvalidTune) => !NumbersGiven(q)
            case Failed(ServiceNotFound) => NumbersGiven(q) && NoAnswer(c, q)
            case Found(service, mux) =>
              NumbersGiven(q)
              && exists k: nat, i: nat :: FirstAnswer(c, q, k, i) && c.muxes[k] == mux && c.services[i] == service
  {
    hide Answers, Atoi, MatchFrom, FirstAnswer;
    if NumbersGiven(q) {
      MatchSearches(c, q, 0);
    }
  }

  lemma {:induction false} MatchSearches(c: Catalog, q: Query, n: nat)
    requires n <= |c.muxes|
    requires forall l, j :: 0 <= l < n && 0 <= j < |c.services| ==> !Answers(c.muxes[l], c.services[j], q)
    ensures match MatchFrom(c, q, n)
            case Failed(e) => e == ServiceNotFound && NoAnswer(c, q)
            case Found(service, mux) =>
              exists k: nat, i: nat :: FirstAnswer(c, q, k, i) && c.muxes[k] == mux && c.services[i] == service
    decreases |c.muxes| - n
  {
    hide Answers, TunedTo, ServiceMatches, FirstService;
    if n < |c.muxes| {
      var m := c.muxes[n];
      forall j | 0 <= j < |c.services|
        ensures Answers(m, c.services[j], q)
                <==> TunedTo(m, q) && c.services[j].muxID == m.id && ServiceMatches(c.services[j], Get(q, "pids"))
      {
        AnswersIs(m, c.services[j], q);
      }
      var i := FirstService(c.services, m.id, Get(q, "pids"));
      if TunedTo(m, q) && i.Some? {
        assert FirstAnswer(c, q, n, i.value);
      } else {
        MatchSearches(c, q, n + 1);
      }
    }
  }

  // ---------- listing

  function MuxByID(muxes: seq<Mux>, id: string): (r: Option<Mux>)
    ensures r.Some? ==> r.value in muxes && r.value.id == id
    ensures r == None ==> forall i :: 0 <= i < |muxes| ==> muxes[i].id != id
  {
    if muxes == [] then None else if muxes[0].id == id then Some(muxes[0]) else MuxByID(muxes[1..], id)
  }

  function ServiceByID(services: seq<Service>, id: string): (r: Option<Service>)
    ensures r.Some? ==> r.value in services && r.value.id == id
    ensures r == None ==> forall i :: 0 <= i < |services| ==> services[i].id != id
  {
    if services == [] then None else if services[0].id == id then Some(services[0]) else ServiceByID(services[1..], id)
  }

  function ChannelOf(s: Service, m: Mux): Channel {
    Channel(s.id, s.number, s.name, s.group, s.tvgID, m.frequency, m.polarization, m.symbolRate, m.delivery, m.src,
            [0, 17, s.pmtPID, s.videoPID, s.audioPID])
  }

  function ChannelsFrom(muxes: seq<Mux>, services: seq<Service>): seq<Channel> {
    if services == [] then []
    else
      var init := ChannelsFrom(muxes, services[..|services| - 1]);
      var s := services[|services| - 1];
      match MuxByID(muxes, s.muxID)
      case None => init
      case Some(m) => init + [ChannelOf(s, m)]
  }

  function Channels(c: Catalog): seq<Channel> {
    ChannelsFrom(c.muxes, c.services)
  }

  lemma OwnMuxByID(list: seq<Channel>, i: nat)
    requires AllTunable(list) && i < |list|
    ensures MuxByID(MuxesOf(list), ServiceOf(list[i]).muxID) == Some(MuxOf(list[i]))
  {
    MuxesListed(list);
    hide MuxOf, Tunable, MuxesOf;
    var muxes := MuxesOf(list);
    var m := MuxByID(muxes, MuxOf(list[i]).id);
    assert MuxOf(list[i]) in muxes;
    var k :| 0 <= k < |muxes| && muxes[k] == m.value;
    assert Carries(list, muxes[k]);
    var j :| 0 <= j < |list| && muxes[k] == MuxOf(list[j]);
    MuxIDInjective(list[j], list[i]);
  }

  /** What the catalog says of a channel: its service number is a thousand more
      than the channel's, its PIDs are the third, fourth and fifth (0 for a
      missing one), and its mux is listed with the channel's tuning. */
  lemma ServiceListed(list: seq<Channel>, i: nat)
    requires AllTunable(list) && i < |list|
    ensures var (c, cat) := (list[i], CatalogOf(list));
            && |cat.services| == |list|
            && var s := cat.services[i];
               && s.id == c.id && s.number == c.number && s.name == c.name && s.group == c.group && s.tvgID == c.tvgID
               && s.serviceID == 1000 + c.number
               && s.pmtPID == (if |c.pids| > 2 then c.pids[2] else 0)
               && s.videoPID == (if |c.pids| > 3 then c.pids[3] else 0)
               && s.audioPID == (if |c.pids| > 4 then c.pids[4] else 0)
               && var m := MuxByID(cat.muxes, s.muxID);
                  && m.Some? && m.value in cat.muxes && m.value.src == c.src && m.value.frequency == c.frequency
                  && m.value.polarization == c.polarization && m.value.symbolRate == c.symbolRate
                  && m.value.delivery == c.delivery
  {
    OwnMuxByID(list, i);
    hide MuxID, MuxesOf, MuxByID;
  }

  /** A mux id is written out of its tuning. */
  lemma MuxIDText()
    ensures MuxOf(FORMER).id == "src1-11494h-22000-dvbs2"
  {
    hide Decimal, ToLower;
    FormerNumbers();
    FormerWords();
    var a, b := "src" + "1" + "-" + "11494", "h" + "-" + "22000" + "-" + "dvbs2";
    assert a == "src1-11494" && b == "h-22000-dvbs2";
  }

  lemma FormerNumbers()
    ensures Decimal(1) == "1" && Decimal(11494) == "11494" && Decimal(22000) == "22000"
  {
    assert Itoa(1149) == "1149" by { assert Itoa(11) == "11"; }
    assert Itoa(2200) == "2200" by { assert Itoa(22) == "22"; }
  }

  lemma FormerWords()
    ensures ToLower("h") == "h" && ToLower("dvbs2") == "dvbs2"
  {
  }

  /** Each channel as the catalog gives it back. */
  function Restored(c: Channel): Channel {
    ChannelOf(ServiceOf(c), MuxOf(c))
  }

  function RestoredAll(list: seq<Channel>): (r: seq<Channel>)
    ensures |r| == |list| && forall i :: 0 <= i < |r| ==> r[i] == Restored(list[i])
  {
    seq(|list|, i requires 0 <= i < |list| => Restored(list[i]))
  }

  lemma ServiceMux(c: Channel)
    ensures ServiceOf(c).muxID == MuxOf(c).id
  {
  }

  lemma {:induction false} ChannelsUpTo(list: seq<Channel>, n: nat)
    requires AllTunable(list) && n <= |list|
    ensures ChannelsFrom(MuxesOf(list), ServicesOf(list)[..n]) == RestoredAll(list)[..n]
  {
    hide MuxOf, Tunable, MuxesOf, MuxByID, ChannelOf, ServiceOf, AllTunable;
    if n > 0 {
      ChannelsUpTo(list, n - 1);
      OwnMuxByID(list, n - 1);
      ServiceMux(list[n - 1]);
      var services := ServicesOf(list)[..n];
      assert services[..n - 1] == ServicesOf(list)[..n - 1] && services[n - 1] == ServiceOf(list[n - 1]);
    }
  }

  lemma RestoredSame(c: Channel)
    requires ValidPids(c.pids)
    ensures Restored(c) == c <==> |c.pids| == 5
  {
    assert |c.pids| == 5 ==> c.pids == [0, 17, c.pids[2], c.pids[3], c.pids[4]];
    hide MuxID;
  }

  /** The catalog gives its channels back exactly when each lists five PIDs. */
  lemma CatalogRoundTrip(list: seq<Channel>)
    requires Accepted(list)
    ensures Channels(CatalogOf(list)) == list <==> forall i :: 0 <= i < |list| ==> |list[i].pids| == 5
  {
    AcceptedTunable(list);
    ChannelsUpTo(list, |list|);
    assert ServicesOf(list)[..|list|] == ServicesOf(list) && RestoredAll(list)[..|list|] == RestoredAll(list);
    forall i | 0 <= i < |list|
      ensures Restored(list[i]) == list[i] <==> |list[i].pids| == 5
    {
      RestoredSame(list[i]);
    }
    hide Restored, ServicesOf, MuxesOf, ChannelsFrom, Accepted;
  }

  /** A channel with a sixth PID is accepted and comes back without it. */
  lemma SixthPidLost()
    ensures var list := [FORMER.(pids := FORMER.pids + [103])]; Accepted(list) && Channels(CatalogOf(list)) != list
  {
    var list := [FORMER.(pids := FORMER.pids + [103])];
    assert ValidChannel(list[0]) && |list[0].pids| == 6;
    hide Accepted, CatalogOf, Channels;
    assert Accepted(list) by { OneAccepted(list[0]); }
    CatalogRoundTrip(list);
  }

  lemma OneAccepted(c: Channel)
    requires ValidChannel(c)
    ensures Accepted([c])
  {
  }
}
