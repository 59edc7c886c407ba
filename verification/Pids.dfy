/** PID lists of a session: parsing, printing, and the update a PLAY request asks
    for, as set algebra with "all" on top. */
module Pids {
  import opened Bytes
  import opened Text

  /** A list of PIDs, or every PID. */
  datatype PidList = PidList(pids: seq<int>, all: bool)

  /** The same, as a set. */
  datatype PidSet = All | Only(pids: set<int>)

  function SetOf(s: seq<int>): set<int> {
    set x | x in s
  }

  function Denotes(l: PidList): PidSet {
    if l.all then All else Only(SetOf(l.pids))
  }

  predicate Ascending(s: seq<int>) {
    forall i, j :: 0 <= i < j < |s| ==> s[i] < s[j]
  }

  predicate NoDuplicates(s: seq<int>) {
    forall i, j :: 0 <= i < j < |s| ==> s[i] != s[j]
  }

  predicate IsPid(x: int) {
    0 <= x <= 8191
  }

  predicate AllPids(s: seq<int>) {
    forall x :: x in SetOf(s) ==> IsPid(x)
  }

  lemma AllPidsAt(s: seq<int>, i: nat)
    requires AllPids(s) && i < |s|
    ensures IsPid(s[i])
  {
    assert s[i] in SetOf(s);
  }

  /** Sorted, duplicate-free, in range, and empty in all-mode. */
  predicate Canonical(l: PidList) {
    && Ascending(l.pids)
    && AllPids(l.pids)
    && (l.all ==> l.pids == [])
  }

  // ---------- sorting

  function Insert(x: int, s: seq<int>): seq<int> {
    if s == [] || x <= s[0] then [x] + s else [s[0]] + Insert(x, s[1..])
  }

  function Sort(s: seq<int>): seq<int> {
    if s == [] then [] else Insert(s[0], Sort(s[1..]))
  }

  lemma {:induction false} InsertMembers(x: int, s: seq<int>)
    ensures SetOf(Insert(x, s)) == SetOf(s) + {x}
  {
    if s != [] && x > s[0] {
      InsertMembers(x, s[1..]);
      assert SetOf(s) == {s[0]} + SetOf(s[1..]);
      assert SetOf(Insert(x, s)) == {s[0]} + SetOf(Insert(x, s[1..]));
    }
  }

  lemma {:induction false} InsertAscends(x: int, s: seq<int>)
    requires Ascending(s) && x !in s
    ensures Ascending(Insert(x, s)) && SetOf(Insert(x, s)) == SetOf(s) + {x}
  {
    InsertMembers(x, s);
    hide Ascending, SetOf;
    if s != [] && x > s[0] {
      var r := Insert(x, s[1..]);
      TailAscends(s);
      InsertAscends(x, s[1..]);
      InsertMembers(x, s[1..]);
      Members(s[1..]);
      Members(r);
      FrontAscends(s[0], r);
    } else {
      if s != [] {
        TailAscends(s);
      }
      FrontAscends(x, s);
    }
  }

  lemma Members(s: seq<int>)
    ensures forall y :: y in s <==> y in SetOf(s)
  {
  }

  lemma TailAscends(s: seq<int>)
    requires Ascending(s) && s != []
    ensures Ascending(s[1..]) && (forall y :: y in s[1..] ==> s[0] < y) && forall y :: y in s ==>
        y == s[0] || y in s[1..]
  {
  }

  lemma FrontAscends(x: int, s: seq<int>)
    requires Ascending(s) && forall y :: y in s ==> x < y
    ensures Ascending([x] + s)
  {
    var r := [x] + s;
    forall i, j | 0 <= i < j < |r|
      ensures r[i] < r[j]
    {
      assert r[j] == s[j - 1] && s[j - 1] in s;
      assert i > 0 ==> r[i] == s[i - 1];
    }
  }

  lemma {:induction false} SortMembers(s: seq<int>)
    ensures SetOf(Sort(s)) == SetOf(s)
  {
    if s != [] {
      SortMembers(s[1..]);
      InsertMembers(s[0], Sort(s[1..]));
      assert SetOf(s) == {s[0]} + SetOf(s[1..]);
    }
  }

  lemma {:induction false} SortAscends(s: seq<int>)
    requires NoDuplicates(s)
    ensures Ascending(Sort(s)) && SetOf(Sort(s)) == SetOf(s)
  {
    if s != [] {
      SortAscends(s[1..]);
      assert s[0] !in s[1..];
      assert s[0] !in SetOf(Sort(s[1..]));
      InsertAscends(s[0], Sort(s[1..]));
    }
  }

  /** An ascending list is determined by its members. */
  lemma {:induction false} AscendingUnique(a: seq<int>, b: seq<int>)
    requires Ascending(a) && Ascending(b) && SetOf(a) == SetOf(b)
    ensures a == b
    decreases |a|
  {
    assert b != [] ==> b[0] in SetOf(b);
    if a != [] {
      assert a[0] in SetOf(b);
      assert b[0] in SetOf(a);
      assert a[0] == b[0];
      forall x
        ensures x in SetOf(a[1..]) <==> x in SetOf(b[1..])
      {
        assert x in a[1..] <==> x in a && x != a[0];
        assert x in b[1..] <==> x in b && x != b[0];
        assert x in SetOf(a) <==> x in SetOf(b);
      }
      AscendingUnique(a[1..], b[1..]);
    }
  }

  // ---------- parsing

  function ParsePid(part: string): Option<int> {
    match Atoi(TrimSpace(part))
    case None => None
    case Some(n) => if IsPid(n) then Some(n) else None
  }

  predicate Parseable(raw: string) {
    raw == "" || EqualFold(raw, "all") || forall i :: 0 <= i < |Split(raw, ',')| ==> ParsePid(Split(raw, ',')[i]).Some?
  }

  /** The numbers named by a comma-separated list. */
  function Named(parts: seq<string>): set<int>
    requires forall i :: 0 <= i < |parts| ==> ParsePid(parts[i]).Some?
  {
    set i | 0 <= i < |parts| :: ParsePid(parts[i]).value
  }

  function Meaning(raw: string): PidSet
    requires Parseable(raw)
  {
    if raw == "" then Only({}) else if EqualFold(raw, "all") then All else Only(Named(Split(raw, ',')))
  }

  method ParsePidList(raw: string) returns (r: Option<PidList>)
    ensures r.Some? <==> Parseable(raw)
    ensures r.Some? ==> Canonical(r.value) && Denotes(r.value) == Meaning(raw)
  {
    if raw == "" {
      return Some(PidList([], false));
    }
    if EqualFold(raw, "all") {
      return Some(PidList([], true));
    }
    hide ParsePid;
    var parts := Split(raw, ',');
    var seen: set<int> := {};
    var pids: seq<int> := [];
    for i := 0 to |parts|
      invariant forall j :: 0 <= j < i ==> ParsePid(parts[j]).Some?
      invariant NoDuplicates(pids) && seen == SetOf(pids) == Named(parts[..i])
      invariant AllPids(pids)
    {
      var pid := ParsePid(parts[i]);
      ParsedIsPid(parts[i]);
      if pid == None {
        return None;
      }
      NamedNext(parts, i);
      if pid.value !in seen {
        seen := seen + {pid.value};
        SetOfSnoc(pids, pid.value);
        pids := pids + [pid.value];
      }
    }
    assert parts[..|parts|] == parts;
    SortAscends(pids);
    var sorted := Sort(pids);
    return Some(PidList(sorted, false));
  }

  lemma ParsedIsPid(part: string)
    ensures ParsePid(part).Some? ==> IsPid(ParsePid(part).value)
  {
  }

  lemma SetOfSnoc(s: seq<int>, x: int)
    ensures SetOf(s + [x]) == SetOf(s) + {x}
  {
  }

  lemma NamedNext(parts: seq<string>, i: nat)
    requires i < |parts| && forall j :: 0 <= j <= i ==> ParsePid(parts[j]).Some?
    ensures Named(parts[..i + 1]) == Named(parts[..i]) + {ParsePid(parts[i]).value}
  {
    hide ParsePid;
    assert parts[..i + 1][i] == parts[i];
    assert forall j :: 0 <= j < i ==> parts[..i + 1][j] == parts[..i][j];
  }

  function Printed(s: seq<int>): (parts: seq<string>)
    requires AllPids(s)
    ensures |parts| == |s|
  {
    if s == [] then []
    else
      AllPidsAt(s, |s| - 1);
      assert forall x :: x in SetOf(s[..|s| - 1]) ==> x in SetOf(s);
      Printed(s[..|s| - 1]) + [Itoa(s[|s| - 1])]
  }

  /** What an RTCP report prints for a session. */
  function PrintPids(l: PidList): string
    requires AllPids(l.pids)
  {
    if l.all then "all" else Join(Printed(l.pids), ',')
  }

  lemma {:induction false} PrintedAt(s: seq<int>, i: nat)
    requires AllPids(s) && i < |s|
    ensures IsPid(s[i]) && Printed(s)[i] == Itoa(s[i])
  {
    AllPidsAt(s, i);
    if i < |s| - 1 {
      assert forall x :: x in SetOf(s[..|s| - 1]) ==> x in SetOf(s);
      PrintedAt(s[..|s| - 1], i);
    }
  }

  /** Parsing what is printed for any canonical list gives the list back. */
  lemma PrintParse(l: PidList)
    requires Canonical(l)
    ensures Parseable(PrintPids(l)) && Meaning(PrintPids(l)) == Denotes(l)
    ensures forall m :: Canonical(m) && Denotes(m) == Meaning(PrintPids(l)) ==> m == l
  {
    forall m | Canonical(m) && Denotes(m) == Denotes(l)
      ensures m == l
    {
      AscendingUnique(m.pids, l.pids);
    }
    if !l.all {
      if l.pids == [] {
        assert PrintPids(l) == "";
      } else {
        PrintedParts(l.pids);
      }
    }
  }

  lemma PrintedParts(pids: seq<int>)
    requires pids != [] && AllPids(pids)
    ensures var raw := PrintPids(PidList(pids, false));
            raw != "" && !EqualFold(raw, "all") && Parseable(raw) && Named(Split(raw, ',')) == SetOf(pids)
  {
    var parts := Printed(pids);
    var raw := Join(parts, ',');
    forall i | 0 <= i < |parts|
      ensures ',' !in parts[i] && ParsePid(parts[i]) == Some(pids[i]) && AllDigits(parts[i])
    {
      PrintedAt(pids, i);
      AtoiItoa(pids[i]);
      DigitsTrimmed(parts[i]);
    }
    hide ParsePid, AllPids, Printed;
    SplitJoin(parts, ',');
    StartsWithDigit(parts);
    assert Named(parts) == SetOf(pids) by {
      forall x
        ensures x in Named(parts) <==> x in SetOf(pids)
      {
        if x in SetOf(pids) {
          var i :| 0 <= i < |pids| && pids[i] == x;
          assert ParsePid(parts[i]).value == x;
        }
      }
    }
  }

  // ---------- updating

  /** The three lists a request may carry; "" stands for absent or empty. */
  datatype Update = Update(pids: string, addpids: string, delpids: string)

  function Plus(a: PidSet, b: PidSet): PidSet {
    if a.All? || b.All? then All else Only(a.pids + b.pids)
  }

  /** Deleting everything leaves nothing; deleting some from all is refused. */
  function Minus(a: PidSet, raw: string): Option<PidSet>
    requires Parseable(raw)
  {
    var gone := Meaning(raw);
    if raw == "" then Some(a)
    else if gone.All? then Some(Only({}))
    else if a.All? then None
    else Some(Only(a.pids - gone.pids))
  }

  /** The set algebra of an update: `None` when it is refused. */
  function Updated(old_: PidSet, u: Update): Option<PidSet> {
    if !Parseable(u.pids) || !Parseable(u.addpids) || !Parseable(u.delpids) then None
    else
      var base := if u.pids == "" then old_ else Meaning(u.pids);
      Minus(Plus(base, Meaning(u.addpids)), u.delpids)
  }

  /** A request without lists asks for what there is. */
  lemma NothingAsked(s: PidSet)
    ensures Updated(s, Update("", "", "")) == Some(s)
  {
    EmptyParses();
    hide Parseable, Meaning;
    assert s.Only? ==> s.pids + {} == s.pids;
  }

  function AddPid(s: seq<int>, pid: int): seq<int> {
    if pid in s then s else s + [pid]
  }

  function RemovePid(s: seq<int>, pid: int): seq<int> {
    if s == [] then []
    else
      var rest := RemovePid(s[..|s| - 1], pid);
      if s[|s| - 1] == pid then rest else rest + [s[|s| - 1]]
  }

  /** Filters the first `n` entries of a buffer in place and returns how many
      are left. */
  method RemoveInPlace(buf: array<int>, n: nat, pid: int) returns (m: nat)
    requires n <= buf.Length
    modifies buf
    ensures m <= n && buf[..m] == RemovePid(old(buf[..n]), pid)
  {
    ghost var s := buf[..n];
    m := 0;
    for i := 0 to n
      invariant m <= i && buf[..m] == RemovePid(s[..i], pid)
      invariant forall j :: i <= j < n ==> buf[j] == s[j]
    {
      assert s[..i + 1][..i] == s[..i];
      if buf[i] != pid {
        ghost var kept := buf[..m];
        buf[m] := buf[i];
        assert buf[..m + 1] == kept + [s[i]];
        m := m + 1;
      }
    }
    assert s[..n] == s;
  }

  lemma {:induction false} RemovePidFacts(s: seq<int>, pid: int)
    ensures SetOf(RemovePid(s, pid)) == SetOf(s) - {pid} && |RemovePid(s, pid)| <= |s|
    ensures NoDuplicates(s) ==> NoDuplicates(RemovePid(s, pid))
  {
    if s != [] {
      var init, last := s[..|s| - 1], s[|s| - 1];
      RemovePidFacts(init, pid);
      SetOfSnoc(init, last);
      assert init + [last] == s;
      var rest := RemovePid(init, pid);
      SetOfSnoc(rest, last);
      assert NoDuplicates(s) ==> last !in SetOf(init);
      assert forall x :: x in rest ==> x in SetOf(rest);
    }
  }

  lemma AddPidFacts(s: seq<int>, pid: int)
    ensures SetOf(AddPid(s, pid)) == SetOf(s) + {pid}
    ensures NoDuplicates(s) ==> NoDuplicates(AddPid(s, pid))
  {
    SetOfSnoc(s, pid);
  }

  /** A session's list: no duplicates, in range, and empty in all-mode. */
  predicate Listed(l: PidList) {
    NoDuplicates(l.pids) && AllPids(l.pids) && (l.all ==> l.pids == [])
  }

  /** `addPID`: writes behind the first `n` entries while there is room. */
  method AddInPlace(buf: array<int>, n: nat, pid: int) returns (r: array<int>, m: nat)
    requires n <= buf.Length
    modifies buf
    ensures (r == buf || fresh(r)) && m <= r.Length && r[..m] == AddPid(old(buf[..n]), pid)
  {
    for i := 0 to n
      invariant forall j :: 0 <= j < i ==> buf[j] != pid
    {
      if buf[i] == pid {
        assert buf[..n][i] == pid;
        return buf, n;
      }
    }
    r := buf;
    if n == buf.Length {
      r := new int[2 * n + 1](i requires 0 <= i < 2 * n + 1 reads buf => if i < n then buf[i] else 0);
    }
    ghost var kept := buf[..n];
    assert r[..n] == kept;
    r[n] := pid;
    assert r[..n + 1] == kept + [pid];
    m := n + 1;
  }

  method AddAll(buf: array<int>, n: nat, added: seq<int>) returns (r: array<int>, m: nat)
    requires n <= buf.Length
    modifies buf
    ensures (r == buf || fresh(r)) && m <= r.Length
    ensures NoDuplicates(old(buf[..n])) ==> NoDuplicates(r[..m])
    ensures SetOf(r[..m]) == SetOf(old(buf[..n])) + SetOf(added)
  {
    hide AddPid, SetOf, NoDuplicates;
    r, m := buf, n;
    ghost var pids := buf[..n];
    NothingIn();
    assert added[..0] == [];
    for i := 0 to |added|
      invariant (r == buf || fresh(r)) && m <= r.Length
      invariant NoDuplicates(pids) ==> NoDuplicates(r[..m])
      invariant SetOf(r[..m]) == SetOf(pids) + SetOf(added[..i])
    {
      AddPidFacts(r[..m], added[i]);
      SetOfSnoc(added[..i], added[i]);
      assert added[..i] + [added[i]] == added[..i + 1];
      r, m := AddInPlace(r, m, added[i]);
    }
    assert added[..|added|] == added;
  }

  method RemoveAll(buf: array<int>, n: nat, deleted: seq<int>) returns (m: nat)
    requires n <= buf.Length
    modifies buf
    ensures m <= buf.Length
    ensures NoDuplicates(old(buf[..n])) ==> NoDuplicates(buf[..m])
    ensures SetOf(buf[..m]) == SetOf(old(buf[..n])) - SetOf(deleted)
  {
    hide RemovePid, SetOf, NoDuplicates;
    m := n;
    ghost var pids := buf[..n];
    NothingIn();
    assert deleted[..0] == [];
    for i := 0 to |deleted|
      invariant m <= buf.Length && (NoDuplicates(pids) ==> NoDuplicates(buf[..m]))
      invariant SetOf(buf[..m]) == SetOf(pids) - SetOf(deleted[..i])
    {
      RemovePidFacts(buf[..m], deleted[i]);
      SetOfSnoc(deleted[..i], deleted[i]);
      assert deleted[..i] + [deleted[i]] == deleted[..i + 1];
      m := RemoveInPlace(buf, m, deleted[i]);
    }
    assert deleted[..|deleted|] == deleted;
  }

  lemma NothingIn()
    ensures SetOf([]) == {}
  {
  }

  method CopyOf(s: seq<int>) returns (buf: array<int>)
    ensures fresh(buf) && buf[..] == s
  {
    buf := new int[|s|](i requires 0 <= i < |s| => s[i]);
  }

  /** The list an update begins with, in a buffer of its own. */
  method Replaced(stored: array<int>, all: bool, raw: string) returns (r: Option<(array<int>, bool)>)
    requires all ==> stored[..] == []
    ensures stored[..] == old(stored[..])
    ensures r.Some? <==> Parseable(raw)
    ensures r.Some? ==>
              && fresh(r.value.0) && (r.value.1 ==> r.value.0[..] == [])
              && Denotes(PidList(r.value.0[..], r.value.1))
                 == (if raw == "" then Denotes(PidList(stored[..], all)) else Meaning(raw))
              && (NoDuplicates(stored[..]) ==> NoDuplicates(r.value.0[..]))
  {
    hide Parseable, NoDuplicates, Ascending;
    EmptyParses();
    if raw == "" {
      var copy := CopyOf(stored[..]);
      return Some((copy, all));
    }
    var list := ParsePidList(raw);
    if list == None {
      return None;
    }
    AscendingNoDuplicates(list.value.pids);
    var next := CopyOf(list.value.pids);
    return Some((next, list.value.all));
  }

  method Extended(buf: array<int>, n: nat, all: bool, raw: string) returns (r: Option<(array<int>, nat, bool)>)
    requires n <= buf.Length && (all ==> buf[..n] == [])
    modifies buf
    ensures r.Some? <==> Parseable(raw)
    ensures r.Some? ==>
              var (next, m, every) := r.value;
              && (next == buf || fresh(next)) && m <= next.Length && (every ==> next[..m] == [])
              && Denotes(PidList(next[..m], every)) == Plus(old(Denotes(PidList(buf[..n], all))), Meaning(raw))
              && (NoDuplicates(old(buf[..n])) ==> NoDuplicates(next[..m]))
  {
    hide Parseable, NoDuplicates, SetOf;
    EmptyParses();
    NoneDuplicate();
    if raw == "" {
      assert SetOf(buf[..n]) + {} == SetOf(buf[..n]);
      return Some((buf, n, all));
    }
    var added := ParsePidList(raw);
    if added == None {
      return None;
    }
    if added.value.all || all {
      return Some((buf, 0, true));
    }
    var next, m := AddAll(buf, n, added.value.pids);
    return Some((next, m, false));
  }

  /** Removes in place; `None` when the removal is refused. */
  method Reduced(buf: array<int>, n: nat, all: bool, raw: string) returns (r: Option<(nat, bool)>)
    requires n <= buf.Length && (all ==> buf[..n] == [])
    modifies buf
    ensures r.Some? <==> Parseable(raw) && Minus(old(Denotes(PidList(buf[..n], all))), raw).Some?
    ensures r.Some? ==>
              var (m, every) := r.value;
              && m <= buf.Length && (every ==> buf[..m] == [])
              && Some(Denotes(PidList(buf[..m], every))) == Minus(old(Denotes(PidList(buf[..n], all))), raw)
              && (NoDuplicates(old(buf[..n])) ==> NoDuplicates(buf[..m]))
  {
    hide Parseable, NoDuplicates, SetOf;
    EmptyParses();
    NoneDuplicate();
    NothingIn();
    if raw == "" {
      return Some((n, all));
    }
    var deleted := ParsePidList(raw);
    if deleted == None {
      return None;
    }
    if deleted.value.all {
      return Some((0, false));
    }
    if all {
      return None;
    }
    var m := RemoveAll(buf, n, deleted.value.pids);
    return Some((m, false));
  }

  /** The update refines the set algebra: it succeeds exactly when the algebra
      does and the list it returns denotes the result; from a list without
      duplicates it makes a sorted one without duplicates. The stored list is
      copied once, and additions and removals write only the copy. */
  method UpdateStored(stored: array<int>, all: bool, u: Update) returns (r: Option<PidList>)
    requires all ==> stored[..] == []
    ensures stored[..] == old(stored[..])
    ensures r.Some? <==> Updated(Denotes(PidList(stored[..], all)), u).Some?
    ensures r.Some? ==>
              && Denotes(r.value) == Updated(Denotes(PidList(stored[..], all)), u).value
              && (r.value.all ==> r.value.pids == [])
    ensures r.Some? && NoDuplicates(stored[..]) ==> Ascending(r.value.pids)
  {
    hide Parseable, NoDuplicates, Sort, SetOf, Plus, Minus, Ascending;
    ghost var before := stored[..];
    var replaced := Replaced(stored, all, u.pids);
    if replaced == None {
      return None;
    }
    var (base, every) := replaced.value;
    assert base[..base.Length] == base[..];
    var extended := Extended(base, base.Length, every, u.addpids);
    if extended == None {
      return None;
    }
    var (next, n, most) := extended.value;
    var reduced := Reduced(next, n, most, u.delpids);
    if reduced == None {
      return None;
    }
    var (m, left) := reduced.value;
    Sorted(next[..m]);
    return Some(PidList(Sort(next[..m]), left));
  }

  lemma MeaningInRange(raw: string)
    requires Parseable(raw)
    ensures Meaning(raw).Only? ==> forall x :: x in Meaning(raw).pids ==> IsPid(x)
  {
    hide ParsePid;
    var parts := Split(raw, ',');
    forall i | 0 <= i < |parts|
      ensures ParsePid(parts[i]).Some? ==> IsPid(ParsePid(parts[i]).value)
    {
      ParsedIsPid(parts[i]);
    }
  }

  /** An update leads out of the PIDs there are no more than its parts do. */
  lemma UpdatedInRange(s: PidSet, u: Update)
    requires s.Only? ==> forall x :: x in s.pids ==> IsPid(x)
    ensures var r := Updated(s, u); r.Some? && r.value.Only? ==> forall x :: x in r.value.pids ==> IsPid(x)
  {
    hide Parseable, Meaning;
    if Parseable(u.pids) && Parseable(u.addpids) {
      MeaningInRange(u.pids);
      MeaningInRange(u.addpids);
    }
  }

  lemma UpdatedCanonical(before: PidList, u: Update, r: PidList)
    requires Listed(before) && Ascending(r.pids) && (r.all ==> r.pids == [])
    requires Updated(Denotes(before), u) == Some(Denotes(r))
    ensures Canonical(r)
  {
    hide Updated, Ascending, NoDuplicates;
    UpdatedInRange(Denotes(before), u);
  }

  lemma Sorted(s: seq<int>)
    ensures SetOf(Sort(s)) == SetOf(s) && (s == [] ==> Sort(s) == []) && (NoDuplicates(s) ==> Ascending(Sort(s)))
  {
    SortMembers(s);
    if NoDuplicates(s) {
      SortAscends(s);
    }
  }

  /** The same for a list that is a value. */
  method UpdateList(current: PidList, u: Update) returns (r: Option<PidList>)
    requires current.all ==> current.pids == []
    ensures r.Some? <==> Updated(Denotes(current), u).Some?
    ensures r.Some? ==> Denotes(r.value) == Updated(Denotes(current), u).value && (r.value.all ==> r.value.pids == [])
    ensures r.Some? && Listed(current) ==> Canonical(r.value)
  {
    hide Updated, Denotes, Canonical, NoDuplicates, AllPids, Ascending;
    var stored := CopyOf(current.pids);
    r := UpdateStored(stored, current.all, u);
    if r.Some? && Listed(current) {
      UpdatedCanonical(current, u, r.value);
    }
  }

  lemma EmptyParses()
    ensures Parseable("") && Meaning("") == Only({})
  {
  }

  lemma NoneDuplicate()
    ensures NoDuplicates([]) && Sort([]) == []
  {
  }

  lemma AscendingNoDuplicates(s: seq<int>)
    requires Ascending(s)
    ensures NoDuplicates(s)
  {
  }
}
