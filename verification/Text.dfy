/** The few string operations the lab relies on: decimal numbers, splitting and
    joining, trimming and case folding, all over ASCII. */
module Text {
  import opened Bytes

  predicate IsDigit(c: char) {
    '0' <= c <= '9'
  }

  function DigitChar(d: nat): char
    requires d < 10
  {
    '0' + d as char
  }

  function DigitValue(c: char): nat
    requires IsDigit(c)
  {
    c as int - '0' as int
  }

  /** Decimal digits of a natural number, as `%d` prints it. */
  function Itoa(n: nat): (s: string)
    ensures s != "" && forall i :: 0 <= i < |s| ==> IsDigit(s[i])
  {
    if n < 10 then [DigitChar(n)] else Itoa(n / 10) + [DigitChar(n % 10)]
  }

  predicate AllDigits(s: string) {
    s != "" && forall i :: 0 <= i < |s| ==> IsDigit(s[i])
  }

  function DigitsValue(s: string): nat
    requires forall i :: 0 <= i < |s| ==> IsDigit(s[i])
  {
    if s == "" then 0 else DigitsValue(s[..|s| - 1]) * 10 + DigitValue(s[|s| - 1])
  }

  /** An optional sign and at least one digit. */
  function Atoi(s: string): Option<int> {
    if AllDigits(s) then Some(DigitsValue(s))
    else if s != "" && (s[0] == '+' || s[0] == '-') && AllDigits(s[1..]) then
      Some(if s[0] == '-' then -(DigitsValue(s[1..]) as int) else DigitsValue(s[1..]))
    else None
  }

  lemma {:induction false} ItoaValue(n: nat)
    ensures DigitsValue(Itoa(n)) == n
  {
    if n >= 10 {
      ItoaValue(n / 10);
      var s := Itoa(n);
      assert s[..|s| - 1] == Itoa(n / 10);
    } else {
      assert Itoa(n)[..0] == "";
    }
  }

  lemma AtoiItoa(n: nat)
    ensures Atoi(Itoa(n)) == Some(n)
  {
    ItoaValue(n);
  }

  /** `%d` of any integer. */
  function Decimal(n: int): string {
    if n < 0 then "-" + Itoa(-n) else Itoa(n)
  }

  lemma AtoiDecimal(n: int)
    ensures Atoi(Decimal(n)) == Some(n)
  {
    hide Itoa, DigitsValue;
    var digits := Itoa(if n < 0 then -n else n);
    ItoaValue(if n < 0 then -n else n);
    assert AllDigits(digits);
    if n < 0 {
      assert Decimal(n)[0] == '-' && Decimal(n)[1..] == digits;
    }
  }

  // ---------- spaces and case

  predicate IsSpace(c: char) {
    c == ' ' || c == '\t' || c == '\n' || c == '\r' || c as int == 11 || c as int == 12
  }

  function TrimLeft(s: string): string {
    if s != "" && IsSpace(s[0]) then TrimLeft(s[1..]) else s
  }

  function TrimRight(s: string): string {
    if s != "" && IsSpace(s[|s| - 1]) then TrimRight(s[..|s| - 1]) else s
  }

  function TrimSpace(s: string): string {
    TrimRight(TrimLeft(s))
  }

  function LowerChar(c: char): char {
    if 'A' <= c <= 'Z' then c + 32 as char else c
  }

  function ToLower(s: string): (r: string)
    ensures |r| == |s|
  {
    seq(|s|, i requires 0 <= i < |s| => LowerChar(s[i]))
  }

  predicate EqualFold(a: string, b: string) {
    ToLower(a) == ToLower(b)
  }

  lemma DigitsTrimmed(s: string)
    requires AllDigits(s)
    ensures TrimSpace(s) == s
  {
  }

  // ---------- what folding and trimming are

  predicate Blank(s: string) {
    forall i :: 0 <= i < |s| ==> s[i] in " \t\n\r" || s[i] as int == 11 || s[i] as int == 12
  }

  predicate Tight(s: string) {
    s != "" ==> !Blank(s[..1]) && !Blank(s[|s| - 1..])
  }

  /** Trimming takes the blanks off both ends and nothing else. */
  lemma {:induction false} Trimmed(a: string, s: string, b: string)
    requires Blank(a) && Blank(b) && Tight(s)
    ensures TrimSpace(a + s + b) == s
    decreases |a| + |b|
  {
    if a != "" {
      assert (a + s + b)[1..] == a[1..] + s + b;
      Trimmed(a[1..], s, b);
    } else if s == "" {
      TrimmedToNothing(b);
      assert a + s + b == b;
    } else {
      assert a + s + b == s + b;
      assert s[..1] == [s[0]] && TrimLeft(s + b) == s + b;
      RightTrimmed(s, b);
    }
  }

  lemma {:induction false} TrimmedToNothing(b: string)
    requires Blank(b)
    ensures TrimLeft(b) == ""
  {
    if b != "" {
      TrimmedToNothing(b[1..]);
    }
  }

  lemma {:induction false} RightTrimmed(s: string, b: string)
    requires Blank(b) && s != "" && !Blank(s[|s| - 1..])
    ensures TrimRight(s + b) == s
  {
    var all := s + b;
    if b == "" {
      assert all == s && s[|s| - 1..] == [s[|s| - 1]];
    } else {
      assert all[..|all| - 1] == s + b[..|b| - 1] && all[|all| - 1] == b[|b| - 1];
      RightTrimmed(s, b[..|b| - 1]);
    }
  }

  /** `name` is `lower`, some of its letters written as capitals. */
  predicate InSomeCase(name: string, lower: string) {
    |name| == |lower| && forall i :: 0 <= i < |name| ==>
      if 'a' <= lower[i] <= 'z' then name[i] == lower[i] || name[i] as int == lower[i] as int - 32
      else name[i] == lower[i] && !('A' <= name[i] <= 'Z')
  }

  /** Lower case is all that folding leaves. */
  lemma LowerIs(name: string, lower: string)
    requires InSomeCase(name, lower)
    ensures ToLower(name) == lower
  {
  }

  // ---------- splitting and joining

  /** The index of the first `c`, or the length. */
  function IndexOf(s: string, c: char): (i: nat)
    ensures i <= |s| && (forall j :: 0 <= j < i ==> s[j] != c) && (i < |s| ==> s[i] == c)
  {
    if s == "" || s[0] == c then 0 else 1 + IndexOf(s[1..], c)
  }

  function Split(s: string, c: char): (parts: seq<string>)
    ensures parts != []
    decreases |s|
  {
    var i := IndexOf(s, c);
    if i == |s| then [s] else [s[..i]] + Split(s[i + 1..], c)
  }

  function Join(parts: seq<string>, c: char): string {
    if parts == [] then "" else if |parts| == 1 then parts[0] else parts[0] + [c] + Join(parts[1..], c)
  }

  lemma FirstPart(a: string, c: char, rest: string)
    requires c !in a
    ensures IndexOf(a + [c] + rest, c) == |a|
  {
    var s := a + [c] + rest;
    assert forall j :: 0 <= j < |a| ==> s[j] == a[j] && s[j] != c;
    assert s[|a|] == c;
  }

  /** Parts without the separator are found again. */
  lemma {:induction false} SplitJoin(parts: seq<string>, c: char)
    requires parts != [] && forall i :: 0 <= i < |parts| ==> c !in parts[i]
    ensures Split(Join(parts, c), c) == parts
  {
    if |parts| > 1 {
      var rest := Join(parts[1..], c);
      var s := parts[0] + [c] + rest;
      FirstPart(parts[0], c, rest);
      assert s[..|parts[0]|] == parts[0] && s[|parts[0]| + 1..] == rest;
      SplitJoin(parts[1..], c);
    }
  }

  /** A list of numbers is neither empty nor the word for all of them. */
  lemma StartsWithDigit(parts: seq<string>)
    requires parts != [] && AllDigits(parts[0])
    ensures Join(parts, ',') != "" && !EqualFold(Join(parts, ','), "all")
  {
    var raw := Join(parts, ',');
    assert raw[0] == parts[0][0];
    assert ToLower(raw)[0] == raw[0] && ToLower("all")[0] == 'a';
  }
}
