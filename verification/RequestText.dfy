/** Requests written as text: a request line, headers in any letter case, a blank
    line and a body, with interleaved frames between the lines; and what the
    reader makes of them. */
module RequestText {
  import opened Bytes
  import opened Text
  import opened Requests

  datatype Header = Header(name: string, value: string)

  datatype Written = Written(verb: string, uri: string, headers: seq<Header>)

  /** One byte per character and no line break. */
  predicate Plain(s: string) {
    forall i :: 0 <= i < |s| ==> s[i] as int < 256 && s[i] != '\r' && s[i] != '\n'
  }

  predicate ProperHeader(h: Header) {
    Plain(h.name) && Plain(h.value) && h.name != "" && ':' !in h.name && h.name[0] != '$'
  }

  predicate ProperText(t: Written) {
    && Plain(t.verb) && ' ' !in t.verb && (t.verb != "" ==> t.verb[0] != '$')
    && Plain(t.uri) && ' ' !in t.uri
    && forall i :: 0 <= i < |t.headers| ==> ProperHeader(t.headers[i])
  }

  function RequestLine(t: Written): string {
    t.verb + " " + t.uri + " RTSP/1.0"
  }

  function HeaderLine(h: Header): string {
    h.name + ":" + h.value
  }

  function HeaderTexts(headers: seq<Header>): (r: seq<string>)
    ensures |r| == |headers| && forall i :: 0 <= i < |r| ==> r[i] == HeaderLine(headers[i])
  {
    seq(|headers|, i requires 0 <= i < |headers| => HeaderLine(headers[i]))
  }

  /** Every line of the head but the blank one. */
  function TextLines(t: Written): seq<string> {
    [RequestLine(t)] + HeaderTexts(t.headers)
  }

  function Encoded(s: string): (r: seq<byte>)
    requires forall i :: 0 <= i < |s| ==> s[i] as int < 256
    ensures |r| == |s| && forall i :: 0 <= i < |r| ==> r[i] == s[i] as int
  {
    seq(|s|, i requires 0 <= i < |s| => s[i] as int)
  }

  predicate AllPlain(lines: seq<string>) {
    forall i :: 0 <= i < |lines| ==> Plain(lines[i])
  }

  function LineBytes(l: string): seq<byte>
    requires Plain(l)
  {
    Encoded(l) + [13, 10]
  }

  function LinesBytes(lines: seq<string>): (r: seq<seq<byte>>)
    requires AllPlain(lines)
    ensures |r| == |lines| && forall i :: 0 <= i < |r| ==> r[i] == LineBytes(lines[i])
  {
    seq(|lines|, i requires 0 <= i < |lines| => LineBytes(lines[i]))
  }

  /** The head as it goes over the wire, line by line. */
  function Head(t: Written): seq<seq<byte>>
    requires ProperText(t)
  {
    TextPlain(t);
    LinesBytes(TextLines(t)) + [[13, 10]]
  }

  lemma TextPlain(t: Written)
    requires ProperText(t)
    ensures AllPlain(TextLines(t))
  {
    assert Plain(RequestLine(t));
    forall i | 0 <= i < |t.headers|
      ensures Plain(HeaderLine(t.headers[i]))
    {
      assert ProperHeader(t.headers[i]);
    }
  }

  // ---------- what must be read

  function Folded(name: string): string {
    ToLower(TrimSpace(name))
  }

  /** The `i`-th header is the last of its name. */
  predicate LastOfName(headers: seq<Header>, i: nat) {
    i < |headers| && forall j :: i < j < |headers| ==> Folded(headers[j].name) != Folded(headers[i].name)
  }

  predicate Named(headers: seq<Header>, key: string) {
    exists i :: 0 <= i < |headers| && Folded(headers[i].name) == key
  }

  /** Exactly the folded names, each with the trimmed value of its last header. */
  ghost predicate Collects(headers: seq<Header>, m: map<string, string>) {
    && (forall key :: key in m <==> Named(headers, key))
    && (forall i :: 0 <= i < |headers| && LastOfName(headers, i) ==>
          Folded(headers[i].name) in m && m[Folded(headers[i].name)] == TrimSpace(headers[i].value))
  }

  /** Neither digits alone nor digits after a sign. */
  predicate NoNumber(s: string) {
    || s == "" || s == "+" || s == "-"
    || exists i :: 0 <= i < |s| && !IsDigit(s[i]) && (i > 0 || (s[0] != '+' && s[0] != '-'))
  }

  /** The headers announce a body of `n` bytes: the last length is the decimal of
      `n`; or there is none, or none that is a positive number, and `n` is 0. */
  predicate Announces(headers: seq<Header>, n: nat) {
    if Named(headers, "content-length") then
      exists i :: 0 <= i < |headers| && LastOfName(headers, i) && Folded(headers[i].name) == "content-length"
        && var v := TrimSpace(headers[i].value);
           v == Itoa(n) || (n == 0 && (NoNumber(v) || Negative(v)))
    else n == 0
  }

  predicate Negative(v: string) {
    |v| > 1 && v[0] == '-' && AllDigits(v[1..])
  }

  /** A name folds to lower case whatever its case and the blanks around it. */
  lemma FoldedIs(a: string, name: string, b: string, lower: string)
    requires Blank(a) && Blank(b) && Tight(name) && InSomeCase(name, lower)
    ensures Folded(a + name + b) == lower
  {
    hide TrimSpace;
    Trimmed(a, name, b);
  }

  // ---------- lines are found again

  lemma LineSplit(l: string, s: string)
    requires Plain(l)
    ensures SplitLines(l + "\r\n" + s) == [l] + SplitLines(s)
  {
    var all := l + "\r\n" + s;
    if l == "" {
      assert all[2..] == s;
    } else {
      assert all[1..] == l[1..] + "\r\n" + s;
      LineSplit(l[1..], s);
      assert [l[0]] + l[1..] == l;
    }
  }

  function TextOf(lines: seq<string>): string {
    if lines == [] then "" else lines[0] + "\r\n" + TextOf(lines[1..])
  }

  lemma {:induction false} TextSplit(lines: seq<string>)
    requires AllPlain(lines)
    ensures SplitLines(TextOf(lines)) == lines + [""]
  {
    hide SplitLines, Plain;
    if lines == [] {
      NothingSplit();
    } else {
      LineSplit(lines[0], TextOf(lines[1..]));
      TextSplit(lines[1..]);
      assert [lines[0]] + (lines[1..] + [""]) == lines + [""];
    }
  }

  lemma NothingSplit()
    ensures SplitLines("") == [""]
  {
  }

  lemma CharsAppend(a: seq<byte>, b: seq<byte>)
    ensures Chars(a + b) == Chars(a) + Chars(b)
  {
  }

  lemma LineChars(l: string)
    requires Plain(l)
    ensures Chars(LineBytes(l)) == l + "\r\n"
  {
  }

  lemma {:induction false} TextChars(lines: seq<string>)
    requires AllPlain(lines)
    ensures Chars(Concat(LinesBytes(lines))) == TextOf(lines)
  {
    hide Plain, Chars, LineBytes;
    if lines == [] {
      assert Concat(LinesBytes(lines)) == [];
      assert Chars([]) == "";
    } else {
      var rest := lines[1..];
      TextChars(rest);
      assert LinesBytes(lines) == [LineBytes(lines[0])] + LinesBytes(rest);
      ConcatFront(LineBytes(lines[0]), LinesBytes(rest));
      CharsAppend(LineBytes(lines[0]), Concat(LinesBytes(rest)));
      LineChars(lines[0]);
    }
  }

  lemma HeadText(t: Written)
    requires ProperText(t)
    ensures SplitLines(Chars(Concat(Head(t)))) == TextLines(t) + ["", ""]
  {
    hide SplitLines, Chars, Concat, Plain, LineBytes;
    TextPlain(t);
    var lines := TextLines(t) + [""];
    assert Plain("") by { PlainEmpty(); }
    assert Head(t) == LinesBytes(lines) by { BlankLine(); }
    TextChars(lines);
    TextSplit(lines);
    assert TextLines(t) + [""] + [""] == TextLines(t) + ["", ""];
  }

  lemma PlainEmpty()
    ensures Plain("")
  {
  }

  lemma BlankLine()
    ensures Plain("") && LineBytes("") == [13, 10]
  {
  }

  /** The request line gives its verb and its URI. */
  lemma RequestLineSplit(t: Written)
    requires ProperText(t)
    ensures Split(RequestLine(t), ' ') == [t.verb, t.uri, "RTSP/1.0"]
  {
    hide Split;
    var parts := [t.verb, t.uri, "RTSP/1.0"];
    assert Join(parts, ' ') == RequestLine(t) by {
      assert parts[1..] == [t.uri, "RTSP/1.0"] && parts[1..][1..] == ["RTSP/1.0"];
      assert Join(["RTSP/1.0"], ' ') == "RTSP/1.0";
      assert Join([t.uri, "RTSP/1.0"], ' ') == t.uri + [' '] + "RTSP/1.0";
      assert t.verb + [' '] + (t.uri + [' '] + "RTSP/1.0") == RequestLine(t);
    }
    SplitJoin(parts, ' ');
  }

  // ---------- headers

  lemma {:induction false} HeadersCollected(headers: seq<Header>)
    requires forall i :: 0 <= i < |headers| ==> ProperHeader(headers[i])
    ensures Collects(headers, HeadersOf(HeaderTexts(headers)))
  {
    hide Collects, HeadersOf, ProperHeader, HeaderLine, Folded, TrimSpace;
    if headers == [] {
      assert HeaderTexts(headers) == [];
      NothingCollected();
    } else {
      var n := |headers| - 1;
      var init, h := headers[..n], headers[n];
      HeadersCollected(init);
      assert HeaderTexts(headers)[..n] == HeaderTexts(init);
      HeaderAdded(HeaderTexts(init), h);
      assert HeaderTexts(init) + [HeaderLine(h)] == HeaderTexts(headers);
      assert init + [h] == headers;
      CollectsNext(init, h, HeadersOf(HeaderTexts(init)));
    }
  }

  lemma NothingCollected()
    ensures Collects([], HeadersOf([]))
  {
  }

  lemma HeaderAdded(lines: seq<string>, h: Header)
    requires ProperHeader(h)
    ensures HeadersOf(lines + [HeaderLine(h)]) == HeadersOf(lines)[Folded(h.name) := TrimSpace(h.value)]
  {
    hide TrimSpace, ToLower;
    var line := HeaderLine(h);
    assert (lines + [line])[..|lines|] == lines;
    FirstPart(h.name, ':', h.value);
    assert h.name + [':'] + h.value == line;
    assert line[..|h.name|] == h.name && line[|h.name| + 1..] == h.value;
  }

  lemma CollectsNext(init: seq<Header>, h: Header, m: map<string, string>)
    requires Collects(init, m)
    ensures Collects(init + [h], m[Folded(h.name) := TrimSpace(h.value)])
  {
    hide Folded, TrimSpace;
    var headers, n := init + [h], |init|;
    var after := m[Folded(h.name) := TrimSpace(h.value)];
    forall key
      ensures key in after <==> Named(headers, key)
    {
      if Named(init, key) {
        var i :| 0 <= i < |init| && Folded(init[i].name) == key;
        assert headers[i] == init[i];
      }
      assert headers[n] == h;
      if i :| 0 <= i < |headers| && Folded(headers[i].name) == key {
        assert i < n ==> headers[i] == init[i];
      }
    }
    forall i | 0 <= i < |headers| && LastOfName(headers, i)
      ensures Folded(headers[i].name) in after && after[Folded(headers[i].name)] == TrimSpace(headers[i].value)
    {
      if i < n {
        assert headers[n] == h && headers[i] == init[i];
        assert Folded(headers[n].name) != Folded(headers[i].name);
        assert forall j :: i < j < |init| ==> headers[j] == init[j];
        assert LastOfName(init, i);
      }
    }
  }

  lemma BlanksIgnored(lines: seq<string>)
    ensures HeadersOf(lines + ["", ""]) == HeadersOf(lines)
  {
    var a, b := lines + [""], lines + ["", ""];
    assert b[..|b| - 1] == a && a[..|a| - 1] == lines;
    assert b[|b| - 1] == "" && a[|a| - 1] == "";
    hide TrimSpace, ToLower;
    assert HeadersOf(b) == HeadersOf(a);
    assert HeadersOf(a) == HeadersOf(lines);
  }

  // ---------- the head is one

  lemma HeadIsOne(t: Written)
    requires ProperText(t)
    ensures HeadLines(Head(t)) && |Head(t)| == |t.headers| + 2
  {
    var head, n := Head(t), |TextLines(t)|;
    TextPlain(t);
    forall i | 0 <= i < n
      ensures IsLine(head[i]) && EndsLine(head[i]) && head[i] != [CR, LF]
    {
      TextLineProper(t, i);
    }
    hide IsLine, EndsLine, TextLines;
    assert IsLine([CR, LF]) by { BlankIsLine(); }
    assert head[n] == [CR, LF];
    assert forall k :: 0 <= k <= |head| ==> (BlankAfter(head, k) <==> k == |head|);
  }

  lemma BlankIsLine()
    ensures IsLine([CR, LF])
  {
  }

  lemma TextLineProper(t: Written, i: nat)
    requires ProperText(t) && i < |TextLines(t)| && AllPlain(TextLines(t))
    ensures var l := LineBytes(TextLines(t)[i]); IsLine(l) && EndsLine(l) && l != [CR, LF]
  {
    var s := TextLines(t)[i];
    if i > 0 {
      assert ProperHeader(t.headers[i - 1]);
      assert s == HeaderLine(t.headers[i - 1]) && s[0] == t.headers[i - 1].name[0];
    } else {
      assert s == RequestLine(t) && (t.verb != "" ==> s[0] == t.verb[0]) && (t.verb == "" ==> s[0] == ' ');
    }
    PlainLine(s);
  }

  lemma PlainLine(s: string)
    requires Plain(s) && s != "" && s[0] != '$'
    ensures IsLine(LineBytes(s)) && EndsLine(LineBytes(s)) && LineBytes(s) != [CR, LF]
  {
    assert |LineBytes(s)| > 2;
  }

  // ---------- the body

  lemma LengthAnnounced(headers: seq<Header>, m: map<string, string>, n: nat)
    requires Collects(headers, m) && Announces(headers, n)
    ensures (if "content-length" in m && Atoi(m["content-length"]).Some? && Atoi(m["content-length"]).value > 0
             then Atoi(m["content-length"]).value else 0) == n
  {
    hide Folded, TrimSpace, Atoi, Itoa, NoNumber, Negative;
    if Named(headers, "content-length") {
      var i :| 0 <= i < |headers| && LastOfName(headers, i) && Folded(headers[i].name) == "content-length"
        && var v := TrimSpace(headers[i].value);
           v == Itoa(n) || (n == 0 && (NoNumber(v) || Negative(v)));
      var v := TrimSpace(headers[i].value);
      assert m["content-length"] == v;
      AtoiItoa(n);
      NoNumberRead(v);
    }
  }

  lemma NoNumberRead(v: string)
    ensures NoNumber(v) ==> Atoi(v) == None
    ensures Negative(v) ==> Atoi(v).Some? && Atoi(v).value <= 0
  {
    hide DigitsValue;
    if Negative(v) {
      assert !IsDigit(v[0]);
    } else if |v| > 1 && NoNumber(v) {
      var i :| 0 <= i < |v| && !IsDigit(v[i]) && (i > 0 || (v[0] != '+' && v[0] != '-'));
      if i > 0 {
        assert v[1..][i - 1] == v[i];
      }
    }
  }

  // ---------- the theorem

  /** A request written as text is read as its verb, its URI and, under each
      folded name, the last trimmed value of that name; exactly the body its
      headers announce is consumed, and while the body is not complete there is
      no request. */
  lemma TextRead(t: Written, frames: seq<seq<Frame>>, n: nat, s: seq<byte>)
    requires ProperText(t) && |frames| == |t.headers| + 2 && AllFit(frames) && Announces(t.headers, n)
    ensures var r := ReadFrom(LinesOnWire(Head(t), frames) + s, []);
            if |s| < n then r == Ended
            else
              && r.Got? && r.rest == s[n..]
              && r.request.verb == t.verb && r.request.uri == t.uri && Collects(t.headers, r.request.headers)
  {
    hide ReadFrom, HeadLines, Collects, Announces, AllFit, Head, LinesOnWire, Finish, Concat;
    var head := Head(t);
    HeadIsOne(t);
    assert [] + head == head;
    NoLines();
    LinesRead([], head, frames, s);
    HeadParsed(t);
    TextFinished(t, n, s);
  }

  lemma NoLines()
    ensures Concat([]) == []
  {
  }

  lemma TextFinished(t: Written, n: nat, s: seq<byte>)
    requires ProperText(t) && Announces(t.headers, n)
    requires Collects(t.headers, ParseRequest(Concat(Head(t))).headers)
    ensures var head := Concat(Head(t));
            Finish(head, s) == if |s| < n then Ended else Got(ParseRequest(head), s[n..])
  {
    hide ParseRequest, Collects, Announces, Head, Concat, Atoi;
    LengthAnnounced(t.headers, ParseRequest(Concat(Head(t))).headers, n);
  }

  lemma HeadParsed(t: Written)
    requires ProperText(t)
    ensures var r := ParseRequest(Concat(Head(t)));
            r.verb == t.verb && r.uri == t.uri && Collects(t.headers, r.headers)
  {
    hide Split, SplitLines, Chars, Concat, HeadersOf, Head, Collects, ProperHeader;
    HeadText(t);
    RequestLineSplit(t);
    var lines := TextLines(t) + ["", ""];
    assert lines[0] == RequestLine(t) && lines[1..] == HeaderTexts(t.headers) + ["", ""];
    BlanksIgnored(HeaderTexts(t.headers));
    HeadersCollected(t.headers);
  }
}
