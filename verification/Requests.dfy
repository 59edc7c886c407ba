/** Reading requests from a connection on which interleaved binary frames may
    arrive between the lines (section 10.12 of RFC 2326). */
module Requests {
  import opened Bytes
  import opened Text

  const LF: byte := 10
  const CR: byte := 13
  const DOLLAR: byte := 36

  datatype Request = Request(verb: string, uri: string, headers: map<string, string>)

  // ---------- the text of a request

  function Chars(s: seq<byte>): (r: string)
    ensures |r| == |s|
  {
    seq(|s|, i requires 0 <= i < |s| => s[i] as char)
  }

  /** Splits at every CR LF. */
  function SplitLines(s: string): (lines: seq<string>)
    ensures lines != []
  {
    if |s| < 2 then [s]
    else if s[0] == '\r' && s[1] == '\n' then [""] + SplitLines(s[2..])
    else
      var rest := SplitLines(s[1..]);
      [[s[0]] + rest[0]] + rest[1..]
  }

  function HeadersOf(lines: seq<string>): map<string, string> {
    if lines == [] then map[]
    else
      var before, line := HeadersOf(lines[..|lines| - 1]), lines[|lines| - 1];
      var i := IndexOf(line, ':');
      if i == |line| || i == 0 then before
      else before[ToLower(TrimSpace(line[..i])) := TrimSpace(line[i + 1..])]
  }

  function ParseRequest(head: seq<byte>): Request {
    var lines := SplitLines(Chars(head));
    var parts := Split(lines[0], ' ');
    Request(parts[0], if |parts| > 1 then parts[1] else "/", HeadersOf(lines[1..]))
  }

  /** How many bytes of body follow the head; a bad length counts as none. */
  function BodyLength(head: seq<byte>): nat {
    var headers := ParseRequest(head).headers;
    var n := if "content-length" in headers then Atoi(headers["content-length"]) else None;
    if n.Some? && n.value > 0 then n.value else 0
  }

  predicate EndsHead(head: seq<byte>) {
    var n := |head|;
    n >= 4 && head[n - 4] == CR && head[n - 3] == LF && head[n - 2] == CR && head[n - 1] == LF
  }

  // ---------- reading

  datatype Outcome = Got(request: Request, rest: seq<byte>) | Ended

  /** The position of the first line feed, or the length. */
  function LineEnd(s: seq<byte>): (i: nat)
    ensures i <= |s| && (i < |s| ==> s[i] == LF) && (forall j :: 0 <= j < i ==> s[j] != LF)
  {
    if s == [] || s[0] == LF then 0 else 1 + LineEnd(s[1..])
  }

  /** What is left after the frame at the front. */
  function Discarded(s: seq<byte>): (r: Option<seq<byte>>)
    ensures r.Some? ==> |r.value| < |s|
  {
    if |s| < 4 then None
    else
      var n := s[2] as int * 256 + s[3] as int;
      if |s| < 4 + n then None else Some(s[4 + n..])
  }

  /** One request read from `s`, given the lines read before. */
  function ReadFrom(s: seq<byte>, head: seq<byte>): Outcome
    decreases |s|
  {
    if s == [] then Ended
    else if s[0] == DOLLAR then
      var r := Discarded(s);
      if r == None then Ended else ReadFrom(r.value, head)
    else
      var i := LineEnd(s);
      if i == |s| then Ended
      else
        var more := head + s[..i + 1];
        if EndsHead(more) then Finish(more, s[i + 1..]) else ReadFrom(s[i + 1..], more)
  }

  function Finish(head: seq<byte>, s: seq<byte>): Outcome {
    if |s| < BodyLength(head) then Ended else Got(ParseRequest(head), s[BodyLength(head)..])
  }

  /** `n` requests read one after the other, and what is left. */
  function ReadMany(s: seq<byte>, n: nat): Option<(seq<Request>, seq<byte>)>
    decreases n
  {
    if n == 0 then Some(([], s))
    else
      match ReadFrom(s, [])
      case Ended => None
      case Got(request, rest) =>
        match ReadMany(rest, n - 1)
        case None => None
        case Some((requests, left)) => Some(([request] + requests, left))
  }

  // ---------- well-formed messages

  datatype Message = Message(lines: seq<seq<byte>>, body: seq<byte>)

  datatype Frame = Frame(channel: byte, payload: seq<byte>)

  function Concat(parts: seq<seq<byte>>): seq<byte> {
    if parts == [] then [] else Concat(parts[..|parts| - 1]) + parts[|parts| - 1]
  }

  /** One line, up to and with its line feed. No line of a request begins with
      a dollar sign. */
  predicate IsLine(l: seq<byte>) {
    l != [] && l[|l| - 1] == LF && l[0] != DOLLAR && forall i :: 0 <= i < |l| - 1 ==> l[i] != LF
  }

  predicate EndsLine(l: seq<byte>) {
    |l| >= 2 && l[|l| - 2] == CR && l[|l| - 1] == LF
  }

  /** The first `k` lines end with an empty one. */
  predicate BlankAfter(lines: seq<seq<byte>>, k: nat) {
    2 <= k <= |lines| && lines[k - 1] == [CR, LF] && EndsLine(lines[k - 2])
  }

  /** The only empty line is the last. */
  predicate HeadLines(lines: seq<seq<byte>>) {
    && (forall i :: 0 <= i < |lines| ==> IsLine(lines[i]))
    && (forall k :: 0 <= k <= |lines| ==> (BlankAfter(lines, k) <==> k == |lines|))
  }

  /** The body is as long as the head announces. */
  predicate WellFormed(m: Message) {
    HeadLines(m.lines) && |m.body| == BodyLength(Concat(m.lines))
  }

  /** `interleavedFrame`. */
  function FrameBytes(f: Frame): seq<byte> {
    [DOLLAR, f.channel, |f.payload| / 256 % 256, |f.payload| % 256] + f.payload
  }

  method InterleavedFrame(channel: int, packet: seq<byte>) returns (frame: array<byte>)
    ensures fresh(frame) && frame[..] == FrameBytes(Frame(channel % 256, packet))
  {
    frame := new byte[4 + |packet|](_ => 0);
    frame[0] := DOLLAR;
    frame[1] := channel % 256;
    frame[2] := |packet| / 256 % 256;
    frame[3] := |packet| % 256;
    for i := 0 to |packet|
      invariant frame[..4] == FrameBytes(Frame(channel % 256, packet))[..4]
      invariant frame[4..4 + i] == packet[..i]
    {
      frame[4 + i] := packet[i];
    }
    assert frame[..] == frame[..4] + frame[4..4 + |packet|];
  }

  predicate Fits(f: Frame) {
    |f.payload| < 0x1_0000
  }

  function FramesBytes(fs: seq<Frame>): seq<byte> {
    if fs == [] then [] else FrameBytes(fs[0]) + FramesBytes(fs[1..])
  }

  /** The lines, each preceded by its frames. */
  function LinesOnWire(lines: seq<seq<byte>>, frames: seq<seq<Frame>>): seq<byte>
    requires |lines| == |frames|
  {
    if lines == [] then [] else FramesBytes(frames[0]) + (lines[0] + LinesOnWire(lines[1..], frames[1..]))
  }

  predicate AllFit(frames: seq<seq<Frame>>) {
    forall i, j :: 0 <= i < |frames| && 0 <= j < |frames[i]| ==> Fits(frames[i][j])
  }

  /** A message together with the frames that arrive between its lines. */
  datatype Sent = Sent(message: Message, frames: seq<seq<Frame>>)

  predicate Proper(x: Sent) {
    WellFormed(x.message) && |x.frames| == |x.message.lines| && AllFit(x.frames)
  }

  function OnWire(x: Sent): seq<byte> {
    if |x.message.lines| != |x.frames| then [] else LinesOnWire(x.message.lines, x.frames) + x.message.body
  }

  function AllOnWire(xs: seq<Sent>): seq<byte> {
    if xs == [] then [] else OnWire(xs[0]) + AllOnWire(xs[1..])
  }

  function RequestsOf(xs: seq<Sent>): seq<Request> {
    if xs == [] then [] else [ParseRequest(Concat(xs[0].message.lines))] + RequestsOf(xs[1..])
  }

  // ---------- frames are consumed exactly

  lemma TwoByteLength(n: nat)
    ensures n / 256 % 256 * 256 + n % 256 == n % 0x1_0000
  {
  }

  /** A frame is skipped to its last byte exactly when its length fits the two
      bytes that carry it. */
  lemma FrameSkipped(f: Frame, rest: seq<byte>)
    ensures Discarded(FrameBytes(f) + rest) == Some(rest) <==> Fits(f)
  {
    var s, n := FrameBytes(f) + rest, |f.payload|;
    var carried := n / 256 % 256 * 256 + n % 256;
    assert s[2] as int * 256 + s[3] as int == carried;
    TwoByteLength(n);
    if Fits(f) {
      assert s[4 + n..] == rest;
    } else {
      assert carried < n;
      assert |s[4 + carried..]| > |rest|;
    }
  }

  /** A frame of 65536 bytes announces none. */
  lemma LongFrameNotSkipped()
    ensures Discarded(FrameBytes(Frame(0, seq(0x1_0000, _ => 0)))) != Some([])
  {
    hide Discarded, FrameBytes;
    var f := Frame(0, seq(0x1_0000, _ => 0));
    FrameSkipped(f, []);
    assert FrameBytes(f) + [] == FrameBytes(f);
  }

  lemma {:induction false} FramesSkipped(fs: seq<Frame>, s: seq<byte>, head: seq<byte>)
    requires forall i :: 0 <= i < |fs| ==> Fits(fs[i])
    ensures ReadFrom(FramesBytes(fs) + s, head) == ReadFrom(s, head)
  {
    hide FrameBytes, Discarded, EndsHead, BodyLength, ParseRequest;
    if fs == [] {
      assert FramesBytes(fs) + s == s;
    } else {
      var rest := FramesBytes(fs[1..]) + s;
      assert FramesBytes(fs) + s == FrameBytes(fs[0]) + rest;
      FrameSkipped(fs[0], rest);
      FrameStarts(fs[0]);
      FramesSkipped(fs[1..], s, head);
    }
  }

  lemma FrameStarts(f: Frame)
    ensures FrameBytes(f) != [] && FrameBytes(f)[0] == DOLLAR
  {
  }

  // ---------- lines

  lemma LineRead(l: seq<byte>, s: seq<byte>, head: seq<byte>)
    requires IsLine(l)
    ensures ReadFrom(l + s, head) == if EndsHead(head + l) then Finish(head + l, s) else ReadFrom(s, head + l)
  {
    hide EndsHead, Finish;
    assert LineEnd(l + s) == |l| - 1 by {
      assert forall i :: 0 <= i < |l| - 1 ==> (l + s)[i] == l[i];
      assert (l + s)[|l| - 1] == LF;
    }
    assert (l + s)[..|l|] == l && (l + s)[|l|..] == s;
  }

  /** A head ends where its lines have an empty one. */
  lemma HeadEnds(lines: seq<seq<byte>>, k: nat)
    requires k <= |lines| && forall i :: 0 <= i < |lines| ==> IsLine(lines[i])
    ensures EndsHead(Concat(lines[..k])) <==> BlankAfter(lines, k)
  {
    if k >= 1 {
      var head, last := Concat(lines[..k - 1]), lines[k - 1];
      assert lines[..k][..k - 1] == lines[..k - 1];
      assert Concat(lines[..k]) == head + last;
      if k == 1 {
        assert Concat(lines[..k]) == last;
        OneLine(last);
      } else {
        var before, line := Concat(lines[..k - 2]), lines[k - 2];
        assert lines[..k - 1][..k - 2] == lines[..k - 2];
        assert head == before + line;
        ConcatEnds(lines[..k - 2]);
        TwoLines(before, line, last);
      }
    }
  }

  lemma OneLine(l: seq<byte>)
    requires IsLine(l)
    ensures !EndsHead(l)
  {
  }

  lemma ConcatEnds(lines: seq<seq<byte>>)
    requires forall i :: 0 <= i < |lines| ==> IsLine(lines[i])
    ensures var s := Concat(lines); s == [] || s[|s| - 1] == LF
  {
  }

  lemma TwoLines(before: seq<byte>, line: seq<byte>, last: seq<byte>)
    requires IsLine(line) && IsLine(last) && (before == [] || before[|before| - 1] == LF)
    ensures EndsHead(before + line + last) <==> last == [CR, LF] && EndsLine(line)
  {
    var s := before + line + last;
    var n := |s|;
    assert s[n - 1] == last[|last| - 1];
    assert |last| >= 2 ==> s[n - 2] == last[|last| - 2];
    assert |last| >= 3 ==> s[n - 3] == last[|last| - 3];
    assert |last| == 1 ==> s[n - 2] == line[|line| - 1];
    assert |last| == 2 ==> s[n - 3] == line[|line| - 1];
    assert |last| == 2 && |line| >= 2 ==> s[n - 4] == line[|line| - 2];
    assert |last| == 2 && |line| == 1 && before != [] ==> s[n - 4] == before[|before| - 1];
  }

  lemma ConcatMore(done: seq<seq<byte>>, l: seq<byte>)
    ensures Concat(done + [l]) == Concat(done) + l
  {
    assert (done + [l])[..|done|] == done;
  }

  lemma WireFront(lines: seq<seq<byte>>, frames: seq<seq<Frame>>, s: seq<byte>)
    requires |lines| == |frames| && lines != []
    ensures LinesOnWire(lines, frames) + s
        == FramesBytes(frames[0]) + (lines[0] + (LinesOnWire(lines[1..], frames[1..]) + s))
  {
    hide FramesBytes;
  }

  /** One line after those already read: it ends the head or is kept. */
  lemma NextLineRead(done: seq<seq<byte>>, all: seq<seq<byte>>, fs: seq<Frame>, rest: seq<byte>)
    requires HeadLines(all) && |done| < |all| && all[..|done|] == done && forall i :: 0 <= i < |fs| ==> Fits(fs[i])
    ensures var next := done + [all[|done|]];
            ReadFrom(FramesBytes(fs) + (all[|done|] + rest), Concat(done))
            == if |next| == |all| then Finish(Concat(next), rest) else ReadFrom(rest, Concat(next))
  {
    hide ReadFrom, Finish, EndsHead, IsLine, BlankAfter, Fits, FramesBytes, Concat;
    var l := all[|done|];
    FramesSkipped(fs, l + rest, Concat(done));
    LineRead(l, rest, Concat(done));
    ConcatMore(done, l);
    assert all[..|done| + 1] == done + [l];
    HeadEnds(all, |done| + 1);
  }

  lemma {:induction false} LinesRead(done: seq<seq<byte>>, lines: seq<seq<byte>>, frames: seq<seq<Frame>>, s: seq<byte>)
    requires |lines| == |frames| && AllFit(frames) && lines != [] && HeadLines(done + lines)
    ensures ReadFrom(LinesOnWire(lines, frames) + s, Concat(done)) == Finish(Concat(done + lines), s)
    decreases |lines|
  {
    hide ReadFrom, Finish, HeadLines, Fits, FramesBytes, LinesOnWire, Concat;
    var all, next := done + lines, done + [lines[0]];
    var rest := LinesOnWire(lines[1..], frames[1..]) + s;
    WireFront(lines, frames, s);
    assert all[..|done|] == done && all[|done|] == lines[0];
    assert next + lines[1..] == all;
    NextLineRead(done, all, frames[0], rest);
    if |lines| == 1 {
      assert all == next;
      NothingOnWire(s);
    } else {
      LinesRead(next, lines[1..], frames[1..], s);
    }
  }

  lemma NothingOnWire(s: seq<byte>)
    ensures LinesOnWire([], []) + s == s
  {
  }

  // ---------- the theorem

  lemma HasLines(lines: seq<seq<byte>>)
    requires HeadLines(lines)
    ensures lines != []
  {
    assert BlankAfter(lines, |lines|);
  }

  /** One request with its frames is read exactly: head, frames and body are
      consumed to the last byte and nothing after them. */
  lemma OneRead(x: Sent, rest: seq<byte>)
    requires Proper(x)
    ensures ReadFrom(OnWire(x) + rest, []) == Got(ParseRequest(Concat(x.message.lines)), rest)
  {
    hide ReadFrom, ParseRequest, BodyLength, EndsHead, IsLine, AllFit;
    var m := x.message;
    HasLines(m.lines);
    assert [] + m.lines == m.lines;
    assert OnWire(x) + rest == LinesOnWire(m.lines, x.frames) + (m.body + rest);
    assert Concat([]) == [];
    LinesRead([], m.lines, x.frames, m.body + rest);
    assert (m.body + rest)[|m.body|..] == rest;
  }

  /** However many frames are inserted between the lines of however many
      requests, the requests read are those sent. */
  lemma {:induction false} AllRead(xs: seq<Sent>, rest: seq<byte>)
    requires forall i :: 0 <= i < |xs| ==> Proper(xs[i])
    ensures ReadMany(AllOnWire(xs) + rest, |xs|) == Some((RequestsOf(xs), rest))
  {
    hide ReadFrom, ParseRequest, Proper, OnWire;
    if xs == [] {
      assert AllOnWire(xs) + rest == rest;
    } else {
      var more := AllOnWire(xs[1..]) + rest;
      assert AllOnWire(xs) + rest == OnWire(xs[0]) + more;
      OneRead(xs[0], more);
      AllRead(xs[1..], rest);
    }
  }

  /** Taking the frames out changes nothing. */
  lemma FramesChangeNothing(xs: seq<Sent>, ys: seq<Sent>, rest: seq<byte>)
    requires |xs| == |ys| && forall i :: 0 <= i < |xs| ==>
        Proper(xs[i]) && Proper(ys[i]) && xs[i].message == ys[i].message
    ensures ReadMany(AllOnWire(xs) + rest, |xs|) == ReadMany(AllOnWire(ys) + rest, |ys|)
  {
    hide ReadMany, AllOnWire, RequestsOf, Proper;
    AllRead(xs, rest);
    AllRead(ys, rest);
    SameRequests(xs, ys);
  }

  lemma {:induction false} SameRequests(xs: seq<Sent>, ys: seq<Sent>)
    requires |xs| == |ys| && forall i :: 0 <= i < |xs| ==> xs[i].message == ys[i].message
    ensures RequestsOf(xs) == RequestsOf(ys)
  {
    hide ParseRequest;
    if xs != [] {
      SameRequests(xs[1..], ys[1..]);
    }
  }

  /** Between the head and a body is no line boundary: a frame put there is taken
      for body, and as many bytes as it has are left unread before the rest. */
  lemma FrameInBody(m: Message, f: Frame, rest: seq<byte>)
    requires WellFormed(m)
    ensures var after := FrameBytes(f) + m.body + rest;
            && ReadFrom(Concat(m.lines) + after, []) == Got(ParseRequest(Concat(m.lines)), after[|m.body|..])
            && |after[|m.body|..]| == |FrameBytes(f)| + |rest|
  {
    hide ReadFrom, ParseRequest, BodyLength, EndsHead, IsLine, FrameBytes;
    var after := FrameBytes(f) + m.body + rest;
    var none := seq(|m.lines|, _ => []);
    HasLines(m.lines);
    assert [] + m.lines == m.lines;
    assert Concat([]) == [];
    LinesRead([], m.lines, none, after);
    NoFrames(m.lines, none);
  }

  lemma {:induction false} NoFrames(lines: seq<seq<byte>>, frames: seq<seq<Frame>>)
    requires |lines| == |frames| && forall i :: 0 <= i < |frames| ==> frames[i] == []
    ensures LinesOnWire(lines, frames) == Concat(lines)
  {
    if lines != [] {
      NoFrames(lines[1..], frames[1..]);
      ConcatFront(lines[0], lines[1..]);
      assert [lines[0]] + lines[1..] == lines;
    }
  }

  lemma {:induction false} ConcatFront(l: seq<byte>, lines: seq<seq<byte>>)
    ensures Concat([l] + lines) == l + Concat(lines)
  {
    var all := [l] + lines;
    if lines == [] {
      assert all[..0] == [];
      assert Concat(all) == [] + l;
    } else {
      var init, last := lines[..|lines| - 1], lines[|lines| - 1];
      assert all[..|all| - 1] == [l] + init;
      ConcatFront(l, init);
      var s := Concat(init);
      assert Concat(all) == l + s + last && Concat(lines) == s + last;
    }
  }

  // ---------- the reader

  class Reader {
    var input: seq<byte>

    constructor (input: seq<byte>)
      ensures this.input == input
    {
      this.input := input;
    }

    /** Reads up to and with the next line feed. */
    method ReadString() returns (line: Option<seq<byte>>)
      modifies this
      ensures var i := LineEnd(old(input));
              if i == |old(input)| then line == None
              else line == Some(old(input)[..i + 1]) && input == old(input)[i + 1..]
    {
      var i := 0;
      while i < |input| && input[i] != LF
        invariant 0 <= i <= |input| && input == old(input)
        invariant forall j :: 0 <= j < i ==> input[j] != LF
      {
        i := i + 1;
      }
      LineEndUnique(input, i);
      if i == |input| {
        return None;
      }
      line := Some(input[..i + 1]);
      input := input[i + 1..];
    }

    /** `io.ReadFull` and `io.CopyN` both fail on too little input. */
    method Take(n: nat) returns (taken: Option<seq<byte>>)
      modifies this
      ensures if |old(input)| < n then taken == None
              else taken == Some(old(input)[..n]) && input == old(input)[n..]
    {
      if |input| < n {
        return None;
      }
      taken := Some(input[..n]);
      input := input[n..];
    }

    method DiscardInterleavedFrame() returns (ok: bool)
      modifies this
      ensures ok == Discarded(old(input)).Some?
      ensures ok ==> input == Discarded(old(input)).value
    {
      var header := Take(4);
      if header == None {
        return false;
      }
      var length := header.value[2] as int * 256 + header.value[3] as int;
      ghost var rest := input;
      if length > 0 {
        var body := Take(length);
        assert body.Some? ==> rest[length..] == old(input)[4 + length..];
        return body.Some?;
      }
      return true;
    }

    /** The request, or `None` when the connection ends first. */
    method ReadRequest() returns (request: Option<Request>)
      modifies this
      ensures match ReadFrom(old(input), [])
              case Ended => request == None
              case Got(r, rest) => request == Some(r) && input == rest
    {
      hide Discarded, EndsHead, BodyLength, ParseRequest;
      var buffer: seq<byte> := [];
      while true
        invariant ReadFrom(input, buffer) == ReadFrom(old(input), [])
        decreases |input|
      {
        if |input| == 0 {
          return None;
        }
        if input[0] == DOLLAR {
          var ok := DiscardInterleavedFrame();
          if !ok {
            return None;
          }
          continue;
        }
        var line := ReadString();
        if line == None {
          return None;
        }
        buffer := buffer + line.value;
        if EndsHead(buffer) {
          var body := Take(BodyLength(buffer));
          return if body == None then None else Some(ParseRequest(buffer));
        }
      }
    }
  }

  lemma LineEndUnique(s: seq<byte>, i: nat)
    requires i <= |s| && (i < |s| ==> s[i] == LF) && (forall j :: 0 <= j < i ==> s[j] != LF)
    ensures LineEnd(s) == i
  {
  }
}
