// What the incremental framer of src/irc.c means for a whole connection: the lines
// delivered depend on the concatenated bytes only, and framing undoes sending.
module Framing {
  import opened Text
  import opened NetIo
  import opened Irc

  /** The stream split at newlines: the complete segments, and the unfinished rest. */
  function Cut(data: string): (seq<string>, string)
    decreases |data|
  {
    var i := IndexOf(data, '\n');
    if i == |data| then ([], data)
    else
      var tail := Cut(data[i + 1..]);
      ([data[..i]] + tail.0, tail.1)
  }

  /** The lines a consumer is owed for a list of segments: each segment of at most
      512 characters, less one final carriage return. */
  function Accepted(segments: seq<string>): seq<string> {
    if segments == [] then []
    else (if |segments[0]| <= 512 then [CStr(StripCr(segments[0]))] else [])
         + Accepted(segments[1..])
  }

  /** Hands lines to a consumer until it stops. */
  function Deliver<S>(cb: Callback<S>, s: S, lines: seq<string>): (S, bool) {
    if lines == [] then (s, false)
    else
      var (s', stop) := cb(s, lines[0]);
      if stop then (s', true) else Deliver(cb, s', lines[1..])
  }

  /** The framer state after an unfinished segment. */
  function Pending(rest: string): Framer {
    if |rest| <= 512 then Framer(rest, false) else Framer("", true)
  }

  function Meaning<S>(data: string, cb: Callback<S>, s: S): Fed<S> {
    var (segments, rest) := Cut(data);
    var (s', stop) := Deliver(cb, s, Accepted(segments));
    Fed(if stop then IDLE else Pending(rest), s', stop)
  }

  /** From any state the framer can be in, feeding delivers exactly the accepted lines
      of the whole stream, in order, cut after the first one that stops the consumer. */
  lemma {:induction false} FeedMeaning<S>(pending: string, data: string, cb: Callback<S>, s: S)
    requires '\n' !in pending
    ensures Feed(Pending(pending), data, cb, s) == Meaning(pending + data, cb, s)
    decreases |data|
  {
    hide CStr, StripCr;
    var all := pending + data;
    if data == "" {
      assert all == pending;
      IndexOfUnique(pending, '\n', |pending|);
    } else if data[0] != '\n' {
      var longer := pending + [data[0]];
      assert Push(Pending(pending), data[0]) == Pending(longer);
      assert longer + data[1..] == all;
      FeedMeaning(longer, data[1..], cb, s);
    } else {
      assert all[..|pending|] == pending && all[|pending| + 1..] == data[1..];
      IndexOfUnique(all, '\n', |pending|);
      var tail := Cut(data[1..]).0;
      assert Cut(all).0 == [pending] + tail;
      assert ([pending] + tail)[1..] == tail;
      assert Pending("") == IDLE && "" + data[1..] == data[1..];
      var line := CStr(StripCr(pending));
      if |pending| > LINE_MAX {
        assert Accepted([pending] + tail) == [] + Accepted(tail) == Accepted(tail);
        FeedMeaning("", data[1..], cb, s);
      } else {
        assert Accepted([pending] + tail)[1..] == Accepted(tail);
        var (s', stop) := cb(s, line);
        FeedMeaning("", data[1..], cb, s');
      }
    }
  }

  lemma CutFirst(segment: string, rest: string)
    requires '\n' !in segment
    ensures Cut(segment + "\n" + rest) == ([segment] + Cut(rest).0, Cut(rest).1)
  {
    var all := segment + "\n" + rest;
    assert all[..|segment|] == segment && all[|segment| + 1..] == rest;
    IndexOfUnique(all, '\n', |segment|);
  }

  lemma CutNone(rest: string)
    requires '\n' !in rest
    ensures Cut(rest) == ([], rest)
  {
    IndexOfUnique(rest, '\n', |rest|);
  }

  lemma FirstSegment(data: string) returns (segment: string, tail: string)
    requires '\n' in data
    ensures '\n' !in segment && data == segment + "\n" + tail
    ensures IndexOf(data, '\n') == |segment| && data[..|segment| + 1] == segment + "\n" && data[|segment| + 1..] == tail
  {
    var i := IndexOf(data, '\n');
    assert data[..|data|] == data;
    segment, tail := data[..i], data[i + 1..];
  }

  /** Every state reachable from `IDLE` is `Pending(p)` for a newline-free `p`. */
  lemma {:induction false} RestIsNewlineFree(data: string)
    ensures '\n' !in Cut(data).1
    decreases |data|
  {
    if '\n' in data {
      var segment, tail := FirstSegment(data);
      CutFirst(segment, tail);
      RestIsNewlineFree(tail);
    } else {
      CutNone(data);
    }
  }

  // ------------------------------------------------- independence of chunking

  function Joined(chunks: seq<string>): string {
    if chunks == [] then "" else chunks[0] + Joined(chunks[1..])
  }

  /** One connection: chunks are fed as `recv` returns them, and a connection whose
      consumer stopped is never read again. */
  function FeedChunks<S>(f: Framer, chunks: seq<string>, cb: Callback<S>, s: S): Fed<S>
    decreases |chunks|
  {
    if chunks == [] then Fed(f, s, false)
    else
      var fed := Feed(f, chunks[0], cb, s);
      if fed.stopped then fed else FeedChunks(fed.framer, chunks[1..], cb, fed.state)
  }

  lemma {:induction false} FeedAppend<S>(f: Framer, a: string, b: string, cb: Callback<S>, s: S)
    ensures Feed(f, a + b, cb, s)
         == var fed := Feed(f, a, cb, s);
            if fed.stopped then fed else Feed(fed.framer, b, cb, fed.state)
    decreases |a|
  {
    if a == "" {
      assert a + b == b;
    } else {
      assert (a + b)[1..] == a[1..] + b;
      if a[0] != '\n' {
        FeedAppend(Push(f, a[0]), a[1..], b, cb, s);
      } else if f.dropping {
        FeedAppend(IDLE, a[1..], b, cb, s);
      } else {
        FeedAppend(IDLE, a[1..], b, cb, cb(s, CStr(StripCr(f.line))).0);
      }
    }
  }

  lemma {:induction false} ChunksAreOneFeed<S>(f: Framer, chunks: seq<string>, cb: Callback<S>, s: S)
    ensures FeedChunks(f, chunks, cb, s) == Feed(f, Joined(chunks), cb, s)
    decreases |chunks|
  {
    if chunks != [] {
      FeedAppend(f, chunks[0], Joined(chunks[1..]), cb, s);
      var fed := Feed(f, chunks[0], cb, s);
      ChunksAreOneFeed(fed.framer, chunks[1..], cb, fed.state);
    }
  }

  /** The stream theorem: however `recv` splits what arrives on a new connection, the
      consumer sees the accepted lines of the concatenation up to its first stop. */
  lemma StreamTheorem<S>(chunks: seq<string>, cb: Callback<S>, s: S)
    ensures FeedChunks(IDLE, chunks, cb, s) == Meaning(Joined(chunks), cb, s)
  {
    ChunksAreOneFeed(IDLE, chunks, cb, s);
    FeedMeaning("", Joined(chunks), cb, s);
    assert "" + Joined(chunks) == Joined(chunks) && Pending("") == IDLE;
  }

  // ------------------------------------------------------ framing undoes sending

  predicate IsLine(line: string) {
    '\n' !in line && '\0' !in line
  }

  /** The lines that survive: with its carriage return a line may have 512 bytes. */
  function Surviving(lines: seq<string>): seq<string> {
    if lines == [] then []
    else (if |lines[0]| <= 511 then [lines[0]] else []) + Surviving(lines[1..])
  }

  function Collect(seen: seq<string>, line: string): (seq<string>, bool) {
    (seen + [line], false)
  }

  lemma {:induction false} CollectAll(seen: seq<string>, lines: seq<string>)
    ensures Deliver(Collect, seen, lines) == (seen + lines, false)
    decreases |lines|
  {
    if lines == [] {
      assert seen + lines == seen;
    } else {
      assert seen + [lines[0]] + lines[1..] == seen + lines;
      CollectAll(seen + [lines[0]], lines[1..]);
    }
  }

  /** Lines, each with the line feed that ends it. */
  function Glued(lines: seq<string>): string {
    if lines == [] then "" else lines[0] + "\n" + Glued(lines[1..])
  }

  predicate NoFeed(lines: seq<string>) {
    forall i | 0 <= i < |lines| :: '\n' !in lines[i]
  }

  lemma {:induction false} GluedAppend(a: seq<string>, b: seq<string>)
    ensures Glued(a + b) == Glued(a) + Glued(b)
  {
    if a == [] {
      assert a + b == b && "" + Glued(b) == Glued(b);
    } else {
      assert (a + b)[1..] == a[1..] + b;
      GluedAppend(a[1..], b);
      assert a[0] + "\n" + Glued(a[1..]) + Glued(b) == a[0] + "\n" + (Glued(a[1..]) + Glued(b));
    }
  }

  /** Cutting takes glued lines apart again. */
  lemma {:induction false} CutGlued(lines: seq<string>, rest: string)
    requires NoFeed(lines) && '\n' !in rest
    ensures Cut(Glued(lines) + rest) == (lines, rest)
  {
    if lines == [] {
      assert "" + rest == rest;
      CutNone(rest);
    } else {
      var more := Glued(lines[1..]) + rest;
      assert Glued(lines) + rest == lines[0] + "\n" + more;
      CutFirst(lines[0], more);
      CutGlued(lines[1..], rest);
      assert lines == [lines[0]] + lines[1..];
    }
  }

  function WithCr(lines: seq<string>): (r: seq<string>)
    ensures |r| == |lines|
  {
    seq(|lines|, i requires 0 <= i < |lines| => lines[i] + "\r")
  }

  /** The segments of sent lines, followed by some unfinished text. */
  lemma {:induction false} CutLines(lines: seq<string>, rest: string)
    requires forall i | 0 <= i < |lines| :: '\n' !in lines[i]
    requires '\n' !in rest
    ensures Cut(Stream(lines) + rest) == (WithCr(lines), rest)
  {
    if lines == [] {
      assert "" + rest == rest;
      IndexOfUnique(rest, '\n', |rest|);
    } else {
      var first, more := lines[0] + "\r", Stream(lines[1..]) + rest;
      assert Stream(lines) + rest == first + "\n" + more;
      CutFirst(first, more);
      CutLines(lines[1..], rest);
      assert WithCr(lines) == [first] + WithCr(lines[1..]);
    }
  }

  lemma {:induction false} AcceptedLines(lines: seq<string>)
    requires forall i | 0 <= i < |lines| :: IsLine(lines[i])
    ensures Accepted(WithCr(lines)) == Surviving(lines)
  {
    if lines != [] {
      AcceptedLines(lines[1..]);
      assert WithCr(lines)[1..] == WithCr(lines[1..]);
      assert StripCr(lines[0] + "\r") == lines[0];
    }
  }

  /** Lines sent one after another until the first that fails: the wire then, and how many
      lines went out whole. */
  function SendLines(w: Wire, lines: seq<string>): (r: (Wire, nat))
    ensures r.1 <= |lines|
    decreases |lines|
  {
    if lines == [] then (w, 0)
    else
      var (w', ok) := WriteLine(w, lines[0]);
      if !ok then (w', 0)
      else
        var (w'', k) := SendLines(w', lines[1..]);
        (w'', 1 + k)
  }

  /** What the peer has been sent: the whole lines, and of the line that failed a part without
      its line end. */
  lemma {:induction false} SentLines(w: Wire, lines: seq<string>) returns (part: string)
    requires forall i | 0 <= i < |lines| :: '\n' !in lines[i]
    ensures var (w', k) := SendLines(w, lines);
            && w'.sent == w.sent + (Stream(lines[..k]) + part)
            && '\n' !in part
            && if k == |lines| then part == "" else part < Ended(lines[k])
    decreases |lines|
  {
    if lines == [] {
      part := "";
    } else {
      var (w', ok) := WriteLine(w, lines[0]);
      if ok {
        part := SentLines(w', lines[1..]);
        OneMoreSent(w.sent, lines, SendLines(w', lines[1..]).1, part);
      } else {
        part := w'.sent[|w.sent|..];
        PartOfLine(w.sent, w'.sent, lines[0]);
        assert Stream(lines[..0]) + part == part;
      }
    }
  }

  lemma OneMoreSent(before: string, lines: seq<string>, k: nat, part: string)
    requires lines != [] && k <= |lines| - 1
    ensures before + Ended(lines[0]) + (Stream(lines[1..][..k]) + part) == before + (Stream(lines[..1 + k]) + part)
  {
    var more := lines[1..][..k];
    assert lines[..1 + k] == [lines[0]] + more;
    assert Stream([lines[0]] + more) == Ended(lines[0]) + Stream(more) by {
      StreamAppend([lines[0]], more);
      assert Stream([lines[0]]) == Ended(lines[0]);
    }
  }

  lemma PartOfLine(before: string, after: string, line: string)
    requires '\n' !in line && before <= after <= before + Ended(line) && after != before + Ended(line)
    ensures var part := after[|before|..]; after == before + part && part < Ended(line) && '\n' !in part
  {
    var part := after[|before|..];
    assert after == before + part && part <= Ended(line);
    assert part == Ended(line)[..|part|];
    assert Ended(line) == (line + "\r") + "\n";
    assert part <= line + "\r";
  }

  /** Lines sent over any partial writes until the first failure, and read back in chunks of any
      sizes: the consumer gets, in order, exactly the lines that went out whole and have at most
      511 bytes. An overlong line is lost alone, and the part of a failed one only stays pending. */
  lemma FramingInvertsSending(plan: seq<int>, lines: seq<string>, chunks: seq<string>)
    requires forall i | 0 <= i < |lines| :: IsLine(lines[i])
    requires Joined(chunks) == SendLines(Wire("", plan), lines).0.sent
    ensures var (w, k) := SendLines(Wire("", plan), lines);
            && Stream(lines[..k]) <= w.sent
            && var part := w.sent[|Stream(lines[..k])|..];
               && '\n' !in part
               && FeedChunks(IDLE, chunks, Collect, []) == Fed(Pending(part), Surviving(lines[..k]), false)
  {
    hide SendLines, Stream, Surviving, Feed, FeedChunks, Joined;
    var (w, k) := SendLines(Wire("", plan), lines);
    var part := SentLines(Wire("", plan), lines);
    var whole := lines[..k];
    assert "" + (Stream(whole) + part) == Stream(whole) + part;
    assert w.sent[|Stream(whole)|..] == part;
    WholeLinesFramed(whole, part, chunks);
  }

  lemma WholeLinesFramed(lines: seq<string>, part: string, chunks: seq<string>)
    requires (forall i | 0 <= i < |lines| :: IsLine(lines[i])) && '\n' !in part
    requires Joined(chunks) == Stream(lines) + part
    ensures FeedChunks(IDLE, chunks, Collect, []) == Fed(Pending(part), Surviving(lines), false)
  {
    hide Stream, Surviving, Feed, FeedChunks, Joined, Cut;
    StreamTheorem(chunks, Collect, []);
    CutLines(lines, part);
    AcceptedLines(lines);
    CollectAll([], Surviving(lines));
    assert [] + Surviving(lines) == Surviving(lines);
  }

  lemma FirstCut(a: string, n: nat, more: seq<int>)
    requires 0 < n < |a|
    ensures WriteLine(Wire("", [n, -1] + more), a) == (Wire(a[..n], more), false)
  {
    var plan: seq<int> := [n, -1] + more;
    assert plan[1..] == [-1] + more && plan[1..][1..] == more;
    assert Taken(plan[1..], |a| - n) == (0, more);
    assert Taken(plan, |a|) == (n, more);
    assert "" + a[..n] == a[..n];
  }

  lemma SecondWhole(sent: string, b: string)
    requires b != ""
    ensures WriteLine(Wire(sent, [|b|, 2]), b) == (Wire(sent + Ended(b), []), true)
  {
    var plan: seq<int> := [|b|, 2];
    assert plan[1..] == [2] && [2][1..] == [];
    assert Taken(plan, |b|) == (|b|, [2]) && b[..|b|] == b;
    assert Taken([2], 2) == (2, []) && "\r\n"[..2] == "\r\n";
    assert sent + b + "\r\n" == sent + Ended(b);
  }

  /** A send that fails inside a line leaves its part on the wire. The callers that go on after a
      failed send (src/multinet.c:73, src/multinet.c:128) then glue lines: for any first line `a`
      of which `n` bytes got across, the peer frames that part and the next line as one. */
  lemma FailedSendGluesLines(a: string, n: nat, b: string)
    requires 0 < n < |a| && b != "" && n + |b| < LINE_MAX && IsLine(a) && IsLine(b)
    ensures var first := WriteLine(Wire("", [n, -1, |b|, 2]), a);
            var second := WriteLine(first.0, b);
            && !first.1 && second.1
            && FeedChunks(IDLE, [second.0.sent], Collect, []) == Fed(IDLE, [a[..n] + b], false)
  {
    FirstCut(a, n, [|b|, 2]);
    assert [n, -1, |b|, 2] == [n, -1] + [|b|, 2];
    SecondWhole(a[..n], b);
    var glued := a[..n] + b;
    assert IsLine(glued);
    OneLineFramed(glued);
    assert a[..n] + Ended(b) == Ended(glued);
  }

  lemma OneLineFramed(line: string)
    requires IsLine(line) && |line| < LINE_MAX
    ensures FeedChunks(IDLE, [Ended(line)], Collect, []) == Fed(IDLE, [line], false)
  {
    var lines, chunks := [line], [Ended(line)];
    assert lines[1..] == [] && Stream(lines[1..]) == "" && chunks[1..] == [] && Joined(chunks[1..]) == "";
    assert Stream(lines) == Ended(lines[0]) + "" == Ended(line);
    assert Joined(chunks) == chunks[0] + "" == Ended(line);
    assert Stream(lines) + "" == Stream(lines);
    StreamTheorem(chunks, Collect, []);
    CutLines(lines, "");
    AcceptedLines(lines);
    assert Surviving(lines) == lines;
    CollectAll([], lines);
    assert [] + lines == lines;
  }
}
