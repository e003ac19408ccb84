// Callers that send line after line whatever becomes of each (src/multinet.c:73 and 124-129):
// exactly when the peer gets the lines that were reported sent.
module GoingOn {
  import opened NetIo
  import opened Irc
  import opened Framing

  /** One attempt: the line, the bytes of it that got across, and whether it was reported sent. */
  datatype Attempt = Attempt(line: string, sent: string, ok: bool)

  /** The first `n` lines, each sent whatever became of those before. */
  function GoOn(w: Wire, lines: seq<string>, n: nat): (r: (Wire, seq<Attempt>))
    requires n <= |lines|
    ensures |r.1| == n
  {
    if n == 0 then (w, [])
    else
      var (before, attempts) := GoOn(w, lines, n - 1);
      var (after, ok) := WriteLine(before, lines[n - 1]);
      (after, attempts + [Attempt(lines[n - 1], after.sent[|before.sent|..], ok)])
  }

  /** The lines reported sent. */
  function Whole(attempts: seq<Attempt>, n: nat): seq<string>
    requires n <= |attempts|
  {
    if n == 0 then []
    else Whole(attempts, n - 1) + if attempts[n - 1].ok then [attempts[n - 1].line] else []
  }

  /** The bytes of failed lines that crossed since the last whole line. */
  function Loose(attempts: seq<Attempt>, n: nat): string
    requires n <= |attempts|
  {
    if n == 0 || attempts[n - 1].ok then "" else Loose(attempts, n - 1) + attempts[n - 1].sent
  }

  /** No whole line that fits the framer follows bytes of failed lines just before it. */
  predicate Unglued(attempts: seq<Attempt>, n: nat)
    requires n <= |attempts|
  {
    forall i | 0 <= i < n && attempts[i].ok && |attempts[i].line| <= 511 :: Loose(attempts, i) == ""
  }

  /** An attempt puts a whole line on the wire, or a part of it without line feed. */
  predicate Fair(a: Attempt) {
    IsLine(a.line) && if a.ok then a.sent == Ended(a.line) else IsLine(a.sent)
  }

  predicate AllFair(attempts: seq<Attempt>) {
    forall i | 0 <= i < |attempts| :: Fair(attempts[i])
  }

  function Bytes(attempts: seq<Attempt>, n: nat): string
    requires n <= |attempts|
  {
    if n == 0 then "" else Bytes(attempts, n - 1) + attempts[n - 1].sent
  }

  // ----------------------------------------------------------------- on the wire

  lemma OneAttempt(w: Wire, line: string)
    requires IsLine(line)
    ensures var (w', ok) := WriteLine(w, line);
            var sent := w'.sent[|w.sent|..];
            w'.sent == w.sent + sent && Fair(Attempt(line, sent, ok))
  {
    var (w', ok) := WriteLine(w, line);
    if ok {
      assert w'.sent[|w.sent|..] == Ended(line);
    } else {
      PartOfLine(w.sent, w'.sent, line);
      PartHasNoNul(w'.sent[|w.sent|..], line);
    }
  }

  lemma PartHasNoNul(part: string, line: string)
    requires part <= Ended(line) && '\0' !in line
    ensures '\0' !in part
  {
    assert part == Ended(line)[..|part|];
  }

  lemma BytesSame(a: seq<Attempt>, more: seq<Attempt>, n: nat)
    requires n <= |a|
    ensures Bytes(a + more, n) == Bytes(a, n)
  {
    if n > 0 {
      BytesSame(a, more, n - 1);
    }
  }

  lemma Extend(sent: string, bytes: string, part: string, all: string)
    requires all == sent + bytes
    ensures all + part == sent + (bytes + part)
  {
  }

  lemma {:induction false} GoOnBytes(w: Wire, lines: seq<string>, n: nat)
    requires n <= |lines| && forall i | 0 <= i < |lines| :: IsLine(lines[i])
    ensures var (after, attempts) := GoOn(w, lines, n);
            AllFair(attempts) && after.sent == w.sent + Bytes(attempts, n)
  {
    if n == 0 {
      assert w.sent + "" == w.sent;
    } else {
      GoOnBytes(w, lines, n - 1);
      var (before, attempts) := GoOn(w, lines, n - 1);
      OneAttempt(before, lines[n - 1]);
      var last := GoOn(w, lines, n).1[n - 1];
      BytesSame(attempts, [last], n - 1);
      Extend(w.sent, Bytes(attempts, n - 1), last.sent, before.sent);
    }
  }

  // ----------------------------------------------------------------- in the framer

  /** The segments the framer cuts out of the bytes. */
  function Segments(attempts: seq<Attempt>, n: nat): seq<string>
    requires n <= |attempts|
  {
    if n == 0 then []
    else
      Segments(attempts, n - 1)
      + if attempts[n - 1].ok then [Loose(attempts, n - 1) + attempts[n - 1].line + "\r"] else []
  }

  lemma {:induction false} LooseIsLine(attempts: seq<Attempt>, n: nat)
    requires n <= |attempts| && AllFair(attempts)
    ensures IsLine(Loose(attempts, n))
  {
    if n > 0 && !attempts[n - 1].ok {
      LooseIsLine(attempts, n - 1);
      assert Fair(attempts[n - 1]);
    }
  }

  lemma {:induction false} SegmentsHaveNoFeed(attempts: seq<Attempt>, n: nat)
    requires n <= |attempts| && AllFair(attempts)
    ensures NoFeed(Segments(attempts, n))
  {
    if n > 0 {
      SegmentsHaveNoFeed(attempts, n - 1);
      LooseIsLine(attempts, n - 1);
      assert Fair(attempts[n - 1]);
    }
  }

  lemma {:induction false} BytesAreSegments(attempts: seq<Attempt>, n: nat)
    requires n <= |attempts| && AllFair(attempts)
    ensures Bytes(attempts, n) == Glued(Segments(attempts, n)) + Loose(attempts, n)
  {
    if n > 0 {
      hide Fair, Glued;
      BytesAreSegments(attempts, n - 1);
      assert Fair(attempts[n - 1]);
      OneMoreAttempt(attempts[n - 1], Segments(attempts, n - 1), Loose(attempts, n - 1));
    }
  }

  lemma OneMoreAttempt(last: Attempt, before: seq<string>, loose: string)
    requires Fair(last)
    ensures Glued(before) + loose + last.sent
         == if last.ok then Glued(before + [loose + last.line + "\r"]) + ""
            else Glued(before + []) + (loose + last.sent)
  {
    if last.ok {
      GluedSnoc(before, loose + last.line + "\r");
      EndedAfter(Glued(before), loose, last.line);
    } else {
      assert before + [] == before;
    }
  }

  lemma EndedAfter(front: string, loose: string, line: string)
    ensures front + loose + Ended(line) == front + (loose + line + "\r" + "\n") + ""
  {
  }

  lemma GluedSnoc(lines: seq<string>, last: string)
    ensures Glued(lines + [last]) == Glued(lines) + (last + "\n")
  {
    GluedAppend(lines, [last]);
    assert [last][1..] == [] && Glued([last]) == last + "\n" + "";
  }

  /** What the peer frames. */
  function Received(attempts: seq<Attempt>, n: nat): seq<string>
    requires n <= |attempts|
  {
    if n == 0 then []
    else
      var line := Loose(attempts, n - 1) + attempts[n - 1].line;
      Received(attempts, n - 1) + if attempts[n - 1].ok && |line| <= 511 then [line] else []
  }

  lemma {:induction false} AcceptedAppend(a: seq<string>, b: seq<string>)
    ensures Framing.Accepted(a + b) == Framing.Accepted(a) + Framing.Accepted(b)
  {
    hide StripCr;
    if a == [] {
      assert a + b == b;
    } else {
      assert (a + b)[1..] == a[1..] + b;
      AcceptedAppend(a[1..], b);
    }
  }

  lemma AcceptedOne(line: string)
    requires IsLine(line)
    ensures Framing.Accepted([line + "\r"]) == if |line| < LINE_MAX then [line] else []
  {
    assert [line + "\r"][1..] == [] && StripCr(line + "\r") == line;
  }

  lemma {:induction false} AcceptedSegments(attempts: seq<Attempt>, n: nat)
    requires n <= |attempts| && AllFair(attempts)
    ensures Framing.Accepted(Segments(attempts, n)) == Received(attempts, n)
  {
    if n > 0 {
      AcceptedSegments(attempts, n - 1);
      var last, before, loose := attempts[n - 1], Segments(attempts, n - 1), Loose(attempts, n - 1);
      assert Fair(last);
      LooseIsLine(attempts, n - 1);
      if last.ok {
        AcceptedAppend(before, [loose + last.line + "\r"]);
        AcceptedOne(loose + last.line);
      } else {
        assert before + [] == before;
      }
    }
  }

  // --------------------------------------------------------------- what is compared

  lemma SnocsEqual(a: seq<string>, x: string, b: seq<string>, y: string)
    ensures a + [x] == b + [y] <==> a == b && x == y
  {
    if a + [x] == b + [y] {
      assert |a| == |b|;
      assert (a + [x])[|a|] == (b + [y])[|b|];
      assert a == (a + [x])[..|a|] && b == (b + [y])[..|b|];
    }
  }

  lemma {:induction false} SurvivingSnoc(lines: seq<string>, last: string)
    ensures Surviving(lines + [last]) == Surviving(lines) + if |last| <= 511 then [last] else []
  {
    hide Surviving;
    var one := if |last| <= 511 then [last] else [];
    SurvivingNone();
    if lines == [] {
      SurvivingCons(last, []);
      assert [] + [last] == [last] + [] && one + [] == one;
    } else {
      var front, rest := lines[0], lines[1..];
      SurvivingSnoc(rest, last);
      SurvivingCons(front, rest);
      SurvivingCons(front, rest + [last]);
      assert lines == [front] + rest && lines + [last] == [front] + (rest + [last]);
      var first := if |front| <= 511 then [front] else [];
      assert first + (Surviving(rest) + one) == first + Surviving(rest) + one;
    }
  }

  lemma SurvivingNone()
    ensures Surviving([]) == []
  {
  }

  lemma SurvivingCons(line: string, rest: seq<string>)
    ensures Surviving([line] + rest) == (if |line| <= 511 then [line] else []) + Surviving(rest)
  {
    assert ([line] + rest)[1..] == rest;
  }

  /** The peer never frames more lines than were reported sent and fit; it frames those exactly
      when nothing is glued. */
  lemma {:induction false} ReceivedExactly(attempts: seq<Attempt>, n: nat)
    requires n <= |attempts|
    ensures |Received(attempts, n)| <= |Surviving(Whole(attempts, n))|
    ensures Received(attempts, n) == Surviving(Whole(attempts, n)) <==> Unglued(attempts, n)
  {
    if n > 0 {
      ReceivedExactly(attempts, n - 1);
      var last, loose := attempts[n - 1], Loose(attempts, n - 1);
      var received, whole := Received(attempts, n - 1), Whole(attempts, n - 1);
      assert Unglued(attempts, n) <==>
             Unglued(attempts, n - 1) && (last.ok && |last.line| < LINE_MAX ==> loose == "");
      if last.ok {
        SurvivingSnoc(whole, last.line);
        if |last.line| < LINE_MAX {
          SnocsEqual(received, loose + last.line, Surviving(whole), last.line);
          assert loose == "" ==> loose + last.line == last.line;
        } else {
          assert received + [] == received && Surviving(whole) + [] == Surviving(whole);
        }
      } else {
        assert received + [] == received && whole + [] == whole;
      }
    }
  }

  /** Any lines, sent one after another whatever becomes of each, over any partial writes, and read
      back in chunks of any sizes: the peer gets exactly the lines of at most 511 bytes that were
      reported sent, if and only if none of those follows bytes that crossed from failed lines just
      before it. */
  lemma GoingOnDeliversExactly(plan: seq<int>, lines: seq<string>, chunks: seq<string>)
    requires forall i | 0 <= i < |lines| :: IsLine(lines[i])
    requires Joined(chunks) == GoOn(Wire("", plan), lines, |lines|).0.sent
    ensures var attempts := GoOn(Wire("", plan), lines, |lines|).1;
            var fed := FeedChunks(IDLE, chunks, Collect, []);
            && !fed.stopped && fed.framer == Pending(Loose(attempts, |lines|))
            && (fed.state == Surviving(Whole(attempts, |lines|)) <==> Unglued(attempts, |lines|))
  {
    var n := |lines|;
    var attempts := GoOn(Wire("", plan), lines, n).1;
    GoOnBytes(Wire("", plan), lines, n);
    assert "" + Bytes(attempts, n) == Bytes(attempts, n);
    FramesOf(attempts, n, chunks);
    ReceivedExactly(attempts, n);
  }

  lemma FramesOf(attempts: seq<Attempt>, n: nat, chunks: seq<string>)
    requires n <= |attempts| && AllFair(attempts) && Joined(chunks) == Bytes(attempts, n)
    ensures FeedChunks(IDLE, chunks, Collect, []) == Fed(Pending(Loose(attempts, n)), Received(attempts, n), false)
  {
    BytesAreSegments(attempts, n);
    SegmentsHaveNoFeed(attempts, n);
    LooseIsLine(attempts, n);
    CutGlued(Segments(attempts, n), Loose(attempts, n));
    AcceptedSegments(attempts, n);
    StreamTheorem(chunks, Collect, []);
    CollectAll([], Received(attempts, n));
    assert [] + Received(attempts, n) == Received(attempts, n);
  }
}
