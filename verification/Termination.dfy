// Every fair run of the closed system ends, for any configuration and any endpoint, line feeds,
// odd nicks and overlong lines included.
module Termination {
  import opened Text
  import opened Irc
  import opened Framing
  import opened Settings
  import opened Base64
  import opened ModernIrc
  import opened OneNetwork
  import opened Fixture
  import opened Tokens
  import opened Handshake
  import opened ByteStreams
  import opened Registration
  import opened Fairness
  import opened Registering
  import opened Determinacy
  import opened Endings

  // --------------------------------------------------------------- how far answers reach

  /** How many further exchanges an answer can still start. */
  function Level(s: Settings, line: string): nat {
    if line == CAP_REQ then 4 else if line == AUTH_PLAIN then 3 else if line == Payload(s) then 2 else 1
  }

  predicate AllBelow(s: Settings, lines: seq<string>, k: nat) {
    forall i | 0 <= i < |lines| :: ByteStreams.Answer(s, lines[i]) && Level(s, lines[i]) <= k
  }

  lemma AllBelowTogether(s: Settings, a: seq<string>, b: seq<string>, k: nat)
    requires AllBelow(s, a, k) && AllBelow(s, b, k)
    ensures AllBelow(s, a + b, k)
  {
    hide Level, ByteStreams.Answer;
    forall i | 0 <= i < |a + b|
      ensures ByteStreams.Answer(s, (a + b)[i]) && Level(s, (a + b)[i]) <= k
    {
      assert (a + b)[i] == if i < |a| then a[i] else b[i - |a|];
    }
  }

  /** A line the endpoint sends, as the client frames it, that starts at most `k` exchanges. */
  ghost predicate Mild(s: Settings, line: string, k: nat) {
    forall m: Modern | m.capActive == s.cap :: AllBelow(s, Hear(s, Client(m, true), line).1, k)
  }

  lemma PongLevel(s: Settings, line: string)
    requires '\n' !in line
    ensures AllBelow(s, Pong(line), 1)
  {
    hide Level, ByteStreams.Answer;
    if Pong(line) != [] {
      assert line[5..] <= line[5..] && '\n' !in line[5..];
      PongAnswer(s, line[5..]);
    }
  }

  lemma PongAnswer(s: Settings, rest: string)
    requires '\n' !in rest
    ensures ByteStreams.Answer(s, "PONG " + rest) && Level(s, "PONG " + rest) == 1
  {
    hide Encode, PlainMessage;
    assert "PONG "[0] == 'P' && CAP_REQ[0] == 'C' && AUTH_PLAIN[0] == 'A' && "AUTHENTICATE "[0] == 'A';
    assert '\n' !in "PONG " && ("PONG " + rest)[0] == 'P';
  }

  /** What the client says is what negotiation says and a pong. */
  lemma HearLevel(s: Settings, m: Modern, line: string, k: nat)
    requires '\n' !in line && k >= 1 && AllBelow(s, Spoken(Negotiate(s, m, line).1), k)
    ensures AllBelow(s, Hear(s, Client(m, true), line).1, k)
  {
    hide Negotiate, ByteStreams.Answer, Level, Pong, Spoken;
    PongLevel(s, line);
    AllBelowTogether(s, Spoken(Negotiate(s, m, line).1), Pong(line), k);
  }

  /** Whatever negotiation says, its level is at most four. */
  lemma SpokenLevel(s: Settings, m: Modern, line: string)
    requires m.capActive == s.cap
    ensures AllBelow(s, Spoken(Negotiate(s, m, line).1), 4)
  {
    hide Contains;
    NegotiateSays(s, m, line);
    var said := Spoken(Negotiate(s, m, line).1);
    assert said != [] ==> s.cap;
  }

  lemma EverythingMild(s: Settings, line: string)
    requires '\n' !in line
    ensures Mild(s, line, 4)
  {
    hide Negotiate, Hear, AllBelow;
    forall m: Modern | m.capActive == s.cap
      ensures AllBelow(s, Hear(s, Client(m, true), line).1, 4)
    {
      SpokenLevel(s, m, line);
      HearLevel(s, m, line, 4);
    }
  }

  /** A line that offers no SASL starts no request; one that is no acknowledgement either, no
      authentication; and one that is no challenge, no payload. */
  lemma NoOffer(s: Settings, m: Modern, line: string)
    requires m.capActive == s.cap && (!Contains(line, " CAP ") || !Contains(line, " LS "))
    ensures AllBelow(s, Spoken(Negotiate(s, m, line).1), 3)
    ensures !Contains(line, " CAP ") || !Contains(line, " ACK ") ==>
              AllBelow(s, Spoken(Negotiate(s, m, line).1),
                       if StartsWith(line, "AUTHENTICATE +") then 2 else 1)
  {
    hide Contains, PlainMessage, Encode;
    PayloadIsNot(s);
    assert CAP_END != CAP_REQ && CAP_END[0] == 'C' && AUTH_PLAIN[0] == 'A' && CAP_REQ[0] == 'C';
    assert CAP_END[4] == 'E' && CAP_REQ[4] == 'R';
  }

  lemma PayloadIsNot(s: Settings)
    ensures Payload(s) != AUTH_PLAIN && Payload(s)[0] == 'A'
  {
    EncodeLength(PlainMessage(s.saslUser, s.saslPass));
    assert |AUTH_PLAIN| == |"AUTHENTICATE "| + 5;
  }

  lemma AckMild(s: Settings)
    ensures Mild(s, ACK_LINE, 3)
  {
    hide Negotiate, Hear, AllBelow, Contains;
    assert ":fixture CAP * " + "ACK" + " :sasl" == ACK_LINE;
    CapLine("ACK", ACK_LINE);
    assert '\n' !in ACK_LINE;
    forall m: Modern | m.capActive == s.cap
      ensures AllBelow(s, Hear(s, Client(m, true), ACK_LINE).1, 3)
    {
      NoOffer(s, m, ACK_LINE);
      HearLevel(s, m, ACK_LINE, 3);
    }
  }

  lemma AuthMild(s: Settings)
    ensures Mild(s, AUTH_LINE, 2)
  {
    hide Negotiate, Hear, AllBelow, Contains;
    AuthHasNoCap();
    assert '\n' !in AUTH_LINE && StartsWith(AUTH_LINE, "AUTHENTICATE +");
    forall m: Modern | m.capActive == s.cap
      ensures AllBelow(s, Hear(s, Client(m, true), AUTH_LINE).1, 2)
    {
      NoOffer(s, m, AUTH_LINE);
      HearLevel(s, m, AUTH_LINE, 2);
    }
  }

  lemma AuthHasNoCap()
    ensures !Contains(AUTH_LINE, " CAP ")
  {
    var ws := More("AUTHENTICATE", Last("+"));
    assert Spaced(ws) == AUTH_LINE;
    Looks(ws);
  }

  lemma FailureIsPlain(w: string)
    requires OneWord(w)
    ensures !Contains(Failure(w), " CAP ") || (!Contains(Failure(w), " LS ") && !Contains(Failure(w), " ACK "))
  {
    hide Contains;
    FailureWords(w);
    assert AllPlain(FAILURE_TAIL) && AllPlain(More(w, FAILURE_TAIL));
    InsideSix(":fixture", "904", w, FAILURE_TAIL);
    Looks(Numeric("904", w, FAILURE_TAIL));
  }

  /** As much of a verdict as the client frames. */
  lemma VerdictMild(s: Settings, w: string, whole: string, line: string)
    requires OneWord(w) && (whole == Success(w) || whole == Failure(w)) && line <= whole
    ensures Mild(s, line, 1)
  {
    hide Negotiate, Hear, AllBelow, Contains;
    if whole == Success(w) {
      SuccessIsPlain(w);
    } else {
      FailureIsPlain(w);
    }
    PrefixIsPlain(line, whole);
    VerdictLine(w, whole, line);
    forall m: Modern | m.capActive == s.cap
      ensures AllBelow(s, Hear(s, Client(m, true), line).1, 1)
    {
      NoOffer(s, m, line);
      HearLevel(s, m, line, 1);
    }
  }

  lemma VerdictLine(w: string, whole: string, line: string)
    requires OneWord(w) && (whole == Success(w) || whole == Failure(w)) && line <= whole
    ensures '\n' !in line && !StartsWith(line, "AUTHENTICATE +")
  {
    assert '\n' !in w && '\n' !in whole && whole[0] == ':';
    assert line != "" ==> line[0] == ':';
  }

  // ------------------------------------------------------------- the endpoint and answers

  predicate NickPlain(v: Server) {
    v.nick.Some? ==> OneWord(v.nick.value)
  }

  lemma ObeyNickPlain(ep: Endpoint, v: Server, cmd: string, args: string)
    requires NickPlain(v)
    ensures NickPlain(Obey(ep, v, cmd, args).0)
  {
    hide Upper, LStrip, FirstWord, Auth, Echoes, MaybeRegister;
    ObeyIsAuth(ep, v, args);
    AuthKeepsNick(ep, v, args);
    var w := FirstWord(LStrip(args));
    MaybeKeepsNick(ep, v.(nick := Some(w)));
    MaybeKeepsNick(ep, v.(user := Some(FirstWord(args))));
    MaybeKeepsNick(ep, v.(capEnd := true));
  }

  lemma AuthKeepsNick(ep: Endpoint, v: Server, args: string)
    ensures Auth(ep, v, args).0.nick == v.nick
  {
  }

  lemma MaybeKeepsNick(ep: Endpoint, v: Server)
    ensures MaybeRegister(ep, v).0.nick == v.nick
  {
  }

  lemma ServeNickPlain(ep: Endpoint, v: Server, raw: string)
    requires NickPlain(v)
    ensures NickPlain(Serve(ep, v, raw).0)
  {
    hide Obey;
    ObeyNickPlain(ep, v, Command(RStrip(raw)), Args(RStrip(raw)));
  }

  /** Lines without line feed that start, framed, at most `k` exchanges. */
  ghost predicate AllMild(s: Settings, lines: seq<string>, k: nat) {
    NoFeed(lines) && forall i | 0 <= i < |lines| :: Mild(s, CStr(lines[i]), k)
  }

  lemma AllMildTogether(s: Settings, a: seq<string>, b: seq<string>, k: nat)
    requires AllMild(s, a, k) && AllMild(s, b, k)
    ensures AllMild(s, a + b, k)
  {
    hide Mild;
    NoFeedTogether(a, b);
    forall i | 0 <= i < |a + b|
      ensures Mild(s, CStr((a + b)[i]), k)
    {
      assert (a + b)[i] == if i < |a| then a[i] else b[i - |a|];
    }
  }

  lemma MildMore(s: Settings, line: string, k: nat, k': nat)
    requires Mild(s, line, k) && k <= k'
    ensures Mild(s, line, k')
  {
    hide Hear, Level;
  }

  /** What an answer makes of the endpoint: it goes on, keeps its nick, and either registers the
      client now or replies with lines that start fewer exchanges. */
  ghost predicate Settling(s: Settings, v: Server, result: (Server, seq<string>), k: nat) {
    && result.0.up == v.up && NickPlain(result.0) && (v.registered ==> result.0.registered)
    && ((!v.registered && result.0.registered) || AllMild(s, result.1, k))
  }

  lemma AnswerSettles(s: Settings, ep: Endpoint, v: Server, line: string, k: nat)
    requires ByteStreams.Answer(s, line) && NickPlain(v) && Level(s, line) <= k + 1
    ensures Settling(s, v, Serve(ep, v, line), k)
  {
    hide Serve, AllMild, Mild, Payload, MaybeRegister, NickPlain;
    NoReplies(s, k);
    if line == CAP_REQ {
      ServeReq(ep, v, line);
      AckMild(s);
      OneMild(s, ACK_LINE, 3, k);
    } else if line == AUTH_PLAIN {
      ServePlain(ep, v, line);
      AuthMild(s);
      OneMild(s, AUTH_LINE, 2, k);
    } else if line == Payload(s) {
      PayloadSettles(s, ep, v, line, k);
    } else if line == CAP_END {
      ServeEnd(ep, v, line);
      EndSettles(s, ep, v, k);
    } else {
      ServePong(ep, v, line[5..]);
      assert "PONG " + line[5..] == line;
    }
  }

  lemma EndSettles(s: Settings, ep: Endpoint, v: Server, k: nat)
    requires NickPlain(v)
    ensures Settling(s, v, MaybeRegister(ep, v.(capEnd := true)), k)
  {
    hide AllMild, Welcome, Ping;
    NoReplies(s, k);
  }

  lemma NoReplies(s: Settings, k: nat)
    ensures AllMild(s, [], k)
  {
  }

  lemma OneMild(s: Settings, line: string, k: nat, k': nat)
    requires '\n' !in line && '\0' !in line && Mild(s, line, k) && k <= k'
    ensures AllMild(s, [line], k')
  {
    hide Mild;
    MildMore(s, line, k, k');
    assert CStr(line) == line;
  }

  lemma PayloadSettles(s: Settings, ep: Endpoint, v: Server, line: string, k: nat)
    requires line == Payload(s) && NickPlain(v) && 2 <= k + 1
    ensures Settling(s, v, Serve(ep, v, line), k)
  {
    hide Serve, Mild, PlainMessage, Encode, Decode, Success, Failure;
    var e, w := Encode(PlainMessage(s.saslUser, s.saslPass)), NickOrStar(v);
    PayloadHasNoEnd(s);
    PayloadIsNot(s);
    ServeAuthenticate(ep, v, e);
    assert "AUTHENTICATE " + "PLAIN" == AUTH_PLAIN;
    VerdictAllMild(s, w, Success(w), k);
    VerdictAllMild(s, w, Failure(w), k);
  }

  lemma VerdictAllMild(s: Settings, w: string, whole: string, k: nat)
    requires OneWord(w) && (whole == Success(w) || whole == Failure(w)) && 1 <= k
    ensures AllMild(s, [whole], k)
  {
    hide Mild, Success, Failure;
    VerdictLine(w, whole, whole);
    VerdictMild(s, w, whole, CStr(whole));
    MildMore(s, CStr(whole), 1, k);
  }

  lemma {:induction false} AnswersSettle(s: Settings, ep: Endpoint, v: Server, lines: seq<string>, k: nat)
    requires AllBelow(s, lines, k + 1) && NickPlain(v) && v.up
    ensures var (v', said, left) := ReadAll(ep, v, lines);
            left == [] && v'.up && Settling(s, v, (v', said), k)
    decreases |lines|
  {
    hide Serve, AllMild, Level, ByteStreams.Answer, NickPlain;
    NoReplies(s, k);
    if lines != [] {
      var result := Serve(ep, v, lines[0]);
      assert ByteStreams.Answer(s, lines[0]) && Level(s, lines[0]) <= k + 1;
      AnswerSettles(s, ep, v, lines[0], k);
      AnswersSettle(s, ep, result.0, lines[1..], k);
      var rest := ReadAll(ep, result.0, lines[1..]);
      if AllMild(s, result.1, k) && AllMild(s, rest.1, k) {
        AllMildTogether(s, result.1, rest.1, k);
      }
    }
  }

  // ------------------------------------------------------------- the client and replies

  /** Sent lines leave the framer at the start of a line. */
  lemma FedToTheEnd(hear: Ear, c: Client, lines: seq<string>)
    requires c.open
    ensures var fed := Feed(IDLE, Stream(lines), Hearing(hear), (c, []));
            fed.framer == IDLE && fed.state == HearAll(hear, c, Frames(Stream(lines)))
  {
    hide Stream, Feed, Deliver, HearAll, Framing.Accepted, Cut, Glued;
    var bytes := Stream(lines);
    FeedMeaning("", bytes, Hearing(hear), (c, []));
    StreamGlued(lines);
    CutGlued(Cut(bytes).0, "");
    assert "" + bytes == bytes && Glued(Cut(bytes).0) + "" == bytes && Pending("") == IDLE;
    DeliverIsHearAll(hear, c, [], Frames(bytes));
    assert [] + HearAll(hear, c, Frames(bytes)).1 == HearAll(hear, c, Frames(bytes)).1;
  }

  lemma HearWhatever(s: Settings, ep: Endpoint, c: Client, v: Server, lines: seq<string>, waiting: seq<string>)
    requires CanMeet(s, ep, System(c, v, waiting, lines)) && lines != [] && c.open
    ensures var (c', said) := HearAll(HearOf(s), c, Frames(Stream(lines)));
            CanMeet(s, ep, System(c', v, waiting + said, []))
  {
    hide Serve, Stream, Reachable, Feed, HearAll, Frames;
    var y: Ends :| Meets(s, ep, y, System(c, v, waiting, lines));
    var (c', said) := HearAll(HearOf(s), c, Frames(Stream(lines)));
    FeedIn(lines);
    FedToTheEnd(HearOf(s), c, lines);
    ReceivesEverything(s, ep, y);
    ReachNext(s, ep, y, ClientReceives(|y.toClient|));
    StreamAppend(waiting, said);
    NothingSent();
    assert Meets(s, ep, Advance(s, ep, y, ClientReceives(|y.toClient|)), System(c', v, waiting + said, []));
  }

  /** Framed lines none of which starts more than `k` exchanges. */
  ghost predicate MildFrames(s: Settings, frames: seq<string>, k: nat) {
    forall i | 0 <= i < |frames| :: '\n' !in frames[i] && Mild(s, frames[i], k)
  }

  lemma MildFirst(s: Settings, frames: seq<string>, k: nat)
    requires MildFrames(s, frames, k) && frames != []
    ensures '\n' !in frames[0] && Mild(s, frames[0], k) && MildFrames(s, frames[1..], k)
  {
    hide Mild;
  }

  lemma MildCons(s: Settings, first: string, rest: seq<string>, k: nat)
    requires '\n' !in first && Mild(s, first, k) && MildFrames(s, rest, k)
    ensures MildFrames(s, [first] + rest, k)
  {
    hide Mild;
  }

  lemma {:induction false} HearMild(s: Settings, c: Client, frames: seq<string>, k: nat)
    requires c.modern.capActive == s.cap && MildFrames(s, frames, k)
    ensures var (c', said) := HearAll(HearOf(s), c, frames);
            c'.modern.capActive == s.cap && AllBelow(s, said, k)
    decreases |frames|
  {
    hide Hear, AllBelow, MildFrames;
    NothingBelow(s, k);
    if frames != [] && c.open {
      var c', said := Hear(s, c, frames[0]).0, Hear(s, c, frames[0]).1;
      MildFirst(s, frames, k);
      assert c == Client(c.modern, true);
      HearAnswers(s, c, frames[0]);
      HearMild(s, c', frames[1..], k);
      AllBelowTogether(s, said, HearAll(HearOf(s), c', frames[1..]).1, k);
    }
  }

  lemma NothingBelow(s: Settings, k: nat)
    ensures AllBelow(s, [], k)
  {
  }

  lemma {:induction false} AcceptedNoFeed(segments: seq<string>)
    requires NoFeed(segments)
    ensures NoFeed(Framing.Accepted(segments))
  {
    if segments != [] {
      assert NoFeed(segments[1..]) && CStr(StripCr(segments[0])) <= segments[0];
      AcceptedNoFeed(segments[1..]);
    }
  }

  lemma FramesNoFeed(bytes: string)
    ensures NoFeed(Frames(bytes))
  {
    hide Cut, Framing.Accepted;
    CutNoFeed(bytes);
    AcceptedNoFeed(Cut(bytes).0);
  }

  lemma FirstMild(s: Settings, lines: seq<string>, k: nat)
    requires AllMild(s, lines, k) && lines != []
    ensures '\n' !in CStr(lines[0]) && Mild(s, CStr(lines[0]), k) && AllMild(s, lines[1..], k)
  {
    hide Mild;
    assert CStr(lines[0]) <= lines[0];
  }

  lemma {:induction false} AcceptedMild(s: Settings, lines: seq<string>, k: nat)
    requires AllMild(s, lines, k)
    ensures MildFrames(s, Framing.Accepted(WithCr(lines)), k)
  {
    hide Mild, AllMild, MildFrames, CStr;
    if lines == [] {
      NothingMild(s, k);
    } else {
      var rest := Framing.Accepted(WithCr(lines[1..]));
      FirstMild(s, lines, k);
      AcceptedMild(s, lines[1..], k);
      MildCons(s, CStr(lines[0]), rest, k);
      assert WithCr(lines)[1..] == WithCr(lines[1..]) && StripCr(lines[0] + "\r") == lines[0];
      assert [] + rest == rest;
    }
  }

  lemma NothingMild(s: Settings, k: nat)
    ensures MildFrames(s, [], k)
  {
  }

  lemma RepliesMild(s: Settings, lines: seq<string>, k: nat)
    requires AllMild(s, lines, k)
    ensures MildFrames(s, Frames(Stream(lines)), k)
  {
    hide Mild, Stream, Cut, Framing.Accepted, MildFrames;
    AcceptedMild(s, lines, k);
    CutLines(lines, "");
    assert Stream(lines) + "" == Stream(lines);
  }

  lemma AnythingMild(s: Settings, bytes: string)
    ensures MildFrames(s, Frames(bytes), 4)
  {
    hide Mild, Frames;
    FramesNoFeed(bytes);
    var frames := Frames(bytes);
    forall i | 0 <= i < |frames|
      ensures '\n' !in frames[i] && Mild(s, frames[i], 4)
    {
      EverythingMild(s, frames[i]);
    }
  }

  // ---------------------------------------------------------------------------- to the end

  /** Some course comes to an end. */
  ghost predicate HasEnd(s: Settings, ep: Endpoint) {
    exists schedule: nat -> Event, n: nat :: Fairness.Quiet(Course(s, ep, schedule, n))
  }

  lemma EndIsEnd(s: Settings, ep: Endpoint, x: System)
    requires CanMeet(s, ep, x) && (x.server.up ==> x.toServer == []) && (x.client.open ==> x.toClient == [])
    ensures HasEnd(s, ep)
  {
    hide CanMeet, Course, Fairness.Quiet;
    EndsHere(s, ep, x);
    var schedule: nat -> Event, n: nat :| EndsSo(Course(s, ep, schedule, n), x.server.registered, x.client.open);
  }

  /** Each exchange either registers the client, once, or takes the answers a level down. */
  lemma {:induction false} Finishes(s: Settings, ep: Endpoint, c: Client, v: Server, answers: seq<string>, k: nat)
    requires CanMeet(s, ep, System(c, v, answers, [])) && c.modern.capActive == s.cap
    requires AllBelow(s, answers, k) && NickPlain(v) && v.up
    ensures HasEnd(s, ep)
    decreases if v.registered then 0 else 1, k
  {
    hide CanMeet, AllBelow, NickPlain, ReadAll, HearAll, MildFrames, AllMild, Frames, HasEnd, Serve, Hear;
    if answers == [] {
      EndIsEnd(s, ep, System(c, v, answers, []));
    } else {
      BelowOne(s, answers, k);
      AnswersOnly(s, answers, k);
      AnswersOneLine(s, answers);
      ReadThem(s, ep, c, v, answers, []);
      AnswersSettle(s, ep, v, answers, k - 1);
      var v', replies := ReadAll(ep, v, answers).0, ReadAll(ep, v, answers).1;
      assert [] + replies == replies;
      if !c.open || replies == [] {
        EndIsEnd(s, ep, System(c, v', [], replies));
      } else {
        var next := if AllMild(s, replies, k - 1) then k - 1 else 4;
        if AllMild(s, replies, k - 1) {
          RepliesMild(s, replies, k - 1);
        } else {
          AnythingMild(s, Stream(replies));
        }
        HearMild(s, c, Frames(Stream(replies)), next);
        HearWhatever(s, ep, c, v', replies, []);
        var (c', said) := HearAll(HearOf(s), c, Frames(Stream(replies)));
        assert [] + said == said;
        Finishes(s, ep, c', v', said, next);
      }
    }
  }

  lemma BelowOne(s: Settings, answers: seq<string>, k: nat)
    requires AllBelow(s, answers, k) && answers != []
    ensures k >= 1
  {
    assert Level(s, answers[0]) <= k;
  }

  lemma AnswersOnly(s: Settings, answers: seq<string>, k: nat)
    requires AllBelow(s, answers, k)
    ensures Answers(s, answers)
  {
    hide ByteStreams.Answer, Level;
  }

  /** The endpoint reads whatever lines are in the greeting, as far as it goes. */
  lemma {:induction false} Drained(s: Settings, ep: Endpoint, y: Ends, lines: seq<string>)
    returns (y': Ends, replies: seq<string>)
    requires Reachable(s, ep, y) && y.toServer == Glued(lines) && NoFeed(lines) && NickPlain(y.server)
    ensures Reachable(s, ep, y') && y'.client == y.client && y'.framer == y.framer && NickPlain(y'.server)
    ensures y'.toClient == y.toClient + Stream(replies) && (y'.server.up ==> y'.toServer == "")
    decreases |lines|
  {
    hide Advance, Serve, Stream, Glued, Reachable, NickPlain;
    if lines == [] || !y.server.up {
      y', replies := y, [];
      NothingSent();
      NothingGlued();
      assert y.toClient + "" == y.toClient;
    } else {
      var said := Serve(ep, y.server, lines[0]).1;
      var server := AdvanceRead(s, ep, y, lines);
      ReadSays(s, ep, y, lines);
      ReachNext(s, ep, y, EndpointReads);
      ServeNickPlain(ep, y.server, lines[0]);
      assert NoFeed(lines[1..]);
      var more;
      y', more := Drained(s, ep, Advance(s, ep, y, EndpointReads), lines[1..]);
      replies := said + more;
      StreamAppend(said, more);
      Regroup(y.toClient, Stream(said), Stream(more));
    }
  }

  lemma NothingGlued()
    ensures Glued([]) == ""
  {
  }

  lemma GreetingDrained(s: Settings, ep: Endpoint) returns (y: Ends, replies: seq<string>)
    ensures Reachable(s, ep, y) && y.client == Client(Begin(s), true) && y.framer == IDLE && NickPlain(y.server)
    ensures y.toClient == Stream([NOTICE_LINE] + replies) && (y.server.up ==> y.toServer == "")
  {
    hide Stream, Glued, Cut, Reachable;
    BegunReachable(s, ep);
    StreamGlued(Greeting(s) + Joins(s.channels));
    y, replies := Drained(s, ep, Begun(s, ep), GreetingLines(s));
    StreamAppend([NOTICE_LINE], replies);
  }

  /** Every configuration and every endpoint has a course that ends. */
  lemma SomeCourseEnds(s: Settings, ep: Endpoint)
    ensures HasEnd(s, ep)
  {
    hide Reachable, NickPlain, Stream, HearAll, Frames, HasEnd, MildFrames, AllBelow, Advance, Feed;
    var y, replies := GreetingDrained(s, ep);
    var lines := [NOTICE_LINE] + replies;
    FeedIn(lines);
    FedToTheEnd(HearOf(s), y.client, lines);
    ReceivesEverything(s, ep, y);
    ReachNext(s, ep, y, ClientReceives(|y.toClient|));
    AnythingMild(s, Stream(lines));
    HearMild(s, y.client, Frames(Stream(lines)), 4);
    var y' := Advance(s, ep, y, ClientReceives(|y.toClient|));
    var said := HearAll(HearOf(s), y.client, Frames(Stream(lines))).1;
    if y'.server.up {
      assert "" + Stream(said) == Stream(said);
      NothingSent();
      assert Meets(s, ep, y', System(y'.client, y'.server, said, []));
      Finishes(s, ep, y'.client, y'.server, said, 4);
    } else {
      DownIsEnd(s, ep, y');
    }
  }

  lemma DownIsEnd(s: Settings, ep: Endpoint, y: Ends)
    requires Reachable(s, ep, y) && !y.server.up && y.toClient == ""
    ensures HasEnd(s, ep)
  {
    hide Course;
    var schedule: nat -> Event, n: nat :| Course(s, ep, schedule, n) == y;
    assert Fairness.Quiet(Course(s, ep, schedule, n));
  }

  /** For every configuration and every endpoint there is one outcome, and every fair run reaches it:
      the states of both sides in which nothing can happen any more, the same under every fair
      schedule and however the bytes are split. */
  lemma EveryFairRunEnds(s: Settings, ep: Endpoint) returns (client: Client, server: Server)
    ensures forall schedule: nat -> Event | Fair(schedule) :: Arrives(s, ep, schedule, client, server)
    ensures forall schedule: nat -> Event, n: nat | Fairness.Quiet(Course(s, ep, schedule, n)) ::
              Course(s, ep, schedule, n).client == client && Course(s, ep, schedule, n).server == server
  {
    hide Course, Fairness.Quiet, Fair;
    SomeCourseEnds(s, ep);
    var a: nat -> Event, m: nat :| Fairness.Quiet(Course(s, ep, a, m));
    client, server := Course(s, ep, a, m).client, Course(s, ep, a, m).server;
    forall schedule: nat -> Event | Fair(schedule)
      ensures Arrives(s, ep, schedule, client, server)
    {
      var n := FairRunsEndAlike(s, ep, a, m, schedule);
    }
    forall schedule: nat -> Event, n: nat | Fairness.Quiet(Course(s, ep, schedule, n))
      ensures Course(s, ep, schedule, n).client == client && Course(s, ep, schedule, n).server == server
    {
      OneOutcome(s, ep, schedule, n, a, m);
    }
  }

  ghost predicate Arrives(s: Settings, ep: Endpoint, schedule: nat -> Event, client: Client, server: Server) {
    exists n: nat ::
      Fairness.Quiet(Course(s, ep, schedule, n))
      && Course(s, ep, schedule, n).client == client && Course(s, ep, schedule, n).server == server
  }
}
