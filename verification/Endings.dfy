// How every fair run ends, with or without CAP and SASL on either side: one course of events is
// followed to its end, and by determinacy every other ends like it.
module Endings {
  import opened Text
  import opened Irc
  import opened Framing
  import opened Settings
  import opened ModernIrc
  import opened OneNetwork
  import opened Fixture
  import opened Handshake
  import opened ByteStreams
  import opened Registration
  import opened Outcome
  import opened Fairness
  import opened Registering
  import opened Determinacy

  // ------------------------------------------------------------- lines instead of bytes

  ghost predicate Meets(s: Settings, ep: Endpoint, y: Ends, x: System) {
    && Reachable(s, ep, y) && y.client == x.client && y.server == x.server && y.framer == IDLE
    && y.toServer == Stream(x.toServer) && y.toClient == Stream(x.toClient)
  }

  /** Some course of events leads to these two ends with these lines on their way. */
  ghost predicate CanMeet(s: Settings, ep: Endpoint, x: System) {
    exists y: Ends :: Meets(s, ep, y, x)
  }

  lemma BeginsSo(s: Settings, ep: Endpoint)
    ensures CanMeet(s, ep, System(Client(Begin(s), true), Setup(ep), Greeting(s) + Joins(s.channels), [NOTICE_LINE]))
  {
    BegunReachable(s, ep);
    assert Meets(s, ep, Begun(s, ep),
                 System(Client(Begin(s), true), Setup(ep), Greeting(s) + Joins(s.channels), [NOTICE_LINE]));
  }

  lemma ReadOne(s: Settings, ep: Endpoint, c: Client, v: Server, lines: seq<string>, waiting: seq<string>)
    requires CanMeet(s, ep, System(c, v, lines, waiting)) && NoFeed(lines) && lines != [] && v.up
    ensures var (v', said) := Serve(ep, v, lines[0]);
            CanMeet(s, ep, System(c, v', lines[1..], waiting + said))
  {
    hide Serve, Stream, Advance, Reachable;
    var y: Ends :| Meets(s, ep, y, System(c, v, lines, waiting));
    var (v', said) := Serve(ep, v, lines[0]);
    FeedIn(lines);
    ReadsLine(s, ep, y, lines);
    ReachNext(s, ep, y, EndpointReads);
    StreamAppend(waiting, said);
    assert Meets(s, ep, Advance(s, ep, y, EndpointReads), System(c, v', lines[1..], waiting + said));
  }

  lemma FeedIn(lines: seq<string>)
    requires lines != []
    ensures '\n' in Stream(lines)
  {
    StreamFirst(lines);
  }

  lemma {:induction false} ShortSurvive(lines: seq<string>)
    requires ShortLines(lines)
    ensures Surviving(lines) == lines
  {
    if lines != [] {
      assert |lines[0]| < LINE_MAX && ShortLines(lines[1..]);
      ShortSurvive(lines[1..]);
      assert [lines[0]] + lines[1..] == lines;
    }
  }

  /** One feed of short lines. */
  lemma FeedShort(hear: Ear, c: Client, lines: seq<string>)
    requires ShortLines(lines) && c.open
    ensures var fed := Feed(IDLE, Stream(lines), Hearing(hear), (c, []));
            fed.state == HearAll(hear, c, lines) && fed.framer == IDLE
  {
    hide Stream, Feed, Deliver, HearAll, Surviving, Framing.Accepted, Cut;
    FeedMeaning("", Stream(lines), Hearing(hear), (c, []));
    assert "" + Stream(lines) == Stream(lines) && Stream(lines) + "" == Stream(lines) && Pending("") == IDLE;
    CutLines(lines, "");
    AcceptedLines(lines);
    ShortSurvive(lines);
    DeliverIsHearAll(hear, c, [], lines);
    assert [] + HearAll(hear, c, lines).1 == HearAll(hear, c, lines).1;
  }

  /** The client receives everything on its way at once. */
  lemma HearThem(s: Settings, ep: Endpoint, c: Client, v: Server, lines: seq<string>, waiting: seq<string>)
    requires CanMeet(s, ep, System(c, v, waiting, lines)) && ShortLines(lines) && lines != [] && c.open
    ensures var (c', said) := HearAll(HearOf(s), c, lines);
            CanMeet(s, ep, System(c', v, waiting + said, []))
  {
    hide Serve, Stream, Reachable, Feed, HearAll;
    var y: Ends :| Meets(s, ep, y, System(c, v, waiting, lines));
    var (c', said) := HearAll(HearOf(s), c, lines);
    FeedIn(lines);
    FeedShort(HearOf(s), c, lines);
    ReceivesEverything(s, ep, y);
    ReachNext(s, ep, y, ClientReceives(|y.toClient|));
    StreamAppend(waiting, said);
    NothingSent();
    assert Meets(s, ep, Advance(s, ep, y, ClientReceives(|y.toClient|)), System(c', v, waiting + said, []));
  }

  lemma NothingSent()
    ensures Stream([]) == ""
  {
  }

  lemma ReceivesEverything(s: Settings, ep: Endpoint, y: Ends)
    requires y.client.open && y.toClient != ""
    ensures var fed := Feed(y.framer, y.toClient, Hearing(HearOf(s)), (y.client, []));
            Advance(s, ep, y, ClientReceives(|y.toClient|))
              == Ends(fed.state.0, fed.framer, y.server, y.toServer + Stream(fed.state.1), "")
  {
    hide Feed, Stream;
    assert y.toClient[..|y.toClient|] == y.toClient && y.toClient[|y.toClient|..] == "";
  }

  /** The endpoint after some lines, as long as it reads, with what it sends and what it leaves. */
  function ReadAll(ep: Endpoint, v: Server, lines: seq<string>): (Server, seq<string>, seq<string>)
    decreases |lines|
  {
    if lines == [] || !v.up then (v, [], lines)
    else
      var (v', said) := Serve(ep, v, lines[0]);
      var (v'', more, left) := ReadAll(ep, v', lines[1..]);
      (v'', said + more, left)
  }

  lemma {:induction false} ReadThem(s: Settings, ep: Endpoint, c: Client, v: Server,
                                    lines: seq<string>, waiting: seq<string>)
    requires CanMeet(s, ep, System(c, v, lines, waiting)) && NoFeed(lines)
    ensures var (v', said, left) := ReadAll(ep, v, lines);
            CanMeet(s, ep, System(c, v', left, waiting + said))
    decreases |lines|
  {
    hide Serve, CanMeet;
    if lines == [] || !v.up {
      assert waiting + [] == waiting;
    } else {
      var (v', said) := Serve(ep, v, lines[0]);
      ReadOne(s, ep, c, v, lines, waiting);
      assert NoFeed(lines[1..]);
      ReadThem(s, ep, c, v', lines[1..], waiting + said);
      Assoc(waiting, said, ReadAll(ep, v', lines[1..]).1);
    }
  }

  lemma {:induction false} ReadAppend(ep: Endpoint, v: Server, a: seq<string>, b: seq<string>)
    requires ReadAll(ep, v, a).0.up
    ensures var ((v', said, _), all) := (ReadAll(ep, v, a), ReadAll(ep, v, a + b));
            var (v'', more, left) := ReadAll(ep, v', b);
            all == (v'', said + more, left)
    decreases |a|
  {
    hide Serve;
    if a == [] {
      assert a + b == b && [] + ReadAll(ep, v, b).1 == ReadAll(ep, v, b).1;
    } else if v.up {
      var (v', said) := Serve(ep, v, a[0]);
      assert (a + b)[0] == a[0] && (a + b)[1..] == a[1..] + b;
      ReadAppend(ep, v', a[1..], b);
      var first := ReadAll(ep, v', a[1..]);
      Assoc(said, first.1, ReadAll(ep, first.0, b).1);
    }
  }

  lemma ReadSingle(ep: Endpoint, v: Server, line: string)
    requires v.up
    ensures var (v', said) := Serve(ep, v, line); ReadAll(ep, v, [line]) == (v', said, [])
  {
    hide Serve;
    var (v', said) := Serve(ep, v, line);
    assert [line][1..] == [] && ReadAll(ep, v', []) == (v', [], []) && said + [] == said;
  }

  lemma {:induction false} HearAppend(hear: Ear, c: Client, a: seq<string>, b: seq<string>)
    ensures var ((c', said), all) := (HearAll(hear, c, a), HearAll(hear, c, a + b));
            var (c'', more) := HearAll(hear, c', b);
            all == (c'', said + more)
    decreases |a|
  {
    if a == [] || !c.open {
      assert [] + b == b && [] + HearAll(hear, c, b).1 == HearAll(hear, c, b).1;
    } else {
      var (c', said) := hear(c, a[0]);
      assert (a + b)[0] == a[0] && (a + b)[1..] == a[1..] + b;
      HearAppend(hear, c', a[1..], b);
      var first := HearAll(hear, c', a[1..]);
      Assoc(said, first.1, HearAll(hear, first.0, b).1);
    }
  }

  lemma HearSingle(hear: Ear, c: Client, line: string)
    requires c.open
    ensures HearAll(hear, c, [line]) == hear(c, line)
  {
    var (c', said) := hear(c, line);
    assert [line][1..] == [] && HearAll(hear, c', []) == (c', []) && said + [] == said;
  }

  // ------------------------------------------------------------------------ the ends

  /** Some course comes to an end with the client registered or not, and connected or not. */
  ghost predicate CanEnd(s: Settings, ep: Endpoint, registered: bool, open: bool) {
    exists schedule: nat -> Event, n: nat :: EndsSo(Course(s, ep, schedule, n), registered, open)
  }

  predicate EndsSo(y: Ends, registered: bool, open: bool) {
    Fairness.Quiet(y) && y.server.registered == registered && y.client.open == open
  }

  lemma EndsHere(s: Settings, ep: Endpoint, x: System)
    requires CanMeet(s, ep, x) && (x.server.up ==> x.toServer == []) && (x.client.open ==> x.toClient == [])
    ensures CanEnd(s, ep, x.server.registered, x.client.open)
  {
    hide Course;
    var y: Ends :| Meets(s, ep, y, x);
    NothingSent();
    assert EndsSo(y, x.server.registered, x.client.open);
    var schedule: nat -> Event, n: nat :| Course(s, ep, schedule, n) == y;
  }

  // ----------------------------------------------------------------- the greeting is read

  function CapLines(s: Settings): seq<string> {
    if s.cap then [CAP_LS] else []
  }

  function PassLines(s: Settings): seq<string> {
    if s.pass != "" then ["PASS " + s.pass] else []
  }

  function NickLine(s: Settings): string {
    "NICK " + s.nick
  }

  function UserLine(s: Settings): string {
    "USER " + (s.user + " 0 * :AmBot")
  }

  function JoinLines(channels: seq<string>): seq<string> {
    if channels == [] then [] else ["JOIN " + channels[0]] + JoinLines(channels[1..])
  }

  lemma GreetingParts(s: Settings)
    requires Bounded(s)
    ensures Greeting(s) == CapLines(s) + (PassLines(s) + [NickLine(s), UserLine(s)])
  {
    assert Get(s, Pass).Str? && Get(s, Nick).Str? && Get(s, User).Str?;
    assert "USER " + s.user + " 0 * :AmBot" == UserLine(s);
  }

  lemma {:induction false} JoinParts(channels: seq<string>)
    requires forall i | 0 <= i < |channels| :: |channels[i]| <= CHANNEL_MAX
    ensures Joins(channels) == JoinLines(channels)
  {
    if channels != [] {
      assert |channels[0]| <= CHANNEL_MAX;
      JoinParts(channels[1..]);
    }
  }

  /** The endpoint once it has the CAP LS and PASS lines. */
  function Opened(s: Settings, ep: Endpoint): Server {
    Setup(ep).(cap := s.cap)
  }

  function LsLines(s: Settings): seq<string> {
    if s.cap then [LS_LINE] else []
  }

  lemma ReadsOpening(s: Settings, ep: Endpoint)
    ensures ReadAll(ep, Setup(ep), CapLines(s) + PassLines(s)) == (Opened(s, ep), LsLines(s), [])
  {
    hide Serve;
    var v := Setup(ep);
    if s.cap {
      ServeLs(ep, v, CAP_LS);
      ReadSingle(ep, v, CAP_LS);
    }
    assert ReadAll(ep, v, CapLines(s)) == (Opened(s, ep), LsLines(s), []);
    ReadAppend(ep, v, CapLines(s), PassLines(s));
    if s.pass != "" {
      ServePass(ep, Opened(s, ep), s.pass);
      ReadSingle(ep, Opened(s, ep), "PASS " + s.pass);
    }
    assert LsLines(s) + [] == LsLines(s);
  }

  /** The endpoint once it has nick and user as well: without CAP and SASL it has registered. */
  function Introduced(s: Settings, ep: Endpoint): Server {
    Server(Some(NickWord(s)), Some(UserWord(s)), s.cap, false, !ep.requireSasl, AtOnce(s, ep), true)
  }

  predicate AtOnce(s: Settings, ep: Endpoint) {
    !s.cap && !ep.requireSasl
  }

  function Welcomed(s: Settings, ep: Endpoint): seq<string> {
    if AtOnce(s, ep) then [Welcome(NickWord(s)), Ping(ep)] else []
  }

  lemma ReadsNames(s: Settings, ep: Endpoint)
    requires NickWord(s) != ""
    ensures ReadAll(ep, Opened(s, ep), [NickLine(s), UserLine(s)]) == (Introduced(s, ep), Welcomed(s, ep), [])
  {
    hide Serve, NickWord, UserWord, Welcome, Ping;
    var v := Opened(s, ep);
    NickServed(s, ep);
    var named := v.(nick := Some(NickWord(s)));
    ReadSingle(ep, v, NickLine(s));
    UserServed(s, ep);
    ReadSingle(ep, named, UserLine(s));
    ReadAppend(ep, v, [NickLine(s)], [UserLine(s)]);
    assert [NickLine(s)] + [UserLine(s)] == [NickLine(s), UserLine(s)];
    assert [] + Welcomed(s, ep) == Welcomed(s, ep);
  }

  lemma NickServed(s: Settings, ep: Endpoint)
    requires NickWord(s) != ""
    ensures Serve(ep, Opened(s, ep), NickLine(s)) == (Opened(s, ep).(nick := Some(NickWord(s))), [])
  {
    hide Serve, FirstWord;
    ServeNick(ep, Opened(s, ep), s.nick);
  }

  lemma UserServed(s: Settings, ep: Endpoint)
    ensures Serve(ep, Opened(s, ep).(nick := Some(NickWord(s))), UserLine(s)) == (Introduced(s, ep), Welcomed(s, ep))
  {
    hide Serve, FirstWord, RStrip;
    UserWordExists(s);
    ServeUser(ep, Opened(s, ep).(nick := Some(NickWord(s))), s.user + " 0 * :AmBot");
  }

  /** What is echoed for some channels. */
  function AllEchoes(w: string, channels: seq<string>): seq<string> {
    if channels == [] then [] else Echoes(w, ChannelWord(channels[0])) + AllEchoes(w, channels[1..])
  }

  predicate ChannelNames(channels: seq<string>) {
    forall i | 0 <= i < |channels| :: channels[i] != "" && channels[i][0] == '#'
  }

  lemma {:induction false} ReadsJoins(ep: Endpoint, v: Server, channels: seq<string>)
    requires v.up && v.nick.Some? && ChannelNames(channels)
    ensures ReadAll(ep, v, JoinLines(channels)) == (v, AllEchoes(v.nick.value, channels), [])
  {
    hide Serve, Echoes, ChannelWord;
    if channels != [] {
      ChannelWordExists(channels[0]);
      ServeJoin(ep, v, channels[0]);
      ReadsJoins(ep, v, channels[1..]);
      var lines := JoinLines(channels);
      assert lines[0] == "JOIN " + channels[0] && lines[1..] == JoinLines(channels[1..]);
    }
  }

  function Replies(s: Settings, ep: Endpoint): seq<string> {
    LsLines(s) + (Welcomed(s, ep) + AllEchoes(NickWord(s), s.channels))
  }

  lemma ReadsGreeting(s: Settings, ep: Endpoint)
    requires Willing(s, ep) && NickWord(s) != ""
    ensures ReadAll(ep, Setup(ep), Greeting(s) + Joins(s.channels)) == (Introduced(s, ep), Replies(s, ep), [])
  {
    hide ReadAll, Bounded, NickWord, Welcomed, AllEchoes, LsLines, NickLine, UserLine;
    GreetingAsSent(s, ep);
    ReadsOpening(s, ep);
    ReadsNames(s, ep);
    ReadsJoins(ep, Introduced(s, ep), s.channels);
    var first, names, joins := CapLines(s) + PassLines(s), [NickLine(s), UserLine(s)], JoinLines(s.channels);
    ReadAppend(ep, Opened(s, ep), names, joins);
    ReadAppend(ep, Setup(ep), first, names + joins);
  }

  lemma GreetingAsSent(s: Settings, ep: Endpoint)
    requires Willing(s, ep)
    ensures Greeting(s) + Joins(s.channels)
         == (CapLines(s) + PassLines(s)) + ([NickLine(s), UserLine(s)] + JoinLines(s.channels))
  {
    hide NickLine, UserLine, JoinLines, Greeting, Joins, CapLines, PassLines;
    GreetingParts(s);
    forall i | 0 <= i < |s.channels|
      ensures |s.channels[i]| <= CHANNEL_MAX
    {
      assert s.channels[i] in s.channels;
    }
    JoinParts(s.channels);
    Rebracket(CapLines(s), PassLines(s), [NickLine(s), UserLine(s)], JoinLines(s.channels));
  }

  lemma Rebracket(a: seq<string>, b: seq<string>, c: seq<string>, d: seq<string>)
    ensures a + (b + c) + d == (a + b) + (c + d)
  {
  }

  // ------------------------------------------------------------- the client hears the replies

  const ENDED := Modern(true, false, false, true)

  lemma NegotiatesNothing(s: Settings, m: Modern, line: string)
    requires !m.capActive || m.capEnded
    ensures Negotiate(s, m, line) == (m, ModernIrc.Quiet)
  {
  }

  lemma HearsNotice(s: Settings, m: Modern)
    ensures HearAll(HearOf(s), Client(m, true), [NOTICE_LINE]) == (Client(m, true), [])
  {
    hide Hear, Negotiate, HearAll;
    NoticeSaysNothing(s, m);
    assert NOTICE_LINE[0] == ':';
    HearPlainly(s, m, NOTICE_LINE, m, ModernIrc.Quiet);
    HearSingle(HearOf(s), Client(m, true), NOTICE_LINE);
  }

  lemma LsEnds(s: Settings)
    requires !s.sasl
    ensures Negotiate(s, M0, LS_LINE) == (ENDED, Say(CAP_END))
  {
    hide Contains;
    assert ":fixture CAP * " + "LS" + " :sasl" == LS_LINE;
    CapLine("LS", LS_LINE);
  }

  lemma HearsLs(s: Settings)
    requires s.cap
    ensures HearAll(HearOf(s), Client(M0, true), [LS_LINE])
         == if s.sasl then (Client(M1, true), [CAP_REQ]) else (Client(ENDED, true), [CAP_END])
  {
    hide Hear, Negotiate, HearAll;
    assert LS_LINE[0] == ':';
    if s.sasl {
      Registration.HearLs(s);
      HearPlainly(s, M0, LS_LINE, M1, Say(CAP_REQ));
    } else {
      LsEnds(s);
      HearPlainly(s, M0, LS_LINE, ENDED, Say(CAP_END));
    }
    HearSingle(HearOf(s), Client(M0, true), LS_LINE);
  }

  function PongLine(ep: Endpoint): string {
    "PONG " + Ping(ep)[5..]
  }

  /** Welcome and ping, once negotiation is over. */
  lemma HearsWelcome(s: Settings, ep: Endpoint, m: Modern, w: string)
    requires (!m.capActive || m.capEnded) && |ep.network| <= 500
    ensures HearAll(HearOf(s), Client(m, true), [Welcome(w), Ping(ep)]) == (Client(m, true), [PongLine(ep)])
  {
    hide Hear, Negotiate, HearAll, Welcome, Ping;
    NegotiatesNothing(s, m, Welcome(w));
    WelcomeIsPlain(w);
    HearPlainly(s, m, Welcome(w), m, ModernIrc.Quiet);
    HearSingle(HearOf(s), Client(m, true), Welcome(w));
    HearsPing(s, ep, m);
    HearSingle(HearOf(s), Client(m, true), Ping(ep));
    HearAppend(HearOf(s), Client(m, true), [Welcome(w)], [Ping(ep)]);
    assert [Welcome(w)] + [Ping(ep)] == [Welcome(w), Ping(ep)] && [] + [PongLine(ep)] == [PongLine(ep)];
  }

  lemma WelcomeIsPlain(w: string)
    ensures Welcome(w) != "" && Welcome(w)[0] == ':'
  {
  }

  lemma HearsPing(s: Settings, ep: Endpoint, m: Modern)
    requires (!m.capActive || m.capEnded) && |ep.network| <= 500
    ensures Hear(s, Client(m, true), Ping(ep)) == (Client(m, true), [PongLine(ep)])
  {
    hide Negotiate;
    NegotiatesNothing(s, m, Ping(ep));
    assert |Ping(ep)| <= LINE_MAX && "PING " <= Ping(ep);
    assert [] + Pong(Ping(ep)) == [PongLine(ep)];
  }

  lemma HearsEcho(s: Settings, m: Modern, w: string, ch: string)
    requires OneWord(w) && OneWord(ch) && ch != "" && ch[0] == '#'
    ensures HearAll(HearOf(s), Client(m, true), Echoes(w, ch)) == (Client(m, true), [])
  {
    hide Hear, Negotiate;
    var lines := Echoes(w, ch);
    forall i | 0 <= i < 4
      ensures Hear(s, Client(m, true), lines[i]) == (Client(m, true), [])
    {
      EchoesSayNothing(s, m, w, ch, i);
      HearPlainly(s, m, lines[i], m, ModernIrc.Quiet);
    }
    SilentLines(HearOf(s), Client(m, true), lines);
  }

  lemma NothingMore(said: seq<string>)
    ensures said + [] == said && [] + said == said
  {
  }

  lemma {:induction false} SilentLines(hear: Ear, c: Client, lines: seq<string>)
    requires forall i | 0 <= i < |lines| :: hear(c, lines[i]) == (c, [])
    ensures HearAll(hear, c, lines) == (c, [])
    decreases |lines|
  {
    if lines != [] && c.open {
      assert hear(c, lines[0]) == (c, []);
      SilentLines(hear, c, lines[1..]);
      NothingMore([]);
    }
  }

  lemma {:induction false} HearsEchoes(s: Settings, m: Modern, w: string, channels: seq<string>)
    requires OneWord(w) && ChannelNames(channels)
    ensures HearAll(HearOf(s), Client(m, true), AllEchoes(w, channels)) == (Client(m, true), [])
  {
    hide Hear, Echoes, ChannelWord;
    if channels != [] {
      ChannelWordExists(channels[0]);
      HearsEcho(s, m, w, ChannelWord(channels[0]));
      HearsEchoes(s, m, w, channels[1..]);
      HearAppend(HearOf(s), Client(m, true), Echoes(w, ChannelWord(channels[0])), AllEchoes(w, channels[1..]));
    }
  }

  /** The client once it has heard all of that, and what it has said. */
  function Reply1(s: Settings, ep: Endpoint): (Client, seq<string>) {
    if s.cap && s.sasl then (Client(M1, true), [CAP_REQ])
    else if s.cap then (Client(ENDED, true), [CAP_END])
    else (Client(Begin(s), true), if AtOnce(s, ep) then [PongLine(ep)] else [])
  }

  lemma HearsLsLines(s: Settings)
    ensures HearAll(HearOf(s), Client(Begin(s), true), LsLines(s))
         == if s.cap && s.sasl then (Client(M1, true), [CAP_REQ])
            else if s.cap then (Client(ENDED, true), [CAP_END]) else (Client(Begin(s), true), [])
  {
    hide Hear;
    if s.cap {
      HearsLs(s);
    }
  }

  lemma HearsReplies(s: Settings, ep: Endpoint)
    requires Named(s, ep)
    ensures HearAll(HearOf(s), Client(Begin(s), true), [NOTICE_LINE] + Replies(s, ep)) == Reply1(s, ep)
  {
    hide HearAll, Hear, NickWord, AllEchoes, LsLines, Ping, Welcome, Bounded;
    var hear, c0 := HearOf(s), Client(Begin(s), true);
    var c1, said := HearAll(hear, c0, LsLines(s)).0, HearAll(hear, c0, LsLines(s)).1;
    HearsNotice(s, Begin(s));
    HearsLsLines(s);
    if AtOnce(s, ep) {
      HearsWelcome(s, ep, Begin(s), NickWord(s));
    } else {
      HearsNothing(hear, c1);
    }
    NickWordPlain(s);
    HearsEchoes(s, c1.modern, NickWord(s), s.channels);
    HearAppend(hear, c1, Welcomed(s, ep), AllEchoes(NickWord(s), s.channels));
    HearAppend(hear, c0, LsLines(s), Welcomed(s, ep) + AllEchoes(NickWord(s), s.channels));
    HearAppend(hear, c0, [NOTICE_LINE], Replies(s, ep));
    var more := HearAll(hear, c1, Welcomed(s, ep)).1;
    NothingMore(said);
    NothingMore(more);
    NothingMore(said + more);
  }

  lemma HearsNothing(hear: Ear, c: Client)
    ensures HearAll(hear, c, []) == (c, [])
  {
  }

  lemma NickWordPlain(s: Settings)
    ensures OneWord(NickWord(s))
  {
  }

  // ----------------------------------------------------------------- the lines are short

  lemma ShortTogether(a: seq<string>, b: seq<string>)
    requires ShortLines(a) && ShortLines(b)
    ensures ShortLines(a + b)
  {
    forall i | 0 <= i < |a + b|
      ensures IsLine((a + b)[i]) && |(a + b)[i]| < LINE_MAX
    {
      assert (a + b)[i] == if i < |a| then a[i] else b[i - |a|];
    }
  }

  lemma TidyIsShort(line: string)
    requires Tidy(line, LINE_MAX - 1)
    ensures ShortLines([line])
  {
  }

  lemma WelcomeShort(ep: Endpoint, w: string)
    requires Tidy(w, 31) && Tidy(ep.network, 500)
    ensures ShortLines([Welcome(w), Ping(ep)])
  {
    WelcomeTidy(w);
    PingIsLine(ep);
  }

  lemma EchoesShort(w: string, ch: string)
    requires Tidy(w, 31) && Tidy(ch, CHANNEL_MAX)
    ensures ShortLines(Echoes(w, ch))
  {
    hide TextLine, Tidy;
    var lines := Echoes(w, ch);
    forall i | 0 <= i < |lines|
      ensures IsLine(lines[i]) && |lines[i]| < LINE_MAX
    {
      EchoClean(w, ch, i);
      TidyIsShort(lines[i]);
      assert [lines[i]][0] == lines[i];
    }
  }

  lemma {:induction false} AllEchoesShort(w: string, channels: seq<string>)
    requires Tidy(w, 31) && forall i | 0 <= i < |channels| :: Tidy(ChannelWord(channels[i]), CHANNEL_MAX)
    ensures ShortLines(AllEchoes(w, channels))
  {
    hide Echoes, Tidy, ChannelWord;
    if channels != [] {
      EchoesShort(w, ChannelWord(channels[0]));
      AllEchoesShort(w, channels[1..]);
      ShortTogether(Echoes(w, ChannelWord(channels[0])), AllEchoes(w, channels[1..]));
    }
  }

  lemma FirstLinesShort(s: Settings)
    ensures ShortLines([NOTICE_LINE] + LsLines(s))
  {
    NoticeTidy();
    FixedLinesTidy();
  }

  lemma RepliesShort(s: Settings, ep: Endpoint)
    requires Named(s, ep)
    ensures ShortLines([NOTICE_LINE] + Replies(s, ep))
  {
    hide ShortLines, Welcome, Ping, NickWord, ChannelWord, AllEchoes, LsLines;
    FirstLinesShort(s);
    NickWordShort(s, ep);
    forall i | 0 <= i < |s.channels|
      ensures Tidy(ChannelWord(s.channels[i]), CHANNEL_MAX)
    {
      ChannelWordShort(s, ep, i);
    }
    AllEchoesShort(NickWord(s), s.channels);
    WelcomedShort(s, ep);
    var welcomed, echoes := Welcomed(s, ep), AllEchoes(NickWord(s), s.channels);
    ShortTogether(welcomed, echoes);
    ShortTogether([NOTICE_LINE] + LsLines(s), welcomed + echoes);
    assert [NOTICE_LINE] + LsLines(s) + (welcomed + echoes) == [NOTICE_LINE] + (LsLines(s) + (welcomed + echoes));
  }

  lemma WelcomedShort(s: Settings, ep: Endpoint)
    requires Named(s, ep)
    ensures ShortLines(Welcomed(s, ep))
  {
    hide Welcome, Ping;
    NickWordShort(s, ep);
    WelcomeShort(ep, NickWord(s));
  }

  lemma GreetingNoFeed(s: Settings)
    requires SendsLines(s)
    ensures NoFeed(Greeting(s) + Joins(s.channels))
  {
    hide Greeting, Joins;
    assert OneLineEach(s);
    GreetingOneLine(s);
    JoinsOneLine(s.channels);
    NoFeedTogether(Greeting(s), Joins(s.channels));
  }

  lemma NoFeedTogether(a: seq<string>, b: seq<string>)
    requires NoFeed(a) && NoFeed(b)
    ensures NoFeed(a + b)
  {
    forall i | 0 <= i < |a + b|
      ensures '\n' !in (a + b)[i]
    {
      assert (a + b)[i] == if i < |a| then a[i] else b[i - |a|];
    }
  }

  // ---------------------------------------------------------------------- one line at a time

  /** The endpoint reads the client's one line, and the client hears the answer. */
  lemma Exchange(s: Settings, ep: Endpoint, c: Client, v: Server, line: string, v': Server, answer: string,
                 c': Client, said: seq<string>)
    requires CanMeet(s, ep, System(c, v, [line], [])) && '\n' !in line && v.up && c.open
    requires Serve(ep, v, line) == (v', [answer]) && Hear(s, c, answer) == (c', said) && ShortLines([answer])
    ensures CanMeet(s, ep, System(c', v', said, []))
  {
    hide CanMeet, Serve, Hear, HearAll, ShortLines;
    ReadOne(s, ep, c, v, [line], []);
    assert [line][1..] == [] && [] + [answer] == [answer] && [] + said == said;
    HearThem(s, ep, c, v', [answer], []);
    HearSingle(HearOf(s), c, answer);
  }

  /** The client has said CAP END, and nothing else is on its way: the endpoint registers it if that
      was all it waited for, whether or not the client is still there. */
  lemma LastWords(s: Settings, ep: Endpoint, c: Client, v: Server)
    requires Named(s, ep) && CanMeet(s, ep, System(c, v, [CAP_END], []))
    requires v.up && !v.registered && v.nick == Some(NickWord(s)) && v.user.Some? && c.modern.capEnded
    ensures CanEnd(s, ep, v.saslOk, c.open)
  {
    hide CanMeet, Serve, Hear, HearAll, Bounded, NickWord, Welcome, Ping;
    assert '\n' !in CAP_END;
    ReadOne(s, ep, c, v, [CAP_END], []);
    ServeEnd(ep, v, CAP_END);
    var last := MaybeRegister(ep, v.(capEnd := true));
    assert [CAP_END][1..] == [] && [] + last.1 == last.1;
    if c.open && v.saslOk {
      WelcomeAnswered(s, ep, c, last.0);
    } else {
      EndsHere(s, ep, System(c, last.0, [], last.1));
    }
  }

  lemma WelcomeAnswered(s: Settings, ep: Endpoint, c: Client, v: Server)
    requires Named(s, ep) && c.open && v.up && (!c.modern.capActive || c.modern.capEnded)
    requires CanMeet(s, ep, System(c, v, [], [Welcome(NickWord(s)), Ping(ep)]))
    ensures CanEnd(s, ep, v.registered, true)
  {
    hide CanMeet, Serve, Hear, HearAll, Bounded, NickWord, Welcome, Ping;
    NickWordShort(s, ep);
    WelcomeShort(ep, NickWord(s));
    HearThem(s, ep, c, v, [Welcome(NickWord(s)), Ping(ep)], []);
    HearsWelcome(s, ep, c.modern, NickWord(s));
    assert [] + [PongLine(ep)] == [PongLine(ep)];
    PongRead(s, ep, c, v);
  }

  lemma PongRead(s: Settings, ep: Endpoint, c: Client, v: Server)
    requires Named(s, ep) && v.up && CanMeet(s, ep, System(c, v, [PongLine(ep)], []))
    ensures CanEnd(s, ep, v.registered, c.open)
  {
    hide CanMeet, Serve, Ping, Bounded;
    PingOneLine(ep);
    ReadOne(s, ep, c, v, [PongLine(ep)], []);
    ServePong(ep, v, Ping(ep)[5..]);
    var none: seq<string> := [];
    assert [PongLine(ep)][1..] == none && none + none == none;
    EndsHere(s, ep, System(c, v, [], []));
  }

  lemma PingOneLine(ep: Endpoint)
    requires IsLine(ep.network) && |ep.network| <= 500
    ensures |Ping(ep)| >= 5 && '\n' !in PongLine(ep)
  {
    PingIsLine(ep);
    assert "PING :M9_2_"[4] == ' ';
    assert '\n' !in "PONG ";
  }

  // --------------------------------------------------------------------------- who ends how

  /** Who is registered at the end of a fair run. */
  predicate Registers(s: Settings, ep: Endpoint) {
    NickWord(s) != "" && (ep.requireSasl ==> s.cap && s.sasl && SameCredentials(s, ep))
  }

  /** Who is still connected: all but a client that has tried SASL with other credentials and has not
      taken the failure for a success. */
  predicate Stays(s: Settings, ep: Endpoint) {
    s.cap && s.sasl && NickWord(s) != "" ==> SameCredentials(s, ep) || NickWord(s) == "903"
  }

  /** The greeting exchanged: the lines read, the replies heard. */
  lemma AfterGreeting(s: Settings, ep: Endpoint)
    requires Named(s, ep) && NickWord(s) != ""
    ensures CanMeet(s, ep, System(Reply1(s, ep).0, Introduced(s, ep), Reply1(s, ep).1, []))
  {
    hide CanMeet, ReadAll, HearAll, Replies, Greeting, Joins, Introduced, Reply1, Hear, NickWord, Named, ShortLines;
    NamedWilling(s, ep);
    BeginsSo(s, ep);
    GreetingNoFeed(s);
    var c, lines := Client(Begin(s), true), Greeting(s) + Joins(s.channels);
    ReadThem(s, ep, c, Setup(ep), lines, [NOTICE_LINE]);
    ReadsGreeting(s, ep);
    RepliesShort(s, ep);
    HearThem(s, ep, c, Introduced(s, ep), [NOTICE_LINE] + Replies(s, ep), []);
    HearsReplies(s, ep);
    assert [] + Reply1(s, ep).1 == Reply1(s, ep).1;
  }

  lemma NamedWilling(s: Settings, ep: Endpoint)
    requires Named(s, ep)
    ensures Willing(s, ep) && SendsLines(s) && IsLine(ep.network) && |ep.network| <= 500
  {
  }

  /** A client without CAP. */
  lemma PlainEnds(s: Settings, ep: Endpoint)
    requires Named(s, ep) && NickWord(s) != "" && !s.cap
    ensures CanEnd(s, ep, !ep.requireSasl, true)
  {
    hide CanMeet, Named, NickWord, UserWord, Ping;
    AfterGreeting(s, ep);
    if AtOnce(s, ep) {
      PongRead(s, ep, Client(Begin(s), true), Introduced(s, ep));
    } else {
      EndsHere(s, ep, System(Client(Begin(s), true), Introduced(s, ep), [], []));
    }
  }

  /** A client with CAP and without SASL. */
  lemma CapEnds(s: Settings, ep: Endpoint)
    requires Named(s, ep) && NickWord(s) != "" && s.cap && !s.sasl
    ensures CanEnd(s, ep, !ep.requireSasl, true)
  {
    hide CanMeet, Named, NickWord, UserWord;
    AfterGreeting(s, ep);
    LastWords(s, ep, Client(ENDED, true), Introduced(s, ep));
  }

  /** Up to the verdict on the credentials. */
  lemma SaslAsked(s: Settings, ep: Endpoint)
    requires Named(s, ep) && NickWord(s) != "" && s.cap && s.sasl
    ensures CanMeet(s, ep, System(Client(M1, true), Introduced(s, ep), [Payload(s)], []))
  {
    hide CanMeet, Named, NickWord, UserWord, Serve, Hear, ShortLines, Negotiate, Payload;
    var c, v := Client(M1, true), Introduced(s, ep);
    AfterGreeting(s, ep);
    ShortFixed();
    ServeReq(ep, v, CAP_REQ);
    HearAck(s);
    HearPlainly(s, M1, ACK_LINE, M1, Say(AUTH_PLAIN));
    Exchange(s, ep, c, v, CAP_REQ, v, ACK_LINE, c, [AUTH_PLAIN]);
    ServePlain(ep, v, AUTH_PLAIN);
    NamedBounded(s, ep);
    HearAuthLine(s);
    Exchange(s, ep, c, v, AUTH_PLAIN, v, AUTH_LINE, c, [Payload(s)]);
  }

  lemma NamedBounded(s: Settings, ep: Endpoint)
    requires Named(s, ep)
    ensures Bounded(s) && AllOctets(s, ep)
  {
  }

  lemma HearAuthLine(s: Settings)
    requires Bounded(s)
    ensures Hear(s, Client(M1, true), AUTH_LINE) == (Client(M1, true), [Payload(s)])
  {
    hide Hear, Negotiate;
    ConfiguredCredentialsFit(s);
    HearAuth(s);
    assert AUTH_LINE[0] == 'A';
    HearPlainly(s, M1, AUTH_LINE, M1, Say(Payload(s)));
  }

  lemma ShortFixed()
    ensures ShortLines([ACK_LINE]) && ShortLines([AUTH_LINE])
    ensures ACK_LINE[0] == ':' && AUTH_LINE[0] == 'A' && '\n' !in CAP_REQ && '\n' !in AUTH_PLAIN
  {
    FixedLinesTidy();
  }

  /** The client once it has heard the verdict. */
  function AfterVerdict(s: Settings, same: bool): Client {
    if same || NickWord(s) == "903" then Client(DONE, true) else Client(GIVEN_UP, false)
  }

  lemma HearVerdict(s: Settings, same: bool)
    ensures var w := NickWord(s);
            Hear(s, Client(M1, true), if same then Success(w) else Failure(w)) == (AfterVerdict(s, same), [CAP_END])
  {
    hide Hear, Negotiate;
    var w := NickWord(s);
    assert Success(w)[0] == ':' && Failure(w)[0] == ':';
    if same {
      HearSuccess(s, w);
      HearPlainly(s, M1, Success(w), DONE, Say(CAP_END));
    } else {
      HearFailure(s, w);
      HearPlainly(s, M1, Failure(w), if w == "903" then DONE else GIVEN_UP,
                  if w == "903" then Say(CAP_END) else SayAndFail(CAP_END));
    }
  }

  /** A client with SASL. */
  lemma SaslEnds(s: Settings, ep: Endpoint)
    requires Named(s, ep) && NickWord(s) != "" && s.cap && s.sasl
    ensures CanEnd(s, ep, !ep.requireSasl || SameCredentials(s, ep), SameCredentials(s, ep) || NickWord(s) == "903")
  {
    hide CanMeet, Named, NickWord, UserWord, Serve, Hear, ShortLines, Negotiate, Payload, Success, Failure;
    var same, w, v := SameCredentials(s, ep), NickWord(s), Introduced(s, ep);
    SaslAsked(s, ep);
    NamedBounded(s, ep);
    NamedWilling(s, ep);
    PayloadOneLine(s);
    ServePayload(s, ep, v, Payload(s));
    var v' := if same then v.(saslOk := true) else v;
    HearVerdict(s, same);
    NickWordShort(s, ep);
    VerdictTidy(w, same);
    TidyIsShort(if same then Success(w) else Failure(w));
    Exchange(s, ep, Client(M1, true), v, Payload(s), v', if same then Success(w) else Failure(w),
             AfterVerdict(s, same), [CAP_END]);
    LastWords(s, ep, AfterVerdict(s, same), v');
  }

  /** A nick without a word stops the endpoint. */
  lemma NoNickEnds(s: Settings, ep: Endpoint)
    requires Named(s, ep) && NickWord(s) == ""
    ensures CanEnd(s, ep, false, true)
  {
    hide CanMeet, Named, ReadAll, HearAll, Serve, Hear, ShortLines, Greeting, Joins, LsLines;
    NamedWilling(s, ep);
    BeginsSo(s, ep);
    GreetingNoFeed(s);
    var c, lines := Client(Begin(s), true), Greeting(s) + Joins(s.channels);
    ReadThem(s, ep, c, Setup(ep), lines, [NOTICE_LINE]);
    var left := NoNickRead(s, ep);
    FirstLinesShort(s);
    HearThem(s, ep, c, Opened(s, ep).(up := false), [NOTICE_LINE] + LsLines(s), left);
    HearsNotice(s, Begin(s));
    HearsLsLines(s);
    HearAppend(HearOf(s), c, [NOTICE_LINE], LsLines(s));
    var (c', said) := HearAll(HearOf(s), c, [NOTICE_LINE] + LsLines(s));
    EndsHere(s, ep, System(c', Opened(s, ep).(up := false), left + said, []));
  }

  lemma NoNickRead(s: Settings, ep: Endpoint) returns (left: seq<string>)
    requires Willing(s, ep) && NickWord(s) == ""
    ensures ReadAll(ep, Setup(ep), Greeting(s) + Joins(s.channels)) == (Opened(s, ep).(up := false), LsLines(s), left)
  {
    hide Serve, Greeting, Joins, CapLines, PassLines, JoinLines, UserLine, Bounded, FirstWord;
    GreetingAsSent(s, ep);
    ReadsOpening(s, ep);
    left := [UserLine(s)] + JoinLines(s.channels);
    var v, rest := Opened(s, ep), [NickLine(s), UserLine(s)] + JoinLines(s.channels);
    ServeNoNick(ep, v, s.nick);
    assert rest[0] == NickLine(s) && rest[1..] == left;
    assert ReadAll(ep, v.(up := false), left) == (v.(up := false), [], left);
    NothingMore([]);
    assert ReadAll(ep, v, rest) == (v.(up := false), [], left);
    ReadAppend(ep, Setup(ep), CapLines(s) + PassLines(s), rest);
    assert LsLines(s) + [] == LsLines(s);
  }

  lemma SomeEnd(s: Settings, ep: Endpoint)
    requires Named(s, ep)
    ensures CanEnd(s, ep, Registers(s, ep), Stays(s, ep))
  {
    hide Named, CanEnd, NickWord, SameCredentials;
    if NickWord(s) == "" {
      NoNickEnds(s, ep);
    } else if !s.cap {
      PlainEnds(s, ep);
    } else if !s.sasl {
      CapEnds(s, ep);
    } else {
      SaslEnds(s, ep);
    }
  }

  /** Every course that has come to an end: with or without CAP and SASL, at an endpoint that
      requires SASL or does not, the client is registered exactly when its nick has a word and, if the
      endpoint requires it, it has logged in with the endpoint's credentials; and it is still
      connected unless it tried SASL with others and its nick is not `903`. */
  lemma EndsAlike(s: Settings, ep: Endpoint, schedule: nat -> Event, n: nat)
    requires Named(s, ep) && Fairness.Quiet(Course(s, ep, schedule, n))
    ensures EndsSo(Course(s, ep, schedule, n), Registers(s, ep), Stays(s, ep))
  {
    hide Named, Fairness.Quiet, Course, Registers, Stays;
    SomeEnd(s, ep);
    var a: nat -> Event, m: nat :| EndsSo(Course(s, ep, a, m), Registers(s, ep), Stays(s, ep));
    OneOutcome(s, ep, schedule, n, a, m);
  }

  /** And every fair run comes to such an end. */
  lemma FairRunsEndSo(s: Settings, ep: Endpoint, schedule: nat -> Event) returns (n: nat)
    requires Named(s, ep) && Fair(schedule)
    ensures EndsSo(Course(s, ep, schedule, n), Registers(s, ep), Stays(s, ep))
  {
    hide Named, Fairness.Quiet, Course, Registers, Stays, Fair;
    SomeEnd(s, ep);
    var a: nat -> Event, m: nat :| EndsSo(Course(s, ep, a, m), Registers(s, ep), Stays(s, ep));
    n := FairRunsEndAlike(s, ep, a, m, schedule);
  }
}
