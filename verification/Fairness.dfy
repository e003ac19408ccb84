// How the handshake ends on byte streams: under every fair schedule, after a bounded number of
// deliveries, and always in the same way.
module Fairness {
  import opened Text
  import opened Irc
  import opened Framing
  import opened Settings
  import opened ModernIrc
  import opened OneNetwork
  import opened Fixture
  import opened Tokens
  import opened Handshake
  import opened ByteStreams
  import opened Registration
  import opened Outcome

  // --------------------------------------------------------------- the scripted lines

  predicate ShortLines(lines: seq<string>) {
    forall i | 0 <= i < |lines| :: IsLine(lines[i]) && |lines[i]| < LINE_MAX
  }

  lemma {:induction false} LStripWithin(s: string)
    requires IsLine(s)
    ensures IsLine(LStrip(s)) && |LStrip(s)| <= |s|
  {
    if s != "" && s[0] == ':' {
      LStripWithin(s[1..]);
    }
  }

  lemma {:induction false} RStripWithin(s: string)
    requires IsLine(s)
    ensures IsLine(RStrip(s)) && |RStrip(s)| <= |s|
  {
    if s != "" && (s[|s| - 1] == '\r' || s[|s| - 1] == '\n') {
      RStripWithin(s[..|s| - 1]);
    }
  }

  lemma {:induction false} LeadWithin(s: string)
    requires IsLine(s)
    ensures IsLine(Lead(s)) && |Lead(s)| <= |s|
  {
    if s != "" && !IsBlank(s[0]) {
      assert s[0] in s;
      LeadWithin(s[1..]);
    }
  }

  lemma {:induction false} FirstWordWithin(s: string)
    requires IsLine(s)
    ensures IsLine(FirstWord(s)) && |FirstWord(s)| <= |s|
  {
    if s != "" && IsBlank(s[0]) {
      FirstWordWithin(s[1..]);
    } else {
      LeadWithin(s);
    }
  }

  lemma WordsWithin(s: string)
    requires IsLine(s)
    ensures IsLine(FirstWord(LStrip(RStrip(s)))) && |FirstWord(LStrip(RStrip(s)))| <= |s|
  {
    RStripWithin(s);
    LStripWithin(RStrip(s));
    FirstWordWithin(LStrip(RStrip(s)));
  }

  lemma NickWordShort(s: Settings, ep: Endpoint)
    requires Willing(s, ep)
    ensures Tidy(NickWord(s), 31)
  {
    assert Get(s, Nick).Str?;
    WordsWithin(s.nick);
  }

  lemma ChannelWordShort(s: Settings, ep: Endpoint, j: nat)
    requires Willing(s, ep) && j < |s.channels|
    ensures Tidy(ChannelWord(s.channels[j]), CHANNEL_MAX)
  {
    assert s.channels[j] in s.channels;
    WordsWithin(s.channels[j]);
  }

  /** A text that can be part of a line, and its length. */
  predicate Tidy(s: string, max: nat) {
    IsLine(s) && |s| <= max
  }

  lemma TidyJoin(a: string, m: nat, b: string, n: nat)
    requires Tidy(a, m) && Tidy(b, n)
    ensures Tidy(a + b, m + n)
  {
  }

  lemma UpperTidy(s: string, n: nat)
    requires Tidy(s, n)
    ensures Tidy(Upper(s), n)
  {
    forall i | 0 <= i < |s|
      ensures Upper(s)[i] != '\n' && Upper(s)[i] != '\0'
    {
      assert s[i] in s;
    }
  }

  lemma PingIsLine(ep: Endpoint)
    requires Tidy(ep.network, 500)
    ensures Tidy(Ping(ep), LINE_MAX - 1)
  {
    UpperTidy(ep.network, 500);
    assert Tidy("PING :M9_2_", 11);
    TidyJoin("PING :M9_2_", 11, Upper(ep.network), 500);
  }

  lemma ConfiguredPing(s: Settings, ep: Endpoint)
    requires Configured(s, ep)
    ensures Tidy(Ping(ep), LINE_MAX - 1)
  {
    PingIsLine(ep);
  }

  lemma PayloadIsLine(s: Settings)
    ensures '\n' !in Payload(s)
  {
    PayloadOneLine(s);
  }

  lemma ClientLineClean(s: Settings, ep: Endpoint, a: nat)
    requires Configured(s, ep)
    ensures '\n' !in ClientLine(s, ep, a)
  {
    hide Ping, Bounded, PlainMessage;
    var l := Sent(s);
    if a < Opening(s) {
    } else if a < l {
      assert IsLine(s.channels[a - Opening(s)]);
    } else if a == l + 2 {
      PayloadIsLine(s);
    } else if a > l + 3 {
      PingIsLine(ep);
    }
  }

  lemma TextLineTidy(command: string, ch: string, text: string)
    requires Tidy(command, 20) && Tidy(ch, CHANNEL_MAX) && Tidy(text, 20)
    ensures Tidy(TextLine(command, ch, text), LINE_MAX - 1)
  {
    assert Tidy(":fixture-user!test@fixture ", 27) && Tidy(" ", 1);
    TidyJoin(":fixture-user!test@fixture ", 27, command, 20);
    TidyJoin(":fixture-user!test@fixture " + command, 47, " ", 1);
    TidyJoin(":fixture-user!test@fixture " + command + " ", 48, ch, CHANNEL_MAX);
    TidyJoin(":fixture-user!test@fixture " + command + " " + ch, 48 + CHANNEL_MAX, " ", 1);
    TidyJoin(":fixture-user!test@fixture " + command + " " + ch + " ", 49 + CHANNEL_MAX, text, 20);
  }

  lemma JoinEchoTidy(w: string, ch: string)
    requires Tidy(w, 31) && Tidy(ch, CHANNEL_MAX)
    ensures Tidy(":" + w + "!ambot@fixture JOIN :" + ch, LINE_MAX - 1)
  {
    assert Tidy(":", 1) && Tidy("!ambot@fixture JOIN :", 21);
    TidyJoin(":", 1, w, 31);
    TidyJoin(":" + w, 32, "!ambot@fixture JOIN :", 21);
    TidyJoin(":" + w + "!ambot@fixture JOIN :", 53, ch, CHANNEL_MAX);
  }

  lemma EchoClean(w: string, ch: string, i: nat)
    requires Tidy(w, 31) && Tidy(ch, CHANNEL_MAX) && i < 4
    ensures Tidy(Echoes(w, ch)[i], LINE_MAX - 1)
  {
    if i == 0 {
      JoinEchoTidy(w, ch);
    } else if i == 1 {
      assert Tidy("PRIVMSG", 20) && Tidy(":M9_2_HOOK", 20);
      TextLineTidy("PRIVMSG", ch, ":M9_2_HOOK");
    } else if i == 2 {
      assert Tidy("NOTICE", 20) && Tidy(":M9_2_FAILHOOK", 20);
      TextLineTidy("NOTICE", ch, ":M9_2_FAILHOOK");
    } else {
      assert Tidy("PRIVMSG", 20) && Tidy(":M9_2_AFTER_FAIL", 20);
      TextLineTidy("PRIVMSG", ch, ":M9_2_AFTER_FAIL");
    }
  }

  lemma NumericTidy(front: string, w: string, back: string)
    requires Tidy(front, 40) && Tidy(w, 31) && Tidy(back, 40)
    ensures Tidy(front + w + back, LINE_MAX - 1)
  {
    TidyJoin(front, 40, w, 31);
    TidyJoin(front + w, 71, back, 40);
  }

  lemma VerdictTidy(w: string, ok: bool)
    requires Tidy(w, 31)
    ensures Tidy(if ok then Success(w) else Failure(w), LINE_MAX - 1)
  {
    if ok {
      assert Tidy(":fixture 903 ", 40) && Tidy(" :SASL successful", 40);
      NumericTidy(":fixture 903 ", w, " :SASL successful");
    } else {
      assert Tidy(":fixture 904 ", 40) && Tidy(" :SASL failed", 40);
      NumericTidy(":fixture 904 ", w, " :SASL failed");
    }
  }

  lemma WelcomeTidy(w: string)
    requires Tidy(w, 31)
    ensures Tidy(Welcome(w), LINE_MAX - 1)
  {
    assert Tidy(":fixture 001 ", 40) && Tidy(" :AmBot M9.2 registered", 40);
    NumericTidy(":fixture 001 ", w, " :AmBot M9.2 registered");
  }

  predicate TidyWords(w: Words) {
    match w
    case Last(word) => Tidy(word, 20)
    case More(word, rest) => Tidy(word, 20) && TidyWords(rest)
  }

  function Count(w: Words): nat {
    match w
    case Last(_) => 1
    case More(_, rest) => 1 + Count(rest)
  }

  lemma {:induction false} SpacedTidy(w: Words)
    requires TidyWords(w)
    ensures Tidy(Spaced(w), 21 * Count(w))
  {
    if w.More? {
      SpacedTidy(w.rest);
      assert Tidy(" ", 1);
      TidyJoin(w.word, 20, " ", 1);
      TidyJoin(w.word + " ", 21, Spaced(w.rest), 21 * Count(w.rest));
    }
  }

  lemma NoticeBack()
    ensures var back := More("AUTH", More(":AmBot", More("M9.2", More("deterministic", Last("fixture")))));
            TidyWords(back) && Count(back) == 5
  {
    assert Tidy("deterministic", 20) && Tidy("fixture", 20);
    var two := More("deterministic", Last("fixture"));
    assert TidyWords(two) && Count(two) == 2;
    assert Tidy(":AmBot", 20) && Tidy("M9.2", 20);
    var four := More(":AmBot", More("M9.2", two));
    assert TidyWords(four) && Count(four) == 4;
    assert Tidy("AUTH", 20);
  }

  lemma NoticeTidy()
    ensures Tidy(NOTICE_LINE, LINE_MAX - 1)
  {
    NoticeBack();
    var back := More("AUTH", More(":AmBot", More("M9.2", More("deterministic", Last("fixture")))));
    assert Tidy("NOTICE", 20) && Tidy(":fixture", 20);
    var words := More(":fixture", More("NOTICE", back));
    assert TidyWords(words) && Count(words) == 7;
    SpacedTidy(words);
    assert words == NOTICE_WORDS;
  }

  lemma FixedLinesTidy()
    ensures Tidy(LS_LINE, LINE_MAX - 1) && Tidy(ACK_LINE, LINE_MAX - 1) && Tidy(AUTH_LINE, LINE_MAX - 1)
  {
  }

  lemma ServerLineTidy(s: Settings, ep: Endpoint, ok: bool, b: nat)
    requires Configured(s, ep)
    ensures Tidy(ServerLine(s, ep, ok, b), LINE_MAX - 1)
  {
    hide Tidy, NickWord, ChannelWord, Echoes, Success, Failure, Welcome, Ping, Bounded, SendsLines;
    NickWordShort(s, ep);
    FixedLinesTidy();
    var k, w := Echoed(s), NickWord(s);
    if b == 0 {
      NoticeTidy();
    } else if b == 1 {
    } else if b < k {
      ChannelWordShort(s, ep, (b - 2) / 4);
      EchoClean(w, ChannelWord(s.channels[(b - 2) / 4]), (b - 2) % 4);
    } else if b == k || b == k + 1 {
    } else if b == k + 2 {
      VerdictTidy(w, ok);
    } else if b == k + 3 {
      WelcomeTidy(w);
    } else {
      ConfiguredPing(s, ep);
    }
  }

  lemma ClientLinesClean(s: Settings, ep: Endpoint, lo: nat, hi: nat)
    requires Configured(s, ep) && lo <= hi
    ensures NoFeed(ClientLines(s, ep, lo, hi))
  {
    forall i | 0 <= i < hi - lo
      ensures '\n' !in ClientLines(s, ep, lo, hi)[i]
    {
      ClientLineClean(s, ep, lo + i);
    }
  }

  lemma ServerLinesShort(s: Settings, ep: Endpoint, ok: bool, lo: nat, hi: nat)
    requires Configured(s, ep) && lo <= hi
    ensures ShortLines(ServerLines(s, ep, ok, lo, hi))
  {
    hide ServerLine, Configured;
    var lines := ServerLines(s, ep, ok, lo, hi);
    forall i | 0 <= i < |lines|
      ensures IsLine(lines[i]) && |lines[i]| < LINE_MAX
    {
      ServerLineTidy(s, ep, ok, lo + i);
      assert lines[i] == ServerLine(s, ep, ok, lo + i);
    }
  }

  lemma AtClean(s: Settings, ep: Endpoint, ok: bool, x: System, a: nat, b: nat)
    requires Configured(s, ep) && At(s, ep, ok, x, a, b)
    ensures NoFeed(x.toServer) && ShortLines(x.toClient)
  {
    ClientLinesClean(s, ep, a, ClientSent(s, b));
    ServerLinesShort(s, ep, ok, b, ServerSent(s, ok, a));
  }

  // --------------------------------------------------- bytes and lines of the same system

  /** The unfinished line and the bytes on their way are the stream of these lines. */
  ghost predicate Framed(f: Framer, bytes: string, lines: seq<string>) {
    !f.dropping && '\n' !in f.line && f.line + bytes == Stream(lines)
  }

  /** The byte system and the line system are in the same state. */
  ghost predicate Linked(y: Ends, x: System) {
    && y.client == x.client && y.server == x.server
    && y.toServer == Stream(x.toServer)
    && (y.client.open ==> Framed(y.framer, y.toClient, x.toClient))
  }

  lemma StreamFirst(lines: seq<string>)
    requires lines != []
    ensures Stream(lines) == (lines[0] + "\r") + "\n" + Stream(lines[1..])
  {
  }

  lemma InsideFirst(a: string, b: string, first: string, tail: string)
    requires a + b == first + "\n" + tail && '\n' !in a && b != "" && b[0] != '\n'
    ensures |a| < |first|
  {
    var all := a + b;
    assert all[|first|] == '\n' && all[|a|] == b[0];
    assert forall k | 0 <= k < |a| :: all[k] == a[k];
  }

  /** A byte inside a line always fits the framer. */
  lemma ByteFits(f: Framer, bytes: string, lines: seq<string>)
    requires Framed(f, bytes, lines) && ShortLines(lines) && bytes != "" && bytes[0] != '\n'
    ensures |f.line| < LINE_MAX && Framed(Push(f, bytes[0]), bytes[1..], lines)
  {
    StreamFirst(lines);
    assert |lines[0]| < LINE_MAX;
    InsideFirst(f.line, bytes, lines[0] + "\r", Stream(lines[1..]));
    assert f.line + [bytes[0]] + bytes[1..] == f.line + bytes;
  }

  /** A line feed ends exactly the first line. */
  lemma LineEnds(f: Framer, bytes: string, lines: seq<string>)
    requires Framed(f, bytes, lines) && ShortLines(lines) && bytes != "" && bytes[0] == '\n'
    ensures lines != [] && CStr(StripCr(f.line)) == lines[0] && Framed(IDLE, bytes[1..], lines[1..])
  {
    assert lines != [];
    StreamFirst(lines);
    var first, all := lines[0] + "\r", f.line + bytes;
    assert IsLine(lines[0]);
    IndexOfUnique(all, '\n', |f.line|) by {
      assert all[..|f.line|] == f.line;
    }
    IndexOfUnique(all, '\n', |first|) by {
      assert all[..|first|] == first;
    }
    assert f.line == all[..|first|] == first;
    assert bytes[1..] == all[|first| + 1..] == Stream(lines[1..]);
    assert "" + bytes[1..] == bytes[1..];
  }

  /** The client hears the first line on its way. */
  function HearFirst(hear: Ear, x: System): System
    requires x.toClient != []
  {
    var (c, said) := hear(x.client, x.toClient[0]);
    System(c, x.server, x.toServer + said, x.toClient[1..])
  }

  /** What holds after `b` heard lines holds after one more. */
  ghost predicate Steady(hear: Ear, holds: (System, nat) -> bool) {
    forall x: System, b: nat | holds(x, b) ::
      ShortLines(x.toClient) && (x.client.open && x.toClient != [] ==> holds(HearFirst(hear, x), b + 1))
  }

  lemma SteadyStep(hear: Ear, holds: (System, nat) -> bool, x: System, b: nat)
    requires Steady(hear, holds) && holds(x, b)
    ensures ShortLines(x.toClient) && (x.client.open && x.toClient != [] ==> holds(HearFirst(hear, x), b + 1))
  {
  }

  /** Feeding a chunk makes the client hear the lines it completes, one after another. */
  lemma {:induction false} FeedFollows(hear: Ear, holds: (System, nat) -> bool, x: System, b: nat,
                                       f: Framer, data: string, rest: string, said: seq<string>)
    returns (x': System, b': nat, more: seq<string>)
    requires Steady(hear, holds) && holds(x, b) && x.client.open && Framed(f, data + rest, x.toClient)
    ensures var fed := Feed(f, data, Hearing(hear), (x.client, said));
            && holds(x', b')
            && fed.state == (x'.client, said + more) && x'.server == x.server && x'.toServer == x.toServer + more
            && (x'.client.open ==> Framed(fed.framer, rest, x'.toClient))
    decreases |data|
  {
    if data == "" {
      x', b', more := x, b, [];
      assert data + rest == rest && said + [] == said && x.toServer + [] == x.toServer;
    } else {
      SteadyStep(hear, holds, x, b);
      assert (data + rest)[0] == data[0] && (data + rest)[1..] == data[1..] + rest;
      if data[0] != '\n' {
        ByteFits(f, data + rest, x.toClient);
        x', b', more := FeedFollows(hear, holds, x, b, Push(f, data[0]), data[1..], rest, said);
      } else {
        LineEnds(f, data + rest, x.toClient);
        var next := HearFirst(hear, x);
        var heard := hear(x.client, x.toClient[0]).1;
        if next.client.open {
          x', b', more := FeedFollows(hear, holds, next, b + 1, IDLE, data[1..], rest, said + heard);
          assert said + heard + more == said + (heard + more);
          assert x.toServer + heard + more == x.toServer + (heard + more);
          more := heard + more;
        } else {
          x', b', more := next, b + 1, heard;
        }
      }
    }
  }

  // ------------------------------------------------------------------ counting deliveries

  /** How many of the first `n` events were enabled. */
  function Deliveries(s: Settings, ep: Endpoint, schedule: nat -> Event, n: nat): nat {
    if n == 0 then 0
    else
      Deliveries(s, ep, schedule, n - 1)
      + if CanHappen(Course(s, ep, schedule, n - 1), schedule(n - 1)) then 1 else 0
  }

  /** The bytes the endpoint sends with its first `m` lines. */
  function BytesOf(s: Settings, ep: Endpoint, ok: bool, m: nat): nat {
    |Stream(ServerLines(s, ep, ok, 0, m))|
  }

  /** No handshake has more deliveries than the client has lines and the endpoint has bytes. */
  function Bound(s: Settings, ep: Endpoint): nat {
    var ok := SameCredentials(s, ep);
    ClientTotal(s, ok) + BytesOf(s, ep, ok, ServerTotal(s, ok))
  }

  lemma BytesMore(s: Settings, ep: Endpoint, ok: bool, m: nat, m': nat)
    requires m <= m'
    ensures BytesOf(s, ep, ok, m') == BytesOf(s, ep, ok, m) + |Stream(ServerLines(s, ep, ok, m, m'))|
  {
    ServerLinesCut(s, ep, ok, 0, m, m');
    StreamAppend(ServerLines(s, ep, ok, 0, m), ServerLines(s, ep, ok, m, m'));
  }

  /** The course of events is at some place of both scripts, and has not delivered more than was sent. */
  ghost predicate OnScript(s: Settings, ep: Endpoint, y: Ends, d: nat, x: System, a: nat, b: nat) {
    var ok := SameCredentials(s, ep);
    && At(s, ep, ok, x, a, b) && Linked(y, x)
    && d + |y.toClient| <= a + BytesOf(s, ep, ok, ServerSent(s, ok, a))
  }

  /** Reading from a stream of lines. */
  lemma ReadsLine(s: Settings, ep: Endpoint, y: Ends, lines: seq<string>)
    requires y.toServer == Stream(lines) && NoFeed(lines) && lines != [] && y.server.up
    ensures var (server, said) := Serve(ep, y.server, lines[0]);
            Advance(s, ep, y, EndpointReads)
              == Ends(y.client, y.framer, server, Stream(lines[1..]), y.toClient + Stream(said))
  {
    StreamOfLines(lines);
    StreamOfLines(lines[1..]);
    assert WithCr(lines)[1..] == WithCr(lines[1..]) && WithCr(lines)[0] == lines[0] + "\r";
    GluedFirst(WithCr(lines));
    ServeEnding(ep, y.server, lines[0] + "\r", '\n');
    ServeEnding(ep, y.server, lines[0], '\r');
  }

  /** The endpoint's step as its script has it. */
  lemma ScriptedRead(s: Settings, ep: Endpoint, ok: bool, x: System, a: nat, b: nat)
    returns (server: Server, said: seq<string>)
    requires Configured(s, ep) && ok == SameCredentials(s, ep) && At(s, ep, ok, x, a, b) && CanMove(x, ServerReads)
    ensures (server, said) == Serve(ep, x.server, x.toServer[0])
    ensures At(s, ep, ok, System(x.client, server, x.toServer[1..], x.toClient + said), a + 1, b)
    ensures ServerSent(s, ok, a) <= ServerSent(s, ok, a + 1)
    ensures said == ServerLines(s, ep, ok, ServerSent(s, ok, a), ServerSent(s, ok, a + 1))
  {
    ServerMoves(s, ep, ok, x, a, b);
    ServerScript(s, ep, ok, a);
    server, said := Serve(ep, x.server, x.toServer[0]).0, Serve(ep, x.server, x.toServer[0]).1;
  }

  lemma ReadFollows(s: Settings, ep: Endpoint, y: Ends, d: nat, x: System, a: nat, b: nat)
    returns (x': System)
    requires Configured(s, ep) && OnScript(s, ep, y, d, x, a, b) && CanHappen(y, EndpointReads)
    ensures OnScript(s, ep, Advance(s, ep, y, EndpointReads), d + 1, x', a + 1, b)
  {
    var ok := SameCredentials(s, ep);
    AtClean(s, ep, ok, x, a, b);
    ReadsLine(s, ep, y, x.toServer);
    var server, said := ScriptedRead(s, ep, ok, x, a, b);
    var y' := Ends(y.client, y.framer, server, Stream(x.toServer[1..]), y.toClient + Stream(said));
    x' := System(x.client, server, x.toServer[1..], x.toClient + said);
    LinkedGrows(y, x, server, said);
    BytesMore(s, ep, ok, ServerSent(s, ok, a), ServerSent(s, ok, a + 1));
  }

  lemma LinkedGrows(y: Ends, x: System, server: Server, said: seq<string>)
    requires Linked(y, x) && x.toServer != []
    ensures Linked(Ends(y.client, y.framer, server, Stream(x.toServer[1..]), y.toClient + Stream(said)),
                   System(x.client, server, x.toServer[1..], x.toClient + said))
  {
    if y.client.open {
      FramedGrows(y.framer, y.toClient, x.toClient, said);
    }
  }

  lemma Regroup(a: string, b: string, c: string)
    ensures a + (b + c) == a + b + c
  {
  }

  lemma FramedGrows(f: Framer, bytes: string, lines: seq<string>, said: seq<string>)
    requires Framed(f, bytes, lines)
    ensures Framed(f, bytes + Stream(said), lines + said)
  {
    StreamAppend(lines, said);
    Regroup(f.line, bytes, Stream(said));
  }

  lemma ScriptIsSteady(s: Settings, ep: Endpoint, ok: bool, a: nat)
    requires Configured(s, ep)
    ensures Steady(HearOf(s), (x: System, b: nat) => At(s, ep, ok, x, a, b))
  {
    forall x: System, b: nat | At(s, ep, ok, x, a, b)
      ensures ShortLines(x.toClient)
      ensures x.client.open && x.toClient != [] ==> At(s, ep, ok, HearFirst(HearOf(s), x), a, b + 1)
    {
      AtClean(s, ep, ok, x, a, b);
      if x.client.open && x.toClient != [] {
        ClientMoves(s, ep, ok, x, a, b);
        assert HearFirst(HearOf(s), x) == Step(s, ep, x, ClientReads);
      }
    }
  }

  lemma ReceiveFollows(s: Settings, ep: Endpoint, y: Ends, d: nat, x: System, a: nat, b: nat, size: nat)
    returns (x': System, b': nat)
    requires Configured(s, ep) && OnScript(s, ep, y, d, x, a, b) && CanHappen(y, ClientReceives(size))
    ensures OnScript(s, ep, Advance(s, ep, y, ClientReceives(size)), d + 1, x', a, b')
  {
    hide At, Framed, BytesOf, SameCredentials;
    var ok := SameCredentials(s, ep);
    var n := Got(y, size);
    assert y.toClient == y.toClient[..n] + y.toClient[n..];
    ScriptIsSteady(s, ep, ok, a);
    var more;
    x', b', more := FeedFollows(HearOf(s), (x: System, b: nat) => At(s, ep, ok, x, a, b), x, b,
                                y.framer, y.toClient[..n], y.toClient[n..], []);
    assert [] + more == more;
    StreamAppend(x.toServer, more);
  }

  lemma EventFollows(s: Settings, ep: Endpoint, y: Ends, event: Event, d: nat, x: System, a: nat, b: nat)
    returns (x': System, a': nat, b': nat)
    requires Configured(s, ep) && OnScript(s, ep, y, d, x, a, b) && CanHappen(y, event)
    ensures OnScript(s, ep, Advance(s, ep, y, event), d + 1, x', a', b')
  {
    match event {
      case EndpointReads =>
        x' := ReadFollows(s, ep, y, d, x, a, b);
        a', b' := a + 1, b;
      case ClientReceives(size) =>
        x', b' := ReceiveFollows(s, ep, y, d, x, a, b, size);
        a' := a;
    }
  }

  lemma {:induction false} CourseFollows(s: Settings, ep: Endpoint, schedule: nat -> Event, n: nat)
    returns (x: System, a: nat, b: nat)
    requires Configured(s, ep)
    ensures OnScript(s, ep, Course(s, ep, schedule, n), Deliveries(s, ep, schedule, n), x, a, b)
  {
    if n == 0 {
      x, a, b := StartOnScript(s, ep);
    } else {
      x, a, b := CourseFollows(s, ep, schedule, n - 1);
      var y, event := Course(s, ep, schedule, n - 1), schedule(n - 1);
      if CanHappen(y, event) {
        x, a, b := EventFollows(s, ep, y, event, Deliveries(s, ep, schedule, n - 1), x, a, b);
      }
    }
  }

  lemma StartOnScript(s: Settings, ep: Endpoint) returns (x: System, a: nat, b: nat)
    requires Configured(s, ep)
    ensures OnScript(s, ep, Begun(s, ep), 0, x, a, b)
  {
    hide Greeting, Joins, ClientLine;
    var ok := SameCredentials(s, ep);
    x, a, b := System(Client(Begin(s), true), Setup(ep), Greeting(s) + Joins(s.channels), [NOTICE_LINE]), 0, 0;
    StartsAsScripted(s, ep);
    ServerOne(s, ep, ok, 0);
    assert "" + Stream([NOTICE_LINE]) == Stream([NOTICE_LINE]);
  }

  // ------------------------------------------------------------------------- fairness

  /** Nothing can happen any more. */
  predicate Quiet(y: Ends) {
    !CanHappen(y, EndpointReads) && !CanHappen(y, ClientReceives(0))
  }

  /** The turns of a schedule: a turn is over once both kinds of events have come up in it. */
  datatype Turns = Turns(done: nat, read: bool, received: bool)

  function TurnsIn(schedule: nat -> Event, n: nat): Turns {
    if n == 0 then Turns(0, false, false)
    else
      var t := TurnsIn(schedule, n - 1);
      var read, received := t.read || schedule(n - 1).EndpointReads?, t.received || schedule(n - 1).ClientReceives?;
      if read && received then Turns(t.done + 1, false, false) else Turns(t.done, read, received)
  }

  /** Every turn delivers something, unless nothing can happen any more. */
  ghost predicate Progress(y: Ends, t: Turns, d: nat) {
    || Quiet(y)
    || d >= t.done + 1
    || (d >= t.done && (t.read ==> !CanHappen(y, EndpointReads)) && (t.received ==> !CanHappen(y, ClientReceives(0))))
  }

  lemma {:induction false} TurnsProgress(s: Settings, ep: Endpoint, schedule: nat -> Event, n: nat)
    ensures Progress(Course(s, ep, schedule, n), TurnsIn(schedule, n), Deliveries(s, ep, schedule, n))
  {
    hide Serve, Feed, IndexOf;
    if n > 0 {
      TurnsProgress(s, ep, schedule, n - 1);
    }
  }

  ghost predicate ReadsAfter(schedule: nat -> Event, n: nat) {
    exists m: nat :: m >= n && schedule(m).EndpointReads?
  }

  ghost predicate ReceivesAfter(schedule: nat -> Event, n: nat) {
    exists m: nat :: m >= n && schedule(m).ClientReceives?
  }

  /** A schedule in which both kinds of events come up again and again. */
  ghost predicate Fair(schedule: nat -> Event) {
    forall n: nat :: ReadsAfter(schedule, n) && ReceivesAfter(schedule, n)
  }

  /** Between `n` and `k` a turn ended, or what came up is remembered. */
  lemma {:induction false} Remembered(schedule: nat -> Event, n: nat, k: nat, m: nat)
    requires n <= m < k
    ensures TurnsIn(schedule, k).done > TurnsIn(schedule, n).done
         || if schedule(m).EndpointReads? then TurnsIn(schedule, k).read else TurnsIn(schedule, k).received
    ensures TurnsIn(schedule, k).done >= TurnsIn(schedule, n).done
  {
    DoneGrows(schedule, n, k - 1);
    if m < k - 1 {
      Remembered(schedule, n, k - 1, m);
    }
  }

  lemma {:induction false} DoneGrows(schedule: nat -> Event, n: nat, k: nat)
    requires n <= k
    ensures TurnsIn(schedule, k).done >= TurnsIn(schedule, n).done
  {
    if n < k {
      DoneGrows(schedule, n, k - 1);
    }
  }

  lemma {:induction false} NeverBoth(schedule: nat -> Event, n: nat)
    ensures !(TurnsIn(schedule, n).read && TurnsIn(schedule, n).received)
  {
    if n > 0 {
      NeverBoth(schedule, n - 1);
    }
  }

  /** A fair schedule has any number of turns. */
  lemma {:induction false} FairTurns(schedule: nat -> Event, k: nat) returns (n: nat)
    requires Fair(schedule)
    ensures TurnsIn(schedule, n).done >= k
  {
    if k == 0 {
      n := 0;
    } else {
      var before := FairTurns(schedule, k - 1);
      assert ReadsAfter(schedule, before) && ReceivesAfter(schedule, before);
      var i: nat :| i >= before && schedule(i).EndpointReads?;
      var j: nat :| j >= before && schedule(j).ClientReceives?;
      n := 1 + if i > j then i else j;
      Remembered(schedule, before, n, i);
      Remembered(schedule, before, n, j);
      NeverBoth(schedule, n);
    }
  }

  // ------------------------------------------------------------------------ the outcome

  lemma DeliveriesBounded(s: Settings, ep: Endpoint, y: Ends, d: nat, x: System, a: nat, b: nat)
    requires OnScript(s, ep, y, d, x, a, b)
    ensures d <= Bound(s, ep)
    ensures d == Bound(s, ep) ==> Quiet(y)
  {
    var ok := SameCredentials(s, ep);
    BytesMore(s, ep, ok, ServerSent(s, ok, a), ServerTotal(s, ok));
    if d == Bound(s, ep) {
      assert a == ClientTotal(s, ok) && y.toClient == "";
      assert x.toServer == [] && y.toServer == "";
    }
  }

  /** When nothing can happen in the byte system, nothing can in the line system. */
  lemma QuietLines(s: Settings, ep: Endpoint, y: Ends, d: nat, x: System, a: nat, b: nat)
    requires Configured(s, ep) && OnScript(s, ep, y, d, x, a, b) && Quiet(y)
    ensures Quiescent(x)
  {
    if x.toServer != [] {
      StreamHasFeed(x.toServer);
    }
    if x.toClient != [] {
      StreamHasFeed(x.toClient);
    }
    assert y.framer.line + "" == y.framer.line;
  }

  lemma StreamHasFeed(lines: seq<string>)
    requires lines != []
    ensures '\n' in Stream(lines)
  {
    StreamFirst(lines);
  }

  /** The handshake always ends, and always in the same way. Whatever the schedule and however
      the bytes are split, no more is delivered than `Bound` allows, and after that many turns,
      in each of which both sides are tried, nothing is left to happen. With the endpoint's
      credentials it then has registered the client, whose negotiation is complete. With others it
      has not, and the client has closed the connection, unless the nick the endpoint sees is
      `903`: then the client takes the failure for a success and stays. */
  lemma HandshakeEnds(s: Settings, ep: Endpoint, schedule: nat -> Event, n: nat)
    requires Configured(s, ep)
    ensures var (ok, y) := (SameCredentials(s, ep), Course(s, ep, schedule, n));
            && Deliveries(s, ep, schedule, n) <= Bound(s, ep)
            && (TurnsIn(schedule, n).done >= Bound(s, ep) ==> Quiet(y))
            && (Quiet(y) && ok ==> y.server.registered && y.client == Client(DONE, true))
            && (Quiet(y) && !ok ==>
                  && !y.server.registered
                  && y.client == if NickWord(s) == "903" then Client(DONE, true) else Client(GIVEN_UP, false))
  {
    var ok, y, d := SameCredentials(s, ep), Course(s, ep, schedule, n), Deliveries(s, ep, schedule, n);
    var x, a, b := CourseFollows(s, ep, schedule, n);
    DeliveriesBounded(s, ep, y, d, x, a, b);
    TurnsProgress(s, ep, schedule, n);
    if Quiet(y) {
      QuietLines(s, ep, y, d, x, a, b);
      QuietAtEnd(s, ep, ok, x, a, b);
    }
  }

  /** Every fair run comes to that end. */
  lemma FairRunsEnd(s: Settings, ep: Endpoint, schedule: nat -> Event)
    requires Configured(s, ep) && Fair(schedule)
    ensures exists n: nat ::
              var y := Course(s, ep, schedule, n);
              && Quiet(y)
              && (y.server.registered <==> SameCredentials(s, ep))
              && (y.client.open <==> SameCredentials(s, ep) || NickWord(s) == "903")
  {
    var n := FairTurns(schedule, Bound(s, ep));
    HandshakeEnds(s, ep, schedule, n);
  }
}
