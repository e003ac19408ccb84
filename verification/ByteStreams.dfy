// The closed system of client and endpoint as it runs: two byte streams, a client that frames
// whatever chunks `recv` returns, an endpoint that reads line by line. Who authenticates, under
// any schedule and for any configuration, line feeds in it included.
module ByteStreams {
  import opened Text
  import opened Irc
  import opened Framing
  import opened Settings
  import opened Base64
  import opened ModernIrc
  import opened OneNetwork
  import opened Fixture
  import opened Handshake
  import opened Registration

  /** Both ends, and the bytes on their way each way. */
  datatype Ends = Ends(client: Client, framer: Framer, server: Server, toServer: string, toClient: string)

  /** What can happen next: the endpoint reads a line, or the client receives up to `size` bytes. */
  datatype Event = EndpointReads | ClientReceives(size: nat)

  type Ear = (Client, string) -> (Client, seq<string>)

  function HearOf(s: Settings): Ear {
    (c: Client, line: string) => Hear(s, c, line)
  }

  /** The client's line callback, collecting the lines it sends. */
  function Hearing(hear: Ear): Callback<(Client, seq<string>)> {
    (t: (Client, seq<string>), line: string) =>
      var (c, said) := hear(t.0, line);
      ((c, t.1 + said), !c.open)
  }

  /** Just connected: the client has sent its greeting and its JOINs. */
  function Begun(s: Settings, ep: Endpoint): Ends {
    Ends(Client(Begin(s), true), IDLE, Setup(ep), Stream(Greeting(s) + Joins(s.channels)), Stream([NOTICE_LINE]))
  }

  predicate CanHappen(y: Ends, event: Event) {
    match event
    case EndpointReads => y.server.up && '\n' in y.toServer
    case ClientReceives(_) => y.client.open && y.toClient != ""
  }

  /** How many bytes `recv` returns. */
  function Got(y: Ends, size: nat): (n: nat)
    requires y.toClient != ""
    ensures 0 < n <= |y.toClient|
  {
    if size == 0 then 1 else if size < |y.toClient| then size else |y.toClient|
  }

  function Advance(s: Settings, ep: Endpoint, y: Ends, event: Event): Ends {
    if !CanHappen(y, event) then y
    else
      match event
      case EndpointReads =>
        var n := IndexOf(y.toServer, '\n') + 1;
        var (server, said) := Serve(ep, y.server, y.toServer[..n]);
        Ends(y.client, y.framer, server, y.toServer[n..], y.toClient + Stream(said))
      case ClientReceives(size) =>
        var n := Got(y, size);
        var fed := Feed(y.framer, y.toClient[..n], Hearing(HearOf(s)), (y.client, []));
        Ends(fed.state.0, fed.framer, y.server, y.toServer + Stream(fed.state.1), y.toClient[n..])
  }

  /** The system after the first `n` events of a schedule; an event that is not enabled is idle. */
  function Course(s: Settings, ep: Endpoint, schedule: nat -> Event, n: nat): Ends {
    if n == 0 then Begun(s, ep) else Advance(s, ep, Course(s, ep, schedule, n - 1), schedule(n - 1))
  }

  // ------------------------------------------------- what the endpoint finds in the greeting

  /** The lines the endpoint reads out of the greeting and the JOINs: a line feed inside a nick,
      user, password or channel begins a new one. */
  function GreetingLines(s: Settings): seq<string> {
    Cut(Stream(Greeting(s) + Joins(s.channels))).0
  }

  /** A line that logs in with the endpoint's credentials. */
  predicate IsLogin(ep: Endpoint, raw: string) {
    var line := RStrip(raw);
    Command(line) == "AUTHENTICATE" && Args(line) != "PLAIN"
    && Decode(Args(line)) == Some(PlainMessage(ep.user, ep.pass))
  }

  /** The endpoint after the first `n` of some lines, as long as it reads. */
  function AfterLines(ep: Endpoint, lines: seq<string>, n: nat): Server
    requires n <= |lines|
  {
    if n == 0 then Setup(ep)
    else
      var before := AfterLines(ep, lines, n - 1);
      if before.up then Serve(ep, before, lines[n - 1]).0 else before
  }

  /** The greeting itself holds a login that the endpoint reaches. */
  predicate LogsInAt(s: Settings, ep: Endpoint, i: nat) {
    i < |GreetingLines(s)| && IsLogin(ep, GreetingLines(s)[i]) && AfterLines(ep, GreetingLines(s), i).up
  }

  ghost predicate GreetingLogsIn(s: Settings, ep: Endpoint) {
    exists i: nat :: LogsInAt(s, ep, i)
  }

  // --------------------------------------------------------------- endings of lines

  lemma StripEnding(raw: string, c: char)
    requires c == '\r' || c == '\n'
    ensures RStrip(raw + [c]) == RStrip(raw)
  {
    assert (raw + [c])[..|raw|] == raw;
  }

  lemma ServeEnding(ep: Endpoint, v: Server, raw: string, c: char)
    requires c == '\r' || c == '\n'
    ensures Serve(ep, v, raw + [c]) == Serve(ep, v, raw)
  {
    StripEnding(raw, c);
  }

  // ----------------------------------------------------------- streams and their lines

  /** Reading takes the first line off. */
  lemma GluedFirst(lines: seq<string>)
    requires NoFeed(lines)
    ensures '\n' in Glued(lines) <==> lines != []
    ensures lines != [] ==>
              var n := IndexOf(Glued(lines), '\n') + 1;
              n <= |Glued(lines)| && Glued(lines)[..n] == lines[0] + "\n" && Glued(lines)[n..] == Glued(lines[1..])
  {
    if lines != [] {
      var all := Glued(lines);
      assert all[|lines[0]|] == '\n' && all[..|lines[0]|] == lines[0];
      IndexOfUnique(all, '\n', |lines[0]|);
      assert all[..|lines[0]| + 1] == lines[0] + "\n";
    }
  }

  lemma GluedCons(segment: string, more: seq<string>, rest: string)
    ensures Glued([segment] + more) + rest == segment + "\n" + (Glued(more) + rest)
  {
    var lines := [segment] + more;
    assert lines[1..] == more;
  }

  lemma {:induction false} CutIsGlued(data: string)
    ensures data == Glued(Cut(data).0) + Cut(data).1
    decreases |data|
  {
    if '\n' in data {
      var segment, tail := FirstSegment(data);
      CutFirst(segment, tail);
      CutIsGlued(tail);
      GluedCons(segment, Cut(tail).0, Cut(tail).1);
    } else {
      CutNone(data);
    }
  }

  lemma {:induction false} CutNoFeed(data: string)
    ensures NoFeed(Cut(data).0)
    decreases |data|
  {
    if '\n' in data {
      var segment, tail := FirstSegment(data);
      CutFirst(segment, tail);
      CutNoFeed(tail);
    } else {
      CutNone(data);
    }
  }

  lemma {:induction false} StreamEnds(lines: seq<string>)
    requires lines != []
    ensures Stream(lines) != "" && Stream(lines)[|Stream(lines)| - 1] == '\n'
  {
    if |lines| > 1 {
      StreamEnds(lines[1..]);
    } else {
      assert Stream(lines) == Ended(lines[0]);
    }
  }

  /** Sent lines are a complete stream, line feeds in them or not. */
  lemma StreamGlued(lines: seq<string>)
    ensures NoFeed(Cut(Stream(lines)).0) && Stream(lines) == Glued(Cut(Stream(lines)).0)
  {
    var data := Stream(lines);
    CutIsGlued(data);
    CutNoFeed(data);
    RestIsNewlineFree(data);
    if lines == [] {
      CutNone("");
    } else {
      StreamEnds(lines);
      NothingLeft(data, Glued(Cut(data).0), Cut(data).1);
    }
  }

  lemma NothingLeft(data: string, front: string, rest: string)
    requires data == front + rest && '\n' !in rest && data != "" && data[|data| - 1] == '\n'
    ensures rest == ""
  {
  }

  lemma {:induction false} StreamOfLines(lines: seq<string>)
    requires NoFeed(lines)
    ensures Stream(lines) == Glued(WithCr(lines)) && NoFeed(WithCr(lines))
  {
    if lines != [] {
      assert NoFeed(lines[1..]);
      StreamOfLines(lines[1..]);
      assert WithCr(lines)[1..] == WithCr(lines[1..]);
      assert Ended(lines[0]) == lines[0] + "\r" + "\n";
    }
  }

  // ------------------------------------------------------------- what the client answers

  /** What the client can say after its greeting: four negotiation lines, with CAP only, and pongs. */
  predicate Answer(s: Settings, line: string) {
    || (s.cap && (line == CAP_REQ || line == CAP_END || line == AUTH_PLAIN || line == Payload(s)))
    || ("PONG " <= line && '\n' !in line)
  }

  predicate Answers(s: Settings, lines: seq<string>) {
    forall i | 0 <= i < |lines| :: Answer(s, lines[i])
  }

  lemma HearAnswers(s: Settings, c: Client, line: string)
    requires '\n' !in line && c.modern.capActive == s.cap
    ensures Answers(s, Hear(s, c, line).1) && Hear(s, c, line).0.modern.capActive == s.cap
  {
    NegotiateSays(s, c.modern, line);
    var spoken, pong := Spoken(Negotiate(s, c.modern, line).1), Pong(line);
    SpokenAnswers(s, spoken);
    assert Answers(s, pong);
    AnswersTogether(s, spoken, pong);
  }

  lemma SpokenAnswers(s: Settings, spoken: seq<string>)
    requires spoken != [] ==> s.cap
    requires || spoken == [] || spoken == [CAP_REQ] || spoken == [CAP_END]
             || spoken == [AUTH_PLAIN] || spoken == [Payload(s)]
    ensures Answers(s, spoken)
  {
  }

  lemma AnswersTogether(s: Settings, a: seq<string>, b: seq<string>)
    requires Answers(s, a) && Answers(s, b)
    ensures Answers(s, a + b)
  {
    forall i | 0 <= i < |a + b|
      ensures Answer(s, (a + b)[i])
    {
      assert (a + b)[i] == if i < |a| then a[i] else b[i - |a|];
    }
  }

  lemma PayloadOneLine(s: Settings)
    ensures '\n' !in Payload(s)
  {
    EncodeAlphabet(PlainMessage(s.saslUser, s.saslPass));
    assert Base64.Value('\n') >= 64;
  }

  lemma AnswersOneLine(s: Settings, lines: seq<string>)
    requires Answers(s, lines)
    ensures NoFeed(lines)
  {
    PayloadOneLine(s);
    forall i | 0 <= i < |lines|
      ensures '\n' !in lines[i]
    {
      assert Answer(s, lines[i]);
    }
  }

  /** Whatever the endpoint sends, feeding a chunk adds only answers. */
  lemma {:induction false} FeedAnswers(s: Settings, f: Framer, data: string, c: Client, said: seq<string>)
    requires '\n' !in f.line && Answers(s, said) && c.modern.capActive == s.cap
    ensures var fed := Feed(f, data, Hearing(HearOf(s)), (c, said));
            '\n' !in fed.framer.line && Answers(s, fed.state.1) && fed.state.0.modern.capActive == s.cap
    decreases |data|
  {
    if data != "" {
      if data[0] != '\n' {
        FeedAnswers(s, Push(f, data[0]), data[1..], c, said);
      } else if f.dropping {
        FeedAnswers(s, IDLE, data[1..], c, said);
      } else {
        var line := CStr(StripCr(f.line));
        assert line <= f.line;
        HearAnswers(s, c, line);
        var (c', more) := Hear(s, c, line);
        AnswersTogether(s, said, more);
        if c'.open {
          FeedAnswers(s, IDLE, data[1..], c', said + more);
        }
      }
    }
  }

  /** What an answer does to the endpoint. */
  function Answered(s: Settings, ep: Endpoint, v: Server, line: string): Server {
    if line == CAP_END then MaybeRegister(ep, v.(capEnd := true)).0
    else if line == Payload(s) && SameCredentials(s, ep) then v.(saslOk := true)
    else v
  }

  lemma AnswerServed(s: Settings, ep: Endpoint, v: Server, line: string)
    requires AllOctets(s, ep) && Answer(s, line)
    ensures Serve(ep, v, line).0 == Answered(s, ep, v, line)
  {
    hide Serve, Auth, Upper;
    if line == CAP_REQ {
      ServeReq(ep, v, line);
    } else if line == CAP_END {
      ServeEnd(ep, v, line);
    } else if line == AUTH_PLAIN {
      ServePlain(ep, v, line);
      assert Payload(s)[|"AUTHENTICATE "|..] != "PLAIN" by {
        EncodeLength(PlainMessage(s.saslUser, s.saslPass));
      }
    } else if line == Payload(s) {
      ServePayload(s, ep, v, line);
    } else {
      ServePong(ep, v, line[5..]);
      assert "PONG " + line[5..] == line;
    }
  }

  // ------------------------------------------------------------------ the invariant

  /** A stream of some lines, and of answers. */
  ghost predicate Holds(s: Settings, stream: string, front: seq<string>, later: seq<string>) {
    stream == Glued(front + WithCr(later)) && NoFeed(front + WithCr(later)) && Answers(s, later)
  }

  /** What the endpoint has not read: the rest of the greeting, then `later`. */
  ghost predicate Unread(s: Settings, toServer: string, read: nat, later: seq<string>) {
    read <= |GreetingLines(s)| && Holds(s, toServer, GreetingLines(s)[read..], later)
  }

  /** What answers can make of the endpoint `v`: they set no nick and no user, log in only with the
      endpoint's credentials, and register only with CAP END. */
  predicate Grown(s: Settings, ep: Endpoint, v: Server, server: Server) {
    && server.nick == v.nick && server.user == v.user && server.up == v.up
    && (v.saslOk ==> server.saslOk) && (server.saslOk ==> v.saslOk || SameCredentials(s, ep))
    && (v.registered ==> server.registered)
    && (server.registered ==>
          v.registered || (s.cap && v.up && v.nick.Some? && v.user.Some? && server.saslOk))
  }

  /** The endpoint after the greeting. */
  function Greeted(s: Settings, ep: Endpoint): Server {
    AfterLines(ep, GreetingLines(s), |GreetingLines(s)|)
  }

  /** The endpoint after `read` lines of the greeting, or more. */
  ghost predicate Account(s: Settings, ep: Endpoint, server: Server, read: nat) {
    && read <= |GreetingLines(s)|
    && (read < |GreetingLines(s)| ==> server == AfterLines(ep, GreetingLines(s), read))
    && (read == |GreetingLines(s)| ==> Grown(s, ep, Greeted(s, ep), server))
    && (ep.requireSasl && server.saslOk ==> SameCredentials(s, ep) || GreetingLogsIn(s, ep))
    && (server.registered ==> server.saslOk)
  }

  ghost predicate Kept(s: Settings, ep: Endpoint, y: Ends, read: nat, later: seq<string>) {
    && Unread(s, y.toServer, read, later) && Account(s, ep, y.server, read)
    && '\n' !in y.framer.line && y.client.modern.capActive == s.cap
  }

  predicate AllOctets(s: Settings, ep: Endpoint) {
    Octets(s.saslUser) && Octets(s.saslPass) && Octets(ep.user) && Octets(ep.pass)
  }

  /** A line logs in exactly when it is a login; nothing else changes that flag. */
  lemma ServeLogin(ep: Endpoint, v: Server, raw: string)
    ensures var v' := Serve(ep, v, raw).0;
            && (v'.saslOk <==> v.saslOk || IsLogin(ep, raw))
            && ((v.registered ==> v.saslOk) ==> v'.registered ==> v'.saslOk)
  {
    var line := RStrip(raw);
    ObeyLogin(ep, v, Command(line), Args(line));
  }

  lemma ObeyLogin(ep: Endpoint, v: Server, cmd: string, args: string)
    ensures var v' := Obey(ep, v, cmd, args).0;
            && (v'.saslOk <==> v.saslOk || (cmd == "AUTHENTICATE" && args != "PLAIN"
                                           && Decode(args) == Some(PlainMessage(ep.user, ep.pass))))
            && ((v.registered ==> v.saslOk) ==> v'.registered ==> v'.saslOk)
  {
    if cmd == "AUTHENTICATE" {
      ObeyIsAuth(ep, v, args);
    }
  }

  lemma ObeyIsAuth(ep: Endpoint, v: Server, args: string)
    ensures Obey(ep, v, "AUTHENTICATE", args) == Auth(ep, v, args)
  {
  }

  lemma HarmlessLogin(s: Settings, ep: Endpoint, raw: string)
    requires AllOctets(s, ep) && Harmless(s, raw) && IsLogin(ep, raw)
    ensures SameCredentials(s, ep)
  {
    PayloadDecodes(s.saslUser, s.saslPass);
    PayloadInjective(s.saslUser, s.saslPass, ep.user, ep.pass);
  }

  /** The endpoint reads the first line on its way. */
  lemma AdvanceRead(s: Settings, ep: Endpoint, y: Ends, queue: seq<string>) returns (server: Server)
    requires y.toServer == Glued(queue) && NoFeed(queue) && queue != [] && y.server.up
    ensures var y' := Advance(s, ep, y, EndpointReads);
            y'.server == server && y'.toServer == Glued(queue[1..]) && y'.framer == y.framer && y'.client == y.client
    ensures server == Serve(ep, y.server, queue[0]).0
  {
    GluedFirst(queue);
    ServeEnding(ep, y.server, queue[0], '\n');
    server := Serve(ep, y.server, queue[0]).0;
  }

  lemma GreetingLineKeeps(s: Settings, ep: Endpoint, server: Server, read: nat)
    requires Account(s, ep, server, read) && read < |GreetingLines(s)| && server.up
    ensures Account(s, ep, Serve(ep, server, GreetingLines(s)[read]).0, read + 1)
  {
    var line := GreetingLines(s)[read];
    ServeLogin(ep, server, line);
    assert AfterLines(ep, GreetingLines(s), read + 1) == Serve(ep, server, line).0;
    if IsLogin(ep, line) {
      assert LogsInAt(s, ep, read);
    }
  }

  lemma AnswerGrows(s: Settings, ep: Endpoint, v: Server, server: Server, line: string)
    requires Grown(s, ep, v, server) && server.up && Answer(s, line)
    ensures Grown(s, ep, v, Answered(s, ep, server, line))
  {
    assert "PONG "[0] == 'P' && CAP_END[0] == 'C';
  }

  lemma LaterLineKeeps(s: Settings, ep: Endpoint, server: Server, read: nat, line: string)
    requires AllOctets(s, ep) && Account(s, ep, server, read) && read == |GreetingLines(s)|
    requires server.up && Answer(s, line)
    ensures Account(s, ep, Serve(ep, server, line + "\r").0, read)
  {
    ServeEnding(ep, server, line, '\r');
    AnswerServed(s, ep, server, line);
    AnswerGrows(s, ep, Greeted(s, ep), server, line);
  }

  lemma QueueMoves(s: Settings, read: nat, later: seq<string>) returns (read': nat, later': seq<string>)
    requires read <= |GreetingLines(s)| && Answers(s, later)
    requires GreetingLines(s)[read..] + WithCr(later) != []
    ensures read' <= |GreetingLines(s)| && Answers(s, later')
    ensures var queue := GreetingLines(s)[read..] + WithCr(later);
            && queue[1..] == GreetingLines(s)[read'..] + WithCr(later')
            && if read < |GreetingLines(s)| then queue[0] == GreetingLines(s)[read] && read' == read + 1
               else read' == read && later != [] && Answer(s, later[0]) && queue[0] == later[0] + "\r"
  {
    var lines := GreetingLines(s);
    if read < |lines| {
      read', later' := read + 1, later;
    } else {
      assert lines[read..] + WithCr(later) == WithCr(later);
      read', later' := read, later[1..];
      assert WithCr(later)[1..] == WithCr(later') && Answer(s, later[0]);
    }
  }

  lemma ReadKeeps(s: Settings, ep: Endpoint, y: Ends, read: nat, later: seq<string>)
    returns (read': nat, later': seq<string>)
    requires AllOctets(s, ep) && Kept(s, ep, y, read, later) && CanHappen(y, EndpointReads)
    ensures Kept(s, ep, Advance(s, ep, y, EndpointReads), read', later')
  {
    var queue := GreetingLines(s)[read..] + WithCr(later);
    GluedFirst(queue);
    var server := AdvanceRead(s, ep, y, queue);
    read', later' := QueueMoves(s, read, later);
    if read < |GreetingLines(s)| {
      GreetingLineKeeps(s, ep, y.server, read);
    } else {
      LaterLineKeeps(s, ep, y.server, read, later[0]);
    }
  }

  lemma StreamGrows(s: Settings, stream: string, front: seq<string>, later: seq<string>, said: seq<string>)
    requires Holds(s, stream, front, later) && Answers(s, said)
    ensures Holds(s, stream + Stream(said), front, later + said)
  {
    hide Answers, Stream, Glued;
    AnswersOneLine(s, said);
    StreamOfLines(said);
    AnswersTogether(s, later, said);
    GluedAppend(front + WithCr(later), WithCr(said));
    assert WithCr(later + said) == WithCr(later) + WithCr(said);
    assert front + WithCr(later) + WithCr(said) == front + WithCr(later + said);
  }

  lemma ReceiveKeeps(s: Settings, ep: Endpoint, y: Ends, size: nat, read: nat, later: seq<string>)
    returns (later': seq<string>)
    requires Kept(s, ep, y, read, later) && CanHappen(y, ClientReceives(size))
    ensures Kept(s, ep, Advance(s, ep, y, ClientReceives(size)), read, later')
  {
    var data := y.toClient[..Got(y, size)];
    FeedAnswers(s, y.framer, data, y.client, []);
    var said := Feed(y.framer, data, Hearing(HearOf(s)), (y.client, [])).state.1;
    StreamGrows(s, y.toServer, GreetingLines(s)[read..], later, said);
    later' := later + said;
  }

  lemma {:induction false} CourseKeeps(s: Settings, ep: Endpoint, schedule: nat -> Event, n: nat)
    returns (read: nat, later: seq<string>)
    requires AllOctets(s, ep)
    ensures Kept(s, ep, Course(s, ep, schedule, n), read, later)
  {
    if n == 0 {
      read, later := 0, [];
      StreamGlued(Greeting(s) + Joins(s.channels));
      assert GreetingLines(s)[0..] + WithCr([]) == GreetingLines(s);
    } else {
      read, later := CourseKeeps(s, ep, schedule, n - 1);
      var y, event := Course(s, ep, schedule, n - 1), schedule(n - 1);
      if CanHappen(y, event) {
        match event {
          case EndpointReads => read, later := ReadKeeps(s, ep, y, read, later);
          case ClientReceives(size) => later := ReceiveKeeps(s, ep, y, size, read, later);
        }
      }
    }
  }

  // ------------------------------------------------------------------- who gets in

  /** The schedule in which the client never receives. */
  function OnlyReads(): nat -> Event {
    (n: nat) => EndpointReads
  }

  lemma {:induction false} UpBefore(ep: Endpoint, lines: seq<string>, i: nat, n: nat)
    requires i <= n <= |lines| && AfterLines(ep, lines, n).up
    ensures AfterLines(ep, lines, i).up
  {
    hide Serve;
    if i < n {
      UpBefore(ep, lines, i, n - 1);
    }
  }

  function Reads(s: Settings, ep: Endpoint, y: Ends, n: nat): Ends {
    if n == 0 then y else Advance(s, ep, Reads(s, ep, y, n - 1), EndpointReads)
  }

  lemma {:induction false} OnlyReadsReads(s: Settings, ep: Endpoint, n: nat)
    ensures Course(s, ep, OnlyReads(), n) == Reads(s, ep, Begun(s, ep), n)
  {
    if n > 0 {
      OnlyReadsReads(s, ep, n - 1);
    }
  }

  lemma {:induction false} ReadsLines(s: Settings, ep: Endpoint, y: Ends, lines: seq<string>, n: nat)
    requires y.toServer == Glued(lines) && NoFeed(lines) && y.server == Setup(ep)
    requires n <= |lines| && (n > 0 ==> AfterLines(ep, lines, n - 1).up)
    ensures Reads(s, ep, y, n).server == AfterLines(ep, lines, n) && Reads(s, ep, y, n).toServer == Glued(lines[n..])
  {
    if n == 0 {
      assert lines[0..] == lines;
    } else {
      UpBefore(ep, lines, if n == 1 then 0 else n - 2, n - 1);
      ReadsLines(s, ep, y, lines, n - 1);
      assert NoFeed(lines[n - 1..]) && lines[n - 1..][1..] == lines[n..];
      var server := AdvanceRead(s, ep, Reads(s, ep, y, n - 1), lines[n - 1..]);
    }
  }

  lemma ReadsLogin(s: Settings, ep: Endpoint, y: Ends, lines: seq<string>, i: nat)
    requires y.toServer == Glued(lines) && NoFeed(lines) && y.server == Setup(ep)
    requires i < |lines| && IsLogin(ep, lines[i]) && AfterLines(ep, lines, i).up
    ensures Reads(s, ep, y, i + 1).server.saslOk
  {
    ReadsLines(s, ep, y, lines, i + 1);
    ServeLogin(ep, AfterLines(ep, lines, i), lines[i]);
  }

  /** Some course of events makes the endpoint take the client for logged in. */
  ghost predicate CanLogIn(s: Settings, ep: Endpoint) {
    exists schedule: nat -> Event, n: nat :: Course(s, ep, schedule, n).server.saslOk
  }

  /** For every configuration with other credentials than the endpoint's: the endpoint that
      requires SASL can be made to accept the client exactly when the greeting, cut at its line
      feeds, holds a login with the endpoint's credentials at a line the endpoint reaches. */
  lemma LogsInExactly(s: Settings, ep: Endpoint)
    requires AllOctets(s, ep) && ep.requireSasl && !SameCredentials(s, ep)
    ensures CanLogIn(s, ep) <==> GreetingLogsIn(s, ep)
  {
    if CanLogIn(s, ep) {
      var schedule: nat -> Event, n: nat :| Course(s, ep, schedule, n).server.saslOk;
      OnlyThroughGreeting(s, ep, schedule, n);
    }
    if GreetingLogsIn(s, ep) {
      var i: nat :| LogsInAt(s, ep, i);
      ThroughGreeting(s, ep, i);
    }
  }

  lemma OnlyThroughGreeting(s: Settings, ep: Endpoint, schedule: nat -> Event, n: nat)
    requires AllOctets(s, ep) && ep.requireSasl && Course(s, ep, schedule, n).server.saslOk
    ensures SameCredentials(s, ep) || GreetingLogsIn(s, ep)
  {
    var read, later := CourseKeeps(s, ep, schedule, n);
  }

  lemma ThroughGreeting(s: Settings, ep: Endpoint, i: nat)
    requires LogsInAt(s, ep, i)
    ensures Course(s, ep, OnlyReads(), i + 1).server.saslOk && CanLogIn(s, ep)
  {
    StreamGlued(Greeting(s) + Joins(s.channels));
    ReadsLogin(s, ep, Begun(s, ep), GreetingLines(s), i);
    OnlyReadsReads(s, ep, i + 1);
  }

  /** The texts of the greeting hold no line feed. */
  predicate OneLineEach(s: Settings) {
    '\n' !in s.pass && '\n' !in s.nick && '\n' !in s.user && forall i | 0 <= i < |s.channels| :: '\n' !in s.channels[i]
  }

  lemma {:induction false} JoinsOneLine(channels: seq<string>)
    requires forall i | 0 <= i < |channels| :: '\n' !in channels[i]
    ensures forall i | 0 <= i < |Joins(channels)| :: '\n' !in Joins(channels)[i]
  {
    if channels != [] {
      assert '\n' !in channels[0];
      JoinsOneLine(channels[1..]);
    }
  }

  lemma GreetingOneLine(s: Settings)
    requires OneLineEach(s)
    ensures forall i | 0 <= i < |Greeting(s)| :: '\n' !in Greeting(s)[i]
  {
    forall i | 0 <= i < |Greeting(s)|
      ensures '\n' !in Greeting(s)[i]
    {
      var line := Greeting(s)[i];
      assert line == CAP_LS || line == Fit("PASS " + s.pass, LINE_MAX) || line == Fit("NICK " + s.nick, LINE_MAX)
             || line == Fit("USER " + s.user + " 0 * :AmBot", LINE_MAX);
    }
  }

  lemma GreetingIsCut(s: Settings)
    requires OneLineEach(s)
    ensures GreetingLines(s) == WithCr(Greeting(s) + Joins(s.channels))
  {
    GreetingOneLine(s);
    JoinsOneLine(s.channels);
    var all := Greeting(s) + Joins(s.channels);
    forall i | 0 <= i < |all|
      ensures '\n' !in all[i]
    {
      assert all[i] == if i < |Greeting(s)| then Greeting(s)[i] else Joins(s.channels)[i - |Greeting(s)|];
    }
    CutLines(all, "");
    assert Stream(all) + "" == Stream(all);
  }

  /** Without line feeds a greeting holds no foreign login. */
  lemma OneLineGreetingIsHarmless(s: Settings)
    requires OneLineEach(s)
    ensures AllHarmless(s, GreetingLines(s))
  {
    GreetingHarmless(s);
    JoinsHarmless(s, s.channels);
    GreetingIsCut(s);
    var all := Greeting(s) + Joins(s.channels);
    forall i | 0 <= i < |all|
      ensures Harmless(s, GreetingLines(s)[i])
    {
      assert all[i] == if i < |Greeting(s)| then Greeting(s)[i] else Joins(s.channels)[i - |Greeting(s)|];
      StripEnding(all[i], '\r');
    }
  }

  /** Under every schedule, however the bytes are split: with texts that hold no line feed, the
      endpoint that requires SASL registers the client only if user and password are its own. */
  lemma RegistersOnlyWithCredentials(s: Settings, ep: Endpoint, schedule: nat -> Event, n: nat)
    requires AllOctets(s, ep) && ep.requireSasl && OneLineEach(s)
    ensures Course(s, ep, schedule, n).server.registered ==> SameCredentials(s, ep)
  {
    var read, later := CourseKeeps(s, ep, schedule, n);
    if GreetingLogsIn(s, ep) {
      var i: nat :| LogsInAt(s, ep, i);
      OneLineGreetingIsHarmless(s);
      assert Harmless(s, GreetingLines(s)[i]);
      HarmlessLogin(s, ep, GreetingLines(s)[i]);
    }
  }

  /** The endpoint that requires SASL never registers the client with credentials not its own. */
  ghost predicate Honest(s: Settings, ep: Endpoint) {
    AllOctets(s, ep) && ep.requireSasl ==>
      forall schedule: nat -> Event, n: nat ::
        Course(s, ep, schedule, n).server.registered ==> SameCredentials(s, ep)
  }

  lemma OneLineIsHonest(s: Settings, ep: Endpoint)
    requires OneLineEach(s)
    ensures Honest(s, ep)
  {
    if AllOctets(s, ep) && ep.requireSasl {
      forall schedule: nat -> Event, n: nat
        ensures Course(s, ep, schedule, n).server.registered ==> SameCredentials(s, ep)
      {
        RegistersOnlyWithCredentials(s, ep, schedule, n);
      }
    }
  }
}
