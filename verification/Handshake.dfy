// The client of src/multinet.c and src/modernirc.c, shown to be the supervisor's line callback,
// closed with the endpoint of ci/m9_2/fixture_server.py by two channels of lines.
module Handshake {
  import opened Text
  import opened Irc
  import opened Settings
  import opened Base64
  import opened Networks
  import opened ModernIrc
  import opened Events
  import opened OneNetwork
  import opened Fixture

  // ------------------------------------------------------------- the system

  datatype Client = Client(modern: Modern, open: bool)

  function Pong(line: string): seq<string> {
    if StartsWith(line, "PING ") && |line| <= LINE_MAX then ["PONG " + line[5..]] else []
  }

  /** The client handles one line over a channel that loses nothing. */
  function Hear(s: Settings, c: Client, line: string): (Client, seq<string>) {
    if !c.open then (c, [])
    else
      var (m, reply) := Negotiate(s, c.modern, line);
      if Survives(reply, true) then (Client(m, true), Spoken(reply) + Pong(line))
      else (Client(m, false), Spoken(reply))
  }

  function SaidIn(log: Record): seq<string> {
    match log
    case Start => []
    case Then(past, act) => if act.Said? then SaidIn(past) + [act.line] else SaidIn(past)
  }

  /** This is the supervisor's line callback when every send succeeds. */
  lemma HearIsHandle(s: Settings, l: Link, line: string)
    requires l.sock >= 0 && l.sends == []
    ensures var ((m, stop), (c, said)) := (Handle(s, l, line), Hear(s, Client(l.modern, true), line));
            && m.modern == c.modern && (stop <==> !c.open) && m.sends == []
            && SaidIn(m.log) == SaidIn(l.log) + said
  {
    var (m, reply) := Negotiate(s, l.modern, line);
    ReactSays(l, line, m, reply);
  }

  lemma ReactSays(l: Link, line: string, m: Modern, reply: Reply)
    requires l.sends == []
    ensures var (l', stop) := React(l, line, m, reply);
            && l'.modern == m && l'.sends == [] && (stop <==> !Survives(reply, true))
            && SaidIn(l'.log) == SaidIn(l.log) + (Spoken(reply) + if stop then [] else Pong(line))
  {
    var heard := l.(modern := m, log := Then(l.log, Heard(line)));
    PerformSays(heard, reply);
    var (l', goesOn) := Perform(heard, reply);
    if goesOn {
      ConsumeSays(l', line, ParseLine(line));
      Assoc(SaidIn(l.log), Spoken(reply), Pong(line));
    } else {
      assert Spoken(reply) + [] == Spoken(reply);
    }
  }

  lemma Assoc(a: seq<string>, b: seq<string>, c: seq<string>)
    ensures a + b + c == a + (b + c)
  {
  }

  lemma PerformSays(l: Link, reply: Reply)
    requires l.sends == []
    ensures var (m, goesOn) := Perform(l, reply);
            && m.modern == l.modern && m.sends == [] && (goesOn <==> Survives(reply, true))
            && SaidIn(m.log) == SaidIn(l.log) + Spoken(reply)
  {
    assert SaidIn(l.log) + [] == SaidIn(l.log);
  }

  lemma ConsumeSays(l: Link, line: string, event: Option<Event>)
    requires l.sends == []
    ensures var m := Consume(l, line, event);
            m.modern == l.modern && m.sends == [] && SaidIn(m.log) == SaidIn(l.log) + Pong(line)
  {
    if StartsWith(line, "PING ") {
      assert |"PONG " + line[5..]| == |line|;
    }
  }

  lemma {:induction false} SpeakAllSays(l: Link, lines: seq<string>)
    ensures var (m, ok) := SpeakAll(l, lines); m.modern == l.modern && (ok ==> SaidIn(m.log) == SaidIn(l.log) + lines)
    decreases |lines|
  {
    if lines != [] {
      SpeakAllSays(Speak(l, lines[0]).0, lines[1..]);
      assert SaidIn(l.log) + [lines[0]] + lines[1..] == SaidIn(l.log) + lines;
    }
  }

  lemma {:induction false} SpeakEachSays(l: Link, lines: seq<string>)
    ensures SpeakEach(l, lines).modern == l.modern && SaidIn(SpeakEach(l, lines).log) == SaidIn(l.log) + lines
    decreases |lines|
  {
    if lines != [] {
      SpeakEachSays(Speak(l, lines[0]).0, lines[1..]);
      assert SaidIn(l.log) + [lines[0]] + lines[1..] == SaidIn(l.log) + lines;
    }
  }

  lemma SpeakBothSays(l: Link, opening: seq<string>, rest: seq<string>)
    ensures var (m, ok) := SpeakAll(l, opening);
            var last := SpeakEach(m, rest);
            ok ==> last.modern == l.modern && SaidIn(last.log) == SaidIn(l.log) + (opening + rest)
  {
    SpeakAllSays(l, opening);
    SpeakEachSays(SpeakAll(l, opening).0, rest);
    assert SaidIn(l.log) + opening + rest == SaidIn(l.log) + (opening + rest);
  }

  /** A connection that is made starts as the closed system below does: the flags cleared, the
      greeting and the JOINs said in this order, no unfinished line kept. */
  lemma ConnectSays(s: Settings, n: Net, c: Connection)
    ensures var (m, result) := Connect(s, n, c);
            result == Ok ==>
              && m.framer == IDLE && m.link.modern == Begin(s)
              && SaidIn(m.link.log) == SaidIn(n.link.log) + (Greeting(s) + Joins(s.channels))
  {
    if Secure(s) && c.Connected? {
      var l := n.link.(sock := c.fd, modern := Begin(s), sends := c.sends, log := Then(n.link.log, Opened(c.fd)));
      SpeakBothSays(l, Greeting(s), Joins(s.channels));
      assert SaidIn(l.log) == SaidIn(n.link.log);
    }
  }

  /** Both ends, and the lines on their way each way. */
  datatype System = System(client: Client, server: Server, toServer: seq<string>, toClient: seq<string>)

  datatype Move = ServerReads | ClientReads

  predicate CanMove(y: System, move: Move) {
    match move
    case ServerReads => y.server.up && y.toServer != []
    case ClientReads => y.client.open && y.toClient != []
  }

  function Step(s: Settings, ep: Endpoint, y: System, move: Move): System {
    if !CanMove(y, move) then y
    else
      match move
      case ServerReads =>
        var (server, said) := Serve(ep, y.server, y.toServer[0]);
        System(y.client, server, y.toServer[1..], y.toClient + said)
      case ClientReads =>
        var (client, said) := Hear(s, y.client, y.toClient[0]);
        System(client, y.server, y.toServer + said, y.toClient[1..])
  }

  predicate Quiescent(y: System) {
    !CanMove(y, ServerReads) && !CanMove(y, ClientReads)
  }

  predicate SameCredentials(s: Settings, ep: Endpoint) {
    s.saslUser == ep.user && s.saslPass == ep.pass
  }

  // ----------------------------------------------------------------- safety

  /** A line the endpoint will take for an authentication only if it is one of the client's. */
  predicate Harmless(s: Settings, raw: string) {
    var line := RStrip(raw);
    Command(line) == "AUTHENTICATE" ==>
      Args(line) == "PLAIN" || Args(line) == Encode(PlainMessage(s.saslUser, s.saslPass))
  }

  lemma OtherCommand(s: Settings, line: string, word: string, rest: string)
    requires ' ' !in word && |word| < 12 && line == word + " " + rest
    ensures Harmless(s, line)
  {
    CommandAndArgs(word, rest);
    assert |Upper(word)| == |word|;
  }

  lemma PayloadHasNoEnd(s: Settings)
    ensures var e := Encode(PlainMessage(s.saslUser, s.saslPass)); RStrip(e) == e
  {
    var e := Encode(PlainMessage(s.saslUser, s.saslPass));
    EncodeAlphabet(PlainMessage(s.saslUser, s.saslPass));
    if e != "" {
      assert e[|e| - 1] in e;
    }
  }

  lemma CutCommand(s: Settings, line: string, word: string, rest: string)
    requires ' ' !in word && |word| < 12 && line == word + " " + rest
    ensures Harmless(s, Fit(line, LINE_MAX))
  {
    var cut := Fit(line, LINE_MAX);
    OtherCommand(s, cut, word, cut[|word| + 1..]);
  }

  lemma PassHarmless(s: Settings)
    ensures Harmless(s, Fit("PASS " + s.pass, LINE_MAX))
  {
    CutCommand(s, "PASS " + s.pass, "PASS", s.pass);
  }

  lemma NickHarmless(s: Settings)
    ensures Harmless(s, Fit("NICK " + s.nick, LINE_MAX))
  {
    CutCommand(s, "NICK " + s.nick, "NICK", s.nick);
  }

  lemma UserHarmless(s: Settings)
    ensures Harmless(s, Fit("USER " + s.user + " 0 * :AmBot", LINE_MAX))
  {
    CutCommand(s, "USER " + s.user + " 0 * :AmBot", "USER", s.user + " 0 * :AmBot");
  }

  lemma CapHarmless(s: Settings, line: string, rest: string)
    requires line == "CAP " + rest
    ensures Harmless(s, line)
  {
    OtherCommand(s, line, "CAP", rest);
  }

  predicate AllHarmless(s: Settings, lines: seq<string>) {
    forall i | 0 <= i < |lines| :: Harmless(s, lines[i])
  }

  lemma GreetingHarmless(s: Settings)
    ensures AllHarmless(s, Greeting(s))
  {
    forall i | 0 <= i < |Greeting(s)|
      ensures Harmless(s, Greeting(s)[i])
    {
      var line := Greeting(s)[i];
      if line == CAP_LS {
        CapHarmless(s, CAP_LS, "LS 302");
      } else if line == Fit("PASS " + s.pass, LINE_MAX) {
        PassHarmless(s);
      } else if line == Fit("NICK " + s.nick, LINE_MAX) {
        NickHarmless(s);
      } else {
        UserHarmless(s);
      }
    }
  }

  lemma {:induction false} JoinsHarmless(s: Settings, channels: seq<string>)
    ensures AllHarmless(s, Joins(channels))
  {
    if channels != [] {
      OtherCommand(s, "JOIN " + channels[0], "JOIN", channels[0]);
      JoinsHarmless(s, channels[1..]);
    }
  }

  /** What negotiation says in reply to a line is nothing, or one of four lines. */
  lemma NegotiateSays(s: Settings, m: Modern, line: string)
    ensures var said := Spoken(Negotiate(s, m, line).1);
            said == [] || said == [CAP_REQ] || said == [CAP_END] || said == [AUTH_PLAIN]
            || said == ["AUTHENTICATE " + Encode(PlainMessage(s.saslUser, s.saslPass))]
  {
  }
}
