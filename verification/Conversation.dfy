// The negotiation of a connection of the supervisor, read off its record: it is a conversation
// of the automaton over the lines it heard, so it keeps the order of messages.
module Conversation {
  import opened Text
  import opened Irc
  import opened Framing
  import opened Settings
  import opened ModernIrc
  import opened Events
  import opened OneNetwork
  import opened Connections

  predicate IsNegotiation(line: string) {
    StartsWith(line, "CAP ") || StartsWith(line, "AUTHENTICATE ")
  }

  /** The negotiation messages a log says were attempted. */
  function NegotiationIn(log: Record): seq<string> {
    match log
    case Start => []
    case Then(past, act) =>
      if act.Said? && IsNegotiation(act.line) then NegotiationIn(past) + [act.line] else NegotiationIn(past)
  }

  // ------------------------------------------------------------------- connecting

  predicate NoneNegotiates(lines: seq<string>) {
    forall i | 0 <= i < |lines| :: !IsNegotiation(lines[i])
  }

  lemma OtherLetter(line: string)
    requires line != "" && line[0] != 'C' && line[0] != 'A'
    ensures !IsNegotiation(line)
  {
  }

  lemma {:induction false} SpeakAllOther(l: Link, lines: seq<string>)
    requires NoneNegotiates(lines)
    ensures NegotiationIn(SpeakAll(l, lines).0.log) == NegotiationIn(l.log) && SpeakAll(l, lines).0.modern == l.modern
    decreases |lines|
  {
    if lines != [] {
      assert !IsNegotiation(lines[0]);
      SpeakAllOther(Speak(l, lines[0]).0, lines[1..]);
    }
  }

  lemma {:induction false} SpeakEachOther(l: Link, lines: seq<string>)
    requires NoneNegotiates(lines)
    ensures NegotiationIn(SpeakEach(l, lines).log) == NegotiationIn(l.log) && SpeakEach(l, lines).modern == l.modern
    decreases |lines|
  {
    if lines != [] {
      assert !IsNegotiation(lines[0]);
      SpeakEachOther(Speak(l, lines[0]).0, lines[1..]);
    }
  }

  lemma {:induction false} JoinsOther(channels: seq<string>)
    ensures NoneNegotiates(Joins(channels))
  {
    if channels != [] {
      OtherLetter("JOIN " + channels[0]);
      JoinsOther(channels[1..]);
    }
  }

  lemma RegistrationOther(nick: string, user: string, pass: string)
    ensures NoneNegotiates(RegistrationLines(nick, user, pass))
  {
    var lines := RegistrationLines(nick, user, pass);
    forall i | 0 <= i < |lines|
      ensures !IsNegotiation(lines[i])
    {
      assert lines[i] == Fit("PASS " + pass, LINE_MAX) || lines[i] == Fit("NICK " + nick, LINE_MAX)
             || lines[i] == Fit("USER " + user + " 0 * :AmBot", LINE_MAX);
      OtherLetter(lines[i]);
    }
  }

  /** The opening messages of a connection. */
  function Opened(s: Settings): seq<string> {
    if s.cap then [CAP_LS] else []
  }

  lemma GreetingOpens(s: Settings, l: Link)
    requires SpeakAll(l, Greeting(s)).1
    ensures var m := SpeakAll(l, Greeting(s)).0;
            NegotiationIn(m.log) == NegotiationIn(l.log) + Opened(s) && m.modern == l.modern
  {
    var rest := RegistrationLines(s.nick, s.user, s.pass);
    RegistrationOther(s.nick, s.user, s.pass);
    if s.cap {
      assert Greeting(s) == [CAP_LS] + rest && Greeting(s)[1..] == rest;
      SpeakAllOther(Speak(l, CAP_LS).0, rest);
    } else {
      assert Greeting(s) == rest && NegotiationIn(l.log) + [] == NegotiationIn(l.log);
      SpeakAllOther(l, rest);
    }
  }

  lemma ConnectOpens(s: Settings, n: Net, c: Connection)
    requires Connect(s, n, c).1 == Ok
    ensures var m := Connect(s, n, c).0;
            NegotiationIn(m.link.log) == NegotiationIn(n.link.log) + Opened(s) && m.link.modern == Begin(s)
  {
    var l := n.link.(sock := c.fd, modern := Begin(s), sends := c.sends, log := Then(n.link.log, Act.Opened(c.fd)));
    GreetingOpens(s, l);
    JoinsOther(s.channels);
    SpeakEachOther(SpeakAll(l, Greeting(s)).0, Joins(s.channels));
  }

  // --------------------------------------------------------------------- one line

  /** Whether the next send will succeed. */
  predicate NextSend(l: Link) {
    l.sends == [] || l.sends[0]
  }

  /** The conversation as far as a link records it. */
  function TalkOf(l: Link, alive: bool): Talk {
    Talk(l.modern, NegotiationIn(l.log), alive)
  }

  lemma SaidNegotiates(s: Settings, m: Modern, line: string)
    ensures forall said | said in Spoken(Negotiate(s, m, line).1) :: IsNegotiation(said)
  {
  }

  lemma PerformTalks(l: Link, reply: Reply)
    requires forall said | said in Spoken(reply) :: IsNegotiation(said)
    ensures var (m, goesOn) := Perform(l, reply);
            && m.modern == l.modern && NegotiationIn(m.log) == NegotiationIn(l.log) + Spoken(reply)
            && (goesOn <==> Survives(reply, NextSend(l)))
  {
    if Spoken(reply) == [] {
      assert NegotiationIn(l.log) + [] == NegotiationIn(l.log);
    } else {
      assert Spoken(reply)[0] in Spoken(reply);
    }
  }

  lemma ReactTalks(l: Link, line: string, m: Modern, reply: Reply)
    requires forall said | said in Spoken(reply) :: IsNegotiation(said)
    ensures var (l', stop) := React(l, line, m, reply);
            && l'.modern == m && NegotiationIn(l'.log) == NegotiationIn(l.log) + Spoken(reply)
            && (stop <==> !Survives(reply, NextSend(l)))
  {
    var heard := l.(modern := m, log := Then(l.log, Heard(line)));
    PerformTalks(heard, reply);
    var (l', goesOn) := Perform(heard, reply);
    if goesOn {
      ConsumeTalks(l', line, ParseLine(line));
    }
  }

  lemma ConsumeTalks(l: Link, line: string, event: Option<Event>)
    ensures var m := Consume(l, line, event); m.modern == l.modern && NegotiationIn(m.log) == NegotiationIn(l.log)
  {
    if StartsWith(line, "PING ") {
      OtherLetter("PONG " + line[5..]);
    }
  }

  /** What a line callback records is one step of the conversation. */
  ghost predicate Converses(cb: Callback<Link>, next: (Talk, Input) -> Talk) {
    forall l: Link, line: string {:trigger cb(l, line)} | Sound(l) && l.sock >= 0 ::
      var (m, stop) := cb(l, line);
      && (if stop then m.sock < 0 else Sound(m) && m.sock >= 0)
      && next(TalkOf(l, true), Input(line, NextSend(l))) == TalkOf(m, !stop)
  }

  function NextOf(s: Settings): (Talk, Input) -> Talk {
    (t: Talk, input: Input) => Next(s, t, input)
  }

  lemma HandlerConverses(s: Settings)
    ensures Converses(Handler(s), NextOf(s))
  {
    forall l: Link, line: string | Sound(l) && l.sock >= 0
      ensures var (m, stop) := Handler(s)(l, line);
              && (if stop then m.sock < 0 else Sound(m) && m.sock >= 0)
              && NextOf(s)(TalkOf(l, true), Input(line, NextSend(l))) == TalkOf(m, !stop)
    {
      HandleSound(s, l, line);
      SaidNegotiates(s, l.modern, line);
      var (m, reply) := Negotiate(s, l.modern, line);
      ReactTalks(l, line, m, reply);
    }
  }

  // ------------------------------------------------------------------ many lines

  function TalkFrom(next: (Talk, Input) -> Talk, t: Talk, inputs: seq<Input>): Talk
    decreases |inputs|
  {
    if inputs == [] then t else TalkFrom(next, next(t, inputs[0]), inputs[1..])
  }

  predicate SameLines(inputs: seq<Input>, lines: seq<string>) {
    |inputs| == |lines| && forall i | 0 <= i < |lines| :: inputs[i].line == lines[i]
  }

  lemma SameLinesCons(input: Input, inputs: seq<Input>, lines: seq<string>)
    requires SameLines(inputs, lines)
    ensures SameLines([input] + inputs, [input.line] + lines)
  {
    forall i | 0 <= i < |lines| + 1
      ensures ([input] + inputs)[i].line == ([input.line] + lines)[i]
    {
      if i > 0 {
        assert ([input] + inputs)[i] == inputs[i - 1];
      }
    }
  }

  lemma {:induction false} DeliverTalks(cb: Callback<Link>, next: (Talk, Input) -> Talk, l: Link, lines: seq<string>)
    returns (inputs: seq<Input>)
    requires Converses(cb, next) && Sound(l) && l.sock >= 0
    ensures SameLines(inputs, Handled(cb, l, lines))
    ensures var m := Deliver(cb, l, lines).0; TalkFrom(next, TalkOf(l, true), inputs) == TalkOf(m, m.sock >= 0)
    decreases |lines|
  {
    if lines == [] {
      inputs := [];
    } else {
      var (m, stop) := cb(l, lines[0]);
      var input := Input(lines[0], NextSend(l));
      if stop {
        inputs := [input];
        assert inputs[1..] == [];
      } else {
        var more := DeliverTalks(cb, next, m, lines[1..]);
        inputs := [input] + more;
        assert inputs[1..] == more;
        SameLinesCons(input, more, Handled(cb, m, lines[1..]));
      }
    }
  }

  lemma {:induction false} TalkSnoc(next: (Talk, Input) -> Talk, t: Talk, inputs: seq<Input>, last: Input)
    ensures TalkFrom(next, t, inputs + [last]) == next(TalkFrom(next, t, inputs), last)
    decreases |inputs|
  {
    if inputs == [] {
      assert ([] + [last])[1..] == [];
    } else {
      assert (inputs + [last])[1..] == inputs[1..] + [last];
      TalkSnoc(next, next(t, inputs[0]), inputs[1..], last);
    }
  }

  lemma {:induction false} TalkingFrom(s: Settings, inputs: seq<Input>, n: nat)
    requires n <= |inputs|
    ensures Talking(s, true, inputs, n) == TalkFrom(NextOf(s), Talk(Begin(s), Opened(s), true), inputs[..n])
  {
    if n > 0 {
      TalkingFrom(s, inputs, n - 1);
      assert inputs[..n] == inputs[..n - 1] + [inputs[n - 1]];
      TalkSnoc(NextOf(s), Talk(Begin(s), Opened(s), true), inputs[..n - 1], inputs[n - 1]);
    }
  }

  /** What was said before a conversation does not matter to it. */
  lemma {:induction false} SaidBefore(s: Settings, m: Modern, before: seq<string>, said: seq<string>,
                                      alive: bool, inputs: seq<Input>)
    ensures var t := TalkFrom(NextOf(s), Talk(m, said, alive), inputs);
            TalkFrom(NextOf(s), Talk(m, before + said, alive), inputs) == Talk(t.modern, before + t.said, t.alive)
    decreases |inputs|
  {
    if inputs != [] {
      var u := Next(s, Talk(m, said, alive), inputs[0]);
      NextSaidBefore(s, m, before, said, alive, inputs[0]);
      SaidBefore(s, u.modern, before, u.said, u.alive, inputs[1..]);
    }
  }

  lemma NextSaidBefore(s: Settings, m: Modern, before: seq<string>, said: seq<string>, alive: bool, input: Input)
    ensures var u := Next(s, Talk(m, said, alive), input);
            Next(s, Talk(m, before + said, alive), input) == Talk(u.modern, before + u.said, u.alive)
  {
    var more := Spoken(Negotiate(s, m, input.line).1);
    assert before + said + more == before + (said + more);
  }

  /** The network once an attempt has succeeded: it no longer waits to retry. */
  function Made(s: Settings, n: Net, c: Connection): Net {
    var m := Connect(s, n, c).0;
    m.(link := m.link.(retry := false))
  }

  /** A connection that is made, and whatever chunks it then receives: the negotiation messages its
      record gains are those of a conversation over exactly the lines it handled, it is live exactly
      as long as the conversation, and the messages come in the negotiation's order. */
  lemma ConnectionNegotiates(s: Settings, n: Net, c: Connection, chunks: seq<string>) returns (inputs: seq<Input>)
    requires Sound(n.link) && !Live(n) && Connect(s, n, c).1 == Ok
    ensures var start, t := Made(s, n, c), Talking(s, true, inputs, |inputs|);
            var m := Chunks(s, start, chunks);
            && SameLines(inputs, Handled(Handler(s), start.link, Framing.Accepted(Cut(Joined(chunks)).0)))
            && NegotiationIn(m.link.log) == NegotiationIn(n.link.log) + t.said
            && m.link.modern == t.modern && (Live(m) <==> t.alive)
            && Orderly(s, m.link.modern, t.said)
  {
    ConnectSound(s, n, c);
    ConnectOpens(s, n, c);
    var start := Made(s, n, c);
    inputs := ChunksTalk(s, start, chunks);
    SaidBefore(s, Begin(s), NegotiationIn(n.link.log), Opened(s), true, inputs);
    TalkingFrom(s, inputs, |inputs|);
    assert inputs[..|inputs|] == inputs;
    NegotiationTraces(s, true, inputs, |inputs|);
  }

  lemma ChunksTalk(s: Settings, n: Net, chunks: seq<string>) returns (inputs: seq<Input>)
    requires Sound(n.link) && Live(n) && n.framer == IDLE
    ensures SameLines(inputs, Handled(Handler(s), n.link, Framing.Accepted(Cut(Joined(chunks)).0)))
    ensures var m := Chunks(s, n, chunks); TalkFrom(NextOf(s), TalkOf(n.link, true), inputs) == TalkOf(m.link, Live(m))
  {
    var lines := Framing.Accepted(Cut(Joined(chunks)).0);
    ChunksFeed(s, n, chunks);
    StreamTheorem(chunks, Handler(s), n.link);
    HandlerConverses(s);
    inputs := DeliverTalks(Handler(s), NextOf(s), n.link, lines);
  }
}
