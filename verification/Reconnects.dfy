// A network over all its connections: what is handled on each of them comes from the bytes of
// that connection alone, whatever losses and retries lie between them.
module Reconnects {
  import opened Irc
  import opened Framing
  import opened Settings
  import opened Networks
  import opened ModernIrc
  import opened Events
  import opened OneNetwork
  import opened Connections

  /** What a log says: the lines handled, the pongs sent, the events dispatched. */
  datatype Seen = Seen(heard: seq<string>, pongs: seq<string>, events: seq<Event>)

  const NOTHING := Seen([], [], [])

  function SeenIn(log: Record): Seen {
    Seen(HeardIn(log), PongsIn(log), EventsIn(log))
  }

  function Plus(a: Seen, b: Seen): Seen {
    Seen(a.heard + b.heard, a.pongs + b.pongs, a.events + b.events)
  }

  /** One connection: the network just after it was made, and the chunks received on it. */
  datatype Session = Session(start: Net, chunks: seq<string>)

  /** What a connection is owed: the frames of its bytes up to the first whose negotiation fails, a
      pong for each ping and the event of each other line that passes. */
  function Owed(s: Settings, session: Session): Seen {
    var lines := Framing.Accepted(Cut(Joined(session.chunks)).0);
    var passed := Passed(Handler(s), session.start.link, lines);
    Seen(Handled(Handler(s), session.start.link, lines), PingsIn(passed), EventsOf(EventOf, passed))
  }

  function AllOwed(s: Settings, sessions: seq<Session>): Seen {
    if sessions == [] then NOTHING else Plus(Owed(s, sessions[0]), AllOwed(s, sessions[1..]))
  }

  /** The chunks still received on the connection the network has. */
  function Brought(s: Settings, n: Net, turns: seq<Turn>): seq<string>
    decreases |turns|
  {
    if turns == [] || !Live(n) then []
    else
      var t := turns[0];
      if !t.env.readable then Brought(s, n, turns[1..])
      else
        match t.env.received
        case Lost => []
        case Chunk(data) => [data] + Brought(s, RoundOf(s)(n, t), turns[1..])
  }

  /** The connections made from here on. */
  function Made(s: Settings, n: Net, turns: seq<Turn>): seq<Session>
    decreases |turns|
  {
    if turns == [] then []
    else
      var m := RoundOf(s)(n, turns[0]);
      (if !Live(n) && Live(m) then [Session(m, Brought(s, m, turns[1..]))] else []) + Made(s, m, turns[1..])
  }

  // ------------------------------------------------------------------ between connections

  lemma SpeakSeen(l: Link, line: string)
    requires !StartsWithPong(line)
    ensures SeenIn(Speak(l, line).0.log) == SeenIn(l.log)
  {
  }

  predicate StartsWithPong(line: string) {
    "PONG " <= line
  }

  predicate NoPongs(lines: seq<string>) {
    forall i | 0 <= i < |lines| :: !StartsWithPong(lines[i])
  }

  lemma {:induction false} SpeakAllSeen(l: Link, lines: seq<string>)
    requires NoPongs(lines)
    ensures SeenIn(SpeakAll(l, lines).0.log) == SeenIn(l.log)
    decreases |lines|
  {
    hide SeenIn;
    if lines != [] {
      SpeakSeen(l, lines[0]);
      SpeakAllSeen(Speak(l, lines[0]).0, lines[1..]);
    }
  }

  lemma {:induction false} SpeakEachSeen(l: Link, lines: seq<string>)
    requires NoPongs(lines)
    ensures SeenIn(SpeakEach(l, lines).log) == SeenIn(l.log)
    decreases |lines|
  {
    hide SeenIn;
    if lines != [] {
      SpeakSeen(l, lines[0]);
      SpeakEachSeen(Speak(l, lines[0]).0, lines[1..]);
    }
  }

  lemma GreetingNoPongs(s: Settings)
    ensures NoPongs(Greeting(s))
  {
    assert "PONG "[1] == 'O' && CAP_LS[1] == 'A' && "PASS "[1] == 'A' && "NICK "[1] == 'I' && "USER "[1] == 'S';
  }

  lemma {:induction false} JoinsNoPongs(channels: seq<string>)
    ensures NoPongs(Joins(channels))
  {
    if channels != [] {
      assert "PONG "[0] == 'P' && "JOIN "[0] == 'J';
      JoinsNoPongs(channels[1..]);
    }
  }

  /** Connecting handles no line, answers no ping and dispatches nothing. */
  lemma ConnectSeen(s: Settings, n: Net, c: Connection)
    ensures SeenIn(Connect(s, n, c).0.link.log) == SeenIn(n.link.log)
  {
    hide Greeting, Joins, SpeakAll, SpeakEach;
    if Secure(s) && c.Connected? {
      var l := n.link.(sock := c.fd, modern := Begin(s), sends := c.sends, log := Then(n.link.log, Opened(c.fd)));
      GreetingNoPongs(s);
      JoinsNoPongs(s.channels);
      SpeakAllSeen(l, Greeting(s));
      SpeakEachSeen(SpeakAll(l, Greeting(s)).0, Joins(s.channels));
    }
  }

  lemma RetrySeen(s: Settings, n: Net, now: int, c: Connection)
    ensures SeenIn(Retry(s, n, now, c).link.log) == SeenIn(n.link.log)
  {
    hide Connect, SeenIn;
    if n.link.retry && now >= n.link.at {
      ConnectSeen(s, n, c);
    }
  }

  lemma LostSeen(s: Settings, n: Net, after: int)
    ensures SeenIn(Receive(s, n, Lost, after).link.log) == SeenIn(n.link.log)
  {
  }

  lemma {:induction false} SpeakAllModern(l: Link, lines: seq<string>)
    ensures SpeakAll(l, lines).0.modern == l.modern
    decreases |lines|
  {
    if lines != [] {
      SpeakAllModern(Speak(l, lines[0]).0, lines[1..]);
    }
  }

  lemma {:induction false} SpeakEachModern(l: Link, lines: seq<string>)
    ensures SpeakEach(l, lines).modern == l.modern
    decreases |lines|
  {
    if lines != [] {
      SpeakEachModern(Speak(l, lines[0]).0, lines[1..]);
    }
  }

  /** A connection starts with no unfinished line and a negotiation that has just begun. */
  predicate Fresh(s: Settings, n: Net) {
    Sound(n.link) && Live(n) && n.framer == IDLE && n.link.modern == Begin(s)
  }

  lemma ConnectFresh(s: Settings, n: Net, c: Connection)
    requires Sound(n.link) && !Live(n)
    ensures var (m, result) := Connect(s, n, c); result == Ok ==> m.framer == IDLE && m.link.modern == Begin(s)
  {
    hide Greeting, Joins, SpeakAll, SpeakEach;
    if Secure(s) && c.Connected? {
      var l := n.link.(sock := c.fd, modern := Begin(s), sends := c.sends, log := Then(n.link.log, Opened(c.fd)));
      SpeakAllModern(l, Greeting(s));
      SpeakEachModern(SpeakAll(l, Greeting(s)).0, Joins(s.channels));
    }
  }

  lemma RetryFresh(s: Settings, n: Net, now: int, c: Connection)
    requires Sound(n.link) && !Live(n) && Live(Retry(s, n, now, c))
    ensures Fresh(s, Retry(s, n, now, c))
  {
    hide Connect;
    RetrySound(s, n, now, c);
    ConnectSound(s, n, c);
    ConnectFresh(s, n, c);
  }

  // --------------------------------------------------------------------- over all rounds

  lemma ChunksCons(s: Settings, n: Net, data: string, after: int, rest: seq<string>)
    requires Live(n)
    ensures Chunks(s, n, [data] + rest) == Chunks(s, Receive(s, n, Chunk(data), after), rest)
  {
    assert ([data] + rest)[0] == data && ([data] + rest)[1..] == rest;
  }

  lemma DeadChunks(s: Settings, n: Net, chunks: seq<string>)
    requires !Live(n)
    ensures Chunks(s, n, chunks) == n
  {
  }

  lemma SessionSeen(s: Settings, session: Session)
    requires Sound(session.start.link) && Live(session.start) && session.start.framer == IDLE
    ensures SeenIn(Chunks(s, session.start, session.chunks).link.log)
         == Plus(SeenIn(session.start.link.log), Owed(s, session))
  {
    ConnectionTheorem(s, session.start, session.chunks);
  }

  lemma PlusNothing(a: Seen)
    ensures Plus(a, NOTHING) == a && Plus(NOTHING, a) == a
  {
  }

  lemma PlusTogether(a: Seen, b: Seen, c: Seen)
    ensures Plus(Plus(a, b), c) == Plus(a, Plus(b, c))
  {
  }

  lemma OwedCons(s: Settings, first: Session, rest: seq<Session>)
    ensures AllOwed(s, [first] + rest) == Plus(Owed(s, first), AllOwed(s, rest))
  {
    assert ([first] + rest)[1..] == rest;
  }

  /** A round of a network without connection. */
  lemma RoundDown(s: Settings, n: Net, t: Turn)
    requires Sound(n.link) && !Live(n)
    ensures var m := RoundOf(s)(n, t);
            && SeenIn(m.link.log) == SeenIn(n.link.log) && Sound(m.link) && (Live(m) ==> Fresh(s, m))
  {
    hide SeenIn, Retry;
    RoundSound(s, n, t.now, t.env);
    RetrySeen(s, n, t.now, t.env.connection);
    if Live(Retry(s, n, t.now, t.env.connection)) {
      RetryFresh(s, n, t.now, t.env.connection);
    }
  }

  /** A round of a network with one. */
  lemma RoundUp(s: Settings, n: Net, t: Turn)
    requires Sound(n.link) && Live(n)
    ensures RoundOf(s)(n, t) == if t.env.readable then Receive(s, n, t.env.received, t.env.after) else n
    ensures Sound(RoundOf(s)(n, t).link)
  {
    RoundSound(s, n, t.now, t.env);
    RetrySound(s, n, t.now, t.env.connection);
  }

  /** Over any rounds: the log gains what is still owed on the connection the network has, and then
      what is owed on each connection made later, in order. */
  lemma {:induction false} RoundsSeen(s: Settings, n: Net, turns: seq<Turn>)
    requires Sound(n.link)
    ensures SeenIn(Rounds(RoundOf(s), n, turns).link.log)
         == Plus(SeenIn(Chunks(s, n, Brought(s, n, turns)).link.log), AllOwed(s, Made(s, n, turns)))
    decreases |turns|
  {
    hide SeenIn, Plus, AllOwed, RoundOf, Owed, Receive, Sound;
    if turns == [] {
      PlusNothing(SeenIn(n.link.log));
      NothingOwed(s);
    } else {
      var t, rest := turns[0], turns[1..];
      var m := RoundOf(s)(n, t);
      if Live(n) {
        RoundUp(s, n, t);
        RoundsSeen(s, m, rest);
        if t.env.readable {
          match t.env.received {
            case Lost =>
              LostSeen(s, n, t.env.after);
              LostIsDown(s, n, t.env.after);
              DeadChunks(s, m, Brought(s, m, rest));
            case Chunk(data) =>
              ChunksCons(s, n, data, t.env.after, Brought(s, m, rest));
          }
        }
        assert [] + Made(s, m, rest) == Made(s, m, rest);
      } else {
        RoundDown(s, n, t);
        RoundsSeen(s, m, rest);
        DeadChunks(s, n, Brought(s, n, turns));
        if Live(m) {
          NewConnection(s, n, m, rest);
        } else {
          DeadChunks(s, m, Brought(s, m, rest));
          assert [] + Made(s, m, rest) == Made(s, m, rest);
        }
      }
    }
  }

  lemma NothingOwed(s: Settings)
    ensures AllOwed(s, []) == NOTHING
  {
  }

  lemma LostIsDown(s: Settings, n: Net, after: int)
    ensures !Live(Receive(s, n, Lost, after))
  {
  }

  lemma NewConnection(s: Settings, n: Net, m: Net, rest: seq<Turn>)
    requires Fresh(s, m) && SeenIn(m.link.log) == SeenIn(n.link.log)
    ensures var first := Session(m, Brought(s, m, rest));
            Plus(SeenIn(Chunks(s, m, Brought(s, m, rest)).link.log), AllOwed(s, Made(s, m, rest)))
              == Plus(SeenIn(n.link.log), AllOwed(s, [first] + Made(s, m, rest)))
  {
    hide SeenIn, Plus, AllOwed, Owed, Made, Brought, Chunks;
    var first := Session(m, Brought(s, m, rest));
    SessionSeen(s, first);
    OwedCons(s, first, Made(s, m, rest));
    PlusTogether(SeenIn(n.link.log), Owed(s, first), AllOwed(s, Made(s, m, rest)));
  }

  /** Every connection made starts fresh. */
  lemma {:induction false} MadeFresh(s: Settings, n: Net, turns: seq<Turn>)
    requires Sound(n.link)
    ensures forall i | 0 <= i < |Made(s, n, turns)| :: Fresh(s, Made(s, n, turns)[i].start)
    decreases |turns|
  {
    hide Fresh, RoundOf, Sound;
    if turns != [] {
      var m := RoundOf(s)(n, turns[0]);
      if Live(n) {
        RoundUp(s, n, turns[0]);
      } else {
        RoundDown(s, n, turns[0]);
      }
      MadeFresh(s, m, turns[1..]);
    }
  }

  /** All connections of a network from its first attempt on. */
  function Life(s: Settings, c: Connection, after: int, turns: seq<Turn>): seq<Session> {
    var n := Boot(s, c, after);
    (if Live(n) then [Session(n, Brought(s, n, turns))] else []) + Made(s, n, turns)
  }

  /** The life of a network, with any losses, refusals and retries: every connection starts with no
      unfinished line and a negotiation that has just begun, and what the network has handled,
      answered and dispatched is, connection by connection, what the bytes of that connection alone
      call for. No line is made of the bytes of two connections. */
  lemma LifeTheorem(s: Settings, c: Connection, after: int, turns: seq<Turn>)
    ensures SeenIn(Rounds(RoundOf(s), Boot(s, c, after), turns).link.log) == AllOwed(s, Life(s, c, after, turns))
    ensures forall i | 0 <= i < |Life(s, c, after, turns)| :: Fresh(s, Life(s, c, after, turns)[i].start)
  {
    hide SeenIn, Plus, AllOwed, Owed, Fresh, Made, Brought, Boot;
    var n := Boot(s, c, after);
    BootSound(s, c, after);
    BootSeen(s, c, after);
    RoundsSeen(s, n, turns);
    MadeFresh(s, n, turns);
    PlusNothing(AllOwed(s, Made(s, n, turns)));
    if Live(n) {
      var first := Session(n, Brought(s, n, turns));
      SessionSeen(s, first) by {
        FreshIs(s, n);
      }
      OwedCons(s, first, Made(s, n, turns));
      PlusNothing(Owed(s, first));
    } else {
      DeadChunks(s, n, Brought(s, n, turns));
      assert [] + Made(s, n, turns) == Made(s, n, turns);
    }
  }

  lemma FreshIs(s: Settings, n: Net)
    requires Fresh(s, n)
    ensures Sound(n.link) && Live(n) && n.framer == IDLE
  {
  }

  lemma BootSeen(s: Settings, c: Connection, after: int)
    ensures var n := Boot(s, c, after); SeenIn(n.link.log) == NOTHING && (Live(n) ==> Fresh(s, n))
  {
    hide Connect;
    ConnectSeen(s, FRESH, c);
    ConnectSound(s, FRESH, c);
    ConnectFresh(s, FRESH, c);
  }
}
