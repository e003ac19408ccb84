// One network of src/multinet.c: what a connection attempt, a received chunk and a round
// of the supervisor loop do to it. Nothing here depends on any other network.
module OneNetwork {
  import opened Text
  import opened Irc
  import opened Settings
  import opened Networks
  import opened ModernIrc
  import opened Events
  import opened Operations

  /** What a network does, in order. */
  datatype Act =
    | Opened(fd: int)
    | Closed(fd: int)
    | Said(line: string, sent: bool)
    | Heard(line: string)
    | Dispatched(event: Event)
    | Rejected

  /** The record of what a network has done, latest last. */
  datatype Record = Start | Then(past: Record, act: Act)

  /** The part of `struct network_runtime` the line callback works on, the outcomes that
      coming sends will have, and the record of what was done. */
  datatype Link = Link(sock: int, modern: Modern, retry: bool, wait: nat, at: int, sends: seq<bool>, log: Record)

  datatype Net = Net(link: Link, framer: Framer)

  const FRESH := Net(Link(-1, Modern(false, false, false, false), false, 0, 0, [], Start), IDLE)

  predicate Live(n: Net) { n.link.sock >= 0 }
  predicate Waiting(n: Net) { n.link.retry }

  // ---------------------------------------------------------------- sending

  /** One `ambot_irc_send_line`; with no outcome left it succeeds. */
  function Speak(l: Link, line: string): (Link, bool) {
    var ok := l.sends == [] || l.sends[0];
    (l.(sends := if l.sends == [] then [] else l.sends[1..], log := Then(l.log, Said(line, ok))), ok)
  }

  /** Sends until the first failure. */
  function SpeakAll(l: Link, lines: seq<string>): (Link, bool)
    decreases |lines|
  {
    if lines == [] then (l, true)
    else
      var (l', ok) := Speak(l, lines[0]);
      if ok then SpeakAll(l', lines[1..]) else (l', false)
  }

  /** Sends every line, whatever happens to it. */
  function SpeakEach(l: Link, lines: seq<string>): Link
    decreases |lines|
  {
    if lines == [] then l else SpeakEach(Speak(l, lines[0]).0, lines[1..])
  }

  // ------------------------------------------------------------- connecting

  /** The outcome of `ambot_net_connect_ipv4`: no socket, or one on which sends will go as
      `sends` says. */
  datatype Connection = Refused | Connected(fd: nat, sends: seq<bool>)

  datatype Result = Ok | Again | Permanent

  /** Negotiation opens first, then comes the registration. */
  function Greeting(s: Settings): seq<string> {
    (if s.cap then [CAP_LS] else []) + RegistrationLines(s.nick, s.user, s.pass)
  }

  function Joins(channels: seq<string>): seq<string> {
    if channels == [] then []
    else
      var line := "JOIN " + channels[0];
      (if |line| <= LINE_MAX then [line] else []) + Joins(channels[1..])
  }

  function Connect(s: Settings, n: Net, c: Connection): (Net, Result) {
    if !Secure(s) then (n, Permanent)
    else
      match c
      case Refused => (n.(link := n.link.(sock := -1)), Again)
      case Connected(fd, sends) =>
        var l := n.link.(sock := fd, modern := Begin(s), sends := sends, log := Then(n.link.log, Opened(fd)));
        var (l', ok) := SpeakAll(l, Greeting(s));
        if ok then (Net(SpeakEach(l', Joins(s.channels)), IDLE), Ok)
        else (Net(l'.(sock := -1, log := Then(l'.log, Closed(fd))), IDLE), Again)
  }

  /** The first attempt, at start-up; `after` is the clock once it has failed. */
  function Boot(s: Settings, c: Connection, after: int): Net {
    var (n, result) := Connect(s, FRESH, c);
    if result == Again then n.(link := n.link.(retry := true, wait := 1, at := after + 1)) else n
  }

  const WAIT_MAX := 30

  function NextWait(wait: nat): nat {
    if wait < WAIT_MAX then (if wait * 2 > WAIT_MAX then WAIT_MAX else wait * 2) else wait
  }

  function Retry(s: Settings, n: Net, now: int, c: Connection): Net {
    if !n.link.retry || now < n.link.at then n
    else
      var (m, result) := Connect(s, n, c);
      if result == Again then
        var wait := NextWait(n.link.wait);
        m.(link := m.link.(wait := wait, at := now + wait))
      else m.(link := m.link.(retry := false))
  }

  // -------------------------------------------------------------- receiving

  /** Carries a negotiation reply out; the flag says whether the connection goes on. */
  function Perform(l: Link, reply: Reply): (Link, bool) {
    match reply
    case Quiet => (l, true)
    case Say(line) => Speak(l, line)
    case SayAndFail(line) => (Speak(l, line).0, false)
    case Refuse => (l, false)
  }

  /** `handle_line`: negotiation first, then PING, then events. */
  function Handle(s: Settings, l: Link, line: string): (Link, bool) {
    if l.sock < 0 then (l, true)
    else
      var (m, reply) := Negotiate(s, l.modern, line);
      React(l, line, m, reply)
  }

  /** The line is handled, given what negotiation makes of it. */
  function React(l: Link, line: string, m: Modern, reply: Reply): (Link, bool) {
    var (l', goesOn) := Perform(l.(modern := m, log := Then(l.log, Heard(line))), reply);
    if goesOn then (Consume(l', line, ParseLine(line)), false)
    else (l'.(sock := -1, log := Then(Then(l'.log, Rejected), Closed(l.sock))), true)
  }

  /** What becomes of a line that passes: a ping is answered if the answer fits a line, any
      other line's event is dispatched. */
  function Consume(l: Link, line: string, event: Option<Event>): Link {
    if StartsWith(line, "PING ") then
      var response := "PONG " + line[5..];
      if |response| <= LINE_MAX then Speak(l, response).0 else l
    else
      match event
      case Some(e) => l.(log := Then(l.log, Dispatched(e)))
      case None => l
  }

  function Handler(s: Settings): Callback<Link> {
    (l, line) => Handle(s, l, line)
  }

  /** The outcome of `recv`: nothing or an error, or some bytes. */
  datatype Received = Lost | Chunk(data: string)

  function Receive(s: Settings, n: Net, r: Received, after: int): Net {
    match r
    case Lost =>
      n.(link := n.link.(sock := -1, log := Then(n.link.log, Closed(n.link.sock)),
                         retry := true, wait := 1, at := after + 1))
    case Chunk(data) =>
      var fed := Feed(n.framer, data, Handler(s), n.link);
      Net(fed.state, fed.framer)
  }

  /** What the environment has for one network in one round; `hooks` are the ARexx commands
      that arrive while the network's events are dispatched. */
  datatype NetEnv = NetEnv(connection: Connection, readable: bool, received: Received, after: int, hooks: seq<Op>)

  /** One round of the loop as network `n` sees it: it was waited on with the socket it had
      at the head of the loop. */
  function Round(s: Settings, n: Net, now: int, e: NetEnv): Net {
    var ready := Live(n) && e.readable;
    var m := Retry(s, n, now, e.connection);
    if ready && Live(m) then Receive(s, m, e.received, e.after) else m
  }

  function Shutdown(n: Net): Net {
    if Live(n) then n.(link := n.link.(log := Then(n.link.log, Closed(n.link.sock)))) else n
  }

  // ------------------------------------------------- sockets: opened and closed

  /** Reading a log: a socket is opened only when none is open, and only the open one is
      closed. */
  datatype Sockets = NoneOpen | OneOpen(fd: int) | Broken

  function Track(log: Record): Sockets {
    match log
    case Start => NoneOpen
    case Then(past, act) =>
      match (Track(past), act)
      case (NoneOpen, Opened(fd)) => OneOpen(fd)
      case (_, Opened(_)) => Broken
      case (OneOpen(fd), Closed(fd')) => if fd == fd' then NoneOpen else Broken
      case (_, Closed(_)) => Broken
      case (t, _) => t
  }

  function Opens(log: Record): nat {
    match log
    case Start => 0
    case Then(past, act) => Opens(past) + if act.Opened? then 1 else 0
  }

  function Closes(log: Record): nat {
    match log
    case Start => 0
    case Then(past, act) => Closes(past) + if act.Closed? then 1 else 0
  }

  /** In a log that is not broken every opened socket is closed at most once, and one more
      was opened than closed exactly while one is open. */
  lemma {:induction false} TrackCounts(log: Record)
    requires Track(log) != Broken
    ensures Opens(log) == Closes(log) + if Track(log).OneOpen? then 1 else 0
  {
    if log.Then? {
      TrackCounts(log.past);
    }
  }

  /** What holds of every network at every loop head: its log accounts for its socket, and a
      network waiting to retry has none. */
  predicate Sound(l: Link) {
    && l.sock >= -1
    && Track(l.log) == (if l.sock >= 0 then OneOpen(l.sock) else NoneOpen)
    && (l.retry ==> l.sock < 0 && 1 <= l.wait <= WAIT_MAX)
  }

  /** The network has lost its connection for good. */
  predicate Disabled(n: Net) {
    n.link.sock < 0 && !n.link.retry
  }

  /** Two links that differ only in what was said. */
  predicate SameState(l: Link, m: Link) {
    l.sock == m.sock && l.retry == m.retry && l.wait == m.wait && l.at == m.at && l.modern == m.modern
  }

  lemma SpeakSound(l: Link, line: string)
    ensures var (m, ok) := Speak(l, line); SameState(l, m) && Track(m.log) == Track(l.log)
  {
    var ok := l.sends == [] || l.sends[0];
  }

  lemma {:induction false} SpeakAllSound(l: Link, lines: seq<string>)
    ensures var (m, ok) := SpeakAll(l, lines); SameState(l, m) && Track(m.log) == Track(l.log)
    decreases |lines|
  {
    if lines != [] {
      SpeakSound(l, lines[0]);
      SpeakAllSound(Speak(l, lines[0]).0, lines[1..]);
    }
  }

  lemma {:induction false} SpeakEachSound(l: Link, lines: seq<string>)
    ensures var m := SpeakEach(l, lines); SameState(l, m) && Track(m.log) == Track(l.log)
    decreases |lines|
  {
    if lines != [] {
      SpeakSound(l, lines[0]);
      SpeakEachSound(Speak(l, lines[0]).0, lines[1..]);
    }
  }

  lemma ConnectSound(s: Settings, n: Net, c: Connection)
    requires Sound(n.link) && !Live(n)
    ensures var (m, result) := Connect(s, n, c);
            && Track(m.link.log) == (if Live(m) then OneOpen(m.link.sock) else NoneOpen)
            && (Live(m) <==> result == Ok) && (result == Ok ==> m.framer == IDLE)
            && m.link.retry == n.link.retry && m.link.wait == n.link.wait && m.link.at == n.link.at
            && (result == Permanent <==> !Secure(s)) && (result == Permanent ==> m == n)
  {
    if Secure(s) && c.Connected? {
      var l := n.link.(sock := c.fd, modern := Begin(s), sends := c.sends, log := Then(n.link.log, Opened(c.fd)));
      SpeakAllSound(l, Greeting(s));
      var (l', ok) := SpeakAll(l, Greeting(s));
      SpeakEachSound(l', Joins(s.channels));
    }
  }

  lemma {:induction false} SpeakAllSucceeds(l: Link, lines: seq<string>)
    requires l.sends == []
    ensures SpeakAll(l, lines).1
    decreases |lines|
  {
    if lines != [] {
      SpeakAllSucceeds(Speak(l, lines[0]).0, lines[1..]);
    }
  }

  /** When every send succeeds a secure network connects at once. */
  lemma ConnectSucceeds(s: Settings, n: Net, fd: nat)
    requires Sound(n.link) && !Live(n) && Secure(s)
    ensures var (m, result) := Connect(s, n, Connected(fd, [])); result == Ok && m.link.sock == fd
  {
    var l := n.link.(sock := fd, modern := Begin(s), sends := [], log := Then(n.link.log, Opened(fd)));
    SpeakAllSucceeds(l, Greeting(s));
    SpeakAllSound(l, Greeting(s));
    SpeakEachSound(SpeakAll(l, Greeting(s)).0, Joins(s.channels));
  }

  lemma BootSound(s: Settings, c: Connection, after: int)
    ensures Sound(Boot(s, c, after).link)
    ensures Secure(s) ==> !Disabled(Boot(s, c, after))
  {
    ConnectSound(s, FRESH, c);
  }

  lemma RetrySound(s: Settings, n: Net, now: int, c: Connection)
    requires Sound(n.link)
    ensures var m := Retry(s, n, now, c);
            && Sound(m.link) && (Live(n) ==> m == n) && (Secure(s) && !Disabled(n) ==> !Disabled(m))
  {
    if n.link.retry && now >= n.link.at {
      ConnectSound(s, n, c);
    }
  }

  lemma HandleSound(s: Settings, l: Link, line: string)
    requires Sound(l) && l.sock >= 0
    ensures var (m, stop) := Handle(s, l, line);
            && Sound(m) && !m.retry && (stop <==> m.sock < 0) && (!stop ==> m.sock == l.sock)
            && (stop ==> EndsRejected(m.log))
  {
    var (m, reply) := Negotiate(s, l.modern, line);
    ReactSound(l, line, m, reply);
  }

  lemma ReactSound(l: Link, line: string, m: Modern, reply: Reply)
    requires Sound(l) && l.sock >= 0
    ensures var (l', stop) := React(l, line, m, reply);
            && Sound(l') && !l'.retry && (stop <==> l'.sock < 0) && (!stop ==> l'.sock == l.sock)
            && (stop ==> EndsRejected(l'.log))
  {
    var heard := l.(modern := m, log := Then(l.log, Heard(line)));
    PerformSound(heard, reply);
    var (l', goesOn) := Perform(heard, reply);
    if !goesOn {
    } else {
      ConsumeSound(l', line, ParseLine(line));
    }
  }

  lemma ConsumeSound(l: Link, line: string, event: Option<Event>)
    ensures var m := Consume(l, line, event); SameState(l, m) && Track(m.log) == Track(l.log)
  {
    if StartsWith(line, "PING ") {
      SpeakSound(l, "PONG " + line[5..]);
    } else if event.Some? {
    }
  }

  lemma PerformSound(l: Link, reply: Reply)
    ensures var (m, goesOn) := Perform(l, reply); SameState(l, m) && Track(m.log) == Track(l.log)
  {
    match reply {
      case Say(line) => SpeakSound(l, line);
      case SayAndFail(line) => SpeakSound(l, line);
      case _ =>
    }
  }

  /** Feeding a chunk to a live network either leaves it on the same socket or ends with the
      failed negotiation that closed it. */
  lemma {:induction false} FeedSound(s: Settings, f: Framer, data: string, l: Link)
    requires Sound(l) && l.sock >= 0
    ensures var fed := Feed(f, data, Handler(s), l);
            && Sound(fed.state) && !fed.state.retry && (fed.stopped <==> fed.state.sock < 0)
            && (!fed.stopped ==> fed.state.sock == l.sock)
            && (fed.stopped ==> EndsRejected(fed.state.log))
    decreases |data|
  {
    if data != "" {
      if data[0] != '\n' {
        FeedSound(s, Push(f, data[0]), data[1..], l);
      } else if f.dropping {
        FeedSound(s, IDLE, data[1..], l);
      } else {
        var line := CStr(StripCr(f.line));
        HandleSound(s, l, line);
        var (m, stop) := Handle(s, l, line);
        if !stop {
          FeedSound(s, IDLE, data[1..], m);
        }
      }
    }
  }

  /** The last two things done were to give up on the negotiation and close. */
  predicate EndsRejected(log: Record) {
    log.Then? && log.act.Closed? && log.past.Then? && log.past.act == Rejected
  }

  /** A round keeps every network sound. A disabled network stays exactly as it is; a secure
      one is only ever disabled by a failed negotiation; and a socket that was reported
      ready is the one that was waited on. */
  lemma RoundSound(s: Settings, n: Net, now: int, e: NetEnv)
    requires Sound(n.link)
    ensures var m := Round(s, n, now, e);
            && Sound(m.link)
            && (Disabled(n) ==> m == n)
            && (Secure(s) && !Disabled(n) && Disabled(m) ==> EndsRejected(m.link.log))
    ensures Live(n) && e.readable ==> Retry(s, n, now, e.connection) == n
  {
    RetrySound(s, n, now, e.connection);
    var m := Retry(s, n, now, e.connection);
    if Live(n) && e.readable {
      if e.received.Chunk? {
        FeedSound(s, n.framer, e.received.data, n.link);
      } else {
      }
    }
  }

  lemma ShutdownSound(n: Net)
    requires Sound(n.link)
    ensures Track(Shutdown(n).link.log) == NoneOpen
  {
  }
}
