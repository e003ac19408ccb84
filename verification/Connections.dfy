// Whole connections of one network: which lines are handled and answered, independent of
// how the bytes arrive, and how often a lost network tries again.
module Connections {
  import opened Text
  import opened Irc
  import opened Framing
  import opened Settings
  import opened ModernIrc
  import opened Events
  import opened OneNetwork

  // ------------------------------------------------------------- the stream

  /** The chunks of one connection, until it ends. */
  function Chunks(s: Settings, n: Net, chunks: seq<string>): Net
    decreases |chunks|
  {
    if chunks == [] || !Live(n) then n
    else Chunks(s, Receive(s, n, Chunk(chunks[0]), 0), chunks[1..])
  }

  lemma {:induction false} ChunksFeed(s: Settings, n: Net, chunks: seq<string>)
    requires Sound(n.link) && Live(n)
    ensures var fed := FeedChunks(n.framer, chunks, Handler(s), n.link);
            Chunks(s, n, chunks) == Net(fed.state, fed.framer)
    decreases |chunks|
  {
    if chunks != [] {
      FeedSound(s, n.framer, chunks[0], n.link);
      var m := Receive(s, n, Chunk(chunks[0]), 0);
      if Live(m) {
        ChunksFeed(s, m, chunks[1..]);
      }
    }
  }

  /** The lines a network handles: up to and including the one whose negotiation step fails. */
  function Handled(cb: Callback<Link>, l: Link, lines: seq<string>): seq<string>
    decreases |lines|
  {
    if lines == [] then []
    else
      var (m, stop) := cb(l, lines[0]);
      [lines[0]] + if stop then [] else Handled(cb, m, lines[1..])
  }

  /** The handled lines that pass negotiation. */
  function Passed(cb: Callback<Link>, l: Link, lines: seq<string>): seq<string>
    decreases |lines|
  {
    if lines == [] then []
    else
      var (m, stop) := cb(l, lines[0]);
      if stop then [] else [lines[0]] + Passed(cb, m, lines[1..])
  }

  /** The lines a log says were handled. */
  function HeardIn(log: Record): seq<string> {
    match log
    case Start => []
    case Then(past, act) => if act.Heard? then HeardIn(past) + [act.line] else HeardIn(past)
  }

  /** What a log says was sent in reply to pings. */
  function PongsIn(log: Record): seq<string> {
    match log
    case Start => []
    case Then(past, act) =>
      if act.Said? && StartsWith(act.line, "PONG ") then PongsIn(past) + [act.line[5..]] else PongsIn(past)
  }

  /** What the pings among some lines ask for. */
  function PingsIn(lines: seq<string>): seq<string> {
    if lines == [] then []
    else (if StartsWith(lines[0], "PING ") then [lines[0][5..]] else []) + PingsIn(lines[1..])
  }

  lemma NegotiationIsNoPong(s: Settings, m: Modern, line: string)
    ensures NoPong(Negotiate(s, m, line).1)
  {
    var reply := Negotiate(s, m, line).1;
    if Spoken(reply) != [] {
      assert Spoken(reply)[0][0] == 'C' || Spoken(reply)[0][0] == 'A';
    }
  }

  predicate NoPong(reply: Reply) {
    forall said | said in Spoken(reply) :: said != "" && said[0] != 'P'
  }

  /** One handled line: it is recorded once, and a ping that passes negotiation is answered
      by exactly one pong, whatever else the line makes the network say. */
  lemma HandleLogs(s: Settings, l: Link, line: string)
    requires l.sock >= 0 && |line| <= LINE_MAX
    ensures var (m, stop) := Handle(s, l, line);
            && HeardIn(m.log) == HeardIn(l.log) + [line]
            && PongsIn(m.log) == PongsIn(l.log) + (if stop then [] else PingsIn([line]))
  {
    var (m, reply) := Negotiate(s, l.modern, line);
    NegotiationIsNoPong(s, l.modern, line);
    ReactLogs(l, line, m, reply);
  }

  lemma ReactLogs(l: Link, line: string, m: Modern, reply: Reply)
    requires |line| <= LINE_MAX && NoPong(reply)
    ensures var (l', stop) := React(l, line, m, reply);
            && HeardIn(l'.log) == HeardIn(l.log) + [line]
            && PongsIn(l'.log) == PongsIn(l.log) + (if stop then [] else PingsIn([line]))
  {
    var heard := l.(modern := m, log := Then(l.log, Heard(line)));
    PerformLogs(heard, reply);
    var (l', goesOn) := Perform(heard, reply);
    if goesOn {
      ConsumeLogs(l', line, ParseLine(line));
    }
  }

  lemma ConsumeLogs(l: Link, line: string, event: Option<Event>)
    requires |line| <= LINE_MAX
    ensures var m := Consume(l, line, event);
            HeardIn(m.log) == HeardIn(l.log) && PongsIn(m.log) == PongsIn(l.log) + PingsIn([line])
  {
    assert PingsIn([line]) == if StartsWith(line, "PING ") then [line[5..]] else [];
    if StartsWith(line, "PING ") {
      var response := "PONG " + line[5..];
      assert |response| <= LINE_MAX && StartsWith(response, "PONG ") && response[5..] == line[5..];
    } else if event.Some? {
    }
  }

  lemma PerformLogs(l: Link, reply: Reply)
    requires NoPong(reply)
    ensures var (l', goesOn) := Perform(l, reply);
            HeardIn(l'.log) == HeardIn(l.log) && PongsIn(l'.log) == PongsIn(l.log)
  {
    if reply.Say? || reply.SayAndFail? {
      var said := Spoken(reply)[0];
      assert said in Spoken(reply);
      assert "PONG "[0] == 'P' && !StartsWith(said, "PONG ");
    }
  }

  /** What one line does to a live network, as far as its record is concerned. */
  ghost predicate Faithful(cb: Callback<Link>) {
    forall l: Link, line: string {:trigger cb(l, line)} | Sound(l) && l.sock >= 0 && |line| <= LINE_MAX ::
      var (m, stop) := cb(l, line);
      && Sound(m) && (stop <==> m.sock < 0) && (!stop ==> m.sock == l.sock) && (stop ==> EndsRejected(m.log))
      && HeardIn(m.log) == HeardIn(l.log) + [line]
      && PongsIn(m.log) == PongsIn(l.log) + (if stop then [] else PingsIn([line]))
  }

  lemma HandlerFaithful(s: Settings)
    ensures Faithful(Handler(s))
  {
    forall l: Link, line: string | Sound(l) && l.sock >= 0 && |line| <= LINE_MAX
      ensures var (m, stop) := Handler(s)(l, line);
              && Sound(m) && (stop <==> m.sock < 0) && (!stop ==> m.sock == l.sock) && (stop ==> EndsRejected(m.log))
              && HeardIn(m.log) == HeardIn(l.log) + [line]
              && PongsIn(m.log) == PongsIn(l.log) + (if stop then [] else PingsIn([line]))
    {
      HandleSound(s, l, line);
      HandleLogs(s, l, line);
    }
  }

  lemma {:induction false} DeliverHeard(cb: Callback<Link>, l: Link, lines: seq<string>)
    requires Faithful(cb) && Sound(l) && l.sock >= 0 && forall i | 0 <= i < |lines| :: |lines[i]| <= LINE_MAX
    ensures HeardIn(Deliver(cb, l, lines).0.log) == HeardIn(l.log) + Handled(cb, l, lines)
    decreases |lines|
  {
    hide PingsIn, PongsIn, HeardIn, EndsRejected, Sound;
    if lines == [] {
      assert HeardIn(l.log) + [] == HeardIn(l.log);
    } else {
      var (m, stop) := cb(l, lines[0]);
      assert |lines[0]| <= LINE_MAX;
      assert Sound(m) && HeardIn(m.log) == HeardIn(l.log) + [lines[0]];
      if !stop {
        DeliverHeard(cb, m, lines[1..]);
        assert Handled(cb, l, lines) == [lines[0]] + Handled(cb, m, lines[1..]);
      } else {
        assert Handled(cb, l, lines) == [lines[0]];
      }
    }
  }

  lemma NoPings()
    ensures PingsIn([]) == []
  {
  }

  lemma PingsCons(line: string, rest: seq<string>)
    ensures PingsIn([line] + rest) == PingsIn([line]) + PingsIn(rest)
  {
    assert ([line] + rest)[1..] == rest;
  }

  lemma {:induction false} DeliverPongs(cb: Callback<Link>, l: Link, lines: seq<string>)
    requires Faithful(cb) && Sound(l) && l.sock >= 0 && forall i | 0 <= i < |lines| :: |lines[i]| <= LINE_MAX
    ensures PongsIn(Deliver(cb, l, lines).0.log) == PongsIn(l.log) + PingsIn(Passed(cb, l, lines))
    decreases |lines|
  {
    hide PingsIn, PongsIn, HeardIn, EndsRejected, Sound;
    NoPings();
    if lines == [] {
      assert PongsIn(l.log) + [] == PongsIn(l.log);
    } else {
      var (m, stop) := cb(l, lines[0]);
      assert |lines[0]| <= LINE_MAX;
      var one := if stop then [] else PingsIn([lines[0]]);
      assert PongsIn(m.log) == PongsIn(l.log) + one;
      if stop {
        assert Passed(cb, l, lines) == [] && Deliver(cb, l, lines).0 == m;
      } else {
        DeliverPongs(cb, m, lines[1..]);
        var rest := Passed(cb, m, lines[1..]);
        PingsCons(lines[0], rest);
        assert PongsIn(l.log) + one + PingsIn(rest) == PongsIn(l.log) + (one + PingsIn(rest));
      }
    }
  }

  lemma {:induction false} DeliverEnds(cb: Callback<Link>, l: Link, lines: seq<string>)
    requires Faithful(cb) && Sound(l) && l.sock >= 0 && forall i | 0 <= i < |lines| :: |lines[i]| <= LINE_MAX
    ensures var (m, stop) := Deliver(cb, l, lines);
            (stop <==> m.sock < 0) && (stop ==> EndsRejected(m.log))
    decreases |lines|
  {
    if lines != [] {
      var (m, stop) := cb(l, lines[0]);
      assert |lines[0]| <= LINE_MAX;
      if !stop {
        DeliverEnds(cb, m, lines[1..]);
      }
    }
  }

  /** Passed, handled and offered lines are prefixes of one another; they differ only by the
      line that stops the delivery and those after it. */
  lemma {:induction false} PassedHandledOffered(cb: Callback<Link>, l: Link, lines: seq<string>)
    ensures var passed, handled, stop := Passed(cb, l, lines), Handled(cb, l, lines), Deliver(cb, l, lines).1;
            && |passed| <= |handled| <= |lines|
            && passed == lines[..|passed|] && handled == lines[..|handled|]
            && |handled| == (if stop then |passed| + 1 else |lines|) && (!stop ==> |passed| == |lines|)
    decreases |lines|
  {
    if lines != [] {
      var (m, stop) := cb(l, lines[0]);
      if stop {
        assert lines[..1] == [lines[0]] && lines[..0] == [];
      } else {
        PassedHandledOffered(cb, m, lines[1..]);
        var passed, handled := Passed(cb, m, lines[1..]), Handled(cb, m, lines[1..]);
        assert lines[..1 + |passed|] == [lines[0]] + lines[1..][..|passed|];
        assert lines[..1 + |handled|] == [lines[0]] + lines[1..][..|handled|];
      }
    }
  }

  /** The events a log says were dispatched. */
  function EventsIn(log: Record): seq<Event> {
    match log
    case Start => []
    case Then(past, act) => if act.Dispatched? then EventsIn(past) + [act.event] else EventsIn(past)
  }

  /** The event of a line that is not a ping. */
  function EventOf(line: string): seq<Event> {
    if StartsWith(line, "PING ") then []
    else
      match ParseLine(line)
      case Some(e) => [e]
      case None => []
  }

  function EventsOf(of: string -> seq<Event>, lines: seq<string>): seq<Event> {
    if lines == [] then [] else of(lines[0]) + EventsOf(of, lines[1..])
  }

  lemma PerformDispatchesNothing(l: Link, reply: Reply)
    ensures EventsIn(Perform(l, reply).0.log) == EventsIn(l.log)
  {
  }

  lemma ReactDispatches(l: Link, line: string, m: Modern, reply: Reply)
    ensures var (l', stop) := React(l, line, m, reply);
            EventsIn(l'.log) == EventsIn(l.log) + (if stop then [] else EventOf(line))
  {
    var heard := l.(modern := m, log := Then(l.log, Heard(line)));
    PerformDispatchesNothing(heard, reply);
    assert EventsIn(heard.log) == EventsIn(l.log) && EventsIn(l.log) + [] == EventsIn(l.log);
  }

  /** What one line makes a live network dispatch. */
  ghost predicate Dispatches(cb: Callback<Link>, of: string -> seq<Event>) {
    forall l: Link, line: string {:trigger cb(l, line)} | Sound(l) && l.sock >= 0 ::
      var (m, stop) := cb(l, line);
      && (!stop ==> Sound(m) && m.sock >= 0)
      && EventsIn(m.log) == EventsIn(l.log) + (if stop then [] else of(line))
  }

  lemma HandlerDispatches(s: Settings)
    ensures Dispatches(Handler(s), EventOf)
  {
    forall l: Link, line: string | Sound(l) && l.sock >= 0
      ensures var (m, stop) := Handler(s)(l, line);
              && (!stop ==> Sound(m) && m.sock >= 0)
              && EventsIn(m.log) == EventsIn(l.log) + (if stop then [] else EventOf(line))
    {
      HandleSound(s, l, line);
      var (m, reply) := Negotiate(s, l.modern, line);
      ReactDispatches(l, line, m, reply);
    }
  }

  lemma {:induction false} DeliverEvents(cb: Callback<Link>, of: string -> seq<Event>, l: Link, lines: seq<string>)
    requires Dispatches(cb, of) && Sound(l) && l.sock >= 0
    ensures EventsIn(Deliver(cb, l, lines).0.log) == EventsIn(l.log) + EventsOf(of, Passed(cb, l, lines))
    decreases |lines|
  {
    if lines == [] {
      assert EventsIn(l.log) + [] == EventsIn(l.log);
    } else {
      var (m, stop) := cb(l, lines[0]);
      if stop {
        assert Passed(cb, l, lines) == [] && Deliver(cb, l, lines).0 == m;
      } else {
        DeliverEvents(cb, of, m, lines[1..]);
        var rest := Passed(cb, m, lines[1..]);
        assert ([lines[0]] + rest)[1..] == rest;
        assert EventsIn(l.log) + of(lines[0]) + EventsOf(of, rest)
            == EventsIn(l.log) + (of(lines[0]) + EventsOf(of, rest));
      }
    }
  }

  lemma {:induction false} AcceptedAreShort(segments: seq<string>)
    ensures forall i | 0 <= i < |Framing.Accepted(segments)| :: |Framing.Accepted(segments)[i]| <= LINE_MAX
  {
    if segments != [] {
      AcceptedAreShort(segments[1..]);
    }
  }

  /** The stream theorem for a connection that has just been made: whatever chunks `recv`
      returns, the lines handled are the accepted lines of their concatenation up to and
      including the first whose negotiation step fails; each ping that passes is answered by
      exactly one pong, and each other line that passes dispatches its event, in order; if a
      step fails the network ends closed. */
  lemma ConnectionTheorem(s: Settings, n: Net, chunks: seq<string>)
    requires Sound(n.link) && Live(n) && n.framer == IDLE
    ensures var m, lines := Chunks(s, n, chunks), Framing.Accepted(Cut(Joined(chunks)).0);
            var handled, passed := Handled(Handler(s), n.link, lines), Passed(Handler(s), n.link, lines);
            && HeardIn(m.link.log) == HeardIn(n.link.log) + handled
            && PongsIn(m.link.log) == PongsIn(n.link.log) + PingsIn(passed)
            && EventsIn(m.link.log) == EventsIn(n.link.log) + EventsOf(EventOf, passed)
            && passed <= handled <= lines
            && (Live(m) ==> handled == passed == lines)
            && (!Live(m) ==> |handled| == |passed| + 1 && EndsRejected(m.link.log))
  {
    HandlerFaithful(s);
    var segments := Cut(Joined(chunks)).0;
    ChunksFeed(s, n, chunks);
    StreamTheorem(chunks, Handler(s), n.link);
    AcceptedAreShort(segments);
    DeliverHeard(Handler(s), n.link, Framing.Accepted(segments));
    DeliverPongs(Handler(s), n.link, Framing.Accepted(segments));
    HandlerDispatches(s);
    DeliverEvents(Handler(s), EventOf, n.link, Framing.Accepted(segments));
    DeliverEnds(Handler(s), n.link, Framing.Accepted(segments));
    PassedHandledOffered(Handler(s), n.link, Framing.Accepted(segments));
  }

  // ------------------------------------------------ rounds of the supervisor

  /** The clock sample of a round, and what it holds for the network. */
  datatype Turn = Turn(now: int, env: NetEnv)

  /** Any number of rounds, as one network sees them. */
  function Rounds(step: (Net, Turn) -> Net, n: Net, turns: seq<Turn>): Net
    decreases |turns|
  {
    if turns == [] then n else Rounds(step, step(n, turns[0]), turns[1..])
  }

  function RoundOf(s: Settings): (Net, Turn) -> Net {
    (n: Net, t: Turn) => Round(s, n, t.now, t.env)
  }

  /** The chunks that rounds bring. */
  function DataOf(turns: seq<Turn>): seq<string>
    requires forall t | t in turns && t.env.readable :: t.env.received.Chunk?
  {
    if turns == [] then []
    else (if turns[0].env.readable then
            assert turns[0] in turns;
            [turns[0].env.received.data] else [])
         + DataOf(turns[1..])
  }

  /** While nothing is lost, the rounds of a live network are its chunks, and no round after a
      failed negotiation changes anything. */
  lemma {:induction false} RoundsAreChunks(s: Settings, n: Net, turns: seq<Turn>)
    requires Sound(n.link) && (Live(n) || Disabled(n))
    requires forall t | t in turns && t.env.readable :: t.env.received.Chunk?
    ensures Rounds(RoundOf(s), n, turns) == Chunks(s, n, DataOf(turns))
    decreases |turns|
  {
    if turns != [] {
      var t := turns[0];
      assert t in turns;
      RoundSound(s, n, t.now, t.env);
      var m := Round(s, n, t.now, t.env);
      assert t.env.readable ==> DataOf(turns)[1..] == DataOf(turns[1..]);
      assert !t.env.readable ==> DataOf(turns) == DataOf(turns[1..]);
      if Live(n) {
        if t.env.readable {
          FeedSound(s, n.framer, t.env.received.data, n.link);
        }
        RoundsAreChunks(s, m, turns[1..]);
      } else {
        RoundsAreChunks(s, n, turns[1..]);
      }
    }
  }

  // ---------------------------------------------------------------- backoff

  /** `min(2^k, 30)`. */
  function Delay(k: nat): nat {
    if k == 0 then 1 else NextWait(Delay(k - 1))
  }

  function Power(k: nat): nat {
    if k == 0 then 1 else 2 * Power(k - 1)
  }

  lemma {:induction false} DelayIsCappedPower(k: nat)
    ensures Delay(k) == if Power(k) < WAIT_MAX then Power(k) else WAIT_MAX
    ensures Power(k) >= 1
  {
    if k > 0 {
      DelayIsCappedPower(k - 1);
    }
  }

  /** Sum of the first `k` delays. */
  function Slept(k: nat): nat {
    if k == 0 then 0 else Slept(k - 1) + Delay(k - 1)
  }

  lemma {:induction false} SleptClosedForm(k: nat)
    requires k >= 5
    ensures Slept(k) == 31 + 30 * (k - 5) && Delay(k) == 30
  {
    if k == 5 {
      assert Slept(2) == 3 && Slept(4) == 15 && Delay(4) == 16;
    } else {
      SleptClosedForm(k - 1);
    }
  }

  /** The clock samples of the attempts a waiting network makes in some rounds. */
  function Attempts(step: (Net, Turn) -> Net, n: Net, turns: seq<Turn>): seq<int>
    decreases |turns|
  {
    if turns == [] then []
    else
      var now := turns[0].now;
      (if n.link.retry && now >= n.link.at then [now] else []) + Attempts(step, step(n, turns[0]), turns[1..])
  }

  /** No attempt of these rounds succeeds. */
  predicate NoneSucceeds(step: (Net, Turn) -> Net, n: Net, turns: seq<Turn>)
    decreases |turns|
  {
    turns == [] || (step(n, turns[0]).link.retry && NoneSucceeds(step, step(n, turns[0]), turns[1..]))
  }

  /** What an unsuccessful round does to a waiting network. */
  ghost predicate BacksOff(step: (Net, Turn) -> Net) {
    forall n: Net, t: Turn | Sound(n.link) && n.link.retry && step(n, t).link.retry ::
      var m := step(n, t);
      && Sound(m.link)
      && if t.now < n.link.at then m == n
         else m.link.wait == NextWait(n.link.wait) && m.link.at == t.now + m.link.wait
  }

  lemma RoundBacksOff(s: Settings)
    ensures BacksOff(RoundOf(s))
  {
    forall n: Net, t: Turn | Sound(n.link) && n.link.retry && RoundOf(s)(n, t).link.retry
      ensures var m := RoundOf(s)(n, t);
              && Sound(m.link)
              && if t.now < n.link.at then m == n
                 else m.link.wait == NextWait(n.link.wait) && m.link.at == t.now + m.link.wait
    {
      RoundSound(s, n, t.now, t.env);
      ConnectSound(s, n, t.env.connection);
    }
  }

  /** Once `k` attempts have failed: the delay and the earliest next attempt. */
  ghost predicate Backed(n: Net, start: int, k: nat) {
    Sound(n.link) && n.link.retry && n.link.wait == Delay(k) && n.link.at >= start + Slept(k + 1)
  }

  /** Attempts after `k` failures, each no earlier than the delays before it allow. */
  predicate OnTime(samples: seq<int>, start: int, k: nat) {
    samples == [] || (samples[0] >= start + Slept(k + 1) && OnTime(samples[1..], start, k + 1))
  }

  lemma {:induction false} OnTimeAt(samples: seq<int>, start: int, k: nat, j: nat)
    requires OnTime(samples, start, k) && j < |samples|
    ensures samples[j] >= start + Slept(k + j + 1)
  {
    if j > 0 {
      OnTimeAt(samples[1..], start, k + 1, j - 1);
    }
  }

  lemma OnTimeCons(now: int, rest: seq<int>, start: int, k: nat)
    requires now >= start + Slept(k + 1) && OnTime(rest, start, k + 1)
    ensures OnTime([now] + rest, start, k)
  {
    assert ([now] + rest)[1..] == rest;
  }

  lemma {:induction false} BackoffSteps(step: (Net, Turn) -> Net, n: Net, turns: seq<Turn>, start: int, k: nat)
    requires BacksOff(step) && Backed(n, start, k) && NoneSucceeds(step, n, turns)
    ensures var samples := Attempts(step, n, turns);
            && OnTime(samples, start, k)
            && Backed(Rounds(step, n, turns), start, k + |samples|)
    decreases |turns|
  {
    hide Slept, Backed, BacksOff;
    if turns != [] {
      BackedWaits(n, start, k);
      var t := turns[0];
      var m := step(n, t);
      var rest := Attempts(step, m, turns[1..]);
      if t.now >= n.link.at {
        OneMoreFailure(step, n, t, start, k);
        BackoffSteps(step, m, turns[1..], start, k + 1);
        OnTimeCons(t.now, rest, start, k);
        assert Attempts(step, n, turns) == [t.now] + rest && k + 1 + |rest| == k + |[t.now] + rest|;
      } else {
        NotYetDue(step, n, t, start, k);
        BackoffSteps(step, m, turns[1..], start, k);
        assert Attempts(step, n, turns) == rest;
      }
    }
  }

  lemma BackedWaits(n: Net, start: int, k: nat)
    requires Backed(n, start, k)
    ensures n.link.retry
  {
  }

  lemma NotYetDue(step: (Net, Turn) -> Net, n: Net, t: Turn, start: int, k: nat)
    requires BacksOff(step) && Backed(n, start, k) && t.now < n.link.at && step(n, t).link.retry
    ensures Backed(step(n, t), start, k)
  {
  }

  lemma OneMoreFailure(step: (Net, Turn) -> Net, n: Net, t: Turn, start: int, k: nat)
    requires BacksOff(step) && Backed(n, start, k) && t.now >= n.link.at && step(n, t).link.retry
    ensures Backed(step(n, t), start, k + 1) && t.now >= start + Slept(k + 1)
  {
  }

  lemma OnTimeBounds(samples: seq<int>, start: int, j: nat)
    requires OnTime(samples, start, 0) && j < |samples|
    ensures samples[j] >= start + Slept(j + 1)
    ensures j >= 4 ==> samples[j] >= start + 31 + 30 * (j - 4)
  {
    OnTimeAt(samples, start, 0, j);
    if j >= 4 {
      SleptClosedForm(j + 1);
    }
  }

  /** A network that begins to wait at time `start` makes its j-th consecutive unsuccessful
      attempt (counted from 0) no earlier than the sum of the first j + 1 delays after it, and
      its delay is always min(2^failures, 30). */
  lemma Backoff(s: Settings, n: Net, turns: seq<Turn>, start: int)
    requires Backed(n, start, 0) && NoneSucceeds(RoundOf(s), n, turns)
    ensures var samples, m := Attempts(RoundOf(s), n, turns), Rounds(RoundOf(s), n, turns);
            && (forall j | 0 <= j < |samples| :: samples[j] >= start + Slept(j + 1))
            && (forall j | 4 <= j < |samples| :: samples[j] >= start + 31 + 30 * (j - 4))
            && m.link.wait == if Power(|samples|) < WAIT_MAX then Power(|samples|) else WAIT_MAX
  {
    hide Slept, BacksOff, Rounds, Attempts, NoneSucceeds, OnTime;
    RoundBacksOff(s);
    BackoffSteps(RoundOf(s), n, turns, start, 0);
    var samples := Attempts(RoundOf(s), n, turns);
    forall j | 0 <= j < |samples|
      ensures samples[j] >= start + Slept(j + 1)
      ensures j >= 4 ==> samples[j] >= start + 31 + 30 * (j - 4)
    {
      OnTimeBounds(samples, start, j);
    }
    DelayIsCappedPower(|samples|);
  }

  /** A connection lost, or refused at start-up, when the clock says `start` begins to wait so. */
  lemma LossStartsBackoff(s: Settings, n: Net, start: int, c: Connection)
    requires Sound(n.link) && Live(n)
    ensures Backed(Receive(s, n, Lost, start), start, 0)
    ensures Boot(s, c, start).link.retry ==> Backed(Boot(s, c, start), start, 0)
  {
    assert Slept(1) == Slept(0) + Delay(0);
    BootSound(s, c, start);
    ConnectSound(s, FRESH, c);
  }
}
