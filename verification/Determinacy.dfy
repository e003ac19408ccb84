// The closed system of ByteStreams has one outcome: for any configuration and any endpoint, all
// courses of events that come to an end come to the same one, and if one does, every fair one does.
module Determinacy {
  import opened Text
  import opened Irc
  import opened Framing
  import opened Settings
  import opened ModernIrc
  import opened OneNetwork
  import opened Fixture
  import opened Handshake
  import opened ByteStreams
  import opened Fairness

  // ------------------------------------------------ each side as a function of what it read

  /** The endpoint after these lines, and what it has sent for them. */
  function Served(ep: Endpoint, read: seq<string>): (Server, seq<string>) {
    if read == [] then (Setup(ep), [])
    else
      var (v, said) := Served(ep, read[..|read| - 1]);
      var (v', more) := Serve(ep, v, read[|read| - 1]);
      (v', said + more)
  }

  /** The client just connected, and the client after these bytes. */
  function AtConnect(s: Settings): (Client, seq<string>) {
    (Client(Begin(s), true), [])
  }

  function ClientFed(s: Settings, bytes: string): Fed<(Client, seq<string>)> {
    Feed(IDLE, bytes, Hearing(HearOf(s)), AtConnect(s))
  }

  function FirstSaid(s: Settings): seq<string> {
    Greeting(s) + Joins(s.channels)
  }

  /** All bytes the client has sent, given those it received; and all the endpoint has sent. */
  function ClientBytes(s: Settings, received: string): string {
    Stream(FirstSaid(s)) + Stream(ClientFed(s, received).state.1)
  }

  function EndpointBytes(ep: Endpoint, read: seq<string>): string {
    Stream([NOTICE_LINE]) + Stream(Served(ep, read).1)
  }

  /** Where the system is when the endpoint has read these lines and the client these bytes. */
  ghost predicate From(s: Settings, ep: Endpoint, y: Ends, read: seq<string>, received: string) {
    && NoFeed(read) && y.server == Served(ep, read).0
    && ClientBytes(s, received) == Glued(read) + y.toServer
    && EndpointBytes(ep, read) == received + y.toClient
    && var fed := ClientFed(s, received);
       fed.framer == y.framer && fed.state.0 == y.client && fed.stopped == !y.client.open
  }

  /** The lines read, and the bytes received, in the first `n` events. */
  function LinesRead(s: Settings, ep: Endpoint, schedule: nat -> Event, n: nat): seq<string> {
    if n == 0 then []
    else
      var y := Course(s, ep, schedule, n - 1);
      LinesRead(s, ep, schedule, n - 1)
      + if schedule(n - 1).EndpointReads? && CanHappen(y, EndpointReads) then [FirstLine(y.toServer)] else []
  }

  function FirstLine(bytes: string): string {
    bytes[..IndexOf(bytes, '\n')]
  }

  function BytesReceived(s: Settings, ep: Endpoint, schedule: nat -> Event, n: nat): string {
    if n == 0 then ""
    else
      var y, event := Course(s, ep, schedule, n - 1), schedule(n - 1);
      BytesReceived(s, ep, schedule, n - 1)
      + if event.ClientReceives? && CanHappen(y, event) then y.toClient[..Got(y, event.size)] else ""
  }

  // -------------------------------------------------------------------- courses are such states

  lemma ServedMore(ep: Endpoint, read: seq<string>, line: string)
    ensures Served(ep, read + [line])
         == var (v, said) := Serve(ep, Served(ep, read).0, line); (v, Served(ep, read).1 + said)
  {
    hide Serve;
    assert (read + [line])[..|read|] == read;
  }

  lemma LineTaken(bytes: string) returns (rest: string)
    requires '\n' in bytes
    ensures var n := IndexOf(bytes, '\n') + 1;
            n <= |bytes| && rest == bytes[n..] && bytes[..n] == FirstLine(bytes) + "\n"
    ensures '\n' !in FirstLine(bytes) && bytes == FirstLine(bytes) + "\n" + rest
  {
    var segment, tail := FirstSegment(bytes);
    rest := tail;
    assert FirstLine(bytes) == segment;
  }

  lemma GluedLine(read: seq<string>, line: string, rest: string)
    ensures Glued(read + [line]) + rest == Glued(read) + (line + "\n" + rest)
  {
    GluedAppend(read, [line]);
    assert [line][1..] == [] && Glued([line]) == line + "\n" + "";
    Regroup(Glued(read), line + "\n", rest);
  }

  lemma ReadFrom(s: Settings, ep: Endpoint, y: Ends, read: seq<string>, received: string)
    requires From(s, ep, y, read, received) && CanHappen(y, EndpointReads)
    ensures From(s, ep, Advance(s, ep, y, EndpointReads), read + [FirstLine(y.toServer)], received)
  {
    hide Serve, Feed, Stream, Glued, Served, FirstLine;
    var line := FirstLine(y.toServer);
    var rest := LineTaken(y.toServer);
    ServeEnding(ep, y.server, line, '\n');
    ServedMore(ep, read, line);
    GluedLine(read, line, rest);
    var said := Serve(ep, y.server, line).1;
    StreamAppend(Served(ep, read).1, said);
    Regroup(Stream([NOTICE_LINE]), Stream(Served(ep, read).1), Stream(said));
    Regroup(received, y.toClient, Stream(said));
  }

  /** What was said before only stands in front. */
  lemma {:induction false} SaidBefore(hear: Ear, f: Framer, data: string, c: Client, said: seq<string>)
    ensures var (now, later) := (Feed(f, data, Hearing(hear), (c, [])), Feed(f, data, Hearing(hear), (c, said)));
            later == Fed(now.framer, (now.state.0, said + now.state.1), now.stopped)
    decreases |data|
  {
    if data == "" {
      assert said + [] == said;
    } else if data[0] != '\n' {
      SaidBefore(hear, Push(f, data[0]), data[1..], c, said);
    } else if f.dropping {
      SaidBefore(hear, IDLE, data[1..], c, said);
    } else {
      var (c', more) := hear(c, CStr(StripCr(f.line)));
      assert [] + more == more;
      if c'.open {
        SaidBefore(hear, IDLE, data[1..], c', more);
        SaidBefore(hear, IDLE, data[1..], c', said + more);
        var last := Feed(IDLE, data[1..], Hearing(hear), (c', [])).state.1;
        assert said + more + last == said + (more + last);
      }
    }
  }

  lemma {:induction false} StopIsClosed(hear: Ear, f: Framer, data: string, c: Client, said: seq<string>)
    requires c.open
    ensures var fed := Feed(f, data, Hearing(hear), (c, said)); fed.stopped == !fed.state.0.open
    decreases |data|
  {
    if data != "" {
      if data[0] != '\n' {
        StopIsClosed(hear, Push(f, data[0]), data[1..], c, said);
      } else if f.dropping {
        StopIsClosed(hear, IDLE, data[1..], c, said);
      } else {
        var (c', more) := hear(c, CStr(StripCr(f.line)));
        if c'.open {
          StopIsClosed(hear, IDLE, data[1..], c', said + more);
        }
      }
    }
  }

  lemma ReceiveFrom(s: Settings, ep: Endpoint, y: Ends, read: seq<string>, received: string, size: nat)
    requires From(s, ep, y, read, received) && CanHappen(y, ClientReceives(size))
    ensures From(s, ep, Advance(s, ep, y, ClientReceives(size)), read, received + y.toClient[..Got(y, size)])
  {
    hide Serve, Feed, Stream, Glued, Served;
    var n := Got(y, size);
    var data, rest := y.toClient[..n], y.toClient[n..];
    var before := ClientFed(s, received).state.1;
    FeedAppend(IDLE, received, data, Hearing(HearOf(s)), AtConnect(s));
    SaidBefore(HearOf(s), y.framer, data, y.client, before);
    StopIsClosed(HearOf(s), y.framer, data, y.client, []);
    var said := Feed(y.framer, data, Hearing(HearOf(s)), (y.client, [])).state.1;
    assert ClientFed(s, received + data).state.1 == before + said;
    StreamAppend(before, said);
    Regroup(Stream(FirstSaid(s)), Stream(before), Stream(said));
    Regroup(Glued(read), y.toServer, Stream(said));
    assert data + rest == y.toClient;
    Regroup(received, data, rest);
  }

  lemma {:induction false} CourseFrom(s: Settings, ep: Endpoint, schedule: nat -> Event, n: nat)
    ensures From(s, ep, Course(s, ep, schedule, n), LinesRead(s, ep, schedule, n), BytesReceived(s, ep, schedule, n))
  {
    hide From, Advance, FirstLine, Got;
    if n == 0 {
      BegunFrom(s, ep);
    } else {
      CourseFrom(s, ep, schedule, n - 1);
      var y, event := Course(s, ep, schedule, n - 1), schedule(n - 1);
      var read, received := LinesRead(s, ep, schedule, n - 1), BytesReceived(s, ep, schedule, n - 1);
      assert read + [] == read && received + "" == received;
      if CanHappen(y, event) {
        match event {
          case EndpointReads => ReadFrom(s, ep, y, read, received);
          case ClientReceives(size) => ReceiveFrom(s, ep, y, read, received, size);
        }
      } else {
        Idle(s, ep, y, event);
      }
    }
  }

  lemma Idle(s: Settings, ep: Endpoint, y: Ends, event: Event)
    requires !CanHappen(y, event)
    ensures Advance(s, ep, y, event) == y
  {
  }

  lemma BegunFrom(s: Settings, ep: Endpoint)
    ensures From(s, ep, Begun(s, ep), [], "")
  {
    assert Stream([]) == "" && Glued([]) == "" && Served(ep, []) == (Setup(ep), []);
    assert Stream(FirstSaid(s)) + "" == Stream(FirstSaid(s)) && "" + Stream(FirstSaid(s)) == Stream(FirstSaid(s));
    assert Stream([NOTICE_LINE]) + "" == Stream([NOTICE_LINE]) && "" + Stream([NOTICE_LINE]) == Stream([NOTICE_LINE]);
  }

  // ------------------------------------------------------------- what comes first stays first

  lemma {:induction false} ServedPrefix(ep: Endpoint, a: seq<string>, b: seq<string>)
    requires a <= b
    ensures Served(ep, a).1 <= Served(ep, b).1
  {
    hide Serve;
    if |a| < |b| {
      var init := b[..|b| - 1];
      assert a <= init;
      ServedPrefix(ep, a, init);
    } else {
      assert a == b;
    }
  }

  lemma StreamPrefix(a: seq<string>, b: seq<string>)
    requires a <= b
    ensures Stream(a) <= Stream(b)
  {
    StreamAppend(a, b[|a|..]);
    assert a + b[|a|..] == b;
  }

  lemma InFront(a: string, b: string, c: string)
    requires b <= c
    ensures a + b <= a + c
  {
  }

  /** The segments of a longer stream begin with those of a shorter one. */
  lemma {:induction false} CutAfter(lines: seq<string>, rest: string)
    requires NoFeed(lines)
    ensures Cut(Glued(lines) + rest).0 == lines + Cut(rest).0
  {
    hide Cut;
    if lines == [] {
      assert "" + rest == rest && [] + Cut(rest).0 == Cut(rest).0;
    } else {
      var tail := lines[1..];
      assert [lines[0]] + tail == lines;
      GluedCons(lines[0], tail, rest);
      CutFirst(lines[0], Glued(tail) + rest);
      CutAfter(tail, rest);
      Listed(lines[0], tail, Cut(rest).0);
    }
  }

  lemma Listed(first: string, tail: seq<string>, more: seq<string>)
    ensures [first] + (tail + more) == [first] + tail + more
  {
  }

  lemma CutPrefix(a: string, b: string)
    requires a <= b
    ensures Cut(a).0 <= Cut(b).0
  {
    hide Cut, Glued;
    CutIsGlued(a);
    CutNoFeed(a);
    var lines, rest, more := Cut(a).0, Cut(a).1, b[|a|..];
    assert a + more == b;
    Regroup(Glued(lines), rest, more);
    CutAfter(lines, rest + more);
  }

  lemma {:induction false} AcceptedPrefix(a: seq<string>, b: seq<string>)
    requires a <= b
    ensures Framing.Accepted(a) <= Framing.Accepted(b)
    decreases |a|
  {
    hide CStr, StripCr;
    if a != [] {
      AcceptedPrefix(a[1..], b[1..]);
      assert a[0] == b[0];
    }
  }

  // ----------------------------------------------------------------- the client by its lines

  /** The client after some lines, until it closes. */
  function HearAll(hear: Ear, c: Client, lines: seq<string>): (Client, seq<string>)
    decreases |lines|
  {
    if lines == [] || !c.open then (c, [])
    else
      var (c', said) := hear(c, lines[0]);
      var (c'', more) := HearAll(hear, c', lines[1..]);
      (c'', said + more)
  }

  lemma {:induction false} DeliverIsHearAll(hear: Ear, c: Client, said: seq<string>, lines: seq<string>)
    requires c.open
    ensures Deliver(Hearing(hear), (c, said), lines).0
         == var (c', more) := HearAll(hear, c, lines); (c', said + more)
    decreases |lines|
  {
    if lines == [] {
      assert said + [] == said;
    } else {
      var (c', more) := hear(c, lines[0]);
      if c'.open {
        DeliverIsHearAll(hear, c', said + more, lines[1..]);
        var last := HearAll(hear, c', lines[1..]).1;
        assert said + more + last == said + (more + last);
      } else {
        assert HearAll(hear, c', lines[1..]) == (c', []) && more + [] == more;
      }
    }
  }

  /** The lines completed in some bytes. */
  function Frames(bytes: string): seq<string> {
    Framing.Accepted(Cut(bytes).0)
  }

  lemma FedIsHearAll(s: Settings, bytes: string)
    ensures ClientFed(s, bytes).state == HearAll(HearOf(s), AtConnect(s).0, Frames(bytes))
  {
    hide Feed, Cut, Hear, Framing.Accepted;
    FeedMeaning("", bytes, Hearing(HearOf(s)), AtConnect(s));
    assert "" + bytes == bytes && Pending("") == IDLE;
    DeliverIsHearAll(HearOf(s), AtConnect(s).0, [], Frames(bytes));
    var said := HearAll(HearOf(s), AtConnect(s).0, Frames(bytes)).1;
    assert [] + said == said;
  }

  /** More lines make the client say more, and nothing once it has closed. */
  lemma {:induction false} HearMore(hear: Ear, c: Client, a: seq<string>, b: seq<string>)
    requires a <= b
    ensures HearAll(hear, c, a).1 <= HearAll(hear, c, b).1
    ensures !HearAll(hear, c, a).0.open ==> HearAll(hear, c, a) == HearAll(hear, c, b)
    decreases |a|
  {
    if a != [] && c.open {
      var (c', said) := hear(c, a[0]);
      HearMore(hear, c', a[1..], b[1..]);
      assert a[0] == b[0];
    }
  }

  // --------------------------------------------------------------- no course goes beyond an end

  /** Two states of the system of which the second has come to an end, and has read as much. */
  ghost predicate NotBeyond(s: Settings, ep: Endpoint, y: Ends, read: seq<string>, received: string,
                           z: Ends, read': seq<string>, received': string) {
    From(s, ep, y, read, received) && From(s, ep, z, read', received') && Fairness.Quiet(z) && read <= read'
  }

  lemma FramesBelow(s: Settings, ep: Endpoint, y: Ends, read: seq<string>, received: string,
                    z: Ends, read': seq<string>, received': string)
    requires NotBeyond(s, ep, y, read, received, z, read', received')
    ensures EndpointBytes(ep, read) <= EndpointBytes(ep, read')
    ensures Frames(received) <= Frames(EndpointBytes(ep, read'))
    ensures Frames(received') <= Frames(EndpointBytes(ep, read'))
    ensures z.client.open ==> Frames(received') == Frames(EndpointBytes(ep, read'))
  {
    hide Served, Stream, Glued, Cut, Framing.Accepted, ClientFed, ClientBytes;
    ServedPrefix(ep, read, read');
    StreamPrefix(Served(ep, read).1, Served(ep, read').1);
    InFront(Stream([NOTICE_LINE]), Stream(Served(ep, read).1), Stream(Served(ep, read').1));
    var all := EndpointBytes(ep, read');
    assert received <= all && received' <= all;
    CutPrefix(received, all);
    CutPrefix(received', all);
    AcceptedPrefix(Cut(received).0, Cut(all).0);
    AcceptedPrefix(Cut(received').0, Cut(all).0);
    if z.client.open {
      assert z.toClient == "" && received' + "" == received';
    }
  }

  lemma SaysLess(hear: Ear, c: Client, a: seq<string>, b: seq<string>, all: seq<string>)
    requires a <= all && b <= all && (HearAll(hear, c, b).0.open ==> b == all)
    ensures HearAll(hear, c, a).1 <= HearAll(hear, c, b).1
  {
    hide HearAll;
    if |a| <= |b| {
      assert a <= b;
      HearMore(hear, c, a, b);
    } else {
      assert b <= a;
      HearMore(hear, c, b, a);
    }
  }

  /** So the client has sent no more there than at the end. */
  lemma ClientBehind(s: Settings, ep: Endpoint, y: Ends, read: seq<string>, received: string,
                     z: Ends, read': seq<string>, received': string)
    requires NotBeyond(s, ep, y, read, received, z, read', received')
    ensures ClientBytes(s, received) <= ClientBytes(s, received')
  {
    hide Served, Stream, Glued, Frames, Feed, EndpointBytes, HearAll;
    FramesBelow(s, ep, y, read, received, z, read', received');
    FedIsHearAll(s, received);
    FedIsHearAll(s, received');
    SaysLess(HearOf(s), AtConnect(s).0, Frames(received), Frames(received'), Frames(EndpointBytes(ep, read')));
    StreamPrefix(ClientFed(s, received).state.1, ClientFed(s, received').state.1);
    InFront(Stream(FirstSaid(s)), Stream(ClientFed(s, received).state.1), Stream(ClientFed(s, received').state.1));
  }

  lemma NextIsRead(read: seq<string>, line: string, rest: string, read': seq<string>, rest': string)
    requires NoFeed(read) && '\n' !in line && NoFeed(read') && read <= read'
    requires Glued(read) + (line + "\n" + rest) <= Glued(read') + rest'
    ensures read + [line] <= read' || (read == read' && '\n' in rest')
  {
    hide Cut, Glued;
    GluedLine(read, line, rest);
    var longer := read + [line];
    assert NoFeed(longer);
    CutPrefix(Glued(longer) + rest, Glued(read') + rest');
    CutAfter(longer, rest);
    CutAfter(read', rest');
    var all := Cut(Glued(read') + rest').0;
    assert longer <= all && read' <= all;
    if |read| < |read'| {
      assert longer <= read';
    } else {
      assert read == read';
      SegmentMeansFeed(rest', all, read);
    }
  }

  lemma SegmentMeansFeed(rest: string, all: seq<string>, read: seq<string>)
    requires all == read + Cut(rest).0 && |all| > |read|
    ensures '\n' in rest
  {
    if '\n' !in rest {
      CutNone(rest);
    }
  }

  /** The endpoint's next line has also been read at the end. */
  lemma ReadBehind(s: Settings, ep: Endpoint, y: Ends, read: seq<string>, received: string,
                   z: Ends, read': seq<string>, received': string)
    requires NotBeyond(s, ep, y, read, received, z, read', received') && CanHappen(y, EndpointReads)
    ensures read + [FirstLine(y.toServer)] <= read'
  {
    hide Served, Stream, Glued, Feed, FirstLine, ClientBytes;
    ClientBehind(s, ep, y, read, received, z, read', received');
    var rest := LineTaken(y.toServer);
    NextIsRead(read, FirstLine(y.toServer), rest, read', z.toServer);
  }

  lemma {:induction false} CourseBehind(s: Settings, ep: Endpoint, schedule: nat -> Event, n: nat,
                                        z: Ends, read': seq<string>, received': string)
    requires From(s, ep, z, read', received') && Fairness.Quiet(z)
    ensures LinesRead(s, ep, schedule, n) <= read'
  {
    hide From, Fairness.Quiet, FirstLine, Course, Advance, CanHappen, NoFeed;
    if n > 0 {
      CourseBehind(s, ep, schedule, n - 1, z, read', received');
      var y, read := Course(s, ep, schedule, n - 1), LinesRead(s, ep, schedule, n - 1);
      assert read + [] == read;
      if schedule(n - 1).EndpointReads? && CanHappen(y, EndpointReads) {
        CourseFrom(s, ep, schedule, n - 1);
        ReadBehind(s, ep, y, read, BytesReceived(s, ep, schedule, n - 1), z, read', received');
      }
    }
  }

  // ---------------------------------------------------------------------------- one outcome

  lemma SameHeard(hear: Ear, c: Client, a: seq<string>, b: seq<string>, all: seq<string>)
    requires a <= all && b <= all
    requires (HearAll(hear, c, a).0.open ==> a == all) && (HearAll(hear, c, b).0.open ==> b == all)
    ensures HearAll(hear, c, a) == HearAll(hear, c, b)
  {
    hide HearAll;
    if |a| <= |b| {
      assert a <= b && (a == all ==> b == all);
      HearMore(hear, c, a, b);
    } else {
      assert b <= a && b != all;
      HearMore(hear, c, b, a);
    }
  }

  lemma SameEnd(s: Settings, ep: Endpoint, y: Ends, read: seq<string>, received: string, z: Ends, received': string)
    requires From(s, ep, y, read, received) && From(s, ep, z, read, received') && Fairness.Quiet(y) && Fairness.Quiet(z)
    ensures y.server == z.server && y.client == z.client
  {
    hide Served, Stream, Glued, Frames, Feed, EndpointBytes, HearAll, ClientBytes;
    FramesBelow(s, ep, y, read, received, z, read, received');
    FramesBelow(s, ep, z, read, received', y, read, received);
    FedIsHearAll(s, received);
    FedIsHearAll(s, received');
    SameHeard(HearOf(s), AtConnect(s).0, Frames(received), Frames(received'), Frames(EndpointBytes(ep, read)));
  }

  /** For every configuration and every endpoint: whenever two courses of events, under whatever
      schedules and however the bytes are split, have come to an end, both sides are in the same
      state at the end of the one as at the end of the other. */
  lemma OneOutcome(s: Settings, ep: Endpoint, a: nat -> Event, m: nat, b: nat -> Event, n: nat)
    requires Fairness.Quiet(Course(s, ep, a, m)) && Fairness.Quiet(Course(s, ep, b, n))
    ensures Course(s, ep, a, m).server == Course(s, ep, b, n).server
    ensures Course(s, ep, a, m).client == Course(s, ep, b, n).client
  {
    hide From, Fairness.Quiet, Course, LinesRead, BytesReceived;
    var y, z := Course(s, ep, a, m), Course(s, ep, b, n);
    CourseFrom(s, ep, a, m);
    CourseFrom(s, ep, b, n);
    CourseBehind(s, ep, a, m, z, LinesRead(s, ep, b, n), BytesReceived(s, ep, b, n));
    CourseBehind(s, ep, b, n, y, LinesRead(s, ep, a, m), BytesReceived(s, ep, a, m));
    assert LinesRead(s, ep, a, m) == LinesRead(s, ep, b, n);
    SameEnd(s, ep, y, LinesRead(s, ep, a, m), BytesReceived(s, ep, a, m), z, BytesReceived(s, ep, b, n));
  }

  // ------------------------------------------------------------------------------ fair runs

  lemma {:induction false} DeliveriesCounted(s: Settings, ep: Endpoint, schedule: nat -> Event, n: nat)
    ensures Deliveries(s, ep, schedule, n) <= |LinesRead(s, ep, schedule, n)| + |BytesReceived(s, ep, schedule, n)|
  {
    hide Advance, FirstLine;
    if n > 0 {
      DeliveriesCounted(s, ep, schedule, n - 1);
    }
  }

  /** Nothing is delivered that is not delivered, or on its way, at an end. */
  lemma DeliveriesBehind(s: Settings, ep: Endpoint, schedule: nat -> Event, n: nat,
                         z: Ends, read': seq<string>, received': string)
    requires From(s, ep, z, read', received') && Fairness.Quiet(z)
    ensures Deliveries(s, ep, schedule, n) <= |read'| + |EndpointBytes(ep, read')|
  {
    hide Fairness.Quiet, ClientFed, ClientBytes, Served, Deliveries, Course;
    CourseFrom(s, ep, schedule, n);
    CourseBehind(s, ep, schedule, n, z, read', received');
    DeliveriesCounted(s, ep, schedule, n);
    ServedPrefix(ep, LinesRead(s, ep, schedule, n), read');
    StreamPrefix(Served(ep, LinesRead(s, ep, schedule, n)).1, Served(ep, read').1);
  }

  /** If any course of events comes to an end, every fair one does, and to the same. */
  lemma FairRunsEndAlike(s: Settings, ep: Endpoint, a: nat -> Event, m: nat, schedule: nat -> Event) returns (n: nat)
    requires Fairness.Quiet(Course(s, ep, a, m)) && Fair(schedule)
    ensures var y, z := Course(s, ep, schedule, n), Course(s, ep, a, m);
            Fairness.Quiet(y) && y.server == z.server && y.client == z.client
  {
    hide From, Fairness.Quiet, Course, Fair, EndpointBytes;
    var read', received' := LinesRead(s, ep, a, m), BytesReceived(s, ep, a, m);
    CourseFrom(s, ep, a, m);
    n := FairTurns(schedule, |read'| + |EndpointBytes(ep, read')| + 1);
    DeliveriesBehind(s, ep, schedule, n, Course(s, ep, a, m), read', received');
    TurnsProgress(s, ep, schedule, n);
    OneOutcome(s, ep, schedule, n, a, m);
  }
}
