// Exactly when some course of events registers a client with other credentials than the endpoint's.
module Registering {
  import opened Text
  import opened Irc
  import opened Framing
  import opened Settings
  import opened ModernIrc
  import opened OneNetwork
  import opened Fixture
  import opened Tokens
  import opened Handshake
  import opened Registration
  import opened ByteStreams
  import opened Fairness
  import opened Witnesses

  ghost predicate CanRegister(s: Settings, ep: Endpoint) {
    exists schedule: nat -> Event, n: nat :: Course(s, ep, schedule, n).server.registered
  }

  /** The greeting alone has registered the client, or has left the endpoint waiting for nothing but
      a CAP END, which a client with CAP will say. */
  predicate GreetingRegisters(s: Settings, ep: Endpoint) {
    var v := Greeted(s, ep);
    v.registered || (s.cap && v.up && v.saslOk && v.nick.Some? && v.user.Some?)
  }

  // ------------------------------------------------------------------ what is needed

  lemma {:induction false} RegisteredStays(ep: Endpoint, lines: seq<string>, i: nat, n: nat)
    requires i <= n <= |lines| && AfterLines(ep, lines, i).registered
    ensures AfterLines(ep, lines, n).registered
  {
    if i < n {
      RegisteredStays(ep, lines, i, n - 1);
      ServeKeepsRegistered(ep, AfterLines(ep, lines, n - 1), lines[n - 1]);
    }
  }

  lemma ServeKeepsRegistered(ep: Endpoint, v: Server, raw: string)
    ensures v.registered ==> Serve(ep, v, raw).0.registered
  {
    var line := RStrip(raw);
    ObeyKeepsRegistered(ep, v, Command(line), Args(line));
  }

  lemma ObeyKeepsRegistered(ep: Endpoint, v: Server, cmd: string, args: string)
    ensures v.registered ==> Obey(ep, v, cmd, args).0.registered
  {
  }

  /** Whatever the credentials: registration needs a greeting that registers, or that leaves the
      endpoint reading, with a nick and a user. */
  lemma RegistrationNeeds(s: Settings, ep: Endpoint, schedule: nat -> Event, n: nat)
    requires AllOctets(s, ep) && Course(s, ep, schedule, n).server.registered
    ensures var v := Greeted(s, ep);
            v.registered || (s.cap && v.up && v.nick.Some? && v.user.Some? && (v.saslOk || SameCredentials(s, ep)))
    ensures ep.requireSasl ==> SameCredentials(s, ep) || GreetingLogsIn(s, ep)
  {
    var read, later := CourseKeeps(s, ep, schedule, n);
    if read < |GreetingLines(s)| {
      RegisteredStays(ep, GreetingLines(s), read, |GreetingLines(s)|);
    }
  }

  // --------------------------------------------------------- the lines of the greeting

  predicate AllWithin(lines: seq<string>, max: nat) {
    forall i | 0 <= i < |lines| :: |lines[i]| <= max
  }

  lemma AllWithinTogether(a: seq<string>, b: seq<string>, max: nat)
    requires AllWithin(a, max) && AllWithin(b, max)
    ensures AllWithin(a + b, max)
  {
    forall i | 0 <= i < |a + b|
      ensures |(a + b)[i]| <= max
    {
      assert (a + b)[i] == if i < |a| then a[i] else b[i - |a|];
    }
  }

  lemma GreetingWithin(s: Settings)
    requires Bounded(s)
    ensures AllWithin(Greeting(s), 80)
  {
    assert Get(s, Pass).Str? && Get(s, Nick).Str? && Get(s, User).Str?;
  }

  lemma {:induction false} JoinsWithin(channels: seq<string>)
    requires AllWithin(channels, CHANNEL_MAX)
    ensures AllWithin(Joins(channels), 80)
  {
    if channels != [] {
      assert |channels[0]| <= CHANNEL_MAX && AllWithin(channels[1..], CHANNEL_MAX);
      JoinsWithin(channels[1..]);
    }
  }

  lemma {:induction false} CutWithin(data: string)
    ensures AllWithin(Cut(data).0, |data| - if data == "" then 0 else 1)
    decreases |data|
  {
    if '\n' in data {
      var segment, tail := FirstSegment(data);
      CutFirst(segment, tail);
      CutWithin(tail);
    } else {
      CutNone(data);
    }
  }

  lemma StreamCons(line: string, lines: seq<string>)
    ensures Stream([line] + lines) == Stream([line]) + Stream(lines) && Stream([line]) == Ended(line)
  {
    StreamAppend([line], lines);
    assert [line][1..] == [];
  }

  /** Line feeds inside sent lines only make more and shorter ones. */
  lemma {:induction false} CutStreamWithin(lines: seq<string>, max: nat)
    requires AllWithin(lines, max)
    ensures AllWithin(Cut(Stream(lines)).0, max + 1)
  {
    if lines == [] {
      CutNone("");
    } else {
      var front, back := Cut(Stream([lines[0]])).0, Cut(Stream(lines[1..])).0;
      assert |lines[0]| <= max && AllWithin(lines[1..], max);
      CutStreamWithin(lines[1..], max);
      StreamCons(lines[0], lines[1..]);
      CutWithin(Stream([lines[0]]));
      AllWithinTogether(front, back, max + 1);
      assert [lines[0]] + lines[1..] == lines;
      StreamGlued([lines[0]]);
      StreamGlued(lines[1..]);
      CutOfBoth(Stream(lines), front, back);
    }
  }

  lemma CutOfBoth(data: string, front: seq<string>, back: seq<string>)
    requires NoFeed(front) && NoFeed(back) && data == Glued(front) + Glued(back)
    ensures Cut(data).0 == front + back
  {
    GluedAppend(front, back);
    assert NoFeed(front + back);
    CutGlued(front + back, "");
    assert data + "" == data;
  }

  lemma GreetingLinesWithin(s: Settings)
    requires Bounded(s)
    ensures AllWithin(GreetingLines(s), 81)
  {
    GreetingWithin(s);
    forall i | 0 <= i < |s.channels|
      ensures |s.channels[i]| <= CHANNEL_MAX
    {
      assert s.channels[i] in s.channels;
    }
    JoinsWithin(s.channels);
    AllWithinTogether(Greeting(s), Joins(s.channels), 80);
    CutStreamWithin(Greeting(s) + Joins(s.channels), 80);
  }

  // ------------------------------------------------------- what the endpoint replies to them

  /** A nick the endpoint took from a line of at most 81 characters. */
  predicate NickFits(v: Server) {
    v.nick.Some? ==> OneWord(v.nick.value) && |v.nick.value| <= 81
  }

  lemma {:induction false} LStripShorter(s: string)
    ensures |LStrip(s)| <= |s|
  {
    if s != "" && s[0] == ':' {
      LStripShorter(s[1..]);
    }
  }

  lemma {:induction false} RStripShorter(s: string)
    ensures |RStrip(s)| <= |s|
  {
    if s != "" && (s[|s| - 1] == '\r' || s[|s| - 1] == '\n') {
      RStripShorter(s[..|s| - 1]);
    }
  }

  lemma {:induction false} LeadShorter(s: string)
    ensures |Lead(s)| <= |s|
  {
    if s != "" && !IsBlank(s[0]) {
      LeadShorter(s[1..]);
    }
  }

  lemma {:induction false} FirstWordShorter(s: string)
    ensures |FirstWord(s)| <= |s|
  {
    if s != "" && IsBlank(s[0]) {
      FirstWordShorter(s[1..]);
    } else {
      LeadShorter(s);
    }
  }

  /** The endpoint's replies to a line, as long as it has not registered the client. */
  ghost predicate Replied(v: Server, result: (Server, seq<string>)) {
    && NickFits(result.0) && NoFeed(result.1)
    && (!v.saslOk && result.0.saslOk ==> result.1 == [Success(NickOrStar(v))])
  }

  lemma EchoesOneLine(nick: string, ch: string)
    requires OneWord(nick) && OneWord(ch)
    ensures NoFeed(Echoes(nick, ch))
  {
    hide TextLine;
    TextOneLine("PRIVMSG", ch, ":M9_2_HOOK");
    TextOneLine("NOTICE", ch, ":M9_2_FAILHOOK");
    TextOneLine("PRIVMSG", ch, ":M9_2_AFTER_FAIL");
    assert '\n' !in ":" + nick + "!ambot@fixture JOIN :" + ch;
  }

  lemma TextOneLine(command: string, ch: string, text: string)
    requires OneWord(ch) && '\n' !in command && '\n' !in text
    ensures '\n' !in TextLine(command, ch, text)
  {
    assert '\n' !in ch;
  }

  lemma VerdictOneLine(v: Server)
    requires NickFits(v)
    ensures NoFeed([Success(NickOrStar(v))]) && NoFeed([Failure(NickOrStar(v))])
  {
    assert '\n' !in NickOrStar(v);
  }

  lemma AuthReplies(ep: Endpoint, v: Server, arg: string)
    requires NickFits(v)
    ensures Replied(v, Auth(ep, v, arg))
  {
    VerdictOneLine(v);
  }

  lemma MaybeReplies(ep: Endpoint, v: Server, v': Server)
    requires NickFits(v') && v'.saslOk == v.saslOk && !MaybeRegister(ep, v').0.registered
    ensures Replied(v, MaybeRegister(ep, v'))
  {
  }

  lemma NickReplies(ep: Endpoint, v: Server, args: string)
    requires |args| <= 81
    ensures var w := FirstWord(LStrip(args)); NickFits(v.(nick := Some(w)))
  {
    LStripShorter(args);
    FirstWordShorter(LStrip(args));
  }

  lemma JoinReplies(v: Server, ch: string)
    requires NickFits(v) && v.nick.Some? && OneWord(ch)
    ensures Replied(v, (v, Echoes(v.nick.value, ch)))
  {
    EchoesOneLine(v.nick.value, ch);
  }

  lemma SilentReplies(v: Server)
    requires NickFits(v)
    ensures Replied(v, (v, [])) && Replied(v, (v.(up := false), []))
  {
  }

  lemma CapReplies(ep: Endpoint, v: Server, args: string)
    requires NickFits(v) && !Obey(ep, v, "CAP", args).0.registered
    ensures Replied(v, Obey(ep, v, "CAP", args))
  {
    hide MaybeRegister, Upper;
    if StartsWith(Upper(args), "LS") {
      assert '\n' !in LS_LINE;
    } else if StartsWith(Upper(args), "REQ") {
      assert '\n' !in ACK_LINE;
    } else if StartsWith(Upper(args), "END") {
      MaybeReplies(ep, v, v.(capEnd := true));
    }
  }

  lemma ObeyReplies(ep: Endpoint, v: Server, cmd: string, args: string)
    requires NickFits(v) && |args| <= 81 && !Obey(ep, v, cmd, args).0.registered
    ensures Replied(v, Obey(ep, v, cmd, args))
  {
    hide MaybeRegister, FirstWord, LStrip, Auth, Upper, Replied, Echoes;
    SilentReplies(v);
    if cmd == "CAP" {
      CapReplies(ep, v, args);
    } else if cmd == "AUTHENTICATE" {
      ObeyIsAuth(ep, v, args);
      AuthReplies(ep, v, args);
    } else if cmd == "NICK" {
      var w := FirstWord(LStrip(args));
      NickReplies(ep, v, args);
      if w != "" {
        MaybeReplies(ep, v, v.(nick := Some(w)));
      }
    } else if cmd == "USER" {
      var w := FirstWord(args);
      if w != "" {
        MaybeReplies(ep, v, v.(user := Some(w)));
      }
    } else if cmd == "JOIN" && v.nick.Some? {
      JoinReplies(v, FirstWord(LStrip(args)));
    }
  }

  lemma ServeReplies(ep: Endpoint, v: Server, raw: string)
    requires NickFits(v) && |raw| <= 81 && !Serve(ep, v, raw).0.registered
    ensures Replied(v, Serve(ep, v, raw))
  {
    RStripShorter(raw);
    var line := RStrip(raw);
    ObeyReplies(ep, v, Command(line), Args(line));
  }

  /** What the endpoint sends for the first `n` lines. */
  function RepliesTo(ep: Endpoint, lines: seq<string>, n: nat): seq<string>
    requires n <= |lines|
  {
    if n == 0 then [] else RepliesTo(ep, lines, n - 1) + Serve(ep, AfterLines(ep, lines, n - 1), lines[n - 1]).1
  }

  /** A line that says SASL succeeded, to a nick that fits. */
  ghost predicate SaysSuccess(line: string) {
    exists w: string :: line == Success(w) && OneWord(w) && |w| <= 81
  }

  ghost predicate SuccessIn(lines: seq<string>) {
    exists k :: 0 <= k < |lines| && SaysSuccess(lines[k])
  }

  lemma SuccessIsOne(v: Server)
    requires NickFits(v)
    ensures SuccessIn([Success(NickOrStar(v))])
  {
    var w := NickOrStar(v);
    assert OneWord(w) && |w| <= 81;
    assert SaysSuccess([Success(w)][0]);
  }

  lemma SuccessGrows(a: seq<string>, b: seq<string>)
    requires SuccessIn(a) || SuccessIn(b)
    ensures SuccessIn(a + b)
  {
    if SuccessIn(a) {
      var k :| 0 <= k < |a| && SaysSuccess(a[k]);
      assert SaysSuccess((a + b)[k]);
    } else {
      var k :| 0 <= k < |b| && SaysSuccess(b[k]);
      assert SaysSuccess((a + b)[|a| + k]);
    }
  }

  /** What the endpoint has sent by the time it is in this state. */
  ghost predicate Told(v: Server, replies: seq<string>) {
    NickFits(v) && NoFeed(replies) && (v.saslOk ==> SuccessIn(replies))
  }

  /** Until it registers the client, all the endpoint sends are lines, and once it has accepted a
      login one of them says so. */
  lemma {:induction false} RepliesSay(ep: Endpoint, lines: seq<string>, n: nat)
    requires n <= |lines| && AllWithin(lines, 81) && ep.requireSasl
    requires AfterLines(ep, lines, n).up && !AfterLines(ep, lines, n).registered
    ensures Told(AfterLines(ep, lines, n), RepliesTo(ep, lines, n))
  {
    hide Serve;
    if n > 0 {
      UpBefore(ep, lines, n - 1, n);
      AfterNext(ep, lines, n - 1);
      ServeKeepsRegistered(ep, AfterLines(ep, lines, n - 1), lines[n - 1]);
      RepliesSay(ep, lines, n - 1);
      ToldNext(ep, AfterLines(ep, lines, n - 1), RepliesTo(ep, lines, n - 1), lines[n - 1]);
    }
  }

  lemma AfterNext(ep: Endpoint, lines: seq<string>, n: nat)
    requires n < |lines| && AfterLines(ep, lines, n).up
    ensures (AfterLines(ep, lines, n + 1), RepliesTo(ep, lines, n + 1))
         == var (v, said) := Serve(ep, AfterLines(ep, lines, n), lines[n]); (v, RepliesTo(ep, lines, n) + said)
  {
  }

  lemma ToldNext(ep: Endpoint, v: Server, before: seq<string>, raw: string)
    requires Told(v, before) && |raw| <= 81 && !Serve(ep, v, raw).0.registered
    ensures Told(Serve(ep, v, raw).0, before + Serve(ep, v, raw).1)
  {
    ServeReplies(ep, v, raw);
    ToldMore(v, before, Serve(ep, v, raw));
  }

  lemma ToldMore(v: Server, before: seq<string>, result: (Server, seq<string>))
    requires Told(v, before) && Replied(v, result)
    ensures Told(result.0, before + result.1)
  {
    if result.0.saslOk {
      if !v.saslOk {
        SuccessIsOne(v);
      }
      SuccessGrows(before, result.1);
    }
  }

  // ------------------------------------------------------- what the client makes of them

  lemma {:induction false} ContainsLonger(line: string, more: string, token: string)
    requires Contains(line, token)
    ensures Contains(line + more, token)
  {
    if token <= line {
      assert token <= line + more;
    } else {
      assert (line + more)[1..] == line[1..] + more;
      ContainsLonger(line[1..], more, token);
    }
  }

  const HERALD := ":fixture 903 "

  /** As much of a success line as is before its first NUL. */
  ghost predicate Heralds(line: string) {
    exists w: string :: HERALD <= line <= Success(w) && OneWord(w)
  }

  lemma SuccessIsPlain(w: string)
    requires OneWord(w)
    ensures !Contains(Success(w), " CAP ") || (!Contains(Success(w), " LS ") && !Contains(Success(w), " ACK "))
  {
    SuccessWords(w);
    assert AllPlain(SUCCESS_TAIL) && AllPlain(More(w, SUCCESS_TAIL));
    InsideSix(":fixture", "903", w, SUCCESS_TAIL);
    Looks(Numeric("903", w, SUCCESS_TAIL));
  }

  lemma PrefixIsPlain(line: string, whole: string)
    requires line <= whole
    requires !Contains(whole, " CAP ") || (!Contains(whole, " LS ") && !Contains(whole, " ACK "))
    ensures !Contains(line, " CAP ") || (!Contains(line, " LS ") && !Contains(line, " ACK "))
  {
    var more := whole[|line|..];
    assert line + more == whole;
    if Contains(line, " CAP ") {
      ContainsLonger(line, more, " CAP ");
      if Contains(line, " LS ") {
        ContainsLonger(line, more, " LS ");
      }
      if Contains(line, " ACK ") {
        ContainsLonger(line, more, " ACK ");
      }
    }
  }

  /** Such a line ends the negotiation from whatever state. */
  lemma HeraldEnds(s: Settings, m: Modern, line: string)
    requires m.capActive && Heralds(line)
    ensures Negotiate(s, m, line).0.capEnded
  {
    var w: string :| HERALD <= line <= Success(w) && OneWord(w);
    SuccessIsPlain(w);
    PrefixIsPlain(line, Success(w));
    assert line[8..13] == HERALD[8..13] == " 903 ";
    ContainsAt(line, " 903 ", 8);
    assert line[0] == HERALD[0] == ':';
  }

  /** The client of a CAP connection: at the end of negotiation it has said CAP END, and it closes
      only then. */
  predicate Bargains(t: (Client, seq<string>)) {
    t.0.modern.capActive && (t.0.modern.capEnded ==> CAP_END in t.1) && (!t.0.open ==> t.0.modern.capEnded)
  }

  lemma NegotiationBargains(s: Settings, m: Modern, line: string)
    requires Bounded(s)
    ensures var (m', reply) := Negotiate(s, m, line);
            && reply != Refuse && m'.capActive == m.capActive && (m.capEnded ==> m'.capEnded)
            && (m'.capEnded ==> m.capEnded || Spoken(reply) == [CAP_END])
            && (reply.SayAndFail? ==> m'.capEnded)
  {
    hide Contains, Bounded;
    ConfiguredCredentialsFit(s);
  }

  lemma HearBargains(s: Settings, t: (Client, seq<string>), line: string)
    requires Bounded(s) && Bargains(t)
    ensures Bargains(Hearing(HearOf(s))(t, line).0)
  {
    hide Negotiate, Pong;
    NegotiationBargains(s, t.0.modern, line);
  }

  lemma {:induction false} DeliverBargains(s: Settings, t: (Client, seq<string>), lines: seq<string>, k: nat)
    requires Bounded(s) && Bargains(t) && t.0.open
    requires CAP_END in t.1 || (k < |lines| && Heralds(lines[k]))
    ensures CAP_END in Deliver(Hearing(HearOf(s)), t, lines).0.1
    decreases |lines|
  {
    if lines != [] {
      var (t', stop) := Hearing(HearOf(s))(t, lines[0]);
      HearBargains(s, t, lines[0]);
      if CAP_END !in t'.1 && k == 0 {
        HeraldEnds(s, t.0.modern, lines[0]);
      }
      if !stop {
        DeliverBargains(s, t', lines[1..], if k == 0 then 0 else k - 1);
      }
    }
  }

  lemma {:induction false} AcceptedHas(segments: seq<string>, k: nat) returns (j: nat)
    requires k < |segments| && |segments[k]| <= LINE_MAX
    ensures j < |Accepted(segments)| && Accepted(segments)[j] == CStr(StripCr(segments[k]))
  {
    if k == 0 {
      j := 0;
    } else {
      j := AcceptedHas(segments[1..], k - 1);
      j := j + if |segments[0]| <= LINE_MAX then 1 else 0;
    }
  }

  lemma {:induction false} CStrKeeps(front: string, rest: string)
    requires '\0' !in front
    ensures CStr(front + rest) == front + CStr(rest)
  {
    if front == "" {
      assert front + rest == rest;
    } else {
      assert (front + rest)[1..] == front[1..] + rest;
      assert front[0] in front;
      CStrKeeps(front[1..], rest);
    }
  }

  lemma SuccessHeralds(line: string)
    requires SaysSuccess(line)
    ensures Heralds(CStr(StripCr(line + "\r"))) && |line + "\r"| <= LINE_MAX
  {
    var w: string :| line == Success(w) && OneWord(w) && |w| <= 81;
    assert StripCr(line + "\r") == line;
    SuccessSplits(w);
    CStrKeeps(HERALD, w + " :SASL successful");
    assert HERALD <= CStr(line) <= Success(w);
  }

  lemma SuccessSplits(w: string)
    ensures Success(w) == HERALD + (w + " :SASL successful") && |Success(w)| == 30 + |w| && '\0' !in HERALD
  {
  }

  lemma SuccessHeard(lines: seq<string>) returns (j: nat)
    requires SuccessIn(lines)
    ensures j < |Accepted(WithCr(lines))| && Heralds(Accepted(WithCr(lines))[j])
  {
    var k :| 0 <= k < |lines| && SaysSuccess(lines[k]);
    SuccessHeralds(lines[k]);
    j := AcceptedHas(WithCr(lines), k);
  }

  /** One feed of whole lines. */
  lemma FeedLines<S>(lines: seq<string>, cb: Callback<S>, t: S)
    requires NoFeed(lines)
    ensures Feed(IDLE, Stream(lines), cb, t).state == Deliver(cb, t, Accepted(WithCr(lines))).0
  {
    FeedMeaning("", Stream(lines), cb, t);
    assert "" + Stream(lines) == Stream(lines) && Stream(lines) + "" == Stream(lines) && Pending("") == IDLE;
    CutLines(lines, "");
  }

  /** The client that receives everything at once says CAP END, among answers. */
  lemma HearsAll(s: Settings, client: Client, lines: seq<string>) returns (said: seq<string>)
    requires s.cap && Bounded(s) && client == Client(Begin(s), true) && NoFeed(lines) && SuccessIn(lines)
    ensures said == Feed(IDLE, Stream(lines), Hearing(HearOf(s)), (client, [])).state.1
    ensures Answers(s, said) && CAP_END in said
  {
    said := Feed(IDLE, Stream(lines), Hearing(HearOf(s)), (client, [])).state.1;
    FeedAnswers(s, IDLE, Stream(lines), client, []);
    FeedLines(lines, Hearing(HearOf(s)), (client, []));
    var j := SuccessHeard(lines);
    DeliverBargains(s, (client, []), Accepted(WithCr(lines)), j);
  }

  lemma ReceivesAll(s: Settings, ep: Endpoint, y: Ends)
    requires y.client.open && y.toClient != ""
    ensures var (y', said) := (Advance(s, ep, y, ClientReceives(|y.toClient|)),
                               Feed(y.framer, y.toClient, Hearing(HearOf(s)), (y.client, [])).state.1);
            y'.server == y.server && y'.toServer == y.toServer + Stream(said)
  {
    assert y.toClient[..|y.toClient|] == y.toClient;
  }

  // -------------------------------------------------------------- the courses there are

  /** Some course of events leads there. */
  ghost predicate Reachable(s: Settings, ep: Endpoint, y: Ends) {
    exists schedule: nat -> Event, n: nat :: Course(s, ep, schedule, n) == y
  }

  lemma {:induction false} SameStart(s: Settings, ep: Endpoint, a: nat -> Event, b: nat -> Event, n: nat)
    requires forall i: nat | i < n :: a(i) == b(i)
    ensures Course(s, ep, a, n) == Course(s, ep, b, n)
  {
    if n > 0 {
      SameStart(s, ep, a, b, n - 1);
    }
  }

  lemma ReachNext(s: Settings, ep: Endpoint, y: Ends, event: Event)
    requires Reachable(s, ep, y)
    ensures Reachable(s, ep, Advance(s, ep, y, event))
  {
    hide Advance;
    var schedule: nat -> Event, n: nat :| Course(s, ep, schedule, n) == y;
    var longer := (i: nat) => if i == n then event else schedule(i);
    SameStart(s, ep, schedule, longer, n);
    CourseNext(s, ep, longer, n);
    assert Course(s, ep, longer, n + 1) == Advance(s, ep, y, event);
  }

  lemma CourseNext(s: Settings, ep: Endpoint, schedule: nat -> Event, n: nat)
    ensures Course(s, ep, schedule, n + 1) == Advance(s, ep, Course(s, ep, schedule, n), schedule(n))
  {
  }

  lemma {:induction false} ReachReads(s: Settings, ep: Endpoint, y: Ends, n: nat)
    requires Reachable(s, ep, y)
    ensures Reachable(s, ep, Reads(s, ep, y, n))
  {
    if n > 0 {
      ReachReads(s, ep, y, n - 1);
      ReachNext(s, ep, Reads(s, ep, y, n - 1), EndpointReads);
    }
  }

  lemma BegunReachable(s: Settings, ep: Endpoint)
    ensures Reachable(s, ep, Begun(s, ep))
  {
    assert Course(s, ep, OnlyReads(), 0) == Begun(s, ep);
  }

  /** Reading the first `n` of the lines on their way also sends what they ask for. */
  lemma {:induction false} ReadsReplies(s: Settings, ep: Endpoint, y: Ends, lines: seq<string>, n: nat)
    requires y.toServer == Glued(lines) && NoFeed(lines) && y.server == Setup(ep)
    requires n <= |lines| && AfterLines(ep, lines, n).up
    ensures var y' := Reads(s, ep, y, n);
            && y'.client == y.client && y'.framer == y.framer
            && y'.toClient == y.toClient + Stream(RepliesTo(ep, lines, n))
  {
    hide Advance, Serve;
    if n == 0 {
      assert y.toClient + "" == y.toClient;
    } else {
      UpBefore(ep, lines, n - 1, n);
      ReadsReplies(s, ep, y, lines, n - 1);
      ReadsUp(s, ep, y, lines, n - 1);
      var y1, v := Reads(s, ep, y, n - 1), AfterLines(ep, lines, n - 1);
      assert NoFeed(lines[n - 1..]);
      ReadSays(s, ep, y1, lines[n - 1..]);
      var before, said := RepliesTo(ep, lines, n - 1), Serve(ep, v, lines[n - 1]).1;
      StreamAppend(before, said);
      Regroup(y.toClient, Stream(before), Stream(said));
    }
  }

  lemma ReadsUp(s: Settings, ep: Endpoint, y: Ends, lines: seq<string>, n: nat)
    requires y.toServer == Glued(lines) && NoFeed(lines) && y.server == Setup(ep)
    requires n <= |lines| && AfterLines(ep, lines, n).up
    ensures Reads(s, ep, y, n).server == AfterLines(ep, lines, n) && Reads(s, ep, y, n).toServer == Glued(lines[n..])
  {
    if n > 0 {
      UpBefore(ep, lines, n - 1, n);
    }
    ReadsLines(s, ep, y, lines, n);
  }

  lemma ReadSays(s: Settings, ep: Endpoint, y: Ends, queue: seq<string>)
    requires y.toServer == Glued(queue) && NoFeed(queue) && queue != [] && y.server.up
    ensures var y' := Advance(s, ep, y, EndpointReads);
            y'.client == y.client && y'.framer == y.framer
            && y'.toClient == y.toClient + Stream(Serve(ep, y.server, queue[0]).1)
  {
    GluedFirst(queue);
    ServeEnding(ep, y.server, queue[0], '\n');
  }

  // ---------------------------------------------------------------- the endpoint's answer

  /** Nothing but CAP END is missing. */
  predicate Ready(v: Server) {
    v.up && v.saslOk && v.nick.Some? && v.user.Some?
  }

  lemma AnswerRead(s: Settings, ep: Endpoint, y: Ends, queue: seq<string>, line: string)
    requires AllOctets(s, ep) && ByteStreams.Answer(s, line) && Ready(y.server)
    requires y.toServer == Glued(queue) && NoFeed(queue) && queue != [] && queue[0] == line + "\r"
    ensures var y' := Advance(s, ep, y, EndpointReads);
            y'.toServer == Glued(queue[1..]) && y'.server == Answered(s, ep, y.server, line)
  {
    var server := AdvanceRead(s, ep, y, queue);
    ServeEnding(ep, y.server, line, '\r');
    AnswerServed(s, ep, y.server, line);
  }

  lemma AnsweredReady(s: Settings, ep: Endpoint, v: Server, line: string)
    requires Ready(v)
    ensures Ready(Answered(s, ep, v, line)) && (line == CAP_END ==> Answered(s, ep, v, line).registered)
  {
  }

  lemma QueueAt(said: seq<string>, n: nat)
    requires n < |said| && NoFeed(WithCr(said))
    ensures var queue := WithCr(said)[n..];
            NoFeed(queue) && queue != [] && queue[0] == said[n] + "\r" && queue[1..] == WithCr(said)[n + 1..]
  {
  }

  /** The endpoint reads answers until CAP END, and has then registered the client. */
  lemma {:induction false} AnswersRead(s: Settings, ep: Endpoint, y: Ends, said: seq<string>, n: nat)
    requires AllOctets(s, ep) && Answers(s, said) && NoFeed(WithCr(said)) && n <= |said|
    requires y.toServer == Glued(WithCr(said)) && Ready(y.server)
    ensures var y' := Reads(s, ep, y, n);
            Ready(y'.server) && y'.toServer == Glued(WithCr(said)[n..])
    ensures n > 0 && said[n - 1] == CAP_END ==> Reads(s, ep, y, n).server.registered
  {
    if n > 0 {
      AnswersRead(s, ep, y, said, n - 1);
      var y1 := Reads(s, ep, y, n - 1);
      QueueAt(said, n - 1);
      AnswerRead(s, ep, y1, WithCr(said)[n - 1..], said[n - 1]);
      AnsweredReady(s, ep, y1.server, said[n - 1]);
    } else {
      assert WithCr(said)[0..] == WithCr(said);
    }
  }

  /** A course in which the endpoint reads the whole greeting leads to where only CAP END is missing,
      and the replies are on their way. */
  lemma ReadyReached(s: Settings, ep: Endpoint) returns (y: Ends, replies: seq<string>)
    requires ep.requireSasl && Bounded(s) && Ready(Greeted(s, ep)) && !Greeted(s, ep).registered
    ensures Reachable(s, ep, y) && y.client == Client(Begin(s), true) && y.framer == IDLE && y.toServer == ""
    ensures Ready(y.server) && NoFeed(replies) && SuccessIn(replies)
    ensures y.toClient == Stream([NOTICE_LINE]) + Stream(replies)
  {
    hide Serve, Advance;
    var lines := GreetingLines(s);
    StreamGlued(Greeting(s) + Joins(s.channels));
    ReadsUp(s, ep, Begun(s, ep), lines, |lines|);
    ReadsReplies(s, ep, Begun(s, ep), lines, |lines|);
    GreetingLinesWithin(s);
    RepliesSay(ep, lines, |lines|);
    y, replies := Reads(s, ep, Begun(s, ep), |lines|), RepliesTo(ep, lines, |lines|);
    assert lines[|lines|..] == [];
    BegunReachable(s, ep);
    ReachReads(s, ep, Begun(s, ep), |lines|);
  }

  /** The endpoint reads a CAP END among answers. */
  lemma EndRead(s: Settings, ep: Endpoint, y: Ends, said: seq<string>)
    requires AllOctets(s, ep) && Reachable(s, ep, y) && Ready(y.server)
    requires y.toServer == Stream(said) && Answers(s, said) && CAP_END in said
    ensures CanRegister(s, ep)
  {
    hide Advance, Stream;
    var k :| 0 <= k < |said| && said[k] == CAP_END;
    AnswersOneLine(s, said);
    StreamOfLines(said);
    AnswersRead(s, ep, y, said, k + 1);
    ReachReads(s, ep, y, k + 1);
    ReachedRegisters(s, ep, Reads(s, ep, y, k + 1));
  }

  lemma ReachedRegisters(s: Settings, ep: Endpoint, y: Ends)
    requires Reachable(s, ep, y) && y.server.registered
    ensures CanRegister(s, ep)
  {
  }

  /** With the endpoint waiting for CAP END only, the client that receives all replies and the
      endpoint that reads all answers get there. */
  lemma ReadyRegisters(s: Settings, ep: Endpoint)
    requires AllOctets(s, ep) && ep.requireSasl && Bounded(s) && s.cap
    requires Ready(Greeted(s, ep)) && !Greeted(s, ep).registered
    ensures CanRegister(s, ep)
  {
    hide Serve, Advance, Greeted;
    var y, replies := ReadyReached(s, ep);
    NoticeFirst(replies);
    var said := HearsAll(s, y.client, [NOTICE_LINE] + replies);
    ReceivesAll(s, ep, y);
    ReachNext(s, ep, y, ClientReceives(|y.toClient|));
    assert "" + Stream(said) == Stream(said);
    EndRead(s, ep, Advance(s, ep, y, ClientReceives(|y.toClient|)), said);
  }

  lemma NoticeFirst(replies: seq<string>)
    requires NoFeed(replies) && SuccessIn(replies)
    ensures var lines := [NOTICE_LINE] + replies;
            NoFeed(lines) && SuccessIn(lines) && Stream(lines) == Stream([NOTICE_LINE]) + Stream(replies) != ""
  {
    hide Stream;
    NoticeTidy();
    StreamCons(NOTICE_LINE, replies);
    SuccessGrows([NOTICE_LINE], replies);
  }

  /** The greeting that registers does so when the endpoint reads it. */
  lemma {:induction false} GreetingRegisteredRead(s: Settings, ep: Endpoint, n: nat)
    requires n <= |GreetingLines(s)| && AfterLines(ep, GreetingLines(s), n).registered
    ensures CanRegister(s, ep)
  {
    if AfterLines(ep, GreetingLines(s), n - 1).registered {
      GreetingRegisteredRead(s, ep, n - 1);
    } else {
      StreamGlued(Greeting(s) + Joins(s.channels));
      ReadsLines(s, ep, Begun(s, ep), GreetingLines(s), n);
      OnlyReadsReads(s, ep, n);
    }
  }

  /** For every configuration the program can hold, with other credentials than the endpoint's: some
      course of events registers the client exactly when the greeting registers it, or the client
      uses CAP and the greeting leaves the endpoint reading, with a login, a nick and a user. */
  lemma RegistersExactly(s: Settings, ep: Endpoint)
    requires AllOctets(s, ep) && ep.requireSasl && Bounded(s) && !SameCredentials(s, ep)
    ensures CanRegister(s, ep) <==> GreetingRegisters(s, ep)
  {
    if CanRegister(s, ep) {
      var schedule: nat -> Event, n: nat :| Course(s, ep, schedule, n).server.registered;
      RegistrationNeeds(s, ep, schedule, n);
    }
    if Greeted(s, ep).registered {
      GreetingRegisteredRead(s, ep, |GreetingLines(s)|);
    } else if GreetingRegisters(s, ep) {
      ReadyRegisters(s, ep);
    }
  }

  // ------------------------------------------------------------------ a nick without a word

  lemma ObeyNoNick(ep: Endpoint, v: Server, arg: string)
    requires FirstWord(LStrip(arg)) == ""
    ensures Obey(ep, v, "NICK", arg) == (v.(up := false), [])
  {
    hide FirstWord, LStrip;
  }

  lemma ServeNoNick(ep: Endpoint, v: Server, nick: string)
    requires FirstWord(LStrip(RStrip(nick))) == ""
    ensures Serve(ep, v, "NICK " + nick) == (v.(up := false), [])
  {
    hide Obey, FirstWord, LStrip;
    ServeIsObey(ep, v, "NICK", nick, "NICK " + nick);
    ObeyNoNick(ep, v, RStrip(nick));
  }

  lemma SmugglerStops(s: Settings, ep: Endpoint, lines: seq<string>)
    requires NickWord(s) == "" && ep.requireSasl
    requires lines == ["PASS p", LoginLine(ep) + "\r"] + WithCr(LastTwo(s))
    ensures AfterLines(ep, lines, 1).up && IsLogin(ep, lines[1])
    ensures AfterLines(ep, lines, 4) == Setup(ep).(saslOk := true, up := false)
  {
    hide Serve, LoginLine, FirstWord;
    var v := Setup(ep);
    ServePass(ep, v, "p");
    assert "PASS " + "p" == "PASS p";
    assert AfterLines(ep, lines, 1) == v;
    ServeLoginLine(ep, v);
    ServeLogin(ep, v, lines[1]);
    var w := v.(saslOk := true);
    assert AfterLines(ep, lines, 2) == w;
    assert lines[2] == "NICK " + s.nick + "\r";
    ServeEnding(ep, w, "NICK " + s.nick, '\r');
    ServeNoNick(ep, w, s.nick);
    assert AfterLines(ep, lines, 3) == w.(up := false);
  }

  /** Being logged in is not enough: with a nick that has no word, the client whose password smuggles
      a login is accepted and never registered. */
  lemma SmugglerWithoutNick(s: Settings, ep: Endpoint)
    requires Smuggles(s, ep) && AllOctets(s, ep) && ep.requireSasl && NickWord(s) == ""
    ensures GreetingLogsIn(s, ep) && !CanRegister(s, ep)
  {
    hide AfterLines, Course, Smuggles, IsLogin;
    SmugglingLines(s, ep);
    SmugglerStops(s, ep, GreetingLines(s));
    assert LogsInAt(s, ep, 1);
    forall schedule: nat -> Event, n: nat
      ensures !Course(s, ep, schedule, n).server.registered
    {
      if Course(s, ep, schedule, n).server.registered {
        RegistrationNeeds(s, ep, schedule, n);
      }
    }
  }
}
