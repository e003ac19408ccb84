// How the closed handshake runs: both sides follow a script whatever the schedule, so every
// schedule that keeps delivering ends after the same number of lines in the same state.
module Outcome {
  import opened Text
  import opened Irc
  import opened Settings
  import opened ModernIrc
  import opened OneNetwork
  import opened Fixture
  import opened Handshake
  import opened Registration

  // -------------------------------------------------------------- the scripts

  /** Lines of the client's greeting before the JOINs, and with them. */
  function Opening(s: Settings): nat {
    if s.pass == "" then 3 else 4
  }

  function Sent(s: Settings): nat {
    Opening(s) + |s.channels|
  }

  /** Lines of the endpoint up to the last echo. */
  function Echoed(s: Settings): nat {
    2 + 4 * |s.channels|
  }

  /** How many lines each side sends in all; `ok` says whether the credentials are the endpoint's. */
  function ClientTotal(s: Settings, ok: bool): nat {
    Sent(s) + if ok then 5 else 4
  }

  function ServerTotal(s: Settings, ok: bool): nat {
    Echoed(s) + if ok then 5 else 3
  }

  /** The line the client sends as its number `a`. */
  function ClientLine(s: Settings, ep: Endpoint, a: nat): string {
    var l := Sent(s);
    if a == 0 then CAP_LS
    else if a == 1 && s.pass != "" then "PASS " + s.pass
    else if a == Opening(s) - 2 then "NICK " + s.nick
    else if a == Opening(s) - 1 then "USER " + (s.user + " 0 * :AmBot")
    else if a < l then "JOIN " + s.channels[a - Opening(s)]
    else if a == l then CAP_REQ
    else if a == l + 1 then AUTH_PLAIN
    else if a == l + 2 then Payload(s)
    else if a == l + 3 then CAP_END
    else "PONG " + Ping(ep)[5..]
  }

  /** The line the endpoint sends as its number `b`. */
  function ServerLine(s: Settings, ep: Endpoint, ok: bool, b: nat): string {
    var k, w := Echoed(s), NickWord(s);
    if b == 0 then NOTICE_LINE
    else if b == 1 then LS_LINE
    else if b < k then Echoes(w, ChannelWord(s.channels[(b - 2) / 4]))[(b - 2) % 4]
    else if b == k then ACK_LINE
    else if b == k + 1 then AUTH_LINE
    else if b == k + 2 then if ok then Success(w) else Failure(w)
    else if b == k + 3 then Welcome(w)
    else Ping(ep)
  }

  function ClientLines(s: Settings, ep: Endpoint, lo: nat, hi: nat): (r: seq<string>)
    requires lo <= hi
    ensures |r| == hi - lo
  {
    seq(hi - lo, i requires 0 <= i => ClientLine(s, ep, lo + i))
  }

  function ServerLines(s: Settings, ep: Endpoint, ok: bool, lo: nat, hi: nat): (r: seq<string>)
    requires lo <= hi
    ensures |r| == hi - lo
  {
    seq(hi - lo, i requires 0 <= i => ServerLine(s, ep, ok, lo + i))
  }

  /** The endpoint after `a` lines of the client, and how many lines it has sent by then. */
  function ServerAt(s: Settings, ok: bool, a: nat): Server {
    var l := Sent(s);
    Server(if a >= Opening(s) - 1 then Some(NickWord(s)) else None,
           if a >= Opening(s) then Some(UserWord(s)) else None,
           a >= 1, a >= l + 4, ok && a >= l + 3, ok && a >= l + 4, true)
  }

  function ServerSent(s: Settings, ok: bool, a: nat): nat {
    var l, k := Sent(s), Echoed(s);
    if a == 0 then 1
    else if a <= Opening(s) then 2
    else if a <= l then 2 + 4 * (a - Opening(s))
    else if a <= l + 3 then k + (a - l)
    else if ok then k + 5 else k + 3
  }

  /** The client after `b` lines of the endpoint, and how many lines it has sent by then. */
  function ClientAt(s: Settings, ok: bool, b: nat): Client {
    if b < 2 then Client(M0, true)
    else if b < Echoed(s) + 3 then Client(M1, true)
    else if ok || NickWord(s) == "903" then Client(DONE, true)
    else Client(GIVEN_UP, false)
  }

  function ClientSent(s: Settings, b: nat): nat {
    var l, k := Sent(s), Echoed(s);
    if b < 2 then l
    else if b <= k then l + 1
    else if b <= k + 3 then l + 1 + (b - k)
    else if b <= k + 4 then l + 4 else l + 5
  }

  lemma ClientOne(s: Settings, ep: Endpoint, a: nat)
    ensures ClientLines(s, ep, a, a + 1) == [ClientLine(s, ep, a)] && ClientLines(s, ep, a, a) == []
  {
    hide ClientLine;
  }

  lemma ServerOne(s: Settings, ep: Endpoint, ok: bool, b: nat)
    ensures ServerLines(s, ep, ok, b, b + 1) == [ServerLine(s, ep, ok, b)] && ServerLines(s, ep, ok, b, b) == []
    ensures ServerLines(s, ep, ok, b, b + 2) == [ServerLine(s, ep, ok, b), ServerLine(s, ep, ok, b + 1)]
  {
    hide ServerLine;
  }

  /** The lines after the JOINs. */
  lemma ClientLast(s: Settings, ep: Endpoint)
    ensures var l := Sent(s);
            && ClientLine(s, ep, l) == CAP_REQ && ClientLine(s, ep, l + 1) == AUTH_PLAIN
            && ClientLine(s, ep, l + 2) == Payload(s) && ClientLine(s, ep, l + 3) == CAP_END
            && ClientLine(s, ep, l + 4) == "PONG " + Ping(ep)[5..]
  {
  }

  /** The lines after the echoes. */
  lemma ServerLast(s: Settings, ep: Endpoint, ok: bool)
    ensures var (k, w) := (Echoed(s), NickWord(s));
            && ServerLine(s, ep, ok, k) == ACK_LINE && ServerLine(s, ep, ok, k + 1) == AUTH_LINE
            && ServerLine(s, ep, ok, k + 2) == (if ok then Success(w) else Failure(w))
            && ServerLine(s, ep, ok, k + 3) == Welcome(w) && ServerLine(s, ep, ok, k + 4) == Ping(ep)
  {
  }

  // ------------------------------------------------------- the scripts at the start

  lemma GreetingIs(s: Settings)
    requires s.cap && Bounded(s)
    ensures Greeting(s) == [CAP_LS] + (if s.pass != "" then ["PASS " + s.pass] else [])
                           + ["NICK " + s.nick, "USER " + (s.user + " 0 * :AmBot")]
    ensures |Greeting(s)| == Opening(s)
  {
    assert Get(s, Pass).Str? && Get(s, Nick).Str? && Get(s, User).Str?;
    assert "USER " + s.user + " 0 * :AmBot" == "USER " + (s.user + " 0 * :AmBot");
  }

  lemma {:induction false} JoinsAre(channels: seq<string>)
    requires forall i | 0 <= i < |channels| :: |channels[i]| <= CHANNEL_MAX
    ensures |Joins(channels)| == |channels|
    ensures forall i | 0 <= i < |channels| :: Joins(channels)[i] == "JOIN " + channels[i]
  {
    if channels != [] {
      JoinsAre(channels[1..]);
    }
  }

  /** What the client sends on connecting is the start of its script. */
  lemma StartsAsScripted(s: Settings, ep: Endpoint)
    requires Configured(s, ep)
    ensures Greeting(s) + Joins(s.channels) == ClientLines(s, ep, 0, Sent(s))
  {
    hide Greeting, Joins, Fit;
    GreetingIs(s);
    forall i | 0 <= i < |s.channels|
      ensures |s.channels[i]| <= CHANNEL_MAX
    {
      assert s.channels[i] in s.channels;
    }
    JoinsAre(s.channels);
    var all := Greeting(s) + Joins(s.channels);
    forall i | 0 <= i < Sent(s)
      ensures all[i] == ClientLine(s, ep, i)
    {
    }
  }

  // ------------------------------------------------------------ the endpoint's steps

  /** What the script has the endpoint do with the client's line number `a`. */
  ghost predicate ServerDoes(s: Settings, ep: Endpoint, ok: bool, a: nat, result: (Server, seq<string>)) {
    var m, m' := ServerSent(s, ok, a), ServerSent(s, ok, a + 1);
    m <= m' <= ServerTotal(s, ok) && result == (ServerAt(s, ok, a + 1), ServerLines(s, ep, ok, m, m'))
  }

  ghost predicate ServerFollows(s: Settings, ep: Endpoint, ok: bool, a: nat) {
    ServerDoes(s, ep, ok, a, Serve(ep, ServerAt(s, ok, a), ClientLine(s, ep, a)))
  }

  lemma DoesLs(s: Settings, ep: Endpoint, ok: bool)
    ensures ServerDoes(s, ep, ok, 0, (ServerAt(s, ok, 0).(cap := true), [LS_LINE]))
  {
    ServerOne(s, ep, ok, 1);
  }

  lemma ServeLs(ep: Endpoint, v: Server, raw: string)
    requires raw == CAP_LS
    ensures Serve(ep, v, raw) == (v.(cap := true), [LS_LINE])
  {
    assert "LS" + " 302" == "LS 302" && RStrip("LS 302") == "LS 302" && "CAP " + "LS 302" == CAP_LS;
    ServeCap(ep, v, "LS", " 302");
  }

  lemma ServerHearsLs(s: Settings, ep: Endpoint, ok: bool)
    ensures ServerFollows(s, ep, ok, 0)
  {
    ServeLs(ep, ServerAt(s, ok, 0), ClientLine(s, ep, 0));
    DoesLs(s, ep, ok);
  }

  lemma DoesPass(s: Settings, ep: Endpoint, ok: bool)
    requires s.pass != ""
    ensures ServerDoes(s, ep, ok, 1, (ServerAt(s, ok, 1), []))
  {
    ServerOne(s, ep, ok, 2);
  }

  lemma ServerHearsPass(s: Settings, ep: Endpoint, ok: bool)
    requires s.pass != ""
    ensures ServerFollows(s, ep, ok, 1)
  {
    ServePass(ep, ServerAt(s, ok, 1), s.pass);
    DoesPass(s, ep, ok);
  }

  lemma DoesNick(s: Settings, ep: Endpoint, ok: bool)
    ensures var a := Opening(s) - 2;
            ServerDoes(s, ep, ok, a, MaybeRegister(ep, ServerAt(s, ok, a).(nick := Some(NickWord(s)))))
  {
    ServerOne(s, ep, ok, 2);
  }

  lemma ServerHearsNick(s: Settings, ep: Endpoint, ok: bool)
    requires NickWord(s) != ""
    ensures ServerFollows(s, ep, ok, Opening(s) - 2)
  {
    ServeNick(ep, ServerAt(s, ok, Opening(s) - 2), s.nick);
    DoesNick(s, ep, ok);
  }

  lemma DoesUser(s: Settings, ep: Endpoint, ok: bool)
    ensures var a := Opening(s) - 1;
            ServerDoes(s, ep, ok, a, MaybeRegister(ep, ServerAt(s, ok, a).(user := Some(UserWord(s)))))
  {
    ServerOne(s, ep, ok, 2);
  }

  lemma ServerHearsUser(s: Settings, ep: Endpoint, ok: bool)
    ensures ServerFollows(s, ep, ok, Opening(s) - 1)
  {
    UserWordExists(s);
    ServeUser(ep, ServerAt(s, ok, Opening(s) - 1), s.user + " 0 * :AmBot");
    DoesUser(s, ep, ok);
  }

  lemma EchoLine(s: Settings, ep: Endpoint, ok: bool, j: nat, i: nat)
    requires j < |s.channels| && i < 4
    ensures ServerLine(s, ep, ok, 2 + 4 * j + i) == Echoes(NickWord(s), ChannelWord(s.channels[j]))[i]
  {
    assert (4 * j + i) / 4 == j && (4 * j + i) % 4 == i;
  }

  lemma SameLines(a: seq<string>, b: seq<string>)
    requires |a| == |b| && forall i | 0 <= i < |a| :: a[i] == b[i]
    ensures a == b
  {
  }

  lemma EchoLines(s: Settings, ep: Endpoint, ok: bool, j: nat)
    requires j < |s.channels|
    ensures ServerLines(s, ep, ok, 2 + 4 * j, 2 + 4 * j + 4) == Echoes(NickWord(s), ChannelWord(s.channels[j]))
  {
    hide ServerLine, NickWord, ChannelWord;
    var lines := ServerLines(s, ep, ok, 2 + 4 * j, 2 + 4 * j + 4);
    var echoes := Echoes(NickWord(s), ChannelWord(s.channels[j]));
    forall i | 0 <= i < 4
      ensures lines[i] == echoes[i]
    {
      EchoLine(s, ep, ok, j, i);
    }
    SameLines(lines, echoes);
  }

  lemma DoesJoin(s: Settings, ep: Endpoint, ok: bool, j: nat)
    requires j < |s.channels|
    ensures var a := Opening(s) + j;
            ServerDoes(s, ep, ok, a, (ServerAt(s, ok, a), Echoes(NickWord(s), ChannelWord(s.channels[j]))))
  {
    EchoLines(s, ep, ok, j);
  }

  lemma ServerHearsJoin(s: Settings, ep: Endpoint, ok: bool, j: nat)
    requires Configured(s, ep) && j < |s.channels|
    ensures ServerFollows(s, ep, ok, Opening(s) + j)
  {
    var v := ServerAt(s, ok, Opening(s) + j);
    assert v.nick == Some(NickWord(s)) && ClientLine(s, ep, Opening(s) + j) == "JOIN " + s.channels[j];
    ChannelWordExists(s.channels[j]);
    ServeJoin(ep, v, s.channels[j]);
    DoesJoin(s, ep, ok, j);
  }

  /** The endpoint's state and output for the four lines after the JOINs, as scripted. */
  lemma StateAfterReq(s: Settings, ep: Endpoint, ok: bool)
    ensures var (l, k) := (Sent(s), Echoed(s));
            && ServerAt(s, ok, l) == ServerAt(s, ok, l + 1) == ServerAt(s, ok, l + 2)
            && ServerAt(s, ok, l + 3) == ServerAt(s, ok, l + 2).(saslOk := ok)
            && ServerSent(s, ok, l) == k && ServerSent(s, ok, l + 1) == k + 1
            && ServerSent(s, ok, l + 2) == k + 2 && ServerSent(s, ok, l + 3) == k + 3
            && NickOrStar(ServerAt(s, ok, l + 2)) == NickWord(s)
  {
  }

  lemma LinesAfterReq(s: Settings, ep: Endpoint, ok: bool)
    ensures var (k, w) := (Echoed(s), NickWord(s));
            && ServerLines(s, ep, ok, k, k + 1) == [ACK_LINE] && ServerLines(s, ep, ok, k + 1, k + 2) == [AUTH_LINE]
            && ServerLines(s, ep, ok, k + 2, k + 3) == [if ok then Success(w) else Failure(w)]
  {
    ServerLast(s, ep, ok);
    ServerOne(s, ep, ok, Echoed(s));
    ServerOne(s, ep, ok, Echoed(s) + 1);
    ServerOne(s, ep, ok, Echoed(s) + 2);
  }

  lemma DoesReq(s: Settings, ep: Endpoint, ok: bool)
    ensures ServerDoes(s, ep, ok, Sent(s), (ServerAt(s, ok, Sent(s)), [ACK_LINE]))
  {
    StateAfterReq(s, ep, ok);
    LinesAfterReq(s, ep, ok);
  }

  lemma ServerHearsReq(s: Settings, ep: Endpoint, ok: bool)
    ensures ServerFollows(s, ep, ok, Sent(s))
  {
    assert ClientLine(s, ep, Sent(s)) == CAP_REQ by {
      ClientLast(s, ep);
    }
    ServeReq(ep, ServerAt(s, ok, Sent(s)), ClientLine(s, ep, Sent(s)));
    DoesReq(s, ep, ok);
  }

  lemma DoesPlain(s: Settings, ep: Endpoint, ok: bool)
    ensures ServerDoes(s, ep, ok, Sent(s) + 1, (ServerAt(s, ok, Sent(s) + 1), [AUTH_LINE]))
  {
    StateAfterReq(s, ep, ok);
    LinesAfterReq(s, ep, ok);
  }

  lemma ServerHearsPlain(s: Settings, ep: Endpoint, ok: bool)
    ensures ServerFollows(s, ep, ok, Sent(s) + 1)
  {
    assert ClientLine(s, ep, Sent(s) + 1) == AUTH_PLAIN by {
      ClientLast(s, ep);
    }
    ServePlain(ep, ServerAt(s, ok, Sent(s) + 1), ClientLine(s, ep, Sent(s) + 1));
    DoesPlain(s, ep, ok);
  }

  lemma DoesPayload(s: Settings, ep: Endpoint, ok: bool)
    ensures var v := ServerAt(s, ok, Sent(s) + 2);
            ServerDoes(s, ep, ok, Sent(s) + 2,
                       if ok then (v.(saslOk := true), [Success(NickOrStar(v))]) else (v, [Failure(NickOrStar(v))]))
  {
    StateAfterReq(s, ep, ok);
    LinesAfterReq(s, ep, ok);
  }

  lemma ServerHearsPayload(s: Settings, ep: Endpoint, ok: bool)
    requires Configured(s, ep) && ok == SameCredentials(s, ep)
    ensures ServerFollows(s, ep, ok, Sent(s) + 2)
  {
    assert ClientLine(s, ep, Sent(s) + 2) == Payload(s) by {
      ClientLast(s, ep);
    }
    ServePayload(s, ep, ServerAt(s, ok, Sent(s) + 2), ClientLine(s, ep, Sent(s) + 2));
    DoesPayload(s, ep, ok);
  }

  lemma LinesAfterEnd(s: Settings, ep: Endpoint, ok: bool)
    ensures var (l, k) := (Sent(s), Echoed(s));
            && ServerAt(s, ok, l + 4) == ServerAt(s, ok, l + 3).(capEnd := true, registered := ok)
            && ServerSent(s, ok, l + 3) == k + 3 && ServerSent(s, ok, l + 4) == (if ok then k + 5 else k + 3)
            && (ok ==> ServerLines(s, ep, ok, k + 3, k + 5) == [Welcome(NickWord(s)), Ping(ep)])
            && ServerLines(s, ep, ok, k + 3, k + 3) == []
  {
    hide ServerLine, ServerLines, Welcome, Ping, ServerAt, ServerSent;
    ServerLast(s, ep, ok);
    ServerOne(s, ep, ok, Echoed(s) + 3);
    SentAfterEnd(s, ok);
  }

  lemma SentAfterEnd(s: Settings, ok: bool)
    ensures var (l, k) := (Sent(s), Echoed(s));
            && ServerAt(s, ok, l + 4) == ServerAt(s, ok, l + 3).(capEnd := true, registered := ok)
            && ServerSent(s, ok, l + 3) == k + 3 && ServerSent(s, ok, l + 4) == if ok then k + 5 else k + 3
  {
  }

  lemma DoesEnd(s: Settings, ep: Endpoint, ok: bool)
    ensures ServerDoes(s, ep, ok, Sent(s) + 3, MaybeRegister(ep, ServerAt(s, ok, Sent(s) + 3).(capEnd := true)))
  {
    LinesAfterEnd(s, ep, ok);
  }

  lemma ServerHearsEnd(s: Settings, ep: Endpoint, ok: bool)
    ensures ServerFollows(s, ep, ok, Sent(s) + 3)
  {
    assert ClientLine(s, ep, Sent(s) + 3) == CAP_END by {
      ClientLast(s, ep);
    }
    ServeEnd(ep, ServerAt(s, ok, Sent(s) + 3), ClientLine(s, ep, Sent(s) + 3));
    DoesEnd(s, ep, ok);
  }

  lemma DoesPong(s: Settings, ep: Endpoint)
    ensures ServerDoes(s, ep, true, Sent(s) + 4, (ServerAt(s, true, Sent(s) + 4), []))
  {
    ServerOne(s, ep, true, Echoed(s) + 5);
  }

  lemma ServerHearsPong(s: Settings, ep: Endpoint)
    ensures ServerFollows(s, ep, true, Sent(s) + 4)
  {
    ClientLast(s, ep);
    ServePong(ep, ServerAt(s, true, Sent(s) + 4), Ping(ep)[5..]);
    DoesPong(s, ep);
  }

  lemma ServerScript(s: Settings, ep: Endpoint, ok: bool, a: nat)
    requires Configured(s, ep) && ok == SameCredentials(s, ep) && a < ClientTotal(s, ok)
    ensures ServerFollows(s, ep, ok, a)
  {
    hide ServerFollows;
    var l := Sent(s);
    if a == 0 {
      ServerHearsLs(s, ep, ok);
    } else if a == Opening(s) - 1 {
      ServerHearsUser(s, ep, ok);
    } else if a == Opening(s) - 2 {
      ServerHearsNick(s, ep, ok);
    } else if a < Opening(s) {
      ServerHearsPass(s, ep, ok);
    } else if a < l {
      ServerHearsJoin(s, ep, ok, a - Opening(s));
    } else if a == l {
      ServerHearsReq(s, ep, ok);
    } else if a == l + 1 {
      ServerHearsPlain(s, ep, ok);
    } else if a == l + 2 {
      ServerHearsPayload(s, ep, ok);
    } else if a == l + 3 {
      ServerHearsEnd(s, ep, ok);
    } else {
      ServerHearsPong(s, ep);
    }
  }

  // -------------------------------------------------------------- the client's steps

  ghost predicate ClientFollows(s: Settings, ep: Endpoint, ok: bool, b: nat) {
    var n, n' := ClientSent(s, b), ClientSent(s, b + 1);
    n <= n' <= ClientTotal(s, ok)
    && Hear(s, ClientAt(s, ok, b), ServerLine(s, ep, ok, b)) == (ClientAt(s, ok, b + 1), ClientLines(s, ep, n, n'))
  }

  /** A line that is no ping, given what negotiation makes of it. */
  lemma HearPlainly(s: Settings, m: Modern, line: string, m': Modern, reply: Reply)
    requires Negotiate(s, m, line) == (m', reply) && line != "" && line[0] != 'P'
    ensures Hear(s, Client(m, true), line) == (Client(m', Survives(reply, true)), Spoken(reply))
  {
    assert "PING "[0] == 'P';
    assert Pong(line) == [] && Spoken(reply) + [] == Spoken(reply);
  }

  lemma ClientHearsNotice(s: Settings, ep: Endpoint, ok: bool)
    ensures ClientFollows(s, ep, ok, 0)
  {
    ClientOne(s, ep, Sent(s));
    NoticeSaysNothing(s, M0);
    assert NOTICE_LINE[0] == ':';
    HearPlainly(s, M0, NOTICE_LINE, M0, ModernIrc.Quiet);
  }

  lemma ClientHearsLs(s: Settings, ep: Endpoint, ok: bool)
    requires s.sasl
    ensures ClientFollows(s, ep, ok, 1)
  {
    ClientLast(s, ep);
    ClientOne(s, ep, Sent(s));
    HearLs(s);
    assert LS_LINE[0] == ':';
    HearPlainly(s, M0, LS_LINE, M1, Say(CAP_REQ));
  }

  lemma ClientHearsEcho(s: Settings, ep: Endpoint, ok: bool, b: nat)
    requires Configured(s, ep) && 2 <= b < Echoed(s)
    ensures ClientFollows(s, ep, ok, b)
  {
    hide Contains, Hear, Negotiate;
    ClientOne(s, ep, Sent(s) + 1);
    var ch, i := s.channels[(b - 2) / 4], (b - 2) % 4;
    ChannelWordExists(ch);
    EchoesSayNothing(s, M1, NickWord(s), ChannelWord(ch), i);
    HearPlainly(s, M1, Echoes(NickWord(s), ChannelWord(ch))[i], M1, ModernIrc.Quiet);
  }

  lemma ClientHearsAck(s: Settings, ep: Endpoint, ok: bool)
    ensures ClientFollows(s, ep, ok, Echoed(s))
  {
    ClientLast(s, ep);
    ServerLast(s, ep, ok);
    ClientOne(s, ep, Sent(s) + 1);
    HearAck(s);
    assert ACK_LINE[0] == ':';
    HearPlainly(s, M1, ACK_LINE, M1, Say(AUTH_PLAIN));
  }

  lemma ClientHearsAuth(s: Settings, ep: Endpoint, ok: bool)
    requires Bounded(s)
    ensures ClientFollows(s, ep, ok, Echoed(s) + 1)
  {
    ClientLast(s, ep);
    ServerLast(s, ep, ok);
    ClientOne(s, ep, Sent(s) + 2);
    ConfiguredCredentialsFit(s);
    HearAuth(s);
    assert AUTH_LINE[0] == 'A';
    HearPlainly(s, M1, AUTH_LINE, M1, Say(Payload(s)));
  }

  lemma ClientHearsVerdict(s: Settings, ep: Endpoint, ok: bool)
    ensures ClientFollows(s, ep, ok, Echoed(s) + 2)
  {
    ClientLast(s, ep);
    ServerLast(s, ep, ok);
    ClientOne(s, ep, Sent(s) + 3);
    var w := NickWord(s);
    assert Success(w)[0] == ':' && Failure(w)[0] == ':';
    if ok {
      HearSuccess(s, w);
      HearPlainly(s, M1, Success(w), DONE, Say(CAP_END));
    } else {
      HearFailure(s, w);
      HearPlainly(s, M1, Failure(w), if w == "903" then DONE else GIVEN_UP,
                  if w == "903" then Say(CAP_END) else SayAndFail(CAP_END));
    }
  }

  lemma ClientHearsWelcome(s: Settings, ep: Endpoint)
    ensures ClientFollows(s, ep, true, Echoed(s) + 3)
  {
    ServerLast(s, ep, true);
    ClientOne(s, ep, Sent(s) + 4);
    assert Welcome(NickWord(s))[0] == ':';
    HearPlainly(s, DONE, Welcome(NickWord(s)), DONE, ModernIrc.Quiet);
  }

  lemma ClientHearsPing(s: Settings, ep: Endpoint)
    requires |ep.network| <= 500
    ensures ClientFollows(s, ep, true, Echoed(s) + 4)
  {
    ClientLast(s, ep);
    ServerLast(s, ep, true);
    ClientOne(s, ep, Sent(s) + 4);
    assert |Ping(ep)| <= LINE_MAX && "PING " <= Ping(ep);
    assert [] + Pong(Ping(ep)) == ["PONG " + Ping(ep)[5..]];
  }

  lemma ClientScript(s: Settings, ep: Endpoint, ok: bool, b: nat)
    requires Configured(s, ep) && b < ServerTotal(s, ok)
    ensures ClientFollows(s, ep, ok, b)
  {
    var k := Echoed(s);
    if b == 0 {
      ClientHearsNotice(s, ep, ok);
    } else if b == 1 {
      ClientHearsLs(s, ep, ok);
    } else if b < k {
      ClientHearsEcho(s, ep, ok, b);
    } else if b == k {
      ClientHearsAck(s, ep, ok);
    } else if b == k + 1 {
      ClientHearsAuth(s, ep, ok);
    } else if b == k + 2 {
      ClientHearsVerdict(s, ep, ok);
    } else if b == k + 3 {
      ClientHearsWelcome(s, ep);
    } else {
      ClientHearsPing(s, ep);
    }
  }

  // ------------------------------------------------------------- every schedule

  /** The system once the endpoint has read `a` lines and the client `b`. */
  ghost predicate At(s: Settings, ep: Endpoint, ok: bool, y: System, a: nat, b: nat) {
    var n, m := ClientSent(s, b), ServerSent(s, ok, a);
    && a <= n <= ClientTotal(s, ok) && b <= m <= ServerTotal(s, ok)
    && y == System(ClientAt(s, ok, b), ServerAt(s, ok, a), ClientLines(s, ep, a, n), ServerLines(s, ep, ok, b, m))
  }

  lemma ClientLinesCut(s: Settings, ep: Endpoint, lo: nat, mid: nat, hi: nat)
    requires lo <= mid <= hi
    ensures ClientLines(s, ep, lo, mid) + ClientLines(s, ep, mid, hi) == ClientLines(s, ep, lo, hi)
    ensures lo < hi ==> ClientLines(s, ep, lo, hi)[0] == ClientLine(s, ep, lo)
                        && ClientLines(s, ep, lo, hi)[1..] == ClientLines(s, ep, lo + 1, hi)
  {
    hide ClientLine;
  }

  lemma ServerLinesCut(s: Settings, ep: Endpoint, ok: bool, lo: nat, mid: nat, hi: nat)
    requires lo <= mid <= hi
    ensures ServerLines(s, ep, ok, lo, mid) + ServerLines(s, ep, ok, mid, hi) == ServerLines(s, ep, ok, lo, hi)
    ensures lo < hi ==> ServerLines(s, ep, ok, lo, hi)[0] == ServerLine(s, ep, ok, lo)
                        && ServerLines(s, ep, ok, lo, hi)[1..] == ServerLines(s, ep, ok, lo + 1, hi)
  {
    hide ServerLine;
  }

  lemma ServerMoves(s: Settings, ep: Endpoint, ok: bool, y: System, a: nat, b: nat)
    requires Configured(s, ep) && ok == SameCredentials(s, ep) && At(s, ep, ok, y, a, b) && CanMove(y, ServerReads)
    ensures At(s, ep, ok, Step(s, ep, y, ServerReads), a + 1, b)
  {
    var n, m := ClientSent(s, b), ServerSent(s, ok, a);
    ServerScript(s, ep, ok, a);
    ClientLinesCut(s, ep, a, n, n);
    ServerLinesCut(s, ep, ok, b, m, ServerSent(s, ok, a + 1));
  }

  lemma ClientMoves(s: Settings, ep: Endpoint, ok: bool, y: System, a: nat, b: nat)
    requires Configured(s, ep) && At(s, ep, ok, y, a, b) && CanMove(y, ClientReads)
    ensures At(s, ep, ok, Step(s, ep, y, ClientReads), a, b + 1)
  {
    var n, m := ClientSent(s, b), ServerSent(s, ok, a);
    ClientScript(s, ep, ok, b);
    ServerLinesCut(s, ep, ok, b, m, m);
    ClientLinesCut(s, ep, a, n, ClientSent(s, b + 1));
  }

  /** Nothing can move exactly when both scripts are used up. */
  lemma QuietAtEnd(s: Settings, ep: Endpoint, ok: bool, y: System, a: nat, b: nat)
    requires At(s, ep, ok, y, a, b)
    ensures Quiescent(y) <==> a == ClientTotal(s, ok) && b == ServerTotal(s, ok)
  {
    var n, m := ClientSent(s, b), ServerSent(s, ok, a);
    assert y.toServer == [] <==> a == n;
    assert y.toClient == [] <==> b == m;
  }
}
