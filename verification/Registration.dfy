// What each line of the handshake does to the end that hears it.
module Registration {
  import opened Text
  import opened Framing
  import opened Settings
  import opened Base64
  import opened ModernIrc
  import opened Fixture
  import opened Tokens
  import opened Handshake

  /** The word the endpoint takes as the nick, and as a channel. */
  function NickWord(s: Settings): string {
    FirstWord(LStrip(RStrip(s.nick)))
  }

  function UserWord(s: Settings): string {
    FirstWord(RStrip(s.user + " 0 * :AmBot"))
  }

  function ChannelWord(ch: string): string {
    FirstWord(LStrip(RStrip(ch)))
  }

  /** The texts that are sent are lines: C strings without line feed. */
  predicate SendsLines(s: Settings) {
    && IsLine(s.pass) && IsLine(s.nick) && IsLine(s.user)
    && forall i | 0 <= i < |s.channels| :: IsLine(s.channels[i])
  }

  /** A client with channels as channels are written. */
  predicate Willing(s: Settings, ep: Endpoint) {
    && Bounded(s) && SendsLines(s)
    && (forall i | 0 <= i < |s.channels| :: s.channels[i] != "" && s.channels[i][0] == '#')
    && Octets(s.saslUser) && Octets(s.saslPass) && Octets(ep.user) && Octets(ep.pass)
  }

  /** In addition a network name that fits a ping. */
  predicate Named(s: Settings, ep: Endpoint) {
    Willing(s, ep) && |ep.network| <= 500 && IsLine(ep.network)
  }

  /** In addition a nick with at least one word, a client that wants SASL and an endpoint that
      requires it. */
  predicate Configured(s: Settings, ep: Endpoint) {
    Named(s, ep) && NickWord(s) != "" && s.cap && s.sasl && ep.requireSasl
  }

  function Payload(s: Settings): string {
    "AUTHENTICATE " + Encode(PlainMessage(s.saslUser, s.saslPass))
  }

  // ----------------------------------------------- words of the endpoint's lines

  /** `:fixture code nick text...` as words. */
  function Numeric(code: string, w: string, tail: Words): Words {
    More(":fixture", More(code, More(w, tail)))
  }

  lemma NumericSpaced(code: string, w: string, tail: Words)
    ensures Spaced(Numeric(code, w, tail)) == ":fixture " + code + " " + w + " " + Spaced(tail)
  {
    var a := More(w, tail);
    assert Spaced(a) == w + " " + Spaced(tail);
    assert Spaced(More(code, a)) == code + " " + (w + " " + Spaced(tail));
  }

  /** Its inner words. */
  lemma InsideFour(first: string, code: string, w: string, tail: Words, x: string)
    ensures Inside(More(first, More(code, More(w, tail))), x)
       <==> code == x || (w == x) || (tail.More? && (tail.word == x || Inside(tail, x)))
  {
    assert Inside(More(w, tail), x) <==> tail.More? && (tail.word == x || Inside(tail, x));
    assert Inside(More(code, More(w, tail)), x) <==> w == x || Inside(More(w, tail), x);
  }

  lemma InsideSix(first: string, code: string, w: string, tail: Words)
    requires tail.Last? || (tail.word == ":SASL" && tail.rest.Last?)
    ensures var ws := More(first, More(code, More(w, tail)));
            && (Inside(ws, "CAP") <==> code == "CAP" || w == "CAP") && (Inside(ws, "LS") <==> code == "LS" || w == "LS")
            && (Inside(ws, "ACK") <==> code == "ACK" || w == "ACK")
            && (Inside(ws, "903") <==> code == "903" || w == "903")
            && (Inside(ws, "904") <==> code == "904" || w == "904")
            && (Inside(ws, "905") <==> code == "905" || w == "905")
            && (Inside(ws, "906") <==> code == "906" || w == "906")
            && (Inside(ws, "907") <==> code == "907" || w == "907")
  {
    InsideFour(first, code, w, tail, "CAP");
    InsideFour(first, code, w, tail, "LS");
    InsideFour(first, code, w, tail, "ACK");
    InsideFour(first, code, w, tail, "903");
    InsideFour(first, code, w, tail, "904");
    InsideFour(first, code, w, tail, "905");
    InsideFour(first, code, w, tail, "906");
    InsideFour(first, code, w, tail, "907");
  }

  const SUCCESS_TAIL := More(":SASL", Last("successful"))
  const FAILURE_TAIL := More(":SASL", Last("failed"))
  const CAP_TAIL := Last(":sasl")

  lemma SuccessWords(w: string)
    ensures Success(w) == Spaced(Numeric("903", w, SUCCESS_TAIL))
  {
    NumericSpaced("903", w, SUCCESS_TAIL);
    assert Spaced(SUCCESS_TAIL) == ":SASL successful";
  }

  lemma FailureWords(w: string)
    ensures Failure(w) == Spaced(Numeric("904", w, FAILURE_TAIL))
  {
    NumericSpaced("904", w, FAILURE_TAIL);
    assert Spaced(FAILURE_TAIL) == ":SASL failed";
  }

  /** The tokens negotiation looks for. */
  lemma Looks(ws: Words)
    requires AllPlain(ws)
    ensures Contains(Spaced(ws), " CAP ") == Inside(ws, "CAP") && Contains(Spaced(ws), " LS ") == Inside(ws, "LS")
    ensures Contains(Spaced(ws), " ACK ") == Inside(ws, "ACK") && Contains(Spaced(ws), " 903 ") == Inside(ws, "903")
    ensures SaslFailure(Spaced(ws))
         == (Inside(ws, "904") || Inside(ws, "905") || Inside(ws, "906") || Inside(ws, "907"))
  {
    hide Inside, AllPlain, Contains, Spaced;
    TokenIsWord(ws, "CAP");
    TokenIsWord(ws, "LS");
    TokenIsWord(ws, "ACK");
    TokenIsWord(ws, "903");
    TokenIsWord(ws, "904");
    TokenIsWord(ws, "905");
    TokenIsWord(ws, "906");
    TokenIsWord(ws, "907");
    assert " " + "CAP" + " " == " CAP " && " " + "LS" + " " == " LS " && " " + "ACK" + " " == " ACK ";
    assert " " + "903" + " " == " 903 " && " " + "904" + " " == " 904 " && " " + "905" + " " == " 905 ";
    assert " " + "906" + " " == " 906 " && " " + "907" + " " == " 907 ";
  }

  predicate Quiet9(ws: Words) {
    !Inside(ws, "CAP") && !Inside(ws, "903") && !Inside(ws, "904") && !Inside(ws, "905") && !Inside(ws, "906")
    && !Inside(ws, "907")
  }

  /** A line with none of those words says nothing to the negotiation. */
  lemma SaysNothing(s: Settings, m: Modern, ws: Words)
    requires AllPlain(ws) && Quiet9(ws) && ws.More? && ws.word != "" && ws.word[0] == ':'
    ensures Negotiate(s, m, Spaced(ws)) == (m, ModernIrc.Quiet)
  {
    Looks(ws);
    assert Spaced(ws)[0] == ':';
  }

  lemma NoticeSaysNothing(s: Settings, m: Modern)
    ensures Negotiate(s, m, NOTICE_LINE) == (m, ModernIrc.Quiet)
  {
    hide Contains, Negotiate;
    var c := More(":AmBot", More("M9.2", More("deterministic", Last("fixture"))));
    assert AllPlain(c.rest.rest) && AllPlain(c);
    var words := ["CAP", "903", "904", "905", "906", "907"];
    forall i | 0 <= i < |words|
      ensures !Inside(NOTICE_WORDS, words[i])
    {
      assert !Inside(c.rest.rest, words[i]) && !Inside(c, words[i]);
      assert !Inside(More("AUTH", c), words[i]) && !Inside(More("NOTICE", More("AUTH", c)), words[i]);
    }
    assert words[0] == "CAP" && words[1] == "903" && words[2] == "904" && words[3] == "905";
    assert words[4] == "906" && words[5] == "907";
    SaysNothing(s, m, NOTICE_WORDS);
  }

  predicate OneWord(w: string) {
    forall i | 0 <= i < |w| :: !IsBlank(w[i])
  }

  lemma JoinEchoSaysNothing(s: Settings, m: Modern, w: string, ch: string)
    requires OneWord(w) && OneWord(ch)
    ensures Negotiate(s, m, Echoes(w, ch)[0]) == (m, ModernIrc.Quiet)
  {
    var ws := More(":" + w + "!ambot@fixture", More("JOIN", Last(":" + ch)));
    assert Spaced(ws.rest) == "JOIN :" + ch;
    assert Spaced(ws) == Echoes(w, ch)[0];
    assert ws.word[0] == ':' && Plain(ws.word) && Plain(":" + ch);
    SaysNothing(s, m, ws);
  }

  function TextWords(command: string, ch: string, text: string): Words {
    More(":fixture-user!test@fixture", More(command, More(ch, Last(text))))
  }

  lemma TextSpaced(command: string, ch: string, text: string)
    ensures Spaced(TextWords(command, ch, text)) == TextLine(command, ch, text)
  {
    var tail := More(ch, Last(text));
    assert Spaced(tail) == ch + " " + text;
    assert Spaced(More(command, tail)) == command + " " + ch + " " + text;
  }

  lemma TextPlain(command: string, ch: string, text: string)
    requires OneWord(ch) && Plain(text) && (command == "PRIVMSG" || command == "NOTICE")
    ensures AllPlain(TextWords(command, ch, text)) && AllPlain(TextWords(command, ch, text).rest)
  {
    assert Plain("PRIVMSG") && Plain("NOTICE") && Plain(":fixture-user!test@fixture") && Plain(ch);
    var tail := More(ch, Last(text));
    assert AllPlain(Last(text)) && AllPlain(tail);
    assert AllPlain(More(command, tail));
  }

  lemma TextEchoSaysNothing(s: Settings, m: Modern, command: string, ch: string, text: string)
    requires OneWord(ch) && ch != "" && ch[0] == '#' && Plain(text)
    requires command == "PRIVMSG" || command == "NOTICE"
    ensures Negotiate(s, m, TextLine(command, ch, text)) == (m, ModernIrc.Quiet)
    ensures TextLine(command, ch, text)[0] == ':'
  {
    hide Contains, Negotiate;
    var ws := TextWords(command, ch, text);
    TextSpaced(command, ch, text);
    TextPlain(command, ch, text);
    InsideSix(ws.word, command, ch, Last(text));
    SaysNothing(s, m, ws);
  }

  /** What the endpoint sends after a JOIN does not move the negotiation. */
  lemma EchoesSayNothing(s: Settings, m: Modern, w: string, ch: string, i: nat)
    requires OneWord(w) && OneWord(ch) && ch != "" && ch[0] == '#' && i < 4
    ensures Negotiate(s, m, Echoes(w, ch)[i]) == (m, ModernIrc.Quiet) && Echoes(w, ch)[i][0] == ':'
  {
    if i == 0 {
      JoinEchoSaysNothing(s, m, w, ch);
    } else if i == 1 {
      TextEchoSaysNothing(s, m, "PRIVMSG", ch, ":M9_2_HOOK");
    } else if i == 2 {
      TextEchoSaysNothing(s, m, "NOTICE", ch, ":M9_2_FAILHOOK");
    } else {
      TextEchoSaysNothing(s, m, "PRIVMSG", ch, ":M9_2_AFTER_FAIL");
    }
  }

  // --------------------------------------------------- the client, line by line

  const M0 := Modern(true, false, false, false)
  const M1 := Modern(true, true, false, false)
  const DONE := Modern(true, true, true, true)
  const GIVEN_UP := Modern(true, true, false, true)

  lemma SaslIn(front: string)
    ensures Contains(front + "sasl", "sasl")
  {
    assert (front + "sasl")[|front|..|front| + 4] == "sasl";
    ContainsAt(front + "sasl", "sasl", |front|);
  }

  lemma CapSpaced(code: string)
    ensures Spaced(More(":fixture", More("CAP", More("*", More(code, CAP_TAIL)))))
         == ":fixture CAP * " + code + " :sasl"
  {
    NumericSpaced("CAP", "*", More(code, CAP_TAIL));
    assert Spaced(More(code, CAP_TAIL)) == code + " :sasl";
  }

  lemma CapPlain(code: string)
    requires code == "LS" || code == "ACK"
    ensures AllPlain(More(":fixture", More("CAP", More("*", More(code, CAP_TAIL)))))
  {
    var tail := More(code, CAP_TAIL);
    assert Plain(":sasl") && Plain(code) && Plain("*") && Plain("CAP") && Plain(":fixture");
    assert AllPlain(CAP_TAIL);
    assert AllPlain(tail);
    assert AllPlain(More("*", tail));
    assert AllPlain(More("CAP", More("*", tail)));
  }

  /** `:fixture CAP * LS :sasl` and `:fixture CAP * ACK :sasl` as negotiation sees them. */
  lemma CapLine(code: string, line: string)
    requires (code == "LS" || code == "ACK") && line == ":fixture CAP * " + code + " :sasl"
    ensures Contains(line, " CAP ") && (Contains(line, " LS ") <==> code == "LS")
    ensures (Contains(line, " ACK ") <==> code == "ACK") && Contains(line, "sasl")
  {
    hide Contains;
    var tail := More(code, CAP_TAIL);
    var ws := More(":fixture", More("CAP", More("*", tail)));
    CapSpaced(code);
    CapPlain(code);
    InsideFour(":fixture", "CAP", "*", tail, "CAP");
    InsideFour(":fixture", "CAP", "*", tail, "LS");
    InsideFour(":fixture", "CAP", "*", tail, "ACK");
    Looks(ws);
    SaslIn(":fixture CAP * " + code + " :");
    assert ":fixture CAP * " + code + " :" + "sasl" == line;
  }

  lemma HearLs(s: Settings)
    requires s.sasl
    ensures Negotiate(s, M0, LS_LINE) == (M1, Say(CAP_REQ))
  {
    assert ":fixture CAP * " + "LS" + " :sasl" == LS_LINE;
    CapLine("LS", LS_LINE);
  }

  lemma HearAck(s: Settings)
    ensures Negotiate(s, M1, ACK_LINE) == (M1, Say(AUTH_PLAIN))
  {
    assert ":fixture CAP * " + "ACK" + " :sasl" == ACK_LINE;
    CapLine("ACK", ACK_LINE);
  }

  lemma HearAuth(s: Settings)
    requires PayloadLine(s.saslUser, s.saslPass).Some?
    ensures Negotiate(s, M1, AUTH_LINE) == (M1, Say(PayloadLine(s.saslUser, s.saslPass).value))
  {
    var ws := More("AUTHENTICATE", Last("+"));
    assert Spaced(ws) == AUTH_LINE;
    Looks(ws);
  }

  lemma HearSuccess(s: Settings, w: string)
    requires OneWord(w)
    ensures Negotiate(s, M1, Success(w)) == (DONE, Say(CAP_END))
  {
    hide Contains;
    var ws := Numeric("903", w, SUCCESS_TAIL);
    SuccessWords(w);
    assert AllPlain(SUCCESS_TAIL) && AllPlain(More(w, SUCCESS_TAIL));
    InsideSix(":fixture", "903", w, SUCCESS_TAIL);
    Looks(ws);
    assert Success(w)[0] == ':';
  }

  /** A nick of `903` makes the failure read as a success. */
  lemma HearFailure(s: Settings, w: string)
    requires OneWord(w)
    ensures Negotiate(s, M1, Failure(w)) == if w == "903" then (DONE, Say(CAP_END)) else (GIVEN_UP, SayAndFail(CAP_END))
  {
    hide Contains;
    var ws := Numeric("904", w, FAILURE_TAIL);
    FailureWords(w);
    assert AllPlain(FAILURE_TAIL) && AllPlain(More(w, FAILURE_TAIL));
    InsideSix(":fixture", "904", w, FAILURE_TAIL);
    Looks(ws);
    assert Failure(w)[0] == ':';
  }

  // -------------------------------------------------- the endpoint, line by line

  lemma UpperSame(w: string)
    requires forall i | 0 <= i < |w| :: !('a' <= w[i] <= 'z')
    ensures Upper(w) == w
  {
  }

  /** `WORD rest` is that command with the rest as arguments. */
  lemma ServeIsObey(ep: Endpoint, v: Server, word: string, rest: string, raw: string)
    requires raw == word + " " + rest && forall i | 0 <= i < |word| :: word[i] != ' ' && !('a' <= word[i] <= 'z')
    ensures Serve(ep, v, raw) == Obey(ep, v, word, RStrip(rest))
  {
    CommandAndArgs(word, rest);
    UpperSame(word);
  }

  lemma UpperStarts(what: string, rest: string, c: char)
    requires what != "" && what[0] == c && forall i | 0 <= i < |what| :: !('a' <= what[i] <= 'z')
    ensures StartsWith(Upper(what + rest), what) && Upper(what + rest)[0] == c
  {
    assert Upper(what + rest)[..|what|] == what;
  }

  lemma ObeyCap(ep: Endpoint, v: Server, what: string, rest: string)
    requires what == "LS" || what == "REQ" || what == "END"
    ensures Obey(ep, v, "CAP", what + rest)
         == if what == "LS" then (v.(cap := true), [LS_LINE])
            else if what == "REQ" then (v, [ACK_LINE]) else MaybeRegister(ep, v.(capEnd := true))
  {
    UpperStarts(what, rest, what[0]);
    var up := Upper(what + rest);
    assert "LS"[0] == 'L' && "REQ"[0] == 'R' && "END"[0] == 'E';
    assert what != "LS" ==> !StartsWith(up, "LS");
    assert what == "END" ==> !StartsWith(up, "REQ");
  }

  lemma ServeCap(ep: Endpoint, v: Server, what: string, rest: string)
    requires what == "LS" || what == "REQ" || what == "END"
    requires RStrip(what + rest) == what + rest
    ensures Serve(ep, v, "CAP " + (what + rest))
         == if what == "LS" then (v.(cap := true), [LS_LINE])
            else if what == "REQ" then (v, [ACK_LINE]) else MaybeRegister(ep, v.(capEnd := true))
  {
    ServeIsObey(ep, v, "CAP", what + rest, "CAP " + (what + rest));
    ObeyCap(ep, v, what, rest);
  }

  lemma ObeyAuthenticate(ep: Endpoint, v: Server, arg: string)
    ensures Obey(ep, v, "AUTHENTICATE", arg) == Auth(ep, v, arg)
  {
  }

  lemma ServeAuthenticate(ep: Endpoint, v: Server, arg: string)
    requires RStrip(arg) == arg
    ensures Serve(ep, v, "AUTHENTICATE " + arg) == Auth(ep, v, arg)
  {
    ServeIsObey(ep, v, "AUTHENTICATE", arg, "AUTHENTICATE " + arg);
    ObeyAuthenticate(ep, v, arg);
  }

  lemma ObeyIgnored(ep: Endpoint, v: Server, word: string, arg: string)
    requires word == "PASS" || word == "PONG"
    ensures Obey(ep, v, word, arg) == (v, [])
  {
  }

  lemma ServePass(ep: Endpoint, v: Server, arg: string)
    ensures Serve(ep, v, "PASS " + arg) == (v, [])
  {
    ServeIsObey(ep, v, "PASS", arg, "PASS " + arg);
    ObeyIgnored(ep, v, "PASS", RStrip(arg));
  }

  lemma ServePong(ep: Endpoint, v: Server, arg: string)
    ensures Serve(ep, v, "PONG " + arg) == (v, [])
  {
    ServeIsObey(ep, v, "PONG", arg, "PONG " + arg);
    ObeyIgnored(ep, v, "PONG", RStrip(arg));
  }

  lemma ObeyNick(ep: Endpoint, v: Server, arg: string)
    requires FirstWord(LStrip(arg)) != ""
    ensures Obey(ep, v, "NICK", arg) == MaybeRegister(ep, v.(nick := Some(FirstWord(LStrip(arg)))))
  {
  }

  lemma ServeNick(ep: Endpoint, v: Server, arg: string)
    requires FirstWord(LStrip(RStrip(arg))) != ""
    ensures Serve(ep, v, "NICK " + arg) == MaybeRegister(ep, v.(nick := Some(FirstWord(LStrip(RStrip(arg))))))
  {
    ServeIsObey(ep, v, "NICK", arg, "NICK " + arg);
    ObeyNick(ep, v, RStrip(arg));
  }

  lemma ObeyUser(ep: Endpoint, v: Server, arg: string)
    requires FirstWord(arg) != ""
    ensures Obey(ep, v, "USER", arg) == MaybeRegister(ep, v.(user := Some(FirstWord(arg))))
  {
  }

  lemma ServeUser(ep: Endpoint, v: Server, arg: string)
    requires FirstWord(RStrip(arg)) != ""
    ensures Serve(ep, v, "USER " + arg) == MaybeRegister(ep, v.(user := Some(FirstWord(RStrip(arg)))))
  {
    ServeIsObey(ep, v, "USER", arg, "USER " + arg);
    ObeyUser(ep, v, RStrip(arg));
  }

  lemma ServeReq(ep: Endpoint, v: Server, raw: string)
    requires raw == CAP_REQ
    ensures Serve(ep, v, raw) == (v, [ACK_LINE])
  {
    assert RStrip("REQ" + " :sasl") == "REQ" + " :sasl" && "CAP " + ("REQ" + " :sasl") == CAP_REQ;
    ServeCap(ep, v, "REQ", " :sasl");
  }

  lemma ServeEnd(ep: Endpoint, v: Server, raw: string)
    requires raw == CAP_END
    ensures Serve(ep, v, raw) == MaybeRegister(ep, v.(capEnd := true))
  {
    assert RStrip("END" + "") == "END" + "" && "CAP " + ("END" + "") == CAP_END;
    ServeCap(ep, v, "END", "");
  }

  lemma ServePlain(ep: Endpoint, v: Server, raw: string)
    requires raw == AUTH_PLAIN
    ensures Serve(ep, v, raw) == (v, [AUTH_LINE])
  {
    assert RStrip("PLAIN") == "PLAIN" && "AUTHENTICATE " + "PLAIN" == AUTH_PLAIN;
    ServeAuthenticate(ep, v, "PLAIN");
  }

  lemma SameMessage(s: Settings, ep: Endpoint)
    requires Octets(s.saslUser) && Octets(s.saslPass) && Octets(ep.user) && Octets(ep.pass)
    ensures PlainMessage(s.saslUser, s.saslPass) == PlainMessage(ep.user, ep.pass) <==> SameCredentials(s, ep)
  {
    PayloadInjective(s.saslUser, s.saslPass, ep.user, ep.pass);
  }

  lemma ServerDecides(s: Settings, ep: Endpoint, v: Server, e: string)
    requires Octets(s.saslUser) && Octets(s.saslPass) && Octets(ep.user) && Octets(ep.pass)
    requires e == Encode(PlainMessage(s.saslUser, s.saslPass))
    ensures Auth(ep, v, e) == if SameCredentials(s, ep) then (v.(saslOk := true), [Success(NickOrStar(v))])
                              else (v, [Failure(NickOrStar(v))])
  {
    EncodeLength(PlainMessage(s.saslUser, s.saslPass));
    assert |e| != 5;
    SameMessage(s, ep);
    PayloadDecodes(s.saslUser, s.saslPass);
  }

  lemma ServePayload(s: Settings, ep: Endpoint, v: Server, raw: string)
    requires raw == Payload(s)
    requires Octets(s.saslUser) && Octets(s.saslPass) && Octets(ep.user) && Octets(ep.pass)
    ensures Serve(ep, v, raw)
         == if SameCredentials(s, ep) then (v.(saslOk := true), [Success(NickOrStar(v))])
            else (v, [Failure(NickOrStar(v))])
  {
    var e := Encode(PlainMessage(s.saslUser, s.saslPass));
    PayloadHasNoEnd(s);
    ServeAuthenticate(ep, v, e);
    ServerDecides(s, ep, v, e);
  }

  lemma ObeyJoin(ep: Endpoint, v: Server, arg: string)
    requires v.nick.Some? && FirstWord(LStrip(arg)) != ""
    ensures Obey(ep, v, "JOIN", arg) == (v, Echoes(v.nick.value, FirstWord(LStrip(arg))))
  {
  }

  lemma ServeJoin(ep: Endpoint, v: Server, arg: string)
    requires v.nick.Some? && ChannelWord(arg) != ""
    ensures Serve(ep, v, "JOIN " + arg) == (v, Echoes(v.nick.value, ChannelWord(arg)))
  {
    ServeIsObey(ep, v, "JOIN", arg, "JOIN " + arg);
    ObeyJoin(ep, v, RStrip(arg));
  }

  lemma {:induction false} FirstWordOfEnd(a: string, b: string)
    requires FirstWord(b) != ""
    ensures FirstWord(a + b) != ""
  {
    if a == "" {
      assert a + b == b;
    } else {
      assert (a + b)[1..] == a[1..] + b;
      FirstWordOfEnd(a[1..], b);
    }
  }

  /** The USER line always carries a word. */
  lemma UserWordExists(s: Settings)
    ensures UserWord(s) != ""
  {
    var tail := " 0 * :AmBot";
    var line := s.user + tail;
    assert line[|line| - 1] == tail[|tail| - 1] == 't';
    assert RStrip(line) == line;
    assert tail[0] == ' ' && tail[1..][0] == '0' && tail[1] == '0';
    FirstWordOfEnd(s.user, tail);
  }

  lemma ChannelWordExists(ch: string)
    requires ch != "" && ch[0] == '#'
    ensures ChannelWord(ch) != "" && ChannelWord(ch)[0] == '#' && OneWord(ChannelWord(ch))
  {
    RStripKeeps("#", ch[1..]);
    assert "#" + ch[1..] == ch;
  }
}
