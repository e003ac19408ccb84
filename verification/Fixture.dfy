// The IRC endpoint of ci/m9_2/fixture_server.py, without its fault injection.
module Fixture {
  import opened Text
  import opened Settings
  import opened Base64
  import opened ModernIrc
  import opened Tokens

  datatype Endpoint = Endpoint(network: string, user: string, pass: string, requireSasl: bool)

  /** The fields of `Handler`; `up` until it stops reading. */
  datatype Server = Server(nick: Option<string>, user: Option<string>, cap: bool, capEnd: bool,
                           saslOk: bool, registered: bool, up: bool)

  function Setup(ep: Endpoint): Server {
    Server(None, None, false, false, !ep.requireSasl, false, true)
  }

  // ------------------------------------------------------- Python's string calls

  /** `rstrip("\r\n")`. */
  function RStrip(s: string): string {
    if s != "" && (s[|s| - 1] == '\r' || s[|s| - 1] == '\n') then RStrip(s[..|s| - 1]) else s
  }

  /** `lstrip(":")`. */
  function LStrip(s: string): string {
    if s != "" && s[0] == ':' then LStrip(s[1..]) else s
  }

  /** ASCII white space of `str.split`. */
  predicate IsBlank(c: char) {
    c == ' ' || '\t' <= c <= '\r' || 28 <= c as int <= 31
  }

  function Lead(s: string): (r: string)
    ensures forall i | 0 <= i < |r| :: !IsBlank(r[i])
  {
    if s == "" || IsBlank(s[0]) then "" else [s[0]] + Lead(s[1..])
  }

  /** `split()[0]`; an empty result stands for the exception. */
  function FirstWord(s: string): (r: string)
    ensures forall i | 0 <= i < |r| :: !IsBlank(r[i])
  {
    if s != "" && IsBlank(s[0]) then FirstWord(s[1..]) else Lead(s)
  }

  /** The upper-cased command of a line, and what follows the first space. */
  function Command(line: string): string {
    Upper(line[..IndexOf(line, ' ')])
  }

  function Args(line: string): string {
    var i := IndexOf(line, ' ');
    if i == |line| then "" else line[i + 1..]
  }

  // ------------------------------------------------------------- the protocol

  /** `:fixture NOTICE AUTH :AmBot M9.2 deterministic fixture` */
  const NOTICE_WORDS :=
    More(":fixture", More("NOTICE", More("AUTH", More(":AmBot", More("M9.2", More("deterministic", Last("fixture")))))))
  const NOTICE_LINE := Spaced(NOTICE_WORDS)
  const LS_LINE := ":fixture CAP * LS :sasl"
  const ACK_LINE := ":fixture CAP * ACK :sasl"
  const AUTH_LINE := "AUTHENTICATE +"

  function NickOrStar(s: Server): string {
    match s.nick case Some(n) => n case None => "*"
  }

  function Success(nick: string): string { ":fixture 903 " + nick + " :SASL successful" }
  function Failure(nick: string): string { ":fixture 904 " + nick + " :SASL failed" }
  function Welcome(nick: string): string { ":fixture 001 " + nick + " :AmBot M9.2 registered" }
  function Ping(ep: Endpoint): string { "PING :M9_2_" + Upper(ep.network) }

  /** A line of the user the endpoint plays. */
  function TextLine(command: string, ch: string, text: string): string {
    ":fixture-user!test@fixture " + command + " " + ch + " " + text
  }

  function Echoes(nick: string, ch: string): seq<string> {
    [":" + nick + "!ambot@fixture JOIN :" + ch, TextLine("PRIVMSG", ch, ":M9_2_HOOK"),
     TextLine("NOTICE", ch, ":M9_2_FAILHOOK"), TextLine("PRIVMSG", ch, ":M9_2_AFTER_FAIL")]
  }

  function MaybeRegister(ep: Endpoint, s: Server): (Server, seq<string>) {
    if s.registered || s.nick == None || s.user == None || (s.cap && !s.capEnd) || !s.saslOk then (s, [])
    else (s.(registered := true), [Welcome(s.nick.value), Ping(ep)])
  }

  function Auth(ep: Endpoint, s: Server, arg: string): (Server, seq<string>) {
    if arg == "PLAIN" then (s, [AUTH_LINE])
    else if Decode(arg) == Some(PlainMessage(ep.user, ep.pass)) then (s.(saslOk := true), [Success(NickOrStar(s))])
    else (s, [Failure(NickOrStar(s))])
  }

  /** One received line: the new state and the lines sent. */
  function Serve(ep: Endpoint, s: Server, raw: string): (Server, seq<string>) {
    var line := RStrip(raw);
    Obey(ep, s, Command(line), Args(line))
  }

  /** One command with its arguments. */
  function Obey(ep: Endpoint, s: Server, cmd: string, args: string): (Server, seq<string>) {
    if cmd == "CAP" && StartsWith(Upper(args), "LS") then (s.(cap := true), [LS_LINE])
    else if cmd == "CAP" && StartsWith(Upper(args), "REQ") then (s, [ACK_LINE])
    else if cmd == "CAP" && StartsWith(Upper(args), "END") then MaybeRegister(ep, s.(capEnd := true))
    else if cmd == "AUTHENTICATE" then Auth(ep, s, args)
    else if cmd == "NICK" then
      var w := FirstWord(LStrip(args));
      if w == "" then (s.(up := false), []) else MaybeRegister(ep, s.(nick := Some(w)))
    else if cmd == "USER" then
      var w := FirstWord(args);
      if w == "" then (s.(up := false), []) else MaybeRegister(ep, s.(user := Some(w)))
    else if cmd == "JOIN" && s.nick.Some? then
      var ch := FirstWord(LStrip(args));
      if ch == "" then (s.(up := false), []) else (s, Echoes(s.nick.value, ch))
    else if cmd == "QUIT" then (s.(up := false), [])
    else (s, [])
  }

  class Handler {
    const ep: Endpoint
    var nick: Option<string>
    var user: Option<string>
    var cap: bool
    var capEnd: bool
    var saslOk: bool
    var registered: bool
    var up: bool
    var sent: seq<string>

    ghost function State(): Server
      reads this
    {
      Server(nick, user, cap, capEnd, saslOk, registered, up)
    }

    constructor (ep: Endpoint)
      ensures this.ep == ep && State() == Setup(ep) && sent == [NOTICE_LINE]
    {
      this.ep := ep;
      nick, user, cap, capEnd, saslOk, registered, up := None, None, false, false, !ep.requireSasl, false, true;
      sent := [NOTICE_LINE];
    }

    method Send(line: string)
      modifies this`sent
      ensures sent == old(sent) + [line]
    {
      sent := sent + [line];
    }

    method TryRegister()
      modifies this
      ensures State() == MaybeRegister(ep, old(State())).0
      ensures sent == old(sent) + MaybeRegister(ep, old(State())).1
    {
      if registered || nick == None || user == None {
        return;
      }
      if cap && !capEnd {
        return;
      }
      if !saslOk {
        return;
      }
      registered := true;
      Send(Welcome(nick.value));
      Send(Ping(ep));
    }

    method Authenticate(arg: string)
      modifies this
      ensures State() == Auth(ep, old(State()), arg).0 && sent == old(sent) + Auth(ep, old(State()), arg).1
    {
      var star := if nick.Some? then nick.value else "*";
      if arg == "PLAIN" {
        Send(AUTH_LINE);
        return;
      }
      var got := Decode(arg);
      if got == Some(PlainMessage(ep.user, ep.pass)) {
        saslOk := true;
        Send(Success(star));
      } else {
        Send(Failure(star));
      }
    }

    method HandleLine(raw: string)
      modifies this
      ensures State() == Serve(ep, old(State()), raw).0 && sent == old(sent) + Serve(ep, old(State()), raw).1
    {
      hide MaybeRegister, Auth, FirstWord, LStrip, RStrip;
      var line := RStrip(raw);
      var cmd, args := Command(line), Args(line);
      if cmd == "CAP" && StartsWith(Upper(args), "LS") {
        cap := true;
        Send(LS_LINE);
      } else if cmd == "CAP" && StartsWith(Upper(args), "REQ") {
        Send(ACK_LINE);
      } else if cmd == "CAP" && StartsWith(Upper(args), "END") {
        capEnd := true;
        TryRegister();
      } else if cmd == "AUTHENTICATE" {
        Authenticate(args);
      } else if cmd == "NICK" {
        var w := FirstWord(LStrip(args));
        if w == "" {
          up := false;
        } else {
          nick := Some(w);
          TryRegister();
        }
      } else if cmd == "USER" {
        var w := FirstWord(args);
        if w == "" {
          up := false;
        } else {
          user := Some(w);
          TryRegister();
        }
      } else if cmd == "JOIN" && nick.Some? {
        var ch := FirstWord(LStrip(args));
        if ch == "" {
          up := false;
        } else {
          sent := sent + Echoes(nick.value, ch);
        }
      } else if cmd == "QUIT" {
        up := false;
      }
    }
  }

  // --------------------------------------------------------- lines and commands

  /** A line without its last `\r\n`-like characters keeps everything up to another one. */
  lemma {:induction false} RStripKeeps(a: string, b: string)
    requires a != "" && a[|a| - 1] != '\r' && a[|a| - 1] != '\n'
    ensures RStrip(a + b) == a + RStrip(b)
  {
    if b == "" {
      assert a + b == a;
    } else {
      assert (a + b)[|a + b| - 1] == b[|b| - 1];
      assert (a + b)[..|a + b| - 1] == a + b[..|b| - 1];
      if b[|b| - 1] == '\r' || b[|b| - 1] == '\n' {
        RStripKeeps(a, b[..|b| - 1]);
      }
    }
  }

  predicate IsEnd(c: char) {
    c == '\r' || c == '\n'
  }

  /** Exactly the carriage returns and line feeds at the end are dropped, */
  lemma {:induction false} RStripDrops(a: string, ends: string)
    requires a == "" || !IsEnd(a[|a| - 1])
    requires forall i | 0 <= i < |ends| :: IsEnd(ends[i])
    ensures RStrip(a + ends) == a
  {
    if ends == "" {
      assert a + ends == a;
    } else {
      assert (a + ends)[..|a + ends| - 1] == a + ends[..|ends| - 1];
      assert (a + ends)[|a + ends| - 1] == ends[|ends| - 1];
      RStripDrops(a, ends[..|ends| - 1]);
    }
  }

  /** the colons at the front, */
  lemma {:induction false} LStripDrops(colons: string, a: string)
    requires (forall i | 0 <= i < |colons| :: colons[i] == ':') && (a == "" || a[0] != ':')
    ensures LStrip(colons + a) == a
  {
    if colons == "" {
      assert colons + a == a;
    } else {
      assert (colons + a)[1..] == colons[1..] + a;
      LStripDrops(colons[1..], a);
    }
  }

  /** and a first word stands between white space. */
  lemma {:induction false} FirstWordOf(blanks: string, word: string, rest: string)
    requires forall i | 0 <= i < |blanks| :: blanks[i] as int in {9, 10, 11, 12, 13, 28, 29, 30, 31, 32}
    requires forall i | 0 <= i < |word| :: word[i] as int !in {9, 10, 11, 12, 13, 28, 29, 30, 31, 32}
    requires rest == "" || rest[0] as int in {9, 10, 11, 12, 13, 28, 29, 30, 31, 32}
    requires word == "" ==> rest == ""
    ensures FirstWord(blanks + (word + rest)) == word
    decreases |blanks|
  {
    if blanks == "" {
      assert blanks + (word + rest) == word + rest;
      LeadOf(word, rest);
    } else {
      assert (blanks + (word + rest))[1..] == blanks[1..] + (word + rest);
      FirstWordOf(blanks[1..], word, rest);
    }
  }

  lemma {:induction false} LeadOf(word: string, rest: string)
    requires forall i | 0 <= i < |word| :: word[i] as int !in {9, 10, 11, 12, 13, 28, 29, 30, 31, 32}
    requires rest == "" || rest[0] as int in {9, 10, 11, 12, 13, 28, 29, 30, 31, 32}
    ensures Lead(word + rest) == word
  {
    if word == "" {
      assert word + rest == rest;
    } else {
      assert (word + rest)[1..] == word[1..] + rest && (word + rest)[0] == word[0];
      LeadOf(word[1..], rest);
    }
  }

  /** The command and arguments of `word rest`. */
  lemma CommandAndArgs(word: string, rest: string)
    requires ' ' !in word
    ensures var line := RStrip(word + " " + rest);
            Command(line) == Upper(word) && Args(line) == RStrip(rest)
  {
    RStripKeeps(word + " ", rest);
    var line := word + " " + RStrip(rest);
    assert line[..|word|] == word && line[|word|] == ' ' && line[|word| + 1..] == RStrip(rest);
    IndexOfUnique(line, ' ', |word|);
  }
}
