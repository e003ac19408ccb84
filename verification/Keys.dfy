// What the lines of a configuration file do, key by key and size by size, and which networks come of
// it: src/config.c:29-204, src/networks.c:48-119.
module Keys {
  import opened Text
  import opened Settings
  import opened Config
  import opened Files
  import opened Networks

  // ------------------------------------------------------------- the names of the keys

  function NameOf(k: Key): string {
    match k
    case Host => "HOST"
    case Port => "PORT"
    case Nick => "NICK"
    case User => "USER"
    case Pass => "PASS"
    case Owner => "OWNER"
    case HookDir => "HOOK_DIR"
    case ModuleDir => "MODULE_DIR"
    case Upstream => "UPSTREAM"
    case AmbncHost => "AMBNC_HOST"
    case AmbncPort => "AMBNC_PORT"
    case Cap => "CAP"
    case Sasl => "SASL"
    case SaslUser => "SASL_USER"
    case SaslPass => "SASL_PASS"
    case Tls => "TLS"
    case BotUrl => "BOTAI_URL"
    case BotExpert => "BOTAI_EXPERT"
    case BotTimeout => "BOTAI_TIMEOUT"
    case Channel => "CHANNEL"
  }

  const LETTERS := "ABCDEFGHIJKLMNOPQRSTUVWXYZ"

  /** Letters are told apart without their case. */
  lemma UpperLetters(c: char)
    ensures 'a' <= c <= 'z' ==> ToUpper(c) == LETTERS[c as int - 97]
    ensures !('a' <= c <= 'z') ==> ToUpper(c) == c
  {
    assert forall i | 0 <= i < 26 :: LETTERS[i] == (i + 65) as char;
  }

  /** Enough of a name to tell it from the others. */
  function Mark(name: string): (int, char, char, char)
    requires |name| >= 3
  {
    (|name|, name[0], name[|name| - 1], if |name| == 10 then name[6] else ' ')
  }

  lemma Marks(k: Key)
    ensures |NameOf(k)| >= 3
    ensures Mark(NameOf(k)) == match k
              case Host => (4, 'H', 'T', ' ')
              case Port => (4, 'P', 'T', ' ')
              case Nick => (4, 'N', 'K', ' ')
              case User => (4, 'U', 'R', ' ')
              case Pass => (4, 'P', 'S', ' ')
              case Owner => (5, 'O', 'R', ' ')
              case HookDir => (8, 'H', 'R', ' ')
              case ModuleDir => (10, 'M', 'R', '_')
              case Upstream => (8, 'U', 'M', ' ')
              case AmbncHost => (10, 'A', 'T', 'H')
              case AmbncPort => (10, 'A', 'T', 'P')
              case Cap => (3, 'C', 'P', ' ')
              case Sasl => (4, 'S', 'L', ' ')
              case SaslUser => (9, 'S', 'R', ' ')
              case SaslPass => (9, 'S', 'S', ' ')
              case Tls => (3, 'T', 'S', ' ')
              case BotUrl => (9, 'B', 'L', ' ')
              case BotExpert => (12, 'B', 'T', ' ')
              case BotTimeout => (13, 'B', 'T', ' ')
              case Channel => (7, 'C', 'L', ' ')
  {
  }

  lemma NamesDiffer(j: Key, k: Key)
    ensures NameOf(j) == NameOf(k) <==> j == k
  {
    hide NameOf, Mark;
    Marks(j);
    Marks(k);
  }

  predicate NoSmall(s: string) {
    forall i | 0 <= i < |s| :: !('a' <= s[i] <= 'z')
  }

  lemma NamesAreCapital(k: Key)
    ensures NoSmall(NameOf(k))
  {
  }

  lemma CapitalsStay(s: string)
    requires NoSmall(s)
    ensures Upper(s) == s
  {
  }

  predicate IsName(s: string, k: Key) {
    Upper(s) == NameOf(k)
  }

  lemma OneKey(s: string, k: Key)
    ensures KeyEqual(s, NameOf(k)) == IsName(s, k)
  {
    hide NameOf, Upper, NoSmall;
    NamesAreCapital(k);
    CapitalsStay(NameOf(k));
  }

  lemma FindsFirst(s: string)
    ensures FindKey(s) == if IsName(s, Host) then Some(Host)
                          else if IsName(s, Port) then Some(Port)
                          else if IsName(s, Nick) then Some(Nick)
                          else if IsName(s, User) then Some(User)
                          else if IsName(s, Pass) then Some(Pass)
                          else if IsName(s, Owner) then Some(Owner)
                          else if IsName(s, HookDir) then Some(HookDir)
                          else if IsName(s, ModuleDir) then Some(ModuleDir)
                          else if IsName(s, Upstream) then Some(Upstream)
                          else if IsName(s, AmbncHost) then Some(AmbncHost)
                          else if IsName(s, AmbncPort) then Some(AmbncPort)
                          else if IsName(s, Cap) then Some(Cap)
                          else if IsName(s, Sasl) then Some(Sasl)
                          else if IsName(s, SaslUser) then Some(SaslUser)
                          else if IsName(s, SaslPass) then Some(SaslPass)
                          else if IsName(s, Tls) then Some(Tls)
                          else if IsName(s, BotUrl) then Some(BotUrl)
                          else if IsName(s, BotExpert) then Some(BotExpert)
                          else if IsName(s, BotTimeout) then Some(BotTimeout)
                          else if IsName(s, Channel) then Some(Channel)
                          else None
  {
    hide KeyEqual, IsName, Upper;
    OneKey(s, Host);
    OneKey(s, Port);
    OneKey(s, Nick);
    OneKey(s, User);
    OneKey(s, Pass);
    OneKey(s, Owner);
    OneKey(s, HookDir);
    OneKey(s, ModuleDir);
    OneKey(s, Upstream);
    OneKey(s, AmbncHost);
    OneKey(s, AmbncPort);
    OneKey(s, Cap);
    OneKey(s, Sasl);
    OneKey(s, SaslUser);
    OneKey(s, SaslPass);
    OneKey(s, Tls);
    OneKey(s, BotUrl);
    OneKey(s, BotExpert);
    OneKey(s, BotTimeout);
    OneKey(s, Channel);
  }

  lemma OneName(s: string, j: Key, k: Key)
    requires IsName(s, k)
    ensures IsName(s, j) <==> j == k
  {
    hide NameOf, Upper;
    NamesDiffer(j, k);
  }

  /** A key is found exactly under its own name, whatever the case of its letters. */
  lemma FindKeyExactly(s: string, k: Key)
    ensures FindKey(s) == Some(k) <==> Upper(s) == NameOf(k)
  {
    hide FindKey, NameOf, Upper, IsName;
    FindsFirst(s);
    if IsName(s, k) {
      forall j: Key
        ensures IsName(s, j) <==> j == k
      {
        OneName(s, j, k);
      }
    }
    NameIs(s, k);
  }

  lemma NameIs(s: string, k: Key)
    ensures IsName(s, k) <==> Upper(s) == NameOf(k)
  {
  }

  // ------------------------------------------------------------- what an assignment stores

  /** The words that switch something on. */
  predicate SaysOn(value: string) {
    Upper(value) == "ON" || Upper(value) == "YES" || Upper(value) == "TRUE" || value == "1"
  }

  lemma Words(value: string)
    ensures Enabled(value) == SaysOn(value)
    ensures KeyEqual(value, "AMBNC") == (Upper(value) == "AMBNC")
    ensures KeyEqual(value, "PLAIN") == (Upper(value) == "PLAIN")
    ensures KeyEqual(value, "UPSTREAM") == (Upper(value) == "UPSTREAM")
  {
    assert Upper("ON") == "ON" && Upper("YES") == "YES" && Upper("TRUE") == "TRUE";
    assert Upper("AMBNC") == "AMBNC" && Upper("PLAIN") == "PLAIN" && Upper("UPSTREAM") == "UPSTREAM";
  }

  function Taken(value: string, kept: nat): nat {
    match PortValue(value) case Some(n) => n case None => kept
  }

  /** Field by field: each text is cut to its buffer, a number that is not a port is not taken, and a
      section (`!bot`) ignores the three keys of the bot service. */
  function Assigned(s: Settings, k: Key, v: string, bot: bool): Settings {
    match k
    case Host => s.(host := Fit(v, 127))
    case Port => s.(port := Taken(v, s.port))
    case Nick => s.(nick := Fit(v, 31))
    case User => s.(user := Fit(v, 31))
    case Pass => s.(pass := Fit(v, 63))
    case Owner => s.(owner := Fit(v, 31))
    case HookDir => s.(hookDir := Fit(v, 127))
    case ModuleDir => s.(moduleDir := Fit(v, 127))
    case Upstream => s.(useAmbnc := Upper(v) == "AMBNC")
    case AmbncHost => s.(ambncHost := Fit(v, 127))
    case AmbncPort => s.(ambncPort := Taken(v, s.ambncPort))
    case Cap => s.(cap := SaysOn(v))
    case Sasl => s.(sasl := Upper(v) == "PLAIN")
    case SaslUser => s.(saslUser := Fit(v, 31))
    case SaslPass => s.(saslPass := Fit(v, 63))
    case Tls => s.(tls := Upper(v) == "UPSTREAM")
    case BotUrl => if bot then s.(botUrl := Fit(v, 255)) else s
    case BotExpert => if bot then s.(botExpert := Fit(v, 31)) else s
    case BotTimeout => if bot then s.(botTimeout := Taken(v, s.botTimeout)) else s
    case Channel => if |s.channels| < 16 then s.(channels := s.channels + [Fit(v, 63)]) else s
  }

  lemma AppliesTexts(s: Settings, k: Key, v: string, bot: bool)
    requires !IsPort(k) && !IsFlag(k)
    ensures Apply(s, k, v, bot) == Assigned(s, k, v, bot)
  {
    hide Fit;
  }

  lemma AppliesNumbers(s: Settings, k: Key, v: string, bot: bool)
    requires IsPort(k)
    ensures Apply(s, k, v, bot) == Assigned(s, k, v, bot)
  {
    hide Fit, PortValue, Enabled, KeyEqual, SaysOn, Upper;
  }

  lemma AppliesFlags(s: Settings, k: Key, v: string, bot: bool)
    requires IsFlag(k)
    ensures Apply(s, k, v, bot) == Assigned(s, k, v, bot)
  {
    hide Fit, PortValue, Enabled, KeyEqual, SaysOn, Upper;
    Words(v);
  }

  lemma AppliesExactly(s: Settings, k: Key, v: string, bot: bool)
    ensures Apply(s, k, v, bot) == Assigned(s, k, v, bot)
  {
    hide Apply, Assigned;
    if IsPort(k) {
      AppliesNumbers(s, k, v, bot);
    } else if IsFlag(k) {
      AppliesFlags(s, k, v, bot);
    } else {
      AppliesTexts(s, k, v, bot);
    }
  }

  /** Leading zeros change nothing. */
  lemma ZerosFirst(zeros: string, n: nat, rest: string)
    requires forall i | 0 <= i < |zeros| :: zeros[i] == '0'
    requires rest == "" || !('0' <= rest[0] <= '9')
    ensures PortValue(zeros + (Decimal(n) + rest)) == if 0 < n <= 65535 then Some(n) else None
  {
    hide Decimal;
    var number := Decimal(n) + rest;
    assert number[0] == Decimal(n)[0];
    assert (zeros + number)[0] == if zeros == "" then number[0] else zeros[0];
    ZerosAreZero(zeros);
    DigitsOf(zeros, number, 0);
    DigitsOf(Decimal(n), rest, 0);
    DecimalDigits(n);
  }

  lemma {:induction false} ZerosAreZero(zeros: string)
    requires forall i | 0 <= i < |zeros| :: zeros[i] == '0'
    ensures Digits(zeros, 0) == 0
  {
    if zeros != "" {
      ZerosAreZero(zeros[1..]);
    }
  }

  /** White space in the sense of `isspace`: space, tab, line feed, vertical tab, form feed, return. */
  lemma WhiteSpace(c: char)
    ensures IsSpace(c) <==> c as int in {32, 9, 10, 11, 12, 13}
  {
  }

  /** A text with no digit where the number should be gives no port. */
  lemma NoNumber(blanks: string, sign: string, rest: string)
    requires Blanks(blanks) && (sign == "" || sign == "+" || sign == "-")
    requires rest == "" || !('0' <= rest[0] <= '9' || rest[0] == '+' || rest[0] == '-' || IsSpace(rest[0]))
    ensures PortValue(blanks + (sign + rest)) == None
  {
    var text := sign + rest;
    PastBlanks(blanks, text);
    if sign != "" {
      assert text[0] == sign[0] && text[1..] == rest;
    } else {
      assert text == rest;
    }
  }

  // ------------------------------------------------------------- what a line says

  /** Trimming takes the white space at both ends and nothing else. */
  lemma TrimmedSplits(piece: string) returns (a: string, b: string)
    ensures Blanks(a) && Blanks(b) && Bare(Trimmed(piece)) && piece == a + Trimmed(piece) + b
  {
    var start := InkFrom(piece, 0);
    var end := InkUpTo(piece, start, |piece|);
    BlankFront(piece, 0);
    BlankBack(piece, start, |piece|);
    a, b := piece[..start], piece[end..];
  }

  lemma {:induction false} BlankFront(s: string, i: nat)
    requires i <= |s|
    ensures forall m | i <= m < InkFrom(s, i) :: IsSpace(s[m])
    decreases |s| - i
  {
    if i < |s| && IsSpace(s[i]) {
      BlankFront(s, i + 1);
    }
  }

  lemma {:induction false} BlankBack(s: string, lo: nat, hi: nat)
    requires lo <= hi <= |s|
    ensures forall m | InkUpTo(s, lo, hi) <= m < hi :: IsSpace(s[m])
    decreases hi
  {
    if hi > lo && IsSpace(s[hi - 1]) {
      BlankBack(s, lo, hi - 1);
    }
  }

  lemma NotThere(s: string, c: char)
    requires c !in s
    ensures IndexOf(s, c) == |s|
  {
    assert s[..|s|] == s;
    IndexOfUnique(s, c, |s|);
  }

  /** Empty lines, notes, a bracket that is not closed, and lines without an equals sign say nothing. */
  lemma SaysNothing(piece: string)
    requires var x := Trimmed(piece);
             x == "" || x[0] == '#' || x[0] == ';' || (if x[0] == '[' then ']' !in x else '=' !in x)
    ensures Parse(piece) == Blank
  {
    var x := Trimmed(piece);
    if x != "" && ']' !in x {
      NotThere(x, ']');
    }
    if x != "" && '=' !in x {
      NotThere(x, '=');
    }
  }

  /** A closed bracket is a header exactly when it holds the word NETWORK, one space and a name; what
      follows the bracket does not matter. */
  lemma SaysHeader(piece: string, inside: string, rest: string)
    requires Trimmed(piece) == "[" + inside + ("]" + rest) && ']' !in inside
    ensures var inner := Trimmed(inside);
            Parse(piece) == if |inner| > 8 && inner[..8] == "NETWORK " then Header(Trimmed(inner[8..])) else Blank
  {
    hide Trimmed;
    var x := "[" + inside + ("]" + rest);
    assert x[0] == '[' && x[..1 + |inside|] == "[" + inside && x[1 + |inside|] == ']' && x[1..1 + |inside|] == inside;
    IndexOfUnique(x, ']', 1 + |inside|);
    assert |"NETWORK "| == 8;
  }

  /** Any other line is cut at its first equals sign: it assigns the text on the right to the key on
      the left exactly when that is the name of a key. */
  lemma SaysAssign(piece: string, left: string, right: string, k: Key)
    requires Trimmed(piece) == left + "=" + right && '=' !in left
    requires left == "" || (left[0] != '#' && left[0] != ';' && left[0] != '[')
    ensures Upper(Trimmed(left)) == NameOf(k) ==> Parse(piece) == Assign(k, Trimmed(right))
    ensures (forall j: Key :: Upper(Trimmed(left)) != NameOf(j)) ==> Parse(piece) == Blank
  {
    hide Trimmed, FindKey, NameOf, Upper;
    var x := left + "=" + right;
    assert x[0] == if left == "" then '=' else left[0];
    assert x[..|left|] == left && x[|left|] == '=' && x[|left| + 1..] == right;
    IndexOfUnique(x, '=', |left|);
    FindKeyExactly(Trimmed(left), k);
    if FindKey(Trimmed(left)).Some? {
      FindKeyExactly(Trimmed(left), FindKey(Trimmed(left)).value);
    }
  }

  /** What a header does: the first four open a section that inherits from the globals, the others are
      counted, and their keys go to the globals. */
  lemma HeaderOpens(s: Scanner, name: string)
    ensures var t, nets := Step(s, Header(name)), s.cfg.networks;
            && t.cfg.globals == s.cfg.globals
            && if |nets| < 4 then
                 t.current && t.cfg.networks == nets + [Network(Fit(name, 31), Defaults(s.cfg.globals))]
                 && t.cfg.skipped == s.cfg.skipped
               else !t.current && t.cfg.networks == nets && t.cfg.skipped == s.cfg.skipped + 1
  {
  }

  // ------------------------------------------------------------- which networks run

  /** TLS needs the bouncer, SASL a user and a password. */
  predicate Allowed(s: Settings) {
    && (s.tls ==> s.useAmbnc)
    && (s.sasl ==> |s.saslUser| > 0 && |s.saslPass| > 0)
  }

  /** A network runs exactly when its section is allowed, and it runs as it was written. */
  lemma {:induction false} AcceptedExactly(networks: seq<Network>, n: Network)
    requires forall i | 0 <= i < |networks| :: WholeNetwork(networks[i])
    ensures n in Accepted(networks) <==> n in networks && Allowed(n.settings)
  {
    hide WholeNetwork, CopyNetwork, Allowed;
    if networks != [] {
      var front, last := networks[..|networks| - 1], networks[|networks| - 1];
      AcceptedExactly(front, n);
      NothingTruncated(last);
      SecureAllowed(last.settings);
      assert networks == front + [last];
    }
  }

  lemma SecureAllowed(s: Settings)
    ensures Secure(s) == Allowed(s)
  {
  }

  /** The one network of a configuration without sections is called `default` and is the globals,
      except for the bot service. */
  lemma LegacyIs(g: Settings)
    requires Bounded(g)
    ensures Legacy(g) == Network("default", g.(botUrl := "", botExpert := "", botTimeout := 0))
  {
    hide Bounded, Fit, CopyAll;
    TextsFit(g);
    ChannelsWhole(g.channels);
    FitWhole("default", 31);
    FitWhole(g.host, 127);
    FitWhole(g.nick, 31);
    FitWhole(g.user, 31);
    FitWhole(g.pass, 63);
    FitWhole(g.owner, 31);
    FitWhole(g.hookDir, 127);
    FitWhole(g.moduleDir, 127);
    FitWhole(g.ambncHost, 127);
    FitWhole(g.saslUser, 31);
    FitWhole(g.saslPass, 63);
  }

  /** What the program starts with, before it reads a file. */
  lemma SeedIs(host: string, port: nat, nick: string, user: string, pass: string, owner: string)
    requires port <= 65535
    requires |host| <= 127 && |nick| <= 31 && |user| <= 31 && |pass| <= 63 && |owner| <= 31
    ensures var s := Seeded(host, port, nick, user, pass, owner);
            && s.host == host && s.nick == nick && s.pass == pass && s.owner == owner && s.channels == []
            && (port > 0 ==> s.port == port) && (port == 0 ==> s.port == 6667) && s.ambncPort == 6667
            && (user != "" ==> s.user == user) && (user == "" ==> s.user == nick)
            && s.cap && !s.sasl && !s.tls && !s.useAmbnc && s.saslUser == "" && s.saslPass == "" && s.ambncHost == ""
            && s.hookDir == "REXX:AmBot" && s.moduleDir == "REXX:AmBot/Modules"
            && s.botUrl == "" && s.botExpert == "auto" && s.botTimeout == 30
  {
  }
}
