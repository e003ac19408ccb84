// include/config.h and the value rules of src/config.c: one settings record serves the
// global part of the configuration and each NETWORK section.
module Settings {
  import opened Text

  /** Keys of the configuration file, in the order of the comparison chain. */
  datatype Key =
    | Host | Port | Nick | User | Pass | Owner | HookDir | ModuleDir | Upstream
    | AmbncHost | AmbncPort | Cap | Sasl | SaslUser | SaslPass | Tls
    | BotUrl | BotExpert | BotTimeout | Channel

  datatype Value = Str(s: string) | Num(n: nat) | Flag(on: bool)

  /** Both structures of include/config.h: a section never uses the three BotAI fields,
      which stay as the zeroing of the structure leaves them. */
  datatype Settings = Settings(
    host: string, port: nat, nick: string, user: string, pass: string, owner: string,
    hookDir: string, moduleDir: string, useAmbnc: bool, ambncHost: string, ambncPort: nat,
    cap: bool, sasl: bool, saslUser: string, saslPass: string, tls: bool,
    botUrl: string, botExpert: string, botTimeout: nat, channels: seq<string>)

  const CHANNELS_MAX := 16
  const CHANNEL_MAX := 63
  const NAME_MAX := 31

  /** Longest text each buffer holds. */
  function Max(k: Key): nat {
    match k
    case Nick | User | Owner | SaslUser | BotExpert => 31
    case Pass | SaslPass => 63
    case BotUrl => 255
    case _ => 127
  }

  function Get(s: Settings, k: Key): Value
    requires k != Channel
  {
    match k
    case Host => Str(s.host)
    case Port => Num(s.port)
    case Nick => Str(s.nick)
    case User => Str(s.user)
    case Pass => Str(s.pass)
    case Owner => Str(s.owner)
    case HookDir => Str(s.hookDir)
    case ModuleDir => Str(s.moduleDir)
    case Upstream => Flag(s.useAmbnc)
    case AmbncHost => Str(s.ambncHost)
    case AmbncPort => Num(s.ambncPort)
    case Cap => Flag(s.cap)
    case Sasl => Flag(s.sasl)
    case SaslUser => Str(s.saslUser)
    case SaslPass => Str(s.saslPass)
    case Tls => Flag(s.tls)
    case BotUrl => Str(s.botUrl)
    case BotExpert => Str(s.botExpert)
    case BotTimeout => Num(s.botTimeout)
  }

  predicate IsPort(k: Key) { k.Port? || k.AmbncPort? || k.BotTimeout? }
  predicate IsFlag(k: Key) { k.Upstream? || k.Cap? || k.Sasl? || k.Tls? }
  predicate IsBot(k: Key) { k.BotUrl? || k.BotExpert? || k.BotTimeout? }

  /** `v` has the type of key `k`. */
  predicate Fits(k: Key, v: Value) {
    k != Channel && if IsPort(k) then v.Num? else if IsFlag(k) then v.Flag? else v.Str?
  }

  function Put(s: Settings, k: Key, v: Value): Settings
    requires Fits(k, v)
  {
    match k
    case Host => s.(host := v.s)
    case Port => s.(port := v.n)
    case Nick => s.(nick := v.s)
    case User => s.(user := v.s)
    case Pass => s.(pass := v.s)
    case Owner => s.(owner := v.s)
    case HookDir => s.(hookDir := v.s)
    case ModuleDir => s.(moduleDir := v.s)
    case Upstream => s.(useAmbnc := v.on)
    case AmbncHost => s.(ambncHost := v.s)
    case AmbncPort => s.(ambncPort := v.n)
    case Cap => s.(cap := v.on)
    case Sasl => s.(sasl := v.on)
    case SaslUser => s.(saslUser := v.s)
    case SaslPass => s.(saslPass := v.s)
    case Tls => s.(tls := v.on)
    case BotUrl => s.(botUrl := v.s)
    case BotExpert => s.(botExpert := v.s)
    case BotTimeout => s.(botTimeout := v.n)
  }

  lemma GetPutSame(s: Settings, k: Key, v: Value)
    requires Fits(k, v)
    ensures Get(Put(s, k, v), k) == v && Put(s, k, v).channels == s.channels
  {
  }

  lemma GetPut(s: Settings, k: Key, v: Value, j: Key)
    requires Fits(k, v) && j != Channel
    ensures Get(Put(s, k, v), j) == if j == k then v else Get(s, j)
    ensures Put(s, k, v).channels == s.channels
  {
    hide Get, Put;
    if j == k {
      GetPutSame(s, k, v);
    } else {
      match v {
        case Num(_) => GetPutNumber(s, k, v, j);
        case Flag(_) => GetPutFlag(s, k, v, j);
        case Str(_) => GetPutText(s, k, v, j);
      }
    }
  }

  lemma GetPutNumber(s: Settings, k: Key, v: Value, j: Key)
    requires Fits(k, v) && v.Num? && j != Channel && j != k
    ensures Get(Put(s, k, v), j) == Get(s, j) && Put(s, k, v).channels == s.channels
  {
  }

  lemma GetPutFlag(s: Settings, k: Key, v: Value, j: Key)
    requires Fits(k, v) && v.Flag? && j != Channel && j != k
    ensures Get(Put(s, k, v), j) == Get(s, j) && Put(s, k, v).channels == s.channels
  {
  }

  lemma GetPutText(s: Settings, k: Key, v: Value, j: Key)
    requires Fits(k, v) && v.Str? && j != Channel && j != k
    ensures Get(Put(s, k, v), j) == Get(s, j) && Put(s, k, v).channels == s.channels
  {
  }

  lemma SameTexts(a: Settings, b: Settings)
    requires Get(a, Host) == Get(b, Host) && Get(a, Nick) == Get(b, Nick) && Get(a, User) == Get(b, User)
    requires Get(a, Pass) == Get(b, Pass) && Get(a, Owner) == Get(b, Owner) && Get(a, HookDir) == Get(b, HookDir)
    requires Get(a, ModuleDir) == Get(b, ModuleDir) && Get(a, AmbncHost) == Get(b, AmbncHost)
    requires Get(a, SaslUser) == Get(b, SaslUser) && Get(a, SaslPass) == Get(b, SaslPass)
    requires Get(a, BotUrl) == Get(b, BotUrl) && Get(a, BotExpert) == Get(b, BotExpert)
    ensures a.host == b.host && a.nick == b.nick && a.user == b.user && a.pass == b.pass && a.owner == b.owner
    ensures a.hookDir == b.hookDir && a.moduleDir == b.moduleDir && a.ambncHost == b.ambncHost
    ensures a.saslUser == b.saslUser && a.saslPass == b.saslPass && a.botUrl == b.botUrl && a.botExpert == b.botExpert
  {
  }

  lemma SameOthers(a: Settings, b: Settings)
    requires Get(a, Port) == Get(b, Port) && Get(a, AmbncPort) == Get(b, AmbncPort)
    requires Get(a, BotTimeout) == Get(b, BotTimeout) && Get(a, Upstream) == Get(b, Upstream)
    requires Get(a, Cap) == Get(b, Cap) && Get(a, Sasl) == Get(b, Sasl) && Get(a, Tls) == Get(b, Tls)
    ensures a.port == b.port && a.ambncPort == b.ambncPort && a.botTimeout == b.botTimeout
    ensures a.useAmbnc == b.useAmbnc && a.cap == b.cap && a.sasl == b.sasl && a.tls == b.tls
  {
  }

  /** A record is its fields. */
  lemma SameSettings(a: Settings, b: Settings)
    requires a.channels == b.channels
    requires forall k: Key | k != Channel :: Get(a, k) == Get(b, k)
    ensures a == b
  {
    SameTexts(a, b);
    SameOthers(a, b);
  }

  // ------------------------------------------------------------ value rules

  predicate IsSpace(c: char) {
    c == ' ' || '\t' <= c <= '\r'
  }

  function ToUpper(c: char): char {
    if 'a' <= c <= 'z' then c - 'a' + 'A' else c
  }

  function Upper(s: string): (r: string)
    ensures |r| == |s| && forall i | 0 <= i < |s| :: r[i] == ToUpper(s[i])
  {
    seq(|s|, i requires 0 <= i < |s| => ToUpper(s[i]))
  }

  /** `key_equal`: equality up to ASCII case. */
  predicate KeyEqual(a: string, b: string) {
    Upper(a) == Upper(b)
  }

  predicate Enabled(value: string) {
    KeyEqual(value, "ON") || KeyEqual(value, "YES") || KeyEqual(value, "TRUE") || value == "1"
  }

  /** The decimal number at the front of a text. */
  function Digits(s: string, sofar: nat): nat {
    if s == "" || !('0' <= s[0] <= '9') then sofar
    else Digits(s[1..], sofar * 10 + (s[0] as int - '0' as int))
  }

  /** `parse_port` through `strtol`: None where the old number is kept. `strtol`
      saturates, which cannot bring an overflow back into range. */
  function PortValue(value: string): (r: Option<nat>)
    ensures r.Some? ==> 0 < r.value <= 65535
  {
    if value != "" && IsSpace(value[0]) then PortValue(value[1..])
    else if value != "" && value[0] == '-' then None
    else
      var n := Digits(if value != "" && value[0] == '+' then value[1..] else value, 0);
      if 0 < n <= 65535 then Some(n) else None
  }

  /** What assigning `value` to key `k` stores, if it stores anything. */
  function Stored(k: Key, value: string): (r: Option<Value>)
    ensures r.Some? ==> Fits(k, r.value)
    ensures r.None? ==> k == Channel || IsPort(k)
  {
    match k
    case Channel => None
    case Port | AmbncPort | BotTimeout =>
      (match PortValue(value) case Some(n) => Some(Num(n)) case None => None)
    case Upstream => Some(Flag(KeyEqual(value, "AMBNC")))
    case Cap => Some(Flag(Enabled(value)))
    case Sasl => Some(Flag(KeyEqual(value, "PLAIN")))
    case Tls => Some(Flag(KeyEqual(value, "UPSTREAM")))
    case _ => Some(Str(Fit(value, Max(k))))
  }

  function Decimal(n: nat): (s: string)
    ensures s != "" && forall i | 0 <= i < |s| :: '0' <= s[i] <= '9'
  {
    (if n < 10 then "" else Decimal(n / 10)) + [(n % 10) as char + '0']
  }

  lemma {:induction false} DigitsOf(front: string, rest: string, sofar: nat)
    requires forall i | 0 <= i < |front| :: '0' <= front[i] <= '9'
    ensures Digits(front + rest, sofar) == Digits(rest, Digits(front, sofar))
    decreases |front|
  {
    if front == "" {
      assert front + rest == rest;
    } else {
      assert (front + rest)[1..] == front[1..] + rest;
      DigitsOf(front[1..], rest, sofar * 10 + (front[0] as int - '0' as int));
    }
  }

  lemma {:induction false} DecimalDigits(n: nat)
    ensures Digits(Decimal(n), 0) == n
  {
    var last := [(n % 10) as char + '0'];
    assert last[1..] == "";
    if n < 10 {
      assert Decimal(n) == last;
    } else {
      DecimalDigits(n / 10);
      DigitsOf(Decimal(n / 10), last, 0);
    }
  }

  lemma SignedPort(sign: string, n: nat, rest: string)
    requires sign == "" || sign == "+" || sign == "-"
    requires rest == "" || !('0' <= rest[0] <= '9')
    ensures PortValue(sign + (Decimal(n) + rest)) == if sign != "-" && 0 < n <= 65535 then Some(n) else None
  {
    hide Decimal;
    var number := Decimal(n) + rest;
    var text := sign + number;
    assert sign != "" ==> text[0] == sign[0] && text[1..] == number;
    assert sign == "" ==> text == number;
    assert number[0] == Decimal(n)[0];
    DecimalDigits(n);
    DigitsOf(Decimal(n), rest, 0);
  }

  lemma {:induction false} PastBlanks(blanks: string, text: string)
    requires forall i | 0 <= i < |blanks| :: IsSpace(blanks[i])
    ensures PortValue(blanks + text) == PortValue(text)
  {
    hide Digits;
    if blanks == "" {
      assert blanks + text == text;
    } else {
      assert (blanks + text)[1..] == blanks[1..] + text;
      PastBlanks(blanks[1..], text);
    }
  }

  /** A port is read back from its decimal form, after white space and a sign and whatever follows;
      a number out of range is not taken, and neither is one with a minus sign. */
  lemma PortReads(blanks: string, sign: string, n: nat, rest: string)
    requires forall i | 0 <= i < |blanks| :: IsSpace(blanks[i])
    requires sign == "" || sign == "+" || sign == "-"
    requires rest == "" || !('0' <= rest[0] <= '9')
    ensures PortValue(blanks + (sign + (Decimal(n) + rest)))
         == if sign != "-" && 0 < n <= 65535 then Some(n) else None
  {
    hide PortValue, Decimal, IsSpace;
    PastBlanks(blanks, sign + (Decimal(n) + rest));
    SignedPort(sign, n, rest);
  }

  function FindKey(s: string): Option<Key> {
    if KeyEqual(s, "HOST") then Some(Host)
    else if KeyEqual(s, "PORT") then Some(Port)
    else if KeyEqual(s, "NICK") then Some(Nick)
    else if KeyEqual(s, "USER") then Some(User)
    else if KeyEqual(s, "PASS") then Some(Pass)
    else if KeyEqual(s, "OWNER") then Some(Owner)
    else if KeyEqual(s, "HOOK_DIR") then Some(HookDir)
    else if KeyEqual(s, "MODULE_DIR") then Some(ModuleDir)
    else if KeyEqual(s, "UPSTREAM") then Some(Upstream)
    else if KeyEqual(s, "AMBNC_HOST") then Some(AmbncHost)
    else if KeyEqual(s, "AMBNC_PORT") then Some(AmbncPort)
    else if KeyEqual(s, "CAP") then Some(Cap)
    else if KeyEqual(s, "SASL") then Some(Sasl)
    else if KeyEqual(s, "SASL_USER") then Some(SaslUser)
    else if KeyEqual(s, "SASL_PASS") then Some(SaslPass)
    else if KeyEqual(s, "TLS") then Some(Tls)
    else if KeyEqual(s, "BOTAI_URL") then Some(BotUrl)
    else if KeyEqual(s, "BOTAI_EXPERT") then Some(BotExpert)
    else if KeyEqual(s, "BOTAI_TIMEOUT") then Some(BotTimeout)
    else if KeyEqual(s, "CHANNEL") then Some(Channel)
    else None
  }

  /** One `KEY=value` applied to the globals (`bot`) or to a section. */
  function Apply(s: Settings, k: Key, value: string, bot: bool): Settings {
    if k == Channel then
      if |s.channels| < CHANNELS_MAX then s.(channels := s.channels + [Fit(value, CHANNEL_MAX)]) else s
    else if IsBot(k) && !bot then s
    else
      match Stored(k, value)
      case Some(v) => Put(s, k, v)
      case None => s
  }

  /** A key a new section takes over from the globals. */
  predicate Inherited(k: Key) {
    k != Host && k != Channel && !IsBot(k)
  }

  function Clipped(k: Key, v: Value): Value {
    if v.Str? then Str(Fit(v.s, Max(k))) else v
  }

  /** `network_defaults`. */
  function Defaults(g: Settings): Settings {
    Settings("", g.port, Fit(g.nick, 31), Fit(g.user, 31), Fit(g.pass, 63), Fit(g.owner, 31),
             Fit(g.hookDir, 127), Fit(g.moduleDir, 127), g.useAmbnc, Fit(g.ambncHost, 127), g.ambncPort,
             g.cap, g.sasl, Fit(g.saslUser, 31), Fit(g.saslPass, 63), g.tls, "", "", 0, [])
  }

  lemma GetDefaults(g: Settings, k: Key)
    requires k != Channel
    ensures Inherited(k) ==> Get(Defaults(g), k) == Clipped(k, Get(g, k))
    ensures !Inherited(k) ==> Get(Defaults(g), k) == if k == BotTimeout then Num(0) else Str("")
  {
  }

  /** The strings fit the buffers that hold them. */
  predicate Bounded(s: Settings) {
    (forall k: Key | k != Channel && Get(s, k).Str? :: |Get(s, k).s| <= Max(k))
    && |s.channels| <= CHANNELS_MAX && forall c | c in s.channels :: |c| <= CHANNEL_MAX
  }

  lemma ApplyBounded(s: Settings, k: Key, value: string, bot: bool)
    requires Bounded(s)
    ensures Bounded(Apply(s, k, value, bot))
  {
    hide Put;
    var t := Apply(s, k, value, bot);
    if k != Channel && t != s {
      GetPutSame(s, k, Stored(k, value).value);
      forall j: Key | j != Channel && Get(t, j).Str?
        ensures |Get(t, j).s| <= Max(j)
      {
        GetPut(s, k, Stored(k, value).value, j);
      }
    } else if t != s {
      forall j: Key | j != Channel
        ensures Get(t, j) == Get(s, j)
      {
      }
    }
  }

  lemma DefaultsBounded(g: Settings)
    ensures Bounded(Defaults(g))
  {
    forall k: Key | k != Channel && Get(Defaults(g), k).Str?
      ensures |Get(Defaults(g), k).s| <= Max(k)
    {
      GetDefaults(g, k);
    }
  }

  // ------------------------------------------------- what the program can hold

  /** The three numbers are stored in 16 bits, and none is ever zero. */
  predicate InRange(s: Settings) {
    0 < s.port <= 65535 && 0 < s.ambncPort <= 65535 && 0 < s.botTimeout <= 65535
  }

  lemma ApplyInRange(s: Settings, k: Key, value: string, bot: bool)
    requires InRange(s)
    ensures InRange(Apply(s, k, value, bot))
  {
    hide Put, Get;
    if k != Channel && !(IsBot(k) && !bot) && Stored(k, value).Some? {
      PutInRange(s, k, Stored(k, value).value);
    }
  }

  lemma PutInRange(s: Settings, k: Key, v: Value)
    requires InRange(s) && Fits(k, v) && (v.Num? ==> 0 < v.n <= 65535)
    ensures InRange(Put(s, k, v))
  {
  }

  /** `ambot_config_seed`: what the program starts with. */
  function Seeded(host: string, port: nat, nick: string, user: string, pass: string, owner: string): Settings {
    Settings(Fit(host, 127), if port != 0 then port else 6667, Fit(nick, 31),
             Fit(if user != "" then user else nick, 31),
             Fit(pass, 63), Fit(owner, 31), "REXX:AmBot", "REXX:AmBot/Modules", false, "", 6667,
             true, false, "", "", false, "", "auto", 30, [])
  }

  lemma SeededFits(host: string, port: nat, nick: string, user: string, pass: string, owner: string)
    requires port <= 65535
    ensures var s := Seeded(host, port, nick, user, pass, owner); Bounded(s) && InRange(s)
  {
  }

  /** No text holds a line feed. */
  predicate OneLine(s: Settings) {
    (forall k: Key | k != Channel && Get(s, k).Str? :: '\n' !in Get(s, k).s)
    && forall i | 0 <= i < |s.channels| :: '\n' !in s.channels[i]
  }

  lemma ApplyOneLine(s: Settings, k: Key, value: string, bot: bool)
    requires OneLine(s) && '\n' !in value
    ensures OneLine(Apply(s, k, value, bot))
  {
    hide Put;
    var t := Apply(s, k, value, bot);
    if k != Channel && t != s {
      GetPutSame(s, k, Stored(k, value).value);
      forall j: Key | j != Channel && Get(t, j).Str?
        ensures '\n' !in Get(t, j).s
      {
        GetPut(s, k, Stored(k, value).value, j);
      }
    } else if t != s {
      forall j: Key | j != Channel
        ensures Get(t, j) == Get(s, j)
      {
      }
    }
  }

  lemma DefaultsOneLine(g: Settings)
    requires OneLine(g)
    ensures OneLine(Defaults(g))
  {
    forall k: Key | k != Channel && Get(Defaults(g), k).Str?
      ensures '\n' !in Get(Defaults(g), k).s
    {
      GetDefaults(g, k);
    }
  }
}
