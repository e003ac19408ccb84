// Every line src/events.c:30-95 can be given, and the event it is: lines with and without a prefix,
// a target, a last parameter, a colon before it.
module EventLines {
  import opened Text
  import opened Events

  /** What follows the command. The gaps count the spaces beyond the one a separator needs. */
  datatype Parts =
    | Nothing(spaces: nat)
    | Text(gap: nat, text: string)
    | Target(gap: nat, target: string, spaces: nat)
    | TargetText(gap: nat, target: string, between: nat, text: string)
    | TargetWords(gap: nat, target: string, between: nat, words: string)

  /** A line: the prefix without its colon, the spaces before the command, the command. */
  datatype Line = Line(prefix: Option<string>, lead: nat, command: string, params: Parts)

  function Gap(n: nat): string {
    Spaces(1 + n)
  }

  function ShowParams(p: Parts): string {
    match p
    case Nothing(n) => Spaces(n)
    case Text(n, text) => Gap(n) + (":" + text)
    case Target(n, target, after) => Gap(n) + (target + Spaces(after))
    case TargetText(n, target, between, text) => Gap(n) + (target + (Gap(between) + (":" + text)))
    case TargetWords(n, target, between, words) => Gap(n) + (target + (Gap(between) + words))
  }

  function Show(l: Line): string {
    var rest := Spaces(l.lead) + (l.command + ShowParams(l.params));
    match l.prefix
    case Some(who) => ":" + (who + (" " + rest))
    case None => rest
  }

  predicate NoSpace(s: string) {
    ' ' !in s
  }

  /** It begins with something else than a space or a colon. */
  predicate Begins(s: string) {
    s != "" && s[0] != ' ' && s[0] != ':'
  }

  predicate ValidParams(p: Parts) {
    match p
    case Nothing(_) => true
    case Text(_, _) => true
    case Target(_, target, _) => Begins(target) && NoSpace(target)
    case TargetText(_, target, _, _) => Begins(target) && NoSpace(target)
    case TargetWords(_, target, _, words) => Begins(target) && NoSpace(target) && Begins(words)
  }

  /** The parts are what the line shows them to be. */
  predicate Valid(l: Line) {
    && (l.prefix.Some? ==> NoSpace(l.prefix.value))
    && NoSpace(l.command) && ValidParams(l.params)
    && (l.command == "" ==> l.params == Nothing(0))
    && (l.prefix.None? && l.lead == 0 && l.command != "" ==> l.command[0] != ':')
  }

  // ------------------------------------------------------------- what a line says

  function TargetOf(p: Parts): string {
    if p.Nothing? || p.Text? then "" else p.target
  }

  function LastOf(p: Parts): Option<string> {
    match p
    case Text(_, text) => Some(text)
    case TargetText(_, _, _, text) => Some(text)
    case TargetWords(_, _, _, words) => Some(words)
    case _ => None
  }

  /** The nick of a prefix is what stands before its first `!`, if it has one. */
  ghost predicate NickIs(prefix: string, nick: string) {
    '!' !in nick && (prefix == nick || exists rest: string :: prefix == nick + "!" + rest)
  }

  /** The event of a line: its kind by the command, the nick of the prefix, the target, and the last
      parameter as the text, or for NICK as the target; each cut to its buffer. */
  ghost predicate Says(l: Line, e: Event) {
    var target, last := TargetOf(l.params), LastOf(l.params);
    && (e.kind == PRIVMSG <==> l.command == "PRIVMSG") && (e.kind == NOTICE <==> l.command == "NOTICE")
    && (e.kind == JOIN <==> l.command == "JOIN") && (e.kind == PART <==> l.command == "PART")
    && (e.kind == QUIT <==> l.command == "QUIT") && (e.kind == KICK <==> l.command == "KICK")
    && (e.kind == TOPIC <==> l.command == "TOPIC") && (e.kind == NICK <==> l.command == "NICK")
    && (l.prefix.None? ==> e.nick == "")
    && (l.prefix.Some? ==> exists nick :: NickIs(l.prefix.value, nick) && e.nick == Fit(nick, 31))
    && (if l.command == "NICK" then
          e.text == "" && e.target == Fit(if last.Some? then last.value else target, 63)
        else
          e.target == Fit(target, 63) && e.text == (if last.Some? then Fit(last.value, 255) else ""))
  }

  const COMMANDS := ["PRIVMSG", "NOTICE", "JOIN", "PART", "QUIT", "KICK", "TOPIC", "NICK"]

  // ------------------------------------------------------------- reading a shown line

  lemma Kinds(command: string)
    ensures KindOf(command).Some? <==> command in COMMANDS
    ensures KindOf(command).Some? ==>
              var k := KindOf(command).value;
              && (k == PRIVMSG <==> command == "PRIVMSG") && (k == NOTICE <==> command == "NOTICE")
              && (k == JOIN <==> command == "JOIN") && (k == PART <==> command == "PART")
              && (k == QUIT <==> command == "QUIT") && (k == KICK <==> command == "KICK")
              && (k == TOPIC <==> command == "TOPIC") && (k == NICK <==> command == "NICK")
  {
    var c := COMMANDS;
    assert c[0] == "PRIVMSG" && c[1] == "NOTICE" && c[2] == "JOIN" && c[3] == "PART";
    assert c[4] == "QUIT" && c[5] == "KICK" && c[6] == "TOPIC" && c[7] == "NICK";
  }

  lemma NickOfPrefix(prefix: string) returns (nick: string)
    ensures nick == prefix[..IndexOf(prefix, '!')] && NickIs(prefix, nick)
  {
    var i := IndexOf(prefix, '!');
    nick := prefix[..i];
    if i < |prefix| {
      assert prefix == nick + "!" + prefix[i + 1..];
    } else {
      assert prefix == nick;
    }
  }

  lemma ReadsNothing(n: nat)
    ensures Params(Spaces(n)) == ("", None)
  {
    SkipSpacesOver(n, "");
    assert Spaces(n) + "" == Spaces(n);
  }

  lemma ReadsTarget(n: nat, target: string, after: string, last: Option<string>)
    requires Begins(target) && NoSpace(target) && (after == "" || after[0] == ' ')
    requires Trailing(SkipSpaces(after)) == last
    ensures Params(Gap(n) + (target + after)) == (Fit(target, 63), last)
  {
    var rest := target + after;
    assert rest[0] == target[0];
    SkipSpacesOver(1 + n, rest);
    WordOf(target, after);
  }

  lemma LastWords(n: nat, words: string)
    requires Begins(words)
    ensures Trailing(SkipSpaces(Gap(n) + words)) == Some(words)
  {
    SkipSpacesOver(1 + n, words);
  }

  lemma LastNothing(n: nat)
    ensures Trailing(SkipSpaces(Spaces(n))) == None
  {
    SkipSpacesOver(n, "");
    assert Spaces(n) + "" == Spaces(n);
  }

  lemma ReadsParams(p: Parts)
    requires ValidParams(p)
    ensures Params(ShowParams(p)) == (Fit(TargetOf(p), 63), LastOf(p))
  {
    hide Params, SkipSpaces, Trailing;
    match p {
      case Nothing(n) => ReadsNothing(n);
      case Text(n, text) => OneParam(n, text);
      case Target(n, target, after) =>
        LastNothing(after);
        ReadsTarget(n, target, Spaces(after), None);
      case TargetText(n, target, between, text) => TwoParams(n, target, between, text);
      case TargetWords(n, target, between, words) =>
        LastWords(between, words);
        ReadsTarget(n, target, Gap(between) + words, Some(words));
    }
  }

  lemma ParamsBegin(p: Parts)
    ensures ShowParams(p) == "" || ShowParams(p)[0] == ' '
  {
  }

  lemma ReadsBody(prefix: Option<string>, lead: nat, command: string, p: Parts)
    requires NoSpace(command) && ValidParams(p) && (command == "" ==> p == Nothing(0))
    ensures Body(prefix, Spaces(lead) + (command + ShowParams(p)))
         == match KindOf(command)
            case None => None
            case Some(k) => Some(Assemble(k, prefix, (Fit(TargetOf(p), 63), LastOf(p))))
  {
    hide KindOf, Assemble, ShowParams, Params;
    var rest := ShowParams(p);
    ParamsBegin(p);
    if command == "" {
      NothingShown();
      assert command + rest == "";
    } else {
      assert (command + rest)[0] == command[0] && command[0] in command;
    }
    SkipSpacesOver(lead, command + rest);
    WordOf(command, rest);
    CutCommandSameKind(command);
    ReadsParams(p);
  }

  lemma NothingShown()
    ensures ShowParams(Nothing(0)) == ""
  {
  }

  lemma ReadsPrefix(who: string, rest: string)
    requires NoSpace(who)
    ensures ParseLine(":" + (who + (" " + rest))) == Body(Some(who), rest)
  {
    var line, after := ":" + (who + (" " + rest)), " " + rest;
    assert line[1..] == who + after && after[1..] == rest;
    WordOf(who, after);
    SpaceIn(who, after);
  }

  lemma ReadsNoPrefix(l: Line)
    requires Valid(l) && l.prefix.None?
    ensures ParseLine(Show(l)) == Body(None, Spaces(l.lead) + (l.command + ShowParams(l.params)))
  {
    var line := Spaces(l.lead) + (l.command + ShowParams(l.params));
    if l.lead > 0 {
      assert line[0] == Spaces(l.lead)[0];
    } else if l.command != "" {
      assert line[0] == l.command[0];
    } else {
      assert line == "";
    }
  }

  /** Cutting twice is cutting once. */
  lemma FitTwice(s: string)
    ensures Fit(Fit(s, 63), 63) == Fit(s, 63)
  {
  }

  lemma AssembledSays(l: Line, kind: Kind)
    requires KindOf(l.command) == Some(kind)
    ensures Says(l, Assemble(kind, l.prefix, (Fit(TargetOf(l.params), 63), LastOf(l.params))))
  {
    hide KindOf, NickIs, TargetOf, LastOf;
    Kinds(l.command);
    FitTwice(TargetOf(l.params));
    if l.prefix.Some? {
      var nick := NickOfPrefix(l.prefix.value);
    }
  }

  /** Every shown line is parsed as what it says; it is no event exactly when its command is none of
      the eight. */
  lemma LineMeans(l: Line)
    requires Valid(l)
    ensures ParseLine(Show(l)).Some? <==> l.command in COMMANDS
    ensures ParseLine(Show(l)).Some? ==> Says(l, ParseLine(Show(l)).value)
  {
    hide ParseLine, Body, KindOf, Assemble, Says, ShowParams;
    ReadsBody(l.prefix, l.lead, l.command, l.params);
    Kinds(l.command);
    if l.prefix.Some? {
      ReadsPrefix(l.prefix.value, Spaces(l.lead) + (l.command + ShowParams(l.params)));
    } else {
      ReadsNoPrefix(l);
    }
    if KindOf(l.command).Some? {
      AssembledSays(l, KindOf(l.command).value);
    }
  }

  // ------------------------------------------------------------- every line is shown

  lemma {:induction false} LeadingSpaces(s: string) returns (n: nat)
    ensures s == Spaces(n) + SkipSpaces(s) && (n == 0 <==> s == "" || s[0] != ' ')
  {
    if s != "" && s[0] == ' ' {
      var m := LeadingSpaces(s[1..]);
      n := m + 1;
      assert s == [' '] + s[1..];
      assert Spaces(n) == [' '] + Spaces(m);
      assert [' '] + (Spaces(m) + SkipSpaces(s)) == Spaces(n) + SkipSpaces(s);
    } else {
      n := 0;
      assert Spaces(0) + s == s;
    }
  }

  lemma SplitWord(s: string)
    ensures s == Word(s) + AfterWord(s) && NoSpace(Word(s)) && (AfterWord(s) == "" || AfterWord(s)[0] == ' ')
    ensures s != "" && s[0] != ' ' ==> Word(s) != "" && Word(s)[0] == s[0]
    ensures s == "" ==> Word(s) == ""
  {
  }

  lemma LastShown(s: string) returns (n: nat, last: string)
    requires s == "" || s[0] == ' '
    ensures last == SkipSpaces(s) && s == Spaces(n) + last && (last != "" ==> n > 0 && last[0] != ' ')
  {
    n := LeadingSpaces(s);
    last := SkipSpaces(s);
    if n == 0 {
      assert s == "";
    }
  }

  lemma ShownParams(s: string) returns (p: Parts)
    requires s == "" || s[0] == ' '
    ensures ValidParams(p) && ShowParams(p) == s && (s == "" ==> p == Nothing(0))
  {
    hide SkipSpaces;
    var n, rest := LastShown(s);
    if rest == "" {
      assert Spaces(n) + "" == Spaces(n);
      p := Nothing(n);
    } else if rest[0] == ':' {
      assert rest == ":" + rest[1..];
      p := Text(n - 1, rest[1..]);
    } else {
      SplitWord(rest);
      var target := Word(rest);
      var m, last := LastShown(AfterWord(rest));
      p := if last == "" then Target(n - 1, target, m)
           else if last[0] == ':' then TargetText(n - 1, target, m - 1, last[1..])
           else TargetWords(n - 1, target, m - 1, last);
      if last == "" {
        assert Spaces(m) + "" == Spaces(m);
      } else if last[0] == ':' {
        assert last == ":" + last[1..];
      }
    }
  }

  lemma ShownBody(s: string) returns (lead: nat, command: string, p: Parts)
    ensures s == Spaces(lead) + (command + ShowParams(p)) && NoSpace(command) && ValidParams(p)
    ensures command == "" ==> p == Nothing(0)
    ensures lead == 0 && command != "" ==> s != "" && s[0] == command[0]
  {
    hide SkipSpaces, ShowParams, ValidParams;
    lead := LeadingSpaces(s);
    var rest := SkipSpaces(s);
    SplitWord(rest);
    command := Word(rest);
    p := ShownParams(AfterWord(rest));
  }

  lemma SpaceAhead(s: string)
    requires ' ' in s
    ensures AfterWord(s) != ""
  {
    assert s[..|s|] == s;
  }

  /** Every line is one that is shown, except a colon with no space after it. */
  lemma EveryLine(line: string) returns (l: Line)
    requires !(line != "" && line[0] == ':' && NoSpace(line))
    ensures Valid(l) && Show(l) == line
  {
    hide ShowParams, ValidParams, Word, AfterWord;
    if line != "" && line[0] == ':' {
      var after := line[1..];
      SplitWord(after);
      assert line == ":" + after;
      var who, rest := Word(after), AfterWord(after);
      SpaceAhead(after);
      assert rest == " " + rest[1..];
      var lead, command, p := ShownBody(rest[1..]);
      l := Line(Some(who), lead, command, p);
    } else {
      var lead, command, p := ShownBody(line);
      l := Line(None, lead, command, p);
    }
  }

  /** So for every line whatever: it is parsed to what it says, or to nothing when its command is none
      of the eight or there is no command after the prefix. */
  lemma EveryLineMeans(line: string)
    ensures if line != "" && line[0] == ':' && NoSpace(line) then ParseLine(line) == None
            else
              exists l: Line ::
                && Valid(l) && Show(l) == line && (ParseLine(line).Some? <==> l.command in COMMANDS)
                && (ParseLine(line).Some? ==> Says(l, ParseLine(line).value))
  {
    hide Body, Says, Show, Valid;
    if line != "" && line[0] == ':' && NoSpace(line) {
      assert ' ' !in line[1..];
    } else {
      var l := EveryLine(line);
      LineMeans(l);
    }
  }

  /** The usual lines with nothing after the target: `:nick!user@host JOIN #channel`. */
  lemma TargetLine(nick: string, userHost: string, command: string, target: string, a: nat, b: nat, c: nat)
    requires '!' !in nick && NoSpace(nick) && NoSpace(userHost) && Begins(target) && NoSpace(target)
    requires command in COMMANDS
    ensures var rest := Spaces(a) + (command + (Gap(b) + (target + Spaces(c))));
            var e := ParseLine(":" + ((nick + "!" + userHost) + (" " + rest)));
            && e.Some? && e.value.nick == Fit(nick, 31) && e.value.target == Fit(target, 63) && e.value.text == ""
            && Name(e.value.kind) == command
  {
    hide ParseLine, NickIs;
    var l := Line(Some(nick + "!" + userHost), a, command, Target(b, target, c));
    KnownCommand(command);
    LineMeans(l);
    var e := ParseLine(Show(l)).value;
    var n :| NickIs(l.prefix.value, n) && e.nick == Fit(n, 31);
    OneNick(l.prefix.value, n, nick, userHost);
  }

  lemma KnownCommand(command: string)
    requires command in COMMANDS
    ensures NoSpace(command) && command != "" && command[0] != ':'
  {
  }

  lemma OneNick(prefix: string, n: string, nick: string, userHost: string)
    requires NickIs(prefix, n) && '!' !in nick && prefix == nick + "!" + userHost
    ensures n == nick
  {
    NickOf(nick, userHost);
    assert prefix[|nick|] == '!';
    var rest: string :| prefix == n + "!" + rest;
    NickOf(n, rest);
  }
}
