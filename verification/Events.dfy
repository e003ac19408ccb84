// src/events.c: IRC lines as bounded events, and the event queue.
module Events {
  import opened Text

  const NICK_MAX := 31
  const TARGET_MAX := 63
  const TEXT_MAX := 255
  const CAPACITY := 16

  datatype Kind =
    | PRIVMSG | NOTICE | JOIN | PART | QUIT | KICK | TOPIC | NICK | CONNECT | DISCONNECT

  datatype Event = Event(kind: Kind, nick: string, target: string, text: string)

  // ------------------------------------------------------------ one line

  function KindOf(command: string): (r: Option<Kind>)
    ensures r.Some? ==> r.value != CONNECT && r.value != DISCONNECT
  {
    if command == "PRIVMSG" then Some(PRIVMSG)
    else if command == "NOTICE" then Some(NOTICE)
    else if command == "JOIN" then Some(JOIN)
    else if command == "PART" then Some(PART)
    else if command == "QUIT" then Some(QUIT)
    else if command == "KICK" then Some(KICK)
    else if command == "TOPIC" then Some(TOPIC)
    else if command == "NICK" then Some(NICK)
    else None
  }

  function Name(k: Kind): string {
    match k
    case PRIVMSG => "PRIVMSG"
    case NOTICE => "NOTICE"
    case JOIN => "JOIN"
    case PART => "PART"
    case QUIT => "QUIT"
    case KICK => "KICK"
    case TOPIC => "TOPIC"
    case NICK => "NICK"
    case CONNECT => "CONNECT"
    case DISCONNECT => "DISCONNECT"
  }

  /** The text up to the next space. */
  function Word(s: string): string {
    s[..IndexOf(s, ' ')]
  }

  /** The text from the next space on. */
  function AfterWord(s: string): string {
    s[IndexOf(s, ' ')..]
  }

  /** The last parameter: after a colon, or the rest of the line as it stands. */
  function Trailing(s: string): Option<string> {
    if s == "" then None else if s[0] == ':' then Some(s[1..]) else Some(s)
  }

  /** The first parameter and the last one of what follows the command. */
  function Params(s: string): (r: (string, Option<string>))
    ensures |r.0| <= TARGET_MAX
  {
    var rest := SkipSpaces(s);
    var direct := rest != "" && rest[0] != ':';
    (if direct then Fit(Word(rest), TARGET_MAX) else "",
     Trailing(SkipSpaces(if direct then AfterWord(rest) else rest)))
  }

  function Assemble(kind: Kind, prefix: Option<string>, params: (string, Option<string>)): Event {
    var nick := match prefix case Some(p) => Fit(p[..IndexOf(p, '!')], NICK_MAX) case None => "";
    if kind == NICK then
      Event(kind, nick, Fit(match params.1 case Some(t) => t case None => params.0, TARGET_MAX), "")
    else Event(kind, nick, params.0, match params.1 case Some(t) => Fit(t, TEXT_MAX) case None => "")
  }

  /** A line without its prefix, given the prefix. */
  function Body(prefix: Option<string>, line: string): Option<Event> {
    var s := SkipSpaces(line);
    match KindOf(Fit(Word(s), 15))
    case None => None
    case Some(kind) => Some(Assemble(kind, prefix, Params(AfterWord(s))))
  }

  function ParseLine(line: string): Option<Event> {
    if line != "" && line[0] == ':' then
      var rest := line[1..];
      if ' ' !in rest then None else Body(Some(Word(rest)), AfterWord(rest)[1..])
    else Body(None, line)
  }

  /** Moves the cursor past the blanks at it. */
  method PastSpaces(s: string, start: nat) returns (p: nat)
    requires start <= |s|
    ensures start <= p <= |s| && s[p..] == SkipSpaces(s[start..])
  {
    p := start;
    while p < |s| && s[p] == ' '
      invariant start <= p <= |s| && SkipSpaces(s[p..]) == SkipSpaces(s[start..])
    {
      assert s[p..][1..] == s[p + 1..];
      p := p + 1;
    }
  }

  /** `strchr(p, ' ')`, or the end of the line. */
  method WordEnd(s: string, start: nat) returns (end: nat)
    requires start <= |s|
    ensures start <= end <= |s|
    ensures s[start..end] == Word(s[start..]) && s[end..] == AfterWord(s[start..])
  {
    end := start + IndexOf(s[start..], ' ');
    assert s[start..][..end - start] == s[start..end];
    assert s[start..][end - start..] == s[end..];
  }

  /** `ambot_event_from_irc_line` with its cursor. */
  method FromIrcLine(line: string) returns (event: Option<Event>)
    ensures event == ParseLine(line)
  {
    if line == "" || line[0] != ':' {
      assert line[0..] == line;
      event := FromBody(line, 0, None);
      return;
    }
    var end := WordEnd(line, 1);
    if end == |line| {
      assert ' ' !in line[1..] by {
        assert line[1..][..IndexOf(line[1..], ' ')] == line[1..];
      }
      return None;
    }
    assert line[1..][end - 1] == ' ';
    assert line[end..][1..] == line[end + 1..];
    event := FromBody(line, end + 1, Some(line[1..end]));
  }

  method FromBody(line: string, start: nat, prefix: Option<string>) returns (event: Option<Event>)
    requires start <= |line|
    ensures event == Body(prefix, line[start..])
  {
    var p := PastSpaces(line, start);
    var end := WordEnd(line, p);
    var kind := KindOf(Fit(line[p..end], 15));
    if kind == None {
      return None;
    }
    var target, trailing := Parameters(line, end);
    event := Some(Assemble(kind.value, prefix, (target, trailing)));
  }

  method Parameters(line: string, start: nat) returns (target: string, trailing: Option<string>)
    requires start <= |line|
    ensures (target, trailing) == Params(line[start..])
  {
    var p := PastSpaces(line, start);
    target := "";
    if p < |line| && line[p] != ':' {
      var end := WordEnd(line, p);
      target := Fit(line[p..end], TARGET_MAX);
      p := end;
    }
    p := PastSpaces(line, p);
    trailing := None;
    if p < |line| {
      assert line[p..][1..] == line[p + 1..];
      trailing := Some(if line[p] == ':' then line[p + 1..] else line[p..]);
    }
  }

  /** The field fits the event structure, and the kind is one that lines have. */
  predicate Fitting(e: Event) {
    && |e.nick| <= NICK_MAX && |e.target| <= TARGET_MAX && |e.text| <= TEXT_MAX
    && e.kind != CONNECT && e.kind != DISCONNECT
  }

  lemma BodyFits(prefix: Option<string>, line: string)
    ensures var e := Body(prefix, line); e.Some? ==> Fitting(e.value)
  {
    var s := SkipSpaces(line);
    var command, params := Fit(Word(s), 15), Params(AfterWord(s));
    if KindOf(command).Some? {
      AssembleFits(KindOf(command).value, prefix, params);
    }
  }

  lemma AssembleFits(kind: Kind, prefix: Option<string>, params: (string, Option<string>))
    requires |params.0| <= TARGET_MAX && kind != CONNECT && kind != DISCONNECT
    ensures Fitting(Assemble(kind, prefix, params))
  {
  }

  /** Every event of a line fits its buffers and has one of the eight parsed kinds. */
  lemma ParsedFits(line: string)
    ensures ParseLine(line).Some? ==> Fitting(ParseLine(line).value)
  {
    if line == "" || line[0] != ':' {
      BodyFits(None, line);
    } else if ' ' in line[1..] {
      BodyFits(Some(Word(line[1..])), AfterWord(line[1..])[1..]);
    }
  }

  // -------------------------------------------------- parsing undoes printing

  /** Cutting the command to fifteen characters never changes its kind. */
  lemma CutCommandSameKind(command: string)
    ensures KindOf(Fit(command, 15)) == KindOf(command)
  {
    assert forall k: Kind :: |Name(k)| <= 10;
  }

  lemma KindOfName(k: Kind)
    requires k != CONNECT && k != DISCONNECT
    ensures KindOf(Name(k)) == Some(k) && |Name(k)| <= 15 && ' ' !in Name(k) && Name(k)[0] != ' '
  {
  }

  lemma WordOf(w: string, rest: string)
    requires ' ' !in w && (rest == "" || rest[0] == ' ')
    ensures Word(w + rest) == w && AfterWord(w + rest) == rest
  {
    assert (w + rest)[..|w|] == w && (w + rest)[|w|..] == rest;
    IndexOfUnique(w + rest, ' ', |w|);
  }

  /** `:nick!user@host` followed by at least one space. */
  function Prefixed(nick: string, userHost: string, gap: nat, rest: string): string {
    ":" + nick + "!" + userHost + Spaces(1 + gap) + rest
  }

  predicate ValidPrefix(nick: string, userHost: string) {
    ' ' !in nick && '!' !in nick && ' ' !in userHost
  }

  predicate ValidTarget(target: string) {
    target != "" && target[0] != ':' && ' ' !in target
  }

  lemma NickOf(nick: string, userHost: string)
    requires '!' !in nick
    ensures var who := nick + "!" + userHost; who[..IndexOf(who, '!')] == nick
  {
    var who := nick + "!" + userHost;
    assert who[..|nick|] == nick && who[|nick|] == '!';
    IndexOfUnique(who, '!', |nick|);
  }

  lemma ParsePrefixed(nick: string, userHost: string, gap: nat, rest: string)
    requires ValidPrefix(nick, userHost)
    ensures ParseLine(Prefixed(nick, userHost, gap, rest)) == Body(Some(nick + "!" + userHost), Spaces(gap) + rest)
  {
    var line, who := Prefixed(nick, userHost, gap, rest), nick + "!" + userHost;
    var after := Spaces(1 + gap) + rest;
    assert ' ' !in who;
    assert line[1..] == who + after;
    assert after[0] == ' ' && after[1..] == Spaces(gap) + rest;
    WordOf(who, after);
    SpaceIn(who, after);
  }

  lemma SpaceIn(who: string, after: string)
    requires after != "" && after[0] == ' '
    ensures ' ' in who + after
  {
    assert (who + after)[|who|] == ' ';
  }

  lemma ParseBody(prefix: string, gap: nat, kind: Kind, params: string)
    requires kind != CONNECT && kind != DISCONNECT && params != "" && params[0] == ' '
    ensures Body(Some(prefix), Spaces(gap) + (Name(kind) + params))
         == Some(Assemble(kind, Some(prefix), Params(params)))
  {
    KindOfName(kind);
    var s := Name(kind) + params;
    assert s[0] == Name(kind)[0];
    SkipSpacesOver(gap, s);
    WordOf(Name(kind), params);
  }

  lemma TrailingText(gap: nat, text: string)
    ensures Trailing(SkipSpaces(Spaces(gap) + (":" + text))) == Some(text)
    ensures SkipSpaces(Spaces(gap) + (":" + text)) == ":" + text
  {
    var last := ":" + text;
    assert last[0] == ':' && last[1..] == text;
    SkipSpacesOver(gap, last);
  }

  lemma FirstTarget(target: string, after: string)
    requires ValidTarget(target) && after != "" && after[0] == ' '
    ensures var rest := target + after;
            && rest != "" && rest[0] != ':' && rest[0] != ' '
            && Word(rest) == target && AfterWord(rest) == after
  {
    assert target[0] in target;
    WordOf(target, after);
  }

  lemma TwoParams(b: nat, target: string, c: nat, text: string)
    requires ValidTarget(target)
    ensures Params(Spaces(1 + b) + (target + (Spaces(1 + c) + (":" + text)))) == (Fit(target, TARGET_MAX), Some(text))
  {
    var after := Spaces(1 + c) + (":" + text);
    var rest := target + after;
    FirstTarget(target, after);
    SkipSpacesOver(1 + b, rest);
    TrailingText(1 + c, text);
  }

  lemma OneParam(b: nat, text: string)
    ensures Params(Spaces(1 + b) + (":" + text)) == ("", Some(text))
  {
    TrailingText(1 + b, text);
    TrailingText(0, text);
    assert Spaces(0) + (":" + text) == ":" + text;
  }

  /** What a line with prefix `nick!userHost` assembles to. */
  lemma AssembleLine(kind: Kind, nick: string, userHost: string, target: string, text: string)
    requires '!' !in nick
    ensures Assemble(kind, Some(nick + "!" + userHost), (target, Some(text)))
         == if kind == NICK then Event(kind, Fit(nick, NICK_MAX), Fit(text, TARGET_MAX), "")
            else Event(kind, Fit(nick, NICK_MAX), target, Fit(text, TEXT_MAX))
  {
    NickOf(nick, userHost);
  }

  /** `:nick!user@host CMD target :text`, with any number of extra spaces between tokens,
      gives the event back; fields that are too long become their longest fitting prefixes. */
  lemma ParsePrinted(kind: Kind, nick: string, userHost: string, target: string, text: string, a: nat, b: nat, c: nat)
    requires kind != CONNECT && kind != DISCONNECT && kind != NICK
    requires ValidPrefix(nick, userHost) && ValidTarget(target)
    ensures ParseLine(Prefixed(nick, userHost, a,
                               Name(kind) + (Spaces(1 + b) + (target + (Spaces(1 + c) + (":" + text))))))
         == Some(Event(kind, Fit(nick, NICK_MAX), Fit(target, TARGET_MAX), Fit(text, TEXT_MAX)))
  {
    var params := Spaces(1 + b) + (target + (Spaces(1 + c) + (":" + text)));
    TwoParams(b, target, c, text);
    ParseWhole(kind, nick, userHost, params, a);
    AssembleLine(kind, nick, userHost, Fit(target, TARGET_MAX), text);
  }

  lemma ParseWhole(kind: Kind, nick: string, userHost: string, params: string, gap: nat)
    requires kind != CONNECT && kind != DISCONNECT && ValidPrefix(nick, userHost)
    requires params != "" && params[0] == ' '
    ensures ParseLine(Prefixed(nick, userHost, gap, Name(kind) + params))
         == Some(Assemble(kind, Some(nick + "!" + userHost), Params(params)))
  {
    ParsePrefixed(nick, userHost, gap, Name(kind) + params);
    ParseBody(nick + "!" + userHost, gap, kind, params);
  }

  /** `:nick!user@host CMD :text`, as QUIT and NICK are sent: the text of the event, or for
      NICK its target. */
  lemma ParsePrintedShort(kind: Kind, nick: string, userHost: string, text: string, a: nat, b: nat)
    requires kind != CONNECT && kind != DISCONNECT && ValidPrefix(nick, userHost)
    ensures ParseLine(Prefixed(nick, userHost, a, Name(kind) + (Spaces(1 + b) + (":" + text))))
         == Some(if kind == NICK then Event(kind, Fit(nick, NICK_MAX), Fit(text, TARGET_MAX), "")
                 else Event(kind, Fit(nick, NICK_MAX), "", Fit(text, TEXT_MAX)))
  {
    var params := Spaces(1 + b) + (":" + text);
    OneParam(b, text);
    ParseWhole(kind, nick, userHost, params, a);
    AssembleLine(kind, nick, userHost, "", text);
  }

  /** What follows the command of a printed event. */
  function Tail(e: Event): string {
    if e.kind == QUIT then Spaces(1) + (":" + e.text)
    else if e.kind == NICK then Spaces(1) + (":" + e.target)
    else Spaces(1) + (e.target + (Spaces(1) + (":" + e.text)))
  }

  /** The line for an event, in the form of section 2.3.1 of RFC 2812. */
  function Print(e: Event, userHost: string): string {
    Prefixed(e.nick, userHost, 0, Name(e.kind) + Tail(e))
  }

  predicate Printable(e: Event) {
    && Fitting(e)
    && ' ' !in e.nick && '!' !in e.nick
    && (if e.kind == QUIT then e.target == "" else if e.kind == NICK then e.text == "" else ValidTarget(e.target))
  }

  /** The fields of a fitting event are not cut. */
  lemma Uncut(e: Event)
    requires Fitting(e)
    ensures Fit(e.nick, NICK_MAX) == e.nick && Fit(e.target, TARGET_MAX) == e.target && Fit(e.text, TEXT_MAX) == e.text
  {
  }

  lemma QuitUndone(e: Event, userHost: string)
    requires Printable(e) && ' ' !in userHost && e.kind == QUIT
    ensures ParseLine(Print(e, userHost)) == Some(e)
  {
    var params := Spaces(1 + 0) + (":" + e.text);
    Uncut(e);
    ParsePrintedShort(QUIT, e.nick, userHost, e.text, 0, 0);
    assert Print(e, userHost) == Prefixed(e.nick, userHost, 0, Name(QUIT) + params);
  }

  lemma NickUndone(e: Event, userHost: string)
    requires Printable(e) && ' ' !in userHost && e.kind == NICK
    ensures ParseLine(Print(e, userHost)) == Some(e)
  {
    var params := Spaces(1 + 0) + (":" + e.target);
    Uncut(e);
    ParsePrintedShort(NICK, e.nick, userHost, e.target, 0, 0);
    assert Print(e, userHost) == Prefixed(e.nick, userHost, 0, Name(NICK) + params);
  }

  lemma LongUndone(e: Event, userHost: string)
    requires Printable(e) && ' ' !in userHost && e.kind != QUIT && e.kind != NICK
    ensures ParseLine(Print(e, userHost)) == Some(e)
  {
    Uncut(e);
    ParsePrinted(e.kind, e.nick, userHost, e.target, e.text, 0, 0, 0);
    assert Tail(e) == Spaces(1 + 0) + (e.target + (Spaces(1 + 0) + (":" + e.text)));
  }

  /** Parsing is a left inverse of printing. */
  lemma ParseUndoesPrint(e: Event, userHost: string)
    requires Printable(e) && ' ' !in userHost
    ensures ParseLine(Print(e, userHost)) == Some(e)
  {
    if e.kind == QUIT {
      QuitUndone(e, userHost);
    } else if e.kind == NICK {
      NickUndone(e, userHost);
    } else {
      LongUndone(e, userHost);
    }
  }
}
