// The language the parser of src/botai.c accepts: flat objects of string members, a subset
// of section 7 of RFC 8259, written as syntax trees and the text they stand for.
module FlatJson {
  import opened Text
  import opened BotAi

  /** One character of a string as written: itself, or after a backslash. */
  datatype Char = Raw(c: char) | Esc(c: char)

  predicate ValidChar(x: Char) {
    match x
    case Raw(c) => !IsControl(c) && c != '"' && c != '\\'
    case Esc(c) => Unescape(c).Some?
  }

  /** The inside of a string. */
  datatype Chars = Nothing | Then(first: Char, more: Chars)

  predicate ValidChars(cs: Chars) {
    cs.Then? ==> ValidChar(cs.first) && ValidChars(cs.more)
  }

  function ShowChar(x: Char, rest: string): string {
    match x
    case Raw(c) => [c] + rest
    case Esc(c) => ['\\', c] + rest
  }

  /** `\n`, `\r` and `\t` mean a space. */
  function Sense(x: Char): char
    requires ValidChar(x)
  {
    if x.Raw? then x.c else Unescape(x.c).value
  }

  function ShowChars(cs: Chars, rest: string): string {
    match cs
    case Nothing => rest
    case Then(x, more) => ShowChar(x, ShowChars(more, rest))
  }

  function Meant(cs: Chars): string
    requires ValidChars(cs)
  {
    match cs
    case Nothing => ""
    case Then(x, more) => [Sense(x)] + Meant(more)
  }

  predicate Blank(w: string) {
    forall i | 0 <= i < |w| :: IsWs(w[i])
  }

  /** `"key" : "value"` with the white space between. */
  datatype Pair = Pair(key: Chars, beforeColon: string, afterColon: string, value: Chars, after: string)

  /** `{`, pairs separated by commas, `}`; each comma may be followed by white space. */
  datatype Pairs = Only(pair: Pair) | More(pair: Pair, afterComma: string, rest: Pairs)

  datatype Object = Object(before: string, inside: string, pairs: Pairs, end: string)

  function Quoted(cs: Chars, rest: string): string {
    "\"" + ShowChars(cs, "\"" + rest)
  }

  function ShowPair(p: Pair, rest: string): string {
    Quoted(p.key, p.beforeColon + (":" + (p.afterColon + Quoted(p.value, p.after + rest))))
  }

  function ShowPairs(ps: Pairs, rest: string): string {
    match ps
    case Only(p) => ShowPair(p, "}" + rest)
    case More(p, w, more) => ShowPair(p, "," + (w + ShowPairs(more, rest)))
  }

  function Show(o: Object): string {
    o.before + ("{" + (o.inside + ShowPairs(o.pairs, o.end)))
  }

  predicate ValidPair(p: Pair) {
    && ValidChars(p.key) && |Meant(p.key)| <= 31 && ValidChars(p.value)
    && Blank(p.beforeColon) && Blank(p.afterColon) && Blank(p.after)
  }

  predicate ValidPairs(ps: Pairs) {
    ValidPair(ps.pair) && (ps.More? ==> Blank(ps.afterComma) && ValidPairs(ps.rest))
  }

  predicate Valid(o: Object) {
    Blank(o.before) && Blank(o.inside) && Blank(o.end) && ValidPairs(o.pairs)
  }

  /** The values of the members whose key means `text`. */
  function Texts(ps: Pairs): seq<string>
    requires ValidPairs(ps)
  {
    (if Meant(ps.pair.key) == "text" then [Meant(ps.pair.value)] else [])
    + if ps.More? then Texts(ps.rest) else []
  }

  // ---------------------------------------------------------------- white space

  lemma {:induction false} SkipBlank(w: string, s: string)
    requires Blank(w) && (s == "" || !IsWs(s[0]))
    ensures SkipWs(w + s) == s
  {
    if w == "" {
      assert w + s == s;
    } else {
      assert (w + s)[1..] == w[1..] + s;
      SkipBlank(w[1..], s);
    }
  }

  lemma Consed(s: string, a: string, b: string)
    requires s != "" && s[1..] == a + b
    ensures s == [s[0]] + a + b
  {
    assert s == [s[0]] + s[1..];
  }

  lemma {:induction false} BlankBefore(s: string) returns (w: string)
    ensures Blank(w) && s == w + SkipWs(s)
  {
    if s != "" && IsWs(s[0]) {
      var w' := BlankBefore(s[1..]);
      w := [s[0]] + w';
      Consed(s, w', SkipWs(s[1..]));
    } else {
      w := "";
    }
  }

  // -------------------------------------------------------------------- strings

  lemma ReadChar(x: Char, tail: string)
    requires ValidChar(x)
    ensures StringBody(ShowChar(x, tail)) == Prepend(Sense(x), StringBody(tail))
  {
    match x {
      case Raw(c) => assert ([c] + tail)[1..] == tail;
      case Esc(c) => assert (['\\', c] + tail)[2..] == tail;
    }
  }

  /** The parser reads every written string back, whatever follows. */
  lemma {:induction false} ReadString(cs: Chars, rest: string)
    requires ValidChars(cs)
    ensures StringBody(ShowChars(cs, "\"" + rest)) == Good(Meant(cs), rest)
  {
    match cs {
      case Nothing => assert ("\"" + rest)[1..] == rest;
      case Then(x, more) =>
        ReadString(more, rest);
        ReadChar(x, ShowChars(more, "\"" + rest));
    }
  }

  /** And what it reads was written. */
  lemma {:induction false} WrittenFor(s: string) returns (cs: Chars)
    requires StringBody(s).Good?
    ensures ValidChars(cs) && Meant(cs) == StringBody(s).text
    ensures s == ShowChars(cs, "\"" + StringBody(s).rest)
    decreases |s|
  {
    if s[0] == '"' {
      cs := Nothing;
      assert s == "\"" + s[1..];
    } else if s[0] == '\\' {
      var more := WrittenFor(s[2..]);
      cs := Then(Esc(s[1]), more);
      assert s == ['\\', s[1]] + s[2..];
    } else {
      var more := WrittenFor(s[1..]);
      cs := Then(Raw(s[0]), more);
      assert s == [s[0]] + s[1..];
    }
  }

  lemma ReadQuoted(cs: Chars, rest: string, size: Option<nat>)
    requires ValidChars(cs)
    ensures ParseString(Quoted(cs, rest), size)
         == if size.Some? && |Meant(cs)| >= size.value then Bad else Good(Meant(cs), rest)
  {
    assert Quoted(cs, rest)[1..] == ShowChars(cs, "\"" + rest);
    ReadString(cs, rest);
  }

  lemma QuotedFor(s: string, size: Option<nat>) returns (cs: Chars)
    requires ParseString(s, size).Good?
    ensures var p := ParseString(s, size);
            && ValidChars(cs) && s == Quoted(cs, p.rest) && Meant(cs) == p.text
            && (size.Some? ==> |p.text| < size.value)
  {
    cs := WrittenFor(s[1..]);
    assert s == "\"" + s[1..];
  }

  // -------------------------------------------------------------------- members

  /** What a pair adds to the text found so far. */
  function Adds(p: Pair, have: Option<string>, size: nat, rest: string): Member
    requires ValidPair(p)
  {
    var v := Meant(p.value);
    if Meant(p.key) != "text" then Found(have, rest)
    else if |v| >= size || have.Some? || v == "" then NoMember
    else Found(Some(v), rest)
  }

  lemma ReadPair(p: Pair, rest: string, have: Option<string>, size: nat)
    requires ValidPair(p) && rest != "" && !IsWs(rest[0])
    ensures ParseMember(ShowPair(p, rest), have, size) == Adds(p, have, size, rest)
  {
    var value := Quoted(p.value, p.after + rest);
    var colon := ":" + (p.afterColon + value);
    ReadQuoted(p.key, p.beforeColon + colon, Some(KEY_SIZE));
    SkipBlank(p.beforeColon, colon);
    assert colon[1..] == p.afterColon + value;
    SkipBlank(p.afterColon, value);
    ReadQuoted(p.value, p.after + rest, if Meant(p.key) == "text" then Some(size) else None);
    SkipBlank(p.after, rest);
  }

  lemma KeyFor(s: string) returns (k: Chars, before: string, after: string)
    requires ParseKey(s).Good?
    ensures ValidChars(k) && Meant(k) == ParseKey(s).text && |Meant(k)| < KEY_SIZE
    ensures Blank(before) && Blank(after)
    ensures s == Quoted(k, before + (":" + (after + ParseKey(s).rest)))
  {
    var key := ParseString(s, Some(KEY_SIZE));
    var colon := SkipWs(key.rest);
    k := QuotedFor(s, Some(KEY_SIZE));
    before := BlankBefore(key.rest);
    after := BlankBefore(colon[1..]);
    assert colon == ":" + colon[1..];
  }

  lemma PairFor(s: string, have: Option<string>, size: nat) returns (p: Pair)
    requires ParseMember(s, have, size).Found?
    ensures var m := ParseMember(s, have, size);
            ValidPair(p) && s == ShowPair(p, m.rest) && m == Adds(p, have, size, m.rest)
  {
    var key := ParseKey(s);
    var k, before, after := KeyFor(s);
    var room := if key.text == "text" then Some(size) else None;
    var v := QuotedFor(key.rest, room);
    var blank := BlankBefore(ParseString(key.rest, room).rest);
    p := Pair(k, before, after, v, blank);
  }

  /** The whole acceptance condition on the members, with a text found before or not. */
  ghost predicate Answers(ps: Pairs, have: Option<string>, size: nat, t: string)
    requires ValidPairs(ps)
  {
    match have
    case None => Texts(ps) == [t] && t != "" && |t| < size
    case Some(h) => Texts(ps) == [] && t == h
  }

  /** What has been found after a first pair. */
  function Now(p: Pair, have: Option<string>): Option<string>
    requires ValidPair(p)
  {
    if Meant(p.key) == "text" then Some(Meant(p.value)) else have
  }

  lemma AnswersOnly(p: Pair, have: Option<string>, size: nat, t: string, rest: string)
    requires ValidPair(p)
    ensures Answers(Only(p), have, size, t) <==> Adds(p, have, size, rest) == Found(Some(t), rest)
  {
    assert Texts(Only(p)) == if Meant(p.key) == "text" then [Meant(p.value)] else [];
  }

  lemma AnswersMore(p: Pair, w: string, more: Pairs, have: Option<string>, size: nat, t: string, rest: string)
    requires ValidPair(p) && Blank(w) && ValidPairs(more)
    ensures Answers(More(p, w, more), have, size, t)
         <==> Adds(p, have, size, rest) == Found(Now(p, have), rest) && Answers(more, Now(p, have), size, t)
  {
    hide Meant;
    var all := Texts(More(p, w, more));
    if Meant(p.key) == "text" {
      assert all == [Meant(p.value)] + Texts(more) && all[0] == Meant(p.value) && all[1..] == Texts(more);
    } else {
      assert all == Texts(more);
    }
  }

  lemma {:induction false} ReadPairs(ps: Pairs, end: string, have: Option<string>, size: nat, t: string)
    requires ValidPairs(ps) && Blank(end) && Answers(ps, have, size, t)
    ensures ParseMembers(ShowPairs(ps, end), have, size) == Some(t)
  {
    match ps {
      case Only(p) => ReadOnly(p, end, have, size, t);
      case More(p, w, more) =>
        var tail := ShowPairs(more, end);
        AnswersMore(p, w, more, have, size, t, "," + (w + tail));
        ReadMore(p, w, tail, have, size);
        ReadPairs(more, end, Now(p, have), size, t);
    }
  }

  lemma ReadOnly(p: Pair, end: string, have: Option<string>, size: nat, t: string)
    requires ValidPair(p) && Blank(end) && Answers(Only(p), have, size, t)
    ensures ParseMembers(ShowPair(p, "}" + end), have, size) == Some(t)
  {
    var next := "}" + end;
    AnswersOnly(p, have, size, t, next);
    ReadPair(p, next, have, size);
    assert next[1..] == end && end + "" == end;
    SkipBlank(end, "");
    assert Expect(next, '}') == Some("");
  }

  lemma ReadMore(p: Pair, w: string, tail: string, have: Option<string>, size: nat)
    requires ValidPair(p) && Blank(w) && tail != "" && tail[0] == '"'
    requires Adds(p, have, size, "," + (w + tail)) == Found(Now(p, have), "," + (w + tail))
    ensures ParseMembers(ShowPair(p, "," + (w + tail)), have, size) == ParseMembers(tail, Now(p, have), size)
  {
    var next := "," + (w + tail);
    ReadPair(p, next, have, size);
    assert next[1..] == w + tail;
    SkipBlank(w, tail);
    assert Expect(next, ',') == Some(tail) && Expect(next, '}') == None;
  }

  lemma {:induction false} PairsFor(s: string, have: Option<string>, size: nat) returns (ps: Pairs, end: string)
    requires ParseMembers(s, have, size).Some?
    ensures ValidPairs(ps) && Blank(end) && s == ShowPairs(ps, end)
    ensures Answers(ps, have, size, ParseMembers(s, have, size).value)
    decreases |s|
  {
    hide ParseMember, ValidPair, Answers;
    var m := ParseMember(s, have, size);
    var p := PairFor(s, have, size);
    var w := BlankBefore(m.rest[1..]);
    assert m.rest == [m.rest[0]] + m.rest[1..];
    if m.rest[0] == '}' {
      ps, end := Only(p), w;
      assert w + "" == w;
      AnswersOnly(p, have, size, ParseMembers(s, have, size).value, m.rest);
    } else {
      var next := SkipWs(m.rest[1..]);
      assert Expect(m.rest, ',') == Some(next);
      var more;
      more, end := PairsFor(next, m.have, size);
      ps := More(p, w, more);
      AnswersMore(p, w, more, have, size, ParseMembers(s, have, size).value, m.rest);
    }
  }

  // ------------------------------------------------------- the accepted language

  /** Body `b` is an object with exactly one member `text`, meaning the non-empty `t`, which
      fits the reply buffer. */
  ghost predicate Says(b: string, size: nat, t: string) {
    exists o: Object :: Valid(o) && Show(o) == b && Texts(o.pairs) == [t] && t != "" && |t| < size
  }

  /** The parser accepts a body exactly when it says a text, and returns that text. */
  lemma AcceptedLanguage(b: string, size: nat, t: string)
    ensures ParseResponse(b, size) == Some(t) <==> Says(b, size, t)
  {
    if ParseResponse(b, size) == Some(t) {
      ObjectFor(b, size, t);
    }
    if Says(b, size, t) {
      var o: Object :| Valid(o) && Show(o) == b && Texts(o.pairs) == [t] && t != "" && |t| < size;
      ReadObject(o, size, t);
    }
  }

  lemma ReadObject(o: Object, size: nat, t: string)
    requires Valid(o) && Texts(o.pairs) == [t] && t != "" && |t| < size
    ensures ParseResponse(Show(o), size) == Some(t)
  {
    var members := ShowPairs(o.pairs, o.end);
    assert members[0] == '"';
    var s := "{" + (o.inside + members);
    SkipBlank(o.before, s);
    assert s[1..] == o.inside + members;
    SkipBlank(o.inside, members);
    ReadPairs(o.pairs, o.end, None, size, t);
  }

  lemma ObjectFor(b: string, size: nat, t: string)
    requires ParseResponse(b, size) == Some(t)
    ensures Says(b, size, t)
  {
    hide ParseMembers, ShowPairs, SkipWs, Blank, Texts;
    var s := SkipWs(b);
    var before := BlankBefore(b);
    assert s != "" && s[0] == '{';
    Opened(s);
    var inside := BlankBefore(s[1..]);
    var ps, end := PairsFor(SkipWs(s[1..]), None, size);
    SaidBy(Object(before, inside, ps, end), b, size, t);
  }

  lemma Opened(s: string)
    requires s != "" && s[0] == '{'
    ensures s == "{" + s[1..]
  {
  }

  lemma SaidBy(o: Object, b: string, size: nat, t: string)
    requires Valid(o) && Answers(o.pairs, None, size, t) && b == Show(o)
    ensures Says(b, size, t)
  {
  }

  // ------------------------------------------------------ escaping and parsing

  /** The characters `json_escape` writes. */
  function EscapedChars(s: string): Chars {
    if s == "" then Nothing
    else Then(if s[0] == '"' || s[0] == '\\' then Esc(s[0]) else Raw(s[0]), EscapedChars(s[1..]))
  }

  lemma {:induction false} EscapedIsShown(s: string, rest: string)
    requires NoControl(s)
    ensures ValidChars(EscapedChars(s)) && Meant(EscapedChars(s)) == s
    ensures ShowChars(EscapedChars(s), rest) == Escaped(s) + rest
  {
    if s == "" {
      assert "" + rest == rest;
    } else {
      EscapedIsShown(s[1..], rest);
      assert Escaped(s) + rest == EscapeChar(s[0]) + (Escaped(s[1..]) + rest);
    }
  }

  /** Parsing the quoted escaped form of a text gives the text back, whatever follows. */
  lemma ParsingUndoesEscaping(s: string, rest: string, size: nat)
    requires NoControl(s)
    ensures ParseString("\"" + (Escaped(s) + ("\"" + rest)), None) == Good(s, rest)
    ensures ParseString("\"" + (Escaped(s) + ("\"" + rest)), Some(size)).Good? <==> |s| < size
  {
    EscapedIsShown(s, "\"" + rest);
    ReadQuoted(EscapedChars(s), rest, None);
    ReadQuoted(EscapedChars(s), rest, Some(size));
  }
}
