// src/botai.c: escaping a message, and reading the one text out of a flat JSON object.
module BotAi {
  import opened Text

  // ---------------------------------------------------------------- escaping

  predicate IsControl(c: char) {
    c as int < 32
  }

  function EscapeChar(c: char): string {
    if c == '"' || c == '\\' then ['\\', c] else [c]
  }

  function Escaped(s: string): string {
    if s == "" then "" else EscapeChar(s[0]) + Escaped(s[1..])
  }

  predicate NoControl(s: string) {
    forall i | 0 <= i < |s| :: !IsControl(s[i])
  }

  lemma {:induction false} EscapedMore(s: string, n: nat)
    requires n < |s|
    ensures Escaped(s[..n + 1]) == Escaped(s[..n]) + EscapeChar(s[n])
    ensures |Escaped(s[..n])| <= |Escaped(s)|
  {
    if n == 0 {
      assert s[..1] == [s[0]] && s[..1][1..] == "";
    } else {
      EscapedMore(s[1..], n - 1);
      assert s[..n + 1][1..] == s[1..][..n] && s[..n][1..] == s[1..][..n - 1];
    }
  }

  lemma {:induction false} EscapedGrows(s: string, n: nat)
    requires n <= |s|
    ensures |Escaped(s[..n])| <= |Escaped(s)|
    decreases |s| - n
  {
    if n < |s| {
      EscapedMore(s, n);
      EscapedGrows(s, n + 1);
    } else {
      assert s[..n] == s;
    }
  }

  /** `json_escape`: it succeeds exactly when no character is a control character and the
      escaped form with its terminator fits, and then leaves that form. */
  method JsonEscape(src: string, dst: array<char>) returns (ok: bool)
    modifies dst
    ensures ok <==> NoControl(src) && |Escaped(src)| < dst.Length
    ensures ok ==> dst[..|Escaped(src)|] == Escaped(src) && dst[|Escaped(src)|] == '\0'
  {
    if dst.Length == 0 {
      return false;
    }
    var used := 0;
    for i := 0 to |src|
      invariant used < dst.Length && used == |Escaped(src[..i])| && dst[..used] == Escaped(src[..i])
      invariant forall j | 0 <= j < i :: !IsControl(src[j])
    {
      var ch := src[i];
      EscapedMore(src, i);
      EscapedGrows(src, i + 1);
      if IsControl(ch) {
        return false;
      }
      if ch == '"' || ch == '\\' {
        if used + 2 >= dst.Length {
          return false;
        }
        dst[used], dst[used + 1] := '\\', ch;
        used := used + 2;
      } else {
        if used + 1 >= dst.Length {
          return false;
        }
        dst[used] := ch;
        used := used + 1;
      }
    }
    assert src[..|src|] == src;
    dst[used] := '\0';
    ok := true;
  }

  // ------------------------------------------------- the parser on the rest of a body

  predicate IsWs(c: char) {
    c == ' ' || c == '\t' || c == '\r' || c == '\n'
  }

  function SkipWs(s: string): (r: string)
    ensures |r| <= |s| && (r != "" ==> !IsWs(r[0]))
  {
    if s != "" && IsWs(s[0]) then SkipWs(s[1..]) else s
  }

  datatype Parsed = Bad | Good(text: string, rest: string)

  function Unescape(c: char): Option<char> {
    if c == 'n' || c == 'r' || c == 't' then Some(' ')
    else if c == '"' || c == '\\' || c == '/' then Some(c)
    else None
  }

  function Prepend(c: char, p: Parsed): Parsed {
    if p.Good? then Good([c] + p.text, p.rest) else Bad
  }

  /** A string after its opening quote. */
  function StringBody(s: string): (p: Parsed)
    ensures p.Good? ==> |p.rest| < |s|
    decreases |s|
  {
    if s == "" then Bad
    else if s[0] == '"' then Good("", s[1..])
    else if IsControl(s[0]) then Bad
    else if s[0] == '\\' then
      if |s| == 1 then Bad
      else
        match Unescape(s[1])
        case Some(c) => Prepend(c, StringBody(s[2..]))
        case None => Bad
    else Prepend(s[0], StringBody(s[1..]))
  }

  /** A string whose decoded text must fit a buffer of `size` bytes, if there is a buffer. */
  function ParseString(s: string, size: Option<nat>): (p: Parsed)
    ensures p.Good? ==> |p.rest| < |s|
  {
    if s == "" || s[0] != '"' then Bad
    else
      var p := StringBody(s[1..]);
      if p.Good? && size.Some? && |p.text| >= size.value then Bad else p
  }

  const KEY_SIZE := 32

  /** The text found so far, and what follows. */
  datatype Member = NoMember | Found(have: Option<string>, rest: string)

  /** A given character and the white space after it. */
  function Expect(s: string, c: char): (r: Option<string>)
    ensures r.Some? ==> |r.value| < |s|
  {
    if s == "" || s[0] != c then None else Some(SkipWs(s[1..]))
  }

  /** `"key" :` and the white space after it. */
  function ParseKey(s: string): (p: Parsed)
    ensures p.Good? ==> |p.rest| < |s|
  {
    var key := ParseString(s, Some(KEY_SIZE));
    if key.Bad? then Bad
    else
      match Expect(SkipWs(key.rest), ':')
      case Some(rest) => Good(key.text, rest)
      case None => Bad
  }

  /** A value after its key, and the white space after it. */
  function ParseValue(s: string, key: string, have: Option<string>, size: nat): (m: Member)
    ensures m.Found? ==> |m.rest| < |s|
  {
    var isText := key == "text";
    var value := ParseString(s, if isText then Some(size) else None);
    if value.Bad? || (isText && (have.Some? || value.text == "")) then NoMember
    else Found(if isText then Some(value.text) else have, SkipWs(value.rest))
  }

  /** `"key" : "value"` and the white space after it. */
  function ParseMember(s: string, have: Option<string>, size: nat): (m: Member)
    ensures m.Found? ==> |m.rest| < |s|
  {
    var key := ParseKey(s);
    if key.Bad? then NoMember else ParseValue(key.rest, key.text, have, size)
  }

  /** The loop over members. */
  function ParseMembers(s: string, have: Option<string>, size: nat): Option<string>
    decreases |s|
  {
    match ParseMember(s, have, size)
    case NoMember => None
    case Found(now, next) =>
      var (close, comma) := (Expect(next, '}'), Expect(next, ','));
      if close.Some? then (if close.value == "" then now else None)
      else if comma.Some? then ParseMembers(comma.value, now, size)
      else None
  }

  /** `parse_text_response` for a reply buffer of `size` bytes. */
  function ParseResponse(body: string, size: nat): Option<string> {
    match Expect(SkipWs(body), '{')
    case Some(s) => if size == 0 then None else ParseMembers(s, None, size)
    case None => None
  }

  // ------------------------------------------------------- characters, one by one

  /** A quote and a backslash get a backslash, every other character stands for itself; the control
      characters are those below 32. */
  lemma EscapedText(c: char, rest: string)
    ensures Escaped([c] + rest) == (if c == '"' then "\\\"" else if c == '\\' then "\\\\" else [c]) + Escaped(rest)
    ensures NoControl([c] + rest) <==> 32 <= c as int && NoControl(rest)
  {
    var s := [c] + rest;
    assert s[1..] == rest && s[0] == c;
    if NoControl(s) {
      forall i | 0 <= i < |rest|
        ensures !IsControl(rest[i])
      {
        assert rest[i] == s[i + 1];
      }
    }
  }

  /** White space is a space, a tab, a carriage return or a line feed. */
  lemma WhiteSpace(c: char)
    ensures IsWs(c) <==> c as int in {32, 9, 13, 10}
  {
  }

  /** Of the escapes `n`, `r` and `t` mean a space, a quote, a backslash and a slash mean themselves, and
      no other is taken: not `b`, `f` or `u`. Control characters are not taken either. */
  lemma ReadsOne(c: char, rest: string)
    ensures c == 'n' || c == 'r' || c == 't' ==> StringBody(['\\', c] + rest) == Prepend(' ', StringBody(rest))
    ensures c == '"' || c == '\\' || c == '/' ==> StringBody(['\\', c] + rest) == Prepend(c, StringBody(rest))
    ensures c !in "nrt\"\\/" ==> StringBody(['\\', c] + rest) == Bad
    ensures c as int < 32 ==> StringBody([c] + rest) == Bad
    ensures c as int >= 32 && c != '"' && c != '\\' ==> StringBody([c] + rest) == Prepend(c, StringBody(rest))
    ensures StringBody(['"'] + rest) == Good("", rest) && StringBody("") == StringBody("\\") == Bad
  {
    assert (['\\', c] + rest)[2..] == rest && ([c] + rest)[1..] == rest && (['"'] + rest)[1..] == rest;
    assert "nrt\"\\/" == ['n', 'r', 't', '"', '\\', '/'];
  }

  // ----------------------------------------------------------- the cursor version

  method SkipJsonWs(body: string, start: nat) returns (p: nat)
    requires start <= |body|
    ensures start <= p <= |body| && body[p..] == SkipWs(body[start..])
  {
    p := start;
    while p < |body| && IsWs(body[p])
      invariant start <= p <= |body| && SkipWs(body[p..]) == SkipWs(body[start..])
    {
      assert body[p..][1..] == body[p + 1..];
      p := p + 1;
    }
  }

  /** How a string goes on after part of its text has been stored. */
  function Resume(stored: string, p: Parsed): Parsed {
    if p.Good? then Good(stored + p.text, p.rest) else Bad
  }

  /** `parse_json_string`: stops at the first reason to fail, and never past the end. */
  method ParseJsonString(body: string, start: nat, size: Option<nat>) returns (ok: bool, text: string, p: nat)
    requires start <= |body|
    ensures start <= p <= |body|
    ensures ok <==> ParseString(body[start..], size).Good?
    ensures ok ==> ParseString(body[start..], size) == Good(text, body[p..])
  {
    ok, text, p := false, "", start;
    if p == |body| || body[p] != '"' {
      return;
    }
    p := p + 1;
    ghost var whole := StringBody(body[start + 1..]);
    assert body[start..][1..] == body[start + 1..];
    while p < |body| && body[p] != '"'
      invariant start < p <= |body|
      invariant Resume(text, StringBody(body[p..])) == whole
      invariant size.Some? ==> |text| < size.value || text == ""
    {
      var ch := body[p];
      ghost var rest := body[p..];
      p := p + 1;
      assert rest[1..] == body[p..];
      if IsControl(ch) {
        return;
      }
      if ch == '\\' {
        if p == |body| {
          return;
        }
        var plain := Unescape(body[p]);
        p := p + 1;
        assert rest[2..] == body[p..];
        if plain == None {
          return;
        }
        ch := plain.value;
      }
      if size.Some? && |text| + 1 >= size.value {
        TooLong(text, ch, StringBody(body[p..]), whole);
        return;
      }
      StoreOne(text, ch, StringBody(body[p..]));
      text := text + [ch];
    }
    if p == |body| {
      return;
    }
    p := p + 1;
    assert body[p - 1..][1..] == body[p..] && text + "" == text;
    ok := size.None? || size.value > 0;
  }

  lemma StoreOne(text: string, ch: char, rest: Parsed)
    ensures Resume(text, Prepend(ch, rest)) == Resume(text + [ch], rest)
  {
    if rest.Good? {
      assert text + ([ch] + rest.text) == text + [ch] + rest.text;
    }
  }

  lemma TooLong(text: string, ch: char, rest: Parsed, whole: Parsed)
    requires Resume(text, Prepend(ch, rest)) == whole
    ensures whole.Good? ==> |whole.text| >= |text| + 1
  {
  }

  /** `*p++ != c`, then the white space. */
  method Skip(body: string, start: nat, c: char) returns (ok: bool, p: nat)
    requires start <= |body|
    ensures start <= p <= |body|
    ensures ok <==> Expect(body[start..], c).Some?
    ensures ok ==> start < p && Expect(body[start..], c) == Some(body[p..])
  {
    if start == |body| || body[start] != c {
      return false, start;
    }
    assert body[start..][1..] == body[start + 1..];
    p := SkipJsonWs(body, start + 1);
    ok := true;
  }

  method ParseOneKey(body: string, start: nat) returns (ok: bool, key: string, p: nat)
    requires start <= |body|
    ensures start <= p <= |body|
    ensures ok <==> ParseKey(body[start..]).Good?
    ensures ok ==> start < p && ParseKey(body[start..]) == Good(key, body[p..])
  {
    ok, key, p := ParseJsonString(body, start, Some(KEY_SIZE));
    if ok {
      p := SkipJsonWs(body, p);
      ok, p := Skip(body, p, ':');
    }
  }

  method ParseOneMember(body: string, start: nat, have: Option<string>, size: nat)
    returns (ok: bool, now: Option<string>, p: nat)
    requires start <= |body|
    ensures start <= p <= |body|
    ensures ok <==> ParseMember(body[start..], have, size).Found?
    ensures ok ==> start < p && ParseMember(body[start..], have, size) == Found(now, body[p..])
  {
    var key, value;
    now := have;
    ok, key, p := ParseOneKey(body, start);
    if !ok {
      return;
    }
    ok, value, p := ParseJsonString(body, p, if key == "text" then Some(size) else None);
    if !ok {
      return;
    }
    if key == "text" {
      if have.Some? || value == "" {
        return false, now, p;
      }
      now := Some(value);
    }
    p := SkipJsonWs(body, p);
  }

  /** The member loop with its cursor. */
  method ParseTextResponse(body: string, size: nat) returns (reply: Option<string>)
    ensures reply == ParseResponse(body, size)
  {
    if size == 0 {
      return None;
    }
    assert body[0..] == body;
    var p := SkipJsonWs(body, 0);
    var ok;
    ok, p := Skip(body, p, '{');
    if !ok {
      return None;
    }
    var have := None;
    while true
      invariant p <= |body|
      invariant ParseMembers(body[p..], have, size) == ParseResponse(body, size)
      decreases |body| - p
    {
      var now, next;
      ok, now, next := ParseOneMember(body, p, have, size);
      if !ok {
        return None;
      }
      var closed, after := Skip(body, next, '}');
      if closed {
        return if after == |body| then now else None;
      }
      ok, after := Skip(body, next, ',');
      if !ok {
        return None;
      }
      have, p := now, after;
    }
  }
}
