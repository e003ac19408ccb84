// Character strings as the C sources handle them. A C string is modelled as a
// Dafny `string`; buffers that may hold a NUL are cut with `CStr`.
module Text {

  datatype Option<+T> = None | Some(value: T)

  /** Longest prefix of `s` with at most `max` characters: what the bounded copy
      routines leave in a destination of `max + 1` bytes. */
  function Fit(s: string, max: nat): (r: string)
    ensures |r| <= max && r <= s
  {
    if |s| <= max then s else s[..max]
  }

  /** The C string a buffer denotes: everything before the first NUL. */
  function CStr(s: string): (r: string)
    ensures r <= s
    ensures '\0' !in r
    ensures '\0' !in s ==> r == s
  {
    if s == "" || s[0] == '\0' then "" else [s[0]] + CStr(s[1..])
  }

  /** The copy is the whole text if that fits, and else its first `max` characters. */
  lemma FitLongest(s: string, max: nat)
    ensures |Fit(s, max)| == (if |s| <= max then |s| else max)
    ensures forall t: string | t <= s && |t| <= max :: t <= Fit(s, max)
  {
    forall t: string | t <= s && |t| <= max
      ensures t <= Fit(s, max)
    {
      assert t == s[..|t|] == Fit(s, max)[..|t|];
    }
  }

  /** The buffer is cut exactly at its first NUL. */
  lemma {:induction false} CStrCuts(s: string, i: nat)
    requires i < |s| && s[i] == '\0' && '\0' !in s[..i]
    ensures CStr(s) == s[..i]
  {
    if i > 0 {
      assert s[..i][0] == s[0];
      assert s[..i] == [s[0]] + s[1..][..i - 1];
      CStrCuts(s[1..], i - 1);
    }
  }

  /** `strstr(line, token) != 0`. */
  predicate Contains(line: string, token: string) {
    token <= line || (line != "" && Contains(line[1..], token))
  }

  lemma {:induction false} ContainsAt(line: string, token: string, i: nat)
    requires i + |token| <= |line| && line[i..i + |token|] == token
    ensures Contains(line, token)
  {
    if i > 0 {
      assert line[1..][i - 1..i - 1 + |token|] == token;
      ContainsAt(line[1..], token, i - 1);
    }
  }

  lemma {:induction false} ContainsWhere(line: string, token: string) returns (i: nat)
    requires Contains(line, token)
    ensures i + |token| <= |line| && line[i..i + |token|] == token
  {
    if token <= line {
      i := 0;
    } else {
      var j := ContainsWhere(line[1..], token);
      i := j + 1;
      assert line[1..][j..j + |token|] == line[i..i + |token|];
    }
  }

  /** `strncmp(line, prefix, strlen(prefix)) == 0`. */
  predicate StartsWith(line: string, prefix: string) {
    prefix <= line
  }

  /** Index of the first occurrence of `c`, or the length when there is none
      (`strchr` with "not found" read as "at the terminator"). */
  function IndexOf(s: string, c: char): (i: nat)
    ensures i <= |s|
    ensures c !in s[..i]
    ensures i < |s| ==> s[i] == c
  {
    if s == "" || s[0] == c then 0
    else
      var i := 1 + IndexOf(s[1..], c);
      assert s[..i] == [s[0]] + s[1..][..i - 1];
      i
  }

  lemma {:induction false} IndexOfUnique(s: string, c: char, i: nat)
    requires i <= |s| && c !in s[..i] && (i < |s| ==> s[i] == c)
    ensures IndexOf(s, c) == i
  {
    if i > 0 {
      assert s[..i][0] == s[0];
      assert s[..i] == [s[0]] + s[1..][..i - 1];
      IndexOfUnique(s[1..], c, i - 1);
    }
  }

  /** The text from the first character that is not a blank. */
  function SkipSpaces(s: string): (r: string)
    ensures |r| <= |s|
    ensures r == "" || r[0] != ' '
  {
    if s != "" && s[0] == ' ' then SkipSpaces(s[1..]) else s
  }

  function Spaces(n: nat): (s: string)
    ensures |s| == n && forall i | 0 <= i < n :: s[i] == ' '
  {
    seq(n, _ => ' ')
  }

  lemma {:induction false} SkipSpacesOver(n: nat, s: string)
    requires s == "" || s[0] != ' '
    ensures SkipSpaces(Spaces(n) + s) == s
  {
    if n == 0 {
      assert Spaces(0) + s == s;
    } else {
      assert (Spaces(n) + s)[1..] == Spaces(n - 1) + s;
      SkipSpacesOver(n - 1, s);
    }
  }
}
