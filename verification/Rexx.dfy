// src/rexx.c:49-71 and 268-277: the command line of a hook script.
module Rexx {
  import opened Text
  import opened Events

  const COMMAND_SIZE := 1024

  /** Line ends become spaces and double quotes become apostrophes. */
  function CleanChar(c: char): char {
    if c == '\r' || c == '\n' then ' ' else if c == '"' then '\'' else c
  }

  function Clean(s: string): (r: string)
    ensures |r| == |s| && forall i | 0 <= i < |s| :: r[i] == CleanChar(s[i])
    ensures '"' !in r
  {
    seq(|s|, i requires 0 <= i < |s| => CleanChar(s[i]))
  }

  function Argument(s: string): string {
    " \"" + Clean(s) + "\""
  }

  function Arguments(args: seq<string>): string {
    if args == [] then "" else Argument(args[0]) + Arguments(args[1..])
  }

  function Command(path: string, args: seq<string>): string {
    path + Arguments(args)
  }

  /** The command buffer with its write position. */
  class CommandBuffer {
    const dst: array<char>
    var length: nat

    ghost predicate Valid()
      reads this
    {
      length < dst.Length
    }

    ghost function Contents(): string
      requires Valid()
      reads this, dst
    {
      dst[..length]
    }

    constructor (size: nat)
      requires size > 0
      ensures Valid() && fresh(dst) && dst.Length == size && Contents() == ""
    {
      dst := new char[size](_ => '\0');
      length := 0;
    }

    /** It succeeds exactly when the text and the terminator fit; else as much as fits is kept. */
    method AppendText(src: string) returns (ok: bool)
      requires Valid()
      modifies this, dst
      ensures Valid() && (ok <==> old(length) + |src| < dst.Length)
      ensures ok ==> Contents() == old(Contents()) + src && dst[length] == '\0'
      ensures !ok ==> old(Contents()) <= Contents() <= old(Contents()) + src
    {
      for i := 0 to |src|
        invariant Valid() && length == old(length) + i && Contents() == old(Contents()) + src[..i]
      {
        if length + 1 >= dst.Length {
          assert src[..i] <= src;
          return false;
        }
        dst[length] := src[i];
        length := length + 1;
      }
      assert src[..|src|] == src;
      dst[length] := '\0';
      ok := true;
    }

    method AppendQuoted(src: string) returns (ok: bool)
      requires Valid()
      modifies this, dst
      ensures Valid() && (ok <==> old(length) + |src| + 3 < dst.Length)
      ensures ok ==> Contents() == old(Contents()) + Argument(src)
    {
      hide Clean;
      ok := AppendText(" \"");
      if !ok {
        return;
      }
      ghost var quoted := Contents();
      var i := 0;
      while i < |src|
        invariant i <= |src| && Valid() && length == old(length) + 2 + i && Contents() == quoted + Clean(src)[..i]
      {
        var ch := src[i];
        if ch == '\r' || ch == '\n' {
          ch := ' ';
        }
        if ch == '"' {
          ch := '\'';
        }
        if length + 1 >= dst.Length {
          return false;
        }
        dst[length] := ch;
        length := length + 1;
        dst[length] := '\0';
        i := i + 1;
      }
      assert Clean(src)[..|src|] == Clean(src);
      ok := AppendText("\"");
      assert old(Contents()) + " \"" + Clean(src) + "\"" == old(Contents()) + Argument(src);
    }

    /** The command for one hook: it is built exactly when it fits. */
    method Build(path: string, args: seq<string>) returns (ok: bool)
      requires Valid() && length == 0
      modifies this, dst
      ensures Valid() && (ok <==> |Command(path, args)| < dst.Length)
      ensures ok ==> Contents() == Command(path, args)
    {
      hide Argument, Clean;
      ok := AppendText(path);
      ArgumentsGrow(args, 0);
      if !ok {
        return;
      }
      for i := 0 to |args|
        invariant Valid() && Contents() == path + Arguments(args[..i])
      {
        ArgumentsGrow(args, i);
        ArgumentLength(args[i]);
        ok := AppendQuoted(args[i]);
        if !ok {
          return;
        }
      }
      assert args[..|args|] == args;
      ok := true;
    }
  }

  lemma ArgumentLength(src: string)
    ensures |Argument(src)| == |src| + 3
  {
  }

  lemma {:induction false} ArgumentsGrow(args: seq<string>, i: nat)
    requires i <= |args|
    ensures i < |args| ==> Arguments(args[..i + 1]) == Arguments(args[..i]) + Argument(args[i])
    ensures |Arguments(args[..i])| <= |Arguments(args)|
    ensures i < |args| ==> |Arguments(args[..i + 1])| <= |Arguments(args)|
  {
    if i == 0 {
      if args != [] {
        assert args[..1] == [args[0]] && [args[0]][1..] == [];
        assert Argument(args[0]) + "" == Argument(args[0]) && "" + Argument(args[0]) == Argument(args[0]);
      }
    } else {
      ArgumentsGrow(args[1..], i - 1);
      assert args[..i][1..] == args[1..][..i - 1];
      if i < |args| {
        assert args[..i + 1][1..] == args[1..][..i];
      }
    }
  }

  // --------------------------------------------------- the command is unambiguous

  /** The text split at double quotes. */
  function SplitQuotes(s: string): seq<string>
    decreases |s|
  {
    var i := IndexOf(s, '"');
    if i == |s| then [s] else [s[..i]] + SplitQuotes(s[i + 1..])
  }

  lemma SplitAt(front: string, rest: string)
    requires '"' !in front
    ensures SplitQuotes(front + ("\"" + rest)) == [front] + SplitQuotes(rest)
  {
    var s := front + ("\"" + rest);
    assert s[..|front|] == front && s[|front|] == '"' && s[|front| + 1..] == rest;
    IndexOfUnique(s, '"', |front|);
  }

  lemma SplitTwo(a: string, b: string, tail: string)
    requires '"' !in a && '"' !in b
    ensures SplitQuotes(a + ("\"" + (b + ("\"" + tail)))) == [a, b] + SplitQuotes(tail)
  {
    SplitAt(a, b + ("\"" + tail));
    SplitAt(b, tail);
    TwoInFront(a, b, SplitQuotes(tail));
  }

  lemma TwoInFront(a: string, b: string, rest: seq<string>)
    ensures [a] + ([b] + rest) == [a, b] + rest
  {
  }

  /** What splitting gives for the arguments: each cleaned, with a space before it. */
  function Pieces(args: seq<string>): seq<string> {
    if args == [] then [""] else [" ", Clean(args[0])] + Pieces(args[1..])
  }

  lemma {:induction false} SplitArguments(args: seq<string>)
    ensures SplitQuotes(Arguments(args)) == Pieces(args)
  {
    if args == [] {
      IndexOfUnique("", '"', 0);
    } else {
      var rest := Arguments(args[1..]);
      assert Arguments(args) == " " + ("\"" + (Clean(args[0]) + ("\"" + rest)));
      SplitTwo(" ", Clean(args[0]), rest);
      SplitArguments(args[1..]);
    }
  }

  lemma {:induction false} PiecesInjective(a: seq<string>, b: seq<string>)
    requires Pieces(a) == Pieces(b)
    ensures |a| == |b| && forall i | 0 <= i < |a| :: Clean(a[i]) == Clean(b[i])
  {
    assert |Pieces(a)| == 1 <==> a == [];
    assert |Pieces(b)| == 1 <==> b == [];
    if a != [] {
      assert Pieces(a)[1] == Clean(a[0]) && Pieces(b)[1] == Clean(b[0]);
      assert Pieces(a)[2..] == Pieces(a[1..]) && Pieces(b)[2..] == Pieces(b[1..]);
      PiecesInjective(a[1..], b[1..]);
    }
  }

  lemma {:induction false} SameArguments(a: seq<string>, b: seq<string>)
    requires |a| == |b| && forall i | 0 <= i < |a| :: Clean(a[i]) == Clean(b[i])
    ensures Arguments(a) == Arguments(b)
  {
    if a != [] {
      SameArguments(a[1..], b[1..]);
    }
  }

  /** The path, then every cleaned argument, with the text between quotes around them. */
  function CommandPieces(path: string, args: seq<string>): seq<string>
    requires args != []
  {
    [path + " ", Clean(args[0])] + Pieces(args[1..])
  }

  lemma Regroup(path: string, clean: string, tail: string)
    ensures path + ((" \"" + clean + "\"") + tail) == (path + " ") + ("\"" + (clean + ("\"" + tail)))
  {
  }

  lemma SplitCommand(path: string, args: seq<string>)
    requires '"' !in path && args != []
    ensures SplitQuotes(Command(path, args)) == CommandPieces(path, args)
  {
    var tail := Arguments(args[1..]);
    Regroup(path, Clean(args[0]), tail);
    SplitTwo(path + " ", Clean(args[0]), tail);
    SplitArguments(args[1..]);
  }

  lemma CommandPiecesInjective(path: string, args: seq<string>, path': string, args': seq<string>)
    requires args != [] && args' != [] && CommandPieces(path, args) == CommandPieces(path', args')
    ensures path == path' && |args| == |args'| && forall i | 0 <= i < |args| :: Clean(args[i]) == Clean(args'[i])
  {
    var p, p' := CommandPieces(path, args), CommandPieces(path', args');
    assert p[0] == path + " " && p'[0] == path' + " ";
    assert path == (path + " ")[..|path + " "| - 1] && path' == (path' + " ")[..|path' + " "| - 1];
    assert p[1] == Clean(args[0]) && p'[1] == Clean(args'[0]);
    assert p[2..] == Pieces(args[1..]) && p'[2..] == Pieces(args'[1..]);
    PiecesInjective(args[1..], args'[1..]);
    forall i | 0 <= i < |args|
      ensures Clean(args[i]) == Clean(args'[i])
    {
      if i > 0 {
        assert args[i] == args[1..][i - 1] && args'[i] == args'[1..][i - 1];
      }
    }
  }

  /** For script paths without a double quote, splitting the command at double quotes gives
      back the path and every cleaned argument, so a command determines them. */
  lemma CommandUnambiguous(path: string, args: seq<string>, path': string, args': seq<string>)
    requires '"' !in path && '"' !in path' && args != [] && args' != []
    ensures SplitQuotes(Command(path, args)) == CommandPieces(path, args)
    ensures Command(path, args) == Command(path', args') <==>
              path == path' && |args| == |args'| && forall i | 0 <= i < |args| :: Clean(args[i]) == Clean(args'[i])
  {
    SplitCommand(path, args);
    SplitCommand(path', args');
    if Command(path, args) == Command(path', args') {
      CommandPiecesInjective(path, args, path', args');
    } else if path == path' && |args| == |args'| && forall i | 0 <= i < |args| :: Clean(args[i]) == Clean(args'[i]) {
      SameArguments(args, args');
    }
  }

  /** What a hook is told about an event. */
  function HookArgs(e: Event): seq<string> {
    [Name(e.kind), e.nick, e.target, e.text]
  }

  /** Line ends become spaces, double quotes apostrophes, and nothing else is changed. */
  lemma CleanedText(s: string, i: nat)
    requires i < |s|
    ensures s[i] == '\r' || s[i] == '\n' ==> Clean(s)[i] == ' '
    ensures s[i] == '"' ==> Clean(s)[i] == '\''
    ensures s[i] != '\r' && s[i] != '\n' && s[i] != '"' ==> Clean(s)[i] == s[i]
  {
  }

  /** What a script finds between the double quotes of its command: the kind of the event, the nick,
      the target and the text, in this order. */
  lemma HookReads(path: string, e: Event)
    requires '"' !in path
    ensures SplitQuotes(Command(path, HookArgs(e)))
         == [path + " ", Clean(Name(e.kind)), " ", Clean(e.nick), " ", Clean(e.target), " ", Clean(e.text), ""]
  {
    hide Clean, SplitQuotes, Name;
    SplitCommand(path, HookArgs(e));
    var args := [e.nick, e.target, e.text];
    assert HookArgs(e)[1..] == args && HookArgs(e)[0] == Name(e.kind);
    assert args[1..] == [e.target, e.text] && args[1..][1..] == [e.text] && args[1..][1..][1..] == [];
    assert Pieces([e.text]) == [" ", Clean(e.text), ""];
    assert Pieces([e.target, e.text]) == [" ", Clean(e.target), " ", Clean(e.text), ""];
    assert Pieces(args) == [" ", Clean(e.nick), " ", Clean(e.target), " ", Clean(e.text), ""];
  }

  /** For every event a line or a lifecycle step can produce, and every path the hook code can
      build, the command has at most 498 characters: assembling it never fails. */
  lemma HookCommandFits(path: string, e: Event)
    requires |path| <= 127 && |e.nick| <= NICK_MAX && |e.target| <= TARGET_MAX && |e.text| <= TEXT_MAX
    ensures |Command(path, HookArgs(e))| <= 498 < COMMAND_SIZE
  {
    var args := HookArgs(e);
    assert |Name(e.kind)| <= 10;
    assert args[1..][1..][1..][1..] == [];
    assert |Arguments(args)| == |Argument(args[0])| + |Arguments(args[1..])|;
    assert |Arguments(args[1..])| == |Argument(args[1])| + |Arguments(args[1..][1..])|;
    assert |Arguments(args[1..][1..])| == |Argument(args[2])| + |Arguments(args[1..][1..][1..])|;
    assert |Arguments(args[1..][1..][1..])| == |Argument(args[3])|;
  }
}
