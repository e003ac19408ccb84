// src/irc.c: sending lines, and cutting a received byte stream into lines.
module Irc {
  import opened Text
  import opened NetIo

  const LINE_MAX := 512

  // ---------------------------------------------------------------- sending

  /** The bytes of one line on the wire. */
  function Ended(line: string): string {
    line + "\r\n"
  }

  /** The bytes of a list of lines on the wire. */
  function Stream(lines: seq<string>): string {
    if lines == [] then "" else Ended(lines[0]) + Stream(lines[1..])
  }

  /** A line is followed by its ending only when every byte of it went out. */
  function WriteLine(w: Wire, line: string): (r: (Wire, bool))
    ensures r.1 <==> r.0.sent == w.sent + Ended(line)
    ensures w.sent <= r.0.sent <= w.sent + Ended(line)
  {
    var first := Write(w, line);
    assert w.sent + Ended(line) == w.sent + line + "\r\n";
    if first.1 then Write(first.0, "\r\n") else first
  }

  method SendLine(sock: Socket, line: string) returns (ok: bool)
    modifies sock
    ensures (sock.State(), ok) == WriteLine(old(sock.State()), line)
  {
    ok := sock.SendAll(line);
    if ok {
      ok := sock.SendAll("\r\n");
    }
  }

  /** The lines `ambot_irc_send_registration` sends, each cut to the line buffer. */
  function RegistrationLines(nick: string, user: string, pass: string): seq<string> {
    (if pass != "" then [Fit("PASS " + pass, LINE_MAX)] else [])
    + [Fit("NICK " + nick, LINE_MAX), Fit("USER " + user + " 0 * :AmBot", LINE_MAX)]
  }

  /** On success the peer has been sent exactly the registration lines, in order,
      whatever partial writes happened on the way; on failure a proper prefix. */
  method SendRegistration(sock: Socket, nick: string, user: string, pass: string) returns (ok: bool)
    modifies sock
    ensures ok <==> sock.sent == old(sock.sent) + Stream(RegistrationLines(nick, user, pass))
    ensures old(sock.sent) <= sock.sent <= old(sock.sent) + Stream(RegistrationLines(nick, user, pass))
  {
    ghost var rest := RegistrationLines(nick, user, pass);
    ghost var total := sock.sent + Stream(rest);
    ghost var before := sock.sent;
    if pass != "" {
      ok := SendLine(sock, Fit("PASS " + pass, LINE_MAX));
      OneLineOn(before, rest, total, sock.sent);
      if !ok {
        return;
      }
      before, rest := sock.sent, rest[1..];
    }
    ok := SendLine(sock, Fit("NICK " + nick, LINE_MAX));
    OneLineOn(before, rest, total, sock.sent);
    if !ok {
      return;
    }
    before, rest := sock.sent, rest[1..];
    ok := SendLine(sock, Fit("USER " + user + " 0 * :AmBot", LINE_MAX));
    OneLineOn(before, rest, total, sock.sent);
  }

  lemma OneLineOn(before: string, rest: seq<string>, total: string, after: string)
    requires rest != [] && before + Stream(rest) == total
    requires before <= after <= before + Ended(rest[0])
    ensures before <= after <= total
    ensures after == before + Ended(rest[0]) ==> after + Stream(rest[1..]) == total
    ensures after != before + Ended(rest[0]) ==> after != total
  {
    assert total == before + Ended(rest[0]) + Stream(rest[1..]);
  }

  lemma {:induction false} StreamAppend(a: seq<string>, b: seq<string>)
    ensures Stream(a + b) == Stream(a) + Stream(b)
  {
    if a == [] {
      assert a + b == b;
    } else {
      assert (a + b)[1..] == a[1..] + b;
      StreamAppend(a[1..], b);
    }
  }

  // -------------------------------------------------------------- receiving

  /** The framer's abstract state: the unfinished line, or discarding one that is
      too long. */
  datatype Framer = Framer(line: string, dropping: bool)

  const IDLE := Framer("", false)

  /** A line callback: takes the consumer's state and a line, gives its new state and
      whether it stops the feed. */
  type Callback<!S> = (S, string) -> (S, bool)

  datatype Fed<S> = Fed(framer: Framer, state: S, stopped: bool)

  function StripCr(s: string): string {
    if s != "" && s[|s| - 1] == '\r' then s[..|s| - 1] else s
  }

  /** A byte other than a newline. */
  function Push(f: Framer, ch: char): Framer {
    if f.dropping then f
    else if |f.line| >= LINE_MAX then Framer("", true)
    else Framer(f.line + [ch], false)
  }

  function Feed<S>(f: Framer, data: string, cb: Callback<S>, s: S): Fed<S>
    decreases |data|
  {
    if data == "" then Fed(f, s, false)
    else if data[0] != '\n' then Feed(Push(f, data[0]), data[1..], cb, s)
    else if f.dropping then Feed(IDLE, data[1..], cb, s)
    else
      var (s', stop) := cb(s, CStr(StripCr(f.line)));
      if stop then Fed(IDLE, s', true) else Feed(IDLE, data[1..], cb, s')
  }

  /** `struct ambot_irc_framer` with its in-place line buffer. */
  class LineFramer {
    const line: array<char>
    var length: nat
    var dropping: bool

    ghost predicate Valid()
      reads this
    {
      line.Length == LINE_MAX + 1 && length <= LINE_MAX && (dropping ==> length == 0)
    }

    ghost function State(): Framer
      requires Valid()
      reads this, line
    {
      Framer(line[..length], dropping)
    }

    constructor ()
      ensures Valid() && fresh(line) && State() == IDLE
    {
      line := new char[LINE_MAX + 1](_ => '\0');
      length, dropping := 0, false;
    }

    method FeedBytes<S>(data: seq<char>, cb: Callback<S>, start: S) returns (s: S, stopped: bool)
      requires Valid()
      modifies this, line
      ensures Valid()
      ensures Fed(State(), s, stopped) == Feed(old(State()), data, cb, start)
    {
      hide CStr;
      s := start;
      for i := 0 to |data|
        invariant Valid()
        invariant Feed(old(State()), data, cb, start) == Feed(State(), data[i..], cb, s)
      {
        var ch := data[i];
        assert data[i..][1..] == data[i + 1..];
        ghost var before := State();
        if ch == '\n' {
          if !dropping {
            if length > 0 && line[length - 1] == '\r' {
              length := length - 1;
            }
            line[length] := '\0';
            assert line[..length] == StripCr(before.line);
            var answer := cb(s, CStr(line[..length]));
            s := answer.0;
            if answer.1 {
              length, dropping := 0, false;
              assert State() == IDLE;
              return s, true;
            }
          }
          length, dropping := 0, false;
          assert State() == IDLE;
          continue;
        }
        AddByte(ch);
      }
      stopped := false;
    }

    /** A byte of an unfinished line. */
    method AddByte(ch: char)
      requires Valid()
      modifies this, line
      ensures Valid() && State() == Push(old(State()), ch)
    {
      if dropping {
        return;
      }
      if length >= LINE_MAX {
        length, dropping := 0, true;
        return;
      }
      line[length] := ch;
      length := length + 1;
    }
  }
}
