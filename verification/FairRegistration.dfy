// Which clients a fair run registers, whatever the endpoint calls its network.
module FairRegistration {
  import opened Text
  import opened Irc
  import opened Framing
  import opened Settings
  import opened ModernIrc
  import opened OneNetwork
  import opened Fixture
  import opened Registration
  import opened ByteStreams
  import opened Fairness
  import opened Registering
  import opened Witnesses
  import opened Endings

  // -------------------------------------------------------------- a nick without a word

  /** An endpoint that has no nick yet. */
  predicate Nameless(v: Server) {
    v.nick == None && !v.registered
  }

  lemma ObeyNameless(ep: Endpoint, v: Server, cmd: string, args: string)
    requires Nameless(v) && (cmd == "CAP" || cmd == "PASS")
    ensures Nameless(Obey(ep, v, cmd, args).0)
  {
    hide Auth;
  }

  lemma ServeNameless(ep: Endpoint, v: Server, word: string, rest: string)
    requires Nameless(v) && (word == "CAP" || word == "PASS")
    ensures Nameless(Serve(ep, v, word + " " + rest + "\r").0)
  {
    hide Obey, RStrip;
    ServeEnding(ep, v, word + " " + rest, '\r');
    ServeIsObey(ep, v, word, rest, word + " " + rest);
    ObeyNameless(ep, v, word, RStrip(rest));
  }

  lemma {:induction false} DownStays(ep: Endpoint, lines: seq<string>, i: nat, n: nat)
    requires i <= n <= |lines| && !AfterLines(ep, lines, i).up
    ensures AfterLines(ep, lines, n) == AfterLines(ep, lines, i)
  {
    hide Serve;
    if i < n {
      DownStays(ep, lines, i, n - 1);
    }
  }

  /** CAP LS and PASS come before NICK. */
  predicate BeforeNick(s: Settings, line: string) {
    line == CAP_LS || line == "PASS " + s.pass
  }

  lemma NickAt(s: Settings) returns (i: nat)
    requires Bounded(s)
    ensures i < |Greeting(s)| && Greeting(s)[i] == "NICK " + s.nick
    ensures forall j | 0 <= j < i :: BeforeNick(s, Greeting(s)[j])
  {
    assert Get(s, Pass).Str? && Get(s, Nick).Str?;
    i := (if s.cap then 1 else 0) + (if s.pass != "" then 1 else 0);
    assert RegistrationLines(s.nick, s.user, s.pass)[if s.pass != "" then 1 else 0] == "NICK " + s.nick;
  }

  lemma ServeBeforeNick(s: Settings, ep: Endpoint, v: Server, line: string)
    requires Nameless(v) && BeforeNick(s, line)
    ensures Nameless(Serve(ep, v, line + "\r").0)
  {
    if line == CAP_LS {
      assert "CAP" + " " + "LS 302" == CAP_LS;
      ServeNameless(ep, v, "CAP", "LS 302");
    } else {
      assert "PASS" + " " + s.pass == "PASS " + s.pass;
      ServeNameless(ep, v, "PASS", s.pass);
    }
  }

  lemma {:induction false} NamelessUntil(s: Settings, ep: Endpoint, lines: seq<string>, i: nat)
    requires i <= |lines| && forall j | 0 <= j < i :: BeforeNick(s, lines[j])
    ensures Nameless(AfterLines(ep, WithCr(lines), i))
  {
    hide Serve;
    if i > 0 {
      NamelessUntil(s, ep, lines, i - 1);
      ServeBeforeNick(s, ep, AfterLines(ep, WithCr(lines), i - 1), lines[i - 1]);
    }
  }

  lemma NoWordStops(s: Settings, ep: Endpoint)
    requires Bounded(s) && OneLineEach(s) && NickWord(s) == ""
    ensures !Greeted(s, ep).up && !Greeted(s, ep).registered
  {
    hide Serve, Greeting, Joins, GreetingLines, Bounded, NickWord;
    var lines := Greeting(s) + Joins(s.channels);
    var i := NickAt(s);
    NamelessUntil(s, ep, lines, i);
    StopsAtNick(s, ep, WithCr(lines), i);
    DownStays(ep, WithCr(lines), i + 1, |lines|);
    GreetingIsCut(s);
  }

  lemma StopsAtNick(s: Settings, ep: Endpoint, lines: seq<string>, i: nat)
    requires i < |lines| && lines[i] == "NICK " + s.nick + "\r" && NickWord(s) == ""
    requires Nameless(AfterLines(ep, lines, i))
    ensures !AfterLines(ep, lines, i + 1).up && !AfterLines(ep, lines, i + 1).registered
  {
    hide Serve;
    ServeNoNick(ep, AfterLines(ep, lines, i), s.nick);
    ServeEnding(ep, AfterLines(ep, lines, i), "NICK " + s.nick, '\r');
  }

  /** A nick such as `:` leaves the endpoint without a word and stops it at the NICK line: it
      registers that client under no schedule, whatever the credentials. */
  lemma NoWordNoRegistration(s: Settings, ep: Endpoint)
    requires AllOctets(s, ep) && Bounded(s) && OneLineEach(s) && NickWord(s) == ""
    ensures !CanRegister(s, ep)
  {
    hide Course, Greeted;
    NoWordStops(s, ep);
    forall schedule: nat -> Event, n: nat
      ensures !Course(s, ep, schedule, n).server.registered
    {
      if Course(s, ep, schedule, n).server.registered {
        RegistrationNeeds(s, ep, schedule, n);
      }
    }
  }

  // ----------------------------------------------------------- any name of the network

  /** The same endpoint with a network name that fits a ping. */
  function Unnamed(ep: Endpoint): Endpoint {
    ep.(network := "")
  }

  lemma ObeyUnnamed(ep: Endpoint, v: Server, cmd: string, args: string)
    ensures Obey(ep, v, cmd, args).0 == Obey(Unnamed(ep), v, cmd, args).0
    ensures !v.registered && !Obey(ep, v, cmd, args).0.registered ==>
              Obey(ep, v, cmd, args) == Obey(Unnamed(ep), v, cmd, args)
  {
    hide FirstWord, LStrip, Upper;
  }

  lemma ServeUnnamed(ep: Endpoint, v: Server, raw: string)
    ensures Serve(ep, v, raw).0 == Serve(Unnamed(ep), v, raw).0
    ensures !v.registered && !Serve(ep, v, raw).0.registered ==>
              Serve(ep, v, raw) == Serve(Unnamed(ep), v, raw)
  {
    hide Obey;
    var line := RStrip(raw);
    ObeyUnnamed(ep, v, Command(line), Args(line));
  }

  /** Until the client is registered the name is never sent. */
  ghost predicate Alike(y: Ends, z: Ends) {
    (y.server.registered && z.server.registered) || (y == z && !y.server.registered)
  }

  lemma AdvanceAlike(s: Settings, ep: Endpoint, y: Ends, z: Ends, event: Event)
    requires Alike(y, z)
    ensures Alike(Advance(s, ep, y, event), Advance(s, Unnamed(ep), z, event))
  {
    hide Serve, Feed;
    if event.EndpointReads? {
      if CanHappen(y, event) {
        var raw := y.toServer[..IndexOf(y.toServer, '\n') + 1];
        ServeUnnamed(ep, y.server, raw);
        ServeKeepsRegistered(ep, y.server, raw);
      }
      if CanHappen(z, event) {
        ServeKeepsRegistered(Unnamed(ep), z.server, z.toServer[..IndexOf(z.toServer, '\n') + 1]);
      }
    }
  }

  lemma {:induction false} CourseAlike(s: Settings, ep: Endpoint, schedule: nat -> Event, n: nat)
    ensures Alike(Course(s, ep, schedule, n), Course(s, Unnamed(ep), schedule, n))
  {
    hide Advance;
    if n > 0 {
      CourseAlike(s, ep, schedule, n - 1);
      AdvanceAlike(s, ep, Course(s, ep, schedule, n - 1), Course(s, Unnamed(ep), schedule, n - 1), schedule(n - 1));
    }
  }

  ghost predicate RegistersOn(s: Settings, ep: Endpoint, schedule: nat -> Event) {
    exists n: nat :: Course(s, ep, schedule, n).server.registered
  }

  lemma AdvanceRegistered(s: Settings, ep: Endpoint, y: Ends, event: Event)
    requires y.server.registered
    ensures Advance(s, ep, y, event).server.registered
  {
    hide Serve, Feed;
    if event.EndpointReads? && CanHappen(y, event) {
      ServeKeepsRegistered(ep, y.server, y.toServer[..IndexOf(y.toServer, '\n') + 1]);
    }
  }

  lemma {:induction false} RegisteredLater(s: Settings, ep: Endpoint, schedule: nat -> Event, m: nat, n: nat)
    requires m <= n && Course(s, ep, schedule, m).server.registered
    ensures Course(s, ep, schedule, n).server.registered
  {
    hide Advance;
    if m < n {
      RegisteredLater(s, ep, schedule, m, n - 1);
      AdvanceRegistered(s, ep, Course(s, ep, schedule, n - 1), schedule(n - 1));
    }
  }

  lemma {:induction false} QuietStays(s: Settings, ep: Endpoint, schedule: nat -> Event, n: nat, m: nat)
    requires n <= m && Fairness.Quiet(Course(s, ep, schedule, n))
    ensures Course(s, ep, schedule, m) == Course(s, ep, schedule, n)
  {
    hide Serve, Feed;
    if n < m {
      QuietStays(s, ep, schedule, n, m - 1);
    }
  }

  /** A run that has ended registered the client at some point exactly when it is registered then. */
  lemma RegisteredAtEnd(s: Settings, ep: Endpoint, schedule: nat -> Event, n: nat)
    requires Fairness.Quiet(Course(s, ep, schedule, n))
    ensures RegistersOn(s, ep, schedule) <==> Course(s, ep, schedule, n).server.registered
  {
    hide Course, Fairness.Quiet;
    if RegistersOn(s, ep, schedule) {
      var m: nat :| Course(s, ep, schedule, m).server.registered;
      if m <= n {
        RegisteredLater(s, ep, schedule, m, n);
      } else {
        QuietStays(s, ep, schedule, n, m);
      }
    }
  }

  /** Whatever the endpoint calls its network, with or without CAP and SASL: a client is registered on
      a fair run exactly when its nick has a word and, if the endpoint requires SASL, it wants it and
      user and password are the endpoint's own. */
  lemma RegistersOnFairRuns(s: Settings, ep: Endpoint, schedule: nat -> Event)
    requires Willing(s, ep) && Fair(schedule)
    ensures RegistersOn(s, ep, schedule) <==> Registers(s, ep)
  {
    hide Course, Fairness.Quiet, Bounded, Fair;
    var bare := Unnamed(ep);
    assert Named(s, bare) && (Registers(s, bare) <==> Registers(s, ep));
    var n := FairRunsEndSo(s, bare, schedule);
    RegisteredAtEnd(s, bare, schedule, n);
    SameRegistration(s, ep, schedule);
  }

  lemma SameRegistration(s: Settings, ep: Endpoint, schedule: nat -> Event)
    ensures RegistersOn(s, ep, schedule) <==> RegistersOn(s, Unnamed(ep), schedule)
  {
    hide Course;
    if RegistersOn(s, ep, schedule) {
      var n: nat :| Course(s, ep, schedule, n).server.registered;
      CourseAlike(s, ep, schedule, n);
    }
    if RegistersOn(s, Unnamed(ep), schedule) {
      var n: nat :| Course(s, Unnamed(ep), schedule, n).server.registered;
      CourseAlike(s, ep, schedule, n);
    }
  }

  /** A client with the nick `n` whose password is wrong, at an endpoint that does not require SASL:
      every fair run ends with the client registered there and gone. */
  lemma RegisteredAndGone(schedule: nat -> Event) returns (n: nat)
    requires Fair(schedule)
    ensures var ep := Endpoint("net", "a", "c", false);
            var s := Seeded("irc", 6667, "n", "", "", "").(sasl := true, saslUser := "a", saslPass := "b");
            EndsSo(Course(s, ep, schedule, n), true, false)
  {
    hide Course, EndsSo, Fair;
    var ep := Endpoint("net", "a", "c", false);
    var s := Seeded("irc", 6667, "n", "", "", "").(sasl := true, saslUser := "a", saslPass := "b");
    NickWordOf(s, 'n', "");
    GoneNamed(s, ep);
    n := FairRunsEndSo(s, ep, schedule);
  }

  lemma GoneNamed(s: Settings, ep: Endpoint)
    requires ep == Endpoint("net", "a", "c", false) && NickWord(s) == "n"
    requires s == Seeded("irc", 6667, "n", "", "", "").(sasl := true, saslUser := "a", saslPass := "b")
    ensures Named(s, ep) && Registers(s, ep) && !Stays(s, ep)
  {
    assert "b"[0] != "c"[0] && "n"[0] != "903"[0];
  }
}
