// Who registers when the configuration comes from a file, and concrete runs of the closed
// handshake that end otherwise than one would expect.
module Witnesses {
  import opened Text
  import opened Irc
  import opened Framing
  import opened Settings
  import opened Base64
  import opened Config
  import opened Networks
  import opened Files
  import opened ModernIrc
  import opened OneNetwork
  import opened Fixture
  import opened Handshake
  import opened ByteStreams
  import opened Registration
  import opened Fairness

  // ------------------------------------------------------- networks read from a file

  lemma CopyOneLine(n: Network)
    requires OneLine(n.settings)
    ensures OneLineEach(CopyNetwork(n).settings)
  {
    var s := n.settings;
    assert Get(s, Nick).Str? && Get(s, User).Str? && Get(s, Pass).Str?;
  }

  predicate AllOneLine(networks: seq<Network>) {
    forall i | 0 <= i < |networks| :: OneLineEach(networks[i].settings)
  }

  lemma {:induction false} AcceptedOneLine(networks: seq<Network>)
    requires forall i | 0 <= i < |networks| :: OneLine(networks[i].settings)
    ensures AllOneLine(Networks.Accepted(networks))
  {
    if networks != [] {
      AcceptedOneLine(networks[..|networks| - 1]);
      CopyOneLine(networks[|networks| - 1]);
    }
  }

  lemma LoadedNetworksOneLine(c: Cfg, file: string)
    requires OneLine(c.globals)
    ensures AllOneLine(Networks.Accepted(Load(c, Items(Pieces(file))).networks))
  {
    LoadedOneLine(c, file);
    AcceptedOneLine(Load(c, Items(Pieces(file))).networks);
  }

  ghost predicate AllHonest(networks: seq<Network>, ep: Endpoint) {
    forall i | 0 <= i < |networks| :: Honest(networks[i].settings, ep)
  }

  lemma OneLineAllHonest(networks: seq<Network>, ep: Endpoint)
    requires AllOneLine(networks)
    ensures AllHonest(networks, ep)
  {
    forall i | 0 <= i < |networks|
      ensures Honest(networks[i].settings, ep)
    {
      OneLineIsHonest(networks[i].settings, ep);
    }
  }

  /** Unless a line feed came in with the arguments the program was started with, no network of
      any file can register at an endpoint that requires SASL with credentials that are not its own. */
  lemma FileNetworksAreHonest(c: Cfg, file: string, ep: Endpoint)
    requires OneLine(c.globals)
    ensures AllHonest(Networks.Accepted(Load(c, Items(Pieces(file))).networks), ep)
  {
    LoadedNetworksOneLine(c, file);
    OneLineAllHonest(Networks.Accepted(Load(c, Items(Pieces(file))).networks), ep);
  }

  lemma CopiedChannelsOneLine(s: Settings)
    requires OneLine(s)
    ensures OneLine(s.(channels := CopyAll(s.channels)))
  {
    var t := s.(channels := CopyAll(s.channels));
    assert forall k: Key | k != Channel :: Get(t, k) == Get(s, k);
  }

  /** The same of the one network of a file without sections. */
  lemma LegacyNetworkIsHonest(c: Cfg, file: string, ep: Endpoint)
    requires OneLine(c.globals)
    ensures Honest(Legacy(Load(c, Items(Pieces(file))).globals).settings, ep)
  {
    hide Honest, OneLine, OneLineEach, Load, CopyNetwork;
    LoadedOneLine(c, file);
    var g := Load(c, Items(Pieces(file))).globals;
    CopiedChannelsOneLine(g);
    CopyOneLine(Network("default", g.(channels := CopyAll(g.channels))));
    OneLineIsHonest(Legacy(g).settings, ep);
  }

  // -------------------------------------------------------- a line feed in a password

  /** A password that goes on with a login line. */
  function Smuggling(ep: Endpoint): string {
    "p\nAUTHENTICATE " + Encode(PlainMessage(ep.user, ep.pass))
  }

  function LoginLine(ep: Endpoint): string {
    "AUTHENTICATE " + Encode(PlainMessage(ep.user, ep.pass))
  }

  lemma LoginOneLine(ep: Endpoint)
    ensures '\n' !in LoginLine(ep)
  {
    EncodeAlphabet(PlainMessage(ep.user, ep.pass));
    assert Base64.Value('\n') >= 64;
  }

  /** The password splits its line in two. */
  lemma SmugglingSplits(ep: Endpoint, rest: string)
    ensures Ended("PASS " + Smuggling(ep)) + rest == "PASS p" + "\n" + (LoginLine(ep) + "\r" + "\n" + rest)
  {
    assert "PASS " + "p\nAUTHENTICATE " == "PASS p" + "\n" + "AUTHENTICATE ";
    Regrouped("PASS ", "p\nAUTHENTICATE ", "PASS p", "AUTHENTICATE ",
              Encode(PlainMessage(ep.user, ep.pass)), rest);
  }

  lemma Regrouped(a: string, b: string, first: string, second: string, e: string, rest: string)
    requires a + b == first + "\n" + second
    ensures Ended(a + (b + e)) + rest == first + "\n" + (second + e + "\r" + "\n" + rest)
  {
    assert Ended(a + (b + e)) + rest == (a + b) + (e + "\r" + "\n" + rest);
    assert first + "\n" + second + (e + "\r" + "\n" + rest) == first + "\n" + (second + e + "\r" + "\n" + rest);
  }

  lemma CutTwo(first: string, second: string, stream: string, lines: seq<string>)
    requires '\n' !in first && '\n' !in second && Cut(stream) == (lines, "")
    ensures Cut(first + "\n" + (second + "\n" + stream)).0 == [first, second] + lines
  {
    CutFirst(first, second + "\n" + stream);
    CutFirst(second, stream);
    assert [first] + ([second] + lines) == [first, second] + lines;
  }

  lemma SmugglingStream(ep: Endpoint, rest: seq<string>)
    requires NoFeed(rest)
    ensures Cut(Stream(["PASS " + Smuggling(ep)] + rest)).0 == ["PASS p", LoginLine(ep) + "\r"] + WithCr(rest)
  {
    var first, stream := "PASS " + Smuggling(ep), Stream(rest);
    StreamAppend([first], rest);
    assert Stream([first]) == Ended(first);
    SmugglingSplits(ep, stream);
    CutLines(rest, "");
    assert stream + "" == stream;
    LoginOneLine(ep);
    CutTwo("PASS p", LoginLine(ep) + "\r", stream, WithCr(rest));
  }

  /** A client without CAP and channels whose password smuggles a login. */
  predicate Smuggles(s: Settings, ep: Endpoint) {
    && !s.cap && s.channels == [] && s.pass == Smuggling(ep) && |s.pass| <= 63
    && |s.nick| <= 31 && |s.user| <= 31 && '\n' !in s.nick && '\n' !in s.user
  }

  function LastTwo(s: Settings): seq<string> {
    ["NICK " + s.nick, "USER " + (s.user + " 0 * :AmBot")]
  }

  lemma SmugglingLines(s: Settings, ep: Endpoint)
    requires Smuggles(s, ep)
    ensures GreetingLines(s) == ["PASS p", LoginLine(ep) + "\r"] + WithCr(LastTwo(s))
  {
    assert "USER " + s.user + " 0 * :AmBot" == "USER " + (s.user + " 0 * :AmBot");
    assert Greeting(s) + Joins([]) == ["PASS " + s.pass] + LastTwo(s);
    SmugglingStream(ep, LastTwo(s));
  }

  lemma ServeLoginLine(ep: Endpoint, v: Server)
    ensures Serve(ep, v, LoginLine(ep) + "\r").0 == v.(saslOk := true)
  {
    var message := PlainMessage(ep.user, ep.pass);
    PayloadHasNoEnd(Seeded("", 0, "", "", "", "").(saslUser := ep.user, saslPass := ep.pass));
    ServeEnding(ep, v, LoginLine(ep), '\r');
    ServeAuthenticate(ep, v, Encode(message));
    RoundTrip(message);
    EncodeLength(message);
  }

  /** The endpoint after the four lines. */
  lemma SmugglingServed(s: Settings, ep: Endpoint, lines: seq<string>)
    requires Smuggles(s, ep) && ep.requireSasl && NickWord(s) != ""
    requires lines == ["PASS p", LoginLine(ep) + "\r", "NICK " + s.nick + "\r",
                       "USER " + (s.user + " 0 * :AmBot") + "\r"]
    ensures AfterLines(ep, lines, 3).up && AfterLines(ep, lines, 4).registered
  {
    hide Serve, LoginLine, FirstWord, Smuggles;
    var v := Setup(ep);
    ServePass(ep, v, "p");
    assert "PASS " + "p" == "PASS p";
    assert AfterLines(ep, lines, 1) == v;
    ServeLoginLine(ep, v);
    var w := v.(saslOk := true);
    assert AfterLines(ep, lines, 2) == w;
    ServeEnding(ep, w, "NICK " + s.nick, '\r');
    ServeNick(ep, w, s.nick);
    var x := w.(nick := Some(NickWord(s)));
    assert AfterLines(ep, lines, 3) == x;
    ServeEnding(ep, x, "USER " + (s.user + " 0 * :AmBot"), '\r');
    UserWordExists(s);
    ServeUser(ep, x, s.user + " 0 * :AmBot");
  }

  lemma SmuggledRead(s: Settings, ep: Endpoint, y: Ends, lines: seq<string>)
    requires Smuggles(s, ep) && ep.requireSasl && NickWord(s) != ""
    requires lines == ["PASS p", LoginLine(ep) + "\r"] + WithCr(LastTwo(s))
    requires y.toServer == Glued(lines) && NoFeed(lines) && y.server == Setup(ep)
    ensures Reads(s, ep, y, 4).server.registered
  {
    assert lines == ["PASS p", LoginLine(ep) + "\r", "NICK " + s.nick + "\r",
                     "USER " + (s.user + " 0 * :AmBot") + "\r"];
    SmugglingServed(s, ep, lines);
    ReadsLines(s, ep, y, lines, 4);
  }

  /** With a nick such a client registers at the endpoint whatever its own SASL credentials are. */
  lemma SmuggledLoginRegisters(s: Settings, ep: Endpoint)
    requires Smuggles(s, ep) && ep.requireSasl && NickWord(s) != ""
    ensures Course(s, ep, OnlyReads(), 4).server.registered
  {
    SmugglingLines(s, ep);
    StreamGlued(Greeting(s) + Joins(s.channels));
    SmuggledRead(s, ep, Begun(s, ep), GreetingLines(s));
    OnlyReadsReads(s, ep, 4);
  }

  /** For example with the arguments `n` for the nick and this password, CAP switched off, at an
      endpoint with user `a` and password `b`. */
  lemma LineFeedInPassword()
    ensures var ep := Endpoint("net", "a", "b", true);
            var s := Seeded("irc", 6667, "n", "", Smuggling(ep), "").(cap := false);
            Course(s, ep, OnlyReads(), 4).server.registered && !SameCredentials(s, ep)
  {
    var ep := Endpoint("net", "a", "b", true);
    EncodeLength(PlainMessage("a", "b"));
    var s := Seeded("irc", 6667, "n", "", Smuggling(ep), "").(cap := false);
    NickWordOf(s, 'n', "");
    SmuggledLoginRegisters(s, ep);
  }

  // ------------------------------------------------------------ the nick 903

  lemma LeadIs(w: string)
    requires forall i | 0 <= i < |w| :: !IsBlank(w[i])
    ensures Lead(w) == w
  {
    if w != "" {
      LeadIs(w[1..]);
    }
  }

  lemma NickWordOf(s: Settings, c: char, rest: string)
    requires s.nick == [c] + rest && c != ':' && forall i | 0 <= i < |s.nick| :: !IsBlank(s.nick[i])
    ensures NickWord(s) == s.nick
  {
    var last := s.nick[|s.nick| - 1];
    assert !IsBlank(last) && last != '\r' && last != '\n';
    assert RStrip(s.nick) == s.nick && LStrip(s.nick) == s.nick;
    LeadIs(s.nick);
  }

  /** The endpoint and the client by turns, the client with a full buffer. */
  function Alternating(): nat -> Event {
    (n: nat) => if n % 2 == 0 then EndpointReads else ClientReceives(512)
  }

  lemma {:induction false} AlternatingTurns(k: nat)
    ensures TurnsIn(Alternating(), 2 * k) == Turns(k, false, false)
  {
    if k > 0 {
      AlternatingTurns(k - 1);
      var t := TurnsIn(Alternating(), 2 * k - 1);
      assert t == Turns(k - 1, true, false);
    }
  }

  /** A nick `903` and a wrong password: when nothing can happen any more the endpoint has not
      registered the client, and the client believes it is logged in. */
  lemma Nick903StaysConnected()
    ensures var ep := Endpoint("net", "a", "c", true);
            var s := Seeded("irc", 6667, "903", "", "", "").(sasl := true, saslUser := "a", saslPass := "b");
            var y := Course(s, ep, Alternating(), 2 * Bound(s, ep));
            Fairness.Quiet(y) && !y.server.registered && y.client == Client(DONE, true)
  {
    var ep := Endpoint("net", "a", "c", true);
    var s := Seeded("irc", 6667, "903", "", "", "").(sasl := true, saslUser := "a", saslPass := "b");
    NickWordOf(s, '9', "03");
    Nick903Configured(s, ep);
    AlternatingTurns(Bound(s, ep));
    HandshakeEnds(s, ep, Alternating(), 2 * Bound(s, ep));
  }

  lemma Nick903Configured(s: Settings, ep: Endpoint)
    requires ep == Endpoint("net", "a", "c", true) && NickWord(s) == "903"
    requires s == Seeded("irc", 6667, "903", "", "", "").(sasl := true, saslUser := "a", saslPass := "b")
    ensures Configured(s, ep) && !SameCredentials(s, ep)
  {
    assert "b"[0] != "c"[0];
  }
}
