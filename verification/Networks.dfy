// src/networks.c: the validated projection of the configuration to runtime networks.
module Networks {
  import opened Text
  import opened Settings
  import opened Config

  /** `ambot_network_validate_security`. */
  predicate Secure(s: Settings) {
    (s.tls ==> s.useAmbnc) && (s.sasl ==> s.saslUser != "" && s.saslPass != "")
  }

  function CopyAll(channels: seq<string>): seq<string> {
    seq(|channels|, i requires 0 <= i < |channels| => Fit(channels[i], CHANNEL_MAX))
  }

  /** `copy_network`: every text goes through a bounded copy once more. */
  function CopyNetwork(n: Network): Network {
    var s := n.settings;
    Network(Fit(n.name, NAME_MAX),
            s.(host := Fit(s.host, 127), nick := Fit(s.nick, 31), user := Fit(s.user, 31), pass := Fit(s.pass, 63),
               owner := Fit(s.owner, 31), hookDir := Fit(s.hookDir, 127), moduleDir := Fit(s.moduleDir, 127),
               ambncHost := Fit(s.ambncHost, 127), saslUser := Fit(s.saslUser, 31), saslPass := Fit(s.saslPass, 63),
               botUrl := "", botExpert := "", botTimeout := 0, channels := CopyAll(s.channels)))
  }

  /** The network of a configuration without sections. */
  function Legacy(g: Settings): Network {
    CopyNetwork(Network("default", g.(channels := CopyAll(g.channels))))
  }

  function Accepted(networks: seq<Network>): seq<Network> {
    if networks == [] then []
    else
      var n := CopyNetwork(networks[|networks| - 1]);
      Accepted(networks[..|networks| - 1]) + if Secure(n.settings) then [n] else []
  }

  /** `struct ambot_networks`. */
  class Runtime {
    var items: seq<Network>
    var skipped: nat

    constructor ()
      ensures items == [] && skipped == 0
    {
      items, skipped := [], 0;
    }

    /** With sections: exactly the secure ones, in order, and every other one counted as
        skipped. Without: the one network the globals describe. */
    method FromConfig(c: Cfg) returns (ok: bool)
      modifies this
      ensures c.networks != [] ==>
                && items == Accepted(c.networks[..if |c.networks| < NETWORKS_MAX then |c.networks| else NETWORKS_MAX])
                && (ok <==> items != [])
      ensures c.networks != [] && |c.networks| <= NETWORKS_MAX ==> |items| + skipped == |c.networks| + c.skipped
      ensures c.networks == [] && (c.globals.host == "" || c.globals.nick == "") ==> !ok && items == []
      ensures c.networks == [] && c.globals.host != "" && c.globals.nick != "" ==>
                items == [Legacy(c.globals)] && (ok <==> Secure(Legacy(c.globals).settings))
    {
      hide CopyNetwork, Secure, CopyAll;
      items, skipped := [], 0;
      if c.networks != [] {
        skipped := c.skipped;
        var i := 0;
        while i < |c.networks| && i < NETWORKS_MAX
          invariant i <= |c.networks| && i <= NETWORKS_MAX
          invariant items == Accepted(c.networks[..i])
          invariant |items| + skipped == c.skipped + i
        {
          assert c.networks[..i + 1][..i] == c.networks[..i];
          var candidate := CopyNetwork(c.networks[i]);
          if Secure(candidate.settings) {
            items := items + [candidate];
          } else {
            skipped := skipped + 1;
          }
          i := i + 1;
        }
        return items != [];
      }
      if c.globals.host == "" || c.globals.nick == "" {
        return false;
      }
      items := [Legacy(c.globals)];
      ok := Secure(items[0].settings);
    }
  }

  // ------------------------------------------------------- nothing is lost

  predicate WholeNetwork(n: Network) {
    |n.name| <= NAME_MAX && Bounded(n.settings)
    && n.settings.botUrl == "" && n.settings.botExpert == "" && n.settings.botTimeout == 0
  }

  lemma NothingTruncated(n: Network)
    requires WholeNetwork(n)
    ensures CopyNetwork(n) == n
  {
    hide CopyAll, Fit, Bounded;
    var s := n.settings;
    TextsFit(s);
    ChannelsWhole(s.channels);
    FitWhole(n.name, NAME_MAX);
    FitWhole(s.host, 127);
    FitWhole(s.nick, 31);
    FitWhole(s.user, 31);
    FitWhole(s.pass, 63);
    FitWhole(s.owner, 31);
    FitWhole(s.hookDir, 127);
    FitWhole(s.moduleDir, 127);
    FitWhole(s.ambncHost, 127);
    FitWhole(s.saslUser, 31);
    FitWhole(s.saslPass, 63);
  }

  /** What is bounded fits the fields of a runtime network. */
  lemma TextsFit(s: Settings)
    requires Bounded(s)
    ensures |s.host| <= 127 && |s.nick| <= 31 && |s.user| <= 31 && |s.pass| <= 63 && |s.owner| <= 31
    ensures |s.hookDir| <= 127 && |s.moduleDir| <= 127 && |s.ambncHost| <= 127
    ensures |s.saslUser| <= 31 && |s.saslPass| <= 63 && forall c | c in s.channels :: |c| <= CHANNEL_MAX
  {
    hide Bounded;
    TextFits(s, Host);
    TextFits(s, Nick);
    TextFits(s, User);
    TextFits(s, Pass);
    TextFits(s, Owner);
    TextFits(s, HookDir);
    TextFits(s, ModuleDir);
    TextFits(s, AmbncHost);
    TextFits(s, SaslUser);
    TextFits(s, SaslPass);
    ChannelsFit(s);
  }

  lemma TextFits(s: Settings, k: Key)
    requires Bounded(s) && k != Channel && Get(s, k).Str?
    ensures |Get(s, k).s| <= Max(k)
  {
    hide Get;
  }

  lemma ChannelsFit(s: Settings)
    requires Bounded(s)
    ensures forall c | c in s.channels :: |c| <= CHANNEL_MAX
  {
    hide Get;
  }

  lemma FitWhole(s: string, max: nat)
    requires |s| <= max
    ensures Fit(s, max) == s
  {
  }

  lemma ChannelsWhole(channels: seq<string>)
    requires forall c | c in channels :: |c| <= CHANNEL_MAX
    ensures CopyAll(channels) == channels
  {
  }

  lemma {:induction false} LoadedNetworksAreWhole(c: Cfg, items: seq<Item>, n: nat)
    requires n <= |items|
    ensures forall net | net in Scan(c, items, n).cfg.networks :: WholeNetwork(net)
  {
    if n > 0 {
      var s := Scan(c, items, n - 1);
      LoadedNetworksAreWhole(c, items, n - 1);
      match items[n - 1] {
        case Blank =>
        case Header(name) =>
          DefaultsBounded(s.cfg.globals);
        case Assign(k, value) =>
          if s.current {
            KeyKeepsWhole(s.cfg.networks[|s.cfg.networks| - 1], k, value);
          }
      }
    }
  }

  lemma KeyKeepsWhole(net: Network, k: Key, value: string)
    requires WholeNetwork(net)
    ensures WholeNetwork(net.(settings := Apply(net.settings, k, value, false)))
  {
    ApplyBounded(net.settings, k, value, false);
  }

  /** The secure networks of a list, in order. */
  function SecureOnes(networks: seq<Network>): seq<Network> {
    if networks == [] then []
    else
      var last := networks[|networks| - 1];
      SecureOnes(networks[..|networks| - 1]) + if Secure(last.settings) then [last] else []
  }

  lemma {:induction false} AcceptedAreSecureOnes(networks: seq<Network>)
    requires forall n | n in networks :: WholeNetwork(n)
    ensures Accepted(networks) == SecureOnes(networks)
    ensures forall n | n in Accepted(networks) :: Secure(n.settings)
    ensures |Accepted(networks)| <= |networks|
  {
    if networks != [] {
      AcceptedAreSecureOnes(networks[..|networks| - 1]);
      NothingTruncated(networks[|networks| - 1]);
    }
  }

  /** From a file with at least one NETWORK header: the networks handed to the supervisor
      are the stored sections that pass the security check, in file order with no text
      shortened, and together with the skipped ones they account for every header. */
  lemma EndToEnd(c: Cfg, items: seq<Item>)
    requires Headers(items, |items|) > 0
    ensures var cfg := Load(c, items);
            && 1 <= |cfg.networks| <= NETWORKS_MAX
            && Accepted(cfg.networks) == SecureOnes(cfg.networks)
            && (forall n | n in Accepted(cfg.networks) :: Secure(n.settings))
            && |cfg.networks| + cfg.skipped == Headers(items, |items|)
            && var lost := |cfg.networks| - |Accepted(cfg.networks)|;
               lost >= 0 && |Accepted(cfg.networks)| + (lost + cfg.skipped) == Headers(items, |items|)
  {
    LoadMeaning(c, items, |items|);
    LoadedNetworksAreWhole(c, items, |items|);
    AcceptedAreSecureOnes(Load(c, items).networks);
  }

  method ReadNetworks(config: Configuration, pieces: seq<string>, runtime: Runtime) returns (ok: bool)
    modifies config, runtime
    ensures config.State() == Load(old(config.State()), Items(pieces))
    ensures var h := Headers(Items(pieces), |pieces|);
            h > 0 ==>
              && |runtime.items| + runtime.skipped == h
              && runtime.items == SecureOnes(config.networks)
              && forall n | n in runtime.items :: Secure(n.settings)
  {
    ghost var before, items := config.State(), Items(pieces);
    config.LoadLines(pieces);
    ok := runtime.FromConfig(Cfg(config.globals, config.networks, config.skipped));
    if Headers(items, |items|) > 0 {
      EndToEnd(before, items);
      assert config.networks[..|config.networks|] == config.networks;
    }
  }
}
