// Whole runs of the supervisor: what every iteration keeps, what each exit leaves behind,
// and that no network can tell which others run beside it.
module Runs {
  import opened Settings
  import opened Config
  import opened Networks
  import opened Operations
  import opened OneNetwork
  import opened Connections
  import opened Reconnects
  import opened Multinet

  ghost predicate AllSound(nets: seq<Net>) {
    forall i | 0 <= i < |nets| :: Sound(nets[i].link)
  }

  /** What holds at every loop head, whatever control block the run was handed: while network 0 is
      live the control block holds its socket. */
  ghost predicate Started(w: World) {
    && AllSound(w.nets) && Consistent(w.control)
    && (w.nets != [] && Live(w.nets[0]) ==> w.control.sock == w.nets[0].link.sock)
  }

  /** In addition it holds no stale socket. */
  ghost predicate Healthy(w: World) {
    && AllSound(w.nets) && Consistent(w.control)
    && w.control.sock == if w.nets == [] then -1 else w.nets[0].link.sock
  }

  /** The world in which the loop starts. */
  function StartWorld(nets: seq<Net>, c: Control): World {
    World(nets, if nets != [] && Live(nets[0]) then SetSocket(c, nets[0].link.sock) else c)
  }

  /** Start-up establishes this exactly when the control block came in without a stale socket
      or the first network connects at once. */
  lemma StartHealthy(nets: seq<Net>, c: Control)
    requires nets != [] && AllSound(nets) && Consistent(c)
    ensures Started(StartWorld(nets, c))
    ensures Healthy(StartWorld(nets, c)) <==> c.sock == -1 || Live(nets[0])
  {
    assert Sound(nets[0].link);
  }

  lemma {:induction false} ReceiveControl(c: Control, ready: seq<bool>, mids: seq<Net>, afters: seq<Net>,
                                          e: Env, k: nat)
    requires k <= |ready| == |mids| == |afters| == |e.nets|
    requires Consistent(c) && (mids != [] && Live(mids[0]) ==> c.sock == mids[0].link.sock)
    requires AllSound(mids) && forall i | 0 <= i < |mids| ::
               Sound(afters[i].link)
               && (if ready[i] && Live(mids[i]) then Live(afters[i]) ==> afters[i].link.sock == mids[i].link.sock
                   else afters[i] == mids[i])
               && (ready[i] && Live(mids[i]) && e.nets[i].received.Lost? ==> !Live(afters[i]))
    ensures var d := ControlReceive(c, ready, mids, afters, e, k);
            && Consistent(d) && (c.quit ==> d.quit)
            && d.sock == (if mids == [] || !Live(mids[0]) || k == 0 then c.sock else afters[0].link.sock)
  {
    if k > 0 {
      var i := k - 1;
      ReceiveControl(c, ready, mids, afters, e, k - 1);
      var d := ControlReceive(c, ready, mids, afters, e, k - 1);
      OpsConsistent(d, e.nets[i].hooks);
    }
  }

  /** One iteration: the control block follows network 0 as soon as that is live, and keeps what it
      holds until then; a quit request is never cleared. */
  lemma IterateControl(cfgs: seq<Network>, w: World, e: Env)
    requires |cfgs| == |w.nets| == |e.nets| && Started(w)
    ensures var next := Iterate(cfgs, w, e);
            && Started(next) && (w.control.quit ==> next.control.quit)
            && next.control.sock == if cfgs == [] then w.control.sock
                                    else if Live(next.nets[0]) then next.nets[0].link.sock
                                    else if Live(w.nets[0]) then -1 else w.control.sock
  {
    var mids, afters, ready := RetryAll(cfgs, w.nets, e), NetsRound(cfgs, w.nets, e), Ready(w.nets, e);
    var c := ControlRetry(w.control, w.nets, mids);
    forall i | 0 <= i < |mids|
      ensures Sound(mids[i].link) && Sound(afters[i].link)
      ensures Live(w.nets[i]) ==> mids[i] == w.nets[i]
      ensures if ready[i] && Live(mids[i]) then Live(afters[i]) ==> afters[i].link.sock == mids[i].link.sock
              else afters[i] == mids[i]
      ensures ready[i] && Live(mids[i]) && e.nets[i].received.Lost? ==> !Live(afters[i])
    {
      RetrySound(cfgs[i].settings, w.nets[i], e.now, e.nets[i].connection);
      RoundSound(cfgs[i].settings, w.nets[i], e.now, e.nets[i]);
      if ready[i] && Live(mids[i]) {
        ReceiveSound(cfgs[i].settings, mids[i], e.nets[i].received, e.nets[i].after);
      }
    }
    ReceiveControl(c, ready, mids, afters, e, |mids|);
  }

  /** One iteration keeps the supervisor healthy. */
  lemma IterateHealthy(cfgs: seq<Network>, w: World, e: Env)
    requires |cfgs| == |w.nets| == |e.nets| && Healthy(w)
    ensures Healthy(Iterate(cfgs, w, e)) && (w.control.quit ==> Iterate(cfgs, w, e).control.quit)
  {
    hide Iterate;
    IterateControl(cfgs, w, e);
    IterateNets(cfgs, w, e);
    if cfgs != [] {
      assert Sound(w.nets[0].link) && Sound(Iterate(cfgs, w, e).nets[0].link);
    }
  }

  lemma IterateNets(cfgs: seq<Network>, w: World, e: Env)
    requires |cfgs| == |w.nets| == |e.nets|
    ensures Iterate(cfgs, w, e).nets == Iterate(cfgs, Polled(w, e), e).nets == NetsRound(cfgs, w.nets, e)
  {
  }

  lemma RoundsSound(cfgs: seq<Network>, nets: seq<Net>, e: Env)
    requires |cfgs| == |nets| == |e.nets| && AllSound(nets)
    ensures AllSound(NetsRound(cfgs, nets, e))
  {
    hide Sound, Round;
    forall i | 0 <= i < |nets|
      ensures Sound(NetsRound(cfgs, nets, e)[i].link)
    {
      RoundSound(cfgs[i].settings, nets[i], e.now, e.nets[i]);
    }
  }

  // ------------------------------------------------------------- the exits

  /** No socket of the network is open. */
  predicate Clean(n: Net) {
    Track(n.link.log) == NoneOpen
  }

  predicate AllClean(nets: seq<Net>) {
    forall i | 0 <= i < |nets| :: Clean(nets[i])
  }

  /** Its socket is open exactly when it counts as live. */
  predicate Accounted(n: Net) {
    Track(n.link.log) == if Live(n) then OneOpen(n.link.sock) else NoneOpen
  }

  /** Over every run, whatever control block it was handed: STOP and NO_RETRYABLE leave no socket
      open; RELOAD and RECONNECT leave exactly the live networks' sockets open. */
  lemma {:induction false} RunSockets(cfgs: seq<Network>, w: World, es: seq<Env>)
    requires |cfgs| == |w.nets| && Shaped(cfgs, es) && AllSound(w.nets)
    ensures var (w', exit) := RunWorld(cfgs, w, es);
            && |w'.nets| == |w.nets|
            && (exit in {Stop, NoRetryable} ==> AllClean(w'.nets))
            && (exit != Stop ==> AllSound(w'.nets))
            && (exit == NoRetryable ==> AllDisabled(w'.nets))
    decreases |es|
  {
    hide Iterate, Sound, Clean;
    if w.control.quit || w.control.disconnect {
      AllShutdown(w.nets);
    } else if AllDisabled(w.nets) {
      DisabledClean(w.nets);
    } else if es != [] {
      var e := es[0];
      ShapedRest(cfgs, es);
      if e.rexx && Polled(w, e).control.reload {
      } else if e.breakKey {
        AllShutdown(w.nets);
      } else if !e.failed {
        IterateNets(cfgs, w, e);
        RoundsSound(cfgs, w.nets, e);
        RunSockets(cfgs, Iterate(cfgs, Polled(w, e), e), es[1..]);
      }
    }
  }

  /** Over every run, whatever control block it was handed: STOP and NO_RETRYABLE leave no socket
      open, and STOP a disconnected control block; RELOAD and RECONNECT leave exactly the live
      networks' sockets open, and network 0's in the control block if that is live; quit is never
      cleared, and a run that starts healthy ends so unless it is stopped. */
  lemma {:induction false} RunExits(cfgs: seq<Network>, w: World, es: seq<Env>)
    requires |cfgs| == |w.nets| && Shaped(cfgs, es) && Started(w)
    ensures var (w', exit) := RunWorld(cfgs, w, es);
            && |w'.nets| == |w.nets|
            && (w.control.quit ==> w'.control.quit)
            && (exit in {Stop, NoRetryable} ==> AllClean(w'.nets))
            && (exit == Stop ==> w'.control.sock == -1 && !w'.control.connected)
            && (exit != Stop ==> Started(w') && forall i | 0 <= i < |w'.nets| :: Accounted(w'.nets[i]))
            && (exit == NoRetryable ==> AllDisabled(w'.nets))
            && (exit != Stop && Healthy(w) ==> Healthy(w'))
            && (exit == NoRetryable && Healthy(w) ==> w'.control.sock == -1 && !w'.control.connected)
  {
    hide RunWorld, Sound, Clean, Healthy;
    RunSockets(cfgs, w, es);
    RunControl(cfgs, w, es);
    var (w', exit) := RunWorld(cfgs, w, es);
    if exit != Stop {
      SoundAccounted(w'.nets);
      if exit == NoRetryable && Healthy(w') {
        DisabledDisconnected(w');
      }
    }
  }

  lemma DisabledDisconnected(w: World)
    requires Healthy(w) && AllDisabled(w.nets)
    ensures w.control.sock == -1 && !w.control.connected
  {
    if w.nets != [] {
      assert Sound(w.nets[0].link) && !Live(w.nets[0]);
    }
  }

  /** The control part of that. */
  lemma {:induction false} RunControl(cfgs: seq<Network>, w: World, es: seq<Env>)
    requires |cfgs| == |w.nets| && Shaped(cfgs, es) && Started(w)
    ensures var (w', exit) := RunWorld(cfgs, w, es);
            && (w.control.quit ==> w'.control.quit)
            && (exit == Stop ==> w'.control.sock == -1 && !w'.control.connected)
            && (exit != Stop ==> Started(w') && (Healthy(w) ==> Healthy(w')))
    decreases |es|
  {
    hide Iterate, AllSound, AllDisabled, ShutdownAll;
    if !w.control.quit && !w.control.disconnect && es != [] && !AllDisabled(w.nets) {
      var e, polled := es[0], Polled(w, es[0]);
      OpsConsistent(w.control, e.ops);
      ShapedRest(cfgs, es);
      if !(e.rexx && polled.control.reload) && !e.breakKey && !e.failed {
        IterateControl(cfgs, polled, e);
        IterateNets(cfgs, w, e);
        if Healthy(w) {
          IterateHealthy(cfgs, polled, e);
        }
        RunControl(cfgs, Iterate(cfgs, polled, e), es[1..]);
      }
    }
  }

  lemma DisabledClean(nets: seq<Net>)
    requires AllSound(nets) && AllDisabled(nets)
    ensures AllClean(nets)
  {
    forall i | 0 <= i < |nets|
      ensures Clean(nets[i])
    {
      assert Sound(nets[i].link) && !Live(nets[i]);
    }
  }

  lemma SoundAccounted(nets: seq<Net>)
    requires AllSound(nets)
    ensures forall i | 0 <= i < |nets| :: Accounted(nets[i])
  {
    forall i | 0 <= i < |nets|
      ensures Accounted(nets[i])
    {
      assert Sound(nets[i].link);
    }
  }

  lemma AllShutdown(nets: seq<Net>)
    requires AllSound(nets)
    ensures AllClean(ShutdownAll(nets))
  {
    forall i | 0 <= i < |nets|
      ensures Clean(ShutdownAll(nets)[i])
    {
      assert Sound(nets[i].link);
      ShutdownSound(nets[i]);
    }
  }

  function OpensOf(nets: seq<Net>, n: nat): nat
    requires n <= |nets|
  {
    if n == 0 then 0 else OpensOf(nets, n - 1) + Opens(nets[n - 1].link.log)
  }

  function ClosesOf(nets: seq<Net>, n: nat): nat
    requires n <= |nets|
  {
    if n == 0 then 0 else ClosesOf(nets, n - 1) + Closes(nets[n - 1].link.log)
  }

  /** At every loop head the sockets opened so far, less those closed, are as many as the
      counter of active networks says. */
  lemma {:induction false} OpenedMinusClosedIsActive(nets: seq<Net>, n: nat)
    requires n <= |nets| && AllSound(nets)
    ensures OpensOf(nets, n) == ClosesOf(nets, n) + LiveCount(nets, n)
  {
    if n > 0 {
      OpenedMinusClosedIsActive(nets, n - 1);
      TrackCounts(nets[n - 1].link.log);
    }
  }

  // ------------------------------------------------ permanent loss and security

  /** A network that has failed its negotiation, or is still live or retrying. */
  predicate Tried(n: Net) {
    Disabled(n) ==> EndsRejected(n.link.log)
  }

  /** Disabled networks never change again; with a configuration that passed the security
      check a network is only ever disabled by a failed negotiation, so NO_RETRYABLE means
      that every network failed its own. */
  lemma {:induction false} OnlyNegotiationDisables(cfgs: seq<Network>, w: World, es: seq<Env>)
    requires |cfgs| == |w.nets| && Shaped(cfgs, es) && AllSound(w.nets)
    requires forall i | 0 <= i < |cfgs| :: Secure(cfgs[i].settings)
    requires forall i | 0 <= i < |w.nets| :: Tried(w.nets[i])
    ensures var (w', exit) := RunWorld(cfgs, w, es);
            && |w'.nets| == |w.nets|
            && (exit != Stop ==> forall i | 0 <= i < |w.nets| ::
                  Tried(w'.nets[i]) && (Disabled(w.nets[i]) ==> w'.nets[i] == w.nets[i]))
            && (exit == NoRetryable ==> forall i | 0 <= i < |w.nets| :: EndsRejected(w'.nets[i].link.log))
    decreases |es|
  {
    if w.control.quit || w.control.disconnect || es == [] || AllDisabled(w.nets) {
      if AllDisabled(w.nets) {
        forall i | 0 <= i < |w.nets|
          ensures EndsRejected(w.nets[i].link.log)
        {
          assert !Live(w.nets[i]) && !Waiting(w.nets[i]) && Tried(w.nets[i]);
        }
      }
    } else {
      var e, polled := es[0], Polled(w, es[0]);
      ShapedRest(cfgs, es);
      if !(e.rexx && polled.control.reload) && !e.breakKey && !e.failed {
        var next := Iterate(cfgs, polled, e);
        IterateNets(cfgs, w, e);
        RoundsSound(cfgs, w.nets, e);
        forall i | 0 <= i < |w.nets|
          ensures Tried(next.nets[i]) && (Disabled(w.nets[i]) ==> next.nets[i] == w.nets[i])
        {
          RoundSound(cfgs[i].settings, w.nets[i], e.now, e.nets[i]);
        }
        OnlyNegotiationDisables(cfgs, next, es[1..]);
      }
    }
  }

  /** The networks after the initial connects. */
  function Booted(cfgs: seq<Network>, connections: seq<Connection>, clock: seq<int>): (nets: seq<Net>)
    requires |cfgs| == |connections| == |clock|
    ensures |nets| == |cfgs|
  {
    seq(|cfgs|, i requires 0 <= i < |cfgs| => Boot(cfgs[i].settings, connections[i], clock[i]))
  }

  /** A secure network is disabled only in a round that found it live. */
  lemma DisabledWasLive(s: Settings, n: Net, now: int, e: NetEnv)
    requires Sound(n.link) && Secure(s) && !Disabled(n) && Disabled(Round(s, n, now, e))
    ensures Live(n)
  {
    RetrySound(s, n, now, e.connection);
  }

  /** A disabled network 0 has left no socket in the control block. */
  ghost predicate Settled(w: World) {
    Started(w) && (w.nets != [] && Disabled(w.nets[0]) ==> w.control.sock == -1)
  }

  lemma IterateSettled(cfgs: seq<Network>, w: World, e: Env)
    requires |cfgs| == |w.nets| == |e.nets| && Settled(w) && (cfgs != [] ==> Secure(cfgs[0].settings))
    ensures Settled(Iterate(cfgs, w, e))
  {
    hide Iterate, Secure, Round;
    IterateControl(cfgs, w, e);
    IterateNets(cfgs, w, e);
    if cfgs != [] && Disabled(Iterate(cfgs, w, e).nets[0]) {
      assert Sound(w.nets[0].link);
      if Disabled(w.nets[0]) {
        RoundSound(cfgs[0].settings, w.nets[0], e.now, e.nets[0]);
      } else {
        DisabledWasLive(cfgs[0].settings, w.nets[0], e.now, e.nets[0]);
      }
    }
  }

  /** So NO_RETRYABLE leaves the control block disconnected, even if it came in with a stale socket. */
  lemma {:induction false} SettledRun(cfgs: seq<Network>, w: World, es: seq<Env>)
    requires |cfgs| == |w.nets| && Shaped(cfgs, es) && Settled(w) && cfgs != [] && Secure(cfgs[0].settings)
    ensures RunWorld(cfgs, w, es).1 == NoRetryable ==> RunWorld(cfgs, w, es).0.control.sock == -1
    decreases |es|
  {
    hide Iterate, Secure;
    if !w.control.quit && !w.control.disconnect && es != [] && !AllDisabled(w.nets) {
      var e, polled := es[0], Polled(w, es[0]);
      OpsConsistent(w.control, e.ops);
      ShapedRest(cfgs, es);
      if !(e.rexx && polled.control.reload) && !e.breakKey && !e.failed {
        IterateSettled(cfgs, polled, e);
        IterateNets(cfgs, w, e);
        SettledRun(cfgs, Iterate(cfgs, polled, e), es[1..]);
      }
    }
  }

  /** A run from start-up over networks that pass the security check: however connecting, the
      clock, the peers and ARexx behave, and whatever socket the control block came in with,
      NO_RETRYABLE means that every network failed its negotiation, and after STOP and
      NO_RETRYABLE no socket is open and the control block holds none. */
  lemma StartToExit(cfgs: seq<Network>, connections: seq<Connection>, clock: seq<int>, control: Control, es: seq<Env>)
    requires cfgs != [] && |cfgs| == |connections| == |clock| && Shaped(cfgs, es)
    requires forall i | 0 <= i < |cfgs| :: Secure(cfgs[i].settings)
    requires Consistent(control)
    ensures var (w, exit) := RunWorld(cfgs, StartWorld(Booted(cfgs, connections, clock), control), es);
            && |w.nets| == |cfgs|
            && (exit == NoRetryable ==> forall i | 0 <= i < |w.nets| :: EndsRejected(w.nets[i].link.log))
            && (exit in {Stop, NoRetryable} ==>
                  w.control.sock == -1 && forall i | 0 <= i < |w.nets| :: Clean(w.nets[i]))
  {
    hide RunWorld, Booted, Secure, EndsRejected, Clean, Sound, Disabled;
    var nets := Booted(cfgs, connections, clock);
    BootedSound(cfgs, connections, clock);
    StartHealthy(nets, control);
    SecureStart(cfgs, nets, control);
    var w := StartWorld(nets, control);
    RunExits(cfgs, w, es);
    SettledRun(cfgs, w, es);
    OnlyNegotiationDisables(cfgs, w, es);
  }

  lemma SecureStart(cfgs: seq<Network>, nets: seq<Net>, control: Control)
    requires |cfgs| == |nets| > 0 && Started(StartWorld(nets, control))
    requires forall i | 0 <= i < |nets| :: !Disabled(nets[i])
    ensures Settled(StartWorld(nets, control)) && forall i | 0 <= i < |nets| :: Tried(nets[i])
  {
  }

  /** The supervisor can be started on these lines: some section passes the security check. */
  ghost predicate Startable(cfg: Cfg, items: seq<Item>, connections: seq<Connection>, clock: seq<int>, es: seq<Env>) {
    var cfgs := Accepted(Load(cfg, items).networks);
    Headers(items, |items|) > 0 && cfgs != [] && |connections| == |clock| == |cfgs| && Shaped(cfgs, es)
  }

  /** The networks of the run are the secure sections, every header is accounted for, NO_RETRYABLE
      means that every network failed its negotiation, and STOP and NO_RETRYABLE leave no socket. */
  ghost predicate EndsAsDesigned(cfg: Cfg, items: seq<Item>, connections: seq<Connection>, clock: seq<int>,
                                 control: Control, es: seq<Env>)
    requires Startable(cfg, items, connections, clock, es)
  {
    var loaded := Load(cfg, items);
    var cfgs := Accepted(loaded.networks);
    var (w, exit) := RunWorld(cfgs, StartWorld(Booted(cfgs, connections, clock), control), es);
    && cfgs == SecureOnes(loaded.networks)
    && |loaded.networks| + loaded.skipped == Headers(items, |items|)
    && |w.nets| == |cfgs|
    && (exit == NoRetryable ==> forall i | 0 <= i < |w.nets| :: EndsRejected(w.nets[i].link.log))
    && (exit in {Stop, NoRetryable} ==> w.control.sock == -1 && forall i | 0 <= i < |w.nets| :: Clean(w.nets[i]))
  }

  lemma FromItemsToExit(cfg: Cfg, items: seq<Item>, connections: seq<Connection>, clock: seq<int>,
                        control: Control, es: seq<Env>)
    requires Startable(cfg, items, connections, clock, es) && Consistent(control)
    ensures EndsAsDesigned(cfg, items, connections, clock, control, es)
  {
    EndToEnd(cfg, items);
    var cfgs := Accepted(Load(cfg, items).networks);
    assert forall i | 0 <= i < |cfgs| :: Secure(cfgs[i].settings) by {
      assert forall i | 0 <= i < |cfgs| :: cfgs[i] in cfgs;
    }
    StartToExit(cfgs, connections, clock, control, es);
  }

  /** From the bytes of a file to the exit of the loop, however connecting, the clock, the peers
      and ARexx behave. */
  lemma FromFileToExit(cfg: Cfg, file: string, connections: seq<Connection>, clock: seq<int>,
                       control: Control, es: seq<Env>)
    requires Startable(cfg, Items(Pieces(file)), connections, clock, es) && Consistent(control)
    ensures EndsAsDesigned(cfg, Items(Pieces(file)), connections, clock, control, es)
  {
    FromItemsToExit(cfg, Items(Pieces(file)), connections, clock, control, es);
  }

  /** A run of one network ends as designed: NO_RETRYABLE means that it failed its negotiation, and
      STOP and NO_RETRYABLE leave no socket. */
  ghost predicate EndsAlone(n: Network, connection: Connection, after: int, control: Control, es: seq<Env>) {
    Shaped([n], es) ==>
      var (w, exit) := RunWorld([n], StartWorld(Booted([n], [connection], [after]), control), es);
      && |w.nets| == 1
      && (exit == NoRetryable ==> EndsRejected(w.nets[0].link.log))
      && (exit in {Stop, NoRetryable} ==> w.control.sock == -1 && Clean(w.nets[0]))
  }

  lemma AloneToExit(n: Network, connection: Connection, after: int, control: Control, es: seq<Env>)
    requires Secure(n.settings) && Consistent(control)
    ensures EndsAlone(n, connection, after, control, es)
  {
    hide RunWorld, Booted, StartWorld, Clean;
    if Shaped([n], es) {
      StartToExit([n], [connection], [after], control, es);
    }
  }

  /** A file without sections that asks for the bouncer is run by the supervisor as well
      (src/session.c:338), as the one network of its globals: it ends in the same way. */
  lemma FromLegacyToExit(cfg: Cfg, items: seq<Item>, connection: Connection, after: int, control: Control, es: seq<Env>)
    requires Headers(items, |items|) == 0 && Secure(Legacy(Load(cfg, items).globals).settings)
    requires Consistent(control)
    ensures Load(cfg, items).networks == []
    ensures EndsAlone(Legacy(Load(cfg, items).globals), connection, after, control, es)
  {
    hide EndsAlone, Secure, Legacy, Consistent;
    LoadMeaning(cfg, items, |items|);
    AloneToExit(Legacy(Load(cfg, items).globals), connection, after, control, es);
  }

  lemma BootedSound(cfgs: seq<Network>, connections: seq<Connection>, clock: seq<int>)
    requires |cfgs| == |connections| == |clock|
    ensures var nets := Booted(cfgs, connections, clock);
            AllSound(nets) && forall i | 0 <= i < |cfgs| && Secure(cfgs[i].settings) :: !Disabled(nets[i])
  {
    hide Sound, Boot, Secure, Disabled;
    var nets := Booted(cfgs, connections, clock);
    forall i | 0 <= i < |cfgs|
      ensures Sound(nets[i].link) && (Secure(cfgs[i].settings) ==> !Disabled(nets[i]))
    {
      BootSound(cfgs[i].settings, connections[i], clock[i]);
    }
  }

  /** The flags with which `run_m7_networks` starts the next run. */
  function NextRun(c: Control): Control {
    c.(reload := false, disconnect := false, connect := true)
  }

  // -------------------------------------------------------------- isolation

  /** What the environment held for network `i`. */
  function TurnsOf(es: seq<Env>, i: nat, k: nat): seq<Turn>
    requires k <= |es| && forall j | 0 <= j < |es| :: i < |es[j].nets|
  {
    if k == 0 then [] else TurnsOf(es, i, k - 1) + [Turn(es[k - 1].now, es[k - 1].nets[i])]
  }

  /** The networks after `k` full iterations. */
  function NetsAfter(cfgs: seq<Network>, nets: seq<Net>, es: seq<Env>, k: nat): (r: seq<Net>)
    requires |cfgs| == |nets| && Shaped(cfgs, es) && k <= |es|
    ensures |r| == |nets|
  {
    if k == 0 then nets else NetsRound(cfgs, NetsAfter(cfgs, nets, es, k - 1), es[k - 1])
  }

  /** How many iterations a run completes. */
  function Completed(cfgs: seq<Network>, w: World, es: seq<Env>): (k: nat)
    requires |cfgs| == |w.nets| && Shaped(cfgs, es)
    ensures k <= |es|
    decreases |es|
  {
    if Iterates(w, es) then 1 + Completed(cfgs, Iterate(cfgs, Polled(w, es[0]), es[0]), es[1..]) else 0
  }

  /** A run that goes through no whole iteration changes no network, except to close them all. */
  lemma RunEnds(cfgs: seq<Network>, w: World, es: seq<Env>)
    requires |cfgs| == |w.nets| && Shaped(cfgs, es) && !Iterates(w, es)
    ensures var (w', exit) := RunWorld(cfgs, w, es);
            w'.nets == if exit == Stop then ShutdownAll(w.nets) else w.nets
  {
  }

  lemma {:induction false} RoundsSnoc(step: (Net, Turn) -> Net, n: Net, turns: seq<Turn>, t: Turn)
    ensures Rounds(step, n, turns + [t]) == step(Rounds(step, n, turns), t)
    decreases |turns|
  {
    if turns == [] {
      assert ([] + [t])[1..] == [];
    } else {
      assert (turns + [t])[1..] == turns[1..] + [t];
      RoundsSnoc(step, step(n, turns[0]), turns[1..], t);
    }
  }

  /** After any number of iterations network `i` is where its own rounds alone would have
      taken it: another network's drop, retry or failed negotiation changes nothing for it. */
  lemma {:induction false} Isolation(cfgs: seq<Network>, nets: seq<Net>, es: seq<Env>, k: nat, i: nat)
    requires |cfgs| == |nets| && Shaped(cfgs, es) && k <= |es| && i < |nets|
    ensures NetsAfter(cfgs, nets, es, k)[i] == Rounds(RoundOf(cfgs[i].settings), nets[i], TurnsOf(es, i, k))
  {
    hide Round;
    if k > 0 {
      Isolation(cfgs, nets, es, k - 1, i);
      RoundsSnoc(RoundOf(cfgs[i].settings), nets[i], TurnsOf(es, i, k - 1), Turn(es[k - 1].now, es[k - 1].nets[i]));
    }
  }

  /** In every run, whatever becomes of the other networks: the log of a network is what the bytes
      of each of its own connections call for. */
  lemma LivesInRuns(cfgs: seq<Network>, connections: seq<Connection>, clock: seq<int>, es: seq<Env>, k: nat, i: nat)
    requires |cfgs| == |connections| == |clock| && Shaped(cfgs, es) && k <= |es| && i < |cfgs|
    ensures var s := cfgs[i].settings;
            SeenIn(NetsAfter(cfgs, Booted(cfgs, connections, clock), es, k)[i].link.log)
              == AllOwed(s, Life(s, connections[i], clock[i], TurnsOf(es, i, k)))
  {
    hide SeenIn, AllOwed, Life, NetsAfter, Rounds, Boot;
    Isolation(cfgs, Booted(cfgs, connections, clock), es, k, i);
    LifeTheorem(cfgs[i].settings, connections[i], clock[i], TurnsOf(es, i, k));
  }

  lemma {:induction false} NetsAfterFirst(cfgs: seq<Network>, nets: seq<Net>, es: seq<Env>, k: nat)
    requires |cfgs| == |nets| && Shaped(cfgs, es) && 0 < k <= |es| && Shaped(cfgs, es[1..])
    ensures NetsAfter(cfgs, nets, es, k) == NetsAfter(cfgs, NetsRound(cfgs, nets, es[0]), es[1..], k - 1)
  {
    if k > 1 {
      NetsAfterFirst(cfgs, nets, es, k - 1);
    }
  }

  /** The networks a run ends with are those of its completed iterations, closed on STOP. */
  lemma {:induction false} RunIsIterations(cfgs: seq<Network>, w: World, es: seq<Env>)
    requires |cfgs| == |w.nets| && Shaped(cfgs, es)
    ensures var (w', exit) := RunWorld(cfgs, w, es);
            var nets := NetsAfter(cfgs, w.nets, es, Completed(cfgs, w, es));
            w'.nets == if exit == Stop then ShutdownAll(nets) else nets
    decreases |es|
  {
    hide Iterate, AllDisabled, RunWorld, NetsRound, ShutdownAll;
    if Iterates(w, es) {
      var next := Iterate(cfgs, Polled(w, es[0]), es[0]);
      ShapedRest(cfgs, es);
      RunGoesOn(cfgs, w, es);
      IterateNets(cfgs, w, es[0]);
      RunIsIterations(cfgs, next, es[1..]);
      NetsAfterFirst(cfgs, w.nets, es, 1 + Completed(cfgs, next, es[1..]));
    } else {
      RunEnds(cfgs, w, es);
    }
  }

  /** Two runs, with any other networks, control requests and exits, that give a network the
      same turns take it to the same state: the same lines handled, the same replies sent. */
  lemma {:induction false} SameTurnsSameNetwork(cfgs: seq<Network>, nets: seq<Net>, es: seq<Env>, i: nat,
                             cfgs': seq<Network>, nets': seq<Net>, es': seq<Env>, i': nat, k: nat)
    requires |cfgs| == |nets| && Shaped(cfgs, es) && k <= |es| && i < |nets|
    requires |cfgs'| == |nets'| && Shaped(cfgs', es') && k <= |es'| && i' < |nets'|
    requires cfgs[i].settings == cfgs'[i'].settings && nets[i] == nets'[i']
    requires TurnsOf(es, i, k) == TurnsOf(es', i', k)
    ensures NetsAfter(cfgs, nets, es, k)[i] == NetsAfter(cfgs', nets', es', k)[i']
  {
    Isolation(cfgs, nets, es, k, i);
    Isolation(cfgs', nets', es', k, i');
  }

  // ------------------------------------------------------------- a stale control block

  /** Network 0 was live at one of the loop heads up to the `k`-th. */
  ghost predicate EverLive(cfgs: seq<Network>, nets: seq<Net>, es: seq<Env>, k: nat)
    requires |cfgs| == |nets| > 0 && Shaped(cfgs, es) && k <= |es|
  {
    exists j: nat :: j <= k && Live(NetsAfter(cfgs, nets, es, j)[0])
  }

  lemma EverLiveFirst(cfgs: seq<Network>, nets: seq<Net>, es: seq<Env>, k: nat)
    requires |cfgs| == |nets| > 0 && Shaped(cfgs, es) && 0 < k <= |es| && Shaped(cfgs, es[1..])
    ensures EverLive(cfgs, nets, es, k)
       <==> Live(nets[0]) || EverLive(cfgs, NetsRound(cfgs, nets, es[0]), es[1..], k - 1)
  {
    hide Live, NetsRound;
    var next := NetsRound(cfgs, nets, es[0]);
    if EverLive(cfgs, nets, es, k) {
      var j: nat :| j <= k && Live(NetsAfter(cfgs, nets, es, j)[0]);
      if j > 0 {
        NetsAfterFirst(cfgs, nets, es, j);
        assert Live(NetsAfter(cfgs, next, es[1..], j - 1)[0]);
      }
    }
    if Live(nets[0]) {
      assert Live(NetsAfter(cfgs, nets, es, 0)[0]);
    }
    if EverLive(cfgs, next, es[1..], k - 1) {
      var j: nat :| j <= k - 1 && Live(NetsAfter(cfgs, next, es[1..], j)[0]);
      NetsAfterFirst(cfgs, nets, es, j + 1);
    }
  }

  /** What the control block holds when a run is not stopped: the socket it came in with, exactly
      until network 0 is live for the first time; from then on network 0's, and none while network 0
      has none. */
  lemma {:induction false} StaleUntilConnected(cfgs: seq<Network>, w: World, es: seq<Env>)
    requires |cfgs| == |w.nets| > 0 && Shaped(cfgs, es) && Started(w)
    ensures var (w', exit) := RunWorld(cfgs, w, es);
            && |w'.nets| == |cfgs|
            && (exit != Stop ==>
                  w'.control.sock == if Live(w'.nets[0]) then w'.nets[0].link.sock
                                     else if EverLive(cfgs, w.nets, es, Completed(cfgs, w, es)) then -1
                                     else w.control.sock)
    decreases |es|
  {
    hide Iterate, AllDisabled, NetsRound, ShutdownAll, EverLive;
    RunIsIterations(cfgs, w, es);
    if Iterates(w, es) {
      var polled := Polled(w, es[0]);
      var next := Iterate(cfgs, polled, es[0]);
      OpsConsistent(w.control, es[0].ops);
      ShapedRest(cfgs, es);
      RunGoesOn(cfgs, w, es);
      IterateControl(cfgs, polled, es[0]);
      IterateNets(cfgs, w, es[0]);
      StaleUntilConnected(cfgs, next, es[1..]);
      EverLiveFirst(cfgs, w.nets, es, Completed(cfgs, w, es));
      if !EverLive(cfgs, next.nets, es[1..], Completed(cfgs, next, es[1..])) {
        NotYetLive(cfgs, next.nets, es[1..], Completed(cfgs, next, es[1..]));
      }
    } else {
      RunEndsControl(cfgs, w, es);
    }
  }

  lemma NotYetLive(cfgs: seq<Network>, nets: seq<Net>, es: seq<Env>, k: nat)
    requires |cfgs| == |nets| > 0 && Shaped(cfgs, es) && k <= |es| && !EverLive(cfgs, nets, es, k)
    ensures !Live(nets[0])
  {
    assert NetsAfter(cfgs, nets, es, 0) == nets;
  }

  lemma RunEndsControl(cfgs: seq<Network>, w: World, es: seq<Env>)
    requires |cfgs| == |w.nets| > 0 && Shaped(cfgs, es) && Started(w) && !Iterates(w, es)
    ensures var (w', exit) := RunWorld(cfgs, w, es);
            && (exit != Stop ==> w'.nets == w.nets && w'.control.sock == w.control.sock)
            && (EverLive(cfgs, w.nets, es, 0) <==> Live(w.nets[0]))
  {
    assert NetsAfter(cfgs, w.nets, es, 0) == w.nets;
    if es != [] {
      OpsConsistent(w.control, es[0].ops);
    }
  }

  /** The run after a RELOAD or RECONNECT exit starts healthy exactly when the exit left no socket in
      the control block or the new network 0 connects at once; and it left none exactly when network
      0 was not live at the exit, and the run itself had started without a stale socket or network 0
      had been live in it. */
  lemma RestartHealthy(cfgs: seq<Network>, w: World, es: seq<Env>,
                       next: seq<Network>, connections: seq<Connection>, clock: seq<int>)
    requires |cfgs| == |w.nets| && cfgs != [] && Shaped(cfgs, es) && Started(w)
    requires RunWorld(cfgs, w, es).1 in {Exit.Reload, Reconnect}
    requires next != [] && |next| == |connections| == |clock|
    ensures var (last, nets) := (RunWorld(cfgs, w, es).0, Booted(next, connections, clock));
            && |last.nets| == |cfgs|
            && (Healthy(StartWorld(nets, NextRun(last.control))) <==> last.control.sock == -1 || Live(nets[0]))
            && (last.control.sock == -1 <==>
                  !Live(last.nets[0])
                  && (w.control.sock == -1 || EverLive(cfgs, w.nets, es, Completed(cfgs, w, es))))
  {
    hide RunWorld, Booted, Healthy, StartWorld, AllSound, EverLive;
    RunExits(cfgs, w, es);
    StaleUntilConnected(cfgs, w, es);
    BootedSound(next, connections, clock);
    StartHealthy(Booted(next, connections, clock), NextRun(RunWorld(cfgs, w, es).0.control));
  }

  // ------------------------------------------------------------- RELOAD

  lemma CleanMeansNoneLive(nets: seq<Net>)
    requires forall i | 0 <= i < |nets| :: Accounted(nets[i])
    ensures (forall i | 0 <= i < |nets| :: Clean(nets[i])) <==> LiveCount(nets, |nets|) == 0
  {
    NothingCounted(nets, |nets|);
  }

  /** At a loop head where ARexx asks for it, RELOAD ends the run, and it tears the set down, as
      its documentation says, exactly when no network is live there. */
  lemma ReloadAtPoll(cfgs: seq<Network>, w: World, es: seq<Env>)
    requires |cfgs| == |w.nets| && Shaped(cfgs, es) && AllSound(w.nets)
    requires !w.control.quit && !w.control.disconnect && !AllDisabled(w.nets)
    requires es != [] && es[0].rexx && ApplyOps(w.control, es[0].ops).reload
    ensures RunWorld(cfgs, w, es) == (Polled(w, es[0]), Exit.Reload)
    ensures (forall i | 0 <= i < |w.nets| :: Clean(Polled(w, es[0]).nets[i])) <==> LiveCount(w.nets, |w.nets|) == 0
  {
    SoundAccounted(w.nets);
    CleanMeansNoneLive(w.nets);
  }

  /** Over every run that ends with RELOAD: it leaves nothing open exactly when no network was
      live after the iterations it completed. */
  lemma ReloadLeavesLiveSocketsOpen(cfgs: seq<Network>, w: World, es: seq<Env>)
    requires |cfgs| == |w.nets| && Shaped(cfgs, es) && AllSound(w.nets)
    requires RunWorld(cfgs, w, es).1 == Exit.Reload
    ensures var w', head := RunWorld(cfgs, w, es).0, NetsAfter(cfgs, w.nets, es, Completed(cfgs, w, es));
            && w'.nets == head
            && ((forall i | 0 <= i < |w'.nets| :: Clean(w'.nets[i])) <==> LiveCount(head, |head|) == 0)
  {
    RunSockets(cfgs, w, es);
    RunIsIterations(cfgs, w, es);
    SoundAccounted(RunWorld(cfgs, w, es).0.nets);
    CleanMeansNoneLive(RunWorld(cfgs, w, es).0.nets);
  }

  /** One network that connects at once. */
  function OneUp(n: Network, fd: nat, c: Control): World {
    StartWorld(Booted([n], [Connected(fd, [])], [0]), c)
  }

  /** One iteration in which ARexx says RELOAD. */
  function AsksReload(e: NetEnv): Env {
    Env(true, [ReloadOp], false, false, 0, [e])
  }

  lemma OneUpHealthy(n: Network, fd: nat)
    requires Secure(n.settings)
    ensures var w := OneUp(n, fd, INITIAL);
            && |w.nets| == 1 && Healthy(w) && w.nets[0].link.sock == fd && w.control == SetSocket(INITIAL, fd)
  {
    BootedSound([n], [Connected(fd, [])], [0]);
    StartHealthy(Booted([n], [Connected(fd, [])], [0]), INITIAL);
    ConnectSucceeds(n.settings, FRESH, fd);
  }

  /** A run that shows it: one secure network, connected; RELOAD; its socket is still open. */
  lemma ReloadLeaksOneSocket(n: Network, fd: nat, e: NetEnv)
    requires Secure(n.settings)
    ensures var (w, exit) := RunWorld([n], OneUp(n, fd, INITIAL), [AsksReload(e)]);
            && exit == Exit.Reload && |w.nets| == 1 && Track(w.nets[0].link.log) == OneOpen(fd)
            && w.control == SetSocket(INITIAL, fd).(reload := true)
  {
    OneUpHealthy(n, fd);
    var w := OneUp(n, fd, INITIAL);
    assert !AllDisabled(w.nets) by {
      assert Live(w.nets[0]);
    }
    assert ApplyOps(w.control, [ReloadOp]) == w.control.(reload := true) by {
      assert [ReloadOp][1..] == [];
    }
    ReloadAtPoll([n], w, [AsksReload(e)]);
  }

  /** And what follows: the next run, whose first network is refused, starts with a control block
      that still holds the old socket. */
  lemma RestartIsStale(n: Network, fd: nat, e: NetEnv, next: Network, now: int)
    requires Secure(n.settings)
    ensures var last := RunWorld([n], OneUp(n, fd, INITIAL), [AsksReload(e)]).0;
            var w := StartWorld(Booted([next], [Refused], [now]), NextRun(last.control));
            w.control.sock == fd && w.control.connected && !Live(w.nets[0]) && !Healthy(w)
  {
    ReloadLeaksOneSocket(n, fd, e);
    BootSound(next.settings, Refused, now);
  }

  /** With the configuration the program starts with when it is given a host and a nick. */
  lemma ReloadLeaksAndRestartIsStale()
    ensures var n, e := Network("net", Seeded("irc", 6667, "bot", "", "", "")), NetEnv(Refused, false, Lost, 0, []);
            var (last, exit) := RunWorld([n], OneUp(n, 3, INITIAL), [AsksReload(e)]);
            && exit == Exit.Reload && |last.nets| == 1 && Track(last.nets[0].link.log) == OneOpen(3)
            && !Healthy(StartWorld(Booted([n], [Refused], [0]), NextRun(last.control)))
  {
    var n, e := Network("net", Seeded("irc", 6667, "bot", "", "", "")), NetEnv(Refused, false, Lost, 0, []);
    ReloadLeaksOneSocket(n, 3, e);
    RestartIsStale(n, 3, e, n, 0);
  }
}
