// The outer loop of src/session.c:205-300 runs the supervisor again and again: which sockets
// are open after any number of runs.
module Restarts {
  import opened Config
  import opened Networks
  import opened Operations
  import opened OneNetwork
  import opened Multinet
  import opened Runs

  /** One run of the supervisor: the networks of the configuration as it is then, what connecting
      gives, and the control block the outer loop hands over. */
  datatype Episode = Episode(cfgs: seq<Network>, connections: seq<Connection>, clock: seq<int>,
                             control: Control, es: seq<Env>)

  predicate Possible(r: Episode) {
    |r.cfgs| == |r.connections| == |r.clock| && Shaped(r.cfgs, r.es)
  }

  predicate AllPossible(runs: seq<Episode>) {
    forall i | 0 <= i < |runs| :: Possible(runs[i])
  }

  function Ended(r: Episode): (World, Exit)
    requires Possible(r)
  {
    RunWorld(r.cfgs, StartWorld(Booted(r.cfgs, r.connections, r.clock), r.control), r.es)
  }

  /** The networks live when a run is given up by RELOAD or RECONNECT, or now when it goes on. */
  function LeftLive(r: Episode): nat
    requires Possible(r)
  {
    var (w, exit) := Ended(r);
    if exit in {Stop, NoRetryable} then 0 else LiveCount(w.nets, |w.nets|)
  }

  function OpenedBy(runs: seq<Episode>, n: nat): nat
    requires AllPossible(runs) && n <= |runs|
  {
    if n == 0 then 0
    else OpenedBy(runs, n - 1) + var nets := Ended(runs[n - 1]).0.nets; OpensOf(nets, |nets|)
  }

  function ClosedBy(runs: seq<Episode>, n: nat): nat
    requires AllPossible(runs) && n <= |runs|
  {
    if n == 0 then 0
    else ClosedBy(runs, n - 1) + var nets := Ended(runs[n - 1]).0.nets; ClosesOf(nets, |nets|)
  }

  function ForgottenBy(runs: seq<Episode>, n: nat): nat
    requires AllPossible(runs) && n <= |runs|
  {
    if n == 0 then 0 else ForgottenBy(runs, n - 1) + LeftLive(runs[n - 1])
  }

  /** Soundness needs nothing of the control block, so a stale one changes nothing here. */
  lemma {:induction false} NetsStaySound(cfgs: seq<Network>, nets: seq<Net>, es: seq<Env>, k: nat)
    requires |cfgs| == |nets| && Shaped(cfgs, es) && k <= |es| && AllSound(nets)
    ensures AllSound(NetsAfter(cfgs, nets, es, k))
  {
    hide Sound, Round;
    if k > 0 {
      NetsStaySound(cfgs, nets, es, k - 1);
      var before, e := NetsAfter(cfgs, nets, es, k - 1), es[k - 1];
      forall i | 0 <= i < |nets|
        ensures Sound(NetsRound(cfgs, before, e)[i].link)
      {
        RoundSound(cfgs[i].settings, before[i], e.now, e.nets[i]);
      }
    }
  }

  /** Networks whose sockets are all closed. */
  lemma {:induction false} CleanBalances(nets: seq<Net>, n: nat)
    requires n <= |nets| && forall i | 0 <= i < |nets| :: Clean(nets[i])
    ensures OpensOf(nets, n) == ClosesOf(nets, n)
  {
    if n > 0 {
      CleanBalances(nets, n - 1);
      TrackCounts(nets[n - 1].link.log);
    }
  }

  lemma {:induction false} NoRetryableMeansDisabled(cfgs: seq<Network>, w: World, es: seq<Env>)
    requires |cfgs| == |w.nets| && Shaped(cfgs, es) && RunWorld(cfgs, w, es).1 == NoRetryable
    ensures AllDisabled(RunWorld(cfgs, w, es).0.nets)
    decreases |es|
  {
    if Iterates(w, es) {
      ShapedRest(cfgs, es);
      RunGoesOn(cfgs, w, es);
      NoRetryableMeansDisabled(cfgs, Iterate(cfgs, Polled(w, es[0]), es[0]), es[1..]);
    }
  }

  /** One run, whatever control block it was started with: of the sockets it opened as many are
      left as networks it left live. */
  lemma OneRunBalances(r: Episode)
    requires Possible(r)
    ensures var nets := Ended(r).0.nets;
            OpensOf(nets, |nets|) == ClosesOf(nets, |nets|) + LeftLive(r)
  {
    hide RunWorld, Clean, Sound, Booted;
    var w := StartWorld(Booted(r.cfgs, r.connections, r.clock), r.control);
    var k := Completed(r.cfgs, w, r.es);
    var head, nets := NetsAfter(r.cfgs, w.nets, r.es, k), Ended(r).0.nets;
    BootedSound(r.cfgs, r.connections, r.clock);
    NetsStaySound(r.cfgs, w.nets, r.es, k);
    RunIsIterations(r.cfgs, w, r.es);
    if Ended(r).1 == Stop {
      AllShutdown(head);
      CleanBalances(nets, |nets|);
    } else {
      OpenedMinusClosedIsActive(nets, |nets|);
      if Ended(r).1 == NoRetryable {
        NoRetryableMeansDisabled(r.cfgs, w, r.es);
        NothingCounted(nets, |nets|);
      }
    }
  }

  /** Over any number of runs: every RELOAD and RECONNECT exit forgets the sockets of the networks
      live there, so that the sockets opened and not closed are as many as the networks that were live
      at those exits, and in the current run. */
  lemma {:induction false} ForgottenSockets(runs: seq<Episode>, n: nat)
    requires AllPossible(runs) && n <= |runs|
    ensures OpenedBy(runs, n) == ClosedBy(runs, n) + ForgottenBy(runs, n)
  {
    hide Ended, LeftLive;
    if n > 0 {
      ForgottenSockets(runs, n - 1);
      OneRunBalances(runs[n - 1]);
    }
  }

  /** The control block of the first run, and of each run after one that connected and was reloaded. */
  function ControlOf(fd: nat, i: nat): Control {
    if i == 0 then NextRun(INITIAL) else NextRun(SetSocket(ControlOf(fd, i - 1), fd + i - 1).(reload := true))
  }

  /** A run of one network that connects at once and is then told to RELOAD. */
  function Reloaded(net: Network, fd: nat, e: NetEnv, i: nat): Episode {
    Episode([net], [Connected(fd + i, [])], [0], ControlOf(fd, i), [AsksReload(e)])
  }

  function Reloads(net: Network, fd: nat, e: NetEnv, n: nat): (runs: seq<Episode>)
    ensures |runs| == n
  {
    seq(n, i requires 0 <= i => Reloaded(net, fd, e, i))
  }

  lemma {:induction false} ControlGoesOn(fd: nat, i: nat)
    ensures !ControlOf(fd, i).quit && !ControlOf(fd, i).disconnect
  {
    if i > 0 {
      ControlGoesOn(fd, i - 1);
    }
  }

  lemma ReloadEnds(nets: seq<Net>, cfgs: seq<Network>, c: Control, e: NetEnv)
    requires |cfgs| == |nets| == 1 && Live(nets[0]) && !c.quit && !c.disconnect
    ensures Shaped(cfgs, [AsksReload(e)])
    ensures RunWorld(cfgs, World(nets, c), [AsksReload(e)]) == (World(nets, c.(reload := true)), Exit.Reload)
  {
    assert !AllDisabled(nets);
    assert ApplyOps(c, [ReloadOp]) == c.(reload := true) by {
      assert [ReloadOp][1..] == [];
    }
  }

  /** Such a run forgets one socket and hands its control block to the next. */
  lemma ReloadedLeavesOne(net: Network, fd: nat, e: NetEnv, i: nat)
    requires Secure(net.settings)
    ensures var r := Reloaded(net, fd, e, i);
            Possible(r) && LeftLive(r) == 1 && NextRun(Ended(r).0.control) == ControlOf(fd, i + 1)
  {
    hide RunWorld;
    var r := Reloaded(net, fd, e, i);
    var nets := Booted(r.cfgs, r.connections, r.clock);
    ConnectSucceeds(net.settings, FRESH, fd + i);
    assert nets[0] == Boot(net.settings, Connected(fd + i, []), 0);
    ControlGoesOn(fd, i);
    ReloadEnds(nets, r.cfgs, SetSocket(r.control, fd + i), e);
    assert LiveCount(nets, 1) == LiveCount(nets, 0) + 1;
  }

  /** So there is no bound: `n` such runs, each started with what the one before left, have left
      `n` sockets open. */
  lemma EachReloadForgetsOne(net: Network, fd: nat, e: NetEnv, n: nat)
    requires Secure(net.settings)
    ensures var runs := Reloads(net, fd, e, n);
            && AllPossible(runs)
            && (forall i | 0 < i < n :: runs[i].control == NextRun(Ended(runs[i - 1]).0.control))
            && OpenedBy(runs, n) == ClosedBy(runs, n) + n
  {
    hide LeftLive, Ended, Reloaded;
    var runs := Reloads(net, fd, e, n);
    forall i | 0 <= i < n
      ensures Possible(runs[i]) && LeftLive(runs[i]) == 1
      ensures NextRun(Ended(runs[i]).0.control) == ControlOf(fd, i + 1)
    {
      ReloadedLeavesOne(net, fd, e, i);
    }
    forall i | 0 < i < n
      ensures runs[i].control == NextRun(Ended(runs[i - 1]).0.control)
    {
      ControlOfRun(net, fd, e, i);
    }
    ForgottenSockets(runs, n);
    AllLeaveOne(runs, n);
  }

  lemma ControlOfRun(net: Network, fd: nat, e: NetEnv, i: nat)
    ensures Reloaded(net, fd, e, i).control == ControlOf(fd, i)
  {
  }

  lemma {:induction false} AllLeaveOne(runs: seq<Episode>, n: nat)
    requires AllPossible(runs) && n <= |runs| && forall i | 0 <= i < |runs| :: LeftLive(runs[i]) == 1
    ensures ForgottenBy(runs, n) == n
  {
    hide LeftLive;
    if n > 0 {
      AllLeaveOne(runs, n - 1);
    }
  }
}
