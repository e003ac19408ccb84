// When the supervisor loop ends and with which exit, src/multinet.c:177-276, read off the
// world at its last loop head.
module Exits {
  import opened Config
  import opened Operations
  import opened OneNetwork
  import opened Multinet
  import opened Runs

  // ------------------------------------------------------------- loop heads

  /** The world at the `k`-th loop head. */
  function HeadAt(cfgs: seq<Network>, w: World, es: seq<Env>, k: nat): (h: World)
    requires |cfgs| == |w.nets| && Shaped(cfgs, es) && k <= |es|
    ensures |h.nets| == |w.nets|
  {
    if k == 0 then w
    else Iterate(cfgs, Polled(HeadAt(cfgs, w, es, k - 1), es[k - 1]), es[k - 1])
  }

  lemma {:induction false} HeadFirst(cfgs: seq<Network>, w: World, es: seq<Env>, k: nat)
    requires |cfgs| == |w.nets| && Shaped(cfgs, es) && 0 < k <= |es| && Shaped(cfgs, es[1..])
    ensures HeadAt(cfgs, w, es, k) == HeadAt(cfgs, Iterate(cfgs, Polled(w, es[0]), es[0]), es[1..], k - 1)
  {
    hide Iterate, Polled;
    if k == 1 {
      assert HeadAt(cfgs, w, es, 0) == w;
    } else {
      HeadFirst(cfgs, w, es, k - 1);
    }
  }

  /** Their networks are those after as many iterations. */
  lemma {:induction false} HeadNets(cfgs: seq<Network>, w: World, es: seq<Env>, k: nat)
    requires |cfgs| == |w.nets| && Shaped(cfgs, es) && k <= |es|
    ensures HeadAt(cfgs, w, es, k).nets == NetsAfter(cfgs, w.nets, es, k)
  {
    hide Iterate, NetsRound;
    if k > 0 {
      HeadNets(cfgs, w, es, k - 1);
      IterateNets(cfgs, HeadAt(cfgs, w, es, k - 1), es[k - 1]);
    }
  }

  // ------------------------------------------------------------- the exits

  /** No network has a socket or waits for one. */
  predicate GivesUp(w: World) {
    forall i | 0 <= i < |w.nets| :: w.nets[i].link.sock < 0 && !w.nets[i].link.retry
  }

  predicate AsksReload(w: World, e: Env) {
    e.rexx && (w.control.reload || ReloadOp in e.ops)
  }

  /** The loop goes through a whole iteration from this head. */
  predicate Continues(w: World, e: Env) {
    && !w.control.quit && !w.control.disconnect && !GivesUp(w)
    && !AsksReload(w, e) && !e.breakKey && !e.failed
  }

  /** Which exit is taken at a head, given what comes next, if anything does. */
  predicate Leaves(w: World, rest: seq<Env>, exit: Exit) {
    var stopped := w.control.quit || w.control.disconnect;
    var waits := !stopped && !GivesUp(w) && rest != [];
    && (exit == NoRetryable <==> !stopped && GivesUp(w))
    && (exit == Running <==> !stopped && !GivesUp(w) && rest == [])
    && (exit == Exit.Reload <==> waits && AsksReload(w, rest[0]))
    && (exit == Stop <==> stopped || (waits && !AsksReload(w, rest[0]) && rest[0].breakKey))
    && (exit == Reconnect <==> waits && !AsksReload(w, rest[0]) && !rest[0].breakKey && rest[0].failed)
  }

  /** The control block after the wait: commands come before the break key. */
  function Heard(c: Control, e: Env): Control {
    if e.rexx then ApplyOps(c, e.ops) else c
  }

  /** What is left behind: everything as it stands, or on STOP every socket closed. */
  predicate LeavesBehind(w: World, rest: seq<Env>, exit: Exit, last: World) {
    && |last.nets| == |w.nets|
    && match exit
       case Stop =>
         && (forall i | 0 <= i < |w.nets| ::
               last.nets[i] == if w.nets[i].link.sock < 0 then w.nets[i]
                               else var l := w.nets[i].link; w.nets[i].(link := l.(log := Then(l.log, Closed(l.sock)))))
         && last.control == (if w.control.quit || w.control.disconnect || rest == [] then w.control
                             else Heard(w.control, rest[0]).(quit := true)).(sock := -1, connected := false)
       case NoRetryable => last == w
       case Running => last == w
       case _ => last.nets == w.nets && rest != [] && last.control == Heard(w.control, rest[0])
  }

  lemma LeavesAtOnce(cfgs: seq<Network>, w: World, es: seq<Env>)
    requires |cfgs| == |w.nets| && Shaped(cfgs, es) && !Iterates(w, es)
    ensures var (last, exit) := RunWorld(cfgs, w, es);
            Leaves(w, es, exit) && LeavesBehind(w, es, exit, last)
  {
    hide Leaves, LeavesBehind;
    WhichExit(cfgs, w, es);
    WhatIsLeft(cfgs, w, es);
  }

  lemma WhichExit(cfgs: seq<Network>, w: World, es: seq<Env>)
    requires |cfgs| == |w.nets| && Shaped(cfgs, es) && !Iterates(w, es)
    ensures Leaves(w, es, RunWorld(cfgs, w, es).1)
  {
    hide ApplyOps, ShutdownAll, Iterate;
    if es != [] {
      OpsMean(w.control, es[0].ops);
    }
  }

  lemma WhatIsLeft(cfgs: seq<Network>, w: World, es: seq<Env>)
    requires |cfgs| == |w.nets| && Shaped(cfgs, es) && !Iterates(w, es)
    ensures var (last, exit) := RunWorld(cfgs, w, es); LeavesBehind(w, es, exit, last)
  {
    hide ApplyOps, Iterate, AllDisabled;
  }

  lemma ContinuesIterates(w: World, es: seq<Env>)
    requires es != []
    ensures Iterates(w, es) <==> Continues(w, es[0])
  {
    OpsMean(w.control, es[0].ops);
  }

  /** Over every run, whatever it starts from: the loop goes on at every head before the last one; at
      the last one it is left by RELOAD exactly when ARexx asks for it, by STOP exactly for quit,
      disconnect, or a break key with no RELOAD before it, by RECONNECT exactly for a failing wait
      with neither, and by NO_RETRYABLE exactly when no network is live or waiting; and what it leaves
      behind is the world at that head, with every socket closed on STOP and on no other exit. */
  lemma {:induction false} ExitsExactly(cfgs: seq<Network>, w: World, es: seq<Env>)
    requires |cfgs| == |w.nets| && Shaped(cfgs, es)
    ensures var (k, (last, exit)) := (Completed(cfgs, w, es), RunWorld(cfgs, w, es));
            && (forall j | 0 <= j < k :: Continues(HeadAt(cfgs, w, es, j), es[j]))
            && Leaves(HeadAt(cfgs, w, es, k), es[k..], exit)
            && LeavesBehind(HeadAt(cfgs, w, es, k), es[k..], exit, last)
    decreases |es|
  {
    hide Iterate, Iterates, Continues, Leaves, LeavesBehind, RunWorld;
    var k := Completed(cfgs, w, es);
    if Iterates(w, es) {
      IteratesSome(w, es);
      var next := Iterate(cfgs, Polled(w, es[0]), es[0]);
      ShapedRest(cfgs, es);
      RunGoesOn(cfgs, w, es);
      ContinuesIterates(w, es);
      IterateNets(cfgs, w, es[0]);
      ExitsExactly(cfgs, next, es[1..]);
      HeadFirst(cfgs, w, es, k);
      assert es[1..][k - 1..] == es[k..];
      forall j | 0 <= j < k
        ensures Continues(HeadAt(cfgs, w, es, j), es[j])
      {
        if j > 0 {
          HeadFirst(cfgs, w, es, j);
          assert Continues(HeadAt(cfgs, next, es[1..], j - 1), es[1..][j - 1]);
        }
      }
    } else {
      LeavesAtOnce(cfgs, w, es);
      assert es[0..] == es;
    }
  }

  lemma IteratesSome(w: World, es: seq<Env>)
    requires Iterates(w, es)
    ensures es != []
  {
  }

  // ------------------------------------------------------------- the flags at a head

  /** A network that hands a chunk on in this iteration, with a command among its hooks. */
  predicate HookSays(n: Net, e: NetEnv, op: Op) {
    n.link.sock >= 0 && e.readable && e.received.Chunk? && op in e.hooks
  }

  predicate SomeHookSays(nets: seq<Net>, e: Env, k: nat, op: Op)
    requires k <= |nets| == |e.nets|
  {
    exists i :: 0 <= i < k && HookSays(nets[i], e.nets[i], op)
  }

  lemma HooksMore(nets: seq<Net>, e: Env, k: nat, op: Op)
    requires k < |nets| == |e.nets|
    ensures SomeHookSays(nets, e, k + 1, op) <==> SomeHookSays(nets, e, k, op) || HookSays(nets[k], e.nets[k], op)
  {
    hide HookSays;
  }

  lemma {:induction false} HooksSetFlags(nets: seq<Net>, c: Control, ready: seq<bool>, mids: seq<Net>, afters: seq<Net>,
                                         e: Env, k: nat)
    requires k <= |nets| == |ready| == |mids| == |afters| == |e.nets|
    requires forall i | 0 <= i < |nets| ::
               (ready[i] && Live(mids[i])) == (nets[i].link.sock >= 0 && e.nets[i].readable)
    ensures var d := ControlReceive(c, ready, mids, afters, e, k);
            && (d.quit <==> c.quit || SomeHookSays(nets, e, k, QuitOp))
            && (d.reload <==> c.reload || SomeHookSays(nets, e, k, ReloadOp))
            && (!SomeHookSays(nets, e, k, ConnectOp) ==>
                  (d.disconnect <==> c.disconnect || SomeHookSays(nets, e, k, DisconnectOp)
                                     || SomeHookSays(nets, e, k, QuitOp)))
  {
    hide SomeHookSays, ApplyOps, Live;
    if k > 0 {
      var i := k - 1;
      HooksSetFlags(nets, c, ready, mids, afters, e, i);
      HooksMore(nets, e, i, QuitOp);
      HooksMore(nets, e, i, ReloadOp);
      HooksMore(nets, e, i, DisconnectOp);
      HooksMore(nets, e, i, ConnectOp);
      var d := ControlReceive(c, ready, mids, afters, e, i);
      OpsMean(d, e.nets[i].hooks);
      if ConnectOp !in e.nets[i].hooks {
        DisconnectStays(d, e.nets[i].hooks);
      }
    } else {
      NoHooks(nets, e);
    }
  }

  lemma NoHooks(nets: seq<Net>, e: Env)
    requires |nets| == |e.nets|
    ensures forall op :: !SomeHookSays(nets, e, 0, op)
  {
  }

  /** What one iteration does to the flags: QUIT and RELOAD are set exactly when they were, or ARexx
      or a hook of a network that received data asks for them; a request to disconnect likewise
      where nobody asks for CONNECT. */
  lemma IterationFlags(cfgs: seq<Network>, w: World, e: Env)
    requires |cfgs| == |w.nets| == |e.nets| && AllSound(w.nets)
    ensures var (c, d) := (w.control, Iterate(cfgs, Polled(w, e), e).control);
            && (d.quit <==> c.quit || (e.rexx && QuitOp in e.ops) || SomeHookSays(w.nets, e, |w.nets|, QuitOp))
            && (d.reload <==> c.reload || (e.rexx && ReloadOp in e.ops) || SomeHookSays(w.nets, e, |w.nets|, ReloadOp))
            && (!(e.rexx && ConnectOp in e.ops) && !SomeHookSays(w.nets, e, |w.nets|, ConnectOp) ==>
                  (d.disconnect <==> c.disconnect || (e.rexx && (DisconnectOp in e.ops || QuitOp in e.ops))
                                     || SomeHookSays(w.nets, e, |w.nets|, DisconnectOp)
                                     || SomeHookSays(w.nets, e, |w.nets|, QuitOp)))
  {
    hide SomeHookSays, ApplyOps, Retry, Round, ControlReceive, Sound;
    var p := Polled(w, e);
    var mids, afters, ready := RetryAll(cfgs, p.nets, e), NetsRound(cfgs, p.nets, e), Ready(p.nets, e);
    forall i | 0 <= i < |w.nets|
      ensures (ready[i] && Live(mids[i])) == (w.nets[i].link.sock >= 0 && e.nets[i].readable)
    {
      RetrySound(cfgs[i].settings, w.nets[i], e.now, e.nets[i].connection);
    }
    OpsMean(w.control, e.ops);
    if ConnectOp !in e.ops {
      DisconnectStays(w.control, e.ops);
    }
    HooksSetFlags(w.nets, ControlRetry(p.control, p.nets, mids), ready, mids, afters, e, |w.nets|);
  }
}
