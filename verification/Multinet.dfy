// src/multinet.c: the supervisor loop over all networks.
module Multinet {
  import opened Settings
  import opened Config
  import opened Operations
  import opened OneNetwork

  /** Everything the loop decides on: its networks and the control flags. */
  datatype World = World(nets: seq<Net>, control: Control)

  datatype Exit = Running | Stop | Reload | Reconnect | NoRetryable

  /** What one iteration meets: whether the ARexx signal came and with which commands, the
      break key, a failing wait, the clock, and what there is for each network. */
  datatype Env = Env(rexx: bool, ops: seq<Op>, breakKey: bool, failed: bool, now: int, nets: seq<NetEnv>)

  // ------------------------------------------------- what an iteration means

  /** Each network takes its own round. */
  function NetsRound(cfgs: seq<Network>, nets: seq<Net>, e: Env): (r: seq<Net>)
    requires |cfgs| == |nets| == |e.nets|
    ensures |r| == |nets|
  {
    seq(|nets|, i requires 0 <= i < |nets| => Round(cfgs[i].settings, nets[i], e.now, e.nets[i]))
  }

  function RetryAll(cfgs: seq<Network>, nets: seq<Net>, e: Env): (r: seq<Net>)
    requires |cfgs| == |nets| == |e.nets|
    ensures |r| == |nets|
  {
    seq(|nets|, i requires 0 <= i < |nets| => Retry(cfgs[i].settings, nets[i], e.now, e.nets[i].connection))
  }

  /** Only the first network moves the control socket: when it gets one in a retry pass, */
  function ControlRetry(c: Control, before: seq<Net>, after: seq<Net>): Control
    requires |before| == |after|
  {
    if before != [] && !Live(before[0]) && Live(after[0]) then SetSocket(c, after[0].link.sock) else c
  }

  /** and when it loses it in a receive pass; the hooks of any network may set flags. */
  function ControlReceive(c: Control, ready: seq<bool>, mids: seq<Net>, afters: seq<Net>, e: Env, k: nat): Control
    requires k <= |ready| == |mids| == |afters| == |e.nets|
  {
    if k == 0 then c
    else
      var i, d := k - 1, ControlReceive(c, ready, mids, afters, e, k - 1);
      if !ready[i] || !Live(mids[i]) then d
      else
        var d' := if e.nets[i].received.Chunk? then ApplyOps(d, e.nets[i].hooks) else d;
        if i == 0 && !Live(afters[i]) then SetSocket(d', -1) else d'
  }

  /** `wait_many`: a bit only for a socket that was waited on. */
  function Ready(nets: seq<Net>, e: Env): (r: seq<bool>)
    requires |nets| == |e.nets|
    ensures |r| == |nets|
  {
    seq(|nets|, i requires 0 <= i < |nets| => Live(nets[i]) && e.nets[i].readable)
  }

  function Iterate(cfgs: seq<Network>, w: World, e: Env): World
    requires |cfgs| == |w.nets| == |e.nets|
  {
    var mids, afters := RetryAll(cfgs, w.nets, e), NetsRound(cfgs, w.nets, e);
    World(afters, ControlReceive(ControlRetry(w.control, w.nets, mids), Ready(w.nets, e), mids, afters, e, |w.nets|))
  }

  function ShutdownAll(nets: seq<Net>): (r: seq<Net>)
    ensures |r| == |nets|
  {
    seq(|nets|, i requires 0 <= i < |nets| => Shutdown(nets[i]))
  }

  function Stopped(w: World): World {
    World(ShutdownAll(w.nets), SetSocket(w.control, -1))
  }

  /** The world after the ARexx commands of an iteration, */
  function Polled(w: World, e: Env): World {
    if e.rexx then w.(control := ApplyOps(w.control, e.ops)) else w
  }

  /** and after the break key. */
  function Interrupted(w: World): World {
    w.(control := w.control.(quit := true))
  }

  predicate AllDisabled(nets: seq<Net>) {
    forall i | 0 <= i < |nets| :: !Live(nets[i]) && !Waiting(nets[i])
  }

  predicate Shaped(cfgs: seq<Network>, es: seq<Env>) {
    forall i | 0 <= i < |es| :: |es[i].nets| == |cfgs|
  }

  /** The loop over an environment; `Running` when the environment ends first. */
  function RunWorld(cfgs: seq<Network>, w: World, es: seq<Env>): (World, Exit)
    requires |cfgs| == |w.nets| && Shaped(cfgs, es)
    decreases |es|
  {
    if w.control.quit || w.control.disconnect then (Stopped(w), Stop)
    else if AllDisabled(w.nets) then (w, NoRetryable)
    else if es == [] then (w, Running)
    else
      var polled := Polled(w, es[0]);
      if es[0].rexx && polled.control.reload then (polled, Reload)
      else if es[0].breakKey then (Stopped(Interrupted(polled)), Stop)
      else if es[0].failed then (polled, Reconnect)
      else RunWorld(cfgs, Iterate(cfgs, polled, es[0]), es[1..])
  }

  /** The loop goes through a whole iteration. */
  predicate Iterates(w: World, es: seq<Env>) {
    && !w.control.quit && !w.control.disconnect && !AllDisabled(w.nets) && es != []
    && !(es[0].rexx && Polled(w, es[0]).control.reload) && !es[0].breakKey && !es[0].failed
  }

  lemma ShapedRest(cfgs: seq<Network>, es: seq<Env>)
    requires Shaped(cfgs, es) && es != []
    ensures Shaped(cfgs, es[1..])
  {
    assert forall i | 0 <= i < |es| - 1 :: es[1..][i] == es[i + 1];
  }

  lemma RunGoesOn(cfgs: seq<Network>, w: World, es: seq<Env>)
    requires |cfgs| == |w.nets| && Shaped(cfgs, es) && Iterates(w, es) && Shaped(cfgs, es[1..])
    ensures RunWorld(cfgs, w, es) == RunWorld(cfgs, Iterate(cfgs, Polled(w, es[0]), es[0]), es[1..])
  {
  }

  // ----------------------------------------------------- the redundant counters

  function LiveCount(nets: seq<Net>, n: nat): nat
    requires n <= |nets|
  {
    if n == 0 then 0 else LiveCount(nets, n - 1) + if Live(nets[n - 1]) then 1 else 0
  }

  function WaitCount(nets: seq<Net>, n: nat): nat
    requires n <= |nets|
  {
    if n == 0 then 0 else WaitCount(nets, n - 1) + if Waiting(nets[n - 1]) then 1 else 0
  }

  lemma {:induction false} CountsChange(a: seq<Net>, b: seq<Net>, i: nat, n: nat)
    requires |a| == |b| && i < |a| && n <= |a|
    requires forall j | 0 <= j < |a| && j != i :: a[j] == b[j]
    ensures LiveCount(b, n) == LiveCount(a, n)
                               + if i >= n || Live(a[i]) == Live(b[i]) then 0 else if Live(b[i]) then 1 else -1
    ensures WaitCount(b, n) == WaitCount(a, n)
                               + if i >= n || Waiting(a[i]) == Waiting(b[i]) then 0 else if Waiting(b[i]) then 1 else -1
    ensures i < n ==> (Live(a[i]) ==> LiveCount(a, n) > 0) && (Waiting(a[i]) ==> WaitCount(a, n) > 0)
  {
    if n > 0 {
      CountsChange(a, b, i, n - 1);
    }
  }

  lemma {:induction false} NothingCounted(nets: seq<Net>, n: nat)
    requires n <= |nets|
    ensures LiveCount(nets, n) == 0 <==> forall i | 0 <= i < n :: !Live(nets[i])
    ensures WaitCount(nets, n) == 0 <==> forall i | 0 <= i < n :: !Waiting(nets[i])
  {
    if n > 0 {
      NothingCounted(nets, n - 1);
    }
  }

  class Supervisor {
    const networks: seq<Network>
    const runtimes: array<Net>
    const sockets: array<int>
    const control: ControlBlock
    var active: nat
    var retrying: nat

    /** What holds at every loop head. */
    ghost predicate Valid()
      reads this, runtimes, sockets
    {
      && runtimes.Length == sockets.Length == |networks|
      && (forall i | 0 <= i < |networks| :: sockets[i] == runtimes[i].link.sock)
      && (forall i | 0 <= i < |networks| :: Sound(runtimes[i].link))
      && active == LiveCount(runtimes[..], |networks|)
      && retrying == WaitCount(runtimes[..], |networks|)
    }

    ghost function State(): World
      reads this, runtimes, control
    {
      World(runtimes[..], control.State())
    }

    constructor (networks: seq<Network>, control: ControlBlock)
      ensures Valid() && fresh(runtimes) && fresh(sockets)
      ensures this.networks == networks && this.control == control
      ensures forall i | 0 <= i < |networks| :: runtimes[i] == FRESH
    {
      this.networks, this.control := networks, control;
      runtimes := new Net[|networks|](_ => FRESH);
      sockets := new int[|networks|](_ => -1);
      active, retrying := 0, 0;
      new;
      NothingCounted(runtimes[..], |networks|);
    }

    /** The initial connects, one network after another. */
    method Start(connections: seq<Connection>, clock: seq<int>)
      requires Valid() && |connections| == |clock| == |networks|
      requires forall i | 0 <= i < |networks| :: runtimes[i] == FRESH
      modifies runtimes, sockets, this`active, this`retrying, control
      ensures Valid()
      ensures forall i | 0 <= i < |networks| :: runtimes[i] == Boot(networks[i].settings, connections[i], clock[i])
      ensures control.State() == if networks != [] && Live(runtimes[0]) then
                                   SetSocket(old(control.State()), runtimes[0].link.sock)
                                 else old(control.State())
    {
      for i := 0 to |networks|
        invariant Valid() && control.State() == old(control.State())
        invariant forall j | 0 <= j < i :: runtimes[j] == Boot(networks[j].settings, connections[j], clock[j])
        invariant forall j | i <= j < |networks| :: runtimes[j] == FRESH
      {
        ghost var before := runtimes[..];
        BootOne(i, connections[i], clock[i]);
        assert forall j | 0 <= j < |networks| && j != i :: runtimes[..][j] == before[j];
      }
      if |networks| > 0 && runtimes[0].link.sock >= 0 {
        control.Set(runtimes[0].link.sock);
      }
    }

    /** One network of the initial connects. */
    method BootOne(i: nat, connection: Connection, after: int)
      requires Valid() && i < |networks| && runtimes[i] == FRESH
      modifies runtimes, sockets, this`active, this`retrying
      ensures Valid()
      ensures runtimes[..] == old(runtimes[..])[i := Boot(networks[i].settings, connection, after)]
    {
      ghost var before := runtimes[..];
      var s := networks[i].settings;
      BootSound(s, connection, after);
      ConnectSound(s, FRESH, connection);
      CountsChange(before, before[i := Boot(s, connection, after)], i, |networks|);
      var (n, result) := Connect(s, FRESH, connection);
      if result == Ok {
        active := active + 1;
      } else if result == Again {
        n := n.(link := n.link.(retry := true, wait := 1, at := after + 1));
        retrying := retrying + 1;
      }
      runtimes[i] := n;
      sockets[i] := runtimes[i].link.sock;
      assert runtimes[..] == before[i := Boot(s, connection, after)];
    }

    /** The ready mask of `wait_many`, one bit a network. */
    method WaitMany(ghost e: Env, readable: seq<bool>) returns (ready: seq<bool>)
      requires Valid() && |readable| == |e.nets| == |networks|
      requires forall i | 0 <= i < |networks| :: readable[i] == e.nets[i].readable
      ensures ready == Ready(runtimes[..], e)
    {
      ready := [];
      for i := 0 to |networks|
        invariant |ready| == i && forall j | 0 <= j < i :: ready[j] == (Live(runtimes[j]) && readable[j])
      {
        ready := ready + [sockets[i] >= 0 && readable[i]];
      }
    }

    method RetryPass(e: Env)
      requires Valid() && |e.nets| == |networks|
      modifies runtimes, sockets, this`active, this`retrying, control
      ensures Valid()
      ensures runtimes[..] == RetryAll(networks, old(runtimes[..]), e)
      ensures control.State() == ControlRetry(old(control.State()), old(runtimes[..]), runtimes[..])
    {
      hide Retry, Sound, LiveCount, WaitCount;
      NothingCounted(runtimes[..], |networks|);
      if retrying == 0 {
        NoneDue(networks, runtimes[..], e);
        return;
      }
      for i := 0 to |networks|
        invariant Valid()
        invariant forall j | 0 <= j < i ::
            runtimes[j] == Retry(networks[j].settings, old(runtimes[..])[j], e.now, e.nets[j].connection)
        invariant forall j | i <= j < |networks| :: runtimes[j] == old(runtimes[..])[j]
        invariant control.State() == ControlRetry(old(control.State()), old(runtimes[..]), runtimes[..])
      {
        var n := runtimes[i];
        if !n.link.retry || e.now < n.link.at {
          NotDue(networks[i].settings, n, e.now, e.nets[i].connection);
          continue;
        }
        WaitingIsDown(n);
        RetryOne(i, e.now, e.nets[i].connection);
      }
    }

    /** One due network of the retry pass. */
    method RetryOne(i: nat, now: int, connection: Connection)
      requires Valid() && i < |networks| && runtimes[i].link.retry && now >= runtimes[i].link.at
      modifies runtimes, sockets, this`active, this`retrying, control
      ensures Valid()
      ensures runtimes[..] == old(runtimes[..])[i := Retry(networks[i].settings, old(runtimes[i]), now, connection)]
      ensures control.State() == if i == 0 && Live(runtimes[0]) then
                                   SetSocket(old(control.State()), runtimes[0].link.sock)
                                 else old(control.State())
    {
      hide LiveCount, WaitCount, Track, Greeting;
      ghost var before := runtimes[..];
      var n, s := runtimes[i], networks[i].settings;
      ConnectSound(s, n, connection);
      RetrySound(s, n, now, connection);
      CountsChange(before, before[i := Retry(s, n, now, connection)], i, |networks|);
      var (m, result) := Connect(s, n, connection);
      match result {
        case Ok =>
          runtimes[i] := m.(link := m.link.(retry := false));
          sockets[i] := runtimes[i].link.sock;
          active := active + 1;
          retrying := retrying - 1;
          if i == 0 {
            control.Set(runtimes[i].link.sock);
          }
        case Permanent =>
          runtimes[i] := m.(link := m.link.(retry := false));
          retrying := retrying - 1;
        case Again =>
          var wait := n.link.wait;
          if wait < 30 {
            wait := wait * 2;
            if wait > 30 {
              wait := 30;
            }
          }
          runtimes[i] := m.(link := m.link.(wait := wait, at := now + wait));
      }
      assert runtimes[..] == before[i := Retry(s, n, now, connection)];
    }

    method ReceivePass(ready: seq<bool>, e: Env)
      requires Valid() && |ready| == |e.nets| == |networks|
      modifies runtimes, sockets, this`active, this`retrying, control
      ensures Valid()
      ensures forall i | 0 <= i < |networks| ::
          runtimes[i] == ReceiveIf(networks[i].settings, old(runtimes[..])[i], ready[i], e.nets[i])
      ensures control.State()
           == ControlReceive(old(control.State()), ready, old(runtimes[..]), runtimes[..], e, |networks|)
    {
      hide Receive, Sound, LiveCount, WaitCount, ApplyOps;
      ghost var mids := runtimes[..];
      for i := 0 to |networks|
        invariant Valid()
        invariant forall j | 0 <= j < i ::
            runtimes[j] == ReceiveIf(networks[j].settings, mids[j], ready[j], e.nets[j])
        invariant forall j | i <= j < |networks| :: runtimes[j] == mids[j]
        invariant control.State() == ControlReceive(old(control.State()), ready, mids, runtimes[..], e, i)
      {
        ghost var before := runtimes[..];
        if ready[i] && runtimes[i].link.sock >= 0 {
          ReceiveOne(i, e.nets[i]);
        }
        assert forall j | 0 <= j < |networks| && j != i :: runtimes[j] == before[j];
        SameControl(old(control.State()), ready, mids, before, runtimes[..], e, i);
      }
    }

    /** One ready network of the receive pass. */
    method ReceiveOne(i: nat, e: NetEnv)
      requires Valid() && i < |networks| && Live(runtimes[i])
      modifies runtimes, sockets, this`active, this`retrying, control
      ensures Valid()
      ensures runtimes[..]
           == old(runtimes[..])[i := Receive(networks[i].settings, old(runtimes[i]), e.received, e.after)]
      ensures control.State() == var d := if e.received.Chunk? then ApplyOps(old(control.State()), e.hooks)
                                          else old(control.State());
                                 if i == 0 && !Live(runtimes[0]) then SetSocket(d, -1) else d
    {
      hide LiveCount, WaitCount, Track, ApplyOps;
      ghost var before := runtimes[..];
      var n, s := runtimes[i], networks[i].settings;
      ReceiveSound(s, n, e.received, e.after);
      CountsChange(before, before[i := Receive(s, n, e.received, e.after)], i, |networks|);
      match e.received {
        case Lost =>
          runtimes[i] := n.(link := n.link.(sock := -1, log := Then(n.link.log, Closed(n.link.sock))));
          sockets[i] := -1;
          if i == 0 {
            control.Set(-1);
          }
          // The guard of the source never fails.
          assert active > 0;
          if active > 0 {
            active := active - 1;
          }
          runtimes[i] := runtimes[i].(link := runtimes[i].link.(retry := true, wait := 1, at := e.after + 1));
          retrying := retrying + 1;
        case Chunk(data) =>
          runtimes[i] := Receive(s, n, Chunk(data), e.after);
          control.Process(e.hooks);
          if runtimes[i].link.sock < 0 {
            sockets[i] := -1;
            assert active > 0;
            if active > 0 {
              active := active - 1;
            }
            if i == 0 {
              control.Set(-1);
            }
          }
      }
      assert runtimes[..] == before[i := Receive(s, n, e.received, e.after)];
    }

    /** The loop after start-up. */
    method Run(es: seq<Env>) returns (exit: Exit)
      requires Valid() && Shaped(networks, es)
      modifies runtimes, sockets, this`active, this`retrying, control
      ensures (State(), exit) == RunWorld(networks, old(State()), es)
      ensures exit != Stop ==> Valid()
    {
      var at := 0;
      while !control.quit && !control.disconnect
        invariant at <= |es| && Valid()
        invariant RunWorld(networks, old(State()), es) == RunWorld(networks, State(), es[at..])
        decreases |es| - at
      {
        NothingCounted(runtimes[..], |networks|);
        if active == 0 && retrying == 0 {
          return NoRetryable;
        }
        if at == |es| {
          return Running;
        }
        ghost var rest := es[at..];
        assert rest[0] == es[at] && rest[1..] == es[at + 1..];
        assert Shaped(networks, rest) by {
          assert forall i | 0 <= i < |rest| :: rest[i] == es[at + i];
        }
        exit := Pass(es[at], rest);
        if exit == Stop {
          Finish();
          return;
        } else if exit != Running {
          return;
        }
        at := at + 1;
      }
      Finish();
      exit := Stop;
    }

    /** The body of the loop, when something is left to wait for. */
    method Pass(e: Env, ghost rest: seq<Env>) returns (exit: Exit)
      requires Valid() && Shaped(networks, rest) && rest != [] && rest[0] == e
      requires !control.quit && !control.disconnect && !AllDisabled(runtimes[..])
      modifies runtimes, sockets, this`active, this`retrying, control
      ensures Valid()
      ensures RunWorld(networks, old(State()), rest)
           == match exit
              case Running => RunWorld(networks, State(), rest[1..])
              case Stop => (Stopped(State()), Stop)
              case _ => (State(), exit)
    {
      ghost var w := State();
      var ready := WaitMany(e, seq(|e.nets|, i requires 0 <= i < |e.nets| => e.nets[i].readable));
      if e.rexx {
        control.Process(e.ops);
      }
      assert State() == Polled(w, e);
      if e.rexx && control.reload {
        return Reload;
      }
      if e.breakKey {
        control.quit := true;
        assert State() == Interrupted(Polled(w, e));
        return Stop;
      }
      if e.failed {
        return Reconnect;
      }
      RunGoesOn(networks, w, rest);
      Iteration(ready, e);
      exit := Running;
    }

    method Finish()
      requires Valid()
      modifies runtimes, control
      ensures State() == Stopped(old(State()))
    {
      CloseAll();
      control.Set(-1);
    }

    method Iteration(ready: seq<bool>, e: Env)
      requires Valid() && |e.nets| == |networks| && ready == Ready(runtimes[..], e)
      modifies runtimes, sockets, this`active, this`retrying, control
      ensures Valid() && State() == Iterate(networks, old(State()), e)
    {
      ghost var nets := runtimes[..];
      RetryPass(e);
      ghost var mids := runtimes[..];
      ReceivePass(ready, e);
      assert runtimes[..] == NetsRound(networks, nets, e);
    }

    method CloseAll()
      requires Valid()
      modifies runtimes
      ensures runtimes[..] == ShutdownAll(old(runtimes[..]))
    {
      for i := 0 to |networks|
        invariant forall j | 0 <= j < i :: runtimes[j] == Shutdown(old(runtimes[..])[j])
        invariant forall j | i <= j < |networks| :: runtimes[j] == old(runtimes[..])[j]
      {
        if runtimes[i].link.sock >= 0 {
          var link := runtimes[i].link;
          runtimes[i] := runtimes[i].(link := link.(log := Then(link.log, Closed(link.sock))));
        }
      }
    }
  }

  function ReceiveIf(s: Settings, n: Net, ready: bool, e: NetEnv): Net {
    if ready && Live(n) then Receive(s, n, e.received, e.after) else n
  }

  lemma ReceiveSound(s: Settings, n: Net, r: Received, after: int)
    requires Sound(n.link) && Live(n)
    ensures var m := Receive(s, n, r, after);
            && Sound(m.link) && (Waiting(m) <==> r.Lost?) && (r.Lost? ==> !Live(m))
            && (Live(m) ==> m.link.sock == n.link.sock)
  {
    if r.Chunk? {
      FeedSound(s, n.framer, r.data, n.link);
    }
  }

  lemma WaitingIsDown(n: Net)
    requires Sound(n.link) && Waiting(n)
    ensures !Live(n)
  {
  }

  lemma NotDue(s: Settings, n: Net, now: int, c: Connection)
    requires !n.link.retry || now < n.link.at
    ensures Retry(s, n, now, c) == n
  {
  }

  lemma NoneDue(cfgs: seq<Network>, nets: seq<Net>, e: Env)
    requires |cfgs| == |nets| == |e.nets| && forall i | 0 <= i < |nets| :: !Waiting(nets[i])
    ensures RetryAll(cfgs, nets, e) == nets
  {
    hide Retry;
    forall i | 0 <= i < |nets|
      ensures RetryAll(cfgs, nets, e)[i] == nets[i]
    {
      NotDue(cfgs[i].settings, nets[i], e.now, e.nets[i].connection);
    }
  }

  /** The control part of the first `k` networks does not depend on the later ones. */
  lemma {:induction false} SameControl(c: Control, ready: seq<bool>, mids: seq<Net>, a: seq<Net>, b: seq<Net>,
                                       e: Env, k: nat)
    requires k <= |ready| == |mids| == |a| == |b| == |e.nets|
    requires forall j | 0 <= j < k :: a[j] == b[j]
    ensures ControlReceive(c, ready, mids, a, e, k) == ControlReceive(c, ready, mids, b, e, k)
  {
    if k > 0 {
      SameControl(c, ready, mids, a, b, e, k - 1);
    }
  }
}
