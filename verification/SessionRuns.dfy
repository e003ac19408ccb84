// What the single-network session goes on to do, src/session.c:109-203 and 347-401, read off its
// diary and its flags: when it tries again, how long it waits, and when it stays away.
module SessionRuns {
  import opened Operations
  import opened Session

  /** What a diary says was done, in order. */
  function Deeds(d: Diary): seq<Deed> {
    match d
    case Empty => []
    case Then(past, deed) => Deeds(past) + [deed]
  }

  /** A request to disconnect or to quit. */
  predicate Asks(ops: seq<Op>) {
    DisconnectOp in ops || QuitOp in ops
  }

  // ------------------------------------------------------------- what requests do

  /** A connection that is wanted stays wanted until somebody asks otherwise, */
  lemma {:induction false} StaysWanted(c: Control, ops: seq<Op>)
    requires !Asks(ops)
    ensures var d := ApplyOps(c, ops);
            && (c.connect ==> d.connect) && (!c.disconnect ==> !d.disconnect)
            && d.quit == c.quit && d.connected == c.connected && d.sock == c.sock
    decreases |ops|
  {
    if ops != [] {
      FirstOrRest(ops, DisconnectOp);
      FirstOrRest(ops, QuitOp);
      StaysWanted(ApplyOp(c, ops[0]), ops[1..]);
    }
  }

  /** and one that is not wanted, until somebody asks for it. */
  lemma {:induction false} StaysUnwanted(c: Control, ops: seq<Op>)
    requires !c.connect && ConnectOp !in ops
    ensures !ApplyOps(c, ops).connect && ApplyOps(c, ops).connected == c.connected
    decreases |ops|
  {
    if ops != [] {
      FirstOrRest(ops, ConnectOp);
      StaysUnwanted(ApplyOp(c, ops[0]), ops[1..]);
    }
  }

  // ------------------------------------------------------------- the connected loop

  /** The loop goes on after this pass. */
  predicate Calm(p: Pass) {
    && !p.breakAtHead && !p.breakSignal && !(p.rexx && Asks(p.ops))
    && (p.wait.Nothing? || (p.wait.Data? && !Asks(p.wait.hooks)))
  }

  /** The first pass after which it does not. */
  function Steady(passes: seq<Pass>): (n: nat)
    ensures n <= |passes| && (forall j | 0 <= j < n :: Calm(passes[j])) && (n < |passes| ==> !Calm(passes[n]))
  {
    if passes == [] || !Calm(passes[0]) then 0 else 1 + Steady(passes[1..])
  }

  /** Connected, and neither asked to leave nor wanting to connect. */
  predicate Settled(c: Control) {
    c.connected && !c.connect && !c.disconnect && !c.quit
  }

  predicate Quits(p: Pass) {
    && !p.breakAtHead
    && (p.breakSignal || (p.rexx && QuitOp in p.ops)
        || (!(p.rexx && Asks(p.ops)) && p.wait.Data? && QuitOp in p.wait.hooks))
  }

  predicate Disconnects(p: Pass) {
    !p.breakAtHead && ((p.rexx && Asks(p.ops)) || (!p.breakSignal && p.wait.Data? && Asks(p.wait.hooks)))
  }

  predicate Loses(p: Pass) {
    && !p.breakAtHead && !p.breakSignal && !(p.rexx && Asks(p.ops))
    && (p.wait.Failed? || p.wait.Lost?)
  }

  /** Calm passes change nothing but the reload flag. */
  lemma OneCalmPass(c: Control, passes: seq<Pass>) returns (d: Control)
    requires Settled(c) && passes != [] && Calm(passes[0])
    ensures Settled(d) && Connected(c, passes) == Connected(d, passes[1..])
  {
    var p := passes[0];
    d := if p.rexx then Commands(c, p.ops) else c;
    if p.rexx {
      StaysWanted(c, p.ops);
      DisconnectStays(c, p.ops);
    }
    if p.wait.Data? {
      StaysWanted(d, p.wait.hooks);
      DisconnectStays(d, p.wait.hooks);
      d := ApplyOps(d, p.wait.hooks);
    }
  }

  lemma OtherPass(c: Control, passes: seq<Pass>)
    requires Settled(c) && (passes != [] ==> !Calm(passes[0]))
    ensures var (d, lost) := Connected(c, passes);
            && d.sock == -1 && !d.connected && !d.connect
            && (lost <==> passes != [] && Loses(passes[0]))
            && (d.quit <==> passes != [] && Quits(passes[0]))
            && (d.disconnect <==> passes != [] && Disconnects(passes[0]))
  {
    hide ApplyOps;
    if passes != [] {
      var p := passes[0];
      OpsMean(c, p.ops);
      DisconnectStays(c, p.ops);
      if p.wait.Data? && Asks(p.wait.hooks) {
        var d := if p.rexx then Commands(c, p.ops) else c;
        OpsMean(d, p.wait.hooks);
        DisconnectStays(d, p.wait.hooks);
        DoneAtHead(ApplyOps(d, p.wait.hooks), passes[1..]);
      }
    }
  }

  lemma DoneAtHead(c: Control, passes: seq<Pass>)
    requires c.quit || c.disconnect
    ensures Connected(c, passes) == (SetSocket(c, -1), false)
  {
  }

  /** How the connected loop ends, by its first pass that is not calm: it reports a lost connection
      exactly when that pass does, and the flags say what was asked for in it. */
  lemma {:induction false} ConnectedEnds(c: Control, passes: seq<Pass>)
    requires Settled(c)
    ensures var ((d, lost), n) := (Connected(c, passes), Steady(passes));
            && d.sock == -1 && !d.connected && !d.connect
            && (lost <==> n < |passes| && Loses(passes[n]))
            && (d.quit <==> n < |passes| && Quits(passes[n]))
            && (d.disconnect <==> n < |passes| && Disconnects(passes[n]))
    decreases |passes|
  {
    hide Connected, Calm, Quits, Disconnects, Loses, Settled;
    if passes != [] && Calm(passes[0]) {
      var d := OneCalmPass(c, passes);
      ConnectedEnds(d, passes[1..]);
      assert Steady(passes) == 1 + Steady(passes[1..]);
    } else {
      OtherPass(c, passes);
    }
  }

  // ------------------------------------------------------------- one connection

  /** The pass that ends the connected loop, if the break key does not. */
  predicate EndsIn(call: Call, quit: bool, how: Pass -> bool) {
    var n := Steady(call.passes);
    call.registered && !quit && n < |call.passes| && how(call.passes[n])
  }

  /** The flags after a connection and its two events. DISCONNECT in the hooks of the CONNECT event is
      forgotten; QUIT is not. The hooks of the DISCONNECT event have the last word. */
  predicate Served(c: Control, call: Call, u: Control) {
    var early := c.quit || QuitOp in call.onConnect;
    var leaves := EndsIn(call, early, Disconnects);
    && u.sock == -1 && !u.connected
    && (u.quit <==> early || EndsIn(call, early, Quits) || QuitOp in call.onDisconnect)
    && (!Asks(call.onDisconnect) && ConnectOp !in call.onDisconnect ==> u.disconnect == leaves && !u.connect)
    && (Asks(call.onDisconnect) && ConnectOp !in call.onDisconnect ==> u.disconnect && !u.connect)
    && (!Asks(call.onDisconnect) && ConnectOp in call.onDisconnect ==> !u.disconnect && u.connect)
  }

  lemma {:induction false} Connects(c: Control, ops: seq<Op>)
    requires !c.connected && !Asks(ops) && ConnectOp in ops
    ensures ApplyOps(c, ops).connect && !ApplyOps(c, ops).disconnect
    decreases |ops|
  {
    FirstOrRest(ops, ConnectOp);
    FirstOrRest(ops, DisconnectOp);
    FirstOrRest(ops, QuitOp);
    if ops[0] == ConnectOp {
      StaysWanted(ApplyOp(c, ops[0]), ops[1..]);
    } else {
      Connects(ApplyOp(c, ops[0]), ops[1..]);
    }
  }

  lemma ConnectionFlags(c: Control, fd: int, call: Call)
    requires fd >= 0
    ensures var d := RunConnected(c, fd, call).0;
            && d.sock == -1 && !d.connected && !d.connect
            && (d.quit <==> c.quit || EndsIn(call, c.quit, Quits))
            && (d.disconnect <==> EndsIn(call, c.quit, Disconnects))
  {
    hide Connected, Quits, Disconnects, Loses, Steady;
    var d := SetSocket(c, fd).(disconnect := false);
    if call.registered {
      if d.quit {
        DoneAtHead(d, call.passes);
      } else {
        ConnectedEnds(d, call.passes);
      }
    }
  }

  lemma HooksLast(d: Control, ops: seq<Op>, u: Control)
    requires d.sock == -1 && !d.connected && !d.connect && u == ApplyOps(d, ops)
    ensures u.sock == -1 && !u.connected && (u.quit <==> d.quit || QuitOp in ops)
    ensures !Asks(ops) && ConnectOp !in ops ==> u.disconnect == d.disconnect && !u.connect
    ensures Asks(ops) && ConnectOp !in ops ==> u.disconnect && !u.connect
    ensures !Asks(ops) && ConnectOp in ops ==> !u.disconnect && u.connect
  {
    hide ApplyOps;
    OpsMean(d, ops);
    if ConnectOp !in ops {
      DisconnectStays(d, ops);
    } else if !Asks(ops) {
      Connects(d, ops);
    }
  }

  lemma ServeMeans(s: State, fd: int, call: Call)
    requires fd >= 0
    ensures var t := Serve(s, fd, call);
            && Deeds(t.diary) == Deeds(s.diary) + [Opened(fd), Up, Closed(fd), Down] && t.backoff == 1
            && Served(s.control, call, t.control)
  {
    hide ApplyOps, RunConnected, EndsIn;
    var c := ApplyOps(SetSocket(s.control, fd), call.onConnect);
    OpsMean(SetSocket(s.control, fd), call.onConnect);
    ConnectionFlags(c, fd, call);
    var d := RunConnected(c, fd, call).0;
    HooksLast(SetSocket(d, -1), call.onDisconnect, ApplyOps(SetSocket(d, -1), call.onDisconnect));
    FourDeeds(s.diary, fd);
  }

  lemma FourDeeds(d: Diary, fd: int)
    ensures Deeds(Then(Then(Then(Then(d, Opened(fd)), Up), Closed(fd)), Down))
         == Deeds(d) + [Opened(fd), Up, Closed(fd), Down]
  {
    var up := Then(Then(d, Opened(fd)), Up);
    assert Deeds(up) == Deeds(d) + [Opened(fd), Up];
    assert Deeds(Then(Then(up, Closed(fd)), Down)) == Deeds(up) + [Closed(fd), Down];
  }

  // ------------------------------------------------------------- a delay

  /** The flags after the commands of the first `n` steps. */
  function Held(c: Control, steps: seq<Tick>, n: nat): Control
    requires n <= |steps|
  {
    if n == 0 then c else ApplyOps(Held(c, steps, n - 1), steps[n - 1].ops).(reload := false)
  }

  predicate Wanted(c: Control) {
    c.connect && !c.quit
  }

  /** A delay of `m` steps takes `n` whole steps: in each of them no break key was down, and the
      connection was still wanted after its commands. */
  predicate Whole(c: Control, steps: seq<Tick>, m: nat, n: nat) {
    n <= m && n <= |steps| && Wanted(c) && forall j | 0 <= j < n :: !steps[j].breakKey && Wanted(Held(c, steps, j + 1))
  }

  /** It ends there, or in the next step, whose commands ask to give up. */
  predicate Waits(c: Control, steps: seq<Tick>, m: nat, n: nat, d: Control) {
    && Whole(c, steps, m, n)
    && if n == m || n == |steps| || steps[n].breakKey then d == Held(c, steps, n)
       else d == Held(c, steps, n + 1) && !Wanted(d)
  }

  lemma {:induction false} HeldFirst(c: Control, steps: seq<Tick>, n: nat)
    requires 0 < n <= |steps|
    ensures Held(c, steps, n) == Held(ApplyOps(c, steps[0].ops).(reload := false), steps[1..], n - 1)
  {
    hide ApplyOps;
    if n > 1 {
      HeldFirst(c, steps, n - 1);
    } else {
      assert Held(c, steps, 0) == c;
    }
  }

  lemma WholeMore(c: Control, steps: seq<Tick>, m: nat, n: nat)
    requires steps != [] && m > 0 && Wanted(c) && !steps[0].breakKey
    requires var d := ApplyOps(c, steps[0].ops).(reload := false); Whole(d, steps[1..], m - 1, n)
    ensures Whole(c, steps, m, n + 1)
  {
    hide ApplyOps, Wanted, Held;
    var d := ApplyOps(c, steps[0].ops).(reload := false);
    forall j | 0 <= j < n + 1
      ensures !steps[j].breakKey && Wanted(Held(c, steps, j + 1))
    {
      HeldFirst(c, steps, j + 1);
      if j > 0 {
        assert !steps[1..][j - 1].breakKey && Wanted(Held(d, steps[1..], j));
      } else {
        HeldNone(d, steps[1..]);
      }
    }
  }

  lemma HeldNone(c: Control, steps: seq<Tick>)
    ensures Held(c, steps, 0) == c
  {
  }

  /** A delay of `5 * m` ticks is `m` steps of a tenth of a second. */
  lemma {:induction false} DelayWaits(c: Control, m: nat, steps: seq<Tick>) returns (n: nat)
    requires Wanted(c)
    ensures Waits(c, steps, m, n, Paused(c, 5 * m, steps))
    decreases |steps|
  {
    hide ApplyOps, Whole;
    HeldNone(c, steps);
    if m == 0 || steps == [] || steps[0].breakKey {
      n := 0;
      WholeNone(c, steps, m);
    } else {
      var d := Commands(c, steps[0].ops);
      HeldFirst(c, steps, 1);
      HeldNone(d, steps[1..]);
      if !Wanted(d) {
        n := 0;
        WholeNone(c, steps, m);
      } else {
        assert (if 5 * m > 5 then 5 * m - 5 else 0) == 5 * (m - 1);
        var n' := DelayWaits(d, m - 1, steps[1..]);
        n := n' + 1;
        WholeMore(c, steps, m, n');
        WholeFits(d, steps[1..], m - 1, n');
        HeldFirst(c, steps, n);
        if n < |steps| {
          assert steps[1..][n'] == steps[n];
          HeldFirst(c, steps, n + 1);
        }
      }
    }
  }

  lemma WholeNone(c: Control, steps: seq<Tick>, m: nat)
    requires Wanted(c)
    ensures Whole(c, steps, m, 0)
  {
  }

  lemma WholeFits(c: Control, steps: seq<Tick>, m: nat, n: nat)
    requires Whole(c, steps, m, n)
    ensures n <= m && n <= |steps|
  {
  }

  /** A delay of some seconds, ten steps each. */
  predicate Delayed(c: Control, seconds: nat, steps: seq<Tick>, d: Control) {
    exists n :: 0 <= n <= |steps| && Waits(c, steps, 10 * seconds, n, d)
  }

  lemma DelayMeans(c: Control, seconds: nat, steps: seq<Tick>)
    requires Wanted(c)
    ensures Delayed(c, seconds, steps, Paused(c, seconds * 50, steps))
  {
    hide Paused, Whole, Wanted;
    var n := DelayWaits(c, 10 * seconds, steps);
    WholeFits(c, steps, 10 * seconds, n);
    assert seconds * 50 == 5 * (10 * seconds);
  }

  // ------------------------------------------------------------- one pass

  /** The next delay: twice the last, and never more than 30 seconds. */
  function Doubled(seconds: nat): nat {
    if 2 * seconds <= 30 then 2 * seconds else 30
  }

  /** What a pass of the outer loop does. Where no connection is wanted, nothing. A refused one is
      followed by the delay that is due. One that was made goes from its socket to its DISCONNECT event;
      then quit or the break key ends the loop, a request to disconnect leaves nothing wanted, and
      otherwise the connection was lost: after one second it is wanted again. */
  predicate Passed(s: State, a: Attempt, t: State, over: bool) {
    var c := ApplyOps(s.control, a.ops).(reload := false);
    if !c.connect then !over && t == s.(control := c)
    else if a.fd < 0 then
      && !over && Deeds(t.diary) == Deeds(s.diary) + [Refused, Slept(s.backoff)] && t.backoff == Doubled(s.backoff)
      && (c.quit || Delayed(c, s.backoff, a.delay, t.control))
    else Ended(s, a, c, Serve(s.(control := c), a.fd, a.call).control, t, over)
  }

  predicate Ended(s: State, a: Attempt, c: Control, u: Control, t: State, over: bool) {
    var deeds := Deeds(s.diary) + [Opened(a.fd), Up, Closed(a.fd), Down];
    && Served(c, a.call, u)
    && if u.quit || a.call.breakAfter then over && Deeds(t.diary) == deeds && t.backoff == 1 && t.control == u
       else if u.disconnect then
         !over && Deeds(t.diary) == deeds && t.backoff == 1 && t.control == u.(disconnect := false, connect := false)
       else
         && !over && Deeds(t.diary) == deeds + [Slept(1)] && t.backoff == 2
         && Delayed(u.(connect := true), 1, a.delay, t.control)
  }

  lemma TwoDeeds(d: Diary, seconds: nat)
    ensures Deeds(Then(Then(d, Refused), Slept(seconds))) == Deeds(d) + [Refused, Slept(seconds)]
  {
  }

  lemma PassMeans(s: State, a: Attempt)
    requires s.backoff <= 30
    ensures Passed(s, a, PassOnce(s, a).0, PassOnce(s, a).1)
  {
    hide ApplyOps, Serve, Served, Delayed, Paused;
    var c := Commands(s.control, a.ops);
    if c.connect {
      if a.fd < 0 {
        TwoDeeds(s.diary, s.backoff);
        if !c.quit {
          DelayMeans(c, s.backoff, a.delay);
        }
      } else {
        ServeMeans(s.(control := c), a.fd, a.call);
        var u := Serve(s.(control := c), a.fd, a.call).control;
        if !u.quit && !a.call.breakAfter && !u.disconnect {
          DelayMeans(u.(connect := true), 1, a.delay);
        }
      }
    }
  }

  // ------------------------------------------------------------- whole runs

  /** The state at the `k`-th head of the outer loop. */
  function StateAt(s: State, attempts: seq<Attempt>, k: nat): State
    requires k <= |attempts|
  {
    if k == 0 then s else PassOnce(StateAt(s, attempts, k - 1), attempts[k - 1]).0
  }

  /** How many passes are followed by another look at the head. */
  function Passes(s: State, attempts: seq<Attempt>): (k: nat)
    ensures k <= |attempts|
    decreases |attempts|
  {
    if s.control.quit || attempts == [] || attempts[0].breakAtHead || PassOnce(s, attempts[0]).1 then 0
    else 1 + Passes(PassOnce(s, attempts[0]).0, attempts[1..])
  }

  lemma {:induction false} StateFirst(s: State, attempts: seq<Attempt>, k: nat)
    requires 0 < k <= |attempts|
    ensures StateAt(s, attempts, k) == StateAt(PassOnce(s, attempts[0]).0, attempts[1..], k - 1)
  {
    hide PassOnce;
    if k > 1 {
      StateFirst(s, attempts, k - 1);
    } else {
      assert StateAt(s, attempts, 0) == s;
    }
  }

  function Off(c: Control): Control {
    c.(sock := -1, connected := false)
  }

  /** The session is over at this head, or with the pass after it. */
  ghost predicate Finishes(t: State, rest: seq<Attempt>, last: State) {
    if t.control.quit || rest == [] || rest[0].breakAtHead then last == t.(control := Off(t.control))
    else exists u: State :: Passed(t, rest[0], u, true) && last == u.(control := Off(u.control))
  }

  lemma BackoffBounded(s: State, a: Attempt)
    requires s.backoff <= 30
    ensures PassOnce(s, a).0.backoff <= 30
  {
    hide Passed;
    PassMeans(s, a);
    PassedBounded(s, a, PassOnce(s, a).0, PassOnce(s, a).1);
  }

  lemma PassedBounded(s: State, a: Attempt, t: State, over: bool)
    requires s.backoff <= 30 && Passed(s, a, t, over)
    ensures t.backoff <= 30
  {
    hide Served, Delayed, Deeds;
  }

  lemma OverOrNot(s: State, attempts: seq<Attempt>)
    requires s.backoff <= 30
    ensures Passes(s, attempts) == 0 ==> Finishes(s, attempts, RunSession(s, attempts))
    ensures Passes(s, attempts) > 0 ==>
              && attempts != [] && !s.control.quit && !attempts[0].breakAtHead && !PassOnce(s, attempts[0]).1
              && Passes(s, attempts) == 1 + Passes(PassOnce(s, attempts[0]).0, attempts[1..])
              && RunSession(s, attempts) == RunSession(PassOnce(s, attempts[0]).0, attempts[1..])
  {
    hide PassOnce, Passed;
    if attempts != [] {
      PassMeans(s, attempts[0]);
    }
  }

  /** Every run of the session: at every head before the last neither quit nor the break key is set and
      the pass does what a pass does; and the run finishes at the last one. */
  lemma {:induction false} SessionGoesOn(s: State, attempts: seq<Attempt>)
    requires s.backoff <= 30
    ensures var k := Passes(s, attempts);
            && (forall j | 0 <= j < k ::
                  && !StateAt(s, attempts, j).control.quit && !attempts[j].breakAtHead
                  && Passed(StateAt(s, attempts, j), attempts[j], StateAt(s, attempts, j + 1), false))
            && Finishes(StateAt(s, attempts, k), attempts[k..], RunSession(s, attempts))
    decreases |attempts|
  {
    hide PassOnce, Passed, Finishes, RunSession, Passes;
    OverOrNot(s, attempts);
    var k := Passes(s, attempts);
    if k > 0 {
      var t := PassOnce(s, attempts[0]).0;
      BackoffBounded(s, attempts[0]);
      SessionGoesOn(t, attempts[1..]);
      StateFirst(s, attempts, k);
      assert attempts[1..][k - 1..] == attempts[k..];
      forall j | 0 <= j < k
        ensures !StateAt(s, attempts, j).control.quit && !attempts[j].breakAtHead
        ensures Passed(StateAt(s, attempts, j), attempts[j], StateAt(s, attempts, j + 1), false)
      {
        StateFirst(s, attempts, j + 1);
        if j > 0 {
          StateFirst(s, attempts, j);
          assert attempts[1..][j - 1] == attempts[j];
        } else {
          StateNone(s, attempts);
          StateNone(t, attempts[1..]);
          PassMeans(s, attempts[0]);
        }
      }
    } else {
      StateNone(s, attempts);
      assert attempts[0..] == attempts;
    }
  }

  lemma StateNone(s: State, attempts: seq<Attempt>)
    ensures StateAt(s, attempts, 0) == s
  {
  }

  // ------------------------------------------------------------- undisturbed runs

  /** Nobody asks to leave, and no break key comes. */
  predicate Quiet(steps: seq<Tick>) {
    forall i | 0 <= i < |steps| :: !steps[i].breakKey && !Asks(steps[i].ops)
  }

  /** The connection is lost, or was never registered. */
  predicate Drops(call: Call) {
    var n := Steady(call.passes);
    && (call.registered ==> n < |call.passes| && Loses(call.passes[n]))
    && QuitOp !in call.onConnect && !Asks(call.onDisconnect) && !call.breakAfter
  }

  predicate Undisturbed(a: Attempt) {
    !a.breakAtHead && !Asks(a.ops) && Quiet(a.delay) && (a.fd >= 0 ==> Drops(a.call))
  }

  /** What the session does then: after a refusal it waits as long as is due, after a lost connection
      for a second, and every time it tries again. */
  function Story(wait: nat, attempts: seq<Attempt>): seq<Deed>
    decreases |attempts|
  {
    if attempts == [] then []
    else if attempts[0].fd < 0 then [Refused, Slept(wait)] + Story(Doubled(wait), attempts[1..])
    else
      var fd := attempts[0].fd;
      [Opened(fd), Up, Closed(fd), Down, Slept(1)] + Story(2, attempts[1..])
  }

  /** Away from a connection, and wanting one. */
  predicate Eager(c: Control) {
    !c.connected && c.connect && !c.quit
  }

  lemma {:induction false} HeldEager(c: Control, steps: seq<Tick>, n: nat)
    requires Eager(c) && Quiet(steps) && n <= |steps|
    ensures Eager(Held(c, steps, n))
  {
    hide ApplyOps;
    if n > 0 {
      HeldEager(c, steps, n - 1);
      StaysWanted(Held(c, steps, n - 1), steps[n - 1].ops);
    }
  }

  lemma DelayedEager(c: Control, seconds: nat, steps: seq<Tick>, d: Control)
    requires Eager(c) && Quiet(steps) && Delayed(c, seconds, steps, d)
    ensures Eager(d)
  {
    hide ApplyOps, Held, Whole;
    var n :| 0 <= n <= |steps| && Waits(c, steps, 10 * seconds, n, d);
    HeldEager(c, steps, n);
    if n < |steps| {
      HeldEager(c, steps, n + 1);
    }
  }

  lemma LostNotAsked(c: Control, call: Call, u: Control)
    requires Served(c, call, u) && !c.quit && Drops(call)
    ensures !u.quit && !u.disconnect && !u.connected && !call.breakAfter
  {
    hide Steady;
    var n := Steady(call.passes);
    if call.registered {
      LossIsNoRequest(call.passes[n]);
    }
  }

  lemma LossIsNoRequest(p: Pass)
    requires Loses(p)
    ensures !Quits(p) && !Disconnects(p)
  {
  }

  lemma UndisturbedPass(s: State, a: Attempt, t: State, over: bool)
    requires Eager(s.control) && s.backoff <= 30 && Undisturbed(a) && Passed(s, a, t, over)
    ensures !over && Eager(t.control)
    ensures t.backoff == if a.fd < 0 then Doubled(s.backoff) else 2
    ensures Deeds(t.diary) == Deeds(s.diary) + if a.fd < 0 then [Refused, Slept(s.backoff)]
                                               else [Opened(a.fd), Up, Closed(a.fd), Down, Slept(1)]
  {
    hide ApplyOps, Served, Delayed, Serve, Drops, Quiet, Asks;
    var c := ApplyOps(s.control, a.ops).(reload := false);
    StaysWanted(s.control, a.ops);
    if a.fd < 0 {
      DelayedEager(c, s.backoff, a.delay, t.control);
    } else {
      var u := Serve(s.(control := c), a.fd, a.call).control;
      LostNotAsked(c, a.call, u);
      DelayedEager(u.(connect := true), 1, a.delay, t.control);
      assert [Opened(a.fd), Up, Closed(a.fd), Down] + [Slept(1)] == [Opened(a.fd), Up, Closed(a.fd), Down, Slept(1)];
    }
  }

  lemma RunsOn(s: State, attempts: seq<Attempt>)
    requires !s.control.quit && attempts != [] && !attempts[0].breakAtHead && !PassOnce(s, attempts[0]).1
    ensures RunSession(s, attempts) == RunSession(PassOnce(s, attempts[0]).0, attempts[1..])
  {
  }

  /** Left to itself the session never gives up: whatever connections are refused or lost, and with
      whatever data and commands between, it tries again after every one of them. */
  lemma {:induction false} NeverGivesUp(s: State, attempts: seq<Attempt>)
    requires Eager(s.control) && s.backoff <= 30 && forall i | 0 <= i < |attempts| :: Undisturbed(attempts[i])
    ensures Deeds(RunSession(s, attempts).diary) == Deeds(s.diary) + Story(s.backoff, attempts)
    decreases |attempts|
  {
    hide PassOnce, Passed, Undisturbed, Eager;
    if attempts == [] {
      assert Deeds(s.diary) + [] == Deeds(s.diary);
    } else {
      var a, t := attempts[0], PassOnce(s, attempts[0]).0;
      EagerOn(s.control, a);
      PassMeans(s, a);
      UndisturbedPass(s, a, t, PassOnce(s, a).1);
      RunsOn(s, attempts);
      NeverGivesUp(t, attempts[1..]);
      var deeds := if a.fd < 0 then [Refused, Slept(s.backoff)] else [Opened(a.fd), Up, Closed(a.fd), Down, Slept(1)];
      Assoc(Deeds(s.diary), deeds, Story(t.backoff, attempts[1..]));
    }
  }

  lemma EagerOn(c: Control, a: Attempt)
    requires Eager(c) && Undisturbed(a)
    ensures !c.quit && !a.breakAtHead
  {
  }

  lemma Assoc(a: seq<Deed>, b: seq<Deed>, c: seq<Deed>)
    ensures a + b + c == a + (b + c)
  {
  }

  // ------------------------------------------------------------- staying away

  /** Where no connection is wanted nothing is done until somebody says CONNECT. */
  lemma {:induction false} IdleUntilConnect(s: State, attempts: seq<Attempt>)
    requires !s.control.connect && forall i | 0 <= i < |attempts| :: ConnectOp !in attempts[i].ops
    ensures RunSession(s, attempts).diary == s.diary
    decreases |attempts|
  {
    hide ApplyOps;
    if attempts != [] && !s.control.quit && !attempts[0].breakAtHead {
      StaysUnwanted(s.control, attempts[0].ops);
      IdleUntilConnect(PassOnce(s, attempts[0]).0, attempts[1..]);
    }
  }

  /** The connection ends because somebody asked for it, and nobody asks for another. */
  predicate Leaves(call: Call) {
    var n := Steady(call.passes);
    && call.registered && n < |call.passes| && Disconnects(call.passes[n]) && !Quits(call.passes[n])
    && QuitOp !in call.onConnect && QuitOp !in call.onDisconnect && ConnectOp !in call.onDisconnect
    && !call.breakAfter
  }

  lemma LeftAsAsked(c: Control, call: Call, u: Control)
    requires Served(c, call, u) && !c.quit && Leaves(call)
    ensures !u.quit && u.disconnect && !call.breakAfter
  {
    hide Steady, Disconnects, Quits;
  }

  /** After a requested disconnect there is no attempt until somebody says CONNECT: the diary ends with
      that connection. */
  lemma StaysAway(s: State, a: Attempt, rest: seq<Attempt>)
    requires Eager(s.control) && s.backoff <= 30 && !a.breakAtHead && !Asks(a.ops) && a.fd >= 0 && Leaves(a.call)
    requires forall i | 0 <= i < |rest| :: ConnectOp !in rest[i].ops
    ensures Deeds(RunSession(s, [a] + rest).diary) == Deeds(s.diary) + [Opened(a.fd), Up, Closed(a.fd), Down]
  {
    hide ApplyOps, PassOnce, Serve, Served, Delayed, Leaves, Asks, RunSession;
    StaysWanted(s.control, a.ops);
    PassMeans(s, a);
    var c := ApplyOps(s.control, a.ops).(reload := false);
    LeftAsAsked(c, a.call, Serve(s.(control := c), a.fd, a.call).control);
    var attempts := [a] + rest;
    assert attempts[1..] == rest;
    RunsOn(s, attempts);
    IdleUntilConnect(PassOnce(s, a).0, rest);
  }
}
