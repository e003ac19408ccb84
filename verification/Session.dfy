// src/session.c: the single-network session, its lifecycle events and its reconnect delays.
module Session {
  import opened Operations
  import Connections
  import OneNetwork

  // ------------------------------------------------------------ the environment

  /** One pass of the connected loop: the break key at its head, the ARexx signal with its
      commands, the break signal, and what the wait reported. */
  datatype Pass = Pass(breakAtHead: bool, rexx: bool, ops: seq<Op>, breakSignal: bool, wait: Wait)

  /** `hooks` are the commands that arrive while the events of the chunk are dispatched. */
  datatype Wait = Failed | Nothing | Lost | Data(hooks: seq<Op>)

  /** A connection: hooks of the CONNECT event, whether registration could be sent, the
      passes of the connected loop, the hooks of the DISCONNECT event, and the break key then. */
  datatype Call = Call(onConnect: seq<Op>, registered: bool, passes: seq<Pass>, onDisconnect: seq<Op>, breakAfter: bool)

  /** One step of a reconnect delay: the break key, and the commands that arrived. */
  datatype Tick = Tick(breakKey: bool, ops: seq<Op>)

  /** One pass of the outer loop; `fd` is what connecting returns. */
  datatype Attempt = Attempt(breakAtHead: bool, ops: seq<Op>, fd: int, call: Call, delay: seq<Tick>)

  /** What the session does, latest last. */
  datatype Deed = Opened(fd: int) | Up | Closed(fd: int) | Down | Refused | Slept(seconds: nat)

  datatype Diary = Empty | Then(past: Diary, deed: Deed)

  datatype State = State(control: Control, backoff: nat, diary: Diary)

  // ------------------------------------------------------------- what it does

  /** Commands, then `process_reload`. */
  function Commands(c: Control, ops: seq<Op>): Control {
    ApplyOps(c, ops).(reload := false)
  }

  /** The connected loop; once the passes are used up the break key is down. The flag says
      that the connection was lost. */
  function Connected(c: Control, passes: seq<Pass>): (Control, bool)
    decreases |passes|
  {
    if c.quit || c.disconnect || passes == [] || passes[0].breakAtHead then (SetSocket(c, -1), false)
    else
      var p := passes[0];
      var d := if p.rexx then Commands(c, p.ops) else c;
      if p.breakSignal then (SetSocket(d.(quit := true), -1), false)
      else if d.quit || d.disconnect then (SetSocket(d, -1), false)
      else
        match p.wait
        case Nothing => Connected(d, passes[1..])
        case Data(hooks) => Connected(ApplyOps(d, hooks), passes[1..])
        case _ => (SetSocket(d, -1), true)
  }

  /** `run_connected_session`. */
  function RunConnected(c: Control, fd: int, call: Call): (Control, bool) {
    var d := SetSocket(c, fd).(disconnect := false);
    if call.registered then Connected(d, call.passes) else (SetSocket(d, -1), true)
  }

  /** `reconnect_delay`; once the ticks are used up the break key is down. */
  function Paused(c: Control, ticks: nat, steps: seq<Tick>): Control
    decreases |steps|
  {
    if ticks == 0 || !c.connect || c.quit || steps == [] || steps[0].breakKey then c
    else
      var d := Commands(c, steps[0].ops);
      if !d.connect || d.quit then d else Paused(d, if ticks > 5 then ticks - 5 else 0, steps[1..])
  }

  /** A delay, if a connection is wanted, and the next backoff. */
  function DelayThen(s: State, steps: seq<Tick>): State {
    if s.control.connect then
      State(Paused(s.control, s.backoff * 50, steps), OneNetwork.NextWait(s.backoff), Then(s.diary, Slept(s.backoff)))
    else s
  }

  /** One connection from its socket to its DISCONNECT event. */
  function Serve(s: State, fd: int, call: Call): State {
    var c := ApplyOps(SetSocket(s.control, fd), call.onConnect);
    var (d, _) := RunConnected(c, fd, call);
    State(ApplyOps(SetSocket(d, -1), call.onDisconnect), 1,
          Then(Then(Then(Then(s.diary, Opened(fd)), Up), Closed(fd)), Down))
  }

  /** One pass of the outer loop after its head; the flag says that the loop ends. */
  function PassOnce(s: State, a: Attempt): (State, bool) {
    var c := Commands(s.control, a.ops);
    if !c.connect then (s.(control := c), false)
    else if a.fd < 0 then (DelayThen(s.(control := c, diary := Then(s.diary, Refused)), a.delay), false)
    else
      var t := Serve(s.(control := c), a.fd, a.call);
      if t.control.quit || a.call.breakAfter then (t, true)
      else if t.control.disconnect then (t.(control := t.control.(disconnect := false, connect := false)), false)
      else (DelayThen(t.(control := t.control.(connect := true)), a.delay), false)
  }

  /** The outer loop and what follows it; once the attempts are used up the break key is down. */
  function RunSession(s: State, attempts: seq<Attempt>): State
    decreases |attempts|
  {
    if s.control.quit || attempts == [] || attempts[0].breakAtHead then s.(control := SetSocket(s.control, -1))
    else
      var (t, over) := PassOnce(s, attempts[0]);
      if over then t.(control := SetSocket(t.control, -1)) else RunSession(t, attempts[1..])
  }

  // -------------------------------------------------------------- the loops

  class SingleSession {
    const control: ControlBlock
    var backoff: nat
    ghost var diary: Diary

    ghost function Now(): State
      reads this, control
    {
      State(control.State(), backoff, diary)
    }

    constructor (control: ControlBlock)
      ensures this.control == control && backoff == 1 && diary == Empty
    {
      this.control, backoff, diary := control, 1, Empty;
    }

    method Process(ops: seq<Op>)
      modifies control
      ensures control.State() == Commands(old(control.State()), ops)
    {
      control.Process(ops);
      control.reload := false;
    }

    method ConnectedSession(fd: int, call: Call) returns (lost: bool)
      modifies control
      ensures (control.State(), lost) == RunConnected(old(control.State()), fd, call)
    {
      hide ApplyOps;
      control.Set(fd);
      control.disconnect := false;
      if !call.registered {
        control.Set(-1);
        return true;
      }
      ghost var start := control.State();
      var i := 0;
      while i < |call.passes| && !call.passes[i].breakAtHead && !control.quit && !control.disconnect
        invariant i <= |call.passes|
        invariant Connected(start, call.passes) == Connected(control.State(), call.passes[i..])
      {
        var p := call.passes[i];
        assert call.passes[i..][1..] == call.passes[i + 1..];
        if p.rexx {
          Process(p.ops);
        }
        if p.breakSignal {
          control.quit := true;
          break;
        }
        if control.quit || control.disconnect {
          break;
        }
        if p.wait.Failed? || p.wait.Lost? {
          control.Set(-1);
          return true;
        }
        if p.wait.Data? {
          control.Process(p.wait.hooks);
        }
        i := i + 1;
      }
      control.Set(-1);
      lost := false;
    }

    method Delay(seconds: nat, steps: seq<Tick>)
      modifies control
      ensures control.State() == Paused(old(control.State()), seconds * 50, steps)
    {
      var ticks, i := seconds * 50, 0;
      while i < |steps| && ticks > 0 && control.connect && !control.quit && !steps[i].breakKey
        invariant 0 <= i <= |steps| && 0 <= ticks
        invariant Paused(old(control.State()), seconds * 50, steps) == Paused(control.State(), ticks, steps[i..])
        decreases |steps| - i
      {
        assert steps[i..][1..] == steps[i + 1..];
        Process(steps[i].ops);
        if !control.connect || control.quit {
          return;
        }
        ticks := if ticks > 5 then ticks - 5 else 0;
        i := i + 1;
      }
    }

    method DelayIfWanted(steps: seq<Tick>)
      modifies this, control
      ensures Now() == DelayThen(old(Now()), steps)
    {
      if control.connect {
        diary := Then(diary, Slept(backoff));
        Delay(backoff, steps);
        if backoff < 30 {
          backoff := backoff * 2;
          if backoff > 30 {
            backoff := 30;
          }
        }
      }
    }

    /** A connection from its socket to its DISCONNECT event. */
    method OneConnection(fd: int, call: Call)
      modifies this, control
      ensures Now() == Serve(old(Now()), fd, call)
    {
      backoff := 1;
      control.Set(fd);
      diary := Then(Then(diary, Opened(fd)), Up);
      control.Process(call.onConnect);
      var lost := ConnectedSession(fd, call);
      diary := Then(diary, Closed(fd));
      control.Set(-1);
      diary := Then(diary, Down);
      control.Process(call.onDisconnect);
    }

    method OnePass(a: Attempt) returns (over: bool)
      modifies this, control
      ensures (Now(), over) == PassOnce(old(Now()), a)
    {
      Process(a.ops);
      if !control.connect {
        return false;
      }
      if a.fd >= 0 {
        OneConnection(a.fd, a.call);
        if control.quit || a.call.breakAfter {
          return true;
        }
        if control.disconnect {
          control.disconnect, control.connect := false, false;
          return false;
        }
        control.connect := true;
      } else {
        diary := Then(diary, Refused);
      }
      DelayIfWanted(a.delay);
      over := false;
    }

    method Run(attempts: seq<Attempt>)
      modifies this, control
      ensures Now() == RunSession(old(Now()), attempts)
    {
      var i := 0;
      while i < |attempts| && !attempts[i].breakAtHead && !control.quit
        invariant i <= |attempts|
        invariant RunSession(old(Now()), attempts) == RunSession(Now(), attempts[i..])
      {
        assert attempts[i..][1..] == attempts[i + 1..];
        var over := OnePass(attempts[i]);
        if over {
          break;
        }
        i := i + 1;
      }
      control.Set(-1);
    }
  }

  // ---------------------------------------------------------- what it keeps

  /** Reading a diary: open, CONNECT, close the same socket, DISCONNECT, and again; refusals
      and delays only in between. */
  datatype Phase = Off | HasSocket(fd: int) | On(fd: int) | JustClosed | Wrong

  function PhaseOf(d: Diary): Phase {
    match d
    case Empty => Off
    case Then(past, deed) =>
      match (PhaseOf(past), deed)
      case (Off, Opened(fd)) => HasSocket(fd)
      case (HasSocket(fd), Up) => On(fd)
      case (On(fd), Closed(fd')) => if fd == fd' then JustClosed else Wrong
      case (JustClosed, Down) => Off
      case (Off, Refused) => Off
      case (Off, Slept(_)) => Off
      case _ => Wrong
  }

  /** Delays since the last connection, or since the start. */
  function DelaysSince(d: Diary): nat {
    match d
    case Empty => 0
    case Then(past, deed) => if deed.Opened? then 0 else DelaysSince(past) + if deed.Slept? then 1 else 0
  }

  /** Every delay is `min(2^k, 30)` seconds, where k counts the delays since the last connection. */
  predicate OnSchedule(d: Diary) {
    d.Then? ==> OnSchedule(d.past) && (d.deed.Slept? ==> d.deed.seconds == Connections.Delay(DelaysSince(d.past)))
  }

  predicate Orderly(s: State) {
    && Consistent(s.control) && s.control.sock < 0
    && PhaseOf(s.diary) == Off && OnSchedule(s.diary) && s.backoff == Connections.Delay(DelaysSince(s.diary))
  }

  lemma CommandsConsistent(c: Control, ops: seq<Op>)
    requires Consistent(c)
    ensures var d := Commands(c, ops); Consistent(d) && d.sock == c.sock && (c.quit ==> d.quit)
  {
    OpsConsistent(c, ops);
  }

  lemma {:induction false} ConnectedConsistent(c: Control, passes: seq<Pass>)
    requires Consistent(c)
    ensures var d := Connected(c, passes).0; Consistent(d) && d.sock == -1 && (c.quit ==> d.quit)
    decreases |passes|
  {
    if passes != [] {
      var p := passes[0];
      CommandsConsistent(c, p.ops);
      var d := if p.rexx then Commands(c, p.ops) else c;
      match p.wait {
        case Nothing => ConnectedConsistent(d, passes[1..]);
        case Data(hooks) =>
          OpsConsistent(d, hooks);
          ConnectedConsistent(ApplyOps(d, hooks), passes[1..]);
        case _ =>
      }
    }
  }

  lemma {:induction false} DelayConsistent(c: Control, ticks: nat, steps: seq<Tick>)
    requires Consistent(c)
    ensures var d := Paused(c, ticks, steps); Consistent(d) && d.sock == c.sock && (c.quit ==> d.quit)
    decreases |steps|
  {
    if steps != [] {
      CommandsConsistent(c, steps[0].ops);
      DelayConsistent(Commands(c, steps[0].ops), if ticks > 5 then ticks - 5 else 0, steps[1..]);
    }
  }

  lemma DelayOrderly(s: State, steps: seq<Tick>)
    requires Orderly(s)
    ensures Orderly(DelayThen(s, steps)) && (s.control.quit ==> DelayThen(s, steps).control.quit)
  {
    if s.control.connect {
      DelayConsistent(s.control, s.backoff * 50, steps);
    }
  }

  lemma ServeOrderly(s: State, fd: int, call: Call)
    requires Orderly(s) && fd >= 0
    ensures Orderly(Serve(s, fd, call)) && (s.control.quit ==> Serve(s, fd, call).control.quit)
  {
    var c := SetSocket(s.control, fd);
    OpsConsistent(c, call.onConnect);
    var d := SetSocket(ApplyOps(c, call.onConnect), fd).(disconnect := false);
    ConnectedConsistent(d, call.passes);
    var e := RunConnected(ApplyOps(c, call.onConnect), fd, call).0;
    OpsConsistent(SetSocket(e, -1), call.onDisconnect);
    var begun := Then(s.diary, Opened(fd));
    var up := Then(begun, Up);
    var closed := Then(up, Closed(fd));
    assert PhaseOf(begun) == HasSocket(fd) && OnSchedule(begun) && DelaysSince(begun) == 0;
    assert PhaseOf(up) == On(fd) && OnSchedule(up) && DelaysSince(up) == 0;
    assert PhaseOf(closed) == JustClosed && OnSchedule(closed) && DelaysSince(closed) == 0;
  }

  lemma TurnOrderly(s: State, a: Attempt)
    requires Orderly(s)
    ensures Orderly(PassOnce(s, a).0) && (s.control.quit ==> PassOnce(s, a).0.control.quit)
  {
    CommandsConsistent(s.control, a.ops);
    var c := Commands(s.control, a.ops);
    if a.fd < 0 {
      DelayOrderly(s.(control := c, diary := Then(s.diary, Refused)), a.delay);
    } else {
      ServeOrderly(s.(control := c), a.fd, a.call);
      var t := Serve(s.(control := c), a.fd, a.call);
      if !t.control.disconnect {
        DelayOrderly(t.(control := t.control.(connect := true)), a.delay);
      }
    }
  }

  /** Whatever ARexx commands come, and whenever: at every outer loop head and at the end the
      control flags are consistent with no socket held, quit was not cleared, CONNECT and
      DISCONNECT events have alternated with each opened socket closed exactly once between
      them, and the delays since the last connection were 1, 2, 4, 8, 16, 30, 30, ... */
  lemma {:induction false} SessionTheorem(s: State, attempts: seq<Attempt>)
    requires Orderly(s)
    ensures var t := RunSession(s, attempts);
            && Consistent(t.control) && t.control.sock == -1 && (s.control.quit ==> t.control.quit)
            && PhaseOf(t.diary) == Off && OnSchedule(t.diary)
    decreases |attempts|
  {
    if !s.control.quit && attempts != [] && !attempts[0].breakAtHead {
      TurnOrderly(s, attempts[0]);
      var (t, over) := PassOnce(s, attempts[0]);
      if !over {
        SessionTheorem(t, attempts[1..]);
      }
    }
  }

  /** The session starts so, with the control block as initialised. */
  lemma StartsOrderly()
    ensures Orderly(State(INITIAL, 1, Empty))
  {
  }
}
