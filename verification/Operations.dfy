// src/operations.c: the control flags that ARexx commands and the sessions share.
module Operations {

  /** `struct ambot_control`. */
  datatype Control = Control(sock: int, connected: bool, connect: bool, disconnect: bool, quit: bool, reload: bool)

  /** The ARexx commands that change control state; every other command leaves it alone. */
  datatype Op = ConnectOp | DisconnectOp | ReloadOp | QuitOp | OtherOp

  const INITIAL := Control(-1, false, true, false, false, false)

  function ApplyOp(c: Control, op: Op): Control {
    match op
    case ConnectOp => if c.connected then c else c.(connect := true, disconnect := false)
    case DisconnectOp => c.(disconnect := true, connect := false)
    case ReloadOp => c.(reload := true)
    case QuitOp => c.(quit := true, disconnect := true, connect := false)
    case OtherOp => c
  }

  function ApplyOps(c: Control, ops: seq<Op>): Control
    decreases |ops|
  {
    if ops == [] then c else ApplyOps(ApplyOp(c, ops[0]), ops[1..])
  }

  function SetSocket(c: Control, sock: int): Control {
    c.(sock := sock, connected := sock >= 0, connect := c.connect && sock < 0)
  }

  /** A socket connects and settles a wish to connect; none disconnects and leaves all requests. */
  lemma SocketMeans(c: Control, sock: int)
    ensures sock >= 0 ==> SetSocket(c, sock) == Control(sock, true, false, c.disconnect, c.quit, c.reload)
    ensures sock < 0 ==> SetSocket(c, sock) == Control(sock, false, c.connect, c.disconnect, c.quit, c.reload)
  {
  }

  /** What every operation and every session step keeps. */
  predicate Consistent(c: Control) {
    (c.connected <==> c.sock >= 0) && !(c.connect && c.disconnect)
  }

  lemma {:induction false} OpsConsistent(c: Control, ops: seq<Op>)
    requires Consistent(c)
    ensures var d := ApplyOps(c, ops);
            Consistent(d) && d.sock == c.sock && (c.quit ==> d.quit) && (c.reload ==> d.reload)
    decreases |ops|
  {
    if ops != [] {
      OpsConsistent(ApplyOp(c, ops[0]), ops[1..]);
    }
  }

  /** A request about the connection that takes effect; CONNECT is one only while there is none. */
  predicate Requests(c: Control, op: Op) {
    op == DisconnectOp || op == QuitOp || (op == ConnectOp && !c.connected)
  }

  predicate NoRequest(c: Control, ops: seq<Op>) {
    forall i | 0 <= i < |ops| :: !Requests(c, ops[i])
  }

  lemma FirstOrRest(ops: seq<Op>, op: Op)
    requires ops != []
    ensures op in ops <==> op == ops[0] || op in ops[1..]
  {
    assert ops == [ops[0]] + ops[1..];
  }

  lemma {:induction false} NothingRequested(c: Control, ops: seq<Op>)
    requires NoRequest(c, ops)
    ensures var d := ApplyOps(c, ops); d.connect == c.connect && d.disconnect == c.disconnect
    decreases |ops|
  {
    if ops != [] {
      assert !Requests(c, ops[0]) && forall i | 0 <= i < |ops| - 1 :: ops[1..][i] == ops[i + 1];
      NothingRequested(ApplyOp(c, ops[0]), ops[1..]);
    }
  }

  /** What commands leave alone, and that QUIT and RELOAD stay set once asked for. */
  lemma {:induction false} OpsMean(c: Control, ops: seq<Op>)
    ensures var d := ApplyOps(c, ops);
            && d.sock == c.sock && d.connected == c.connected
            && (d.quit <==> c.quit || QuitOp in ops) && (d.reload <==> c.reload || ReloadOp in ops)
    decreases |ops|
  {
    if ops != [] {
      OpsMean(ApplyOp(c, ops[0]), ops[1..]);
      FirstOrRest(ops, QuitOp);
      FirstOrRest(ops, ReloadOp);
    }
  }

  /** Of the requests about the connection the last one counts. */
  lemma {:induction false} LastRequest(c: Control, ops: seq<Op>, last: nat)
    requires last < |ops| && Requests(c, ops[last]) && NoRequest(c, ops[last + 1..])
    ensures var d := ApplyOps(c, ops);
            if ops[last] == ConnectOp then d.connect && !d.disconnect else d.disconnect && !d.connect
    decreases |ops|
  {
    var c' := ApplyOp(c, ops[0]);
    assert c'.connected == c.connected;
    if last == 0 {
      NothingRequested(c', ops[1..]);
    } else {
      assert ops[1..][last - 1] == ops[last] && ops[1..][last..] == ops[last + 1..];
      LastRequest(c', ops[1..], last - 1);
    }
  }

  /** While connected, or where CONNECT is not asked for, a request to disconnect stays. */
  lemma {:induction false} DisconnectStays(c: Control, ops: seq<Op>)
    requires c.connected || ConnectOp !in ops
    ensures var d, asked := ApplyOps(c, ops), DisconnectOp in ops || QuitOp in ops;
            (d.disconnect <==> c.disconnect || asked) && (d.connect <==> c.connect && !asked)
    decreases |ops|
  {
    if ops != [] {
      FirstOrRest(ops, ConnectOp);
      FirstOrRest(ops, DisconnectOp);
      FirstOrRest(ops, QuitOp);
      DisconnectStays(ApplyOp(c, ops[0]), ops[1..]);
    }
  }

  class ControlBlock {
    var sock: int
    var connected: bool
    var connect: bool
    var disconnect: bool
    var quit: bool
    var reload: bool

    ghost function State(): Control
      reads this
    {
      Control(sock, connected, connect, disconnect, quit, reload)
    }

    constructor ()
      ensures State() == INITIAL && Consistent(State())
      ensures sock == -1 && !connected && connect && !disconnect && !quit && !reload
    {
      sock, connected, connect, disconnect, quit, reload := -1, false, true, false, false, false;
    }

    method Set(s: int)
      modifies this
      ensures State() == SetSocket(old(State()), s)
    {
      sock := s;
      connected := s >= 0;
      if s >= 0 {
        connect := false;
      }
    }

    method Operate(op: Op)
      modifies this
      ensures State() == ApplyOp(old(State()), op)
    {
      match op {
        case ConnectOp =>
          if !connected {
            connect, disconnect := true, false;
          }
        case DisconnectOp =>
          disconnect, connect := true, false;
        case ReloadOp =>
          reload := true;
        case QuitOp =>
          quit, disconnect, connect := true, true, false;
        case OtherOp =>
      }
    }

    /** `ambot_rexx_process`: every waiting message in turn. */
    method Process(ops: seq<Op>)
      modifies this
      ensures State() == ApplyOps(old(State()), ops)
    {
      for i := 0 to |ops|
        invariant ApplyOps(old(State()), ops) == ApplyOps(State(), ops[i..])
      {
        assert ops[i..][1..] == ops[i + 1..];
        Operate(ops[i]);
      }
    }
  }
}
