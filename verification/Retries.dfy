// When a network tries to connect and what comes of it, in terms of the clock, of the time that was
// set and of the outcomes of single sends: src/multinet.c:84-175 and 201-249.
module Retries {
  import opened Settings
  import opened Config
  import opened Networks
  import opened ModernIrc
  import opened OneNetwork
  import opened Multinet
  import opened Runs
  import opened Exits

  // ------------------------------------------------------------- one attempt

  /** What a record says was done, in order. */
  function Acts(log: Record): seq<Act> {
    match log
    case Start => []
    case Then(past, act) => Acts(past) + [act]
  }

  /** The `i`-th send of a connection succeeds; those for which no outcome is given do. */
  predicate Goes(sends: seq<bool>, i: nat) {
    i >= |sends| || sends[i]
  }

  predicate AllGo(sends: seq<bool>, n: nat) {
    forall i | 0 <= i < n :: Goes(sends, i)
  }

  /** Lines said one after another, each with its outcome. */
  function Saids(lines: seq<string>, sends: seq<bool>): (acts: seq<Act>)
    ensures |acts| == |lines|
  {
    seq(|lines|, i requires 0 <= i < |lines| => Said(lines[i], Goes(sends, i)))
  }

  function Rest(sends: seq<bool>): seq<bool> {
    if sends == [] then [] else sends[1..]
  }

  function After(sends: seq<bool>, n: nat): seq<bool> {
    if n <= |sends| then sends[n..] else []
  }

  lemma GoesRest(sends: seq<bool>, n: nat)
    ensures Goes(sends, n + 1) == Goes(Rest(sends), n) && After(sends, n + 1) == After(Rest(sends), n)
  {
  }

  lemma SaidsCons(line: string, lines: seq<string>, sends: seq<bool>)
    ensures Saids([line] + lines, sends) == [Said(line, Goes(sends, 0))] + Saids(lines, Rest(sends))
  {
    var l, r := Saids([line] + lines, sends), [Said(line, Goes(sends, 0))] + Saids(lines, Rest(sends));
    forall i | 0 <= i < |l|
      ensures l[i] == r[i]
    {
      if i > 0 {
        GoesRest(sends, i - 1);
      }
    }
  }

  lemma SpeakActs(l: Link, line: string)
    ensures var (m, ok) := Speak(l, line);
            && ok == Goes(l.sends, 0) && m == l.(sends := Rest(l.sends), log := m.log)
            && Acts(m.log) == Acts(l.log) + [Said(line, ok)]
  {
  }

  /** Three pieces of a record. */
  lemma Joined3(a: seq<Act>, x: Act, b: seq<Act>)
    ensures a + [x] + b == a + ([x] + b)
  {
  }

  lemma {:induction false} SpeakEachActs(l: Link, lines: seq<string>)
    ensures var m := SpeakEach(l, lines);
            && m == l.(sends := After(l.sends, |lines|), log := m.log)
            && Acts(m.log) == Acts(l.log) + Saids(lines, l.sends)
    decreases |lines|
  {
    hide Speak, Goes;
    if lines == [] {
      assert Saids([], l.sends) == [];
    } else {
      var m := Speak(l, lines[0]).0;
      SpeakActs(l, lines[0]);
      SpeakEachActs(m, lines[1..]);
      GoesRest(l.sends, |lines| - 1);
      assert lines == [lines[0]] + lines[1..];
      SaidsCons(lines[0], lines[1..], l.sends);
      Joined3(Acts(l.log), Said(lines[0], Goes(l.sends, 0)), Saids(lines[1..], m.sends));
    }
  }

  /** When every send goes out, all lines are said. */
  lemma {:induction false} SpeakAllGoes(l: Link, lines: seq<string>)
    requires AllGo(l.sends, |lines|)
    ensures var (m, ok) := SpeakAll(l, lines);
            && ok && m == l.(sends := After(l.sends, |lines|), log := m.log)
            && Acts(m.log) == Acts(l.log) + Saids(lines, l.sends)
    decreases |lines|
  {
    hide Speak, Goes;
    if lines == [] {
      assert Saids([], l.sends) == [];
    } else {
      var m := Speak(l, lines[0]).0;
      SpeakActs(l, lines[0]);
      assert Goes(l.sends, 0);
      forall i | 0 <= i < |lines| - 1
        ensures Goes(m.sends, i)
      {
        GoesRest(l.sends, i);
        assert Goes(l.sends, i + 1);
      }
      SpeakAllGoes(m, lines[1..]);
      GoesRest(l.sends, |lines| - 1);
      assert lines == [lines[0]] + lines[1..];
      SaidsCons(lines[0], lines[1..], l.sends);
      Joined3(Acts(l.log), Said(lines[0], true), Saids(lines[1..], m.sends));
    }
  }

  /** When the `j`-th is the first that fails, the lines up to it are. */
  lemma {:induction false} SpeakAllFails(l: Link, lines: seq<string>, j: nat)
    requires j < |lines| && AllGo(l.sends, j) && !Goes(l.sends, j)
    ensures var (m, ok) := SpeakAll(l, lines);
            && !ok && m == l.(sends := m.sends, log := m.log)
            && Acts(m.log) == Acts(l.log) + Saids(lines[..j + 1], l.sends)
    decreases |lines|
  {
    hide Speak, Goes;
    var m := Speak(l, lines[0]).0;
    SpeakActs(l, lines[0]);
    assert lines[..j + 1] == [lines[0]] + lines[1..][..j];
    SaidsCons(lines[0], lines[1..][..j], l.sends);
    if j == 0 {
      assert Saids(lines[1..][..0], m.sends) == [];
      assert [Said(lines[0], false)] + [] == [Said(lines[0], false)];
    } else {
      assert Goes(l.sends, 0);
      forall i | 0 <= i < j - 1
        ensures Goes(m.sends, i)
      {
        GoesRest(l.sends, i);
        assert Goes(l.sends, i + 1);
      }
      GoesRest(l.sends, j - 1);
      SpeakAllFails(m, lines[1..], j - 1);
      Joined3(Acts(l.log), Said(lines[0], true), Saids(lines[1..][..j], m.sends));
    }
  }

  /** The network is up on `fd`: its negotiation has just begun, no line is unfinished, and it has
      opened the socket, said its greeting and then joined its channels. */
  predicate Up(s: Settings, n: Net, m: Net, fd: nat, sends: seq<bool>) {
    && m.link.sock == fd && m.link.modern == Modern(s.cap, false, false, false)
    && m.framer.line == "" && !m.framer.dropping
    && Acts(m.link.log) == Acts(n.link.log) + ([Opened(fd)] + Saids(Greeting(s) + Joins(s.channels), sends))
  }

  /** The network is down again: the `j`-th line of its greeting could not be sent, and it has closed
      the socket it opened. */
  predicate Down(s: Settings, n: Net, m: Net, fd: nat, sends: seq<bool>, j: nat) {
    && m.link.sock == -1 && j < |Greeting(s)|
    && Acts(m.link.log) == Acts(n.link.log) + ([Opened(fd)] + Saids(Greeting(s)[..j + 1], sends) + [Closed(fd)])
  }

  lemma SaidsJoin(a: seq<string>, b: seq<string>, sends: seq<bool>)
    ensures Saids(a + b, sends) == Saids(a, sends) + Saids(b, After(sends, |a|))
  {
    var l, r := Saids(a + b, sends), Saids(a, sends) + Saids(b, After(sends, |a|));
    forall i | 0 <= i < |l|
      ensures l[i] == r[i]
    {
      if i >= |a| {
        assert Goes(sends, i) == Goes(After(sends, |a|), i - |a|);
      }
    }
  }

  lemma ConnectUp(s: Settings, n: Net, fd: nat, sends: seq<bool>)
    requires Secure(s) && AllGo(sends, |Greeting(s)|)
    ensures var (m, result) := Connect(s, n, Connected(fd, sends));
            && result == Ok && Up(s, n, m, fd, sends)
            && m.link.retry == n.link.retry && m.link.wait == n.link.wait && m.link.at == n.link.at
  {
    hide Greeting, Joins, SpeakAll, SpeakEach, AllGo;
    var l := n.link.(sock := fd, modern := Begin(s), sends := sends, log := Then(n.link.log, Opened(fd)));
    SpeakAllGoes(l, Greeting(s));
    var m := SpeakAll(l, Greeting(s)).0;
    SpeakEachActs(m, Joins(s.channels));
    SaidsJoin(Greeting(s), Joins(s.channels), sends);
    Regroup(Acts(n.link.log), Opened(fd), Saids(Greeting(s), sends), Saids(Joins(s.channels), m.sends));
  }

  lemma Regroup(a: seq<Act>, x: Act, b: seq<Act>, c: seq<Act>)
    ensures a + [x] + b + c == a + ([x] + (b + c)) && a + [x] + b + c == a + ([x] + b + c)
  {
  }

  lemma ConnectDown(s: Settings, n: Net, fd: nat, sends: seq<bool>, j: nat)
    requires Secure(s) && j < |Greeting(s)| && AllGo(sends, j) && !Goes(sends, j)
    ensures var (m, result) := Connect(s, n, Connected(fd, sends));
            && result == Again && Down(s, n, m, fd, sends, j)
            && m.link.retry == n.link.retry && m.link.wait == n.link.wait && m.link.at == n.link.at
  {
    hide Greeting, Joins, SpeakAll, SpeakEach, AllGo, Goes;
    var l := n.link.(sock := fd, modern := Begin(s), sends := sends, log := Then(n.link.log, Opened(fd)));
    SpeakAllFails(l, Greeting(s), j);
    Regroup(Acts(n.link.log), Opened(fd), Saids(Greeting(s)[..j + 1], sends), [Closed(fd)]);
  }

  /** An attempt, whatever the environment holds for it: it ends with the network up exactly when
      there is a socket and every line of the greeting goes out. */
  predicate Tried(s: Settings, n: Net, m: Net, c: Connection) {
    match c
    case Refused => m.link.sock == -1 && m.link.log == n.link.log
    case Connected(fd, sends) =>
      if AllGo(sends, |Greeting(s)|) then Up(s, n, m, fd, sends)
      else exists j :: 0 <= j < |Greeting(s)| && AllGo(sends, j) && !Goes(sends, j) && Down(s, n, m, fd, sends, j)
  }

  predicate Succeeds(s: Settings, c: Connection) {
    c.Connected? && AllGo(c.sends, |Greeting(s)|)
  }

  lemma {:induction false} FirstFailure(sends: seq<bool>, n: nat) returns (j: nat)
    requires !AllGo(sends, n)
    ensures j < n && AllGo(sends, j) && !Goes(sends, j)
  {
    if AllGo(sends, n - 1) {
      j := n - 1;
    } else {
      j := FirstFailure(sends, n - 1);
    }
  }

  lemma ConnectExactly(s: Settings, n: Net, c: Connection)
    requires Secure(s)
    ensures var (m, result) := Connect(s, n, c);
            && result == (if Succeeds(s, c) then Ok else Again) && Tried(s, n, m, c)
            && m.link.retry == n.link.retry && m.link.wait == n.link.wait && m.link.at == n.link.at
  {
    hide Greeting, Joins, SpeakAll, SpeakEach, AllGo, Goes, Up, Down;
    if c.Connected? {
      if AllGo(c.sends, |Greeting(s)|) {
        ConnectUp(s, n, c.fd, c.sends);
      } else {
        var j := FirstFailure(c.sends, |Greeting(s)|);
        ConnectDown(s, n, c.fd, c.sends, j);
      }
    }
  }

  /** Start-up: the network is up or waits one second; one that is not secure does neither. */
  lemma BootExactly(s: Settings, c: Connection, after: int)
    ensures var m := Boot(s, c, after);
            if !Secure(s) then m.link.sock == -1 && !m.link.retry && Acts(m.link.log) == []
            else
              && Tried(s, FRESH, m, c)
              && (m.link.retry <==> !Succeeds(s, c)) && (m.link.retry ==> m.link.wait == 1 && m.link.at == after + 1)
  {
    hide Connect, Tried, Succeeds;
    if Secure(s) {
      ConnectExactly(s, FRESH, c);
      var m := Connect(s, FRESH, c).0;
      SameTried(s, FRESH, m, Boot(s, c, after), c);
    } else {
      InsecureStays(s, FRESH, c);
    }
  }

  lemma InsecureStays(s: Settings, n: Net, c: Connection)
    requires !Secure(s)
    ensures Connect(s, n, c) == (n, Permanent)
  {
  }

  /** Only the socket, the flags, the unfinished line and the record matter. */
  lemma SameTried(s: Settings, n: Net, m: Net, m': Net, c: Connection)
    requires Tried(s, n, m, c) && m'.framer == m.framer
    requires m'.link.sock == m.link.sock && m'.link.modern == m.link.modern && m'.link.log == m.link.log
    ensures Tried(s, n, m', c)
  {
    hide Greeting, Joins, AllGo, Goes, Acts, Saids;
    if c.Connected? && !AllGo(c.sends, |Greeting(s)|) {
      var j :| 0 <= j < |Greeting(s)| && AllGo(c.sends, j) && !Goes(c.sends, j) && Down(s, n, m, c.fd, c.sends, j);
      assert Down(s, n, m', c.fd, c.sends, j);
    }
  }

  /** The greeting in full, for texts that fit their buffers. */
  lemma GreetingLines(s: Settings)
    requires Bounded(s)
    ensures Greeting(s)
         == (if s.cap then ["CAP LS 302"] else []) + (if s.pass != "" then ["PASS " + s.pass] else [])
            + ["NICK " + s.nick, "USER " + s.user + " 0 * :AmBot"]
  {
    assert Get(s, Pass).Str? && Get(s, Nick).Str? && Get(s, User).Str?;
  }

  // ------------------------------------------------------------- when it is made

  /** The next delay: twice the last, and never more than 30 seconds. */
  function Doubled(wait: nat): nat {
    if 2 * wait <= 30 then 2 * wait else 30
  }

  /** What a round makes of a waiting network: nothing before its time, and from then on an attempt;
      if that fails it waits on, twice as long, counted from the clock sample of the round. */
  predicate Retried(s: Settings, n: Net, m: Net, now: int, c: Connection) {
    if now < n.link.at then m == n
    else
      && Tried(s, n, m, c)
      && (m.link.retry <==> !Succeeds(s, c))
      && (m.link.retry ==> m.link.wait == Doubled(n.link.wait) && m.link.at == now + Doubled(n.link.wait))
  }

  lemma RetriedInTime(s: Settings, n: Net, now: int, e: NetEnv)
    requires Sound(n.link) && n.link.retry && Secure(s)
    ensures Retried(s, n, Round(s, n, now, e), now, e.connection)
  {
    hide Connect, Tried, Succeeds, Receive;
    assert Round(s, n, now, e) == Retry(s, n, now, e.connection);
    if now >= n.link.at {
      ConnectExactly(s, n, e.connection);
      SameTried(s, n, Connect(s, n, e.connection).0, Retry(s, n, now, e.connection), e.connection);
    }
  }

  // ------------------------------------------------------------- over a run

  /** Network `i` at the `k`-th loop head. */
  function NetAt(cfgs: seq<Network>, w: World, es: seq<Env>, i: nat, k: nat): Net
    requires |cfgs| == |w.nets| && Shaped(cfgs, es) && k <= |es| && i < |cfgs|
  {
    HeadAt(cfgs, w, es, k).nets[i]
  }

  lemma NetStep(cfgs: seq<Network>, w: World, es: seq<Env>, i: nat, k: nat)
    requires |cfgs| == |w.nets| && Shaped(cfgs, es) && k < |es| && i < |cfgs|
    ensures NetAt(cfgs, w, es, i, k + 1)
         == Round(cfgs[i].settings, NetAt(cfgs, w, es, i, k), es[k].now, es[k].nets[i])
  {
    hide Iterate, Round;
    IterateNets(cfgs, HeadAt(cfgs, w, es, k), es[k]);
  }

  lemma {:induction false} NetSound(cfgs: seq<Network>, w: World, es: seq<Env>, i: nat, k: nat)
    requires |cfgs| == |w.nets| && Shaped(cfgs, es) && k <= |es| && i < |cfgs| && Sound(w.nets[i].link)
    ensures Sound(NetAt(cfgs, w, es, i, k).link)
  {
    hide Round, Sound, HeadAt;
    if k > 0 {
      NetSound(cfgs, w, es, i, k - 1);
      NetStep(cfgs, w, es, i, k - 1);
      RoundSound(cfgs[i].settings, NetAt(cfgs, w, es, i, k - 1), es[k - 1].now, es[k - 1].nets[i]);
    } else {
      HeadNone(cfgs, w, es);
    }
  }

  lemma HeadNone(cfgs: seq<Network>, w: World, es: seq<Env>)
    requires |cfgs| == |w.nets| && Shaped(cfgs, es)
    ensures HeadAt(cfgs, w, es, 0) == w
  {
  }

  /** No clock sample of these iterations reaches the time. */
  predicate Before(es: seq<Env>, a: nat, b: nat, at: int)
    requires a <= b <= |es|
  {
    forall j | a <= j < b :: es[j].now < at
  }

  /** A waiting network is untouched until the clock reaches its time. */
  lemma {:induction false} WaitsForItsTime(cfgs: seq<Network>, w: World, es: seq<Env>, i: nat, a: nat, b: nat)
    requires |cfgs| == |w.nets| && Shaped(cfgs, es) && a <= b <= |es| && i < |cfgs|
    requires Sound(w.nets[i].link) && Secure(cfgs[i].settings)
    requires var n := NetAt(cfgs, w, es, i, a); n.link.retry && Before(es, a, b, n.link.at)
    ensures NetAt(cfgs, w, es, i, b) == NetAt(cfgs, w, es, i, a)
    decreases b - a
  {
    hide Round, Sound, Secure, NetAt;
    if a < b {
      WaitsForItsTime(cfgs, w, es, i, a, b - 1);
      NetSound(cfgs, w, es, i, b - 1);
      NetStep(cfgs, w, es, i, b - 1);
      assert es[b - 1].now < NetAt(cfgs, w, es, i, a).link.at;
      RetriedInTime(cfgs[i].settings, NetAt(cfgs, w, es, i, b - 1), es[b - 1].now, es[b - 1].nets[i]);
    }
  }

  /** In every run, from any loop head `a` at which network `i` waits: it is untouched in every
      iteration whose clock sample is before its time, and in the first one whose sample is not it
      makes an attempt. */
  lemma RetriesInRuns(cfgs: seq<Network>, w: World, es: seq<Env>, i: nat, a: nat, b: nat)
    requires |cfgs| == |w.nets| && Shaped(cfgs, es) && a <= b < Completed(cfgs, w, es) && i < |cfgs|
    requires Sound(w.nets[i].link) && Secure(cfgs[i].settings)
    requires var n := NetAt(cfgs, w, es, i, a); n.link.retry && Before(es, a, b, n.link.at)
    ensures var (n, m) := (NetAt(cfgs, w, es, i, a), NetAt(cfgs, w, es, i, b + 1));
            && NetAt(cfgs, w, es, i, b) == n
            && Retried(cfgs[i].settings, n, m, es[b].now, es[b].nets[i].connection)
  {
    hide Round, Sound, Secure, NetAt, Retried;
    WaitsForItsTime(cfgs, w, es, i, a, b);
    NetSound(cfgs, w, es, i, b);
    NetStep(cfgs, w, es, i, b);
    RetriedInTime(cfgs[i].settings, NetAt(cfgs, w, es, i, b), es[b].now, es[b].nets[i]);
  }

  /** A network that loses its connection when the clock says `t` is back on a new socket after the
      first iteration whose clock sample is past `t`, if it can connect and greet then. */
  lemma LostComesBack(cfgs: seq<Network>, w: World, es: seq<Env>, i: nat, a: nat, b: nat)
    requires |cfgs| == |w.nets| && Shaped(cfgs, es) && a < b < Completed(cfgs, w, es) && i < |cfgs|
    requires Sound(w.nets[i].link) && Secure(cfgs[i].settings)
    requires NetAt(cfgs, w, es, i, a).link.sock >= 0
    requires es[a].nets[i].readable && es[a].nets[i].received == Lost
    requires Before(es, a + 1, b, es[a].nets[i].after + 1) && es[b].now >= es[a].nets[i].after + 1
    requires Succeeds(cfgs[i].settings, es[b].nets[i].connection)
    ensures var (n, m, c) := (NetAt(cfgs, w, es, i, a), NetAt(cfgs, w, es, i, b + 1), es[b].nets[i].connection);
            && NetAt(cfgs, w, es, i, b).link.sock == -1 && !m.link.retry && m.link.sock == c.fd
            && Acts(m.link.log)
               == Acts(n.link.log) + ([Closed(n.link.sock), Opened(c.fd)]
                                      + Saids(Greeting(cfgs[i].settings) + Joins(cfgs[i].settings.channels), c.sends))
  {
    hide Completed, Round, Sound, Secure, NetAt, Retried, Succeeds, Before, HeadAt, Acts, Saids, Greeting, Joins;
    var n := NetAt(cfgs, w, es, i, a);
    NetSound(cfgs, w, es, i, a);
    NetStep(cfgs, w, es, i, a);
    LostRound(cfgs[i].settings, n, es[a].now, es[a].nets[i]);
    RetriesInRuns(cfgs, w, es, i, a + 1, b);
    BackUp(cfgs[i].settings, n, NetAt(cfgs, w, es, i, a + 1), NetAt(cfgs, w, es, i, b + 1), es[b].now,
           es[b].nets[i].connection);
  }

  /** What the record of a network that was lost and is back says. */
  lemma BackUp(s: Settings, n: Net, lost: Net, m: Net, now: int, c: Connection)
    requires Retried(s, lost, m, now, c) && now >= lost.link.at && Succeeds(s, c)
    requires Acts(lost.link.log) == Acts(n.link.log) + [Closed(n.link.sock)]
    ensures !m.link.retry && m.link.sock == c.fd
    ensures Acts(m.link.log)
         == Acts(n.link.log) + ([Closed(n.link.sock), Opened(c.fd)] + Saids(Greeting(s) + Joins(s.channels), c.sends))
  {
    hide AllGo, Greeting, Joins, Saids, Acts, Down;
    var said := Saids(Greeting(s) + Joins(s.channels), c.sends);
    assert [Closed(n.link.sock)] + [Opened(c.fd)] == [Closed(n.link.sock), Opened(c.fd)];
    assert Acts(n.link.log) + [Closed(n.link.sock)] + ([Opened(c.fd)] + said)
        == Acts(n.link.log) + ([Closed(n.link.sock), Opened(c.fd)] + said);
  }

  /** A lost connection: closed, and one second to wait. */
  lemma LostRound(s: Settings, n: Net, now: int, e: NetEnv)
    requires Sound(n.link) && n.link.sock >= 0 && e.readable && e.received == Lost
    ensures var m := Round(s, n, now, e);
            && m.link.sock == -1 && m.link.retry && m.link.wait == 1 && m.link.at == e.after + 1
            && Acts(m.link.log) == Acts(n.link.log) + [Closed(n.link.sock)]
  {
    RoundSound(s, n, now, e);
  }
}
