// src/net.c: writing to a socket whose kernel may take any part of each write.
module NetIo {

  /** What a peer has been sent so far, and the return codes the coming `send`
      calls will give (an arbitrary environment). No code left means failure. */
  datatype Wire = Wire(sent: string, plan: seq<int>)

  /** How many of `n` bytes a sequence of `send` calls gets across before the first code
      that is not positive, and the codes left after those calls. */
  function Taken(plan: seq<int>, n: nat): (r: (nat, seq<int>))
    ensures r.0 <= n
  {
    if n == 0 || plan == [] then (0, plan)
    else if plan[0] <= 0 then (0, plan[1..])
    else if plan[0] >= n then (n, plan[1..])
    else
      var rest := Taken(plan[1..], n - plan[0]);
      (plan[0] + rest.0, rest.1)
  }

  lemma TakenNone(plan: seq<int>)
    ensures Taken(plan, 0) == (0, plan)
  {
  }

  lemma TakenFails(plan: seq<int>, n: nat, rest: seq<int>)
    requires n > 0 && if plan == [] then rest == [] else plan[0] <= 0 && rest == plan[1..]
    ensures Taken(plan, n) == (0, rest)
  {
  }

  lemma TakenGoes(plan: seq<int>, n: nat, rc: int)
    requires n > 0 && plan != [] && rc > 0 && rc == if plan[0] > n then n else plan[0]
    ensures Taken(plan, n) == (rc + Taken(plan[1..], n - rc).0, Taken(plan[1..], n - rc).1)
  {
  }

  /** Bytes that the first `k` codes take. */
  function Sum(plan: seq<int>, k: nat): int
    requires k <= |plan|
  {
    if k == 0 then 0 else Sum(plan, k - 1) + plan[k - 1]
  }

  predicate AllPositive(plan: seq<int>, k: nat)
    requires k <= |plan|
  {
    forall i | 0 <= i < k :: plan[i] > 0
  }

  lemma {:induction false} SumFirst(plan: seq<int>, k: nat)
    requires 0 < k <= |plan|
    ensures Sum(plan, k) == plan[0] + Sum(plan[1..], k - 1)
  {
    if k > 1 {
      SumFirst(plan, k - 1);
    }
  }

  lemma {:induction false} SumGrows(plan: seq<int>, k: nat)
    requires k <= |plan| && AllPositive(plan, k)
    ensures Sum(plan, k) >= 0
  {
    if k > 0 {
      SumGrows(plan, k - 1);
    }
  }

  /** Enough positive codes take everything, and no call is made after the one that does. */
  lemma {:induction false} TakesAll(plan: seq<int>, n: nat, k: nat)
    requires k <= |plan| && AllPositive(plan, k) && n <= Sum(plan, k) && (k > 0 ==> n > Sum(plan, k - 1))
    ensures Taken(plan, n) == (n, plan[k..])
  {
    if k > 0 {
      SumFirst(plan, k);
      if k > 1 {
        SumFirst(plan, k - 1);
        SumGrows(plan[1..], k - 2);
        TakesAll(plan[1..], n - plan[0], k - 1);
      }
    }
  }

  /** Otherwise the bytes of the codes before the first that fails get across. */
  lemma {:induction false} TakesSome(plan: seq<int>, n: nat, k: nat)
    requires k <= |plan| && AllPositive(plan, k) && n > Sum(plan, k) && (k < |plan| ==> plan[k] <= 0)
    ensures Taken(plan, n) == (Sum(plan, k), if k < |plan| then plan[k + 1..] else [])
  {
    SumGrows(plan, k);
    if k > 0 {
      SumFirst(plan, k);
      SumGrows(plan[1..], k - 1);
      TakesSome(plan[1..], n - plan[0], k - 1);
    }
  }

  function Write(w: Wire, data: string): (r: (Wire, bool))
    ensures r.1 <==> r.0.sent == w.sent + data
    ensures w.sent <= r.0.sent <= w.sent + data
  {
    var t := Taken(w.plan, |data|);
    assert data[..t.0] <= data;
    (Wire(w.sent + data[..t.0], t.1), t.0 == |data|)
  }

  class Socket {
    var sent: string
    var plan: seq<int>

    ghost function State(): Wire
      reads this
    {
      Wire(sent, plan)
    }

    constructor (plan: seq<int>)
      ensures State() == Wire("", plan)
    {
      this.sent, this.plan := "", plan;
    }

    /** One `send` call: takes the next code of the plan, never more bytes than offered. */
    method Send(data: string) returns (rc: int)
      requires data != ""
      modifies this
      ensures old(plan) == [] ==> rc == -1 && plan == []
      ensures old(plan) != [] ==> plan == old(plan)[1..]
                                  && rc == if old(plan)[0] > |data| then |data| else old(plan)[0]
      ensures sent == if rc > 0 then old(sent) + data[..rc] else old(sent)
    {
      if plan == [] {
        return -1;
      }
      rc := if plan[0] > |data| then |data| else plan[0];
      plan := plan[1..];
      if rc > 0 {
        sent := sent + data[..rc];
      }
    }

    method SendAll(data: string) returns (ok: bool)
      modifies this
      ensures (State(), ok) == Write(old(State()), data)
    {
      hide Taken;
      var done := 0;
      while done < |data|
        invariant done <= |data| && sent == old(sent) + data[..done]
        invariant var rest := Taken(plan, |data| - done);
                  Taken(old(plan), |data|) == (done + rest.0, rest.1)
      {
        ghost var before := plan;
        var rc := Send(data[done..]);
        if rc <= 0 {
          TakenFails(before, |data| - done, plan);
          return false;
        }
        TakenGoes(before, |data| - done, rc);
        assert data[..done] + data[done..][..rc] == data[..done + rc];
        done := done + rc;
      }
      TakenNone(plan);
      ok := true;
    }
  }
}
