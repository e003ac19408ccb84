// The ring buffer of src/events.c, and who loses events.
module EventQueue {
  import opened Events

  /** What the two sessions do with a list of events: the first sixteen of a chunk. */
  function Kept(events: seq<Event>): seq<Event> {
    if |events| <= CAPACITY then events else events[..CAPACITY]
  }

  function Lost(events: seq<Event>): nat {
    if |events| <= CAPACITY then 0 else |events| - CAPACITY
  }

  /** The first sixteen, in order, and a count of all the others. */
  lemma SixteenKept(events: seq<Event>)
    ensures Kept(events) <= events && |Kept(events)| + Lost(events) == |events|
    ensures |Kept(events)| == if |events| <= 16 then |events| else 16
  {
    assert Kept(events) == events[..|Kept(events)|];
  }

  function AllKept(chunks: seq<seq<Event>>): seq<Event> {
    if chunks == [] then [] else AllKept(chunks[..|chunks| - 1]) + Kept(chunks[|chunks| - 1])
  }

  function AllLost(chunks: seq<seq<Event>>): nat {
    if chunks == [] then 0 else AllLost(chunks[..|chunks| - 1]) + Lost(chunks[|chunks| - 1])
  }

  function Total(chunks: seq<seq<Event>>): nat {
    if chunks == [] then 0 else Total(chunks[..|chunks| - 1]) + |chunks[|chunks| - 1]|
  }

  /** No event is both dispatched and counted as dropped, and none is neither. */
  lemma {:induction false} KeptAndLost(chunks: seq<seq<Event>>)
    ensures |AllKept(chunks)| + AllLost(chunks) == Total(chunks)
  {
    if chunks != [] {
      KeptAndLost(chunks[..|chunks| - 1]);
    }
  }

  /** The place in the array of the `i`th queued event. */
  function Slot(head: nat, i: nat): (k: nat)
    requires head < CAPACITY && i <= CAPACITY
    ensures k < CAPACITY
  {
    (head + i) % CAPACITY
  }

  /** Slots are reused only after sixteen events. */
  lemma SlotsDiffer(head: nat, i: nat, j: nat)
    requires head < CAPACITY && i < j < CAPACITY
    ensures Slot(head, i) != Slot(head, j)
  {
    assert Slot(head, i) == if head + i < CAPACITY then head + i else head + i - CAPACITY;
    assert Slot(head, j) == if head + j < CAPACITY then head + j else head + j - CAPACITY;
  }

  lemma SlotAfter(head: nat, i: nat)
    requires head < CAPACITY && i < CAPACITY
    ensures (Slot(head, i) + 1) % CAPACITY == Slot(head, i + 1) == Slot((head + 1) % CAPACITY, i)
  {
    hide Slot;
    SlotCases(head, i);
    SlotCases(head, i + 1);
    if head + 1 < CAPACITY {
      SlotCases(head + 1, i);
    } else {
      SlotCases(0, i);
    }
  }

  lemma SlotCases(head: nat, i: nat)
    requires head < CAPACITY && i <= CAPACITY
    ensures Slot(head, i) == if head + i < CAPACITY then head + i else head + i - CAPACITY
  {
  }

  lemma Shift(front: seq<Event>, rest: seq<Event>)
    ensures rest == [] ==> front + rest == front
    ensures rest != [] ==> front + [rest[0]] + rest[1..] == front + rest
  {
  }

  class Ring {
    const items: array<Event>
    var head: nat
    var tail: nat
    var count: nat
    var dropped: nat
    ghost var offered: nat
    ghost var popped: nat

    ghost predicate Valid()
      reads this
    {
      && items.Length == CAPACITY && head < CAPACITY && tail < CAPACITY && count <= CAPACITY
      && tail == Slot(head, count)
      && offered == popped + count + dropped
    }

    /** The queued events, oldest first. */
    ghost function Contents(): seq<Event>
      requires Valid()
      reads this, items
    {
      seq(count, i requires 0 <= i < count && Valid() reads this, items => items[Slot(head, i)])
    }

    constructor ()
      ensures Valid() && fresh(items) && Contents() == [] && dropped == offered == 0
    {
      items := new Event[CAPACITY](_ => Event(PRIVMSG, "", "", ""));
      head, tail, count, dropped, offered, popped := 0, 0, 0, 0, 0, 0;
    }

    method Push(event: Event) returns (ok: bool)
      requires Valid()
      modifies this, items
      ensures Valid() && offered == old(offered) + 1 && popped == old(popped)
      ensures ok <==> |old(Contents())| < CAPACITY
      ensures Contents() == if ok then old(Contents()) + [event] else old(Contents())
      ensures dropped == old(dropped) + if ok then 0 else 1
    {
      offered := offered + 1;
      if count >= CAPACITY {
        dropped := dropped + 1;
        return false;
      }
      SlotAfter(head, count);
      forall i | 0 <= i < count
        ensures Slot(head, i) != tail
      {
        SlotsDiffer(head, i, count);
      }
      items[tail] := event;
      tail := (tail + 1) % CAPACITY;
      count := count + 1;
      ok := true;
    }

    method Pop() returns (ok: bool, event: Event)
      requires Valid()
      modifies this
      ensures Valid() && offered == old(offered) && dropped == old(dropped)
      ensures ok <==> old(Contents()) != []
      ensures ok ==> event == old(Contents())[0] && Contents() == old(Contents())[1..] && popped == old(popped) + 1
      ensures !ok ==> Contents() == [] && popped == old(popped)
    {
      event := items[head];
      if count == 0 {
        return false, event;
      }
      var next := (head + 1) % CAPACITY;
      forall i | 0 <= i < count
        ensures Slot(next, i) == Slot(head, i + 1)
      {
        SlotAfter(head, i);
      }
      head := next;
      count := count - 1;
      popped := popped + 1;
      ok := true;
    }

    /** Dispatching hands out everything queued, in order. */
    method DispatchPending() returns (handled: seq<Event>)
      requires Valid()
      modifies this
      ensures Valid() && Contents() == [] && handled == old(Contents())
      ensures offered == old(offered) && dropped == old(dropped)
    {
      handled := [];
      var ok, event := Pop();
      while ok
        invariant Valid() && offered == old(offered) && dropped == old(dropped)
        invariant ok ==> handled + [event] + Contents() == old(Contents())
        invariant !ok ==> handled == old(Contents()) && Contents() == []
        decreases count, ok
      {
        Shift(handled + [event], Contents());
        handled := handled + [event];
        ok, event := Pop();
      }
    }

    /** The supervisor's way: the queue is empty before every push, so nothing is dropped. */
    method PushAndDispatch(event: Event) returns (handled: seq<Event>)
      requires Valid() && Contents() == []
      modifies this, items
      ensures Valid() && Contents() == [] && handled == [event] && dropped == old(dropped)
    {
      var ok := Push(event);
      handled := [];
      if ok {
        handled := DispatchPending();
      }
    }

    /** The single-network way: all events of a received chunk are pushed, then dispatched. */
    method Chunk(events: seq<Event>) returns (handled: seq<Event>)
      requires Valid() && Contents() == []
      modifies this, items
      ensures Valid() && Contents() == [] && handled == Kept(events) && dropped == old(dropped) + Lost(events)
    {
      for i := 0 to |events|
        invariant Valid() && Contents() == Kept(events[..i]) && dropped == old(dropped) + Lost(events[..i])
      {
        assert events[..i + 1] == events[..i] + [events[i]];
        var _ := Push(events[i]);
      }
      assert events[..|events|] == events;
      handled := DispatchPending();
    }
  }
}
