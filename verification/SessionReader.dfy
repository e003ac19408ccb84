// The receive side of the single-network session (src/session.c:61-82 and 171-180): framer, line
// callback and event queue together.
module SessionReader {
  import opened Text
  import opened Irc
  import opened Framing
  import opened Events
  import opened EventQueue
  import opened Connections

  // ----------------------------------------------------------- pushing while framing

  /** The queue as the callback sees it. */
  datatype Queue = Queue(items: seq<Event>, dropped: nat)

  function Offer(q: Queue, e: Event): Queue {
    if |q.items| < CAPACITY then q.(items := q.items + [e]) else q.(dropped := q.dropped + 1)
  }

  function OfferAll(q: Queue, events: seq<Event>): Queue
    decreases |events|
  {
    if events == [] then q else OfferAll(Offer(q, events[0]), events[1..])
  }

  /** `handle_line`: pings aside, the event of a line is pushed; the feed is never stopped. */
  function Pushing(of: string -> seq<Event>): Callback<Queue> {
    (q: Queue, line: string) => (OfferAll(q, of(line)), false)
  }

  /** The lines a chunk completes. */
  function ChunkLines(f: Framer, data: string): seq<string> {
    Feed(f, data, Collect, []).state
  }

  function FramerAfter(f: Framer, data: string): Framer {
    Feed(f, data, Collect, []).framer
  }

  lemma {:induction false} CollectFrom(f: Framer, data: string, seen: seq<string>)
    ensures Feed(f, data, Collect, seen) == Fed(FramerAfter(f, data), seen + ChunkLines(f, data), false)
    decreases |data|
  {
    if data == "" {
      assert seen + [] == seen;
    } else if data[0] != '\n' {
      CollectFrom(Irc.Push(f, data[0]), data[1..], seen);
    } else if f.dropping {
      CollectFrom(IDLE, data[1..], seen);
    } else {
      var line := CStr(StripCr(f.line));
      CollectFrom(IDLE, data[1..], seen + [line]);
      CollectFrom(IDLE, data[1..], [] + [line]);
      assert seen + [line] + ChunkLines(IDLE, data[1..]) == seen + ([] + [line] + ChunkLines(IDLE, data[1..]));
    }
  }

  lemma {:induction false} OfferAppend(q: Queue, a: seq<Event>, b: seq<Event>)
    ensures OfferAll(q, a + b) == OfferAll(OfferAll(q, a), b)
    decreases |a|
  {
    if a == [] {
      assert a + b == b;
    } else {
      assert (a + b)[1..] == a[1..] + b;
      OfferAppend(Offer(q, a[0]), a[1..], b);
    }
  }

  /** Feeding a chunk with the pushing callback offers the events of the lines it completes. */
  lemma {:induction false} PushingOffers(of: string -> seq<Event>, f: Framer, data: string, q: Queue)
    ensures Feed(f, data, Pushing(of), q)
         == Fed(FramerAfter(f, data), OfferAll(q, EventsOf(of, ChunkLines(f, data))), false)
    decreases |data|
  {
    if data != "" {
      if data[0] != '\n' {
        PushingOffers(of, Irc.Push(f, data[0]), data[1..], q);
      } else if f.dropping {
        PushingOffers(of, IDLE, data[1..], q);
      } else {
        var line, rest := CStr(StripCr(f.line)), ChunkLines(IDLE, data[1..]);
        CollectFrom(IDLE, data[1..], [] + [line]);
        PushingOffers(of, IDLE, data[1..], OfferAll(q, of(line)));
        OfferAppend(q, of(line), EventsOf(of, rest));
        assert ([line] + rest)[1..] == rest && [] + [line] == [line];
      }
    }
  }

  lemma {:induction false} OfferedAreKept(events: seq<Event>, dropped: nat, n: nat)
    requires n <= |events|
    ensures OfferAll(Queue([], dropped), events[..n]) == Queue(Kept(events[..n]), dropped + Lost(events[..n]))
  {
    if n > 0 {
      OfferedAreKept(events, dropped, n - 1);
      assert events[..n] == events[..n - 1] + [events[n - 1]];
      OfferAppend(Queue([], dropped), events[..n - 1], [events[n - 1]]);
      assert [events[n - 1]][1..] == [];
      var q := Queue(Kept(events[..n - 1]), dropped + Lost(events[..n - 1]));
      assert OfferAll(q, [events[n - 1]]) == Offer(q, events[n - 1]);
    }
  }

  lemma ChunkQueuesBy(of: string -> seq<Event>, f: Framer, data: string, dropped: nat)
    ensures var events := EventsOf(of, ChunkLines(f, data));
            Feed(f, data, Pushing(of), Queue([], dropped))
              == Fed(FramerAfter(f, data), Queue(Kept(events), dropped + Lost(events)), false)
  {
    var events := EventsOf(of, ChunkLines(f, data));
    PushingOffers(of, f, data, Queue([], dropped));
    OfferedAreKept(events, dropped, |events|);
    assert events[..|events|] == events;
  }

  /** One received chunk, the queue being empty before it: exactly the first sixteen events of the
      lines it completes are queued to be dispatched, in order, and the others count as dropped. */
  lemma ChunkQueues(f: Framer, data: string, dropped: nat)
    ensures var events := EventsOf(EventOf, ChunkLines(f, data));
            Feed(f, data, Pushing(EventOf), Queue([], dropped))
              == Fed(FramerAfter(f, data), Queue(Kept(events), dropped + Lost(events)), false)
  {
    ChunkQueuesBy(EventOf, f, data, dropped);
  }

  // ------------------------------------------------------------------ a connection

  /** The lines each chunk of a connection completes. */
  function LinesByChunk(f: Framer, chunks: seq<string>): (r: seq<seq<string>>)
    ensures |r| == |chunks|
    decreases |chunks|
  {
    if chunks == [] then []
    else [ChunkLines(f, chunks[0])] + LinesByChunk(FramerAfter(f, chunks[0]), chunks[1..])
  }

  function Flat(lists: seq<seq<string>>): seq<string> {
    if lists == [] then [] else lists[0] + Flat(lists[1..])
  }

  lemma {:induction false} FlatFeeds(f: Framer, chunks: seq<string>, seen: seq<string>)
    ensures FeedChunks(f, chunks, Collect, seen).state == seen + Flat(LinesByChunk(f, chunks))
    ensures !FeedChunks(f, chunks, Collect, seen).stopped
    decreases |chunks|
  {
    if chunks == [] {
      assert seen + [] == seen;
    } else {
      CollectFrom(f, chunks[0], seen);
      var first, more := ChunkLines(f, chunks[0]), LinesByChunk(FramerAfter(f, chunks[0]), chunks[1..]);
      FlatFeeds(FramerAfter(f, chunks[0]), chunks[1..], seen + first);
      assert LinesByChunk(f, chunks)[1..] == more;
      assert seen + first + Flat(more) == seen + (first + Flat(more));
    }
  }

  /** However the bytes are split, the chunks complete the accepted lines of the whole stream. */
  lemma LinesOfStream(chunks: seq<string>)
    ensures Flat(LinesByChunk(IDLE, chunks)) == Framing.Accepted(Cut(Joined(chunks)).0)
  {
    var lines := Framing.Accepted(Cut(Joined(chunks)).0);
    FlatFeeds(IDLE, chunks, []);
    StreamTheorem(chunks, Collect, []);
    CollectAll([], lines);
    assert [] + lines == lines && [] + Flat(LinesByChunk(IDLE, chunks)) == Flat(LinesByChunk(IDLE, chunks));
  }

  function EventsByChunk(lists: seq<seq<string>>): (r: seq<seq<Event>>)
    ensures |r| == |lists|
  {
    seq(|lists|, i requires 0 <= i < |lists| => EventsOf(EventOf, lists[i]))
  }

  lemma {:induction false} EventsAppend(of: string -> seq<Event>, a: seq<string>, b: seq<string>)
    ensures EventsOf(of, a + b) == EventsOf(of, a) + EventsOf(of, b)
  {
    if a == [] {
      assert a + b == b;
    } else {
      assert (a + b)[1..] == a[1..] + b;
      EventsAppend(of, a[1..], b);
      assert of(a[0]) + EventsOf(of, a[1..]) + EventsOf(of, b) == of(a[0]) + (EventsOf(of, a[1..]) + EventsOf(of, b));
    }
  }

  lemma {:induction false} TotalCons(first: seq<Event>, rest: seq<seq<Event>>)
    ensures Total([first] + rest) == |first| + Total(rest)
  {
    var all := [first] + rest;
    if rest == [] {
      assert all[..0] == [];
    } else {
      assert all[..|all| - 1] == [first] + rest[..|rest| - 1];
      TotalCons(first, rest[..|rest| - 1]);
    }
  }

  lemma {:induction false} TotalOfFlat(of: string -> seq<Event>, lists: seq<seq<string>>, events: seq<seq<Event>>)
    requires |events| == |lists| && forall i | 0 <= i < |lists| :: events[i] == EventsOf(of, lists[i])
    ensures Total(events) == |EventsOf(of, Flat(lists))|
  {
    if lists != [] {
      TotalOfFlat(of, lists[1..], events[1..]);
      EventsAppend(of, lists[0], Flat(lists[1..]));
      TotalCons(events[0], events[1..]);
      assert events == [events[0]] + events[1..];
    }
  }

  function FramerAfterAll(f: Framer, chunks: seq<string>): Framer
    decreases |chunks|
  {
    if chunks == [] then f else FramerAfterAll(FramerAfter(f, chunks[0]), chunks[1..])
  }

  lemma {:induction false} OneMoreChunk(f: Framer, chunks: seq<string>, last: string)
    ensures var before := FramerAfterAll(f, chunks);
            && FramerAfterAll(f, chunks + [last]) == FramerAfter(before, last)
            && LinesByChunk(f, chunks + [last]) == LinesByChunk(f, chunks) + [ChunkLines(before, last)]
    decreases |chunks|
  {
    if chunks == [] {
      assert ([] + [last])[1..] == [];
    } else {
      assert (chunks + [last])[1..] == chunks[1..] + [last];
      OneMoreChunk(FramerAfter(f, chunks[0]), chunks[1..], last);
    }
  }

  lemma KeptSnoc(chunks: seq<seq<Event>>, last: seq<Event>)
    ensures AllKept(chunks + [last]) == AllKept(chunks) + Kept(last)
    ensures AllLost(chunks + [last]) == AllLost(chunks) + Lost(last)
  {
    assert (chunks + [last])[..|chunks|] == chunks;
  }

  lemma EventsByChunkSnoc(lists: seq<seq<string>>, last: seq<string>)
    ensures EventsByChunk(lists + [last]) == EventsByChunk(lists) + [EventsOf(EventOf, last)]
  {
  }

  // -------------------------------------------------------------- the imperative reader

  method LineEvents(line: string) returns (events: seq<Event>)
    ensures events == EventOf(line)
  {
    if StartsWith(line, "PING ") {
      return [];
    }
    var event := FromIrcLine(line);
    events := if event.Some? then [event.value] else [];
  }

  method AllEvents(lines: seq<string>) returns (events: seq<Event>)
    ensures events == EventsOf(EventOf, lines)
  {
    events := [];
    for i := 0 to |lines|
      invariant events == EventsOf(EventOf, lines[..i])
    {
      EventsAppend(EventOf, lines[..i], [lines[i]]);
      assert lines[..i + 1] == lines[..i] + [lines[i]];
      OneEvent(EventOf, lines[i]);
      var more := LineEvents(lines[i]);
      events := events + more;
    }
    assert lines[..|lines|] == lines;
  }

  lemma OneEvent(of: string -> seq<Event>, line: string)
    ensures EventsOf(of, [line]) == of(line)
  {
    assert [line][1..] == [];
  }

  class Reader {
    const framer: LineFramer
    const ring: Ring

    ghost predicate Valid()
      reads this, framer, ring
    {
      framer.Valid() && ring.Valid()
    }

    constructor ()
      ensures Valid() && fresh(framer) && fresh(framer.line) && fresh(ring) && fresh(ring.items)
      ensures framer.State() == IDLE && ring.Contents() == [] && ring.dropped == 0
    {
      framer := new LineFramer();
      ring := new Ring();
    }

    /** One received chunk: lines are framed, their events pushed, then everything is dispatched. */
    method Receive(data: string) returns (handled: seq<Event>)
      requires Valid() && ring.Contents() == []
      modifies framer, framer.line, ring, ring.items
      ensures Valid() && ring.Contents() == []
      ensures framer.State() == FramerAfter(old(framer.State()), data)
      ensures var events := EventsOf(EventOf, ChunkLines(old(framer.State()), data));
              handled == Kept(events) && ring.dropped == old(ring.dropped) + Lost(events)
    {
      var lines, _ := framer.FeedBytes(data, Collect, []);
      var events := AllEvents(lines);
      handled := ring.Chunk(events);
    }

    /** A whole connection: each chunk dispatches the first sixteen events of the lines it completes
        and counts the others, so that together they are all the events of the stream. */
    method Connection(chunks: seq<string>) returns (handled: seq<Event>)
      requires Valid() && ring.Contents() == [] && framer.State() == IDLE
      modifies framer, framer.line, ring, ring.items
      ensures Valid() && ring.Contents() == []
      ensures handled == DispatchedOf(chunks) && ring.dropped == old(ring.dropped) + LostOf(chunks)
      ensures |handled| + (ring.dropped - old(ring.dropped))
           == |EventsOf(EventOf, Framing.Accepted(Cut(Joined(chunks)).0))|
    {
      handled := [];
      for i := 0 to |chunks|
        invariant Valid() && ring.Contents() == [] && framer.State() == FramerAfterAll(IDLE, chunks[..i])
        invariant handled == DispatchedOf(chunks[..i]) && ring.dropped == old(ring.dropped) + LostOf(chunks[..i])
      {
        OneMoreDispatched(chunks[..i], chunks[i]);
        TakeOneMore(chunks, i);
        var more := Receive(chunks[i]);
        handled := handled + more;
      }
      assert chunks[..|chunks|] == chunks;
      AccountForAll(chunks);
    }
  }

  lemma TakeOneMore(chunks: seq<string>, i: nat)
    requires i < |chunks|
    ensures chunks[..i + 1] == chunks[..i] + [chunks[i]]
  {
  }

  /** Of the events of the lines each chunk completes, the first sixteen. */
  function DispatchedOf(chunks: seq<string>): seq<Event> {
    AllKept(EventsByChunk(LinesByChunk(IDLE, chunks)))
  }

  function LostOf(chunks: seq<string>): nat {
    AllLost(EventsByChunk(LinesByChunk(IDLE, chunks)))
  }

  lemma OneMoreDispatched(chunks: seq<string>, last: string)
    ensures var f := FramerAfterAll(IDLE, chunks);
            var events := EventsOf(EventOf, ChunkLines(f, last));
            && FramerAfterAll(IDLE, chunks + [last]) == FramerAfter(f, last)
            && DispatchedOf(chunks + [last]) == DispatchedOf(chunks) + Kept(events)
            && LostOf(chunks + [last]) == LostOf(chunks) + Lost(events)
  {
    var lists, lines := LinesByChunk(IDLE, chunks), ChunkLines(FramerAfterAll(IDLE, chunks), last);
    OneMoreChunk(IDLE, chunks, last);
    EventsByChunkSnoc(lists, lines);
    KeptSnoc(EventsByChunk(lists), EventsOf(EventOf, lines));
  }

  lemma AccountForAll(chunks: seq<string>)
    ensures |DispatchedOf(chunks)| + LostOf(chunks) == |EventsOf(EventOf, Framing.Accepted(Cut(Joined(chunks)).0))|
  {
    var lists := LinesByChunk(IDLE, chunks);
    KeptAndLost(EventsByChunk(lists));
    TotalOfFlat(EventOf, lists, EventsByChunk(lists));
    LinesOfStream(chunks);
  }
}
