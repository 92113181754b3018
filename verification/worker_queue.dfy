// The Go side's reader of a core's event lines and the bounded channel it
// fills, with consumers taking events at any time.
module WorkerQueue {
  import opened Hex

  // A line of the core's output, already decoded where it decodes.
  datatype Line = Empty | Decoded(event: string) | Malformed(raw: string)

  datatype WorkerEvent = CoreEvent(event: string) | ParseError(raw: string)

  const CAPACITY: nat := 256

  // The event a line that is not empty becomes.
  function Parse(line: Line): WorkerEvent
    requires !line.Empty?
  {
    match line
    case Decoded(e) => CoreEvent(e)
    case Malformed(raw) => ParseError(raw)
  }

  // The events of all the lines read, in order.
  function Parsed(lines: seq<Line>): seq<WorkerEvent>
  {
    if lines == [] then []
    else
      var k := |lines| - 1;
      Parsed(lines[..k]) + (if lines[k].Empty? then [] else [Parse(lines[k])])
  }

  // What waits in the channel, what consumers have taken, and how many events
  // found no room.
  datatype Queue = Queue(pending: seq<WorkerEvent>, taken: seq<WorkerEvent>, dropped: nat)

  predicate HasRoom(q: Queue) { |q.pending| < CAPACITY }

  function Offered(q: Queue, e: WorkerEvent): Queue
  {
    if HasRoom(q) then q.(pending := q.pending + [e]) else q.(dropped := q.dropped + 1)
  }

  // Consumers receive n times, as far as there is anything to receive.
  function Took(q: Queue, n: nat): Queue
  {
    var m := if n < |q.pending| then n else |q.pending|;
    Queue(q.pending[m..], q.taken + q.pending[..m], q.dropped)
  }

  // The queue after the lines, consumers receiving takes(k) times after line k.
  function Fed(q: Queue, lines: seq<Line>, takes: nat -> nat): Queue
  {
    if lines == [] then q
    else
      var k := |lines| - 1;
      var p := Fed(q, lines[..k], takes);
      Took(if lines[k].Empty? then p else Offered(p, Parse(lines[k])), takes(k))
  }

  const EMPTY: Queue := Queue([], [], 0)

  /* What the queue delivers */

  // a is b with some elements left out.
  predicate Subsequence<T(==)>(a: seq<T>, b: seq<T>)
  {
    if a == [] then true
    else b != [] &&
         ((a[|a| - 1] == b[|b| - 1] && Subsequence(a[..|a| - 1], b[..|b| - 1])) || Subsequence(a, b[..|b| - 1]))
  }

  lemma SubsequenceKeep<T>(a: seq<T>, b: seq<T>, e: T)
    requires Subsequence(a, b)
    ensures Subsequence(a + [e], b + [e]) && Subsequence(a, b + [e])
  {
    assert (a + [e])[..|a|] == a && (b + [e])[..|b|] == b;
  }

  // Everything kept so far: taken by consumers, then still waiting.
  function Kept(q: Queue): seq<WorkerEvent> { q.taken + q.pending }

  lemma TookKeeps(q: Queue, n: nat)
    ensures Kept(Took(q, n)) == Kept(q) && Took(q, n).dropped == q.dropped && |Took(q, n).pending| <= |q.pending|
  {
    var m := if n < |q.pending| then n else |q.pending|;
    assert q.pending == q.pending[..m] + q.pending[m..];
    assert q.taken + (q.pending[..m] + q.pending[m..]) == (q.taken + q.pending[..m]) + q.pending[m..];
  }

  lemma OfferedKeeps(q: Queue, e: WorkerEvent)
    ensures Kept(Offered(q, e)) == if HasRoom(q) then Kept(q) + [e] else Kept(q)
  {
    assert q.taken + (q.pending + [e]) == (q.taken + q.pending) + [e];
  }

  // The events are a subsequence of those parsed, in order, at most 256 wait,
  // and exactly the dropped ones are missing.
  lemma {:induction false} FedDelivers(lines: seq<Line>, takes: nat -> nat)
    ensures var q := Fed(EMPTY, lines, takes);
            Subsequence(Kept(q), Parsed(lines)) && |q.pending| <= 256 &&
            |Kept(q)| + q.dropped == |Parsed(lines)|
  {
    hide Took, Offered, Kept, Subsequence;
    if lines == [] {
      NothingKept();
    } else {
      var k := |lines| - 1;
      var p := Fed(EMPTY, lines[..k], takes);
      FedDelivers(lines[..k], takes);
      var o := if lines[k].Empty? then p else Offered(p, Parse(lines[k]));
      TookKeeps(o, takes(k));
      if !lines[k].Empty? {
        OfferedKeeps(p, Parse(lines[k]));
        SubsequenceKeep(Kept(p), Parsed(lines[..k]), Parse(lines[k]));
        OfferedBound(p, Parse(lines[k]));
      } else {
        assert Parsed(lines[..k]) + [] == Parsed(lines[..k]);
      }
    }
  }

  lemma NothingKept() ensures Kept(EMPTY) == [] && Subsequence<WorkerEvent>([], []) {}

  lemma OfferedBound(q: Queue, e: WorkerEvent)
    requires |q.pending| <= CAPACITY
    ensures |Offered(q, e).pending| <= CAPACITY && Offered(q, e).dropped == if HasRoom(q) then q.dropped else q.dropped + 1
  {
  }

  // Whenever a line's event is offered there is a free slot: fewer than 256
  // events wait.
  predicate SlotKept(lines: seq<Line>, takes: nat -> nat)
  {
    forall k :: 0 <= k < |lines| && !lines[k].Empty? ==> |Fed(EMPTY, lines[..k], takes).pending| < 256
  }

  lemma RoomIs(q: Queue) ensures HasRoom(q) <==> |q.pending| < 256 {}

  lemma SlotKeptSnoc(lines: seq<Line>, takes: nat -> nat)
    requires lines != []
    ensures var n := |lines| - 1;
            SlotKept(lines, takes) <==> SlotKept(lines[..n], takes) && (lines[n].Empty? || |Fed(EMPTY, lines[..n], takes).pending| < 256)
  {
    hide Fed;
    var n := |lines| - 1;
    assert forall k :: 0 <= k <= n ==> lines[..n][..k] == lines[..k];
    if SlotKept(lines, takes) {
      forall k | 0 <= k < n && !lines[..n][k].Empty? ensures |Fed(EMPTY, lines[..n][..k], takes).pending| < 256
      {
        assert !lines[k].Empty?;
      }
    } else {
      var k :| 0 <= k < |lines| && !lines[k].Empty? && |Fed(EMPTY, lines[..k], takes).pending| >= 256;
      if k < n { assert !lines[..n][k].Empty? && |Fed(EMPTY, lines[..n][..k], takes).pending| >= 256; }
    }
  }

  lemma {:induction false} NothingDropped(lines: seq<Line>, takes: nat -> nat)
    ensures Fed(EMPTY, lines, takes).dropped == 0 <==> SlotKept(lines, takes)
  {
    hide Took, Offered, HasRoom, SlotKept;
    if lines == [] {
      NoLines(takes);
    } else {
      var n := |lines| - 1;
      var p := Fed(EMPTY, lines[..n], takes);
      NothingDropped(lines[..n], takes);
      FedDelivers(lines[..n], takes);
      var o := if lines[n].Empty? then p else Offered(p, Parse(lines[n]));
      TookKeeps(o, takes(n));
      if !lines[n].Empty? { OfferedBound(p, Parse(lines[n])); }
      RoomIs(p);
      SlotKeptSnoc(lines, takes);
    }
  }

  lemma NoLines(takes: nat -> nat) ensures SlotKept([], takes) {}

  lemma {:induction false} SubsequenceShorter<T>(a: seq<T>, b: seq<T>)
    requires Subsequence(a, b)
    ensures |a| <= |b| && (|a| == |b| ==> a == b)
    decreases |b|
  {
    if a != [] {
      if Subsequence(a, b[..|b| - 1]) {
        SubsequenceShorter(a, b[..|b| - 1]);
      } else {
        SubsequenceShorter(a[..|a| - 1], b[..|b| - 1]);
        assert a == a[..|a| - 1] + [a[|a| - 1]] && b == b[..|b| - 1] + [b[|b| - 1]];
      }
    }
  }

  /* What the events say */

  // The line an event was made from.
  function AsLine(e: WorkerEvent): Line
  {
    match e
    case CoreEvent(event) => Decoded(event)
    case ParseError(raw) => Malformed(raw)
  }

  function AsLines(es: seq<WorkerEvent>): (ls: seq<Line>)
    ensures |ls| == |es|
  {
    seq(|es|, i requires 0 <= i < |es| => AsLine(es[i]))
  }

  function NonEmpty(lines: seq<Line>): seq<Line>
  {
    if lines == [] then []
    else NonEmpty(lines[..|lines| - 1]) + (if lines[|lines| - 1].Empty? then [] else [lines[|lines| - 1]])
  }

  // The events of the lines that decode, and the raw text of those that do not.
  function DecodedTexts(lines: seq<Line>): seq<string>
  {
    if lines == [] then []
    else DecodedTexts(lines[..|lines| - 1]) + (match lines[|lines| - 1] case Decoded(s) => [s] case _ => [])
  }

  function MalformedTexts(lines: seq<Line>): seq<string>
  {
    if lines == [] then []
    else MalformedTexts(lines[..|lines| - 1]) + (match lines[|lines| - 1] case Malformed(s) => [s] case _ => [])
  }

  lemma {:induction false} ParsedLines(lines: seq<Line>)
    ensures AsLines(Parsed(lines)) == NonEmpty(lines)
  {
    if lines != [] { ParsedLines(lines[..|lines| - 1]); }
  }

  lemma {:induction false} SameTexts(lines: seq<Line>)
    ensures DecodedTexts(NonEmpty(lines)) == DecodedTexts(lines) && MalformedTexts(NonEmpty(lines)) == MalformedTexts(lines)
  {
    if lines != [] {
      var k := |lines| - 1;
      SameTexts(lines[..k]);
      if lines[k].Empty? {
        assert NonEmpty(lines) == NonEmpty(lines[..k]);
      } else {
        assert NonEmpty(lines)[..|NonEmpty(lines)| - 1] == NonEmpty(lines[..k]);
      }
    }
  }

  lemma {:induction false} SubsequenceLines(a: seq<WorkerEvent>, b: seq<WorkerEvent>)
    requires Subsequence(a, b)
    ensures Subsequence(AsLines(a), AsLines(b))
    decreases |b|
  {
    if a != [] {
      var m, n := |a| - 1, |b| - 1;
      assert AsLines(a)[..m] == AsLines(a[..m]) && AsLines(b)[..n] == AsLines(b[..n]);
      if a[m] == b[n] && Subsequence(a[..m], b[..n]) { SubsequenceLines(a[..m], b[..n]); }
      else { SubsequenceLines(a, b[..n]); }
    }
  }

  lemma TextsSnoc(lines: seq<Line>)
    requires lines != []
    ensures var k := |lines| - 1;
            && DecodedTexts(lines) == (if lines[k].Decoded? then DecodedTexts(lines[..k]) + [lines[k].event] else DecodedTexts(lines[..k]))
            && MalformedTexts(lines) == (if lines[k].Malformed? then MalformedTexts(lines[..k]) + [lines[k].raw] else MalformedTexts(lines[..k]))
  {
    var k := |lines| - 1;
    assert DecodedTexts(lines[..k]) + [] == DecodedTexts(lines[..k]) && MalformedTexts(lines[..k]) + [] == MalformedTexts(lines[..k]);
  }

  // One more line at the end of both, or of the longer alone.
  lemma TextsKeep(a: seq<string>, b: seq<string>, l: string)
    requires Subsequence(a, b)
    ensures Subsequence(a + [l], b + [l]) && Subsequence(a, b + [l])
  {
    SubsequenceKeep(a, b, l);
  }

  lemma {:induction false} SubsequenceTexts(a: seq<Line>, b: seq<Line>)
    requires Subsequence(a, b)
    ensures Subsequence(DecodedTexts(a), DecodedTexts(b)) && Subsequence(MalformedTexts(a), MalformedTexts(b))
    decreases |b|
  {
    if a == [] {
      assert DecodedTexts(a) == [] && MalformedTexts(a) == [];
    } else {
      var m, n := |a| - 1, |b| - 1;
      var both := a[m] == b[n] && Subsequence(a[..m], b[..n]);
      assert !both ==> Subsequence(a, b[..n]);
      hide Subsequence, DecodedTexts, MalformedTexts;
      TextsSnoc(a); TextsSnoc(b);
      var c := if both then a[..m] else a;
      SubsequenceTexts(c, b[..n]);
      if b[n].Decoded? { TextsKeep(DecodedTexts(c), DecodedTexts(b[..n]), b[n].event); }
      if b[n].Malformed? { TextsKeep(MalformedTexts(c), MalformedTexts(b[..n]), b[n].raw); }
    }
  }

  // The strings delivered as events are, in order, among those of the lines
  // that decode, the errors' among the raw lines that do not, and the events
  // together are a subsequence of the lines that are not empty.
  lemma ContentsDelivered(lines: seq<Line>, takes: nat -> nat)
    ensures var kept := AsLines(Kept(Fed(EMPTY, lines, takes)));
            && Subsequence(kept, NonEmpty(lines))
            && Subsequence(DecodedTexts(kept), DecodedTexts(lines))
            && Subsequence(MalformedTexts(kept), MalformedTexts(lines))
  {
    hide Kept, Fed, Subsequence, Parsed, AsLines, NonEmpty, DecodedTexts, MalformedTexts;
    FedDelivers(lines, takes);
    ParsedLines(lines);
    SubsequenceLines(Kept(Fed(EMPTY, lines, takes)), Parsed(lines));
    SubsequenceTexts(AsLines(Kept(Fed(EMPTY, lines, takes))), NonEmpty(lines));
    SameTexts(lines);
  }

  // Every event is delivered, and the lines can be read back from them element
  // by element, exactly when the consumers keep a slot free.
  lemma LosslessExactly(lines: seq<Line>, takes: nat -> nat)
    ensures Kept(Fed(EMPTY, lines, takes)) == Parsed(lines) <==> SlotKept(lines, takes)
    ensures AsLines(Kept(Fed(EMPTY, lines, takes))) == NonEmpty(lines) <==> SlotKept(lines, takes)
  {
    hide Kept, Fed, Subsequence, SlotKept, Parsed, NonEmpty;
    FedDelivers(lines, takes);
    NothingDropped(lines, takes);
    SubsequenceShorter(Kept(Fed(EMPTY, lines, takes)), Parsed(lines));
    ParsedLines(lines);
  }

  // A consumer that receives at least once after every line keeps a slot free.
  lemma {:induction false} PromptConsumer(lines: seq<Line>, takes: nat -> nat)
    requires forall k :: takes(k) >= 1
    ensures Fed(EMPTY, lines, takes).pending == [] && SlotKept(lines, takes)
  {
    if lines != [] {
      var n := |lines| - 1;
      PromptConsumer(lines[..n], takes);
      assert forall k :: 0 <= k <= n ==> lines[..n][..k] == lines[..k];
      forall k | 0 <= k < |lines| && !lines[k].Empty? ensures |Fed(EMPTY, lines[..k], takes).pending| < 256
      {
        if k < n { assert !lines[..n][k].Empty? && |Fed(EMPTY, lines[..n][..k], takes).pending| < 256; }
      }
      assert takes(n) >= 1;
    }
  }

  /* The worker */

  class Worker {
    var events: seq<WorkerEvent>   // the channel's buffer
    var channelOpen: bool
    var closed: bool
    ghost var taken: seq<WorkerEvent>
    ghost var dropped: nat
    ghost var closings: nat

    ghost predicate Valid()
      reads this
    {
      |events| <= CAPACITY && (closed <==> !channelOpen) && closings == (if closed then 1 else 0)
    }

    ghost function View(): Queue
      reads this
    {
      Queue(events, taken, dropped)
    }

    constructor ()
      ensures Valid() && !closed && View() == EMPTY
    {
      events, channelOpen, closed := [], true, false;
      taken, dropped, closings := [], 0, 0;
    }

    // A send without waiting; on a closed channel it would panic.
    method TrySend(ev: WorkerEvent) returns (sent: bool)
      requires Valid() && channelOpen
      modifies this`events
      ensures Valid() && sent == (|old(events)| < CAPACITY)
      ensures events == if sent then old(events) + [ev] else old(events)
    {
      sent := |events| < CAPACITY;
      if sent { events := events + [ev]; }
    }

    // The locked section for one line.
    method Offer(ev: WorkerEvent)
      requires Valid()
      modifies this
      ensures Valid() && closed == old(closed)
      ensures View() == if old(closed) then old(View()) else Offered(old(View()), ev)
    {
      if !closed {
        var sent := TrySend(ev);
        if !sent { dropped := dropped + 1; }
      }
    }

    // A consumer's receive; None when there is nothing to receive now.
    method Receive() returns (ev: Option<WorkerEvent>)
      requires Valid()
      modifies this`events, this`taken
      ensures Valid() && View() == Took(old(View()), 1)
      ensures ev == if old(events) == [] then None else Some(old(events)[0])
    {
      if events == [] { return None; }
      ev := Some(events[0]);
      taken := taken + [events[0]];
      events := events[1..];
    }

    method Receives(n: nat)
      requires Valid()
      modifies this`events, this`taken
      ensures Valid() && View() == Took(old(View()), n)
    {
      ghost var q := View();
      for i := 0 to n
        invariant Valid() && View() == Took(q, i)
      {
        var ev := Receive();
        TookMore(q, i);
      }
    }

    method CloseEvents()
      requires Valid()
      modifies this`channelOpen, this`closed, this`closings
      ensures Valid() && closed && closings == 1
    {
      if !closed {
        channelOpen, closings := false, closings + 1;
        closed := true;
      }
    }

    // The loop over the lines of the core, until its output ends.
    method ReadEvents(lines: seq<Line>, takes: nat -> nat)
      requires Valid() && !closed
      modifies this
      ensures Valid() && closed && closings == 1
      ensures View() == Fed(old(View()), lines, takes)
      ensures old(View()) == EMPTY ==>
                Subsequence(AsLines(taken + events), NonEmpty(lines)) &&
                (AsLines(taken + events) == NonEmpty(lines) <==> SlotKept(lines, takes))
    {
      var k := 0;
      while k < |lines|
        invariant 0 <= k <= |lines| && Valid() && !closed
        invariant View() == Fed(old(View()), lines[..k], takes)
      {
        var line := lines[k];
        assert lines[..k + 1][..k] == lines[..k];
        if !line.Empty? { Offer(Parse(line)); }
        Receives(takes(k));
        k := k + 1;
      }
      assert lines[..k] == lines;
      CloseEvents();
      ContentsDelivered(lines, takes); LosslessExactly(lines, takes);
    }

    // `range` over the closed channel: it ends having received all that waited.
    method Range()
      requires Valid() && closed
      modifies this`events, this`taken
      ensures Valid() && closed && events == [] && taken == old(taken) + old(events)
    {
      ghost var q := View();
      while events != []
        invariant Valid() && taken + events == q.taken + q.pending
        decreases |events|
      {
        ghost var before := events;
        var ev := Receive();
        assert before == [before[0]] + events;
      }
    }
  }

  lemma TookMore(q: Queue, n: nat)
    ensures Took(Took(q, n), 1) == Took(q, n + 1)
  {
    var p := Took(q, n);
    if n < |q.pending| {
      assert q.pending[n..][1..] == q.pending[n + 1..];
      assert q.taken + q.pending[..n] + q.pending[n..][..1] == q.taken + q.pending[..n + 1];
    } else {
      assert p.pending == [];
      assert p.taken + [] == p.taken;
    }
  }
}
