/** The event that a sleeping worker waits on: an integer used as a set of two bits. */
module TaskWaitEvent {
  import opened Common
  import opened PoolEvents

  const TASK_FINISHED: bv8 := 1
  const TASK_AVAILABLE: bv8 := 2

  /** The set of events that the bits stand for. */
  function Events(bits: bv8): Mask {
    Mask(bits & TASK_FINISHED != 0, bits & TASK_AVAILABLE != 0)
  }

  function Minus(a: Mask, b: Mask): Mask {
    Mask(a.finished && !b.finished, a.available && !b.available)
  }

  predicate IsEvent(bits: bv8) {
    bits == TASK_FINISHED || bits == TASK_AVAILABLE
  }

  /** Only the two event bits are ever set. */
  predicate IsMask(bits: bv8) {
    bits < 4
  }

  lemma OrIsUnion(mask: bv8, event: bv8)
    requires IsMask(mask) && IsMask(event)
    ensures IsMask(mask | event) && Events(mask | event) == Union(Events(mask), Events(event))
  {
  }

  lemma ClearIsMinus(mask: bv8, event: bv8)
    requires IsMask(mask) && IsEvent(event)
    ensures IsMask(mask & !event) && Events(mask & !event) == Minus(Events(mask), Events(event))
    ensures mask & event != 0 <==> Events(mask) != Minus(Events(mask), Events(event))
  {
  }

  lemma ZeroIsEmpty(mask: bv8)
    requires IsMask(mask)
    ensures mask == 0 <==> Events(mask) == NO_EVENTS
  {
  }

  /** The signals given while a thread is blocked; it may also wake up without any. */
  function SignalAll(mask: bv8, signals: seq<bv8>): (r: bv8)
    requires IsMask(mask) && forall e | e in signals :: IsEvent(e)
    ensures IsMask(r)
    decreases |signals|
  {
    if signals == [] then mask
    else
      assert IsEvent(signals[0]);
      OrIsUnion(mask, signals[0]);
      SignalAll(mask | signals[0], signals[1..])
  }

  lemma {:induction false} SignalsAccumulate(mask: bv8, signals: seq<bv8>)
    requires IsMask(mask) && forall e | e in signals :: IsEvent(e)
    ensures Events(SignalAll(mask, signals)) ==
            Union(Events(mask), Mask(TASK_FINISHED in signals, TASK_AVAILABLE in signals))
    decreases |signals|
  {
    if signals != [] {
      assert IsEvent(signals[0]);
      OrIsUnion(mask, signals[0]);
      SignalsAccumulate(mask | signals[0], signals[1..]);
    }
  }

  class Event {
    var eventMask: bv8
    var initialized: bool

    ghost predicate Valid()
      reads this
    {
      IsMask(eventMask)
    }

    ghost function Pending(): Mask
      reads this
    {
      Events(eventMask)
    }

    constructor ()
      ensures Valid() && Pending() == NO_EVENTS && !initialized
    {
      eventMask := 0;
      initialized := false;
    }

    /** May be called again; events already signalled stay. */
    method Init()
      modifies this`initialized
      ensures initialized
    {
      if !initialized {
        initialized := true;
      }
    }

    method Signal(event: bv8)
      requires Valid() && initialized && IsEvent(event)
      modifies this`eventMask
      ensures Valid() && Pending() == Union(old(Pending()), Events(event))
    {
      OrIsUnion(eventMask, event);
      eventMask := eventMask | event;
    }

    /** Consume one event if it is there, and leave the other one alone. */
    method TryWait(event: bv8) returns (ready: bool)
      requires Valid() && initialized && IsEvent(event)
      modifies this`eventMask
      ensures Valid() && Pending() == Minus(old(Pending()), Events(event))
      ensures ready <==> old(Pending()) != Minus(old(Pending()), Events(event))
    {
      ClearIsMinus(eventMask, event);
      var result := eventMask & event;
      eventMask := eventMask & !event;
      ready := result != 0;
    }

    /** `arrivals[k]`: the signals given during the k-th time that the thread blocks. The wait
        returns at the first moment at which something is pending, with everything that is,
        and clears it; it goes on blocking (None) exactly while nothing has been signalled. */
    method Wait(arrivals: seq<seq<bv8>>) returns (events: Option<bv8>)
      requires Valid() && initialized && forall batch, e | batch in arrivals && e in batch :: IsEvent(e)
      modifies this`eventMask
      ensures Valid() && Pending() == NO_EVENTS
      ensures events.None? <==> old(Pending()) == NO_EVENTS && forall batch | batch in arrivals :: batch == []
      ensures events.Some? ==>
                Events(events.value) ==
                (if old(Pending()) != NO_EVENTS then old(Pending()) else FirstSignalled(arrivals))
    {
      var k := 0;
      ghost var start := Pending();
      while eventMask == 0
        invariant Valid() && 0 <= k <= |arrivals|
        invariant forall j | 0 <= j < k - 1 :: arrivals[j] == []
        invariant Pending() == if k == 0 then start else BatchEvents(arrivals[k - 1])
        invariant k > 0 ==> start == NO_EVENTS
        decreases |arrivals| - k
      {
        ZeroIsEmpty(eventMask);
        if k > 0 { EmptyBatch(arrivals[k - 1]); }
        if k == |arrivals| {
          FirstOf(arrivals, k);
          return None;
        }
        SignalsAccumulate(eventMask, arrivals[k]);
        eventMask := SignalAll(eventMask, arrivals[k]);
        k := k + 1;
      }
      ZeroIsEmpty(eventMask);
      if k > 0 {
        EmptyBatch(arrivals[k - 1]);
        FirstOf(arrivals, k - 1);
      }
      events := Some(eventMask);
      eventMask := 0;
    }
  }

  function BatchEvents(batch: seq<bv8>): Mask {
    Mask(TASK_FINISHED in batch, TASK_AVAILABLE in batch)
  }

  /** The events of the first batch that is not empty. */
  function FirstSignalled(arrivals: seq<seq<bv8>>): Mask
    decreases |arrivals|
  {
    if arrivals == [] then NO_EVENTS
    else if arrivals[0] != [] then BatchEvents(arrivals[0])
    else FirstSignalled(arrivals[1..])
  }

  lemma EmptyBatch(batch: seq<bv8>)
    requires forall e | e in batch :: IsEvent(e)
    ensures BatchEvents(batch) == NO_EVENTS <==> batch == []
  {
    if batch != [] { assert IsEvent(batch[0]) && batch[0] in batch; }
  }

  lemma {:induction false} FirstOf(arrivals: seq<seq<bv8>>, k: nat)
    requires k <= |arrivals| && forall j | 0 <= j < k :: arrivals[j] == []
    ensures FirstSignalled(arrivals) == FirstSignalled(arrivals[k..])
    decreases k
  {
    if k > 0 {
      FirstOf(arrivals[1..], k - 1);
      assert arrivals[1..][k - 1..] == arrivals[k..];
    }
  }
}
