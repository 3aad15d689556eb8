/** What the event object, the waiter list and the pool protocol have in common. */
module PoolEvents {
  /** An event on a worker's stack, named by its address: the frame it lives in. */
  datatype EventId = EventId(worker: nat, depth: nat)

  /** The two bits of an event's mask. */
  datatype Mask = Mask(finished: bool, available: bool)

  const NO_EVENTS := Mask(false, false)
  const AVAILABLE := Mask(false, true)
  const FINISHED := Mask(true, false)

  function Union(a: Mask, b: Mask): Mask {
    Mask(a.finished || b.finished, a.available || b.available)
  }

  /** Where an event stands in a list; the length when it is not there. */
  function IndexOf(list: seq<EventId>, e: EventId): (i: nat)
    ensures i <= |list|
    ensures i < |list| ==> list[i] == e
    ensures forall j | 0 <= j < i :: list[j] != e
  {
    if list == [] then 0 else if list[0] == e then 0 else 1 + IndexOf(list[1..], e)
  }

  /** Take an event out of the first num entries, if it is there, by swapping it with the last of
      them: the new array and the new number of entries. */
  function SwapRemove(waiters: seq<EventId>, num: nat, e: EventId): (seq<EventId>, nat)
    requires num <= |waiters|
  {
    var i := IndexOf(waiters[..num], e);
    if i < num then (waiters[i := waiters[num - 1]][num - 1 := e], num - 1) else (waiters, num)
  }
}
