/** The pool's list of waiting events as the array and counter it is kept in, used under the lock. */
module WaiterList {
  import opened PoolEvents

  class List {
    const waiters: array<EventId>
    var numWaiters: nat

    ghost predicate Valid()
      reads this
    {
      numWaiters <= waiters.Length
    }

    /** One entry for each thread of the pool. */
    constructor (threads: nat)
      ensures Valid() && fresh(waiters) && waiters.Length == threads && numWaiters == 0
    {
      waiters := new EventId[threads](_ => EventId(0, 0));
      numWaiters := 0;
    }

    method Add(event: EventId)
      requires Valid() && numWaiters < waiters.Length
      modifies this, waiters
      ensures Valid() && waiters[..] == old(waiters[..])[old(numWaiters) := event]
      ensures numWaiters == old(numWaiters) + 1
    {
      waiters[numWaiters] := event;
      numWaiters := numWaiters + 1;
    }

    /** Take an event off the list, if a signal has not already done so. */
    method Remove(event: EventId)
      requires Valid()
      modifies this, waiters
      ensures Valid()
      ensures (waiters[..], numWaiters) == SwapRemove(old(waiters[..]), old(numWaiters), event)
      ensures event !in old(waiters[..numWaiters]) ==> unchanged(this) && unchanged(waiters)
    {
      var n := numWaiters;
      var i := 0;
      while i < n
        invariant 0 <= i <= n && unchanged(this) && unchanged(waiters)
        invariant forall j | 0 <= j < i :: waiters[j] != event
      {
        if waiters[i] == event {
          ghost var was := waiters[..];
          assert was[..n] == waiters[..n];
          IndexIsFirst(was[..n], event, i);
          if i != n - 1 {
            waiters[i], waiters[n - 1] := waiters[n - 1], waiters[i];
          }
          assert waiters[..] == was[i := was[n - 1]][n - 1 := event];
          numWaiters := n - 1;
          return;
        }
        i := i + 1;
      }
      assert event !in waiters[..n];
    }
  }

  lemma IndexIsFirst(list: seq<EventId>, e: EventId, i: nat)
    requires i < |list| && list[i] == e && forall j | 0 <= j < i :: list[j] != e
    ensures IndexOf(list, e) == i
  {
  }

  /** Overwriting entry i with the last one and dropping the last drops one copy of entry i. */
  lemma DropAt(list: seq<EventId>, i: nat)
    requires i < |list|
    ensures multiset(list[i := list[|list| - 1]][..|list| - 1]) == multiset(list) - multiset{list[i]}
  {
    var n := |list| - 1;
    if i == n {
      assert list == list[..n] + [list[n]];
    } else {
      assert list == list[..i] + [list[i]] + list[i + 1..n] + [list[n]];
      assert list[i := list[n]][..n] == list[..i] + [list[n]] + list[i + 1..n];
    }
  }

  lemma DropPrefix(waiters: seq<EventId>, num: nat, i: nat, e: EventId)
    requires i < num <= |waiters|
    ensures waiters[i := waiters[num - 1]][num - 1 := e][..num - 1]
         == waiters[..num][i := waiters[..num][num - 1]][..num - 1]
  {
  }

  lemma AbsentLeaves(list: seq<EventId>, e: EventId)
    requires e !in list
    ensures multiset(list) - multiset{e} == multiset(list)
  {
    assert multiset(list)[e] == 0;
  }

  lemma RemoveListed(waiters: seq<EventId>, num: nat, e: EventId)
    requires num <= |waiters| && e in waiters[..num]
    ensures SwapRemove(waiters, num, e).1 == num - 1 <= |SwapRemove(waiters, num, e).0|
    ensures multiset(SwapRemove(waiters, num, e).0[..num - 1]) == multiset(waiters[..num]) - multiset{e}
  {
    var i := IndexOf(waiters[..num], e);
    DropPrefix(waiters, num, i, e);
    DropAt(waiters[..num], i);
  }

  /** Removal takes out exactly one entry, the given one, and keeps all the others. */
  lemma RemoveKeepsOthers(waiters: seq<EventId>, num: nat, e: EventId)
    requires num <= |waiters|
    ensures var list := waiters[..num];
            var (waiters', num') := SwapRemove(waiters, num, e);
            && num' == (if e in list then num - 1 else num) <= |waiters'| == |waiters|
            && multiset(waiters'[..num']) == multiset(list) - multiset{e}
  {
    var list := waiters[..num];
    if e in list { RemoveListed(waiters, num, e); } else { AbsentLeaves(list, e); }
  }
}
