/** The pool's public queue: a ring buffer over an array whose size is a power of two. */
module FifoQueue {
  import opened Common
  import opened Bits

  /** Where a logical offset from the start of the array lands after one possible wrap. */
  function Wrap(x: nat, n: nat): nat {
    if x < n then x else x - n
  }

  lemma MaskWraps(x: nat, n: nat)
    requires IsPow2(n) && x < 2 * n
    ensures And(x, n - 1) == Wrap(x, n) < n
  {
    MaskIsMod(x, n);
    ModUnique(x, n, if x < n then 0 else 1, Wrap(x, n));
  }

  /** The `len` tasks that start at slot `head`. */
  function Window(items: seq<Task>, head: nat, len: nat): (r: seq<Task>)
    requires head < |items| && len <= |items|
    ensures |r| == len && forall k | 0 <= k < len :: r[k] == items[Wrap(head + k, |items|)]
  {
    seq(len, k requires 0 <= k < len => items[Wrap(head + k, |items|)])
  }

  /** The number of slots from head up to tail. */
  function Distance(head: nat, tail: nat, n: nat): (r: nat)
    requires head < n && tail < n
    ensures r < n && Wrap(head + r, n) == tail
  {
    if head <= tail then tail - head else tail + n - head
  }

  /** Writing the slot after a window extends the window at its end. */
  lemma WindowPush(items: seq<Task>, head: nat, len: nat, x: Task)
    requires head < |items| && len < |items|
    ensures Window(items[Wrap(head + len, |items|) := x], head, len + 1) == Window(items, head, len) + [x]
  {
  }

  /** Moving the start of a window by one drops its first task. */
  lemma WindowPop(items: seq<Task>, head: nat, len: nat)
    requires head < |items| && 0 < len <= |items|
    ensures [items[head]] + Window(items, Wrap(head + 1, |items|), len - 1) == Window(items, head, len)
  {
  }

  /** Once rotated to the front of a larger array, a window reads the same. */
  lemma WindowRotated(items: seq<Task>, head: nat, len: nat, larger: seq<Task>)
    requires head < |items| <= |larger| && len <= |items|
    requires larger[..|items|] == Window(items, head, |items|)
    ensures Window(larger, 0, len) == Window(items, head, len)
  {
    forall k | 0 <= k < len ensures Window(larger, 0, len)[k] == Window(items, head, len)[k] {
      assert larger[k] == larger[..|items|][k];
    }
  }

  /** The growth loop: an array of twice the size that starts with the old one, rotated. */
  method Enlarge(items: array<Task>, head: nat) returns (newItems: array<Task>)
    requires IsPow2(items.Length) && head < items.Length
    ensures fresh(newItems) && newItems.Length == 2 * items.Length
    ensures newItems[..items.Length] == Window(items[..], head, items.Length)
  {
    newItems := new Task[items.Length * 2];
    var i: nat := 0;
    while i != items.Length
      invariant i <= items.Length
      invariant newItems[..i] == Window(items[..], head, i)
      decreases items.Length - i
    {
      MaskWraps(i + head, items.Length);
      newItems[i] := items[And(i + head, items.Length - 1)];
      i := i + 1;
    }
  }

  /** The destructor's loop: the tasks from head up to tail, in order. */
  method Remaining(items: array<Task>, head: nat, tail: nat) returns (released: seq<Task>)
    requires IsPow2(items.Length) && head < items.Length && tail < items.Length
    ensures released == Window(items[..], head, Distance(head, tail, items.Length))
  {
    released := [];
    var i: nat := head;
    while i != tail
      invariant i < items.Length
      invariant |released| + Distance(i, tail, items.Length) == Distance(head, tail, items.Length)
      invariant Wrap(head + |released|, items.Length) == i
      invariant released == Window(items[..], head, |released|)
      decreases Distance(i, tail, items.Length)
    {
      MaskWraps(i + 1, items.Length);
      released := released + [items[i]];
      i := And(i + 1, items.Length - 1);
    }
  }

  class Queue {
    var items: array<Task>
    var head: nat
    var tail: nat

    ghost predicate Valid()
      reads this
    {
      IsPow2(items.Length) && items.Length > 1 && head < items.Length && tail < items.Length
    }

    ghost function Contents(): (r: seq<Task>)
      reads this, items
      requires Valid()
      ensures |r| < items.Length
    {
      Window(items[..], head, Distance(head, tail, items.Length))
    }

    constructor ()
      ensures Valid() && fresh(items) && Contents() == []
    {
      items := new Task[32];
      head, tail := 0, 0;
    }

    /** A full queue moves to an array of twice the size. */
    method Grow()
      requires Valid() && head == Wrap(tail + 1, items.Length)
      modifies this
      ensures Valid() && fresh(items) && items.Length == 2 * old(items.Length)
      ensures Contents() == old(Contents())
    {
      ghost var len := Distance(head, tail, items.Length);
      var newItems := Enlarge(items, head);
      WindowRotated(items[..], head, len, newItems[..]);
      head := 0;
      tail := items.Length - 1;
      items := newItems;
    }

    /** Write the slot at the tail of a queue that is not full. */
    method Append(t: Task)
      requires Valid() && head != Wrap(tail + 1, items.Length)
      modifies this`tail, items
      ensures Valid() && Contents() == old(Contents()) + [t]
    {
      WindowPush(items[..], head, Distance(head, tail, items.Length), t);
      MaskWraps(tail + 1, items.Length);
      items[tail] := t;
      tail := And(tail + 1, items.Length - 1);
    }

    /** `memory`: whether an allocation succeeds. When a needed one fails the queue is unchanged. */
    method Push(t: Task, memory: bool) returns (ok: bool)
      requires Valid()
      modifies this, items
      ensures Valid() && (items == old(items) || fresh(items))
      ensures ok == (memory || |old(Contents())| + 1 < old(items.Length))
      ensures Contents() == if ok then old(Contents()) + [t] else old(Contents())
      ensures items.Length == if ok && |old(Contents())| + 1 == old(items.Length)
                              then 2 * old(items.Length) else old(items.Length)
    {
      MaskWraps(tail + 1, items.Length);
      if head == And(tail + 1, items.Length - 1) {
        if !memory {
          return false;
        }
        Grow();
      }
      Append(t);
      ok := true;
    }

    method Pop() returns (r: Option<Task>)
      requires Valid()
      modifies this
      ensures Valid() && items == old(items)
      ensures old(Contents()) == if r.Some? then [r.value] + Contents() else []
      ensures r.None? ==> Contents() == []
    {
      if head == tail {
        return None;
      }
      var x := items[head];
      WindowPop(items[..], head, Distance(head, tail, items.Length));
      MaskWraps(head + 1, items.Length);
      head := And(head + 1, items.Length - 1);
      r := Some(x);
    }

    /** The destructor: release the tasks that were never popped, oldest first. */
    method Destroy() returns (released: seq<Task>)
      requires Valid()
      ensures released == Contents()
    {
      released := Remaining(items, head, tail);
    }
  }
}
