/**
The work-stealing deque as written: 64-bit counters that wrap around, masked slots, and a
chain of arrays. What other threads do during a call is given by the call's parameters.
Each method is proved against the deque over unbounded indices that the concurrent model uses.
 */
module WorkStealQueue {
  import opened Common
  import opened Bits

  const WORD := 0x1_0000_0000_0000_0000
  const HALF := 0x8000_0000_0000_0000

  /** No address space holds an array of more pointers than this. */
  const MAX_SLOTS := 0x1000_0000_0000_0000

  type Word = x: int | 0 <= x < WORD

  function Sub(a: Word, b: Word): Word {
    (a - b) % WORD
  }

  function Inc(a: Word): Word {
    (a + 1) % WORD
  }

  function Dec(a: Word): Word {
    (a - 1) % WORD
  }

  /** PTRDIFF_MAX is HALF - 1 and PTRDIFF_MIN is -HALF. */
  function ToSigned(x: Word): int {
    if x > HALF - 1 then (x - HALF) + -HALF else x
  }

  lemma ModShift(x: int, d: int, n: nat)
    requires n > 0
    ensures (x % n + d) % n == (x + d) % n
  {
    ModUnique(x + d, n, x / n + (x % n + d) / n, (x % n + d) % n);
    assert n * (x / n + (x % n + d) / n) == n * (x / n) + n * ((x % n + d) / n);
  }

  lemma SubIsDifference(b: int, t: int)
    ensures Sub(b % WORD, t % WORD) == (b - t) % WORD
  {
    ModShift(b, -(t % WORD), WORD);
    ModUnique(b - t, WORD, (b - t % WORD) / WORD - t / WORD, (b - t % WORD) % WORD);
  }

  /** The conversion recovers the difference of two counters exactly when it fits. */
  lemma ToSignedRecovers(b: int, t: int)
    ensures ToSigned(Sub(b % WORD, t % WORD)) == b - t <==> -HALF <= b - t < HALF
  {
    SubIsDifference(b, t);
    if 0 <= b - t < HALF {
      ModUnique(b - t, WORD, 0, b - t);
    } else if -HALF <= b - t < 0 {
      ModUnique(b - t, WORD, -1, b - t + WORD);
    }
  }

  lemma {:induction false} Pow2Divides(n: nat, m: nat)
    requires IsPow2(n) && IsPow2(m) && n <= m
    ensures m % n == 0
    decreases n
  {
    if n > 1 {
      Pow2Divides(n / 2, m / 2);
      assert m == 2 * (n / 2 * (m / 2 / (n / 2)));
      ModUnique(m, n, m / 2 / (n / 2), 0);
    }
  }

  lemma ModOfMod(x: int, n: nat, m: nat)
    requires n > 0 && m > 0 && m % n == 0
    ensures x % m % n == x % n
  {
    var q := m / n * (x / m) + x % m / n;
    assert m * (x / m) == n * (m / n * (x / m));
    assert x == n * q + x % m % n;
    ModUnique(x, n, q, x % m % n);
  }

  lemma Pow2Times16(n: nat)
    requires IsPow2(n)
    ensures IsPow2(16 * n)
  {
    Pow2Double(n);
    Pow2Double(2 * n);
    Pow2Double(4 * n);
    Pow2Double(8 * n);
  }

  lemma Pow2Times65536(n: nat)
    requires IsPow2(n)
    ensures IsPow2(0x1_0000 * n)
  {
    Pow2Times16(n);
    Pow2Times16(0x10 * n);
    Pow2Times16(0x100 * n);
    Pow2Times16(0x1000 * n);
  }

  lemma WordIsPow2()
    ensures IsPow2(WORD)
  {
    Pow2Times65536(1);
    Pow2Times65536(0x1_0000);
    Pow2Times65536(0x1_0000_0000);
    Pow2Times65536(0x1_0000_0000_0000);
  }

  function Slot(i: nat, n: nat): (r: nat)
    requires n > 0
    ensures r < n
  {
    i % n
  }

  /** Masking a wrapped counter gives the slot of the unbounded index. */
  lemma SlotOfIndex(i: nat, n: nat)
    requires IsPow2(n) && n <= WORD
    ensures And(i % WORD, n - 1) == Slot(i, n)
  {
    WordIsPow2();
    Pow2Divides(n, WORD);
    ModOfMod(i, n, WORD);
    MaskIsMod(i % WORD, n);
  }

  /** The tasks at unbounded indices from t up to b. */
  function Live(items: seq<Task>, t: nat, b: nat): (r: seq<Task>)
    requires |items| > 0 && t <= b
    ensures |r| == b - t && forall k | 0 <= k < b - t :: r[k] == items[Slot(t + k, |items|)]
  {
    seq(b - t, k requires 0 <= k < b - t => items[Slot(t + k, |items|)])
  }

  lemma SlotsDiffer(i: nat, j: nat, n: nat)
    requires 0 < j - i < n
    ensures Slot(i, n) != Slot(j, n)
  {
    ModDistinct(i, j, n);
  }

  /** Writing the slot of index b extends the live tasks at their newest end. */
  lemma LivePush(items: seq<Task>, t: nat, b: nat, x: Task)
    requires |items| > 0 && t <= b < t + |items|
    ensures Live(items[Slot(b, |items|) := x], t, b + 1) == Live(items, t, b) + [x]
  {
    var written := Live(items[Slot(b, |items|) := x], t, b + 1);
    forall k: nat | k < b - t ensures written[k] == Live(items, t, b)[k] {
      SlotsDiffer(t + k, b, |items|);
    }
  }

  lemma LiveEnds(items: seq<Task>, t: nat, b: nat)
    requires |items| > 0 && t < b
    ensures Live(items, t, b) == Live(items, t, b - 1) + [items[Slot(b - 1, |items|)]]
    ensures Live(items, t, b) == [items[Slot(t, |items|)]] + Live(items, t + 1, b)
  {
  }

  /** One turn of the copy loop: the live task at index n goes to its slot in the larger array. */
  lemma LiveCopied(items: seq<Task>, larger: seq<Task>, t: nat, n: nat)
    requires 0 < |items| <= |larger| && t <= n < t + |items|
    requires Live(larger, t, n) == Live(items, t, n)
    ensures Live(larger[Slot(n, |larger|) := items[Slot(n, |items|)]], t, n + 1) == Live(items, t, n + 1)
  {
    LivePush(larger, t, n, items[Slot(n, |items|)]);
    LiveEnds(items, t, n + 1);
  }

  /** Dropping the oldest live tasks. */
  lemma LiveTail(items: seq<Task>, t: nat, u: nat, b: nat)
    requires |items| > 0 && t <= u <= b
    ensures Live(items, t, b) == Live(items, t, b)[..u - t] + Live(items, u, b)
  {
  }

  /** Others took the `lost` oldest of the tasks that were there; a pop then took the newest of the
      rest, and found nothing exactly when they took all. */
  ghost predicate PopResult(was: seq<Task>, lost: nat, now: seq<Task>, r: Option<Task>) {
    && lost <= |was| && (r.None? <==> lost == |was|)
    && was == was[..lost] + now + (if r.Some? then [r.value] else [])
  }

  /** The same for a steal, which takes the oldest of the rest. */
  ghost predicate StealResult(was: seq<Task>, lost: nat, now: seq<Task>, r: Option<Task>) {
    && lost <= |was| && (r.None? <==> lost == |was|)
    && was == was[..lost] + (if r.Some? then [r.value] else []) + now
  }

  lemma AllLost(items: seq<Task>, t: nat, b: nat)
    requires |items| > 0 && t <= b
    ensures PopResult(Live(items, t, b), b - t, Live(items, b, b), None)
    ensures StealResult(Live(items, t, b), b - t, Live(items, b, b), None)
  {
    LiveTail(items, t, b, b);
  }

  lemma SomeLeft(items: seq<Task>, t: nat, u: nat, b: nat)
    requires |items| > 0 && t <= u < b
    ensures PopResult(Live(items, t, b), u - t, Live(items, u, b - 1), Some(items[Slot(b - 1, |items|)]))
    ensures StealResult(Live(items, t, b), u - t, Live(items, u + 1, b), Some(items[Slot(u, |items|)]))
  {
    LiveTail(items, t, u, b);
    LiveEnds(items, u, b);
    var was := Live(items, t, b);
    assert was == was[..u - t] + Live(items, u, b - 1) + [items[Slot(b - 1, |items|)]];
    assert was == was[..u - t] + [items[Slot(u, |items|)]] + Live(items, u + 1, b);
  }

  lemma LastTaken(items: seq<Task>, b: nat)
    requires |items| > 0 && b > 0
    ensures Live(items, b - 1, b - 1) == Live(items, b, b) == []
  {
  }

  /** How many of the failed attempts lost to a thread that took a task. */
  function Losses(rivals: seq<bool>): nat {
    if rivals == [] then 0 else Losses(rivals[..|rivals| - 1]) + if rivals[|rivals| - 1] then 1 else 0
  }

  lemma {:induction false} LossesPrefix(rivals: seq<bool>, k: nat)
    requires k <= |rivals|
    ensures Losses(rivals[..k]) <= Losses(rivals)
    ensures k < |rivals| ==> Losses(rivals[..k + 1]) == Losses(rivals[..k]) + if rivals[k] then 1 else 0
  {
    if k < |rivals| {
      assert rivals[..k + 1][..k] == rivals[..k];
      LossesPrefix(rivals[..|rivals| - 1], k);
      assert rivals[..|rivals| - 1][..k] == rivals[..k];
    } else {
      assert rivals[..k] == rivals;
    }
  }

  class CircularArray {
    const items: array<Task>
    var previous: CircularArray?

    ghost predicate Valid() {
      IsPow2(items.Length) && items.Length <= MAX_SLOTS
    }

    constructor (n: nat)
      ensures fresh(items) && items.Length == n && previous == null
    {
      items := new Task[n];
      previous := null;
    }

    method Get(index: Word, ghost i: nat) returns (x: Task)
      requires Valid() && index == i % WORD
      ensures x == items[Slot(i, items.Length)]
    {
      SlotOfIndex(i, items.Length);
      x := items[And(index, items.Length - 1)];
    }

    method Put(index: Word, x: Task, ghost i: nat)
      requires Valid() && index == i % WORD
      modifies items
      ensures items[..] == old(items[..])[Slot(i, items.Length) := x]
    {
      SlotOfIndex(i, items.Length);
      items[And(index, items.Length - 1)] := x;
    }

    /** Copy the live indices, t up to b, to an array of twice the size that remembers this one. */
    method Grow(top: Word, bottom: Word, ghost t: nat, ghost b: nat) returns (newArray: CircularArray)
      requires Valid() && 2 * items.Length <= MAX_SLOTS
      requires top == t % WORD && bottom == b % WORD && t <= b <= t + items.Length
      ensures fresh(newArray) && fresh(newArray.items) && newArray.Valid()
      ensures newArray.previous == this && newArray.items.Length == 2 * items.Length
      ensures Live(newArray.items[..], t, b) == Live(items[..], t, b)
    {
      newArray := new CircularArray(items.Length * 2);
      newArray.previous := this;
      CopyLive(newArray, top, bottom, t, b);
    }

    /** The copy loop; it ends because the wrapping counter meets bottom. */
    method CopyLive(larger: CircularArray, top: Word, bottom: Word, ghost t: nat, ghost b: nat)
      requires Valid() && larger.Valid() && larger.items != items && larger.items.Length == 2 * items.Length
      requires top == t % WORD && bottom == b % WORD && t <= b <= t + items.Length
      modifies larger.items
      ensures Live(larger.items[..], t, b) == Live(items[..], t, b)
    {
      var i := top;
      ghost var n: nat := t;
      while i != bottom
        invariant t <= n <= b && i == n % WORD
        invariant Live(larger.items[..], t, n) == Live(items[..], t, n)
        decreases b - n
      {
        var x := Get(i, n);
        SameWord(n, b);
        LiveCopied(items[..], larger.items[..], t, n);
        larger.Put(i, x, n);
        ModShift(n, 1, WORD);
        i := Inc(i);
        n := n + 1;
      }
      SameWord(n, b);
    }
  }

  /** Two counters less than 2^64 apart have the same word only if they are equal. */
  lemma SameWord(i: nat, j: nat)
    requires i <= j < i + WORD
    ensures i % WORD == j % WORD <==> i == j
  {
    if i < j { ModDistinct(i, j, WORD); }
  }

  class Queue {
    var current: CircularArray
    var top: Word
    var bottom: Word
    /** The indices that the two counters stand for. */
    ghost var topIndex: nat
    ghost var bottomIndex: nat

    ghost predicate Valid()
      reads this
    {
      && current.Valid() && topIndex <= bottomIndex <= topIndex + current.items.Length
      && top == topIndex % WORD && bottom == bottomIndex % WORD
    }

    ghost function Contents(): (r: seq<Task>)
      reads this, current.items
      requires Valid()
      ensures |r| <= current.items.Length
    {
      Live(current.items[..], topIndex, bottomIndex)
    }

    constructor ()
      ensures Valid() && fresh(current) && fresh(current.items) && Contents() == []
    {
      current := new CircularArray(32);
      top, bottom := 0, 0;
      topIndex, bottomIndex := 0, 0;
    }

    /** The signed difference that the code computes is the number of tasks. */
    lemma CountIsContents()
      requires Valid()
      ensures ToSigned(Sub(bottom, top)) == |Contents()|
    {
      ToSignedRecovers(bottomIndex, topIndex);
    }

    /** `memory`: whether an allocation of a possible size succeeds. When a needed one
        fails, the queue is unchanged. A replaced array is kept, unchanged, as `previous`. */
    method Push(x: Task, memory: bool) returns (ok: bool)
      requires Valid()
      modifies this, current.items
      ensures Valid()
      ensures ok == (|old(Contents())| < old(current.items.Length)
                     || (memory && 2 * old(current.items.Length) <= MAX_SLOTS))
      ensures Contents() == if ok then old(Contents()) + [x] else old(Contents())
      ensures if ok && |old(Contents())| == old(current.items.Length)
              then fresh(current) && current.previous == old(current)
                   && old(current).items[..] == old(current.items[..])
              else current == old(current)
    {
      var b := bottom;
      var t := top;
      var a := current;
      CountIsContents();
      if ToSigned(Sub(b, t)) >= a.items.Length {
        if !memory || 2 * a.items.Length > MAX_SLOTS {
          return false;
        }
        a := a.Grow(t, b, topIndex, bottomIndex);
        current := a;
      }
      LivePush(a.items[..], topIndex, bottomIndex, x);
      a.Put(b, x, bottomIndex);
      ModShift(bottomIndex, 1, WORD);
      bottom := Inc(b);
      bottomIndex := bottomIndex + 1;
      ok := true;
    }

    /** The last task: the owner has to win it with a compare-exchange, and empties the queue at its
        top either way. `bottom` has been decremented already. */
    method PopLast(b: Word, t: Word, x: Task, race: bool) returns (r: Option<Task>)
      requires current.Valid() && bottomIndex == topIndex + 1
      requires top == t == b == bottom == topIndex % WORD
      modifies this`top, this`bottom, this`topIndex
      ensures Valid() && topIndex == bottomIndex && r == if race then None else Some(x)
    {
      ModShift(topIndex, 1, WORD);
      SameWord(topIndex, topIndex + 1);
      topIndex := topIndex + 1;
      if race {
        top := Inc(top);
      }
      if top != t {
        bottom := Inc(b);
        return None;
      }
      top := Inc(t);
      bottom := Inc(b);
      r := Some(x);
    }

    /** A pop from its second read of top on; `bottom` has been decremented already, and `t0` is the
        index at which top stood before thieves moved it. */
    method PopRest(race: bool, ghost t0: nat) returns (r: Option<Task>)
      requires current.Valid() && t0 <= topIndex <= bottomIndex <= t0 + current.items.Length && t0 < bottomIndex
      requires top == topIndex % WORD && bottom == (bottomIndex - 1) % WORD
      modifies this
      ensures Valid() && current == old(current)
      ensures var lost := if race && old(topIndex) + 1 == old(bottomIndex) then old(bottomIndex) else old(topIndex);
              PopResult(Live(current.items[..], t0, old(bottomIndex)), lost - t0, Contents(), r)
    {
      ghost var b0 := bottomIndex;
      var b := bottom;
      var t := top;
      ToSignedRecovers(b0 - 1, topIndex);
      ModShift(b0 - 1, 1, WORD);
      AllLost(current.items[..], t0, b0);
      if ToSigned(Sub(b, t)) < 0 {
        bottom := Inc(b);
        return None;
      }
      var x := current.Get(b, b0 - 1);
      SameWord(topIndex, b0 - 1);
      SomeLeft(current.items[..], t0, topIndex, b0);
      LastTaken(current.items[..], b0);
      if b == t {
        r := PopLast(b, t, x, race);
      } else {
        bottomIndex := b0 - 1;
        r := Some(x);
      }
    }

    /** Take the newest task. `taken`: how many tasks thieves take between the two reads of top;
        `race`: whether one takes the last task just before the compare-exchange. */
    method Pop(taken: nat, race: bool) returns (r: Option<Task>)
      requires Valid() && taken <= |Contents()|
      modifies this
      ensures Valid() && current == old(current)
      ensures var was := old(Contents());
              PopResult(was, if race && taken + 1 == |was| then |was| else taken, Contents(), r)
    {
      ghost var t0 := topIndex;
      var b := bottom;
      var t := top;
      CountIsContents();
      if ToSigned(Sub(b, t)) <= 0 {
        return None;
      }
      ModShift(bottomIndex, -1, WORD);
      bottom := Dec(b);
      // What other threads do meanwhile: thieves move top on.
      ModShift(t0, taken, WORD);
      topIndex := t0 + taken;
      top := (top + taken) % WORD;
      r := PopRest(race, t0);
    }

    /** Take the oldest task. `rivals`: for each compare-exchange that fails, whether it lost to a
        thread that took the oldest task, or failed for no reason. */
    method Steal(rivals: seq<bool>) returns (r: Option<Task>)
      requires Valid()
      modifies this
      ensures Valid() && current == old(current)
      ensures var was := old(Contents());
              StealResult(was, if Losses(rivals) < |was| then Losses(rivals) else |was|, Contents(), r)
    {
      ghost var t0 := topIndex;
      var k := 0;
      while true
        invariant Valid() && current == old(current) && bottomIndex == old(bottomIndex) && k <= |rivals|
        invariant topIndex == t0 + Losses(rivals[..k])
        decreases |rivals| - k
      {
        LossesPrefix(rivals, k);
        var t := top;
        var b := bottom;
        CountIsContents();
        if ToSigned(Sub(b, t)) <= 0 {
          AllLost(current.items[..], t0, bottomIndex);
          return None;
        }
        var x := current.Get(t, topIndex);
        ModShift(topIndex, 1, WORD);
        if k == |rivals| {
          assert rivals[..k] == rivals;
          SomeLeft(current.items[..], t0, topIndex, bottomIndex);
          top := Inc(t);
          topIndex := topIndex + 1;
          return Some(x);
        }
        if rivals[k] {
          top := Inc(t);
          topIndex := topIndex + 1;
        }
        k := k + 1;
      }
    }

    /** The destructor: release the tasks that were never taken, oldest first. */
    method Destroy() returns (released: seq<Task>)
      requires Valid()
      ensures released == Contents()
    {
      released := [];
      var b := bottom;
      var i := top;
      ghost var n: nat := topIndex;
      while i != b
        invariant topIndex <= n <= bottomIndex && i == n % WORD
        invariant released == Live(current.items[..], topIndex, n)
        decreases bottomIndex - n
      {
        var x := current.Get(i, n);
        LiveEnds(current.items[..], topIndex, n + 1);
        released := released + [x];
        ModShift(n, 1, WORD);
        i := Inc(i);
        n := n + 1;
      }
      SameWord(n, bottomIndex);
    }
  }
}
