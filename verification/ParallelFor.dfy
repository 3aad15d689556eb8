/** The parallel loop: the two halves of every split may run interleaved in any way. */
module ParallelFor {
  import Common
  import opened Partitioner

  /** c is a and b interleaved. */
  predicate Interleaves(a: seq<int>, b: seq<int>, c: seq<int>)
    decreases |c|
  {
    if c == [] then a == [] && b == []
    else
      || (a != [] && a[0] == c[0] && Interleaves(a[1..], b, c[1..]))
      || (b != [] && b[0] == c[0] && Interleaves(a, b[1..], c[1..]))
  }

  /** How the calls made by the two halves of the split at a path are interleaved. */
  type Schedule = (seq<bool>, seq<int>, seq<int>) -> seq<int>

  ghost predicate IsSchedule(merge: Schedule) {
    forall path, a, b :: Interleaves(a, b, merge(path, a, b))
  }

  /** A sequence of calls that the loop can make over a split tree. */
  ghost predicate Visits(t: Tree, calls: seq<int>) {
    match t
    case Leaf(lo, hi) => lo <= hi && calls == Positions(lo, hi)
    case Node(l, r) =>
      exists first, second :: Visits(l, first) && Visits(r, second) && Interleaves(first, second, calls)
  }

  /** Visit every position of the partitioner's range; `calls` is the order of the calls made. */
  method For(part: AnyPartitioner, who: Migration, merge: Schedule, path: seq<bool>)
    returns (calls: seq<int>)
    requires part.Value().Valid() && IsSchedule(merge)
    modifies part.Repr()
    ensures Visits(SplitTree(old(part.Value()), who, path), calls)
    decreases part.Value().hi - part.Value().lo
  {
    var sub := part.SplitOff(who(path));
    var begin, end := sub.Range();
    if begin == end {
      var lo, hi := part.Range();
      calls := [];
      var i := lo;
      while i != hi
        invariant lo <= i <= hi
        invariant calls == Positions(lo, i)
        decreases hi - i
      {
        calls := calls + [i];
        i := i + 1;
      }
      return;
    }
    var second := For(sub, who, merge, path + [true]);
    var first := For(part, who, merge, path + [false]);
    calls := merge(path, first, second);
  }

  lemma {:induction false} InterleaveCounts(a: seq<int>, b: seq<int>, c: seq<int>)
    requires Interleaves(a, b, c)
    ensures multiset(c) == multiset(a) + multiset(b)
    decreases |c|
  {
    if c != [] {
      assert c == [c[0]] + c[1..];
      if a != [] && a[0] == c[0] && Interleaves(a[1..], b, c[1..]) {
        InterleaveCounts(a[1..], b, c[1..]);
        assert a == [a[0]] + a[1..];
      } else {
        InterleaveCounts(a, b[1..], c[1..]);
        assert b == [b[0]] + b[1..];
      }
    }
  }

  lemma PositionsSplit(lo: int, mid: int, hi: int)
    requires lo <= mid <= hi
    ensures Positions(lo, hi) == Positions(lo, mid) + Positions(mid, hi)
  {
  }

  lemma {:induction false} VisitCounts(t: Tree, lo: int, hi: int, calls: seq<int>)
    requires Spans(t, lo, hi) && Visits(t, calls)
    ensures multiset(calls) == multiset(Positions(lo, hi))
    decreases t
  {
    if t.Node? {
      var first, second :| Visits(t.left, first) && Visits(t.right, second) && Interleaves(first, second, calls);
      var mid := Start(t.right);
      VisitCounts(t.left, lo, mid, first);
      VisitCounts(t.right, mid, hi, second);
      InterleaveCounts(first, second, calls);
      PositionsSplit(lo, mid, hi);
    }
  }

  lemma CountFront(x: int, rest: seq<int>, i: int)
    ensures multiset([x] + rest)[i] == multiset(rest)[i] + if i == x then 1 else 0
  {
  }

  lemma {:induction false} PositionCount(lo: int, hi: int, i: int)
    requires lo <= hi
    ensures multiset(Positions(lo, hi))[i] == if lo <= i < hi then 1 else 0
    decreases hi - lo
  {
    if lo < hi {
      PositionCount(lo + 1, hi, i);
      CountFront(lo, Positions(lo + 1, hi), i);
    }
  }

  /** Whatever the partition and the interleaving, every position of the range is visited
      exactly once and nothing else is. */
  lemma VisitsEachOnce(t: Tree, lo: int, hi: int, calls: seq<int>, i: int)
    requires lo <= hi && Spans(t, lo, hi) && Visits(t, calls)
    ensures multiset(calls)[i] == if lo <= i < hi then 1 else 0
  {
    VisitCounts(t, lo, hi, calls);
    PositionCount(lo, hi, i);
  }

  /** A range is wrapped in an auto partitioner with an automatic grain size. */
  method ParallelFor(n: nat, who: Migration, merge: Schedule, hc: nat) returns (calls: seq<int>)
    requires hc >= 1 && IsSchedule(merge)
    ensures forall i :: multiset(calls)[i] == if 0 <= i < n then 1 else 0
    ensures exists grain :: IsAutoGrain(grain, n, hc)
              && Visits(SplitTree(AutoPart(0, n, grain, 0, Common.None, hc), who, []), calls)
  {
    var grain := AutoGrainSize(n, hc);
    var p := new AutoPartitioner(0, n, grain, hc);
    ghost var t := SplitTree(p.Value(), who, []);
    calls := For(OfAuto(p), who, merge, []);
    forall i ensures multiset(calls)[i] == if 0 <= i < n then 1 else 0 {
      VisitsEachOnce(t, 0, n, calls, i);
    }
  }

  // ----- Order -----

  /** a is what remains of c after leaving some elements out. */
  predicate Subsequence(a: seq<int>, c: seq<int>)
    decreases |c|
  {
    if c == [] then a == []
    else (a != [] && a[0] == c[0] && Subsequence(a[1..], c[1..])) || Subsequence(a, c[1..])
  }

  lemma {:induction false} SubsequenceOfSelf(a: seq<int>)
    ensures Subsequence(a, a)
    decreases |a|
  {
    if a != [] { SubsequenceOfSelf(a[1..]); }
  }

  lemma {:induction false} InterleaveKeepsOrder(a: seq<int>, b: seq<int>, c: seq<int>)
    requires Interleaves(a, b, c)
    ensures Subsequence(a, c) && Subsequence(b, c)
    decreases |c|
  {
    if c != [] {
      if a != [] && a[0] == c[0] && Interleaves(a[1..], b, c[1..]) {
        InterleaveKeepsOrder(a[1..], b, c[1..]);
      } else {
        InterleaveKeepsOrder(a, b[1..], c[1..]);
      }
    }
  }

  lemma {:induction false} SubsequenceTransitive(a: seq<int>, b: seq<int>, c: seq<int>)
    requires Subsequence(a, b) && Subsequence(b, c)
    ensures Subsequence(a, c)
    decreases |c|
  {
    if c != [] {
      if b != [] && b[0] == c[0] && Subsequence(b[1..], c[1..]) {
        if a != [] && a[0] == b[0] && Subsequence(a[1..], b[1..]) {
          SubsequenceTransitive(a[1..], b[1..], c[1..]);
        } else {
          SubsequenceTransitive(a, b[1..], c[1..]);
        }
      } else {
        SubsequenceTransitive(a, b, c[1..]);
      }
    }
  }

  ghost predicate IsLeaf(t: Tree, lo: int, hi: int) {
    match t
    case Leaf(a, b) => a == lo && b == hi
    case Node(l, r) => IsLeaf(l, lo, hi) || IsLeaf(r, lo, hi)
  }

  /** Within a leaf, positions are visited from first to last. */
  lemma {:induction false} LeavesKeepOrder(t: Tree, lo: int, hi: int, calls: seq<int>)
    requires lo <= hi && IsLeaf(t, lo, hi) && Visits(t, calls)
    ensures Subsequence(Positions(lo, hi), calls)
    decreases t
  {
    match t
    case Leaf(_, _) =>
      SubsequenceOfSelf(calls);
    case Node(l, r) =>
      var first, second :| Visits(l, first) && Visits(r, second) && Interleaves(first, second, calls);
      InterleaveKeepsOrder(first, second, calls);
      if IsLeaf(l, lo, hi) {
        LeavesKeepOrder(l, lo, hi, first);
        SubsequenceTransitive(Positions(lo, hi), first, calls);
      } else {
        LeavesKeepOrder(r, lo, hi, second);
        SubsequenceTransitive(Positions(lo, hi), second, calls);
      }
  }
}
