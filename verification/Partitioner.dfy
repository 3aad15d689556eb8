/**
The two range partitioners. Iterators are positions; the thread that performs a
split is a parameter, because which thread runs which half is up to the scheduler.
 */
module Partitioner {
  import opened Common
  import Bits

  type ThreadId = nat

  /** The fields of a partitioner, as a value. `hc` is hardware_concurrency(). */
  datatype Part =
    | StaticPart(lo: int, hi: int, grain: nat)
    | AutoPart(lo: int, hi: int, grain: nat, threads: nat, last: Option<ThreadId>, hc: nat)
  {
    predicate Valid() { lo <= hi && (AutoPart? ==> hc >= 1) }
    function Length(): int { hi - lo }
  }

  function Middle(p: Part): int {
    p.lo + (p.Length() + 1) / 2
  }

  /** A split: what is left of the partitioner, and the part it hands out. */
  function Split(p: Part, current: ThreadId): (r: (Part, Part))
    requires p.Valid()
    ensures r.0.Valid() && r.1.Valid()
    ensures r.0.lo == p.lo && r.0.hi == r.1.lo && r.1.hi == p.hi
    ensures r.1.lo < r.1.hi ==> r.0.Length() < p.Length() && r.1.Length() < p.Length() && r.0.lo < r.0.hi
    ensures r.0.StaticPart? == r.1.StaticPart? == p.StaticPart?
  {
    match p
    case StaticPart(lo, hi, grain) =>
      if p.Length() <= grain then (p, StaticPart(hi, hi, grain))
      else (StaticPart(lo, Middle(p), grain), StaticPart(Middle(p), hi, grain))
    case AutoPart(lo, hi, grain, threads, last, hc) =>
      var budget := if Some(current) != last then hc else threads;
      if p.Length() <= grain then (p, AutoPart(hi, hi, grain, 0, None, hc))
      else if budget <= 1 then (p.(threads := budget), AutoPart(hi, hi, grain, 0, None, hc))
      else
        (AutoPart(lo, Middle(p), grain, budget - budget / 2, Some(current), hc),
         AutoPart(Middle(p), hi, grain, budget / 2, Some(current), hc))
  }

  function Gap(a: nat, b: nat): nat {
    if a <= b then b - a else a - b
  }

  /** The value nearest to dist / (8 * hc) between 1 and 2048. */
  ghost predicate IsAutoGrain(grain: nat, dist: nat, hc: nat)
    requires hc >= 1
  {
    && 1 <= grain <= 2048
    && forall g | 1 <= g <= 2048 :: Gap(grain, dist / (8 * hc)) <= Gap(g, dist / (8 * hc))
  }

  method AutoGrainSize(dist: nat, hc: nat) returns (grain: nat)
    requires hc >= 1
    ensures IsAutoGrain(grain, dist, hc)
  {
    grain := dist / (8 * hc);
    if grain < 1 {
      grain := 1;
    }
    if grain > 2048 {
      grain := 2048;
    }
  }

  class StaticPartitioner {
    var iterBegin: int
    var iterEnd: int
    const grain: nat

    ghost function Value(): Part
      reads this
    {
      StaticPart(iterBegin, iterEnd, grain)
    }

    constructor (begin: int, end: int, grain: nat)
      ensures Value() == StaticPart(begin, end, grain)
    {
      iterBegin, iterEnd := begin, end;
      this.grain := grain;
    }

    /** Hand out the second half, or an empty range if the rest is not above the grain size. */
    method SplitOff(ghost current: ThreadId) returns (out: StaticPartitioner)
      requires Value().Valid()
      modifies this
      ensures fresh(out)
      ensures Value() == Split(old(Value()), current).0
      ensures out.Value() == Split(old(Value()), current).1
    {
      var length := iterEnd - iterBegin;
      out := new StaticPartitioner(iterEnd, iterEnd, grain);
      if length <= grain {
        return;
      }
      iterEnd := iterBegin;
      iterEnd := iterEnd + (length + 1) / 2;
      out.iterBegin := iterEnd;
    }
  }

  class AutoPartitioner {
    var iterBegin: int
    var iterEnd: int
    const grain: nat
    var numThreads: nat
    var lastThread: Option<ThreadId>
    const hc: nat

    ghost function Value(): Part
      reads this
    {
      AutoPart(iterBegin, iterEnd, grain, numThreads, lastThread, hc)
    }

    /** The thread is initialised to "no thread"; the budget is set at the first split. */
    constructor (begin: int, end: int, grain: nat, hc: nat)
      ensures Value() == AutoPart(begin, end, grain, 0, None, hc)
    {
      iterBegin, iterEnd := begin, end;
      this.grain := grain;
      numThreads, lastThread := 0, None;
      this.hc := hc;
    }

    method SplitOff(current: ThreadId) returns (out: AutoPartitioner)
      requires Value().Valid()
      modifies this
      ensures fresh(out)
      ensures Value() == Split(old(Value()), current).0
      ensures out.Value() == Split(old(Value()), current).1
    {
      var length := iterEnd - iterBegin;
      out := new AutoPartitioner(iterEnd, iterEnd, grain, hc);
      if length <= grain {
        return;
      }
      if Some(current) != lastThread {
        numThreads := hc;
      }
      if numThreads <= 1 {
        return;
      }
      iterEnd := iterBegin;
      iterEnd := iterEnd + (length + 1) / 2;
      out.iterBegin := iterEnd;
      out.lastThread := Some(current);
      lastThread := Some(current);
      out.numThreads := numThreads / 2;
      numThreads := numThreads - out.numThreads;
    }
  }

  /** The partitioner parameter of the parallel algorithms. */
  datatype AnyPartitioner = OfStatic(static_: StaticPartitioner) | OfAuto(auto_: AutoPartitioner)
  {
    ghost function Repr(): set<object> {
      match this case OfStatic(p) => {p} case OfAuto(p) => {p}
    }

    ghost function Value(): Part
      reads Repr()
    {
      match this case OfStatic(p) => p.Value() case OfAuto(p) => p.Value()
    }

    /** The range that a loop over this partitioner visits. */
    method Range() returns (begin: int, end: int)
      ensures begin == Value().lo && end == Value().hi
    {
      match this {
        case OfStatic(p) => begin, end := p.iterBegin, p.iterEnd;
        case OfAuto(p) => begin, end := p.iterBegin, p.iterEnd;
      }
    }

    method SplitOff(current: ThreadId) returns (out: AnyPartitioner)
      requires Value().Valid()
      modifies Repr()
      ensures fresh(out.Repr())
      ensures Value() == Split(old(Value()), current).0
      ensures out.Value() == Split(old(Value()), current).1
    {
      match this {
        case OfStatic(p) => var part := p.SplitOff(current); out := OfStatic(part);
        case OfAuto(p) => var part := p.SplitOff(current); out := OfAuto(part);
      }
    }
  }

  // ----- Split trees -----

  /** The tree of parts that an algorithm makes; a leaf is a range processed by one thread. */
  datatype Tree = Leaf(lo: int, hi: int) | Node(left: Tree, right: Tree)

  /** Which thread splits the part reached by a path (false: the rest, true: the part handed out). */
  type Migration = seq<bool> -> ThreadId

  function SplitTree(p: Part, who: Migration, path: seq<bool>): (t: Tree)
    requires p.Valid()
    ensures Spans(t, p.lo, p.hi) && Start(t) == p.lo
    decreases p.hi - p.lo
  {
    var (rest, sub) := Split(p, who(path));
    if sub.lo == sub.hi then Leaf(rest.lo, rest.hi)
    else Node(SplitTree(rest, who, path + [false]), SplitTree(sub, who, path + [true]))
  }

  /** The leaves are adjacent ranges from lo to hi, and only an undivided range may be empty. */
  predicate Spans(t: Tree, lo: int, hi: int) {
    match t
    case Leaf(a, b) => a == lo && b == hi && lo <= hi
    case Node(l, r) => Spans(l, lo, Start(r)) && Spans(r, Start(r), hi) && lo < Start(r) < hi
  }

  function Start(t: Tree): int {
    match t case Leaf(a, _) => a case Node(l, _) => Start(l)
  }

  /** The positions of a range, in order. */
  function Positions(lo: int, hi: int): (q: seq<int>)
    requires lo <= hi
    ensures |q| == hi - lo && forall i | 0 <= i < |q| :: q[i] == lo + i
    decreases hi - lo
  {
    if lo == hi then [] else [lo] + Positions(lo + 1, hi)
  }

  /** The positions of the leaves, in order. */
  function LeafPositions(t: Tree): seq<int> {
    match t
    case Leaf(lo, hi) => if lo <= hi then Positions(lo, hi) else []
    case Node(l, r) => LeafPositions(l) + LeafPositions(r)
  }

  function Leaves(t: Tree): (n: nat)
    ensures n >= 1
  {
    match t case Leaf(_, _) => 1 case Node(l, r) => Leaves(l) + Leaves(r)
  }

  predicate EveryLeaf(t: Tree, size: int -> bool) {
    match t case Leaf(lo, hi) => size(hi - lo) case Node(l, r) => EveryLeaf(l, size) && EveryLeaf(r, size)
  }

  /** In-order leaves concatenate to the original range. */
  lemma {:induction false} LeavesConcatenate(t: Tree, lo: int, hi: int)
    requires Spans(t, lo, hi) && lo <= hi
    ensures LeafPositions(t) == Positions(lo, hi)
  {
    if t.Node? {
      LeavesConcatenate(t.left, lo, Start(t.right));
      LeavesConcatenate(t.right, Start(t.right), hi);
    }
  }

  /** With a grain of at least one, no leaf of a static partition is above the grain. */
  lemma {:induction false} StaticLeafAtMostGrain(p: Part, who: Migration, path: seq<bool>)
    requires p.StaticPart? && p.Valid() && p.grain >= 1
    ensures EveryLeaf(SplitTree(p, who, path), n => n <= p.grain)
    decreases p.hi - p.lo
  {
    var (rest, sub) := Split(p, who(path));
    if sub.lo != sub.hi {
      StaticLeafAtMostGrain(rest, who, path + [false]);
      StaticLeafAtMostGrain(sub, who, path + [true]);
    }
  }

  /** Once a range has been divided, no leaf of either partitioner is below half the grain. */
  lemma {:induction false} LeafAtLeastHalfGrain(p: Part, who: Migration, path: seq<bool>)
    requires p.Valid() && p.Length() >= (p.grain + 1) / 2
    ensures EveryLeaf(SplitTree(p, who, path), n => n >= (p.grain + 1) / 2)
    decreases p.hi - p.lo
  {
    var (rest, sub) := Split(p, who(path));
    if sub.lo != sub.hi {
      LeafAtLeastHalfGrain(rest, who, path + [false]);
      LeafAtLeastHalfGrain(sub, who, path + [true]);
    }
  }

  function Pow2(n: nat): (r: nat)
    ensures r >= 1
  {
    if n == 0 then 1 else 2 * Pow2(n - 1)
  }

  /** The part of a static partition reached by following a path of splits, if there is one. */
  function PartAt(p: Part, path: seq<bool>): Option<Part>
    requires p.StaticPart? && p.Valid()
    decreases |path|
  {
    if path == [] then Some(p)
    else
      var (rest, sub) := Split(p, 0);
      if sub.lo == sub.hi then None
      else PartAt(if path[0] then sub else rest, path[1..])
  }

  /** m is floor(n / d), or ceil(n / d), or between the two. */
  predicate Quotient(m: int, n: nat, d: nat)
    requires d >= 1
  {
    n / d <= m <= (n + d - 1) / d
  }

  /** Halving keeps a size between two neighbouring quotients. */
  lemma HalvesBetween(n: nat, d: nat, m: nat, half: nat)
    requires d >= 1 && Quotient(m, n, d)
    requires half == m / 2 || half == (m + 1) / 2
    ensures Quotient(half, n, 2 * d)
  {
    DivDouble(n, d);
    CeilDouble(n, d);
  }

  lemma DivDouble(n: nat, d: nat)
    requires d >= 1
    ensures n / (2 * d) == n / d / 2
  {
    var q, odd := n / d / 2, n / d % 2;
    assert n == d * (2 * q + odd) + n % d;
    assert d * (2 * q + odd) == (2 * d) * q + d * odd;
    Bits.ModUnique(n, 2 * d, q, d * odd + n % d);
  }

  lemma CeilDouble(n: nat, d: nat)
    requires d >= 1
    ensures (n + 2 * d - 1) / (2 * d) == ((n + d - 1) / d + 1) / 2
  {
    DivDouble(n + 2 * d - 1, d);
    var q := (n + d - 1) / d;
    assert n + 2 * d - 1 == d * (q + 1) + (n + d - 1) % d;
    Bits.ModUnique(n + 2 * d - 1, d, q + 1, (n + d - 1) % d);
  }

  function Pieces(d: nat, k: nat): (r: nat)
    ensures r >= d
  {
    d * Pow2(k)
  }

  lemma PiecesStep(d: nat, k: nat)
    requires k >= 1
    ensures Pieces(2 * d, k - 1) == Pieces(d, k)
  {
  }

  /** A piece of a static partition of n positions at depth k has floor(n / 2^k) or ceil(n / 2^k)
      of them. Stated for the subtree below d pieces; the whole partition is d == 1. */
  lemma {:induction false} StaticPieceSize(p: Part, path: seq<bool>, n: nat, d: nat)
    requires p.StaticPart? && p.Valid() && PartAt(p, path).Some?
    requires d >= 1 && Quotient(p.Length(), n, d)
    ensures Quotient(PartAt(p, path).value.Length(), n, Pieces(d, |path|))
    decreases |path|
  {
    if path != [] {
      var (rest, sub) := Split(p, 0);
      var next := if path[0] then sub else rest;
      HalvesBetween(n, d, p.Length(), next.Length());
      StaticPieceSize(next, path[1..], n, 2 * d);
      PiecesStep(d, |path|);
    }
  }

  /** Without migration the auto partitioner makes at most as many leaves as its budget. */
  lemma {:induction false} AutoLeavesWithinBudget(p: Part, thread: ThreadId, path: seq<bool>)
    requires p.AutoPart? && p.Valid() && p.last == Some(thread)
    ensures Leaves(SplitTree(p, _ => thread, path)) <= if p.threads >= 1 then p.threads else 1
    decreases p.hi - p.lo
  {
    var (rest, sub) := Split(p, thread);
    if sub.lo != sub.hi {
      AutoLeavesWithinBudget(rest, thread, path + [false]);
      AutoLeavesWithinBudget(sub, thread, path + [true]);
    }
  }

  /** A new auto partitioner without migration makes at most hardware_concurrency() leaves. */
  lemma AutoLeaves(p: Part, thread: ThreadId)
    requires p.AutoPart? && p.Valid() && p.last == None
    ensures Leaves(SplitTree(p, _ => thread, [])) <= p.hc
  {
    var (rest, sub) := Split(p, thread);
    if sub.lo != sub.hi {
      AutoLeavesWithinBudget(rest, thread, [false]);
      AutoLeavesWithinBudget(sub, thread, [true]);
      assert [] + [false] == [false] && [] + [true] == [true];
    }
  }

  // ----- When a range is divided, and how -----

  /** A part of a static partition is divided exactly when it is above the grain size and has more
      than one position. */
  lemma StaticDivides(p: Part, who: Migration, path: seq<bool>)
    requires p.StaticPart? && p.Valid()
    ensures SplitTree(p, who, path).Leaf? <==> p.Length() <= p.grain || p.Length() <= 1
  {
  }

  /** So is a part of an auto partition, if the budget allows it: in the thread that split it last
      that is its own budget, and in any other thread the number of hardware threads. */
  lemma AutoDivides(p: Part, who: Migration, path: seq<bool>)
    requires p.AutoPart? && p.Valid()
    ensures SplitTree(p, who, path).Leaf? <==>
            || p.Length() <= p.grain || p.Length() <= 1
            || (if p.last == Some(who(path)) then p.threads else p.hc) <= 1
  {
  }

  /** A part above its grain that has moved to another thread is divided again, whatever is left of
      its budget. */
  lemma MigrationDivides(p: Part, who: Migration, path: seq<bool>)
    requires p.AutoPart? && p.Valid() && p.hc >= 2
    requires p.Length() > p.grain && p.Length() >= 2 && p.last != Some(who(path))
    ensures SplitTree(p, who, path).Node?
  {
  }

  /** Either partitioner divides in the middle; an odd position goes to the first half. */
  lemma DividesInHalf(p: Part, who: Migration, path: seq<bool>)
    requires p.Valid() && SplitTree(p, who, path).Node?
    ensures var t := SplitTree(p, who, path);
            var first, second := Start(t.right) - p.lo, p.hi - Start(t.right);
            first + second == p.Length() && (first == second || first == second + 1)
  {
  }

  /** The halves of an auto part share its budget, each gets some of it, and both remember who
      split them. */
  lemma BudgetIsShared(p: Part, current: ThreadId)
    requires p.AutoPart? && p.Valid() && Split(p, current).1.lo < Split(p, current).1.hi
    ensures var (rest, sub) := Split(p, current);
            && rest.AutoPart? && sub.AutoPart?
            && rest.threads + sub.threads == (if p.last == Some(current) then p.threads else p.hc)
            && rest.threads >= sub.threads >= 1 && rest.threads <= sub.threads + 1
            && rest.last == sub.last == Some(current)
            && rest.hc == sub.hc == p.hc && rest.grain == sub.grain == p.grain
  {
  }

  /** Enough positions for k threads. */
  predicate Enough(length: int, k: nat, grain: nat) {
    k >= 1 && length > (k - 1) * (grain + 1)
  }

  lemma ProductsOfHalves(m: int, g: int)
    ensures (2 * m - 1) * g == 2 * ((m - 1) * g) + g
    ensures 2 * m * g == 2 * (m * g)
    ensures m * g == (m - 1) * g + g
  {
  }

  /** The same in sums alone: x is (m - 1) * g and y is m * g. */
  lemma HalvesExceed(length: nat, x: int, y: int, g: nat)
    requires g >= 1 && y == x + g
    ensures length > 2 * x + g ==> length / 2 > x
    ensures length > 2 * y ==> (length + 1) / 2 > y && length / 2 > x
  {
  }

  lemma EnoughForHalves(length: nat, k: nat, grain: nat)
    requires k >= 2 && Enough(length, k, grain)
    ensures length > grain && length >= 2
    ensures Enough((length + 1) / 2, k - k / 2, grain) && Enough(length / 2, k / 2, grain)
  {
    var m, g := k / 2, grain + 1;
    var x, y := (m - 1) * g, m * g;
    ProductsOfHalves(m, g);
    HalvesExceed(length, x, y, g);
    MulNonNegative(m - 1, g);
    if k == 2 * m {
      assert (k - 1) * g == 2 * x + g;
    } else {
      assert (k - 1) * g == 2 * y;
    }
  }

  lemma MulNonNegative(a: nat, b: nat)
    ensures a * b >= 0
  {
  }

  /** With enough positions, a part that stays in its thread has as many leaves as its budget. */
  lemma {:induction false} AutoLeavesExactly(p: Part, thread: ThreadId, path: seq<bool>)
    requires p.AutoPart? && p.Valid() && p.last == Some(thread) && Enough(p.Length(), p.threads, p.grain)
    ensures Leaves(SplitTree(p, _ => thread, path)) == p.threads
    decreases p.hi - p.lo
  {
    if p.threads >= 2 {
      var (rest, sub) := Split(p, thread);
      EnoughForHalves(p.Length(), p.threads, p.grain);
      AutoLeavesExactly(rest, thread, path + [false]);
      AutoLeavesExactly(sub, thread, path + [true]);
    }
  }

  /** A new auto partition of more than (hc - 1) * (grain + 1) positions that stays in one thread has
      exactly one leaf for each hardware thread. */
  lemma NewAutoLeavesExactly(p: Part, thread: ThreadId)
    requires p.AutoPart? && p.Valid() && p.last == None && Enough(p.Length(), p.hc, p.grain)
    ensures Leaves(SplitTree(p, _ => thread, [])) == p.hc
  {
    if p.hc >= 2 {
      var (rest, sub) := Split(p, thread);
      EnoughForHalves(p.Length(), p.hc, p.grain);
      AutoLeavesExactly(rest, thread, [] + [false]);
      AutoLeavesExactly(sub, thread, [] + [true]);
    }
  }
}
