/**
Parallel map-reduce over a partitioner, against the sequential left fold. `item(i)` is
the result of the map function on the element at position i.
 */
module ParallelReduce {
  import Common
  import opened Partitioner

  type Binary<!R> = (R, R) -> R

  function Fold<R>(f: Binary<R>, acc: R, xs: seq<R>): R
    decreases |xs|
  {
    if xs == [] then acc else Fold(f, f(acc, xs[0]), xs[1..])
  }

  function Items<R>(item: int -> R, lo: int, hi: int): (r: seq<R>)
    ensures |r| == if lo <= hi then hi - lo else 0
    ensures forall i | 0 <= i < |r| :: r[i] == item(lo + i)
    decreases hi - lo
  {
    if hi <= lo then [] else [item(lo)] + Items(item, lo + 1, hi)
  }

  /** What a split tree computes: every leaf folds from init, every node reduces its halves. */
  function ReduceTree<R>(t: Tree, item: int -> R, init: R, f: Binary<R>): R {
    match t
    case Leaf(lo, hi) => Fold(f, init, Items(item, lo, hi))
    case Node(l, r) => f(ReduceTree(l, item, init, f), ReduceTree(r, item, init, f))
  }

  lemma {:induction false} FoldAppend<R>(f: Binary<R>, acc: R, xs: seq<R>, ys: seq<R>)
    ensures Fold(f, acc, xs + ys) == Fold(f, Fold(f, acc, xs), ys)
    decreases |xs|
  {
    if xs == [] {
      assert xs + ys == ys;
    } else {
      assert (xs + ys)[1..] == xs[1..] + ys;
      FoldAppend(f, f(acc, xs[0]), xs[1..], ys);
    }
  }

  lemma FoldNext<R>(f: Binary<R>, acc: R, item: int -> R, lo: int, i: int)
    requires lo <= i
    ensures Fold(f, acc, Items(item, lo, i + 1)) == f(Fold(f, acc, Items(item, lo, i)), item(i))
  {
    FoldAppend(f, acc, Items(item, lo, i), [item(i)]);
    assert Items(item, lo, i + 1) == Items(item, lo, i) + [item(i)];
    assert [item(i)][1..] == [];
  }

  /** One call of the recursive algorithm. The halves run in whichever threads `who` names. */
  method MapReduce<R>(part: AnyPartitioner, item: int -> R, init: R, f: Binary<R>, who: Migration, path: seq<bool>)
    returns (out: R)
    requires part.Value().Valid()
    modifies part.Repr()
    ensures out == ReduceTree(SplitTree(old(part.Value()), who, path), item, init, f)
    decreases part.Value().hi - part.Value().lo
  {
    var sub := part.SplitOff(who(path));
    var begin, end := sub.Range();
    if begin == end {
      var lo, hi := part.Range();
      out := init;
      var i := lo;
      while i != hi
        invariant lo <= i <= hi
        invariant out == Fold(f, init, Items(item, lo, i))
        decreases hi - i
      {
        FoldNext(f, init, item, lo, i);
        out := f(out, item(i));
        i := i + 1;
      }
      return;
    }
    var second := MapReduce(sub, item, init, f, who, path + [true]);
    var first := MapReduce(part, item, init, f, who, path + [false]);
    out := f(first, second);
  }

  ghost predicate AssociativeAt<R>(f: Binary<R>, a: R, b: R, c: R) {
    f(f(a, b), c) == f(a, f(b, c))
  }

  ghost predicate Associative<R(!new)>(f: Binary<R>) {
    forall a, b, c :: AssociativeAt(f, a, b, c)
  }

  ghost predicate LeftIdentity<R(!new)>(f: Binary<R>, init: R) {
    forall a :: f(init, a) == a
  }

  ghost predicate AbsorbsAt<R>(f: Binary<R>, init: R, a: R, b: R) {
    f(f(init, a), f(init, b)) == f(f(init, a), b)
  }

  /** A second copy of init inside an expression that starts with init makes no difference. */
  ghost predicate Absorbs<R(!new)>(f: Binary<R>, init: R) {
    forall a, b :: AbsorbsAt(f, init, a, b)
  }

  /** The value before the first element can be split off a fold. */
  lemma {:induction false} FoldFront<R(!new)>(f: Binary<R>, a: R, b: R, xs: seq<R>)
    requires Associative(f)
    ensures Fold(f, f(a, b), xs) == f(a, Fold(f, b, xs))
    decreases |xs|
  {
    if xs != [] {
      assert AssociativeAt(f, a, b, xs[0]);
      FoldFront(f, a, f(b, xs[0]), xs[1..]);
    }
  }

  /** Two folds of non-empty pieces combine to one fold. */
  lemma JoinFolds<R(!new)>(f: Binary<R>, init: R, xs: seq<R>, ys: seq<R>)
    requires Associative(f) && Absorbs(f, init) && xs != [] && ys != []
    ensures f(Fold(f, init, xs), Fold(f, init, ys)) == Fold(f, init, xs + ys)
  {
    var a, b := Fold(f, xs[0], xs[1..]), Fold(f, ys[0], ys[1..]);
    FoldFront(f, init, xs[0], xs[1..]);
    FoldFront(f, init, ys[0], ys[1..]);
    FoldFront(f, f(init, a), ys[0], ys[1..]);
    FoldAppend(f, init, xs, ys);
    assert AbsorbsAt(f, init, a, b);
  }

  lemma ItemsSplit<R>(item: int -> R, lo: int, mid: int, hi: int)
    requires lo <= mid <= hi
    ensures Items(item, lo, hi) == Items(item, lo, mid) + Items(item, mid, hi)
  {
  }

  lemma {:induction false} TreeIsFold<R(!new)>(t: Tree, lo: int, hi: int, item: int -> R, init: R, f: Binary<R>)
    requires Spans(t, lo, hi) && Associative(f) && Absorbs(f, init)
    ensures ReduceTree(t, item, init, f) == Fold(f, init, Items(item, lo, hi))
    decreases t
  {
    if t.Node? {
      var mid := Start(t.right);
      TreeIsFold(t.left, lo, mid, item, init, f);
      TreeIsFold(t.right, mid, hi, item, init, f);
      JoinFolds(f, init, Items(item, lo, mid), Items(item, mid, hi));
      ItemsSplit(item, lo, mid, hi);
    }
  }

  /** Every partition of every range, under every migration, gives the sequential answer. */
  ghost predicate AlwaysSequential<R(!new)>(f: Binary<R>, init: R) {
    forall p: Part, who: Migration, item: int -> R | p.Valid() ::
      ReduceTree(SplitTree(p, who, []), item, init, f) == Fold(f, init, Items(item, p.lo, p.hi))
  }

  /** With an associative reduction, the answer is always the sequential one if and only if
      the extra copies of init are absorbed. A left identity is absorbed. */
  lemma SequentialIffAbsorbs<R(!new)>(f: Binary<R>, init: R)
    requires Associative(f)
    ensures AlwaysSequential(f, init) <==> Absorbs(f, init)
    ensures LeftIdentity(f, init) ==> Absorbs(f, init)
  {
    if Absorbs(f, init) {
      forall p: Part, who: Migration, item: int -> R | p.Valid()
        ensures ReduceTree(SplitTree(p, who, []), item, init, f) == Fold(f, init, Items(item, p.lo, p.hi))
      {
        TreeIsFold(SplitTree(p, who, []), p.lo, p.hi, item, init, f);
      }
    }
    if AlwaysSequential(f, init) {
      forall a, b ensures AbsorbsAt(f, init, a, b) { PairAbsorbs(f, init, a, b); }
    }
  }

  lemma PairTree(who: Migration)
    ensures SplitTree(StaticPart(0, 2, 1), who, []) == Node(Leaf(0, 1), Leaf(1, 2))
  {
    assert Split(StaticPart(0, 2, 1), who([])) == (StaticPart(0, 1, 1), StaticPart(1, 2, 1));
  }

  lemma FoldOfOne<R>(f: Binary<R>, acc: R, xs: seq<R>)
    requires |xs| == 1
    ensures Fold(f, acc, xs) == f(acc, xs[0])
  {
  }

  /** Two elements with grain size one: the smallest range that shows the extra init. */
  lemma PairAbsorbs<R(!new)>(f: Binary<R>, init: R, a: R, b: R)
    requires AlwaysSequential(f, init)
    ensures AbsorbsAt(f, init, a, b)
  {
    var item: int -> R := i => if i == 0 then a else b;
    var who: Migration := path => 0;
    var p := StaticPart(0, 2, 1);
    PairTree(who);
    assert ReduceTree(SplitTree(p, who, []), item, init, f) == Fold(f, init, Items(item, 0, 2));
    FoldOfOne(f, init, Items(item, 0, 1));
    FoldOfOne(f, init, Items(item, 1, 2));
    FoldNext(f, init, item, 0, 1);
  }

  // ----- Integer addition -----

  const ADD: Binary<int> := (a: int, b: int) => a + b

  function Sum(item: int -> int, lo: int, hi: int): int
    decreases hi - lo
  {
    if hi <= lo then 0 else item(lo) + Sum(item, lo + 1, hi)
  }

  lemma {:induction false} FoldIsSum(item: int -> int, init: int, lo: int, hi: int)
    ensures Fold(ADD, init, Items(item, lo, hi)) == init + Sum(item, lo, hi)
    decreases hi - lo
  {
    if lo < hi {
      assert Items(item, lo, hi)[1..] == Items(item, lo + 1, hi);
      FoldIsSum(item, init + item(lo), lo + 1, hi);
    }
  }

  lemma {:induction false} SumSplit(item: int -> int, lo: int, mid: int, hi: int)
    requires lo <= mid <= hi
    ensures Sum(item, lo, hi) == Sum(item, lo, mid) + Sum(item, mid, hi)
    decreases mid - lo
  {
    if lo < mid {
      SumSplit(item, lo + 1, mid, hi);
    }
  }

  lemma Distribute(a: int, b: int, x: int)
    ensures (a + b) * x == a * x + b * x
  {
  }

  /** For addition, whatever init is, each leaf contributes one more copy of it. */
  lemma {:induction false} SumCountsLeaves(t: Tree, lo: int, hi: int, item: int -> int, init: int)
    requires Spans(t, lo, hi)
    ensures ReduceTree(t, item, init, ADD) == Sum(item, lo, hi) + Leaves(t) * init
    decreases t
  {
    match t
    case Leaf(_, _) =>
      FoldIsSum(item, init, lo, hi);
    case Node(l, r) =>
      var mid := Start(r);
      SumCountsLeaves(l, lo, mid, item, init);
      SumCountsLeaves(r, mid, hi, item, init);
      SumSplit(item, lo, mid, hi);
      Distribute(Leaves(l), Leaves(r), init);
  }

  /** For addition the answer is always the sequential one if and only if init is zero. */
  lemma AddNeedsZero(init: int)
    ensures AlwaysSequential(ADD, init) <==> init == 0
  {
    assert forall a, b, c :: AssociativeAt(ADD, a, b, c);
    SequentialIffAbsorbs(ADD, init);
    assert AbsorbsAt(ADD, init, 0, 0) <==> init == 0;
    assert init == 0 ==> forall a, b :: AbsorbsAt(ADD, init, a, b);
  }

  const ZEROS: int -> int := (i: int) => 0

  lemma {:induction false} SumOfZeros(lo: int, hi: int)
    ensures Sum(ZEROS, lo, hi) == 0
    decreases hi - lo
  {
    if lo < hi { SumOfZeros(lo + 1, hi); }
  }

  /** With init 1, two zeros in leaves of one element add up to 2; the sequential answer is 1. */
  lemma AddFails(who: Migration)
    ensures ReduceTree(SplitTree(StaticPart(0, 2, 1), who, []), ZEROS, 1, ADD) == 2
    ensures Fold(ADD, 1, Items(ZEROS, 0, 2)) == 1
    ensures !AlwaysSequential(ADD, 1)
  {
    AddNeedsZero(1);
    var t := Node(Leaf(0, 1), Leaf(1, 2));
    PairTree(who);
    SumOfZeros(0, 2);
    SumCountsLeaves(t, 0, 2, ZEROS, 1);
    FoldIsSum(ZEROS, 1, 0, 2);
  }

  // ----- The entry point for a plain range -----

  /** A range is wrapped in an auto partitioner with an automatic grain size. */
  method ParallelMapReduce<R(!new)>(n: nat, item: int -> R, init: R, f: Binary<R>, who: Migration, hc: nat)
    returns (out: R)
    requires hc >= 1
    ensures Associative(f) && Absorbs(f, init) ==> out == Fold(f, init, Items(item, 0, n))
    ensures exists grain :: IsAutoGrain(grain, n, hc)
              && out == ReduceTree(SplitTree(AutoPart(0, n, grain, 0, Common.None, hc), who, []), item, init, f)
  {
    var grain := AutoGrainSize(n, hc);
    var p := new AutoPartitioner(0, n, grain, hc);
    ghost var t := SplitTree(p.Value(), who, []);
    out := MapReduce(OfAuto(p), item, init, f, who, []);
    if Associative(f) && Absorbs(f, init) {
      TreeIsFold(t, 0, n, item, init, f);
    }
  }
}
