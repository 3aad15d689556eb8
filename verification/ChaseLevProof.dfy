/** The inductive invariant of the concurrent deque. */
module ChaseLevProof {
  import opened Common
  import opened Bits
  import opened ChaseLev

  ghost predicate Holds(s: State, a: nat, i: nat)
    requires WellFormed(s)
  {
    a < |s.heap| && i < |s.log| && Get(s.heap[a], i) == s.log[i]
  }

  /** The arrays form one `previous` chain, each twice the size of the one it replaced. */
  ghost predicate HeapInv(s: State) {
    && |s.heap| >= 1
    && |s.heap[0].items| == INITIAL_SIZE
    && (forall k | 0 < k < |s.heap| :: |s.heap[k].items| == 2 * |s.heap[k - 1].items|)
    && (forall k | 0 <= k < |s.heap| :: s.heap[k].previous == k - 1)
    && s.current == |s.heap| - (if s.owner.PushCopy? then 2 else 1)
  }

  /** The live indices are top..|log|; they fit the array, whose slots hold them. */
  ghost predicate LiveInv(s: State)
    requires WellFormed(s)
  {
    && s.top <= |s.log|
    && |s.log| - s.top <= |s.heap[s.current].items|
    && (forall i | s.top <= i < |s.log| :: Holds(s, s.current, i))
  }

  ghost predicate OwnerInv(s: State)
    requires WellFormed(s)
  {
    var size := |s.heap[s.current].items|;
    match s.owner
    case Idle => s.bottom == |s.log| && s.claimed == None
    case PushTop(x, b) => b == s.bottom == |s.log| && s.claimed == None
    case PushArray(x, b, t) => b == s.bottom == |s.log| && t <= s.top && b - t <= size && s.claimed == None
    case PushCopy(x, b, t, i, copy) =>
      && b == s.bottom == |s.log| && s.claimed == None
      && t <= s.top && t <= i <= b && b - t <= size
      && copy == s.current + 1
      && (forall j | s.top <= j < i :: Holds(s, copy, j))
    case PushPut(x, b, a) =>
      b == s.bottom == |s.log| && a == s.current && b - s.top < size && s.claimed == None
    case PushBottom(x, b) =>
      && b == s.bottom == |s.log| && b - s.top < size && s.claimed == None
      && Get(s.heap[s.current], b) == x
    case PopTop(b) => b == s.bottom == |s.log| && s.claimed == None
    case PopBottom(b) => b + 1 == s.bottom == |s.log| && s.claimed == None
    case PopTopAgain(b) => b == s.bottom && b + 1 == |s.log| && s.claimed == None
    case PopArray(b, t) => PopInv(s, b, t)
    case PopGet(b, t, a) => a == s.current && PopInv(s, b, t)
    case PopCas(b, x) =>
      && b == s.bottom && b + 1 == |s.log| && b <= s.top && s.claimed == None
      && (s.top == b ==> x == s.log[b])
    case PopRestore(b, result) =>
      && b == s.bottom && b + 1 == |s.log| == s.top
      && s.claimed == result
  }

  /** A pop that has read top again: it owns its element, or it must still win it. */
  ghost predicate PopInv(s: State, b: nat, t: nat)
    requires WellFormed(s)
  {
    && b == s.bottom
    && t <= b && t <= s.top
    && if t == b then
         b + 1 == |s.log| && s.claimed == None
       else
         b == |s.log| && s.claimed == Some(Get(s.heap[s.current], b))
  }

  /** While top is still what the thief read, its index is live and what it holds is right. */
  ghost predicate ThiefInv(s: State, thief: Thief)
    requires WellFormed(s)
  {
    match thief
    case Away => true
    case StealTop => true
    case StealBottom(t) => t <= s.top
    case StealArray(t) => t <= s.top && (t == s.top ==> t < |s.log|)
    case StealGet(t, a) => t <= s.top && a <= s.current && (t == s.top ==> Holds(s, a, t))
    case StealCas(t, x) => t <= s.top && (t == s.top ==> t < |s.log| && x == s.log[t])
  }

  function Tasks(o: Option<Task>): multiset<Task> {
    match o case None => multiset{} case Some(x) => multiset{x}
  }

  /** Every pushed task has been popped, or stolen, or won by an unfinished pop, or is live. */
  ghost predicate Conserved(s: State)
    requires s.top <= |s.log|
  {
    s.pushed == s.popped + s.stolen + Tasks(s.claimed) + multiset(s.log[s.top..])
  }

  ghost predicate Inv(s: State) {
    && WellFormed(s) && HeapInv(s) && LiveInv(s) && OwnerInv(s) && Conserved(s)
    && forall i | 0 <= i < |s.thieves| :: ThiefInv(s, s.thieves[i])
  }

  lemma PutElsewhere(a: CircularArray, i: nat, j: nat, x: Task)
    requires IsPow2(|a.items|) && 0 < j - i < |a.items|
    ensures Get(Put(a, j, x), i) == Get(a, i)
    ensures Get(Put(a, i, x), j) == Get(a, j)
  {
    MaskDistinct(i, j, |a.items|);
  }

  lemma InitInv(s: State)
    requires Init(s)
    ensures Inv(s)
  {
  }

  /** A thief's knowledge survives a step that keeps the oldest live element where it is. */
  lemma ThiefKept(s: State, s': State, thief: Thief)
    requires WellFormed(s) && WellFormed(s') && ThiefInv(s, thief)
    requires s.top <= s'.top && s.current <= s'.current
    requires s'.top == s.top && s.top < |s.log| ==> s.top < |s'.log| && s'.log[s.top] == s.log[s.top]
    requires s'.top == s.top ==> forall a: nat | a <= s.current && Holds(s, a, s.top) :: Holds(s', a, s.top)
    ensures ThiefInv(s', thief)
  {
  }

  lemma ThievesKept(s: State, s': State)
    requires Inv(s) && WellFormed(s')
    requires s'.thieves == s.thieves && s.top <= s'.top && s.current <= s'.current
    requires s'.top == s.top && s.top < |s.log| ==> s.top < |s'.log| && s'.log[s.top] == s.log[s.top]
    requires s'.top == s.top ==> forall a: nat | a <= s.current && Holds(s, a, s.top) :: Holds(s', a, s.top)
    ensures forall i | 0 <= i < |s'.thieves| :: ThiefInv(s', s'.thieves[i])
  {
    forall i | 0 <= i < |s'.thieves| ensures ThiefInv(s', s'.thieves[i]) {
      ThiefKept(s, s', s.thieves[i]);
    }
  }

  /** A step of the owner that writes neither top, nor the heap, nor the log. */
  lemma OwnerMovesInv(s: State, s': State)
    requires Inv(s) && WellFormed(s') && OwnerInv(s')
    requires s' == s.(owner := s'.owner, bottom := s'.bottom, claimed := s'.claimed, popped := s'.popped)
    requires !s.owner.PushCopy? && !s'.owner.PushCopy?
    requires s'.popped + Tasks(s'.claimed) == s.popped + Tasks(s.claimed)
    ensures Inv(s')
  {
    assert s.popped + s.stolen + Tasks(s.claimed) == (s.popped + Tasks(s.claimed)) + s.stolen;
    assert s'.popped + s'.stolen + Tasks(s'.claimed) == (s'.popped + Tasks(s'.claimed)) + s'.stolen;
    assert forall a: nat, i: nat | Holds(s, a, i) :: Holds(s', a, i);
    ThievesKept(s, s');
  }

  lemma OwnerReadsTopInv(s: State, garbage: seq<Task>)
    requires Inv(s) && Enabled(s, OwnerStep(garbage))
    requires s.owner.PushTop? || s.owner.PopTop?
    ensures Inv(OwnerNext(s, garbage))
  {
    OwnerMovesInv(s, OwnerNext(s, garbage));
  }

  lemma OwnerPopReadInv(s: State, garbage: seq<Task>)
    requires Inv(s) && Enabled(s, OwnerStep(garbage))
    requires s.owner.PopBottom? || s.owner.PopArray?
    ensures Inv(OwnerNext(s, garbage))
  {
    OwnerMovesInv(s, OwnerNext(s, garbage));
  }

  lemma OwnerPushArrayInv(s: State, garbage: seq<Task>)
    requires Inv(s) && Enabled(s, OwnerStep(garbage))
    requires s.owner.PushArray?
    ensures Inv(OwnerNext(s, garbage))
  {
    var s' := OwnerNext(s, garbage);
    if s'.owner.PushPut? {
      OwnerMovesInv(s, s');
    } else {
      OwnerAllocatesInv(s, s', CircularArray(garbage, s.current));
    }
  }

  ghost predicate Allocates(s: State, s': State, a: CircularArray) {
    && s.current < |s.heap| && s.owner.PushArray?
    && |a.items| == 2 * |s.heap[s.current].items| && a.previous == s.current
    && s' == s.(heap := s.heap + [a], owner := PushCopy(s.owner.x, s.owner.b, s.owner.t, s.owner.t, |s.heap|))
  }

  lemma AllocatesHeap(s: State, s': State, a: CircularArray)
    requires Inv(s) && Allocates(s, s', a)
    ensures WellFormed(s') && HeapInv(s')
  {
    Pow2Double(|s.heap[s.current].items|);
    assert forall k | 0 <= k < |s.heap| :: s'.heap[k] == s.heap[k];
    assert s'.heap[|s.heap|] == a;
  }

  lemma OldArraysHold(s: State, s': State)
    requires WellFormed(s) && WellFormed(s') && s'.log == s.log
    requires |s.heap| <= |s'.heap| && s'.heap[..|s.heap|] == s.heap
    ensures forall c: nat, i: nat | Holds(s, c, i) :: Holds(s', c, i)
  {
    forall c: nat, i: nat | Holds(s, c, i) ensures Holds(s', c, i) {
      assert s'.heap[c] == s'.heap[..|s.heap|][c];
    }
  }

  lemma OwnerAllocatesInv(s: State, s': State, a: CircularArray)
    requires Inv(s) && s.owner.PushArray? && Allocates(s, s', a)
    requires s.owner.b - s.owner.t >= |s.heap[s.current].items|
    ensures Inv(s')
  {
    AllocatesHeap(s, s', a);
    OldArraysHold(s, s');
    ThievesKept(s, s');
  }

  /** One turn of the copy loop: the new array holds one more live index. */
  lemma CopyHolds(s: State, s': State, i: nat, copy: nat)
    requires Inv(s) && WellFormed(s') && s.owner.PushCopy? && s.owner.i == i < s.owner.b && s.owner.copy == copy
    requires s' == s.(heap := s.heap[copy := Put(s.heap[copy], i, Get(s.heap[s.current], i))], owner := s'.owner)
    ensures forall j: nat | s.top <= j < i + 1 :: Holds(s', copy, j)
  {
    assert s.top <= i ==> Holds(s, s.current, i);
    forall j: nat | s.top <= j < i + 1 ensures Holds(s', copy, j) {
      if j < i {
        assert Holds(s, copy, j);
        PutElsewhere(s.heap[copy], j, i, Get(s.heap[s.current], i));
      }
    }
  }

  lemma OwnerCopyInv(s: State, garbage: seq<Task>)
    requires Inv(s) && Enabled(s, OwnerStep(garbage))
    requires s.owner.PushCopy? && s.owner.i != s.owner.b
    ensures Inv(OwnerNext(s, garbage))
  {
    var s' := OwnerNext(s, garbage);
    assert forall a: nat, j: nat | a <= s.current && Holds(s, a, j) :: Holds(s', a, j);
    CopyHolds(s, s', s.owner.i, s.owner.copy);
    ThievesKept(s, s');
  }

  lemma OwnerPublishInv(s: State, garbage: seq<Task>)
    requires Inv(s) && Enabled(s, OwnerStep(garbage))
    requires s.owner.PushCopy? && s.owner.i == s.owner.b
    ensures Inv(OwnerNext(s, garbage))
  {
    var s' := OwnerNext(s, garbage);
    assert forall a: nat, j: nat | Holds(s, a, j) :: Holds(s', a, j);
    ThievesKept(s, s');
  }

  lemma OwnerPutInv(s: State, garbage: seq<Task>)
    requires Inv(s) && Enabled(s, OwnerStep(garbage))
    requires s.owner.PushPut?
    ensures Inv(OwnerNext(s, garbage))
  {
    var s' := OwnerNext(s, garbage);
    var PushPut(x, b, a) := s.owner;
    forall c: nat, j: nat | s.top <= j && Holds(s, c, j) ensures Holds(s', c, j) {
      if c == a { PutElsewhere(s.heap[a], j, b, x); }
    }
    ThievesKept(s, s');
  }

  lemma OwnerPushBottomInv(s: State, garbage: seq<Task>)
    requires Inv(s) && Enabled(s, OwnerStep(garbage))
    requires s.owner.PushBottom?
    ensures Inv(OwnerNext(s, garbage))
  {
    var s' := OwnerNext(s, garbage);
    assert forall a: nat, i: nat | Holds(s, a, i) :: Holds(s', a, i);
    assert Holds(s', s'.current, s.owner.b);
    assert s'.log[s.top..] == s.log[s.top..] + [s.owner.x];
    ThievesKept(s, s');
  }

  lemma OwnerPopTopAgainInv(s: State, garbage: seq<Task>)
    requires Inv(s) && Enabled(s, OwnerStep(garbage))
    requires s.owner.PopTopAgain?
    ensures Inv(OwnerNext(s, garbage))
  {
    if s.top < s.owner.b {
      OwnerClaimsInv(s, OwnerNext(s, garbage));
    } else {
      OwnerMovesInv(s, OwnerNext(s, garbage));
    }
  }

  lemma OwnerClaimsInv(s: State, s': State)
    requires Inv(s) && s.owner.PopTopAgain? && s.top < s.owner.b
    requires var b := s.owner.b;
             s' == s.(owner := PopArray(b, s.top), log := s.log[..b], claimed := Some(s.log[b]))
    ensures Inv(s')
  {
    var b := s.owner.b;
    assert Holds(s, s.current, b);
    assert s.log[s.top..] == s'.log[s.top..] + [s.log[b]];
    assert forall a: nat, i: nat | Holds(s, a, i) && i < |s'.log| :: Holds(s', a, i);
    ThievesKept(s, s');
  }

  lemma OwnerPopGetInv(s: State, garbage: seq<Task>)
    requires Inv(s) && Enabled(s, OwnerStep(garbage))
    requires s.owner.PopGet? || s.owner.PopRestore?
    ensures Inv(OwnerNext(s, garbage))
  {
    if s.owner.PopGet? && s.owner.t == s.owner.b == s.top {
      assert Holds(s, s.current, s.top);
    }
    OwnerMovesInv(s, OwnerNext(s, garbage));
  }

  lemma OwnerPopCasInv(s: State, garbage: seq<Task>)
    requires Inv(s) && Enabled(s, OwnerStep(garbage))
    requires s.owner.PopCas?
    ensures Inv(OwnerNext(s, garbage))
  {
    if s.top != s.owner.b {
      OwnerMovesInv(s, OwnerNext(s, garbage));
    } else {
      OwnerWinsInv(s, OwnerNext(s, garbage));
    }
  }

  lemma OwnerWinsInv(s: State, s': State)
    requires Inv(s) && s.owner.PopCas? && s.top == s.owner.b
    requires s' == s.(top := s.top + 1, owner := PopRestore(s.top, Some(s.owner.x)),
                      claimed := Some(s.log[s.top]))
    ensures Inv(s')
  {
    assert s.log[s.top..] == [s.log[s.top]] + s'.log[s'.top..];
    assert forall a: nat, i: nat | Holds(s, a, i) :: Holds(s', a, i);
    ThievesKept(s, s');
  }

  lemma OwnerNextInv(s: State, garbage: seq<Task>)
    requires Inv(s) && Enabled(s, OwnerStep(garbage))
    ensures Inv(OwnerNext(s, garbage))
  {
    match s.owner
    case PushArray(_, _, _) => OwnerPushArrayInv(s, garbage);
    case PushCopy(_, b, _, i, _) => if i != b { OwnerCopyInv(s, garbage); } else { OwnerPublishInv(s, garbage); }
    case PushPut(_, _, _) => OwnerPutInv(s, garbage);
    case PushBottom(_, _) => OwnerPushBottomInv(s, garbage);
    case PopTopAgain(_) => OwnerPopTopAgainInv(s, garbage);
    case PopGet(_, _, _) => OwnerPopGetInv(s, garbage);
    case PopRestore(_, _) => OwnerPopGetInv(s, garbage);
    case PopCas(_, _) => OwnerPopCasInv(s, garbage);
    case PopBottom(_) => OwnerPopReadInv(s, garbage);
    case PopArray(_, _) => OwnerPopReadInv(s, garbage);
    case _ => OwnerReadsTopInv(s, garbage);
  }

  /** A step of one thief that does not move top. */
  lemma ThiefMovesInv(s: State, s': State, i: nat)
    requires Inv(s) && WellFormed(s') && i < |s.thieves| == |s'.thieves|
    requires s' == s.(thieves := s.thieves[i := s'.thieves[i]])
    requires ThiefInv(s, s'.thieves[i])
    ensures Inv(s')
  {
    assert forall a: nat, j: nat | Holds(s, a, j) :: Holds(s', a, j);
    forall j | 0 <= j < |s'.thieves| ensures ThiefInv(s', s'.thieves[j]) {
      ThiefKept(s, s', s'.thieves[j]);
    }
  }

  /** Thieves that have read the same top lose it; the others have lost already. */
  lemma OtherThievesKept(s: State, s': State, i: nat)
    requires Inv(s) && WellFormed(s') && i < |s.thieves|
    requires s' == s.(top := s.top + 1, thieves := s.thieves[i := Away], stolen := s'.stolen)
    ensures forall j | 0 <= j < |s'.thieves| :: ThiefInv(s', s'.thieves[j])
  {
    forall j | 0 <= j < |s'.thieves| ensures ThiefInv(s', s'.thieves[j]) {
      if j != i { ThiefKept(s, s', s.thieves[j]); }
    }
  }

  ghost predicate ThiefWins(s: State, s': State, i: nat) {
    && i < |s.thieves| && s.thieves[i].StealCas? && s.thieves[i].t == s.top
    && s' == s.(top := s.top + 1, thieves := s.thieves[i := Away], stolen := s.stolen + multiset{s.thieves[i].x})
  }

  /** What the winner takes is the task that stops being live. */
  lemma ThiefWinConserves(s: State, s': State, i: nat)
    requires Inv(s) && ThiefWins(s, s', i)
    ensures s'.top <= |s'.log| && Conserved(s')
  {
    assert ThiefInv(s, s.thieves[i]);
    assert s.log[s.top..] == [s.log[s.top]] + s'.log[s'.top..];
  }

  /** The owner and the live part are as before, one index shorter. */
  lemma ThiefWinKeepsOwner(s: State, s': State, i: nat)
    requires Inv(s) && ThiefWins(s, s', i)
    ensures WellFormed(s') && HeapInv(s') && LiveInv(s') && OwnerInv(s')
  {
    assert ThiefInv(s, s.thieves[i]);
    assert forall a: nat, j: nat | Holds(s, a, j) :: Holds(s', a, j);
  }

  /** A successful compare-exchange takes the task at index top. */
  lemma ThiefWinsInv(s: State, s': State, i: nat)
    requires Inv(s) && ThiefWins(s, s', i)
    ensures Inv(s')
  {
    ThiefWinKeepsOwner(s, s', i);
    ThiefWinConserves(s, s', i);
    OtherThievesKept(s, s', i);
  }

  /** What a thief learns from one load is right. */
  lemma ThiefLearns(s: State, i: nat, spurious: bool)
    requires Inv(s) && Enabled(s, ThiefStep(i, spurious))
    requires ThiefNext(s, i, spurious).top == s.top
    ensures WellFormed(ThiefNext(s, i, spurious))
    ensures ThiefInv(s, ThiefNext(s, i, spurious).thieves[i])
  {
    assert ThiefInv(s, s.thieves[i]);
    if s.thieves[i].StealArray? && s.thieves[i].t == s.top {
      assert Holds(s, s.current, s.top);
    }
  }

  lemma ThiefNextInv(s: State, i: nat, spurious: bool)
    requires Inv(s) && Enabled(s, ThiefStep(i, spurious))
    ensures Inv(ThiefNext(s, i, spurious))
  {
    var s' := ThiefNext(s, i, spurious);
    if s'.top != s.top {
      ThiefWinsInv(s, s', i);
    } else {
      ThiefLearns(s, i, spurious);
      ThiefMovesInv(s, s', i);
    }
  }

  lemma NextInv(s: State, step: Step, s': State)
    requires Inv(s) && Next(s, step, s')
    ensures Inv(s')
  {
    match step
    case OwnerStep(garbage) => OwnerNextInv(s, garbage);
    case ThiefStep(i, spurious) => ThiefNextInv(s, i, spurious);
    case CallSteal(i) => ThiefMovesInv(s, s', i);
    case CallPush(x) => OwnerMovesInv(s, s');
    case CallPop => OwnerMovesInv(s, s');
  }

  lemma {:induction false} RunInv(run: Trace<State, Step>)
    requires Run(run)
    ensures Inv(run.Last())
  {
    match run
    case Start(s) => InitInv(s);
    case Then(before, step, s) => RunInv(before); NextInv(before.Last(), step, s);
  }
}
