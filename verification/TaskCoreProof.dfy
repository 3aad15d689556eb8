/** The inductive invariant of one task object. */
module TaskCoreProof {
  import opened Common
  import opened TaskCore

  /** Has this thread taken on finishing the task? */
  predicate Won(x: Producer) {
    !x.Claiming? && !x.Ready? && x != Finished(false)
  }

  predicate Matches(task: TaskState, payload: Payload) {
    && (task == Completed ==> payload.Holding? && payload.o.Value?)
    && (task == Canceled ==> payload.Holding? && payload.o.Error?)
  }

  /** Nobody has begun to finish the task. */
  predicate Untouched(s: State) {
    s.task == Pending && s.payload == Nothing && s.funcDestroyed == 0
  }

  predicate BeforeFinal(s: State) {
    !IsFinished(s.task) && s.finishes == 0 && s.flushes == 0 && !s.flushed && !s.data.locked
  }

  predicate AfterFinal(s: State) {
    && IsFinished(s.task) && Matches(s.task, s.payload) && s.finishes == 1
    && (s.hasFunc ==> s.funcDestroyed == 1)
  }

  /** What the position of the winning producer implies. */
  predicate PhaseInv(s: State, p: nat, x: Producer) {
    match x
    case WritePayload(_, destroy) =>
      && BeforeFinal(s) && s.payload == Nothing
      && (if s.hasFunc then
            && s.funcDestroyed == (if destroy then 0 else 1)
            && (s.task == Pending || (s.task == Unwrapped && !destroy))
          else s.task == Locked && !destroy)
    case DestroyAfter(o) =>
      BeforeFinal(s) && s.payload == Holding(o) && s.hasFunc && s.funcDestroyed == 0 && s.task == Pending
    case DestroyFirst(_) => BeforeFinal(s) && Untouched(s) && s.hasFunc
    case StoreUnwrapped(_) => BeforeFinal(s) && Untouched(s) && s.hasFunc
    case DestroyUnwrapped(_) =>
      BeforeFinal(s) && s.payload == Nothing && s.hasFunc && s.funcDestroyed == 0 && s.task == Unwrapped
    case AwaitChild(_) =>
      BeforeFinal(s) && s.payload == Nothing && s.hasFunc && s.funcDestroyed == 1 && s.task == Unwrapped
    case StoreFinal(o) =>
      && BeforeFinal(s) && s.payload == Holding(o)
      && (if s.hasFunc then s.funcDestroyed == 1 else s.task == Locked)
    case FlushLoad => AfterFinal(s) && s.flushes == 0 && !s.flushed && !s.data.locked
    case FlushCas(_) => AfterFinal(s) && s.flushes == 0 && !s.flushed && !s.data.locked
    case FlushMutex => AfterFinal(s) && s.flushes == 1 && !s.flushed && s.data == Data(Vector, true)
    case Flushing(i) =>
      && AfterFinal(s) && s.flushes == 1 && !s.flushed && s.data == Data(Vector, true)
      && s.mutex == ByProducer(p) && i <= |s.elements|
    case FlushInline(c) => AfterFinal(s) && s.flushes == 1 && !s.flushed && s.data == Data(Inline(c), true)
    case Finished(_) => AfterFinal(s) && s.flushes == 1 && s.flushed && s.data.locked && s.elements == []
    case _ => true
  }

  /** No producer other than p has won. */
  predicate Alone(s: State, p: nat) {
    forall q: nat | q < |s.producers| && q != p :: !Won(s.producers[q])
  }

  predicate ProducersInv(s: State) {
    && (s.hasFunc ==> |s.producers| == 1 && !s.producers[0].Claiming? && s.producers[0] != Finished(false))
    && (!s.hasFunc ==> s.funcDestroyed == 0 && forall p | 0 <= p < |s.producers| :: !s.producers[p].Ready?)
    && (forall p: nat | p < |s.producers| && Won(s.producers[p]) :: Alone(s, p))
    && (forall p: nat | p < |s.producers| && Won(s.producers[p]) :: PhaseInv(s, p, s.producers[p]))
    && ((forall p | 0 <= p < |s.producers| :: !Won(s.producers[p])) ==> Untouched(s) && BeforeFinal(s))
    && (forall p | 0 <= p < |s.producers| && s.producers[p] == Finished(false) :: s.task != Pending)
  }

  predicate AdderInv(s: State, i: nat, a: Adder) {
    match a
    case AddCas(seen, spare) =>
      && !seen.locked
      && (seen.ptr == Null ==> spare == None)
      && (seen.ptr.Inline? ==> spare == Some(seen.ptr.c))
      && seen.ptr != Vector
      && (spare.Some? ==> s.data.ptr == Inline(spare.value) || s.data.ptr == Vector)
    case AddMutex => s.data.ptr == Vector
    case AddRecheck => s.data.ptr == Vector && s.mutex == ByAdder(i)
    case AddPush => s.data.ptr == Vector && s.mutex == ByAdder(i) && !s.flushed
    case AddDirect => IsFinished(s.task)
    case _ => true
  }

  predicate MutexInv(s: State) {
    && (s.data.ptr != Vector ==> s.elements == [] && s.mutex == Nobody)
    && (s.mutex.ByAdder? ==>
          s.mutex.i < |s.adders| && (s.adders[s.mutex.i] == AddRecheck || s.adders[s.mutex.i] == AddPush))
    && (s.mutex.ByProducer? ==> s.mutex.p < |s.producers| && s.producers[s.mutex.p].Flushing?)
    && (!IsFinished(s.task) ==> s.scheduled == [])
  }

  /** How many elements of the vector the flush has scheduled so far. */
  function FlushPos(s: State): nat {
    if s.mutex.ByProducer? && s.mutex.p < |s.producers| && s.producers[s.mutex.p].Flushing?
    then s.producers[s.mutex.p].i else 0
  }

  /** The continuations that the vector still has to deliver. */
  function Stored(s: State): multiset<nat>
    requires FlushPos(s) <= |s.elements|
  {
    match s.data.ptr
    case Null => multiset{}
    case Inline(c) => if s.flushed then multiset{} else multiset{c}
    case Vector => multiset(s.elements[FlushPos(s)..])
  }

  /** Every added continuation is stored or scheduled, once; nothing else is. */
  ghost predicate Conserved(s: State) {
    && FlushPos(s) <= |s.elements|
    && s.added == Stored(s) + multiset(s.scheduled)
    && (forall i: nat :: s.added[i] == if i < |s.adders| && s.adders[i] == AddDone then 1 else 0)
  }

  ghost predicate Inv(s: State) {
    && !s.deleted && s.dropped == multiset{}
    && ProducersInv(s) && MutexInv(s) && Conserved(s)
    && forall i: nat | i < |s.adders| :: AdderInv(s, i, s.adders[i])
  }

  lemma InitInv(s: State)
    requires Init(s)
    ensures Inv(s)
  {
  }

  // ----- Adders -----

  /** The producers' part of the invariant survives what adders may change. */
  lemma ProducersKept(s: State, s': State)
    requires ProducersInv(s)
    requires s' == s.(adders := s'.adders, mutex := s'.mutex, data := s'.data, elements := s'.elements,
                      added := s'.added, scheduled := s'.scheduled)
    requires s'.data != s.data ==> !s.data.locked && !s'.data.locked
    requires s'.mutex != s.mutex ==> !s.mutex.ByProducer?
    requires s'.elements != s.elements ==> !s.flushed && !s.mutex.ByProducer?
    ensures ProducersInv(s')
  {
    forall p: nat | p < |s'.producers| && Won(s'.producers[p]) ensures PhaseInv(s', p, s'.producers[p]) {
      assert PhaseInv(s, p, s.producers[p]);
    }
  }

  /** An adder that has only read, or locked or unlocked the mutex. */
  predicate AdderMoves(s: State, s': State, i: nat) {
    && i < |s.adders| == |s'.adders|
    && s' == s.(adders := s.adders[i := s'.adders[i]], mutex := s'.mutex)
    && s.adders[i] != AddDone && s'.adders[i] != AddDone
    && (s.mutex == ByAdder(i) || s.mutex == Nobody || s'.mutex == s.mutex)
    && (s.data.ptr != Vector ==> s'.mutex == Nobody)
    && (s'.mutex == Nobody || s'.mutex == ByAdder(i) || (s'.mutex == s.mutex && s.mutex != ByAdder(i)))
    && (s'.mutex == ByAdder(i) <==> s'.adders[i] == AddRecheck || s'.adders[i] == AddPush)
  }

  lemma AdderMovesMutex(s: State, s': State, i: nat)
    requires Inv(s) && AdderMoves(s, s', i)
    ensures MutexInv(s')
  {
  }

  lemma AdderMovesRest(s: State, s': State, i: nat)
    requires Conserved(s) && AdderMoves(s, s', i)
    ensures Conserved(s')
  {
    assert FlushPos(s') == FlushPos(s);
    assert Stored(s') == Stored(s);
  }

  lemma AdderMovesInv(s: State, s': State, i: nat)
    requires Inv(s) && AdderMoves(s, s', i) && AdderInv(s', i, s'.adders[i])
    ensures Inv(s')
  {
    ProducersKept(s, s');
    AdderMovesMutex(s, s', i);
    AdderMovesRest(s, s', i);
    OtherAddersKept(s, s', i);
  }

  lemma OtherAddersKept(s: State, s': State, i: nat)
    requires Inv(s) && i < |s.adders| == |s'.adders|
    requires s' == s.(adders := s.adders[i := s'.adders[i]], mutex := s'.mutex)
    requires AdderInv(s', i, s'.adders[i])
    requires s.mutex == ByAdder(i) || s.mutex == Nobody || s'.mutex == s.mutex
    ensures forall j: nat | j < |s'.adders| :: AdderInv(s', j, s'.adders[j])
  {
    forall j: nat | j < |s'.adders| ensures AdderInv(s', j, s'.adders[j]) {
      assert AdderInv(s, j, s.adders[j]);
    }
  }

  lemma AdderReadsInv(s: State, i: nat, spurious: bool)
    requires Inv(s) && Enabled(s, AdderStep(i, spurious)) && (s.adders[i] == AddStart || s.adders[i] == AddLoad)
    ensures Inv(AdderNext(s, i, spurious))
  {
    LockedIsFinal(s);
    AdderMovesInv(s, AdderNext(s, i, spurious), i);
  }

  lemma AdderLocksInv(s: State, i: nat, spurious: bool)
    requires Inv(s) && Enabled(s, AdderStep(i, spurious)) && (s.adders[i] == AddMutex || s.adders[i] == AddRecheck)
    ensures Inv(AdderNext(s, i, spurious))
  {
    assert AdderInv(s, i, s.adders[i]);
    LockedIsFinal(s);
    FlushedIsLocked(s);
    AdderMovesInv(s, AdderNext(s, i, spurious), i);
  }

  /** The lock flag is set only after the final state has been stored. */
  lemma LockedIsFinal(s: State)
    requires Inv(s)
    ensures s.data.locked ==> IsFinished(s.task)
    ensures !IsFinished(s.task) ==> s.flushes == s.finishes == 0
  {
    if p: nat :| p < |s.producers| && Won(s.producers[p]) {
      assert PhaseInv(s, p, s.producers[p]);
    }
  }

  lemma AdderCasFailsInv(s: State, i: nat)
    requires Inv(s) && i < |s.adders| && s.adders[i].AddCas?
    ensures Inv(SetAdder(s, i, Decide(s.data, s.adders[i].spare)))
  {
    assert AdderInv(s, i, s.adders[i]);
    LockedIsFinal(s);
    AdderMovesInv(s, SetAdder(s, i, Decide(s.data, s.adders[i].spare)), i);
  }

  lemma AdderCasInv(s: State, i: nat, spurious: bool)
    requires Inv(s) && Enabled(s, AdderStep(i, spurious)) && s.adders[i].AddCas?
    ensures Inv(AdderNext(s, i, spurious))
  {
    var AddCas(seen, spare) := s.adders[i];
    assert AdderInv(s, i, s.adders[i]);
    if s.data != seen || spurious {
      AdderCasFailsInv(s, i);
    } else if spare.Some? {
      AdderMakesVectorInv(s, spare.value, i);
    } else {
      AdderStoresInlineInv(s, i);
    }
  }

  /** The other adders' knowledge survives a change of an unlocked pointer that only goes forward. */
  lemma AddersKept(s: State, s': State, i: nat)
    requires Inv(s) && i < |s.adders| && s'.adders == s.adders[i := AddDone]
    requires IsFinished(s.task) ==> IsFinished(s'.task)
    requires s'.data.ptr == s.data.ptr || s.data.ptr == Null || s'.data.ptr == Vector
    requires s.data.ptr == Vector ==> s'.data.ptr == Vector
    requires s'.mutex == s.mutex || s.mutex == ByAdder(i)
    requires s'.flushed == s.flushed
    ensures forall j: nat | j < |s'.adders| :: AdderInv(s', j, s'.adders[j])
  {
    forall j: nat | j < |s'.adders| ensures AdderInv(s', j, s'.adders[j]) {
      if j != i { assert AdderInv(s, j, s.adders[j]); }
    }
  }

  lemma AdderStoresInlineInv(s: State, i: nat)
    requires Inv(s) && i < |s.adders| && s.adders[i] != AddDone && s.data == Data(Null, false)
    requires s.mutex != ByAdder(i)
    ensures Inv(SetAdder(s, i, AddDone).(data := Data(Inline(i), false), added := s.added + multiset{i}))
  {
    var s' := SetAdder(s, i, AddDone).(data := Data(Inline(i), false), added := s.added + multiset{i});
    ProducersKept(s, s');
    AddersKept(s, s', i);
    assert !s.flushed by { FlushedIsLocked(s); }
    assert Stored(s') == Stored(s) + multiset{i};
  }

  lemma FlushedIsLocked(s: State)
    requires Inv(s)
    ensures s.flushed ==> s.data.locked
  {
    if p: nat :| p < |s.producers| && Won(s.producers[p]) {
      assert PhaseInv(s, p, s.producers[p]);
    }
  }

  /** Going from one element to two: the vector allocated earlier still copies the right one. */
  lemma AdderMakesVectorInv(s: State, c: nat, i: nat)
    requires Inv(s) && i < |s.adders| && s.adders[i] != AddDone && s.data == Data(Inline(c), false)
    ensures Inv(SetAdder(s, i, AddDone).(data := Data(Vector, false), elements := [c, i],
                                         added := s.added + multiset{i}))
  {
    var s' := SetAdder(s, i, AddDone).(data := Data(Vector, false), elements := [c, i], added := s.added + multiset{i});
    FlushedIsLocked(s);
    ProducersKept(s, s');
    AddersKept(s, s', i);
    assert s'.elements[0..] == [c, i];
    assert Stored(s') == Stored(s) + multiset{i};
  }

  lemma AdderPushInv(s: State, i: nat)
    requires Inv(s) && i < |s.adders| && s.adders[i] == AddPush
    ensures Inv(SetAdder(s, i, AddDone).(elements := s.elements + [i], mutex := Nobody, added := s.added + multiset{i}))
  {
    var s' := SetAdder(s, i, AddDone).(elements := s.elements + [i], mutex := Nobody, added := s.added + multiset{i});
    assert AdderInv(s, i, s.adders[i]);
    ProducersKept(s, s');
    AddersKept(s, s', i);
    assert s'.elements[0..] == s.elements[0..] + [i];
    assert Stored(s') == Stored(s) + multiset{i};
  }

  lemma AdderDirectConserves(s: State, s': State, i: nat)
    requires Inv(s) && i < |s.adders| && s.adders[i] == AddDirect
    requires s' == SetAdder(s, i, AddDone).(scheduled := s.scheduled + [i], added := s.added + multiset{i})
    ensures Conserved(s')
  {
    assert FlushPos(s') == FlushPos(s) && Stored(s') == Stored(s);
    assert multiset(s'.scheduled) == multiset(s.scheduled) + multiset{i};
  }

  lemma AdderDirectInv(s: State, i: nat)
    requires Inv(s) && i < |s.adders| && s.adders[i] == AddDirect
    ensures Inv(SetAdder(s, i, AddDone).(scheduled := s.scheduled + [i], added := s.added + multiset{i}))
  {
    var s' := SetAdder(s, i, AddDone).(scheduled := s.scheduled + [i], added := s.added + multiset{i});
    assert AdderInv(s, i, s.adders[i]);
    ProducersKept(s, s');
    AddersKept(s, s', i);
    AdderDirectConserves(s, s', i);
  }

  lemma AdderNextInv(s: State, i: nat, spurious: bool)
    requires Inv(s) && Enabled(s, AdderStep(i, spurious))
    ensures Inv(AdderNext(s, i, spurious))
  {
    match s.adders[i]
    case AddCas(_, _) => AdderCasInv(s, i, spurious);
    case AddPush => AdderPushInv(s, i);
    case AddDirect => AdderDirectInv(s, i);
    case AddMutex => AdderLocksInv(s, i, spurious);
    case AddRecheck => AdderLocksInv(s, i, spurious);
    case _ => AdderReadsInv(s, i, spurious);
  }

  // ----- Producers -----

  /** What the adders know survives a step of a producer. */
  lemma AddersSame(s: State, s': State)
    requires Inv(s) && s'.adders == s.adders && s'.data.ptr == s.data.ptr
    requires IsFinished(s.task) ==> IsFinished(s'.task)
    requires s.mutex.ByAdder? ==> s'.mutex == s.mutex
    requires s'.flushed != s.flushed ==> s.data.ptr != Vector || s.mutex.ByProducer?
    ensures forall j: nat | j < |s'.adders| :: AdderInv(s', j, s'.adders[j])
  {
    forall j: nat | j < |s'.adders| ensures AdderInv(s', j, s'.adders[j]) {
      assert AdderInv(s, j, s.adders[j]);
    }
  }

  /** The producers' part of the invariant after a step of the winner, or of the one that wins. */
  lemma WinnerProducers(s: State, s': State, p: nat, x: Producer)
    requires ProducersInv(s) && p < |s.producers| && Alone(s, p)
    requires s'.producers == s.producers[p := x] && s'.hasFunc == s.hasFunc
    requires Won(x) && PhaseInv(s', p, x) && s.producers[p] != Finished(false)
    requires !s.hasFunc ==> s'.funcDestroyed == 0
    requires s.task != Pending ==> s'.task != Pending
    ensures ProducersInv(s')
  {
    assert s'.producers[p] == x;
    assert Alone(s', p);
    forall q: nat | q < |s'.producers| && Won(s'.producers[q])
      ensures PhaseInv(s', q, s'.producers[q]) && Alone(s', q)
    {
      assert q == p;
    }
  }

  /** A step of the winner that touches neither the pointer nor the elements nor the mutex. */
  lemma WinnerMovesInv(s: State, s': State, p: nat, x: Producer)
    requires Inv(s) && p < |s.producers| && Alone(s, p)
    requires s' == s.(producers := s.producers[p := x], task := s'.task, payload := s'.payload,
                      funcDestroyed := s'.funcDestroyed, finishes := s'.finishes)
    requires Won(x) && PhaseInv(s', p, x) && s.producers[p] != Finished(false)
    requires !x.Flushing? && !s.producers[p].Flushing?
    requires IsFinished(s.task) ==> IsFinished(s'.task)
    requires s.task != Pending ==> s'.task != Pending
    requires !s.hasFunc ==> s'.funcDestroyed == 0
    ensures Inv(s')
  {
    WinnerProducers(s, s', p, x);
    assert FlushPos(s') == FlushPos(s);
    AddersSame(s, s');
  }

  lemma ClaimLostInv(s: State, p: nat)
    requires Inv(s) && p < |s.producers| && s.producers[p].Claiming? && s.task != Pending
    ensures Inv(SetProducer(s, p, Finished(false)))
  {
    var s' := SetProducer(s, p, Finished(false));
    if forall q | 0 <= q < |s'.producers| :: !Won(s'.producers[q]) {
      assert forall q | 0 <= q < |s.producers| && q != p :: s.producers[q] == s'.producers[q];
    }
    forall q: nat | q < |s'.producers| && Won(s'.producers[q])
      ensures PhaseInv(s', q, s'.producers[q]) && Alone(s', q)
    {
      assert s.producers[q] == s'.producers[q];
    }
    assert FlushPos(s') == FlushPos(s);
    AddersSame(s, s');
  }

  /** Before anybody has won, the task is untouched, and whoever steps first is alone. */
  lemma FirstToWin(s: State, p: nat)
    requires Inv(s) && p < |s.producers| && !Won(s.producers[p])
    requires s.producers[p].Ready? || (s.producers[p].Claiming? && s.task == Pending)
    ensures Alone(s, p) && Untouched(s) && BeforeFinal(s)
  {
    assert Alone(s, p) by {
      forall q: nat | q < |s.producers| && q != p ensures !Won(s.producers[q]) {
      }
    }
  }

  lemma BeginInv(s: State, p: nat, spurious: bool)
    requires Inv(s) && Enabled(s, ProducerStep(p, spurious))
    requires s.producers[p].Ready? || (s.producers[p].Claiming? && s.task == Pending)
    ensures Inv(ProducerNext(s, p, spurious))
  {
    var s' := ProducerNext(s, p, spurious);
    if s.hasFunc { assert Alone(s, p); }
    FirstToWin(s, p);
    WinnerMovesInv(s, s', p, s'.producers[p]);
  }

  /** The winner's steps up to and including the loads of the pointer. */
  lemma WinnerStepInv(s: State, p: nat, spurious: bool)
    requires Inv(s) && Enabled(s, ProducerStep(p, spurious)) && Won(s.producers[p])
    requires !s.producers[p].FlushMutex? && !s.producers[p].Flushing? && !s.producers[p].FlushInline?
    requires s.producers[p].FlushCas? ==> s.data != s.producers[p].seen || spurious
    ensures Inv(ProducerNext(s, p, spurious))
  {
    var s' := ProducerNext(s, p, spurious);
    assert PhaseInv(s, p, s.producers[p]);
    WinnerMovesInv(s, s', p, s'.producers[p]);
  }

  /** Setting the lock flag: from here on no adder can store anything inline. */
  lemma FlushLocksInv(s: State, p: nat, spurious: bool)
    requires Inv(s) && Enabled(s, ProducerStep(p, spurious)) && s.producers[p].FlushCas?
    requires s.data == s.producers[p].seen && !spurious
    ensures Inv(ProducerNext(s, p, spurious))
  {
    var s' := ProducerNext(s, p, spurious);
    assert s' == SetLockFlag(s, p);
    assert PhaseInv(s, p, s.producers[p]);
    WinnerProducers(s, s', p, AfterLock(s.data.ptr));
    assert FlushPos(s') == FlushPos(s);
    AddersSame(s, s');
  }

  lemma FlushTakesMutexInv(s: State, p: nat, spurious: bool)
    requires Inv(s) && Enabled(s, ProducerStep(p, spurious)) && s.producers[p] == FlushMutex
    ensures Inv(ProducerNext(s, p, spurious))
  {
    var s' := ProducerNext(s, p, spurious);
    assert PhaseInv(s, p, s.producers[p]);
    WinnerProducers(s, s', p, Flushing(0));
    assert FlushPos(s') == FlushPos(s);
    AddersSame(s, s');
  }

  lemma OneFewer(q: seq<nat>, i: nat)
    requires i < |q|
    ensures multiset(q[i..]) == multiset(q[i + 1..]) + multiset{q[i]}
  {
    assert q[i..] == [q[i]] + q[i + 1..];
  }

  lemma MoveOne(stored: multiset<nat>, left: multiset<nat>, scheduled: seq<nat>, x: nat)
    requires stored == left + multiset{x}
    ensures stored + multiset(scheduled) == left + multiset(scheduled + [x])
  {
  }

  lemma FlushElementConserves(s: State, s': State, p: nat, i: nat)
    requires Conserved(s) && p < |s.producers| && s.producers[p] == Flushing(i) && i < |s.elements|
    requires s.data.ptr == Vector && s.mutex == ByProducer(p)
    requires s' == SetProducer(s, p, Flushing(i + 1)).(scheduled := s.scheduled + [s.elements[i]])
    ensures Conserved(s')
  {
    OneFewer(s.elements, i);
    MoveOne(Stored(s), multiset(s.elements[i + 1..]), s.scheduled, s.elements[i]);
  }

  lemma FlushElementInv(s: State, p: nat, i: nat)
    requires Inv(s) && p < |s.producers| && s.producers[p] == Flushing(i) && i < |s.elements|
    ensures Inv(SetProducer(s, p, Flushing(i + 1)).(scheduled := s.scheduled + [s.elements[i]]))
  {
    var s' := SetProducer(s, p, Flushing(i + 1)).(scheduled := s.scheduled + [s.elements[i]]);
    assert PhaseInv(s, p, s.producers[p]);
    WinnerProducers(s, s', p, Flushing(i + 1));
    FlushElementConserves(s, s', p, i);
    AddersSame(s, s');
  }

  lemma FlushEndsInv(s: State, p: nat)
    requires Inv(s) && p < |s.producers| && s.producers[p] == Flushing(|s.elements|)
    ensures Inv(SetProducer(s, p, Finished(true)).(elements := [], mutex := Nobody, flushed := true))
  {
    var s' := SetProducer(s, p, Finished(true)).(elements := [], mutex := Nobody, flushed := true);
    assert PhaseInv(s, p, s.producers[p]);
    WinnerProducers(s, s', p, Finished(true));
    assert Stored(s) == Stored(s') == multiset{};
    AddersSame(s, s');
  }

  lemma FlushInlineInv(s: State, p: nat, spurious: bool)
    requires Inv(s) && Enabled(s, ProducerStep(p, spurious)) && s.producers[p].FlushInline?
    ensures Inv(ProducerNext(s, p, spurious))
  {
    var s' := ProducerNext(s, p, spurious);
    var c := s.producers[p].c;
    assert PhaseInv(s, p, s.producers[p]);
    WinnerProducers(s, s', p, Finished(true));
    assert Stored(s) == Stored(s') + multiset{c};
    AddersSame(s, s');
  }

  lemma FlushingStepInv(s: State, p: nat, spurious: bool)
    requires Inv(s) && Enabled(s, ProducerStep(p, spurious)) && s.producers[p].Flushing?
    ensures Inv(ProducerNext(s, p, spurious))
  {
    var i := s.producers[p].i;
    if i < |s.elements| {
      assert ProducerNext(s, p, spurious) ==
             SetProducer(s, p, Flushing(i + 1)).(scheduled := s.scheduled + [s.elements[i]]);
      FlushElementInv(s, p, i);
    } else {
      assert PhaseInv(s, p, s.producers[p]);
      assert ProducerNext(s, p, spurious) ==
             SetProducer(s, p, Finished(true)).(elements := [], mutex := Nobody, flushed := true);
      FlushEndsInv(s, p);
    }
  }

  lemma ProducerNextInv(s: State, p: nat, spurious: bool)
    requires Inv(s) && Enabled(s, ProducerStep(p, spurious))
    ensures Inv(ProducerNext(s, p, spurious))
  {
    match s.producers[p]
    case Claiming(_) => if s.task == Pending { BeginInv(s, p, spurious); } else { ClaimLostInv(s, p); }
    case Ready(_) => BeginInv(s, p, spurious);
    case FlushMutex => FlushTakesMutexInv(s, p, spurious);
    case Flushing(_) => FlushingStepInv(s, p, spurious);
    case FlushInline(_) => FlushInlineInv(s, p, spurious);
    case FlushCas(seen) =>
      if s.data == seen && !spurious { FlushLocksInv(s, p, spurious); } else { WinnerStepInv(s, p, spurious); }
    case _ => WinnerStepInv(s, p, spurious);
  }

  lemma NextInv(s: State, step: Step, s': State)
    requires Inv(s) && Next(s, step, s') && step != Delete
    ensures Inv(s')
  {
    match step
    case AdderStep(i, spurious) => AdderNextInv(s, i, spurious);
    case ProducerStep(p, spurious) => ProducerNextInv(s, p, spurious);
  }

  /** In every run the invariant holds until the task is deleted, which is the last step. */
  lemma {:induction false} RunInv(run: Trace<State, Step>)
    requires Run(run)
    ensures !run.Last().deleted ==> Inv(run.Last())
    ensures run.Last().deleted ==> run.Then? && run.step == Delete && !run.before.Last().deleted
  {
    match run
    case Start(s) => InitInv(s);
    case Then(before, step, s) =>
      RunInv(before);
      if step != Delete { NextInv(before.Last(), step, s); }
  }
}
