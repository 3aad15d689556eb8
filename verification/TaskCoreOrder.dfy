/** Continuations that were stored are flushed in the order in which they were stored, and every
thread that takes part comes to its end. */
module TaskCoreOrder {
  import opened Common
  import opened TaskCore
  import opened TaskCoreProof
  import opened TaskCoreTheorems
  import opened TaskCoreOutcome

  // ----- First stored, first scheduled -----

  /** The adders that a step completes by storing their continuation, rather than scheduling it. */
  function Storing(s: State, step: Step, s': State): seq<nat> {
    match step
    case AdderStep(i, _) =>
      if i < |s.adders| == |s'.adders| && s.adders[i] != AddDirect && s'.adders[i] == AddDone then [i] else []
    case _ => []
  }

  /** The continuations stored so far, in that order. */
  function StoredSoFar(run: Trace<State, Step>): seq<nat> {
    match run
    case Start(_) => []
    case Then(before, step, s) => StoredSoFar(before) + Storing(before.Last(), step, s)
  }

  /** The continuations that the finishing thread has scheduled so far, in that order. */
  function FlushedSoFar(run: Trace<State, Step>): seq<nat> {
    match run
    case Start(_) => []
    case Then(before, step, s) =>
      if step.ProducerStep? && |before.Last().scheduled| <= |s.scheduled| then
        FlushedSoFar(before) + s.scheduled[|before.Last().scheduled|..]
      else FlushedSoFar(before)
  }

  /** What the vector holds, in its order. */
  function Held(s: State): seq<nat> {
    match s.data.ptr
    case Null => []
    case Inline(c) => [c]
    case Vector => s.elements
  }

  ghost predicate OrderInv(s: State, stored: seq<nat>, flushed: seq<nat>) {
    if s.flushed then flushed == stored
    else FlushPos(s) <= |Held(s)| && stored == Held(s) && flushed == Held(s)[..FlushPos(s)]
  }

  /** A step of an adder stores at the end, and only before the flush is over. */
  ghost predicate Stores(s: State, s': State, stored: seq<nat>) {
    && Held(s') == Held(s) + stored && s'.flushed == s.flushed && FlushPos(s') == FlushPos(s)
    && (stored != [] ==> !s.flushed)
  }

  /** Nobody but a flushing thread counts for the position in the flush. */
  lemma PosKept(s: State, s': State)
    requires s'.producers == s.producers && (s'.mutex == s.mutex || (!s.mutex.ByProducer? && !s'.mutex.ByProducer?))
    ensures FlushPos(s') == FlushPos(s)
  {
  }

  lemma InlineStores(s: State, i: nat)
    requires i < |s.adders| && s.data == Data(Null, false) && !s.flushed
    ensures Stores(s, SetAdder(s, i, AddDone).(data := Data(Inline(i), false), added := s.added + multiset{i}), [i])
  {
    PosKept(s, SetAdder(s, i, AddDone).(data := Data(Inline(i), false), added := s.added + multiset{i}));
  }

  lemma VectorStores(s: State, i: nat, c: nat)
    requires i < |s.adders| && s.data == Data(Inline(c), false) && !s.flushed
    ensures Stores(s, SetAdder(s, i, AddDone).(data := Data(Vector, false), elements := [c, i],
                                               added := s.added + multiset{i}), [i])
  {
    PosKept(s, SetAdder(s, i, AddDone).(data := Data(Vector, false), elements := [c, i],
                                        added := s.added + multiset{i}));
  }

  /** What a compare-exchange that succeeds does to the task. */
  lemma CasDoes(s: State, i: nat, spurious: bool)
    requires Enabled(s, AdderStep(i, spurious)) && s.adders[i].AddCas? && AdderInv(s, i, s.adders[i])
    ensures var AddCas(seen, spare) := s.adders[i];
            AdderNext(s, i, spurious) ==
            if s.data != seen || spurious then SetAdder(s, i, Decide(s.data, spare))
            else if spare.Some? then
              SetAdder(s, i, AddDone).(data := Data(Vector, false), elements := [spare.value, i],
                                       added := s.added + multiset{i})
            else SetAdder(s, i, AddDone).(data := Data(Inline(i), false), added := s.added + multiset{i})
  {
  }

  lemma CasStores(s: State, s': State, i: nat, seen: Data, spare: Option<nat>, spurious: bool)
    requires i < |s.adders| && s.adders[i] == AddCas(seen, spare) && AdderInv(s, i, s.adders[i])
    requires s.flushed ==> s.data.locked
    requires s' == if s.data != seen || spurious then SetAdder(s, i, Decide(s.data, spare))
                   else if spare.Some? then
                     SetAdder(s, i, AddDone).(data := Data(Vector, false), elements := [spare.value, i],
                                              added := s.added + multiset{i})
                   else SetAdder(s, i, AddDone).(data := Data(Inline(i), false), added := s.added + multiset{i})
    ensures Stores(s, s', Storing(s, AdderStep(i, spurious), s'))
  {
    if s.data != seen || spurious {
      PosKept(s, s');
    } else if spare.Some? {
      VectorStores(s, i, spare.value);
    } else {
      InlineStores(s, i);
    }
  }

  lemma PushStores(s: State, i: nat, spurious: bool)
    requires Inv(s) && Enabled(s, AdderStep(i, spurious)) && s.adders[i].AddPush?
    ensures Stores(s, AdderNext(s, i, spurious), Storing(s, AdderStep(i, spurious), AdderNext(s, i, spurious)))
  {
    assert AdderInv(s, i, s.adders[i]);
    PosKept(s, AdderNext(s, i, spurious));
  }

  /** An adder that stores nothing leaves what is held alone. */
  lemma OtherKeeps(s: State, i: nat, spurious: bool)
    requires Enabled(s, AdderStep(i, spurious)) && !s.adders[i].AddCas? && !s.adders[i].AddPush?
    ensures var s' := AdderNext(s, i, spurious);
            && s'.data == s.data && s'.elements == s.elements && s'.flushed == s.flushed
            && s'.producers == s.producers
            && (s'.mutex == s.mutex || s.adders[i] == AddMutex || s.adders[i] == AddRecheck)
            && !(s'.mutex.ByProducer? && s'.mutex != s.mutex)
            && Storing(s, AdderStep(i, spurious), s') == []
  {
  }

  lemma OtherStores(s: State, i: nat, spurious: bool)
    requires Inv(s) && Enabled(s, AdderStep(i, spurious)) && !s.adders[i].AddCas? && !s.adders[i].AddPush?
    ensures Stores(s, AdderNext(s, i, spurious), Storing(s, AdderStep(i, spurious), AdderNext(s, i, spurious)))
  {
    assert AdderInv(s, i, s.adders[i]);
    OtherKeeps(s, i, spurious);
    PosKept(s, AdderNext(s, i, spurious));
  }

  lemma AdderStores(s: State, i: nat, spurious: bool)
    requires Inv(s) && Enabled(s, AdderStep(i, spurious))
    ensures Stores(s, AdderNext(s, i, spurious), Storing(s, AdderStep(i, spurious), AdderNext(s, i, spurious)))
  {
    match s.adders[i]
    case AddCas(seen, spare) =>
      assert AdderInv(s, i, s.adders[i]);
      FlushedIsLocked(s);
      CasDoes(s, i, spurious);
      CasStores(s, AdderNext(s, i, spurious), i, seen, spare, spurious);
    case AddPush => PushStores(s, i, spurious);
    case _ => OtherStores(s, i, spurious);
  }

  /** A step of the finishing thread schedules `more`, the next of what is held, or nothing. */
  ghost predicate Flushes(s: State, s': State, more: seq<nat>) {
    && s'.scheduled == s.scheduled + more
    && if s.flushed then s'.flushed && more == []
       else
         && FlushPos(s) <= |Held(s)|
         && if s'.flushed then Held(s)[FlushPos(s)..] == more
            else
              && Held(s') == Held(s) && FlushPos(s') == FlushPos(s) + |more| <= |Held(s)|
              && more == Held(s)[FlushPos(s)..FlushPos(s')]
  }

  lemma FlushingFlushes(s: State, p: nat, spurious: bool)
    requires Inv(s) && Enabled(s, ProducerStep(p, spurious)) && s.producers[p].Flushing?
    ensures var i := s.producers[p].i;
            Flushes(s, ProducerNext(s, p, spurious), if i < |s.elements| then [s.elements[i]] else [])
  {
    var i := s.producers[p].i;
    WinnerPhase(s, p);
    assert FlushPos(s) == i;
    if i < |s.elements| {
      assert ProducerNext(s, p, spurious) ==
             SetProducer(s, p, Flushing(i + 1)).(scheduled := s.scheduled + [s.elements[i]]);
    }
  }

  lemma InlineFlushes(s: State, p: nat, spurious: bool)
    requires Inv(s) && Enabled(s, ProducerStep(p, spurious)) && s.producers[p].FlushInline?
    ensures Flushes(s, ProducerNext(s, p, spurious), [s.producers[p].c])
  {
    WinnerPhase(s, p);
    assert s.mutex == Nobody;
  }

  /** Before the flush proper nothing is scheduled. */
  lemma QuietFlushes(s: State, p: nat, spurious: bool)
    requires Inv(s) && Enabled(s, ProducerStep(p, spurious))
    requires !s.producers[p].Flushing? && !s.producers[p].FlushInline?
    ensures Flushes(s, ProducerNext(s, p, spurious), [])
  {
    match s.producers[p]
    case FlushCas(_) => CasFlushes(s, p, spurious);
    case FlushMutex => MutexFlushes(s, p, spurious);
    case _ => PosFits(s); EarlyFlushes(s, p, spurious);
  }

  /** A step by which p neither begins nor goes on flushing. */
  lemma PosStays(s: State, s': State, p: nat)
    requires s'.mutex == s.mutex && p < |s.producers| == |s'.producers|
    requires forall q | 0 <= q < |s.producers| && q != p :: s'.producers[q] == s.producers[q]
    requires !s.producers[p].Flushing? && !s'.producers[p].Flushing?
    ensures FlushPos(s') == FlushPos(s)
  {
  }

  lemma CasFlushes(s: State, p: nat, spurious: bool)
    requires Inv(s) && Enabled(s, ProducerStep(p, spurious)) && s.producers[p].FlushCas?
    ensures Flushes(s, ProducerNext(s, p, spurious), [])
  {
    WinnerPhase(s, p);
    if s.data != s.producers[p].seen || spurious {
      assert ProducerNext(s, p, spurious) == SetProducer(s, p, FlushCas(s.data));
      PosStays(s, SetProducer(s, p, FlushCas(s.data)), p);
    } else {
      assert ProducerNext(s, p, spurious) == SetLockFlag(s, p);
      LockFlushes(s, p);
    }
  }

  lemma LockFlushes(s: State, p: nat)
    requires Inv(s) && p < |s.producers| && s.producers[p].FlushCas?
    ensures Flushes(s, SetLockFlag(s, p), [])
  {
    WinnerPhase(s, p);
    PosStays(s, SetLockFlag(s, p), p);
    assert s.data.ptr != Vector ==> s.mutex == Nobody;
  }

  lemma MutexFlushes(s: State, p: nat, spurious: bool)
    requires Inv(s) && Enabled(s, ProducerStep(p, spurious)) && s.producers[p].FlushMutex?
    ensures Flushes(s, ProducerNext(s, p, spurious), [])
  {
    WinnerPhase(s, p);
  }

  predicate Early(x: Producer) {
    !x.Flushing? && !x.FlushInline? && !x.FlushCas? && !x.FlushMutex?
  }

  lemma EarlyKeeps(s: State, p: nat, spurious: bool)
    requires Enabled(s, ProducerStep(p, spurious)) && Early(s.producers[p])
    ensures var s' := ProducerNext(s, p, spurious);
            && s'.data == s.data && s'.elements == s.elements && s'.mutex == s.mutex
            && s'.flushed == s.flushed && s'.scheduled == s.scheduled
  {
    match s.producers[p]
    case Claiming(_) =>
    case WritePayload(_, _) =>
    case StoreFinal(_) =>
    case _ =>
  }

  lemma EarlyStaysOut(s: State, p: nat, spurious: bool)
    requires Enabled(s, ProducerStep(p, spurious)) && Early(s.producers[p])
    requires p < |ProducerNext(s, p, spurious).producers|
    ensures !ProducerNext(s, p, spurious).producers[p].Flushing?
  {
  }

  lemma NothingFlushed(s: State, s': State, p: nat)
    requires s'.data == s.data && s'.elements == s.elements && s'.flushed == s.flushed
    requires s'.scheduled == s.scheduled && FlushPos(s') == FlushPos(s) <= |Held(s)|
    ensures Flushes(s, s', [])
  {
  }

  lemma EarlyFlushes(s: State, p: nat, spurious: bool)
    requires Enabled(s, ProducerStep(p, spurious)) && Early(s.producers[p]) && FlushPos(s) <= |Held(s)|
    ensures Flushes(s, ProducerNext(s, p, spurious), [])
  {
    var s' := ProducerNext(s, p, spurious);
    EarlyKeeps(s, p, spurious);
    OnlyOwn(s, p, spurious);
    EarlyStaysOut(s, p, spurious);
    PosStays(s, s', p);
    NothingFlushed(s, s', p);
  }

  lemma PosFits(s: State)
    requires Inv(s)
    ensures FlushPos(s) <= |Held(s)|
  {
    assert s.data.ptr != Vector ==> s.mutex == Nobody;
  }

  lemma ProducerFlushes(s: State, p: nat, spurious: bool) returns (more: seq<nat>)
    requires Inv(s) && Enabled(s, ProducerStep(p, spurious))
    ensures Flushes(s, ProducerNext(s, p, spurious), more)
  {
    match s.producers[p]
    case Flushing(i) =>
      FlushingFlushes(s, p, spurious);
      more := if i < |s.elements| then [s.elements[i]] else [];
    case FlushInline(c) =>
      InlineFlushes(s, p, spurious);
      more := [c];
    case _ =>
      QuietFlushes(s, p, spurious);
      more := [];
  }

  lemma StoresKeepsOrder(s: State, s': State, stored: seq<nat>, flushed: seq<nat>, more: seq<nat>)
    requires OrderInv(s, stored, flushed) && Stores(s, s', more)
    ensures OrderInv(s', stored + more, flushed)
  {
  }

  lemma FlushesKeepsOrder(s: State, s': State, stored: seq<nat>, flushed: seq<nat>, more: seq<nat>)
    requires OrderInv(s, stored, flushed) && Flushes(s, s', more)
    ensures OrderInv(s', stored, flushed + more)
  {
    if !s.flushed {
      var held, pos := Held(s), FlushPos(s);
      assert held[..pos] + held[pos..] == held;
    }
  }

  lemma {:induction false} RunOrder(run: Trace<State, Step>)
    requires Run(run) && !run.Last().deleted
    ensures OrderInv(run.Last(), StoredSoFar(run), FlushedSoFar(run))
  {
    match run
    case Start(s) =>
      assert s.mutex == Nobody;
    case Then(before, step, s) =>
      RunInv(before);
      RunOrder(before);
      StepOrder(before, step, s);
  }

  lemma AdderOrder(before: Trace<State, Step>, i: nat, spurious: bool, s': State)
    requires Stores(before.Last(), s', Storing(before.Last(), AdderStep(i, spurious), s'))
    requires OrderInv(before.Last(), StoredSoFar(before), FlushedSoFar(before))
    ensures var run := Then(before, AdderStep(i, spurious), s'); OrderInv(s', StoredSoFar(run), FlushedSoFar(run))
  {
    StoresKeepsOrder(before.Last(), s', StoredSoFar(before), FlushedSoFar(before),
                     Storing(before.Last(), AdderStep(i, spurious), s'));
  }

  lemma ProducerOrder(before: Trace<State, Step>, p: nat, spurious: bool, s': State, more: seq<nat>)
    requires Flushes(before.Last(), s', more)
    requires OrderInv(before.Last(), StoredSoFar(before), FlushedSoFar(before))
    ensures var run := Then(before, ProducerStep(p, spurious), s'); OrderInv(s', StoredSoFar(run), FlushedSoFar(run))
  {
    FlushesKeepsOrder(before.Last(), s', StoredSoFar(before), FlushedSoFar(before), more);
    assert s'.scheduled[|before.Last().scheduled|..] == more;
    assert StoredSoFar(before) + [] == StoredSoFar(before);
  }

  lemma StepOrder(before: Trace<State, Step>, step: Step, s': State)
    requires Inv(before.Last()) && Next(before.Last(), step, s') && step != Delete
    requires OrderInv(before.Last(), StoredSoFar(before), FlushedSoFar(before))
    ensures OrderInv(s', StoredSoFar(Then(before, step, s')), FlushedSoFar(Then(before, step, s')))
  {
    match step
    case AdderStep(i, spurious) =>
      AdderStores(before.Last(), i, spurious);
      AdderOrder(before, i, spurious, s');
    case ProducerStep(p, spurious) =>
      var more := ProducerFlushes(before.Last(), p, spurious);
      ProducerOrder(before, p, spurious, s', more);
  }

  /** In every state of every run the finishing thread has scheduled a first part of what was stored,
      in the order in which it was stored, and at the end of the flush all of it. */
  lemma {:induction false} FlushedInOrder(run: Trace<State, Step>)
    requires Run(run) && !run.Last().deleted
    ensures FlushedSoFar(run) <= StoredSoFar(run)
    ensures run.Last().flushed ==> FlushedSoFar(run) == StoredSoFar(run)
  {
    RunOrder(run);
  }

  // ----- Progress -----

  /** The steps that a finishing thread has before it, at most. */
  function ProducerSteps(s: State, x: Producer): int {
    match x
    case Claiming(_) => 20 + |s.elements|
    case Ready(_) => 20 + |s.elements|
    case StoreUnwrapped(_) => 19 + |s.elements|
    case DestroyUnwrapped(_) => 18 + |s.elements|
    case AwaitChild(_) => 17 + |s.elements|
    case DestroyFirst(_) => 17 + |s.elements|
    case WritePayload(_, _) => 16 + |s.elements|
    case DestroyAfter(_) => 15 + |s.elements|
    case StoreFinal(_) => 14 + |s.elements|
    case FlushLoad => 13 + |s.elements|
    case FlushCas(_) => 12 + |s.elements|
    case FlushMutex => 11 + |s.elements|
    case FlushInline(_) => 1
    case Flushing(i) => 1 + |s.elements| - i
    case Finished(_) => 0
  }

  function AdderSteps(a: Adder): nat {
    match a
    case AddStart => 7
    case AddLoad => 6
    case AddCas(_, _) => 5
    case AddMutex => 4
    case AddRecheck => 3
    case AddPush => 2
    case AddDirect => 1
    case AddDone => 0
  }

  lemma BeginAdvances(s: State, p: nat, spurious: bool)
    requires Enabled(s, ProducerStep(p, spurious)) && !Won(s.producers[p])
    requires p < |ProducerNext(s, p, spurious).producers|
    ensures ProducerSteps(ProducerNext(s, p, spurious), ProducerNext(s, p, spurious).producers[p])
              < ProducerSteps(s, s.producers[p])
  {
  }

  lemma WinnerAdvances(s: State, p: nat, spurious: bool)
    requires Enabled(s, ProducerStep(p, spurious)) && Won(s.producers[p]) && PhaseInv(s, p, s.producers[p])
    requires s.producers[p].FlushCas? ==> s.data == s.producers[p].seen && !spurious
    requires p < |ProducerNext(s, p, spurious).producers|
    ensures ProducerSteps(ProducerNext(s, p, spurious), ProducerNext(s, p, spurious).producers[p])
              < ProducerSteps(s, s.producers[p])
  {
    match s.producers[p]
    case FlushCas(_) =>
    case Flushing(_) =>
    case WritePayload(_, _) =>
    case _ =>
  }

  /** Each step of a finishing thread is one fewer to go; a setter that loses is told so at once. Only
      the compare-exchange that locks the vector may have to be repeated. */
  lemma ProducerAdvances(s: State, p: nat, spurious: bool)
    requires Inv(s) && Enabled(s, ProducerStep(p, spurious))
    requires p < |ProducerNext(s, p, spurious).producers|
    ensures || ProducerSteps(ProducerNext(s, p, spurious), ProducerNext(s, p, spurious).producers[p])
                 < ProducerSteps(s, s.producers[p])
            || (s.producers[p].FlushCas? && (spurious || s.data != s.producers[p].seen))
  {
    if !Won(s.producers[p]) {
      BeginAdvances(s, p, spurious);
    } else {
      WinnerPhase(s, p);
      if s.producers[p].FlushCas? && (spurious || s.data != s.producers[p].seen) {
      } else {
        WinnerAdvances(s, p, spurious);
      }
    }
  }

  /** Each step of an adder is one fewer to go, unless its compare-exchange fails. */
  lemma AdderAdvances(s: State, i: nat, spurious: bool)
    requires Enabled(s, AdderStep(i, spurious)) && i < |AdderNext(s, i, spurious).adders|
    ensures || AdderSteps(AdderNext(s, i, spurious).adders[i]) < AdderSteps(s.adders[i])
            || (s.adders[i].AddCas? && (spurious || s.data != s.adders[i].seen))
  {
  }
}
