/** What one task object guarantees over every run. */
module TaskCoreTheorems {
  import opened Common
  import opened TaskCore
  import opened TaskCoreProof

  lemma WinnerPhase(s: State, p: nat)
    requires Inv(s) && p < |s.producers| && Won(s.producers[p])
    ensures PhaseInv(s, p, s.producers[p])
  {
  }

  /** The state, the payload and the counters agree, whoever is doing what. */
  lemma StatePayload(s: State)
    requires Inv(s)
    ensures Matches(s.task, s.payload)
    ensures s.finishes == if IsFinished(s.task) then 1 else 0
    ensures s.flushes <= s.finishes && s.funcDestroyed <= 1
    ensures s.scheduled != [] ==> IsFinished(s.task)
    ensures s.hasFunc && IsFinished(s.task) ==> s.funcDestroyed == 1
    ensures !s.hasFunc ==> s.funcDestroyed == 0
  {
    if p: nat :| p < |s.producers| && Won(s.producers[p]) {
      WinnerPhase(s, p);
    }
  }

  /** The last state of a run in which the task still exists. */
  function LastAlive(run: Trace<State, Step>): State {
    if run.Then? && run.step == Delete then run.before.Last() else run.Last()
  }

  lemma {:induction false} LastAliveInv(run: Trace<State, Step>)
    requires Run(run)
    ensures Inv(LastAlive(run))
    ensures var s := LastAlive(run);
            run.Last() == s || (Enabled(s, Delete) && run.Last() == DeleteNext(s))
  {
    match run
    case Start(s) => RunInv(run);
    case Then(before, step, s) => RunInv(run); RunInv(before);
  }

  // ----- Continuations -----

  lemma AddedOnce(s: State, i: nat)
    requires Inv(s)
    ensures Stored(s)[i] + multiset(s.scheduled)[i] == if i < |s.adders| && s.adders[i] == AddDone then 1 else 0
  {
    assert s.added[i] == Stored(s)[i] + multiset(s.scheduled)[i];
  }

  /** In every state of every run each continuation has been scheduled at most once, and none
      before the task reached a final state. */
  lemma {:induction false} RunSchedulesOnce(run: Trace<State, Step>, i: nat)
    requires Run(run)
    ensures var s := run.Last();
            && multiset(s.scheduled)[i] <= 1
            && (multiset(s.scheduled)[i] == 1 ==> i < |s.adders| && s.adders[i] == AddDone && IsFinished(s.task))
  {
    LastAliveInv(run);
    AddedOnce(LastAlive(run), i);
    StatePayload(LastAlive(run));
  }

  /** Every thread is done. */
  predicate Quiescent(s: State) {
    && (forall i | 0 <= i < |s.adders| :: s.adders[i] == AddDone)
    && (forall p | 0 <= p < |s.producers| :: s.producers[p].Finished?)
    && |s.producers| > 0
  }

  /** Producer p has won and told its caller so; every other one has lost and told so. */
  predicate OnlyWinner(s: State, p: nat) {
    && p < |s.producers| && s.producers[p] == Finished(true)
    && forall q: nat | q < |s.producers| && q != p :: s.producers[q] == Finished(false)
  }

  /** Of all the racing setters exactly one wins. */
  lemma SomebodyWon(s: State)
    requires Inv(s) && Quiescent(s)
    ensures exists p: nat :: OnlyWinner(s, p)
  {
    assert s.producers[0].Finished?;
    var p: nat :| p < |s.producers| && Won(s.producers[p]);
    assert s.producers[p] == Finished(true);
    assert OnlyWinner(s, p);
  }

  /** Once all threads are done, exactly one producer has won and told its caller so, the task
      finished once, the vector was flushed once, and every continuation was scheduled exactly once. */
  lemma {:induction false} QuiescentDelivered(run: Trace<State, Step>)
    requires Run(run) && !run.Last().deleted && Quiescent(run.Last())
    ensures var s := run.Last();
            && IsFinished(s.task) && s.finishes == s.flushes == 1
            && (exists p: nat :: OnlyWinner(s, p))
            && (forall i: nat | i < |s.adders| :: multiset(s.scheduled)[i] == 1)
  {
    RunInv(run);
    var s := run.Last();
    SomebodyWon(s);
    var p: nat :| OnlyWinner(s, p);
    WinnerPhase(s, p);
    assert s.mutex == Nobody;
    forall i: nat | i < |s.adders| ensures multiset(s.scheduled)[i] == 1 {
      AddedOnce(s, i);
      StoredIsEmpty(s);
    }
  }

  lemma StoredIsEmpty(s: State)
    requires Inv(s) && s.flushed && s.elements == []
    ensures Stored(s) == multiset{}
  {
  }

  /** A thread that is not done can move, or else the holder of the mutex can. */
  lemma NobodyStuck(s: State, step: Step)
    requires Inv(s)
    requires match step
             case AdderStep(i, _) => i < |s.adders| && s.adders[i] != AddDone
             case ProducerStep(p, _) => p < |s.producers| && !s.producers[p].Finished?
             case Delete => false
    ensures || Enabled(s, step)
            || (s.mutex.ByAdder? && Enabled(s, AdderStep(s.mutex.i, false)))
            || (s.mutex.ByProducer? && Enabled(s, ProducerStep(s.mutex.p, false)))
  {
  }

  // ----- The task state -----

  /** Final states and their payloads are never changed again; only the store of a final
      state, which happens once, leads into one. */
  lemma FinalIsAbsorbing(s: State, step: Step, s': State)
    requires Inv(s) && Next(s, step, s')
    ensures IsFinished(s.task) ==> s'.task == s.task && (step != Delete ==> s'.payload == s.payload)
    ensures IsFinished(s'.task) && !IsFinished(s.task) ==> s.finishes == 0 && s'.finishes == 1
  {
    StatePayload(s);
    match step
    case ProducerStep(p, spurious) =>
      if Won(s.producers[p]) {
        WinnerPhase(s, p);
        WinnerRespectsFinal(s, p, spurious);
      } else {
        BeginRespectsFinal(s, p, spurious);
      }
    case AdderStep(i, spurious) => AdderKeepsState(s, i, spurious);
    case Delete =>
  }

  lemma AdderKeepsState(s: State, i: nat, spurious: bool)
    requires Enabled(s, AdderStep(i, spurious))
    ensures var s' := AdderNext(s, i, spurious); s'.task == s.task && s'.payload == s.payload
  {
  }

  lemma WinnerRespectsFinal(s: State, p: nat, spurious: bool)
    requires Enabled(s, ProducerStep(p, spurious)) && Won(s.producers[p]) && PhaseInv(s, p, s.producers[p])
    ensures var s' := ProducerNext(s, p, spurious);
            && (IsFinished(s.task) ==> s'.task == s.task && s'.payload == s.payload)
            && (IsFinished(s'.task) && !IsFinished(s.task) ==> s.finishes == 0 && s'.finishes == 1)
  {
  }

  lemma BeginRespectsFinal(s: State, p: nat, spurious: bool)
    requires Inv(s) && Enabled(s, ProducerStep(p, spurious)) && !Won(s.producers[p])
    ensures var s' := ProducerNext(s, p, spurious);
            s'.payload == s.payload && (s'.task == s.task || (s.task == Pending && s'.task == Locked))
  {
  }

  /** In every state of every run: the payload fits the state's tag, the task has finished at
      most once, and its function has been destroyed at most once, exactly once when it has finished. */
  lemma {:induction false} RunStateConsistent(run: Trace<State, Step>)
    requires Run(run)
    ensures var s := run.Last();
            && s.finishes <= 1 && s.flushes <= 1 && s.funcDestroyed <= 1
            && (s.finishes == 1 <==> IsFinished(s.task))
            && (!s.deleted ==> Matches(s.task, s.payload))
            && (s.hasFunc && (s.deleted || IsFinished(s.task)) ==> s.funcDestroyed == 1)
  {
    LastAliveInv(run);
    StatePayload(LastAlive(run));
    if run.Last().deleted && run.Last().hasFunc { DeleteDestroysFunc(LastAlive(run)); }
  }

  /** The destructor finds the function alive exactly when the state is `pending`. */
  lemma DeleteDestroysFunc(s: State)
    requires Inv(s) && Enabled(s, Delete) && s.hasFunc
    ensures DeleteNext(s).funcDestroyed == 1
    ensures s.task == Pending <==> s.funcDestroyed == 0
  {
    if p: nat :| p < |s.producers| && Won(s.producers[p]) {
      WinnerPhase(s, p);
    }
  }

  /** At deletion every continuation ever added has been scheduled, or is released by the
      destructor, never both; a finished task has none left to release. */
  lemma DeleteReleasesTheRest(s: State, i: nat)
    requires Inv(s) && Enabled(s, Delete)
    ensures var s' := DeleteNext(s);
            && s'.dropped[i] + multiset(s'.scheduled)[i] == (if i < |s.adders| && s.adders[i] == AddDone then 1 else 0)
            && (IsFinished(s.task) ==> s'.dropped == multiset{})
            && s'.payload == Nothing
  {
    AddedOnce(s, i);
    DeleteReleasesStored(s);
  }

  /** Nobody holds the mutex of a task that is being deleted, and a finished one is flushed. */
  lemma DeletedIsIdle(s: State)
    requires Inv(s) && Enabled(s, Delete)
    ensures FlushPos(s) == 0
    ensures s.data.locked ==> s.flushed
    ensures IsFinished(s.task) ==> s.flushed && s.elements == [] && s.payload.Holding?
    ensures !IsFinished(s.task) ==> s.payload == Nothing && !s.flushed && !s.data.locked
  {
    if p: nat :| p < |s.producers| && Won(s.producers[p]) {
      WinnerPhase(s, p);
    }
  }

  lemma DeleteReleasesInline(s: State)
    requires Inv(s) && Enabled(s, Delete) && s.data.ptr != Vector
    ensures DeleteNext(s).dropped == Stored(s)
  {
    DeletedIsIdle(s);
    FlushedIsLocked(s);
  }

  lemma DeleteReleasesVector(s: State)
    requires Inv(s) && Enabled(s, Delete) && s.data.ptr == Vector
    ensures DeleteNext(s).dropped == Stored(s)
  {
    DeletedIsIdle(s);
    assert s.elements[0..] == s.elements;
  }

  lemma DeleteReleasesStored(s: State)
    requires Inv(s) && Enabled(s, Delete)
    ensures DeleteNext(s).dropped == Stored(s) && DeleteNext(s).payload == Nothing
    ensures IsFinished(s.task) ==> Stored(s) == multiset{}
  {
    DeletedIsIdle(s);
    if s.data.ptr == Vector { DeleteReleasesVector(s); } else { DeleteReleasesInline(s); }
  }
}
