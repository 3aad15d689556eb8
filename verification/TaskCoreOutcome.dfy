/** A finished task holds what its function did, or what the winning setter offered. */
module TaskCoreOutcome {
  import opened Common
  import opened TaskCore
  import opened TaskCoreProof
  import opened TaskCoreTheorems

  /** The outcome that a thread brings to the task when the run begins. */
  function Promised(x: Producer): Option<Outcome> {
    match x
    case Claiming(o) => Some(o)
    case Ready(Returns(v)) => Some(Value(v))
    case Ready(Throws(e)) => Some(Error(e))
    case Ready(Unwraps(o)) => Some(o)
    case _ => None
  }

  /** The outcome that a thread still has in hand. */
  function InHand(x: Producer): Option<Outcome> {
    match x
    case WritePayload(o, _) => Some(o)
    case DestroyAfter(o) => Some(o)
    case DestroyFirst(o) => Some(o)
    case StoreUnwrapped(o) => Some(o)
    case DestroyUnwrapped(o) => Some(o)
    case AwaitChild(o) => Some(o)
    case StoreFinal(o) => Some(o)
    case _ => Promised(x)
  }

  function First(run: Trace<State, Step>): State {
    match run case Start(s) => s case Then(before, _, _) => First(before)
  }

  /** The task holds an outcome, and its state says of which kind it is. */
  predicate HoldsOutcome(s: State, o: Option<Outcome>) {
    && o.Some? && s.payload == Holding(o.value)
    && s.task == if o.value.Value? then Completed else Canceled
  }

  /** Thread p keeps its promise: in its hand until the final state is stored, in the task from then on. */
  predicate Keeps(s: State, p: nat, promise: Option<Outcome>) {
    p < |s.producers| ==>
      && (InHand(s.producers[p]).Some? ==> InHand(s.producers[p]) == promise)
      && (Won(s.producers[p]) && IsFinished(s.task) ==> HoldsOutcome(s, promise))
  }

  lemma AdderKeeps(s: State, i: nat, spurious: bool, p: nat, promise: Option<Outcome>)
    requires Enabled(s, AdderStep(i, spurious)) && Keeps(s, p, promise)
    ensures Keeps(AdderNext(s, i, spurious), p, promise)
  {
    var s' := AdderNext(s, i, spurious);
    assert s'.task == s.task && s'.payload == s.payload && s'.producers == s.producers;
  }

  /** A thread touches no other thread. */
  lemma OnlyOwn(s: State, p: nat, spurious: bool)
    requires Enabled(s, ProducerStep(p, spurious))
    ensures |ProducerNext(s, p, spurious).producers| == |s.producers|
    ensures forall q | 0 <= q < |s.producers| && q != p ::
              ProducerNext(s, p, spurious).producers[q] == s.producers[q]
  {
    match s.producers[p]
    case FlushCas(_) =>
    case Flushing(_) =>
    case _ =>
  }

  /** Once the final state has been stored, nothing is in hand. */
  lemma FlushHasNothing(s: State, p: nat, spurious: bool)
    requires Enabled(s, ProducerStep(p, spurious)) && InHand(s.producers[p]) == None
    requires p < |ProducerNext(s, p, spurious).producers|
    ensures InHand(ProducerNext(s, p, spurious).producers[p]) == None
  {
    match s.producers[p]
    case FlushCas(_) =>
    case Flushing(_) =>
    case _ =>
  }

  lemma HandsOn(s: State, p: nat, spurious: bool)
    requires Enabled(s, ProducerStep(p, spurious)) && InHand(s.producers[p]).Some?
    requires p < |ProducerNext(s, p, spurious).producers|
    ensures var x' := ProducerNext(s, p, spurious).producers[p];
            InHand(x').Some? ==> InHand(x') == InHand(s.producers[p])
  {
    match s.producers[p]
    case Claiming(_) =>
    case Ready(_) =>
    case _ =>
  }

  /** A thread passes on the outcome it has in hand. */
  lemma PassesOn(s: State, p: nat, spurious: bool)
    requires Enabled(s, ProducerStep(p, spurious))
    requires p < |ProducerNext(s, p, spurious).producers|
    ensures var x' := ProducerNext(s, p, spurious).producers[p];
            InHand(x').Some? ==> InHand(x') == InHand(s.producers[p])
  {
    if InHand(s.producers[p]) == None { FlushHasNothing(s, p, spurious); } else { HandsOn(s, p, spurious); }
  }

  /** Only the store of a final state finishes the task, with the outcome in hand. */
  lemma Finishes(s: State, p: nat, spurious: bool)
    requires Enabled(s, ProducerStep(p, spurious)) && !IsFinished(s.task)
    ensures var s' := ProducerNext(s, p, spurious);
            IsFinished(s'.task) ==> s.producers[p].StoreFinal? && s'.payload == s.payload
  {
  }

  lemma StoredOutcome(s: State, p: nat, spurious: bool)
    requires Inv(s) && Enabled(s, ProducerStep(p, spurious)) && s.producers[p].StoreFinal?
    ensures HoldsOutcome(ProducerNext(s, p, spurious), InHand(s.producers[p]))
  {
    WinnerPhase(s, p);
  }

  /** Once the task is finished nobody wins any more. */
  lemma NobodyWinsLate(s: State, p: nat, spurious: bool)
    requires Inv(s) && Enabled(s, ProducerStep(p, spurious)) && IsFinished(s.task) && !Won(s.producers[p])
    ensures !Won(ProducerNext(s, p, spurious).producers[p])
  {
    if s.producers[p].Ready? { FirstToWin(s, p); }
  }

  lemma ProducerKeeps(s: State, q: nat, spurious: bool, p: nat, promise: Option<Outcome>)
    requires Inv(s) && Enabled(s, ProducerStep(q, spurious)) && Keeps(s, p, promise)
    ensures Keeps(ProducerNext(s, q, spurious), p, promise)
  {
    var s' := ProducerNext(s, q, spurious);
    OnlyOwn(s, q, spurious);
    PassesOn(s, q, spurious);
    if IsFinished(s.task) {
      FinalIsAbsorbing(s, ProducerStep(q, spurious), s');
      if !Won(s.producers[q]) { NobodyWinsLate(s, q, spurious); }
    } else {
      Finishes(s, q, spurious);
      if IsFinished(s'.task) {
        StoredOutcome(s, q, spurious);
        assert Won(s.producers[q]) && Alone(s, q);
      }
    }
  }

  lemma {:induction false} RunKeeps(run: Trace<State, Step>, p: nat)
    requires Run(run) && !run.Last().deleted
    ensures |run.Last().producers| == |First(run).producers|
    ensures p < |First(run).producers| ==> Keeps(run.Last(), p, Promised(First(run).producers[p]))
  {
    match run
    case Start(_) =>
    case Then(before, step, s) =>
      RunInv(before);
      RunKeeps(before, p);
      if p < |First(run).producers| { StepKeeps(before.Last(), step, s, p, Promised(First(run).producers[p])); }
      SameThreads(before.Last(), step, s);
  }

  lemma StepKeeps(s: State, step: Step, s': State, p: nat, promise: Option<Outcome>)
    requires Inv(s) && Next(s, step, s') && step != Delete && Keeps(s, p, promise)
    ensures Keeps(s', p, promise)
  {
    match step
    case AdderStep(i, spurious) => AdderKeeps(s, i, spurious, p, promise);
    case ProducerStep(q, spurious) => ProducerKeeps(s, q, spurious, p, promise);
  }

  lemma SameThreads(s: State, step: Step, s': State)
    requires Next(s, step, s')
    ensures |s'.producers| == |s.producers|
  {
    match step
    case AdderStep(i, spurious) => AdderKeepsThreads(s, i, spurious);
    case ProducerStep(p, spurious) => OnlyOwn(s, p, spurious);
    case Delete =>
  }

  lemma AdderKeepsThreads(s: State, i: nat, spurious: bool)
    requires Enabled(s, AdderStep(i, spurious))
    ensures AdderNext(s, i, spurious).producers == s.producers
  {
  }

  lemma FinishedHasWinner(s: State)
    requires Inv(s) && IsFinished(s.task)
    ensures exists p: nat :: p < |s.producers| && Won(s.producers[p]) && Alone(s, p)
  {
  }

  /** In every state of every run in which the task is finished there is one winner, and the task
      holds what that thread brought: the value its function returned, the exception it threw,
      the outcome of the task it unwrapped to, or what was set on the event. It is completed
      exactly when that is a value. */
  lemma {:induction false} FinishedHoldsPromise(run: Trace<State, Step>)
    requires Run(run) && !run.Last().deleted && IsFinished(run.Last().task)
    ensures var s := run.Last();
            exists p: nat :: p < |s.producers| == |First(run).producers| && Won(s.producers[p]) && Alone(s, p)
                             && HoldsOutcome(s, Promised(First(run).producers[p]))
  {
    var s := run.Last();
    RunInv(run);
    FinishedHasWinner(s);
    var p: nat :| p < |s.producers| && Won(s.producers[p]) && Alone(s, p);
    RunKeeps(run, p);
  }
}
