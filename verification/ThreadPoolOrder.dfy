/**
In which order the pool hands out tasks: the public queue is first in, first out, and each local
queue is the deque that ChaseLevTheorems specifies. Also how hard a worker tries before it gives
up, and when a task counts as scheduled late.
 */
module ThreadPoolOrder {
  import opened Common
  import opened PoolEvents
  import opened ThreadPool
  import opened ThreadPoolProof
  import opened ThreadPoolTheorems
  import opened ThreadPoolConservation
  import Deque = ChaseLevTheorems

  // ----- The public queue -----

  /** The tasks that outside threads have pushed, in that order. */
  ghost function PublicPushed(run: Trace<State, Step>): seq<Task>
    requires Run(run)
  {
    match run
    case Start(_) => []
    case Then(before, step, _) =>
      var s := before.Last();
      if step.Outsider? && s.lock.ExternalPush? then PublicPushed(before) + [s.lock.task] else PublicPushed(before)
  }

  /** The tasks that workers have taken from the public queue, in that order. */
  ghost function PublicTaken(run: Trace<State, Step>): seq<Task>
    requires Run(run)
  {
    match run
    case Start(_) => []
    case Then(before, step, _) =>
      var s := before.Last();
      if step.Go? && s.workers[step.w].mode == CheckPublic && s.publicQueue != [] then
        PublicTaken(before) + [s.publicQueue[0]]
      else PublicTaken(before)
  }

  lemma PublicStep(s: State, step: Step, s': State)
    requires Next(s, step, s')
    ensures s'.publicQueue ==
            if step.Outsider? && s.lock.ExternalPush? then s.publicQueue + [s.lock.task]
            else if step.Go? && s.workers[step.w].mode == CheckPublic && s.publicQueue != [] then s.publicQueue[1..]
            else s.publicQueue
  {
    match step
    case Go(w) => GoTakesPublic(s, w);
    case Outsider => OutsiderKeepsQueues(s);
    case _ =>
  }

  /** First in, first out: what has been taken, followed by what is still there, is what was pushed. */
  lemma {:induction false} PublicIsFifo(run: Trace<State, Step>)
    requires Run(run)
    ensures PublicTaken(run) + run.Last().publicQueue == PublicPushed(run)
  {
    match run
    case Start(_) =>
    case Then(before, step, s) =>
      PublicIsFifo(before);
      PublicStep(before.Last(), step, s);
  }

  // ----- The local queues -----

  /** What a step does to the queue of worker w. */
  ghost function LocalEvent(s: State, step: Step, w: nat): Deque.Event
    requires WellFormed(s) && Enabled(s, step) && w < |s.workers|
  {
    var local := s.workers[w].local;
    match step
    case BodySchedules(v, t) => if v == w then Deque.PushNewest(t) else Deque.Silent
    case Go(v) =>
      if v == w && s.workers[w].mode == LocalPop && local != [] then Deque.PopNewest(local[|local| - 1])
      else Deque.Silent
    case StealFrom(_, v, miss) =>
      if v == w && local != [] && !miss then Deque.StealOldest(local[0]) else Deque.Silent
    case _ => Deque.Silent
  }

  lemma GoKeepsLocal(s: State, v: nat, w: nat)
    requires WellFormed(s) && Enabled(s, Go(v)) && w < |s.workers|
    ensures w < |GoNext(s, v).workers|
    ensures Deque.Replay(s.workers[w].local, LocalEvent(s, Go(v), w)) == Some(GoNext(s, v).workers[w].local)
  {
    if s.workers[v].mode != LocalPop { GoKeepsLocals(s, v); }
  }

  lemma LocalStep(s: State, step: Step, s': State, w: nat)
    requires Next(s, step, s') && w < |s.workers|
    ensures |s'.workers| == |s.workers|
    ensures Deque.Replay(s.workers[w].local, LocalEvent(s, step, w)) == Some(s'.workers[w].local)
  {
    match step
    case Go(v) => GoKeepsLocal(s, v, w); SameWorkers(s, v);
    case Outsider => OutsiderKeepsQueues(s);
    case _ =>
  }

  lemma SameWorkers(s: State, v: nat)
    requires WellFormed(s) && Enabled(s, Go(v))
    ensures |GoNext(s, v).workers| == |s.workers|
  {
    if s.workers[v].mode != LocalPop { GoKeepsLocals(s, v); }
  }

  ghost function LocalEvents(run: Trace<State, Step>, w: nat): seq<Deque.Event>
    requires Run(run) && w < |run.Last().workers|
  {
    match run
    case Start(_) => []
    case Then(before, step, s) =>
      LocalStepSize(before.Last(), step, s);
      LocalEvents(before, w) + [LocalEvent(before.Last(), step, w)]
  }

  lemma LocalStepSize(s: State, step: Step, s': State)
    requires Next(s, step, s')
    ensures |s'.workers| == |s.workers|
  {
    if |s.workers| > 0 {
      LocalStep(s, step, s', 0);
    } else if step.Outsider? {
      OutsiderKeepsQueues(s);
    }
  }

  /** The queue of each worker is a legal history of the deque: its own pushes and pops at the newest
      end, and steals at the oldest. */
  lemma {:induction false} LocalIsDeque(run: Trace<State, Step>, w: nat)
    requires Run(run) && w < |run.Last().workers|
    ensures Deque.ReplayAll([], LocalEvents(run, w)) == Some(run.Last().workers[w].local)
  {
    match run
    case Start(_) =>
    case Then(before, step, s) =>
      LocalStepSize(before.Last(), step, s);
      LocalIsDeque(before, w);
      LocalStep(before.Last(), step, s, w);
      Deque.ReplayAppend([], LocalEvents(before, w), LocalEvent(before.Last(), step, w));
  }

  // ----- Giving up -----

  /** Since worker w last did anything else, it has tried to steal from v. */
  predicate TriedLately(run: Trace<State, Step>, w: nat, v: nat) {
    match run
    case Start(_) => false
    case Then(before, step, _) =>
      if By(step, w) then step.StealFrom? && (step.victim == v || TriedLately(before, w, v))
      else TriedLately(before, w, v)
  }

  lemma {:induction false} TriedAreTried(run: Trace<State, Step>, w: nat, v: nat)
    requires Run(run) && w < |run.Last().workers|
    requires run.Last().workers[w].mode.Stealing? && v in run.Last().workers[w].mode.tried
    ensures TriedLately(run, w, v)
  {
    match run
    case Start(_) =>
    case Then(before, step, s) =>
      LocalStepSize(before.Last(), step, s);
      TriedStep(before.Last(), step, s, w, v);
      if !By(step, w) || (step.StealFrom? && step.victim != v) { TriedAreTried(before, w, v); }
  }

  lemma GoTriesNobody(s: State, w: nat)
    requires WellFormed(s) && Enabled(s, Go(w)) && |GoNext(s, w).workers| == |s.workers|
    requires GoNext(s, w).workers[w].mode.Stealing?
    ensures GoNext(s, w).workers[w].mode.tried == {}
  {
  }

  lemma TriedStep(s: State, step: Step, s': State, w: nat, v: nat)
    requires Next(s, step, s') && w < |s.workers| == |s'.workers|
    requires s'.workers[w].mode.Stealing? && v in s'.workers[w].mode.tried
    ensures By(step, w) ==> step.StealFrom?
    ensures By(step, w) && step.victim != v ==>
              s.workers[w].mode.Stealing? && v in s.workers[w].mode.tried
    ensures !By(step, w) ==> s.workers[w].mode == s'.workers[w].mode
  {
    if !By(step, w) {
      OthersKeepStack(s, step, s', w);
    } else if step.Go? {
      GoTriesNobody(s, w);
    }
  }

  /** A worker goes from stealing to the lock only after trying every other worker in this round. */
  lemma {:induction false} TriesEverybody(run: Trace<State, Step>, w: nat, v: nat)
    requires Run(run) && run.Then? && w < |run.before.Last().workers| == |run.after.workers|
    requires run.before.Last().workers[w].mode.Stealing? && run.after.workers[w].mode == WantLock
    requires v < |run.before.Last().workers| && v != w
    ensures TriedLately(run.before, w, v)
  {
    var s := run.before.Last();
    if !By(run.step, w) { OthersKeepStack(s, run.step, run.after, w); }
    assert run.step == Go(w);
    TriedAreTried(run.before, w, v);
  }

  // ----- Scheduling late -----

  /** Some outside thread has pushed a task after shutdown was set. */
  predicate PushedLate(run: Trace<State, Step>) {
    match run
    case Start(_) => false
    case Then(before, step, _) =>
      PushedLate(before) || (step.Outsider? && before.Last().lock.ExternalPush? && before.Last().shutdown)
  }

  lemma GoKeepsLate(s: State, w: nat)
    requires WellFormed(s) && Enabled(s, Go(w))
    ensures GoNext(s, w).late == s.late && GoNext(s, w).shutdown == s.shutdown
  {
  }

  /** The exemption in the shutdown theorems is no wider than that. */
  lemma {:induction false} LateMeansPushedLate(run: Trace<State, Step>)
    requires Run(run)
    ensures run.Last().late <==> PushedLate(run)
  {
    match run
    case Start(_) =>
    case Then(before, step, s) =>
      LateMeansPushedLate(before);
      LateStep(before.Last(), step, s);
  }

  lemma LateStep(s: State, step: Step, s': State)
    requires Next(s, step, s')
    ensures s'.late <==> s.late || (step.Outsider? && s.lock.ExternalPush? && s.shutdown)
  {
    match step
    case Go(w) => GoKeepsLate(s, w);
    case _ =>
  }

  // ----- Finishing -----

  predicate FinishedIn(run: Trace<State, Step>, t: Task) {
    match run
    case Start(_) => false
    case Then(before, step, _) => step == Finish(t) || FinishedIn(before, t)
  }

  lemma FinishStep(s: State, step: Step, s': State, t: Task)
    requires Next(s, step, s')
    ensures t in s'.finals <==> t in s.finals || step == Finish(t)
  {
    match step
    case Go(w) => GoKeepsFinals(s, w);
    case _ =>
  }

  lemma GoKeepsFinals(s: State, w: nat)
    requires WellFormed(s) && Enabled(s, Go(w))
    ensures GoNext(s, w).finals == s.finals
  {
  }

  /** The tasks that count as final are exactly those that have finished. */
  lemma {:induction false} FinalsHaveFinished(run: Trace<State, Step>, t: Task)
    requires Run(run)
    ensures t in run.Last().finals <==> FinishedIn(run, t)
  {
    match run
    case Start(_) =>
    case Then(before, step, s) =>
      FinalsHaveFinished(before, t);
      FinishStep(before.Last(), step, s, t);
  }

  // ----- The top of the loop -----

  /** The loop that waits for a task checks, each time round, whether it may return: exactly when the
      task is final and no continuation can signal the event any more. */
  lemma TopReturnsIff(s: State, s': State, w: nat)
    requires Inv(s) && Next(s, Go(w), s') && w < |s'.workers| && s.workers[w].mode == LoopTop
    ensures |s.workers[w].frames| > 0
    ensures |s'.workers[w].frames| < |s.workers[w].frames| <==>
            && Top(s.workers[w]).waitOn.Some? && Top(s.workers[w]).waitOn.value in s.finals
            && Continuation(Top(s.workers[w]).waitOn.value, EventOf(s, w)) !in s.continuations
  {
    assert StackInv(s.workers[w]);
    assert FinishInv(s, w, |s.workers[w].frames| - 1);
  }
}
