/** A task that waits for another goes on only when that one has finished. */
module ThreadPoolWaits {
  import opened Common
  import opened ThreadPool
  import opened ThreadPoolProof
  import opened ThreadPoolTheorems
  import opened ThreadPoolOrder
  import opened ThreadPoolShutdown

  /** Some task that worker w ran has begun to wait for t. */
  predicate BeganWait(run: Trace<State, Step>, w: nat, t: Task) {
    match run
    case Start(_) => false
    case Then(before, step, _) => step == BodyWaits(w, t) || BeganWait(before, w, t)
  }

  /** A loop of worker w still waits for t. */
  predicate StillWaits(s: State, w: nat, t: Task) {
    w < |s.workers| && exists d :: 0 <= d < |s.workers[w].frames| && s.workers[w].frames[d].waitOn == Some(t)
  }

  lemma OneReturnAtMost(s: State, w: nat)
    requires WellFormed(s) && Enabled(s, Go(w)) && |GoNext(s, w).workers| == |s.workers|
    ensures |GoNext(s, w).workers[w].frames| >= |s.workers[w].frames| - 1
    ensures forall d | 0 <= d < |s.workers[w].frames| && d < |GoNext(s, w).workers[w].frames| ::
              GoNext(s, w).workers[w].frames[d].waitOn == s.workers[w].frames[d].waitOn
  {
    OwnFramesShrink(s, w);
    match s.workers[w].mode
    case LoopTop =>
    case Remove(_) =>
    case WakeOne => WakeKeepsDepth(s, w);
    case _ =>
  }

  lemma WakeKeepsDepth(s: State, w: nat)
    requires WellFormed(s) && Enabled(s, Go(w)) && s.workers[w].mode == WakeOne
    requires |GoNext(s, w).workers| == |s.workers|
    ensures |GoNext(s, w).workers[w].frames| == |s.workers[w].frames|
  {
  }

  /** A step may begin a wait of worker w, or end the innermost, if that is over. */
  ghost predicate WaitsMove(s: State, s': State, w: nat)
    requires w < |s.workers| == |s'.workers|
  {
    var frames, frames' := s.workers[w].frames, s'.workers[w].frames;
    && |frames'| >= |frames| - 1
    && (forall d | 0 <= d < |frames| && d < |frames'| :: frames'[d].waitOn == frames[d].waitOn)
    && (|frames'| < |frames| ==>
          frames[|frames| - 1].waitOn.Some? && frames[|frames| - 1].waitOn.value in s.finals)
  }

  lemma StackStep(s: State, step: Step, s': State, w: nat)
    requires Next(s, step, s') && w < |s.workers| == |s'.workers|
    ensures |s'.workers[w].frames| >= |s.workers[w].frames| - 1
    ensures forall d | 0 <= d < |s.workers[w].frames| && d < |s'.workers[w].frames| ::
              s'.workers[w].frames[d].waitOn == s.workers[w].frames[d].waitOn
  {
    if !By(step, w) {
      OthersKeepStack(s, step, s', w);
    } else if step.Go? {
      OneReturnAtMost(s, w);
    }
  }

  lemma WaitsMoveStep(s: State, step: Step, s': State, w: nat)
    requires Inv(s) && Next(s, step, s') && w < |s.workers| == |s'.workers|
    ensures WaitsMove(s, s', w)
  {
    StackStep(s, step, s', w);
    if |s'.workers[w].frames| < |s.workers[w].frames| { ReturnsWhenFinal(s, step, s', w); }
  }

  lemma WaitKept(s: State, s': State, w: nat, t: Task)
    requires w < |s.workers| == |s'.workers| && WaitsMove(s, s', w)
    requires StillWaits(s, w, t) && t !in s.finals
    ensures StillWaits(s', w, t)
  {
    var d :| 0 <= d < |s.workers[w].frames| && s.workers[w].frames[d].waitOn == Some(t);
    assert s'.workers[w].frames[d].waitOn == Some(t);
  }

  lemma WaitStep(s: State, step: Step, s': State, w: nat, t: Task)
    requires Inv(s) && Next(s, step, s') && |s'.workers| == |s.workers|
    requires StillWaits(s, w, t) || t in s.finals
    ensures StillWaits(s', w, t) || t in s'.finals
  {
    FinishStep(s, step, s', t);
    if t !in s.finals {
      WaitsMoveStep(s, step, s', w);
      WaitKept(s, s', w, t);
    }
  }

  lemma WaitBegins(s: State, w: nat, t: Task)
    requires WellFormed(s) && Enabled(s, BodyWaits(w, t))
    ensures StillWaits(Apply(s, BodyWaits(w, t)), w, t)
  {
    var frames := Apply(s, BodyWaits(w, t)).workers[w].frames;
    assert frames[|frames| - 1].waitOn == Some(t);
  }

  /** In every state of every run: of each wait that has begun, either a loop on the stack of its
      worker still waits, or the task has finished. */
  lemma {:induction false} WaitsUntilFinal(run: Trace<State, Step>, w: nat, t: Task)
    requires Run(run) && BeganWait(run, w, t)
    ensures StillWaits(run.Last(), w, t) || t in run.Last().finals
  {
    match run
    case Then(before, step, s) =>
      RunInv(before);
      LocalStepSize(before.Last(), step, s);
      if step == BodyWaits(w, t) {
        WaitBegins(before.Last(), w, t);
      } else {
        WaitsUntilFinal(before, w, t);
        WaitStep(before.Last(), step, s, w, t);
      }
  }
}
