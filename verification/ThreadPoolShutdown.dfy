/**
Shutdown completes: once the destructor has begun and the tasks of all nested waits are final,
the pool's own steps and the continuations still to fire lead to a state in which every worker
has left, so that the destructor's joins return.
 */
module ThreadPoolShutdown {
  import opened Common
  import opened PoolEvents
  import opened ThreadPool
  import opened ThreadPoolProof
  import opened ThreadPoolTheorems
  import opened ThreadPoolConservation
  import opened ThreadPoolOrder
  import opened ThreadPoolProgress
  import opened ThreadPoolWakeups

  ghost predicate AllExited(s: State) {
    forall w | 0 <= w < |s.workers| :: s.workers[w].mode == Exited
  }

  /** Some k steps of the pool, or firings of continuations, lead to a state in which all have left. */
  ghost predicate ExitsWithin(s: State, k: nat)
    decreases k
  {
    || AllExited(s)
    || (k > 0 && WellFormed(s)
        && exists step :: (PoolStep(step) || step.Fire?) && Enabled(s, step) && ExitsWithin(Apply(s, step), k - 1))
  }

  /** Every task that some nested wait is for has finished. */
  ghost predicate WaitsFinal(s: State) {
    forall w, d | 0 <= w < |s.workers| && 0 <= d < |s.workers[w].frames| ::
      s.workers[w].frames[d].waitOn.Some? ==> s.workers[w].frames[d].waitOn.value in s.finals
  }

  /** Nobody outside the pool is in a critical section, and nothing is left to fire. */
  ghost predicate Calm(s: State) {
    && Inv(s) && s.shutdown && WaitsFinal(s)
    && (s.lock == Free || s.lock.Held?) && s.continuations == {}
  }

  // ----- What lies before a worker until it leaves -----

  function Sum(q: seq<nat>): nat {
    if q == [] then 0 else q[0] + Sum(q[1..])
  }

  lemma {:induction false} SumDiffers(a: seq<nat>, b: seq<nat>, w: nat)
    requires |a| == |b| && w < |a| && forall v | 0 <= v < |a| && v != w :: a[v] == b[v]
    ensures Sum(a) + b[w] == Sum(b) + a[w]
  {
    if w == 0 {
      assert a[1..] == b[1..];
    } else {
      SumDiffers(a[1..], b[1..], w - 1);
    }
  }

  function Ahead(worker: Worker, w: nat, n: nat): nat {
    var nested := |worker.frames| > 1;
    match worker.mode
    case CheckWaiters => n + 20
    case WantLockToWake => n + 19
    case WakeOne => n + 18
    case DropWaiter => n + 17
    case Running => n + 11
    case LoopTop => n + 10
    case LocalPop => n + 9
    case Stealing(tried) => 8 + Untried(tried, w, n)
    case WantLock => 7
    case CheckPublic => 6
    case AddContinuation => 5
    case Register => 4
    case Sleeping => if nested then 3 else n + 15
    case Woken(finished) => if nested && finished then 2 else n + 14
    case Remove(finished) => if nested && finished then 1 else n + 13
    case Exited => 0
  }

  function LocalSizes(s: State): (q: seq<nat>)
    ensures |q| == |s.workers| && forall w | 0 <= w < |q| :: q[w] == |s.workers[w].local|
  {
    seq(|s.workers|, w requires 0 <= w < |s.workers| => |s.workers[w].local|)
  }

  function Depths(s: State): (q: seq<nat>)
    ensures |q| == |s.workers| && forall w | 0 <= w < |q| :: q[w] == |s.workers[w].frames|
  {
    seq(|s.workers|, w requires 0 <= w < |s.workers| => |s.workers[w].frames|)
  }

  function Distances(s: State): (q: seq<nat>)
    ensures |q| == |s.workers| && forall w | 0 <= w < |q| :: q[w] == Ahead(s.workers[w], w, |s.workers|)
  {
    seq(|s.workers|, w requires 0 <= w < |s.workers| => Ahead(s.workers[w], w, |s.workers|))
  }

  function QueuedTotal(s: State): nat {
    |s.publicQueue| + Sum(LocalSizes(s))
  }

  /** Fewer tasks are queued, or as many and fewer loops are active, or as many of both and some
      worker is further on. */
  ghost predicate Descends(s: State, s': State) {
    && |s'.workers| == |s.workers|
    && (|| QueuedTotal(s') < QueuedTotal(s)
        || (QueuedTotal(s') == QueuedTotal(s) && Sum(Depths(s')) < Sum(Depths(s)))
        || (QueuedTotal(s') == QueuedTotal(s) && Sum(Depths(s')) == Sum(Depths(s))
            && Sum(Distances(s')) < Sum(Distances(s))))
  }

  /** Worker w alone has moved, and on. */
  lemma OneDescends(s: State, s': State, w: nat)
    requires w < |s.workers| == |s'.workers| && SameLocals(s, s') && s'.publicQueue == s.publicQueue
    requires forall v | 0 <= v < |s.workers| && v != w ::
               SameStack(s.workers[v], s'.workers[v])
    requires || |s'.workers[w].frames| < |s.workers[w].frames|
             || (|s'.workers[w].frames| == |s.workers[w].frames|
                 && Ahead(s'.workers[w], w, |s.workers|) < Ahead(s.workers[w], w, |s.workers|))
    ensures Descends(s, s')
  {
    assert LocalSizes(s') == LocalSizes(s);
    SumDiffers(Depths(s), Depths(s'), w);
    SumDiffers(Distances(s), Distances(s'), w);
  }

  // ----- The steps of a calm pool -----

  /** What the invariant says of the worker that steps. */
  ghost predicate CalmWorker(s: State, w: nat)
    requires w < |s.workers| && |s.workers[w].frames| > 0
  {
    var worker := s.workers[w];
    var f := Top(worker);
    && (f.waitOn == None <==> |worker.frames| == 1)
    && (f.waitOn.Some? ==> f.waitOn.value in s.finals)
    && (worker.mode == Register ==> |worker.frames| > 1)
    && (worker.mode == Sleeping ==> if |worker.frames| > 1 then f.mask.finished else f.mask != NO_EVENTS)
    && s.shutdown
  }

  lemma CalmIs(s: State, w: nat)
    requires Calm(s) && w < |s.workers|
    ensures |s.workers[w].frames| > 0 && CalmWorker(s, w)
  {
    assert StackInv(s.workers[w]);
    assert ModeInv(s.workers[w], s.lock == Held(w), s.publicQueue == [], s.shutdown);
    assert FinishInv(s, w, |s.workers[w].frames| - 1);
  }

  /** The part of the loop in which the worker looks for tasks. */
  lemma SearchDescends(s: State, w: nat)
    requires WellFormed(s) && Enabled(s, Go(w)) && CalmWorker(s, w) && |GoNext(s, w).workers| == |s.workers|
    requires var mode := s.workers[w].mode;
             || mode.LoopTop? || (mode.LocalPop? && s.workers[w].local == []) || mode.Stealing? || mode.WantLock?
             || (mode.CheckPublic? && s.publicQueue == [])
    ensures Onwards(s.workers[w], GoNext(s, w).workers[w], w, |s.workers|)
  {
    UntriedShrinks({}, w, |s.workers|, 0);
    match s.workers[w].mode
    case LoopTop =>
    case LocalPop =>
    case CheckPublic =>
    case _ =>
  }

  /** The part in which it goes to sleep and wakes up. */
  lemma SleepDescends(s: State, w: nat)
    requires WellFormed(s) && Enabled(s, Go(w)) && CalmWorker(s, w) && |GoNext(s, w).workers| == |s.workers|
    requires var mode := s.workers[w].mode;
             mode.AddContinuation? || mode.Register? || mode.Sleeping? || mode.Woken?
    ensures Onwards(s.workers[w], GoNext(s, w).workers[w], w, |s.workers|)
  {
    match s.workers[w].mode
    case AddContinuation =>
    case Register =>
    case Sleeping =>
    case _ =>
  }

  lemma RemoveOnwards(s: State, w: nat)
    requires WellFormed(s) && Enabled(s, Go(w)) && CalmWorker(s, w) && |GoNext(s, w).workers| == |s.workers|
    requires s.workers[w].mode.Remove?
    ensures Onwards(s.workers[w], GoNext(s, w).workers[w], w, |s.workers|)
  {
    UntriedShrinks({}, w, |s.workers|, 0);
  }

  lemma ScheduleDescends(s: State, w: nat)
    requires WellFormed(s) && Enabled(s, Go(w)) && |GoNext(s, w).workers| == |s.workers|
    requires Scheduling(s.workers[w].mode)
    ensures Onwards(s.workers[w], GoNext(s, w).workers[w], w, |s.workers|)
  {
  }

  predicate Onwards(worker: Worker, worker': Worker, w: nat, n: nat) {
    || |worker'.frames| < |worker.frames|
    || (|worker'.frames| == |worker.frames| && Ahead(worker', w, n) < Ahead(worker, w, n))
  }

  predicate TakesTask(s: State, w: nat)
    requires w < |s.workers|
  {
    || (s.workers[w].mode == LocalPop && s.workers[w].local != [])
    || (s.workers[w].mode == CheckPublic && s.publicQueue != [])
  }

  lemma OwnOnwards(s: State, w: nat)
    requires WellFormed(s) && Enabled(s, Go(w)) && CalmWorker(s, w) && |GoNext(s, w).workers| == |s.workers|
    requires !TakesTask(s, w)
    ensures Onwards(s.workers[w], GoNext(s, w).workers[w], w, |s.workers|)
  {
    match s.workers[w].mode
    case LoopTop => SearchDescends(s, w);
    case LocalPop => SearchDescends(s, w);
    case Stealing(_) => SearchDescends(s, w);
    case WantLock => SearchDescends(s, w);
    case CheckPublic => SearchDescends(s, w);
    case Remove(_) => RemoveOnwards(s, w);
    case CheckWaiters => ScheduleDescends(s, w);
    case WantLockToWake => ScheduleDescends(s, w);
    case WakeOne => ScheduleDescends(s, w);
    case DropWaiter => ScheduleDescends(s, w);
    case _ => SleepDescends(s, w);
  }

  lemma TakeDescends(s: State, w: nat)
    requires WellFormed(s) && Enabled(s, Go(w)) && TakesTask(s, w)
    ensures Descends(s, GoNext(s, w))
  {
    var s' := GoNext(s, w);
    if s.workers[w].mode == LocalPop {
      assert s' == SetMode(s, w, Running).(workers := s'.workers);
      SumDiffers(LocalSizes(s), LocalSizes(s'), w);
    } else {
      GoKeepsLocals(s, w);
      GoTakesPublic(s, w);
      assert LocalSizes(s') == LocalSizes(s);
    }
  }

  lemma GoDescendsCalm(s: State, w: nat)
    requires Calm(s) && WellFormed(s) && Enabled(s, Go(w))
    ensures Descends(s, GoNext(s, w))
  {
    SameWorkers(s, w);
    if TakesTask(s, w) {
      TakeDescends(s, w);
    } else {
      CalmIs(s, w);
      OwnOnwards(s, w);
      QueuesStay(s, w);
      forall v: nat | v < |s.workers| && v != w ensures SameStack(s.workers[v], GoNext(s, w).workers[v]) {
        OtherGoKeepsStack(s, w, v);
      }
      OneDescends(s, GoNext(s, w), w);
    }
  }

  lemma QueuesStay(s: State, w: nat)
    requires WellFormed(s) && Enabled(s, Go(w)) && !TakesTask(s, w)
    ensures SameLocals(s, GoNext(s, w)) && GoNext(s, w).publicQueue == s.publicQueue
  {
    GoTakesPublic(s, w);
    if s.workers[w].mode != LocalPop { GoKeepsLocals(s, w); }
  }

  lemma StealDescendsCalm(s: State, w: nat, v: nat)
    requires WellFormed(s) && Enabled(s, StealFrom(w, v, false))
    ensures Descends(s, StealNext(s, w, v, false))
  {
    var s' := StealNext(s, w, v, false);
    if s.workers[v].local == [] {
      UntriedShrinks(s.workers[w].mode.tried, w, |s.workers|, v);
      OneDescends(s, s', w);
    } else {
      SumDiffers(LocalSizes(s), LocalSizes(s'), v);
    }
  }

  lemma ReturnDescends(s: State, w: nat)
    requires WellFormed(s) && Enabled(s, BodyReturns(w))
    ensures Descends(s, SetMode(s, w, LoopTop))
  {
    OneDescends(s, SetMode(s, w, LoopTop), w);
  }

  // ----- A calm pool stays calm -----

  /** Frames only go; what the remaining ones wait for does not change. */
  ghost predicate FramesShrink(s: State, s': State) {
    && |s'.workers| == |s.workers|
    && forall w, d | 0 <= w < |s.workers| && 0 <= d < |s'.workers[w].frames| ::
         d < |s.workers[w].frames| && s'.workers[w].frames[d].waitOn == s.workers[w].frames[d].waitOn
  }

  predicate ShrunkFrom(worker: Worker, worker': Worker) {
    forall d | 0 <= d < |worker'.frames| ::
      d < |worker.frames| && worker'.frames[d].waitOn == worker.frames[d].waitOn
  }

  lemma WakeShrinks(s: State, w: nat)
    requires WellFormed(s) && Enabled(s, Go(w)) && s.workers[w].mode == WakeOne
    requires |GoNext(s, w).workers| == |s.workers|
    ensures ShrunkFrom(s.workers[w], GoNext(s, w).workers[w])
  {
    if s.num > 0 { SignalKeepsStack(s, s.waiters[s.num - 1], AVAILABLE, w); }
  }

  lemma LoopShrinks(s: State, w: nat)
    requires WellFormed(s) && Enabled(s, Go(w)) && |GoNext(s, w).workers| == |s.workers|
    requires s.workers[w].mode.LoopTop? || s.workers[w].mode.Remove?
    ensures ShrunkFrom(s.workers[w], GoNext(s, w).workers[w])
  {
    if s.workers[w].mode.LoopTop? {
      assert |GoNext(s, w).workers[w].frames| <= |s.workers[w].frames|;
    }
  }

  lemma SleepShrinks(s: State, w: nat)
    requires WellFormed(s) && Enabled(s, Go(w)) && |GoNext(s, w).workers| == |s.workers|
    requires s.workers[w].mode.AddContinuation? || s.workers[w].mode.Sleeping?
    ensures ShrunkFrom(s.workers[w], GoNext(s, w).workers[w])
  {
  }

  lemma OwnFramesShrink(s: State, w: nat)
    requires WellFormed(s) && Enabled(s, Go(w)) && |GoNext(s, w).workers| == |s.workers|
    ensures ShrunkFrom(s.workers[w], GoNext(s, w).workers[w])
  {
    match s.workers[w].mode
    case LoopTop => LoopShrinks(s, w);
    case Remove(_) => LoopShrinks(s, w);
    case AddContinuation => SleepShrinks(s, w);
    case Sleeping => SleepShrinks(s, w);
    case WakeOne => WakeShrinks(s, w);
    case _ => assert GoNext(s, w).workers[w].frames == s.workers[w].frames;
  }

  lemma GoFramesShrink(s: State, w: nat)
    requires WellFormed(s) && Enabled(s, Go(w))
    ensures FramesShrink(s, GoNext(s, w))
  {
    SameWorkers(s, w);
    OwnFramesShrink(s, w);
    forall v: nat | v < |s.workers| && v != w ensures SameStack(s.workers[v], GoNext(s, w).workers[v]) {
      OtherGoKeepsStack(s, w, v);
    }
  }

  lemma WaitsStayFinal(s: State, s': State)
    requires WaitsFinal(s) && FramesShrink(s, s') && s'.finals == s.finals
    ensures WaitsFinal(s')
  {
  }

  lemma GoAddsNothing(s: State, w: nat)
    requires WellFormed(s) && Enabled(s, Go(w)) && s.continuations == {}
    requires s.workers[w].mode == AddContinuation ==> Top(s.workers[w]).waitOn.value in s.finals
    ensures GoNext(s, w).continuations == {} && GoNext(s, w).finals == s.finals
  {
  }

  lemma GoStaysCalm(s: State, w: nat)
    requires Calm(s) && WellFormed(s) && Enabled(s, Go(w))
    ensures Calm(GoNext(s, w))
  {
    NextInv(s, Go(w), GoNext(s, w));
    GoKeepsShutdown(s, w);
    GoLocks(s, w);
    GoAddsNothing(s, w);
    GoFramesShrink(s, w);
    WaitsStayFinal(s, GoNext(s, w));
  }

  lemma StealStaysCalm(s: State, w: nat, v: nat)
    requires Calm(s) && WellFormed(s) && Enabled(s, StealFrom(w, v, false))
    ensures Calm(StealNext(s, w, v, false))
  {
    NextInv(s, StealFrom(w, v, false), StealNext(s, w, v, false));
    assert FramesShrink(s, StealNext(s, w, v, false));
  }

  lemma ReturnStaysCalm(s: State, w: nat)
    requires Calm(s) && WellFormed(s) && Enabled(s, BodyReturns(w))
    ensures Calm(SetMode(s, w, LoopTop))
  {
    NextInv(s, BodyReturns(w), SetMode(s, w, LoopTop));
    assert FramesShrink(s, SetMode(s, w, LoopTop));
  }

  /** The steps that a calm pool takes. */
  predicate CalmStep(step: Step) {
    step.Go? || step.BodyReturns? || (step.StealFrom? && !step.miss)
  }

  /** Every such step leads on: however they are scheduled, they come to an end. */
  lemma EveryStepDescends(s: State, step: Step)
    requires Calm(s) && WellFormed(s) && Enabled(s, step) && CalmStep(step)
    ensures Calm(Apply(s, step)) && Descends(s, Apply(s, step))
  {
    match step
    case Go(w) => GoDescendsCalm(s, w); GoStaysCalm(s, w);
    case StealFrom(w, v, _) => StealDescendsCalm(s, w, v); StealStaysCalm(s, w, v);
    case BodyReturns(w) => ReturnDescends(s, w); ReturnStaysCalm(s, w);
  }

  /** And until all have left, some such step is possible: nobody sleeps for good. */
  lemma SomebodyMoves(s: State)
    requires Calm(s) && WellFormed(s) && !AllExited(s)
    ensures exists step :: CalmStep(step) && Enabled(s, step)
  {
    if s.lock.Held? {
      var v := s.lock.worker;
      assert ModeInv(s.workers[v], s.lock == Held(v), s.publicQueue == [], s.shutdown);
      assert Enabled(s, Go(v));
    } else {
      var w: nat :| w < |s.workers| && s.workers[w].mode != Exited;
      CalmIs(s, w);
      WorkerMoves(s, w);
    }
  }

  lemma WorkerMoves(s: State, w: nat)
    requires WellFormed(s) && s.lock == Free && w < |s.workers| && s.workers[w].mode != Exited
    requires CalmWorker(s, w)
    ensures exists step :: CalmStep(step) && Enabled(s, step)
  {
    var mode := s.workers[w].mode;
    if mode.Running? {
      assert Enabled(s, BodyReturns(w));
    } else if mode.Stealing? && exists v: nat :: v < |s.workers| && v != w && v !in mode.tried {
      var v: nat :| v < |s.workers| && v != w && v !in mode.tried;
      assert Enabled(s, StealFrom(w, v, false));
    } else {
      assert Enabled(s, Go(w));
    }
  }

  lemma {:induction false} CalmExits(s: State) returns (k: nat)
    requires Calm(s)
    ensures ExitsWithin(s, k)
    decreases QueuedTotal(s), Sum(Depths(s)), Sum(Distances(s))
  {
    k := 0;
    if !AllExited(s) {
      InvIsSafe(s);
      SomebodyMoves(s);
      var step :| CalmStep(step) && Enabled(s, step);
      EveryStepDescends(s, step);
      k := CalmExits(Apply(s, step));
      k := k + 1;
      assert ExitsWithin(Apply(s, step), k - 1);
    }
  }

  // ----- Becoming calm -----

  lemma FireStep(s: State, c: Continuation)
    requires Inv(s) && WellFormed(s) && WaitsFinal(s) && c in s.continuations
    ensures Enabled(s, Fire(c))
    ensures var s' := Apply(s, Fire(c));
            && Inv(s') && WaitsFinal(s') && s'.shutdown == s.shutdown && s'.lock == s.lock
            && s'.continuations == s.continuations - {c}
  {
    assert OwnedInv(s, c);
    var s' := Apply(s, Fire(c));
    NextInv(s, Fire(c), s');
    assert FramesShrink(s, s');
  }

  /** The continuations on finished tasks fire. */
  lemma {:induction false} FiringExits(s: State) returns (k: nat)
    requires Inv(s) && s.shutdown && WaitsFinal(s) && (s.lock == Free || s.lock.Held?)
    ensures ExitsWithin(s, k)
    decreases |s.continuations|
  {
    if s.continuations == {} {
      k := CalmExits(s);
    } else {
      InvIsSafe(s);
      var c :| c in s.continuations;
      FireStep(s, c);
      k := FiringExits(Apply(s, Fire(c)));
      k := k + 1;
      assert ExitsWithin(Apply(s, Fire(c)), k - 1);
    }
  }

  lemma OutsiderStays(s: State)
    requires Inv(s) && WellFormed(s) && Enabled(s, Outsider) && WaitsFinal(s) && (s.shutdown || s.lock == Shutdown)
    ensures var s' := OutsiderNext(s);
            Inv(s') && WaitsFinal(s') && s'.shutdown && LockRank(s') < LockRank(s)
  {
    var s' := OutsiderNext(s);
    NextInv(s, Outsider, s');
    DestroyStep(s, s');
    OutsiderReleases(s);
    OutsiderKeepsQueues(s);
    forall w: nat | w < |s.workers| ensures SameStack(s.workers[w], s'.workers[w]) {
      OutsiderKeepsStack(s, w);
    }
    OutsiderKeepsFinals(s);
    WaitsStayFinal(s, s');
  }

  lemma OutsiderKeepsFinals(s: State)
    requires WellFormed(s) && Enabled(s, Outsider)
    ensures OutsiderNext(s).finals == s.finals
  {
  }

  /** Whoever holds the lock outside the pool lets go of it. */
  lemma {:induction false} HolderExits(s: State) returns (k: nat)
    requires Inv(s) && WaitsFinal(s) && (s.shutdown || s.lock == Shutdown)
    ensures ExitsWithin(s, k)
    decreases LockRank(s)
  {
    if s.lock == Free || s.lock.Held? {
      k := FiringExits(s);
    } else {
      InvIsSafe(s);
      assert Enabled(s, Outsider);
      OutsiderStays(s);
      k := HolderExits(OutsiderNext(s));
      k := k + 1;
      assert ExitsWithin(Apply(s, Outsider), k - 1);
    }
  }

  /** From every state of every run in which the destructor has begun and the tasks of nested waits are
      final, some finite number of the pool's own steps and firings leads to a state in which every
      worker has left. */
  lemma {:induction false} ShutdownCompletes(run: Trace<State, Step>)
    requires Run(run) && Destroyed(run) && WaitsFinal(run.Last())
    ensures exists k :: ExitsWithin(run.Last(), k)
  {
    RunInv(run);
    RunDestroyHistory(run);
    var k := HolderExits(run.Last());
  }
}
