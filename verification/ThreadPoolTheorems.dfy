/** What the thread pool guarantees over every run. */
module ThreadPoolTheorems {
  import opened Common
  import opened PoolEvents
  import opened ThreadPool
  import opened ThreadPoolProof

  // ----- The waiter list -----

  function Range(n: nat): (r: set<nat>)
    ensures |r| == n && forall x: nat :: x in r <==> x < n
  {
    if n == 0 then {} else Range(n - 1) + {n - 1}
  }

  function Elements(q: seq<nat>): set<nat> {
    set x | x in q
  }

  lemma {:induction false} DistinctElements(q: seq<nat>)
    requires forall i, j | 0 <= i < j < |q| :: q[i] != q[j]
    ensures |Elements(q)| == |q|
  {
    if q != [] {
      DistinctElements(q[1..]);
      assert Elements(q) == {q[0]} + Elements(q[1..]);
      assert q[0] !in q[1..];
    }
  }

  /** Distinct numbers below n that avoid w leave room for w. */
  lemma Pigeonhole(q: seq<nat>, n: nat, w: nat)
    requires forall i, j | 0 <= i < j < |q| :: q[i] != q[j]
    requires w < n && w !in q && forall x | x in q :: x < n
    ensures |q| < n
  {
    DistinctElements(q);
    SubsetSize(Elements(q), Range(n) - {w});
  }

  lemma {:induction false} SubsetSize(a: set<nat>, b: set<nat>)
    requires a <= b
    ensures |a| <= |b|
  {
    if a != {} {
      var x :| x in a;
      SubsetSize(a - {x}, b - {x});
    }
  }

  /** The workers on the list, in list order. */
  function ListedWorkers(s: State): (q: seq<nat>)
    requires s.num <= |s.waiters|
    ensures |q| == s.num && forall j | 0 <= j < s.num :: q[j] == s.waiters[j].worker
  {
    seq(s.num, j requires 0 <= j < s.num => s.waiters[j].worker)
  }

  lemma ListedWorkersDistinct(s: State)
    requires Inv(s)
    ensures var q := ListedWorkers(s);
            && (forall i, j | 0 <= i < j < |q| :: q[i] != q[j])
            && (forall x | x in q :: x < |s.workers|)
  {
    forall i, j | 0 <= i < j < s.num ensures s.waiters[i].worker != s.waiters[j].worker {
      assert Entry(s, s.waiters[i]) && Entry(s, s.waiters[j]);
    }
    forall j | 0 <= j < s.num ensures s.waiters[j].worker < |s.workers| {
      assert Entry(s, s.waiters[j]);
    }
  }

  /** A worker about to register finds room in the array, however deep its waits are nested. */
  lemma RoomToRegister(s: State, w: nat)
    requires Inv(s) && w < |s.workers| && s.workers[w].mode == Register
    ensures s.num < |s.waiters|
  {
    ListedWorkersDistinct(s);
    NotListed(s, w);
    Pigeonhole(ListedWorkers(s), |s.workers|, w);
  }

  lemma InvIsSafe(s: State)
    requires Inv(s)
    ensures WellFormed(s)
  {
    forall w | 0 <= w < |s.workers|
      ensures |s.workers[w].frames| > 0
      ensures s.workers[w].mode == Register ==> s.num < |s.waiters|
      ensures s.workers[w].mode == DropWaiter ==> s.num > 0
      ensures s.workers[w].mode == AddContinuation ==> Top(s.workers[w]).waitOn.Some?
    {
      assert StackInv(s.workers[w]);
      assert ModeInv(s.workers[w], s.lock == Held(w), s.publicQueue == [], s.shutdown);
      if s.workers[w].mode == Register { RoomToRegister(s, w); }
    }
    forall j | 0 <= j < s.num ensures Live(s, s.waiters[j]) {
      assert Entry(s, s.waiters[j]);
    }
    forall c | c in s.continuations ensures Live(s, c.event) {
      assert OwnedInv(s, c);
    }
  }

  /** No step of any run touches a dead event or leaves the waiter array. */
  lemma {:induction false} RunIsSafe(run: Trace<State, Step>)
    requires Run(run)
    ensures WellFormed(run.Last())
  {
    RunInv(run);
    InvIsSafe(run.Last());
  }

  /** The waiter list in every state of every run. */
  lemma {:induction false} RunWaiterList(run: Trace<State, Step>)
    requires Run(run)
    ensures WellFormed(run.Last())
    ensures var s := run.Last();
            && s.num <= |s.workers|
            && (forall i, j | 0 <= i < j < s.num :: s.waiters[i].worker != s.waiters[j].worker)
            && (forall j | 0 <= j < s.num ::
                  && s.waiters[j] == EventOf(s, s.waiters[j].worker)
                  && Waiting(s.workers[s.waiters[j].worker].mode))
            && (forall w: nat | w < |s.workers| && Asleep(s.workers[w]) :: Listed(s, EventOf(s, w)))
  {
    RunInv(run);
    RunIsSafe(run);
    var s := run.Last();
    ListedWorkersDistinct(s);
    var q := ListedWorkers(s);
    forall j | 0 <= j < s.num
      ensures s.waiters[j] == EventOf(s, s.waiters[j].worker) && Waiting(s.workers[s.waiters[j].worker].mode)
    {
      assert Entry(s, s.waiters[j]);
    }
    assert forall i, j | 0 <= i < j < s.num :: q[i] != q[j];
  }

  // ----- No lost wake-up -----

  /** Some task is in the public queue or in a local queue. */
  ghost predicate TaskQueued(s: State) {
    s.publicQueue != [] || exists w: nat :: w < |s.workers| && s.workers[w].local != []
  }

  /** Before shutdown, the workers are never all asleep while a task is queued, except
      between an outside thread's push and the signal it gives next under the same lock. */
  lemma {:induction false} NoLostWakeup(run: Trace<State, Step>)
    requires Run(run)
    ensures WellFormed(run.Last())
    ensures var s := run.Last();
            !s.shutdown && TaskQueued(s) && s.lock != ExternalWake ==>
              exists w: nat :: w < |s.workers| && !Asleep(s.workers[w])
  {
    RunInv(run);
    RunIsSafe(run);
    var s := run.Last();
    if w: nat :| w < |s.workers| && s.workers[w].local != [] {
      assert ModeInv(s.workers[w], s.lock == Held(w), s.publicQueue == [], s.shutdown);
      assert !Asleep(s.workers[w]);
    }
  }

  /** In every state of every run a worker with a task in its own queue is not asleep, has not left,
      and is not on its way to either. */
  lemma {:induction false} NeverSleepsOnWork(run: Trace<State, Step>, w: nat)
    requires Run(run) && w < |run.Last().workers| && run.Last().workers[w].local != []
    ensures var worker := run.Last().workers[w];
            && |worker.frames| > 0 && !Asleep(worker) && worker.mode != Exited
            && worker.mode != Register && !Waiting(worker.mode)
  {
    RunInv(run);
    var s := run.Last();
    assert StackInv(s.workers[w]);
    assert ModeInv(s.workers[w], s.lock == Held(w), s.publicQueue == [], s.shutdown);
  }

  /** A step of a worker, of the task it runs, or of whoever holds the lock outside the pool. */
  predicate PoolStep(step: Step) {
    step.Go? || step.StealFrom? || step.BodyReturns? || step.Outsider?
  }

  lemma HolderMoves(s: State)
    requires Inv(s) && WellFormed(s) && s.lock != Free
    ensures exists step :: PoolStep(step) && Enabled(s, step)
  {
    if s.lock.Held? {
      var w := s.lock.worker;
      assert ModeInv(s.workers[w], s.lock == Held(w), s.publicQueue == [], s.shutdown);
      assert Enabled(s, Go(w));
    } else {
      assert Enabled(s, Outsider);
    }
  }

  lemma AwakeMoves(s: State, w: nat)
    requires Inv(s) && WellFormed(s) && s.lock == Free
    requires w < |s.workers| && !Asleep(s.workers[w]) && s.workers[w].mode != Exited
    ensures exists step :: PoolStep(step) && Enabled(s, step)
  {
    var mode := s.workers[w].mode;
    if mode.Running? {
      assert Enabled(s, BodyReturns(w));
    } else if mode.Stealing? && exists v: nat :: v < |s.workers| && v !in mode.tried && v != w {
      var v: nat :| v < |s.workers| && v !in mode.tried && v != w;
      assert Enabled(s, StealFrom(w, v, false));
    } else {
      assert Enabled(s, Go(w));
    }
  }

  /** Before shutdown, whenever a task is queued the pool can move. */
  lemma {:induction false} QueuedTaskCanMove(run: Trace<State, Step>)
    requires Run(run) && !run.Last().shutdown && TaskQueued(run.Last())
    ensures WellFormed(run.Last())
    ensures exists step :: PoolStep(step) && Enabled(run.Last(), step)
  {
    var s := run.Last();
    RunInv(run);
    RunIsSafe(run);
    if s.lock != Free {
      HolderMoves(s);
    } else {
      NoLostWakeup(run);
      var w: nat :| w < |s.workers| && !Asleep(s.workers[w]);
      assert ModeInv(s.workers[w], s.lock == Held(w), s.publicQueue == [], s.shutdown);
      AwakeMoves(s, w);
    }
  }

  // ----- Steps seen from one worker -----

  /** Does the step belong to worker w? */
  predicate By(step: Step, w: nat) {
    match step
    case Go(v) => v == w
    case StealFrom(v, _, _) => v == w
    case BodySchedules(v, _) => v == w
    case BodyWaits(v, _) => v == w
    case BodyReturns(v) => v == w
    case _ => false
  }

  /** The stack of a worker, its masks aside. */
  ghost predicate SameStack(a: Worker, b: Worker) {
    && a.mode == b.mode && |a.frames| == |b.frames|
    && forall d | 0 <= d < |a.frames| ::
         a.frames[d].waitOn == b.frames[d].waitOn && a.frames[d].added == b.frames[d].added
  }

  /** Signals apart, nobody else changes a worker's stack or moves it. */
  lemma OthersKeepStack(s: State, step: Step, s': State, w: nat)
    requires Next(s, step, s') && w < |s.workers| && !By(step, w)
    ensures |s'.workers| == |s.workers| && SameStack(s.workers[w], s'.workers[w])
  {
    match step
    case Go(v) => OtherGoKeepsStack(s, v, w);
    case _ =>
  }

  lemma OtherGoKeepsStack(s: State, v: nat, w: nat)
    requires WellFormed(s) && Enabled(s, Go(v)) && w < |s.workers| && v != w
    ensures |GoNext(s, v).workers| == |s.workers| && SameStack(s.workers[w], GoNext(s, v).workers[w])
  {
    if s.workers[v].mode.WakeOne? && s.num > 0 {
      SignalKeepsStack(s, s.waiters[s.num - 1], AVAILABLE, w);
    } else {
      OtherGoKeepsWorker(s, v, w);
    }
  }

  lemma SignalKeepsStack(s: State, e: EventId, bits: Mask, w: nat)
    requires Live(s, e) && w < |s.workers|
    ensures |Signal(s, e, bits).workers| == |s.workers| && SameStack(s.workers[w], Signal(s, e, bits).workers[w])
  {
  }

  lemma OtherGoKeepsWorker(s: State, v: nat, w: nat)
    requires WellFormed(s) && Enabled(s, Go(v)) && w < |s.workers| && v != w
    requires s.workers[v].mode.WakeOne? ==> s.num == 0
    ensures |GoNext(s, v).workers| == |s.workers| && GoNext(s, v).workers[w] == s.workers[w]
  {
    match s.workers[v].mode
    case LoopTop =>
    case AddContinuation =>
    case Remove(_) =>
    case _ =>
  }

  // ----- Shutdown -----

  /** A worker leaves the main loop only after shutdown, with its own and the public queue empty. */
  lemma LeavesWhenDrained(s: State, step: Step, s': State, w: nat)
    requires Inv(s) && Next(s, step, s') && w < |s.workers| == |s'.workers|
    requires s.workers[w].mode != Exited && s'.workers[w].mode == Exited
    ensures s.shutdown && s'.workers[w].local == [] && s'.publicQueue == [] && |s'.workers[w].frames| == 1
  {
    if !By(step, w) { OthersKeepStack(s, step, s', w); }
    assert StackInv(s.workers[w]);
    assert ModeInv(s.workers[w], s.lock == Held(w), s.publicQueue == [], s.shutdown);
    assert step == Go(w);
    ExitStep(s, w);
  }

  lemma ExitStep(s: State, w: nat)
    requires WellFormed(s) && Enabled(s, Go(w)) && GoNext(s, w).workers[w].mode == Exited
    ensures s.workers[w].mode == CheckPublic && s.publicQueue == [] && s.shutdown && Top(s.workers[w]).waitOn == None
    ensures GoNext(s, w) == SetMode(s, w, Exited).(lock := Free)
  {
  }

  /** After shutdown is set no main loop goes to sleep. */
  lemma NoSleepAfterShutdown(s: State, step: Step, s': State, w: nat)
    requires Inv(s) && Next(s, step, s') && w < |s.workers| == |s'.workers|
    requires s.shutdown && |s.workers[w].frames| == 1 && s.workers[w].mode != Sleeping
    ensures s'.workers[w].mode != Sleeping
  {
    assert StackInv(s.workers[w]);
    assert ModeInv(s.workers[w], s.lock == Held(w), s.publicQueue == [], s.shutdown);
    if !By(step, w) {
      OthersKeepStack(s, step, s', w);
    } else if step.Go? {
      SleepStep(s, w);
    }
  }

  lemma SleepStep(s: State, w: nat)
    requires WellFormed(s) && Enabled(s, Go(w))
    ensures GoNext(s, w).workers[w].mode == Sleeping ==> s.workers[w].mode == Register
  {
  }

  /** Once the destructor has released the lock no main loop is asleep, and once every worker has
      left every queue is empty, unless somebody outside has scheduled after shutdown. */
  lemma {:induction false} RunDrains(run: Trace<State, Step>)
    requires Run(run)
    ensures WellFormed(run.Last())
    ensures var s := run.Last();
            && (s.shutdown && !s.lock.Signalling? ==>
                  forall w | 0 <= w < |s.workers| && |s.workers[w].frames| == 1 :: !Asleep(s.workers[w]))
            && ((forall w | 0 <= w < |s.workers| :: s.workers[w].mode == Exited) ==>
                  && (forall w | 0 <= w < |s.workers| :: s.workers[w].local == [])
                  && (!s.late ==> s.publicQueue == []))
  {
    RunInv(run);
    RunIsSafe(run);
    var s := run.Last();
    if forall w | 0 <= w < |s.workers| :: s.workers[w].mode == Exited {
      assert s.workers[0].mode.Exited?;
      forall w | 0 <= w < |s.workers| ensures s.workers[w].local == [] {
        assert ModeInv(s.workers[w], s.lock == Held(w), s.publicQueue == [], s.shutdown);
      }
    }
  }

  // ----- Waiting for a task -----

  lemma OnlyGoReturns(s: State, step: Step, s': State, w: nat)
    requires Next(s, step, s') && By(step, w) && w < |s.workers| == |s'.workers|
    requires |s'.workers[w].frames| < |s.workers[w].frames|
    ensures step == Go(w)
  {
  }

  /** What a worker knows at the moment its innermost loop returns. */
  lemma ReturnsWhenFinal(s: State, step: Step, s': State, w: nat)
    requires Inv(s) && Next(s, step, s') && w < |s.workers| == |s'.workers|
    requires |s'.workers[w].frames| < |s.workers[w].frames|
    ensures var f := Top(s.workers[w]);
            && f.waitOn.Some? && f.waitOn.value in s.finals
            && (f.added ==> f.mask.finished != TookFinished(s.workers[w].mode))
  {
    assert StackInv(s.workers[w]);
    if !By(step, w) { OthersKeepStack(s, step, s', w); }
    OnlyGoReturns(s, step, s', w);
    ReturnStep(s, w);
    assert FinishInv(s, w, |s.workers[w].frames| - 1);
  }

  /** A wait returns only when its task is final. Its event is then neither on the list nor
      known to any continuation, and if a continuation was added this return consumes its bit. */
  lemma WaitReturns(s: State, step: Step, s': State, w: nat)
    requires Inv(s) && Next(s, step, s') && w < |s.workers| == |s'.workers|
    requires |s'.workers[w].frames| < |s.workers[w].frames|
    ensures var f := Top(s.workers[w]);
            && f.waitOn.Some? && f.waitOn.value in s.finals
            && (forall c | c in s'.continuations :: c.event != EventOf(s, w))
            && (forall j | 0 <= j < s'.num <= |s'.waiters| :: s'.waiters[j] != EventOf(s, w))
            && (f.added ==> f.mask.finished != TookFinished(s.workers[w].mode))
  {
    ReturnsWhenFinal(s, step, s', w);
    NextInv(s, step, s');
    EventReleased(s, s', w);
  }

  /** The address of a frame that is gone is forgotten everywhere. */
  lemma EventReleased(s: State, s': State, w: nat)
    requires Inv(s') && w < |s.workers| == |s'.workers| && |s'.workers[w].frames| < |s.workers[w].frames|
    ensures forall c | c in s'.continuations :: c.event != EventOf(s, w)
    ensures forall j | 0 <= j < s'.num <= |s'.waiters| :: s'.waiters[j] != EventOf(s, w)
  {
    forall c | c in s'.continuations ensures c.event != EventOf(s, w) {
      assert OwnedInv(s', c);
    }
    forall j | 0 <= j < s'.num <= |s'.waiters| ensures s'.waiters[j] != EventOf(s, w) {
      assert Entry(s', s'.waiters[j]);
    }
  }

  lemma ReturnStep(s: State, w: nat)
    requires WellFormed(s) && Enabled(s, Go(w))
    requires |GoNext(s, w).workers[w].frames| < |s.workers[w].frames|
    ensures var f := Top(s.workers[w]);
            || (s.workers[w].mode == LoopTop && f.added && f.mask.finished)
            || (s.workers[w].mode == LoopTop && !f.added && f.waitOn.Some? && f.waitOn.value in s.finals)
            || s.workers[w].mode == Remove(true)
  {
  }

  /** After wait() has taken the finished bit, nothing happens in that frame before it returns. */
  lemma TakenBitReturns(s: State, step: Step, s': State, w: nat)
    requires Inv(s) && Next(s, step, s') && w < |s.workers| == |s'.workers|
    requires TookFinished(s.workers[w].mode)
    ensures || (TookFinished(s'.workers[w].mode) && |s'.workers[w].frames| == |s.workers[w].frames|)
            || |s'.workers[w].frames| == |s.workers[w].frames| - 1
  {
    assert StackInv(s.workers[w]);
    if !By(step, w) { OthersKeepStack(s, step, s', w); }
    assert FinishInv(s, w, |s.workers[w].frames| - 1);
  }
}
