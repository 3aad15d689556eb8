/** The pool neither loses a task nor runs one twice, over every run and through shutdown.
Counts are of one task x; a task scheduled several times is counted as often. */
module ThreadPoolConservation {
  import opened Common
  import opened PoolEvents
  import opened ThreadPool
  import opened ThreadPoolTheorems

  function Count(q: seq<Task>, x: Task): nat {
    multiset(q)[x]
  }

  function Is(t: Task, x: Task): nat {
    if t == x then 1 else 0
  }

  function InLocals(workers: seq<Worker>, x: Task): nat {
    if workers == [] then 0 else Count(workers[0].local, x) + InLocals(workers[1..], x)
  }

  /** How often x waits in some queue of the pool. */
  function Queued(s: State, x: Task): nat {
    Count(s.publicQueue, x) + InLocals(s.workers, x)
  }

  /** Does the step, which belongs to schedule(), put x into a queue? */
  ghost function Scheduled(s: State, step: Step, x: Task): nat
    requires WellFormed(s) && Enabled(s, step)
  {
    match step
    case BodySchedules(_, t) => Is(t, x)
    case Outsider => if s.lock.ExternalPush? then Is(s.lock.task, x) else 0
    case _ => 0
  }

  /** Does a worker begin to run x: its own newest task, a victim's oldest, or the oldest public one? */
  ghost function Started(s: State, step: Step, x: Task): nat
    requires WellFormed(s) && Enabled(s, step)
  {
    match step
    case Go(w) =>
      var local := s.workers[w].local;
      if s.workers[w].mode == LocalPop && local != [] then Is(local[|local| - 1], x)
      else if s.workers[w].mode == CheckPublic && s.publicQueue != [] then Is(s.publicQueue[0], x)
      else 0
    case StealFrom(_, v, miss) =>
      if s.workers[v].local != [] && !miss then Is(s.workers[v].local[0], x) else 0
    case _ => 0
  }

  lemma {:induction false} LocalsUpdate(workers: seq<Worker>, w: nat, worker: Worker, x: Task)
    requires w < |workers|
    ensures InLocals(workers[w := worker], x) + Count(workers[w].local, x)
         == InLocals(workers, x) + Count(worker.local, x)
  {
    if w == 0 {
      assert workers[w := worker][1..] == workers[1..];
    } else {
      assert workers[w := worker][1..] == workers[1..][w - 1 := worker];
      LocalsUpdate(workers[1..], w - 1, worker, x);
    }
  }

  lemma {:induction false} LocalsKept(a: seq<Worker>, b: seq<Worker>, x: Task)
    requires |a| == |b| && forall w | 0 <= w < |a| :: a[w].local == b[w].local
    ensures InLocals(a, x) == InLocals(b, x)
  {
    if a != [] { LocalsKept(a[1..], b[1..], x); }
  }

  lemma Newest(q: seq<Task>, x: Task)
    requires q != []
    ensures Count(q, x) == Count(q[..|q| - 1], x) + Is(q[|q| - 1], x)
  {
    assert q == q[..|q| - 1] + [q[|q| - 1]];
  }

  lemma Oldest(q: seq<Task>, x: Task)
    requires q != []
    ensures Count(q, x) == Count(q[1..], x) + Is(q[0], x)
  {
    assert q == [q[0]] + q[1..];
  }

  // ----- Steps -----

  ghost predicate SameLocals(s: State, s': State) {
    |s'.workers| == |s.workers| && forall v | 0 <= v < |s.workers| :: s'.workers[v].local == s.workers[v].local
  }

  lemma SignalKeepsLocals(s: State, e: EventId, bits: Mask)
    requires Live(s, e)
    ensures SameLocals(s, Signal(s, e, bits))
  {
  }

  lemma WakeKeepsLocals(s: State, w: nat)
    requires WellFormed(s) && Enabled(s, Go(w)) && s.workers[w].mode == WakeOne
    ensures SameLocals(s, GoNext(s, w))
  {
    if s.num > 0 { SignalKeepsLocals(s, s.waiters[s.num - 1], AVAILABLE); }
  }

  lemma OwnLocalKept(s: State, w: nat)
    requires WellFormed(s) && Enabled(s, Go(w))
    requires s.workers[w].mode != LocalPop && s.workers[w].mode != WakeOne
    ensures |GoNext(s, w).workers| == |s.workers| && GoNext(s, w).workers[w].local == s.workers[w].local
  {
    match s.workers[w].mode
    case LoopTop =>
    case AddContinuation =>
    case Sleeping =>
    case Remove(_) =>
    case _ =>
  }

  lemma GoKeepsLocals(s: State, w: nat)
    requires WellFormed(s) && Enabled(s, Go(w)) && s.workers[w].mode != LocalPop
    ensures SameLocals(s, GoNext(s, w))
  {
    if s.workers[w].mode == WakeOne {
      WakeKeepsLocals(s, w);
    } else {
      OwnLocalKept(s, w);
      forall v: nat | v < |s.workers| && v != w ensures GoNext(s, w).workers[v].local == s.workers[v].local {
        OtherGoKeepsWorker(s, w, v);
      }
    }
  }

  lemma GoTakesPublic(s: State, w: nat)
    requires WellFormed(s) && Enabled(s, Go(w))
    ensures GoNext(s, w).publicQueue == if s.workers[w].mode == CheckPublic && s.publicQueue != []
                                        then s.publicQueue[1..] else s.publicQueue
  {
  }

  lemma GoConserves(s: State, w: nat, x: Task)
    requires WellFormed(s) && Enabled(s, Go(w))
    ensures Queued(GoNext(s, w), x) + Started(s, Go(w), x) == Queued(s, x)
  {
    if s.workers[w].mode == LocalPop {
      PopConserves(s, w, x);
    } else {
      GoKeepsLocals(s, w);
      GoTakesPublic(s, w);
      LocalsKept(GoNext(s, w).workers, s.workers, x);
      if s.publicQueue != [] { Oldest(s.publicQueue, x); }
    }
  }

  lemma PopConserves(s: State, w: nat, x: Task)
    requires WellFormed(s) && Enabled(s, Go(w)) && s.workers[w].mode == LocalPop
    ensures Queued(GoNext(s, w), x) + Started(s, Go(w), x) == Queued(s, x)
  {
    LocalsUpdate(s.workers, w, GoNext(s, w).workers[w], x);
    if s.workers[w].local != [] { Newest(s.workers[w].local, x); }
  }

  lemma StealConserves(s: State, w: nat, v: nat, miss: bool, x: Task)
    requires WellFormed(s) && Enabled(s, StealFrom(w, v, miss))
    ensures Queued(StealNext(s, w, v, miss), x) + Started(s, StealFrom(w, v, miss), x) == Queued(s, x)
  {
    var s' := StealNext(s, w, v, miss);
    LocalsUpdate(s.workers, w, s'.workers[w], x);
    if s.workers[v].local != [] && !miss {
      LocalsUpdate(s.workers[w := s'.workers[w]], v, s'.workers[v], x);
      Oldest(s.workers[v].local, x);
    }
  }

  lemma ScheduleConserves(s: State, w: nat, t: Task, x: Task)
    requires WellFormed(s) && Enabled(s, BodySchedules(w, t))
    ensures Queued(Apply(s, BodySchedules(w, t)), x) == Queued(s, x) + Is(t, x)
  {
    LocalsUpdate(s.workers, w, Apply(s, BodySchedules(w, t)).workers[w], x);
  }

  lemma OutsiderKeepsQueues(s: State)
    requires WellFormed(s) && Enabled(s, Outsider)
    ensures var s' := OutsiderNext(s);
            && |s'.workers| == |s.workers|
            && (forall v | 0 <= v < |s.workers| :: s'.workers[v].local == s.workers[v].local)
            && s'.publicQueue == if s.lock.ExternalPush? then s.publicQueue + [s.lock.task] else s.publicQueue
  {
  }

  lemma OutsiderConserves(s: State, x: Task)
    requires WellFormed(s) && Enabled(s, Outsider)
    ensures Queued(OutsiderNext(s), x) == Queued(s, x) + Scheduled(s, Outsider, x)
  {
    OutsiderKeepsQueues(s);
    LocalsKept(OutsiderNext(s).workers, s.workers, x);
  }

  lemma OtherKeepsQueues(s: State, step: Step, x: Task)
    requires WellFormed(s) && Enabled(s, step)
    requires !step.Go? && !step.StealFrom? && !step.BodySchedules? && !step.Outsider?
    ensures Queued(Apply(s, step), x) == Queued(s, x)
  {
    LocalsKept(Apply(s, step).workers, s.workers, x);
  }

  /** Every step moves tasks into, between and out of the queues without losing or copying one. */
  lemma StepConserves(s: State, step: Step, s': State, x: Task)
    requires Next(s, step, s')
    ensures Queued(s', x) + Started(s, step, x) == Queued(s, x) + Scheduled(s, step, x)
  {
    match step
    case Go(w) => GoConserves(s, w, x);
    case StealFrom(w, v, miss) => StealConserves(s, w, v, miss, x);
    case BodySchedules(w, t) => ScheduleConserves(s, w, t, x);
    case Outsider => OutsiderConserves(s, x);
    case _ => OtherKeepsQueues(s, step, x);
  }

  // ----- Runs -----

  ghost function TimesScheduled(run: Trace<State, Step>, x: Task): nat
    requires Run(run)
  {
    match run
    case Start(_) => 0
    case Then(before, step, _) => TimesScheduled(before, x) + Scheduled(before.Last(), step, x)
  }

  ghost function TimesStarted(run: Trace<State, Step>, x: Task): nat
    requires Run(run)
  {
    match run
    case Start(_) => 0
    case Then(before, step, _) => TimesStarted(before, x) + Started(before.Last(), step, x)
  }

  lemma {:induction false} NothingQueued(workers: seq<Worker>, x: Task)
    requires forall w | 0 <= w < |workers| :: workers[w].local == []
    ensures InLocals(workers, x) == 0
  {
    if workers != [] { NothingQueued(workers[1..], x); }
  }

  /** In every state of every run a scheduled task is in one queue or has been started, once. */
  lemma {:induction false} RunConserves(run: Trace<State, Step>, x: Task)
    requires Run(run)
    ensures TimesScheduled(run, x) == TimesStarted(run, x) + Queued(run.Last(), x)
  {
    match run
    case Start(s) => NothingQueued(s.workers, x);
    case Then(before, step, s) => RunConserves(before, x); StepConserves(before.Last(), step, s, x);
  }

  /** Shutdown loses nothing: when every worker has left, every task ever scheduled has been
      started exactly once, unless somebody outside has scheduled after shutdown was set. */
  lemma {:induction false} EverythingRan(run: Trace<State, Step>, x: Task)
    requires Run(run) && !run.Last().late
    requires forall w | 0 <= w < |run.Last().workers| :: run.Last().workers[w].mode == Exited
    ensures TimesStarted(run, x) == TimesScheduled(run, x)
  {
    RunConserves(run, x);
    RunDrains(run);
    NothingQueued(run.Last().workers, x);
  }
}
