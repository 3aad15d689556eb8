/**
The one moment at which every worker of the pool may be asleep while a task is queued, for a
pool of any size: an outside thread has pushed and not yet signalled.
 */
module ThreadPoolWindow {
  import opened Common
  import opened PoolEvents
  import opened ThreadPool
  import opened ThreadPoolProof
  import opened ThreadPoolTheorems

  /** A set of states that no step leaves. */
  type States = State -> bool

  ghost predicate Closed(reach: States) {
    forall s, step, s' :: reach(s) && Next(s, step, s') ==> reach(s')
  }

  function NewWorker(mode: Mode): Worker {
    Worker([], [Frame(None, false, NO_EVENTS)], mode)
  }

  /** A state in which worker w has no task, no wait and nothing pending. */
  ghost predicate IdleAt(s: State, w: nat, mode: Mode) {
    WellFormed(s) && w < |s.workers| && s.workers[w] == NewWorker(mode)
  }

  // ----- What one idle worker does -----

  lemma TopStep(reach: States, s: State, w: nat)
    requires Closed(reach) && reach(s) && IdleAt(s, w, LoopTop)
    ensures reach(SetMode(s, w, LocalPop))
  {
    assert Next(s, Go(w), SetMode(s, w, LocalPop));
  }

  lemma PopStep(reach: States, s: State, w: nat)
    requires Closed(reach) && reach(s) && IdleAt(s, w, LocalPop)
    ensures reach(SetMode(s, w, Stealing({})))
  {
    assert Next(s, Go(w), SetMode(s, w, Stealing({})));
  }

  lemma StealStep(reach: States, s: State, w: nat, v: nat, tried: set<nat>)
    requires Closed(reach) && reach(s) && IdleAt(s, w, Stealing(tried))
    requires v < |s.workers| && v != w && v !in tried && s.workers[v].local == []
    ensures reach(SetMode(s, w, Stealing(tried + {v})))
  {
    assert Next(s, StealFrom(w, v, false), SetMode(s, w, Stealing(tried + {v})));
  }

  lemma GiveUpStep(reach: States, s: State, w: nat, tried: set<nat>)
    requires Closed(reach) && reach(s) && IdleAt(s, w, Stealing(tried))
    requires forall v: nat | v < |s.workers| && v != w :: v in tried
    ensures reach(SetMode(s, w, WantLock))
  {
    assert Next(s, Go(w), SetMode(s, w, WantLock));
  }

  lemma LockStep(reach: States, s: State, w: nat)
    requires Closed(reach) && reach(s) && IdleAt(s, w, WantLock) && s.lock == Free
    ensures reach(SetMode(s, w, CheckPublic).(lock := Held(w)))
  {
    assert Next(s, Go(w), SetMode(s, w, CheckPublic).(lock := Held(w)));
  }

  lemma PublicStep(reach: States, s: State, w: nat)
    requires Closed(reach) && reach(s) && IdleAt(s, w, CheckPublic) && s.publicQueue == [] && !s.shutdown
    ensures reach(SetMode(s, w, Register))
  {
    assert Next(s, Go(w), SetMode(s, w, Register));
  }

  lemma RegisterStep(reach: States, s: State, w: nat)
    requires Closed(reach) && reach(s) && IdleAt(s, w, Register)
    ensures reach(SetMode(s, w, Sleeping).(waiters := s.waiters[s.num := EventId(w, 0)], num := s.num + 1,
                                           lock := Free))
  {
    assert Next(s, Go(w), SetMode(s, w, Sleeping).(waiters := s.waiters[s.num := EventId(w, 0)], num := s.num + 1,
                                                   lock := Free));
  }

  // ----- The whole pool goes to sleep -----

  /** A pool of n workers of which the first i sleep, worker i is at `mode` and the rest have not moved. */
  function Pool(n: nat, i: nat, lock: Lock, mode: Mode): (s: State)
    requires i <= n
    ensures |s.workers| == |s.waiters| == n
    ensures forall j | 0 <= j < n :: s.waiters[j] == EventId(j, 0)
    ensures forall j | 0 <= j < n ::
              s.workers[j] == NewWorker(if j < i then Sleeping else if j == i then mode else LoopTop)
  {
    State(lock, [], false, i, seq(n, j requires 0 <= j < n => EventId(j, 0)),
          seq(n, j requires 0 <= j < n => NewWorker(if j < i then Sleeping else if j == i then mode else LoopTop)),
          {}, {}, false)
  }

  lemma PoolIdle(n: nat, i: nat, lock: Lock, mode: Mode)
    requires i < n && !mode.AddContinuation? && !mode.DropWaiter? && (lock == Free || lock == Held(i))
    ensures IdleAt(Pool(n, i, lock, mode), i, mode)
  {
  }

  lemma PoolMoves(n: nat, i: nat, lock: Lock, mode: Mode, lock': Lock, mode': Mode)
    requires i < n
    ensures SetMode(Pool(n, i, lock, mode), i, mode').(lock := lock') == Pool(n, i, lock', mode')
  {
    assert Pool(n, i, lock, mode).workers[i := NewWorker(mode')] == Pool(n, i, lock', mode').workers;
  }

  lemma PoolRegisters(n: nat, i: nat)
    requires i < n
    ensures var s := Pool(n, i, Held(i), Register);
            SetMode(s, i, Sleeping).(waiters := s.waiters[s.num := EventId(i, 0)], num := s.num + 1, lock := Free)
              == Pool(n, i + 1, Free, LoopTop)
  {
    var s, s' := Pool(n, i, Held(i), Register), Pool(n, i + 1, Free, LoopTop);
    assert s.waiters[i := EventId(i, 0)] == s'.waiters;
    assert s.workers[i := NewWorker(Sleeping)] == s'.workers;
  }

  /** Worker i tries the victims it has not tried, finds their queues empty, and gives up. */
  lemma {:induction false} TriesAll(reach: States, n: nat, i: nat, k: nat, tried: set<nat>)
    requires Closed(reach) && i < n && k <= n && reach(Pool(n, i, Free, Stealing(tried)))
    requires forall v: nat :: v in tried <==> v < k && v != i
    ensures reach(Pool(n, i, Free, WantLock))
    decreases n - k
  {
    var s := Pool(n, i, Free, Stealing(tried));
    PoolIdle(n, i, Free, Stealing(tried));
    if k == n {
      GiveUpStep(reach, s, i, tried);
      PoolMoves(n, i, Free, Stealing(tried), Free, WantLock);
    } else if k == i {
      TriesAll(reach, n, i, k + 1, tried);
    } else {
      StealStep(reach, s, i, k, tried);
      PoolMoves(n, i, Free, Stealing(tried), Free, Stealing(tried + {k}));
      TriesAll(reach, n, i, k + 1, tried + {k});
    }
  }

  lemma StartsStealing(reach: States, n: nat, i: nat)
    requires Closed(reach) && i < n && reach(Pool(n, i, Free, LoopTop))
    ensures reach(Pool(n, i, Free, Stealing({})))
  {
    PoolIdle(n, i, Free, LoopTop);
    TopStep(reach, Pool(n, i, Free, LoopTop), i);
    PoolMoves(n, i, Free, LoopTop, Free, LocalPop);
    PoolIdle(n, i, Free, LocalPop);
    PopStep(reach, Pool(n, i, Free, LocalPop), i);
    PoolMoves(n, i, Free, LocalPop, Free, Stealing({}));
  }

  lemma GoesToSleep(reach: States, n: nat, i: nat)
    requires Closed(reach) && i < n && reach(Pool(n, i, Free, WantLock))
    ensures reach(Pool(n, i + 1, Free, LoopTop))
  {
    PoolIdle(n, i, Free, WantLock);
    LockStep(reach, Pool(n, i, Free, WantLock), i);
    PoolMoves(n, i, Free, WantLock, Held(i), CheckPublic);
    PoolIdle(n, i, Held(i), CheckPublic);
    PublicStep(reach, Pool(n, i, Held(i), CheckPublic), i);
    PoolMoves(n, i, Held(i), CheckPublic, Held(i), Register);
    PoolIdle(n, i, Held(i), Register);
    RegisterStep(reach, Pool(n, i, Held(i), Register), i);
    PoolRegisters(n, i);
  }

  lemma {:induction false} AllFallAsleep(reach: States, n: nat, i: nat)
    requires Closed(reach) && i <= n && reach(Pool(n, 0, Free, LoopTop))
    ensures reach(Pool(n, i, Free, LoopTop))
  {
    if i > 0 {
      AllFallAsleep(reach, n, i - 1);
      StartsStealing(reach, n, i - 1);
      TriesAll(reach, n, i - 1, 0, {});
      GoesToSleep(reach, n, i - 1);
    }
  }

  // ----- The window -----

  ghost predicate InWindow(s: State) {
    && !s.shutdown && TaskQueued(s)
    && forall w | 0 <= w < |s.workers| :: |s.workers[w].frames| > 0 && Asleep(s.workers[w])
  }

  lemma PushStep(reach: States, n: nat, t: Task)
    requires Closed(reach) && reach(Pool(n, n, Free, LoopTop))
    ensures exists s :: reach(s) && |s.workers| == n && InWindow(s)
  {
    var s0 := Pool(n, n, Free, LoopTop);
    var s1, s2 := s0.(lock := ExternalPush(t)), s0.(lock := ExternalWake, publicQueue := [t]);
    assert Next(s0, ExternalSchedule(t), s1);
    assert Next(s1, Outsider, s2);
    assert InWindow(s2);
  }

  ghost predicate Reachable(s: State) {
    exists run :: Run(run) && run.Last() == s
  }

  lemma ReachableNext(s: State, step: Step, s': State)
    requires Reachable(s) && Next(s, step, s')
    ensures Reachable(s')
  {
    var run :| Run(run) && run.Last() == s;
    assert Then(run, step, s').Last() == s';
  }

  lemma ReachableStart(n: nat)
    requires n >= 1
    ensures Reachable(Pool(n, 0, Free, LoopTop))
  {
    var run: Trace<State, Step> := Start(Pool(n, 0, Free, LoopTop));
    assert run.Last() == Pool(n, 0, Free, LoopTop);
  }

  /** The exception in ThreadPoolTheorems.NoLostWakeup is needed, whatever the size of the pool. */
  lemma WindowIsReachable(n: nat, t: Task)
    requires n >= 1
    ensures exists s :: Reachable(s) && |s.workers| == n && InWindow(s)
  {
    ghost var reach: State -> bool := s => Reachable(s);
    ReachableStart(n);
    forall s, step, s' | reach(s) && Next(s, step, s') ensures reach(s') { ReachableNext(s, step, s'); }
    AllFallAsleep(reach, n, n);
    PushStep(reach, n, t);
  }
}
