/** From every reachable state with a task queued, before shutdown, the pool can go on to start a task. */
module ThreadPoolProgress {
  import opened Common
  import opened PoolEvents
  import opened ThreadPool
  import opened ThreadPoolProof
  import opened ThreadPoolTheorems
  import opened ThreadPoolConservation

  ghost predicate StartsTask(s: State, step: Step)
    requires WellFormed(s) && Enabled(s, step)
  {
    exists x :: Started(s, step, x) > 0
  }

  /** Some k steps of the pool itself lead from s to the start of a task. */
  ghost predicate StartsWithin(s: State, k: nat)
    decreases k
  {
    && k > 0 && WellFormed(s)
    && exists step :: PoolStep(step) && Enabled(s, step)
                      && (StartsTask(s, step) || StartsWithin(Apply(s, step), k - 1))
  }

  /** A worker that is up, with a task within its reach. */
  ghost predicate Hungry(s: State, w: nat) {
    && w < |s.workers| && |s.workers[w].frames| > 0
    && !Asleep(s.workers[w]) && s.workers[w].mode != Exited
    && (s.workers[w].local != [] || s.publicQueue != [])
  }

  // ----- A measure of what lies before a hungry worker -----

  function Untried(tried: set<nat>, w: nat, n: nat): nat {
    if n == 0 then 0 else Untried(tried, w, n - 1) + if n - 1 != w && n - 1 !in tried then 1 else 0
  }

  lemma {:induction false} UntriedShrinks(tried: set<nat>, w: nat, n: nat, v: nat)
    ensures Untried(tried + {v}, w, n) ==
            Untried(tried, w, n) - if v < n && v != w && v !in tried then 1 else 0
    ensures Untried(tried, w, n) <= n
  {
    if n > 0 { UntriedShrinks(tried, w, n - 1, v); }
  }

  /** The distance of a position from the next attempt to take a task. */
  function Rank(mode: Mode, w: nat, n: nat): nat {
    match mode
    case Sleeping => n + 12
    case Woken(_) => n + 11
    case Remove(_) => n + 10
    case CheckWaiters => n + 9
    case WantLockToWake => n + 8
    case WakeOne => n + 7
    case DropWaiter => n + 6
    case Running => n + 5
    case LoopTop => n + 4
    case LocalPop => n + 3
    case Stealing(tried) => 2 + Untried(tried, w, n)
    case WantLock => 1
    case _ => 0
  }

  /** The steps that the holder of the lock still makes before it lets go. */
  function LockRank(s: State): nat {
    match s.lock
    case Free => 0
    case Held(v) =>
      if v >= |s.workers| then 0
      else
        (match s.workers[v].mode
         case CheckPublic => 4
         case AddContinuation => 3
         case Register => 2
         case WakeOne => 2
         case _ => 1)
    case ExternalPush(_) => 3
    case ExternalWake => 2
    case ExternalDrop => 1
    case Shutdown => s.num + 2
    case Signalling(i) => if i <= s.num then 1 + s.num - i else 0
  }

  predicate WantsLock(mode: Mode) {
    mode.WantLock? || mode.Woken? || mode.WantLockToWake?
  }

  /** The step that brings a hungry worker nearer to a task: its own, or, if it has to wait for
      the lock, that of the holder. */
  ghost function NextFor(s: State, w: nat): Step
    requires w < |s.workers|
  {
    var mode := s.workers[w].mode;
    if WantsLock(mode) && s.lock != Free then
      if s.lock.Held? then Go(s.lock.worker) else Outsider
    else if mode.Running? then BodyReturns(w)
    else if mode.Stealing? && exists v: nat :: v < |s.workers| && v != w && v !in mode.tried then
      var v: nat :| v < |s.workers| && v != w && v !in mode.tried;
      StealFrom(w, v, false)
    else Go(w)
  }

  lemma NextForEnabled(s: State, w: nat)
    requires Inv(s) && WellFormed(s) && Hungry(s, w)
    ensures PoolStep(NextFor(s, w)) && Enabled(s, NextFor(s, w))
  {
    if WantsLock(s.workers[w].mode) && s.lock.Held? {
      var v := s.lock.worker;
      assert ModeInv(s.workers[v], s.lock == Held(v), s.publicQueue == [], s.shutdown);
    }
  }

  /** Worker w is nearer to a task, or as near and the lock is nearer to being free. */
  ghost predicate Closer(s: State, s': State, w: nat) {
    && w < |s.workers| == |s'.workers|
    && var n := |s.workers|;
       var r, r' := Rank(s.workers[w].mode, w, n), Rank(s'.workers[w].mode, w, n);
       || |s'.workers[w].frames| < |s.workers[w].frames|
       || (|s'.workers[w].frames| == |s.workers[w].frames| && r' < r)
       || (|s'.workers[w].frames| == |s.workers[w].frames| && r' == r && LockRank(s') < LockRank(s))
  }

  // ----- Steps that start a task -----

  lemma PublicStarts(s: State, v: nat)
    requires WellFormed(s) && Enabled(s, Go(v)) && s.workers[v].mode == CheckPublic && s.publicQueue != []
    ensures StartsTask(s, Go(v))
  {
    assert Started(s, Go(v), s.publicQueue[0]) == 1;
  }

  lemma PopStarts(s: State, w: nat)
    requires WellFormed(s) && Enabled(s, Go(w)) && s.workers[w].mode == LocalPop && s.workers[w].local != []
    ensures StartsTask(s, Go(w))
  {
    var local := s.workers[w].local;
    assert Started(s, Go(w), local[|local| - 1]) == 1;
  }

  lemma StealStarts(s: State, w: nat, v: nat)
    requires WellFormed(s) && Enabled(s, StealFrom(w, v, false)) && s.workers[v].local != []
    ensures StartsTask(s, StealFrom(w, v, false))
  {
    assert Started(s, StealFrom(w, v, false), s.workers[v].local[0]) == 1;
  }

  // ----- The holder of the lock lets go -----

  lemma HolderReleases(s: State, v: nat)
    requires WellFormed(s) && Enabled(s, Go(v)) && s.lock == Held(v) && HoldsLock(s.workers[v].mode)
    ensures LockRank(GoNext(s, v)) < LockRank(s)
  {
  }

  lemma OutsiderReleases(s: State)
    requires WellFormed(s) && Enabled(s, Outsider)
    ensures LockRank(OutsiderNext(s)) < LockRank(s)
  {
  }

  /** A step that leaves worker w and its queue alone, and takes nothing away. */
  lemma StaysHungry(s: State, s': State, w: nat)
    requires Hungry(s, w) && WantsLock(s.workers[w].mode) && w < |s'.workers|
    requires SameStack(s.workers[w], s'.workers[w]) && s'.workers[w].local == s.workers[w].local
    requires s.publicQueue != [] ==> s'.publicQueue != []
    ensures Hungry(s', w)
  {
  }

  lemma HolderCloser(s: State, w: nat)
    requires Inv(s) && WellFormed(s) && Hungry(s, w) && WantsLock(s.workers[w].mode) && s.lock.Held?
    requires Enabled(s, Go(s.lock.worker)) && !StartsTask(s, Go(s.lock.worker))
    ensures Hungry(GoNext(s, s.lock.worker), w) && Closer(s, GoNext(s, s.lock.worker), w)
  {
    var v := s.lock.worker;
    assert ModeInv(s.workers[v], s.lock == Held(v), s.publicQueue == [], s.shutdown);
    assert v != w;
    HolderReleases(s, v);
    OtherGoKeepsStack(s, v, w);
    GoKeepsLocals(s, v);
    GoTakesPublic(s, v);
    if s.workers[v].mode == CheckPublic && s.publicQueue != [] { PublicStarts(s, v); }
    StaysHungry(s, GoNext(s, v), w);
  }

  lemma OutsiderKeepsStack(s: State, w: nat)
    requires WellFormed(s) && Enabled(s, Outsider) && w < |s.workers|
    ensures |OutsiderNext(s).workers| == |s.workers| && SameStack(s.workers[w], OutsiderNext(s).workers[w])
  {
  }

  lemma OutsiderCloser(s: State, w: nat)
    requires Inv(s) && WellFormed(s) && Hungry(s, w) && WantsLock(s.workers[w].mode) && Enabled(s, Outsider)
    ensures Hungry(OutsiderNext(s), w) && Closer(s, OutsiderNext(s), w)
  {
    OutsiderReleases(s);
    OutsiderKeepsQueues(s);
    OutsiderKeepsStack(s, w);
    StaysHungry(s, OutsiderNext(s), w);
  }

  // ----- The worker's own steps -----

  lemma LoopTopDescends(s: State, w: nat)
    requires WellFormed(s) && Enabled(s, Go(w)) && s.workers[w].mode == LoopTop
    ensures Closer(s, GoNext(s, w), w)
  {
  }

  lemma RemoveDescends(s: State, w: nat)
    requires WellFormed(s) && Enabled(s, Go(w)) && s.workers[w].mode.Remove?
    ensures Closer(s, GoNext(s, w), w)
  {
    UntriedShrinks({}, w, |s.workers|, 0);
  }

  lemma WakeOneDescends(s: State, w: nat)
    requires WellFormed(s) && Enabled(s, Go(w)) && s.workers[w].mode == WakeOne
    ensures Closer(s, GoNext(s, w), w)
  {
  }

  lemma TakesNothing(s: State, w: nat)
    requires WellFormed(s) && Enabled(s, Go(w)) && s.workers[w].mode == LocalPop && s.workers[w].local == []
    ensures Closer(s, GoNext(s, w), w)
  {
    UntriedShrinks({}, w, |s.workers|, 0);
    assert GoNext(s, w) == SetMode(s, w, Stealing({}));
  }

  /** Every step of the loop and of schedule() that takes no task goes on towards the next attempt. */
  lemma GoDescends(s: State, w: nat)
    requires WellFormed(s) && Enabled(s, Go(w))
    requires var mode := s.workers[w].mode; !mode.AddContinuation? && !mode.Register? && !mode.CheckPublic?
    requires s.workers[w].mode == LocalPop ==> s.workers[w].local == []
    ensures Closer(s, GoNext(s, w), w)
  {
    match s.workers[w].mode
    case LoopTop => LoopTopDescends(s, w);
    case LocalPop => TakesNothing(s, w);
    case Remove(_) => RemoveDescends(s, w);
    case WakeOne => WakeOneDescends(s, w);
    case _ =>
  }

  lemma GoCloser(s: State, w: nat)
    requires Inv(s) && WellFormed(s) && Hungry(s, w) && Enabled(s, Go(w)) && !StartsTask(s, Go(w))
    ensures Hungry(GoNext(s, w), w) && Closer(s, GoNext(s, w), w)
  {
    var worker := s.workers[w];
    assert ModeInv(worker, s.lock == Held(w), s.publicQueue == [], s.shutdown);
    if worker.mode == CheckPublic { PublicStarts(s, w); }
    if worker.mode == LocalPop && worker.local != [] {
      PopStarts(s, w);
    }
    GoDescends(s, w);
    GoStaysHungry(s, w);
  }

  lemma GoStaysHungry(s: State, w: nat)
    requires Inv(s) && WellFormed(s) && Hungry(s, w) && Enabled(s, Go(w))
    requires var mode := s.workers[w].mode; !mode.AddContinuation? && !mode.Register? && !mode.CheckPublic?
    requires s.workers[w].mode == LocalPop ==> s.workers[w].local == []
    ensures Hungry(GoNext(s, w), w)
  {
    var s' := GoNext(s, w);
    NextInv(s, Go(w), s');
    assert StackInv(s'.workers[w]);
    SleepStep(s, w);
    if s'.workers[w].mode == Exited { ExitStep(s, w); }
    GoTakesPublic(s, w);
    if s.workers[w].mode == LocalPop {
      assert s' == SetMode(s, w, Stealing({}));
    } else {
      GoKeepsLocals(s, w);
    }
  }

  lemma StealCloser(s: State, w: nat, v: nat)
    requires WellFormed(s) && Hungry(s, w)
    requires Enabled(s, StealFrom(w, v, false)) && !StartsTask(s, StealFrom(w, v, false))
    ensures Hungry(StealNext(s, w, v, false), w) && Closer(s, StealNext(s, w, v, false), w)
  {
    if s.workers[v].local != [] {
      StealStarts(s, w, v);
    }
    UntriedShrinks(s.workers[w].mode.tried, w, |s.workers|, v);
  }

  lemma NextForCloser(s: State, w: nat)
    requires Inv(s) && WellFormed(s) && Hungry(s, w)
    requires Enabled(s, NextFor(s, w)) && !StartsTask(s, NextFor(s, w))
    ensures Hungry(Apply(s, NextFor(s, w)), w) && Closer(s, Apply(s, NextFor(s, w)), w)
  {
    var step := NextFor(s, w);
    match step
    case Go(v) => if v == w { GoCloser(s, w); } else { HolderCloser(s, w); }
    case StealFrom(_, v, _) => StealCloser(s, w, v);
    case BodyReturns(_) =>
    case Outsider => OutsiderCloser(s, w);
  }

  // ----- The theorem -----

  lemma {:induction false} HungryStarts(s: State, w: nat) returns (k: nat)
    requires Inv(s) && Hungry(s, w)
    ensures StartsWithin(s, k)
    decreases |s.workers[w].frames|, Rank(s.workers[w].mode, w, |s.workers|), LockRank(s)
  {
    InvIsSafe(s);
    NextForEnabled(s, w);
    var step := NextFor(s, w);
    if StartsTask(s, step) {
      k := 1;
    } else {
      var s' := Apply(s, step);
      NextForCloser(s, w);
      NextInv(s, step, s');
      k := HungryStarts(s', w);
      k := k + 1;
      assert StartsWithin(Apply(s, step), k - 1);
    }
  }

  /** Between an outside push and its signal everybody may sleep; the signal wakes somebody. */
  lemma SignalWakes(s: State)
    requires Inv(s) && WellFormed(s) && s.lock == ExternalWake && s.publicQueue != []
    requires forall w: nat | w < |s.workers| :: |s.workers[w].frames| > 0 && Asleep(s.workers[w])
    ensures Enabled(s, Outsider) && exists w :: Hungry(OutsiderNext(s), w)
  {
    assert Listed(s, EventOf(s, 0));
    var e := s.waiters[s.num - 1];
    LastEntry(s);
    var worker := OutsiderNext(s).workers[e.worker];
    assert Top(worker).mask.available;
    assert Hungry(OutsiderNext(s), e.worker);
  }

  lemma SomebodyHungry(s: State)
    requires Inv(s) && !s.shutdown && TaskQueued(s)
    requires s.lock == ExternalWake ==>
               exists w: nat :: w < |s.workers| && |s.workers[w].frames| > 0 && !Asleep(s.workers[w])
    ensures exists w :: Hungry(s, w)
  {
    assert forall w: nat | w < |s.workers| :: StackInv(s.workers[w]);
    if w: nat :| w < |s.workers| && s.workers[w].local != [] {
      assert ModeInv(s.workers[w], s.lock == Held(w), s.publicQueue == [], s.shutdown);
      assert Hungry(s, w);
    } else {
      var w: nat :| w < |s.workers| && |s.workers[w].frames| > 0 && !Asleep(s.workers[w]);
      assert ModeInv(s.workers[w], s.lock == Held(w), s.publicQueue == [], s.shutdown);
      assert Hungry(s, w);
    }
  }

  /** From every reachable state before shutdown in which a task is queued, some finite number of
      steps of the pool itself, with no help from outside, starts a task. */
  lemma {:induction false} QueuedTaskStarts(run: Trace<State, Step>)
    requires Run(run) && !run.Last().shutdown && TaskQueued(run.Last())
    ensures exists k :: StartsWithin(run.Last(), k)
  {
    RunInv(run);
    var s := run.Last();
    InvIsSafe(s);
    assert forall w: nat | w < |s.workers| :: StackInv(s.workers[w]);
    if s.lock == ExternalWake && (forall w: nat | w < |s.workers| :: Asleep(s.workers[w])) {
      var k := WindowStarts(s);
    } else {
      SomebodyHungry(s);
      var w :| Hungry(s, w);
      var k := HungryStarts(s, w);
    }
  }

  lemma WindowStarts(s: State) returns (k: nat)
    requires Inv(s) && WellFormed(s) && !s.shutdown && TaskQueued(s) && s.lock == ExternalWake
    requires forall w: nat | w < |s.workers| :: Asleep(s.workers[w])
    ensures StartsWithin(s, k)
  {
    forall w: nat | w < |s.workers| ensures s.workers[w].local == [] {
      assert ModeInv(s.workers[w], s.lock == Held(w), s.publicQueue == [], s.shutdown);
    }
    SignalWakes(s);
    var w :| Hungry(OutsiderNext(s), w);
    NextInv(s, Outsider, OutsiderNext(s));
    k := HungryStarts(OutsiderNext(s), w);
    k := k + 1;
    assert StartsWithin(Apply(s, Outsider), k - 1);
  }
}
