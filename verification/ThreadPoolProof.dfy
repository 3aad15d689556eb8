/** The inductive invariant of the thread pool. */
module ThreadPoolProof {
  import opened Common
  import opened PoolEvents
  import opened ThreadPool

  predicate HoldsLock(mode: Mode) {
    mode.CheckPublic? || mode.AddContinuation? || mode.Register? || mode.Remove? || mode.WakeOne? || mode.DropWaiter?
  }

  /** Past a failed local pop: the local queue is empty, and nobody else adds to it. */
  predicate PastLocalPop(mode: Mode) {
    || mode.Stealing? || mode.WantLock? || mode.CheckPublic? || mode.AddContinuation? || mode.Register?
    || mode.Sleeping? || mode.Woken? || mode.Remove? || mode.Exited?
  }

  /** Between appending the event to the list and taking it off. */
  predicate Waiting(mode: Mode) {
    mode.Sleeping? || mode.Woken? || mode.Remove?
  }

  predicate Asleep(worker: Worker)
    requires |worker.frames| > 0
  {
    worker.mode == Sleeping && Top(worker).mask == NO_EVENTS
  }

  predicate TookFinished(mode: Mode) {
    (mode.Woken? || mode.Remove?) && mode.finished
  }

  /** The stack of a worker: the main loop, then one activation per nested wait. */
  predicate StackInv(worker: Worker) {
    && |worker.frames| > 0
    && (forall d | 0 <= d < |worker.frames| :: worker.frames[d].waitOn == None <==> d == 0)
    && (forall d | 0 <= d < |worker.frames| :: worker.frames[d].waitOn == None ==> !worker.frames[d].added)
  }

  /** What the position of a worker implies about the state around it. */
  predicate ModeInv(worker: Worker, holds: bool, publicEmpty: bool, shutdown: bool)
    requires |worker.frames| > 0
  {
    var f := Top(worker);
    && (HoldsLock(worker.mode) <==> holds)
    && (PastLocalPop(worker.mode) ==> worker.local == [])
    && (worker.mode.AddContinuation? ==> publicEmpty && f.waitOn.Some? && !f.added)
    && (worker.mode.Register? ==> publicEmpty && (f.waitOn == None ==> !shutdown))
    && (worker.mode.Register? || Waiting(worker.mode) ==> f.waitOn.Some? ==> f.added)
    && (worker.mode.Exited? ==> shutdown && |worker.frames| == 1)
  }

  /** A frame that has added its continuation has exactly one of: the continuation, still to
      fire; the bit, set in the mask; the bit, just taken out of the mask by wait(). */
  ghost predicate FinishInv(s: State, w: nat, d: nat)
    requires w < |s.workers| && d < |s.workers[w].frames|
  {
    var worker := s.workers[w];
    var f := worker.frames[d];
    var pending := f.waitOn.Some? && Continuation(f.waitOn.value, EventId(w, d)) in s.continuations;
    var took := d == |worker.frames| - 1 && TookFinished(worker.mode);
    && (f.added <==> pending || f.mask.finished || took)
    && !(pending && f.mask.finished) && !(pending && took) && !(f.mask.finished && took)
    && (f.mask.finished || took ==> f.waitOn.Some? && f.waitOn.value in s.finals)
  }

  /** Every continuation belongs to the live frame whose event it will signal. */
  ghost predicate OwnedInv(s: State, c: Continuation) {
    Live(s, c.event) && s.workers[c.event.worker].frames[c.event.depth].waitOn == Some(c.task)
  }

  /** Distinct entries, each the innermost event of a worker between append and removal. */
  ghost predicate ListInv(s: State) {
    && s.num <= |s.waiters| == |s.workers|
    && (forall i, j | 0 <= i < j < s.num :: s.waiters[i] != s.waiters[j])
    && (forall j | 0 <= j < s.num :: Entry(s, s.waiters[j]))
  }

  ghost predicate Entry(s: State, e: EventId) {
    && Live(s, e)
    && e.depth == |s.workers[e.worker].frames| - 1
    && Waiting(s.workers[e.worker].mode)
  }

  ghost predicate Listed(s: State, e: EventId)
    requires s.num <= |s.waiters|
  {
    exists j :: 0 <= j < s.num && s.waiters[j] == e
  }

  /** Sleepers are listed; an entry about to be dropped has been woken. */
  ghost predicate SleepInv(s: State)
    requires ListInv(s) && forall w | 0 <= w < |s.workers| :: |s.workers[w].frames| > 0
  {
    && (forall w: nat | w < |s.workers| && Asleep(s.workers[w]) :: Listed(s, EventOf(s, w)))
    && (s.lock == ExternalDrop ==> s.num > 0 && AwakeEntry(s, s.num - 1))
    && (s.lock.Held? && s.lock.worker < |s.workers| && s.workers[s.lock.worker].mode == DropWaiter ==>
          s.num > 0 && AwakeEntry(s, s.num - 1))
    && (s.lock.Signalling? ==>
          s.shutdown && s.lock.next <= s.num && forall j | 0 <= j < s.lock.next :: AwakeEntry(s, j))
    && (s.shutdown && !s.lock.Signalling? ==>
          forall w | 0 <= w < |s.workers| && |s.workers[w].frames| == 1 :: !Asleep(s.workers[w]))
  }

  ghost predicate AwakeEntry(s: State, j: nat)
    requires ListInv(s) && j < s.num
  {
    assert Entry(s, s.waiters[j]);
    !Asleep(s.workers[s.waiters[j].worker])
  }

  /** Before shutdown, a task in the public queue keeps some worker awake. */
  ghost predicate WakeInv(s: State)
    requires forall w | 0 <= w < |s.workers| :: |s.workers[w].frames| > 0
  {
    s.publicQueue != [] && s.lock != ExternalWake && !s.shutdown ==>
      exists w: nat :: w < |s.workers| && !Asleep(s.workers[w])
  }

  /** Once a worker has left, the public queue stays empty unless an outsider adds to it. */
  ghost predicate DrainInv(s: State) {
    !s.late ==> (exists w: nat :: w < |s.workers| && s.workers[w].mode.Exited?) ==> s.publicQueue == []
  }

  ghost predicate WorkersInv(s: State) {
    && |s.workers| > 0
    && (forall w | 0 <= w < |s.workers| :: StackInv(s.workers[w]))
    && (forall w | 0 <= w < |s.workers| ::
          ModeInv(s.workers[w], s.lock == Held(w), s.publicQueue == [], s.shutdown))
    && (s.lock.Held? ==> s.lock.worker < |s.workers|)
    && (s.lock == Shutdown ==> !s.shutdown)
  }

  ghost predicate ContinuationsInv(s: State) {
    && (forall w: nat, d: nat | w < |s.workers| && d < |s.workers[w].frames| :: FinishInv(s, w, d))
    && (forall c | c in s.continuations :: OwnedInv(s, c))
  }

  ghost predicate Inv(s: State) {
    WorkersInv(s) && ContinuationsInv(s) && ListInv(s) && SleepInv(s) && WakeInv(s) && DrainInv(s)
  }

  lemma InitInv(s: State)
    requires Init(s)
    ensures Inv(s)
  {
  }

  // ----- Steps of one worker -----

  /** Nothing that the other workers' part of the invariant depends on has changed. */
  ghost predicate OnlyWorker(s: State, s': State, w: nat) {
    && w < |s.workers| == |s'.workers|
    && (forall v | 0 <= v < |s.workers| && v != w :: s'.workers[v] == s.workers[v])
    && s'.finals == s.finals && s'.shutdown == s.shutdown
    && (forall c: Continuation | c.event.worker != w :: c in s'.continuations <==> c in s.continuations)
    && (s'.lock != s.lock ==> (s.lock == Free || s.lock == Held(w)) && (s'.lock == Free || s'.lock == Held(w)))
    && (s'.publicQueue != s.publicQueue ==> s.lock == Held(w))
  }

  lemma WorkerChanges(s: State, s': State, w: nat)
    requires Inv(s) && OnlyWorker(s, s', w)
    requires StackInv(s'.workers[w])
    requires ModeInv(s'.workers[w], s'.lock == Held(w), s'.publicQueue == [], s'.shutdown)
    requires forall d: nat | d < |s'.workers[w].frames| :: FinishInv(s', w, d)
    requires forall c | c in s'.continuations && c.event.worker == w :: OwnedInv(s', c)
    ensures WorkersInv(s') && ContinuationsInv(s')
  {
    forall v | 0 <= v < |s'.workers| && v != w
      ensures StackInv(s'.workers[v]) && ModeInv(s'.workers[v], s'.lock == Held(v), s'.publicQueue == [], s'.shutdown)
    {
      assert ModeInv(s.workers[v], s.lock == Held(v), s.publicQueue == [], s.shutdown);
    }
    forall v: nat, d: nat | v < |s'.workers| && d < |s'.workers[v].frames| ensures FinishInv(s', v, d) {
      if v != w { assert FinishInv(s, v, d); }
    }
    forall c | c in s'.continuations && c.event.worker != w ensures OwnedInv(s', c) {
      assert OwnedInv(s, c);
    }
  }

  /** The same when the worker's frames stay as they are. */
  lemma FramesKept(s: State, s': State, w: nat)
    requires Inv(s) && OnlyWorker(s, s', w)
    requires s'.workers[w].frames == s.workers[w].frames && s'.continuations == s.continuations
    requires TookFinished(s'.workers[w].mode) == TookFinished(s.workers[w].mode)
    requires ModeInv(s'.workers[w], s'.lock == Held(w), s'.publicQueue == [], s'.shutdown)
    ensures WorkersInv(s') && ContinuationsInv(s')
  {
    assert StackInv(s.workers[w]);
    forall d: nat | d < |s'.workers[w].frames| ensures FinishInv(s', w, d) {
      assert FinishInv(s, w, d);
    }
    forall c | c in s'.continuations && c.event.worker == w ensures OwnedInv(s', c) {
      assert OwnedInv(s, c);
    }
    WorkerChanges(s, s', w);
  }

  /** Only worker w has changed, and it is neither asleep nor on the list. */
  ghost predicate Quiet(s: State, s': State, w: nat) {
    && w < |s.workers| == |s'.workers|
    && s' == s.(workers := s.workers[w := s'.workers[w]], lock := s'.lock, publicQueue := s'.publicQueue)
    && |s.workers[w].frames| > 0 && |s'.workers[w].frames| > 0
    && !Asleep(s.workers[w]) && !Asleep(s'.workers[w])
    && (forall j | 0 <= j < s.num <= |s.waiters| :: s.waiters[j].worker != w)
    && (s'.lock != s.lock ==> (s.lock == Free || s.lock == Held(w)) && (s'.lock == Free || s'.lock == Held(w)))
    && (s'.publicQueue != s.publicQueue ==> s.lock == Held(w) && s.publicQueue != [])
    && s'.workers[w].mode != DropWaiter
  }

  lemma QuietEntries(s: State, s': State, w: nat)
    requires Inv(s) && Quiet(s, s', w)
    ensures ListInv(s') && forall j | 0 <= j < s.num && AwakeEntry(s, j) :: AwakeEntry(s', j)
  {
    assert forall v | 0 <= v < |s.workers| && v != w :: s'.workers[v] == s.workers[v];
    forall j | 0 <= j < s.num ensures Entry(s', s'.waiters[j]) {
      assert Entry(s, s.waiters[j]);
    }
  }

  lemma QuietListed(s: State, s': State, w: nat)
    requires Inv(s) && Quiet(s, s', w) && ListInv(s') && forall v | 0 <= v < |s'.workers| :: |s'.workers[v].frames| > 0
    ensures forall v: nat | v < |s'.workers| && Asleep(s'.workers[v]) :: Listed(s', EventOf(s', v))
  {
    assert forall v | 0 <= v < |s.workers| && v != w :: s'.workers[v] == s.workers[v];
    forall v: nat | v < |s'.workers| && Asleep(s'.workers[v]) ensures Listed(s', EventOf(s', v)) {
      assert Listed(s, EventOf(s, v));
    }
  }

  /** Only the lock of a worker that is not dropping an entry can have changed hands. */
  lemma QuietLock(s: State, s': State, w: nat)
    requires Inv(s) && Quiet(s, s', w)
    ensures s'.lock == ExternalDrop || s'.lock.Signalling? ==> s'.lock == s.lock
    ensures s'.lock.Held? && s'.lock.worker < |s'.workers| && s'.workers[s'.lock.worker].mode == DropWaiter ==>
              s.lock == s'.lock && s.workers[s.lock.worker].mode == DropWaiter
    ensures s'.shutdown && !s'.lock.Signalling? ==> s.shutdown && !s.lock.Signalling?
  {
    assert forall v | 0 <= v < |s.workers| && v != w :: s'.workers[v] == s.workers[v];
  }

  lemma QuietSleepers(s: State, s': State, w: nat)
    requires Inv(s) && Quiet(s, s', w) && ListInv(s') && forall v | 0 <= v < |s'.workers| :: |s'.workers[v].frames| > 0
    requires forall j | 0 <= j < s.num && AwakeEntry(s, j) :: AwakeEntry(s', j)
    ensures SleepInv(s')
  {
    QuietListed(s, s', w);
    QuietLock(s, s', w);
    assert forall v | 0 <= v < |s.workers| && v != w :: s'.workers[v] == s.workers[v];
  }

  lemma QuietLists(s: State, s': State, w: nat)
    requires Inv(s) && Quiet(s, s', w) && WorkersInv(s')
    requires s'.workers[w].mode.Exited? ==> s.shutdown && s.publicQueue == []
    ensures ListInv(s') && SleepInv(s') && WakeInv(s') && DrainInv(s')
  {
    QuietEntries(s, s', w);
    assert forall v | 0 <= v < |s'.workers| :: StackInv(s'.workers[v]);
    QuietSleepers(s, s', w);
    assert !Asleep(s'.workers[w]);
    if s.publicQueue == [] {
    } else if exists v: nat :: v < |s.workers| && s.workers[v].mode.Exited? {
      assert s.late;
    }
  }

  lemma NotListed(s: State, w: nat)
    requires Inv(s) && w < |s.workers| && !Waiting(s.workers[w].mode)
    ensures forall j | 0 <= j < s.num :: s.waiters[j].worker != w
  {
    forall j | 0 <= j < s.num ensures s.waiters[j].worker != w {
      assert Entry(s, s.waiters[j]);
    }
  }

  lemma QuietStep(s: State, s': State, w: nat)
    requires Inv(s) && Quiet(s, s', w)
    requires s'.workers[w].frames == s.workers[w].frames
    requires !TookFinished(s.workers[w].mode) && !TookFinished(s'.workers[w].mode)
    requires ModeInv(s'.workers[w], s'.lock == Held(w), s'.publicQueue == [], s'.shutdown)
    requires s'.workers[w].mode.Exited? ==> s.shutdown && s.publicQueue == []
    ensures Inv(s')
  {
    FramesKept(s, s', w);
    QuietLists(s, s', w);
  }

  lemma LoopTopInv(s: State, w: nat)
    requires Inv(s) && WellFormed(s) && Enabled(s, Go(w)) && s.workers[w].mode.LoopTop?
    requires |GoNext(s, w).workers[w].frames| == |s.workers[w].frames|
    ensures Inv(GoNext(s, w))
  {
    assert GoNext(s, w) == SetMode(s, w, LocalPop);
    NotListed(s, w);
    assert ModeInv(s.workers[w], s.lock == Held(w), s.publicQueue == [], s.shutdown);
    QuietStep(s, SetMode(s, w, LocalPop), w);
  }

  /** The steps of the loop that only move worker w on, or take a task of its own. */
  lemma LoopStepInv(s: State, w: nat)
    requires Inv(s) && WellFormed(s) && Enabled(s, Go(w))
    requires s.workers[w].mode.LocalPop? || s.workers[w].mode.Stealing?
    ensures Inv(GoNext(s, w))
  {
    NotListed(s, w);
    assert ModeInv(s.workers[w], s.lock == Held(w), s.publicQueue == [], s.shutdown);
    QuietStep(s, GoNext(s, w), w);
  }

  lemma WantLockInv(s: State, w: nat)
    requires Inv(s) && WellFormed(s) && Enabled(s, Go(w)) && s.workers[w].mode.WantLock?
    ensures Inv(GoNext(s, w))
  {
    var s' := SetMode(s, w, CheckPublic).(lock := Held(w));
    assert GoNext(s, w) == s';
    NotListed(s, w);
    assert ModeInv(s.workers[w], s.lock == Held(w), s.publicQueue == [], s.shutdown);
    assert StackInv(s.workers[w]);
    QuietStep(s, s', w);
  }

  /** Leaving the lock with a public task, or leaving the loop for good. */
  lemma CheckPublicLeaves(s: State, s': State, w: nat)
    requires Inv(s) && w < |s.workers| && s.workers[w].mode == CheckPublic
    requires if s.publicQueue != [] then
               s' == SetMode(s, w, Running).(publicQueue := s.publicQueue[1..], lock := Free)
             else
               |s.workers[w].frames| > 0 && Top(s.workers[w]).waitOn == None && s.shutdown
               && s' == SetMode(s, w, Exited).(lock := Free)
    ensures Inv(s')
  {
    NotListed(s, w);
    assert ModeInv(s.workers[w], s.lock == Held(w), s.publicQueue == [], s.shutdown);
    assert StackInv(s.workers[w]);
    QuietStep(s, s', w);
  }

  lemma CheckPublicStays(s: State, mode: Mode, w: nat)
    requires Inv(s) && w < |s.workers| && s.workers[w].mode == CheckPublic && s.publicQueue == []
    requires |s.workers[w].frames| > 0
    requires var f := Top(s.workers[w]);
             || (mode == AddContinuation && f.waitOn.Some? && !f.added)
             || (mode == Register && (f.waitOn.Some? ==> f.added) && (f.waitOn == None ==> !s.shutdown))
    ensures Inv(SetMode(s, w, mode))
  {
    NotListed(s, w);
    assert ModeInv(s.workers[w], s.lock == Held(w), s.publicQueue == [], s.shutdown);
    QuietStep(s, SetMode(s, w, mode), w);
  }

  lemma CheckPublicInv(s: State, w: nat)
    requires Inv(s) && WellFormed(s) && Enabled(s, Go(w)) && s.workers[w].mode.CheckPublic?
    ensures Inv(GoNext(s, w))
  {
    var s' := GoNext(s, w);
    var f := Top(s.workers[w]);
    if s.publicQueue != [] || (f.waitOn == None && s.shutdown) {
      CheckPublicLeaves(s, s', w);
    } else {
      CheckPublicStays(s, s'.workers[w].mode, w);
    }
  }

  lemma ScheduleStepInv(s: State, w: nat)
    requires Inv(s) && WellFormed(s) && Enabled(s, Go(w))
    requires var mode := s.workers[w].mode;
             mode.CheckWaiters? || mode.WantLockToWake? || (mode.WakeOne? && s.num == 0)
    ensures Inv(GoNext(s, w))
  {
    NotListed(s, w);
    assert ModeInv(s.workers[w], s.lock == Held(w), s.publicQueue == [], s.shutdown);
    QuietStep(s, GoNext(s, w), w);
  }

  lemma BodyStepInv(s: State, step: Step)
    requires Inv(s) && WellFormed(s) && Enabled(s, step) && (step.BodySchedules? || step.BodyReturns?)
    ensures Inv(Apply(s, step))
  {
    NotListed(s, step.w);
    assert ModeInv(s.workers[step.w], s.lock == Held(step.w), s.publicQueue == [], s.shutdown);
    QuietStep(s, Apply(s, step), step.w);
  }

  // ----- Steals -----

  /** Taking the oldest task out of a local queue disturbs nothing. */
  lemma LocalShrinks(s: State, v: nat)
    requires Inv(s) && v < |s.workers| && s.workers[v].local != []
    ensures Inv(s.(workers := s.workers[v := s.workers[v].(local := s.workers[v].local[1..])]))
  {
    var s' := s.(workers := s.workers[v := s.workers[v].(local := s.workers[v].local[1..])]);
    assert ModeInv(s.workers[v], s.lock == Held(v), s.publicQueue == [], s.shutdown);
    FramesKept(s, s', v);
    ListsKept(s, s');
  }

  lemma StealFailsInv(s: State, w: nat, tried: set<nat>)
    requires Inv(s) && w < |s.workers| && s.workers[w].mode.Stealing?
    ensures Inv(SetMode(s, w, Stealing(tried)))
  {
    assert ModeInv(s.workers[w], s.lock == Held(w), s.publicQueue == [], s.shutdown);
    NotListed(s, w);
    QuietStep(s, SetMode(s, w, Stealing(tried)), w);
  }

  lemma StealRunsInv(s: State, w: nat)
    requires Inv(s) && w < |s.workers| && s.workers[w].mode.Stealing?
    ensures Inv(SetMode(s, w, Running))
  {
    assert ModeInv(s.workers[w], s.lock == Held(w), s.publicQueue == [], s.shutdown);
    NotListed(s, w);
    QuietStep(s, SetMode(s, w, Running), w);
  }

  lemma StealInv(s: State, w: nat, v: nat, miss: bool)
    requires Inv(s) && WellFormed(s) && Enabled(s, StealFrom(w, v, miss))
    ensures Inv(StealNext(s, w, v, miss))
  {
    if s.workers[v].local == [] || miss {
      StealFailsInv(s, w, s.workers[w].mode.tried + {v});
    } else {
      var s1 := s.(workers := s.workers[v := s.workers[v].(local := s.workers[v].local[1..])]);
      LocalShrinks(s, v);
      StealRunsInv(s1, w);
      assert StealNext(s, w, v, miss).workers == SetMode(s1, w, Running).workers;
    }
  }

  // ----- The waiter list -----

  /** A step that keeps the list, puts nobody to sleep and ends nobody's wait. */
  ghost predicate Stirred(s: State, s': State)
    requires ListInv(s)
  {
    && |s'.workers| == |s.workers|
    && (forall v | 0 <= v < |s.workers| ::
          && |s'.workers[v].frames| == |s.workers[v].frames| > 0
          && (Waiting(s.workers[v].mode) ==> Waiting(s'.workers[v].mode))
          && (Asleep(s'.workers[v]) ==> Asleep(s.workers[v]))
          && (s'.workers[v].mode.Exited? ==> s.workers[v].mode.Exited?))
    && s'.num == s.num && s'.waiters == s.waiters
    && s'.shutdown == s.shutdown && s'.late == s.late && s'.publicQueue == s.publicQueue
    && (s'.lock == s.lock || (s.lock == Free && s'.lock.Held?))
    && (s'.lock.Held? && s'.lock.worker < |s.workers| && s'.workers[s'.lock.worker].mode == DropWaiter ==>
          s.num > 0 && AwakeEntry(s, s.num - 1))
  }

  lemma ListsKept(s: State, s': State)
    requires Inv(s) && Stirred(s, s')
    ensures ListInv(s') && SleepInv(s') && WakeInv(s') && DrainInv(s')
  {
    forall j | 0 <= j < s'.num ensures Entry(s', s'.waiters[j]) {
      assert Entry(s, s.waiters[j]);
    }
    assert forall j | 0 <= j < s.num && AwakeEntry(s, j) :: AwakeEntry(s', j);
    forall v: nat | v < |s'.workers| && Asleep(s'.workers[v]) ensures Listed(s', EventOf(s', v)) {
      assert Listed(s, EventOf(s, v));
    }
  }

  /** Dropping the last entry, once it has been woken. */
  lemma ListShrinks(s: State, s': State)
    requires Inv(s) && s.num > 0 && AwakeEntry(s, s.num - 1)
    requires |s'.workers| == |s.workers|
    requires forall v | 0 <= v < |s.workers| ::
          && s'.workers[v].frames == s.workers[v].frames
          && (|| s'.workers[v].mode == s.workers[v].mode
              || (s.workers[v].mode == DropWaiter && s'.workers[v].mode == Running))
    requires s' == s.(workers := s'.workers, num := s.num - 1, lock := Free)
    requires !s.lock.Signalling? && s.lock != ExternalWake
    ensures ListInv(s') && SleepInv(s') && WakeInv(s') && DrainInv(s')
  {
    assert forall v | 0 <= v < |s.workers| :: |s'.workers[v].frames| > 0;
    assert forall v | 0 <= v < |s.workers| :: Asleep(s'.workers[v]) == Asleep(s.workers[v]);
    forall j | 0 <= j < s'.num ensures Entry(s', s'.waiters[j]) {
      assert Entry(s, s.waiters[j]);
    }
    forall v: nat | v < |s'.workers| && Asleep(s'.workers[v]) ensures Listed(s', EventOf(s', v)) {
      assert Listed(s, EventOf(s, v));
      var j :| 0 <= j < s.num && s.waiters[j] == EventOf(s, v);
      assert j != s.num - 1;
      assert s'.waiters[j] == EventOf(s', v);
    }
  }

  /** Appending the event of a worker that holds the lock: there is room, and it is not there yet. */
  lemma RegisterInv(s: State, w: nat)
    requires Inv(s) && WellFormed(s) && Enabled(s, Go(w)) && s.workers[w].mode.Register?
    ensures Inv(GoNext(s, w))
  {
    var s' := GoNext(s, w);
    assert ModeInv(s.workers[w], s.lock == Held(w), s.publicQueue == [], s.shutdown);
    FramesKept(s, s', w);
    RegisterLists(s, s', w);
  }

  lemma RegisterLists(s: State, s': State, w: nat)
    requires Inv(s) && WellFormed(s) && w < |s.workers| && s.workers[w].mode.Register?
    requires ModeInv(s.workers[w], s.lock == Held(w), s.publicQueue == [], s.shutdown)
    requires s' == SetMode(s, w, Sleeping).(waiters := s.waiters[s.num := EventOf(s, w)], num := s.num + 1,
                                            lock := Free)
    ensures ListInv(s') && SleepInv(s') && WakeInv(s') && DrainInv(s')
  {
    NotListed(s, w);
    assert StackInv(s.workers[w]);
    forall j | 0 <= j < s'.num ensures Entry(s', s'.waiters[j]) {
      if j < s.num { assert Entry(s, s.waiters[j]); }
    }
    forall v: nat | v < |s'.workers| && Asleep(s'.workers[v]) ensures Listed(s', EventOf(s', v)) {
      if v == w {
        assert s'.waiters[s.num] == EventOf(s', w);
      } else {
        assert Listed(s, EventOf(s, v));
        var j :| 0 <= j < s.num && s.waiters[j] == EventOf(s, v);
        assert s'.waiters[j] == EventOf(s', v);
      }
    }
  }

  /** Taking the bits out of the mask wakes a worker, still on the list or not. */
  lemma WakeUpInv(s: State, w: nat)
    requires Inv(s) && WellFormed(s) && Enabled(s, Go(w)) && s.workers[w].mode.Sleeping?
    ensures Inv(GoNext(s, w))
  {
    var s' := GoNext(s, w);
    assert StackInv(s.workers[w]) && ModeInv(s.workers[w], s.lock == Held(w), s.publicQueue == [], s.shutdown);
    WakeUpFrames(s, s', w);
    WorkerChanges(s, s', w);
    ListsKept(s, s');
  }

  lemma WakeUpFrames(s: State, s': State, w: nat)
    requires Inv(s) && w < |s.workers| && |s.workers[w].frames| > 0 && s.workers[w].mode.Sleeping?
    requires var worker := s.workers[w];
             s' == s.(workers := s.workers[w := WithTop(worker, Top(worker).(mask := NO_EVENTS)).(
                                                   mode := Woken(Top(worker).mask.finished))])
    ensures forall d: nat | d < |s'.workers[w].frames| :: FinishInv(s', w, d)
    ensures forall c | c in s'.continuations && c.event.worker == w :: OwnedInv(s', c)
  {
    forall d: nat | d < |s'.workers[w].frames| ensures FinishInv(s', w, d) {
      assert FinishInv(s, w, d);
    }
    forall c | c in s'.continuations && c.event.worker == w ensures OwnedInv(s', c) {
      assert OwnedInv(s, c);
    }
  }

  lemma RelockInv(s: State, w: nat)
    requires Inv(s) && WellFormed(s) && Enabled(s, Go(w)) && s.workers[w].mode.Woken?
    ensures Inv(GoNext(s, w))
  {
    var s' := GoNext(s, w);
    assert ModeInv(s.workers[w], s.lock == Held(w), s.publicQueue == [], s.shutdown);
    FramesKept(s, s', w);
    ListsKept(s, s');
  }

  /** Swap-remove takes exactly the worker's own event off the list. */
  lemma RemoveEventEntries(s: State, w: nat)
    requires Inv(s) && w < |s.workers| && |s.workers[w].frames| > 0
    ensures var s' := RemoveEvent(s, EventOf(s, w));
            ListInv(s') && forall j | 0 <= j < s'.num :: s'.waiters[j].worker != w
  {
    var e := EventOf(s, w);
    var s' := RemoveEvent(s, e);
    var i := IndexOf(s.waiters[..s.num], e);
    forall j | 0 <= j < s'.num ensures Entry(s', s'.waiters[j]) && s'.waiters[j].worker != w {
      var k := if j == i then s.num - 1 else j;
      assert Entry(s, s.waiters[k]) && s'.waiters[j] == s.waiters[k];
      assert s.waiters[k] != e by {
        if i < s.num { assert s.waiters[i] == e; } else { assert s.waiters[..s.num][k] == s.waiters[k]; }
      }
    }
  }

  lemma RemoveEventSleepers(s: State, w: nat)
    requires Inv(s) && w < |s.workers| && s.workers[w].mode.Remove?
    ensures var s' := RemoveEvent(s, EventOf(s, w));
            s'.num <= |s'.waiters| &&
            forall v: nat | v < |s'.workers| && Asleep(s'.workers[v]) :: Listed(s', EventOf(s', v))
  {
    var e := EventOf(s, w);
    var s' := RemoveEvent(s, e);
    var i := IndexOf(s.waiters[..s.num], e);
    forall v: nat | v < |s'.workers| && Asleep(s'.workers[v]) ensures Listed(s', EventOf(s', v)) {
      assert Listed(s, EventOf(s, v));
      var j :| 0 <= j < s.num && s.waiters[j] == EventOf(s, v);
      var k := if j == s.num - 1 && i < s.num then i else j;
      assert s'.waiters[k] == EventOf(s, v);
    }
  }

  lemma RemoveEventInv(s: State, w: nat)
    requires Inv(s) && w < |s.workers| && s.workers[w].mode.Remove?
    ensures var s' := RemoveEvent(s, EventOf(s, w));
            Inv(s') && forall j | 0 <= j < s'.num :: s'.waiters[j].worker != w
  {
    var s' := RemoveEvent(s, EventOf(s, w));
    RemoveEventEntries(s, w);
    RemoveEventSleepers(s, w);
    assert ModeInv(s.workers[w], s.lock == Held(w), s.publicQueue == [], s.shutdown);
    FramesKept(s, s', w);
  }

  // ----- Frames come and go -----

  /** A frame is popped only when no continuation can signal its event any more. */
  lemma ReturnInv(s: State, s': State, w: nat)
    requires Inv(s) && Quiet(s, s', w) && |s.workers[w].frames| >= 2
    requires s'.workers[w] == s.workers[w].(frames := s.workers[w].frames[..|s.workers[w].frames| - 1], mode := Running)
    requires s'.lock != Held(w)
    requires FinishInv(s, w, |s.workers[w].frames| - 1)
    requires var f := Top(s.workers[w]); f.mask.finished || TookFinished(s.workers[w].mode) || !f.added
    ensures Inv(s')
  {
    assert StackInv(s.workers[w]);
    forall d: nat | d < |s'.workers[w].frames| ensures FinishInv(s', w, d) {
      assert FinishInv(s, w, d);
    }
    forall c | c in s'.continuations && c.event.worker == w ensures OwnedInv(s', c) {
      assert OwnedInv(s, c);
    }
    WorkerChanges(s, s', w);
    QuietLists(s, s', w);
  }

  lemma FinishedReturnInv(s: State, w: nat)
    requires Inv(s) && WellFormed(s) && Enabled(s, Go(w)) && s.workers[w].mode.LoopTop?
    requires |GoNext(s, w).workers[w].frames| != |s.workers[w].frames|
    ensures Inv(GoNext(s, w))
  {
    NotListed(s, w);
    assert StackInv(s.workers[w]) && ModeInv(s.workers[w], s.lock == Held(w), s.publicQueue == [], s.shutdown);
    assert FinishInv(s, w, |s.workers[w].frames| - 1);
    ReturnInv(s, GoNext(s, w), w);
  }

  lemma AfterWaitInv(s: State, s1: State, w: nat)
    requires Inv(s) && WellFormed(s) && Enabled(s, Go(w)) && s.workers[w].mode.Remove?
    requires Inv(s1) && s1 == s.(waiters := s1.waiters, num := s1.num)
    requires forall j | 0 <= j < s1.num :: s1.waiters[j].worker != w
    ensures var worker := s.workers[w];
            var s' := if Top(worker).waitOn.Some? && worker.mode.finished
                      then Return(s1.(lock := Free), w) else SetMode(s1.(lock := Free), w, Stealing({}));
            Inv(s')
  {
    assert StackInv(s.workers[w]) && ModeInv(s.workers[w], s.lock == Held(w), s.publicQueue == [], s.shutdown);
    assert FinishInv(s1, w, |s.workers[w].frames| - 1);
    if s.workers[w].mode.finished {
      ReturnInv(s1, Return(s1.(lock := Free), w), w);
    } else {
      QuietStep(s1, SetMode(s1.(lock := Free), w, Stealing({})), w);
    }
  }

  lemma RemoveInv(s: State, w: nat)
    requires Inv(s) && WellFormed(s) && Enabled(s, Go(w)) && s.workers[w].mode.Remove?
    ensures Inv(GoNext(s, w))
  {
    RemoveEventInv(s, w);
    AfterWaitInv(s, RemoveEvent(s, EventOf(s, w)), w);
  }

  lemma BodyWaitsInv(s: State, w: nat, t: Task)
    requires Inv(s) && WellFormed(s) && Enabled(s, BodyWaits(w, t))
    ensures Inv(Apply(s, BodyWaits(w, t)))
  {
    var s' := Apply(s, BodyWaits(w, t));
    NotListed(s, w);
    assert StackInv(s.workers[w]) && ModeInv(s.workers[w], s.lock == Held(w), s.publicQueue == [], s.shutdown);
    forall c | c in s'.continuations && c.event.worker == w ensures OwnedInv(s', c) {
      assert OwnedInv(s, c);
    }
    forall d: nat | d < |s'.workers[w].frames| ensures FinishInv(s', w, d) {
      if d < |s.workers[w].frames| {
        assert FinishInv(s, w, d);
      } else {
        assert forall c | c in s.continuations :: OwnedInv(s, c);
      }
    }
    WorkerChanges(s, s', w);
    QuietLists(s, s', w);
  }

  /** Registering with the awaited task: the continuation is pending, or its bit is set at once. */
  lemma AddContinuationInv(s: State, w: nat)
    requires Inv(s) && WellFormed(s) && Enabled(s, Go(w)) && s.workers[w].mode.AddContinuation?
    ensures Inv(GoNext(s, w))
  {
    var s' := GoNext(s, w);
    AddContinuationFrames(s, s', w);
    AddContinuationOwned(s, s', w);
    assert StackInv(s.workers[w]) && ModeInv(s.workers[w], s.lock == Held(w), s.publicQueue == [], s.shutdown);
    WorkerChanges(s, s', w);
    AddContinuationLists(s, s', w);
  }

  lemma AddContinuationLists(s: State, s': State, w: nat)
    requires Inv(s) && w < |s.workers| == |s'.workers| && s.workers[w].mode.AddContinuation? && WorkersInv(s')
    requires s' == s.(workers := s.workers[w := s'.workers[w]], continuations := s'.continuations)
    requires s'.workers[w].mode == Register
    ensures ListInv(s') && SleepInv(s') && WakeInv(s') && DrainInv(s')
  {
    NotListed(s, w);
    assert StackInv(s.workers[w]) && StackInv(s'.workers[w]);
    var s1 := s'.(continuations := s.continuations);
    QuietLists(s, s1, w);
    SameLists(s1, s');
  }

  lemma AddContinuationFrames(s: State, s': State, w: nat)
    requires Inv(s) && WellFormed(s) && Enabled(s, Go(w)) && s.workers[w].mode.AddContinuation?
    requires s' == GoNext(s, w)
    ensures forall d: nat | d < |s'.workers[w].frames| :: FinishInv(s', w, d)
  {
    assert ModeInv(s.workers[w], s.lock == Held(w), s.publicQueue == [], s.shutdown);
    forall d: nat | d < |s'.workers[w].frames| ensures FinishInv(s', w, d) {
      assert FinishInv(s, w, d);
    }
  }

  lemma AddContinuationOwned(s: State, s': State, w: nat)
    requires Inv(s) && WellFormed(s) && Enabled(s, Go(w)) && s.workers[w].mode.AddContinuation?
    requires s' == GoNext(s, w)
    ensures forall c | c in s'.continuations && c.event.worker == w :: OwnedInv(s', c)
  {
    forall c | c in s'.continuations && c.event.worker == w ensures OwnedInv(s', c) {
      if c in s.continuations { assert OwnedInv(s, c); }
    }
  }

  // ----- Signals -----

  /** The parts of the invariant about the list do not mention the continuations. */
  lemma SameLists(s: State, s': State)
    requires WorkersInv(s) && ListInv(s) && SleepInv(s) && WakeInv(s) && DrainInv(s)
    requires s' == s.(continuations := s'.continuations)
    ensures ListInv(s') && SleepInv(s') && WakeInv(s') && DrainInv(s')
  {
    assert forall j | 0 <= j < s.num && Entry(s, s.waiters[j]) :: Entry(s', s'.waiters[j]);
    assert forall j | 0 <= j < s.num && AwakeEntry(s, j) :: AwakeEntry(s', j);
    forall v: nat | v < |s'.workers| && Asleep(s'.workers[v]) ensures Listed(s', EventOf(s', v)) {
      assert Listed(s, EventOf(s, v));
    }
  }

  lemma SignalStirs(s: State, e: EventId, bits: Mask)
    requires Inv(s) && Live(s, e) && bits != NO_EVENTS
    ensures Stirred(s, Signal(s, e, bits))
    ensures e.depth == |s.workers[e.worker].frames| - 1 ==> !Asleep(Signal(s, e, bits).workers[e.worker])
  {
    var s' := Signal(s, e, bits);
    assert forall v | 0 <= v < |s.workers| :: StackInv(s.workers[v]);
    assert forall v | 0 <= v < |s.workers| && v != e.worker :: s'.workers[v] == s.workers[v];
  }

  lemma SignalLists(s: State, e: EventId, bits: Mask)
    requires Inv(s) && Live(s, e) && bits != NO_EVENTS
    ensures var s' := Signal(s, e, bits);
            && ListInv(s') && SleepInv(s') && WakeInv(s') && DrainInv(s') && Stirred(s, s')
            && (e.depth == |s.workers[e.worker].frames| - 1 ==> !Asleep(s'.workers[e.worker]))
  {
    SignalStirs(s, e, bits);
    ListsKept(s, Signal(s, e, bits));
  }

  lemma SignalWorkers(s: State, e: EventId, bits: Mask)
    requires WorkersInv(s) && Live(s, e)
    ensures WorkersInv(Signal(s, e, bits))
  {
    var s' := Signal(s, e, bits);
    forall v | 0 <= v < |s'.workers|
      ensures StackInv(s'.workers[v]) && ModeInv(s'.workers[v], s'.lock == Held(v), s'.publicQueue == [], s'.shutdown)
    {
      assert StackInv(s.workers[v]) && ModeInv(s.workers[v], s.lock == Held(v), s.publicQueue == [], s.shutdown);
    }
  }

  lemma SignalAvailableInv(s: State, e: EventId)
    requires Inv(s) && Live(s, e)
    ensures Inv(Signal(s, e, AVAILABLE))
  {
    var s' := Signal(s, e, AVAILABLE);
    SignalWorkers(s, e, AVAILABLE);
    SignalLists(s, e, AVAILABLE);
    forall v: nat, d: nat | v < |s'.workers| && d < |s'.workers[v].frames| ensures FinishInv(s', v, d) {
      assert FinishInv(s, v, d);
    }
    forall c | c in s'.continuations ensures OwnedInv(s', c) {
      assert OwnedInv(s, c);
    }
  }

  lemma FireInv(s: State, c: Continuation)
    requires Inv(s) && WellFormed(s) && Enabled(s, Fire(c))
    ensures Inv(Apply(s, Fire(c)))
  {
    var s1 := Signal(s, c.event, FINISHED);
    var s' := Apply(s, Fire(c));
    assert OwnedInv(s, c);
    SignalWorkers(s, c.event, FINISHED);
    SignalLists(s, c.event, FINISHED);
    SameLists(s1, s');
    forall v: nat, d: nat | v < |s'.workers| && d < |s'.workers[v].frames| ensures FinishInv(s', v, d) {
      assert FinishInv(s, v, d);
      assert EventId(v, d) == c.event ==> s.workers[v].frames[d].waitOn == Some(c.task);
    }
    forall k | k in s'.continuations ensures OwnedInv(s', k) {
      assert OwnedInv(s, k);
    }
  }

  lemma FinishInvKept(s: State, t: Task)
    requires Inv(s)
    ensures Inv(s.(finals := s.finals + {t}))
  {
    var s' := s.(finals := s.finals + {t});
    forall v: nat, d: nat | v < |s'.workers| && d < |s'.workers[v].frames| ensures FinishInv(s', v, d) {
      assert FinishInv(s, v, d);
    }
    assert forall c | c in s.continuations && OwnedInv(s, c) :: OwnedInv(s', c);
    assert forall v | 0 <= v < |s.workers| :: StackInv(s.workers[v]);
    ListsKept(s, s');
  }

  // ----- Waking one waiter -----

  lemma SleeperListed(s: State, v: nat)
    requires Inv(s) && v < |s.workers| && |s.workers[v].frames| > 0 && Asleep(s.workers[v])
    ensures exists j :: 0 <= j < s.num && !AwakeEntry(s, j)
  {
    assert Listed(s, EventOf(s, v));
    var j :| 0 <= j < s.num && s.waiters[j] == EventOf(s, v);
    assert !AwakeEntry(s, j);
  }

  lemma NobodySleeps(s: State)
    requires Inv(s) && forall j | 0 <= j < s.num :: AwakeEntry(s, j)
    ensures forall v | 0 <= v < |s.workers| :: |s.workers[v].frames| > 0 && !Asleep(s.workers[v])
  {
    forall v | 0 <= v < |s.workers| ensures |s.workers[v].frames| > 0 && !Asleep(s.workers[v]) {
      assert StackInv(s.workers[v]);
      if Asleep(s.workers[v]) { SleeperListed(s, v); }
    }
  }

  lemma LastEntry(s: State)
    requires Inv(s) && 0 < s.num
    ensures Entry(s, s.waiters[s.num - 1])
  {
  }

  lemma WakeOneInv(s: State, w: nat)
    requires Inv(s) && WellFormed(s) && Enabled(s, Go(w)) && s.workers[w].mode.WakeOne? && s.num > 0
    ensures Inv(GoNext(s, w))
  {
    var e := s.waiters[s.num - 1];
    LastEntry(s);
    SignalAvailableInv(s, e);
    SignalLists(s, e, AVAILABLE);
    NotListed(s, w);
    DropReadyInv(Signal(s, e, AVAILABLE), w);
  }

  lemma DropReadyInv(s: State, w: nat)
    requires Inv(s) && s.num > 0 && AwakeEntry(s, s.num - 1)
    requires w < |s.workers| && s.workers[w].mode.WakeOne?
    ensures Inv(SetMode(s, w, DropWaiter))
  {
    var s' := SetMode(s, w, DropWaiter);
    assert forall v | 0 <= v < |s.workers| :: StackInv(s.workers[v]);
    assert ModeInv(s.workers[w], s.lock == Held(w), s.publicQueue == [], s.shutdown);
    FramesKept(s, s', w);
    ListsKept(s, s');
  }

  lemma DropWaiterInv(s: State, w: nat)
    requires Inv(s) && WellFormed(s) && Enabled(s, Go(w)) && s.workers[w].mode.DropWaiter?
    ensures Inv(GoNext(s, w))
  {
    var s' := GoNext(s, w);
    assert ModeInv(s.workers[w], s.lock == Held(w), s.publicQueue == [], s.shutdown);
    assert forall v | 0 <= v < |s.workers| && v != w :: s'.workers[v] == s.workers[v];
    FramesKept(s, s', w);
    ListShrinks(s, s');
  }

  // ----- Threads outside the pool -----

  /** The lock is taken, passed on or released by a holder that is not a worker. */
  lemma OutsideLock(s: State, s': State)
    requires Inv(s) && !s.lock.Held? && !s'.lock.Held?
    requires s' == s.(lock := s'.lock, num := s'.num, publicQueue := s'.publicQueue,
                      shutdown := s'.shutdown, late := s'.late)
    requires s.shutdown ==> s'.shutdown
    requires s'.lock == Shutdown ==> !s'.shutdown
    ensures WorkersInv(s') && ContinuationsInv(s')
  {
    forall v | 0 <= v < |s'.workers|
      ensures ModeInv(s'.workers[v], s'.lock == Held(v), s'.publicQueue == [], s'.shutdown)
    {
      assert ModeInv(s.workers[v], s.lock == Held(v), s.publicQueue == [], s.shutdown);
    }
    forall v: nat, d: nat | v < |s'.workers| && d < |s'.workers[v].frames| ensures FinishInv(s', v, d) {
      assert FinishInv(s, v, d);
    }
    assert forall c | c in s.continuations && OwnedInv(s, c) :: OwnedInv(s', c);
  }

  lemma LockTakenInv(s: State, lock: Lock)
    requires Inv(s) && s.lock == Free
    requires lock.ExternalPush? || (lock == Shutdown && !s.shutdown)
    ensures Inv(s.(lock := lock))
  {
    var s' := s.(lock := lock);
    OutsideLock(s, s');
    assert forall j | 0 <= j < s.num && Entry(s, s.waiters[j]) :: Entry(s', s'.waiters[j]);
    forall v: nat | v < |s'.workers| && Asleep(s'.workers[v]) ensures Listed(s', EventOf(s', v)) {
      assert Listed(s, EventOf(s, v));
    }
  }

  lemma ExternalPushInv(s: State)
    requires Inv(s) && WellFormed(s) && Enabled(s, Outsider) && s.lock.ExternalPush?
    ensures Inv(OutsiderNext(s))
  {
    var s' := OutsiderNext(s);
    OutsideLock(s, s');
    assert forall j | 0 <= j < s.num && Entry(s, s.waiters[j]) :: Entry(s', s'.waiters[j]);
    forall v: nat | v < |s'.workers| && Asleep(s'.workers[v]) ensures Listed(s', EventOf(s', v)) {
      assert Listed(s, EventOf(s, v));
    }
    assert forall v | 0 <= v < |s.workers| ::
      ModeInv(s.workers[v], s.lock == Held(v), s.publicQueue == [], s.shutdown);
  }

  /** With nobody on the list nobody sleeps, so the pushed task needs no signal. */
  lemma ExternalWakeNobodyInv(s: State)
    requires Inv(s) && s.lock == ExternalWake && s.num == 0
    ensures Inv(s.(lock := Free))
  {
    var s' := s.(lock := Free);
    OutsideLock(s, s');
    assert forall v | 0 <= v < |s.workers| :: StackInv(s.workers[v]);
    NobodySleeps(s);
    assert !Asleep(s'.workers[0]);
  }

  lemma ExternalWakeLists(s1: State)
    requires Inv(s1) && s1.lock == ExternalWake && s1.num > 0 && AwakeEntry(s1, s1.num - 1)
    ensures var s' := s1.(lock := ExternalDrop); ListInv(s') && SleepInv(s') && WakeInv(s')
  {
    var s' := s1.(lock := ExternalDrop);
    var e := s1.waiters[s1.num - 1];
    assert Entry(s1, e);
    assert forall j | 0 <= j < s1.num && Entry(s1, s1.waiters[j]) :: Entry(s', s'.waiters[j]);
    assert AwakeEntry(s', s1.num - 1);
    forall v: nat | v < |s'.workers| && Asleep(s'.workers[v]) ensures Listed(s', EventOf(s', v)) {
      assert Listed(s1, EventOf(s1, v));
    }
    assert !Asleep(s'.workers[e.worker]);
  }

  lemma ExternalWakeInv(s: State)
    requires Inv(s) && s.lock == ExternalWake && s.num > 0
    ensures Live(s, s.waiters[s.num - 1])
    ensures Inv(Signal(s, s.waiters[s.num - 1], AVAILABLE).(lock := ExternalDrop))
  {
    var e := s.waiters[s.num - 1];
    LastEntry(s);
    SignalAvailableInv(s, e);
    SignalLists(s, e, AVAILABLE);
    var s1 := Signal(s, e, AVAILABLE);
    OutsideLock(s1, s1.(lock := ExternalDrop));
    ExternalWakeLists(s1);
  }

  lemma ExternalDropInv(s: State)
    requires Inv(s) && WellFormed(s) && Enabled(s, Outsider) && s.lock == ExternalDrop
    ensures Inv(OutsiderNext(s))
  {
    OutsideLock(s, OutsiderNext(s));
    ListShrinks(s, OutsiderNext(s));
  }

  // ----- The destructor -----

  lemma ShutdownInv(s: State)
    requires Inv(s) && WellFormed(s) && Enabled(s, Outsider) && s.lock == Shutdown
    ensures Inv(OutsiderNext(s))
  {
    var s' := OutsiderNext(s);
    OutsideLock(s, s');
    assert forall j | 0 <= j < s.num && Entry(s, s.waiters[j]) :: Entry(s', s'.waiters[j]);
    forall v: nat | v < |s'.workers| && Asleep(s'.workers[v]) ensures Listed(s', EventOf(s', v)) {
      assert Listed(s, EventOf(s, v));
    }
    assert forall v | 0 <= v < |s.workers| ::
      ModeInv(s.workers[v], s.lock == Held(v), s.publicQueue == [], s.shutdown);
  }

  lemma SignalNextLists(s1: State, i: nat)
    requires Inv(s1) && s1.lock == Signalling(i) && i < s1.num && AwakeEntry(s1, i)
    ensures ListInv(s1.(lock := Signalling(i + 1))) && SleepInv(s1.(lock := Signalling(i + 1)))
  {
    var s' := s1.(lock := Signalling(i + 1));
    assert forall j | 0 <= j < s1.num && Entry(s1, s1.waiters[j]) :: Entry(s', s'.waiters[j]);
    forall j | 0 <= j < i + 1 ensures AwakeEntry(s', j) {
      assert AwakeEntry(s1, j);
    }
    forall v: nat | v < |s'.workers| && Asleep(s'.workers[v]) ensures Listed(s', EventOf(s', v)) {
      assert Listed(s1, EventOf(s1, v));
    }
  }

  lemma SignalNextInv(s: State)
    requires Inv(s) && s.lock.Signalling? && s.lock.next < s.num
    ensures Live(s, s.waiters[s.lock.next])
    ensures Inv(Signal(s, s.waiters[s.lock.next], AVAILABLE).(lock := Signalling(s.lock.next + 1)))
  {
    var i := s.lock.next;
    var e := s.waiters[i];
    assert Entry(s, e);
    SignalAvailableInv(s, e);
    SignalLists(s, e, AVAILABLE);
    var s1 := Signal(s, e, AVAILABLE);
    OutsideLock(s1, s1.(lock := Signalling(i + 1)));
    SignalNextLists(s1, i);
  }

  /** Every entry has been woken, so nobody sleeps and the list can be emptied. */
  lemma SignalledAllInv(s: State)
    requires Inv(s) && s.lock == Signalling(s.num)
    ensures Inv(s.(num := 0, lock := Free))
  {
    var s' := s.(num := 0, lock := Free);
    OutsideLock(s, s');
    NobodySleeps(s);
  }

  lemma OutsiderInv(s: State)
    requires Inv(s) && WellFormed(s) && Enabled(s, Outsider)
    ensures Inv(OutsiderNext(s))
  {
    match s.lock
    case ExternalPush(_) => ExternalPushInv(s);
    case ExternalWake => ExternalWakingInv(s);
    case ExternalDrop => ExternalDropInv(s);
    case Shutdown => ShutdownInv(s);
    case Signalling(_) => SignallingInv(s);
  }

  lemma ExternalWakingInv(s: State)
    requires Inv(s) && WellFormed(s) && Enabled(s, Outsider) && s.lock.ExternalWake?
    ensures Inv(OutsiderNext(s))
  {
    if s.num == 0 {
      assert OutsiderNext(s) == s.(lock := Free);
      ExternalWakeNobodyInv(s);
    } else {
      assert OutsiderNext(s) == Signal(s, s.waiters[s.num - 1], AVAILABLE).(lock := ExternalDrop);
      ExternalWakeInv(s);
    }
  }

  lemma SignallingInv(s: State)
    requires Inv(s) && WellFormed(s) && Enabled(s, Outsider) && s.lock.Signalling?
    ensures Inv(OutsiderNext(s))
  {
    if s.lock.next < s.num { SignalNextInv(s); } else { SignalledAllInv(s); }
  }

  lemma GoInv(s: State, w: nat)
    requires Inv(s) && WellFormed(s) && Enabled(s, Go(w))
    ensures Inv(GoNext(s, w))
  {
    match s.workers[w].mode
    case LoopTop =>
      if |GoNext(s, w).workers[w].frames| == |s.workers[w].frames| {
        LoopTopInv(s, w);
      } else {
        FinishedReturnInv(s, w);
      }
    case LocalPop => LoopStepInv(s, w);
    case Stealing(_) => LoopStepInv(s, w);
    case WantLock => WantLockInv(s, w);
    case CheckPublic => CheckPublicInv(s, w);
    case AddContinuation => AddContinuationInv(s, w);
    case Register => RegisterInv(s, w);
    case Sleeping => WakeUpInv(s, w);
    case Woken(_) => RelockInv(s, w);
    case Remove(_) => RemoveInv(s, w);
    case WakeOne => if s.num == 0 { ScheduleStepInv(s, w); } else { WakeOneInv(s, w); }
    case DropWaiter => DropWaiterInv(s, w);
    case _ => ScheduleStepInv(s, w);
  }

  lemma NextInv(s: State, step: Step, s': State)
    requires Inv(s) && Next(s, step, s')
    ensures Inv(s')
  {
    match step
    case Go(w) => GoInv(s, w);
    case StealFrom(w, v, miss) => StealInv(s, w, v, miss);
    case BodySchedules(_, _) => BodyStepInv(s, step);
    case BodyWaits(w, t) => BodyWaitsInv(s, w, t);
    case BodyReturns(_) => BodyStepInv(s, step);
    case Finish(t) => FinishInvKept(s, t);
    case Fire(c) => FireInv(s, c);
    case ExternalSchedule(t) => LockTakenInv(s, ExternalPush(t));
    case Destroy => LockTakenInv(s, Shutdown);
    case Outsider => OutsiderInv(s);
  }

  lemma {:induction false} RunInv(run: Trace<State, Step>)
    requires Run(run)
    ensures Inv(run.Last())
  {
    match run
    case Start(s) => InitInv(s);
    case Then(before, step, s) => RunInv(before); NextInv(before.Last(), step, s);
  }
}
