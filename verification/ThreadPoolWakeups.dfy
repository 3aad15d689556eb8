/** Scheduling a task wakes somebody if anybody waits, and the destructor wakes everybody. */
module ThreadPoolWakeups {
  import opened Common
  import opened PoolEvents
  import opened ThreadPool
  import opened ThreadPoolProof
  import opened ThreadPoolTheorems
  import opened ThreadPoolOrder

  /** Who wakes: a worker in schedule(), a thread outside the pool in schedule(), or the destructor. */
  datatype Waker = Inside(w: nat) | Outside | Destructor

  /** The step with which that begins. */
  predicate Begins(step: Step, waker: Waker) {
    match waker
    case Inside(w) => step.BodySchedules? && step.w == w
    case Outside => step.ExternalSchedule?
    case Destructor => step.Destroy?
  }

  /** Since it began there has been a state in which no event was listed. */
  ghost predicate SawNobody(run: Trace<State, Step>, waker: Waker) {
    match run
    case Start(_) => false
    case Then(before, step, s) => s.num == 0 || (!Begins(step, waker) && SawNobody(before, waker))
  }

  /** The event is on the list and has been told that a task is available. */
  ghost predicate ToldWhileListed(s: State, e: EventId) {
    && s.num <= |s.waiters| && Listed(s, e) && Live(s, e)
    && s.workers[e.worker].frames[e.depth].mask.available
  }

  /** Since it began there has been a state in which that was so. */
  ghost predicate Told(run: Trace<State, Step>, waker: Waker, e: EventId) {
    match run
    case Start(_) => false
    case Then(before, step, s) => ToldWhileListed(s, e) || (!Begins(step, waker) && Told(before, waker, e))
  }

  /** Since it began the event has been told and, later, was not on the list. */
  ghost predicate ToldAndUnlisted(run: Trace<State, Step>, waker: Waker, e: EventId) {
    match run
    case Start(_) => false
    case Then(before, step, s) =>
      || (Told(run, waker, e) && s.num <= |s.waiters| && !Listed(s, e))
      || (!Begins(step, waker) && ToldAndUnlisted(before, waker, e))
  }

  /** Since it began nobody was waiting for a moment, or an event that was waiting has been told and
      taken off the list. */
  ghost predicate WokeOneIfAny(run: Trace<State, Step>, waker: Waker) {
    SawNobody(run, waker) || exists e :: ToldAndUnlisted(run, waker, e)
  }

  predicate HasBegun(run: Trace<State, Step>, waker: Waker) {
    match run
    case Start(_) => false
    case Then(before, step, _) => Begins(step, waker) || HasBegun(before, waker)
  }

  lemma WokeStays(before: Trace<State, Step>, step: Step, s: State, waker: Waker)
    requires WokeOneIfAny(before, waker) && !Begins(step, waker)
    ensures WokeOneIfAny(Then(before, step, s), waker)
  {
    if !SawNobody(before, waker) {
      var e :| ToldAndUnlisted(before, waker, e);
      assert ToldAndUnlisted(Then(before, step, s), waker, e);
    }
  }

  // ----- The two steps of a wake-up -----

  lemma SignalTells(s: State, e: EventId)
    requires Live(s, e) && s.num <= |s.waiters| && Listed(s, e)
    ensures ToldWhileListed(Signal(s, e, AVAILABLE), e)
  {
    var j :| 0 <= j < s.num && s.waiters[j] == e;
    assert Signal(s, e, AVAILABLE).waiters[j] == e;
  }

  lemma LastIsListed(s: State)
    requires 0 < s.num <= |s.waiters|
    ensures Listed(s, s.waiters[s.num - 1])
  {
  }

  lemma DropUnlists(s: State, s': State)
    requires ListInv(s) && s.num > 0 && s'.waiters == s.waiters && s'.num == s.num - 1
    ensures !Listed(s', s.waiters[s.num - 1])
  {
  }

  /** Nobody but the holder of the lock changes the list. */
  lemma OnlyHolderChangesList(s: State, step: Step, s': State)
    requires Inv(s) && Next(s, step, s')
    ensures step != Outsider && (step.Go? ==> s.lock != Held(step.w)) ==>
              s'.num == s.num && s'.waiters == s.waiters
  {
    if step.Go? && s.lock != Held(step.w) {
      assert ModeInv(s.workers[step.w], s.lock == Held(step.w), s.publicQueue == [], s.shutdown);
      GoKeepsList(s, step.w);
    }
  }

  lemma GoKeepsList(s: State, w: nat)
    requires WellFormed(s) && Enabled(s, Go(w))
    requires var mode := s.workers[w].mode; !mode.Register? && !mode.Remove? && !mode.DropWaiter?
    ensures GoNext(s, w).num == s.num && GoNext(s, w).waiters == s.waiters
  {
  }

  // ----- schedule() by a worker -----

  /** A worker about to take the last entry off the list has told it. */
  ghost predicate InsideHistory(run: Trace<State, Step>, w: nat) {
    var s := run.Last();
    w < |s.workers| && s.workers[w].mode == DropWaiter ==>
      0 < s.num <= |s.waiters| && Told(run, Inside(w), s.waiters[s.num - 1])
  }

  /** Steps by which worker w comes to the point of taking an entry off the list. */
  lemma DropFollowsSignal(s: State, w: nat)
    requires WellFormed(s) && Enabled(s, Go(w)) && |GoNext(s, w).workers| == |s.workers|
    requires GoNext(s, w).workers[w].mode == DropWaiter
    ensures s.workers[w].mode == WakeOne && s.num > 0
    ensures GoNext(s, w) == SetMode(Signal(s, s.waiters[s.num - 1], AVAILABLE), w, DropWaiter)
  {
  }

  lemma WakeOneTells(s: State, w: nat)
    requires WellFormed(s) && Enabled(s, Go(w)) && s.workers[w].mode == WakeOne && s.num > 0
    ensures var s' := SetMode(Signal(s, s.waiters[s.num - 1], AVAILABLE), w, DropWaiter);
            s'.num == s.num && s'.waiters == s.waiters && ToldWhileListed(s', s.waiters[s.num - 1])
  {
    LastIsListed(s);
    SignalTells(s, s.waiters[s.num - 1]);
    var s1 := Signal(s, s.waiters[s.num - 1], AVAILABLE);
    assert Listed(SetMode(s1, w, DropWaiter), s.waiters[s.num - 1]);
  }

  /** Worker w comes to that point by telling the last entry, or stays there while the list stays. */
  ghost predicate InsideMoves(s: State, step: Step, s': State, w: nat) {
    w < |s'.workers| && s'.workers[w].mode == DropWaiter ==>
      && w < |s.workers| && s'.num == s.num <= |s.waiters| && s'.waiters == s.waiters
      && if By(step, w) then s.num > 0 && !step.BodySchedules? && ToldWhileListed(s', s.waiters[s.num - 1])
         else s.workers[w].mode == DropWaiter
  }

  lemma InsideStep(s: State, step: Step, s': State, w: nat)
    requires Inv(s) && Next(s, step, s')
    ensures InsideMoves(s, step, s', w)
  {
    LocalStepSize(s, step, s');
    if w < |s'.workers| && s'.workers[w].mode == DropWaiter {
      if By(step, w) {
        OnlyGoDrops(s, step, s', w);
        DropFollowsSignal(s, w);
        WakeOneTells(s, w);
      } else {
        OthersKeepStack(s, step, s', w);
        assert ModeInv(s.workers[w], s.lock == Held(w), s.publicQueue == [], s.shutdown);
        OnlyHolderChangesList(s, step, s');
      }
    }
  }

  lemma InsideHistoryKept(before: Trace<State, Step>, step: Step, s': State, w: nat)
    requires InsideHistory(before, w) && InsideMoves(before.Last(), step, s', w)
    ensures InsideHistory(Then(before, step, s'), w)
  {
  }

  lemma {:induction false} RunInsideHistory(run: Trace<State, Step>, w: nat)
    requires Run(run)
    ensures InsideHistory(run, w)
  {
    match run
    case Start(_) =>
    case Then(before, step, s) =>
      RunInsideHistory(before, w);
      RunInv(before);
      InsideStep(before.Last(), step, s, w);
      InsideHistoryKept(before, step, s, w);
  }

  lemma OnlyGoDrops(s: State, step: Step, s': State, w: nat)
    requires Next(s, step, s') && By(step, w) && w < |s.workers| == |s'.workers|
    requires s'.workers[w].mode == DropWaiter
    ensures step == Go(w)
  {
  }

  predicate Scheduling(mode: Mode) {
    mode.CheckWaiters? || mode.WantLockToWake? || mode.WakeOne? || mode.DropWaiter?
  }

  /** schedule() returns after finding nobody on the list, or after taking the entry off that it has told. */
  lemma ScheduleReturns(s: State, w: nat)
    requires WellFormed(s) && Enabled(s, Go(w)) && Scheduling(s.workers[w].mode)
    requires |GoNext(s, w).workers| == |s.workers| && GoNext(s, w).workers[w].mode == Running
    ensures GoNext(s, w).waiters == s.waiters
    ensures if s.workers[w].mode == DropWaiter then GoNext(s, w).num == s.num - 1
            else GoNext(s, w).num == s.num == 0
  {
  }

  lemma ReturnStepOf(s: State, step: Step, s': State, w: nat)
    requires Inv(s) && Next(s, step, s') && w < |s.workers| == |s'.workers|
    requires Scheduling(s.workers[w].mode) && s'.workers[w].mode == Running
    ensures !step.BodySchedules?
    ensures if s.workers[w].mode == DropWaiter then
              0 < s.num <= |s.waiters| && s'.num <= |s'.waiters| && !Listed(s', s.waiters[s.num - 1])
            else s'.num == 0
  {
    if !By(step, w) { OthersKeepStack(s, step, s', w); }
    assert step == Go(w);
    ScheduleReturns(s, w);
    if s.workers[w].mode == DropWaiter { DropUnlists(s, s'); }
  }

  lemma ReturnWakes(before: Trace<State, Step>, step: Step, s': State, w: nat)
    requires Run(before) && Next(before.Last(), step, s') && w < |before.Last().workers| == |s'.workers|
    requires Scheduling(before.Last().workers[w].mode) && s'.workers[w].mode == Running
    ensures WokeOneIfAny(Then(before, step, s'), Inside(w))
  {
    var s := before.Last();
    RunInv(before);
    RunInsideHistory(before, w);
    ReturnStepOf(s, step, s', w);
    if s.workers[w].mode == DropWaiter {
      assert Told(Then(before, step, s'), Inside(w), s.waiters[s.num - 1]);
      assert ToldAndUnlisted(Then(before, step, s'), Inside(w), s.waiters[s.num - 1]);
    }
  }

  /** A worker enters schedule() with the push, and leaves it for its task. */
  lemma SchedulingSteps(s: State, step: Step, s': State, w: nat)
    requires Inv(s) && Next(s, step, s') && w < |s.workers| == |s'.workers|
    ensures Begins(step, Inside(w)) ==> Scheduling(s'.workers[w].mode)
    ensures Scheduling(s.workers[w].mode) ==> Scheduling(s'.workers[w].mode) || s'.workers[w].mode == Running
  {
    if !By(step, w) {
      OthersKeepStack(s, step, s', w);
    } else if step.Go? && Scheduling(s.workers[w].mode) {
      GoSchedules(s, w);
    }
  }

  lemma GoSchedules(s: State, w: nat)
    requires WellFormed(s) && Enabled(s, Go(w)) && Scheduling(s.workers[w].mode)
    requires |GoNext(s, w).workers| == |s.workers|
    ensures Scheduling(GoNext(s, w).workers[w].mode) || GoNext(s, w).workers[w].mode == Running
  {
  }

  /** In every state in which a worker that has scheduled a task is not inside schedule() any more,
      somebody was woken since: nobody had been waiting at some moment since it pushed its latest
      task, or one waiting event has been told and taken off the list. */
  lemma {:induction false} ScheduleWakes(run: Trace<State, Step>, w: nat)
    requires Run(run) && w < |run.Last().workers|
    requires HasBegun(run, Inside(w)) && !Scheduling(run.Last().workers[w].mode)
    ensures WokeOneIfAny(run, Inside(w))
  {
    match run
    case Then(before, step, s) =>
      RunInv(before);
      LocalStepSize(before.Last(), step, s);
      SchedulingSteps(before.Last(), step, s, w);
      if Scheduling(before.Last().workers[w].mode) {
        ReturnWakes(before, step, s, w);
      } else {
        ScheduleWakes(before, w);
        WokeStays(before, step, s, Inside(w));
      }
  }

  // ----- The fast path -----

  /** Since it began there has been a state in which some event was listed. */
  predicate SawSomebody(run: Trace<State, Step>, waker: Waker) {
    match run
    case Start(_) => false
    case Then(before, step, s) => s.num > 0 || (!Begins(step, waker) && SawSomebody(before, waker))
  }

  predicate PastFastPath(mode: Mode) {
    mode.WantLockToWake? || mode.WakeOne? || mode.DropWaiter?
  }

  lemma LeavesFastPath(s: State, step: Step, s': State, w: nat)
    requires Inv(s) && Next(s, step, s') && w < |s.workers| == |s'.workers| && PastFastPath(s'.workers[w].mode)
    ensures !Begins(step, Inside(w))
    ensures PastFastPath(s.workers[w].mode) || (s.num > 0 && s.workers[w].mode == CheckWaiters)
  {
    if !By(step, w) {
      OthersKeepStack(s, step, s', w);
    } else if step.Go? {
      GoLeavesFastPath(s, w);
    }
  }

  lemma GoLeavesFastPath(s: State, w: nat)
    requires WellFormed(s) && Enabled(s, Go(w)) && |GoNext(s, w).workers| == |s.workers|
    requires PastFastPath(GoNext(s, w).workers[w].mode)
    ensures PastFastPath(s.workers[w].mode) || (s.num > 0 && s.workers[w].mode == CheckWaiters)
  {
    match s.workers[w].mode
    case LoopTop =>
    case Sleeping =>
    case AddContinuation =>
    case Remove(_) =>
    case _ =>
  }

  /** A worker that schedules a task asks for the lock only if it has seen somebody on the list. */
  lemma {:induction false} NoLockWithoutWaiters(run: Trace<State, Step>, w: nat)
    requires Run(run) && w < |run.Last().workers| && PastFastPath(run.Last().workers[w].mode)
    ensures SawSomebody(run, Inside(w))
  {
    match run
    case Then(before, step, s) =>
      RunInv(before);
      LocalStepSize(before.Last(), step, s);
      LeavesFastPath(before.Last(), step, s, w);
      if PastFastPath(before.Last().workers[w].mode) {
        NoLockWithoutWaiters(before, w);
      } else {
        assert before.Then?;
        assert SawSomebody(before, Inside(w));
      }
  }

  // ----- schedule() by a thread outside the pool -----

  lemma ExternalTells(s: State)
    requires WellFormed(s) && Enabled(s, Outsider) && OutsiderNext(s).lock == ExternalDrop
    ensures s.lock == ExternalWake && 0 < s.num <= |s.waiters|
    ensures OutsiderNext(s).num == s.num && OutsiderNext(s).waiters == s.waiters
    ensures ToldWhileListed(OutsiderNext(s), s.waiters[s.num - 1])
  {
    LastIsListed(s);
    SignalTells(s, s.waiters[s.num - 1]);
    assert Listed(OutsiderNext(s), s.waiters[s.num - 1]);
  }

  /** Only the outside holder moves a lock it holds. */
  lemma OutsideKeepsLock(s: State, step: Step, s': State)
    requires Inv(s) && Next(s, step, s') && step != Outsider && s.lock != Free && !s.lock.Held?
    ensures s'.lock == s.lock && s'.num == s.num && s'.waiters == s.waiters
  {
    OnlyHolderChangesList(s, step, s');
    if step.Go? {
      assert ModeInv(s.workers[step.w], s.lock == Held(step.w), s.publicQueue == [], s.shutdown);
      GoKeepsForeignLock(s, step.w);
    }
  }

  lemma GoKeepsForeignLock(s: State, w: nat)
    requires WellFormed(s) && Enabled(s, Go(w)) && !HoldsLock(s.workers[w].mode) && s.lock != Free
    ensures GoNext(s, w).lock == s.lock
  {
  }

  lemma OnlyOutsiderTakesLock(s: State, step: Step, s': State)
    requires Next(s, step, s') && step != Outsider && s'.lock != s.lock
    ensures match s'.lock
            case ExternalPush(_) => step.ExternalSchedule?
            case Shutdown => step == Destroy
            case Held(_) => true
            case Free => true
            case _ => false
  {
    if step.Go? { GoLocks(s, step.w); }
  }

  lemma GoLocks(s: State, w: nat)
    requires WellFormed(s) && Enabled(s, Go(w))
    ensures GoNext(s, w).lock == s.lock || GoNext(s, w).lock == Free || GoNext(s, w).lock == Held(w)
  {
  }

  ghost predicate OutsideHistory(run: Trace<State, Step>) {
    var s := run.Last();
    s.lock == ExternalDrop ==> 0 < s.num <= |s.waiters| && Told(run, Outside, s.waiters[s.num - 1])
  }

  ghost predicate OutsideMoves(s: State, step: Step, s': State) {
    s'.lock == ExternalDrop ==>
      && s'.num == s.num <= |s.waiters| && s'.waiters == s.waiters && !step.ExternalSchedule?
      && if step == Outsider then s.num > 0 && ToldWhileListed(s', s.waiters[s.num - 1])
         else s.lock == ExternalDrop
  }

  lemma OutsideStep(s: State, step: Step, s': State)
    requires Inv(s) && Next(s, step, s')
    ensures OutsideMoves(s, step, s')
  {
    if s'.lock == ExternalDrop {
      if step.Outsider? {
        ExternalTells(s);
      } else {
        if s'.lock != s.lock { OnlyOutsiderTakesLock(s, step, s'); }
        OutsideKeepsLock(s, step, s');
      }
    }
  }

  lemma OutsideHistoryKept(before: Trace<State, Step>, step: Step, s': State)
    requires OutsideHistory(before) && OutsideMoves(before.Last(), step, s')
    ensures OutsideHistory(Then(before, step, s'))
  {
  }

  lemma {:induction false} RunOutsideHistory(run: Trace<State, Step>)
    requires Run(run)
    ensures OutsideHistory(run)
  {
    match run
    case Start(_) =>
    case Then(before, step, s) =>
      RunOutsideHistory(before);
      RunInv(before);
      OutsideStep(before.Last(), step, s);
      OutsideHistoryKept(before, step, s);
  }

  lemma OutsideReleases(s: State)
    requires WellFormed(s) && Enabled(s, Outsider) && OutsiderNext(s).lock == Free
    requires !s.lock.Signalling?
    ensures OutsiderNext(s).waiters == s.waiters
    ensures if s.lock == ExternalDrop then OutsiderNext(s).num == s.num - 1 && s.num > 0
            else s.lock == ExternalWake && OutsiderNext(s).num == s.num == 0
  {
  }

  ghost predicate OutsideReturns(s: State, s': State) {
    if s.lock == ExternalDrop then
      0 < s.num <= |s.waiters| && s'.num <= |s'.waiters| && !Listed(s', s.waiters[s.num - 1])
    else s'.num == 0
  }

  lemma OutsideReturnStep(s: State, s': State)
    requires Inv(s) && Next(s, Outsider, s') && !s.lock.Signalling? && s'.lock == Free
    ensures OutsideReturns(s, s')
  {
    OutsideReleases(s);
    if s.lock == ExternalDrop { DropUnlists(s, s'); }
  }

  lemma OutsideWakesNow(before: Trace<State, Step>, s': State)
    requires OutsideHistory(before) && OutsideReturns(before.Last(), s')
    ensures WokeOneIfAny(Then(before, Outsider, s'), Outside)
  {
    var s := before.Last();
    if s.lock == ExternalDrop {
      assert Told(Then(before, Outsider, s'), Outside, s.waiters[s.num - 1]);
      assert ToldAndUnlisted(Then(before, Outsider, s'), Outside, s.waiters[s.num - 1]);
    }
  }

  predicate OutsideHolds(lock: Lock) {
    lock.ExternalPush? || lock.ExternalWake? || lock.ExternalDrop?
  }

  lemma OutsideLockSteps(s: State, step: Step, s': State)
    requires Inv(s) && Next(s, step, s')
    ensures Begins(step, Outside) ==> OutsideHolds(s'.lock)
    ensures OutsideHolds(s.lock) && !OutsideHolds(s'.lock) ==> step == Outsider && s'.lock == Free
  {
    if step != Outsider && OutsideHolds(s.lock) { OutsideKeepsLock(s, step, s'); }
  }

  /** The same for a thread outside the pool, in every state in which it has let go of the lock. */
  lemma {:induction false} OutsideWakes(run: Trace<State, Step>)
    requires Run(run) && HasBegun(run, Outside) && !OutsideHolds(run.Last().lock)
    ensures WokeOneIfAny(run, Outside)
  {
    match run
    case Then(before, step, s) =>
      RunInv(before);
      OutsideLockSteps(before.Last(), step, s);
      if OutsideHolds(before.Last().lock) {
        RunOutsideHistory(before);
        OutsideReturnStep(before.Last(), s);
        OutsideWakesNow(before, s);
      } else {
        OutsideWakes(before);
        WokeStays(before, step, s, Outside);
      }
  }

  // ----- The destructor -----

  /** The events that were listed when the destructor took the lock. */
  ghost function ListedAtDestroy(run: Trace<State, Step>): seq<EventId> {
    match run
    case Start(_) => []
    case Then(before, step, s) =>
      if step == Destroy then (if s.num <= |s.waiters| then s.waiters[..s.num] else []) else ListedAtDestroy(before)
  }

  predicate Destroyed(run: Trace<State, Step>) {
    match run
    case Start(_) => false
    case Then(before, step, _) => step == Destroy || Destroyed(before)
  }

  /** Inside the destructor's critical section the list is as it was, and told as far as the loop has come. */
  ghost predicate DestroyHistory(run: Trace<State, Step>) {
    var s := run.Last();
    && (s.lock == Shutdown || s.lock.Signalling? ==>
          && s.num <= |s.waiters| && s.waiters[..s.num] == ListedAtDestroy(run)
          && (s.lock.Signalling? ==>
                s.lock.next <= s.num && forall j | 0 <= j < s.lock.next :: Told(run, Destructor, s.waiters[j])))
    && (Destroyed(run) ==> s.shutdown || s.lock == Shutdown)
  }

  lemma SignalOneTells(s: State)
    requires Inv(s) && WellFormed(s) && Enabled(s, Outsider) && s.lock.Signalling? && s.lock.next < s.num
    ensures var s' := OutsiderNext(s);
            && s'.lock == Signalling(s.lock.next + 1) && s'.num == s.num && s'.waiters == s.waiters
            && ToldWhileListed(s', s.waiters[s.lock.next])
  {
    var e := s.waiters[s.lock.next];
    assert Listed(s, e);
    SignalTells(s, e);
    assert Listed(OutsiderNext(s), e);
  }

  lemma ShutdownKept(s: State, step: Step, s': State)
    requires Next(s, step, s')
    ensures s.shutdown ==> s'.shutdown
  {
    match step
    case Go(w) => GoKeepsShutdown(s, w);
    case _ =>
  }

  lemma GoKeepsShutdown(s: State, w: nat)
    requires WellFormed(s) && Enabled(s, Go(w))
    ensures GoNext(s, w).shutdown == s.shutdown
  {
  }

  lemma {:induction false} RunDestroyHistory(run: Trace<State, Step>)
    requires Run(run)
    ensures DestroyHistory(run)
  {
    match run
    case Start(_) =>
    case Then(before, step, s) =>
      RunDestroyHistory(before);
      RunInv(before);
      ShutdownKept(before.Last(), step, s);
      if step.Outsider? {
        DestroyStep(before.Last(), s);
        DestroyOutsiderStep(before, s);
      } else if before.Last().lock == Free || before.Last().lock.Held? {
        if s.lock != before.Last().lock { OnlyOutsiderTakesLock(before.Last(), step, s); }
      } else {
        OutsideKeepsLock(before.Last(), step, s);
      }
  }

  /** The outside holder's steps, seen from the destructor's critical section. */
  ghost predicate DestroyMoves(s: State, s': State) {
    && s'.lock != Shutdown
    && (s.lock == Shutdown || s.shutdown ==> s'.shutdown)
    && (s'.lock.Signalling? ==>
          && s'.num == s.num <= |s.waiters| && s'.waiters == s.waiters
          && if s.lock.Signalling? then
               s'.lock.next == s.lock.next + 1 <= s.num && ToldWhileListed(s', s.waiters[s.lock.next])
             else s.lock == Shutdown && s'.lock.next == 0)
  }

  lemma DestroyStep(s: State, s': State)
    requires Inv(s) && Next(s, Outsider, s')
    ensures DestroyMoves(s, s')
  {
    if s.lock.Signalling? && s.lock.next < s.num { SignalOneTells(s); }
  }

  lemma DestroyOutsiderStep(before: Trace<State, Step>, s': State)
    requires DestroyMoves(before.Last(), s') && DestroyHistory(before)
    ensures DestroyHistory(Then(before, Outsider, s'))
  {
    var s := before.Last();
    var run := Then(before, Outsider, s');
    assert Destroyed(run) == Destroyed(before) && ListedAtDestroy(run) == ListedAtDestroy(before);
    if s'.lock.Signalling? {
      forall j | 0 <= j < s'.lock.next ensures Told(run, Destructor, s'.waiters[j]) {
        if s.lock.Signalling? && j < s.lock.next { assert Told(before, Destructor, s.waiters[j]); }
      }
    }
  }

  /** Once the destructor has let go of the lock, shutdown is set. */
  lemma {:induction false} DestroySetsShutdown(run: Trace<State, Step>)
    requires Run(run) && Destroyed(run) && run.Last().lock != Shutdown
    ensures run.Last().shutdown
  {
    RunDestroyHistory(run);
  }

  predicate DestructorHolds(lock: Lock) {
    lock.Shutdown? || lock.Signalling?
  }

  lemma DestructorSteps(s: State, step: Step, s': State)
    requires Inv(s) && Next(s, step, s')
    ensures step == Destroy ==> DestructorHolds(s'.lock)
    ensures DestructorHolds(s.lock) && !DestructorHolds(s'.lock) ==>
              step == Outsider && s.lock.Signalling? && s.lock.next == s.num
  {
    if step != Outsider && DestructorHolds(s.lock) { OutsideKeepsLock(s, step, s'); }
  }

  /** What the destructor has told when its loop is over stays told. */
  lemma AllTold(before: Trace<State, Step>, s': State)
    requires DestroyHistory(before) && before.Last().lock.Signalling? && before.Last().lock.next == before.Last().num
    ensures forall e | e in ListedAtDestroy(before) :: Told(Then(before, Outsider, s'), Destructor, e)
  {
    var s := before.Last();
    forall e | e in ListedAtDestroy(before) ensures Told(Then(before, Outsider, s'), Destructor, e) {
      var j :| 0 <= j < s.num && s.waiters[..s.num][j] == e;
      assert Told(before, Destructor, s.waiters[j]);
    }
  }

  /** In every state in which the destructor has let go of the lock, every event that was listed when
      it took the lock has been told since. */
  lemma {:induction false} DestroyWakesAll(run: Trace<State, Step>)
    requires Run(run) && Destroyed(run) && !DestructorHolds(run.Last().lock)
    ensures run.Last().shutdown
    ensures forall e | e in ListedAtDestroy(run) :: Told(run, Destructor, e)
  {
    DestroySetsShutdown(run);
    match run
    case Then(before, step, s) =>
      RunInv(before);
      DestructorSteps(before.Last(), step, s);
      if DestructorHolds(before.Last().lock) {
        RunDestroyHistory(before);
        AllTold(before, s);
      } else {
        DestroyWakesAll(before);
      }
  }

  // ----- Who sleeps -----

  ghost function Sleepers(s: State): set<nat> {
    set w: nat | w < |s.workers| && |s.workers[w].frames| > 0 && Asleep(s.workers[w])
  }

  /** A signal to the innermost event of a worker wakes that worker and nobody else. */
  lemma SignalWakesOne(s: State, e: EventId)
    requires Live(s, e) && e.depth == |s.workers[e.worker].frames| - 1
    ensures Sleepers(Signal(s, e, AVAILABLE)) == Sleepers(s) - {e.worker}
  {
    var s' := Signal(s, e, AVAILABLE);
    forall w: nat ensures w in Sleepers(s') <==> w in Sleepers(s) && w != e.worker {
      if w < |s.workers| && w != e.worker { assert s'.workers[w] == s.workers[w]; }
    }
  }

  /** The step of schedule() that signals, inside or outside the pool: the worker of the last entry
      no longer sleeps, and all others sleep on if they did. */
  lemma ScheduleWakesLast(s: State, step: Step, s': State)
    requires Inv(s) && Next(s, step, s') && s.num > 0
    requires || (step.Go? && s.workers[step.w].mode == WakeOne)
             || (step == Outsider && s.lock == ExternalWake)
    ensures Sleepers(s') == Sleepers(s) - {s.waiters[s.num - 1].worker}
  {
    var e := s.waiters[s.num - 1];
    LastEntry(s);
    SignalWakesOne(s, e);
    if step.Go? {
      var s1 := Signal(s, e, AVAILABLE);
      assert s' == SetMode(s1, step.w, DropWaiter);
      forall w: nat ensures w in Sleepers(s') <==> w in Sleepers(s1) {
        if w == step.w { assert s.workers[w].mode == WakeOne; }
      }
    }
  }
}
