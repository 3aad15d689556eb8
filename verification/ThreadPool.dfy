/**
The thread pool's sleep, wake and shutdown protocol as a step model: the worker
loop, nested waits, scheduling from inside and outside the pool, and the
destructor's shutdown block. One step is one shared access; the last access of
a critical section and the release of the lock are one step.
 */
module ThreadPool {
  import opened Common
  import opened PoolEvents

  /** One activation of thread_task_loop: the task it waits for (None: the main loop),
      whether it has added its continuation to that task, and its event. */
  datatype Frame = Frame(waitOn: Option<Task>, added: bool, mask: Mask)

  /** Where the innermost activation of a worker is. */
  datatype Mode =
    | LoopTop                    // next: check whether the awaited task has finished
    | LocalPop                   // next: pop the local queue
    | Stealing(tried: set<nat>)  // next: try another worker not tried yet
    | WantLock                   // next: acquire the lock
    | CheckPublic                // lock held; next: pop the public queue
    | AddContinuation            // lock held; next: register with the awaited task
    | Register                   // lock held; next: append the event to the waiter list
    | Sleeping                   // inside event.wait()
    | Woken(finished: bool)      // next: acquire the lock
    | Remove(finished: bool)     // lock held; next: take the event off the list
    | Running                    // executing a task
    | CheckWaiters               // in schedule(), task pushed; next: read num_waiters
    | WantLockToWake             // next: acquire the lock
    | WakeOne                    // lock held; next: signal the last waiter
    | DropWaiter                 // lock held; next: shorten the list
    | Exited

  datatype Worker = Worker(local: seq<Task>, frames: seq<Frame>, mode: Mode)

  /** Who holds the pool lock; outside the pool's workers, also where the holder is. */
  datatype Lock =
    | Free
    | Held(worker: nat)
    | ExternalPush(task: Task)   // schedule() by a thread outside the pool
    | ExternalWake
    | ExternalDrop
    | Shutdown                   // the destructor
    | Signalling(next: nat)

  /** A continuation that will signal `event` when `task` has finished. */
  datatype Continuation = Continuation(task: Task, event: EventId)

  datatype State = State(
    lock: Lock,
    publicQueue: seq<Task>,
    shutdown: bool,
    num: nat,                    // num_waiters
    waiters: seq<EventId>,       // the array; only the first num entries mean anything
    workers: seq<Worker>,
    finals: set<Task>,           // tasks in a final state
    continuations: set<Continuation>,
    late: bool)                  // history: somebody outside scheduled after shutdown was set

  datatype Step =
    | Go(w: nat)                 // the next access of worker w
    | StealFrom(w: nat, victim: nat, miss: bool)
    | BodySchedules(w: nat, task: Task)
    | BodyWaits(w: nat, task: Task)
    | BodyReturns(w: nat)
    | Finish(task: Task)
    | Fire(continuation: Continuation)
    | ExternalSchedule(task: Task)
    | Destroy
    | Outsider                   // the next access of a holder outside the pool

  ghost predicate Init(s: State) {
    && |s.workers| >= 1
    && s.lock == Free && s.publicQueue == [] && !s.shutdown && !s.late
    && s.num == 0 && |s.waiters| == |s.workers|
    && s.finals == {} && s.continuations == {}
    && forall w | 0 <= w < |s.workers| ::
         s.workers[w] == Worker([], [Frame(None, false, NO_EVENTS)], LoopTop)
  }

  /** Every worker has a frame; addresses in the waiter list and in continuations are live. */
  ghost predicate WellFormed(s: State) {
    && s.num <= |s.waiters| == |s.workers|
    && (forall w | 0 <= w < |s.workers| :: |s.workers[w].frames| > 0)
    && (forall j | 0 <= j < s.num :: Live(s, s.waiters[j]))
    && (forall c | c in s.continuations :: Live(s, c.event))
    && (forall w | 0 <= w < |s.workers| ::
          && (s.workers[w].mode == Register ==> s.num < |s.waiters|)
          && (s.workers[w].mode == DropWaiter ==> s.num > 0)
          && (s.workers[w].mode == AddContinuation ==> Top(s.workers[w]).waitOn.Some?))
    && (s.lock == ExternalDrop ==> s.num > 0)
    && (s.lock.Signalling? ==> s.lock.next <= s.num)
  }

  predicate Live(s: State, e: EventId) {
    e.worker < |s.workers| && e.depth < |s.workers[e.worker].frames|
  }

  function Top(worker: Worker): Frame
    requires |worker.frames| > 0
  {
    worker.frames[|worker.frames| - 1]
  }

  function WithTop(worker: Worker, f: Frame): Worker
    requires |worker.frames| > 0
  {
    worker.(frames := worker.frames[|worker.frames| - 1 := f])
  }

  /** The event of worker w's innermost frame. */
  function EventOf(s: State, w: nat): EventId
    requires w < |s.workers| && |s.workers[w].frames| > 0
  {
    EventId(w, |s.workers[w].frames| - 1)
  }

  function SetMode(s: State, w: nat, mode: Mode): State
    requires w < |s.workers|
  {
    s.(workers := s.workers[w := s.workers[w].(mode := mode)])
  }

  /** The innermost loop returns to the task that called it. */
  function Return(s: State, w: nat): State
    requires w < |s.workers| && |s.workers[w].frames| > 0
  {
    var worker := s.workers[w];
    s.(workers := s.workers[w := worker.(frames := worker.frames[..|worker.frames| - 1], mode := Running)])
  }

  /** Signal an event with one of the two bits. */
  function Signal(s: State, e: EventId, bits: Mask): State
    requires Live(s, e)
  {
    var worker := s.workers[e.worker];
    var f := worker.frames[e.depth];
    s.(workers := s.workers[e.worker :=
         worker.(frames := worker.frames[e.depth := f.(mask := Union(f.mask, bits))])])
  }

  /** Take an event off the list, if it is still there, by swapping it with the last entry. */
  function RemoveEvent(s: State, e: EventId): State
    requires s.num <= |s.waiters|
  {
    var (waiters, num) := SwapRemove(s.waiters, s.num, e);
    s.(waiters := waiters, num := num)
  }

  ghost predicate Enabled(s: State, step: Step)
    requires WellFormed(s)
  {
    match step
    case Go(w) =>
      && w < |s.workers|
      && (match s.workers[w].mode
          case WantLock => s.lock == Free
          case Woken(_) => s.lock == Free
          case WantLockToWake => s.lock == Free
          case Sleeping => Top(s.workers[w]).mask != NO_EVENTS
          case Stealing(tried) => forall v: nat | v < |s.workers| && v != w :: v in tried
          case Running => false
          case Exited => false
          case _ => true)
    case StealFrom(w, v, miss) =>
      && w < |s.workers| && v < |s.workers| && v != w
      && s.workers[w].mode.Stealing? && v !in s.workers[w].mode.tried
      && (miss ==> s.workers[v].mode == LocalPop && |s.workers[v].local| <= 1)
    case BodySchedules(w, _) => w < |s.workers| && s.workers[w].mode == Running
    case BodyWaits(w, t) => w < |s.workers| && s.workers[w].mode == Running && t !in s.finals
    case BodyReturns(w) => w < |s.workers| && s.workers[w].mode == Running
    case Finish(_) => true
    case Fire(c) => c in s.continuations && c.task in s.finals
    case ExternalSchedule(_) => s.lock == Free
    case Destroy => s.lock == Free && !s.shutdown
    case Outsider => s.lock != Free && !s.lock.Held?
  }

  ghost function GoNext(s: State, w: nat): State
    requires WellFormed(s) && Enabled(s, Go(w))
  {
    var worker := s.workers[w];
    var f := Top(worker);
    match worker.mode
    case LoopTop =>
      if f.waitOn.Some? && f.added then
        if f.mask.finished then Return(s, w) else SetMode(s, w, LocalPop)
      else if f.waitOn.Some? && f.waitOn.value in s.finals then Return(s, w)
      else SetMode(s, w, LocalPop)
    case LocalPop =>
      if worker.local != [] then
        s.(workers := s.workers[w := worker.(local := worker.local[..|worker.local| - 1], mode := Running)])
      else SetMode(s, w, Stealing({}))
    case Stealing(_) => SetMode(s, w, WantLock)
    case WantLock => SetMode(s, w, CheckPublic).(lock := Held(w))
    case CheckPublic =>
      if s.publicQueue != [] then
        SetMode(s, w, Running).(publicQueue := s.publicQueue[1..], lock := Free)
      else if f.waitOn == None && s.shutdown then SetMode(s, w, Exited).(lock := Free)
      else if f.waitOn.Some? && !f.added then SetMode(s, w, AddContinuation)
      else SetMode(s, w, Register)
    case AddContinuation =>
      if f.waitOn.value in s.finals then
        var f' := f.(added := true, mask := f.mask.(finished := true));
        s.(workers := s.workers[w := WithTop(worker, f').(mode := Register)])
      else
        s.(workers := s.workers[w := WithTop(worker, f.(added := true)).(mode := Register)],
           continuations := s.continuations + {Continuation(f.waitOn.value, EventOf(s, w))})
    case Register =>
      SetMode(s, w, Sleeping).(waiters := s.waiters[s.num := EventOf(s, w)], num := s.num + 1, lock := Free)
    case Sleeping =>
      s.(workers := s.workers[w := WithTop(worker, f.(mask := NO_EVENTS)).(mode := Woken(f.mask.finished))])
    case Woken(finished) => SetMode(s, w, Remove(finished)).(lock := Held(w))
    case Remove(finished) =>
      var s1 := RemoveEvent(s, EventOf(s, w)).(lock := Free);
      if f.waitOn.Some? && finished then Return(s1, w) else SetMode(s1, w, Stealing({}))
    case CheckWaiters => SetMode(s, w, if s.num == 0 then Running else WantLockToWake)
    case WantLockToWake => SetMode(s, w, WakeOne).(lock := Held(w))
    case WakeOne =>
      if s.num == 0 then SetMode(s, w, Running).(lock := Free)
      else SetMode(Signal(s, s.waiters[s.num - 1], AVAILABLE), w, DropWaiter)
    case DropWaiter => SetMode(s, w, Running).(num := s.num - 1, lock := Free)
  }

  ghost function OutsiderNext(s: State): State
    requires WellFormed(s) && Enabled(s, Outsider)
  {
    match s.lock
    case ExternalPush(t) =>
      s.(publicQueue := s.publicQueue + [t], lock := ExternalWake, late := s.late || s.shutdown)
    case ExternalWake =>
      if s.num == 0 then s.(lock := Free)
      else Signal(s, s.waiters[s.num - 1], AVAILABLE).(lock := ExternalDrop)
    case ExternalDrop => s.(num := s.num - 1, lock := Free)
    case Shutdown => s.(shutdown := true, lock := Signalling(0))
    case Signalling(i) =>
      if i < s.num then Signal(s, s.waiters[i], AVAILABLE).(lock := Signalling(i + 1))
      else s.(num := 0, lock := Free)
  }

  /** One attempt to steal from a victim. It may miss a single task that the victim is
      popping at that moment (ChaseLevTheorems.StepRefines). */
  ghost function StealNext(s: State, w: nat, v: nat, miss: bool): State
    requires WellFormed(s) && Enabled(s, StealFrom(w, v, miss))
  {
    var thief, victim := s.workers[w], s.workers[v];
    if victim.local == [] || miss then
      SetMode(s, w, Stealing(thief.mode.tried + {v}))
    else
      s.(workers := s.workers[w := thief.(mode := Running)][v := victim.(local := victim.local[1..])])
  }

  ghost function Apply(s: State, step: Step): State
    requires WellFormed(s) && Enabled(s, step)
  {
    match step
    case Go(w) => GoNext(s, w)
    case StealFrom(w, v, miss) => StealNext(s, w, v, miss)
    case BodySchedules(w, t) =>
      s.(workers := s.workers[w := s.workers[w].(local := s.workers[w].local + [t], mode := CheckWaiters)])
    case BodyWaits(w, t) =>
      s.(workers := s.workers[w := s.workers[w].(
           frames := s.workers[w].frames + [Frame(Some(t), false, NO_EVENTS)], mode := LoopTop)])
    case BodyReturns(w) => SetMode(s, w, LoopTop)
    case Finish(t) => s.(finals := s.finals + {t})
    case Fire(c) => Signal(s, c.event, FINISHED).(continuations := s.continuations - {c})
    case ExternalSchedule(t) => s.(lock := ExternalPush(t))
    case Destroy => s.(lock := Shutdown)
    case Outsider => OutsiderNext(s)
  }

  ghost predicate Next(s: State, step: Step, s': State) {
    WellFormed(s) && Enabled(s, step) && s' == Apply(s, step)
  }

  ghost predicate Run(run: Trace<State, Step>) {
    match run
    case Start(s) => Init(s)
    case Then(before, step, s) => Run(before) && Next(before.Last(), step, s)
  }
}
