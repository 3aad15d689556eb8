/**
One task object as a step model: the state field and the result/exception union,
the function object, and the continuation vector, with any number of threads
adding continuations while the task is run, cancelled, unwrapped, or (for an
event task) set by any number of racing setters. One step is one shared access.
 */
module TaskCore {
  import opened Common

  datatype TaskState = Pending | Locked | Unwrapped | Completed | Canceled

  predicate IsFinished(t: TaskState) {
    t == Completed || t == Canceled
  }

  datatype Outcome = Value(v: int) | Error(e: int)

  /** The union of scheduler, result and exception. */
  datatype Payload = Nothing | Holding(o: Outcome)

  /** The compressed pointer: null, one continuation, or the shared vector; and the lock flag. */
  datatype Pointer = Null | Inline(c: nat) | Vector
  datatype Data = Data(ptr: Pointer, locked: bool)

  /** A thread adding a continuation; continuations are numbered like their adders. */
  datatype Adder =
    | AddStart                                    // next: load the task state
    | AddLoad                                     // next: load the pointer
    | AddCas(seen: Data, spare: Option<nat>)      // next: compare-exchange; `spare`: the element
                                                  // copied into a vector allocated earlier
    | AddMutex                                    // next: lock the vector's mutex
    | AddRecheck                                  // mutex held; next: load the flag again
    | AddPush                                     // mutex held; next: push and unlock
    | AddDirect                                   // next: schedule the continuation itself
    | AddDone

  /** What running the function leads to; an unwrapped task takes its child's outcome. */
  datatype Result = Returns(v: int) | Throws(e: int) | Unwraps(child: Outcome)

  /** A thread that finishes the task. */
  datatype Producer =
    | Claiming(o: Outcome)                        // event setter; next: compare-exchange the state
    | Ready(r: Result)                            // owner of the run handle; next: run or cancel
    | WritePayload(o: Outcome, destroy: bool)     // next: construct the result or exception
    | DestroyAfter(o: Outcome)                    // next: destroy the function, having the result
    | DestroyFirst(o: Outcome)                    // next: destroy the function, then write
    | StoreUnwrapped(o: Outcome)                  // next: store the state `unwrapped`
    | DestroyUnwrapped(o: Outcome)                // next: destroy the function
    | AwaitChild(o: Outcome)                      // next: the child has finished with o
    | StoreFinal(o: Outcome)                      // next: store the final state
    | FlushLoad                                   // next: load the pointer
    | FlushCas(seen: Data)                        // next: compare-exchange in the lock flag
    | FlushMutex                                  // next: lock the vector's mutex
    | Flushing(i: nat)                            // mutex held; next: schedule element i, or clear
    | FlushInline(c: nat)                         // next: schedule the inline element
    | Finished(won: bool)

  datatype Holder = Nobody | ByAdder(i: nat) | ByProducer(p: nat)

  /** The task, its threads, and history: what was added, scheduled (in order), dropped by
      the destructor; how often the function was destroyed, the task finished, the flag set. */
  datatype State = State(
    task: TaskState,
    payload: Payload,
    data: Data,
    elements: seq<nat>,
    mutex: Holder,
    hasFunc: bool,
    deleted: bool,
    adders: seq<Adder>,
    producers: seq<Producer>,
    added: multiset<nat>,
    scheduled: seq<nat>,
    dropped: multiset<nat>,
    funcDestroyed: nat,
    finishes: nat,
    flushes: nat,
    flushed: bool)

  datatype Step =
    | AdderStep(i: nat, spurious: bool)
    | ProducerStep(p: nat, spurious: bool)
    | Delete                                      // the last reference is gone

  ghost predicate Init(s: State) {
    && s.task == Pending && s.payload == Nothing
    && s.data == Data(Null, false) && s.elements == [] && s.mutex == Nobody && !s.deleted
    && (forall i | 0 <= i < |s.adders| :: s.adders[i] == AddStart)
    && (if s.hasFunc then |s.producers| == 1 && s.producers[0].Ready?
        else forall p | 0 <= p < |s.producers| :: s.producers[p].Claiming?)
    && s.added == s.dropped == multiset{} && s.scheduled == []
    && s.funcDestroyed == s.finishes == s.flushes == 0 && !s.flushed
  }

  predicate Enabled(s: State, step: Step) {
    && !s.deleted
    && match step
       case AdderStep(i, _) =>
         && i < |s.adders| && s.adders[i] != AddDone
         && (s.adders[i] == AddMutex ==> s.mutex == Nobody)
       case ProducerStep(p, _) =>
         && p < |s.producers| && !s.producers[p].Finished?
         && (s.producers[p] == FlushMutex ==> s.mutex == Nobody)
       case Delete =>
         && (forall i | 0 <= i < |s.adders| :: s.adders[i] == AddStart || s.adders[i] == AddDone)
         && (forall p | 0 <= p < |s.producers| ::
               || s.producers[p].Claiming? || s.producers[p].Ready? || s.producers[p].AwaitChild?
               || s.producers[p].Finished?)
  }

  /** What try_add does with the value it has just loaded. */
  function Decide(seen: Data, spare: Option<nat>): Adder {
    if seen.locked then AddDirect
    else
      match seen.ptr
      case Vector => AddMutex
      case Inline(c) => AddCas(seen, if spare == None then Some(c) else spare)
      case Null => AddCas(seen, spare)
  }

  function SetAdder(s: State, i: nat, a: Adder): State
    requires i < |s.adders|
  {
    s.(adders := s.adders[i := a])
  }

  function AdderNext(s: State, i: nat, spurious: bool): State
    requires Enabled(s, AdderStep(i, spurious))
  {
    match s.adders[i]
    case AddStart => SetAdder(s, i, if IsFinished(s.task) then AddDirect else AddLoad)
    case AddLoad => SetAdder(s, i, Decide(s.data, None))
    case AddCas(seen, spare) =>
      if s.data != seen || spurious then SetAdder(s, i, Decide(s.data, spare))
      else if spare.Some? then
        SetAdder(s, i, AddDone).(data := Data(Vector, false), elements := [spare.value, i],
                                 added := s.added + multiset{i})
      else
        SetAdder(s, i, AddDone).(data := Data(Inline(i), false), added := s.added + multiset{i})
    case AddMutex => SetAdder(s, i, AddRecheck).(mutex := ByAdder(i))
    case AddRecheck =>
      if s.data.locked then SetAdder(s, i, AddDirect).(mutex := Nobody) else SetAdder(s, i, AddPush)
    case AddPush =>
      SetAdder(s, i, AddDone).(elements := s.elements + [i], mutex := Nobody, added := s.added + multiset{i})
    case AddDirect =>
      SetAdder(s, i, AddDone).(scheduled := s.scheduled + [i], added := s.added + multiset{i})
  }

  function SetProducer(s: State, p: nat, x: Producer): State
    requires p < |s.producers|
  {
    s.(producers := s.producers[p := x])
  }

  /** What flush_and_lock does once its compare-exchange has set the flag. */
  function AfterLock(ptr: Pointer): Producer {
    match ptr
    case Vector => FlushMutex
    case Inline(c) => FlushInline(c)
    case Null => Finished(true)
  }

  function SetLockFlag(s: State, p: nat): State
    requires p < |s.producers|
  {
    SetProducer(s, p, AfterLock(s.data.ptr)).(data := s.data.(locked := true), flushes := s.flushes + 1,
                                              flushed := s.data.ptr == Null)
  }

  function ProducerNext(s: State, p: nat, spurious: bool): State
    requires Enabled(s, ProducerStep(p, spurious))
  {
    match s.producers[p]
    case Claiming(o) =>
      if s.task == Pending then SetProducer(s, p, WritePayload(o, false)).(task := Locked)
      else SetProducer(s, p, Finished(false))
    case Ready(r) =>
      SetProducer(s, p,
                  match r
                  case Returns(v) => WritePayload(Value(v), true)
                  case Throws(e) => DestroyFirst(Error(e))
                  case Unwraps(o) => StoreUnwrapped(o))
    case WritePayload(o, destroy) =>
      SetProducer(s, p, if destroy then DestroyAfter(o) else StoreFinal(o)).(payload := Holding(o))
    case DestroyAfter(o) => SetProducer(s, p, StoreFinal(o)).(funcDestroyed := s.funcDestroyed + 1)
    case DestroyFirst(o) => SetProducer(s, p, WritePayload(o, false)).(funcDestroyed := s.funcDestroyed + 1)
    case StoreUnwrapped(o) => SetProducer(s, p, DestroyUnwrapped(o)).(task := Unwrapped)
    case DestroyUnwrapped(o) => SetProducer(s, p, AwaitChild(o)).(funcDestroyed := s.funcDestroyed + 1)
    case AwaitChild(o) => SetProducer(s, p, WritePayload(o, false))
    case StoreFinal(o) =>
      SetProducer(s, p, FlushLoad).(task := if o.Value? then Completed else Canceled, finishes := s.finishes + 1)
    case FlushLoad => SetProducer(s, p, FlushCas(s.data))
    case FlushCas(seen) =>
      if s.data != seen || spurious then SetProducer(s, p, FlushCas(s.data))
      else SetLockFlag(s, p)
    case FlushMutex => SetProducer(s, p, Flushing(0)).(mutex := ByProducer(p))
    case Flushing(i) =>
      if i < |s.elements| then SetProducer(s, p, Flushing(i + 1)).(scheduled := s.scheduled + [s.elements[i]])
      else SetProducer(s, p, Finished(true)).(elements := [], mutex := Nobody, flushed := true)
    case FlushInline(c) => SetProducer(s, p, Finished(true)).(scheduled := s.scheduled + [c], flushed := true)
  }

  /** The destructors of the task: function, result or exception, leftover continuations. */
  function DeleteNext(s: State): State {
    s.(deleted := true,
       payload := if IsFinished(s.task) then Nothing else s.payload,
       funcDestroyed := s.funcDestroyed + if s.hasFunc && s.task == Pending then 1 else 0,
       dropped := match s.data.ptr
                  case Vector => multiset(s.elements)
                  case Inline(c) => if s.data.locked then multiset{} else multiset{c}
                  case Null => multiset{})
  }

  function Apply(s: State, step: Step): State
    requires Enabled(s, step)
  {
    match step
    case AdderStep(i, spurious) => AdderNext(s, i, spurious)
    case ProducerStep(p, spurious) => ProducerNext(s, p, spurious)
    case Delete => DeleteNext(s)
  }

  predicate Next(s: State, step: Step, s': State) {
    Enabled(s, step) && s' == Apply(s, step)
  }

  ghost predicate Run(run: Trace<State, Step>) {
    match run
    case Start(s) => Init(s)
    case Then(before, step, s) => Run(before) && Next(before.Last(), step, s)
  }
}
