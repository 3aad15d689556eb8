/**
The work-stealing deque as a concurrent step model: one owner that pushes and
pops, any number of thieves that steal, and one shared-memory access per step.
Indices are unbounded here; WorkStealQueue.dfy treats their 64-bit form.
 */
module ChaseLev {
  import opened Common
  import opened Bits

  /** One circular array; `previous` is the address of the array it replaced (-1: none). */
  datatype CircularArray = CircularArray(items: seq<Task>, previous: int)

  function Get(a: CircularArray, index: nat): Task
    requires |a.items| > 0
  {
    a.items[And(index, |a.items| - 1)]
  }

  function Put(a: CircularArray, index: nat, x: Task): CircularArray
    requires |a.items| > 0
  {
    a.(items := a.items[And(index, |a.items| - 1) := x])
  }

  /** Where the owner is; the parameters are the locals it has read so far. */
  datatype Owner =
    | Idle
    | PushTop(x: Task, b: nat)                                // next: load top
    | PushArray(x: Task, b: nat, t: nat)                      // next: load array
    | PushCopy(x: Task, b: nat, t: nat, i: nat, copy: nat)   // next: copy element i, or publish
    | PushPut(x: Task, b: nat, a: nat)                        // next: write the slot
    | PushBottom(x: Task, b: nat)                             // next: store bottom
    | PopTop(b: nat)                                          // next: load top (early exit)
    | PopBottom(b: nat)                                       // next: store the decremented bottom
    | PopTopAgain(b: nat)                                     // next: load top again
    | PopArray(b: nat, t: nat)                                // next: load array
    | PopGet(b: nat, t: nat, a: nat)                          // next: read the slot
    | PopCas(b: nat, x: Task)                                 // next: compare-exchange top
    | PopRestore(b: nat, result: Option<Task>)                // next: store bottom back

  datatype Thief =
    | Away
    | StealTop                        // next: load top
    | StealBottom(t: nat)             // next: load bottom
    | StealArray(t: nat)              // next: load array
    | StealGet(t: nat, a: nat)        // next: read the slot
    | StealCas(t: nat, x: Task)       // next: compare-exchange top

  /**
  The shared fields, the heap of circular arrays, every thread's position, and
  history: `log[i]` is the task most recently pushed at logical index i and not
  popped from the bottom since, `claimed` the task an unfinished pop has won.
   */
  datatype State = State(
    top: nat,
    bottom: nat,
    current: nat,                     // the atomic `array` pointer
    heap: seq<CircularArray>,
    owner: Owner,
    thieves: seq<Thief>,
    log: seq<Task>,
    claimed: Option<Task>,
    pushed: multiset<Task>,
    popped: multiset<Task>,
    stolen: multiset<Task>)

  datatype Step =
    | CallPush(x: Task)
    | CallPop
    | CallSteal(i: nat)
    | OwnerStep(garbage: seq<Task>)       // contents of a newly allocated array
    | ThiefStep(i: nat, spurious: bool)   // a weak compare-exchange may fail for no reason

  const INITIAL_SIZE := 32

  ghost predicate Init(s: State) {
    && s.top == 0 && s.bottom == 0 && s.current == 0
    && |s.heap| == 1 && |s.heap[0].items| == INITIAL_SIZE && s.heap[0].previous == -1
    && s.owner == Idle
    && (forall i | 0 <= i < |s.thieves| :: s.thieves[i] == Away)
    && s.log == [] && s.claimed == None
    && s.pushed == s.popped == s.stolen == multiset{}
  }

  /** Every pointer held by a thread points into the heap; array sizes are powers of two. */
  ghost predicate WellFormed(s: State) {
    && s.current < |s.heap|
    && (forall k | 0 <= k < |s.heap| :: IsPow2(|s.heap[k].items|))
    && (s.owner.PushCopy? ==> s.owner.copy < |s.heap|)
    && (s.owner.PushPut? ==> s.owner.a < |s.heap|)
    && (s.owner.PopGet? ==> s.owner.a < |s.heap|)
    && (forall i | 0 <= i < |s.thieves| :: s.thieves[i].StealGet? ==> s.thieves[i].a < |s.heap|)
  }

  ghost predicate Enabled(s: State, step: Step)
    requires WellFormed(s)
  {
    match step
    case CallPush(_) => s.owner == Idle
    case CallPop => s.owner == Idle
    case CallSteal(i) => i < |s.thieves| && s.thieves[i] == Away
    case OwnerStep(garbage) => s.owner != Idle && |garbage| == 2 * |s.heap[s.current].items|
    case ThiefStep(i, _) => i < |s.thieves| && s.thieves[i] != Away
  }

  ghost function OwnerNext(s: State, garbage: seq<Task>): State
    requires WellFormed(s) && Enabled(s, OwnerStep(garbage))
  {
    match s.owner
    case PushTop(x, b) =>
      s.(owner := PushArray(x, b, s.top))
    case PushArray(x, b, t) =>
      if b - t >= |s.heap[s.current].items| then
        s.(heap := s.heap + [CircularArray(garbage, s.current)],
           owner := PushCopy(x, b, t, t, |s.heap|))
      else
        s.(owner := PushPut(x, b, s.current))
    case PushCopy(x, b, t, i, copy) =>
      if i != b then
        s.(heap := s.heap[copy := Put(s.heap[copy], i, Get(s.heap[s.current], i))],
           owner := PushCopy(x, b, t, i + 1, copy))
      else
        s.(current := copy, owner := PushPut(x, b, copy))
    case PushPut(x, b, a) =>
      s.(heap := s.heap[a := Put(s.heap[a], b, x)], owner := PushBottom(x, b))
    case PushBottom(x, b) =>
      s.(bottom := b + 1, owner := Idle, log := s.log + [x], pushed := s.pushed + multiset{x})
    case PopTop(b) =>
      if b - s.top <= 0 then s.(owner := Idle) else s.(owner := PopBottom(b - 1))
    case PopBottom(b) =>
      s.(bottom := b, owner := PopTopAgain(b))
    case PopTopAgain(b) =>
      if b - s.top < 0 then
        s.(owner := PopRestore(b, None))
      else if b != s.top && b < |s.log| then
        s.(owner := PopArray(b, s.top), log := s.log[..b], claimed := Some(s.log[b]))
      else
        s.(owner := PopArray(b, s.top))
    case PopArray(b, t) =>
      s.(owner := PopGet(b, t, s.current))
    case PopGet(b, t, a) =>
      var x := Get(s.heap[a], b);
      if b == t then
        s.(owner := PopCas(b, x))
      else
        s.(owner := Idle, popped := s.popped + multiset{x}, claimed := None)
    case PopCas(b, x) =>
      if s.top == b then
        s.(top := b + 1, owner := PopRestore(b, Some(x)),
           claimed := if b < |s.log| then Some(s.log[b]) else None)
      else
        s.(owner := PopRestore(b, None))
    case PopRestore(b, result) =>
      match result
      case None => s.(bottom := b + 1, owner := Idle)
      case Some(x) =>
        s.(bottom := b + 1, owner := Idle, popped := s.popped + multiset{x}, claimed := None)
  }

  ghost function ThiefNext(s: State, i: nat, spurious: bool): State
    requires WellFormed(s) && Enabled(s, ThiefStep(i, spurious))
  {
    match s.thieves[i]
    case StealTop =>
      s.(thieves := s.thieves[i := StealBottom(s.top)])
    case StealBottom(t) =>
      s.(thieves := s.thieves[i := if s.bottom - t <= 0 then Away else StealArray(t)])
    case StealArray(t) =>
      s.(thieves := s.thieves[i := StealGet(t, s.current)])
    case StealGet(t, a) =>
      s.(thieves := s.thieves[i := StealCas(t, Get(s.heap[a], t))])
    case StealCas(t, x) =>
      if s.top == t && !spurious then
        s.(top := t + 1, thieves := s.thieves[i := Away], stolen := s.stolen + multiset{x})
      else
        s.(thieves := s.thieves[i := StealTop])
  }

  ghost function Apply(s: State, step: Step): State
    requires WellFormed(s) && Enabled(s, step)
  {
    match step
    case CallPush(x) => s.(owner := PushTop(x, s.bottom))
    case CallPop => s.(owner := PopTop(s.bottom))
    case CallSteal(i) => s.(thieves := s.thieves[i := StealTop])
    case OwnerStep(garbage) => OwnerNext(s, garbage)
    case ThiefStep(i, spurious) => ThiefNext(s, i, spurious)
  }

  ghost predicate Next(s: State, step: Step, s': State) {
    WellFormed(s) && Enabled(s, step) && s' == Apply(s, step)
  }

  ghost predicate Run(run: Trace<State, Step>) {
    match run
    case Start(s) => Init(s)
    case Then(before, step, s) => Run(before) && Next(before.Last(), step, s)
  }
}
