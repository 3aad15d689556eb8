/**
when_all and when_any over a range of n >= 1 tasks: the registration loop, the
continuations it adds, and the reference-counted shared state, whose last
reference sets the event of when_all. One step is one shared access.
 */
module WhenAll {
  import opened Common

  datatype Kind = All | Any

  /** The continuation on one input; it owns one reference to the shared state. */
  datatype Cont =
    | Unregistered             // its reference is still owned by the registration loop
    | Attached                 // runs once the input has finished
    | Ran                      // body executed; next: drop the reference
    | Released

  /** The event of the shared state: how often it was set, and to what. For when_any the
      value is the index of the winner, for when_all the list of finished inputs. */
  datatype Event = Event(sets: nat, index: Option<nat>, tasks: seq<Option<nat>>)

  datatype State = State(
    kind: Kind,
    next: nat,                 // loop counter of the registration loop
    finished: seq<bool>,
    conts: seq<Cont>,
    slots: seq<Option<nat>>,   // result[i]: the task stored there, named by its index
    refs: int,
    deleter: Option<nat>,      // the continuation whose remove_ref saw the count reach zero
    freed: bool,
    event: Event)

  datatype Step =
    | Register                 // one round of the loop
    | Finish(i: nat)
    | RunCont(i: nat)
    | DropRef(i: nat)
    | Destroy                  // the destructor of the shared state

  ghost predicate Init(s: State) {
    && |s.conts| > 0 && |s.finished| == |s.slots| == |s.conts| == s.refs
    && s.next == 0 && s.deleter == None && !s.freed
    && s.event == Event(0, None, [])
    && forall i | 0 <= i < |s.conts| :: s.conts[i] == Unregistered && s.slots[i] == None
  }

  predicate WellFormed(s: State) {
    |s.finished| == |s.slots| == |s.conts|
  }

  predicate Enabled(s: State, step: Step)
    requires WellFormed(s)
  {
    match step
    case Register => s.next < |s.conts|
    case Finish(i) => i < |s.conts| && !s.finished[i]
    case RunCont(i) => i < |s.conts| && s.conts[i] == Attached && s.finished[i]
    case DropRef(i) => i < |s.conts| && s.conts[i] == Ran
    case Destroy => s.deleter.Some? && !s.freed
  }

  /** The steps that read or write the shared state. */
  predicate Touches(s: State, step: Step) {
    step.Register? || step.RunCont? || step.DropRef? || step.Destroy?
  }

  function Apply(s: State, step: Step): State
    requires WellFormed(s) && Enabled(s, step)
  {
    match step
    case Register => s.(conts := s.conts[s.next := Attached], next := s.next + 1)
    case Finish(i) => s.(finished := s.finished[i := true])
    case RunCont(i) =>
      (match s.kind
       case All => s.(conts := s.conts[i := Ran], slots := s.slots[i := Some(i)])
       case Any =>
         if s.event.sets == 0 then
           s.(conts := s.conts[i := Ran], event := Event(1, Some(i), []))
         else s.(conts := s.conts[i := Ran]))
    case DropRef(i) =>
      s.(conts := s.conts[i := Released], refs := s.refs - 1,
         deleter := if s.refs == 1 then Some(i) else s.deleter)
    case Destroy =>
      (match s.kind
       case All => s.(freed := true, event := Event(s.event.sets + 1, None, s.slots))
       case Any => s.(freed := true))
  }

  predicate Next(s: State, step: Step, s': State) {
    WellFormed(s) && Enabled(s, step) && s' == Apply(s, step)
  }

  ghost predicate Run(run: Trace<State, Step>) {
    match run
    case Start(s) => Init(s)
    case Then(before, step, s) => Run(before) && Next(before.Last(), step, s)
  }

  // ----- Invariant -----

  /** The references not dropped yet. */
  function Owners(conts: seq<Cont>): nat {
    if conts == [] then 0 else (if conts[0] == Released then 0 else 1) + Owners(conts[1..])
  }

  lemma {:induction false} OwnersUpdate(conts: seq<Cont>, i: nat, c: Cont)
    requires i < |conts|
    ensures Owners(conts[i := c]) + (if conts[i] == Released then 0 else 1)
         == Owners(conts) + (if c == Released then 0 else 1)
  {
    if i > 0 {
      OwnersUpdate(conts[1..], i - 1, c);
      assert conts[i := c][1..] == conts[1..][i - 1 := c];
    } else {
      assert conts[i := c][1..] == conts[1..];
    }
  }

  lemma {:induction false} OwnersZero(conts: seq<Cont>)
    ensures Owners(conts) == 0 <==> forall i | 0 <= i < |conts| :: conts[i] == Released
    ensures (forall i | 0 <= i < |conts| :: conts[i] != Released) ==> Owners(conts) == |conts|
  {
    if conts != [] {
      OwnersZero(conts[1..]);
      assert forall i | 0 < i < |conts| :: conts[i] == conts[1..][i - 1];
      assert forall i | 0 <= i < |conts| - 1 :: conts[1..][i] == conts[i + 1];
    }
  }

  ghost predicate Inv(s: State) {
    && WellFormed(s) && |s.conts| > 0 && s.next <= |s.conts|
    && (forall i | 0 <= i < |s.conts| :: s.conts[i] == Unregistered <==> i >= s.next)
    && (forall i | 0 <= i < |s.conts| && (s.conts[i] == Ran || s.conts[i] == Released) ::
          s.finished[i] && (s.kind == All ==> s.slots[i] == Some(i)))
    && s.refs == Owners(s.conts)
    && (s.deleter.Some? <==> s.refs == 0)
    && (s.freed ==> s.deleter.Some?)
    && s.event.sets <= 1
    && (s.kind == All ==> (s.event.sets == 1 <==> s.freed) && (s.freed ==> s.event.tasks == s.slots))
    && (s.kind == Any ==>
          (s.event.sets == 1 <==> exists i :: 0 <= i < |s.conts| && (s.conts[i] == Ran || s.conts[i] == Released))
          && (s.event.sets == 1 ==>
                s.event.index.Some? && s.event.index.value < |s.conts| && s.finished[s.event.index.value]))
  }

  lemma InitInv(s: State)
    requires Init(s)
    ensures Inv(s)
  {
    OwnersZero(s.conts);
  }

  lemma RegisterInv(s: State)
    requires Inv(s) && Enabled(s, Register)
    ensures Inv(Apply(s, Register))
  {
    OwnersUpdate(s.conts, s.next, Attached);
    OwnersZero(s.conts);
  }

  lemma RunContInv(s: State, i: nat)
    requires Inv(s) && Enabled(s, RunCont(i))
    ensures Inv(Apply(s, RunCont(i)))
  {
    OwnersUpdate(s.conts, i, Ran);
    OwnersZero(s.conts);
    var s' := Apply(s, RunCont(i));
    assert s'.conts[i] == Ran;
    assert forall j | 0 <= j < |s.conts| && j != i :: s'.conts[j] == s.conts[j];
  }

  lemma DropRefInv(s: State, i: nat)
    requires Inv(s) && Enabled(s, DropRef(i))
    ensures Inv(Apply(s, DropRef(i)))
  {
    OwnersUpdate(s.conts, i, Released);
    var s' := Apply(s, DropRef(i));
    assert s'.conts[i] == Released;
    assert forall j | 0 <= j < |s.conts| && j != i :: s'.conts[j] == s.conts[j];
  }

  lemma NextInv(s: State, step: Step, s': State)
    requires Inv(s) && Next(s, step, s')
    ensures Inv(s')
  {
    match step
    case Register => RegisterInv(s);
    case RunCont(i) => RunContInv(s, i);
    case DropRef(i) => DropRefInv(s, i);
    case _ =>
  }

  lemma {:induction false} RunInv(run: Trace<State, Step>)
    requires Run(run)
    ensures Inv(run.Last())
  {
    match run
    case Start(s) => InitInv(s);
    case Then(before, step, s) => RunInv(before); NextInv(before.Last(), step, s);
  }

  // ----- Theorems -----

  /** The shared state is never touched after it has been freed, in particular not by the
      registration loop, and is freed only when every continuation has run. */
  lemma {:induction false} NeverTouchedAfterFree(run: Trace<State, Step>, step: Step)
    requires Run(run)
    ensures Inv(run.Last())
    ensures Enabled(run.Last(), step) && Touches(run.Last(), step) ==> !run.Last().freed
    ensures run.Last().deleter.Some? ==> run.Last().next == |run.Last().conts|
  {
    var s := run.Last();
    RunInv(run);
    OwnersZero(s.conts);
    assert s.next < |s.conts| ==> s.conts[s.next] == Unregistered;
  }

  /** when_all sets its event at most once, and only to the list of all its inputs, each of them finished. */
  lemma {:induction false} WhenAllResult(run: Trace<State, Step>)
    requires Run(run) && run.Last().kind == All
    ensures var s := run.Last();
            && s.event.sets <= 1
            && (s.event.sets == 1 ==>
                  && |s.event.tasks| == |s.conts| == |s.finished|
                  && forall i | 0 <= i < |s.conts| :: s.finished[i] && s.event.tasks[i] == Some(i))
  {
    RunInv(run);
    OwnersZero(run.Last().conts);
  }

  /** The winner of when_any is unique, and its index names an input that has finished. */
  lemma {:induction false} WhenAnyResult(run: Trace<State, Step>)
    requires Run(run) && run.Last().kind == Any
    ensures var s := run.Last();
            && s.event.sets <= 1
            && (s.event.sets == 1 ==>
                  s.event.index.Some? && s.event.index.value < |s.finished| && s.finished[s.event.index.value])
  {
    RunInv(run);
  }

  /** The input whose continuation was the first to run. */
  function FirstRan(run: Trace<State, Step>): Option<nat> {
    match run
    case Start(_) => None
    case Then(before, step, _) =>
      if FirstRan(before).Some? then FirstRan(before)
      else match step case RunCont(i) => Some(i) case _ => None
  }

  /** The winner of when_any is the input whose continuation ran first, from that moment on. */
  lemma {:induction false} FirstWins(run: Trace<State, Step>)
    requires Run(run) && run.Last().kind == Any
    ensures run.Last().event.index == FirstRan(run)
    ensures run.Last().event.sets == if FirstRan(run).Some? then 1 else 0
  {
    match run
    case Start(_) =>
    case Then(before, step, s) =>
      assert before.Last().kind == Any;
      FirstWins(before);
  }

  /** The index is decided once. */
  lemma WhenAnyIsStable(s: State, step: Step, s': State)
    requires Inv(s) && Next(s, step, s') && s.event.sets == 1
    ensures s'.event == s.event
  {
    OwnersZero(s.conts);
  }

  /** When nothing is left to do, all inputs having finished, the event has been set exactly
      once and the shared state has been freed. */
  lemma {:induction false} CompletedOnce(run: Trace<State, Step>)
    requires Run(run) && WellFormed(run.Last())
    requires forall step :: !Enabled(run.Last(), step)
    ensures run.Last().event.sets == 1 && run.Last().freed
  {
    var s := run.Last();
    RunInv(run);
    assert !Enabled(s, Register) && !Enabled(s, Destroy);
    forall i: nat | i < |s.conts| ensures s.conts[i] == Released {
      assert !Enabled(s, Finish(i)) && !Enabled(s, RunCont(i)) && !Enabled(s, DropRef(i));
    }
    OwnersZero(s.conts);
    assert s.conts[0] == Released;
  }

  // ----- It comes to that -----

  function ContLeft(c: Cont): nat {
    match c case Unregistered => 3 case Attached => 2 case Ran => 1 case Released => 0
  }

  function ContsLeft(conts: seq<Cont>): nat {
    if conts == [] then 0 else ContLeft(conts[0]) + ContsLeft(conts[1..])
  }

  lemma {:induction false} ContsUpdate(conts: seq<Cont>, i: nat, c: Cont)
    requires i < |conts|
    ensures ContsLeft(conts[i := c]) + ContLeft(conts[i]) == ContsLeft(conts) + ContLeft(c)
  {
    if i == 0 {
      assert conts[i := c][1..] == conts[1..];
    } else {
      assert conts[i := c][1..] == conts[1..][i - 1 := c];
      ContsUpdate(conts[1..], i - 1, c);
    }
  }

  function Unfinished(finished: seq<bool>): nat {
    if finished == [] then 0 else (if finished[0] then 0 else 1) + Unfinished(finished[1..])
  }

  lemma {:induction false} FinishedUpdate(finished: seq<bool>, i: nat)
    requires i < |finished| && !finished[i]
    ensures Unfinished(finished[i := true]) + 1 == Unfinished(finished)
  {
    if i == 0 {
      assert finished[i := true][1..] == finished[1..];
    } else {
      assert finished[i := true][1..] == finished[1..][i - 1 := true];
      FinishedUpdate(finished[1..], i - 1);
    }
  }

  function Measure(s: State): nat {
    ContsLeft(s.conts) + Unfinished(s.finished) + if s.freed then 0 else 1
  }

  /** Every step leads on, so every run comes to the end that CompletedOnce describes. */
  lemma StepDecreases(s: State, step: Step, s': State)
    requires Inv(s) && Next(s, step, s')
    ensures Measure(s') < Measure(s)
  {
    match step
    case Register => ContsUpdate(s.conts, s.next, Attached);
    case Finish(i) => FinishedUpdate(s.finished, i);
    case RunCont(i) => ContsUpdate(s.conts, i, Ran);
    case DropRef(i) => ContsUpdate(s.conts, i, Released);
    case Destroy =>
  }
}
