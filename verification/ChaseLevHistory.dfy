/**
Which operation each effect on the abstract deque belongs to: between its call and its return
an operation has exactly one, and that one explains the answer it gives. Together with
ChaseLevTheorems.RunRefines, by which all effects in order are a legal sequential history,
this makes the deque linearizable.
 */
module ChaseLevHistory {
  import opened Common
  import opened ChaseLev
  import opened ChaseLevProof
  import opened ChaseLevTheorems

  function Visible(e: Event): seq<Event> {
    if e == Silent then [] else [e]
  }

  // ----- The owner -----

  /** The owner's last call. */
  datatype Call = NoCall | PushCall(x: Task) | PopCall

  ghost function OwnerCall(run: Trace<State, Step>): Call {
    match run
    case Start(_) => NoCall
    case Then(before, step, _) =>
      match step
      case CallPush(x) => PushCall(x)
      case CallPop => PopCall
      case _ => OwnerCall(before)
  }

  /** The effects of the owner's steps since its last call. */
  ghost function OwnerEffects(run: Trace<State, Step>): seq<Event>
    requires Run(run)
  {
    match run
    case Start(_) => []
    case Then(before, step, _) =>
      match step
      case CallPush(_) => []
      case CallPop => []
      case OwnerStep(_) => OwnerEffects(before) + Visible(Effect(before.Last(), step))
      case _ => OwnerEffects(before)
  }

  /** What the caller gets from a step of the owner, if that step returns. */
  datatype Answer = Working | Pushed | Popped(r: Option<Task>)

  ghost function OwnerAnswer(s: State): Answer
    requires WellFormed(s)
  {
    match s.owner
    case PushBottom(_, _) => Pushed
    case PopTop(b) => if b <= s.top then Popped(None) else Working
    case PopGet(b, t, a) => if b != t then Popped(Some(Get(s.heap[a], b))) else Working
    case PopRestore(_, r) => Popped(r)
    case _ => Working
  }

  lemma AnswersOnReturn(s: State, garbage: seq<Task>)
    requires WellFormed(s) && Enabled(s, OwnerStep(garbage))
    ensures OwnerAnswer(s) != Working <==> OwnerNext(s, garbage).owner == Idle
  {
  }

  predicate PushPhase(owner: Owner, x: Task) {
    match owner
    case PushTop(y, _) => y == x
    case PushArray(y, _, _) => y == x
    case PushCopy(y, _, _, _, _) => y == x
    case PushPut(y, _, _) => y == x
    case PushBottom(y, _) => y == x
    case _ => false
  }

  /** What the owner's position says about its call and the effects it has had. */
  predicate OwnerHistory(owner: Owner, claimed: Option<Task>, call: Call, effects: seq<Event>) {
    owner == Idle ||
    match call
    case NoCall => false
    case PushCall(x) => PushPhase(owner, x) && effects == []
    case PopCall =>
      match owner
      case PopTop(_) => effects == []
      case PopBottom(_) => effects == []
      case PopTopAgain(_) => effects == []
      case PopArray(b, t) => if b == t then effects == [] else claimed.Some? && effects == [PopNewest(claimed.value)]
      case PopGet(b, t, _) => if b == t then effects == [] else claimed.Some? && effects == [PopNewest(claimed.value)]
      case PopCas(_, _) => effects == []
      case PopRestore(_, r) => effects == [PopEvent(r)]
      case _ => false
  }

  function PopEvent(r: Option<Task>): Event {
    match r case None => PopFindsNothing case Some(x) => PopNewest(x)
  }

  lemma PushKeepsHistory(s: State, garbage: seq<Task>, call: Call, effects: seq<Event>)
    requires Inv(s) && Enabled(s, OwnerStep(garbage)) && call.PushCall?
    requires OwnerHistory(s.owner, s.claimed, call, effects)
    ensures var s' := OwnerNext(s, garbage);
            OwnerHistory(s'.owner, s'.claimed, call, effects + Visible(Effect(s, OwnerStep(garbage))))
  {
  }

  lemma PopKeepsHistory(s: State, garbage: seq<Task>, call: Call, effects: seq<Event>)
    requires Inv(s) && Enabled(s, OwnerStep(garbage)) && call.PopCall?
    requires OwnerHistory(s.owner, s.claimed, call, effects)
    ensures var s' := OwnerNext(s, garbage);
            OwnerHistory(s'.owner, s'.claimed, call, effects + Visible(Effect(s, OwnerStep(garbage))))
  {
    match s.owner
    case PopTopAgain(_) =>
    case PopGet(_, _, _) =>
    case PopCas(_, _) =>
    case _ =>
  }

  lemma {:induction false} RunOwnerHistory(run: Trace<State, Step>)
    requires Run(run)
    ensures OwnerHistory(run.Last().owner, run.Last().claimed, OwnerCall(run), OwnerEffects(run))
  {
    match run
    case Start(_) =>
    case Then(before, step, s) =>
      RunOwnerHistory(before);
      RunInv(before);
      OwnerHistoryKept(before.Last(), step, s, OwnerCall(before), OwnerEffects(before));
  }

  /** The call and the effects after one more step. */
  lemma OwnerHistoryKept(s: State, step: Step, s': State, call: Call, effects: seq<Event>)
    requires Inv(s) && Next(s, step, s') && OwnerHistory(s.owner, s.claimed, call, effects)
    ensures match step
            case CallPush(x) => OwnerHistory(s'.owner, s'.claimed, PushCall(x), [])
            case CallPop => OwnerHistory(s'.owner, s'.claimed, PopCall, [])
            case OwnerStep(_) => OwnerHistory(s'.owner, s'.claimed, call, effects + Visible(Effect(s, step)))
            case _ => OwnerHistory(s'.owner, s'.claimed, call, effects)
  {
    match step
    case OwnerStep(garbage) =>
      if call.PushCall? {
        PushKeepsHistory(s, garbage, call, effects);
      } else {
        PopKeepsHistory(s, garbage, call, effects);
      }
    case ThiefStep(_, _) => assert s'.owner == s.owner && s'.claimed == s.claimed;
    case _ =>
  }

  /** When a push or pop returns, it has had exactly one effect since its call: the pushed task was
      appended, the task it returns was removed as the newest, or the deque was empty and it
      returns nothing. */
  lemma {:induction false} OwnerLinearizes(run: Trace<State, Step>)
    requires Run(run) && run.Then? && run.step.OwnerStep? && run.after.owner == Idle
    ensures WellFormed(run.before.Last())
    ensures match OwnerCall(run)
            case PushCall(x) => OwnerAnswer(run.before.Last()) == Pushed && OwnerEffects(run) == [PushNewest(x)]
            case PopCall =>
              && OwnerAnswer(run.before.Last()).Popped?
              && OwnerEffects(run) == [PopEvent(OwnerAnswer(run.before.Last()).r)]
            case NoCall => false
  {
    RunOwnerHistory(run.before);
    RunInv(run.before);
    ReturnExplained(run.before.Last(), run.step.garbage, OwnerCall(run.before), OwnerEffects(run.before));
  }

  lemma ReturnExplained(s: State, garbage: seq<Task>, call: Call, effects: seq<Event>)
    requires Inv(s) && Enabled(s, OwnerStep(garbage)) && OwnerNext(s, garbage).owner == Idle
    requires OwnerHistory(s.owner, s.claimed, call, effects)
    ensures var all := effects + Visible(Effect(s, OwnerStep(garbage)));
            match call
            case PushCall(x) => OwnerAnswer(s) == Pushed && all == [PushNewest(x)]
            case PopCall => OwnerAnswer(s).Popped? && all == [PopEvent(OwnerAnswer(s).r)]
            case NoCall => false
  {
    AnswersOnReturn(s, garbage);
  }

  // ----- Thieves -----

  /** The effects of thief i's steps since it last called steal. */
  ghost function ThiefEffects(run: Trace<State, Step>, i: nat): seq<Event>
    requires Run(run)
  {
    match run
    case Start(_) => []
    case Then(before, step, _) =>
      match step
      case CallSteal(j) => if j == i then [] else ThiefEffects(before, i)
      case ThiefStep(j, _) =>
        if j == i then ThiefEffects(before, i) + Visible(Effect(before.Last(), step)) else ThiefEffects(before, i)
      case _ => ThiefEffects(before, i)
  }

  /** What the caller gets from a step of a thief that returns. */
  ghost function ThiefAnswer(s: State, i: nat): Option<Task>
    requires i < |s.thieves|
  {
    if s.thieves[i].StealCas? then Some(s.thieves[i].x) else None
  }

  function StealEvent(r: Option<Task>): Event {
    match r case None => StealFindsNothing case Some(x) => StealOldest(x)
  }

  lemma ThiefQuietOrDone(s: State, i: nat, spurious: bool)
    requires WellFormed(s) && Enabled(s, ThiefStep(i, spurious))
    ensures Effect(s, ThiefStep(i, spurious)) ==
            if ThiefNext(s, i, spurious).thieves[i] == Away then StealEvent(ThiefAnswer(s, i)) else Silent
  {
  }

  /** A thief that has not returned has had no effect. */
  lemma {:induction false} RunThiefHistory(run: Trace<State, Step>, i: nat)
    requires Run(run) && i < |run.Last().thieves| && run.Last().thieves[i] != Away
    ensures ThiefEffects(run, i) == []
  {
    match run
    case Start(_) =>
    case Then(before, step, s) =>
      ThievesOnly(before.Last(), step, s, i);
      if step != CallSteal(i) {
        RunThiefHistory(before, i);
        if step.ThiefStep? && step.i == i { ThiefQuietOrDone(before.Last(), i, step.spurious); }
      }
  }

  lemma ThievesOnly(s: State, step: Step, s': State, i: nat)
    requires Next(s, step, s') && i < |s'.thieves|
    ensures i < |s.thieves|
    ensures step != CallSteal(i) && s'.thieves[i] != Away ==> s.thieves[i] != Away
  {
  }

  /** When a steal returns, it has had exactly one effect since its call: the task it returns was
      removed as the oldest, or the deque held at most a task under an undecided pop and it
      returns nothing. */
  lemma {:induction false} ThiefLinearizes(run: Trace<State, Step>, i: nat)
    requires Run(run) && run.Then? && run.step.ThiefStep? && run.step.i == i
    requires i < |run.after.thieves| && run.after.thieves[i] == Away
    ensures i < |run.before.Last().thieves|
    ensures ThiefEffects(run, i) == [StealEvent(ThiefAnswer(run.before.Last(), i))]
  {
    RunThiefHistory(run.before, i);
    ThiefQuietOrDone(run.before.Last(), i, run.step.spurious);
  }

  // ----- Progress -----

  /** The steps that the owner has before it, at most. */
  function OwnerSteps(owner: Owner): int {
    match owner
    case Idle => 0
    case PushTop(_, b) => b + 5
    case PushArray(_, b, t) => b - t + 4
    case PushCopy(_, b, _, i, _) => b - i + 3
    case PushPut(_, _, _) => 2
    case PushBottom(_, _) => 1
    case PopTop(_) => 7
    case PopBottom(_) => 6
    case PopTopAgain(_) => 5
    case PopArray(_, _) => 4
    case PopGet(_, _, _) => 3
    case PopCas(_, _) => 2
    case PopRestore(_, _) => 1
  }

  lemma PushAdvances(s: State, garbage: seq<Task>)
    requires Inv(s) && Enabled(s, OwnerStep(garbage))
    requires s.owner.PushTop? || s.owner.PushArray? || s.owner.PushCopy?
    ensures 0 <= OwnerSteps(OwnerNext(s, garbage).owner) < OwnerSteps(s.owner)
  {
  }

  lemma PopAdvances(s: State, garbage: seq<Task>)
    requires WellFormed(s) && Enabled(s, OwnerStep(garbage))
    requires !s.owner.PushTop? && !s.owner.PushArray? && !s.owner.PushCopy?
    ensures 0 <= OwnerSteps(OwnerNext(s, garbage).owner) < OwnerSteps(s.owner)
  {
    match s.owner
    case PopTop(_) =>
    case PopTopAgain(_) =>
    case PopGet(_, _, _) =>
    case PopCas(_, _) =>
    case PopRestore(_, _) =>
    case _ =>
  }

  /** Push and pop are wait-free: whatever the thieves do, each step of the owner is one fewer to go. */
  lemma OwnerIsWaitFree(s: State, garbage: seq<Task>)
    requires Inv(s) && Enabled(s, OwnerStep(garbage))
    ensures 0 <= OwnerSteps(OwnerNext(s, garbage).owner) < OwnerSteps(s.owner)
  {
    if s.owner.PushTop? || s.owner.PushArray? || s.owner.PushCopy? {
      PushAdvances(s, garbage);
    } else {
      PopAdvances(s, garbage);
    }
  }

  function ThiefSteps(thief: Thief): nat {
    match thief
    case Away => 0
    case StealTop => 5
    case StealBottom(_) => 4
    case StealArray(_) => 3
    case StealGet(_, _) => 2
    case StealCas(_, _) => 1
  }

  /** Steal is lock-free: a step of a thief is one fewer to go, unless its compare-exchange fails, for
      no reason or because some other thread has taken the task at that index. */
  lemma StealIsLockFree(s: State, i: nat, spurious: bool)
    requires Inv(s) && Enabled(s, ThiefStep(i, spurious))
    ensures || ThiefSteps(ThiefNext(s, i, spurious).thieves[i]) < ThiefSteps(s.thieves[i])
            || (s.thieves[i].StealCas? && (spurious || s.top > s.thieves[i].t))
  {
    assert ThiefInv(s, s.thieves[i]);
  }
}
