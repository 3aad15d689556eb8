/** What the concurrent deque guarantees over every run. */
module ChaseLevTheorems {
  import opened Common
  import opened ChaseLev
  import opened ChaseLevProof

  // ----- Refinement of an abstract deque -----

  /** The abstract deque: oldest task first. */
  ghost function Abs(s: State): seq<Task> {
    if s.top <= |s.log| then s.log[s.top..] else []
  }

  /** What a step does to the abstract deque. */
  datatype Event =
    | Silent
    | PushNewest(x: Task)
    | PopNewest(x: Task)
    | PopFindsNothing
    | StealOldest(x: Task)
    | StealFindsNothing

  ghost function Effect(s: State, step: Step): Event
    requires WellFormed(s) && Enabled(s, step)
  {
    match step
    case OwnerStep(_) =>
      (match s.owner
       case PushBottom(x, _) => PushNewest(x)
       case PopTop(b) => if b <= s.top then PopFindsNothing else Silent
       case PopTopAgain(b) =>
         if b < s.top then PopFindsNothing else if s.top < b < |s.log| then PopNewest(s.log[b]) else Silent
       case PopCas(b, x) => if b == s.top then PopNewest(x) else PopFindsNothing
       case _ => Silent)
    case ThiefStep(i, spurious) =>
      (match s.thieves[i]
       case StealBottom(t) => if s.bottom <= t then StealFindsNothing else Silent
       case StealCas(t, x) => if s.top == t && !spurious then StealOldest(x) else Silent
       case _ => Silent)
    case _ => Silent
  }

  /** The sequential specification; None when the event is impossible in that state. */
  function Replay(q: seq<Task>, e: Event): Option<seq<Task>> {
    match e
    case Silent => Some(q)
    case PushNewest(x) => Some(q + [x])
    case PopNewest(x) => if q != [] && q[|q| - 1] == x then Some(q[..|q| - 1]) else None
    case PopFindsNothing => if q == [] then Some(q) else None
    case StealOldest(x) => if q != [] && q[0] == x then Some(q[1..]) else None
    case StealFindsNothing => if |q| <= 1 then Some(q) else None
  }

  function ReplayAll(q: seq<Task>, events: seq<Event>): Option<seq<Task>>
    decreases |events|
  {
    if events == [] then Some(q)
    else
      match Replay(q, events[0])
      case None => None
      case Some(q') => ReplayAll(q', events[1..])
  }

  /** The owner is inside a pop of the newest live index, not yet decided. */
  ghost predicate PopInFlight(s: State) {
    match s.owner
    case PopTopAgain(b) => b + 1 == |s.log|
    case PopArray(b, t) => b == t && b + 1 == |s.log|
    case PopGet(b, t, _) => b == t && b + 1 == |s.log|
    case PopCas(b, _) => b + 1 == |s.log|
    case _ => false
  }

  lemma ThiefWinRefines(s: State, i: nat)
    requires Inv(s) && i < |s.thieves| && s.thieves[i].StealCas? && s.thieves[i].t == s.top
    ensures Replay(Abs(s), StealOldest(s.thieves[i].x)) == Some(s.log[s.top + 1..])
  {
    assert ThiefInv(s, s.thieves[i]);
    assert s.log[s.top..][1..] == s.log[s.top + 1..];
  }

  lemma ThiefRefines(s: State, i: nat, spurious: bool)
    requires Inv(s) && Enabled(s, ThiefStep(i, spurious))
    ensures Replay(Abs(s), Effect(s, ThiefStep(i, spurious))) == Some(Abs(ThiefNext(s, i, spurious)))
  {
    var s' := ThiefNext(s, i, spurious);
    if s'.top != s.top {
      ThiefWinRefines(s, i);
      assert ThiefInv(s, s.thieves[i]);
    } else {
      assert s'.log == s.log && Abs(s') == Abs(s);
      assert ThiefInv(s, s.thieves[i]);
    }
  }

  lemma EmptySteal(s: State, i: nat, spurious: bool)
    requires Inv(s) && Enabled(s, ThiefStep(i, spurious))
    requires Effect(s, ThiefStep(i, spurious)) == StealFindsNothing && Abs(s) != []
    ensures |Abs(s)| == 1 && PopInFlight(s)
  {
    assert ThiefInv(s, s.thieves[i]);
  }

  lemma PushRefines(s: State, garbage: seq<Task>)
    requires Inv(s) && Enabled(s, OwnerStep(garbage)) && s.owner.PushBottom?
    ensures Replay(Abs(s), Effect(s, OwnerStep(garbage))) == Some(Abs(OwnerNext(s, garbage)))
  {
    assert Abs(OwnerNext(s, garbage)) == Abs(s) + [s.owner.x];
  }

  lemma NewestReplays(log: seq<Task>, top: nat)
    requires top < |log|
    ensures Replay(log[top..], PopNewest(log[|log| - 1])) == Some(log[..|log| - 1][top..])
  {
    NewestTaken(log, top);
  }

  lemma PopTopAgainDoes(s: State, garbage: seq<Task>)
    requires Inv(s) && Enabled(s, OwnerStep(garbage)) && s.owner.PopTopAgain?
    ensures var s' := OwnerNext(s, garbage);
            && |s.log| > 0 && s'.top == s.top
            && if s.top < |s.log| - 1 then
                 s'.log == s.log[..|s.log| - 1] && Effect(s, OwnerStep(garbage)) == PopNewest(s.log[|s.log| - 1])
               else
                 s'.log == s.log &&
                 Effect(s, OwnerStep(garbage)) == if s.top == |s.log| then PopFindsNothing else Silent
  {
  }

  lemma PopTopAgainRefines(s: State, garbage: seq<Task>)
    requires Inv(s) && Enabled(s, OwnerStep(garbage)) && s.owner.PopTopAgain?
    ensures Replay(Abs(s), Effect(s, OwnerStep(garbage))) == Some(Abs(OwnerNext(s, garbage)))
  {
    PopTopAgainDoes(s, garbage);
    if s.top < |s.log| - 1 { NewestReplays(s.log, s.top); }
  }

  lemma NewestTaken(log: seq<Task>, top: nat)
    requires top < |log|
    ensures log[top..][..|log| - top - 1] == log[..|log| - 1][top..]
    ensures log[top..][|log| - top - 1] == log[|log| - 1]
  {
  }

  lemma OneLeft(log: seq<Task>, top: nat)
    requires |log| == top + 1
    ensures log[top..] == [log[top]] && log[top..][..0] == log[top + 1..] == []
  {
  }

  lemma PopCasRefines(s: State, garbage: seq<Task>)
    requires Inv(s) && Enabled(s, OwnerStep(garbage)) && s.owner.PopCas?
    ensures Replay(Abs(s), Effect(s, OwnerStep(garbage))) == Some(Abs(OwnerNext(s, garbage)))
  {
    if s.top == s.owner.b { OneLeft(s.log, s.top); }
  }

  lemma OwnerSilent(s: State, garbage: seq<Task>)
    requires Inv(s) && Enabled(s, OwnerStep(garbage))
    requires !(s.owner.PushBottom? || s.owner.PopTopAgain? || s.owner.PopCas?)
    ensures Replay(Abs(s), Effect(s, OwnerStep(garbage))) == Some(Abs(OwnerNext(s, garbage)))
  {
    var s' := OwnerNext(s, garbage);
    assert s'.log == s.log && s'.top == s.top;
  }

  lemma OwnerRefines(s: State, garbage: seq<Task>)
    requires Inv(s) && Enabled(s, OwnerStep(garbage))
    ensures Replay(Abs(s), Effect(s, OwnerStep(garbage))) == Some(Abs(OwnerNext(s, garbage)))
  {
    match s.owner {
      case PushBottom(_, _) => PushRefines(s, garbage);
      case PopTopAgain(_) => PopTopAgainRefines(s, garbage);
      case PopCas(_, _) => PopCasRefines(s, garbage);
      case _ => OwnerSilent(s, garbage);
    }
  }

  /** Every step does to the abstract deque exactly what its event says; a steal that finds
      nothing while a task is there has met a pop of that task. */
  lemma StepRefines(s: State, step: Step, s': State)
    requires Inv(s) && Next(s, step, s')
    ensures Replay(Abs(s), Effect(s, step)) == Some(Abs(s'))
    ensures Effect(s, step) == StealFindsNothing && Abs(s) != [] ==> |Abs(s)| == 1 && PopInFlight(s)
  {
    match step
    case OwnerStep(garbage) => OwnerRefines(s, garbage);
    case ThiefStep(i, spurious) =>
      ThiefRefines(s, i, spurious);
      if Effect(s, step) == StealFindsNothing && Abs(s) != [] { EmptySteal(s, i, spurious); }
    case _ =>
  }

  ghost function Effects(run: Trace<State, Step>): seq<Event>
    requires Run(run)
  {
    match run
    case Start(_) => []
    case Then(before, step, _) => Effects(before) + [Effect(before.Last(), step)]
  }

  lemma {:induction false} ReplayAppend(q: seq<Task>, events: seq<Event>, e: Event)
    ensures ReplayAll(q, events + [e]) ==
            match ReplayAll(q, events) case None => None case Some(q') => Replay(q', e)
    decreases |events|
  {
    if events == [] {
      assert (events + [e])[1..] == [];
    } else {
      assert (events + [e])[1..] == events[1..] + [e];
      if Replay(q, events[0]).Some? {
        ReplayAppend(Replay(q, events[0]).value, events[1..], e);
      }
    }
  }

  /** Linearizability: the effects of any run, in order, are a sequential history of one deque. */
  lemma {:induction false} RunRefines(run: Trace<State, Step>)
    requires Run(run)
    ensures ReplayAll([], Effects(run)) == Some(Abs(run.Last()))
  {
    match run
    case Start(_) =>
    case Then(before, step, s) =>
      RunRefines(before);
      RunInv(before);
      StepRefines(before.Last(), step, s);
      ReplayAppend([], Effects(before), Effect(before.Last(), step));
  }

  /** The bookkeeping of one pop: its event claims the task, its return hands that task out. */
  ghost predicate ClaimStep(s: State, e: Event, s': State) {
    match e
    case PopNewest(x) => s.claimed == None && s'.claimed == Some(x) && s'.popped == s.popped
    case _ =>
      || (s'.claimed == s.claimed && s'.popped == s.popped)
      || (s.claimed.Some? && s'.claimed == None && s'.popped == s.popped + multiset{s.claimed.value})
  }

  lemma PopDecides(s: State, garbage: seq<Task>)
    requires Inv(s) && Enabled(s, OwnerStep(garbage)) && (s.owner.PopTopAgain? || s.owner.PopCas?)
    ensures ClaimStep(s, Effect(s, OwnerStep(garbage)), OwnerNext(s, garbage))
  {
    assert OwnerNext(s, garbage).popped == s.popped;
  }

  lemma PopDelivers(s: State, garbage: seq<Task>)
    requires Inv(s) && Enabled(s, OwnerStep(garbage)) && (s.owner.PopGet? || s.owner.PopRestore?)
    ensures ClaimStep(s, Effect(s, OwnerStep(garbage)), OwnerNext(s, garbage))
  {
    var s' := OwnerNext(s, garbage);
    if s'.popped != s.popped {
      assert s'.popped == s.popped + multiset{s.claimed.value};
    }
  }

  lemma OtherStepClaims(s: State, garbage: seq<Task>)
    requires Inv(s) && Enabled(s, OwnerStep(garbage))
    requires !(s.owner.PopTopAgain? || s.owner.PopGet? || s.owner.PopCas? || s.owner.PopRestore?)
    ensures ClaimStep(s, Effect(s, OwnerStep(garbage)), OwnerNext(s, garbage))
  {
    var s' := OwnerNext(s, garbage);
    assert s'.popped == s.popped && s'.claimed == s.claimed;
  }

  /** Pop returns the very task that its event took from the deque, and returns nothing else. */
  lemma PopReturnsItsClaim(s: State, step: Step, s': State)
    requires Inv(s) && Next(s, step, s')
    ensures ClaimStep(s, Effect(s, step), s')
  {
    match step
    case OwnerStep(garbage) =>
      if s.owner.PopTopAgain? || s.owner.PopCas? {
        PopDecides(s, garbage);
      } else if s.owner.PopGet? || s.owner.PopRestore? {
        PopDelivers(s, garbage);
      } else {
        OtherStepClaims(s, garbage);
      }
    case _ =>
  }

  // ----- Conservation -----

  /** No task is lost and none is handed out twice, in every state of every run. */
  lemma {:induction false} RunConserves(run: Trace<State, Step>)
    requires Run(run)
    ensures var s := run.Last();
            && s.pushed == s.popped + s.stolen + Tasks(s.claimed) + multiset(Abs(s))
            && forall x :: s.popped[x] + s.stolen[x] <= s.pushed[x]
  {
    RunInv(run);
  }

  // ----- The thief's argument -----

  /** Array `to` is on the `previous` chain that starts at array `from`. */
  ghost predicate OnChain(heap: seq<CircularArray>, from: int, to: int)
    decreases from
  {
    0 <= from < |heap| && (from == to || (heap[from].previous < from && OnChain(heap, heap[from].previous, to)))
  }

  lemma {:induction false} ChainReaches(heap: seq<CircularArray>, from: nat, to: nat)
    requires to <= from < |heap|
    requires forall k | 0 <= k < |heap| :: heap[k].previous == k - 1
    ensures OnChain(heap, from, to)
    decreases from
  {
    if to < from { ChainReaches(heap, from - 1, to); }
  }

  /** A thief that has loaded an array may still read it, however often the owner has grown it since,
      and while top is what the thief loaded, its slot holds the oldest live task. */
  lemma StaleArrayIsRight(s: State, i: nat)
    requires Inv(s) && i < |s.thieves| && s.thieves[i].StealGet?
    ensures var StealGet(t, a) := s.thieves[i];
            && OnChain(s.heap, s.current, a)
            && (s.top == t ==> Abs(s) != [] && Get(s.heap[a], t) == Abs(s)[0])
  {
    var StealGet(t, a) := s.thieves[i];
    assert ThiefInv(s, s.thieves[i]);
    ChainReaches(s.heap, s.current, a);
  }

  /** A compare-exchange that succeeds returns the oldest task; one that fails for a reason
      means that another thread has taken the task at that index. */
  lemma StealReturnsOldest(s: State, i: nat, spurious: bool)
    requires Inv(s) && Enabled(s, ThiefStep(i, spurious)) && s.thieves[i].StealCas?
    ensures var StealCas(t, x) := s.thieves[i];
            var s' := ThiefNext(s, i, spurious);
            if s.top == t && !spurious then
              && Abs(s) != [] && x == Abs(s)[0] && Abs(s') == Abs(s)[1..]
              && s'.stolen == s.stolen + multiset{Abs(s)[0]}
            else
              s'.stolen == s.stolen && Abs(s') == Abs(s) && (s.top != t ==> s.top > t)
  {
    assert ThiefInv(s, s.thieves[i]);
  }

  ghost predicate ArraysKept(s: State, s': State) {
    && s.top <= s'.top && s.current <= s'.current && |s.heap| <= |s'.heap|
    && (forall a | 0 <= a < s.current < |s.heap| :: s'.heap[a] == s.heap[a])
    && (forall a | 0 <= a < |s.heap| :: |s'.heap[a].items| == |s.heap[a].items|)
  }

  lemma OwnerKeepsArrays(s: State, garbage: seq<Task>)
    requires Inv(s) && Enabled(s, OwnerStep(garbage))
    ensures ArraysKept(s, OwnerNext(s, garbage))
  {
    match s.owner
    case PushArray(_, _, _) =>
    case PushCopy(_, _, _, _, _) =>
    case PushPut(_, _, _) =>
    case _ =>
  }

  /** Top never goes back, arrays are never freed, and a superseded array is never written again. */
  lemma SupersededArraysFrozen(s: State, step: Step, s': State)
    requires Inv(s) && Next(s, step, s')
    ensures s.top <= s'.top && s.current <= s'.current && |s.heap| <= |s'.heap|
    ensures forall a | 0 <= a < s.current :: s'.heap[a] == s.heap[a]
    ensures forall a | 0 <= a < |s.heap| :: |s'.heap[a].items| == |s.heap[a].items|
  {
    if step.OwnerStep? { OwnerKeepsArrays(s, step.garbage); }
  }

  /** Bottom falls below top by at most one, and only in the middle of a pop; the live part fits. */
  lemma BottomBounds(s: State)
    requires Inv(s)
    ensures s.top <= s.bottom + 1
    ensures s.bottom < s.top ==>
              s.owner.PopTopAgain? || s.owner.PopArray? || s.owner.PopGet? || s.owner.PopCas? || s.owner.PopRestore?
    ensures s.bottom - s.top <= |s.heap[s.current].items|
  {
  }
}
