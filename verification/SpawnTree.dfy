/**
How the pool starts its n >= 1 threads and joins them again: each thread hands the
upper half of its range of ids to a new thread until one id, its own, is left. The
destructor may begin to join while threads are still starting others.
 */
module SpawnTree {
  import opened Common

  /** A thread; its id is the slot that its handle goes to. */
  datatype Thread =
    | NotStarted
    | Splitting(count: nat)              // in recursive_spawn_worker_thread, with `count` ids
    | Assigning(mid: nat, count: nat)    // has started thread `mid`; next: assign its handle
    | Working                            // in worker_thread
    | Exited

  /** The thread that constructs and destroys the pool. */
  datatype Main = Starting | AssigningFirst | Joining(next: nat)

  /** `handles` and `workers` count the assignments to each slot and the calls of worker_thread
      with each id; `creators` names the thread that started each thread but the first. */
  datatype State = State(
    main: Main,
    threads: seq<Thread>,
    handles: seq<nat>,
    workers: seq<nat>,
    creators: seq<Option<nat>>)

  datatype Step = MainStep | ThreadStep(id: nat)

  ghost predicate Init(s: State) {
    && |s.threads| >= 1 && WellFormed(s) && s.main == Starting
    && forall i | 0 <= i < |s.threads| ::
         s.threads[i] == NotStarted && s.handles[i] == s.workers[i] == 0 && s.creators[i] == None
  }

  predicate WellFormed(s: State) {
    |s.handles| == |s.workers| == |s.creators| == |s.threads|
  }

  ghost predicate Enabled(s: State, step: Step)
    requires WellFormed(s)
  {
    match step
    case MainStep =>
      (match s.main
       case Joining(j) => j < |s.threads| && s.threads[j] == Exited
       case _ => |s.threads| > 0)
    case ThreadStep(i) =>
      && i < |s.threads|
      && (match s.threads[i]
          case NotStarted => false
          case Splitting(count) => count != 1 ==> i + count / 2 < |s.threads|
          case Assigning(mid, _) => mid < |s.threads|
          case Working => true
          case Exited => false)
  }

  ghost function Apply(s: State, step: Step): State
    requires WellFormed(s) && Enabled(s, step)
  {
    match step
    case MainStep =>
      (match s.main
       case Starting => s.(main := AssigningFirst, threads := s.threads[0 := Splitting(|s.threads|)])
       case AssigningFirst => s.(main := Joining(0), handles := s.handles[0 := s.handles[0] + 1])
       case Joining(j) => s.(main := Joining(j + 1)))
    case ThreadStep(i) =>
      (match s.threads[i]
       case Splitting(count) =>
         if count == 1 then
           s.(threads := s.threads[i := Working], workers := s.workers[i := s.workers[i] + 1])
         else
           var mid := i + count / 2;
           s.(threads := s.threads[mid := Splitting(count - count / 2)][i := Assigning(mid, count / 2)],
              creators := s.creators[mid := Some(i)])
       case Assigning(mid, count) =>
         s.(threads := s.threads[i := Splitting(count)], handles := s.handles[mid := s.handles[mid] + 1])
       case _ => s.(threads := s.threads[i := Exited]))
  }

  ghost predicate Next(s: State, step: Step, s': State) {
    WellFormed(s) && Enabled(s, step) && s' == Apply(s, step)
  }

  ghost predicate Run(run: Trace<State, Step>) {
    match run
    case Start(s) => Init(s)
    case Then(before, step, s) => Run(before) && Next(before.Last(), step, s)
  }

  // ----- Invariant -----

  /** The ids that a thread still has, its own first. */
  function Span(t: Thread): nat {
    match t
    case NotStarted => 0
    case Splitting(count) => count
    case Assigning(_, count) => count
    case _ => 1
  }

  /** The ids above a thread's own are for it to hand out. */
  ghost predicate SpanInv(s: State, i: nat)
    requires i < |s.threads|
  {
    s.threads[i] != NotStarted ==>
      && 1 <= Span(s.threads[i]) && i + Span(s.threads[i]) <= |s.threads|
      && forall k | i < k < i + Span(s.threads[i]) :: s.threads[k] == NotStarted
  }

  /** An id whose thread has not started belongs to a thread with a smaller id. */
  ghost predicate Covered(s: State, k: nat) {
    exists i: nat :: i < k && i < |s.threads| && k < i + Span(s.threads[i])
  }

  /** Whoever is still to assign the handle in slot k. */
  predicate Pending(s: State, k: nat)
    requires WellFormed(s) && k < |s.threads|
  {
    match s.creators[k]
    case None => s.main == AssigningFirst
    case Some(c) => c < |s.threads| && s.threads[c].Assigning? && s.threads[c].mid == k
  }

  ghost predicate SlotInv(s: State, k: nat)
    requires WellFormed(s) && k < |s.threads|
  {
    && (s.threads[k] == NotStarted ==> s.creators[k] == None && s.handles[k] == 0)
    && (s.threads[k] != NotStarted ==> s.handles[k] == if Pending(s, k) then 0 else 1)
    && (s.threads[k] == NotStarted && s.main != Starting ==> Covered(s, k))
    && (s.creators[k] == None ==> s.threads[k] == NotStarted || k == 0)
    && (s.creators[k].Some? ==> s.creators[k].value < k && s.threads[s.creators[k].value] != NotStarted)
    && s.workers[k] == (if s.threads[k] == Working || s.threads[k] == Exited then 1 else 0)
    && (s.threads[k].Assigning? ==>
          var mid := s.threads[k].mid; mid < |s.threads| && s.creators[mid] == Some(k) && s.threads[mid] != NotStarted)
  }

  ghost predicate MainInv(s: State)
    requires WellFormed(s) && |s.threads| >= 1
  {
    && (s.main == Starting <==> s.threads[0] == NotStarted)
    && (s.main == Starting ==> forall k | 0 <= k < |s.threads| :: s.threads[k] == NotStarted)
    && s.creators[0] == None
    && (s.main.Joining? ==> s.main.next <= |s.threads| && forall k | 0 <= k < s.main.next :: s.threads[k] == Exited)
  }

  ghost predicate Inv(s: State) {
    && WellFormed(s) && |s.threads| >= 1 && MainInv(s)
    && (forall i: nat | i < |s.threads| :: SpanInv(s, i))
    && (forall k: nat | k < |s.threads| :: SlotInv(s, k))
  }

  lemma MainStepInv(s: State)
    requires Inv(s) && Enabled(s, MainStep)
    ensures Inv(Apply(s, MainStep))
  {
    var s' := Apply(s, MainStep);
    forall k: nat | k < |s.threads| ensures SpanInv(s', k) && SlotInv(s', k) {
      assert SpanInv(s, k) && SlotInv(s, k);
      if s.main == Starting && k > 0 { assert 0 < k < 0 + Span(s'.threads[0]); }
      if s.main != Starting && s.threads[k] == NotStarted { assert Covered(s', k); }
    }
  }

  /** Handing the upper half of a range to a new thread. */
  ghost predicate Splits(s: State, s': State, i: nat) {
    && i < |s.threads| && s.threads[i].Splitting? && s.threads[i].count > 1
    && var count := s.threads[i].count;
       var mid := i + count / 2;
       && mid < |s.threads| == |s.creators|
       && s' == s.(threads := s.threads[mid := Splitting(count - count / 2)][i := Assigning(mid, count / 2)],
                   creators := s.creators[mid := Some(i)])
  }

  lemma SplitSpans(s: State, s': State, i: nat, k: nat)
    requires Inv(s) && Splits(s, s', i) && k < |s.threads|
    ensures SpanInv(s', k)
  {
    assert SpanInv(s, k) && SpanInv(s, i);
  }

  lemma SplitCovers(s: State, s': State, i: nat, k: nat)
    requires Inv(s) && Splits(s, s', i) && k < |s.threads| && s'.threads[k] == NotStarted
    ensures Covered(s', k)
  {
    assert SpanInv(s, i) && SlotInv(s, k);
    var c: nat :| c < k && c < |s.threads| && k < c + Span(s.threads[c]);
    var owner := if c == i && k >= s'.threads[i].mid then s'.threads[i].mid else c;
    assert k < owner + Span(s'.threads[owner]);
  }

  lemma SplitSlots(s: State, s': State, i: nat, k: nat)
    requires Inv(s) && Splits(s, s', i) && k < |s.threads|
    ensures SlotInv(s', k)
  {
    var mid := s'.threads[i].mid;
    assert SpanInv(s, i) && SlotInv(s, i) && SlotInv(s, mid) && SlotInv(s, k);
    if s'.threads[k] == NotStarted { SplitCovers(s, s', i, k); }
  }

  lemma SplitInv(s: State, i: nat)
    requires Inv(s) && Enabled(s, ThreadStep(i)) && s.threads[i].Splitting? && s.threads[i].count != 1
    ensures Inv(Apply(s, ThreadStep(i)))
  {
    var s' := Apply(s, ThreadStep(i));
    assert SpanInv(s, i);
    forall k: nat | k < |s.threads| ensures SpanInv(s', k) && SlotInv(s', k) {
      SplitSpans(s, s', i, k);
      SplitSlots(s, s', i, k);
    }
  }

  /** A step of a thread that keeps its span and starts nobody. */
  lemma ThreadMovesInv(s: State, i: nat)
    requires Inv(s) && Enabled(s, ThreadStep(i)) && (s.threads[i].Splitting? ==> s.threads[i].count == 1)
    ensures Inv(Apply(s, ThreadStep(i)))
  {
    var s' := Apply(s, ThreadStep(i));
    assert SpanInv(s, i) && SlotInv(s, i) && Span(s'.threads[i]) == Span(s.threads[i]);
    forall k: nat | k < |s.threads| ensures SpanInv(s', k) {
      assert SpanInv(s, k);
    }
    forall k: nat | k < |s.threads| ensures SlotInv(s', k) {
      assert SlotInv(s, k);
      if s.threads[k] == NotStarted {
        var c: nat :| c < k && c < |s.threads| && k < c + Span(s.threads[c]);
        assert k < c + Span(s'.threads[c]);
      }
    }
  }

  lemma NextInv(s: State, step: Step, s': State)
    requires Inv(s) && Next(s, step, s')
    ensures Inv(s')
  {
    match step
    case MainStep => MainStepInv(s);
    case ThreadStep(i) =>
      if s.threads[i].Splitting? && s.threads[i].count != 1 { SplitInv(s, i); } else { ThreadMovesInv(s, i); }
  }

  lemma {:induction false} RunInv(run: Trace<State, Step>)
    requires Run(run)
    ensures Inv(run.Last())
  {
    match run
    case Start(s) =>
    case Then(before, step, s) => RunInv(before); NextInv(before.Last(), step, s);
  }

  // ----- Theorems -----

  /** In every state of every run: no id gets two workers, no slot is assigned twice, and
      whoever starts a thread has a smaller id than that thread. */
  lemma {:induction false} AtMostOnce(run: Trace<State, Step>, k: nat)
    requires Run(run) && k < |run.Last().threads|
    ensures WellFormed(run.Last())
    ensures var s := run.Last();
            && s.workers[k] <= 1 && s.handles[k] <= 1
            && (s.creators[k].Some? ==> s.creators[k].value < k)
  {
    RunInv(run);
    assert SlotInv(run.Last(), k);
  }

  /** When the destructor comes to a handle, its creator has been joined and the handle is there. */
  lemma {:induction false} JoinsOnlyAssigned(run: Trace<State, Step>)
    requires Run(run) && run.Last().main.Joining? && run.Last().main.next < |run.Last().threads|
    ensures WellFormed(run.Last())
    ensures var s := run.Last();
            var j := s.main.next;
            && s.handles[j] == 1 && s.threads[j] != NotStarted
            && (j > 0 ==> s.creators[j].Some? && s.creators[j].value < j)
  {
    RunInv(run);
    var s := run.Last();
    var j := s.main.next;
    assert SlotInv(s, j);
  }

  /** The pool never gets stuck while it is starting or being joined, if workers return. */
  lemma {:induction false} CanMove(run: Trace<State, Step>)
    requires Run(run) && run.Last().main != Joining(|run.Last().threads|)
    ensures WellFormed(run.Last()) && exists step :: Enabled(run.Last(), step)
  {
    RunInv(run);
    var s := run.Last();
    if s.main.Joining? && s.threads[s.main.next] != Exited {
      var j := s.main.next;
      JoinsOnlyAssigned(run);
      assert SpanInv(s, j) && SlotInv(s, j);
      assert Enabled(s, ThreadStep(j));
    } else {
      assert Enabled(s, MainStep);
    }
  }

  /** When every handle has been joined, every id had exactly one worker and every slot
      exactly one assignment. */
  lemma {:induction false} ExactlyOnce(run: Trace<State, Step>, k: nat)
    requires Run(run) && run.Last().main == Joining(|run.Last().threads|) && k < |run.Last().threads|
    ensures WellFormed(run.Last())
    ensures run.Last().workers[k] == 1 && run.Last().handles[k] == 1
  {
    RunInv(run);
    assert SlotInv(run.Last(), k);
  }

  // ----- How quickly all threads are started -----

  function Pow2(n: nat): (r: nat)
    ensures r >= 1
  {
    if n == 0 then 1 else 2 * Pow2(n - 1)
  }

  /** In how many rounds of splitting, one after the other, a thread has come to the ids it has: a
      new thread begins where the one that started it has got to. */
  ghost function Rounds(run: Trace<State, Step>, k: nat): nat {
    match run
    case Start(_) => 0
    case Then(before, step, s) =>
      var starter := Starter(before.Last(), step);
      match starter
      case None => Rounds(before, k)
      case Some(i) => if k == i || Starts(before.Last(), s, k) then Rounds(before, i) + 1 else Rounds(before, k)
  }

  /** The thread that a step makes start another one. */
  ghost function Starter(s: State, step: Step): Option<nat> {
    match step
    case MainStep => None
    case ThreadStep(i) =>
      if i < |s.threads| && s.threads[i].Splitting? && s.threads[i].count != 1 then Some(i) else None
  }

  ghost predicate Starts(s: State, s': State, k: nat) {
    k < |s.threads| == |s'.threads| && s.threads[k] == NotStarted && s'.threads[k] != NotStarted
  }

  /** Each round at least halves what is left to hand out. */
  ghost predicate Halved(run: Trace<State, Step>, k: nat) {
    var s := run.Last();
    k < |s.threads| ==>
      && (s.threads[k] != NotStarted ==> Pow2(Rounds(run, k)) * (Span(s.threads[k]) - 1) <= |s.threads| - 1)
      && (s.threads[k] == NotStarted ==> Rounds(run, k) == 0)
      && (Rounds(run, k) > 0 ==> Pow2(Rounds(run, k) - 1) <= |s.threads| - 1)
  }

  lemma HalveOnce(r: nat, count: nat, part: nat, n: nat)
    requires count >= 2 && (part == count / 2 || part == count - count / 2)
    requires Pow2(r) * (count - 1) <= n
    ensures part >= 1 && Pow2(r + 1) * (part - 1) <= n && Pow2(r) <= n
  {
    var p := Pow2(r);
    assert 2 * (part - 1) <= count - 1;
    MulMonotone(p, 2 * (part - 1), count - 1);
    MulMonotone(p, 1, count - 1);
    assert Pow2(r + 1) * (part - 1) == p * (2 * (part - 1));
  }

  lemma MulMonotone(p: nat, a: int, b: int)
    requires a <= b
    ensures p * a <= p * b
  {
  }

  lemma SplitHalves(before: Trace<State, Step>, i: nat, s': State, k: nat)
    requires Inv(before.Last()) && Splits(before.Last(), s', i)
    requires Halved(before, i) && Halved(before, k)
    ensures Halved(Then(before, ThreadStep(i), s'), k)
  {
    var s := before.Last();
    var count := s.threads[i].count;
    var mid := i + count / 2;
    var run := Then(before, ThreadStep(i), s');
    assert SpanInv(s, i) && s.threads[mid] == NotStarted;
    HalveOnce(Rounds(before, i), count, count / 2, |s.threads| - 1);
    HalveOnce(Rounds(before, i), count, count - count / 2, |s.threads| - 1);
    if k == i || k == mid {
      assert Rounds(run, k) == Rounds(before, i) + 1;
    } else if k < |s.threads| {
      assert s'.threads[k] == s.threads[k];
      assert Rounds(run, k) == Rounds(before, k);
    }
  }

  lemma OtherHalves(before: Trace<State, Step>, step: Step, s': State, k: nat)
    requires Inv(before.Last()) && Next(before.Last(), step, s') && Starter(before.Last(), step) == None
    requires Halved(before, k)
    ensures Halved(Then(before, step, s'), k)
  {
    var s := before.Last();
    var run := Then(before, step, s');
    assert Rounds(run, k) == Rounds(before, k);
    if k < |s.threads| {
      assert SpanInv(s, k);
      if s.threads[k] == NotStarted && s'.threads[k] != NotStarted {
        assert k == 0 && Span(s'.threads[k]) == |s.threads| && Pow2(0) == 1;
      } else {
        assert Span(s'.threads[k]) == Span(s.threads[k]);
      }
    }
  }

  lemma {:induction false} RunHalved(run: Trace<State, Step>, k: nat)
    requires Run(run)
    ensures Halved(run, k)
  {
    match run
    case Start(_) =>
    case Then(before, step, s) =>
      RunHalved(before, k);
      RunInv(before);
      if Starter(before.Last(), step) == None {
        OtherHalves(before, step, s, k);
      } else {
        assert SpanInv(before.Last(), step.id);
        RunHalved(before, step.id);
        SplitHalves(before, step.id, s, k);
      }
  }

  /** Every thread starts after at most 1 + log2(n - 1) rounds, and needs no more to be done with
      starting others: threads are started in parallel, not one by one. */
  lemma {:induction false} LogarithmicStart(run: Trace<State, Step>, k: nat)
    requires Run(run) && k < |run.Last().threads|
    ensures Rounds(run, k) > 0 ==> Pow2(Rounds(run, k) - 1) <= |run.Last().threads| - 1
  {
    RunHalved(run, k);
  }

  // ----- Starting and joining come to an end -----

  /** What a thread still has to do, and hand out. */
  function Left(t: Thread): nat {
    match t
    case NotStarted => 0
    case Splitting(count) => if count == 0 then 0 else 5 * count - 2
    case Assigning(_, count) => if count == 0 then 0 else 5 * count - 1
    case Working => 2
    case Exited => 0
  }

  function LeftAll(threads: seq<Thread>): nat {
    if threads == [] then 0 else Left(threads[0]) + LeftAll(threads[1..])
  }

  lemma {:induction false} LeftUpdate(threads: seq<Thread>, i: nat, t: Thread)
    requires i < |threads|
    ensures LeftAll(threads[i := t]) + Left(threads[i]) == LeftAll(threads) + Left(t)
  {
    if i == 0 {
      assert threads[i := t][1..] == threads[1..];
    } else {
      assert threads[i := t][1..] == threads[1..][i - 1 := t];
      LeftUpdate(threads[1..], i - 1, t);
    }
  }

  lemma {:induction false} NothingLeft(threads: seq<Thread>)
    requires forall i | 0 <= i < |threads| :: threads[i] == NotStarted
    ensures LeftAll(threads) == 0
  {
    if threads != [] { NothingLeft(threads[1..]); }
  }

  function LeftMain(s: State): nat {
    match s.main
    case Starting => 6 * |s.threads| + 2
    case AssigningFirst => |s.threads| + 1
    case Joining(j) => if j <= |s.threads| then |s.threads| - j else 0
  }

  function Measure(s: State): nat {
    LeftMain(s) + LeftAll(s.threads)
  }

  lemma StepDecreases(s: State, step: Step, s': State)
    requires Inv(s) && Next(s, step, s')
    ensures |s'.threads| == |s.threads| && Measure(s') < Measure(s)
  {
    match step
    case MainStep =>
      if s.main == Starting { LeftUpdate(s.threads, 0, Splitting(|s.threads|)); }
    case ThreadStep(i) =>
      assert SpanInv(s, i);
      if Starter(s, step) == None {
        LeftUpdate(s.threads, i, s'.threads[i]);
        assert s'.threads == s.threads[i := s'.threads[i]];
      } else {
        SplitDecreases(s, s', i);
      }
  }

  lemma SplitDecreases(s: State, s': State, i: nat)
    requires Inv(s) && Splits(s, s', i)
    ensures LeftAll(s'.threads) < LeftAll(s.threads)
  {
    var count := s.threads[i].count;
    var mid := i + count / 2;
    assert SpanInv(s, i) && s.threads[mid] == NotStarted;
    var threads := s.threads[mid := Splitting(count - count / 2)];
    LeftUpdate(s.threads, mid, Splitting(count - count / 2));
    LeftUpdate(threads, i, Assigning(mid, count / 2));
  }

  function Length(run: Trace<State, Step>): nat {
    match run case Start(_) => 0 case Then(before, _, _) => 1 + Length(before)
  }

  /** No run takes more than 6 * n + 2 steps; so, by CanMove, every run can be and has to be
      continued until everything has been joined, and does not go on after that. */
  lemma {:induction false} RunsEnd(run: Trace<State, Step>)
    requires Run(run)
    ensures Length(run) + Measure(run.Last()) <= 6 * |run.Last().threads| + 2
  {
    match run
    case Start(s) => NothingLeft(s.threads);
    case Then(before, step, s) =>
      RunsEnd(before);
      RunInv(before);
      StepDecreases(before.Last(), step, s);
  }
}
