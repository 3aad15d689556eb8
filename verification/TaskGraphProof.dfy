/** Confluence of task graphs: every complete execution computes the recursive evaluation. */
module TaskGraphProof {
  import opened Common
  import opened TaskGraph

  ghost predicate StatusInv(g: Graph, s: State, n: nat)
    requires Valid(g) && n < |g| && n in s
  {
    var node := g[n].node;
    match s[n]
    case Final(o) => o == Eval(g, n)
    case Unwrapped(child) => BodyRuns(g, n) && ActionOf(node, Input(g, n)) == Unwrap(child) && child in s
    case Scheduled => node.Spawned? || (node.After? && IsFinal(s, node.parent))
    case Waiting => node.After? || node.EventTask? || node.WhenAll?
  }

  /** The body of n has run. */
  ghost predicate HasRun(g: Graph, s: State, n: nat)
    requires Valid(g)
  {
    n < |g| && n in s && (s[n].Final? || s[n].Unwrapped?) && BodyRuns(g, n)
  }

  ghost predicate TaskInv(g: Graph, s: State, n: nat)
    requires Valid(g) && n in s
  {
    && n < |g| && g[n].handles <= s.Keys && Exists(g, n) && StatusInv(g, s, n)
    && (HasRun(g, s, n) ==> forall m: nat | m < |g| && Born(g, m, n, Input(g, n)) :: m in s)
  }

  ghost predicate Inv(g: Graph, s: State)
    requires Valid(g)
  {
    forall n | n in s :: TaskInv(g, s, n)
  }

  /** A task keeps its part of the invariant when others are created or finish. */
  lemma TaskKept(g: Graph, s: State, s': State, n: nat)
    requires Valid(g) && n in s && TaskInv(g, s, n)
    requires s.Keys <= s'.Keys && s'[n] == s[n]
    requires forall m | m in s && s[m].Final? :: s'[m] == s[m]
    ensures TaskInv(g, s', n)
  {
  }

  lemma FreshInv(g: Graph, s: State, n: nat)
    requires Valid(g) && n < |g| && n in s && s[n] == Fresh(g[n].node)
    requires g[n].handles <= s.Keys && Exists(g, n)
    ensures TaskInv(g, s, n)
  {
  }

  lemma CreateInv(g: Graph, s: State, n: nat)
    requires Valid(g) && Inv(g, s) && Enabled(g, s, Create(n))
    ensures Inv(g, Apply(g, s, Create(n)))
  {
    var s' := Apply(g, s, Create(n));
    FreshInv(g, s', n);
    forall m | m in s' && m != n ensures TaskInv(g, s', m) {
      TaskKept(g, s, s', m);
    }
  }

  /** A step that changes one status, towards `Final`. */
  lemma OneChangeInv(g: Graph, s: State, n: nat, status: Status)
    requires Valid(g) && Inv(g, s) && n in s && !s[n].Final?
    requires var s' := s[n := status];
             StatusInv(g, s', n) && (HasRun(g, s', n) ==> HasRun(g, s, n))
    ensures Inv(g, s[n := status])
  {
    var s' := s[n := status];
    assert TaskInv(g, s, n);
    forall m | m in s' && m != n ensures TaskInv(g, s', m) {
      TaskKept(g, s, s', m);
    }
  }

  lemma DeliverInv(g: Graph, s: State, n: nat)
    requires Valid(g) && Inv(g, s) && Enabled(g, s, Deliver(n))
    ensures Inv(g, Apply(g, s, Deliver(n)))
  {
    OneChangeInv(g, s, n, Scheduled);
  }

  lemma ForwardInv(g: Graph, s: State, n: nat)
    requires Valid(g) && Inv(g, s) && Enabled(g, s, Forward(n))
    ensures Inv(g, Apply(g, s, Forward(n)))
  {
    var child := s[n].child;
    assert TaskInv(g, s, n) && TaskInv(g, s, child) && ValidEntry(g, n);
    assert child < n;
    OneChangeInv(g, s, n, s[child]);
  }

  lemma SetEventInv(g: Graph, s: State, n: nat)
    requires Valid(g) && Inv(g, s) && Enabled(g, s, SetEvent(n))
    ensures Inv(g, Apply(g, s, SetEvent(n)))
  {
    OneChangeInv(g, s, n, Final(g[n].node.o));
  }

  lemma CompleteInv(g: Graph, s: State, n: nat)
    requires Valid(g) && Inv(g, s) && Enabled(g, s, Complete(n))
    ensures Inv(g, Apply(g, s, Complete(n)))
  {
    var s' := Apply(g, s, Complete(n));
    var inputs := g[n].node.inputs;
    assert ValidEntry(g, n);
    forall k | 0 <= k < |inputs| ensures s[inputs[k]].o == Eval(g, inputs[k]) {
      assert IsFinal(s, inputs[k]);
      assert TaskInv(g, s, inputs[k]);
    }
    assert s'[n].o.v.outcomes == Eval(g, n).v.outcomes;
    OneChangeInv(g, s, n, s'[n]);
  }

  /** The tasks a body creates exist, and so do their handles. */
  lemma ChildInv(g: Graph, s: State, s': State, n: nat, m: nat)
    requires Valid(g) && n in s && TaskInv(g, s, n) && BodyRuns(g, n)
    requires s.Keys + Children(g, n, Input(g, n)) <= s'.Keys
    requires m in Children(g, n, Input(g, n)) && s'[m] == Fresh(g[m].node)
    ensures TaskInv(g, s', m)
  {
    assert ValidEntry(g, m);
    assert g[m].creator.cond(Input(g, n));
    forall h | h in g[m].handles ensures h in s' {
      assert h in g[n].handles || Born(g, h, n, Input(g, n));
    }
    FreshInv(g, s', m);
  }

  lemma RunWithInv(g: Graph, s: State, n: nat)
    requires Valid(g) && Inv(g, s) && n < |g| && n in s && s[n] == Scheduled && BodyRuns(g, n)
    ensures Inv(g, RunWith(g, s, n, Input(g, n)))
  {
    var input := Input(g, n);
    var s' := RunWith(g, s, n, input);
    assert TaskInv(g, s, n) && ValidEntry(g, n);
    assert forall m | m in Children(g, n, input) :: m in s';
    forall m | m in s' && m != n ensures TaskInv(g, s', m) {
      if m in s {
        TaskKept(g, s, s', m);
      } else {
        ChildInv(g, s, s', n, m);
      }
    }
    RunResult(g, s, n);
  }

  /** Running the body gives the evaluation, or leaves it to the child. */
  lemma RunResult(g: Graph, s: State, n: nat)
    requires Valid(g) && Inv(g, s) && n < |g| && n in s && s[n] == Scheduled && BodyRuns(g, n)
    ensures TaskInv(g, RunWith(g, s, n, Input(g, n)), n)
  {
    var input := Input(g, n);
    var s' := RunWith(g, s, n, input);
    assert TaskInv(g, s, n) && ValidEntry(g, n);
    forall m: nat | m < |g| && Born(g, m, n, input) ensures m in s' {
      assert m in Children(g, n, input);
    }
    var act := ActionOf(g[n].node, input);
    if act.Unwrap? { assert act.child in g[n].handles || Born(g, act.child, n, input); }
  }

  lemma RunBodyInv(g: Graph, s: State, n: nat)
    requires Valid(g) && Inv(g, s) && Enabled(g, s, RunBody(n))
    ensures Inv(g, Apply(g, s, RunBody(n)))
  {
    assert TaskInv(g, s, n) && ValidEntry(g, n);
    var node := g[n].node;
    if node.After? { assert TaskInv(g, s, node.parent); }
    if node.After? && node.values && s[node.parent].o.Error? {
      OneChangeInv(g, s, n, Final(s[node.parent].o));
    } else {
      RunWithInv(g, s, n);
    }
  }

  lemma NextInv(g: Graph, s: State, step: Step, s': State)
    requires Valid(g) && Inv(g, s) && Next(g, s, step, s')
    ensures Inv(g, s')
  {
    match step
    case Create(n) => CreateInv(g, s, n);
    case Deliver(n) => DeliverInv(g, s, n);
    case RunBody(n) => RunBodyInv(g, s, n);
    case Forward(n) => ForwardInv(g, s, n);
    case SetEvent(n) => SetEventInv(g, s, n);
    case Complete(n) => CompleteInv(g, s, n);
  }

  lemma {:induction false} RunInv(g: Graph, run: Trace<State, Step>)
    requires Valid(g) && Run(g, run)
    ensures Inv(g, run.Last())
  {
    match run
    case Start(s) =>
    case Then(before, step, s) => RunInv(g, before); NextInv(g, before.Last(), step, s);
  }

  /** In every state of every run, a finished task holds the outcome of direct evaluation. */
  lemma {:induction false} RunSound(g: Graph, run: Trace<State, Step>, n: nat)
    requires Valid(g) && Run(g, run) && IsFinal(run.Last(), n)
    ensures n < |g| && Exists(g, n) && run.Last()[n].o == Eval(g, n)
  {
    RunInv(g, run);
    assert TaskInv(g, run.Last(), n);
  }

  // ----- Progress -----

  /** Nothing at or below n is left to do: every task that has been created, or that the main
      program is to create, is final. */
  ghost predicate SettledBelow(g: Graph, s: State, n: nat) {
    forall m: nat | m < n && m < |g| :: (m in s || g[m].creator == ByMain) ==> IsFinal(s, m)
  }

  ghost predicate SomeStep(g: Graph, s: State) {
    exists step :: Enabled(g, s, step)
  }

  /** The smallest unsettled task can always make a step. */
  lemma SmallestMoves(g: Graph, s: State, n: nat)
    requires Valid(g) && Inv(g, s) && n < |g| && SettledBelow(g, s, n)
    requires (n in s || g[n].creator == ByMain) && !IsFinal(s, n)
    ensures SomeStep(g, s)
  {
    assert ValidEntry(g, n);
    if n !in s {
      assert forall h | h in g[n].handles :: IsFinal(s, h);
      assert Enabled(g, s, Create(n));
    } else {
      assert TaskInv(g, s, n);
      assert forall h | h in g[n].handles :: IsFinal(s, h);
      match s[n]
      case Scheduled => assert Enabled(g, s, RunBody(n));
      case Unwrapped(child) => assert child < n && IsFinal(s, child); assert Enabled(g, s, Forward(n));
      case Waiting => WaitingMoves(g, s, n);
    }
  }

  lemma WaitingMoves(g: Graph, s: State, n: nat)
    requires Valid(g) && n < |g| && n in s && s[n] == Waiting && StatusInv(g, s, n)
    requires forall h | h in g[n].handles :: IsFinal(s, h)
    ensures SomeStep(g, s)
  {
    assert ValidEntry(g, n);
    if g[n].node.After? {
      assert Enabled(g, s, Deliver(n));
    } else if g[n].node.EventTask? {
      assert Enabled(g, s, SetEvent(n));
    } else {
      assert Enabled(g, s, Complete(n));
    }
  }

  lemma {:induction false} StuckIsSettled(g: Graph, s: State, n: nat)
    requires Valid(g) && Inv(g, s) && !SomeStep(g, s) && n <= |g|
    ensures SettledBelow(g, s, n)
  {
    if n > 0 {
      StuckIsSettled(g, s, n - 1);
      if (n - 1 in s || g[n - 1].creator == ByMain) && !IsFinal(s, n - 1) {
        SmallestMoves(g, s, n - 1);
      }
    }
  }

  /** In a state without enabled steps every task that exists has been created. */
  lemma {:induction false} StuckHasCreated(g: Graph, s: State, n: nat)
    requires Valid(g) && Inv(g, s) && SettledBelow(g, s, |g|) && n < |g| && Exists(g, n)
    ensures IsFinal(s, n)
    decreases |g| - n
  {
    assert ValidEntry(g, n);
    match g[n].creator
    case ByMain =>
    case ByBody(c, cond) =>
      StuckHasCreated(g, s, c);
      assert TaskInv(g, s, c) && HasRun(g, s, c);
      assert Born(g, n, c, Input(g, c));
  }

  /** While a created task is unfinished, or the main program has one left to create, some step is enabled. */
  lemma {:induction false} Progress(g: Graph, run: Trace<State, Step>, n: nat)
    requires Valid(g) && Run(g, run) && n < |g|
    requires (n in run.Last() || g[n].creator == ByMain) && !IsFinal(run.Last(), n)
    ensures SomeStep(g, run.Last())
  {
    RunInv(g, run);
    if !SomeStep(g, run.Last()) { StuckIsSettled(g, run.Last(), |g|); }
  }

  /** A complete run has created exactly the tasks that exist and evaluated each of them. */
  lemma {:induction false} CompleteRun(g: Graph, run: Trace<State, Step>)
    requires Valid(g) && Run(g, run) && !SomeStep(g, run.Last())
    ensures forall n: nat :: n in run.Last() <==> n < |g| && Exists(g, n)
    ensures forall n | n in run.Last() :: n < |g| && run.Last()[n] == Final(Eval(g, n))
  {
    var s := run.Last();
    RunInv(g, run);
    StuckIsSettled(g, s, |g|);
    forall n | n in s ensures n < |g| && Exists(g, n) && s[n] == Final(Eval(g, n)) {
      assert TaskInv(g, s, n);
      assert IsFinal(s, n);
    }
    forall n: nat | n < |g| && Exists(g, n) ensures n in s {
      StuckHasCreated(g, s, n);
    }
  }

  /** Confluence: any two complete runs, in whatever order they took their steps, end in the same state. */
  lemma {:induction false} Confluence(g: Graph, run1: Trace<State, Step>, run2: Trace<State, Step>)
    requires Valid(g) && Run(g, run1) && Run(g, run2)
    requires !SomeStep(g, run1.Last()) && !SomeStep(g, run2.Last())
    ensures run1.Last() == run2.Last()
  {
    CompleteRun(g, run1);
    CompleteRun(g, run2);
    assert run1.Last().Keys == run2.Last().Keys;
  }

  // ----- Termination -----

  /** What a task still has before it. */
  function Distance(s: State, n: nat): nat {
    if n !in s then 4
    else match s[n] case Waiting => 3 case Scheduled => 2 case Unwrapped(_) => 1 case Final(_) => 0
  }

  function Measure(s: State, n: nat): nat {
    if n == 0 then 0 else Measure(s, n - 1) + Distance(s, n - 1)
  }

  lemma {:induction false} MeasureDecreases(s: State, s': State, n: nat, m: nat)
    requires m < n && Distance(s', m) < Distance(s, m)
    requires forall k: nat | k < n :: Distance(s', k) <= Distance(s, k)
    ensures Measure(s', n) < Measure(s, n)
  {
    if m == n - 1 { MeasureMonotone(s, s', n - 1); } else { MeasureDecreases(s, s', n - 1, m); }
  }

  lemma {:induction false} MeasureMonotone(s: State, s': State, n: nat)
    requires forall k: nat | k < n :: Distance(s', k) <= Distance(s, k)
    ensures Measure(s', n) <= Measure(s, n)
  {
    if n > 0 { MeasureMonotone(s, s', n - 1); }
  }

  lemma StepDecreases(g: Graph, s: State, step: Step, s': State)
    requires Next(g, s, step, s')
    ensures Measure(s', |g|) < Measure(s, |g|)
  {
    var n := step.n;
    assert Distance(s', n) < Distance(s, n);
    MeasureDecreases(s, s', |g|, n);
  }

  function Length(run: Trace<State, Step>): nat {
    match run case Start(_) => 0 case Then(before, _, _) => 1 + Length(before)
  }

  lemma {:induction false} EmptyMeasure(n: nat)
    ensures Measure(map[], n) == 4 * n
  {
    if n > 0 { EmptyMeasure(n - 1); }
  }

  /** No run takes more than four steps for each task. */
  lemma {:induction false} RunsTerminate(g: Graph, run: Trace<State, Step>)
    requires Run(g, run)
    ensures Length(run) + Measure(run.Last(), |g|) <= 4 * |g|
  {
    match run
    case Start(s) => EmptyMeasure(|g|);
    case Then(before, step, s) => RunsTerminate(g, before); StepDecreases(g, before.Last(), step, s);
  }
}
