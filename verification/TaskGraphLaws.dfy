/**
What a finished task holds, said of the states of runs alone: by the outcomes of the tasks it
depends on, without reference to the recursive evaluation or to the steps.
 */
module TaskGraphLaws {
  import opened Common
  import opened TaskGraph
  import opened TaskGraphProof

  /** The body of a finished task ended in this way. */
  ghost predicate EndedIn(s: State, o: Outcome, act: Action) {
    match act
    case Return(v) => o == Value(v)
    case Throw(e) => o == Error(e)
    case Unwrap(c) => IsFinal(s, c) && o == s[c].o
  }

  /** The laws for a task with outcome o. */
  ghost predicate Law(s: State, node: Node, o: Outcome) {
    match node
    case Made(made) => o == made
    case EventTask(set_) => o == set_
    case Spawned(act) => EndedIn(s, o, act)
    case After(p, values, body) =>
      && IsFinal(s, p)
      && if values && s[p].o.Error? then o == s[p].o else EndedIn(s, o, body(s[p].o))
    case WhenAll(inputs) =>
      && o.Value? && o.v.Results? && |o.v.outcomes| == |inputs|
      && forall k | 0 <= k < |inputs| :: IsFinal(s, inputs[k]) && o.v.outcomes[k] == s[inputs[k]].o
  }

  /** The laws for a task that waits for the task its body returned. */
  ghost predicate UnwrapLaw(s: State, node: Node, child: nat) {
    match node
    case Spawned(act) => act == Unwrap(child)
    case After(p, values, body) =>
      IsFinal(s, p) && !(values && s[p].o.Error?) && body(s[p].o) == Unwrap(child)
    case _ => false
  }

  ghost predicate StatusLaw(g: Graph, s: State, n: nat)
    requires n in s
  {
    && n < |g|
    && (s[n].Final? ==> Law(s, g[n].node, s[n].o))
    && (s[n].Unwrapped? ==> UnwrapLaw(s, g[n].node, s[n].child))
    && (s[n] == Scheduled ==> g[n].node.Spawned? || g[n].node.After?)
  }

  ghost predicate Laws(g: Graph, s: State) {
    forall n | n in s :: StatusLaw(g, s, n)
  }

  /** A law, once it holds, goes on holding: finished tasks do not change. */
  lemma LawKept(g: Graph, s: State, s': State, n: nat)
    requires n in s && StatusLaw(g, s, n) && n in s' && s'[n] == s[n]
    requires forall m | IsFinal(s, m) :: IsFinal(s', m) && s'[m] == s[m]
    ensures StatusLaw(g, s', n)
  {
  }

  lemma OneChangeLaws(g: Graph, s: State, n: nat, status: Status)
    requires Laws(g, s) && n < |g| && !IsFinal(s, n)
    requires StatusLaw(g, s[n := status], n)
    ensures Laws(g, s[n := status])
  {
    var s' := s[n := status];
    forall m | m in s' ensures StatusLaw(g, s', m) {
      if m != n { LawKept(g, s, s', m); }
    }
  }

  lemma RunWithLaws(g: Graph, s: State, n: nat, input: Outcome)
    requires Laws(g, s) && n < |g| && n in s && s[n] == Scheduled && (g[n].node.Spawned? || g[n].node.After?)
    requires g[n].node.After? ==>
               && IsFinal(s, g[n].node.parent) && input == s[g[n].node.parent].o
               && !(g[n].node.values && input.Error?)
    ensures Laws(g, RunWith(g, s, n, input))
  {
    var s' := RunWith(g, s, n, input);
    forall m | m in s' ensures StatusLaw(g, s', m) {
      if m == n {
      } else if m in s {
        LawKept(g, s, s', m);
      } else {
        assert m in Children(g, n, input);
      }
    }
  }

  lemma CompleteLaws(g: Graph, s: State, n: nat)
    requires Laws(g, s) && Enabled(g, s, Complete(n))
    ensures Laws(g, Apply(g, s, Complete(n)))
  {
    var s' := Apply(g, s, Complete(n));
    var inputs := g[n].node.inputs;
    forall k | 0 <= k < |inputs| ensures IsFinal(s', inputs[k]) && s'[inputs[k]] == s[inputs[k]] {
      assert IsFinal(s, inputs[k]);
    }
    OneChangeLaws(g, s, n, s'[n]);
  }

  lemma RunBodyLaws(g: Graph, s: State, n: nat)
    requires Laws(g, s) && Enabled(g, s, RunBody(n))
    ensures Laws(g, Apply(g, s, RunBody(n)))
  {
    var node := g[n].node;
    if node.Spawned? {
      RunWithLaws(g, s, n, NO_INPUT);
    } else if node.values && s[node.parent].o.Error? {
      OneChangeLaws(g, s, n, Final(s[node.parent].o));
    } else {
      RunWithLaws(g, s, n, s[node.parent].o);
    }
  }

  lemma ForwardLaws(g: Graph, s: State, n: nat)
    requires Laws(g, s) && Enabled(g, s, Forward(n))
    ensures Laws(g, Apply(g, s, Forward(n)))
  {
    assert StatusLaw(g, s, n);
    OneChangeLaws(g, s, n, s[s[n].child]);
  }

  lemma NextLaws(g: Graph, s: State, step: Step, s': State)
    requires Laws(g, s) && Next(g, s, step, s')
    ensures Laws(g, s')
  {
    match step
    case Create(n) => OneChangeLaws(g, s, n, Fresh(g[n].node));
    case Deliver(n) => OneChangeLaws(g, s, n, Scheduled);
    case RunBody(n) => RunBodyLaws(g, s, n);
    case Forward(n) => ForwardLaws(g, s, n);
    case SetEvent(n) => OneChangeLaws(g, s, n, Final(g[n].node.o));
    case Complete(n) => CompleteLaws(g, s, n);
  }

  /** In every state of every run, every finished task obeys its law. */
  lemma {:induction false} RunLaws(g: Graph, run: Trace<State, Step>)
    requires Run(g, run)
    ensures Laws(g, run.Last())
  {
    match run
    case Start(s) =>
    case Then(before, step, s) => RunLaws(g, before); NextLaws(g, before.Last(), step, s);
  }

  // ----- The cases one by one -----

  /** A value-based continuation of a cancelled task is cancelled with the same exception. */
  lemma {:induction false} CancelledParentCancels(g: Graph, run: Trace<State, Step>, n: nat)
    requires Run(g, run) && n < |g| && IsFinal(run.Last(), n)
    requires g[n].node.After? && g[n].node.values
    requires IsFinal(run.Last(), g[n].node.parent) && run.Last()[g[n].node.parent].o.Error?
    ensures run.Last()[n].o == run.Last()[g[n].node.parent].o
  {
    RunLaws(g, run);
    assert StatusLaw(g, run.Last(), n);
  }

  /** In every other case the body decides: a task-based continuation runs however its parent ended. */
  lemma {:induction false} BodyDecides(g: Graph, run: Trace<State, Step>, n: nat)
    requires Run(g, run) && n < |g| && IsFinal(run.Last(), n) && g[n].node.After?
    requires !g[n].node.values || (IsFinal(run.Last(), g[n].node.parent) && run.Last()[g[n].node.parent].o.Value?)
    ensures var s := run.Last();
            && IsFinal(s, g[n].node.parent)
            && EndedIn(s, s[n].o, g[n].node.body(s[g[n].node.parent].o))
  {
    RunLaws(g, run);
    assert StatusLaw(g, run.Last(), n);
  }

  /** when_all holds its inputs' outcomes, each in its place; roots, events and made tasks hold what
      they were given. */
  lemma {:induction false} OthersHold(g: Graph, run: Trace<State, Step>, n: nat)
    requires Run(g, run) && n < |g| && IsFinal(run.Last(), n) && !g[n].node.After?
    ensures var s := run.Last();
            match g[n].node
            case Made(o) => s[n].o == o
            case EventTask(o) => s[n].o == o
            case Spawned(act) => EndedIn(s, s[n].o, act)
            case WhenAll(inputs) =>
              exists os: seq<Outcome> ::
                && s[n].o == Value(Results(os)) && |os| == |inputs|
                && forall k | 0 <= k < |inputs| :: IsFinal(s, inputs[k]) && os[k] == s[inputs[k]].o
  {
    RunLaws(g, run);
    assert StatusLaw(g, run.Last(), n);
  }

  // ----- Creation -----

  /** The body of c has run, on this input. */
  ghost predicate RanOn(g: Graph, s: State, c: nat, input: Outcome) {
    && c < |g| && IsFinal(s, c)
    && match g[c].node
       case Spawned(_) => input == NO_INPUT
       case After(p, values, _) => IsFinal(s, p) && input == s[p].o && !(values && input.Error?)
       case _ => false
  }

  /** A complete run has created the main program's tasks, and those that bodies that ran on a
      suitable input create, and no others. */
  lemma {:induction false} CreatedBy(g: Graph, run: Trace<State, Step>, n: nat)
    requires Valid(g) && Run(g, run) && !SomeStep(g, run.Last()) && n < |g|
    ensures n in run.Last() <==>
            match g[n].creator
            case ByMain => true
            case ByBody(c, cond) => exists input :: RanOn(g, run.Last(), c, input) && cond(input)
  {
    var s := run.Last();
    CompleteRun(g, run);
    assert ValidEntry(g, n);
    match g[n].creator
    case ByMain => assert Exists(g, n);
    case ByBody(c, cond) =>
      assert ValidEntry(g, c);
      RanOnInput(g, run, c);
      assert Exists(g, n) <==> Exists(g, c) && BodyRuns(g, c) && cond(Input(g, c));
  }

  lemma {:induction false} RanOnInput(g: Graph, run: Trace<State, Step>, c: nat)
    requires Valid(g) && Run(g, run) && !SomeStep(g, run.Last()) && c < |g|
    requires g[c].node.Spawned? || g[c].node.After?
    ensures forall input :: RanOn(g, run.Last(), c, input) <==>
                            Exists(g, c) && BodyRuns(g, c) && input == Input(g, c)
  {
    var s := run.Last();
    CompleteRun(g, run);
    RunLaws(g, run);
    assert ValidEntry(g, c);
    if c in s {
      assert StatusLaw(g, s, c) && IsFinal(s, c);
    }
  }
}
