/**
Graphs of tasks: spawn, then, unwrapping, events and when_all, with pure
functions. A step runs one task, delivers one continuation, or lets the main
program create one task; the order of steps is arbitrary.
 */
module TaskGraph {
  import opened Common

  /** Values; when_all yields the finished tasks it was given, that is, their outcomes. */
  datatype Val = Int(i: int) | Results(outcomes: seq<Outcome>)
  datatype Outcome = Value(v: Val) | Error(e: int)

  /** What a task function does in the end. */
  datatype Action = Return(v: Val) | Throw(e: int) | Unwrap(child: nat)

  datatype Node =
    | Made(o: Outcome)                 // make_task, make_exception_task
    | Spawned(act: Action)
    | After(parent: nat, values: bool, body: Outcome -> Action)   // then(); `values`: takes the value
    | EventTask(o: Outcome)            // what its setter will set
    | WhenAll(inputs: seq<nat>)

  /** Created by the main program, or by the body of task c when its input satisfies `cond`. */
  datatype Creator = ByMain | ByBody(c: nat, cond: Outcome -> bool)

  /** A task, its creator, and the task handles that exist whenever it is created. */
  datatype Entry = Entry(node: Node, creator: Creator, handles: set<nat>)

  /** Tasks are numbered so that everything a task depends on or creates has a smaller number. */
  type Graph = seq<Entry>

  const NO_INPUT := Value(Results([]))

  ghost predicate Born(g: Graph, n: nat, c: nat, input: Outcome) {
    n < |g| && g[n].creator.ByBody? && g[n].creator.c == c && g[n].creator.cond(input)
  }

  /** What the body of a task does with an input. */
  function ActionOf(node: Node, input: Outcome): Action
    requires node.Spawned? || node.After?
  {
    if node.Spawned? then node.act else node.body(input)
  }

  /** Handles come from the main program, from the creator, or from the creator's other children. */
  ghost predicate ValidEntry(g: Graph, n: nat)
    requires n < |g|
  {
    var Entry(node, creator, handles) := g[n];
    && (forall h | h in handles :: h < n)
    && (node.After? ==> node.parent in handles)
    && (node.WhenAll? ==> forall k | 0 <= k < |node.inputs| :: node.inputs[k] in handles)
    && (match creator
        case ByMain => forall h | h in handles :: g[h].creator == ByMain
        case ByBody(c, cond) =>
          && n < c < |g| && (g[c].node.Spawned? || g[c].node.After?)
          && (forall h, input | h in handles && cond(input) :: h in g[c].handles || Born(g, h, c, input)))
    && (node.Spawned? || node.After? ==>
          forall input :: var act := ActionOf(node, input);
            act.Unwrap? ==> act.child < n && (act.child in handles || Born(g, act.child, n, input)))
  }

  ghost predicate Valid(g: Graph) {
    forall n | 0 <= n < |g| :: ValidEntry(g, n)
  }

  // ----- Direct recursive evaluation -----

  ghost function Eval(g: Graph, n: nat): Outcome
    requires Valid(g) && n < |g|
    decreases n, 1
  {
    assert ValidEntry(g, n);
    match g[n].node
    case Made(o) => o
    case EventTask(o) => o
    case Spawned(act) => EvalAction(g, n, NO_INPUT)
    case After(p, values, body) =>
      if values && Eval(g, p).Error? then Eval(g, p) else EvalAction(g, n, Eval(g, p))
    case WhenAll(inputs) =>
      Value(Results(seq(|inputs|, k requires 0 <= k < |inputs| => Eval(g, inputs[k]))))
  }

  ghost function EvalAction(g: Graph, n: nat, input: Outcome): Outcome
    requires Valid(g) && n < |g| && (g[n].node.Spawned? || g[n].node.After?)
    decreases n, 0
  {
    assert ValidEntry(g, n);
    match ActionOf(g[n].node, input)
    case Return(v) => Value(v)
    case Throw(e) => Error(e)
    case Unwrap(child) => Eval(g, child)
  }

  /** The input that the body of a task gets. */
  ghost function Input(g: Graph, n: nat): Outcome
    requires Valid(g) && n < |g|
  {
    assert ValidEntry(g, n);
    if g[n].node.After? then Eval(g, g[n].node.parent) else NO_INPUT
  }

  /** Does the body run, or is the task cancelled with its parent's exception? */
  ghost predicate BodyRuns(g: Graph, n: nat)
    requires Valid(g) && n < |g|
  {
    g[n].node.Spawned? || (g[n].node.After? && !(g[n].node.values && Input(g, n).Error?))
  }

  /** Is the task ever created? */
  ghost predicate Exists(g: Graph, n: nat)
    requires Valid(g) && n < |g|
    decreases |g| - n
  {
    assert ValidEntry(g, n);
    match g[n].creator
    case ByMain => true
    case ByBody(c, cond) => Exists(g, c) && BodyRuns(g, c) && cond(Input(g, c))
  }

  // ----- Stepwise execution -----

  datatype Status =
    | Waiting                  // a continuation not delivered yet, an unset event, an open when_all
    | Scheduled
    | Unwrapped(child: nat)
    | Final(o: Outcome)

  /** The tasks that have been created, and where each of them is. */
  type State = map<nat, Status>

  datatype Step =
    | Create(n: nat)
    | Deliver(n: nat)          // the parent's flush, or add_continuation on a finished parent
    | RunBody(n: nat)
    | Forward(n: nat)          // the continuation on an unwrapped child
    | SetEvent(n: nat)
    | Complete(n: nat)         // the last input of a when_all has finished

  ghost predicate IsFinal(s: State, n: nat) {
    n in s && s[n].Final?
  }

  ghost function Fresh(node: Node): Status {
    match node
    case Made(o) => Final(o)
    case Spawned(_) => Scheduled
    case _ => Waiting
  }

  ghost predicate Enabled(g: Graph, s: State, step: Step) {
    step.n < |g| &&
    var n := step.n;
    var node := g[n].node;
    match step
    case Create(_) => n !in s && g[n].creator == ByMain && g[n].handles <= s.Keys
    case Deliver(_) => n in s && s[n] == Waiting && node.After? && IsFinal(s, node.parent)
    case RunBody(_) =>
      n in s && s[n] == Scheduled && (node.Spawned? || (node.After? && IsFinal(s, node.parent)))
    case Forward(_) => n in s && s[n].Unwrapped? && IsFinal(s, s[n].child)
    case SetEvent(_) => n in s && s[n] == Waiting && node.EventTask?
    case Complete(_) =>
      n in s && s[n] == Waiting && node.WhenAll? &&
      forall k | 0 <= k < |node.inputs| :: IsFinal(s, node.inputs[k])
  }

  /** The tasks that the body of n creates. */
  ghost function Children(g: Graph, n: nat, input: Outcome): set<nat> {
    set m: nat | m < |g| && Born(g, m, n, input)
  }

  ghost function AfterAction(act: Action): Status {
    match act
    case Return(v) => Final(Value(v))
    case Throw(e) => Final(Error(e))
    case Unwrap(child) => Unwrapped(child)
  }

  /** Run a task whose body gets `input`: its new status and the tasks it creates. */
  ghost function RunWith(g: Graph, s: State, n: nat, input: Outcome): State
    requires n < |g| && (g[n].node.Spawned? || g[n].node.After?)
  {
    s + (map m | m in Children(g, n, input) && m !in s :: Fresh(g[m].node))
      + map[n := AfterAction(ActionOf(g[n].node, input))]
  }

  ghost function Apply(g: Graph, s: State, step: Step): State
    requires Enabled(g, s, step)
  {
    var n := step.n;
    var node := g[n].node;
    match step
    case Create(_) => s[n := Fresh(node)]
    case Deliver(_) => s[n := Scheduled]
    case RunBody(_) =>
      if node.Spawned? then RunWith(g, s, n, NO_INPUT)
      else if node.values && s[node.parent].o.Error? then s[n := Final(s[node.parent].o)]
      else RunWith(g, s, n, s[node.parent].o)
    case Forward(_) => s[n := s[s[n].child]]
    case SetEvent(_) => s[n := Final(node.o)]
    case Complete(_) =>
      s[n := Final(Value(Results(seq(|node.inputs|,
        k requires 0 <= k < |node.inputs| && IsFinal(s, node.inputs[k]) => s[node.inputs[k]].o))))]
  }

  ghost predicate Next(g: Graph, s: State, step: Step, s': State) {
    Enabled(g, s, step) && s' == Apply(g, s, step)
  }

  ghost predicate Run(g: Graph, run: Trace<State, Step>) {
    match run
    case Start(s) => s == map[]
    case Then(before, step, s) => Run(g, before) && Next(g, before.Last(), step, s)
  }
}
