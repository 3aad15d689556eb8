/** Vocabulary shared by the models. */
module Common {
  datatype Option<+T> = None | Some(value: T)

  /** A task object, named by its address. */
  type Task = nat

  /** A finite run of a step model. Every prefix of a run is a run, so a claim about
      the last state of every run is a claim about every state of every run. */
  datatype Trace<S, A> = Start(init: S) | Then(before: Trace<S, A>, step: A, after: S)
  {
    function Last(): S {
      match this case Start(s) => s case Then(_, _, s) => s
    }
  }
}
