/** Runs that are built step by step. */
module ServerRuns {
  import opened ServerMachine

  /** A run that ends in a state. */
  datatype Course = Course(states: seq<State>, acts: seq<Action>, last: State)

  ghost predicate Leads(from: State, run: Course) {
    IsRun(run.states, run.acts) && run.states[0] == from && run.states[|run.acts|] == run.last
  }

  function Start(s: State): Course {
    Course([s], [], s)
  }

  function Then(run: Course, a: Action): Course
    requires Enabled(run.last, a)
  {
    Course(run.states + [Next(run.last, a)], run.acts + [a], Next(run.last, a))
  }

  /** One more step. */
  lemma Further(from: State, run: Course, a: Action) returns (longer: Course)
    requires Leads(from, run) && Enabled(run.last, a)
    ensures longer == Then(run, a) && Leads(from, longer)
  {
    longer := Then(run, a);
    forall k: nat | k < |longer.acts|
      ensures StepAt(longer.states, longer.acts, k)
    {
      assert k < |run.acts| ==> StepAt(run.states, run.acts, k);
    }
  }

  /** One run after another. */
  lemma Continued(from: State, a: Course, b: Course) returns (run: Course)
    requires Leads(from, a) && Leads(a.last, b)
    ensures Leads(from, run) && run.acts == a.acts + b.acts && run.last == b.last
  {
    run := Course(a.states + b.states[1..], a.acts + b.acts, b.last);
    forall k: nat | k < |run.acts|
      ensures StepAt(run.states, run.acts, k)
    {
      if k < |a.acts| {
        assert StepAt(a.states, a.acts, k);
      } else {
        assert StepAt(b.states, b.acts, k - |a.acts|);
      }
    }
  }
}
