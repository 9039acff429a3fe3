/** Interleaved runs of any number of tasks over a step function. */
module Runs {
  /** One task makes its next step, and the outside world decides how that ends. */
  datatype Move<O> = Move(task: nat, outcome: O)

  /** `states` are the successive states of the moves. */
  ghost predicate IsRun<S(!new), O(!new)>(states: seq<S>, moves: seq<Move<O>>, step: (S, nat, O) -> S) {
    && |states| == |moves| + 1
    && forall n {:trigger moves[n]} :: 0 <= n < |moves| ==>
         states[n + 1] == step(states[n], moves[n].task, moves[n].outcome)
  }

  /** Runs can be continued by any move. */
  lemma Extend<S(!new), O(!new)>(states: seq<S>, moves: seq<Move<O>>, step: (S, nat, O) -> S, i: nat, o: O)
    returns (longer: seq<S>, more: seq<Move<O>>)
    requires IsRun(states, moves, step)
    ensures IsRun(longer, more, step) && longer[0] == states[0]
    ensures longer[|more|] == step(states[|moves|], i, o)
  {
    longer, more := states + [step(states[|moves|], i, o)], moves + [Move(i, o)];
    forall n | 0 <= n < |more| ensures longer[n + 1] == step(longer[n], more[n].task, more[n].outcome) {
      if n < |moves| {
        assert moves[n] == more[n];
      }
    }
  }
}
