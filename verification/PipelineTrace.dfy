/**
 The states a run of the machine goes through.
 */
module PipelineTrace {
  import opened Pipeline

  /** The state before the i-th step. */
  function StateAt(s: State, steps: seq<Step>, i: nat): State
    requires IsRun(s, steps) && i <= |steps|
    decreases i
  {
    if i == 0 then s else StateAt(Do(s, steps[0]), steps[1..], i - 1)
  }

  lemma {:induction false} Suffix(s: State, steps: seq<Step>, i: nat)
    requires IsRun(s, steps) && i <= |steps|
    ensures IsRun(StateAt(s, steps, i), steps[i..])
    ensures After(StateAt(s, steps, i), steps[i..]) == After(s, steps)
    decreases i
  {
    hide Can, Do;
    if i == 0 {
      assert steps[0..] == steps;
    } else {
      Suffix(Do(s, steps[0]), steps[1..], i - 1);
      assert steps[1..][i - 1..] == steps[i..];
    }
  }

  lemma {:induction false} Shift(s: State, steps: seq<Step>, i: nat, k: nat)
    requires IsRun(s, steps) && i + k <= |steps|
    ensures IsRun(StateAt(s, steps, i), steps[i..])
    ensures StateAt(StateAt(s, steps, i), steps[i..], k) == StateAt(s, steps, i + k)
    decreases i
  {
    hide Can, Do;
    Suffix(s, steps, i);
    if i == 0 {
      assert steps[0..] == steps;
    } else {
      Shift(Do(s, steps[0]), steps[1..], i - 1, k);
      assert steps[1..][i - 1..] == steps[i..];
    }
  }

  lemma {:induction false} StepAt(s: State, steps: seq<Step>, i: nat)
    requires IsRun(s, steps) && i < |steps|
    ensures Can(StateAt(s, steps, i), steps[i])
    ensures StateAt(s, steps, i + 1) == Do(StateAt(s, steps, i), steps[i])
    decreases i
  {
    hide Can, Do;
    if i == 0 {
    } else {
      StepAt(Do(s, steps[0]), steps[1..], i - 1);
    }
  }
}
