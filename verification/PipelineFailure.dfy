/**
 What the worker makes of a refused put, over every run: an error that looks like the network's turns the sink to
 buffering with a recovery task under way, unless one is known; any other error only sends the fragment to disk.
 The steps of the worker are told apart by what they change, whatever the other actors do in between.
 */
module PipelineFailure {
  import opened Wrappers
  import opened BufferEvents
  import opened Pipeline
  import opened PipelineAccounting
  import opened PipelineTrace

  // ---- the worker among the others ----

  predicate IsPush(step: Step) { step.Work? && step.work.Push? }

  predicate NoPush(steps: seq<Step>) { forall i | 0 <= i < |steps| :: !IsPush(steps[i]) }

  predicate NoWork(steps: seq<Step>, n: nat)
    requires n <= |steps|
  {
    forall i | 0 <= i < n :: !steps[i].Work?
  }

  /** The mode, the tasks and the handle are left alone. */
  predicate SameControl(s: State, s': State) {
    s'.currentMode == s.currentMode && s'.tasks == s.tasks && s'.recoveryTask == s.recoveryTask
  }

  lemma OthersKeepWorker(s: State, step: Step)
    requires Can(s, step) && !step.Work?
    ensures Do(s, step).worker == s.worker
  {
    if step.TaskDo? { TaskLeavesFragments(s, step.task, step.taskStep); }
    hide DoTask, CanTask;
  }

  /** A worker that is somewhere else at the end takes a step; before its first one it is where it was. */
  lemma {:induction false} NextWork(s: State, steps: seq<Step>) returns (i: nat)
    requires IsRun(s, steps) && After(s, steps).worker != s.worker
    ensures i < |steps| && steps[i].Work? && NoWork(steps, i) && StateAt(s, steps, i).worker == s.worker
    decreases |steps|
  {
    hide Can, Do;
    if steps[0].Work? {
      i := 0;
    } else {
      OthersKeepWorker(s, steps[0]);
      var j := NextWork(Do(s, steps[0]), steps[1..]);
      i := j + 1;
      assert forall k | 0 <= k < j :: steps[k + 1] == steps[1..][k];
    }
  }

  /** With a fragment to buffer the worker does nothing until it pushes it. */
  lemma {:induction false} BufferingPushes(s: State, steps: seq<Step>, i: nat)
    requires IsRun(s, steps) && s.worker.Buffering? && i < |steps| && steps[i].Work?
    requires forall j | 0 <= j < i :: !IsPush(steps[j])
    ensures IsPush(steps[i]) && StateAt(s, steps, i).worker == s.worker
    decreases i
  {
    if i == 0 {
    } else {
      assert !IsPush(steps[0]);
      if !steps[0].Work? { OthersKeepWorker(s, steps[0]); }
      hide Do, DoTask, DoRender, CanTask, CanRender;
      BufferingPushes(Do(s, steps[0]), steps[1..], i - 1);
    }
  }

  // ---- which fragments are put ----

  /**
   A fragment captured live is put before anything else is done with it, and one captured buffering never is: the
   worker's next step with it in hand is a put that is accepted or refused, or else it is about to push it.
   */
  lemma OnlyLiveIsPut(s: State, steps: seq<Step>, i: nat)
    requires s.worker.Dispatching? && IsRun(s, steps) && i < |steps| && steps[i].Work? && NoWork(steps, i)
    ensures var item, before, after := s.worker.item, StateAt(s, steps, i), StateAt(s, steps, i + 1);
            if item.mode.Immediate? then
              || (after.uploaded == before.uploaded + [item.id] && after.handled == before.handled + [item]
                  && after.worker == Idle)
              || steps[i].work.PutRefused?
            else after.worker == Buffering(item) && after.uploaded == before.uploaded
  {
    FirstIsOfHand(s, steps, i);
    StepAt(s, steps, i);
    hide StateAt, IsRun, Pushed;
  }

  /** Up to its first step the worker is where it was. */
  lemma {:induction false} FirstIsOfHand(s: State, steps: seq<Step>, i: nat)
    requires IsRun(s, steps) && i <= |steps| && NoWork(steps, i)
    ensures StateAt(s, steps, i).worker == s.worker
    decreases i
  {
    hide Can, Do;
    if i == 0 {
    } else {
      OthersKeepWorker(s, steps[0]);
      assert forall k | 0 <= k < i - 1 :: steps[1..][k] == steps[k + 1];
      FirstIsOfHand(Do(s, steps[0]), steps[1..], i - 1);
    }
  }

  // ---- other errors ----

  /**
   After a refusal that is no network error, the next step of the worker is its push, and neither the refusal nor
   the push nor anything else it does before changes the mode, the tasks or the handle.
   */
  lemma OtherErrorsAreQuiet(s: State, steps: seq<Step>, i: nat)
    requires Can(s, Work(PutRefused(false)))
    requires var s1 := Do(s, Work(PutRefused(false)));
             IsRun(s1, steps) && i < |steps| && steps[i].Work? && forall j | 0 <= j < i :: !IsPush(steps[j])
    ensures var s1 := Do(s, Work(PutRefused(false)));
            && SameControl(s, s1) && s1.worker == Buffering(s.worker.item)
            && IsPush(steps[i]) && SameControl(StateAt(s1, steps, i), StateAt(s1, steps, i + 1))
            && StateAt(s1, steps, i + 1).handled == StateAt(s1, steps, i).handled + [s.worker.item]
  {
    var s1 := Do(s, Work(PutRefused(false)));
    BufferingPushes(s1, steps, i);
    StepAt(s1, steps, i);
    hide StateAt, IsRun, Pushed;
  }

  // ---- network errors ----

  /** Of the worker's steps at most these change the mode, the tasks or the handle. */
  predicate QuietBut(s: State, steps: seq<Step>, loud: set<nat>)
    requires IsRun(s, steps)
  {
    forall j: nat | j < |steps| && steps[j].Work? && j !in loud ::
      SameControl(StateAt(s, steps, j), StateAt(s, steps, j + 1))
  }

  /** In this order the worker enters BufferOnly, spawns a recovery task in its sleep, and stores its handle. */
  predicate StartsRecovery(s: State, steps: seq<Step>, a: nat, b: nat, c: nat)
    requires IsRun(s, steps) && a < b < c < |steps|
  {
    && steps[a].Work? && StateAt(s, steps, a + 1).currentMode.BufferOnly?
    && StateAt(s, steps, a + 1).tasks == StateAt(s, steps, a).tasks
    && StateAt(s, steps, a + 1).recoveryTask == StateAt(s, steps, a).recoveryTask
    && steps[b].Work?
    && StateAt(s, steps, b + 1).tasks == StateAt(s, steps, b).tasks + [Task(Recovery, Sleeping, false)]
    && StateAt(s, steps, b + 1).currentMode == StateAt(s, steps, b).currentMode
    && StateAt(s, steps, b + 1).recoveryTask == StateAt(s, steps, b).recoveryTask
    && steps[c].Work? && StateAt(s, steps, c + 1).recoveryTask == Some(|StateAt(s, steps, b).tasks|)
    && StateAt(s, steps, c + 1).currentMode == StateAt(s, steps, c).currentMode
    && StateAt(s, steps, c + 1).tasks == StateAt(s, steps, c).tasks
  }

  /** Either the worker finds a recovery task known in its first step and changes nothing, or it starts one. */
  ghost predicate FoundOrStarted(s: State, steps: seq<Step>, i: nat)
    requires IsRun(s, steps) && i < |steps|
  {
    if StateAt(s, steps, i).recoveryTask.Some? then QuietBut(s, steps, {})
    else exists a, b, c :: i < a < b < c < |steps| && StartsRecovery(s, steps, a, b, c) && QuietBut(s, steps, {a, b, c})
  }

  /** The next step of the worker after the n-th step of the run. */
  lemma WorkAfter(s: State, steps: seq<Step>, n: nat) returns (i: nat)
    requires IsRun(s, steps) && n <= |steps| && After(s, steps).worker != StateAt(s, steps, n).worker
    ensures n <= i < |steps| && steps[i].Work? && forall j | n <= j < i :: !steps[j].Work?
    ensures StateAt(s, steps, i).worker == StateAt(s, steps, n).worker
    ensures Can(StateAt(s, steps, i), steps[i]) && StateAt(s, steps, i + 1) == Do(StateAt(s, steps, i), steps[i])
  {
    hide Can, Do, StateAt;
    Suffix(s, steps, n);
    var k := NextWork(StateAt(s, steps, n), steps[n..]);
    i := n + k;
    Shift(s, steps, n, k);
    StepAt(s, steps, i);
    assert forall j | n <= j < i :: steps[j] == steps[n..][j - n];
  }

  /** Once it is about to push, a worker that does not push does nothing. */
  lemma NoMoreWork(s: State, steps: seq<Step>, n: nat)
    requires IsRun(s, steps) && n <= |steps| && NoPush(steps) && StateAt(s, steps, n).worker.Buffering?
    ensures forall j | n <= j < |steps| :: !steps[j].Work?
  {
    hide Can, Do, StateAt;
    Suffix(s, steps, n);
    forall j | n <= j < |steps| ensures !steps[j].Work? {
      var rest := steps[n..];
      assert forall k | 0 <= k < |rest| :: rest[k] == steps[n + k];
      if rest[j - n].Work? { BufferingPushes(StateAt(s, steps, n), rest, j - n); }
    }
  }

  /**
   After a refusal that looks like a network error, by the time the worker is about to push the fragment it has
   either found a recovery task known, and changed nothing, or found none, and entered BufferOnly, spawned a
   recovery task and stored its handle, in this order and nothing else.
   */
  lemma NetworkErrorsRecover(s: State, steps: seq<Step>) returns (i: nat)
    requires Can(s, Work(PutRefused(true)))
    requires var s1 := Do(s, Work(PutRefused(true)));
             IsRun(s1, steps) && NoPush(steps) && After(s1, steps).worker.Buffering?
    ensures var s1 := Do(s, Work(PutRefused(true)));
            && SameControl(s, s1)
            && i < |steps| && steps[i].Work? && NoWork(steps, i)
            && SameControl(StateAt(s1, steps, i), StateAt(s1, steps, i + 1))
            && FoundOrStarted(s1, steps, i)
  {
    var s1 := Do(s, Work(PutRefused(true)));
    assert s1.worker == CheckingTask(s.worker.item);
    i := Checks(s1, steps);
    if StateAt(s1, steps, i).recoveryTask.Some? {
      hide StateAt, IsRun, Do, Can;
      NoMoreWork(s1, steps, i + 1);
    } else {
      hide StateAt, IsRun, Do, Can;
      var a, b, c := Starts(s1, steps, i + 1);
      assert StartsRecovery(s1, steps, a, b, c);
      assert QuietBut(s1, steps, {a, b, c});
    }
  }

  lemma Checks(s: State, steps: seq<Step>) returns (i: nat)
    requires IsRun(s, steps) && NoPush(steps) && s.worker.CheckingTask? && After(s, steps).worker.Buffering?
    ensures i < |steps| && steps[i].Work? && NoWork(steps, i)
    ensures SameControl(StateAt(s, steps, i), StateAt(s, steps, i + 1))
    ensures StateAt(s, steps, i + 1).worker == if StateAt(s, steps, i).recoveryTask.Some? then Buffering(s.worker.item)
                                               else EnteringBufferOnly(s.worker.item)
  {
    i := WorkAfter(s, steps, 0);
    hide IsRun, NoPush, StateAt;
  }

  lemma Starts(s: State, steps: seq<Step>, n: nat) returns (a: nat, b: nat, c: nat)
    requires IsRun(s, steps) && NoPush(steps) && n <= |steps| && After(s, steps).worker.Buffering?
    requires StateAt(s, steps, n).worker.EnteringBufferOnly?
    ensures n <= a < b < c < |steps| && StartsRecovery(s, steps, a, b, c)
    ensures forall j | n <= j < |steps| && steps[j].Work? :: j == a || j == b || j == c
  {
    a := WorkAfter(s, steps, n);
    hide IsRun, NoPush, StateAt;
    assert StateAt(s, steps, a + 1).worker.Spawning?;
    b := WorkAfter(s, steps, a + 1);
    assert StateAt(s, steps, b + 1).worker.StoringHandle?;
    assert StateAt(s, steps, b + 1).worker.task == |StateAt(s, steps, b).tasks|;
    c := WorkAfter(s, steps, b + 1);
    assert StateAt(s, steps, c + 1).worker.Buffering?;
    hide Can, Do;
    NoMoreWork(s, steps, c + 1);
  }
}
