/**
 Recovery from a network failure in continuous mode. A sink in BufferOnly should always have something
 under way that will bring it back to Immediate. It does, except for one interleaving of `switch_mode`:
 the recovery task is cancelled after the switch was scheduled, in a second critical section, and by then
 the switch can have been executed and a new failure can have spawned the task that is being cancelled.
 */
module PipelineRecovery {
  import opened Wrappers
  import opened BufferEvents
  import opened Pipeline
  import opened PipelineAccounting
  import B = BufferModel

  // ---- runs without a trigger that has an end ----

  predicate NoBoundedKind(k: Kind) { !(k.Signal? && k.bounded) }

  predicate NoBoundedEvents(events: seq<Event>) { HistoricalUploadComplete(false) !in events }

  predicate NoBoundedTask(t: Task) {
    NoBoundedKind(t.kind) && (t.pc.Delivering? ==> NoBoundedEvents(t.pc.events))
  }

  /** Only a network failure enters BufferOnly. */
  predicate Unbounded(s: State) {
    && s.pendingModeSwitch != Some(BufferOnly)
    && (s.render.Capturing? || s.render.Finalizing? || s.render.Sending? || s.render.Counting? || s.render.Switching?
        ==> s.render.boundary.newMode != Some(BufferOnly))
    && NoBoundedEvents(s.buf.events)
    && (forall t | 0 <= t < |s.tasks| :: NoBoundedTask(s.tasks[t]))
  }

  // ---- what brings the sink back ----

  /** A recovery task that will try again, or is trying. */
  predicate LiveRecovery(t: Task) { t.kind.Recovery? && !t.aborted && CanBeCancelled(t.pc) }

  /** A task holding a completion whose switch it has yet to schedule. */
  predicate Carries(t: Task) {
    && t.pc.Delivering?
    && HistoricalUploadComplete(true)
       in (if t.pc.phase.CancelAgain? && t.pc.events != [] then t.pc.events[1..] else t.pc.events)
  }

  /** A task about to take the events out of the channel. */
  predicate AboutToDrain(t: Task) { t.pc.ClearingHandle? || t.pc.Draining? }

  predicate AnyLive(tasks: seq<Task>) { exists t | 0 <= t < |tasks| :: LiveRecovery(tasks[t]) }
  predicate AnyCarries(tasks: seq<Task>) { exists t | 0 <= t < |tasks| :: Carries(tasks[t]) }
  predicate AnyReader(tasks: seq<Task>) { exists t | 0 <= t < |tasks| :: AboutToDrain(tasks[t]) }

  predicate Rescued(s: State) {
    || s.pendingModeSwitch == Some(Immediate)
    || s.worker.Spawning?
    || AnyLive(s.tasks)
    || AnyCarries(s.tasks)
    || (HistoricalUploadComplete(true) in s.buf.events && AnyReader(s.tasks))
  }

  predicate Stranded(s: State) { s.currentMode.BufferOnly? && !Rescued(s) }

  /** An undelivered completion has a reader coming for it. */
  predicate Readers(s: State) { HistoricalUploadComplete(true) in s.buf.events ==> AnyReader(s.tasks) }

  /** The step is the second cancel of a `switch_mode` to Immediate. */
  predicate TrailingCancel(s: State, step: Step) {
    && step.TaskDo? && step.taskStep.Deliver? && step.task < |s.tasks|
    && var pc := s.tasks[step.task].pc;
       pc.Delivering? && pc.phase.CancelAgain? && pc.events != [] && pc.events[0] == HistoricalUploadComplete(true)
  }

  /** The switch it scheduled is used up, and the task it is about to abort is all there is. */
  predicate TakesLastRescuer(s: State, step: Step) {
    && TrailingCancel(s, step)
    && s.currentMode.BufferOnly? && s.pendingModeSwitch != Some(Immediate) && !s.worker.Spawning?
    && s.recoveryTask.Some? && s.recoveryTask.value < |s.tasks| && LiveRecovery(s.tasks[s.recoveryTask.value])
    && (forall t | 0 <= t < |s.tasks| && t != s.recoveryTask.value :: !LiveRecovery(s.tasks[t]))
    && !AnyCarries(s.tasks) && HistoricalUploadComplete(true) !in s.buf.events
  }

  // ---- what one task step changes ----

  predicate Cancels(s: State, t: nat, step: TaskStep)
    requires CanTask(s, t, step)
  {
    && step.Deliver? && s.tasks[t].pc.events != [] && s.tasks[t].pc.events[0] == HistoricalUploadComplete(true)
    && !s.tasks[t].pc.phase.Schedule?
  }

  predicate Schedules(s: State, t: nat, step: TaskStep)
    requires CanTask(s, t, step)
  {
    && step.Deliver? && s.tasks[t].pc.events != [] && s.tasks[t].pc.events[0] == HistoricalUploadComplete(true)
    && s.tasks[t].pc.phase.Schedule?
  }

  /** Abort flags are raised by cancels only, and on the known recovery task only. */
  predicate TasksKept(s: State, s': State, t: nat, cancels: bool) {
    && |s'.tasks| == |s.tasks|
    && (forall u | 0 <= u < |s.tasks| ::
          && s'.tasks[u].kind == s.tasks[u].kind
          && (u != t ==> s'.tasks[u].pc == s.tasks[u].pc)
          && s'.tasks[u].aborted == (s.tasks[u].aborted || (cancels && s.recoveryTask == Some(u))))
  }

  lemma DeliverKeeps(s: State, t: nat)
    requires CanTask(s, t, Deliver) && NoBoundedTask(s.tasks[t])
    ensures var s' := DoTask(s, t, Deliver);
            && TasksKept(s, s', t, Cancels(s, t, Deliver))
            && s'.pendingModeSwitch == (if Schedules(s, t, Deliver) then Some(Immediate) else s.pendingModeSwitch)
            && s'.buf.events == s.buf.events
  {
    var pc := s.tasks[t].pc;
    if pc.events == [] {
      DeliverEnd(s, t);
    } else if Cancels(s, t, Deliver) {
      DeliverCancel(s, t);
    } else if pc.events[0] == HistoricalUploadComplete(true) {
      DeliverSchedule(s, t);
    } else {
      assert pc.events[0] == UploadError;
      DeliverError(s, t);
    }
  }

  lemma DeliverEnd(s: State, t: nat)
    requires t < |s.tasks| && s.tasks[t].pc.Delivering? && s.tasks[t].pc.events == []
    ensures var s' := DeliverNext(s, t);
            && TasksKept(s, s', t, false) && s'.pendingModeSwitch == s.pendingModeSwitch
               && s'.buf.events == s.buf.events
            && s'.tasks[t].pc == Finished
  {
    hide Cancel;
  }

  lemma DeliverError(s: State, t: nat)
    requires t < |s.tasks| && s.tasks[t].pc.Delivering? && s.tasks[t].pc.events != []
             && s.tasks[t].pc.events[0] == UploadError
    ensures var s' := DeliverNext(s, t);
            && TasksKept(s, s', t, false) && s'.pendingModeSwitch == s.pendingModeSwitch
               && s'.buf.events == s.buf.events
            && s'.tasks[t].pc == Delivering(s.tasks[t].pc.events[1..], CancelFirst)
  {
    hide Cancel, Release;
  }

  lemma DeliverSchedule(s: State, t: nat)
    requires t < |s.tasks| && s.tasks[t].pc.Delivering? && s.tasks[t].pc.events != []
             && s.tasks[t].pc.events[0] == HistoricalUploadComplete(true)
    requires s.tasks[t].pc.phase.Schedule?
    ensures var s' := DeliverNext(s, t);
            && TasksKept(s, s', t, false) && s'.pendingModeSwitch == Some(Immediate) && s'.buf.events == s.buf.events
            && s'.tasks[t].pc == Delivering(s.tasks[t].pc.events, CancelAgain)
  {
    hide Cancel, Release;
  }

  lemma DeliverCancel(s: State, t: nat)
    requires t < |s.tasks| && s.tasks[t].pc.Delivering? && s.tasks[t].pc.events != []
             && s.tasks[t].pc.events[0] == HistoricalUploadComplete(true)
    requires !s.tasks[t].pc.phase.Schedule?
    ensures var s' := DeliverNext(s, t);
            && TasksKept(s, s', t, true) && s'.pendingModeSwitch == s.pendingModeSwitch && s'.buf.events == s.buf.events
            && s'.tasks[t].pc == (if s.tasks[t].pc.phase.CancelFirst? then Delivering(s.tasks[t].pc.events, Schedule)
                                  else Delivering(s.tasks[t].pc.events[1..], CancelFirst))
            && s'.recoveryTask == None
  {
    hide Release;
  }

  lemma OtherKeeps(s: State, t: nat, step: TaskStep)
    requires CanTask(s, t, step) && !step.Deliver?
    ensures var s' := DoTask(s, t, step);
            && TasksKept(s, s', t, false) && s'.pendingModeSwitch == s.pendingModeSwitch
  {
    hide HoldsBuffer, Found, B.Selected;
  }

  // ---- one step ----

  lemma LiveStays(s: State, s': State, t: nat, cancels: bool, u: nat)
    requires TasksKept(s, s', t, cancels) && u < |s.tasks| && LiveRecovery(s.tasks[u])
    requires u != t && !(cancels && s.recoveryTask == Some(u))
    ensures AnyLive(s'.tasks)
  {
    assert LiveRecovery(s'.tasks[u]);
  }

  lemma CarriesStays(s: State, s': State, t: nat, cancels: bool, u: nat)
    requires TasksKept(s, s', t, cancels) && u < |s.tasks| && Carries(s.tasks[u]) && u != t
    ensures AnyCarries(s'.tasks)
  {
    assert Carries(s'.tasks[u]);
  }

  lemma ReaderStays(s: State, s': State, t: nat, cancels: bool, u: nat)
    requires TasksKept(s, s', t, cancels) && u < |s.tasks| && AboutToDrain(s.tasks[u]) && u != t
    ensures AnyReader(s'.tasks)
  {
    assert AboutToDrain(s'.tasks[u]);
  }

  /** What a trigger of a kind reports: going live, unless it has an end. */
  function CompletionOf(k: Kind): Event { HistoricalUploadComplete(NoBoundedKind(k)) }

  /** Where the acting task goes, and what it leaves in the channel, when it does not deliver. */
  predicate Moves(s: State, s': State, t: nat, step: TaskStep)
    requires CanTask(s, t, step) && t < |s'.tasks|
  {
    && (if step.Drain? then s'.buf.events == [] && s'.tasks[t].pc == Delivering(s.buf.events, CancelFirst)
        else !s'.tasks[t].pc.Delivering? && s.buf.events <= s'.buf.events)
    && (forall e | e in s'.buf.events :: e in s.buf.events || e == UploadError
          || (step.CompleteTrigger? && e == CompletionOf(s.tasks[t].kind)))
    && (step.CompleteTrigger? ==> AboutToDrain(s'.tasks[t]) && CompletionOf(s.tasks[t].kind) in s'.buf.events)
    && (AboutToDrain(s.tasks[t]) && !step.Drain? ==> AboutToDrain(s'.tasks[t]))
    && (LiveRecovery(s.tasks[t]) && !step.CompleteTrigger? ==> LiveRecovery(s'.tasks[t]))
  }

  lemma SelectMoves(s: State, t: nat, step: TaskStep)
    requires CanTask(s, t, step) && (step.Select? || step.FailTrigger?)
    ensures |DoTask(s, t, step).tasks| == |s.tasks| && Moves(s, DoTask(s, t, step), t, step)
  {
    hide HoldsBuffer, Found, B.Selected;
  }

  lemma PassEvents(s: State, t: nat, step: TaskStep)
    requires CanTask(s, t, step) && (step.FailFile? || step.FinishFile?)
    ensures |DoTask(s, t, step).tasks| == |s.tasks| && Moves(s, DoTask(s, t, step), t, step)
  {
    assert DoTask(s, t, step).buf.events == s.buf.events + if step.FailFile? then [UploadError] else [];
    hide HoldsBuffer, Found, B.RecordPass;
  }

  lemma OtherMoves(s: State, t: nat, step: TaskStep)
    requires CanTask(s, t, step) && !step.Deliver?
    ensures |DoTask(s, t, step).tasks| == |s.tasks| && Moves(s, DoTask(s, t, step), t, step)
  {
    hide HoldsBuffer, Found, B.Selected;
    if step.Select? || step.FailTrigger? {
      SelectMoves(s, t, step);
    } else if step.FailFile? || step.FinishFile? {
      PassEvents(s, t, step);
    } else if step.CompleteTrigger? {
      CompleteMoves(s, t);
    }
  }

  lemma CompleteMoves(s: State, t: nat)
    requires CanTask(s, t, CompleteTrigger)
    ensures |DoTask(s, t, CompleteTrigger).tasks| == |s.tasks|
            && Moves(s, DoTask(s, t, CompleteTrigger), t, CompleteTrigger)
  {
    var done := CompletionOf(s.tasks[t].kind);
    assert (s.buf.events + [done])[|s.buf.events|] == done;
  }

  /** A live recovery task stays one, or is about to drain the completion it reports. */
  lemma LiveMoves(s: State, t: nat, step: TaskStep)
    requires CanTask(s, t, step) && !step.Deliver? && AnyLive(s.tasks)
    ensures var s' := DoTask(s, t, step);
            AnyLive(s'.tasks) || (HistoricalUploadComplete(true) in s'.buf.events && AnyReader(s'.tasks))
  {
    OtherKeeps(s, t, step);
    OtherMoves(s, t, step);
    var s' := DoTask(s, t, step);
    hide DoTask, CanTask;
    var u :| 0 <= u < |s.tasks| && LiveRecovery(s.tasks[u]);
    if u != t { LiveStays(s, s', t, false, u); }
    else if step.CompleteTrigger? { assert AboutToDrain(s'.tasks[t]); }
    else { assert LiveRecovery(s'.tasks[t]); }
  }

  /** What is in the channel stays there for a reader, or is in the reader's hand. */
  lemma EventMoves(s: State, t: nat, step: TaskStep)
    requires CanTask(s, t, step) && !step.Deliver? && HistoricalUploadComplete(true) in s.buf.events
             && AnyReader(s.tasks)
    ensures var s' := DoTask(s, t, step);
            AnyCarries(s'.tasks) || (HistoricalUploadComplete(true) in s'.buf.events && AnyReader(s'.tasks))
  {
    OtherKeeps(s, t, step);
    OtherMoves(s, t, step);
    var s' := DoTask(s, t, step);
    hide DoTask, CanTask;
    var u :| 0 <= u < |s.tasks| && AboutToDrain(s.tasks[u]);
    if step.Drain? { assert Carries(s'.tasks[t]); }
    else if u != t { ReaderStays(s, s', t, false, u); }
    else { assert AboutToDrain(s'.tasks[t]); }
  }

  lemma OtherRescued(s: State, t: nat, step: TaskStep)
    requires Unbounded(s) && CanTask(s, t, step) && !step.Deliver? && Rescued(s)
    ensures Rescued(DoTask(s, t, step))
  {
    var s' := DoTask(s, t, step);
    OtherKeeps(s, t, step);
    TaskLeavesFragments(s, t, step);
    if AnyLive(s.tasks) { LiveMoves(s, t, step); }
    if HistoricalUploadComplete(true) in s.buf.events && AnyReader(s.tasks) { EventMoves(s, t, step); }
    if u :| 0 <= u < |s.tasks| && Carries(s.tasks[u]) {
      assert u != t;
      CarriesStays(s, s', t, false, u);
    }
    hide DoTask, CanTask, AnyLive, AnyReader, Unbounded;
  }

  /** Delivering loses nothing, unless it is the second cancel and the task it aborts was all there was. */
  lemma DeliverRescued(s: State, t: nat)
    requires Unbounded(s) && Readers(s) && CanTask(s, t, Deliver) && s.currentMode.BufferOnly? && Rescued(s)
    requires !TakesLastRescuer(s, TaskDo(t, Deliver))
    ensures Rescued(DoTask(s, t, Deliver))
  {
    var s', cancels := DoTask(s, t, Deliver), Cancels(s, t, Deliver);
    assert NoBoundedTask(s.tasks[t]);
    DeliverKeeps(s, t);
    TaskLeavesFragments(s, t, Deliver);
    if Carries(s.tasks[t]) { OwnCarries(s, t); }
    if u :| 0 <= u < |s.tasks| && LiveRecovery(s.tasks[u]) && !(cancels && s.recoveryTask == Some(u)) {
      assert u != t;
      LiveStays(s, s', t, cancels, u);
    }
    if u :| 0 <= u < |s.tasks| && u != t && Carries(s.tasks[u]) {
      CarriesStays(s, s', t, cancels, u);
    }
    if u :| 0 <= u < |s.tasks| && AboutToDrain(s.tasks[u]) && HistoricalUploadComplete(true) in s.buf.events {
      assert u != t;
      ReaderStays(s, s', t, cancels, u);
    }
    hide DoTask, Unbounded;
  }

  lemma OwnCarries(s: State, t: nat)
    requires CanTask(s, t, Deliver) && NoBoundedTask(s.tasks[t]) && Carries(s.tasks[t])
    ensures Rescued(DoTask(s, t, Deliver))
  {
    var s', pc := DoTask(s, t, Deliver), s.tasks[t].pc;
    if pc.events[0] == UploadError {
      DeliverError(s, t);
      assert Carries(s'.tasks[t]);
    } else {
      assert pc.events[0] == HistoricalUploadComplete(true);
      if pc.phase.Schedule? { DeliverSchedule(s, t); }
      else { DeliverCancel(s, t); assert Carries(s'.tasks[t]); }
    }
  }

  lemma StrandedAfter(s: State, step: Step)
    requires Unbounded(s) && Can(s, step) && TakesLastRescuer(s, step)
    ensures Stranded(Do(s, step))
  {
    var t, s' := step.task, Do(s, step);
    assert NoBoundedTask(s.tasks[t]);
    DeliverKeeps(s, t);
    DeliverCancel(s, t);
    TaskLeavesFragments(s, t, Deliver);
    hide Do, DoTask, CanTask;
    assert s'.currentMode.BufferOnly? && s'.pendingModeSwitch != Some(Immediate) && !s'.worker.Spawning?;
    forall u | 0 <= u < |s'.tasks| ensures !LiveRecovery(s'.tasks[u]) && !Carries(s'.tasks[u]) {
      assert !Carries(s.tasks[u]);
    }
  }

  lemma RenderRescue(s: State, step: RenderStep)
    requires Unbounded(s) && CanRender(s, step)
    ensures var s' := DoRender(s, step);
            && Unbounded(s') && s'.worker == s.worker
            && (s'.pendingModeSwitch == s.pendingModeSwitch
                || (s'.pendingModeSwitch == None && s'.currentMode.Immediate?))
            && (s'.currentMode.BufferOnly? ==> s.currentMode.BufferOnly?)
  {
  }

  lemma RenderRescued(s: State, step: RenderStep)
    requires Unbounded(s) && CanRender(s, step) && !Stranded(s)
    ensures !Stranded(DoRender(s, step))
  {
    RenderLeavesDisk(s, step);
    RenderRescue(s, step);
    hide DoRender, CanRender, AnyLive, AnyCarries, AnyReader;
  }

  lemma WorkShape(s: State, step: WorkerStep)
    requires CanWork(s, step)
    ensures var s' := DoWork(s, step);
            && s'.pendingModeSwitch == s.pendingModeSwitch && s'.buf.events == s.buf.events && s'.render == s.render
            && s'.tasks == (if step.Spawn? then s.tasks + [Task(Recovery, Sleeping, false)] else s.tasks)
            && (s'.currentMode == s.currentMode || s'.worker.Spawning?)
            && (s.worker.Spawning? ==> step.Spawn?)
  {
    if step.Push? {
      PushedEvents(s.buf, s.worker.item.fragment, step.outcome, step.checkAt, step.createAt, step.sweep);
    }
    hide Pushed;
  }

  lemma MoreTasks(tasks: seq<Task>, task: Task)
    ensures AnyLive(tasks) || LiveRecovery(task) ==> AnyLive(tasks + [task])
    ensures AnyCarries(tasks) ==> AnyCarries(tasks + [task])
    ensures AnyReader(tasks) ==> AnyReader(tasks + [task])
  {
    var more := tasks + [task];
    assert more[|tasks|] == task;
    if u :| 0 <= u < |tasks| && LiveRecovery(tasks[u]) { assert LiveRecovery(more[u]); }
    if u :| 0 <= u < |tasks| && Carries(tasks[u]) { assert Carries(more[u]); }
    if u :| 0 <= u < |tasks| && AboutToDrain(tasks[u]) { assert AboutToDrain(more[u]); }
  }

  /** A failure that enters BufferOnly is committed to spawning a recovery task. */
  lemma WorkRescued(s: State, step: WorkerStep)
    requires CanWork(s, step) && !Stranded(s)
    ensures !Stranded(DoWork(s, step))
  {
    WorkShape(s, step);
    MoreTasks(s.tasks, Task(Recovery, Sleeping, false));
    hide DoWork, CanWork, AnyLive, AnyCarries, AnyReader;
  }

  lemma TaskRescued(s: State, t: nat, step: TaskStep)
    requires Unbounded(s) && Readers(s) && CanTask(s, t, step) && !Stranded(s)
    ensures Stranded(DoTask(s, t, step)) <==> TakesLastRescuer(s, TaskDo(t, step))
  {
    TaskLeavesFragments(s, t, step);
    if TakesLastRescuer(s, TaskDo(t, step)) {
      StrandedAfter(s, TaskDo(t, step));
    } else if s.currentMode.BufferOnly? {
      if step.Deliver? { DeliverRescued(s, t); } else { OtherRescued(s, t, step); }
    }
    hide DoTask, CanTask, TakesLastRescuer, Rescued;
  }

  // ---- the invariants along a run ----

  lemma TaskUnbounded(s: State, t: nat, step: TaskStep)
    requires Unbounded(s) && Readers(s) && CanTask(s, t, step)
    ensures Unbounded(DoTask(s, t, step)) && Readers(DoTask(s, t, step))
  {
    var s' := DoTask(s, t, step);
    TaskLeavesFragments(s, t, step);
    assert NoBoundedTask(s.tasks[t]);
    if step.Deliver? {
      DeliverKeeps(s, t);
      DeliverEvents(s, t);
      if u :| 0 <= u < |s.tasks| && AboutToDrain(s.tasks[u]) { ReaderStays(s, s', t, Cancels(s, t, step), u); }
    } else {
      OtherKeeps(s, t, step);
      OtherMoves(s, t, step);
      if step.CompleteTrigger? { assert AboutToDrain(s'.tasks[t]); }
      if u :| 0 <= u < |s.tasks| && AboutToDrain(s.tasks[u]) && !step.Drain? {
        if u == t { assert AboutToDrain(s'.tasks[t]); } else { ReaderStays(s, s', t, false, u); }
      }
    }
    hide DoTask, CanTask, AboutToDrain;
    forall u | 0 <= u < |s'.tasks| ensures NoBoundedTask(s'.tasks[u]) {
      assert NoBoundedTask(s.tasks[u]);
    }
  }

  lemma DeliverEvents(s: State, t: nat)
    requires CanTask(s, t, Deliver) && NoBoundedTask(s.tasks[t])
    ensures var s' := DoTask(s, t, Deliver);
            t < |s'.tasks| && NoBoundedTask(s'.tasks[t])
  {
    var pc := s.tasks[t].pc;
    if pc.events == [] { DeliverEnd(s, t); }
    else if pc.events[0] == UploadError { DeliverError(s, t); }
    else {
      assert pc.events[0] == HistoricalUploadComplete(true);
      if pc.phase.Schedule? { DeliverSchedule(s, t); } else { DeliverCancel(s, t); }
    }
    hide DoTask, DeliverNext;
  }

  lemma WorkUnbounded(s: State, step: WorkerStep)
    requires Unbounded(s) && Readers(s) && CanWork(s, step)
    ensures Unbounded(DoWork(s, step)) && Readers(DoWork(s, step))
  {
    WorkShape(s, step);
    MoreTasks(s.tasks, Task(Recovery, Sleeping, false));
    hide DoWork, CanWork, AnyReader;
  }

  predicate UnboundedStep(step: Step) { step.Trigger? ==> NoBoundedKind(step.kind) }

  lemma StepUnbounded(s: State, step: Step)
    requires Unbounded(s) && Readers(s) && Can(s, step) && UnboundedStep(step)
    ensures Unbounded(Do(s, step)) && Readers(Do(s, step))
  {
    hide DoRender, CanRender, DoWork, CanWork, DoTask, CanTask;
    match step
    case Render(r) => RenderRescue(s, r); RenderLeavesDisk(s, r); hide Unbounded;
    case Work(w) => WorkUnbounded(s, w);
    case TaskDo(t, x) => TaskUnbounded(s, t, x);
    case Trigger(kind) => MoreTasks(s.tasks, Task(kind, WantBuffer, false)); hide AnyReader;
  }

  lemma TriggerRescued(s: State, kind: Kind)
    requires !kind.Recovery? && !Stranded(s)
    ensures !Stranded(Do(s, Trigger(kind)))
  {
    MoreTasks(s.tasks, Task(kind, WantBuffer, false));
    hide AnyReader, AnyLive, AnyCarries;
  }

  /** No step strands the sink but the second cancel, and it does exactly when it takes the last rescuer. */
  lemma StrandsExactly(s: State, step: Step)
    requires Unbounded(s) && Readers(s) && Can(s, step) && !Stranded(s)
    ensures Stranded(Do(s, step)) <==> TakesLastRescuer(s, step)
  {
    hide Stranded, DoRender, CanRender, DoWork, CanWork, DoTask, CanTask;
    match step
    case Render(r) => RenderRescued(s, r);
    case Work(w) => WorkRescued(s, w);
    case TaskDo(t, x) => TaskRescued(s, t, x);
    case Trigger(kind) => TriggerRescued(s, kind);
  }

  // ---- whole runs ----

  predicate VisitsStranded(s: State, steps: seq<Step>)
    requires IsRun(s, steps)
    decreases |steps|
  {
    Stranded(s) || (steps != [] && VisitsStranded(Do(s, steps[0]), steps[1..]))
  }

  predicate LosesLastRescuer(s: State, steps: seq<Step>)
    requires IsRun(s, steps)
    decreases |steps|
  {
    steps != [] && (TakesLastRescuer(s, steps[0]) || LosesLastRescuer(Do(s, steps[0]), steps[1..]))
  }

  predicate NoBoundedTriggers(steps: seq<Step>) { forall i | 0 <= i < |steps| :: UnboundedStep(steps[i]) }

  lemma {:induction false} RunStrands(s: State, steps: seq<Step>)
    requires Unbounded(s) && Readers(s) && !Stranded(s) && IsRun(s, steps) && NoBoundedTriggers(steps)
    ensures VisitsStranded(s, steps) <==> LosesLastRescuer(s, steps)
    decreases |steps|
  {
    hide Unbounded, Readers, Stranded, TakesLastRescuer, Can, Do;
    if steps == [] {
    } else {
      var s', rest := Do(s, steps[0]), steps[1..];
      assert UnboundedStep(steps[0]);
      StrandsExactly(s, steps[0]);
      StepUnbounded(s, steps[0]);
      if !Stranded(s') {
        assert forall i | 0 <= i < |rest| :: rest[i] == steps[i + 1];
        RunStrands(s', rest);
      } else {
        assert VisitsStranded(s', rest);
      }
    }
  }

  lemma InitialRescue(b0: B.Buf)
    requires NewManager(b0)
    ensures Unbounded(Initial(Immediate, b0)) && Readers(Initial(Immediate, b0)) && !Stranded(Initial(Immediate, b0))
  {
  }

  /**
   Never stranded, exactly: a continuous-mode run without bounded triggers visits a state that is in
   BufferOnly with nothing under way to leave it, if and only if at some point the second cancel of a
   switch to Immediate is taken when the switch is used up and aborts the last recovery task.
   */
  lemma StrandedIffLastRescuerCancelled(b0: B.Buf, steps: seq<Step>)
    requires NewManager(b0) && IsRun(Initial(Immediate, b0), steps) && NoBoundedTriggers(steps)
    ensures VisitsStranded(Initial(Immediate, b0), steps) <==> LosesLastRescuer(Initial(Immediate, b0), steps)
  {
    InitialRescue(b0);
    RunStrands(Initial(Immediate, b0), steps);
  }

  /** What the code would have to check: at each second cancel the switch is still pending, or no task is known. */
  predicate CancelsInTime(s: State, steps: seq<Step>)
    requires IsRun(s, steps)
    decreases |steps|
  {
    steps == []
    || ((TrailingCancel(s, steps[0]) ==> s.pendingModeSwitch == Some(Immediate) || s.recoveryTask == None)
        && CancelsInTime(Do(s, steps[0]), steps[1..]))
  }

  lemma {:induction false} InTimeLosesNone(s: State, steps: seq<Step>)
    requires IsRun(s, steps) && CancelsInTime(s, steps)
    ensures !LosesLastRescuer(s, steps)
    decreases |steps|
  {
    hide Can, Do, TrailingCancel;
    if steps == [] {
    } else {
      InTimeLosesNone(Do(s, steps[0]), steps[1..]);
    }
  }

  /** With cancels in time the promise holds for every interleaving. */
  lemma NeverStranded(b0: B.Buf, steps: seq<Step>)
    requires NewManager(b0) && IsRun(Initial(Immediate, b0), steps) && NoBoundedTriggers(steps)
             && CancelsInTime(Initial(Immediate, b0), steps)
    ensures !VisitsStranded(Initial(Immediate, b0), steps)
  {
    StrandedIffLastRescuerCancelled(b0, steps);
    InTimeLosesNone(Initial(Immediate, b0), steps);
  }
}
