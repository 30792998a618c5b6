/**
 What a trigger does after its files are selected, over every run: one pass for each file, one completion that says
 whether to go live, and each event it takes out of the channel acted on in turn. The steps of the task are told
 apart by what they change, whatever the other actors do in between.
 */
module PipelineDelivery {
  import opened Wrappers
  import opened BufferEvents
  import opened Pipeline
  import opened PipelineAccounting
  import opened PipelineRecovery
  import opened PipelineTrace
  import opened BufferEffects
  import RecordLog
  import FileNames
  import Bytes
  import B = BufferModel

  // ---- one task among the others ----

  predicate SameTask(s: State, s': State, t: nat) {
    t < |s.tasks| <= |s'.tasks| && s'.tasks[t].pc == s.tasks[t].pc && s'.tasks[t].kind == s.tasks[t].kind
  }

  lemma TaskLeavesTask(s: State, u: nat, step: TaskStep, t: nat)
    requires CanTask(s, u, step) && u != t && t < |s.tasks|
    ensures SameTask(s, DoTask(s, u, step), t)
  {
    if step.Deliver? { DeliverShape(s, u); } else { OtherKeeps(s, u, step); }
    hide DoTask, CanTask;
  }

  lemma OthersKeepTask(s: State, step: Step, t: nat)
    requires Can(s, step) && t < |s.tasks| && !(step.TaskDo? && step.task == t)
    ensures SameTask(s, Do(s, step), t)
  {
    match step
    case Render(r) => RenderLeavesDisk(s, r); hide DoRender, CanRender;
    case Work(w) => WorkShape(s, w); hide DoWork, CanWork;
    case TaskDo(u, x) => TaskLeavesTask(s, u, x, t);
    case Trigger(_) =>
  }

  /** A task never goes away. */
  lemma {:induction false} TaskStays(s: State, steps: seq<Step>, t: nat)
    requires IsRun(s, steps) && t < |s.tasks|
    ensures t < |After(s, steps).tasks|
    decreases |steps|
  {
    hide Can, Do;
    if steps == [] {
    } else {
      StepKeepsTask(s, steps[0], t);
      TaskStays(Do(s, steps[0]), steps[1..], t);
    }
  }

  lemma StepKeepsTask(s: State, step: Step, t: nat)
    requires Can(s, step) && t < |s.tasks|
    ensures t < |Do(s, step).tasks|
  {
    if step.TaskDo? && step.task == t {
      if step.taskStep.Deliver? { DeliverShape(s, t); } else { OtherKeeps(s, t, step.taskStep); }
      hide DoTask, CanTask;
    } else {
      OthersKeepTask(s, step, t);
    }
  }

  /** Where a task is. */
  function PcOf(s: State, t: nat): Option<TaskPc> { if t < |s.tasks| then Some(s.tasks[t].pc) else None }

  /** A task that is somewhere else at the end takes a step; before its first one it is where it was. */
  lemma {:induction false} NextOwn(s: State, steps: seq<Step>, t: nat) returns (i: nat)
    requires IsRun(s, steps) && t < |s.tasks| && PcOf(After(s, steps), t) != PcOf(s, t)
    ensures i < |steps| && steps[i].TaskDo? && steps[i].task == t && SameTask(s, StateAt(s, steps, i), t)
    decreases |steps|
  {
    hide Can, Do;
    if steps[0].TaskDo? && steps[0].task == t {
      i := 0;
    } else {
      OthersKeepTask(s, steps[0], t);
      var j := NextOwn(Do(s, steps[0]), steps[1..], t);
      i := j + 1;
    }
  }

  lemma OwnAfter(s: State, steps: seq<Step>, n: nat, t: nat) returns (i: nat)
    requires IsRun(s, steps) && n <= |steps| && t < |StateAt(s, steps, n).tasks|
    requires PcOf(After(s, steps), t) != PcOf(StateAt(s, steps, n), t)
    ensures n <= i < |steps| && steps[i].TaskDo? && steps[i].task == t
    ensures SameTask(StateAt(s, steps, n), StateAt(s, steps, i), t)
    ensures CanTask(StateAt(s, steps, i), t, steps[i].taskStep)
    ensures StateAt(s, steps, i + 1) == DoTask(StateAt(s, steps, i), t, steps[i].taskStep)
  {
    hide CanTask, DoTask, StateAt, SameTask, PcOf;
    Suffix(s, steps, n);
    var k := NextOwn(StateAt(s, steps, n), steps[n..], t);
    i := n + k;
    Shift(s, steps, n, k);
    StepAt(s, steps, i);
  }

  // ---- acting on the events taken ----

  /** The task known as the recovery task, if there is one, is aborted and no longer known. */
  predicate Cancelled(s: State, s': State) {
    && s'.recoveryTask == None && |s'.tasks| == |s.tasks|
    && forall u | 0 <= u < |s.tasks| :: s'.tasks[u].aborted == (s.tasks[u].aborted || s.recoveryTask == Some(u))
  }

  /** Neither the switch that is scheduled nor a recovery task is touched. */
  predicate Undisturbed(s: State, s': State) {
    s'.pendingModeSwitch == s.pendingModeSwitch && s'.recoveryTask == s.recoveryTask && |s'.tasks| == |s.tasks|
    && forall u | 0 <= u < |s.tasks| :: s'.tasks[u].aborted == s.tasks[u].aborted
  }

  lemma StepOnError(s: State, t: nat)
    requires t < |s.tasks| && s.tasks[t].pc.Delivering? && s.tasks[t].pc.events != []
    requires s.tasks[t].pc.events[0] == UploadError
    ensures var s' := DeliverNext(s, t);
            Undisturbed(s, s') && PcOf(s', t) == Some(Delivering(s.tasks[t].pc.events[1..], CancelFirst))
  {
    hide Cancel, Release;
  }

  lemma StepOnBounded(s: State, t: nat)
    requires t < |s.tasks| && s.tasks[t].pc.Delivering? && s.tasks[t].pc.events != []
    requires s.tasks[t].pc.events[0] == HistoricalUploadComplete(false)
    ensures var s' := DeliverNext(s, t);
            && s'.pendingModeSwitch == Some(BufferOnly) && s'.recoveryTask == s.recoveryTask
            && PcOf(s', t) == Some(Delivering(s.tasks[t].pc.events[1..], CancelFirst))
  {
    hide Cancel, Release;
  }

  lemma StepOnLive(s: State, t: nat)
    requires t < |s.tasks| && s.tasks[t].pc.Delivering? && s.tasks[t].pc.events != []
    requires s.tasks[t].pc.events[0] == HistoricalUploadComplete(true)
    ensures var s', pc := DeliverNext(s, t), s.tasks[t].pc;
            match pc.phase
            case CancelFirst =>
              Cancelled(s, s') && s'.pendingModeSwitch == s.pendingModeSwitch
              && PcOf(s', t) == Some(Delivering(pc.events, Schedule))
            case Schedule =>
              s'.pendingModeSwitch == Some(Immediate) && s'.recoveryTask == s.recoveryTask
              && PcOf(s', t) == Some(Delivering(pc.events, CancelAgain))
            case CancelAgain =>
              Cancelled(s, s') && s'.pendingModeSwitch == s.pendingModeSwitch
              && PcOf(s', t) == Some(Delivering(pc.events[1..], CancelFirst))
  {
    hide Release;
  }

  /** The task's own i-th step of the run leaves everything alone, schedules a mode, or cancels. */
  predicate IgnoresAt(s: State, steps: seq<Step>, t: nat, i: nat)
    requires IsRun(s, steps)
  {
    i < |steps| && steps[i] == TaskDo(t, Deliver) && Undisturbed(StateAt(s, steps, i), StateAt(s, steps, i + 1))
  }

  predicate SchedulesAt(s: State, steps: seq<Step>, t: nat, i: nat, mode: Mode)
    requires IsRun(s, steps)
  {
    i < |steps| && steps[i] == TaskDo(t, Deliver) && StateAt(s, steps, i + 1).pendingModeSwitch == Some(mode)
  }

  predicate CancelsAt(s: State, steps: seq<Step>, t: nat, i: nat)
    requires IsRun(s, steps)
  {
    i < |steps| && steps[i] == TaskDo(t, Deliver) && Cancelled(StateAt(s, steps, i), StateAt(s, steps, i + 1))
  }

  /**
   How an event is acted on between two states of a run: an error not at all; a completion with an end schedules
   buffering; one without cancels the recovery task, schedules going live, and cancels again.
   */
  predicate ActedOn(s: State, steps: seq<Step>, t: nat, event: Event, lo: nat, hi: nat)
    requires IsRun(s, steps)
  {
    match event
    case UploadError => exists i: nat :: lo <= i < hi && IgnoresAt(s, steps, t, i)
    case HistoricalUploadComplete(live) =>
      if !live then exists i: nat :: lo <= i < hi && SchedulesAt(s, steps, t, i, BufferOnly)
      else exists i: nat, j: nat, k: nat :: lo <= i < j < k < hi
             && CancelsAt(s, steps, t, i) && SchedulesAt(s, steps, t, j, Immediate) && CancelsAt(s, steps, t, k)
  }

  lemma DeliverIsNext(s: State, t: nat, step: TaskStep)
    requires CanTask(s, t, step) && s.tasks[t].pc.Delivering?
    ensures step == Deliver && DoTask(s, t, step) == DeliverNext(s, t)
  {
    hide Found;
  }

  /** A task that finishes has acted on the first event in its hand, and goes on with the next one. */
  lemma FirstIsActedOn(s: State, steps: seq<Step>, n: nat, t: nat) returns (m: nat)
    requires IsRun(s, steps) && n <= |steps| && t < |StateAt(s, steps, n).tasks|
    requires var pc := StateAt(s, steps, n).tasks[t].pc; pc.Delivering? && pc.phase.CancelFirst? && pc.events != []
    requires PcOf(After(s, steps), t) == Some(Finished)
    ensures var events := StateAt(s, steps, n).tasks[t].pc.events;
            && n < m <= |steps| && ActedOn(s, steps, t, events[0], n, m)
            && PcOf(StateAt(s, steps, m), t) == Some(Delivering(events[1..], CancelFirst))
  {
    hide IsRun, StateAt, CanTask, DoTask, DeliverNext, Cancelled, Undisturbed;
    var event := StateAt(s, steps, n).tasks[t].pc.events[0];
    var i := OwnAfter(s, steps, n, t);
    DeliverIsNext(StateAt(s, steps, i), t, steps[i].taskStep);
    match event {
      case UploadError =>
        StepOnError(StateAt(s, steps, i), t);
        assert IgnoresAt(s, steps, t, i);
        m := i + 1;
      case HistoricalUploadComplete(live) =>
        if live {
          StepOnLive(StateAt(s, steps, i), t);
          m := GoesLive(s, steps, n, i, t);
        } else {
          StepOnBounded(StateAt(s, steps, i), t);
          assert SchedulesAt(s, steps, t, i, BufferOnly);
          m := i + 1;
        }
    }
  }

  lemma GoesLive(s: State, steps: seq<Step>, n: nat, i: nat, t: nat) returns (m: nat)
    requires IsRun(s, steps) && n <= i < |steps| && t < |StateAt(s, steps, i + 1).tasks|
    requires CancelsAt(s, steps, t, i)
    requires var pc := StateAt(s, steps, i + 1).tasks[t].pc;
             pc.Delivering? && pc.phase.Schedule? && pc.events != [] && pc.events[0] == HistoricalUploadComplete(true)
    requires PcOf(After(s, steps), t) == Some(Finished)
    ensures var events := StateAt(s, steps, i + 1).tasks[t].pc.events;
            && n < m <= |steps| && ActedOn(s, steps, t, HistoricalUploadComplete(true), n, m)
            && PcOf(StateAt(s, steps, m), t) == Some(Delivering(events[1..], CancelFirst))
  {
    hide IsRun, StateAt, CanTask, DoTask, DeliverNext, Cancelled;
    var j := OwnAfter(s, steps, i + 1, t);
    DeliverIsNext(StateAt(s, steps, j), t, steps[j].taskStep);
    StepOnLive(StateAt(s, steps, j), t);
    var k := OwnAfter(s, steps, j + 1, t);
    DeliverIsNext(StateAt(s, steps, k), t, steps[k].taskStep);
    StepOnLive(StateAt(s, steps, k), t);
    assert SchedulesAt(s, steps, t, j, Immediate) && CancelsAt(s, steps, t, k);
    m := k + 1;
  }

  /** A task that finishes has acted on every event it took, in the order in which it took them. */
  lemma {:induction false} EventsAreActedOn(s: State, steps: seq<Step>, t: nat, k: nat) returns (n: nat, m: nat)
    requires IsRun(s, steps) && t < |s.tasks| && s.tasks[t].pc.Delivering? && s.tasks[t].pc.phase.CancelFirst?
    requires k < |s.tasks[t].pc.events| && PcOf(After(s, steps), t) == Some(Finished)
    ensures var events := s.tasks[t].pc.events;
            && n < m <= |steps| && ActedOn(s, steps, t, events[k], n, m)
            && PcOf(StateAt(s, steps, n), t) == Some(Delivering(events[k..], CancelFirst))
            && PcOf(StateAt(s, steps, m), t) == Some(Delivering(events[k + 1..], CancelFirst))
    decreases k
  {
    var events := s.tasks[t].pc.events;
    assert StateAt(s, steps, 0) == s;
    hide IsRun, StateAt, ActedOn;
    if k == 0 {
      n := 0;
      assert events[0..] == events;
    } else {
      var before;
      before, n := EventsAreActedOn(s, steps, t, k - 1);
      assert events[k..][0] == events[k];
    }
    m := FirstIsActedOn(s, steps, n, t);
    assert events[k..][1..] == events[k + 1..];
  }

  // ---- the beginning of an upload, and the end of a file ----

  /**
   The selection: of a recovery task and of a call it has no bounds, of a signal an end exactly when it asked for one.
   The open file is closed first; the paths are those of the uploadable entries; and when there are any a new, empty
   file is opened.
   */
  lemma SelectStep(s: State, t: nat, start: Option<int>, end: Option<int>, createAt: nat)
    requires CanTask(s, t, Select(start, end, createAt))
    ensures var s', kind := DoTask(s, t, Select(start, end, createAt)), s.tasks[t].kind;
            && (!kind.Signal? ==> start.None? && end.None?) && (end.Some? <==> kind == Signal(true))
            && t < |s'.tasks| && s'.tasks[t].pc.Uploading? && s'.tasks[t].pc.next == 0
            && ClosedTo(s.buf, s'.buf.files)
            && (forall p :: p in s'.tasks[t].pc.paths <==>
                  exists i | 0 <= i < |s'.buf.files| ::
                    s'.buf.files[i].path == p && Uploadable(s'.buf.files[i], start, end))
            && (s'.tasks[t].pc.paths == [] ==> s'.buf.current.None? && s'.buf.disk == s.buf.disk)
            && (s'.tasks[t].pc.paths != [] ==>
                  && s'.buf.current.Some? && s'.buf.current.value.path == NameAt(s.buf.stream, createAt)
                  && s'.buf.disk == s.buf.disk[NameAt(s.buf.stream, createAt) := []])
  {
    var b := B.Finalize(s.buf);
    FileNames.FileNameIs(b.stream, createAt / Bytes.NS_PER_MS);
    forall p ensures p in B.Selected(b.files, start, end) <==>
                     exists i | 0 <= i < |b.files| :: b.files[i].path == p && Uploadable(b.files[i], start, end)
    {
      SelectedIff(b.files, start, end, p);
    }
    hide Uploadable, B.Selected, FileNames.FileName, Found;
  }

  /**
   A file is marked only when it is there, was read to its end, and every record of it was put; then it is deleted, if
   that works.
   */
  lemma FinishStep(s: State, t: nat, removed: bool, i: nat)
    requires CanTask(s, t, FinishFile(removed)) && FirstAt(s.buf.files, s.tasks[t].pc.paths[0], i)
    ensures var s', path := DoTask(s, t, FinishFile(removed)), s.tasks[t].pc.paths[0];
            && path in s.buf.disk && !RecordLog.ReadAll(s.buf.disk[path]).panicked
            && s.tasks[t].pc.next == |RecordLog.ReadAll(s.buf.disk[path]).fragments|
            && |s'.buf.files| == |s.buf.files| && s'.buf.files[i] == s.buf.files[i].(uploaded := true)
            && s'.buf.disk == (if removed then s.buf.disk - {path} else s.buf.disk)
            && s'.buf.events == s.buf.events && t < |s'.tasks|
            && s'.tasks[t].pc == Uploading(s.tasks[t].pc.paths[1..], 0)
  {
    var path := s.tasks[t].pc.paths[0];
    PassEffect(s.buf, B.Pass(path, Found(s.buf, path), true), removed, i);
    hide RecordLog.ReadAll;
  }

  /** A file whose pass fails is kept and its attempts counted, one error is sent, and the next file is taken. */
  lemma FailStep(s: State, t: nat, i: nat)
    requires CanTask(s, t, FailFile) && FirstAt(s.buf.files, s.tasks[t].pc.paths[0], i)
    ensures var s' := DoTask(s, t, FailFile);
            && |s'.buf.files| == |s.buf.files|
            && s'.buf.files[i] == s.buf.files[i].(attempts := s.buf.files[i].attempts + 1)
            && s'.buf.disk == s.buf.disk && s'.buf.events == s.buf.events + [UploadError] && t < |s'.tasks|
            && s'.tasks[t].pc == Uploading(s.tasks[t].pc.paths[1..], 0)
  {
    var path := s.tasks[t].pc.paths[0];
    PassEffect(s.buf, B.Pass(path, Found(s.buf, path)[..s.tasks[t].pc.next], false), false, i);
    hide Found;
  }

  // ---- the end of an upload ----

  /** Of the task's steps none is its death by an abort. */
  predicate NotAborted(steps: seq<Step>, t: nat) { TaskDo(t, Die) !in steps }

  lemma CompleteStep(s: State, t: nat, step: TaskStep)
    requires CanTask(s, t, step) && s.tasks[t].pc.Uploading? && s.tasks[t].pc.paths == [] && !step.Die?
    ensures var s', kind := DoTask(s, t, step), s.tasks[t].kind;
            && s'.buf.events == s.buf.events + [HistoricalUploadComplete(kind != Signal(true))]
            && s'.buf.current.None? && s'.buf.files == s.buf.files && s'.buf.disk == s.buf.disk
            && PcOf(s', t) == Some(if kind == Recovery then ClearingHandle else Draining)
            && s'.tasks[t].kind == kind
            && s'.bufferOwner == if kind == Api && s.bufferOwner == Some(t) then None else s.bufferOwner
  {
    hide Found;
  }

  lemma ForgetStep(s: State, t: nat, step: TaskStep)
    requires CanTask(s, t, step) && s.tasks[t].pc.ClearingHandle?
    ensures DoTask(s, t, step).recoveryTask == None && PcOf(DoTask(s, t, step), t) == Some(Draining)
  {
    hide Found;
  }

  lemma DrainStep(s: State, t: nat, step: TaskStep)
    requires CanTask(s, t, step) && s.tasks[t].pc.Draining?
    ensures DoTask(s, t, step).buf.events == []
    ensures PcOf(DoTask(s, t, step), t) == Some(Delivering(s.buf.events, CancelFirst))
  {
    hide Found;
  }

  /**
   An upload that got through its files: the open file is let go of and one completion is sent, which says to go
   live unless the trigger had an end; a recovery task forgets the known handle; and then every event in the channel is
   taken out, to be acted on.
   */
  lemma UploadIsReported(s: State, steps: seq<Step>, t: nat) returns (i: nat, c: nat, d: nat)
    requires IsRun(s, steps) && t < |s.tasks| && s.tasks[t].pc.Uploading? && s.tasks[t].pc.paths == []
    requires NotAborted(steps, t) && PcOf(After(s, steps), t) == Some(Finished)
    ensures i <= c < d < |steps|
    ensures var kind := s.tasks[t].kind;
            && StateAt(s, steps, i + 1).buf.events
               == StateAt(s, steps, i).buf.events + [HistoricalUploadComplete(kind != Signal(true))]
            && StateAt(s, steps, i + 1).buf.current.None?
            && (kind == Recovery ==> i < c && StateAt(s, steps, c + 1).recoveryTask == None)
            && StateAt(s, steps, d + 1).buf.events == []
            && PcOf(StateAt(s, steps, d + 1), t) == Some(Delivering(StateAt(s, steps, d).buf.events, CancelFirst))
  {
    assert StateAt(s, steps, 0) == s;
    hide IsRun, StateAt, CanTask, DoTask;
    i := OwnAfter(s, steps, 0, t);
    assert !steps[i].taskStep.Die? by { assert steps[i] in steps; }
    hide NotAborted;
    CompleteStep(StateAt(s, steps, i), t, steps[i].taskStep);
    c := i;
    if s.tasks[t].kind == Recovery {
      c := OwnAfter(s, steps, i + 1, t);
      ForgetStep(StateAt(s, steps, c), t, steps[c].taskStep);
    }
    d := OwnAfter(s, steps, c + 1, t);
    DrainStep(StateAt(s, steps, d), t, steps[d].taskStep);
  }

  /** A trigger that fails has closed the open file and gives the buffer back; a recovery task will try again. */
  lemma FailedTriggerRetries(s: State, t: nat)
    requires CanTask(s, t, FailTrigger) && s.bufferOwner == Some(t)
    ensures var s' := DoTask(s, t, FailTrigger);
            && s'.bufferOwner == None && s'.buf.current.None? && s'.buf.disk == s.buf.disk
            && |s'.buf.files| == |s.buf.files| + (if s.buf.current.Some? then 1 else 0)
            && PcOf(s', t) == Some(if s.tasks[t].kind == Recovery then Sleeping else Finished)
            && s'.tasks[t].aborted == s.tasks[t].aborted && s'.recoveryTask == s.recoveryTask
  {
  }

  // ---- one pass for each file ----

  /** The task is uploading all along. */
  predicate Uploads(s: State, steps: seq<Step>, t: nat)
    requires IsRun(s, steps)
    decreases |steps|
  {
    t < |s.tasks| && s.tasks[t].pc.Uploading? && (steps == [] || Uploads(Do(s, steps[0]), steps[1..], t))
  }

  /** The files of the passes made since, in order. */
  function PassedSince(b: B.Buf, b': B.Buf): seq<string>
    requires |b.passes| <= |b'.passes|
  {
    seq(|b'.passes| - |b.passes|, i requires 0 <= i < |b'.passes| - |b.passes| => b'.passes[|b.passes| + i].path)
  }

  /** One step: no other actor touches the buffer, and the task makes a pass over the first file left, or none. */
  lemma UploadStep(s: State, step: Step, t: nat)
    requires Ordered(s) && Base(s) && Can(s, step) && t < |s.tasks| && s.tasks[t].pc.Uploading?
    requires t < |Do(s, step).tasks| && Do(s, step).tasks[t].pc.Uploading?
    ensures var b, b', left, left' := s.buf, Do(s, step).buf, s.tasks[t].pc.paths, Do(s, step).tasks[t].pc.paths;
            || (b'.passes == b.passes && left' == left)
            || (left != [] && left' == left[1..] && |b'.passes| == |b.passes| + 1 && b.passes <= b'.passes
                && b'.passes[|b.passes|].path == left[0])
  {
    assert HoldsBuffer(s.tasks[t]) <==> s.bufferOwner == Some(t);
    hide Ordered, Base;
    match step
    case Render(r) => RenderLeavesDisk(s, r); hide DoRender, CanRender;
    case Work(w) => WorkKeepsBuffer(s, w); WorkShape(s, w); hide DoWork;
    case TaskDo(u, x) =>
      if u == t { OwnUpload(s, t, x); hide DoTask, CanTask; } else { OtherUpload(s, u, x, t); hide DoTask, CanTask; }
    case Trigger(_) =>
  }

  lemma OwnUpload(s: State, t: nat, step: TaskStep)
    requires CanTask(s, t, step) && s.tasks[t].pc.Uploading? && PcOf(DoTask(s, t, step), t).value.Uploading?
    requires t < |DoTask(s, t, step).tasks|
    ensures var b, b', left := s.buf, DoTask(s, t, step).buf, s.tasks[t].pc.paths;
            var left' := DoTask(s, t, step).tasks[t].pc.paths;
            || (b'.passes == b.passes && left' == left)
            || (left != [] && left' == left[1..] && |b'.passes| == |b.passes| + 1 && b.passes <= b'.passes
                && b'.passes[|b.passes|].path == left[0])
  {
    hide Found, B.MarkUploaded, B.MarkFailed;
  }

  lemma OtherUpload(s: State, u: nat, step: TaskStep, t: nat)
    requires Exclusive(s) && CanTask(s, u, step) && u != t && t < |s.tasks| && s.tasks[t].pc.Uploading?
    ensures DoTask(s, u, step).buf.passes == s.buf.passes && SameTask(s, DoTask(s, u, step), t)
  {
    TaskLeavesTask(s, u, step, t);
    assert HoldsBuffer(s.tasks[t]) <==> s.bufferOwner == Some(t);
    assert HoldsBuffer(s.tasks[u]) <==> s.bufferOwner == Some(u);
    hide Found, B.RecordPass, B.Selected;
    if step.Deliver? { DeliverShape(s, u); hide DeliverNext; }
  }

  /** While a task uploads, exactly the files it is through with got a pass, one each, in the order of the selection. */
  lemma {:induction false} OnePassPerFile(s: State, steps: seq<Step>, t: nat)
    requires Ordered(s) && Base(s) && IsRun(s, steps) && Uploads(s, steps, t)
    ensures var s' := After(s, steps);
            && t < |s'.tasks| && s'.tasks[t].pc.Uploading? && |s.buf.passes| <= |s'.buf.passes|
            && s.tasks[t].pc.paths == PassedSince(s.buf, s'.buf) + s'.tasks[t].pc.paths
    decreases |steps|
  {
    hide Ordered, Base, Can, Do;
    if steps == [] {
      assert PassedSince(s.buf, s.buf) == [];
    } else {
      var s1, s' := Do(s, steps[0]), After(s, steps);
      UploadStep(s, steps[0], t);
      StepKeeps(s, steps[0]);
      OnePassPerFile(s1, steps[1..], t);
      PassesGrow(s1, steps[1..]);
      hide PassedSince;
      PassedStep(s.buf, s1.buf, s'.buf);
    }
  }

  lemma PassedStep(b: B.Buf, b1: B.Buf, b': B.Buf)
    requires b.passes <= b1.passes <= b'.passes && |b1.passes| <= |b.passes| + 1
    ensures PassedSince(b, b')
            == (if |b1.passes| > |b.passes| then [b1.passes[|b.passes|].path] else []) + PassedSince(b1, b')
  {
  }

  lemma {:induction false} PassesGrow(s: State, steps: seq<Step>)
    requires IsRun(s, steps)
    ensures s.buf.passes <= After(s, steps).buf.passes
    decreases |steps|
  {
    hide Can, Do;
    if steps == [] {
    } else {
      StepGrows(s, steps[0]);
      PassesGrow(Do(s, steps[0]), steps[1..]);
    }
  }

  lemma StepGrows(s: State, step: Step)
    requires Can(s, step)
    ensures s.buf.passes <= Do(s, step).buf.passes
  {
    match step
    case Render(r) => RenderLeavesDisk(s, r); hide DoRender, CanRender;
    case Work(w) => WorkGrows(s, w);
    case TaskDo(t, x) => TaskGrows(s, t, x);
    case Trigger(_) =>
  }

  lemma WorkGrows(s: State, step: WorkerStep)
    requires CanWork(s, step)
    ensures DoWork(s, step).buf.passes == s.buf.passes
  {
    if step.Push? {
      var f := s.worker.item.fragment;
      var b1 := B.Attempt(s.buf, f, step.outcome, step.checkAt, step.createAt);
      assert b1.passes == s.buf.passes;
      hide B.Attempt;
      if step.sweep.Some? { CleanupHistory(b1, step.sweep.value.now, Removes(step.sweep.value.undeletable)); }
    } else {
      WorkKeepsBuffer(s, step);
    }
  }

  lemma TaskGrows(s: State, t: nat, step: TaskStep)
    requires CanTask(s, t, step)
    ensures s.buf.passes <= DoTask(s, t, step).buf.passes
  {
    hide Found, B.MarkUploaded, B.MarkFailed, B.Selected;
    if step.Deliver? { DeliverShape(s, t); hide DeliverNext; }
  }
}
