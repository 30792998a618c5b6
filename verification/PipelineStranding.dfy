/**
 The interleaving that strands the sink, as a concrete run, and what becomes of it: without a manual
 trigger it stays in BufferOnly for good and nothing is ever sent again.
 */
module PipelineStranding {
  import opened Wrappers
  import opened BufferEvents
  import opened Pipeline
  import opened PipelineAccounting
  import opened PipelineRecovery
  import RecordLog
  import B = BufferModel
  import BufferInvariant

  /** Nothing on the way can reach the uploader, fail there, or finish a trigger. */
  predicate Stuck(s: State) {
    && s.currentMode.BufferOnly? && s.pendingModeSwitch == None && s.buf.events == []
    && RenderBuffers(s.render) && WorkerBuffers(s.worker)
    && (forall i | 0 <= i < |s.queue| :: s.queue[i].mode.BufferOnly?)
    && (forall t | 0 <= t < |s.tasks| :: Spent(s.tasks[t]))
  }

  predicate RenderBuffers(pc: RenderPc) {
    match pc
    case Capturing(b) => b.newMode == None
    case Finalizing(b, mode) => b.newMode == None && mode.BufferOnly?
    case Sending(b, item) => b.newMode == None && item.mode.BufferOnly?
    case Counting(b, item) => b.newMode == None && item.mode.BufferOnly?
    case Switching(b) => b.newMode == None
    case _ => true
  }

  predicate WorkerBuffers(w: WorkerPc) {
    w.Idle? || w.Buffering? || ((w.ResettingSession? || w.ClearingFlag? || w.Dispatching?) && w.item.mode.BufferOnly?)
  }

  /** Finished, aborted in its sleep, or delivering nothing but errors. */
  predicate Spent(t: Task) {
    || t.pc.Finished?
    || (t.pc.Sleeping? && t.aborted)
    || (t.pc.Delivering? && forall i | 0 <= i < |t.pc.events| :: t.pc.events[i] == UploadError)
  }

  /** Nothing more was accepted, live or from a file. */
  predicate SameUploads(s: State, s': State) { s'.uploaded == s.uploaded && s'.sent == s.sent }

  lemma RenderStuck(s: State, step: RenderStep)
    requires Stuck(s) && CanRender(s, step)
    ensures Stuck(DoRender(s, step))
  {
  }

  lemma WorkStuck(s: State, step: WorkerStep)
    requires Stuck(s) && CanWork(s, step)
    ensures Stuck(DoWork(s, step)) && SameUploads(s, DoWork(s, step))
  {
    if step.Push? {
      PushedEvents(s.buf, s.worker.item.fragment, step.outcome, step.checkAt, step.createAt, step.sweep);
    }
    hide RenderBuffers, Spent, Pushed;
  }

  lemma TaskStuck(s: State, t: nat, step: TaskStep)
    requires Stuck(s) && CanTask(s, t, step)
    ensures Stuck(DoTask(s, t, step)) && SameUploads(s, DoTask(s, t, step))
  {
    var s' := DoTask(s, t, step);
    assert Spent(s.tasks[t]);
    TaskLeavesFragments(s, t, step);
    if step.Deliver? {
      DeliverShape(s, t);
      if s.tasks[t].pc.events == [] { DeliverEnd(s, t); } else { DeliverError(s, t); }
    } else {
      assert step.Die?;
      OtherKeeps(s, t, step);
    }
    hide CanTask, RenderBuffers, WorkerBuffers;
    forall u | 0 <= u < |s'.tasks| ensures Spent(s'.tasks[u]) {
      assert Spent(s.tasks[u]);
    }
  }

  /** Stuck for good: as long as nobody triggers an upload, nothing more is uploaded and the mode stays. */
  lemma {:induction false} OnlyATriggerHelps(s: State, steps: seq<Step>)
    requires Stuck(s) && IsRun(s, steps) && forall i | 0 <= i < |steps| :: !steps[i].Trigger?
    ensures Stuck(After(s, steps)) && SameUploads(s, After(s, steps))
    decreases |steps|
  {
    hide Stuck, DoRender, CanRender, DoWork, CanWork, DoTask, CanTask;
    if steps == [] {
    } else {
      assert !steps[0].Trigger?;
      match steps[0] {
        case Render(r) => RenderStuck(s, r); RenderLeavesDisk(s, r);
        case Work(w) => WorkStuck(s, w);
        case TaskDo(t, x) => TaskStuck(s, t, x);
      }
      assert forall i | 0 <= i < |steps[1..]| :: steps[1..][i] == steps[i + 1];
      OnlyATriggerHelps(Do(s, steps[0]), steps[1..]);
    }
  }

  // ---- the run that gets there ----

  ghost predicate Reaches(from: State, to: State) {
    exists steps: seq<Step> :: IsRun(from, steps) && NoBoundedTriggers(steps) && After(from, steps) == to
  }

  lemma ReachesItself(s: State)
    ensures Reaches(s, s)
  {
    assert IsRun(s, []) && NoBoundedTriggers([]) && After(s, []) == s;
  }

  lemma Take(from: State, s: State, step: Step)
    requires Reaches(from, s) && Can(s, step) && UnboundedStep(step)
    ensures Reaches(from, Do(s, step))
  {
    var steps: seq<Step> :| IsRun(from, steps) && NoBoundedTriggers(steps) && After(from, steps) == s;
    RunSnoc(from, steps, step);
    assert NoBoundedTriggers(steps + [step]);
  }

  /** Runs on an empty buffer, whose first fragment is f. */
  datatype Setting = Setting(b0: B.Buf, f: RecordLog.Fragment) {
    predicate Ok() { NewManager(b0) && b0.files == [] && BufferInvariant.Pushable(f) }

    function Start(): State { Initial(Immediate, b0) }

    function First(): Item { Item(0, 0, Immediate, false, f) }

    /** A trigger that found nothing to upload has the buffer. */
    function Holding(pc: TaskPc): State {
      Start().(bufferOwner := Some(0), tasks := [Task(Signal(false), pc, false)])
    }

    /** It has just scheduled the switch to Immediate, and the channel is drained. */
    function Scheduled(): State {
      Holding(Delivering([HistoricalUploadComplete(true)], CancelAgain)).(pendingModeSwitch := Some(Immediate))
    }

    /** The next keyframe used the switch up, behind the first fragment. */
    function UsedUp(): State {
      Scheduled().(pendingModeSwitch := None, queue := [First()], queued := [First()], nextId := 1, writerSession := 1,
                   pendingNewSession := true, sessionResetInFlight := true)
    }

    /** The network failed on that fragment, and a recovery task is under way. */
    function Recovering(): State {
      UsedUp().(currentMode := BufferOnly, queue := [], worker := Buffering(First()), recoveryTask := Some(1),
                tasks := [Scheduled().tasks[0], Task(Recovery, Sleeping, false)])
    }

    /** The trigger went on to its second cancel, and finished. */
    function Abandoned(): State {
      Recovering().(recoveryTask := None, bufferOwner := None,
                    tasks := [Task(Signal(false), Finished, false), Task(Recovery, Sleeping, true)])
    }
  }

  lemma TriggerHolds(g: Setting)
    requires g.Ok()
    ensures Reaches(g.Start(), g.Holding(Uploading([], 0)))
  {
    hide Reaches;
    var s := g.Start();
    ReachesItself(s);
    Take(s, s, Trigger(Signal(false)));
    var s1 := Do(s, Trigger(Signal(false)));
    assert s1 == s.(tasks := [Task(Signal(false), WantBuffer, false)]);
    Take(s, s1, TaskDo(0, Lock));
    assert Do(s1, TaskDo(0, Lock)) == g.Holding(Selecting);
    NothingSelected(g);
    hide CanTask, DoTask;
    Take(s, g.Holding(Selecting), TaskDo(0, Select(None, None, 0)));
  }

  lemma NothingSelected(g: Setting)
    requires g.Ok()
    ensures CanTask(g.Holding(Selecting), 0, Select(None, None, 0))
    ensures DoTask(g.Holding(Selecting), 0, Select(None, None, 0)) == g.Holding(Uploading([], 0))
  {
    assert B.Finalize(g.b0) == g.b0 && B.Selected(g.b0.files, None, None) == [];
  }

  lemma TriggerCompletes(g: Setting)
    requires g.Ok() && Reaches(g.Start(), g.Holding(Uploading([], 0)))
    ensures Reaches(g.Start(), g.Holding(Delivering([HistoricalUploadComplete(true)], CancelFirst)))
  {
    hide Reaches;
    var s, s0 := g.Start(), g.Holding(Uploading([], 0));
    Take(s, s0, TaskDo(0, CompleteTrigger));
    var s1 := Do(s0, TaskDo(0, CompleteTrigger));
    assert s1 == g.Holding(Draining).(buf := g.b0.(events := [HistoricalUploadComplete(true)]));
    Take(s, s1, TaskDo(0, Drain));
    assert Do(s1, TaskDo(0, Drain)) == g.Holding(Delivering([HistoricalUploadComplete(true)], CancelFirst));
  }

  lemma TriggerSchedules(g: Setting)
    requires g.Ok() && Reaches(g.Start(), g.Holding(Delivering([HistoricalUploadComplete(true)], CancelFirst)))
    ensures Reaches(g.Start(), g.Scheduled())
  {
    hide Reaches;
    var s, s0 := g.Start(), g.Holding(Delivering([HistoricalUploadComplete(true)], CancelFirst));
    Take(s, s0, TaskDo(0, Deliver));
    var s1 := Do(s0, TaskDo(0, Deliver));
    assert s1 == g.Holding(Delivering([HistoricalUploadComplete(true)], Schedule));
    Take(s, s1, TaskDo(0, Deliver));
    assert Do(s1, TaskDo(0, Deliver)) == g.Scheduled();
  }

  lemma KeyframeUsesItUp(g: Setting)
    requires g.Ok() && Reaches(g.Start(), g.Scheduled())
    ensures Reaches(g.Start(), g.UsedUp())
  {
    hide Reaches, BufferInvariant.Pushable;
    var s, s0 := g.Start(), g.Scheduled();
    Take(s, s0, Render(Decide(false)));
    var s1 := Do(s0, Render(Decide(false)));
    Take(s, s1, Render(Capture));
    var s2 := Do(s1, Render(Capture));
    Take(s, s2, Render(Finalize(Some(g.f))));
    var s3 := Do(s2, Render(Finalize(Some(g.f))));
    Take(s, s3, Render(TrySend(true)));
    var s4 := Do(s3, Render(TrySend(true)));
    Take(s, s4, Render(Switch));
    var s5 := Do(s4, Render(Switch));
    Take(s, s5, Render(BeginReset));
    assert Do(s5, Render(BeginReset)) == g.UsedUp();
  }

  lemma NetworkFails(g: Setting)
    requires g.Ok() && Reaches(g.Start(), g.UsedUp())
    ensures Reaches(g.Start(), g.Recovering())
  {
    hide Reaches, BufferInvariant.Pushable;
    var s, s0 := g.Start(), g.UsedUp();
    Take(s, s0, Work(Receive));
    var s1 := Do(s0, Work(Receive));
    Take(s, s1, Work(PutRefused(true)));
    var s2 := Do(s1, Work(PutRefused(true)));
    Take(s, s2, Work(CheckTask));
    var s3 := Do(s2, Work(CheckTask));
    Take(s, s3, Work(EnterBufferOnly));
    var s4 := Do(s3, Work(EnterBufferOnly));
    Take(s, s4, Work(Spawn));
    var s5 := Do(s4, Work(Spawn));
    Take(s, s5, Work(StoreHandle));
    assert Do(s5, Work(StoreHandle)) == g.Recovering();
  }

  lemma SecondCancelAborts(g: Setting)
    requires g.Ok() && Reaches(g.Start(), g.Recovering())
    ensures Reaches(g.Start(), g.Abandoned())
  {
    hide Reaches, BufferInvariant.Pushable;
    var s, s0 := g.Start(), g.Recovering();
    Take(s, s0, TaskDo(0, Deliver));
    var s1 := Do(s0, TaskDo(0, Deliver));
    Take(s, s1, TaskDo(0, Deliver));
    assert Do(s1, TaskDo(0, Deliver)) == g.Abandoned();
  }

  /**
   The promise fails: one manual trigger in continuous mode and one network failure, and the sink is in
   BufferOnly with no recovery task, no pending switch and nobody delivering one, for good.
   */
  lemma RecoveryCanBeLost(b0: B.Buf, f: RecordLog.Fragment)
    requires NewManager(b0) && b0.files == [] && BufferInvariant.Pushable(f)
    ensures exists steps: seq<Step> ::
              && IsRun(Initial(Immediate, b0), steps) && NoBoundedTriggers(steps)
              && After(Initial(Immediate, b0), steps) == Setting(b0, f).Abandoned()
    ensures Stranded(Setting(b0, f).Abandoned()) && Stuck(Setting(b0, f).Abandoned())
  {
    var g := Setting(b0, f);
    hide BufferInvariant.Pushable;
    TriggerHolds(g);
    TriggerCompletes(g);
    TriggerSchedules(g);
    KeyframeUsesItUp(g);
    NetworkFails(g);
    SecondCancelAborts(g);
  }
}
