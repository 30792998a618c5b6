/**
 The fragment-delivery path as one state machine. The actors are the streaming thread, the upload
 worker, any number of trigger tasks and any number of recovery tasks; a step is one critical section,
 one channel operation or one completed call, so every interleaving of the source is a run of steps.

 Two locks persist across steps: the buffer manager's, whose owner is explicit because a trigger keeps
 it through a whole upload, and the uploader's, held only inside single steps. A section of the sink's
 state lock never blocks inside, so it is one step.
 */
module Pipeline {
  import opened Wrappers
  import opened BufferEvents
  import RecordLog
  import B = BufferModel
  import BufferInvariant

  const FRAGMENT_QUEUE_CAPACITY: nat := 64

  datatype Mode = Immediate | BufferOnly

  /** A finalized fragment: its number in finalize order, its MKV session, the mode and tag it carries, and itself. */
  datatype Item = Item(id: nat, session: nat, mode: Mode, startsNewSession: bool, fragment: RecordLog.Fragment)

  /** What a keyframe boundary decided: the pending mode switch, and whether an expired session needs a reset. */
  datatype Boundary = Boundary(newMode: Option<Mode>, needsReset: bool)

  datatype RenderPc =
    | Waiting                                    // between buffers
    | Capturing(boundary: Boundary)              // about to take the frames and the mode
    | Finalizing(boundary: Boundary, mode: Mode) // about to write the fragment and take the tag
    | Sending(boundary: Boundary, item: Item)    // about to try the queue
    | Counting(boundary: Boundary, item: Item)   // the queue was full, about to count the drop
    | Switching(boundary: Boundary)              // about to execute the mode switch
    | Resetting                                  // about to reset the MKV writer
    | Halted(unsent: Option<Item>)               // the buffer was answered with a flow error

  datatype WorkerPc =
    | Idle
    | ResettingSession(item: Item) // the uploader's reset is running
    | ClearingFlag(item: Item)     // it has resolved
    | Dispatching(item: Item)
    | CheckingTask(item: Item)     // handle_network_failure: is a recovery task known?
    | EnteringBufferOnly(item: Item)
    | Spawning(item: Item)         // BufferOnly is set, the recovery task is about to be spawned
    | StoringHandle(item: Item, task: nat)
    | Buffering(item: Item)        // about to push to the buffer manager

  /** A recovery task, a `trigger-upload` signal task with or without an end, or a `trigger_upload` call. */
  datatype Kind = Recovery | Signal(bounded: bool) | Api

  /** How far `process_buffer_events` is with a completion that goes live. */
  datatype Phase = CancelFirst | Schedule | CancelAgain

  datatype TaskPc =
    | Sleeping
    | WantBuffer
    | Selecting
    | Uploading(paths: seq<string>, next: nat) // the files left, and the next record of the first one
    | ClearingHandle
    | Draining
    | Delivering(events: seq<Event>, phase: Phase)
    | Finished

  datatype Task = Task(kind: Kind, pc: TaskPc, aborted: bool)

  datatype State = State(
    currentMode: Mode,
    pendingModeSwitch: Option<Mode>,
    pendingNewSession: bool,
    recoveryTask: Option<nat>,
    sessionResetInFlight: bool,
    queue: seq<Item>,
    render: RenderPc,
    writerSession: nat,
    nextId: nat,
    worker: WorkerPc,
    tasks: seq<Task>,
    bufferOwner: Option<nat>,
    buf: B.Buf, // the buffer manager, its directory and its event channel
    // history
    queued: seq<Item>,   // accepted by the queue, in order
    dropped: seq<Item>,  // counted in dropped_fragments
    handled: seq<Item>,  // finished by the worker, in order
    uploaded: seq<nat>,  // accepted live by put_fragment
    pushErrors: seq<nat>, // whose push to disk failed
    sent: seq<RecordLog.Fragment>) // read from a file and accepted by put_fragment

  /** A manager just started, on whatever directory. */
  predicate NewManager(buf: B.Buf) { buf.current.None? && buf.events == [] && buf.passes == [] }

  /** Started in continuous or in trigger mode. */
  function Initial(mode: Mode, buf: B.Buf): State {
    State(mode, None, false, None, false, [], Waiting, 0, 0, Idle, [], None, buf, [], [], [], [], [], [])
  }

  // ---- the streaming thread ----

  datatype RenderStep =
    | Decide(expired: bool)   // a keyframe that reached the duration; what the uploader says of the session
    | EndOfStream
    | NoFrames
    | Capture
    | Finalize(written: Option<RecordLog.Fragment>)
    | TrySend(open: bool)
    | CountDrop
    | Switch
    | BeginReset

  predicate CanRender(s: State, step: RenderStep) {
    match step
    case Decide(_) => s.render.Waiting?
    case EndOfStream => s.render.Waiting?
    case NoFrames => s.render.Capturing?
    case Capture => s.render.Capturing?
    case Finalize(written) => s.render.Finalizing? && (written.Some? ==> BufferInvariant.Pushable(written.value))
    case TrySend(_) => s.render.Sending?
    case CountDrop => s.render.Counting?
    case Switch => s.render.Switching?
    case BeginReset => s.render.Resetting?
  }

  function DoRender(s: State, step: RenderStep): State
    requires CanRender(s, step)
  {
    match step
    case Decide(expired) =>
      s.(render := Capturing(Boundary(s.pendingModeSwitch, expired && !s.sessionResetInFlight)))
    case EndOfStream => s.(render := Capturing(Boundary(None, false)))
    case NoFrames => s.(render := Switching(s.render.boundary))
    case Capture => s.(render := Finalizing(s.render.boundary, s.currentMode))
    case Finalize(written) =>
      (match written
       case None => s.(render := Halted(None))
       case Some(fragment) =>
         var item := Item(s.nextId, s.writerSession, s.render.mode, s.pendingNewSession, fragment);
         s.(render := Sending(s.render.boundary, item), nextId := s.nextId + 1, pendingNewSession := false))
    case TrySend(open) =>
      if !open then s.(render := Halted(Some(s.render.item)))
      else if |s.queue| < FRAGMENT_QUEUE_CAPACITY then
        s.(queue := s.queue + [s.render.item], queued := s.queued + [s.render.item],
            render := Switching(s.render.boundary))
      else s.(render := Counting(s.render.boundary, s.render.item))
    case CountDrop =>
      s.(dropped := s.dropped + [s.render.item],
         pendingNewSession := s.pendingNewSession || s.render.item.startsNewSession,
         render := Switching(s.render.boundary))
    case Switch =>
      (match s.render.boundary.newMode
       case Some(mode) =>
         s.(currentMode := mode, pendingModeSwitch := None, render := if mode.Immediate? then Resetting else Waiting)
       case None => s.(render := if s.render.boundary.needsReset then Resetting else Waiting))
    case BeginReset =>
      s.(writerSession := s.writerSession + 1, pendingNewSession := true, sessionResetInFlight := true,
          render := Waiting)
  }

  // ---- the upload worker ----

  /** The cleanup after every hundredth push, and the files it cannot delete. */
  datatype Sweep = Sweep(now: int, undeletable: set<string>)

  datatype WorkerStep =
    | Receive
    | ResetResolves
    | ClearInFlight
    | PutAccepted
    | PutRefused(network: bool)
    | Route
    | CheckTask
    | EnterBufferOnly
    | Spawn
    | StoreHandle
    | Push(outcome: B.PushOutcome, checkAt: int, createAt: nat, sweep: Option<Sweep>)

  predicate CanWork(s: State, step: WorkerStep) {
    match step
    case Receive => s.worker.Idle? && s.queue != []
    case ResetResolves => s.worker.ResettingSession?
    case ClearInFlight => s.worker.ClearingFlag?
    case PutAccepted => s.worker.Dispatching? && s.worker.item.mode.Immediate?
    case PutRefused(_) => s.worker.Dispatching? && s.worker.item.mode.Immediate?
    case Route => s.worker.Dispatching? && s.worker.item.mode.BufferOnly?
    case CheckTask => s.worker.CheckingTask?
    case EnterBufferOnly => s.worker.EnteringBufferOnly?
    case Spawn => s.worker.Spawning?
    case StoreHandle => s.worker.StoringHandle?
    case Push(_, _, _, _) =>
      s.worker.Buffering? && s.bufferOwner.None?
  }

  function Removes(undeletable: set<string>): string -> bool { n => n !in undeletable }

  /** `push_fragment` on the buffer, cleanup included. */
  function Pushed(buf: B.Buf, f: RecordLog.Fragment, outcome: B.PushOutcome, checkAt: int, createAt: nat,
                  sweep: Option<Sweep>): B.Buf
  {
    var b := B.Attempt(buf, f, outcome, checkAt, createAt);
    if outcome.Written? && sweep.Some? then B.Cleanup(b, sweep.value.now, Removes(sweep.value.undeletable)) else b
  }

  function DoWork(s: State, step: WorkerStep): State
    requires CanWork(s, step)
  {
    match step
    case Receive =>
      var item := s.queue[0];
      s.(queue := s.queue[1..], worker := if item.startsNewSession then ResettingSession(item) else Dispatching(item))
    case ResetResolves => s.(worker := ClearingFlag(s.worker.item))
    case ClearInFlight => s.(sessionResetInFlight := false, worker := Dispatching(s.worker.item))
    case PutAccepted =>
      s.(uploaded := s.uploaded + [s.worker.item.id], handled := s.handled + [s.worker.item], worker := Idle)
    case PutRefused(network) =>
      s.(worker := if network then CheckingTask(s.worker.item) else Buffering(s.worker.item))
    case Route => s.(worker := Buffering(s.worker.item))
    case CheckTask =>
      s.(worker := if s.recoveryTask.Some? then Buffering(s.worker.item) else EnteringBufferOnly(s.worker.item))
    case EnterBufferOnly => s.(currentMode := BufferOnly, worker := Spawning(s.worker.item))
    case Spawn =>
      s.(tasks := s.tasks + [Task(Recovery, Sleeping, false)], worker := StoringHandle(s.worker.item, |s.tasks|))
    case StoreHandle => s.(recoveryTask := Some(s.worker.task), worker := Buffering(s.worker.item))
    case Push(outcome, checkAt, createAt, sweep) =>
      s.(buf := Pushed(s.buf, s.worker.item.fragment, outcome, checkAt, createAt, sweep),
         pushErrors := if outcome.Written? then s.pushErrors else s.pushErrors + [s.worker.item.id],
         handled := s.handled + [s.worker.item], worker := Idle)
  }

  // ---- trigger and recovery tasks ----

  datatype TaskStep =
    | Wake                     // the backoff is over
    | Lock                     // the buffer manager is free
    | Select(start: Option<int>, end: Option<int>, createAt: nat) // close the file, pick files, open a new one
    | FailTrigger              // the trigger returns an error
    | PutRecord                // the next record is accepted
    | FailFile                 // the pass over the first file fails
    | FinishFile(removed: bool) // it went through: mark and delete
    | CompleteTrigger          // report and return Ok
    | ClearHandle              // recovery: forget the task handle
    | Drain                    // take every event out of the channel
    | Deliver                  // the next lock section of the first event taken
    | Die                      // an aborted task ends at an await point

  /** Tasks keep the buffer manager's guard through event delivery, except the `trigger_upload` call. */
  predicate HoldsBuffer(t: Task) {
    t.pc.Selecting? || t.pc.Uploading?
    || (!t.kind.Api? && (t.pc.ClearingHandle? || t.pc.Draining? || t.pc.Delivering?))
  }

  /**
   An abort takes effect only where the task can be waiting. It need not: a task already past its sleep takes
   a free lock without waiting, and goes on until it waits for something.
   */
  predicate CanBeCancelled(pc: TaskPc) {
    pc.Sleeping? || pc.WantBuffer? || pc.Selecting? || pc.Uploading?
  }

  /** Only a signal can have a range, and only a bounded one an end. */
  predicate RangeOf(kind: Kind, start: Option<int>, end: Option<int>) {
    (end.Some? <==> kind == Signal(true)) && (start.Some? ==> kind.Signal?)
  }

  /** What a reader finds in a file; nothing when it is missing. */
  function Found(buf: B.Buf, path: string): seq<RecordLog.Fragment> {
    if path in buf.disk then RecordLog.ReadAll(buf.disk[path]).fragments else []
  }

  predicate CanTask(s: State, t: nat, step: TaskStep) {
    t < |s.tasks| && var task := s.tasks[t];
    match step
    case Wake => task.pc.Sleeping? && !task.aborted
    case Lock => task.pc.WantBuffer? && s.bufferOwner.None?
    case Select(start, end, _) => task.pc.Selecting? && RangeOf(task.kind, start, end)
    case FailTrigger => task.pc.Selecting?
    case PutRecord =>
      task.pc.Uploading? && task.pc.paths != [] && task.pc.next < |Found(s.buf, task.pc.paths[0])|
    case FailFile =>
      task.pc.Uploading? && task.pc.paths != [] && task.pc.next <= |Found(s.buf, task.pc.paths[0])|
    case FinishFile(_) =>
      && task.pc.Uploading? && task.pc.paths != [] && task.pc.paths[0] in s.buf.disk
      && task.pc.next == |Found(s.buf, task.pc.paths[0])|
      && !RecordLog.ReadAll(s.buf.disk[task.pc.paths[0]]).panicked
    case CompleteTrigger => task.pc.Uploading? && task.pc.paths == []
    case ClearHandle => task.pc.ClearingHandle?
    case Drain => task.pc.Draining?
    case Deliver => task.pc.Delivering?
    case Die => task.aborted && CanBeCancelled(task.pc)
  }

  function SetPc(s: State, t: nat, pc: TaskPc): State
    requires t < |s.tasks|
  {
    s.(tasks := s.tasks[t := s.tasks[t].(pc := pc)])
  }

  function Release(s: State, t: nat): State {
    if s.bufferOwner == Some(t) then s.(bufferOwner := None) else s
  }

  /** `cancel_recovery_task`: take the handle and abort that task. */
  function Cancel(s: State): State {
    match s.recoveryTask
    case None => s
    case Some(r) =>
      s.(recoveryTask := None,
         tasks := if r < |s.tasks| then s.tasks[r := s.tasks[r].(aborted := true)] else s.tasks)
  }

  /** The next critical section of delivering the events in hand. */
  function DeliverNext(s: State, t: nat): State
    requires t < |s.tasks| && s.tasks[t].pc.Delivering?
  {
    var events := s.tasks[t].pc.events;
    if events == [] then Release(SetPc(s, t, Finished), t)
    else
      match events[0]
      case UploadError => SetPc(s, t, Delivering(events[1..], CancelFirst))
      case HistoricalUploadComplete(live) =>
        if !live then SetPc(s.(pendingModeSwitch := Some(BufferOnly)), t, Delivering(events[1..], CancelFirst))
        else
          match s.tasks[t].pc.phase
          case CancelFirst => SetPc(Cancel(s), t, Delivering(events, Schedule))
          case Schedule => SetPc(s.(pendingModeSwitch := Some(Immediate)), t, Delivering(events, CancelAgain))
          case CancelAgain => SetPc(Cancel(s), t, Delivering(events[1..], CancelFirst))
  }

  function DoTask(s: State, t: nat, step: TaskStep): State
    requires CanTask(s, t, step)
  {
    var task := s.tasks[t];
    match step
    case Wake => SetPc(s, t, WantBuffer)
    case Lock => SetPc(s.(bufferOwner := Some(t)), t, Selecting)
    case Select(start, end, createAt) =>
      var b := B.Finalize(s.buf);
      var paths := B.Selected(b.files, start, end);
      SetPc(s.(buf := if paths == [] then b else B.StartNew(b, createAt, createAt)), t, Uploading(paths, 0))
    case FailTrigger =>
      Release(SetPc(s.(buf := B.Finalize(s.buf)), t, if task.kind.Recovery? then Sleeping else Finished), t)
    case PutRecord =>
      SetPc(s.(sent := s.sent + [Found(s.buf, task.pc.paths[0])[task.pc.next]]), t,
            Uploading(task.pc.paths, task.pc.next + 1))
    case FailFile =>
      var path := task.pc.paths[0];
      var pass := B.Pass(path, Found(s.buf, path)[..task.pc.next], false);
      SetPc(s.(buf := B.RecordPass(s.buf, pass, false)), t, Uploading(task.pc.paths[1..], 0))
    case FinishFile(removed) =>
      var path := task.pc.paths[0];
      SetPc(s.(buf := B.RecordPass(s.buf, B.Pass(path, Found(s.buf, path), true), removed)), t,
            Uploading(task.pc.paths[1..], 0))
    case CompleteTrigger =>
      var done := HistoricalUploadComplete(!(task.kind.Signal? && task.kind.bounded));
      var s1 := SetPc(s.(buf := B.Notify(s.buf.(current := None), done)), t,
                      if task.kind.Recovery? then ClearingHandle else Draining);
      if task.kind.Api? then Release(s1, t) else s1
    case ClearHandle => SetPc(s.(recoveryTask := None), t, Draining)
    case Drain => SetPc(s.(buf := s.buf.(events := [])), t, Delivering(s.buf.events, CancelFirst))
    case Deliver => DeliverNext(s, t)
    case Die => Release(SetPc(s, t, Finished), t)
  }

  // ---- runs ----

  datatype Step =
    | Render(render: RenderStep)
    | Work(work: WorkerStep)
    | TaskDo(task: nat, taskStep: TaskStep)
    | Trigger(kind: Kind) // someone asks for an upload

  predicate Can(s: State, step: Step) {
    match step
    case Render(r) => CanRender(s, r)
    case Work(w) => CanWork(s, w)
    case TaskDo(t, x) => CanTask(s, t, x)
    case Trigger(kind) => !kind.Recovery?
  }

  function Do(s: State, step: Step): State
    requires Can(s, step)
  {
    match step
    case Render(r) => DoRender(s, r)
    case Work(w) => DoWork(s, w)
    case TaskDo(t, x) => DoTask(s, t, x)
    case Trigger(kind) => s.(tasks := s.tasks + [Task(kind, WantBuffer, false)])
  }

  /** Each step can be taken when its turn comes. */
  predicate IsRun(s: State, steps: seq<Step>)
    decreases |steps|
  {
    steps == [] || (Can(s, steps[0]) && IsRun(Do(s, steps[0]), steps[1..]))
  }

  function After(s: State, steps: seq<Step>): State
    requires IsRun(s, steps)
    decreases |steps|
  {
    if steps == [] then s else After(Do(s, steps[0]), steps[1..])
  }

  // ---- what the state says of one fragment ----

  /** The fragment the streaming thread holds between finalizing it and being done with it. */
  function InRender(pc: RenderPc): Option<Item> {
    match pc
    case Sending(_, item) => Some(item)
    case Counting(_, item) => Some(item)
    case Halted(unsent) => unsent
    case _ => None
  }

  function InWorker(pc: WorkerPc): seq<Item> {
    if pc.Idle? then [] else [pc.item]
  }

  lemma {:induction false} RunSnoc(s: State, steps: seq<Step>, step: Step)
    requires IsRun(s, steps) && Can(After(s, steps), step)
    ensures IsRun(s, steps + [step]) && After(s, steps + [step]) == Do(After(s, steps), step)
    decreases |steps|
  {
    if steps == [] {
      assert steps + [step] == [step] && [step][1..] == [];
    } else {
      assert (steps + [step])[1..] == steps[1..] + [step];
      RunSnoc(Do(s, steps[0]), steps[1..], step);
    }
  }
}
