/**
 The sink's mutable state, and the code of its three kinds of actor as methods over it, calling the buffer
 manager and the connection. Each critical section updates the fields in place and is proved to be one step
 of the machine in `Pipeline`; between two sections, where no lock is held, the other actors may do anything
 they can. A method promises that its effect, interleaved with theirs, is a run, so that every theorem about
 runs is one about these methods; and what it did of its own.
 */
module KvsSinks {
  import opened Wrappers
  import opened BufferEvents
  import opened Pipeline
  import opened PipelineAccounting
  import opened PipelineBoundary
  import opened PipelineDelivery
  import opened PipelineRecovery
  import opened Bytes
  import RecordLog
  import B = BufferModel
  import C = CrashRecovery
  import opened BufferInvariant
  import K = KvsModel
  import BufferedUploadManagers
  import KvsConnections

  datatype Actor = StreamingThread | UploadWorker | TriggerTask(task: nat)

  predicate StepOf(a: Actor, step: Step) {
    match step
    case Render(_) => a.StreamingThread?
    case Work(_) => a.UploadWorker?
    case TaskDo(t, _) => a == TriggerTask(t)
    case Trigger(_) => false
  }

  ghost predicate Runs(from: State, to: State) {
    exists steps: seq<Step> :: IsRun(from, steps) && After(from, steps) == to
  }

  ghost predicate OthersRun(a: Actor, from: State, to: State) {
    exists steps: seq<Step> ::
      IsRun(from, steps) && After(from, steps) == to && forall i | 0 <= i < |steps| :: !StepOf(a, steps[i])
  }

  lemma {:induction false} RunConcat(s: State, a: seq<Step>, b: seq<Step>)
    requires IsRun(s, a) && IsRun(After(s, a), b)
    ensures IsRun(s, a + b) && After(s, a + b) == After(After(s, a), b)
    decreases |a|
  {
    hide Can, Do;
    if a == [] {
      assert a + b == b;
    } else {
      assert (a + b)[1..] == a[1..] + b;
      RunConcat(Do(s, a[0]), a[1..], b);
    }
  }

  lemma RunsThrough(a: State, b: State, c: State)
    requires Runs(a, b) && Runs(b, c)
    ensures Runs(a, c)
  {
    var x: seq<Step> :| IsRun(a, x) && After(a, x) == b;
    var y: seq<Step> :| IsRun(b, y) && After(b, y) == c;
    RunConcat(a, x, y);
  }

  /** What the machine keeps. */
  ghost predicate Sound(s: State) { Ordered(s) && Base(s) }

  lemma OneStep(a: State, b: State, step: Step)
    requires Runs(a, b) && Sound(b) && Can(b, step)
    ensures Runs(a, Do(b, step)) && Sound(Do(b, step))
  {
    var x: seq<Step> :| IsRun(a, x) && After(a, x) == b;
    RunSnoc(a, x, step);
    StepKeeps(b, step);
  }

  lemma NoSteps(s: State)
    ensures Runs(s, s)
  {
    assert IsRun(s, []) && After(s, []) == s;
  }

  lemma OthersAreRuns(a: Actor, from: State, via: State, to: State)
    requires Runs(from, via) && OthersRun(a, via, to)
    ensures Runs(from, to)
  {
    assert Runs(via, to);
    RunsThrough(from, via, to);
  }

  // ---- what the others cannot touch ----

  lemma {:induction false} OthersLeaveStreaming(s: State, steps: seq<Step>)
    requires IsRun(s, steps) && forall i | 0 <= i < |steps| :: !StepOf(StreamingThread, steps[i])
    ensures SameStreaming(s, After(s, steps))
    decreases |steps|
  {
    hide DoWork, CanWork, DoTask, CanTask;
    if steps == [] {
    } else {
      assert !StepOf(StreamingThread, steps[0]);
      match steps[0] {
        case Work(w) => WorkLeavesStreaming(s, w);
        case TaskDo(t, x) => TaskLeavesFragments(s, t, x);
        case Trigger(_) =>
      }
      assert forall i | 0 <= i < |steps[1..]| :: steps[1..][i] == steps[i + 1];
      OthersLeaveStreaming(Do(s, steps[0]), steps[1..]);
    }
  }

  /** After the others ran, the streaming thread is where it was, and the whole is still a run. */
  lemma Continues(s0: State, s1: State, s2: State)
    requires Runs(s0, s1) && OthersRun(StreamingThread, s1, s2)
    ensures Runs(s0, s2) && SameStreaming(s1, s2)
  {
    OthersAreRuns(StreamingThread, s0, s1, s2);
    var steps: seq<Step> :|
      IsRun(s1, steps) && After(s1, steps) == s2 && forall i | 0 <= i < |steps| :: !StepOf(StreamingThread, steps[i]);
    OthersLeaveStreaming(s1, steps);
  }

  /** The worker's place and what it has handled; the queue can only grow behind its back. */
  predicate SameWorker(s: State, s': State) { s'.worker == s.worker && s'.handled == s.handled && s.queue <= s'.queue }

  lemma RenderLeavesWorker(s: State, step: RenderStep)
    requires CanRender(s, step)
    ensures SameWorker(s, DoRender(s, step))
  {
  }

  lemma {:induction false} OthersLeaveWorker(s: State, steps: seq<Step>)
    requires IsRun(s, steps) && forall i | 0 <= i < |steps| :: !StepOf(UploadWorker, steps[i])
    ensures SameWorker(s, After(s, steps))
    decreases |steps|
  {
    hide DoRender, CanRender, DoTask, CanTask;
    if steps == [] {
    } else {
      assert !StepOf(UploadWorker, steps[0]);
      match steps[0] {
        case Render(r) => RenderLeavesWorker(s, r);
        case TaskDo(t, x) => TaskLeavesFragments(s, t, x);
        case Trigger(_) =>
      }
      assert forall i | 0 <= i < |steps[1..]| :: steps[1..][i] == steps[i + 1];
      OthersLeaveWorker(Do(s, steps[0]), steps[1..]);
    }
  }

  lemma WorkerContinues(s0: State, s1: State, s2: State)
    requires Runs(s0, s1) && OthersRun(UploadWorker, s1, s2)
    ensures Runs(s0, s2) && SameWorker(s1, s2)
  {
    OthersAreRuns(UploadWorker, s0, s1, s2);
    var steps: seq<Step> :|
      IsRun(s1, steps) && After(s1, steps) == s2 && forall i | 0 <= i < |steps| :: !StepOf(UploadWorker, steps[i]);
    OthersLeaveWorker(s1, steps);
  }

  lemma {:induction false} OthersLeaveTask(s: State, steps: seq<Step>, t: nat)
    requires t < |s.tasks| && IsRun(s, steps) && forall i | 0 <= i < |steps| :: !StepOf(TriggerTask(t), steps[i])
    ensures SameTask(s, After(s, steps), t)
    decreases |steps|
  {
    hide DoRender, CanRender, DoWork, CanWork, DoTask, CanTask;
    if steps == [] {
    } else {
      assert !StepOf(TriggerTask(t), steps[0]);
      match steps[0] {
        case Render(r) => RenderLeavesDisk(s, r);
        case Work(w) => WorkShape(s, w);
        case TaskDo(u, x) => TaskLeavesTask(s, u, x, t);
        case Trigger(_) =>
      }
      assert forall i | 0 <= i < |steps[1..]| :: steps[1..][i] == steps[i + 1];
      OthersLeaveTask(Do(s, steps[0]), steps[1..], t);
    }
  }

  lemma TaskContinues(s0: State, s1: State, s2: State, t: nat)
    requires t < |s1.tasks| && Runs(s0, s1) && OthersRun(TriggerTask(t), s1, s2)
    ensures Runs(s0, s2) && SameTask(s1, s2, t)
  {
    OthersAreRuns(TriggerTask(t), s0, s1, s2);
    var steps: seq<Step> :|
      IsRun(s1, steps) && After(s1, steps) == s2 && forall i | 0 <= i < |steps| :: !StepOf(TriggerTask(t), steps[i]);
    OthersLeaveTask(s1, steps, t);
  }

  /** Delivering writes the pending switch and the handle only. */
  lemma DeliverWrites(s: State, t: nat)
    requires t < |s.tasks| && s.tasks[t].pc.Delivering? && s.tasks[t].pc.events != []
    ensures var s', pc := DeliverNext(s, t), s.tasks[t].pc;
            var event := pc.events[0];
            && s'.pendingModeSwitch == (if event == HistoricalUploadComplete(false) then Some(BufferOnly)
                                        else if event == HistoricalUploadComplete(true) && pc.phase.Schedule?
                                        then Some(Immediate)
                                        else s.pendingModeSwitch)
            && s'.recoveryTask == (if event == HistoricalUploadComplete(true) && !pc.phase.Schedule? then None
                                   else s.recoveryTask)
  {
  }

  lemma DeliverLeave(s: State, t: nat)
    requires t < |s.tasks| && s.tasks[t].pc.Delivering? && s.tasks[t].pc.events != []
             && s.tasks[t].pc.events[0] == HistoricalUploadComplete(false)
    ensures DeliverNext(s, t).tasks[t].pc == Delivering(s.tasks[t].pc.events[1..], CancelFirst)
  {
  }

  /** Nothing was queued or dropped. */
  predicate SameEnds(s: State, s': State) { s'.queued == s.queued && s'.dropped == s.dropped }

  /** One fragment more was queued, or counted as dropped. */
  predicate OneMore(s: State, s': State, item: Item) {
    || (s'.queued == s.queued + [item] && s'.dropped == s.dropped)
    || (s'.queued == s.queued && s'.dropped == s.dropped + [item])
  }

  lemma AfterTheEnds(s: State, s1: State, s2: State)
    requires SameEnds(s1, s2)
    ensures SameEnds(s, s1) ==> SameEnds(s, s2)
    ensures forall item :: OneMore(s, s1, item) ==> OneMore(s, s2, item)
  {
  }

  /** Tasks come and none goes, and a task stays what it is. */
  predicate SameKinds(s: State, s': State) {
    |s.tasks| <= |s'.tasks| && forall t | 0 <= t < |s.tasks| :: s'.tasks[t].kind == s.tasks[t].kind
  }

  lemma StepKeepsKinds(s: State, step: Step)
    requires Can(s, step)
    ensures SameKinds(s, Do(s, step))
  {
    match step
    case Render(r) => RenderLeavesDisk(s, r); hide DoRender, CanRender;
    case Work(w) => WorkShape(s, w); hide DoWork, CanWork;
    case TaskDo(t, x) =>
      if x.Deliver? { DeliverShape(s, t); } else { OtherKeeps(s, t, x); }
      hide DoTask, CanTask;
    case Trigger(_) =>
  }

  lemma {:induction false} RunKeepsKinds(s: State, steps: seq<Step>)
    requires IsRun(s, steps)
    ensures SameKinds(s, After(s, steps))
    decreases |steps|
  {
    hide Can, Do;
    if steps == [] {
    } else {
      StepKeepsKinds(s, steps[0]);
      RunKeepsKinds(Do(s, steps[0]), steps[1..]);
    }
  }

  lemma RunsKeepKinds(s: State, s': State)
    requires Runs(s, s')
    ensures SameKinds(s, s')
  {
    var steps: seq<Step> :| IsRun(s, steps) && After(s, steps) == s';
    RunKeepsKinds(s, steps);
  }

  /** Since `from` BufferOnly was entered, a recovery task spawned after that, and its handle stored. */
  ghost predicate RecoveryUnderWay(from: State, entered: State, s: State) {
    && Runs(from, entered) && entered.currentMode.BufferOnly? && Runs(entered, s)
    && s.recoveryTask.Some? && |entered.tasks| <= s.recoveryTask.value < |s.tasks|
    && s.tasks[s.recoveryTask.value].kind.Recovery?
  }

  lemma UnderWay(from: State, entered: State, s: State)
    requires Runs(from, entered) && entered.currentMode.BufferOnly? && Runs(entered, s)
    requires s.recoveryTask.Some? && |entered.tasks| <= s.recoveryTask.value < |s.tasks|
    requires s.tasks[s.recoveryTask.value].kind.Recovery?
    ensures Runs(from, s) && RecoveryUnderWay(from, entered, s)
  {
    RunsThrough(from, entered, s);
  }

  /** The worker cannot go on: nothing is queued, or the buffer manager is held. */
  predicate MustWait(s: State) {
    (s.worker.Idle? && s.queue == []) || (s.worker.Buffering? && s.bufferOwner.Some?)
  }

  lemma SoundStep(s: State, step: Step)
    requires Sound(s) && Can(s, step)
    ensures Sound(Do(s, step))
  {
    StepKeeps(s, step);
  }

  lemma OpenFileKnown(s: State)
    requires Sound(s)
    ensures s.buf.current.Some? && s.buf.current.value.path in s.buf.disk ==> s.buf.current.value.path in s.buf.contents
  {
  }

  lemma StartIsSound(mode: Mode, o: C.Origin)
    ensures C.StartOf(o) == B.Start(o.disk, o.stream, o.maxAge, o.names, o.modified)
    ensures Sound(Initial(mode, C.StartOf(o)))
  {
    StartIsNewManager(o);
    InitialKeeps(mode, C.StartOf(o));
  }

  lemma ConnectionStarts()
    ensures K.Inv(K.Initialized())
  {
  }

  /** What the network and the disk do to one fragment the worker handles. */
  datatype Outcome = Outcome(reconnects: seq<bool>, put: K.PutEnv, network: bool, push: B.PushOutcome,
                             checkAt: int, createAt: nat, sweep: Option<Sweep>)

  class KvsSink {
    const manager: BufferedUploadManagers.BufferedUploadManager
    const connection: KvsConnections.KvsConnection
    var currentMode: Mode
    var pendingModeSwitch: Option<Mode>
    var pendingNewSession: bool
    var sessionResetInFlight: bool
    var recoveryTask: Option<nat>
    var fragments: seq<Item> // the channel to the worker
    var writerSession: nat   // how often the MKV writer was reset
    var finalized: nat
    var bufferOwner: Option<nat> // who holds the buffer manager
    var spawned: nat         // tasks so far; a handle is a number below
    var droppedFragments: nat
    /** Everything, with the places of all actors and what happened so far. */
    ghost var world: State

    ghost predicate Valid()
      reads this, manager, connection
    {
      && world.currentMode == currentMode && world.pendingModeSwitch == pendingModeSwitch
      && world.pendingNewSession == pendingNewSession && world.sessionResetInFlight == sessionResetInFlight
      && world.recoveryTask == recoveryTask && world.queue == fragments
      && world.writerSession == writerSession && world.nextId == finalized && |world.dropped| == droppedFragments
      && |world.tasks| == spawned && world.bufferOwner == bufferOwner
      && world.buf == manager.View() && K.Inv(connection.View()) && Sound(world)
    }

    /** `start`: a manager on the listing of the buffer directory, and a connection. */
    constructor (mode: Mode, stream: string, disk: map<string, seq<byte>>, maxBufferDuration: nat,
                 modified: string -> int)
      ensures Valid() && fresh(manager) && fresh(connection)
      ensures exists names :: C.IsListing(disk, stream, names)
                              && manager.View() == B.Start(disk, stream, maxBufferDuration, names, modified)
      ensures world == Initial(mode, manager.View())
    {
      hide Sound, K.Inv, B.Start, C.IsListing;
      var m := new BufferedUploadManagers.BufferedUploadManager(stream, disk, maxBufferDuration, modified);
      var c := new KvsConnections.KvsConnection();
      manager, connection := m, c;
      currentMode, pendingModeSwitch, pendingNewSession, sessionResetInFlight := mode, None, false, false;
      recoveryTask, fragments, bufferOwner := None, [], None;
      writerSession, finalized, spawned, droppedFragments := 0, 0, 0, 0;
      ghost var names :| C.IsListing(disk, stream, names)
                         && m.View() == B.Start(disk, stream, maxBufferDuration, names, modified);
      world := Initial(mode, m.View());
      StartIsSound(mode, C.Origin(disk, stream, maxBufferDuration, names, modified));
      ConnectionStarts();
    }

    /** Between two critical sections of `a`: the rest of the sink runs. Nothing but the contract is known of it. */
    method Interleave(ghost a: Actor)
      requires Valid()
      modifies this, manager, connection
      ensures Valid() && OthersRun(a, old(world), world)
    {
      assert IsRun(world, []) && After(world, []) == world;
    }

    // ---- the streaming thread ----

    method BeginSessionReset()
      requires Valid() && world.render.Resetting?
      modifies this
      ensures Valid() && world == DoRender(old(world), BeginReset)
    {
      hide Sound, K.Inv;
      SoundStep(world, Render(BeginReset));
      writerSession := writerSession + 1;
      pendingNewSession := true;
      sessionResetInFlight := true;
      world := DoRender(world, BeginReset);
    }

    /** The second section: write the fragment and take the tag. */
    method FinalizeFragment(mode: Mode, fragment: RecordLog.Fragment) returns (item: Item)
      requires Valid() && world.render.Finalizing? && world.render.mode == mode && Pushable(fragment)
      modifies this
      ensures Valid() && world == DoRender(old(world), Finalize(Some(fragment))) && world.render.item == item
      ensures item == Item(old(finalized), old(writerSession), mode, old(pendingNewSession), fragment)
      ensures !pendingNewSession
    {
      hide Sound, K.Inv, Pushable;
      SoundStep(world, Render(Finalize(Some(fragment))));
      item := Item(finalized, writerSession, mode, pendingNewSession, fragment);
      finalized := finalized + 1;
      pendingNewSession := false;
      world := DoRender(world, Finalize(Some(fragment)));
    }

    /** The last section on a full queue: count the drop and re-arm the tag. */
    method CountDropped(item: Item)
      requires Valid() && world.render.Counting? && world.render.item == item
      modifies this
      ensures Valid() && world == DoRender(old(world), CountDrop)
      ensures droppedFragments == old(droppedFragments) + 1
      ensures pendingNewSession == (old(pendingNewSession) || item.startsNewSession)
    {
      hide Sound, K.Inv;
      SoundStep(world, Render(CountDrop));
      droppedFragments := droppedFragments + 1;
      if item.startsNewSession { pendingNewSession := true; }
      world := DoRender(world, CountDrop);
    }

    /**
     Take the frames collected, if any, and queue the fragment made of them, or count it as dropped. `ok` is
     false when the buffer is answered with an error.
     */
    method FinalizeAndEnqueue(hasFrames: bool, written: Option<RecordLog.Fragment>, open: bool) returns (ok: bool)
      requires Valid() && world.render.Capturing? && (written.Some? ==> Pushable(written.value))
      modifies this, manager, connection
      ensures Valid() && Runs(old(world), world)
      ensures ok <==> !hasFrames || (written.Some? && open)
      ensures if ok then world.render == Switching(old(world).render.boundary) else world.render.Halted?
      ensures writerSession == old(writerSession)
      ensures ok && !hasFrames ==> finalized == old(finalized) && SameEnds(old(world), world)
      ensures ok && hasFrames ==>
                && finalized == old(finalized) + 1
                && OneMore(old(world), world, Item(old(finalized), old(writerSession), old(currentMode),
                                                   old(pendingNewSession), written.value))
    {
      hide Runs, OthersRun, K.Inv, Sound, Pushable;
      ghost var s0 := world;
      NoSteps(s0);
      if !hasFrames {
        OneStep(s0, s0, Render(NoFrames));
        world := DoRender(world, NoFrames);
        return true;
      }
      var mode := currentMode;
      OneStep(s0, s0, Render(Capture));
      world := DoRender(world, Capture);
      ghost var s1 := world;
      Interleave(StreamingThread);
      Continues(s0, s1, world);
      ok := FinalizeCaptured(s0, mode, written, open);
    }

    /** The sections after the capture. */
    method FinalizeCaptured(ghost s0: State, mode: Mode, written: Option<RecordLog.Fragment>, open: bool)
      returns (ok: bool)
      requires Valid() && world.render.Finalizing? && world.render.mode == mode && Runs(s0, world)
      requires written.Some? ==> Pushable(written.value)
      modifies this, manager, connection
      ensures Valid() && Runs(s0, world)
      ensures ok <==> written.Some? && open
      ensures if ok then world.render == Switching(old(world).render.boundary) else world.render.Halted?
      ensures writerSession == old(writerSession)
      ensures ok ==>
                && finalized == old(finalized) + 1
                && OneMore(old(world), world,
                           Item(old(finalized), old(writerSession), mode, old(pendingNewSession), written.value))
    {
      hide Runs, OthersRun, K.Inv, Sound, Pushable;
      ghost var s3 := world;
      if written.None? {
        OneStep(s0, s3, Render(Finalize(None)));
        world := DoRender(world, Finalize(None));
        return false;
      }
      OneStep(s0, s3, Render(Finalize(written)));
      var item := FinalizeFragment(mode, written.value);
      ghost var s4 := world;
      Interleave(StreamingThread);
      Continues(s0, s4, world);
      ok := Enqueue(s0, item, open);
    }

    /** Try the queue; when it is full, count the fragment as dropped in a later section. */
    method Enqueue(ghost s0: State, item: Item, open: bool) returns (ok: bool)
      requires Valid() && world.render.Sending? && world.render.item == item && Runs(s0, world)
      modifies this, manager, connection
      ensures Valid() && Runs(s0, world)
      ensures ok == open
      ensures if ok then world.render == Switching(old(world).render.boundary) else world.render.Halted?
      ensures writerSession == old(writerSession) && finalized == old(finalized)
      ensures ok ==> if |old(fragments)| < 64
                     then world.queued == old(world).queued + [item] && world.dropped == old(world).dropped
                     else world.queued == old(world).queued && world.dropped == old(world).dropped + [item]
    {
      hide Runs, OthersRun, K.Inv, Sound;
      ghost var s1 := world;
      OneStep(s0, s1, Render(TrySend(open)));
      world := DoRender(world, TrySend(open));
      if !open { return false; }
      if |fragments| < FRAGMENT_QUEUE_CAPACITY {
        fragments := fragments + [item];
        return true;
      }
      ghost var s2 := world;
      Interleave(StreamingThread);
      Continues(s0, s2, world);
      ghost var s3 := world;
      OneStep(s0, s3, Render(CountDrop));
      CountDropped(item);
      return true;
    }

    /**
     A keyframe that reached the duration: close the fragment, then switch the mode or renew the session. The
     fragment is queued or counted, and the session is renewed exactly when going live or, with no switch
     pending, when it had expired and no reset was under way.
     */
    method KeyframeBoundary(expired: bool, hasFrames: bool, written: Option<RecordLog.Fragment>, open: bool)
      returns (ok: bool, ghost mode: Mode)
      requires Valid() && world.render.Waiting? && (written.Some? ==> Pushable(written.value))
      modifies this, manager, connection
      ensures Valid() && Runs(old(world), world)
      ensures ok <==> !hasFrames || (written.Some? && open)
      ensures if ok then world.render.Waiting? else world.render.Halted?
      ensures ok && !hasFrames ==> finalized == old(finalized) && SameEnds(old(world), world)
      ensures ok && hasFrames ==>
                && finalized == old(finalized) + 1
                && OneMore(old(world), world,
                           Item(old(finalized), old(writerSession), mode, old(pendingNewSession), written.value))
      ensures ok ==> writerSession == old(writerSession)
                     + if Renews(old(pendingModeSwitch), expired && !old(sessionResetInFlight)) then 1 else 0
    {
      hide Runs, OthersRun, K.Inv, Sound, Pushable;
      var newMode, needsReset := Decide(expired);
      ghost var s1 := world;
      Interleave(StreamingThread);
      Continues(old(world), s1, world);
      ghost var s2 := world;
      mode := currentMode;
      ok := FinalizeAndEnqueue(hasFrames, written, open);
      RunsThrough(old(world), s2, world);
      if ok {
        ghost var s3 := world;
        Interleave(StreamingThread);
        Continues(old(world), s3, world);
        hide OneMore, DoRender;
        SwitchAndReset(old(world), newMode, needsReset);
        AfterTheEnds(old(world), s3, world);
      }
    }

    /** What the boundary will do, read in one section. */
    method Decide(expired: bool) returns (newMode: Option<Mode>, needsReset: bool)
      requires Valid() && world.render.Waiting?
      modifies this
      ensures Valid() && Runs(old(world), world)
              && world == old(world).(render := Capturing(Boundary(newMode, needsReset)))
      ensures newMode == old(pendingModeSwitch) && needsReset == (expired && !old(sessionResetInFlight))
    {
      hide Runs, K.Inv, Sound;
      NoSteps(world);
      OneStep(world, world, Render(RenderStep.Decide(expired)));
      newMode, needsReset := pendingModeSwitch, expired && !sessionResetInFlight;
      world := DoRender(world, RenderStep.Decide(expired));
    }

    /** Execute the switch decided on, and begin a session reset when going live or when the session has expired. */
    method SwitchAndReset(ghost s0: State, newMode: Option<Mode>, needsReset: bool)
      requires Valid() && world.render == Switching(Boundary(newMode, needsReset)) && Runs(s0, world)
      modifies this, manager, connection
      ensures Valid() && Runs(s0, world) && world.render.Waiting?
      ensures finalized == old(finalized) && SameEnds(old(world), world)
      ensures writerSession == old(writerSession) + if Renews(newMode, needsReset) then 1 else 0
    {
      hide Runs, OthersRun, K.Inv, Sound;
      ExecuteSwitch(s0, newMode, needsReset);
      if Renews(newMode, needsReset) {
        ghost var s5 := world;
        Interleave(StreamingThread);
        Continues(s0, s5, world);
        ghost var s6 := world;
        OneStep(s0, s6, Render(BeginReset));
        BeginSessionReset();
      }
    }

    method ExecuteSwitch(ghost s0: State, newMode: Option<Mode>, needsReset: bool)
      requires Valid() && world.render == Switching(Boundary(newMode, needsReset)) && Runs(s0, world)
      modifies this
      ensures Valid() && Runs(s0, world)
      ensures world.render == if Renews(newMode, needsReset) then Resetting else Waiting
      ensures newMode.Some? ==> currentMode == newMode.value && pendingModeSwitch == None
      ensures finalized == old(finalized) && SameEnds(old(world), world) && writerSession == old(writerSession)
    {
      hide Runs, K.Inv, Sound;
      OneStep(s0, world, Render(Switch));
      if newMode.Some? {
        currentMode := newMode.value;
        pendingModeSwitch := None;
      }
      world := DoRender(world, Switch);
    }

    // ---- the upload worker ----

    /**
     One turn of the worker's loop, up to where it waits: not `done` means that the buffer manager is held by another
     task, and that the fragment is in the worker's hand, to be pushed when the worker is polled again.
     */
    method HandleItem(o: Outcome) returns (done: bool)
      requires Valid() && world.worker.Idle? && fragments != []
      modifies this, manager, connection
      ensures Valid() && Runs(old(world), world)
      ensures if done then world.worker.Idle? && world.handled == old(world).handled + [old(fragments)[0]]
              else world.worker == Buffering(old(fragments)[0]) && world.handled == old(world).handled
                   && bufferOwner.Some?
    {
      hide Runs, OthersRun, K.Inv, Sound;
      ghost var s0 := world;
      NoSteps(s0);
      var item := fragments[0];
      OneStep(s0, s0, Work(Receive));
      fragments := fragments[1..];
      world := DoWork(world, Receive);
      if item.startsNewSession {
        ResetSession(s0, item, o.reconnects);
      }
      done := Dispatch(s0, item, o);
    }

    /** Reset the connection's session, then let further resets be asked for, whether it went well or not. */
    method ResetSession(ghost s0: State, item: Item, reconnects: seq<bool>)
      requires Valid() && world.worker == ResettingSession(item) && Runs(s0, world)
      modifies this, manager, connection
      ensures Valid() && Runs(s0, world) && world.worker == Dispatching(item) && world.handled == old(world).handled
      ensures !sessionResetInFlight
    {
      hide Runs, OthersRun, K.Inv, Sound;
      ghost var s1 := world;
      Interleave(UploadWorker);
      WorkerContinues(s0, s1, world);
      ghost var s2 := world;
      OneStep(s0, s2, Work(ResetResolves));
      var _ := connection.ResetSession(reconnects);
      world := DoWork(world, ResetResolves);
      AllowResets(s0, item);
    }

    method AllowResets(ghost s0: State, item: Item)
      requires Valid() && world.worker == ClearingFlag(item) && Runs(s0, world)
      modifies this, manager, connection
      ensures Valid() && Runs(s0, world) && world.worker == Dispatching(item) && world.handled == old(world).handled
      ensures !sessionResetInFlight
    {
      hide Runs, OthersRun, K.Inv, Sound;
      ghost var s1 := world;
      Interleave(UploadWorker);
      WorkerContinues(s0, s1, world);
      ghost var s2 := world;
      OneStep(s0, s2, Work(ClearInFlight));
      sessionResetInFlight := false;
      world := DoWork(world, ClearInFlight);
    }

    /** Upload a fragment captured live, falling back to the disk; a buffered one goes there at once. */
    method Dispatch(ghost s0: State, item: Item, o: Outcome) returns (done: bool)
      requires Valid() && world.worker == Dispatching(item) && Runs(s0, world)
      modifies this, manager, connection
      ensures Valid() && Runs(s0, world)
      ensures if done then world.worker.Idle? && world.handled == old(world).handled + [item]
              else world.worker == Buffering(item) && world.handled == old(world).handled && bufferOwner.Some?
    {
      hide Runs, OthersRun, K.Inv, Sound;
      ghost var s1 := world;
      Interleave(UploadWorker);
      WorkerContinues(s0, s1, world);
      if item.mode.Immediate? {
        var accepted, _, _ := UploadFragment(s0, item, o.put, o.network);
        if accepted { return true; }
      } else {
        OneStep(s0, world, Work(Route));
        world := DoWork(world, Route);
      }
      done := BufferFragment(s0, item, o);
    }

    /**
     Put the fragment on the connection. Accepted, its cluster is the one added to the wires, and the worker
     is done with it; refused, it stays in hand, to be buffered. Only a network error has consequences: then a
     recovery task is known, found or just spawned.
     */
    method UploadFragment(ghost s0: State, item: Item, env: K.PutEnv, network: bool)
      returns (accepted: bool, found: bool, ghost entered: State)
      requires Valid() && world.worker == Dispatching(item) && item.mode.Immediate? && Runs(s0, world)
      modifies this, manager, connection
      ensures Valid() && Runs(s0, world)
      ensures old(K.SenderOk(connection.View())) && accepted == K.Put(old(connection.View()), item.fragment, env).1
      ensures accepted <==>
              || old(K.GetsThrough(connection.View(), env.first))
              || (&& (exists i | 0 <= i < |env.attempts| :: env.attempts[i])
                  && env.second.healthy && !env.second.closesBeforeHeader && !env.second.closesBeforeCluster)
      ensures accepted ==> K.AllClusters(connection.wires) == old(K.AllClusters(connection.wires)) + [item.fragment]
      ensures accepted || !network ==>
                currentMode == old(currentMode) && recoveryTask == old(recoveryTask) && spawned == old(spawned)
      ensures !accepted && network ==> if found then recoveryTask.Some? else RecoveryUnderWay(s0, entered, world)
      ensures if accepted then world.worker.Idle? && world.handled == old(world).handled + [item]
                               && world.uploaded == old(world).uploaded + [item.id]
              else world.worker == Buffering(item) && world.handled == old(world).handled
    {
      hide Runs, OthersRun, K.Inv, Sound, K.AllClusters, K.Put;
      accepted := connection.PutFragment(item.fragment, env);
      found, entered := FinishPut(s0, item, accepted, network);
    }

    /** What the worker does with the answer: done, or react to a network failure and keep the fragment. */
    method FinishPut(ghost s0: State, item: Item, accepted: bool, network: bool)
      returns (found: bool, ghost entered: State)
      requires Valid() && world.worker == Dispatching(item) && item.mode.Immediate? && Runs(s0, world)
      modifies this, manager, connection
      ensures Valid() && Runs(s0, world)
      ensures if accepted then world.worker.Idle? && world.handled == old(world).handled + [item]
                               && world.uploaded == old(world).uploaded + [item.id]
              else world.worker == Buffering(item) && world.handled == old(world).handled
      ensures accepted ==> connection.wires == old(connection.wires)
      ensures accepted || !network ==>
                currentMode == old(currentMode) && recoveryTask == old(recoveryTask) && spawned == old(spawned)
      ensures !accepted && network ==> if found then recoveryTask.Some? else RecoveryUnderWay(s0, entered, world)
    {
      hide Runs, K.Inv, Sound, RecoveryUnderWay;
      found, entered := false, world;
      if accepted {
        OneStep(s0, world, Work(PutAccepted));
        world := DoWork(world, PutAccepted);
      } else {
        OneStep(s0, world, Work(PutRefused(network)));
        world := DoWork(world, PutRefused(network));
        if network {
          found, entered := HandleNetworkFailure(s0, item);
        }
      }
    }

    /** Enter BufferOnly and spawn a recovery task, unless one is known. */
    method HandleNetworkFailure(ghost s0: State, item: Item) returns (found: bool, ghost entered: State)
      requires Valid() && world.worker == CheckingTask(item) && Runs(s0, world)
      modifies this, manager, connection
      ensures Valid() && Runs(s0, world) && world.worker == Buffering(item) && world.handled == old(world).handled
      ensures if found then recoveryTask.Some? else RecoveryUnderWay(s0, entered, world)
    {
      hide Runs, OthersRun, K.Inv, Sound, RecoveryUnderWay;
      ghost var s1 := world;
      Interleave(UploadWorker);
      WorkerContinues(s0, s1, world);
      ghost var s2 := world;
      OneStep(s0, s2, Work(CheckTask));
      world := DoWork(world, CheckTask);
      found, entered := recoveryTask.Some?, world;
      if !found { entered := StartRecovery(s0, item); }
    }

    /** Enter BufferOnly, then spawn a recovery task. */
    method StartRecovery(ghost s0: State, item: Item) returns (ghost entered: State)
      requires Valid() && world.worker == EnteringBufferOnly(item) && Runs(s0, world)
      modifies this, manager, connection
      ensures Valid() && Runs(s0, world) && world.worker == Buffering(item) && world.handled == old(world).handled
      ensures RecoveryUnderWay(s0, entered, world)
    {
      hide Runs, K.Inv, Sound, RecoveryUnderWay;
      EnterBufferOnly(s0, item);
      entered := world;
      NoSteps(entered);
      SpawnRecovery(entered, item);
      UnderWay(s0, entered, world);
    }

    method EnterBufferOnly(ghost s0: State, item: Item)
      requires Valid() && world.worker == EnteringBufferOnly(item) && Runs(s0, world)
      modifies this, manager, connection
      ensures Valid() && Runs(s0, world) && world.worker == Spawning(item) && world.handled == old(world).handled
      ensures currentMode == BufferOnly
    {
      hide Runs, OthersRun, K.Inv, Sound;
      ghost var s1 := world;
      Interleave(UploadWorker);
      WorkerContinues(s0, s1, world);
      ghost var s2 := world;
      OneStep(s0, s2, Work(WorkerStep.EnterBufferOnly));
      currentMode := BufferOnly;
      world := DoWork(world, WorkerStep.EnterBufferOnly);
    }

    method SpawnRecovery(ghost s0: State, item: Item)
      requires Valid() && world.worker == Spawning(item) && Runs(s0, world)
      modifies this, manager, connection
      ensures Valid() && Runs(s0, world) && world.worker == Buffering(item) && world.handled == old(world).handled
      ensures recoveryTask.Some? && |s0.tasks| <= recoveryTask.value < spawned
      ensures world.tasks[recoveryTask.value].kind.Recovery?
    {
      hide Runs, OthersRun, K.Inv, Sound;
      ghost var s1 := world;
      Interleave(UploadWorker);
      WorkerContinues(s0, s1, world);
      ghost var s2 := world;
      OneStep(s0, s2, Work(Spawn));
      RunsKeepKinds(s0, s2);
      var handle := spawned;
      spawned := spawned + 1;
      world := DoWork(world, Spawn);
      ghost var s3 := world;
      NoSteps(s3);
      StoreTaskHandle(s3, item, handle);
      RunsKeepKinds(s3, world);
      RunsThrough(s0, s3, world);
    }

    method StoreTaskHandle(ghost s0: State, item: Item, handle: nat)
      requires Valid() && world.worker == StoringHandle(item, handle) && Runs(s0, world)
      modifies this, manager, connection
      ensures Valid() && Runs(s0, world) && world.worker == Buffering(item) && world.handled == old(world).handled
      ensures recoveryTask == Some(handle)
    {
      hide Runs, OthersRun, K.Inv, Sound;
      ghost var s1 := world;
      Interleave(UploadWorker);
      WorkerContinues(s0, s1, world);
      ghost var s2 := world;
      OneStep(s0, s2, Work(StoreHandle));
      recoveryTask := Some(handle);
      world := DoWork(world, StoreHandle);
    }

    /** Push the fragment to the buffer manager, if it is free; if not, wait for the next poll. */
    method BufferFragment(ghost s0: State, item: Item, o: Outcome) returns (done: bool)
      requires Valid() && world.worker == Buffering(item) && Runs(s0, world)
      modifies this, manager, connection
      ensures Valid() && Runs(s0, world)
      ensures if done then world.worker.Idle? && world.handled == old(world).handled + [item]
              else world.worker == Buffering(item) && world.handled == old(world).handled && bufferOwner.Some?
    {
      hide Runs, OthersRun, K.Inv, Sound;
      ghost var s1 := world;
      Interleave(UploadWorker);
      WorkerContinues(s0, s1, world);
      if bufferOwner.Some? { return false; }
      PushToManager(s0, item, o);
      return true;
    }

    /** The manager appends the fragment, and sweeps when it is time; the worker is done with it. */
    method PushToManager(ghost s0: State, item: Item, o: Outcome)
      requires Valid() && world.worker == Buffering(item) && bufferOwner.None? && Runs(s0, world)
      modifies this, manager
      ensures Valid() && Runs(s0, world) && world.worker.Idle? && world.handled == old(world).handled + [item]
      ensures manager.View() == Pushed(old(manager.View()), item.fragment, o.push, o.checkAt, o.createAt, o.sweep)
      ensures world.pushErrors == old(world).pushErrors + if o.push.Written? then [] else [item.id]
    {
      hide Runs, K.Inv, Sound;
      OneStep(s0, world, Work(Push(o.push, o.checkAt, o.createAt, o.sweep)));
      OpenFileKnown(world);
      PushAndSweep(item, o);
      world := DoWork(world, Push(o.push, o.checkAt, o.createAt, o.sweep));
    }

    method PushAndSweep(item: Item, o: Outcome)
      requires manager.OpenKnown()
      modifies manager
      ensures manager.View() == Pushed(old(manager.View()), item.fragment, o.push, o.checkAt, o.createAt, o.sweep)
    {
      hide B.Attempt, B.Cleanup;
      var ok := manager.PushFragment(item.fragment, o.push, o.checkAt, o.createAt);
      if ok && o.sweep.Some? {
        manager.CleanupOldMegaClusterFiles(o.sweep.value.now, Removes(o.sweep.value.undeletable));
      }
    }

    /**
     The worker's loop over any number of polls. A poll takes the worker on until it is done with a fragment or has
     to wait, for a fragment or for the buffer manager, while the others run; the next poll tries again. It handles
     `n` fragments in queue order, and every other poll left it unable to go on.
     */
    method UploadWorkerLoop(polls: seq<Outcome>) returns (n: nat, ghost waited: seq<State>)
      requires Valid() && world.worker.Idle?
      modifies this, manager, connection
      ensures Valid() && Runs(old(world), world)
      ensures |world.handled| == |old(world).handled| + n && old(world).handled <= world.handled
      ensures world.worker.Idle? || world.worker.Buffering?
      ensures n + |waited| == |polls| && forall w | w in waited :: MustWait(w) && Runs(old(world), w)
    {
      hide Runs, OthersRun, K.Inv, Sound;
      n, waited := 0, [];
      var i, hand: Option<Item> := 0, None;
      NoSteps(world);
      while i < |polls|
        invariant 0 <= i <= |polls| && Valid() && Runs(old(world), world)
        invariant if hand.Some? then world.worker == Buffering(hand.value) else world.worker.Idle?
        invariant |world.handled| == |old(world).handled| + n && old(world).handled <= world.handled
        invariant n + |waited| == i && forall w | w in waited :: MustWait(w) && Runs(old(world), w)
      {
        var done;
        done, hand := Poll(old(world), hand, polls[i]);
        if done { n := n + 1; } else { waited := waited + [world]; }
        i := i + 1;
      }
    }

    /** One poll: go on with the fragment in hand, or take the next one. */
    method Poll(ghost s0: State, hand: Option<Item>, o: Outcome) returns (done: bool, next: Option<Item>)
      requires Valid() && Runs(s0, world)
      requires if hand.Some? then world.worker == Buffering(hand.value) else world.worker.Idle?
      modifies this, manager, connection
      ensures Valid() && Runs(s0, world)
      ensures if next.Some? then world.worker == Buffering(next.value) else world.worker.Idle?
      ensures if done then |world.handled| == |old(world).handled| + 1 && old(world).handled <= world.handled
                           && (hand.Some? || old(fragments) != [] ==>
                                 world.handled[|old(world).handled|]
                                 == if hand.Some? then hand.value else old(fragments)[0])
              else world.handled == old(world).handled && MustWait(world)
    {
      hide Runs, OthersRun, K.Inv, Sound;
      ghost var s1 := world;
      if hand.Some? {
        done := BufferFragment(s0, hand.value, o);
        return done, if done then None else hand;
      }
      Interleave(UploadWorker);
      WorkerContinues(s0, s1, world);
      if fragments == [] {
        return false, None;
      }
      ghost var s2 := world;
      var item := fragments[0];
      done := HandleItem(o);
      RunsThrough(s0, s2, world);
      next := if done then None else Some(item);
    }

    // ---- delivering the buffer manager's events ----

    /** Take the handle of the recovery task, if one is known, and abort it. */
    method CancelRecoveryTask(ghost s0: State, ghost t: nat) returns (cancelled: bool)
      requires Valid() && Runs(s0, world) && t < |world.tasks|
      requires world.tasks[t].pc.Delivering? && !world.tasks[t].pc.phase.Schedule?
      requires world.tasks[t].pc.events != [] && world.tasks[t].pc.events[0] == HistoricalUploadComplete(true)
      modifies this
      ensures Valid() && Runs(s0, world) && world == DeliverNext(old(world), t)
      ensures cancelled == old(recoveryTask).Some? && recoveryTask == None
    {
      hide Runs, K.Inv, Sound, DeliverNext;
      DeliverCancel(world, t);
      DeliverShape(world, t);
      OneStep(s0, world, TaskDo(t, Deliver));
      DeliverWrites(world, t);
      cancelled := recoveryTask.Some?;
      recoveryTask := None;
      world := DeliverNext(world, t);
    }

    /** Schedule the switch for the next keyframe, then, going live, cancel again: two sections, not one. */
    method SwitchMode(ghost s0: State, ghost t: nat, mode: Mode)
      requires Valid() && Runs(s0, world) && t < |world.tasks|
      requires world.tasks[t].pc.Delivering? && world.tasks[t].pc.events != []
      requires world.tasks[t].pc.events[0] == HistoricalUploadComplete(mode.Immediate?)
      requires world.tasks[t].pc.phase == if mode.Immediate? then Schedule else CancelFirst
      modifies this, manager, connection
      ensures Valid() && Runs(s0, world)
      ensures t < |world.tasks| && world.tasks[t].pc == Delivering(old(world).tasks[t].pc.events[1..], CancelFirst)
      ensures if mode.Immediate? then recoveryTask == None
              else pendingModeSwitch == Some(BufferOnly) && recoveryTask == old(recoveryTask)
    {
      hide Runs, OthersRun, K.Inv, Sound;
      ScheduleSwitch(s0, t, mode);
      if mode == Immediate {
        ghost var s2 := world;
        Interleave(TriggerTask(t));
        TaskContinues(s0, s2, world, t);
        DeliverCancel(world, t);
        var _ := CancelRecoveryTask(s0, t);
      }
    }

    method ScheduleSwitch(ghost s0: State, ghost t: nat, mode: Mode)
      requires Valid() && Runs(s0, world) && t < |world.tasks|
      requires world.tasks[t].pc.Delivering? && world.tasks[t].pc.events != []
      requires world.tasks[t].pc.events[0] == HistoricalUploadComplete(mode.Immediate?)
      requires world.tasks[t].pc.phase == if mode.Immediate? then Schedule else CancelFirst
      modifies this
      ensures Valid() && Runs(s0, world) && pendingModeSwitch == Some(mode) && recoveryTask == old(recoveryTask)
      ensures t < |world.tasks| && |world.tasks| == |old(world).tasks|
      ensures world.tasks[t].pc == if mode.Immediate? then Delivering(old(world).tasks[t].pc.events, CancelAgain)
                                   else Delivering(old(world).tasks[t].pc.events[1..], CancelFirst)
    {
      hide Runs, K.Inv, Sound, DeliverNext;
      DeliverShape(world, t);
      DeliverWrites(world, t);
      OneStep(s0, world, TaskDo(t, Deliver));
      if mode.Immediate? { DeliverSchedule(world, t); } else { DeliverLeave(world, t); }
      pendingModeSwitch := Some(mode);
      world := DeliverNext(world, t);
    }

    /** Take every event out of the channel, then act on them in order, with the others running in between. */
    method ProcessBufferEvents(ghost t: nat)
      requires Valid() && CanTask(world, t, Drain)
      modifies this, manager, connection
      ensures Valid() && Runs(old(world), world)
      ensures t < |world.tasks| && world.tasks[t].pc == Delivering([], CancelFirst)
    {
      hide Runs, OthersRun, K.Inv, Sound;
      ghost var s0 := world;
      var events := TakeEvents(t);
      var i := 0;
      while i < |events|
        invariant 0 <= i <= |events| && Valid() && Runs(s0, world)
        invariant t < |world.tasks| && world.tasks[t].pc == Delivering(events[i..], CancelFirst)
      {
        ghost var s1 := world;
        Interleave(TriggerTask(t));
        TaskContinues(s0, s1, world, t);
        assert events[i..][0] == events[i] && events[i..][1..] == events[i + 1..];
        HandleEvent(s0, t, events[i]);
        i := i + 1;
      }
    }

    /** The receiving end of the channel that the manager reports to. */
    method TakeEvents(ghost t: nat) returns (events: seq<Event>)
      requires Valid() && CanTask(world, t, Drain)
      modifies this, manager
      ensures Valid() && Runs(old(world), world) && events == old(manager.events) && manager.events == []
      ensures t < |world.tasks| && world.tasks[t].pc == Delivering(events, CancelFirst)
    {
      hide Runs, K.Inv, Sound;
      NoSteps(world);
      OneStep(world, world, TaskDo(t, Drain));
      events := manager.events;
      manager.events := [];
      world := DoTask(world, t, Drain);
    }

    method HandleEvent(ghost s0: State, ghost t: nat, event: Event)
      requires Valid() && Runs(s0, world) && t < |world.tasks|
      requires world.tasks[t].pc.Delivering? && world.tasks[t].pc.phase.CancelFirst?
      requires world.tasks[t].pc.events != [] && world.tasks[t].pc.events[0] == event
      modifies this, manager, connection
      ensures Valid() && Runs(s0, world)
      ensures t < |world.tasks| && world.tasks[t].pc == Delivering(old(world).tasks[t].pc.events[1..], CancelFirst)
      ensures match event
              case UploadError => pendingModeSwitch == old(pendingModeSwitch) && recoveryTask == old(recoveryTask)
              case HistoricalUploadComplete(live) =>
                if live then recoveryTask == None
                else pendingModeSwitch == Some(BufferOnly) && recoveryTask == old(recoveryTask)
    {
      hide Runs, OthersRun, K.Inv, Sound;
      match event
      case HistoricalUploadComplete(live) =>
        if live {
          DeliverCancel(world, t);
          var _ := CancelRecoveryTask(s0, t);
          ghost var s1 := world;
          Interleave(TriggerTask(t));
          TaskContinues(s0, s1, world, t);
          SwitchMode(s0, t, Immediate);
        } else {
          SwitchMode(s0, t, BufferOnly);
        }
      case UploadError => ReportError(s0, t);
    }

    /** An upload error is logged, and nothing else. */
    method ReportError(ghost s0: State, ghost t: nat)
      requires Valid() && Runs(s0, world) && t < |world.tasks|
      requires world.tasks[t].pc.Delivering? && world.tasks[t].pc.events != []
               && world.tasks[t].pc.events[0] == UploadError
      modifies this
      ensures Valid() && Runs(s0, world)
      ensures t < |world.tasks| && world.tasks[t].pc == Delivering(old(world).tasks[t].pc.events[1..], CancelFirst)
      ensures pendingModeSwitch == old(pendingModeSwitch) && recoveryTask == old(recoveryTask)
    {
      hide Runs, K.Inv, Sound, DeliverNext;
      DeliverError(world, t);
      DeliverShape(world, t);
      DeliverWrites(world, t);
      OneStep(s0, world, TaskDo(t, Deliver));
      world := DeliverNext(world, t);
    }
  }
}
