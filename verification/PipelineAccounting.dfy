/**
 End-to-end accounting over every interleaving: each finalized fragment is counted once as dropped, or is on
 its way, or was handled in acceptance order. As long as no step overwrites or deletes a live file, a handled
 one is then found in a file on disk or was accepted by the uploader; which steps do is stated exactly.
 */
module PipelineAccounting {
  import opened Wrappers
  import opened BufferEvents
  import opened Pipeline
  import opened BufferLoss
  import opened BufferInvariant
  import RecordLog
  import B = BufferModel
  import T = BufferTrigger
  import C = CrashRecovery

  // ---- the way of a fragment up to the worker ----

  predicate HasId(items: seq<Item>, id: nat) { exists i | 0 <= i < |items| :: items[i].id == id }

  predicate Ascending(items: seq<Item>) {
    forall i, j | 0 <= i < j < |items| :: items[i].id < items[j].id
  }

  predicate AllBelow(items: seq<Item>, n: nat) {
    forall i | 0 <= i < |items| :: items[i].id < n
  }

  /** The ids given out so far that are no longer in the streaming thread's hand. */
  function Settled(s: State): nat {
    match InRender(s.render)
    case Some(item) => item.id
    case None => s.nextId
  }

  /** Acceptance order is worker order, and each id has exactly one fate. */
  predicate Ordered(s: State) {
    && s.queued == s.handled + InWorker(s.worker) + s.queue
    && |s.queue| <= FRAGMENT_QUEUE_CAPACITY
    && (InRender(s.render).Some? ==> s.nextId == InRender(s.render).value.id + 1)
    && Ascending(s.queued) && Ascending(s.dropped)
    && AllBelow(s.queued, Settled(s)) && AllBelow(s.dropped, Settled(s))
    && (forall id: nat | id < Settled(s) :: HasId(s.queued, id) || HasId(s.dropped, id))
    && (forall i, j | 0 <= i < |s.queued| && 0 <= j < |s.dropped| :: s.queued[i].id != s.dropped[j].id)
  }

  lemma HasIdSnoc(items: seq<Item>, item: Item, id: nat)
    ensures HasId(items + [item], id) <==> HasId(items, id) || item.id == id
  {
    var all := items + [item];
    if HasId(items, id) {
      var i :| 0 <= i < |items| && items[i].id == id;
      assert all[i].id == id;
    }
    if item.id == id { assert all[|items|].id == id; }
    if HasId(all, id) {
      var i :| 0 <= i < |all| && all[i].id == id;
      if i < |items| { assert items[i].id == id; }
    }
  }

  lemma AcceptOrdered(s: State)
    requires Ordered(s) && s.render.Sending? && |s.queue| < FRAGMENT_QUEUE_CAPACITY
    ensures Ordered(DoRender(s, TrySend(true)))
  {
    var item, s' := s.render.item, DoRender(s, TrySend(true));
    forall id: nat | id < Settled(s') ensures HasId(s'.queued, id) || HasId(s'.dropped, id) {
      HasIdSnoc(s.queued, item, id);
      assert id < item.id ==> HasId(s.queued, id) || HasId(s.dropped, id);
    }
    hide HasId;
    assert s.handled + InWorker(s.worker) + (s.queue + [item]) == s.handled + InWorker(s.worker) + s.queue + [item];
  }

  lemma DropOrdered(s: State)
    requires Ordered(s) && s.render.Counting?
    ensures Ordered(DoRender(s, CountDrop))
  {
    var item, s' := s.render.item, DoRender(s, CountDrop);
    forall id: nat | id < Settled(s') ensures HasId(s'.queued, id) || HasId(s'.dropped, id) {
      HasIdSnoc(s.dropped, item, id);
      assert id < item.id ==> HasId(s.queued, id) || HasId(s.dropped, id);
    }
    hide HasId;
  }

  lemma RenderOrdered(s: State, step: RenderStep)
    requires Ordered(s) && CanRender(s, step)
    ensures Ordered(DoRender(s, step))
  {
    if step.TrySend? && step.open && |s.queue| < FRAGMENT_QUEUE_CAPACITY {
      AcceptOrdered(s);
    } else if step.CountDrop? {
      DropOrdered(s);
    } else {
      var s' := DoRender(s, step);
      assert s'.queue == s.queue && s'.queued == s.queued && s'.dropped == s.dropped && s'.handled == s.handled;
      assert s'.worker == s.worker && Settled(s') == Settled(s);
      hide HasId, Ascending, AllBelow, DoRender;
    }
  }

  lemma WorkOrdered(s: State, step: WorkerStep)
    requires Ordered(s) && CanWork(s, step)
    ensures Ordered(DoWork(s, step))
  {
    var s' := DoWork(s, step);
    hide HasId, Pushed;
    assert s'.queued == s'.handled + InWorker(s'.worker) + s'.queue;
  }

  lemma TaskOrdered(s: State, t: nat, step: TaskStep)
    requires Ordered(s) && CanTask(s, t, step)
    ensures Ordered(DoTask(s, t, step))
  {
    TaskLeavesFragments(s, t, step);
    hide DoTask, CanTask, HasId, Ascending, AllBelow;
  }

  /** The fields no task touches: everything on the way from the streaming thread to the worker. */
  predicate SameFragments(s: State, s': State) {
    && s'.queue == s.queue && s'.queued == s.queued && s'.dropped == s.dropped && s'.handled == s.handled
    && s'.render == s.render && s'.worker == s.worker && s'.nextId == s.nextId
    && s'.pendingNewSession == s.pendingNewSession && s'.sessionResetInFlight == s.sessionResetInFlight
    && s'.writerSession == s.writerSession && s'.currentMode == s.currentMode
    && s'.pushErrors == s.pushErrors && s'.uploaded == s.uploaded
  }

  lemma TaskLeavesFragments(s: State, t: nat, step: TaskStep)
    requires CanTask(s, t, step)
    ensures SameFragments(s, DoTask(s, t, step))
  {
    if step.Deliver? {
      DeliverShape(s, t);
    } else {
      hide HoldsBuffer, Found;
    }
  }

  /** A task step changes no other task but for abort flags, and takes or gives back only its own lock. */
  predicate OnlyTask(s: State, s': State, t: nat) {
    && |s'.tasks| == |s.tasks|
    && (forall u | 0 <= u < |s.tasks| ::
          s'.tasks[u].kind == s.tasks[u].kind && (u != t ==> s'.tasks[u].pc == s.tasks[u].pc))
  }

  /** Nothing about files, events or the lock changes. */
  predicate SameDisk(s: State, s': State) {
    s'.buf == s.buf && s'.sent == s.sent && s'.uploaded == s.uploaded && s'.bufferOwner == s.bufferOwner
  }

  lemma CancelShape(s: State)
    ensures SameFragments(s, Cancel(s)) && SameDisk(s, Cancel(s)) && Cancel(s).pendingModeSwitch == s.pendingModeSwitch
    ensures |Cancel(s).tasks| == |s.tasks|
    ensures forall u | 0 <= u < |s.tasks| ::
              Cancel(s).tasks[u].kind == s.tasks[u].kind && Cancel(s).tasks[u].pc == s.tasks[u].pc
  {
  }

  lemma SetPcShape(s: State, s1: State, t: nat, pc: TaskPc)
    requires SameFragments(s, s1) && SameDisk(s, s1) && t < |s1.tasks| == |s.tasks|
    requires forall u | 0 <= u < |s.tasks| :: s1.tasks[u].kind == s.tasks[u].kind && s1.tasks[u].pc == s.tasks[u].pc
    ensures var s' := SetPc(s1, t, pc);
            SameFragments(s, s') && SameDisk(s, s') && OnlyTask(s, s', t) && s'.tasks[t].pc == pc
  {
  }

  lemma DeliverShape(s: State, t: nat)
    requires t < |s.tasks| && s.tasks[t].pc.Delivering?
    ensures var s' := DeliverNext(s, t);
            && SameFragments(s, s') && OnlyTask(s, s', t)
            && s'.buf == s.buf && s'.sent == s.sent && s'.uploaded == s.uploaded
            && (s'.tasks[t].pc.Delivering? || s'.tasks[t].pc.Finished?)
            && s'.bufferOwner == if s'.tasks[t].pc.Finished? && s.bufferOwner == Some(t) then None else s.bufferOwner
  {
    var s', pc := DeliverNext(s, t), s.tasks[t].pc;
    if pc.events == [] {
      SetPcShape(s, s, t, Finished);
      hide Cancel;
    } else if pc.events[0].HistoricalUploadComplete? && pc.events[0].switchToStreaming && !pc.phase.Schedule? {
      CancelShape(s);
      var next := if pc.phase.CancelFirst? then Delivering(pc.events, Schedule)
        else Delivering(pc.events[1..], CancelFirst);
      assert s' == SetPc(Cancel(s), t, next);
      hide Cancel, DeliverNext;
      SetPcShape(s, Cancel(s), t, next);
    } else {
      var pending := if pc.events[0].UploadError? then s.pendingModeSwitch
                     else if pc.events[0].switchToStreaming then Some(Immediate) else Some(BufferOnly);
      var next := if pc.phase.Schedule? && pc.events[0].HistoricalUploadComplete? && pc.events[0].switchToStreaming
                  then Delivering(pc.events, CancelAgain) else Delivering(pc.events[1..], CancelFirst);
      assert s' == SetPc(s.(pendingModeSwitch := pending), t, next);
      hide Cancel, DeliverNext;
      SetPcShape(s, s.(pendingModeSwitch := pending), t, next);
    }
  }

  // ---- the buffer under the machine ----

  /** The one task that may touch the buffer is the owner of its lock. */
  predicate Exclusive(s: State) {
    && (s.bufferOwner.Some? ==> s.bufferOwner.value < |s.tasks|)
    && (forall t | 0 <= t < |s.tasks| :: HoldsBuffer(s.tasks[t]) <==> s.bufferOwner == Some(t))
  }

  /** The records put so far of the file being uploaded. */
  predicate PassOk(s: State, pc: TaskPc) {
    pc.Uploading? && pc.paths != [] ==>
      var found := Found(s.buf, pc.paths[0]);
      pc.next <= |found| && forall k | 0 <= k < pc.next :: found[k] in s.sent
  }

  predicate PassesOk(s: State) {
    forall t | 0 <= t < |s.tasks| :: PassOk(s, s.tasks[t].pc)
  }

  /** Passes record what was put. */
  predicate PassesSent(s: State) {
    forall p | p in s.buf.passes :: forall x | x in p.accepted :: x in s.sent
  }

  predicate OpenIsEmpty(b: B.Buf) {
    b.current.Some? && b.current.value.path in b.disk ==> b.disk[b.current.value.path] == []
  }

  /** Nothing is pushed during an upload. */
  predicate UploadsOpenEmpty(s: State) {
    forall t | 0 <= t < |s.tasks| && s.tasks[t].pc.Uploading? :: OpenIsEmpty(s.buf)
  }

  /** Every fragment on its way fits in memory together with a file. */
  predicate Fits(s: State) {
    && (forall i | 0 <= i < |s.queued| :: Pushable(s.queued[i].fragment))
    && (InRender(s.render).Some? ==> Pushable(InRender(s.render).value.fragment))
  }

  ghost predicate Base(s: State) {
    Exclusive(s) && PassesOk(s) && PassesSent(s) && UploadsOpenEmpty(s) && CurrentOk(s.buf) && Fits(s)
  }

  /** The streaming thread touches no task, no file and nothing the worker has finished. */
  lemma RenderLeavesDisk(s: State, step: RenderStep)
    requires CanRender(s, step)
    ensures var s' := DoRender(s, step);
            SameDisk(s, s') && s'.tasks == s.tasks && s'.handled == s.handled && s'.pushErrors == s.pushErrors
  {
    hide Pushable;
  }

  lemma RenderFits(s: State, step: RenderStep)
    requires Fits(s) && CanRender(s, step)
    ensures Fits(DoRender(s, step))
  {
    hide Pushable;
  }

  lemma BaseFrame(s: State, s': State)
    requires Base(s) && SameDisk(s, s') && s'.tasks == s.tasks && Fits(s')
    ensures Base(s')
  {
    hide Pushable, CurrentOk, Found;
    forall t | 0 <= t < |s'.tasks| ensures PassOk(s', s'.tasks[t].pc) { assert PassOk(s, s.tasks[t].pc); }
  }

  lemma RenderBase(s: State, step: RenderStep)
    requires Base(s) && CanRender(s, step)
    ensures Base(DoRender(s, step))
  {
    RenderLeavesDisk(s, step);
    RenderFits(s, step);
    hide DoRender, CanRender;
    BaseFrame(s, DoRender(s, step));
  }

  // ---- the worker ----

  lemma CurrentOkShrinks(b: B.Buf, b': B.Buf)
    requires CurrentOk(b) && b'.current == b.current && b'.contents == b.contents && DiskShrinks(b, b')
    ensures CurrentOk(b')
  {
  }

  lemma {:induction false} CleanupHistory(b: B.Buf, now: int, removes: string -> bool)
    ensures B.Cleanup(b, now, removes).passes == b.passes && B.Cleanup(b, now, removes).events == b.events
    decreases |b.files|
  {
    if b.files == [] || !B.Expired(b, b.files[0], now) {
    } else {
      CleanupHistory(B.PopFront(b, removes(b.files[0].path)), now, removes);
    }
  }

  /** A push adds no pass and no event, and leaves the open file well formed. */
  lemma PushedKeeps(b: B.Buf, f: RecordLog.Fragment, outcome: B.PushOutcome, checkAt: int, createAt: nat,
                    sweep: Option<Sweep>)
    requires CurrentOk(b) && Pushable(f)
    ensures var b' := Pushed(b, f, outcome, checkAt, createAt, sweep);
            CurrentOk(b') && b'.passes == b.passes && b'.events == b.events
  {
    match outcome
    case Written =>
      var op := T.DoPush(f, checkAt, createAt);
      PushLosesExactly(b, op);
      var b1 := B.Push(b, f, checkAt, createAt);
      assert b1.passes == b.passes && b1.events == b.events;
      hide B.Push, Pushable, OpLoses, Harmful, Loses;
      if sweep.Some? {
        CleanupLosesExactly(b1, sweep.value.now, Removes(sweep.value.undeletable));
        CleanupHistory(b1, sweep.value.now, Removes(sweep.value.undeletable));
        CurrentOkShrinks(b1, B.Cleanup(b1, sweep.value.now, Removes(sweep.value.undeletable)));
      }
    case WriteFails =>
      if B.ShouldRotate(b, checkAt) { CreatedLoses(b, createAt, f.timestampNs); }
    case CreateFails =>
  }

  lemma PushedEvents(b: B.Buf, f: RecordLog.Fragment, outcome: B.PushOutcome, checkAt: int, createAt: nat,
                     sweep: Option<Sweep>)
    ensures Pushed(b, f, outcome, checkAt, createAt, sweep).events == b.events
  {
    var b1 := B.Push(b, f, checkAt, createAt);
    assert b1.events == b.events && B.Rotated(b, f, checkAt, createAt).events == b.events;
    if sweep.Some? { CleanupHistory(b1, sweep.value.now, Removes(sweep.value.undeletable)); }
    hide B.Push, B.Rotated, B.Cleanup;
  }

  lemma WorkBase(s: State, step: WorkerStep)
    requires Ordered(s) && Base(s) && CanWork(s, step)
    ensures Base(DoWork(s, step))
  {
    var s' := DoWork(s, step);
    WorkFits(s, step);
    WorkTasks(s, step);
    if step.Push? {
      PushBase(s, step);
    } else {
      assert s'.buf == s.buf && s'.sent == s.sent;
      hide DoWork, CanWork, Pushable, Found, CurrentOk, Ordered;
      forall t | 0 <= t < |s'.tasks| ensures PassOk(s', s'.tasks[t].pc) {
        if t < |s.tasks| { assert PassOk(s, s.tasks[t].pc); }
      }
    }
  }

  lemma WorkFits(s: State, step: WorkerStep)
    requires Fits(s) && CanWork(s, step)
    ensures Fits(DoWork(s, step))
  {
    hide Pushable, Pushed;
  }

  lemma WorkTasks(s: State, step: WorkerStep)
    requires Exclusive(s) && CanWork(s, step)
    ensures Exclusive(DoWork(s, step)) && DoWork(s, step).bufferOwner == s.bufferOwner
    ensures s.tasks <= DoWork(s, step).tasks
    ensures forall t | |s.tasks| <= t < |DoWork(s, step).tasks| :: DoWork(s, step).tasks[t].pc.Sleeping?
  {
    hide Pushed;
  }

  lemma WorkerFits(s: State)
    requires Ordered(s) && Fits(s) && !s.worker.Idle?
    ensures Pushable(s.worker.item.fragment)
  {
    assert s.queued[|s.handled|] == s.worker.item;
  }

  /** A push meets no upload under way. */
  lemma PushBase(s: State, step: WorkerStep)
    requires Ordered(s) && Base(s) && CanWork(s, step) && step.Push?
    requires Exclusive(DoWork(s, step)) && Fits(DoWork(s, step))
    ensures Base(DoWork(s, step))
  {
    var s' := DoWork(s, step);
    WorkerFits(s);
    PushedKeeps(s.buf, s.worker.item.fragment, step.outcome, step.checkAt, step.createAt, step.sweep);
    assert s'.tasks == s.tasks && s'.sent == s.sent;
    hide Pushed, CurrentOk, Found, Ordered, Pushable;
    forall t | 0 <= t < |s'.tasks| ensures !s'.tasks[t].pc.Uploading? {
      assert HoldsBuffer(s.tasks[t]) <==> s.bufferOwner == Some(t);
    }
  }

  // ---- trigger and recovery tasks ----

  /** What a task step leaves of the buffer, and what it puts. */
  predicate BufferMoves(s: State, s': State, pc: TaskPc) {
    && (CurrentOk(s.buf) ==> CurrentOk(s'.buf))
    && (forall x | x in s.sent :: x in s'.sent)
    && (PassOk(s, pc) && PassesSent(s) ==> PassesSent(s'))
  }

  lemma SelectMoves(s: State, t: nat, step: TaskStep)
    requires CanTask(s, t, step) && (step.Select? || step.FailTrigger?)
    ensures var s' := DoTask(s, t, step);
            && BufferMoves(s, s', s.tasks[t].pc)
            && t < |s'.tasks| && PassOk(s', s'.tasks[t].pc) && OpenIsEmpty(s'.buf)
  {
    if step.Select? { CreatedLoses(s.buf, step.createAt, step.createAt); }
    hide B.Selected, Loses, Live, Found;
  }

  /** A pass that ends: what it put is what it records. */
  lemma PassMoves(s: State, t: nat, step: TaskStep)
    requires CanTask(s, t, step) && (step.FailFile? || step.FinishFile?)
    ensures var s' := DoTask(s, t, step);
            && BufferMoves(s, s', s.tasks[t].pc)
            && t < |s'.tasks| && PassOk(s', s'.tasks[t].pc) && (OpenIsEmpty(s.buf) ==> OpenIsEmpty(s'.buf))
  {
    var path := s.tasks[t].pc.paths[0];
    var found := Found(s.buf, path);
    var p := B.Pass(path, if step.FailFile? then found[..s.tasks[t].pc.next] else found, step.FinishFile?);
    var removed := step.FinishFile? && step.removed;
    var s', b' := DoTask(s, t, step), B.RecordPass(s.buf, p, removed);
    assert s'.buf == b' && s'.sent == s.sent && s'.tasks[t].pc.next == 0;
    RecordPassSight(s.buf, p, removed, path);
    assert b'.passes == s.buf.passes + [p];
    hide DoTask, CanTask, B.RecordPass;
    CurrentMoves(s.buf, b');
    assert forall q | q in b'.passes :: q == p || q in s.buf.passes;
  }

  lemma CurrentMoves(b: B.Buf, b': B.Buf)
    requires b'.current == b.current && b'.contents == b.contents && DiskShrinks(b, b')
    ensures (CurrentOk(b) ==> CurrentOk(b')) && (OpenIsEmpty(b) ==> OpenIsEmpty(b'))
  {
  }

  lemma PutMoves(s: State, t: nat)
    requires CanTask(s, t, PutRecord) && PassOk(s, s.tasks[t].pc)
    ensures var s' := DoTask(s, t, PutRecord);
            && BufferMoves(s, s', s.tasks[t].pc) && s'.buf == s.buf
            && t < |s'.tasks| && PassOk(s', s'.tasks[t].pc)
  {
    hide CurrentOk, Found;
  }

  lemma OtherMoves(s: State, t: nat, step: TaskStep)
    requires CanTask(s, t, step)
    requires !step.Select? && !step.FailTrigger? && !step.FailFile? && !step.FinishFile? && !step.PutRecord?
    ensures var s' := DoTask(s, t, step);
            && BufferMoves(s, s', s.tasks[t].pc) && s'.buf.disk == s.buf.disk
            && t < |s'.tasks| && !s'.tasks[t].pc.Uploading?
  {
    if step.Deliver? {
      DeliverShape(s, t);
      hide DeliverNext;
    }
    hide Found;
  }

  lemma TaskMoves(s: State, t: nat, step: TaskStep)
    requires CanTask(s, t, step) && PassOk(s, s.tasks[t].pc)
    ensures var s' := DoTask(s, t, step);
            && BufferMoves(s, s', s.tasks[t].pc) && t < |s'.tasks| && PassOk(s', s'.tasks[t].pc)
            && (s'.tasks[t].pc.Uploading? && (s.tasks[t].pc.Uploading? ==> OpenIsEmpty(s.buf)) ==> OpenIsEmpty(s'.buf))
            && (!HoldsBuffer(s.tasks[t]) ==> s'.buf.disk == s.buf.disk)
  {
    hide DoTask, BufferMoves, PassOk, OpenIsEmpty;
    if step.Select? || step.FailTrigger? { SelectMoves(s, t, step); }
    else if step.FailFile? || step.FinishFile? { PassMoves(s, t, step); }
    else if step.PutRecord? { PutMoves(s, t); }
    else { OtherMoves(s, t, step); NotUploading(DoTask(s, t, step), t); }
  }

  lemma NotUploading(s: State, t: nat)
    requires t < |s.tasks| && !s.tasks[t].pc.Uploading?
    ensures PassOk(s, s.tasks[t].pc)
  {
  }

  /** What a step does to the lock and to the other tasks. */
  predicate OwnerMoves(s: State, s': State, t: nat) {
    && OnlyTask(s, s', t) && t < |s'.tasks|
    && (HoldsBuffer(s'.tasks[t]) <==> s'.bufferOwner == Some(t))
    && (s'.bufferOwner == Some(t) || s'.bufferOwner == s.bufferOwner
        || (s.bufferOwner == Some(t) && s'.bufferOwner == None))
    && (s'.bufferOwner == Some(t) ==> s.bufferOwner == Some(t) || s.bufferOwner == None)
  }

  lemma UploadOwner(s: State, t: nat, step: TaskStep)
    requires CanTask(s, t, step) && (HoldsBuffer(s.tasks[t]) <==> s.bufferOwner == Some(t))
    requires step.Select? || step.FailFile? || step.FinishFile? || step.PutRecord?
    ensures OwnerMoves(s, DoTask(s, t, step), t)
  {
    hide Found, B.RecordPass, B.Selected, B.Finalize, B.StartNew;
  }

  /** The lock after a step: held by the task if its new place holds it, given back if it no longer does. */
  lemma TaskOwner(s: State, t: nat, step: TaskStep)
    requires CanTask(s, t, step) && (HoldsBuffer(s.tasks[t]) <==> s.bufferOwner == Some(t))
    ensures OwnerMoves(s, DoTask(s, t, step), t)
  {
    hide Found, B.RecordPass, B.Selected, B.Finalize, B.StartNew;
    if step.Deliver? {
      DeliverShape(s, t);
      hide DeliverNext;
    } else if step.Select? || step.FailFile? || step.FinishFile? || step.PutRecord? {
      UploadOwner(s, t, step);
      hide DoTask;
    }
  }

  lemma TaskExclusive(s: State, t: nat, step: TaskStep)
    requires Exclusive(s) && CanTask(s, t, step)
    ensures Exclusive(DoTask(s, t, step))
  {
    assert HoldsBuffer(s.tasks[t]) <==> s.bufferOwner == Some(t);
    TaskOwner(s, t, step);
    var s' := DoTask(s, t, step);
    hide DoTask;
    forall u | 0 <= u < |s'.tasks| ensures HoldsBuffer(s'.tasks[u]) <==> s'.bufferOwner == Some(u) {
      assert HoldsBuffer(s.tasks[u]) <==> s.bufferOwner == Some(u);
    }
  }

  lemma TaskBase(s: State, t: nat, step: TaskStep)
    requires Base(s) && CanTask(s, t, step)
    ensures Base(DoTask(s, t, step))
  {
    var s' := DoTask(s, t, step);
    assert PassOk(s, s.tasks[t].pc);
    assert HoldsBuffer(s.tasks[t]) <==> s.bufferOwner == Some(t);
    TaskMoves(s, t, step);
    TaskOwner(s, t, step);
    TaskExclusive(s, t, step);
    TaskLeavesFragments(s, t, step);
    hide DoTask, CanTask, CurrentOk, Pushable;
    forall u | 0 <= u < |s'.tasks|
      ensures PassOk(s', s'.tasks[u].pc) && (s'.tasks[u].pc.Uploading? ==> OpenIsEmpty(s'.buf))
    {
      assert PassOk(s, s.tasks[u].pc);
      assert HoldsBuffer(s.tasks[u]) <==> s.bufferOwner == Some(u);
      if u != t { OtherPass(s, s', t, u); }
    }
  }

  /** Another task's upload is left alone: had it one, it would own the buffer. */
  lemma OtherPass(s: State, s': State, t: nat, u: nat)
    requires t < |s.tasks| && u < |s.tasks| == |s'.tasks| && u != t && s'.tasks[u].pc == s.tasks[u].pc
    requires PassOk(s, s.tasks[u].pc) && UploadsOpenEmpty(s)
    requires HoldsBuffer(s.tasks[u]) <==> s.bufferOwner == Some(u)
    requires HoldsBuffer(s.tasks[t]) <==> s.bufferOwner == Some(t)
    requires !HoldsBuffer(s.tasks[t]) ==> s'.buf.disk == s.buf.disk
    requires !HoldsBuffer(s.tasks[t]) ==> s'.buf.current == s.buf.current || OpenIsEmpty(s'.buf)
    requires forall x | x in s.sent :: x in s'.sent
    ensures PassOk(s', s'.tasks[u].pc) && (s'.tasks[u].pc.Uploading? ==> OpenIsEmpty(s'.buf))
  {
  }

  // ---- which steps lose something ----

  /** A step that creates a file under the name of a live one, appends to a deleted file, or sweeps a live one. */
  predicate HarmfulStep(s: State, step: Step)
    requires Can(s, step)
  {
    match step
    case Work(Push(outcome, checkAt, createAt, sweep)) =>
      var op := T.DoPush(s.worker.item.fragment, checkAt, createAt);
      (match outcome
       case Written =>
         Harmful(s.buf, op)
         || (sweep.Some? && SweepLoses(T.Do(s.buf, op), sweep.value.now, Removes(sweep.value.undeletable)))
       case WriteFails => Overwrites(s.buf, op)
       case CreateFails => false)
    case TaskDo(_, Select(start, end, createAt)) =>
      T.Targets(s.buf, start, end) != [] && Live(B.Finalize(s.buf), B.NewName(s.buf, createAt))
    case _ => false
  }

  /** Some records that were safe no longer are, at some point of the step, or the pushed fragment is not stored. */
  ghost predicate StepLoses(s: State, step: Step)
    requires Can(s, step)
  {
    if step.Work? && step.work.Push? && step.work.outcome.Written? then
      var op := T.DoPush(s.worker.item.fragment, step.work.checkAt, step.work.createAt);
      OpLoses(s.buf, op) || Loses(T.Do(s.buf, op), Do(s, step).buf)
    else Loses(s.buf, Do(s, step).buf)
  }

  lemma NoLoss(b: B.Buf, b': B.Buf)
    requires b'.disk == b.disk && b'.files == b.files && b'.current == b.current && b'.passes == b.passes
    ensures !Loses(b, b')
  {
    forall n: string, r: seq<RecordLog.Fragment> | r != [] && Keeps(b, n, r) ensures Keeps(b', n, r) {
      assert InSight(b, n) ==> InSight(b', n);
    }
  }

  lemma PushStepLoses(s: State, step: WorkerStep)
    requires Ordered(s) && Base(s) && CanWork(s, step) && step.Push?
    ensures StepLoses(s, Work(step)) <==> HarmfulStep(s, Work(step))
  {
    WorkerFits(s);
    var f := s.worker.item.fragment;
    var op := T.DoPush(f, step.checkAt, step.createAt);
    assert Do(s, Work(step)).buf == Pushed(s.buf, f, step.outcome, step.checkAt, step.createAt, step.sweep);
    assert CurrentOk(s.buf);
    hide Ordered, Base, DoWork, CanWork, Do, Loses, Live, Harmful, OpLoses, SweepLoses, CurrentOk, Pushable;
    match step.outcome
    case Written =>
      PushLosesExactly(s.buf, op);
      var b1 := T.Do(s.buf, op);
      assert b1 == B.Push(s.buf, f, step.checkAt, step.createAt);
      if step.sweep.Some? {
        CleanupLosesExactly(b1, step.sweep.value.now, Removes(step.sweep.value.undeletable));
      } else {
        NoLoss(b1, b1);
      }
    case WriteFails =>
      if B.ShouldRotate(s.buf, step.checkAt) {
        CreatedLoses(s.buf, step.createAt, f.timestampNs);
      } else {
        NoLoss(s.buf, s.buf);
      }
    case CreateFails =>
      FinalizeLosesNothing(s.buf);
      NoLoss(s.buf, s.buf);
  }

  lemma TaskStepLoses(s: State, t: nat, step: TaskStep)
    requires Base(s) && CanTask(s, t, step)
    ensures StepLoses(s, TaskDo(t, step)) <==> HarmfulStep(s, TaskDo(t, step))
  {
    hide Loses, Live, T.Targets, Found, CurrentOk, Fits, PassesOk, Exclusive, PassesSent;
    if step.Select? {
      SelectLoses(s, t, step);
    } else if step.FailTrigger? {
      assert DoTask(s, t, step).buf == B.Finalize(s.buf);
      FinalizeLosesNothing(s.buf);
    } else if step.FailFile? || step.FinishFile? {
      PassStepLoses(s, t, step);
    } else if step.CompleteTrigger? {
      var done := HistoricalUploadComplete(!(s.tasks[t].kind.Signal? && s.tasks[t].kind.bounded));
      assert DoTask(s, t, step).buf == B.Notify(s.buf.(current := None), done);
      DropEmptyLosesNothing(s.buf, done);
    } else {
      KeepsBuffer(s, t, step);
      NoLoss(s.buf, DoTask(s, t, step).buf);
    }
  }

  lemma KeepsBuffer(s: State, t: nat, step: TaskStep)
    requires CanTask(s, t, step) && !step.Select? && !step.FailTrigger? && !step.FailFile? && !step.FinishFile?
    requires !step.CompleteTrigger?
    ensures var b, b' := s.buf, DoTask(s, t, step).buf;
            b'.disk == b.disk && b'.files == b.files && b'.current == b.current && b'.passes == b.passes
  {
    if step.Deliver? { DeliverShape(s, t); hide DeliverNext; }
    hide Found;
  }

  lemma SelectLoses(s: State, t: nat, step: TaskStep)
    requires CanTask(s, t, step) && step.Select?
    ensures Loses(s.buf, DoTask(s, t, step).buf)
            <==> (T.Targets(s.buf, step.start, step.end) != []
                  && Live(B.Finalize(s.buf), B.NewName(s.buf, step.createAt)))
  {
    hide Loses, Live, B.Selected;
    CreatedLoses(s.buf, step.createAt, step.createAt);
    FinalizeLosesNothing(s.buf);
  }

  lemma PassStepLoses(s: State, t: nat, step: TaskStep)
    requires CanTask(s, t, step) && (step.FailFile? || step.FinishFile?)
    ensures !Loses(s.buf, DoTask(s, t, step).buf)
  {
    var path := s.tasks[t].pc.paths[0];
    var found := Found(s.buf, path);
    var p := B.Pass(path, if step.FailFile? then found[..s.tasks[t].pc.next] else found, step.FinishFile?);
    var removed := step.FinishFile? && step.removed;
    assert DoTask(s, t, step).buf == B.RecordPass(s.buf, p, removed);
    assert TruePass(s.buf.disk, p);
    hide DoTask, CanTask, B.RecordPass, TruePass;
    PassLosesNothing(s.buf, p, removed);
  }

  /** Over the whole machine: a step loses something exactly when it is harmful. */
  lemma StepLosesExactly(s: State, step: Step)
    requires Ordered(s) && Base(s) && Can(s, step)
    ensures StepLoses(s, step) <==> HarmfulStep(s, step)
  {
    match step
    case Render(r) =>
      RenderLeavesDisk(s, r);
      NoLoss(s.buf, s.buf);
    case Work(w) =>
      if w.Push? {
        PushStepLoses(s, w);
      } else {
        WorkKeepsBuffer(s, w);
        NoLoss(s.buf, s.buf);
      }
    case TaskDo(t, x) => TaskStepLoses(s, t, x);
    case Trigger(_) => NoLoss(s.buf, s.buf);
  }

  lemma WorkKeepsBuffer(s: State, step: WorkerStep)
    requires CanWork(s, step) && !step.Push?
    ensures DoWork(s, step).buf == s.buf
  {
  }

  // ---- what was handled stays delivered ----

  /** On disk where the manager will find it or accepted from there, accepted live, or a counted write error. */
  ghost predicate Delivered(s: State, item: Item) {
    Recoverable(s.buf, RecordLog.Stored(item.fragment)) || item.id in s.uploaded || item.id in s.pushErrors
  }

  ghost predicate HandledAreDelivered(s: State) {
    forall i | 0 <= i < |s.handled| :: Delivered(s, s.handled[i])
  }

  lemma WorkDelivers(s: State, step: WorkerStep)
    requires CanWork(s, step) && HandledAreDelivered(s) && !StepLoses(s, Work(step))
    ensures HandledAreDelivered(DoWork(s, step))
  {
    var s' := DoWork(s, step);
    if step.Push? {
      PushDelivers(s, step);
    } else {
      WorkKeepsBuffer(s, step);
      hide Recoverable, StepLoses;
      forall i | 0 <= i < |s'.handled| ensures Delivered(s', s'.handled[i]) {
        if i < |s.handled| { assert Delivered(s, s.handled[i]); }
      }
    }
  }

  lemma PushDelivers(s: State, step: WorkerStep)
    requires CanWork(s, step) && step.Push? && HandledAreDelivered(s) && !StepLoses(s, Work(step))
    ensures HandledAreDelivered(DoWork(s, step))
  {
    var s', f := DoWork(s, step), s.worker.item.fragment;
    var op := T.DoPush(f, step.checkAt, step.createAt);
    hide Recoverable, OpLoses, Loses, Pushed;
    forall x | Recoverable(s.buf, x) || (step.outcome.Written? && x == RecordLog.Stored(f))
      ensures Recoverable(s'.buf, x)
    {
      if step.outcome.Written? {
        OpKeeps(s.buf, op, x);
        RecoverableStays(T.Do(s.buf, op), s'.buf, x);
      } else {
        RecoverableStays(s.buf, s'.buf, x);
      }
    }
    forall i | 0 <= i < |s'.handled| ensures Delivered(s', s'.handled[i]) {
      if i < |s.handled| { assert Delivered(s, s.handled[i]); }
    }
  }

  lemma FrameDelivers(s: State, s': State)
    requires HandledAreDelivered(s) && !Loses(s.buf, s'.buf)
    requires s'.handled == s.handled && s'.uploaded == s.uploaded && s'.pushErrors == s.pushErrors
    ensures HandledAreDelivered(s')
  {
    hide Recoverable, Loses;
    forall i | 0 <= i < |s'.handled| ensures Delivered(s', s'.handled[i]) {
      var x := RecordLog.Stored(s.handled[i].fragment);
      assert Delivered(s, s.handled[i]);
      if Recoverable(s.buf, x) { RecoverableStays(s.buf, s'.buf, x); }
    }
  }

  lemma StepDelivers(s: State, step: Step)
    requires Can(s, step) && HandledAreDelivered(s) && !StepLoses(s, step)
    ensures HandledAreDelivered(Do(s, step))
  {
    match step
    case Render(r) =>
      RenderLeavesDisk(s, r);
      NoLoss(s.buf, s.buf);
      hide DoRender, HandledAreDelivered, Loses;
      FrameDelivers(s, DoRender(s, r));
    case Work(w) => WorkDelivers(s, w);
    case TaskDo(t, x) =>
      TaskLeavesFragments(s, t, x);
      hide DoTask, CanTask, HandledAreDelivered, Loses;
      FrameDelivers(s, DoTask(s, t, x));
    case Trigger(_) => FrameDelivers(s, Do(s, step));
  }

  // ---- runs ----

  lemma StepKeeps(s: State, step: Step)
    requires Ordered(s) && Base(s) && Can(s, step)
    ensures Ordered(Do(s, step)) && Base(Do(s, step))
  {
    hide Ordered, Base, DoRender, DoWork, DoTask, CanRender, CanWork, CanTask;
    match step
    case Render(r) => RenderOrdered(s, r); RenderBase(s, r);
    case Work(w) => WorkOrdered(s, w); WorkBase(s, w);
    case TaskDo(t, x) => TaskOrdered(s, t, x); TaskBase(s, t, x);
    case Trigger(kind) => TriggerKeeps(s, kind);
  }

  lemma TriggerKeeps(s: State, kind: Kind)
    requires Ordered(s) && Base(s) && !kind.Recovery?
    ensures var s' := s.(tasks := s.tasks + [Task(kind, WantBuffer, false)]);
            Ordered(s') && Base(s')
  {
    var s' := s.(tasks := s.tasks + [Task(kind, WantBuffer, false)]);
    hide HasId, Ascending, AllBelow, Pushable, CurrentOk, Found;
    forall t | 0 <= t < |s'.tasks| ensures PassOk(s', s'.tasks[t].pc) {
      if t < |s.tasks| { assert PassOk(s, s.tasks[t].pc); }
    }
  }

  lemma {:induction false} RunKeeps(s: State, steps: seq<Step>)
    requires Ordered(s) && Base(s) && IsRun(s, steps)
    ensures Ordered(After(s, steps)) && Base(After(s, steps))
    decreases |steps|
  {
    hide Ordered, Base, Can, Do;
    if steps == [] {
    } else {
      StepKeeps(s, steps[0]);
      RunKeeps(Do(s, steps[0]), steps[1..]);
    }
  }

  /** No step is harmful when its turn comes. */
  predicate HarmlessRun(s: State, steps: seq<Step>)
    requires IsRun(s, steps)
    decreases |steps|
  {
    steps == [] || (!HarmfulStep(s, steps[0]) && HarmlessRun(Do(s, steps[0]), steps[1..]))
  }

  ghost predicate RunLosesSome(s: State, steps: seq<Step>)
    requires IsRun(s, steps)
    decreases |steps|
  {
    steps != [] && (StepLoses(s, steps[0]) || RunLosesSome(Do(s, steps[0]), steps[1..]))
  }

  lemma {:induction false} RunLosesSomeIff(s: State, steps: seq<Step>)
    requires Ordered(s) && Base(s) && IsRun(s, steps)
    ensures RunLosesSome(s, steps) <==> !HarmlessRun(s, steps)
    decreases |steps|
  {
    hide Ordered, Base, Can, Do, StepLoses, HarmfulStep;
    if steps == [] {
    } else {
      StepLosesExactly(s, steps[0]);
      StepKeeps(s, steps[0]);
      RunLosesSomeIff(Do(s, steps[0]), steps[1..]);
    }
  }

  lemma {:induction false} RunDelivers(s: State, steps: seq<Step>)
    requires Ordered(s) && Base(s) && HandledAreDelivered(s) && IsRun(s, steps) && HarmlessRun(s, steps)
    ensures HandledAreDelivered(After(s, steps))
    decreases |steps|
  {
    hide Ordered, Base, Can, Do, StepLoses, HarmfulStep, HandledAreDelivered;
    if steps == [] {
    } else {
      StepLosesExactly(s, steps[0]);
      StepDelivers(s, steps[0]);
      StepKeeps(s, steps[0]);
      RunDelivers(Do(s, steps[0]), steps[1..]);
    }
  }

  lemma InitialKeeps(mode: Mode, b0: B.Buf)
    requires NewManager(b0)
    ensures Ordered(Initial(mode, b0)) && Base(Initial(mode, b0)) && HandledAreDelivered(Initial(mode, b0))
  {
  }

  // ---- the theorems ----

  /** A manager started on any directory will do, so the machine's runs begin where a restart does. */
  lemma StartIsNewManager(o: C.Origin)
    ensures NewManager(C.StartOf(o))
  {
  }

  /** How many of the five places a fragment is in. */
  function Places(s: State, id: nat): nat {
    (if HasId(s.dropped, id) then 1 else 0)
    + (if InRender(s.render).Some? && InRender(s.render).value.id == id then 1 else 0)
    + (if HasId(s.queue, id) then 1 else 0)
    + (if HasId(InWorker(s.worker), id) then 1 else 0)
    + (if HasId(s.handled, id) then 1 else 0)
  }

  lemma HasIdConcat(a: seq<Item>, b: seq<Item>, id: nat)
    ensures HasId(a + b, id) <==> HasId(a, id) || HasId(b, id)
  {
    if i :| 0 <= i < |a| && a[i].id == id { assert (a + b)[i].id == id; }
    if i :| 0 <= i < |b| && b[i].id == id { assert (a + b)[|a| + i].id == id; }
  }

  lemma AscendingOnce(a: seq<Item>, b: seq<Item>, id: nat)
    requires Ascending(a + b)
    ensures Ascending(a) && Ascending(b) && !(HasId(a, id) && HasId(b, id))
  {
    assert forall i | 0 <= i < |a| :: (a + b)[i] == a[i];
    assert forall i | 0 <= i < |b| :: (a + b)[|a| + i] == b[i];
    assert forall i, j | 0 <= i < |a| && 0 <= j < |b| :: a[i].id < b[j].id by {
      forall i, j | 0 <= i < |a| && 0 <= j < |b| ensures a[i].id < b[j].id {
        assert (a + b)[i].id < (a + b)[|a| + j].id;
      }
    }
  }

  lemma PlacesOfOrdered(s: State, id: nat)
    requires Ordered(s) && id < s.nextId
    ensures Places(s, id) == 1
  {
    var front := s.handled + InWorker(s.worker);
    HasIdConcat(front, s.queue, id);
    HasIdConcat(s.handled, InWorker(s.worker), id);
    AscendingOnce(front, s.queue, id);
    AscendingOnce(s.handled, InWorker(s.worker), id);
    if HasId(s.queued, id) {
      var i :| 0 <= i < |s.queued| && s.queued[i].id == id;
      assert !HasId(s.dropped, id);
    }
  }

  /**
   Accounting: after any interleaving, whatever the clock, every fragment finalized so far is in exactly one
   place: counted as dropped, in the streaming thread's hand, queued, in the worker's hand, or handled.
   */
  lemma EveryFragmentAccountedFor(mode: Mode, b0: B.Buf, steps: seq<Step>, id: nat)
    requires NewManager(b0) && IsRun(Initial(mode, b0), steps) && id < After(Initial(mode, b0), steps).nextId
    ensures Places(After(Initial(mode, b0), steps), id) == 1
  {
    InitialKeeps(mode, b0);
    RunKeeps(Initial(mode, b0), steps);
    hide Initial, IsRun, After;
    PlacesOfOrdered(After(Initial(mode, b0), steps), id);
  }

  /**
   Conservation: after any interleaving without a harmful step, every fragment the worker has handled was
   accepted live, met a counted write error, or is, as the disk stores it, found in a file the manager will
   get to or was read from one and accepted. A stored fragment is found by its value: two handled fragments
   that are stored as equal records may be found in the same place.
   */
  lemma HandledIsOnDiskOrAccepted(mode: Mode, b0: B.Buf, steps: seq<Step>, i: nat)
    requires NewManager(b0) && IsRun(Initial(mode, b0), steps) && HarmlessRun(Initial(mode, b0), steps)
    requires i < |After(Initial(mode, b0), steps).handled|
    ensures var s := After(Initial(mode, b0), steps);
            var item := s.handled[i];
            var x := RecordLog.Stored(item.fragment);
            || item.id in s.uploaded
            || item.id in s.pushErrors
            || (exists n | n in s.buf.disk :: InSight(s.buf, n) && x in Held(s.buf, n))
            || x in s.sent
  {
    InitialKeeps(mode, b0);
    RunKeeps(Initial(mode, b0), steps);
    RunDelivers(Initial(mode, b0), steps);
    hide Initial, IsRun, After, HarmlessRun;
    var s := After(Initial(mode, b0), steps);
    assert Delivered(s, s.handled[i]);
    var x := RecordLog.Stored(s.handled[i].fragment);
    if Recoverable(s.buf, x) { FoundOrSent(s, x); }
  }

  lemma FoundOrSent(s: State, x: RecordLog.Fragment)
    requires PassesSent(s) && Recoverable(s.buf, x)
    ensures (exists n | n in s.buf.disk :: InSight(s.buf, n) && x in Held(s.buf, n)) || x in s.sent
  {
    var n: string, r: seq<RecordLog.Fragment> :| x in r && Keeps(s.buf, n, r);
    if OnFile(s.buf, n, r) {
      assert x in Held(s.buf, n);
    } else {
      var p :| p in s.buf.passes && p.path == n && r <= p.accepted;
      assert x in p.accepted;
    }
  }

  /** The condition is exact: an interleaving loses something at some step if and only if one is harmful in its turn. */
  lemma InterleavingLosesIff(mode: Mode, b0: B.Buf, steps: seq<Step>)
    requires NewManager(b0) && IsRun(Initial(mode, b0), steps)
    ensures RunLosesSome(Initial(mode, b0), steps) <==> !HarmlessRun(Initial(mode, b0), steps)
  {
    InitialKeeps(mode, b0);
    RunLosesSomeIff(Initial(mode, b0), steps);
  }

  /** The worker handles fragments in exactly the order in which the queue accepted them. */
  lemma HandledInAcceptanceOrder(mode: Mode, b0: B.Buf, steps: seq<Step>)
    requires NewManager(b0) && IsRun(Initial(mode, b0), steps)
    ensures var s := After(Initial(mode, b0), steps);
            && s.handled <= s.queued && Ascending(s.queued)
            && s.queued == s.handled + InWorker(s.worker) + s.queue
            && |s.queue| <= FRAGMENT_QUEUE_CAPACITY
  {
    InitialKeeps(mode, b0);
    RunKeeps(Initial(mode, b0), steps);
  }

  /**
   An accepted fragment is never stuck: while one is queued or in the worker's hand, the worker can go on,
   or the task that holds the buffer manager can.
   */
  lemma WorkerCanGoOn(mode: Mode, b0: B.Buf, steps: seq<Step>)
    requires NewManager(b0) && IsRun(Initial(mode, b0), steps)
    requires var s := After(Initial(mode, b0), steps); s.queue != [] || !s.worker.Idle?
    ensures var s := After(Initial(mode, b0), steps);
            || (exists work :: CanWork(s, work))
            || (s.bufferOwner.Some? && exists step :: CanTask(s, s.bufferOwner.value, step))
  {
    InitialKeeps(mode, b0);
    RunKeeps(Initial(mode, b0), steps);
    hide Initial, IsRun, After;
    WorkerOrOwner(After(Initial(mode, b0), steps));
  }

  lemma WorkerOrOwner(s: State)
    requires Base(s) && (s.queue != [] || !s.worker.Idle?)
    ensures || (exists work :: CanWork(s, work))
            || (s.bufferOwner.Some? && exists step :: CanTask(s, s.bufferOwner.value, step))
  {
    hide CurrentOk, Pushable;
    match s.worker
    case Idle => assert CanWork(s, Receive);
    case ResettingSession(_) => assert CanWork(s, ResetResolves);
    case ClearingFlag(_) => assert CanWork(s, ClearInFlight);
    case Dispatching(item) => if item.mode.Immediate? { assert CanWork(s, PutAccepted); }
      else { assert CanWork(s, Route); }
    case CheckingTask(_) => assert CanWork(s, CheckTask);
    case EnteringBufferOnly(_) => assert CanWork(s, EnterBufferOnly);
    case Spawning(_) => assert CanWork(s, Spawn);
    case StoringHandle(_, _) => assert CanWork(s, StoreHandle);
    case Buffering(_) =>
      if s.bufferOwner.None? { assert CanWork(s, Push(B.Written, 0, 0, None)); } else { OwnerCanGoOn(s); }
  }

  lemma OwnerCanGoOn(s: State)
    requires Base(s) && s.bufferOwner.Some?
    ensures exists step :: CanTask(s, s.bufferOwner.value, step)
  {
    hide CurrentOk, Pushable, Found;
    var t := s.bufferOwner.value;
    var pc := s.tasks[t].pc;
    assert HoldsBuffer(s.tasks[t]) && PassOk(s, pc);
    if pc.Selecting? { assert CanTask(s, t, FailTrigger); }
    else if pc.Uploading? {
      if pc.paths == [] { assert CanTask(s, t, CompleteTrigger); } else { assert CanTask(s, t, FailFile); }
    } else if pc.ClearingHandle? { assert CanTask(s, t, ClearHandle); }
    else if pc.Draining? { assert CanTask(s, t, Drain); }
    else { assert CanTask(s, t, Deliver); }
  }

  /** Marking needs a full pass: of a file about to be marked and deleted, every record was put and accepted. */
  lemma FinishedFileWasUploaded(mode: Mode, b0: B.Buf, steps: seq<Step>, t: nat, removed: bool)
    requires NewManager(b0) && IsRun(Initial(mode, b0), steps)
    requires CanTask(After(Initial(mode, b0), steps), t, FinishFile(removed))
    ensures var s := After(Initial(mode, b0), steps);
            forall x | x in Found(s.buf, s.tasks[t].pc.paths[0]) :: x in s.sent
  {
    InitialKeeps(mode, b0);
    RunKeeps(Initial(mode, b0), steps);
    hide Initial, IsRun, After, Ordered;
    FinishedWasPut(After(Initial(mode, b0), steps), t, removed);
  }

  lemma FinishedWasPut(s: State, t: nat, removed: bool)
    requires Base(s) && CanTask(s, t, FinishFile(removed))
    ensures forall x | x in Found(s.buf, s.tasks[t].pc.paths[0]) :: x in s.sent
  {
    hide CurrentOk, Pushable, Found;
    assert PassOk(s, s.tasks[t].pc);
  }

  /**
   Deletion, whoever deletes: in an interleaving without a harmful step, what a tracked file held before the
   step that removed it, or let go of it, was read from it and accepted.
   */
  lemma DeletedWasSent(mode: Mode, b0: B.Buf, steps: seq<Step>, step: Step, n: string)
    requires NewManager(b0) && IsRun(Initial(mode, b0), steps)
    requires var s := After(Initial(mode, b0), steps);
             && Can(s, step) && !HarmfulStep(s, step)
             && n in s.buf.disk && InSight(s.buf, n)
             && !(n in Do(s, step).buf.disk && InSight(Do(s, step).buf, n))
    ensures var s := After(Initial(mode, b0), steps);
            forall x | x in Held(s.buf, n) :: x in Do(s, step).sent
  {
    InitialKeeps(mode, b0);
    RunKeeps(Initial(mode, b0), steps);
    hide Initial, IsRun, After;
    GoneWasSent(After(Initial(mode, b0), steps), step, n);
  }

  lemma GoneWasSent(s: State, step: Step, n: string)
    requires Ordered(s) && Base(s) && Can(s, step) && !HarmfulStep(s, step) && n in s.buf.disk && InSight(s.buf, n)
    requires !(n in Do(s, step).buf.disk && InSight(Do(s, step).buf, n))
    ensures forall x | x in Held(s.buf, n) :: x in Do(s, step).sent
  {
    hide Ordered, Base, Can, Do, HarmfulStep, StepLoses;
    StepLosesExactly(s, step);
    StepKeeps(s, step);
    var s', held := Do(s, step), Held(s.buf, n);
    if held != [] {
      assert Keeps(s.buf, n, held);
      StillKept(s, step, n, held);
      var p :| p in s'.buf.passes && p.path == n && held <= p.accepted;
      BaseSent(s');
    }
  }

  lemma BaseSent(s: State)
    requires Base(s)
    ensures PassesSent(s)
  {
  }

  lemma StillKept(s: State, step: Step, n: string, r: seq<RecordLog.Fragment>)
    requires Can(s, step) && !StepLoses(s, step) && r != [] && Keeps(s.buf, n, r)
    ensures Keeps(Do(s, step).buf, n, r)
  {
    hide Keeps, Do, CanRender, CanTask;
    if step.Work? && step.work.Push? && step.work.outcome.Written? {
      var op := T.DoPush(s.worker.item.fragment, step.work.checkAt, step.work.createAt);
      assert Keeps(Created(s.buf, op), n, r);
      assert Keeps(T.Do(s.buf, op), n, r);
    }
  }
}
