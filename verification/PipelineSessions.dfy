/**
 Sessions over every interleaving. A reset of the MKV writer on the streaming thread and the reset of
 the connection on the worker are far apart in time; the tag that ties them together survives full
 queues, mode switches and network failures.
 */
module PipelineSessions {
  import opened Wrappers
  import opened Pipeline
  import opened PipelineAccounting
  import B = BufferModel

  // ---- tags and sessions of the accepted fragments ----

  function LastSession(queued: seq<Item>): nat {
    if queued == [] then 0 else queued[|queued| - 1].session
  }

  function LastMode(start: Mode, queued: seq<Item>): Mode {
    if queued == [] then start else queued[|queued| - 1].mode
  }

  /** Tagged exactly when the session differs from that of the fragment accepted before. */
  predicate WellTagged(queued: seq<Item>) {
    forall i | 0 <= i < |queued| :: queued[i].startsNewSession <==> queued[i].session != LastSession(queued[..i])
  }

  predicate NeverBack(queued: seq<Item>) {
    forall i | 0 <= i < |queued| :: LastSession(queued[..i]) <= queued[i].session
  }

  /** Going live renews the session. */
  predicate GoesLiveTagged(start: Mode, queued: seq<Item>) {
    forall i | 0 <= i < |queued| ::
      queued[i].mode.Immediate? && LastMode(start, queued[..i]).BufferOnly? ==> queued[i].startsNewSession
  }

  predicate HandTagged(s: State) {
    InRender(s.render).Some? && InRender(s.render).value.startsNewSession
  }

  /** The streaming thread still owes the queue a tag. */
  predicate Owes(s: State) { s.pendingNewSession || HandTagged(s) }

  /** A tag is owed exactly while the writer's session is ahead of the queue's. */
  predicate Aligned(s: State) {
    && LastSession(s.queued) <= s.writerSession
    && (LastSession(s.queued) != s.writerSession <==> Owes(s))
    && (InRender(s.render).Some? ==> InRender(s.render).value.session == s.writerSession && !s.pendingNewSession)
  }

  /**
   The worker may enter BufferOnly at any moment, so a fragment can be captured in one mode and finalized
   in the other. What survives is one-sided: BufferOnly captured means BufferOnly until the switch.
   */
  predicate ModesAligned(start: Mode, s: State) {
    var last := LastMode(start, s.queued);
    && (last.BufferOnly? && s.currentMode.Immediate? ==> Owes(s) || s.render.Resetting? || s.render.Halted?)
    && (s.render.Finalizing? ==>
          && (last.BufferOnly? && s.render.mode.Immediate? ==> s.pendingNewSession)
          && (s.render.mode.BufferOnly? ==> s.currentMode.BufferOnly?))
    && (s.render.Sending? || s.render.Counting? ==>
          && (last.BufferOnly? && s.render.item.mode.Immediate? ==> s.render.item.startsNewSession)
          && (s.render.item.mode.BufferOnly? ==> s.currentMode.BufferOnly?))
  }

  // ---- outstanding tags ----

  function Tagged(items: seq<Item>): nat {
    if items == [] then 0 else Tagged(items[..|items| - 1]) + (if items[|items| - 1].startsNewSession then 1 else 0)
  }

  predicate WorkerResets(w: WorkerPc) { w.ResettingSession? || w.ClearingFlag? }

  function OwedTags(s: State): nat {
    (if s.pendingNewSession then 1 else 0) + (if HandTagged(s) then 1 else 0)
  }

  /** Tags pending, in hand, queued, or being acted on by the worker. */
  function Outstanding(s: State): nat {
    OwedTags(s) + Tagged(s.queue) + (if WorkerResets(s.worker) then 1 else 0)
  }

  /** The flag that suppresses further resets is backed by a tag; every writer reset is owed at most once. */
  predicate Guarded(s: State) {
    && (s.sessionResetInFlight ==> Outstanding(s) >= 1)
    && Tagged(s.queued) + OwedTags(s) <= s.writerSession
    && (WorkerResets(s.worker) ==> s.worker.item.startsNewSession)
  }

  lemma TaggedSnoc(items: seq<Item>, item: Item)
    ensures Tagged(items + [item]) == Tagged(items) + (if item.startsNewSession then 1 else 0)
  {
    assert (items + [item])[..|items|] == items;
  }

  lemma {:induction false} TaggedCons(items: seq<Item>)
    requires items != []
    ensures Tagged(items) == (if items[0].startsNewSession then 1 else 0) + Tagged(items[1..])
  {
    var n := |items| - 1;
    if n == 0 {
    } else {
      TaggedCons(items[..n]);
      assert items[..n][1..] == items[1..][..n - 1];
    }
  }

  // ---- one step ----

  ghost predicate Sound(start: Mode, s: State) {
    && WellTagged(s.queued) && NeverBack(s.queued) && GoesLiveTagged(start, s.queued)
    && Aligned(s) && ModesAligned(start, s) && Guarded(s)
  }

  lemma AcceptedItem(start: Mode, s: State)
    requires Sound(start, s) && s.render.Sending?
    ensures var queued := s.queued + [s.render.item];
            WellTagged(queued) && NeverBack(queued) && GoesLiveTagged(start, queued)
  {
    var queued, n := s.queued + [s.render.item], |s.queued|;
    forall i | 0 <= i < |queued|
      ensures queued[i].startsNewSession <==> queued[i].session != LastSession(queued[..i])
      ensures LastSession(queued[..i]) <= queued[i].session
      ensures queued[i].mode.Immediate? && LastMode(start, queued[..i]).BufferOnly? ==> queued[i].startsNewSession
    {
      assert queued[..i] == s.queued[..i];
      if i == n { assert queued[..n] == s.queued; }
    }
  }

  lemma RenderAligned(s: State, step: RenderStep)
    requires Aligned(s) && CanRender(s, step)
    ensures Aligned(DoRender(s, step))
  {
  }

  lemma RenderModes(start: Mode, s: State, step: RenderStep)
    requires Aligned(s) && ModesAligned(start, s) && CanRender(s, step)
    ensures ModesAligned(start, DoRender(s, step))
  {
    hide LastSession;
  }

  predicate Accepts(s: State, step: RenderStep) {
    step.TrySend? && step.open && |s.queue| < FRAGMENT_QUEUE_CAPACITY
  }

  /** A tag is created by a writer reset only, and leaves the streaming thread by acceptance only. */
  lemma RenderOwes(s: State, step: RenderStep)
    requires Aligned(s) && CanRender(s, step)
    ensures var s' := DoRender(s, step);
            && OwedTags(s') == (if step.BeginReset? then 1 else if Accepts(s, step) then 0 else OwedTags(s))
            && s'.worker == s.worker && s'.writerSession == s.writerSession + (if step.BeginReset? then 1 else 0)
            && s'.sessionResetInFlight == (step.BeginReset? || s.sessionResetInFlight)
            && (Accepts(s, step) ==> (s.render.item.startsNewSession <==> OwedTags(s) == 1))
            && (step.BeginReset? ==> OwedTags(s) == if s.pendingNewSession then 1 else 0)
  {
    hide LastSession;
  }

  lemma RenderTagged(s: State, step: RenderStep)
    requires CanRender(s, step)
    ensures var s' := DoRender(s, step);
            var more := if Accepts(s, step) && s.render.item.startsNewSession then 1 else 0;
            Tagged(s'.queue) == Tagged(s.queue) + more && Tagged(s'.queued) == Tagged(s.queued) + more
  {
    if Accepts(s, step) {
      TaggedSnoc(s.queue, s.render.item);
      TaggedSnoc(s.queued, s.render.item);
    } else {
      assert DoRender(s, step).queue == s.queue && DoRender(s, step).queued == s.queued;
    }
  }

  lemma RenderGuarded(s: State, step: RenderStep)
    requires Aligned(s) && Guarded(s) && CanRender(s, step)
    ensures Guarded(DoRender(s, step))
  {
    RenderOwes(s, step);
    RenderTagged(s, step);
    hide Tagged, Aligned, OwedTags, DoRender, CanRender, Accepts;
  }

  lemma RenderQueued(start: Mode, s: State, step: RenderStep)
    requires Sound(start, s) && CanRender(s, step)
    ensures var queued := DoRender(s, step).queued;
            WellTagged(queued) && NeverBack(queued) && GoesLiveTagged(start, queued)
  {
    if step.TrySend? { AcceptedItem(start, s); }
    hide WellTagged, NeverBack, GoesLiveTagged, Aligned, ModesAligned, Guarded;
  }

  lemma RenderSound(start: Mode, s: State, step: RenderStep)
    requires Sound(start, s) && CanRender(s, step)
    ensures Sound(start, DoRender(s, step))
  {
    hide WellTagged, NeverBack, GoesLiveTagged, Aligned, ModesAligned, Guarded, DoRender, CanRender;
    RenderQueued(start, s, step);
    RenderAligned(s, step);
    RenderModes(start, s, step);
    RenderGuarded(s, step);
  }

  /** The worker touches nothing the streaming thread works with, but may enter BufferOnly. */
  lemma WorkLeavesRender(s: State, step: WorkerStep)
    requires CanWork(s, step)
    ensures var s' := DoWork(s, step);
            && s'.render == s.render && s'.queued == s.queued && s'.pendingNewSession == s.pendingNewSession
            && s'.writerSession == s.writerSession && (s'.currentMode == s.currentMode || s'.currentMode.BufferOnly?)
  {
    hide Pushed;
  }

  /** It moves a tag from the queue to its hand, and drops it only together with the flag. */
  lemma WorkTags(s: State, step: WorkerStep)
    requires CanWork(s, step) && (WorkerResets(s.worker) ==> s.worker.item.startsNewSession)
    ensures var s', clears := DoWork(s, step), if step.ClearInFlight? then 1 else 0;
            && Outstanding(s') + clears == Outstanding(s)
            && s'.sessionResetInFlight == (s.sessionResetInFlight && !step.ClearInFlight?)
            && (WorkerResets(s'.worker) ==> s'.worker.item.startsNewSession)
            && (step.ClearInFlight? ==> Outstanding(s) >= 1)
  {
    if step.Receive? { TaggedCons(s.queue); }
    hide Tagged, Pushed;
  }

  lemma WorkSound(start: Mode, s: State, step: WorkerStep)
    requires Sound(start, s) && CanWork(s, step)
    ensures Sound(start, DoWork(s, step))
  {
    WorkTags(s, step);
    WorkLeavesRender(s, step);
    hide WellTagged, NeverBack, GoesLiveTagged, LastSession, LastMode, Tagged, Outstanding, DoWork, CanWork;
  }

  /** Everything about sessions is between the streaming thread and the worker. */
  lemma SoundFrame(start: Mode, s: State, s': State)
    requires Sound(start, s) && SameFragments(s, s')
    ensures Sound(start, s')
  {
  }

  lemma StepSound(start: Mode, s: State, step: Step)
    requires Sound(start, s) && Can(s, step)
    ensures Sound(start, Do(s, step))
  {
    hide Sound, DoRender, DoWork, DoTask, CanRender, CanWork, CanTask;
    match step
    case Render(r) => RenderSound(start, s, r);
    case Work(w) => WorkSound(start, s, w);
    case TaskDo(t, x) => TaskLeavesFragments(s, t, x); SoundFrame(start, s, DoTask(s, t, x));
    case Trigger(kind) => SoundFrame(start, s, Do(s, step));
  }

  lemma {:induction false} RunSound(start: Mode, s: State, steps: seq<Step>)
    requires Sound(start, s) && IsRun(s, steps)
    ensures Sound(start, After(s, steps))
    decreases |steps|
  {
    hide Sound, Can, Do;
    if steps == [] {
    } else {
      StepSound(start, s, steps[0]);
      RunSound(start, Do(s, steps[0]), steps[1..]);
    }
  }

  // ---- the theorems ----

  lemma {:induction false} SpanOfOneSession(queued: seq<Item>, i: nat, j: nat)
    requires WellTagged(queued) && NeverBack(queued) && i <= j < |queued|
    ensures queued[i].session <= queued[j].session
    ensures queued[i].session == queued[j].session <==> forall k | i < k <= j :: !queued[k].startsNewSession
    decreases j
  {
    if i >= j {
    } else {
      SpanOfOneSession(queued, i, j - 1);
      assert LastSession(queued[..j]) == queued[j - 1].session;
    }
  }

  /**
   Session alignment: two fragments the queue accepted are from the same MKV session exactly when none
   after the first up to the second is tagged, that is when the worker does not reset the connection in
   between; and sessions never go back.
   */
  lemma SessionsAreAligned(start: Mode, b0: B.Buf, steps: seq<Step>, i: nat, j: nat)
    requires IsRun(Initial(start, b0), steps) && i <= j < |After(Initial(start, b0), steps).queued|
    ensures var queued := After(Initial(start, b0), steps).queued;
            && queued[i].session <= queued[j].session
            && (queued[i].session == queued[j].session <==> forall k | i < k <= j :: !queued[k].startsNewSession)
  {
    RunSound(start, Initial(start, b0), steps);
    SpanOfOneSession(After(Initial(start, b0), steps).queued, i, j);
  }

  /** The first fragment is tagged exactly when it is not from the session the connection was opened for. */
  lemma TaggedWhenSessionDiffers(start: Mode, b0: B.Buf, steps: seq<Step>, i: nat)
    requires IsRun(Initial(start, b0), steps) && i < |After(Initial(start, b0), steps).queued|
    ensures var queued := After(Initial(start, b0), steps).queued;
            queued[i].startsNewSession <==> queued[i].session != if i == 0 then 0 else queued[i - 1].session
  {
    RunSound(start, Initial(start, b0), steps);
    var queued := After(Initial(start, b0), steps).queued;
    assert queued[i].startsNewSession <==> queued[i].session != LastSession(queued[..i]);
  }

  /**
   Going live always renews the session: an Immediate fragment accepted right after a BufferOnly one, or
   first in a run started in trigger mode, is tagged, whenever the worker flips the mode and whatever is dropped.
   */
  lemma GoingLiveRenewsSession(start: Mode, b0: B.Buf, steps: seq<Step>, i: nat)
    requires IsRun(Initial(start, b0), steps) && i < |After(Initial(start, b0), steps).queued|
    ensures var queued := After(Initial(start, b0), steps).queued;
            queued[i].mode.Immediate? && (if i == 0 then start else queued[i - 1].mode).BufferOnly?
            ==> queued[i].startsNewSession
  {
    RunSound(start, Initial(start, b0), steps);
    var queued := After(Initial(start, b0), steps).queued;
    assert queued[i].mode.Immediate? && LastMode(start, queued[..i]).BufferOnly? ==> queued[i].startsNewSession;
  }

  /**
   The reset guard cannot stick: while the flag that suppresses resets is up and the streaming thread has
   not been halted, a tag is pending, in the streaming thread's hand, in the queue, or being acted on.
   */
  lemma GuardIsBacked(start: Mode, b0: B.Buf, steps: seq<Step>)
    requires IsRun(Initial(start, b0), steps)
    requires var s := After(Initial(start, b0), steps); s.sessionResetInFlight && !s.render.Halted?
    ensures var s := After(Initial(start, b0), steps);
            || s.pendingNewSession
            || ((s.render.Sending? || s.render.Counting?) && s.render.item.startsNewSession)
            || (exists k | 0 <= k < |s.queue| :: s.queue[k].startsNewSession)
            || ((s.worker.ResettingSession? || s.worker.ClearingFlag?) && s.worker.item.startsNewSession)
  {
    RunSound(start, Initial(start, b0), steps);
    hide IsRun, After, Initial;
    var s := After(Initial(start, b0), steps);
    if Tagged(s.queue) > 0 { SomeTagged(s.queue); }
  }

  lemma {:induction false} SomeTagged(items: seq<Item>)
    requires Tagged(items) > 0
    ensures exists k | 0 <= k < |items| :: items[k].startsNewSession
  {
    var n := |items| - 1;
    if items[n].startsNewSession {
    } else {
      SomeTagged(items[..n]);
      var k :| 0 <= k < n && items[..n][k].startsNewSession;
      assert items[k].startsNewSession;
    }
  }

  function Receives(steps: seq<Step>): nat {
    if steps == [] then 0 else (if steps[0] == Work(Receive) then 1 else 0) + Receives(steps[1..])
  }

  /** The queue only loses its head to the worker, one fragment for each receive. */
  lemma StepShiftsQueue(s: State, step: Step)
    requires Can(s, step)
    ensures if step == Work(Receive) then s.queue != [] && Do(s, step).queue == s.queue[1..]
            else s.queue <= Do(s, step).queue
  {
    if step.TaskDo? { TaskLeavesFragments(s, step.task, step.taskStep); }
    hide DoTask, CanTask;
  }

  lemma {:induction false} RunShiftsQueue(s: State, steps: seq<Step>)
    requires IsRun(s, steps) && Receives(steps) <= |s.queue|
    ensures s.queue[Receives(steps)..] <= After(s, steps).queue
    decreases |steps|
  {
    if steps == [] {
    } else {
      var s1 := Do(s, steps[0]);
      StepShiftsQueue(s, steps[0]);
      hide Can, Do;
      RunShiftsQueue(s1, steps[1..]);
      var r := Receives(steps[1..]);
      if steps[0] == Work(Receive) {
        assert s1.queue[r..] == s.queue[r + 1..];
      } else {
        assert s.queue[r..] <= s1.queue[r..];
      }
    }
  }

  /**
   An accepted tag is reached: the worker resets the session for the fragment at place k of the queue on
   its receive number k + 1, and k is at most 63.
   */
  lemma AcceptedTagIsReached(start: Mode, b0: B.Buf, before: seq<Step>, steps: seq<Step>, k: nat)
    requires NewManager(b0) && IsRun(Initial(start, b0), before)
    requires var s := After(Initial(start, b0), before);
             && k < |s.queue| && s.queue[k].startsNewSession
             && IsRun(s, steps) && Receives(steps) == k && Can(After(s, steps), Work(Receive))
    ensures var s := After(Initial(start, b0), before);
            k < 64 && Do(After(s, steps), Work(Receive)).worker == ResettingSession(s.queue[k])
  {
    HandledInAcceptanceOrder(start, b0, before);
    var s := After(Initial(start, b0), before);
    RunShiftsQueue(s, steps);
    assert s.queue[k..][0] == s.queue[k];
  }

  // ---- runs in which no mode switch is ever scheduled ----

  predicate NoSwitches(s: State, steps: seq<Step>)
    requires IsRun(s, steps)
    decreases |steps|
  {
    s.pendingModeSwitch == None && (steps == [] || NoSwitches(Do(s, steps[0]), steps[1..]))
  }

  predicate BoundaryOpen(pc: RenderPc) {
    pc.Capturing? || pc.Finalizing? || pc.Sending? || pc.Counting? || pc.Switching?
  }

  /** One tag for the flag, and none left behind when the next reset begins. */
  predicate Single(s: State) { BoundariesSingle(s) && CountsSingle(s) }

  predicate BoundariesSingle(s: State) {
    && (BoundaryOpen(s.render) ==>
          s.render.boundary.newMode == None && (s.render.boundary.needsReset ==> !s.sessionResetInFlight))
    && (s.render.Resetting? ==> !s.sessionResetInFlight)
  }

  predicate CountsSingle(s: State) {
    && Outstanding(s) == (if s.sessionResetInFlight then 1 else 0)
    && Tagged(s.queued) + OwedTags(s) == s.writerSession
  }

  lemma RenderBoundaries(s: State, step: RenderStep)
    requires BoundariesSingle(s) && s.pendingModeSwitch == None && CanRender(s, step)
    ensures BoundariesSingle(DoRender(s, step))
  {
  }

  lemma RenderCounts(s: State, step: RenderStep)
    requires Single(s) && Aligned(s) && CanRender(s, step)
    ensures CountsSingle(DoRender(s, step))
  {
    RenderOwes(s, step);
    RenderTagged(s, step);
    assert step.BeginReset? ==> !s.sessionResetInFlight;
    hide Tagged, Aligned, OwedTags, DoRender, CanRender, Accepts, BoundariesSingle;
  }

  lemma RenderSingle(s: State, step: RenderStep)
    requires Single(s) && Aligned(s) && s.pendingModeSwitch == None && CanRender(s, step)
    ensures Single(DoRender(s, step))
  {
    hide BoundariesSingle, CountsSingle, Aligned, DoRender, CanRender;
    RenderBoundaries(s, step);
    RenderCounts(s, step);
  }

  lemma WorkSingle(s: State, step: WorkerStep)
    requires Single(s) && Guarded(s) && CanWork(s, step)
    ensures Single(DoWork(s, step))
  {
    WorkTags(s, step);
    WorkLeavesRender(s, step);
    hide Tagged, Outstanding, DoWork, CanWork;
  }

  lemma SingleFrame(s: State, s': State)
    requires Single(s) && SameFragments(s, s')
    ensures Single(s')
  {
  }

  lemma StepSingle(s: State, step: Step)
    requires Single(s) && Aligned(s) && Guarded(s) && s.pendingModeSwitch == None && Can(s, step)
    ensures Single(Do(s, step))
  {
    hide Single, Aligned, Guarded, DoRender, DoWork, DoTask, CanRender, CanWork, CanTask;
    match step
    case Render(r) => RenderSingle(s, r);
    case Work(w) => WorkSingle(s, w);
    case TaskDo(t, x) => TaskLeavesFragments(s, t, x); SingleFrame(s, DoTask(s, t, x));
    case Trigger(kind) => SingleFrame(s, Do(s, step));
  }

  lemma {:induction false} RunSingle(start: Mode, s: State, steps: seq<Step>)
    requires Single(s) && Sound(start, s) && IsRun(s, steps) && NoSwitches(s, steps)
    ensures Single(After(s, steps))
    decreases |steps|
  {
    hide Single, Can, Do;
    if steps == [] {
    } else {
      StepSound(start, s, steps[0]);
      StepSingle(s, steps[0]);
      hide Sound;
      RunSingle(start, Do(s, steps[0]), steps[1..]);
    }
  }

  /**
   Without mode switches the flag is up exactly when one tag is outstanding, never two; and every reset of
   the MKV writer is matched by exactly one tagged fragment, accepted or still owed.
   */
  lemma OneTagPerReset(start: Mode, b0: B.Buf, steps: seq<Step>)
    requires IsRun(Initial(start, b0), steps) && NoSwitches(Initial(start, b0), steps)
    ensures var s := After(Initial(start, b0), steps);
            && Outstanding(s) == (if s.sessionResetInFlight then 1 else 0)
            && Tagged(s.queued) + OwedTags(s) == s.writerSession
  {
    InitialSingle(start, b0);
    hide Single, Sound, Initial, IsRun, After, NoSwitches;
    RunSingle(start, Initial(start, b0), steps);
    SingleCounts(After(Initial(start, b0), steps));
  }

  lemma InitialSingle(start: Mode, b0: B.Buf)
    ensures Single(Initial(start, b0)) && Sound(start, Initial(start, b0))
  {
  }

  lemma SingleCounts(s: State)
    requires Single(s)
    ensures CountsSingle(s)
  {
  }
}
