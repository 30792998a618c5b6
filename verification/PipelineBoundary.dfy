/**
 A keyframe boundary, or the end of the stream, from the decision to the end, over every run: what becomes of the
 collected frames, when the mode changes and when the session is renewed, whatever the other actors do between the
 sections of the streaming thread.
 */
module PipelineBoundary {
  import opened Wrappers
  import opened BufferEvents
  import opened Pipeline
  import opened PipelineAccounting
  import opened PipelineTrace
  import BufferInvariant

  /** The streaming thread's own: its place, and the fields nobody else writes. */
  predicate SameStreaming(s: State, s': State) {
    && s'.render == s.render && s'.pendingNewSession == s.pendingNewSession && s'.writerSession == s.writerSession
    && s'.nextId == s.nextId && s'.dropped == s.dropped && s'.queued == s.queued
  }

  lemma WorkLeavesStreaming(s: State, step: WorkerStep)
    requires CanWork(s, step)
    ensures SameStreaming(s, DoWork(s, step))
  {
    hide Pushed;
  }

  lemma OthersKeepStreaming(s: State, step: Step)
    requires Can(s, step) && !step.Render?
    ensures SameStreaming(s, Do(s, step))
  {
    match step
    case Work(w) => WorkLeavesStreaming(s, w);
    case TaskDo(t, x) => TaskLeavesFragments(s, t, x); hide DoTask, CanTask;
    case Trigger(_) =>
  }

  /** A streaming thread that is elsewhere at the end takes a step; before its first one all its own is as it was. */
  lemma {:induction false} NextRender(s: State, steps: seq<Step>) returns (i: nat)
    requires IsRun(s, steps) && After(s, steps).render != s.render
    ensures i < |steps| && steps[i].Render? && (forall j | 0 <= j < i :: !steps[j].Render?)
    ensures SameStreaming(s, StateAt(s, steps, i))
    decreases |steps|
  {
    hide Can, Do;
    if steps[0].Render? {
      i := 0;
    } else {
      OthersKeepStreaming(s, steps[0]);
      var j := NextRender(Do(s, steps[0]), steps[1..]);
      i := j + 1;
      assert forall k | 0 <= k < j :: steps[k + 1] == steps[1..][k];
    }
  }

  lemma RenderAfter(s: State, steps: seq<Step>, n: nat) returns (i: nat)
    requires IsRun(s, steps) && n <= |steps| && After(s, steps).render != StateAt(s, steps, n).render
    ensures n <= i < |steps| && steps[i].Render? && (forall j | n <= j < i :: !steps[j].Render?)
    ensures SameStreaming(StateAt(s, steps, n), StateAt(s, steps, i))
    ensures CanRender(StateAt(s, steps, i), steps[i].render)
    ensures StateAt(s, steps, i + 1) == DoRender(StateAt(s, steps, i), steps[i].render)
  {
    hide CanRender, DoRender, StateAt, SameStreaming;
    Suffix(s, steps, n);
    var k := NextRender(StateAt(s, steps, n), steps[n..]);
    i := n + k;
    Shift(s, steps, n, k);
    StepAt(s, steps, i);
    assert forall j | n <= j < i :: steps[j] == steps[n..][j - n];
  }

  predicate Starts(step: Step) { step.Render? && (step.render.Decide? || step.render.EndOfStream?) }

  predicate NoStart(steps: seq<Step>) { forall i | 0 <= i < |steps| :: !Starts(steps[i]) }

  /** Between boundaries, and after a flow error, the thread does nothing. */
  lemma {:induction false} AtRest(s: State, steps: seq<Step>)
    requires IsRun(s, steps) && NoStart(steps) && (s.render.Waiting? || s.render.Halted?)
    ensures SameStreaming(s, After(s, steps)) && forall i | 0 <= i < |steps| :: !steps[i].Render?
    decreases |steps|
  {
    if steps == [] {
    } else {
      assert !Starts(steps[0]) && !steps[0].Render?;
      OthersKeepStreaming(s, steps[0]);
      hide Can, Do;
      assert forall i | 0 <= i < |steps[1..]| :: steps[1..][i] == steps[i + 1];
      AtRest(Do(s, steps[0]), steps[1..]);
    }
  }

  lemma RestsFrom(s: State, steps: seq<Step>, n: nat)
    requires IsRun(s, steps) && NoStart(steps) && n <= |steps|
    requires StateAt(s, steps, n).render.Waiting? || StateAt(s, steps, n).render.Halted?
    ensures SameStreaming(StateAt(s, steps, n), After(s, steps)) && forall i | n <= i < |steps| :: !steps[i].Render?
  {
    hide StateAt, Can, Do, SameStreaming;
    Suffix(s, steps, n);
    var rest := steps[n..];
    assert forall i | 0 <= i < |rest| :: rest[i] == steps[n + i];
    AtRest(StateAt(s, steps, n), rest);
    forall i | n <= i < |steps| ensures !steps[i].Render? { assert rest[i - n] == steps[i]; }
  }

  // ---- the outcome ----

  /** The mode and the switch that is scheduled. */
  predicate SameMode(s: State, s': State) {
    s'.currentMode == s.currentMode && s'.pendingModeSwitch == s.pendingModeSwitch
  }

  /** No fragment was made. */
  predicate NothingMade(s: State, s': State) {
    && s'.nextId == s.nextId && s'.queued == s.queued && s'.dropped == s.dropped
    && s'.writerSession == s.writerSession && s'.pendingNewSession == s.pendingNewSession
  }

  /**
   One fragment was made, of the session and with the tag there was, captured in this mode, and with this many
   waiting when it was handed over: below 64 it was queued, otherwise counted as dropped and its tag kept.
   */
  predicate OneMade(s: State, s': State, item: Item, mode: Mode, waiting: nat) {
    && item == Item(s.nextId, s.writerSession, mode, s.pendingNewSession, item.fragment)
    && s'.nextId == s.nextId + 1 && s'.writerSession == s.writerSession
    && s'.queued == (if waiting < 64 then s.queued + [item] else s.queued)
    && s'.dropped == (if waiting < 64 then s.dropped else s.dropped + [item])
    && s'.pendingNewSession == (waiting >= 64 && s.pendingNewSession)
  }

  /** How a boundary closed the collected frames: which step read the mode, and which tried the queue. */
  datatype Closing = Nothing | Made(item: Item, captured: nat, tried: nat)

  predicate Closed(s: State, steps: seq<Step>, n: nat, m: nat, how: Closing)
    requires IsRun(s, steps) && n <= m <= |steps|
  {
    match how
    case Nothing =>
      NothingMade(StateAt(s, steps, n), StateAt(s, steps, m)) && Render(NoFrames) in steps[n..m]
    case Made(item, captured, tried) =>
      && n <= captured < tried < m && steps[captured].Render?
      && steps[tried] == Render(TrySend(true))
      && OneMade(StateAt(s, steps, n), StateAt(s, steps, m), item, StateAt(s, steps, captured).currentMode,
                 |StateAt(s, steps, tried).queue|)
  }

  predicate QuietRender(s: State, steps: seq<Step>, n: nat, m: nat)
    requires IsRun(s, steps) && n <= m <= |steps|
  {
    forall j | n <= j < m && steps[j].Render? :: SameMode(StateAt(s, steps, j), StateAt(s, steps, j + 1))
  }

  lemma NotHalted(s: State, steps: seq<Step>, n: nat)
    requires IsRun(s, steps) && NoStart(steps) && n <= |steps| && After(s, steps).render.Waiting?
    ensures !StateAt(s, steps, n).render.Halted?
  {
    if StateAt(s, steps, n).render.Halted? { RestsFrom(s, steps, n); }
  }

  /** The switch takes effect: the mode it names, if one was decided on, and then none is scheduled. */
  predicate Switched(newMode: Option<Mode>, s: State, s': State) {
    if newMode.Some? then s'.currentMode == newMode.value && s'.pendingModeSwitch == None else SameMode(s, s')
  }

  /** A boundary renews the session. */
  predicate Renews(newMode: Option<Mode>, needsReset: bool) {
    if newMode.Some? then newMode.value.Immediate? else needsReset
  }

  /** One step from each place the streaming thread can be in. */
  lemma CollectStep(s: State, step: RenderStep)
    requires CanRender(s, step) && s.render.Capturing?
    ensures var s', b := DoRender(s, step), s.render.boundary;
            && NothingMade(s, s') && SameMode(s, s')
            && (step == NoFrames || step == Capture)
            && s'.render == if step == NoFrames then Switching(b) else Finalizing(b, s.currentMode)
  {
  }

  lemma WriteStep(s: State, step: RenderStep)
    requires CanRender(s, step) && s.render.Finalizing?
    ensures var s' := DoRender(s, step);
            && SameMode(s, s')
            && (s'.render.Halted? || s'.render.Sending?)
            && (s'.render.Sending? ==>
                  var item := s'.render.item;
                  && s'.render.boundary == s.render.boundary
                  && item == Item(s.nextId, s.writerSession, s.render.mode, s.pendingNewSession, item.fragment)
                  && s'.nextId == s.nextId + 1 && s'.writerSession == s.writerSession && !s'.pendingNewSession
                  && s'.queued == s.queued && s'.dropped == s.dropped)
  {
    hide BufferInvariant.Pushable;
  }

  lemma SendStep(s: State, step: RenderStep)
    requires CanRender(s, step) && s.render.Sending?
    ensures var s', item := DoRender(s, step), s.render.item;
            && step.TrySend? && SameMode(s, s')
            && s'.render == (if !step.open then Halted(Some(item))
                             else if |s.queue| < 64 then Switching(s.render.boundary)
                             else Counting(s.render.boundary, item))
            && s'.nextId == s.nextId && s'.writerSession == s.writerSession && s'.dropped == s.dropped
            && s'.pendingNewSession == s.pendingNewSession
            && s'.queued == (if step.open && |s.queue| < 64 then s.queued + [item] else s.queued)
  {
  }

  lemma CountStep(s: State, step: RenderStep)
    requires CanRender(s, step) && s.render.Counting?
    ensures var s', item := DoRender(s, step), s.render.item;
            && SameMode(s, s') && s'.render == Switching(s.render.boundary)
            && s'.nextId == s.nextId && s'.writerSession == s.writerSession && s'.queued == s.queued
            && s'.dropped == s.dropped + [item]
            && s'.pendingNewSession == (s.pendingNewSession || item.startsNewSession)
  {
  }

  lemma SwitchStep(s: State, step: RenderStep)
    requires CanRender(s, step) && s.render.Switching?
    ensures var s', b := DoRender(s, step), s.render.boundary;
            && NothingMade(s, s') && Switched(b.newMode, s, s')
            && s'.render == if Renews(b.newMode, b.needsReset) then Resetting else Waiting
  {
  }

  lemma ResetStep(s: State, step: RenderStep)
    requires CanRender(s, step) && s.render.Resetting?
    ensures var s' := DoRender(s, step);
            && SameMode(s, s') && s'.render.Waiting?
            && s'.nextId == s.nextId && s'.queued == s.queued && s'.dropped == s.dropped
            && s'.writerSession == s.writerSession + 1 && s'.pendingNewSession
  {
  }

  /** From the decision to the switch. */
  lemma Closes(s: State, steps: seq<Step>, n: nat, b: Boundary) returns (m: nat, how: Closing)
    requires IsRun(s, steps) && NoStart(steps) && n <= |steps| && After(s, steps).render.Waiting?
    requires StateAt(s, steps, n).render == Capturing(b)
    ensures n < m <= |steps| && StateAt(s, steps, m).render == Switching(b)
    ensures Closed(s, steps, n, m, how) && QuietRender(s, steps, n, m)
  {
    hide StateAt, IsRun, NoStart, DoRender, CanRender;
    var i := RenderAfter(s, steps, n);
    CollectStep(StateAt(s, steps, i), steps[i].render);
    if steps[i].render.NoFrames? {
      m, how := i + 1, Nothing;
      assert steps[n..m][i - n] == Render(NoFrames);
    } else {
      var j := RenderAfter(s, steps, i + 1);
      WriteStep(StateAt(s, steps, j), steps[j].render);
      NotHalted(s, steps, j + 1);
      var sent, tried := Sends(s, steps, j + 1);
      m, how := sent, Made(StateAt(s, steps, j + 1).render.item, i, tried);
    }
  }

  /** From the fragment in hand to the switch. */
  lemma Sends(s: State, steps: seq<Step>, n: nat) returns (m: nat, tried: nat)
    requires IsRun(s, steps) && NoStart(steps) && n <= |steps| && After(s, steps).render.Waiting?
    requires StateAt(s, steps, n).render.Sending?
    ensures n <= tried < m <= |steps| && steps[tried] == Render(TrySend(true)) && QuietRender(s, steps, n, m)
    ensures var from, to := StateAt(s, steps, n), StateAt(s, steps, m);
            var item, waiting := from.render.item, |StateAt(s, steps, tried).queue|;
            && to.render == Switching(from.render.boundary) && to.nextId == from.nextId
            && to.writerSession == from.writerSession
            && to.queued == (if waiting < 64 then from.queued + [item] else from.queued)
            && to.dropped == (if waiting < 64 then from.dropped else from.dropped + [item])
            && to.pendingNewSession == (from.pendingNewSession || (waiting >= 64 && item.startsNewSession))
  {
    hide StateAt, IsRun, NoStart, DoRender, CanRender;
    tried := RenderAfter(s, steps, n);
    SendStep(StateAt(s, steps, tried), steps[tried].render);
    NotHalted(s, steps, tried + 1);
    m := tried + 1;
    if StateAt(s, steps, m).render.Counting? {
      var k := RenderAfter(s, steps, m);
      CountStep(StateAt(s, steps, k), steps[k].render);
      m := k + 1;
    }
  }

  /** From the switch to the end. */
  lemma Ends(s: State, steps: seq<Step>, n: nat) returns (sw: nat)
    requires IsRun(s, steps) && NoStart(steps) && n <= |steps| && After(s, steps).render.Waiting?
    requires StateAt(s, steps, n).render.Switching?
    ensures n <= sw < |steps| && steps[sw].Render?
    ensures var b := StateAt(s, steps, n).render.boundary;
            Switched(b.newMode, StateAt(s, steps, sw), StateAt(s, steps, sw + 1))
    ensures QuietRender(s, steps, n, sw) && QuietRender(s, steps, sw + 1, |steps|)
    ensures var from, to := StateAt(s, steps, n), After(s, steps);
            var renews := Renews(from.render.boundary.newMode, from.render.boundary.needsReset);
            && to.writerSession == from.writerSession + (if renews then 1 else 0)
            && to.nextId == from.nextId && to.queued == from.queued && to.dropped == from.dropped
            && to.pendingNewSession == (renews || from.pendingNewSession)
  {
    hide StateAt, IsRun, NoStart, DoRender, CanRender;
    sw := RenderAfter(s, steps, n);
    SwitchStep(StateAt(s, steps, sw), steps[sw].render);
    var last := sw + 1;
    if StateAt(s, steps, last).render.Resetting? {
      var k := RenderAfter(s, steps, last);
      ResetStep(StateAt(s, steps, k), steps[k].render);
      last := k + 1;
    }
    RestsFrom(s, steps, last);
  }

  /** What a boundary is to do: at a keyframe what is scheduled and due then, at the end of the stream nothing. */
  function Planned(s: State, first: RenderStep): Boundary
    requires first.Decide? || first.EndOfStream?
  {
    if first.EndOfStream? then Boundary(None, false)
    else Boundary(s.pendingModeSwitch, first.expired && !s.sessionResetInFlight)
  }

  /**
   A whole boundary. The frames become at most one fragment, queued if fewer than 64 were waiting and counted as
   dropped otherwise, with its tag kept for the next; the mode changes in one step, to what was scheduled when the
   keyframe was decided on; and the session is renewed, with a tag for it, exactly when going live or, with no switch
   scheduled, when it had expired and no reset was under way. At the end of the stream only the fragment is made.
   */
  lemma BoundaryOutcome(s: State, first: RenderStep, steps: seq<Step>) returns (m: nat, how: Closing, sw: nat)
    requires CanRender(s, first) && (first.Decide? || first.EndOfStream?)
    requires var s1 := DoRender(s, first); IsRun(s1, steps) && NoStart(steps) && After(s1, steps).render.Waiting?
    ensures var s1, plan := DoRender(s, first), Planned(s, first);
            && SameMode(s, s1) && NothingMade(s, s1)
            && m <= sw < |steps| && steps[sw].Render? && Closed(s1, steps, 0, m, how)
            && Switched(plan.newMode, StateAt(s1, steps, sw), StateAt(s1, steps, sw + 1))
            && QuietRender(s1, steps, 0, sw) && QuietRender(s1, steps, sw + 1, |steps|)
            && var renews, made, to := Renews(plan.newMode, plan.needsReset), StateAt(s1, steps, m), After(s1, steps);
               && to.writerSession == s.writerSession + (if renews then 1 else 0)
               && to.nextId == made.nextId && to.queued == made.queued && to.dropped == made.dropped
               && to.pendingNewSession == (renews || made.pendingNewSession)
  {
    var s1 := DoRender(s, first);
    assert StateAt(s1, steps, 0) == s1;
    m, how := Closes(s1, steps, 0, s1.render.boundary);
    hide StateAt, IsRun, NoStart;
    sw := Ends(s1, steps, m);
  }
}
