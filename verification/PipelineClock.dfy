/**
 What the clock has to do for nothing to be lost: give each new file a name that no file the manager still
 tracks has. Stamps that grow do. This over every interleaving, with pushes that fail, triggers aborted
 halfway and files that cannot be deleted.
 */
module PipelineClock {
  import opened Wrappers
  import opened FileNames
  import opened Bytes
  import opened Pipeline
  import opened BufferLoss
  import opened BufferInvariant
  import opened PipelineAccounting
  import RecordLog
  import B = BufferModel
  import T = BufferTrigger
  import C = CrashRecovery

  /** When a step creates a file, what the clock says. */
  function CreationTime(s: State, step: Step): Option<nat>
    requires Can(s, step)
  {
    match step
    case Work(Push(outcome, checkAt, createAt, _)) =>
      if !outcome.CreateFails? && B.ShouldRotate(s.buf, checkAt) then Some(createAt) else None
    case TaskDo(_, Select(start, end, createAt)) =>
      if T.Targets(s.buf, start, end) != [] then Some(createAt) else None
    case _ => None
  }

  /** A file the step creates gets a name that no tracked file, nor the current one, has. */
  predicate FreshStep(s: State, step: Step)
    requires Can(s, step)
  {
    CreationTime(s, step).Some? ==> !InSight(s.buf, B.NewName(s.buf, CreationTime(s, step).value))
  }

  predicate FreshRun(s: State, steps: seq<Step>)
    requires IsRun(s, steps)
    decreases |steps|
  {
    steps == [] || (FreshStep(s, steps[0]) && FreshRun(Do(s, steps[0]), steps[1..]))
  }

  // ---- what unused names keep ----

  predicate DistinctPaths(b: B.Buf) {
    forall i, j | 0 <= i < j < |b.files| :: b.files[i].path != b.files[j].path
  }

  predicate CurrentApart(b: B.Buf) {
    b.current.Some? ==> b.current.value.path in b.disk && !IsTracked(b, b.current.value.path)
  }

  /** What is left on disk of an uploaded file was accepted. */
  predicate UploadedCovered(b: B.Buf) {
    forall i | 0 <= i < |b.files| && b.files[i].uploaded && b.files[i].path in b.disk ::
      Covered(b.passes, b.files[i].path, Held(b, b.files[i].path))
  }

  predicate Tidy(b: B.Buf) { DistinctPaths(b) && CurrentApart(b) && UploadedCovered(b) }

  lemma FinalizeTidy(b: B.Buf)
    requires Tidy(b)
    ensures Tidy(B.Finalize(b))
  {
    hide Covered, Held;
    if b.current.Some? {
      var b' := B.Finalize(b);
      assert forall i | 0 <= i < |b.files| :: b'.files[i] == b.files[i] && b.files[i].path != b.current.value.path;
      SameHeld(b, b');
    }
  }

  /** The records a reader finds depend on the directory only. */
  lemma SameHeld(b: B.Buf, b': B.Buf)
    ensures forall n | n in b.disk && n in b'.disk && b'.disk[n] == b.disk[n] :: Held(b', n) == Held(b, n)
  {
  }

  lemma StartNewTidy(b: B.Buf, createAt: nat, startTime: int)
    requires Tidy(b) && b.current.None? && !IsTracked(b, B.NewName(b, createAt))
    ensures Tidy(B.StartNew(b, createAt, startTime))
  {
    var b', name := B.StartNew(b, createAt, startTime), B.NewName(b, createAt);
    SameHeld(b, b');
    hide Covered, Held, B.NewName;
    assert forall i | 0 <= i < |b.files| :: b.files[i].path != name;
  }

  lemma WriteTidy(b: B.Buf, f: RecordLog.Fragment)
    requires Tidy(b) && B.CurrentPresent(b)
    ensures Tidy(B.Write(b, f))
  {
    var b', path := B.Write(b, f), b.current.value.path;
    SameHeld(b, b');
    hide Covered, Held;
    assert forall i | 0 <= i < |b.files| :: b.files[i].path != path;
  }

  /** What a pass changes: the mark of its own file, and that file's bytes when it was marked. */
  predicate PassChanges(b: B.Buf, p: B.Pass, b': B.Buf) {
    && |b'.files| == |b.files| && b'.passes == b.passes + [p] && b'.current == b.current && DiskShrinks(b, b')
    && (forall i | 0 <= i < |b.files| :: b'.files[i].path == b.files[i].path)
    && (forall i | 0 <= i < |b.files| && b.files[i].path != p.path :: b'.files[i].uploaded == b.files[i].uploaded)
    && (!p.complete ==> b'.disk == b.disk)
    && (!p.complete ==> forall i | 0 <= i < |b.files| :: b'.files[i].uploaded == b.files[i].uploaded)
    && (forall n | n in b.disk && (n != p.path || !IsTracked(b, n)) :: n in b'.disk)
  }

  lemma PassShape(b: B.Buf, p: B.Pass, removed: bool)
    ensures PassChanges(b, p, B.RecordPass(b, p, removed))
  {
    var k := B.IndexOf(b.files, p.path);
    assert k < |b.files| ==> b.files[k].path == p.path;
  }

  lemma PassTidy(b: B.Buf, p: B.Pass, removed: bool)
    requires Tidy(b) && TruePass(b.disk, p)
    ensures Tidy(B.RecordPass(b, p, removed))
  {
    var b' := B.RecordPass(b, p, removed);
    PassShape(b, p, removed);
    SameHeld(b, b');
    hide B.RecordPass;
    forall i | 0 <= i < |b'.files| && b'.files[i].uploaded && b'.files[i].path in b'.disk
      ensures Covered(b'.passes, b'.files[i].path, Held(b', b'.files[i].path))
    {
      if b.files[i].path == p.path && p.complete {
        assert p in b'.passes;
      } else {
        assert Covered(b.passes, b.files[i].path, Held(b, b.files[i].path));
        CoveredStays(b.passes, p, b.files[i].path, Held(b, b.files[i].path));
      }
    }
    if b.current.Some? { StillApart(b, b'); }
  }

  lemma CoveredStays(passes: seq<B.Pass>, p: B.Pass, n: string, r: seq<RecordLog.Fragment>)
    requires Covered(passes, n, r)
    ensures Covered(passes + [p], n, r)
  {
    var q :| q in passes && q.path == n && r <= q.accepted;
    assert q in passes + [p];
  }

  lemma StillApart(b: B.Buf, b': B.Buf)
    requires CurrentApart(b) && b.current.Some? && b'.current == b.current && b.current.value.path in b'.disk
    requires |b'.files| == |b.files| && forall i | 0 <= i < |b.files| :: b'.files[i].path == b.files[i].path
    ensures CurrentApart(b')
  {
  }

  lemma PopTidy(b: B.Buf, removed: bool)
    requires Tidy(b) && b.files != []
    ensures Tidy(B.PopFront(b, removed))
  {
    var b' := B.PopFront(b, removed);
    assert forall i | 0 <= i < |b'.files| :: b'.files[i] == b.files[i + 1] && b.files[i + 1].path != b.files[0].path;
    SameHeld(b, b');
    hide Covered, Held;
  }

  /** A sweep forgets only entries whose records, if any are left, were accepted. */
  lemma {:induction false} SweepTidy(b: B.Buf, now: int, removes: string -> bool)
    requires Tidy(b)
    ensures Tidy(B.Cleanup(b, now, removes)) && !SweepLoses(b, now, removes)
    decreases |b.files|
  {
    hide Tidy;
    if b.files == [] || !B.Expired(b, b.files[0], now) {
    } else {
      PopTidy(b, removes(b.files[0].path));
      FrontIsNotLive(b);
      SweepTidy(B.PopFront(b, removes(b.files[0].path)), now, removes);
    }
  }

  lemma FrontIsNotLive(b: B.Buf)
    requires Tidy(b) && b.files != [] && b.files[0].uploaded
    ensures !Live(b, b.files[0].path)
  {
    hide Covered, Held;
  }

  lemma DropTidy(b: B.Buf)
    requires Tidy(b)
    ensures Tidy(b.(current := None))
  {
  }

  // ---- one step ----

  lemma RotatedTidy(b: B.Buf, f: RecordLog.Fragment, checkAt: int, createAt: nat)
    requires Tidy(b) && (B.ShouldRotate(b, checkAt) ==> !InSight(b, B.NewName(b, createAt)))
    ensures Tidy(B.Rotated(b, f, checkAt, createAt))
    ensures !Overwrites(b, T.DoPush(f, checkAt, createAt)) && !Unlinked(b, T.DoPush(f, checkAt, createAt))
  {
    hide UploadedCovered, DistinctPaths, Held, Covered, FileName;
    FinalizeTidy(b);
    FinalizeSight(b, B.NewName(b, createAt));
    if B.ShouldRotate(b, checkAt) { StartNewTidy(B.Finalize(b), createAt, f.timestampNs); }
  }

  lemma PushTidy(b: B.Buf, f: RecordLog.Fragment, checkAt: int, createAt: nat)
    requires Tidy(b) && (B.ShouldRotate(b, checkAt) ==> !InSight(b, B.NewName(b, createAt)))
    ensures Tidy(B.Push(b, f, checkAt, createAt))
  {
    RotatedTidy(b, f, checkAt, createAt);
    var r := B.Rotated(b, f, checkAt, createAt);
    assert r.current.Some?;
    hide B.Rotated;
    if B.CurrentPresent(r) { WriteTidy(r, f); } else { UnlinkedTidy(r, f); }
  }

  lemma UnlinkedTidy(b: B.Buf, f: RecordLog.Fragment)
    requires Tidy(b) && b.current.Some?
    ensures Tidy(B.WriteUnlinked(b, f))
  {
    SameHeld(b, B.WriteUnlinked(b, f));
    hide Covered, Held;
  }

  lemma WorkTidy(s: State, step: WorkerStep)
    requires CanWork(s, step) && Tidy(s.buf) && FreshStep(s, Work(step))
    ensures Tidy(DoWork(s, step).buf) && !HarmfulStep(s, Work(step))
  {
    hide Tidy, InSight, Live, SweepLoses, B.NewName, B.Push, B.Rotated;
    if step.Push? {
      var f := s.worker.item.fragment;
      if step.outcome.CreateFails? {
        FinalizeTidy(s.buf);
      } else {
        RotatedTidy(s.buf, f, step.checkAt, step.createAt);
        PushTidy(s.buf, f, step.checkAt, step.createAt);
        if step.outcome.Written? && step.sweep.Some? {
          var b1 := B.Push(s.buf, f, step.checkAt, step.createAt);
          SweepTidy(b1, step.sweep.value.now, Removes(step.sweep.value.undeletable));
        }
      }
    } else {
      WorkKeepsBuffer(s, step);
    }
  }

  lemma SelectTidy(s: State, t: nat, step: TaskStep)
    requires CanTask(s, t, step) && step.Select? && Tidy(s.buf) && FreshStep(s, TaskDo(t, step))
    ensures Tidy(DoTask(s, t, step).buf) && !HarmfulStep(s, TaskDo(t, step))
  {
    var b, name := B.Finalize(s.buf), B.NewName(s.buf, step.createAt);
    FinalizeTidy(s.buf);
    FinalizeSight(s.buf, name);
    hide Tidy, Held, Covered, FileName;
    if T.Targets(s.buf, step.start, step.end) != [] { StartNewTidy(b, step.createAt, step.createAt); }
  }

  lemma EndedPassTidy(s: State, t: nat, step: TaskStep)
    requires CanTask(s, t, step) && (step.FailFile? || step.FinishFile?) && Tidy(s.buf)
    ensures Tidy(DoTask(s, t, step).buf)
  {
    var path := s.tasks[t].pc.paths[0];
    var found := Found(s.buf, path);
    var p := B.Pass(path, if step.FailFile? then found[..s.tasks[t].pc.next] else found, step.FinishFile?);
    var removed := step.FinishFile? && step.removed;
    assert DoTask(s, t, step).buf == B.RecordPass(s.buf, p, removed);
    assert TruePass(s.buf.disk, p);
    hide DoTask, CanTask, B.RecordPass, TruePass, Tidy;
    PassTidy(s.buf, p, removed);
  }

  lemma TaskTidy(s: State, t: nat, step: TaskStep)
    requires CanTask(s, t, step) && Tidy(s.buf) && FreshStep(s, TaskDo(t, step))
    ensures Tidy(DoTask(s, t, step).buf) && !HarmfulStep(s, TaskDo(t, step))
  {
    hide Tidy, Found, Live;
    if step.Select? {
      SelectTidy(s, t, step);
    } else if step.FailTrigger? {
      FinalizeTidy(s.buf);
    } else if step.FailFile? || step.FinishFile? {
      EndedPassTidy(s, t, step);
    } else if step.CompleteTrigger? {
      DropTidy(s.buf);
      TidyFrame(s.buf.(current := None), DoTask(s, t, step).buf);
    } else {
      KeepsBuffer(s, t, step);
      TidyFrame(s.buf, DoTask(s, t, step).buf);
    }
  }

  lemma TidyFrame(b: B.Buf, b': B.Buf)
    requires Tidy(b) && b'.disk == b.disk && b'.files == b.files && b'.current == b.current && b'.passes == b.passes
    ensures Tidy(b')
  {
    SameHeld(b, b');
    hide Covered, Held;
  }

  /** With an unused name for each file it creates, no step of any actor loses anything. */
  lemma StepHarmless(s: State, step: Step)
    requires Can(s, step) && Tidy(s.buf) && FreshStep(s, step)
    ensures !HarmfulStep(s, step) && Tidy(Do(s, step).buf)
  {
    hide Tidy;
    match step
    case Render(r) => RenderLeavesDisk(s, r);
    case Work(w) => WorkTidy(s, w);
    case TaskDo(t, x) => TaskTidy(s, t, x);
    case Trigger(_) =>
  }

  // ---- runs ----

  lemma {:induction false} FreshRunIsHarmless(s: State, steps: seq<Step>)
    requires Tidy(s.buf) && IsRun(s, steps) && FreshRun(s, steps)
    ensures HarmlessRun(s, steps)
    decreases |steps|
  {
    hide Tidy, Can, Do, HarmfulStep, FreshStep;
    if steps == [] {
    } else {
      StepHarmless(s, steps[0]);
      FreshRunIsHarmless(Do(s, steps[0]), steps[1..]);
    }
  }

  lemma StartIsTidy(o: C.Origin)
    requires Sorted(o.names)
    ensures Tidy(C.StartOf(o))
  {
    SortedDistinct(o.names);
  }

  /**
   Conservation, with an assumption on the clock alone: after any interleaving whose new files get unused names,
   pushes that fail, aborted triggers and undeletable files included, every fragment the worker has handled was
   accepted live, met a counted write error, or is, as the disk stores it, found in a file the manager will get
   to or was read from one and accepted.
   */
  lemma FreshNamesLoseNothing(mode: Mode, o: C.Origin, steps: seq<Step>, i: nat)
    requires Sorted(o.names) && IsRun(Initial(mode, C.StartOf(o)), steps)
    requires FreshRun(Initial(mode, C.StartOf(o)), steps)
    requires i < |After(Initial(mode, C.StartOf(o)), steps).handled|
    ensures var s := After(Initial(mode, C.StartOf(o)), steps);
            var item := s.handled[i];
            var x := RecordLog.Stored(item.fragment);
            || item.id in s.uploaded
            || item.id in s.pushErrors
            || (exists n | n in s.buf.disk :: InSight(s.buf, n) && x in Held(s.buf, n))
            || x in s.sent
  {
    StartIsTidy(o);
    FreshRunIsHarmless(Initial(mode, C.StartOf(o)), steps);
    HandledIsOnDiskOrAccepted(mode, C.StartOf(o), steps, i);
  }

  /** And so is what earlier lives left: a record found in a listed file at start is found or was sent at the end. */
  lemma RecoveredIsOnDiskOrSent(mode: Mode, o: C.Origin, steps: seq<Step>, n: string, x: RecordLog.Fragment)
    requires Sorted(o.names) && IsRun(Initial(mode, C.StartOf(o)), steps)
    requires FreshRun(Initial(mode, C.StartOf(o)), steps)
    requires n in o.names && n in o.disk && x in RecordLog.ReadAll(o.disk[n]).fragments
    ensures var s := After(Initial(mode, C.StartOf(o)), steps);
            || (exists m | m in s.buf.disk :: InSight(s.buf, m) && x in Held(s.buf, m))
            || x in s.sent
  {
    var b0, s0 := C.StartOf(o), Initial(mode, C.StartOf(o));
    var k :| 0 <= k < |o.names| && o.names[k] == n;
    assert b0.files[k].path == n && Keeps(b0, n, Held(b0, n));
    StartIsTidy(o);
    InitialKeeps(mode, b0);
    FreshRunIsHarmless(s0, steps);
    RunKeeps(s0, steps);
    hide Initial, IsRun, After, HarmlessRun, FreshRun, Ordered, Base, Tidy;
    RunRecovers(s0, steps, x);
    BaseSent(After(s0, steps));
    FoundOrSent(After(s0, steps), x);
  }

  lemma {:induction false} RunRecovers(s: State, steps: seq<Step>, x: RecordLog.Fragment)
    requires Ordered(s) && Base(s) && IsRun(s, steps) && HarmlessRun(s, steps) && Recoverable(s.buf, x)
    ensures Recoverable(After(s, steps).buf, x)
    decreases |steps|
  {
    hide Ordered, Base, Can, Do, StepLoses, HarmfulStep, Recoverable;
    if steps == [] {
    } else {
      StepLosesExactly(s, steps[0]);
      StepRecovers(s, steps[0], x);
      StepKeeps(s, steps[0]);
      RunRecovers(Do(s, steps[0]), steps[1..], x);
    }
  }

  lemma StepRecovers(s: State, step: Step, x: RecordLog.Fragment)
    requires Can(s, step) && !StepLoses(s, step) && Recoverable(s.buf, x)
    ensures Recoverable(Do(s, step).buf, x)
  {
    hide Keeps, Do, CanRender, CanTask;
    var n: string, r: seq<RecordLog.Fragment> :| x in r && Keeps(s.buf, n, r);
    assert r != [];
    StillKept(s, step, n, r);
  }

  // ---- stamps that grow ----

  /** Each file is created in a later millisecond than every one before it. */
  predicate GrowingRun(s: State, steps: seq<Step>, last: int)
    requires IsRun(s, steps)
    decreases |steps|
  {
    steps == [] ||
    match CreationTime(s, steps[0])
    case None => GrowingRun(Do(s, steps[0]), steps[1..], last)
    case Some(createAt) =>
      last < createAt / NS_PER_MS && GrowingRun(Do(s, steps[0]), steps[1..], createAt / NS_PER_MS)
  }

  /** No file the manager tracks is stamped later than this. */
  ghost predicate StampedBy(b: B.Buf, last: int) {
    forall m: nat :: InSight(b, FileName(b.stream, m)) ==> m <= last
  }

  lemma OneStampPerName(stream: string, m: nat, n: nat)
    requires FileName(stream, m) == FileName(stream, n)
    ensures m == n
  {
    assert |FileName(stream, m)| == |stream| + |INFIX| + |Decimal(m)| + |SUFFIX|;
    assert |FileName(stream, n)| == |stream| + |INFIX| + |Decimal(n)| + |SUFFIX|;
    FileNameOrder(stream, m, n);
  }

  lemma LaterStampIsFresh(b: B.Buf, last: int, createAt: nat)
    requires StampedBy(b, last) && last < createAt / NS_PER_MS
    ensures !InSight(b, B.NewName(b, createAt))
  {
  }

  /** The only name a step adds is that of the file it creates. */
  ghost predicate AddsOnly(b: B.Buf, b': B.Buf, name: Option<string>) {
    b'.stream == b.stream && forall n | InSight(b', n) :: InSight(b, n) || name == Some(n)
  }

  function NameGiven(s: State, step: Step): Option<string>
    requires Can(s, step)
  {
    match CreationTime(s, step)
    case None => None
    case Some(createAt) => Some(B.NewName(s.buf, createAt))
  }

  lemma SameFilesAdd(b: B.Buf, b': B.Buf)
    requires b'.stream == b.stream && b'.files == b.files
    requires b'.current.Some? ==> b.current.Some? && b'.current.value.path == b.current.value.path
    ensures AddsOnly(b, b', None)
  {
  }

  lemma AddsThrough(a: B.Buf, b: B.Buf, c: B.Buf, name: Option<string>)
    requires AddsOnly(a, b, name) && AddsOnly(b, c, None)
    ensures AddsOnly(a, c, name)
  {
    hide InSight;
  }

  lemma FinalizeAdds(b: B.Buf)
    ensures AddsOnly(b, B.Finalize(b), None)
  {
    forall n | InSight(B.Finalize(b), n) ensures InSight(b, n) { FinalizeSight(b, n); }
  }

  lemma StartNewAdds(b: B.Buf, createAt: nat, startTime: int)
    ensures AddsOnly(b, B.StartNew(B.Finalize(b), createAt, startTime), Some(B.NewName(b, createAt)))
  {
    FinalizeAdds(b);
    var b1 := B.Finalize(b);
    var b2 := B.StartNew(b1, createAt, startTime);
    forall n | InSight(b2, n) ensures InSight(b, n) || n == B.NewName(b, createAt) {
      assert InSight(b1, n) || n == B.NewName(b, createAt);
    }
  }

  lemma {:induction false} SweepAdds(b: B.Buf, now: int, removes: string -> bool)
    ensures AddsOnly(b, B.Cleanup(b, now, removes), None)
    decreases |b.files|
  {
    hide InSight;
    if b.files == [] || !B.Expired(b, b.files[0], now) {
    } else {
      var b1 := B.PopFront(b, removes(b.files[0].path));
      forall n | InSight(b1, n) ensures InSight(b, n) { PopSight(b, removes(b.files[0].path), n); }
      SweepAdds(b1, now, removes);
      AddsThrough(b, b1, B.Cleanup(b, now, removes), None);
    }
  }

  lemma RotatedAdds(b: B.Buf, f: RecordLog.Fragment, checkAt: int, createAt: nat)
    ensures AddsOnly(b, B.Rotated(b, f, checkAt, createAt),
                     if B.ShouldRotate(b, checkAt) then Some(B.NewName(b, createAt)) else None)
  {
    hide InSight;
    if B.ShouldRotate(b, checkAt) { StartNewAdds(b, createAt, f.timestampNs); }
  }

  lemma PushAdds(b: B.Buf, f: RecordLog.Fragment, checkAt: int, createAt: nat)
    ensures AddsOnly(b, B.Push(b, f, checkAt, createAt),
                     if B.ShouldRotate(b, checkAt) then Some(B.NewName(b, createAt)) else None)
  {
    var r, b' := B.Rotated(b, f, checkAt, createAt), B.Push(b, f, checkAt, createAt);
    RotatedAdds(b, f, checkAt, createAt);
    SameFilesAdd(r, b');
    hide AddsOnly, B.Push, B.Rotated;
    AddsThrough(b, r, b', if B.ShouldRotate(b, checkAt) then Some(B.NewName(b, createAt)) else None);
  }

  lemma PushedAdds(b: B.Buf, f: RecordLog.Fragment, outcome: B.PushOutcome, checkAt: int, createAt: nat,
                   sweep: Option<Sweep>)
    ensures AddsOnly(b, Pushed(b, f, outcome, checkAt, createAt, sweep),
                     if !outcome.CreateFails? && B.ShouldRotate(b, checkAt) then Some(B.NewName(b, createAt)) else None)
  {
    hide AddsOnly, B.Push, B.Rotated, B.NewName, B.ShouldRotate;
    match outcome
    case Written =>
      var b1, b2 := B.Push(b, f, checkAt, createAt), Pushed(b, f, outcome, checkAt, createAt, sweep);
      PushAdds(b, f, checkAt, createAt);
      if sweep.Some? {
        SweepAdds(b1, sweep.value.now, Removes(sweep.value.undeletable));
        AddsThrough(b, b1, b2, if B.ShouldRotate(b, checkAt) then Some(B.NewName(b, createAt)) else None);
      }
    case WriteFails => RotatedAdds(b, f, checkAt, createAt);
    case CreateFails => FinalizeAdds(b); SameFilesAdd(b, b);
  }

  lemma WorkAdds(s: State, step: WorkerStep)
    requires CanWork(s, step)
    ensures AddsOnly(s.buf, DoWork(s, step).buf, NameGiven(s, Work(step)))
  {
    hide AddsOnly, Pushed, B.NewName, B.ShouldRotate;
    if step.Push? {
      PushedAdds(s.buf, s.worker.item.fragment, step.outcome, step.checkAt, step.createAt, step.sweep);
    } else {
      WorkKeepsBuffer(s, step);
      SameFilesAdd(s.buf, s.buf);
    }
  }

  lemma PassAdds(b: B.Buf, p: B.Pass, removed: bool)
    ensures AddsOnly(b, B.RecordPass(b, p, removed), None)
  {
    var b' := B.RecordPass(b, p, removed);
    assert b'.stream == b.stream;
    hide B.RecordPass;
    forall n | InSight(b', n) ensures InSight(b, n) { RecordPassSight(b, p, removed, n); }
  }

  lemma TaskAdds(s: State, t: nat, step: TaskStep)
    requires CanTask(s, t, step)
    ensures AddsOnly(s.buf, DoTask(s, t, step).buf, NameGiven(s, TaskDo(t, step)))
  {
    hide AddsOnly, InSight, Found, B.StartNew, B.Finalize;
    if step.Select? {
      FinalizeAdds(s.buf);
      StartNewAdds(s.buf, step.createAt, step.createAt);
    } else if step.FailTrigger? {
      FinalizeAdds(s.buf);
    } else if step.FailFile? || step.FinishFile? {
      var path := s.tasks[t].pc.paths[0];
      var found := Found(s.buf, path);
      var p := B.Pass(path, if step.FailFile? then found[..s.tasks[t].pc.next] else found, step.FinishFile?);
      PassAdds(s.buf, p, step.FinishFile? && step.removed);
    } else if step.CompleteTrigger? {
      SameFilesAdd(s.buf, DoTask(s, t, step).buf);
    } else {
      KeepsBuffer(s, t, step);
      KeepsStream(s, t, step);
      SameFilesAdd(s.buf, DoTask(s, t, step).buf);
    }
  }

  lemma KeepsStream(s: State, t: nat, step: TaskStep)
    requires CanTask(s, t, step) && !step.Select? && !step.FailTrigger? && !step.FailFile? && !step.FinishFile?
    ensures DoTask(s, t, step).buf.stream == s.buf.stream
  {
    if step.Deliver? { DeliverShape(s, t); hide DeliverNext; }
    hide Found;
  }

  lemma StepAdds(s: State, step: Step)
    requires Can(s, step)
    ensures AddsOnly(s.buf, Do(s, step).buf, NameGiven(s, step))
  {
    hide AddsOnly, InSight;
    match step
    case Render(r) => RenderLeavesDisk(s, r); SameFilesAdd(s.buf, s.buf);
    case Work(w) => WorkAdds(s, w);
    case TaskDo(t, x) => TaskAdds(s, t, x);
    case Trigger(_) => SameFilesAdd(s.buf, s.buf);
  }

  lemma StampedAfter(s: State, step: Step, last: int)
    requires Can(s, step) && StampedBy(s.buf, last)
    requires CreationTime(s, step).Some? ==> last < CreationTime(s, step).value / NS_PER_MS
    ensures StampedBy(Do(s, step).buf,
                      if CreationTime(s, step).Some? then CreationTime(s, step).value / NS_PER_MS else last)
  {
    var b, b', at := s.buf, Do(s, step).buf, CreationTime(s, step);
    StepAdds(s, step);
    hide InSight, FileName, Can, Do, CreationTime;
    forall m: nat | InSight(b', FileName(b'.stream, m))
      ensures m <= if at.Some? then at.value / NS_PER_MS else last
    {
      assert InSight(b, FileName(b.stream, m)) || NameGiven(s, step) == Some(FileName(b.stream, m));
      if !InSight(b, FileName(b.stream, m)) { OneStampPerName(b.stream, m, at.value / NS_PER_MS); }
    }
  }

  lemma {:induction false} GrowingRunIsFresh(s: State, steps: seq<Step>, last: int)
    requires IsRun(s, steps) && StampedBy(s.buf, last) && GrowingRun(s, steps, last)
    ensures FreshRun(s, steps)
    decreases |steps|
  {
    hide StampedBy, Can, Do, CreationTime, InSight, B.NewName;
    if steps == [] {
    } else {
      var at := CreationTime(s, steps[0]);
      StampedAfter(s, steps[0], last);
      if at.Some? { LaterStampIsFresh(s.buf, last, at.value); }
      GrowingRunIsFresh(Do(s, steps[0]), steps[1..], if at.Some? then at.value / NS_PER_MS else last);
    }
  }

  /**
   In terms of the clock: from a directory whose files are stamped at most `last`, an interleaving that creates
   each file in a later millisecond than the one before gives every file an unused name, so that nothing is lost.
   */
  lemma GrowingStampsAreFresh(mode: Mode, o: C.Origin, steps: seq<Step>, last: int)
    requires Sorted(o.names) && IsRun(Initial(mode, C.StartOf(o)), steps)
    requires forall m: nat | FileName(o.stream, m) in o.names :: m <= last
    requires GrowingRun(Initial(mode, C.StartOf(o)), steps, last)
    ensures FreshRun(Initial(mode, C.StartOf(o)), steps)
    ensures !RunLosesSome(Initial(mode, C.StartOf(o)), steps)
  {
    var b := C.StartOf(o);
    forall m: nat | InSight(b, FileName(b.stream, m)) ensures m <= last {
      var k :| 0 <= k < |b.files| && b.files[k].path == FileName(b.stream, m);
      assert o.names[k] == FileName(o.stream, m);
    }
    GrowingRunIsFresh(Initial(mode, b), steps, last);
    StartIsTidy(o);
    FreshRunIsHarmless(Initial(mode, b), steps);
    InterleavingLosesIff(mode, b, steps);
  }
}
