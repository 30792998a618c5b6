/**
 The disk buffer over whole runs: any sequence of pushes, triggers and cleanups, on any directory a manager
 can start on, whatever the uploader answers and whichever deletions fail. The directory may hold files of
 earlier lives, so a run here may be any one between two crashes.
 */
module BufferRuns {
  import opened Wrappers
  import opened BufferEvents
  import opened RecordLog
  import opened BufferModel
  import opened BufferInvariant
  import opened BufferTrigger
  import opened BufferLoss
  import opened CrashRecovery

  lemma OrderOfValid(b: Buf)
    requires Valid(b)
    ensures OrderOk(b) && PathsOk(b) && MetaOk(b)
  {
  }

  /**
   Order: the files of the deque, then the current file, hold what was recovered and then pushed, from some
   point on, in that order; no two files share a path; and the metadata of each file of this run is that of
   its records.
   */
  lemma FilesHoldPushesInOrder(o: Origin, ops: seq<Op>)
    requires CanStart(o) && RunOk(StartOf(o), ops)
    ensures var b := Run(StartOf(o), ops);
            && b.popped <= |RecoveredBy(o) + PushedBy(ops)|
            && FlattenFiles(b.files, b.contents) + CurrentContents(b) == (RecoveredBy(o) + PushedBy(ops))[b.popped..]
            && (forall i, j | 0 <= i < j < |b.files| :: b.files[i].path != b.files[j].path)
            && MetaOk(b)
  {
    var b := AfterRun(o, ops);
    OrderOfValid(b);
    hide Valid, CanStart, RunOk, Run, StartOf, MetaOk;
    SortedDistinct(Paths(b.files));
    forall i, j | 0 <= i < j < |b.files| ensures b.files[i].path != b.files[j].path {
      assert Paths(b.files)[i] == b.files[i].path && Paths(b.files)[j] == b.files[j].path;
    }
  }

  /** Conservation: what was recovered or pushed is on disk in a tracked file, or was accepted in full. */
  lemma PushedIsKeptOrAccepted(o: Origin, ops: seq<Op>, j: nat)
    requires CanStart(o) && RunOk(StartOf(o), ops) && j < |RecoveredBy(o) + PushedBy(ops)|
    ensures var b := Run(StartOf(o), ops);
            exists n | n in b.contents ::
              (RecoveredBy(o) + PushedBy(ops))[j] in b.contents[n] && (OnDisk(b, n) || WasAccepted(b, n))
  {
    var b := AfterRun(o, ops);
    hide Valid, CanStart, RunOk, Run, StartOf, OnDisk, WasAccepted;
    NothingIsLost(b, j);
  }

  /** Deletion: a file of the run that is no longer on disk had every record accepted in one in-order pass. */
  lemma DeletedWasAccepted(o: Origin, ops: seq<Op>, n: string)
    requires CanStart(o) && RunOk(StartOf(o), ops)
    requires n in Run(StartOf(o), ops).names && n !in Run(StartOf(o), ops).disk
    ensures WasAccepted(Run(StartOf(o), ops), n)
  {
    var b := AfterRun(o, ops);
    DeletedOnlyAfterAcceptance(b, n);
    assert n in b.contents;
  }

  /** Retry budget: a tracked file is marked exactly when it was accepted in full, and fails at most five times. */
  lemma FivePassesAtMost(o: Origin, ops: seq<Op>, i: nat)
    requires CanStart(o) && RunOk(StartOf(o), ops) && i < |Run(StartOf(o), ops).files|
    ensures var b := Run(StartOf(o), ops);
            && FailedPasses(b.passes, b.files[i].path) <= 5
            && (b.files[i].uploaded <==> WasAccepted(b, b.files[i].path))
  {
    var b := AfterRun(o, ops);
    UploadedMeansAccepted(b, i);
  }

  /** Size: no file of this run reaches 50 MB when no record pushed or recovered is larger than 5 MB. */
  lemma FilesStayUnderLimit(o: Origin, ops: seq<Op>, n: string)
    requires CanStart(o) && RunOk(StartOf(o), ops)
    requires forall f | f in RecoveredBy(o) + PushedBy(ops) :: |Record(f)| <= 5_000_000
    requires n in Run(StartOf(o), ops).names && n in Run(StartOf(o), ops).disk && n !in o.names
    ensures |Run(StartOf(o), ops).disk[n]| < 50_000_000
  {
    var b := AfterRun(o, ops);
    RecoveredAtStart(o, ops);
    OrderOfValid(b);
    assert n in b.contents;
    hide Valid, CanStart, RunOk, Run, StartOf;
    forall f | f in b.contents[n] ensures |Record(f)| <= 5_000_000 {
      var j :| 0 <= j < |b.contents[n]| && b.contents[n][j] == f;
      FlattenContains(b.names, b.contents, n, j);
    }
    FileSizeBound(b, n);
  }

  lemma {:induction false} RecoveredStays(b: Buf, ops: seq<Op>)
    requires Valid(b) && RunOk(b, ops)
    ensures Run(b, ops).recovered == b.recovered
    decreases |ops|
  {
    if ops == [] {
    } else {
      DoKeeps(b, ops[0]);
      DoRecovered(b, ops[0]);
      hide Valid, OpOk, Do;
      RecoveredStays(Do(b, ops[0]), ops[1..]);
    }
  }

  lemma DoRecovered(b: Buf, op: Op)
    ensures Do(b, op).recovered == b.recovered
  {
    match op
    case DoPush(_, _, _) =>
    case DoTrigger(start, end, createAt, put, removes) =>
      hide UploadFiles, Selected;
      UploadsRecovered(StartNew(Finalize(b), createAt, createAt), Selected(Finalize(b).files, start, end), put,
          removes, 0);
    case DoCleanup(now, removes) => CleanupRecovered(b, now, removes);
  }

  lemma {:induction false} UploadsRecovered(b: Buf, paths: seq<string>, put: nat -> bool, removes: string -> bool,
                                            k: nat)
    ensures UploadFiles(b, paths, put, removes, k).recovered == b.recovered
    decreases |paths|
  {
    if paths == [] {
    } else {
      var u := UploadFile(b.disk, paths[0], put, k);
      var b1 := RecordPass(b, Pass(paths[0], u.accepted, u.complete), removes(paths[0]));
      assert b1.recovered == b.recovered;
      hide RecordPass, UploadFile;
      UploadsRecovered(b1, paths[1..], put, removes, u.next);
    }
  }

  lemma {:induction false} CleanupRecovered(b: Buf, now: int, removes: string -> bool)
    ensures Cleanup(b, now, removes).recovered == b.recovered
    decreases |b.files|
  {
    if b.files == [] || !Expired(b, b.files[0], now) {
    } else {
      CleanupRecovered(PopFront(b, removes(b.files[0].path)), now, removes);
    }
  }

  lemma RecoveredAtStart(o: Origin, ops: seq<Op>)
    requires CanStart(o) && RunOk(StartOf(o), ops)
    ensures Run(StartOf(o), ops).recovered == (set n | n in o.names)
  {
    StartIsValid(o.disk, o.stream, o.maxAge, o.names, o.modified);
    hide Valid, CanStart;
    RecoveredStays(StartOf(o), ops);
  }

  /**
   One trigger at the end of any run: it delivers a subsequence of what was recovered and pushed, in that order, and its
   events are one error per failed file and then one completion that says whether to go live.
   */
  lemma TriggerAfterRun(o: Origin, ops: seq<Op>, start: Option<int>, end: Option<int>,
                        createAt: nat, put: nat -> bool, removes: string -> bool)
    requires CanStart(o) && RunOk(StartOf(o), ops)
    requires var b := Run(StartOf(o), ops); Targets(b, start, end) != [] ==> FreshName(b, createAt)
    ensures var b := Run(StartOf(o), ops);
            var b' := Trigger(b, start, end, createAt, put, removes);
            && b.passes <= b'.passes
            && IsSubsequence(Accepted(NewPasses(b, b')), StoredAll(RecoveredBy(o) + PushedBy(ops)))
            && b'.events == b.events + ErrorsOf(NewPasses(b, b')) + [HistoricalUploadComplete(end.None?)]
            && b'.current.None?
  {
    var b := AfterRun(o, ops);
    hide Valid, CanStart, RunOk, Run, StartOf, FreshName, Trigger;
    TriggerOrder(b, start, end, createAt, put, removes);
    TriggerKeeps(b, start, end, createAt, put, removes);
  }

  /**
   And when every put is accepted, it delivers every fragment of the range, from every file of this run
   not uploaded and with retries left, as long as timestamps do not go back within a file.
   */
  lemma CompleteAfterRun(o: Origin, ops: seq<Op>, start: Option<int>, end: Option<int>,
                         createAt: nat, put: nat -> bool, removes: string -> bool, i: nat, j: nat)
    requires CanStart(o) && RunOk(StartOf(o), ops)
    requires var b := Run(StartOf(o), ops); Targets(b, start, end) != [] ==> FreshName(b, createAt)
    requires forall n :: put(n)
    requires var b := Finalize(Run(StartOf(o), ops));
             && i < |b.files| && !b.files[i].uploaded && b.files[i].attempts < MAX_UPLOAD_RETRIES
             && b.files[i].path in b.contents && b.files[i].path !in o.names
             && Nondecreasing(b.contents[b.files[i].path])
             && j < |b.contents[b.files[i].path]| && InRange(b.contents[b.files[i].path][j], start, end)
    ensures var b := Run(StartOf(o), ops);
            var b' := Trigger(b, start, end, createAt, put, removes);
            && b.passes <= b'.passes
            && Stored(Finalize(b).contents[Finalize(b).files[i].path][j]) in Accepted(NewPasses(b, b'))
  {
    var b := AfterRun(o, ops);
    RecoveredAtStart(o, ops);
    hide Valid, CanStart, RunOk, Run, StartOf, FreshName, Trigger;
    TriggerCompleteness(b, start, end, createAt, put, removes, i, j);
  }

  // ---- without any assumption on the clock ----

  /** On any directory and with any clock: a run loses something iff one of its operations is harmful in its turn. */
  lemma RunLosesIff(o: Origin, ops: seq<Op>)
    requires AllPushable(ops)
    ensures RunLoses(StartOf(o), ops) <==> !Harmless(StartOf(o), ops)
  {
    RunLosesExactly(StartOf(o), ops);
  }

  /**
   A harmless run loses nothing: what was found in a listed file at start, and what was pushed, is at the end
   found in a file the manager will get to, or was accepted by the uploader.
   */
  lemma HarmlessRunLosesNothing(o: Origin, ops: seq<Op>, x: Fragment)
    requires AllPushable(ops) && Harmless(StartOf(o), ops)
    requires (exists n | n in o.names :: n in o.disk && x in ReadAll(o.disk[n]).fragments)
             || exists f | f in PushedBy(ops) :: x == Stored(f)
    ensures var b := Run(StartOf(o), ops);
            || (exists n | n in b.disk :: InSight(b, n) && x in Held(b, n))
            || (exists p | p in b.passes :: x in p.accepted)
  {
    var b0 := StartOf(o);
    if n :| n in o.names && n in o.disk && x in ReadAll(o.disk[n]).fragments {
      var i :| 0 <= i < |o.names| && o.names[i] == n;
      assert b0.files[i].path == n;
      assert Keeps(b0, n, Held(b0, n));
    }
    hide Harmless, Run, AllPushable, StartOf;
    HarmlessRunKeeps(b0, ops, x);
    WhereRecoverable(Run(b0, ops), x);
  }

  lemma WhereRecoverable(b: Buf, x: Fragment)
    requires Recoverable(b, x)
    ensures || (exists n | n in b.disk :: InSight(b, n) && x in Held(b, n))
            || (exists p | p in b.passes :: x in p.accepted)
  {
    var n: string, r: seq<Fragment> :| x in r && Keeps(b, n, r);
    if OnFile(b, n, r) {
      assert x in Held(b, n);
    } else {
      var p :| p in b.passes && p.path == n && r <= p.accepted;
      assert x in p.accepted;
    }
  }

  /** Fresh names are enough for that, on any directory a manager can start on. */
  lemma FreshNamesSuffice(o: Origin, ops: seq<Op>)
    requires CanStart(o) && RunOk(StartOf(o), ops)
    ensures Harmless(StartOf(o), ops)
  {
    StartIsValid(o.disk, o.stream, o.maxAge, o.names, o.modified);
    FreshNamesAreHarmless(StartOf(o), ops);
  }
}
