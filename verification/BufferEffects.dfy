/**
 What one operation of the disk buffer does, in numbers and in terms of what its caller can see: when a push
 rotates, what a pass and a cleanup delete, which files a trigger uploads and which it does not.
 */
module BufferEffects {
  import opened Wrappers
  import opened Bytes
  import opened RecordLog
  import opened FileNames
  import opened BufferModel
  import opened BufferInvariant
  import opened BufferTrigger

  // ---- pushing ----

  /** Thirty minutes old, 45 MB large, or not there. */
  predicate RotationDue(c: Option<CurrentFile>, now: int) {
    c.None? || now - c.value.createdAt >= 1_800_000_000_000 || c.value.size >= 45_000_000
  }

  /** The name of a file created at this time. */
  function NameAt(stream: string, createAt: nat): string {
    stream + "_clusters_" + Decimal(createAt / 1_000_000) + ".dat"
  }

  /** What the deque knows of a file that was just closed. */
  predicate Closed(c: CurrentFile, f: MegaFile) {
    && f.path == c.path && f.startTime == c.startTime && f.endTime == c.lastTime
    && f.fileSize == c.size && f.clusterCount == c.clusterCount && !f.uploaded && f.attempts == 0
  }

  /** The open file, if any, was closed and queued behind the others. */
  predicate ClosedTo(b: Buf, files: seq<MegaFile>) {
    if b.current.None? then files == b.files
    else |files| == |b.files| + 1 && files[..|b.files|] == b.files && Closed(b.current.value, files[|b.files|])
  }

  /** The open file and what is queued stay. */
  predicate Continued(b: Buf, b': Buf) {
    && b'.files == b.files && b.current.Some? && b'.current.Some?
    && b'.current.value.path == b.current.value.path && b'.current.value.createdAt == b.current.value.createdAt
    && b'.current.value.startTime == b.current.value.startTime
  }

  /**
   A push closes the open file and writes to a new one if and only if none is open, or the open one is 30 minutes
   old or holds 45 MB. Otherwise it appends to the open one.
   */
  lemma PushRotatesIff(b: Buf, f: Fragment, checkAt: int, createAt: nat)
    requires b.current.Some? && b.current.value.path in b.disk ==> b.current.value.path in b.contents
    ensures var b' := Push(b, f, checkAt, createAt);
            && b'.current.Some? && b'.current.value.lastTime == f.timestampNs
            && (RotationDue(b.current, checkAt) ==>
                  && ClosedTo(b, b'.files)
                  && b'.current.value == CurrentFile(NameAt(b.stream, createAt), createAt, f.timestampNs, f.timestampNs,
                                                     32 + |f.header| + |f.cluster|, 1)
                  && b'.disk == b.disk[NameAt(b.stream, createAt) := Record(f)])
            && (!RotationDue(b.current, checkAt) ==>
                  && Continued(b, b')
                  && b'.current.value.size == b.current.value.size + 32 + |f.header| + |f.cluster|
                  && b'.current.value.clusterCount == b.current.value.clusterCount + 1
                  && b'.disk == if b.current.value.path in b.disk
                                then b.disk[b.current.value.path := b.disk[b.current.value.path] + Record(f)]
                                else b.disk)
  {
    FileNameIs(b.stream, createAt / NS_PER_MS);
    hide Record, FileName;
    assert [] + Record(f) == Record(f);
    var n := NameAt(b.stream, createAt);
    assert b.disk[n := []][n := Record(f)] == b.disk[n := Record(f)];
  }

  /** A push that fails rotates in the same cases: it wrote nothing, and has a new file only if it could create one. */
  lemma FailedPushRotatesIff(b: Buf, f: Fragment, outcome: PushOutcome, checkAt: int, createAt: nat)
    requires !outcome.Written?
    ensures var b' := Attempt(b, f, outcome, checkAt, createAt);
            && b'.pushed == b.pushed
            && (!RotationDue(b.current, checkAt) ==> b' == b)
            && (RotationDue(b.current, checkAt) ==>
                  && ClosedTo(b, b'.files)
                  && b'.current == (if outcome.CreateFails? then None
                                    else Some(CurrentFile(NameAt(b.stream, createAt), createAt, f.timestampNs,
                                                          f.timestampNs, 0, 0)))
                  && b'.disk == (if outcome.CreateFails? then b.disk else b.disk[NameAt(b.stream, createAt) := []]))
  {
    FileNameIs(b.stream, createAt / NS_PER_MS);
    hide FileName;
  }

  /** Both together: whatever the outcome, the file is rotated when it is due and only then. */
  predicate RotatesWhenDue(b: Buf, b': Buf, outcome: PushOutcome, checkAt: int, createAt: nat) {
    if RotationDue(b.current, checkAt)
    then && ClosedTo(b, b'.files)
         && (outcome.CreateFails? <==> b'.current.None?)
         && (b'.current.Some? ==> b'.current.value.path == NameAt(b.stream, createAt)
                                  && b'.current.value.createdAt == createAt)
    else (outcome.Written? ==> Continued(b, b')) && (!outcome.Written? ==> b' == b)
  }

  lemma PushRotates(b: Buf, f: Fragment, outcome: PushOutcome, checkAt: int, createAt: nat)
    requires b.current.Some? && b.current.value.path in b.disk ==> b.current.value.path in b.contents
    ensures RotatesWhenDue(b, Attempt(b, f, outcome, checkAt, createAt), outcome, checkAt, createAt)
  {
    hide ClosedTo, Continued, Record;
    if outcome.Written? {
      PushRotatesIff(b, f, checkAt, createAt);
    } else {
      FailedPushRotatesIff(b, f, outcome, checkAt, createAt);
    }
    hide Attempt;
  }

  // ---- one pass ----

  /** The first of the entries with a path. */
  predicate FirstAt(files: seq<MegaFile>, path: string, i: nat) {
    i < |files| && files[i].path == path && forall j | 0 <= j < i :: files[j].path != path
  }

  /**
   After a pass that got everything accepted its file is marked and, if that works, deleted; after any other one
   attempt more is counted and the file is kept. Nothing else changes.
   */
  lemma PassEffect(b: Buf, p: Pass, removed: bool, i: nat)
    requires FirstAt(b.files, p.path, i)
    ensures var b' := RecordPass(b, p, removed);
            && |b'.files| == |b.files| && (forall j | 0 <= j < |b.files| && j != i :: b'.files[j] == b.files[j])
            && b'.files[i] == (if p.complete then b.files[i].(uploaded := true)
                               else b.files[i].(attempts := b.files[i].attempts + 1))
            && b'.disk == (if p.complete && removed then b.disk - {p.path} else b.disk)
            && b'.current == b.current
  {
    assert IndexOf(b.files, p.path) == i;
  }

  /**
   What a pass puts: the records of the file from the first on, up to and including the first that is refused; it
   is complete if and only if none is.
   */
  lemma {:induction false} PutAllExact(fs: seq<Fragment>, put: nat -> bool, k: nat)
    ensures var r := PutAll(fs, put, k);
            && (forall n | k <= n < k + |r.accepted| :: put(n))
            && r.accepted == fs[..|r.accepted|]
            && (r.complete <==> |r.accepted| == |fs|)
            && (!r.complete ==> !put(k + |r.accepted|))
            && r.next == k + |r.accepted| + if r.complete then 0 else 1
  {
    if fs == [] || !put(k) {
    } else {
      PutAllExact(fs[1..], put, k + 1);
      var rest := PutAll(fs[1..], put, k + 1).accepted;
      assert PutAll(fs, put, k).accepted == [fs[0]] + rest;
    }
  }

  /** One pass over a file: complete if and only if the file is there, reads to its end, and no put is refused. */
  lemma PassOfFile(disk: map<string, seq<byte>>, path: string, put: nat -> bool, k: nat)
    ensures var u := UploadFile(disk, path, put, k);
            var r := if path in disk then ReadAll(disk[path]) else ReadAllResult([], false);
            && (u.complete <==>
                  path in disk && !r.panicked && forall n | k <= n < k + |r.fragments| :: put(n))
            && |u.accepted| <= |r.fragments| && u.accepted == r.fragments[..|u.accepted|]
            && (forall n | k <= n < k + |u.accepted| :: put(n))
            && (|u.accepted| < |r.fragments| ==> !put(k + |u.accepted|))
  {
    if path in disk { PutAllExact(ReadAll(disk[path]).fragments, put, k); }
    hide ReadAll, PutAll;
  }

  // ---- cleanup ----

  /** Longer in the past than the retention, and uploaded. */
  predicate Forgettable(b: Buf, f: MegaFile, now: int) { f.uploaded && now - f.startTime > b.maxAge }

  /**
   A cleanup forgets the entries of the longest prefix of the deque that are uploaded and older than the
   retention, and deletes what is left of their files where that works; it changes nothing else.
   */
  lemma {:induction false} CleanupEffect(b: Buf, now: int, removes: string -> bool) returns (k: nat)
    ensures var b' := Cleanup(b, now, removes);
            && k <= |b.files| && b'.files == b.files[k..] && b'.current == b.current && b'.passes == b.passes
            && b'.events == b.events
            && (forall i | 0 <= i < k :: Forgettable(b, b.files[i], now))
            && (k < |b.files| ==> !Forgettable(b, b.files[k], now))
            && (forall n :: n in b'.disk <==>
                              n in b.disk && !exists i | 0 <= i < k :: b.files[i].path == n && removes(n))
            && (forall n | n in b'.disk :: b'.disk[n] == b.disk[n])
    decreases |b.files|
  {
    if b.files == [] || !Forgettable(b, b.files[0], now) {
      k := 0;
    } else {
      var path := b.files[0].path;
      var b1 := PopFront(b, removes(path));
      assert Cleanup(b, now, removes) == Cleanup(b1, now, removes);
      assert b1 == b.(files := b1.files, disk := b1.disk, popped := b1.popped) && b1.files == b.files[1..];
      assert b1.disk == if removes(path) then b.disk - {path} else b.disk;
      SameForgettable(b, b1, now);
      hide Cleanup, PopFront, Forgettable;
      var j := CleanupEffect(b1, now, removes);
      k := j + 1;
      assert forall i | 0 <= i < |b1.files| :: b1.files[i] == b.files[i + 1];
      ForgottenPaths(b, b1, j, removes);
    }
  }

  lemma SameForgettable(b: Buf, b1: Buf, now: int)
    requires b1.maxAge == b.maxAge
    ensures forall f :: Forgettable(b1, f, now) <==> Forgettable(b, f, now)
  {
  }

  lemma ForgottenPaths(b: Buf, b1: Buf, j: nat, removes: string -> bool)
    requires b.files != [] && b1.files == b.files[1..] && j <= |b1.files|
    ensures forall n :: (exists i | 0 <= i < j + 1 :: b.files[i].path == n && removes(n))
                        <==> (b.files[0].path == n && removes(n))
                             || exists i | 0 <= i < j :: b1.files[i].path == n && removes(n)
  {
    forall n | exists i | 0 <= i < j :: b1.files[i].path == n && removes(n)
      ensures exists i | 0 <= i < j + 1 :: b.files[i].path == n && removes(n)
    {
      var i :| 0 <= i < j && b1.files[i].path == n && removes(n);
      assert b.files[i + 1].path == n;
    }
    forall n | exists i | 0 <= i < j + 1 :: b.files[i].path == n && removes(n)
      ensures (b.files[0].path == n && removes(n)) || exists i | 0 <= i < j :: b1.files[i].path == n && removes(n)
    {
      var i :| 0 <= i < j + 1 && b.files[i].path == n && removes(n);
      if i > 0 { assert b1.files[i - 1].path == n; }
    }
  }

  // ---- what a trigger selects ----

  /** Not uploaded, tried less than five times, and not wholly outside the range. */
  predicate Uploadable(f: MegaFile, start: Option<int>, end: Option<int>) {
    && !f.uploaded && f.attempts < 5
    && (start.None? || start.value <= f.endTime) && (end.None? || f.startTime <= end.value)
  }

  /** A path is selected if and only if an entry that it belongs to is uploadable. */
  lemma SelectedIff(files: seq<MegaFile>, start: Option<int>, end: Option<int>, path: string)
    ensures path in Selected(files, start, end)
            <==> exists i | 0 <= i < |files| :: files[i].path == path && Uploadable(files[i], start, end)
  {
    SelectedMembers(files, start, end);
    assert forall i | 0 <= i < |files| :: Wanted(files[i], start, end) <==> Uploadable(files[i], start, end);
    hide Wanted, Uploadable, Selected;
  }

  /** Its fragments are there, and some of them can lie in the range: it neither ends before it nor begins after it. */
  predicate Touches(c: seq<Fragment>, start: Option<int>, end: Option<int>) {
    && c != []
    && (start.None? || start.value <= c[|c| - 1].timestampNs) && (end.None? || c[0].timestampNs <= end.value)
  }

  /**
   A file of this run gets a pass if and only if its first and last fragments do not put it wholly outside the
   range, no pass over it got through before, and fewer than five failed.
   */
  lemma UploadedIff(b: Buf, start: Option<int>, end: Option<int>, createAt: nat, put: nat -> bool,
                    removes: string -> bool, i: nat)
    requires Valid(b) && (Targets(b, start, end) != [] ==> FreshName(b, createAt))
    requires i < |Finalize(b).files| && Finalize(b).files[i].path !in b.recovered
    ensures var b', n := Trigger(b, start, end, createAt, put, removes), Finalize(b).files[i].path;
            && b.passes <= b'.passes && n in b.contents
            && ((exists p | p in NewPasses(b, b') :: p.path == n)
                <==> Touches(b.contents[n], start, end) && !HasComplete(b.passes, n) && FailedPasses(b.passes, n) < 5)
  {
    TriggerKeeps(b, start, end, createAt, put, removes);
    var b', n := Trigger(b, start, end, createAt, put, removes), Finalize(b).files[i].path;
    EntryOfRun(b, start, end, i);
    hide Valid, Trigger, FreshName, Finalize, Touches, Uploadable, HasComplete, FailedPasses;
    PassedIsTarget(NewPasses(b, b'), Targets(b, start, end), b'.contents, n);
  }

  lemma PassedIsTarget(passes: seq<Pass>, paths: seq<string>, contents: map<string, seq<Fragment>>, n: string)
    requires PassesFor(contents, passes, paths)
    ensures (exists p | p in passes :: p.path == n) <==> n in paths
  {
    if n in paths {
      var i :| 0 <= i < |paths| && paths[i] == n;
      assert passes[i] in passes;
    }
    if p :| p in passes && p.path == n {
      var i :| 0 <= i < |passes| && passes[i] == p;
      assert paths[i] == n;
    }
  }

  /** What the deque knows of a file of this run is what its fragments and its passes say. */
  lemma EntryOfRun(b: Buf, start: Option<int>, end: Option<int>, i: nat)
    requires Valid(b) && i < |Finalize(b).files| && Finalize(b).files[i].path !in b.recovered
    ensures var n := Finalize(b).files[i].path;
            && n in b.contents
            && (n in Targets(b, start, end)
                <==> Touches(b.contents[n], start, end) && !HasComplete(b.passes, n) && FailedPasses(b.passes, n) < 5)
  {
    hide Valid, HasComplete, FailedPasses, Selected, MetaAgrees, Uploadable, Touches;
    hide Consistent, NamesOk, PathsOk;
    FinalizeFacts(b);
    var b1 := Finalize(b);
    hide Finalize;
    KnownOf(b1, i);
    SelectedIff(b1.files, start, end, b1.files[i].path);
    EntryTouches(b1.files[i], b.contents[b1.files[i].path], start, end);
  }

  lemma KnownOf(b: Buf, i: nat)
    requires Valid(b) && i < |b.files| && b.files[i].path !in b.recovered
    ensures var f := b.files[i];
            && f.path in b.contents && MetaAgrees(f, b.contents[f.path])
            && f.attempts == FailedPasses(b.passes, f.path) && (f.uploaded <==> HasComplete(b.passes, f.path))
            && forall j | 0 <= j < |b.files| && b.files[j].path == f.path :: j == i
  {
    Parts(b);
    hide Valid, Consistent, NamesOk, FilesOk, OrderOk, AccountOk, HasComplete, FailedPasses, MetaAgrees;
    OneEntryPerPath(b, i);
  }

  lemma EntryTouches(f: MegaFile, c: seq<Fragment>, start: Option<int>, end: Option<int>)
    requires MetaAgrees(f, c)
    ensures Uploadable(f, start, end) <==> Touches(c, start, end) && !f.uploaded && f.attempts < 5
  {
    hide Log;
  }

  lemma OneEntryPerPath(b: Buf, i: nat)
    requires PathsOk(b) && i < |b.files|
    ensures forall j | 0 <= j < |b.files| && b.files[j].path == b.files[i].path :: j == i
  {
    SortedDistinct(Paths(b.files));
    forall j | 0 <= j < |b.files| && b.files[j].path == b.files[i].path ensures j == i {
      assert Paths(b.files)[j] == b.files[j].path && Paths(b.files)[i] == b.files[i].path;
    }
  }
}
