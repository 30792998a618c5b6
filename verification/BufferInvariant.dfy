/**
 What every operation of the disk buffer keeps: the files hold the pushed sequence in order, the
 metadata agrees with the records, sizes are bounded, the retry budget holds, and nothing leaves
 the disk before a complete accepted pass.
 */
module BufferInvariant {
  import opened Wrappers
  import opened BufferEvents
  import opened Bytes
  import opened RecordLog
  import opened FileNames
  import opened BufferModel

  /** A fragment whose record leaves room in memory for the rest of a file under the rotation size. */
  predicate Pushable(f: Fragment) {
    Storable(f) && META_SIZE + |f.header| + |f.cluster| + MEGA_CLUSTER_MAX_SIZE <= MAX_BUFFER
  }

  /** The clock moved on: the name it gives sorts after every earlier one. */
  predicate FreshName(b: Buf, createAt: nat) {
    forall n | n in b.names :: Less(n, NewName(b, createAt))
  }

  predicate HasCurrentPath(b: Buf, n: string) { b.current.Some? && b.current.value.path == n }

  predicate IsTracked(b: Buf, n: string) { exists i | 0 <= i < |b.files| :: b.files[i].path == n }

  predicate HasComplete(passes: seq<Pass>, n: string) {
    exists i | 0 <= i < |passes| :: passes[i].path == n && passes[i].complete
  }

  function FailedPasses(passes: seq<Pass>, n: string): nat {
    if passes == [] then 0
    else FailedPasses(passes[..|passes| - 1], n)
         + if passes[|passes| - 1].path == n && !passes[|passes| - 1].complete then 1 else 0
  }

  function FlattenFiles(files: seq<MegaFile>, contents: map<string, seq<Fragment>>): seq<Fragment> {
    FlattenNames(Paths(files), contents)
  }

  function CurrentContents(b: Buf): seq<Fragment> {
    if b.current.Some? && b.current.value.path in b.contents then b.contents[b.current.value.path] else []
  }

  // ---- the parts of the invariant ----

  predicate NamesOk(b: Buf) {
    && Sorted(b.names)
    && (forall n | n in b.names :: n in b.contents)
    && (forall n | n in b.contents :: n in b.names)
    && (forall n | n in b.names :: Scanned(b.stream, n))
    && (forall n | n in b.disk :: n in b.contents)
    && b.recovered <= b.contents.Keys
  }

  predicate PathsOk(b: Buf) {
    && Sorted(Paths(b.files))
    && (forall i | 0 <= i < |b.files| :: b.files[i].path in b.contents)
    && (b.current.Some? ==>
          && b.names != [] && b.current.value.path == b.names[|b.names| - 1]
          && b.current.value.path in b.disk && b.current.value.path !in b.recovered
          && !IsTracked(b, b.current.value.path))
  }

  /** A file stays under the rotation size plus its last record. */
  predicate SizeOk(c: seq<Fragment>) {
    && (c != [] ==> |Log(c[..|c| - 1])| < MEGA_CLUSTER_MAX_SIZE)
    && |Log(c)| <= MAX_BUFFER
  }

  predicate FileOk(b: Buf, n: string)
    requires n in b.contents
  {
    && AllStorable(b.contents[n])
    && (n in b.disk ==> ReadAll(b.disk[n]) == ReadAllResult(StoredAll(b.contents[n]), false))
    && (n !in b.recovered ==> SizeOk(b.contents[n]) && (n in b.disk ==> b.disk[n] == Log(b.contents[n])))
  }

  predicate FilesOk(b: Buf) {
    forall n | n in b.contents :: FileOk(b, n)
  }

  predicate MetaAgrees(f: MegaFile, c: seq<Fragment>) {
    && c != [] && f.fileSize == |Log(c)| && f.clusterCount == |c|
    && f.startTime == c[0].timestampNs && f.endTime == c[|c| - 1].timestampNs
  }

  predicate MetaOk(b: Buf) {
    && (forall i | 0 <= i < |b.files| && b.files[i].path in b.contents && b.files[i].path !in b.recovered ::
          MetaAgrees(b.files[i], b.contents[b.files[i].path]))
    && (b.current.Some? && b.current.value.path in b.contents ==>
          var c, cur := b.contents[b.current.value.path], b.current.value;
          && cur.size == |Log(c)| && cur.clusterCount == |c|
          && (c != [] ==> cur.startTime == c[0].timestampNs && cur.lastTime == c[|c| - 1].timestampNs))
  }

  /** Deque order followed by the current file is push order, and so is creation order. */
  predicate OrderOk(b: Buf) {
    && b.popped <= |b.pushed|
    && FlattenFiles(b.files, b.contents) + CurrentContents(b) == b.pushed[b.popped..]
    && FlattenNames(b.names, b.contents) == b.pushed
  }

  predicate PassOk(b: Buf, p: Pass) {
    && p.path in b.contents
    && p.accepted <= StoredAll(b.contents[p.path])
    && (p.complete <==> p.accepted == StoredAll(b.contents[p.path]))
  }

  predicate NoPass(passes: seq<Pass>, n: string) {
    forall p | p in passes :: p.path != n
  }

  predicate PassesOk(b: Buf) {
    && (forall i | 0 <= i < |b.files| ::
          && b.files[i].attempts == FailedPasses(b.passes, b.files[i].path) <= MAX_UPLOAD_RETRIES
          && (b.files[i].uploaded <==> HasComplete(b.passes, b.files[i].path)))
    && (forall p | p in b.passes :: PassOk(b, p))
    && (b.current.Some? ==> NoPass(b.passes, b.current.value.path))
  }

  /** Nothing leaves the disk, or the manager's sight, without a complete accepted pass. */
  predicate AccountOk(b: Buf) {
    && (forall n | n in b.contents :: n in b.disk || HasComplete(b.passes, n))
    && (forall n | n in b.contents ::
          b.contents[n] == [] || HasCurrentPath(b, n) || IsTracked(b, n) || HasComplete(b.passes, n))
  }

  /** The invariant during a trigger, when the current file may be the new and empty one. */
  ghost predicate Consistent(b: Buf) {
    NamesOk(b) && PathsOk(b) && FilesOk(b) && MetaOk(b) && OrderOk(b) && PassesOk(b) && AccountOk(b)
  }

  /** The invariant between operations. */
  ghost predicate Valid(b: Buf) {
    Consistent(b) && (b.current.Some? ==> CurrentContents(b) != [])
  }

  lemma Parts(b: Buf)
    requires Consistent(b)
    ensures NamesOk(b) && PathsOk(b) && FilesOk(b) && MetaOk(b) && OrderOk(b) && PassesOk(b) && AccountOk(b)
  {
  }

  // ---- small facts ----

  lemma {:induction false} FlattenAppend(a: seq<string>, b: seq<string>, c: map<string, seq<Fragment>>)
    ensures FlattenNames(a + b, c) == FlattenNames(a, c) + FlattenNames(b, c)
  {
    if a == [] {
      assert a + b == b;
    } else {
      assert (a + b)[1..] == a[1..] + b;
      FlattenAppend(a[1..], b, c);
    }
  }

  lemma FlattenSnoc(a: seq<string>, n: string, c: map<string, seq<Fragment>>)
    requires n in c
    ensures FlattenNames(a + [n], c) == FlattenNames(a, c) + c[n]
  {
    FlattenAppend(a, [n], c);
    assert [n][1..] == [];
    assert FlattenNames([n], c) == c[n] + [];
  }

  lemma {:induction false} FlattenFrame(a: seq<string>, c: map<string, seq<Fragment>>, d: map<string, seq<Fragment>>)
    requires forall n | n in a :: n in c && n in d && c[n] == d[n]
    ensures FlattenNames(a, c) == FlattenNames(a, d)
  {
    if a == [] {
    } else {
      FlattenFrame(a[1..], c, d);
    }
  }

  lemma SortedSnoc(a: seq<string>, n: string)
    requires Sorted(a) && forall x | x in a :: Less(x, n)
    ensures Sorted(a + [n]) && n !in a
  {
    if n in a { LessIrreflexive(n); }
  }

  lemma SortedDistinct(a: seq<string>)
    requires Sorted(a)
    ensures forall i, j | 0 <= i < j < |a| :: a[i] != a[j]
  {
    forall i, j | 0 <= i < j < |a| ensures a[i] != a[j] {
      LessIrreflexive(a[i]);
      assert Less(a[i], a[j]);
    }
  }

  lemma {:induction false} NoPassMeansNone(passes: seq<Pass>, n: string)
    requires NoPass(passes, n)
    ensures FailedPasses(passes, n) == 0 && !HasComplete(passes, n)
  {
    if passes == [] {
    } else {
      var front, p := passes[..|passes| - 1], passes[|passes| - 1];
      assert p in passes;
      assert NoPass(front, n);
      NoPassMeansNone(front, n);
    }
  }

  lemma PassAppend(passes: seq<Pass>, p: Pass, n: string)
    ensures FailedPasses(passes + [p], n) == FailedPasses(passes, n) + if p.path == n && !p.complete then 1 else 0
    ensures HasComplete(passes + [p], n) <==> HasComplete(passes, n) || (p.path == n && p.complete)
  {
    var q := passes + [p];
    assert q[..|q| - 1] == passes;
    if HasComplete(passes, n) {
      var i :| 0 <= i < |passes| && passes[i].path == n && passes[i].complete;
      assert q[i].path == n && q[i].complete;
    }
    if p.path == n && p.complete {
      assert q[|passes|].path == n;
    }
  }

  lemma PathsTail(files: seq<MegaFile>)
    requires files != []
    ensures Paths(files)[0] == files[0].path && Paths(files)[1..] == Paths(files[1..])
    ensures Paths(files) == [files[0].path] + Paths(files[1..])
  {
    var ps, rest := Paths(files), Paths(files[1..]);
    assert |ps[1..]| == |rest| && forall i | 0 <= i < |rest| :: ps[1..][i] == rest[i];
  }

  lemma TrackedPaths(b: Buf, n: string)
    ensures IsTracked(b, n) <==> n in Paths(b.files)
  {
    if IsTracked(b, n) {
      var i :| 0 <= i < |b.files| && b.files[i].path == n;
      assert Paths(b.files)[i] == n;
    }
  }

  lemma PathsAreFiles(b: Buf)
    requires PathsOk(b)
    ensures forall p | p in Paths(b.files) :: p in b.contents
    ensures b.current.Some? ==> b.current.value.path !in Paths(b.files)
  {
    forall p | p in Paths(b.files) ensures p in b.contents {
      var i :| 0 <= i < |b.files| && Paths(b.files)[i] == p;
      assert b.files[i].path in b.contents;
    }
    if b.current.Some? { TrackedPaths(b, b.current.value.path); }
  }

  /** Deleting files, and changing anything but the record contents, leaves the records readable. */
  lemma FilesFrame(b: Buf, b': Buf)
    requires FilesOk(b)
    requires b'.contents == b.contents && b'.recovered == b.recovered
    requires forall n | n in b'.disk :: n in b.disk && b'.disk[n] == b.disk[n]
    ensures FilesOk(b')
  {
    forall n | n in b'.contents ensures FileOk(b', n) {
      assert FileOk(b, n);
    }
  }

  lemma PassOkFrame(b: Buf, b': Buf)
    requires forall p | p in b.passes :: PassOk(b, p)
    requires forall p | p in b.passes ::
               p.path in b.contents && p.path in b'.contents && b'.contents[p.path] == b.contents[p.path]
    ensures forall p | p in b.passes :: PassOk(b', p)
  {
    forall p | p in b.passes ensures PassOk(b', p) {
      assert PassOk(b, p);
    }
  }

  /** The accounting survives when every tracked or current file stays so, or its contents say nothing new. */
  lemma AccountFrame(b: Buf, b': Buf)
    requires AccountOk(b)
    requires forall n | n in b'.contents :: n in b'.disk || HasComplete(b'.passes, n)
    requires forall n | HasComplete(b.passes, n) :: HasComplete(b'.passes, n)
    requires forall n | n in b'.contents && n !in b.contents :: b'.contents[n] == [] || HasCurrentPath(b', n)
    requires forall n | n in b'.contents && n in b.contents && b.contents[n] == [] ::
               b'.contents[n] == [] || HasCurrentPath(b', n)
    requires forall n | HasCurrentPath(b, n) ::
               HasCurrentPath(b', n) || IsTracked(b', n) || (n in b'.contents ==> b'.contents[n] == [])
    requires forall n | IsTracked(b, n) :: IsTracked(b', n) || HasComplete(b'.passes, n)
    ensures AccountOk(b')
  {
  }

  lemma TrackedMono(b: Buf, b': Buf)
    requires forall p | p in Paths(b.files) :: p in Paths(b'.files)
    ensures forall n | IsTracked(b, n) :: IsTracked(b', n)
  {
    forall n | IsTracked(b, n) ensures IsTracked(b', n) {
      TrackedPaths(b, n);
      TrackedPaths(b', n);
    }
  }

  // ---- creating a file ----

  lemma StartNewNames(b: Buf, createAt: nat, startTime: int)
    requires NamesOk(b) && PathsOk(b) && FreshName(b, createAt)
    ensures var b' := StartNew(b, createAt, startTime);
            NewName(b, createAt) !in b.contents && NamesOk(b') && PathsOk(b')
  {
    var b', n := StartNew(b, createAt, startTime), NewName(b, createAt);
    SortedSnoc(b.names, n);
    CreatedNameIsScanned(b.stream, createAt / NS_PER_MS);
    PathsAreFiles(b);
    TrackedPaths(b', n);
  }

  lemma StartNewFiles(b: Buf, createAt: nat, startTime: int)
    requires FilesOk(b) && NewName(b, createAt) !in b.contents
    ensures FilesOk(StartNew(b, createAt, startTime))
  {
    var b', n := StartNew(b, createAt, startTime), NewName(b, createAt);
    assert ReadAll([]) == ReadAllResult([], false);
    forall m | m in b'.contents ensures FileOk(b', m) {
      if m != n { assert FileOk(b, m); }
    }
  }

  lemma StartNewOrder(b: Buf, createAt: nat, startTime: int)
    requires NamesOk(b) && PathsOk(b) && OrderOk(b) && b.current.None? && NewName(b, createAt) !in b.contents
    ensures OrderOk(StartNew(b, createAt, startTime))
  {
    var b', n := StartNew(b, createAt, startTime), NewName(b, createAt);
    FlattenFrame(b.names, b.contents, b'.contents);
    FlattenSnoc(b.names, n, b'.contents);
    PathsAreFiles(b);
    FlattenFrame(Paths(b.files), b.contents, b'.contents);
  }

  lemma StartNewPasses(b: Buf, createAt: nat, startTime: int)
    requires PassesOk(b) && NewName(b, createAt) !in b.contents
    ensures PassesOk(StartNew(b, createAt, startTime))
  {
    PassOkFrame(b, StartNew(b, createAt, startTime));
  }

  lemma StartNewKeeps(b: Buf, createAt: nat, startTime: int)
    requires Consistent(b) && b.current.None? && FreshName(b, createAt)
    ensures Consistent(StartNew(b, createAt, startTime))
    ensures CurrentContents(StartNew(b, createAt, startTime)) == []
  {
    var b' := StartNew(b, createAt, startTime);
    StartNewNames(b, createAt, startTime);
    StartNewFiles(b, createAt, startTime);
    StartNewOrder(b, createAt, startTime);
    StartNewPasses(b, createAt, startTime);
    TrackedMono(b, b');
    AccountFrame(b, b');
    assert MetaOk(b');
  }

  // ---- finishing a file ----

  lemma FinalizePaths(b: Buf)
    requires NamesOk(b) && PathsOk(b) && b.current.Some?
    ensures Paths(Finalize(b).files) == Paths(b.files) + [b.current.value.path]
    ensures PathsOk(Finalize(b))
  {
    var path, last := b.current.value.path, |b.names| - 1;
    PathsAreFiles(b);
    forall x | x in Paths(b.files) ensures Less(x, path) {
      assert x in b.names && x != path;
      var j :| 0 <= j < |b.names| && b.names[j] == x;
      assert Less(b.names[j], b.names[last]);
    }
    SortedSnoc(Paths(b.files), path);
    assert Paths(Finalize(b).files) == Paths(b.files) + [path];
  }

  lemma FinalizeOrder(b: Buf)
    requires NamesOk(b) && PathsOk(b) && OrderOk(b) && b.current.Some?
    ensures OrderOk(Finalize(b))
  {
    FinalizePaths(b);
    assert b.current.value.path in b.names;
    FlattenSnoc(Paths(b.files), b.current.value.path, b.contents);
  }

  lemma FinalizePasses(b: Buf)
    requires PassesOk(b) && b.current.Some?
    ensures PassesOk(Finalize(b))
  {
    NoPassMeansNone(b.passes, b.current.value.path);
    PassOkFrame(b, Finalize(b));
  }

  lemma FinalizeMeta(b: Buf)
    requires MetaOk(b) && b.current.Some? && CurrentContents(b) != []
    ensures MetaOk(Finalize(b))
  {
  }

  lemma FinalizeKeeps(b: Buf)
    requires Consistent(b) && (b.current.Some? ==> CurrentContents(b) != [])
    ensures Valid(Finalize(b)) && Finalize(b).current.None?
    ensures Finalize(b).names == b.names && Finalize(b).stream == b.stream
  {
    if b.current.Some? {
      var b' := Finalize(b);
      FinalizePaths(b);
      FilesFrame(b, b');
      FinalizeMeta(b);
      FinalizeOrder(b);
      FinalizePasses(b);
      TrackedMono(b, b');
      TrackedPaths(b', b.current.value.path);
      AccountFrame(b, b');
    }
  }

  /** Letting go of an empty current file, as a trigger does. */
  lemma DropEmptyKeeps(b: Buf)
    requires Consistent(b) && CurrentContents(b) == []
    ensures Valid(b.(current := None))
  {
    var b' := b.(current := None);
    assert PathsOk(b') && MetaOk(b') && OrderOk(b');
    FilesFrame(b, b');
    PassOkFrame(b, b');
    TrackedMono(b, b');
    AccountFrame(b, b');
  }

  // ---- appending a record ----

  lemma WriteSize(c: seq<Fragment>, f: Fragment)
    requires AllStorable(c) && Pushable(f) && |Log(c)| < MEGA_CLUSTER_MAX_SIZE
    ensures Log(c + [f]) == Log(c) + Record(f)
    ensures AllStorable(c + [f]) && SizeOk(c + [f])
    ensures ReadAll(Log(c + [f])) == ReadAllResult(StoredAll(c + [f]), false)
  {
    LogSnoc(c, f);
    assert (c + [f])[..|c|] == c;
    ReadWhole(c + [f]);
  }

  lemma WriteFiles(b: Buf, f: Fragment)
    requires NamesOk(b) && PathsOk(b) && FilesOk(b) && MetaOk(b) && b.current.Some? && Pushable(f)
    requires b.current.value.size < MEGA_CLUSTER_MAX_SIZE
    ensures CurrentPresent(b) && FilesOk(Write(b, f))
  {
    var b', path := Write(b, f), b.current.value.path;
    assert FileOk(b, path);
    WriteSize(b.contents[path], f);
    forall m | m in b'.contents ensures FileOk(b', m) {
      assert m in b.contents && FileOk(b, m);
    }
  }

  lemma WriteMeta(b: Buf, f: Fragment)
    requires NamesOk(b) && PathsOk(b) && MetaOk(b) && b.current.Some?
    requires CurrentContents(b) == [] ==> b.current.value.startTime == f.timestampNs
    ensures CurrentPresent(b) && MetaOk(Write(b, f))
  {
    var b', path := Write(b, f), b.current.value.path;
    LogSnoc(b.contents[path], f);
    PathsAreFiles(b);
    forall i | 0 <= i < |b'.files| && b'.files[i].path in b'.contents && b'.files[i].path !in b'.recovered
      ensures MetaAgrees(b'.files[i], b'.contents[b'.files[i].path])
    {
      assert Paths(b.files)[i] == b.files[i].path;
      assert MetaAgrees(b.files[i], b.contents[b.files[i].path]);
    }
  }

  lemma FlattenUpdateLast(older: seq<string>, n: string, c: map<string, seq<Fragment>>, f: Fragment)
    requires n in c && n !in older && forall m | m in older :: m in c
    ensures FlattenNames(older + [n], c[n := c[n] + [f]]) == FlattenNames(older + [n], c) + [f]
  {
    var c' := c[n := c[n] + [f]];
    FlattenFrame(older, c, c');
    FlattenSnoc(older, n, c);
    FlattenSnoc(older, n, c');
    hide FlattenNames;
    assert FlattenNames(older, c) + (c[n] + [f]) == FlattenNames(older, c) + c[n] + [f];
  }

  lemma OlderNames(b: Buf) returns (older: seq<string>)
    requires NamesOk(b) && PathsOk(b) && b.current.Some?
    ensures b.names == older + [b.current.value.path] && b.current.value.path !in older
    ensures CurrentPresent(b) && forall n | n in older :: n in b.contents
  {
    older := b.names[..|b.names| - 1];
    assert b.names == older + [b.current.value.path];
    assert forall n | n in older :: n in b.names;
    SortedDistinct(b.names);
    assert forall i | 0 <= i < |older| :: older[i] == b.names[i];
  }

  lemma WriteOrder(b: Buf, f: Fragment)
    requires NamesOk(b) && PathsOk(b) && OrderOk(b) && b.current.Some?
    ensures CurrentPresent(b) && OrderOk(Write(b, f))
  {
    var older := OlderNames(b);
    PathsAreFiles(b);
    hide NamesOk, PathsOk, FlattenNames;
    var b', path := Write(b, f), b.current.value.path;
    FlattenUpdateLast(older, path, b.contents, f);
    FlattenFrame(Paths(b.files), b.contents, b'.contents);
    WriteTail(FlattenFiles(b.files, b.contents), b.contents[path], b.pushed, b.popped, f);
  }

  lemma WriteTail(closed: seq<Fragment>, open: seq<Fragment>, pushed: seq<Fragment>, popped: nat, f: Fragment)
    requires popped <= |pushed| && closed + open == pushed[popped..]
    ensures closed + (open + [f]) == (pushed + [f])[popped..]
  {
    assert closed + (open + [f]) == (closed + open) + [f];
    assert (pushed + [f])[popped..] == pushed[popped..] + [f];
  }

  lemma WriteNames(b: Buf, f: Fragment)
    requires NamesOk(b) && PathsOk(b) && b.current.Some?
    ensures CurrentPresent(b) && NamesOk(Write(b, f)) && PathsOk(Write(b, f))
  {
    TrackedPaths(Write(b, f), b.current.value.path);
    TrackedPaths(b, b.current.value.path);
  }

  lemma WritePasses(b: Buf, f: Fragment)
    requires NamesOk(b) && PathsOk(b) && PassesOk(b) && AccountOk(b) && CurrentPresent(b)
    ensures PassesOk(Write(b, f)) && AccountOk(Write(b, f))
  {
    var b' := Write(b, f);
    assert forall p | p in b.passes :: PassOk(b, p);
    PassOkFrame(b, b');
    TrackedMono(b, b');
    AccountFrame(b, b');
  }

  lemma WriteKeeps(b: Buf, f: Fragment)
    requires Consistent(b) && b.current.Some? && Pushable(f)
    requires b.current.value.size < MEGA_CLUSTER_MAX_SIZE
    requires CurrentContents(b) == [] ==> b.current.value.startTime == f.timestampNs
    ensures CurrentPresent(b) && Valid(Write(b, f))
  {
    hide NamesOk, PathsOk, FilesOk, MetaOk, OrderOk, PassesOk, AccountOk;
    WriteNames(b, f);
    WriteFiles(b, f);
    WriteMeta(b, f);
    WriteOrder(b, f);
    WritePasses(b, f);
  }

  /** Pushing a fragment keeps the invariant, rotation or not. */
  lemma PushKeeps(b: Buf, f: Fragment, checkAt: int, createAt: nat)
    requires Valid(b) && Pushable(f)
    requires ShouldRotate(b, checkAt) ==> FreshName(b, createAt)
    ensures CurrentPresent(Rotated(b, f, checkAt, createAt))
    ensures Valid(Push(b, f, checkAt, createAt))
    ensures Push(b, f, checkAt, createAt).pushed == b.pushed + [f]
  {
    if ShouldRotate(b, checkAt) {
      FinalizeKeeps(b);
      StartNewKeeps(Finalize(b), createAt, f.timestampNs);
      WriteKeeps(StartNew(Finalize(b), createAt, f.timestampNs), f);
    } else {
      WriteKeeps(b, f);
    }
  }

  // ---- upload passes ----

  lemma UploadFileReads(b: Buf, path: string, put: nat -> bool, k: nat)
    requires FilesOk(b) && path in b.contents && path in b.disk
    ensures UploadFile(b.disk, path, put, k) == PutAll(StoredAll(b.contents[path]), put, k)
  {
    assert FileOk(b, path);
  }

  lemma IndexOfTracked(b: Buf, i: nat)
    requires PathsOk(b) && i < |b.files|
    ensures IndexOf(b.files, b.files[i].path) == i
  {
    var k := IndexOf(b.files, b.files[i].path);
    var paths := Paths(b.files);
    assert paths[i] == b.files[i].path;
    assert k < |b.files| ==> paths[k] == b.files[k].path;
    SortedDistinct(paths);
  }

  /** The effect of one recorded pass: one entry of the deque changes, and at most its file goes. */
  lemma RecordPassShape(b: Buf, p: Pass, removed: bool, i: nat)
    requires PathsOk(b) && i < |b.files| && b.files[i].path == p.path
    ensures var b' := RecordPass(b, p, removed);
            && b'.files == b.files[i := if p.complete then b.files[i].(uploaded := true)
                                        else b.files[i].(attempts := b.files[i].attempts + 1)]
            && b'.disk == (if p.complete && removed then b.disk - {p.path} else b.disk)
            && b' == b.(files := b'.files, disk := b'.disk, passes := b.passes + [p],
                        events := b.events + if p.complete then [] else [UploadError])
            && Paths(b'.files) == Paths(b.files)
  {
    IndexOfTracked(b, i);
    var b' := RecordPass(b, p, removed);
    assert Paths(b'.files) == Paths(b.files);
  }

  lemma PathsKept(b: Buf, b': Buf)
    requires PathsOk(b) && Paths(b'.files) == Paths(b.files)
    requires b'.current == b.current && b'.names == b.names && b'.contents == b.contents && b'.recovered == b.recovered
    requires b.current.Some? ==> b.current.value.path in b'.disk
    ensures PathsOk(b')
  {
    assert forall j | 0 <= j < |b.files| ::
        b'.files[j].path == Paths(b'.files)[j] == Paths(b.files)[j] == b.files[j].path;
    if b.current.Some? {
      TrackedPaths(b, b.current.value.path);
      TrackedPaths(b', b.current.value.path);
    }
  }

  lemma RecordPassPaths(b: Buf, p: Pass, removed: bool, i: nat)
    requires NamesOk(b) && PathsOk(b) && i < |b.files| && b.files[i].path == p.path
    ensures NamesOk(RecordPass(b, p, removed)) && PathsOk(RecordPass(b, p, removed))
  {
    RecordPassShape(b, p, removed, i);
    assert IsTracked(b, p.path);
    PathsKept(b, RecordPass(b, p, removed));
  }

  lemma RecordPassMeta(b: Buf, p: Pass, removed: bool, i: nat)
    requires PathsOk(b) && MetaOk(b) && i < |b.files| && b.files[i].path == p.path
    ensures MetaOk(RecordPass(b, p, removed))
  {
    RecordPassShape(b, p, removed, i);
    var b' := RecordPass(b, p, removed);
    forall j | 0 <= j < |b'.files| && b'.files[j].path in b'.contents && b'.files[j].path !in b'.recovered
      ensures MetaAgrees(b'.files[j], b'.contents[b'.files[j].path])
    {
      assert MetaAgrees(b.files[j], b.contents[b.files[j].path]);
    }
  }

  lemma RecordPassPasses(b: Buf, p: Pass, removed: bool, i: nat)
    requires PathsOk(b) && PassesOk(b) && i < |b.files| && b.files[i].path == p.path
    requires !b.files[i].uploaded && b.files[i].attempts < MAX_UPLOAD_RETRIES
    requires PassOk(b, p)
    ensures PassesOk(RecordPass(b, p, removed))
  {
    RecordPassShape(b, p, removed, i);
    var b', paths := RecordPass(b, p, removed), Paths(b.files);
    SortedDistinct(paths);
    forall j | 0 <= j < |b'.files|
      ensures b'.files[j].attempts == FailedPasses(b'.passes, b'.files[j].path) <= MAX_UPLOAD_RETRIES
      ensures b'.files[j].uploaded <==> HasComplete(b'.passes, b'.files[j].path)
    {
      PassAppend(b.passes, p, b.files[j].path);
      assert paths[j] == b.files[j].path && paths[i] == p.path;
    }
    forall q | q in b'.passes ensures PassOk(b', q) {
      assert q == p || q in b.passes;
      assert PassOk(b, q);
    }
    assert b.current.Some? ==> b.current.value.path != p.path by { assert IsTracked(b, p.path); }
  }

  lemma RecordPassAccount(b: Buf, p: Pass, removed: bool, i: nat)
    requires NamesOk(b) && PathsOk(b) && AccountOk(b) && i < |b.files| && b.files[i].path == p.path
    ensures AccountOk(RecordPass(b, p, removed))
  {
    RecordPassShape(b, p, removed, i);
    var b' := RecordPass(b, p, removed);
    forall m ensures HasComplete(b'.passes, m) <==> HasComplete(b.passes, m) || (p.path == m && p.complete) {
      PassAppend(b.passes, p, m);
    }
    TrackedMono(b, b');
    AccountFrame(b, b');
  }

  /** One upload attempt of a file that was due one, accepted in part or in full. */
  lemma RecordPassKeeps(b: Buf, p: Pass, removed: bool, i: nat)
    requires Consistent(b) && i < |b.files| && b.files[i].path == p.path
    requires !b.files[i].uploaded && b.files[i].attempts < MAX_UPLOAD_RETRIES
    requires PassOk(b, p)
    ensures Consistent(RecordPass(b, p, removed))
    ensures CurrentContents(RecordPass(b, p, removed)) == CurrentContents(b)
  {
    var b' := RecordPass(b, p, removed);
    RecordPassPaths(b, p, removed, i);
    RecordPassMeta(b, p, removed, i);
    RecordPassPasses(b, p, removed, i);
    RecordPassAccount(b, p, removed, i);
    RecordPassShape(b, p, removed, i);
    FilesFrame(b, b');
    assert OrderOk(b');
  }

  // ---- cleanup ----

  lemma PopFrontPaths(b: Buf, removed: bool)
    requires NamesOk(b) && PathsOk(b) && b.files != []
    ensures Paths(PopFront(b, removed).files) == Paths(b.files)[1..]
    ensures NamesOk(PopFront(b, removed)) && PathsOk(PopFront(b, removed))
  {
    var b' := PopFront(b, removed);
    assert Paths(b'.files) == Paths(b.files)[1..];
    assert Sorted(Paths(b'.files));
    assert forall i | 0 <= i < |b'.files| :: b'.files[i] == b.files[i + 1];
    PathsAreFiles(b);
    if b.current.Some? {
      TrackedPaths(b', b.current.value.path);
      assert Paths(b.files)[0] in Paths(b.files);
    }
  }

  lemma PopFrontOrder(b: Buf, removed: bool)
    requires NamesOk(b) && PathsOk(b) && OrderOk(b) && b.files != []
    ensures OrderOk(PopFront(b, removed))
  {
    var b', path := PopFront(b, removed), b.files[0].path;
    PopFrontPaths(b, removed);
    var c, rest, cur := b.contents[path], FlattenFiles(b'.files, b.contents), CurrentContents(b);
    assert Paths(b.files)[0] == path;
    assert FlattenFiles(b.files, b.contents) == c + rest;
    hide NamesOk, PathsOk, FlattenFiles, FlattenNames, Paths;
    PopTail(c, rest, cur, b.pushed, b.popped);
  }

  lemma PopTail(c: seq<Fragment>, rest: seq<Fragment>, cur: seq<Fragment>, pushed: seq<Fragment>, popped: nat)
    requires popped <= |pushed| && c + rest + cur == pushed[popped..]
    ensures popped + |c| <= |pushed| && rest + cur == pushed[popped + |c|..]
  {
    assert (c + rest + cur)[|c|..] == rest + cur;
    assert pushed[popped..][|c|..] == pushed[popped + |c|..];
  }

  lemma PopFrontAccount(b: Buf, removed: bool)
    requires PathsOk(b) && NamesOk(b) && AccountOk(b) && b.files != []
    requires HasComplete(b.passes, b.files[0].path)
    ensures AccountOk(PopFront(b, removed))
  {
    var b' := PopFront(b, removed);
    PopFrontPaths(b, removed);
    forall m | IsTracked(b, m) ensures IsTracked(b', m) || HasComplete(b'.passes, m) {
      TrackedPaths(b, m);
      TrackedPaths(b', m);
      if m != b.files[0].path {
        var j :| 0 <= j < |b.files| && Paths(b.files)[j] == m;
        assert Paths(b'.files)[j - 1] == m;
      }
    }
    AccountFrame(b, b');
  }

  lemma PopFrontKeeps(b: Buf, removed: bool)
    requires Valid(b) && b.files != [] && b.files[0].uploaded
    ensures Valid(PopFront(b, removed))
  {
    var b' := PopFront(b, removed);
    PopFrontPaths(b, removed);
    FilesFrame(b, b');
    PopFrontOrder(b, removed);
    PassOkFrame(b, b');
    PopFrontAccount(b, removed);
    assert forall j | 0 <= j < |b'.files| :: b'.files[j] == b.files[j + 1];
    assert MetaOk(b') && PassesOk(b');
  }

  lemma {:induction false} CleanupKeeps(b: Buf, now: int, removes: string -> bool)
    requires Valid(b)
    ensures Valid(Cleanup(b, now, removes))
    decreases |b.files|
  {
    if b.files == [] || !Expired(b, b.files[0], now) {
    } else {
      PopFrontKeeps(b, removes(b.files[0].path));
      CleanupKeeps(PopFront(b, removes(b.files[0].path)), now, removes);
    }
  }

  /** Cleanup pops exactly the longest prefix of old, uploaded entries. */
  lemma {:induction false} CleanupExact(b: Buf, now: int, removes: string -> bool) returns (k: nat)
    ensures k <= |b.files| && Cleanup(b, now, removes).files == b.files[k..]
    ensures forall i | 0 <= i < k :: Expired(b, b.files[i], now)
    ensures k < |b.files| ==> !Expired(b, b.files[k], now)
    decreases |b.files|
  {
    if b.files == [] || !Expired(b, b.files[0], now) {
      k := 0;
    } else {
      var b' := PopFront(b, removes(b.files[0].path));
      var j := CleanupExact(b', now, removes);
      k := j + 1;
      forall i | 0 <= i < k ensures Expired(b, b.files[i], now) {
        if i > 0 { assert Expired(b', b'.files[i - 1], now); }
      }
      assert k < |b.files| ==> b.files[k] == b'.files[j];
    }
  }
}
