/**
 The disk buffer as a value: what every operation of the buffered upload manager does to the
 directory, the deque of finished files, the current file and the event channel. The last six
 fields of `Buf` are history: they record what happened and no operation branches on them.
 */
module BufferModel {
  import opened Wrappers
  import opened BufferEvents
  import opened Bytes
  import opened RecordLog
  import opened FileNames

  const MAX_UPLOAD_RETRIES: nat := 5
  const MEGA_CLUSTER_DURATION: nat := 1_800_000_000_000 // 30 minutes in ns
  const MEGA_CLUSTER_MAX_SIZE: nat := 45_000_000

  /** A finished file waiting for upload. */
  datatype MegaFile = MegaFile(path: string, startTime: int, endTime: int, fileSize: nat, clusterCount: nat,
                               uploaded: bool, attempts: nat)

  /** The file being appended to. */
  datatype CurrentFile = CurrentFile(path: string, createdAt: int, startTime: int, lastTime: int,
                                     size: nat, clusterCount: nat)

  /** One upload attempt of one file: what `put_fragment` accepted, and whether that was all of it. */
  datatype Pass = Pass(path: string, accepted: seq<Fragment>, complete: bool)

  datatype Buf = Buf(
    stream: string,
    maxAge: nat,
    files: seq<MegaFile>,
    current: Option<CurrentFile>,
    disk: map<string, seq<byte>>,
    events: seq<Event>,
    // history
    names: seq<string>,                  // every file of this run, recovered or created, oldest first
    contents: map<string, seq<Fragment>>, // the fragments of each of them
    recovered: set<string>,              // those found on disk at start
    pushed: seq<Fragment>,               // recovered fragments, then all pushed ones
    popped: nat,                         // how many of them were in files that cleanup forgot
    passes: seq<Pass>)                   // every upload attempt

  /** `duration_since` with `unwrap_or(ZERO)`. */
  function Since(now: int, then_: int): nat { if now >= then_ then now - then_ else 0 }

  predicate ShouldRotate(b: Buf, now: int) {
    match b.current
    case None => true
    case Some(c) => Since(now, c.createdAt) >= MEGA_CLUSTER_DURATION || c.size >= MEGA_CLUSTER_MAX_SIZE
  }

  function NewName(b: Buf, createAt: nat): string { FileName(b.stream, createAt / NS_PER_MS) }

  /** Create a file named by the clock; creation truncates whatever had that name. */
  function StartNew(b: Buf, createAt: nat, startTime: int): Buf {
    var name := NewName(b, createAt);
    b.(current := Some(CurrentFile(name, createAt, startTime, startTime, 0, 0)),
       disk := b.disk[name := []],
       names := b.names + [name],
       contents := b.contents[name := []])
  }

  function Finished(c: CurrentFile): MegaFile {
    MegaFile(c.path, c.startTime, c.lastTime, c.size, c.clusterCount, false, 0)
  }

  /** Move the current file, if any, to the back of the deque. */
  function Finalize(b: Buf): Buf {
    match b.current
    case None => b
    case Some(c) => b.(files := b.files + [Finished(c)], current := None)
  }

  predicate CurrentPresent(b: Buf) {
    b.current.Some? && b.current.value.path in b.disk && b.current.value.path in b.contents
  }

  /** Append one record to the current file. */
  function Write(b: Buf, f: Fragment): Buf
    requires CurrentPresent(b)
  {
    var c := b.current.value;
    b.(current := Some(c.(size := c.size + META_SIZE + |f.header| + |f.cluster|,
                          lastTime := f.timestampNs, clusterCount := c.clusterCount + 1)),
       disk := b.disk[c.path := b.disk[c.path] + Record(f)],
       contents := b.contents[c.path := b.contents[c.path] + [f]],
       pushed := b.pushed + [f])
  }

  /** `append_fragment_to_mega_cluster`: rotate when due, then append. */
  function Rotated(b: Buf, f: Fragment, checkAt: int, createAt: nat): Buf {
    if ShouldRotate(b, checkAt) then StartNew(Finalize(b), createAt, f.timestampNs) else b
  }

  /** Append to a file that was deleted while open: the writes succeed, and nothing of them is found again. */
  function WriteUnlinked(b: Buf, f: Fragment): Buf
    requires b.current.Some?
  {
    var c := b.current.value;
    b.(current := Some(c.(size := c.size + META_SIZE + |f.header| + |f.cluster|,
                          lastTime := f.timestampNs, clusterCount := c.clusterCount + 1)),
       pushed := b.pushed + [f])
  }

  /** `push_fragment`, less the cleanup. After rotation there is always a current file. */
  function Push(b: Buf, f: Fragment, checkAt: int, createAt: nat): Buf {
    var r := Rotated(b, f, checkAt, createAt);
    if CurrentPresent(r) then Write(r, f) else WriteUnlinked(r, f)
  }

  /** How a push ends. A failed one wrote nothing: the file could not be created, or not written to. */
  datatype PushOutcome = Written | WriteFails | CreateFails

  function Attempt(b: Buf, f: Fragment, outcome: PushOutcome, checkAt: int, createAt: nat): Buf {
    match outcome
    case Written => Push(b, f, checkAt, createAt)
    case WriteFails => Rotated(b, f, checkAt, createAt)
    case CreateFails => if ShouldRotate(b, checkAt) then Finalize(b) else b
  }

  predicate OverlapsTimeRange(f: MegaFile, start: Option<int>, end: Option<int>) {
    && (start.Some? ==> f.endTime >= start.value)
    && (end.Some? ==> f.startTime <= end.value)
  }

  predicate Wanted(f: MegaFile, start: Option<int>, end: Option<int>) {
    !f.uploaded && f.attempts < MAX_UPLOAD_RETRIES && OverlapsTimeRange(f, start, end)
  }

  /** The files a trigger uploads, by path, in deque order. */
  function Selected(files: seq<MegaFile>, start: Option<int>, end: Option<int>): seq<string> {
    if files == [] then []
    else (if Wanted(files[0], start, end) then [files[0].path] else []) + Selected(files[1..], start, end)
  }

  datatype Puts = Puts(accepted: seq<Fragment>, complete: bool, next: nat)

  /** Put fragments in order until one is refused; `put(k)` is the outcome of the k-th put of the trigger. */
  function PutAll(fs: seq<Fragment>, put: nat -> bool, k: nat): (r: Puts)
    ensures r.accepted <= fs
    ensures r.complete <==> r.accepted == fs
  {
    if fs == [] then Puts([], true, k)
    else if !put(k) then Puts([], false, k + 1)
    else
      var rest := PutAll(fs[1..], put, k + 1);
      Puts([fs[0]] + rest.accepted, rest.complete, rest.next)
  }

  /** `upload_mega_cluster_file`: read until the first `None`, one put per fragment. */
  function UploadFile(disk: map<string, seq<byte>>, path: string, put: nat -> bool, k: nat): Puts {
    if path !in disk then Puts([], false, k)
    else
      var r := ReadAll(disk[path]);
      var puts := PutAll(r.fragments, put, k);
      puts.(complete := puts.complete && !r.panicked)
  }

  /** The position of the first tracked file with this path, or the length when there is none. */
  function IndexOf(files: seq<MegaFile>, path: string): (i: nat)
    ensures i <= |files|
    ensures i < |files| ==> files[i].path == path
    ensures forall j | 0 <= j < i :: files[j].path != path
  {
    if files == [] || files[0].path == path then 0 else 1 + IndexOf(files[1..], path)
  }

  /** `mark_mega_cluster_uploaded`: mark, then delete; `removed` says whether the deletion worked. */
  function MarkUploaded(b: Buf, path: string, removed: bool): Buf {
    var i := IndexOf(b.files, path);
    if i == |b.files| then b
    else b.(files := b.files[i := b.files[i].(uploaded := true)],
            disk := if removed then b.disk - {path} else b.disk)
  }

  function MarkFailed(b: Buf, path: string): Buf {
    var i := IndexOf(b.files, path);
    if i == |b.files| then b
    else b.(files := b.files[i := b.files[i].(attempts := b.files[i].attempts + 1)])
  }

  /** The bookkeeping after one upload attempt. */
  function RecordPass(b: Buf, p: Pass, removed: bool): Buf {
    var marked := if p.complete then MarkUploaded(b, p.path, removed) else MarkFailed(b, p.path);
    marked.(passes := b.passes + [p], events := b.events + (if p.complete then [] else [UploadError]))
  }

  /** The blocking upload loop over the selected files. */
  function UploadFiles(b: Buf, paths: seq<string>, put: nat -> bool, removes: string -> bool, k: nat): Buf
    decreases |paths|
  {
    if paths == [] then b
    else
      var u := UploadFile(b.disk, paths[0], put, k);
      UploadFiles(RecordPass(b, Pass(paths[0], u.accepted, u.complete), removes(paths[0])),
                  paths[1..], put, removes, u.next)
  }

  function Notify(b: Buf, e: Event): Buf { b.(events := b.events + [e]) }

  /**
   `trigger_upload_all`. The manager is borrowed exclusively throughout, so nothing is pushed to the
   file created for arriving fragments: it is still empty afterwards and is let go.
   */
  function Trigger(b: Buf, start: Option<int>, end: Option<int>, createAt: nat,
                   put: nat -> bool, removes: string -> bool): Buf {
    var b1 := Finalize(b);
    var paths := Selected(b1.files, start, end);
    var done := HistoricalUploadComplete(end.None?);
    if paths == [] then Notify(b1, done)
    else
      var b2 := UploadFiles(StartNew(b1, createAt, createAt), paths, put, removes, 0);
      Notify(b2.(current := None), done)
  }

  predicate Expired(b: Buf, f: MegaFile, now: int) { Since(now, f.startTime) > b.maxAge && f.uploaded }

  /** Drop the front file; its data is deleted again, for the case that the first deletion failed. */
  function PopFront(b: Buf, removed: bool): Buf
    requires b.files != []
  {
    var path := b.files[0].path;
    b.(files := b.files[1..],
       disk := if removed then b.disk - {path} else b.disk,
       popped := b.popped + if path in b.contents then |b.contents[path]| else 0)
  }

  /** `cleanup_old_mega_cluster_files`. */
  function Cleanup(b: Buf, now: int, removes: string -> bool): Buf
    decreases |b.files|
  {
    if b.files != [] && Expired(b, b.files[0], now)
    then Cleanup(PopFront(b, removes(b.files[0].path)), now, removes)
    else b
  }

  /** `scan_existing_mega_cluster_files`: track every listed file, timed by its modification time. */
  function ScanFiles(names: seq<string>, disk: map<string, seq<byte>>, modified: string -> int): (fs: seq<MegaFile>)
    ensures |fs| == |names|
    ensures forall i | 0 <= i < |names| ::
              fs[i] == MegaFile(names[i], modified(names[i]), modified(names[i]),
                                if names[i] in disk then |disk[names[i]]| else 0, 0, false, 0)
  {
    seq(|names|, i requires 0 <= i < |names| =>
      MegaFile(names[i], modified(names[i]), modified(names[i]),
               if names[i] in disk then |disk[names[i]]| else 0, 0, false, 0))
  }

  function Listed(disk: map<string, seq<byte>>, stream: string): set<string> {
    set n | n in disk && Scanned(stream, n)
  }

  function Recovered(disk: map<string, seq<byte>>, names: seq<string>): map<string, seq<Fragment>> {
    map n | n in names :: if n in disk then ReadAll(disk[n]).fragments else []
  }

  /** A new manager on an existing directory, given the sorted listing of that directory. */
  function Start(disk: map<string, seq<byte>>, stream: string, maxAge: nat, names: seq<string>,
                 modified: string -> int): Buf {
    var contents := Recovered(disk, names);
    Buf(stream, maxAge, ScanFiles(names, disk, modified), None, disk, [], names, contents,
        (set n | n in names), FlattenNames(names, contents), 0, [])
  }

  function FlattenNames(names: seq<string>, contents: map<string, seq<Fragment>>): seq<Fragment> {
    if names == [] then []
    else (if names[0] in contents then contents[names[0]] else []) + FlattenNames(names[1..], contents)
  }

  function Paths(files: seq<MegaFile>): (ps: seq<string>)
    ensures |ps| == |files|
    ensures forall i | 0 <= i < |files| :: ps[i] == files[i].path
  {
    seq(|files|, i requires 0 <= i < |files| => files[i].path)
  }
}
