/**
 The buffered upload manager as it runs: fields updated in place, loops over files and records.
 Every method is proved to change the state exactly as the corresponding function of `BufferModel`
 does, so what is proved of runs of those functions holds of runs of these methods.

 The directory is a field. The uploader's answers are a parameter: `put(k)` is the outcome of the
 k-th put of a trigger, `removes(path)` that of deleting a file.
 */
module BufferedUploadManagers {
  import opened Wrappers
  import opened BufferEvents
  import opened Bytes
  import opened RecordLog
  import opened FileNames
  import opened BufferModel
  import opened BufferInvariant
  import opened BufferTrigger
  import opened BufferEffects
  import opened CrashRecovery

  datatype BufferStats = BufferStats(totalClusters: nat, totalBytes: nat, megaClusterFiles: nat)

  function SumSizes(files: seq<MegaFile>): nat {
    if files == [] then 0 else SumSizes(files[..|files| - 1]) + files[|files| - 1].fileSize
  }

  function SumClusters(files: seq<MegaFile>): nat {
    if files == [] then 0 else SumClusters(files[..|files| - 1]) + files[|files| - 1].clusterCount
  }

  class BufferedUploadManager {
    const stream: string
    const maxBufferDuration: nat
    var currentMegaCluster: Option<CurrentFile>
    var megaClusterFiles: seq<MegaFile>
    var disk: map<string, seq<byte>>
    var events: seq<Event>
    ghost var names: seq<string>
    ghost var contents: map<string, seq<Fragment>>
    ghost var recovered: set<string>
    ghost var pushed: seq<Fragment>
    ghost var popped: nat
    ghost var passes: seq<Pass>

    /** The state as a value. */
    ghost function View(): Buf
      reads this
    {
      Buf(stream, maxBufferDuration, megaClusterFiles, currentMegaCluster, disk, events,
          names, contents, recovered, pushed, popped, passes)
    }

    /** The history knows the open file, as long as it is in the directory. */
    ghost predicate OpenKnown()
      reads this
    {
      currentMegaCluster.Some? && currentMegaCluster.value.path in disk ==> currentMegaCluster.value.path in contents
    }

    /** `new`: scan the directory for files of earlier runs and track them in name order. */
    constructor (stream: string, disk: map<string, seq<byte>>, maxBufferDuration: nat, modified: string -> int)
      ensures exists listing :: IsListing(disk, stream, listing)
                                && View() == Start(disk, stream, maxBufferDuration, listing, modified)
    {
      this.stream := stream;
      this.maxBufferDuration := maxBufferDuration;
      this.disk := disk;
      currentMegaCluster, megaClusterFiles, events := None, [], [];
      names, contents, recovered, pushed, popped, passes := [], map[], {}, [], 0, [];
      new;
      hide FlattenNames, Recovered;
      ghost var listing := ScanExistingMegaClusterFiles(modified);
      names, contents := listing, Recovered(disk, listing);
      recovered, pushed := (set n | n in listing), FlattenNames(listing, contents);
    }

    /** Track every file of an earlier run, in name order. */
    method ScanExistingMegaClusterFiles(modified: string -> int) returns (listing: seq<string>)
      requires megaClusterFiles == []
      modifies this`megaClusterFiles
      ensures IsListing(disk, stream, listing)
      ensures megaClusterFiles == ScanFiles(listing, disk, modified)
    {
      hide Scanned, Sorted;
      listing := SortNames(Listed(disk, stream));
      var i := 0;
      while i < |listing|
        invariant 0 <= i <= |listing|
        invariant megaClusterFiles == ScanFiles(listing, disk, modified)[..i]
      {
        var path := listing[i];
        assert path in listing && path in disk;
        megaClusterFiles := megaClusterFiles
          + [MegaFile(path, modified(path), modified(path), |disk[path]|, 0, false, 0)];
        i := i + 1;
      }
    }

    /** Start a new mega-cluster file. */
    method StartNewMegaClusterFile(createAt: nat, startTime: int)
      modifies this
      ensures View() == StartNew(old(View()), createAt, startTime)
    {
      var path := FileName(stream, createAt / NS_PER_MS);
      disk := disk[path := []];
      currentMegaCluster := Some(CurrentFile(path, createAt, startTime, startTime, 0, 0));
      names, contents := names + [path], contents[path := []];
    }

    /** Finalize the current file, if there is one, and add it to the upload queue. */
    method FinalizeCurrent()
      modifies this
      ensures View() == Finalize(old(View()))
    {
      match currentMegaCluster
      case None =>
      case Some(c) =>
        currentMegaCluster := None;
        megaClusterFiles := megaClusterFiles
          + [MegaFile(c.path, c.startTime, c.lastTime, c.size, c.clusterCount, false, 0)];
    }

    /**
     Append a fragment, rotating first when the current file is too old or too large. The invariant holds
     again if the fragment fits in memory and the clock moved on.
     */
    method PushFragment(f: Fragment, outcome: PushOutcome, checkAt: int, createAt: nat) returns (ok: bool)
      requires OpenKnown()
      modifies this
      ensures View() == Attempt(old(View()), f, outcome, checkAt, createAt)
      ensures ok == outcome.Written?
      ensures RotatesWhenDue(old(View()), View(), outcome, checkAt, createAt)
      ensures ok ==> pushed == old(pushed) + [f]
      ensures ok && old(Valid(View()) && OpOk(View(), DoPush(f, checkAt, createAt))) ==> Valid(View())
    {
      hide Valid, FreshName, Pushable, Write, RotatesWhenDue;
      ghost var b := View();
      PushRotates(b, f, outcome, checkAt, createAt);
      if Valid(b) && OpOk(b, DoPush(f, checkAt, createAt)) { PushKeeps(b, f, checkAt, createAt); }
      var rotate := match currentMegaCluster
        case None => true
        case Some(c) => Since(checkAt, c.createdAt) >= MEGA_CLUSTER_DURATION || c.size >= MEGA_CLUSTER_MAX_SIZE;
      if rotate {
        FinalizeCurrent();
        if outcome.CreateFails? { return false; }
        StartNewMegaClusterFile(createAt, f.timestampNs);
      }
      ok := outcome.Written?;
      if ok { AppendToCurrent(f); }
    }

    /** Write the four metadata words, the headers and the cluster to the end of the current file, deleted or not. */
    method AppendToCurrent(f: Fragment)
      requires currentMegaCluster.Some? && OpenKnown()
      modifies this
      ensures View() == if CurrentPresent(old(View())) then Write(old(View()), f) else WriteUnlinked(old(View()), f)
      ensures pushed == old(pushed) + [f]
    {
      var c := currentMegaCluster.value;
      pushed := pushed + [f];
      if c.path !in disk {
        currentMegaCluster := Some(c.(size := c.size + META_SIZE + |f.header| + |f.cluster|,
                                      lastTime := f.timestampNs, clusterCount := c.clusterCount + 1));
        return;
      }
      var metadata := ToLE(|f.cluster|, 8) + ToLE(TimestampMs(f.timestampNs), 8)
                      + ToLE(DurationMs(f.durationNs), 8) + ToLE(|f.header|, 8);
      assert disk[c.path] + metadata + f.header + f.cluster == disk[c.path] + Record(f);
      disk := disk[c.path := disk[c.path] + metadata + f.header + f.cluster];
      currentMegaCluster := Some(c.(size := c.size + META_SIZE + |f.header| + |f.cluster|,
                                    lastTime := f.timestampNs, clusterCount := c.clusterCount + 1));
      contents := contents[c.path := contents[c.path] + [f]];
    }

    /** Read the file record by record and put each one, stopping at the first refusal. */
    method UploadMegaClusterFile(path: string, put: nat -> bool, k: nat)
      returns (complete: bool, next: nat, ghost accepted: seq<Fragment>)
      ensures complete == UploadFile(disk, path, put, k).complete && next == UploadFile(disk, path, put, k).next
      ensures accepted == UploadFile(disk, path, put, k).accepted
    {
      hide ReadAt, ReadFrom, PutAll;
      accepted, next := [], k;
      if path !in disk {
        return false, k, [];
      }
      var reader := new ClusterFileReader(disk[path]);
      ghost var all := UploadsFrom(reader.data, 0, put, k);
      var r := reader.Next();
      ghost var at := 0;
      PrependNothing(all);
      while r.Item?
        invariant reader.Valid() && reader.data == disk[path]
        invariant at <= |reader.data| && r == ReadAt(reader.data, at)
        invariant !r.Panic? ==> reader.offset == r.next
        invariant all == Prepend(accepted, UploadsFrom(reader.data, at, put, next))
        decreases |reader.data| - at
      {
        UploadsStep(reader.data, at, put, next, accepted);
        if !put(next) {
          return false, next + 1, accepted;
        }
        accepted := accepted + [r.fragment];
        next := next + 1;
        at := r.next;
        r := reader.Next();
      }
      UploadsStep(reader.data, at, put, next, accepted);
      complete := r.End?;
    }

    /** Mark the first tracked file with this path as uploaded and delete its data. */
    method MarkMegaClusterUploaded(path: string, removed: bool)
      modifies this
      ensures View() == MarkUploaded(old(View()), path, removed)
    {
      var i := FindFile(path);
      if i < |megaClusterFiles| {
        megaClusterFiles := megaClusterFiles[i := megaClusterFiles[i].(uploaded := true)];
        if removed {
          disk := disk - {path};
        }
      }
    }

    /** Count one failed attempt against the first tracked file with this path. */
    method MarkMegaClusterFailed(path: string)
      modifies this
      ensures View() == MarkFailed(old(View()), path)
    {
      var i := FindFile(path);
      if i < |megaClusterFiles| {
        megaClusterFiles := megaClusterFiles[i := megaClusterFiles[i].(attempts := megaClusterFiles[i].attempts + 1)];
      }
    }

    method FindFile(path: string) returns (i: nat)
      ensures i == IndexOf(megaClusterFiles, path)
    {
      i := 0;
      while i < |megaClusterFiles| && megaClusterFiles[i].path != path
        invariant 0 <= i <= |megaClusterFiles|
        invariant IndexOf(megaClusterFiles, path) == i + IndexOf(megaClusterFiles[i..], path)
      {
        i := i + 1;
      }
    }

    /**
     `trigger_upload_all`: close the current file, upload every selected one in order, report.
     Nothing is pushed meanwhile, so the file started for arriving fragments is empty at the end.
     */
    method TriggerUploadAll(start: Option<int>, end: Option<int>, createAt: nat, put: nat -> bool,
                            removes: string -> bool)
      modifies this
      ensures View() == Trigger(old(View()), start, end, createAt, put, removes)
      ensures old(Valid(View()) && OpOk(View(), DoTrigger(start, end, createAt, put, removes)))
              ==> Valid(View()) && currentMegaCluster.None?
    {
      hide Valid, FreshName, UploadFiles, Selected;
      ghost var b := View();
      if Valid(b) && OpOk(b, DoTrigger(start, end, createAt, put, removes)) {
        TriggerKeeps(b, start, end, createAt, put, removes);
      }
      FinalizeCurrent();
      var paths := FilesToUpload(start, end);
      if paths == [] {
        events := events + [HistoricalUploadComplete(end.None?)];
      } else {
        StartNewMegaClusterFile(createAt, createAt);
        UploadSelected(paths, put, removes);
        assert currentMegaCluster.value.clusterCount == 0;
        currentMegaCluster := None;
        events := events + [HistoricalUploadComplete(end.None?)];
      }
    }

    /** The blocking upload loop: one pass per file, then mark it, delete it or count the failure. */
    method UploadSelected(paths: seq<string>, put: nat -> bool, removes: string -> bool)
      modifies this
      ensures View() == UploadFiles(old(View()), paths, put, removes, 0)
      ensures currentMegaCluster == old(currentMegaCluster)
    {
      hide RecordPass, UploadFile;
      var i, k := 0, 0;
      ghost var before := View();
      assert paths[0..] == paths;
      while i < |paths|
        invariant 0 <= i <= |paths|
        invariant UploadFiles(before, paths, put, removes, 0) == UploadFiles(View(), paths[i..], put, removes, k)
        invariant currentMegaCluster == before.current
      {
        assert paths[i..][0] == paths[i] && paths[i..][1..] == paths[i + 1..];
        k := UploadNext(paths[i], put, removes, k);
        i := i + 1;
      }
      assert paths[i..] == [];
    }

    /** Upload one file, then mark it uploaded and delete it, or count the failure and report it. */
    method UploadNext(path: string, put: nat -> bool, removes: string -> bool, k: nat) returns (next: nat)
      modifies this
      ensures currentMegaCluster == old(currentMegaCluster)
      ensures var u := UploadFile(old(disk), path, put, k);
              next == u.next && View() == RecordPass(old(View()), Pass(path, u.accepted, u.complete), removes(path))
    {
      hide UploadFile;
      var complete: bool;
      ghost var accepted;
      complete, next, accepted := UploadMegaClusterFile(path, put, k);
      if complete {
        MarkMegaClusterUploaded(path, removes(path));
      } else {
        MarkMegaClusterFailed(path);
        events := events + [UploadError];
      }
      passes := passes + [Pass(path, accepted, complete)];
    }

    /** The paths of the files not uploaded, with retries left, that overlap the range. */
    method FilesToUpload(start: Option<int>, end: Option<int>) returns (paths: seq<string>)
      ensures paths == Selected(megaClusterFiles, start, end)
      ensures forall p :: p in paths <==> exists i | 0 <= i < |megaClusterFiles| ::
                                            megaClusterFiles[i].path == p && Uploadable(megaClusterFiles[i], start, end)
    {
      paths := [];
      var i := 0;
      while i < |megaClusterFiles|
        invariant 0 <= i <= |megaClusterFiles|
        invariant Selected(megaClusterFiles, start, end) == paths + Selected(megaClusterFiles[i..], start, end)
      {
        var f := megaClusterFiles[i];
        ghost var rest := Selected(megaClusterFiles[i + 1..], start, end);
        assert megaClusterFiles[i..][1..] == megaClusterFiles[i + 1..];
        assert paths + ([f.path] + rest) == paths + [f.path] + rest && paths + ([] + rest) == paths + rest;
        if !f.uploaded && f.attempts < MAX_UPLOAD_RETRIES && OverlapsTimeRange(f, start, end) {
          paths := paths + [f.path];
        }
        i := i + 1;
      }
      forall p ensures p in paths <==> exists j | 0 <= j < |megaClusterFiles| ::
                         megaClusterFiles[j].path == p && Uploadable(megaClusterFiles[j], start, end)
      {
        SelectedIff(megaClusterFiles, start, end, p);
      }
    }

    /** Pop old uploaded files off the front of the deque. */
    method CleanupOldMegaClusterFiles(now: int, removes: string -> bool)
      modifies this
      ensures View() == Cleanup(old(View()), now, removes)
    {
      while megaClusterFiles != [] && Since(now, megaClusterFiles[0].startTime) > maxBufferDuration
            && megaClusterFiles[0].uploaded
        invariant Cleanup(old(View()), now, removes) == Cleanup(View(), now, removes)
        decreases |megaClusterFiles|
      {
        ghost var b := View();
        var path := megaClusterFiles[0].path;
        megaClusterFiles := megaClusterFiles[1..];
        if removes(path) {
          disk := disk - {path};
        }
        popped := popped + if path in contents then |contents[path]| else 0;
        assert View() == PopFront(b, removes(path));
      }
    }

    /** Totals over the finished files; the open file adds its bytes but not its clusters. */
    method Stats() returns (s: BufferStats)
      ensures s.totalBytes == SumSizes(megaClusterFiles)
                              + if currentMegaCluster.Some? then currentMegaCluster.value.size else 0
      ensures s.totalClusters == SumClusters(megaClusterFiles)
      ensures s.megaClusterFiles == |megaClusterFiles|
    {
      var bytes, clusters, i := 0, 0, 0;
      while i < |megaClusterFiles|
        invariant 0 <= i <= |megaClusterFiles|
        invariant bytes == SumSizes(megaClusterFiles[..i]) && clusters == SumClusters(megaClusterFiles[..i])
      {
        assert megaClusterFiles[..i + 1][..i] == megaClusterFiles[..i];
        bytes := bytes + megaClusterFiles[i].fileSize;
        clusters := clusters + megaClusterFiles[i].clusterCount;
        i := i + 1;
      }
      assert megaClusterFiles[..i] == megaClusterFiles;
      var open := if currentMegaCluster.Some? then currentMegaCluster.value.size else 0;
      s := BufferStats(clusters, bytes + open, |megaClusterFiles|);
    }
  }

  /** What remains to be uploaded of a file from an offset on. */
  ghost function UploadsFrom(data: seq<byte>, at: nat, put: nat -> bool, k: nat): Puts
    requires at <= |data|
  {
    var r := ReadFrom(data, at);
    var puts := PutAll(r.fragments, put, k);
    puts.(complete := puts.complete && !r.panicked)
  }

  /** What one more read adds to the fragments already put. */
  lemma UploadsStep(data: seq<byte>, at: nat, put: nat -> bool, k: nat, before: seq<Fragment>)
    requires at <= |data|
    ensures match ReadAt(data, at)
            case Item(f, next) =>
              at < next <= |data|
              && Prepend(before, UploadsFrom(data, at, put, k))
                 == if put(k) then Prepend(before + [f], UploadsFrom(data, next, put, k + 1))
                   else Puts(before, false, k + 1)
            case End(_) => Prepend(before, UploadsFrom(data, at, put, k)) == Puts(before, true, k)
            case Panic => Prepend(before, UploadsFrom(data, at, put, k)) == Puts(before, false, k)
  {
    match ReadAt(data, at)
    case Item(f, next) =>
      var rest := ReadFrom(data, next).fragments;
      assert ReadFrom(data, at).fragments == [f] + rest;
      assert ([f] + rest)[1..] == rest;
      var tail := PutAll(rest, put, k + 1).accepted;
      assert before + ([f] + tail) == before + [f] + tail;
    case _ =>
  }

  lemma PrependNothing(p: Puts)
    ensures Prepend([], p) == p
  {
  }

  ghost function Prepend(a: seq<Fragment>, p: Puts): Puts { p.(accepted := a + p.accepted) }
}
