/**
 A crash at any byte of the file being written, a restart on what is left of the directory, and a
 full upload: exactly the complete records of every file still on disk, in push order.
 */
module CrashRecovery {
  import opened Wrappers
  import opened Bytes
  import opened RecordLog
  import opened FileNames
  import opened BufferModel
  import opened BufferInvariant
  import opened BufferTrigger

  /** The directory after a crash that kept the first `cut` bytes of the current file. */
  function Crashed(b: Buf, cut: nat): map<string, seq<byte>> {
    if CurrentPresent(b) && cut <= |b.disk[b.current.value.path]|
    then b.disk[b.current.value.path := b.disk[b.current.value.path][..cut]]
    else b.disk
  }

  /** The fragments of one file that the crash left complete. */
  function Complete(b: Buf, cut: nat, n: string): seq<Fragment>
    requires n in b.contents
  {
    if HasCurrentPath(b, n) then b.contents[n][..CompleteRecords(b.contents[n], cut)] else b.contents[n]
  }

  /** The complete records of every file still on disk, oldest file first. */
  function Surviving(b: Buf, cut: nat, names: seq<string>): seq<Fragment> {
    if names == [] then []
    else (if names[0] in b.disk && names[0] in b.contents then Complete(b, cut, names[0]) else [])
         + Surviving(b, cut, names[1..])
  }

  function Kept(names: seq<string>, disk: map<string, seq<byte>>): seq<string> {
    if names == [] then [] else (if names[0] in disk then [names[0]] else []) + Kept(names[1..], disk)
  }

  lemma {:induction false} KeptFacts(names: seq<string>, disk: map<string, seq<byte>>)
    requires Sorted(names)
    ensures Sorted(Kept(names, disk))
    ensures forall n :: n in Kept(names, disk) <==> n in names && n in disk
  {
    if names == [] {
    } else {
      var rest, kept := names[1..], Kept(names[1..], disk);
      assert Sorted(rest);
      KeptFacts(rest, disk);
      forall n | n in kept ensures Less(names[0], n) {
        var i :| 0 <= i < |rest| && rest[i] == n;
        assert names[i + 1] == n;
      }
      assert names == [names[0]] + rest;
    }
  }

  lemma StoredTwice(fs: seq<Fragment>)
    requires AllStorable(fs)
    ensures AllStorable(StoredAll(fs)) && StoredAll(StoredAll(fs)) == StoredAll(fs)
  {
    forall i | 0 <= i < |fs| ensures Stored(Stored(fs[i])) == Stored(fs[i]) && Storable(Stored(fs[i])) {
      assert fs[i] in fs;
      StoredOnce(fs[i]);
    }
  }

  /** Every file left by the crash reads as its complete fragments. */
  lemma CrashedFileReads(b: Buf, cut: nat, n: string)
    requires NamesOk(b) && PathsOk(b) && FilesOk(b) && n in b.disk
    requires b.current.Some? ==> cut <= |b.disk[b.current.value.path]|
    ensures n in Crashed(b, cut) && n in b.contents && AllStorable(Complete(b, cut, n))
    ensures ReadAll(Crashed(b, cut)[n]) == ReadAllResult(StoredAll(Complete(b, cut, n)), false)
  {
    assert n in b.contents && FileOk(b, n);
    if HasCurrentPath(b, n) {
      assert b.names[|b.names| - 1] in b.names;
      ReadCut(b.contents[n], cut);
    }
  }

  /** What the restart scan needs of a directory: no file makes the reader panic. */
  predicate Readable(disk: map<string, seq<byte>>) {
    forall n | n in disk ::
      && !ReadAll(disk[n]).panicked
      && AllStorable(ReadAll(disk[n]).fragments)
      && StoredAll(ReadAll(disk[n]).fragments) == ReadAll(disk[n]).fragments
  }

  lemma CrashedIsReadable(b: Buf, cut: nat)
    requires NamesOk(b) && PathsOk(b) && FilesOk(b)
    requires b.current.Some? ==> cut <= |b.disk[b.current.value.path]|
    ensures Readable(Crashed(b, cut)) && Crashed(b, cut).Keys == b.disk.Keys
  {
    var disk := Crashed(b, cut);
    forall n | n in disk
      ensures !ReadAll(disk[n]).panicked && AllStorable(ReadAll(disk[n]).fragments)
      ensures StoredAll(ReadAll(disk[n]).fragments) == ReadAll(disk[n]).fragments
    {
      CrashedFileReads(b, cut, n);
      StoredTwice(Complete(b, cut, n));
    }
  }

  /** A listing of every file in the directory, in scan order. */
  ghost predicate IsListing(disk: map<string, seq<byte>>, stream: string, names: seq<string>) {
    Sorted(names) && forall n :: n in names <==> n in Listed(disk, stream)
  }

  /** A manager started on any readable directory satisfies the invariant. */
  lemma StartIsValid(disk: map<string, seq<byte>>, stream: string, maxAge: nat, names: seq<string>,
                     modified: string -> int)
    requires Readable(disk) && IsListing(disk, stream, names)
    requires forall n | n in disk :: Scanned(stream, n)
    ensures Valid(Start(disk, stream, maxAge, names, modified))
    ensures Targets(Start(disk, stream, maxAge, names, modified), None, None) == names
  {
    hide OrderOk, MetaOk, PassesOk, FilesOk, NamesOk, PathsOk, AccountOk, IsListing, Readable;
    var b := Start(disk, stream, maxAge, names, modified);
    StartContents(disk, stream, maxAge, names, modified);
    StartNames(disk, stream, maxAge, names, modified);
    StartFiles(disk, stream, maxAge, names, modified);
    StartHistory(disk, stream, maxAge, names, modified);
    AllWanted(b.files);
  }

  /** Which files are listed: those in the directory with the stream's name in front, the infix and the suffix. */
  lemma ListedMeans(disk: map<string, seq<byte>>, stream: string, n: string)
    ensures n in Listed(disk, stream) <==>
            && n in disk
            && (exists rest :: n == stream + rest)
            && (exists a, b :: n == a + "_clusters_" + b)
            && (exists front :: n == front + ".dat")
  {
    ScannedMeans(stream, n);
    hide Scanned;
  }

  /** What a new manager knows of each listed file: how long it is and when it was written, and no more. */
  lemma RecoveredEntry(disk: map<string, seq<byte>>, stream: string, maxAge: nat, names: seq<string>,
                       modified: string -> int, i: nat)
    requires i < |names| && names[i] in disk
    ensures var b := Start(disk, stream, maxAge, names, modified);
            && b.stream == stream && b.maxAge == maxAge && b.disk == disk && b.current.None? && b.events == []
            && |b.files| == |names| && b.files[i].path == names[i] && b.files[i].fileSize == |disk[names[i]]|
            && b.files[i].startTime == b.files[i].endTime == modified(names[i])
            && b.files[i].clusterCount == 0 && !b.files[i].uploaded && b.files[i].attempts == 0
  {
  }

  /** What a range selects after a restart: exactly the recovered files that were last written in it. */
  lemma RecoveredSelection(disk: map<string, seq<byte>>, names: seq<string>, modified: string -> int,
                           start: Option<int>, end: Option<int>, n: string)
    ensures n in Selected(ScanFiles(names, disk, modified), start, end)
            <==> n in names && (start.Some? ==> start.value <= modified(n)) && (end.Some? ==> modified(n) <= end.value)
  {
    var files := ScanFiles(names, disk, modified);
    SelectedMembers(files, start, end);
    if n in names {
      var i :| 0 <= i < |names| && names[i] == n;
      assert Wanted(files[i], start, end)
             <==> (start.Some? ==> start.value <= modified(n)) && (end.Some? ==> modified(n) <= end.value);
      assert forall j | 0 <= j < |files| && files[j].path == n ::
          Wanted(files[j], start, end) == Wanted(files[i], start, end);
    }
  }

  lemma StartHistory(disk: map<string, seq<byte>>, stream: string, maxAge: nat, names: seq<string>,
                     modified: string -> int)
    ensures var b := Start(disk, stream, maxAge, names, modified);
            OrderOk(b) && MetaOk(b) && PassesOk(b)
  {
    var b := Start(disk, stream, maxAge, names, modified);
    assert Paths(b.files) == names;
    assert FlattenFiles(b.files, b.contents) + [] == b.pushed[0..];
  }

  lemma StartContents(disk: map<string, seq<byte>>, stream: string, maxAge: nat, names: seq<string>,
                      modified: string -> int)
    requires IsListing(disk, stream, names) && forall n | n in disk :: Scanned(stream, n)
    ensures var b := Start(disk, stream, maxAge, names, modified);
            && Paths(b.files) == names
            && (forall n | n in names :: n in b.contents && n in disk && b.contents[n] == ReadAll(disk[n]).fragments)
            && (forall n | n in b.contents :: n in names)
            && (forall n | n in disk :: n in names)
  {
    hide Scanned, ReadAll, FlattenNames;
    assert Paths(Start(disk, stream, maxAge, names, modified).files) == names;
    assert forall n | n in names :: n in Listed(disk, stream);
    forall n | n in disk ensures n in names { assert n in Listed(disk, stream); }
  }

  lemma StartNames(disk: map<string, seq<byte>>, stream: string, maxAge: nat, names: seq<string>,
                   modified: string -> int)
    requires IsListing(disk, stream, names) && forall n | n in disk :: Scanned(stream, n)
    ensures NamesOk(Start(disk, stream, maxAge, names, modified))
    ensures PathsOk(Start(disk, stream, maxAge, names, modified))
  {
    StartContents(disk, stream, maxAge, names, modified);
    hide Scanned, ReadAll, FlattenNames, Recovered, Listed, Less;
    assert forall i | 0 <= i < |names| :: names[i] in names;
  }

  lemma StartFiles(disk: map<string, seq<byte>>, stream: string, maxAge: nat, names: seq<string>,
                   modified: string -> int)
    requires Readable(disk) && IsListing(disk, stream, names) && forall n | n in disk :: Scanned(stream, n)
    ensures FilesOk(Start(disk, stream, maxAge, names, modified))
            && AccountOk(Start(disk, stream, maxAge, names, modified))
  {
    StartContents(disk, stream, maxAge, names, modified);
    var b := Start(disk, stream, maxAge, names, modified);
    hide IsListing, FlattenNames, Recovered;
    forall n | n in b.contents ensures FileOk(b, n) && IsTracked(b, n) {
      TrackedPaths(b, n);
      assert n in b.recovered;
    }
  }

  lemma {:induction false} AllWanted(files: seq<MegaFile>)
    requires forall f | f in files :: !f.uploaded && f.attempts == 0
    ensures Selected(files, None, None) == Paths(files)
  {
    if files == [] {
      assert Paths(files) == [];
    } else {
      var rest := files[1..];
      assert files[0] in files && forall f | f in rest :: f in files;
      AllWanted(rest);
      assert Wanted(files[0], None, None);
      hide Wanted;
      PathsTail(files);
    }
  }

  lemma {:induction false} SurvivingIsFlat(b: Buf, cut: nat, names: seq<string>)
    requires NamesOk(b) && PathsOk(b) && FilesOk(b)
    requires b.current.Some? ==> cut <= |b.disk[b.current.value.path]|
    ensures var disk := Crashed(b, cut);
            FlattenNames(Kept(names, b.disk), Recovered(disk, Kept(b.names, b.disk)))
              == StoredAll(Surviving(b, cut, names))
  {
    hide FilesOk, PathsOk, ReadAll, Scanned, Crashed;
    var contents := Recovered(Crashed(b, cut), Kept(b.names, b.disk));
    if names == [] {
    } else {
      var n, rest := names[0], names[1..];
      SurvivingIsFlat(b, cut, rest);
      if n in b.disk {
        KeptFacts(b.names, b.disk);
        CrashedFileReads(b, cut, n);
        hide StoredAll, NamesOk;
        var c, s := Complete(b, cut, n), Surviving(b, cut, rest);
        assert contents[n] == StoredAll(c);
        assert Kept(names, b.disk) == [n] + Kept(rest, b.disk);
        assert Kept(names, b.disk)[1..] == Kept(rest, b.disk);
        StoredConcat(c, s);
        assert Surviving(b, cut, names) == c + s;
      } else {
        assert Kept(names, b.disk) == Kept(rest, b.disk);
        assert Surviving(b, cut, names) == Surviving(b, cut, rest);
      }
    }
  }

  lemma {:induction false} SurvivingStorable(b: Buf, cut: nat, names: seq<string>)
    requires FilesOk(b)
    ensures AllStorable(Surviving(b, cut, names))
  {
    if names == [] {
    } else {
      SurvivingStorable(b, cut, names[1..]);
      if names[0] in b.disk && names[0] in b.contents {
        assert FileOk(b, names[0]);
      }
    }
  }

  /** The listing found after the crash is the creation order of the files still there. */
  lemma ListingIsCreationOrder(b: Buf, cut: nat, names: seq<string>)
    requires NamesOk(b) && PathsOk(b) && IsListing(Crashed(b, cut), b.stream, names)
    ensures names == Kept(b.names, b.disk)
    ensures forall n | n in b.disk :: Scanned(b.stream, n)
  {
    KeptFacts(b.names, b.disk);
    assert forall n :: n in Crashed(b, cut) <==> n in b.disk;
    SortedIsUnique(names, Kept(b.names, b.disk));
  }

  /**
   Crash and restart. From any state the buffer can be in, cut its current file at any byte, start
   a new manager on the directory, and trigger a full upload that succeeds: what is accepted is
   exactly the complete records of every file still on disk, in the order they were pushed.
   */
  lemma CrashRestart(b: Buf, cut: nat, maxAge: nat, names: seq<string>, modified: string -> int,
                     createAt: nat, put: nat -> bool, removes: string -> bool)
    requires Consistent(b) && (b.current.Some? ==> CurrentPresent(b) && cut <= |b.disk[b.current.value.path]|)
    requires IsListing(Crashed(b, cut), b.stream, names)
    requires names != [] ==> FreshName(Start(Crashed(b, cut), b.stream, maxAge, names, modified), createAt)
    requires forall k :: put(k)
    ensures var started := Start(Crashed(b, cut), b.stream, maxAge, names, modified);
            && Valid(started)
            && Accepted(Trigger(started, None, None, createAt, put, removes).passes)
               == StoredAll(Surviving(b, cut, b.names))
            && FlattenNames(b.names, b.contents) == b.pushed
  {
    Parts(b);
    hide Valid, Consistent;
    CrashedIsReadable(b, cut);
    ListingIsCreationOrder(b, cut, names);
    var disk := Crashed(b, cut);
    StartIsValid(disk, b.stream, maxAge, names, modified);
    var started := Start(disk, b.stream, maxAge, names, modified);
    TriggerOrder(started, None, None, createAt, put, removes);
    SurvivingIsFlat(b, cut, b.names);
    SurvivingStorable(b, cut, b.names);
    StoredTwice(Surviving(b, cut, b.names));
    var after := Trigger(started, None, None, createAt, put, removes);
    assert after.passes[0..] == after.passes;
  }

  // ---- runs between a start and a crash ----

  /** What a manager starts on: a directory, its sorted listing, and the modification times. */
  datatype Origin = Origin(disk: map<string, seq<byte>>, stream: string, maxAge: nat, names: seq<string>,
                           modified: string -> int)

  ghost predicate CanStart(o: Origin) {
    Readable(o.disk) && IsListing(o.disk, o.stream, o.names) && forall n | n in o.disk :: Scanned(o.stream, n)
  }

  function StartOf(o: Origin): Buf { Start(o.disk, o.stream, o.maxAge, o.names, o.modified) }

  /** The fragments found at start, in the order of the listing. */
  function RecoveredBy(o: Origin): seq<Fragment> { FlattenNames(o.names, Recovered(o.disk, o.names)) }

  /** A run on any directory keeps the invariant, and records what was recovered and then what was pushed. */
  lemma AfterRun(o: Origin, ops: seq<Op>) returns (b: Buf)
    requires CanStart(o) && RunOk(StartOf(o), ops)
    ensures b == Run(StartOf(o), ops) && Valid(b) && b.pushed == RecoveredBy(o) + PushedBy(ops)
  {
    hide Valid, OpOk, Do, Readable, IsListing, Scanned;
    StartIsValid(o.disk, o.stream, o.maxAge, o.names, o.modified);
    RunKeeps(StartOf(o), ops);
    b := Run(StartOf(o), ops);
  }

  lemma CurrentIsPresent(b: Buf)
    requires Valid(b)
    ensures Consistent(b) && (b.current.Some? ==> CurrentPresent(b))
  {
    Parts(b);
    assert b.current.Some? ==> b.names[|b.names| - 1] in b.names;
  }

  /** What a crash leaves is a directory to start on, so what holds of one run holds of every life after it. */
  lemma CrashedCanStart(b: Buf, cut: nat, maxAge: nat, names: seq<string>, modified: string -> int)
    requires Consistent(b) && (b.current.Some? ==> CurrentPresent(b) && cut <= |b.disk[b.current.value.path]|)
    requires IsListing(Crashed(b, cut), b.stream, names)
    ensures CanStart(Origin(Crashed(b, cut), b.stream, maxAge, names, modified))
  {
    Parts(b);
    hide Consistent, Readable, IsListing, Scanned;
    CrashedIsReadable(b, cut);
    ListingIsCreationOrder(b, cut, names);
  }

  /** Crash and restart after any run, on any directory, with files of earlier lives or without. */
  lemma CrashAfterRun(o: Origin, ops: seq<Op>, cut: nat, names: seq<string>, modified: string -> int,
                      createAt: nat, put: nat -> bool, removes: string -> bool)
    requires CanStart(o) && RunOk(StartOf(o), ops)
    requires var b := Run(StartOf(o), ops);
             && (CurrentPresent(b) ==> cut <= |b.disk[b.current.value.path]|)
             && IsListing(Crashed(b, cut), b.stream, names)
             && (names != [] ==> FreshName(Start(Crashed(b, cut), b.stream, o.maxAge, names, modified), createAt))
    requires forall k :: put(k)
    ensures var b := Run(StartOf(o), ops);
            var next := Origin(Crashed(b, cut), b.stream, o.maxAge, names, modified);
            && CanStart(next)
            && Accepted(Trigger(StartOf(next), None, None, createAt, put, removes).passes)
               == StoredAll(Surviving(b, cut, b.names))
            && FlattenNames(b.names, b.contents) == RecoveredBy(o) + PushedBy(ops)
  {
    var b := AfterRun(o, ops);
    CurrentIsPresent(b);
    hide Valid, Consistent, CanStart, RunOk, Run;
    CrashedCanStart(b, cut, o.maxAge, names, modified);
    CrashRestart(b, cut, o.maxAge, names, modified, createAt, put, removes);
  }
}
