/**
 When the disk buffer loses data, exactly. No assumption on the clock: files may be created under names that
 are in use. A file keeps a sequence of records as long as the manager will get to it and finds them there,
 or the uploader accepted them in one pass over it.
 */
module BufferLoss {
  import opened Wrappers
  import opened BufferEvents
  import opened Bytes
  import opened RecordLog
  import opened FileNames
  import opened BufferModel
  import opened BufferInvariant
  import opened BufferTrigger
  import opened CrashRecovery

  /** What a reader finds in a file. */
  function Held(b: Buf, n: string): seq<Fragment>
    requires n in b.disk
  {
    ReadAll(b.disk[n]).fragments
  }

  predicate InSight(b: Buf, n: string) { IsTracked(b, n) || HasCurrentPath(b, n) }

  predicate OnFile(b: Buf, n: string, r: seq<Fragment>) { n in b.disk && InSight(b, n) && r <= Held(b, n) }

  predicate Covered(passes: seq<Pass>, n: string, r: seq<Fragment>) {
    exists p | p in passes :: p.path == n && r <= p.accepted
  }

  predicate Keeps(b: Buf, n: string, r: seq<Fragment>) { OnFile(b, n, r) || Covered(b.passes, n, r) }

  /** Some records that were safe no longer are. */
  ghost predicate Loses(b: Buf, b': Buf) {
    exists n: string, r: seq<Fragment> :: r != [] && Keeps(b, n, r) && !Keeps(b', n, r)
  }

  /** A tracked file with records not accepted in full: the only copy of them. */
  predicate Live(b: Buf, n: string) {
    n in b.disk && InSight(b, n) && Held(b, n) != [] && !Covered(b.passes, n, Held(b, n))
  }

  lemma LosesNothingThrough(a: Buf, b: Buf, c: Buf)
    requires !Loses(a, b) && !Loses(b, c)
    ensures !Loses(a, c)
  {
    hide Keeps;
    forall n: string, r: seq<Fragment> | r != [] && Keeps(a, n, r) ensures Keeps(c, n, r) {
      assert Keeps(b, n, r);
    }
  }

  // ---- creating a file ----

  /** Creating a file loses data exactly when its name is that of a live file. */
  lemma CreationLosesExactly(b: Buf, createAt: nat, startTime: int)
    requires b.current.None?
    ensures Loses(b, StartNew(b, createAt, startTime)) <==> Live(b, NewName(b, createAt))
  {
    var name, b' := NewName(b, createAt), StartNew(b, createAt, startTime);
    EmptyReads();
    if Live(b, name) {
      assert Keeps(b, name, Held(b, name)) && !Keeps(b', name, Held(b, name));
    } else {
      forall n: string, r: seq<Fragment> | r != [] && Keeps(b, n, r) ensures Keeps(b', n, r) {
        if OnFile(b, n, r) && n == name {
          var p :| p in b.passes && p.path == n && Held(b, n) <= p.accepted;
          assert r <= p.accepted;
        } else if OnFile(b, n, r) {
          SameSight(b, b', n);
        }
      }
    }
  }

  lemma EmptyReads()
    ensures ReadAll([]) == ReadAllResult([], false)
  {
  }

  lemma SameSight(b: Buf, b': Buf, n: string)
    requires b'.files == b.files && b.current.None?
    ensures InSight(b, n) ==> InSight(b', n)
  {
  }

  /**
   In terms of what the manager knows: the name exists in the directory, the file holds a fragment, and no
   pass over it got through. The invariant is assumed before the creation, not after it.
   */
  lemma CreationLosesIff(b: Buf, createAt: nat, startTime: int)
    requires Consistent(b) && b.current.None?
    ensures var n := NewName(b, createAt);
            Loses(b, StartNew(b, createAt, startTime))
            <==> n in b.disk && n in b.contents && b.contents[n] != [] && !HasComplete(b.passes, n)
  {
    CreationLosesExactly(b, createAt, startTime);
    var n := NewName(b, createAt);
    assert n in b.disk ==> n in b.contents;
    if n in b.disk {
      LiveMeansUnsent(b, n);
    }
  }

  lemma LiveMeansUnsent(b: Buf, n: string)
    requires Consistent(b) && n in b.disk && n in b.contents
    ensures Live(b, n) <==> b.contents[n] != [] && !HasComplete(b.passes, n)
  {
    assert FileOk(b, n) && Held(b, n) == StoredAll(b.contents[n]);
    assert forall p | p in b.passes :: PassOk(b, p);
    PassesMatch(b.passes, b.contents, n);
    assert b.contents[n] == [] || HasCurrentPath(b, n) || IsTracked(b, n) || HasComplete(b.passes, n);
  }

  lemma PassesMatch(passes: seq<Pass>, contents: map<string, seq<Fragment>>, n: string)
    requires n in contents
    requires forall p | p in passes && p.path == n ::
               && p.accepted <= StoredAll(contents[n])
               && (p.complete <==> p.accepted == StoredAll(contents[n]))
    ensures Covered(passes, n, StoredAll(contents[n])) <==> HasComplete(passes, n)
  {
    if HasComplete(passes, n) {
      var i :| 0 <= i < |passes| && passes[i].path == n && passes[i].complete;
      assert passes[i] in passes;
    }
    if Covered(passes, n, StoredAll(contents[n])) {
      var p :| p in passes && p.path == n && StoredAll(contents[n]) <= p.accepted;
      var i :| 0 <= i < |passes| && passes[i] == p;
      assert p.accepted == StoredAll(contents[n]);
    }
  }

  /**
   What a fresh name is needed for: the order after a restart. When the name is unused, the listing a restart
   finds is the creation order exactly when the name sorts after every file still in the directory.
   */
  lemma RestartOrderIff(b: Buf, createAt: nat, startTime: int, listing: seq<string>)
    requires Consistent(b) && b.current.None? && NewName(b, createAt) !in b.disk
    requires IsListing(StartNew(b, createAt, startTime).disk, b.stream, listing)
    ensures listing == Kept(b.names, b.disk) + [NewName(b, createAt)]
            <==> forall n | n in b.disk :: Less(n, NewName(b, createAt))
  {
    Parts(b);
    hide Consistent, Less, Scanned, Kept, FileName;
    KeptFacts(b.names, b.disk);
    CreatedNameIsScanned(b.stream, createAt / NS_PER_MS);
    ListedAfter(b, createAt, startTime, listing);
    hide NamesOk, PathsOk, IsListing, StartNew;
    OneMoreInOrder(Kept(b.names, b.disk), NewName(b, createAt), listing);
  }

  lemma ListedAfter(b: Buf, createAt: nat, startTime: int, listing: seq<string>)
    requires NamesOk(b) && Scanned(b.stream, NewName(b, createAt))
    requires IsListing(StartNew(b, createAt, startTime).disk, b.stream, listing)
    ensures Sorted(listing) && forall x :: x in listing <==> x in b.disk || x == NewName(b, createAt)
  {
    hide Scanned, Sorted;
  }

  /** A sorted list and one more member: it comes last exactly when it is after all others. */
  lemma OneMoreInOrder(older: seq<string>, name: string, listing: seq<string>)
    requires Sorted(older) && Sorted(listing)
    requires forall x :: x in listing <==> x in older || x == name
    ensures listing == older + [name] <==> forall n | n in older :: Less(n, name)
  {
    hide Less;
    var all := older + [name];
    assert all[|older|] == name && forall i | 0 <= i < |older| :: all[i] == older[i];
    if forall n | n in older :: Less(n, name) {
      assert Sorted(all);
      SortedIsUnique(listing, all);
    }
    if listing == all {
      forall n | n in older ensures Less(n, name) {
        var i :| 0 <= i < |older| && older[i] == n;
        assert listing[i] == n && listing[|older|] == name;
      }
    }
  }

  // ---- the other steps ----

  /** The open file holds the log of what was written to it, unless it was deleted. */
  predicate CurrentOk(b: Buf) {
    b.current.Some? && b.current.value.path in b.disk ==>
      var path := b.current.value.path;
      && path in b.contents && AllStorable(b.contents[path]) && b.disk[path] == Log(b.contents[path])
      && b.current.value.size == |b.disk[path]|
  }

  /** The fragment just pushed is the last record of the current file. */
  predicate StoredLast(b: Buf, f: Fragment) {
    && CurrentPresent(b)
    && var held := Held(b, b.current.value.path); held != [] && held[|held| - 1] == Stored(f)
  }

  /** The current file reads as before, and one record more. */
  lemma WriteHeld(b: Buf, f: Fragment)
    requires CurrentPresent(b) && CurrentOk(b) && Pushable(f) && b.current.value.size < MEGA_CLUSTER_MAX_SIZE
    ensures var path := b.current.value.path; Held(Write(b, f), path) == Held(b, path) + [Stored(f)]
    ensures CurrentOk(Write(b, f))
  {
    var c := b.contents[b.current.value.path];
    WriteSize(c, f);
    ReadWhole(c);
    StoredConcat(c, [f]);
    assert StoredAll([f]) == [Stored(f)];
    hide ReadAll, Log, StoredAll, Stored, Pushable;
  }

  lemma WriteLosesNothing(b: Buf, f: Fragment)
    requires CurrentPresent(b) && CurrentOk(b) && Pushable(f) && b.current.value.size < MEGA_CLUSTER_MAX_SIZE
    ensures !Loses(b, Write(b, f)) && CurrentOk(Write(b, f)) && StoredLast(Write(b, f), f)
  {
    WriteHeld(b, f);
    var b', path := Write(b, f), b.current.value.path;
    var held := Held(b, path);
    hide Held, CurrentOk, Pushable, Record;
    assert b'.disk.Keys == b.disk.Keys && forall n | n in b.disk && n != path :: b'.disk[n] == b.disk[n];
    assert b'.files == b.files && b'.passes == b.passes && b'.current.value.path == path;
    hide Write;
    forall n: string, r: seq<Fragment> | r != [] && Keeps(b, n, r) ensures Keeps(b', n, r) {
      assert InSight(b, n) ==> InSight(b', n);
      if n in b.disk && n != path { SameBytes(b, b', n); }
    }
  }

  lemma SameBytes(b: Buf, b': Buf, n: string)
    requires n in b.disk && n in b'.disk && b'.disk[n] == b.disk[n]
    ensures Held(b', n) == Held(b, n)
  {
  }

  lemma FinalizeLosesNothing(b: Buf)
    ensures !Loses(b, Finalize(b))
  {
    var b' := Finalize(b);
    forall n: string, r: seq<Fragment> | r != [] && Keeps(b, n, r) ensures Keeps(b', n, r) {
      assert InSight(b, n) ==> InSight(b', n) by { FinalizeSight(b, n); }
    }
  }

  lemma FinalizeSight(b: Buf, n: string)
    ensures InSight(b, n) <==> InSight(Finalize(b), n)
  {
    var b' := Finalize(b);
    if IsTracked(b, n) {
      var i :| 0 <= i < |b.files| && b.files[i].path == n;
      assert b'.files[i].path == n;
    } else if HasCurrentPath(b, n) {
      assert b'.files[|b.files|].path == n;
    }
    if IsTracked(b', n) {
      var i :| 0 <= i < |b'.files| && b'.files[i].path == n;
      assert i < |b.files| ==> b.files[i].path == n;
    }
  }

  /** A pass that read the file as it is: a prefix was accepted, all of it when it is complete. */
  predicate TruePass(disk: map<string, seq<byte>>, p: Pass) {
    && p.accepted <= (if p.path in disk then ReadAll(disk[p.path]).fragments else [])
    && (p.complete ==> p.path in disk && p.accepted == ReadAll(disk[p.path]).fragments)
  }

  /** Bytes do not change; files may go. */
  predicate DiskShrinks(b: Buf, b': Buf) {
    forall n | n in b'.disk :: n in b.disk && b'.disk[n] == b.disk[n]
  }

  lemma RecordPassSight(b: Buf, p: Pass, removed: bool, n: string)
    ensures InSight(b, n) <==> InSight(RecordPass(b, p, removed), n)
    ensures RecordPass(b, p, removed).current == b.current && RecordPass(b, p, removed).contents == b.contents
    ensures DiskShrinks(b, RecordPass(b, p, removed))
  {
    var b' := RecordPass(b, p, removed);
    assert |b'.files| == |b.files| && forall i | 0 <= i < |b.files| :: b'.files[i].path == b.files[i].path;
  }

  lemma PassLosesNothing(b: Buf, p: Pass, removed: bool)
    requires TruePass(b.disk, p)
    ensures !Loses(b, RecordPass(b, p, removed))
  {
    var b' := RecordPass(b, p, removed);
    assert b'.passes == b.passes + [p];
    assert forall n | n in b.disk && n != p.path :: n in b'.disk;
    assert !p.complete ==> b'.disk == b.disk;
    forall n: string, r: seq<Fragment> | r != [] && Keeps(b, n, r) ensures Keeps(b', n, r) {
      if OnFile(b, n, r) {
        RecordPassSight(b, p, removed, n);
        assert p in b'.passes;
      } else {
        var q :| q in b.passes && q.path == n && r <= q.accepted;
        assert q in b'.passes;
      }
    }
  }

  lemma UploadIsTruePass(disk: map<string, seq<byte>>, path: string, put: nat -> bool, k: nat)
    ensures var u := UploadFile(disk, path, put, k); TruePass(disk, Pass(path, u.accepted, u.complete))
  {
  }

  lemma {:induction false} UploadsLoseNothing(b: Buf, paths: seq<string>, put: nat -> bool, removes: string -> bool,
                                              k: nat)
    ensures var b' := UploadFiles(b, paths, put, removes, k);
            && !Loses(b, b') && DiskShrinks(b, b') && b'.current == b.current && b'.contents == b.contents
    decreases |paths|
  {
    if paths == [] {
    } else {
      var u := UploadFile(b.disk, paths[0], put, k);
      var p := Pass(paths[0], u.accepted, u.complete);
      var b1 := RecordPass(b, p, removes(paths[0]));
      UploadIsTruePass(b.disk, paths[0], put, k);
      hide UploadFile;
      PassLosesNothing(b, p, removes(paths[0]));
      RecordPassSight(b, p, removes(paths[0]), paths[0]);
      hide RecordPass, Loses;
      UploadsLoseNothing(b1, paths[1..], put, removes, u.next);
      LosesNothingThrough(b, b1, UploadFiles(b1, paths[1..], put, removes, u.next));
    }
  }

  /** Letting go of an empty file, and reporting. */
  lemma DropEmptyLosesNothing(b: Buf, e: Event)
    requires b.current.Some? && b.current.value.path in b.disk ==> b.disk[b.current.value.path] == []
    ensures !Loses(b, Notify(b.(current := None), e))
  {
    var b' := Notify(b.(current := None), e);
    EmptyReads();
    forall n: string, r: seq<Fragment> | r != [] && Keeps(b, n, r) ensures Keeps(b', n, r) {
      assert IsTracked(b, n) ==> IsTracked(b', n);
    }
  }

  // ---- cleanup ----

  /** Forgetting an entry loses data exactly when its file is live and is deleted, or no longer tracked. */
  predicate PopLoses(b: Buf, removed: bool)
    requires b.files != []
  {
    Live(b, b.files[0].path) && (removed || !InSight(PopFront(b, removed), b.files[0].path))
  }

  predicate SweepLoses(b: Buf, now: int, removes: string -> bool)
    decreases |b.files|
  {
    b.files != [] && Expired(b, b.files[0], now)
    && (PopLoses(b, removes(b.files[0].path)) || SweepLoses(PopFront(b, removes(b.files[0].path)), now, removes))
  }

  lemma PopSight(b: Buf, removed: bool, n: string)
    requires b.files != []
    ensures InSight(PopFront(b, removed), n) ==> InSight(b, n)
    ensures n != b.files[0].path && InSight(b, n) ==> InSight(PopFront(b, removed), n)
  {
    var b' := PopFront(b, removed);
    if IsTracked(b', n) {
      var i :| 0 <= i < |b'.files| && b'.files[i].path == n;
      assert b.files[i + 1].path == n;
    }
    if IsTracked(b, n) && n != b.files[0].path {
      var i :| 0 <= i < |b.files| && b.files[i].path == n;
      assert b'.files[i - 1].path == n;
    }
  }

  lemma PopShrinks(b: Buf, removed: bool, n: string, r: seq<Fragment>)
    requires b.files != [] && Keeps(PopFront(b, removed), n, r)
    ensures Keeps(b, n, r)
  {
    PopSight(b, removed, n);
  }

  lemma PopLosesExactly(b: Buf, removed: bool)
    requires b.files != []
    ensures Loses(b, PopFront(b, removed)) <==> PopLoses(b, removed)
  {
    var b', path := PopFront(b, removed), b.files[0].path;
    if PopLoses(b, removed) {
      assert Keeps(b, path, Held(b, path)) && !Keeps(b', path, Held(b, path));
    } else {
      forall n: string, r: seq<Fragment> | r != [] && Keeps(b, n, r) ensures Keeps(b', n, r) {
        PopSight(b, removed, n);
        if OnFile(b, n, r) && n == path && Covered(b.passes, n, Held(b, n)) {
          var p :| p in b.passes && p.path == n && Held(b, n) <= p.accepted;
          assert r <= p.accepted;
        }
      }
    }
  }

  lemma {:induction false} CleanupShrinks(b: Buf, now: int, removes: string -> bool, n: string, r: seq<Fragment>)
    requires Keeps(Cleanup(b, now, removes), n, r)
    ensures Keeps(b, n, r)
    decreases |b.files|
  {
    hide Keeps;
    if b.files == [] || !Expired(b, b.files[0], now) {
    } else {
      CleanupShrinks(PopFront(b, removes(b.files[0].path)), now, removes, n, r);
      PopShrinks(b, removes(b.files[0].path), n, r);
    }
  }

  lemma {:induction false} CleanupLosesExactly(b: Buf, now: int, removes: string -> bool)
    ensures Loses(b, Cleanup(b, now, removes)) <==> SweepLoses(b, now, removes)
    ensures Cleanup(b, now, removes).current == b.current && DiskShrinks(b, Cleanup(b, now, removes))
    ensures Cleanup(b, now, removes).contents == b.contents
    decreases |b.files|
  {
    hide Keeps, PopLoses;
    if b.files == [] || !Expired(b, b.files[0], now) {
    } else {
      var removed := removes(b.files[0].path);
      var b1, b2 := PopFront(b, removed), Cleanup(b, now, removes);
      CleanupLosesExactly(b1, now, removes);
      PopLosesExactly(b, removed);
      if PopLoses(b, removed) {
        var n: string, r: seq<Fragment> :| r != [] && Keeps(b, n, r) && !Keeps(b1, n, r);
        if Keeps(b2, n, r) { CleanupShrinks(b1, now, removes, n, r); }
      } else if Loses(b1, b2) {
        var n: string, r: seq<Fragment> :| r != [] && Keeps(b1, n, r) && !Keeps(b2, n, r);
        PopShrinks(b, removed, n, r);
      } else {
        LosesNothingThrough(b, b1, b2);
      }
    }
  }

  // ---- one operation ----

  /** The state once the operation has created its file, if it creates one. */
  function Created(b: Buf, op: Op): Buf {
    match op
    case DoPush(f, checkAt, createAt) => Rotated(b, f, checkAt, createAt)
    case DoTrigger(start, end, createAt, _, _) =>
      if Targets(b, start, end) == [] then Finalize(b) else StartNew(Finalize(b), createAt, createAt)
    case DoCleanup(_, _) => b
  }

  /** A file is created under the name of a live one. */
  predicate Overwrites(b: Buf, op: Op) {
    match op
    case DoPush(_, checkAt, createAt) => ShouldRotate(b, checkAt) && Live(Finalize(b), NewName(b, createAt))
    case DoTrigger(start, end, createAt, _, _) => Targets(b, start, end) != []
      && Live(Finalize(b), NewName(b, createAt))
    case DoCleanup(_, _) => false
  }

  /** A fragment is appended to a file that was deleted while open. */
  predicate Unlinked(b: Buf, op: Op) {
    op.DoPush? && !ShouldRotate(b, op.checkAt) && b.current.value.path !in b.disk
  }

  /** What a manager could look for before it acts. */
  predicate Harmful(b: Buf, op: Op) {
    Overwrites(b, op) || Unlinked(b, op) || (op.DoCleanup? && SweepLoses(b, op.now, op.removes))
  }

  ghost predicate OpLoses(b: Buf, op: Op) {
    || Loses(b, Created(b, op))
    || Loses(Created(b, op), Do(b, op))
    || (op.DoPush? && !StoredLast(Do(b, op), op.fragment))
  }

  lemma CreatedLoses(b: Buf, createAt: nat, startTime: int)
    ensures var b1 := Finalize(b);
            && (Loses(b, StartNew(b1, createAt, startTime)) <==> Live(b1, NewName(b, createAt)))
            && CurrentOk(StartNew(b1, createAt, startTime))
  {
    var b1 := Finalize(b);
    var b2 := StartNew(b1, createAt, startTime);
    FinalizeLosesNothing(b);
    CreationLosesExactly(b1, createAt, startTime);
    hide Live;
    if Loses(b1, b2) {
      var n: string, r: seq<Fragment> :| r != [] && Keeps(b1, n, r) && !Keeps(b2, n, r);
      assert Keeps(b, n, r) by { FinalizeSight(b, n); }
    } else {
      hide Loses;
      LosesNothingThrough(b, b1, b2);
    }
  }

  lemma PushLosesExactly(b: Buf, op: Op)
    requires CurrentOk(b) && op.DoPush? && Pushable(op.fragment)
    ensures (OpLoses(b, op) <==> Harmful(b, op)) && CurrentOk(Do(b, op))
  {
    var f, r := op.fragment, Created(b, op);
    if ShouldRotate(b, op.checkAt) {
      CreatedLoses(b, op.createAt, f.timestampNs);
    } else {
      assert r == b;
      assert !Loses(b, b);
    }
    hide Loses, Live, Write;
    if CurrentPresent(r) {
      WriteLosesNothing(r, f);
    }
  }

  lemma TriggerLosesExactly(b: Buf, op: Op)
    requires op.DoTrigger?
    ensures (OpLoses(b, op) <==> Harmful(b, op)) && CurrentOk(Do(b, op))
  {
    var b1, paths, done := Finalize(b), Targets(b, op.start, op.end), HistoricalUploadComplete(op.end.None?);
    hide Targets, Live;
    if paths == [] {
      FinalizeLosesNothing(b);
      DropEmptyLosesNothing(b1, done);
      assert Notify(b1.(current := None), done) == Notify(b1, done);
      hide Loses;
    } else {
      CreatedLoses(b, op.createAt, op.createAt);
      var b2 := StartNew(b1, op.createAt, op.createAt);
      var b3 := UploadFiles(b2, paths, op.put, op.removes, 0);
      UploadsLoseNothing(b2, paths, op.put, op.removes, 0);
      hide UploadFiles;
      DropEmptyLosesNothing(b3, done);
      hide Loses;
      LosesNothingThrough(b2, b3, Notify(b3.(current := None), done));
    }
  }

  /** One operation, whatever the clock: it loses something exactly when it is harmful. */
  lemma OpLosesExactly(b: Buf, op: Op)
    requires CurrentOk(b) && (op.DoPush? ==> Pushable(op.fragment))
    ensures (OpLoses(b, op) <==> Harmful(b, op)) && CurrentOk(Do(b, op))
  {
    match op
    case DoPush(_, _, _) => PushLosesExactly(b, op);
    case DoTrigger(_, _, _, _, _) => TriggerLosesExactly(b, op);
    case DoCleanup(now, removes) =>
      CleanupLosesExactly(b, now, removes);
      assert !Loses(b, b);
      hide Loses, SweepLoses;
  }

  // ---- whole runs ----

  predicate AllPushable(ops: seq<Op>) { forall i | 0 <= i < |ops| && ops[i].DoPush? :: Pushable(ops[i].fragment) }

  predicate Harmless(b: Buf, ops: seq<Op>)
    decreases |ops|
  {
    ops == [] || (!Harmful(b, ops[0]) && Harmless(Do(b, ops[0]), ops[1..]))
  }

  ghost predicate RunLoses(b: Buf, ops: seq<Op>)
    decreases |ops|
  {
    ops != [] && (OpLoses(b, ops[0]) || RunLoses(Do(b, ops[0]), ops[1..]))
  }

  /** A run loses something at some point if and only if one of its operations is harmful when its turn comes. */
  lemma {:induction false} RunLosesExactly(b: Buf, ops: seq<Op>)
    requires CurrentOk(b) && AllPushable(ops)
    ensures RunLoses(b, ops) <==> !Harmless(b, ops)
    decreases |ops|
  {
    hide CurrentOk, OpLoses, Harmful, Do, Pushable;
    if ops == [] {
    } else {
      OpLosesExactly(b, ops[0]);
      assert forall i | 0 <= i < |ops[1..]| :: ops[1..][i] == ops[i + 1];
      RunLosesExactly(Do(b, ops[0]), ops[1..]);
    }
  }

  /** Found in a file the manager will get to, or accepted by the uploader. */
  ghost predicate Recoverable(b: Buf, x: Fragment) {
    exists n: string, r: seq<Fragment> :: x in r && Keeps(b, n, r)
  }

  lemma RecoverableStays(b: Buf, b': Buf, x: Fragment)
    requires !Loses(b, b') && Recoverable(b, x)
    ensures Recoverable(b', x)
  {
    hide Keeps;
    var n: string, r: seq<Fragment> :| x in r && Keeps(b, n, r);
    assert r != [];
    assert Keeps(b', n, r);
  }

  lemma StoredIsRecoverable(b: Buf, f: Fragment)
    requires StoredLast(b, f)
    ensures Recoverable(b, Stored(f))
  {
    var path := b.current.value.path;
    assert Stored(f) in Held(b, path) && Keeps(b, path, Held(b, path));
  }

  /** A harmless run keeps everything there was and everything it pushes, whatever the uploader answers. */
  lemma {:induction false} HarmlessRunKeeps(b: Buf, ops: seq<Op>, x: Fragment)
    requires CurrentOk(b) && AllPushable(ops) && Harmless(b, ops)
    requires Recoverable(b, x) || exists f | f in PushedBy(ops) :: x == Stored(f)
    ensures Recoverable(Run(b, ops), x)
    decreases |ops|
  {
    hide CurrentOk, OpLoses, Harmful, Do, Pushable, Recoverable, Stored;
    if ops == [] {
    } else {
      var b' := Do(b, ops[0]);
      OpLosesExactly(b, ops[0]);
      OpKeeps(b, ops[0], x);
      assert forall i | 0 <= i < |ops[1..]| :: ops[1..][i] == ops[i + 1];
      HarmlessRunKeeps(b', ops[1..], x);
    }
  }

  lemma OpKeeps(b: Buf, op: Op, x: Fragment)
    requires !OpLoses(b, op)
    ensures Recoverable(b, x) || (op.DoPush? && x == Stored(op.fragment)) ==> Recoverable(Do(b, op), x)
  {
    hide Loses, StoredLast, Recoverable, Do, Created;
    if Recoverable(b, x) {
      RecoverableStays(b, Created(b, op), x);
      RecoverableStays(Created(b, op), Do(b, op), x);
    }
    if op.DoPush? { StoredIsRecoverable(Do(b, op), op.fragment); }
  }

  /** A clock that gives every new file a fresh name makes a run harmless. */
  lemma {:induction false} FreshNamesAreHarmless(b: Buf, ops: seq<Op>)
    requires Valid(b) && RunOk(b, ops)
    ensures Harmless(b, ops)
    decreases |ops|
  {
    hide Valid, OpOk, Harmful, Do;
    if ops == [] {
    } else {
      FreshNameIsHarmless(b, ops[0]);
      DoKeeps(b, ops[0]);
      FreshNamesAreHarmless(Do(b, ops[0]), ops[1..]);
    }
  }

  lemma FreshNameIsHarmless(b: Buf, op: Op)
    requires Valid(b) && OpOk(b, op)
    ensures !Harmful(b, op)
  {
    hide Valid, Live, FreshName, Finalize, Targets, ShouldRotate, SweepLoses;
    match op
    case DoPush(_, checkAt, createAt) =>
      if ShouldRotate(b, checkAt) { FreshIsOutOfSight(b, createAt); }
      CurrentOnDisk(b, checkAt);
    case DoTrigger(start, end, createAt, _, _) =>
      if Targets(b, start, end) != [] { FreshIsOutOfSight(b, createAt); }
    case DoCleanup(now, removes) => ValidSweepsSafely(b, now, removes);
  }

  lemma CurrentOnDisk(b: Buf, checkAt: int)
    requires Valid(b)
    ensures !ShouldRotate(b, checkAt) ==> b.current.value.path in b.disk
  {
  }

  lemma FreshIsOutOfSight(b: Buf, createAt: nat)
    requires Valid(b) && FreshName(b, createAt)
    ensures !Live(Finalize(b), NewName(b, createAt))
  {
    var b1, n := Finalize(b), NewName(b, createAt);
    LessIrreflexive(n);
    assert n !in b.names && n !in b.contents && n !in b1.disk;
  }

  lemma {:induction false} ValidSweepsSafely(b: Buf, now: int, removes: string -> bool)
    requires Valid(b)
    ensures !SweepLoses(b, now, removes)
    decreases |b.files|
  {
    hide Valid;
    if b.files == [] || !Expired(b, b.files[0], now) {
    } else {
      UploadedIsNotLive(b);
      PopFrontKeeps(b, removes(b.files[0].path));
      ValidSweepsSafely(PopFront(b, removes(b.files[0].path)), now, removes);
    }
  }

  lemma UploadedIsNotLive(b: Buf)
    requires Valid(b) && b.files != [] && b.files[0].uploaded
    ensures !Live(b, b.files[0].path)
  {
    var n := b.files[0].path;
    assert HasComplete(b.passes, n) && n in b.contents;
    if n in b.disk { LiveMeansUnsent(b, n); }
  }
}
