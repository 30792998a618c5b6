/**
 What one trigger delivers, and what any run of pushes, triggers and cleanups keeps.
 */
module BufferTrigger {
  import opened Wrappers
  import opened BufferEvents
  import opened Bytes
  import opened RecordLog
  import opened FileNames
  import opened BufferModel
  import opened BufferInvariant

  /** The fragments the uploader accepted during these passes, in order. */
  function Accepted(passes: seq<Pass>): seq<Fragment> {
    if passes == [] then [] else passes[0].accepted + Accepted(passes[1..])
  }

  /** One error event per pass that did not get through. */
  function ErrorsOf(passes: seq<Pass>): seq<Event> {
    if passes == [] then [] else (if passes[0].complete then [] else [UploadError]) + ErrorsOf(passes[1..])
  }

  /** a can be obtained from b by leaving elements out. */
  predicate IsSubsequence<T(==)>(a: seq<T>, b: seq<T>)
    decreases |b|
  {
    a == [] || (b != [] && ((a[0] == b[0] && IsSubsequence(a[1..], b[1..])) || IsSubsequence(a, b[1..])))
  }

  lemma {:induction false} SubsequenceConcat<T>(a: seq<T>, b: seq<T>, c: seq<T>, d: seq<T>)
    requires IsSubsequence(a, b) && IsSubsequence(c, d)
    ensures IsSubsequence(a + c, b + d)
    decreases |b|
  {
    if b == [] {
      assert a + c == c && b + d == d;
    } else {
      assert (b + d)[1..] == b[1..] + d;
      if a != [] && a[0] == b[0] && IsSubsequence(a[1..], b[1..]) {
        assert (a + c)[1..] == a[1..] + c;
        SubsequenceConcat(a[1..], b[1..], c, d);
      } else {
        SubsequenceConcat(a, b[1..], c, d);
      }
    }
  }

  lemma {:induction false} PrefixIsSubsequence<T>(a: seq<T>, b: seq<T>)
    requires a <= b
    ensures IsSubsequence(a, b)
  {
    if a == [] {
    } else {
      assert a[1..] <= b[1..];
      PrefixIsSubsequence(a[1..], b[1..]);
    }
  }

  lemma SuffixSubsequence<T>(a: seq<T>, b: seq<T>, k: nat)
    requires k <= |b| && IsSubsequence(a, b[k..])
    ensures IsSubsequence(a, b)
  {
    SubsequenceConcat([], b[..k], a, b[k..]);
    assert [] + a == a && b[..k] + b[k..] == b;
  }

  // ---- the selection ----

  predicate DueAt(b: Buf, path: string, i: nat) {
    i < |b.files| && b.files[i].path == path && !b.files[i].uploaded && b.files[i].attempts < MAX_UPLOAD_RETRIES
  }

  predicate AllDue(b: Buf, paths: seq<string>) {
    forall p | p in paths :: exists i | 0 <= i < |b.files| :: DueAt(b, p, i)
  }

  lemma {:induction false} SelectedMembers(files: seq<MegaFile>, start: Option<int>, end: Option<int>)
    ensures forall p | p in Selected(files, start, end) ::
              exists i | 0 <= i < |files| :: files[i].path == p && Wanted(files[i], start, end)
    ensures forall i | 0 <= i < |files| && Wanted(files[i], start, end) :: files[i].path in Selected(files, start, end)
  {
    hide Wanted;
    if files == [] {
    } else {
      var rest := files[1..];
      SelectedMembers(rest, start, end);
      forall p | p in Selected(rest, start, end)
        ensures exists i | 0 <= i < |files| :: files[i].path == p && Wanted(files[i], start, end)
      {
        var i :| 0 <= i < |rest| && rest[i].path == p && Wanted(rest[i], start, end);
        assert files[i + 1].path == p;
      }
      forall i | 0 <= i < |files| && Wanted(files[i], start, end)
        ensures files[i].path in Selected(files, start, end)
      {
        if i > 0 { assert rest[i - 1] == files[i]; }
      }
    }
  }

  lemma SubsequenceCons<T>(x: T, a: seq<T>, b: seq<T>)
    requires IsSubsequence(a, b)
    ensures IsSubsequence([x] + a, [x] + b) && IsSubsequence(a, [x] + b)
  {
    assert ([x] + a)[1..] == a && ([x] + b)[1..] == b;
  }

  lemma {:induction false} SelectedSubsequence(files: seq<MegaFile>, start: Option<int>, end: Option<int>)
    ensures IsSubsequence(Selected(files, start, end), Paths(files))
  {
    hide Wanted;
    if files == [] {
    } else {
      var rest, path, t := files[1..], files[0].path, Selected(files[1..], start, end);
      SelectedSubsequence(rest, start, end);
      SubsequenceCons(path, t, Paths(rest));
      hide IsSubsequence;
      PathsTail(files);
      assert Selected(files, start, end) == (if Wanted(files[0], start, end) then [path] + t else t);
    }
  }

  lemma {:induction false} SelectedSorted(files: seq<MegaFile>, start: Option<int>, end: Option<int>)
    requires Sorted(Paths(files))
    ensures Sorted(Selected(files, start, end))
  {
    hide Wanted, Less;
    if files == [] {
    } else {
      var rest, ps, t := files[1..], Paths(files), Selected(files[1..], start, end);
      PathsTail(files);
      SelectedSorted(rest, start, end);
      forall p | p in t ensures Less(files[0].path, p) {
        SelectedMembers(rest, start, end);
        var i :| 0 <= i < |rest| && rest[i].path == p && Wanted(rest[i], start, end);
        assert ps[i + 1] == p;
      }
      assert Selected(files, start, end) == (if Wanted(files[0], start, end) then [files[0].path] + t else t);
    }
  }

  /** The selection is a sub-list of the deque: exactly the wanted files, in order. */
  lemma SelectedFacts(files: seq<MegaFile>, start: Option<int>, end: Option<int>)
    requires Sorted(Paths(files))
    ensures Sorted(Selected(files, start, end)) && IsSubsequence(Selected(files, start, end), Paths(files))
    ensures forall p | p in Selected(files, start, end) ::
              exists i | 0 <= i < |files| :: files[i].path == p && Wanted(files[i], start, end)
    ensures forall i | 0 <= i < |files| && Wanted(files[i], start, end) :: files[i].path in Selected(files, start, end)
  {
    SelectedSorted(files, start, end);
    SelectedSubsequence(files, start, end);
    SelectedMembers(files, start, end);
  }

  lemma {:induction false} FlattenSubsequence(a: seq<string>, b: seq<string>, c: map<string, seq<Fragment>>)
    requires IsSubsequence(a, b)
    ensures IsSubsequence(FlattenNames(a, c), FlattenNames(b, c))
    decreases |b|
  {
    if a == [] {
    } else {
      var head := if b[0] in c then c[b[0]] else [];
      if a[0] == b[0] && IsSubsequence(a[1..], b[1..]) {
        FlattenSubsequence(a[1..], b[1..], c);
        PrefixIsSubsequence(head, head);
        SubsequenceConcat(head, head, FlattenNames(a[1..], c), FlattenNames(b[1..], c));
      } else {
        FlattenSubsequence(a, b[1..], c);
        SubsequenceConcat([], head, FlattenNames(a, c), FlattenNames(b[1..], c));
        assert [] + FlattenNames(a, c) == FlattenNames(a, c);
      }
    }
  }

  lemma {:induction false} StoredSubsequence(a: seq<Fragment>, b: seq<Fragment>)
    requires IsSubsequence(a, b)
    ensures IsSubsequence(StoredAll(a), StoredAll(b))
    decreases |b|
  {
    if a == [] {
    } else {
      assert StoredAll(b)[1..] == StoredAll(b[1..]);
      if a[0] == b[0] && IsSubsequence(a[1..], b[1..]) {
        assert StoredAll(a)[1..] == StoredAll(a[1..]);
        StoredSubsequence(a[1..], b[1..]);
      } else {
        StoredSubsequence(a, b[1..]);
      }
    }
  }

  // ---- the upload loop ----

  /** Each file got one pass, in order, and each pass accepted a prefix of its file. */
  predicate PassesFor(contents: map<string, seq<Fragment>>, passes: seq<Pass>, paths: seq<string>) {
    && |passes| == |paths|
    && (forall i | 0 <= i < |paths| ::
          && paths[i] in contents && passes[i].path == paths[i]
          && passes[i].accepted <= StoredAll(contents[paths[i]])
          && (passes[i].complete <==> passes[i].accepted == StoredAll(contents[paths[i]])))
  }

  lemma DueStays(b: Buf, p: Pass, removed: bool, i: nat, paths: seq<string>)
    requires PathsOk(b) && DueAt(b, p.path, i) && AllDue(b, paths) && p.path !in paths
    ensures AllDue(RecordPass(b, p, removed), paths)
  {
    RecordPassShape(b, p, removed, i);
    var b' := RecordPass(b, p, removed);
    forall q | q in paths ensures exists j | 0 <= j < |b'.files| :: DueAt(b', q, j) {
      var j :| 0 <= j < |b.files| && DueAt(b, q, j);
      assert j != i;
      assert DueAt(b', q, j);
    }
  }

  /** The files on disk and the history of the run, apart from the passes, stay what they were. */
  predicate SameHistory(b: Buf, b': Buf) {
    b' == b.(files := b'.files, disk := b'.disk, events := b'.events, passes := b'.passes)
  }

  lemma {:induction false} UploadFilesKeeps(b: Buf, paths: seq<string>, put: nat -> bool, removes: string -> bool,
                                            k: nat)
    requires Consistent(b) && AllDue(b, paths) && Sorted(paths)
    ensures var b' := UploadFiles(b, paths, put, removes, k);
            && Consistent(b') && SameHistory(b, b')
            && b.passes <= b'.passes
            && PassesFor(b.contents, b'.passes[|b.passes|..], paths)
            && b'.events == b.events + ErrorsOf(b'.passes[|b.passes|..])
            && ((forall n :: put(n)) ==> forall i | |b.passes| <= i < |b'.passes| :: b'.passes[i].complete)
    decreases |paths|
  {
    hide Consistent;
    if paths != [] {
      var path, rest := paths[0], paths[1..];
      var p, i, next := FirstPass(b, paths, put, k);
      var b1 := RecordPass(b, p, removes(path));
      RecordPassKeeps(b, p, removes(path), i);
      assert PathsOk(b) by { Parts(b); }
      hide PathsOk;
      RecordPassShape(b, p, removes(path), i);
      DueStays(b, p, removes(path), i, rest);
      UploadFilesKeeps(b1, rest, put, removes, next);
      UploadStep(b, b1, UploadFiles(b1, rest, put, removes, next), p, paths);
    } else {
      assert b.passes[|b.passes|..] == [];
    }
  }

  lemma DueIsReadable(b: Buf, path: string, i: nat)
    requires Consistent(b) && DueAt(b, path, i)
    ensures FilesOk(b) && path in b.contents && path in b.disk
  {
    assert b.files[i].path in b.contents && !HasComplete(b.passes, path);
  }

  /** The first pass of the loop: the file is there, is read as written, and a prefix of it is accepted. */
  lemma FirstPass(b: Buf, paths: seq<string>, put: nat -> bool, k: nat) returns (p: Pass, i: nat, next: nat)
    requires Consistent(b) && AllDue(b, paths) && Sorted(paths) && paths != []
    ensures DueAt(b, paths[0], i) && PassOk(b, p) && p.path == paths[0]
    ensures UploadFile(b.disk, paths[0], put, k) == Puts(p.accepted, p.complete, next)
    ensures PassesFor(b.contents, [p], paths[..1])
    ensures (forall n :: put(n)) ==> p.complete
    ensures AllDue(b, paths[1..]) && Sorted(paths[1..]) && paths[0] !in paths[1..]
  {
    hide Consistent, FilesOk, PathsOk;
    var path, rest := paths[0], paths[1..];
    assert path in paths;
    var j :| 0 <= j < |b.files| && DueAt(b, path, j);
    i := j;
    DueIsReadable(b, path, i);
    UploadFileReads(b, path, put, k);
    var u := UploadFile(b.disk, path, put, k);
    p, next := Pass(path, u.accepted, u.complete), u.next;
    if forall n :: put(n) {
      AllAccepted(StoredAll(b.contents[path]), put, k);
    }
    assert forall q | q in rest :: q in paths;
    SortedDistinct(paths);
    assert forall m | 0 <= m < |rest| :: rest[m] == paths[m + 1];
  }

  lemma {:induction false} AllAccepted(fs: seq<Fragment>, put: nat -> bool, k: nat)
    requires forall n :: put(n)
    ensures PutAll(fs, put, k).complete
  {
    if fs == [] {
    } else {
      AllAccepted(fs[1..], put, k + 1);
    }
  }

  /** Putting one pass in front of those of the rest of the loop. */
  lemma UploadStep(b: Buf, b1: Buf, b': Buf, p: Pass, paths: seq<string>)
    requires paths != [] && PassesFor(b.contents, [p], paths[..1])
    requires b1.passes == b.passes + [p] && b1.events == b.events + (if p.complete then [] else [UploadError])
    requires b1.passes <= b'.passes && PassesFor(b.contents, b'.passes[|b1.passes|..], paths[1..])
    requires b'.events == b1.events + ErrorsOf(b'.passes[|b1.passes|..])
    ensures b.passes <= b'.passes && b'.passes[|b.passes|..] == [p] + b'.passes[|b1.passes|..]
    ensures PassesFor(b.contents, b'.passes[|b.passes|..], paths)
    ensures b'.events == b.events + ErrorsOf(b'.passes[|b.passes|..])
  {
    var all, rest := b'.passes[|b.passes|..], b'.passes[|b1.passes|..];
    assert b'.passes[|b.passes|] == b1.passes[|b.passes|] == p;
    assert all == [p] + rest;
    assert all[1..] == rest;
    forall i | 0 <= i < |paths|
      ensures paths[i] in b.contents && all[i].path == paths[i]
      ensures all[i].accepted <= StoredAll(b.contents[paths[i]])
      ensures all[i].complete <==> all[i].accepted == StoredAll(b.contents[paths[i]])
    {
      if i == 0 {
        assert paths[..1][0] == paths[0];
      } else {
        assert paths[1..][i - 1] == paths[i];
      }
    }
  }

  // ---- what was accepted, against the contents of the files ----

  lemma {:induction false} AcceptedIsSubsequence(contents: map<string, seq<Fragment>>, passes: seq<Pass>,
                                                 paths: seq<string>)
    requires PassesFor(contents, passes, paths)
    ensures IsSubsequence(Accepted(passes), StoredAll(FlattenNames(paths, contents)))
    ensures (forall p | p in passes :: p.complete) ==> Accepted(passes) == StoredAll(FlattenNames(paths, contents))
  {
    if paths == [] {
    } else {
      var c, rest := contents[paths[0]], FlattenNames(paths[1..], contents);
      assert PassesFor(contents, passes[1..], paths[1..]);
      AcceptedIsSubsequence(contents, passes[1..], paths[1..]);
      StoredConcat(c, rest);
      PrefixIsSubsequence(passes[0].accepted, StoredAll(c));
      SubsequenceConcat(passes[0].accepted, StoredAll(c), Accepted(passes[1..]), StoredAll(rest));
      if forall p | p in passes :: p.complete {
        assert passes[0] in passes;
        assert forall p | p in passes[1..] :: p in passes;
      }
    }
  }

  /** The files a trigger finds, after closing the current one. */
  function Targets(b: Buf, start: Option<int>, end: Option<int>): seq<string> {
    Selected(Finalize(b).files, start, end)
  }

  /** The passes of one trigger. */
  function NewPasses(b: Buf, b': Buf): seq<Pass>
    requires b.passes <= b'.passes
  {
    b'.passes[|b.passes|..]
  }

  lemma TargetsDue(b: Buf, start: Option<int>, end: Option<int>)
    requires PathsOk(b)
    ensures Sorted(Selected(b.files, start, end)) && AllDue(b, Selected(b.files, start, end))
  {
    SelectedFacts(b.files, start, end);
    forall p | p in Selected(b.files, start, end) ensures exists i | 0 <= i < |b.files| :: DueAt(b, p, i) {
      var i :| 0 <= i < |b.files| && b.files[i].path == p && Wanted(b.files[i], start, end);
      assert DueAt(b, p, i);
    }
  }

  /**
   One trigger, whatever the uploader answers. The invariant is kept, no file is left open, each
   selected file gets exactly one in-order pass, and the events are one error per failed file
   followed by the one completion that says whether to go live.
   */
  lemma TriggerKeeps(b: Buf, start: Option<int>, end: Option<int>, createAt: nat, put: nat -> bool,
                     removes: string -> bool)
    requires Valid(b) && (Targets(b, start, end) != [] ==> FreshName(b, createAt))
    ensures var b' := Trigger(b, start, end, createAt, put, removes);
            && Valid(b') && b'.current.None? && b'.pushed == b.pushed && b'.popped == b.popped
            && b.passes <= b'.passes
            && PassesFor(b'.contents, NewPasses(b, b'), Targets(b, start, end))
            && b'.events == b.events + ErrorsOf(NewPasses(b, b')) + [HistoricalUploadComplete(end.None?)]
            && ((forall n :: put(n)) ==> forall p | p in NewPasses(b, b') :: p.complete)
            && (forall n | n in b.contents :: n in b'.contents && b'.contents[n] == b.contents[n])
  {
    hide Valid;
    FinalizeFacts(b);
    if Targets(b, start, end) == [] {
      var b1, done := Finalize(b), HistoricalUploadComplete(end.None?);
      NotifyKeeps(b1, done);
      assert b1.passes[|b.passes|..] == [];
    } else {
      TriggerUploads(b, start, end, createAt, put, removes);
    }
  }

  /** The case in which there is something to upload. */
  lemma TriggerUploads(b: Buf, start: Option<int>, end: Option<int>, createAt: nat, put: nat -> bool,
                       removes: string -> bool)
    requires Valid(b) && FreshName(b, createAt) && Targets(b, start, end) != []
    ensures var b' := Trigger(b, start, end, createAt, put, removes);
            && Valid(b') && b'.current.None? && b'.pushed == b.pushed && b'.popped == b.popped
            && b.passes <= b'.passes
            && PassesFor(b'.contents, NewPasses(b, b'), Targets(b, start, end))
            && b'.events == b.events + ErrorsOf(NewPasses(b, b')) + [HistoricalUploadComplete(end.None?)]
            && ((forall n :: put(n)) ==> forall p | p in NewPasses(b, b') :: p.complete)
            && (forall n | n in b.contents :: n in b'.contents && b'.contents[n] == b.contents[n])
  {
    hide Consistent, Valid;
    var b1, paths := Finalize(b), Targets(b, start, end);
    FinalizeFacts(b);
    TargetsDue(b1, start, end);
    assert NewName(b1, createAt) == NewName(b, createAt);
    StartNewKeeps(b1, createAt, createAt);
    StartNewNames(b1, createAt, createAt);
    hide PathsOk, NamesOk, Selected, FreshName, ErrorsOf;
    var b2 := StartNew(b1, createAt, createAt);
    DueFrame(b1, b2, paths);
    UploadFilesKeeps(b2, paths, put, removes, 0);
    var b3 := UploadFiles(b2, paths, put, removes, 0);
    hide UploadFiles, AllDue, Sorted, PassesFor;
    DropEmptyKeeps(b3);
    NotifyKeeps(b3.(current := None), HistoricalUploadComplete(end.None?));
  }

  lemma FinalizeFacts(b: Buf)
    requires Valid(b)
    ensures var b1 := Finalize(b);
            && Valid(b1) && Consistent(b1) && NamesOk(b1) && PathsOk(b1)
            && b1 == b.(files := b1.files, current := None)
  {
    FinalizeKeeps(b);
  }

  lemma DueFrame(b: Buf, b': Buf, paths: seq<string>)
    requires AllDue(b, paths) && b'.files == b.files
    ensures AllDue(b', paths)
  {
    forall p | p in paths ensures exists i | 0 <= i < |b'.files| :: DueAt(b', p, i) {
      var i :| 0 <= i < |b.files| && DueAt(b, p, i);
      assert DueAt(b', p, i);
    }
  }

  /** No part of the invariant looks at the event channel. */
  lemma NotifyKeeps(b: Buf, e: Event)
    requires Valid(b)
    ensures Valid(Notify(b, e))
  {
    var b' := Notify(b, e);
    assert NamesOk(b') && PathsOk(b') by { NotifyNames(b, e); }
    assert FilesOk(b') by { FilesFrame(b, b'); }
    assert MetaOk(b') && OrderOk(b') by { NotifyMeta(b, e); }
    assert PassesOk(b') && AccountOk(b') by { NotifyPasses(b, e); }
    hide NamesOk, PathsOk, FilesOk, MetaOk, OrderOk, PassesOk, AccountOk;
  }

  lemma NotifyNames(b: Buf, e: Event)
    requires NamesOk(b) && PathsOk(b)
    ensures NamesOk(Notify(b, e)) && PathsOk(Notify(b, e))
  {
    PathsKept(b, Notify(b, e));
  }

  lemma NotifyMeta(b: Buf, e: Event)
    requires MetaOk(b) && OrderOk(b)
    ensures MetaOk(Notify(b, e)) && OrderOk(Notify(b, e))
  {
  }

  lemma NotifyPasses(b: Buf, e: Event)
    requires PassesOk(b) && AccountOk(b)
    ensures PassesOk(Notify(b, e)) && AccountOk(Notify(b, e))
  {
    var b' := Notify(b, e);
    PassOkFrame(b, b');
    TrackedMono(b, b');
    AccountFrame(b, b');
  }

  /** Order within one trigger: what it gets accepted is a subsequence of push order. */
  lemma TriggerOrder(b: Buf, start: Option<int>, end: Option<int>, createAt: nat, put: nat -> bool,
                     removes: string -> bool)
    requires Valid(b) && (Targets(b, start, end) != [] ==> FreshName(b, createAt))
    ensures var b' := Trigger(b, start, end, createAt, put, removes);
            && b.passes <= b'.passes
            && IsSubsequence(Accepted(NewPasses(b, b')), StoredAll(b.pushed[b.popped..]))
            && IsSubsequence(Accepted(NewPasses(b, b')), StoredAll(b.pushed))
            && ((forall n :: put(n)) ==>
                  Accepted(NewPasses(b, b')) == StoredAll(FlattenNames(Targets(b, start, end), b.contents)))
  {
    TriggerKeeps(b, start, end, createAt, put, removes);
    TargetsInOrder(b, start, end);
    hide Valid, Trigger, Finalize, FreshName, IsSubsequence, Accepted, FlattenNames, PassesFor, Selected;
    var b', paths := Trigger(b, start, end, createAt, put, removes), Targets(b, start, end);
    var passes, all := NewPasses(b, b'), FlattenNames(paths, b.contents);
    FlattenFrame(paths, b.contents, b'.contents);
    AcceptedIsSubsequence(b'.contents, passes, paths);
    StoredSubsequence(all, b.pushed[b.popped..]);
    SubsequenceTransitive(Accepted(passes), StoredAll(all), StoredAll(b.pushed[b.popped..]));
    StoredSuffix(b.pushed, b.popped);
    SuffixSubsequence(Accepted(passes), StoredAll(b.pushed), b.popped);
  }

  lemma StoredSuffix(fs: seq<Fragment>, k: nat)
    requires k <= |fs|
    ensures StoredAll(fs)[k..] == StoredAll(fs[k..])
  {
  }

  lemma TargetsInOrder(b: Buf, start: Option<int>, end: Option<int>)
    requires Valid(b)
    ensures forall p | p in Targets(b, start, end) :: p in b.contents
    ensures b.popped <= |b.pushed|
    ensures IsSubsequence(FlattenNames(Targets(b, start, end), b.contents), b.pushed[b.popped..])
  {
    TargetsInContents(b, start, end);
    FinalizeKeeps(b);
    var b1, paths := Finalize(b), Targets(b, start, end);
    Parts(b1);
    hide Valid, Consistent;
    SelectedFacts(b1.files, start, end);
    FlattenSubsequence(paths, Paths(b1.files), b1.contents);
    assert FlattenFiles(b1.files, b1.contents) + [] == FlattenFiles(b1.files, b1.contents);
  }

  lemma TargetsInContents(b: Buf, start: Option<int>, end: Option<int>)
    requires Valid(b)
    ensures forall p | p in Targets(b, start, end) :: p in b.contents
  {
    FinalizeKeeps(b);
    var b1 := Finalize(b);
    SelectedFacts(b1.files, start, end);
    forall p | p in Targets(b, start, end) ensures p in b.contents {
      var i :| 0 <= i < |b1.files| && b1.files[i].path == p && Wanted(b1.files[i], start, end);
      assert b1.files[i].path in b1.contents;
    }
  }

  lemma {:induction false} SubsequenceTransitive<T>(a: seq<T>, b: seq<T>, c: seq<T>)
    requires IsSubsequence(a, b) && IsSubsequence(b, c)
    ensures IsSubsequence(a, c)
    decreases |c|
  {
    if a == [] || b == [] {
    } else if b[0] != c[0] || !IsSubsequence(b[1..], c[1..]) {
      SubsequenceTransitive(a, b, c[1..]);
    } else if a[0] == b[0] && IsSubsequence(a[1..], b[1..]) {
      SubsequenceTransitive(a[1..], b[1..], c[1..]);
    } else {
      SubsequenceTransitive(a, b[1..], c[1..]);
    }
  }

  predicate Nondecreasing(fs: seq<Fragment>) {
    forall i, j | 0 <= i <= j < |fs| :: fs[i].timestampNs <= fs[j].timestampNs
  }

  predicate InRange(f: Fragment, start: Option<int>, end: Option<int>) {
    (start.Some? ==> start.value <= f.timestampNs) && (end.Some? ==> f.timestampNs <= end.value)
  }

  /**
   Completeness: when every put is accepted, a trigger delivers every fragment whose timestamp lies
   in the range, from every file of this run that is not uploaded and has retries left.
   */
  lemma TriggerCompleteness(b: Buf, start: Option<int>, end: Option<int>, createAt: nat, put: nat -> bool,
                            removes: string -> bool, i: nat, j: nat)
    requires Valid(b) && (Targets(b, start, end) != [] ==> FreshName(b, createAt)) && forall n :: put(n)
    requires var files := Finalize(b).files;
             && i < |files| && !files[i].uploaded && files[i].attempts < MAX_UPLOAD_RETRIES
             && files[i].path in b.contents && files[i].path !in b.recovered
             && Nondecreasing(b.contents[files[i].path])
             && j < |b.contents[files[i].path]| && InRange(b.contents[files[i].path][j], start, end)
    ensures var b' := Trigger(b, start, end, createAt, put, removes);
            && b.passes <= b'.passes
            && Stored(b.contents[Finalize(b).files[i].path][j]) in Accepted(NewPasses(b, b'))
  {
    hide Valid, Consistent, Trigger, FreshName;
    var b1 := Finalize(b);
    var f, paths := b1.files[i], Targets(b, start, end);
    var c, all := b.contents[f.path], FlattenNames(paths, b.contents);
    TriggerOrder(b, start, end, createAt, put, removes);
    InRangeIsWanted(b, start, end, i, j);
    hide Finalize;
    FlattenContains(paths, b.contents, f.path, j);
    var k :| 0 <= k < |all| && all[k] == c[j];
    assert StoredAll(all)[k] == Stored(c[j]);
  }

  lemma InRangeIsWanted(b: Buf, start: Option<int>, end: Option<int>, i: nat, j: nat)
    requires Valid(b)
    requires var files := Finalize(b).files;
             && i < |files| && !files[i].uploaded && files[i].attempts < MAX_UPLOAD_RETRIES
             && files[i].path in b.contents && files[i].path !in b.recovered
             && Nondecreasing(b.contents[files[i].path])
             && j < |b.contents[files[i].path]| && InRange(b.contents[files[i].path][j], start, end)
    ensures Finalize(b).files[i].path in Targets(b, start, end)
  {
    FinalizeKeeps(b);
    var b1 := Finalize(b);
    assert MetaOk(b1);
    assert b1.contents == b.contents && b1.recovered == b.recovered;
    hide Valid, Consistent, Finalize, Wanted, InRange, Nondecreasing;
    assert MetaAgrees(b1.files[i], b1.contents[b1.files[i].path]);
    hide MetaOk, MetaAgrees;
    MemberInRange(b1.files[i], b1.contents[b1.files[i].path], start, end, j);
    SelectedMembers(b1.files, start, end);
  }

  lemma MemberInRange(f: MegaFile, c: seq<Fragment>, start: Option<int>, end: Option<int>, j: nat)
    requires MetaAgrees(f, c) && !f.uploaded && f.attempts < MAX_UPLOAD_RETRIES
    requires Nondecreasing(c) && j < |c| && InRange(c[j], start, end)
    ensures Wanted(f, start, end)
  {
    assert c[0].timestampNs <= c[j].timestampNs <= c[|c| - 1].timestampNs;
  }

  lemma {:induction false} FlattenContains(names: seq<string>, c: map<string, seq<Fragment>>, n: string, j: nat)
    requires n in names && n in c && j < |c[n]|
    ensures c[n][j] in FlattenNames(names, c)
  {
    var head, rest := if names[0] in c then c[names[0]] else [], FlattenNames(names[1..], c);
    if names[0] == n {
      assert FlattenNames(names, c)[j] == c[n][j];
    } else {
      assert n in names[1..];
      FlattenContains(names[1..], c, n, j);
      var k :| 0 <= k < |rest| && rest[k] == c[n][j];
      assert FlattenNames(names, c)[|head| + k] == c[n][j];
    }
  }

  // ---- runs ----

  datatype Op =
    | DoPush(fragment: Fragment, checkAt: int, createAt: nat)
    | DoTrigger(start: Option<int>, end: Option<int>, createAt: nat, put: nat -> bool, removes: string -> bool)
    | DoCleanup(now: int, removes: string -> bool)

  /** The assumptions on one operation: a fragment that fits in memory, a clock that moved on if a file is created. */
  predicate OpOk(b: Buf, op: Op) {
    match op
    case DoPush(f, checkAt, createAt) => Pushable(f) && (ShouldRotate(b, checkAt) ==> FreshName(b, createAt))
    case DoTrigger(start, end, createAt, _, _) => Targets(b, start, end) != [] ==> FreshName(b, createAt)
    case DoCleanup(_, _) => true
  }

  function Do(b: Buf, op: Op): Buf {
    match op
    case DoPush(f, checkAt, createAt) => Push(b, f, checkAt, createAt)
    case DoTrigger(start, end, createAt, put, removes) => Trigger(b, start, end, createAt, put, removes)
    case DoCleanup(now, removes) => Cleanup(b, now, removes)
  }

  function Run(b: Buf, ops: seq<Op>): Buf
    decreases |ops|
  {
    if ops == [] then b else Run(Do(b, ops[0]), ops[1..])
  }

  /** Every operation of the run meets its assumptions. */
  predicate RunOk(b: Buf, ops: seq<Op>)
    decreases |ops|
  {
    ops == [] || (OpOk(b, ops[0]) && RunOk(Do(b, ops[0]), ops[1..]))
  }

  function PushedBy(ops: seq<Op>): seq<Fragment> {
    if ops == [] then [] else (if ops[0].DoPush? then [ops[0].fragment] else []) + PushedBy(ops[1..])
  }

  lemma DoKeeps(b: Buf, op: Op)
    requires Valid(b) && OpOk(b, op)
    ensures Valid(Do(b, op))
    ensures Do(b, op).pushed == b.pushed + (if op.DoPush? then [op.fragment] else [])
  {
    hide Valid;
    match op
    case DoPush(f, checkAt, createAt) => PushKeeps(b, f, checkAt, createAt);
    case DoTrigger(start, end, createAt, put, removes) => TriggerKeeps(b, start, end, createAt, put, removes);
    case DoCleanup(now, removes) => CleanupKeeps(b, now, removes); CleanupPushed(b, now, removes);
  }

  lemma {:induction false} CleanupPushed(b: Buf, now: int, removes: string -> bool)
    ensures Cleanup(b, now, removes).pushed == b.pushed
    decreases |b.files|
  {
    if b.files == [] || !Expired(b, b.files[0], now) {
    } else {
      CleanupPushed(PopFront(b, removes(b.files[0].path)), now, removes);
    }
  }

  /** Every run keeps the invariant, and records exactly the pushed fragments, in order. */
  lemma {:induction false} RunKeeps(b: Buf, ops: seq<Op>)
    requires Valid(b) && RunOk(b, ops)
    ensures Valid(Run(b, ops)) && Run(b, ops).pushed == b.pushed + PushedBy(ops)
    decreases |ops|
  {
    hide Valid, Do, OpOk;
    if ops == [] {
    } else {
      var b', tail := Do(b, ops[0]), PushedBy(ops[1..]);
      var one: seq<Fragment> := if ops[0].DoPush? then [ops[0].fragment] else [];
      DoKeeps(b, ops[0]);
      RunKeeps(b', ops[1..]);
      assert PushedBy(ops) == one + tail;
      hide PushedBy;
      assert b.pushed + one + tail == b.pushed + (one + tail);
    }
  }

  /** A manager on an empty directory. */
  function Fresh(stream: string, maxAge: nat): Buf {
    Buf(stream, maxAge, [], None, map[], [], [], map[], {}, [], 0, [])
  }

  // ---- what the invariant means ----

  /** A file gone from the disk was wholly accepted first, in order, in one pass. */
  lemma DeletedOnlyAfterAcceptance(b: Buf, n: string)
    requires Valid(b) && n in b.names && n !in b.disk
    ensures exists p | p in b.passes :: p.path == n && p.accepted == StoredAll(b.contents[n])
  {
    var i :| 0 <= i < |b.passes| && b.passes[i].path == n && b.passes[i].complete;
    assert b.passes[i] in b.passes && PassOk(b, b.passes[i]);
  }

  /** Marked uploaded exactly when some pass got everything accepted; at most five passes fail. */
  lemma UploadedMeansAccepted(b: Buf, i: nat)
    requires Valid(b) && i < |b.files|
    ensures b.files[i].path in b.contents
    ensures b.files[i].uploaded <==>
            exists p | p in b.passes :: p.path == b.files[i].path && p.accepted == StoredAll(b.contents[p.path])
    ensures FailedPasses(b.passes, b.files[i].path) <= MAX_UPLOAD_RETRIES
  {
    var n := b.files[i].path;
    if b.files[i].uploaded {
      var k :| 0 <= k < |b.passes| && b.passes[k].path == n && b.passes[k].complete;
      assert b.passes[k] in b.passes && PassOk(b, b.passes[k]);
    }
    if p :| p in b.passes && p.path == n && p.path in b.contents && p.accepted == StoredAll(b.contents[p.path]) {
      assert PassOk(b, p);
      var k :| 0 <= k < |b.passes| && b.passes[k] == p;
      assert HasComplete(b.passes, n);
    }
  }

  /** The bytes of file n hold its fragments, and the manager will get to them. */
  predicate OnDisk(b: Buf, n: string) {
    && n in b.disk && n in b.contents
    && ReadAll(b.disk[n]) == ReadAllResult(StoredAll(b.contents[n]), false)
    && (IsTracked(b, n) || HasCurrentPath(b, n))
  }

  predicate WasAccepted(b: Buf, n: string) {
    n in b.contents && exists p | p in b.passes :: p.path == n && p.accepted == StoredAll(b.contents[n])
  }

  /** Conservation: every fragment ever pushed is on disk in a tracked file, or was accepted in full. */
  lemma NothingIsLost(b: Buf, j: nat)
    requires Valid(b) && j < |b.pushed|
    ensures exists n | n in b.contents :: b.pushed[j] in b.contents[n] && (OnDisk(b, n) || WasAccepted(b, n))
  {
    var n := FlattenSource(b.names, b.contents, j);
    assert n in b.contents && FileOk(b, n);
    if HasComplete(b.passes, n) {
      var k :| 0 <= k < |b.passes| && b.passes[k].path == n && b.passes[k].complete;
      assert b.passes[k] in b.passes && PassOk(b, b.passes[k]);
      assert WasAccepted(b, n);
    } else {
      assert OnDisk(b, n);
    }
  }

  lemma {:induction false} FlattenSource(names: seq<string>, c: map<string, seq<Fragment>>, j: nat) returns (n: string)
    requires j < |FlattenNames(names, c)|
    ensures n in names && n in c && FlattenNames(names, c)[j] in c[n]
  {
    var head := if names[0] in c then c[names[0]] else [];
    if j < |head| {
      n := names[0];
    } else {
      n := FlattenSource(names[1..], c, j - |head|);
    }
  }

  /** No file outgrows the 50 MB limit as long as no single record exceeds 5 MB. */
  lemma FileSizeBound(b: Buf, n: string)
    requires Valid(b) && n in b.names && n !in b.recovered && n in b.disk
    ensures var c := b.contents[n];
            |b.disk[n]| < MEGA_CLUSTER_MAX_SIZE + |if c == [] then [0] else Record(c[|c| - 1])|
    ensures (forall f | f in b.contents[n] :: |Record(f)| <= 5_000_000) ==> |b.disk[n]| < 50_000_000
  {
    assert n in b.contents && FileOk(b, n);
    hide Valid;
    SizeBound(b.contents[n]);
  }

  lemma SizeBound(c: seq<Fragment>)
    requires SizeOk(c)
    ensures |Log(c)| < MEGA_CLUSTER_MAX_SIZE + |if c == [] then [0] else Record(c[|c| - 1])|
    ensures (forall f | f in c :: |Record(f)| <= 5_000_000) ==> |Log(c)| < 50_000_000
  {
    if c != [] {
      hide Log, Record;
      var front, last := c[..|c| - 1], c[|c| - 1];
      LogSnoc(front, last);
      assert front + [last] == c && last in c;
    }
  }

  // ---- the clock ----

  /** One millisecond between creations is enough, as long as stamps keep their number of digits. */
  lemma ClockGivesFreshNames(b: Buf, stamps: seq<nat>, createAt: nat)
    requires |stamps| == |b.names| && forall i | 0 <= i < |stamps| :: b.names[i] == FileName(b.stream, stamps[i])
    requires forall i | 0 <= i < |stamps| :: 1_000_000_000_000 <= stamps[i] < createAt / NS_PER_MS
    requires createAt / NS_PER_MS < 10_000_000_000_000
    ensures FreshName(b, createAt)
  {
    forall n | n in b.names ensures Less(n, NewName(b, createAt)) {
      var i :| 0 <= i < |b.names| && b.names[i] == n;
      StampsOfOneLength(stamps[i]);
      StampsOfOneLength(createAt / NS_PER_MS);
      FileNameOrder(b.stream, stamps[i], createAt / NS_PER_MS);
    }
  }

  /**
   What the assumption on the clock rules out: a fragment pushed and a trigger started within one
   millisecond. The trigger's new file truncates the only copy, which then counts as uploaded.
   */
  lemma SameMillisecondLosesFragment(stream: string, maxAge: nat, f: Fragment, t: nat, put: nat -> bool,
                                     removes: string -> bool)
    requires Pushable(f)
    ensures var b := Push(Fresh(stream, maxAge), f, t, t);
            var b' := Trigger(b, None, None, t, put, removes);
            && b.pushed == [f] && b'.passes == [Pass(NewName(b, t), [], true)]
            && |b'.files| == 1 && b'.files[0].uploaded && b'.current.None?
            && (forall n | n in b'.disk :: b'.disk[n] == [])
  {
    var b0 := Fresh(stream, maxAge);
    var n := NewName(b0, t);
    var b := Push(b0, f, t, t);
    assert Rotated(b0, f, t, t) == StartNew(b0, t, f.timestampNs);
    var b1 := Finalize(b);
    var files := [Finished(b.current.value)];
    assert b1.files == files && files[1..] == [];
    assert Selected(files, None, None) == [n] + Selected([], None, None) == [n];
    var b2 := StartNew(b1, t, t);
    assert b2.disk == map[n := []] && b2.files == files;
    assert ReadAll([]) == ReadAllResult([], false);
    assert UploadFile(b2.disk, n, put, 0) == Puts([], true, 0);
    assert IndexOf(files, n) == 0;
    var b3 := RecordPass(b2, Pass(n, [], true), removes(n));
    assert [n][1..] == [];
    assert UploadFiles(b2, [n], put, removes, 0) == UploadFiles(b3, [], put, removes, 0) == b3;
    assert Trigger(b, None, None, t, put, removes) == Notify(b3.(current := None), HistoricalUploadComplete(true));
  }
}
