/**
 The mega-cluster file: an append-only log of fragments, and the reader that recovers
 every complete record of it however the tail was cut off.
 */
module RecordLog {
  import opened Bytes

  /** A finalized fragment. Times are nanoseconds; the timestamp is relative to the Unix epoch. */
  datatype Fragment = Fragment(header: seq<byte>, cluster: seq<byte>, durationNs: nat, timestampNs: int)

  const META_SIZE: nat := 32

  /** What Rust's types guarantee of a fragment: buffer lengths and the range of a ClockTime. */
  predicate Storable(f: Fragment) {
    && |f.header| <= MAX_BUFFER
    && |f.cluster| <= MAX_BUFFER
    && f.durationNs < U64 - 1
  }

  // `duration_since(UNIX_EPOCH)` with `unwrap_or(ZERO)`, then `as_millis() as u64`.
  function TimestampMs(t: int): (ms: nat)
    ensures ms < U64
  {
    (if t < 0 then 0 else t / NS_PER_MS) % U64
  }

  function DurationMs(d: nat): nat { d / NS_PER_MS }

  /** What survives a trip through the disk: both times floored to milliseconds. */
  function Stored(f: Fragment): Fragment {
    Fragment(f.header, f.cluster, DurationMs(f.durationNs) * NS_PER_MS, TimestampMs(f.timestampNs) * NS_PER_MS)
  }

  function StoredAll(fs: seq<Fragment>): (r: seq<Fragment>)
    ensures |r| == |fs|
    ensures forall i | 0 <= i < |fs| :: r[i] == Stored(fs[i])
  {
    seq(|fs|, i requires 0 <= i < |fs| => Stored(fs[i]))
  }

  lemma StoredConcat(a: seq<Fragment>, b: seq<Fragment>)
    ensures StoredAll(a + b) == StoredAll(a) + StoredAll(b)
  {
  }

  function Meta(f: Fragment): (s: seq<byte>)
    ensures |s| == META_SIZE
  {
    ToLE(|f.cluster|, 8) + ToLE(TimestampMs(f.timestampNs), 8) + ToLE(DurationMs(f.durationNs), 8) + ToLE(|f.header|, 8)
  }

  function Record(f: Fragment): (s: seq<byte>)
    ensures |s| == META_SIZE + |f.header| + |f.cluster|
  {
    Meta(f) + f.header + f.cluster
  }

  /** In numbers: the bytes are the same, and less than a millisecond is lost of either time; before the epoch is 0. */
  predicate FlooredToMs(f: Fragment, g: Fragment) {
    && g.header == f.header && g.cluster == f.cluster
    && g.durationNs % 1_000_000 == 0 && g.durationNs <= f.durationNs < g.durationNs + 1_000_000
    && (f.timestampNs < 0 ==> g.timestampNs == 0)
    && (0 <= f.timestampNs < 1_000_000 * U64 ==>
          g.timestampNs % 1_000_000 == 0 && g.timestampNs <= f.timestampNs < g.timestampNs + 1_000_000)
  }

  lemma StoredFloors(f: Fragment)
    ensures FlooredToMs(f, Stored(f))
  {
  }

  lemma WordsInNumbers(f: Fragment)
    ensures 0 <= f.timestampNs < 1_000_000 * U64 ==> TimestampMs(f.timestampNs) == f.timestampNs / 1_000_000
    ensures f.timestampNs < 0 ==> TimestampMs(f.timestampNs) == 0
    ensures DurationMs(f.durationNs) == f.durationNs / 1_000_000
  {
  }

  /** The layout of a record: four little-endian words, in this order, then the headers, then the cluster. */
  lemma RecordLayout(f: Fragment)
    requires Storable(f)
    ensures |Record(f)| == 32 + |f.header| + |f.cluster|
    ensures FromLE(Record(f)[0..8]) == |f.cluster|
    ensures 0 <= f.timestampNs < 1_000_000 * U64 ==> FromLE(Record(f)[8..16]) == f.timestampNs / 1_000_000
    ensures f.timestampNs < 0 ==> FromLE(Record(f)[8..16]) == 0
    ensures FromLE(Record(f)[16..24]) == f.durationNs / 1_000_000
    ensures FromLE(Record(f)[24..32]) == |f.header|
    ensures Record(f)[32..] == f.header + f.cluster
  {
    var r, h := Record(f), META_SIZE + |f.header|;
    RecordSlices(f);
    hide Meta, FromLE, ToLE, Record;
    MetaWords(r, 0, f);
    assert r[META_SIZE..] == r[META_SIZE..h] + r[h..h + |f.cluster|];
    hide TimestampMs, DurationMs;
    WordsInNumbers(f);
  }

  /** The bytes of a file holding exactly these fragments. */
  function Log(fs: seq<Fragment>): seq<byte> {
    if fs == [] then [] else Record(fs[0]) + Log(fs[1..])
  }

  predicate AllStorable(fs: seq<Fragment>) {
    forall f | f in fs :: Storable(f)
  }

  datatype ReadResult =
    | Item(fragment: Fragment, next: nat) // `Some(Ok(fragment))`, and where the offset moved to
    | End(next: nat)                      // `None`, and where the offset moved to
    | Panic                               // an index computation left its type, or an out-of-range duration

  function U64At(data: seq<byte>, p: nat): nat
    requires p + 8 <= |data|
  {
    FromLE(data[p..p + 8])
  }

  /** One call of the reader at an offset, with the overflow of `offset + size` made explicit. */
  function ReadAt(data: seq<byte>, offset: nat): (r: ReadResult)
    requires offset <= |data|
    ensures r.Item? ==> offset + META_SIZE <= r.next <= |data|
    ensures r.End? ==> offset <= r.next <= |data|
  {
    if offset + META_SIZE > |data| then End(offset)
    else
      var clusterSize := U64At(data, offset);
      var timestampMs := U64At(data, offset + 8);
      var durationMs := U64At(data, offset + 16);
      var headerSize := U64At(data, offset + 24);
      var start := offset + META_SIZE;
      var headerEnd := start + headerSize;
      if headerEnd >= U64 then Panic
      else if headerEnd > |data| then End(start)
      else
        var clusterEnd := headerEnd + clusterSize;
        if clusterEnd >= U64 then Panic
        else if clusterEnd > |data| then End(headerEnd)
        else if durationMs * NS_PER_MS >= U64 - 1 then Panic
        else
          Item(Fragment(data[start..headerEnd], data[headerEnd..clusterEnd],
                        durationMs * NS_PER_MS, timestampMs * NS_PER_MS), clusterEnd)
  }

  /**
   What a reader finds at an offset of any bytes whatever, damaged ones included: a fragment if and only if the
   32 bytes of metadata and the headers and cluster they announce are there and the duration is in range. It
   panics if and only if an end it computes leaves its type, or the duration does; otherwise the reader stops, having
   moved past what was there.
   */
  lemma ReadAtIff(data: seq<byte>, offset: nat)
    requires offset <= |data| <= MAX_BUFFER
    ensures ReadAt(data, offset).Item? <==>
            && offset + 32 <= |data|
            && offset + 32 + FromLE(data[offset + 24..offset + 32]) + FromLE(data[offset..offset + 8]) <= |data|
            && FromLE(data[offset + 16..offset + 24]) * 1_000_000 < U64 - 1
    ensures ReadAt(data, offset).Item? ==>
              var h, c := FromLE(data[offset + 24..offset + 32]), FromLE(data[offset..offset + 8]);
              var r := ReadAt(data, offset);
              && r.next == offset + 32 + h + c && |r.fragment.header| == h
              && r.fragment.header + r.fragment.cluster == data[offset + 32..r.next]
              && r.fragment.timestampNs == FromLE(data[offset + 8..offset + 16]) * 1_000_000
              && r.fragment.durationNs == FromLE(data[offset + 16..offset + 24]) * 1_000_000
    ensures ReadAt(data, offset).Panic? <==>
            && offset + 32 <= |data|
            && var h, c := FromLE(data[offset + 24..offset + 32]), FromLE(data[offset..offset + 8]);
               || offset + 32 + h >= U64
               || (offset + 32 + h <= |data| && offset + 32 + h + c >= U64)
               || (offset + 32 + h + c <= |data| && FromLE(data[offset + 16..offset + 24]) * 1_000_000 >= U64 - 1)
    ensures ReadAt(data, offset).End? ==>
              ReadAt(data, offset).next ==
                if offset + 32 > |data| then offset
                else if offset + 32 + FromLE(data[offset + 24..offset + 32]) > |data| then offset + 32
                else offset + 32 + FromLE(data[offset + 24..offset + 32])
  {
    hide FromLE;
  }

  datatype ReadAllResult = ReadAllResult(fragments: seq<Fragment>, panicked: bool)

  /** Reading until the first `None`. */
  function ReadFrom(data: seq<byte>, offset: nat): ReadAllResult
    requires offset <= |data|
    decreases |data| - offset
  {
    match ReadAt(data, offset)
    case End(_) => ReadAllResult([], false)
    case Panic => ReadAllResult([], true)
    case Item(f, next) =>
      var rest := ReadFrom(data, next);
      ReadAllResult([f] + rest.fragments, rest.panicked)
  }

  function ReadAll(data: seq<byte>): ReadAllResult { ReadFrom(data, 0) }

  /** The number of leading fragments whose records lie wholly within the first n bytes. */
  function CompleteRecords(fs: seq<Fragment>, n: nat): (k: nat)
    ensures k <= |fs|
  {
    if fs == [] || |Record(fs[0])| > n then 0
    else 1 + CompleteRecords(fs[1..], n - |Record(fs[0])|)
  }

  lemma {:induction false} CompleteRecordsMeaning(fs: seq<Fragment>, n: nat, k: nat)
    requires k <= |fs|
    ensures k <= CompleteRecords(fs, n) <==> |Log(fs[..k])| <= n
  {
    if k == 0 {
    } else {
      var f := fs[0];
      assert fs[..k][0] == f && fs[..k][1..] == fs[1..][..k - 1];
      if |Record(f)| <= n {
        CompleteRecordsMeaning(fs[1..], n - |Record(f)|, k - 1);
      }
    }
  }

  lemma {:induction false} LogAppend(a: seq<Fragment>, b: seq<Fragment>)
    ensures Log(a + b) == Log(a) + Log(b)
  {
    if a == [] {
      assert a + b == b;
    } else {
      assert (a + b)[1..] == a[1..] + b;
      LogAppend(a[1..], b);
    }
  }

  lemma LogSnoc(a: seq<Fragment>, f: Fragment)
    ensures Log(a + [f]) == Log(a) + Record(f)
  {
    LogAppend(a, [f]);
    assert [f][1..] == [];
    assert Log([f]) == Record(f) + [];
  }

  lemma SubSlice(s: seq<byte>, lo: nat, hi: nat, a: nat, b: nat)
    requires lo <= hi <= |s| && a <= b <= hi - lo
    ensures s[lo..hi][a..b] == s[lo + a..lo + b]
  {
    var u, v := s[lo..hi], s[lo + a..lo + b];
    assert forall i | 0 <= i < hi - lo :: u[i] == s[lo + i];
    assert forall i | 0 <= i < b - a :: v[i] == s[lo + (a + i)];
    assert u[a..b] == v;
  }

  /** The four metadata words at an offset, when all 32 bytes of them are there. */
  lemma MetaWords(data: seq<byte>, offset: nat, f: Fragment)
    requires Storable(f)
    requires offset + META_SIZE <= |data|
    requires data[offset..offset + META_SIZE] == Meta(f)
    ensures U64At(data, offset) == |f.cluster| && U64At(data, offset + 8) == TimestampMs(f.timestampNs)
    ensures U64At(data, offset + 16) == DurationMs(f.durationNs) && U64At(data, offset + 24) == |f.header|
  {
    Pow256Values();
    var c, t, d, h := ToLE(|f.cluster|, 8), ToLE(TimestampMs(f.timestampNs), 8), ToLE(DurationMs(f.durationNs), 8),
        ToLE(|f.header|, 8);
    var m := Meta(f);
    assert m[0..8] == c && m[8..16] == t && m[16..24] == d && m[24..32] == h;
    SubSlice(data, offset, offset + META_SIZE, 0, 8);
    SubSlice(data, offset, offset + META_SIZE, 8, 16);
    SubSlice(data, offset, offset + META_SIZE, 16, 24);
    SubSlice(data, offset, offset + META_SIZE, 24, 32);
    LittleEndianRoundTrip(|f.cluster|, 8);
    LittleEndianRoundTrip(TimestampMs(f.timestampNs), 8);
    LittleEndianRoundTrip(DurationMs(f.durationNs), 8);
    LittleEndianRoundTrip(|f.header|, 8);
  }

  lemma RecordSlices(f: Fragment)
    ensures Record(f)[0..META_SIZE] == Meta(f)
    ensures Record(f)[META_SIZE..META_SIZE + |f.header|] == f.header
    ensures Record(f)[META_SIZE + |f.header|..META_SIZE + |f.header| + |f.cluster|] == f.cluster
  {
  }

  /** A record that is wholly present is read back as stored. */
  lemma ReadComplete(data: seq<byte>, offset: nat, f: Fragment)
    requires Storable(f) && |data| <= MAX_BUFFER
    requires offset + |Record(f)| <= |data|
    requires data[offset..offset + |Record(f)|] == Record(f)
    ensures ReadAt(data, offset) == Item(Stored(f), offset + |Record(f)|)
  {
    var n := |Record(f)|;
    var h := META_SIZE + |f.header|;
    RecordSlices(f);
    hide Record, Meta;
    SubSlice(data, offset, offset + n, 0, META_SIZE);
    SubSlice(data, offset, offset + n, META_SIZE, h);
    SubSlice(data, offset, offset + n, h, n);
    MetaWords(data, offset, f);
    hide U64At;
  }

  /** A record cut short is never read: the reader stops, and does not panic. */
  lemma ReadTorn(data: seq<byte>, offset: nat, f: Fragment)
    requires Storable(f) && |data| <= MAX_BUFFER
    requires offset <= |data| < offset + |Record(f)|
    requires data[offset..|data|] == Record(f)[0..|data| - offset]
    ensures ReadAt(data, offset).End?
  {
    if offset + META_SIZE <= |data| {
      RecordSlices(f);
      SubSlice(data, offset, |data|, 0, META_SIZE);
      SubSlice(Record(f), 0, |data| - offset, 0, META_SIZE);
      MetaWords(data, offset, f);
    }
  }

  /** The bytes at an offset start with f's record: what follows it, and the step of the reader. */
  lemma ReadCutStep(data: seq<byte>, offset: nat, f: Fragment, rest: seq<byte>)
    requires Storable(f) && |data| <= MAX_BUFFER
    requires offset + |Record(f)| <= |data| <= offset + |Record(f)| + |rest|
    requires data[offset..|data|] == (Record(f) + rest)[0..|data| - offset]
    ensures ReadAt(data, offset) == Item(Stored(f), offset + |Record(f)|)
    ensures data[offset + |Record(f)|..|data|] == rest[0..|data| - offset - |Record(f)|]
  {
    var n, r, l := |data| - offset, |Record(f)|, Record(f) + rest;
    SubSlice(data, offset, |data|, 0, r);
    SubSlice(l, 0, n, 0, r);
    assert l[0..r] == Record(f);
    ReadComplete(data, offset, f);
    SubSlice(data, offset, |data|, r, n);
    SubSlice(l, 0, n, r, n);
    assert l[r..n] == rest[0..n - r];
  }

  lemma ReadFromItem(data: seq<byte>, offset: nat)
    requires offset <= |data| && ReadAt(data, offset).Item?
    ensures var r := ReadAt(data, offset);
            && ReadFrom(data, offset).fragments == [r.fragment] + ReadFrom(data, r.next).fragments
            && ReadFrom(data, offset).panicked == ReadFrom(data, r.next).panicked
  {
    hide ReadAt;
  }

  /** The first record is torn: nothing is read. */
  lemma ReadNone(data: seq<byte>, offset: nat, fs: seq<Fragment>)
    requires AllStorable(fs) && fs != [] && |data| <= MAX_BUFFER
    requires offset <= |data| < offset + |Record(fs[0])|
    requires data[offset..|data|] == Log(fs)[0..|data| - offset]
    ensures ReadFrom(data, offset) == ReadAllResult([], false)
  {
    var f, rest, n := fs[0], Log(fs[1..]), |data| - offset;
    assert f in fs;
    hide Record, Stored, AllStorable, ReadAt;
    SubSlice(Record(f) + rest, 0, |Record(f)|, 0, n);
    assert (Record(f) + rest)[0..|Record(f)|] == Record(f);
    ReadTorn(data, offset, f);
  }

  lemma {:induction false} ReadCutFrom(data: seq<byte>, offset: nat, fs: seq<Fragment>)
    requires AllStorable(fs) && |data| <= MAX_BUFFER
    requires offset <= |data| <= offset + |Log(fs)|
    requires data[offset..|data|] == Log(fs)[0..|data| - offset]
    ensures ReadFrom(data, offset) == ReadAllResult(StoredAll(fs[..CompleteRecords(fs, |data| - offset)]), false)
    decreases |fs|
  {
    hide Record, Stored, StoredAll, ReadAt, Storable;
    var n := |data| - offset;
    if fs == [] {
      assert ReadAt(data, offset).End? by { ReadNothing(data, offset); }
    } else if |Record(fs[0])| <= n {
      var f, rest, next := fs[0], Log(fs[1..]), offset + |Record(fs[0])|;
      assert f in fs;
      ReadCutStep(data, offset, f, rest);
      ReadFromItem(data, offset);
      hide ReadFrom;
      ReadCutFrom(data, next, fs[1..]);
      StoredCons(fs, CompleteRecords(fs[1..], |data| - next));
    } else {
      ReadNone(data, offset, fs);
    }
  }

  lemma ReadNothing(data: seq<byte>, offset: nat)
    requires offset == |data|
    ensures ReadAt(data, offset).End?
  {
  }

  lemma StoredCons(fs: seq<Fragment>, k: nat)
    requires k + 1 <= |fs|
    ensures StoredAll(fs[..1 + k]) == [Stored(fs[0])] + StoredAll(fs[1..][..k])
  {
  }

  /**
   Crash tolerance of the log: whatever the fragments and wherever the file was cut, reading
   until the first `None` gives exactly the records lying wholly within the cut.
   */
  lemma ReadCut(fs: seq<Fragment>, n: nat)
    requires AllStorable(fs)
    requires n <= |Log(fs)| && n <= MAX_BUFFER
    ensures ReadAll(Log(fs)[..n]) == ReadAllResult(StoredAll(fs[..CompleteRecords(fs, n)]), false)
    ensures forall k | 0 <= k <= |fs| :: k <= CompleteRecords(fs, n) <==> |Log(fs[..k])| <= n
    ensures forall i | 0 <= i < CompleteRecords(fs, n) :: FlooredToMs(fs[i], ReadAll(Log(fs)[..n]).fragments[i])
  {
    var data := Log(fs)[..n];
    assert data[0..|data|] == Log(fs)[0..n];
    ReadCutFrom(data, 0, fs);
    forall i | 0 <= i < CompleteRecords(fs, n) ensures FlooredToMs(fs[i], ReadAll(Log(fs)[..n]).fragments[i]) {
      StoredFloors(fs[i]);
    }
    hide ReadFrom, FlooredToMs, Record;
    forall k | 0 <= k <= |fs| ensures k <= CompleteRecords(fs, n) <==> |Log(fs[..k])| <= n {
      CompleteRecordsMeaning(fs, n, k);
    }
  }

  lemma StoredOnce(f: Fragment)
    requires Storable(f)
    ensures Storable(Stored(f)) && Record(Stored(f)) == Record(f) && Stored(Stored(f)) == Stored(f)
  {
    var g := Stored(f);
    assert TimestampMs(g.timestampNs) == TimestampMs(f.timestampNs);
    assert DurationMs(g.durationNs) == DurationMs(f.durationNs);
  }

  lemma {:induction false} StoredLog(fs: seq<Fragment>)
    requires AllStorable(fs)
    ensures Log(StoredAll(fs)) == Log(fs)
  {
    if fs == [] {
    } else {
      assert fs[0] in fs;
      StoredOnce(fs[0]);
      StoredLog(fs[1..]);
      assert StoredAll(fs)[1..] == StoredAll(fs[1..]);
    }
  }

  /**
   Codec round trip: a whole file reads back as every fragment with its times floored to
   milliseconds, and writing what was read produces the same bytes.
   */
  lemma ReadWhole(fs: seq<Fragment>)
    requires AllStorable(fs) && |Log(fs)| <= MAX_BUFFER
    ensures ReadAll(Log(fs)) == ReadAllResult(StoredAll(fs), false)
    ensures Log(ReadAll(Log(fs)).fragments) == Log(fs)
    ensures forall i | 0 <= i < |fs| :: FlooredToMs(fs[i], StoredAll(fs)[i])
  {
    hide FlooredToMs;
    forall i | 0 <= i < |fs| ensures FlooredToMs(fs[i], StoredAll(fs)[i]) { StoredFloors(fs[i]); }
    ReadCut(fs, |Log(fs)|);
    assert Log(fs)[..|Log(fs)|] == Log(fs);
    assert fs[..|fs|] == fs;
    StoredLog(fs);
  }

  /**
   The reader is not fused. After the metadata of a torn record its offset has moved past that
   metadata, so when the bytes that follow happen to form a whole record another call returns it.
   */
  lemma ReaderNotFused(torn: Fragment, whole: Fragment)
    requires Storable(torn) && Storable(whole)
    requires |Record(whole)| < |torn.header| && META_SIZE + |Record(whole)| <= MAX_BUFFER
    ensures ReadAt(Meta(torn) + Record(whole), 0) == End(META_SIZE)
    ensures ReadAt(Meta(torn) + Record(whole), META_SIZE) == Item(Stored(whole), META_SIZE + |Record(whole)|)
  {
    var data := Meta(torn) + Record(whole);
    assert data[0..META_SIZE] == Meta(torn);
    MetaWords(data, 0, torn);
    assert data[META_SIZE..META_SIZE + |Record(whole)|] == Record(whole);
    ReadComplete(data, META_SIZE, whole);
  }

  /** `ClusterFileReader`: the loaded bytes and the moving offset. */
  class ClusterFileReader {
    const data: seq<byte>
    var offset: nat

    ghost predicate Valid()
      reads this
    {
      offset <= |data|
    }

    constructor (data: seq<byte>)
      ensures Valid() && this.data == data && offset == 0
    {
      this.data := data;
      offset := 0;
    }

    /** The iterator step; a panic of the source is the third outcome. */
    method Next() returns (r: ReadResult)
      requires Valid()
      modifies this`offset
      ensures Valid()
      ensures r == ReadAt(data, old(offset))
      ensures !r.Panic? ==> offset == r.next
    {
      if offset + META_SIZE > |data| {
        return End(offset);
      }
      var clusterSize := U64At(data, offset);
      var timestampMs := U64At(data, offset + 8);
      var durationMs := U64At(data, offset + 16);
      var headerSize := U64At(data, offset + 24);
      offset := offset + META_SIZE;

      var headerEnd := offset + headerSize;
      if headerEnd >= U64 {
        return Panic;
      }
      if headerEnd > |data| {
        return End(offset);
      }
      var headers := data[offset..headerEnd];
      offset := headerEnd;

      var clusterEnd := offset + clusterSize;
      if clusterEnd >= U64 {
        return Panic;
      }
      if clusterEnd > |data| {
        return End(offset);
      }
      var cluster := data[offset..clusterEnd];
      offset := clusterEnd;

      if durationMs * NS_PER_MS >= U64 - 1 {
        return Panic;
      }
      return Item(Fragment(headers, cluster, durationMs * NS_PER_MS, timestampMs * NS_PER_MS), offset);
    }
  }
}
