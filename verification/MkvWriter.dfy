/**
 The MKV writer's arithmetic: presentation times rebased per session, absolute cluster times, 16-bit
 block offsets, fragment durations, and the bytes of the cluster timestamp. Headers and blocks
 themselves are opaque. All times are nanoseconds unless their name says milliseconds.
 */
module MkvWriters {
  import opened Wrappers
  import opened Bytes

  datatype Frame = Frame(pts: Option<nat>, duration: Option<nat>, size: nat)

  datatype WriteError = BeforeEpoch | EmptyFrame

  /** A cluster: its absolute time, that time's bytes, and each block's offset from it. */
  datatype Cluster = Cluster(timestampMs: nat, timestampBytes: seq<byte>, offsetsMs: seq<int>)

  datatype Output =
    | NoFrames                                      // headers only, zero duration
    | Written(cluster: Cluster, durationNs: nat)
    | Failed(error: WriteError)

  datatype Writer = Writer(streamStart: Option<nat>, ptsOffset: nat, wallStart: Option<int>)

  function New(): Writer { Writer(None, 0, None) }

  /** `reset_for_new_session`: pipeline time continues, stream time starts over. */
  function ResetForNewSession(w: Writer, pts: nat): Writer { Writer(None, pts, None) }

  function Pts(f: Frame): nat { if f.pts.Some? then f.pts.value else 0 }

  function NormalizePts(w: Writer, pts: nat): nat { if pts >= w.ptsOffset then pts - w.ptsOffset else 0 }

  function FragmentDuration(frames: seq<Frame>): nat
    requires frames != []
  {
    var first, last := Pts(frames[0]), Pts(frames[|frames| - 1]);
    if last >= first
    then last - first + (if frames[|frames| - 1].duration.Some? then frames[|frames| - 1].duration.value else 0)
    else 0
  }

  /** The first fragment of a session fixes where stream time and wall time start. */
  function Started(w: Writer, pts: nat, now: int): Writer {
    if w.streamStart.Some? then w else w.(streamStart := Some(NormalizePts(w, pts)), wallStart := Some(now))
  }

  function Elapsed(start: nat, normalized: nat): nat { if normalized >= start then normalized - start else 0 }

  /** `as i16` on a non-negative value. */
  function ToI16(v: nat): (r: int)
    ensures -0x8000 <= r < 0x8000
    ensures v < 0x8000 ==> r == v
    ensures (v - r) % 0x1_0000 == 0
  {
    if v % 0x1_0000 < 0x8000 then v % 0x1_0000 else v % 0x1_0000 - 0x1_0000
  }

  function Offset(w: Writer, clusterStart: nat, f: Frame): int {
    var n := NormalizePts(w, Pts(f));
    if n >= clusterStart then ToI16(n / NS_PER_MS - clusterStart / NS_PER_MS) else 0
  }

  function Offsets(w: Writer, clusterStart: nat, frames: seq<Frame>): (r: seq<int>)
    ensures |r| == |frames|
    ensures forall i | 0 <= i < |frames| :: r[i] == Offset(w, clusterStart, frames[i])
  {
    seq(|frames|, i requires 0 <= i < |frames| => Offset(w, clusterStart, frames[i]))
  }

  predicate NoEmptyFrame(frames: seq<Frame>) {
    forall f | f in frames :: f.size > 0
  }

  /** The big-endian bytes of an unsigned element, in the shortest of 1, 2, 4 or 8 bytes. */
  function TimestampBytes(v: nat): seq<byte>
    requires v < U64
  {
    if v <= 0xFF then ToBE(v, 1)
    else if v <= 0xFFFF then ToBE(v, 2)
    else if v <= 0xFFFF_FFFF then ToBE(v, 8)[4..]
    else ToBE(v, 8)
  }

  /** `finalize_fragment` on the writer's state. */
  function Finalize(w: Writer, frames: seq<Frame>, now: int): (Writer, Output) {
    if frames == [] then (w, NoFrames)
    else
      var w' := Started(w, Pts(frames[0]), now);
      if w'.wallStart.None? || w'.streamStart.None? then (w', Failed(BeforeEpoch))
      else
        var start := NormalizePts(w, Pts(frames[0]));
        var absolute := w'.wallStart.value + Elapsed(w'.streamStart.value, start);
        if absolute < 0 then (w', Failed(BeforeEpoch))
        else if !NoEmptyFrame(frames) then (w', Failed(EmptyFrame))
        else
          var ms := (absolute / NS_PER_MS) % U64;
          (w', Written(Cluster(ms, TimestampBytes(ms), Offsets(w', start, frames)), FragmentDuration(frames)))
  }

  /** A writer is either fresh or has both starts. */
  predicate Valid(w: Writer) { w.streamStart.Some? <==> w.wallStart.Some? }

  // ---- the bytes of the timestamp (section 7.2 of RFC 8794) ----

  /** Every u64 decodes back from its bytes, and no shorter of the four lengths could hold it. */
  lemma TimestampRoundTrip(v: nat)
    requires v < U64
    ensures FromBE(TimestampBytes(v)) == v
    ensures |TimestampBytes(v)| in {1, 2, 4, 8}
    ensures forall k | k in {1, 2, 4, 8} && k < |TimestampBytes(v)| :: v >= Pow256(k)
  {
    Pow256Values();
    if v <= 0xFF {
      BigEndianRoundTrip(v, 1);
    } else if v <= 0xFFFF {
      BigEndianRoundTrip(v, 2);
    } else if v <= 0xFFFF_FFFF {
      LowHalf(v);
      BigEndianRoundTrip(v, 4);
    } else {
      BigEndianRoundTrip(v, 8);
    }
  }

  /** The last four of eight big-endian bytes are the four-byte form. */
  lemma LowHalf(v: nat)
    ensures ToBE(v, 8)[4..] == ToBE(v, 4)
  {
    DropHigh(v, 4);
  }

  lemma {:induction false} DropHigh(v: nat, k: nat)
    ensures ToBE(v, 4 + k)[4..] == ToBE(v, k)
  {
    if k == 0 {
    } else {
      DropHigh(v / 256, k - 1);
      assert ToBE(v, 4 + k) == ToBE(v / 256, 3 + k) + [v % 256];
      assert ToBE(v, 4 + k)[4..] == ToBE(v / 256, 3 + k)[4..] + [v % 256];
    }
  }

  // ---- how close block times are to the truth (sections 5.1.3.1 and 10.2 of RFC 9559) ----

  /** Where a frame really is: wall start plus elapsed presentation time. */
  function TrueTime(w: Writer, pts: nat): int
    requires w.streamStart.Some? && w.wallStart.Some?
  {
    w.wallStart.value + NormalizePts(w, pts) - w.streamStart.value
  }

  predicate Faithful(shownMs: int, trueNs: int) {
    -2 * NS_PER_MS < shownMs * NS_PER_MS - trueNs < NS_PER_MS
  }

  /** Milliseconds from the start of the cluster to a frame, as the writer floors them. */
  function SpanMs(w: Writer, frames: seq<Frame>, i: nat): int
    requires i < |frames|
  {
    NormalizePts(w, Pts(frames[i])) / NS_PER_MS - NormalizePts(w, Pts(frames[0])) / NS_PER_MS
  }

  lemma WrappedOffset(v: nat)
    ensures ToI16(v) == v || ToI16(v) <= v - 0x1_0000
    ensures ToI16(v) == v <==> v <= 32_767
  {
  }

  /**
   Timestamp fidelity. For a frame not before the first one of its fragment, the fragment itself not
   before the session start, cluster time plus block offset is within (-2, +1) ms of the frame's true
   time exactly when the span to it fits 32,767 ms.
   */
  lemma TimestampFidelity(w: Writer, frames: seq<Frame>, now: int, i: nat)
    requires Valid(w) && i < |frames|
    requires var (w', out) := Finalize(w, frames, now);
             && out.Written? && w'.wallStart.value + NormalizePts(w', Pts(frames[0])) < U64
             && NormalizePts(w', Pts(frames[0])) >= w'.streamStart.value
             && Pts(frames[i]) >= Pts(frames[0])
    ensures var (w', out) := Finalize(w, frames, now);
            Faithful(out.cluster.timestampMs + out.cluster.offsetsMs[i], TrueTime(w', Pts(frames[i])))
            <==> SpanMs(w', frames, i) <= 32_767
  {
    var (w', out) := Finalize(w, frames, now);
    var start, n := NormalizePts(w', Pts(frames[0])), NormalizePts(w', Pts(frames[i]));
    var absolute := w'.wallStart.value + start - w'.streamStart.value;
    var span := n / NS_PER_MS - start / NS_PER_MS;
    assert out.cluster.timestampMs == absolute / NS_PER_MS by { MsInRange(absolute); }
    assert out.cluster.offsetsMs[i] == ToI16(span);
    WrappedOffset(span);
    FloorErrors(absolute, start, n);
  }

  lemma MsInRange(t: nat)
    requires t < U64
    ensures (t / NS_PER_MS) % U64 == t / NS_PER_MS
  {
  }

  /** Two floors: the cluster time loses less than 1 ms, the span is off by less than 1 ms either way. */
  lemma FloorErrors(absolute: nat, start: nat, n: nat)
    requires n >= start
    ensures Faithful(absolute / NS_PER_MS + n / NS_PER_MS - start / NS_PER_MS, absolute + n - start)
  {
  }

  /** A frame before the first one of its fragment gets offset 0 and is shown late by the difference. */
  lemma EarlierFrameIsLate(w: Writer, frames: seq<Frame>, now: int, i: nat)
    requires Valid(w) && i < |frames|
    requires var (w', out) := Finalize(w, frames, now);
             && out.Written? && w'.wallStart.value + NormalizePts(w', Pts(frames[0])) < U64
             && NormalizePts(w', Pts(frames[0])) >= w'.streamStart.value
             && NormalizePts(w', Pts(frames[i])) < NormalizePts(w', Pts(frames[0]))
    ensures var (w', out) := Finalize(w, frames, now);
            var late := NormalizePts(w', Pts(frames[0])) - NormalizePts(w', Pts(frames[i]));
            var shown := out.cluster.timestampMs + out.cluster.offsetsMs[i];
            late - NS_PER_MS < shown * NS_PER_MS - TrueTime(w', Pts(frames[i])) <= late
  {
    var (w', out) := Finalize(w, frames, now);
    var absolute := w'.wallStart.value + NormalizePts(w', Pts(frames[0])) - w'.streamStart.value;
    MsInRange(absolute);
  }

  /** The first fragment of a session starts at the wall-clock time of the call. */
  lemma SessionStartsNow(w: Writer, pts: nat, frames: seq<Frame>, now: nat)
    requires frames != [] && NoEmptyFrame(frames) && now < U64
    ensures var (w', out) := Finalize(ResetForNewSession(w, pts), frames, now);
            out.Written? && out.cluster.timestampMs == now / NS_PER_MS
  {
    MsInRange(now);
  }

  /** Time since the pipeline time the session began at, in numbers. */
  function Since(w: Writer, f: Frame): nat {
    var pts := if f.pts.Some? then f.pts.value else 0;
    if pts > w.ptsOffset then pts - w.ptsOffset else 0
  }

  /** The wall-clock time a call gives to its cluster, before it is cut to milliseconds. */
  function ClusterNs(w: Writer, frames: seq<Frame>, now: int): int
    requires Valid(w) && frames != []
  {
    var n := Since(w, frames[0]);
    if w.streamStart.None? then now
    else w.wallStart.value + if n > w.streamStart.value then n - w.streamStart.value else 0
  }

  /** When a call writes, when it fails and how; the first call with frames starts the session even if it fails. */
  lemma WrittenIff(w: Writer, frames: seq<Frame>, now: int)
    requires Valid(w)
    ensures var (w', out) := Finalize(w, frames, now);
            && (out.NoFrames? <==> frames == [])
            && (out.Written? <==>
                  frames != [] && ClusterNs(w, frames, now) >= 0 && forall f | f in frames :: f.size > 0)
            && (out == Failed(BeforeEpoch) <==> frames != [] && ClusterNs(w, frames, now) < 0)
            && w'.ptsOffset == w.ptsOffset
            && (frames == [] || w.streamStart.Some? ==> w' == w)
            && (frames != [] && w.streamStart.None? ==>
                  w'.streamStart == Some(Since(w, frames[0])) && w'.wallStart == Some(now))
  {
  }

  /** What it writes, in numbers. */
  lemma WrittenExactly(w: Writer, frames: seq<Frame>, now: int, i: nat)
    requires Valid(w) && Finalize(w, frames, now).1.Written? && i < |frames|
    ensures var out := Finalize(w, frames, now).1;
            var ms := Since(w, frames[i]) / 1_000_000 - Since(w, frames[0]) / 1_000_000;
            && out.cluster.timestampMs == ClusterNs(w, frames, now) / 1_000_000 % U64
            && FromBE(out.cluster.timestampBytes) == out.cluster.timestampMs
            && |out.cluster.offsetsMs| == |frames|
            && (Since(w, frames[i]) < Since(w, frames[0]) ==> out.cluster.offsetsMs[i] == 0)
            && (0 <= ms <= 32_767 ==> out.cluster.offsetsMs[i] == ms)
  {
    var (w', out) := Finalize(w, frames, now);
    TimestampRoundTrip(out.cluster.timestampMs);
    assert NormalizePts(w, Pts(frames[0])) == Since(w, frames[0]);
    assert NormalizePts(w', Pts(frames[i])) == Since(w, frames[i]);
    hide TimestampBytes, FromBE;
  }

  /** The duration is from the first frame to the end of the last; zero when the last is before the first. */
  lemma DurationExactly(w: Writer, frames: seq<Frame>, now: int)
    requires Finalize(w, frames, now).1.Written?
    requires var first, last := frames[0], frames[|frames| - 1]; first.pts.Some? && last.pts.Some?
    ensures var first, last := frames[0], frames[|frames| - 1];
            Finalize(w, frames, now).1.durationNs ==
              if last.pts.value < first.pts.value then 0
              else last.pts.value - first.pts.value + if last.duration.Some? then last.duration.value else 0
  {
  }

  /** A reset rebases: from then on times count from the pipeline time of the reset, whatever came before. */
  lemma ResetRebases(w: Writer, pts: nat, f: Frame)
    ensures Valid(ResetForNewSession(w, pts)) && ResetForNewSession(w, pts).streamStart.None?
    ensures f.pts.Some? && f.pts.value >= pts ==> Since(ResetForNewSession(w, pts), f) == f.pts.value - pts
  {
  }

  // ---- runs within one session ----

  datatype Call = Call(frames: seq<Frame>, now: int)

  /** The cluster times written by a sequence of calls with no reset between them. */
  function ClusterTimes(w: Writer, calls: seq<Call>): seq<nat>
    decreases |calls|
  {
    if calls == [] then []
    else
      var (w', out) := Finalize(w, calls[0].frames, calls[0].now);
      (if out.Written? then [out.cluster.timestampMs] else []) + ClusterTimes(w', calls[1..])
  }

  /** First presentation times never go back, and stay in the range of the clock. */
  predicate Forward(w: Writer, calls: seq<Call>, from: nat) {
    && (forall i | 0 <= i < |calls| :: calls[i].frames != [] && from <= Pts(calls[i].frames[0]))
    && (forall i, j | 0 <= i <= j < |calls| :: Pts(calls[i].frames[0]) <= Pts(calls[j].frames[0]))
    && (forall i, j | 0 <= i < |calls| && 0 <= j < |calls| ::
          calls[i].now + Pts(calls[j].frames[0]) < U64)
    && (w.wallStart.Some? ==> forall i | 0 <= i < |calls| :: w.wallStart.value + Pts(calls[i].frames[0]) < U64)
  }

  predicate Ascending(ts: seq<nat>) {
    forall i, j | 0 <= i <= j < |ts| :: ts[i] <= ts[j]
  }

  /** The cluster time a started writer gives to a fragment beginning at pts. */
  function TimeAt(w: Writer, pts: nat): int
    requires w.streamStart.Some? && w.wallStart.Some?
  {
    (w.wallStart.value + Elapsed(w.streamStart.value, NormalizePts(w, pts))) / NS_PER_MS
  }

  lemma FinalizeTime(w: Writer, c: Call)
    requires Valid(w) && c.frames != []
    requires var w' := Started(w, Pts(c.frames[0]), c.now);
             w'.wallStart.value + Pts(c.frames[0]) < U64
    ensures var (w', out) := Finalize(w, c.frames, c.now);
            && w' == Started(w, Pts(c.frames[0]), c.now) && Valid(w') && w'.streamStart.Some?
            && (out.Written? ==> out.cluster.timestampMs == TimeAt(w', Pts(c.frames[0])))
  {
    var (w', out) := Finalize(w, c.frames, c.now);
    if out.Written? {
      MsInRange(w'.wallStart.value + Elapsed(w'.streamStart.value, NormalizePts(w', Pts(c.frames[0]))));
    }
  }

  lemma {:induction false} ClusterTimesAscend(w: Writer, calls: seq<Call>, from: nat)
    requires Valid(w) && Forward(w, calls, from)
    ensures Ascending(ClusterTimes(w, calls))
    ensures w.streamStart.Some? ==> forall t | t in ClusterTimes(w, calls) :: TimeAt(w, from) <= t
    decreases |calls|
  {
    if calls == [] {
    } else {
      var c, pts := calls[0], Pts(calls[0].frames[0]);
      FinalizeTime(w, c);
      var (w', out) := Finalize(w, c.frames, c.now);
      assert Forward(w', calls[1..], pts) by {
        assert forall i | 0 <= i < |calls[1..]| :: calls[1..][i] == calls[i + 1];
      }
      ClusterTimesAscend(w', calls[1..], pts);
      if w.streamStart.Some? { TimeAtMonotone(w, from, pts); }
      var rest := ClusterTimes(w', calls[1..]);
      assert out.Written? ==> forall t | t in rest :: out.cluster.timestampMs <= t;
      assert forall i | 0 <= i < |rest| :: rest[i] in rest;
    }
  }

  lemma TimeAtMonotone(w: Writer, p: nat, q: nat)
    requires w.streamStart.Some? && w.wallStart.Some? && p <= q
    ensures TimeAt(w, p) <= TimeAt(w, q)
  {
  }

  predicate WithinOneMs(ns: int) { -1_000_000 < ns < 1_000_000 }

  /**
   Contiguous frames give abutting fragments: the duration reaches exactly from one fragment's first
   frame to the next one's, and the cluster times differ by that duration to within 1 ms.
   */
  lemma FragmentsAbut(w: Writer, a: Call, b: Call)
    requires Valid(w) && a.frames != [] && b.frames != []
    requires var last := a.frames[|a.frames| - 1];
             && last.duration.Some? && Pts(last) + last.duration.value == Pts(b.frames[0])
             && Pts(a.frames[0]) <= Pts(last)
    requires var (w1, out1) := Finalize(w, a.frames, a.now);
             && out1.Written? && w.ptsOffset <= Pts(a.frames[0])
             && NormalizePts(w1, Pts(a.frames[0])) >= w1.streamStart.value
             && w1.wallStart.value + Pts(b.frames[0]) < U64
             && Finalize(w1, b.frames, b.now).1.Written?
    ensures var (w1, out1) := Finalize(w, a.frames, a.now);
            var (w2, out2) := Finalize(w1, b.frames, b.now);
            && Pts(a.frames[0]) + out1.durationNs == Pts(b.frames[0])
            && WithinOneMs((out2.cluster.timestampMs - out1.cluster.timestampMs) * NS_PER_MS - out1.durationNs)
  {
    var (w1, out1) := Finalize(w, a.frames, a.now);
    FinalizeTime(w, a);
    FinalizeTime(w1, b);
    FloorDifference(w1.wallStart.value + Elapsed(w1.streamStart.value, NormalizePts(w1, Pts(a.frames[0]))),
        out1.durationNs);
  }

  lemma FloorDifference(t: int, d: nat)
    requires t >= 0
    ensures WithinOneMs(((t + d) / NS_PER_MS - t / NS_PER_MS) * NS_PER_MS - d)
  {
  }

  // ---- the writer as it runs ----

  class MkvWriter {
    var streamStartTimestamp: Option<nat>
    var ptsOffset: nat
    var sessionStartWallTime: Option<int>

    ghost function View(): Writer
      reads this
    {
      Writer(streamStartTimestamp, ptsOffset, sessionStartWallTime)
    }

    constructor ()
      ensures View() == New() && Valid(View())
    {
      streamStartTimestamp, ptsOffset, sessionStartWallTime := None, 0, None;
    }

    method Reset(currentPipelinePts: nat)
      modifies this
      ensures View() == ResetForNewSession(old(View()), currentPipelinePts) && Valid(View())
    {
      ptsOffset := currentPipelinePts;
      streamStartTimestamp := None;
      sessionStartWallTime := None;
    }

    /** Write one fragment; `now` is the clock, read only when a session starts. */
    method FinalizeFragment(frames: seq<Frame>, now: int) returns (out: Output)
      requires Valid(View())
      modifies this
      ensures (View(), out) == Finalize(old(View()), frames, now)
      ensures Valid(View())
    {
      if frames == [] {
        return NoFrames;
      }
      var first, lastFrame := Pts(frames[0]), frames[|frames| - 1];
      var duration := 0;
      if Pts(lastFrame) >= first {
        duration := Pts(lastFrame) - first + if lastFrame.duration.Some? then lastFrame.duration.value else 0;
      }
      var normalized := NormalizePts(Writer(streamStartTimestamp, ptsOffset, sessionStartWallTime), first);
      if streamStartTimestamp.None? {
        streamStartTimestamp := Some(normalized);
        sessionStartWallTime := Some(now);
      }
      var elapsed := Elapsed(streamStartTimestamp.value, normalized);
      var absolute := sessionStartWallTime.value + elapsed;
      if absolute < 0 {
        return Failed(BeforeEpoch);
      }
      var ms := (absolute / NS_PER_MS) % U64;
      var offsets, ok := WriteBlocks(normalized, frames);
      if !ok {
        return Failed(EmptyFrame);
      }
      return Written(Cluster(ms, TimestampBytes(ms), offsets), duration);
    }

    /** One block per frame, until a frame turns out to be empty. */
    method WriteBlocks(clusterStart: nat, frames: seq<Frame>) returns (offsets: seq<int>, ok: bool)
      ensures ok <==> NoEmptyFrame(frames)
      ensures ok ==> offsets == Offsets(View(), clusterStart, frames)
    {
      offsets := [];
      var i := 0;
      while i < |frames|
        invariant 0 <= i <= |frames|
        invariant NoEmptyFrame(frames[..i])
        invariant offsets == Offsets(View(), clusterStart, frames)[..i]
      {
        var f := frames[i];
        var n := if Pts(f) >= ptsOffset then Pts(f) - ptsOffset else 0;
        var relative := if n >= clusterStart then ToI16(n / NS_PER_MS - clusterStart / NS_PER_MS) else 0;
        if f.size == 0 {
          assert f in frames;
          return offsets, false;
        }
        offsets := offsets + [relative];
        assert frames[..i + 1] == frames[..i] + [f];
        i := i + 1;
      }
      assert frames[..i] == frames;
      ok := true;
    }
  }
}
