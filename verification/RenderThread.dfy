/**
 How the streaming thread cuts buffers into fragments. Each arriving buffer carries the fragment
 duration in force when it arrived, since mode switches change that at any time.
 */
module RenderThread {
  import opened Wrappers

  datatype Arrival = Arrival(keyframe: bool, pts: Option<nat>, durationInForce: nat)

  /** The collecting state, and the fragments finalized so far. */
  datatype State = State(waiting: bool, startPts: Option<nat>, frames: seq<Arrival>, closed: seq<seq<Arrival>>)

  function Initial(): State { State(true, None, [], []) }

  /** `should_fragment_on_duration`, with its saturating subtraction. */
  predicate Due(start: Option<nat>, a: Arrival) {
    start.Some? && a.pts.Some?
    && (if a.pts.value >= start.value then a.pts.value - start.value else 0) >= a.durationInForce
  }

  /** The first keyframe ends the wait. */
  function Awake(s: State, a: Arrival): State {
    if s.waiting && a.keyframe then s.(waiting := false, startPts := a.pts, frames := []) else s
  }

  /** `render_buffer`; `enqueued` says whether handing over a finalized fragment succeeded or dropped it. */
  function Render(s: State, a: Arrival, enqueued: bool): (State, bool) {
    if s.waiting && !a.keyframe then (s, true)
    else
      var s1 := Awake(s, a);
      if a.keyframe && Due(s1.startPts, a) then
        if s1.frames != [] && !enqueued then (s1, false)
        else
          (s1.(closed := if s1.frames == [] then s1.closed else s1.closed + [s1.frames],
               startPts := a.pts, frames := [a]), true)
      else (s1.(frames := s1.frames + [a]), true)
  }

  /** At end of stream the collected frames are finalized; they also stay in the state. */
  function Flush(s: State): State {
    if s.frames == [] then s else s.(closed := s.closed + [s.frames])
  }

  function Run(s: State, input: seq<Arrival>): State
    decreases |input|
  {
    if input == [] then s else Run(Render(s, input[0], true).0, input[1..])
  }

  // ---- the partition ----

  /** The input from its first keyframe on. */
  function FromKeyframe(input: seq<Arrival>): seq<Arrival> {
    if input == [] || input[0].keyframe then input else FromKeyframe(input[1..])
  }

  /**
   In numbers: both have a presentation time, and from the first to the second it is at least the duration in
   force when the second arrived; a duration of zero is reached by any, also one that goes back.
   */
  predicate Reached(first: Arrival, a: Arrival) {
    && first.pts.Some? && a.pts.Some?
    && (a.pts.value - first.pts.value >= a.durationInForce || a.durationInForce == 0)
  }

  /** Starts with a keyframe, and no keyframe inside it had reached the duration in force. */
  predicate FragmentOk(f: seq<Arrival>) {
    f != [] && f[0].keyframe && forall i | 1 <= i < |f| :: f[i].keyframe ==> !Reached(f[0], f[i])
  }

  /** Each fragment was closed by a keyframe that had reached the duration in force on its arrival. */
  predicate BoundariesOk(fs: seq<seq<Arrival>>) {
    forall i | 0 <= i < |fs| - 1 && fs[i] != [] && fs[i + 1] != [] :: fs[i + 1][0].keyframe
      && Reached(fs[i][0], fs[i + 1][0])
  }

  function Concat(fs: seq<seq<Arrival>>): seq<Arrival> {
    if fs == [] then [] else Concat(fs[..|fs| - 1]) + fs[|fs| - 1]
  }

  predicate IsPartition(fs: seq<seq<Arrival>>, input: seq<Arrival>) {
    && Concat(fs) == input
    && (forall i | 0 <= i < |fs| :: FragmentOk(fs[i]))
    && BoundariesOk(fs)
  }

  /** The finalized fragments and the one being collected. */
  function Pieces(s: State): seq<seq<Arrival>> {
    if s.frames == [] then s.closed else s.closed + [s.frames]
  }

  predicate Inv(s: State, input: seq<Arrival>) {
    && IsPartition(Pieces(s), FromKeyframe(input))
    && (s.waiting ==> s.frames == [] && s.closed == [])
    && (!s.waiting ==> s.frames != [] && s.startPts == s.frames[0].pts)
  }

  lemma ConcatSnoc(fs: seq<seq<Arrival>>, f: seq<Arrival>)
    ensures Concat(fs + [f]) == Concat(fs) + f
  {
    assert (fs + [f])[..|fs|] == fs;
  }

  lemma {:induction false} FromKeyframeSnoc(input: seq<Arrival>, a: Arrival)
    ensures FromKeyframe(input + [a]) == if FromKeyframe(input) == []
            && !a.keyframe then [] else FromKeyframe(input) + [a]
  {
    if input == [] {
      assert input + [a] == [a] && [a][1..] == [];
    } else {
      assert (input + [a])[1..] == input[1..] + [a];
      if input[0].keyframe {
      } else {
        FromKeyframeSnoc(input[1..], a);
      }
    }
  }

  /** Once awake, a buffer is rendered as if the stream had been started all along. */
  lemma SameAwake(s: State, a: Arrival, enqueued: bool)
    requires s.waiting ==> a.keyframe
    ensures Render(Awake(s, a), a, enqueued) == Render(s, a, enqueued)
    ensures Render(s, a, enqueued).1 ==> Render(s, a, true) == Render(s, a, enqueued)
  {
  }

  /** A frame added to the fragment being collected. */
  lemma CollectKeeps(closed: seq<seq<Arrival>>, frames: seq<Arrival>, input: seq<Arrival>, a: Arrival)
    requires frames != [] && IsPartition(closed + [frames], input)
    requires a.keyframe ==> !Reached(frames[0], a)
    ensures IsPartition(closed + [frames + [a]], input + [a])
  {
    ConcatSnoc(closed, frames);
    ConcatSnoc(closed, frames + [a]);
    var fs, gs := closed + [frames], closed + [frames + [a]];
    assert FragmentOk(fs[|closed|]);
    assert forall i | 0 <= i < |closed| :: gs[i] == fs[i];
    assert Concat(closed) + frames + [a] == Concat(closed) + (frames + [a]);
    forall i | 0 <= i < |gs| - 1 && gs[i] != [] && gs[i + 1] != []
      ensures gs[i + 1][0].keyframe && Reached(gs[i][0], gs[i + 1][0])
    {
      assert fs[i] != [] && fs[i + 1] != [] && gs[i + 1][0] == fs[i + 1][0];
    }
  }

  /** A keyframe that closes the fragment being collected and starts the next one. */
  lemma CloseKeeps(pieces: seq<seq<Arrival>>, input: seq<Arrival>, a: Arrival)
    requires IsPartition(pieces, input) && a.keyframe
    requires pieces != [] ==> Reached(pieces[|pieces| - 1][0], a)
    ensures IsPartition(pieces + [[a]], input + [a])
  {
    ConcatSnoc(pieces, [a]);
    var gs: seq<seq<Arrival>> := pieces + [[a]];
    forall i | 0 <= i < |gs| - 1 && gs[i] != [] && gs[i + 1] != []
      ensures gs[i + 1][0].keyframe && Reached(gs[i][0], gs[i + 1][0])
    {
      if i + 1 < |pieces| {
        assert pieces[i] == gs[i] && pieces[i + 1] == gs[i + 1];
      }
    }
  }

  lemma RenderKeeps(s: State, input: seq<Arrival>, a: Arrival)
    requires Inv(s, input)
    ensures Inv(Render(s, a, true).0, input + [a])
  {
    FromKeyframeSnoc(input, a);
    var kept := FromKeyframe(input);
    var s' := Render(s, a, true).0;
    if s.waiting {
      assert Pieces(s) == [] && kept == [];
      if a.keyframe {
        CloseKeeps([], kept, a);
        assert s'.frames == [a] && Pieces(s') == [] + [[a]];
      }
    } else {
      var fs := s.closed + [s.frames];
      assert fs[|fs| - 1] == s.frames && FragmentOk(s.frames);
      ConcatSnoc(s.closed, s.frames);
      assert kept != [];
      if a.keyframe && Due(s.startPts, a) {
        CloseKeeps(fs, kept, a);
      } else {
        CollectKeeps(s.closed, s.frames, kept, a);
      }
    }
  }

  lemma {:induction false} RunKeeps(s: State, before: seq<Arrival>, input: seq<Arrival>)
    requires Inv(s, before)
    ensures Inv(Run(s, input), before + input)
    decreases |input|
  {
    hide Inv, Render;
    if input == [] {
      assert before + input == before;
    } else {
      RenderKeeps(s, before, input[0]);
      RunKeeps(Render(s, input[0], true).0, before + [input[0]], input[1..]);
      assert before + [input[0]] + input[1..] == before + input;
    }
  }

  /** Frame partition: for every buffer sequence the finalized fragments and the collected frames partition it. */
  lemma FramePartition(input: seq<Arrival>)
    ensures IsPartition(Pieces(Run(Initial(), input)), FromKeyframe(input))
    ensures Flush(Run(Initial(), input)).closed == Pieces(Run(Initial(), input))
  {
    assert Inv(Initial(), []);
    RunKeeps(Initial(), [], input);
    assert [] + input == input;
  }

  /**
   Spans, in nanoseconds, over every run: a fragment that was closed spans at least the duration in force when the
   keyframe that closed it arrived, and no keyframe inside a fragment was that late; when time goes back, only a
   duration of zero closes.
   */
  lemma FragmentSpans(input: seq<Arrival>, i: nat, j: nat)
    requires i < |Pieces(Run(Initial(), input))|
    ensures var ps := Pieces(Run(Initial(), input));
            && ps[i] != [] && ps[i][0].keyframe
            && (i + 1 < |ps| ==>
                  && ps[i + 1] != [] && ps[i][0].pts.Some? && ps[i + 1][0].pts.Some?
                  && var from, to, d := ps[i][0].pts.value, ps[i + 1][0].pts.value, ps[i + 1][0].durationInForce;
                     if to >= from then to - from >= d else d == 0)
            && (1 <= j < |ps[i]| && ps[i][j].keyframe && ps[i][0].pts.Some? && ps[i][j].pts.Some? ==>
                  var from, at, d := ps[i][0].pts.value, ps[i][j].pts.value, ps[i][j].durationInForce;
                  if at >= from then at - from < d else d > 0)
  {
    FramePartition(input);
    var ps := Pieces(Run(Initial(), input));
    hide Run, Pieces, FromKeyframe, Concat;
    assert FragmentOk(ps[i]);
    if i + 1 < |ps| { assert FragmentOk(ps[i + 1]) && Reached(ps[i][0], ps[i + 1][0]); }
  }

  /** A buffer is refused exactly when it closes a fragment that cannot be handed over, and then nothing changes. */
  lemma RefusedExactly(s: State, a: Arrival, enqueued: bool)
    requires if s.waiting then s.frames == [] else s.frames != [] && s.startPts == s.frames[0].pts
    ensures var (s', ok) := Render(s, a, enqueued);
            && (ok <==> enqueued || s.waiting || !a.keyframe || !Reached(s.frames[0], a))
            && (!ok ==> s' == s)
  {
  }

  // ---- there is only one such partition ----

  lemma {:induction false} ConcatCons(fs: seq<seq<Arrival>>)
    requires fs != []
    ensures Concat(fs) == fs[0] + Concat(fs[1..])
  {
    if |fs| > 1 {
      var front := fs[..|fs| - 1];
      ConcatCons(front);
      assert front[1..] == fs[1..][..|fs| - 2];
      assert fs[1..][|fs| - 2] == fs[|fs| - 1];
      assert fs[0] + Concat(front[1..]) + fs[|fs| - 1] == fs[0] + (Concat(front[1..]) + fs[|fs| - 1]);
    } else {
      assert fs[1..] == [] && fs[..0] == [];
    }
  }

  lemma PartitionTail(fs: seq<seq<Arrival>>, input: seq<Arrival>)
    requires fs != [] && IsPartition(fs, input)
    ensures fs[0] != [] && fs[0] <= input && fs[0][0] == input[0]
    ensures IsPartition(fs[1..], input[|fs[0]|..])
    ensures |fs| > 1 ==> |fs[0]| < |input| && input[|fs[0]|].keyframe && Reached(input[0], input[|fs[0]|])
  {
    ConcatCons(fs);
    assert FragmentOk(fs[0]);
    assert input[|fs[0]|..] == Concat(fs[1..]);
    var rest := fs[1..];
    assert forall i | 0 <= i < |rest| :: rest[i] == fs[i + 1];
    if |fs| > 1 {
      ConcatCons(rest);
      assert FragmentOk(fs[1]);
    }
  }

  /** The first fragment of one partition cannot end inside the first fragment of another. */
  lemma FirstNotShorter(a: seq<seq<Arrival>>, b: seq<seq<Arrival>>, input: seq<Arrival>)
    requires a != [] && b != [] && IsPartition(a, input) && IsPartition(b, input)
    ensures |a[0]| >= |b[0]|
  {
    PartitionTail(a, input);
    PartitionTail(b, input);
    if |a| == 1 {
      ConcatCons(a);
      assert a[1..] == [] && a[0] + [] == a[0];
      assert a[0] == input;
    }
    assert FragmentOk(b[0]);
    assert forall j | 1 <= j < |b[0]| :: b[0][j] == input[j] && (input[j].keyframe ==> !Reached(input[0], input[j]));
  }

  /** The conditions leave no choice: a sequence has at most one partition that meets them. */
  lemma {:induction false} PartitionIsUnique(a: seq<seq<Arrival>>, b: seq<seq<Arrival>>, input: seq<Arrival>)
    requires IsPartition(a, input) && IsPartition(b, input)
    ensures a == b
    decreases |a|
  {
    if a == [] {
      if b != [] { PartitionTail(b, input); }
    } else {
      PartitionTail(a, input);
      assert b != [];
      PartitionTail(b, input);
      FirstNotShorter(a, b, input);
      FirstNotShorter(b, a, input);
      assert a[0] == input[..|a[0]|] == b[0];
      PartitionIsUnique(a[1..], b[1..], input[|a[0]|..]);
      assert a == [a[0]] + a[1..] && b == [b[0]] + b[1..];
    }
  }

  /** A first keyframe without a presentation time: no fragment is ever closed, everything is collected. */
  lemma {:induction false} NoPtsNeverFragments(s: State, input: seq<Arrival>)
    requires !s.waiting && s.startPts.None?
    ensures Run(s, input) == s.(frames := s.frames + input)
    decreases |input|
  {
    if input == [] {
      assert s.frames + input == s.frames;
    } else {
      NoPtsNeverFragments(s.(frames := s.frames + [input[0]]), input[1..]);
      assert s.frames + [input[0]] + input[1..] == s.frames + input;
    }
  }

  /**
   Exactly when a boundary is cut: the first keyframe has a presentation time, and a keyframe after it has one
   too that had reached the duration in force on its arrival.
   */
  lemma BoundaryIff(input: seq<Arrival>)
    ensures var kept := FromKeyframe(input);
            Run(Initial(), input).closed != []
            <==> kept != [] && kept[0].pts.Some?
                 && exists i | 1 <= i < |kept| :: kept[i].keyframe && Reached(kept[0], kept[i])
  {
    var s, kept := Run(Initial(), input), FromKeyframe(input);
    assert Inv(Initial(), []);
    RunKeeps(Initial(), [], input);
    assert [] + input == input;
    var fs := Pieces(s);
    if s.closed == [] {
      hide Run, FromKeyframe;
      OnePiece(s.frames, kept);
    } else {
      assert |fs| > 1;
      hide Run, FromKeyframe, Inv, Pieces;
      PartitionTail(fs, kept);
      assert kept[|fs[0]|].keyframe && Reached(kept[0], kept[|fs[0]|]);
    }
  }

  /** A single fragment has no keyframe inside that had reached the duration. */
  lemma OnePiece(frames: seq<Arrival>, input: seq<Arrival>)
    requires IsPartition(if frames == [] then [] else [frames], input)
    ensures forall i | 1 <= i < |input| :: !(input[i].keyframe && Reached(input[0], input[i]))
  {
    if frames == [] {
    } else {
      ConcatSnoc([], frames);
      assert [] + [frames] == [frames] && Concat([]) + frames == frames;
      assert FragmentOk([frames][0]);
    }
  }

  // ---- the thread as it runs ----

  class StreamingThread {
    var waitingForKeyframe: bool
    var currentFragmentStartPts: Option<nat>
    var currentFragmentFrames: seq<Arrival>
    var finalized: seq<seq<Arrival>>
    ghost var input: seq<Arrival>

    ghost function View(): State
      reads this
    {
      State(waitingForKeyframe, currentFragmentStartPts, currentFragmentFrames, finalized)
    }

    constructor ()
      ensures View() == Initial() && input == [] && Inv(View(), input)
    {
      waitingForKeyframe, currentFragmentStartPts := true, None;
      currentFragmentFrames, finalized, input := [], [], [];
    }

    /** Render one buffer; a failed hand-over loses the buffer and leaves the collected frames. */
    method RenderBuffer(a: Arrival, enqueued: bool) returns (ok: bool)
      requires Inv(View(), input)
      modifies this
      ensures (View(), ok) == Render(old(View()), a, enqueued)
      ensures ok ==> Inv(View(), input) && input == old(input) + [a]
    {
      hide Inv, Due;
      ghost var s := View();
      RenderKeeps(s, input, a);
      if waitingForKeyframe {
        if !a.keyframe {
          input := input + [a];
          return true;
        }
        currentFragmentStartPts := a.pts;
        waitingForKeyframe := false;
        currentFragmentFrames := [];
      }
      ok := Collect(a, enqueued);
      assert (View(), ok) == Render(s, a, enqueued) by { SameAwake(s, a, enqueued); }
      hide Render;
      if ok { input := input + [a]; }
    }

    /** A buffer of a started stream: close the fragment first when a keyframe has reached the duration. */
    method Collect(a: Arrival, enqueued: bool) returns (ok: bool)
      requires !waitingForKeyframe
      modifies this`currentFragmentStartPts, this`currentFragmentFrames, this`finalized
      ensures (View(), ok) == Render(old(View()), a, enqueued)
    {
      hide Due;
      if a.keyframe && Due(currentFragmentStartPts, a) {
        ok := FinalizeCurrentFragment(enqueued);
        if !ok {
          return false;
        }
        currentFragmentStartPts := a.pts;
        currentFragmentFrames := [];
      }
      assert [] + [a] == [a];
      currentFragmentFrames := currentFragmentFrames + [a];
      ok := true;
    }

    /** Finalize the collected frames, if there are any, and hand the fragment over. */
    method FinalizeCurrentFragment(enqueued: bool) returns (ok: bool)
      modifies this`finalized
      ensures ok <==> currentFragmentFrames == [] || enqueued
      ensures finalized == if ok && currentFragmentFrames != [] then old(finalized) + [currentFragmentFrames]
                           else old(finalized)
    {
      if currentFragmentFrames == [] {
        return true;
      }
      if enqueued {
        finalized := finalized + [currentFragmentFrames];
      }
      ok := enqueued;
    }

    /** End of stream: everything received from the first keyframe on is in finalized fragments. */
    method FlushAtEndOfStream(enqueued: bool) returns (ok: bool)
      requires Inv(View(), input)
      modifies this`finalized
      ensures finalized == if ok then Flush(old(View())).closed else old(finalized)
      ensures ok ==> IsPartition(finalized, FromKeyframe(input))
    {
      ok := FinalizeCurrentFragment(enqueued);
    }
  }
}
