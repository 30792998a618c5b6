/**
 Cutting the acknowledgment stream into lines. Chunks arrive at arbitrary places; each chunk that is
 UTF-8 text is appended to a buffer, from which complete lines are drained.
 */
module AckFraming {
  import opened Bytes

  const NEWLINE: byte := 0x0A

  /** The lines taken out, each with its newline, and what stays in the buffer. */
  datatype Framed = Framed(lines: seq<seq<byte>>, rest: seq<byte>)

  /** The position of the first newline, or the length. */
  function FindNewline(s: seq<byte>): (p: nat)
    ensures p <= |s|
    ensures p < |s| ==> s[p] == 10
    ensures forall i | 0 <= i < p :: s[i] != 10
  {
    if s == [] || s[0] == NEWLINE then 0 else 1 + FindNewline(s[1..])
  }

  /** Splitting a whole text at its newlines. */
  function Split(s: seq<byte>): Framed
    decreases |s|
  {
    var p := FindNewline(s);
    if p == |s| then Framed([], s)
    else
      var tail := Split(s[p + 1..]);
      Framed([s[..p + 1]] + tail.lines, tail.rest)
  }

  function Join(lines: seq<seq<byte>>): seq<byte> {
    if lines == [] then [] else lines[0] + Join(lines[1..])
  }

  // ---- UTF-8 (section 4 of RFC 3629) ----

  predicate Tail(b: byte) { 0x80 <= b <= 0xBF }

  /** The length of the character a byte sequence starts with; zero when it starts with none. */
  function CharLength(s: seq<byte>): (n: nat)
    ensures n <= |s| && n <= 4
  {
    if s == [] then 0
    else if s[0] <= 0x7F then 1
    else if 0xC2 <= s[0] <= 0xDF then if |s| >= 2 && Tail(s[1]) then 2 else 0
    else if 0xE0 <= s[0] <= 0xEF then
      if && |s| >= 3 && Tail(s[1]) && Tail(s[2])
         && (s[0] == 0xE0 ==> s[1] >= 0xA0) && (s[0] == 0xED ==> s[1] <= 0x9F) then 3 else 0
    else if 0xF0 <= s[0] <= 0xF4 then
      if && |s| >= 4 && Tail(s[1]) && Tail(s[2]) && Tail(s[3])
         && (s[0] == 0xF0 ==> s[1] >= 0x90) && (s[0] == 0xF4 ==> s[1] <= 0x8F) then 4 else 0
    else 0
  }

  predicate Utf8(s: seq<byte>)
    decreases |s|
  {
    s == [] || (CharLength(s) > 0 && Utf8(s[CharLength(s)..]))
  }

  /** A Unicode scalar value. */
  predicate Scalar(cp: nat) { cp < 0xD800 || 0xE000 <= cp < 0x11_0000 }

  /** Its encoding (section 3 of RFC 3629). */
  function Encode(cp: nat): seq<byte>
    requires Scalar(cp)
  {
    if cp < 0x80 then [cp]
    else if cp < 0x800 then [0xC0 + cp / 64, 0x80 + cp % 64]
    else if cp < 0x1_0000 then [0xE0 + cp / 4096, 0x80 + cp / 64 % 64, 0x80 + cp % 64]
    else [0xF0 + cp / 262_144, 0x80 + cp / 4096 % 64, 0x80 + cp / 64 % 64, 0x80 + cp % 64]
  }

  predicate Scalars(cps: seq<nat>) { forall i | 0 <= i < |cps| :: Scalar(cps[i]) }

  function EncodeAll(cps: seq<nat>): seq<byte>
    requires Scalars(cps)
  {
    if cps == [] then [] else Encode(cps[0]) + EncodeAll(cps[1..])
  }

  lemma EncodedIsChar(cp: nat, rest: seq<byte>)
    requires Scalar(cp)
    ensures CharLength(Encode(cp) + rest) == |Encode(cp)| > 0
  {
    var e, s := Encode(cp), Encode(cp) + rest;
    assert |e| <= |s| && forall i | 0 <= i < |e| :: s[i] == e[i];
    hide Encode;
    if cp < 0x80 {
      assert s[0] == cp;
    } else if cp < 0x800 {
      assert s[0] == 0xC0 + cp / 64;
    } else if cp < 0x1_0000 {
      assert s[0] == 0xE0 + cp / 4096 && s[1] == 0x80 + cp / 64 % 64;
      DivTwice(cp);
    } else {
      assert s[0] == 0xF0 + cp / 262_144 && s[1] == 0x80 + cp / 4096 % 64;
    }
  }

  lemma CharIsEncoded(s: seq<byte>) returns (cp: nat)
    requires CharLength(s) > 0
    ensures Scalar(cp) && s[..CharLength(s)] == Encode(cp)
  {
    var n, a: int := CharLength(s), s[0];
    if n == 1 {
      cp := a;
    } else if n == 2 {
      cp := Two(s);
    } else if n == 3 {
      cp := Three(s);
    } else {
      cp := Four(s);
    }
  }

  lemma Two(s: seq<byte>) returns (cp: nat)
    requires CharLength(s) == 2
    ensures Scalar(cp) && s[..2] == Encode(cp)
  {
    var a: int, b: int := s[0], s[1];
    cp := (a - 0xC0) * 64 + (b - 0x80);
    SixBits(a - 0xC0, b - 0x80);
  }

  lemma Three(s: seq<byte>) returns (cp: nat)
    requires CharLength(s) == 3
    ensures Scalar(cp) && s[..3] == Encode(cp)
  {
    var a: int, b: int, c: int := s[0], s[1], s[2];
    var x := (a - 0xE0) * 64 + (b - 0x80);
    cp := x * 64 + (c - 0x80);
    SixBits(a - 0xE0, b - 0x80);
    SixBits(x, c - 0x80);
    DivTwice(cp);
    assert 0x800 <= cp < 0x1_0000;
    assert s[..3] == [s[0], s[1], s[2]];
  }

  lemma Four(s: seq<byte>) returns (cp: nat)
    requires CharLength(s) == 4
    ensures Scalar(cp) && s[..4] == Encode(cp)
  {
    var a: int, b: int, c: int, d: int := s[0], s[1], s[2], s[3];
    var x := (a - 0xF0) * 64 + (b - 0x80);
    var y := x * 64 + (c - 0x80);
    cp := y * 64 + (d - 0x80);
    SixBits(a - 0xF0, b - 0x80);
    SixBits(x, c - 0x80);
    SixBits(y, d - 0x80);
    DivTwice(cp);
    DivTwice(y);
    assert cp / 262_144 == cp / 4096 / 64;
    assert 0x1_0000 <= cp < 0x11_0000;
    assert s[..4] == [s[0], s[1], s[2], s[3]];
  }

  lemma SixBits(x: nat, d: nat)
    requires d < 64
    ensures (x * 64 + d) / 64 == x && (x * 64 + d) % 64 == d
  {
  }

  lemma DivTwice(x: nat)
    ensures x / 4096 == x / 64 / 64
  {
  }

  /** What is taken for text: exactly the encodings of sequences of scalar values. */
  lemma Utf8Means(s: seq<byte>)
    ensures Utf8(s) <==> exists cps: seq<nat> :: Scalars(cps) && EncodeAll(cps) == s
  {
    if Utf8(s) { var cps := Decoded(s); }
    if cps: seq<nat> :| Scalars(cps) && EncodeAll(cps) == s { EncodedIsUtf8(cps); }
  }

  lemma {:induction false} Decoded(s: seq<byte>) returns (cps: seq<nat>)
    requires Utf8(s)
    ensures Scalars(cps) && EncodeAll(cps) == s
    decreases |s|
  {
    hide CharLength, Encode;
    if s == [] {
      cps := [];
    } else {
      var cp := CharIsEncoded(s);
      var rest := Decoded(s[CharLength(s)..]);
      cps := [cp] + rest;
      assert cps[1..] == rest && s == s[..CharLength(s)] + s[CharLength(s)..];
    }
  }

  lemma {:induction false} EncodedIsUtf8(cps: seq<nat>)
    requires Scalars(cps)
    ensures Utf8(EncodeAll(cps))
  {
    hide CharLength, Encode;
    if cps == [] {
    } else {
      var e, rest := Encode(cps[0]), EncodeAll(cps[1..]);
      EncodedIsChar(cps[0], rest);
      EncodedIsUtf8(cps[1..]);
      assert (e + rest)[|e|..] == rest;
    }
  }

  // ---- chunks ----

  /** One chunk of the response: text is appended and complete lines are drained, anything else is ignored. */
  function Feed(buffer: seq<byte>, chunk: seq<byte>): Framed {
    if Utf8(chunk) then Split(buffer + chunk) else Framed([], buffer)
  }

  function FeedAll(buffer: seq<byte>, chunks: seq<seq<byte>>): Framed
    decreases |chunks|
  {
    if chunks == [] then Framed([], buffer)
    else
      var first := Feed(buffer, chunks[0]);
      var tail := FeedAll(first.rest, chunks[1..]);
      Framed(first.lines + tail.lines, tail.rest)
  }

  /** The text that gets through: every chunk that is UTF-8 by itself. */
  function TextOf(chunks: seq<seq<byte>>): seq<byte> {
    if chunks == [] then [] else (if Utf8(chunks[0]) then chunks[0] else []) + TextOf(chunks[1..])
  }

  /** The definition of splitting, one line at a time. */
  lemma {:induction false} SplitStep(s: seq<byte>)
    ensures var p := FindNewline(s);
            if p == |s| then Split(s) == Framed([], s)
            else Split(s) == Framed([s[..p + 1]] + Split(s[p + 1..]).lines, Split(s[p + 1..]).rest)
  {
    hide FindNewline;
  }

  lemma {:induction false} SplitAppend(a: seq<byte>, b: seq<byte>)
    ensures Split(a + b) == Framed(Split(a).lines + Split(Split(a).rest + b).lines, Split(Split(a).rest + b).rest)
    decreases |a|
  {
    hide Split, FindNewline;
    SplitStep(a);
    var p := FindNewline(a);
    if p >= |a| {
    } else {
      var line, tail := a[..p + 1], a[p + 1..];
      FirstNewline(a + b, p);
      SplitStep(a + b);
      assert (a + b)[..p + 1] == line && (a + b)[p + 1..] == tail + b;
      SplitAppend(tail, b);
      var more := Split(Split(tail).rest + b).lines;
      assert [line] + (Split(tail).lines + more) == [line] + Split(tail).lines + more;
    }
  }

  lemma {:induction false} FirstNewline(s: seq<byte>, p: nat)
    requires p < |s| && s[p] == NEWLINE && forall i | 0 <= i < p :: s[i] != NEWLINE
    ensures FindNewline(s) == p
  {
  }

  /** What is left after splitting holds no line. */
  lemma {:induction false} RestHasNoLine(s: seq<byte>)
    ensures Split(Split(s).rest) == Framed([], Split(s).rest)
    decreases |s|
  {
    hide Split, FindNewline;
    SplitStep(s);
    var p := FindNewline(s);
    if p >= |s| {
    } else {
      RestHasNoLine(s[p + 1..]);
    }
  }

  /** Each line ends in a newline and holds no other, and the rest holds none. */
  lemma {:induction false} LinesAreLines(s: seq<byte>)
    ensures forall l | l in Split(s).lines :: l != [] && l[|l| - 1] == 10 && 10 !in l[..|l| - 1]
    ensures 10 !in Split(s).rest
    decreases |s|
  {
    hide Split, FindNewline;
    SplitStep(s);
    var p := FindNewline(s);
    if p >= |s| {
    } else {
      LinesAreLines(s[p + 1..]);
      assert s[..p + 1][..p] == s[..p];
    }
  }

  /** Nothing is added and nothing is lost by splitting. */
  lemma {:induction false} SplitJoins(s: seq<byte>)
    ensures Join(Split(s).lines) + Split(s).rest == s
    decreases |s|
  {
    hide Split, FindNewline;
    SplitStep(s);
    var p := FindNewline(s);
    if p >= |s| {
    } else {
      var tail := Split(s[p + 1..]);
      SplitJoins(s[p + 1..]);
      assert ([s[..p + 1]] + tail.lines)[1..] == tail.lines;
      assert s[..p + 1] + (Join(tail.lines) + tail.rest) == s;
    }
  }

  /** Feeding chunk by chunk is splitting the text that gets through, once. */
  lemma {:induction false} FeedIsSplit(buffer: seq<byte>, chunks: seq<seq<byte>>)
    requires Split(buffer) == Framed([], buffer)
    ensures FeedAll(buffer, chunks) == Split(buffer + TextOf(chunks))
    decreases |chunks|
  {
    hide Split, Utf8;
    if chunks == [] {
      assert buffer + [] == buffer;
    } else {
      var first := Feed(buffer, chunks[0]);
      RestHasNoLine(buffer + chunks[0]);
      FeedIsSplit(first.rest, chunks[1..]);
      if Utf8(chunks[0]) {
        SplitAppend(buffer + chunks[0], TextOf(chunks[1..]));
        assert buffer + chunks[0] + TextOf(chunks[1..]) == buffer + TextOf(chunks);
      } else {
        assert buffer + TextOf(chunks[1..]) == buffer + TextOf(chunks);
      }
    }
  }

  lemma EmptyIsUtf8()
    ensures Utf8([])
  {
  }

  lemma {:induction false} TextLength(chunks: seq<seq<byte>>)
    ensures |TextOf(chunks)| <= |Join(chunks)|
    ensures |TextOf(chunks)| == |Join(chunks)| <==> forall c | c in chunks :: Utf8(c)
    ensures (forall c | c in chunks :: Utf8(c)) ==> TextOf(chunks) == Join(chunks)
  {
    if chunks == [] {
    } else {
      hide Utf8;
      TextLength(chunks[1..]);
      EmptyIsUtf8();
      assert chunks[0] in chunks && forall c :: c in chunks <==> c == chunks[0] || c in chunks[1..];
    }
  }

  /**
   Chunk independence: the lines handled and the leftover are those of the whole stream split at its
   newlines once, exactly when every chunk is UTF-8 by itself.
   */
  lemma ChunkIndependence(chunks: seq<seq<byte>>)
    ensures FeedAll([], chunks) == Split(Join(chunks)) <==> forall c | c in chunks :: Utf8(c)
  {
    assert Split([]) == Framed([], []);
    FeedIsSplit([], chunks);
    TextLength(chunks);
    assert [] + TextOf(chunks) == TextOf(chunks);
    SplitJoins(TextOf(chunks));
    SplitJoins(Join(chunks));
  }

  /** Any two ways of chunking one stream agree, as long as no chunk splits a character. */
  lemma SameForAnyChunking(a: seq<seq<byte>>, b: seq<seq<byte>>)
    requires Join(a) == Join(b)
    requires (forall c | c in a :: Utf8(c)) && forall c | c in b :: Utf8(c)
    ensures FeedAll([], a) == FeedAll([], b)
  {
    ChunkIndependence(a);
    ChunkIndependence(b);
  }

  lemma {:induction false} AsciiIsUtf8(s: seq<byte>)
    requires forall b | b in s :: b <= 0x7F
    ensures Utf8(s)
    decreases |s|
  {
    if s == [] {
    } else {
      assert s[0] in s && forall b | b in s[1..] :: b in s;
      AsciiIsUtf8(s[1..]);
    }
  }

  lemma {:induction false} JoinMembers(chunks: seq<seq<byte>>, c: seq<byte>, b: byte)
    requires c in chunks && b in c
    ensures b in Join(chunks)
  {
    if c == chunks[0] {
    } else {
      JoinMembers(chunks[1..], c, b);
    }
  }

  /** An ASCII stream may be cut anywhere. */
  lemma AsciiStreams(chunks: seq<seq<byte>>)
    requires forall b | b in Join(chunks) :: b <= 0x7F
    ensures FeedAll([], chunks) == Split(Join(chunks))
  {
    forall c | c in chunks ensures Utf8(c) {
      forall b | b in c ensures b <= 0x7F { JoinMembers(chunks, c, b); }
      AsciiIsUtf8(c);
    }
    ChunkIndependence(chunks);
  }

  /** A character split between two chunks is lost, and with it both chunks. */
  lemma SplitCharacterIsLost()
    ensures Utf8([0xC3, 0xA9]) && !Utf8([0xC3]) && !Utf8([0xA9])
    ensures FeedAll([], [[0xC3], [0xA9]]) == Framed([], []) != Split([0xC3, 0xA9])
  {
    assert [0xC3, 0xA9][2..] == [];
    assert [[0xC3], [0xA9]][1..] == [[0xA9]] && [[0xA9]][1..] == [];
    assert FindNewline([0xC3, 0xA9]) == 2;
  }

  // ---- the draining loop ----

  datatype Drained = Drained(lines: seq<seq<byte>>, rest: seq<byte>, ok: bool)

  /** Draining until the handler of some line says to stop. */
  function Drain(s: seq<byte>, goOn: seq<byte> -> bool): Drained
    decreases |s|
  {
    var p := FindNewline(s);
    if p == |s| then Drained([], s, true)
    else if !goOn(s[..p + 1]) then Drained([s[..p + 1]], s[p + 1..], false)
    else
      var tail := Drain(s[p + 1..], goOn);
      Drained([s[..p + 1]] + tail.lines, tail.rest, tail.ok)
  }

  /** A handler that always goes on, as the response task's does, sees every line. */
  lemma {:induction false} DrainIsSplit(s: seq<byte>, goOn: seq<byte> -> bool)
    requires forall line :: goOn(line)
    ensures Drain(s, goOn) == Drained(Split(s).lines, Split(s).rest, true)
    decreases |s|
  {
    var p := FindNewline(s);
    if p >= |s| {
    } else {
      DrainIsSplit(s[p + 1..], goOn);
    }
  }

  /** The text buffer of the response task. */
  class AckBuffer {
    var buffer: seq<byte>

    constructor ()
      ensures buffer == []
    {
      buffer := [];
    }

    /** `process_ack_buffer`: drain complete lines until none is left or the handler stops. */
    method ProcessAckBuffer(goOn: seq<byte> -> bool) returns (lines: seq<seq<byte>>, ok: bool)
      modifies this
      ensures Drained(lines, buffer, ok) == Drain(old(buffer), goOn)
    {
      hide FindNewline;
      lines := [];
      var p := FindNewline(buffer);
      while p < |buffer|
        invariant p == FindNewline(buffer)
        invariant Drain(old(buffer), goOn)
               == var d := Drain(buffer, goOn); Drained(lines + d.lines, d.rest, d.ok)
        decreases |buffer|
      {
        var line := buffer[..p + 1];
        ghost var d := Drain(buffer[p + 1..], goOn);
        assert lines + ([line] + d.lines) == lines + [line] + d.lines;
        buffer := buffer[p + 1..];
        lines := lines + [line];
        if !goOn(line) {
          return lines, false;
        }
        p := FindNewline(buffer);
      }
      ok := true;
    }

    /** One chunk of the response body. */
    method Receive(chunk: seq<byte>) returns (lines: seq<seq<byte>>)
      modifies this
      ensures Framed(lines, buffer) == Feed(old(buffer), chunk)
    {
      lines := [];
      if Utf8(chunk) {
        buffer := buffer + chunk;
        DrainIsSplit(buffer, _ => true);
        var ok;
        lines, ok := ProcessAckBuffer(_ => true);
      }
    }
  }
}
