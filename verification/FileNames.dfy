/**
 Names of mega-cluster files, `{stream}_clusters_{milliseconds}.dat`, and the order in which a
 restart scan finds them: names are compared character by character, stamps are numbers.
 */
module FileNames {
  const INFIX := "_clusters_"
  const SUFFIX := ".dat"

  function Digit(d: nat): char
    requires d < 10
  {
    '0' + d as char
  }

  function Decimal(n: nat): (s: string)
    ensures |s| > 0
  {
    if n < 10 then [Digit(n)] else Decimal(n / 10) + [Digit(n % 10)]
  }

  function FileName(stream: string, stampMs: nat): string {
    stream + INFIX + Decimal(stampMs) + SUFFIX
  }

  /** The number a digit string stands for. */
  function Value(s: string): nat
    requires forall i | 0 <= i < |s| :: '0' <= s[i] <= '9'
  {
    if s == [] then 0 else 10 * Value(s[..|s| - 1]) + (s[|s| - 1] - '0') as nat
  }

  /** Stamps are written in decimal, and no two in the same way. */
  lemma {:induction false} DecimalValue(n: nat)
    ensures forall i | 0 <= i < |Decimal(n)| :: '0' <= Decimal(n)[i] <= '9'
    ensures Value(Decimal(n)) == n
    ensures n > 0 ==> Decimal(n)[0] != '0'
  {
    if n < 10 {
      assert [Digit(n)][..0] == [];
    } else {
      DecimalValue(n / 10);
      assert Decimal(n)[..|Decimal(n)| - 1] == Decimal(n / 10);
    }
  }

  /** What a file is called. */
  lemma FileNameIs(stream: string, stampMs: nat)
    ensures FileName(stream, stampMs) == stream + "_clusters_" + Decimal(stampMs) + ".dat"
  {
  }

  /** The byte-wise order of file names. */
  predicate Less(a: string, b: string)
    decreases |a|
  {
    b != [] && (a == [] || a[0] < b[0] || (a[0] == b[0] && Less(a[1..], b[1..])))
  }

  predicate StartsWith(s: string, p: string) { |p| <= |s| && s[..|p|] == p }

  predicate EndsWith(s: string, p: string) { |p| <= |s| && s[|s| - |p|..] == p }

  predicate Contains(s: string, p: string) {
    exists i | 0 <= i <= |s| :: StartsWith(s[i..], p)
  }

  /** The filter of the restart scan. */
  predicate Scanned(stream: string, name: string) {
    StartsWith(name, stream) && Contains(name, INFIX) && EndsWith(name, SUFFIX)
  }

  /** The filter in words: the name begins with the stream's, ends in .dat, and has the infix somewhere. */
  lemma ScannedMeans(stream: string, name: string)
    ensures Scanned(stream, name) <==>
            && (exists rest :: name == stream + rest)
            && (exists a, b :: name == a + "_clusters_" + b)
            && (exists front :: name == front + ".dat")
  {
    BeginsWith(name, stream);
    if Contains(name, INFIX) {
      var i :| 0 <= i <= |name| && StartsWith(name[i..], INFIX);
      assert name == name[..i] + "_clusters_" + name[i + |INFIX|..];
    }
    if a, b :| name == a + "_clusters_" + b {
      assert name[|a|..][..|INFIX|] == INFIX;
      assert StartsWith(name[|a|..], INFIX);
    }
    if EndsWith(name, SUFFIX) { assert name == name[..|name| - |SUFFIX|] + ".dat"; }
  }

  lemma BeginsWith(name: string, p: string)
    ensures StartsWith(name, p) <==> exists rest :: name == p + rest
  {
    if StartsWith(name, p) { assert name == p + name[|p|..]; }
  }

  /** The strings agree up to k, and there a ends or has the smaller character. */
  predicate SmallerAt(a: string, b: string, k: nat) {
    k <= |a| && k < |b| && a[..k] == b[..k] && (k == |a| || a[k] < b[k])
  }

  /** The order in words. */
  lemma LessMeans(a: string, b: string)
    ensures Less(a, b) <==> exists k: nat :: SmallerAt(a, b, k)
  {
    if Less(a, b) { var _ := FirstDifference(a, b); }
    if k: nat :| SmallerAt(a, b, k) { SmallerIsLess(a, b, k); }
  }

  lemma {:induction false} FirstDifference(a: string, b: string) returns (k: nat)
    requires Less(a, b)
    ensures SmallerAt(a, b, k)
  {
    if a == [] || a[0] < b[0] {
      k := 0;
    } else {
      var j := FirstDifference(a[1..], b[1..]);
      k := j + 1;
      assert a[..k] == [a[0]] + a[1..][..j] && b[..k] == [b[0]] + b[1..][..j];
    }
  }

  lemma {:induction false} SmallerIsLess(a: string, b: string, k: nat)
    requires SmallerAt(a, b, k)
    ensures Less(a, b)
    decreases k
  {
    if k == 0 {
    } else {
      assert a[0] == a[..k][0] == b[..k][0] == b[0];
      assert a[1..][..k - 1] == a[..k][1..] && b[1..][..k - 1] == b[..k][1..];
      SmallerIsLess(a[1..], b[1..], k - 1);
    }
  }

  lemma CreatedNameIsScanned(stream: string, stampMs: nat)
    ensures Scanned(stream, FileName(stream, stampMs))
  {
    var name := FileName(stream, stampMs);
    assert name[..|stream|] == stream;
    assert name[|stream|..] == INFIX + Decimal(stampMs) + SUFFIX;
    assert StartsWith(name[|stream|..], INFIX);
    assert name[|name| - |SUFFIX|..] == SUFFIX;
  }

  lemma {:induction false} LessIrreflexive(a: string)
    ensures !Less(a, a)
  {
    if a == [] {
    } else {
      LessIrreflexive(a[1..]);
    }
  }

  lemma {:induction false} LessTransitive(a: string, b: string, c: string)
    requires Less(a, b) && Less(b, c)
    ensures Less(a, c)
    decreases |a|
  {
    if a == [] || a[0] != b[0] || b[0] != c[0] {
    } else {
      LessTransitive(a[1..], b[1..], c[1..]);
    }
  }

  lemma {:induction false} LessTotal(a: string, b: string)
    ensures Less(a, b) || a == b || Less(b, a)
  {
    if a == [] || b == [] || a[0] != b[0] {
    } else {
      LessTotal(a[1..], b[1..]);
      assert a == [a[0]] + a[1..] && b == [b[0]] + b[1..];
    }
  }

  lemma {:induction false} LessPrefix(p: string, a: string, b: string)
    ensures Less(p + a, p + b) <==> Less(a, b)
  {
    if p == [] {
      assert p + a == a && p + b == b;
    } else {
      assert (p + a)[1..] == p[1..] + a && (p + b)[1..] == p[1..] + b;
      LessPrefix(p[1..], a, b);
    }
  }

  /** Strings of one length are compared before anything that follows them. */
  lemma {:induction false} LessThenSuffix(a: string, b: string, s: string, t: string)
    requires |a| == |b|
    ensures Less(a + s, b + t) <==> Less(a, b) || (a == b && Less(s, t))
  {
    if a == [] {
      assert a + s == s && b + t == t;
    } else {
      assert (a + s)[1..] == a[1..] + s && (b + t)[1..] == b[1..] + t;
      LessThenSuffix(a[1..], b[1..], s, t);
      assert a == [a[0]] + a[1..] && b == [b[0]] + b[1..];
    }
  }

  /** Among decimals of one length the character order is the numeric order. */
  lemma {:induction false} DecimalOrder(m: nat, n: nat)
    requires |Decimal(m)| == |Decimal(n)|
    ensures Less(Decimal(m), Decimal(n)) <==> m < n
    ensures Decimal(m) == Decimal(n) <==> m == n
  {
    if m < 10 {
      LessIrreflexive([]);
    } else {
      var p, q := Decimal(m / 10), Decimal(n / 10);
      assert |p| == |q|;
      DecimalOrder(m / 10, n / 10);
      LessThenSuffix(p, q, [Digit(m % 10)], [Digit(n % 10)]);
      assert Decimal(m)[..|p|] == p && Decimal(n)[..|q|] == q;
      assert Less([Digit(m % 10)], [Digit(n % 10)]) <==> m % 10 < n % 10;
      assert Decimal(m)[|p|] == Digit(m % 10) && Decimal(n)[|q|] == Digit(n % 10);
    }
  }

  /** Names of one stream with stamps of one length sort by stamp. */
  lemma FileNameOrder(stream: string, m: nat, n: nat)
    requires |Decimal(m)| == |Decimal(n)|
    ensures Less(FileName(stream, m), FileName(stream, n)) <==> m < n
    ensures FileName(stream, m) == FileName(stream, n) <==> m == n
  {
    var a, b := Decimal(m), Decimal(n);
    assert FileName(stream, m) == (stream + INFIX) + (a + SUFFIX);
    assert FileName(stream, n) == (stream + INFIX) + (b + SUFFIX);
    LessPrefix(stream + INFIX, a + SUFFIX, b + SUFFIX);
    LessThenSuffix(a, b, SUFFIX, SUFFIX);
    LessIrreflexive(SUFFIX);
    DecimalOrder(m, n);
    if FileName(stream, m) == FileName(stream, n) {
      assert a == FileName(stream, m)[|stream + INFIX|..|stream + INFIX| + |a|];
      assert b == FileName(stream, n)[|stream + INFIX|..|stream + INFIX| + |b|];
    }
  }

  /** The stamps this holds for: every millisecond from 2001-09-09 to 2286-11-20 has 13 digits. */
  lemma StampsOfOneLength(n: nat)
    requires 1_000_000_000_000 <= n < 10_000_000_000_000
    ensures |Decimal(n)| == 13
  {
    assert Power10(4) == 10_000 by { assert Power10(2) == 100; }
    assert Power10(8) == 100_000_000 by { assert Power10(6) == 1_000_000; }
    assert Power10(12) == 1_000_000_000_000 by { assert Power10(10) == 10_000_000_000; }
    DecimalLength(n, 13, 1_000_000_000_000);
  }

  lemma {:induction false} DecimalLength(n: nat, k: nat, low: nat)
    requires k >= 1 && low == Power10(k - 1)
    requires (if k == 1 then 0 else low) <= n < 10 * low
    ensures |Decimal(n)| == k
  {
    if k == 1 {
    } else {
      DecimalLength(n / 10, k - 1, low / 10);
    }
  }

  function Power10(k: nat): nat { if k == 0 then 1 else 10 * Power10(k - 1) }

  /** A name list in scan order. */
  predicate Sorted(names: seq<string>) {
    forall i, j | 0 <= i < j < |names| :: Less(names[i], names[j])
  }

  /** A set of names has only one listing in scan order. */
  lemma {:induction false} SortedIsUnique(a: seq<string>, b: seq<string>)
    requires Sorted(a) && Sorted(b)
    requires forall x :: x in a <==> x in b
    ensures a == b
  {
    assert a != [] ==> a[0] in b;
    assert b != [] ==> b[0] in a;
    if a == [] {
    } else {
      if a[0] != b[0] {
        var i :| 0 <= i < |b| && b[i] == a[0];
        var j :| 0 <= j < |a| && a[j] == b[0];
        assert Less(b[0], b[i]) && Less(a[0], a[j]);
        LessTransitive(a[0], b[0], a[0]);
        LessIrreflexive(a[0]);
        assert false;
      }
      TailMembers(a, b);
      TailMembers(b, a);
      SortedIsUnique(a[1..], b[1..]);
      assert a == [a[0]] + a[1..] && b == [b[0]] + b[1..];
    }
  }

  lemma TailMembers(a: seq<string>, b: seq<string>)
    requires Sorted(a) && Sorted(b) && a != [] && b != [] && a[0] == b[0]
    requires forall x :: x in a ==> x in b
    ensures forall x :: x in a[1..] ==> x in b[1..]
  {
    forall x | x in a[1..] ensures x in b[1..] {
      var i :| 1 <= i < |a| && a[i] == x;
      LessIrreflexive(a[0]);
      assert Less(a[0], a[i]) && x != b[0] && x in b;
      var j :| 0 <= j < |b| && b[j] == x;
      assert b[1..][j - 1] == x;
    }
  }

  /** `sort_by_key(path)` over the directory entries the filter kept. */
  method SortNames(names: set<string>) returns (r: seq<string>)
    ensures Sorted(r)
    ensures forall x :: x in r <==> x in names
  {
    r := [];
    var left := names;
    while left != {}
      invariant Sorted(r)
      invariant left <= names
      invariant forall x :: x in r <==> x in names - left
      decreases left
    {
      var x :| x in left;
      r := Insert(r, x);
      left := left - {x};
    }
  }

  method Insert(s: seq<string>, x: string) returns (r: seq<string>)
    requires Sorted(s) && x !in s
    ensures Sorted(r)
    ensures forall y :: y in r <==> y in s || y == x
  {
    var i := 0;
    while i < |s| && Less(s[i], x)
      invariant 0 <= i <= |s|
      invariant forall j | 0 <= j < i :: Less(s[j], x)
    {
      i := i + 1;
    }
    r := s[..i] + [x] + s[i..];
    forall j | i <= j < |s| ensures Less(x, s[j]) {
      LessTotal(s[i], x);
      if j > i { LessTransitive(x, s[i], s[j]); }
    }
    forall j, k | 0 <= j < k < |r| ensures Less(r[j], r[k]) {
      if j < i && k > i { assert Less(s[j], s[k - 1]); }
    }
    assert forall y :: y in s <==> y in s[..i] || y in s[i..] by { assert s == s[..i] + s[i..]; }
  }
}
