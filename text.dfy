/**
 * The parts of Python's `str` that the quiz application relies on:
 * `strip()`, `removeprefix()`, `removesuffix()` and `lower()`.
 */
module Text {

  /** Python's `str.isspace()` on one character: ASCII whitespace, the
      separators U+001C..U+001F and the Unicode space characters. */
  predicate IsSpace(c: char) {
    var n := c as int;
    (9 <= n <= 13) || (0x1c <= n <= 0x20) || n == 0x85 || n == 0xa0 || n == 0x1680
    || (0x2000 <= n <= 0x200a) || n == 0x2028 || n == 0x2029 || n == 0x202f
    || n == 0x205f || n == 0x3000
  }

  predicate AllSpace(s: string) {
    forall i :: 0 <= i < |s| ==> IsSpace(s[i])
  }

  /** Neither the first nor the last character is whitespace. */
  predicate Trimmed(s: string) {
    s == [] || (!IsSpace(s[0]) && !IsSpace(s[|s| - 1]))
  }

  /** `s.strip()`: whitespace is cut from the front, then from the end,
      until neither end is whitespace. */
  function Strip(s: string): (r: string)
    ensures Trimmed(r)
    ensures |r| <= |s|
  {
    if s != [] && IsSpace(s[0]) then Strip(s[1..])
    else if s != [] && IsSpace(s[|s| - 1]) then Strip(s[..|s| - 1])
    else s
  }

  lemma AllSpaceConcat(a: string, b: string)
    requires AllSpace(a) && AllSpace(b)
    ensures AllSpace(a + b)
  {
    assert forall k :: 0 <= k < |a + b| ==> (a + b)[k] == if k < |a| then a[k] else b[k - |a|];
  }

  /** Only whitespace is cut: the result is the slice of `s` that starts
      at `i`, with whitespace on either side of it. */
  lemma {:induction false} StripIsSlice(s: string) returns (i: nat)
    ensures i + |Strip(s)| <= |s| && Strip(s) == s[i..i + |Strip(s)|]
    ensures AllSpace(s[..i]) && AllSpace(s[i + |Strip(s)|..])
    decreases |s|
  {
    if s != [] && IsSpace(s[0]) {
      i := StripFront(s);
    } else if s != [] && IsSpace(s[|s| - 1]) {
      i := StripBack(s);
    } else {
      i := 0;
      assert s[..0] == [] && s[|s|..] == [];
    }
  }

  /** The step of `StripIsSlice` that cuts the first character. */
  lemma {:induction false} StripFront(s: string) returns (i: nat)
    requires s != [] && IsSpace(s[0])
    ensures i + |Strip(s)| <= |s| && Strip(s) == s[i..i + |Strip(s)|]
    ensures AllSpace(s[..i]) && AllSpace(s[i + |Strip(s)|..])
    decreases |s|, 0
  {
    var r := Strip(s);
    var t := s[1..];
    assert r == Strip(t);
    var j := StripIsSlice(t);
    i := j + 1;
    DropSlices(s, j, j + |r|);
    AllSpaceConcat([s[0]], t[..j]);
  }

  /** The step of `StripIsSlice` that cuts the last character. */
  lemma {:induction false} StripBack(s: string) returns (i: nat)
    requires s != [] && !IsSpace(s[0]) && IsSpace(s[|s| - 1])
    ensures i + |Strip(s)| <= |s| && Strip(s) == s[i..i + |Strip(s)|]
    ensures AllSpace(s[..i]) && AllSpace(s[i + |Strip(s)|..])
    decreases |s|, 0
  {
    var r := Strip(s);
    var t := s[..|s| - 1];
    assert r == Strip(t);
    i := StripIsSlice(t);
    TakeSlices(s, i, i + |r|);
    AllSpaceConcat(t[i + |r|..], [s[|s| - 1]]);
  }

  /** Slices of `s[1..]` are slices of `s` shifted by one. */
  lemma DropSlices<T>(s: seq<T>, a: nat, b: nat)
    requires 1 <= |s| && a <= b <= |s| - 1
    ensures s[..a + 1] == [s[0]] + s[1..][..a]
    ensures s[a + 1..b + 1] == s[1..][a..b]
    ensures s[b + 1..] == s[1..][b..]
  {
    var t := s[1..];
    var p, q := s[..a + 1], [s[0]] + t[..a];
    assert forall k | 0 <= k < |p| :: p[k] == q[k];
    var c, d := s[a + 1..b + 1], t[a..b];
    assert forall k | 0 <= k < |c| :: c[k] == d[k];
    var e, f := s[b + 1..], t[b..];
    assert forall k | 0 <= k < |e| :: e[k] == f[k];
  }

  /** Slices of `s[..|s| - 1]` are slices of `s`, and its suffixes lack
      only the last element. */
  lemma TakeSlices<T>(s: seq<T>, a: nat, b: nat)
    requires 1 <= |s| && a <= b <= |s| - 1
    ensures s[..a] == s[..|s| - 1][..a]
    ensures s[a..b] == s[..|s| - 1][a..b]
    ensures s[b..] == s[..|s| - 1][b..] + [s[|s| - 1]]
  {
    var t := s[..|s| - 1];
    var p, q := s[..a], t[..a];
    assert forall k | 0 <= k < |p| :: p[k] == q[k];
    var c, d := s[a..b], t[a..b];
    assert forall k | 0 <= k < |c| :: c[k] == d[k];
    var e, f := s[b..], t[b..] + [s[|s| - 1]];
    assert forall k | 0 <= k < |e| :: e[k] == f[k];
  }

  /** Stripping recovers exactly the core of any whitespace-padded,
      already trimmed string; with `StripIsSlice` this characterises
      `strip()` completely. */
  lemma {:induction false} StripPadded(w1: string, x: string, w2: string)
    requires AllSpace(w1) && AllSpace(w2) && Trimmed(x)
    ensures Strip(w1 + x + w2) == x
    decreases |w1| + |w2|
  {
    var s := w1 + x + w2;
    if w1 != [] {
      assert s[0] == w1[0];
      assert s[1..] == w1[1..] + x + w2;
      StripPadded(w1[1..], x, w2);
    } else if w2 != [] {
      assert s == x + w2;
      if x != [] {
        assert s[0] == x[0];
      } else {
        assert s[0] == w2[0];
        assert s[1..] == [] + x + w2[1..];
        StripPadded([], x, w2[1..]);
        return;
      }
      assert s[|s| - 1] == w2[|w2| - 1];
      assert s[..|s| - 1] == [] + x + w2[..|w2| - 1];
      StripPadded([], x, w2[..|w2| - 1]);
    } else {
      assert s == x;
    }
  }

  /** More whitespace around a string strips to the same result. */
  lemma StripIgnoresPadding(w1: string, s: string, w2: string)
    requires AllSpace(w1) && AllSpace(w2)
    ensures Strip(w1 + s + w2) == Strip(s)
  {
    var i := StripIsSlice(s);
    var core := Strip(s);
    var a, b := s[..i], s[i + |core|..];
    Regroup(w1, s, w2, i, i + |core|);
    AllSpaceConcat(w1, a);
    AllSpaceConcat(b, w2);
    StripPadded(w1 + a, core, b + w2);
  }

  /** Cutting `s` at `i` and `j` and moving the outer pieces into the
      padding leaves the same sequence. */
  lemma Regroup<T>(w1: seq<T>, s: seq<T>, w2: seq<T>, i: nat, j: nat)
    requires i <= j <= |s|
    ensures w1 + s + w2 == (w1 + s[..i]) + s[i..j] + (s[j..] + w2)
  {
    assert s == s[..i] + s[i..j] + s[j..];
  }

  /** `strip()` is idempotent: a trimmed string is its own strip. */
  lemma StripTrimmed(x: string)
    requires Trimmed(x)
    ensures Strip(x) == x
  {
    assert [] + x + [] == x;
    StripPadded([], x, []);
  }

  /** `s.removeprefix(p)`. */
  function RemovePrefix(s: string, p: string): (r: string)
    ensures p <= s ==> p + r == s
    ensures !(p <= s) ==> r == s
  {
    if p <= s then s[|p|..] else s
  }

  predicate EndsWith(s: string, p: string) {
    |p| <= |s| && s[|s| - |p|..] == p
  }

  /** `s.removesuffix(p)`. */
  function RemoveSuffix(s: string, p: string): (r: string)
    ensures EndsWith(s, p) ==> r + p == s
    ensures !EndsWith(s, p) ==> r == s
  {
    if EndsWith(s, p) then s[..|s| - |p|] else s
  }

  /** `c.lower()` for ASCII letters; every other character is kept. */
  function LowerChar(c: char): char {
    if 'A' <= c <= 'Z' then (c as int + 32) as char else c
  }

  /** `s.lower()`: each capital letter becomes its small letter and every
      other character is kept, so no capital is left. */
  function Lower(s: string): (r: string)
    ensures |r| == |s|
    ensures forall i :: 0 <= i < |r| ==> !('A' <= r[i] <= 'Z')
    ensures forall i :: 0 <= i < |s| && 'A' <= s[i] <= 'Z' ==> r[i] as int == s[i] as int + 32
    ensures forall i :: 0 <= i < |s| && !('A' <= s[i] <= 'Z') ==> r[i] == s[i]
  {
    seq(|s|, i requires 0 <= i < |s| => LowerChar(s[i]))
  }

  /** Lower-casing twice is lower-casing once. */
  lemma LowerIdempotent(s: string)
    ensures Lower(Lower(s)) == Lower(s)
  {
    var r := Lower(s);
    assert forall i | 0 <= i < |r| :: Lower(r)[i] == r[i];
  }

  /** Lower-casing commutes with stripping, because it maps whitespace to
      whitespace and nothing else to whitespace. */
  lemma {:induction false} StripLower(s: string)
    ensures Strip(Lower(s)) == Lower(Strip(s))
    decreases |s|
  {
    var l := Lower(s);
    if s != [] && IsSpace(s[0]) {
      assert IsSpace(l[0]);
      LowerDrop(s);
      StripLower(s[1..]);
    } else if s != [] && IsSpace(s[|s| - 1]) {
      assert !IsSpace(l[0]) && IsSpace(l[|l| - 1]);
      LowerTake(s);
      StripLower(s[..|s| - 1]);
    } else {
      StripTrimmed(l);
    }
  }

  lemma LowerDrop(s: string)
    requires s != []
    ensures Lower(s[1..]) == Lower(s)[1..]
  {
    var a, b := Lower(s[1..]), Lower(s)[1..];
    assert forall k | 0 <= k < |a| :: a[k] == b[k];
  }

  lemma LowerTake(s: string)
    requires s != []
    ensures Lower(s[..|s| - 1]) == Lower(s)[..|s| - 1]
  {
    var a, b := Lower(s[..|s| - 1]), Lower(s)[..|s| - 1];
    assert forall k | 0 <= k < |a| :: a[k] == b[k];
  }
}
