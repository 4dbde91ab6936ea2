/** The few operations on Rust's `str` that the resolver uses: `find`,
    `split_once`, `split`, `trim` and `contains`, over strings as sequences of
    Unicode scalar values. */
module Text {
  import opened Wrappers

  /** Rust's `char::is_whitespace`: the Unicode White_Space property. */
  predicate IsWhitespace(c: char)
  {
    ('\t' <= c <= '\r') || c == ' ' || c == '\U{0085}' || c == '\U{00A0}'
    || c == '\U{1680}' || ('\U{2000}' <= c <= '\U{200A}') || c == '\U{2028}'
    || c == '\U{2029}' || c == '\U{202F}' || c == '\U{205F}' || c == '\U{3000}'
  }

  predicate AllWhitespace(s: string)
  {
    forall k | 0 <= k < |s| :: IsWhitespace(s[k])
  }

  /** The first index at or after `from` that holds `c`. */
  function FindFrom(s: string, c: char, from: nat): (r: Option<nat>)
    requires from <= |s|
    ensures r.Some? ==> from <= r.value < |s| && s[r.value] == c && c !in s[from..r.value]
    ensures r.None? ==> c !in s[from..]
    decreases |s| - from
  {
    if from == |s| then None
    else if s[from] == c then Some(from)
    else FindFrom(s, c, from + 1)
  }

  /** Rust's `str::find` for a single character. */
  function Find(s: string, c: char): (r: Option<nat>)
    ensures r.Some? ==> r.value < |s| && s[r.value] == c && c !in s[..r.value]
    ensures r.None? <==> c !in s
  {
    assert s[0..] == s;
    FindFrom(s, c, 0)
  }

  /** Rust's `str::split_once` for a single character: the text before and
      after the first `c`. */
  function SplitOnce(s: string, c: char): (r: Option<(string, string)>)
    ensures r.None? <==> c !in s
    ensures r.Some? ==> s == r.value.0 + [c] + r.value.1 && c !in r.value.0
  {
    match Find(s, c)
    case None => None
    case Some(i) =>
      assert s == s[..i] + [c] + s[i + 1..];
      Some((s[..i], s[i + 1..]))
  }

  /** The pieces of `s[from..]` between occurrences of `c`. */
  function SplitFrom(s: string, c: char, from: nat): (r: seq<string>)
    requires from <= |s|
    ensures |r| >= 1
    ensures forall k | 0 <= k < |r| :: c !in r[k]
    ensures Join(r, c) == s[from..]
    decreases |s| - from
  {
    match FindFrom(s, c, from)
    case None => [s[from..]]
    case Some(i) =>
      var rest := SplitFrom(s, c, i + 1);
      assert ([s[from..i]] + rest)[1..] == rest;
      assert s[from..] == s[from..i] + [c] + s[i + 1..];
      [s[from..i]] + rest
  }

  /** Rust's `str::split` on a single character: every piece between two
      separators, so `k` separators give `k + 1` pieces and `""` gives `[""]`. */
  function Split(s: string, c: char): (r: seq<string>)
    ensures |r| >= 1
    ensures forall k | 0 <= k < |r| :: c !in r[k]
    ensures Join(r, c) == s
  {
    assert s[0..] == s;
    SplitFrom(s, c, 0)
  }

  /** The pieces put back together with `c` between neighbours. */
  function Join(parts: seq<string>, c: char): string
    requires |parts| >= 1
  {
    if |parts| == 1 then parts[0] else parts[0] + [c] + Join(parts[1..], c)
  }

  /** The number of occurrences of `c` in `s`. */
  function Count(s: string, c: char): nat
  {
    if s == [] then 0 else (if s[0] == c then 1 else 0) + Count(s[1..], c)
  }

  lemma {:induction false} CountAppend(a: string, b: string, c: char)
    ensures Count(a + b, c) == Count(a, c) + Count(b, c)
  {
    if a == [] {
      assert a + b == b;
    } else {
      assert (a + b)[1..] == a[1..] + b;
      CountAppend(a[1..], b, c);
    }
  }

  lemma {:induction false} CountAbsent(s: string, c: char)
    requires c !in s
    ensures Count(s, c) == 0
  {
    if s != [] {
      assert c !in s[1..];
      CountAbsent(s[1..], c);
    }
  }

  /** Splitting returns exactly one piece more than there are separators. */
  lemma {:induction false} SplitCount(parts: seq<string>, c: char)
    requires |parts| >= 1
    requires forall k | 0 <= k < |parts| :: c !in parts[k]
    ensures Count(Join(parts, c), c) == |parts| - 1
  {
    CountAbsent(parts[0], c);
    if |parts| > 1 {
      SplitCount(parts[1..], c);
      CountAppend(parts[0] + [c], Join(parts[1..], c), c);
      CountAppend(parts[0], [c], c);
    }
  }

  /** `split` and `join` undo each other: joining the pieces gives the text
      back, and splitting a join of separator-free pieces gives the pieces. */
  lemma {:induction false} SplitJoin(parts: seq<string>, c: char)
    requires |parts| >= 1
    requires forall k | 0 <= k < |parts| :: c !in parts[k]
    ensures Split(Join(parts, c), c) == parts
  {
    var s := Join(parts, c);
    var r := Split(s, c);
    JoinInjective(r, parts, c);
  }

  /** Two separator-free splittings of one text are equal. */
  lemma {:induction false} JoinInjective(p: seq<string>, q: seq<string>, c: char)
    requires |p| >= 1 && |q| >= 1
    requires forall k | 0 <= k < |p| :: c !in p[k]
    requires forall k | 0 <= k < |q| :: c !in q[k]
    requires Join(p, c) == Join(q, c)
    ensures p == q
  {
    var s := Join(p, c);
    if |p| > 1 && |q| > 1 {
      assert s == p[0] + [c] + Join(p[1..], c);
      assert s == q[0] + [c] + Join(q[1..], c);
      FirstPieceUnique(p[0], Join(p[1..], c), q[0], Join(q[1..], c), c);
      assert p[0] == q[0];
      assert Join(p[1..], c) == Join(q[1..], c);
      JoinInjective(p[1..], q[1..], c);
      assert p == [p[0]] + p[1..];
      assert q == [q[0]] + q[1..];
    }
  }

  lemma FirstPieceUnique(a: string, x: string, b: string, y: string, c: char)
    requires c !in a && c !in b
    requires a + [c] + x == b + [c] + y
    ensures a == b && x == y
  {
    var s := a + [c] + x;
    assert s[|a|] == c && s[|b|] == c;
    assert forall k | 0 <= k < |a| :: s[k] == a[k];
    assert forall k | 0 <= k < |b| :: s[k] == b[k];
    assert |a| == |b|;
    assert a == s[..|a|] == b;
    assert x == s[|a| + 1..] == y;
  }

  /** The first index at or after `from` that does not hold whitespace. */
  function SkipWhitespace(s: string, from: nat): (k: nat)
    requires from <= |s|
    ensures from <= k <= |s|
    ensures AllWhitespace(s[from..k])
    ensures k == |s| || !IsWhitespace(s[k])
    decreases |s| - from
  {
    if from == |s| || !IsWhitespace(s[from]) then from else SkipWhitespace(s, from + 1)
  }

  /** The end of `s[..upto]` once its trailing whitespace is dropped, never
      below `floor`. */
  function SkipWhitespaceBack(s: string, floor: nat, upto: nat): (k: nat)
    requires floor <= upto <= |s|
    ensures floor <= k <= upto
    ensures AllWhitespace(s[k..upto])
    ensures k == floor || !IsWhitespace(s[k - 1])
    decreases upto
  {
    if upto == floor || !IsWhitespace(s[upto - 1]) then upto
    else
      var k := SkipWhitespaceBack(s, floor, upto - 1);
      assert s[k..upto] == s[k..upto - 1] + [s[upto - 1]];
      k
  }

  /** Rust's `str::trim`: `s` without its leading and trailing whitespace. */
  function Trim(s: string): (r: string)
    ensures r == [] || (!IsWhitespace(r[0]) && !IsWhitespace(r[|r| - 1]))
    ensures exists i :: 0 <= i <= |s| - |r| && r == s[i..i + |r|]
                        && AllWhitespace(s[..i]) && AllWhitespace(s[i + |r|..])
  {
    var i := SkipWhitespace(s, 0);
    var j := SkipWhitespaceBack(s, i, |s|);
    assert s[..i] == s[0..i];
    assert s[j..] == s[j..|s|];
    s[i..j]
  }

  /** Leading whitespace ending at `i` is skipped up to `i` exactly. */
  lemma SkipWhitespaceAt(s: string, i: nat)
    requires i <= |s| && AllWhitespace(s[..i])
    requires i == |s| || !IsWhitespace(s[i])
    ensures SkipWhitespace(s, 0) == i
  {
    var a := SkipWhitespace(s, 0);
    assert forall k | 0 <= k < i :: IsWhitespace(s[k]) by {
      forall k | 0 <= k < i ensures IsWhitespace(s[k]) { assert s[k] == s[..i][k]; }
    }
    assert forall k | 0 <= k < a :: IsWhitespace(s[k]) by {
      forall k | 0 <= k < a ensures IsWhitespace(s[k]) { assert s[k] == s[0..a][k]; }
    }
  }

  /** Trailing whitespace starting at `j` is dropped down to `j` exactly. */
  lemma SkipWhitespaceBackAt(s: string, floor: nat, j: nat)
    requires floor <= j <= |s| && AllWhitespace(s[j..])
    requires j == floor || !IsWhitespace(s[j - 1])
    ensures SkipWhitespaceBack(s, floor, |s|) == j
  {
    var b := SkipWhitespaceBack(s, floor, |s|);
    assert forall k | j <= k < |s| :: IsWhitespace(s[k]) by {
      forall k | j <= k < |s| ensures IsWhitespace(s[k]) { assert s[k] == s[j..][k - j]; }
    }
    assert forall k | b <= k < |s| :: IsWhitespace(s[k]) by {
      forall k | b <= k < |s| ensures IsWhitespace(s[k]) { assert s[k] == s[b..|s|][k - b]; }
    }
  }

  /** Any cut of `s` into whitespace, a core with non-blank ends, and
      whitespace has `Trim(s)` as its core. */
  lemma TrimUnique(s: string, i: nat, j: nat)
    requires i <= j <= |s|
    requires AllWhitespace(s[..i]) && AllWhitespace(s[j..])
    requires i == j || (!IsWhitespace(s[i]) && !IsWhitespace(s[j - 1]))
    ensures Trim(s) == s[i..j]
  {
    if i == j {
      assert AllWhitespace(s[..|s|]) by {
        forall k | 0 <= k < |s| ensures IsWhitespace(s[k]) {
          if k < i { assert s[k] == s[..i][k]; } else { assert s[k] == s[j..][k - j]; }
        }
      }
      SkipWhitespaceAt(s, |s|);
    } else {
      SkipWhitespaceAt(s, i);
      SkipWhitespaceBackAt(s, i, j);
    }
  }

  /** Trimming twice is trimming once. */
  lemma TrimIdempotent(s: string)
    ensures Trim(Trim(s)) == Trim(s)
  {
    var r := Trim(s);
    assert r[..0] == [] && r[|r|..] == [];
    TrimUnique(r, 0, |r|);
  }
}
