/**
 * The list operations the data-frame code performs implicitly: boolean-mask
 * row selection, value counts, flattening a list of lists (a nested
 * comprehension), list repetition (`xs * n`) and `range(n)`.
 */
module Seqs {

  /** The rows of `s` for which `keep` holds, in their original order. */
  function Filter<T>(s: seq<T>, keep: T -> bool): (r: seq<T>)
    ensures |r| <= |s|
    ensures forall i :: 0 <= i < |r| ==> r[i] in s && keep(r[i])
    ensures forall i :: 0 <= i < |s| && keep(s[i]) ==> s[i] in r
  {
    if s == [] then []
    else
      var init := Filter(s[..|s| - 1], keep);
      assert s == s[..|s| - 1] + [s[|s| - 1]];
      init + (if keep(s[|s| - 1]) then [s[|s| - 1]] else [])
  }

  /** Selecting from a single row keeps it or drops it. */
  lemma FilterSingle<T>(x: T, keep: T -> bool)
    ensures Filter([x], keep) == if keep(x) then [x] else []
  {
    assert [x][..0] == [];
  }

  /** Selecting from a concatenation selects from each part, in order. */
  lemma {:induction false} FilterAppend<T>(a: seq<T>, b: seq<T>, keep: T -> bool)
    ensures Filter(a + b, keep) == Filter(a, keep) + Filter(b, keep)
    decreases |b|
  {
    if b != [] {
      var b' := b[..|b| - 1];
      assert (a + b)[..|a + b| - 1] == a + b';
      FilterAppend(a, b', keep);
    } else {
      assert a + b == a;
    }
  }

  /** Number of occurrences of `x` in `s`. */
  function Count<T(==)>(s: seq<T>, x: T): (n: nat)
    ensures n <= |s|
    ensures n > 0 <==> x in s
  {
    if s == [] then 0
    else
      assert s == s[..|s| - 1] + [s[|s| - 1]];
      Count(s[..|s| - 1], x) + (if s[|s| - 1] == x then 1 else 0)
  }

  /** `[c for s in ss for c in s]`. */
  function Flatten<T>(ss: seq<seq<T>>): seq<T> {
    if ss == [] then [] else ss[0] + Flatten(ss[1..])
  }

  /** A list of rows all of width `w`. */
  predicate AllOfWidth<T>(ss: seq<seq<T>>, w: nat) {
    forall i :: 0 <= i < |ss| ==> |ss[i]| == w
  }

  /** A positive multiple of w is at least w. */
  lemma MulAtLeast(d: int, w: int)
    requires d >= 1 && w > 0
    ensures d * w >= w
  {
    assert d * w == (d - 1) * w + w;
    assert (d - 1) * w >= 0;
  }

  /** Euclidean division is determined by quotient and remainder. */
  lemma DivModUnique(x: int, w: int, q: int, r: int)
    requires w > 0 && 0 <= r < w && x == q * w + r
    ensures x / w == q && x % w == r
  {
    var q', r' := x / w, x % w;
    assert x == q' * w + r';
    assert (q - q') * w == q * w - q' * w;
    if q > q' {
      MulAtLeast(q - q', w);
    } else if q < q' {
      assert (q' - q) * w == q' * w - q * w;
      MulAtLeast(q' - q, w);
    }
  }

  /** A position inside s rows of width n lies in one of those rows. */
  lemma DivBelow(k: nat, n: nat, s: nat)
    requires n > 0 && k < n * s
    ensures k / n < s
  {
    var q := k / n;
    assert k == q * n + k % n;
    if q > s {
      MulAtLeast(q - s, n);
    }
  }

  /** A position below s rows of width w, as its row and column. */
  lemma QuotRem(k: nat, w: nat, s: nat) returns (q: nat, r: nat)
    requires w > 0 && (k < s * w || k < w * s)
    ensures q == k / w && r == k % w
    ensures q < s && r < w && k == q * w + r
  {
    assert s * w == w * s;
    q, r := k / w, k % w;
    DivBelow(k, w, s);
  }

  /** Flattening rows of width w gives |ss| * w elements. */
  lemma {:induction false} FlattenLength<T>(ss: seq<seq<T>>, w: nat)
    requires AllOfWidth(ss, w)
    ensures |Flatten(ss)| == |ss| * w
    decreases |ss|
  {
    if ss != [] {
      var rest := ss[1..];
      assert AllOfWidth(rest, w);
      FlattenLength(rest, w);
      assert |ss| * w == w + |rest| * w;
    }
  }

  /** Row q, column r of rows of width w sits at q * w + r of the flattening. */
  lemma {:induction false} FlattenRowColumn<T>(ss: seq<seq<T>>, w: nat, q: nat, r: nat)
    requires AllOfWidth(ss, w) && q < |ss| && r < w
    ensures q * w + r < |Flatten(ss)| && Flatten(ss)[q * w + r] == ss[q][r]
    decreases q
  {
    var rest := ss[1..];
    assert Flatten(ss) == ss[0] + Flatten(rest);
    assert AllOfWidth(rest, w);
    if q > 0 {
      FlattenRowColumn(rest, w, q - 1, r);
      var j := (q - 1) * w + r;
      assert q * w + r == w + j;
      assert Flatten(ss)[w + j] == Flatten(rest)[j];
      assert rest[q - 1] == ss[q];
    }
  }

  /**
   * Flattening a rectangle of rows of width w lays them out row-major:
   * position k holds row k / w, column k % w.
   */
  lemma FlattenAt<T>(ss: seq<seq<T>>, w: nat, k: nat)
    requires w > 0 && AllOfWidth(ss, w) && k < |ss| * w
    ensures |Flatten(ss)| == |ss| * w
    ensures k / w < |ss| && Flatten(ss)[k] == ss[k / w][k % w]
  {
    FlattenLength(ss, w);
    var q, r := QuotRem(k, w, |ss|);
    FlattenRowColumn(ss, w, q, r);
  }

  /** Python's `s * n`. */
  function Repeat<T>(s: seq<T>, n: nat): seq<T> {
    if n == 0 then [] else s + Repeat(s, n - 1)
  }

  /** `s * n` has n copies of s. */
  lemma {:induction false} RepeatLength<T>(s: seq<T>, n: nat)
    ensures |Repeat(s, n)| == |s| * n
    decreases n
  {
    if n > 0 {
      RepeatLength(s, n - 1);
      assert |s| * n == |s| + |s| * (n - 1);
    }
  }

  /** Copy q of `s * n` starts at q * |s|. */
  lemma {:induction false} RepeatRowColumn<T>(s: seq<T>, n: nat, q: nat, r: nat)
    requires q < n && r < |s|
    ensures q * |s| + r < |Repeat(s, n)| && Repeat(s, n)[q * |s| + r] == s[r]
    decreases q
  {
    assert Repeat(s, n) == s + Repeat(s, n - 1);
    if q > 0 {
      RepeatRowColumn(s, n - 1, q - 1, r);
      var j := (q - 1) * |s| + r;
      assert q * |s| + r == |s| + j;
      assert Repeat(s, n)[|s| + j] == Repeat(s, n - 1)[j];
    }
  }

  /** Repetition cycles through `s`: position i holds s[i mod |s|]. */
  lemma RepeatAt<T>(s: seq<T>, n: nat, i: nat)
    requires |s| > 0 && i < |s| * n
    ensures |Repeat(s, n)| == |s| * n
    ensures Repeat(s, n)[i] == s[i % |s|]
  {
    RepeatLength(s, n);
    var q, r := QuotRem(i, |s|, n);
    RepeatRowColumn(s, n, q, r);
  }

  /** `list(range(n))`, empty when n <= 0. */
  function Range(n: int): (r: seq<int>)
    ensures |r| == if n <= 0 then 0 else n
    ensures forall i :: 0 <= i < |r| ==> r[i] == i
  {
    if n <= 0 then [] else seq(n, i => i)
  }

  /** Counting over a prefix one element longer adds that element. */
  lemma CountPrefixStep<T>(s: seq<T>, m: nat, x: T)
    requires m < |s|
    ensures Count(s[..m + 1], x) == Count(s[..m], x) + (if s[m] == x then 1 else 0)
  {
    assert s[..m + 1][..m] == s[..m];
  }

  /** `counts` holds, for every element of `prefix`, how often it occurs there, and nothing else. */
  ghost predicate Tally<T(!new)>(counts: map<T, nat>, prefix: seq<T>) {
    (forall x :: x in counts <==> x in prefix) &&
    (forall x :: x in counts ==> counts[x] == Count(prefix, x))
  }

  /** Counting one more element of `s` into a tally of its prefix. */
  lemma TallyStep<T(!new)>(counts: map<T, nat>, s: seq<T>, m: nat)
    requires m < |s| && Tally(counts, s[..m])
    ensures Tally(counts[s[m] := (if s[m] in counts then counts[s[m]] else 0) + 1], s[..m + 1])
  {
    var x := s[m];
    var next := counts[x := (if x in counts then counts[x] else 0) + 1];
    assert s[..m + 1] == s[..m] + [x];
    forall y | y in next
      ensures next[y] == Count(s[..m + 1], y)
    {
      CountPrefixStep(s, m, y);
    }
  }

  /** `min(s)` of a non-empty list. */
  function Min(s: seq<int>): (m: int)
    requires s != []
    ensures m in s && forall i :: 0 <= i < |s| ==> m <= s[i]
  {
    if |s| == 1 then s[0]
    else
      var rest := Min(s[1..]);
      assert forall i :: 1 <= i < |s| ==> s[i] == s[1..][i - 1];
      if s[0] <= rest then s[0] else rest
  }

  /** `max(s)` of a non-empty list. */
  function Max(s: seq<int>): (m: int)
    requires s != []
    ensures m in s && forall i :: 0 <= i < |s| ==> s[i] <= m
  {
    if |s| == 1 then s[0]
    else
      var rest := Max(s[1..]);
      assert forall i :: 1 <= i < |s| ==> s[i] == s[1..][i - 1];
      if s[0] >= rest then s[0] else rest
  }

  /** Selecting with q from a selection with p selects with both, in order. */
  lemma {:induction false} FilterFilter<T>(s: seq<T>, p: T -> bool, q: T -> bool, both: T -> bool)
    requires forall x :: both(x) == (p(x) && q(x))
    ensures Filter(Filter(s, p), q) == Filter(s, both)
    decreases |s|
  {
    if s != [] {
      var init := s[..|s| - 1];
      var last := s[|s| - 1];
      FilterFilter(init, p, q, both);
      FilterAppend(Filter(init, p), if p(last) then [last] else [], q);
      if p(last) {
        assert Filter([last], q) == Filter([], q) + (if q(last) then [last] else []);
      }
    }
  }
}
