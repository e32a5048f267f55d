/**
 * Per-column conservation of a multiple sequence alignment (`get_cons`):
 * for each column, the count of its most frequent non-gap symbol divided by
 * the number of sequences. Gapped sequences stay in the denominator, and a
 * column made only of gaps has no most frequent symbol, so `max` over the
 * emptied counter raises ValueError.
 */
module Conservation {
  import opened Wrappers
  import Seqs

  const GAP: char := '-'

  /** An alignment: its rows all have the same length (a Biopython alignment object guarantees it). */
  type Alignment = seq<seq<char>>

  predicate Aligned(aln: Alignment) {
    forall i :: 0 <= i < |aln| ==> |aln[i]| == |aln[0]|
  }

  /** `aln.get_alignment_length()`: 0 for an alignment with no rows. */
  function Width(aln: Alignment): (w: nat)
    ensures |aln| > 0 ==> w == |aln[0]|
  {
    if aln == [] then 0 else |aln[0]|
  }

  /** `aln[:, i]`: the i-th symbol of every row, top to bottom. */
  function Column(aln: Alignment, i: nat): (col: seq<char>)
    requires Aligned(aln) && i < Width(aln)
    ensures |col| == |aln|
    ensures forall k :: 0 <= k < |aln| ==> col[k] == aln[k][i]
  {
    seq(|aln|, k requires 0 <= k < |aln| => aln[k][i])
  }

  /** The column holds at least one symbol that is not a gap. */
  predicate HasSymbol(col: seq<char>) {
    exists k :: 0 <= k < |col| && col[k] != GAP
  }

  /**
   * `v` is the conservation value of `col`: some non-gap symbol occurs
   * Count times, no other non-gap symbol occurs more often, and v is that
   * count over the column height.
   */
  ghost predicate IsConservation(col: seq<char>, v: real) {
    exists c :: c in col && c != GAP && v == Seqs.Count(col, c) as real / |col| as real &&
      forall d :: d in col && d != GAP ==> Seqs.Count(col, d) <= Seqs.Count(col, c)
  }

  /** `Counter(col)`: every symbol of the column mapped to its number of occurrences. */
  method ColumnCounter(col: seq<char>) returns (counts: map<char, nat>)
    ensures forall c :: c in counts <==> c in col
    ensures forall c :: c in counts ==> counts[c] == Seqs.Count(col, c)
  {
    counts := map[];
    var k := 0;
    while k < |col|
      invariant 0 <= k <= |col|
      invariant forall c :: c in counts <==> c in col[..k]
      invariant forall c :: c in counts ==> counts[c] == Seqs.Count(col[..k], c)
    {
      var c := col[k];
      assert col[..k + 1] == col[..k] + [c];
      assert col[..k + 1][..k] == col[..k];
      if c in counts {
        counts := counts[c := counts[c] + 1];
      } else {
        counts := counts[c := 1];
      }
      forall d | d in counts
        ensures counts[d] == Seqs.Count(col[..k + 1], d)
      {
        if d != c {
          assert d in col[..k];
        }
      }
      k := k + 1;
    }
    assert col[..k] == col;
  }

  /** `max(res.values())`: None stands for the ValueError an empty counter raises. */
  method MaxCount(counts: map<char, nat>) returns (best: Option<nat>)
    ensures best.None? <==> counts == map[]
    ensures best.Some? ==> exists c :: c in counts && counts[c] == best.value
    ensures best.Some? ==> forall c :: c in counts ==> counts[c] <= best.value
  {
    best := None;
    var todo := counts.Keys;
    while todo != {}
      invariant todo <= counts.Keys
      invariant best.None? <==> todo == counts.Keys
      invariant best.Some? ==> exists c :: c in counts && counts[c] == best.value
      invariant best.Some? ==> forall c :: c in counts && c !in todo ==> counts[c] <= best.value
      decreases todo
    {
      var c :| c in todo;
      if best.None? || counts[c] > best.value {
        best := Some(counts[c]);
      }
      todo := todo - {c};
    }
    if counts != map[] {
      var c :| c in counts;
      assert c in counts.Keys;
    }
  }

  /**
   * One iteration of `get_cons`: count the column, delete the gap entry and
   * divide the largest remaining count by the column height; None when
   * `max` finds the counter empty.
   */
  method ColumnValue(col: seq<char>) returns (v: Option<real>)
    ensures v.None? <==> !HasSymbol(col)
    ensures v.Some? ==> IsConservation(col, v.value)
  {
    var res := ColumnCounter(col);
    res := res - {GAP};
    var best := MaxCount(res);
    CounterMax(col, res, best);
    if best.None? {
      return None;
    }
    return Some(best.value as real / |col| as real);
  }

  /**
   * `get_cons`: one value per column, in column order, or the ValueError
   * raised at the first column that holds only gaps.
   */
  method GetCons(aln: Alignment) returns (r: Result<seq<real>, PyException>)
    requires Aligned(aln)
    ensures r.Ok? <==> forall i :: 0 <= i < Width(aln) ==> HasSymbol(Column(aln, i))
    ensures r.Err? ==> r.error == ValueError
    ensures r.Ok? ==> |r.value| == Width(aln)
    ensures r.Ok? ==> forall i :: 0 <= i < Width(aln) ==> IsConservation(Column(aln, i), r.value[i])
  {
    var x: seq<real> := [];
    var i := 0;
    while i < Width(aln)
      invariant 0 <= i <= Width(aln)
      invariant |x| == i
      invariant forall j :: 0 <= j < i ==> HasSymbol(Column(aln, j))
      invariant forall j :: 0 <= j < i ==> IsConservation(Column(aln, j), x[j])
    {
      var v := ColumnValue(Column(aln, i));
      if v.None? {
        return Err(ValueError);
      }
      x := x + [v.value];
      i := i + 1;
    }
    return Ok(x);
  }

  /**
   * What the counter and its maximum say about a column: an empty counter
   * means the column holds only gaps, and otherwise the maximum over the
   * column height is the column's conservation value.
   */
  lemma CounterMax(col: seq<char>, res: map<char, nat>, best: Option<nat>)
    requires forall c :: c in res <==> c in col && c != GAP
    requires forall c :: c in res ==> res[c] == Seqs.Count(col, c)
    requires best.None? <==> res == map[]
    requires best.Some? ==> exists c :: c in res && res[c] == best.value
    requires best.Some? ==> forall c :: c in res ==> res[c] <= best.value
    ensures best.None? <==> !HasSymbol(col)
    ensures best.Some? ==> IsConservation(col, best.value as real / |col| as real)
  {
    if best.None? {
      forall k | 0 <= k < |col|
        ensures col[k] == GAP
      {
        assert col[k] in col;
        assert col[k] !in res;
      }
    } else {
      var c :| c in res && res[c] == best.value;
      assert c in col && c != GAP;
      var k :| 0 <= k < |col| && col[k] == c;
      forall d | d in col && d != GAP
        ensures Seqs.Count(col, d) <= Seqs.Count(col, c)
      {
        assert d in res;
      }
    }
  }

  /** For 1 <= n <= s, n / s lies between 1 / s and 1. */
  lemma RatioBounds(n: nat, s: nat)
    requires 1 <= n <= s
    ensures 1.0 / s as real <= n as real / s as real <= 1.0
  {
    var r := s as real;
    assert n as real / r == (n as real) * (1.0 / r);
    assert 1.0 / r > 0.0;
    assert (s as real) * (1.0 / r) == 1.0;
  }

  /**
   * Every conservation value lies between 1/S and 1 for a column of height
   * S: the winning symbol occurs at least once and at most S times.
   */
  lemma ConservationBounds(col: seq<char>, v: real)
    requires IsConservation(col, v)
    ensures |col| > 0
    ensures 1.0 / |col| as real <= v <= 1.0
  {
    var c :| c in col && c != GAP && v == Seqs.Count(col, c) as real / |col| as real &&
      forall d :: d in col && d != GAP ==> Seqs.Count(col, d) <= Seqs.Count(col, c);
    RatioBounds(Seqs.Count(col, c), |col|);
  }

  /** A column has at most one conservation value, whichever symbol wins a tie. */
  lemma ConservationUnique(col: seq<char>, v: real, w: real)
    requires IsConservation(col, v) && IsConservation(col, w)
    ensures v == w
  {
    var c :| c in col && c != GAP && v == Seqs.Count(col, c) as real / |col| as real &&
      forall d :: d in col && d != GAP ==> Seqs.Count(col, d) <= Seqs.Count(col, c);
    var e :| e in col && e != GAP && w == Seqs.Count(col, e) as real / |col| as real &&
      forall d :: d in col && d != GAP ==> Seqs.Count(col, d) <= Seqs.Count(col, e);
    assert Seqs.Count(col, c) == Seqs.Count(col, e);
  }

  /** A column has a conservation value exactly when it holds a non-gap symbol. */
  lemma ConservationExists(col: seq<char>)
    ensures HasSymbol(col) <==> exists v :: IsConservation(col, v)
  {
    if HasSymbol(col) {
      var k :| 0 <= k < |col| && col[k] != GAP;
      var c := BestSymbol(col, col[k]);
      assert IsConservation(col, Seqs.Count(col, c) as real / |col| as real);
    }
    if exists v :: IsConservation(col, v) {
      var v :| IsConservation(col, v);
      var c :| c in col && c != GAP && v == Seqs.Count(col, c) as real / |col| as real &&
        forall d :: d in col && d != GAP ==> Seqs.Count(col, d) <= Seqs.Count(col, c);
      var k :| 0 <= k < |col| && col[k] == c;
    }
  }

  /** A most frequent non-gap symbol of a column that holds `start`. */
  lemma BestSymbol(col: seq<char>, start: char) returns (c: char)
    requires start in col && start != GAP
    ensures c in col && c != GAP
    ensures forall d :: d in col && d != GAP ==> Seqs.Count(col, d) <= Seqs.Count(col, c)
  {
    c := start;
    var rest := set d | d in col && d != GAP;
    while rest != {}
      invariant c in col && c != GAP
      invariant forall d :: d in col && d != GAP && d !in rest ==> Seqs.Count(col, d) <= Seqs.Count(col, c)
      decreases rest
    {
      var d :| d in rest;
      if Seqs.Count(col, d) > Seqs.Count(col, c) {
        c := d;
      }
      rest := rest - {d};
    }
  }
}
