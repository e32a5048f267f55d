/**
 * Read depth over a window (`get_coverage`): the pileup columns of the
 * window padded by 200 on each side, cut back to the window and, when the
 * data stops short of the window end, padded with zero-depth rows.
 */
module Coverage {
  import opened Wrappers
  import Seqs

  /** One pileup column: a reference position and the number of reads over it. */
  datatype Sample = Sample(pos: int, depth: int)

  /** The pileup of an indexed BAM file: the columns between two positions of a chromosome. */
  type Pileup = (string, int, int) -> seq<Sample>

  /** `(df.pos >= start) & (df.pos <= end)`. */
  predicate InWindow(start: int, end: int, s: Sample) {
    start <= s.pos <= end
  }

  /** `df.pos.max()` of a non-empty table. */
  function MaxPos(samples: seq<Sample>): (m: int)
    requires samples != []
    ensures exists i :: 0 <= i < |samples| && samples[i].pos == m
    ensures forall i :: 0 <= i < |samples| ==> samples[i].pos <= m
  {
    var positions := seq(|samples|, i requires 0 <= i < |samples| => samples[i].pos);
    assert forall i :: 0 <= i < |samples| ==> positions[i] == samples[i].pos;
    Seqs.Max(positions)
  }

  /** The rows of the window, in pileup order. */
  function Kept(samples: seq<Sample>, start: int, end: int): (kept: seq<Sample>)
    ensures forall i :: 0 <= i < |kept| ==> kept[i] in samples && InWindow(start, end, kept[i])
    ensures forall i :: 0 <= i < |samples| && InWindow(start, end, samples[i]) ==> samples[i] in kept
  {
    Seqs.Filter(samples, s => InWindow(start, end, s))
  }

  /** The rows `get_coverage` returns for the pileup columns it reads; `CoverageRows` says what they are. */
  function CoverageOf(samples: seq<Sample>, start: int, end: int): seq<Sample> {
    var kept := Kept(samples, start, end);
    if kept != [] && MaxPos(kept) < end then
      kept + Zeros(MaxPos(kept), end)
    else
      kept
  }

  /** Zero-depth rows for positions lo, lo+1, ..., hi-1. */
  function Zeros(lo: int, hi: int): (z: seq<Sample>)
    requires lo <= hi
    ensures |z| == hi - lo && forall j :: 0 <= j < |z| ==> z[j] == Sample(lo + j, 0)
  {
    seq(hi - lo, j requires 0 <= j < hi - lo => Sample(lo + j, 0))
  }

  /**
   * The coverage rows are the rows of the window, in pileup order, and,
   * when they end at m < end, rows m, m+1, ..., end-1 of depth 0, so
   * position m appears twice and end never does; every row lies in the
   * window.
   */
  lemma CoverageRows(samples: seq<Sample>, start: int, end: int)
    ensures var kept, rows := Kept(samples, start, end), CoverageOf(samples, start, end);
      |kept| <= |rows| && rows[..|kept|] == kept &&
      (if kept != [] && MaxPos(kept) < end
       then |rows| == |kept| + (end - MaxPos(kept)) &&
            forall j :: |kept| <= j < |rows| ==> rows[j] == Sample(MaxPos(kept) + (j - |kept|), 0)
       else |rows| == |kept|)
    ensures var rows := CoverageOf(samples, start, end);
      forall i :: 0 <= i < |rows| ==> InWindow(start, end, rows[i])
  {
  }

  /**
   * `get_coverage(bam_file, chr, start, end)`; `bam` is None when there is
   * no file. The window padded by 200 on each side is read from the pileup
   * and the zero fill is appended one row at a time.
   */
  method GetCoverage(bam: Option<Pileup>, chrom: string, start: int, end: int) returns (r: Option<seq<Sample>>)
    ensures r == if bam.None? then None else Some(CoverageOf(bam.value(chrom, start - 200, end + 200), start, end))
  {
    if bam.None? {
      return None;
    }
    var vals := bam.value(chrom, start - 200, end + 200);
    var kept := Kept(vals, start, end);
    var df := kept;
    if df != [] && MaxPos(df) < end {
      var m := MaxPos(df);
      var p := m;
      while p < end
        invariant m <= p <= end
        invariant df == kept + Zeros(m, p)
      {
        assert Zeros(m, p + 1) == Zeros(m, p) + [Sample(p, 0)];
        df := df + [Sample(p, 0)];
        p := p + 1;
      }
    }
    return Some(df);
  }

  /**
   * `get_coverage` called with a float window end, as the BAM viewer does:
   * the window filter compares as reals, and when a fill is needed
   * `range(m, end)` raises TypeError because `end` is not an integer.
   */
  function GetCoverageFloatEnd(samples: seq<Sample>, start: int, end: real): (r: Result<seq<Sample>, PyException>)
    ensures r.Err? <==>
      (exists i :: 0 <= i < |samples| && InFloatWindow(start, end, samples[i])) &&
      (forall i :: 0 <= i < |samples| && InFloatWindow(start, end, samples[i]) ==> samples[i].pos as real < end)
    ensures r.Err? ==> r.error == TypeError
  {
    var kept := Seqs.Filter(samples, (s: Sample) => InFloatWindow(start, end, s));
    if kept != [] && (MaxPos(kept) as real) < end then Err(TypeError) else Ok(kept)
  }

  /** The window filter against a float end. */
  predicate InFloatWindow(start: int, end: real, s: Sample) {
    start <= s.pos && s.pos as real <= end
  }

  /**
   * The BAM viewer's first window is 500 .. 500 + 1000 / 2 = 1000.0: a
   * reference whose last covered position is 900 makes the coverage track
   * raise (`IntegerEndFills` gives the same window with an integer end).
   */
  lemma FloatEndCounterexample()
    ensures GetCoverageFloatEnd([Sample(900, 5)], 500, 1000.0) == Err(TypeError)
  {
    var x := Sample(900, 5);
    Seqs.FilterSingle(x, (s: Sample) => InFloatWindow(500, 1000.0, s));
    assert MaxPos([x]) == 900;
  }

  /** The same window with the integer end 1000 is filled with zeros from 900 to 999. */
  lemma IntegerEndFills()
    ensures var rows := CoverageOf([Sample(900, 5)], 500, 1000);
      |rows| == 101 && rows[0] == Sample(900, 5) && rows[1] == Sample(900, 0) && rows[100] == Sample(999, 0)
  {
    var x := Sample(900, 5);
    Seqs.FilterSingle(x, (s: Sample) => InWindow(500, 1000, s));
    var kept := Kept([x], 500, 1000);
    assert kept == [x];
    assert MaxPos(kept) == 900;
    var fill := seq(100, j requires 0 <= j < 100 => Sample(900 + j, 0));
    assert CoverageOf([x], 500, 1000) == [x] + fill;
  }
}
