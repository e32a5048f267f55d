/**
 * Aligned reads of a window (`get_bam_aln`): the window start clamped at
 * 0, duplicate (start, end) pairs optionally grouped with their count,
 * and each read given a row y that counts it within its start bin.
 */
module ReadStacking {
  import opened Wrappers
  import Seqs

  /** One aligned read as the BAM reader reports it. */
  datatype Read = Read(start: int, end: int, cigar: string, name: string, length: int, mapq: int)

  /**
   * The reads of a chromosome overlapping a window. The window bounds are
   * Python numbers, floats when the caller pads the window by half its
   * width, so they are reals here.
   */
  type Fetch = (string, real, real) -> seq<Read>

  /**
   * `pd.cut` with a bin count: the bin label of a value, given the minimum
   * and maximum of the column the edges are spread over and the number of
   * bins.
   */
  type BinOf = (int, int, real, int) -> int

  /** A row of the read table: `counts` is set only when grouping. */
  datatype AlnRow = AlnRow(read: Read, counts: Option<nat>, y: nat)

  /** The grouping key. */
  function Key(r: Read): (int, int) {
    (r.start, r.end)
  }

  function Keys(rows: seq<Read>): (ks: seq<(int, int)>)
    ensures |ks| == |rows| && forall i :: 0 <= i < |rows| ==> ks[i] == Key(rows[i])
  {
    seq(|rows|, i requires 0 <= i < |rows| => Key(rows[i]))
  }

  /** `if start < 1: start = 0`. */
  function ClampStart(start: real): (s: real)
    ensures s >= 0.0 && (start >= 1.0 ==> s == start) && (start < 1.0 ==> s == 0.0)
  {
    if start < 1.0 then 0.0 else start
  }

  /** The bin count: `(end - start) / 150`, raised to 1 when smaller. */
  function Bins(start: real, end: real): (b: real)
    ensures b >= 1.0
    ensures (end - start) / 150.0 >= 1.0 ==> b == (end - start) / 150.0
  {
    var b := (end - start) / 150.0;
    if b < 1.0 then 1.0 else b
  }

  /**
   * `drop_duplicates(['start', 'end'])`: the reads whose (start, end) pair
   * has not been seen before, in read order.
   */
  function Dedup(rows: seq<Read>): (r: seq<Read>)
    ensures |r| <= |rows|
  {
    if rows == [] then []
    else
      var n := |rows| - 1;
      if Key(rows[n]) in Keys(rows[..n]) then Dedup(rows[..n]) else Dedup(rows[..n]) + [rows[n]]
  }

  /**
   * Deduplicating keeps every pair, keeps each pair once, and keeps only
   * reads whose pair occurs for the first time.
   */
  lemma {:induction false} DedupSpec(rows: seq<Read>)
    ensures forall k :: k in Keys(Dedup(rows)) <==> k in Keys(rows)
    ensures forall i, j :: 0 <= i < j < |Dedup(rows)| ==> Key(Dedup(rows)[i]) != Key(Dedup(rows)[j])
    ensures forall p :: 0 <= p < |Dedup(rows)| ==>
      exists i :: 0 <= i < |rows| && Dedup(rows)[p] == rows[i] && Key(rows[i]) !in Keys(rows[..i])
    decreases |rows|
  {
    if rows != [] {
      var n := |rows| - 1;
      var front := rows[..n];
      var init := Dedup(front);
      DedupSpec(front);
      assert Keys(rows) == Keys(front) + [Key(rows[n])];
      assert forall i :: 0 <= i < n ==> front[i] == rows[i] && front[..i] == rows[..i];
      if Key(rows[n]) !in Keys(front) {
        var r := init + [rows[n]];
        assert Keys(r) == Keys(init) + [Key(rows[n])];
      }
    }
  }

  /** One more read extends the deduplicated list exactly when its pair is new. */
  lemma DedupStep(rows: seq<Read>, i: nat)
    requires i < |rows|
    ensures Dedup(rows[..i + 1]) ==
      if Key(rows[i]) in Keys(rows[..i]) then Dedup(rows[..i]) else Dedup(rows[..i]) + [rows[i]]
  {
    assert rows[..i + 1][..i] == rows[..i];
  }

  /** The number of reads sharing the pair `k`: `groupby(['start','end']).name.transform('count')`. */
  function KeyCount(rows: seq<Read>, k: (int, int)): nat {
    Seqs.Count(Keys(rows), k)
  }

  /** Per-pair read counts, given the pair of every read. */
  method CountKeys(keys: seq<(int, int)>) returns (counts: map<(int, int), nat>)
    ensures Seqs.Tally(counts, keys)
  {
    counts := map[];
    var i := 0;
    while i < |keys|
      invariant 0 <= i <= |keys|
      invariant Seqs.Tally(counts, keys[..i])
    {
      Seqs.TallyStep(counts, keys, i);
      var k := keys[i];
      counts := counts[k := (if k in counts then counts[k] else 0) + 1];
      i := i + 1;
    }
    assert keys[..i] == keys;
  }

  /** A read with its group count, before the y column is added. */
  datatype Grouped = Grouped(read: Read, counts: Option<nat>)

  /** The kept reads, each with the number of reads of `rows` sharing its pair. */
  function Grouping(kept: seq<Read>, rows: seq<Read>): (g: seq<Grouped>)
    ensures |g| == |kept|
    ensures forall p :: 0 <= p < |kept| ==> g[p] == Grouped(kept[p], Some(KeyCount(rows, Key(kept[p]))))
  {
    seq(|kept|, p requires 0 <= p < |kept| => Grouped(kept[p], Some(KeyCount(rows, Key(kept[p])))))
  }

  lemma GroupingAppend(kept: seq<Read>, x: Read, rows: seq<Read>)
    ensures Grouping(kept + [x], rows) == Grouping(kept, rows) + [Grouped(x, Some(KeyCount(rows, Key(x))))]
  {
  }

  /** `group=True`: one row per distinct pair, the first read of the pair with the pair's count. */
  method GroupReads(rows: seq<Read>) returns (out: seq<Grouped>)
    ensures out == Grouping(Dedup(rows), rows)
  {
    var counts := CountKeys(Keys(rows));
    out := [];
    var i := 0;
    while i < |rows|
      invariant 0 <= i <= |rows|
      invariant out == Grouping(Dedup(rows[..i]), rows)
    {
      DedupStep(rows, i);
      var k := Key(rows[i]);
      if k !in Keys(rows[..i]) {
        assert k in Keys(rows);
        GroupingAppend(Dedup(rows[..i]), rows[i], rows);
        out := out + [Grouped(rows[i], Some(counts[k]))];
      }
      i := i + 1;
    }
    assert rows[..i] == rows;
  }

  /** The position of row k within its bin: the rows of that bin up to and including k. */
  function Rank(labels: seq<int>, k: nat): nat
    requires k < |labels|
  {
    Seqs.Count(labels[..k + 1], labels[k])
  }

  /**
   * `df.groupby(xbins)['y'].transform(cumsum)` over a column of ones: each
   * row gets the number of rows of its bin up to and including itself.
   */
  method StackRows(labels: seq<int>) returns (y: seq<nat>)
    ensures |y| == |labels|
    ensures forall k :: 0 <= k < |labels| ==> y[k] == Rank(labels, k)
  {
    var running: map<int, nat> := map[];
    y := [];
    var k := 0;
    while k < |labels|
      invariant 0 <= k <= |labels|
      invariant |y| == k
      invariant forall j :: 0 <= j < k ==> y[j] == Rank(labels, j)
      invariant Seqs.Tally(running, labels[..k])
    {
      var l := labels[k];
      Seqs.TallyStep(running, labels, k);
      var c := (if l in running then running[l] else 0) + 1;
      running := running[l := c];
      y := y + [c];
      k := k + 1;
    }
  }

  /** Prefix counts never decrease. */
  lemma {:induction false} CountPrefixMono(s: seq<int>, a: nat, b: nat, x: int)
    requires a <= b <= |s|
    ensures Seqs.Count(s[..a], x) <= Seqs.Count(s[..b], x)
    decreases b - a
  {
    if a < b {
      Seqs.CountPrefixStep(s, a, x);
      CountPrefixMono(s, a + 1, b, x);
    }
  }

  /**
   * Within a bin, rows are stacked 1, 2, 3, ... in read order: the first
   * row of a bin is at y = 1 and a later row of the same bin is strictly
   * higher, so no two reads of a bin share a row.
   */
  lemma StackedWithinBin(labels: seq<int>, k: nat, l: nat)
    requires k < l < |labels| && labels[k] == labels[l]
    ensures Rank(labels, k) >= 1
    ensures Rank(labels, k) < Rank(labels, l)
  {
    Seqs.CountPrefixStep(labels, k, labels[k]);
    Seqs.CountPrefixStep(labels, l, labels[l]);
    CountPrefixMono(labels, k + 1, l, labels[k]);
  }

  /** The bin label of every row, as `pd.cut` assigns it over the start column. */
  function Labels(starts: seq<int>, bins: real, binOf: BinOf): (labels: seq<int>)
    ensures |labels| == |starts|
  {
    if starts == [] then []
    else
      var mn, mx := Seqs.Min(starts), Seqs.Max(starts);
      seq(|starts|, i requires 0 <= i < |starts| => binOf(mn, mx, bins, starts[i]))
  }

  /** The rows the table holds before its y column. */
  function Ungrouped(rows: seq<Read>): (g: seq<Grouped>)
    ensures |g| == |rows| && forall i :: 0 <= i < |rows| ==> g[i] == Grouped(rows[i], None)
  {
    seq(|rows|, i requires 0 <= i < |rows| => Grouped(rows[i], None))
  }

  /** The start column of the table before its y column. */
  function GroupedStarts(g: seq<Grouped>): (starts: seq<int>)
    ensures |starts| == |g| && forall i :: 0 <= i < |g| ==> starts[i] == g[i].read.start
  {
    seq(|g|, i requires 0 <= i < |g| => g[i].read.start)
  }

  /** The start column of the read table. */
  function RowStarts(rows: seq<AlnRow>): (starts: seq<int>)
    ensures |starts| == |rows| && forall i :: 0 <= i < |rows| ==> starts[i] == rows[i].read.start
  {
    seq(|rows|, i requires 0 <= i < |rows| => rows[i].read.start)
  }

  /** The table with its y column added. */
  function WithY(g: seq<Grouped>, y: seq<nat>): (rows: seq<AlnRow>)
    requires |y| == |g|
    ensures |rows| == |g| && forall i :: 0 <= i < |g| ==> rows[i] == AlnRow(g[i].read, g[i].counts, y[i])
  {
    seq(|g|, i requires 0 <= i < |g| => AlnRow(g[i].read, g[i].counts, y[i]))
  }

  /** The reads the table keeps: all of them, or one per (start, end) pair when grouping. */
  function Kept(fetched: seq<Read>, group: bool): seq<Read> {
    if group then Dedup(fetched) else fetched
  }

  /** The rows hold the kept reads in order, with their group counts when grouping. */
  predicate HoldsReads(rows: seq<AlnRow>, fetched: seq<Read>, group: bool) {
    var kept := Kept(fetched, group);
    |rows| == |kept| &&
    (forall i :: 0 <= i < |kept| ==> rows[i].read == kept[i]) &&
    (forall i :: 0 <= i < |kept| ==>
      rows[i].counts == if group then Some(KeyCount(fetched, Key(kept[i]))) else None)
  }

  /** Each row sits at its rank within its start bin. */
  predicate Stacked(rows: seq<AlnRow>, bins: real, binOf: BinOf) {
    var labels := Labels(RowStarts(rows), bins, binOf);
    forall i :: 0 <= i < |rows| ==> rows[i].y == Rank(labels, i)
  }

  /**
   * `get_bam_aln(bam_file, chr, start, end, group)`: None when the file is
   * missing or the chromosome is None, an empty table when no read
   * overlaps the clamped window, and otherwise the (grouped) reads with
   * their stacking row.
   */
  method GetBamAln(bam: Option<Fetch>, chrom: Option<string>, start: real, end: real, group: bool, binOf: BinOf)
    returns (r: Option<seq<AlnRow>>)
    ensures r.None? <==> bam.None? || chrom.None?
    ensures r.Some? ==> HoldsReads(r.value, bam.value(chrom.value, ClampStart(start), end), group)
    ensures r.Some? ==> Stacked(r.value, Bins(ClampStart(start), end), binOf)
  {
    if bam.None? || chrom.None? {
      return None;
    }
    var s := ClampStart(start);
    var fetched := bam.value(chrom.value, s, end);
    if fetched == [] {
      return Some([]);
    }
    var grouped: seq<Grouped>;
    if group {
      grouped := GroupReads(fetched);
    } else {
      grouped := Ungrouped(fetched);
    }
    var labels := Labels(GroupedStarts(grouped), Bins(s, end), binOf);
    var y := StackRows(labels);
    var rows := WithY(grouped, y);
    assert RowStarts(rows) == GroupedStarts(grouped);
    r := Some(rows);
  }
}
