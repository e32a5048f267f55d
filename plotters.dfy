/**
 * The data behind the Bokeh tracks (`plotters.py`): which rows each
 * plotter draws, the columns it derives for them (midpoints, arrows,
 * lanes, colours, spans, grid cells) and the view range it opens on.
 * Figures, glyph geometry and styling are not modelled; a plotter either
 * returns a placeholder plot with a message or the data of its track.
 */
module Plotters {
  import opened Wrappers
  import Seqs
  import PyText
  import FeatureTable
  import Palette
  import Conservation
  import Coverage
  import ReadStacking
  import Variants

  /** What a plotter returns: `plot_empty(message)` or a drawn track. */
  datatype Plot<T> = Placeholder(message: string) | Drawn(track: T)

  /**
   * The view end used when the caller gives none: `df.end.max() + 100`,
   * lowered to 10000; None (NaN) when the table is empty. Unless capped, the
   * view reaches 100 past every row's end.
   */
  function DefaultEnd(ends: seq<int>): (e: Option<int>)
    ensures e.None? <==> ends == []
    ensures e.Some? ==> e.value <= 10000
    ensures e.Some? ==> forall i :: 0 <= i < |ends| ==> ends[i] + 100 <= e.value || e.value == 10000
    ensures e.Some? ==> e.value == 10000 || exists i :: 0 <= i < |ends| && e.value == ends[i] + 100
  {
    if ends == [] then None
    else
      var e := Seqs.Max(ends) + 100;
      Some(if e > 10000 then 10000 else e)
  }

  /** The view end: the caller's, or the default derived from the rows. */
  function ViewEnd(end: Option<int>, ends: seq<int>): Option<int> {
    if end.Some? then end else DefaultEnd(ends)
  }

  // ---------------------------------------------------------------- features

  /** A drawn feature: its table row and the columns `plot_features` adds. */
  datatype FeatureGlyph = FeatureGlyph(row: FeatureTable.Row, length: int, x: real,
                                       arrowStart: int, arrowEnd: int, y: int)

  datatype FeatureTrack = FeatureTrack(glyphs: seq<FeatureGlyph>, viewStart: int, viewEnd: Option<int>,
                                       labels: bool)

  /** `(df.type != 'region') & (df.type != 'source')`. */
  predicate Drawable(row: FeatureTable.Row) {
    row.kind != FeatureTable.Text("region") && row.kind != FeatureTable.Text("source")
  }

  /** The rows of the feature table that `plot_features` keeps. */
  function Shown(features: seq<FeatureTable.Feature>): (shown: seq<FeatureTable.Row>)
    requires !FeatureTable.AnyMalformed(features)
    ensures forall i :: 0 <= i < |shown| ==> Drawable(shown[i])
  {
    Seqs.Filter(FeatureTable.Dataframe(features, false).value, Drawable)
  }

  /**
   * Start and end are numbers. A `start` or `end` qualifier replaces them
   * by text, and `df.end - df.start` then raises TypeError.
   */
  predicate Located(row: FeatureTable.Row) {
    row.start.Num? && row.end.Num?
  }

  /** Every row has a numeric start and end. */
  predicate AllLocated(rows: seq<FeatureTable.Row>) {
    forall i :: 0 <= i < |rows| ==> Located(rows[i])
  }

  /**
   * `get_arrow` and the arrow end: a forward-strand feature has an arrow
   * leaving its end to the right, any other (reverse, unknown, or blanked by
   * `fillna('')`) one leaving its start to the left; both are 50 long.
   */
  function Arrow(row: FeatureTable.Row): (a: (int, int))
    requires Located(row)
    ensures a.0 == (if row.strand == FeatureTable.Num(1) then row.end.n else row.start.n)
    ensures a.1 - a.0 == (if row.strand == FeatureTable.Num(1) then 50 else -50)
  {
    if row.strand == FeatureTable.Num(1) then (row.end.n, row.end.n + 50)
    else (row.start.n, row.start.n - 50)
  }

  /**
   * `y = list(range(0, rows)) * n; df['y'] = y[:n]`: the rows are dealt
   * round-robin over `rows` lanes. With no lane and at least one row the
   * list is too short for the column and pandas raises ValueError.
   */
  function Lanes(n: nat, rows: int): (r: Result<seq<int>, PyException>)
    ensures r.Err? <==> n > 0 && rows <= 0
    ensures r.Err? ==> r.error == ValueError
    ensures r.Ok? ==> |r.value| == n && forall i :: 0 <= i < n ==> r.value[i] == i % rows
  {
    var lanes := Seqs.Repeat(Seqs.Range(rows), n);
    LanesCycle(n, rows);
    if |lanes| < n then Err(ValueError) else Ok(lanes[..n])
  }

  /** The dealt list cycles through the lanes and covers n rows exactly when a lane exists. */
  lemma LanesCycle(n: nat, rows: int)
    ensures |Seqs.Repeat(Seqs.Range(rows), n)| < n <==> n > 0 && rows <= 0
    ensures rows > 0 ==> forall i :: 0 <= i < n ==> Seqs.Repeat(Seqs.Range(rows), n)[i] == i % rows
  {
    var lanes := Seqs.Range(rows);
    Seqs.RepeatLength(lanes, n);
    if rows > 0 {
      if n > 0 {
        Seqs.MulAtLeast(rows, n);
      }
      forall i | 0 <= i < n
        ensures Seqs.Repeat(lanes, n)[i] == i % rows
      {
        Seqs.RepeatAt(lanes, n, i);
      }
    }
  }

  /** The end column of located rows. */
  function RowEnds(rows: seq<FeatureTable.Row>): (ends: seq<int>)
    requires AllLocated(rows)
    ensures |ends| == |rows| && forall i :: 0 <= i < |rows| ==> Located(rows[i]) && ends[i] == rows[i].end.n
  {
    seq(|rows|, i requires 0 <= i < |rows| => assert Located(rows[i]); rows[i].end.n)
  }

  /** The glyph of a located row in lane y. */
  function FeatureGlyphOf(row: FeatureTable.Row, y: int): (g: FeatureGlyph)
    requires Located(row)
    ensures g.row == row && g.y == y && (g.arrowStart, g.arrowEnd) == Arrow(row)
    ensures g.length == row.end.n - row.start.n
    ensures 2.0 * g.x == (row.start.n + row.end.n) as real
  {
    var length := row.end.n - row.start.n;
    var a := Arrow(row);
    FeatureGlyph(row, length, row.start.n as real + length as real / 2.0, a.0, a.1, y)
  }

  /** The glyph of every shown row, the rows dealt over `rows` lanes in turn. */
  function FeatureGlyphs(shown: seq<FeatureTable.Row>, rows: int): (glyphs: seq<FeatureGlyph>)
    requires AllLocated(shown) && (shown == [] || rows > 0)
    ensures |glyphs| == |shown| && forall i :: 0 <= i < |shown| ==> glyphs[i] == FeatureGlyphOf(shown[i], i % rows)
  {
    seq(|shown|, i requires 0 <= i < |shown| => FeatureGlyphOf(shown[i], i % rows))
  }

  /**
   * `plot_features(features, start, end, rows)`: the feature table without
   * region and source rows, each row with its length, its midpoint, its
   * strand arrow and its lane; the view runs from `start` to `end` (or the
   * default end) and gene labels are drawn only on views shorter than
   * 20000.
   */
  method PlotFeatures(features: seq<FeatureTable.Feature>, start: int, end: Option<int>, rows: int)
    returns (r: Result<FeatureTrack, PyException>)
    ensures FeatureTable.AnyMalformed(features) ==> r == Err(IndexError)
    ensures !FeatureTable.AnyMalformed(features) ==>
      var shown := Shown(features);
      && (r.Err? <==> !AllLocated(shown) || (shown != [] && rows <= 0))
      && (r.Err? && !AllLocated(shown) ==> r.error == TypeError)
      && (r.Err? && AllLocated(shown) ==> r.error == ValueError)
    ensures r.Ok? ==>
      && !FeatureTable.AnyMalformed(features)
      && AllLocated(Shown(features))
      && r.value == FeatureTrack(FeatureGlyphs(Shown(features), rows), start,
                                 ViewEnd(end, RowEnds(Shown(features))),
                                 ViewEnd(end, RowEnds(Shown(features))).Some? &&
                                 ViewEnd(end, RowEnds(Shown(features))).value - start < 20000)
  {
    var df := FeatureTable.FeaturesToDataframe(features, false);
    if df.Err? {
      return Err(IndexError);
    }
    var shown := Seqs.Filter(df.value, Drawable);
    assert shown == Shown(features);
    if !AllLocated(shown) {
      return Err(TypeError);
    }
    var y := Lanes(|shown|, rows);
    if y.Err? {
      return Err(ValueError);
    }
    var glyphs := seq(|shown|, i requires 0 <= i < |shown| => FeatureGlyphOf(shown[i], y.value[i]));
    assert glyphs == FeatureGlyphs(shown, rows);
    var viewEnd := end;
    if viewEnd.None? {
      viewEnd := DefaultEnd(RowEnds(shown));
    }
    var labels := viewEnd.Some? && viewEnd.value - start < 20000;
    return Ok(FeatureTrack(glyphs, start, viewEnd, labels));
  }

  // ---------------------------------------------------------------- variants

  /** A drawn variant: its record and the columns `plot_vcf` adds. */
  datatype VariantGlyph = VariantGlyph(variant: Variants.Variant, color: string, length: int, x: real, y: int)

  datatype VcfTrack = VcfTrack(glyphs: seq<VariantGlyph>, viewStart: int, viewEnd: Option<int>)

  /** `get_color`: SNPs green, indels red, every other variant type blue. */
  function VariantColor(varType: string): (c: string)
    ensures c == "green" <==> varType == "snp"
    ensures c == "red" <==> varType == "indel"
    ensures c == "blue" <==> varType != "snp" && varType != "indel"
  {
    if varType == "snp" then "green" else if varType == "indel" then "red" else "blue"
  }

  function VariantEnds(vs: seq<Variants.Variant>): (ends: seq<int>)
    ensures |ends| == |vs| && forall i :: 0 <= i < |vs| ==> ends[i] == vs[i].end
  {
    seq(|vs|, i requires 0 <= i < |vs| => vs[i].end)
  }

  /**
   * `plot_vcf(vcf_file, start, end)` over the records of the file: the
   * records of quality at least 30, in file order, coloured by type, all in
   * lane 0, each centred on its midpoint.
   */
  function PlotVcf(records: seq<Variants.Variant>, start: int, end: Option<int>): (t: VcfTrack)
    ensures var kept := Variants.FilterByQuality(records, Variants.DEFAULT_QUALITY);
      && |t.glyphs| == |kept|
      && (forall i :: 0 <= i < |kept| ==>
            && t.glyphs[i].variant == kept[i]
            && t.glyphs[i].color == VariantColor(kept[i].varType)
            && t.glyphs[i].length == kept[i].end - kept[i].start
            && 2.0 * t.glyphs[i].x == (kept[i].start + kept[i].end) as real
            && t.glyphs[i].y == 0)
      && t.viewStart == start
      && t.viewEnd == ViewEnd(end, VariantEnds(kept))
  {
    var df := Variants.FilterByQuality(records, Variants.DEFAULT_QUALITY);
    var glyphs := seq(|df|, i requires 0 <= i < |df| =>
      var v := df[i];
      var length := v.end - v.start;
      VariantGlyph(v, VariantColor(v.varType), length, v.start as real + length as real / 2.0, 0));
    VcfTrack(glyphs, start, ViewEnd(end, VariantEnds(df)))
  }

  /** Every drawn variant passed the quality filter and came from the file. */
  lemma VcfDrawsOnlyGoodRecords(records: seq<Variants.Variant>, start: int, end: Option<int>, i: nat)
    requires i < |PlotVcf(records, start, end).glyphs|
    ensures var v := PlotVcf(records, start, end).glyphs[i].variant;
      v in records && Variants.QualityAtLeast(Variants.DEFAULT_QUALITY, v)
  {
  }

  // ---------------------------------------------------------------- reads

  /** The `bam_file` argument: none given, or a path whose file may be missing. */
  datatype BamSource = NoBamFile | BamFile(index: Option<ReadStacking.Fetch>)

  /** A drawn read: its table row and the columns `plot_bam_alignment` adds. */
  datatype ReadGlyph = ReadGlyph(row: ReadStacking.AlnRow, x: real, color: string, span: string)

  datatype ReadTrack = ReadTrack(glyphs: seq<ReadGlyph>, viewStart: real, viewEnd: real)

  /**
   * The window the reads are fetched from: the view padded by half its
   * width on each side, so it is centred on the view, twice as wide, and
   * covers it.
   */
  function PaddedWindow(start: real, end: real): (w: (real, real))
    ensures w.0 + w.1 == start + end
    ensures w.1 - w.0 == 2.0 * (end - start)
    ensures start <= end ==> w.0 <= start && end <= w.1
  {
    var o := (end - start) / 2.0;
    (start - o, end + o)
  }

  /** `str(x.start) + ':' + str(x.end)`. */
  function Span(start: int, end: int): string {
    PyText.IntToString(start) + ":" + PyText.IntToString(end)
  }

  /** A span reads back as the two coordinates it was made from. */
  lemma SpanRoundTrip(start: int, end: int)
    ensures var parts := PyText.Split(Span(start, end), ':');
      |parts| == 2 && PyText.ParseInt(parts[0]) == Some(start) && PyText.ParseInt(parts[1]) == Some(end)
  {
    var a, b := PyText.IntToString(start), PyText.IntToString(end);
    assert ':' !in a && ':' !in b by {
      assert forall k :: 0 <= k < |a| ==> a[k] != ':';
      assert forall k :: 0 <= k < |b| ==> b[k] != ':';
    }
    assert PyText.Join([':'], [a, b]) == a + ":" + b by {
      assert PyText.Join([':'], [b]) == b;
    }
    PyText.SplitOfJoin([a, b], ':');
    PyText.ParseIntOfIntToString(start);
    PyText.ParseIntOfIntToString(end);
  }

  /**
   * The glyph of a read: centred at its start plus half its query length,
   * red when its mapping quality is 0, otherwise the fill colour.
   */
  function ReadGlyphOf(row: ReadStacking.AlnRow, fillColor: string): (g: ReadGlyph)
    ensures g.row == row && g.span == Span(row.read.start, row.read.end)
    ensures 2.0 * (g.x - row.read.start as real) == row.read.length as real
    ensures g.color == "red" <==> row.read.mapq == 0 || fillColor == "red"
    ensures row.read.mapq != 0 ==> g.color == fillColor
  {
    ReadGlyph(row, row.read.start as real + row.read.length as real / 2.0,
              if row.read.mapq == 0 then "red" else fillColor, Span(row.read.start, row.read.end))
  }

  /**
   * What `plot_bam_alignment` makes of the read table: a placeholder when
   * the file was missing or no read overlaps, otherwise one glyph per row.
   */
  function ReadTrackOf(aln: Option<seq<ReadStacking.AlnRow>>, start: real, end: real, fillColor: string)
    : (p: Plot<ReadTrack>)
    ensures aln.None? ==> p == Placeholder("no bam file or bam not indexed")
    ensures aln == Some([]) ==> p == Placeholder("no data in range")
    ensures aln.Some? && aln.value != [] ==> p.Drawn?
    ensures p.Drawn? ==> aln.Some?
    ensures p.Drawn? ==>
      |p.track.glyphs| == |aln.value| && p.track.viewStart == start && p.track.viewEnd == end &&
      forall i :: 0 <= i < |aln.value| ==> p.track.glyphs[i] == ReadGlyphOf(aln.value[i], fillColor)
  {
    if aln.None? then Placeholder("no bam file or bam not indexed")
    else if aln.value == [] then Placeholder("no data in range")
    else
      var rows := aln.value;
      Drawn(ReadTrack(seq(|rows|, i requires 0 <= i < |rows| => ReadGlyphOf(rows[i], fillColor)), start, end))
  }

  /** The table rows behind the drawn reads. */
  function TrackRows(t: ReadTrack): (rows: seq<ReadStacking.AlnRow>)
    ensures |rows| == |t.glyphs| && forall i :: 0 <= i < |t.glyphs| ==> rows[i] == t.glyphs[i].row
  {
    seq(|t.glyphs|, i requires 0 <= i < |t.glyphs| => t.glyphs[i].row)
  }

  /**
   * `plot_bam_alignment(bam_file, chr, start, end, fill_color)`: with no
   * file a placeholder; otherwise the ungrouped reads of the padded window,
   * drawn over the view from start to end.
   */
  method PlotBamAlignment(bam: BamSource, chrom: Option<string>, start: real, end: real, fillColor: string,
                          binOf: ReadStacking.BinOf)
    returns (p: Plot<ReadTrack>)
    ensures bam.NoBamFile? ==> p == Placeholder("no bam file")
    ensures bam.BamFile? && (bam.index.None? || chrom.None?) ==> p == Placeholder("no bam file or bam not indexed")
    ensures bam.BamFile? && bam.index.Some? && chrom.Some? ==>
      var w := PaddedWindow(start, end);
      var fetched := bam.index.value(chrom.value, ReadStacking.ClampStart(w.0), w.1);
      (p.Placeholder? <==> fetched == []) &&
      (p.Placeholder? ==> p.message == "no data in range") &&
      (p.Drawn? ==> (|p.track.glyphs| == |fetched| &&
         p.track.viewStart == start && p.track.viewEnd == end &&
         (forall i :: 0 <= i < |fetched| ==>
            && p.track.glyphs[i].row.read == fetched[i] && p.track.glyphs[i].row.counts.None?
            && p.track.glyphs[i] == ReadGlyphOf(p.track.glyphs[i].row, fillColor)) &&
         ReadStacking.Stacked(TrackRows(p.track), ReadStacking.Bins(ReadStacking.ClampStart(w.0), w.1), binOf)))
  {
    if bam.NoBamFile? {
      return Placeholder("no bam file");
    }
    var w := PaddedWindow(start, end);
    var df := ReadStacking.GetBamAln(bam.index, chrom, w.0, w.1, false, binOf);
    p := ReadTrackOf(df, start, end, fillColor);
    if p.Drawn? {
      assert TrackRows(p.track) == df.value;
    }
  }

  /**
   * The three placeholders that `plotters.py` builds through the name
   * `plotters`, which is not defined inside that module.
   */
  const UNBOUND_PLACEHOLDERS: set<string> := {"no sequence", "no bam file or bam not indexed", "no data in range"}

  /** A plot as the module's code returns it: those placeholders raise NameError instead. */
  function AsWritten<T>(p: Plot<T>): (r: Result<Plot<T>, PyException>)
    ensures r.Err? <==> p.Placeholder? && p.message in UNBOUND_PLACEHOLDERS
    ensures r.Err? ==> r.error == NameError
    ensures r.Ok? ==> r.value == p
  {
    if p.Placeholder? && p.message in UNBOUND_PLACEHOLDERS then Err(NameError) else Ok(p)
  }

  /**
   * A BAM file whose window holds no read, or that is missing, makes the
   * read track raise NameError as written, where a placeholder is intended.
   */
  lemma ReadTrackPlaceholderCounterexample(start: real, end: real, fillColor: string)
    ensures ReadTrackOf(Some([]), start, end, fillColor) == Placeholder("no data in range")
    ensures AsWritten(ReadTrackOf(Some([]), start, end, fillColor)) == Err(NameError)
    ensures AsWritten(ReadTrackOf(None, start, end, fillColor)) == Err(NameError)
  {
  }

  // ---------------------------------------------------------------- sequence

  /** The single-sequence track: positions from 1, symbols, colours, text shown or not, height. */
  datatype SequenceTrack = SequenceTrack(x: seq<int>, text: seq<char>, colors: seq<string>, showText: bool,
                                         height: int, viewStart: int, viewEnd: int)

  /**
   * The plot height: kept without an x axis; with one, raised to 50 when
   * below 40, and 70 when tools are shown.
   */
  function SequenceHeight(plotHeight: int, xaxis: bool, tools: string): (h: int)
    ensures !xaxis ==> h == plotHeight
    ensures xaxis ==> h >= 40
    ensures xaxis && tools != "" ==> h == 70
    ensures xaxis && tools == "" ==> h == (if plotHeight < 40 then 50 else plotHeight)
  {
    if !xaxis then plotHeight
    else if tools != "" then 70
    else if plotHeight < 40 then 50
    else plotHeight
  }

  /**
   * `plot_sequence(seq, plot_height, xaxis, tools)`: a placeholder for no
   * sequence, the KeyError of colouring a symbol no palette knows, or one
   * cell per symbol at x = 1 .. N with its colour; the letters are drawn
   * only for sequences shorter than 200 and the view is 0 .. N.
   */
  function PlotSequence(s: Option<string>, plotHeight: int, xaxis: bool, tools: string, ramp: seq<string>)
    : (r: Result<Plot<SequenceTrack>, PyException>)
    requires |ramp| == 20
    ensures (s.None? || s.value == []) ==> r == Ok(Placeholder("no sequence"))
    ensures s.Some? && s.value != [] ==>
      (r.Err? <==> Palette.SequenceColors([s.value], ramp).Err?) && (r.Err? ==> r.error == KeyError)
    ensures r.Ok? && r.value.Drawn? ==> s.Some? && var t, n := r.value.track, |s.value|;
      && |t.x| == n && (forall i :: 0 <= i < n ==> t.x[i] == i + 1)
      && t.text == s.value
      && t.colors == Palette.SequenceColors([s.value], ramp).value && |t.colors| == n
      && (t.showText <==> n < 200)
      && t.height == SequenceHeight(plotHeight, xaxis, tools)
      && t.viewStart == 0 && t.viewEnd == n
  {
    if s.None? || s.value == [] then Ok(Placeholder("no sequence"))
    else
      var n := |s.value|;
      var colors := Palette.SequenceColors([s.value], ramp);
      if colors.Err? then Err(colors.error)
      else
        assert Seqs.Flatten([s.value]) == s.value by {
          assert [s.value][1..] == [];
        }
        Ok(Drawn(SequenceTrack(seq(n, i requires 0 <= i < n => i + 1), s.value, colors.value, n < 200,
                               SequenceHeight(plotHeight, xaxis, tools), 0, n)))
  }

  /** An empty sequence makes the sequence track raise NameError as written. */
  lemma SequencePlaceholderCounterexample(ramp: seq<string>)
    requires |ramp| == 20
    ensures PlotSequence(Some(""), 20, true, "", ramp) == Ok(Placeholder("no sequence"))
    ensures AsWritten(PlotSequence(Some(""), 20, true, "", ramp).value) == Err(NameError)
  {
  }

  // ---------------------------------------------------------------- alignment

  /**
   * The alignment viewer's data: the symbols row after row, their colours,
   * the conservation row, the grid cell of each symbol, and the opening
   * view 0 .. L.
   */
  datatype AlignmentTrack = AlignmentTrack(text: seq<char>, colors: seq<string>, cons: seq<real>,
                                           gx: seq<int>, gy: seq<int>, viewEnd: int, plotHeight: int)

  /**
   * `np.meshgrid(arange(1, N+1), arange(0, S))` raveled: cell k of the N by
   * S grid is column k mod N + 1 of row k div N, so the cells run along
   * each row in turn.
   */
  function Grid(n: nat, s: nat): (g: (seq<int>, seq<int>))
    requires n > 0
    ensures |g.0| == |g.1| == n * s
    ensures forall k :: 0 <= k < n * s ==> 1 <= g.0[k] <= n && 0 <= g.1[k] < s
    ensures forall k :: 0 <= k < n * s ==> g.0[k] == k % n + 1 && g.1[k] == k / n
  {
    (GridColumns(n, s), GridRows(n, s))
  }

  /** The column of each grid cell, counted from 1. */
  function GridColumns(n: nat, s: nat): (gx: seq<int>)
    requires n > 0
    ensures |gx| == n * s
    ensures forall k :: 0 <= k < n * s ==> gx[k] == k % n + 1 && 1 <= gx[k] <= n
  {
    seq(n * s, k requires 0 <= k < n * s => k % n + 1)
  }

  /** The row of each grid cell, counted from 0. */
  function GridRows(n: nat, s: nat): (gy: seq<int>)
    requires n > 0
    ensures |gy| == n * s
    ensures forall k :: 0 <= k < n * s ==> gy[k] == k / n && 0 <= gy[k] < s
  {
    forall k | 0 <= k < n * s
      ensures k / n < s
    {
      Seqs.DivBelow(k, n, s);
    }
    seq(n * s, k requires 0 <= k < n * s => k / n)
  }

  /** `L = 100`, lowered to the alignment width when that is smaller. */
  function ViewLength(n: nat): (l: nat)
    ensures l <= 100 && l <= n && (l == 100 || l == n)
  {
    if n < 100 then n else 100
  }

  /**
   * The track drawn for an alignment of S sequences of width N > 0: the
   * symbols row after row with their colours, one conservation value per
   * column, the grid cell of each symbol, the opening view and the height
   * of S rows.
   */
  ghost predicate DrawsAlignment(t: AlignmentTrack, aln: Conservation.Alignment, rowHeight: int, ramp: seq<string>)
    requires Conservation.Aligned(aln) && |aln| > 0 && |aln[0]| > 0 && |ramp| == 20
  {
    var n, s := |aln[0]|, |aln|;
    && t.text == Seqs.Flatten(aln)
    && Palette.SequenceColors(aln, ramp).Ok? && t.colors == Palette.SequenceColors(aln, ramp).value
    && |t.cons| == n && (forall i :: 0 <= i < n ==> Conservation.IsConservation(Conservation.Column(aln, i), t.cons[i]))
    && (t.gx, t.gy) == Grid(n, s)
    && t.viewEnd == ViewLength(n)
    && t.plotHeight == s * rowHeight + 50
  }

  /**
   * What `plot_sequence_alignment(aln, row_height)` gives: a placeholder
   * for fewer than two sequences; otherwise the KeyError of colouring, then
   * the ValueError of `get_cons` for an all-gap column or of `min(cons)`
   * for an alignment of width 0, and else the drawn track.
   */
  ghost predicate AlignmentPlotted(aln: Conservation.Alignment, rowHeight: int, ramp: seq<string>,
                                   r: Result<Plot<AlignmentTrack>, PyException>)
    requires Conservation.Aligned(aln) && |ramp| == 20
  {
    if |aln| <= 1 then r == Ok(Placeholder("needs at least two sequences"))
    else if Palette.SequenceColors(aln, ramp).Err? then r == Err(KeyError)
    else if |aln[0]| == 0 || exists i :: 0 <= i < |aln[0]| && !Conservation.HasSymbol(Conservation.Column(aln, i))
    then r == Err(ValueError)
    else r.Ok? && r.value.Drawn? && DrawsAlignment(r.value.track, aln, rowHeight, ramp)
  }

  /** `plot_sequence_alignment(aln, row_height)`, computing the conservation row with `get_cons`. */
  method PlotSequenceAlignment(aln: Conservation.Alignment, rowHeight: int, ramp: seq<string>)
    returns (r: Result<Plot<AlignmentTrack>, PyException>)
    requires Conservation.Aligned(aln) && |ramp| == 20
    ensures AlignmentPlotted(aln, rowHeight, ramp, r)
    ensures |aln| > 1 && r.Ok? ==> r.value.Drawn?
  {
    if |aln| <= 1 {
      return Ok(Placeholder("needs at least two sequences"));
    }
    var colors := Palette.SequenceColors(aln, ramp);
    if colors.Err? {
      return Err(KeyError);
    }
    var cons := Conservation.GetCons(aln);
    if cons.Err? {
      return Err(ValueError);
    }
    var n, s := |aln[0]|, |aln|;
    if n == 0 {
      return Err(ValueError);
    }
    var grid := Grid(n, s);
    return Ok(Drawn(AlignmentTrack(Seqs.Flatten(aln), colors.value, cons.value, grid.0, grid.1, ViewLength(n),
                                   s * rowHeight + 50)));
  }

  /**
   * The grid lines the symbols up: the symbol drawn in cell k is the one at
   * column gx[k] (counted from 1) of sequence gy[k], and there is one cell
   * per symbol.
   */
  lemma GridMatchesText(aln: Conservation.Alignment, k: nat)
    requires Conservation.Aligned(aln) && |aln| > 0 && |aln[0]| > 0
    requires k < |aln[0]| * |aln|
    ensures var n := |aln[0]|; var g := Grid(n, |aln|);
      |Seqs.Flatten(aln)| == n * |aln| &&
      0 <= g.1[k] < |aln| && 1 <= g.0[k] <= n && Seqs.Flatten(aln)[k] == aln[g.1[k]][g.0[k] - 1]
  {
    var n := |aln[0]|;
    assert Seqs.AllOfWidth(aln, n);
    assert k < |aln| * n;
    Seqs.FlattenAt(aln, n, k);
  }

  // ---------------------------------------------------------------- coverage

  /** The coverage track: its rows, the view over their positions and the height of the deepest. */
  datatype CoverageTrack = CoverageTrack(samples: seq<Coverage.Sample>, lo: int, hi: int, top: int)

  function Positions(samples: seq<Coverage.Sample>): (ps: seq<int>)
    ensures |ps| == |samples| && forall i :: 0 <= i < |samples| ==> ps[i] == samples[i].pos
  {
    seq(|samples|, i requires 0 <= i < |samples| => samples[i].pos)
  }

  function Depths(samples: seq<Coverage.Sample>): (ds: seq<int>)
    ensures |ds| == |samples| && forall i :: 0 <= i < |samples| ==> ds[i] == samples[i].depth
  {
    seq(|samples|, i requires 0 <= i < |samples| => samples[i].depth)
  }

  /**
   * `plot_coverage(df)`: an empty placeholder without data; otherwise the
   * view spans exactly the lowest to the highest position and the height
   * reaches exactly the greatest depth.
   */
  function PlotCoverage(cov: Option<seq<Coverage.Sample>>): (p: Plot<CoverageTrack>)
    ensures p.Placeholder? <==> cov.None? || cov.value == []
    ensures p.Placeholder? ==> p.message == ""
    ensures p.Drawn? ==> var t := p.track;
      && t.samples == cov.value
      && (forall i :: 0 <= i < |t.samples| ==> t.lo <= t.samples[i].pos <= t.hi && t.samples[i].depth <= t.top)
      && (exists i :: 0 <= i < |t.samples| && t.samples[i].pos == t.lo)
      && (exists i :: 0 <= i < |t.samples| && t.samples[i].pos == t.hi)
      && (exists i :: 0 <= i < |t.samples| && t.samples[i].depth == t.top)
  {
    if cov.None? || cov.value == [] then Placeholder("")
    else
      var df := cov.value;
      Drawn(CoverageTrack(df, Seqs.Min(Positions(df)), Seqs.Max(Positions(df)), Seqs.Max(Depths(df))))
  }
}
