/**
 * The state behind the Panel dashboards (`dashboards.py`): the genome
 * features viewer, the BAM viewer and the sequence alignment viewer. Each
 * is a class whose fields are the widget values its handlers read and
 * write; a handler that sets a watched widget value runs that widget's
 * watcher before it goes on, as `param.watch` does for a value that
 * changed.
 */
module Dashboards {
  import opened Wrappers
  import PyText
  import FeatureTable
  import Coverage
  import Conservation
  import Plotters

  /** Python's `int()` of a float: truncation toward zero. */
  function Trunc(x: real): (i: int)
    ensures x >= 0.0 ==> i as real <= x < i as real + 1.0
    ensures x < 0.0 ==> i as real - 1.0 < x <= i as real
  {
    if x >= 0.0 then x.Floor else -((-x).Floor)
  }

  /** Truncating a whole number gives it back. */
  lemma TruncOfInt(i: int)
    ensures Trunc(i as real) == i
  {
    if i < 0 {
      assert -(i as real) == (-i) as real;
    }
  }

  /**
   * `int(start + zoom * 200 / 2)`: the features viewer shows 100 positions
   * per zoom step.
   */
  lemma ZoomedEnd(start: int, zoom: int)
    ensures Trunc(start as real + (zoom * 200) as real / 2.0) == start + 100 * zoom
  {
    assert start as real + (zoom * 200) as real / 2.0 == (start + 100 * zoom) as real;
    TruncOfInt(start + 100 * zoom);
  }

  /**
   * `int(start + xzoom / 2)` in the BAM viewer: for a window right of 0, the
   * label end is the start plus half the zoom, rounded down.
   */
  lemma HalfZoomEnd(start: int, xzoom: int)
    requires start >= 0 && xzoom >= 0
    ensures Trunc(start as real + xzoom as real / 2.0) == start + xzoom / 2
  {
    var q, r := xzoom / 2, xzoom % 2;
    assert xzoom == 2 * q + r;
    assert xzoom as real / 2.0 == q as real + r as real / 2.0;
  }

  /** A view of width w, widened by zoom, pans by w / 10 truncated: a tenth of the width. */
  lemma PanStep(zoom: int)
    ensures Trunc((100 * zoom) as real / 10.0) == 10 * zoom
  {
    assert (100 * zoom) as real / 10.0 == (10 * zoom) as real;
    TruncOfInt(10 * zoom);
  }

  /**
   * The location text "start:end" split on ':' and each of the first two
   * parts read with `int()`: ValueError for a part that is not a number,
   * IndexError when there is no second part; further parts are ignored.
   */
  function ParseLocation(text: string): (r: Result<(int, int), PyException>)
    ensures var parts := PyText.Split(text, ':');
      r.Ok? <==> PyText.ParseInt(parts[0]).Some? && |parts| >= 2 && PyText.ParseInt(parts[1]).Some?
    ensures var parts := PyText.Split(text, ':');
      r.Ok? ==> r.value == (PyText.ParseInt(parts[0]).value, PyText.ParseInt(parts[1]).value)
    ensures var parts := PyText.Split(text, ':');
      r.Err? ==> r.error == if PyText.ParseInt(parts[0]).Some? && |parts| < 2 then IndexError else ValueError
  {
    var vals := PyText.Split(text, ':');
    var start := PyText.ParseInt(vals[0]);
    if start.None? then Err(ValueError)
    else if |vals| < 2 then Err(IndexError)
    else
      var end := PyText.ParseInt(vals[1]);
      if end.None? then Err(ValueError) else Ok((start.value, end.value))
  }

  /** The text the start/zoom path writes reads back as the same view. */
  lemma LocationRoundTrip(start: int, end: int)
    ensures ParseLocation(Plotters.Span(start, end)) == Ok((start, end))
  {
    Plotters.SpanRoundTrip(start, end);
  }

  /** A location without ':' is rejected: IndexError when it is a number, ValueError otherwise. */
  lemma LocationWithoutColon(text: string)
    requires ':' !in text
    ensures ParseLocation(text).Err?
    ensures ParseLocation(text).error == if PyText.ParseInt(text).Some? then IndexError else ValueError
  {
    assert PyText.Split(text, ':') == [text];
  }

  /** The gene column after `fillna('')`. */
  function GeneText(row: FeatureTable.Row): string {
    if row.gene.Text? then row.gene.text else ""
  }

  /** `df.gene.str.contains(term)` for one row. */
  predicate GeneMatches(row: FeatureTable.Row, term: string) {
    PyText.Contains(GeneText(row), term)
  }

  /** `df[df.gene.str.contains(term)].iloc[0]`: the position of the first row, in table order, whose gene contains the term. */
  function FirstMatch(rows: seq<FeatureTable.Row>, term: string): (r: Option<nat>)
    ensures r.Some? ==> r.value < |rows|
  {
    if rows == [] then None
    else if GeneMatches(rows[0], term) then Some(0)
    else
      match FirstMatch(rows[1..], term)
      case None => None
      case Some(k) => Some(k + 1)
  }

  /** `FirstMatch` finds a row whose gene contains the term, no earlier row does, and it finds none only when no row does. */
  lemma {:induction false} FirstMatchSpec(rows: seq<FeatureTable.Row>, term: string)
    ensures var r := FirstMatch(rows, term);
      && (r.None? <==> forall i :: 0 <= i < |rows| ==> !GeneMatches(rows[i], term))
      && (r.Some? ==> GeneMatches(rows[r.value], term))
      && (r.Some? ==> forall j :: 0 <= j < r.value ==> !GeneMatches(rows[j], term))
  {
    if rows != [] && !GeneMatches(rows[0], term) {
      var tail := rows[1..];
      var rest := FirstMatch(tail, term);
      assert FirstMatch(rows, term) == if rest.None? then None else Some(rest.value + 1);
      FirstMatchSpec(tail, term);
      assert forall i :: 1 <= i < |rows| ==> rows[i] == tail[i - 1];
    }
  }

  /** `int()` of a table cell: a number, or text holding one; NaN and other text raise ValueError. */
  function CellToInt(c: FeatureTable.Cell): (r: Result<int, PyException>)
    ensures c.Num? ==> r == Ok(c.n)
    ensures c.Text? ==> (r.Ok? <==> PyText.ParseInt(c.text).Some?)
    ensures c.Text? && r.Ok? ==> r.value == PyText.ParseInt(c.text).value
    ensures c.Null? ==> r == Err(ValueError)
    ensures r.Err? ==> r.error == ValueError
  {
    match c
    case Num(n) => Ok(n)
    case Text(t) => if PyText.ParseInt(t).Some? then Ok(PyText.ParseInt(t).value) else Err(ValueError)
    case Null => Err(ValueError)
  }

  /**
   * The start a search moves to: `features_to_dataframe` of the features the
   * search reads (None, when there is no file to read, raises TypeError at
   * `enumerate`; a malformed feature IndexError), then `int()` of the start
   * of the first row whose gene contains the term (IndexError when none
   * does).
   */
  function SearchStart(features: Option<seq<FeatureTable.Feature>>, term: string): (r: Result<int, PyException>)
    ensures features.None? ==> r == Err(TypeError)
    ensures features.Some? && FeatureTable.Dataframe(features.value, false).Err? ==> r == Err(IndexError)
    ensures features.Some? && FeatureTable.Dataframe(features.value, false).Ok? ==>
      var rows := FeatureTable.Dataframe(features.value, false).value;
      var m := FirstMatch(rows, term);
      && (m.None? ==> r == Err(IndexError))
      && (m.Some? ==> r == CellToInt(rows[m.value].start))
    ensures r.Err? ==> r.error in {TypeError, IndexError, ValueError}
  {
    if features.None? then Err(TypeError)
    else
      var df := FeatureTable.Dataframe(features.value, false);
      if df.Err? then Err(IndexError)
      else
        var m := FirstMatch(df.value, term);
        if m.None? then Err(IndexError) else CellToInt(df.value[m.value].start)
  }

  // ---------------------------------------------------------------- genome features viewer

  /**
   * `genome_features_viewer`: the start slider, the zoom slider, the
   * location text and the x range of the feature plot.
   */
  class FeaturesViewer {
    var slider: int
    var zoom: int
    var location: string
    var viewStart: int
    var viewEnd: int
    /** The search box's text. */
    var term: string
    /** The features of the GFF file, which the search reads again each time. */
    const features: seq<FeatureTable.Feature>

    /** The zoom slider's range. */
    predicate Valid()
      reads this
    {
      1 <= zoom <= 500
    }

    /** Everything but the search box is as it was: slider, zoom, location text and view. */
    twostate predicate ViewKept()
      reads this
    {
      slider == old(slider) && zoom == old(zoom) && location == old(location) &&
      viewStart == old(viewStart) && viewEnd == old(viewEnd)
    }

    /**
     * The state a start or zoom event leaves: the view starts at the slider,
     * is 100 positions per zoom step wide, and the location text shows it.
     */
    predicate Following()
      reads this
    {
      viewStart == slider && viewEnd == slider + 100 * zoom && location == Plotters.Span(viewStart, viewEnd)
    }

    /** With the zoom in its range, the view a start or zoom event leaves runs forwards, 100 to 50000 wide. */
    lemma FollowingForward()
      requires Valid() && Following()
      ensures viewStart < viewEnd && 100 <= viewEnd - viewStart <= 50000
    {
    }

    /** The widgets' initial values and the feature plot's initial range 0 .. 10000. */
    constructor(features: seq<FeatureTable.Feature>)
      ensures slider == 1 && zoom == 100 && location == "" && term == ""
      ensures viewStart == 0 && viewEnd == 10000
      ensures this.features == features
      ensures Valid()
    {
      slider, zoom, location, term := 1, 100, "", "";
      viewStart, viewEnd := 0, 10000;
      this.features := features;
    }

    /**
     * `genome_features_viewer(gff_file)`: nothing without a file; the
     * IndexError of `features_to_dataframe` for a malformed feature; the
     * error of the first `plot_features(features, 0, 10000, rows=4)`, a
     * TypeError for a drawn feature without a numeric start or end; and
     * otherwise a viewer in its initial state.
     */
    static method Open(gff: Option<seq<FeatureTable.Feature>>) returns (r: Result<Option<FeaturesViewer>, PyException>)
      ensures gff.None? ==> r == Ok(None)
      ensures gff.Some? && FeatureTable.AnyMalformed(gff.value) ==> r == Err(IndexError)
      ensures gff.Some? && !FeatureTable.AnyMalformed(gff.value) ==>
        (r.Err? <==> !Plotters.AllLocated(Plotters.Shown(gff.value))) && (r.Err? ==> r.error == TypeError)
      ensures r.Ok? && r.value.Some? ==>
        var v := r.value.value;
        && fresh(v) && gff.Some? && v.features == gff.value
        && v.slider == 1 && v.zoom == 100 && v.location == "" && v.term == ""
        && v.viewStart == 0 && v.viewEnd == 10000 && v.Valid()
    {
      if gff.None? {
        return Ok(None);
      }
      var df := FeatureTable.FeaturesToDataframe(gff.value, false);
      if df.Err? {
        return Err(df.error);
      }
      var plot := Plotters.PlotFeatures(gff.value, 0, Some(10000), 4);
      if plot.Err? {
        return Err(plot.error);
      }
      var v := new FeaturesViewer(gff.value);
      return Ok(Some(v));
    }

    /**
     * `update` for a `start` or `zoom` event. Writing the location text
     * runs the location watcher, which parses the text back into the same
     * view and sets the slider to the value it already holds.
     */
    method UpdateFromSlider()
      requires Valid()
      modifies this
      ensures slider == old(slider) && zoom == old(zoom) && term == old(term)
      ensures Following() && viewEnd - viewStart >= 100
    {
      var xzoom := zoom * 200;
      var start := slider;
      var end := Trunc(start as real + xzoom as real / 2.0);
      ZoomedEnd(start, zoom);
      var text := Plotters.Span(start, end);
      if text != location {
        location := text;
        LocationWatcher(start, end);
      }
      viewStart, viewEnd := start, end;
    }

    /**
     * The location watcher as the start/zoom path runs it: the text just
     * written parses back to the view it was made from, and the slider
     * already holds its start, so the slider watcher stays silent.
     */
    method LocationWatcher(start: int, end: int)
      requires location == Plotters.Span(start, end) && slider == start
      modifies this`viewStart, this`viewEnd
      ensures viewStart == start && viewEnd == end
    {
      LocationRoundTrip(start, end);
      var parsed := ParseLocation(location);
      viewStart, viewEnd := parsed.value.0, parsed.value.1;
    }

    /**
     * The state a typed location leaves: the slider and the view start at
     * its start and the view ends at its end; the text is rewritten in the
     * start/zoom form when the slider moved, and kept otherwise.
     */
    predicate Applied(view: (int, int), priorSlider: int, typed: string)
      reads this
    {
      && slider == view.0 && viewStart == view.0 && viewEnd == view.1
      && location == if view.0 != priorSlider then Plotters.Span(view.0, view.0 + 100 * zoom) else typed
    }

    /**
     * `update` for a `location` event: the typed view is shown as typed
     * (with no check that it runs forwards), and the slider moves to its
     * start, which rewrites the location text in the start/zoom form when
     * the slider changed.
     */
    method UpdateFromLocation() returns (o: Outcome)
      requires Valid()
      modifies this
      ensures term == old(term)
      ensures ParseLocation(old(location)).Err? ==>
        o == Fail(ParseLocation(old(location)).error) && unchanged(this)
      ensures ParseLocation(old(location)).Ok? ==>
        o == Pass && zoom == old(zoom) && Applied(ParseLocation(old(location)).value, old(slider), old(location))
    {
      var parsed := ParseLocation(location);
      if parsed.Err? {
        return Fail(parsed.error);
      }
      ShowView(parsed.value);
      return Pass;
    }

    /** The parsed view is shown, and the slider moves to its start. */
    method ShowView(view: (int, int))
      requires Valid()
      modifies this
      ensures zoom == old(zoom) && term == old(term) && Applied(view, old(slider), old(location))
    {
      if view.0 != slider {
        slider := view.0;
        UpdateFromSlider();
      }
      viewStart, viewEnd := view.0, view.1;
    }

    /** The start slider is moved to `v`; its watcher fires when the value changed. */
    method MoveSlider(v: int)
      requires Valid()
      modifies this
      ensures slider == v && zoom == old(zoom) && term == old(term)
      ensures v != old(slider) ==> Following()
      ensures v == old(slider) ==> unchanged(this)
    {
      if v != slider {
        slider := v;
        UpdateFromSlider();
      }
    }

    /** The zoom slider (1 .. 500) is moved to `z`. */
    method SetZoom(z: int)
      requires 1 <= z <= 500 && Valid()
      modifies this
      ensures zoom == z && slider == old(slider) && term == old(term) && Valid()
      ensures z != old(zoom) ==> Following() && viewEnd - viewStart >= 100
      ensures z == old(zoom) ==> unchanged(this)
    {
      if z != zoom {
        zoom := z;
        UpdateFromSlider();
      }
    }

    /** The location text is set to `text`. */
    method EnterLocation(text: string) returns (o: Outcome)
      requires Valid()
      modifies this
      ensures term == old(term)
      ensures text == old(location) ==> o == Pass && unchanged(this)
      ensures text != old(location) && ParseLocation(text).Err? ==>
        o == Fail(ParseLocation(text).error) && location == text &&
        slider == old(slider) && zoom == old(zoom) && viewStart == old(viewStart) && viewEnd == old(viewEnd)
      ensures text != old(location) && ParseLocation(text).Ok? ==>
        o == Pass && zoom == old(zoom) && Applied(ParseLocation(text).value, old(slider), text)
    {
      if text == location {
        return Pass;
      }
      location := text;
      o := UpdateFromLocation();
    }

    /**
     * `pan`: the slider moves by a tenth of the visible width, truncated
     * toward zero, left for the '<' button and right for any other. The
     * handler then calls `update` with the button's event, whose name
     * matches no branch, so it ends in UnboundLocalError after the slider
     * watcher has already moved the view.
     */
    method Pan(button: string) returns (o: Outcome)
      requires Valid()
      modifies this
      ensures var inc := Trunc((old(viewEnd) - old(viewStart)) as real / 10.0);
        slider == if button == "<" then old(slider) - inc else old(slider) + inc
      ensures zoom == old(zoom) && term == old(term)
      ensures slider != old(slider) ==> Following()
      ensures slider == old(slider) ==> unchanged(this)
      ensures old(Following()) ==>
        slider == (if button == "<" then old(slider) - 10 * zoom else old(slider) + 10 * zoom) && Following()
      ensures o == Fail(UnboundLocalError)
    {
      if Following() {
        PanStep(zoom);
      }
      var rng := viewEnd - viewStart;
      var inc := Trunc(rng as real / 10.0);
      if button == "<" {
        MoveSlider(slider - inc);
      } else {
        MoveSlider(slider + inc);
      }
      return Fail(UnboundLocalError);
    }

    /**
     * The search box is set to `text`; its watcher runs `search_features`
     * when the text changed. The slider moves to 100 before the start of
     * the first feature whose gene contains the text; IndexError when none
     * does. Like `pan`, it ends by calling `update` with an event of no
     * known name.
     */
    method Search(text: string) returns (o: Outcome)
      requires Valid()
      modifies this
      ensures text == old(term) ==> o == Pass && unchanged(this)
      ensures text != old(term) ==> term == text
      ensures text != old(term) && SearchStart(Some(features), text).Err? ==>
        o == Fail(SearchStart(Some(features), text).error) && ViewKept()
      ensures text != old(term) && SearchStart(Some(features), text).Ok? ==>
        && o == Fail(UnboundLocalError)
        && slider == SearchStart(Some(features), text).value - 100 && zoom == old(zoom)
        && (slider != old(slider) ==> Following())
        && (slider == old(slider) ==> ViewKept())
    {
      if text == term {
        return Pass;
      }
      term := text;
      var df := FeatureTable.FeaturesToDataframe(features, false);
      if df.Err? {
        return Fail(IndexError);
      }
      var f := FirstMatch(df.value, text);
      if f.None? {
        return Fail(IndexError);
      }
      var start := CellToInt(df.value[f.value].start);
      if start.Err? {
        return Fail(start.error);
      }
      MoveSlider(start.value - 100);
      return Fail(UnboundLocalError);
    }
  }

  // ---------------------------------------------------------------- BAM viewer

  /** `os.path.splitext`: the position of the last `c` in `s`. */
  function LastIndexOf(s: string, c: char): (r: Option<nat>)
    ensures r.None? <==> c !in s
    ensures r.Some? ==> r.value < |s| && s[r.value] == c && c !in s[r.value + 1..]
  {
    if s == [] then None
    else if s[|s| - 1] == c then Some(|s| - 1)
    else
      var front := s[..|s| - 1];
      assert s == front + [s[|s| - 1]];
      var r := LastIndexOf(front, c);
      assert r.Some? ==> s[r.value + 1..] == front[r.value + 1..] + [s[|s| - 1]];
      r
  }

  /**
   * The extension `os.path.splitext` finds: from the last '.' of the file
   * name on, unless that '.' only follows leading dots of the name.
   */
  function Ext(path: string): (ext: string)
    ensures ext == "" || (|ext| <= |path| && ext == path[|path| - |ext|..] && ext[0] == '.' &&
                          '.' !in ext[1..] && '/' !in ext)
  {
    var dot := LastIndexOf(path, '.');
    var slash := LastIndexOf(path, '/');
    var base := if slash.None? then 0 else slash.value + 1;
    if dot.None? || dot.value < base then ""
    else if forall k :: base <= k < dot.value ==> path[k] == '.' then ""
    else
      assert '/' !in path[dot.value..] by {
        if slash.Some? {
          assert forall k :: dot.value <= k < |path| ==> path[k] == path[slash.value + 1..][k - slash.value - 1];
        }
      }
      path[dot.value..]
  }

  /** A plain file name ends in its extension. */
  lemma ExtOfName(stem: string, ext: string)
    requires |stem| > 0 && stem[0] != '.' && '/' !in stem
    requires |ext| > 0 && ext[0] == '.' && '.' !in ext[1..] && '/' !in ext
    ensures Ext(stem + ext) == ext
  {
    var path := stem + ext;
    var dot := LastIndexOf(path, '.');
    assert path[|stem|] == '.';
    assert '/' !in path by {
      forall k | 0 <= k < |path|
        ensures path[k] != '/'
      {
        if k < |stem| { assert path[k] == stem[k]; } else { assert path[k] == ext[k - |stem|]; }
      }
    }
    assert path[0] == stem[0];
    assert path[|stem|..] == ext;
  }

  /** The feature file readers. */
  datatype FeatureReader = GffReader | GenBankReader

  /**
   * `update_features`' dispatch: no file means no feature plot; `.gff` and
   * `.gff3` files go to the GFF reader, `.gb` and `.gbff` files to the
   * GenBank reader, and any other extension leaves `feats` unassigned.
   */
  function ReaderFor(gffFile: Option<string>): (r: Result<Option<FeatureReader>, PyException>)
    ensures gffFile.None? ==> r == Ok(None)
    ensures gffFile.Some? ==> (r == Ok(Some(GffReader)) <==> Ext(gffFile.value) in {".gff", ".gff3"})
    ensures gffFile.Some? ==> (r == Ok(Some(GenBankReader)) <==> Ext(gffFile.value) in {".gb", ".gbff"})
    ensures gffFile.Some? ==>
      (r == Err(UnboundLocalError) <==> Ext(gffFile.value) !in {".gff", ".gff3", ".gb", ".gbff"})
  {
    if gffFile.None? then Ok(None)
    else
      var ext := Ext(gffFile.value);
      if ext in {".gff", ".gff3"} then Ok(Some(GffReader))
      else if ext in {".gb", ".gbff"} then Ok(Some(GenBankReader))
      else Err(UnboundLocalError)
  }

  /** The reader chosen for a plain file name depends only on the extension it ends in. */
  lemma ReaderForName(stem: string, ext: string)
    requires |stem| > 0 && stem[0] != '.' && '/' !in stem
    requires |ext| > 0 && ext[0] == '.' && '.' !in ext[1..] && '/' !in ext
    ensures ReaderFor(Some(stem + ext)) ==
      if ext in {".gff", ".gff3"} then Ok(Some(GffReader))
      else if ext in {".gb", ".gbff"} then Ok(Some(GenBankReader))
      else Err(UnboundLocalError)
  {
    ExtOfName(stem, ext);
  }

  /**
   * `bam_viewer`: the location slider, the two zoom sliders, the location
   * location label, the x range the tracks share, and the coverage rows.
   */
  class BamViewer {
    var slider: int
    var xzoom: int
    var yzoom: int
    var locationText: string
    var viewStart: int
    var viewEnd: real
    var coverage: Option<seq<Coverage.Sample>>
    /** The search box's text. */
    var term: string
    /** The chromosome `get_chrom` reports for the file. */
    const chrom: string
    /** The pileup of the BAM file; None when there is no file. */
    const pileup: Option<Coverage.Pileup>
    /** The feature file, if any. */
    const gffFile: Option<string>
    /**
     * The features `gff_to_features` reads from the feature file, which the
     * search reads again each time, whatever the file's extension.
     */
    const gffFeatures: seq<FeatureTable.Feature>

    /** What `gff_to_features(gff_file)` returns: None when there is no feature file. */
    function Searched(): (f: Option<seq<FeatureTable.Feature>>)
      ensures f.None? <==> gffFile.None?
    {
      if gffFile.None? then None else Some(gffFeatures)
    }

    /** Everything but the search box is as it was: sliders, label, view and coverage. */
    twostate predicate ViewKept()
      reads this
    {
      slider == old(slider) && xzoom == old(xzoom) && yzoom == old(yzoom) && locationText == old(locationText) &&
      viewStart == old(viewStart) && viewEnd == old(viewEnd) && coverage == old(coverage)
    }

    /** `end = start + xzoom / 2`, a float. */
    function End(): real
      reads this`slider, this`xzoom
    {
      slider as real + xzoom as real / 2.0
    }

    /**
     * What `update` leaves: the label "chrom:start-int(end)", the view from
     * the slider to the float end, and the coverage of that window cut at
     * the integer end.
     */
    predicate Showing()
      reads this`slider, this`xzoom, this`locationText, this`viewStart, this`viewEnd, this`coverage
    {
      && locationText == Label(slider, Trunc(End()))
      && viewStart == slider && viewEnd == End()
      && coverage == CoverageFor(slider, Trunc(End()))
    }

    /** The location label "chrom:start-end". */
    function Label(start: int, end: int): string {
      chrom + ":" + PyText.IntToString(start) + "-" + PyText.IntToString(end)
    }

    /** `get_coverage` of the window from `start` to `end`: None without a BAM file. */
    function CoverageFor(start: int, end: int): Option<seq<Coverage.Sample>> {
      if pileup.None? then None
      else Some(Coverage.CoverageOf(pileup.value(chrom, start - 200, end + 200), start, end))
    }

    /** The widgets' initial values, then the initial `slider.param.trigger('value')`. */
    constructor(chrom: string, pileup: Option<Coverage.Pileup>, gffFile: Option<string>,
                gffFeatures: seq<FeatureTable.Feature>)
      ensures slider == 500 && xzoom == 1000 && yzoom == 20 && term == ""
      ensures this.chrom == chrom && this.pileup == pileup
      ensures this.gffFile == gffFile && this.gffFeatures == gffFeatures
      ensures Showing()
    {
      slider, xzoom, yzoom, term := 500, 1000, 20, "";
      locationText, viewStart, viewEnd, coverage := "", 0, 0.0, None;
      this.chrom, this.pileup := chrom, pileup;
      this.gffFile, this.gffFeatures := gffFile, gffFeatures;
      new;
      Update();
    }

    /**
     * `bam_viewer(bam_file, ref_file, gff_file)`: the widgets, then
     * `update_features()`, which raises UnboundLocalError for a feature file
     * of any other extension than .gff, .gff3, .gb and .gbff and otherwise
     * plots the features its reader returns (IndexError for a malformed one,
     * TypeError for a drawn one without a numeric start or end), then the
     * initial trigger. `gffFeatures` and `genBankFeatures` are what the GFF
     * and the GenBank reader make of the feature file.
     */
    static method Open(chrom: string, pileup: Option<Coverage.Pileup>, gffFile: Option<string>,
                       gffFeatures: seq<FeatureTable.Feature>, genBankFeatures: seq<FeatureTable.Feature>)
      returns (r: Result<BamViewer, PyException>)
      ensures ReaderFor(gffFile).Err? ==> r == Err(UnboundLocalError)
      ensures ReaderFor(gffFile) == Ok(None) ==> r.Ok?
      ensures ReaderFor(gffFile).Ok? && ReaderFor(gffFile).value.Some? ==>
        var plotted := if ReaderFor(gffFile).value.value == GffReader then gffFeatures else genBankFeatures;
        && (FeatureTable.AnyMalformed(plotted) ==> r == Err(IndexError))
        && (!FeatureTable.AnyMalformed(plotted) ==>
              (r.Err? <==> !Plotters.AllLocated(Plotters.Shown(plotted))) && (r.Err? ==> r.error == TypeError))
      ensures r.Ok? ==>
        var v := r.value;
        && fresh(v) && v.chrom == chrom && v.pileup == pileup && v.gffFile == gffFile && v.gffFeatures == gffFeatures
        && v.slider == 500 && v.xzoom == 1000 && v.yzoom == 20 && v.term == "" && v.Showing()
    {
      var reader := ReaderFor(gffFile);
      if reader.Err? {
        return Err(reader.error);
      }
      if reader.value.Some? {
        var plotted := if reader.value.value == GffReader then gffFeatures else genBankFeatures;
        var plot := Plotters.PlotFeatures(plotted, 0, None, 3);
        if plot.Err? {
          return Err(plot.error);
        }
      }
      var v := new BamViewer(chrom, pileup, gffFile, gffFeatures);
      return Ok(v);
    }

    /**
     * `update`: the location label, the coverage and the shared x range for the
     * current slider and zoom. The coverage window ends at `int(end)`; the
     * float end itself is what the code passes (see `GetCoverageFloatEnd`).
     */
    method Update()
      modifies this`locationText, this`coverage, this`viewStart, this`viewEnd
      ensures slider == old(slider) && xzoom == old(xzoom) && yzoom == old(yzoom)
      ensures Showing()
    {
      var start := slider;
      var end := End();
      var e := Trunc(end);
      var cov := Coverage.GetCoverage(pileup, chrom, start, e);
      assert cov == CoverageFor(start, e);
      locationText, coverage, viewStart, viewEnd := Label(start, e), cov, start, end;
      assert End() == end && Trunc(End()) == e;
    }

    /**
     * The label `Showing` states, for a window right of 0: it ends at the
     * start plus half the zoom, rounded down.
     */
    lemma LabelEnd()
      requires locationText == Label(slider, Trunc(End())) && slider >= 0 && xzoom >= 0
      ensures locationText == Label(slider, slider + xzoom / 2)
    {
      HalfZoomEnd(slider, xzoom);
    }

    /** The location slider is moved to `v`; its watcher fires when the value changed. */
    method MoveSlider(v: int)
      requires Showing()
      modifies this
      ensures slider == v && xzoom == old(xzoom) && yzoom == old(yzoom) && term == old(term)
      ensures Showing()
    {
      if v != slider {
        slider := v;
        Update();
      }
    }

    /** The x zoom slider (50 .. 8000) is moved to `z`. */
    method SetXZoom(z: int)
      requires 50 <= z <= 8000 && Showing()
      modifies this
      ensures xzoom == z && slider == old(slider) && yzoom == old(yzoom) && term == old(term)
      ensures Showing()
      ensures viewEnd - viewStart as real == z as real / 2.0
    {
      if z != xzoom {
        xzoom := z;
        Update();
      }
    }

    /** `pan_right`: 100 to the right; the watcher and then the handler itself redraw. */
    method PanRight()
      modifies this
      ensures slider == old(slider) + 100 && xzoom == old(xzoom) && yzoom == old(yzoom) && term == old(term)
      ensures Showing()
    {
      slider := slider + 100;
      Update();
      Update();
    }

    /** `pan_left`: 100 to the left, unless that would go below 1. */
    method PanLeft()
      modifies this
      ensures old(slider) - 100 < 1 ==> unchanged(this)
      ensures old(slider) - 100 >= 1 ==>
        slider == old(slider) - 100 && xzoom == old(xzoom) && yzoom == old(yzoom) && term == old(term) && Showing()
      ensures slider >= 1 || slider == old(slider)
    {
      var loc := slider - 100;
      if loc < 1 {
        return;
      }
      slider := loc;
      Update();
      Update();
    }

    /**
     * The search box is set to `text`; its watcher runs `search_features`
     * when the text changed. The search reads the feature file again with
     * the GFF reader, so it raises TypeError when there is no feature file.
     * The slider moves to the start of the first feature whose gene contains
     * the text (no margin), then the view is redrawn; IndexError when no gene
     * matches.
     */
    method Search(text: string) returns (o: Outcome)
      requires Showing()
      modifies this
      ensures text == old(term) ==> o == Pass && unchanged(this)
      ensures text != old(term) ==> term == text
      ensures text != old(term) && SearchStart(Searched(), text).Err? ==>
        o == Fail(SearchStart(Searched(), text).error) && ViewKept()
      ensures text != old(term) && SearchStart(Searched(), text).Ok? ==>
        && o == Pass && slider == SearchStart(Searched(), text).value && Showing()
        && xzoom == old(xzoom) && yzoom == old(yzoom)
    {
      if text == term {
        return Pass;
      }
      term := text;
      if gffFile.None? {
        return Fail(TypeError);
      }
      var df := FeatureTable.FeaturesToDataframe(gffFeatures, false);
      if df.Err? {
        return Fail(IndexError);
      }
      var f := FirstMatch(df.value, text);
      if f.None? {
        return Fail(IndexError);
      }
      var start := CellToInt(df.value[f.value].start);
      if start.Err? {
        return Fail(start.error);
      }
      MoveSlider(start.value);
      Update();
      return Pass;
    }
  }

  // ---------------------------------------------------------------- alignment viewer

  /** Where the sequences to align come from: uploaded FASTA text, or the FASTA file given. */
  datatype SequenceSource = Uploaded(text: string) | FastaFile(name: string)

  /** The aligner programs `align` has a branch for. */
  datatype Aligner = Muscle | Clustal | Mafft

  /**
   * An aligner run on the sequences of a source: the alignment, or None when
   * the program is not installed.
   */
  type RunAligner = (Aligner, SequenceSource) -> Option<Conservation.Alignment>

  /** The options of the aligner menu as the code lists them. */
  const ALIGNER_OPTIONS_AS_WRITTEN: seq<string> := ["muscle", "clustal", "maaft"]

  /** The options of the aligner menu, each naming a program `align` runs. */
  const ALIGNER_OPTIONS: seq<string> := ["muscle", "clustal", "mafft"]

  /** The branch of `align` a menu value selects; None when no branch matches and `aln` stays unbound. */
  function AlignerBranch(name: string): (a: Option<Aligner>)
    ensures a == Some(Muscle) <==> name == "muscle"
    ensures a == Some(Clustal) <==> name == "clustal"
    ensures a == Some(Mafft) <==> name == "mafft"
  {
    if name == "muscle" then Some(Muscle)
    else if name == "clustal" then Some(Clustal)
    else if name == "mafft" then Some(Mafft)
    else None
  }

  /** The menu as written offers "maaft", which no branch of `align` handles. */
  lemma MisspelledOptionCounterexample()
    ensures "maaft" in ALIGNER_OPTIONS_AS_WRITTEN
    ensures AlignerBranch("maaft").None?
  {
  }

  /** Every option of the corrected menu selects an aligner, each a different one. */
  lemma OfferedOptionsAllDispatch()
    ensures forall k :: 0 <= k < |ALIGNER_OPTIONS| ==> AlignerBranch(ALIGNER_OPTIONS[k]).Some?
    ensures forall j, k :: 0 <= j < k < |ALIGNER_OPTIONS| ==>
      AlignerBranch(ALIGNER_OPTIONS[j]) != AlignerBranch(ALIGNER_OPTIONS[k])
  {
  }

  /** `sequence_alignment_viewer`: the uploaded text, the title, the menu values and the plot pane. */
  class AlignmentViewer {
    var seqtext: Option<string>
    var title: string
    var aligner: string
    var rowHeight: int
    var pane: Option<Plotters.Plot<Plotters.AlignmentTrack>>
    const filename: Option<string>

    /** The menu holds one of its options. */
    predicate Valid()
      reads this
    {
      aligner in ALIGNER_OPTIONS
    }

    /** `update_title(filename)`: `'%s' % None` is "None". */
    static function TitleFor(name: Option<string>): (t: string)
      ensures name.Some? ==> t == "### Sequence aligner: " + name.value
      ensures name.None? ==> t == "### Sequence aligner: None"
    {
      "### Sequence aligner: " + if name.Some? then name.value else "None"
    }

    constructor(filename: Option<string>)
      ensures seqtext.None? && title == TitleFor(filename) && aligner == "muscle" && rowHeight == 10
      ensures pane.None? && this.filename == filename
      ensures Valid()
    {
      seqtext, title, aligner, rowHeight, pane := None, TitleFor(filename), "muscle", 10, None;
      this.filename := filename;
    }

    /** `update_file`: an upload replaces the text to align and names the title after the file. */
    method Upload(text: string, name: string)
      modifies this
      ensures seqtext == Some(text) && title == TitleFor(Some(name))
      ensures aligner == old(aligner) && rowHeight == old(rowHeight) && pane == old(pane)
    {
      seqtext := Some(text);
      title := name;
      title := TitleFor(Some(name));
    }

    /**
     * A choice from the aligner menu, as the code offers it or as
     * corrected; only the misspelled "maaft" leaves the viewer without a
     * branch to run.
     */
    method SelectAligner(choice: string)
      requires choice in ALIGNER_OPTIONS_AS_WRITTEN || choice in ALIGNER_OPTIONS
      modifies this
      ensures aligner == choice
      ensures Valid() <==> choice != "maaft"
      ensures seqtext == old(seqtext) && title == old(title) && rowHeight == old(rowHeight) && pane == old(pane)
    {
      aligner := choice;
    }

    /**
     * `align`: the uploaded text if any, else the file, else nothing to do;
     * then the chosen aligner's alignment is plotted, or a placeholder says
     * the aligner is not installed. A menu value with no branch raises
     * UnboundLocalError; plotting errors propagate.
     */
    method Align(run: RunAligner, ramp: seq<string>) returns (o: Outcome)
      requires |ramp| == 20
      requires forall a, s :: run(a, s).Some? ==> Conservation.Aligned(run(a, s).value)
      modifies this
      ensures seqtext == old(seqtext) && title == old(title) && aligner == old(aligner) && rowHeight == old(rowHeight)
      ensures seqtext.None? && filename.None? ==> o == Pass && pane == old(pane)
      ensures (seqtext.Some? || filename.Some?) && AlignerBranch(aligner).None? ==>
        o == Fail(UnboundLocalError) && pane == old(pane)
      ensures (seqtext.Some? || filename.Some?) && AlignerBranch(aligner).Some? ==>
        var source := if seqtext.Some? then Uploaded(seqtext.value) else FastaFile(filename.value);
        var aln := run(AlignerBranch(aligner).value, source);
        && (aln.None? ==> o == Pass && pane == Some(Plotters.Placeholder(aligner + " not installed?")))
        && (aln.Some? && o.Fail? ==> pane == old(pane) && Plotters.AlignmentPlotted(aln.value, rowHeight, ramp, Err(o.error)))
        && (aln.Some? && o.Pass? ==> pane.Some? && Plotters.AlignmentPlotted(aln.value, rowHeight, ramp, Ok(pane.value)))
      ensures Valid() ==> o != Fail(UnboundLocalError)
    {
      var source: SequenceSource;
      if seqtext.Some? {
        source := Uploaded(seqtext.value);
      } else if filename.Some? {
        source := FastaFile(filename.value);
      } else {
        return Pass;
      }
      var branch := AlignerBranch(aligner);
      if branch.None? {
        OfferedOptionsAllDispatch();
        return Fail(UnboundLocalError);
      }
      var aln := run(branch.value, source);
      if aln.None? {
        pane := Some(Plotters.Placeholder(aligner + " not installed?"));
        return Pass;
      }
      var p := Plotters.PlotSequenceAlignment(aln.value, rowHeight, ramp);
      if p.Err? {
        return Fail(p.error);
      }
      pane := Some(p.value);
      return Pass;
    }
  }
}
