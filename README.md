# pybioviz track logic and the Altair example-notebook splitter, in Dafny

This project models the logic of the `pybioviz` genome-track viewer and proves properties of it. It leaves out the figures. It covers three parts:

- the track data transforms of `utils.py`: alignment conservation, symbol colours, the feature table, coverage windows, read stacking and the VCF quality filter;
- the derived columns each plotter of `plotters.py` computes before handing a table to Bokeh;
- the viewport state of the dashboards in `dashboards.py`: the genome features viewer, the BAM viewer and the sequence alignment viewer.

Beside them it models the docstring/code splitter, titles and index listing of the Altair example-notebook generator (`tools/create_example_notebooks.py`).

File readers (pysam, pyfaidx, Biopython, BCBio, PyVCF) and external aligners are given to the model as values. These are records, functions from a window to records, or a function from an aligner and a source to an optional alignment. A Python exception is an `Err` or `Fail` value of `Wrappers.PyException`. Python's `int()`, `str()`, `split`, `title`, `in` and string ordering are modelled in `PyText`.

Modules, one file each:

- `Wrappers`: Option, Result, Outcome, and the exceptions.
- `PyText`: the string built-ins.
- `Seqs`: list selection, counting, flattening, repetition and `range`.
- `Conservation`: `get_cons`.
- `Palette`: `get_sequence_colors`, `random_colors`.
- `FeatureTable`: `features_to_dataframe`, `check_tags`, `get_cds`.
- `Coverage`: `get_coverage`.
- `ReadStacking`: `get_bam_aln`.
- `Variants`: the `vcf_to_dataframe` filter.
- `Plotters`: the tracks.
- `Dashboards`: three classes whose fields are the widget values.
- `ExampleNotebooks`: the notebook generator.

The dashboards follow the code, including these paths where it fails:

- In the genome features viewer, `pan` and `search_features` call `update` with a button or search event. That event's name matches neither branch, so `update` raises UnboundLocalError. This happens after the slider watcher has already moved the view, and the model returns `Fail(UnboundLocalError)` after the state change.
- Writing a watched widget value runs its watcher only when the value changed, as `param.watch` does by default.

Three failing paths of the BAM viewer's `update` are taken in corrected form, each listed under "## Left out": the coverage TypeError of the float window end, the NameError of `plot_bam_alignment`'s placeholder when the padded window holds no read, and `update_ref`'s NameError with a reference file.

Three edge cases of the track transforms, as the code has them:

- `get_cons` raises ValueError for a column made only of gaps.
- `get_coverage` returns the kept rows plus the zero fill. Rows can be missing inside the window, and the last kept position appears twice.
- `get_bam_aln` uses max(1, (end - start) / 150) as the bin count, without rounding.

## Model

| member | source | states |
|---|---|---|
| Conservation.Column | 08_bioinfo_python/pybioviz-master/pybioviz/utils.py:158 | `aln[:, i]` has one symbol per sequence, the i-th of each row, top to bottom |
| Conservation.ColumnCounter | 08_bioinfo_python/pybioviz-master/pybioviz/utils.py:159 | `Counter(a)` maps exactly the symbols of the column, each to its number of occurrences |
| Conservation.MaxCount | 08_bioinfo_python/pybioviz-master/pybioviz/utils.py:161 | `max(res.values())` fails exactly on an empty counter; otherwise it is a count in the counter and no count exceeds it |
| Conservation.ColumnValue | 08_bioinfo_python/pybioviz-master/pybioviz/utils.py:158-161 | one loop iteration: no value exactly when the column has no non-gap symbol, otherwise the column's conservation value (top non-gap count over the column height) |
| Conservation.GetCons | 08_bioinfo_python/pybioviz-master/pybioviz/utils.py:151-163 | succeeds iff every column has a non-gap symbol, else ValueError; one value per column, in column order, each the column's conservation value |
| Conservation.CounterMax | 08_bioinfo_python/pybioviz-master/pybioviz/utils.py:159-161 | the gap-less counter is empty iff the column is all gaps; its maximum over the height is the conservation value |
| Conservation.ConservationBounds | 08_bioinfo_python/pybioviz-master/pybioviz/utils.py:156-161 | every conservation value lies in [1/S, 1] for S sequences, gapped sequences counting in S |
| Conservation.ConservationUnique | 08_bioinfo_python/pybioviz-master/pybioviz/utils.py:159-161 | a column has at most one conservation value, whichever symbol wins a tie |
| Conservation.ConservationExists | 08_bioinfo_python/pybioviz-master/pybioviz/utils.py:159-161 | a column has a conservation value exactly when it holds a non-gap symbol |
| Palette.Zip | 08_bioinfo_python/pybioviz-master/pybioviz/utils.py:141 | `dict(zip(keys, vals))` has exactly the keys, and each key's value is the one paired with its last occurrence |
| Palette.AA1Distinct | 08_bioinfo_python/pybioviz-master/pybioviz/utils.py:132-134 | no key of `aa1 + ['-']` recurs |
| Palette.AminoPalette | 08_bioinfo_python/pybioviz-master/pybioviz/utils.py:132-141 | the amino-acid palette maps exactly the 20 letters and '-': the k-th letter to the k-th colormap sample, '-' to white |
| Palette.ColorEach | 08_bioinfo_python/pybioviz-master/pybioviz/utils.py:146 | one colour per symbol, the palette's colour of that symbol |
| Palette.SequenceColors | 08_bioinfo_python/pybioviz-master/pybioviz/utils.py:143-149 | one colour per symbol of the flattened sequences; the only error is KeyError |
| Palette.NucleotideKeysInAmino | 08_bioinfo_python/pybioviz-master/pybioviz/utils.py:134-144 | every nucleotide key (A, T, G, C, -) is an amino-acid palette key |
| Palette.SequenceColorsOkIff | 08_bioinfo_python/pybioviz-master/pybioviz/utils.py:145-148 | colouring fails exactly when some symbol is not an amino-acid palette key |
| Palette.SequenceColorsAllOrNothing | 08_bioinfo_python/pybioviz-master/pybioviz/utils.py:145-148 | all symbols are coloured from the nucleotide palette when all are nucleotides, otherwise all from the amino-acid palette |
| Palette.GapIsWhite | 08_bioinfo_python/pybioviz-master/pybioviz/utils.py:139-144 | a gap is white whichever palette is chosen |
| Palette.RandomColors | 08_bioinfo_python/pybioviz-master/pybioviz/utils.py:121-127 | `size` colours, each '#' and six upper-case hex digits |
| FeatureTable.CellFor | 08_bioinfo_python/pybioviz-master/pybioviz/utils.py:201-209 | a qualifier's first element overrides; an empty qualifier list raises IndexError; otherwise type, start, end and strand come from the feature and location, other keys are null |
| FeatureTable.RawRow | 08_bioinfo_python/pybioviz-master/pybioviz/utils.py:197-210 | a feature's row fails with IndexError exactly when one of its `featurekeys` qualifiers is an empty list |
| FeatureTable.RawRowCells | 08_bioinfo_python/pybioviz-master/pybioviz/utils.py:204-209 | each `featurekeys` column of the row holds the cell `CellFor` finds; length and order are null |
| FeatureTable.RawRowFromLocation | 08_bioinfo_python/pybioviz-master/pybioviz/utils.py:201-209 | without a qualifier of the same name, start, end and strand come from the location and type from the feature |
| FeatureTable.CollectRows | 08_bioinfo_python/pybioviz-master/pybioviz/utils.py:195-210 | IndexError iff some feature is malformed; otherwise one row per feature, in input order, each that feature's row |
| FeatureTable.TextLength | 08_bioinfo_python/pybioviz-master/pybioviz/utils.py:213 | `len(str(x))`: 3 for NaN ("nan"), the text length for text |
| FeatureTable.WithLength | 08_bioinfo_python/pybioviz-master/pybioviz/utils.py:213 | every row gets the printed length of its translation; nothing else changes |
| FeatureTable.ReplaceTag | 08_bioinfo_python/pybioviz-master/pybioviz/utils.py:179-183 | a null locus_tag takes the gene, a present one is kept, other columns unchanged |
| FeatureTable.CheckTags | 08_bioinfo_python/pybioviz-master/pybioviz/utils.py:174-185 | `replace` applied to every row, in order |
| FeatureTable.FillGene | 08_bioinfo_python/pybioviz-master/pybioviz/utils.py:216 | a null gene takes the locus_tag, a present one is kept |
| FeatureTable.GetCds | 08_bioinfo_python/pybioviz-master/pybioviz/utils.py:165-172 | keeps exactly the CDS rows with a translation |
| FeatureTable.Numbered | 08_bioinfo_python/pybioviz-master/pybioviz/utils.py:219 | the order column numbers the rows 1..n |
| FeatureTable.Dataframe | 08_bioinfo_python/pybioviz-master/pybioviz/utils.py:187-224 | the table fails exactly when some feature is malformed |
| FeatureTable.FeaturesToDataframe | 08_bioinfo_python/pybioviz-master/pybioviz/utils.py:187-224 | the loop-built table equals the table function `Dataframe` |
| FeatureTable.FrameRows | 08_bioinfo_python/pybioviz-master/pybioviz/utils.py:212-216 | without `cds`: one row per feature in order; every column but locus_tag, gene and length is the feature's own; length is the translation's printed length |
| FeatureTable.TagsComplete | 08_bioinfo_python/pybioviz-master/pybioviz/utils.py:179-216 | afterwards locus_tag is null iff gene is null iff both were null; present values are kept; the same holds in the CDS table |
| FeatureTable.CdsRows | 08_bioinfo_python/pybioviz-master/pybioviz/utils.py:217-219 | with `cds`: only translated CDS rows, numbered 1..n, and every translated CDS row of the full table appears with its number |
| Coverage.Kept | 08_bioinfo_python/pybioviz-master/pybioviz/utils.py:254 | exactly the samples with start <= pos <= end |
| Coverage.MaxPos | 08_bioinfo_python/pybioviz-master/pybioviz/utils.py:256 | `df.pos.max()`: a position of the table and no position exceeds it |
| Coverage.CoverageRows | 08_bioinfo_python/pybioviz-master/pybioviz/utils.py:252-259 | the coverage rows are the rows of the window in pileup order, then, when they stop at m < end, rows m .. end-1 of depth 0 (m twice, end never); every row lies in the window |
| Coverage.GetCoverage | 08_bioinfo_python/pybioviz-master/pybioviz/utils.py:245-260 | None iff there is no file; otherwise exactly `CoverageOf` of the pileup read over the window padded by 200 on each side |
| Coverage.GetCoverageFloatEnd | 08_bioinfo_python/pybioviz-master/pybioviz/utils.py:254-257 | with a float end, TypeError exactly when some sample is kept and all kept samples lie below the end |
| Coverage.FloatEndCounterexample | 08_bioinfo_python/pybioviz-master/pybioviz/dashboards.py:297-301 | the BAM viewer's first window (500, 1000.0) over a pileup ending at 900 raises TypeError |
| Coverage.IntegerEndFills | 08_bioinfo_python/pybioviz-master/pybioviz/utils.py:252-259 | the window 500 .. 1000 over a pileup ending at 900 gives 101 rows: the sample, then zeros from 900 to 999 |
| ReadStacking.ClampStart | 08_bioinfo_python/pybioviz-master/pybioviz/utils.py:285-286 | a start below 1 becomes 0, any other is kept |
| ReadStacking.Bins | 08_bioinfo_python/pybioviz-master/pybioviz/utils.py:301-303 | the bin count is at least 1 and equals (end - start) / 150 when that is at least 1 |
| ReadStacking.Dedup | 08_bioinfo_python/pybioviz-master/pybioviz/utils.py:299 | `drop_duplicates` keeps at most as many reads as it is given |
| ReadStacking.DedupSpec | 08_bioinfo_python/pybioviz-master/pybioviz/utils.py:299 | the kept reads have exactly the (start, end) pairs of the input, each pair once, and each kept read is the first read of its pair |
| ReadStacking.DedupStep | 08_bioinfo_python/pybioviz-master/pybioviz/utils.py:299 | one more read extends the deduplicated list exactly when its pair is new |
| ReadStacking.CountKeys | 08_bioinfo_python/pybioviz-master/pybioviz/utils.py:298 | the per-pair counts: exactly the pairs present, each with its number of reads |
| ReadStacking.Grouping | 08_bioinfo_python/pybioviz-master/pybioviz/utils.py:298-299 | each kept read with the number of reads sharing its pair |
| ReadStacking.GroupReads | 08_bioinfo_python/pybioviz-master/pybioviz/utils.py:297-299 | `group=True`: the first read of each pair, in read order, with the pair's count |
| ReadStacking.StackRows | 08_bioinfo_python/pybioviz-master/pybioviz/utils.py:300-305 | each row's y is the number of rows of its bin up to and including it |
| ReadStacking.StackedWithinBin | 08_bioinfo_python/pybioviz-master/pybioviz/utils.py:305 | within a bin the rows are stacked from 1 upwards, a later read strictly higher |
| ReadStacking.Labels | 08_bioinfo_python/pybioviz-master/pybioviz/utils.py:304 | one bin label per start |
| ReadStacking.GetBamAln | 08_bioinfo_python/pybioviz-master/pybioviz/utils.py:277-306 | None iff no file or no chromosome; otherwise the reads of the clamped window (deduplicated with counts when grouping), in order, each at its rank in its start bin |
| Variants.FilterByQuality | 08_bioinfo_python/pybioviz-master/pybioviz/utils.py:358 | exactly the records of quality at least the threshold, in file order; a record without quality is dropped |
| Variants.FilterByQualityMonotone | 08_bioinfo_python/pybioviz-master/pybioviz/utils.py:347-358 | filtering at a higher threshold after a lower one is filtering at the higher one, so the filter is idempotent |
| Variants.FilterByQualityAppend | 08_bioinfo_python/pybioviz-master/pybioviz/utils.py:358 | filtering a file in two parts keeps each part's records in order |
| Seqs.FlattenAt | 08_bioinfo_python/pybioviz-master/pybioviz/utils.py:143 | flattening equal-width rows lays them out row-major: position k holds row k / w, column k % w |
| Seqs.RepeatAt | 08_bioinfo_python/pybioviz-master/pybioviz/plotters.py:310 | `s * n` cycles through s: position i holds s[i mod \|s\|] |
| Plotters.DefaultEnd | 08_bioinfo_python/pybioviz-master/pybioviz/plotters.py:313-316 | no rows gives no end (NaN); otherwise the end is at most 10000, and unless capped it is some row's end + 100 and reaches 100 past every end |
| Plotters.Shown | 08_bioinfo_python/pybioviz-master/pybioviz/plotters.py:289-290 | no region or source row is drawn |
| Plotters.Arrow | 08_bioinfo_python/pybioviz-master/pybioviz/plotters.py:296-303 | strand 1: from the end, 50 to the right; any other strand: from the start, 50 to the left |
| Plotters.Lanes | 08_bioinfo_python/pybioviz-master/pybioviz/plotters.py:310-311 | row i gets lane i mod rows; ValueError iff there are rows but no lane |
| Plotters.LanesCycle | 08_bioinfo_python/pybioviz-master/pybioviz/plotters.py:310-311 | the dealt list is too short iff there are rows and no lane, and otherwise cycles through the lanes |
| Plotters.FeatureGlyphOf | 08_bioinfo_python/pybioviz-master/pybioviz/plotters.py:291-303 | length = end - start, x is the midpoint, the arrow as `Arrow`, the given lane |
| Plotters.FeatureGlyphs | 08_bioinfo_python/pybioviz-master/pybioviz/plotters.py:291-311 | the i-th shown row's glyph in lane i mod rows |
| Plotters.PlotFeatures | 08_bioinfo_python/pybioviz-master/pybioviz/plotters.py:285-345 | IndexError for a malformed feature, TypeError for a non-numeric start or end, ValueError for rows with no lane; otherwise the glyphs of the shown rows in order, the view from start to the given or default end, labels iff the view is shorter than 20000 |
| Plotters.VariantColor | 08_bioinfo_python/pybioviz-master/pybioviz/plotters.py:432-438 | green iff snp, red iff indel, blue for any other type |
| Plotters.PlotVcf | 08_bioinfo_python/pybioviz-master/pybioviz/plotters.py:430-449 | one glyph per record of quality >= 30, in order, coloured by type, at its midpoint, in lane 0; view end as for features |
| Plotters.VcfDrawsOnlyGoodRecords | 08_bioinfo_python/pybioviz-master/pybioviz/plotters.py:430 | every drawn variant is a record of the file that passed the quality filter |
| Plotters.PaddedWindow | 08_bioinfo_python/pybioviz-master/pybioviz/plotters.py:378-380 | the fetch window has the view's centre, twice its width, and covers it |
| Plotters.SpanRoundTrip | 08_bioinfo_python/pybioviz-master/pybioviz/plotters.py:392 | the span "start:end" splits into two parts that parse back to start and end |
| Plotters.ReadGlyphOf | 08_bioinfo_python/pybioviz-master/pybioviz/plotters.py:389-392 | x = start + length / 2; red when mapq is 0, otherwise the fill colour; the span of the read |
| Plotters.ReadTrackOf | 08_bioinfo_python/pybioviz-master/pybioviz/plotters.py:381-395 | placeholder "no bam file or bam not indexed" for no table, "no data in range" for an empty one, otherwise one glyph per row over the view |
| Plotters.PlotBamAlignment | 08_bioinfo_python/pybioviz-master/pybioviz/plotters.py:363-395 | "no bam file" without a file; otherwise the ungrouped reads of the padded, clamped window, a placeholder iff there are none; a drawn track holds one glyph per fetched read, in fetch order, each `ReadGlyphOf` its row, its rows stacked into the window's bins, over the view start .. end |
| Plotters.AsWritten | 08_bioinfo_python/pybioviz-master/pybioviz/plotters.py:141 | the three placeholders built through the unbound name `plotters` raise NameError; every other plot is returned |
| Plotters.ReadTrackPlaceholderCounterexample | 08_bioinfo_python/pybioviz-master/pybioviz/plotters.py:381-387 | a missing index or an empty window raises NameError as written |
| Plotters.SequenceHeight | 08_bioinfo_python/pybioviz-master/pybioviz/plotters.py:158-164 | kept without an x axis; with one, 70 when tools are shown, else raised to 50 when below 40 |
| Plotters.PlotSequence | 08_bioinfo_python/pybioviz-master/pybioviz/plotters.py:131-167 | placeholder for no sequence; KeyError iff colouring fails; otherwise x = 1..N, the symbols and their colours, letters iff N < 200, the view 0..N |
| Plotters.SequencePlaceholderCounterexample | 08_bioinfo_python/pybioviz-master/pybioviz/plotters.py:140-141 | an empty sequence raises NameError as written |
| Plotters.Grid | 08_bioinfo_python/pybioviz-master/pybioviz/plotters.py:190-195 | cell k of the N by S grid has x = k mod N + 1 and y = k div N |
| Plotters.ViewLength | 08_bioinfo_python/pybioviz-master/pybioviz/plotters.py:203-206 | the opening view ends at min(100, N) |
| Plotters.PlotSequenceAlignment | 08_bioinfo_python/pybioviz-master/pybioviz/plotters.py:169-238 | placeholder for fewer than two sequences; KeyError iff colouring fails; then ValueError for empty sequences (`min` of no conservation values) or an all-gap column; otherwise a drawn plot with the flattened text, its colours, one conservation value per column, the grid, the opening view and the plot height |
| Plotters.GridMatchesText | 08_bioinfo_python/pybioviz-master/pybioviz/plotters.py:183-195 | the symbol drawn in cell k is column x - 1 of sequence y |
| Plotters.PlotCoverage | 08_bioinfo_python/pybioviz-master/pybioviz/plotters.py:105-110 | an empty placeholder iff there is no data; otherwise the x range spans exactly the lowest to highest position and the y range reaches exactly the greatest depth |
| PyText.ParseIntOfIntToString | 08_bioinfo_python/pybioviz-master/pybioviz/dashboards.py:173-177 | `int(str(i)) == i` |
| PyText.JoinOfSplit | 08_bioinfo_python/pybioviz-master/pybioviz/dashboards.py:175 | joining what `split` produced gives the text back |
| PyText.SplitOfJoin | 06_data_vis_python/vega-altair/altair_notebooks-master/tools/create_example_notebooks.py:97 | splitting a join of separator-free parts gives the parts back |
| PyText.TitleChars | 06_data_vis_python/vega-altair/altair_notebooks-master/tools/create_example_notebooks.py:59 | `title()` keeps the length; a cased letter is upper-cased at the start of a word and lower-cased inside one |
| PyText.TitleIdempotent | 06_data_vis_python/vega-altair/altair_notebooks-master/tools/create_example_notebooks.py:59 | title-casing a title changes nothing |
| PyText.StrLessTotal | 06_data_vis_python/vega-altair/altair_notebooks-master/tools/create_example_notebooks.py:98 | two different strings are ordered one way or the other |
| Dashboards.Trunc | 08_bioinfo_python/pybioviz-master/pybioviz/dashboards.py:172 | `int()` of a float truncates toward zero |
| Dashboards.ZoomedEnd | 08_bioinfo_python/pybioviz-master/pybioviz/dashboards.py:169-172 | the features view is 100 positions per zoom step wide |
| Dashboards.HalfZoomEnd | 08_bioinfo_python/pybioviz-master/pybioviz/dashboards.py:297-300 | for a start and zoom >= 0, `int(start + xzoom / 2)` is start + xzoom div 2 |
| Dashboards.PanStep | 08_bioinfo_python/pybioviz-master/pybioviz/dashboards.py:156-157 | a view 100 × zoom wide pans by 10 × zoom |
| Dashboards.ParseLocation | 08_bioinfo_python/pybioviz-master/pybioviz/dashboards.py:175-177 | ok iff the first two ':' parts parse as ints; IndexError when the first parses and there is no second, ValueError otherwise |
| Dashboards.LocationRoundTrip | 08_bioinfo_python/pybioviz-master/pybioviz/dashboards.py:173-177 | the text the start/zoom path writes parses back to the same view |
| Dashboards.LocationWithoutColon | 08_bioinfo_python/pybioviz-master/pybioviz/dashboards.py:175-177 | a text without ':' raises IndexError if it is a number, ValueError otherwise |
| Dashboards.FirstMatchSpec | 08_bioinfo_python/pybioviz-master/pybioviz/dashboards.py:147-148 | the first row, in table order, whose gene (missing gene = '') contains the term, with no earlier row matching; none iff no row does |
| Dashboards.CellToInt | 08_bioinfo_python/pybioviz-master/pybioviz/dashboards.py:150 | `int()` of a cell: the number, or a text's parsed value; ValueError for NaN or non-numeric text |
| Dashboards.SearchStart | 08_bioinfo_python/pybioviz-master/pybioviz/dashboards.py:263-272 | TypeError when there is no feature file to read; IndexError for a malformed feature or when no gene contains the term; otherwise `int()` of the first matching row's start |
| Dashboards.FeaturesViewer.constructor | 08_bioinfo_python/pybioviz-master/pybioviz/dashboards.py:123-200 | slider 1, zoom 100 (in the slider's range 1..500), empty location and search texts, feature plot range 0..10000 |
| Dashboards.FeaturesViewer.FollowingForward | 08_bioinfo_python/pybioviz-master/pybioviz/dashboards.py:126-173 | with the zoom in its range, the view the start/zoom path shows runs forwards and is 100 to 50000 wide |
| Dashboards.FeaturesViewer.Open | 08_bioinfo_python/pybioviz-master/pybioviz/dashboards.py:114-200 | no file: no viewer; IndexError for a malformed feature; TypeError iff a drawn feature lacks a numeric start or end; otherwise the initial viewer |
| Dashboards.FeaturesViewer.UpdateFromSlider | 08_bioinfo_python/pybioviz-master/pybioviz/dashboards.py:166-183 | a start or zoom event: the view runs from the slider for 100 × zoom and the location text shows it; slider and zoom unchanged |
| Dashboards.FeaturesViewer.LocationWatcher | 08_bioinfo_python/pybioviz-master/pybioviz/dashboards.py:174-178 | the location watcher run by the start/zoom path re-shows the same view |
| Dashboards.FeaturesViewer.UpdateFromLocation | 08_bioinfo_python/pybioviz-master/pybioviz/dashboards.py:174-183 | a malformed text raises and changes nothing; otherwise the typed view is shown as typed and the slider moves to its start |
| Dashboards.FeaturesViewer.ShowView | 08_bioinfo_python/pybioviz-master/pybioviz/dashboards.py:178-183 | the slider moves to the view's start (re-writing the text when it moved) and the view is the parsed one |
| Dashboards.FeaturesViewer.MoveSlider | 08_bioinfo_python/pybioviz-master/pybioviz/dashboards.py:189 | the slider watcher fires only on change, and then the view follows the slider |
| Dashboards.FeaturesViewer.SetZoom | 08_bioinfo_python/pybioviz-master/pybioviz/dashboards.py:191 | a changed zoom re-shows the view at least 100 wide |
| Dashboards.FeaturesViewer.EnterLocation | 08_bioinfo_python/pybioviz-master/pybioviz/dashboards.py:193 | an unchanged text does nothing; a changed one is parsed and applied, or its error returned with the view kept |
| Dashboards.FeaturesViewer.Pan | 08_bioinfo_python/pybioviz-master/pybioviz/dashboards.py:154-164 | the slider moves by int(width / 10), left for '<' and right otherwise (10 × zoom on a followed view); then UnboundLocalError |
| Dashboards.FeaturesViewer.Search | 08_bioinfo_python/pybioviz-master/pybioviz/dashboards.py:141-192 | an unchanged search text does nothing; a changed one is kept and searched: the slider moves to the first matching feature's start - 100, the zoom stays and the view follows, then UnboundLocalError; IndexError for a malformed feature or no match, ValueError for a non-numeric start, each changing only the search text |
| Dashboards.LastIndexOf | 08_bioinfo_python/pybioviz-master/pybioviz/dashboards.py:254 | the last occurrence of a character, none iff absent |
| Dashboards.Ext | 08_bioinfo_python/pybioviz-master/pybioviz/dashboards.py:254 | `splitext`'s extension is empty or a suffix of the path starting with its only '.' and holding no '/' |
| Dashboards.ExtOfName | 08_bioinfo_python/pybioviz-master/pybioviz/dashboards.py:254 | a plain file name's extension is the one it ends in |
| Dashboards.ReaderFor | 08_bioinfo_python/pybioviz-master/pybioviz/dashboards.py:249-258 | no file: no features; .gff/.gff3: GFF reader iff; .gb/.gbff: GenBank reader iff; any other extension: UnboundLocalError iff |
| Dashboards.ReaderForName | 08_bioinfo_python/pybioviz-master/pybioviz/dashboards.py:254-258 | the reader chosen for a plain file name depends only on its extension |
| Dashboards.BamViewer.constructor | 08_bioinfo_python/pybioviz-master/pybioviz/dashboards.py:216-320 | slider 500, x zoom 1000, y zoom 20, empty search text, then the initial trigger shows that view: label, view and the coverage of the window |
| Dashboards.BamViewer.Open | 08_bioinfo_python/pybioviz-master/pybioviz/dashboards.py:208-320 | UnboundLocalError for a feature file of another extension than .gff, .gff3, .gb, .gbff; with a feature file, the features of its reader are plotted: IndexError for a malformed feature and TypeError iff a drawn feature lacks a numeric start or end; otherwise the initial viewer, which keeps the file and its GFF-read features for the search |
| Dashboards.BamViewer.Update | 08_bioinfo_python/pybioviz-master/pybioviz/dashboards.py:291-309 | the label "chrom:start-int(end)" with end = start + xzoom / 2; the view from the slider to that end; the coverage is `get_coverage` of the window cut at int(end) (None iff no file); slider and zooms unchanged |
| Dashboards.BamViewer.LabelEnd | 08_bioinfo_python/pybioviz-master/pybioviz/dashboards.py:297-300 | for a start and zoom >= 0 the label ends at start + xzoom div 2 |
| Dashboards.BamViewer.MoveSlider | 08_bioinfo_python/pybioviz-master/pybioviz/dashboards.py:311 | the slider moves and the view still shows it |
| Dashboards.BamViewer.SetXZoom | 08_bioinfo_python/pybioviz-master/pybioviz/dashboards.py:312 | the view is half the zoom wide |
| Dashboards.BamViewer.PanRight | 08_bioinfo_python/pybioviz-master/pybioviz/dashboards.py:232-239 | the slider moves 100 to the right and the view follows |
| Dashboards.BamViewer.PanLeft | 08_bioinfo_python/pybioviz-master/pybioviz/dashboards.py:241-247 | the slider moves 100 to the left, unless that goes below 1, which changes nothing |
| Dashboards.BamViewer.Search | 08_bioinfo_python/pybioviz-master/pybioviz/dashboards.py:263-316 | an unchanged search text does nothing; a changed one is kept and searched in what the GFF reader makes of the feature file: TypeError without a file, IndexError for a malformed feature or no match, ValueError for a non-numeric start, each changing only the search text; otherwise the slider moves to the match's start (no margin), the zooms stay and the view follows |
| Dashboards.AlignerBranch | 08_bioinfo_python/pybioviz-master/pybioviz/dashboards.py:91-96 | muscle, clustal and mafft each select their branch iff named exactly |
| Dashboards.MisspelledOptionCounterexample | 08_bioinfo_python/pybioviz-master/pybioviz/dashboards.py:63 | the offered option "maaft" selects no branch |
| Dashboards.OfferedOptionsAllDispatch | 08_bioinfo_python/pybioviz-master/pybioviz/dashboards.py:63 | every option of the corrected menu selects a different aligner |
| Dashboards.AlignmentViewer.TitleFor | 08_bioinfo_python/pybioviz-master/pybioviz/dashboards.py:69-70 | the title names the file, "None" when there is none |
| Dashboards.AlignmentViewer.constructor | 08_bioinfo_python/pybioviz-master/pybioviz/dashboards.py:63-109 | no uploaded text, the title for the file, aligner muscle, row height 10 |
| Dashboards.AlignmentViewer.Upload | 08_bioinfo_python/pybioviz-master/pybioviz/dashboards.py:72-77 | the upload replaces the text and names the title after the file |
| Dashboards.AlignmentViewer.SelectAligner | 08_bioinfo_python/pybioviz-master/pybioviz/dashboards.py:63 | the menu holds the option chosen, from the menu as written or as corrected; the viewer can run its aligner iff it is not "maaft" |
| Dashboards.AlignmentViewer.Align | 08_bioinfo_python/pybioviz-master/pybioviz/dashboards.py:79-102 | uploaded text, else the file, else nothing; no branch: UnboundLocalError; no alignment: "… not installed?"; otherwise the pane and outcome are what `AlignmentPlotted` says of the alignment: KeyError iff colouring fails, else ValueError iff a column is all gaps, else Pass with the drawn alignment |
| ExampleNotebooks.SourceLines | 06_data_vis_python/vega-altair/altair_notebooks-master/tools/create_example_notebooks.py:83-86 | a code line, followed by the JSON-transformer line iff it starts with `import altair` |
| ExampleNotebooks.BlocksAppend | 06_data_vis_python/vega-altair/altair_notebooks-master/tools/create_example_notebooks.py:73-84 | reading a file in two parts: the second part is read with the delimiters of the first counted |
| ExampleNotebooks.ReadLine | 06_data_vis_python/vega-altair/altair_notebooks-master/tools/create_example_notebooks.py:73-84 | reading one line adds a delimiter, a docstring line (odd count) or a code line (count >= 2) |
| ExampleNotebooks.SplitExample | 06_data_vis_python/vega-altair/altair_notebooks-master/tools/create_example_notebooks.py:69-86 | the two-flag loop builds exactly the docstring and code blocks the delimiter count defines |
| ExampleNotebooks.NoDelimiterInBlocks | 06_data_vis_python/vega-altair/altair_notebooks-master/tools/create_example_notebooks.py:74-80 | no delimiter line reaches either block |
| ExampleNotebooks.PlainLinesBeforeDocstring | 06_data_vis_python/vega-altair/altair_notebooks-master/tools/create_example_notebooks.py:69-84 | lines before the first delimiter go to neither block |
| ExampleNotebooks.DocstringLines | 06_data_vis_python/vega-altair/altair_notebooks-master/tools/create_example_notebooks.py:74-82 | lines inside the first docstring go, in order, to the docstring block only |
| ExampleNotebooks.CodeAfterDocstring | 06_data_vis_python/vega-altair/altair_notebooks-master/tools/create_example_notebooks.py:77-84 | after the first docstring closes, every non-delimiter line reaches the code block: `source` is never cleared |
| ExampleNotebooks.DocstringSection | 06_data_vis_python/vega-altair/altair_notebooks-master/tools/create_example_notebooks.py:74-82 | a docstring between two delimiters goes to the docstring block only |
| ExampleNotebooks.SkipPreamble | 06_data_vis_python/vega-altair/altair_notebooks-master/tools/create_example_notebooks.py:69-84 | a preamble without delimiters leaves both blocks as they are |
| ExampleNotebooks.DocstringThenCode | 06_data_vis_python/vega-altair/altair_notebooks-master/tools/create_example_notebooks.py:74-84 | docstring then code: the docstring text, then what the code adds after two delimiters |
| ExampleNotebooks.ScriptLayout | 06_data_vis_python/vega-altair/altair_notebooks-master/tools/create_example_notebooks.py:69-86 | preamble, docstring, code: the preamble is dropped, the docstring is the markdown block and the code follows the closing delimiter |
| ExampleNotebooks.ReopenedDocstring | 06_data_vis_python/vega-altair/altair_notebooks-master/tools/create_example_notebooks.py:74-84 | after a third delimiter a line goes to both blocks |
| ExampleNotebooks.EnableFollowsImport | 06_data_vis_python/vega-altair/altair_notebooks-master/tools/create_example_notebooks.py:83-86 | every `import altair` line of the code block is directly followed by the JSON-transformer line |
| ExampleNotebooks.NotebookTitle | 06_data_vis_python/vega-altair/altair_notebooks-master/tools/create_example_notebooks.py:59 | the title has the name's length |
| ExampleNotebooks.TitleSpaces | 06_data_vis_python/vega-altair/altair_notebooks-master/tools/create_example_notebooks.py:59 | the title has a space exactly where the name has '_' or ' ', and no '_' |
| ExampleNotebooks.IndexEntry | 06_data_vis_python/vega-altair/altair_notebooks-master/tools/create_example_notebooks.py:61 | the entry starts with "[" + title + "](" |
| ExampleNotebooks.NotebookIndex.constructor | 06_data_vis_python/vega-altair/altair_notebooks-master/tools/create_example_notebooks.py:120 | the index starts empty |
| ExampleNotebooks.NotebookIndex.Record | 06_data_vis_python/vega-altair/altair_notebooks-master/tools/create_example_notebooks.py:62-63 | the file's entry is set, overwriting an earlier one |
| ExampleNotebooks.CreateExampleNotebook | 06_data_vis_python/vega-altair/altair_notebooks-master/tools/create_example_notebooks.py:47-93 | output `name.ipynb`; the index records the entry when given; the cells are the joined docstring and code blocks |
| ExampleNotebooks.LeastOf | 06_data_vis_python/vega-altair/altair_notebooks-master/tools/create_example_notebooks.py:98 | every non-empty set of names has a least one |
| ExampleNotebooks.SortedKeys | 06_data_vis_python/vega-altair/altair_notebooks-master/tools/create_example_notebooks.py:98 | `sorted` lists every key exactly once |
| ExampleNotebooks.SortedKeysAscending | 06_data_vis_python/vega-altair/altair_notebooks-master/tools/create_example_notebooks.py:98 | the keys come out in strictly ascending order |
| ExampleNotebooks.ListingLines | 06_data_vis_python/vega-altair/altair_notebooks-master/tools/create_example_notebooks.py:97-98 | one line "- entry" per key, by ascending file name |
| ExampleNotebooks.IndexListingLines | 06_data_vis_python/vega-altair/altair_notebooks-master/tools/create_example_notebooks.py:97-98 | the listing splits back into one line per recorded file, in file-name order, when no entry holds a newline |

## Left out

- File and format readers: the BAM pileup and fetch, FASTA, GFF, GenBank and VCF reading are parameters of the model (`Pileup`, `Fetch`, records, features). `get_chrom` is the viewer's constant `chrom`.
- External aligners: muscle, clustalw and mafft are a parameter `RunAligner` that returns an alignment or None.
- Figures: Bokeh figure and glyph construction, hover tools, CustomJS callbacks, rect heights and offsets, and `y = coverage / 2` are not modelled. Only the data each track draws is.
- Colormap sampling: the 20 colormap samples of the amino-acid palette are the parameter `ramp`.
- Randomness: `random_colors`' draws are the parameter `draws`. Only the output format is stated.
- Bin edges: `pd.cut`'s edges are the parameter `BinOf`. Only the per-bin counter is proved.
- ReadStacking.Bins: the count is passed to `pd.cut` as the unrounded real. Whether pandas and numpy accept a non-integer bin count depends on their versions, and that is not modelled.
- Dashboards.FirstMatchSpec: `str.contains` treats the term as a regular expression. `FirstMatch` and this lemma match it as a plain substring.
- Dashboards.BamViewer.Update: it does not store the read track pane's data and placeholders, which `Plotters.PlotBamAlignment` computes. The feature plot's range is the viewer's shared range `viewStart` .. `viewEnd`.
- Dashboards.BamViewer.Update: it does not model `update_ref`, the reference pane, because that reads the FASTA file. As written, `update_ref` uses the name `Fasta`, which `dashboards.py` does not import, so with a reference file it raises NameError.
- Dashboards.BamViewer.Update: the coverage is computed with the integer end. The code passes the float end, which is the finding below.
- Dashboards.BamViewer.Update: it follows the corrected read-track plotter (`Plotters.ReadTrackOf`, the finding for plotters.py:382-387). As written, when the padded window holds no read, `plot_bam_alignment` raises NameError at dashboards.py:303, after the label and coverage are set and before the feature plot's range is. The model's Update then still shows the whole view. The initial trigger runs the same `update`, so as written `bam_viewer` itself raises for a first view with no read in 250..1250.
- Dashboards.BamViewer.Open: what the GFF and GenBank readers make of the feature file is given as two parameters. A named file is taken to exist: for a missing one both readers return None, which is not modelled.
- Dashboards.FeaturesViewer.Open: it does not model `int(df.end.max())` (line 139), which raises for an empty table without a reference file, nor the FASTA length with one.
- Dashboards.FeaturesViewer.Open: a named feature file is taken to exist, and `gff: None` means only that no file is given. For a missing file `gff_to_features` returns None, and `features_to_dataframe(None)` raises TypeError. That is not modelled.
- Dashboards.FeaturesViewer.Search: the file it reads again is taken to exist, as for `Open`. A missing file would raise TypeError on every search.
- Dashboards.FeaturesViewer.UpdateFromSlider: the reference sequence pane (`get_fasta_sequence`, `plot_sequence`) is not modelled, because it reads the FASTA file.
- Dashboards.FeaturesViewer.constructor: it does not model the slider's end (`int(df.end.max())` or the FASTA length) or the chromosome menu, because the slider's bounds are not enforced on programmatic values in the model.
- Dashboards.FeaturesViewer.SetZoom: it requires the zoom slider's range 1..500, the only values the widget delivers.
- Dashboards.BamViewer.SetXZoom: it requires the x zoom slider's range 50..8000. The y zoom slider only redraws, and redrawing is not modelled.
- Dashboards.AlignmentViewer.constructor: it does not run the initial `trigger('clicks')`, and the row-height slider's watcher is not a separate method. Both run `Align`, which reads the current row height.
- Dashboards.AlignmentViewer.Upload: the UTF-8 decoding of the uploaded bytes is not modelled. The text arrives decoded.
- The highlight menu, the colour-by menu, the chromosome menus, the translation checkbox and the debug panes have no behaviour to model.
- ExampleNotebooks.CreateExampleNotebook: it does not model reading the example file (its lines are given), the kernelspec lookup, notebook execution or writing.
- ExampleNotebooks: `write_all_examples`' directory cleanup is not modelled, nor the write of the index notebook. The listing text is modelled, by `IndexListing`.
- PyText: characters compare by code point. Only ASCII letters are cased by `title()`, and `int()` accepts only ASCII digits.
- Floating point: conservation values, midpoints and the BAM viewer's end are exact reals, not binary floats.

## Findings

| source | as written | input that shows it | evidently intended | confidence | as-written member | corrected member |
|---|---|---|---|---|---|---|
| 08_bioinfo_python/pybioviz-master/pybioviz/plotters.py:382-387 | `plot_bam_alignment` builds its placeholders through `plotters.plot_empty`, and the name `plotters` is not bound inside `plotters.py` | a BAM file whose padded window holds no read | the placeholder "no data in range" (or "no bam file or bam not indexed") | high, not executed | Plotters.ReadTrackPlaceholderCounterexample | Plotters.ReadTrackOf |
| 08_bioinfo_python/pybioviz-master/pybioviz/plotters.py:140-141 | `plot_sequence` builds its placeholder through `plotters.plot_empty` | the empty sequence `''` | the placeholder "no sequence" | high, not executed | Plotters.SequencePlaceholderCounterexample | Plotters.PlotSequence |
| 08_bioinfo_python/pybioviz-master/pybioviz/dashboards.py:63 | the aligner menu offers "maaft", while `align` tests for "mafft" and leaves `aln` unbound otherwise | choosing "maaft" and pressing align | the option "mafft", so that every option runs an aligner | high, not executed | Dashboards.MisspelledOptionCounterexample | Dashboards.OfferedOptionsAllDispatch |
| 08_bioinfo_python/pybioviz-master/pybioviz/dashboards.py:297-301 | the BAM viewer passes the float `start + xzoom / 2` to `get_coverage`, whose zero fill calls `range(max, end)` | the first view (slider 500, zoom 1000, end 1000.0) over a pileup whose last covered position is 900 | an integer window end, filled with zeros from 900 to 999 | medium, not executed | Coverage.FloatEndCounterexample | Dashboards.BamViewer.Update |
