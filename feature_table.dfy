/**
 * The feature table built from Biopython sequence features
 * (`features_to_dataframe`, `check_tags`, `get_cds`).
 *
 * A table row has a cell for each of the `featurekeys` columns, a missing
 * value being a null cell (pandas NaN), and the derived columns.
 */
module FeatureTable {
  import opened Wrappers
  import PyText
  import Seqs

  /** A table cell: pandas NaN, a text value or an integer. */
  datatype Cell = Null | Text(text: string) | Num(n: int)

  /**
   * A sequence feature as the file readers deliver it: its type, its
   * location (start, end, optional strand) and its qualifiers, each a list
   * of strings.
   */
  datatype Feature = Feature(kind: string, start: int, end: int, strand: Option<int>,
                             qualifiers: map<string, seq<string>>)

  /** The `featurekeys` columns. */
  datatype Key = Type | ProteinId | LocusTag | Gene | DbXref | Product | Note | Translation
               | Pseudo | Start | End | Strand

  /** `featurekeys`, in order. */
  const FEATURE_KEYS: seq<Key> :=
    [Type, ProteinId, LocusTag, Gene, DbXref, Product, Note, Translation, Pseudo, Start, End, Strand]

  /** The column name, which is also the qualifier name looked up. */
  function Name(key: Key): string {
    match key
    case Type => "type"
    case ProteinId => "protein_id"
    case LocusTag => "locus_tag"
    case Gene => "gene"
    case DbXref => "db_xref"
    case Product => "product"
    case Note => "note"
    case Translation => "translation"
    case Pseudo => "pseudo"
    case Start => "start"
    case End => "end"
    case Strand => "strand"
  }

  /**
   * A table row: the `featurekeys` columns, then the derived `length` and
   * `order` columns (null until they are computed).
   */
  datatype Row = Row(kind: Cell, proteinId: Cell, locusTag: Cell, gene: Cell, dbXref: Cell,
                     product: Cell, note: Cell, translation: Cell, pseudo: Cell,
                     start: Cell, end: Cell, strand: Cell, length: Cell, order: Cell)

  /** The cell of a `featurekeys` column. */
  function Get(row: Row, key: Key): Cell {
    match key
    case Type => row.kind
    case ProteinId => row.proteinId
    case LocusTag => row.locusTag
    case Gene => row.gene
    case DbXref => row.dbXref
    case Product => row.product
    case Note => row.note
    case Translation => row.translation
    case Pseudo => row.pseudo
    case Start => row.start
    case End => row.end
    case Strand => row.strand
  }

  /** A qualifier among `featurekeys` whose list of values is empty: taking its first element raises. */
  predicate Malformed(f: Feature) {
    exists key: Key :: Name(key) in f.qualifiers && f.qualifiers[Name(key)] == []
  }

  /**
   * The cell for `key` in the feature's row. The location fills start, end
   * and strand first; then `f.__dict__` updated with the qualifiers is
   * consulted: a qualifier (a list) contributes its first element and
   * overrides everything else, the plain attribute `type` contributes
   * itself, and any other key keeps what it had (null if nothing).
   */
  function CellFor(f: Feature, key: Key): (c: Result<Cell, PyException>)
    ensures c.Err? <==> Name(key) in f.qualifiers && f.qualifiers[Name(key)] == []
    ensures c.Err? ==> c.error == IndexError
    ensures Name(key) in f.qualifiers && c.Ok? ==> c.value == Text(f.qualifiers[Name(key)][0])
    ensures Name(key) !in f.qualifiers ==> c.Ok? && c.value == match key
      case Type => Text(f.kind)
      case Start => Num(f.start)
      case End => Num(f.end)
      case Strand => if f.strand.Some? then Num(f.strand.value) else Null
      case _ => Null
  {
    var name := Name(key);
    if name in f.qualifiers then
      var values := f.qualifiers[name];
      if values == [] then Err(IndexError) else Ok(Text(values[0]))
    else
      match key
      case Type => Ok(Text(f.kind))
      case Start => Ok(Num(f.start))
      case End => Ok(Num(f.end))
      case Strand => Ok(if f.strand.Some? then Num(f.strand.value) else Null)
      case _ => Ok(Null)
  }

  /** The cell `CellFor` finds, null where it raises. */
  function CellValue(f: Feature, key: Key): Cell {
    var c := CellFor(f, key);
    if c.Ok? then c.value else Null
  }

  /** The `featurekeys` cells of one feature, then null `length` and `order`. */
  function Cells(f: Feature): Row {
    Row(CellValue(f, Type), CellValue(f, ProteinId), CellValue(f, LocusTag), CellValue(f, Gene),
        CellValue(f, DbXref), CellValue(f, Product), CellValue(f, Note), CellValue(f, Translation),
        CellValue(f, Pseudo), CellValue(f, Start), CellValue(f, End), CellValue(f, Strand), Null, Null)
  }

  /** The row `d` of one feature, or the IndexError of an empty qualifier list. */
  function RawRow(f: Feature): (r: Result<Row, PyException>)
    ensures r.Err? <==> Malformed(f)
    ensures r.Err? ==> r.error == IndexError
  {
    if Malformed(f) then Err(IndexError) else Ok(Cells(f))
  }

  /** Each `featurekeys` cell of a well-formed feature's row is the one `CellFor` finds; the derived columns are null. */
  lemma {:induction false} RawRowCells(f: Feature)
    requires !Malformed(f)
    ensures forall key: Key :: CellFor(f, key) == Ok(Get(RawRow(f).value, key))
    ensures RawRow(f).value.length.Null? && RawRow(f).value.order.Null?
  {
    forall key: Key
      ensures CellFor(f, key) == Ok(Get(Cells(f), key))
    {
      assert CellFor(f, key).Ok?;
      assert Get(Cells(f), key) == CellValue(f, key) by { match key case _ => }
    }
  }

  /**
   * The location supplies start, end and strand unless a qualifier of the
   * same name overrides it, and the feature type supplies `type`.
   */
  lemma RawRowFromLocation(f: Feature)
    requires !Malformed(f)
    ensures "type" !in f.qualifiers ==> RawRow(f).value.kind == Text(f.kind)
    ensures "start" !in f.qualifiers ==> RawRow(f).value.start == Num(f.start)
    ensures "end" !in f.qualifiers ==> RawRow(f).value.end == Num(f.end)
    ensures "strand" !in f.qualifiers ==>
      RawRow(f).value.strand == if f.strand.Some? then Num(f.strand.value) else Null
  {
    RawRowCells(f);
    assert Name(Type) == "type" && Name(Start) == "start" && Name(End) == "end" && Name(Strand) == "strand";
  }

  /** Some feature has an empty qualifier list. */
  predicate AnyMalformed(features: seq<Feature>) {
    exists i :: 0 <= i < |features| && Malformed(features[i])
  }

  /**
   * The preprocessing loop of `features_to_dataframe`: one row per
   * feature, in input order, or IndexError if any feature is malformed.
   */
  method CollectRows(features: seq<Feature>) returns (r: Result<seq<Row>, PyException>)
    ensures r.Err? <==> AnyMalformed(features)
    ensures r.Err? ==> r.error == IndexError
    ensures r.Ok? ==> |r.value| == |features|
    ensures r.Ok? ==> forall i :: 0 <= i < |features| ==> RawRow(features[i]) == Ok(r.value[i])
  {
    var allfeat: seq<Row> := [];
    var item := 0;
    while item < |features|
      invariant 0 <= item <= |features|
      invariant |allfeat| == item
      invariant forall i :: 0 <= i < item ==> RawRow(features[i]) == Ok(allfeat[i])
    {
      var d := RawRow(features[item]);
      if d.Err? {
        assert Malformed(features[item]);
        return Err(IndexError);
      }
      allfeat := allfeat + [d.value];
      item := item + 1;
    }
    return Ok(allfeat);
  }

  /** `len(str(x))`: a null cell prints as "nan". */
  function TextLength(c: Cell): (n: nat)
    ensures c.Null? ==> n == 3
    ensures c.Text? ==> n == |c.text|
  {
    match c
    case Null => 3
    case Text(s) => |s|
    case Num(i) => |PyText.IntToString(i)|
  }

  /** `df['length'] = df.translation.astype('str').str.len()`. */
  function WithLength(rows: seq<Row>): (r: seq<Row>)
    ensures |r| == |rows|
    ensures forall i :: 0 <= i < |rows| ==> r[i] == rows[i].(length := Num(TextLength(rows[i].translation)))
  {
    seq(|rows|, i requires 0 <= i < |rows| => rows[i].(length := Num(TextLength(rows[i].translation))))
  }

  /** `check_tags`' `replace`: a null locus_tag takes the gene, a present one is kept. */
  function ReplaceTag(row: Row): (r: Row)
    ensures r.locusTag == if row.locusTag.Null? then row.gene else row.locusTag
    ensures r == row.(locusTag := r.locusTag)
  {
    row.(locusTag := if row.locusTag.Null? then row.gene else row.locusTag)
  }

  /** `check_tags` over the whole table. */
  function CheckTags(rows: seq<Row>): (r: seq<Row>)
    ensures |r| == |rows|
    ensures forall i :: 0 <= i < |rows| ==> r[i] == ReplaceTag(rows[i])
  {
    seq(|rows|, i requires 0 <= i < |rows| => ReplaceTag(rows[i]))
  }

  /** `df['gene'] = df.gene.fillna(df.locus_tag)`. */
  function FillGene(rows: seq<Row>): (r: seq<Row>)
    ensures |r| == |rows|
    ensures forall i :: 0 <= i < |rows| ==>
      r[i] == rows[i].(gene := if rows[i].gene.Null? then rows[i].locusTag else rows[i].gene)
  {
    seq(|rows|, i requires 0 <= i < |rows| =>
      rows[i].(gene := if rows[i].gene.Null? then rows[i].locusTag else rows[i].gene))
  }

  /** A coding feature with a translation. */
  predicate IsTranslatedCds(row: Row) {
    row.kind == Text("CDS") && !row.translation.Null?
  }

  /** `get_cds`: the CDS rows that have a translation, in table order. */
  function GetCds(rows: seq<Row>): (r: seq<Row>)
    ensures forall i :: 0 <= i < |r| ==> r[i] in rows && IsTranslatedCds(r[i])
    ensures forall i :: 0 <= i < |rows| && IsTranslatedCds(rows[i]) ==> rows[i] in r
  {
    Seqs.Filter(rows, IsTranslatedCds)
  }

  /** `df['order'] = range(1, len(df) + 1)`. */
  function Numbered(rows: seq<Row>): (r: seq<Row>)
    ensures |r| == |rows|
    ensures forall i :: 0 <= i < |rows| ==> r[i] == rows[i].(order := Num(i + 1))
  {
    seq(|rows|, i requires 0 <= i < |rows| => rows[i].(order := Num(i + 1)))
  }

  /** The table `features_to_dataframe` returns for the collected rows. */
  function Frame(rows: seq<Row>, cds: bool): seq<Row> {
    var filled := FillGene(CheckTags(WithLength(rows)));
    if cds then Numbered(GetCds(filled)) else filled
  }

  /** The table `features_to_dataframe(features, cds)` returns, or the IndexError it raises. */
  function Dataframe(features: seq<Feature>, cds: bool): (r: Result<seq<Row>, PyException>)
    ensures r.Err? <==> AnyMalformed(features)
  {
    if AnyMalformed(features) then Err(IndexError)
    else Ok(Frame(seq(|features|, i requires 0 <= i < |features| => RawRow(features[i]).value), cds))
  }

  /** `features_to_dataframe(features, cds)`. */
  method FeaturesToDataframe(features: seq<Feature>, cds: bool) returns (r: Result<seq<Row>, PyException>)
    ensures r == Dataframe(features, cds)
  {
    var allfeat := CollectRows(features);
    if allfeat.Err? {
      return Err(IndexError);
    }
    assert allfeat.value == seq(|features|, i requires 0 <= i < |features| => RawRow(features[i]).value);
    return Ok(Frame(allfeat.value, cds));
  }

  /**
   * Without `cds`, the table has one row per feature, in input order; every
   * column except locus_tag and gene is the feature's own cell, and the
   * length column holds the printed length of the translation.
   */
  lemma FrameRows(rows: seq<Row>)
    ensures |Frame(rows, false)| == |rows|
    ensures forall i :: 0 <= i < |rows| ==>
      Frame(rows, false)[i].(locusTag := rows[i].locusTag, gene := rows[i].gene, length := rows[i].length) == rows[i]
    ensures forall i :: 0 <= i < |rows| ==> Frame(rows, false)[i].length == Num(TextLength(rows[i].translation))
  {
  }

  /**
   * Tag normalisation: afterwards locus_tag is null exactly when gene is,
   * i.e. both were null before; a present locus_tag is kept, a null one
   * takes the gene, and a null gene takes the new locus_tag.
   */
  lemma TagsComplete(rows: seq<Row>)
    ensures forall i :: 0 <= i < |rows| ==>
      (Frame(rows, false)[i].locusTag.Null? <==> rows[i].locusTag.Null? && rows[i].gene.Null?)
    ensures forall i :: 0 <= i < |rows| ==>
      (Frame(rows, false)[i].gene.Null? <==> rows[i].locusTag.Null? && rows[i].gene.Null?)
    ensures forall i :: 0 <= i < |rows| && !rows[i].locusTag.Null? ==>
      Frame(rows, false)[i].locusTag == rows[i].locusTag
    ensures forall i :: 0 <= i < |rows| && !rows[i].gene.Null? ==>
      Frame(rows, false)[i].gene == rows[i].gene
    ensures forall i :: 0 <= i < |Frame(rows, true)| ==>
      (Frame(rows, true)[i].locusTag.Null? <==> Frame(rows, true)[i].gene.Null?)
  {
    var filled := Frame(rows, false);
    assert forall i :: 0 <= i < |filled| ==> (filled[i].locusTag.Null? <==> filled[i].gene.Null?);
    var kept := GetCds(filled);
    forall i | 0 <= i < |kept|
      ensures kept[i].locusTag.Null? <==> kept[i].gene.Null?
    {
      var j :| 0 <= j < |filled| && filled[j] == kept[i];
    }
  }

  /**
   * With `cds`, the table keeps exactly the translated CDS rows, and the
   * order column numbers them 1..n.
   */
  lemma CdsRows(rows: seq<Row>)
    ensures forall i :: 0 <= i < |Frame(rows, true)| ==>
      IsTranslatedCds(Frame(rows, true)[i]) && Frame(rows, true)[i].order == Num(i + 1)
    ensures forall i :: 0 <= i < |rows| && IsTranslatedCds(rows[i]) ==>
      exists j :: 0 <= j < |Frame(rows, true)| && Frame(rows, true)[j] == Frame(rows, false)[i].(order := Num(j + 1))
  {
    var filled := Frame(rows, false);
    var kept := GetCds(filled);
    forall i | 0 <= i < |rows| && IsTranslatedCds(rows[i])
      ensures exists j :: 0 <= j < |Frame(rows, true)| && Frame(rows, true)[j] == filled[i].(order := Num(j + 1))
    {
      assert filled[i].kind == rows[i].kind && filled[i].translation == rows[i].translation;
      assert filled[i] in kept;
      var j :| 0 <= j < |kept| && kept[j] == filled[i];
      assert Frame(rows, true)[j] == filled[i].(order := Num(j + 1));
    }
  }
}
