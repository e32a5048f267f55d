/**
 * Symbol colouring of sequence text (`get_sequence_colors`) and the format
 * of random HTML colours (`random_colors`).
 *
 * The amino-acid palette is built by zipping the twenty one-letter amino
 * acid codes plus '-' with twenty colormap samples plus "white". The
 * colormap samples themselves are a parameter (`ramp`).
 */
module Palette {
  import opened Wrappers
  import Seqs

  /** The fixed nucleotide palette. */
  const NUCLEOTIDE_COLORS: map<char, string> :=
    map['A' := "red", 'T' := "green", 'G' := "orange", 'C' := "blue", '-' := "white"]

  /** Biopython's `aa1`: the twenty standard amino-acid letters. */
  const AA1: seq<char> := "ACDEFGHIKLMNPQRSTVWY"

  /** `dict(zip(keys, vals))` for lists of equal length: a later key overwrites an earlier one. */
  function Zip<K, V>(keys: seq<K>, vals: seq<V>): (m: map<K, V>)
    requires |keys| == |vals|
    ensures m.Keys == set k | 0 <= k < |keys| :: keys[k]
    ensures forall k :: 0 <= k < |keys| && keys[k] !in keys[k + 1..] ==> m[keys[k]] == vals[k]
  {
    if keys == [] then map[]
    else
      var n := |keys| - 1;
      var init := Zip(keys[..n], vals[..n]);
      ZipStep(keys, vals, keys[..n], vals[..n], init);
      init[keys[n] := vals[n]]
  }

  /** A key that does not recur after position k recurs neither in the front part nor as the last key. */
  lemma LastOccurrence<K>(keys: seq<K>, k: nat)
    requires k < |keys| - 1 && keys[k] !in keys[k + 1..]
    ensures var n := |keys| - 1; keys[k] != keys[n] && keys[..n][k] !in keys[..n][k + 1..]
  {
    var n := |keys| - 1;
    assert keys[k + 1..] == keys[..n][k + 1..] + [keys[n]];
  }

  /** The last pair of a zip overrides the zip of the others. */
  lemma ZipStep<K, V>(keys: seq<K>, vals: seq<V>, front: seq<K>, frontVals: seq<V>, init: map<K, V>)
    requires |keys| == |vals| > 0
    requires front == keys[..|keys| - 1] && frontVals == vals[..|keys| - 1]
    requires init.Keys == set k | 0 <= k < |front| :: front[k]
    requires forall k :: 0 <= k < |front| && front[k] !in front[k + 1..] ==> init[front[k]] == frontVals[k]
    ensures var m := init[keys[|keys| - 1] := vals[|keys| - 1]];
      m.Keys == (set k | 0 <= k < |keys| :: keys[k]) &&
      forall k :: 0 <= k < |keys| && keys[k] !in keys[k + 1..] ==> m[keys[k]] == vals[k]
  {
    var n := |keys| - 1;
    var m := init[keys[n] := vals[n]];
    forall k | 0 <= k < |keys| && keys[k] !in keys[k + 1..]
      ensures m[keys[k]] == vals[k]
    {
      if k < n {
        LastOccurrence(keys, k);
        assert front[k] == keys[k] && frontVals[k] == vals[k];
      }
    }
    ZipKeysStep(keys, front, init.Keys);
  }

  /** The keys of the zip grow by the last key. */
  lemma ZipKeysStep<K>(keys: seq<K>, front: seq<K>, frontKeys: set<K>)
    requires |keys| > 0 && front == keys[..|keys| - 1]
    requires frontKeys == set k | 0 <= k < |front| :: front[k]
    ensures frontKeys + {keys[|keys| - 1]} == set k | 0 <= k < |keys| :: keys[k]
  {
    var n := |keys| - 1;
    forall x | x in frontKeys
      ensures x in set k | 0 <= k < |keys| :: keys[k]
    {
      var k :| 0 <= k < n && front[k] == x;
      assert keys[k] == x;
    }
    forall x | x in set k | 0 <= k < |keys| :: keys[k]
      ensures x in frontKeys + {keys[n]}
    {
      var k :| 0 <= k < |keys| && keys[k] == x;
      if k < n {
        assert front[k] == x;
      }
    }
  }

  /** AA1 is in alphabetical order. */
  lemma AA1Ascends()
    ensures forall j :: 0 <= j < |AA1| - 1 ==> AA1[j] as int < AA1[j + 1] as int
  {
  }

  /** No key of the amino-acid palette recurs: AA1 is in alphabetical order and '-' sorts before it. */
  lemma AA1Distinct()
    ensures forall k :: 0 <= k < |AA1 + "-"| ==> (AA1 + "-")[k] !in (AA1 + "-")[k + 1..]
  {
    var keys := AA1 + "-";
    AA1Ascends();
    assert '-' as int < AA1[0] as int;
    forall k | 0 <= k < |keys|
      ensures keys[k] !in keys[k + 1..]
    {
      if k < |AA1| {
        Ascending(AA1, 0);
        Ascending(AA1, k);
        assert keys[k] == AA1[k];
        assert keys[k + 1..] == AA1[k + 1..] + "-";
      }
    }
  }

  /** In a list ascending step by step, an element is smaller than every later one. */
  lemma {:induction false} Ascending(s: seq<char>, k: nat)
    requires forall j :: 0 <= j < |s| - 1 ==> s[j] as int < s[j + 1] as int
    requires k < |s|
    ensures forall j :: k < j < |s| ==> s[k] as int < s[j] as int
    decreases |s| - k
  {
    if k + 1 < |s| {
      Ascending(s, k + 1);
    }
  }

  /**
   * `pcolors`: each amino-acid letter gets its colormap sample, in order,
   * and '-' gets "white".
   */
  function AminoPalette(ramp: seq<string>): (p: map<char, string>)
    requires |ramp| == 20
    ensures p.Keys == (set c | c in AA1) + {'-'}
    ensures forall k :: 0 <= k < |AA1| ==> p[AA1[k]] == ramp[k]
    ensures p['-'] == "white"
  {
    var keys := AA1 + "-";
    var vals := ramp + ["white"];
    AA1Distinct();
    assert forall k :: 0 <= k < |AA1| ==> keys[k] == AA1[k] && vals[k] == ramp[k];
    assert keys[20] == '-' && vals[20] == "white";
    assert (set k | 0 <= k < |keys| :: keys[k]) == (set c | c in AA1) + {'-'} by {
      forall c | c in AA1
        ensures c in set k | 0 <= k < |keys| :: keys[k]
      {
        var k :| 0 <= k < |AA1| && AA1[k] == c;
        assert keys[k] == c;
      }
    }
    Zip(keys, vals)
  }

  /** Every symbol of `text` is a key of `palette`. */
  predicate Covers(palette: map<char, string>, text: seq<char>) {
    forall i :: 0 <= i < |text| ==> text[i] in palette
  }

  /** `[palette[c] for c in text]`. */
  function ColorEach(palette: map<char, string>, text: seq<char>): (colors: seq<string>)
    requires Covers(palette, text)
    ensures |colors| == |text|
    ensures forall i :: 0 <= i < |text| ==> colors[i] == palette[text[i]]
  {
    seq(|text|, i requires 0 <= i < |text| => palette[text[i]])
  }

  /**
   * `get_sequence_colors`: the sequences are flattened into one text; if
   * every symbol is a nucleotide key the nucleotide palette colours all of
   * it, otherwise the amino-acid palette colours all of it, and a symbol in
   * neither raises KeyError.
   */
  function SequenceColors(seqs: seq<seq<char>>, ramp: seq<string>): (r: Result<seq<string>, PyException>)
    requires |ramp| == 20
    ensures r.Err? ==> r.error == KeyError
    ensures r.Ok? ==> |r.value| == |Seqs.Flatten(seqs)|
  {
    var text := Seqs.Flatten(seqs);
    if Covers(NUCLEOTIDE_COLORS, text) then Ok(ColorEach(NUCLEOTIDE_COLORS, text))
    else
      var amino := AminoPalette(ramp);
      if Covers(amino, text) then Ok(ColorEach(amino, text))
      else Err(KeyError)
  }

  /** Every nucleotide symbol is also an amino-acid palette key. */
  lemma NucleotideKeysInAmino(ramp: seq<string>)
    requires |ramp| == 20
    ensures NUCLEOTIDE_COLORS.Keys <= AminoPalette(ramp).Keys
  {
    assert AA1[0] == 'A' && AA1[1] == 'C' && AA1[5] == 'G' && AA1[16] == 'T';
  }

  /** Colouring fails exactly when some symbol is not an amino-acid palette key. */
  lemma SequenceColorsOkIff(seqs: seq<seq<char>>, ramp: seq<string>)
    requires |ramp| == 20
    ensures SequenceColors(seqs, ramp).Ok? <==> Covers(AminoPalette(ramp), Seqs.Flatten(seqs))
  {
    NucleotideKeysInAmino(ramp);
  }

  /**
   * All or nothing: either every symbol is coloured from the nucleotide
   * palette (all symbols are nucleotides) or every symbol is coloured from
   * the amino-acid palette (some symbol is not).
   */
  lemma SequenceColorsAllOrNothing(seqs: seq<seq<char>>, ramp: seq<string>)
    requires |ramp| == 20
    requires SequenceColors(seqs, ramp).Ok?
    ensures var text, colors := Seqs.Flatten(seqs), SequenceColors(seqs, ramp).value;
      if Covers(NUCLEOTIDE_COLORS, text)
      then forall i :: 0 <= i < |text| ==> colors[i] == NUCLEOTIDE_COLORS[text[i]]
      else forall i :: 0 <= i < |text| ==> colors[i] == AminoPalette(ramp)[text[i]]
  {
  }

  /** A gap is white whichever palette is chosen. */
  lemma GapIsWhite(seqs: seq<seq<char>>, ramp: seq<string>, i: nat)
    requires |ramp| == 20
    requires SequenceColors(seqs, ramp).Ok?
    requires i < |Seqs.Flatten(seqs)| && Seqs.Flatten(seqs)[i] == '-'
    ensures SequenceColors(seqs, ramp).value[i] == "white"
  {
  }

  const HEX_DIGITS: seq<char> := "0123456789ABCDEF"

  /** An HTML colour string: '#' and six upper-case hexadecimal digits. */
  predicate IsHtmlColor(s: string) {
    |s| == 7 && s[0] == '#' && forall i :: 1 <= i < 7 ==> s[i] in HEX_DIGITS
  }

  /**
   * `random_colors(size)`: `draws[i][j]` is the index `random.choice`
   * picks for digit j of colour i.
   */
  function RandomColors(size: nat, draws: seq<seq<nat>>): (colors: seq<string>)
    requires |draws| == size
    requires forall i :: 0 <= i < size ==> |draws[i]| == 6 && forall j :: 0 <= j < 6 ==> draws[i][j] < 16
    ensures |colors| == size
    ensures forall i :: 0 <= i < size ==> IsHtmlColor(colors[i])
  {
    seq(size, i requires 0 <= i < size => "#" + seq(6, j requires 0 <= j < 6 => HEX_DIGITS[draws[i][j]]))
  }
}
