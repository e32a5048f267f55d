/**
 * Variant calls read from a VCF file (`vcf_to_dataframe`): the records
 * whose quality reaches the threshold, in file order.
 */
module Variants {
  import opened Wrappers
  import Seqs

  /**
   * One VCF record. `qual` is None when the file has no quality for the
   * record (pandas then holds NaN, which fails every comparison).
   */
  datatype Variant = Variant(chrom: string, varType: string, subType: string, start: int, end: int,
                             ref: string, alt: string, qual: Option<real>)

  /** The default of the `quality` parameter. */
  const DEFAULT_QUALITY: real := 30.0

  /** `res.QUAL >= quality`. */
  predicate QualityAtLeast(quality: real, v: Variant) {
    v.qual.Some? && v.qual.value >= quality
  }

  /** `res[res.QUAL >= quality]`: exactly the records of sufficient quality, in file order. */
  function FilterByQuality(records: seq<Variant>, quality: real): (kept: seq<Variant>)
    ensures |kept| <= |records|
    ensures forall i :: 0 <= i < |kept| ==> kept[i] in records && QualityAtLeast(quality, kept[i])
    ensures forall i :: 0 <= i < |records| && QualityAtLeast(quality, records[i]) ==> records[i] in kept
  {
    Seqs.Filter(records, v => QualityAtLeast(quality, v))
  }

  /**
   * Raising the threshold only drops records: filtering at a higher
   * threshold is filtering the lower threshold's result again, so the
   * result at the default threshold is idempotent.
   */
  lemma FilterByQualityMonotone(records: seq<Variant>, low: real, high: real)
    requires low <= high
    ensures FilterByQuality(FilterByQuality(records, low), high) == FilterByQuality(records, high)
  {
    Seqs.FilterFilter(records, v => QualityAtLeast(low, v), v => QualityAtLeast(high, v),
                      v => QualityAtLeast(high, v));
  }

  /** Filtering the file in two parts keeps the records of each part in order. */
  lemma FilterByQualityAppend(a: seq<Variant>, b: seq<Variant>, quality: real)
    ensures FilterByQuality(a + b, quality) == FilterByQuality(a, quality) + FilterByQuality(b, quality)
  {
    Seqs.FilterAppend(a, b, v => QualityAtLeast(quality, v));
  }
}
