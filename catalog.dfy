/** The normalization catalog: the relative compute capacity of each EC2
    instance size, in units of one "small" instance. */
module Catalog {

  /** Size designator to normalization factor. Every value is a multiple of 0.25. */
  const NormalizationFactors: map<string, real> := map[
    "nano" := 0.25,
    "micro" := 0.5,
    "small" := 1.0,
    "medium" := 2.0,
    "large" := 4.0,
    "xlarge" := 8.0,
    "2xlarge" := 16.0,
    "3xlarge" := 24.0,
    "4xlarge" := 32.0,
    "6xlarge" := 48.0,
    "8xlarge" := 64.0,
    "9xlarge" := 72.0,
    "10xlarge" := 80.0,
    "12xlarge" := 96.0,
    "16xlarge" := 128.0,
    "18xlarge" := 144.0,
    "24xlarge" := 192.0,
    "32xlarge" := 256.0,
    "56xlarge" := 448.0,
    "112xlarge" := 896.0
  ]

  /** Every tabulated size has a positive weight, so 0 is free to mean "unknown size". */
  lemma FactorsPositive()
    ensures forall size :: size in NormalizationFactors ==> NormalizationFactors[size] > 0.0
  {
  }

  /** The factor of a size designator, 0 for a size the table does not know
      (the dictionary lookup with a default of 0). */
  function WeightOf(size: string): (r: real)
    ensures r >= 0.0
    ensures r > 0.0 <==> size in NormalizationFactors
    ensures size in NormalizationFactors ==> r == NormalizationFactors[size]
  {
    FactorsPositive();
    if size in NormalizationFactors then NormalizationFactors[size] else 0.0
  }
}
