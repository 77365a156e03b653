/** The finite hypothesis/outcome table: exact integer beliefs, their update by a
    likelihood column, and the expected information gain of one candidate. */
module InformationGainTable {
  import opened Wrappers
  import opened RealSums
  import opened Information
  import opened GcdReduction

  const MAX_INFORMATION_GAIN_INTEGER_BITS: nat := 12000

  datatype TableError =
    | InvalidBelief
    | UnknownCandidate
    | ImpossibleEvidence
    | NegativeScore
    | InconsistentRecord
    | RepeatedCandidate
    | NoCandidatesLeft
    | SelectionMismatch

  /** The exact score followed by the decimal quantisation, both as functions. */
  datatype Numerics = Numerics(phi: Kernel, quantize: real -> real)

  ghost predicate Faithful(num: Numerics) {
    && EntropyKernel(num.phi)
    && num.quantize(0.0) == 0.0
    && (forall x, y :: x <= y ==> num.quantize(x) <= num.quantize(y))
  }

  /** Hypotheses and outcomes are known by their position in the declared order;
      `likelihood[c][h][o]` is the declared weight. */
  datatype EvidenceModel = EvidenceModel(
    hypotheses: seq<string>,
    priors: seq<nat>,
    outcomes: seq<string>,
    thresholds: seq<real>,
    rowTotal: nat,
    likelihood: map<string, seq<seq<nat>>>)

  // ----- the bit bound -----

  /** `int.bit_length`. */
  function BitLength(v: nat): nat {
    if v == 0 then 0 else 1 + BitLength(v / 2)
  }

  /** `None` stands for arithmetic without a bound. */
  predicate Within(limit: Option<nat>, v: nat) {
    limit.None? || BitLength(v) <= limit.value
  }

  predicate AllWithin(limit: Option<nat>, s: seq<nat>) {
    forall i :: 0 <= i < |s| ==> Within(limit, s[i])
  }

  lemma {:induction false} BitLengthMonotone(a: nat, b: nat)
    requires a <= b
    ensures BitLength(a) <= BitLength(b)
  {
    if a > 0 {
      BitLengthMonotone(a / 2, b / 2);
    }
  }

  /** Reduction can only shorten a weight. */
  lemma ReducedWithin(limit: Option<nat>, s: seq<nat>)
    requires |s| > 0 && GcdAll(s) > 0 && AllWithin(limit, s)
    ensures AllWithin(limit, Reduce(s))
  {
    forall i | 0 <= i < |s| ensures Within(limit, Reduce(s)[i]) {
      assert Within(limit, s[i]);
      QuotientSmaller(s[i], GcdAll(s));
      BitLengthMonotone(s[i] / GcdAll(s), s[i]);
    }
  }

  lemma QuotientSmaller(n: nat, d: nat)
    requires d > 0
    ensures 0 <= n / d <= n
  {
    var q := n / d;
    assert n == d * q + n % d;
    AtLeast(d, q);
  }

  lemma AtLeast(d: nat, q: int)
    requires d > 0
    ensures q >= 0 ==> d * q >= q
    ensures q < 0 ==> d * q < 0
  {
  }

  // ----- what the constructor of a model has checked -----

  function SumNat(s: seq<nat>): nat {
    if |s| == 0 then 0 else SumNat(s[..|s| - 1]) + s[|s| - 1]
  }

  predicate ValidTable(m: EvidenceModel, rows: seq<seq<nat>>) {
    && |rows| == |m.hypotheses|
    && (forall h :: 0 <= h < |rows| ==> |rows[h]| == |m.outcomes| && SumNat(rows[h]) == m.rowTotal)
  }

  predicate ValidModel(m: EvidenceModel) {
    && |m.hypotheses| >= 1
    && |m.priors| == |m.hypotheses|
    && (forall h :: 0 <= h < |m.priors| ==> m.priors[h] >= 1)
    && AllWithin(Some(MAX_INFORMATION_GAIN_INTEGER_BITS), m.priors)
    && |m.outcomes| >= 2
    && |m.thresholds| == |m.outcomes| - 1
    && (forall i, j :: 0 <= i < j < |m.thresholds| ==> m.thresholds[i] < m.thresholds[j])
    && m.rowTotal >= 1
    && (forall c :: c in m.likelihood ==> ValidTable(m, m.likelihood[c]))
  }

  // ----- classification -----

  function ClassifyFrom(thresholds: seq<real>, value: real, k: nat): nat
    requires k <= |thresholds|
    decreases |thresholds| - k
  {
    if k == |thresholds| || value < thresholds[k] then k else ClassifyFrom(thresholds, value, k + 1)
  }

  method ClassifyObservation(m: EvidenceModel, value: real) returns (o: nat)
    requires ValidModel(m)
    ensures o == ClassifyFrom(m.thresholds, value, 0)
    ensures o < |m.outcomes|
  {
    o := 0;
    while o < |m.thresholds|
      invariant o <= |m.thresholds|
      invariant ClassifyFrom(m.thresholds, value, 0) == ClassifyFrom(m.thresholds, value, o)
    {
      if value < m.thresholds[o] {
        return;
      }
      o := o + 1;
    }
  }

  /** The thresholds cut the line: outcome `o` is returned exactly on its half-open cell. */
  lemma ClassificationPartition(m: EvidenceModel, value: real, o: nat)
    requires ValidModel(m)
    ensures ClassifyFrom(m.thresholds, value, 0) < |m.outcomes|
    ensures ClassifyFrom(m.thresholds, value, 0) == o <==>
      && o < |m.outcomes|
      && (o > 0 ==> m.thresholds[o - 1] <= value)
      && (o < |m.thresholds| ==> value < m.thresholds[o])
  {
    ClassifyCell(m.thresholds, value, 0);
    var c := ClassifyFrom(m.thresholds, value, 0);
    if o < |m.outcomes| && o != c {
      if o < c {
        assert m.thresholds[o] <= value;
      } else if c + 1 < o {
        assert m.thresholds[c] < m.thresholds[o - 1];
      }
    }
  }

  lemma {:induction false} ClassifyCell(thresholds: seq<real>, value: real, k: nat)
    requires k <= |thresholds|
    ensures var c := ClassifyFrom(thresholds, value, k);
      && k <= c <= |thresholds|
      && (forall i :: k <= i < c ==> thresholds[i] <= value)
      && (c < |thresholds| ==> value < thresholds[c])
    decreases |thresholds| - k
  {
    if k < |thresholds| && value >= thresholds[k] {
      ClassifyCell(thresholds, value, k + 1);
    }
  }

  // ----- beliefs -----

  predicate ValidWeights(limit: Option<nat>, w: seq<nat>, count: nat) {
    |w| > 0 && |w| == count && AllWithin(limit, w) && !AllZero(w)
  }

  /** The declared weights of outcome `o` of candidate `c`, one per hypothesis. */
  function LikelihoodColumn(m: EvidenceModel, c: string, o: nat): (r: seq<nat>)
    requires ValidModel(m) && c in m.likelihood && o < |m.outcomes|
    ensures |r| == |m.hypotheses|
  {
    seq(|m.hypotheses|, h requires 0 <= h < |m.hypotheses| => m.likelihood[c][h][o])
  }

  function Products(w: seq<nat>, l: seq<nat>): (r: seq<nat>)
    requires |w| == |l|
    ensures |r| == |w|
  {
    seq(|w|, i requires 0 <= i < |w| => w[i] * l[i])
  }

  function UpdateBelief(limit: Option<nat>, m: EvidenceModel, w: seq<nat>, c: string, o: nat)
    : (r: Result<seq<nat>, TableError>)
    requires ValidModel(m) && o < |m.outcomes|
    ensures r.Ok? ==> ValidWeights(None, r.value, |m.hypotheses|)
  {
    if !ValidWeights(limit, w, |m.hypotheses|) then Err(InvalidBelief)
    else if c !in m.likelihood then Err(UnknownCandidate)
    else
      var products := Products(w, LikelihoodColumn(m, c, o));
      if !AllWithin(limit, products) then Err(InvalidBelief)
      else if AllZero(products) then Err(ImpossibleEvidence)
      else
        GcdAllDivides(products);
        ReducedNonZero(products);
        Ok(Reduce(products))
  }

  lemma ReducedNonZero(s: seq<nat>)
    requires |s| > 0 && GcdAll(s) > 0
    ensures !AllZero(Reduce(s))
  {
    ReducedGcd(s);
    GcdAllDivides(Reduce(s));
  }

  /** The two loops of `update_information_gain_belief`: products, then the divisor. */
  method UpdateInformationGainBelief(limit: Option<nat>, m: EvidenceModel, w: seq<nat>, c: string, o: nat)
    returns (r: Result<seq<nat>, TableError>)
    requires ValidModel(m) && o < |m.outcomes|
    ensures r == UpdateBelief(limit, m, w, c, o)
  {
    hide GcdAll, LikelihoodColumn, AllWithin;
    if !ValidWeights(limit, w, |m.hypotheses|) {
      return Err(InvalidBelief);
    }
    if c !in m.likelihood {
      return Err(UnknownCandidate);
    }
    var products := BoundedProducts(limit, w, LikelihoodColumn(m, c, o));
    if products.None? {
      return Err(InvalidBelief);
    }
    if AllZero(products.value) {
      return Err(ImpossibleEvidence);
    }
    GcdAllDivides(products.value);
    var divisor := CommonDivisor(products.value);
    return Ok(seq(|products.value|, i requires 0 <= i < |products.value| => products.value[i] / divisor));
  }

  /** Appends one product per hypothesis and stops at the first one over the bound. */
  method BoundedProducts(limit: Option<nat>, w: seq<nat>, l: seq<nat>) returns (r: Option<seq<nat>>)
    requires |w| == |l|
    ensures r == if AllWithin(limit, Products(w, l)) then Some(Products(w, l)) else None
  {
    hide Within;
    ghost var expected := Products(w, l);
    var products: seq<nat> := [];
    for h := 0 to |w|
      invariant products == expected[..h]
      invariant AllWithin(limit, products)
    {
      var product := w[h] * l[h];
      assert product == expected[h];
      if !Within(limit, product) {
        return None;
      }
      products := products + [product];
    }
    assert products == expected;
    return Some(products);
  }

  /** `reduce(gcd, products)`. */
  method CommonDivisor(products: seq<nat>) returns (divisor: nat)
    requires |products| > 0
    ensures divisor == GcdAll(products)
  {
    divisor := products[0];
    for h := 1 to |products|
      invariant divisor == GcdAll(products[..h])
    {
      assert products[..h + 1][..h] == products[..h];
      divisor := Gcd(divisor, products[h]);
    }
    assert products[..|products|] == products;
  }

  // ----- beliefs as distributions -----

  function ToReals(s: seq<nat>): (r: seq<real>)
    ensures |r| == |s|
  {
    seq(|s|, i requires 0 <= i < |s| => s[i] as real)
  }

  /** Each weight over the total: the current hypothesis probabilities. */
  function Normalised(w: seq<nat>, total: nat): (r: seq<real>)
    requires total > 0
    ensures |r| == |w|
  {
    seq(|w|, i requires 0 <= i < |w| => w[i] as real / total as real)
  }

  lemma {:induction false} SumNatAsReal(s: seq<nat>)
    ensures Sum(ToReals(s)) == SumNat(s) as real
  {
    if |s| > 0 {
      SumNatAsReal(s[..|s| - 1]);
      assert ToReals(s)[..|s| - 1] == ToReals(s[..|s| - 1]);
    }
  }

  lemma {:induction false} SumNatZero(s: seq<nat>)
    ensures SumNat(s) == 0 <==> AllZero(s)
  {
    if |s| > 0 {
      SumNatZero(s[..|s| - 1]);
      assert AllZero(s) <==> AllZero(s[..|s| - 1]) && s[|s| - 1] == 0;
    }
  }

  lemma {:induction false} SumNatTimes(k: nat, s: seq<nat>)
    ensures SumNat(Times(k, s)) == k * SumNat(s)
  {
    if |s| > 0 {
      SumNatTimes(k, s[..|s| - 1]);
      assert Times(k, s)[..|s| - 1] == Times(k, s[..|s| - 1]);
    }
  }

  lemma NormalisedDistribution(w: seq<nat>, total: nat)
    requires |w| > 0 && total == SumNat(w) > 0
    ensures IsDistribution(Normalised(w, total))
  {
    var k := 1.0 / total as real;
    NormalisedAsScaled(w, total);
    SumScaled(k, ToReals(w));
    SumNatAsReal(w);
    Reciprocal(total as real);
  }

  lemma NormalisedAsScaled(w: seq<nat>, total: nat)
    requires total > 0
    ensures Normalised(w, total) == Scaled(1.0 / total as real, ToReals(w))
    ensures AllNonNegative(Normalised(w, total))
  {
    forall i | 0 <= i < |w|
      ensures Normalised(w, total)[i] == Scaled(1.0 / total as real, ToReals(w))[i]
      ensures Normalised(w, total)[i] >= 0.0
    {
      DivideAsScale(w[i] as real, total as real);
    }
  }

  lemma Reciprocal(x: real)
    requires x > 0.0
    ensures 1.0 / x * x == 1.0
  {
  }

  /** Scaling all weights leaves every probability unchanged. */
  lemma NormalisedTimes(k: nat, w: seq<nat>)
    requires k > 0 && SumNat(w) > 0
    ensures SumNat(Times(k, w)) > 0
    ensures Normalised(Times(k, w), SumNat(Times(k, w))) == Normalised(w, SumNat(w))
  {
    var total := SumNat(w);
    SumNatTimes(k, w);
    SmallMultiple(k, total);
    forall i | 0 <= i < |w|
      ensures Normalised(Times(k, w), SumNat(Times(k, w)))[i] == Normalised(w, total)[i]
    {
      NormalisedTimesAt(k, w, total, i);
    }
  }

  lemma NormalisedTimesAt(k: nat, w: seq<nat>, total: nat, i: nat)
    requires k > 0 && total > 0 && i < |w| && k * total > 0
    ensures Normalised(Times(k, w), k * total)[i] == Normalised(w, total)[i]
  {
    CommonFactor(k as real, w[i] as real, total as real);
    assert (k * w[i]) as real == k as real * w[i] as real;
    assert (k * total) as real == k as real * total as real;
  }

  lemma CommonFactor(k: real, a: real, b: real)
    requires k > 0.0 && b > 0.0
    ensures k * b > 0.0 && (k * a) / (k * b) == a / b
  {
    var x := a / b;
    assert x * b == a;
    assert x * (k * b) == k * a;
  }

  /** The candidate's table as outcome masses. */
  function MassRow(m: EvidenceModel, row: seq<nat>): (r: seq<real>)
    requires m.rowTotal > 0
  {
    Normalised(row, m.rowTotal)
  }

  function Masses(m: EvidenceModel, c: string): (r: seq<seq<real>>)
    requires ValidModel(m) && c in m.likelihood
    ensures |r| == |m.hypotheses| && Rectangular(r, |m.outcomes|)
  {
    seq(|m.hypotheses|, h requires 0 <= h < |m.hypotheses| => MassRow(m, m.likelihood[c][h]))
  }

  lemma MassesStochastic(m: EvidenceModel, c: string)
    requires ValidModel(m) && c in m.likelihood
    ensures RowStochastic(Masses(m, c), |m.outcomes|)
  {
    forall h | 0 <= h < |m.hypotheses| ensures IsDistribution(Masses(m, c)[h]) {
      NormalisedDistribution(m.likelihood[c][h], m.rowTotal);
    }
  }

  // ----- expected information gain -----

  /** The score before quantisation. */
  function ExactGain(phi: Kernel, m: EvidenceModel, w: seq<nat>, c: string): real
    requires ValidModel(m) && c in m.likelihood && |w| == |m.hypotheses| && SumNat(w) > 0
  {
    var p := Normalised(w, SumNat(w));
    Entropy(phi, p) - ExpectedEntropy(phi, p, Masses(m, c), |m.outcomes|)
  }

  function Score(num: Numerics, limit: Option<nat>, m: EvidenceModel, w: seq<nat>, c: string)
    : Result<real, TableError>
    requires ValidModel(m)
  {
    if !ValidWeights(limit, w, |m.hypotheses|) then Err(InvalidBelief)
    else if c !in m.likelihood then Err(UnknownCandidate)
    else
      SumNatZero(w);
      var q := num.quantize(ExactGain(num.phi, m, w, c));
      if q < 0.0 then Err(NegativeScore) else Ok(q)
  }

  /** `expected_information_gain_bits`: the expected posterior entropy accumulates per outcome. */
  method ExpectedInformationGainBits(num: Numerics, limit: Option<nat>, m: EvidenceModel, w: seq<nat>, c: string)
    returns (r: Result<real, TableError>)
    requires ValidModel(m)
    ensures r == Score(num, limit, m, w, c)
  {
    if !ValidWeights(limit, w, |m.hypotheses|) {
      return Err(InvalidBelief);
    }
    if c !in m.likelihood {
      return Err(UnknownCandidate);
    }
    SumNatZero(w);
    var current := Normalised(w, SumNat(w));
    var expected := ExpectedOverOutcomes(num.phi, current, Masses(m, c), |m.outcomes|);
    var quantized := num.quantize(Entropy(num.phi, current) - expected);
    if quantized < 0.0 {
      return Err(NegativeScore);
    }
    return Ok(quantized);
  }

  /** The accumulation inside the score: outcomes of probability zero contribute nothing. */
  method ExpectedOverOutcomes(phi: Kernel, p: seq<real>, masses: seq<seq<real>>, width: nat) returns (expected: real)
    requires Fits(p, masses, width)
    ensures expected == ExpectedEntropy(phi, p, masses, width)
  {
    hide Predictive, Posterior, Entropy;
    expected := 0.0;
    ghost var terms := OutcomeTerms(phi, p, masses, width);
    for o := 0 to width
      invariant expected == Sum(terms[..o])
    {
      SumPrefix(terms, o);
      var predictive := Predictive(p, masses, width, o);
      if predictive > 0.0 {
        expected := expected + predictive * Entropy(phi, Posterior(p, masses, width, o));
      }
    }
    assert terms[..width] == terms;
  }

  /** Every gain lies between zero and the current entropy, so scoring a known candidate
      against a valid belief always succeeds. */
  lemma GainBounds(num: Numerics, limit: Option<nat>, m: EvidenceModel, w: seq<nat>, c: string)
    requires Faithful(num) && ValidModel(m) && c in m.likelihood
    requires ValidWeights(limit, w, |m.hypotheses|)
    ensures SumNat(w) > 0
    ensures 0.0 <= ExactGain(num.phi, m, w, c) <= Entropy(num.phi, Normalised(w, SumNat(w)))
    ensures Score(num, limit, m, w, c) == Ok(num.quantize(ExactGain(num.phi, m, w, c)))
  {
    SumNatZero(w);
    NormalisedDistribution(w, SumNat(w));
    MassesStochastic(m, c);
    InformationBounds(num.phi, Normalised(w, SumNat(w)), Masses(m, c), |m.outcomes|);
  }

  /** A candidate whose hypotheses all share one row scores zero under every belief. */
  lemma SharedRowScoresZero(num: Numerics, limit: Option<nat>, m: EvidenceModel, w: seq<nat>, c: string)
    requires Faithful(num) && ValidModel(m) && c in m.likelihood
    requires ValidWeights(limit, w, |m.hypotheses|)
    requires forall h :: 0 <= h < |m.hypotheses| ==> m.likelihood[c][h] == m.likelihood[c][0]
    ensures Score(num, limit, m, w, c) == Ok(0.0)
  {
    GainBounds(num, limit, m, w, c);
    NormalisedDistribution(w, SumNat(w));
    MassesStochastic(m, c);
    SharedRowsTeachNothing(num.phi, Normalised(w, SumNat(w)), Masses(m, c), |m.outcomes|);
  }

  /** The score depends only on the proportions of the weights. */
  lemma ScoreScaleFree(num: Numerics, limit: Option<nat>, m: EvidenceModel, w: seq<nat>, k: nat, c: string)
    requires ValidModel(m) && k > 0
    requires ValidWeights(limit, w, |m.hypotheses|)
    requires ValidWeights(limit, Times(k, w), |m.hypotheses|)
    ensures Score(num, limit, m, Times(k, w), c) == Score(num, limit, m, w, c)
  {
    SumNatZero(w);
    NormalisedTimes(k, w);
  }
}
