/** Discrete Bayes updates of a normalised belief over competing hypotheses. */
module Reasoning {
  import opened Wrappers
  import opened RealSums
  import opened Information
  import opened Ordering

  datatype ReasoningError =
    | HypothesesMismatch
    | DuplicateEvidence
    | InvalidLikelihood
    | ZeroTotalLikelihood
    | RepeatedSources

  /** A Gaussian prediction of the evidence, and the prior of the hypothesis. */
  datatype Hypothesis = Hypothesis(id: string, prior: real, mean: real, sigma: real)

  /** `density(observed, mean, sigma)`. */
  type Density = (real, real, real) -> real

  ghost predicate PositiveDensity(density: Density) {
    forall x, mean, sigma :: sigma > 0.0 ==> density(x, mean, sigma) > 0.0
  }

  datatype Outcome = AdamWin | SgdWin | PracticalTie

  datatype Evidence = Evidence(id: string, sources: (int, int), comparison: real, outcome: Outcome, group: string)

  datatype BeliefState = BeliefState(
    hypothesisIds: seq<string>,
    prior: seq<real>,
    posterior: seq<real>,
    evidenceIds: seq<string>,
    sequence: nat)

  /** The invariants its constructor checks, with the probabilities summing to exactly one. */
  ghost predicate ValidState(s: BeliefState) {
    && |s.hypothesisIds| == |s.prior| == |s.posterior|
    && IsDistribution(s.prior)
    && IsDistribution(s.posterior)
    && Distinct(s.evidenceIds)
    && s.sequence == |s.evidenceIds|
  }

  datatype BeliefUpdate = BeliefUpdate(
    before: BeliefState,
    evidence: Evidence,
    likelihoods: seq<real>,
    weights: seq<real>,
    normalization: real,
    after: BeliefState)

  predicate IdLess(a: Hypothesis, b: Hypothesis) {
    StringLess(a.id, b.id)
  }

  /** `sorted(hypotheses, key=lambda item: item.hypothesis_id)`. */
  function Ordered(hypotheses: seq<Hypothesis>): (r: seq<Hypothesis>)
    ensures |r| == |hypotheses|
  {
    SortBy(hypotheses, IdLess)
  }

  function HypothesisIds(hypotheses: seq<Hypothesis>): (r: seq<string>)
    ensures |r| == |hypotheses|
  {
    seq(|hypotheses|, i requires 0 <= i < |hypotheses| => hypotheses[i].id)
  }

  /** The likelihood each hypothesis gives the observation. */
  function Likelihoods(density: Density, hypotheses: seq<Hypothesis>, observed: real): (r: seq<real>)
    ensures |r| == |hypotheses|
  {
    seq(|hypotheses|, i requires 0 <= i < |hypotheses| => density(observed, hypotheses[i].mean, hypotheses[i].sigma))
  }

  function Times(w: seq<real>, l: seq<real>): (r: seq<real>)
    requires |w| == |l|
    ensures |r| == |w|
  {
    seq(|w|, i requires 0 <= i < |w| => w[i] * l[i])
  }

  function Normalise(w: seq<real>): (r: seq<real>)
    requires Sum(w) > 0.0
    ensures |r| == |w|
  {
    seq(|w|, i requires 0 <= i < |w| => w[i] / Sum(w))
  }

  /** `BayesianBeliefUpdater.update`. */
  function Update(density: Density, hypotheses: seq<Hypothesis>, state: BeliefState, evidence: Evidence)
    : (r: Result<BeliefUpdate, ReasoningError>)
    requires |state.posterior| == |state.hypothesisIds|
    ensures r.Ok? ==> |r.value.after.posterior| == |r.value.after.hypothesisIds| == |state.hypothesisIds|
  {
    var ordered := Ordered(hypotheses);
    if HypothesisIds(ordered) != state.hypothesisIds then Err(HypothesesMismatch)
    else if evidence.id in state.evidenceIds then Err(DuplicateEvidence)
    else
      var likelihoods := Likelihoods(density, ordered, evidence.comparison);
      var weights := Times(state.posterior, likelihoods);
      if !AllNonNegative(likelihoods) || !AllNonNegative(weights) then Err(InvalidLikelihood)
      else if Sum(weights) <= 0.0 then Err(ZeroTotalLikelihood)
      else
        Ok(BeliefUpdate(state, evidence, likelihoods, weights, Sum(weights),
                        BeliefState(state.hypothesisIds, state.prior, Normalise(weights),
                                    state.evidenceIds + [evidence.id], state.sequence + 1)))
  }

  method UpdateBelief(density: Density, hypotheses: seq<Hypothesis>, state: BeliefState, evidence: Evidence)
    returns (r: Result<BeliefUpdate, ReasoningError>)
    requires |state.posterior| == |state.hypothesisIds|
    ensures r == Update(density, hypotheses, state, evidence)
  {
    var ordered := Ordered(hypotheses);
    if HypothesisIds(ordered) != state.hypothesisIds {
      return Err(HypothesesMismatch);
    }
    if evidence.id in state.evidenceIds {
      return Err(DuplicateEvidence);
    }
    ghost var likelihoods := Likelihoods(density, ordered, evidence.comparison);
    ghost var products := Times(state.posterior, likelihoods);
    var likelihoodValues: seq<real>, weights: seq<real> := [], [];
    for i := 0 to |ordered|
      invariant likelihoodValues == likelihoods[..i] && weights == products[..i]
      invariant AllNonNegative(likelihoodValues) && AllNonNegative(weights)
    {
      var likelihood := density(evidence.comparison, ordered[i].mean, ordered[i].sigma);
      assert likelihood == likelihoods[i];
      if likelihood < 0.0 {
        return Err(InvalidLikelihood);
      }
      var weight := state.posterior[i] * likelihood;
      assert weight == products[i];
      if weight < 0.0 {
        return Err(InvalidLikelihood);
      }
      likelihoodValues := likelihoodValues + [likelihood];
      weights := weights + [weight];
    }
    assert likelihoodValues == likelihoods && weights == products;
    if Sum(weights) <= 0.0 {
      return Err(ZeroTotalLikelihood);
    }
    return Ok(BeliefUpdate(state, evidence, likelihoodValues, weights, Sum(weights),
                           BeliefState(state.hypothesisIds, state.prior, Normalise(weights),
                                       state.evidenceIds + [evidence.id], state.sequence + 1)));
  }

  lemma NormaliseDistribution(w: seq<real>)
    requires |w| > 0 && AllNonNegative(w) && Sum(w) > 0.0
    ensures IsDistribution(Normalise(w))
  {
    DividedBySum(w, Sum(w), Normalise(w));
  }

  /** An update keeps the state's invariants, appends exactly its evidence, and keeps the prior. */
  lemma UpdateKeepsState(density: Density, hypotheses: seq<Hypothesis>, state: BeliefState, evidence: Evidence)
    requires ValidState(state) && Update(density, hypotheses, state, evidence).Ok?
    ensures var u := Update(density, hypotheses, state, evidence).value;
      && ValidState(u.after)
      && u.after.evidenceIds == state.evidenceIds + [evidence.id]
      && u.after.prior == state.prior && u.after.hypothesisIds == state.hypothesisIds
      && u.after.posterior == Normalise(Times(state.posterior, Likelihoods(density, Ordered(hypotheses), evidence.comparison)))
  {
    NormaliseDistribution(Times(state.posterior, Likelihoods(density, Ordered(hypotheses), evidence.comparison)));
  }

  /** With positive densities the only rejections are foreign hypotheses and repeated evidence. */
  lemma UpdateSucceedsIff(density: Density, hypotheses: seq<Hypothesis>, state: BeliefState, evidence: Evidence)
    requires ValidState(state) && PositiveDensity(density)
    requires forall i :: 0 <= i < |hypotheses| ==> hypotheses[i].sigma > 0.0
    ensures Update(density, hypotheses, state, evidence).Ok? <==>
      HypothesisIds(Ordered(hypotheses)) == state.hypothesisIds && evidence.id !in state.evidenceIds
  {
    var ordered := Ordered(hypotheses);
    SortMembers(hypotheses, IdLess);
    forall i | 0 <= i < |ordered| ensures ordered[i].sigma > 0.0 {
      assert ordered[i] in ordered;
    }
    if HypothesisIds(ordered) == state.hypothesisIds {
      PositiveProduct(state.posterior, Likelihoods(density, ordered, evidence.comparison));
    }
  }

  lemma PositiveProduct(p: seq<real>, l: seq<real>)
    requires |p| == |l| && IsDistribution(p)
    requires forall i :: 0 <= i < |l| ==> l[i] > 0.0
    ensures AllNonNegative(Times(p, l)) && Sum(Times(p, l)) > 0.0
  {
    var w := Times(p, l);
    forall i | 0 <= i < |w| ensures w[i] >= 0.0 && (p[i] > 0.0 ==> w[i] > 0.0) {
      ProductSign(p[i], l[i]);
    }
    SumNonNegative(w);
    if forall i :: 0 <= i < |p| ==> p[i] <= 0.0 {
      SumConstant(p, 0.0);
    } else {
      var i :| 0 <= i < |p| && p[i] > 0.0;
      assert w[i] <= Sum(w);
    }
  }

  lemma ProductSign(x: real, y: real)
    requires x >= 0.0 && y > 0.0
    ensures x * y >= 0.0
    ensures x > 0.0 ==> x * y > 0.0
  {
  }

  // ----- many updates -----

  /** All likelihood columns multiplied into the starting weights. */
  function JointWeights(p: seq<real>, columns: seq<seq<real>>): (r: seq<real>)
    requires Rectangular(columns, |p|)
    ensures |r| == |p|
  {
    if |columns| == 0 then p
    else Times(JointWeights(p, columns[..|columns| - 1]), columns[|columns| - 1])
  }

  ghost predicate PositiveColumns(columns: seq<seq<real>>) {
    forall i, j :: 0 <= i < |columns| && 0 <= j < |columns[i]| ==> columns[i][j] > 0.0
  }

  lemma {:induction false} JointWeightsPositive(p: seq<real>, columns: seq<seq<real>>)
    requires Rectangular(columns, |p|) && PositiveColumns(columns) && IsDistribution(p)
    ensures AllNonNegative(JointWeights(p, columns)) && Sum(JointWeights(p, columns)) > 0.0
  {
    if |columns| > 0 {
      var before := JointWeights(p, columns[..|columns| - 1]);
      JointWeightsPositive(p, columns[..|columns| - 1]);
      NormaliseDistribution(before);
      PositiveProduct(Normalise(before), columns[|columns| - 1]);
      TimesScaled(1.0 / Sum(before), before, columns[|columns| - 1]);
      NormaliseAsScaled(before);
      ScaledBack(1.0 / Sum(before), Times(before, columns[|columns| - 1]));
    }
  }

  lemma NormaliseAsScaled(w: seq<real>)
    requires Sum(w) > 0.0
    ensures Normalise(w) == Scaled(1.0 / Sum(w), w)
    ensures 1.0 / Sum(w) > 0.0
  {
    forall i | 0 <= i < |w| ensures Normalise(w)[i] == Scaled(1.0 / Sum(w), w)[i] {
      DivideAsScale(w[i], Sum(w));
    }
    PositiveReciprocal(Sum(w));
  }

  lemma PositiveReciprocal(x: real)
    requires x > 0.0
    ensures 1.0 / x > 0.0
  {
  }

  lemma TimesScaled(k: real, w: seq<real>, l: seq<real>)
    requires |w| == |l|
    ensures Times(Scaled(k, w), l) == Scaled(k, Times(w, l))
  {
    forall i | 0 <= i < |w| ensures Times(Scaled(k, w), l)[i] == Scaled(k, Times(w, l))[i] {
      MulAssociative(k, w[i], l[i]);
    }
  }

  lemma MulAssociative(a: real, b: real, c: real)
    ensures a * b * c == a * (b * c)
  {
  }

  lemma ScaledBack(k: real, w: seq<real>)
    requires k > 0.0 && AllNonNegative(Scaled(k, w)) && Sum(Scaled(k, w)) > 0.0
    ensures AllNonNegative(w) && Sum(w) > 0.0
  {
    SumScaled(k, w);
    forall i | 0 <= i < |w| ensures w[i] >= 0.0 {
      assert Scaled(k, w)[i] == k * w[i] >= 0.0;
      SignBack(k, w[i]);
    }
    SignBack(k, Sum(w));
  }

  lemma SignBack(k: real, x: real)
    requires k > 0.0
    ensures k * x >= 0.0 ==> x >= 0.0
    ensures k * x > 0.0 ==> x > 0.0
  {
  }

  /** Normalising forgets a common positive factor. */
  lemma NormaliseScaled(k: real, w: seq<real>)
    requires k > 0.0 && Sum(w) > 0.0
    ensures Sum(Scaled(k, w)) > 0.0
    ensures Normalise(Scaled(k, w)) == Normalise(w)
  {
    SumScaled(k, w);
    ProductSign(k, Sum(w));
    forall i | 0 <= i < |w| ensures Normalise(Scaled(k, w))[i] == Normalise(w)[i] {
      RatioScaled(k, w[i], Sum(w));
    }
  }

  lemma RatioScaled(k: real, a: real, b: real)
    requires k > 0.0 && b > 0.0
    ensures k * b > 0.0 && (k * a) / (k * b) == a / b
  {
    var x := a / b;
    assert x * b == a;
    assert x * (k * b) == k * a;
  }

  /** Updating a normalised belief is updating the unnormalised one. */
  lemma NormaliseTimes(w: seq<real>, l: seq<real>)
    requires |w| == |l| && Sum(w) > 0.0 && Sum(Times(w, l)) > 0.0
    ensures Sum(Times(Normalise(w), l)) > 0.0
    ensures Normalise(Times(Normalise(w), l)) == Normalise(Times(w, l))
  {
    NormaliseAsScaled(w);
    TimesScaled(1.0 / Sum(w), w, l);
    NormaliseScaled(1.0 / Sum(w), Times(w, l));
  }

  lemma TimesSwap(w: seq<real>, a: seq<real>, b: seq<real>)
    requires |w| == |a| == |b|
    ensures Times(Times(w, a), b) == Times(Times(w, b), a)
  {
    forall i | 0 <= i < |w| ensures Times(Times(w, a), b)[i] == Times(Times(w, b), a)[i] {
      MulSwap(w[i], a[i], b[i]);
    }
  }

  lemma MulSwap(x: real, y: real, z: real)
    ensures x * y * z == x * z * y
  {
  }

  lemma {:induction false} JointPullOut(p: seq<real>, columns: seq<seq<real>>, i: nat)
    requires Rectangular(columns, |p|) && i < |columns|
    ensures Rectangular(Without(columns, i), |p|)
    ensures JointWeights(p, columns) == Times(JointWeights(p, Without(columns, i)), columns[i])
  {
    var n := |columns| - 1;
    if i == n {
      assert Without(columns, i) == columns[..n];
    } else {
      var before, last := columns[..n], columns[n];
      JointPullOut(p, before, i);
      assert Without(columns, i) == Without(before, i) + [last];
      assert Without(columns, i)[..n - 1] == Without(before, i);
      TimesSwap(JointWeights(p, Without(before, i)), before[i], last);
    }
  }

  /** The joint weights do not depend on the order of the evidence. */
  lemma {:induction false} JointReordered(p: seq<real>, a: seq<seq<real>>, b: seq<seq<real>>)
    requires Rectangular(a, |p|) && Rectangular(b, |p|) && multiset(a) == multiset(b)
    ensures JointWeights(p, a) == JointWeights(p, b)
    decreases |a|
  {
    assert |a| == |multiset(a)| == |multiset(b)| == |b|;
    if |a| > 0 {
      var n := |a| - 1;
      assert a[n] in multiset(b);
      var i :| 0 <= i < |b| && b[i] == a[n];
      assert Without(a, n) == a[..n];
      WithoutMultiset(a, n);
      WithoutMultiset(b, i);
      JointPullOut(p, b, i);
      JointReordered(p, a[..n], Without(b, i));
    }
  }
}
