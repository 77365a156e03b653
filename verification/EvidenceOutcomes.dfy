/** The discretised evidence one matched comparison can produce, and the entropy it is expected to
    remove: once as an estimate over all bins, once as an explicit list of outcome branches. */
module EvidenceOutcomes {
  import opened Wrappers
  import opened RealSums
  import opened Information
  import opened Ordering
  import opened Reasoning
  import opened BeliefModels

  const OUTCOME_BINS := 82
  const OUTCOME_GRID_STEP: real := 0.01
  const POSITIVE_INFORMATION_TOLERANCE: real := 0.000000000001
  const PROBABILITY_TOLERANCE: real := 0.000000001
  const MIN_EXPLANATORY_OUTCOME_PROBABILITY: real := 0.000001

  datatype PlanningError =
    | PlanningHypothesesMismatch
    | InvalidPlanningProbabilities
    | InvalidOutcomeTotal
    | NegativeGain
    | InvalidBudget
    | MissingCost(id: string)
    | InvalidCost(id: string)
    | Unregistered(id: string)
    | MissingSnapshot
    | BranchOverBudget
    | NoFeasibleCandidate

  /** The entropy kernel and the Gaussian distribution function. */
  datatype GainLaws = GainLaws(phi: Kernel, cdf: NormalCdf)

  ghost predicate SoundGainLaws(laws: GainLaws) {
    EntropyKernel(laws.phi) && MonotoneCdf(laws.cdf)
  }

  ghost predicate PositiveSigmas(hypotheses: seq<Hypothesis>) {
    forall i :: 0 <= i < |hypotheses| ==> hypotheses[i].sigma > 0.0
  }

  // ----- bin masses -----

  /** The distribution function at the edges -inf, -0.40, -0.39, ..., 0.40, +inf. */
  function EdgeCdf(cdf: NormalCdf, h: Hypothesis, k: nat): real
    requires k <= OUTCOME_BINS
  {
    if k == 0 then 0.0
    else if k == OUTCOME_BINS then 1.0
    else cdf((k as int - 41) as real * OUTCOME_GRID_STEP, h.mean, h.sigma)
  }

  function RawMasses(cdf: NormalCdf, h: Hypothesis): (r: seq<real>)
    ensures |r| == OUTCOME_BINS
  {
    seq(OUTCOME_BINS, k requires 0 <= k < OUTCOME_BINS => Max(0.0, EdgeCdf(cdf, h, k + 1) - EdgeCdf(cdf, h, k)))
  }

  /** `_outcome_bin_masses`. */
  function BinMasses(cdf: NormalCdf, h: Hypothesis): (r: Result<seq<real>, PlanningError>)
    ensures r.Ok? ==> |r.value| == OUTCOME_BINS
  {
    var raw := RawMasses(cdf, h);
    if Sum(raw) <= 0.0 then Err(InvalidOutcomeTotal) else Ok(Normalise(raw))
  }

  lemma EdgesAscend(cdf: NormalCdf, h: Hypothesis, k: nat)
    requires MonotoneCdf(cdf) && h.sigma > 0.0 && k < OUTCOME_BINS
    ensures EdgeCdf(cdf, h, k) <= EdgeCdf(cdf, h, k + 1)
  {
    var x, y := (k as int - 41) as real * OUTCOME_GRID_STEP, (k as int - 40) as real * OUTCOME_GRID_STEP;
    assert CdfOrderedAt(cdf, x, y, h.mean, h.sigma);
  }

  lemma {:induction false} MassesTelescope(cdf: NormalCdf, h: Hypothesis, n: nat)
    requires MonotoneCdf(cdf) && h.sigma > 0.0 && n <= OUTCOME_BINS
    ensures Sum(RawMasses(cdf, h)[..n]) == EdgeCdf(cdf, h, n)
  {
    if n > 0 {
      MassesTelescope(cdf, h, n - 1);
      SumPrefix(RawMasses(cdf, h), n - 1);
      EdgesAscend(cdf, h, n - 1);
    }
  }

  /** For every monotone distribution function the masses are a distribution as they are: neither the
      clamp at zero nor the division by the total changes them. */
  lemma MassesAreDistribution(cdf: NormalCdf, h: Hypothesis)
    requires MonotoneCdf(cdf) && h.sigma > 0.0
    ensures BinMasses(cdf, h) == Ok(RawMasses(cdf, h))
    ensures IsDistribution(RawMasses(cdf, h))
    ensures forall k :: 0 <= k < OUTCOME_BINS ==>
      RawMasses(cdf, h)[k] == EdgeCdf(cdf, h, k + 1) - EdgeCdf(cdf, h, k)
  {
    hide Sum, MonotoneCdf, Normalise, RawMasses, EdgeCdf;
    var raw := RawMasses(cdf, h);
    forall k | 0 <= k < OUTCOME_BINS
      ensures raw[k] == EdgeCdf(cdf, h, k + 1) - EdgeCdf(cdf, h, k)
    {
      MassAt(cdf, h, k);
    }
    forall k | 0 <= k < OUTCOME_BINS ensures raw[k] >= 0.0 {
      MassAt(cdf, h, k);
    }
    MassesTelescope(cdf, h, OUTCOME_BINS);
    LastEdge(cdf, h);
    assert raw[..OUTCOME_BINS] == raw;
    NormaliseByOne(raw);
  }

  lemma MassAt(cdf: NormalCdf, h: Hypothesis, k: nat)
    requires MonotoneCdf(cdf) && h.sigma > 0.0 && k < OUTCOME_BINS
    ensures RawMasses(cdf, h)[k] == EdgeCdf(cdf, h, k + 1) - EdgeCdf(cdf, h, k) >= 0.0
  {
    hide EdgeCdf, MonotoneCdf;
    EdgesAscend(cdf, h, k);
  }

  lemma LastEdge(cdf: NormalCdf, h: Hypothesis)
    ensures EdgeCdf(cdf, h, OUTCOME_BINS) == 1.0
  {
  }

  lemma NormaliseByOne(w: seq<real>)
    requires Sum(w) == 1.0
    ensures Normalise(w) == w
  {
    forall k | 0 <= k < |w| ensures Normalise(w)[k] == w[k] {
      DivideByOne(w[k]);
    }
  }

  lemma DivideByOne(x: real)
    ensures x / 1.0 == x
  {
  }

  /** One row of masses per hypothesis. */
  function MassTable(cdf: NormalCdf, hypotheses: seq<Hypothesis>): (r: Result<seq<seq<real>>, PlanningError>)
    ensures r.Ok? ==> |r.value| == |hypotheses| && Rectangular(r.value, OUTCOME_BINS)
  {
    if |hypotheses| == 0 then Ok([])
    else
      var rest :- MassTable(cdf, hypotheses[..|hypotheses| - 1]);
      var row :- BinMasses(cdf, hypotheses[|hypotheses| - 1]);
      Ok(rest + [row])
  }

  lemma {:induction false} MassTableStochastic(cdf: NormalCdf, hypotheses: seq<Hypothesis>)
    requires MonotoneCdf(cdf) && PositiveSigmas(hypotheses)
    ensures MassTable(cdf, hypotheses).Ok?
    ensures RowStochastic(MassTable(cdf, hypotheses).value, OUTCOME_BINS)
  {
    hide RawMasses, BinMasses;
    if |hypotheses| > 0 {
      MassTableStochastic(cdf, hypotheses[..|hypotheses| - 1]);
      MassesAreDistribution(cdf, hypotheses[|hypotheses| - 1]);
    }
  }

  lemma OrderedSigmas(hypotheses: seq<Hypothesis>)
    requires PositiveSigmas(hypotheses)
    ensures PositiveSigmas(Ordered(hypotheses))
  {
    var ordered := Ordered(hypotheses);
    SortMembers(hypotheses, IdLess);
    forall i | 0 <= i < |ordered| ensures ordered[i].sigma > 0.0 {
      assert ordered[i] in ordered;
    }
  }

  // ----- the outcome that favours each hypothesis most -----

  datatype Best = Best(probability: real, bin: nat)

  /** The first most probable of the first `n` bins. */
  function MostProbable(p: seq<real>, m: seq<seq<real>>, width: nat, n: nat): (r: Best)
    requires Fits(p, m, width) && n <= width
  {
    if n == 0 then Best(-1.0, 0)
    else
      var best := MostProbable(p, m, width, n - 1);
      var q := Predictive(p, m, width, n - 1);
      if q > 0.0 && q > best.probability then Best(q, n - 1) else best
  }

  /** The explanatory bin among the first `n` with the first largest posterior of hypothesis `h`. */
  function MostFavourable(p: seq<real>, m: seq<seq<real>>, width: nat, h: nat, n: nat): Option<Best>
    requires Fits(p, m, width) && h < |p| && n <= width
  {
    if n == 0 then None
    else
      var best := MostFavourable(p, m, width, h, n - 1);
      var q := Predictive(p, m, width, n - 1);
      if q <= 0.0 || q < MIN_EXPLANATORY_OUTCOME_PROBABILITY then best
      else
        var x := Posterior(p, m, width, n - 1)[h];
        if best.None? || x > best.value.probability then Some(Best(x, n - 1)) else best
  }

  predicate Explanatory(p: seq<real>, m: seq<seq<real>>, width: nat, o: nat)
    requires Fits(p, m, width) && o < width
  {
    Predictive(p, m, width, o) > 0.0 && Predictive(p, m, width, o) >= MIN_EXPLANATORY_OUTCOME_PROBABILITY
  }

  /** The loop's running maximum is the first explanatory bin where the posterior is greatest. */
  lemma {:induction false} MostFavourableIsFirstMaximum(p: seq<real>, m: seq<seq<real>>, width: nat, h: nat, n: nat)
    requires Fits(p, m, width) && h < |p| && n <= width
    ensures var best := MostFavourable(p, m, width, h, n);
      && (best.None? <==> forall o :: 0 <= o < n ==> !Explanatory(p, m, width, o))
      && (best.Some? ==>
            && best.value.bin < n && Explanatory(p, m, width, best.value.bin)
            && best.value.probability == Posterior(p, m, width, best.value.bin)[h]
            && (forall o :: 0 <= o < n && Explanatory(p, m, width, o) ==>
                  Posterior(p, m, width, o)[h] <= best.value.probability
                  && (o < best.value.bin ==> Posterior(p, m, width, o)[h] < best.value.probability)))
  {
    hide Predictive, Posterior;
    if n > 0 {
      MostFavourableIsFirstMaximum(p, m, width, h, n - 1);
      if Explanatory(p, m, width, n - 1) {
        assert MostFavourable(p, m, width, h, n).Some?;
      } else {
        assert MostFavourable(p, m, width, h, n) == MostFavourable(p, m, width, h, n - 1);
      }
    }
  }

  /** Some bin always explains: with 82 bins one has probability above the explanatory minimum. */
  lemma SomeBinExplains(p: seq<real>, m: seq<seq<real>>)
    requires Fits(p, m, OUTCOME_BINS) && RowStochastic(m, OUTCOME_BINS) && IsDistribution(p)
    ensures exists o :: 0 <= o < OUTCOME_BINS && Explanatory(p, m, OUTCOME_BINS, o)
  {
    PredictiveTotal(p, m, OUTCOME_BINS);
    var q := Predictives(p, m, OUTCOME_BINS);
    if forall o :: 0 <= o < OUTCOME_BINS ==> q[o] < MIN_EXPLANATORY_OUTCOME_PROBABILITY {
      var cap := seq(OUTCOME_BINS, o => MIN_EXPLANATORY_OUTCOME_PROBABILITY);
      SumMonotone(q, cap);
      SumConstant(cap, MIN_EXPLANATORY_OUTCOME_PROBABILITY);
      assert false;
    } else {
      var o :| 0 <= o < OUTCOME_BINS && q[o] >= MIN_EXPLANATORY_OUTCOME_PROBABILITY;
      assert Explanatory(p, m, OUTCOME_BINS, o);
    }
  }

  // ----- the estimate -----

  datatype Context = Context(hypothesisId: string, posterior: real, bin: nat, posteriorIfObserved: real)

  datatype Estimate = Estimate(priorEntropy: real, expectedEntropy: real, gain: real, contexts: seq<Context>)

  function ContextFor(h: Hypothesis, posterior: real, best: Option<Best>, default: nat): Context {
    if best.None? then Context(h.id, posterior, default, 0.0)
    else Context(h.id, posterior, best.value.bin, best.value.probability)
  }

  function Contexts(hypotheses: seq<Hypothesis>, p: seq<real>, best: seq<Option<Best>>, default: nat): (r: seq<Context>)
    requires |hypotheses| == |p| == |best|
    ensures |r| == |p|
  {
    seq(|p|, h requires 0 <= h < |p| => ContextFor(hypotheses[h], p[h], best[h], default))
  }

  function AllFavourable(p: seq<real>, m: seq<seq<real>>, width: nat, n: nat): (r: seq<Option<Best>>)
    requires Fits(p, m, width) && n <= width
    ensures |r| == |p|
  {
    seq(|p|, h requires 0 <= h < |p| => MostFavourable(p, m, width, h, n))
  }

  /** `expected_information_gain`. */
  function EstimateGain(laws: GainLaws, hypotheses: seq<Hypothesis>, state: BeliefState): Result<Estimate, PlanningError>
    requires |state.posterior| == |state.hypothesisIds|
  {
    var ordered, p := Ordered(hypotheses), state.posterior;
    if HypothesisIds(ordered) != state.hypothesisIds then Err(PlanningHypothesesMismatch)
    else
      var m :- MassTable(laws.cdf, ordered);
      var prior, expected := Entropy(laws.phi, p), ExpectedEntropy(laws.phi, p, m, OUTCOME_BINS);
      if prior - expected < -POSITIVE_INFORMATION_TOLERANCE then Err(NegativeGain)
      else
        var gain := Max(0.0, prior - expected);
        Ok(Estimate(prior, prior - gain, gain,
                    Contexts(ordered, p, AllFavourable(p, m, OUTCOME_BINS, OUTCOME_BINS),
                             MostProbable(p, m, OUTCOME_BINS, OUTCOME_BINS).bin)))
  }

  /** The loop over the bins: expected entropy, most favourable outcomes and most probable bin. */
  method AccumulateBins(phi: Kernel, p: seq<real>, m: seq<seq<real>>)
    returns (expected: real, best: seq<Option<Best>>, mostProbable: nat)
    requires Fits(p, m, OUTCOME_BINS)
    ensures expected == ExpectedEntropy(phi, p, m, OUTCOME_BINS)
    ensures best == AllFavourable(p, m, OUTCOME_BINS, OUTCOME_BINS)
    ensures mostProbable == MostProbable(p, m, OUTCOME_BINS, OUTCOME_BINS).bin
  {
    hide Predictive, Posterior, Entropy;
    expected, best := 0.0, seq(|p|, h => None);
    mostProbable := 0;
    var greatest := -1.0;
    ghost var terms := OutcomeTerms(phi, p, m, OUTCOME_BINS);
    for o := 0 to OUTCOME_BINS
      invariant expected == Sum(terms[..o])
      invariant best == AllFavourable(p, m, OUTCOME_BINS, o)
      invariant Best(greatest, mostProbable) == MostProbable(p, m, OUTCOME_BINS, o)
    {
      SumPrefix(terms, o);
      var q := Predictive(p, m, OUTCOME_BINS, o);
      if q > 0.0 {
        var posterior := Posterior(p, m, OUTCOME_BINS, o);
        expected := expected + q * Entropy(phi, posterior);
        if q > greatest {
          mostProbable, greatest := o, q;
        }
        if q >= MIN_EXPLANATORY_OUTCOME_PROBABILITY {
          best := Improved(best, posterior, o);
        }
      }
    }
    assert terms[..OUTCOME_BINS] == terms;
  }

  method ExpectedInformationGain(laws: GainLaws, hypotheses: seq<Hypothesis>, state: BeliefState)
    returns (r: Result<Estimate, PlanningError>)
    requires |state.posterior| == |state.hypothesisIds|
    ensures r == EstimateGain(laws, hypotheses, state)
  {
    hide Ordered, MassTable, Predictive, Posterior, Entropy;
    var ordered, p := Ordered(hypotheses), state.posterior;
    if HypothesisIds(ordered) != state.hypothesisIds {
      return Err(PlanningHypothesesMismatch);
    }
    var m :- MassTable(laws.cdf, ordered);
    var prior := Entropy(laws.phi, p);
    var expected, best, mostProbable := AccumulateBins(laws.phi, p, m);
    if prior - expected < -POSITIVE_INFORMATION_TOLERANCE {
      return Err(NegativeGain);
    }
    var gain := Max(0.0, prior - expected);
    return Ok(Estimate(prior, prior - gain, gain, Contexts(ordered, p, best, mostProbable)));
  }

  /** The inner loop: each hypothesis keeps its old best unless this bin is strictly better. */
  function Improved(best: seq<Option<Best>>, posterior: seq<real>, bin: nat): (r: seq<Option<Best>>)
    requires |best| == |posterior|
    ensures |r| == |best|
  {
    seq(|best|, h requires 0 <= h < |best| =>
      if best[h].None? || posterior[h] > best[h].value.probability then Some(Best(posterior[h], bin)) else best[h])
  }

  /** In exact arithmetic the estimate always exists, its gain is the mutual information, the clamp
      and the negative-gain error never act, and every hypothesis has an explanatory outcome. */
  lemma EstimateExact(laws: GainLaws, hypotheses: seq<Hypothesis>, state: BeliefState)
    requires SoundGainLaws(laws) && PositiveSigmas(hypotheses) && ValidState(state)
    requires HypothesisIds(Ordered(hypotheses)) == state.hypothesisIds
    ensures EstimateGain(laws, hypotheses, state).Ok? && MassTable(laws.cdf, Ordered(hypotheses)).Ok?
    ensures var e, m := EstimateGain(laws, hypotheses, state).value, MassTable(laws.cdf, Ordered(hypotheses)).value;
      && e.priorEntropy == Entropy(laws.phi, state.posterior)
      && e.expectedEntropy == ExpectedEntropy(laws.phi, state.posterior, m, OUTCOME_BINS)
      && e.gain == e.priorEntropy - e.expectedEntropy
      && 0.0 <= e.gain <= e.priorEntropy
      && forall h :: 0 <= h < |e.contexts| ==>
           e.contexts[h].bin < OUTCOME_BINS && Explanatory(state.posterior, m, OUTCOME_BINS, e.contexts[h].bin)
  {
    hide Entropy, ExpectedEntropy, Predictive, Posterior, EntropyKernel;
    OrderedSigmas(hypotheses);
    MassTableStochastic(laws.cdf, Ordered(hypotheses));
    var m, p := MassTable(laws.cdf, Ordered(hypotheses)).value, state.posterior;
    InformationBounds(laws.phi, p, m, OUTCOME_BINS);
    SomeBinExplains(p, m);
    forall h | 0 <= h < |p| ensures MostFavourable(p, m, OUTCOME_BINS, h, OUTCOME_BINS).Some?
      && MostFavourable(p, m, OUTCOME_BINS, h, OUTCOME_BINS).value.bin < OUTCOME_BINS
      && Explanatory(p, m, OUTCOME_BINS, MostFavourable(p, m, OUTCOME_BINS, h, OUTCOME_BINS).value.bin)
    {
      MostFavourableIsFirstMaximum(p, m, OUTCOME_BINS, h, OUTCOME_BINS);
    }
  }

  // ----- outcome branches -----

  /** One simulated outcome; no bin stands for the branch in which no evidence is produced. */
  datatype OutcomeBranch = OutcomeBranch(bin: Option<nat>, probability: real, posterior: seq<real>, entropy: real)

  datatype Distribution = Distribution(priorEntropy: real, expectedEntropy: real, gain: real, branches: seq<OutcomeBranch>)

  function Probabilities(branches: seq<OutcomeBranch>): (r: seq<real>)
    ensures |r| == |branches|
  {
    seq(|branches|, i requires 0 <= i < |branches| => branches[i].probability)
  }

  function EntropyShares(branches: seq<OutcomeBranch>): (r: seq<real>)
    ensures |r| == |branches|
  {
    seq(|branches|, i requires 0 <= i < |branches| => branches[i].probability * branches[i].entropy)
  }

  /** The branches of the possible bins among the first `n`. */
  function BranchesUpTo(phi: Kernel, p: seq<real>, m: seq<seq<real>>, width: nat, total: real, n: nat): seq<OutcomeBranch>
    requires Fits(p, m, width) && total > 0.0 && n <= width
  {
    if n == 0 then []
    else
      var rest := BranchesUpTo(phi, p, m, width, total, n - 1);
      var q := Predictive(p, m, width, n - 1);
      if q <= 0.0 then rest
      else
        var posterior := Posterior(p, m, width, n - 1);
        rest + [OutcomeBranch(Some(n - 1), q / total, posterior, Entropy(phi, posterior))]
  }

  predicate CloseToOne(x: real) {
    -PROBABILITY_TOLERANCE <= x - 1.0 <= PROBABILITY_TOLERANCE
  }

  /** The checks and the gain once the branches are known. */
  function Summarised(phi: Kernel, p: seq<real>, branches: seq<OutcomeBranch>): Result<Distribution, PlanningError> {
    var prior, expected := Entropy(phi, p), Sum(EntropyShares(branches));
    if !CloseToOne(Sum(Probabilities(branches))) then Err(InvalidOutcomeTotal)
    else if prior - expected < -POSITIVE_INFORMATION_TOLERANCE then Err(NegativeGain)
    else
      var gain := Max(0.0, prior - expected);
      Ok(Distribution(prior, prior - gain, gain, branches))
  }

  /** `discretized_gaussian_evidence_outcomes`. */
  function DiscretizedOutcomes(laws: GainLaws, hypotheses: seq<Hypothesis>, p: seq<real>): Result<Distribution, PlanningError> {
    var ordered := Ordered(hypotheses);
    if |p| != |ordered| then Err(PlanningHypothesesMismatch)
    else if !AllNonNegative(p) || !CloseToOne(Sum(p)) then Err(InvalidPlanningProbabilities)
    else
      var m :- MassTable(laws.cdf, ordered);
      var total := Sum(Predictives(p, m, OUTCOME_BINS));
      if total <= 0.0 then Err(InvalidOutcomeTotal)
      else Summarised(laws.phi, p, BranchesUpTo(laws.phi, p, m, OUTCOME_BINS, total, OUTCOME_BINS))
  }

  method EnumerateOutcomes(laws: GainLaws, hypotheses: seq<Hypothesis>, p: seq<real>)
    returns (r: Result<Distribution, PlanningError>)
    ensures r == DiscretizedOutcomes(laws, hypotheses, p)
  {
    hide Ordered, MassTable, Predictive, Posterior, Entropy;
    var ordered := Ordered(hypotheses);
    if |p| != |ordered| {
      return Err(PlanningHypothesesMismatch);
    }
    if !AllNonNegative(p) || !CloseToOne(Sum(p)) {
      return Err(InvalidPlanningProbabilities);
    }
    var m :- MassTable(laws.cdf, ordered);
    var raw := Predictives(p, m, OUTCOME_BINS);
    var total := Sum(raw);
    if total <= 0.0 {
      return Err(InvalidOutcomeTotal);
    }
    var branches: seq<OutcomeBranch> := [];
    for o := 0 to OUTCOME_BINS
      invariant branches == BranchesUpTo(laws.phi, p, m, OUTCOME_BINS, total, o)
    {
      if raw[o] > 0.0 {
        var posterior := Posterior(p, m, OUTCOME_BINS, o);
        branches := branches + [OutcomeBranch(Some(o), raw[o] / total, posterior, Entropy(laws.phi, posterior))];
      }
    }
    return Summarised(laws.phi, p, branches);
  }

  /** A list of branches that a planner can weigh: their probabilities and posteriors are
      distributions, and each carries the entropy of its posterior. */
  ghost predicate SoundBranches(phi: Kernel, size: nat, branches: seq<OutcomeBranch>) {
    && AllNonNegative(Probabilities(branches)) && Sum(Probabilities(branches)) == 1.0
    && forall i :: 0 <= i < |branches| ==> SoundBranch(phi, size, branches[i])
  }

  ghost predicate SoundBranch(phi: Kernel, size: nat, b: OutcomeBranch) {
    && b.probability > 0.0
    && |b.posterior| == size && IsDistribution(b.posterior)
    && b.entropy == Entropy(phi, b.posterior)
  }

  lemma {:induction false} BranchSums(phi: Kernel, p: seq<real>, m: seq<seq<real>>, width: nat, n: nat)
    requires Fits(p, m, width) && RowStochastic(m, width) && IsDistribution(p) && n <= width
    ensures var b := BranchesUpTo(phi, p, m, width, 1.0, n);
      && Sum(Probabilities(b)) == Sum(Predictives(p, m, width)[..n])
      && Sum(EntropyShares(b)) == Sum(OutcomeTerms(phi, p, m, width)[..n])
      && forall i :: 0 <= i < |b| ==> SoundBranch(phi, |p|, b[i])
  {
    hide Predictive, Posterior, Entropy, Sum, Probabilities, EntropyShares;
    if n == 0 {
      assert Probabilities([]) == [] && EntropyShares([]) == [];
    } else {
      BranchSums(phi, p, m, width, n - 1);
      var rest, b := BranchesUpTo(phi, p, m, width, 1.0, n - 1), BranchesUpTo(phi, p, m, width, 1.0, n);
      SumPrefix(Predictives(p, m, width), n - 1);
      SumPrefix(OutcomeTerms(phi, p, m, width), n - 1);
      JointNonNegative(p, m, width, n - 1);
      DivideByOne(Predictive(p, m, width, n - 1));
      if Predictive(p, m, width, n - 1) > 0.0 {
        PosteriorDistribution(p, m, width, n - 1);
        AppendBranch(rest, b[|rest|]);
      }
    }
  }

  lemma AppendBranch(branches: seq<OutcomeBranch>, b: OutcomeBranch)
    ensures Sum(Probabilities(branches + [b])) == Sum(Probabilities(branches)) + b.probability
    ensures Sum(EntropyShares(branches + [b])) == Sum(EntropyShares(branches)) + b.probability * b.entropy
  {
    hide Sum;
    assert Probabilities(branches + [b]) == Probabilities(branches) + [b.probability];
    SumAppend(Probabilities(branches), b.probability);
    var all := branches + [b];
    forall i | 0 <= i < |all|
      ensures EntropyShares(all)[i] == (EntropyShares(branches) + [b.probability * b.entropy])[i]
    {
      if i < |branches| {
        assert all[i] == branches[i];
      }
    }
    assert EntropyShares(all) == EntropyShares(branches) + [b.probability * b.entropy];
    SumAppend(EntropyShares(branches), b.probability * b.entropy);
  }

  /** In exact arithmetic the enumeration always succeeds, its branches are sound, and its gain is the
      mutual information of the outcome, between zero and the current entropy. */
  lemma OutcomesExact(laws: GainLaws, hypotheses: seq<Hypothesis>, p: seq<real>)
    requires SoundGainLaws(laws) && PositiveSigmas(hypotheses) && IsDistribution(p) && |p| == |hypotheses|
    ensures DiscretizedOutcomes(laws, hypotheses, p).Ok? && MassTable(laws.cdf, Ordered(hypotheses)).Ok?
    ensures var d, m := DiscretizedOutcomes(laws, hypotheses, p).value, MassTable(laws.cdf, Ordered(hypotheses)).value;
      && SoundBranches(laws.phi, |p|, d.branches)
      && d.priorEntropy == Entropy(laws.phi, p)
      && d.expectedEntropy == Sum(EntropyShares(d.branches)) == ExpectedEntropy(laws.phi, p, m, OUTCOME_BINS)
      && d.gain == d.priorEntropy - d.expectedEntropy
      && 0.0 <= d.gain <= d.priorEntropy
  {
    hide Entropy, Predictive, Posterior, EntropyKernel, MonotoneCdf, Ordered, MassTable;
    OrderedSigmas(hypotheses);
    MassTableStochastic(laws.cdf, Ordered(hypotheses));
    var m := MassTable(laws.cdf, Ordered(hypotheses)).value;
    PredictiveTotal(p, m, OUTCOME_BINS);
    BranchSums(laws.phi, p, m, OUTCOME_BINS, OUTCOME_BINS);
    assert Predictives(p, m, OUTCOME_BINS)[..OUTCOME_BINS] == Predictives(p, m, OUTCOME_BINS);
    assert OutcomeTerms(laws.phi, p, m, OUTCOME_BINS)[..OUTCOME_BINS] == OutcomeTerms(laws.phi, p, m, OUTCOME_BINS);
    InformationBounds(laws.phi, p, m, OUTCOME_BINS);
  }

  /** The two computations of the gain agree. */
  lemma GainsAgree(laws: GainLaws, hypotheses: seq<Hypothesis>, state: BeliefState)
    requires SoundGainLaws(laws) && PositiveSigmas(hypotheses) && ValidState(state)
    requires HypothesisIds(Ordered(hypotheses)) == state.hypothesisIds
    ensures EstimateGain(laws, hypotheses, state).Ok? && DiscretizedOutcomes(laws, hypotheses, state.posterior).Ok?
    ensures EstimateGain(laws, hypotheses, state).value.gain
         == DiscretizedOutcomes(laws, hypotheses, state.posterior).value.gain
  {
    hide DiscretizedOutcomes, EstimateGain, Ordered, SoundGainLaws, Entropy, ExpectedEntropy;
    assert |hypotheses| == |state.posterior|;
    EstimateExact(laws, hypotheses, state);
    OutcomesExact(laws, hypotheses, state.posterior);
  }
}
