/** What the gain a planner weighs means: the mutual information of the belief and the bin an observation
    falls in, from the edges of the bins and the hypotheses' distribution functions alone. */
module PlannedGain {
  import opened Wrappers
  import opened RealSums
  import opened Information
  import opened BayesMeaning
  import opened Ordering
  import opened Reasoning
  import opened BeliefModels
  import opened EvidenceOutcomes

  /** The probability of an observation below the upper edge of bin `k`: -0.40, -0.39, ..., 0.40, and no edge
      above the last bin. */
  function Below(cdf: NormalCdf, h: Hypothesis, k: nat): real {
    if k >= 81 then 1.0 else cdf(-0.40 + k as real * 0.01, h.mean, h.sigma)
  }

  /** The probability of bin `k` under a hypothesis. */
  function BinChance(cdf: NormalCdf, h: Hypothesis, k: nat): real {
    if k == 0 then Below(cdf, h, 0) else Below(cdf, h, k) - Below(cdf, h, k - 1)
  }

  ghost predicate ChancesOf(cdf: NormalCdf, hypotheses: seq<Hypothesis>, m: seq<seq<real>>) {
    && |m| == |hypotheses| && Rectangular(m, 82)
    && (forall h, k :: 0 <= h < |m| && 0 <= k < 82 ==> m[h][k] == BinChance(cdf, hypotheses[h], k))
  }

  lemma EdgeIsBelow(cdf: NormalCdf, h: Hypothesis, k: nat)
    requires k <= 82
    ensures k > 0 ==> EdgeCdf(cdf, h, k) == Below(cdf, h, k - 1)
    ensures k == 0 ==> EdgeCdf(cdf, h, k) == 0.0
  {
    if 0 < k < 82 {
      assert (k as int - 41) as real * OUTCOME_GRID_STEP == -0.40 + (k - 1) as real * 0.01;
    }
  }

  /** Every row of the mass table holds the bin probabilities of its hypothesis. */
  lemma {:induction false} MassTableMeaning(cdf: NormalCdf, hypotheses: seq<Hypothesis>)
    requires MonotoneCdf(cdf) && PositiveSigmas(hypotheses)
    ensures MassTable(cdf, hypotheses).Ok? && RowStochastic(MassTable(cdf, hypotheses).value, 82)
    ensures ChancesOf(cdf, hypotheses, MassTable(cdf, hypotheses).value)
  {
    hide RawMasses, BinMasses, EdgeCdf, Below, MonotoneCdf, IsDistribution;
    MassTableStochastic(cdf, hypotheses);
    if |hypotheses| > 0 {
      var n := |hypotheses| - 1;
      MassTableMeaning(cdf, hypotheses[..n]);
      MassesAreDistribution(cdf, hypotheses[n]);
      forall k: nat | k < 82 ensures RawMasses(cdf, hypotheses[n])[k] == BinChance(cdf, hypotheses[n], k) {
        EdgeIsBelow(cdf, hypotheses[n], k);
        EdgeIsBelow(cdf, hypotheses[n], k + 1);
      }
    }
  }

  /** `gain` is the mutual information of the belief `p` over the hypotheses in identifier order and the bin
      of one observation, whatever bin probabilities and Bayes table are taken for theirs. */
  ghost predicate IsExpectedGain(laws: GainLaws, hypotheses: seq<Hypothesis>, p: seq<real>, gain: real) {
    && |p| == |hypotheses|
    && forall m, chance, after :: ChancesOf(laws.cdf, Ordered(hypotheses), m) && BayesTable(p, m, 82, chance, after) ==>
         gain == MutualInformation(laws.phi, p, chance, after)
  }

  /** Only one number is. */
  lemma ExpectedGainUnique(laws: GainLaws, hypotheses: seq<Hypothesis>, p: seq<real>, x: real, y: real)
    requires MonotoneCdf(laws.cdf) && PositiveSigmas(hypotheses) && AllNonNegative(p)
    requires IsExpectedGain(laws, hypotheses, p, x) && IsExpectedGain(laws, hypotheses, p, y)
    ensures x == y
  {
    hide ChancesOf, BayesTable;
    OrderedSigmas(hypotheses);
    MassTableMeaning(laws.cdf, Ordered(hypotheses));
    var m := MassTable(laws.cdf, Ordered(hypotheses)).value;
    var chance, after := BayesTableExists(p, m, 82);
  }

  lemma ChancesUnique(cdf: NormalCdf, hypotheses: seq<Hypothesis>, m: seq<seq<real>>, n: seq<seq<real>>)
    requires ChancesOf(cdf, hypotheses, m) && ChancesOf(cdf, hypotheses, n)
    ensures m == n
  {
    forall h | 0 <= h < |m| ensures m[h] == n[h] {
    }
  }

  lemma SoundLaws(laws: GainLaws)
    requires SoundGainLaws(laws)
    ensures EntropyKernel(laws.phi) && MonotoneCdf(laws.cdf)
  {
  }

  lemma EntropyGainMeaning(laws: GainLaws, hypotheses: seq<Hypothesis>, p: seq<real>)
    requires SoundGainLaws(laws) && PositiveSigmas(hypotheses) && IsDistribution(p) && |p| == |hypotheses|
    ensures MassTable(laws.cdf, Ordered(hypotheses)).Ok?
    ensures IsExpectedGain(laws, hypotheses, p,
              Entropy(laws.phi, p) - ExpectedEntropy(laws.phi, p, MassTable(laws.cdf, Ordered(hypotheses)).value, 82))
  {
    hide Entropy, ExpectedEntropy, BayesAt, MutualInformation, BinChance, IsDistribution, RowStochastic, SoundGainLaws;
    OrderedSigmas(hypotheses);
    SoundLaws(laws);
    MassTableMeaning(laws.cdf, Ordered(hypotheses));
    var m := MassTable(laws.cdf, Ordered(hypotheses)).value;
    forall n, chance, after | ChancesOf(laws.cdf, Ordered(hypotheses), n) && BayesTable(p, n, 82, chance, after)
      ensures Entropy(laws.phi, p) - ExpectedEntropy(laws.phi, p, m, 82) == MutualInformation(laws.phi, p, chance, after)
    {
      ChancesUnique(laws.cdf, Ordered(hypotheses), m, n);
      GainIsMutualInformation(laws.phi, p, m, 82, chance, after);
    }
  }

  /** The gain of an estimate, and that of an enumeration of the outcomes. */
  lemma EstimateMeaning(laws: GainLaws, hypotheses: seq<Hypothesis>, state: BeliefState)
    requires SoundGainLaws(laws) && PositiveSigmas(hypotheses) && ValidState(state)
    requires HypothesisIds(Ordered(hypotheses)) == state.hypothesisIds
    ensures EstimateGain(laws, hypotheses, state).Ok?
    ensures IsExpectedGain(laws, hypotheses, state.posterior, EstimateGain(laws, hypotheses, state).value.gain)
  {
    hide EstimateGain, IsExpectedGain, Entropy, ExpectedEntropy, Ordered, SoundGainLaws;
    assert |hypotheses| == |state.posterior|;
    EstimateExact(laws, hypotheses, state);
    EntropyGainMeaning(laws, hypotheses, state.posterior);
  }

  lemma OutcomesMeaning(laws: GainLaws, hypotheses: seq<Hypothesis>, p: seq<real>)
    requires SoundGainLaws(laws) && PositiveSigmas(hypotheses) && IsDistribution(p) && |p| == |hypotheses|
    ensures DiscretizedOutcomes(laws, hypotheses, p).Ok?
    ensures IsExpectedGain(laws, hypotheses, p, DiscretizedOutcomes(laws, hypotheses, p).value.gain)
  {
    hide DiscretizedOutcomes, IsExpectedGain, Entropy, ExpectedEntropy, Ordered, SoundGainLaws;
    OutcomesExact(laws, hypotheses, p);
    EntropyGainMeaning(laws, hypotheses, p);
  }

  // ----- the branches -----

  /** A branch for a bin: its probability, the belief after an observation in it, and the entropy left. */
  ghost predicate BranchOfBin(phi: Kernel, p: seq<real>, m: seq<seq<real>>, b: OutcomeBranch)
    requires Fits(p, m, 82)
  {
    && b.bin.Some? && b.bin.value < 82 && b.probability > 0.0
    && BayesAt(p, m, 82, b.bin.value, b.probability, b.posterior)
    && b.entropy == Sum(Applied(phi, b.posterior))
  }

  /** Every possible bin has its branch, and the branches are in the order of their bins. */
  ghost predicate BranchesOfBins(phi: Kernel, p: seq<real>, m: seq<seq<real>>, branches: seq<OutcomeBranch>, n: nat)
    requires Fits(p, m, 82) && n <= 82
  {
    && (forall i :: 0 <= i < |branches| ==> BranchOfBin(phi, p, m, branches[i]) && branches[i].bin.value < n)
    && (forall i, j :: 0 <= i < j < |branches| ==> branches[i].bin.value < branches[j].bin.value)
    && (forall k: nat :: k < n && Sum(Shares(p, m, 82, k)) > 0.0 ==> HasBranch(branches, k))
  }

  predicate HasBranch(branches: seq<OutcomeBranch>, k: nat) {
    exists i :: 0 <= i < |branches| && branches[i].bin == Some(k)
  }

  lemma {:induction false} BranchesMeaning(phi: Kernel, p: seq<real>, m: seq<seq<real>>, n: nat)
    requires EntropyKernel(phi) && Fits(p, m, 82) && RowStochastic(m, 82) && IsDistribution(p) && n <= 82
    ensures BranchesOfBins(phi, p, m, BranchesUpTo(phi, p, m, 82, 1.0, n), n)
  {
    hide Predictive, Posterior, Entropy, BranchOfBin, Shares, EntropyKernel, RowStochastic, IsDistribution, BranchesOfBins;
    if n == 0 {
      NoBranches(phi, p, m);
    } else {
      BranchesMeaning(phi, p, m, n - 1);
      SharesWeighted(p, m, 82, n - 1);
      var before, branches := BranchesUpTo(phi, p, m, 82, 1.0, n - 1), BranchesUpTo(phi, p, m, 82, 1.0, n);
      if Predictive(p, m, 82, n - 1) > 0.0 {
        LastBranchMeaning(phi, p, m, n);
        assert branches == before + [branches[|before|]];
        OneBranchMore(phi, p, m, before, branches[|before|], n);
      } else {
        NoBranchMore(phi, p, m, before, n);
      }
    }
  }

  lemma NoBranches(phi: Kernel, p: seq<real>, m: seq<seq<real>>)
    requires Fits(p, m, 82)
    ensures BranchesOfBins(phi, p, m, [], 0)
  {
  }

  lemma NoBranchMore(phi: Kernel, p: seq<real>, m: seq<seq<real>>, before: seq<OutcomeBranch>, n: nat)
    requires Fits(p, m, 82) && 0 < n <= 82 && BranchesOfBins(phi, p, m, before, n - 1) && Sum(Shares(p, m, 82, n - 1)) <= 0.0
    ensures BranchesOfBins(phi, p, m, before, n)
  {
    hide Shares, BayesAt, Applied;
  }

  lemma OneBranchMore(phi: Kernel, p: seq<real>, m: seq<seq<real>>, before: seq<OutcomeBranch>, b: OutcomeBranch, n: nat)
    requires Fits(p, m, 82) && 0 < n <= 82 && BranchesOfBins(phi, p, m, before, n - 1)
    requires BranchOfBin(phi, p, m, b) && b.bin == Some(n - 1)
    ensures BranchesOfBins(phi, p, m, before + [b], n)
  {
    hide Shares, BayesAt, Applied;
    forall k: nat | HasBranch(before, k) ensures HasBranch(before + [b], k) {
      var i :| 0 <= i < |before| && before[i].bin == Some(k);
      assert (before + [b])[i] == before[i];
    }
    assert (before + [b])[|before|] == b;
  }

  lemma LastBranchMeaning(phi: Kernel, p: seq<real>, m: seq<seq<real>>, n: nat)
    requires EntropyKernel(phi) && Fits(p, m, 82) && RowStochastic(m, 82) && IsDistribution(p) && 0 < n <= 82
    requires Predictive(p, m, 82, n - 1) > 0.0
    ensures var before, branches := BranchesUpTo(phi, p, m, 82, 1.0, n - 1), BranchesUpTo(phi, p, m, 82, 1.0, n);
      && |branches| == |before| + 1 && branches[..|before|] == before
      && branches[|before|].bin == Some(n - 1) && BranchOfBin(phi, p, m, branches[|before|])
  {
    hide Predictive, Posterior, Entropy, BayesAt, EntropyKernel, RowStochastic;
    var posterior := Posterior(p, m, 82, n - 1);
    PosteriorIsBayesAt(p, m, 82, n - 1, posterior);
    PosteriorDistribution(p, m, 82, n - 1);
    EntropyIsApplied(phi, posterior);
    DivideByOne(Predictive(p, m, 82, n - 1));
  }

  /** The enumerated outcomes are the bins an observation can fall in, one branch each, by Bayes' rule. */
  lemma OutcomeBranchesMeaning(laws: GainLaws, hypotheses: seq<Hypothesis>, p: seq<real>, m: seq<seq<real>>)
    requires SoundGainLaws(laws) && PositiveSigmas(hypotheses) && IsDistribution(p) && |p| == |hypotheses|
    requires ChancesOf(laws.cdf, Ordered(hypotheses), m)
    ensures DiscretizedOutcomes(laws, hypotheses, p).Ok?
    ensures BranchesOfBins(laws.phi, p, m, DiscretizedOutcomes(laws, hypotheses, p).value.branches, 82)
  {
    OutcomesExact(laws, hypotheses, p);
    hide Entropy, Predictive, Posterior, EntropyKernel, MonotoneCdf, Ordered, MassTable, BranchesOfBins, ChancesOf;
    OrderedSigmas(hypotheses);
    MassTableMeaning(laws.cdf, Ordered(hypotheses));
    ChancesUnique(laws.cdf, Ordered(hypotheses), MassTable(laws.cdf, Ordered(hypotheses)).value, m);
    PredictiveTotal(p, m, 82);
    BranchesMeaning(laws.phi, p, m, 82);
  }

  // ----- the most favourable outcomes -----

  /** The context of hypothesis `h`: its probability now, and the first of the bins of at least one in a million
      that leave it most probable. */
  ghost predicate ContextMeans(hypotheses: seq<Hypothesis>, p: seq<real>, chance: seq<real>, after: seq<seq<real>>, h: nat, context: Context)
    requires h < |hypotheses| == |p| && |chance| == |after| == 82 && forall o :: 0 <= o < 82 ==> |after[o]| == |p|
  {
    && context.hypothesisId == hypotheses[h].id && context.posterior == p[h]
    && context.bin < 82 && chance[context.bin] >= 0.000001 && context.posteriorIfObserved == after[context.bin][h]
    && (forall o :: 0 <= o < 82 && chance[o] >= 0.000001 ==> after[o][h] <= context.posteriorIfObserved)
    && (forall o :: 0 <= o < context.bin && chance[o] >= 0.000001 ==> after[o][h] < context.posteriorIfObserved)
  }

  lemma ContextsMeaning(laws: GainLaws, hypotheses: seq<Hypothesis>, state: BeliefState, m: seq<seq<real>>, chance: seq<real>,
                        after: seq<seq<real>>, h: nat)
    requires SoundGainLaws(laws) && PositiveSigmas(hypotheses) && ValidState(state)
    requires HypothesisIds(Ordered(hypotheses)) == state.hypothesisIds && h < |hypotheses|
    requires ChancesOf(laws.cdf, Ordered(hypotheses), m) && |m| == |state.posterior| && BayesTable(state.posterior, m, 82, chance, after)
    ensures EstimateGain(laws, hypotheses, state).Ok? && |EstimateGain(laws, hypotheses, state).value.contexts| == |hypotheses|
    ensures ContextMeans(Ordered(hypotheses), state.posterior, chance, after, h, EstimateGain(laws, hypotheses, state).value.contexts[h])
  {
    EstimateExact(laws, hypotheses, state);
    SoundLaws(laws);
    hide Entropy, ExpectedEntropy, Predictive, Posterior, SoundGainLaws, MonotoneCdf, MassTable, IsDistribution, BinChance, Ordered, BayesAt,
      HypothesisIds, Max, MostProbable, MostFavourable, ContextMeans;
    OrderedSigmas(hypotheses);
    MassTableMeaning(laws.cdf, Ordered(hypotheses));
    ChancesUnique(laws.cdf, Ordered(hypotheses), MassTable(laws.cdf, Ordered(hypotheses)).value, m);
    var p := state.posterior;
    SomeBinExplains(p, m);
    FavourableMeaning(Ordered(hypotheses), p, m, chance, after, h, MostProbable(p, m, 82, 82).bin);
  }

  lemma FavourableMeaning(hypotheses: seq<Hypothesis>, p: seq<real>, m: seq<seq<real>>, chance: seq<real>, after: seq<seq<real>>, h: nat,
                          default: nat)
    requires Fits(p, m, 82) && BayesTable(p, m, 82, chance, after) && h < |hypotheses| == |p|
    requires exists o :: 0 <= o < 82 && Explanatory(p, m, 82, o)
    ensures ContextMeans(hypotheses, p, chance, after, h, ContextFor(hypotheses[h], p[h], MostFavourable(p, m, 82, h, 82), default))
  {
    hide Predictive, Posterior, MostFavourable, Shares;
    MostFavourableIsFirstMaximum(p, m, 82, h, 82);
    forall o | 0 <= o < 82
      ensures chance[o] == Predictive(p, m, 82, o) && (chance[o] > 0.0 ==> after[o] == Posterior(p, m, 82, o))
    {
      assert BayesAt(p, m, 82, o, chance[o], after[o]);
      BayesAtIsPosterior(p, m, 82, o, chance[o], after[o]);
    }
  }
}
