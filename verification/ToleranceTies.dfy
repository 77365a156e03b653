/** One decision of the closed loop's one-step planner in which a candidate loses by its lower gain and is
    said to have lost by its identifier: its group's sigma is wider, and the gains differ by the tolerance. */
module ToleranceTies {
  import opened Wrappers
  import opened RealSums
  import opened Information
  import opened Ordering
  import opened EvidenceEligibility
  import opened Reasoning
  import opened OptimizerEffect
  import opened BeliefModels
  import opened EvidenceOutcomes
  import opened OneStepPolicy
  import opened PredictionAdapter
  import opened AdapterRefinement

  // ----- the numerical functions -----

  const PEAK: real := 0.0000000000015

  function Tent(x: real): real {
    PEAK * (if x <= 0.5 then x else 1.0 - x)
  }

  /** Where an observation predicted with this mean falls: a wide sigma cannot tell no effect from a
      negative one. */
  function Step(mean: real, sigma: real): real {
    if sigma <= FIXED_SIGMA || mean > 0.05 then mean else 0.0
  }

  function StepCdf(x: real, mean: real, sigma: real): real {
    if x < Step(mean, sigma) then 0.0 else 1.0
  }

  const LAWS := GainLaws(Tent, StepCdf)

  lemma TentConcave(x: real, y: real, t: real)
    ensures ConcaveAt(Tent, x, y, t)
  {
    if 0.0 <= x <= 1.0 && 0.0 <= y <= 1.0 && 0.0 <= t <= 1.0 {
      TentBelow(x);
      TentBelow(y);
      MixMonotone(t, Tent(x), Tent(y), PEAK * x, PEAK * y);
      MixMonotone(t, Tent(x), Tent(y), PEAK * (1.0 - x), PEAK * (1.0 - y));
      MixScaled(PEAK, t, x, y);
      MixScaled(PEAK, t, 1.0 - x, 1.0 - y);
      MixFlipped(t, x, y);
      hide Mix;
    }
  }

  lemma TentBelow(x: real)
    ensures Tent(x) <= PEAK * x && Tent(x) <= PEAK * (1.0 - x)
  {
  }

  lemma MixMonotone(t: real, a: real, b: real, c: real, d: real)
    requires 0.0 <= t <= 1.0 && a <= c && b <= d
    ensures Mix(t, a, b) <= Mix(t, c, d)
  {
    WeightsMonotone(t, 1.0 - t, a, b, c, d);
  }

  lemma WeightsMonotone(t: real, u: real, a: real, b: real, c: real, d: real)
    requires t >= 0.0 && u >= 0.0 && a <= c && b <= d
    ensures t * a + u * b <= t * c + u * d
  {
    ScaleMonotone(t, a, c);
    ScaleMonotone(u, b, d);
  }

  lemma MixScaled(k: real, t: real, x: real, y: real)
    ensures Mix(t, k * x, k * y) == k * Mix(t, x, y)
  {
  }

  lemma MixFlipped(t: real, x: real, y: real)
    ensures Mix(t, 1.0 - x, 1.0 - y) == 1.0 - Mix(t, x, y)
  {
  }

  lemma LawsSound()
    ensures SoundGainLaws(LAWS)
  {
    forall x, y, t ensures ConcaveAt(Tent, x, y, t) {
      TentConcave(x, y, t);
    }
  }

  // ----- the gains of the two groups -----

  lemma {:induction false} MassRows(cdf: NormalCdf, hypotheses: seq<Hypothesis>)
    requires MonotoneCdf(cdf) && PositiveSigmas(hypotheses)
    ensures MassTable(cdf, hypotheses).Ok?
    ensures forall h :: 0 <= h < |hypotheses| ==> MassTable(cdf, hypotheses).value[h] == RawMasses(cdf, hypotheses[h])
  {
    hide RawMasses, BinMasses, MonotoneCdf;
    if |hypotheses| > 0 {
      MassRows(cdf, hypotheses[..|hypotheses| - 1]);
      MassesAreDistribution(cdf, hypotheses[|hypotheses| - 1]);
    }
  }

  /** All mass lies in the bin that ends at the step. */
  lemma StepMasses(h: Hypothesis, bin: nat)
    requires h.sigma > 0.0 && 0 < bin < 81 && Step(h.mean, h.sigma) == (bin as int - 40) as real * OUTCOME_GRID_STEP
    ensures forall k :: 0 <= k < OUTCOME_BINS ==> RawMasses(StepCdf, h)[k] == (if k == bin then 1.0 else 0.0)
  {
    LawsSound();
    MassesAreDistribution(StepCdf, h);
    hide RawMasses;
    forall k: nat | k <= OUTCOME_BINS ensures EdgeCdf(StepCdf, h, k) == (if k <= bin then 0.0 else 1.0) {
    }
  }

  lemma {:induction false} SumSingle(s: seq<real>, k: nat)
    requires k < |s| && forall i :: 0 <= i < |s| && i != k ==> s[i] == 0.0
    ensures Sum(s) == s[k]
  {
    var n := |s| - 1;
    if k == n {
      SumConstant(s[..n], 0.0);
    } else {
      SumSingle(s[..n], k);
    }
  }

  lemma SumOfThree(s: seq<real>)
    requires |s| == 3
    ensures Sum(s) == s[0] + s[1] + s[2]
  {
    SumPrefix(s, 0);
    SumPrefix(s, 1);
    SumPrefix(s, 2);
    assert s[..0] == [] && s[..3] == s;
  }

  const THIRDS: seq<real> := [1.0 / 3.0, 1.0 / 3.0, 1.0 / 3.0]

  /** Rows that put each hypothesis in one bin. */
  ghost predicate OneBinEach(m: seq<seq<real>>, bins: seq<nat>) {
    && |m| == |bins| == 3 && Rectangular(m, OUTCOME_BINS)
    && forall h, k :: 0 <= h < 3 && 0 <= k < OUTCOME_BINS ==> m[h][k] == (if k == bins[h] then 1.0 else 0.0)
  }

  lemma PriorEntropy()
    ensures Entropy(Tent, THIRDS) == PEAK
  {
    SumOfThree(EntropyTerms(Tent, THIRDS));
  }

  lemma WeightedThirds(m: seq<seq<real>>, bins: seq<nat>, o: nat)
    requires OneBinEach(m, bins) && o < OUTCOME_BINS
    ensures forall h :: 0 <= h < 3 ==> Weighted(THIRDS, m, OUTCOME_BINS, o)[h] == (if o == bins[h] then 1.0 / 3.0 else 0.0)
    ensures Predictive(THIRDS, m, OUTCOME_BINS, o)
      == (if o == bins[0] then 1.0 / 3.0 else 0.0) + (if o == bins[1] then 1.0 / 3.0 else 0.0) + (if o == bins[2] then 1.0 / 3.0 else 0.0)
  {
    SumOfThree(Weighted(THIRDS, m, OUTCOME_BINS, o));
  }

  /** Three bins tell the hypotheses apart: nothing is left to learn. */
  lemma ApartLeavesNothing(m: seq<seq<real>>, bins: seq<nat>)
    requires OneBinEach(m, bins) && bins[0] != bins[1] && bins[0] != bins[2] && bins[1] != bins[2]
    ensures ExpectedEntropy(Tent, THIRDS, m, OUTCOME_BINS) == 0.0
  {
    forall o: nat | o < OUTCOME_BINS ensures OutcomeTerm(Tent, THIRDS, m, OUTCOME_BINS, o) == 0.0 {
      WeightedThirds(m, bins, o);
      if Predictive(THIRDS, m, OUTCOME_BINS, o) > 0.0 {
        SumOfThree(EntropyTerms(Tent, Posterior(THIRDS, m, OUTCOME_BINS, o)));
      }
    }
    SumConstant(OutcomeTerms(Tent, THIRDS, m, OUTCOME_BINS), 0.0);
  }

  /** Two hypotheses in one bin: two times in three they stay undecided. */
  lemma SharedLeavesTwoThirds(m: seq<seq<real>>, bins: seq<nat>)
    requires OneBinEach(m, bins) && bins[0] != bins[1] == bins[2] && bins[1] < OUTCOME_BINS
    ensures ExpectedEntropy(Tent, THIRDS, m, OUTCOME_BINS) == PEAK * 2.0 / 3.0
  {
    forall o: nat | o < OUTCOME_BINS
      ensures OutcomeTerm(Tent, THIRDS, m, OUTCOME_BINS, o) == (if o == bins[1] then PEAK * 2.0 / 3.0 else 0.0)
    {
      WeightedThirds(m, bins, o);
      if Predictive(THIRDS, m, OUTCOME_BINS, o) > 0.0 {
        SumOfThree(EntropyTerms(Tent, Posterior(THIRDS, m, OUTCOME_BINS, o)));
      }
    }
    SumSingle(OutcomeTerms(Tent, THIRDS, m, OUTCOME_BINS), bins[1]);
  }

  /** The gain under the fixed sigma, and under a wider one. */
  lemma GainWith(sigma: real)
    requires sigma > 0.0
    ensures EstimateGain(LAWS, HypothesesWithSigma(sigma), InitialState()).Ok?
    ensures EstimateGain(LAWS, HypothesesWithSigma(sigma), InitialState()).value.gain
      == (if sigma <= FIXED_SIGMA then PEAK else PEAK / 3.0)
  {
    hide AllFavourable, MostProbable, MassTable, ExpectedEntropy, EntropyKernel, Ordered, SoundGainLaws, Tent, StepCdf, Contexts;
    var hypotheses := HypothesesWithSigma(sigma);
    LawsSound();
    HypothesesOrdered(sigma);
    IdsIgnoreSigma(sigma);
    assert InitialState().posterior == THIRDS;
    MassesWith(sigma);
    PriorEntropy();
    var m := MassTable(StepCdf, hypotheses).value;
    if sigma <= FIXED_SIGMA {
      ApartLeavesNothing(m, [50, 40, 30]);
    } else {
      SharedLeavesTwoThirds(m, [50, 40, 40]);
    }
  }

  lemma MassesWith(sigma: real)
    requires sigma > 0.0
    ensures MassTable(StepCdf, HypothesesWithSigma(sigma)).Ok?
    ensures OneBinEach(MassTable(StepCdf, HypothesesWithSigma(sigma)).value, if sigma <= FIXED_SIGMA then [50, 40, 30] else [50, 40, 40])
  {
    hide RawMasses, MassTable;
    var hypotheses := HypothesesWithSigma(sigma);
    LawsSound();
    MassRows(StepCdf, hypotheses);
    StepMasses(hypotheses[0], 50);
    StepMasses(hypotheses[1], 40);
    StepMasses(hypotheses[2], if sigma <= FIXED_SIGMA then 30 else 40);
  }

  // ----- the decision -----

  const NARROW := "narrow"
  const WIDE := "wide"

  function Named(id: string): Candidate {
    Candidate(id, 0.1, 0.0, 1, ADAM)
  }

  function DesignOf(id: string, group: string, arm: string): Design {
    Design(id, OPTIMIZER_EFFECT_FAMILY, group, [], OPTIMIZER_INTERVENTION, arm)
  }

  const CONTRACT := Contract([DesignOf("a", NARROW, ADAM), DesignOf("b", WIDE, ADAM), DesignOf("s", NARROW, SGD), DesignOf("t", WIDE, SGD)],
                             (key: ComparisonKey) => key.group)

  const NARROW_SGD := CompletedExperiment(1, Named("s"), 1.0)
  const WIDE_SGD := CompletedExperiment(2, Named("t"), 1.0)

  /** Both SGD arms are done, and both ADAM arms cost the same. */
  const PROBLEM := Problem(CONTRACT, [Named("a"), Named("b")], [NARROW_SGD, WIDE_SGD], map["a" := 1.0, "b" := 1.0], 10.0)

  /** Five earlier effects of the wide group, and a deviation above the fixed sigma. */
  const EFFECTS: seq<MatchedEffect> :=
    seq(MINIMUM_PRIOR_EFFECTS, i requires 0 <= i < MINIMUM_PRIOR_EFFECTS => MatchedEffect("12345"[i..i + 1], WIDE, 0.0, 0))

  function WideDeviation(values: seq<real>): real {
    0.06
  }

  function BuiltForTies(): Result<Adapter, AdapterError> {
    BuildAdapter(WideDeviation, CalibratedSigma, InitialState(), EFFECTS, CONTRACT)
  }

  lemma Designs()
    ensures DesignFor(CONTRACT, Named("a")) == Some(DesignOf("a", NARROW, ADAM))
    ensures DesignFor(CONTRACT, Named("b")) == Some(DesignOf("b", WIDE, ADAM))
    ensures DesignFor(CONTRACT, Named("s")) == Some(DesignOf("s", NARROW, SGD))
    ensures DesignFor(CONTRACT, Named("t")) == Some(DesignOf("t", WIDE, SGD))
  {
    var d := CONTRACT.designs;
    assert "a"[0] == 'a' && "b"[0] == 'b' && "s"[0] == 's' && "t"[0] == 't';
    assert d[1..][0] == d[1] && d[1..][1..] == d[2..] && d[2..][0] == d[2] && d[2..][1..] == d[3..] && d[3..][0] == d[3];
    assert FindDesign(d[3..], "t") == Some(d[3]);
    assert FindDesign(d[2..], "t") == Some(d[3]) && FindDesign(d[2..], "s") == Some(d[2]);
    assert FindDesign(d[1..], "t") == Some(d[3]) && FindDesign(d[1..], "s") == Some(d[2]) && FindDesign(d[1..], "b") == Some(d[1]);
  }

  /** Each candidate completes the pair of its own group. */
  lemma Assessments()
    ensures AssessCandidate(CONTRACT, Named("a"), PROBLEM.completed) == Ok(Assessment("a", CompletesPair, NARROW, Some(NARROW_SGD)))
    ensures AssessCandidate(CONTRACT, Named("b"), PROBLEM.completed) == Ok(Assessment("b", CompletesPair, WIDE, Some(WIDE_SGD)))
  {
    Designs();
    BothOpen();
    hide DesignFor, ArmMembers, DesignOf, IsCompleted;
    Members();
    assert OtherArm(ADAM) == SGD;
    OptimizerDesigns();
  }

  lemma BothOpen()
    ensures !IsCompleted(Named("a"), PROBLEM.completed) && !IsCompleted(Named("b"), PROBLEM.completed)
    ensures AllRegistered(CONTRACT, PROBLEM.completed)
  {
    Designs();
    hide DesignFor;
    assert "a"[0] == 'a' && "b"[0] == 'b' && "s"[0] == 's' && "t"[0] == 't';
  }

  lemma OptimizerDesigns()
    ensures forall id, group, arm :: arm == ADAM || arm == SGD ==> DesignOf(id, group, arm).IsOptimizerEffect()
    ensures forall id, group, arm :: DesignOf(id, group, arm).candidateId == id && DesignOf(id, group, arm).group == group
    ensures forall id, group, arm :: DesignOf(id, group, arm).arm == arm
  {
  }

  /** Each group has its SGD experiment and nothing else. */
  lemma Members()
    ensures var narrow, wide := DesignOf("a", NARROW, ADAM).Key(), DesignOf("b", WIDE, ADAM).Key();
      && ArmMembers(CONTRACT, PROBLEM.completed, narrow, SGD) == [NARROW_SGD] && ArmMembers(CONTRACT, PROBLEM.completed, narrow, ADAM) == []
      && ArmMembers(CONTRACT, PROBLEM.completed, wide, SGD) == [WIDE_SGD] && ArmMembers(CONTRACT, PROBLEM.completed, wide, ADAM) == []
  {
    Designs();
    assert |NARROW| != |WIDE| && |SGD| != |ADAM|;
    hide DesignFor, ArmMembers;
    MembersOfTwo(DesignOf("a", NARROW, ADAM).Key(), ADAM);
    MembersOfTwo(DesignOf("a", NARROW, ADAM).Key(), SGD);
    MembersOfTwo(DesignOf("b", WIDE, ADAM).Key(), ADAM);
    MembersOfTwo(DesignOf("b", WIDE, ADAM).Key(), SGD);
  }

  lemma MembersOfTwo(key: ComparisonKey, arm: string)
    ensures var first := if InArm(CONTRACT, NARROW_SGD, key, arm) then [NARROW_SGD] else [];
      ArmMembers(CONTRACT, PROBLEM.completed, key, arm) == first + (if InArm(CONTRACT, WIDE_SGD, key, arm) then [WIDE_SGD] else [])
  {
    hide InArm;
    var both := PROBLEM.completed;
    assert both[..1] == [NARROW_SGD] && both[..1][..0] == [];
    assert ArmMembers(CONTRACT, both[..1], key, arm) == if InArm(CONTRACT, NARROW_SGD, key, arm) then [NARROW_SGD] else [];
  }

  lemma AdapterExists()
    ensures BuiltForTies().Ok? && BuiltForTies().value.contract == CONTRACT
    ensures BuiltAdapter(WideDeviation, CalibratedSigma, InitialState(), EFFECTS, CONTRACT, BuiltForTies().value)
  {
    hide BuildAdapter, InitialState, SnapshotOf;
    AdapterIsBuilt(WideDeviation, CalibratedSigma, InitialState(), EFFECTS, CONTRACT);
    assert CONTRACT.designs[0] in CONTRACT.designs && CONTRACT.designs[0].IsOptimizerEffect();
    forall i, j | 0 <= i < j < |EFFECTS| ensures EFFECTS[i].id != EFFECTS[j].id {
      assert EFFECTS[i].id[0] == "12345"[i] && EFFECTS[j].id[0] == "12345"[j];
    }
  }

  /** The sigmas the adapter freezes: the fixed one for lack of effects, and a wider one. */
  lemma FrozenSigmas(cutoff: nat)
    requires cutoff > 0
    ensures PlanSigma(WideDeviation, CalibratedSigma, EFFECTS, NARROW, cutoff).sigma == FIXED_SIGMA
    ensures PlanSigma(WideDeviation, CalibratedSigma, EFFECTS, WIDE, cutoff).sigma == 0.06
  {
    assert |NARROW| != |WIDE|;
    FilteredUniform(EFFECTS, Available(NARROW, cutoff));
    FilteredUniform(EFFECTS, Available(WIDE, cutoff));
  }

  /** The estimate a candidate of a group is scored with. */
  lemma EstimateOf(adapter: Adapter, estimates: seq<Estimate>, c: Candidate, group: string, sigma: real)
    requires BuiltAdapter(WideDeviation, CalibratedSigma, InitialState(), EFFECTS, CONTRACT, adapter)
    requires Estimates(LAWS, adapter.snapshots, InitialState()) == Ok(estimates)
    requires forall i :: 0 <= i < |estimates| ==> EstimateGain(LAWS, adapter.snapshots[i].hypotheses, InitialState()) == Ok(estimates[i])
    requires AssessCandidate(CONTRACT, c, PROBLEM.completed).Ok?
    requires AssessCandidate(CONTRACT, c, PROBLEM.completed).value.effect == CompletesPair
    requires DesignFor(CONTRACT, c).Some? && DesignFor(CONTRACT, c).value.group == group
    requires PlanSigma(WideDeviation, CalibratedSigma, EFFECTS, group, InitialState().sequence + 1).sigma == sigma
    ensures EstimateGain(LAWS, HypothesesWithSigma(sigma), InitialState()) == Ok(EstimateFor(adapter, estimates, c))
  {
    hide AssessCandidate, DesignFor, Estimates, EstimateGain, PlanSigma, InitialState, HypothesesWithSigma, SnapshotFor;
    PairCloserHasSnapshot(WideDeviation, CalibratedSigma, InitialState(), EFFECTS, adapter, c, PROBLEM.completed);
    var i := SnapshotFor(adapter, c).value;
    assert adapter.snapshots[i] in adapter.snapshots;
  }

  lemma OffersOfBoth()
    ensures InIdOrder(PROBLEM.candidates) == PROBLEM.candidates
    ensures Offers(PROBLEM, PROBLEM.candidates)
      == Ok([Offer(Named("a"), 1.0, Assessment("a", CompletesPair, NARROW, Some(NARROW_SGD))),
             Offer(Named("b"), 1.0, Assessment("b", CompletesPair, WIDE, Some(WIDE_SGD)))])
  {
    Assessments();
    hide AssessCandidate;
    var both := PROBLEM.candidates;
    assert "a"[0] == 'a' && "b"[0] == 'b' && "s"[0] == 's' && "t"[0] == 't';
    assert both[1..] == [Named("b")] && both[1..][1..] == [] && SortBy(both[1..], CandidateBefore) == [Named("b")];
    assert !CandidateBefore(Named("b"), Named("a"));
    assert Consider(PROBLEM, Named("a")) == Ok(Some(Offer(Named("a"), 1.0, Assessment("a", CompletesPair, NARROW, Some(NARROW_SGD)))));
    assert Consider(PROBLEM, Named("b")) == Ok(Some(Offer(Named("b"), 1.0, Assessment("b", CompletesPair, WIDE, Some(WIDE_SGD)))));
    OffersOfTwo(PROBLEM, Named("a"), Named("b"));
  }

  lemma OffersOfTwo(problem: Problem, c: Candidate, d: Candidate)
    requires IsOffered(problem, c) && IsOffered(problem, d)
    ensures Offers(problem, [c, d]) == Ok([Consider(problem, c).value.value, Consider(problem, d).value.value])
  {
    hide Consider;
    var one, two := [c], [c, d];
    assert two[..|two| - 1] == one && one[..|one| - 1] == [];
    assert Offers(problem, []) == Ok([]);
    var x, y := Consider(problem, c).value.value, Consider(problem, d).value.value;
    assert [] + [x] == [x] && [x] + [y] == [x, y];
    assert Offers(problem, one) == Ok([x]);
    assert two[|two| - 1] == d;
  }

  lemma RankingOfTwo(first: CandidateScore, second: CandidateScore)
    requires first.gain == PEAK && second.gain == PEAK / 3.0 && first.cost == second.cost
    ensures HasPositive([first, second])
    ensures RankScores([first, second]) == [RankedScore(first, SelectedForGain), RankedScore(second, LaterId)]
  {
    var both := [first, second];
    assert both[0].gain > POSITIVE_INFORMATION_TOLERANCE;
    assert both[1..] == [second] && both[1..][1..] == [];
    assert SortBy(both[1..], ScoreBefore(true)) == [second];
  }

  /** The decision: the narrow group's candidate is selected, the wide group's has the lower gain and yet
      is said to lose by identifier. */
  lemma LowerGainSaidLater()
    ensures SoundGainLaws(LAWS) && BuiltForTies().Ok?
    ensures var decision := DecideAdapted(LAWS, BuiltForTies().value, PROBLEM, InitialState());
      && decision.Ok? && decision.value.fallback.None? && |decision.value.ranked| == 2
      && var winner, loser := decision.value.ranked[0], decision.value.ranked[1];
      && winner.score.candidate == Named("a") && loser.score.candidate == Named("b")
      && loser.score.gain < winner.score.gain
      && loser.reason == LaterId && FirstWorse(true, winner.score, loser.score) == LowerGain
  {
    hide BuildAdapter, BuiltAdapter, Estimates, EstimateGain, EstimateFor, Offers, RankScores, HasPositive, PlanSigma, SoundGainLaws,
      AllUninformative, HypothesesWithSigma, DesignFor, AssessCandidate, Ordered, HypothesisIds, OptimizerIds;
    LawsSound();
    AdapterExists();
    var adapter := BuiltForTies().value;
    InitialOptimizerState();
    BuiltAdapterSound(WideDeviation, CalibratedSigma, InitialState(), EFFECTS, adapter);
    EstimatesExact(LAWS, adapter.snapshots, InitialState());
    var estimates := Estimates(LAWS, adapter.snapshots, InitialState()).value;
    FrozenSigmas(InitialState().sequence + 1);
    Assessments();
    Designs();
    EstimateOf(adapter, estimates, Named("a"), NARROW, FIXED_SIGMA);
    EstimateOf(adapter, estimates, Named("b"), WIDE, 0.06);
    GainWith(FIXED_SIGMA);
    GainWith(0.06);
    OffersOfBoth();
    var offers := Offers(PROBLEM, PROBLEM.candidates).value;
    var scores := ScoredByGroup(adapter, estimates, offers);
    assert scores == [scores[0], scores[1]];
    RankingOfTwo(scores[0], scores[1]);
  }
}
