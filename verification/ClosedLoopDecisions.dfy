/** Which planner answers for which policy, and what every decision of every run is worth: one step weighs the
    candidates on offer, two steps the plans, each with the sigma frozen for its comparison group. */
module ClosedLoopDecisions {
  import opened Wrappers
  import opened RealSums
  import opened Information
  import opened BayesMeaning
  import opened Ordering
  import opened EvidenceEligibility
  import opened Reasoning
  import opened OptimizerEffect
  import opened BeliefModels
  import opened EvidenceOutcomes
  import opened OneStepPolicy
  import opened LookaheadPolicy
  import opened PlannedGain
  import opened PredictionAdapter
  import opened AdapterRefinement
  import opened LookaheadMeaning
  import opened ClosedLoop
  import opened ClosedLoopRuns
  import opened ClosedLoopSafety
  import opened ClosedLoopTrace

  // ----- the planner of each policy -----

  /** Whatever the problem, a one-step decision that is made is the best of the offered scores. */
  lemma OneStepIsBest(laws: GainLaws, adapter: Adapter, problem: Problem, belief: BeliefState)
    requires |adapter.snapshots| > 0 && |belief.posterior| == |belief.hypothesisIds|
    requires DecideAdapted(laws, adapter, problem, belief).Ok?
    ensures Estimates(laws, adapter.snapshots, belief).Ok? && Offers(problem, InIdOrder(problem.candidates)).Ok?
    ensures BestScore(problem, ScoredByGroup(adapter, Estimates(laws, adapter.snapshots, belief).value,
                                             Offers(problem, InIdOrder(problem.candidates)).value),
                      DecideAdapted(laws, adapter, problem, belief).value)
  {
    hide Consider, Offers, EstimateGain, RankScores, NoWorse, ScoresOffers, HasPositive, ScoreOf, EstimateFor, Estimates, AllUninformative;
    var estimates, offers := Estimates(laws, adapter.snapshots, belief).value, Offers(problem, InIdOrder(problem.candidates)).value;
    var scores := ScoredByGroup(adapter, estimates, offers);
    ScoredOffers(problem, (o: Offer) => EstimateFor(adapter, estimates, o.candidate), offers, scores);
    SelectedIsBest(scores);
  }

  lemma {:induction false} PlansAreOfOffers(laws: GainLaws, adapter: Adapter, problem: Problem, p: seq<real>, candidates: seq<Candidate>)
    requires FirstPlansAdapted(laws, adapter, problem, p, candidates).Ok?
    ensures PlansOf(AdaptedPlan(laws, adapter, problem, p), problem, candidates,
                    FirstPlansAdapted(laws, adapter, problem, p, candidates).value)
  {
    hide Consider, PlanFirstAdapted, PlansOf, AdaptedPlan;
    var plan := AdaptedPlan(laws, adapter, problem, p);
    if |candidates| == 0 {
      NothingPlanned(plan, problem);
    } else {
      var n := |candidates| - 1;
      PlansAreOfOffers(laws, adapter, problem, p, candidates[..n]);
      var plans := FirstPlansAdapted(laws, adapter, problem, p, candidates[..n]).value;
      if Consider(problem, candidates[n]).value.Some? {
        OfferFits(problem, candidates[n]);
        var offer := Consider(problem, candidates[n]).value.value;
        assert plan(offer) == PlanFirstAdapted(laws, adapter, problem, p, offer) by { AdaptedPlanIs(laws, adapter, problem, p); }
        OnePlanMore(plan, problem, candidates, plans, offer);
      } else {
        NoPlanMore(plan, problem, candidates, plans);
      }
    }
  }

  lemma NothingPlanned(plan: Offer -> Result<FirstPlan, PlanningError>, problem: Problem)
    ensures PlansOf(plan, problem, [], [])
  {
  }

  lemma NoPlanMore(plan: Offer -> Result<FirstPlan, PlanningError>, problem: Problem, candidates: seq<Candidate>, plans: seq<FirstPlan>)
    requires |candidates| > 0 && PlansOf(plan, problem, candidates[..|candidates| - 1], plans)
    requires Consider(problem, candidates[|candidates| - 1]) == Ok(None)
    ensures PlansOf(plan, problem, candidates, plans)
  {
    hide Consider, Planned;
    assert candidates == candidates[..|candidates| - 1] + [candidates[|candidates| - 1]];
    forall q | q in plans ensures exists offer: Offer :: offer.candidate in candidates && Planned(plan, problem, offer, q) {
      var offer: Offer :| offer.candidate in candidates[..|candidates| - 1] && Planned(plan, problem, offer, q);
      assert offer.candidate in candidates;
    }
  }

  lemma OnePlanMore(plan: Offer -> Result<FirstPlan, PlanningError>, problem: Problem, candidates: seq<Candidate>, plans: seq<FirstPlan>,
                    offer: Offer)
    requires |candidates| > 0 && PlansOf(plan, problem, candidates[..|candidates| - 1], plans)
    requires offer.candidate == candidates[|candidates| - 1] && Consider(problem, offer.candidate) == Ok(Some(offer))
    requires plan(offer).Ok?
    ensures PlansOf(plan, problem, candidates, plans + [plan(offer).value])
  {
    var all := plans + [plan(offer).value];
    assert Planned(plan, problem, offer, plan(offer).value);
    hide Consider, Planned;
    assert candidates == candidates[..|candidates| - 1] + [offer.candidate];
    forall q | q in all ensures exists other: Offer :: other.candidate in candidates && Planned(plan, problem, other, q) {
      if q in plans {
        var other: Offer :| other.candidate in candidates[..|candidates| - 1] && Planned(plan, problem, other, q);
        assert other.candidate in candidates;
      } else {
        assert offer.candidate in candidates;
      }
    }
  }

  lemma ConcludedIsLeast(plan: Offer -> Result<FirstPlan, PlanningError>, problem: Problem, plans: seq<FirstPlan>)
    requires PlansOf(plan, problem, InIdOrder(problem.candidates), plans) && ConcludePlans(problem, plans).Ok?
    ensures LeastPlan(plan, problem, ConcludePlans(problem, plans).value)
  {
    hide Consider, PlanBefore, Planned, RankedPlans, SortBy, CandidatesDesigned, CompletedDesigned;
    SortMembers(problem.candidates, CandidateBefore);
    SelectedPlanIsLeast(plans);
    var best := ConcludePlans(problem, plans).value.selected.plan;
    var offer: Offer :| offer.candidate in InIdOrder(problem.candidates) && Planned(plan, problem, offer, best);
    assert offer.candidate in problem.candidates;
  }

  /** Whatever the problem, a two-step decision that is made is the least of the offered plans. */
  lemma TwoStepIsLeast(laws: GainLaws, adapter: Adapter, problem: Problem, belief: BeliefState)
    requires DecideLookaheadAdapted(laws, adapter, problem, belief).Ok?
    ensures LeastPlan(AdaptedPlan(laws, adapter, problem, belief.posterior), problem,
                      DecideLookaheadAdapted(laws, adapter, problem, belief).value)
  {
    hide FirstPlansAdapted, ConcludePlans, LeastPlan, PlansOf, AdaptedPlan;
    PlansAreOfOffers(laws, adapter, problem, belief.posterior, InIdOrder(problem.candidates));
    ConcludedIsLeast(AdaptedPlan(laws, adapter, problem, belief.posterior), problem,
                     FirstPlansAdapted(laws, adapter, problem, belief.posterior, InIdOrder(problem.candidates)).value);
  }

  /** An information-gain arm takes one step, to the best score by group; a lookahead arm plans two, and takes
      the first of the least plan. */
  ghost predicate ChosenBy(policy: Policy, laws: GainLaws, adapter: Adapter, problem: Problem, belief: BeliefState, trace: PolicyTrace)
    requires |adapter.snapshots| > 0 && |belief.posterior| == |belief.hypothesisIds|
  {
    match policy
    case InformationGain =>
      && trace.OneStepTrace?
      && Estimates(laws, adapter.snapshots, belief).Ok? && Offers(problem, InIdOrder(problem.candidates)).Ok?
      && BestScore(problem, ScoredByGroup(adapter, Estimates(laws, adapter.snapshots, belief).value,
                                          Offers(problem, InIdOrder(problem.candidates)).value), trace.decision)
    case Lookahead =>
      trace.TwoStepTrace? && LeastPlan(AdaptedPlan(laws, adapter, problem, belief.posterior), problem, trace.plan)
  }

  /** Whatever the arm and the problem, a choice that is made is that of the arm's own policy. */
  lemma ChoiceByPolicy(arm: Arm, adapter: Adapter, problem: Problem, belief: BeliefState)
    requires |adapter.snapshots| > 0 && WellShaped(belief) && ChoosePolicy(arm, adapter, problem, belief).Ok?
    ensures ChosenBy(arm.spec.policy, arm.laws.gain, adapter, problem, belief, ChoosePolicy(arm, adapter, problem, belief).value)
  {
    hide DecideAdapted, DecideLookaheadAdapted, Decide, DecideLookahead, BestScore, LeastPlan, ScoredByGroup, AdaptedPlan, Estimates, Offers;
    match arm.spec.policy
    case InformationGain => OneStepIsBest(arm.laws.gain, adapter, problem, belief);
    case Lookahead => TwoStepIsLeast(arm.laws.gain, adapter, problem, belief);
  }

  // ----- one step -----

  /** What completing an offered candidate is expected to tell: the gain of the pair it completes, under the
      hypotheses of its group, and nothing if it completes none. */
  ghost predicate OfferTells(laws: GainLaws, hypothesesOf: Candidate -> seq<Hypothesis>, p: seq<real>, offer: Offer, gain: real) {
    if offer.assessment.effect == CompletesPair then IsExpectedGain(laws, hypothesesOf(offer.candidate), p, gain) else gain == 0.0
  }

  /** Some candidate on offer is expected to tell something. */
  ghost predicate SomethingToLearn(laws: GainLaws, problem: Problem, hypothesesOf: Candidate -> seq<Hypothesis>, p: seq<real>) {
    exists offer, gain :: OnOffer(problem, offer) && OfferTells(laws, hypothesesOf, p, offer, gain) && gain > 0.000000000001
  }

  /** With something to learn: greater gain, then lower cost, then the earlier identifier; else the cheapest. */
  predicate OfferNoWorse(learning: bool, gain: real, offer: Offer, otherGain: real, other: Offer) {
    || (learning && gain > otherGain)
    || ((learning ==> gain == otherGain) && offer.cost < other.cost)
    || ((learning ==> gain == otherGain) && offer.cost == other.cost && !StringLess(other.candidate.id, offer.candidate.id))
  }

  ghost predicate NoneBetter(laws: GainLaws, problem: Problem, hypothesesOf: Candidate -> seq<Hypothesis>, p: seq<real>, offer: Offer,
                             gain: real, learning: bool)
  {
    forall other, otherGain :: OnOffer(problem, other) && OfferTells(laws, hypothesesOf, p, other, otherGain) ==>
      OfferNoWorse(learning, gain, offer, otherGain, other)
  }

  /** The decision is the best offer, with its gain and its cost, and is a fallback when there is nothing to learn. */
  ghost predicate BestOffer(laws: GainLaws, problem: Problem, hypothesesOf: Candidate -> seq<Hypothesis>, p: seq<real>, trace: DecisionTrace) {
    var score := trace.selected.score;
    && (exists offer ::
          && OnOffer(problem, offer) && score.candidate == offer.candidate && score.cost == offer.cost
          && (score.completesPair <==> offer.assessment.effect == CompletesPair)
          && OfferTells(laws, hypothesesOf, p, offer, score.gain)
          && NoneBetter(laws, problem, hypothesesOf, p, offer, score.gain, trace.fallback.None?))
    && (trace.fallback.None? <==> SomethingToLearn(laws, problem, hypothesesOf, p))
    && trace.maxCost == problem.budget
  }

  /** The score of an offer says what it tells. */
  ghost predicate ScoreTells(laws: GainLaws, hypothesesOf: Candidate -> seq<Hypothesis>, p: seq<real>, offer: Offer, score: CandidateScore) {
    && score.candidate == offer.candidate && score.cost == offer.cost
    && (score.completesPair <==> offer.assessment.effect == CompletesPair)
    && (forall gain :: OfferTells(laws, hypothesesOf, p, offer, gain) <==> gain == score.gain)
  }

  /** The planner has a snapshot over the belief's hypotheses for every group. */
  ghost predicate PlansFor(adapter: Adapter, belief: BeliefState) {
    && SoundAdapter(adapter, |belief.posterior|) && ValidState(belief)
    && (forall s :: s in adapter.snapshots ==> HypothesisIds(Ordered(s.hypotheses)) == belief.hypothesisIds)
  }

  lemma GroupEstimateTells(laws: GainLaws, adapter: Adapter, problem: Problem, belief: BeliefState, offer: Offer)
    requires SoundGainLaws(laws) && PlansFor(adapter, belief) && problem.contract == adapter.contract
    requires Estimates(laws, adapter.snapshots, belief).Ok? && OnOffer(problem, offer) && offer.assessment.effect == CompletesPair
    ensures var estimate := EstimateFor(adapter, Estimates(laws, adapter.snapshots, belief).value, offer.candidate);
      && IsExpectedGain(laws, GroupHypotheses(adapter)(offer.candidate), belief.posterior, estimate.gain)
      && PositiveSigmas(GroupHypotheses(adapter)(offer.candidate))
  {
    hide SnapshotFor, AssessCandidate, IsExpectedGain, EstimateGain, SoundGainLaws, ValidState, HypothesisIds, Ordered, SoundAdapter,
      PositiveSigmas, Estimates;
    CloserHypotheses(adapter, |belief.posterior|, offer.candidate, problem.completed);
    var i := SnapshotFor(adapter, offer.candidate).value;
    assert adapter.snapshots[i] in adapter.snapshots;
    SnapshotsPositive(adapter, |belief.posterior|);
    EstimatesExact(laws, adapter.snapshots, belief);
    EstimateMeaning(laws, adapter.snapshots[i].hypotheses, belief);
  }

  lemma SnapshotsPositive(adapter: Adapter, size: nat)
    requires SoundAdapter(adapter, size)
    ensures |adapter.snapshots| > 0 && forall s :: s in adapter.snapshots ==> PositiveSigmas(s.hypotheses)
  {
  }

  lemma CloserHasCounterpart(contract: Contract, c: Candidate, completed: seq<CompletedExperiment>)
    requires AssessCandidate(contract, c, completed).Ok? && AssessCandidate(contract, c, completed).value.effect == CompletesPair
    ensures AssessCandidate(contract, c, completed).value.counterpart.Some?
  {
    hide DesignFor, ArmMembers;
  }

  lemma GroupScoreTells(laws: GainLaws, adapter: Adapter, problem: Problem, belief: BeliefState, offer: Offer)
    requires SoundGainLaws(laws) && PlansFor(adapter, belief) && problem.contract == adapter.contract
    requires Estimates(laws, adapter.snapshots, belief).Ok? && OnOffer(problem, offer)
    ensures ScoreTells(laws, GroupHypotheses(adapter), belief.posterior, offer,
                       ScoreOf(EstimateFor(adapter, Estimates(laws, adapter.snapshots, belief).value, offer.candidate), offer))
  {
    hide SnapshotFor, AssessCandidate, IsExpectedGain, EstimateFor, Estimates, GroupHypotheses, SoundAdapter, HypothesisIds, Ordered,
      EntropyKernel, MonotoneCdf;
    SnapshotsPositive(adapter, |belief.posterior|);
    if offer.assessment.effect == CompletesPair {
      CloserHasCounterpart(problem.contract, offer.candidate, problem.completed);
      GroupEstimateTells(laws, adapter, problem, belief, offer);
      var estimate := EstimateFor(adapter, Estimates(laws, adapter.snapshots, belief).value, offer.candidate);
      forall gain | IsExpectedGain(laws, GroupHypotheses(adapter)(offer.candidate), belief.posterior, gain) ensures gain == estimate.gain {
        ExpectedGainUnique(laws, GroupHypotheses(adapter)(offer.candidate), belief.posterior, gain, estimate.gain);
      }
    }
  }

  /** Best among scores that say what the offers tell is best among the offers. */
  lemma BestScoreIsBestOffer(laws: GainLaws, problem: Problem, hypothesesOf: Candidate -> seq<Hypothesis>, p: seq<real>, offers: seq<Offer>,
                             scores: seq<CandidateScore>, trace: DecisionTrace)
    requires BestScore(problem, scores, trace) && |scores| == |offers|
    requires forall offer :: offer in offers <==> OnOffer(problem, offer)
    requires forall i :: 0 <= i < |offers| ==> ScoreTells(laws, hypothesesOf, p, offers[i], scores[i])
    ensures BestOffer(laws, problem, hypothesesOf, p, trace)
  {
    hide OnOffer, OfferTells, RankScores, ScoresOffers, NoneBetter, SomethingToLearn, StringLess;
    var score, positive := trace.selected.score, HasPositive(scores);
    var k :| 0 <= k < |scores| && scores[k] == score;
    assert offers[k] in offers && ScoreTells(laws, hypothesesOf, p, offers[k], scores[k]);
    LearningIff(laws, problem, hypothesesOf, p, offers, scores);
    NoneBetterThan(laws, problem, hypothesesOf, p, offers, scores, k);
  }

  lemma LearningIff(laws: GainLaws, problem: Problem, hypothesesOf: Candidate -> seq<Hypothesis>, p: seq<real>, offers: seq<Offer>,
                    scores: seq<CandidateScore>)
    requires |scores| == |offers|
    requires forall offer :: offer in offers <==> OnOffer(problem, offer)
    requires forall i :: 0 <= i < |offers| ==> ScoreTells(laws, hypothesesOf, p, offers[i], scores[i])
    ensures HasPositive(scores) <==> SomethingToLearn(laws, problem, hypothesesOf, p)
  {
    hide OnOffer, OfferTells;
    if HasPositive(scores) {
      var i :| 0 <= i < |scores| && scores[i].gain > POSITIVE_INFORMATION_TOLERANCE;
      assert offers[i] in offers && ScoreTells(laws, hypothesesOf, p, offers[i], scores[i]);
      assert OnOffer(problem, offers[i]) && OfferTells(laws, hypothesesOf, p, offers[i], scores[i].gain);
    }
    if offer, gain :| OnOffer(problem, offer) && OfferTells(laws, hypothesesOf, p, offer, gain) && gain > 0.000000000001 {
      var i :| 0 <= i < |offers| && offers[i] == offer;
      assert ScoreTells(laws, hypothesesOf, p, offers[i], scores[i]);
    }
  }

  lemma NoneBetterThan(laws: GainLaws, problem: Problem, hypothesesOf: Candidate -> seq<Hypothesis>, p: seq<real>, offers: seq<Offer>,
                       scores: seq<CandidateScore>, k: nat)
    requires |scores| == |offers| && k < |offers|
    requires forall offer :: offer in offers <==> OnOffer(problem, offer)
    requires forall i :: 0 <= i < |offers| ==> ScoreTells(laws, hypothesesOf, p, offers[i], scores[i])
    requires forall s :: s in scores ==> NoWorse(HasPositive(scores), scores[k], s)
    ensures NoneBetter(laws, problem, hypothesesOf, p, offers[k], scores[k].gain, HasPositive(scores))
  {
    hide OnOffer, OfferTells, HasPositive, StringLess;
    assert ScoreTells(laws, hypothesesOf, p, offers[k], scores[k]);
    forall other, otherGain | OnOffer(problem, other) && OfferTells(laws, hypothesesOf, p, other, otherGain)
      ensures OfferNoWorse(HasPositive(scores), scores[k].gain, offers[k], otherGain, other)
    {
      var i :| 0 <= i < |offers| && offers[i] == other;
      assert ScoreTells(laws, hypothesesOf, p, offers[i], scores[i]);
      assert NoWorse(HasPositive(scores), scores[k], scores[i]);
    }
  }

  /** The base one-step policy, whatever the problem: a decision that is made is the best offer, with every pair
      weighed by the policy's own hypotheses. */
  lemma DecideMeaning(laws: GainLaws, problem: Problem, hypotheses: seq<Hypothesis>, state: BeliefState)
    requires SoundGainLaws(laws) && PositiveSigmas(hypotheses) && ValidState(state)
    requires HypothesisIds(Ordered(hypotheses)) == state.hypothesisIds && Decide(laws, problem, hypotheses, state).Ok?
    ensures BestOffer(laws, problem, Same(hypotheses), state.posterior, Decide(laws, problem, hypotheses, state).value)
  {
    hide Consider, Offers, EstimateGain, RankScores, NoWorse, ScoresOffers, HasPositive, ScoreOf, OnOffer, BestOffer, ScoreTells, ValidState,
      HypothesisIds, Ordered, SoundGainLaws, PositiveSigmas;
    StateLength(state);
    var estimate, offers := EstimateGain(laws, hypotheses, state).value, Offers(problem, InIdOrder(problem.candidates)).value;
    var scores := Scored(estimate, offers);
    ScoredOffers(problem, (o: Offer) => estimate, offers, scores);
    SelectedIsBest(scores);
    OffersOnOffer(problem);
    forall i | 0 <= i < |offers| ensures ScoreTells(laws, Same(hypotheses), state.posterior, offers[i], scores[i]) {
      assert offers[i] in offers;
      BaseScoreTells(laws, problem, hypotheses, state, offers[i]);
    }
    BestScoreIsBestOffer(laws, problem, Same(hypotheses), state.posterior, offers, scores, Decide(laws, problem, hypotheses, state).value);
  }

  lemma StateLength(state: BeliefState)
    requires ValidState(state)
    ensures |state.posterior| == |state.hypothesisIds|
  {
  }

  lemma BaseScoreTells(laws: GainLaws, problem: Problem, hypotheses: seq<Hypothesis>, state: BeliefState, offer: Offer)
    requires SoundGainLaws(laws) && PositiveSigmas(hypotheses) && ValidState(state)
    requires HypothesisIds(Ordered(hypotheses)) == state.hypothesisIds && EstimateGain(laws, hypotheses, state).Ok? && OnOffer(problem, offer)
    ensures ScoreTells(laws, Same(hypotheses), state.posterior, offer, ScoreOf(EstimateGain(laws, hypotheses, state).value, offer))
  {
    hide AssessCandidate, IsExpectedGain, EstimateGain, HypothesisIds, Ordered, EntropyKernel, MonotoneCdf, Sum;
    if offer.assessment.effect == CompletesPair {
      CloserHasCounterpart(problem.contract, offer.candidate, problem.completed);
      EstimateMeaning(laws, hypotheses, state);
      var estimate := EstimateGain(laws, hypotheses, state).value;
      forall gain | IsExpectedGain(laws, hypotheses, state.posterior, gain) ensures gain == estimate.gain {
        ExpectedGainUnique(laws, hypotheses, state.posterior, gain, estimate.gain);
      }
    }
  }

  /** No group's pair is expected to tell anything. */
  ghost predicate NothingReducible(laws: GainLaws, adapter: Adapter, p: seq<real>) {
    forall s, gain :: s in adapter.snapshots && IsExpectedGain(laws, s.hypotheses, p, gain) ==> gain <= 0.000000000001
  }

  /** A fallback says that nothing is reducible exactly when no group's pair is expected to tell anything; and the
      contexts are those estimated for the group of the selection, or for the first group. */
  lemma FallbackMeaning(laws: GainLaws, adapter: Adapter, problem: Problem, belief: BeliefState)
    requires SoundGainLaws(laws) && PlansFor(adapter, belief) && |adapter.snapshots| > 0
    requires DecideAdapted(laws, adapter, problem, belief).Ok?
    ensures var trace := DecideAdapted(laws, adapter, problem, belief).value;
      && (trace.fallback == Some(NoReducibleUncertainty) <==> trace.fallback.Some? && NothingReducible(laws, adapter, belief.posterior))
      && var i := SnapshotFor(adapter, trace.selected.score.candidate);
      && var own := adapter.snapshots[if i.Some? then i.value else 0];
      && EstimateGain(laws, own.hypotheses, belief).Ok? && trace.contexts == EstimateGain(laws, own.hypotheses, belief).value.contexts
  {
    hide EstimateGain, IsExpectedGain, Offers, RankScores, HasPositive, ScoredByGroup, SnapshotFor, SoundAdapter, HypothesisIds, Ordered,
      EntropyKernel, MonotoneCdf, IsDistribution, Estimates, NothingReducible, PositiveSigmas;
    SnapshotsPositive(adapter, |belief.posterior|);
    EstimatesExact(laws, adapter.snapshots, belief);
    UninformativeIff(laws, adapter, belief);
  }

  lemma UninformativeIff(laws: GainLaws, adapter: Adapter, belief: BeliefState)
    requires SoundGainLaws(laws) && PlansFor(adapter, belief) && Estimates(laws, adapter.snapshots, belief).Ok?
    ensures AllUninformative(Estimates(laws, adapter.snapshots, belief).value) <==> NothingReducible(laws, adapter, belief.posterior)
  {
    hide EstimateGain, IsExpectedGain, SoundAdapter, HypothesisIds, Ordered, EntropyKernel, Estimates, PositiveSigmas, Sum, MonotoneCdf;
    SnapshotsPositive(adapter, |belief.posterior|);
    EstimatesExact(laws, adapter.snapshots, belief);
    var estimates := Estimates(laws, adapter.snapshots, belief).value;
    forall i | 0 <= i < |adapter.snapshots|
      ensures forall gain :: IsExpectedGain(laws, adapter.snapshots[i].hypotheses, belief.posterior, gain) <==> gain == estimates[i].gain
    {
      assert adapter.snapshots[i] in adapter.snapshots;
      EstimateMeaning(laws, adapter.snapshots[i].hypotheses, belief);
      forall gain | IsExpectedGain(laws, adapter.snapshots[i].hypotheses, belief.posterior, gain) ensures gain == estimates[i].gain {
        ExpectedGainUnique(laws, adapter.snapshots[i].hypotheses, belief.posterior, gain, estimates[i].gain);
      }
    }
    if NothingReducible(laws, adapter, belief.posterior) {
      forall i | 0 <= i < |estimates| ensures estimates[i].gain <= POSITIVE_INFORMATION_TOLERANCE {
        assert adapter.snapshots[i] in adapter.snapshots;
        assert IsExpectedGain(laws, adapter.snapshots[i].hypotheses, belief.posterior, estimates[i].gain);
      }
    }
    if AllUninformative(estimates) {
      forall s, gain | s in adapter.snapshots && IsExpectedGain(laws, s.hypotheses, belief.posterior, gain) ensures gain <= 0.000000000001 {
        var i :| 0 <= i < |adapter.snapshots| && adapter.snapshots[i] == s;
        assert gain == estimates[i].gain;
      }
    }
  }

  // ----- what a choice is -----

  /** An information-gain policy chooses the best offer, a lookahead policy the best plan. */
  ghost predicate BestChoice(policy: Policy, laws: GainLaws, problem: Problem, hypothesesOf: Candidate -> seq<Hypothesis>, p: seq<real>,
                             trace: PolicyTrace)
  {
    match policy
    case InformationGain => trace.OneStepTrace? && BestOffer(laws, problem, hypothesesOf, p, trace.decision)
    case Lookahead => trace.TwoStepTrace? && Registry(problem) && BestPlan(laws, problem, hypothesesOf, p, trace.plan)
  }

  lemma OneStepMeaning(laws: GainLaws, adapter: Adapter, problem: Problem, belief: BeliefState, trace: PolicyTrace)
    requires SoundGainLaws(laws) && PlansFor(adapter, belief) && problem.contract == adapter.contract && |adapter.snapshots| > 0
    requires ChosenBy(InformationGain, laws, adapter, problem, belief, trace)
    ensures BestChoice(InformationGain, laws, problem, GroupHypotheses(adapter), belief.posterior, trace)
  {
    hide BestScore, BestOffer, ScoreTells, OnOffer, Consider, Offers, Estimates, EstimateFor, ScoreOf, GroupHypotheses, SoundAdapter,
      IsDistribution, HypothesisIds, Ordered, SoundGainLaws;
    var estimates, offers := Estimates(laws, adapter.snapshots, belief).value, Offers(problem, InIdOrder(problem.candidates)).value;
    var scores := ScoredByGroup(adapter, estimates, offers);
    OffersOnOffer(problem);
    forall i | 0 <= i < |offers| ensures ScoreTells(laws, GroupHypotheses(adapter), belief.posterior, offers[i], scores[i]) {
      assert offers[i] in offers;
      GroupScoreTells(laws, adapter, problem, belief, offers[i]);
    }
    BestScoreIsBestOffer(laws, problem, GroupHypotheses(adapter), belief.posterior, offers, scores, trace.decision);
  }

  lemma OffersOnOffer(problem: Problem)
    requires Offers(problem, InIdOrder(problem.candidates)).Ok?
    ensures forall offer :: offer in Offers(problem, InIdOrder(problem.candidates)).value <==> OnOffer(problem, offer)
  {
    hide Consider, OnOffer;
    OffersAreConsidered(problem, InIdOrder(problem.candidates));
    SortMembers(problem.candidates, CandidateBefore);
    forall offer ensures offer in Offers(problem, InIdOrder(problem.candidates)).value <==> OnOffer(problem, offer) {
      if OnOffer(problem, offer) {
        OfferOfProblem(problem, offer);
      }
      if offer.candidate in problem.candidates {
        OfferedIff(problem, offer);
      }
    }
  }

  lemma {:induction false} DesignedCandidates(problem: Problem, candidates: seq<Candidate>)
    requires CandidatesDesigned(problem, candidates).Ok?
    ensures forall c :: c in candidates ==> AnswerableCandidate(problem, c)
  {
    hide CostOf, Registered;
    if |candidates| > 0 {
      DesignedCandidates(problem, candidates[..|candidates| - 1]);
      assert candidates == candidates[..|candidates| - 1] + [candidates[|candidates| - 1]];
    }
  }

  /** A two-step decision is only made when everything it was asked about has a design and a cost. */
  lemma PlannedIsRegistered(laws: GainLaws, adapter: Adapter, problem: Problem, belief: BeliefState)
    requires DecideLookaheadAdapted(laws, adapter, problem, belief).Ok?
    ensures Registry(problem)
  {
    hide FirstPlansAdapted, AnswerableCandidate, RankedPlans, SortBy, CandidatesDesigned, AllRegistered, Registry;
    DesignedCandidates(problem, InIdOrder(problem.candidates));
    SortMembers(problem.candidates, CandidateBefore);
    RegistryAnswers(problem);
  }

  lemma TwoStepMeaning(laws: GainLaws, adapter: Adapter, problem: Problem, belief: BeliefState, trace: PolicyTrace)
    requires SoundGainLaws(laws) && PlansFor(adapter, belief) && problem.contract == adapter.contract && |adapter.snapshots| > 0
    requires ChosenBy(Lookahead, laws, adapter, problem, belief, trace) && Registry(problem)
    ensures BestChoice(Lookahead, laws, problem, GroupHypotheses(adapter), belief.posterior, trace)
  {
    hide LeastPlan, BestPlan, PlanMeans, OnOffer, Consider, Registry, AdaptedPlan, GroupHypotheses, SoundGainLaws, SoundAdapter,
      IsDistribution, HypothesisIds, Ordered;
    forall offer | OnOffer(problem, offer)
      ensures PlanFirstAdapted(laws, adapter, problem, belief.posterior, offer).Ok?
      ensures PlanMeans(laws, problem, GroupHypotheses(adapter), belief.posterior, offer,
                        PlanFirstAdapted(laws, adapter, problem, belief.posterior, offer).value)
    {
      OfferOfProblem(problem, offer);
      OfferedIff(problem, offer);
      PlanFirstAdaptedMeaning(laws, adapter, problem, belief.posterior, offer);
    }
    AdaptedPlanIs(laws, adapter, problem, belief.posterior);
    LeastIsBest(laws, problem, GroupHypotheses(adapter), belief.posterior, AdaptedPlan(laws, adapter, problem, belief.posterior), trace.plan);
  }

  /** What an arm's choice is, in the experiments completed, the costs, and the gain each pair is expected to
      bring: by information gain the best offer, by lookahead the best plan. */
  lemma ChoiceMeaning(arm: Arm, adapter: Adapter, problem: Problem, belief: BeliefState)
    requires SoundGainLaws(arm.laws.gain) && PlansFor(adapter, belief) && problem.contract == adapter.contract
    requires |adapter.snapshots| > 0 && WellShaped(belief) && ChoosePolicy(arm, adapter, problem, belief).Ok?
    ensures BestChoice(arm.spec.policy, arm.laws.gain, problem, GroupHypotheses(adapter), belief.posterior,
                       ChoosePolicy(arm, adapter, problem, belief).value)
  {
    hide ChosenBy, BestChoice, SoundGainLaws, PlansFor, GroupHypotheses, DecideAdapted, DecideLookaheadAdapted, Decide, DecideLookahead;
    ChoiceByPolicy(arm, adapter, problem, belief);
    var trace := ChoosePolicy(arm, adapter, problem, belief).value;
    match arm.spec.policy
    case InformationGain => OneStepMeaning(arm.laws.gain, adapter, problem, belief, trace);
    case Lookahead =>
      LookaheadPlans(arm, adapter, problem, belief);
      TwoStepMeaning(arm.laws.gain, adapter, problem, belief, trace);
  }

  /** A lookahead arm that has chosen has had everything registered. */
  lemma LookaheadPlans(arm: Arm, adapter: Adapter, problem: Problem, belief: BeliefState)
    requires |adapter.snapshots| > 0 && WellShaped(belief) && ChoosePolicy(arm, adapter, problem, belief).Ok?
    requires arm.spec.policy == Lookahead
    ensures Registry(problem)
  {
    hide DecideLookaheadAdapted, DecideLookahead, Registry;
    PlannedIsRegistered(arm.laws.gain, adapter, problem, belief);
  }

  // ----- every decision of every run -----

  /** The open candidates whose cost fits what remains, with the loop's slack. */
  ghost predicate OpenAndAffordable(arm: Arm, completed: seq<CompletedExperiment>, remaining: real, feasible: seq<Candidate>) {
    forall c :: c in feasible <==>
      && c in arm.candidates
      && (forall j :: 0 <= j < |completed| ==> completed[j].candidate.id != c.id)
      && c.id in arm.costs && 0.0 <= arm.costs[c.id] <= remaining + 0.000000000001
  }

  /** The three hypotheses under the sigma frozen for the group from the effects seen so far, for every
      optimizer group. */
  ghost predicate FrozenSigmas(arm: Arm, snapshots: seq<Snapshot>, effects: seq<MatchedEffect>, cutoff: nat) {
    && (forall s :: s in snapshots ==>
          && s.choice == PlanSigma(arm.laws.belief.deviation, arm.spec.model, effects, s.group, cutoff)
          && s.hypotheses == HypothesesWithSigma(s.choice.sigma))
    && (forall d :: d in arm.contract.designs && d.IsOptimizerEffect() ==> exists s :: s in snapshots && s.group == d.group)
  }

  /** Decision `i` against the records before it: with `k` pairs completed, the belief after `k` updates, and
      what the first `i` experiments have left open and affordable. */
  ghost predicate DecisionMeans(arm: Arm, s: LoopState, i: nat)
    requires i < |s.decisions| && |s.completed| == |s.decisions|
  {
    var k, before := Closers(s.decisions[..i]), s.completed[..i];
    var remaining := arm.spec.budget - RunningCost(arm.costs, before);
    && k <= |s.updates| == |s.evidence|
    && FrozenSigmas(arm, s.decisions[i].snapshots, arm.calibration + DecisionEffects(s.evidence[..k]), k + 1)
    && (exists feasible ::
          && OpenAndAffordable(arm, before, remaining, feasible)
          && BestChoice(arm.spec.policy, arm.laws.gain, Problem(arm.contract, feasible, before, arm.costs, remaining),
                        GroupHypotheses(Adapter(arm.contract, s.decisions[i].snapshots)), BeliefAfter(s.updates, k).posterior,
                        s.decisions[i].trace))
  }

  lemma FeasibleMeaning(arm: Arm, completed: seq<CompletedExperiment>, remaining: real, feasible: seq<Candidate>)
    requires Affordable(arm.costs, Uncompleted(arm, completed), remaining) == Ok(feasible)
    ensures OpenAndAffordable(arm, completed, remaining, feasible)
  {
    hide Affordable, Uncompleted;
    AffordableMembers(arm.costs, Uncompleted(arm, completed), remaining);
    UncompletedMembers(arm, completed);
    forall c ensures c in feasible <==>
      && c in arm.candidates
      && (forall j :: 0 <= j < |completed| ==> completed[j].candidate.id != c.id)
      && c.id in arm.costs && 0.0 <= arm.costs[c.id] <= remaining + 0.000000000001
    {
    }
  }

  lemma BuiltPlansFor(arm: Arm, belief: BeliefState, effects: seq<MatchedEffect>, adapter: Adapter)
    requires OptimizerState(belief)
    requires BuildAdapter(arm.laws.belief.deviation, arm.spec.model, belief, effects, arm.contract) == Ok(adapter)
    ensures adapter.contract == arm.contract && |adapter.snapshots| > 0 && PlansFor(adapter, belief)
    ensures FrozenSigmas(arm, adapter.snapshots, effects, belief.sequence + 1)
  {
    hide BuildAdapter, ValidState, HypothesesWithSigma, PlanSigma, OptimizerIds, HypothesisIds, Ordered, SoundAdapter;
    ShapedState(belief);
    AdapterIsBuilt(arm.laws.belief.deviation, arm.spec.model, belief, effects, arm.contract);
    BuiltAdapterSound(arm.laws.belief.deviation, arm.spec.model, belief, effects, adapter);
  }

  /** What one iteration decides, from its loop head. */
  lemma StepDecides(arm: Arm, s: LoopState, feasible: seq<Candidate>, record: DecisionRecord)
    requires SoundGainLaws(arm.laws.gain) && WellShaped(s.belief) && OptimizerState(s.belief)
    requires Decided(arm, s.completed, s.belief, s.effects, feasible, arm.spec.budget - s.cumulativeCost) == Ok(record)
    ensures FrozenSigmas(arm, record.snapshots, s.effects, s.belief.sequence + 1)
    ensures BestChoice(arm.spec.policy, arm.laws.gain,
                       Problem(arm.contract, feasible, s.completed, arm.costs, arm.spec.budget - s.cumulativeCost),
                       GroupHypotheses(Adapter(arm.contract, record.snapshots)), s.belief.posterior, record.trace)
  {
    hide BuildAdapter, ChoosePolicy, RecordedEffect, BestChoice, SoundGainLaws, OptimizerState, FrozenSigmas, PlansFor, GroupHypotheses;
    var adapter := BuildAdapter(arm.laws.belief.deviation, arm.spec.model, s.belief, s.effects, arm.contract).value;
    BuiltPlansFor(arm, s.belief, s.effects, adapter);
    ChoiceMeaning(arm, adapter, ProblemAt(arm, s.completed, feasible, arm.spec.budget - s.cumulativeCost), s.belief);
    assert adapter == Adapter(arm.contract, record.snapshots);
  }

  /** Every decision recorded at every head of every run is the best choice of the arm's policy. */
  lemma EveryDecision(arm: Arm, log: OracleLog, n: nat, i: nat)
    requires SoundArm(arm) && i < n && HeadAt(arm, Start(arm, log), n).Some?
    ensures var s := HeadAt(arm, Start(arm, log), n).value;
      |s.decisions| == |s.completed| == n && DecisionMeans(arm, s, i)
  {
    hide Next, Start, SoundGainLaws, HeadInvariant, RunningCost, OptimizerState, Closers, BestChoice, FrozenSigmas, Decided,
      OpenAndAffordable, Executed, Absorbed, Affordable, Uncompleted, GroupHypotheses, BeliefAfter, EvidenceIds, HeadAt, DecisionMeans;
    HeadIsPrefix(arm, log, i, n);
    HeadIsPrefix(arm, log, i + 1, n);
    var s, t, final := HeadAt(arm, Start(arm, log), i).value, HeadAt(arm, Start(arm, log), i + 1).value, HeadAt(arm, Start(arm, log), n).value;
    HeadFollows(arm, Start(arm, log), i);
    var feasible, record, x, after := NextParts(arm, s);
    ExecutedShape(arm, s, feasible, record);
    assert final.decisions[i] == record;
    StepDecides(arm, s, feasible, record);
    FeasibleMeaning(arm, s.completed, arm.spec.budget - s.cumulativeCost, feasible);
    HeadEffects(arm, log, s);
    DecisionFrom(arm, final, i, feasible);
  }

  lemma DecisionFrom(arm: Arm, s: LoopState, i: nat, feasible: seq<Candidate>)
    requires i < |s.decisions| && |s.completed| == |s.decisions|
    requires Closers(s.decisions[..i]) <= |s.updates| == |s.evidence|
    requires FrozenSigmas(arm, s.decisions[i].snapshots, arm.calibration + DecisionEffects(s.evidence[..Closers(s.decisions[..i])]),
                          Closers(s.decisions[..i]) + 1)
    requires var before, remaining := s.completed[..i], arm.spec.budget - RunningCost(arm.costs, s.completed[..i]);
      && OpenAndAffordable(arm, before, remaining, feasible)
      && BestChoice(arm.spec.policy, arm.laws.gain, Problem(arm.contract, feasible, before, arm.costs, remaining),
                    GroupHypotheses(Adapter(arm.contract, s.decisions[i].snapshots)),
                    BeliefAfter(s.updates, Closers(s.decisions[..i])).posterior, s.decisions[i].trace)
    ensures DecisionMeans(arm, s, i)
  {
    hide BestChoice, FrozenSigmas, OpenAndAffordable, GroupHypotheses, BeliefAfter, Closers, RunningCost;
  }

  lemma HeadEffects(arm: Arm, log: OracleLog, s: LoopState)
    requires HeadInvariant(arm, log, s)
    ensures s.effects == arm.calibration + DecisionEffects(s.evidence) && s.belief.sequence == |s.updates|
  {
  }

  /** So is every decision of a returned run. */
  lemma ReturnedDecisions(arm: Arm, log: OracleLog)
    requires SoundArm(arm) && RunArm(arm, log).Ok?
    ensures var s := RunArm(arm, log).value.state;
      |s.decisions| == |s.completed| && forall i: nat :: i < |s.decisions| ==> DecisionMeans(arm, s, i)
  {
    hide Next, HeadInvariant, SoundArm, Start, OpenIds, RowOf, TraceFrom, HeadAt, DecisionMeans;
    var begin, run := Start(arm, log), RunArm(arm, log).value;
    assert HeadAt(arm, begin, 0) == Some(begin) by { FirstHead(arm, begin); }
    var n := RunEndsAtHead(arm, begin, 0);
    HeadIsPrefix(arm, log, n, n);
    forall i: nat | i < n ensures DecisionMeans(arm, run.state, i) {
      EveryDecision(arm, log, n, i);
    }
  }
}
