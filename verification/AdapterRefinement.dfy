/** What the adapter's planners guarantee, and that with one set of hypotheses for every group they
    decide exactly as the base policies do. */
module AdapterRefinement {
  import opened Wrappers
  import opened RealSums
  import opened Information
  import opened Ordering
  import opened EvidenceEligibility
  import opened Reasoning
  import opened OptimizerEffect
  import opened BeliefModels
  import opened EvidenceOutcomes
  import opened OneStepPolicy
  import opened LookaheadPolicy
  import opened PredictionAdapter

  /** Every snapshot can be planned with, and every optimizer group has one. */
  ghost predicate SoundAdapter(adapter: Adapter, size: nat) {
    && |adapter.snapshots| > 0
    && (forall s :: s in adapter.snapshots ==> PositiveSigmas(s.hypotheses) && |s.hypotheses| == size)
    && (forall d :: d in adapter.contract.designs && d.IsOptimizerEffect() ==>
          exists s :: s in adapter.snapshots && s.group == d.group)
  }

  lemma BuiltAdapterSound(deviation: Deviation, model: Model, state: BeliefState, history: seq<MatchedEffect>, adapter: Adapter)
    requires BuiltAdapter(deviation, model, state, history, adapter.contract, adapter)
    ensures SoundAdapter(adapter, 3)
    ensures forall s :: s in adapter.snapshots ==> HypothesisIds(Ordered(s.hypotheses)) == OptimizerIds()
  {
    hide PlanSigma, Ordered, HypothesisIds, OptimizerIds;
    forall s | s in adapter.snapshots
      ensures PositiveSigmas(s.hypotheses) && |s.hypotheses| == 3 && HypothesisIds(Ordered(s.hypotheses)) == OptimizerIds()
    {
      PlannedSigmaPositive(deviation, model, history, s.group, state.sequence + 1);
      HypothesesOrdered(s.choice.sigma);
      IdsIgnoreSigma(s.choice.sigma);
    }
  }

  lemma CloserHasSnapshot(adapter: Adapter, size: nat, c: Candidate, completed: seq<CompletedExperiment>)
    requires SoundAdapter(adapter, size)
    requires AssessCandidate(adapter.contract, c, completed).Ok?
    requires AssessCandidate(adapter.contract, c, completed).value.effect == CompletesPair
    ensures SnapshotFor(adapter, c).Some?
  {
    hide AssessRegistered;
    var design := DesignFor(adapter.contract, c).value;
    assert design.IsOptimizerEffect();
  }

  // ----- exactness of the two-step adapter planner -----

  /** The gain of closing with each candidate, zero for one that cannot close. */
  function AdaptedGain(laws: GainLaws, adapter: Adapter, p: seq<real>): Candidate -> real {
    (c: Candidate) => var g := CloserGain(laws, adapter, p, c); if g.Ok? then g.value else 0.0
  }

  lemma CloserGainExact(laws: GainLaws, adapter: Adapter, problem: Problem, p: seq<real>, remaining: real, c: Candidate)
    requires SoundGainLaws(laws) && SoundAdapter(adapter, |p|) && IsDistribution(p) && problem.contract == adapter.contract
    requires Closer(problem, remaining, c).Ok? && Closer(problem, remaining, c).value.Some?
    ensures CloserGain(laws, adapter, p, c).Ok?
    ensures 0.0 <= CloserGain(laws, adapter, p, c).value <= Entropy(laws.phi, p)
  {
    hide DiscretizedOutcomes, Entropy, SnapshotFor, AssessCandidate, IsCompleted, CostOf;
    CloserHasSnapshot(adapter, |p|, c, problem.completed);
    var i := SnapshotFor(adapter, c).value;
    assert adapter.snapshots[i] in adapter.snapshots;
    OutcomesExact(laws, adapter.snapshots[i].hypotheses, p);
  }

  lemma {:induction false} AdaptedChoicesExact(laws: GainLaws, adapter: Adapter, problem: Problem, p: seq<real>, remaining: real,
                                               candidates: seq<Candidate>)
    requires SoundGainLaws(laws) && SoundAdapter(adapter, |p|) && IsDistribution(p) && problem.contract == adapter.contract
    requires forall c :: c in candidates ==> Closer(problem, remaining, c).Ok?
    ensures SecondChoicesAdapted(laws, adapter, problem, p, remaining, candidates).Ok?
    ensures ChoicesOf(problem, AdaptedGain(laws, adapter, p), remaining, candidates,
                      SecondChoicesAdapted(laws, adapter, problem, p, remaining, candidates).value)
  {
    hide Closer, CloserGain, SoundGainLaws, SoundAdapter, IsDistribution, Entropy;
    if |candidates| > 0 {
      var n := |candidates| - 1;
      assert candidates == candidates[..n] + [candidates[n]];
      AdaptedChoicesExact(laws, adapter, problem, p, remaining, candidates[..n]);
      if Closer(problem, remaining, candidates[n]).value.Some? {
        CloserGainExact(laws, adapter, problem, p, remaining, candidates[n]);
      }
    }
  }

  lemma BestSecondAdaptedExact(laws: GainLaws, adapter: Adapter, problem: Problem, p: seq<real>, remaining: real)
    requires SoundGainLaws(laws) && SoundAdapter(adapter, |p|) && IsDistribution(p) && problem.contract == adapter.contract
    requires Answerable(problem) && remaining >= 0.0
    ensures BestSecondAdapted(laws, adapter, problem, p, remaining).Ok?
    ensures var best := BestSecondAdapted(laws, adapter, problem, p, remaining).value;
      && OptimalSecond(problem, AdaptedGain(laws, adapter, p), remaining, best)
      && 0.0 <= best.gain <= Entropy(laws.phi, p)
      && 0.0 <= best.cost <= remaining + POSITIVE_INFORMATION_TOLERANCE
  {
    hide Closer, CloserGain, SoundGainLaws, SoundAdapter, IsDistribution, Entropy, OptimalSecond, ChoicesOf, AnswerableCandidate,
      SecondChoicesAdapted, AllRegistered;
    SortMembers(problem.candidates, CandidateBefore);
    var sorted := InIdOrder(problem.candidates);
    forall c | c in problem.candidates ensures Closer(problem, remaining, c).Ok? {
      AnswerableGuards(problem, c, remaining);
    }
    AdaptedChoicesExact(laws, adapter, problem, p, remaining, sorted);
    var choices := SecondChoicesAdapted(laws, adapter, problem, p, remaining, sorted).value;
    PreferredIsOptimal(problem, AdaptedGain(laws, adapter, p), remaining, choices);
    forall c | c in problem.candidates && Closer(problem, remaining, c).Ok? && Closer(problem, remaining, c).value.Some?
      ensures 0.0 <= AdaptedGain(laws, adapter, p)(c) <= Entropy(laws.phi, p)
    {
      CloserGainExact(laws, adapter, problem, p, remaining, c);
    }
    EntropyOfDistribution(laws, p);
    OptimalBounds(problem, AdaptedGain(laws, adapter, p), Entropy(laws.phi, p), remaining, Preferred(choices));
  }

  lemma EntropyOfDistribution(laws: GainLaws, p: seq<real>)
    requires SoundGainLaws(laws) && IsDistribution(p)
    ensures Entropy(laws.phi, p) >= 0.0
  {
    EntropyNonNegative(laws.phi, p);
  }

  ghost predicate ExactAdaptedBranch(laws: GainLaws, adapter: Adapter, simulated: Problem, firstCost: real, b: Branch) {
    && SoundChoice(b, firstCost, simulated.budget)
    && OptimalSecond(simulated, AdaptedGain(laws, adapter, b.outcome.posterior), simulated.budget - firstCost, b.second)
  }

  lemma {:induction false} AdaptedBranchesExact(laws: GainLaws, adapter: Adapter, size: nat, simulated: Problem,
                                                outcomes: seq<OutcomeBranch>, firstCost: real)
    requires SoundGainLaws(laws) && SoundAdapter(adapter, size) && simulated.contract == adapter.contract
    requires Answerable(simulated) && firstCost <= simulated.budget
    requires forall i :: 0 <= i < |outcomes| ==> SoundBranch(laws.phi, size, outcomes[i])
    ensures PlanBranchesAdapted(laws, adapter, simulated, outcomes, firstCost).Ok?
    ensures var branches := PlanBranchesAdapted(laws, adapter, simulated, outcomes, firstCost).value;
      && Outcomes(branches) == outcomes
      && forall i :: 0 <= i < |branches| ==> ExactAdaptedBranch(laws, adapter, simulated, firstCost, branches[i])
  {
    hide BestSecondAdapted, SoundGainLaws, SoundAdapter, IsDistribution, Entropy, OptimalSecond, Answerable;
    if |outcomes| > 0 {
      var n := |outcomes| - 1;
      AdaptedBranchesExact(laws, adapter, size, simulated, outcomes[..n], firstCost);
      assert SoundBranch(laws.phi, size, outcomes[n]);
      BestSecondAdaptedExact(laws, adapter, simulated, outcomes[n].posterior, simulated.budget - firstCost);
    }
  }

  lemma FirstOutcomesAdaptedExact(laws: GainLaws, adapter: Adapter, p: seq<real>, offer: Offer, completed: seq<CompletedExperiment>)
    requires SoundGainLaws(laws) && SoundAdapter(adapter, |p|) && IsDistribution(p)
    requires AssessCandidate(adapter.contract, offer.candidate, completed) == Ok(offer.assessment)
    ensures FirstOutcomesAdapted(laws, adapter, p, offer).Ok?
    ensures var first := FirstOutcomesAdapted(laws, adapter, p, offer).value;
      && SoundBranches(laws.phi, |p|, first.1)
      && first.0 == Entropy(laws.phi, p) - Sum(EntropyShares(first.1))
      && first.0 >= 0.0
  {
    hide DiscretizedOutcomes, Entropy, AssessCandidate, FirstOutcomes, SoundBranches, EntropyShares, SnapshotFor;
    assert |adapter.snapshots| > 0 && adapter.snapshots[0] in adapter.snapshots;
    if offer.assessment.effect == CompletesPair {
      CloserHasSnapshot(adapter, |p|, offer.candidate, completed);
      var i := SnapshotFor(adapter, offer.candidate).value;
      assert adapter.snapshots[i] in adapter.snapshots;
      OutcomesExact(laws, adapter.snapshots[i].hypotheses, p);
    } else {
      FirstOutcomesExact(laws, adapter.snapshots[0].hypotheses, p, offer.assessment.effect);
      NoEvidenceOutcomes(laws, adapter.snapshots[0].hypotheses, p, offer.assessment.effect);
    }
  }

  lemma NoEvidenceOutcomes(laws: GainLaws, hypotheses: seq<Hypothesis>, p: seq<real>, effect: Effect)
    requires effect != CompletesPair
    ensures FirstOutcomes(laws, hypotheses, p, effect) == Ok((0.0, [OutcomeBranch(None, 1.0, p, Entropy(laws.phi, p))]))
  {
  }

  /** Every first action of the adapter planner is planned without an error, its plan obeys the chain
      rule, and in each branch its second action is optimal among closers with their own gains. */
  lemma PlanFirstAdaptedExact(laws: GainLaws, adapter: Adapter, problem: Problem, p: seq<real>, offer: Offer)
    requires SoundGainLaws(laws) && SoundAdapter(adapter, |p|) && IsDistribution(p)
    requires Answerable(problem) && problem.contract == adapter.contract
    requires offer.candidate in problem.candidates && Consider(problem, offer.candidate) == Ok(Some(offer))
    ensures PlanFirstAdapted(laws, adapter, problem, p, offer).Ok?
    ensures var plan := PlanFirstAdapted(laws, adapter, problem, p, offer).value;
      && plan.candidate == offer.candidate && plan.firstCost == offer.cost && plan.effect == offer.assessment.effect
      && plan.ratio == InformationPerCost(plan.totalGain, plan.totalCost)
      && ExactPlan(laws.phi, p, problem.budget, plan)
      && forall i :: 0 <= i < |plan.branches| ==>
           ExactAdaptedBranch(laws, adapter, Simulated(problem, offer.candidate), offer.cost, plan.branches[i])
  {
    hide FirstOutcomesAdapted, PlanBranchesAdapted, SoundGainLaws, Entropy, ExactPlan, SoundChoice, Sum, Answerable, Consider,
      OptimalSecond, TerminalShares, CostShares, EntropyShares, SoundBranch, Probabilities, SoundAdapter, AssessCandidate;
    OfferFits(problem, offer.candidate);
    FirstOutcomesAdaptedExact(laws, adapter, p, offer, problem.completed);
    AnswerableSimulation(problem, offer.candidate);
    var first := FirstOutcomesAdapted(laws, adapter, p, offer).value;
    AdaptedBranchesExact(laws, adapter, |p|, Simulated(problem, offer.candidate), first.1, offer.cost);
    var branches := PlanBranchesAdapted(laws, adapter, Simulated(problem, offer.candidate), first.1, offer.cost).value;
    PlanWithExact(laws.phi, offer, p, first.0, branches, problem.budget);
  }

  function AdaptedPlan(laws: GainLaws, adapter: Adapter, problem: Problem, p: seq<real>): Offer -> Result<FirstPlan, PlanningError> {
    (offer: Offer) => PlanFirstAdapted(laws, adapter, problem, p, offer)
  }

  lemma {:induction false} AdaptedPlansExact(laws: GainLaws, adapter: Adapter, problem: Problem, p: seq<real>, candidates: seq<Candidate>)
    requires SoundGainLaws(laws) && SoundAdapter(adapter, |p|) && IsDistribution(p)
    requires Answerable(problem) && problem.contract == adapter.contract
    requires forall c :: c in candidates ==> c in problem.candidates
    ensures FirstPlansAdapted(laws, adapter, problem, p, candidates).Ok?
    ensures PlansOf(AdaptedPlan(laws, adapter, problem, p), problem, candidates,
                    FirstPlansAdapted(laws, adapter, problem, p, candidates).value)
  {
    hide Consider, PlanFirstAdapted, SoundAdapter, IsDistribution, AllRegistered, AnswerableCandidate, ExactPlan, ExactAdaptedBranch;
    if |candidates| > 0 {
      var n := |candidates| - 1;
      var before, c := candidates[..n], candidates[n];
      assert candidates == before + [c];
      AdaptedPlansExact(laws, adapter, problem, p, before);
      AnswerableConsider(problem, c);
      if Consider(problem, c).value.Some? {
        OfferFits(problem, c);
        var offer := Consider(problem, c).value.value;
        PlanFirstAdaptedExact(laws, adapter, problem, p, offer);
        assert Planned(AdaptedPlan(laws, adapter, problem, p), problem, offer, PlanFirstAdapted(laws, adapter, problem, p, offer).value);
      }
    }
  }

  /** The two-step adapter decision succeeds exactly when some candidate is open, affordable and not
      excluded, and then selects the least of the exact plans. */
  lemma DecideLookaheadAdaptedExact(laws: GainLaws, adapter: Adapter, problem: Problem, state: BeliefState)
    requires SoundGainLaws(laws) && SoundAdapter(adapter, |state.posterior|) && ValidState(state)
    requires Answerable(problem) && problem.contract == adapter.contract && problem.budget >= 0.0
    ensures if SomeOffer(problem) then
        && DecideLookaheadAdapted(laws, adapter, problem, state).Ok?
        && LeastPlan(AdaptedPlan(laws, adapter, problem, state.posterior), problem,
                     DecideLookaheadAdapted(laws, adapter, problem, state).value)
      else DecideLookaheadAdapted(laws, adapter, problem, state) == Err(NoFeasibleCandidate)
  {
    hide FirstPlansAdapted, PlansOf, LeastPlan, ConcludePlans, SomeOffer, AdaptedPlan, AllRegistered, AnswerableCandidate, SoundAdapter;
    SortMembers(problem.candidates, CandidateBefore);
    AdaptedPlansExact(laws, adapter, problem, state.posterior, InIdOrder(problem.candidates));
    ConcludeExact(AdaptedPlan(laws, adapter, problem, state.posterior), problem,
                  FirstPlansAdapted(laws, adapter, problem, state.posterior, InIdOrder(problem.candidates)).value);
  }

  // ----- exactness of the one-step adapter planner -----

  lemma {:induction false} EstimatesExact(laws: GainLaws, snapshots: seq<Snapshot>, state: BeliefState)
    requires SoundGainLaws(laws) && ValidState(state)
    requires forall s :: s in snapshots ==> PositiveSigmas(s.hypotheses) && HypothesisIds(Ordered(s.hypotheses)) == state.hypothesisIds
    ensures Estimates(laws, snapshots, state).Ok?
    ensures forall i :: 0 <= i < |snapshots| ==>
      EstimateGain(laws, snapshots[i].hypotheses, state) == Ok(Estimates(laws, snapshots, state).value[i])
  {
    hide EstimateGain, SoundGainLaws, ValidState, PositiveSigmas, HypothesisIds, Ordered, Entropy, ExpectedEntropy;
    if |snapshots| > 0 {
      EstimatesExact(laws, snapshots[..|snapshots| - 1], state);
      assert snapshots[|snapshots| - 1] in snapshots;
      EstimateExact(laws, snapshots[|snapshots| - 1].hypotheses, state);
    }
  }

  /** The one-step adapter decision succeeds exactly when some candidate is open, affordable and not
      excluded, and then selects the best of them with each scored by its own group's estimate. */
  lemma DecideAdaptedExact(laws: GainLaws, adapter: Adapter, problem: Problem, state: BeliefState)
    requires SoundGainLaws(laws) && SoundAdapter(adapter, |state.posterior|) && ValidState(state)
    requires forall s :: s in adapter.snapshots ==> HypothesisIds(Ordered(s.hypotheses)) == state.hypothesisIds
    requires Answerable(problem) && problem.contract == adapter.contract && problem.budget >= 0.0
    ensures if SomeOffer(problem) then
        && DecideAdapted(laws, adapter, problem, state).Ok?
        && Estimates(laws, adapter.snapshots, state).Ok? && Offers(problem, InIdOrder(problem.candidates)).Ok?
        && BestScore(problem, ScoredByGroup(adapter, Estimates(laws, adapter.snapshots, state).value,
                                            Offers(problem, InIdOrder(problem.candidates)).value),
                     DecideAdapted(laws, adapter, problem, state).value)
      else DecideAdapted(laws, adapter, problem, state) == Err(NoFeasibleCandidate)
  {
    hide Consider, Offers, EstimateGain, RankScores, NoWorse, ScoresOffers, SomeOffer, AnswerableCandidate, HasPositive, ScoreOf,
      EstimateFor, HypothesisIds, Ordered, Estimates, AllUninformative;
    EstimatesExact(laws, adapter.snapshots, state);
    SortMembers(problem.candidates, CandidateBefore);
    forall c | c in InIdOrder(problem.candidates) ensures Consider(problem, c).Ok? {
      AnswerableConsider(problem, c);
    }
    OffersSucceed(problem, InIdOrder(problem.candidates));
    var estimates, offers := Estimates(laws, adapter.snapshots, state).value, Offers(problem, InIdOrder(problem.candidates)).value;
    var scores := ScoredByGroup(adapter, estimates, offers);
    ScoredOffers(problem, (o: Offer) => EstimateFor(adapter, estimates, o.candidate), offers, scores);
    if |offers| > 0 {
      SelectedIsBest(scores);
    }
  }

  /** In an adapter decision a stated reason is the true one exactly when the gains do not differ by a
      positive amount within the tolerance; a fallback decision states only true ones. */
  lemma AdaptedReasonExactIff(laws: GainLaws, adapter: Adapter, problem: Problem, state: BeliefState, i: nat)
    requires SoundGainLaws(laws) && SoundAdapter(adapter, |state.posterior|) && ValidState(state)
    requires forall s :: s in adapter.snapshots ==> HypothesisIds(Ordered(s.hypotheses)) == state.hypothesisIds
    requires DecideAdapted(laws, adapter, problem, state).Ok? && 0 < i < |DecideAdapted(laws, adapter, problem, state).value.ranked|
    ensures var trace := DecideAdapted(laws, adapter, problem, state).value;
      trace.ranked[i].reason == FirstWorse(trace.fallback.None?, trace.ranked[0].score, trace.ranked[i].score) <==>
        !(trace.fallback.None?
          && 0.0 < trace.ranked[0].score.gain - trace.ranked[i].score.gain <= POSITIVE_INFORMATION_TOLERANCE)
  {
    hide Consider, Offers, EstimateGain, Estimates, EstimateFor, SoundGainLaws, RankScores, HasPositive, FirstWorse,
      AllUninformative, HypothesisIds, Ordered, PositiveSigmas, ScoreOf;
    EstimatesExact(laws, adapter.snapshots, state);
    var estimates, offers := Estimates(laws, adapter.snapshots, state).value, Offers(problem, InIdOrder(problem.candidates)).value;
    var scores := ScoredByGroup(adapter, estimates, offers);
    forall k | 0 <= k < |estimates| ensures estimates[k].gain >= 0.0 {
      assert adapter.snapshots[k] in adapter.snapshots;
      GainNonNegative(laws, adapter.snapshots[k].hypotheses, state);
    }
    ScoredNonNegative(adapter, estimates, offers);
    ReasonExactIff(scores, i);
  }

  lemma ScoredNonNegative(adapter: Adapter, estimates: seq<Estimate>, offers: seq<Offer>)
    requires |estimates| == |adapter.snapshots| > 0 && forall k :: 0 <= k < |estimates| ==> estimates[k].gain >= 0.0
    ensures forall s :: s in ScoredByGroup(adapter, estimates, offers) ==> s.gain >= 0.0
  {
    hide SnapshotFor;
  }

  lemma GainNonNegative(laws: GainLaws, hypotheses: seq<Hypothesis>, state: BeliefState)
    requires |state.posterior| == |state.hypothesisIds| && EstimateGain(laws, hypotheses, state).Ok?
    ensures EstimateGain(laws, hypotheses, state).value.gain >= 0.0
  {
    hide MassTable, Ordered, Entropy, ExpectedEntropy, AllFavourable, MostProbable;
  }

  // ----- refinement -----

  /** Every group is predicted with the same hypotheses. */
  ghost predicate SharedHypotheses(adapter: Adapter, hypotheses: seq<Hypothesis>) {
    |adapter.snapshots| > 0 && forall s :: s in adapter.snapshots ==> s.hypotheses == hypotheses
  }

  lemma {:induction false} EstimatesShared(laws: GainLaws, snapshots: seq<Snapshot>, hypotheses: seq<Hypothesis>, state: BeliefState)
    requires |state.posterior| == |state.hypothesisIds|
    requires |snapshots| > 0 && forall s :: s in snapshots ==> s.hypotheses == hypotheses
    ensures EstimateGain(laws, hypotheses, state).Err? ==>
      Estimates(laws, snapshots, state) == Err(EstimateGain(laws, hypotheses, state).error)
    ensures EstimateGain(laws, hypotheses, state).Ok? ==>
      && Estimates(laws, snapshots, state).Ok?
      && forall i :: 0 <= i < |snapshots| ==> Estimates(laws, snapshots, state).value[i] == EstimateGain(laws, hypotheses, state).value
  {
    hide EstimateGain;
    var n := |snapshots| - 1;
    assert snapshots[n] in snapshots;
    if n > 0 {
      EstimatesShared(laws, snapshots[..n], hypotheses, state);
    } else {
      assert snapshots[..n] == [];
    }
  }

  /** One-step refinement: with shared hypotheses the adapter returns the base policy's decision, or
      its error, whatever the problem. */
  lemma OneStepRefines(laws: GainLaws, adapter: Adapter, problem: Problem, hypotheses: seq<Hypothesis>, state: BeliefState)
    requires SharedHypotheses(adapter, hypotheses) && |state.posterior| == |state.hypothesisIds|
    ensures DecideAdapted(laws, adapter, problem, state) == Decide(laws, problem, hypotheses, state)
  {
    hide EstimateGain, Offers, RankScores, SnapshotFor;
    EstimatesShared(laws, adapter.snapshots, hypotheses, state);
    var base, offers := EstimateGain(laws, hypotheses, state), Offers(problem, InIdOrder(problem.candidates));
    if base.Ok? && offers.Ok? {
      var estimates := Estimates(laws, adapter.snapshots, state).value;
      assert ScoredByGroup(adapter, estimates, offers.value) == Scored(base.value, offers.value);
    }
  }

  lemma {:induction false} SecondChoicesRefine(laws: GainLaws, adapter: Adapter, problem: Problem, hypotheses: seq<Hypothesis>,
                                               p: seq<real>, gain: real, remaining: real, candidates: seq<Candidate>)
    requires SharedHypotheses(adapter, hypotheses) && SoundAdapter(adapter, |p|) && problem.contract == adapter.contract
    requires DiscretizedOutcomes(laws, hypotheses, p).Ok? && DiscretizedOutcomes(laws, hypotheses, p).value.gain == gain
    ensures SecondChoicesAdapted(laws, adapter, problem, p, remaining, candidates)
         == SecondChoices(problem, gain, remaining, candidates)
  {
    hide DiscretizedOutcomes, SnapshotFor, AssessCandidate, IsCompleted, CostOf, PositiveSigmas;
    if |candidates| > 0 {
      var n := |candidates| - 1;
      SecondChoicesRefine(laws, adapter, problem, hypotheses, p, gain, remaining, candidates[..n]);
      if Closer(problem, remaining, candidates[n]).Ok? && Closer(problem, remaining, candidates[n]).value.Some? {
        CloserHasSnapshot(adapter, |p|, candidates[n], problem.completed);
        assert adapter.snapshots[SnapshotFor(adapter, candidates[n]).value] in adapter.snapshots;
      }
    }
  }

  lemma {:induction false} PlanBranchesRefine(laws: GainLaws, adapter: Adapter, simulated: Problem, hypotheses: seq<Hypothesis>,
                                              outcomes: seq<OutcomeBranch>, firstCost: real)
    requires SharedHypotheses(adapter, hypotheses) && SoundAdapter(adapter, |hypotheses|) && simulated.contract == adapter.contract
    requires SoundGainLaws(laws) && forall i :: 0 <= i < |outcomes| ==> SoundBranch(laws.phi, |hypotheses|, outcomes[i])
    ensures PlanBranchesAdapted(laws, adapter, simulated, outcomes, firstCost)
         == PlanBranches(laws, simulated, hypotheses, outcomes, firstCost)
  {
    hide DiscretizedOutcomes, SoundGainLaws, Entropy, IsDistribution, SecondChoices, SecondChoicesAdapted, Preferred, BranchWith;
    if |outcomes| > 0 {
      var n := |outcomes| - 1;
      PlanBranchesRefine(laws, adapter, simulated, hypotheses, outcomes[..n], firstCost);
      assert SoundBranch(laws.phi, |hypotheses|, outcomes[n]);
      assert adapter.snapshots[0] in adapter.snapshots;
      OutcomesExact(laws, hypotheses, outcomes[n].posterior);
      SecondChoicesRefine(laws, adapter, simulated, hypotheses, outcomes[n].posterior,
                          DiscretizedOutcomes(laws, hypotheses, outcomes[n].posterior).value.gain,
                          simulated.budget - firstCost, InIdOrder(simulated.candidates));
    }
  }

  lemma PlanFirstRefines(laws: GainLaws, adapter: Adapter, problem: Problem, hypotheses: seq<Hypothesis>, p: seq<real>, offer: Offer)
    requires SharedHypotheses(adapter, hypotheses) && SoundAdapter(adapter, |p|) && problem.contract == adapter.contract
    requires SoundPlanning(laws, hypotheses, p)
    requires Consider(problem, offer.candidate) == Ok(Some(offer))
    ensures PlanFirstAdapted(laws, adapter, problem, p, offer) == PlanFirstAction(laws, problem, hypotheses, p, offer)
  {
    hide DiscretizedOutcomes, SoundGainLaws, Entropy, IsDistribution, PlanBranches, PlanBranchesAdapted, Consider, AssessCandidate,
      SnapshotFor, PositiveSigmas, SoundBranch, PlanWith, Sum, EntropyShares;
    OfferFits(problem, offer.candidate);
    FirstOutcomesExact(laws, hypotheses, p, offer.assessment.effect);
    if offer.assessment.effect == CompletesPair {
      CloserHasSnapshot(adapter, |p|, offer.candidate, problem.completed);
      assert adapter.snapshots[SnapshotFor(adapter, offer.candidate).value] in adapter.snapshots;
    }
    PlanBranchesRefine(laws, adapter, Simulated(problem, offer.candidate), hypotheses,
                       FirstOutcomes(laws, hypotheses, p, offer.assessment.effect).value.1, offer.cost);
  }

  lemma {:induction false} FirstPlansRefine(laws: GainLaws, adapter: Adapter, problem: Problem, hypotheses: seq<Hypothesis>,
                                            p: seq<real>, candidates: seq<Candidate>)
    requires SharedHypotheses(adapter, hypotheses) && SoundAdapter(adapter, |p|) && problem.contract == adapter.contract
    requires SoundPlanning(laws, hypotheses, p)
    ensures FirstPlansAdapted(laws, adapter, problem, p, candidates) == FirstPlans(laws, problem, hypotheses, p, candidates)
  {
    hide Consider, PlanFirstAction, PlanFirstAdapted, SoundPlanning, SoundAdapter, SharedHypotheses;
    if |candidates| > 0 {
      var n := |candidates| - 1;
      FirstPlansRefine(laws, adapter, problem, hypotheses, p, candidates[..n]);
      if IsOffered(problem, candidates[n]) {
        OfferFits(problem, candidates[n]);
        PlanFirstRefines(laws, adapter, problem, hypotheses, p, Consider(problem, candidates[n]).value.value);
      }
    }
  }

  lemma {:induction false} CostsValidIff(costs: map<string, real>, candidates: seq<Candidate>)
    ensures CostsValid(costs, candidates).Ok? <==> forall c :: c in candidates ==> CostOf(costs, c.id).Ok?
  {
    hide CostOf;
    if |candidates| > 0 {
      CostsValidIff(costs, candidates[..|candidates| - 1]);
      assert candidates == candidates[..|candidates| - 1] + [candidates[|candidates| - 1]];
    }
  }

  lemma {:induction false} DesignedHaveCosts(problem: Problem, candidates: seq<Candidate>)
    requires CandidatesDesigned(problem, candidates).Ok?
    ensures forall c :: c in candidates ==> CostOf(problem.costs, c.id).Ok?
  {
    hide CostOf;
    if |candidates| > 0 {
      DesignedHaveCosts(problem, candidates[..|candidates| - 1]);
      assert candidates == candidates[..|candidates| - 1] + [candidates[|candidates| - 1]];
    }
  }

  /** Two-step refinement: with shared hypotheses in identifier order and exact arithmetic, the adapter
      returns the base policy's plan trace whatever the problem, and fails when the base policy does. The
      two can only differ in which error they report, and only when some candidate has no valid cost. */
  lemma TwoStepRefines(laws: GainLaws, adapter: Adapter, problem: Problem, hypotheses: seq<Hypothesis>, state: BeliefState)
    requires SharedHypotheses(adapter, hypotheses) && SoundAdapter(adapter, |hypotheses|) && problem.contract == adapter.contract
    requires SoundGainLaws(laws) && PositiveSigmas(hypotheses) && ValidState(state)
    requires Ordered(hypotheses) == hypotheses && HypothesisIds(hypotheses) == state.hypothesisIds
    ensures var adapted, base := DecideLookaheadAdapted(laws, adapter, problem, state), DecideLookahead(laws, problem, hypotheses, state);
      && (adapted == base || (adapted.Err? && base.Err?))
      && ((forall c :: c in problem.candidates ==> CostOf(problem.costs, c.id).Ok?) ==> adapted == base)
  {
    hide FirstPlans, FirstPlansAdapted, Ordered, CostsValid, SoundAdapter, SharedHypotheses, RankedPlans, CandidatesDesigned,
      CompletedDesigned, CostOf, PlanBefore;
    FirstPlansRefine(laws, adapter, problem, hypotheses, state.posterior, InIdOrder(problem.candidates));
    CostsValidIff(problem.costs, problem.candidates);
    if DecideLookaheadAdapted(laws, adapter, problem, state).Ok? {
      DesignedHaveCosts(problem, InIdOrder(problem.candidates));
      SortMembers(problem.candidates, CandidateBefore);
    }
  }

  /** Errors can differ: a completed candidate without a cost is a missing cost to the base policy and
      nothing to plan with to the adapter. */
  lemma TwoStepErrorsDiffer(laws: GainLaws, adapter: Adapter, problem: Problem, hypotheses: seq<Hypothesis>, state: BeliefState, c: Candidate)
    requires problem.candidates == [c] && IsCompleted(c, problem.completed) && c.id !in problem.costs && problem.budget >= 0.0
    requires HypothesisIds(Ordered(hypotheses)) == state.hypothesisIds
    ensures DecideLookahead(laws, problem, hypotheses, state) == Err(MissingCost(c.id))
    ensures DecideLookaheadAdapted(laws, adapter, problem, state) == Err(NoFeasibleCandidate)
  {
    hide IsCompleted, Ordered, HypothesisIds;
    assert [c][..0] == [] && [c][1..] == [];
    assert InIdOrder([c]) == [c];
    assert CostsValid(problem.costs, [c]) == Err(MissingCost(c.id));
    assert FirstPlansAdapted(laws, adapter, problem, state.posterior, [c]) == Ok([]);
  }
}
