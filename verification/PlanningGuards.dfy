/** Which error a two-step planner reports: the guards of its loops decide it alone, and with it the exact
    condition for the adapter and the base policy to report the same one. */
module PlanningGuards {
  import opened Wrappers
  import opened RealSums
  import opened Information
  import opened Ordering
  import opened EvidenceEligibility
  import opened Reasoning
  import opened BeliefModels
  import opened EvidenceOutcomes
  import opened OneStepPolicy
  import opened LookaheadPolicy
  import opened PredictionAdapter
  import opened AdapterRefinement

  // ----- the guards, without any numbers but costs -----

  /** The first error of the guards of the second step, in the order given. */
  function SecondGuards(problem: Problem, remaining: real, candidates: seq<Candidate>): Result<(), PlanningError> {
    if |candidates| == 0 then Ok(())
    else
      var rest :- SecondGuards(problem, remaining, candidates[..|candidates| - 1]);
      var cost :- Closer(problem, remaining, candidates[|candidates| - 1]);
      Ok(())
  }

  /** The first error of the guards of the first step and, for every candidate they let through, of those
      of its second step; otherwise whether any candidate was let through. */
  function FirstGuards(problem: Problem, candidates: seq<Candidate>): Result<bool, PlanningError> {
    if |candidates| == 0 then Ok(false)
    else
      var before :- FirstGuards(problem, candidates[..|candidates| - 1]);
      var offer :- Consider(problem, candidates[|candidates| - 1]);
      if offer.None? then Ok(before)
      else
        var second :- SecondGuards(Simulated(problem, offer.value.candidate), problem.budget - offer.value.cost,
                                   InIdOrder(problem.candidates));
        Ok(true)
  }

  /** All guards of a decision within a budget: the two steps, something to plan with, and the designs and
      costs that the fingerprints of the trace look up. */
  function Guards(problem: Problem): Result<(), PlanningError> {
    var offered :- FirstGuards(problem, InIdOrder(problem.candidates));
    if !offered then Err(NoFeasibleCandidate)
    else
      var completedCheck :- CompletedDesigned(problem.contract, problem.completed);
      CandidatesDesigned(problem, InIdOrder(problem.candidates))
  }

  /** A result that fails exactly as the guards fail. */
  predicate FailsAs<T, U>(r: Result<T, PlanningError>, guards: Result<U, PlanningError>) {
    if guards.Err? then r == Err(guards.error) else r.Ok?
  }

  lemma {:induction false} SecondGuardsIff(problem: Problem, remaining: real, candidates: seq<Candidate>)
    ensures SecondGuards(problem, remaining, candidates).Ok? <==> forall c :: c in candidates ==> Closer(problem, remaining, c).Ok?
  {
    hide Closer;
    if |candidates| > 0 {
      SecondGuardsIff(problem, remaining, candidates[..|candidates| - 1]);
      assert candidates == candidates[..|candidates| - 1] + [candidates[|candidates| - 1]];
    }
  }

  lemma {:induction false} SecondChoicesFail(problem: Problem, gain: real, remaining: real, candidates: seq<Candidate>)
    ensures FailsAs(SecondChoices(problem, gain, remaining, candidates), SecondGuards(problem, remaining, candidates))
  {
    hide Closer;
    if |candidates| > 0 {
      SecondChoicesFail(problem, gain, remaining, candidates[..|candidates| - 1]);
    }
  }

  lemma BranchFails(laws: GainLaws, simulated: Problem, hypotheses: seq<Hypothesis>, outcome: OutcomeBranch, firstCost: real)
    requires SoundGainLaws(laws) && PositiveSigmas(hypotheses) && SoundBranch(laws.phi, |hypotheses|, outcome)
    ensures FailsAs(PlanBranch(laws, simulated, hypotheses, outcome, firstCost),
                    SecondGuards(simulated, simulated.budget - firstCost, InIdOrder(simulated.candidates)))
  {
    hide DiscretizedOutcomes, SecondChoices, SecondGuards, SoundGainLaws, Entropy, IsDistribution, Preferred, InIdOrder, BranchWith;
    OutcomesExact(laws, hypotheses, outcome.posterior);
    SecondChoicesFail(simulated, DiscretizedOutcomes(laws, hypotheses, outcome.posterior).value.gain,
                      simulated.budget - firstCost, InIdOrder(simulated.candidates));
  }

  lemma {:induction false} BranchesFail(laws: GainLaws, simulated: Problem, hypotheses: seq<Hypothesis>,
                                        outcomes: seq<OutcomeBranch>, firstCost: real)
    requires SoundGainLaws(laws) && PositiveSigmas(hypotheses) && |outcomes| > 0
    requires forall i :: 0 <= i < |outcomes| ==> SoundBranch(laws.phi, |hypotheses|, outcomes[i])
    ensures FailsAs(PlanBranches(laws, simulated, hypotheses, outcomes, firstCost),
                    SecondGuards(simulated, simulated.budget - firstCost, InIdOrder(simulated.candidates)))
  {
    hide PlanBranch, SecondGuards, SoundGainLaws, SoundBranch, InIdOrder;
    var n := |outcomes| - 1;
    BranchFails(laws, simulated, hypotheses, outcomes[n], firstCost);
    if n == 0 {
      assert outcomes[..n] == [];
    } else {
      BranchesFail(laws, simulated, hypotheses, outcomes[..n], firstCost);
    }
  }

  /** A first action is planned, or fails, exactly as the guards of its second step say. */
  lemma FirstActionFails(laws: GainLaws, problem: Problem, hypotheses: seq<Hypothesis>, p: seq<real>, offer: Offer)
    requires SoundPlanning(laws, hypotheses, p) && offer.cost <= problem.budget
    ensures FailsAs(PlanFirstAction(laws, problem, hypotheses, p, offer),
                    SecondGuards(Simulated(problem, offer.candidate), problem.budget - offer.cost, InIdOrder(problem.candidates)))
  {
    hide FirstOutcomes, PlanBranches, SoundGainLaws, PlanWith, SecondGuards, PositiveSigmas, SoundBranch, Closer, Entropy, EntropyShares;
    var simulated := Simulated(problem, offer.candidate);
    FirstOutcomesExact(laws, hypotheses, p, offer.assessment.effect);
    var outcomes := FirstOutcomes(laws, hypotheses, p, offer.assessment.effect).value.1;
    SomeOutcome(laws.phi, |p|, outcomes);
    BranchesFail(laws, simulated, hypotheses, outcomes, offer.cost);
    SecondGuardsIff(simulated, simulated.budget - offer.cost, InIdOrder(problem.candidates));
    SortMembers(problem.candidates, CandidateBefore);
    if SecondGuards(simulated, simulated.budget - offer.cost, InIdOrder(problem.candidates)).Ok? {
      PlanFirstExact(laws, problem, hypotheses, p, offer);
    }
  }

  lemma SomeOutcome(phi: Kernel, size: nat, outcomes: seq<OutcomeBranch>)
    requires SoundBranches(phi, size, outcomes)
    ensures |outcomes| > 0
  {
  }

  lemma {:induction false} FirstPlansFail(laws: GainLaws, problem: Problem, hypotheses: seq<Hypothesis>, p: seq<real>,
                                          candidates: seq<Candidate>)
    requires SoundPlanning(laws, hypotheses, p)
    ensures FailsAs(FirstPlans(laws, problem, hypotheses, p, candidates), FirstGuards(problem, candidates))
    ensures FirstGuards(problem, candidates).Ok? ==>
      (|FirstPlans(laws, problem, hypotheses, p, candidates).value| > 0 <==> FirstGuards(problem, candidates).value)
  {
    hide Consider, PlanFirstAction, SoundPlanning, SecondGuards, InIdOrder, Simulated;
    if |candidates| > 0 {
      var n := |candidates| - 1;
      FirstPlansFail(laws, problem, hypotheses, p, candidates[..n]);
      if IsOffered(problem, candidates[n]) {
        OfferFits(problem, candidates[n]);
        FirstActionFails(laws, problem, hypotheses, p, Consider(problem, candidates[n]).value.value);
      }
    }
  }

  /** Within a budget the adapter's decision succeeds exactly when the guards do, and reports their error:
      no other step of planning fails, whatever is registered, costed or completed. */
  lemma AdaptedFailsAsGuards(laws: GainLaws, adapter: Adapter, problem: Problem, hypotheses: seq<Hypothesis>, state: BeliefState)
    requires SharedHypotheses(adapter, hypotheses) && SoundAdapter(adapter, |hypotheses|) && problem.contract == adapter.contract
    requires SoundGainLaws(laws) && PositiveSigmas(hypotheses) && ValidState(state) && |state.posterior| == |hypotheses|
    requires problem.budget >= 0.0
    ensures FailsAs(DecideLookaheadAdapted(laws, adapter, problem, state), Guards(problem))
  {
    hide FirstPlans, FirstPlansAdapted, FirstGuards, InIdOrder, SoundAdapter, SharedHypotheses, RankedPlans, CandidatesDesigned,
      CompletedDesigned, SoundGainLaws, PositiveSigmas, PlanBefore;
    FirstPlansRefine(laws, adapter, problem, hypotheses, state.posterior, InIdOrder(problem.candidates));
    FirstPlansFail(laws, problem, hypotheses, state.posterior, InIdOrder(problem.candidates));
  }

  /** The two planners agree, errors included, if and only if the budget is negative, every candidate has a
      valid cost, or the guards meet the very error that checking all costs first reports. */
  lemma TwoStepAgreeIff(laws: GainLaws, adapter: Adapter, problem: Problem, hypotheses: seq<Hypothesis>, state: BeliefState)
    requires SharedHypotheses(adapter, hypotheses) && SoundAdapter(adapter, |hypotheses|) && problem.contract == adapter.contract
    requires SoundGainLaws(laws) && PositiveSigmas(hypotheses) && ValidState(state)
    requires Ordered(hypotheses) == hypotheses && HypothesisIds(hypotheses) == state.hypothesisIds
    ensures DecideLookaheadAdapted(laws, adapter, problem, state) == DecideLookahead(laws, problem, hypotheses, state) <==>
      || problem.budget < 0.0
      || CostsValid(problem.costs, problem.candidates).Ok?
      || Guards(problem) == CostsValid(problem.costs, problem.candidates)
  {
    hide FirstPlans, FirstPlansAdapted, Guards, Ordered, SoundAdapter, SharedHypotheses, ConcludePlans, CostsValid, CostOf,
      SoundGainLaws, PositiveSigmas;
    if problem.budget >= 0.0 {
      TwoStepRefines(laws, adapter, problem, hypotheses, state);
      CostsValidIff(problem.costs, problem.candidates);
      AdaptedFailsAsGuards(laws, adapter, problem, hypotheses, state);
    }
  }

  // ----- with everything registered -----

  /** The first cost error of an open candidate, in the order given. */
  function OpenCosts(problem: Problem, candidates: seq<Candidate>): Result<(), PlanningError> {
    if |candidates| == 0 then Ok(())
    else
      var rest :- OpenCosts(problem, candidates[..|candidates| - 1]);
      if IsCompleted(candidates[|candidates| - 1], problem.completed) then Ok(())
      else
        var cost :- CostOf(problem.costs, candidates[|candidates| - 1].id);
        Ok(())
  }

  /** The cost error the adapter meets, if any: that of the first open candidate in identifier order; when
      all open candidates have valid costs and one is on offer, that of the first candidate at all. */
  ghost function CostObjection(problem: Problem): Result<(), PlanningError> {
    var sorted := InIdOrder(problem.candidates);
    var open :- OpenCosts(problem, sorted);
    if SomeOffer(problem) then CostsValid(problem.costs, sorted) else Ok(())
  }

  ghost predicate AllDesigned(problem: Problem) {
    && AllRegistered(problem.contract, problem.completed)
    && forall c :: c in problem.candidates ==> Registered(problem.contract, c)
  }

  lemma {:induction false} OpenCostsStay(problem: Problem, candidates: seq<Candidate>, n: nat)
    requires n <= |candidates| && OpenCosts(problem, candidates[..n]).Err?
    ensures OpenCosts(problem, candidates) == OpenCosts(problem, candidates[..n])
  {
    hide IsCompleted, CostOf;
    if n < |candidates| {
      assert candidates[..|candidates| - 1][..n] == candidates[..n];
      OpenCostsStay(problem, candidates[..|candidates| - 1], n);
    } else {
      assert candidates[..n] == candidates;
    }
  }

  /** With everything registered the guards of a second step can only object to open costs. */
  lemma {:induction false} SecondGuardsAreCosts(problem: Problem, remaining: real, candidates: seq<Candidate>)
    requires AllRegistered(problem.contract, problem.completed)
    requires forall c :: c in candidates ==> Registered(problem.contract, c)
    ensures SecondGuards(problem, remaining, candidates) == OpenCosts(problem, candidates)
  {
    hide AssessRegistered, DesignFor, IsCompleted, AllRegistered;
    if |candidates| > 0 {
      var n := |candidates| - 1;
      assert candidates[n] in candidates;
      SecondGuardsAreCosts(problem, remaining, candidates[..n]);
    }
  }

  /** Simulating a candidate that has a cost removes no cost error. */
  lemma {:induction false} SimulationKeepsCosts(problem: Problem, c: Candidate, candidates: seq<Candidate>)
    requires CostOf(problem.costs, c.id).Ok?
    ensures OpenCosts(Simulated(problem, c), candidates) == OpenCosts(problem, candidates)
  {
    hide CostOf, IsCompleted;
    if |candidates| > 0 {
      var n := |candidates| - 1;
      SimulationKeepsCosts(problem, c, candidates[..n]);
      SimulationCompletes(problem, c, candidates[n]);
    }
  }

  lemma SimulationCompletes(problem: Problem, c: Candidate, d: Candidate)
    ensures IsCompleted(d, Simulated(problem, c).completed) <==> IsCompleted(d, problem.completed) || d.id == c.id
  {
    var before, after := problem.completed, Simulated(problem, c).completed;
    if IsCompleted(d, before) {
      var i :| 0 <= i < |before| && before[i].candidate.id == d.id;
      assert after[i] == before[i];
    }
    assert after[|before|].candidate == c;
  }

  lemma RegisteredConsider(problem: Problem, c: Candidate)
    requires AllRegistered(problem.contract, problem.completed) && Registered(problem.contract, c)
    ensures Consider(problem, c).Err? <==> !IsCompleted(c, problem.completed) && CostOf(problem.costs, c.id).Err?
    ensures Consider(problem, c).Err? ==> Consider(problem, c) == Err(CostOf(problem.costs, c.id).error)
  {
    hide AssessRegistered, DesignFor, IsCompleted, AllRegistered, CostOf;
  }

  lemma OfferedSecondGuards(problem: Problem, c: Candidate, remaining: real)
    requires AllDesigned(problem) && Registered(problem.contract, c) && CostOf(problem.costs, c.id).Ok?
    ensures SecondGuards(Simulated(problem, c), remaining, InIdOrder(problem.candidates))
         == OpenCosts(problem, InIdOrder(problem.candidates))
  {
    hide DesignFor, CostOf, OpenCosts, SecondGuards, SortBy;
    SortMembers(problem.candidates, CandidateBefore);
    SecondGuardsAreCosts(Simulated(problem, c), remaining, InIdOrder(problem.candidates));
    SimulationKeepsCosts(problem, c, InIdOrder(problem.candidates));
  }

  /** With everything registered the guards of both steps object to the first open cost in identifier
      order, wherever they meet it, and otherwise say whether something is on offer. */
  lemma {:induction false} FirstGuardsAreCosts(problem: Problem, n: nat)
    requires AllDesigned(problem) && n <= |problem.candidates|
    ensures var sorted := InIdOrder(problem.candidates);
      && |sorted| == |problem.candidates|
      && (OpenCosts(problem, sorted[..n]).Err? ==> FirstGuards(problem, sorted[..n]).Err?)
      && (FirstGuards(problem, sorted[..n]).Err? ==>
            OpenCosts(problem, sorted).Err? && FirstGuards(problem, sorted[..n]) == Err(OpenCosts(problem, sorted).error))
      && (FirstGuards(problem, sorted[..n]).Ok? ==>
            (FirstGuards(problem, sorted[..n]).value <==> exists c :: c in sorted[..n] && IsOffered(problem, c)))
  {
    hide Consider, SecondGuards, AllRegistered, Registered, SortBy, CostOf, IsCompleted, Simulated;
    var sorted := InIdOrder(problem.candidates);
    SortMembers(problem.candidates, CandidateBefore);
    if n > 0 {
      FirstGuardsAreCosts(problem, n - 1);
      var before, c := sorted[..n - 1], sorted[n - 1];
      assert sorted[..n] == before + [c] && sorted[..n][..n - 1] == before;
      assert c in sorted;
      RegisteredConsider(problem, c);
      if OpenCosts(problem, sorted[..n]).Err? {
        OpenCostsStay(problem, sorted, n);
      }
      if IsOffered(problem, c) {
        OfferFits(problem, c);
        OfferedSecondGuards(problem, c, problem.budget - Consider(problem, c).value.value.cost);
      }
    }
  }

  lemma {:induction false} DesignedAreCosts(problem: Problem, candidates: seq<Candidate>)
    requires forall c :: c in candidates ==> Registered(problem.contract, c)
    ensures CandidatesDesigned(problem, candidates) == CostsValid(problem.costs, candidates)
  {
    hide CostOf, DesignFor;
    if |candidates| > 0 {
      DesignedAreCosts(problem, candidates[..|candidates| - 1]);
      assert candidates[|candidates| - 1] in candidates;
    }
  }

  /** With everything registered the guards of a decision are its cost objection, or nothing to plan with. */
  lemma RegisteredGuards(problem: Problem)
    requires AllDesigned(problem)
    ensures Guards(problem) ==
      if OpenCosts(problem, InIdOrder(problem.candidates)).Ok? && !SomeOffer(problem) then Err(NoFeasibleCandidate)
      else CostObjection(problem)
  {
    hide OpenCosts, FirstGuards, AllRegistered, Registered, CandidatesDesigned, CostsValid, IsOffered, SortBy;
    var sorted := InIdOrder(problem.candidates);
    SortMembers(problem.candidates, CandidateBefore);
    FirstGuardsAreCosts(problem, |problem.candidates|);
    assert sorted[..|problem.candidates|] == sorted;
    DesignedAreCosts(problem, sorted);
  }

  lemma {:induction false} CostsFailAsCosts(costs: map<string, real>, candidates: seq<Candidate>)
    requires CostsValid(costs, candidates).Err?
    ensures CostsValid(costs, candidates).error.MissingCost? || CostsValid(costs, candidates).error.InvalidCost?
  {
    if CostsValid(costs, candidates[..|candidates| - 1]).Err? {
      CostsFailAsCosts(costs, candidates[..|candidates| - 1]);
    }
  }

  /** The exact condition in terms of costs alone, when every candidate and completed experiment is
      registered: the planners agree, errors included, if and only if the budget is negative, every cost is
      valid, or the first error of checking all costs in the order given is the adapter's cost objection. */
  lemma RegisteredTwoStepAgreeIff(laws: GainLaws, adapter: Adapter, problem: Problem, hypotheses: seq<Hypothesis>, state: BeliefState)
    requires SharedHypotheses(adapter, hypotheses) && SoundAdapter(adapter, |hypotheses|) && problem.contract == adapter.contract
    requires SoundGainLaws(laws) && PositiveSigmas(hypotheses) && ValidState(state)
    requires Ordered(hypotheses) == hypotheses && HypothesisIds(hypotheses) == state.hypothesisIds
    requires AllDesigned(problem)
    ensures DecideLookaheadAdapted(laws, adapter, problem, state) == DecideLookahead(laws, problem, hypotheses, state) <==>
      || problem.budget < 0.0
      || CostsValid(problem.costs, problem.candidates).Ok?
      || CostObjection(problem) == CostsValid(problem.costs, problem.candidates)
  {
    hide DecideLookahead, DecideLookaheadAdapted, Guards, Ordered, SoundAdapter, SharedHypotheses, CostsValid, OpenCosts,
      SoundGainLaws, PositiveSigmas, AllDesigned, SomeOffer;
    TwoStepAgreeIff(laws, adapter, problem, hypotheses, state);
    RegisteredGuards(problem);
    if CostsValid(problem.costs, problem.candidates).Err? {
      CostsFailAsCosts(problem.costs, problem.candidates);
    }
  }
}
