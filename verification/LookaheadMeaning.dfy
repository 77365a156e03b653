/** What a two-step plan means, in the experiments already completed: which second actions follow a first one,
    which of them is taken, and what the plan is worth. */
module LookaheadMeaning {
  import opened Wrappers
  import opened RealSums
  import opened Information
  import opened BayesMeaning
  import opened Ordering
  import opened EvidenceEligibility
  import opened Reasoning
  import opened BeliefModels
  import opened EvidenceOutcomes
  import opened OneStepPolicy
  import opened LookaheadPolicy
  import opened PlannedGain
  import opened PredictionAdapter
  import opened AdapterRefinement

  // ----- the second actions -----

  /** However `c` and then `d` come out, the comparison of `d` has no pair after `c` and has one after both. */
  ghost predicate Closes(contract: Contract, completed: seq<CompletedExperiment>, c: Candidate, d: Candidate)
    requires Registered(contract, d)
  {
    forall first: CompletedExperiment, second: CompletedExperiment :: first.candidate == c && second.candidate == d ==>
      PairAppears(contract, completed + [first], second, DesignFor(contract, d).value.Key())
  }

  predicate PairAppears(contract: Contract, completed: seq<CompletedExperiment>, e: CompletedExperiment, key: ComparisonKey) {
    PairOf(contract, completed, key).None? && PairOf(contract, completed + [e], key).Some?
  }

  /** After the first action `c` the candidate `d` is open, can be paid for, and closes a pair. */
  ghost predicate FollowsUp(problem: Problem, c: Candidate, remaining: real, d: Candidate, cost: real)
    requires Registered(problem.contract, d)
  {
    && d.id != c.id && (forall i :: 0 <= i < |problem.completed| ==> problem.completed[i].candidate.id != d.id)
    && d.id in problem.costs && cost == problem.costs[d.id] && 0.0 <= cost <= remaining + 0.000000000001
    && Closes(problem.contract, problem.completed, c, d)
  }

  /** Whether a pair appears depends on the candidates alone. */
  lemma AppearanceIgnoresResults(contract: Contract, completed: seq<CompletedExperiment>, first: CompletedExperiment,
                                 second: CompletedExperiment, other: CompletedExperiment, again: CompletedExperiment, key: ComparisonKey)
    requires first.candidate == other.candidate && second.candidate == again.candidate
    ensures PairAppears(contract, completed + [first], second, key) == PairAppears(contract, completed + [other], again, key)
  {
    hide ArmMembers;
    forall arm
      ensures |ArmMembers(contract, completed + [first], key, arm)| == |ArmMembers(contract, completed + [other], key, arm)|
      ensures |ArmMembers(contract, completed + [first] + [second], key, arm)|
           == |ArmMembers(contract, completed + [other] + [again], key, arm)|
    {
      AppendMember(contract, completed, first, key, arm);
      AppendMember(contract, completed, other, key, arm);
      AppendMember(contract, completed + [first], second, key, arm);
      AppendMember(contract, completed + [other], again, key, arm);
    }
  }

  /** The second actions a planner considers after `c` are exactly the candidates that follow it up. */
  lemma SecondActionsExact(problem: Problem, c: Candidate, remaining: real, d: Candidate, cost: real)
    requires AllRegistered(problem.contract, problem.completed) && Registered(problem.contract, c) && Registered(problem.contract, d)
    ensures Closer(Simulated(problem, c), remaining, d) == Ok(Some(cost)) <==> FollowsUp(problem, c, remaining, d, cost)
  {
    var simulated := Simulated(problem, c).completed;
    CompletedAfter(problem, c, d);
    hide IsCompleted, AssessRegistered, DesignFor, PairOf;
    if !IsCompleted(d, simulated) {
      var second := CompletedExperiment(0, d, 0.0);
      assert AllRegistered(problem.contract, simulated);
      CompletesPairIffPairAppears(problem.contract, d, simulated, second);
      ClosesIff(problem, c, d, CompletedExperiment(0, c, 0.0), second);
    }
  }

  lemma CompletedAfter(problem: Problem, c: Candidate, d: Candidate)
    ensures IsCompleted(d, Simulated(problem, c).completed) <==>
      d.id == c.id || exists i :: 0 <= i < |problem.completed| && problem.completed[i].candidate.id == d.id
  {
    var simulated := Simulated(problem, c).completed;
    assert simulated[|problem.completed|].candidate == c;
    if i :| 0 <= i < |problem.completed| && problem.completed[i].candidate.id == d.id {
      assert simulated[i].candidate.id == d.id;
    }
  }

  lemma ClosesIff(problem: Problem, c: Candidate, d: Candidate, first: CompletedExperiment, second: CompletedExperiment)
    requires Registered(problem.contract, d) && first.candidate == c && second.candidate == d
    ensures Closes(problem.contract, problem.completed, c, d) <==>
      PairAppears(problem.contract, problem.completed + [first], second, DesignFor(problem.contract, d).value.Key())
  {
    hide PairAppears, DesignFor;
    var key := DesignFor(problem.contract, d).value.Key();
    forall other: CompletedExperiment, again: CompletedExperiment | other.candidate == c && again.candidate == d
      ensures PairAppears(problem.contract, problem.completed + [other], again, key)
           == PairAppears(problem.contract, problem.completed + [first], second, key)
    {
      AppearanceIgnoresResults(problem.contract, problem.completed, other, again, first, second, key);
    }
  }

  // ----- partners -----

  /** Two candidates in the two arms of one comparison. */
  predicate Partners(contract: Contract, c: Candidate, d: Candidate) {
    && Registered(contract, c) && Registered(contract, d)
    && var x, y := DesignFor(contract, c).value, DesignFor(contract, d).value;
    && x.IsOptimizerEffect() && y.IsOptimizerEffect() && x.Key() == y.Key() && x.arm != y.arm
  }

  /** What opens a pair is closed by an open candidate of the other arm. */
  lemma PartnerCloses(problem: Problem, c: Candidate, d: Candidate)
    requires AllRegistered(problem.contract, problem.completed) && Partners(problem.contract, c, d)
    requires AssessCandidate(problem.contract, c, problem.completed).Ok?
    requires AssessCandidate(problem.contract, c, problem.completed).value.effect == OpensPair
    ensures Closes(problem.contract, problem.completed, c, d)
  {
    hide ArmMembers;
    var contract, completed, key := problem.contract, problem.completed, DesignFor(problem.contract, d).value.Key();
    forall first: CompletedExperiment, second: CompletedExperiment | first.candidate == c && second.candidate == d
      ensures PairAppears(contract, completed + [first], second, key)
    {
      forall arm | arm == ADAM || arm == SGD
        ensures ArmMembers(contract, completed + [first], key, arm)
             == (if InArm(contract, first, key, arm) then [first] else [])
        ensures ArmMembers(contract, completed + [first] + [second], key, arm)
             == if InArm(contract, first, key, arm) then [first] else [second]
      {
        ArmsDiffer();
        AppendMember(contract, completed, first, key, arm);
        AppendMember(contract, completed + [first], second, key, arm);
      }
    }
  }

  lemma ArmsDiffer()
    ensures ADAM != SGD
  {
    assert |ADAM| != |SGD|;
  }

  // ----- the second action taken -----

  /** Every candidate has a design and a cost, and every completed one a design. */
  ghost predicate Registry(problem: Problem) {
    && AllRegistered(problem.contract, problem.completed)
    && (forall d :: d in problem.candidates ==> Registered(problem.contract, d))
    && (forall d :: d in problem.candidates ==> d.id in problem.costs && problem.costs[d.id] >= 0.0)
  }

  lemma RegistryAnswers(problem: Problem)
    ensures Registry(problem) <==> Answerable(problem)
  {
    hide Registered;
    forall d | d in problem.candidates
      ensures AnswerableCandidate(problem, d) <==>
        Registered(problem.contract, d) && d.id in problem.costs && problem.costs[d.id] >= 0.0
    {
    }
  }

  predicate PerCost(ratio: real, gain: real, cost: real) {
    if cost > 0.0 then ratio * cost == gain else ratio == 0.0
  }

  /** Greater gain first, then lower cost, then the earlier identifier. */
  predicate SecondNoWorse(a: SecondAction, gain: real, cost: real, id: string) {
    || a.gain > gain
    || (a.gain == gain && a.cost < cost)
    || (a.gain == gain && a.cost == cost && !StringLess(id, a.Id()))
  }

  ghost predicate TakesFollowUp(laws: GainLaws, problem: Problem, c: Candidate, remaining: real,
                                hypothesesOf: Candidate -> seq<Hypothesis>, p: seq<real>, best: SecondAction)
    requires Registry(problem)
  {
    best.candidate.Some? && best.candidate.value in problem.candidates
    && FollowsUp(problem, c, remaining, best.candidate.value, best.cost)
    && IsExpectedGain(laws, hypothesesOf(best.candidate.value), p, best.gain)
    && PerCost(best.ratio, best.gain, best.cost)
  }

  /** STOP, or the follow-up whose pair is expected to tell most; no follow-up and not STOP come before it. */
  ghost predicate BestSecond(laws: GainLaws, problem: Problem, c: Candidate, remaining: real,
                             hypothesesOf: Candidate -> seq<Hypothesis>, p: seq<real>, best: SecondAction)
    requires Registry(problem)
  {
    && (best == SecondAction(None, 0.0, 0.0, 0.0) || TakesFollowUp(laws, problem, c, remaining, hypothesesOf, p, best))
    && SecondNoWorse(best, 0.0, 0.0, STOP_ACTION_ID)
    && (forall d, cost, gain ::
          d in problem.candidates && FollowsUp(problem, c, remaining, d, cost) && IsExpectedGain(laws, hypothesesOf(d), p, gain) ==>
            SecondNoWorse(best, gain, cost, d.id))
  }

  lemma NotBefore(a: SecondAction, id: Option<Candidate>, gain: real, cost: real)
    requires a.ratio == InformationPerCost(a.gain, a.cost)
    requires !SecondBefore(SecondAction(id, gain, cost, InformationPerCost(gain, cost)), a)
    ensures SecondNoWorse(a, gain, cost, SecondAction(id, gain, cost, InformationPerCost(gain, cost)).Id())
  {
    hide StringLess, InformationPerCost;
  }

  lemma InformationPerCostMeaning(gain: real, cost: real)
    ensures PerCost(InformationPerCost(gain, cost), gain, cost)
  {
    if cost > 0.0 {
      TimesInverse(gain, cost);
    }
  }

  /** Every closer's gain is what its own hypotheses expect of its pair. */
  ghost predicate GainsExpected(laws: GainLaws, problem: Problem, hypothesesOf: Candidate -> seq<Hypothesis>, p: seq<real>,
                                gainOf: Candidate -> real, remaining: real)
  {
    forall d :: d in problem.candidates && Closer(problem, remaining, d).Ok? && Closer(problem, remaining, d).value.Some? ==>
      PositiveSigmas(hypothesesOf(d)) && IsExpectedGain(laws, hypothesesOf(d), p, gainOf(d))
  }

  lemma OptimalIsBest(laws: GainLaws, problem: Problem, c: Candidate, remaining: real, hypothesesOf: Candidate -> seq<Hypothesis>,
                      p: seq<real>, gainOf: Candidate -> real, best: SecondAction)
    requires Registry(problem) && Registered(problem.contract, c) && MonotoneCdf(laws.cdf) && AllNonNegative(p)
    requires GainsExpected(laws, Simulated(problem, c), hypothesesOf, p, gainOf, remaining)
    requires OptimalSecond(Simulated(problem, c), gainOf, remaining, best)
    ensures BestSecond(laws, problem, c, remaining, hypothesesOf, p, best)
  {
    hide Closer, SecondBefore, FollowsUp, IsExpectedGain, Registered, InformationPerCost, SecondNoWorse, MonotoneCdf, PositiveSigmas,
      AllRegistered, PerCost;
    assert best.ratio == InformationPerCost(best.gain, best.cost) by { StopPerCost(); }
    StopPerCost();
    NotBefore(best, None, 0.0, 0.0);
    if best != STOP {
      var d := best.candidate.value;
      assert d in problem.candidates;
      SecondActionsExact(problem, c, remaining, d, best.cost);
      InformationPerCostMeaning(best.gain, best.cost);
    }
    forall d, cost, gain | d in problem.candidates && FollowsUp(problem, c, remaining, d, cost)
        && IsExpectedGain(laws, hypothesesOf(d), p, gain)
      ensures SecondNoWorse(best, gain, cost, d.id)
    {
      SecondActionsExact(problem, c, remaining, d, cost);
      ExpectedGainUnique(laws, hypothesesOf(d), p, gain, gainOf(d));
      NotBefore(best, Some(d), gain, cost);
    }
  }

  lemma StopPerCost()
    ensures InformationPerCost(0.0, 0.0) == 0.0
  {
  }

  // ----- one plan -----

  function Weighed(branches: seq<Branch>, values: seq<real>): (r: seq<real>)
    requires |values| == |branches|
    ensures |r| == |branches|
  {
    seq(|branches|, i requires 0 <= i < |branches| => branches[i].outcome.probability * values[i])
  }

  ghost predicate IsExpectation(branches: seq<Branch>, values: seq<real>, mean: real) {
    |values| == |branches| && mean == Sum(Weighed(branches, values))
  }

  function SecondGains(branches: seq<Branch>): (r: seq<real>)
    ensures |r| == |branches|
  {
    seq(|branches|, i requires 0 <= i < |branches| => branches[i].second.gain)
  }

  function EntropiesLeft(branches: seq<Branch>): (r: seq<real>)
    ensures |r| == |branches|
  {
    seq(|branches|, i requires 0 <= i < |branches| => branches[i].terminalEntropy)
  }

  function BranchCosts(branches: seq<Branch>): (r: seq<real>)
    ensures |r| == |branches|
  {
    seq(|branches|, i requires 0 <= i < |branches| => branches[i].totalCost)
  }

  /** Where a plan starts: from the bins of a pair the first action completes, or from the belief as it is. */
  ghost predicate StartsFrom(laws: GainLaws, hypotheses: seq<Hypothesis>, p: seq<real>, effect: Effect, immediate: real,
                             outcomes: seq<OutcomeBranch>)
  {
    if effect == CompletesPair then
      && IsExpectedGain(laws, hypotheses, p, immediate)
      && |p| == |hypotheses|
      && forall m :: ChancesOf(laws.cdf, Ordered(hypotheses), m) ==> BranchesOfBins(laws.phi, p, m, outcomes, 82)
    else immediate == 0.0 && outcomes == [OutcomeBranch(None, 1.0, p, Sum(Applied(laws.phi, p)))]
  }

  ghost predicate BranchMeans(laws: GainLaws, problem: Problem, hypothesesOf: Candidate -> seq<Hypothesis>, c: Candidate,
                              firstCost: real, b: Branch)
    requires Registry(problem)
  {
    && BestSecond(laws, problem, c, problem.budget - firstCost, hypothesesOf, b.outcome.posterior, b.second)
    && b.terminalEntropy == b.outcome.entropy - b.second.gain
    && b.totalCost == firstCost + b.second.cost
  }

  /** The best second action in every branch, and over the branches the expected gain and cost. */
  ghost predicate PlanMeans(laws: GainLaws, problem: Problem, hypothesesOf: Candidate -> seq<Hypothesis>, p: seq<real>, offer: Offer,
                            plan: FirstPlan)
    requires Registry(problem)
  {
    && plan.candidate == offer.candidate && plan.effect == offer.assessment.effect && plan.firstCost == offer.cost
    && StartsFrom(laws, hypothesesOf(offer.candidate), p, offer.assessment.effect, plan.immediateGain, Outcomes(plan.branches))
    && (forall i :: 0 <= i < |plan.branches| ==>
          BranchMeans(laws, problem, hypothesesOf, offer.candidate, offer.cost, plan.branches[i]))
    && plan.priorEntropy == Sum(Applied(laws.phi, p))
    && IsExpectation(plan.branches, SecondGains(plan.branches), plan.totalGain - plan.immediateGain)
    && IsExpectation(plan.branches, EntropiesLeft(plan.branches), plan.terminalEntropy)
    && IsExpectation(plan.branches, BranchCosts(plan.branches), plan.totalCost)
    && PerCost(plan.ratio, plan.totalGain, plan.totalCost)
  }

  lemma TotalsAreExpectations(branches: seq<Branch>)
    ensures GainShares(branches) == Weighed(branches, SecondGains(branches))
    ensures TerminalShares(branches) == Weighed(branches, EntropiesLeft(branches))
    ensures CostShares(branches) == Weighed(branches, BranchCosts(branches))
  {
    forall i | 0 <= i < |branches|
      ensures GainShares(branches)[i] == Weighed(branches, SecondGains(branches))[i]
      ensures TerminalShares(branches)[i] == Weighed(branches, EntropiesLeft(branches))[i]
      ensures CostShares(branches)[i] == Weighed(branches, BranchCosts(branches))[i]
    {
      assert SecondGains(branches)[i] == branches[i].second.gain;
      assert EntropiesLeft(branches)[i] == branches[i].terminalEntropy;
      assert BranchCosts(branches)[i] == branches[i].totalCost;
    }
  }

  /** An exact plan with optimal second actions is the plan described. */
  lemma ExactPlanMeans(laws: GainLaws, problem: Problem, hypothesesOf: Candidate -> seq<Hypothesis>, p: seq<real>, offer: Offer,
                       plan: FirstPlan)
    requires Registry(problem) && SoundGainLaws(laws) && IsDistribution(p)
    requires plan.candidate == offer.candidate && plan.effect == offer.assessment.effect && plan.firstCost == offer.cost
    requires plan.ratio == InformationPerCost(plan.totalGain, plan.totalCost)
    requires ExactPlan(laws.phi, p, problem.budget, plan)
    requires StartsFrom(laws, hypothesesOf(offer.candidate), p, offer.assessment.effect, plan.immediateGain, Outcomes(plan.branches))
    requires forall i :: 0 <= i < |plan.branches| ==>
      BestSecond(laws, problem, offer.candidate, problem.budget - offer.cost, hypothesesOf, plan.branches[i].outcome.posterior,
                 plan.branches[i].second)
    ensures PlanMeans(laws, problem, hypothesesOf, p, offer, plan)
  {
    hide Registry, BestSecond, StartsFrom, EntropyKernel, IsDistribution, Entropy, Applied, Sum, Weighed, SoundBranches, MonotoneCdf,
      EntropyShares, PerCost, InformationPerCost;
    EntropyOfBelief(laws, p);
    TotalsAreExpectations(plan.branches);
    InformationPerCostMeaning(plan.totalGain, plan.totalCost);
    forall i | 0 <= i < |plan.branches|
      ensures BranchMeans(laws, problem, hypothesesOf, offer.candidate, offer.cost, plan.branches[i])
    {
    }
  }

  lemma EntropyOfBelief(laws: GainLaws, p: seq<real>)
    requires SoundGainLaws(laws) && IsDistribution(p)
    ensures Entropy(laws.phi, p) == Sum(Applied(laws.phi, p))
  {
    EntropyIsApplied(laws.phi, p);
  }

  function Same(hypotheses: seq<Hypothesis>): Candidate -> seq<Hypothesis> {
    (c: Candidate) => hypotheses
  }

  /** Where the base planner's plans start. */
  lemma StartsFromOutcomes(laws: GainLaws, hypotheses: seq<Hypothesis>, p: seq<real>, effect: Effect)
    requires SoundPlanning(laws, hypotheses, p)
    ensures FirstOutcomes(laws, hypotheses, p, effect).Ok?
    ensures var first := FirstOutcomes(laws, hypotheses, p, effect).value;
      StartsFrom(laws, hypotheses, p, effect, first.0, first.1)
  {
    hide DiscretizedOutcomes, Entropy, Applied, SoundGainLaws, IsDistribution, PositiveSigmas, IsExpectedGain, BinChance, BranchesOfBins,
      Ordered;
    if effect == CompletesPair {
      OutcomesMeaning(laws, hypotheses, p);
      forall m | ChancesOf(laws.cdf, Ordered(hypotheses), m)
        ensures BranchesOfBins(laws.phi, p, m, DiscretizedOutcomes(laws, hypotheses, p).value.branches, 82)
      {
        OutcomeBranchesMeaning(laws, hypotheses, p, m);
      }
    } else {
      EntropyOfBelief(laws, p);
    }
  }

  /** Every plan of the base planner is the plan described. */
  lemma PlanFirstMeaning(laws: GainLaws, problem: Problem, hypotheses: seq<Hypothesis>, p: seq<real>, offer: Offer)
    requires SoundPlanning(laws, hypotheses, p) && Registry(problem)
    requires offer.candidate in problem.candidates && offer.cost <= problem.budget
    ensures PlanFirstAction(laws, problem, hypotheses, p, offer).Ok?
    ensures PlanMeans(laws, problem, Same(hypotheses), p, offer, PlanFirstAction(laws, problem, hypotheses, p, offer).value)
  {
    hide FirstOutcomes, PlanBranches, SoundPlanning, ExactPlan, ExactBranch, BestSecond, StartsFrom, Registry, PlanMeans,
      ClosersAnswer, Answerable;
    RegistryAnswers(problem);
    AnswerableSimulation(problem, offer.candidate);
    AnswerableClosers(Simulated(problem, offer.candidate), problem.budget - offer.cost);
    PlanFirstExact(laws, problem, hypotheses, p, offer);
    StartsFromPlanned(laws, problem, hypotheses, p, offer);
    var plan := PlanFirstAction(laws, problem, hypotheses, p, offer).value;
    forall i | 0 <= i < |plan.branches|
      ensures BestSecond(laws, problem, offer.candidate, problem.budget - offer.cost, Same(hypotheses), plan.branches[i].outcome.posterior,
                         plan.branches[i].second)
    {
      BaseBranchMeans(laws, problem, hypotheses, p, offer, plan, i);
    }
    SoundPlanningParts(laws, hypotheses, p);
    ExactPlanMeans(laws, problem, Same(hypotheses), p, offer, plan);
  }

  lemma SoundPlanningParts(laws: GainLaws, hypotheses: seq<Hypothesis>, p: seq<real>)
    requires SoundPlanning(laws, hypotheses, p)
    ensures SoundGainLaws(laws) && IsDistribution(p) && MonotoneCdf(laws.cdf)
  {
  }

  lemma StartsFromPlanned(laws: GainLaws, problem: Problem, hypotheses: seq<Hypothesis>, p: seq<real>, offer: Offer)
    requires SoundPlanning(laws, hypotheses, p) && offer.cost <= problem.budget
    requires ClosersAnswer(Simulated(problem, offer.candidate), problem.budget - offer.cost)
    requires PlanFirstAction(laws, problem, hypotheses, p, offer).Ok?
    ensures var plan := PlanFirstAction(laws, problem, hypotheses, p, offer).value;
      StartsFrom(laws, Same(hypotheses)(offer.candidate), p, offer.assessment.effect, plan.immediateGain, Outcomes(plan.branches))
  {
    hide FirstOutcomes, PlanBranches, StartsFrom, ClosersAnswer, SoundGainLaws, IsDistribution, PositiveSigmas, SoundBranch, ExactBranch,
      Entropy, Sum;
    FirstOutcomesExact(laws, hypotheses, p, offer.assessment.effect);
    var first := FirstOutcomes(laws, hypotheses, p, offer.assessment.effect).value;
    PlanBranchesExact(laws, Simulated(problem, offer.candidate), hypotheses, first.1, offer.cost);
    StartsFromOutcomes(laws, hypotheses, p, offer.assessment.effect);
  }

  lemma BaseBranchMeans(laws: GainLaws, problem: Problem, hypotheses: seq<Hypothesis>, p: seq<real>, offer: Offer, plan: FirstPlan, i: nat)
    requires SoundPlanning(laws, hypotheses, p) && Registry(problem) && offer.candidate in problem.candidates
    requires ExactPlan(laws.phi, p, problem.budget, plan) && i < |plan.branches|
    requires ExactBranch(laws, Simulated(problem, offer.candidate), hypotheses, offer.cost, plan.branches[i])
    ensures BestSecond(laws, problem, offer.candidate, problem.budget - offer.cost, Same(hypotheses), plan.branches[i].outcome.posterior,
                       plan.branches[i].second)
  {
    hide Closer, OptimalSecond, BestSecond, IsExpectedGain, DiscretizedOutcomes, PositiveSigmas, EntropyKernel, MonotoneCdf, Entropy,
      Sum, SoundChoice;
    var posterior := plan.branches[i].outcome.posterior;
    BranchPosterior(laws.phi, p, problem.budget, plan, i);
    OutcomesMeaning(laws, hypotheses, posterior);
    var gain := DiscretizedOutcomes(laws, hypotheses, posterior).value.gain;
    assert GainsExpected(laws, Simulated(problem, offer.candidate), Same(hypotheses), posterior, ConstantGain(gain), problem.budget - offer.cost);
    OptimalIsBest(laws, problem, offer.candidate, problem.budget - offer.cost, Same(hypotheses), posterior, ConstantGain(gain),
                  plan.branches[i].second);
  }

  lemma BranchPosterior(phi: Kernel, p: seq<real>, budget: real, plan: FirstPlan, i: nat)
    requires ExactPlan(phi, p, budget, plan) && i < |plan.branches|
    ensures IsDistribution(plan.branches[i].outcome.posterior) && |plan.branches[i].outcome.posterior| == |p|
  {
    hide IsDistribution, Entropy, Sum, EntropyShares, TerminalShares, GainShares, CostShares;
    assert Outcomes(plan.branches)[i] == plan.branches[i].outcome;
    assert SoundBranch(phi, |p|, Outcomes(plan.branches)[i]);
  }

  // ----- the adapter's plans -----

  /** The hypotheses of the candidate's comparison group. */
  function GroupHypotheses(adapter: Adapter): Candidate -> seq<Hypothesis> {
    (c: Candidate) => var i := SnapshotFor(adapter, c); if i.None? then [] else adapter.snapshots[i.value].hypotheses
  }

  /** They are those of a snapshot of that group. */
  lemma GroupHypothesesMeaning(adapter: Adapter, c: Candidate, d: Design)
    requires DesignFor(adapter.contract, c) == Some(d)
    ensures (exists s :: s in adapter.snapshots && s.group == d.group) ==>
      exists s :: s in adapter.snapshots && s.group == d.group && s.hypotheses == GroupHypotheses(adapter)(c)
  {
    var i := SnapshotFor(adapter, c);
    if i.Some? {
      assert adapter.snapshots[i.value] in adapter.snapshots;
    }
  }

  /** A candidate that can close has a snapshot to plan it with. */
  lemma CloserHypotheses(adapter: Adapter, size: nat, c: Candidate, completed: seq<CompletedExperiment>)
    requires SoundAdapter(adapter, size)
    requires AssessCandidate(adapter.contract, c, completed).Ok?
    requires AssessCandidate(adapter.contract, c, completed).value.effect == CompletesPair
    ensures SnapshotFor(adapter, c).Some?
    ensures GroupHypotheses(adapter)(c) == adapter.snapshots[SnapshotFor(adapter, c).value].hypotheses
    ensures PositiveSigmas(GroupHypotheses(adapter)(c)) && |GroupHypotheses(adapter)(c)| == size
  {
    hide SnapshotFor, AssessCandidate;
    CloserHasSnapshot(adapter, size, c, completed);
    assert adapter.snapshots[SnapshotFor(adapter, c).value] in adapter.snapshots;
  }

  lemma StartsFromAdapted(laws: GainLaws, adapter: Adapter, p: seq<real>, offer: Offer, completed: seq<CompletedExperiment>)
    requires SoundGainLaws(laws) && SoundAdapter(adapter, |p|) && IsDistribution(p)
    requires AssessCandidate(adapter.contract, offer.candidate, completed) == Ok(offer.assessment)
    ensures FirstOutcomesAdapted(laws, adapter, p, offer).Ok?
    ensures var first := FirstOutcomesAdapted(laws, adapter, p, offer).value;
      StartsFrom(laws, GroupHypotheses(adapter)(offer.candidate), p, offer.assessment.effect, first.0, first.1)
  {
    hide DiscretizedOutcomes, Entropy, AssessCandidate, SnapshotFor, StartsFrom, SoundGainLaws, SoundAdapter, IsDistribution,
      PositiveSigmas, GroupHypotheses, Applied;
    if offer.assessment.effect == CompletesPair {
      CloserHypotheses(adapter, |p|, offer.candidate, completed);
      StartsFromOutcomes(laws, GroupHypotheses(adapter)(offer.candidate), p, offer.assessment.effect);
    } else {
      StartsFromBelief(laws, GroupHypotheses(adapter)(offer.candidate), p, offer.assessment.effect);
    }
  }

  lemma StartsFromBelief(laws: GainLaws, hypotheses: seq<Hypothesis>, p: seq<real>, effect: Effect)
    requires SoundGainLaws(laws) && IsDistribution(p) && effect != CompletesPair
    ensures StartsFrom(laws, hypotheses, p, effect, 0.0, [OutcomeBranch(None, 1.0, p, Entropy(laws.phi, p))])
  {
    hide Entropy, Applied, SoundGainLaws, IsDistribution;
    EntropyOfBelief(laws, p);
  }

  /** Every plan of the adapter's planner is the plan described, each closer weighed by its own group. */
  lemma PlanFirstAdaptedMeaning(laws: GainLaws, adapter: Adapter, problem: Problem, p: seq<real>, offer: Offer)
    requires SoundGainLaws(laws) && SoundAdapter(adapter, |p|) && IsDistribution(p)
    requires Registry(problem) && problem.contract == adapter.contract
    requires offer.candidate in problem.candidates && Consider(problem, offer.candidate) == Ok(Some(offer))
    ensures PlanFirstAdapted(laws, adapter, problem, p, offer).Ok?
    ensures PlanMeans(laws, problem, GroupHypotheses(adapter), p, offer, PlanFirstAdapted(laws, adapter, problem, p, offer).value)
  {
    hide FirstOutcomesAdapted, PlanBranchesAdapted, ExactPlan, ExactAdaptedBranch, BestSecond, StartsFrom, Registry, PlanMeans, Answerable,
      SoundGainLaws, SoundAdapter, IsDistribution, Consider, GroupHypotheses;
    RegistryAnswers(problem);
    OfferFits(problem, offer.candidate);
    PlanFirstAdaptedExact(laws, adapter, problem, p, offer);
    AdaptedPlanStarts(laws, adapter, problem, p, offer);
    var plan := PlanFirstAdapted(laws, adapter, problem, p, offer).value;
    forall i | 0 <= i < |plan.branches|
      ensures BestSecond(laws, problem, offer.candidate, problem.budget - offer.cost, GroupHypotheses(adapter),
                         plan.branches[i].outcome.posterior, plan.branches[i].second)
    {
      AdaptedBranchMeans(laws, adapter, problem, p, offer, plan, i);
    }
    ExactPlanMeans(laws, problem, GroupHypotheses(adapter), p, offer, plan);
  }

  lemma AdaptedPlanStarts(laws: GainLaws, adapter: Adapter, problem: Problem, p: seq<real>, offer: Offer)
    requires SoundGainLaws(laws) && SoundAdapter(adapter, |p|) && IsDistribution(p)
    requires Registry(problem) && problem.contract == adapter.contract
    requires offer.candidate in problem.candidates && Consider(problem, offer.candidate) == Ok(Some(offer))
    requires PlanFirstAdapted(laws, adapter, problem, p, offer).Ok?
    ensures var plan := PlanFirstAdapted(laws, adapter, problem, p, offer).value;
      StartsFrom(laws, GroupHypotheses(adapter)(offer.candidate), p, offer.assessment.effect, plan.immediateGain, Outcomes(plan.branches))
  {
    hide FirstOutcomesAdapted, PlanBranchesAdapted, StartsFrom, Answerable, SoundGainLaws, SoundAdapter, IsDistribution, SoundBranch,
      ExactAdaptedBranch, Entropy, Sum, Consider, Registry, GroupHypotheses, AssessCandidate, EntropyShares;
    RegistryAnswers(problem);
    OfferFits(problem, offer.candidate);
    AnswerableSimulation(problem, offer.candidate);
    FirstOutcomesAdaptedExact(laws, adapter, p, offer, problem.completed);
    var first := FirstOutcomesAdapted(laws, adapter, p, offer).value;
    AdaptedBranchesExact(laws, adapter, |p|, Simulated(problem, offer.candidate), first.1, offer.cost);
    StartsFromAdapted(laws, adapter, p, offer, problem.completed);
  }

  lemma AdaptedBranchMeans(laws: GainLaws, adapter: Adapter, problem: Problem, p: seq<real>, offer: Offer, plan: FirstPlan, i: nat)
    requires SoundGainLaws(laws) && SoundAdapter(adapter, |p|)
    requires Registry(problem) && problem.contract == adapter.contract && offer.candidate in problem.candidates
    requires ExactPlan(laws.phi, p, problem.budget, plan) && i < |plan.branches|
    requires ExactAdaptedBranch(laws, adapter, Simulated(problem, offer.candidate), offer.cost, plan.branches[i])
    ensures BestSecond(laws, problem, offer.candidate, problem.budget - offer.cost, GroupHypotheses(adapter),
                       plan.branches[i].outcome.posterior, plan.branches[i].second)
  {
    hide Closer, OptimalSecond, BestSecond, IsExpectedGain, PositiveSigmas, EntropyKernel, MonotoneCdf, SoundChoice, AdaptedGain,
      SoundAdapter, GroupHypotheses, ExactPlan, Sum;
    var posterior, remaining := plan.branches[i].outcome.posterior, problem.budget - offer.cost;
    BranchPosterior(laws.phi, p, problem.budget, plan, i);
    var simulated := Simulated(problem, offer.candidate);
    forall d | d in simulated.candidates && Closer(simulated, remaining, d).Ok? && Closer(simulated, remaining, d).value.Some?
      ensures PositiveSigmas(GroupHypotheses(adapter)(d))
      ensures IsExpectedGain(laws, GroupHypotheses(adapter)(d), posterior, AdaptedGain(laws, adapter, posterior)(d))
    {
      CloserGainMeaning(laws, adapter, simulated, posterior, remaining, d);
    }
    assert GainsExpected(laws, simulated, GroupHypotheses(adapter), posterior, AdaptedGain(laws, adapter, posterior), remaining);
    OptimalIsBest(laws, problem, offer.candidate, remaining, GroupHypotheses(adapter), posterior, AdaptedGain(laws, adapter, posterior),
                  plan.branches[i].second);
  }

  lemma CloserGainMeaning(laws: GainLaws, adapter: Adapter, problem: Problem, p: seq<real>, remaining: real, d: Candidate)
    requires SoundGainLaws(laws) && SoundAdapter(adapter, |p|) && IsDistribution(p) && problem.contract == adapter.contract
    requires Closer(problem, remaining, d).Ok? && Closer(problem, remaining, d).value.Some?
    ensures PositiveSigmas(GroupHypotheses(adapter)(d))
    ensures IsExpectedGain(laws, GroupHypotheses(adapter)(d), p, AdaptedGain(laws, adapter, p)(d))
  {
    hide DiscretizedOutcomes, SnapshotFor, AssessCandidate, IsCompleted, CostOf, IsExpectedGain, PositiveSigmas, SoundAdapter,
      IsDistribution, SoundGainLaws;
    CloserHypotheses(adapter, |p|, d, problem.completed);
    OutcomesMeaning(laws, GroupHypotheses(adapter)(d), p);
  }

  // ----- what an opened pair is worth -----

  /** A first action that opens a pair is planned together with the pair's close: its only branch takes a second
      action worth at least the gain expected of any open, affordable candidate of the other arm, and so is
      the whole plan. */
  lemma OpenerIsWorthItsPair(laws: GainLaws, problem: Problem, hypothesesOf: Candidate -> seq<Hypothesis>, p: seq<real>, offer: Offer,
                             plan: FirstPlan, d: Candidate, gain: real)
    requires Registry(problem) && PlanMeans(laws, problem, hypothesesOf, p, offer, plan)
    requires AssessCandidate(problem.contract, offer.candidate, problem.completed) == Ok(offer.assessment)
    requires offer.assessment.effect == OpensPair
    requires d in problem.candidates && Partners(problem.contract, offer.candidate, d)
    requires forall i :: 0 <= i < |problem.completed| ==> problem.completed[i].candidate.id != d.id
    requires offer.cost + problem.costs[d.id] <= problem.budget + 0.000000000001
    requires IsExpectedGain(laws, hypothesesOf(d), p, gain)
    ensures |plan.branches| == 1 && plan.branches[0].second.gain == plan.totalGain >= gain
    ensures gain > 0.0 ==> plan.branches[0].second.candidate.Some?
  {
    hide IsExpectedGain, AssessCandidate, SecondNoWorse, Registered, ChancesOf, BranchesOfBins, Applied, Closes;
    PartnerCloses(problem, offer.candidate, d);
    assert d.id != offer.candidate.id;
    assert FollowsUp(problem, offer.candidate, problem.budget - offer.cost, d, problem.costs[d.id]);
    assert Outcomes(plan.branches)[0] == plan.branches[0].outcome;
    var b := plan.branches[0];
    assert BranchMeans(laws, problem, hypothesesOf, offer.candidate, offer.cost, b);
    assert b.outcome == OutcomeBranch(None, 1.0, p, Sum(Applied(laws.phi, p)));
    assert SecondNoWorse(b.second, gain, problem.costs[d.id], d.id);
    NoWorseGain(b.second, gain, problem.costs[d.id], d.id);
    SumOfOne(b.second.gain);
    assert Weighed(plan.branches, SecondGains(plan.branches)) == [b.second.gain];
  }

  lemma NoWorseGain(a: SecondAction, gain: real, cost: real, id: string)
    requires SecondNoWorse(a, gain, cost, id)
    ensures a.gain >= gain
  {
  }

  // ----- the plan selected -----

  /** The candidate is open and affordable, and completing it opens, closes or concerns no pair. */
  predicate OnOffer(problem: Problem, offer: Offer) {
    && offer.candidate in problem.candidates
    && (forall i :: 0 <= i < |problem.completed| ==> problem.completed[i].candidate.id != offer.candidate.id)
    && offer.candidate.id in problem.costs && offer.cost == problem.costs[offer.candidate.id] && 0.0 <= offer.cost <= problem.budget
    && AssessCandidate(problem.contract, offer.candidate, problem.completed) == Ok(offer.assessment)
    && (offer.assessment.effect == OpensPair || offer.assessment.effect == CompletesPair || offer.assessment.effect == Ineligible)
  }

  lemma OfferedIff(problem: Problem, offer: Offer)
    requires offer.candidate in problem.candidates
    ensures Consider(problem, offer.candidate) == Ok(Some(offer)) <==> OnOffer(problem, offer)
  {
    hide AssessCandidate;
  }

  /** Greater total gain first, then lower total cost, then the earlier identifier. */
  predicate PlanNoWorse(a: FirstPlan, b: FirstPlan) {
    || a.totalGain > b.totalGain
    || (a.totalGain == b.totalGain && a.totalCost < b.totalCost)
    || (a.totalGain == b.totalGain && a.totalCost == b.totalCost && !StringLess(b.candidate.id, a.candidate.id))
  }

  /** A plan described that the plan `best` is no worse than. */
  ghost predicate Outranked(laws: GainLaws, problem: Problem, hypothesesOf: Candidate -> seq<Hypothesis>, p: seq<real>, offer: Offer,
                            best: FirstPlan)
    requires Registry(problem)
  {
    exists q :: PlanMeans(laws, problem, hypothesesOf, p, offer, q) && PlanNoWorse(best, q)
  }

  /** The plan selected is one described of a candidate on offer, and no worse than the plan of any other. */
  ghost predicate BestPlan(laws: GainLaws, problem: Problem, hypothesesOf: Candidate -> seq<Hypothesis>, p: seq<real>, trace: PlanTrace)
    requires Registry(problem)
  {
    && (exists offer :: OnOffer(problem, offer) && PlanMeans(laws, problem, hypothesesOf, p, offer, trace.selected.plan))
    && (forall offer :: OnOffer(problem, offer) ==> Outranked(laws, problem, hypothesesOf, p, offer, trace.selected.plan))
    && trace.budget == problem.budget
    && (trace.fallback <==> trace.selected.plan.totalGain <= 0.000000000001)
  }

  lemma NotPlanBefore(a: FirstPlan, b: FirstPlan)
    requires !PlanBefore(b, a)
    requires PerCost(a.ratio, a.totalGain, a.totalCost) && PerCost(b.ratio, b.totalGain, b.totalCost)
    ensures PlanNoWorse(a, b)
  {
    hide StringLess;
    if a.totalGain == b.totalGain && a.totalCost == b.totalCost {
      RatioDetermined(a.ratio, b.ratio, a.totalGain, a.totalCost);
    }
  }

  lemma RatioDetermined(x: real, y: real, gain: real, cost: real)
    requires PerCost(x, gain, cost) && PerCost(y, gain, cost)
    ensures x == y
  {
    if cost > 0.0 {
      CancelPositive(cost, x, y);
    }
  }

  /** The whole ranking of plans is in order. */
  lemma PlansAreSorted(plans: seq<FirstPlan>, i: nat, j: nat)
    requires i < j < |plans| && forall q :: q in plans ==> PerCost(q.ratio, q.totalGain, q.totalCost)
    ensures PlanNoWorse(RankedPlans(SortBy(plans, PlanBefore))[i].plan, RankedPlans(SortBy(plans, PlanBefore))[j].plan)
  {
    RankOrder();
    assert StrictWeakOrder(PlanBefore);
    hide RankLess, PerCost;
    SortAscending(plans, PlanBefore);
    SortMembers(plans, PlanBefore);
    var sorted := SortBy(plans, PlanBefore);
    assert sorted[i] in sorted && sorted[j] in sorted;
    NotPlanBefore(sorted[i], sorted[j]);
  }

  /** What is least among plans all of which are as described is the best plan. */
  lemma LeastIsBest(laws: GainLaws, problem: Problem, hypothesesOf: Candidate -> seq<Hypothesis>, p: seq<real>,
                    planOf: Offer -> Result<FirstPlan, PlanningError>, trace: PlanTrace)
    requires Registry(problem) && LeastPlan(planOf, problem, trace)
    requires forall offer :: OnOffer(problem, offer) && planOf(offer).Ok? ==>
      PlanMeans(laws, problem, hypothesesOf, p, offer, planOf(offer).value)
    ensures BestPlan(laws, problem, hypothesesOf, p, trace)
  {
    hide Consider, PlanBefore, StartsFrom, BranchMeans, Registry, OnOffer, IsExpectation, PerCost;
    var best := trace.selected.plan;
    var mine: Offer :| mine.candidate in problem.candidates && Planned(planOf, problem, mine, best);
    OfferedIff(problem, mine);
    forall offer | OnOffer(problem, offer) ensures Outranked(laws, problem, hypothesesOf, p, offer, best) {
      OfferOfProblem(problem, offer);
      OfferedIff(problem, offer);
      NotPlanBefore(best, planOf(offer).value);
    }
  }

  lemma OfferOfProblem(problem: Problem, offer: Offer)
    requires OnOffer(problem, offer)
    ensures offer.candidate in problem.candidates && offer.cost <= problem.budget
  {
  }

  /** What the base planner selects. */
  lemma DecideLookaheadMeaning(laws: GainLaws, problem: Problem, hypotheses: seq<Hypothesis>, state: BeliefState)
    requires SoundGainLaws(laws) && PositiveSigmas(hypotheses) && ValidState(state) && Registry(problem)
    requires problem.budget >= 0.0 && HypothesisIds(Ordered(hypotheses)) == state.hypothesisIds
    ensures DecideLookahead(laws, problem, hypotheses, state).Ok? <==> exists offer :: OnOffer(problem, offer)
    ensures DecideLookahead(laws, problem, hypotheses, state).Ok? ==>
      BestPlan(laws, problem, Same(Ordered(hypotheses)), state.posterior, DecideLookahead(laws, problem, hypotheses, state).value)
  {
    hide LeastPlan, BestPlan, DecideLookahead, Registry, PlanMeans, OnOffer, IsOffered, SoundGainLaws, Answerable, BasePlan, Ordered,
      IsDistribution;
    RegistryAnswers(problem);
    SomethingOnOffer(problem);
    DecideLookaheadExact(laws, problem, hypotheses, state);
    if SomeOffer(problem) {
      OrderedSigmas(hypotheses);
      forall offer | OnOffer(problem, offer)
        ensures PlanFirstAction(laws, problem, Ordered(hypotheses), state.posterior, offer).Ok?
        ensures PlanMeans(laws, problem, Same(Ordered(hypotheses)), state.posterior, offer,
                          PlanFirstAction(laws, problem, Ordered(hypotheses), state.posterior, offer).value)
      {
        OfferOfProblem(problem, offer);
        PlanFirstMeaning(laws, problem, Ordered(hypotheses), state.posterior, offer);
      }
      BasePlanIs(laws, problem, Ordered(hypotheses), state.posterior);
      LeastIsBest(laws, problem, Same(Ordered(hypotheses)), state.posterior, BasePlan(laws, problem, Ordered(hypotheses), state.posterior),
                  DecideLookahead(laws, problem, hypotheses, state).value);
    }
  }

  lemma BasePlanIs(laws: GainLaws, problem: Problem, hypotheses: seq<Hypothesis>, p: seq<real>)
    ensures forall offer :: BasePlan(laws, problem, hypotheses, p)(offer) == PlanFirstAction(laws, problem, hypotheses, p, offer)
  {
  }

  lemma SomethingOnOffer(problem: Problem)
    ensures SomeOffer(problem) <==> exists offer :: OnOffer(problem, offer)
  {
    hide Consider;
    if SomeOffer(problem) {
      var c :| c in problem.candidates && IsOffered(problem, c);
      OfferFits(problem, c);
      OfferedIff(problem, Consider(problem, c).value.value);
    }
    if offer :| OnOffer(problem, offer) {
      OfferOfProblem(problem, offer);
      OfferedIff(problem, offer);
    }
  }

  /** What the adapter's planner selects. */
  lemma DecideLookaheadAdaptedMeaning(laws: GainLaws, adapter: Adapter, problem: Problem, state: BeliefState)
    requires SoundGainLaws(laws) && SoundAdapter(adapter, |state.posterior|) && ValidState(state)
    requires Registry(problem) && problem.contract == adapter.contract && problem.budget >= 0.0
    ensures DecideLookaheadAdapted(laws, adapter, problem, state).Ok? <==> exists offer :: OnOffer(problem, offer)
    ensures DecideLookaheadAdapted(laws, adapter, problem, state).Ok? ==>
      BestPlan(laws, problem, GroupHypotheses(adapter), state.posterior, DecideLookaheadAdapted(laws, adapter, problem, state).value)
  {
    hide LeastPlan, BestPlan, DecideLookaheadAdapted, Registry, PlanMeans, OnOffer, IsOffered, SoundGainLaws, Answerable, AdaptedPlan,
      SoundAdapter, IsDistribution, GroupHypotheses, Consider;
    RegistryAnswers(problem);
    SomethingOnOffer(problem);
    DecideLookaheadAdaptedExact(laws, adapter, problem, state);
    if SomeOffer(problem) {
      forall offer | OnOffer(problem, offer)
        ensures PlanFirstAdapted(laws, adapter, problem, state.posterior, offer).Ok?
        ensures PlanMeans(laws, problem, GroupHypotheses(adapter), state.posterior, offer,
                          PlanFirstAdapted(laws, adapter, problem, state.posterior, offer).value)
      {
        OfferOfProblem(problem, offer);
        OfferedIff(problem, offer);
        PlanFirstAdaptedMeaning(laws, adapter, problem, state.posterior, offer);
      }
      AdaptedPlanIs(laws, adapter, problem, state.posterior);
      LeastIsBest(laws, problem, GroupHypotheses(adapter), state.posterior, AdaptedPlan(laws, adapter, problem, state.posterior),
                  DecideLookaheadAdapted(laws, adapter, problem, state).value);
    }
  }

  lemma AdaptedPlanIs(laws: GainLaws, adapter: Adapter, problem: Problem, p: seq<real>)
    ensures forall offer :: AdaptedPlan(laws, adapter, problem, p)(offer) == PlanFirstAdapted(laws, adapter, problem, p, offer)
  {
  }
}
