/** The two-step lookahead policy: for every first action its outcome branches, in every branch the
    best second action or STOP, and the order in which complete plans are ranked. */
module LookaheadPolicy {
  import opened Wrappers
  import opened RealSums
  import opened Information
  import opened Ordering
  import opened EvidenceEligibility
  import opened Reasoning
  import opened BeliefModels
  import opened EvidenceOutcomes
  import opened OneStepPolicy

  const STOP_ACTION_ID := "STOP"

  function InformationPerCost(gain: real, cost: real): real {
    if cost <= 0.0 then 0.0 else gain / cost
  }

  // ----- second actions -----

  /** No candidate stands for STOP. */
  datatype SecondAction = SecondAction(candidate: Option<Candidate>, gain: real, cost: real, ratio: real)
  {
    function Id(): string {
      if candidate.None? then STOP_ACTION_ID else candidate.value.id
    }
  }

  const STOP: SecondAction := SecondAction(None, 0.0, 0.0, 0.0)

  function CloseAction(c: Candidate, gain: real, cost: real): SecondAction {
    SecondAction(Some(c), gain, cost, InformationPerCost(gain, cost))
  }

  function SecondKey(a: SecondAction): RankKey {
    RankKey(-a.gain, a.cost, -a.ratio, a.Id())
  }

  predicate SecondBefore(a: SecondAction, b: SecondAction) {
    RankLess(SecondKey(a), SecondKey(b))
  }

  /** The guards of the second step: the cost of a candidate that is open, fits what remains with the
      slack, and would complete a pair. */
  function Closer(problem: Problem, remaining: real, c: Candidate): Result<Option<real>, PlanningError> {
    if IsCompleted(c, problem.completed) then Ok(None)
    else
      var cost :- CostOf(problem.costs, c.id);
      if cost > remaining + POSITIVE_INFORMATION_TOLERANCE then Ok(None)
      else
        var assessment :- Assessed(problem.contract, c, problem.completed);
        if assessment.effect != CompletesPair then Ok(None) else Ok(Some(cost))
  }

  function SecondChoices(problem: Problem, gain: real, remaining: real, candidates: seq<Candidate>)
    : (r: Result<seq<SecondAction>, PlanningError>)
    ensures r.Ok? ==> |r.value| > 0
  {
    if |candidates| == 0 then Ok([STOP])
    else
      var rest :- SecondChoices(problem, gain, remaining, candidates[..|candidates| - 1]);
      var cost :- Closer(problem, remaining, candidates[|candidates| - 1]);
      Ok(if cost.None? then rest else rest + [CloseAction(candidates[|candidates| - 1], gain, cost.value)])
  }

  lemma {:induction false} ChoiceFailureStays(problem: Problem, gain: real, remaining: real, candidates: seq<Candidate>, n: nat)
    requires n <= |candidates| && SecondChoices(problem, gain, remaining, candidates[..n]).Err?
    ensures SecondChoices(problem, gain, remaining, candidates) == SecondChoices(problem, gain, remaining, candidates[..n])
  {
    if n < |candidates| {
      assert candidates[..|candidates| - 1][..n] == candidates[..n];
      ChoiceFailureStays(problem, gain, remaining, candidates[..|candidates| - 1], n);
    } else {
      assert candidates[..n] == candidates;
    }
  }

  /** `sorted(choices, key=_second_action_sort_key)[0]`. */
  function Preferred(choices: seq<SecondAction>): SecondAction
    requires |choices| > 0
  {
    SortBy(choices, SecondBefore)[0]
  }

  /** `_best_second_action`; `problem` already holds the simulated first experiment. */
  function BestSecondAction(laws: GainLaws, problem: Problem, hypotheses: seq<Hypothesis>, p: seq<real>, remaining: real)
    : Result<SecondAction, PlanningError>
  {
    var distribution :- DiscretizedOutcomes(laws, hypotheses, p);
    var choices :- SecondChoices(problem, distribution.gain, remaining, InIdOrder(problem.candidates));
    Ok(Preferred(choices))
  }

  method FindBestSecondAction(laws: GainLaws, problem: Problem, hypotheses: seq<Hypothesis>, p: seq<real>, remaining: real)
    returns (r: Result<SecondAction, PlanningError>)
    ensures r == BestSecondAction(laws, problem, hypotheses, p, remaining)
  {
    hide Closer, DiscretizedOutcomes, SortBy;
    var distribution :- EnumerateOutcomes(laws, hypotheses, p);
    var sorted := InIdOrder(problem.candidates);
    var choices := [STOP];
    for i := 0 to |sorted|
      invariant |choices| > 0
      invariant SecondChoices(problem, distribution.gain, remaining, sorted[..i]) == Ok(choices)
    {
      assert sorted[..i + 1][..i] == sorted[..i];
      var cost := Closer(problem, remaining, sorted[i]);
      if cost.Err? {
        ChoiceFailureStays(problem, distribution.gain, remaining, sorted, i + 1);
        return Err(cost.error);
      }
      if cost.value.Some? {
        choices := choices + [CloseAction(sorted[i], distribution.gain, cost.value.value)];
      }
    }
    assert sorted[..|sorted|] == sorted;
    return Ok(Preferred(choices));
  }

  function ConstantGain(gain: real): Candidate -> real {
    (c: Candidate) => gain
  }

  predicate IsClosing(problem: Problem, gainOf: Candidate -> real, remaining: real, candidates: seq<Candidate>, a: SecondAction) {
    && a.candidate.Some? && a.candidate.value in candidates
    && Closer(problem, remaining, a.candidate.value) == Ok(Some(a.cost))
    && a == CloseAction(a.candidate.value, gainOf(a.candidate.value), a.cost)
  }

  /** The choices are STOP and every affordable closer, each with its own gain. */
  ghost predicate ChoicesOf(problem: Problem, gainOf: Candidate -> real, remaining: real, candidates: seq<Candidate>,
                            choices: seq<SecondAction>)
  {
    forall a :: a in choices <==> a == STOP || IsClosing(problem, gainOf, remaining, candidates, a)
  }

  lemma {:induction false} ChoicesAreClosers(problem: Problem, gain: real, remaining: real, candidates: seq<Candidate>)
    requires SecondChoices(problem, gain, remaining, candidates).Ok?
    ensures forall c :: c in candidates ==> Closer(problem, remaining, c).Ok?
    ensures ChoicesOf(problem, ConstantGain(gain), remaining, candidates,
                      SecondChoices(problem, gain, remaining, candidates).value)
  {
    hide Closer;
    if |candidates| > 0 {
      ChoicesAreClosers(problem, gain, remaining, candidates[..|candidates| - 1]);
      assert candidates == candidates[..|candidates| - 1] + [candidates[|candidates| - 1]];
    }
  }

  /** The chosen second action beats STOP and every affordable closer in the second-action order. */
  lemma PreferredIsBest(choices: seq<SecondAction>)
    requires |choices| > 0
    ensures Preferred(choices) in choices
    ensures forall a :: a in choices ==> !SecondBefore(a, Preferred(choices))
    ensures forall a :: a in choices ==> a.gain <= Preferred(choices).gain
  {
    RankOrder();
    assert StrictWeakOrder(SecondBefore);
    SortHeadLeast(choices, SecondBefore);
  }

  // ----- one branch -----

  datatype Branch = Branch(outcome: OutcomeBranch, second: SecondAction, terminalEntropy: real, totalCost: real, feasible: bool)

  function BranchWith(outcome: OutcomeBranch, firstCost: real, second: SecondAction, budget: real): Branch {
    Branch(outcome, second, Max(0.0, outcome.entropy - second.gain), firstCost + second.cost,
           firstCost + second.cost <= budget + POSITIVE_INFORMATION_TOLERANCE)
  }

  /** The experiments a plan simulates after its first action; nothing is persisted. */
  function Simulated(problem: Problem, c: Candidate): Problem {
    problem.(completed := problem.completed + [CompletedExperiment(0, c, 0.0)])
  }

  function PlanBranch(laws: GainLaws, simulated: Problem, hypotheses: seq<Hypothesis>, outcome: OutcomeBranch, firstCost: real)
    : Result<Branch, PlanningError>
  {
    var second :- BestSecondAction(laws, simulated, hypotheses, outcome.posterior, simulated.budget - firstCost);
    Ok(BranchWith(outcome, firstCost, second, simulated.budget))
  }

  function PlanBranches(laws: GainLaws, simulated: Problem, hypotheses: seq<Hypothesis>, outcomes: seq<OutcomeBranch>, firstCost: real)
    : (r: Result<seq<Branch>, PlanningError>)
    ensures r.Ok? ==> |r.value| == |outcomes|
  {
    if |outcomes| == 0 then Ok([])
    else
      var rest :- PlanBranches(laws, simulated, hypotheses, outcomes[..|outcomes| - 1], firstCost);
      var branch :- PlanBranch(laws, simulated, hypotheses, outcomes[|outcomes| - 1], firstCost);
      Ok(rest + [branch])
  }

  // ----- one plan -----

  datatype FirstPlan = FirstPlan(
    candidate: Candidate,
    effect: Effect,
    firstCost: real,
    priorEntropy: real,
    immediateGain: real,
    terminalEntropy: real,
    totalGain: real,
    totalCost: real,
    ratio: real,
    branches: seq<Branch>)

  function Outcomes(branches: seq<Branch>): (r: seq<OutcomeBranch>)
    ensures |r| == |branches|
  {
    seq(|branches|, i requires 0 <= i < |branches| => branches[i].outcome)
  }

  function TerminalShares(branches: seq<Branch>): (r: seq<real>)
    ensures |r| == |branches|
  {
    seq(|branches|, i requires 0 <= i < |branches| => branches[i].outcome.probability * branches[i].terminalEntropy)
  }

  function GainShares(branches: seq<Branch>): (r: seq<real>)
    ensures |r| == |branches|
  {
    seq(|branches|, i requires 0 <= i < |branches| => branches[i].outcome.probability * branches[i].second.gain)
  }

  function CostShares(branches: seq<Branch>): (r: seq<real>)
    ensures |r| == |branches|
  {
    seq(|branches|, i requires 0 <= i < |branches| => branches[i].outcome.probability * branches[i].totalCost)
  }

  /** The immediate gain and the branches of a first action: those of its evidence when it completes a
      pair, one branch without evidence otherwise. */
  function FirstOutcomes(laws: GainLaws, hypotheses: seq<Hypothesis>, p: seq<real>, effect: Effect)
    : Result<(real, seq<OutcomeBranch>), PlanningError>
  {
    if effect == CompletesPair then
      var d :- DiscretizedOutcomes(laws, hypotheses, p);
      Ok((d.gain, d.branches))
    else Ok((0.0, [OutcomeBranch(None, 1.0, p, Entropy(laws.phi, p))]))
  }

  /** The checks and totals of a plan once its branches are known. */
  function PlanWith(phi: Kernel, offer: Offer, p: seq<real>, immediate: real, branches: seq<Branch>)
    : Result<FirstPlan, PlanningError>
  {
    if exists i :: 0 <= i < |branches| && !branches[i].feasible then Err(BranchOverBudget)
    else
      var prior, terminal := Entropy(phi, p), Sum(TerminalShares(branches));
      if prior - terminal < -POSITIVE_INFORMATION_TOLERANCE then Err(NegativeGain)
      else
        var gain, cost := Max(0.0, prior - terminal), Sum(CostShares(branches));
        Ok(FirstPlan(offer.candidate, offer.assessment.effect, offer.cost, prior, immediate, terminal, gain, cost,
                     InformationPerCost(gain, cost), branches))
  }

  /** `_plan_first_action`. */
  function PlanFirstAction(laws: GainLaws, problem: Problem, hypotheses: seq<Hypothesis>, p: seq<real>, offer: Offer)
    : Result<FirstPlan, PlanningError>
  {
    var first :- FirstOutcomes(laws, hypotheses, p, offer.assessment.effect);
    var branches :- PlanBranches(laws, Simulated(problem, offer.candidate), hypotheses, first.1, offer.cost);
    PlanWith(laws.phi, offer, p, first.0, branches)
  }

  // ----- ranking -----

  function PlanKey(plan: FirstPlan): RankKey {
    RankKey(-plan.totalGain, plan.totalCost, -plan.ratio, plan.candidate.id)
  }

  predicate PlanBefore(a: FirstPlan, b: FirstPlan) {
    RankLess(PlanKey(a), PlanKey(b))
  }

  datatype PlanReason = SelectedPlan | LowerTotalGain | HigherTotalCost | LowerRatio | LaterCandidateId

  datatype RankedPlan = RankedPlan(plan: FirstPlan, reason: PlanReason)

  function PlanReasonFor(selected: FirstPlan, plan: FirstPlan, index: nat): PlanReason {
    if index == 0 then SelectedPlan
    else if plan.totalGain < selected.totalGain then LowerTotalGain
    else if plan.totalCost > selected.totalCost then HigherTotalCost
    else if plan.ratio < selected.ratio then LowerRatio
    else LaterCandidateId
  }

  /** `_add_first_action_ranking_reasons` and its copy `_rank_first_actions`. */
  function RankedPlans(ordered: seq<FirstPlan>): (r: seq<RankedPlan>)
    requires |ordered| > 0
    ensures |r| == |ordered|
  {
    seq(|ordered|, i requires 0 <= i < |ordered| => RankedPlan(ordered[i], PlanReasonFor(ordered[0], ordered[i], i)))
  }

  method RankPlansInOrder(ordered: seq<FirstPlan>) returns (ranked: seq<RankedPlan>)
    requires |ordered| > 0
    ensures ranked == RankedPlans(ordered)
  {
    ranked := [];
    for i := 0 to |ordered|
      invariant ranked == RankedPlans(ordered)[..i]
    {
      ranked := ranked + [RankedPlan(ordered[i], PlanReasonFor(ordered[0], ordered[i], i))];
    }
  }

  /** The selected plan, every other plan as an alternative, and whether the plan is a fallback. */
  datatype PlanTrace = PlanTrace(selected: RankedPlan, alternatives: seq<RankedPlan>, budget: real, fallback: bool)

  // ----- the decision -----

  function CostsValid(costs: map<string, real>, candidates: seq<Candidate>): Result<(), PlanningError> {
    if |candidates| == 0 then Ok(())
    else
      var rest :- CostsValid(costs, candidates[..|candidates| - 1]);
      var cost :- CostOf(costs, candidates[|candidates| - 1].id);
      Ok(())
  }

  function CompletedDesigned(contract: Contract, completed: seq<CompletedExperiment>): Result<(), PlanningError> {
    if AllRegistered(contract, completed) then Ok(()) else Err(Unregistered(FirstUnregistered(contract, completed)))
  }

  /** What the candidate fingerprint needs of every candidate: a cost and a design. */
  function CandidatesDesigned(problem: Problem, candidates: seq<Candidate>): Result<(), PlanningError> {
    if |candidates| == 0 then Ok(())
    else
      var rest :- CandidatesDesigned(problem, candidates[..|candidates| - 1]);
      var c := candidates[|candidates| - 1];
      var cost :- CostOf(problem.costs, c.id);
      if Registered(problem.contract, c) then Ok(()) else Err(Unregistered(c.id))
  }

  function FirstPlans(laws: GainLaws, problem: Problem, hypotheses: seq<Hypothesis>, p: seq<real>, candidates: seq<Candidate>)
    : Result<seq<FirstPlan>, PlanningError>
  {
    if |candidates| == 0 then Ok([])
    else
      var rest :- FirstPlans(laws, problem, hypotheses, p, candidates[..|candidates| - 1]);
      var offer :- Consider(problem, candidates[|candidates| - 1]);
      if offer.None? then Ok(rest)
      else
        var plan :- PlanFirstAction(laws, problem, hypotheses, p, offer.value);
        Ok(rest + [plan])
  }

  lemma {:induction false} PlanFailureStays(laws: GainLaws, problem: Problem, hypotheses: seq<Hypothesis>, p: seq<real>,
                                            candidates: seq<Candidate>, n: nat)
    requires n <= |candidates| && FirstPlans(laws, problem, hypotheses, p, candidates[..n]).Err?
    ensures FirstPlans(laws, problem, hypotheses, p, candidates) == FirstPlans(laws, problem, hypotheses, p, candidates[..n])
  {
    hide Consider, PlanFirstAction;
    if n < |candidates| {
      assert candidates[..|candidates| - 1][..n] == candidates[..n];
      PlanFailureStays(laws, problem, hypotheses, p, candidates[..|candidates| - 1], n);
    } else {
      assert candidates[..n] == candidates;
    }
  }

  /** The ranking, the trace and the fingerprints once every plan is known. */
  function ConcludePlans(problem: Problem, plans: seq<FirstPlan>): Result<PlanTrace, PlanningError> {
    if |plans| == 0 then Err(NoFeasibleCandidate)
    else
      var ranked := RankedPlans(SortBy(plans, PlanBefore));
      var completedCheck :- CompletedDesigned(problem.contract, problem.completed);
      var candidateCheck :- CandidatesDesigned(problem, InIdOrder(problem.candidates));
      Ok(PlanTrace(ranked[0], ranked[1..], problem.budget, ranked[0].plan.totalGain <= POSITIVE_INFORMATION_TOLERANCE))
  }

  /** `LookaheadInformationGainPolicy.decide`. */
  function DecideLookahead(laws: GainLaws, problem: Problem, hypotheses: seq<Hypothesis>, state: BeliefState)
    : Result<PlanTrace, PlanningError>
  {
    var ordered := Ordered(hypotheses);
    if problem.budget < 0.0 then Err(InvalidBudget)
    else if HypothesisIds(ordered) != state.hypothesisIds then Err(PlanningHypothesesMismatch)
    else
      var costCheck :- CostsValid(problem.costs, problem.candidates);
      var plans :- FirstPlans(laws, problem, ordered, state.posterior, InIdOrder(problem.candidates));
      ConcludePlans(problem, plans)
  }

  method DecideLookaheadPlan(laws: GainLaws, problem: Problem, hypotheses: seq<Hypothesis>, state: BeliefState)
    returns (r: Result<PlanTrace, PlanningError>)
    ensures r == DecideLookahead(laws, problem, hypotheses, state)
  {
    hide Consider, PlanFirstAction, SortBy;
    var ordered := Ordered(hypotheses);
    if problem.budget < 0.0 {
      return Err(InvalidBudget);
    }
    if HypothesisIds(ordered) != state.hypothesisIds {
      return Err(PlanningHypothesesMismatch);
    }
    var costCheck :- CostsValid(problem.costs, problem.candidates);
    var sorted := InIdOrder(problem.candidates);
    var plans: seq<FirstPlan> := [];
    for i := 0 to |sorted|
      invariant FirstPlans(laws, problem, ordered, state.posterior, sorted[..i]) == Ok(plans)
    {
      assert sorted[..i + 1][..i] == sorted[..i];
      var offer := Consider(problem, sorted[i]);
      if offer.Err? {
        PlanFailureStays(laws, problem, ordered, state.posterior, sorted, i + 1);
        return Err(offer.error);
      }
      if offer.value.Some? {
        var plan := PlanFirstAction(laws, problem, ordered, state.posterior, offer.value.value);
        if plan.Err? {
          PlanFailureStays(laws, problem, ordered, state.posterior, sorted, i + 1);
          return Err(plan.error);
        }
        plans := plans + [plan.value];
      }
    }
    assert sorted[..|sorted|] == sorted;
    if |plans| == 0 {
      return Err(NoFeasibleCandidate);
    }
    var ranked := RankPlansInOrder(SortBy(plans, PlanBefore));
    var completedCheck :- CompletedDesigned(problem.contract, problem.completed);
    var candidateCheck :- CandidatesDesigned(problem, sorted);
    return Ok(PlanTrace(ranked[0], ranked[1..], problem.budget, ranked[0].plan.totalGain <= POSITIVE_INFORMATION_TOLERANCE));
  }

  // ----- the chain rule -----

  /** A branch whose second action is worth no more than what is still unknown there, and fits. */
  ghost predicate SoundChoice(b: Branch, firstCost: real, budget: real) {
    && 0.0 <= b.second.gain <= b.outcome.entropy
    && b == BranchWith(b.outcome, firstCost, b.second, budget)
    && 0.0 <= b.second.cost <= budget - firstCost + POSITIVE_INFORMATION_TOLERANCE
  }

  /** What exact arithmetic makes of a plan: no clamp acts, the total gain is the immediate gain plus
      the probability-weighted gain of the second actions, and every branch fits the budget. */
  ghost predicate ExactPlan(phi: Kernel, p: seq<real>, budget: real, plan: FirstPlan) {
    && SoundBranches(phi, |p|, Outcomes(plan.branches))
    && (forall i :: 0 <= i < |plan.branches| ==>
          && plan.branches[i].terminalEntropy == plan.branches[i].outcome.entropy - plan.branches[i].second.gain
          && plan.branches[i].totalCost == plan.firstCost + plan.branches[i].second.cost
          && plan.branches[i].totalCost <= budget + POSITIVE_INFORMATION_TOLERANCE)
    && plan.priorEntropy == Entropy(phi, p)
    && plan.immediateGain == plan.priorEntropy - Sum(EntropyShares(Outcomes(plan.branches)))
    && plan.terminalEntropy == Sum(TerminalShares(plan.branches))
    && plan.totalGain == plan.priorEntropy - plan.terminalEntropy
    && plan.totalGain == plan.immediateGain + Sum(GainShares(plan.branches))
    && plan.totalCost == Sum(CostShares(plan.branches))
    && 0.0 <= plan.immediateGain <= plan.totalGain <= plan.priorEntropy
  }

  lemma SharesSplit(branches: seq<Branch>)
    requires forall i :: 0 <= i < |branches| ==>
               branches[i].terminalEntropy == branches[i].outcome.entropy - branches[i].second.gain
    ensures Sum(EntropyShares(Outcomes(branches))) == Sum(TerminalShares(branches)) + Sum(GainShares(branches))
  {
    var terminal, gain, entropy := TerminalShares(branches), GainShares(branches), EntropyShares(Outcomes(branches));
    forall i | 0 <= i < |branches| ensures entropy[i] == Added(terminal, gain)[i] {
      assert Outcomes(branches)[i] == branches[i].outcome;
      Distribute(branches[i].outcome.probability, branches[i].terminalEntropy, branches[i].second.gain);
    }
    assert entropy == Added(terminal, gain);
    SumAdded(terminal, gain);
  }

  lemma Distribute(k: real, x: real, y: real)
    ensures k * (x + y) == k * x + k * y
  {
  }

  lemma SharesNonNegative(branches: seq<Branch>)
    requires forall i :: 0 <= i < |branches| ==>
      branches[i].outcome.probability >= 0.0 && branches[i].second.gain >= 0.0 && branches[i].terminalEntropy >= 0.0
    ensures Sum(GainShares(branches)) >= 0.0 && Sum(TerminalShares(branches)) >= 0.0
  {
    forall i | 0 <= i < |branches| ensures GainShares(branches)[i] >= 0.0 && TerminalShares(branches)[i] >= 0.0 {
      ScaleMonotone(branches[i].outcome.probability, 0.0, branches[i].second.gain);
      ScaleMonotone(branches[i].outcome.probability, 0.0, branches[i].terminalEntropy);
    }
    SumNonNegative(GainShares(branches));
    SumNonNegative(TerminalShares(branches));
  }

  /** The chain rule: sound branches with sound choices always make an exact plan. */
  lemma PlanWithExact(phi: Kernel, offer: Offer, p: seq<real>, immediate: real, branches: seq<Branch>, budget: real)
    requires SoundBranches(phi, |p|, Outcomes(branches))
    requires forall i :: 0 <= i < |branches| ==> SoundChoice(branches[i], offer.cost, budget)
    requires immediate == Entropy(phi, p) - Sum(EntropyShares(Outcomes(branches))) >= 0.0
    ensures PlanWith(phi, offer, p, immediate, branches).Ok?
    ensures ExactPlan(phi, p, budget, PlanWith(phi, offer, p, immediate, branches).value)
  {
    hide Entropy, Sum, IsDistribution, TerminalShares, GainShares, CostShares, EntropyShares, Probabilities;
    forall i | 0 <= i < |branches| ensures branches[i].outcome.probability >= 0.0 {
      assert Outcomes(branches)[i] == branches[i].outcome;
      assert SoundBranch(phi, |p|, Outcomes(branches)[i]);
    }
    SharesSplit(branches);
    SharesNonNegative(branches);
  }

  // ----- the base planner's choices are sound -----

  /** What the planner is entitled to: sound numerical functions, and one positive-sigma hypothesis
      per probability. */
  ghost predicate SoundPlanning(laws: GainLaws, hypotheses: seq<Hypothesis>, p: seq<real>) {
    SoundGainLaws(laws) && PositiveSigmas(hypotheses) && IsDistribution(p) && |p| == |hypotheses|
  }

  lemma AnswerableGuards(problem: Problem, c: Candidate, remaining: real)
    requires AllRegistered(problem.contract, problem.completed) && AnswerableCandidate(problem, c)
    ensures Consider(problem, c).Ok? && Closer(problem, remaining, c).Ok?
  {
    hide AssessRegistered, DesignFor;
  }

  lemma AnswerableSimulation(problem: Problem, c: Candidate)
    requires Answerable(problem) && c in problem.candidates
    ensures Answerable(Simulated(problem, c))
  {
    hide DesignFor, CostOf;
    assert AnswerableCandidate(problem, c);
    forall d | d in problem.candidates ensures AnswerableCandidate(Simulated(problem, c), d) {
      assert AnswerableCandidate(problem, d);
    }
  }

  lemma {:induction false} SecondChoicesSucceed(problem: Problem, gain: real, remaining: real, candidates: seq<Candidate>)
    requires forall c :: c in candidates ==> Closer(problem, remaining, c).Ok?
    ensures SecondChoices(problem, gain, remaining, candidates).Ok?
  {
    hide Closer;
    if |candidates| > 0 {
      SecondChoicesSucceed(problem, gain, remaining, candidates[..|candidates| - 1]);
    }
  }

  /** Every candidate can be answered for as a second action. */
  ghost predicate ClosersAnswer(problem: Problem, remaining: real) {
    forall c :: c in problem.candidates ==> Closer(problem, remaining, c).Ok?
  }

  lemma AnswerableClosers(problem: Problem, remaining: real)
    requires Answerable(problem)
    ensures ClosersAnswer(problem, remaining)
  {
    hide Closer, AnswerableCandidate, AllRegistered;
    forall c | c in problem.candidates ensures Closer(problem, remaining, c).Ok? {
      AnswerableGuards(problem, c, remaining);
    }
  }

  lemma CloserBounds(problem: Problem, remaining: real, c: Candidate)
    requires Closer(problem, remaining, c).Ok? && Closer(problem, remaining, c).value.Some?
    ensures 0.0 <= Closer(problem, remaining, c).value.value <= remaining + POSITIVE_INFORMATION_TOLERANCE
  {
    hide Assessed;
  }

  /** The second action is STOP or an affordable closer with that closer's gain, and neither STOP nor
      any affordable closer precedes it. */
  ghost predicate OptimalSecond(problem: Problem, gainOf: Candidate -> real, remaining: real, best: SecondAction) {
    && (best == STOP || IsClosing(problem, gainOf, remaining, problem.candidates, best))
    && !SecondBefore(STOP, best)
    && forall c, cost :: c in problem.candidates && Closer(problem, remaining, c) == Ok(Some(cost)) ==>
         !SecondBefore(CloseAction(c, gainOf(c), cost), best)
  }

  lemma PreferredIsOptimal(problem: Problem, gainOf: Candidate -> real, remaining: real, choices: seq<SecondAction>)
    requires ChoicesOf(problem, gainOf, remaining, InIdOrder(problem.candidates), choices) && |choices| > 0
    ensures OptimalSecond(problem, gainOf, remaining, Preferred(choices))
  {
    hide Closer, SecondBefore;
    PreferredIsBest(choices);
    SortMembers(problem.candidates, CandidateBefore);
    var best := Preferred(choices);
    assert STOP in choices;
    forall c, cost | c in problem.candidates && Closer(problem, remaining, c) == Ok(Some(cost))
      ensures !SecondBefore(CloseAction(c, gainOf(c), cost), best)
    {
      assert IsClosing(problem, gainOf, remaining, InIdOrder(problem.candidates), CloseAction(c, gainOf(c), cost));
    }
  }

  lemma OptimalBounds(problem: Problem, gainOf: Candidate -> real, limit: real, remaining: real, best: SecondAction)
    requires OptimalSecond(problem, gainOf, remaining, best) && remaining >= 0.0 && limit >= 0.0
    requires forall c :: c in problem.candidates && Closer(problem, remaining, c).Ok? && Closer(problem, remaining, c).value.Some? ==>
      0.0 <= gainOf(c) <= limit
    ensures 0.0 <= best.gain <= limit
    ensures 0.0 <= best.cost <= remaining + POSITIVE_INFORMATION_TOLERANCE
  {
    hide Closer, SecondBefore;
    if best != STOP {
      CloserBounds(problem, remaining, best.candidate.value);
    }
  }

  /** In one branch the second action is always found, and it is optimal. */
  lemma BestSecondExact(laws: GainLaws, problem: Problem, hypotheses: seq<Hypothesis>, p: seq<real>, remaining: real)
    requires SoundPlanning(laws, hypotheses, p) && ClosersAnswer(problem, remaining)
    ensures BestSecondAction(laws, problem, hypotheses, p, remaining).Ok? && DiscretizedOutcomes(laws, hypotheses, p).Ok?
    ensures OptimalSecond(problem, ConstantGain(DiscretizedOutcomes(laws, hypotheses, p).value.gain), remaining,
                          BestSecondAction(laws, problem, hypotheses, p, remaining).value)
    ensures 0.0 <= DiscretizedOutcomes(laws, hypotheses, p).value.gain <= Entropy(laws.phi, p)
  {
    hide DiscretizedOutcomes, Entropy, OptimalSecond, SecondChoices, AnswerableCandidate, Closer, AllRegistered;
    OutcomesExact(laws, hypotheses, p);
    var gain := DiscretizedOutcomes(laws, hypotheses, p).value.gain;
    SortMembers(problem.candidates, CandidateBefore);
    SecondChoicesSucceed(problem, gain, remaining, InIdOrder(problem.candidates));
    ChoicesAreClosers(problem, gain, remaining, InIdOrder(problem.candidates));
    PreferredIsOptimal(problem, ConstantGain(gain), remaining, SecondChoices(problem, gain, remaining, InIdOrder(problem.candidates)).value);
  }

  /** The outcomes a first action starts from are sound, and its immediate gain is what they remove. */
  lemma FirstOutcomesExact(laws: GainLaws, hypotheses: seq<Hypothesis>, p: seq<real>, effect: Effect)
    requires SoundPlanning(laws, hypotheses, p)
    ensures FirstOutcomes(laws, hypotheses, p, effect).Ok?
    ensures var first := FirstOutcomes(laws, hypotheses, p, effect).value;
      && SoundBranches(laws.phi, |p|, first.1)
      && first.0 == Entropy(laws.phi, p) - Sum(EntropyShares(first.1))
      && first.0 >= 0.0
      && (effect != CompletesPair ==> first.0 == 0.0)
  {
    hide DiscretizedOutcomes, Entropy;
    if effect == CompletesPair {
      OutcomesExact(laws, hypotheses, p);
    } else {
      var b := OutcomeBranch(None, 1.0, p, Entropy(laws.phi, p));
      SumOfOne(1.0);
      SumOfOne(b.entropy);
      assert Probabilities([b]) == [1.0];
      assert EntropyShares([b]) == [b.entropy];
    }
  }

  lemma SumOfOne(x: real)
    ensures Sum([x]) == x
  {
    assert [x][..0] == [];
  }

  /** A branch of the base planner: exactly costed and weighed, with an optimal second action. */
  ghost predicate ExactBranch(laws: GainLaws, simulated: Problem, hypotheses: seq<Hypothesis>, firstCost: real, b: Branch) {
    && SoundChoice(b, firstCost, simulated.budget)
    && DiscretizedOutcomes(laws, hypotheses, b.outcome.posterior).Ok?
    && OptimalSecond(simulated, ConstantGain(DiscretizedOutcomes(laws, hypotheses, b.outcome.posterior).value.gain),
                     simulated.budget - firstCost, b.second)
  }

  lemma PlanBranchExact(laws: GainLaws, simulated: Problem, hypotheses: seq<Hypothesis>, outcome: OutcomeBranch, firstCost: real)
    requires SoundGainLaws(laws) && PositiveSigmas(hypotheses) && firstCost <= simulated.budget
    requires ClosersAnswer(simulated, simulated.budget - firstCost)
    requires SoundBranch(laws.phi, |hypotheses|, outcome)
    ensures PlanBranch(laws, simulated, hypotheses, outcome, firstCost).Ok?
    ensures var b := PlanBranch(laws, simulated, hypotheses, outcome, firstCost).value;
      b.outcome == outcome && ExactBranch(laws, simulated, hypotheses, firstCost, b)
  {
    hide BestSecondAction, SoundGainLaws, IsDistribution, Entropy, DiscretizedOutcomes, OptimalSecond, ClosersAnswer;
    var remaining := simulated.budget - firstCost;
    BestSecondExact(laws, simulated, hypotheses, outcome.posterior, remaining);
    OptimalBounds(simulated, ConstantGain(DiscretizedOutcomes(laws, hypotheses, outcome.posterior).value.gain), outcome.entropy, remaining,
                  BestSecondAction(laws, simulated, hypotheses, outcome.posterior, remaining).value);
  }

  lemma {:induction false} PlanBranchesExact(laws: GainLaws, simulated: Problem, hypotheses: seq<Hypothesis>,
                                             outcomes: seq<OutcomeBranch>, firstCost: real)
    requires SoundGainLaws(laws) && PositiveSigmas(hypotheses) && firstCost <= simulated.budget
    requires ClosersAnswer(simulated, simulated.budget - firstCost)
    requires forall i :: 0 <= i < |outcomes| ==> SoundBranch(laws.phi, |hypotheses|, outcomes[i])
    ensures PlanBranches(laws, simulated, hypotheses, outcomes, firstCost).Ok?
    ensures var branches := PlanBranches(laws, simulated, hypotheses, outcomes, firstCost).value;
      && Outcomes(branches) == outcomes
      && forall i :: 0 <= i < |branches| ==> ExactBranch(laws, simulated, hypotheses, firstCost, branches[i])
  {
    hide PlanBranch, SoundGainLaws, SoundBranch, ExactBranch, ClosersAnswer;
    if |outcomes| > 0 {
      var n := |outcomes| - 1;
      PlanBranchesExact(laws, simulated, hypotheses, outcomes[..n], firstCost);
      PlanBranchExact(laws, simulated, hypotheses, outcomes[n], firstCost);
    }
  }

  /** Every first action of the base planner is planned without an error, its plan obeys the chain
      rule, and in each branch its second action is optimal. */
  lemma PlanFirstExact(laws: GainLaws, problem: Problem, hypotheses: seq<Hypothesis>, p: seq<real>, offer: Offer)
    requires SoundPlanning(laws, hypotheses, p) && offer.cost <= problem.budget
    requires ClosersAnswer(Simulated(problem, offer.candidate), problem.budget - offer.cost)
    ensures PlanFirstAction(laws, problem, hypotheses, p, offer).Ok?
    ensures var plan := PlanFirstAction(laws, problem, hypotheses, p, offer).value;
      && plan.candidate == offer.candidate && plan.firstCost == offer.cost && plan.effect == offer.assessment.effect
      && plan.ratio == InformationPerCost(plan.totalGain, plan.totalCost)
      && ExactPlan(laws.phi, p, problem.budget, plan)
      && forall i :: 0 <= i < |plan.branches| ==>
           ExactBranch(laws, Simulated(problem, offer.candidate), hypotheses, offer.cost, plan.branches[i])
  {
    hide FirstOutcomes, PlanBranches, SoundGainLaws, Entropy, ExactPlan, SoundChoice, DiscretizedOutcomes, Sum, ClosersAnswer,
      OptimalSecond, TerminalShares, CostShares, EntropyShares, SoundBranch, Probabilities;
    FirstOutcomesExact(laws, hypotheses, p, offer.assessment.effect);
    var first := FirstOutcomes(laws, hypotheses, p, offer.assessment.effect).value;
    PlanBranchesExact(laws, Simulated(problem, offer.candidate), hypotheses, first.1, offer.cost);
    var branches := PlanBranches(laws, Simulated(problem, offer.candidate), hypotheses, first.1, offer.cost).value;
    PlanWithExact(laws.phi, offer, p, first.0, branches, problem.budget);
  }

  // ----- what the ranking means -----

  /** The selected plan is least, and unique when no two plans share a candidate. */
  lemma SelectedPlanIsLeast(plans: seq<FirstPlan>)
    requires |plans| > 0
    ensures var ranked := RankedPlans(SortBy(plans, PlanBefore));
      && ranked[0].plan in plans
      && (forall q :: q in plans ==> !PlanBefore(q, ranked[0].plan))
      && (forall q :: q in plans && q.candidate.id != ranked[0].plan.candidate.id ==> PlanBefore(ranked[0].plan, q))
      && (forall q :: q in plans ==> exists i :: 0 <= i < |ranked| && ranked[i].plan == q)
      && (forall i :: 0 <= i < |ranked| ==> ranked[i].plan in plans)
  {
    RankOrder();
    assert StrictWeakOrder(PlanBefore);
    hide RankLess;
    var ordered := SortBy(plans, PlanBefore);
    SortHeadLeast(plans, PlanBefore);
    SortMembers(plans, PlanBefore);
    var ranked := RankedPlans(ordered);
    forall q | q in plans ensures exists i :: 0 <= i < |ranked| && ranked[i].plan == q {
      assert q in ordered;
      var i :| 0 <= i < |ordered| && ordered[i] == q;
      assert ranked[i].plan == q;
    }
    forall i | 0 <= i < |ranked| ensures ranked[i].plan in plans {
      assert ordered[i] in ordered;
    }
  }

  /** The first sort component in which a plan is strictly worse than the selected one. */
  predicate IsFirstWorse(selected: FirstPlan, plan: FirstPlan, reason: PlanReason) {
    match reason
    case SelectedPlan => false
    case LowerTotalGain => plan.totalGain < selected.totalGain
    case HigherTotalCost => plan.totalGain == selected.totalGain && plan.totalCost > selected.totalCost
    case LowerRatio =>
      plan.totalGain == selected.totalGain && plan.totalCost == selected.totalCost && plan.ratio < selected.ratio
    case LaterCandidateId =>
      plan.totalGain == selected.totalGain && plan.totalCost == selected.totalCost && plan.ratio == selected.ratio
      && (plan.candidate.id == selected.candidate.id || StringLess(selected.candidate.id, plan.candidate.id))
  }

  ghost predicate OnePlanPerCandidate(plans: seq<FirstPlan>) {
    forall i, j :: 0 <= i < j < |plans| ==> plans[i].candidate.id != plans[j].candidate.id
  }

  /** Every loser's stated reason is the first component in which it is strictly worse, the identifier
      included unless it belongs to the selected candidate too. */
  lemma LoserReasonExact(plans: seq<FirstPlan>, i: nat)
    requires 0 < i < |plans|
    ensures var ranked := RankedPlans(SortBy(plans, PlanBefore));
      && IsFirstWorse(ranked[0].plan, ranked[i].plan, ranked[i].reason)
      && (OnePlanPerCandidate(plans) && ranked[i].reason == LaterCandidateId ==>
            StringLess(ranked[0].plan.candidate.id, ranked[i].plan.candidate.id))
  {
    hide PlanReasonFor, PlanBefore, SortBy, StringLess;
    SelectedPlanIsLeast(plans);
    var ranked := RankedPlans(SortBy(plans, PlanBefore));
    ReasonNamesFirstWorse(ranked[0].plan, ranked[i].plan, i);
    if OnePlanPerCandidate(plans) {
      SortedCandidatesDistinct(plans);
      assert ranked[0].plan.candidate.id != ranked[i].plan.candidate.id;
    }
  }

  lemma SortedCandidatesDistinct(plans: seq<FirstPlan>)
    requires OnePlanPerCandidate(plans)
    ensures OnePlanPerCandidate(SortBy(plans, PlanBefore))
  {
    hide PlanBefore;
    forall i, j | 0 <= i < j < |plans| ensures plans[i] != plans[j] {
    }
    SortDistinct(plans, PlanBefore);
    SortMembers(plans, PlanBefore);
    var sorted := SortBy(plans, PlanBefore);
    forall i, j | 0 <= i < j < |sorted| ensures sorted[i].candidate.id != sorted[j].candidate.id {
      assert sorted[i] in sorted && sorted[j] in sorted && sorted[i] != sorted[j];
      var k :| 0 <= k < |plans| && plans[k] == sorted[i];
      var l :| 0 <= l < |plans| && plans[l] == sorted[j];
    }
  }

  lemma ReasonNamesFirstWorse(selected: FirstPlan, plan: FirstPlan, index: nat)
    requires index > 0 && !PlanBefore(plan, selected)
    ensures IsFirstWorse(selected, plan, PlanReasonFor(selected, plan, index))
  {
    StringTotal(selected.candidate.id, plan.candidate.id);
    hide StringLess;
  }

  ghost predicate RatioConsistent(plans: seq<FirstPlan>) {
    forall q :: q in plans ==> q.ratio == InformationPerCost(q.totalGain, q.totalCost)
  }

  /** The ratio never decides: it is a function of the two components compared before it. */
  lemma RatioNeverDecides(plans: seq<FirstPlan>, i: nat)
    requires i < |plans| && RatioConsistent(plans)
    ensures RankedPlans(SortBy(plans, PlanBefore))[i].reason != LowerRatio
  {
    hide InformationPerCost, SortBy;
    SelectedPlanIsLeast(plans);
    if i > 0 {
      LoserReasonExact(plans, i);
    }
  }

  // ----- the whole decision -----

  /** The plans are exactly those of the candidates the guards let through. */
  ghost predicate PlansOf(plan: Offer -> Result<FirstPlan, PlanningError>, problem: Problem, candidates: seq<Candidate>, plans: seq<FirstPlan>) {
    && (forall q :: q in plans ==> exists offer: Offer :: offer.candidate in candidates && Planned(plan, problem, offer, q))
    && (forall offer: Offer :: offer.candidate in candidates && Consider(problem, offer.candidate) == Ok(Some(offer)) ==>
          plan(offer).Ok? && plan(offer).value in plans)
  }

  predicate Planned(plan: Offer -> Result<FirstPlan, PlanningError>, problem: Problem, offer: Offer, q: FirstPlan) {
    Consider(problem, offer.candidate) == Ok(Some(offer)) && plan(offer) == Ok(q)
  }

  /** The base planner's way of planning one offer. */
  function BasePlan(laws: GainLaws, problem: Problem, hypotheses: seq<Hypothesis>, p: seq<real>)
    : Offer -> Result<FirstPlan, PlanningError>
  {
    (offer: Offer) => PlanFirstAction(laws, problem, hypotheses, p, offer)
  }

  lemma {:induction false} FirstPlansExact(laws: GainLaws, problem: Problem, hypotheses: seq<Hypothesis>, p: seq<real>,
                                           candidates: seq<Candidate>)
    requires SoundPlanning(laws, hypotheses, p) && Answerable(problem)
    requires forall c :: c in candidates ==> c in problem.candidates
    ensures FirstPlans(laws, problem, hypotheses, p, candidates).Ok?
    ensures PlansOf(BasePlan(laws, problem, hypotheses, p), problem, candidates,
                    FirstPlans(laws, problem, hypotheses, p, candidates).value)
  {
    hide Consider, PlanFirstAction, SoundPlanning, AllRegistered, AnswerableCandidate, ExactPlan, ExactBranch;
    if |candidates| > 0 {
      var n := |candidates| - 1;
      var before, c := candidates[..n], candidates[n];
      assert candidates == before + [c];
      FirstPlansExact(laws, problem, hypotheses, p, before);
      AnswerableGuards(problem, c, 0.0);
      if Consider(problem, c).value.Some? {
        OfferFits(problem, c);
        var offer := Consider(problem, c).value.value;
        AnswerableSimulation(problem, c);
        AnswerableClosers(Simulated(problem, c), problem.budget - offer.cost);
        PlanFirstExact(laws, problem, hypotheses, p, offer);
        assert Planned(BasePlan(laws, problem, hypotheses, p), problem, offer, PlanFirstAction(laws, problem, hypotheses, p, offer).value);
      }
    }
  }

  lemma {:induction false} ChecksPass(problem: Problem, candidates: seq<Candidate>)
    requires forall c :: c in candidates ==> AnswerableCandidate(problem, c)
    ensures CostsValid(problem.costs, candidates) == Ok(()) && CandidatesDesigned(problem, candidates) == Ok(())
  {
    if |candidates| > 0 {
      ChecksPass(problem, candidates[..|candidates| - 1]);
      assert candidates[|candidates| - 1] in candidates;
    }
  }

  lemma ConcludeExact(plan: Offer -> Result<FirstPlan, PlanningError>, problem: Problem, plans: seq<FirstPlan>)
    requires Answerable(problem) && PlansOf(plan, problem, InIdOrder(problem.candidates), plans)
    ensures if SomeOffer(problem) then
        && ConcludePlans(problem, plans).Ok?
        && var trace := ConcludePlans(problem, plans).value;
        && LeastPlan(plan, problem, trace)
      else ConcludePlans(problem, plans) == Err(NoFeasibleCandidate)
  {
    hide Consider, AnswerableCandidate, PlanBefore, Planned, RankedPlans, SortBy;
    SortMembers(problem.candidates, CandidateBefore);
    if |plans| > 0 {
      assert plans[0] in plans;
      var offer: Offer :| offer.candidate in InIdOrder(problem.candidates) && Planned(plan, problem, offer, plans[0]);
      assert Consider(problem, offer.candidate) == Ok(Some(offer)) by { PlannedIsConsidered(plan, problem, offer, plans[0]); }
      ChecksPass(problem, InIdOrder(problem.candidates));
      SelectedPlanIsLeast(plans);
    }
    if SomeOffer(problem) {
      OfferGivesPlan(plan, problem, plans);
    }
  }

  lemma OfferGivesPlan(plan: Offer -> Result<FirstPlan, PlanningError>, problem: Problem, plans: seq<FirstPlan>)
    requires PlansOf(plan, problem, InIdOrder(problem.candidates), plans) && SomeOffer(problem)
    ensures |plans| > 0
  {
    hide Consider;
    SortMembers(problem.candidates, CandidateBefore);
    var c :| c in problem.candidates && IsOffered(problem, c);
    OfferFits(problem, c);
    assert plan(Consider(problem, c).value.value).value in plans;
  }

  lemma PlannedIsConsidered(plan: Offer -> Result<FirstPlan, PlanningError>, problem: Problem, offer: Offer, q: FirstPlan)
    requires Planned(plan, problem, offer, q)
    ensures Consider(problem, offer.candidate) == Ok(Some(offer)) && plan(offer) == Ok(q)
  {
  }

  /** The trace selects the plan of an offered candidate, and no offered candidate's plan precedes it. */
  ghost predicate LeastPlan(plan: Offer -> Result<FirstPlan, PlanningError>, problem: Problem, trace: PlanTrace) {
    && (exists offer: Offer :: offer.candidate in problem.candidates && Planned(plan, problem, offer, trace.selected.plan))
    && (forall offer: Offer :: offer.candidate in problem.candidates && Consider(problem, offer.candidate) == Ok(Some(offer)) ==>
          plan(offer).Ok? && !PlanBefore(plan(offer).value, trace.selected.plan))
    && trace.budget == problem.budget
    && (trace.fallback <==> trace.selected.plan.totalGain <= POSITIVE_INFORMATION_TOLERANCE)
  }

  /** The base decision succeeds exactly when some candidate is open, affordable and not excluded; it
      then selects the least of all exact plans, and otherwise reports that none is feasible. */
  lemma DecideLookaheadExact(laws: GainLaws, problem: Problem, hypotheses: seq<Hypothesis>, state: BeliefState)
    requires SoundGainLaws(laws) && PositiveSigmas(hypotheses) && ValidState(state) && Answerable(problem)
    requires problem.budget >= 0.0 && HypothesisIds(Ordered(hypotheses)) == state.hypothesisIds
    ensures if SomeOffer(problem) then
        && DecideLookahead(laws, problem, hypotheses, state).Ok?
        && LeastPlan(BasePlan(laws, problem, Ordered(hypotheses), state.posterior), problem,
                     DecideLookahead(laws, problem, hypotheses, state).value)
      else DecideLookahead(laws, problem, hypotheses, state) == Err(NoFeasibleCandidate)
  {
    hide FirstPlans, PlansOf, LeastPlan, ConcludePlans, SomeOffer, BasePlan, AllRegistered, AnswerableCandidate, Ordered;
    var ordered := Ordered(hypotheses);
    OrderedSigmas(hypotheses);
    SortMembers(problem.candidates, CandidateBefore);
    ChecksPass(problem, problem.candidates);
    FirstPlansExact(laws, problem, ordered, state.posterior, InIdOrder(problem.candidates));
    ConcludeExact(BasePlan(laws, problem, ordered, state.posterior), problem,
                  FirstPlans(laws, problem, ordered, state.posterior, InIdOrder(problem.candidates)).value);
  }
}
