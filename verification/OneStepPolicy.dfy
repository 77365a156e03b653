/** The one-step information-gain policy: which candidates it offers, how it orders them, and why
    each loser is said to have lost. */
module OneStepPolicy {
  import opened Wrappers
  import opened Ordering
  import opened EvidenceEligibility
  import opened Reasoning
  import opened BeliefModels
  import opened EvidenceOutcomes

  /** What a planner is asked: which of the candidates to run next within the budget. */
  datatype Problem = Problem(
    contract: Contract,
    candidates: seq<Candidate>,
    completed: seq<CompletedExperiment>,
    costs: map<string, real>,
    budget: real)

  predicate CandidateBefore(a: Candidate, b: Candidate) {
    StringLess(a.id, b.id)
  }

  function InIdOrder(candidates: seq<Candidate>): seq<Candidate> {
    SortBy(candidates, CandidateBefore)
  }

  /** `_candidate_cost`. */
  function CostOf(costs: map<string, real>, id: string): Result<real, PlanningError> {
    if id !in costs then Err(MissingCost(id))
    else if costs[id] < 0.0 then Err(InvalidCost(id))
    else Ok(costs[id])
  }

  function Assessed(contract: Contract, c: Candidate, completed: seq<CompletedExperiment>): Result<Assessment, PlanningError> {
    match AssessCandidate(contract, c, completed)
    case Ok(a) => Ok(a)
    case Err(e) => Err(Unregistered(e.id))
  }

  // ----- the candidates a planner goes on with -----

  datatype Offer = Offer(candidate: Candidate, cost: real, assessment: Assessment)

  /** The guards at the head of every planning loop: not completed, affordable, not excluded. */
  function Consider(problem: Problem, c: Candidate): Result<Option<Offer>, PlanningError> {
    if IsCompleted(c, problem.completed) then Ok(None)
    else
      var cost :- CostOf(problem.costs, c.id);
      if cost > problem.budget then Ok(None)
      else
        var assessment :- Assessed(problem.contract, c, problem.completed);
        if !Admissible(assessment.effect) then Ok(None) else Ok(Some(Offer(c, cost, assessment)))
  }

  function Offers(problem: Problem, candidates: seq<Candidate>): Result<seq<Offer>, PlanningError> {
    if |candidates| == 0 then Ok([])
    else
      var rest :- Offers(problem, candidates[..|candidates| - 1]);
      var offer :- Consider(problem, candidates[|candidates| - 1]);
      Ok(if offer.None? then rest else rest + [offer.value])
  }

  lemma {:induction false} OfferFailureStays(problem: Problem, candidates: seq<Candidate>, n: nat)
    requires n <= |candidates| && Offers(problem, candidates[..n]).Err?
    ensures Offers(problem, candidates) == Offers(problem, candidates[..n])
  {
    if n < |candidates| {
      assert candidates[..|candidates| - 1][..n] == candidates[..n];
      OfferFailureStays(problem, candidates[..|candidates| - 1], n);
    } else {
      assert candidates[..n] == candidates;
    }
  }

  /** What is offered is exactly every considered candidate. */
  lemma {:induction false} OffersAreConsidered(problem: Problem, candidates: seq<Candidate>)
    requires Offers(problem, candidates).Ok?
    ensures forall c :: c in candidates ==> Consider(problem, c).Ok?
    ensures forall o :: o in Offers(problem, candidates).value <==>
      o.candidate in candidates && Consider(problem, o.candidate) == Ok(Some(o))
  {
    if |candidates| > 0 {
      OffersAreConsidered(problem, candidates[..|candidates| - 1]);
      assert candidates == candidates[..|candidates| - 1] + [candidates[|candidates| - 1]];
    }
  }

  lemma {:induction false} OffersSucceed(problem: Problem, candidates: seq<Candidate>)
    requires forall c :: c in candidates ==> Consider(problem, c).Ok?
    ensures Offers(problem, candidates).Ok?
  {
    if |candidates| > 0 {
      OffersSucceed(problem, candidates[..|candidates| - 1]);
    }
  }

  /** Every candidate can be costed and assessed. */
  ghost predicate Answerable(problem: Problem) {
    && AllRegistered(problem.contract, problem.completed)
    && forall c :: c in problem.candidates ==> AnswerableCandidate(problem, c)
  }

  predicate AnswerableCandidate(problem: Problem, c: Candidate) {
    CostOf(problem.costs, c.id).Ok? && Registered(problem.contract, c)
  }

  lemma AnswerableConsider(problem: Problem, c: Candidate)
    requires AllRegistered(problem.contract, problem.completed) && AnswerableCandidate(problem, c)
    ensures Consider(problem, c).Ok?
  {
    hide AssessRegistered, DesignFor;
  }

  lemma OfferFits(problem: Problem, c: Candidate)
    requires IsOffered(problem, c)
    ensures var offer := Consider(problem, c).value.value;
      && offer.candidate == c && 0.0 <= offer.cost <= problem.budget && CostOf(problem.costs, c.id) == Ok(offer.cost)
      && !IsCompleted(c, problem.completed)
      && AssessCandidate(problem.contract, c, problem.completed) == Ok(offer.assessment)
      && Admissible(offer.assessment.effect)
  {
    hide AssessRegistered, IsCompleted;
  }

  /** The candidate passes the planner's own guards. */
  predicate IsOffered(problem: Problem, c: Candidate) {
    Consider(problem, c).Ok? && Consider(problem, c).value.Some?
  }

  /** Some candidate passes the planner's own guards. */
  ghost predicate SomeOffer(problem: Problem) {
    exists c :: c in problem.candidates && IsOffered(problem, c)
  }

  // ----- scores -----

  datatype ScoreReason = ReducesUncertainty(counterpart: int) | NothingToReduce(counterpart: int) | NoEvidenceYet(effect: Effect)

  datatype CandidateScore = CandidateScore(
    candidate: Candidate,
    gain: real,
    priorEntropy: real,
    expectedEntropy: real,
    cost: real,
    completesPair: bool,
    matched: Option<int>,
    reason: ScoreReason)

  function ScoreOf(estimate: Estimate, offer: Offer): CandidateScore {
    if offer.assessment.effect == CompletesPair && offer.assessment.counterpart.Some? then
      var id := offer.assessment.counterpart.value.recordId;
      CandidateScore(offer.candidate, estimate.gain, estimate.priorEntropy, estimate.expectedEntropy, offer.cost, true, Some(id),
                     if estimate.gain > POSITIVE_INFORMATION_TOLERANCE then ReducesUncertainty(id) else NothingToReduce(id))
    else
      CandidateScore(offer.candidate, 0.0, estimate.priorEntropy, estimate.priorEntropy, offer.cost, false, None,
                     NoEvidenceYet(offer.assessment.effect))
  }

  function Scored(estimate: Estimate, offers: seq<Offer>): (r: seq<CandidateScore>)
    ensures |r| == |offers|
  {
    seq(|offers|, i requires 0 <= i < |offers| => ScoreOf(estimate, offers[i]))
  }

  // ----- ranking -----

  datatype RankingReason = SelectedForGain | SelectedAsFallback | LowerGain | HigherCost | LaterId

  datatype RankedScore = RankedScore(score: CandidateScore, reason: RankingReason)

  predicate HasPositive(scores: seq<CandidateScore>) {
    exists i :: 0 <= i < |scores| && scores[i].gain > POSITIVE_INFORMATION_TOLERANCE
  }

  function ScoreKey(positive: bool, s: CandidateScore): RankKey {
    if positive then RankKey(-s.gain, s.cost, 0.0, s.candidate.id) else RankKey(s.cost, 0.0, 0.0, s.candidate.id)
  }

  function ScoreBefore(positive: bool): (CandidateScore, CandidateScore) -> bool {
    (a: CandidateScore, b: CandidateScore) => RankLess(ScoreKey(positive, a), ScoreKey(positive, b))
  }

  function ReasonFor(selected: CandidateScore, s: CandidateScore, index: nat, positive: bool): RankingReason {
    if index == 0 then (if positive then SelectedForGain else SelectedAsFallback)
    else if s.gain + POSITIVE_INFORMATION_TOLERANCE < selected.gain then LowerGain
    else if s.cost > selected.cost then HigherCost
    else LaterId
  }

  /** `_add_ranking_reasons` and its copy `_rank_one_step`. */
  function Ranked(ordered: seq<CandidateScore>, positive: bool): (r: seq<RankedScore>)
    requires |ordered| > 0
    ensures |r| == |ordered|
  {
    seq(|ordered|, i requires 0 <= i < |ordered| => RankedScore(ordered[i], ReasonFor(ordered[0], ordered[i], i, positive)))
  }

  datatype Fallback = NoReducibleUncertainty | NoPairToComplete

  datatype DecisionTrace = DecisionTrace(
    selected: RankedScore,
    contexts: seq<Context>,
    maxCost: real,
    fallback: Option<Fallback>,
    ranked: seq<RankedScore>)

  function RankScores(scores: seq<CandidateScore>): (r: seq<RankedScore>)
    requires |scores| > 0
    ensures |r| == |scores|
  {
    Ranked(SortBy(scores, ScoreBefore(HasPositive(scores))), HasPositive(scores))
  }

  /** `InformationGainPolicy.decide`, with the eligibility contract given. */
  function Decide(laws: GainLaws, problem: Problem, hypotheses: seq<Hypothesis>, state: BeliefState)
    : Result<DecisionTrace, PlanningError>
    requires |state.posterior| == |state.hypothesisIds|
  {
    if problem.budget < 0.0 then Err(InvalidBudget)
    else
      var estimate :- EstimateGain(laws, hypotheses, state);
      var offers :- Offers(problem, InIdOrder(problem.candidates));
      if |offers| == 0 then Err(NoFeasibleCandidate)
      else
        var scores := Scored(estimate, offers);
        var ranked := RankScores(scores);
        var fallback := if HasPositive(scores) then None
                        else if estimate.gain <= POSITIVE_INFORMATION_TOLERANCE then Some(NoReducibleUncertainty)
                        else Some(NoPairToComplete);
        Ok(DecisionTrace(ranked[0], estimate.contexts, problem.budget, fallback, ranked))
  }

  method DecideInformationGain(laws: GainLaws, problem: Problem, hypotheses: seq<Hypothesis>, state: BeliefState)
    returns (r: Result<DecisionTrace, PlanningError>)
    requires |state.posterior| == |state.hypothesisIds|
    ensures r == Decide(laws, problem, hypotheses, state)
  {
    hide Consider, EstimateGain;
    if problem.budget < 0.0 {
      return Err(InvalidBudget);
    }
    var estimate :- ExpectedInformationGain(laws, hypotheses, state);
    var sorted := InIdOrder(problem.candidates);
    var scores: seq<CandidateScore> := [];
    for i := 0 to |sorted|
      invariant Offers(problem, sorted[..i]).Ok?
      invariant scores == Scored(estimate, Offers(problem, sorted[..i]).value)
    {
      assert sorted[..i + 1][..i] == sorted[..i];
      var offer := Consider(problem, sorted[i]);
      if offer.Err? {
        OfferFailureStays(problem, sorted, i + 1);
        return Err(offer.error);
      }
      if offer.value.Some? {
        scores := scores + [ScoreOf(estimate, offer.value.value)];
      }
    }
    assert sorted[..|sorted|] == sorted;
    if |scores| == 0 {
      return Err(NoFeasibleCandidate);
    }
    var positive := HasPositive(scores);
    var ranked := RankInOrder(SortBy(scores, ScoreBefore(positive)), positive);
    var fallback := None;
    if !positive {
      fallback := if estimate.gain <= POSITIVE_INFORMATION_TOLERANCE then Some(NoReducibleUncertainty)
                  else Some(NoPairToComplete);
    }
    return Ok(DecisionTrace(ranked[0], estimate.contexts, problem.budget, fallback, ranked));
  }

  method RankInOrder(ordered: seq<CandidateScore>, positive: bool) returns (ranked: seq<RankedScore>)
    requires |ordered| > 0
    ensures ranked == Ranked(ordered, positive)
  {
    ranked := [];
    for i := 0 to |ordered|
      invariant ranked == Ranked(ordered, positive)[..i]
    {
      ranked := ranked + [RankedScore(ordered[i], ReasonFor(ordered[0], ordered[i], i, positive))];
    }
  }

  // ----- what the ranking means -----

  /** The order a policy promises: greatest gain, then lowest cost, then first identifier when some
      candidate has gain; lowest cost, then first identifier otherwise. */
  predicate NoWorse(positive: bool, a: CandidateScore, b: CandidateScore) {
    if positive then
      || a.gain > b.gain
      || (a.gain == b.gain && a.cost < b.cost)
      || (a.gain == b.gain && a.cost == b.cost && !StringLess(b.candidate.id, a.candidate.id))
    else
      a.cost < b.cost || (a.cost == b.cost && !StringLess(b.candidate.id, a.candidate.id))
  }

  lemma ScoreOrder(positive: bool)
    ensures StrictWeakOrder(ScoreBefore(positive))
    ensures forall a, b :: !ScoreBefore(positive)(b, a) <==> NoWorse(positive, a, b)
  {
    RankOrder();
  }

  /** The ranking lists every score once, the selected one no worse than any other. */
  lemma SelectedIsBest(scores: seq<CandidateScore>)
    requires |scores| > 0
    ensures var ranked := RankScores(scores);
      && ranked[0].score in scores
      && (forall s :: s in scores ==> NoWorse(HasPositive(scores), ranked[0].score, s))
      && (forall s :: s in scores ==> exists i :: 0 <= i < |ranked| && ranked[i].score == s)
      && (forall i :: 0 <= i < |ranked| ==> ranked[i].score in scores)
  {
    hide RankLess, ScoreKey, ReasonFor;
    var positive := HasPositive(scores);
    var ordered, ranked := SortBy(scores, ScoreBefore(positive)), RankScores(scores);
    ScoreOrder(positive);
    SortHeadLeast(scores, ScoreBefore(positive));
    SortMembers(scores, ScoreBefore(positive));
    forall s | s in scores ensures exists i :: 0 <= i < |ranked| && ranked[i].score == s {
      assert s in ordered;
      var i :| 0 <= i < |ordered| && ordered[i] == s;
      assert ranked[i].score == s;
    }
    forall i | 0 <= i < |ranked| ensures ranked[i].score in scores {
      assert ordered[i] in ordered;
    }
  }

  /** The whole ranking is in order, and lists each score as often as it was given. */
  lemma RankingIsSorted(scores: seq<CandidateScore>, i: nat, j: nat)
    requires i < j < |scores|
    ensures NoWorse(HasPositive(scores), RankScores(scores)[i].score, RankScores(scores)[j].score)
    ensures forall s :: multiset(SortBy(scores, ScoreBefore(HasPositive(scores))))[s] == multiset(scores)[s]
  {
    hide RankLess, ScoreKey, ReasonFor;
    var positive := HasPositive(scores);
    ScoreOrder(positive);
    SortAscending(scores, ScoreBefore(positive));
    SortMultiset(scores, ScoreBefore(positive));
  }

  /** The first component of the order in which a loser is worse than the selected score. */
  function FirstWorse(positive: bool, selected: CandidateScore, s: CandidateScore): RankingReason {
    if positive && s.gain < selected.gain then LowerGain
    else if s.cost > selected.cost then HigherCost
    else LaterId
  }

  /** A stated reason is the true one exactly when the gains do not differ by a positive amount within the
      tolerance, where gains rank first; a fallback ranking of non-negative gains states only true ones. */
  lemma ReasonExactIff(scores: seq<CandidateScore>, i: nat)
    requires 0 < i < |scores| && forall s :: s in scores ==> s.gain >= 0.0
    ensures var positive, ranked := HasPositive(scores), RankScores(scores);
      ranked[i].reason == FirstWorse(positive, ranked[0].score, ranked[i].score) <==>
        !(positive && 0.0 < ranked[0].score.gain - ranked[i].score.gain <= POSITIVE_INFORMATION_TOLERANCE)
  {
    SelectedIsBest(scores);
    var ranked := RankScores(scores);
    assert ranked[i].score in scores && ranked[0].score in scores;
    if !HasPositive(scores) {
      var k :| 0 <= k < |scores| && scores[k] == ranked[0].score;
      assert scores[k].gain <= POSITIVE_INFORMATION_TOLERANCE;
    }
  }

  /** With one estimate for every candidate, as the base policy has, the reasons are always true. */
  lemma OneEstimateReasonsExact(estimate: Estimate, offers: seq<Offer>, i: nat)
    requires 0 < i < |offers| && estimate.gain >= 0.0
    ensures var scores := Scored(estimate, offers);
      var ranked := RankScores(scores);
      ranked[i].reason == FirstWorse(HasPositive(scores), ranked[0].score, ranked[i].score)
  {
    hide SortBy, RankLess;
    var scores := Scored(estimate, offers);
    var ranked := RankScores(scores);
    SelectedIsBest(scores);
    forall s | s in scores ensures s.gain == 0.0 || s.gain == estimate.gain {
    }
    var selected, loser := ranked[0].score, ranked[i].score;
    assert selected in scores && loser in scores;
    ReasonExactIff(scores, i);
    if HasPositive(scores) {
      var k :| 0 <= k < |scores| && scores[k].gain > POSITIVE_INFORMATION_TOLERANCE;
      assert scores[k] in scores && NoWorse(true, selected, scores[k]);
    }
  }

  // ----- the whole decision -----

  /** Scoring keeps the guards' verdict: the scored candidates are the offered ones. */
  ghost predicate ScoresOffers(problem: Problem, candidates: seq<Candidate>, scores: seq<CandidateScore>) {
    && (forall s :: s in scores ==>
          && s.candidate in candidates && IsOffered(problem, s.candidate)
          && s.cost == Consider(problem, s.candidate).value.value.cost)
    && (forall c :: c in candidates && IsOffered(problem, c) ==>
          exists s :: s in scores && s.candidate == c)
  }

  /** The decision selects a score of an offered candidate that no other score betters. */
  ghost predicate BestScore(problem: Problem, scores: seq<CandidateScore>, trace: DecisionTrace) {
    && ScoresOffers(problem, problem.candidates, scores)
    && |scores| > 0 && trace.ranked == RankScores(scores) && trace.selected == trace.ranked[0]
    && trace.selected.score in scores
    && (forall s :: s in scores ==> NoWorse(HasPositive(scores), trace.selected.score, s))
    && (trace.fallback.None? <==> HasPositive(scores))
    && trace.maxCost == problem.budget
  }

  lemma ScoredOffers(problem: Problem, estimate: Offer -> Estimate, offers: seq<Offer>, scores: seq<CandidateScore>)
    requires Offers(problem, InIdOrder(problem.candidates)) == Ok(offers)
    requires |scores| == |offers| && forall i :: 0 <= i < |offers| ==> scores[i] == ScoreOf(estimate(offers[i]), offers[i])
    ensures ScoresOffers(problem, problem.candidates, scores)
    ensures |offers| > 0 <==> SomeOffer(problem)
  {
    hide Consider, Offers, SortBy, CandidateBefore;
    forall i | 0 <= i < |offers| ensures scores[i].candidate == offers[i].candidate && scores[i].cost == offers[i].cost {
    }
    hide ScoreOf;
    OffersAreConsidered(problem, InIdOrder(problem.candidates));
    SortMembers(problem.candidates, CandidateBefore);
    forall c | c in problem.candidates && IsOffered(problem, c)
      ensures exists s :: s in scores && s.candidate == c
    {
      OfferFits(problem, c);
      var offer := Consider(problem, c).value.value;
      assert offer in offers;
      var i :| 0 <= i < |offers| && offers[i] == offer;
      assert scores[i] in scores && scores[i].candidate == c;
    }
    forall i | 0 <= i < |offers| ensures offers[i].candidate in problem.candidates
      && Consider(problem, offers[i].candidate) == Ok(Some(offers[i]))
    {
      assert offers[i] in offers;
    }
    if |offers| > 0 {
      assert IsOffered(problem, offers[0].candidate);
    }
    if SomeOffer(problem) {
      var c :| c in problem.candidates && IsOffered(problem, c);
      var s :| s in scores && s.candidate == c;
    }
  }

  /** The base decision succeeds exactly when some candidate is open, affordable and not excluded, and
      then selects the best of them; otherwise it reports that none is feasible. */
  lemma DecideExact(laws: GainLaws, problem: Problem, hypotheses: seq<Hypothesis>, state: BeliefState)
    requires SoundGainLaws(laws) && PositiveSigmas(hypotheses) && ValidState(state) && Answerable(problem)
    requires problem.budget >= 0.0 && HypothesisIds(Ordered(hypotheses)) == state.hypothesisIds
    ensures if SomeOffer(problem) then
        && Decide(laws, problem, hypotheses, state).Ok?
        && EstimateGain(laws, hypotheses, state).Ok? && Offers(problem, InIdOrder(problem.candidates)).Ok?
        && BestScore(problem, Scored(EstimateGain(laws, hypotheses, state).value,
                                     Offers(problem, InIdOrder(problem.candidates)).value),
                     Decide(laws, problem, hypotheses, state).value)
      else Decide(laws, problem, hypotheses, state) == Err(NoFeasibleCandidate)
  {
    hide Consider, Offers, EstimateGain, RankScores, NoWorse, ScoresOffers, SomeOffer, AnswerableCandidate, HasPositive, ScoreOf;
    EstimateExact(laws, hypotheses, state);
    SortMembers(problem.candidates, CandidateBefore);
    forall c | c in InIdOrder(problem.candidates) ensures Consider(problem, c).Ok? {
      AnswerableConsider(problem, c);
    }
    OffersSucceed(problem, InIdOrder(problem.candidates));
    var estimate, offers := EstimateGain(laws, hypotheses, state).value, Offers(problem, InIdOrder(problem.candidates)).value;
    ScoredOffers(problem, (o: Offer) => estimate, offers, Scored(estimate, offers));
    if |offers| > 0 {
      SelectedIsBest(Scored(estimate, offers));
    }
  }
}
