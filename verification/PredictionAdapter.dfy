/** The closed loop's planners: one frozen sigma per comparison group, and the one-step and two-step
    policies rewritten to read it. */
module PredictionAdapter {
  import opened Wrappers
  import opened RealSums
  import opened Information
  import opened Ordering
  import opened EvidenceEligibility
  import opened Reasoning
  import opened OptimizerEffect
  import opened BeliefModels
  import opened EvidenceOutcomes
  import opened OneStepPolicy
  import opened LookaheadPolicy

  // ----- snapshots -----

  datatype Snapshot = Snapshot(group: string, choice: SigmaChoice, hypotheses: seq<Hypothesis>)

  /** A sigma per group, sorted by group and never empty. */
  datatype Adapter = Adapter(contract: Contract, snapshots: seq<Snapshot>)

  datatype AdapterError = NoOptimizerGroups | RepeatedSourceEffects

  /** The groups of the optimizer designs, each once. */
  function GroupsOf(designs: seq<Design>): seq<string> {
    if |designs| == 0 then []
    else
      var rest := GroupsOf(designs[..|designs| - 1]);
      var d := designs[|designs| - 1];
      if d.IsOptimizerEffect() && d.group !in rest then rest + [d.group] else rest
  }

  function SortedGroups(contract: Contract): seq<string> {
    SortBy(GroupsOf(contract.designs), StringLess)
  }

  /** The sigma frozen for a group before a decision: `update` computes its own. */
  function PlanSigma(deviation: Deviation, model: Model, history: seq<MatchedEffect>, group: string, cutoff: nat): SigmaChoice {
    var eligible := SourcesOf(history, Available(group, cutoff));
    match model
    case FixedSigma => SigmaChoice(FIXED_SIGMA, Fixed, [])
    case CalibratedSigma =>
      if |eligible| < MINIMUM_PRIOR_EFFECTS then SigmaChoice(FIXED_SIGMA, BaselineFallback, EffectIds(eligible))
      else SigmaChoice(Max(deviation(EffectValues(eligible)), SIGMA_FLOOR), Calibrated, EffectIds(eligible))
  }

  function SnapshotOf(deviation: Deviation, model: Model, history: seq<MatchedEffect>, cutoff: nat, group: string): Snapshot {
    var choice := PlanSigma(deviation, model, history, group, cutoff);
    Snapshot(group, choice, HypothesesWithSigma(choice.sigma))
  }

  function SnapshotsOf(deviation: Deviation, model: Model, history: seq<MatchedEffect>, cutoff: nat, groups: seq<string>): (r: seq<Snapshot>)
    ensures |r| == |groups|
  {
    seq(|groups|, i requires 0 <= i < |groups| => SnapshotOf(deviation, model, history, cutoff, groups[i]))
  }

  predicate AllSourcesDistinct(snapshots: seq<Snapshot>) {
    forall i :: 0 <= i < |snapshots| ==> Distinct(snapshots[i].choice.sources)
  }

  /** `build_candidate_group_prediction_adapter`: a snapshot does not accept one source twice. */
  function BuildAdapter(deviation: Deviation, model: Model, state: BeliefState, history: seq<MatchedEffect>, contract: Contract)
    : (r: Result<Adapter, AdapterError>)
    ensures r.Ok? ==> |r.value.snapshots| > 0
  {
    var snapshots := SnapshotsOf(deviation, model, history, state.sequence + 1, SortedGroups(contract));
    if !AllSourcesDistinct(snapshots) then Err(RepeatedSourceEffects)
    else if |snapshots| == 0 then Err(NoOptimizerGroups)
    else Ok(Adapter(contract, snapshots))
  }

  method BuildPredictionAdapter(deviation: Deviation, model: Model, state: BeliefState, history: seq<MatchedEffect>, contract: Contract)
    returns (r: Result<Adapter, AdapterError>)
    ensures r == BuildAdapter(deviation, model, state, history, contract)
  {
    var groups := SortedGroups(contract);
    var snapshots: seq<Snapshot> := [];
    for i := 0 to |groups|
      invariant snapshots == SnapshotsOf(deviation, model, history, state.sequence + 1, groups)[..i]
      invariant AllSourcesDistinct(snapshots)
    {
      var choice := PlanSigma(deviation, model, history, groups[i], state.sequence + 1);
      if !Distinct(choice.sources) {
        assert !Distinct(SnapshotsOf(deviation, model, history, state.sequence + 1, groups)[i].choice.sources);
        return Err(RepeatedSourceEffects);
      }
      snapshots := snapshots + [Snapshot(groups[i], choice, HypothesesWithSigma(choice.sigma))];
    }
    assert snapshots == SnapshotsOf(deviation, model, history, state.sequence + 1, groups);
    if |snapshots| == 0 {
      return Err(NoOptimizerGroups);
    }
    return Ok(Adapter(contract, snapshots));
  }

  predicate HasEarlierEffect(history: seq<MatchedEffect>, group: string, cutoff: nat, id: string) {
    exists e :: e in history && e.group == group && e.availableSequence < cutoff && e.id == id
  }

  /** The planner's sigma is the updater's, with the same status and the same sources, exactly when
      the model is fixed or no earlier effect of the group carries the evidence's own identifier. */
  lemma OneSigma(deviation: Deviation, model: Model, history: seq<MatchedEffect>, group: string, cutoff: nat, evidenceId: string)
    ensures PlanSigma(deviation, model, history, group, cutoff) == SelectSigma(deviation, model, history, group, cutoff, evidenceId)
      <==> (model.FixedSigma? || !HasEarlierEffect(history, group, cutoff, evidenceId))
  {
    var planned, selected := Available(group, cutoff), AvailableExcept(group, cutoff, evidenceId);
    if HasEarlierEffect(history, group, cutoff, evidenceId) {
      FilteredFewer(history, planned, selected);
    } else {
      FilteredAgrees(history, planned, selected);
    }
  }

  lemma PlannedSigmaPositive(deviation: Deviation, model: Model, history: seq<MatchedEffect>, group: string, cutoff: nat)
    ensures PlanSigma(deviation, model, history, group, cutoff).sigma >= SIGMA_FLOOR
  {
  }

  /** `snapshot_for_candidate`; a candidate reaches it only after its assessment has found its design. */
  function SnapshotFor(adapter: Adapter, c: Candidate): (r: Option<nat>)
    ensures r.Some? ==> r.value < |adapter.snapshots|
  {
    var design := DesignFor(adapter.contract, c);
    if design.None? then None else FirstSnapshot(adapter.snapshots, design.value.group)
  }

  function FirstSnapshot(snapshots: seq<Snapshot>, group: string): (r: Option<nat>)
    ensures r.Some? ==> r.value < |snapshots| && snapshots[r.value].group == group
    ensures r.None? ==> forall s :: s in snapshots ==> s.group != group
  {
    if |snapshots| == 0 then None
    else
      var rest := FirstSnapshot(snapshots[..|snapshots| - 1], group);
      if rest.Some? then rest
      else if snapshots[|snapshots| - 1].group == group then Some(|snapshots| - 1)
      else
        assert snapshots == snapshots[..|snapshots| - 1] + [snapshots[|snapshots| - 1]];
        None
  }

  lemma {:induction false} GroupsAreOptimizerGroups(designs: seq<Design>)
    ensures forall g :: g in GroupsOf(designs) <==> exists d :: d in designs && d.IsOptimizerEffect() && d.group == g
  {
    if |designs| > 0 {
      GroupsAreOptimizerGroups(designs[..|designs| - 1]);
      assert designs == designs[..|designs| - 1] + [designs[|designs| - 1]];
    }
  }

  /** What a built adapter looks like: a snapshot for every optimizer group, each over the three
      hypotheses with its group's sigma. */
  ghost predicate BuiltAdapter(deviation: Deviation, model: Model, state: BeliefState, history: seq<MatchedEffect>,
                               contract: Contract, adapter: Adapter)
  {
    && adapter.contract == contract && |adapter.snapshots| > 0
    && (forall s :: s in adapter.snapshots ==>
          s == SnapshotOf(deviation, model, history, state.sequence + 1, s.group) && Distinct(s.choice.sources))
    && (forall d :: d in contract.designs && d.IsOptimizerEffect() ==> exists s :: s in adapter.snapshots && s.group == d.group)
  }

  /** A calibrated model has two available effects of one identifier in the group of an optimizer
      design. */
  predicate GroupRepeats(model: Model, history: seq<MatchedEffect>, contract: Contract, cutoff: nat) {
    model.CalibratedSigma?
    && exists d :: d in contract.designs && d.IsOptimizerEffect() && RepeatedIds(history, Available(d.group, cutoff))
  }

  lemma PlanRepeatsIff(deviation: Deviation, model: Model, history: seq<MatchedEffect>, group: string, cutoff: nat)
    ensures !Distinct(PlanSigma(deviation, model, history, group, cutoff).sources)
      <==> model.CalibratedSigma? && RepeatedIds(history, Available(group, cutoff))
  {
    SourcesDistinctIff(history, Available(group, cutoff));
  }

  /** An adapter is built exactly when there is an optimizer group and none of them repeats a source;
      each failing condition has its error. */
  lemma AdapterIsBuilt(deviation: Deviation, model: Model, state: BeliefState, history: seq<MatchedEffect>, contract: Contract)
    ensures BuildAdapter(deviation, model, state, history, contract).Ok? <==>
      (exists d :: d in contract.designs && d.IsOptimizerEffect()) && !GroupRepeats(model, history, contract, state.sequence + 1)
    ensures GroupRepeats(model, history, contract, state.sequence + 1) ==>
      BuildAdapter(deviation, model, state, history, contract) == Err(RepeatedSourceEffects)
    ensures BuildAdapter(deviation, model, state, history, contract) == Err(RepeatedSourceEffects) ==>
      GroupRepeats(model, history, contract, state.sequence + 1)
    ensures BuildAdapter(deviation, model, state, history, contract).Ok? ==>
      BuiltAdapter(deviation, model, state, history, contract, BuildAdapter(deviation, model, state, history, contract).value)
  {
    hide PlanSigma, RepeatedIds, Distinct, Available;
    var groups := SortedGroups(contract);
    GroupsAreOptimizerGroups(contract.designs);
    SortMembers(GroupsOf(contract.designs), StringLess);
    RepeatingGroup(deviation, model, state, history, contract);
    if |groups| == 0 {
      forall d | d in contract.designs ensures !d.IsOptimizerEffect() {
        assert d.group !in groups;
      }
    } else {
      assert groups[0] in groups;
      var snapshots := SnapshotsOf(deviation, model, history, state.sequence + 1, groups);
      forall d | d in contract.designs && d.IsOptimizerEffect() ensures exists s :: s in snapshots && s.group == d.group {
        assert d.group in groups;
        var i :| 0 <= i < |groups| && groups[i] == d.group;
        assert snapshots[i] in snapshots;
      }
    }
  }

  lemma {:induction false} GroupsOnce(designs: seq<Design>)
    ensures Distinct(GroupsOf(designs))
  {
    if |designs| > 0 {
      GroupsOnce(designs[..|designs| - 1]);
    }
  }

  /** The snapshots of a built adapter are in the order of their groups, no group twice. */
  lemma SnapshotsInOrder(deviation: Deviation, model: Model, state: BeliefState, history: seq<MatchedEffect>, contract: Contract)
    requires BuildAdapter(deviation, model, state, history, contract).Ok?
    ensures var snapshots := BuildAdapter(deviation, model, state, history, contract).value.snapshots;
      && (forall s :: s in snapshots ==> exists d :: d in contract.designs && d.IsOptimizerEffect() && d.group == s.group)
      && (forall i, j :: 0 <= i < j < |snapshots| ==> StringLess(snapshots[i].group, snapshots[j].group))
  {
    hide PlanSigma, Distinct, StringLess;
    var all, groups := GroupsOf(contract.designs), SortedGroups(contract);
    GroupsAreOptimizerGroups(contract.designs);
    GroupsOnce(contract.designs);
    SortMembers(all, StringLess);
    SortDistinct(all, StringLess);
    StringOrder();
    SortAscending(all, StringLess);
    var snapshots := BuildAdapter(deviation, model, state, history, contract).value.snapshots;
    forall s | s in snapshots ensures exists d :: d in contract.designs && d.IsOptimizerEffect() && d.group == s.group {
      var i :| 0 <= i < |snapshots| && snapshots[i] == s;
      assert groups[i] in groups;
    }
    forall i, j | 0 <= i < j < |snapshots| ensures StringLess(snapshots[i].group, snapshots[j].group) {
      assert groups[i] != groups[j] by { DistinctAt(groups, i, j); }
      assert !StringLess(groups[j], groups[i]);
    }
  }

  lemma DistinctAt(s: seq<string>, i: nat, j: nat)
    requires Distinct(s) && i < j < |s|
    ensures s[i] != s[j]
  {
  }

  /** Some snapshot repeats a source exactly when the group of some optimizer design does. */
  lemma RepeatingGroup(deviation: Deviation, model: Model, state: BeliefState, history: seq<MatchedEffect>, contract: Contract)
    ensures AllSourcesDistinct(SnapshotsOf(deviation, model, history, state.sequence + 1, SortedGroups(contract)))
      <==> !GroupRepeats(model, history, contract, state.sequence + 1)
  {
    hide PlanSigma, RepeatedIds, Distinct, Available;
    var groups := SortedGroups(contract);
    var snapshots := SnapshotsOf(deviation, model, history, state.sequence + 1, groups);
    GroupsAreOptimizerGroups(contract.designs);
    SortMembers(GroupsOf(contract.designs), StringLess);
    forall i | 0 <= i < |groups|
      ensures !Distinct(snapshots[i].choice.sources)
        <==> model.CalibratedSigma? && RepeatedIds(history, Available(groups[i], state.sequence + 1))
    {
      PlanRepeatsIff(deviation, model, history, groups[i], state.sequence + 1);
    }
    if GroupRepeats(model, history, contract, state.sequence + 1) {
      var d :| d in contract.designs && d.IsOptimizerEffect() && RepeatedIds(history, Available(d.group, state.sequence + 1));
      assert d.group in groups;
      var i :| 0 <= i < |groups| && groups[i] == d.group;
      assert !Distinct(snapshots[i].choice.sources);
    } else {
      forall i | 0 <= i < |snapshots| ensures Distinct(snapshots[i].choice.sources) {
        assert groups[i] in groups;
      }
    }
  }

  /** One identifier carried by two effects of an optimizer group that are available from the start is
      enough for a calibrated model to build no adapter. */
  lemma RepeatedCalibrationIsRejected(deviation: Deviation, state: BeliefState, contract: Contract, d: Design, id: string,
                                      first: real, second: real)
    requires d in contract.designs && d.IsOptimizerEffect()
    ensures var history := [MatchedEffect(id, d.group, first, 0), MatchedEffect(id, d.group, second, 0)];
      && BuildAdapter(deviation, CalibratedSigma, state, history, contract) == Err(RepeatedSourceEffects)
      && BuildAdapter(deviation, FixedSigma, state, history, contract).Ok?
      && BuildAdapter(deviation, CalibratedSigma, state, history[..1], contract).Ok?
  {
    hide BuildAdapter, RepeatedIds;
    var history := [MatchedEffect(id, d.group, first, 0), MatchedEffect(id, d.group, second, 0)];
    AdapterIsBuilt(deviation, CalibratedSigma, state, history, contract);
    AdapterIsBuilt(deviation, FixedSigma, state, history, contract);
    AdapterIsBuilt(deviation, CalibratedSigma, state, history[..1], contract);
    TwoRepeat(history, d.group, state.sequence + 1);
    forall other | other in contract.designs ensures !RepeatedIds(history[..1], Available(other.group, state.sequence + 1)) {
      OneNeverRepeats(history[..1], Available(other.group, state.sequence + 1));
    }
  }

  lemma TwoRepeat(history: seq<MatchedEffect>, group: string, cutoff: nat)
    requires |history| == 2 && history[0].id == history[1].id && cutoff > 0
    requires forall i :: 0 <= i < 2 ==> history[i].group == group && history[i].availableSequence == 0
    ensures RepeatedIds(history, Available(group, cutoff))
  {
    var keep := Available(group, cutoff);
    assert keep(history[0]) && keep(history[1]);
  }

  lemma OneNeverRepeats(history: seq<MatchedEffect>, keep: MatchedEffect -> bool)
    requires |history| <= 1
    ensures !RepeatedIds(history, keep)
  {
  }

  /** A candidate that completes a pair always has a snapshot. */
  lemma PairCloserHasSnapshot(deviation: Deviation, model: Model, state: BeliefState, history: seq<MatchedEffect>,
                              adapter: Adapter, c: Candidate, completed: seq<CompletedExperiment>)
    requires BuiltAdapter(deviation, model, state, history, adapter.contract, adapter)
    requires AssessCandidate(adapter.contract, c, completed).Ok?
    requires AssessCandidate(adapter.contract, c, completed).value.effect == CompletesPair
    ensures SnapshotFor(adapter, c).Some?
    ensures adapter.snapshots[SnapshotFor(adapter, c).value].group == DesignFor(adapter.contract, c).value.group
  {
    hide SnapshotOf, AssessRegistered;
    var design := DesignFor(adapter.contract, c).value;
    assert design.IsOptimizerEffect();
  }

  // ----- the one-step planner -----

  function Estimates(laws: GainLaws, snapshots: seq<Snapshot>, state: BeliefState): (r: Result<seq<Estimate>, PlanningError>)
    requires |state.posterior| == |state.hypothesisIds|
    ensures r.Ok? ==> |r.value| == |snapshots|
  {
    if |snapshots| == 0 then Ok([])
    else
      var rest :- Estimates(laws, snapshots[..|snapshots| - 1], state);
      var estimate :- EstimateGain(laws, snapshots[|snapshots| - 1].hypotheses, state);
      Ok(rest + [estimate])
  }

  /** The estimate of the candidate's group, or the canonical one for a candidate without a snapshot. */
  function EstimateFor(adapter: Adapter, estimates: seq<Estimate>, c: Candidate): Estimate
    requires |estimates| == |adapter.snapshots| > 0
  {
    var i := SnapshotFor(adapter, c);
    if i.None? then estimates[0] else estimates[i.value]
  }

  function ScoredByGroup(adapter: Adapter, estimates: seq<Estimate>, offers: seq<Offer>): (r: seq<CandidateScore>)
    requires |estimates| == |adapter.snapshots| > 0
    ensures |r| == |offers|
  {
    seq(|offers|, i requires 0 <= i < |offers| => ScoreOf(EstimateFor(adapter, estimates, offers[i].candidate), offers[i]))
  }

  predicate AllUninformative(estimates: seq<Estimate>) {
    forall i :: 0 <= i < |estimates| ==> estimates[i].gain <= POSITIVE_INFORMATION_TOLERANCE
  }

  /** `decide_information_gain_with_adapter`. */
  function DecideAdapted(laws: GainLaws, adapter: Adapter, problem: Problem, state: BeliefState): Result<DecisionTrace, PlanningError>
    requires |adapter.snapshots| > 0 && |state.posterior| == |state.hypothesisIds|
  {
    if problem.budget < 0.0 then Err(InvalidBudget)
    else
      var estimates :- Estimates(laws, adapter.snapshots, state);
      var offers :- Offers(problem, InIdOrder(problem.candidates));
      if |offers| == 0 then Err(NoFeasibleCandidate)
      else
        var scores := ScoredByGroup(adapter, estimates, offers);
        var ranked := RankScores(scores);
        var fallback := if HasPositive(scores) then None
                        else if AllUninformative(estimates) then Some(NoReducibleUncertainty)
                        else Some(NoPairToComplete);
        Ok(DecisionTrace(ranked[0], EstimateFor(adapter, estimates, ranked[0].score.candidate).contexts, problem.budget,
                         fallback, ranked))
  }

  method DecideInformationGainWithAdapter(laws: GainLaws, adapter: Adapter, problem: Problem, state: BeliefState)
    returns (r: Result<DecisionTrace, PlanningError>)
    requires |adapter.snapshots| > 0 && |state.posterior| == |state.hypothesisIds|
    ensures r == DecideAdapted(laws, adapter, problem, state)
  {
    hide Consider, EstimateGain, SnapshotFor;
    if problem.budget < 0.0 {
      return Err(InvalidBudget);
    }
    var estimates :- Estimates(laws, adapter.snapshots, state);
    var sorted := InIdOrder(problem.candidates);
    var scores: seq<CandidateScore> := [];
    for i := 0 to |sorted|
      invariant Offers(problem, sorted[..i]).Ok?
      invariant scores == ScoredByGroup(adapter, estimates, Offers(problem, sorted[..i]).value)
    {
      assert sorted[..i + 1][..i] == sorted[..i];
      var offer := Consider(problem, sorted[i]);
      if offer.Err? {
        OfferFailureStays(problem, sorted, i + 1);
        return Err(offer.error);
      }
      if offer.value.Some? {
        var estimate := EstimateFor(adapter, estimates, offer.value.value.candidate);
        scores := scores + [ScoreOf(estimate, offer.value.value)];
      }
    }
    assert sorted[..|sorted|] == sorted;
    if |scores| == 0 {
      return Err(NoFeasibleCandidate);
    }
    var positive := HasPositive(scores);
    var ranked := RankInOrder(SortBy(scores, ScoreBefore(positive)), positive);
    var fallback := None;
    if !positive {
      fallback := if AllUninformative(estimates) then Some(NoReducibleUncertainty) else Some(NoPairToComplete);
    }
    return Ok(DecisionTrace(ranked[0], EstimateFor(adapter, estimates, ranked[0].score.candidate).contexts, problem.budget,
                            fallback, ranked));
  }

  // ----- the two-step planner -----

  /** The gain of closing a pair with one candidate, under its own group's hypotheses. */
  function CloserGain(laws: GainLaws, adapter: Adapter, p: seq<real>, c: Candidate): Result<real, PlanningError> {
    var i := SnapshotFor(adapter, c);
    if i.None? then Err(MissingSnapshot)
    else
      var d :- DiscretizedOutcomes(laws, adapter.snapshots[i.value].hypotheses, p);
      Ok(d.gain)
  }

  function SecondChoicesAdapted(laws: GainLaws, adapter: Adapter, problem: Problem, p: seq<real>, remaining: real,
                                candidates: seq<Candidate>): (r: Result<seq<SecondAction>, PlanningError>)
    ensures r.Ok? ==> |r.value| > 0
  {
    if |candidates| == 0 then Ok([STOP])
    else
      var rest :- SecondChoicesAdapted(laws, adapter, problem, p, remaining, candidates[..|candidates| - 1]);
      var cost :- Closer(problem, remaining, candidates[|candidates| - 1]);
      if cost.None? then Ok(rest)
      else
        var gain :- CloserGain(laws, adapter, p, candidates[|candidates| - 1]);
        Ok(rest + [CloseAction(candidates[|candidates| - 1], gain, cost.value)])
  }

  lemma {:induction false} AdaptedChoiceFailureStays(laws: GainLaws, adapter: Adapter, problem: Problem, p: seq<real>, remaining: real,
                                                     candidates: seq<Candidate>, n: nat)
    requires n <= |candidates| && SecondChoicesAdapted(laws, adapter, problem, p, remaining, candidates[..n]).Err?
    ensures SecondChoicesAdapted(laws, adapter, problem, p, remaining, candidates)
         == SecondChoicesAdapted(laws, adapter, problem, p, remaining, candidates[..n])
  {
    hide Closer, CloserGain;
    if n < |candidates| {
      assert candidates[..|candidates| - 1][..n] == candidates[..n];
      AdaptedChoiceFailureStays(laws, adapter, problem, p, remaining, candidates[..|candidates| - 1], n);
    } else {
      assert candidates[..n] == candidates;
    }
  }

  /** `_best_second_action_with_adapter`. */
  function BestSecondAdapted(laws: GainLaws, adapter: Adapter, problem: Problem, p: seq<real>, remaining: real)
    : Result<SecondAction, PlanningError>
  {
    var choices :- SecondChoicesAdapted(laws, adapter, problem, p, remaining, InIdOrder(problem.candidates));
    Ok(Preferred(choices))
  }

  method BestSecondActionWithAdapter(laws: GainLaws, adapter: Adapter, problem: Problem, p: seq<real>, remaining: real)
    returns (r: Result<SecondAction, PlanningError>)
    ensures r == BestSecondAdapted(laws, adapter, problem, p, remaining)
  {
    hide Closer, DiscretizedOutcomes, SortBy, SnapshotFor;
    var sorted := InIdOrder(problem.candidates);
    var choices := [STOP];
    for i := 0 to |sorted|
      invariant |choices| > 0
      invariant SecondChoicesAdapted(laws, adapter, problem, p, remaining, sorted[..i]) == Ok(choices)
    {
      assert sorted[..i + 1][..i] == sorted[..i];
      var cost := Closer(problem, remaining, sorted[i]);
      if cost.Err? {
        AdaptedChoiceFailureStays(laws, adapter, problem, p, remaining, sorted, i + 1);
        return Err(cost.error);
      }
      if cost.value.Some? {
        var snapshot := SnapshotFor(adapter, sorted[i]);
        if snapshot.None? {
          AdaptedChoiceFailureStays(laws, adapter, problem, p, remaining, sorted, i + 1);
          return Err(MissingSnapshot);
        }
        var distribution := EnumerateOutcomes(laws, adapter.snapshots[snapshot.value].hypotheses, p);
        if distribution.Err? {
          AdaptedChoiceFailureStays(laws, adapter, problem, p, remaining, sorted, i + 1);
          return Err(distribution.error);
        }
        choices := choices + [CloseAction(sorted[i], distribution.value.gain, cost.value.value)];
      }
    }
    assert sorted[..|sorted|] == sorted;
    return Ok(Preferred(choices));
  }

  function PlanBranchAdapted(laws: GainLaws, adapter: Adapter, simulated: Problem, outcome: OutcomeBranch, firstCost: real)
    : Result<Branch, PlanningError>
  {
    var second :- BestSecondAdapted(laws, adapter, simulated, outcome.posterior, simulated.budget - firstCost);
    Ok(BranchWith(outcome, firstCost, second, simulated.budget))
  }

  function PlanBranchesAdapted(laws: GainLaws, adapter: Adapter, simulated: Problem, outcomes: seq<OutcomeBranch>, firstCost: real)
    : (r: Result<seq<Branch>, PlanningError>)
    ensures r.Ok? ==> |r.value| == |outcomes|
  {
    if |outcomes| == 0 then Ok([])
    else
      var rest :- PlanBranchesAdapted(laws, adapter, simulated, outcomes[..|outcomes| - 1], firstCost);
      var branch :- PlanBranchAdapted(laws, adapter, simulated, outcomes[|outcomes| - 1], firstCost);
      Ok(rest + [branch])
  }

  function FirstOutcomesAdapted(laws: GainLaws, adapter: Adapter, p: seq<real>, offer: Offer)
    : Result<(real, seq<OutcomeBranch>), PlanningError>
  {
    if offer.assessment.effect == CompletesPair then
      var i := SnapshotFor(adapter, offer.candidate);
      if i.None? then Err(MissingSnapshot)
      else
        var d :- DiscretizedOutcomes(laws, adapter.snapshots[i.value].hypotheses, p);
        Ok((d.gain, d.branches))
    else Ok((0.0, [OutcomeBranch(None, 1.0, p, Entropy(laws.phi, p))]))
  }

  /** `_plan_first_action_with_adapter`. */
  function PlanFirstAdapted(laws: GainLaws, adapter: Adapter, problem: Problem, p: seq<real>, offer: Offer)
    : Result<FirstPlan, PlanningError>
  {
    var first :- FirstOutcomesAdapted(laws, adapter, p, offer);
    var branches :- PlanBranchesAdapted(laws, adapter, Simulated(problem, offer.candidate), first.1, offer.cost);
    PlanWith(laws.phi, offer, p, first.0, branches)
  }

  function FirstPlansAdapted(laws: GainLaws, adapter: Adapter, problem: Problem, p: seq<real>, candidates: seq<Candidate>)
    : Result<seq<FirstPlan>, PlanningError>
  {
    if |candidates| == 0 then Ok([])
    else
      var rest :- FirstPlansAdapted(laws, adapter, problem, p, candidates[..|candidates| - 1]);
      var offer :- Consider(problem, candidates[|candidates| - 1]);
      if offer.None? then Ok(rest)
      else
        var plan :- PlanFirstAdapted(laws, adapter, problem, p, offer.value);
        Ok(rest + [plan])
  }

  lemma {:induction false} AdaptedPlanFailureStays(laws: GainLaws, adapter: Adapter, problem: Problem, p: seq<real>,
                                                   candidates: seq<Candidate>, n: nat)
    requires n <= |candidates| && FirstPlansAdapted(laws, adapter, problem, p, candidates[..n]).Err?
    ensures FirstPlansAdapted(laws, adapter, problem, p, candidates) == FirstPlansAdapted(laws, adapter, problem, p, candidates[..n])
  {
    hide Consider, PlanFirstAdapted;
    if n < |candidates| {
      assert candidates[..|candidates| - 1][..n] == candidates[..n];
      AdaptedPlanFailureStays(laws, adapter, problem, p, candidates[..|candidates| - 1], n);
    } else {
      assert candidates[..n] == candidates;
    }
  }

  /** `decide_lookahead_with_adapter`. */
  function DecideLookaheadAdapted(laws: GainLaws, adapter: Adapter, problem: Problem, state: BeliefState)
    : Result<PlanTrace, PlanningError>
  {
    if problem.budget < 0.0 then Err(InvalidBudget)
    else
      var plans :- FirstPlansAdapted(laws, adapter, problem, state.posterior, InIdOrder(problem.candidates));
      ConcludePlans(problem, plans)
  }

  method DecideLookaheadWithAdapter(laws: GainLaws, adapter: Adapter, problem: Problem, state: BeliefState)
    returns (r: Result<PlanTrace, PlanningError>)
    ensures r == DecideLookaheadAdapted(laws, adapter, problem, state)
  {
    hide Consider, PlanFirstAdapted, SortBy;
    if problem.budget < 0.0 {
      return Err(InvalidBudget);
    }
    var sorted := InIdOrder(problem.candidates);
    var plans: seq<FirstPlan> := [];
    for i := 0 to |sorted|
      invariant FirstPlansAdapted(laws, adapter, problem, state.posterior, sorted[..i]) == Ok(plans)
    {
      assert sorted[..i + 1][..i] == sorted[..i];
      var offer := Consider(problem, sorted[i]);
      if offer.Err? {
        AdaptedPlanFailureStays(laws, adapter, problem, state.posterior, sorted, i + 1);
        return Err(offer.error);
      }
      if offer.value.Some? {
        var plan := PlanFirstAdapted(laws, adapter, problem, state.posterior, offer.value.value);
        if plan.Err? {
          AdaptedPlanFailureStays(laws, adapter, problem, state.posterior, sorted, i + 1);
          return Err(plan.error);
        }
        plans := plans + [plan.value];
      }
    }
    assert sorted[..|sorted|] == sorted;
    if |plans| == 0 {
      return Err(NoFeasibleCandidate);
    }
    var ranked := RankPlansInOrder(SortBy(plans, PlanBefore));
    var completedCheck :- CompletedDesigned(problem.contract, problem.completed);
    var candidateCheck :- CandidatesDesigned(problem, sorted);
    return Ok(PlanTrace(ranked[0], ranked[1..], problem.budget, ranked[0].plan.totalGain <= POSITIVE_INFORMATION_TOLERANCE));
  }
}
