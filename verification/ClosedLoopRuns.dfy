/** What holds at every loop head of every closed-loop run. */
module ClosedLoopRuns {
  import opened Wrappers
  import opened RealSums
  import opened Information
  import opened Ordering
  import opened Rounding
  import opened EvidenceEligibility
  import opened Reasoning
  import opened OptimizerEffect
  import opened BeliefModels
  import opened EvidenceOutcomes
  import opened OneStepPolicy
  import opened LookaheadPolicy
  import opened PredictionAdapter
  import opened AdapterRefinement
  import opened ClosedLoop

  /** What a run is entitled to: a positive budget, sound numerical functions, and
      evidence identifiers that name one pair each. */
  ghost predicate SoundArm(arm: Arm) {
    && arm.spec.budget > 0.0
    && SoundGainLaws(arm.laws.gain)
    && PositiveDensity(arm.laws.belief.density)
    && InjectiveName(arm.laws.name)
  }

  // ----- what the planners select -----

  /** A one-step selection is an offered candidate, and completes a pair when its assessment says so. */
  lemma OneStepSelection(laws: GainLaws, adapter: Adapter, problem: Problem, belief: BeliefState)
    requires |adapter.snapshots| > 0 && |belief.posterior| == |belief.hypothesisIds|
    requires DecideAdapted(laws, adapter, problem, belief).Ok?
    ensures var s := DecideAdapted(laws, adapter, problem, belief).value.selected.score;
      && s.candidate in problem.candidates && IsOffered(problem, s.candidate)
      && var a := Consider(problem, s.candidate).value.value.assessment;
         (s.completesPair <==> a.effect == CompletesPair && a.counterpart.Some?)
  {
    hide Offers, Estimates, EstimateFor, Consider, RankScores;
    var offers := Offers(problem, InIdOrder(problem.candidates)).value;
    var estimates := Estimates(laws, adapter.snapshots, belief).value;
    var scores := ScoredByGroup(adapter, estimates, offers);
    SelectedIsBest(scores);
    OffersAreConsidered(problem, InIdOrder(problem.candidates));
    SortMembers(problem.candidates, CandidateBefore);
    var selected := RankScores(scores)[0].score;
    var i :| 0 <= i < |scores| && scores[i] == selected;
    assert offers[i] in offers;
  }

  lemma {:induction false} PlansFromOffers(laws: GainLaws, adapter: Adapter, problem: Problem, p: seq<real>, candidates: seq<Candidate>)
    requires FirstPlansAdapted(laws, adapter, problem, p, candidates).Ok?
    ensures forall q :: q in FirstPlansAdapted(laws, adapter, problem, p, candidates).value ==>
      && q.candidate in candidates && IsOffered(problem, q.candidate)
      && q.effect == Consider(problem, q.candidate).value.value.assessment.effect
  {
    hide Consider, PlanFirstAdapted;
    if |candidates| > 0 {
      var n := |candidates| - 1;
      PlansFromOffers(laws, adapter, problem, p, candidates[..n]);
      assert candidates == candidates[..n] + [candidates[n]];
      if IsOffered(problem, candidates[n]) {
        OfferFits(problem, candidates[n]);
        PlanKeepsOffer(laws, adapter, problem, p, Consider(problem, candidates[n]).value.value);
      }
    }
  }

  lemma PlanKeepsOffer(laws: GainLaws, adapter: Adapter, problem: Problem, p: seq<real>, offer: Offer)
    ensures var plan := PlanFirstAdapted(laws, adapter, problem, p, offer);
      plan.Ok? ==> plan.value.candidate == offer.candidate && plan.value.effect == offer.assessment.effect
  {
    hide PlanBranchesAdapted, FirstOutcomesAdapted, Entropy, Sum, TerminalShares, CostShares;
  }

  lemma TwoStepSelection(laws: GainLaws, adapter: Adapter, problem: Problem, belief: BeliefState)
    requires DecideLookaheadAdapted(laws, adapter, problem, belief).Ok?
    ensures var q := DecideLookaheadAdapted(laws, adapter, problem, belief).value.selected.plan;
      && q.candidate in problem.candidates && IsOffered(problem, q.candidate)
      && q.effect == Consider(problem, q.candidate).value.value.assessment.effect
  {
    hide FirstPlansAdapted, Consider, RankedPlans, CompletedDesigned, CandidatesDesigned, PlanBefore;
    var plans := FirstPlansAdapted(laws, adapter, problem, belief.posterior, InIdOrder(problem.candidates)).value;
    PlansFromOffers(laws, adapter, problem, belief.posterior, InIdOrder(problem.candidates));
    SelectedPlanIsLeast(plans);
    SortMembers(problem.candidates, CandidateBefore);
  }

  /** Assessed against nothing, a candidate that completes no pair has the effect it has now. */
  lemma EffectWithoutHistory(contract: Contract, c: Candidate, completed: seq<CompletedExperiment>)
    requires AssessCandidate(contract, c, completed).Ok?
    requires Admissible(AssessCandidate(contract, c, completed).value.effect)
    ensures AssessCandidate(contract, c, []).Ok?
    ensures AssessCandidate(contract, c, completed).value.effect != CompletesPair ==>
      AssessCandidate(contract, c, []).value.effect == AssessCandidate(contract, c, completed).value.effect
    ensures AssessCandidate(contract, c, completed).value.effect == CompletesPair ==>
      AssessCandidate(contract, c, completed).value.counterpart.Some?
  {
    hide DesignFor, ArmMembers;
    assert forall key, arm :: ArmMembers(contract, [], key, arm) == [] by { NoMembersOfNothing(contract); }
  }

  lemma NoMembersOfNothing(contract: Contract)
    ensures forall key, arm :: ArmMembers(contract, [], key, arm) == []
  {
  }

  /** What a decision amounts to: an open candidate of the problem, affordable without slack, whose
      recorded effect is its assessment against the completed experiments. */
  predicate Selects(arm: Arm, completed: seq<CompletedExperiment>, feasible: seq<Candidate>, remaining: real, record: DecisionRecord) {
    var c := record.trace.Selected();
    && c in feasible && !IsCompleted(c, completed)
    && CostOf(arm.costs, c.id).Ok? && 0.0 <= CostOf(arm.costs, c.id).value <= remaining
    && AssessCandidate(arm.contract, c, completed).Ok?
    && record.effect == AssessCandidate(arm.contract, c, completed).value.effect
    && Admissible(record.effect)
    && record.remaining == remaining
  }

  lemma DecidedSelects(arm: Arm, completed: seq<CompletedExperiment>, belief: BeliefState, effects: seq<MatchedEffect>,
                       feasible: seq<Candidate>, remaining: real)
    requires WellShaped(belief) && Decided(arm, completed, belief, effects, feasible, remaining).Ok?
    ensures var record := Decided(arm, completed, belief, effects, feasible, remaining).value;
      && Selects(arm, completed, feasible, remaining, record)
      && BuildAdapter(arm.laws.belief.deviation, arm.spec.model, belief, effects, arm.contract)
           == Ok(Adapter(arm.contract, record.snapshots))
  {
    hide DecideAdapted, DecideLookaheadAdapted, Decide, DecideLookahead, Consider, AssessCandidate, IsCompleted, CostOf,
      SortedGroups, SnapshotsOf;
    var adapter := BuildAdapter(arm.laws.belief.deviation, arm.spec.model, belief, effects, arm.contract).value;
    var problem := ProblemAt(arm, completed, feasible, remaining);
    match arm.spec.policy
    case InformationGain =>
      OneStepSelection(arm.laws.gain, adapter, problem, belief);
      OfferFits(problem, DecideAdapted(arm.laws.gain, adapter, problem, belief).value.selected.score.candidate);
      EffectWithoutHistory(arm.contract, DecideAdapted(arm.laws.gain, adapter, problem, belief).value.selected.score.candidate, completed);
    case Lookahead =>
      TwoStepSelection(arm.laws.gain, adapter, problem, belief);
      OfferFits(problem, DecideLookaheadAdapted(arm.laws.gain, adapter, problem, belief).value.selected.plan.candidate);
  }

  // ----- the invariant of experiments and costs -----

  /** The rounded running total of the experiments' costs. */
  function RunningCost(costs: map<string, real>, completed: seq<CompletedExperiment>): real {
    if |completed| == 0 then 0.0
    else
      var cost := CostOf(costs, completed[|completed| - 1].candidate.id);
      Round12(RunningCost(costs, completed[..|completed| - 1]) + (if cost.Ok? then cost.value else 0.0))
  }

  /** Each candidate at most once, in step order, at most one in each arm of a comparison, and never
      above the rounded budget. */
  ghost predicate ExperimentsInOrder(arm: Arm, s: LoopState) {
    && AllRegistered(arm.contract, s.completed)
    && OnePerArm(arm.contract, s.completed)
    && (forall i :: 0 <= i < |s.completed| ==>
          && s.completed[i].candidate in arm.candidates
          && s.completed[i].recordId == arm.spec.experimentBase + i + 1)
    && (forall i, j :: 0 <= i < j < |s.completed| ==> s.completed[i].candidate.id != s.completed[j].candidate.id)
    && s.cumulativeCost == RunningCost(arm.costs, s.completed)
    && (|s.completed| > 0 ==> s.cumulativeCost <= Round12(arm.spec.budget))
  }

  /** An admissible completion keeps one experiment per arm. */
  lemma AdmissibleKeepsOnePerArm(contract: Contract, completed: seq<CompletedExperiment>, e: CompletedExperiment)
    requires OnePerArm(contract, completed)
    requires AssessCandidate(contract, e.candidate, completed).Ok?
    requires Admissible(AssessCandidate(contract, e.candidate, completed).value.effect)
    ensures OnePerArm(contract, completed + [e])
  {
    forall key, arm ensures |ArmMembers(contract, completed + [e], key, arm)| <= 1 {
      AppendMember(contract, completed, e, key, arm);
      assert |ArmMembers(contract, completed, key, arm)| <= 1;
    }
  }

  lemma ExtendExperiments(arm: Arm, s: LoopState, feasible: seq<Candidate>, record: DecisionRecord, t: LoopState)
    requires ExperimentsInOrder(arm, s)
    requires Selects(arm, s.completed, feasible, arm.spec.budget - s.cumulativeCost, record)
    requires forall c :: c in feasible ==> c in arm.candidates
    requires t.completed == s.completed + [Selection(arm, s, record)]
    requires t.cumulativeCost == Round12(s.cumulativeCost + CostOf(arm.costs, record.trace.Selected().id).value)
    ensures ExperimentsInOrder(arm, t)
  {
    hide Round12, AssessRegistered, DesignFor;
    var c, e := record.trace.Selected(), Selection(arm, s, record);
    AdmissibleKeepsOnePerArm(arm.contract, s.completed, e);
    assert t.completed[..|s.completed|] == s.completed;
    RoundMonotone(s.cumulativeCost + CostOf(arm.costs, c.id).value, arm.spec.budget);
    forall i | 0 <= i < |s.completed| ensures s.completed[i].candidate.id != c.id {
    }
  }

  // ----- the invariant of evidence -----

  function LedgerOf(s: LoopState): Ledger {
    Ledger(s.completed, s.evidence, s.belief)
  }

  /** The evidence is exactly that of the valid pairs, each applied and updated with once. */
  ghost predicate EvidenceExact(arm: Arm, s: LoopState) {
    && AppliedExactly(arm.contract, s.completed, s.applied)
    && s.applied == Applied(s.evidence)
    && EvidenceOfPairs(arm.laws.name, arm.contract, LedgerOf(s))
    && OptimizerState(s.belief)
    && s.belief.evidenceIds == EvidenceIds(s.evidence)
    && |s.updates| == |s.evidence|
    && ReportsSound(Reports(s.updates))
  }

  lemma RecordsDistinct(arm: Arm, s: LoopState)
    requires ExperimentsInOrder(arm, s)
    ensures DistinctRecords(s.completed)
  {
  }

  /** The pair an execution completes, if its assessment said so. */
  function NewPair(arm: Arm, completed: seq<CompletedExperiment>, e: CompletedExperiment): Option<MatchedPair> {
    var design, a := DesignFor(arm.contract, e.candidate), AssessCandidate(arm.contract, e.candidate, completed);
    if design.Some? && a.Ok? && a.value.effect == CompletesPair && a.value.counterpart.Some?
    then Some(PairWith(design.value, e, a.value.counterpart.value)) else None
  }

  /** The scan after an execution finds the predicted pair and nothing else. */
  lemma AbsorbedIsPredicted(arm: Arm, s: LoopState, e: CompletedExperiment, x: LoopState)
    requires WellShaped(s.belief)
    requires AllRegistered(arm.contract, s.completed) && DistinctRecords(s.completed + [e])
    requires AppliedExactly(arm.contract, s.completed, s.applied) && !IsCompleted(e.candidate, s.completed)
    requires AssessCandidate(arm.contract, e.candidate, s.completed).Ok?
    requires Admissible(AssessCandidate(arm.contract, e.candidate, s.completed).value.effect)
    requires x == s.(completed := s.completed + [e], cumulativeCost := x.cumulativeCost, decisions := x.decisions, log := x.log)
    ensures var pair := NewPair(arm, s.completed, e);
      && (pair.Some? <==> AssessCandidate(arm.contract, e.candidate, s.completed).value.effect == CompletesPair)
      && Absorbed(arm, x) == (if pair.None? then Ok(x) else Absorb(arm, x, pair.value))
      && (pair.Some? ==> pair.value.SourceIds() !in s.applied)
      && AppliedExactly(arm.contract, x.completed, s.applied + (if pair.None? then {} else {pair.value.SourceIds()}))
  {
    hide Absorb, AppliedExactly, AllRegistered, DistinctRecords, IsCompleted, AssessRegistered, PairWith;
    assert Registered(arm.contract, e.candidate);
    AssessmentPredictsScan(arm.contract, e.candidate, s.completed, e, s.applied);
    var pair := NewPair(arm, s.completed, e);
    if pair.Some? {
      hide ValidUnappliedPairs;
      assert [pair.value][..0] == [];
      assert AbsorbAll(arm, x, [pair.value]) == Absorb(arm, x, pair.value);
    } else {
      assert s.applied + {} == s.applied;
    }
  }

  /** The evidence of the pairs after an execution: what was there, and the new pair's. */
  lemma ExtendEvidenceOfPairs(arm: Arm, s: LoopState, e: CompletedExperiment, after: BeliefState)
    requires AllRegistered(arm.contract, s.completed) && !IsCompleted(e.candidate, s.completed)
    requires Registered(arm.contract, e.candidate)
    requires EvidenceOfPairs(arm.laws.name, arm.contract, LedgerOf(s))
    requires AssessCandidate(arm.contract, e.candidate, s.completed).Ok?
    requires Admissible(AssessCandidate(arm.contract, e.candidate, s.completed).value.effect)
    ensures var pair := NewPair(arm, s.completed, e);
      EvidenceOfPairs(arm.laws.name, arm.contract, Ledger(s.completed + [e],
        s.evidence + (if pair.None? then [] else [EvidenceFromPair(arm.laws.name, pair.value)]), after))
  {
    hide PairOf, EvidenceFromPair, AssessRegistered, AllRegistered, IsCompleted, PairWith;
    AssessmentPredictsPair(arm.contract, e.candidate, s.completed, e);
    var pair, design := NewPair(arm, s.completed, e), DesignFor(arm.contract, e.candidate).value;
    var completed := s.completed + [e];
    var evidence := s.evidence + (if pair.None? then [] else [EvidenceFromPair(arm.laws.name, pair.value)]);
    forall k | k != design.Key() ensures PairOf(arm.contract, completed, k) == PairOf(arm.contract, s.completed, k) {
      OtherKeysUnchanged(arm.contract, s.completed, e, k);
    }
    KeyPairUnchanged(arm.contract, s.completed, e);
    forall k | PairOf(arm.contract, completed, k).Some?
      ensures EvidenceFromPair(arm.laws.name, PairOf(arm.contract, completed, k).value) in evidence
    {
      if PairOf(arm.contract, s.completed, k).Some? {
        assert EvidenceFromPair(arm.laws.name, PairOf(arm.contract, s.completed, k).value) in s.evidence;
      }
    }
    forall item | item in evidence
      ensures exists k :: PairOf(arm.contract, completed, k).Some?
                       && item == EvidenceFromPair(arm.laws.name, PairOf(arm.contract, completed, k).value)
    {
      if item in s.evidence {
        var k :| PairOf(arm.contract, s.completed, k).Some?
              && item == EvidenceFromPair(arm.laws.name, PairOf(arm.contract, s.completed, k).value);
        assert PairOf(arm.contract, completed, k) == PairOf(arm.contract, s.completed, k);
      } else {
        assert PairOf(arm.contract, completed, design.Key()) == Some(pair.value);
      }
    }
  }

  /** A completion that completes no pair, or completes the first of its comparison, spoils none. */
  lemma KeyPairUnchanged(contract: Contract, completed: seq<CompletedExperiment>, e: CompletedExperiment)
    requires AllRegistered(contract, completed) && !IsCompleted(e.candidate, completed) && Registered(contract, e.candidate)
    requires AssessCandidate(contract, e.candidate, completed).Ok?
    requires Admissible(AssessCandidate(contract, e.candidate, completed).value.effect)
    ensures var key := DesignFor(contract, e.candidate).value.Key();
      && (PairOf(contract, completed, key).Some? ==> PairOf(contract, completed + [e], key) == PairOf(contract, completed, key))
      && (PairOf(contract, completed + [e], key).Some? ==>
            || PairOf(contract, completed, key).Some?
            || AssessCandidate(contract, e.candidate, completed).value.effect == CompletesPair)
  {
    AssessmentPredictsPair(contract, e.candidate, completed, e);
  }

  /** The update of a pair would draw on two effects of one identifier. */
  predicate PairRepeats(arm: Arm, s: LoopState, pair: MatchedPair) {
    var item := EvidenceFromPair(arm.laws.name, pair);
    UpdateRepeats(arm.spec.model, s.effects, item.group, s.belief.sequence + 1, item.id)
  }

  /** An execution's evidence, if it has any, is new; it updates the belief and keeps the evidence exact
      unless its sources repeat an identifier, and then the step fails for that reason. */
  lemma AbsorbKeepsEvidence(arm: Arm, s: LoopState, e: CompletedExperiment, x: LoopState)
    requires SoundArm(arm) && EvidenceExact(arm, s)
    requires AllRegistered(arm.contract, s.completed) && DistinctRecords(s.completed + [e]) && !IsCompleted(e.candidate, s.completed)
    requires AssessCandidate(arm.contract, e.candidate, s.completed).Ok?
    requires Admissible(AssessCandidate(arm.contract, e.candidate, s.completed).value.effect)
    requires x == s.(completed := s.completed + [e], cumulativeCost := x.cumulativeCost, decisions := x.decisions, log := x.log)
    ensures Absorbed(arm, x).Ok? <==>
      NewPair(arm, s.completed, e).None? || !PairRepeats(arm, s, NewPair(arm, s.completed, e).value)
    ensures Absorbed(arm, x).Ok? ==> EvidenceExact(arm, Absorbed(arm, x).value)
    ensures Absorbed(arm, x).Err? ==> Absorbed(arm, x) == Err(BeliefUpdateFailed(RepeatedSources))
    ensures NewPair(arm, s.completed, e).None? ==> Absorbed(arm, x) == Ok(x)
    ensures NewPair(arm, s.completed, e).Some? ==>
      && Absorbed(arm, x) == Absorb(arm, x, NewPair(arm, s.completed, e).value)
      && EvidenceFromPair(arm.laws.name, NewPair(arm, s.completed, e).value).id !in s.belief.evidenceIds
  {
    hide AppliedExactly, EvidenceOfPairs, OptimizerState, ReportsSound, NewPair, Absorb, Absorbed, AllRegistered, DistinctRecords,
      IsCompleted, AssessCandidate, SoundGainLaws, PositiveDensity, InjectiveName, Applied, PairRepeats;
    ShapedState(s.belief);
    AbsorbedIsPredicted(arm, s, e, x);
    assert Registered(arm.contract, e.candidate) by { AssessedIsRegistered(arm.contract, e.candidate, s.completed); }
    var pair := NewPair(arm, s.completed, e);
    if pair.None? {
      ExtendEvidenceOfPairs(arm, s, e, s.belief);
      assert s.applied + {} == s.applied && s.evidence + [] == s.evidence;
    } else {
      EvidenceIsNamed(arm.laws.name, arm.contract, LedgerOf(s));
      AbsorbNew(arm, s, x, pair.value);
      if Absorb(arm, x, pair.value).Ok? {
        ExtendEvidenceOfPairs(arm, s, e, Absorb(arm, x, pair.value).value.belief);
      }
    }
  }

  lemma EvidenceIsNamed(name: ((int, int)) -> string, contract: Contract, ledger: Ledger)
    requires EvidenceOfPairs(name, contract, ledger)
    ensures forall item :: item in ledger.evidence ==> item.id == name(item.sources)
  {
  }

  lemma AssessedIsRegistered(contract: Contract, c: Candidate, completed: seq<CompletedExperiment>)
    requires AssessCandidate(contract, c, completed).Ok?
    ensures Registered(contract, c)
  {
  }

  lemma ShapedState(b: BeliefState)
    requires OptimizerState(b)
    ensures WellShaped(b) && ValidState(b)
  {
  }

  /** Absorbing a pair whose sources are new. */
  lemma AbsorbNew(arm: Arm, s: LoopState, x: LoopState, pair: MatchedPair)
    requires PositiveDensity(arm.laws.belief.density) && InjectiveName(arm.laws.name)
    requires OptimizerState(s.belief) && s.belief.evidenceIds == EvidenceIds(s.evidence) && |s.updates| == |s.evidence|
    requires s.applied == Applied(s.evidence) && pair.SourceIds() !in s.applied && ReportsSound(Reports(s.updates))
    requires forall item :: item in s.evidence ==> item.id == arm.laws.name(item.sources)
    requires x.belief == s.belief && x.evidence == s.evidence && x.updates == s.updates && x.applied == s.applied
    requires x.effects == s.effects
    ensures WellShaped(x.belief)
    ensures Absorb(arm, x, pair).Ok? <==> !PairRepeats(arm, s, pair)
    ensures Absorb(arm, x, pair).Err? ==> Absorb(arm, x, pair) == Err(BeliefUpdateFailed(RepeatedSources))
    ensures EvidenceFromPair(arm.laws.name, pair).id !in s.belief.evidenceIds
    ensures Absorb(arm, x, pair).Ok? ==>
      var t := Absorb(arm, x, pair).value;
      && t.completed == x.completed
      && t.evidence == s.evidence + [EvidenceFromPair(arm.laws.name, pair)]
      && t.applied == s.applied + {pair.SourceIds()} == Applied(t.evidence)
      && OptimizerState(t.belief) && t.belief.evidenceIds == EvidenceIds(t.evidence)
      && |t.updates| == |t.evidence| && ReportsSound(Reports(t.updates))
      && t.belief.sequence == s.belief.sequence + 1
  {
    hide PositiveDensity, ValidState, OptimizerIds, UpdateModel, ReportsSound, OutcomeOf, Round12, UpdateRepeats;
    ShapedState(s.belief);
    var item := EvidenceFromPair(arm.laws.name, pair);
    forall i | 0 <= i < |s.evidence| ensures s.evidence[i].id != item.id {
      assert s.evidence[i] in s.evidence;
    }
    UpdateModelSucceeds(arm.laws.belief, arm.spec.model, s.belief, item, x.effects, Reports(x.updates));
    if !PairRepeats(arm, s, pair) {
      var u := UpdateModel(arm.laws.belief, arm.spec.model, s.belief, item, x.effects, Reports(x.updates)).value;
      assert Reports(x.updates + [u]) == Reports(x.updates) + [u.report];
      assert EvidenceIds(s.evidence + [item]) == EvidenceIds(s.evidence) + [item.id];
      assert Applied(s.evidence + [item]) == Applied(s.evidence) + {item.sources} by { AppliedAppend(s.evidence, item); }
    }
  }

  lemma AppliedAppend(evidence: seq<Evidence>, item: Evidence)
    ensures Applied(evidence + [item]) == Applied(evidence) + {item.sources}
  {
    assert item in evidence + [item];
    assert forall e :: e in evidence + [item] <==> e in evidence || e == item;
  }

  // ----- the invariant of effects and updates -----

  /** The decision effects carry the sequences 1, 2, ..., n. */
  function DecisionEffects(evidence: seq<Evidence>): (r: seq<MatchedEffect>)
    ensures |r| == |evidence|
  {
    seq(|evidence|, i requires 0 <= i < |evidence| => EffectOf(evidence[i], i + 1))
  }

  /** Update `i` used the calibration effects and the effects of the updates before it. */
  predicate PrequentialAt(arm: Arm, evidence: seq<Evidence>, u: ModelUpdate, i: nat)
    requires i < |evidence|
  {
    && u.cutoff == i + 1
    && u.bayes.evidence == evidence[i]
    && u.estimate == SelectSigma(arm.laws.belief.deviation, arm.spec.model, arm.calibration + DecisionEffects(evidence[..i]),
                                 evidence[i].group, i + 1, evidence[i].id)
  }

  ghost predicate Prequential(arm: Arm, s: LoopState) {
    && |s.updates| == |s.evidence| == s.belief.sequence
    && s.effects == arm.calibration + DecisionEffects(s.evidence)
    && forall i :: 0 <= i < |s.updates| ==> PrequentialAt(arm, s.evidence, s.updates[i], i)
  }

  lemma AbsorbKeepsPrequential(arm: Arm, x: LoopState, pair: MatchedPair)
    requires WellShaped(x.belief) && Prequential(arm, x) && Absorb(arm, x, pair).Ok?
    requires Absorb(arm, x, pair).value.belief.sequence == x.belief.sequence + 1
    ensures Prequential(arm, Absorb(arm, x, pair).value)
  {
    hide SelectSigma, EvidenceFromPair, Diagnose, Update;
    var t, item := Absorb(arm, x, pair).value, EvidenceFromPair(arm.laws.name, pair);
    UpdateRecords(arm.laws.belief, arm.spec.model, x.belief, item, x.effects, Reports(x.updates));
    hide UpdateModel;
    var n := |x.evidence|;
    assert DecisionEffects(x.evidence + [item]) == DecisionEffects(x.evidence) + [EffectOf(item, n + 1)];
    assert t.effects == arm.calibration + DecisionEffects(t.evidence);
    forall i | 0 <= i < |t.updates| ensures PrequentialAt(arm, t.evidence, t.updates[i], i) {
      if i < n {
        assert t.evidence[..i] == x.evidence[..i];
        assert PrequentialAt(arm, x.evidence, x.updates[i], i);
      } else {
        assert t.evidence[..n] == x.evidence;
      }
    }
  }

  lemma UpdateRecords(laws: BeliefLaws, model: Model, state: BeliefState, evidence: Evidence, history: seq<MatchedEffect>,
                      reports: seq<Report>)
    requires WellShaped(state) && UpdateModel(laws, model, state, evidence, history, reports).Ok?
    ensures var u := UpdateModel(laws, model, state, evidence, history, reports).value;
      && u.cutoff == state.sequence + 1
      && u.bayes.evidence == evidence
      && u.estimate == SelectSigma(laws.deviation, model, history, evidence.group, state.sequence + 1, evidence.id)
  {
    hide SelectSigma, Diagnose, Ordered, Normalise, Likelihoods, HypothesesWithSigma;
  }

  // ----- the invariants of the oracle and of the decisions -----

  function AccessesOf(arm: Arm, completed: seq<CompletedExperiment>): (r: seq<Access>)
    ensures |r| == |completed|
  {
    seq(|completed|, i requires 0 <= i < |completed| => Access(arm.spec.runId, completed[i].candidate.id, completed[i].observed))
  }

  /** The oracle was asked for exactly the completed experiments, in order, and answered with the
      committed outcomes. */
  ghost predicate OracleMatches(arm: Arm, log: OracleLog, s: LoopState) {
    && s.log.accesses == log.accesses + AccessesOf(arm, s.completed)
    && s.log.accessed == log.accessed + (set e | e in s.completed :: (arm.spec.runId, e.candidate.id))
    && forall e :: e in s.completed ==> e.candidate.id in arm.outcomes && e.observed == arm.outcomes[e.candidate.id]
  }

  lemma ExtendOracle(arm: Arm, log: OracleLog, s: LoopState, record: DecisionRecord, t: LoopState)
    requires OracleMatches(arm, log, s)
    requires Reveal(arm.outcomes, s.log, arm.spec.runId, record.trace.Selected().id) == Ok(t.log)
    requires t.completed == s.completed + [Selection(arm, s, record)]
    ensures OracleMatches(arm, log, t)
  {
    var e := Selection(arm, s, record);
    assert AccessesOf(arm, t.completed) == AccessesOf(arm, s.completed) + [Access(arm.spec.runId, e.candidate.id, e.observed)];
    assert e in t.completed;
    assert forall x :: x in t.completed <==> x in s.completed || x == e;
  }

  /** Decision `i` was about experiment `i`, and recorded its assessment against the ones before. */
  predicate DecisionAt(arm: Arm, completed: seq<CompletedExperiment>, record: DecisionRecord, i: nat)
    requires i < |completed|
  {
    && record.trace.Selected() == completed[i].candidate
    && AssessCandidate(arm.contract, completed[i].candidate, completed[..i]).Ok?
    && record.effect == AssessCandidate(arm.contract, completed[i].candidate, completed[..i]).value.effect
    && Admissible(record.effect)
    && CostOf(arm.costs, completed[i].candidate.id).Ok?
    && CostOf(arm.costs, completed[i].candidate.id).value <= record.remaining
    && record.remaining == arm.spec.budget - RunningCost(arm.costs, completed[..i])
  }

  ghost predicate DecisionsMatch(arm: Arm, s: LoopState) {
    && |s.decisions| == |s.completed|
    && (forall i :: 0 <= i < |s.decisions| ==> DecisionAt(arm, s.completed, s.decisions[i], i))
    && |s.updates| == Closers(s.decisions)
  }

  /** How many decisions completed a pair. */
  function Closers(decisions: seq<DecisionRecord>): nat {
    if |decisions| == 0 then 0
    else Closers(decisions[..|decisions| - 1]) + (if decisions[|decisions| - 1].effect == CompletesPair then 1 else 0)
  }

  lemma ExtendDecisions(arm: Arm, s: LoopState, feasible: seq<Candidate>, record: DecisionRecord, t: LoopState)
    requires DecisionsMatch(arm, s) && s.cumulativeCost == RunningCost(arm.costs, s.completed)
    requires Selects(arm, s.completed, feasible, arm.spec.budget - s.cumulativeCost, record)
    requires t.completed == s.completed + [Selection(arm, s, record)] && t.decisions == s.decisions + [record]
    requires |t.updates| == |s.updates| + (if record.effect == CompletesPair then 1 else 0)
    ensures DecisionsMatch(arm, t)
  {
    hide AssessCandidate, IsCompleted, CostOf, RunningCost;
    assert t.decisions[..|s.decisions|] == s.decisions;
    forall i | 0 <= i < |t.decisions| ensures DecisionAt(arm, t.completed, t.decisions[i], i) {
      if i < |s.decisions| {
        assert t.completed[..i] == s.completed[..i];
        assert DecisionAt(arm, s.completed, s.decisions[i], i);
      } else {
        assert t.completed[..i] == s.completed;
      }
    }
  }

  // ----- a fixed-sigma run is a synchronised store -----

  /** The belief of a fixed-sigma run is the exact posterior of its evidence. */
  ghost predicate FixedExact(arm: Arm, s: LoopState) {
    arm.spec.model.FixedSigma? ==> ExactLedger(arm.laws.belief.density, arm.laws.name, LedgerOf(s))
  }

  lemma AbsorbKeepsFixedExact(arm: Arm, x: LoopState, pair: MatchedPair)
    requires PositiveDensity(arm.laws.belief.density) && OptimizerState(x.belief) && FixedExact(arm, x)
    requires WellShaped(x.belief) && Absorb(arm, x, pair).Ok?
    requires EvidenceFromPair(arm.laws.name, pair).id !in x.belief.evidenceIds
    ensures FixedExact(arm, Absorb(arm, x, pair).value)
  {
    hide EvidenceFromPair, Diagnose, Update, PositiveDensity, ExactLedger, ValidState;
    if arm.spec.model.FixedSigma? {
      var density, item := arm.laws.belief.density, EvidenceFromPair(arm.laws.name, pair);
      LedgerIds(density, arm.laws.name, LedgerOf(x));
      ApplyPairKeepsExact(density, arm.laws.name, LedgerOf(x), pair);
      FixedUpdate(arm.laws.belief, x.belief, item, x.effects, Reports(x.updates));
      hide UpdateModel;
      assert ApplyPair(density, arm.laws.name, LedgerOf(x), pair) == Ok(LedgerOf(Absorb(arm, x, pair).value));
    }
  }

  lemma LedgerIds(density: Density, name: ((int, int)) -> string, ledger: Ledger)
    requires ExactLedger(density, name, ledger)
    ensures ledger.state.evidenceIds == EvidenceIds(ledger.evidence)
  {
  }

  /** A fixed-sigma update is the plain update of the store: it has no sources to repeat. */
  lemma FixedUpdate(laws: BeliefLaws, state: BeliefState, evidence: Evidence, history: seq<MatchedEffect>, reports: seq<Report>)
    requires WellShaped(state)
    ensures match Update(laws.density, OptimizerEffectHypotheses(), state, evidence)
      case Ok(b) => UpdateModel(laws, FixedSigma, state, evidence, history, reports).Ok?
                    && UpdateModel(laws, FixedSigma, state, evidence, history, reports).value.bayes == b
      case Err(e) => UpdateModel(laws, FixedSigma, state, evidence, history, reports) == Err(e)
  {
    hide Update, Diagnose, HypothesesWithSigma;
  }
}
