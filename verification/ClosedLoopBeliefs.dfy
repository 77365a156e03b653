/** What the evidence and the belief of every run mean: each applied pair is the one completion in either arm of its
    comparison, and each update moves the belief towards the arm that did better. */
module ClosedLoopBeliefs {
  import opened Wrappers
  import opened RealSums
  import opened Information
  import opened Ordering
  import opened Rounding
  import opened EvidenceEligibility
  import opened Reasoning
  import opened OptimizerEffect
  import opened BeliefModels
  import opened EvidenceMeaning
  import opened SigmaMeaning
  import opened OneStepPolicy
  import opened PredictionAdapter
  import opened ClosedLoop
  import opened ClosedLoopRuns
  import opened ClosedLoopSafety
  import opened ClosedLoopTrace

  /** At every head the evidence is exactly that of the matched comparisons. */
  lemma HeadEvidence(arm: Arm, log: OracleLog, s: LoopState)
    requires HeadInvariant(arm, log, s) && UniqueDesigns(arm.contract)
    ensures HoldsMatches(arm.laws.name, arm.contract, s.completed, s.evidence)
  {
    hide Prequential, OracleMatches, DecisionsMatch, FixedExact, ExperimentsInOrder, AppliedExactly, ReportsSound, OptimizerState,
      HoldsMatches, EvidenceOfPairs;
    MatchedEvidence(arm.laws.name, arm.contract, LedgerOf(s));
  }

  /** Update `k` of a run, made by decision `i`: from the belief after `k` updates to the one after the next, by
      Bayes' rule over the three hypotheses, on evidence of the comparison of experiment `i`, with the sigma that
      the calibration effects and the earlier evidence of its group give, and reported against the belief before it. */
  ghost predicate UpdateMeans(arm: Arm, s: LoopState, i: nat, k: nat)
    requires i < |s.completed| && k < |s.updates| == |s.evidence|
  {
    var u, e, d := s.updates[k], s.evidence[k], DesignFor(arm.contract, s.completed[i].candidate);
    && d.Some? && e.group == d.value.group
    && EvidenceOfMatch(arm.laws.name, arm.contract, s.completed[..i + 1], d.value.Key(), e)
    && u.estimate == SelectSigma(arm.laws.belief.deviation, arm.spec.model, arm.calibration + DecisionEffects(s.evidence[..k]),
                                 e.group, k + 1, e.id)
    && |BeliefAfter(s.updates, k).posterior| == 3
    && u.report == Diagnose(arm.laws.belief, HypothesesWithSigma(u.estimate.sigma), u.estimate.sigma, BeliefAfter(s.updates, k).posterior,
                            e.comparison, Reports(s.updates[..k]))
    && MovedTogether(arm.laws.belief.density, u.estimate.sigma, e.comparison, BeliefAfter(s.updates, k).posterior,
                     BeliefAfter(s.updates, k + 1).posterior, u.bayes.normalization)
  }

  /** The pair a step absorbs is the match of the selected candidate's comparison. */
  lemma NewPairMatches(arm: Arm, completed: seq<CompletedExperiment>, e: CompletedExperiment, pair: MatchedPair)
    requires AllRegistered(arm.contract, completed) && !IsCompleted(e.candidate, completed) && UniqueDesigns(arm.contract)
    requires NewPair(arm, completed, e) == Some(pair)
    ensures DesignFor(arm.contract, e.candidate).Some?
    ensures pair.group == DesignFor(arm.contract, e.candidate).value.group
    ensures EvidenceOfMatch(arm.laws.name, arm.contract, completed + [e], DesignFor(arm.contract, e.candidate).value.Key(),
                            EvidenceFromPair(arm.laws.name, pair))
  {
    hide EvidenceOfMatch, EvidenceFromPair, PairOf, AssessRegistered, AllRegistered, IsCompleted;
    var design := DesignFor(arm.contract, e.candidate).value;
    AssessmentPredictsPair(arm.contract, e.candidate, completed, e);
    EvidenceDetermined(arm.laws.name, arm.contract, completed + [e], design.Key(), EvidenceFromPair(arm.laws.name, pair));
  }

  /** What absorbing one pair does to the belief. */
  lemma AbsorbMoves(arm: Arm, x: LoopState, pair: MatchedPair)
    requires OptimizerState(x.belief) && WellShaped(x.belief) && Absorb(arm, x, pair).Ok?
    ensures var t, item := Absorb(arm, x, pair).value, EvidenceFromPair(arm.laws.name, pair);
      && t.evidence == x.evidence + [item] && |t.updates| == |x.updates| + 1
      && var u := t.updates[|x.updates|];
      && t.updates == x.updates + [u] && t.belief == u.bayes.after
      && u.report == Diagnose(arm.laws.belief, HypothesesWithSigma(u.estimate.sigma), u.estimate.sigma, x.belief.posterior,
                              item.comparison, Reports(x.updates))
      && MovedTogether(arm.laws.belief.density, u.estimate.sigma, item.comparison, x.belief.posterior, t.belief.posterior,
                       u.bayes.normalization)
  {
    hide SelectSigma, Diagnose, Update, EvidenceFromPair, MovedTogether, HypothesesWithSigma;
    var item := EvidenceFromPair(arm.laws.name, pair);
    var u := UpdateModel(arm.laws.belief, arm.spec.model, x.belief, item, x.effects, Reports(x.updates)).value;
    OptimizerStateOverThree(x.belief);
    UpdateMovesTogether(arm.laws.belief.density, u.estimate.sigma, x.belief, item);
  }

  lemma HeadShape(arm: Arm, log: OracleLog, s: LoopState)
    requires HeadInvariant(arm, log, s)
    ensures OptimizerState(s.belief) && AllRegistered(arm.contract, s.completed) && Prequential(arm, s)
  {
  }

  /** Every decision that completes a pair has made its update. */
  lemma EveryUpdate(arm: Arm, log: OracleLog, n: nat, i: nat)
    requires SoundArm(arm) && UniqueDesigns(arm.contract) && i < n && HeadAt(arm, Start(arm, log), n).Some?
    ensures var s := HeadAt(arm, Start(arm, log), n).value;
      && |s.decisions| == |s.completed| == n && |s.updates| == |s.evidence|
      && (s.decisions[i].effect == CompletesPair ==>
            && Closers(s.decisions[..i]) < |s.updates|
            && UpdateMeans(arm, s, i, Closers(s.decisions[..i])))
  {
    hide Next, Start, SoundArm, HeadInvariant, RunningCost, OptimizerState, Closers, BeliefAfter, EvidenceIds, HeadAt, UpdateMeans;
    HeadIsPrefix(arm, log, i, n);
    HeadIsPrefix(arm, log, i + 1, n);
    HeadIsPrefix(arm, log, n, n);
    var s, t, final := HeadAt(arm, Start(arm, log), i).value, HeadAt(arm, Start(arm, log), i + 1).value, HeadAt(arm, Start(arm, log), n).value;
    ClosersStep(final.decisions, i);
    if final.decisions[i].effect == CompletesPair {
      HeadFollows(arm, Start(arm, log), i);
      StepUpdates(arm, log, s, t, final, i);
    }
  }

  /** One step that adds an update, as the records of a later head tell it. */
  lemma StepUpdates(arm: Arm, log: OracleLog, s: LoopState, t: LoopState, final: LoopState, i: nat)
    requires SoundArm(arm) && UniqueDesigns(arm.contract) && HeadInvariant(arm, log, s) && HeadInvariant(arm, log, t)
    requires Next(arm, s) == Ok(Some(t)) && |t.updates| > |s.updates|
    requires i == |s.completed| && |t.completed| == i + 1 <= |final.completed| && t.completed == final.completed[..i + 1]
    requires |s.updates| == |s.evidence| && |t.updates| == |t.evidence| <= |final.updates| == |final.evidence|
    requires t.updates == final.updates[..|t.updates|] && t.evidence == final.evidence[..|t.evidence|]
    requires s.belief == BeliefAfter(final.updates, |s.updates|)
    ensures UpdateMeans(arm, final, i, |s.updates|)
  {
    hide Next, SoundArm, HeadInvariant, OptimizerState, EvidenceIds, MovedTogether, EvidenceOfMatch, SelectSigma, Absorb, NewPair,
      EvidenceFromPair, DesignFor, AllRegistered, IsCompleted, UniqueDesigns, BuildAdapter, UpdateMeans, Diagnose, HypothesesWithSigma;
    var record, e, x, pair := CompletingStep(arm, log, s);
    HeadShape(arm, log, s);
    HeadShape(arm, log, t);
    SelectedIsOpen(arm, log, s, e);
    NewPairMatches(arm, s.completed, e, pair);
    AbsorbMoves(arm, x, pair);
    PairGroup(arm, s.completed, e);
    var k, item, u := |s.updates|, EvidenceFromPair(arm.laws.name, pair), t.updates[|s.updates|];
    assert PrequentialAt(arm, t.evidence, t.updates[k], k);
    assert t.evidence[..k] == final.evidence[..k];
    assert x.updates == final.updates[..k] && t.completed == s.completed + [e];
    UpdateFrom(arm, final, i, k, u, item);
  }

  lemma UpdateFrom(arm: Arm, s: LoopState, i: nat, k: nat, u: ModelUpdate, e: Evidence)
    requires i < |s.completed| && k < |s.updates| == |s.evidence| && u == s.updates[k] && e == s.evidence[k]
    requires DesignFor(arm.contract, s.completed[i].candidate).Some?
    requires e.group == DesignFor(arm.contract, s.completed[i].candidate).value.group
    requires EvidenceOfMatch(arm.laws.name, arm.contract, s.completed[..i + 1], DesignFor(arm.contract, s.completed[i].candidate).value.Key(), e)
    requires u.estimate == SelectSigma(arm.laws.belief.deviation, arm.spec.model, arm.calibration + DecisionEffects(s.evidence[..k]),
                                       e.group, k + 1, e.id)
    requires |BeliefAfter(s.updates, k).posterior| == 3
    requires u.report == Diagnose(arm.laws.belief, HypothesesWithSigma(u.estimate.sigma), u.estimate.sigma, BeliefAfter(s.updates, k).posterior,
                                  e.comparison, Reports(s.updates[..k]))
    requires MovedTogether(arm.laws.belief.density, u.estimate.sigma, e.comparison, BeliefAfter(s.updates, k).posterior,
                           u.bayes.after.posterior, u.bayes.normalization)
    ensures UpdateMeans(arm, s, i, k)
  {
    hide DesignFor, EvidenceOfMatch, SelectSigma, Diagnose, MovedTogether, HypothesesWithSigma;
  }

  /** The experiment a step adds was open. */
  lemma SelectedIsOpen(arm: Arm, log: OracleLog, s: LoopState, e: CompletedExperiment)
    requires SoundArm(arm) && HeadInvariant(arm, log, s)
    requires Next(arm, s).Ok? && Next(arm, s).value.Some? && Next(arm, s).value.value.completed == s.completed + [e]
    ensures !IsCompleted(e.candidate, s.completed)
  {
    hide Next, SoundArm, HeadInvariant, Absorbed, CostOf, IsCompleted, AssessCandidate, BuildAdapter, Reveal, ExperimentsInOrder, Round12;
    var feasible, record, x, t := StepFacts(arm, log, s);
    assert e == (s.completed + [e])[|s.completed|] == (s.completed + [Selection(arm, s, record)])[|s.completed|] == Selection(arm, s, record);
  }

  /** The effects a head has seen: the calibration effects, and one for every evidence under its name and group,
      with its comparison, available to the updates after its own. */
  lemma HeadEffectsMeaning(arm: Arm, s: LoopState, k: nat)
    requires Prequential(arm, s) && k < |s.evidence|
    ensures |s.effects| == |arm.calibration| + |s.evidence| && arm.calibration <= s.effects
    ensures var effect, e := s.effects[|arm.calibration| + k], s.evidence[k];
      effect.id == e.id && effect.group == e.group && effect.observed == e.comparison && effect.availableSequence == k + 1
  {
    hide SelectSigma;
  }

  /** The belief of a run follows its evidence: an update on a pair whose Adam arm is ahead never lowers the odds
      of adam-advantage against sgd-advantage, and one whose SGD arm is ahead never raises them. */
  lemma RunFollowsEvidence(arm: Arm, log: OracleLog, n: nat, i: nat)
    requires SoundArm(arm) && UniqueDesigns(arm.contract) && i < n && HeadAt(arm, Start(arm, log), n).Some?
    requires forall sigma :: sigma >= 0.05 ==> NeverRises(arm.laws.belief.density, sigma)
    ensures var s := HeadAt(arm, Start(arm, log), n).value;
      |s.decisions| == n && (s.decisions[i].effect == CompletesPair ==>
        var k := Closers(s.decisions[..i]);
        && k < |s.updates| == |s.evidence|
        && var before, after := BeliefAfter(s.updates, k).posterior, BeliefAfter(s.updates, k + 1).posterior;
        && |before| == |after| == 3
        && (s.evidence[k].comparison >= 0.0 ==> OddsKept(before, after, 0, 2))
        && (s.evidence[k].comparison <= 0.0 ==> OddsKept(before, after, 2, 0)))
  {
    hide Next, Start, SoundArm, HeadInvariant, RunningCost, OptimizerState, Closers, BeliefAfter, EvidenceIds, HeadAt, NeverRises, OddsKept,
      SelectSigma, EvidenceOfMatch, DesignFor, UniqueDesigns;
    EveryUpdate(arm, log, n, i);
    var s := HeadAt(arm, Start(arm, log), n).value;
    if s.decisions[i].effect == CompletesPair {
      var k := Closers(s.decisions[..i]);
      HeadIsPrefix(arm, log, i, n);
      var u, x := s.updates[k], s.evidence[k].comparison;
      var before, after := BeliefAfter(s.updates, k), BeliefAfter(s.updates, k + 1);
      OptimizerStateOverThree(before);
      SigmaAtLeastFloor(arm.laws.belief.deviation, arm.spec.model, arm.calibration + DecisionEffects(s.evidence[..k]),
                        s.evidence[k].group, k + 1, s.evidence[k].id);
      DistanceOrder(x, 0, 2);
      DistanceOrder(x, 2, 0);
      if x >= 0.0 {
        NearerKept(arm.laws.belief.density, u.estimate.sigma, x, before.posterior, after.posterior, u.bayes.normalization, 0, 2);
      }
      if x <= 0.0 {
        NearerKept(arm.laws.belief.density, u.estimate.sigma, x, before.posterior, after.posterior, u.bayes.normalization, 2, 0);
      }
    }
  }
}
