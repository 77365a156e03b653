/** When a closed-loop run succeeds: the runtime comparison with the base policies never fails, and a
    step fails exactly when an estimate would use one effect identifier twice or when the planners refuse
    what the loop's slack let through. */
module ClosedLoopProgress {
  import opened Wrappers
  import opened RealSums
  import opened Information
  import opened Ordering
  import opened Rounding
  import opened EvidenceEligibility
  import opened Reasoning
  import opened OptimizerEffect
  import opened BeliefModels
  import opened EvidenceOutcomes
  import opened OneStepPolicy
  import opened LookaheadPolicy
  import opened PredictionAdapter
  import opened AdapterRefinement
  import opened LookaheadMeaning
  import opened ClosedLoop
  import opened ClosedLoopRuns
  import opened ClosedLoopSafety
  import opened ClosedLoopDecisions

  // ----- choosing -----

  /** The adapter a fixed-sigma arm builds predicts every group with the same hypotheses. */
  lemma FixedAdapterShares(deviation: Deviation, state: BeliefState, history: seq<MatchedEffect>, adapter: Adapter)
    requires BuiltAdapter(deviation, FixedSigma, state, history, adapter.contract, adapter)
    ensures adapter.snapshots[0].hypotheses == HypothesesWithSigma(FIXED_SIGMA)
    ensures SharedHypotheses(adapter, adapter.snapshots[0].hypotheses)
    ensures Ordered(adapter.snapshots[0].hypotheses) == adapter.snapshots[0].hypotheses
    ensures HypothesisIds(adapter.snapshots[0].hypotheses) == OptimizerIds()
  {
    hide Ordered, HypothesesWithSigma, HypothesisIds, OptimizerIds;
    HypothesesOrdered(FIXED_SIGMA);
    IdsIgnoreSigma(FIXED_SIGMA);
    assert adapter.snapshots[0] in adapter.snapshots;
  }

  /** In every arm the choice succeeds exactly when some candidate is on offer, and is then the best of the arm's
      own policy; the comparison with the base policy never fails, nor does any other step of planning. */
  lemma ChoiceExact(arm: Arm, adapter: Adapter, problem: Problem, belief: BeliefState, effects: seq<MatchedEffect>)
    requires SoundGainLaws(arm.laws.gain) && OptimizerState(belief) && WellShaped(belief)
    requires BuiltAdapter(arm.laws.belief.deviation, arm.spec.model, belief, effects, arm.contract, adapter)
    requires problem.contract == arm.contract && Answerable(problem) && problem.budget >= 0.0
    ensures |adapter.snapshots| > 0
    ensures if SomeOffer(problem) then
        && ChoosePolicy(arm, adapter, problem, belief).Ok?
        && BestChoice(arm.spec.policy, arm.laws.gain, problem, GroupHypotheses(adapter), belief.posterior,
                      ChoosePolicy(arm, adapter, problem, belief).value)
      else ChoosePolicy(arm, adapter, problem, belief) == Err(PlanningFailed(NoFeasibleCandidate))
  {
    hide ChoosePolicy, Answerable, SomeOffer, SoundGainLaws, ValidState, BuiltAdapter, SoundAdapter, Ordered, HypothesisIds, OptimizerIds,
      BestChoice, GroupHypotheses;
    ChoiceSucceeds(arm, adapter, problem, belief, effects);
    BuiltAdapterNonEmpty(arm, belief, effects, adapter);
    BuiltAdapterSound(arm.laws.belief.deviation, arm.spec.model, belief, effects, adapter);
    if SomeOffer(problem) {
      ChoiceMeaning(arm, adapter, problem, belief);
    }
  }

  lemma ChoiceSucceeds(arm: Arm, adapter: Adapter, problem: Problem, belief: BeliefState, effects: seq<MatchedEffect>)
    requires SoundGainLaws(arm.laws.gain) && OptimizerState(belief) && WellShaped(belief)
    requires BuiltAdapter(arm.laws.belief.deviation, arm.spec.model, belief, effects, arm.contract, adapter)
    requires problem.contract == arm.contract && Answerable(problem) && problem.budget >= 0.0
    ensures |adapter.snapshots| > 0
    ensures if SomeOffer(problem) then ChoosePolicy(arm, adapter, problem, belief).Ok?
      else ChoosePolicy(arm, adapter, problem, belief) == Err(PlanningFailed(NoFeasibleCandidate))
  {
    hide DecideAdapted, DecideLookaheadAdapted, Decide, DecideLookahead, Answerable, SomeOffer, SoundGainLaws, ValidState,
      BuiltAdapter, SoundAdapter, Ordered, HypothesisIds, OptimizerIds, SharedHypotheses, BestScore, LeastPlan, HypothesesWithSigma;
    BuiltAdapterNonEmpty(arm, belief, effects, adapter);
    BuiltAdapterSound(arm.laws.belief.deviation, arm.spec.model, belief, effects, adapter);
    match arm.spec.policy
    case InformationGain =>
      DecideAdaptedExact(arm.laws.gain, adapter, problem, belief);
      if arm.spec.model.FixedSigma? {
        FixedAdapterShares(arm.laws.belief.deviation, belief, effects, adapter);
        OneStepRefines(arm.laws.gain, adapter, problem, adapter.snapshots[0].hypotheses, belief);
      }
    case Lookahead =>
      DecideLookaheadAdaptedExact(arm.laws.gain, adapter, problem, belief);
      if arm.spec.model.FixedSigma? {
        FixedAdapterShares(arm.laws.belief.deviation, belief, effects, adapter);
        SnapshotSigmas(adapter, 3);
        TwoStepRefines(arm.laws.gain, adapter, problem, adapter.snapshots[0].hypotheses, belief);
      }
  }

  lemma BuiltAdapterNonEmpty(arm: Arm, belief: BeliefState, effects: seq<MatchedEffect>, adapter: Adapter)
    requires BuiltAdapter(arm.laws.belief.deviation, arm.spec.model, belief, effects, arm.contract, adapter)
    ensures |adapter.snapshots| > 0 && adapter.contract == arm.contract
  {
  }

  lemma SnapshotSigmas(adapter: Adapter, size: nat)
    requires SoundAdapter(adapter, size)
    ensures |adapter.snapshots| > 0 && PositiveSigmas(adapter.snapshots[0].hypotheses) && |adapter.snapshots[0].hypotheses| == size
  {
    assert adapter.snapshots[0] in adapter.snapshots;
  }

  /** The regression comparison holds whenever it is made: a fixed-sigma arm never reports that its
      adapter changed the policy's behaviour, whatever is registered, offered or affordable. */
  lemma NoRegressionMismatch(arm: Arm, adapter: Adapter, problem: Problem, belief: BeliefState, effects: seq<MatchedEffect>)
    requires SoundGainLaws(arm.laws.gain) && OptimizerState(belief) && WellShaped(belief)
    requires BuiltAdapter(arm.laws.belief.deviation, arm.spec.model, belief, effects, arm.contract, adapter)
    requires problem.contract == arm.contract
    ensures |adapter.snapshots| > 0 && ChoosePolicy(arm, adapter, problem, belief) != Err(RegressionMismatch)
  {
    hide DecideAdapted, DecideLookaheadAdapted, Decide, DecideLookahead, SoundGainLaws, ValidState, CostOf,
      BuiltAdapter, SoundAdapter, Ordered, HypothesisIds, OptimizerIds, SharedHypotheses, HypothesesWithSigma;
    BuiltAdapterNonEmpty(arm, belief, effects, adapter);
    BuiltAdapterSound(arm.laws.belief.deviation, arm.spec.model, belief, effects, adapter);
    if arm.spec.model.FixedSigma? {
      FixedAdapterShares(arm.laws.belief.deviation, belief, effects, adapter);
      SnapshotSigmas(adapter, 3);
      OneStepRefines(arm.laws.gain, adapter, problem, adapter.snapshots[0].hypotheses, belief);
      TwoStepRefines(arm.laws.gain, adapter, problem, adapter.snapshots[0].hypotheses, belief);
    }
  }

  // ----- one step -----

  /** Everything the loop will ask for is there: a run identifier, an optimizer group, and for every candidate a design, a
      valid cost, a committed outcome, and no earlier reveal in this run. */
  ghost predicate ReadyArm(arm: Arm, log: OracleLog) {
    && SoundArm(arm)
    && !Blank(arm.spec.runId)
    && (exists d :: d in arm.contract.designs && d.IsOptimizerEffect())
    && forall c :: c in arm.candidates ==> ReadyCandidate(arm, log, c)
  }

  predicate ReadyCandidate(arm: Arm, log: OracleLog, c: Candidate) {
    && Registered(arm.contract, c) && CostOf(arm.costs, c.id).Ok?
    && c.id in arm.outcomes && (arm.spec.runId, c.id) !in log.accessed
  }

  /** The candidate is open and fits what remains, with the slack of the loop's own filter. */
  predicate WithinSlack(arm: Arm, s: LoopState, c: Candidate) {
    && !IsCompleted(c, s.completed) && CostOf(arm.costs, c.id).Ok?
    && CostOf(arm.costs, c.id).value <= arm.spec.budget - s.cumulativeCost + POSITIVE_INFORMATION_TOLERANCE
  }

  /** The candidate is open, fits what remains without slack, and is not excluded. */
  predicate Plannable(arm: Arm, s: LoopState, c: Candidate) {
    && !IsCompleted(c, s.completed) && CostOf(arm.costs, c.id).Ok?
    && CostOf(arm.costs, c.id).value <= arm.spec.budget - s.cumulativeCost
    && AssessCandidate(arm.contract, c, s.completed).Ok?
    && Admissible(AssessCandidate(arm.contract, c, s.completed).value.effect)
  }

  /** A calibrated arm sees two effects of one identifier in an optimizer group. */
  predicate SourcesRepeated(arm: Arm, s: LoopState) {
    GroupRepeats(arm.spec.model, s.effects, arm.contract, s.belief.sequence + 1)
  }

  /** The loop finds a candidate, and either no adapter can be built or the planners refuse everything. */
  ghost predicate Stuck(arm: Arm, s: LoopState) {
    && (exists c :: c in arm.candidates && WithinSlack(arm, s, c))
    && (SourcesRepeated(arm, s) || !exists c :: c in arm.candidates && Plannable(arm, s, c))
  }

  lemma OffersArePlannable(arm: Arm, s: LoopState, feasible: seq<Candidate>, c: Candidate)
    requires c in feasible && Registered(arm.contract, c) && AllRegistered(arm.contract, s.completed)
    ensures IsOffered(ProblemAt(arm, s.completed, feasible, arm.spec.budget - s.cumulativeCost), c) <==> Plannable(arm, s, c)
  {
    hide AssessRegistered, DesignFor;
  }

  /** At every loop head of a ready arm a step fails if and only if the head is stuck: because sources
      repeat, and otherwise because no candidate is feasible or, once rounding has used up more than the
      budget, because nothing is left to plan with. */
  lemma StepFailsIffStuck(arm: Arm, log: OracleLog, s: LoopState)
    requires ReadyArm(arm, log) && HeadInvariant(arm, log, s)
    ensures Next(arm, s).Err? <==> Stuck(arm, s)
    ensures Next(arm, s).Err? ==>
      Next(arm, s).error ==
        if SourcesRepeated(arm, s) then AdapterFailed(RepeatedSourceEffects)
        else PlanningFailed(if s.cumulativeCost <= arm.spec.budget then NoFeasibleCandidate else InvalidBudget)
  {
    hide Decided, Executed, Absorbed, CostOf, IsCompleted, HeadInvariant, AssessCandidate, SoundArm, Affordable, Registered,
      Plannable, DesignFor, SourcesRepeated;
    var remaining := arm.spec.budget - s.cumulativeCost;
    var open := Uncompleted(arm, s.completed);
    UncompletedMembers(arm, s.completed);
    forall c | c in open ensures CostOf(arm.costs, c.id).Ok? {
      assert ReadyCandidate(arm, log, c);
    }
    AffordableIff(arm.costs, open, remaining);
    AffordableMembers(arm.costs, open, remaining);
    var feasible := Affordable(arm.costs, open, remaining).value;
    if |feasible| == 0 {
      forall c | c in arm.candidates ensures !WithinSlack(arm, s, c) {
        assert c !in feasible;
      }
    } else {
      assert feasible[0] in feasible && WithinSlack(arm, s, feasible[0]);
      FeasibleStep(arm, log, s, feasible);
    }
  }

  /** A step with something feasible succeeds exactly when no sources repeat and something feasible is
      plannable. */
  lemma FeasibleStep(arm: Arm, log: OracleLog, s: LoopState, feasible: seq<Candidate>)
    requires ReadyArm(arm, log) && HeadInvariant(arm, log, s)
    requires Affordable(arm.costs, Uncompleted(arm, s.completed), arm.spec.budget - s.cumulativeCost) == Ok(feasible) && |feasible| > 0
    ensures if SourcesRepeated(arm, s) then Next(arm, s) == Err(AdapterFailed(RepeatedSourceEffects))
      else if exists c :: c in arm.candidates && Plannable(arm, s, c) then Next(arm, s).Ok?
      else Next(arm, s) == Err(PlanningFailed(if s.cumulativeCost <= arm.spec.budget then NoFeasibleCandidate else InvalidBudget))
  {
    hide ChoosePolicy, BuildAdapter, Executed, Absorbed, CostOf, IsCompleted, HeadInvariant, AssessCandidate, Affordable,
      Registered, Plannable, DesignFor, SomeOffer, SoundGainLaws, PositiveDensity, InjectiveName, Answerable, IsOffered,
      AllRegistered, BuiltAdapter, RecordedEffect, GroupRepeats;
    var remaining := arm.spec.budget - s.cumulativeCost;
    var problem := ProblemAt(arm, s.completed, feasible, remaining);
    HeadParts(arm, log, s);
    FeasibleAnswerable(arm, log, s, feasible);
    PlannableIsOffered(arm, log, s, feasible);
    AdapterIsBuilt(arm.laws.belief.deviation, arm.spec.model, s.belief, s.effects, arm.contract);
    if !SourcesRepeated(arm, s) {
      var adapter := BuildAdapter(arm.laws.belief.deviation, arm.spec.model, s.belief, s.effects, arm.contract).value;
      if remaining < 0.0 {
        NothingPlannable(arm, s);
        NegativeBudgetFails(arm, adapter, problem, s.belief);
      } else {
        ChoiceSucceeds(arm, adapter, problem, s.belief, s.effects);
        if SomeOffer(problem) {
          DecidedStep(arm, log, s, feasible, adapter);
        }
      }
    }
  }

  lemma HeadParts(arm: Arm, log: OracleLog, s: LoopState)
    requires HeadInvariant(arm, log, s)
    ensures OptimizerState(s.belief) && AllRegistered(arm.contract, s.completed)
  {
  }

  lemma FeasibleAnswerable(arm: Arm, log: OracleLog, s: LoopState, feasible: seq<Candidate>)
    requires ReadyArm(arm, log) && HeadInvariant(arm, log, s)
    requires Affordable(arm.costs, Uncompleted(arm, s.completed), arm.spec.budget - s.cumulativeCost) == Ok(feasible)
    ensures Answerable(ProblemAt(arm, s.completed, feasible, arm.spec.budget - s.cumulativeCost))
    ensures forall c :: c in feasible ==> c in arm.candidates
  {
    hide CostOf, IsCompleted, DesignFor, HeadInvariant, SoundArm, Affordable, Uncompleted, AllRegistered;
    HeadParts(arm, log, s);
    AffordableMembers(arm.costs, Uncompleted(arm, s.completed), arm.spec.budget - s.cumulativeCost);
    UncompletedMembers(arm, s.completed);
    var problem := ProblemAt(arm, s.completed, feasible, arm.spec.budget - s.cumulativeCost);
    forall c | c in problem.candidates ensures AnswerableCandidate(problem, c) {
      assert ReadyCandidate(arm, log, c);
    }
  }

  lemma PlannableIsOffered(arm: Arm, log: OracleLog, s: LoopState, feasible: seq<Candidate>)
    requires ReadyArm(arm, log) && HeadInvariant(arm, log, s)
    requires Affordable(arm.costs, Uncompleted(arm, s.completed), arm.spec.budget - s.cumulativeCost) == Ok(feasible)
    ensures SomeOffer(ProblemAt(arm, s.completed, feasible, arm.spec.budget - s.cumulativeCost)) <==>
      exists c :: c in arm.candidates && Plannable(arm, s, c)
  {
    hide CostOf, IsCompleted, DesignFor, HeadInvariant, SoundArm, Affordable, Uncompleted, AllRegistered, AssessCandidate, IsOffered;
    HeadParts(arm, log, s);
    AffordableMembers(arm.costs, Uncompleted(arm, s.completed), arm.spec.budget - s.cumulativeCost);
    UncompletedMembers(arm, s.completed);
    var problem := ProblemAt(arm, s.completed, feasible, arm.spec.budget - s.cumulativeCost);
    forall c | c in feasible ensures IsOffered(problem, c) <==> Plannable(arm, s, c) {
      assert ReadyCandidate(arm, log, c);
      OffersArePlannable(arm, s, feasible, c);
    }
    forall c | c in arm.candidates && Plannable(arm, s, c) ensures c in feasible {
    }
  }

  lemma NothingPlannable(arm: Arm, s: LoopState)
    requires arm.spec.budget - s.cumulativeCost < 0.0
    ensures forall c :: c in arm.candidates ==> !Plannable(arm, s, c)
  {
    hide AssessCandidate, IsCompleted;
  }

  lemma NegativeBudgetFails(arm: Arm, adapter: Adapter, problem: Problem, belief: BeliefState)
    requires |adapter.snapshots| > 0 && WellShaped(belief) && problem.budget < 0.0
    ensures ChoosePolicy(arm, adapter, problem, belief) == Err(PlanningFailed(InvalidBudget))
  {
    hide Offers, Estimates, FirstPlansAdapted, Decide, DecideLookahead, ConcludePlans;
  }

  /** Once a choice is made, the rest of the step cannot fail. */
  lemma DecidedStep(arm: Arm, log: OracleLog, s: LoopState, feasible: seq<Candidate>, adapter: Adapter)
    requires ReadyArm(arm, log) && HeadInvariant(arm, log, s)
    requires Affordable(arm.costs, Uncompleted(arm, s.completed), arm.spec.budget - s.cumulativeCost) == Ok(feasible) && |feasible| > 0
    requires forall c :: c in feasible ==> c in arm.candidates
    requires BuildAdapter(arm.laws.belief.deviation, arm.spec.model, s.belief, s.effects, arm.contract) == Ok(adapter)
    requires ChoosePolicy(arm, adapter, ProblemAt(arm, s.completed, feasible, arm.spec.budget - s.cumulativeCost), s.belief).Ok?
    ensures Next(arm, s).Ok?
  {
    hide ChoosePolicy, BuildAdapter, Executed, Absorbed, CostOf, IsCompleted, AssessCandidate, Affordable, RecordedEffect,
      Registered, DesignFor, SoundArm, AllRegistered, ExperimentsInOrder, EvidenceExact, Prequential, OracleMatches, DecisionsMatch,
      FixedExact, DistinctRecords, Uncompleted, Round12, WellShaped;
    var remaining := arm.spec.budget - s.cumulativeCost;
    RecordSucceeds(arm, s.completed, s.belief, s.effects, feasible, remaining, adapter);
    var record := Decided(arm, s.completed, s.belief, s.effects, feasible, remaining).value;
    DecidedSelects(arm, s.completed, s.belief, s.effects, feasible, remaining);
    hide Decided;
    assert ReadyCandidate(arm, log, record.trace.Selected());
    ExecutionSucceeds(arm, log, s, feasible, record);
    var x, e := Executed(arm, s, feasible, record).value, Selection(arm, s, record);
    ExecutedShape(arm, s, feasible, record);
    ExtendExperiments(arm, s, feasible, record, x);
    OrderedExperiments(arm, s);
    RecordsDistinct(arm, x);
    AbsorbKeepsEvidence(arm, s, e, x);
    if NewPair(arm, s.completed, e).Some? {
      UpdateSourcesDistinct(arm, s, e);
    }
  }

  /** The sources of an update are among those its planner saw. */
  lemma UpdateSourcesDistinct(arm: Arm, s: LoopState, e: CompletedExperiment)
    requires BuildAdapter(arm.laws.belief.deviation, arm.spec.model, s.belief, s.effects, arm.contract).Ok?
    requires NewPair(arm, s.completed, e).Some?
    ensures !PairRepeats(arm, s, NewPair(arm, s.completed, e).value)
  {
    hide BuildAdapter, RepeatedIds, EvidenceFromPair, NewPair, DesignFor;
    var pair := NewPair(arm, s.completed, e).value;
    var item := EvidenceFromPair(arm.laws.name, pair);
    AdapterIsBuilt(arm.laws.belief.deviation, arm.spec.model, s.belief, s.effects, arm.contract);
    PairGroup(arm, s.completed, e);
    if RepeatedIds(s.effects, AvailableExcept(item.group, s.belief.sequence + 1, item.id)) {
      FewerRepeats(s.effects, item.group, s.belief.sequence + 1, item.id);
    }
  }

  lemma RecordSucceeds(arm: Arm, completed: seq<CompletedExperiment>, belief: BeliefState, effects: seq<MatchedEffect>,
                       feasible: seq<Candidate>, remaining: real, adapter: Adapter)
    requires WellShaped(belief)
    requires BuildAdapter(arm.laws.belief.deviation, arm.spec.model, belief, effects, arm.contract) == Ok(adapter)
    requires ChoosePolicy(arm, adapter, ProblemAt(arm, completed, feasible, remaining), belief).Ok?
    requires forall c :: c in feasible ==> Registered(arm.contract, c)
    ensures Decided(arm, completed, belief, effects, feasible, remaining).Ok?
  {
    hide DecideAdapted, DecideLookaheadAdapted, Decide, DecideLookahead, Consider, IsCompleted, CostOf, BuildAdapter, DesignFor,
      AssessRegistered;
    var problem := ProblemAt(arm, completed, feasible, remaining);
    match arm.spec.policy
    case InformationGain => OneStepSelection(arm.laws.gain, adapter, problem, belief);
    case Lookahead => TwoStepSelection(arm.laws.gain, adapter, problem, belief);
  }

  lemma ExecutionSucceeds(arm: Arm, log: OracleLog, s: LoopState, feasible: seq<Candidate>, record: DecisionRecord)
    requires HeadInvariant(arm, log, s) && ReadyCandidate(arm, log, record.trace.Selected()) && !Blank(arm.spec.runId)
    requires Selects(arm, s.completed, feasible, arm.spec.budget - s.cumulativeCost, record)
    ensures Executed(arm, s, feasible, record).Ok?
  {
    hide Round12, CostOf, AssessCandidate, DesignFor, ExperimentsInOrder, EvidenceExact, Prequential, DecisionsMatch, FixedExact;
    var c := record.trace.Selected();
    var i :| 0 <= i < |feasible| && feasible[i] == c;
    assert feasible[i].id == c.id;
    RoundNear(s.cumulativeCost + CostOf(arm.costs, c.id).value);
    forall e | e in s.completed ensures e.candidate.id != c.id {
      var j :| 0 <= j < |s.completed| && s.completed[j] == e;
    }
  }

  // ----- whole runs -----

  /** A ready run returns if and only if none of its heads is stuck. */
  lemma RunSucceedsIff(arm: Arm, log: OracleLog)
    requires ReadyArm(arm, log)
    ensures RunFrom(arm, Start(arm, log)).Ok? <==>
      forall n: nat :: HeadAt(arm, Start(arm, log), n).Some? ==> !Stuck(arm, HeadAt(arm, Start(arm, log), n).value)
  {
    hide Next, Start, Stuck, HeadInvariant, SoundArm, OpenIds, ReadyCandidate;
    if RunFrom(arm, Start(arm, log)).Ok? {
      forall n: nat | HeadAt(arm, Start(arm, log), n).Some? ensures !Stuck(arm, HeadAt(arm, Start(arm, log), n).value) {
        RunFromHead(arm, Start(arm, log), n);
        EveryHead(arm, log, n);
        StepFailsIffStuck(arm, log, HeadAt(arm, Start(arm, log), n).value);
      }
    } else {
      var n := FailsAtHead(arm, Start(arm, log), 0);
      EveryHead(arm, log, n);
      StepFailsIffStuck(arm, log, HeadAt(arm, Start(arm, log), n).value);
    }
  }

  lemma {:induction false} FailsAtHead(arm: Arm, begin: LoopState, n: nat) returns (m: nat)
    requires WellShaped(begin.belief) && HeadAt(arm, begin, n).Some? && RunFrom(arm, HeadAt(arm, begin, n).value).Err?
    ensures HeadAt(arm, begin, m).Some? && Next(arm, HeadAt(arm, begin, m).value).Err?
    decreases OpenIds(arm, HeadAt(arm, begin, n).value.completed)
  {
    hide Next, OpenIds;
    var s := HeadAt(arm, begin, n).value;
    if Next(arm, s).Err? {
      m := n;
    } else {
      NextShrinks(arm, s);
      m := FailsAtHead(arm, begin, n + 1);
    }
  }

  /** The error of a failing head is the error of the run. */
  lemma HeadFailureIsRunFailure(arm: Arm, log: OracleLog, n: nat)
    requires SoundArm(arm) && !(arm.spec.model.FixedSigma? && |arm.calibration| > 0)
    requires HeadAt(arm, Start(arm, log), n).Some? && Next(arm, HeadAt(arm, Start(arm, log), n).value).Err?
    ensures RunArm(arm, log) == Err(Next(arm, HeadAt(arm, Start(arm, log), n).value).error)
  {
    hide Next, Start, SoundArm, OpenIds;
    RunFromHead(arm, Start(arm, log), n);
    RunFailsOnlyInLoop(arm, log);
  }

  // ----- repeated sources -----

  /** Within a group every effect has an identifier of its own. */
  predicate DistinctInGroups(effects: seq<MatchedEffect>) {
    forall i, j :: 0 <= i < j < |effects| && effects[i].group == effects[j].group ==> effects[i].id != effects[j].id
  }

  /** What a caller of a calibrated arm has to check: calibration effects are named apart within their
      group and apart from all evidence. */
  ghost predicate SeparateCalibration(arm: Arm) {
    arm.spec.model.CalibratedSigma? ==> ApartFromEvidence(arm) && DistinctInGroups(arm.calibration)
  }

  /** Two calibration effects available for the group share an identifier, or one has that of evidence
      already applied for the group. */
  predicate CalibrationClash(arm: Arm, s: LoopState, group: string) {
    || RepeatedIds(arm.calibration, Available(group, s.belief.sequence + 1))
    || exists i :: 0 <= i < |s.evidence| && s.evidence[i].group == group
                && HasEarlierEffect(arm.calibration, group, s.belief.sequence + 1, s.evidence[i].id)
  }

  /** Sources repeat at a head exactly when the calibration effects clash in the group of an optimizer
      design: evidence never repeats an identifier of its own accord. */
  lemma SourcesRepeatIff(arm: Arm, log: OracleLog, s: LoopState)
    requires HeadInvariant(arm, log, s)
    ensures SourcesRepeated(arm, s) <==>
      && arm.spec.model.CalibratedSigma?
      && exists d :: d in arm.contract.designs && d.IsOptimizerEffect() && CalibrationClash(arm, s, d.group)
  {
    hide HeadInvariant, CalibrationClash, RepeatedIds;
    forall group ensures RepeatedIds(s.effects, Available(group, s.belief.sequence + 1)) <==> CalibrationClash(arm, s, group) {
      EffectsRepeatIff(arm, log, s, group);
    }
  }

  lemma EffectsRepeatIff(arm: Arm, log: OracleLog, s: LoopState, group: string)
    requires HeadInvariant(arm, log, s)
    ensures RepeatedIds(s.effects, Available(group, s.belief.sequence + 1)) <==> CalibrationClash(arm, s, group)
  {
    hide HeadInvariant, RepeatedIds, SharedId, HasEarlierEffect, DecisionEffects;
    HeadEffects(arm, log, s);
    var keep, later := Available(group, s.belief.sequence + 1), DecisionEffects(s.evidence);
    ConcatRepeats(arm.calibration, later, keep);
    EvidenceNeverRepeats(s.evidence, keep);
    forall j | 0 <= j < |s.evidence|
      ensures SharedId(arm.calibration, keep, later[j]) <==>
        s.evidence[j].group == group && HasEarlierEffect(arm.calibration, group, s.belief.sequence + 1, s.evidence[j].id)
    {
      SharedWithEvidence(arm.calibration, s.evidence, group, j);
    }
  }

  lemma EvidenceNeverRepeats(evidence: seq<Evidence>, keep: MatchedEffect -> bool)
    requires forall i, j :: 0 <= i < j < |evidence| ==> evidence[i].id != evidence[j].id
    ensures !RepeatedIds(DecisionEffects(evidence), keep)
  {
  }

  lemma SharedWithEvidence(calibration: seq<MatchedEffect>, evidence: seq<Evidence>, group: string, j: nat)
    requires j < |evidence|
    ensures SharedId(calibration, Available(group, |evidence| + 1), DecisionEffects(evidence)[j]) <==>
      evidence[j].group == group && HasEarlierEffect(calibration, group, |evidence| + 1, evidence[j].id)
  {
  }

  lemma HeadEffects(arm: Arm, log: OracleLog, s: LoopState)
    requires HeadInvariant(arm, log, s)
    ensures s.effects == arm.calibration + DecisionEffects(s.evidence) && s.belief.sequence == |s.evidence|
    ensures forall i, j :: 0 <= i < j < |s.evidence| ==> s.evidence[i].id != s.evidence[j].id
    ensures forall i :: 0 <= i < |s.evidence| ==> s.evidence[i].id == arm.laws.name(s.evidence[i].sources)
  {
    EvidenceIsNamed(arm.laws.name, arm.contract, LedgerOf(s));
    forall i, j | 0 <= i < j < |s.evidence| ensures s.evidence[i].id != s.evidence[j].id {
      assert EvidenceIds(s.evidence)[i] != EvidenceIds(s.evidence)[j];
    }
    forall i | 0 <= i < |s.evidence| ensures s.evidence[i].id == arm.laws.name(s.evidence[i].sources) {
      assert s.evidence[i] in s.evidence;
    }
  }

  /** With separate calibration effects sources never repeat. */
  lemma SeparateNeverRepeats(arm: Arm, log: OracleLog, s: LoopState)
    requires SeparateCalibration(arm) && HeadInvariant(arm, log, s)
    ensures !SourcesRepeated(arm, s)
  {
    HeadEffects(arm, log, s);
    SourcesRepeatIff(arm, log, s);
    hide HeadInvariant, SourcesRepeated;
  }

  /** Two calibration effects of one optimizer group and one identifier, both available from the start,
      make the first adapter of a run fail. */
  lemma RepeatedCalibrationStopsTheRun(arm: Arm, log: OracleLog, d: Design, c: Candidate)
    requires ReadyArm(arm, log) && arm.spec.model.CalibratedSigma?
    requires d in arm.contract.designs && d.IsOptimizerEffect() && RepeatedIds(arm.calibration, Available(d.group, 1))
    requires c in arm.candidates && CostOf(arm.costs, c.id).value <= arm.spec.budget + POSITIVE_INFORMATION_TOLERANCE
    ensures RunArm(arm, log) == Err(AdapterFailed(RepeatedSourceEffects))
  {
    hide Next, RunArm, HeadInvariant, SoundArm, RepeatedIds, CostOf;
    var begin := Start(arm, log);
    StartHolds(arm, log);
    InitialSequence();
    assert ReadyCandidate(arm, log, c) && WithinSlack(arm, begin, c);
    StepFailsIffStuck(arm, log, begin);
    assert HeadAt(arm, begin, 0) == Some(begin);
    HeadFailureIsRunFailure(arm, log, 0);
  }

  /** A calibration effect with the identifier of evidence applied later for its group makes the next
      adapter fail. */
  lemma SharedEvidenceIdStopsTheRun(arm: Arm, log: OracleLog, n: nat, i: nat, c: Candidate)
    requires ReadyArm(arm, log) && arm.spec.model.CalibratedSigma? && HeadAt(arm, Start(arm, log), n).Some?
    requires var s := HeadAt(arm, Start(arm, log), n).value;
      && i < |s.evidence| && HasEarlierEffect(arm.calibration, s.evidence[i].group, s.belief.sequence + 1, s.evidence[i].id)
      && c in arm.candidates && WithinSlack(arm, s, c)
    ensures RunArm(arm, log) == Err(AdapterFailed(RepeatedSourceEffects))
  {
    hide Next, RunArm, HeadInvariant, SoundArm, RepeatedIds, WithinSlack, HeadAt, Start, ReadyCandidate, HasEarlierEffect;
    var s := HeadAt(arm, Start(arm, log), n).value;
    EveryHead(arm, log, n);
    var d := EvidenceGroupDesigned(arm, log, s, i);
    assert CalibrationClash(arm, s, d.group);
    hide CalibrationClash;
    SourcesRepeatIff(arm, log, s);
    StepFailsIffStuck(arm, log, s);
    HeadFailureIsRunFailure(arm, log, n);
  }

  // ----- one candidate per arm -----

  /** At most one candidate for each arm of each comparison. */
  ghost predicate OneCandidatePerArm(arm: Arm) {
    forall c, d, key, side ::
      (c in arm.candidates && CandidateInArm(arm.contract, c, key, side)
       && d in arm.candidates && CandidateInArm(arm.contract, d, key, side)) ==> c.id == d.id
  }

  predicate CandidateInArm(contract: Contract, c: Candidate, key: ComparisonKey, side: string) {
    var d := DesignFor(contract, c);
    d.Some? && d.value.IsOptimizerEffect() && d.value.Key() == key && d.value.arm == side
  }

  /** With one candidate per arm no open candidate is ever excluded. */
  lemma OpenCandidateAdmissible(arm: Arm, log: OracleLog, s: LoopState, c: Candidate)
    requires OneCandidatePerArm(arm) && HeadInvariant(arm, log, s)
    requires c in arm.candidates && Registered(arm.contract, c) && !IsCompleted(c, s.completed)
    ensures AssessCandidate(arm.contract, c, s.completed).Ok?
    ensures Admissible(AssessCandidate(arm.contract, c, s.completed).value.effect)
  {
    hide EvidenceExact, Prequential, OracleMatches, DecisionsMatch, FixedExact, RunningCost, Round12;
    var design := DesignFor(arm.contract, c).value;
    if design.IsOptimizerEffect() {
      var key := design.Key();
      SameArmSameCandidate(arm, s, c, key, design.arm);
      assert |ArmMembers(arm.contract, s.completed, key, OtherArm(design.arm))| <= 1;
    }
  }

  /** Whatever has completed in a candidate's arm is that candidate. */
  lemma SameArmSameCandidate(arm: Arm, s: LoopState, c: Candidate, key: ComparisonKey, side: string)
    requires OneCandidatePerArm(arm) && ExperimentsInOrder(arm, s)
    requires c in arm.candidates && CandidateInArm(arm.contract, c, key, side)
    ensures |ArmMembers(arm.contract, s.completed, key, side)| > 0 ==> IsCompleted(c, s.completed)
  {
    hide RunningCost, Round12;
    ArmMembersSound(arm.contract, s.completed, key, side);
    var same := ArmMembers(arm.contract, s.completed, key, side);
    if |same| > 0 {
      var e := same[0];
      assert e in same;
      var i :| 0 <= i < |s.completed| && s.completed[i] == e;
      assert CandidateInArm(arm.contract, e.candidate, key, side);
    }
  }

  /** Then a head is stuck exactly when something open fits with the loop's slack while sources repeat or
      nothing fits without the slack. */
  lemma StuckIffInGap(arm: Arm, log: OracleLog, s: LoopState)
    requires ReadyArm(arm, log) && OneCandidatePerArm(arm) && HeadInvariant(arm, log, s)
    ensures Stuck(arm, s) <==>
      && (exists c :: c in arm.candidates && WithinSlack(arm, s, c))
      && (SourcesRepeated(arm, s) || forall c :: c in arm.candidates && WithinSlack(arm, s, c) ==>
            CostOf(arm.costs, c.id).value > arm.spec.budget - s.cumulativeCost)
  {
    hide SourcesRepeated, HeadInvariant, SoundArm, CostOf, IsCompleted, AssessCandidate, DesignFor;
    forall c | c in arm.candidates && WithinSlack(arm, s, c)
      ensures Plannable(arm, s, c) <==> CostOf(arm.costs, c.id).value <= arm.spec.budget - s.cumulativeCost
    {
      assert ReadyCandidate(arm, log, c);
      OpenCandidateAdmissible(arm, log, s, c);
    }
  }

  // ----- budgets and costs on a grid -----

  /** A whole number of steps of `width` rounding units. */
  ghost predicate OnCoarseGrid(x: real, width: nat) {
    exists k :: x == Units(k * width)
  }

  /** The budget and every cost are multiples of the same two or more rounding units: the slack of
      1e-12 is then too small to admit a further candidate. */
  ghost predicate CoarseCosts(arm: Arm, width: nat) {
    && width >= 2
    && OnCoarseGrid(arm.spec.budget, width)
    && forall c :: c in arm.candidates ==> CostOf(arm.costs, c.id).Ok? && OnCoarseGrid(CostOf(arm.costs, c.id).value, width)
  }

  lemma CoarseSum(x: real, y: real, width: nat)
    requires OnCoarseGrid(x, width) && OnCoarseGrid(y, width)
    ensures OnCoarseGrid(x + y, width) && OnCoarseGrid(x - y, width)
  {
    var j, k :| x == Units(j * width) && y == Units(k * width);
    UnitsSum(j, k, width);
  }

  lemma UnitsSum(j: int, k: int, width: nat)
    ensures Units(j * width) + Units(k * width) == Units((j + k) * width)
    ensures Units(j * width) - Units(k * width) == Units((j - k) * width)
  {
    assert (j + k) * width == j * width + k * width;
    assert (j - k) * width == j * width - k * width;
  }

  lemma CoarseRounds(x: real, width: nat)
    requires OnCoarseGrid(x, width)
    ensures Round12(x) == x
  {
    var k :| x == Units(k * width);
    RoundFixesGrid(x);
  }

  lemma CoarseGap(x: real, width: nat)
    requires OnCoarseGrid(x, width) && width >= 2 && x > 0.0
    ensures x > POSITIVE_INFORMATION_TOLERANCE
  {
    var k :| x == Units(k * width);
    MultipleSign(k, width);
  }

  lemma MultipleSign(k: int, width: nat)
    ensures k <= 0 ==> k * width <= 0
    ensures k >= 1 ==> k * width >= width
  {
  }

  lemma {:induction false} CoarseTotal(arm: Arm, completed: seq<CompletedExperiment>, width: nat)
    requires CoarseCosts(arm, width)
    requires forall i :: 0 <= i < |completed| ==> completed[i].candidate in arm.candidates
    ensures OnCoarseGrid(RunningCost(arm.costs, completed), width)
  {
    hide Round12, CostOf;
    if |completed| == 0 {
      assert 0.0 == Units(0 * width);
    } else {
      var before, cost := completed[..|completed| - 1], CostOf(arm.costs, completed[|completed| - 1].candidate.id).value;
      CoarseTotal(arm, before, width);
      assert completed[|completed| - 1].candidate in arm.candidates;
      CoarseSum(RunningCost(arm.costs, before), cost, width);
      CoarseRounds(RunningCost(arm.costs, before) + cost, width);
    }
  }

  /** On such a grid a head is stuck exactly when something open is affordable and sources repeat. */
  lemma CoarseHeadStuckIff(arm: Arm, log: OracleLog, s: LoopState, width: nat)
    requires ReadyArm(arm, log) && OneCandidatePerArm(arm) && CoarseCosts(arm, width) && HeadInvariant(arm, log, s)
    ensures Stuck(arm, s) <==> SourcesRepeated(arm, s) && exists c :: c in arm.candidates && WithinSlack(arm, s, c)
  {
    hide HeadInvariant, SoundArm, CostOf, IsCompleted, Stuck, ReadyCandidate, OneCandidatePerArm, OnCoarseGrid, Round12,
      SourcesRepeated;
    StuckIffInGap(arm, log, s);
    ExperimentsFromCandidates(arm, log, s);
    CoarseTotal(arm, s.completed, width);
    CoarseSum(arm.spec.budget, s.cumulativeCost, width);
    forall c | c in arm.candidates && WithinSlack(arm, s, c)
      ensures CostOf(arm.costs, c.id).value <= arm.spec.budget - s.cumulativeCost
    {
      var over := CostOf(arm.costs, c.id).value - (arm.spec.budget - s.cumulativeCost);
      CoarseSum(CostOf(arm.costs, c.id).value, arm.spec.budget - s.cumulativeCost, width);
      if over > 0.0 {
        CoarseGap(over, width);
        assert false;
      }
    }
  }

  lemma ExperimentsFromCandidates(arm: Arm, log: OracleLog, s: LoopState)
    requires HeadInvariant(arm, log, s)
    ensures forall i :: 0 <= i < |s.completed| ==> s.completed[i].candidate in arm.candidates
    ensures s.cumulativeCost == RunningCost(arm.costs, s.completed)
  {
  }

  /** Progress: with one candidate per arm, costs on a grid wider than the slack and separate calibration
      effects, every ready run returns, having completed every candidate or left only unaffordable ones. */
  lemma GridRunReturns(arm: Arm, log: OracleLog, width: nat)
    requires ReadyArm(arm, log) && OneCandidatePerArm(arm) && CoarseCosts(arm, width) && SeparateCalibration(arm)
    requires arm.spec.model.FixedSigma? ==> arm.calibration == []
    ensures RunArm(arm, log).Ok? && ReturnedRun(arm, log, RunArm(arm, log).value)
  {
    hide RunFrom, RunArm, Start, Stuck, HeadInvariant, SoundArm, OneCandidatePerArm, CoarseCosts, ReadyCandidate, ReturnedRun, HeadAt,
      SourcesRepeated, SeparateCalibration;
    forall n: nat | HeadAt(arm, Start(arm, log), n).Some? ensures !Stuck(arm, HeadAt(arm, Start(arm, log), n).value) {
      EveryHead(arm, log, n);
      CoarseHeadStuckIff(arm, log, HeadAt(arm, Start(arm, log), n).value, width);
      SeparateNeverRepeats(arm, log, HeadAt(arm, Start(arm, log), n).value);
    }
    RunSucceedsIff(arm, log);
    RunFailsOnlyInLoop(arm, log);
    RunReturns(arm, log);
  }

  /** Without the grid a run can fail in its planner: when every candidate costs more than the budget
      and some cost exceeds it by no more than the slack. */
  lemma GapStopsTheRun(arm: Arm, log: OracleLog, c: Candidate)
    requires ReadyArm(arm, log) && (arm.spec.model.FixedSigma? ==> arm.calibration == [])
    requires forall d :: d in arm.candidates ==> CostOf(arm.costs, d.id).Ok? && CostOf(arm.costs, d.id).value > arm.spec.budget
    requires c in arm.candidates && CostOf(arm.costs, c.id).value <= arm.spec.budget + POSITIVE_INFORMATION_TOLERANCE
    ensures RunArm(arm, log).Err?
  {
    hide RunFrom, RunArm, Next, ReadyCandidate, SoundArm, CostOf, Start, Stuck;
    StuckAtStart(arm, log, c);
    assert HeadAt(arm, Start(arm, log), 0) == Some(Start(arm, log));
    RunSucceedsIff(arm, log);
    RunFailsOnlyInLoop(arm, log);
  }

  lemma StuckAtStart(arm: Arm, log: OracleLog, c: Candidate)
    requires c in arm.candidates && CostOf(arm.costs, c.id).Ok?
    requires CostOf(arm.costs, c.id).value <= arm.spec.budget + POSITIVE_INFORMATION_TOLERANCE
    requires forall d :: d in arm.candidates ==> CostOf(arm.costs, d.id).Ok? && CostOf(arm.costs, d.id).value > arm.spec.budget
    ensures Stuck(arm, Start(arm, log))
  {
    hide CostOf, AssessCandidate, InitialState;
    assert WithinSlack(arm, Start(arm, log), c);
  }

  // ----- a run that uses the whole budget -----

  /** An arm whose only candidate costs the whole budget returns unless its calibration effects repeat a
      source, and then ends at the rounded budget, which is above the budget whenever rounding raises it. */
  lemma FullBudgetRun(arm: Arm, log: OracleLog, c: Candidate)
    requires ReadyArm(arm, log)
    requires arm.candidates == [c] && CostOf(arm.costs, c.id) == Ok(arm.spec.budget)
    ensures RunFrom(arm, Start(arm, log)).Ok? <==> !GroupRepeats(arm.spec.model, arm.calibration, arm.contract, 1)
    ensures RunFrom(arm, Start(arm, log)).Ok? ==>
      var final := RunFrom(arm, Start(arm, log)).value;
      && |final.completed| == 1 && final.cumulativeCost == Round12(arm.spec.budget)
      && HeadAt(arm, Start(arm, log), 1) == Some(final)
  {
    hide Next, Start, HeadInvariant, SoundArm, OpenIds, Registered, Stuck, Round12, CostOf, AssessCandidate, GroupRepeats;
    var begin := Start(arm, log);
    StartHolds(arm, log);
    assert ReadyCandidate(arm, log, c);
    StartIsPlannable(arm, log, c);
    StepFailsIffStuck(arm, log, begin);
    StopsExactly(arm, begin);
    if Next(arm, begin).Ok? {
      var t := Next(arm, begin).value.value;
      StepKeepsInvariant(arm, log, begin);
      OneExperiment(arm, log, t, c);
      StopsExactly(arm, t);
      assert HeadAt(arm, begin, 0) == Some(begin) && HeadAt(arm, begin, 1) == Some(t);
    }
  }

  lemma StartIsPlannable(arm: Arm, log: OracleLog, c: Candidate)
    requires Registered(arm.contract, c) && CostOf(arm.costs, c.id) == Ok(arm.spec.budget) && arm.candidates == [c]
    ensures |Start(arm, log).completed| == 0 && Start(arm, log).cumulativeCost == 0.0
    ensures c in arm.candidates && !IsCompleted(c, Start(arm, log).completed)
    ensures Stuck(arm, Start(arm, log)) <==> GroupRepeats(arm.spec.model, arm.calibration, arm.contract, 1)
  {
    InitialSequence();
    hide CostOf, InitialState, DesignFor, GroupRepeats;
    NoMembersOfNothing(arm.contract);
    assert Plannable(arm, Start(arm, log), c) && WithinSlack(arm, Start(arm, log), c);
  }

  lemma OneExperiment(arm: Arm, log: OracleLog, t: LoopState, c: Candidate)
    requires HeadInvariant(arm, log, t) && |t.completed| == 1 && arm.candidates == [c]
    requires CostOf(arm.costs, c.id) == Ok(arm.spec.budget)
    ensures t.cumulativeCost == Round12(arm.spec.budget)
    ensures forall d :: d in arm.candidates ==> IsCompleted(d, t.completed)
  {
    hide EvidenceExact, Prequential, OracleMatches, DecisionsMatch, FixedExact, Round12, CostOf, AllRegistered, OnePerArm;
    assert t.completed[0].candidate == c;
    assert RunningCost(arm.costs, t.completed[..0]) == 0.0;
  }
}
