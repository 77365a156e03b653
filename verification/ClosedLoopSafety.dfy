/** Safety over whole runs: the invariant of every loop head, what returned runs satisfy, and the
    claims that tie planning, updating and storing together. */
module ClosedLoopSafety {
  import opened Wrappers
  import opened RealSums
  import opened Information
  import opened Ordering
  import opened Rounding
  import opened EvidenceEligibility
  import opened Reasoning
  import opened OptimizerEffect
  import opened BeliefModels
  import opened EvidenceOutcomes
  import opened OneStepPolicy
  import opened PredictionAdapter
  import opened AdapterRefinement
  import opened ClosedLoop
  import opened ClosedLoopRuns

  /** What holds whenever the loop is about to look for the next experiment. */
  ghost predicate HeadInvariant(arm: Arm, log: OracleLog, s: LoopState): (holds: bool)
    ensures holds ==> WellShaped(s.belief)
  {
    StateShape(s.belief);
    && ExperimentsInOrder(arm, s)
    && EvidenceExact(arm, s)
    && Prequential(arm, s)
    && OracleMatches(arm, log, s)
    && DecisionsMatch(arm, s)
    && FixedExact(arm, s)
  }

  lemma StateShape(b: BeliefState)
    ensures OptimizerState(b) ==> WellShaped(b)
  {
  }

  lemma StartHolds(arm: Arm, log: OracleLog)
    ensures HeadInvariant(arm, log, Start(arm, log))
  {
    hide ExactLedger, OptimizerState, InitialState;
    var s := Start(arm, log);
    InitialOptimizerState();
    InitialSequence();
    FreshLedgerExact(arm.laws.belief.density, arm.laws.name, []);
    assert EvidenceIds([]) == [] && Reports([]) == [] && DecisionEffects([]) == [] && AccessesOf(arm, []) == [];
    assert s.effects == arm.calibration + DecisionEffects([]);
    assert s.log.accesses == log.accesses + AccessesOf(arm, []);
    assert s.log.accessed == log.accessed + (set e | e in s.completed :: (arm.spec.runId, e.candidate.id));
    NoPairInNothing(arm.contract);
    NoMembersOfNothing(arm.contract);
  }

  lemma InitialSequence()
    ensures InitialState().sequence == 0
  {
  }

  /** One iteration taken apart: the decision, the executed experiment, and what absorbing it does. */
  lemma StepFacts(arm: Arm, log: OracleLog, s: LoopState)
    returns (feasible: seq<Candidate>, record: DecisionRecord, x: LoopState, t: LoopState)
    requires SoundArm(arm) && HeadInvariant(arm, log, s)
    requires Next(arm, s).Ok? && Next(arm, s).value.Some?
    ensures Next(arm, s) == Ok(Some(t))
    ensures Selects(arm, s.completed, feasible, arm.spec.budget - s.cumulativeCost, record)
    ensures forall c :: c in feasible ==> c in arm.candidates
    ensures BuildAdapter(arm.laws.belief.deviation, arm.spec.model, s.belief, s.effects, arm.contract)
      == Ok(Adapter(arm.contract, record.snapshots))
    ensures Reveal(arm.outcomes, s.log, arm.spec.runId, record.trace.Selected().id) == Ok(x.log)
    ensures x == s.(completed := s.completed + [Selection(arm, s, record)], cumulativeCost := x.cumulativeCost,
                    decisions := s.decisions + [record], log := x.log)
    ensures x.cumulativeCost == Round12(s.cumulativeCost + CostOf(arm.costs, record.trace.Selected().id).value)
    ensures Absorbed(arm, x) == Ok(t)
    ensures t.completed == x.completed && t.cumulativeCost == x.cumulativeCost && t.decisions == x.decisions && t.log == x.log
    ensures ExperimentsInOrder(arm, x)
  {
    hide Next, Affordable, Decided, Executed, Absorbed, CostOf, Uncompleted, IsCompleted, AssessCandidate, BuildAdapter,
      ExperimentsInOrder, EvidenceExact, Prequential, OracleMatches, DecisionsMatch, FixedExact, Reveal, Round12;
    feasible, record, x, t := NextParts(arm, s);
    AffordableMembers(arm.costs, Uncompleted(arm, s.completed), arm.spec.budget - s.cumulativeCost);
    UncompletedMembers(arm, s.completed);
    DecidedSelects(arm, s.completed, s.belief, s.effects, feasible, arm.spec.budget - s.cumulativeCost);
    ExecutedShape(arm, s, feasible, record);
    ExtendExperiments(arm, s, feasible, record, x);
  }

  /** The step lemma: an iteration keeps the invariant, and adds one update if and only if the
      selected candidate's assessment said `completes_pair`. */
  lemma StepKeepsInvariant(arm: Arm, log: OracleLog, s: LoopState)
    requires SoundArm(arm) && HeadInvariant(arm, log, s)
    requires Next(arm, s).Ok? && Next(arm, s).value.Some?
    ensures var t := Next(arm, s).value.value;
      && HeadInvariant(arm, log, t)
      && |t.completed| == |s.completed| + 1 && s.completed <= t.completed
      && s.evidence <= t.evidence && s.updates <= t.updates && s.decisions <= t.decisions
      && AssessCandidate(arm.contract, t.completed[|s.completed|].candidate, s.completed).Ok?
      && |t.updates| == |s.updates|
           + (if AssessCandidate(arm.contract, t.completed[|s.completed|].candidate, s.completed).value.effect == CompletesPair
              then 1 else 0)
  {
    hide Next, Absorbed, Absorb, CostOf, IsCompleted, AssessCandidate, BuildAdapter, ExperimentsInOrder, EvidenceExact, Prequential,
      OracleMatches, DecisionsMatch, FixedExact, Reveal, Round12, NewPair, SoundArm, WellShaped, AllRegistered, DistinctRecords;
    var feasible, record, x, t := StepFacts(arm, log, s);
    var e := Selection(arm, s, record);
    OrderedExperiments(arm, s);
    RecordsDistinct(arm, x);
    AbsorbKeepsEvidence(arm, s, e, x);
    PairWhenCompleting(arm, s.completed, e);
    AbsorbKeepsOthers(arm, s, e, x);
    SameExperiments(arm, x, t);
    ExtendOracle(arm, log, s, record, t);
    AbsorbedCounts(arm, s, e, x);
    RunningTotal(arm, s);
    ExtendDecisions(arm, s, feasible, record, t);
  }

  lemma OrderedExperiments(arm: Arm, s: LoopState)
    requires ExperimentsInOrder(arm, s)
    ensures AllRegistered(arm.contract, s.completed)
  {
  }

  lemma RunningTotal(arm: Arm, s: LoopState)
    requires ExperimentsInOrder(arm, s)
    ensures s.cumulativeCost == RunningCost(arm.costs, s.completed)
  {
  }

  lemma SameExperiments(arm: Arm, x: LoopState, t: LoopState)
    requires ExperimentsInOrder(arm, x) && t.completed == x.completed && t.cumulativeCost == x.cumulativeCost
    ensures ExperimentsInOrder(arm, t)
  {
  }

  lemma PairWhenCompleting(arm: Arm, completed: seq<CompletedExperiment>, e: CompletedExperiment)
    requires AssessCandidate(arm.contract, e.candidate, completed).Ok?
    ensures NewPair(arm, completed, e).Some? <==>
      AssessCandidate(arm.contract, e.candidate, completed).value.effect == CompletesPair
  {
    hide DesignFor, ArmMembers, IsCompleted, AllRegistered;
  }

  /** What absorbing does besides the evidence: the effects stay prequential and a fixed-sigma belief
      stays exact. */
  lemma AbsorbKeepsOthers(arm: Arm, s: LoopState, e: CompletedExperiment, x: LoopState)
    requires SoundArm(arm) && EvidenceExact(arm, s) && Prequential(arm, s) && FixedExact(arm, s) && WellShaped(s.belief)
    requires x == s.(completed := s.completed + [e], cumulativeCost := x.cumulativeCost, decisions := x.decisions, log := x.log)
    requires Absorbed(arm, x).Ok? && EvidenceExact(arm, Absorbed(arm, x).value)
    requires NewPair(arm, s.completed, e).None? ==> Absorbed(arm, x) == Ok(x)
    requires NewPair(arm, s.completed, e).Some? ==>
      && Absorbed(arm, x) == Absorb(arm, x, NewPair(arm, s.completed, e).value)
      && EvidenceFromPair(arm.laws.name, NewPair(arm, s.completed, e).value).id !in s.belief.evidenceIds
    ensures Prequential(arm, Absorbed(arm, x).value) && FixedExact(arm, Absorbed(arm, x).value)
  {
    hide Absorbed, AppliedExactly, EvidenceOfPairs, ReportsSound, NewPair, PrequentialAt, EvidenceFromPair, UpdateModel,
      SoundGainLaws, PositiveDensity, InjectiveName, Applied, ValidState, OptimizerIds;
    LedgerAfterExperiment(arm, s, x);
    if NewPair(arm, s.completed, e).Some? {
      var pair := NewPair(arm, s.completed, e).value;
      AbsorbKeepsFixedExact(arm, x, pair);
      var t := Absorb(arm, x, pair).value;
      StateLengths(t.belief);
      StateLengths(x.belief);
      AbsorbKeepsPrequential(arm, x, pair);
    }
  }

  lemma StateLengths(b: BeliefState)
    requires OptimizerState(b)
    ensures b.sequence == |b.evidenceIds|
  {
  }

  lemma LedgerAfterExperiment(arm: Arm, s: LoopState, x: LoopState)
    requires FixedExact(arm, s) && Prequential(arm, s)
    requires x.belief == s.belief && x.evidence == s.evidence && x.updates == s.updates && x.effects == s.effects
    ensures FixedExact(arm, x) && Prequential(arm, x)
  {
    hide SelectSigma, JointWeights, Columns, Normalise, ValidState;
  }

  lemma AbsorbedCounts(arm: Arm, s: LoopState, e: CompletedExperiment, x: LoopState)
    requires WellShaped(x.belief) && Absorbed(arm, x).Ok?
    requires x.evidence == s.evidence && x.updates == s.updates
    requires NewPair(arm, s.completed, e).None? ==> Absorbed(arm, x) == Ok(x)
    requires NewPair(arm, s.completed, e).Some? ==> Absorbed(arm, x) == Absorb(arm, x, NewPair(arm, s.completed, e).value)
    ensures var t := Absorbed(arm, x).value;
      && s.evidence <= t.evidence && s.updates <= t.updates
      && |t.updates| == |s.updates| + (if NewPair(arm, s.completed, e).Some? then 1 else 0)
  {
    hide Absorbed, NewPair, UpdateModel, EvidenceFromPair;
  }

  // ----- every head of every run -----

  /** The state after `n` iterations, if the run gets that far. */
  function HeadAt(arm: Arm, s: LoopState, n: nat): (r: Option<LoopState>)
    requires WellShaped(s.belief)
    ensures r.Some? ==> WellShaped(r.value.belief)
  {
    if n == 0 then Some(s)
    else
      var before := HeadAt(arm, s, n - 1);
      if before.None? then None
      else
        var next := Next(arm, before.value);
        if next.Ok? && next.value.Some? then Some(next.value.value) else None
  }

  /** The invariant holds at every loop head that any run reaches. */
  lemma {:induction false} EveryHead(arm: Arm, log: OracleLog, n: nat)
    requires SoundArm(arm)
    requires HeadAt(arm, Start(arm, log), n).Some?
    ensures HeadInvariant(arm, log, HeadAt(arm, Start(arm, log), n).value)
    ensures |HeadAt(arm, Start(arm, log), n).value.completed| == n
  {
    hide Next, HeadInvariant, SoundArm, AssessCandidate, Start;
    if n == 0 {
      StartHolds(arm, log);
      StartEmpty(arm, log);
    } else {
      EveryHead(arm, log, n - 1);
      StepKeepsInvariant(arm, log, HeadAt(arm, Start(arm, log), n - 1).value);
    }
  }

  lemma StartEmpty(arm: Arm, log: OracleLog)
    ensures |Start(arm, log).completed| == 0
  {
  }

  /** Running from a head is running from the start. */
  lemma {:induction false} RunFromHead(arm: Arm, s: LoopState, n: nat)
    requires WellShaped(s.belief) && HeadAt(arm, s, n).Some?
    ensures RunFrom(arm, s) == RunFrom(arm, HeadAt(arm, s, n).value)
  {
    hide Next;
    if n > 0 {
      RunFromHead(arm, s, n - 1);
    }
  }

  /** A run that returns stops at one of its heads. */
  lemma {:induction false} RunEndsAtHead(arm: Arm, begin: LoopState, n: nat) returns (m: nat)
    requires WellShaped(begin.belief) && HeadAt(arm, begin, n).Some? && RunFrom(arm, HeadAt(arm, begin, n).value).Ok?
    ensures HeadAt(arm, begin, m) == Some(RunFrom(arm, HeadAt(arm, begin, n).value).value)
    ensures Next(arm, HeadAt(arm, begin, m).value) == Ok(None)
    decreases OpenIds(arm, HeadAt(arm, begin, n).value.completed)
  {
    hide Next, OpenIds;
    var s := HeadAt(arm, begin, n).value;
    if Next(arm, s).value.None? {
      m := n;
    } else {
      NextShrinks(arm, s);
      m := RunEndsAtHead(arm, begin, n + 1);
    }
  }

  /** The loop stops exactly when no open candidate fits what remains, slack included. */
  lemma StopsExactly(arm: Arm, s: LoopState)
    requires WellShaped(s.belief)
    ensures Next(arm, s) == Ok(None) <==>
      forall c :: c in arm.candidates && !IsCompleted(c, s.completed) ==>
        CostOf(arm.costs, c.id).Ok?
        && CostOf(arm.costs, c.id).value > arm.spec.budget - s.cumulativeCost + POSITIVE_INFORMATION_TOLERANCE
  {
    hide Decided, Executed, Absorbed, CostOf, IsCompleted;
    var remaining := arm.spec.budget - s.cumulativeCost;
    var open := Uncompleted(arm, s.completed);
    UncompletedMembers(arm, s.completed);
    AffordableIff(arm.costs, open, remaining);
    if Affordable(arm.costs, open, remaining).Ok? {
      AffordableMembers(arm.costs, open, remaining);
      var feasible := Affordable(arm.costs, open, remaining).value;
      if |feasible| > 0 {
        assert feasible[0] in feasible;
      }
    }
  }

  lemma {:induction false} AffordableIff(costs: map<string, real>, candidates: seq<Candidate>, remaining: real)
    ensures Affordable(costs, candidates, remaining).Ok? <==> forall c :: c in candidates ==> CostOf(costs, c.id).Ok?
  {
    hide CostOf;
    if |candidates| > 0 {
      AffordableIff(costs, candidates[..|candidates| - 1], remaining);
      assert candidates == candidates[..|candidates| - 1] + [candidates[|candidates| - 1]];
    }
  }

  /** What a caller of the loop gets back: a head of the run, its own experiments in the oracle's
      accesses, and a stop reason that is true. */
  ghost predicate ReturnedRun(arm: Arm, log: OracleLog, run: ArmRun) {
    && HeadInvariant(arm, log, run.state)
    && run.accesses == AccessesOf(arm, run.state.completed)
    && (run.budgetExhausted <==> exists c :: c in arm.candidates && !IsCompleted(c, run.state.completed))
    && (forall c :: c in arm.candidates && !IsCompleted(c, run.state.completed) ==>
          CostOf(arm.costs, c.id).Ok? && CostOf(arm.costs, c.id).value > arm.spec.budget - run.state.cumulativeCost)
  }

  lemma RunReturns(arm: Arm, log: OracleLog)
    requires SoundArm(arm) && RunArm(arm, log).Ok?
    ensures ReturnedRun(arm, log, RunArm(arm, log).value)
  {
    hide Next, HeadInvariant, SoundArm, Start, OpenIds, IsCompleted, CostOf;
    var m := RunEndsAtHead(arm, Start(arm, log), 0);
    EveryHead(arm, log, m);
    var run := RunArm(arm, log).value;
    StopsExactly(arm, run.state);
    UncompletedMembers(arm, run.state.completed);
    AccessesAppended(arm, log, run.state);
    var open := Uncompleted(arm, run.state.completed);
    if |open| > 0 {
      assert open[0] in open;
    }
  }

  lemma AccessesAppended(arm: Arm, log: OracleLog, s: LoopState)
    requires HeadInvariant(arm, log, s)
    ensures s.log.accesses == log.accesses + AccessesOf(arm, s.completed)
    ensures |s.log.accesses| == |log.accesses| + |s.completed|
    ensures s.log.accesses[|log.accesses|..] == AccessesOf(arm, s.completed)
  {
  }

  /** The final check of the accesses never fails: a fixed-sigma arm with calibration effects is the
      only way to fail outside the loop. */
  lemma RunFailsOnlyInLoop(arm: Arm, log: OracleLog)
    requires SoundArm(arm)
    ensures RunArm(arm, log).Ok? <==>
      RunFrom(arm, Start(arm, log)).Ok? && !(arm.spec.model.FixedSigma? && |arm.calibration| > 0)
    ensures RunFrom(arm, Start(arm, log)).Err? && !(arm.spec.model.FixedSigma? && |arm.calibration| > 0) ==>
      RunArm(arm, log) == Err(RunFrom(arm, Start(arm, log)).error)
  {
    hide Next, HeadInvariant, SoundArm, Start, OpenIds, RunFrom;
    if RunFrom(arm, Start(arm, log)).Ok? {
      var m := RunEndsAtHead(arm, Start(arm, log), 0);
      EveryHead(arm, log, m);
      AccessesAppended(arm, log, RunFrom(arm, Start(arm, log)).value);
    }
  }

  /** No candidate is revealed twice in a run. */
  lemma RevealedOnce(arm: Arm, log: OracleLog, s: LoopState)
    requires HeadInvariant(arm, log, s)
    ensures forall i, j :: |log.accesses| <= i < j < |s.log.accesses| ==>
      s.log.accesses[i].candidateId != s.log.accesses[j].candidateId
  {
    hide EvidenceExact, Prequential, DecisionsMatch, FixedExact, AllRegistered, OnePerArm, RunningCost, Round12;
    forall i, j | |log.accesses| <= i < j < |s.log.accesses|
      ensures s.log.accesses[i].candidateId != s.log.accesses[j].candidateId
    {
      var k := |log.accesses|;
      assert s.log.accesses[i] == AccessesOf(arm, s.completed)[i - k];
      assert s.log.accesses[j] == AccessesOf(arm, s.completed)[j - k];
    }
  }

  // ----- exactly-once evidence -----

  predicate BothArmsCompleted(contract: Contract, completed: seq<CompletedExperiment>, key: ComparisonKey) {
    |ArmMembers(contract, completed, key, SGD)| > 0 && |ArmMembers(contract, completed, key, ADAM)| > 0
  }

  /** Evidence `i` is the evidence of this comparison's pair. */
  predicate EvidenceFor(arm: Arm, s: LoopState, key: ComparisonKey, i: nat) {
    && i < |s.evidence|
    && PairOf(arm.contract, s.completed, key).Some?
    && s.evidence[i] == EvidenceFromPair(arm.laws.name, PairOf(arm.contract, s.completed, key).value)
  }

  ghost predicate HasComparison(arm: Arm, s: LoopState, i: nat) {
    exists key :: EvidenceFor(arm, s, key, i)
  }

  /** Evidence and comparisons with both arms completed correspond one to one. */
  lemma EvidenceExactlyOnce(arm: Arm, log: OracleLog, s: LoopState)
    requires SoundArm(arm) && HeadInvariant(arm, log, s)
    ensures forall key :: BothArmsCompleted(arm.contract, s.completed, key) <==> exists i: nat :: EvidenceFor(arm, s, key, i)
    ensures forall i: nat :: i < |s.evidence| ==> HasComparison(arm, s, i)
    ensures forall key, i: nat, j: nat :: EvidenceFor(arm, s, key, i) && EvidenceFor(arm, s, key, j) ==> i == j
    ensures forall a, b, i: nat :: EvidenceFor(arm, s, a, i) && EvidenceFor(arm, s, b, i) ==> a == b
    ensures s.belief.evidenceIds == EvidenceIds(s.evidence)
    ensures s.applied == Applied(s.evidence)
    ensures |s.updates| == |s.evidence| == s.belief.sequence == Closers(s.decisions)
  {
    hide EvidenceFromPair, ReportsSound, PrequentialAt, FixedExact, OracleMatches, DecisionAt, AllRegistered, Applied;
    RecordsDistinct(arm, s);
    forall key ensures BothArmsCompleted(arm.contract, s.completed, key) <==> PairOf(arm.contract, s.completed, key).Some? {
      assert |ArmMembers(arm.contract, s.completed, key, SGD)| <= 1 && |ArmMembers(arm.contract, s.completed, key, ADAM)| <= 1;
    }
    forall key | PairOf(arm.contract, s.completed, key).Some? ensures exists i: nat :: EvidenceFor(arm, s, key, i) {
      var item := EvidenceFromPair(arm.laws.name, PairOf(arm.contract, s.completed, key).value);
      assert item in s.evidence;
      var i: nat :| i < |s.evidence| && s.evidence[i] == item;
      assert EvidenceFor(arm, s, key, i);
    }
    forall i: nat | i < |s.evidence| ensures HasComparison(arm, s, i) {
      assert s.evidence[i] in s.evidence;
      var key :| PairOf(arm.contract, s.completed, key).Some?
              && s.evidence[i] == EvidenceFromPair(arm.laws.name, PairOf(arm.contract, s.completed, key).value);
      assert EvidenceFor(arm, s, key, i);
    }
    forall key, i: nat, j: nat | EvidenceFor(arm, s, key, i) && EvidenceFor(arm, s, key, j) ensures i == j {
      SameIdSameIndex(s, i, j);
    }
    forall a, b, i: nat | EvidenceFor(arm, s, a, i) && EvidenceFor(arm, s, b, i) ensures a == b {
      SourcesOfEvidence(arm.laws.name, PairOf(arm.contract, s.completed, a).value);
      SourcesOfEvidence(arm.laws.name, PairOf(arm.contract, s.completed, b).value);
      PairOfSources(arm.contract, s.completed, a, b);
    }
  }

  lemma SourcesOfEvidence(name: ((int, int)) -> string, pair: MatchedPair)
    ensures EvidenceFromPair(name, pair).sources == pair.SourceIds()
  {
  }

  lemma SameIdSameIndex(s: LoopState, i: nat, j: nat)
    requires Distinct(s.belief.evidenceIds) && s.belief.evidenceIds == EvidenceIds(s.evidence)
    requires i < |s.evidence| && j < |s.evidence| && s.evidence[i] == s.evidence[j]
    ensures i == j
  {
    assert s.belief.evidenceIds[i] == s.evidence[i].id && s.belief.evidenceIds[j] == s.evidence[j].id;
  }

  /** The group of any evidence is that of a registered optimizer design. */
  lemma EvidenceGroupDesigned(arm: Arm, log: OracleLog, s: LoopState, i: nat) returns (d: Design)
    requires HeadInvariant(arm, log, s) && i < |s.evidence|
    ensures d in arm.contract.designs && d.IsOptimizerEffect() && d.group == s.evidence[i].group
    ensures exists ids :: arm.laws.name(ids) == s.evidence[i].id
  {
    hide Prequential, OracleMatches, DecisionsMatch, FixedExact, ExperimentsInOrder, AppliedExactly, ReportsSound, OptimizerState,
      Applied;
    assert s.evidence[i] in s.evidence;
    var key :| PairOf(arm.contract, s.completed, key).Some?
            && s.evidence[i] == EvidenceFromPair(arm.laws.name, PairOf(arm.contract, s.completed, key).value);
    var pair := PairOf(arm.contract, s.completed, key).value;
    ArmMembersSound(arm.contract, s.completed, key, SGD);
    assert pair.sgd in ArmMembers(arm.contract, s.completed, key, SGD);
    d := DesignFor(arm.contract, pair.sgd.candidate).value;
    assert s.evidence[i].id == arm.laws.name(pair.SourceIds());
  }

  // ----- one sigma, strictly earlier -----

  /** Calibration effects are named apart from decision evidence. */
  ghost predicate ApartFromEvidence(arm: Arm) {
    forall e :: e in arm.calibration ==> forall ids :: arm.laws.name(ids) != e.id
  }

  /** Calibration effects come before every decision. */
  predicate CalibrationFirst(arm: Arm) {
    forall e :: e in arm.calibration ==> e.availableSequence == 0
  }

  /** What one step added: its decision, its experiment, and the evidence and update of the pair it
      completed, whose group is that of the selected candidate. */
  ghost predicate StepAdds(arm: Arm, s: LoopState, t: LoopState, record: DecisionRecord, group: string, item: Evidence,
                           update: ModelUpdate)
  {
    && |t.completed| == |s.completed| + 1
    && t.decisions == s.decisions + [record]
    && t.evidence == s.evidence + [item] && item.group == group && item.id == arm.laws.name(item.sources)
    && t.updates == s.updates + [update]
    && DesignFor(arm.contract, t.completed[|s.completed|].candidate).Some?
    && DesignFor(arm.contract, t.completed[|s.completed|].candidate).value.group == group
  }

  /** Planning and updating use one sigma, in value, status and sources, exactly when the arm is fixed or
      no calibration effect the planner could see for the group carries the identifier of the evidence. */
  lemma PlannedSigmaIsUsed(arm: Arm, log: OracleLog, s: LoopState)
    returns (record: DecisionRecord, group: string, item: Evidence, update: ModelUpdate)
    requires SoundArm(arm) && HeadInvariant(arm, log, s)
    requires Next(arm, s).Ok? && Next(arm, s).value.Some?
    requires |Next(arm, s).value.value.updates| > |s.updates|
    ensures StepAdds(arm, s, Next(arm, s).value.value, record, group, item, update)
    ensures exists snapshot :: snapshot in record.snapshots && snapshot.group == group
    ensures forall snapshot :: snapshot in record.snapshots && snapshot.group == group ==>
      (snapshot.choice == update.estimate <==>
        || arm.spec.model.FixedSigma?
        || !HasEarlierEffect(arm.calibration, group, s.belief.sequence + 1, item.id))
  {
    hide Next, Absorbed, Absorb, CostOf, IsCompleted, AssessCandidate, BuildAdapter, ExperimentsInOrder, EvidenceExact,
      OracleMatches, DecisionsMatch, FixedExact, Reveal, Round12, NewPair, WellShaped, AllRegistered, DistinctRecords,
      Prequential, SelectSigma, PlanSigma, HasEarlierEffect, SoundArm, EvidenceFromPair, DesignFor;
    var planned, e, x, pair := CompletingStep(arm, log, s);
    record, item := planned, EvidenceFromPair(arm.laws.name, pair);
    group := item.group;
    PairGroup(arm, s.completed, e);
    PairName(arm.laws.name, pair);
    update := AbsorbRecords(arm, s, x, pair);
    EarlierOnlyInCalibration(arm, log, s, pair);
    OneSigma(arm.laws.belief.deviation, arm.spec.model, s.effects, group, s.belief.sequence + 1, item.id);
    SnapshotOfGroup(arm, s, record, e.candidate);
  }

  /** So with calibration effects named apart every update uses the sigma its planner saw. */
  lemma ApartSigmaIsUsed(arm: Arm, log: OracleLog, s: LoopState)
    requires SoundArm(arm) && ApartFromEvidence(arm) && HeadInvariant(arm, log, s)
    requires Next(arm, s).Ok? && Next(arm, s).value.Some?
    requires |Next(arm, s).value.value.updates| > |s.updates|
    ensures exists record, group, item, update, snapshot ::
      StepAdds(arm, s, Next(arm, s).value.value, record, group, item, update)
      && snapshot in record.snapshots && snapshot.group == group && snapshot.choice == update.estimate
  {
    hide Next, HeadInvariant, SoundArm;
    var record, group, item, update := PlannedSigmaIsUsed(arm, log, s);
    var snapshot :| snapshot in record.snapshots && snapshot.group == group;
  }

  /** A step that adds an update has completed a pair, and absorbed exactly that pair. */
  lemma CompletingStep(arm: Arm, log: OracleLog, s: LoopState)
    returns (record: DecisionRecord, e: CompletedExperiment, x: LoopState, pair: MatchedPair)
    requires SoundArm(arm) && HeadInvariant(arm, log, s)
    requires Next(arm, s).Ok? && Next(arm, s).value.Some?
    requires |Next(arm, s).value.value.updates| > |s.updates|
    ensures var t := Next(arm, s).value.value;
      && t.completed == s.completed + [e] && t.decisions == s.decisions + [record]
      && WellShaped(x.belief) && Absorb(arm, x, pair) == Ok(t)
    ensures NewPair(arm, s.completed, e) == Some(pair)
    ensures EvidenceFromPair(arm.laws.name, pair).id !in s.belief.evidenceIds
    ensures x.belief == s.belief && x.updates == s.updates && x.effects == s.effects && x.evidence == s.evidence
    ensures BuildAdapter(arm.laws.belief.deviation, arm.spec.model, s.belief, s.effects, arm.contract)
      == Ok(Adapter(arm.contract, record.snapshots))
  {
    hide Next, Absorbed, Absorb, CostOf, IsCompleted, AssessCandidate, BuildAdapter, ExperimentsInOrder, EvidenceExact,
      OracleMatches, DecisionsMatch, FixedExact, Reveal, Round12, NewPair, WellShaped, AllRegistered, DistinctRecords,
      Prequential, SoundArm, EvidenceFromPair;
    var feasible, step, executed, t := StepFacts(arm, log, s);
    record, x := step, executed;
    e := Selection(arm, s, record);
    OrderedExperiments(arm, s);
    RecordsDistinct(arm, x);
    AbsorbKeepsEvidence(arm, s, e, x);
    AbsorbedCounts(arm, s, e, x);
    pair := NewPair(arm, s.completed, e).value;
  }

  lemma AbsorbRecords(arm: Arm, s: LoopState, x: LoopState, pair: MatchedPair) returns (update: ModelUpdate)
    requires WellShaped(x.belief) && Absorb(arm, x, pair).Ok?
    requires x.belief == s.belief && x.updates == s.updates && x.effects == s.effects && x.evidence == s.evidence
    ensures var t, item := Absorb(arm, x, pair).value, EvidenceFromPair(arm.laws.name, pair);
      && t.evidence == s.evidence + [item] && t.updates == s.updates + [update]
      && update.estimate
           == SelectSigma(arm.laws.belief.deviation, arm.spec.model, s.effects, item.group, s.belief.sequence + 1, item.id)
  {
    hide SelectSigma, EvidenceFromPair;
    var item := EvidenceFromPair(arm.laws.name, pair);
    update := UpdateModel(arm.laws.belief, arm.spec.model, x.belief, item, x.effects, Reports(x.updates)).value;
    UpdateRecords(arm.laws.belief, arm.spec.model, x.belief, EvidenceFromPair(arm.laws.name, pair), x.effects, Reports(x.updates));
    hide UpdateModel;
  }

  lemma PairName(name: ((int, int)) -> string, pair: MatchedPair)
    ensures EvidenceFromPair(name, pair).id == name(EvidenceFromPair(name, pair).sources)
  {
    hide OutcomeOf, Round12;
  }

  lemma PairGroup(arm: Arm, completed: seq<CompletedExperiment>, e: CompletedExperiment)
    requires NewPair(arm, completed, e).Some?
    ensures DesignFor(arm.contract, e.candidate).Some?
    ensures EvidenceFromPair(arm.laws.name, NewPair(arm, completed, e).value).group == DesignFor(arm.contract, e.candidate).value.group
    ensures DesignFor(arm.contract, e.candidate).value.IsOptimizerEffect()
    ensures DesignFor(arm.contract, e.candidate).value in arm.contract.designs
  {
    hide AssessRegistered, OutcomeOf, Round12;
  }

  /** New evidence shares its identifier with no earlier evidence. */
  lemma EarlierOnlyInCalibration(arm: Arm, log: OracleLog, s: LoopState, pair: MatchedPair)
    requires HeadInvariant(arm, log, s)
    requires EvidenceFromPair(arm.laws.name, pair).id !in s.belief.evidenceIds
    ensures var item := EvidenceFromPair(arm.laws.name, pair);
      HasEarlierEffect(s.effects, item.group, s.belief.sequence + 1, item.id) <==>
      HasEarlierEffect(arm.calibration, item.group, s.belief.sequence + 1, item.id)
  {
    hide OutcomeOf, Round12, ExperimentsInOrder, OracleMatches, DecisionsMatch, FixedExact, PrequentialAt, OptimizerState,
      EvidenceOfPairs, AppliedExactly, ReportsSound, Applied;
    var item := EvidenceFromPair(arm.laws.name, pair);
    forall e | e in DecisionEffects(s.evidence) ensures e.id != item.id {
      var i :| 0 <= i < |s.evidence| && DecisionEffects(s.evidence)[i] == e;
      assert EvidenceIds(s.evidence)[i] == e.id;
    }
    assert forall e :: e in s.effects <==> e in arm.calibration || e in DecisionEffects(s.evidence);
  }

  lemma SnapshotOfGroup(arm: Arm, s: LoopState, record: DecisionRecord, c: Candidate)
    requires BuildAdapter(arm.laws.belief.deviation, arm.spec.model, s.belief, s.effects, arm.contract)
      == Ok(Adapter(arm.contract, record.snapshots))
    requires DesignFor(arm.contract, c).Some? && DesignFor(arm.contract, c).value.IsOptimizerEffect()
    requires DesignFor(arm.contract, c).value in arm.contract.designs
    ensures var group := DesignFor(arm.contract, c).value.group;
      && (exists snapshot :: snapshot in record.snapshots && snapshot.group == group)
      && forall snapshot :: snapshot in record.snapshots && snapshot.group == group ==>
           snapshot.choice == PlanSigma(arm.laws.belief.deviation, arm.spec.model, s.effects, group, s.belief.sequence + 1)
  {
    hide BuildAdapter, PlanSigma, HypothesesWithSigma, DesignFor;
    AdapterIsBuilt(arm.laws.belief.deviation, arm.spec.model, s.belief, s.effects, arm.contract);
    var design := DesignFor(arm.contract, c).value;
    var snapshot :| snapshot in record.snapshots && snapshot.group == design.group;
  }

  /** Update `i` draws only on calibration effects and on evidence of the updates before it. */
  lemma SourcesStrictlyEarlier(arm: Arm, s: LoopState, i: nat)
    requires Prequential(arm, s) && i < |s.updates|
    ensures s.updates[i].cutoff == i + 1
    ensures forall source :: source in s.updates[i].estimate.sources ==>
      && source != s.evidence[i].id
      && ((exists e :: e in arm.calibration && e.id == source && e.group == s.evidence[i].group)
          || (exists j :: 0 <= j < i && s.evidence[j].id == source && s.evidence[j].group == s.evidence[i].group))
  {
    hide SelectSigma;
    assert PrequentialAt(arm, s.evidence, s.updates[i], i);
    var history, item := arm.calibration + DecisionEffects(s.evidence[..i]), s.evidence[i];
    SourcesAreEarlier(arm.laws.belief.deviation, arm.spec.model, history, item.group, i + 1, item.id);
    forall source | source in s.updates[i].estimate.sources
      ensures source != item.id
      ensures (exists e :: e in arm.calibration && e.id == source && e.group == item.group)
        || (exists j :: 0 <= j < i && s.evidence[j].id == source && s.evidence[j].group == item.group)
    {
      var e :| e in history && e.id == source && e.group == item.group;
      if e !in arm.calibration {
        var j :| 0 <= j < i && DecisionEffects(s.evidence[..i])[j] == e;
        assert s.evidence[j].id == source;
      }
    }
  }

  /** Calibration effects of one group. */
  function CalibrationOf(arm: Arm, group: string): seq<MatchedEffect> {
    Filtered(arm.calibration, (e: MatchedEffect) => e.group == group)
  }

  /** With five calibration effects for its group, every update of a calibrated arm is calibrated, and
      its sigma is at least the floor. */
  lemma SeededUpdatesAreCalibrated(arm: Arm, s: LoopState, i: nat)
    requires ApartFromEvidence(arm) && CalibrationFirst(arm) && arm.spec.model.CalibratedSigma?
    requires Prequential(arm, s) && i < |s.updates|
    requires exists ids :: arm.laws.name(ids) == s.evidence[i].id
    requires |CalibrationOf(arm, s.evidence[i].group)| >= MINIMUM_PRIOR_EFFECTS
    ensures s.updates[i].estimate.status == Calibrated
    ensures s.updates[i].estimate.sigma >= SIGMA_FLOOR
  {
    assert PrequentialAt(arm, s.evidence, s.updates[i], i);
    var item, later := s.evidence[i], DecisionEffects(s.evidence[..i]);
    var keep := AvailableExcept(item.group, i + 1, item.id);
    FilteredConcat(arm.calibration, later, keep);
    FilteredAgrees(arm.calibration, (e: MatchedEffect) => e.group == item.group, keep);
  }

  // ----- cost -----

  /** The cumulative cost never exceeds the rounded budget, so unless rounding raises the budget it never
      exceeds the budget, tolerance or not; a budget of at most twelve decimals is never raised. */
  lemma CostWithinBudget(arm: Arm, log: OracleLog, s: LoopState)
    requires SoundArm(arm) && HeadInvariant(arm, log, s)
    ensures s.cumulativeCost == RunningCost(arm.costs, s.completed) <= Round12(arm.spec.budget)
    ensures Round12(arm.spec.budget) <= arm.spec.budget ==> s.cumulativeCost <= arm.spec.budget
    ensures OnGrid(arm.spec.budget) ==> Round12(arm.spec.budget) == arm.spec.budget
  {
    hide Round12, OnGrid, EvidenceExact, Prequential, OracleMatches, DecisionsMatch, FixedExact, AllRegistered;
    RoundFixesGrid(arm.spec.budget);
    RoundFixesGrid(0.0);
    assert OnGrid(0.0) by { ZeroOnGrid(); }
    RoundMonotone(0.0, arm.spec.budget);
  }

  lemma ZeroOnGrid()
    ensures OnGrid(0.0)
  {
    assert 0.0 == Units(0);
  }

  // ----- the store -----

  /** A fixed-sigma run reaches the evidence and the exact posterior of a store that synchronises its
      experiments once. */
  lemma FixedRunMatchesStore(arm: Arm, log: OracleLog, s: LoopState)
    requires SoundArm(arm) && HeadInvariant(arm, log, s) && arm.spec.model.FixedSigma?
    ensures var once := SynchronizeOnce(arm.laws.belief.density, arm.laws.name, arm.contract, s.completed);
      && once.Ok?
      && multiset(once.value.evidence) == multiset(s.evidence)
      && once.value.state.posterior == s.belief.posterior
      && once.value.state.sequence == s.belief.sequence
  {
    hide Prequential, OracleMatches, DecisionsMatch, ExactLedger, EvidenceOfPairs, AllRegistered, OnePerArm, Synchronize,
      OptimizerState, ReportsSound, AppliedExactly, Applied, DistinctRecords, PositiveDensity, InjectiveName;
    var density, name := arm.laws.belief.density, arm.laws.name;
    RecordsDistinct(arm, s);
    FreshLedgerExact(density, name, s.completed);
    SynchronizeCovers(density, name, arm.contract, Ledger(s.completed, [], InitialState()));
    var once := SynchronizeOnce(density, name, arm.contract, s.completed).value;
    DistinctEvidence(density, name, once);
    DistinctEvidence(density, name, LedgerOf(s));
    SameEvidence(name, arm.contract, once, LedgerOf(s));
    SameEvidenceSamePosterior(density, name, once, LedgerOf(s));
  }
}
