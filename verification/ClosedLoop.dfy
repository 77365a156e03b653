/** The closed loop: freeze group sigmas, plan one experiment, reveal its outcome, apply the matched
    pairs it completes, and go on until nothing affordable is left. */
module ClosedLoop {
  import opened Wrappers
  import opened Information
  import opened Ordering
  import opened Rounding
  import opened EvidenceEligibility
  import opened Reasoning
  import opened OptimizerEffect
  import opened BeliefModels
  import opened EvidenceOutcomes
  import opened OneStepPolicy
  import opened LookaheadPolicy
  import opened PredictionAdapter

  datatype Policy = InformationGain | Lookahead

  /** `experimentBase` is the number a run's experiment ids count up from. */
  datatype Spec = Spec(runId: string, policy: Policy, model: Model, budget: real, experimentBase: nat)

  /** The numerical functions, and the injective identifier of evidence. */
  datatype Laws = Laws(gain: GainLaws, belief: BeliefLaws, name: ((int, int)) -> string)

  /** Everything one run is given, its committed outcomes included. */
  datatype Arm = Arm(
    spec: Spec,
    candidates: seq<Candidate>,
    costs: map<string, real>,
    contract: Contract,
    calibration: seq<MatchedEffect>,
    outcomes: map<string, real>,
    laws: Laws)

  datatype LoopError =
    | CalibrationOnFixed
    | CostFailed(cause: PlanningError)
    | AdapterFailed(adapterError: AdapterError)
    | PlanningFailed(cause: PlanningError)
    | RegressionMismatch
    | InfeasibleSelection
    | BlankRunId
    | AlreadyRevealed(id: string)
    | NotCommitted(id: string)
    | OverBudget
    | ScanFailed
    | BeliefUpdateFailed(reason: ReasoningError)
    | AccessMismatch

  // ----- the oracle -----

  datatype Access = Access(runId: string, candidateId: string, observed: real)

  datatype OracleLog = OracleLog(accesses: seq<Access>, accessed: set<(string, string)>)

  /** What `strip` removes. */
  predicate IsSpace(c: char) {
    || '\t' <= c <= '\r' || '\U{1c}' <= c <= ' ' || c in {'\U{85}', '\U{a0}', '\U{1680}'}
    || '\U{2000}' <= c <= '\U{200a}' || c in {'\U{2028}', '\U{2029}', '\U{202f}', '\U{205f}', '\U{3000}'}
  }

  predicate Blank(s: string) {
    forall i :: 0 <= i < |s| ==> IsSpace(s[i])
  }

  /** `reveal_selected`. */
  function Reveal(outcomes: map<string, real>, log: OracleLog, runId: string, id: string): Result<OracleLog, LoopError> {
    if Blank(runId) then Err(BlankRunId)
    else if (runId, id) in log.accessed then Err(AlreadyRevealed(id))
    else if id !in outcomes then Err(NotCommitted(id))
    else Ok(OracleLog(log.accesses + [Access(runId, id, outcomes[id])], log.accessed + {(runId, id)}))
  }

  class SelectedOnlyObservationOracle {
    const outcomes: map<string, real>
    var accesses: seq<Access>
    var accessed: set<(string, string)>

    constructor (outcomes: map<string, real>)
      ensures this.outcomes == outcomes && Log() == OracleLog([], {})
    {
      this.outcomes := outcomes;
      accesses, accessed := [], {};
    }

    ghost function Log(): OracleLog
      reads this
    {
      OracleLog(accesses, accessed)
    }

    /** A refused reveal leaves the oracle unchanged. */
    method RevealSelected(runId: string, id: string) returns (r: Result<Access, LoopError>)
      modifies this
      ensures match Reveal(outcomes, old(Log()), runId, id)
        case Ok(after) => Log() == after && r == Ok(Access(runId, id, after.accesses[|old(accesses)|].observed))
        case Err(e) => Log() == old(Log()) && r == Err(e)
    {
      if Blank(runId) {
        return Err(BlankRunId);
      }
      if (runId, id) in accessed {
        return Err(AlreadyRevealed(id));
      }
      if id !in outcomes {
        return Err(NotCommitted(id));
      }
      var access := Access(runId, id, outcomes[id]);
      accessed := accessed + {(runId, id)};
      accesses := accesses + [access];
      return Ok(access);
    }
  }

  // ----- state -----

  datatype PolicyTrace = OneStepTrace(decision: DecisionTrace) | TwoStepTrace(plan: PlanTrace)
  {
    function Selected(): Candidate {
      match this
      case OneStepTrace(d) => d.selected.score.candidate
      case TwoStepTrace(p) => p.selected.plan.candidate
    }
  }

  datatype DecisionRecord = DecisionRecord(remaining: real, snapshots: seq<Snapshot>, trace: PolicyTrace, effect: Effect)

  /** The variables of the loop and the oracle's log. */
  datatype LoopState = LoopState(
    completed: seq<CompletedExperiment>,
    cumulativeCost: real,
    belief: BeliefState,
    evidence: seq<Evidence>,
    updates: seq<ModelUpdate>,
    effects: seq<MatchedEffect>,
    applied: set<(int, int)>,
    decisions: seq<DecisionRecord>,
    log: OracleLog)

  predicate WellShaped(b: BeliefState) {
    |b.posterior| == |b.hypothesisIds| == 3
  }

  function Start(arm: Arm, log: OracleLog): (r: LoopState)
    ensures WellShaped(r.belief)
  {
    LoopState([], 0.0, InitialState(), [], [], arm.calibration, {}, [], log)
  }

  function Reports(updates: seq<ModelUpdate>): (r: seq<Report>)
    ensures |r| == |updates|
  {
    seq(|updates|, i requires 0 <= i < |updates| => updates[i].report)
  }

  // ----- one iteration -----

  function Uncompleted(arm: Arm, completed: seq<CompletedExperiment>): seq<Candidate> {
    Filtered(arm.candidates, (c: Candidate) => !IsCompleted(c, completed))
  }

  /** The candidates whose cost fits what remains, with the slack the planners do not have. */
  function Affordable(costs: map<string, real>, candidates: seq<Candidate>, remaining: real): Result<seq<Candidate>, PlanningError> {
    if |candidates| == 0 then Ok([])
    else
      var rest :- Affordable(costs, candidates[..|candidates| - 1], remaining);
      var cost :- CostOf(costs, candidates[|candidates| - 1].id);
      Ok(if cost <= remaining + POSITIVE_INFORMATION_TOLERANCE then rest + [candidates[|candidates| - 1]] else rest)
  }

  function ProblemAt(arm: Arm, completed: seq<CompletedExperiment>, feasible: seq<Candidate>, remaining: real): Problem {
    Problem(arm.contract, feasible, completed, arm.costs, remaining)
  }

  /** `_decide_arm_policy`: the adapter's decision, compared with the base policy's in a fixed-sigma arm. */
  function ChoosePolicy(arm: Arm, adapter: Adapter, problem: Problem, belief: BeliefState): Result<PolicyTrace, LoopError>
    requires |adapter.snapshots| > 0 && WellShaped(belief)
  {
    match arm.spec.policy
    case InformationGain =>
      var adapted := DecideAdapted(arm.laws.gain, adapter, problem, belief);
      if adapted.Err? then Err(PlanningFailed(adapted.error))
      else if arm.spec.model.FixedSigma? then
        var plain := Decide(arm.laws.gain, problem, adapter.snapshots[0].hypotheses, belief);
        if plain.Err? then Err(PlanningFailed(plain.error))
        else if adapted.value != plain.value then Err(RegressionMismatch)
        else Ok(OneStepTrace(adapted.value))
      else Ok(OneStepTrace(adapted.value))
    case Lookahead =>
      var adapted := DecideLookaheadAdapted(arm.laws.gain, adapter, problem, belief);
      if adapted.Err? then Err(PlanningFailed(adapted.error))
      else if arm.spec.model.FixedSigma? then
        var plain := DecideLookahead(arm.laws.gain, problem, adapter.snapshots[0].hypotheses, belief);
        if plain.Err? then Err(PlanningFailed(plain.error))
        else if adapted.value != plain.value then Err(RegressionMismatch)
        else Ok(TwoStepTrace(adapted.value))
      else Ok(TwoStepTrace(adapted.value))
  }

  /** The effect a decision trace records: the one-step trace assesses its selection again, against no
      completed experiments, unless it completes a pair. */
  function RecordedEffect(contract: Contract, trace: PolicyTrace): Result<Effect, LoopError> {
    match Assessed(contract, trace.Selected(), [])
    case Err(e) => Err(PlanningFailed(e))
    case Ok(assessment) =>
      match trace
      case OneStepTrace(d) => Ok(if d.selected.score.completesPair then CompletesPair else assessment.effect)
      case TwoStepTrace(p) => Ok(p.selected.plan.effect)
  }

  /** Freezing the sigmas and choosing, from what the loop knows before the experiment. */
  function Decided(arm: Arm, completed: seq<CompletedExperiment>, belief: BeliefState, effects: seq<MatchedEffect>,
                   feasible: seq<Candidate>, remaining: real): Result<DecisionRecord, LoopError>
    requires WellShaped(belief)
  {
    var adapter := BuildAdapter(arm.laws.belief.deviation, arm.spec.model, belief, effects, arm.contract);
    if adapter.Err? then Err(AdapterFailed(adapter.error))
    else
      var trace :- ChoosePolicy(arm, adapter.value, ProblemAt(arm, completed, feasible, remaining), belief);
      var effect :- RecordedEffect(arm.contract, trace);
      Ok(DecisionRecord(remaining, adapter.value.snapshots, trace, effect))
  }

  /** Revealing and recording the selected experiment. */
  function Executed(arm: Arm, s: LoopState, feasible: seq<Candidate>, record: DecisionRecord): (r: Result<LoopState, LoopError>)
    ensures r.Ok? ==> r.value.belief == s.belief
  {
    var c := record.trace.Selected();
    if !(exists i :: 0 <= i < |feasible| && feasible[i].id == c.id) then Err(InfeasibleSelection)
    else
      var log :- Reveal(arm.outcomes, s.log, arm.spec.runId, c.id);
      var cost := CostOf(arm.costs, c.id);
      if cost.Err? then Err(CostFailed(cost.error))
      else
        var total := Round12(s.cumulativeCost + cost.value);
        if total > arm.spec.budget + POSITIVE_INFORMATION_TOLERANCE then Err(OverBudget)
        else
          var e := CompletedExperiment(arm.spec.experimentBase + |s.completed| + 1, c, arm.outcomes[c.id]);
          Ok(s.(completed := s.completed + [e], cumulativeCost := total, decisions := s.decisions + [record], log := log))
  }

  /** One matched pair turned into evidence and into an update of the belief. */
  function Absorb(arm: Arm, s: LoopState, pair: MatchedPair): (r: Result<LoopState, LoopError>)
    requires WellShaped(s.belief)
    ensures r.Ok? ==> WellShaped(r.value.belief)
  {
    var evidence := EvidenceFromPair(arm.laws.name, pair);
    match UpdateModel(arm.laws.belief, arm.spec.model, s.belief, evidence, s.effects, Reports(s.updates))
    case Err(e) => Err(BeliefUpdateFailed(e))
    case Ok(u) =>
      Ok(s.(belief := u.bayes.after,
            evidence := s.evidence + [evidence],
            updates := s.updates + [u],
            effects := s.effects + [EffectOf(evidence, u.cutoff)],
            applied := s.applied + {pair.SourceIds()}))
  }

  function AbsorbAll(arm: Arm, s: LoopState, pairs: seq<MatchedPair>): (r: Result<LoopState, LoopError>)
    requires WellShaped(s.belief)
    ensures r.Ok? ==> WellShaped(r.value.belief)
  {
    if |pairs| == 0 then Ok(s)
    else
      var before :- AbsorbAll(arm, s, pairs[..|pairs| - 1]);
      Absorb(arm, before, pairs[|pairs| - 1])
  }

  lemma {:induction false} AbsorbFailureStays(arm: Arm, s: LoopState, pairs: seq<MatchedPair>, n: nat)
    requires WellShaped(s.belief) && n <= |pairs| && AbsorbAll(arm, s, pairs[..n]).Err?
    ensures AbsorbAll(arm, s, pairs) == AbsorbAll(arm, s, pairs[..n])
  {
    hide Absorb;
    if n < |pairs| {
      assert pairs[..|pairs| - 1][..n] == pairs[..n];
      AbsorbFailureStays(arm, s, pairs[..|pairs| - 1], n);
    } else {
      assert pairs[..n] == pairs;
    }
  }

  function Absorbed(arm: Arm, s: LoopState): (r: Result<LoopState, LoopError>)
    requires WellShaped(s.belief)
    ensures r.Ok? ==> WellShaped(r.value.belief)
  {
    var pairs := ValidUnappliedPairs(arm.contract, s.completed, s.applied);
    if pairs.Err? then Err(ScanFailed) else AbsorbAll(arm, s, pairs.value)
  }

  /** One iteration: the next state, or none when nothing affordable is left. */
  function Next(arm: Arm, s: LoopState): (r: Result<Option<LoopState>, LoopError>)
    requires WellShaped(s.belief)
    ensures r.Ok? && r.value.Some? ==> WellShaped(r.value.value.belief)
  {
    var remaining := arm.spec.budget - s.cumulativeCost;
    var feasible := Affordable(arm.costs, Uncompleted(arm, s.completed), remaining);
    if feasible.Err? then Err(CostFailed(feasible.error))
    else if |feasible.value| == 0 then Ok(None)
    else
      var record :- Decided(arm, s.completed, s.belief, s.effects, feasible.value, remaining);
      var executed :- Executed(arm, s, feasible.value, record);
      var after :- Absorbed(arm, executed);
      Ok(Some(after))
  }

  // ----- the whole run -----

  function OpenIds(arm: Arm, completed: seq<CompletedExperiment>): set<string> {
    set c | c in arm.candidates && !IsCompleted(c, completed) :: c.id
  }

  lemma {:induction false} AffordableMembers(costs: map<string, real>, candidates: seq<Candidate>, remaining: real)
    requires Affordable(costs, candidates, remaining).Ok?
    ensures forall c :: c in candidates ==> CostOf(costs, c.id).Ok?
    ensures forall c :: c in Affordable(costs, candidates, remaining).value <==>
      c in candidates && CostOf(costs, c.id).value <= remaining + POSITIVE_INFORMATION_TOLERANCE
  {
    if |candidates| > 0 {
      AffordableMembers(costs, candidates[..|candidates| - 1], remaining);
      assert candidates == candidates[..|candidates| - 1] + [candidates[|candidates| - 1]];
    }
  }

  lemma UncompletedMembers(arm: Arm, completed: seq<CompletedExperiment>)
    ensures forall c :: c in Uncompleted(arm, completed) <==> c in arm.candidates && !IsCompleted(c, completed)
  {
    FilteredMembers(arm.candidates, (c: Candidate) => !IsCompleted(c, completed));
  }

  lemma {:induction false} AbsorbKeepsExperiments(arm: Arm, s: LoopState, pairs: seq<MatchedPair>)
    requires WellShaped(s.belief) && AbsorbAll(arm, s, pairs).Ok?
    ensures var t := AbsorbAll(arm, s, pairs).value;
      t.completed == s.completed && t.cumulativeCost == s.cumulativeCost && t.decisions == s.decisions && t.log == s.log
  {
    hide UpdateModel, EvidenceFromPair;
    if |pairs| > 0 {
      AbsorbKeepsExperiments(arm, s, pairs[..|pairs| - 1]);
    }
  }

  /** What one iteration is made of, by name. */
  predicate StepOf(arm: Arm, s: LoopState, feasible: seq<Candidate>, record: DecisionRecord, x: LoopState, t: LoopState)
    requires WellShaped(s.belief)
  {
    && Affordable(arm.costs, Uncompleted(arm, s.completed), arm.spec.budget - s.cumulativeCost) == Ok(feasible)
    && |feasible| > 0
    && Decided(arm, s.completed, s.belief, s.effects, feasible, arm.spec.budget - s.cumulativeCost) == Ok(record)
    && Executed(arm, s, feasible, record) == Ok(x)
    && Absorbed(arm, x) == Ok(t)
  }

  lemma NextParts(arm: Arm, s: LoopState) returns (feasible: seq<Candidate>, record: DecisionRecord, x: LoopState, t: LoopState)
    requires WellShaped(s.belief) && Next(arm, s).Ok? && Next(arm, s).value.Some?
    ensures StepOf(arm, s, feasible, record, x, t) && Next(arm, s) == Ok(Some(t))
    ensures t.completed == x.completed && t.cumulativeCost == x.cumulativeCost && t.decisions == x.decisions && t.log == x.log
  {
    hide Affordable, Decided, Executed, AbsorbAll, ValidUnappliedPairs;
    var remaining := arm.spec.budget - s.cumulativeCost;
    feasible := Affordable(arm.costs, Uncompleted(arm, s.completed), remaining).value;
    record := Decided(arm, s.completed, s.belief, s.effects, feasible, remaining).value;
    x := Executed(arm, s, feasible, record).value;
    t := Absorbed(arm, x).value;
    AbsorbKeepsExperiments(arm, x, ValidUnappliedPairs(arm.contract, x.completed, x.applied).value);
  }

  /** Every iteration completes one open candidate, so the set of open ones strictly shrinks. */
  lemma NextShrinks(arm: Arm, s: LoopState)
    requires WellShaped(s.belief) && Next(arm, s).Ok? && Next(arm, s).value.Some?
    ensures OpenIds(arm, Next(arm, s).value.value.completed) < OpenIds(arm, s.completed)
  {
    hide Next, Affordable, Decided, Executed, Absorbed, CostOf, Uncompleted, IsCompleted;
    var feasible, record, x, t := NextParts(arm, s);
    AffordableMembers(arm.costs, Uncompleted(arm, s.completed), arm.spec.budget - s.cumulativeCost);
    UncompletedMembers(arm, s.completed);
    ExecutedShape(arm, s, feasible, record);
    var e := Selection(arm, s, record);
    var i :| 0 <= i < |feasible| && feasible[i].id == e.candidate.id;
    var c := feasible[i];
    assert c in feasible && !IsCompleted(c, s.completed);
    CompletedExtends(s.completed, e);
    assert c.id in OpenIds(arm, s.completed) && c.id !in OpenIds(arm, t.completed);
  }

  /** The experiment a decision leads to. */
  function Selection(arm: Arm, s: LoopState, record: DecisionRecord): CompletedExperiment {
    var c := record.trace.Selected();
    CompletedExperiment(arm.spec.experimentBase + |s.completed| + 1, c, if c.id in arm.outcomes then arm.outcomes[c.id] else 0.0)
  }

  lemma ExecutedShape(arm: Arm, s: LoopState, feasible: seq<Candidate>, record: DecisionRecord)
    requires Executed(arm, s, feasible, record).Ok?
    ensures var x, c := Executed(arm, s, feasible, record).value, record.trace.Selected();
      && (exists i :: 0 <= i < |feasible| && feasible[i].id == c.id)
      && Reveal(arm.outcomes, s.log, arm.spec.runId, c.id) == Ok(x.log) && c.id in arm.outcomes
      && CostOf(arm.costs, c.id).Ok?
      && x.cumulativeCost == Round12(s.cumulativeCost + CostOf(arm.costs, c.id).value)
      && x.cumulativeCost <= arm.spec.budget + POSITIVE_INFORMATION_TOLERANCE
      && x == s.(completed := s.completed + [Selection(arm, s, record)], cumulativeCost := x.cumulativeCost,
                 decisions := s.decisions + [record], log := x.log)
  {
    hide Round12, CostOf;
  }

  lemma CompletedExtends(completed: seq<CompletedExperiment>, e: CompletedExperiment)
    ensures forall c :: IsCompleted(c, completed + [e]) <==> IsCompleted(c, completed) || c.id == e.candidate.id
  {
    forall c ensures IsCompleted(c, completed + [e]) <==> IsCompleted(c, completed) || c.id == e.candidate.id {
      var after := completed + [e];
      if IsCompleted(c, completed) {
        var i :| 0 <= i < |completed| && completed[i].candidate.id == c.id;
        assert after[i] == completed[i];
      }
      if c.id == e.candidate.id {
        assert after[|completed|] == e;
      }
    }
  }

  function RunFrom(arm: Arm, s: LoopState): Result<LoopState, LoopError>
    requires WellShaped(s.belief)
    decreases OpenIds(arm, s.completed)
  {
    var next :- Next(arm, s);
    if next.None? then Ok(s)
    else
      NextShrinks(arm, s);
      RunFrom(arm, next.value)
  }

  // ----- the frozen trace -----

  /** What is frozen after every experiment; the latest sigma is that of the experiment's own update. */
  datatype TraceRow = TraceRow(
    step: nat,
    experimentId: int,
    candidateId: string,
    observed: real,
    cost: real,
    cumulativeCost: real,
    posterior: seq<(string, real)>,
    entropy: real,
    newEvidenceIds: seq<string>,
    evidenceIds: seq<string>,
    pairsCompleted: nat,
    latestSigma: Option<(real, SigmaStatus)>,
    latestAdequacy: Adequacy,
    bestObserved: real)

  predicate ItemBefore(a: (string, real), b: (string, real)) {
    StringLess(a.0, b.0)
  }

  /** `tuple(sorted(posterior.items()))`. */
  function PosteriorItems(b: BeliefState): seq<(string, real)>
    requires WellShaped(b)
  {
    SortBy([(b.hypothesisIds[0], b.posterior[0]), (b.hypothesisIds[1], b.posterior[1]), (b.hypothesisIds[2], b.posterior[2])],
           ItemBefore)
  }

  function BestObserved(completed: seq<CompletedExperiment>): real
    requires |completed| > 0
  {
    var n := |completed| - 1;
    if n == 0 then completed[0].observed else Max(BestObserved(completed[..n]), completed[n].observed)
  }

  function LatestSigma(updates: seq<ModelUpdate>, before: nat): Option<(real, SigmaStatus)> {
    if |updates| <= before then None
    else Some((updates[|updates| - 1].estimate.sigma, updates[|updates| - 1].estimate.status))
  }

  function LatestAdequacy(updates: seq<ModelUpdate>): Adequacy {
    if |updates| == 0 then Uncertain else updates[|updates| - 1].report.adequacy
  }

  /** Nothing is lost from one loop head to the next, and one experiment is added. */
  predicate Grows(s: LoopState, t: LoopState) {
    && |t.completed| == |s.completed| + 1 && s.completed <= t.completed && s.decisions <= t.decisions
    && s.evidence <= t.evidence && s.updates <= t.updates
  }

  /** The row frozen at `t`, given how much evidence and how many updates there were before. */
  function RowAt(arm: Arm, evidenceBefore: nat, updatesBefore: nat, t: LoopState): (row: TraceRow)
    requires |t.completed| > 0 && evidenceBefore <= |t.evidence| && WellShaped(t.belief)
    ensures row.bestObserved == BestObserved(t.completed)
  {
    var e := t.completed[|t.completed| - 1];
    var cost := CostOf(arm.costs, e.candidate.id);
    TraceRow(|t.completed|, e.recordId, e.candidate.id, e.observed, if cost.Ok? then cost.value else 0.0, t.cumulativeCost,
             PosteriorItems(t.belief), Entropy(arm.laws.gain.phi, t.belief.posterior), EvidenceIds(t.evidence[evidenceBefore..]),
             t.belief.evidenceIds, |t.updates|, LatestSigma(t.updates, updatesBefore), LatestAdequacy(t.updates),
             BestObserved(t.completed))
  }

  /** The row frozen when one iteration led from `s` to `t`. */
  function RowOf(arm: Arm, s: LoopState, t: LoopState): TraceRow
    requires Grows(s, t) && WellShaped(t.belief)
  {
    RowAt(arm, |s.evidence|, |s.updates|, t)
  }

  /** The running best is updated with the new observation, and the row frozen with it. */
  method FreezeRow(arm: Arm, evidenceBefore: nat, updatesBefore: nat, t: LoopState, bestBefore: Option<real>) returns (row: TraceRow)
    requires |t.completed| > 0 && evidenceBefore <= |t.evidence| && WellShaped(t.belief)
    requires bestBefore == if |t.completed| == 1 then None else Some(BestObserved(t.completed[..|t.completed| - 1]))
    ensures row == RowAt(arm, evidenceBefore, updatesBefore, t)
  {
    hide PosteriorItems, Entropy, CostOf;
    var e := t.completed[|t.completed| - 1];
    var cost := CostOf(arm.costs, e.candidate.id);
    var best := if bestBefore.None? then e.observed else Max(bestBefore.value, e.observed);
    row := TraceRow(|t.completed|, e.recordId, e.candidate.id, e.observed, if cost.Ok? then cost.value else 0.0, t.cumulativeCost,
                    PosteriorItems(t.belief), Entropy(arm.laws.gain.phi, t.belief.posterior),
                    EvidenceIds(t.evidence[evidenceBefore..]), t.belief.evidenceIds, |t.updates|,
                    LatestSigma(t.updates, updatesBefore), LatestAdequacy(t.updates), best);
  }

  lemma {:induction false} AbsorbGrows(arm: Arm, s: LoopState, pairs: seq<MatchedPair>)
    requires WellShaped(s.belief) && AbsorbAll(arm, s, pairs).Ok?
    ensures s.evidence <= AbsorbAll(arm, s, pairs).value.evidence && s.updates <= AbsorbAll(arm, s, pairs).value.updates
  {
    hide UpdateModel, EvidenceFromPair;
    if |pairs| > 0 {
      AbsorbGrows(arm, s, pairs[..|pairs| - 1]);
    }
  }

  lemma NextGrows(arm: Arm, s: LoopState)
    requires WellShaped(s.belief) && Next(arm, s).Ok? && Next(arm, s).value.Some?
    ensures Grows(s, Next(arm, s).value.value)
  {
    hide Next, Affordable, Decided, Executed, AbsorbAll, ValidUnappliedPairs;
    var feasible, record, x, t := NextParts(arm, s);
    ExecutedShape(arm, s, feasible, record);
    AbsorbGrows(arm, x, ValidUnappliedPairs(arm.contract, x.completed, x.applied).value);
  }

  /** The rows frozen from a loop head on. */
  function TraceFrom(arm: Arm, s: LoopState): seq<TraceRow>
    requires WellShaped(s.belief)
    decreases OpenIds(arm, s.completed)
  {
    var next := Next(arm, s);
    if next.Err? || next.value.None? then []
    else
      NextShrinks(arm, s);
      NextGrows(arm, s);
      [RowOf(arm, s, next.value.value)] + TraceFrom(arm, next.value.value)
  }

  lemma TraceStep(arm: Arm, s: LoopState, t: LoopState)
    requires WellShaped(s.belief) && Next(arm, s) == Ok(Some(t))
    ensures Grows(s, t) && WellShaped(t.belief)
    ensures TraceFrom(arm, s) == [RowOf(arm, s, t)] + TraceFrom(arm, t)
    ensures RowOf(arm, s, t) == RowAt(arm, |s.evidence|, |s.updates|, t)
    ensures t.completed[..|t.completed| - 1] == s.completed
  {
    hide Next, RowAt;
    NextGrows(arm, s);
  }

  lemma TraceEnds(arm: Arm, s: LoopState)
    requires WellShaped(s.belief) && Next(arm, s) == Ok(None)
    ensures TraceFrom(arm, s) == []
  {
    hide Next;
  }

  datatype ArmRun = ArmRun(state: LoopState, budgetExhausted: bool, accesses: seq<Access>, trace: seq<TraceRow>)

  /** `run_closed_loop_arm`. */
  function RunArm(arm: Arm, log: OracleLog): Result<ArmRun, LoopError> {
    if arm.spec.model.FixedSigma? && |arm.calibration| > 0 then Err(CalibrationOnFixed)
    else
      var final :- RunFrom(arm, Start(arm, log));
      if |final.log.accesses| - |log.accesses| != |final.completed| then Err(AccessMismatch)
      else if |final.log.accesses| < |log.accesses| then Err(AccessMismatch)
      else Ok(ArmRun(final, |Uncompleted(arm, final.completed)| > 0, final.log.accesses[|log.accesses|..],
                     TraceFrom(arm, Start(arm, log))))
  }

  method DecideArmPolicy(arm: Arm, adapter: Adapter, problem: Problem, belief: BeliefState) returns (r: Result<PolicyTrace, LoopError>)
    requires |adapter.snapshots| > 0 && WellShaped(belief)
    ensures r == ChoosePolicy(arm, adapter, problem, belief)
  {
    hide DecideAdapted, Decide, DecideLookaheadAdapted, DecideLookahead;
    if arm.spec.policy == InformationGain {
      var adapted := DecideInformationGainWithAdapter(arm.laws.gain, adapter, problem, belief);
      if adapted.Err? {
        return Err(PlanningFailed(adapted.error));
      }
      if arm.spec.model == FixedSigma {
        var plain := DecideInformationGain(arm.laws.gain, problem, adapter.snapshots[0].hypotheses, belief);
        if plain.Err? {
          return Err(PlanningFailed(plain.error));
        }
        if adapted.value != plain.value {
          return Err(RegressionMismatch);
        }
      }
      return Ok(OneStepTrace(adapted.value));
    }
    var adapted := DecideLookaheadWithAdapter(arm.laws.gain, adapter, problem, belief);
    if adapted.Err? {
      return Err(PlanningFailed(adapted.error));
    }
    if arm.spec.model == FixedSigma {
      var plain := DecideLookaheadPlan(arm.laws.gain, problem, adapter.snapshots[0].hypotheses, belief);
      if plain.Err? {
        return Err(PlanningFailed(plain.error));
      }
      if adapted.value != plain.value {
        return Err(RegressionMismatch);
      }
    }
    return Ok(TwoStepTrace(adapted.value));
  }

  method DecideNext(arm: Arm, completed: seq<CompletedExperiment>, belief: BeliefState, effects: seq<MatchedEffect>,
                    feasible: seq<Candidate>, remaining: real) returns (r: Result<DecisionRecord, LoopError>)
    requires WellShaped(belief)
    ensures r == Decided(arm, completed, belief, effects, feasible, remaining)
  {
    hide ChoosePolicy, RecordedEffect, BuildAdapter;
    var adapter := BuildPredictionAdapter(arm.laws.belief.deviation, arm.spec.model, belief, effects, arm.contract);
    if adapter.Err? {
      return Err(AdapterFailed(adapter.error));
    }
    var trace :- DecideArmPolicy(arm, adapter.value, ProblemAt(arm, completed, feasible, remaining), belief);
    var effect :- RecordedEffect(arm.contract, trace);
    return Ok(DecisionRecord(remaining, adapter.value.snapshots, trace, effect));
  }

  /** The loop over the pairs that became valid: evidence, update, effect history and applied pairs. */
  method AbsorbNewPairs(arm: Arm, s: LoopState) returns (r: Result<LoopState, LoopError>)
    requires WellShaped(s.belief)
    ensures r == Absorbed(arm, s)
    ensures r.Ok? ==> r.value == s.(belief := r.value.belief, evidence := r.value.evidence, updates := r.value.updates,
                                    effects := r.value.effects, applied := r.value.applied)
  {
    hide UpdateModel, EvidenceFromPair, ValidUnappliedPairs, Reports, EffectOf;
    var scanned := ScanPairs(arm.contract, s.completed, s.applied);
    if scanned.Err? {
      return Err(ScanFailed);
    }
    var pairs := scanned.value;
    var belief, evidence, updates, effects, applied := s.belief, s.evidence, s.updates, s.effects, s.applied;
    for i := 0 to |pairs|
      invariant WellShaped(belief)
      invariant AbsorbAll(arm, s, pairs[..i])
        == Ok(s.(belief := belief, evidence := evidence, updates := updates, effects := effects, applied := applied))
    {
      assert pairs[..i + 1][..i] == pairs[..i];
      var item := EvidenceFromPair(arm.laws.name, pairs[i]);
      var update := UpdateModel(arm.laws.belief, arm.spec.model, belief, item, effects, Reports(updates));
      if update.Err? {
        AbsorbFailureStays(arm, s, pairs, i + 1);
        return Err(BeliefUpdateFailed(update.error));
      }
      belief := update.value.bayes.after;
      evidence := evidence + [item];
      updates := updates + [update.value];
      effects := effects + [EffectOf(item, update.value.cutoff)];
      applied := applied + {pairs[i].SourceIds()};
    }
    assert pairs[..|pairs|] == pairs;
    return Ok(s.(belief := belief, evidence := evidence, updates := updates, effects := effects, applied := applied));
  }

  /** Revealing the selected candidate, adding its cost, and recording the experiment and the decision. */
  method ExecuteSelected(arm: Arm, oracle: SelectedOnlyObservationOracle, feasible: seq<Candidate>, record: DecisionRecord, s: LoopState)
    returns (r: Result<LoopState, LoopError>)
    requires oracle.outcomes == arm.outcomes && s.log == oracle.Log()
    modifies oracle
    ensures r == Executed(arm, s, feasible, record)
    ensures r.Ok? ==> oracle.Log() == r.value.log
  {
    hide CostOf, Round12;
    var selected := record.trace.Selected();
    if !(exists i :: 0 <= i < |feasible| && feasible[i].id == selected.id) {
      return Err(InfeasibleSelection);
    }
    var access := oracle.RevealSelected(arm.spec.runId, selected.id);
    if access.Err? {
      return Err(access.error);
    }
    var cost := CostOf(arm.costs, selected.id);
    if cost.Err? {
      return Err(CostFailed(cost.error));
    }
    var cumulativeCost := Round12(s.cumulativeCost + cost.value);
    if cumulativeCost > arm.spec.budget + POSITIVE_INFORMATION_TOLERANCE {
      return Err(OverBudget);
    }
    var experiment := CompletedExperiment(arm.spec.experimentBase + |s.completed| + 1, selected, access.value.observed);
    return Ok(s.(completed := s.completed + [experiment], cumulativeCost := cumulativeCost, decisions := s.decisions + [record],
                 log := OracleLog(oracle.accesses, oracle.accessed)));
  }

  /** The loop itself, over its own variables and the mutable oracle. */
  method RunClosedLoopArm(arm: Arm, oracle: SelectedOnlyObservationOracle) returns (r: Result<ArmRun, LoopError>)
    requires oracle.outcomes == arm.outcomes
    modifies oracle
    ensures r == RunArm(arm, old(oracle.Log()))
    ensures r.Ok? ==> oracle.Log() == r.value.state.log
  {
    hide Decided, Executed, Absorbed, Affordable, Uncompleted, OpenIds, TraceFrom, RowOf, RowAt, BestObserved;
    if arm.spec.model == FixedSigma && |arm.calibration| > 0 {
      return Err(CalibrationOnFixed);
    }
    var completed: seq<CompletedExperiment> := [];
    var cumulativeCost := 0.0;
    var belief := InitialState();
    var evidence: seq<Evidence> := [];
    var updates: seq<ModelUpdate> := [];
    var effects := arm.calibration;
    var applied: set<(int, int)> := {};
    var decisions: seq<DecisionRecord> := [];
    var trace: seq<TraceRow>, bestObserved := [], None;
    var oracleStart := |oracle.accesses|;
    ghost var begin := Start(arm, oracle.Log());
    hide InitialState;
    while true
      invariant WellShaped(belief)
      invariant RunFrom(arm, begin)
        == RunFrom(arm, LoopState(completed, cumulativeCost, belief, evidence, updates, effects, applied, decisions, oracle.Log()))
      invariant TraceFrom(arm, begin) == trace
        + TraceFrom(arm, LoopState(completed, cumulativeCost, belief, evidence, updates, effects, applied, decisions, oracle.Log()))
      invariant bestObserved == if |completed| == 0 then None else Some(BestObserved(completed))
      decreases OpenIds(arm, completed)
    {
      var s := LoopState(completed, cumulativeCost, belief, evidence, updates, effects, applied, decisions,
                         OracleLog(oracle.accesses, oracle.accessed));
      var remaining := arm.spec.budget - cumulativeCost;
      var uncompleted := Uncompleted(arm, completed);
      var affordable := Affordable(arm.costs, uncompleted, remaining);
      if affordable.Err? {
        return Err(CostFailed(affordable.error));
      }
      var feasible := affordable.value;
      if |feasible| == 0 {
        if |oracle.accesses| - oracleStart != |completed| || |oracle.accesses| < oracleStart {
          return Err(AccessMismatch);
        }
        TraceEnds(arm, s);
        assert trace + [] == trace;
        return Ok(ArmRun(LoopState(completed, cumulativeCost, belief, evidence, updates, effects, applied, decisions,
                                   OracleLog(oracle.accesses, oracle.accessed)),
                         |uncompleted| > 0, oracle.accesses[oracleStart..], trace));
      }
      var decided := DecideNext(arm, completed, belief, effects, feasible, remaining);
      if decided.Err? {
        return Err(decided.error);
      }
      var execution := ExecuteSelected(arm, oracle, feasible, decided.value, s);
      if execution.Err? {
        return Err(execution.error);
      }
      completed, cumulativeCost, decisions := execution.value.completed, execution.value.cumulativeCost, execution.value.decisions;
      var after := AbsorbNewPairs(arm, execution.value);
      if after.Err? {
        return Err(after.error);
      }
      assert Next(arm, s) == Ok(Some(after.value));
      NextShrinks(arm, s);
      TraceStep(arm, s, after.value);
      var row := FreezeRow(arm, |evidence|, |updates|, after.value, bestObserved);
      trace := trace + [row];
      bestObserved := Some(row.bestObserved);
      belief, evidence, updates := after.value.belief, after.value.evidence, after.value.updates;
      effects, applied := after.value.effects, after.value.applied;
    }
  }
}
