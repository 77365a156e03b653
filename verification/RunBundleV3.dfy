/** Version 3 run bundles: capturing a completion as a step, building, validating and
    replaying a bundle, and rebuilding the steps from a history. Digests are injective, so a
    digest field holds the value it digests. */
module RunBundleV3 {
  import opened Wrappers
  import opened InformationGainTable
  import opened RunSpecs
  import opened TablePolicy
  import opened GenericPolicies

  datatype BundleError =
    | PolicyFailed
    | ContinuesAfterCostExhaustion
    | InconsistentCompletion
    | SelectionDiverges
    | CostBudgetExceeded
    | InvalidStepPayload
    | StepIndexGap
    | RepeatedSelection
    | DecisionMismatch
    | ScoreMismatch
    | RationaleMismatch
    | CumulativeCostMismatch
    | BeliefMismatch
    | TooManySteps
    | DigestMismatch
    | TerminalMismatch
    | InvalidStopReason
    | RebuiltStepMismatch

  const RUNSPEC_CANDIDATE_ORDER := "runspec_candidate_order"
  const REPLAY_CREATED_AT := "1970-01-01T00:00:00+00:00"
  const BIT_LIMIT: Option<nat> := Some(MAX_INFORMATION_GAIN_INTEGER_BITS)

  datatype SelectionRule = RandomRule | GreedyRule | InformationGainRule

  datatype Decision =
    | DeclaredDecision(policyId: PolicyId, policySeed: Option<int>, selectedId: string,
                       utility: Option<real>, eligibleCount: int, tieBreak: string)
    | TableDecision(selectedId: string, score: real, eligibleCount: int,
                    belief: seq<nat>, model: EvidenceModel, tieBreak: string)

  /** A rationale repeats its decision, except for the seed of a declared policy. */
  datatype Rationale =
    | DeclaredRationale(policyId: PolicyId, selectedId: string, utility: Option<real>, eligibleCount: int,
                        tieBreak: string, eligibleIds: seq<string>, completedIds: seq<string>, rule: SelectionRule)
    | TableRationale(decision: Decision, eligibleIds: seq<string>, completedIds: seq<string>, rule: SelectionRule)

  datatype ObservationPayload = ObservationPayload(candidateId: string, value: real, cost: real)

  datatype Step = Step(
    stepIndex: int,
    selectedId: string,
    decision: Decision,
    rationale: Rationale,
    observation: ObservationPayload,
    lineage: seq<Lineage>,
    cumulativeCost: real)

  datatype Selection = Selection(candidate: CandidateSpec, decision: Decision, rationale: Rationale)

  /** `random.Random(seed).choice` over n items, and the numeric contract of the table policy. */
  datatype Machine = Machine(pick: (int, nat) -> nat, num: Numerics)

  ghost predicate ValidMachine(machine: Machine) {
    forall seed, n :: n > 0 ==> machine.pick(seed, n) < n
  }

  // ----- the three policy factories -----

  function CompletedIdList(history: seq<Record>): (r: seq<string>)
    ensures |r| == |history|
  {
    seq(|history|, i requires 0 <= i < |history| => history[i].candidate.id)
  }

  function DeclaredSelection(policyId: PolicyId, seed: Option<int>, chosen: CandidateSpec, utility: Option<real>,
                             eligible: seq<CandidateSpec>, history: seq<Record>, rule: SelectionRule): Selection {
    Selection(
      chosen,
      DeclaredDecision(policyId, seed, chosen.id, utility, |eligible|, RUNSPEC_CANDIDATE_ORDER),
      DeclaredRationale(policyId, chosen.id, utility, |eligible|, RUNSPEC_CANDIDATE_ORDER,
                        Ids(eligible), CompletedIdList(history), rule))
  }

  /** `_selection_for_v3`, dispatching to the factory of the policy. */
  function SelectionFor(machine: Machine, spec: RunSpec, history: seq<Record>): Result<Selection, BundleError>
    requires ValidMachine(machine) && ValidSpec(spec)
  {
    var eligible := Eligible(spec.candidates, CompletedIds(history));
    match spec.policy
    case RandomPolicy(seed) =>
      if |eligible| == 0 then Err(PolicyFailed)
      else
        Ok(DeclaredSelection(RandomPolicyId, Some(seed), eligible[machine.pick(seed, |eligible|)], None,
                             eligible, history, RandomRule))
    case GreedyPrior(utilities) =>
      AllRated(spec);
      var chosen := ScanEligible(eligible, utilities, |eligible|);
      if chosen.None? then Err(PolicyFailed)
      else
        Ok(DeclaredSelection(GreedyPolicyId, None, chosen.value, Some(utilities[chosen.value.id]),
                             eligible, history, GreedyRule))
    case InformationGain(model) =>
      var details := SelectionDetails(machine.num, BIT_LIMIT, spec, history);
      if details.Err? then Err(PolicyFailed)
      else
        var d := details.value;
        var decision := TableDecision(d.candidate.id, d.score, |d.eligibleIds|, d.weights, model, RUNSPEC_CANDIDATE_ORDER);
        if d.candidate !in eligible || |d.eligibleIds| != |eligible| then Err(PolicyFailed)
        else
          Ok(Selection(d.candidate, decision,
                       TableRationale(decision, Ids(eligible), CompletedIdList(history), InformationGainRule)))
  }

  /** `_lineage_for_record`. */
  function LineageFor(machine: Machine, spec: RunSpec, history: seq<Record>, record: Record)
    : Result<seq<Lineage>, BundleError>
    requires ValidSpec(spec)
  {
    if !spec.policy.InformationGain? then Ok([])
    else
      var lineage := LineageForObservation(machine.num, BIT_LIMIT, spec, history, record);
      if lineage.Err? then Err(PolicyFailed) else Ok([lineage.value])
  }

  // ----- the closed step payload -----

  predicate NoRepeats(ids: seq<string>) {
    forall i, j :: 0 <= i < j < |ids| ==> ids[i] != ids[j]
  }

  predicate NoneShared(a: seq<string>, b: seq<string>) {
    forall i, j :: 0 <= i < |a| && 0 <= j < |b| ==> a[i] != b[j]
  }

  predicate ValidCandidateContext(stepIndex: int, selectedId: string, eligibleCount: int,
                                  eligibleIds: seq<string>, completedIds: seq<string>) {
    && eligibleCount > 0
    && |eligibleIds| == eligibleCount
    && |completedIds| == stepIndex
    && NoRepeats(eligibleIds)
    && NoRepeats(completedIds)
    && NoneShared(eligibleIds, completedIds)
    && selectedId in eligibleIds
  }

  predicate ValidDeclaredPayload(step: Step)
    requires step.decision.DeclaredDecision?
  {
    var d := step.decision;
    && d.policyId != InformationGainPolicyId
    && step.lineage == []
    && step.rationale.DeclaredRationale?
    && var r := step.rationale;
    && r.policyId == d.policyId && r.selectedId == d.selectedId && r.utility == d.utility
    && r.eligibleCount == d.eligibleCount && r.tieBreak == d.tieBreak
    && d.selectedId == step.selectedId
    && ValidCandidateContext(step.stepIndex, d.selectedId, d.eligibleCount, r.eligibleIds, r.completedIds)
    && d.tieBreak == RUNSPEC_CANDIDATE_ORDER
    && (d.policyId == RandomPolicyId ==> d.policySeed.Some? && d.utility.None? && r.rule == RandomRule)
    && (d.policyId == GreedyPolicyId ==> d.policySeed.None? && d.utility.Some? && r.rule == GreedyRule)
  }

  predicate ValidIntegerWeights(w: seq<nat>) {
    |w| > 0 && exists i :: 0 <= i < |w| && w[i] != 0
  }

  predicate ValidTablePayload(step: Step)
    requires step.decision.TableDecision?
  {
    var d := step.decision;
    && |step.lineage| == 1
    && step.rationale.TableRationale?
    && var r, l := step.rationale, step.lineage[0];
    && r.decision == d
    && d.selectedId == step.selectedId
    && ValidCandidateContext(step.stepIndex, d.selectedId, d.eligibleCount, r.eligibleIds, r.completedIds)
    && d.tieBreak == RUNSPEC_CANDIDATE_ORDER
    && d.score >= 0.0
    && r.rule == InformationGainRule
    && l.stepIndex == step.stepIndex && l.candidateId == step.selectedId
    && ValidIntegerWeights(l.weightsBefore) && ValidIntegerWeights(l.weightsAfter)
    && l.digestBefore == d.belief
  }

  /** The constructor of a step record. */
  function MakeStep(raw: Step): (r: Result<Step, BundleError>)
    ensures r.Ok? ==> r.value == raw
    ensures r.Ok? ==> raw.observation.candidateId == raw.selectedId && 0.0 <= raw.observation.cost <= raw.cumulativeCost
  {
    if && raw.stepIndex >= 0
       && raw.cumulativeCost >= 0.0
       && (match raw.decision
           case DeclaredDecision(_, _, _, _, _, _) => ValidDeclaredPayload(raw)
           case TableDecision(_, _, _, _, _, _) => ValidTablePayload(raw))
       && raw.observation.candidateId == raw.selectedId
       && raw.observation.cost >= 0.0
       && raw.cumulativeCost >= raw.observation.cost
    then Ok(raw) else Err(InvalidStepPayload)
  }

  // ----- capturing a completion -----

  predicate CostExhausted(spec: RunSpec, cost: real) {
    spec.costBudget.Some? && cost >= spec.costBudget.value
  }

  predicate CostExceeded(spec: RunSpec, cost: real) {
    spec.costBudget.Some? && cost > spec.costBudget.value
  }

  /** `_run_bundle_step_v3_from_completion`. */
  function StepFromCompletion(machine: Machine, spec: RunSpec, record: Record, history: seq<Record>, cost: real)
    : Result<Step, BundleError>
    requires ValidMachine(machine) && ValidSpec(spec)
  {
    AssembleStep(spec, SelectionFor(machine, spec, history), LineageFor(machine, spec, history, record),
                 record, |history|, cost)
  }

  /** The checks of the capture, in order, given what the policy selects and the lineage it derives. */
  function AssembleStep(spec: RunSpec, selected: Result<Selection, BundleError>, derived: Result<seq<Lineage>, BundleError>,
                        record: Record, index: nat, cost: real): Result<Step, BundleError>
  {
    if CostExhausted(spec, cost) then Err(ContinuesAfterCostExhaustion)
    else if !Matches(spec, record) then Err(InconsistentCompletion)
    else
      var selection :- selected;
      if selection.candidate != record.candidate then Err(SelectionDiverges)
      else if record.observation.cost < 0.0 then Err(InvalidStepPayload)
      else if CostExceeded(spec, cost + record.observation.cost) then Err(CostBudgetExceeded)
      else
        var lineage :- derived;
        MakeStep(StepPayload(selection, lineage, record.observation, index, cost + record.observation.cost))
  }

  function StepPayload(selection: Selection, lineage: seq<Lineage>, observation: Observation, index: nat, total: real): Step {
    Step(index, selection.candidate.id, selection.decision, selection.rationale,
         ObservationPayload(selection.candidate.id, observation.value, observation.cost), lineage, total)
  }

  function LastCost(steps: seq<Step>): real {
    if |steps| == 0 then 0.0 else steps[|steps| - 1].cumulativeCost
  }

  /** Folding the capture over a history: how a run is traced, and `_steps_from_history`. */
  function StepsFromHistory(machine: Machine, spec: RunSpec, history: seq<Record>): (r: Result<seq<Step>, BundleError>)
    requires ValidMachine(machine) && ValidSpec(spec)
    ensures r.Ok? ==> |r.value| == |history|
  {
    if |history| == 0 then Ok([])
    else
      var before := history[..|history| - 1];
      var steps :- StepsFromHistory(machine, spec, before);
      var step :- StepFromCompletion(machine, spec, history[|history| - 1], before, LastCost(steps));
      Ok(steps + [step])
  }

  method RebuildSteps(machine: Machine, spec: RunSpec, history: seq<Record>) returns (r: Result<seq<Step>, BundleError>)
    requires ValidMachine(machine) && ValidSpec(spec)
    ensures r == StepsFromHistory(machine, spec, history)
  {
    hide StepFromCompletion;
    var steps: seq<Step>, cumulative := [], 0.0;
    for i := 0 to |history|
      invariant StepsFromHistory(machine, spec, history[..i]) == Ok(steps)
      invariant cumulative == LastCost(steps)
    {
      assert history[..i + 1][..i] == history[..i];
      var step := StepFromCompletion(machine, spec, history[i], history[..i], cumulative);
      if step.Err? {
        RebuildFailureStays(machine, spec, history, i + 1);
        return Err(step.error);
      }
      steps := steps + [step.value];
      cumulative := step.value.cumulativeCost;
    }
    assert history[..|history|] == history;
    return Ok(steps);
  }

  lemma {:induction false} RebuildFailureStays(machine: Machine, spec: RunSpec, history: seq<Record>, n: nat)
    requires ValidMachine(machine) && ValidSpec(spec)
    requires n <= |history| && StepsFromHistory(machine, spec, history[..n]).Err?
    ensures StepsFromHistory(machine, spec, history) == StepsFromHistory(machine, spec, history[..n])
  {
    if n < |history| {
      var shorter := history[..|history| - 1];
      assert shorter[..n] == history[..n];
      RebuildFailureStays(machine, spec, shorter, n);
    } else {
      assert history[..n] == history;
    }
  }

  // ----- validation -----

  /** `_compare_selection`. */
  function CompareSelection(step: Step, selection: Selection): (r: Option<BundleError>)
    ensures r.None? <==>
      && step.selectedId == selection.candidate.id
      && step.decision == selection.decision
      && step.rationale == selection.rationale
  {
    if step.selectedId != selection.candidate.id then Some(DecisionMismatch)
    else if step.decision.TableDecision? && selection.decision.TableDecision?
         && step.decision.score != selection.decision.score then Some(ScoreMismatch)
    else if step.decision != selection.decision then Some(DecisionMismatch)
    else if step.rationale != selection.rationale then Some(RationaleMismatch)
    else None
  }

  /** The record a recorded step stands for, with the fixed replay timestamp. */
  function RecordedCompletion(spec: RunSpec, candidate: CandidateSpec, step: Step): Record {
    Record(spec, candidate, spec.policy.Id(), Observation(step.observation.value, step.observation.cost), REPLAY_CREATED_AT)
  }

  /** `_validate_step`. */
  function ValidateStep(machine: Machine, spec: RunSpec, raw: Step, index: nat, history: seq<Record>, cost: real)
    : Result<(Step, Record), BundleError>
    requires ValidMachine(machine) && ValidSpec(spec)
  {
    if CostExhausted(spec, cost) then Err(ContinuesAfterCostExhaustion)
    else
      var step :- MakeStep(raw);
      if step.stepIndex != index then Err(StepIndexGap)
      else if step.selectedId in CompletedIds(history) then Err(RepeatedSelection)
      else
        var selection :- SelectionFor(machine, spec, history);
        var mismatch := CompareSelection(step, selection);
        if mismatch.Some? then Err(mismatch.value)
        else if step.cumulativeCost != cost + step.observation.cost then Err(CumulativeCostMismatch)
        else if CostExceeded(spec, step.cumulativeCost) then Err(CostBudgetExceeded)
        else
          var record := RecordedCompletion(spec, selection.candidate, step);
          var lineage :- LineageFor(machine, spec, history, record);
          if lineage != step.lineage then Err(BeliefMismatch) else Ok((step, record))
  }

  /** The validator's loop: the steps it accepted and the history it rebuilt. */
  function ValidateSteps(machine: Machine, spec: RunSpec, raws: seq<Step>): (r: Result<(seq<Step>, seq<Record>), BundleError>)
    requires ValidMachine(machine) && ValidSpec(spec)
    ensures r.Ok? ==> |r.value.0| == |r.value.1| == |raws|
  {
    if |raws| == 0 then Ok(([], []))
    else
      var n := |raws| - 1;
      var state :- ValidateSteps(machine, spec, raws[..n]);
      var next :- ValidateStep(machine, spec, raws[n], n, state.1, LastCost(state.0));
      Ok((state.0 + [next.0], state.1 + [next.1]))
  }

  datatype StopReason =
    | Completed
    | ExperimentBudgetExhausted
    | CostBudgetExhausted
    | CandidateSpaceExhausted
    | StoppedByCaller

  datatype TerminalSummary = TerminalSummary(
    completedSteps: int,
    selectedIds: seq<string>,
    totalCost: real,
    stopReason: StopReason,
    finalBelief: Option<seq<nat>>,
    decisionHistory: seq<Step>)

  datatype Producer = Producer(packageName: string, packageVersion: string, implementation: string, version: string)

  datatype Sections = Sections(runSpec: RunSpec, steps: seq<Step>, terminalSummary: TerminalSummary)

  datatype Bundle = Bundle(
    runSpec: RunSpec,
    runSpecDigest: RunSpec,
    producer: Producer,
    steps: seq<Step>,
    terminalSummary: TerminalSummary,
    sections: Sections)

  datatype Trace = Trace(runSpec: RunSpec, steps: seq<Step>, stopReason: StopReason)

  function SelectedIds(steps: seq<Step>): (r: seq<string>)
    ensures |r| == |steps|
  {
    seq(|steps|, i requires 0 <= i < |steps| => steps[i].selectedId)
  }

  /** `_final_belief_fingerprint`. */
  function FinalBelief(machine: Machine, spec: RunSpec, steps: seq<Step>): Result<Option<seq<nat>>, BundleError>
    requires ValidSpec(spec)
  {
    if !spec.policy.InformationGain? then Ok(None)
    else if |steps| > 0 then
      var lineage := steps[|steps| - 1].lineage;
      if |lineage| != 1 then Err(BeliefMismatch) else Ok(Some(lineage[0].digestAfter))
    else
      var details := SelectionDetails(machine.num, BIT_LIMIT, spec, []);
      if details.Err? then Err(PolicyFailed) else Ok(Some(details.value.weights))
  }

  function Summarise(machine: Machine, spec: RunSpec, steps: seq<Step>, stop: StopReason): Result<TerminalSummary, BundleError>
    requires ValidSpec(spec)
  {
    var belief :- FinalBelief(machine, spec, steps);
    Ok(TerminalSummary(|steps|, SelectedIds(steps), LastCost(steps), stop, belief, steps))
  }

  /** `_validate_stop_reason`. */
  predicate StopReasonHolds(spec: RunSpec, stop: StopReason, completedSteps: int, totalCost: real) {
    && (stop == ExperimentBudgetExhausted ==> completedSteps == spec.experimentCountBudget)
    && (stop == CostBudgetExhausted ==> CostExhausted(spec, totalCost))
    && (stop == CandidateSpaceExhausted ==> completedSteps == |spec.candidates|)
  }

  function ValidateTerminal(machine: Machine, spec: RunSpec, summary: TerminalSummary, steps: seq<Step>, raws: seq<Step>)
    : Option<BundleError>
    requires ValidSpec(spec)
  {
    if summary.completedSteps != |steps| then Some(TerminalMismatch)
    else if summary.selectedIds != SelectedIds(steps) then Some(TerminalMismatch)
    else if summary.totalCost < 0.0 || summary.totalCost != LastCost(steps) then Some(TerminalMismatch)
    else if !StopReasonHolds(spec, summary.stopReason, |steps|, summary.totalCost) then Some(InvalidStopReason)
    else
      var belief := FinalBelief(machine, spec, steps);
      if belief.Err? then Some(belief.error)
      else if summary.finalBelief != belief.value then Some(BeliefMismatch)
      else if summary.decisionHistory != raws then Some(DigestMismatch)
      else None
  }

  /** `_validated_bundle_v3`. The embedded specification has been decoded, so it is valid. */
  function ValidateBundle(machine: Machine, bundle: Bundle): Result<seq<Record>, BundleError>
    requires ValidMachine(machine) && ValidSpec(bundle.runSpec)
  {
    var spec := bundle.runSpec;
    if bundle.runSpecDigest != spec || bundle.sections.runSpec != bundle.runSpecDigest then Err(DigestMismatch)
    else
      var walked :- ValidateSteps(machine, spec, bundle.steps);
      if |walked.0| > spec.experimentCountBudget then Err(TooManySteps)
      else if bundle.sections.steps != bundle.steps then Err(DigestMismatch)
      else
        var problem := ValidateTerminal(machine, spec, bundle.terminalSummary, walked.0, bundle.steps);
        if problem.Some? then Err(problem.value)
        else if bundle.sections.terminalSummary != bundle.terminalSummary then Err(DigestMismatch)
        else Ok(walked.1)
  }

  /** The loop of `_validated_bundle_v3`. */
  method ValidateRecordedSteps(machine: Machine, spec: RunSpec, raws: seq<Step>)
    returns (r: Result<(seq<Step>, seq<Record>), BundleError>)
    requires ValidMachine(machine) && ValidSpec(spec)
    ensures r == ValidateSteps(machine, spec, raws)
  {
    var history: seq<Record>, steps: seq<Step>, previousCost := [], [], 0.0;
    for i := 0 to |raws|
      invariant ValidateSteps(machine, spec, raws[..i]) == Ok((steps, history))
      invariant previousCost == LastCost(steps)
    {
      assert raws[..i + 1][..i] == raws[..i];
      var next := ValidateStep(machine, spec, raws[i], i, history, previousCost);
      if next.Err? {
        ValidationFailureStays(machine, spec, raws, i + 1);
        return Err(next.error);
      }
      steps := steps + [next.value.0];
      history := history + [next.value.1];
      previousCost := next.value.0.cumulativeCost;
    }
    assert raws[..|raws|] == raws;
    return Ok((steps, history));
  }

  lemma {:induction false} ValidationFailureStays(machine: Machine, spec: RunSpec, raws: seq<Step>, n: nat)
    requires ValidMachine(machine) && ValidSpec(spec)
    requires n <= |raws| && ValidateSteps(machine, spec, raws[..n]).Err?
    ensures ValidateSteps(machine, spec, raws).Err?
    ensures ValidateSteps(machine, spec, raws).error == ValidateSteps(machine, spec, raws[..n]).error
  {
    if n < |raws| {
      var shorter := raws[..|raws| - 1];
      assert shorter[..n] == raws[..n];
      ValidationFailureStays(machine, spec, shorter, n);
    } else {
      assert raws[..n] == raws;
    }
  }

  /** `_build_run_bundle_v3`: summarise, then validate what was built. */
  function BuildBundle(machine: Machine, trace: Trace, producer: Producer): Result<Bundle, BundleError>
    requires ValidMachine(machine) && ValidSpec(trace.runSpec)
  {
    var spec := trace.runSpec;
    var summary :- Summarise(machine, spec, trace.steps, trace.stopReason);
    if !StopReasonHolds(spec, trace.stopReason, |trace.steps|, summary.totalCost) then Err(InvalidStopReason)
    else
      var bundle := Bundle(spec, spec, producer, trace.steps, summary, Sections(spec, trace.steps, summary));
      var _ :- ValidateBundle(machine, bundle);
      Ok(bundle)
  }

  // ----- replay -----

  /** `_compare_rebuilt_step`. */
  function CompareRebuilt(recorded: Step, rebuilt: Step): (r: Option<BundleError>)
    ensures r.None? <==> recorded == rebuilt
  {
    if recorded.lineage != rebuilt.lineage then Some(BeliefMismatch)
    else if recorded != rebuilt then Some(RebuiltStepMismatch)
    else None
  }

  /** One turn of the replay loop. */
  function ReplayOne(machine: Machine, spec: RunSpec, recorded: Step, history: seq<Record>, cost: real)
    : Result<(Step, Record), BundleError>
    requires ValidMachine(machine) && ValidSpec(spec)
  {
    var selection :- SelectionFor(machine, spec, history);
    var mismatch := CompareSelection(recorded, selection);
    if mismatch.Some? then Err(mismatch.value)
    else
      var record := RecordedCompletion(spec, selection.candidate, recorded);
      var rebuilt :- StepFromCompletion(machine, spec, record, history, cost);
      var difference := CompareRebuilt(recorded, rebuilt);
      if difference.Some? then Err(difference.value) else Ok((rebuilt, record))
  }

  function ReplaySteps(machine: Machine, spec: RunSpec, recorded: seq<Step>): (r: Result<(seq<Step>, seq<Record>), BundleError>)
    requires ValidMachine(machine) && ValidSpec(spec)
  {
    if |recorded| == 0 then Ok(([], []))
    else
      var n := |recorded| - 1;
      var state :- ReplaySteps(machine, spec, recorded[..n]);
      var next :- ReplayOne(machine, spec, recorded[n], state.1, LastCost(state.0));
      Ok((state.0 + [next.0], state.1 + [next.1]))
  }

  /** The fresh database of a replay: an append-only table of completions. */
  class ExperimentStore {
    var records: seq<Record>

    constructor ()
      ensures records == []
    {
      records := [];
    }

    method AddWorkloadExperiment(record: Record) returns (persisted: Record)
      modifies this
      ensures records == old(records) + [record]
      ensures persisted == record
    {
      records := records + [record];
      return record;
    }
  }

  /** The replay loop, persisting each reconstructed completion. */
  method ReplayRecordedSteps(machine: Machine, spec: RunSpec, recorded: seq<Step>, store: ExperimentStore)
    returns (r: Result<(seq<Step>, seq<Record>), BundleError>)
    requires ValidMachine(machine) && ValidSpec(spec)
    requires store.records == []
    modifies store
    ensures r == ReplaySteps(machine, spec, recorded)
    ensures r.Ok? ==> store.records == r.value.1
  {
    var history: seq<Record>, rebuiltSteps: seq<Step>, cumulative := [], [], 0.0;
    for i := 0 to |recorded|
      invariant ReplaySteps(machine, spec, recorded[..i]) == Ok((rebuiltSteps, history))
      invariant cumulative == LastCost(rebuiltSteps)
      invariant store.records == history
    {
      assert recorded[..i + 1][..i] == recorded[..i];
      var next := ReplayOne(machine, spec, recorded[i], history, cumulative);
      if next.Err? {
        ReplayLoopFailureStays(machine, spec, recorded, i + 1);
        return Err(next.error);
      }
      var persisted := store.AddWorkloadExperiment(next.value.1);
      history := history + [persisted];
      rebuiltSteps := rebuiltSteps + [next.value.0];
      cumulative := next.value.0.cumulativeCost;
    }
    assert recorded[..|recorded|] == recorded;
    return Ok((rebuiltSteps, history));
  }

  lemma {:induction false} ReplayLoopFailureStays(machine: Machine, spec: RunSpec, recorded: seq<Step>, n: nat)
    requires ValidMachine(machine) && ValidSpec(spec)
    requires n <= |recorded| && ReplaySteps(machine, spec, recorded[..n]).Err?
    ensures ReplaySteps(machine, spec, recorded) == ReplaySteps(machine, spec, recorded[..n])
  {
    if n < |recorded| {
      var shorter := recorded[..|recorded| - 1];
      assert shorter[..n] == recorded[..n];
      ReplayLoopFailureStays(machine, spec, shorter, n);
    } else {
      assert recorded[..n] == recorded;
    }
  }

  /** What `replay_run_bundle_v3` does after verification: replay, recompute the terminal
      summary, and rebuild the steps from the stored history. */
  function ReplayBundle(machine: Machine, bundle: Bundle): Result<seq<Record>, BundleError>
    requires ValidMachine(machine) && ValidSpec(bundle.runSpec)
  {
    var _ :- ValidateBundle(machine, bundle);
    var spec := bundle.runSpec;
    var replayed :- ReplaySteps(machine, spec, bundle.steps);
    var summary :- Summarise(machine, spec, replayed.0, bundle.terminalSummary.stopReason);
    if summary != bundle.terminalSummary then Err(TerminalMismatch)
    else
      var reopened :- StepsFromHistory(machine, spec, replayed.1);
      if reopened != replayed.0 then Err(BeliefMismatch) else Ok(replayed.1)
  }
}
