/** The four walks over a run agree: capturing, validating, replaying and rebuilding. */
module RunBundleAgreement {
  import opened Wrappers
  import opened Ordering
  import opened GcdReduction
  import opened InformationGainTable
  import opened RunSpecs
  import opened TablePolicy
  import opened GenericPolicies
  import opened RunBundleV3

  // ----- timestamps do not matter -----

  function Retime(record: Record): Record {
    record.(createdAt := REPLAY_CREATED_AT)
  }

  function RetimeAll(history: seq<Record>): (r: seq<Record>)
    ensures |r| == |history|
  {
    seq(|history|, i requires 0 <= i < |history| => Retime(history[i]))
  }

  lemma RetimePrefix(history: seq<Record>, n: nat)
    requires n <= |history|
    ensures RetimeAll(history)[..n] == RetimeAll(history[..n])
  {
  }

  lemma RetimedIds(history: seq<Record>)
    ensures CompletedIds(RetimeAll(history)) == CompletedIds(history)
    ensures CompletedIdList(RetimeAll(history)) == CompletedIdList(history)
  {
    var other := RetimeAll(history);
    forall id | id in CompletedIds(history) ensures id in CompletedIds(other) {
      var r :| r in history && r.candidate.id == id;
      var i :| 0 <= i < |history| && history[i] == r;
      assert other[i] in other;
    }
    forall id | id in CompletedIds(other) ensures id in CompletedIds(history) {
      var r :| r in other && r.candidate.id == id;
      var i :| 0 <= i < |other| && other[i] == r;
      assert history[i] in history;
    }
  }

  lemma {:induction false} RetimedReplay(limit: Option<nat>, spec: RunSpec, history: seq<Record>)
    requires spec.policy.InformationGain? && ValidModel(spec.policy.model)
    ensures Replay(limit, spec, RetimeAll(history)) == Replay(limit, spec, history)
  {
    hide ReplayStep;
    if |history| > 0 {
      RetimedReplay(limit, spec, history[..|history| - 1]);
      RetimePrefix(history, |history| - 1);
      if Replay(limit, spec, history[..|history| - 1]).Ok? {
        RetimedReplayStep(limit, spec, Replay(limit, spec, history[..|history| - 1]).value, history[|history| - 1]);
      }
    }
  }

  lemma RetimedReplayStep(limit: Option<nat>, spec: RunSpec, state: Replayed, record: Record)
    requires spec.policy.InformationGain? && ValidModel(spec.policy.model)
    ensures ReplayStep(limit, spec, state, Retime(record)) == ReplayStep(limit, spec, state, record)
  {
    hide UpdateBelief, ClassifyFrom;
  }

  lemma RetimedSelection(machine: Machine, spec: RunSpec, history: seq<Record>)
    requires ValidMachine(machine) && ValidSpec(spec)
    ensures SelectionFor(machine, spec, RetimeAll(history)) == SelectionFor(machine, spec, history)
  {
    hide Replay, SelectFrom, Eligible, ScanEligible;
    RetimedIds(history);
    if spec.policy.InformationGain? {
      RetimedReplay(BIT_LIMIT, spec, history);
    }
  }

  lemma RetimedLineage(machine: Machine, spec: RunSpec, history: seq<Record>, record: Record)
    requires ValidSpec(spec)
    ensures LineageFor(machine, spec, RetimeAll(history), Retime(record)) == LineageFor(machine, spec, history, record)
  {
    hide Replay, SelectFrom, Eligible, UpdateBelief;
    if spec.policy.InformationGain? {
      RetimedReplay(BIT_LIMIT, spec, history);
    }
  }

  /** A completion is captured as the same step whatever the timestamps say. */
  lemma RetimedStep(machine: Machine, spec: RunSpec, record: Record, history: seq<Record>, cost: real)
    requires ValidMachine(machine) && ValidSpec(spec)
    ensures StepFromCompletion(machine, spec, Retime(record), RetimeAll(history), cost)
         == StepFromCompletion(machine, spec, record, history, cost)
  {
    RetimedSelection(machine, spec, history);
    RetimedLineage(machine, spec, history, record);
    RetimedAssembly(spec, SelectionFor(machine, spec, history), LineageFor(machine, spec, history, record),
                    record, |history|, cost);
  }

  lemma RetimedAssembly(spec: RunSpec, selected: Result<Selection, BundleError>, derived: Result<seq<Lineage>, BundleError>,
                        record: Record, index: nat, cost: real)
    ensures AssembleStep(spec, selected, derived, Retime(record), index, cost)
         == AssembleStep(spec, selected, derived, record, index, cost)
  {
    assert Matches(spec, Retime(record)) == Matches(spec, record);
  }

  // ----- one step -----

  /** Every policy selects one of its own candidates that is still open. */
  lemma SelectionIsOpen(machine: Machine, spec: RunSpec, history: seq<Record>)
    requires ValidMachine(machine) && ValidSpec(spec) && SelectionFor(machine, spec, history).Ok?
    ensures var s := SelectionFor(machine, spec, history).value;
      && s.candidate in Eligible(spec.candidates, CompletedIds(history))
      && s.candidate.id !in CompletedIds(history)
      && CandidateById(spec.candidates, s.candidate.id) == Some(s.candidate)
  {
    var s := SelectionFor(machine, spec, history).value;
    var open := Eligible(spec.candidates, CompletedIds(history));
    assert s.candidate in open;
    MatchingCandidate(spec, s.candidate);
  }

  /** What a successful capture has checked and recorded. */
  lemma CapturedStepFacts(machine: Machine, spec: RunSpec, record: Record, history: seq<Record>, cost: real)
    requires ValidMachine(machine) && ValidSpec(spec)
    requires StepFromCompletion(machine, spec, record, history, cost).Ok?
    ensures var step := StepFromCompletion(machine, spec, record, history, cost).value;
      && Matches(spec, record)
      && SelectionFor(machine, spec, history).Ok?
      && var s := SelectionFor(machine, spec, history).value;
      && s.candidate == record.candidate
      && step == StepPayload(s, step.lineage, record.observation, |history|, cost + record.observation.cost)
      && LineageFor(machine, spec, history, record) == Ok(step.lineage)
      && !CostExhausted(spec, cost) && !CostExceeded(spec, step.cumulativeCost)
  {
    hide SelectionFor, LineageFor, MakeStep;
  }

  /** An accepted step is what capturing its own observation would produce. */
  lemma AcceptedStepIsCaptured(machine: Machine, spec: RunSpec, raw: Step, history: seq<Record>, cost: real)
    requires ValidMachine(machine) && ValidSpec(spec)
    requires ValidateStep(machine, spec, raw, |history|, history, cost).Ok?
    ensures var (step, record) := ValidateStep(machine, spec, raw, |history|, history, cost).value;
      && step == raw
      && record.createdAt == REPLAY_CREATED_AT
      && SelectionFor(machine, spec, history).Ok?
      && record == RecordedCompletion(spec, SelectionFor(machine, spec, history).value.candidate, raw)
      && StepFromCompletion(machine, spec, record, history, cost) == Ok(raw)
  {
    hide SelectionFor, LineageFor, MakeStep, CandidateById;
    SelectionIsOpen(machine, spec, history);
    var selection := SelectionFor(machine, spec, history).value;
    var record := RecordedCompletion(spec, selection.candidate, raw);
    assert Matches(spec, record);
    var lineage := LineageFor(machine, spec, history, record).value;
    assert raw == Step(|history|, selection.candidate.id, selection.decision, selection.rationale,
                       ObservationPayload(selection.candidate.id, record.observation.value, record.observation.cost),
                       lineage, cost + record.observation.cost);
  }

  /** A captured step is accepted by the validator, and replayed, at the same place. */
  lemma CapturedStepIsAccepted(machine: Machine, spec: RunSpec, record: Record, raw: Step, history: seq<Record>, cost: real)
    requires ValidMachine(machine) && ValidSpec(spec)
    requires StepFromCompletion(machine, spec, record, history, cost) == Ok(raw)
    ensures ValidateStep(machine, spec, raw, |history|, history, cost) == Ok((raw, Retime(record)))
    ensures ReplayOne(machine, spec, raw, history, cost) == Ok((raw, Retime(record)))
  {
    hide SelectionFor, LineageFor, MakeStep, CandidateById;
    SelectionIsOpen(machine, spec, history);
    var selection := SelectionFor(machine, spec, history).value;
    assert Retime(record) == RecordedCompletion(spec, selection.candidate, raw);
    SameLineage(machine, spec, history, record);
    SameCapture(machine, spec, record, history, cost);
  }

  lemma SameLineage(machine: Machine, spec: RunSpec, history: seq<Record>, record: Record)
    requires ValidSpec(spec)
    ensures LineageFor(machine, spec, history, Retime(record)) == LineageFor(machine, spec, history, record)
  {
  }

  lemma SameCapture(machine: Machine, spec: RunSpec, record: Record, history: seq<Record>, cost: real)
    requires ValidMachine(machine) && ValidSpec(spec)
    ensures StepFromCompletion(machine, spec, Retime(record), history, cost)
         == StepFromCompletion(machine, spec, record, history, cost)
  {
    SameLineage(machine, spec, history, record);
    RetimedAssembly(spec, SelectionFor(machine, spec, history), LineageFor(machine, spec, history, record),
                    record, |history|, cost);
  }

  // ----- whole runs -----

  /** Any captured run is accepted by the validator and met without mismatch by the replay
      loop; both rebuild the history up to its timestamps. */
  lemma {:induction false} CapturedRunIsAccepted(machine: Machine, spec: RunSpec, history: seq<Record>)
    requires ValidMachine(machine) && ValidSpec(spec)
    requires StepsFromHistory(machine, spec, history).Ok?
    ensures var steps := StepsFromHistory(machine, spec, history).value;
      && ValidateSteps(machine, spec, steps) == Ok((steps, RetimeAll(history)))
      && ReplaySteps(machine, spec, steps) == Ok((steps, RetimeAll(history)))
  {
    hide StepFromCompletion, ValidateStep, ReplayOne;
    if |history| > 0 {
      var n := |history| - 1;
      var before, steps := history[..n], StepsFromHistory(machine, spec, history).value;
      CapturedRunIsAccepted(machine, spec, before);
      assert steps[..n] == StepsFromHistory(machine, spec, before).value;
      RetimedStep(machine, spec, history[n], before, LastCost(steps[..n]));
      CapturedStepIsAccepted(machine, spec, Retime(history[n]), steps[n], RetimeAll(before), LastCost(steps[..n]));
      assert RetimeAll(history) == RetimeAll(before) + [Retime(history[n])];
      assert steps == steps[..n] + [steps[n]];
    }
  }

  /** Conversely the history a validation rebuilds captures exactly the recorded steps. */
  lemma {:induction false} AcceptedRunIsCaptured(machine: Machine, spec: RunSpec, raws: seq<Step>)
    requires ValidMachine(machine) && ValidSpec(spec)
    requires ValidateSteps(machine, spec, raws).Ok?
    ensures var (steps, history) := ValidateSteps(machine, spec, raws).value;
      && steps == raws
      && history == RetimeAll(history)
      && StepsFromHistory(machine, spec, history) == Ok(raws)
  {
    hide StepFromCompletion, ValidateStep, SelectionFor;
    if |raws| > 0 {
      var n := |raws| - 1;
      AcceptedRunIsCaptured(machine, spec, raws[..n]);
      var (steps, before) := ValidateSteps(machine, spec, raws[..n]).value;
      AcceptedStepIsCaptured(machine, spec, raws[n], before, LastCost(steps));
      var record := ValidateStep(machine, spec, raws[n], n, before, LastCost(steps)).value.1;
      var history := before + [record];
      assert history[..n] == before;
      assert raws == raws[..n] + [raws[n]];
      assert RetimeAll(history) == RetimeAll(before) + [Retime(record)];
    }
  }

  // ----- whole bundles -----

  lemma SummaryChecks(machine: Machine, spec: RunSpec, summary: TerminalSummary, steps: seq<Step>)
    requires ValidSpec(spec) && LastCost(steps) >= 0.0
    ensures ValidateTerminal(machine, spec, summary, steps, steps).None? <==>
      && Summarise(machine, spec, steps, summary.stopReason) == Ok(summary)
      && StopReasonHolds(spec, summary.stopReason, |steps|, LastCost(steps))
  {
  }

  lemma CapturedCostsNonNegative(machine: Machine, spec: RunSpec, history: seq<Record>)
    requires ValidMachine(machine) && ValidSpec(spec)
    requires StepsFromHistory(machine, spec, history).Ok?
    ensures LastCost(StepsFromHistory(machine, spec, history).value) >= 0.0
  {
    hide SelectionFor, LineageFor, MakeStep, Matches;
  }

  ghost predicate Digested(bundle: Bundle) {
    && bundle.runSpecDigest == bundle.runSpec
    && bundle.sections == Sections(bundle.runSpec, bundle.steps, bundle.terminalSummary)
  }

  /** The bundle records a captured run, within its experiment budget, with the computed
      summary and a stop reason that holds. */
  ghost predicate RecordsRun(machine: Machine, bundle: Bundle, history: seq<Record>)
    requires ValidMachine(machine) && ValidSpec(bundle.runSpec)
  {
    && StepsFromHistory(machine, bundle.runSpec, history) == Ok(bundle.steps)
    && |bundle.steps| <= bundle.runSpec.experimentCountBudget
    && Summarise(machine, bundle.runSpec, bundle.steps, bundle.terminalSummary.stopReason) == Ok(bundle.terminalSummary)
    && StopReasonHolds(bundle.runSpec, bundle.terminalSummary.stopReason, |bundle.steps|, LastCost(bundle.steps))
  }

  /** Acceptance, exactly: a bundle validates if and only if its digests bind and some history
      of completions captures precisely its steps. */
  lemma AcceptedIffRecordsRun(machine: Machine, bundle: Bundle)
    requires ValidMachine(machine) && ValidSpec(bundle.runSpec)
    ensures ValidateBundle(machine, bundle).Ok? <==>
      Digested(bundle) && exists history :: RecordsRun(machine, bundle, history)
  {
    if ValidateBundle(machine, bundle).Ok? {
      AcceptedBundleRecordsRun(machine, bundle);
    }
    if Digested(bundle) && exists history :: RecordsRun(machine, bundle, history) {
      var history :| RecordsRun(machine, bundle, history);
      RecordedRunIsAccepted(machine, bundle, history);
    }
  }

  lemma AcceptedBundleRecordsRun(machine: Machine, bundle: Bundle)
    requires ValidMachine(machine) && ValidSpec(bundle.runSpec)
    requires ValidateBundle(machine, bundle).Ok?
    ensures Digested(bundle)
    ensures RecordsRun(machine, bundle, ValidateBundle(machine, bundle).value)
  {
    AcceptedRunIsCaptured(machine, bundle.runSpec, bundle.steps);
    var history := ValidateBundle(machine, bundle).value;
    CapturedCostsNonNegative(machine, bundle.runSpec, history);
    SummaryChecks(machine, bundle.runSpec, bundle.terminalSummary, bundle.steps);
  }

  lemma RecordedRunIsAccepted(machine: Machine, bundle: Bundle, history: seq<Record>)
    requires ValidMachine(machine) && ValidSpec(bundle.runSpec)
    requires Digested(bundle) && RecordsRun(machine, bundle, history)
    ensures ValidateBundle(machine, bundle) == Ok(RetimeAll(history))
  {
    CapturedRunIsAccepted(machine, bundle.runSpec, history);
    CapturedCostsNonNegative(machine, bundle.runSpec, history);
    SummaryChecks(machine, bundle.runSpec, bundle.terminalSummary, bundle.steps);
  }

  /** Replaying an accepted bundle meets no mismatch: it stores the validated history, rebuilds
      the recorded steps and summary, and the steps rebuilt from that history are the recorded ones. */
  lemma AcceptedBundleReplays(machine: Machine, bundle: Bundle)
    requires ValidMachine(machine) && ValidSpec(bundle.runSpec)
    requires ValidateBundle(machine, bundle).Ok?
    ensures var history := ValidateBundle(machine, bundle).value;
      && ReplaySteps(machine, bundle.runSpec, bundle.steps) == Ok((bundle.steps, history))
      && StepsFromHistory(machine, bundle.runSpec, history) == Ok(bundle.steps)
      && ReplayBundle(machine, bundle) == Ok(history)
  {
    AcceptedBundleRecordsRun(machine, bundle);
    var history := ValidateBundle(machine, bundle).value;
    AcceptedRunIsCaptured(machine, bundle.runSpec, bundle.steps);
    CapturedRunIsAccepted(machine, bundle.runSpec, history);
  }

  /** Exporting a captured run succeeds exactly when it is within the experiment budget and its
      stop reason holds; the bundle then records the run and replays to it. */
  lemma CapturedRunExports(machine: Machine, spec: RunSpec, history: seq<Record>, stop: StopReason, producer: Producer)
    requires ValidMachine(machine) && Faithful(machine.num) && ValidSpec(spec)
    requires StepsFromHistory(machine, spec, history).Ok?
    ensures var steps := StepsFromHistory(machine, spec, history).value;
      var built := BuildBundle(machine, Trace(spec, steps, stop), producer);
      && (built.Ok? <==> |steps| <= spec.experimentCountBudget && StopReasonHolds(spec, stop, |steps|, LastCost(steps)))
      && (built.Ok? ==>
            && built.value.runSpec == spec
            && built.value.steps == steps
            && ReplayBundle(machine, built.value) == Ok(RetimeAll(history)))
  {
    var steps := StepsFromHistory(machine, spec, history).value;
    CapturedRunSummarises(machine, spec, history, stop);
    var summary := Summarise(machine, spec, steps, stop).value;
    var bundle := Bundle(spec, spec, producer, steps, summary, Sections(spec, steps, summary));
    if |steps| <= spec.experimentCountBudget && StopReasonHolds(spec, stop, |steps|, LastCost(steps)) {
      assert RecordsRun(machine, bundle, history);
      RecordedRunIsAccepted(machine, bundle, history);
      AcceptedBundleReplays(machine, bundle);
    } else if BuildBundle(machine, Trace(spec, steps, stop), producer).Ok? {
      AcceptedBundleRecordsRun(machine, bundle);
    }
  }

  lemma CapturedRunSummarises(machine: Machine, spec: RunSpec, history: seq<Record>, stop: StopReason)
    requires ValidMachine(machine) && Faithful(machine.num) && ValidSpec(spec)
    requires StepsFromHistory(machine, spec, history).Ok?
    ensures Summarise(machine, spec, StepsFromHistory(machine, spec, history).value, stop).Ok?
  {
    hide StepFromCompletion, SelectionDetails;
    if spec.policy.InformationGain? {
      if |history| == 0 {
        EmptyRunHasBelief(machine.num, spec);
      } else {
        LineageHasOneLink(machine, spec, history);
      }
    }
  }

  lemma EmptyRunHasBelief(num: Numerics, spec: RunSpec)
    requires Faithful(num) && TableSpec(spec)
    ensures SelectionDetails(num, BIT_LIMIT, spec, []).Ok?
  {
    hide SelectionDetails;
    SelectionIsFirstMaximum(num, BIT_LIMIT, spec, []);
    assert spec.candidates[0] in Eligible(spec.candidates, CompletedIds([]));
  }

  lemma LineageHasOneLink(machine: Machine, spec: RunSpec, history: seq<Record>)
    requires ValidMachine(machine) && ValidSpec(spec) && spec.policy.InformationGain?
    requires StepsFromHistory(machine, spec, history).Ok? && |history| > 0
    ensures |StepsFromHistory(machine, spec, history).value[|history| - 1].lineage| == 1
  {
    hide StepFromCompletion, LineageForObservation;
    var n := |history| - 1;
    var before := StepsFromHistory(machine, spec, history[..n]).value;
    CapturedStepFacts(machine, spec, history[n], history[..n], LastCost(before));
  }

  // ----- a bundle is determined by its inputs -----

  function Observations(steps: seq<Step>): (r: seq<Observation>)
    ensures |r| == |steps|
  {
    seq(|steps|, i requires 0 <= i < |steps| => Observation(steps[i].observation.value, steps[i].observation.cost))
  }

  lemma {:induction false} StepsDetermined(machine: Machine, spec: RunSpec, a: seq<Step>, b: seq<Step>)
    requires ValidMachine(machine) && ValidSpec(spec)
    requires ValidateSteps(machine, spec, a).Ok? && ValidateSteps(machine, spec, b).Ok?
    requires Observations(a) == Observations(b)
    ensures a == b
    decreases |a|
  {
    hide StepFromCompletion, ValidateStep;
    assert |a| == |Observations(a)| == |Observations(b)| == |b|;
    if |a| > 0 {
      var n := |a| - 1;
      assert Observations(a[..n]) == Observations(a)[..n];
      assert Observations(b[..n]) == Observations(b)[..n];
      StepsDetermined(machine, spec, a[..n], b[..n]);
      var (steps, history) := ValidateSteps(machine, spec, a[..n]).value;
      assert Observations(a)[n] == Observations(b)[n];
      StepDetermined(machine, spec, a[n], b[n], history, LastCost(steps));
    }
  }

  lemma StepDetermined(machine: Machine, spec: RunSpec, a: Step, b: Step, history: seq<Record>, cost: real)
    requires ValidMachine(machine) && ValidSpec(spec)
    requires ValidateStep(machine, spec, a, |history|, history, cost).Ok?
    requires ValidateStep(machine, spec, b, |history|, history, cost).Ok?
    requires a.observation.value == b.observation.value && a.observation.cost == b.observation.cost
    ensures a == b
  {
    hide StepFromCompletion, ValidateStep, SelectionFor;
    AcceptedStepIsCaptured(machine, spec, a, history, cost);
    AcceptedStepIsCaptured(machine, spec, b, history, cost);
  }

  /** Two accepted bundles with the same specification, observations, stop reason and producer
      are the same bundle, whichever of the three policies ran. */
  lemma BundlesDeterminedByInputs(machine: Machine, a: Bundle, b: Bundle)
    requires ValidMachine(machine) && ValidSpec(a.runSpec) && a.runSpec == b.runSpec
    requires ValidateBundle(machine, a).Ok? && ValidateBundle(machine, b).Ok?
    requires Observations(a.steps) == Observations(b.steps)
    requires a.terminalSummary.stopReason == b.terminalSummary.stopReason && a.producer == b.producer
    ensures a == b
  {
    StepsDetermined(machine, a.runSpec, a.steps, b.steps);
    AcceptedBundleRecordsRun(machine, a);
    AcceptedBundleRecordsRun(machine, b);
  }

  // ----- what every step of an accepted bundle says -----

  lemma {:induction false} CapturedPrefix(machine: Machine, spec: RunSpec, history: seq<Record>, i: nat)
    requires ValidMachine(machine) && ValidSpec(spec)
    requires StepsFromHistory(machine, spec, history).Ok? && i < |history|
    ensures var steps := StepsFromHistory(machine, spec, history).value;
      && StepsFromHistory(machine, spec, history[..i]) == Ok(steps[..i])
      && StepFromCompletion(machine, spec, history[i], history[..i], LastCost(steps[..i])) == Ok(steps[i])
  {
    hide StepFromCompletion;
    var n := |history| - 1;
    var steps := StepsFromHistory(machine, spec, history).value;
    var before := StepsFromHistory(machine, spec, history[..n]).value;
    assert steps[..n] == before;
    if i < n {
      CapturedPrefix(machine, spec, history[..n], i);
      assert history[..n][..i] == history[..i] && before[..i] == steps[..i];
    }
  }

  /** The identifiers a step's rationale lists as completed and as eligible. */
  function ListedCompleted(step: Step): seq<string> {
    step.rationale.completedIds
  }

  function ListedEligible(step: Step): seq<string> {
    step.rationale.eligibleIds
  }

  /** At every step of an accepted bundle, under every policy: the listed completed candidates are those selected
      so far, and they and the eligible ones partition the specification's candidates. */
  lemma ListedCandidatesPartition(machine: Machine, bundle: Bundle, i: nat)
    requires ValidMachine(machine) && ValidSpec(bundle.runSpec)
    requires ValidateBundle(machine, bundle).Ok? && i < |bundle.steps|
    ensures var step := bundle.steps[i];
      && step.stepIndex == i
      && ListedCompleted(step) == SelectedIds(bundle.steps)[..i]
      && (forall id :: Known(bundle.runSpec.candidates, id) <==> id in ListedCompleted(step) || id in ListedEligible(step))
      && (forall id :: !(id in ListedCompleted(step) && id in ListedEligible(step)))
      && step.selectedId in ListedEligible(step)
  {
    hide StepFromCompletion, ValidateBundle, SelectionFor, LineageFor, StepsFromHistory;
    AcceptedBundleRecordsRun(machine, bundle);
    var spec, history := bundle.runSpec, ValidateBundle(machine, bundle).value;
    CapturedPrefix(machine, spec, history, i);
    CapturedStepFacts(machine, spec, history[i], history[..i], LastCost(bundle.steps[..i]));
    ListedIds(machine, spec, history[..i]);
    SelectedAreCompleted(machine, spec, history, i);
    CompletedAreKnown(machine, spec, history, i);
    PartitionOfKnown(spec, history[..i]);
  }

  lemma SelectedAreCompleted(machine: Machine, spec: RunSpec, history: seq<Record>, i: nat)
    requires ValidMachine(machine) && ValidSpec(spec)
    requires StepsFromHistory(machine, spec, history).Ok? && i <= |history|
    ensures CompletedIdList(history[..i]) == SelectedIds(StepsFromHistory(machine, spec, history).value)[..i]
  {
    hide StepFromCompletion, SelectionFor, LineageFor;
    var steps := StepsFromHistory(machine, spec, history).value;
    forall j | 0 <= j < i ensures SelectedIds(steps)[j] == history[j].candidate.id {
      CapturedPrefix(machine, spec, history, j);
      CapturedStepFacts(machine, spec, history[j], history[..j], LastCost(steps[..j]));
    }
  }

  lemma CompletedAreKnown(machine: Machine, spec: RunSpec, history: seq<Record>, i: nat)
    requires ValidMachine(machine) && ValidSpec(spec)
    requires StepsFromHistory(machine, spec, history).Ok? && i <= |history|
    ensures forall r :: r in history[..i] ==> Matches(spec, r)
  {
    hide StepFromCompletion, SelectionFor, LineageFor;
    var steps := StepsFromHistory(machine, spec, history).value;
    forall r | r in history[..i] ensures Matches(spec, r) {
      var j :| 0 <= j < i && history[..i][j] == r;
      CapturedPrefix(machine, spec, history, j);
      CapturedStepFacts(machine, spec, history[j], history[..j], LastCost(steps[..j]));
    }
  }

  lemma PartitionOfKnown(spec: RunSpec, history: seq<Record>)
    requires ValidSpec(spec) && forall r :: r in history ==> Matches(spec, r)
    ensures var open := Ids(Eligible(spec.candidates, CompletedIds(history)));
      && (forall id :: Known(spec.candidates, id) <==> id in CompletedIdList(history) || id in open)
      && (forall id :: !(id in CompletedIdList(history) && id in open))
  {
    var eligible := Eligible(spec.candidates, CompletedIds(history));
    var open := Ids(eligible);
    forall id ensures id in open <==> Known(spec.candidates, id) && id !in CompletedIds(history) {
      if Known(spec.candidates, id) && id !in CompletedIds(history) {
        var c :| c in spec.candidates && c.id == id;
        var k :| 0 <= k < |eligible| && eligible[k] == c;
        assert open[k] == id;
      }
      if id in open {
        var k :| 0 <= k < |open| && open[k] == id;
        assert eligible[k] in eligible;
      }
    }
    forall id ensures id in CompletedIdList(history) <==> id in CompletedIds(history) {
      IdListMembers(history, id);
    }
    forall id | id in CompletedIds(history) ensures Known(spec.candidates, id) {
      var r :| r in history && r.candidate.id == id;
      assert Matches(spec, r);
    }
  }

  lemma IdListMembers(history: seq<Record>, id: string)
    ensures id in CompletedIdList(history) <==> id in CompletedIds(history)
  {
    if id in CompletedIdList(history) {
      var k :| 0 <= k < |history| && CompletedIdList(history)[k] == id;
      assert history[k] in history;
    }
    if id in CompletedIds(history) {
      var r :| r in history && r.candidate.id == id;
      var k :| 0 <= k < |history| && history[k] == r;
      assert CompletedIdList(history)[k] == id;
    }
  }

  lemma ListedIds(machine: Machine, spec: RunSpec, history: seq<Record>)
    requires ValidMachine(machine) && ValidSpec(spec) && SelectionFor(machine, spec, history).Ok?
    ensures var s := SelectionFor(machine, spec, history).value;
      && s.rationale.completedIds == CompletedIdList(history)
      && s.rationale.eligibleIds == Ids(Eligible(spec.candidates, CompletedIds(history)))
      && s.candidate.id in s.rationale.eligibleIds
  {
    SelectionIsOpen(machine, spec, history);
    var s := SelectionFor(machine, spec, history).value;
    var open := Eligible(spec.candidates, CompletedIds(history));
    var k :| 0 <= k < |open| && open[k] == s.candidate;
    assert Ids(open)[k] == s.candidate.id;
  }

  /** Step `i` carries one link: it starts where the previous ended, or at the priors; it ends in
      reduced weights; and the last link ends at the recorded final belief. */
  ghost predicate LinkedAt(bundle: Bundle, i: nat)
    requires bundle.runSpec.policy.InformationGain? && i < |bundle.steps|
  {
    && |bundle.steps[i].lineage| == 1
    && var link := bundle.steps[i].lineage[0];
    && |link.weightsAfter| > 0
    && GcdAll(link.weightsAfter) == 1
    && (i == 0 ==> link.weightsBefore == bundle.runSpec.policy.model.priors)
    && (i + 1 < |bundle.steps| ==>
          && |bundle.steps[i + 1].lineage| == 1
          && bundle.steps[i + 1].lineage[0].weightsBefore == link.weightsAfter)
    && (i + 1 == |bundle.steps| ==> bundle.terminalSummary.finalBelief == Some(link.weightsAfter))
  }

  /** The link of step `i` goes from the replayed belief of the history before it to that of the history
      with it. */
  ghost predicate LinkReplays(bundle: Bundle, history: seq<Record>, i: nat)
    requires ValidSpec(bundle.runSpec) && bundle.runSpec.policy.InformationGain? && i < |bundle.steps|
  {
    && i < |history| && |bundle.steps[i].lineage| == 1
    && var before, after := Replay(BIT_LIMIT, bundle.runSpec, history[..i]), Replay(BIT_LIMIT, bundle.runSpec, history[..i + 1]);
    && before.Ok? && bundle.steps[i].lineage[0].weightsBefore == before.value.weights
    && after.Ok? && bundle.steps[i].lineage[0].weightsAfter == after.value.weights
  }

  /** The belief lineage of an accepted table-policy bundle is one unbroken chain from the
      priors, and every link holds the replayed belief of its prefix. */
  lemma LineageChain(machine: Machine, bundle: Bundle, i: nat)
    requires ValidMachine(machine) && ValidSpec(bundle.runSpec) && bundle.runSpec.policy.InformationGain?
    requires ValidateBundle(machine, bundle).Ok? && i < |bundle.steps|
    ensures LinkedAt(bundle, i)
    ensures LinkReplays(bundle, ValidateBundle(machine, bundle).value, i)
  {
    hide StepFromCompletion, ValidateBundle, Replay, StepsFromHistory, SelectionDetails;
    AcceptedBundleRecordsRun(machine, bundle);
    var spec, history := bundle.runSpec, ValidateBundle(machine, bundle).value;
    assert history[..0] == [] && Replay(BIT_LIMIT, spec, []) == Ok(Replayed(spec.policy.model.priors, {})) by {
      EmptyReplay(BIT_LIMIT, spec);
    }
    LineageLink(machine, spec, history, i);
    if i + 1 < |bundle.steps| {
      LineageLink(machine, spec, history, i + 1);
    }
  }

  lemma EmptyReplay(limit: Option<nat>, spec: RunSpec)
    requires spec.policy.InformationGain? && ValidModel(spec.policy.model)
    ensures Replay(limit, spec, []) == Ok(Replayed(spec.policy.model.priors, {}))
  {
  }

  lemma LineageLink(machine: Machine, spec: RunSpec, history: seq<Record>, i: nat)
    requires ValidMachine(machine) && ValidSpec(spec) && spec.policy.InformationGain?
    requires StepsFromHistory(machine, spec, history).Ok? && i < |history|
    ensures var step := StepsFromHistory(machine, spec, history).value[i];
      && |step.lineage| == 1
      && Replay(BIT_LIMIT, spec, history[..i]).Ok? && Replay(BIT_LIMIT, spec, history[..i + 1]).Ok?
      && step.lineage[0].weightsBefore == Replay(BIT_LIMIT, spec, history[..i]).value.weights
      && step.lineage[0].weightsAfter == Replay(BIT_LIMIT, spec, history[..i + 1]).value.weights
      && step.lineage[0].digestAfter == step.lineage[0].weightsAfter
      && |step.lineage[0].weightsAfter| > 0
      && GcdAll(step.lineage[0].weightsAfter) == 1
  {
    hide StepFromCompletion, SelectionFor, LineageForObservation, Replay;
    var steps := StepsFromHistory(machine, spec, history).value;
    CapturedPrefix(machine, spec, history, i);
    CapturedStepFacts(machine, spec, history[i], history[..i], LastCost(steps[..i]));
    LineageDigests(machine.num, spec, history[..i], history[i]);
    LineageIsReplay(machine.num, BIT_LIMIT, spec, history[..i], history[i]);
    assert history[..i + 1] == history[..i] + [history[i]];
    ReplayNormalForm(BIT_LIMIT, spec, history[..i + 1]);
  }

  lemma LineageDigests(num: Numerics, spec: RunSpec, history: seq<Record>, record: Record)
    requires TableSpec(spec) && LineageForObservation(num, BIT_LIMIT, spec, history, record).Ok?
    ensures var l := LineageForObservation(num, BIT_LIMIT, spec, history, record).value;
      && l.digestAfter == l.weightsAfter
      && |l.weightsAfter| > 0
  {
    hide SelectionDetails;
  }

  /** An accepted greedy bundle visits the candidates in stable descending utility order. */
  lemma {:induction false} GreedyRunIsStableSort(machine: Machine, spec: RunSpec, history: seq<Record>)
    requires ValidMachine(machine) && ValidSpec(spec) && spec.policy.GreedyPrior?
    requires StepsFromHistory(machine, spec, history).Ok?
    ensures |history| <= |spec.candidates|
    ensures forall i :: 0 <= i < |history| ==> history[i].candidate == StableOrder(spec)[i]
  {
    hide StepFromCompletion, SelectionFor, LineageFor, StableOrder, CompletedIds, IdSet, LastCost, ValidSpec, CostExhausted,
      CostExceeded, Matches, StepPayload;
    if |history| > 0 {
      var n := |history| - 1;
      var before, order := history[..n], StableOrder(spec);
      GreedyRunIsStableSort(machine, spec, before);
      var steps := StepsFromHistory(machine, spec, before).value;
      CapturedStepFacts(machine, spec, history[n], before, LastCost(steps));
      SameCompleted(before, order[..n]);
      NextGreedySelection(machine, spec, before, n);
    }
  }

  lemma NextGreedySelection(machine: Machine, spec: RunSpec, history: seq<Record>, n: nat)
    requires ValidMachine(machine) && ValidSpec(spec) && spec.policy.GreedyPrior? && n <= |spec.candidates|
    requires CompletedIds(history) == IdSet(StableOrder(spec)[..n])
    requires SelectionFor(machine, spec, history).Ok?
    ensures n < |spec.candidates|
    ensures SelectionFor(machine, spec, history).value.candidate == StableOrder(spec)[n]
  {
    var open := Eligible(spec.candidates, CompletedIds(history));
    RemainingOrder(spec, n);
    AllRated(spec);
    assert |StableOrder(spec)[n..]| == |open|;
    ChoiceIsSortHead(open, spec.policy.utilities);
    assert StableOrder(spec)[n..][0] == StableOrder(spec)[n];
  }

  lemma SameCompleted(history: seq<Record>, candidates: seq<CandidateSpec>)
    requires |history| == |candidates|
    requires forall i :: 0 <= i < |history| ==> history[i].candidate == candidates[i]
    ensures CompletedIds(history) == IdSet(candidates)
  {
    forall id | id in CompletedIds(history) ensures id in IdSet(candidates) {
      var r :| r in history && r.candidate.id == id;
      var k :| 0 <= k < |history| && history[k] == r;
      assert candidates[k] in candidates;
    }
    forall id | id in IdSet(candidates) ensures id in CompletedIds(history) {
      var c :| c in candidates && c.id == id;
      var k :| 0 <= k < |candidates| && candidates[k] == c;
      assert history[k] in history;
    }
  }
}
