/** What the steps of a run say about its completions: the observations, the running sums of their costs,
    the cost budget, and exactly when a completion is captured. */
module RunBundleCapture {
  import opened Wrappers
  import opened RealSums
  import opened InformationGainTable
  import opened RunSpecs
  import opened TablePolicy
  import opened GenericPolicies
  import opened RunBundleV3
  import opened RunBundleAgreement

  function ObservedCosts(history: seq<Record>): (r: seq<real>)
    ensures |r| == |history|
  {
    seq(|history|, i requires 0 <= i < |history| => history[i].observation.cost)
  }

  /** Costs that fit a budget: all of them together, and any fewer with something to spare. */
  predicate FitsBudget(costs: seq<real>, budget: Option<real>) {
    budget.Some? ==>
      && (|costs| > 0 ==> Sum(costs) <= budget.value)
      && forall i :: 0 <= i < |costs| ==> Sum(costs[..i]) < budget.value
  }

  /** Step `i` is the completion `i`, with the sum of all observed costs up to it. */
  ghost predicate StepRecords(step: Step, history: seq<Record>, i: nat)
    requires i < |history|
  {
    && step.stepIndex == i
    && step.selectedId == history[i].candidate.id
    && step.observation
         == ObservationPayload(history[i].candidate.id, history[i].observation.value, history[i].observation.cost)
    && history[i].observation.cost >= 0.0
    && step.cumulativeCost == Sum(ObservedCosts(history)[..i + 1])
  }

  lemma CostsPrefix(history: seq<Record>, n: nat)
    requires n <= |history|
    ensures ObservedCosts(history)[..n] == ObservedCosts(history[..n])
  {
  }

  /** Every step records its own completion. */
  ghost predicate AllRecorded(steps: seq<Step>, history: seq<Record>) {
    |steps| == |history| && forall i: nat :: i < |steps| ==> StepRecords(steps[i], history, i)
  }

  lemma OneMoreRecorded(steps: seq<Step>, history: seq<Record>, n: nat)
    requires |steps| == |history| == n + 1
    requires AllRecorded(steps[..n], history[..n]) && StepRecords(steps[n], history, n)
    ensures AllRecorded(steps, history)
  {
    hide Sum;
    CostsPrefix(history, n);
    var costs := ObservedCosts(history);
    forall i: nat | i < n ensures StepRecords(steps[i], history, i) {
      assert StepRecords(steps[..n][i], history[..n], i);
      assert costs[..n][..i + 1] == costs[..i + 1];
    }
  }

  /** A captured run adds up: every step has its own completion and the sum of the costs so far, and the
      costs fit the specification's budget. */
  lemma {:induction false} CapturedRunAddsUp(machine: Machine, spec: RunSpec, history: seq<Record>)
    requires ValidMachine(machine) && ValidSpec(spec) && StepsFromHistory(machine, spec, history).Ok?
    ensures AllRecorded(StepsFromHistory(machine, spec, history).value, history)
    ensures FitsBudget(ObservedCosts(history), spec.costBudget)
    ensures LastCost(StepsFromHistory(machine, spec, history).value) == Sum(ObservedCosts(history))
  {
    hide StepFromCompletion, ValidSpec, AllRecorded, FitsBudget;
    if |history| == 0 {
      NothingRecorded(spec.costBudget);
    } else {
      var n, costs := |history| - 1, ObservedCosts(history);
      var before, steps := history[..n], StepsFromHistory(machine, spec, history).value;
      CapturedRunAddsUp(machine, spec, before);
      assert steps[..n] == StepsFromHistory(machine, spec, before).value;
      CostsPrefix(history, n);
      assert costs[..|history|] == costs;
      SumPrefix(costs, n);
      var cost := Sum(costs[..n]);
      CapturedStepFacts(machine, spec, history[n], before, cost);
      CapturedCostSign(machine, spec, history[n], before, cost);
      FitsShorter(costs, n, spec.costBudget);
      OneMoreRecorded(steps, history, n);
    }
  }

  lemma NothingRecorded(budget: Option<real>)
    ensures AllRecorded([], []) && FitsBudget(ObservedCosts([]), budget)
  {
  }

  lemma CapturedCostSign(machine: Machine, spec: RunSpec, record: Record, history: seq<Record>, cost: real)
    requires ValidMachine(machine) && ValidSpec(spec)
    requires StepFromCompletion(machine, spec, record, history, cost).Ok?
    ensures record.observation.cost >= 0.0
  {
    hide SelectionFor, LineageFor, MakeStep;
  }

  /** What a stop reason says of the number of steps and of what they have cost. */
  predicate StopIsTrue(spec: RunSpec, stop: StopReason, steps: nat, spent: real) {
    match stop
    case ExperimentBudgetExhausted => steps == spec.experimentCountBudget
    case CostBudgetExhausted => spec.costBudget.Some? && spent >= spec.costBudget.value
    case CandidateSpaceExhausted => steps == |spec.candidates|
    case Completed => true
    case StoppedByCaller => true
  }

  /** The same of an accepted bundle, whose summary lists its steps, sums all costs it records, and gives a stop
      reason that is true. */
  lemma AcceptedBundleAddsUp(machine: Machine, bundle: Bundle)
    requires ValidMachine(machine) && ValidSpec(bundle.runSpec) && ValidateBundle(machine, bundle).Ok?
    ensures var history, costs := ValidateBundle(machine, bundle).value, StepCosts(bundle.steps);
      && |history| == |bundle.steps|
      && (forall i: nat :: i < |bundle.steps| ==> StepRecords(bundle.steps[i], history, i))
      && (forall i: nat :: i < |bundle.steps| ==> bundle.steps[i].cumulativeCost == Sum(costs[..i + 1]))
      && bundle.terminalSummary.totalCost == Sum(costs)
      && bundle.terminalSummary.completedSteps == |bundle.steps| <= bundle.runSpec.experimentCountBudget
      && |bundle.terminalSummary.selectedIds| == |bundle.steps|
      && (forall i :: 0 <= i < |bundle.steps| ==> bundle.terminalSummary.selectedIds[i] == bundle.steps[i].selectedId)
      && bundle.terminalSummary.decisionHistory == bundle.steps
      && StopIsTrue(bundle.runSpec, bundle.terminalSummary.stopReason, |bundle.steps|, Sum(costs))
      && FitsBudget(costs, bundle.runSpec.costBudget)
  {
    hide ValidateBundle, StepsFromHistory, StepFromCompletion, ValidSpec, FitsBudget;
    AcceptedBundleRecordsRun(machine, bundle);
    var history := ValidateBundle(machine, bundle).value;
    CapturedRunAddsUp(machine, bundle.runSpec, history);
    forall i: nat | i < |bundle.steps| ensures StepCosts(bundle.steps)[i] == ObservedCosts(history)[i] {
      assert StepRecords(bundle.steps[i], history, i);
    }
    assert StepCosts(bundle.steps) == ObservedCosts(history);
  }

  function StepCosts(steps: seq<Step>): (r: seq<real>)
    ensures |r| == |steps|
  {
    seq(|steps|, i requires 0 <= i < |steps| => steps[i].observation.cost)
  }

  /** At every step of an accepted bundle, under every policy: the listed completed candidates are those selected
      so far, in order; they and the eligible ones partition the specification's candidates; the cumulative cost
      is the sum of the costs so far; and spending was below the cost budget before the step and at most at it
      afterwards. */
  lemma StepsPartitionCandidates(machine: Machine, bundle: Bundle, i: nat)
    requires ValidMachine(machine) && ValidSpec(bundle.runSpec)
    requires ValidateBundle(machine, bundle).Ok? && i < |bundle.steps|
    ensures var step, costs := bundle.steps[i], StepCosts(bundle.steps);
      && step.stepIndex == i
      && |ListedCompleted(step)| == i && (forall j :: 0 <= j < i ==> ListedCompleted(step)[j] == bundle.steps[j].selectedId)
      && (forall id :: Known(bundle.runSpec.candidates, id) <==> id in ListedCompleted(step) || id in ListedEligible(step))
      && (forall id :: !(id in ListedCompleted(step) && id in ListedEligible(step)))
      && step.selectedId in ListedEligible(step)
      && step.cumulativeCost == Sum(costs[..i + 1])
      && (bundle.runSpec.costBudget.Some? ==>
            Sum(costs[..i]) < bundle.runSpec.costBudget.value && Sum(costs[..i + 1]) <= bundle.runSpec.costBudget.value)
  {
    hide ValidateBundle, ValidSpec, Sum;
    AcceptedBundleAddsUp(machine, bundle);
    ListedCandidatesPartition(machine, bundle, i);
    var costs := StepCosts(bundle.steps);
    assert costs[..|costs|] == costs;
    forall j | 0 <= j < i ensures SelectedIds(bundle.steps)[..i][j] == bundle.steps[j].selectedId {
    }
  }

  /** The final belief of an accepted bundle: none without a table, else what its whole history replays to. */
  lemma FinalBeliefMeaning(machine: Machine, bundle: Bundle)
    requires ValidMachine(machine) && ValidSpec(bundle.runSpec) && ValidateBundle(machine, bundle).Ok?
    ensures !bundle.runSpec.policy.InformationGain? ==> bundle.terminalSummary.finalBelief == None
    ensures bundle.runSpec.policy.InformationGain? ==>
      && Replay(BIT_LIMIT, bundle.runSpec, ValidateBundle(machine, bundle).value).Ok?
      && bundle.terminalSummary.finalBelief == Some(Replay(BIT_LIMIT, bundle.runSpec, ValidateBundle(machine, bundle).value).value.weights)
  {
    AcceptedBundleRecordsRun(machine, bundle);
    var history, n := ValidateBundle(machine, bundle).value, |bundle.steps|;
    hide ValidateBundle, StepFromCompletion, StepsFromHistory, Replay, ValidSpec, SelectFrom, Eligible;
    if bundle.runSpec.policy.InformationGain? {
      if n > 0 {
        LineageLink(machine, bundle.runSpec, history, n - 1);
        assert history[..n] == history;
      } else {
        assert history == [];
        EmptyReplay(BIT_LIMIT, bundle.runSpec);
      }
    }
  }

  // ----- when a completion is captured -----

  /** Completion `i` belongs to the run, has a cost, is what the policy selects after the ones before it, and
      for the table policy is evidence the belief can be updated with. */
  ghost predicate Capturable(machine: Machine, spec: RunSpec, history: seq<Record>, i: nat)
    requires ValidMachine(machine) && ValidSpec(spec) && i < |history|
  {
    && history[i].runSpec == spec && history[i].policyId == spec.policy.Id() && history[i].candidate in spec.candidates
    && history[i].observation.cost >= 0.0
    && SelectionFor(machine, spec, history[..i]).Ok?
    && SelectionFor(machine, spec, history[..i]).value.candidate == history[i].candidate
    && (spec.policy.InformationGain? ==> Replay(BIT_LIMIT, spec, history[..i + 1]).Ok?)
  }

  /** A captured history completes every candidate at most once. */
  lemma CapturedOnce(machine: Machine, spec: RunSpec, history: seq<Record>)
    requires ValidMachine(machine) && ValidSpec(spec) && StepsFromHistory(machine, spec, history).Ok?
    ensures NoRepeats(CompletedIdList(history))
  {
    hide StepFromCompletion, SelectionFor, StepsFromHistory, ValidSpec;
    forall i, j | 0 <= i < j < |history| ensures history[i].candidate.id != history[j].candidate.id {
      CapturedPrefix(machine, spec, history, j);
      var steps := StepsFromHistory(machine, spec, history).value;
      CapturedStepFacts(machine, spec, history[j], history[..j], LastCost(steps[..j]));
      SelectionIsOpen(machine, spec, history[..j]);
      assert history[..j][i] in history[..j];
    }
  }

  /** What every selection lists fits the closed payload of a step. */
  lemma SelectionFitsPayload(machine: Machine, spec: RunSpec, history: seq<Record>)
    requires ValidMachine(machine) && ValidSpec(spec) && NoRepeats(CompletedIdList(history))
    requires SelectionFor(machine, spec, history).Ok?
    ensures var s, open := SelectionFor(machine, spec, history).value, Eligible(spec.candidates, CompletedIds(history));
      ValidCandidateContext(|history|, s.candidate.id, |open|, s.rationale.eligibleIds, s.rationale.completedIds)
  {
    ListedIds(machine, spec, history);
    hide SelectionFor;
    var open := Eligible(spec.candidates, CompletedIds(history));
    EligibleDistinct(spec.candidates, CompletedIds(history));
    forall i, j | 0 <= i < |open| && 0 <= j < |history| ensures Ids(open)[i] != CompletedIdList(history)[j] {
      assert open[i] in open;
      assert history[j] in history;
    }
  }

  lemma {:induction false} EligibleDistinct(candidates: seq<CandidateSpec>, completed: set<string>)
    requires UniqueIds(candidates)
    ensures NoRepeats(Ids(Eligible(candidates, completed)))
  {
    if |candidates| > 0 {
      var n := |candidates| - 1;
      var rest := Eligible(candidates[..n], completed);
      EligibleDistinct(candidates[..n], completed);
      forall i | 0 <= i < |rest| ensures rest[i].id != candidates[n].id {
        assert rest[i] in rest;
        var k :| 0 <= k < n && candidates[..n][k] == rest[i];
        assert candidates[k] == rest[i];
      }
      forall i, j | 0 <= i < j < |rest| ensures rest[i].id != rest[j].id {
        assert Ids(rest)[i] != Ids(rest)[j];
      }
    }
  }

  /** The constructor of a step never rejects what a capture assembles. */
  lemma PayloadAccepted(machine: Machine, spec: RunSpec, history: seq<Record>, record: Record, cost: real)
    requires ValidMachine(machine) && ValidSpec(spec) && NoRepeats(CompletedIdList(history))
    requires SelectionFor(machine, spec, history).Ok? && LineageFor(machine, spec, history, record).Ok?
    requires SelectionFor(machine, spec, history).value.candidate == record.candidate
    requires cost >= 0.0 && record.observation.cost >= 0.0
    ensures MakeStep(StepPayload(SelectionFor(machine, spec, history).value, LineageFor(machine, spec, history, record).value,
                                 record.observation, |history|, cost + record.observation.cost)).Ok?
  {
    SelectionFitsPayload(machine, spec, history);
    hide ValidCandidateContext, ValidSpec, SelectionFor, LineageFor, Eligible, ValidIntegerWeights;
    if spec.policy.InformationGain? {
      TableShape(machine, spec, history);
      TablePayload(machine, spec, history, record);
    } else {
      DeclaredShape(machine, spec, history);
      DeclaredLineage(machine, spec, history, record);
    }
  }

  /** A table selection's rationale repeats its decision. */
  lemma TableShape(machine: Machine, spec: RunSpec, history: seq<Record>)
    requires ValidMachine(machine) && ValidSpec(spec) && spec.policy.InformationGain? && SelectionFor(machine, spec, history).Ok?
    ensures var s, open := SelectionFor(machine, spec, history).value, Eligible(spec.candidates, CompletedIds(history));
      && s.decision.TableDecision? && s.rationale.TableRationale? && s.rationale.decision == s.decision
      && s.decision.selectedId == s.candidate.id && s.decision.eligibleCount == |open|
      && s.decision.tieBreak == RUNSPEC_CANDIDATE_ORDER && s.rationale.rule == InformationGainRule
  {
    hide SelectionDetails, Eligible, Ids, CompletedIdList;
  }

  /** A declared selection's rationale repeats its decision, with the seed or the utility of its policy. */
  lemma DeclaredShape(machine: Machine, spec: RunSpec, history: seq<Record>)
    requires ValidMachine(machine) && ValidSpec(spec) && !spec.policy.InformationGain? && SelectionFor(machine, spec, history).Ok?
    ensures var s, open := SelectionFor(machine, spec, history).value, Eligible(spec.candidates, CompletedIds(history));
      && s.decision.DeclaredDecision? && s.rationale.DeclaredRationale?
      && var d, r := s.decision, s.rationale;
      && d.policyId == spec.policy.Id() && d.selectedId == s.candidate.id && d.eligibleCount == |open|
      && d.tieBreak == RUNSPEC_CANDIDATE_ORDER
      && r.policyId == d.policyId && r.selectedId == d.selectedId && r.utility == d.utility
      && r.eligibleCount == d.eligibleCount && r.tieBreak == d.tieBreak
      && (spec.policy.RandomPolicy? ==> d.policySeed.Some? && d.utility.None? && r.rule == RandomRule)
      && (spec.policy.GreedyPrior? ==> d.policySeed.None? && d.utility.Some? && r.rule == GreedyRule)
  {
    hide Eligible, Ids, CompletedIdList, ScanEligible;
  }

  /** The score and the weights a table selection and its lineage carry. */
  lemma TablePayload(machine: Machine, spec: RunSpec, history: seq<Record>, record: Record)
    requires ValidMachine(machine) && ValidSpec(spec) && spec.policy.InformationGain?
    requires SelectionFor(machine, spec, history).Ok? && LineageFor(machine, spec, history, record).Ok?
    ensures var s, lineage := SelectionFor(machine, spec, history).value, LineageFor(machine, spec, history, record).value;
      && s.decision.TableDecision? && s.decision.score >= 0.0
      && |lineage| == 1 && lineage[0].stepIndex == |history| && lineage[0].candidateId == record.candidate.id
      && ValidIntegerWeights(lineage[0].weightsBefore) && ValidIntegerWeights(lineage[0].weightsAfter)
      && lineage[0].digestBefore == s.decision.belief
  {
    var open := Eligible(spec.candidates, CompletedIds(history));
    ReplayShape(BIT_LIMIT, spec, history);
    ReplayedWeightsValid(BIT_LIMIT, spec, history);
    var w := Replay(BIT_LIMIT, spec, history).value.weights;
    FirstStrictMaximum(machine.num, BIT_LIMIT, spec.policy.model, w, open, |open|);
    hide Replay, SelectFrom, Eligible;
  }

  /** After any history the table policy's lineage is derived exactly when the history still replays with
      the observation. */
  lemma LineageIffReplays(machine: Machine, spec: RunSpec, history: seq<Record>, record: Record)
    requires ValidMachine(machine) && ValidSpec(spec) && spec.policy.InformationGain? && Matches(spec, record)
    requires SelectionFor(machine, spec, history).Ok? && SelectionFor(machine, spec, history).value.candidate == record.candidate
    ensures LineageFor(machine, spec, history, record).Ok? <==> Replay(BIT_LIMIT, spec, history + [record]).Ok?
  {
    hide SelectFrom, UpdateBelief, OutcomeOf, Eligible, UniqueIds, Known, ValidModel, CandidateById;
    SelectionIsOpen(machine, spec, history);
    ReplayShape(BIT_LIMIT, spec, history);
    var longer := history + [record];
    assert longer[..|longer| - 1] == history;
  }

  lemma MatchesIff(spec: RunSpec, record: Record)
    requires ValidSpec(spec)
    ensures Matches(spec, record) <==>
      record.runSpec == spec && record.policyId == spec.policy.Id() && record.candidate in spec.candidates
  {
    hide ValidModel, Known;
    if record.candidate in spec.candidates {
      MatchingCandidate(spec, record.candidate);
    }
  }

  lemma StepSucceedsIff(machine: Machine, spec: RunSpec, history: seq<Record>, n: nat)
    requires ValidMachine(machine) && ValidSpec(spec) && n < |history|
    requires StepsFromHistory(machine, spec, history[..n]).Ok?
    ensures var cost := Sum(ObservedCosts(history)[..n]);
      StepFromCompletion(machine, spec, history[n], history[..n], cost).Ok? <==>
        && Capturable(machine, spec, history, n)
        && (spec.costBudget.Some? ==>
              cost < spec.costBudget.value && Sum(ObservedCosts(history)[..n + 1]) <= spec.costBudget.value)
  {
    hide SelectionFor, LineageFor, MakeStep, StepsFromHistory, Replay, ValidSpec;
    var costs, record := ObservedCosts(history), history[n];
    var cost := Sum(costs[..n]);
    CapturedRunAddsUp(machine, spec, history[..n]);
    CostsPrefix(history, n);
    CapturedCostsNonNegative(machine, spec, history[..n]);
    CapturedOnce(machine, spec, history[..n]);
    SumPrefix(costs, n);
    assert history[..n + 1] == history[..n] + [record];
    MatchesIff(spec, record);
    if Matches(spec, record) && SelectionFor(machine, spec, history[..n]).Ok?
       && SelectionFor(machine, spec, history[..n]).value.candidate == record.candidate {
      if spec.policy.InformationGain? {
        LineageIffReplays(machine, spec, history[..n], record);
      } else {
        DeclaredLineage(machine, spec, history[..n], record);
      }
      if LineageFor(machine, spec, history[..n], record).Ok? && record.observation.cost >= 0.0 {
        PayloadAccepted(machine, spec, history[..n], record, cost);
      }
    }
  }

  lemma DeclaredLineage(machine: Machine, spec: RunSpec, history: seq<Record>, record: Record)
    requires ValidSpec(spec) && !spec.policy.InformationGain?
    ensures LineageFor(machine, spec, history, record) == Ok([])
  {
  }

  /** A history is captured if and only if its costs fit the budget and every completion is capturable
      after the ones before it: no check of a record constructor ever decides. */
  lemma {:induction false} CaptureSucceedsIff(machine: Machine, spec: RunSpec, history: seq<Record>)
    requires ValidMachine(machine) && ValidSpec(spec)
    ensures StepsFromHistory(machine, spec, history).Ok? <==>
      && FitsBudget(ObservedCosts(history), spec.costBudget)
      && forall i: nat :: i < |history| ==> Capturable(machine, spec, history, i)
  {
    hide StepFromCompletion, ValidSpec, Replay, SelectionFor;
    if |history| > 0 {
      var n, costs := |history| - 1, ObservedCosts(history);
      CaptureSucceedsIff(machine, spec, history[..n]);
      CostsPrefix(history, n);
      assert costs[..n + 1] == costs;
      forall i: nat | i < n ensures Capturable(machine, spec, history[..n], i) <==> Capturable(machine, spec, history, i) {
        assert history[..n][..i] == history[..i] && history[..n][..i + 1] == history[..i + 1];
      }
      FitsShorter(costs, n, spec.costBudget);
      if StepsFromHistory(machine, spec, history[..n]).Ok? {
        CapturedRunAddsUp(machine, spec, history[..n]);
        StepSucceedsIff(machine, spec, history, n);
      }
    }
  }

  /** Costs fit exactly when those before the last do, leave something to spare, and all of them fit. */
  lemma FitsShorter(costs: seq<real>, n: nat, budget: Option<real>)
    requires |costs| == n + 1
    ensures FitsBudget(costs, budget) ==> FitsBudget(costs[..n], budget)
    ensures FitsBudget(costs, budget) <==>
      && (budget.Some? ==> Sum(costs[..n]) < budget.value && Sum(costs) <= budget.value)
      && FitsBudget(costs[..n], budget)
  {
    forall i | 0 <= i <= n ensures costs[..n][..i] == costs[..i] {
    }
    assert costs[..n][..n] == costs[..n];
  }

  /** A captured run is exported exactly when it has no more steps than its experiment budget and the stop reason
      is true of the steps and of the sum of their costs. */
  lemma ExportsIff(machine: Machine, spec: RunSpec, history: seq<Record>, stop: StopReason, producer: Producer)
    requires ValidMachine(machine) && Faithful(machine.num) && ValidSpec(spec) && StepsFromHistory(machine, spec, history).Ok?
    ensures BuildBundle(machine, Trace(spec, StepsFromHistory(machine, spec, history).value, stop), producer).Ok? <==>
      |history| <= spec.experimentCountBudget && StopIsTrue(spec, stop, |history|, Sum(ObservedCosts(history)))
  {
    hide StepsFromHistory, BuildBundle, ValidSpec, Sum, FitsBudget, AllRecorded, LastCost, Faithful;
    CapturedRunAddsUp(machine, spec, history);
    CapturedRunExports(machine, spec, history, stop, producer);
  }
}
