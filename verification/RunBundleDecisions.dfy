/** What each of the three policies decides in every step of a captured run, from the candidates that are
    still open. */
module RunBundleDecisions {
  import opened Wrappers
  import opened InformationGainTable
  import opened RunSpecs
  import opened TablePolicy
  import opened GenericPolicies
  import opened RunBundleV3
  import opened RunBundleAgreement

  // ----- the open candidates -----

  /** The candidates without a completion, each once, in specification order. */
  ghost predicate OpenInOrder(spec: RunSpec, history: seq<Record>, open: seq<CandidateSpec>) {
    && (forall c: CandidateSpec ::
           c in open <==> c in spec.candidates && forall r :: r in history ==> r.candidate.id != c.id)
    && ListedInOrder(spec.candidates, open)
  }

  ghost predicate Earlier(candidates: seq<CandidateSpec>, c: CandidateSpec, d: CandidateSpec) {
    exists a, b :: 0 <= a < b < |candidates| && candidates[a] == c && candidates[b] == d
  }

  ghost predicate ListedInOrder(candidates: seq<CandidateSpec>, open: seq<CandidateSpec>) {
    forall i, j :: 0 <= i < j < |open| ==> Earlier(candidates, open[i], open[j])
  }

  lemma {:induction false} EligibleInOrder(candidates: seq<CandidateSpec>, completed: set<string>)
    ensures ListedInOrder(candidates, Eligible(candidates, completed))
  {
    hide ListedInOrder;
    if |candidates| == 0 {
      NothingListed(candidates);
    } else {
      var n := |candidates| - 1;
      EligibleInOrder(candidates[..n], completed);
      OneMoreInOrder(candidates, Eligible(candidates[..n], completed));
    }
  }

  lemma NothingListed(candidates: seq<CandidateSpec>)
    ensures ListedInOrder(candidates, [])
  {
  }

  lemma OneMoreInOrder(candidates: seq<CandidateSpec>, before: seq<CandidateSpec>)
    requires |candidates| > 0
    requires forall c :: c in before ==> c in candidates[..|candidates| - 1]
    requires ListedInOrder(candidates[..|candidates| - 1], before)
    ensures ListedInOrder(candidates, before)
    ensures ListedInOrder(candidates, before + [candidates[|candidates| - 1]])
  {
    var n := |candidates| - 1;
    forall i, j | 0 <= i < j < |before| ensures Earlier(candidates, before[i], before[j]) {
      assert Earlier(candidates[..n], before[i], before[j]);
      var a, b :| 0 <= a < b < n && candidates[..n][a] == before[i] && candidates[..n][b] == before[j];
      assert candidates[a] == before[i] && candidates[b] == before[j];
    }
    forall i | 0 <= i < |before| ensures Earlier(candidates, before[i], candidates[n]) {
      assert before[i] in before;
      var a :| 0 <= a < n && candidates[..n][a] == before[i];
      assert candidates[a] == before[i];
    }
  }

  lemma EligibleIsOpen(spec: RunSpec, history: seq<Record>)
    ensures OpenInOrder(spec, history, Eligible(spec.candidates, CompletedIds(history)))
  {
    EligibleInOrder(spec.candidates, CompletedIds(history));
    forall c: CandidateSpec
      ensures c.id in CompletedIds(history) <==> exists r :: r in history && r.candidate.id == c.id
    {
    }
  }

  // ----- the decisions -----

  /** A rationale names the open candidates and the completions, in their order. */
  ghost predicate Lists(rationale: Rationale, open: seq<CandidateSpec>, history: seq<Record>) {
    && |rationale.eligibleIds| == |open| && |rationale.completedIds| == |history|
    && (forall i :: 0 <= i < |open| ==> rationale.eligibleIds[i] == open[i].id)
    && (forall i :: 0 <= i < |history| ==> rationale.completedIds[i] == history[i].candidate.id)
  }

  /** The first open candidate of greatest gain under the replayed belief. */
  ghost predicate FollowsTable(num: Numerics, spec: RunSpec, history: seq<Record>, open: seq<CandidateSpec>,
                               candidate: CandidateSpec, decision: Decision, rationale: Rationale)
    requires TableSpec(spec)
  {
    && decision.TableDecision? && Replay(BIT_LIMIT, spec, history).Ok?
    && SelectsFirstMaximum(num, spec, Replay(BIT_LIMIT, spec, history).value.weights, open,
                           Details(candidate, Ids(open), decision.score, decision.belief))
    && decision
         == TableDecision(candidate.id, decision.score, |open|, decision.belief, spec.policy.model, RUNSPEC_CANDIDATE_ORDER)
    && rationale.TableRationale? && rationale.decision == decision && rationale.rule == InformationGainRule
    && Lists(rationale, open, history)
  }

  /** The first open candidate of greatest utility. */
  ghost predicate FollowsUtilities(utilities: map<string, real>, history: seq<Record>, open: seq<CandidateSpec>, candidate: CandidateSpec,
                                   decision: Decision, rationale: Rationale)
  {
    && Rated(open, utilities) && candidate in open
    && (exists i: nat :: i < |open| && candidate == open[i] && FirstBest(open, utilities, |open|, i))
    && decision
         == DeclaredDecision(GreedyPolicyId, None, candidate.id, Some(utilities[candidate.id]), |open|, RUNSPEC_CANDIDATE_ORDER)
    && rationale.DeclaredRationale? && rationale.rule == GreedyRule && Lists(rationale, open, history)
    && rationale.policyId == GreedyPolicyId && rationale.selectedId == candidate.id
    && rationale.utility == Some(utilities[candidate.id])
    && rationale.eligibleCount == |open| && rationale.tieBreak == RUNSPEC_CANDIDATE_ORDER
  }

  /** The random policy takes the candidate its seed picks; the greedy policy the first of greatest utility;
      the table policy the first of greatest gain. Each decision records what it was taken from. */
  ghost predicate FollowsPolicy(machine: Machine, spec: RunSpec, history: seq<Record>, open: seq<CandidateSpec>,
                                candidate: CandidateSpec, decision: Decision, rationale: Rationale)
    requires ValidMachine(machine) && ValidSpec(spec) && |open| > 0
  {
    match spec.policy
    case RandomPolicy(seed) =>
      && candidate == open[machine.pick(seed, |open|)]
      && decision == DeclaredDecision(RandomPolicyId, Some(seed), candidate.id, None, |open|, RUNSPEC_CANDIDATE_ORDER)
      && rationale.DeclaredRationale? && rationale.rule == RandomRule && Lists(rationale, open, history)
      && rationale.policyId == RandomPolicyId && rationale.selectedId == candidate.id && rationale.utility == None
      && rationale.eligibleCount == |open| && rationale.tieBreak == RUNSPEC_CANDIDATE_ORDER
    case GreedyPrior(utilities) => FollowsUtilities(utilities, history, open, candidate, decision, rationale)
    case InformationGain(_) => FollowsTable(machine.num, spec, history, open, candidate, decision, rationale)
  }

  lemma SelectionFollowsPolicy(machine: Machine, spec: RunSpec, history: seq<Record>)
    requires ValidMachine(machine) && ValidSpec(spec) && SelectionFor(machine, spec, history).Ok?
    requires spec.policy.InformationGain? ==> Faithful(machine.num)
    ensures var s, open := SelectionFor(machine, spec, history).value, Eligible(spec.candidates, CompletedIds(history));
      |open| > 0 && FollowsPolicy(machine, spec, history, open, s.candidate, s.decision, s.rationale)
  {
    hide SelectionFor, ValidSpec, FollowsTable;
    SelectionIsOpen(machine, spec, history);
    match spec.policy
    case RandomPolicy(_) => RandomFollows(machine, spec, history);
    case GreedyPrior(_) => GreedyFollows(machine, spec, history);
    case InformationGain(_) => TableFollows(machine, spec, history);
  }

  lemma RandomFollows(machine: Machine, spec: RunSpec, history: seq<Record>)
    requires ValidMachine(machine) && ValidSpec(spec) && SelectionFor(machine, spec, history).Ok?
    requires spec.policy.RandomPolicy? && |Eligible(spec.candidates, CompletedIds(history))| > 0
    ensures var s := SelectionFor(machine, spec, history).value;
      FollowsPolicy(machine, spec, history, Eligible(spec.candidates, CompletedIds(history)), s.candidate, s.decision, s.rationale)
  {
    hide Eligible, Replay, SelectsFirstMaximum, FirstBest;
  }

  lemma GreedyFollows(machine: Machine, spec: RunSpec, history: seq<Record>)
    requires ValidMachine(machine) && ValidSpec(spec) && SelectionFor(machine, spec, history).Ok?
    requires spec.policy.GreedyPrior? && |Eligible(spec.candidates, CompletedIds(history))| > 0
    ensures var s := SelectionFor(machine, spec, history).value;
      FollowsPolicy(machine, spec, history, Eligible(spec.candidates, CompletedIds(history)), s.candidate, s.decision, s.rationale)
  {
    hide Eligible, Replay, FollowsTable, FollowsUtilities, UniqueIds, ValidModel, Known;
    AllRated(spec);
    var open := Eligible(spec.candidates, CompletedIds(history));
    UtilitySelection(spec.policy.utilities, history, open, ScanEligible(open, spec.policy.utilities, |open|).value);
  }

  lemma UtilitySelection(utilities: map<string, real>, history: seq<Record>, open: seq<CandidateSpec>, c: CandidateSpec)
    requires |open| > 0 && Rated(open, utilities) && ScanEligible(open, utilities, |open|) == Some(c)
    ensures var s := DeclaredSelection(GreedyPolicyId, None, c, Some(utilities[c.id]), open, history, GreedyRule);
      FollowsUtilities(utilities, history, open, s.candidate, s.decision, s.rationale)
  {
    ScanIsFirstBest(open, utilities, |open|);
    hide FirstBest;
  }

  lemma TableFollows(machine: Machine, spec: RunSpec, history: seq<Record>)
    requires ValidMachine(machine) && ValidSpec(spec) && SelectionFor(machine, spec, history).Ok?
    requires spec.policy.InformationGain? && Faithful(machine.num)
    requires |Eligible(spec.candidates, CompletedIds(history))| > 0
    ensures var s := SelectionFor(machine, spec, history).value;
      FollowsTable(machine.num, spec, history, Eligible(spec.candidates, CompletedIds(history)), s.candidate, s.decision, s.rationale)
  {
    SelectionIsFirstMaximum(machine.num, BIT_LIMIT, spec, history);
    hide FollowsTable, SelectsFirstMaximum, SelectionDetails, ValidModel;
    var open, d := Eligible(spec.candidates, CompletedIds(history)), SelectionDetails(machine.num, BIT_LIMIT, spec, history).value;
    TableSelection(machine.num, spec, history, open, d, SelectionFor(machine, spec, history).value);
  }

  lemma TableSelection(num: Numerics, spec: RunSpec, history: seq<Record>, open: seq<CandidateSpec>, d: Details, s: Selection)
    requires TableSpec(spec) && Replay(BIT_LIMIT, spec, history).Ok?
    requires SelectsFirstMaximum(num, spec, Replay(BIT_LIMIT, spec, history).value.weights, open, d)
    requires s.candidate == d.candidate
    requires s.decision == TableDecision(d.candidate.id, d.score, |open|, d.weights, spec.policy.model, RUNSPEC_CANDIDATE_ORDER)
    requires s.rationale == TableRationale(s.decision, Ids(open), CompletedIdList(history), InformationGainRule)
    ensures FollowsTable(num, spec, history, open, s.candidate, s.decision, s.rationale)
  {
    hide Replay, FirstOfGreatestGain, ValidModel, UniqueIds, Known;
    assert d == Details(s.candidate, Ids(open), s.decision.score, s.decision.belief);
  }

  /** Every step of a captured run follows its policy among the candidates then open. */
  lemma EveryStepFollowsPolicy(machine: Machine, spec: RunSpec, history: seq<Record>, i: nat)
    requires ValidMachine(machine) && ValidSpec(spec) && StepsFromHistory(machine, spec, history).Ok? && i < |history|
    requires spec.policy.InformationGain? ==> Faithful(machine.num)
    ensures var step := StepsFromHistory(machine, spec, history).value[i];
      exists open :: |open| > 0 && OpenInOrder(spec, history[..i], open)
        && FollowsPolicy(machine, spec, history[..i], open, history[i].candidate, step.decision, step.rationale)
        && step.selectedId == history[i].candidate.id
  {
    hide StepFromCompletion, SelectionFor, StepsFromHistory, ValidSpec, FollowsPolicy, OpenInOrder;
    CapturedPrefix(machine, spec, history, i);
    var steps := StepsFromHistory(machine, spec, history).value;
    CapturedStepFacts(machine, spec, history[i], history[..i], LastCost(steps[..i]));
    SelectionFollowsPolicy(machine, spec, history[..i]);
    EligibleIsOpen(spec, history[..i]);
  }

  /** A policy selects exactly while some candidate is open and, for the table policy, the history replays. */
  lemma SelectionSucceedsIff(machine: Machine, spec: RunSpec, history: seq<Record>)
    requires ValidMachine(machine) && ValidSpec(spec) && (spec.policy.InformationGain? ==> Faithful(machine.num))
    ensures SelectionFor(machine, spec, history).Ok? <==>
      && (exists c :: c in spec.candidates && forall r :: r in history ==> r.candidate.id != c.id)
      && (spec.policy.InformationGain? ==> Replay(BIT_LIMIT, spec, history).Ok?)
  {
    hide Replay, SelectFrom, FirstOfGreatestGain, FirstBest, UniqueIds, Known;
    var open := Eligible(spec.candidates, CompletedIds(history));
    EligibleIsOpen(spec, history);
    if c :| c in spec.candidates && forall r :: r in history ==> r.candidate.id != c.id {
      assert c in open;
    }
    if |open| > 0 {
      assert open[0] in open;
    }
    OpenSelects(machine, spec, history);
  }

  lemma OpenSelects(machine: Machine, spec: RunSpec, history: seq<Record>)
    requires ValidMachine(machine) && ValidSpec(spec) && (spec.policy.InformationGain? ==> Faithful(machine.num))
    ensures SelectionFor(machine, spec, history).Ok? <==>
      && |Eligible(spec.candidates, CompletedIds(history))| > 0
      && (spec.policy.InformationGain? ==> Replay(BIT_LIMIT, spec, history).Ok?)
  {
    hide Replay, SelectFrom, FirstOfGreatestGain, FirstBest, UniqueIds, Known, Eligible;
    var open := Eligible(spec.candidates, CompletedIds(history));
    match spec.policy
    case RandomPolicy(_) =>
    case GreedyPrior(utilities) =>
      AllRated(spec);
      if |open| > 0 {
        ScanIsFirstBest(open, utilities, |open|);
      }
    case InformationGain(_) => TableSelects(machine, spec, history);
  }

  lemma TableSelects(machine: Machine, spec: RunSpec, history: seq<Record>)
    requires ValidMachine(machine) && ValidSpec(spec) && spec.policy.InformationGain? && Faithful(machine.num)
    ensures SelectionFor(machine, spec, history).Ok? <==>
      |Eligible(spec.candidates, CompletedIds(history))| > 0 && Replay(BIT_LIMIT, spec, history).Ok?
  {
    if Replay(BIT_LIMIT, spec, history).Ok? {
      SelectionIsFirstMaximum(machine.num, BIT_LIMIT, spec, history);
    }
    hide Replay, SelectFrom, FirstOfGreatestGain, Eligible;
  }
}
