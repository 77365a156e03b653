/** Run specifications and completed workload records. A fingerprint is an injective
    digest, so a record holds the specification it was fingerprinted from. */
module RunSpecs {
  import opened Wrappers
  import opened InformationGainTable

  datatype CandidateSpec = CandidateSpec(id: string, parameters: string)

  datatype Observation = Observation(value: real, cost: real)

  datatype PolicyId = RandomPolicyId | GreedyPolicyId | InformationGainPolicyId

  datatype Policy =
    | RandomPolicy(seed: int)
    | GreedyPrior(utilities: map<string, real>)
    | InformationGain(model: EvidenceModel)
  {
    function Id(): PolicyId {
      match this
      case RandomPolicy(_) => RandomPolicyId
      case GreedyPrior(_) => GreedyPolicyId
      case InformationGain(_) => InformationGainPolicyId
    }
  }

  datatype RunSpec = RunSpec(
    candidates: seq<CandidateSpec>,
    policy: Policy,
    experimentCountBudget: nat,
    costBudget: Option<real>)

  datatype Record = Record(
    runSpec: RunSpec,
    candidate: CandidateSpec,
    policyId: PolicyId,
    observation: Observation,
    createdAt: string)

  ghost predicate UniqueIds(candidates: seq<CandidateSpec>) {
    forall i, j :: 0 <= i < j < |candidates| ==> candidates[i].id != candidates[j].id
  }

  ghost predicate Known(candidates: seq<CandidateSpec>, id: string) {
    exists c :: c in candidates && c.id == id
  }

  /** What the constructor of a run specification has checked. */
  ghost predicate ValidSpec(spec: RunSpec) {
    && |spec.candidates| > 0
    && UniqueIds(spec.candidates)
    && 1 <= spec.experimentCountBudget <= |spec.candidates|
    && (spec.costBudget.Some? ==> spec.costBudget.value > 0.0)
    && (spec.policy.GreedyPrior? ==>
          forall id :: id in spec.policy.utilities <==> Known(spec.candidates, id))
    && (spec.policy.InformationGain? ==>
          && ValidModel(spec.policy.model)
          && forall id :: id in spec.policy.model.likelihood <==> Known(spec.candidates, id))
  }

  /** `candidate_by_id.get(id)`. */
  function CandidateById(candidates: seq<CandidateSpec>, id: string): (r: Option<CandidateSpec>)
    ensures r.Some? ==> r.value in candidates && r.value.id == id
    ensures r.None? <==> !Known(candidates, id)
  {
    if |candidates| == 0 then None
    else if candidates[0].id == id then Some(candidates[0])
    else
      assert candidates == [candidates[0]] + candidates[1..];
      CandidateById(candidates[1..], id)
  }

  /** The record was produced under exactly this specification. */
  predicate Matches(spec: RunSpec, record: Record) {
    && record.runSpec == spec
    && record.policyId == spec.policy.Id()
    && CandidateById(spec.candidates, record.candidate.id) == Some(record.candidate)
  }

  lemma MatchingCandidate(spec: RunSpec, c: CandidateSpec)
    requires UniqueIds(spec.candidates) && c in spec.candidates
    ensures CandidateById(spec.candidates, c.id) == Some(c)
  {
    assert Known(spec.candidates, c.id);
  }

  function CompletedIds(history: seq<Record>): set<string> {
    set r | r in history :: r.candidate.id
  }

  /** The candidates still open, in specification order. */
  function Eligible(candidates: seq<CandidateSpec>, completed: set<string>): (r: seq<CandidateSpec>)
    ensures forall c :: c in r <==> c in candidates && c.id !in completed
  {
    if |candidates| == 0 then []
    else
      var rest := Eligible(candidates[..|candidates| - 1], completed);
      var last := candidates[|candidates| - 1];
      assert candidates == candidates[..|candidates| - 1] + [last];
      if last.id in completed then rest else rest + [last]
  }
}
