/** Which completed experiments form matched optimizer evidence: the assessment of one
    candidate, and the scan that finds the valid pairs. */
module EvidenceEligibility {
  import opened Wrappers
  import opened Ordering

  const OPTIMIZER_EFFECT_FAMILY := "optimizer-effect"
  const OPTIMIZER_INTERVENTION := "optimizer"
  const ADAM := "adam"
  const SGD := "sgd"

  datatype Candidate = Candidate(id: string, learningRate: real, regularization: real, modelWidth: int, optimizer: string)

  datatype CompletedExperiment = CompletedExperiment(recordId: int, candidate: Candidate, observed: real)

  /** Whole and decimal numbers are one kind: 1 and 1.0 are equal and make one key. */
  datatype ControlValue = Text(text: string) | Number(value: real)

  datatype ComparisonKey = ComparisonKey(family: string, group: string, controls: seq<(string, ControlValue)>, variable: string)

  datatype Design = Design(
    candidateId: string,
    family: string,
    group: string,
    controls: seq<(string, ControlValue)>,
    variable: string,
    arm: string)
  {
    function Key(): ComparisonKey {
      ComparisonKey(family, group, controls, variable)
    }

    /** `_is_optimizer_effect_design`. */
    predicate IsOptimizerEffect() {
      family == OPTIMIZER_EFFECT_FAMILY && variable == OPTIMIZER_INTERVENTION && (arm == ADAM || arm == SGD)
    }
  }

  /** The registered designs, unique and sorted by candidate, and the name a key sorts by. */
  datatype Contract = Contract(designs: seq<Design>, repr: ComparisonKey -> string)

  datatype Effect =
    | OpensPair
    | CompletesPair
    | Ineligible
    | CompletedCandidate
    | DuplicateArm
    | AlreadyCompletedPair
    | AmbiguousCounterpart

  datatype EligibilityError = UnregisteredCandidate(id: string)

  datatype Assessment = Assessment(candidateId: string, effect: Effect, group: string, counterpart: Option<CompletedExperiment>)

  datatype MatchedPair = MatchedPair(group: string, sgd: CompletedExperiment, adam: CompletedExperiment)
  {
    /** The two record ids, smaller first. */
    function SourceIds(): (int, int) {
      if sgd.recordId <= adam.recordId then (sgd.recordId, adam.recordId) else (adam.recordId, sgd.recordId)
    }
  }

  // ----- designs -----

  function FindDesign(designs: seq<Design>, id: string): (r: Option<Design>)
    ensures r.Some? ==> r.value in designs && r.value.candidateId == id
    ensures r.None? ==> forall d :: d in designs ==> d.candidateId != id
  {
    if |designs| == 0 then None
    else if designs[0].candidateId == id then Some(designs[0])
    else
      assert designs == [designs[0]] + designs[1..];
      FindDesign(designs[1..], id)
  }

  /** `design_for`. */
  function DesignFor(contract: Contract, c: Candidate): Option<Design> {
    FindDesign(contract.designs, c.id)
  }

  predicate Registered(contract: Contract, c: Candidate) {
    DesignFor(contract, c).Some?
  }

  predicate AllRegistered(contract: Contract, completed: seq<CompletedExperiment>) {
    forall i :: 0 <= i < |completed| ==> Registered(contract, completed[i].candidate)
  }

  /** The experiment's design is an optimizer-effect design with this key and arm. */
  predicate InArm(contract: Contract, e: CompletedExperiment, key: ComparisonKey, arm: string) {
    var d := DesignFor(contract, e.candidate);
    d.Some? && d.value.IsOptimizerEffect() && d.value.Key() == key && d.value.arm == arm
  }

  predicate IsCompleted(c: Candidate, completed: seq<CompletedExperiment>) {
    exists i :: 0 <= i < |completed| && completed[i].candidate.id == c.id
  }

  /** The completed experiments of one arm of one comparison, in completion order. */
  function ArmMembers(contract: Contract, completed: seq<CompletedExperiment>, key: ComparisonKey, arm: string)
    : (r: seq<CompletedExperiment>)
  {
    if |completed| == 0 then []
    else
      var rest := ArmMembers(contract, completed[..|completed| - 1], key, arm);
      if InArm(contract, completed[|completed| - 1], key, arm) then rest + [completed[|completed| - 1]] else rest
  }

  // ----- assessment -----

  function OtherArm(arm: string): string {
    if arm == ADAM then SGD else ADAM
  }

  /** The branches of `assess_candidate` once every lookup has succeeded. */
  function AssessRegistered(contract: Contract, design: Design, completed: seq<CompletedExperiment>): Assessment {
    var key := design.Key();
    var adam, sgd := ArmMembers(contract, completed, key, ADAM), ArmMembers(contract, completed, key, SGD);
    var same, other := ArmMembers(contract, completed, key, design.arm), ArmMembers(contract, completed, key, OtherArm(design.arm));
    if |adam| > 0 && |sgd| > 0 then Assessment(design.candidateId, AlreadyCompletedPair, design.group, None)
    else if |same| > 0 then Assessment(design.candidateId, DuplicateArm, design.group, None)
    else if |other| > 1 then Assessment(design.candidateId, AmbiguousCounterpart, design.group, None)
    else if |other| == 1 then Assessment(design.candidateId, CompletesPair, design.group, Some(other[0]))
    else Assessment(design.candidateId, OpensPair, design.group, None)
  }

  function FirstUnregistered(contract: Contract, completed: seq<CompletedExperiment>): string
    requires !AllRegistered(contract, completed)
  {
    if !Registered(contract, completed[0].candidate) then completed[0].candidate.id
    else FirstUnregistered(contract, completed[1..])
  }

  /** `assess_candidate`. */
  function AssessCandidate(contract: Contract, c: Candidate, completed: seq<CompletedExperiment>)
    : Result<Assessment, EligibilityError>
  {
    var design := DesignFor(contract, c);
    if design.None? then Err(UnregisteredCandidate(c.id))
    else if IsCompleted(c, completed) then Ok(Assessment(c.id, CompletedCandidate, design.value.group, None))
    else if !design.value.IsOptimizerEffect() then Ok(Assessment(c.id, Ineligible, design.value.group, None))
    else if !AllRegistered(contract, completed) then Err(UnregisteredCandidate(FirstUnregistered(contract, completed)))
    else Ok(AssessRegistered(contract, design.value, completed))
  }

  // ----- the scan for pairs -----

  function HasKey(contract: Contract, e: CompletedExperiment): Option<ComparisonKey> {
    var d := DesignFor(contract, e.candidate);
    if d.Some? && d.value.IsOptimizerEffect() then Some(d.value.Key()) else None
  }

  /** The keys of the grouping dictionary, in insertion order. */
  function KeysOf(contract: Contract, completed: seq<CompletedExperiment>): (r: seq<ComparisonKey>) {
    if |completed| == 0 then []
    else
      var rest := KeysOf(contract, completed[..|completed| - 1]);
      var key := HasKey(contract, completed[|completed| - 1]);
      if key.Some? && key.value !in rest then rest + [key.value] else rest
  }

  function ByRepr(contract: Contract): (ComparisonKey, ComparisonKey) -> bool {
    (a: ComparisonKey, b: ComparisonKey) => StringLess(contract.repr(a), contract.repr(b))
  }

  /** The matched pair of one comparison: exactly one experiment in each arm. */
  function PairOf(contract: Contract, completed: seq<CompletedExperiment>, key: ComparisonKey): Option<MatchedPair> {
    var adam, sgd := ArmMembers(contract, completed, key, ADAM), ArmMembers(contract, completed, key, SGD);
    if |sgd| != 1 || |adam| != 1 then None else Some(MatchedPair(key.group, sgd[0], adam[0]))
  }

  function PairsAmong(contract: Contract, completed: seq<CompletedExperiment>, keys: seq<ComparisonKey>,
                      applied: set<(int, int)>): (r: seq<MatchedPair>)
  {
    if |keys| == 0 then []
    else
      var rest := PairsAmong(contract, completed, keys[..|keys| - 1], applied);
      var pair := PairOf(contract, completed, keys[|keys| - 1]);
      if pair.Some? && pair.value.SourceIds() !in applied then rest + [pair.value] else rest
  }

  /** `valid_unapplied_pairs`: the pairs not applied yet, in the order their keys sort. */
  function ValidUnappliedPairs(contract: Contract, completed: seq<CompletedExperiment>, applied: set<(int, int)>)
    : Result<seq<MatchedPair>, EligibilityError>
  {
    if !AllRegistered(contract, completed) then Err(UnregisteredCandidate(FirstUnregistered(contract, completed)))
    else Ok(PairsAmong(contract, completed, SortBy(KeysOf(contract, completed), ByRepr(contract)), applied))
  }

  /** The two loops of the scan: fill the groups, then visit them in sorted key order. */
  method ScanPairs(contract: Contract, completed: seq<CompletedExperiment>, applied: set<(int, int)>)
    returns (r: Result<seq<MatchedPair>, EligibilityError>)
    ensures r == ValidUnappliedPairs(contract, completed, applied)
  {
    if !AllRegistered(contract, completed) {
      return Err(UnregisteredCandidate(FirstUnregistered(contract, completed)));
    }
    var grouped, order := GroupByKey(contract, completed);
    var keys := SortBy(order, ByRepr(contract));
    var pairs: seq<MatchedPair> := [];
    for i := 0 to |keys|
      invariant pairs == PairsAmong(contract, completed, keys[..i], applied)
    {
      assert keys[..i + 1][..i] == keys[..i];
      SortMembers(order, ByRepr(contract));
      assert keys[i] in keys;
      var experiments := grouped[keys[i]];
      GroupArms(contract, completed, keys[i]);
      var sgd, adam := SelectArm(contract, experiments, SGD), SelectArm(contract, experiments, ADAM);
      if |sgd| == 1 && |adam| == 1 {
        var pair := MatchedPair(keys[i].group, sgd[0], adam[0]);
        if pair.SourceIds() !in applied {
          pairs := pairs + [pair];
        }
      }
    }
    assert keys[..|keys|] == keys;
    return Ok(pairs);
  }

  /** `[item for item in experiments if design_for(item.candidate).intervention_arm == arm]`. */
  function SelectArm(contract: Contract, experiments: seq<CompletedExperiment>, arm: string): seq<CompletedExperiment> {
    if |experiments| == 0 then []
    else
      var rest := SelectArm(contract, experiments[..|experiments| - 1], arm);
      var last := experiments[|experiments| - 1];
      var d := DesignFor(contract, last.candidate);
      if d.Some? && d.value.arm == arm then rest + [last] else rest
  }

  /** The experiments grouped under one key. */
  function Group(contract: Contract, completed: seq<CompletedExperiment>, key: ComparisonKey): (r: seq<CompletedExperiment>) {
    if |completed| == 0 then []
    else
      var rest := Group(contract, completed[..|completed| - 1], key);
      var last := completed[|completed| - 1];
      if HasKey(contract, last) == Some(key) then rest + [last] else rest
  }

  method GroupByKey(contract: Contract, completed: seq<CompletedExperiment>)
    returns (grouped: map<ComparisonKey, seq<CompletedExperiment>>, order: seq<ComparisonKey>)
    ensures order == KeysOf(contract, completed)
    ensures forall key :: key in grouped <==> key in order
    ensures forall key :: key in grouped ==> grouped[key] == Group(contract, completed, key)
  {
    grouped, order := map[], [];
    for i := 0 to |completed|
      invariant order == KeysOf(contract, completed[..i])
      invariant forall key :: key in grouped <==> key in order
      invariant forall key :: key in grouped ==> grouped[key] == Group(contract, completed[..i], key)
      invariant forall key :: key !in grouped ==> Group(contract, completed[..i], key) == []
    {
      assert completed[..i + 1][..i] == completed[..i];
      var key := HasKey(contract, completed[i]);
      if key.Some? {
        if key.value in grouped {
          grouped := grouped[key.value := grouped[key.value] + [completed[i]]];
        } else {
          grouped := grouped[key.value := [completed[i]]];
          order := order + [key.value];
        }
      }
    }
    assert completed[..|completed|] == completed;
  }

  /** Splitting a group by arm gives the arm members of its key. */
  lemma {:induction false} GroupArms(contract: Contract, completed: seq<CompletedExperiment>, key: ComparisonKey)
    ensures SelectArm(contract, Group(contract, completed, key), ADAM) == ArmMembers(contract, completed, key, ADAM)
    ensures SelectArm(contract, Group(contract, completed, key), SGD) == ArmMembers(contract, completed, key, SGD)
  {
    if |completed| > 0 {
      var before, last := completed[..|completed| - 1], completed[|completed| - 1];
      GroupArms(contract, before, key);
      if HasKey(contract, last) == Some(key) {
        assert (Group(contract, before, key) + [last])[..|Group(contract, before, key)|] == Group(contract, before, key);
      }
    }
  }

  // ----- what the scan finds -----

  lemma {:induction false} KeysDistinct(contract: Contract, completed: seq<CompletedExperiment>)
    ensures Distinct(KeysOf(contract, completed))
  {
    if |completed| > 0 {
      KeysDistinct(contract, completed[..|completed| - 1]);
    }
  }

  lemma {:induction false} MemberHasKey(contract: Contract, completed: seq<CompletedExperiment>, key: ComparisonKey, arm: string)
    requires |ArmMembers(contract, completed, key, arm)| > 0
    ensures key in KeysOf(contract, completed)
  {
    var before, last := completed[..|completed| - 1], completed[|completed| - 1];
    if !InArm(contract, last, key, arm) {
      MemberHasKey(contract, before, key, arm);
    }
  }

  /** Every element of an arm is a completed experiment of that arm. */
  lemma {:induction false} ArmMembersSound(contract: Contract, completed: seq<CompletedExperiment>, key: ComparisonKey, arm: string)
    ensures forall e :: e in ArmMembers(contract, completed, key, arm) <==> e in completed && InArm(contract, e, key, arm)
  {
    if |completed| > 0 {
      var before, last := completed[..|completed| - 1], completed[|completed| - 1];
      ArmMembersSound(contract, before, key, arm);
      assert completed == before + [last];
    }
  }

  lemma {:induction false} PairsAmongSound(contract: Contract, completed: seq<CompletedExperiment>, keys: seq<ComparisonKey>,
                                          applied: set<(int, int)>)
    ensures forall p :: p in PairsAmong(contract, completed, keys, applied) <==>
      p.SourceIds() !in applied && exists k :: k in keys && PairOf(contract, completed, k) == Some(p)
  {
    if |keys| > 0 {
      var before, last := keys[..|keys| - 1], keys[|keys| - 1];
      PairsAmongSound(contract, completed, before, applied);
      assert keys == before + [last];
    }
  }

  /** The scan returns exactly the pairs of comparisons with one experiment in each arm that
      have not been applied. */
  lemma ScanFindsExactlyThePairs(contract: Contract, completed: seq<CompletedExperiment>, applied: set<(int, int)>)
    requires AllRegistered(contract, completed)
    ensures ValidUnappliedPairs(contract, completed, applied).Ok?
    ensures forall p :: p in ValidUnappliedPairs(contract, completed, applied).value <==>
      p.SourceIds() !in applied && exists k :: PairOf(contract, completed, k) == Some(p)
  {
    var keys := SortBy(KeysOf(contract, completed), ByRepr(contract));
    PairsAmongSound(contract, completed, keys, applied);
    SortMembers(KeysOf(contract, completed), ByRepr(contract));
    forall k | PairOf(contract, completed, k).Some? ensures k in keys {
      MemberHasKey(contract, completed, k, SGD);
    }
  }

  /** When a single comparison has an unapplied pair, the scan returns that pair alone. */
  lemma {:induction false} OnlyOnePair(contract: Contract, completed: seq<CompletedExperiment>, keys: seq<ComparisonKey>,
                                       applied: set<(int, int)>, key: ComparisonKey, pair: MatchedPair)
    requires Distinct(keys)
    requires PairOf(contract, completed, key) == Some(pair) && pair.SourceIds() !in applied
    requires forall k :: k != key && PairOf(contract, completed, k).Some? ==>
               PairOf(contract, completed, k).value.SourceIds() in applied
    ensures PairsAmong(contract, completed, keys, applied) == if key in keys then [pair] else []
  {
    if |keys| > 0 {
      var before, last := keys[..|keys| - 1], keys[|keys| - 1];
      OnlyOnePair(contract, completed, before, applied, key, pair);
      assert keys == before + [last];
      assert last !in before;
    }
  }

  lemma {:induction false} NoPairs(contract: Contract, completed: seq<CompletedExperiment>, keys: seq<ComparisonKey>,
                                   applied: set<(int, int)>)
    requires forall k :: PairOf(contract, completed, k).Some? ==>
               PairOf(contract, completed, k).value.SourceIds() in applied
    ensures PairsAmong(contract, completed, keys, applied) == []
  {
    if |keys| > 0 {
      NoPairs(contract, completed, keys[..|keys| - 1], applied);
    }
  }

  // ----- assessment predicts the scan -----

  lemma AppendMember(contract: Contract, completed: seq<CompletedExperiment>, e: CompletedExperiment, key: ComparisonKey, arm: string)
    ensures ArmMembers(contract, completed + [e], key, arm)
         == if InArm(contract, e, key, arm) then ArmMembers(contract, completed, key, arm) + [e]
            else ArmMembers(contract, completed, key, arm)
  {
    assert (completed + [e])[..|completed|] == completed;
  }

  /** An experiment outside a comparison leaves that comparison's pair alone. */
  lemma OtherKeysUnchanged(contract: Contract, completed: seq<CompletedExperiment>, e: CompletedExperiment, key: ComparisonKey)
    requires HasKey(contract, e) != Some(key)
    ensures PairOf(contract, completed + [e], key) == PairOf(contract, completed, key)
  {
    AppendMember(contract, completed, e, key, ADAM);
    AppendMember(contract, completed, e, key, SGD);
  }

  /** The pair of the two experiments, whichever arm the new one belongs to. */
  function PairWith(design: Design, e: CompletedExperiment, counterpart: CompletedExperiment): MatchedPair {
    if design.arm == ADAM then MatchedPair(design.group, counterpart, e) else MatchedPair(design.group, e, counterpart)
  }

  /** What the assessment of a candidate says will happen to the pair of its own comparison
      once it completes, for every one of the seven effects. */
  lemma AssessmentPredictsPair(contract: Contract, c: Candidate, completed: seq<CompletedExperiment>, e: CompletedExperiment)
    requires Registered(contract, c) && AllRegistered(contract, completed)
    requires e.candidate == c && !IsCompleted(c, completed)
    ensures AssessCandidate(contract, c, completed).Ok?
    ensures var design := DesignFor(contract, c).value;
      var a := AssessCandidate(contract, c, completed).value;
      var before, after := PairOf(contract, completed, design.Key()), PairOf(contract, completed + [e], design.Key());
      match a.effect
      case CompletesPair => a.counterpart.Some? && before.None? && after == Some(PairWith(design, e, a.counterpart.value))
      case OpensPair => before.None? && after.None?
      case Ineligible => after == before
      case DuplicateArm => before.None? && after.None?
      case AmbiguousCounterpart => before.None? && after.None?
      case AlreadyCompletedPair => after.None?
      case CompletedCandidate => false
  {
    var design := DesignFor(contract, c).value;
    AppendMember(contract, completed, e, design.Key(), ADAM);
    AppendMember(contract, completed, e, design.Key(), SGD);
  }

  /** `completes_pair` is said exactly when the completion turns the comparison's missing pair
      into a valid one. */
  lemma CompletesPairIffPairAppears(contract: Contract, c: Candidate, completed: seq<CompletedExperiment>, e: CompletedExperiment)
    requires Registered(contract, c) && AllRegistered(contract, completed)
    requires e.candidate == c && !IsCompleted(c, completed)
    ensures var key := DesignFor(contract, c).value.Key();
      AssessCandidate(contract, c, completed).Ok?
      && (AssessCandidate(contract, c, completed).value.effect == CompletesPair <==>
            PairOf(contract, completed, key).None? && PairOf(contract, completed + [e], key).Some?)
  {
    AssessmentPredictsPair(contract, c, completed, e);
  }

  /** What has been applied is exactly the set of source ids of the valid pairs. */
  ghost predicate AppliedExactly(contract: Contract, completed: seq<CompletedExperiment>, applied: set<(int, int)>) {
    forall ids :: ids in applied <==> exists k :: PairOf(contract, completed, k).Some?
                                               && PairOf(contract, completed, k).value.SourceIds() == ids
  }

  ghost predicate DistinctRecords(completed: seq<CompletedExperiment>) {
    forall i, j :: 0 <= i < j < |completed| ==> completed[i].recordId != completed[j].recordId
  }

  /** The effects a planner leaves for execution. */
  predicate Admissible(effect: Effect) {
    effect == OpensPair || effect == CompletesPair || effect == Ineligible
  }

  /** The cross-module claim: with everything valid so far applied, the scan after an admissible
      completion returns the predicted pair alone if the assessment said `completes_pair`, and
      nothing otherwise; applying what it returns restores the invariant. */
  lemma AssessmentPredictsScan(contract: Contract, c: Candidate, completed: seq<CompletedExperiment>, e: CompletedExperiment,
                               applied: set<(int, int)>)
    requires Registered(contract, c) && AllRegistered(contract, completed)
    requires e.candidate == c && !IsCompleted(c, completed)
    requires DistinctRecords(completed + [e]) && AppliedExactly(contract, completed, applied)
    requires AssessCandidate(contract, c, completed).Ok? && Admissible(AssessCandidate(contract, c, completed).value.effect)
    ensures AllRegistered(contract, completed + [e])
    ensures var a := AssessCandidate(contract, c, completed).value;
      if a.effect == CompletesPair then
        && a.counterpart.Some?
        && var pair := PairWith(DesignFor(contract, c).value, e, a.counterpart.value);
        && ValidUnappliedPairs(contract, completed + [e], applied) == Ok([pair])
        && pair.SourceIds() !in applied
        && AppliedExactly(contract, completed + [e], applied + {pair.SourceIds()})
      else
        && ValidUnappliedPairs(contract, completed + [e], applied) == Ok([])
        && AppliedExactly(contract, completed + [e], applied)
  {
    hide PairOf, AssessRegistered, KeysOf, SortBy, ByRepr, DistinctRecords, StringLess;
    AssessmentPredictsPair(contract, c, completed, e);
    var design := DesignFor(contract, c).value;
    var a := AssessCandidate(contract, c, completed).value;
    var after, key := completed + [e], design.Key();
    var keys := SortBy(KeysOf(contract, after), ByRepr(contract));
    KeysDistinct(contract, after);
    SortDistinct(KeysOf(contract, after), ByRepr(contract));
    SortMembers(KeysOf(contract, after), ByRepr(contract));
    forall k | k != key ensures PairOf(contract, after, k) == PairOf(contract, completed, k) {
      OtherKeysUnchanged(contract, completed, e, k);
    }
    if a.effect == CompletesPair {
      var pair := PairWith(design, e, a.counterpart.value);
      NewPairUnapplied(contract, completed, e, applied, pair);
      PairHasKey(contract, after, key);
      OnlyOnePair(contract, after, keys, applied, key, pair);
    } else {
      NoPairs(contract, after, keys, applied);
    }
  }

  lemma PairHasKey(contract: Contract, completed: seq<CompletedExperiment>, key: ComparisonKey)
    requires PairOf(contract, completed, key).Some?
    ensures key in KeysOf(contract, completed)
  {
    MemberHasKey(contract, completed, key, SGD);
  }

  lemma NewPairUnapplied(contract: Contract, completed: seq<CompletedExperiment>, e: CompletedExperiment,
                         applied: set<(int, int)>, pair: MatchedPair)
    requires AppliedExactly(contract, completed, applied) && DistinctRecords(completed + [e])
    requires pair.sgd == e || pair.adam == e
    ensures pair.SourceIds() !in applied
  {
    forall x | x in completed ensures x.recordId != e.recordId {
      var i :| 0 <= i < |completed| && completed[i] == x;
      assert (completed + [e])[i] == x && (completed + [e])[|completed|] == e;
    }
    forall k | PairOf(contract, completed, k).Some?
      ensures PairOf(contract, completed, k).value.SourceIds() != pair.SourceIds()
    {
      ArmMembersSound(contract, completed, k, ADAM);
      ArmMembersSound(contract, completed, k, SGD);
      assert ArmMembers(contract, completed, k, SGD)[0] in completed;
      assert ArmMembers(contract, completed, k, ADAM)[0] in completed;
    }
  }
}
