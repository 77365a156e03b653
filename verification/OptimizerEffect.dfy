/** Deriving evidence from matched pairs, and synchronising a store's beliefs with it. */
module OptimizerEffect {
  import opened Wrappers
  import opened RealSums
  import opened Information
  import opened Ordering
  import opened EvidenceEligibility
  import opened Reasoning
  import opened Rounding

  const PRACTICAL_EFFECT_THRESHOLD: real := 0.01
  const PREDICTED_EFFECT_STANDARD_DEVIATION: real := 0.05

  const HYPOTHESIS_PREFIX := "optimizer."
  const ADAM_ADVANTAGE_ID := HYPOTHESIS_PREFIX + "adam-advantage"
  const NO_ADVANTAGE_ID := HYPOTHESIS_PREFIX + "no-consistent-advantage"
  const SGD_ADVANTAGE_ID := HYPOTHESIS_PREFIX + "sgd-advantage"

  /** The three competing hypotheses, in identifier order, predicting with one sigma. */
  function HypothesesWithSigma(sigma: real): (r: seq<Hypothesis>)
    ensures |r| == 3
  {
    [Hypothesis(ADAM_ADVANTAGE_ID, 1.0 / 3.0, 0.10, sigma),
     Hypothesis(NO_ADVANTAGE_ID, 1.0 / 3.0, 0.0, sigma),
     Hypothesis(SGD_ADVANTAGE_ID, 1.0 / 3.0, -0.10, sigma)]
  }

  /** The identifiers of the three hypotheses, whatever they predict with. */
  function OptimizerIds(): (r: seq<string>)
    ensures |r| == 3
  {
    HypothesisIds(HypothesesWithSigma(PREDICTED_EFFECT_STANDARD_DEVIATION))
  }

  lemma IdsIgnoreSigma(sigma: real)
    ensures HypothesisIds(HypothesesWithSigma(sigma)) == OptimizerIds()
  {
    forall i | 0 <= i < 3 ensures HypothesisIds(HypothesesWithSigma(sigma))[i] == OptimizerIds()[i] {
    }
  }

  function OptimizerEffectHypotheses(): (r: seq<Hypothesis>)
    ensures |r| == 3
  {
    HypothesesWithSigma(PREDICTED_EFFECT_STANDARD_DEVIATION)
  }

  lemma {:induction false} SharedPrefix(prefix: string, a: string, b: string)
    ensures StringLess(prefix + a, prefix + b) == StringLess(a, b)
  {
    if |prefix| > 0 {
      assert (prefix + a)[1..] == prefix[1..] + a && (prefix + b)[1..] == prefix[1..] + b;
      SharedPrefix(prefix[1..], a, b);
    } else {
      assert prefix + a == a && prefix + b == b;
    }
  }

  lemma FirstDecides(a: string, b: string)
    requires |a| > 0 && |b| > 0 && a[0] < b[0]
    ensures !StringLess(b, a)
  {
  }

  lemma IdsAscend()
    ensures !StringLess(NO_ADVANTAGE_ID, ADAM_ADVANTAGE_ID) && !StringLess(SGD_ADVANTAGE_ID, NO_ADVANTAGE_ID)
  {
    hide StringLess;
    var prefix, adam, none, sgd := HYPOTHESIS_PREFIX, "adam-advantage", "no-consistent-advantage", "sgd-advantage";
    FirstDecides(adam, none);
    FirstDecides(none, sgd);
    SharedPrefix(prefix, none, adam);
    SharedPrefix(prefix, sgd, none);
  }

  lemma SortedTriple<T>(a: T, b: T, c: T, less: (T, T) -> bool)
    requires !less(b, a) && !less(c, b)
    ensures SortBy([a, b, c], less) == [a, b, c]
  {
    assert [c][1..] == [] && [b, c][1..] == [c] && [a, b, c][1..] == [b, c];
    assert SortBy([c], less) == [c];
    assert SortBy([b, c], less) == Insert(b, [c], less) == [b, c];
  }

  /** The source lists the hypotheses in identifier order already. */
  lemma HypothesesOrdered(sigma: real)
    ensures Ordered(HypothesesWithSigma(sigma)) == HypothesesWithSigma(sigma)
  {
    hide StringLess;
    var h := HypothesesWithSigma(sigma);
    IdsAscend();
    SortedTriple(h[0], h[1], h[2], IdLess);
    assert h == [h[0], h[1], h[2]];
  }

  function InitialState(): BeliefState {
    var hypotheses := OptimizerEffectHypotheses();
    BeliefState(HypothesisIds(hypotheses), [1.0 / 3.0, 1.0 / 3.0, 1.0 / 3.0], [1.0 / 3.0, 1.0 / 3.0, 1.0 / 3.0], [], 0)
  }

  lemma InitialStateValid()
    ensures ValidState(InitialState())
    ensures forall sigma :: HypothesisIds(HypothesesWithSigma(sigma)) == InitialState().hypothesisIds
  {
    var third := 1.0 / 3.0;
    assert Sum([third]) == third by { assert [third][..0] == []; }
    assert Sum([third, third]) == 2.0 * third by { assert [third, third][..1] == [third]; }
    assert Sum([third, third, third]) == 1.0 by { assert [third, third, third][..2] == [third, third]; }
    forall sigma ensures HypothesisIds(HypothesesWithSigma(sigma)) == InitialState().hypothesisIds {
      forall i | 0 <= i < 3
        ensures HypothesisIds(HypothesesWithSigma(sigma))[i] == InitialState().hypothesisIds[i]
      {
      }
    }
  }

  // ----- evidence -----

  function OutcomeOf(effect: real): Outcome {
    if effect > PRACTICAL_EFFECT_THRESHOLD then AdamWin
    else if effect < -PRACTICAL_EFFECT_THRESHOLD then SgdWin
    else PracticalTie
  }

  /** `_evidence_from_pair`; `name` is the injective evidence identifier of two source records. */
  function EvidenceFromPair(name: ((int, int)) -> string, pair: MatchedPair): Evidence {
    var effect := Round12(pair.adam.observed - pair.sgd.observed);
    Evidence(name(pair.SourceIds()), pair.SourceIds(), effect, OutcomeOf(effect), pair.group)
  }

  ghost predicate InjectiveName(name: ((int, int)) -> string) {
    forall a, b :: name(a) == name(b) ==> a == b
  }

  // ----- the store -----

  /** What the store holds: completed experiments, evidence in order of application, and the
      belief state the evidence has led to. */
  datatype Ledger = Ledger(completed: seq<CompletedExperiment>, evidence: seq<Evidence>, state: BeliefState)

  datatype SyncError = Unregistered | UpdateFailed

  function Applied(evidence: seq<Evidence>): set<(int, int)> {
    set e | e in evidence :: e.sources
  }

  function EvidenceIds(evidence: seq<Evidence>): (r: seq<string>)
    ensures |r| == |evidence|
  {
    seq(|evidence|, i requires 0 <= i < |evidence| => evidence[i].id)
  }

  /** Applying the evidence of one pair; evidence already stored is skipped. */
  function ApplyPair(density: Density, name: ((int, int)) -> string, ledger: Ledger, pair: MatchedPair): Result<Ledger, SyncError>
    requires |ledger.state.posterior| == |ledger.state.hypothesisIds|
  {
    var evidence := EvidenceFromPair(name, pair);
    if evidence.id in EvidenceIds(ledger.evidence) then Ok(ledger)
    else
      var update := Update(density, OptimizerEffectHypotheses(), ledger.state, evidence);
      if update.Err? then Err(UpdateFailed)
      else Ok(Ledger(ledger.completed, ledger.evidence + [evidence], update.value.after))
  }

  function ApplyPairs(density: Density, name: ((int, int)) -> string, ledger: Ledger, pairs: seq<MatchedPair>)
    : (r: Result<Ledger, SyncError>)
    requires |ledger.state.posterior| == |ledger.state.hypothesisIds|
    ensures r.Ok? ==> |r.value.state.posterior| == |r.value.state.hypothesisIds|
  {
    if |pairs| == 0 then Ok(ledger)
    else
      var before :- ApplyPairs(density, name, ledger, pairs[..|pairs| - 1]);
      ApplyPair(density, name, before, pairs[|pairs| - 1])
  }

  /** `synchronize_optimizer_reasoning`. */
  function Synchronize(density: Density, name: ((int, int)) -> string, contract: Contract, ledger: Ledger)
    : (r: Result<Ledger, SyncError>)
    requires |ledger.state.posterior| == |ledger.state.hypothesisIds|
    ensures r.Ok? ==> |r.value.state.posterior| == |r.value.state.hypothesisIds|
  {
    var pairs := ValidUnappliedPairs(contract, ledger.completed, Applied(ledger.evidence));
    if pairs.Err? then Err(Unregistered) else ApplyPairs(density, name, ledger, pairs.value)
  }

  /** The store as the source mutates it. */
  class ReasoningStore {
    var completed: seq<CompletedExperiment>
    var evidence: seq<Evidence>
    var state: BeliefState

    ghost function Contents(): Ledger
      reads this
    {
      Ledger(completed, evidence, state)
    }

    /** A fresh store registers the hypotheses and the initial state. */
    constructor ()
      ensures Contents() == Ledger([], [], InitialState())
    {
      completed, evidence, state := [], [], InitialState();
    }

    method AddExperiment(experiment: CompletedExperiment)
      modifies this`completed
      ensures Contents() == Ledger(old(completed) + [experiment], old(evidence), old(state))
    {
      completed := completed + [experiment];
    }

    /** The loop of `synchronize_optimizer_reasoning`: it stops at the first failing update,
        keeping what was applied before it. */
    method SynchronizeReasoning(density: Density, name: ((int, int)) -> string, contract: Contract)
      returns (failure: Option<SyncError>)
      requires |state.posterior| == |state.hypothesisIds|
      modifies this`evidence, this`state
      ensures completed == old(completed)
      ensures failure.None? <==> Synchronize(density, name, contract, old(Contents())).Ok?
      ensures failure.None? ==> Synchronize(density, name, contract, old(Contents())) == Ok(Contents())
      ensures failure.Some? ==> Synchronize(density, name, contract, old(Contents())) == Err(failure.value)
    {
      hide Update, EvidenceFromPair, ValidUnappliedPairs;
      ghost var start := Contents();
      var scanned := ScanPairs(contract, completed, Applied(evidence));
      if scanned.Err? {
        return Some(Unregistered);
      }
      var pairs := scanned.value;
      for i := 0 to |pairs|
        invariant completed == start.completed
        invariant |state.posterior| == |state.hypothesisIds|
        invariant ApplyPairs(density, name, start, pairs[..i]) == Ok(Contents())
      {
        assert pairs[..i + 1][..i] == pairs[..i];
        var item := EvidenceFromPair(name, pairs[i]);
        if item.id !in EvidenceIds(evidence) {
          var update := UpdateBelief(density, OptimizerEffectHypotheses(), state, item);
          if update.Err? {
            ApplyFailureStays(density, name, start, pairs, i + 1);
            return Some(UpdateFailed);
          }
          evidence := evidence + [item];
          state := update.value.after;
        }
      }
      assert pairs[..|pairs|] == pairs;
      return None;
    }
  }

  lemma {:induction false} ApplyFailureStays(density: Density, name: ((int, int)) -> string, ledger: Ledger,
                                             pairs: seq<MatchedPair>, n: nat)
    requires |ledger.state.posterior| == |ledger.state.hypothesisIds|
    requires n <= |pairs| && ApplyPairs(density, name, ledger, pairs[..n]).Err?
    ensures ApplyPairs(density, name, ledger, pairs) == ApplyPairs(density, name, ledger, pairs[..n])
  {
    if n < |pairs| {
      assert pairs[..|pairs| - 1][..n] == pairs[..n];
      ApplyFailureStays(density, name, ledger, pairs[..|pairs| - 1], n);
    } else {
      assert pairs[..n] == pairs;
    }
  }

  // ----- what a store's ledger satisfies -----

  /** One likelihood column per stored evidence. */
  function Columns(density: Density, evidence: seq<Evidence>): (r: seq<seq<real>>)
    ensures |r| == |evidence| && Rectangular(r, 3)
  {
    seq(|evidence|, i requires 0 <= i < |evidence| =>
      Likelihoods(density, OptimizerEffectHypotheses(), evidence[i].comparison))
  }

  /** The stored state is the exact posterior of the stored evidence. */
  ghost predicate ExactLedger(density: Density, name: ((int, int)) -> string, ledger: Ledger) {
    && ValidState(ledger.state)
    && ledger.state.hypothesisIds == InitialState().hypothesisIds
    && ledger.state.evidenceIds == EvidenceIds(ledger.evidence)
    && (forall e :: e in ledger.evidence ==> e.id == name(e.sources))
    && Sum(JointWeights(InitialState().prior, Columns(density, ledger.evidence))) > 0.0
    && ledger.state.posterior == Normalise(JointWeights(InitialState().prior, Columns(density, ledger.evidence)))
  }

  lemma FreshLedgerExact(density: Density, name: ((int, int)) -> string, completed: seq<CompletedExperiment>)
    ensures ExactLedger(density, name, Ledger(completed, [], InitialState()))
  {
    InitialStateValid();
    var p := InitialState().prior;
    assert JointWeights(p, Columns(density, [])) == p;
    forall i | 0 <= i < |p| ensures Normalise(p)[i] == p[i] {
    }
    assert Normalise(p) == p;
  }

  lemma ColumnsPositive(density: Density, evidence: seq<Evidence>)
    requires PositiveDensity(density)
    ensures PositiveColumns(Columns(density, evidence))
  {
  }

  /** Applying the evidence of a pair keeps the ledger exact; it never fails. */
  lemma ApplyPairKeepsExact(density: Density, name: ((int, int)) -> string, ledger: Ledger, pair: MatchedPair)
    requires PositiveDensity(density) && ExactLedger(density, name, ledger)
    ensures ApplyPair(density, name, ledger, pair).Ok?
    ensures ExactLedger(density, name, ApplyPair(density, name, ledger, pair).value)
    ensures ApplyPair(density, name, ledger, pair).value.completed == ledger.completed
    ensures var item := EvidenceFromPair(name, pair);
      ApplyPair(density, name, ledger, pair).value.evidence
        == if item.id in EvidenceIds(ledger.evidence) then ledger.evidence else ledger.evidence + [item]
  {
    hide Ordered, StringLess;
    var item := EvidenceFromPair(name, pair);
    if item.id !in EvidenceIds(ledger.evidence) {
      InitialStateValid();
      HypothesesOrdered(PREDICTED_EFFECT_STANDARD_DEVIATION);
      UpdateSucceedsIff(density, OptimizerEffectHypotheses(), ledger.state, item);
      UpdateKeepsState(density, OptimizerEffectHypotheses(), ledger.state, item);
      var longer := ledger.evidence + [item];
      assert EvidenceIds(longer) == EvidenceIds(ledger.evidence) + [item.id];
      ExtendPosterior(density, ledger.evidence, item);
    }
  }

  lemma ExtendPosterior(density: Density, evidence: seq<Evidence>, item: Evidence)
    requires PositiveDensity(density)
    requires Sum(JointWeights(InitialState().prior, Columns(density, evidence))) > 0.0
    ensures var p := InitialState().prior;
      var joint := JointWeights(p, Columns(density, evidence));
      var column := Likelihoods(density, OptimizerEffectHypotheses(), item.comparison);
      && Sum(JointWeights(p, Columns(density, evidence + [item]))) > 0.0
      && Sum(Times(Normalise(joint), column)) > 0.0
      && Normalise(JointWeights(p, Columns(density, evidence + [item]))) == Normalise(Times(Normalise(joint), column))
  {
    InitialStateValid();
    var p := InitialState().prior;
    var longer := Columns(density, evidence + [item]);
    ColumnsPositive(density, evidence + [item]);
    JointWeightsPositive(p, longer);
    assert longer[..|evidence|] == Columns(density, evidence);
    NormaliseTimes(JointWeights(p, Columns(density, evidence)), longer[|evidence|]);
  }

  lemma {:induction false} ApplyPairsKeepsExact(density: Density, name: ((int, int)) -> string, ledger: Ledger, pairs: seq<MatchedPair>)
    requires PositiveDensity(density) && ExactLedger(density, name, ledger)
    ensures ApplyPairs(density, name, ledger, pairs).Ok?
    ensures ExactLedger(density, name, ApplyPairs(density, name, ledger, pairs).value)
    ensures ApplyPairs(density, name, ledger, pairs).value.completed == ledger.completed
  {
    if |pairs| > 0 {
      ApplyPairsKeepsExact(density, name, ledger, pairs[..|pairs| - 1]);
      var before := ApplyPairs(density, name, ledger, pairs[..|pairs| - 1]).value;
      hide ExactLedger, ApplyPair, EvidenceFromPair, EvidenceIds;
      ApplyPairKeepsExact(density, name, before, pairs[|pairs| - 1]);
    }
  }

  lemma LastPair(pairs: seq<MatchedPair>)
    requires |pairs| > 0
    ensures forall p :: p in pairs <==> p in pairs[..|pairs| - 1] || p == pairs[|pairs| - 1]
  {
    assert pairs == pairs[..|pairs| - 1] + [pairs[|pairs| - 1]];
  }

  /** Nothing is forgotten, and what is added is the evidence of the given pairs. */
  lemma {:induction false} ApplyPairsAdds(density: Density, name: ((int, int)) -> string, ledger: Ledger, pairs: seq<MatchedPair>)
    requires PositiveDensity(density) && InjectiveName(name) && ExactLedger(density, name, ledger)
    ensures ApplyPairs(density, name, ledger, pairs).Ok?
    ensures var after := ApplyPairs(density, name, ledger, pairs).value;
      && (forall s :: s in Applied(after.evidence) <==>
            s in Applied(ledger.evidence) || exists p :: p in pairs && p.SourceIds() == s)
      && (forall e :: e in after.evidence ==>
            e in ledger.evidence || exists p :: p in pairs && e == EvidenceFromPair(name, p))
  {
    hide Update, Ordered, StringLess;
    ApplyPairsKeepsExact(density, name, ledger, pairs);
    if |pairs| > 0 {
      var n := |pairs| - 1;
      ApplyPairsKeepsExact(density, name, ledger, pairs[..n]);
      ApplyPairsAdds(density, name, ledger, pairs[..n]);
      var before := ApplyPairs(density, name, ledger, pairs[..n]).value;
      LastPair(pairs);
      AppliedGrows(density, name, before, pairs[n]);
      hide ExactLedger, EvidenceFromPair, Applied, EvidenceIds, Update;
      assert ApplyPairs(density, name, ledger, pairs) == ApplyPair(density, name, before, pairs[n]);
    }
  }

  lemma AppliedGrows(density: Density, name: ((int, int)) -> string, ledger: Ledger, pair: MatchedPair)
    requires InjectiveName(name) && forall e :: e in ledger.evidence ==> e.id == name(e.sources)
    requires |ledger.state.posterior| == |ledger.state.hypothesisIds|
    requires ApplyPair(density, name, ledger, pair).Ok?
    ensures Applied(ApplyPair(density, name, ledger, pair).value.evidence) == Applied(ledger.evidence) + {pair.SourceIds()}
  {
    hide Update, OutcomeOf, Ordered;
    var item := EvidenceFromPair(name, pair);
    if item.id in EvidenceIds(ledger.evidence) {
      var i :| 0 <= i < |ledger.evidence| && EvidenceIds(ledger.evidence)[i] == item.id;
      assert ledger.evidence[i] in ledger.evidence;
    } else {
      var longer := ledger.evidence + [item];
      assert item in longer;
      assert forall e :: e in longer <==> e in ledger.evidence || e == item;
    }
  }

  // ----- synchronisation -----

  /** Synchronising a registered store succeeds, keeps the ledger exact, and leaves every valid
      pair applied. */
  lemma SynchronizeApplies(density: Density, name: ((int, int)) -> string, contract: Contract, ledger: Ledger)
    requires PositiveDensity(density) && InjectiveName(name) && ExactLedger(density, name, ledger)
    requires AllRegistered(contract, ledger.completed)
    ensures Synchronize(density, name, contract, ledger).Ok?
    ensures var after := Synchronize(density, name, contract, ledger).value;
      && ExactLedger(density, name, after)
      && after.completed == ledger.completed
      && (forall s :: s in Applied(after.evidence) <==>
            s in Applied(ledger.evidence)
            || exists k :: PairOf(contract, ledger.completed, k).Some?
                        && PairOf(contract, ledger.completed, k).value.SourceIds() == s)
      && (forall e :: e in after.evidence ==>
            e in ledger.evidence
            || exists k :: PairOf(contract, ledger.completed, k).Some?
                        && e == EvidenceFromPair(name, PairOf(contract, ledger.completed, k).value))
  {
    ScanFindsExactlyThePairs(contract, ledger.completed, Applied(ledger.evidence));
    var pairs := ValidUnappliedPairs(contract, ledger.completed, Applied(ledger.evidence)).value;
    ApplyPairsKeepsExact(density, name, ledger, pairs);
    ApplyPairsAdds(density, name, ledger, pairs);
  }

  /** A second synchronisation changes nothing. */
  lemma SynchronizeIdempotent(density: Density, name: ((int, int)) -> string, contract: Contract, ledger: Ledger)
    requires PositiveDensity(density) && InjectiveName(name) && ExactLedger(density, name, ledger)
    requires AllRegistered(contract, ledger.completed)
    ensures Synchronize(density, name, contract, ledger).Ok?
    ensures var after := Synchronize(density, name, contract, ledger).value;
      Synchronize(density, name, contract, after) == Ok(after)
  {
    SynchronizeApplies(density, name, contract, ledger);
    var after := Synchronize(density, name, contract, ledger).value;
    forall k | PairOf(contract, after.completed, k).Some?
      ensures PairOf(contract, after.completed, k).value.SourceIds() in Applied(after.evidence)
    {
    }
    NoPairs(contract, after.completed, SortBy(KeysOf(contract, after.completed), ByRepr(contract)), Applied(after.evidence));
  }

  // ----- incremental and batch synchronisation -----

  /** At most one completed experiment in each arm of each comparison. */
  ghost predicate OnePerArm(contract: Contract, completed: seq<CompletedExperiment>) {
    forall k, arm :: |ArmMembers(contract, completed, k, arm)| <= 1
  }

  /** Synchronising after every experiment. */
  function SynchronizeEach(density: Density, name: ((int, int)) -> string, contract: Contract,
                           experiments: seq<CompletedExperiment>): (r: Result<Ledger, SyncError>)
    ensures r.Ok? ==> |r.value.state.posterior| == |r.value.state.hypothesisIds|
  {
    if |experiments| == 0 then Ok(Ledger([], [], InitialState()))
    else
      var before :- SynchronizeEach(density, name, contract, experiments[..|experiments| - 1]);
      Synchronize(density, name, contract, before.(completed := before.completed + [experiments[|experiments| - 1]]))
  }

  /** Synchronising once at the end. */
  function SynchronizeOnce(density: Density, name: ((int, int)) -> string, contract: Contract,
                           experiments: seq<CompletedExperiment>): Result<Ledger, SyncError>
  {
    Synchronize(density, name, contract, Ledger(experiments, [], InitialState()))
  }

  /** The evidence of a ledger is exactly that of its valid pairs. */
  ghost predicate EvidenceOfPairs(name: ((int, int)) -> string, contract: Contract, ledger: Ledger) {
    && (forall e :: e in ledger.evidence ==>
          exists k :: PairOf(contract, ledger.completed, k).Some?
                   && e == EvidenceFromPair(name, PairOf(contract, ledger.completed, k).value))
    && (forall k :: PairOf(contract, ledger.completed, k).Some? ==>
          EvidenceFromPair(name, PairOf(contract, ledger.completed, k).value) in ledger.evidence)
  }

  /** No valid pair is ever spoilt by a later completion in one of its arms. */
  ghost predicate PairsNeverVanish(contract: Contract, experiments: seq<CompletedExperiment>) {
    forall n, k :: 0 <= n <= |experiments| && PairOf(contract, experiments[..n], k).Some? ==>
      PairOf(contract, experiments, k).Some?
  }

  lemma {:induction false} ArmMembersGrow(contract: Contract, completed: seq<CompletedExperiment>, n: nat, key: ComparisonKey, arm: string)
    requires n <= |completed|
    ensures ArmMembers(contract, completed[..n], key, arm) <= ArmMembers(contract, completed, key, arm)
  {
    if n < |completed| {
      var before := completed[..|completed| - 1];
      assert before[..n] == completed[..n];
      ArmMembersGrow(contract, before, n, key, arm);
    } else {
      assert completed[..n] == completed;
    }
  }

  /** A pair valid both earlier and at the end is the same pair, and was valid in between. */
  lemma PairPersists(contract: Contract, experiments: seq<CompletedExperiment>, m: nat, n: nat, key: ComparisonKey)
    requires m <= n <= |experiments|
    requires PairOf(contract, experiments[..m], key).Some? && PairOf(contract, experiments, key).Some?
    ensures PairOf(contract, experiments[..n], key) == PairOf(contract, experiments[..m], key) == PairOf(contract, experiments, key)
  {
    assert experiments[..n][..m] == experiments[..m];
    ArmMembersGrow(contract, experiments[..n], m, key, ADAM);
    ArmMembersGrow(contract, experiments[..n], m, key, SGD);
    ArmMembersGrow(contract, experiments, n, key, ADAM);
    ArmMembersGrow(contract, experiments, n, key, SGD);
  }

  lemma NeverVanishPrefix(contract: Contract, experiments: seq<CompletedExperiment>, n: nat)
    requires PairsNeverVanish(contract, experiments) && n <= |experiments|
    ensures PairsNeverVanish(contract, experiments[..n])
  {
    forall m, k | 0 <= m <= n && PairOf(contract, experiments[..n][..m], k).Some?
      ensures PairOf(contract, experiments[..n], k).Some?
    {
      assert experiments[..n][..m] == experiments[..m];
      PairPersists(contract, experiments, m, n, k);
    }
  }

  /** One candidate per arm and comparison is enough for no pair to vanish. */
  lemma OnePerArmNeverVanishes(contract: Contract, experiments: seq<CompletedExperiment>)
    requires OnePerArm(contract, experiments)
    ensures PairsNeverVanish(contract, experiments)
  {
    forall n, k | 0 <= n <= |experiments| && PairOf(contract, experiments[..n], k).Some?
      ensures PairOf(contract, experiments, k).Some?
    {
      ArmMembersGrow(contract, experiments, n, k, ADAM);
      ArmMembersGrow(contract, experiments, n, k, SGD);
      assert |ArmMembers(contract, experiments, k, ADAM)| <= 1 && |ArmMembers(contract, experiments, k, SGD)| <= 1;
    }
  }

  /** Different comparisons, or different records, give different source ids. */
  lemma PairOfSources(contract: Contract, completed: seq<CompletedExperiment>, a: ComparisonKey, b: ComparisonKey)
    requires DistinctRecords(completed)
    requires PairOf(contract, completed, a).Some? && PairOf(contract, completed, b).Some?
    requires PairOf(contract, completed, a).value.SourceIds() == PairOf(contract, completed, b).value.SourceIds()
    ensures a == b
  {
    var p, q := PairOf(contract, completed, a).value, PairOf(contract, completed, b).value;
    ArmMembersSound(contract, completed, a, SGD);
    ArmMembersSound(contract, completed, a, ADAM);
    ArmMembersSound(contract, completed, b, SGD);
    ArmMembersSound(contract, completed, b, ADAM);
    assert p.sgd in ArmMembers(contract, completed, a, SGD) && q.sgd in ArmMembers(contract, completed, b, SGD);
    assert q.adam in ArmMembers(contract, completed, b, ADAM);
    SameRecord(completed, p.sgd, q.sgd);
    SameRecord(completed, p.sgd, q.adam);
  }

  lemma SameRecord(completed: seq<CompletedExperiment>, x: CompletedExperiment, y: CompletedExperiment)
    requires DistinctRecords(completed) && x in completed && y in completed
    ensures x.recordId == y.recordId ==> x == y
  {
  }

  /** One synchronisation turns a ledger whose evidence covered the earlier pairs into one whose
      evidence covers them all. */
  lemma SynchronizeCovers(density: Density, name: ((int, int)) -> string, contract: Contract, ledger: Ledger)
    requires PositiveDensity(density) && InjectiveName(name) && ExactLedger(density, name, ledger)
    requires AllRegistered(contract, ledger.completed) && DistinctRecords(ledger.completed)
    requires forall e :: e in ledger.evidence ==>
               exists k :: PairOf(contract, ledger.completed, k).Some?
                        && e == EvidenceFromPair(name, PairOf(contract, ledger.completed, k).value)
    ensures Synchronize(density, name, contract, ledger).Ok?
    ensures ExactLedger(density, name, Synchronize(density, name, contract, ledger).value)
    ensures Synchronize(density, name, contract, ledger).value.completed == ledger.completed
    ensures EvidenceOfPairs(name, contract, Synchronize(density, name, contract, ledger).value)
  {
    SynchronizeApplies(density, name, contract, ledger);
    var after := Synchronize(density, name, contract, ledger).value;
    forall k | PairOf(contract, ledger.completed, k).Some?
      ensures EvidenceFromPair(name, PairOf(contract, ledger.completed, k).value) in after.evidence
    {
      var pair := PairOf(contract, ledger.completed, k).value;
      assert pair.SourceIds() in Applied(after.evidence);
      var e :| e in after.evidence && e.sources == pair.SourceIds();
      var j :| PairOf(contract, ledger.completed, j).Some?
            && e == EvidenceFromPair(name, PairOf(contract, ledger.completed, j).value);
      PairOfSources(contract, ledger.completed, j, k);
    }
  }

  lemma {:induction false} EachCovers(density: Density, name: ((int, int)) -> string, contract: Contract,
                                      experiments: seq<CompletedExperiment>)
    requires PositiveDensity(density) && InjectiveName(name)
    requires AllRegistered(contract, experiments) && DistinctRecords(experiments) && PairsNeverVanish(contract, experiments)
    ensures SynchronizeEach(density, name, contract, experiments).Ok?
    ensures var after := SynchronizeEach(density, name, contract, experiments).value;
      && after.completed == experiments
      && ExactLedger(density, name, after)
      && EvidenceOfPairs(name, contract, after)
  {
    if |experiments| == 0 {
      FreshLedgerExact(density, name, []);
    } else {
      var n := |experiments| - 1;
      var before, last := experiments[..n], experiments[n];
      assert experiments == before + [last];
      NeverVanishPrefix(contract, experiments, n);
      EachCovers(density, name, contract, before);
      var ledger := SynchronizeEach(density, name, contract, before).value;
      forall e | e in ledger.evidence
        ensures exists k :: PairOf(contract, experiments, k).Some?
                         && e == EvidenceFromPair(name, PairOf(contract, experiments, k).value)
      {
        var k :| PairOf(contract, before, k).Some? && e == EvidenceFromPair(name, PairOf(contract, before, k).value);
        PairPersists(contract, experiments, n, n, k);
      }
      SynchronizeCovers(density, name, contract, ledger.(completed := experiments));
    }
  }

  lemma DistinctSameSet<T>(a: seq<T>, b: seq<T>)
    requires Distinct(a) && Distinct(b) && forall x :: x in a <==> x in b
    ensures multiset(a) == multiset(b)
  {
    DistinctCounts(a);
    DistinctCounts(b);
    forall x ensures multiset(a)[x] == multiset(b)[x] {
      assert x in a <==> x in multiset(a);
      assert x in b <==> x in multiset(b);
    }
  }

  lemma DistinctEvidence(density: Density, name: ((int, int)) -> string, ledger: Ledger)
    requires ExactLedger(density, name, ledger)
    ensures Distinct(ledger.evidence)
  {
    forall i, j | 0 <= i < j < |ledger.evidence| ensures ledger.evidence[i] != ledger.evidence[j] {
      assert EvidenceIds(ledger.evidence)[i] != EvidenceIds(ledger.evidence)[j];
    }
  }

  lemma {:induction false} ColumnsReordered(density: Density, a: seq<Evidence>, b: seq<Evidence>)
    requires multiset(a) == multiset(b)
    ensures multiset(Columns(density, a)) == multiset(Columns(density, b))
    decreases |a|
  {
    assert |a| == |multiset(a)| == |multiset(b)| == |b|;
    if |a| > 0 {
      var n := |a| - 1;
      assert a[n] in multiset(b);
      var i :| 0 <= i < |b| && b[i] == a[n];
      assert Without(a, n) == a[..n];
      WithoutMultiset(a, n);
      WithoutMultiset(b, i);
      ColumnsReordered(density, a[..n], Without(b, i));
      ColumnsWithout(density, a, n);
      ColumnsWithout(density, b, i);
    }
  }

  lemma ColumnsWithout(density: Density, evidence: seq<Evidence>, i: nat)
    requires i < |evidence|
    ensures multiset(Columns(density, evidence))
         == multiset(Columns(density, Without(evidence, i)))
          + multiset{Likelihoods(density, OptimizerEffectHypotheses(), evidence[i].comparison)}
  {
    var columns := Columns(density, evidence);
    assert Columns(density, Without(evidence, i)) == Without(columns, i);
    WithoutMultiset(columns, i);
    assert columns[i] in columns;
  }

  /** While no pair vanishes, synchronising after every experiment and synchronising once at the
      end reach the same evidence and the same exact posterior. */
  lemma IncrementalEqualsBatch(density: Density, name: ((int, int)) -> string, contract: Contract,
                               experiments: seq<CompletedExperiment>)
    requires PositiveDensity(density) && InjectiveName(name)
    requires AllRegistered(contract, experiments) && DistinctRecords(experiments) && PairsNeverVanish(contract, experiments)
    ensures SynchronizeEach(density, name, contract, experiments).Ok?
    ensures SynchronizeOnce(density, name, contract, experiments).Ok?
    ensures var each := SynchronizeEach(density, name, contract, experiments).value;
      var once := SynchronizeOnce(density, name, contract, experiments).value;
      && multiset(each.evidence) == multiset(once.evidence)
      && each.state.posterior == once.state.posterior
      && each.state.sequence == once.state.sequence
  {
    EachCovers(density, name, contract, experiments);
    FreshLedgerExact(density, name, experiments);
    SynchronizeCovers(density, name, contract, Ledger(experiments, [], InitialState()));
    var each := SynchronizeEach(density, name, contract, experiments).value;
    var once := SynchronizeOnce(density, name, contract, experiments).value;
    DistinctEvidence(density, name, each);
    DistinctEvidence(density, name, once);
    SameEvidence(name, contract, each, once);
    SameEvidenceSamePosterior(density, name, each, once);
  }

  lemma SameEvidenceSamePosterior(density: Density, name: ((int, int)) -> string, a: Ledger, b: Ledger)
    requires ExactLedger(density, name, a) && ExactLedger(density, name, b)
    requires Distinct(a.evidence) && Distinct(b.evidence) && forall e :: e in a.evidence <==> e in b.evidence
    ensures multiset(a.evidence) == multiset(b.evidence)
    ensures a.state.posterior == b.state.posterior && a.state.sequence == b.state.sequence
  {
    DistinctSameSet(a.evidence, b.evidence);
    ColumnsReordered(density, a.evidence, b.evidence);
    JointReordered(InitialState().prior, Columns(density, a.evidence), Columns(density, b.evidence));
    assert |a.evidence| == |multiset(a.evidence)| == |multiset(b.evidence)| == |b.evidence|;
  }

  /** Synchronising after every experiment never fails and never forgets a pair it has seen. */
  lemma {:induction false} EachRemembers(density: Density, name: ((int, int)) -> string, contract: Contract,
                                         experiments: seq<CompletedExperiment>)
    requires PositiveDensity(density) && InjectiveName(name) && AllRegistered(contract, experiments)
    ensures SynchronizeEach(density, name, contract, experiments).Ok?
    ensures var each := SynchronizeEach(density, name, contract, experiments).value;
      && each.completed == experiments
      && ExactLedger(density, name, each)
      && forall n, k :: 0 <= n <= |experiments| && PairOf(contract, experiments[..n], k).Some? ==>
           PairOf(contract, experiments[..n], k).value.SourceIds() in Applied(each.evidence)
  {
    hide PairOf, Applied, EvidenceFromPair, Synchronize, ValidState, JointWeights;
    if |experiments| == 0 {
      FreshLedgerExact(density, name, []);
      assert experiments[..0] == [];
      NoPairInNothing(contract);
    } else {
      var last := |experiments| - 1;
      var before := experiments[..last];
      EachRemembers(density, name, contract, before);
      assert experiments == before + [experiments[last]];
      var ledger := SynchronizeEach(density, name, contract, before).value.(completed := experiments);
      SynchronizeApplies(density, name, contract, ledger);
      forall n, k | 0 <= n <= |experiments| && PairOf(contract, experiments[..n], k).Some?
        ensures PairOf(contract, experiments[..n], k).value.SourceIds()
             in Applied(SynchronizeEach(density, name, contract, experiments).value.evidence)
      {
        if n <= last {
          assert before[..n] == experiments[..n];
        } else {
          assert experiments[..n] == experiments;
        }
      }
    }
  }

  lemma NoPairInNothing(contract: Contract)
    ensures forall k :: PairOf(contract, [], k).None?
  {
  }

  /** The exact condition: the two ways of synchronising agree on the evidence if and only if no
      pair ever vanishes. */
  lemma IncrementalEqualsBatchIff(density: Density, name: ((int, int)) -> string, contract: Contract,
                                  experiments: seq<CompletedExperiment>)
    requires PositiveDensity(density) && InjectiveName(name)
    requires AllRegistered(contract, experiments) && DistinctRecords(experiments)
    ensures SynchronizeEach(density, name, contract, experiments).Ok?
    ensures SynchronizeOnce(density, name, contract, experiments).Ok?
    ensures multiset(SynchronizeEach(density, name, contract, experiments).value.evidence)
         == multiset(SynchronizeOnce(density, name, contract, experiments).value.evidence)
       <==> PairsNeverVanish(contract, experiments)
  {
    EachRemembers(density, name, contract, experiments);
    FreshLedgerExact(density, name, experiments);
    SynchronizeApplies(density, name, contract, Ledger(experiments, [], InitialState()));
    var each := SynchronizeEach(density, name, contract, experiments).value;
    var once := SynchronizeOnce(density, name, contract, experiments).value;
    if PairsNeverVanish(contract, experiments) {
      IncrementalEqualsBatch(density, name, contract, experiments);
    } else {
      var n, k :| 0 <= n <= |experiments| && PairOf(contract, experiments[..n], k).Some? && PairOf(contract, experiments, k).None?;
      var ids := PairOf(contract, experiments[..n], k).value.SourceIds();
      assert ids in Applied(each.evidence);
      VanishedPairNotApplied(contract, experiments, n, k);
      assert ids !in Applied(once.evidence);
      var e :| e in each.evidence && e.sources == ids;
      assert e in multiset(each.evidence) && e !in multiset(once.evidence);
    }
  }

  /** No valid pair at the end has the source records of a vanished one. */
  lemma VanishedPairNotApplied(contract: Contract, experiments: seq<CompletedExperiment>, n: nat, k: ComparisonKey)
    requires n <= |experiments| && DistinctRecords(experiments)
    requires PairOf(contract, experiments[..n], k).Some? && PairOf(contract, experiments, k).None?
    ensures forall j :: PairOf(contract, experiments, j).Some? ==>
      PairOf(contract, experiments, j).value.SourceIds() != PairOf(contract, experiments[..n], k).value.SourceIds()
  {
    var lost := PairOf(contract, experiments[..n], k).value;
    ArmMembersGrow(contract, experiments, n, k, SGD);
    ArmMembersGrow(contract, experiments, n, k, ADAM);
    ArmMembersSound(contract, experiments, k, SGD);
    ArmMembersSound(contract, experiments, k, ADAM);
    assert lost.sgd in ArmMembers(contract, experiments, k, SGD);
    forall j | PairOf(contract, experiments, j).Some?
      ensures PairOf(contract, experiments, j).value.SourceIds() != lost.SourceIds()
    {
      var kept := PairOf(contract, experiments, j).value;
      ArmMembersSound(contract, experiments, j, SGD);
      ArmMembersSound(contract, experiments, j, ADAM);
      assert kept.sgd in ArmMembers(contract, experiments, j, SGD);
      assert kept.adam in ArmMembers(contract, experiments, j, ADAM);
      SameRecord(experiments, lost.sgd, kept.sgd);
      SameRecord(experiments, lost.sgd, kept.adam);
    }
  }

  /** A second completion in one arm spoils a pair: synchronising late then misses evidence that
      synchronising early has already applied. */
  lemma SecondCompletionSpoilsPair(contract: Contract, key: ComparisonKey,
                                   sgd: CompletedExperiment, adam: CompletedExperiment, again: CompletedExperiment)
    requires InArm(contract, sgd, key, SGD) && InArm(contract, adam, key, ADAM) && InArm(contract, again, key, ADAM)
    ensures !PairsNeverVanish(contract, [sgd, adam, again])
  {
    var none: seq<CompletedExperiment> := [];
    var experiments := [sgd, adam, again];
    assert experiments[..2] == none + [sgd] + [adam] && experiments == none + [sgd] + [adam] + [again];
    AppendMember(contract, none, sgd, key, SGD);
    AppendMember(contract, none, sgd, key, ADAM);
    AppendMember(contract, none + [sgd], adam, key, SGD);
    AppendMember(contract, none + [sgd], adam, key, ADAM);
    AppendMember(contract, none + [sgd] + [adam], again, key, SGD);
    AppendMember(contract, none + [sgd] + [adam], again, key, ADAM);
    assert PairOf(contract, experiments[..2], key).Some? && PairOf(contract, experiments, key).None?;
  }

  lemma SameEvidence(name: ((int, int)) -> string, contract: Contract, a: Ledger, b: Ledger)
    requires EvidenceOfPairs(name, contract, a) && EvidenceOfPairs(name, contract, b) && a.completed == b.completed
    ensures forall e :: e in a.evidence <==> e in b.evidence
  {
  }
}
