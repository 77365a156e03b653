/** What evidence is and does, in the observations, records and hypotheses alone: which two experiments a pair
    is, what is observed of them, and how an update moves the belief. */
module EvidenceMeaning {
  import opened Wrappers
  import opened RealSums
  import opened Information
  import opened BayesMeaning
  import opened Ordering
  import opened Rounding
  import opened EvidenceEligibility
  import opened Reasoning
  import opened OptimizerEffect
  import opened BeliefModels

  // ----- the two experiments of a pair -----

  predicate UniqueDesigns(contract: Contract) {
    forall i, j :: 0 <= i < j < |contract.designs| ==> contract.designs[i].candidateId != contract.designs[j].candidateId
  }

  /** The contract registers the experiment's candidate in this arm of this optimizer comparison. */
  predicate BelongsTo(contract: Contract, e: CompletedExperiment, key: ComparisonKey, arm: string) {
    && (arm == ADAM || arm == SGD)
    && key.family == OPTIMIZER_EFFECT_FAMILY && key.variable == OPTIMIZER_INTERVENTION
    && Design(e.candidate.id, key.family, key.group, key.controls, key.variable, arm) in contract.designs
  }

  lemma {:induction false} FindUnique(designs: seq<Design>, d: Design)
    requires forall i, j :: 0 <= i < j < |designs| ==> designs[i].candidateId != designs[j].candidateId
    requires d in designs
    ensures FindDesign(designs, d.candidateId) == Some(d)
  {
    if designs[0] != d {
      assert designs == [designs[0]] + designs[1..];
      assert designs[0].candidateId != d.candidateId by {
        var k :| 0 <= k < |designs| && designs[k] == d;
      }
      FindUnique(designs[1..], d);
    }
  }

  lemma InArmIffBelongs(contract: Contract, e: CompletedExperiment, key: ComparisonKey, arm: string)
    requires UniqueDesigns(contract)
    ensures InArm(contract, e, key, arm) <==> BelongsTo(contract, e, key, arm)
  {
    if BelongsTo(contract, e, key, arm) {
      FindUnique(contract.designs, Design(e.candidate.id, key.family, key.group, key.controls, key.variable, arm));
    }
  }

  /** Exactly one completion belongs to this arm, and it is `e`. */
  ghost predicate TheOne(contract: Contract, completed: seq<CompletedExperiment>, key: ComparisonKey, arm: string,
                         e: CompletedExperiment)
  {
    exists i :: 0 <= i < |completed| && completed[i] == e && OnlyAt(contract, completed, key, arm, i)
  }

  predicate OnlyAt(contract: Contract, completed: seq<CompletedExperiment>, key: ComparisonKey, arm: string, i: int) {
    forall j :: 0 <= j < |completed| ==> (BelongsTo(contract, completed[j], key, arm) <==> j == i)
  }

  predicate NoneIn(contract: Contract, completed: seq<CompletedExperiment>, key: ComparisonKey, arm: string) {
    forall j :: 0 <= j < |completed| ==> !BelongsTo(contract, completed[j], key, arm)
  }

  lemma {:induction false} NoMembers(contract: Contract, completed: seq<CompletedExperiment>, key: ComparisonKey, arm: string)
    requires UniqueDesigns(contract)
    ensures ArmMembers(contract, completed, key, arm) == [] <==> NoneIn(contract, completed, key, arm)
  {
    hide BelongsTo, InArm;
    if |completed| > 0 {
      var n := |completed| - 1;
      NoMembers(contract, completed[..n], key, arm);
      InArmIffBelongs(contract, completed[n], key, arm);
      forall j | 0 <= j < n ensures completed[..n][j] == completed[j] {
      }
    }
  }

  lemma {:induction false} OneMember(contract: Contract, completed: seq<CompletedExperiment>, key: ComparisonKey, arm: string,
                                     e: CompletedExperiment)
    requires UniqueDesigns(contract)
    ensures ArmMembers(contract, completed, key, arm) == [e] <==> TheOne(contract, completed, key, arm, e)
  {
    hide BelongsTo, InArm;
    if |completed| > 0 {
      var n := |completed| - 1;
      var before, last := completed[..n], completed[n];
      OneMember(contract, before, key, arm, e);
      NoMembers(contract, before, key, arm);
      InArmIffBelongs(contract, last, key, arm);
      if InArm(contract, last, key, arm) {
        LastOfArm(contract, completed, key, arm, e);
        var rest := ArmMembers(contract, before, key, arm);
        assert ArmMembers(contract, completed, key, arm) == rest + [last];
        assert rest == [] ==> rest + [last] == [last];
        assert rest + [last] == [e] ==> |rest + [last]| == 1;
      } else {
        NotLastOfArm(contract, completed, key, arm, e);
      }
    }
  }

  lemma LastOfArm(contract: Contract, completed: seq<CompletedExperiment>, key: ComparisonKey, arm: string, e: CompletedExperiment)
    requires |completed| > 0 && BelongsTo(contract, completed[|completed| - 1], key, arm)
    ensures TheOne(contract, completed, key, arm, e) <==>
      completed[|completed| - 1] == e && NoneIn(contract, completed[..|completed| - 1], key, arm)
  {
    hide BelongsTo;
    var n := |completed| - 1;
    if TheOne(contract, completed, key, arm, e) {
      var i :| 0 <= i < |completed| && completed[i] == e && OnlyAt(contract, completed, key, arm, i);
      assert i == n;
    }
    forall j | 0 <= j < n ensures BelongsTo(contract, completed[j], key, arm) == BelongsTo(contract, completed[..n][j], key, arm) {
    }
    if completed[n] == e && NoneIn(contract, completed[..n], key, arm) {
      assert OnlyAt(contract, completed, key, arm, n);
    }
  }

  lemma NotLastOfArm(contract: Contract, completed: seq<CompletedExperiment>, key: ComparisonKey, arm: string, e: CompletedExperiment)
    requires |completed| > 0 && !BelongsTo(contract, completed[|completed| - 1], key, arm)
    ensures TheOne(contract, completed, key, arm, e) <==> TheOne(contract, completed[..|completed| - 1], key, arm, e)
  {
    hide BelongsTo;
    var n := |completed| - 1;
    forall i ensures 0 <= i < n ==> (OnlyAt(contract, completed, key, arm, i) <==> OnlyAt(contract, completed[..n], key, arm, i)) {
      forall j | 0 <= j < n ensures completed[..n][j] == completed[j] {
      }
    }
  }

  /** A comparison has a pair exactly when each of its two arms has one completion, and the pair is those two. */
  lemma PairIsTheTwo(contract: Contract, completed: seq<CompletedExperiment>, key: ComparisonKey, pair: MatchedPair)
    requires UniqueDesigns(contract)
    ensures PairOf(contract, completed, key) == Some(pair) <==>
      && pair.group == key.group
      && TheOne(contract, completed, key, SGD, pair.sgd)
      && TheOne(contract, completed, key, ADAM, pair.adam)
  {
    hide TheOne;
    OneMember(contract, completed, key, SGD, pair.sgd);
    OneMember(contract, completed, key, ADAM, pair.adam);
  }

  /** The pairs are those of these comparisons, in the order their keys sort, no comparison twice. */
  ghost predicate InKeyOrder(contract: Contract, completed: seq<CompletedExperiment>, keys: seq<ComparisonKey>, pairs: seq<MatchedPair>) {
    && |keys| == |pairs| && Distinct(keys)
    && (forall i :: 0 <= i < |pairs| ==> PairOf(contract, completed, keys[i]) == Some(pairs[i]))
    && (forall i, j :: 0 <= i < j < |keys| ==> !StringLess(contract.repr(keys[j]), contract.repr(keys[i])))
  }

  /** The scan lists the pairs it finds in key order. */
  lemma ScanInKeyOrder(contract: Contract, completed: seq<CompletedExperiment>, applied: set<(int, int)>)
    returns (keys: seq<ComparisonKey>)
    requires AllRegistered(contract, completed)
    ensures InKeyOrder(contract, completed, keys, ValidUnappliedPairs(contract, completed, applied).value)
  {
    var all := SortBy(KeysOf(contract, completed), ByRepr(contract));
    KeysDistinct(contract, completed);
    SortDistinct(KeysOf(contract, completed), ByRepr(contract));
    StringOrder();
    assert StrictWeakOrder(ByRepr(contract));
    SortAscending(KeysOf(contract, completed), ByRepr(contract));
    keys := KeptKeys(contract, completed, all, applied);
  }

  /** Leaving out the keys without an unapplied pair keeps the order of the others. */
  lemma {:induction false} KeptKeys(contract: Contract, completed: seq<CompletedExperiment>, all: seq<ComparisonKey>, applied: set<(int, int)>)
    returns (keys: seq<ComparisonKey>)
    requires Distinct(all) && Ascending(all, ByRepr(contract))
    ensures InKeyOrder(contract, completed, keys, PairsAmong(contract, completed, all, applied))
    ensures forall k :: k in keys ==> k in all
  {
    hide PairOf, StringLess;
    if |all| == 0 {
      keys := [];
    } else {
      var n := |all| - 1;
      var before := KeptKeys(contract, completed, all[..n], applied);
      var pair := PairOf(contract, completed, all[n]);
      if pair.Some? && pair.value.SourceIds() !in applied {
        keys := before + [all[n]];
        forall i | 0 <= i < n ensures all[i] != all[n] && !StringLess(contract.repr(all[n]), contract.repr(all[i])) {
          assert !ByRepr(contract)(all[n], all[i]);
        }
        forall i | 0 <= i < |before| ensures before[i] != all[n] && !StringLess(contract.repr(all[n]), contract.repr(before[i])) {
          assert before[i] in all[..n];
        }
      } else {
        keys := before;
      }
    }
  }

  // ----- the evidence of a pair -----

  /** The two records, smaller identifier first. */
  predicate SourcesOfBoth(sources: (int, int), a: CompletedExperiment, b: CompletedExperiment) {
    && sources.0 <= sources.1
    && (sources == (a.recordId, b.recordId) || sources == (b.recordId, a.recordId))
  }

  /** Adam's observation less SGD's, rounded, and the outcome by the practical threshold of 0.01. */
  ghost predicate Compares(e: Evidence, sgd: CompletedExperiment, adam: CompletedExperiment) {
    && RoundsTo(adam.observed - sgd.observed, e.comparison)
    && -ROUNDING_UNIT / 2.0 <= e.comparison - (adam.observed - sgd.observed) <= ROUNDING_UNIT / 2.0
    && (e.outcome == AdamWin <==> e.comparison > 0.01)
    && (e.outcome == SgdWin <==> e.comparison < -0.01)
    && (e.outcome == PracticalTie <==> -0.01 <= e.comparison <= 0.01)
  }

  lemma EvidenceCompares(name: ((int, int)) -> string, pair: MatchedPair)
    ensures var e := EvidenceFromPair(name, pair);
      && Compares(e, pair.sgd, pair.adam)
      && SourcesOfBoth(e.sources, pair.sgd, pair.adam) && e.id == name(e.sources) && e.group == pair.group
      && (pair.adam.observed >= pair.sgd.observed ==> e.comparison >= 0.0)
      && (pair.adam.observed <= pair.sgd.observed ==> e.comparison <= 0.0)
  {
    var d := pair.adam.observed - pair.sgd.observed;
    hide Round12, RoundsTo;
    RoundsToIff(d, Round12(d));
    RoundNear(d);
    RoundSign(d);
  }

  /** Exchanging the arms' observations negates the comparison and exchanges the winners. */
  lemma MirroredPair(name: ((int, int)) -> string, pair: MatchedPair)
    ensures var e, mirrored := EvidenceFromPair(name, pair), EvidenceFromPair(name, pair.(sgd := pair.adam, adam := pair.sgd));
      && mirrored.comparison == -e.comparison && mirrored.sources == e.sources
      && (mirrored.outcome == AdamWin <==> e.outcome == SgdWin)
      && (mirrored.outcome == PracticalTie <==> e.outcome == PracticalTie)
  {
    RoundMirrored(pair.adam.observed - pair.sgd.observed);
  }

  /** Evidence of the comparison `key`: of the one completion in each of its arms. */
  ghost predicate EvidenceOfMatch(name: ((int, int)) -> string, contract: Contract, completed: seq<CompletedExperiment>,
                                  key: ComparisonKey, e: Evidence)
  {
    exists sgd, adam ::
      && TheOne(contract, completed, key, SGD, sgd) && TheOne(contract, completed, key, ADAM, adam)
      && Compares(e, sgd, adam)
      && SourcesOfBoth(e.sources, sgd, adam) && e.id == name(e.sources) && e.group == key.group
  }

  lemma EvidenceDetermined(name: ((int, int)) -> string, contract: Contract, completed: seq<CompletedExperiment>,
                           key: ComparisonKey, e: Evidence)
    requires UniqueDesigns(contract)
    ensures EvidenceOfMatch(name, contract, completed, key, e) <==>
      && PairOf(contract, completed, key).Some?
      && e == EvidenceFromPair(name, PairOf(contract, completed, key).value)
  {
    hide TheOne, PairOf, Compares;
    if PairOf(contract, completed, key).Some? {
      PairIsTheTwo(contract, completed, key, PairOf(contract, completed, key).value);
      EvidenceCompares(name, PairOf(contract, completed, key).value);
    }
    if EvidenceOfMatch(name, contract, completed, key, e) {
      var sgd, adam :| TheOne(contract, completed, key, SGD, sgd) && TheOne(contract, completed, key, ADAM, adam)
        && Compares(e, sgd, adam)
        && SourcesOfBoth(e.sources, sgd, adam) && e.id == name(e.sources) && e.group == key.group;
      PairIsTheTwo(contract, completed, key, MatchedPair(key.group, sgd, adam));
      ComparesOnce(name, MatchedPair(key.group, sgd, adam), e);
    }
  }

  lemma ComparesOnce(name: ((int, int)) -> string, pair: MatchedPair, e: Evidence)
    requires Compares(e, pair.sgd, pair.adam)
    requires SourcesOfBoth(e.sources, pair.sgd, pair.adam) && e.id == name(e.sources) && e.group == pair.group
    ensures e == EvidenceFromPair(name, pair)
  {
    RoundsToIff(pair.adam.observed - pair.sgd.observed, e.comparison);
  }

  // ----- one update -----

  /** Bayes' rule for the hypothesis `h` at place `i` of the state: its share of the new belief is the old one
      times the density of the observation, over the total of all such products. */
  lemma UpdateIsBayes(density: Density, hypotheses: seq<Hypothesis>, state: BeliefState, evidence: Evidence, i: nat, h: Hypothesis)
    requires |state.posterior| == |state.hypothesisIds| && Update(density, hypotheses, state, evidence).Ok?
    requires i < |state.hypothesisIds| && h in hypotheses && h.id == state.hypothesisIds[i]
    requires forall g :: g in hypotheses && g.id == h.id ==> g == h
    ensures var u := Update(density, hypotheses, state, evidence).value;
      && |u.likelihoods| == |u.weights| == |u.after.posterior| == |state.posterior|
      && u.likelihoods[i] == density(evidence.comparison, h.mean, h.sigma)
      && u.weights[i] == state.posterior[i] * density(evidence.comparison, h.mean, h.sigma)
      && u.normalization == Sum(u.weights) > 0.0
      && u.after.posterior[i] * u.normalization == u.weights[i]
  {
    hide Update, Ordered, Likelihoods, Times, Normalise, HypothesisIds, Sum;
    UpdateParts(density, hypotheses, state, evidence);
    AtItsPlace(hypotheses, state.hypothesisIds, i, h);
    LikelihoodAt(density, Ordered(hypotheses), evidence.comparison, i);
    var u := Update(density, hypotheses, state, evidence).value;
    TimesAt(state.posterior, u.likelihoods, i);
    NormaliseTimes(u.weights, i);
  }

  lemma UpdateParts(density: Density, hypotheses: seq<Hypothesis>, state: BeliefState, evidence: Evidence)
    requires |state.posterior| == |state.hypothesisIds| && Update(density, hypotheses, state, evidence).Ok?
    ensures HypothesisIds(Ordered(hypotheses)) == state.hypothesisIds
    ensures var u := Update(density, hypotheses, state, evidence).value;
      && u.likelihoods == Likelihoods(density, Ordered(hypotheses), evidence.comparison)
      && |u.likelihoods| == |state.posterior| && u.weights == Times(state.posterior, u.likelihoods)
      && u.normalization == Sum(u.weights) > 0.0 && u.after.posterior == Normalise(u.weights)
  {
    hide Ordered, Sum, Normalise, Times, AllNonNegative;
  }

  lemma AtItsPlace(hypotheses: seq<Hypothesis>, ids: seq<string>, i: nat, h: Hypothesis)
    requires HypothesisIds(Ordered(hypotheses)) == ids && i < |ids| && h in hypotheses && h.id == ids[i]
    requires forall g :: g in hypotheses && g.id == h.id ==> g == h
    ensures |Ordered(hypotheses)| == |ids| && Ordered(hypotheses)[i] == h
  {
    var ordered := Ordered(hypotheses);
    SortMembers(hypotheses, IdLess);
    assert HypothesisIds(ordered)[i] == ordered[i].id;
    assert ordered[i] in ordered;
    assert ordered[i] in hypotheses;
  }

  lemma LikelihoodAt(density: Density, hypotheses: seq<Hypothesis>, x: real, i: nat)
    requires i < |hypotheses|
    ensures |Likelihoods(density, hypotheses, x)| == |hypotheses|
    ensures Likelihoods(density, hypotheses, x)[i] == density(x, hypotheses[i].mean, hypotheses[i].sigma)
  {
  }

  lemma NormaliseTimes(w: seq<real>, i: nat)
    requires i < |w| && Sum(w) > 0.0
    ensures Normalise(w)[i] * Sum(w) == w[i]
  {
    hide Sum;
    TimesInverse(w[i], Sum(w));
  }

  /** The optimizer hypotheses at their places in a belief: Adam better by 0.10, no difference, SGD better by 0.10. */
  predicate OverTheThree(state: BeliefState) {
    && |state.posterior| == |state.hypothesisIds| == 3
    && state.hypothesisIds[0] == ADAM_ADVANTAGE_ID
    && state.hypothesisIds[1] == NO_ADVANTAGE_ID
    && state.hypothesisIds[2] == SGD_ADVANTAGE_ID
  }

  function MeanAt(i: nat): real
    requires i < 3
  {
    if i == 0 then 0.10 else if i == 1 then 0.0 else -0.10
  }

  lemma UpdateOfTheThree(density: Density, sigma: real, state: BeliefState, evidence: Evidence, i: nat)
    requires OverTheThree(state) && Update(density, HypothesesWithSigma(sigma), state, evidence).Ok? && i < 3
    ensures var u := Update(density, HypothesesWithSigma(sigma), state, evidence).value;
      && u.normalization > 0.0
      && u.after.posterior[i] * u.normalization == state.posterior[i] * density(evidence.comparison, MeanAt(i), sigma)
  {
    hide StringLess, Update;
    var h := HypothesesWithSigma(sigma);
    IdsAscend();
    IdsDiffer();
    UpdateIsBayes(density, h, state, evidence, i, h[i]);
  }

  lemma IdsDiffer()
    ensures ADAM_ADVANTAGE_ID != NO_ADVANTAGE_ID && NO_ADVANTAGE_ID != SGD_ADVANTAGE_ID && ADAM_ADVANTAGE_ID != SGD_ADVANTAGE_ID
  {
    var n := |HYPOTHESIS_PREFIX|;
    assert ADAM_ADVANTAGE_ID[n] == 'a' && NO_ADVANTAGE_ID[n] == 'n' && SGD_ADVANTAGE_ID[n] == 's';
  }

  /** A density no larger further from its mean. */
  ghost predicate NeverRises(density: Density, sigma: real) {
    forall x, a, b :: Size(x - a) <= Size(x - b) ==> density(x, b, sigma) <= density(x, a, sigma)
  }

  /** And smaller whenever it is further from it. */
  ghost predicate Falls(density: Density, sigma: real) {
    && NeverRises(density, sigma)
    && (forall x, a, b :: Size(x - a) < Size(x - b) ==> density(x, b, sigma) < density(x, a, sigma))
    && (forall x, a :: density(x, a, sigma) > 0.0)
  }

  /** The odds of the hypothesis at `i` against the one at `j` did not fall. */
  predicate OddsKept(before: seq<real>, after: seq<real>, i: nat, j: nat)
    requires i < |before| == |after| && j < |before|
  {
    after[i] * before[j] >= before[i] * after[j]
  }

  predicate OddsRaised(before: seq<real>, after: seq<real>, i: nat, j: nat)
    requires i < |before| == |after| && j < |before|
  {
    after[i] * before[j] > before[i] * after[j]
  }

  /** From two products that share a positive total, the odds move with the likelihoods. */
  lemma OddsFollow(p: real, q: real, l: real, k: real, x: real, y: real, total: real)
    requires p >= 0.0 && q >= 0.0 && total > 0.0 && x * total == p * l && y * total == q * k
    ensures l >= k ==> x * q >= p * y
    ensures p > 0.0 && q > 0.0 ==> (x * q > p * y <==> l > k)
  {
    ProductSigns(p, q);
    Regroup(p, q, l, x, total);
    Regroup(q, p, k, y, total);
    var a, b, both := x * q, p * y, p * q;
    assert a * total == both * l && b * total == both * k;
    OrderCarries(a, b, both, l, k, total);
  }

  lemma Regroup(p: real, q: real, l: real, x: real, total: real)
    requires x * total == p * l
    ensures x * q * total == p * q * l
  {
    assert x * q * total == (x * total) * q;
    assert p * q * l == (p * l) * q;
  }

  lemma OrderCarries(a: real, b: real, both: real, l: real, k: real, total: real)
    requires both >= 0.0 && total > 0.0 && a * total == both * l && b * total == both * k
    ensures l >= k ==> a >= b
    ensures both > 0.0 ==> (a > b <==> l > k)
  {
    var m, n := a * total, b * total;
    CompareTimes(both, l, k, m, n);
    CompareTimes(total, a, b, m, n);
  }

  lemma ProductSigns(p: real, q: real)
    requires p >= 0.0 && q >= 0.0
    ensures p * q >= 0.0
    ensures p > 0.0 && q > 0.0 ==> p * q > 0.0
  {
  }

  lemma CompareTimes(k: real, x: real, y: real, kx: real, ky: real)
    requires k >= 0.0 && kx == k * x && ky == k * y
    ensures x >= y ==> kx >= ky
    ensures k > 0.0 ==> (kx > ky <==> x > y) && (kx >= ky <==> x >= y)
  {
    var d := x - y;
    assert kx - ky == k * d;
    if d > 0.0 {
      ProductSigns(k, d);
    } else {
      ProductSigns(k, -d);
      assert k * -d == ky - kx;
    }
  }

  /** The new shares at two places are the old ones times the two densities, up to one positive total. */
  ghost predicate MovedTogether(density: Density, sigma: real, x: real, before: seq<real>, after: seq<real>, total: real) {
    && |before| == |after| == 3 && total > 0.0
    && (forall i :: 0 <= i < 3 ==> after[i] * total == before[i] * density(x, MeanAt(i), sigma))
  }

  lemma OddsFollowDensities(density: Density, sigma: real, x: real, before: seq<real>, after: seq<real>, total: real, i: nat, j: nat)
    requires MovedTogether(density, sigma, x, before, after, total) && AllNonNegative(before) && i < 3 && j < 3
    ensures density(x, MeanAt(i), sigma) >= density(x, MeanAt(j), sigma) ==> OddsKept(before, after, i, j)
    ensures before[i] > 0.0 && before[j] > 0.0 ==>
      (OddsRaised(before, after, i, j) <==> density(x, MeanAt(i), sigma) > density(x, MeanAt(j), sigma))
  {
    var l, k := density(x, MeanAt(i), sigma), density(x, MeanAt(j), sigma);
    assert after[i] * total == before[i] * l && after[j] * total == before[j] * k;
    var p, q, y, z := before[i], before[j], after[i], after[j];
    hide *;
    OddsFollow(p, q, l, k, y, z, total);
  }

  lemma NearerKept(density: Density, sigma: real, x: real, before: seq<real>, after: seq<real>, total: real, i: nat, j: nat)
    requires MovedTogether(density, sigma, x, before, after, total) && AllNonNegative(before) && i < 3 && j < 3
    requires NeverRises(density, sigma) && Size(x - MeanAt(i)) <= Size(x - MeanAt(j))
    ensures OddsKept(before, after, i, j)
  {
    hide MovedTogether, Size, OddsKept;
    OddsFollowDensities(density, sigma, x, before, after, total, i, j);
  }

  lemma RaisedIffNearer(density: Density, sigma: real, x: real, before: seq<real>, after: seq<real>, total: real, i: nat, j: nat)
    requires MovedTogether(density, sigma, x, before, after, total) && i < j < 3
    requires Falls(density, sigma) && before[i] > 0.0 && before[j] > 0.0 && AllNonNegative(before)
    ensures OddsRaised(before, after, i, j) <==> x > (MeanAt(i) + MeanAt(j)) / 2.0
  {
    hide MovedTogether, OddsRaised, OddsKept;
    OddsFollowDensities(density, sigma, x, before, after, total, i, j);
    DistanceOrder(x, i, j);
    hide MeanAt, Size;
    var a, b := MeanAt(i), MeanAt(j);
    if Size(x - a) < Size(x - b) {
      assert density(x, b, sigma) < density(x, a, sigma);
    } else {
      assert density(x, a, sigma) <= density(x, b, sigma);
    }
  }

  lemma UpdateMovesTogether(density: Density, sigma: real, state: BeliefState, evidence: Evidence)
    requires OverTheThree(state) && Update(density, HypothesesWithSigma(sigma), state, evidence).Ok?
    ensures var u := Update(density, HypothesesWithSigma(sigma), state, evidence).value;
      MovedTogether(density, sigma, evidence.comparison, state.posterior, u.after.posterior, u.normalization)
  {
    forall i | 0 <= i < 3
      ensures var u := Update(density, HypothesesWithSigma(sigma), state, evidence).value;
        && u.normalization > 0.0
        && u.after.posterior[i] * u.normalization == state.posterior[i] * density(evidence.comparison, MeanAt(i), sigma)
    {
      UpdateOfTheThree(density, sigma, state, evidence, i);
    }
  }

  /** Which of two means is nearer, by their midpoint. */
  lemma DistanceOrder(x: real, i: nat, j: nat)
    requires i < 3 && j < 3
    ensures i < j ==> (Size(x - MeanAt(i)) <= Size(x - MeanAt(j)) <==> x >= (MeanAt(i) + MeanAt(j)) / 2.0)
    ensures i < j ==> (Size(x - MeanAt(i)) < Size(x - MeanAt(j)) <==> x > (MeanAt(i) + MeanAt(j)) / 2.0)
    ensures j < i ==> (Size(x - MeanAt(i)) <= Size(x - MeanAt(j)) <==> x <= (MeanAt(i) + MeanAt(j)) / 2.0)
  {
  }

  /** The belief follows the evidence. A comparison in favour of Adam never lowers the odds of adam-advantage
      against sgd-advantage, nor one in favour of SGD those of sgd-advantage. */
  lemma BeliefFollowsEvidence(density: Density, sigma: real, state: BeliefState, evidence: Evidence)
    requires OverTheThree(state) && AllNonNegative(state.posterior) && NeverRises(density, sigma)
    requires Update(density, HypothesesWithSigma(sigma), state, evidence).Ok?
    ensures var before, after := state.posterior, Update(density, HypothesesWithSigma(sigma), state, evidence).value.after.posterior;
      && |after| == 3
      && (evidence.comparison >= 0.0 ==> OddsKept(before, after, 0, 2))
      && (evidence.comparison <= 0.0 ==> OddsKept(before, after, 2, 0))
  {
    hide Update, NeverRises, OddsKept, HypothesesWithSigma;
    var x := evidence.comparison;
    var u := Update(density, HypothesesWithSigma(sigma), state, evidence).value;
    UpdateMovesTogether(density, sigma, state, evidence);
    DistanceOrder(x, 0, 2);
    DistanceOrder(x, 2, 0);
    if x >= 0.0 {
      NearerKept(density, sigma, x, state.posterior, u.after.posterior, u.normalization, 0, 2);
    }
    if x <= 0.0 {
      NearerKept(density, sigma, x, state.posterior, u.after.posterior, u.normalization, 2, 0);
    }
  }

  /** With a density that falls strictly, the odds of adam-advantage rise against sgd-advantage exactly on a
      positive comparison, against no advantage exactly above 0.05, and those of no advantage against
      sgd-advantage exactly above -0.05. */
  lemma OddsRiseExactly(density: Density, sigma: real, state: BeliefState, evidence: Evidence)
    requires OverTheThree(state) && Falls(density, sigma)
    requires state.posterior[0] > 0.0 && state.posterior[1] > 0.0 && state.posterior[2] > 0.0
    requires Update(density, HypothesesWithSigma(sigma), state, evidence).Ok?
    ensures var before, after := state.posterior, Update(density, HypothesesWithSigma(sigma), state, evidence).value.after.posterior;
      && |after| == 3
      && (OddsRaised(before, after, 0, 2) <==> evidence.comparison > 0.0)
      && (OddsRaised(before, after, 0, 1) <==> evidence.comparison > 0.05)
      && (OddsRaised(before, after, 1, 2) <==> evidence.comparison > -0.05)
  {
    hide Update, Falls, OddsRaised, HypothesesWithSigma;
    var x := evidence.comparison;
    var u := Update(density, HypothesesWithSigma(sigma), state, evidence).value;
    UpdateMovesTogether(density, sigma, state, evidence);
    RaisedIffNearer(density, sigma, x, state.posterior, u.after.posterior, u.normalization, 0, 2);
    RaisedIffNearer(density, sigma, x, state.posterior, u.after.posterior, u.normalization, 0, 1);
    RaisedIffNearer(density, sigma, x, state.posterior, u.after.posterior, u.normalization, 1, 2);
  }

  // ----- the store and the belief models -----

  lemma InitialBelief()
    ensures OverTheThree(InitialState()) && InitialState().prior == InitialState().posterior
    ensures forall i :: 0 <= i < 3 ==> InitialState().posterior[i] == 1.0 / 3.0
    ensures InitialState().evidenceIds == [] && InitialState().sequence == 0
  {
    hide StringLess;
  }

  lemma OptimizerStateOverThree(state: BeliefState)
    requires OptimizerState(state)
    ensures OverTheThree(state) && AllNonNegative(state.posterior)
  {
    assert state.hypothesisIds == OptimizerIds();
  }

  /** Applying a pair whose Adam arm is ahead never lowers the store's odds of adam-advantage against
      sgd-advantage; one whose SGD arm is ahead never raises them. */
  lemma PairMovesStore(density: Density, name: ((int, int)) -> string, ledger: Ledger, pair: MatchedPair)
    requires OverTheThree(ledger.state) && AllNonNegative(ledger.state.posterior) && NeverRises(density, 0.05)
    requires ApplyPair(density, name, ledger, pair).Ok? && name(pair.SourceIds()) !in EvidenceIds(ledger.evidence)
    ensures var before, after := ledger.state.posterior, ApplyPair(density, name, ledger, pair).value.state.posterior;
      && |after| == 3
      && (pair.adam.observed >= pair.sgd.observed ==> OddsKept(before, after, 0, 2))
      && (pair.adam.observed <= pair.sgd.observed ==> OddsKept(before, after, 2, 0))
  {
    EvidenceCompares(name, pair);
    hide Update, NeverRises, OddsKept, Round12;
    BeliefFollowsEvidence(density, 0.05, ledger.state, EvidenceFromPair(name, pair));
  }

  /** So does every update of either belief model, with the sigma it has chosen. */
  lemma PairMovesModel(laws: BeliefLaws, model: Model, name: ((int, int)) -> string, state: BeliefState, pair: MatchedPair,
                       history: seq<MatchedEffect>, reports: seq<Report>)
    requires OptimizerState(state) && UpdateModel(laws, model, state, EvidenceFromPair(name, pair), history, reports).Ok?
    requires NeverRises(laws.density, UpdateModel(laws, model, state, EvidenceFromPair(name, pair), history, reports).value.estimate.sigma)
    ensures var u := UpdateModel(laws, model, state, EvidenceFromPair(name, pair), history, reports).value;
      && |u.bayes.after.posterior| == 3
      && (pair.adam.observed >= pair.sgd.observed ==> OddsKept(state.posterior, u.bayes.after.posterior, 0, 2))
      && (pair.adam.observed <= pair.sgd.observed ==> OddsKept(state.posterior, u.bayes.after.posterior, 2, 0))
  {
    EvidenceCompares(name, pair);
    OptimizerStateOverThree(state);
    hide Update, NeverRises, OddsKept, Round12, SelectSigma, Diagnose, OverTheThree;
    var u := UpdateModel(laws, model, state, EvidenceFromPair(name, pair), history, reports).value;
    BeliefFollowsEvidence(laws.density, u.estimate.sigma, state, EvidenceFromPair(name, pair));
  }

  /** What a hypothesis of this mean predicts of all the evidence. */
  function DensityProduct(density: Density, evidence: seq<Evidence>, mean: real): real {
    if |evidence| == 0 then 1.0
    else DensityProduct(density, evidence[..|evidence| - 1], mean) * density(evidence[|evidence| - 1].comparison, mean, 0.05)
  }

  lemma {:induction false} JointIsProduct(density: Density, evidence: seq<Evidence>, i: nat)
    requires i < 3
    ensures JointWeights(InitialState().prior, Columns(density, evidence))[i]
         == 1.0 / 3.0 * DensityProduct(density, evidence, MeanAt(i))
  {
    InitialBelief();
    hide JointWeights, DensityProduct, InitialState, Times, HypothesesWithSigma, StringLess;
    var p, columns := InitialState().prior, Columns(density, evidence);
    if |evidence| == 0 {
      NothingSeen(density, p, i);
    } else {
      var n := |evidence| - 1;
      JointIsProduct(density, evidence[..n], i);
      assert columns[..n] == Columns(density, evidence[..n]);
      ColumnAt(density, evidence, i);
      JointLast(p, columns);
      TimesAt(JointWeights(p, columns[..n]), columns[n], i);
      ProductLast(density, evidence, MeanAt(i));
      MulAssociative(1.0 / 3.0, DensityProduct(density, evidence[..n], MeanAt(i)), columns[n][i]);
    }
  }

  lemma NothingSeen(density: Density, p: seq<real>, i: nat)
    requires i < |p| == 3
    ensures JointWeights(p, Columns(density, [])) == p
    ensures DensityProduct(density, [], MeanAt(i)) == 1.0
  {
  }

  lemma ColumnAt(density: Density, evidence: seq<Evidence>, i: nat)
    requires |evidence| > 0 && i < 3
    ensures Columns(density, evidence)[|evidence| - 1][i] == density(evidence[|evidence| - 1].comparison, MeanAt(i), 0.05)
  {
  }

  lemma JointLast(p: seq<real>, columns: seq<seq<real>>)
    requires Rectangular(columns, |p|) && |columns| > 0
    ensures Rectangular(columns[..|columns| - 1], |p|)
    ensures JointWeights(p, columns) == Times(JointWeights(p, columns[..|columns| - 1]), columns[|columns| - 1])
  {
    hide Times;
  }

  lemma TimesAt(w: seq<real>, l: seq<real>, i: nat)
    requires i < |w| == |l|
    ensures Times(w, l)[i] == w[i] * l[i]
  {
  }

  lemma ProductLast(density: Density, evidence: seq<Evidence>, mean: real)
    requires |evidence| > 0
    ensures var n := |evidence| - 1;
      DensityProduct(density, evidence, mean)
        == DensityProduct(density, evidence[..n], mean) * density(evidence[n].comparison, mean, 0.05)
  {
  }

  /** The belief of a ledger is in proportion to what the three hypotheses predict of its evidence. */
  lemma LedgerInProportion(density: Density, name: ((int, int)) -> string, ledger: Ledger) returns (k: real)
    requires ExactLedger(density, name, ledger)
    ensures k > 0.0 && OverTheThree(ledger.state)
    ensures forall i :: 0 <= i < 3 ==> k * ledger.state.posterior[i] == DensityProduct(density, ledger.evidence, MeanAt(i))
  {
    InitialBelief();
    var joint := JointWeights(InitialState().prior, Columns(density, ledger.evidence));
    k := 3.0 * Sum(joint);
    assert OverTheThree(ledger.state);
    forall i | 0 <= i < 3 ensures k * ledger.state.posterior[i] == DensityProduct(density, ledger.evidence, MeanAt(i)) {
      JointIsProduct(density, ledger.evidence, i);
      ShareTimes(joint[i], Sum(joint), DensityProduct(density, ledger.evidence, MeanAt(i)));
    }
  }

  lemma ShareTimes(x: real, total: real, d: real)
    requires total > 0.0 && x == 1.0 / 3.0 * d
    ensures 3.0 * total * (x / total) == d
  {
    TimesInverse(x, total);
    assert 3.0 * total * (x / total) == 3.0 * (x / total * total);
  }

  /** The evidence is exactly that of the matched comparisons. */
  ghost predicate HoldsMatches(name: ((int, int)) -> string, contract: Contract, completed: seq<CompletedExperiment>,
                               evidence: seq<Evidence>)
  {
    forall e :: e in evidence <==> exists key :: EvidenceOfMatch(name, contract, completed, key, e)
  }

  /** One synchronisation of a fresh store holds exactly the evidence of the matched comparisons, once each, and
      the belief in proportion to what the hypotheses predict of it. */
  lemma SynchronizedStore(density: Density, name: ((int, int)) -> string, contract: Contract, experiments: seq<CompletedExperiment>)
    returns (k: real)
    requires PositiveDensity(density) && InjectiveName(name) && UniqueDesigns(contract)
    requires AllRegistered(contract, experiments) && DistinctRecords(experiments)
    ensures SynchronizeOnce(density, name, contract, experiments).Ok?
    ensures var after := SynchronizeOnce(density, name, contract, experiments).value;
      && after.completed == experiments && Distinct(after.evidence)
      && HoldsMatches(name, contract, experiments, after.evidence)
      && k > 0.0 && OverTheThree(after.state)
      && (forall i :: 0 <= i < 3 ==> k * after.state.posterior[i] == DensityProduct(density, after.evidence, MeanAt(i)))
  {
    hide ValidState, Synchronize, JointWeights, EvidenceOfPairs, EvidenceFromPair, PairOf, UniqueDesigns, HoldsMatches,
      OverTheThree, Columns, Normalise, DensityProduct, InitialState;
    FreshLedgerExact(density, name, experiments);
    SynchronizeCovers(density, name, contract, Ledger(experiments, [], InitialState()));
    var after := SynchronizeOnce(density, name, contract, experiments).value;
    DistinctEvidence(density, name, after);
    k := LedgerInProportion(density, name, after);
    MatchedEvidence(name, contract, after);
  }

  lemma MatchedEvidence(name: ((int, int)) -> string, contract: Contract, ledger: Ledger)
    requires UniqueDesigns(contract) && EvidenceOfPairs(name, contract, ledger)
    ensures HoldsMatches(name, contract, ledger.completed, ledger.evidence)
  {
    hide EvidenceFromPair, PairOf, EvidenceOfMatch;
    forall e ensures e in ledger.evidence <==> exists key :: EvidenceOfMatch(name, contract, ledger.completed, key, e) {
      if e in ledger.evidence {
        var k :| PairOf(contract, ledger.completed, k).Some?
              && e == EvidenceFromPair(name, PairOf(contract, ledger.completed, k).value);
        EvidenceDetermined(name, contract, ledger.completed, k, e);
      }
      if key :| EvidenceOfMatch(name, contract, ledger.completed, key, e) {
        EvidenceDetermined(name, contract, ledger.completed, key, e);
      }
    }
  }
}
