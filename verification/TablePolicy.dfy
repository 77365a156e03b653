/** The finite-table policy: it replays the history to the current belief, scores every
    open candidate, and takes the first strict maximum. */
module TablePolicy {
  import opened Wrappers
  import opened GcdReduction
  import opened Ordering
  import opened InformationGainTable
  import opened RunSpecs

  datatype Replayed = Replayed(weights: seq<nat>, completed: set<string>)

  function OutcomeOf(m: EvidenceModel, record: Record): (o: nat)
    requires ValidModel(m)
    ensures o < |m.outcomes|
  {
    ClassificationPartition(m, record.observation.value, 0);
    ClassifyFrom(m.thresholds, record.observation.value, 0)
  }

  function ReplayStep(limit: Option<nat>, spec: RunSpec, state: Replayed, record: Record)
    : Result<Replayed, TableError>
    requires spec.policy.InformationGain? && ValidModel(spec.policy.model)
  {
    var m := spec.policy.model;
    if !Matches(spec, record) then Err(InconsistentRecord)
    else if record.candidate.id in state.completed then Err(RepeatedCandidate)
    else
      var weights :- UpdateBelief(limit, m, state.weights, record.candidate.id, OutcomeOf(m, record));
      Ok(Replayed(weights, state.completed + {record.candidate.id}))
  }

  /** `_replay_history`, started from the raw prior weights. */
  function Replay(limit: Option<nat>, spec: RunSpec, history: seq<Record>): Result<Replayed, TableError>
    requires spec.policy.InformationGain? && ValidModel(spec.policy.model)
  {
    if |history| == 0 then Ok(Replayed(spec.policy.model.priors, {}))
    else
      var before :- Replay(limit, spec, history[..|history| - 1]);
      ReplayStep(limit, spec, before, history[|history| - 1])
  }

  method ReplayHistory(limit: Option<nat>, spec: RunSpec, history: seq<Record>)
    returns (r: Result<Replayed, TableError>)
    requires spec.policy.InformationGain? && ValidModel(spec.policy.model)
    ensures r == Replay(limit, spec, history)
  {
    var m := spec.policy.model;
    var weights, completed := m.priors, {};
    for i := 0 to |history|
      invariant Replay(limit, spec, history[..i]) == Ok(Replayed(weights, completed))
    {
      var record := history[i];
      assert history[..i + 1][..i] == history[..i];
      if !Matches(spec, record) {
        ReplayFailureStays(limit, spec, history, i + 1);
        return Err(InconsistentRecord);
      }
      if record.candidate.id in completed {
        ReplayFailureStays(limit, spec, history, i + 1);
        return Err(RepeatedCandidate);
      }
      var outcome := ClassifyObservation(m, record.observation.value);
      var updated := UpdateInformationGainBelief(limit, m, weights, record.candidate.id, outcome);
      if updated.Err? {
        ReplayFailureStays(limit, spec, history, i + 1);
        return Err(updated.error);
      }
      weights := updated.value;
      completed := completed + {record.candidate.id};
    }
    assert history[..|history|] == history;
    return Ok(Replayed(weights, completed));
  }

  lemma {:induction false} ReplayFailureStays(limit: Option<nat>, spec: RunSpec, history: seq<Record>, n: nat)
    requires spec.policy.InformationGain? && ValidModel(spec.policy.model)
    requires n <= |history| && Replay(limit, spec, history[..n]).Err?
    ensures Replay(limit, spec, history) == Replay(limit, spec, history[..n])
  {
    if n < |history| {
      var shorter := history[..|history| - 1];
      assert shorter[..n] == history[..n];
      ReplayFailureStays(limit, spec, shorter, n);
    } else {
      assert history[..n] == history;
    }
  }

  // ----- the normal form of a replayed belief -----

  ghost predicate ConsistentHistory(spec: RunSpec, history: seq<Record>) {
    && (forall r :: r in history ==> Matches(spec, r))
    && (forall i, j :: 0 <= i < j < |history| ==> history[i].candidate.id != history[j].candidate.id)
  }

  ghost predicate TableSpec(spec: RunSpec) {
    spec.policy.InformationGain? && ValidSpec(spec)
  }

  ghost predicate Classifiable(spec: RunSpec, record: Record) {
    TableSpec(spec) && record.candidate.id in spec.policy.model.likelihood
  }

  lemma MatchedIsClassifiable(spec: RunSpec, record: Record)
    requires TableSpec(spec) && Matches(spec, record)
    ensures Classifiable(spec, record)
  {
    assert Known(spec.candidates, record.candidate.id);
  }

  ghost function ObservedColumn(spec: RunSpec, record: Record): (r: seq<nat>)
    requires Classifiable(spec, record)
    ensures |r| == |spec.policy.model.hypotheses|
  {
    LikelihoodColumn(spec.policy.model, record.candidate.id, OutcomeOf(spec.policy.model, record))
  }

  /** The componentwise product of the priors and every observed likelihood. */
  ghost function TotalProduct(spec: RunSpec, history: seq<Record>): (r: seq<nat>)
    requires TableSpec(spec) && forall x :: x in history ==> Classifiable(spec, x)
    ensures |r| == |spec.policy.model.hypotheses|
  {
    if |history| == 0 then spec.policy.model.priors
    else
      Products(TotalProduct(spec, history[..|history| - 1]), ObservedColumn(spec, history[|history| - 1]))
  }

  lemma ProductsTimes(k: nat, w: seq<nat>, l: seq<nat>)
    requires |w| == |l|
    ensures Products(Times(k, w), l) == Times(k, Products(w, l))
  {
    forall i | 0 <= i < |w| ensures Products(Times(k, w), l)[i] == Times(k, Products(w, l))[i] {
      assert Times(k, w)[i] == k * w[i];
      assert k * w[i] * l[i] == k * (w[i] * l[i]);
    }
  }

  lemma TimesTimes(j: nat, k: nat, s: seq<nat>)
    ensures Times(j, Times(k, s)) == Times(j * k, s)
  {
    forall i | 0 <= i < |s| ensures Times(j, Times(k, s))[i] == Times(j * k, s)[i] {
      assert Times(k, s)[i] == k * s[i];
      assert j * (k * s[i]) == j * k * s[i];
    }
  }

  lemma NothingReplayed(limit: Option<nat>, spec: RunSpec)
    requires TableSpec(spec)
    ensures Replay(limit, spec, []).Ok?
    ensures Replay(limit, spec, []).value.completed == CompletedIds([])
    ensures |Replay(limit, spec, []).value.weights| == |spec.policy.model.hypotheses|
  {
  }

  lemma ReplayLast(limit: Option<nat>, spec: RunSpec, history: seq<Record>)
    requires TableSpec(spec) && |history| > 0 && Replay(limit, spec, history).Ok?
    ensures var before, record := Replay(limit, spec, history[..|history| - 1]), history[|history| - 1];
      && before.Ok? && Matches(spec, record) && record.candidate.id !in before.value.completed
      && Replay(limit, spec, history).value.completed == before.value.completed + {record.candidate.id}
    ensures |Replay(limit, spec, history).value.weights| == |spec.policy.model.hypotheses|
  {
    hide UpdateBelief, OutcomeOf, Matches;
  }

  /** A successful replay has seen each of its records once, all from this specification. */
  lemma {:induction false} ReplayShape(limit: Option<nat>, spec: RunSpec, history: seq<Record>)
    requires TableSpec(spec) && Replay(limit, spec, history).Ok?
    ensures ConsistentHistory(spec, history)
    ensures Replay(limit, spec, history).value.completed == CompletedIds(history)
    ensures forall x :: x in history ==> Classifiable(spec, x)
    ensures |Replay(limit, spec, history).value.weights| == |spec.policy.model.hypotheses|
  {
    hide Replay, Matches, Classifiable;
    if |history| == 0 {
      NothingReplayed(limit, spec);
    } else {
      var n := |history| - 1;
      var before, record := history[..n], history[n];
      ReplayLast(limit, spec, history);
      ReplayShape(limit, spec, before);
      assert history == before + [record];
      MatchedIsClassifiable(spec, record);
      CompletedAppend(before, record);
      assert record.candidate.id !in CompletedIds(before);
    }
  }

  /** One update of weights that already miss the factor `f` misses the divisor as well. */
  lemma UpdateFactor(f: nat, total: seq<nat>, w: seq<nat>, column: seq<nat>) returns (g: nat)
    requires |w| == |column| == |total| > 0 && f > 0 && total == Times(f, w)
    requires !AllZero(Products(w, column))
    ensures GcdAll(Products(w, column)) > 0
    ensures g > 0 && Products(total, column) == Times(g, Reduce(Products(w, column)))
    ensures GcdAll(Reduce(Products(w, column))) == 1
  {
    var products := Products(w, column);
    GcdAllDivides(products);
    ReducedGcd(products);
    TimesReduce(products);
    ProductsTimes(f, w, column);
    TimesTimes(f, GcdAll(products), Reduce(products));
    g := f * GcdAll(products);
    SmallMultiple(f, GcdAll(products));
  }

  /** A successful replay has lost exactly a positive common factor of the total product. */
  lemma {:induction false} ReplayFactor(limit: Option<nat>, spec: RunSpec, history: seq<Record>) returns (g: nat)
    requires TableSpec(spec) && Replay(limit, spec, history).Ok?
    requires forall x :: x in history ==> Classifiable(spec, x)
    ensures g > 0 && TotalProduct(spec, history) == Times(g, Replay(limit, spec, history).value.weights)
    ensures |history| > 0 ==> GcdAll(Replay(limit, spec, history).value.weights) == 1
  {
    var weights := Replay(limit, spec, history).value.weights;
    if |history| == 0 {
      g := 1;
      assert Times(1, weights) == weights;
    } else {
      var n := |history| - 1;
      var record, before := history[n], history[..n];
      var earlier := Replay(limit, spec, before).value;
      var f := ReplayFactor(limit, spec, before);
      g := UpdateFactor(f, TotalProduct(spec, before), earlier.weights, ObservedColumn(spec, record));
    }
  }

  lemma CompletedAppend(history: seq<Record>, record: Record)
    ensures CompletedIds(history + [record]) == CompletedIds(history) + {record.candidate.id}
  {
    assert record in history + [record];
    forall id | id in CompletedIds(history) ensures id in CompletedIds(history + [record]) {
      var r :| r in history && r.candidate.id == id;
      assert r in history + [record];
    }
  }

  /** For a non-empty accepted history the replayed weights are the reduced total product. */
  lemma ReplayNormalForm(limit: Option<nat>, spec: RunSpec, history: seq<Record>)
    requires TableSpec(spec) && |history| > 0 && Replay(limit, spec, history).Ok?
    ensures ConsistentHistory(spec, history)
    ensures forall x :: x in history ==> Classifiable(spec, x)
    ensures GcdAll(TotalProduct(spec, history)) > 0
    ensures Replay(limit, spec, history).value.weights == Reduce(TotalProduct(spec, history))
    ensures GcdAll(Replay(limit, spec, history).value.weights) == 1
  {
    ReplayShape(limit, spec, history);
    var g := ReplayFactor(limit, spec, history);
    var weights := Replay(limit, spec, history).value.weights;
    ReduceTimes(g, weights);
    ReduceOfReduced(weights);
  }

  // ----- reordering -----

  lemma ProductsSwap(w: seq<nat>, a: seq<nat>, b: seq<nat>)
    requires |w| == |a| == |b|
    ensures Products(Products(w, a), b) == Products(Products(w, b), a)
  {
    forall i | 0 <= i < |w| ensures Products(Products(w, a), b)[i] == Products(Products(w, b), a)[i] {
      assert w[i] * a[i] * b[i] == w[i] * b[i] * a[i];
    }
  }

  /** Any one observation can be multiplied in last. */
  lemma {:induction false} ProductPullOut(spec: RunSpec, history: seq<Record>, i: nat)
    requires TableSpec(spec) && i < |history|
    requires forall x :: x in history ==> Classifiable(spec, x)
    ensures TotalProduct(spec, history)
         == Products(TotalProduct(spec, Without(history, i)), ObservedColumn(spec, history[i]))
  {
    var n := |history| - 1;
    if i == n {
      assert Without(history, i) == history[..n];
    } else {
      var before, last := history[..n], history[n];
      ProductPullOut(spec, before, i);
      assert Without(history, i) == Without(before, i) + [last];
      assert Without(history, i)[..n - 1] == Without(before, i);
      ProductsSwap(TotalProduct(spec, Without(before, i)), ObservedColumn(spec, before[i]), ObservedColumn(spec, last));
    }
  }

  lemma {:induction false} ProductReordered(spec: RunSpec, a: seq<Record>, b: seq<Record>)
    requires TableSpec(spec) && multiset(a) == multiset(b)
    requires forall x :: x in a ==> Classifiable(spec, x)
    requires forall x :: x in b ==> Classifiable(spec, x)
    ensures TotalProduct(spec, a) == TotalProduct(spec, b)
    decreases |a|
  {
    assert |a| == |multiset(a)| == |multiset(b)| == |b|;
    if |a| > 0 {
      var n := |a| - 1;
      var last := a[n];
      assert last in multiset(b);
      var i :| 0 <= i < |b| && b[i] == last;
      assert Without(a, n) == a[..n];
      WithoutMultiset(a, n);
      WithoutMultiset(b, i);
      ProductReordered(spec, a[..n], Without(b, i));
      ProductPullOut(spec, b, i);
    }
  }

  /** Every order of the same records that replays successfully reaches the same belief. */
  lemma ReplayOrderIndependent(limit: Option<nat>, spec: RunSpec, a: seq<Record>, b: seq<Record>)
    requires TableSpec(spec) && multiset(a) == multiset(b)
    requires Replay(limit, spec, a).Ok? && Replay(limit, spec, b).Ok?
    ensures Replay(limit, spec, a) == Replay(limit, spec, b)
  {
    ReplayShape(limit, spec, a);
    ReplayShape(limit, spec, b);
    SameRecordsSameIds(a, b);
    if |a| > 0 {
      ReplayNormalForm(limit, spec, a);
      ReplayNormalForm(limit, spec, b);
      ProductReordered(spec, a, b);
    }
  }

  lemma SameRecordsSameIds(a: seq<Record>, b: seq<Record>)
    requires multiset(a) == multiset(b)
    ensures |a| == |b| && CompletedIds(a) == CompletedIds(b)
  {
    assert |a| == |multiset(a)| == |multiset(b)| == |b|;
    assert forall x :: x in a <==> x in multiset(a);
    assert forall x :: x in b <==> x in multiset(b);
  }

  // ----- impossible evidence -----

  lemma ZeroAbsorbs(w: seq<nat>, l: seq<nat>)
    requires |w| == |l| && AllZero(w)
    ensures AllZero(Products(w, l))
  {
  }

  lemma ZeroTimes(k: nat, s: seq<nat>)
    requires k > 0
    ensures AllZero(Times(k, s)) <==> AllZero(s)
  {
    forall i | 0 <= i < |s| ensures Times(k, s)[i] == 0 <==> s[i] == 0 {
      SmallMultiple(k, s[i]);
    }
  }

  /** Without the bit bound a consistent history replays unless its total product vanishes,
      and then the error is impossible evidence. */
  lemma {:induction false} ReplaySucceedsIff(spec: RunSpec, history: seq<Record>)
    requires TableSpec(spec) && ConsistentHistory(spec, history)
    requires forall x :: x in history ==> Classifiable(spec, x)
    ensures Replay(None, spec, history).Ok? <==> !AllZero(TotalProduct(spec, history))
    ensures Replay(None, spec, history).Err? ==> Replay(None, spec, history).error == ImpossibleEvidence
  {
    if |history| > 0 {
      var n := |history| - 1;
      var before, record := history[..n], history[n];
      ReplaySucceedsIff(spec, before);
      if Replay(None, spec, before).Err? {
        ZeroAbsorbs(TotalProduct(spec, before), ObservedColumn(spec, record));
      } else {
        ReplayShape(None, spec, before);
        var f := ReplayFactor(None, spec, before);
        var weights := Replay(None, spec, before).value.weights;
        var column := ObservedColumn(spec, record);
        assert record.candidate.id !in CompletedIds(before) by {
          forall r | r in before ensures r.candidate.id != record.candidate.id {
            var k :| 0 <= k < n && before[k] == r;
            assert history[k] == r;
          }
        }
        assert Matches(spec, record);
        WeightsStayValid(spec, before);
        ProductsTimes(f, weights, column);
        ZeroTimes(f, Products(weights, column));
      }
    } else {
      assert spec.policy.model.priors[0] >= 1;
    }
  }

  lemma WeightsStayValid(spec: RunSpec, history: seq<Record>)
    requires TableSpec(spec) && Replay(None, spec, history).Ok?
    ensures ValidWeights(None, Replay(None, spec, history).value.weights, |spec.policy.model.hypotheses|)
  {
    if |history| == 0 {
      assert spec.policy.model.priors[0] >= 1;
    }
  }

  /** Absent the bit bound, impossible evidence is raised for one order iff for all. */
  lemma ImpossibleForOneOrderIffAll(spec: RunSpec, a: seq<Record>, b: seq<Record>)
    requires TableSpec(spec) && multiset(a) == multiset(b)
    requires ConsistentHistory(spec, a) && ConsistentHistory(spec, b)
    ensures Replay(None, spec, a) == Err(ImpossibleEvidence) <==> Replay(None, spec, b) == Err(ImpossibleEvidence)
  {
    forall x | x in a || x in b ensures Classifiable(spec, x) {
      MatchedIsClassifiable(spec, x);
    }
    ReplaySucceedsIff(spec, a);
    ReplaySucceedsIff(spec, b);
    ProductReordered(spec, a, b);
  }

  /** The bit bound only turns successes into failures: what it lets through is unchanged. */
  lemma {:induction false} BoundOnlyRejects(limit: Option<nat>, spec: RunSpec, history: seq<Record>)
    requires TableSpec(spec) && Replay(limit, spec, history).Ok?
    ensures Replay(None, spec, history) == Replay(limit, spec, history)
  {
    hide Matches, OutcomeOf, LikelihoodColumn, ValidModel;
    if |history| > 0 {
      BoundOnlyRejects(limit, spec, history[..|history| - 1]);
    }
  }

  // ----- selection -----

  datatype Choice = Choice(index: nat, score: real)

  /** The belief fingerprint is an injective digest of the weights, so the weights stand for it. */
  datatype Details = Details(
    candidate: CandidateSpec,
    eligibleIds: seq<string>,
    score: real,
    weights: seq<nat>)

  datatype Lineage = Lineage(
    stepIndex: nat,
    candidateId: string,
    outcome: nat,
    weightsBefore: seq<nat>,
    weightsAfter: seq<nat>,
    digestBefore: seq<nat>,
    digestAfter: seq<nat>)

  function Ids(candidates: seq<CandidateSpec>): (r: seq<string>)
    ensures |r| == |candidates|
  {
    seq(|candidates|, i requires 0 <= i < |candidates| => candidates[i].id)
  }

  /** The running best after the first `k` open candidates. */
  function SelectFrom(num: Numerics, limit: Option<nat>, m: EvidenceModel, w: seq<nat>,
                      eligible: seq<CandidateSpec>, k: nat): Result<Choice, TableError>
    requires ValidModel(m) && 1 <= k <= |eligible|
  {
    if k == 1 then
      var score :- Score(num, limit, m, w, eligible[0].id);
      Ok(Choice(0, score))
    else
      var best :- SelectFrom(num, limit, m, w, eligible, k - 1);
      var score :- Score(num, limit, m, w, eligible[k - 1].id);
      Ok(if score > best.score then Choice(k - 1, score) else best)
  }

  function SelectionDetails(num: Numerics, limit: Option<nat>, spec: RunSpec, history: seq<Record>)
    : (r: Result<Details, TableError>)
    requires spec.policy.InformationGain? && ValidModel(spec.policy.model)
    ensures r.Ok? ==> r.value.candidate in spec.candidates
  {
    var state :- Replay(limit, spec, history);
    var eligible := Eligible(spec.candidates, state.completed);
    if |eligible| == 0 then Err(NoCandidatesLeft)
    else
      var best :- SelectFrom(num, limit, spec.policy.model, state.weights, eligible, |eligible|);
      ChoiceInRange(num, limit, spec.policy.model, state.weights, eligible, |eligible|);
      Ok(Details(eligible[best.index], Ids(eligible), best.score, state.weights))
  }

  lemma {:induction false} ChoiceInRange(num: Numerics, limit: Option<nat>, m: EvidenceModel, w: seq<nat>,
                                         eligible: seq<CandidateSpec>, k: nat)
    requires ValidModel(m) && 1 <= k <= |eligible|
    requires SelectFrom(num, limit, m, w, eligible, k).Ok?
    ensures SelectFrom(num, limit, m, w, eligible, k).value.index < k
  {
    if k > 1 {
      ChoiceInRange(num, limit, m, w, eligible, k - 1);
    }
  }

  method SelectCandidate(num: Numerics, limit: Option<nat>, spec: RunSpec, history: seq<Record>)
    returns (r: Result<Details, TableError>)
    requires spec.policy.InformationGain? && ValidModel(spec.policy.model)
    ensures r == SelectionDetails(num, limit, spec, history)
  {
    var m := spec.policy.model;
    var replayed := ReplayHistory(limit, spec, history);
    if replayed.Err? {
      return Err(replayed.error);
    }
    var weights := replayed.value.weights;
    var eligible := Eligible(spec.candidates, replayed.value.completed);
    if |eligible| == 0 {
      return Err(NoCandidatesLeft);
    }
    var best := BestOfEligible(num, limit, m, weights, eligible);
    if best.Err? {
      return Err(best.error);
    }
    ChoiceInRange(num, limit, m, weights, eligible, |eligible|);
    return Ok(Details(eligible[best.value.index], Ids(eligible), best.value.score, weights));
  }

  method BestOfEligible(num: Numerics, limit: Option<nat>, m: EvidenceModel, w: seq<nat>, eligible: seq<CandidateSpec>)
    returns (r: Result<Choice, TableError>)
    requires ValidModel(m) && |eligible| > 0
    ensures r == SelectFrom(num, limit, m, w, eligible, |eligible|)
  {
    hide Score;
    var first := ExpectedInformationGainBits(num, limit, m, w, eligible[0].id);
    if first.Err? {
      SelectFailureStays(num, limit, m, w, eligible, 1);
      return Err(first.error);
    }
    var selected, selectedScore := 0, first.value;
    for i := 1 to |eligible|
      invariant SelectFrom(num, limit, m, w, eligible, i) == Ok(Choice(selected, selectedScore))
    {
      var score := ExpectedInformationGainBits(num, limit, m, w, eligible[i].id);
      if score.Err? {
        SelectFailureStays(num, limit, m, w, eligible, i + 1);
        return Err(score.error);
      }
      if score.value > selectedScore {
        selected, selectedScore := i, score.value;
      }
    }
    return Ok(Choice(selected, selectedScore));
  }

  lemma SelectFailureStays(num: Numerics, limit: Option<nat>, m: EvidenceModel, w: seq<nat>,
                           eligible: seq<CandidateSpec>, k: nat)
    requires ValidModel(m) && 1 <= k <= |eligible|
    requires SelectFrom(num, limit, m, w, eligible, k).Err?
    ensures SelectFrom(num, limit, m, w, eligible, |eligible|) == SelectFrom(num, limit, m, w, eligible, k)
    decreases |eligible| - k
  {
    if k < |eligible| {
      SelectFailureStays(num, limit, m, w, eligible, k + 1);
    }
  }

  /** The chosen score is a maximum, and strictly above every candidate listed earlier. */
  lemma {:induction false} FirstStrictMaximum(num: Numerics, limit: Option<nat>, m: EvidenceModel, w: seq<nat>,
                                              eligible: seq<CandidateSpec>, k: nat)
    requires ValidModel(m) && 1 <= k <= |eligible|
    requires SelectFrom(num, limit, m, w, eligible, k).Ok?
    ensures var best := SelectFrom(num, limit, m, w, eligible, k).value;
      && best.index < k
      && Score(num, limit, m, w, eligible[best.index].id) == Ok(best.score)
      && (forall j :: 0 <= j < k ==>
            && Score(num, limit, m, w, eligible[j].id).Ok?
            && Score(num, limit, m, w, eligible[j].id).value <= best.score
            && (j < best.index ==> Score(num, limit, m, w, eligible[j].id).value < best.score))
  {
    hide Score;
    if k > 1 {
      FirstStrictMaximum(num, limit, m, w, eligible, k - 1);
    }
  }

  /** A bound no tighter than the source's own lets every prior through. */
  predicate AdmitsPriors(limit: Option<nat>) {
    limit.None? || limit.value >= MAX_INFORMATION_GAIN_INTEGER_BITS
  }

  /** Every belief a replay reaches passes the checks the scoring makes of it. */
  lemma ReplayedWeightsValid(limit: Option<nat>, spec: RunSpec, history: seq<Record>)
    requires TableSpec(spec) && AdmitsPriors(limit) && Replay(limit, spec, history).Ok?
    ensures ValidWeights(limit, Replay(limit, spec, history).value.weights, |spec.policy.model.hypotheses|)
  {
    if |history| == 0 {
      var priors := spec.policy.model.priors;
      assert priors[0] >= 1;
      forall h | 0 <= h < |priors| ensures Within(limit, priors[h]) {
        assert Within(Some(MAX_INFORMATION_GAIN_INTEGER_BITS), priors[h]);
      }
    } else {
      var n := |history| - 1;
      var before, record := Replay(limit, spec, history[..n]).value, history[n];
      var m := spec.policy.model;
      var products := Products(before.weights, LikelihoodColumn(m, record.candidate.id, OutcomeOf(m, record)));
      GcdAllDivides(products);
      ReducedWithin(limit, products);
    }
  }

  /** `open[i]` is the first open candidate of greatest quantised gain. */
  ghost predicate FirstOfGreatestGain(num: Numerics, spec: RunSpec, w: seq<nat>, open: seq<CandidateSpec>,
                                      i: nat, score: real)
    requires TableSpec(spec) && forall c :: c in open ==> c.id in spec.policy.model.likelihood
    requires |w| == |spec.policy.model.hypotheses| && SumNat(w) > 0
  {
    && i < |open|
    && (forall j :: 0 <= j < |open| ==>
          var gain := num.quantize(ExactGain(num.phi, spec.policy.model, w, open[j].id));
          && gain <= score
          && (j < i ==> gain < score)
          && (j == i ==> gain == score))
  }

  lemma OpenCandidatesScore(num: Numerics, limit: Option<nat>, spec: RunSpec, w: seq<nat>, completed: set<string>)
    requires Faithful(num) && TableSpec(spec) && ValidWeights(limit, w, |spec.policy.model.hypotheses|)
    ensures SumNat(w) > 0
    ensures forall c :: c in Eligible(spec.candidates, completed) ==>
              && c.id in spec.policy.model.likelihood
              && Score(num, limit, spec.policy.model, w, c.id)
                 == Ok(num.quantize(ExactGain(num.phi, spec.policy.model, w, c.id)))
  {
    SumNatZero(w);
    forall c | c in Eligible(spec.candidates, completed)
      ensures c.id in spec.policy.model.likelihood
      ensures Score(num, limit, spec.policy.model, w, c.id)
           == Ok(num.quantize(ExactGain(num.phi, spec.policy.model, w, c.id)))
    {
      assert Known(spec.candidates, c.id);
      GainBounds(num, limit, spec.policy.model, w, c.id);
    }
  }

  ghost predicate SelectsFirstMaximum(num: Numerics, spec: RunSpec, w: seq<nat>, open: seq<CandidateSpec>, d: Details)
    requires TableSpec(spec)
  {
    && d.weights == w
    && d.eligibleIds == Ids(open)
    && (forall c :: c in open ==> c.id in spec.policy.model.likelihood)
    && |w| == |spec.policy.model.hypotheses|
    && SumNat(w) > 0
    && exists i: nat :: FirstOfGreatestGain(num, spec, w, open, i, d.score) && d.candidate == open[i]
  }

  /** After any accepted history selection fails only when no candidate is open; otherwise it
      returns the first open candidate of greatest gain. The belief checks and the
      negative-score error never fire. */
  lemma SelectionIsFirstMaximum(num: Numerics, limit: Option<nat>, spec: RunSpec, history: seq<Record>)
    requires Faithful(num) && TableSpec(spec) && AdmitsPriors(limit)
    requires Replay(limit, spec, history).Ok?
    ensures var open := Eligible(spec.candidates, CompletedIds(history));
      if |open| == 0 then SelectionDetails(num, limit, spec, history) == Err(NoCandidatesLeft)
      else
        && SelectionDetails(num, limit, spec, history).Ok?
        && SelectsFirstMaximum(num, spec, Replay(limit, spec, history).value.weights, open,
                               SelectionDetails(num, limit, spec, history).value)
  {
    ReplayShape(limit, spec, history);
    ReplayedWeightsValid(limit, spec, history);
    var w := Replay(limit, spec, history).value.weights;
    var open := Eligible(spec.candidates, CompletedIds(history));
    OpenCandidatesScore(num, limit, spec, w, CompletedIds(history));
    if |open| > 0 {
      BestIsFirstOfGreatestGain(num, limit, spec, w, open);
      var best := SelectFrom(num, limit, spec.policy.model, w, open, |open|).value;
      assert SelectionDetails(num, limit, spec, history)
          == Ok(Details(open[best.index], Ids(open), best.score, w));
    }
  }

  lemma BestIsFirstOfGreatestGain(num: Numerics, limit: Option<nat>, spec: RunSpec, w: seq<nat>, open: seq<CandidateSpec>)
    requires TableSpec(spec) && |open| > 0
    requires |w| == |spec.policy.model.hypotheses| && SumNat(w) > 0
    requires forall c :: c in open ==>
               && c.id in spec.policy.model.likelihood
               && Score(num, limit, spec.policy.model, w, c.id)
                  == Ok(num.quantize(ExactGain(num.phi, spec.policy.model, w, c.id)))
    ensures SelectFrom(num, limit, spec.policy.model, w, open, |open|).Ok?
    ensures var best := SelectFrom(num, limit, spec.policy.model, w, open, |open|).value;
      FirstOfGreatestGain(num, spec, w, open, best.index, best.score)
  {
    var m := spec.policy.model;
    SelectSucceeds(num, limit, m, w, open, |open|);
    FirstStrictMaximum(num, limit, m, w, open, |open|);
    var best := SelectFrom(num, limit, m, w, open, |open|).value;
    forall j | 0 <= j < |open|
      ensures var gain := num.quantize(ExactGain(num.phi, m, w, open[j].id));
        gain <= best.score && (j < best.index ==> gain < best.score) && (j == best.index ==> gain == best.score)
    {
      assert open[j] in open;
    }
  }

  lemma {:induction false} SelectSucceeds(num: Numerics, limit: Option<nat>, m: EvidenceModel, w: seq<nat>,
                                          eligible: seq<CandidateSpec>, k: nat)
    requires ValidModel(m) && 1 <= k <= |eligible|
    requires forall c :: c in eligible ==> Score(num, limit, m, w, c.id).Ok?
    ensures SelectFrom(num, limit, m, w, eligible, k).Ok?
  {
    if k > 1 {
      SelectSucceeds(num, limit, m, w, eligible, k - 1);
    }
  }

  /** Scaling the weights never changes the selection, so neither does reduction by the divisor. */
  lemma {:induction false} SelectionScaleFree(num: Numerics, limit: Option<nat>, m: EvidenceModel, w: seq<nat>,
                                              factor: nat, eligible: seq<CandidateSpec>, k: nat)
    requires ValidModel(m) && 1 <= k <= |eligible| && factor > 0
    requires ValidWeights(limit, w, |m.hypotheses|)
    requires ValidWeights(limit, Times(factor, w), |m.hypotheses|)
    ensures SelectFrom(num, limit, m, Times(factor, w), eligible, k) == SelectFrom(num, limit, m, w, eligible, k)
  {
    hide Score, Times;
    ScoreScaleFree(num, limit, m, w, factor, eligible[k - 1].id);
    if k > 1 {
      SelectionScaleFree(num, limit, m, w, factor, eligible, k - 1);
    }
  }

  /** In particular the reduced weights select what the unreduced product would have selected. */
  lemma ReductionKeepsSelection(num: Numerics, limit: Option<nat>, m: EvidenceModel, products: seq<nat>,
                                eligible: seq<CandidateSpec>)
    requires ValidModel(m) && |eligible| > 0
    requires ValidWeights(limit, products, |m.hypotheses|) && GcdAll(products) > 0
    ensures SelectFrom(num, limit, m, Reduce(products), eligible, |eligible|)
         == SelectFrom(num, limit, m, products, eligible, |eligible|)
  {
    TimesReduce(products);
    ReducedNonZero(products);
    ReducedWithin(limit, products);
    SelectionScaleFree(num, limit, m, Reduce(products), GcdAll(products), eligible, |eligible|);
  }

  // ----- lineage -----

  /** `lineage_for_observation`. */
  function LineageForObservation(num: Numerics, limit: Option<nat>, spec: RunSpec, history: seq<Record>, record: Record)
    : (r: Result<Lineage, TableError>)
    requires spec.policy.InformationGain? && ValidModel(spec.policy.model)
  {
    var details :- SelectionDetails(num, limit, spec, history);
    if record.candidate != details.candidate then Err(SelectionMismatch)
    else if !Matches(spec, record) then Err(InconsistentRecord)
    else
      var outcome := OutcomeOf(spec.policy.model, record);
      var after :- UpdateBelief(limit, spec.policy.model, details.weights, record.candidate.id, outcome);
      Ok(Lineage(|history|, record.candidate.id, outcome, details.weights, after, details.weights, after))
  }

  /** The lineage of an observation is exactly the next step of the replay: what it calls the
      weights before and after are the replayed beliefs of the shorter and the longer history. */
  lemma LineageIsReplay(num: Numerics, limit: Option<nat>, spec: RunSpec, history: seq<Record>, record: Record)
    requires TableSpec(spec) && LineageForObservation(num, limit, spec, history, record).Ok?
    ensures var l := LineageForObservation(num, limit, spec, history, record).value;
      && Replay(limit, spec, history).Ok?
      && l.weightsBefore == Replay(limit, spec, history).value.weights
      && Replay(limit, spec, history + [record]).Ok?
      && l.weightsAfter == Replay(limit, spec, history + [record]).value.weights
      && record.candidate.id !in CompletedIds(history)
  {
    ReplayShape(limit, spec, history);
    var longer := history + [record];
    assert longer[..|longer| - 1] == history;
    var open := Eligible(spec.candidates, CompletedIds(history));
    ChoiceInRange(num, limit, spec.policy.model, Replay(limit, spec, history).value.weights, open, |open|);
    assert record.candidate in open;
  }
}
