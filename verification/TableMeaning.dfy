/** What the finite-table beliefs and scores mean, in the declared priors, weights and thresholds alone. */
module TableMeaning {
  import opened Wrappers
  import opened RealSums
  import opened Information
  import opened BayesMeaning
  import opened GcdReduction
  import opened InformationGainTable
  import opened RunSpecs
  import opened TablePolicy

  // ----- one update -----

  /** The declared cell of outcome `o`: from the threshold before it up to the one after it. */
  predicate InCell(m: EvidenceModel, value: real, o: nat)
    requires ValidModel(m)
  {
    && o < |m.outcomes|
    && (o > 0 ==> m.thresholds[o - 1] <= value)
    && (o < |m.thresholds| ==> value < m.thresholds[o])
  }

  lemma OutcomeIsCell(m: EvidenceModel, record: Record, o: nat)
    requires ValidModel(m)
    ensures InCell(m, record.observation.value, o) <==> o == OutcomeOf(m, record)
  {
    ClassificationPartition(m, record.observation.value, o);
  }

  /** Times `k`, the weights `v` are the weights `w` times the declared weights of outcome `o`. */
  predicate Multiplied(m: EvidenceModel, c: string, o: nat, w: seq<nat>, v: seq<nat>, k: nat)
    requires ValidModel(m) && c in m.likelihood && o < |m.outcomes|
  {
    |w| == |v| == |m.hypotheses| && forall h :: 0 <= h < |w| ==> k * v[h] == w[h] * m.likelihood[c][h][o]
  }

  ghost predicate Lowest(v: seq<nat>) {
    forall d: nat :: d > 1 ==> !CommonTo(d, v)
  }

  predicate CommonTo(d: nat, v: seq<nat>)
    requires d > 0
  {
    forall h :: 0 <= h < |v| ==> v[h] % d == 0
  }

  /** A successful update multiplies every weight by the declared one, up to a common positive factor, and
      leaves the weights in lowest terms. */
  lemma UpdateMultiplies(limit: Option<nat>, m: EvidenceModel, w: seq<nat>, c: string, o: nat) returns (k: nat)
    requires ValidModel(m) && o < |m.outcomes| && UpdateBelief(limit, m, w, c, o).Ok?
    ensures k > 0 && c in m.likelihood
    ensures Multiplied(m, c, o, w, UpdateBelief(limit, m, w, c, o).value, k)
    ensures Lowest(UpdateBelief(limit, m, w, c, o).value)
  {
    hide GcdAll, Lowest, Within;
    var products := Products(w, LikelihoodColumn(m, c, o));
    var v := UpdateBelief(limit, m, w, c, o).value;
    GcdAllDivides(products);
    TimesReduce(products);
    k := GcdAll(products);
    forall h | 0 <= h < |w| ensures k * v[h] == w[h] * m.likelihood[c][h][o] {
      assert Times(k, v)[h] == products[h];
    }
    ReducedGcd(products);
    NoCommonFactor(v);
  }

  lemma NoCommonFactor(v: seq<nat>)
    requires |v| > 0 && GcdAll(v) == 1
    ensures Lowest(v)
  {
    forall d: nat | d > 1 ensures !CommonTo(d, v) {
      if CommonTo(d, v) {
        forall h | 0 <= h < |v| ensures Divides(d, v[h]) {
          assert v[h] == d * (v[h] / d);
        }
        GcdAllGreatest(d, v);
        var q: nat :| 1 == d * q;
        SmallMultiple(d, q);
      }
    }
  }

  /** `v < 2 ^ n`. */
  function PowerOfTwo(n: nat): nat {
    if n == 0 then 1 else 2 * PowerOfTwo(n - 1)
  }

  lemma {:induction false} BitLengthAtMost(v: nat, n: nat)
    ensures BitLength(v) <= n <==> v < PowerOfTwo(n)
  {
    if v > 0 && n > 0 {
      BitLengthAtMost(v / 2, n - 1);
    } else if v == 0 {
      PowerPositive(n);
    }
  }

  lemma {:induction false} PowerPositive(n: nat)
    ensures PowerOfTwo(n) > 0
  {
    if n > 0 {
      PowerPositive(n - 1);
    }
  }

  predicate Fitting(limit: Option<nat>, x: nat) {
    limit.Some? ==> x < PowerOfTwo(limit.value)
  }

  /** The weights of a belief: one per hypothesis, none over the bound, and not all zero. */
  predicate IsBelief(limit: Option<nat>, m: EvidenceModel, w: seq<nat>) {
    && |w| == |m.hypotheses|
    && (forall h :: 0 <= h < |w| ==> Fitting(limit, w[h]))
    && (exists h :: 0 <= h < |w| && w[h] > 0)
  }

  lemma BeliefIsValid(limit: Option<nat>, m: EvidenceModel, w: seq<nat>)
    requires ValidModel(m)
    ensures IsBelief(limit, m, w) <==> ValidWeights(limit, w, |m.hypotheses|)
  {
    forall h | 0 <= h < |w| ensures Fitting(limit, w[h]) <==> Within(limit, w[h]) {
      if limit.Some? {
        BitLengthAtMost(w[h], limit.value);
      }
    }
  }

  /** When an update succeeds and which error it raises otherwise. */
  lemma UpdateSucceedsIff(limit: Option<nat>, m: EvidenceModel, w: seq<nat>, c: string, o: nat)
    requires ValidModel(m) && o < |m.outcomes|
    ensures var r := UpdateBelief(limit, m, w, c, o);
      if !IsBelief(limit, m, w) then r == Err(InvalidBelief)
      else if c !in m.likelihood then r == Err(UnknownCandidate)
      else if exists h :: 0 <= h < |w| && !Fitting(limit, w[h] * m.likelihood[c][h][o]) then r == Err(InvalidBelief)
      else if forall h :: 0 <= h < |w| ==> w[h] == 0 || m.likelihood[c][h][o] == 0 then r == Err(ImpossibleEvidence)
      else r.Ok?
  {
    BeliefIsValid(limit, m, w);
    if IsBelief(limit, m, w) && c in m.likelihood {
      var products := Products(w, LikelihoodColumn(m, c, o));
      forall h | 0 <= h < |w|
        ensures products[h] == w[h] * m.likelihood[c][h][o]
        ensures Fitting(limit, w[h] * m.likelihood[c][h][o]) <==> Within(limit, products[h])
        ensures products[h] == 0 <==> w[h] == 0 || m.likelihood[c][h][o] == 0
      {
        ProductZero(w[h], m.likelihood[c][h][o]);
        if limit.Some? {
          BitLengthAtMost(products[h], limit.value);
        }
      }
      if exists h :: 0 <= h < |w| && !Fitting(limit, w[h] * m.likelihood[c][h][o]) {
        assert !AllWithin(limit, products);
      } else {
        assert AllWithin(limit, products);
      }
    }
  }

  lemma ProductZero(x: nat, y: nat)
    ensures x * y == 0 <==> x == 0 || y == 0
  {
    if x > 0 && y > 0 {
      SmallMultiple(x, y);
    }
  }

  // ----- a replayed history -----

  /** Every record has its candidate in the table and its observation in the named cell. */
  predicate InCells(m: EvidenceModel, history: seq<Record>, cells: seq<nat>)
    requires ValidModel(m)
  {
    |cells| == |history| && forall i :: 0 <= i < |history| ==>
      history[i].candidate.id in m.likelihood && InCell(m, history[i].observation.value, cells[i])
  }

  /** What hypothesis `h` declares of everything observed. */
  function DeclaredProduct(m: EvidenceModel, history: seq<Record>, cells: seq<nat>, h: nat): nat
    requires ValidModel(m) && InCells(m, history, cells) && h < |m.hypotheses|
  {
    if |history| == 0 then 1
    else
      var n := |history| - 1;
      DeclaredProduct(m, history[..n], cells[..n], h) * m.likelihood[history[n].candidate.id][h][cells[n]]
  }

  lemma LastUpdate(limit: Option<nat>, spec: RunSpec, history: seq<Record>)
    requires TableSpec(spec) && |history| > 0 && Replay(limit, spec, history).Ok?
    ensures Replay(limit, spec, history[..|history| - 1]).Ok?
    ensures var n := |history| - 1;
      UpdateBelief(limit, spec.policy.model, Replay(limit, spec, history[..n]).value.weights,
                      history[n].candidate.id, OutcomeOf(spec.policy.model, history[n]))
         == Ok(Replay(limit, spec, history).value.weights)
  {
    hide UpdateBelief, OutcomeOf, Matches, ValidSpec;
  }

  /** Times `k`, the weights are the priors times what every hypothesis declares of the observations. */
  predicate ProductOf(m: EvidenceModel, history: seq<Record>, cells: seq<nat>, weights: seq<nat>, k: nat)
    requires ValidModel(m) && InCells(m, history, cells)
  {
    |weights| == |m.hypotheses| && forall h :: 0 <= h < |m.hypotheses| ==>
      k * weights[h] == m.priors[h] * DeclaredProduct(m, history, cells, h)
  }

  /** Replayed weights are that product up to a common positive factor, after the first record in lowest terms. */
  lemma {:induction false} ReplayMultiplies(limit: Option<nat>, spec: RunSpec, history: seq<Record>)
    returns (k: nat, cells: seq<nat>)
    requires TableSpec(spec) && Replay(limit, spec, history).Ok?
    ensures k > 0 && InCells(spec.policy.model, history, cells)
    ensures ProductOf(spec.policy.model, history, cells, Replay(limit, spec, history).value.weights, k)
    ensures |history| > 0 ==> Lowest(Replay(limit, spec, history).value.weights)
  {
    hide UpdateBelief, OutcomeOf, Lowest, UniqueIds, Known, InCell, ProductOf, Multiplied;
    var m := spec.policy.model;
    if |history| == 0 {
      k, cells := 1, [];
      NothingMultiplied(m);
    } else {
      var n := |history| - 1;
      LastUpdate(limit, spec, history);
      var record, o := history[n], OutcomeOf(m, history[n]);
      var j, before := ReplayMultiplies(limit, spec, history[..n]);
      var i := UpdateMultiplies(limit, m, Replay(limit, spec, history[..n]).value.weights, record.candidate.id, o);
      OutcomeIsCell(m, record, o);
      k, cells := j * i, before + [o];
      assert cells[..n] == before;
      PositiveProduct(j, i);
      OneMoreFactor(m, history, cells, Replay(limit, spec, history[..n]).value.weights,
                    Replay(limit, spec, history).value.weights, j, i);
    }
  }

  lemma NothingMultiplied(m: EvidenceModel)
    requires ValidModel(m)
    ensures InCells(m, [], []) && ProductOf(m, [], [], m.priors, 1)
  {
  }

  lemma OneMoreFactor(m: EvidenceModel, history: seq<Record>, cells: seq<nat>, w: seq<nat>, v: seq<nat>, j: nat, i: nat)
    requires ValidModel(m) && |history| > 0 && InCells(m, history, cells)
    requires var n := |history| - 1;
      && ProductOf(m, history[..n], cells[..n], w, j)
      && Multiplied(m, history[n].candidate.id, cells[n], w, v, i)
    ensures ProductOf(m, history, cells, v, j * i)
  {
    hide SumNat, AllWithin;
    var n := |history| - 1;
    var c := history[n].candidate.id;
    assert InCells(m, history[..n], cells[..n]) && ValidTable(m, m.likelihood[c]);
    forall h | 0 <= h < |m.hypotheses| ensures j * i * v[h] == m.priors[h] * DeclaredProduct(m, history, cells, h) {
      var l, declared := m.likelihood[c][h][cells[n]], DeclaredProduct(m, history[..n], cells[..n], h);
      assert DeclaredProduct(m, history, cells, h) == declared * l;
      ChainFactors(j, i, v[h], w[h], l, m.priors[h], declared);
    }
  }

  lemma PositiveProduct(x: nat, y: nat)
    requires x > 0 && y > 0
    ensures x * y > 0
  {
  }

  lemma ChainFactors(j: nat, i: nat, v: nat, w: nat, l: nat, prior: nat, declared: nat)
    requires i * v == w * l && j * w == prior * declared
    ensures j * i * v == prior * (declared * l)
  {
    assert j * i * v == j * (i * v) == j * (w * l) == (j * w) * l == prior * declared * l;
  }

  /** Without the bound a consistent history replays exactly when some hypothesis allows every observation. */
  lemma ReplaysIffPossible(spec: RunSpec, history: seq<Record>, cells: seq<nat>)
    requires TableSpec(spec) && ConsistentHistory(spec, history) && InCells(spec.policy.model, history, cells)
    ensures Replay(None, spec, history).Ok? <==>
      exists h :: 0 <= h < |spec.policy.model.hypotheses| && Allows(spec.policy.model, history, cells, h)
    ensures Replay(None, spec, history).Err? ==> Replay(None, spec, history).error == ImpossibleEvidence
  {
    var m := spec.policy.model;
    forall x | x in history ensures Classifiable(spec, x) {
      MatchedIsClassifiable(spec, x);
    }
    ReplaySucceedsIff(spec, history);
    forall h | 0 <= h < |m.hypotheses| ensures TotalProduct(spec, history)[h] > 0 <==> Allows(m, history, cells, h) {
      ProductPositive(spec, history, cells, h);
    }
  }

  predicate Allows(m: EvidenceModel, history: seq<Record>, cells: seq<nat>, h: nat)
    requires ValidModel(m) && InCells(m, history, cells) && h < |m.hypotheses|
  {
    forall i :: 0 <= i < |history| ==> m.likelihood[history[i].candidate.id][h][cells[i]] > 0
  }

  lemma {:induction false} ProductPositive(spec: RunSpec, history: seq<Record>, cells: seq<nat>, h: nat)
    requires TableSpec(spec) && InCells(spec.policy.model, history, cells) && h < |spec.policy.model.hypotheses|
    requires forall x :: x in history ==> Classifiable(spec, x)
    ensures TotalProduct(spec, history)[h] > 0 <==> Allows(spec.policy.model, history, cells, h)
  {
    var m := spec.policy.model;
    if |history| > 0 {
      var n := |history| - 1;
      ProductPositive(spec, history[..n], cells[..n], h);
      OutcomeIsCell(m, history[n], cells[n]);
      var l := m.likelihood[history[n].candidate.id][h][cells[n]];
      assert TotalProduct(spec, history)[h] == TotalProduct(spec, history[..n])[h] * l;
      ProductZero(TotalProduct(spec, history[..n])[h], l);
      assert Allows(m, history, cells, h) <==> Allows(m, history[..n], cells[..n], h) && l > 0;
    } else {
      assert spec.policy.model.priors[h] >= 1;
    }
  }

  // ----- the score -----

  /** `p` is the belief `w` as probabilities. */
  predicate ProbabilitiesOf(w: seq<nat>, p: seq<real>) {
    |p| == |w| && forall h :: 0 <= h < |w| ==> p[h] * SumNat(w) as real == w[h] as real
  }

  /** `rates[h][o]` is the declared weight of outcome `o` under hypothesis `h` over the row total. */
  predicate RatesOf(m: EvidenceModel, c: string, rates: seq<seq<real>>)
    requires ValidModel(m) && c in m.likelihood
  {
    && |rates| == |m.hypotheses| && Rectangular(rates, |m.outcomes|)
    && (forall h, o :: 0 <= h < |rates| && 0 <= o < |m.outcomes| ==>
          rates[h][o] * m.rowTotal as real == m.likelihood[c][h][o] as real)
  }

  lemma NormalisedProbabilities(w: seq<nat>, p: seq<real>)
    requires SumNat(w) > 0
    ensures ProbabilitiesOf(w, p) <==> p == Normalised(w, SumNat(w))
  {
    hide SumNat;
    var total := SumNat(w) as real;
    forall h | 0 <= h < |w| ensures Normalised(w, SumNat(w))[h] * total == w[h] as real {
      TimesInverse(w[h] as real, total);
    }
    if ProbabilitiesOf(w, p) {
      forall h | 0 <= h < |w| ensures p[h] == Normalised(w, SumNat(w))[h] {
        CancelPositive(total, p[h], Normalised(w, SumNat(w))[h]);
      }
    }
  }

  lemma MassesAreRates(m: EvidenceModel, c: string, rates: seq<seq<real>>)
    requires ValidModel(m) && c in m.likelihood
    ensures RatesOf(m, c, rates) <==> rates == Masses(m, c)
  {
    hide SumNat, Masses;
    var total, masses := m.rowTotal as real, Masses(m, c);
    assert ValidTable(m, m.likelihood[c]);
    forall h, o | 0 <= h < |masses| && 0 <= o < |m.outcomes|
      ensures masses[h][o] * total == m.likelihood[c][h][o] as real
    {
      MassAt(m, c, h, o);
      TimesInverse(m.likelihood[c][h][o] as real, total);
    }
    if RatesOf(m, c, rates) {
      forall h | 0 <= h < |rates| ensures rates[h] == masses[h] {
        forall o | 0 <= o < |m.outcomes| ensures rates[h][o] == masses[h][o] {
          CancelPositive(total, rates[h][o], masses[h][o]);
        }
      }
    }
  }

  /** The score before rounding is the mutual information of belief and outcome, whatever probabilities,
      rates and Bayes table those of the weights and the declared rows are. */
  lemma ScoreIsMutualInformation(phi: Kernel, m: EvidenceModel, w: seq<nat>, c: string, p: seq<real>, rates: seq<seq<real>>,
                                 chance: seq<real>, after: seq<seq<real>>)
    requires EntropyKernel(phi) && ValidModel(m) && c in m.likelihood && |w| == |m.hypotheses| && SumNat(w) > 0
    requires ProbabilitiesOf(w, p) && RatesOf(m, c, rates) && BayesTable(p, rates, |m.outcomes|, chance, after)
    ensures ExactGain(phi, m, w, c) == MutualInformation(phi, p, chance, after)
  {
    NormalisedProbabilities(w, p);
    MassesAreRates(m, c, rates);
    PositiveTotal(m);
    MassesStochastic(m, c);
    NormalisedDistribution(w, SumNat(w));
    hide ValidModel, SumNat, EntropyKernel, Normalised, Masses, ProbabilitiesOf, RatesOf, BayesTable, RowStochastic;
    GainIsMutualInformation(phi, p, rates, |m.outcomes|, chance, after);
  }

  lemma PositiveTotal(m: EvidenceModel)
    requires ValidModel(m)
    ensures m.rowTotal > 0 && |m.hypotheses| > 0
  {
  }

  /** The update and the score use one Bayes rule: the updated weights, as probabilities, are the posterior
      the scorer weighs for the observed outcome. */
  lemma UpdateIsPosterior(limit: Option<nat>, m: EvidenceModel, w: seq<nat>, c: string, o: nat)
    requires ValidModel(m) && o < |m.outcomes| && UpdateBelief(limit, m, w, c, o).Ok?
    ensures c in m.likelihood && |w| == |m.hypotheses| && SumNat(w) > 0 && SumNat(UpdateBelief(limit, m, w, c, o).value) > 0
    ensures var p, v := Normalised(w, SumNat(w)), UpdateBelief(limit, m, w, c, o).value;
      && Predictive(p, Masses(m, c), |m.outcomes|, o) > 0.0
      && Normalised(v, SumNat(v)) == Posterior(p, Masses(m, c), |m.outcomes|, o)
  {
    var k := UpdateMultiplies(limit, m, w, c, o);
    UpdatedTotals(limit, m, w, c, o);
    MultipliedIsPosterior(m, c, o, w, UpdateBelief(limit, m, w, c, o).value, k);
  }

  lemma MultipliedIsPosterior(m: EvidenceModel, c: string, o: nat, w: seq<nat>, v: seq<nat>, k: nat)
    requires ValidModel(m) && c in m.likelihood && o < |m.outcomes| && Multiplied(m, c, o, w, v, k) && k > 0
    requires SumNat(w) > 0 && SumNat(v) > 0
    ensures var p := Normalised(w, SumNat(w));
      && Predictive(p, Masses(m, c), |m.outcomes|, o) > 0.0
      && Normalised(v, SumNat(v)) == Posterior(p, Masses(m, c), |m.outcomes|, o)
  {
    hide SumNat, ValidModel, Normalised, Masses, Multiplied, Weighted;
    var f := WeightedIsScaled(m, c, o, w, v, k);
    var p, masses := Normalised(w, SumNat(w)), Masses(m, c);
    SumScaled(f, ToReals(v));
    SumNatAsReal(v);
    PositiveTimes(f, SumNat(v) as real);
    forall h | 0 <= h < |w| ensures Normalised(v, SumNat(v))[h] == Posterior(p, masses, |m.outcomes|, o)[h] {
      ScaledShare(v, SumNat(v), f, Weighted(p, masses, |m.outcomes|, o)[h], Predictive(p, masses, |m.outcomes|, o), h);
      PosteriorShare(p, masses, |m.outcomes|, o, h);
    }
  }

  lemma PosteriorShare(p: seq<real>, masses: seq<seq<real>>, width: nat, o: nat, h: nat)
    requires Fits(p, masses, width) && o < width && h < |p| && Predictive(p, masses, width, o) > 0.0
    ensures Posterior(p, masses, width, o)[h] == Weighted(p, masses, width, o)[h] / Predictive(p, masses, width, o)
  {
    hide Predictive, Weighted;
  }

  lemma ScaledShare(v: seq<nat>, total: nat, f: real, x: real, q: real, h: nat)
    requires h < |v| && total > 0 && f > 0.0 && q > 0.0
    requires x == Scaled(f, ToReals(v))[h] && q == f * (total as real)
    ensures Normalised(v, total)[h] == x / q
  {
    var y, t := v[h] as real, total as real;
    assert x == f * y;
    assert Normalised(v, total)[h] == y / t;
    hide *;
    ShareOf(f, y, t, x, q);
  }

  lemma ShareOf(f: real, y: real, total: real, x: real, q: real)
    requires f > 0.0 && total > 0.0 && x == f * y && q == f * total > 0.0
    ensures y / total == x / q
  {
    CommonFactor(f, y, total);
  }

  lemma WeightedIsScaled(m: EvidenceModel, c: string, o: nat, w: seq<nat>, v: seq<nat>, k: nat) returns (f: real)
    requires ValidModel(m) && c in m.likelihood && o < |m.outcomes| && Multiplied(m, c, o, w, v, k) && k > 0
    requires SumNat(w) > 0
    ensures |w| == |v| == |m.hypotheses|
    ensures f > 0.0 && Weighted(Normalised(w, SumNat(w)), Masses(m, c), |m.outcomes|, o) == Scaled(f, ToReals(v))
  {
    hide SumNat, Masses;
    var total, row := SumNat(w) as real, m.rowTotal as real;
    PositiveRatio(k as real, total, row);
    f := k as real / (total * row);
    forall h | 0 <= h < |w|
      ensures Weighted(Normalised(w, SumNat(w)), Masses(m, c), |m.outcomes|, o)[h] == Scaled(f, ToReals(v))[h]
    {
      MassAt(m, c, h, o);
      AsReals(k, v[h], w[h], m.likelihood[c][h][o]);
      RatioTerms(k as real, total, row, w[h] as real, m.likelihood[c][h][o] as real, v[h] as real);
    }
  }

  lemma AsReals(k: nat, v: nat, w: nat, l: nat)
    requires k * v == w * l
    ensures k as real * v as real == w as real * l as real
  {
    assert (k * v) as real == k as real * v as real;
    assert (w * l) as real == w as real * l as real;
  }

  lemma UpdatedTotals(limit: Option<nat>, m: EvidenceModel, w: seq<nat>, c: string, o: nat)
    requires ValidModel(m) && o < |m.outcomes| && UpdateBelief(limit, m, w, c, o).Ok?
    ensures SumNat(w) > 0 && SumNat(UpdateBelief(limit, m, w, c, o).value) > 0
  {
    SumNatZero(w);
    SumNatZero(UpdateBelief(limit, m, w, c, o).value);
  }

  lemma MassAt(m: EvidenceModel, c: string, h: nat, o: nat)
    requires ValidModel(m) && c in m.likelihood && h < |m.hypotheses| && o < |m.outcomes|
    ensures ValidTable(m, m.likelihood[c])
    ensures Masses(m, c)[h][o] == m.likelihood[c][h][o] as real / m.rowTotal as real
  {
    hide SumNat;
  }

  lemma PositiveRatio(k: real, a: real, b: real)
    requires k > 0.0 && a > 0.0 && b > 0.0
    ensures a * b > 0.0 && k / (a * b) > 0.0
  {
    PositiveTimes(a, b);
  }

  lemma PositiveTimes(a: real, b: real)
    requires a > 0.0 && b > 0.0
    ensures a * b > 0.0
  {
  }

  lemma RatioTerms(k: real, total: real, row: real, w: real, l: real, v: real)
    requires k > 0.0 && total > 0.0 && row > 0.0 && total * row > 0.0
    requires k * v == w * l
    ensures w / total * (l / row) == k / (total * row) * v
  {
    var x, y, f := w / total, l / row, k / (total * row);
    assert x * total == w && y * row == l && f * (total * row) == k;
    assert (x * y) * (total * row) == (x * total) * (y * row);
    assert (f * v) * (total * row) == (f * (total * row)) * v;
    CancelPositive(total * row, x * y, f * v);
  }
}
