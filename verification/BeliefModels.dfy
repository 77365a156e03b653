/** The two Gaussian belief models: choosing a sigma from strictly earlier matched effects, updating
    with it, and the predictive intervals and alarms reported with every update. */
module BeliefModels {
  import opened Wrappers
  import opened RealSums
  import opened Information
  import opened Ordering
  import opened Reasoning
  import opened OptimizerEffect

  const FIXED_SIGMA: real := PREDICTED_EFFECT_STANDARD_DEVIATION
  const SIGMA_FLOOR: real := 0.05
  const MINIMUM_PRIOR_EFFECTS := 5
  const ADEQUACY_MINIMUM_RESIDUALS := 10
  const RESIDUAL_ALARM_COUNT := 2
  const RESIDUAL_OUTLIER_THRESHOLD: real := 3.0
  const TAIL_ALARM_THRESHOLD: real := 0.05

  datatype Model = FixedSigma | CalibratedSigma

  datatype MatchedEffect = MatchedEffect(id: string, group: string, observed: real, availableSequence: nat)

  datatype SigmaStatus = Fixed | BaselineFallback | Calibrated

  datatype SigmaChoice = SigmaChoice(sigma: real, status: SigmaStatus, sources: seq<string>)

  type Deviation = seq<real> -> real

  /** `normal_cdf(value, mean, sigma)`. */
  type NormalCdf = (real, real, real) -> real

  datatype Score = Score(residualOutlier: bool, tailAlarm: bool)

  /** The numerical functions: Gaussian density and distribution, sample standard deviation. */
  datatype BeliefLaws = BeliefLaws(density: Density, cdf: NormalCdf, deviation: Deviation)

  predicate CdfOrderedAt(cdf: NormalCdf, x: real, y: real, mean: real, sigma: real) {
    sigma > 0.0 && x <= y ==> 0.0 <= cdf(x, mean, sigma) <= cdf(y, mean, sigma) <= 1.0
  }

  ghost predicate MonotoneCdf(cdf: NormalCdf) {
    forall x, y, mean, sigma :: CdfOrderedAt(cdf, x, y, mean, sigma)
  }

  // ----- choosing sigma -----

  predicate EffectBefore(a: MatchedEffect, b: MatchedEffect) {
    a.availableSequence < b.availableSequence || (a.availableSequence == b.availableSequence && StringLess(a.id, b.id))
  }

  function EffectIds(effects: seq<MatchedEffect>): (r: seq<string>)
    ensures |r| == |effects|
  {
    seq(|effects|, i requires 0 <= i < |effects| => effects[i].id)
  }

  function EffectValues(effects: seq<MatchedEffect>): (r: seq<real>)
    ensures |r| == |effects|
  {
    seq(|effects|, i requires 0 <= i < |effects| => effects[i].observed)
  }

  function Max(x: real, y: real): real {
    if x >= y then x else y
  }

  /** The effects of a group available before `cutoff`. */
  function Available(group: string, cutoff: nat): MatchedEffect -> bool {
    (e: MatchedEffect) => e.group == group && e.availableSequence < cutoff
  }

  /** The same, without the evidence itself. */
  function AvailableExcept(group: string, cutoff: nat, evidenceId: string): MatchedEffect -> bool {
    (e: MatchedEffect) => e.group == group && e.availableSequence < cutoff && e.id != evidenceId
  }

  /** The effects kept, in the order sigma is estimated from. */
  function SourcesOf(history: seq<MatchedEffect>, keep: MatchedEffect -> bool): seq<MatchedEffect> {
    SortBy(Filtered(history, keep), EffectBefore)
  }

  /** Two places of the history hold kept effects of one identifier. */
  predicate RepeatedIds(history: seq<MatchedEffect>, keep: MatchedEffect -> bool) {
    exists i, j :: 0 <= i < j < |history| && keep(history[i]) && keep(history[j]) && history[i].id == history[j].id
  }

  /** `select_sigma`. */
  function SelectSigma(deviation: Deviation, model: Model, history: seq<MatchedEffect>, group: string, cutoff: nat,
                       evidenceId: string): SigmaChoice
  {
    var eligible := SourcesOf(history, AvailableExcept(group, cutoff, evidenceId));
    if model.FixedSigma? then SigmaChoice(FIXED_SIGMA, Fixed, [])
    else if |eligible| < MINIMUM_PRIOR_EFFECTS then SigmaChoice(FIXED_SIGMA, BaselineFallback, EffectIds(eligible))
    else SigmaChoice(Max(deviation(EffectValues(eligible)), SIGMA_FLOOR), Calibrated, EffectIds(eligible))
  }

  lemma SigmaAtLeastFloor(deviation: Deviation, model: Model, history: seq<MatchedEffect>, group: string, cutoff: nat, id: string)
    ensures SelectSigma(deviation, model, history, group, cutoff, id).sigma >= SIGMA_FLOOR
  {
  }

  /** Every source of a sigma is strictly earlier than the update that uses it, and never the
      evidence being scored. */
  lemma SourcesAreEarlier(deviation: Deviation, model: Model, history: seq<MatchedEffect>, group: string, cutoff: nat,
                          evidenceId: string)
    ensures forall s :: s in SelectSigma(deviation, model, history, group, cutoff, evidenceId).sources ==>
      s != evidenceId && exists e :: e in history && e.id == s && e.group == group && e.availableSequence < cutoff
  {
    var keep := AvailableExcept(group, cutoff, evidenceId);
    var kept := Filtered(history, keep);
    FilteredMembers(history, keep);
    SortMembers(kept, EffectBefore);
    var eligible := SourcesOf(history, keep);
    forall s | s in EffectIds(eligible)
      ensures s != evidenceId && exists e :: e in history && e.id == s && e.group == group && e.availableSequence < cutoff
    {
      var i :| 0 <= i < |eligible| && eligible[i].id == s;
      assert eligible[i] in kept;
    }
  }

  /** The estimate carries an identifier twice exactly when the kept history does. */
  lemma SourcesDistinctIff(history: seq<MatchedEffect>, keep: MatchedEffect -> bool)
    ensures Distinct(EffectIds(SourcesOf(history, keep))) <==> !RepeatedIds(history, keep)
  {
    SortIds(Filtered(history, keep));
    DistinctReordered(EffectIds(SourcesOf(history, keep)), EffectIds(Filtered(history, keep)));
    FilteredIds(history, keep);
  }

  lemma {:induction false} FilteredIds(history: seq<MatchedEffect>, keep: MatchedEffect -> bool)
    ensures Distinct(EffectIds(Filtered(history, keep))) <==> !RepeatedIds(history, keep)
  {
    if |history| > 0 {
      var n := |history| - 1;
      var before, last := history[..n], history[n];
      var ids := EffectIds(Filtered(before, keep));
      FilteredIds(before, keep);
      FilteredMembers(before, keep);
      assert RepeatedIds(before, keep) ==> RepeatedIds(history, keep);
      if keep(last) {
        assert EffectIds(Filtered(history, keep)) == ids + [last.id];
        if last.id in ids {
          var k :| 0 <= k < |ids| && ids[k] == last.id;
          assert (ids + [last.id])[k] == (ids + [last.id])[|ids|];
          assert Filtered(before, keep)[k] in before;
          var i :| 0 <= i < n && before[i] == Filtered(before, keep)[k];
          assert history[i] == before[i];
        } else {
          DistinctAppend(ids, last.id);
          forall i | 0 <= i < n && keep(history[i]) ensures history[i].id != last.id {
            assert before[i] in Filtered(before, keep);
            var k :| 0 <= k < |ids| && Filtered(before, keep)[k] == before[i];
            assert ids[k] == history[i].id;
          }
          OnlyBefore(history, keep);
        }
      } else {
        OnlyBefore(history, keep);
      }
    }
  }

  lemma DistinctAppend(ids: seq<string>, id: string)
    requires id !in ids
    ensures Distinct(ids + [id]) <==> Distinct(ids)
  {
    assert forall k :: 0 <= k < |ids| ==> (ids + [id])[k] == ids[k];
  }

  /** A last effect that is not kept, or whose identifier is new, adds no repetition. */
  lemma OnlyBefore(history: seq<MatchedEffect>, keep: MatchedEffect -> bool)
    requires |history| > 0
    requires forall i :: 0 <= i < |history| - 1 && keep(history[i]) && keep(history[|history| - 1]) ==>
      history[i].id != history[|history| - 1].id
    ensures RepeatedIds(history, keep) <==> RepeatedIds(history[..|history| - 1], keep)
  {
  }

  lemma {:induction false} InsertIds(x: MatchedEffect, s: seq<MatchedEffect>)
    ensures multiset(EffectIds(Insert(x, s, EffectBefore))) == multiset{x.id} + multiset(EffectIds(s))
  {
    hide EffectBefore, EffectIds;
    if |s| == 0 {
      IdsPrepend(x, s);
      assert [x] + s == [x] && EffectIds(s) == [];
    } else {
      assert s == [s[0]] + s[1..];
      IdsPrepend(s[0], s[1..]);
      if EffectBefore(s[0], x) {
        InsertIds(x, s[1..]);
        IdsPrepend(s[0], Insert(x, s[1..], EffectBefore));
      } else {
        IdsPrepend(x, s);
      }
    }
  }

  lemma IdsPrepend(x: MatchedEffect, s: seq<MatchedEffect>)
    ensures EffectIds([x] + s) == [x.id] + EffectIds(s)
  {
  }

  lemma {:induction false} SortIds(s: seq<MatchedEffect>)
    ensures multiset(EffectIds(SortBy(s, EffectBefore))) == multiset(EffectIds(s))
  {
    hide EffectBefore, EffectIds;
    if |s| > 0 {
      SortIds(s[1..]);
      InsertIds(s[0], SortBy(s[1..], EffectBefore));
      assert s == [s[0]] + s[1..];
      IdsPrepend(s[0], s[1..]);
    }
  }

  /** A kept effect of the history carries the identifier of this one, which is kept too. */
  predicate SharedId(history: seq<MatchedEffect>, keep: MatchedEffect -> bool, e: MatchedEffect) {
    keep(e) && exists x :: x in history && keep(x) && x.id == e.id
  }

  /** A joined history repeats within one of its parts or across them. */
  lemma ConcatRepeats(a: seq<MatchedEffect>, b: seq<MatchedEffect>, keep: MatchedEffect -> bool)
    ensures RepeatedIds(a + b, keep) <==>
      RepeatedIds(a, keep) || RepeatedIds(b, keep) || exists j :: 0 <= j < |b| && SharedId(a, keep, b[j])
  {
    var s := a + b;
    if RepeatedIds(s, keep) {
      var i, j :| 0 <= i < j < |s| && keep(s[i]) && keep(s[j]) && s[i].id == s[j].id;
      if j < |a| {
        assert a[i] == s[i] && a[j] == s[j];
      } else if i < |a| {
        assert a[i] in a && SharedId(a, keep, b[j - |a|]);
      } else {
        assert b[i - |a|] == s[i] && b[j - |a|] == s[j];
      }
    }
    if RepeatedIds(a, keep) {
      var i, j :| 0 <= i < j < |a| && keep(a[i]) && keep(a[j]) && a[i].id == a[j].id;
      assert s[i] == a[i] && s[j] == a[j];
    }
    if RepeatedIds(b, keep) {
      var i, j :| 0 <= i < j < |b| && keep(b[i]) && keep(b[j]) && b[i].id == b[j].id;
      assert s[|a| + i] == b[i] && s[|a| + j] == b[j];
    }
    if j :| 0 <= j < |b| && SharedId(a, keep, b[j]) {
      var x :| x in a && keep(x) && x.id == b[j].id;
      var i :| 0 <= i < |a| && a[i] == x;
      assert s[i] == x && s[|a| + j] == b[j];
    }
  }

  /** A stricter condition repeats no more. */
  lemma FewerRepeats(history: seq<MatchedEffect>, group: string, cutoff: nat, evidenceId: string)
    requires RepeatedIds(history, AvailableExcept(group, cutoff, evidenceId))
    ensures RepeatedIds(history, Available(group, cutoff))
  {
    var loose, strict := Available(group, cutoff), AvailableExcept(group, cutoff, evidenceId);
    var i, j :| 0 <= i < j < |history| && strict(history[i]) && strict(history[j]) && history[i].id == history[j].id;
    assert loose(history[i]) && loose(history[j]);
  }

  // ----- predictive intervals -----

  function MixtureTerms(cdf: NormalCdf, weights: seq<real>, means: seq<real>, sigma: real, x: real): (r: seq<real>)
    requires |weights| == |means|
    ensures |r| == |weights|
  {
    seq(|weights|, i requires 0 <= i < |weights| => weights[i] * cdf(x, means[i], sigma))
  }

  /** `_mixture_cdf`. */
  function MixtureCdf(cdf: NormalCdf, weights: seq<real>, means: seq<real>, sigma: real): real -> real
    requires |weights| == |means|
  {
    x => Sum(MixtureTerms(cdf, weights, means, sigma, x))
  }

  ghost predicate Monotone(f: real -> real) {
    forall x, y :: x <= y ==> f(x) <= f(y)
  }

  lemma MixtureMonotone(cdf: NormalCdf, weights: seq<real>, means: seq<real>, sigma: real)
    requires |weights| == |means| && AllNonNegative(weights) && sigma > 0.0 && MonotoneCdf(cdf)
    ensures Monotone(MixtureCdf(cdf, weights, means, sigma))
  {
    var f := MixtureCdf(cdf, weights, means, sigma);
    forall x, y | x <= y ensures f(x) <= f(y) {
      var a, b := MixtureTerms(cdf, weights, means, sigma, x), MixtureTerms(cdf, weights, means, sigma, y);
      forall i | 0 <= i < |weights| ensures a[i] <= b[i] {
        assert CdfOrderedAt(cdf, x, y, means[i], sigma);
        ScaleMonotone(weights[i], cdf(x, means[i], sigma), cdf(y, means[i], sigma));
      }
      SumMonotone(a, b);
    }
  }

  lemma ScaleMonotone(k: real, x: real, y: real)
    requires k >= 0.0 && x <= y
    ensures k * x <= k * y
  {
  }

  datatype Bracket = Bracket(lower: real, upper: real)
  {
    function Middle(): real {
      (lower + upper) / 2.0
    }

    function Width(): real {
      upper - lower
    }
  }

  const BISECTION_STEPS := 100

  function Halved(f: real -> real, p: real, b: Bracket): Bracket {
    if f(b.Middle()) < p then Bracket(b.Middle(), b.upper) else Bracket(b.lower, b.Middle())
  }

  function Bisected(f: real -> real, p: real, b: Bracket, n: nat): Bracket {
    if n == 0 then b else Halved(f, p, Bisected(f, p, b, n - 1))
  }

  function MinOf(s: seq<real>): real
    requires |s| > 0
  {
    if |s| == 1 then s[0] else var m := MinOf(s[1..]); if s[0] <= m then s[0] else m
  }

  function MaxOf(s: seq<real>): real
    requires |s| > 0
  {
    if |s| == 1 then s[0] else Max(s[0], MaxOf(s[1..]))
  }

  lemma {:induction false} MinBelowMax(s: seq<real>)
    requires |s| > 0
    ensures MinOf(s) <= MaxOf(s)
  {
    if |s| > 1 {
      MinBelowMax(s[1..]);
    }
  }

  function StartBracket(means: seq<real>, sigma: real): Bracket
    requires |means| > 0
  {
    Bracket(MinOf(means) - 12.0 * sigma, MaxOf(means) + 12.0 * sigma)
  }

  /** `_mixture_quantile`, for any distribution function `f`. */
  function Quantile(f: real -> real, p: real, start: Bracket): real {
    Bisected(f, p, start, BISECTION_STEPS).Middle()
  }

  method MixtureQuantile(cdf: NormalCdf, p: real, weights: seq<real>, means: seq<real>, sigma: real) returns (x: real)
    requires |weights| == |means| > 0
    ensures x == Quantile(MixtureCdf(cdf, weights, means, sigma), p, StartBracket(means, sigma))
  {
    var f := MixtureCdf(cdf, weights, means, sigma);
    var lower, upper := MinOf(means) - 12.0 * sigma, MaxOf(means) + 12.0 * sigma;
    for i := 0 to BISECTION_STEPS
      invariant Bracket(lower, upper) == Bisected(f, p, StartBracket(means, sigma), i)
    {
      var midpoint := (lower + upper) / 2.0;
      if f(midpoint) < p {
        lower := midpoint;
      } else {
        upper := midpoint;
      }
    }
    return (lower + upper) / 2.0;
  }

  function PowerOfTwo(n: nat): (r: real)
    ensures r >= 1.0
  {
    if n == 0 then 1.0 else 2.0 * PowerOfTwo(n - 1)
  }

  /** What each iteration keeps: the bracket stays inside the start, its ends stay on their sides of
      the requested probability, and its width has been halved every time. */
  lemma {:induction false} BisectionInvariant(f: real -> real, p: real, start: Bracket, n: nat)
    requires start.lower <= start.upper
    ensures var b := Bisected(f, p, start, n);
      && start.lower <= b.lower <= b.upper <= start.upper
      && (b.lower == start.lower || f(b.lower) < p)
      && (b.upper == start.upper || p <= f(b.upper))
      && b.Width() * PowerOfTwo(n) == start.Width()
  {
    if n > 0 {
      BisectionInvariant(f, p, start, n - 1);
      var b := Bisected(f, p, start, n - 1);
      HalfWidth(b.Width(), Bisected(f, p, start, n).Width(), PowerOfTwo(n - 1));
    }
  }

  lemma HalfWidth(w: real, half: real, k: real)
    requires half == w / 2.0
    ensures half * (2.0 * k) == w * k
  {
  }

  ghost predicate ExactQuantile(f: real -> real, p: real, x: real) {
    (forall y :: y < x ==> f(y) < p) && (forall y :: y > x ==> p <= f(y))
  }

  /** The value returned is within half the final width, start width over 2^101, of the exact
      quantile. */
  lemma QuantileAccuracy(f: real -> real, p: real, start: Bracket, x: real)
    requires start.lower <= x <= start.upper && ExactQuantile(f, p, x)
    ensures var q := Quantile(f, p, start);
      && (q - x) * PowerOfTwo(BISECTION_STEPS) * 2.0 <= start.Width()
      && (x - q) * PowerOfTwo(BISECTION_STEPS) * 2.0 <= start.Width()
  {
    hide PowerOfTwo, Bisected;
    BisectionInvariant(f, p, start, BISECTION_STEPS);
    var b := Bisected(f, p, start, BISECTION_STEPS);
    assert b.lower <= x <= b.upper;
    WithinHalf(b.Middle() - x, b.Width(), PowerOfTwo(BISECTION_STEPS));
    WithinHalf(x - b.Middle(), b.Width(), PowerOfTwo(BISECTION_STEPS));
  }

  lemma WithinHalf(d: real, w: real, k: real)
    requires 2.0 * d <= w && k >= 1.0
    ensures d * k * 2.0 <= w * k
  {
    ScaleMonotone(k, 2.0 * d, w);
  }

  /** Asking for a larger probability never moves the answer down: two searches share a bracket until
      they part, and then stay apart in order. */
  lemma {:induction false} BisectionMonotone(f: real -> real, p: real, q: real, start: Bracket, n: nat)
    requires p <= q && start.lower <= start.upper
    ensures Bisected(f, p, start, n) == Bisected(f, q, start, n)
         || Bisected(f, p, start, n).upper <= Bisected(f, q, start, n).lower
  {
    if n > 0 {
      BisectionMonotone(f, p, q, start, n - 1);
      BisectionInvariant(f, p, start, n - 1);
      BisectionInvariant(f, q, start, n - 1);
    }
  }

  lemma QuantileMonotone(f: real -> real, p: real, q: real, start: Bracket)
    requires p <= q && start.lower <= start.upper
    ensures Quantile(f, p, start) <= Quantile(f, q, start)
  {
    BisectionMonotone(f, p, q, start, BISECTION_STEPS);
    BisectionInvariant(f, p, start, BISECTION_STEPS);
    BisectionInvariant(f, q, start, BISECTION_STEPS);
  }

  datatype Interval = Interval(probability: real, lower: real, upper: real, containsObservation: bool)

  /** `_central_interval`. */
  function CentralInterval(f: real -> real, start: Bracket, probability: real, observed: real): Interval {
    var tail := (1.0 - probability) / 2.0;
    var lower, upper := Quantile(f, tail, start), Quantile(f, 1.0 - tail, start);
    Interval(probability, lower, upper, lower <= observed <= upper)
  }

  /** A wider central probability gives an interval around the narrower one. */
  lemma IntervalsNest(f: real -> real, start: Bracket, narrow: real, wide: real, observed: real)
    requires 0.0 <= narrow <= wide && start.lower <= start.upper
    ensures var inner, outer := CentralInterval(f, start, narrow, observed), CentralInterval(f, start, wide, observed);
      && outer.lower <= inner.lower <= inner.upper <= outer.upper
      && (inner.containsObservation ==> outer.containsObservation)
  {
    QuantileMonotone(f, (1.0 - wide) / 2.0, (1.0 - narrow) / 2.0, start);
    QuantileMonotone(f, (1.0 - narrow) / 2.0, 1.0 - (1.0 - narrow) / 2.0, start);
    QuantileMonotone(f, 1.0 - (1.0 - narrow) / 2.0, 1.0 - (1.0 - wide) / 2.0, start);
  }

  // ----- the verdicts on one observation -----

  function PredictiveMean(weights: seq<real>, means: seq<real>): real
    requires |weights| == |means|
  {
    Sum(Times(weights, means))
  }

  function Square(x: real): (r: real)
    ensures r >= 0.0
  {
    x * x
  }

  function SquaredDistances(means: seq<real>, center: real): (r: seq<real>)
    ensures |r| == |means|
  {
    seq(|means|, i requires 0 <= i < |means| => Square(means[i] - center))
  }

  function PredictiveVariance(weights: seq<real>, means: seq<real>, sigma: real): real
    requires |weights| == |means|
  {
    Square(sigma) + Sum(Times(weights, SquaredDistances(means, PredictiveMean(weights, means))))
  }

  /** `min(1.0, max(0.0, x))`. */
  function Clip(x: real): real {
    if x < 0.0 then 0.0 else if x > 1.0 then 1.0 else x
  }

  function TailProbability(cdf: NormalCdf, weights: seq<real>, means: seq<real>, sigma: real, observed: real): real
    requires |weights| == |means|
  {
    var c := Clip(MixtureCdf(cdf, weights, means, sigma)(observed));
    Clip(2.0 * (if c <= 1.0 - c then c else 1.0 - c))
  }

  /** The residual is an outlier when its square exceeds the threshold's square times the predictive
      variance, which says without a square root that the standardised residual exceeds the threshold. */
  function Verdicts(cdf: NormalCdf, weights: seq<real>, means: seq<real>, sigma: real, observed: real): Score
    requires |weights| == |means|
  {
    var residual := observed - PredictiveMean(weights, means);
    Score(Square(residual) > Square(RESIDUAL_OUTLIER_THRESHOLD) * PredictiveVariance(weights, means, sigma),
          TailProbability(cdf, weights, means, sigma, observed) < TAIL_ALARM_THRESHOLD)
  }

  function Size(x: real): real {
    if x < 0.0 then -x else x
  }

  /** What the verdicts mean for a belief and a monotone distribution function: no clamp acts, the alarm
      is raised exactly in the two tails of one fortieth, and the outlier is the one the standardised
      residual shows, whose divisor is at least sigma. */
  lemma VerdictsExact(cdf: NormalCdf, weights: seq<real>, means: seq<real>, sigma: real, observed: real, root: real)
    requires |weights| == |means| && IsDistribution(weights) && sigma > 0.0 && MonotoneCdf(cdf)
    requires root > 0.0 && Square(root) == PredictiveVariance(weights, means, sigma)
    ensures root >= sigma
    ensures var verdicts := Verdicts(cdf, weights, means, sigma, observed);
      var c := MixtureCdf(cdf, weights, means, sigma)(observed);
      && 0.0 <= c <= 1.0
      && (verdicts.tailAlarm <==> c < TAIL_ALARM_THRESHOLD / 2.0 || c > 1.0 - TAIL_ALARM_THRESHOLD / 2.0)
      && (verdicts.residualOutlier <==>
            Size((observed - PredictiveMean(weights, means)) / root) > RESIDUAL_OUTLIER_THRESHOLD)
  {
    hide MonotoneCdf, PredictiveMean, IsDistribution;
    SpreadNonNegative(weights, means, PredictiveMean(weights, means));
    SquareOrder(sigma, root);
    MixtureInUnit(cdf, weights, means, sigma, observed);
    hide PredictiveVariance, MixtureCdf;
    StandardisedResidual(observed - PredictiveMean(weights, means), root);
    assert Square(3.0 * root) == Square(3.0) * Square(root);
  }

  lemma SpreadNonNegative(weights: seq<real>, means: seq<real>, center: real)
    requires |weights| == |means| && IsDistribution(weights)
    ensures Sum(Times(weights, SquaredDistances(means, center))) >= 0.0
  {
    var terms := Times(weights, SquaredDistances(means, center));
    forall i | 0 <= i < |terms| ensures terms[i] >= 0.0 {
      ScaleMonotone(weights[i], 0.0, Square(means[i] - center));
    }
    SumNonNegative(terms);
  }

  lemma SquareOrder(x: real, y: real)
    requires x >= 0.0 && y >= 0.0
    ensures Square(x) <= Square(y) <==> x <= y
  {
    if x > y {
      ProductStrict(y, x, y, x);
    } else {
      ProductMonotone(x, y, x, y);
    }
  }

  lemma ProductMonotone(a: real, b: real, c: real, d: real)
    requires 0.0 <= a <= b && 0.0 <= c <= d
    ensures a * c <= b * d
  {
    ScaleMonotone(a, c, d);
    ScaleMonotone(d, a, b);
  }

  lemma ProductStrict(a: real, b: real, c: real, d: real)
    requires 0.0 <= a < b && 0.0 <= c < d
    ensures a * c < b * d
  {
    ScaleMonotone(a, c, d);
    assert (b - a) * d > 0.0;
  }

  lemma MixtureInUnit(cdf: NormalCdf, weights: seq<real>, means: seq<real>, sigma: real, x: real)
    requires |weights| == |means| && IsDistribution(weights) && sigma > 0.0 && MonotoneCdf(cdf)
    ensures 0.0 <= MixtureCdf(cdf, weights, means, sigma)(x) <= 1.0
  {
    var terms := MixtureTerms(cdf, weights, means, sigma, x);
    forall i | 0 <= i < |terms| ensures 0.0 <= terms[i] <= weights[i] {
      assert CdfOrderedAt(cdf, x, x, means[i], sigma);
      ScaleMonotone(weights[i], 0.0, cdf(x, means[i], sigma));
      ScaleMonotone(weights[i], cdf(x, means[i], sigma), 1.0);
    }
    SumNonNegative(terms);
    SumMonotone(terms, weights);
  }

  lemma StandardisedResidual(d: real, root: real)
    requires root > 0.0
    ensures Square(d) > Square(3.0 * root) <==> Size(d / root) > 3.0
  {
    SquareOrder(Size(d), 3.0 * root);
    assert Square(Size(d)) == Square(d);
    ThreeTimes(d, root);
  }

  lemma ThreeTimes(d: real, root: real)
    requires root > 0.0
    ensures Size(d) <= 3.0 * root <==> Size(d / root) <= 3.0
  {
    var q := d / root;
    assert d == q * root;
  }

  // ----- model-adequacy diagnostics -----

  datatype Adequacy = Uncertain | Adequate | AppearsMisspecified

  datatype Report = Report(
    intervals: seq<Interval>,
    score: Score,
    residualCount: nat,
    rollingOutliers: nat,
    repeatedAlarm: bool,
    adequacy: Adequacy)

  function Outliers(reports: seq<Report>): nat {
    if |reports| == 0 then 0
    else Outliers(reports[..|reports| - 1]) + (if reports[|reports| - 1].score.residualOutlier then 1 else 0)
  }

  /** `diagnostic_history[-4:]`. */
  function LastFour(reports: seq<Report>): seq<Report> {
    if |reports| <= 4 then reports else reports[|reports| - 4..]
  }

  function Classify(score: Score, repeatedAlarm: bool, residualCount: nat): Adequacy {
    if score.tailAlarm || repeatedAlarm then AppearsMisspecified
    else if residualCount < ADEQUACY_MINIMUM_RESIDUALS || score.tailAlarm != score.residualOutlier then Uncertain
    else Adequate
  }

  function Means(hypotheses: seq<Hypothesis>): (r: seq<real>)
    ensures |r| == |hypotheses|
  {
    seq(|hypotheses|, i requires 0 <= i < |hypotheses| => hypotheses[i].mean)
  }

  /** `_diagnose`. */
  function Diagnose(laws: BeliefLaws, hypotheses: seq<Hypothesis>, sigma: real, weights: seq<real>, observed: real,
                    history: seq<Report>): Report
    requires |hypotheses| == |weights| > 0
  {
    var means := Means(hypotheses);
    var f, start := MixtureCdf(laws.cdf, weights, means, sigma), StartBracket(means, sigma);
    var score := Verdicts(laws.cdf, weights, means, sigma, observed);
    var rolling := Outliers(LastFour(history)) + (if score.residualOutlier then 1 else 0);
    var repeated := rolling >= RESIDUAL_ALARM_COUNT;
    Report([CentralInterval(f, start, 0.50, observed), CentralInterval(f, start, 0.80, observed),
            CentralInterval(f, start, 0.95, observed)],
           score, |history| + 1, rolling, repeated, Classify(score, repeated, |history| + 1))
  }

  /** The outliers among the last five reports up to index `i`. */
  function OutliersInWindow(reports: seq<Report>, i: nat): nat
    requires i < |reports|
  {
    Outliers(reports[if i < 4 then 0 else i - 4..i + 1])
  }

  predicate IntervalsOrdered(r: Report) {
    && |r.intervals| == 3
    && r.intervals[2].lower <= r.intervals[1].lower <= r.intervals[0].lower
    && r.intervals[0].lower <= r.intervals[0].upper
    && r.intervals[0].upper <= r.intervals[1].upper <= r.intervals[2].upper
  }

  /** Every report counts the outliers of its window, and calls the model adequate exactly when at
      least ten residuals are known, the window holds at most one outlier, and neither verdict is
      alarmed now. */
  ghost predicate ReportsSound(reports: seq<Report>) {
    forall i :: 0 <= i < |reports| ==> ReportSound(reports, i)
  }

  predicate ReportSound(reports: seq<Report>, i: nat)
    requires i < |reports|
  {
    var r := reports[i];
    && r.residualCount == i + 1
    && r.rollingOutliers == OutliersInWindow(reports, i)
    && IntervalsOrdered(r)
    && (r.adequacy == AppearsMisspecified <==> r.score.tailAlarm || OutliersInWindow(reports, i) >= 2)
    && (r.adequacy == Adequate <==>
          !r.score.tailAlarm && !r.score.residualOutlier && OutliersInWindow(reports, i) < 2 && i >= 9)
  }

  lemma DiagnoseKeepsReports(laws: BeliefLaws, hypotheses: seq<Hypothesis>, sigma: real, weights: seq<real>, observed: real,
                             history: seq<Report>)
    requires |hypotheses| == |weights| > 0 && sigma > 0.0 && ReportsSound(history)
    ensures ReportsSound(history + [Diagnose(laws, hypotheses, sigma, weights, observed, history)])
  {
    var report := Diagnose(laws, hypotheses, sigma, weights, observed, history);
    var after, n := history + [report], |history|;
    ReportIntervals(laws, hypotheses, sigma, weights, observed, history);
    assert report.rollingOutliers == Outliers(LastFour(history)) + (if report.score.residualOutlier then 1 else 0);
    hide Bisected, Quantile, CentralInterval, IntervalsOrdered, Outliers, LastFour, MixtureCdf, StartBracket, Means, Verdicts;
    forall i | 0 <= i < |after| ensures ReportSound(after, i) {
      if i < n {
        EarlierReport(history, report, i);
      } else {
        LastWindow(history, report);
      }
    }
  }

  lemma EarlierReport(history: seq<Report>, report: Report, i: nat)
    requires i < |history| && ReportSound(history, i)
    ensures ReportSound(history + [report], i)
  {
    hide Outliers, IntervalsOrdered;
    var from := if i < 4 then 0 else i - 4;
    assert (history + [report])[from..i + 1] == history[from..i + 1];
  }

  lemma LastWindow(history: seq<Report>, report: Report)
    ensures OutliersInWindow(history + [report], |history|)
         == Outliers(LastFour(history)) + (if report.score.residualOutlier then 1 else 0)
  {
    hide Outliers;
    var n := |history|;
    assert (history + [report])[if n < 4 then 0 else n - 4..n + 1] == LastFour(history) + [report];
    OutliersAppend(LastFour(history), report);
  }

  lemma OutliersAppend(reports: seq<Report>, report: Report)
    ensures Outliers(reports + [report]) == Outliers(reports) + (if report.score.residualOutlier then 1 else 0)
  {
    assert (reports + [report])[..|reports|] == reports;
  }

  lemma ReportIntervals(laws: BeliefLaws, hypotheses: seq<Hypothesis>, sigma: real, weights: seq<real>, observed: real,
                        history: seq<Report>)
    requires |hypotheses| == |weights| > 0 && sigma > 0.0
    ensures IntervalsOrdered(Diagnose(laws, hypotheses, sigma, weights, observed, history))
  {
    hide CentralInterval, Verdicts;
    var means := Means(hypotheses);
    var f, start := MixtureCdf(laws.cdf, weights, means, sigma), StartBracket(means, sigma);
    MinBelowMax(means);
    IntervalsNest(f, start, 0.50, 0.80, observed);
    IntervalsNest(f, start, 0.80, 0.95, observed);
  }

  // ----- one update -----

  datatype ModelUpdate = ModelUpdate(estimate: SigmaChoice, cutoff: nat, bayes: BeliefUpdate, report: Report)

  /** `GaussianBeliefModel.update`. */
  function UpdateModel(laws: BeliefLaws, model: Model, state: BeliefState, evidence: Evidence, history: seq<MatchedEffect>,
                       reports: seq<Report>): (r: Result<ModelUpdate, ReasoningError>)
    requires |state.posterior| == |state.hypothesisIds| == 3
    ensures r.Ok? ==> |r.value.bayes.after.posterior| == |r.value.bayes.after.hypothesisIds| == 3
  {
    var cutoff := state.sequence + 1;
    var estimate := SelectSigma(laws.deviation, model, history, evidence.group, cutoff, evidence.id);
    if !Distinct(estimate.sources) then Err(RepeatedSources)
    else
      var hypotheses := HypothesesWithSigma(estimate.sigma);
      var report := Diagnose(laws, hypotheses, estimate.sigma, state.posterior, evidence.comparison, reports);
      var bayes :- Update(laws.density, hypotheses, state, evidence);
      Ok(ModelUpdate(estimate, cutoff, bayes, report))
  }

  /** `MatchedEffectObservation.from_decision`. */
  function EffectOf(evidence: Evidence, sequence: nat): MatchedEffect {
    MatchedEffect(evidence.id, evidence.group, evidence.comparison, sequence)
  }

  /** A state over the three optimizer hypotheses. */
  ghost predicate OptimizerState(state: BeliefState) {
    ValidState(state) && state.hypothesisIds == OptimizerIds()
  }

  lemma InitialOptimizerState()
    ensures OptimizerState(InitialState()) && InitialState().evidenceIds == []
  {
    InitialStateValid();
  }

  /** The unnormalised weights after an observation predicted with one sigma. */
  function SigmaWeights(density: Density, sigma: real, p: seq<real>, observed: real): (r: seq<real>)
    requires |p| == 3
    ensures |r| == 3
  {
    Times(p, Likelihoods(density, HypothesesWithSigma(sigma), observed))
  }

  /** A calibrated model would draw its sigma from two effects of one identifier. */
  predicate UpdateRepeats(model: Model, history: seq<MatchedEffect>, group: string, cutoff: nat, evidenceId: string) {
    model.CalibratedSigma? && RepeatedIds(history, AvailableExcept(group, cutoff, evidenceId))
  }

  lemma EstimateRepeatsIff(deviation: Deviation, model: Model, history: seq<MatchedEffect>, group: string, cutoff: nat,
                           evidenceId: string)
    ensures !Distinct(SelectSigma(deviation, model, history, group, cutoff, evidenceId).sources)
      <==> UpdateRepeats(model, history, group, cutoff, evidenceId)
  {
    SourcesDistinctIff(history, AvailableExcept(group, cutoff, evidenceId));
  }

  /** New evidence updates exactly when its sigma's sources do not repeat an identifier, and repeated
      sources are the only error. */
  lemma UpdateModelSucceeds(laws: BeliefLaws, model: Model, state: BeliefState, evidence: Evidence, history: seq<MatchedEffect>,
                            reports: seq<Report>)
    requires PositiveDensity(laws.density) && OptimizerState(state) && evidence.id !in state.evidenceIds
    requires ReportsSound(reports)
    ensures UpdateModel(laws, model, state, evidence, history, reports).Ok?
      <==> !UpdateRepeats(model, history, evidence.group, state.sequence + 1, evidence.id)
    ensures UpdateModel(laws, model, state, evidence, history, reports).Err? ==>
      UpdateModel(laws, model, state, evidence, history, reports) == Err(RepeatedSources)
    ensures UpdateModel(laws, model, state, evidence, history, reports).Ok? ==>
      var u := UpdateModel(laws, model, state, evidence, history, reports).value;
      && OptimizerState(u.bayes.after)
      && u.bayes.after.evidenceIds == state.evidenceIds + [evidence.id]
      && u.bayes.after.prior == state.prior
      && u.cutoff == state.sequence + 1 == u.bayes.after.sequence
      && Sum(SigmaWeights(laws.density, u.estimate.sigma, state.posterior, evidence.comparison)) > 0.0
      && u.bayes.after.posterior == Normalise(SigmaWeights(laws.density, u.estimate.sigma, state.posterior, evidence.comparison))
      && ReportsSound(reports + [u.report])
  {
    var sigma := SelectSigma(laws.deviation, model, history, evidence.group, state.sequence + 1, evidence.id).sigma;
    SigmaAtLeastFloor(laws.deviation, model, history, evidence.group, state.sequence + 1, evidence.id);
    UpdateWithSigma(laws.density, state, evidence, sigma);
    EstimateRepeatsIff(laws.deviation, model, history, evidence.group, state.sequence + 1, evidence.id);
    var hypotheses := HypothesesWithSigma(sigma);
    hide SelectSigma, Diagnose, ReportsSound, Likelihoods, Normalise, Update, ValidState, HypothesesWithSigma, OptimizerIds,
      SigmaWeights, UpdateRepeats, Distinct;
    DiagnoseKeepsReports(laws, hypotheses, sigma, state.posterior, evidence.comparison, reports);
  }

  lemma UpdateWithSigma(density: Density, state: BeliefState, evidence: Evidence, sigma: real)
    requires PositiveDensity(density) && OptimizerState(state) && evidence.id !in state.evidenceIds && sigma > 0.0
    ensures Update(density, HypothesesWithSigma(sigma), state, evidence).Ok?
    ensures var after := Update(density, HypothesesWithSigma(sigma), state, evidence).value.after;
      && OptimizerState(after)
      && after.evidenceIds == state.evidenceIds + [evidence.id]
      && after.prior == state.prior
      && after.sequence == state.sequence + 1
      && Sum(SigmaWeights(density, sigma, state.posterior, evidence.comparison)) > 0.0
      && after.posterior == Normalise(SigmaWeights(density, sigma, state.posterior, evidence.comparison))
  {
    var hypotheses := HypothesesWithSigma(sigma);
    assert forall i :: 0 <= i < 3 ==> hypotheses[i].sigma > 0.0;
    hide Ordered, Normalise, Likelihoods, HypothesesWithSigma, OptimizerIds;
    IdsIgnoreSigma(sigma);
    HypothesesOrdered(sigma);
    UpdateSucceedsIff(density, hypotheses, state, evidence);
    UpdateKeepsState(density, hypotheses, state, evidence);
  }
}
