/** What a belief model reports with every update: the mixture it predicts with, its mean and variance, and the
    intervals that hold half, four fifths and nineteen twentieths of it. */
module PredictiveMeaning {
  import opened RealSums
  import opened Information
  import opened Reasoning
  import opened OptimizerEffect
  import opened BeliefModels

  /** The mixture of the hypotheses' distribution functions, each with its probability. */
  ghost predicate MixtureAt(cdf: NormalCdf, weights: seq<real>, means: seq<real>, sigma: real, x: real, terms: seq<real>) {
    |terms| == |weights| == |means| && forall i :: 0 <= i < |terms| ==> terms[i] == weights[i] * cdf(x, means[i], sigma)
  }

  lemma MixtureMeaning(cdf: NormalCdf, weights: seq<real>, means: seq<real>, sigma: real, x: real, terms: seq<real>)
    requires MixtureAt(cdf, weights, means, sigma, x, terms)
    ensures MixtureCdf(cdf, weights, means, sigma)(x) == Sum(terms)
  {
    forall i | 0 <= i < |terms| ensures MixtureTerms(cdf, weights, means, sigma, x)[i] == terms[i] {
    }
    assert MixtureTerms(cdf, weights, means, sigma, x) == terms;
  }

  /** The probability-weighted powers of the means. */
  ghost predicate MomentsOf(weights: seq<real>, means: seq<real>, first: seq<real>, second: seq<real>) {
    |first| == |second| == |weights| == |means| && forall i :: 0 <= i < |means| ==>
      first[i] == weights[i] * means[i] && second[i] == weights[i] * (means[i] * means[i])
  }

  /** The predictive mean is the first moment, and the variance that of the mixture: sigma squared plus the second
      moment less the square of the first. */
  lemma MomentsMeaning(weights: seq<real>, means: seq<real>, sigma: real, first: seq<real>, second: seq<real>)
    requires MomentsOf(weights, means, first, second) && Sum(weights) == 1.0
    ensures PredictiveMean(weights, means) == Sum(first)
    ensures PredictiveVariance(weights, means, sigma) == Square(sigma) + Sum(second) - Square(Sum(first))
  {
    hide Square, MomentsOf, Times, SquaredDistances, PredictiveMean, Added, Scaled, Sum;
    FirstMoment(weights, means, first, second);
    var c := Sum(first);
    SpreadTerms(weights, means, c, -2.0 * c, Square(c), first, second);
    SumAroundMean(second, first, weights, c, -2.0 * c, Square(c));
  }

  lemma SumAroundMean(second: seq<real>, first: seq<real>, weights: seq<real>, c: real, k: real, q: real)
    requires |first| == |second| == |weights| && Sum(weights) == 1.0 && c == Sum(first) && k == -2.0 * c && q == Square(c)
    ensures Sum(Added(Added(second, Scaled(k, first)), Scaled(q, weights))) == Sum(second) - q
  {
    hide Sum, Added, Scaled, Square;
    var sum := SumOfTerms(second, first, weights, k, q);
    AroundMean(c, k, q, sum - Sum(second));
  }

  lemma AroundMean(c: real, k: real, q: real, rest: real)
    requires k == -2.0 * c && q == Square(c) && rest == k * c + q
    ensures rest == -q
  {
    assert k * c == -2.0 * (c * c);
  }

  lemma FirstMoment(weights: seq<real>, means: seq<real>, first: seq<real>, second: seq<real>)
    requires MomentsOf(weights, means, first, second)
    ensures |first| == |second| == |weights| == |means|
    ensures PredictiveMean(weights, means) == Sum(first)
  {
    forall i | 0 <= i < |first| ensures Times(weights, means)[i] == first[i] {
    }
    assert Times(weights, means) == first;
  }

  /** The weighted squared distances from `c`, multiplied out. */
  lemma SpreadTerms(weights: seq<real>, means: seq<real>, c: real, k: real, q: real, first: seq<real>, second: seq<real>)
    requires MomentsOf(weights, means, first, second) && k == -2.0 * c && q == Square(c)
    ensures |first| == |second| == |weights| == |means|
    ensures Times(weights, SquaredDistances(means, c)) == Added(Added(second, Scaled(k, first)), Scaled(q, weights))
  {
    hide Square;
    var spread, terms := Times(weights, SquaredDistances(means, c)), Added(Added(second, Scaled(k, first)), Scaled(q, weights));
    forall i | 0 <= i < |means| ensures spread[i] == terms[i] {
      ExpandSquare(weights[i], means[i], c, k, q, first[i], second[i]);
    }
  }

  lemma SumOfTerms(second: seq<real>, first: seq<real>, weights: seq<real>, k: real, q: real) returns (sum: real)
    requires |first| == |second| == |weights| && Sum(weights) == 1.0
    ensures sum == Sum(Added(Added(second, Scaled(k, first)), Scaled(q, weights))) == Sum(second) + k * Sum(first) + q
  {
    hide Sum, Added, Scaled;
    sum := Sum(Added(Added(second, Scaled(k, first)), Scaled(q, weights)));
    SumAdded(Added(second, Scaled(k, first)), Scaled(q, weights));
    SumAdded(second, Scaled(k, first));
    SumScaled(k, first);
    SumScaled(q, weights);
  }

  lemma ExpandSquare(w: real, m: real, c: real, k: real, q: real, first: real, second: real)
    requires first == w * m && second == w * (m * m) && k == -2.0 * c && q == Square(c)
    ensures w * Square(m - c) == second + k * first + q * w
  {
    assert Square(m - c) == m * m + k * m + q;
    assert w * (k * m) == k * (w * m);
    assert w * (m * m + k * m + q) == w * (m * m) + w * (k * m) + w * q;
  }

  /** An interval of the given probability: its ends are within the final width of a hundred bisections of any
      points that leave half of the rest below and above, and it says whether it holds the observation. */
  ghost predicate Central(f: real -> real, start: Bracket, probability: real, observed: real, interval: Interval) {
    && interval.probability == probability
    && (interval.containsObservation <==> interval.lower <= observed <= interval.upper)
    && (forall x :: EndAt(f, start, (1.0 - probability) / 2.0, x) ==> CloseEnd(start, interval.lower, x))
    && (forall x :: EndAt(f, start, (1.0 + probability) / 2.0, x) ==> CloseEnd(start, interval.upper, x))
  }

  ghost predicate EndAt(f: real -> real, start: Bracket, p: real, x: real) {
    start.lower <= x <= start.upper && ExactQuantile(f, p, x)
  }

  predicate CloseEnd(start: Bracket, q: real, x: real) {
    && (q - x) * PowerOfTwo(100) * 2.0 <= start.upper - start.lower
    && (x - q) * PowerOfTwo(100) * 2.0 <= start.upper - start.lower
  }

  lemma IntervalMeaning(f: real -> real, start: Bracket, probability: real, observed: real)
    ensures Central(f, start, probability, observed, CentralInterval(f, start, probability, observed))
  {
    hide Quantile, PowerOfTwo, ExactQuantile;
    var tail := (1.0 - probability) / 2.0;
    var rest := (1.0 + probability) / 2.0;
    assert 1.0 - tail == rest;
    forall x | EndAt(f, start, tail, x) ensures CloseEnd(start, Quantile(f, tail, start), x) {
      QuantileAccuracy(f, tail, start, x);
    }
    forall x | EndAt(f, start, rest, x) ensures CloseEnd(start, Quantile(f, rest, start), x) {
      QuantileAccuracy(f, rest, start, x);
    }
  }

  ghost predicate MeansOf(hypotheses: seq<Hypothesis>, means: seq<real>) {
    |means| == |hypotheses| && forall i :: 0 <= i < |means| ==> means[i] == hypotheses[i].mean
  }

  /** Twelve sigmas beyond the outermost means. */
  ghost predicate Spans(means: seq<real>, sigma: real, start: Bracket) {
    && (exists i :: 0 <= i < |means| && start.lower == means[i] - 12.0 * sigma)
    && (exists i :: 0 <= i < |means| && start.upper == means[i] + 12.0 * sigma)
    && (forall i :: 0 <= i < |means| ==> start.lower <= means[i] - 12.0 * sigma && means[i] + 12.0 * sigma <= start.upper)
  }

  lemma {:induction false} OutermostMeans(means: seq<real>)
    requires |means| > 0
    ensures MinOf(means) in means && MaxOf(means) in means
    ensures forall x :: x in means ==> MinOf(means) <= x <= MaxOf(means)
  {
    if |means| > 1 {
      OutermostMeans(means[1..]);
      assert means == [means[0]] + means[1..];
    }
  }

  lemma BracketMeaning(means: seq<real>, sigma: real)
    requires |means| > 0
    ensures Spans(means, sigma, StartBracket(means, sigma))
  {
    OutermostMeans(means);
    var i :| 0 <= i < |means| && means[i] == MinOf(means);
    var j :| 0 <= j < |means| && means[j] == MaxOf(means);
    forall k | 0 <= k < |means| ensures MinOf(means) <= means[k] <= MaxOf(means) {
      assert means[k] in means;
    }
  }

  /** The intervals of a report are the three central ones of the mixture over the hypotheses' means. */
  lemma ReportMeaning(laws: BeliefLaws, hypotheses: seq<Hypothesis>, sigma: real, weights: seq<real>, observed: real,
                      history: seq<Report>, means: seq<real>)
    requires |hypotheses| == |weights| > 0 && MeansOf(hypotheses, means)
    ensures var r, f := Diagnose(laws, hypotheses, sigma, weights, observed, history), MixtureCdf(laws.cdf, weights, means, sigma);
      && r.residualCount == |history| + 1 && |r.intervals| == 3
      && r.score == Verdicts(laws.cdf, weights, means, sigma, observed)
      && exists start :: Spans(means, sigma, start)
           && Central(f, start, 0.50, observed, r.intervals[0])
           && Central(f, start, 0.80, observed, r.intervals[1])
           && Central(f, start, 0.95, observed, r.intervals[2])
  {
    hide CentralInterval, Verdicts, Central, Spans, StartBracket, Outliers;
    assert Means(hypotheses) == means;
    var f, start := MixtureCdf(laws.cdf, weights, means, sigma), StartBracket(means, sigma);
    BracketMeaning(means, sigma);
    IntervalMeaning(f, start, 0.50, observed);
    IntervalMeaning(f, start, 0.80, observed);
    IntervalMeaning(f, start, 0.95, observed);
    assert Spans(means, sigma, start);
  }
}
