/** Entropy for any concave kernel, and the mutual-information bounds both gain
    calculations rest on. `-x log2 x` is one kernel. */
module Information {
  import opened RealSums

  type Kernel = real -> real

  function Mix(t: real, x: real, y: real): real {
    t * x + (1.0 - t) * y
  }

  ghost predicate ConcaveAt(phi: Kernel, x: real, y: real, t: real) {
    0.0 <= x <= 1.0 && 0.0 <= y <= 1.0 && 0.0 <= t <= 1.0 ==>
      phi(Mix(t, x, y)) >= Mix(t, phi(x), phi(y))
  }

  /** What is assumed of `phi`: concave and non-negative on [0, 1], zero at both ends. */
  ghost predicate EntropyKernel(phi: Kernel) {
    && phi(0.0) == 0.0
    && phi(1.0) == 0.0
    && (forall x :: 0.0 <= x <= 1.0 ==> phi(x) >= 0.0)
    && (forall x, y, t :: ConcaveAt(phi, x, y, t))
  }

  predicate IsDistribution(p: seq<real>) {
    |p| > 0 && AllNonNegative(p) && Sum(p) == 1.0
  }

  function EntropyTerms(phi: Kernel, p: seq<real>): (r: seq<real>)
    ensures |r| == |p|
  {
    seq(|p|, i requires 0 <= i < |p| => if p[i] > 0.0 then phi(p[i]) else 0.0)
  }

  /** `_entropy`: the kernel summed over the positive probabilities. */
  function Entropy(phi: Kernel, p: seq<real>): real {
    Sum(EntropyTerms(phi, p))
  }

  // ----- the perspective of a concave kernel -----

  /** `w * phi(a / w)`, and 0 for an outcome of weight 0. */
  function Perspective(phi: Kernel, w: real, a: real): real {
    if w <= 0.0 then 0.0 else w * phi(a / w)
  }

  lemma ScaleRatio(w: real, a: real)
    requires 0.0 <= a <= w && w > 0.0
    ensures 0.0 <= a / w <= 1.0
  {
  }

  /** The mixture of two ratios, weighted by their denominators, is the ratio of the sums. */
  lemma MixRatios(w: real, a: real, v: real, b: real)
    requires w > 0.0 && v > 0.0
    ensures 0.0 <= w / (w + v) <= 1.0
    ensures 1.0 - w / (w + v) == v / (w + v)
    ensures w / (w + v) * (a / w) + (1.0 - w / (w + v)) * (b / v) == (a + b) / (w + v)
  {
    var s := w + v;
    assert w / s + v / s == 1.0 by { assert (w + v) / s == w / s + v / s; }
    assert w / s * (a / w) == a / s by { CancelRatio(a, w, s); }
    assert v / s * (b / v) == b / s by { CancelRatio(b, v, s); }
    assert a / s + b / s == (a + b) / s;
  }

  lemma CancelRatio(a: real, w: real, s: real)
    requires w > 0.0 && s > 0.0
    ensures w / s * (a / w) == a / s
  {
    var x, y := w / s, a / w;
    assert x * s == w && y * w == a;
    assert x * y * s == (x * s) * y;
  }

  /** Merging two outcomes can only gain: the perspective is superadditive. */
  lemma PerspectiveSuperadditive(phi: Kernel, w: real, a: real, v: real, b: real)
    requires EntropyKernel(phi)
    requires 0.0 <= a <= w && 0.0 <= b <= v
    ensures Perspective(phi, w, a) + Perspective(phi, v, b) <= Perspective(phi, w + v, a + b)
  {
    if w > 0.0 && v > 0.0 {
      var s, t := w + v, w / (w + v);
      var x, y := a / w, b / v;
      ScaleRatio(w, a);
      ScaleRatio(v, b);
      MixRatios(w, a, v, b);
      assert Mix(t, x, y) == (a + b) / s;
      assert ConcaveAt(phi, x, y, t);
      ScaleMix(s, w, v, t, phi(x), phi(y), phi((a + b) / s));
    }
  }

  lemma ScaleMix(s: real, w: real, v: real, t: real, x: real, y: real, z: real)
    requires s > 0.0 && s == w + v && t == w / s
    requires Mix(t, x, y) <= z
    ensures w * x + v * y <= s * z
  {
    assert s * t == w && s * (1.0 - t) == v;
    assert s * (t * x + (1.0 - t) * y) == (s * t) * x + (s * (1.0 - t)) * y;
  }

  function Perspectives(phi: Kernel, w: seq<real>, a: seq<real>): (r: seq<real>)
    requires |w| == |a|
    ensures |r| == |w|
  {
    seq(|w|, i requires 0 <= i < |w| => Perspective(phi, w[i], a[i]))
  }

  ghost predicate Dominated(a: seq<real>, w: seq<real>) {
    |a| == |w| && forall i :: 0 <= i < |a| ==> 0.0 <= a[i] <= w[i]
  }

  /** Jensen's inequality over a whole list of outcomes. */
  lemma {:induction false} PerspectiveSum(phi: Kernel, w: seq<real>, a: seq<real>)
    requires EntropyKernel(phi) && Dominated(a, w)
    ensures 0.0 <= Sum(a) <= Sum(w)
    ensures Sum(Perspectives(phi, w, a)) <= Perspective(phi, Sum(w), Sum(a))
  {
    if |w| > 0 {
      var n := |w| - 1;
      PerspectiveSum(phi, w[..n], a[..n]);
      assert Perspectives(phi, w, a)[..n] == Perspectives(phi, w[..n], a[..n]);
      PerspectiveSuperadditive(phi, Sum(w[..n]), Sum(a[..n]), w[n], a[n]);
    }
  }

  lemma EntropyNonNegative(phi: Kernel, p: seq<real>)
    requires EntropyKernel(phi) && IsDistribution(p)
    ensures Entropy(phi, p) >= 0.0
  {
    SumNonNegative(p);
    SumNonNegative(EntropyTerms(phi, p));
  }

  // ----- one observation with finitely many outcomes -----

  /** One row of outcome masses per hypothesis. */
  ghost predicate RowStochastic(m: seq<seq<real>>, width: nat) {
    Rectangular(m, width) && forall h :: 0 <= h < |m| ==> IsDistribution(m[h])
  }

  predicate Fits(p: seq<real>, m: seq<seq<real>>, width: nat) {
    |p| == |m| && Rectangular(m, width)
  }

  /** `probability * masses[bin]` for every hypothesis. */
  function Weighted(p: seq<real>, m: seq<seq<real>>, width: nat, o: nat): (r: seq<real>)
    requires Fits(p, m, width) && o < width
    ensures |r| == |p|
  {
    seq(|p|, h requires 0 <= h < |p| => p[h] * m[h][o])
  }

  function Predictive(p: seq<real>, m: seq<seq<real>>, width: nat, o: nat): real
    requires Fits(p, m, width) && o < width
  {
    Sum(Weighted(p, m, width, o))
  }

  function Posterior(p: seq<real>, m: seq<seq<real>>, width: nat, o: nat): (r: seq<real>)
    requires Fits(p, m, width) && o < width && Predictive(p, m, width, o) > 0.0
    ensures |r| == |p|
  {
    var w := Weighted(p, m, width, o);
    seq(|p|, h requires 0 <= h < |p| => w[h] / Predictive(p, m, width, o))
  }

  /** One outcome's share of the expected posterior entropy; impossible outcomes are skipped. */
  function OutcomeTerm(phi: Kernel, p: seq<real>, m: seq<seq<real>>, width: nat, o: nat): real
    requires Fits(p, m, width) && o < width
  {
    if Predictive(p, m, width, o) <= 0.0 then 0.0
    else Predictive(p, m, width, o) * Entropy(phi, Posterior(p, m, width, o))
  }

  function OutcomeTerms(phi: Kernel, p: seq<real>, m: seq<seq<real>>, width: nat): (r: seq<real>)
    requires Fits(p, m, width)
    ensures |r| == width
  {
    seq(width, o requires 0 <= o < width => OutcomeTerm(phi, p, m, width, o))
  }

  function ExpectedEntropy(phi: Kernel, p: seq<real>, m: seq<seq<real>>, width: nat): real
    requires Fits(p, m, width)
  {
    Sum(OutcomeTerms(phi, p, m, width))
  }

  function Predictives(p: seq<real>, m: seq<seq<real>>, width: nat): (r: seq<real>)
    requires Fits(p, m, width)
    ensures |r| == width
  {
    seq(width, o requires 0 <= o < width => Predictive(p, m, width, o))
  }

  /** The joint table: row h, column o holds `p[h] * m[h][o]`. */
  function Joint(p: seq<real>, m: seq<seq<real>>, width: nat): (r: seq<seq<real>>)
    requires Fits(p, m, width)
    ensures |r| == |p| && Rectangular(r, width)
  {
    seq(|p|, h requires 0 <= h < |p| => Scaled(p[h], m[h]))
  }

  lemma JointColumns(p: seq<real>, m: seq<seq<real>>, width: nat, o: nat)
    requires Fits(p, m, width) && o < width
    ensures Column(Joint(p, m, width), width, o) == Weighted(p, m, width, o)
  {
    forall h | 0 <= h < |p| ensures Column(Joint(p, m, width), width, o)[h] == Weighted(p, m, width, o)[h] {
      assert Scaled(p[h], m[h])[o] == p[h] * m[h][o];
    }
  }

  lemma JointRow(p: seq<real>, m: seq<seq<real>>, width: nat, h: nat)
    requires Fits(p, m, width) && RowStochastic(m, width) && h < |p|
    ensures Sum(Joint(p, m, width)[h]) == p[h]
  {
    SumScaled(p[h], m[h]);
  }

  lemma JointNonNegative(p: seq<real>, m: seq<seq<real>>, width: nat, o: nat)
    requires Fits(p, m, width) && RowStochastic(m, width) && AllNonNegative(p) && o < width
    ensures Dominated(Weighted(p, m, width, o), seq(|p|, h => Predictive(p, m, width, o)))
    ensures Predictive(p, m, width, o) >= 0.0
  {
    var w := Weighted(p, m, width, o);
    forall h | 0 <= h < |w| ensures w[h] >= 0.0 {
      assert m[h][o] >= 0.0;
    }
    SumNonNegative(w);
  }

  /** The outcome probabilities themselves form a distribution. */
  lemma PredictiveTotal(p: seq<real>, m: seq<seq<real>>, width: nat)
    requires Fits(p, m, width) && RowStochastic(m, width) && IsDistribution(p)
    ensures IsDistribution(Predictives(p, m, width))
  {
    var j := Joint(p, m, width);
    forall o | 0 <= o < width ensures ColumnSums(j, width)[o] == Predictives(p, m, width)[o] >= 0.0 {
      JointColumns(p, m, width, o);
      JointNonNegative(p, m, width, o);
    }
    assert ColumnSums(j, width) == Predictives(p, m, width);
    forall h | 0 <= h < |p| ensures RowSums(j)[h] == p[h] {
      JointRow(p, m, width, h);
    }
    assert RowSums(j) == p;
    SumSwap(j, width);
    assert IsDistribution(m[0]);
  }

  lemma PosteriorDistribution(p: seq<real>, m: seq<seq<real>>, width: nat, o: nat)
    requires Fits(p, m, width) && RowStochastic(m, width) && IsDistribution(p) && o < width
    requires Predictive(p, m, width, o) > 0.0
    ensures IsDistribution(Posterior(p, m, width, o))
  {
    hide Weighted;
    var q, w := Predictive(p, m, width, o), Weighted(p, m, width, o);
    JointNonNegative(p, m, width, o);
    DividedBySum(w, q, Posterior(p, m, width, o));
  }

  /** Dividing non-negative terms by their positive sum gives a distribution. */
  lemma DividedBySum(w: seq<real>, q: real, post: seq<real>)
    requires |w| == |post| > 0 && AllNonNegative(w) && q == Sum(w) > 0.0
    requires forall h :: 0 <= h < |w| ==> post[h] == w[h] / q
    ensures IsDistribution(post)
  {
    DividedIsScaled(w, q, post);
    SumScaled(1.0 / q, w);
    DivideAsScale(q, q);
  }

  lemma DividedIsScaled(w: seq<real>, q: real, post: seq<real>)
    requires |w| == |post| && AllNonNegative(w) && q > 0.0
    requires forall h :: 0 <= h < |w| ==> post[h] == w[h] / q
    ensures post == Scaled(1.0 / q, w) && AllNonNegative(post)
  {
    forall h | 0 <= h < |w| ensures post[h] == Scaled(1.0 / q, w)[h] && post[h] >= 0.0 {
      DivideAsScale(w[h], q);
    }
  }

  lemma DivideAsScale(a: real, q: real)
    requires q > 0.0
    ensures a / q == 1.0 / q * a
    ensures a >= 0.0 ==> a / q >= 0.0
  {
    var x := 1.0 / q;
    assert x * q == 1.0;
    assert (x * a) * q == a;
  }

  /** Shares of hypothesis h across the outcomes: predictive probability times posterior. */
  function PosteriorShares(p: seq<real>, m: seq<seq<real>>, width: nat, h: nat): (r: seq<real>)
    requires Fits(p, m, width) && h < |p|
    ensures |r| == width
  {
    seq(width, o requires 0 <= o < width =>
      if Predictive(p, m, width, o) <= 0.0 then 0.0
      else Predictive(p, m, width, o) * Posterior(p, m, width, o)[h])
  }

  /** Outcome-weighted posteriors average back to the current belief. */
  lemma PosteriorsAverageBack(p: seq<real>, m: seq<seq<real>>, width: nat, h: nat)
    requires Fits(p, m, width) && RowStochastic(m, width) && IsDistribution(p) && h < |p|
    ensures Sum(PosteriorShares(p, m, width, h)) == p[h]
  {
    var row := Joint(p, m, width)[h];
    forall o | 0 <= o < width ensures PosteriorShares(p, m, width, h)[o] == row[o] {
      JointNonNegative(p, m, width, o);
      var w, q := Weighted(p, m, width, o), Predictive(p, m, width, o);
      if q <= 0.0 {
        SumZeroTerms(w);
        assert w[h] == 0.0;
      }
    }
    assert PosteriorShares(p, m, width, h) == row;
    JointRow(p, m, width, h);
  }

  function PerspectiveTable(phi: Kernel, p: seq<real>, m: seq<seq<real>>, width: nat): (r: seq<seq<real>>)
    requires Fits(p, m, width)
    ensures |r| == |p| && Rectangular(r, width)
  {
    seq(|p|, h requires 0 <= h < |p| =>
      Perspectives(phi, Predictives(p, m, width), Joint(p, m, width)[h]))
  }

  lemma OutcomeTermAsColumn(phi: Kernel, p: seq<real>, m: seq<seq<real>>, width: nat, o: nat)
    requires EntropyKernel(phi)
    requires Fits(p, m, width) && RowStochastic(m, width) && IsDistribution(p) && o < width
    ensures OutcomeTerm(phi, p, m, width, o) == Sum(Column(PerspectiveTable(phi, p, m, width), width, o))
  {
    hide Predictive, Weighted, PerspectiveTable, Posterior, EntropyTerms, Perspective;
    var q, w := Predictive(p, m, width, o), Weighted(p, m, width, o);
    var column := Column(PerspectiveTable(phi, p, m, width), width, o);
    forall h | 0 <= h < |p| ensures column[h] == Perspective(phi, q, w[h]) {
      PerspectiveTableAt(phi, p, m, width, o, h);
    }
    if q <= 0.0 {
      forall h | 0 <= h < |p| ensures column[h] == 0.0 {
        PerspectiveOfNothing(phi, q, w[h]);
      }
      SumConstant(column, 0.0);
    } else {
      var terms := EntropyTerms(phi, Posterior(p, m, width, o));
      forall h | 0 <= h < |p| ensures column[h] == Scaled(q, terms)[h] {
        PositiveTerm(phi, p, m, width, o, h);
      }
      assert column == Scaled(q, terms);
      SumScaled(q, terms);
    }
  }

  lemma PerspectiveTableAt(phi: Kernel, p: seq<real>, m: seq<seq<real>>, width: nat, o: nat, h: nat)
    requires Fits(p, m, width) && o < width && h < |p|
    ensures PerspectiveTable(phi, p, m, width)[h][o]
         == Perspective(phi, Predictive(p, m, width, o), Weighted(p, m, width, o)[h])
  {
    hide Perspective, Predictive, Scaled;
    JointColumns(p, m, width, o);
    assert Column(Joint(p, m, width), width, o)[h] == Joint(p, m, width)[h][o];
  }

  lemma PerspectiveOfNothing(phi: Kernel, w: real, a: real)
    requires w <= 0.0
    ensures Perspective(phi, w, a) == 0.0
  {
  }

  lemma PositiveTerm(phi: Kernel, p: seq<real>, m: seq<seq<real>>, width: nat, o: nat, h: nat)
    requires EntropyKernel(phi)
    requires Fits(p, m, width) && RowStochastic(m, width) && IsDistribution(p) && o < width && h < |p|
    requires Predictive(p, m, width, o) > 0.0
    ensures Perspective(phi, Predictive(p, m, width, o), Weighted(p, m, width, o)[h])
         == Predictive(p, m, width, o) * EntropyTerms(phi, Posterior(p, m, width, o))[h]
  {
    JointNonNegative(p, m, width, o);
    DivideAsScale(Weighted(p, m, width, o)[h], Predictive(p, m, width, o));
  }

  /** Expected posterior entropy lies between zero and the current entropy. */
  lemma InformationBounds(phi: Kernel, p: seq<real>, m: seq<seq<real>>, width: nat)
    requires EntropyKernel(phi)
    requires Fits(p, m, width) && RowStochastic(m, width) && IsDistribution(p)
    ensures 0.0 <= ExpectedEntropy(phi, p, m, width) <= Entropy(phi, p)
  {
    hide OutcomeTerm, PerspectiveTable, EntropyTerms, Predictive;
    var table := PerspectiveTable(phi, p, m, width);
    forall o | 0 <= o < width
      ensures OutcomeTerms(phi, p, m, width)[o] == ColumnSums(table, width)[o]
      ensures OutcomeTerms(phi, p, m, width)[o] >= 0.0
    {
      OutcomeTermAsColumn(phi, p, m, width, o);
      OutcomeTermNonNegative(phi, p, m, width, o);
    }
    assert OutcomeTerms(phi, p, m, width) == ColumnSums(table, width);
    SumNonNegative(OutcomeTerms(phi, p, m, width));
    SumSwap(table, width);
    forall h | 0 <= h < |p| ensures RowSums(table)[h] <= EntropyTerms(phi, p)[h] {
      PerspectiveRow(phi, p, m, width, h);
    }
    SumMonotone(RowSums(table), EntropyTerms(phi, p));
  }

  lemma OutcomeTermNonNegative(phi: Kernel, p: seq<real>, m: seq<seq<real>>, width: nat, o: nat)
    requires EntropyKernel(phi)
    requires Fits(p, m, width) && RowStochastic(m, width) && IsDistribution(p) && o < width
    ensures OutcomeTerm(phi, p, m, width, o) >= 0.0
  {
    hide Predictive, Posterior, Entropy;
    if Predictive(p, m, width, o) > 0.0 {
      PosteriorDistribution(p, m, width, o);
      EntropyNonNegative(phi, Posterior(p, m, width, o));
    }
  }

  lemma PerspectiveRow(phi: Kernel, p: seq<real>, m: seq<seq<real>>, width: nat, h: nat)
    requires EntropyKernel(phi)
    requires Fits(p, m, width) && RowStochastic(m, width) && IsDistribution(p) && h < |p|
    ensures Sum(PerspectiveTable(phi, p, m, width)[h]) <= EntropyTerms(phi, p)[h]
  {
    hide Joint, Predictive, Weighted, Perspective, Scaled, Perspectives;
    var q, row := Predictives(p, m, width), Joint(p, m, width)[h];
    JointRowDominated(p, m, width, h);
    PredictiveTotal(p, m, width);
    JointRow(p, m, width, h);
    PerspectiveSum(phi, q, row);
    PerspectiveAtOne(phi, p[h]);
  }

  lemma JointRowDominated(p: seq<real>, m: seq<seq<real>>, width: nat, h: nat)
    requires Fits(p, m, width) && RowStochastic(m, width) && AllNonNegative(p) && h < |p|
    ensures Dominated(Joint(p, m, width)[h], Predictives(p, m, width))
  {
    hide Predictive, Scaled;
    forall o | 0 <= o < width ensures 0.0 <= Joint(p, m, width)[h][o] <= Predictives(p, m, width)[o] {
      JointNonNegative(p, m, width, o);
      JointColumns(p, m, width, o);
      assert Column(Joint(p, m, width), width, o)[h] == Joint(p, m, width)[h][o];
    }
  }

  lemma PerspectiveAtOne(phi: Kernel, a: real)
    ensures Perspective(phi, 1.0, a) == phi(a)
  {
    assert a / 1.0 == a;
  }

  /** An experiment every hypothesis predicts alike teaches nothing. */
  lemma SharedRowsTeachNothing(phi: Kernel, p: seq<real>, m: seq<seq<real>>, width: nat)
    requires EntropyKernel(phi)
    requires Fits(p, m, width) && RowStochastic(m, width) && IsDistribution(p)
    requires forall h :: 0 <= h < |m| ==> m[h] == m[0]
    ensures ExpectedEntropy(phi, p, m, width) == Entropy(phi, p)
  {
    hide OutcomeTerm, Entropy;
    var e := Entropy(phi, p);
    forall o | 0 <= o < width ensures OutcomeTerms(phi, p, m, width)[o] == Scaled(e, m[0])[o] {
      SharedRowOutcome(phi, p, m, width, o);
    }
    assert OutcomeTerms(phi, p, m, width) == Scaled(e, m[0]);
    SumScaled(e, m[0]);
    assert IsDistribution(m[0]);
  }

  lemma SharedRowOutcome(phi: Kernel, p: seq<real>, m: seq<seq<real>>, width: nat, o: nat)
    requires Fits(p, m, width) && RowStochastic(m, width) && IsDistribution(p) && o < width
    requires forall h :: 0 <= h < |m| ==> m[h] == m[0]
    ensures OutcomeTerm(phi, p, m, width, o) == Entropy(phi, p) * m[0][o]
  {
    var w, c := Weighted(p, m, width, o), m[0][o];
    forall h | 0 <= h < |p| ensures w[h] == Scaled(c, p)[h] {
      assert m[h] == m[0];
    }
    assert w == Scaled(c, p);
    SumScaled(c, p);
    assert Predictive(p, m, width, o) == c >= 0.0 by { assert IsDistribution(m[0]); }
    if c > 0.0 {
      ScaledPosterior(p, m, width, o, c);
    }
  }

  lemma ScaledPosterior(p: seq<real>, m: seq<seq<real>>, width: nat, o: nat, c: real)
    requires Fits(p, m, width) && o < width && c > 0.0
    requires Predictive(p, m, width, o) == c
    requires Weighted(p, m, width, o) == Scaled(c, p)
    ensures Posterior(p, m, width, o) == p
  {
    forall h | 0 <= h < |p| ensures Posterior(p, m, width, o)[h] == p[h] {
      assert Scaled(c, p)[h] == c * p[h];
      UndoScale(c, p[h]);
    }
  }

  lemma UndoScale(c: real, x: real)
    requires c > 0.0
    ensures c * x / c == x
  {
  }
}
