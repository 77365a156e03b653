/** Finite sums of reals, in the order a loop accumulates them. */
module RealSums {

  function Sum(s: seq<real>): real {
    if |s| == 0 then 0.0 else Sum(s[..|s| - 1]) + s[|s| - 1]
  }

  function Scaled(k: real, s: seq<real>): (r: seq<real>)
    ensures |r| == |s|
  {
    seq(|s|, i requires 0 <= i < |s| => k * s[i])
  }

  function Added(a: seq<real>, b: seq<real>): (r: seq<real>)
    requires |a| == |b|
    ensures |r| == |a|
  {
    seq(|a|, i requires 0 <= i < |a| => a[i] + b[i])
  }

  predicate AllNonNegative(s: seq<real>) {
    forall i :: 0 <= i < |s| ==> s[i] >= 0.0
  }

  lemma SumAppend(s: seq<real>, x: real)
    ensures Sum(s + [x]) == Sum(s) + x
  {
    assert (s + [x])[..|s|] == s;
  }

  lemma {:induction false} SumConcat(a: seq<real>, b: seq<real>)
    ensures Sum(a + b) == Sum(a) + Sum(b)
  {
    if |b| == 0 {
      assert a + b == a;
    } else {
      assert (a + b)[..|a + b| - 1] == a + b[..|b| - 1];
      SumConcat(a, b[..|b| - 1]);
    }
  }

  lemma SumPrefix(s: seq<real>, n: nat)
    requires n < |s|
    ensures Sum(s[..n + 1]) == Sum(s[..n]) + s[n]
  {
    assert s[..n + 1] == s[..n] + [s[n]];
    SumAppend(s[..n], s[n]);
  }

  lemma {:induction false} SumAdded(a: seq<real>, b: seq<real>)
    requires |a| == |b|
    ensures Sum(Added(a, b)) == Sum(a) + Sum(b)
  {
    if |a| > 0 {
      var n := |a| - 1;
      SumAdded(a[..n], b[..n]);
      assert Added(a, b)[..n] == Added(a[..n], b[..n]);
    }
  }

  lemma {:induction false} SumScaled(k: real, s: seq<real>)
    ensures Sum(Scaled(k, s)) == k * Sum(s)
  {
    if |s| > 0 {
      var n := |s| - 1;
      SumScaled(k, s[..n]);
      forall i | 0 <= i < n ensures Scaled(k, s)[..n][i] == Scaled(k, s[..n])[i] {
        assert s[..n][i] == s[i];
      }
      assert Scaled(k, s)[..n] == Scaled(k, s[..n]);
    }
  }

  lemma {:induction false} SumMonotone(a: seq<real>, b: seq<real>)
    requires |a| == |b|
    requires forall i :: 0 <= i < |a| ==> a[i] <= b[i]
    ensures Sum(a) <= Sum(b)
  {
    if |a| > 0 {
      var n := |a| - 1;
      SumMonotone(a[..n], b[..n]);
    }
  }

  lemma {:induction false} SumNonNegative(s: seq<real>)
    requires AllNonNegative(s)
    ensures Sum(s) >= 0.0
    ensures forall i :: 0 <= i < |s| ==> s[i] <= Sum(s)
  {
    if |s| > 0 {
      SumNonNegative(s[..|s| - 1]);
      forall i | 0 <= i < |s| ensures s[i] <= Sum(s) {
        if i < |s| - 1 {
          assert s[..|s| - 1][i] == s[i];
        }
      }
    }
  }

  /** A sum of non-negative terms vanishes only when every term does. */
  lemma SumZeroTerms(s: seq<real>)
    requires AllNonNegative(s) && Sum(s) <= 0.0
    ensures forall i :: 0 <= i < |s| ==> s[i] == 0.0
  {
    SumNonNegative(s);
  }

  lemma {:induction false} SumConstant(s: seq<real>, c: real)
    requires forall i :: 0 <= i < |s| ==> s[i] == c
    ensures Sum(s) == |s| as real * c
  {
    if |s| > 0 {
      SumConstant(s[..|s| - 1], c);
    }
  }

  // ----- rectangular tables -----

  predicate Rectangular(m: seq<seq<real>>, width: nat) {
    forall i :: 0 <= i < |m| ==> |m[i]| == width
  }

  function RowSums(m: seq<seq<real>>): (r: seq<real>)
    ensures |r| == |m|
  {
    seq(|m|, i requires 0 <= i < |m| => Sum(m[i]))
  }

  function Column(m: seq<seq<real>>, width: nat, j: nat): (r: seq<real>)
    requires Rectangular(m, width) && j < width
    ensures |r| == |m|
  {
    seq(|m|, i requires 0 <= i < |m| => m[i][j])
  }

  function ColumnSums(m: seq<seq<real>>, width: nat): (r: seq<real>)
    requires Rectangular(m, width)
    ensures |r| == width
  {
    seq(width, j requires 0 <= j < width => Sum(Column(m, width, j)))
  }

  /** Summing a table by rows and by columns gives the same total. */
  lemma {:induction false} SumSwap(m: seq<seq<real>>, width: nat)
    requires Rectangular(m, width)
    ensures Sum(RowSums(m)) == Sum(ColumnSums(m, width))
  {
    if |m| == 0 {
      SumConstant(ColumnSums(m, width), 0.0);
    } else {
      var n := |m| - 1;
      var top, last := m[..n], m[n];
      SumSwap(top, width);
      assert RowSums(m)[..n] == RowSums(top);
      forall j | 0 <= j < width
        ensures Sum(Column(m, width, j)) == Sum(Column(top, width, j)) + last[j]
      {
        assert Column(m, width, j)[..n] == Column(top, width, j);
      }
      assert ColumnSums(m, width) == Added(ColumnSums(top, width), last);
      SumAdded(ColumnSums(top, width), last);
    }
  }
}
