/** Greatest common divisors and the reduction of a weight vector by its divisor. */
module GcdReduction {

  function Gcd(a: nat, b: nat): nat
    decreases b
  {
    if b == 0 then a else Gcd(b, a % b)
  }

  /** `reduce(gcd, s)`. */
  function GcdAll(s: seq<nat>): nat
    requires |s| > 0
  {
    if |s| == 1 then s[0] else Gcd(GcdAll(s[..|s| - 1]), s[|s| - 1])
  }

  predicate AllZero(s: seq<nat>) {
    forall i :: 0 <= i < |s| ==> s[i] == 0
  }

  function Times(k: nat, s: seq<nat>): (r: seq<nat>)
    ensures |r| == |s|
  {
    seq(|s|, i requires 0 <= i < |s| => k * s[i])
  }

  /** Every weight divided by the common divisor. */
  function Reduce(s: seq<nat>): (r: seq<nat>)
    requires |s| > 0 && GcdAll(s) > 0
    ensures |r| == |s|
  {
    seq(|s|, i requires 0 <= i < |s| => s[i] / GcdAll(s))
  }

  ghost predicate Divides(d: nat, n: nat) {
    exists k: nat :: n == d * k
  }

  lemma ModTimes(k: nat, a: nat, b: nat)
    requires k > 0 && b > 0
    ensures k * b > 0 && (k * a) % (k * b) == k * (a % b)
  {
    var q, r := a / b, a % b;
    assert k * b > 0;
    assert k * a == (k * b) * q + k * r by {
      assert a == b * q + r;
      assert k * (b * q + r) == k * (b * q) + k * r;
      assert k * (b * q) == (k * b) * q;
    }
    assert 0 <= k * r < k * b;
    UniqueRemainder(k * a, k * b, q, k * r);
  }

  lemma UniqueRemainder(n: nat, d: nat, q: nat, r: nat)
    requires d > 0 && r < d && n == d * q + r
    ensures n % d == r && n / d == q
  {
    var q', r' := n / d, n % d;
    assert n == d * q' + r';
    assert d * (q - q') == r' - r;
    SmallMultiple(d, q - q');
  }

  lemma SmallMultiple(d: int, e: int)
    requires d > 0
    ensures e > 0 ==> d * e >= d
    ensures e < 0 ==> d * e <= -d
  {
  }

  lemma CancelFactor(g: nat, x: nat, y: nat)
    requires g > 0 && g * x == g * y
    ensures x == y
  {
    assert g * (x - y) == 0;
    SmallMultiple(g, x - y);
  }

  lemma {:induction false} GcdTimes(k: nat, a: nat, b: nat)
    requires k > 0
    ensures Gcd(k * a, k * b) == k * Gcd(a, b)
    decreases b
  {
    if b != 0 {
      ModTimes(k, a, b);
      GcdTimes(k, b, a % b);
    }
  }

  lemma {:induction false} GcdDivides(a: nat, b: nat)
    ensures Divides(Gcd(a, b), a) && Divides(Gcd(a, b), b)
    ensures Gcd(a, b) == 0 <==> a == 0 && b == 0
    decreases b
  {
    if b == 0 {
      assert a == a * 1 && b == a * 0;
    } else {
      GcdDivides(b, a % b);
      var g := Gcd(b, a % b);
      DividesCombination(g, b, a % b, a / b);
      assert Divides(g, a) by { assert a == b * (a / b) + a % b; }
    }
  }

  lemma DividesCombination(g: nat, b: nat, r: nat, q: nat)
    requires Divides(g, b) && Divides(g, r)
    ensures Divides(g, b * q + r)
  {
    var k: nat :| b == g * k;
    var l: nat :| r == g * l;
    calc {
      b * q + r;
      g * k * q + g * l;
      g * (k * q) + g * l;
      g * (k * q + l);
    }
  }

  lemma DividesTransitively(c: nat, d: nat, n: nat)
    requires Divides(c, d) && Divides(d, n)
    ensures Divides(c, n)
  {
    var k: nat :| d == c * k;
    var l: nat :| n == d * l;
    assert n == c * (k * l);
  }

  /** Every common divisor of two numbers divides their gcd. */
  lemma {:induction false} GcdGreatest(d: nat, a: nat, b: nat)
    requires Divides(d, a) && Divides(d, b)
    ensures Divides(d, Gcd(a, b))
    decreases b
  {
    if b != 0 {
      DividesRemainder(d, a, b);
      GcdGreatest(d, b, a % b);
    }
  }

  lemma DividesRemainder(d: nat, a: nat, b: nat)
    requires Divides(d, a) && Divides(d, b) && b > 0
    ensures Divides(d, a % b)
  {
    var k: nat :| a == d * k;
    var l: nat :| b == d * l;
    PositiveFactors(d, l);
    ModTimes(d, k, l);
  }

  lemma PositiveFactors(x: nat, y: nat)
    requires x * y > 0
    ensures x > 0 && y > 0
  {
  }

  /** The divisor is greatest: every number that divides all weights divides it. */
  lemma {:induction false} GcdAllGreatest(d: nat, s: seq<nat>)
    requires |s| > 0 && forall i :: 0 <= i < |s| ==> Divides(d, s[i])
    ensures Divides(d, GcdAll(s))
  {
    var n := |s| - 1;
    if n > 0 {
      forall i | 0 <= i < n ensures Divides(d, s[..n][i]) {
        assert Divides(d, s[i]);
      }
      GcdAllGreatest(d, s[..n]);
      GcdGreatest(d, GcdAll(s[..n]), s[n]);
    }
  }

  /** The divisor divides every weight, and vanishes only for all-zero weights. */
  lemma {:induction false} GcdAllDivides(s: seq<nat>)
    requires |s| > 0
    ensures forall i :: 0 <= i < |s| ==> Divides(GcdAll(s), s[i])
    ensures GcdAll(s) == 0 <==> AllZero(s)
  {
    var n := |s| - 1;
    if n == 0 {
      assert s[0] == s[0] * 1;
    } else {
      GcdAllDivides(s[..n]);
      var g, h := GcdAll(s), GcdAll(s[..n]);
      GcdDivides(h, s[n]);
      forall i | 0 <= i < |s| ensures Divides(g, s[i]) {
        if i < n {
          assert s[..n][i] == s[i];
          DividesTransitively(g, h, s[i]);
        }
      }
      assert AllZero(s) <==> AllZero(s[..n]) && s[n] == 0;
    }
  }

  lemma {:induction false} GcdAllTimes(k: nat, s: seq<nat>)
    requires |s| > 0 && k > 0
    ensures GcdAll(Times(k, s)) == k * GcdAll(s)
  {
    var n := |s| - 1;
    if n > 0 {
      GcdAllTimes(k, s[..n]);
      assert Times(k, s)[..n] == Times(k, s[..n]);
      GcdTimes(k, GcdAll(s[..n]), s[n]);
    }
  }

  lemma TimesReduce(s: seq<nat>)
    requires |s| > 0 && GcdAll(s) > 0
    ensures Times(GcdAll(s), Reduce(s)) == s
  {
    var g := GcdAll(s);
    GcdAllDivides(s);
    forall i | 0 <= i < |s| ensures g * (s[i] / g) == s[i] {
      var k: nat :| s[i] == g * k;
      UniqueRemainder(s[i], g, k, 0);
    }
  }

  /** Reduced weights have no common divisor left. */
  lemma ReducedGcd(s: seq<nat>)
    requires |s| > 0 && GcdAll(s) > 0
    ensures GcdAll(Reduce(s)) == 1
  {
    var g := GcdAll(s);
    TimesReduce(s);
    GcdAllTimes(g, Reduce(s));
    CancelFactor(g, 1, GcdAll(Reduce(s)));
  }

  /** Reduction forgets exactly the common factor. */
  lemma ReduceTimes(k: nat, s: seq<nat>)
    requires |s| > 0 && GcdAll(s) > 0 && k > 0
    ensures GcdAll(Times(k, s)) > 0
    ensures Reduce(Times(k, s)) == Reduce(s)
  {
    TimesPositive(k, s);
    forall i | 0 <= i < |s| ensures Reduce(Times(k, s))[i] == Reduce(s)[i] {
      ReduceTimesAt(k, s, i);
    }
  }

  lemma TimesPositive(k: nat, s: seq<nat>)
    requires |s| > 0 && GcdAll(s) > 0 && k > 0
    ensures GcdAll(Times(k, s)) > 0
  {
    GcdAllTimes(k, s);
    SmallMultiple(k, GcdAll(s));
  }

  lemma ReduceTimesAt(k: nat, s: seq<nat>, i: nat)
    requires i < |s| && GcdAll(s) > 0 && k > 0
    requires GcdAll(Times(k, s)) > 0
    ensures Reduce(Times(k, s))[i] == Reduce(s)[i]
  {
    var g, q := GcdAll(s), Reduce(s)[i];
    GcdAllTimes(k, s);
    TimesReduce(s);
    assert Times(g, Reduce(s))[i] == g * q;
    CancelQuotient(k, g, s[i], q);
  }

  lemma CancelQuotient(k: nat, g: nat, n: nat, q: nat)
    requires k * g > 0 && n == g * q
    ensures (k * n) / (k * g) == q
  {
    assert k * n == (k * g) * q + 0;
    UniqueRemainder(k * n, k * g, q, 0);
  }

  lemma ReduceOfReduced(s: seq<nat>)
    requires |s| > 0 && GcdAll(s) == 1
    ensures Reduce(s) == s
  {
  }
}
