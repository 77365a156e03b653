/** `round(x, 12)`: to the nearest multiple of 1e-12, ties to the even multiple. */
module Rounding {

  const TWELVE_DIGITS: real := 1000000000000.0
  const ROUNDING_UNIT: real := 0.000000000001

  function NearestEven(x: real): int {
    var low := x.Floor;
    var rest := x - low as real;
    if rest < 0.5 then low
    else if rest > 0.5 then low + 1
    else if low % 2 == 0 then low
    else low + 1
  }

  function Units(k: int): real {
    k as real * ROUNDING_UNIT
  }

  function Round12(x: real): real {
    Units(NearestEven(x * TWELVE_DIGITS))
  }

  /** A whole number of units. */
  ghost predicate OnGrid(x: real) {
    exists k :: x == Units(k)
  }

  lemma RoundNear(x: real)
    ensures -ROUNDING_UNIT / 2.0 <= Round12(x) - x <= ROUNDING_UNIT / 2.0
  {
    var y := x * TWELVE_DIGITS;
    assert -0.5 <= NearestEven(y) as real - y <= 0.5;
  }

  lemma NearestMonotone(x: real, y: real)
    requires x <= y
    ensures NearestEven(x) <= NearestEven(y)
  {
    assert x.Floor <= y.Floor;
  }

  lemma RoundMonotone(x: real, y: real)
    requires x <= y
    ensures Round12(x) <= Round12(y)
  {
    NearestMonotone(x * TWELVE_DIGITS, y * TWELVE_DIGITS);
  }

  /** Rounding lands on the grid, and leaves exactly the grid alone. */
  lemma RoundFixesGrid(x: real)
    ensures OnGrid(Round12(x))
    ensures Round12(x) == x <==> OnGrid(x)
  {
    assert Round12(x) == Units(NearestEven(x * TWELVE_DIGITS));
    if OnGrid(x) {
      var k :| x == Units(k);
      assert x * TWELVE_DIGITS == k as real;
      assert (k as real).Floor == k;
    }
  }

  // ----- what rounding means -----

  predicate NearestTo(y: real, k: int) {
    && -0.5 <= y - k as real <= 0.5
    && (y - k as real == 0.5 || y - k as real == -0.5 ==> k % 2 == 0)
  }

  /** `r` is the multiple of the unit nearest to `x`, of two equally near ones the even one. */
  ghost predicate RoundsTo(x: real, r: real) {
    exists k :: r == Units(k) && NearestTo(x * TWELVE_DIGITS, k)
  }

  lemma NearestIsEven(y: real, k: int)
    ensures NearestTo(y, k) <==> k == NearestEven(y)
  {
  }

  lemma RoundsToIff(x: real, r: real)
    ensures RoundsTo(x, r) <==> r == Round12(x)
  {
    var n := NearestEven(x * TWELVE_DIGITS);
    NearestIsEven(x * TWELVE_DIGITS, n);
    assert Round12(x) == Units(n);
    if RoundsTo(x, r) {
      var k :| r == Units(k) && NearestTo(x * TWELVE_DIGITS, k);
      NearestIsEven(x * TWELVE_DIGITS, k);
    }
  }

  lemma RoundSign(x: real)
    ensures x >= 0.0 ==> Round12(x) >= 0.0
    ensures x <= 0.0 ==> Round12(x) <= 0.0
  {
    if x >= 0.0 {
      assert (x * TWELVE_DIGITS).Floor >= 0;
    } else {
      assert (x * TWELVE_DIGITS).Floor < 0;
    }
  }

  lemma RoundMirrored(x: real)
    ensures Round12(-x) == -Round12(x)
  {
    var k := NearestEven(x * TWELVE_DIGITS);
    NearestIsEven(x * TWELVE_DIGITS, k);
    NearestIsEven(-x * TWELVE_DIGITS, -k);
  }
}
