/**
 * Integer and tolerance helpers of src/vmcmc/numeric.hpp, and the clamp
 * `numeric::constrain` that the parameter list applies to correlations
 * (modelled from its test, test/math-test.cpp).
 */
module Numeric {

  function Abs(x: int): (r: nat)
    ensures r == x || r == -x
  {
    if x < 0 then -x else x
  }

  function AbsReal(x: real): (r: real)
    ensures r >= 0.0 && (r == x || r == -x)
  {
    if x < 0.0 then -x else x
  }

  /** C++ integer division, which truncates toward zero (Dafny's `/` is Euclidean). */
  function TruncDiv(a: int, b: int): (q: int)
    requires b > 0
    ensures Abs(q) == Abs(a) / b
    ensures a >= 0 ==> q >= 0
    ensures a <= 0 ==> q <= 0
  {
    if a >= 0 then a / b else DivNonnegative(-a, b); -((-a) / b)
  }

  lemma DivNonnegative(a: int, b: int)
    requires a >= 0 && b > 0
    ensures a / b >= 0
  {
  }

  function Pow10(e: nat): (r: nat)
    ensures r >= 1
  {
    if e == 0 then 1 else 10 * Pow10(e - 1)
  }

  /** The number of decimal digits of a positive magnitude (0 for 0). */
  function Digits(m: nat): (d: nat)
  {
    if m == 0 then 0 else 1 + Digits(m / 10)
  }

  /** `Digits(m)` is the d with 10^(d-1) <= m < 10^d. */
  lemma {:induction false} DigitsBounds(m: nat)
    requires m > 0
    ensures Digits(m) >= 1
    ensures Pow10(Digits(m) - 1) <= m < Pow10(Digits(m))
  {
    if m >= 10 {
      DigitsBounds(m / 10);
    }
  }

  /** The digit count is the only d >= 1 with 10^(d-1) <= m < 10^d. */
  lemma {:induction false} DigitsUnique(m: nat, d: nat)
    requires d >= 1 && Pow10(d - 1) <= m < Pow10(d)
    ensures Digits(m) == d
  {
    if d > 1 {
      DigitsUnique(m / 10, d - 1);
    } else {
      assert m < 10;
    }
  }

  /**
   * numberOfDigits: 1 for 0, otherwise one more for every truncating
   * division by 10 until the number reaches 0. The result depends on |number|
   * only, so negating the argument does not change it.
   */
  method NumberOfDigits(number: int) returns (nDigits: int)
    ensures number == 0 ==> nDigits == 1
    ensures number != 0 ==> nDigits == Digits(Abs(number))
    ensures nDigits >= 1
    ensures number != 0 ==> Pow10(nDigits - 1) <= Abs(number) < Pow10(nDigits)
  {
    if number == 0 {
      return 1;
    }
    nDigits := 0;
    var n := number;
    while n != 0
      invariant nDigits >= 0
      invariant nDigits + Digits(Abs(n)) == Digits(Abs(number))
      decreases Abs(n)
    {
      nDigits := nDigits + 1;
      n := TruncDiv(n, 10);
    }
    DigitsBounds(Abs(number));
  }

  /** numberOfDigits(-n) == numberOfDigits(n), stated on the specification of its result. */
  lemma DigitsOfNegation(n: int)
    ensures Digits(Abs(-n)) == Digits(Abs(n))
  {
  }

  /**
   * approxEqual: |a - b| is within epsilon times the larger magnitude. Equal
   * values pass for every epsilon >= 0; with epsilon 0 only equal values pass.
   */
  predicate ApproxEqual(a: real, b: real, epsilon: real): (r: bool)
    ensures a == b && epsilon >= 0.0 ==> r
    ensures epsilon == 0.0 ==> (r <==> a == b)
  {
    AbsReal(a - b) <= (if AbsReal(a) < AbsReal(b) then AbsReal(b) else AbsReal(a)) * epsilon
  }

  /**
   * essentEqual: |a - b| is within epsilon times the smaller magnitude. Equal
   * values pass for every epsilon >= 0; with epsilon 0 only equal values pass.
   */
  predicate EssentEqual(a: real, b: real, epsilon: real): (r: bool)
    ensures a == b && epsilon >= 0.0 ==> r
    ensures epsilon == 0.0 ==> (r <==> a == b)
  {
    AbsReal(a - b) <= (if AbsReal(a) > AbsReal(b) then AbsReal(b) else AbsReal(a)) * epsilon
  }

  function Max(x: real, y: real): (m: real) { if x < y then y else x }

  function Min(x: real, y: real): (m: real) { if x < y then x else y }

  function MaxNat(x: nat, y: nat): (m: nat) { if x < y then y else x }

  function MinNat(x: nat, y: nat): (m: nat) { if x < y then x else y }

  /** approxEqual scales by max(|a|, |b|): it does not depend on the order of a and b. */
  lemma ApproxEqualScale(a: real, b: real, epsilon: real)
    ensures ApproxEqual(a, b, epsilon) <==> AbsReal(a - b) <= Max(AbsReal(a), AbsReal(b)) * epsilon
    ensures ApproxEqual(a, b, epsilon) <==> ApproxEqual(b, a, epsilon)
  {
    assert AbsReal(a - b) == AbsReal(b - a);
  }

  lemma EssentEqualScale(a: real, b: real, epsilon: real)
    ensures EssentEqual(a, b, epsilon) <==> AbsReal(a - b) <= Min(AbsReal(a), AbsReal(b)) * epsilon
    ensures EssentEqual(a, b, epsilon) <==> EssentEqual(b, a, epsilon)
  {
    assert AbsReal(a - b) == AbsReal(b - a);
  }

  lemma ApproxEqualReflexive(a: real, epsilon: real)
    requires epsilon >= 0.0
    ensures ApproxEqual(a, a, epsilon)
  {
    assert AbsReal(a) * epsilon >= 0.0;
  }

  /** With a zero tolerance both comparisons are plain equality. */
  lemma ZeroTolerance(a: real, b: real)
    ensures ApproxEqual(a, b, 0.0) <==> a == b
    ensures EssentEqual(a, b, 0.0) <==> a == b
  {
  }

  /** The essent test is the stricter one: it implies the approx test for eps >= 0. */
  lemma EssentImpliesApprox(a: real, b: real, epsilon: real)
    requires epsilon >= 0.0
    ensures EssentEqual(a, b, epsilon) ==> ApproxEqual(a, b, epsilon)
  {
    EssentEqualScale(a, b, epsilon);
    ApproxEqualScale(a, b, epsilon);
    MulMonotone(Min(AbsReal(a), AbsReal(b)), Max(AbsReal(a), AbsReal(b)), epsilon);
  }

  lemma MulMonotone(x: real, y: real, c: real)
    requires x <= y && c >= 0.0
    ensures x * c <= y * c
  {
  }

  /**
   * constrain(value, a, b): clamps into the interval spanned by a and b,
   * whichever of the two is the smaller, as test/math-test.cpp exercises it.
   * SetCorrelation calls it as numeric::constrain with the ordered bounds
   * -1 and 1, where every reading of the bounds gives the same clamp.
   */
  function Constrain(value: real, a: real, b: real): (r: real)
    ensures Min(a, b) <= r <= Max(a, b)
    ensures Min(a, b) <= value <= Max(a, b) ==> r == value
    ensures value < Min(a, b) ==> r == Min(a, b)
    ensures value > Max(a, b) ==> r == Max(a, b)
  {
    var lo := Min(a, b);
    var hi := Max(a, b);
    if value < lo then lo else if value > hi then hi else value
  }

  /** The cases exercised by the Constrain test in test/math-test.cpp. */
  lemma ConstrainTestCases()
    ensures Constrain(15.0, 30.0, 10.0) == 15.0
    ensures Constrain(15.0, 1.0, 10.0) == 10.0
    ensures Constrain(1.0, 5.0, 20.0) == 5.0
    ensures Constrain(255.0, -10.0, -6.0) == -6.0
  {
  }

  /** The product of two positive numbers is positive. */
  lemma MulPositive(a: real, b: real, c: real)
    requires a > 0.0 && b > 0.0 && c == a * b
    ensures c > 0.0
  {
  }

  /** The square of a nonzero number is positive. */
  lemma SquareIsPositive(x: real, c: real)
    requires x != 0.0 && c == x * x
    ensures c > 0.0
  {
    if x < 0.0 {
      MulPositive(-x, -x, c);
    } else {
      MulPositive(x, x, c);
    }
  }

  /** Two positive numbers with the same square are equal. */
  lemma PositiveRootUnique(a: real, b: real)
    requires a > 0.0 && b > 0.0 && a * a == b * b
    ensures a == b
  {
    assert (a - b) * (a + b) == a * a - b * b;
    MulPositive(1.0, a + b, a + b);
  }

  /** A nonzero factor cancels: x c == y c implies x == y. */
  lemma MulCancel(x: real, y: real, c: real)
    requires c != 0.0 && x * c == y * c
    ensures x == y
  {
    assert (x - y) * c == x * c - y * c;
  }
}
