/** The Rational number type of the tutorial: a fraction kept in lowest terms
    with the sign on the numerator, built by a constructor that rejects a zero
    denominator and re-normalised after every arithmetic operator. Integers are
    unbounded here; Kotlin's truncating `/` and `%` are written out as Quot and Rem. */
module Rationals {

  /** The exception the constructor throws. */
  datatype Error = IllegalArgument(message: string)

  datatype Result<T> = Success(value: T) | Failure(error: Error)

  /** The two `val` fields a Rational holds once its `init` block has run. */
  datatype Rational = Rational(numerator: int, denominator: int)

  // ---------------------------------------------------------------------------
  // Integer helpers with Kotlin semantics

  /** Math.abs */
  function Abs(a: int): (r: nat)
    ensures r == a || r == -a
  {
    if a < 0 then -a else a
  }

  /** The local function `sgn` of the constructor. */
  function Sgn(a: int): (r: int)
    ensures r == 0 <==> a == 0
    ensures r > 0 <==> a > 0
    ensures -1 <= r <= 1
  {
    if a > 0 then 1 else if a == 0 then 0 else -1
  }

  /** Dafny's `/` on a non-negative dividend: the sign follows the divisor,
      and a dividend smaller than the divisor gives 0. */
  lemma DivOfNatural(n: int, b: int)
    requires n >= 0 && b != 0
    ensures b > 0 ==> n / b >= 0
    ensures b < 0 ==> n / b <= 0
    ensures n < Abs(b) ==> n / b == 0
  {
  }

  /** Kotlin's `/` on Int: the quotient truncated toward zero. */
  function Quot(a: int, b: int): (q: int)
    requires b != 0
    ensures Abs(a) < Abs(b) ==> q == 0
    ensures Abs(a) >= Abs(b) ==> q != 0
    ensures q == 0 || (q > 0 <==> (a > 0) == (b > 0))
  {
    if a >= 0 then DivOfNatural(a, b); a / b else DivOfNatural(-a, b); -((-a) / b)
  }

  /** Kotlin's `%` on Int: the remainder of the truncated division, carrying the sign of the dividend. */
  function Rem(a: int, b: int): (r: int)
    requires b != 0
    ensures Abs(r) < Abs(b)
    ensures a >= 0 ==> r >= 0
    ensures a <= 0 ==> r <= 0
  {
    if a >= 0 then a % b else -((-a) % b)
  }

  /** Quot and Rem recompose the dividend. */
  lemma QuotRem(a: int, b: int)
    requires b != 0
    ensures a == Quot(a, b) * b + Rem(a, b)
  {
    if a < 0 {
      assert -a == ((-a) / b) * b + (-a) % b;
    }
  }

  /** d divides n (0 divides only 0). */
  predicate Divides(d: int, n: int) {
    if d == 0 then n == 0 else n % Abs(d) == 0
  }

  // ---------------------------------------------------------------------------
  // Small facts of integer arithmetic

  lemma MulSign(g: int, d: int)
    requires g > 0
    ensures d >= 1 ==> g * d >= g
    ensures d <= -1 ==> g * d <= -g
  {
  }

  lemma PositiveFactor(g: int, t: int)
    requires g > 0 && g * t > 0
    ensures t > 0
  {
  }

  lemma CancelFactor(d: int, m: int, n: int)
    requires d > 0 && m * d == n * d
    ensures m == n
  {
  }

  lemma UnitProduct(g: int, k: int)
    requires g >= 0 && g * k == 1
    ensures g == 1
  {
    PositiveFactor(g, k);
    MulSign(g, k);
  }

  lemma DivExact(g: int, k: int)
    requires g > 0
    ensures (g * k) / g == k && (g * k) % g == 0
  {
    var q, r := (g * k) / g, (g * k) % g;
    assert g * k == q * g + r;
    MulSign(g, k - q);
    assert g * (k - q) == g * k - q * g;
  }

  /** Dividing an exact multiple with Kotlin's `/` gives back the cofactor. */
  lemma QuotExact(g: int, k: int)
    requires g > 0
    ensures Quot(g * k, g) == k
  {
    DivExact(g, k);
    DivExact(g, -k);
    assert -(g * k) == g * (-k);
  }

  lemma DividesByCofactor(d: int, n: int, k: int)
    requires n == d * k
    ensures Divides(d, n)
  {
    if d > 0 {
      DivExact(d, k);
    } else if d < 0 {
      assert n == Abs(d) * (-k);
      DivExact(Abs(d), -k);
    }
  }

  lemma CofactorOf(d: int, n: int) returns (k: int)
    requires Divides(d, n)
    ensures n == d * k
  {
    if d == 0 {
      k := 0;
    } else {
      var m := n / Abs(d);
      assert n == m * Abs(d);
      k := if d > 0 then m else -m;
    }
  }

  // ---------------------------------------------------------------------------
  // gcd

  /** The recursive local function `gcd` of the constructor, over Kotlin's `%`. */
  function Gcd(a: int, b: int): (r: int)
    ensures r >= 0
    ensures r == 0 <==> a == 0 && b == 0
    decreases Abs(b)
  {
    if b == 0 then Abs(a) else if a == 0 then Abs(b) else Gcd(b, Rem(a, b))
  }

  lemma Regroup(q: int, g: int, p: int, r: int)
    ensures q * (g * p) + g * r == g * (q * p + r)
  {
  }

  /** Gcd(a, b) divides both arguments; the cofactors are returned. */
  lemma {:induction false} GcdCofactors(a: int, b: int) returns (p: int, q: int)
    ensures a == Gcd(a, b) * p && b == Gcd(a, b) * q
    decreases Abs(b)
  {
    if b == 0 {
      p, q := Sgn(a), 0;
    } else if a == 0 {
      p, q := 0, Sgn(b);
    } else {
      var g, k, r := Gcd(a, b), Quot(a, b), Rem(a, b);
      var p', q' := GcdCofactors(b, r);
      QuotRem(a, b);
      Regroup(k, g, p', q');
      p, q := k * p' + q', p';
    }
  }

  lemma Rebalance(x': int, y': int, q: int, a: int, b: int)
    ensures y' * a + (x' - y' * q) * b == x' * b + y' * (a - q * b)
  {
  }

  /** Bezout's identity, following the recursion of Gcd. */
  lemma {:induction false} Bezout(a: int, b: int) returns (x: int, y: int)
    ensures x * a + y * b == Gcd(a, b)
    decreases Abs(b)
  {
    if b == 0 {
      x, y := Sgn(a), 0;
    } else if a == 0 {
      x, y := 0, Sgn(b);
    } else {
      var k, r := Quot(a, b), Rem(a, b);
      var x', y' := Bezout(b, r);
      QuotRem(a, b);
      Rebalance(x', y', k, a, b);
      x, y := y', x' - y' * k;
    }
  }

  lemma Factor(x: int, y: int, c: int, s: int, t: int)
    ensures x * (c * s) + y * (c * t) == c * (x * s + y * t)
  {
  }

  /** Every common divisor of a and b divides gcd(a, b): it is the greatest one. */
  lemma GcdIsGreatest(a: int, b: int, c: int)
    requires Divides(c, a) && Divides(c, b)
    ensures Divides(c, Gcd(a, b))
  {
    var x, y := Bezout(a, b);
    var s := CofactorOf(c, a);
    var t := CofactorOf(c, b);
    Factor(x, y, c, s, t);
    DividesByCofactor(c, Gcd(a, b), x * s + y * t);
  }

  /** A combination x * a + y * b equal to 1 leaves no common factor. */
  lemma CoprimeByCombination(a: int, b: int, x: int, y: int)
    requires x * a + y * b == 1
    ensures Gcd(a, b) == 1
  {
    var g := Gcd(a, b);
    var p, q := GcdCofactors(a, b);
    Factor(x, y, g, p, q);
    UnitProduct(g, x * p + y * q);
  }

  // ---------------------------------------------------------------------------
  // The normal form

  /** The invariant every constructed Rational keeps: the sign sits on the
      numerator (positive denominator) and the fraction is in lowest terms. */
  predicate IsNormal(r: Rational) {
    r.denominator > 0 && Gcd(r.numerator, r.denominator) == 1
  }

  /** r stands for the fraction n / d. */
  predicate Represents(r: Rational, n: int, d: int) {
    r.numerator * d == n * r.denominator
  }

  /** a and b stand for the same fraction. */
  predicate SameValue(a: Rational, b: Rational) {
    Represents(a, b.numerator, b.denominator)
  }

  lemma SignedCofactor(s: int, g: int, p: int)
    ensures s * (g * p) == g * (s * p)
  {
  }

  lemma CrossProducts(s: int, p: int, g: int, q: int)
    ensures (s * p) * (g * q) == (g * p) * (s * q)
  {
  }

  lemma SignSquared(s: int, x: int, p: int, y: int, q: int)
    requires s == 1 || s == -1
    ensures (s * x) * (s * p) + (s * y) * (s * q) == x * p + y * q
  {
  }

  /** The else-branch of `init`: divide both by their gcd and move the sign of
      the denominator onto the numerator. */
  lemma Normalise(nume: int, denume: int)
    requires nume != 0 && denume != 0
    ensures var g, s := Gcd(nume, denume), Sgn(denume);
            var r := Rational(Quot(s * nume, g), Quot(s * denume, g));
            IsNormal(r) && Represents(r, nume, denume)
  {
    var g, s := Gcd(nume, denume), Sgn(denume);
    var p, q := GcdCofactors(nume, denume);
    var n', d' := s * p, s * q;
    SignedCofactor(s, g, p);
    SignedCofactor(s, g, q);
    QuotExact(g, n');
    QuotExact(g, d');
    assert s * denume > 0;
    PositiveFactor(g, d');
    CrossProducts(s, p, g, q);
    var x, y := Bezout(nume, denume);
    Factor(x, y, g, p, q);
    assert (x * p + y * q) * g == 1 * g;
    CancelFactor(g, x * p + y * q, 1);
    SignSquared(s, x, p, y, q);
    CoprimeByCombination(n', d', s * x, s * y);
  }

  /** Lowest terms: the only positive common divisor of a normal numerator and denominator is 1. */
  lemma NormalIsInLowestTerms(r: Rational, c: int)
    requires IsNormal(r) && c > 0 && Divides(c, r.numerator) && Divides(c, r.denominator)
    ensures c == 1
  {
    GcdIsGreatest(r.numerator, r.denominator, c);
    var k := CofactorOf(c, 1);
    PositiveFactor(c, k);
    MulSign(c, k);
  }

  /** The primary constructor `Rational(nume, denume)`; the infix `gedeeldDoor`
      is the same call. */
  function MakeRational(nume: int, denume: int): (r: Result<Rational>)
    ensures r.Failure? <==> denume == 0
    ensures r.Failure? ==> r.error == IllegalArgument("Denominator must not be zero")
    ensures r.Success? ==> IsNormal(r.value) && Represents(r.value, nume, denume)
    ensures r.Success? && nume == 0 ==> r.value == Rational(0, 1)
  {
    if denume == 0 then
      Failure(IllegalArgument("Denominator must not be zero"))
    else if nume == 0 then
      Success(Rational(0, 1))
    else
      var g, s := Gcd(nume, denume), Sgn(denume);
      Normalise(nume, denume);
      Success(Rational(Quot(s * nume, g), Quot(s * denume, g)))
  }

  lemma EuclidStep(an: int, ad: int, bn: int, bd: int, x: int, y: int)
    requires x * an + y * ad == 1 && an * bd == bn * ad
    ensures bd == ad * (x * bn + y * bd)
  {
    calc {
      bd;
      bd * (x * an + y * ad);
      x * (an * bd) + y * ad * bd;
      x * (bn * ad) + y * ad * bd;
      ad * (x * bn + y * bd);
    }
  }

  /** A normal denominator is the least positive denominator of its value. */
  lemma DenominatorIsLeast(a: Rational, b: Rational)
    requires IsNormal(a) && b.denominator > 0 && SameValue(a, b)
    ensures a.denominator <= b.denominator
  {
    var x, y := Bezout(a.numerator, a.denominator);
    var k := x * b.numerator + y * b.denominator;
    EuclidStep(a.numerator, a.denominator, b.numerator, b.denominator, x, y);
    PositiveFactor(a.denominator, k);
    MulSign(a.denominator, k);
  }

  /** Two normal rationals of the same value are the same pair of fields. */
  lemma NormalFormIsUnique(a: Rational, b: Rational)
    requires IsNormal(a) && IsNormal(b) && SameValue(a, b)
    ensures a == b
  {
    DenominatorIsLeast(a, b);
    DenominatorIsLeast(b, a);
    CancelFactor(a.denominator, a.numerator, b.numerator);
  }

  /** Normalising a rational that is already normal changes nothing. */
  lemma NormaliseIsIdempotent(x: Rational)
    requires IsNormal(x)
    ensures MakeRational(x.numerator, x.denominator) == Success(x)
  {
    NormalFormIsUnique(MakeRational(x.numerator, x.denominator).value, x);
  }

  /** The secondary constructor `Rational(i)`, which is `Rational(i, 1)`. */
  function FromInt(i: int): (r: Result<Rational>)
    ensures r == Success(Rational(i, 1))
  {
    CoprimeByCombination(i, 1, 0, 1);
    NormaliseIsIdempotent(Rational(i, 1));
    MakeRational(i, 1)
  }

  // ---------------------------------------------------------------------------
  // equals and the operators

  /** `equals`: field-wise comparison (the identity shortcut and the class
      check do not change the outcome between two Rationals). */
  function Equals(a: Rational, b: Rational): (eq: bool)
    ensures eq <==> a == b
  {
    a.numerator == b.numerator && a.denominator == b.denominator
  }

  /** On constructed values `equals` coincides with equality of value. */
  lemma EqualsIsSameValue(a: Rational, b: Rational)
    requires IsNormal(a) && IsNormal(b)
    ensures Equals(a, b) <==> SameValue(a, b)
  {
    if SameValue(a, b) {
      NormalFormIsUnique(a, b);
    }
  }

  /** operator plus */
  function Plus(x: Rational, y: Rational): (r: Result<Rational>)
    ensures r.Failure? <==> x.denominator * y.denominator == 0
    ensures r.Success? ==>
              IsNormal(r.value) &&
              Represents(r.value, x.numerator * y.denominator + x.denominator * y.numerator,
                         x.denominator * y.denominator)
  {
    MakeRational(x.numerator * y.denominator + x.denominator * y.numerator, x.denominator * y.denominator)
  }

  /** operator minus */
  function Minus(x: Rational, y: Rational): (r: Result<Rational>)
    ensures r.Failure? <==> x.denominator * y.denominator == 0
    ensures r.Success? ==>
              IsNormal(r.value) &&
              Represents(r.value, x.numerator * y.denominator - x.denominator * y.numerator,
                         x.denominator * y.denominator)
  {
    MakeRational(x.numerator * y.denominator - x.denominator * y.numerator, x.denominator * y.denominator)
  }

  /** operator times */
  function Times(x: Rational, y: Rational): (r: Result<Rational>)
    ensures r.Failure? <==> x.denominator * y.denominator == 0
    ensures r.Success? ==>
              IsNormal(r.value) &&
              Represents(r.value, x.numerator * y.numerator, x.denominator * y.denominator)
  {
    MakeRational(x.numerator * y.numerator, x.denominator * y.denominator)
  }

  /** operator div: the new denominator is x.denominator * y.numerator, so
      dividing by a zero rational throws. */
  function Div(x: Rational, y: Rational): (r: Result<Rational>)
    ensures r.Failure? <==> x.denominator * y.numerator == 0
    ensures r.Success? ==>
              IsNormal(r.value) &&
              Represents(r.value, x.numerator * y.denominator, x.denominator * y.numerator)
  {
    MakeRational(x.numerator * y.denominator, x.denominator * y.numerator)
  }

  /** operator unaryMinus */
  function Neg(x: Rational): (r: Result<Rational>)
    ensures r.Failure? <==> x.denominator == 0
    ensures r.Success? ==> IsNormal(r.value) && Represents(r.value, -x.numerator, x.denominator)
  {
    MakeRational(-x.numerator, x.denominator)
  }

  // ---------------------------------------------------------------------------
  // What the operators do on constructed values

  lemma ZeroProduct(a: int, b: int)
    requires a > 0
    ensures a * b == 0 <==> b == 0
    ensures b > 0 ==> a * b > 0
  {
  }

  /** plus, minus and times of constructed values never throw; div throws
      exactly when the divisor is zero. */
  lemma OnlyDivisionByZeroFails(x: Rational, y: Rational)
    requires IsNormal(x) && IsNormal(y)
    ensures Plus(x, y).Success? && Minus(x, y).Success? && Times(x, y).Success?
    ensures Div(x, y).Failure? <==> y.numerator == 0
  {
    ZeroProduct(x.denominator, y.denominator);
    ZeroProduct(x.denominator, y.numerator);
  }

  lemma NegatedCombination(a: int, n: int, b: int, d: int)
    requires a * n + b * d == 1
    ensures (-a) * (-n) + b * d == 1
  {
  }

  lemma NegatedIsNormal(x: Rational)
    requires IsNormal(x)
    ensures IsNormal(Rational(-x.numerator, x.denominator))
  {
    var a, b := Bezout(x.numerator, x.denominator);
    NegatedCombination(a, x.numerator, b, x.denominator);
    CoprimeByCombination(-x.numerator, x.denominator, -a, b);
  }

  /** unaryMinus negates the numerator and keeps the denominator. */
  lemma NegNegatesNumerator(x: Rational)
    requires IsNormal(x)
    ensures Neg(x) == Success(Rational(-x.numerator, x.denominator))
  {
    var y := Rational(-x.numerator, x.denominator);
    NegatedIsNormal(x);
    var r := Neg(x);
    assert r.Success? && SameValue(r.value, y);
    NormalFormIsUnique(r.value, y);
  }

  /** Negating twice gives the value back. */
  lemma NegIsInvolution(x: Rational)
    requires IsNormal(x)
    ensures Neg(x).Success? && Neg(Neg(x).value) == Success(x)
  {
    NegNegatesNumerator(x);
    NegNegatesNumerator(Neg(x).value);
  }

  /** x + (-x) is zero, in its normal form 0/1. */
  lemma PlusNegIsZero(x: Rational)
    requires IsNormal(x)
    ensures Neg(x).Success? && Plus(x, Neg(x).value) == Success(Rational(0, 1))
  {
    NegNegatesNumerator(x);
    assert x.numerator * x.denominator + x.denominator * (-x.numerator) == 0;
    ZeroProduct(x.denominator, x.denominator);
  }

  lemma SubtractionAsAddition(a: int, b: int, c: int, d: int)
    ensures a * b + c * (-d) == a * b - c * d
  {
  }

  /** minus is plus of the negation. */
  lemma MinusIsPlusNeg(x: Rational, y: Rational)
    requires IsNormal(y)
    ensures Neg(y).Success? && Minus(x, y) == Plus(x, Neg(y).value)
  {
    NegNegatesNumerator(y);
    var ny := Neg(y).value;
    assert ny == Rational(-y.numerator, y.denominator);
    SubtractionAsAddition(x.numerator, y.denominator, x.denominator, y.numerator);
    assert Plus(x, ny) == MakeRational(x.numerator * y.denominator - x.denominator * y.numerator,
                                       x.denominator * y.denominator);
  }

  /** Zero is the identity of plus and one the identity of times. */
  lemma Identities(x: Rational)
    requires IsNormal(x)
    ensures Plus(x, Rational(0, 1)) == Success(x)
    ensures Times(x, Rational(1, 1)) == Success(x)
  {
    NormaliseIsIdempotent(x);
  }

  lemma DivTimesAlgebra(tn: int, td: int, qn: int, qd: int, xn: int, xd: int, yn: int, yd: int)
    requires qn * (xd * yn) == (xn * yd) * qd
    requires tn * (qd * yd) == (qn * yn) * td
    ensures (tn * xd) * (qd * yd) == (xn * td) * (qd * yd)
  {
    calc {
      (tn * xd) * (qd * yd);
      (tn * (qd * yd)) * xd;
      ((qn * yn) * td) * xd;
      (qn * (xd * yn)) * td;
      ((xn * yd) * qd) * td;
      (xn * td) * (qd * yd);
    }
  }

  /** Dividing by a non-zero y and then multiplying by y gives x back. */
  lemma DivThenTimes(x: Rational, y: Rational)
    requires IsNormal(x) && IsNormal(y) && y.numerator != 0
    ensures Div(x, y).Success?
    ensures Times(Div(x, y).value, y) == Success(x)
  {
    OnlyDivisionByZeroFails(x, y);
    var q := Div(x, y).value;
    OnlyDivisionByZeroFails(q, y);
    var t := Times(q, y).value;
    DivTimesAlgebra(t.numerator, t.denominator, q.numerator, q.denominator,
                    x.numerator, x.denominator, y.numerator, y.denominator);
    ZeroProduct(q.denominator, y.denominator);
    CancelFactor(q.denominator * y.denominator, t.numerator * x.denominator, x.numerator * t.denominator);
    NormalFormIsUnique(t, x);
  }

  /** The unit tests of RationalsTest, stated over the model. */
  lemma RationalsTestCases()
    ensures MakeRational(5, 0).Failure?
    ensures MakeRational(8, 2) == Success(Rational(4, 1))
    ensures MakeRational(8, -2) == Success(Rational(-4, 1))
    ensures MakeRational(-8, 2) == Success(Rational(-4, 1))
    ensures MakeRational(-8, -2) == Success(Rational(4, 1))
    ensures MakeRational(0, 5) == Success(Rational(0, 1))
  {
  }

  /** The test `aritmetic2`: (24 gedeeldDoor 19) / Rational(2) equals Rational(12, 19). */
  lemma DivisionTestCase()
    ensures MakeRational(24, 19) == Success(Rational(24, 19))
    ensures MakeRational(12, 19) == Success(Rational(12, 19))
    ensures Div(Rational(24, 19), FromInt(2).value) == Success(Rational(12, 19))
  {
    CoprimeByCombination(24, 19, 4, -5);
    NormaliseIsIdempotent(Rational(24, 19));
    CoprimeByCombination(12, 19, 8, -5);
    NormaliseIsIdempotent(Rational(12, 19));
    assert Div(Rational(24, 19), Rational(2, 1)) == MakeRational(24, 38);
    NormalFormIsUnique(MakeRational(24, 38).value, Rational(12, 19));
  }

  /** The test `negation`: -Rational(3, 5) equals Rational(-3, 5). */
  lemma NegationTestCase()
    ensures MakeRational(-3, 5) == Success(Rational(-3, 5))
    ensures Neg(Rational(3, 5)) == MakeRational(-3, 5)
  {
    CoprimeByCombination(3, 5, 2, -1);
    NegNegatesNumerator(Rational(3, 5));
    CoprimeByCombination(-3, 5, -2, -1);
    NormaliseIsIdempotent(Rational(-3, 5));
  }
}
