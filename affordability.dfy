/**
 * The largest loan a household can carry: a fixed-rate mortgage over 30 years
 * (360 monthly payments) whose payment is 30% of gross monthly income. The
 * principal is the present value of those payments at the monthly rate.
 */
module Affordability {

  /** Number of monthly payments of a 30-year mortgage. */
  const Term: nat := 30 * 12
  /** Share of gross monthly income that can go to the mortgage payment. */
  const PaymentShare: real := 0.3
  /** Annual nominal rates, in percent, for the two reference years. */
  const Rate2010: real := 4.69
  const Rate2019: real := 3.94

  function Pow(b: real, n: nat): (p: real)
    ensures b > 0.0 ==> p > 0.0
  {
    if n == 0 then 1.0 else b * Pow(b, n - 1)
  }

  lemma {:induction false} PowAboveOne(b: real, n: nat)
    requires b > 1.0 && n > 0
    ensures Pow(b, n) > 1.0
  {
    if n > 1 {
      PowAboveOne(b, n - 1);
      assert b * Pow(b, n - 1) > Pow(b, n - 1);
    }
  }

  lemma {:induction false} PowStrictlyIncreasingInBase(a: real, b: real, n: nat)
    requires 0.0 < a < b && n > 0
    ensures Pow(a, n) < Pow(b, n)
  {
    var pa, pb := Pow(a, n - 1), Pow(b, n - 1);
    if n > 1 {
      PowStrictlyIncreasingInBase(a, b, n - 1);
    }
    MulStrict(a, b, pa, pb);
    assert Pow(a, n) == a * pa && Pow(b, n) == b * pb;
  }

  lemma MulStrict(a: real, b: real, c: real, d: real)
    requires 0.0 < a < b && 0.0 < c <= d
    ensures a * c < b * d
  {
    assert a * c < b * c;
    assert b * c <= b * d;
  }

  /** The monthly rate for an annual rate given in percent. */
  function MonthlyRate(annualPercent: real): real
  {
    annualPercent / 100.0 / 12.0
  }

  /**
   * Present value of a payment of 1 at the end of each of the first `n` months,
   * discounted at monthly rate `r`: the sum of 1 / (1 + r)^k for k = 1..n.
   */
  function DiscountSum(r: real, n: nat): (s: real)
    requires r > 0.0
    ensures n > 0 ==> s > 0.0
  {
    if n == 0 then 0.0 else DiscountSum(r, n - 1) + 1.0 / Pow(1.0 + r, n)
  }

  /** The closed form (1 - (1 + r)^-n) / r is the geometric sum of the discount factors. */
  lemma {:induction false} AnnuityClosedForm(r: real, n: nat)
    requires r > 0.0
    ensures (1.0 - 1.0 / Pow(1.0 + r, n)) / r == DiscountSum(r, n)
  {
    if n > 0 {
      AnnuityClosedForm(r, n - 1);
      GeometricStep(r, Pow(1.0 + r, n - 1), Pow(1.0 + r, n), DiscountSum(r, n - 1), DiscountSum(r, n));
    }
  }

  /** One step of the geometric sum: with p = (1 + r) q, (1 - 1/p) / r exceeds (1 - 1/q) / r by 1/p. */
  lemma GeometricStep(r: real, q: real, p: real, before: real, after: real)
    requires r > 0.0 && q > 0.0 && p == (1.0 + r) * q
    requires (1.0 - 1.0 / q) / r == before && after == before + 1.0 / p
    ensures (1.0 - 1.0 / p) / r == after
  {
    var u, w := 1.0 / q, 1.0 / p;
    assert u * q == 1.0 && w * p == 1.0;
    assert (w * (1.0 + r)) * q == u * q;
    assert w * (1.0 + r) == u;
    assert u - w == r * w;
    assert (1.0 - w) - (1.0 - u) == r * w;
  }

  lemma ReciprocalDecreasing(a: real, b: real)
    requires 0.0 < a < b
    ensures 1.0 / b < 1.0 / a
  {
    assert (1.0 / b) * b == 1.0 == (1.0 / a) * a;
  }

  /** A higher monthly rate discounts every later payment more. */
  lemma {:induction false} DiscountSumDecreasing(r1: real, r2: real, n: nat)
    requires 0.0 < r1 < r2 && n > 0
    ensures DiscountSum(r2, n) < DiscountSum(r1, n)
  {
    PowStrictlyIncreasingInBase(1.0 + r1, 1.0 + r2, n);
    var p1, p2 := Pow(1.0 + r1, n), Pow(1.0 + r2, n);
    ReciprocalDecreasing(p1, p2);
    if n > 1 {
      DiscountSumDecreasing(r1, r2, n - 1);
    }
  }

  /**
   * The principal a household with annual income `x` can borrow at the annual
   * rate `annualPercent`: 30% of monthly income times the annuity factor.
   */
  function MaxLoan(x: real, annualPercent: real): real
    requires annualPercent > 0.0
  {
    var monthlyWage := x / 12.0;
    var r := MonthlyRate(annualPercent);
    var denom := 1.0 - 1.0 / Pow(1.0 + r, Term);
    (denom * PaymentShare * monthlyWage) / r
  }

  /** The principal has the sign of the income. */
  lemma MaxLoanSign(x: real, annualPercent: real)
    requires annualPercent > 0.0
    ensures x > 0.0 ==> MaxLoan(x, annualPercent) > 0.0
    ensures x < 0.0 ==> MaxLoan(x, annualPercent) < 0.0
    ensures x == 0.0 ==> MaxLoan(x, annualPercent) == 0.0
  {
    var r := MonthlyRate(annualPercent);
    PowAboveOne(1.0 + r, Term);
    QuotientSign(Pow(1.0 + r, Term), 1.0 - 1.0 / Pow(1.0 + r, Term), x / 12.0, r);
  }

  /** With a discount factor below one, the principal has the sign of the wage. */
  lemma QuotientSign(p: real, denom: real, w: real, r: real)
    requires p > 1.0 && denom == 1.0 - 1.0 / p && r > 0.0
    ensures w > 0.0 ==> (denom * PaymentShare * w) / r > 0.0
    ensures w < 0.0 ==> (denom * PaymentShare * w) / r < 0.0
    ensures w == 0.0 ==> (denom * PaymentShare * w) / r == 0.0
  {
    assert (1.0 / p) * p == 1.0;
    assert denom > 0.0;
    assert denom * PaymentShare > 0.0;
  }

  /** The principal is the present value of 360 monthly payments of 30% of monthly income. */
  lemma PresentValueOfPayments(x: real, annualPercent: real)
    requires annualPercent > 0.0
    ensures MaxLoan(x, annualPercent) == PaymentShare * (x / 12.0) * DiscountSum(MonthlyRate(annualPercent), Term)
  {
    MaxLoanFactored(x, annualPercent);
    AnnuityClosedForm(MonthlyRate(annualPercent), Term);
  }

  /** The principal is the monthly payment times the closed-form annuity factor. */
  lemma MaxLoanFactored(x: real, annualPercent: real)
    requires annualPercent > 0.0
    ensures var r := MonthlyRate(annualPercent);
            MaxLoan(x, annualPercent) == PaymentShare * (x / 12.0) * ((1.0 - 1.0 / Pow(1.0 + r, Term)) / r)
  {
    var r := MonthlyRate(annualPercent);
    Regroup(1.0 - 1.0 / Pow(1.0 + r, Term), PaymentShare, x / 12.0, r);
  }

  lemma Regroup(a: real, k: real, w: real, r: real)
    requires r != 0.0
    ensures (a * k * w) / r == k * w * (a / r)
  {
  }

  /** Income scales the principal proportionally. */
  lemma MaxLoanLinear(x: real, annualPercent: real)
    requires annualPercent > 0.0
    ensures MaxLoan(x, annualPercent) == x * MaxLoan(1.0, annualPercent)
  {
    PresentValueOfPayments(x, annualPercent);
    PresentValueOfPayments(1.0, annualPercent);
  }

  lemma MaxLoanStrictlyIncreasing(x: real, y: real, annualPercent: real)
    requires annualPercent > 0.0 && x < y
    ensures MaxLoan(x, annualPercent) < MaxLoan(y, annualPercent)
  {
    MaxLoanLinear(x, annualPercent);
    MaxLoanLinear(y, annualPercent);
    MaxLoanSign(1.0, annualPercent);
    ScaleStrict(x * MaxLoan(1.0, annualPercent), y * MaxLoan(1.0, annualPercent), MaxLoan(1.0, annualPercent), x, y);
  }

  /** For a positive income, a higher interest rate affords a strictly smaller loan. */
  lemma MaxLoanDecreasingInRate(x: real, rate1: real, rate2: real)
    requires x > 0.0 && 0.0 < rate1 < rate2
    ensures MaxLoan(x, rate2) < MaxLoan(x, rate1)
  {
    var m1, m2 := MonthlyRate(rate1), MonthlyRate(rate2);
    assert 0.0 < m1 < m2;
    DiscountSumDecreasing(m1, m2, Term);
    PresentValueOfPayments(x, rate1);
    PresentValueOfPayments(x, rate2);
    ScaleStrict(MaxLoan(x, rate2), MaxLoan(x, rate1), PaymentShare * (x / 12.0), DiscountSum(m2, Term), DiscountSum(m1, Term));
  }

  lemma ScaleStrict(l1: real, l2: real, c: real, a: real, b: real)
    requires l1 == c * a && l2 == c * b
    requires c > 0.0 && a < b
    ensures l1 < l2
  {
  }

  /** `calc_house_afford`: the 2010 rate when `interest2010` holds, the 2019 rate otherwise. */
  function CalcHouseAfford(x: real, interest2010: bool): (principal: real)
    ensures principal == MaxLoan(x, if interest2010 then Rate2010 else Rate2019)
    ensures x > 0.0 <==> principal > 0.0
  {
    var interest := if interest2010 then Rate2010 else Rate2019;
    MaxLoanSign(x, interest);
    MaxLoan(x, interest)
  }

  /** `calc_loan_values`: the affordable principal at the 2010 rate. */
  function CalcLoanValues(x: real): (principal: real)
    ensures principal == MaxLoan(x, Rate2010)
    ensures x > 0.0 <==> principal > 0.0
  {
    CalcHouseAfford(x, true)
  }

  /** `calc_loan_values_2019`: the affordable principal at the 2019 rate. */
  function CalcLoanValues2019(x: real): (principal: real)
    ensures principal == MaxLoan(x, Rate2019)
    ensures x > 0.0 <==> principal > 0.0
  {
    CalcHouseAfford(x, false)
  }

  /** A richer household can afford strictly more, in either year. */
  lemma CalcHouseAffordStrictlyIncreasing(x: real, y: real, interest2010: bool)
    requires x < y
    ensures CalcHouseAfford(x, interest2010) < CalcHouseAfford(y, interest2010)
  {
    MaxLoanStrictlyIncreasing(x, y, if interest2010 then Rate2010 else Rate2019);
  }

  /** The lower 2019 rate lets the same positive income borrow more than in 2010. */
  lemma LowerRate2019AffordsMore(x: real)
    requires x > 0.0
    ensures CalcLoanValues2019(x) > CalcLoanValues(x)
  {
    MaxLoanDecreasingInRate(x, Rate2019, Rate2010);
  }
}
