/**
 * Small per-row and per-column indicators: the middle-income flag, the share
 * of ones in a 0/1 column, and the rounded percent change between two figures.
 */
module Indicators {
  import opened Seqs
  import opened Floats
  import opened JoinedLoans

  /** Income above the 80% band and at most the 120% band: the middle-income test. */
  predicate IsMiddleIncome(income: JoinedLoan -> real, l: JoinedLoan)
  {
    l.ami80 < income(l) <= l.ami120
  }

  function MiddleIncomeFlag(income: JoinedLoan -> real): JoinedLoan -> int
  {
    l => if IsMiddleIncome(income, l) then 1 else 0
  }

  /** `middle_income`: a 0/1 column, 1 exactly on the rows whose income is in (80% AMI, 120% AMI]. */
  function MiddleIncome(rows: seq<JoinedLoan>, income: JoinedLoan -> real): (flags: seq<int>)
    ensures |flags| == |rows|
    ensures forall i :: 0 <= i < |rows| ==>
      (flags[i] == 1 <==> rows[i].ami80 < income(rows[i]) <= rows[i].ami120) &&
      (flags[i] == 0 <==> !(rows[i].ami80 < income(rows[i]) <= rows[i].ami120))
  {
    Map(rows, MiddleIncomeFlag(income))
  }

  function Sum(s: seq<int>): int
  {
    if s == [] then 0 else Sum(s[..|s| - 1]) + s[|s| - 1]
  }

  predicate IsBinary(s: seq<int>)
  {
    forall i :: 0 <= i < |s| ==> s[i] == 0 || s[i] == 1
  }

  lemma {:induction false} SumOfBinary(s: seq<int>)
    requires IsBinary(s)
    ensures 0 <= Sum(s) <= |s|
  {
    if s != [] {
      SumOfBinary(s[..|s| - 1]);
    }
  }

  /** `calc_percent_binary_col`: sum over length; an empty column gives NaN (0 / 0). */
  function CalcPercentBinaryCol(column: seq<int>): (share: Float)
    ensures share.Finite? <==> |column| > 0
    ensures share.Finite? ==> share.value * |column| as real == Sum(column) as real
    ensures |column| == 0 ==> share == NaN
  {
    Divide(Sum(column) as real, |column| as real)
  }

  /** The share of ones in a non-empty 0/1 column lies between 0 and 1. */
  lemma BinaryShareBounded(column: seq<int>)
    requires IsBinary(column) && |column| > 0
    ensures 0.0 <= CalcPercentBinaryCol(column).value <= 1.0
  {
    SumOfBinary(column);
    var sum, n := Sum(column) as real, |column| as real;
    assert CalcPercentBinaryCol(column).value == sum / n;
    assert 0.0 <= sum / n by { assert 0.0 <= sum && 0.0 < n; }
    assert sum / n <= 1.0 by { assert sum <= n; }
  }

  /** Summing the middle-income flags counts the middle-income rows. */
  lemma {:induction false} SumOfMiddleIncome(rows: seq<JoinedLoan>, income: JoinedLoan -> real)
    ensures Sum(MiddleIncome(rows, income)) == |Filter(rows, (l: JoinedLoan) => IsMiddleIncome(income, l))|
  {
    if rows != [] {
      var init := rows[..|rows| - 1];
      SumOfMiddleIncome(init, income);
      assert MiddleIncome(rows, income)[..|init|] == MiddleIncome(init, income);
    }
  }

  /** The share computed from `middle_income` is the fraction of rows in the middle-income band. */
  lemma MiddleIncomeShare(rows: seq<JoinedLoan>, income: JoinedLoan -> real)
    requires |rows| > 0
    ensures CalcPercentBinaryCol(MiddleIncome(rows, income))
      == Finite(|Filter(rows, (l: JoinedLoan) => IsMiddleIncome(income, l))| as real / |rows| as real)
  {
    SumOfMiddleIncome(rows, income);
  }

  /** `percent_change`: 100 (figure2 - figure1) / figure1 rounded to two decimals; inf or NaN for a zero baseline. */
  function PercentChange(figure1: real, figure2: real): (change: Float)
    ensures change.Finite? <==> figure1 != 0.0
    ensures change.Finite? ==> -0.005 <= change.value - (figure2 - figure1) / figure1 * 100.0 <= 0.005
    ensures change.Finite? ==> change.value == Round2((figure2 - figure1) / figure1 * 100.0)
    ensures figure1 == 0.0 ==>
      && (change == PosInf <==> figure2 > 0.0) && (change == NegInf <==> figure2 < 0.0)
      && (change == NaN <==> figure2 == 0.0)
  {
    var pctChange := Divide(figure2 - figure1, figure1);
    assert pctChange.Finite? ==> pctChange.value == (figure2 - figure1) / figure1;
    var scaled := match pctChange case Finite(v) => Finite(v * 100.0) case other => other;
    RoundFloat2(scaled)
  }

  /** Going from 10 to 15 is a change of 50.0 percent. */
  lemma PercentChangeExample()
    ensures PercentChange(10.0, 15.0) == Finite(50.0)
  {
    assert (15.0 - 10.0) / 10.0 * 100.0 == 50.0;
    RoundHalfEvenOfInt(5000);
    assert 50.0 * 100.0 == 5000 as real;
  }

  /** Against the same positive baseline, a larger later figure never shows a smaller change. */
  lemma PercentChangeMonotone(figure1: real, figure2: real, figure2': real)
    requires figure1 > 0.0 && figure2 <= figure2'
    ensures PercentChange(figure1, figure2).value <= PercentChange(figure1, figure2').value
  {
    var v, v' := (figure2 - figure1) / figure1 * 100.0, (figure2' - figure1) / figure1 * 100.0;
    assert (figure2 - figure1) / figure1 <= (figure2' - figure1) / figure1;
    Round2Monotone(v, v');
  }
}
