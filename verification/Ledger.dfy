/** The six running totals of a payroll batch, and sums of such totals over row ids. */
module Ledger {

  datatype Totals = Totals(employees: int, amount: real, gross: real, allowances: real, deductions: real, tax: real)
  {
    function Plus(t: Totals): Totals {
      Totals(employees + t.employees, amount + t.amount, gross + t.gross,
             allowances + t.allowances, deductions + t.deductions, tax + t.tax)
    }

    function Minus(t: Totals): Totals {
      Totals(employees - t.employees, amount - t.amount, gross - t.gross,
             allowances - t.allowances, deductions - t.deductions, tax - t.tax)
    }
  }

  const ZERO := Totals(0, 0.0, 0.0, 0.0, 0.0, 0.0)

  /** The sum of `row(0) .. row(n - 1)`; an id without a row contributes nothing. */
  function Sum(n: nat, row: nat -> Totals): Totals {
    if n == 0 then ZERO else Sum(n - 1, row).Plus(row(n - 1))
  }

  lemma {:induction false} SumCongruent(n: nat, f: nat -> Totals, g: nat -> Totals)
    requires forall i: nat :: i < n ==> f(i) == g(i)
    ensures Sum(n, f) == Sum(n, g)
  {
    if n > 0 {
      SumCongruent(n - 1, f, g);
    }
  }

  lemma PlusInterchanges(a: Totals, b: Totals, c: Totals, d: Totals)
    ensures a.Plus(b).Plus(c.Plus(d)) == a.Plus(c).Plus(b.Plus(d))
  {
  }

  /** Sums add up row by row. */
  lemma {:induction false} SumPlus(n: nat, f: nat -> Totals, g: nat -> Totals, h: nat -> Totals)
    requires forall i: nat :: i < n ==> h(i) == f(i).Plus(g(i))
    ensures Sum(n, h) == Sum(n, f).Plus(Sum(n, g))
  {
    if n > 0 {
      SumPlus(n - 1, f, g, h);
      assert h(n - 1) == f(n - 1).Plus(g(n - 1));
      PlusInterchanges(Sum(n - 1, f), Sum(n - 1, g), f(n - 1), g(n - 1));
    }
  }

  lemma {:induction false} SumZero(n: nat, f: nat -> Totals)
    requires forall i: nat :: i < n ==> f(i) == ZERO
    ensures Sum(n, f) == ZERO
  {
    if n > 0 {
      SumZero(n - 1, f);
    }
  }

  /** Two families of rows that differ at one id differ in their sums by that id's difference. */
  lemma {:induction false} SumDiffersAtOne(n: nat, f: nat -> Totals, g: nat -> Totals, k: nat)
    requires k < n
    requires forall i: nat :: i < n && i != k ==> f(i) == g(i)
    ensures Sum(n, g) == Sum(n, f).Minus(f(k)).Plus(g(k))
  {
    if k == n - 1 {
      SumCongruent(k, f, g);
    } else {
      SumDiffersAtOne(n - 1, f, g, k);
    }
  }

  /** What starts at zero and grows by one row at a time is the rows' sum. */
  lemma {:induction false} SumsByStep(n: nat, row: nat -> Totals, total: nat -> Totals)
    requires total(0) == ZERO && forall k: nat :: k < n ==> total(k + 1) == total(k).Plus(row(k))
    ensures total(n) == Sum(n, row)
  {
    if n > 0 {
      SumsByStep(n - 1, row, total);
      assert total(n - 1 + 1) == total(n - 1).Plus(row(n - 1));
    }
  }
}
