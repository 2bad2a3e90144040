/** The six running totals, each as the sum of one amount over the batch's own items. */
module PayrollTotals {
  import opened Wrappers
  import opened Ledger
  import opened Sums
  import opened PayCalculation
  import opened PayrollState
  import opened PayrollInvariants
  import opened PayrollRuns

  function ItemsOf(db: Db, b: Id): set<Id> {
    set i | i in db.items && db.items[i].batch == b
  }

  /** The figures of item `i` in batch `b`; none for any other id. */
  function FiguresIn(db: Db, b: Id, i: Id): Option<Figures> {
    if i in db.items && db.items[i].batch == b && db.items[i].transaction in db.transactions
    then Some(db.transactions[db.items[i].transaction].figures) else None
  }

  /** One amount of the figures, summed over the batch's items. */
  function TotalOf(db: Db, b: Id, amount: Figures -> Money): Money {
    Total(db.nextItem, (i: nat) => match FiguresIn(db, b, i) case Some(f) => amount(f) case None => 0.0)
  }

  /** The row's totals: how many items, and their net, gross, allowance, deduction and tax amounts. */
  ghost predicate AddsUp(db: Db, b: Id) {
    b in db.batches
    && var t := db.batches[b].totals;
       && t.employees == |ItemsOf(db, b)|
       && t.amount == TotalOf(db, b, (f: Figures) => f.net)
       && t.gross == TotalOf(db, b, (f: Figures) => f.gross)
       && t.allowances == TotalOf(db, b, (f: Figures) => f.allowance)
       && t.deductions == TotalOf(db, b, (f: Figures) => f.deductions)
       && t.tax == TotalOf(db, b, (f: Figures) => f.tax)
  }

  /** The amount adds up over totals. */
  ghost predicate IsAdditive(field: Totals -> Money) {
    field(ZERO) == 0.0 && forall x: Totals, y: Totals :: field(x.Plus(y)) == field(x) + field(y)
  }

  lemma {:induction false} SumOfField(n: nat, row: nat -> Totals, field: Totals -> Money)
    requires IsAdditive(field)
    ensures field(Sum(n, row)) == Total(n, (i: nat) => field(row(i)))
  {
    if n > 0 {
      SumOfField(n - 1, row, field);
    }
  }

  /** A field that is `amount` of each row's figures is, of the batch's sum, the total of `amount`. */
  lemma FieldAddsUp(db: Db, b: Id, field: Totals -> Money, amount: Figures -> Money)
    requires IsAdditive(field) && forall f :: field(RowTotals(f)) == amount(f)
    ensures field(BatchSum(db, b)) == TotalOf(db, b, amount)
  {
    SumOfField(db.nextItem, Cells(db, b), field);
    forall i: nat ensures
      field(Cells(db, b)(i)) == match FiguresIn(db, b, i) case Some(f) => amount(f) case None => 0.0
    {
      match FiguresIn(db, b, i)
      case Some(f) => assert Cells(db, b)(i) == RowTotals(f);
      case None => assert Cells(db, b)(i) == ZERO;
    }
    TotalCongruent(db.nextItem, (i: nat) => field(Cells(db, b)(i)),
                   (i: nat) => match FiguresIn(db, b, i) case Some(f) => amount(f) case None => 0.0);
  }

  function ItemsBelow(db: Db, b: Id, n: nat): set<Id> {
    set i | i in db.items && db.items[i].batch == b && i < n
  }

  lemma ItemsBelowStep(db: Db, b: Id, n: nat)
    ensures var before := ItemsBelow(db, b, n);
            && n !in before
            && ItemsBelow(db, b, n + 1) == if n in db.items && db.items[n].batch == b then before + {n} else before
  {
  }

  lemma {:induction false} SumCountsItems(db: Db, b: Id, n: nat)
    requires Referred(db)
    ensures Sum(n, Cells(db, b)).employees == |ItemsBelow(db, b, n)|
  {
    if n == 0 {
      assert ItemsBelow(db, b, 0) == {};
    } else {
      SumCountsItems(db, b, n - 1);
      ItemsBelowStep(db, b, n - 1);
      CellCounts(db, b, n - 1);
    }
  }

  lemma CellCounts(db: Db, b: Id, i: nat)
    requires Referred(db)
    ensures Cells(db, b)(i).employees == if i in db.items && db.items[i].batch == b then 1 else 0
  {
  }

  lemma MoneyAddsUp(db: Db, b: Id)
    ensures BatchSum(db, b).amount == TotalOf(db, b, (f: Figures) => f.net)
    ensures BatchSum(db, b).gross == TotalOf(db, b, (f: Figures) => f.gross)
    ensures BatchSum(db, b).allowances == TotalOf(db, b, (f: Figures) => f.allowance)
    ensures BatchSum(db, b).deductions == TotalOf(db, b, (f: Figures) => f.deductions)
    ensures BatchSum(db, b).tax == TotalOf(db, b, (f: Figures) => f.tax)
  {
    FieldAddsUp(db, b, (t: Totals) => t.amount, (f: Figures) => f.net);
    FieldAddsUp(db, b, (t: Totals) => t.gross, (f: Figures) => f.gross);
    FieldAddsUp(db, b, (t: Totals) => t.allowances, (f: Figures) => f.allowance);
    FieldAddsUp(db, b, (t: Totals) => t.deductions, (f: Figures) => f.deductions);
    FieldAddsUp(db, b, (t: Totals) => t.tax, (f: Figures) => f.tax);
  }

  lemma BatchAddsUp(db: Db, b: Id)
    requires Balanced(db) && Referred(db) && Bounded(db) && b in db.batches
    ensures AddsUp(db, b)
  {
    MoneyAddsUp(db, b);
    SumCountsItems(db, b, db.nextItem);
    assert ItemsOf(db, b) == ItemsBelow(db, b, db.nextItem);
  }

  /** In every reachable state each of the six totals of each batch is the sum of its own amount. */
  lemma ReachableBatchesAddUp(states: seq<Db>, events: seq<Event>, k: nat, b: Id)
    requires Run(states, events) && Initial(states[0]) && k <= |events| && b in states[k].batches
    ensures AddsUp(states[k], b)
  {
    ReachableStatesSatisfyInv(states, events, k);
    BatchAddsUp(states[k], b);
  }
}
