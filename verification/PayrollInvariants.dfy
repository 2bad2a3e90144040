/** What every payroll transaction keeps true of the tables. */
module PayrollInvariants {
  import opened Ledger
  import opened PayCalculation
  import opened PayrollState

  /** Keys stay below the counters, and every item sits in a batch that exists. */
  ghost predicate Bounded(db: Db) {
    && (forall b :: b in db.batches ==> b < db.nextBatch)
    && (forall i :: i in db.items ==> i < db.nextItem && db.items[i].batch in db.batches)
    && (forall t :: t in db.transactions ==> t < db.nextTransaction)
  }

  /** Every item has its own transaction, for the same employee. */
  ghost predicate Referred(db: Db) {
    forall i :: i in db.items ==>
      && db.items[i].transaction in db.transactions
      && db.transactions[db.items[i].transaction].employee == db.items[i].employee
  }

  ghost predicate Unshared(db: Db) {
    forall i, j :: i in db.items && j in db.items && i != j ==> db.items[i].transaction != db.items[j].transaction
  }

  predicate Owns(db: Db, i: Id, t: Id) {
    i in db.items && db.items[i].transaction == t
  }

  /** Every transaction belongs to an item. */
  ghost predicate Owned(db: Db) {
    forall t :: t in db.transactions ==> exists i :: Owns(db, i, t)
  }

  /** No employee is twice in a batch. */
  ghost predicate OncePerBatch(db: Db) {
    forall i, j :: i in db.items && j in db.items && i != j && db.items[i].batch == db.items[j].batch
                   ==> db.items[i].employee != db.items[j].employee
  }

  ghost predicate Linked(db: Db) {
    Bounded(db) && Referred(db) && Unshared(db) && Owned(db) && OncePerBatch(db)
  }

  /** The approval step is 1 or 2, and a draft is at step 1. */
  ghost predicate Stepped(db: Db) {
    forall b :: b in db.batches ==>
      1 <= db.batches[b].step <= 2 && (db.batches[b].status == DRAFT ==> db.batches[b].step == 1)
  }

  /** What a batch's status says of each of its items and their transactions. */
  predicate RowCoherent(batch: BatchStatus, item: ItemStatus, transaction: TransactionStatus) {
    && (batch == DRAFT ==> item == ItemPending)
    && (batch == IN_REVIEW ==> item != ItemPending)
    && (batch == APPROVED ==> item == ItemApproved)
    && (transaction == Paid <==> batch == APPROVED)
  }

  predicate ItemCoherent(db: Db, i: Id) {
    i in db.items && db.items[i].batch in db.batches && db.items[i].transaction in db.transactions ==>
      RowCoherent(db.batches[db.items[i].batch].status, db.items[i].status,
                  db.transactions[db.items[i].transaction].status)
  }

  ghost predicate Coherent(db: Db) {
    forall i :: i in db.items ==> ItemCoherent(db, i)
  }

  /** Every running total agrees with the batch's own rows. */
  ghost predicate Balanced(db: Db) {
    forall b :: b in db.batches ==> db.batches[b].totals == BatchSum(db, b)
  }

  ghost predicate Inv(db: Db) {
    Linked(db) && Stepped(db) && Coherent(db) && Balanced(db)
  }

  // ---------- transactions that only change statuses ----------

  /** Same rows, same links, same money: at most statuses and steps differ. */
  ghost predicate SameRows(db: Db, db': Db) {
    && db'.nextBatch == db.nextBatch && db'.nextItem == db.nextItem && db'.nextTransaction == db.nextTransaction
    && db'.contributions == db.contributions
    && db'.batches.Keys == db.batches.Keys && db'.items.Keys == db.items.Keys
    && db'.transactions.Keys == db.transactions.Keys
    && (forall b :: b in db.batches ==> SameBatchRow(db.batches[b], db'.batches[b]))
    && (forall i :: i in db.items ==> SameItemRow(db.items[i], db'.items[i]))
    && (forall t :: t in db.transactions ==> SameTransactionRow(db.transactions[t], db'.transactions[t]))
  }

  predicate SameBatchRow(x: Batch, y: Batch) {
    x.location == y.location && x.month == y.month && x.year == y.year && x.totals == y.totals
  }

  predicate SameItemRow(x: Item, y: Item) {
    x.batch == y.batch && x.employee == y.employee && x.transaction == y.transaction
  }

  predicate SameTransactionRow(x: Transaction, y: Transaction) {
    x.employee == y.employee && x.figures == y.figures
  }

  lemma SameRowsKeepOwners(db: Db, db': Db)
    requires Owned(db) && SameRows(db, db')
    ensures Owned(db')
  {
    forall t | t in db'.transactions ensures exists i :: Owns(db', i, t) {
      var i :| Owns(db, i, t);
      assert Owns(db', i, t);
    }
  }

  lemma SameRowsKeepReferences(db: Db, db': Db)
    requires Bounded(db) && Referred(db) && SameRows(db, db')
    ensures Bounded(db') && Referred(db')
  {
  }

  lemma SameRowsKeepDistinct(db: Db, db': Db)
    requires Unshared(db) && OncePerBatch(db) && SameRows(db, db')
    ensures Unshared(db') && OncePerBatch(db')
  {
  }

  lemma SameRowsKeepLinks(db: Db, db': Db)
    requires Linked(db) && SameRows(db, db')
    ensures Linked(db')
  {
    SameRowsKeepReferences(db, db');
    SameRowsKeepOwners(db, db');
    SameRowsKeepDistinct(db, db');
  }

  lemma SameRowsKeepBalance(db: Db, db': Db)
    requires Linked(db) && SameRows(db, db') && Balanced(db)
    ensures Balanced(db')
  {
    forall b | b in db'.batches ensures db'.batches[b].totals == BatchSum(db', b) {
      SumCongruent(db.nextItem, Cells(db, b), Cells(db', b));
    }
  }

  lemma SameRowsKeepInv(db: Db, db': Db)
    requires Inv(db) && SameRows(db, db') && Stepped(db') && Coherent(db')
    ensures Inv(db')
  {
    SameRowsKeepLinks(db, db');
    SameRowsKeepBalance(db, db');
  }

  lemma SubmitKeepsCoherence(db: Db, b: Id)
    requires Coherent(db) && Stepped(db) && b in db.batches && db.batches[b].status in {DRAFT, REJECTED}
    ensures SameRows(db, Submitted(db, b)) && Coherent(Submitted(db, b)) && Stepped(Submitted(db, b))
  {
    forall i | i in db.items ensures ItemCoherent(Submitted(db, b), i) {
      assert ItemCoherent(db, i);
    }
  }

  lemma SubmitKeepsInv(db: Db, b: Id)
    requires Inv(db) && b in db.batches && db.batches[b].status in {DRAFT, REJECTED}
    ensures SameRows(db, Submitted(db, b)) && Inv(Submitted(db, b))
  {
    SubmitKeepsCoherence(db, b);
    SameRowsKeepInv(db, Submitted(db, b));
  }

  ghost predicate UnderReview(db: Db, b: Id) {
    b in db.batches && db.batches[b].status in {PENDING, IN_REVIEW, MANAGER_APPROVED}
  }

  /** A batch under review enters review only once none of its items is pending. */
  lemma RecalculateKeepsCoherence(db: Db, b: Id)
    requires Coherent(db) && Stepped(db) && UnderReview(db, b)
    ensures SameRows(db, Recalculate(db, b)) && Coherent(Recalculate(db, b)) && Stepped(Recalculate(db, b))
  {
    var db' := Recalculate(db, b);
    forall i | i in db'.items ensures ItemCoherent(db', i) {
      assert ItemCoherent(db, i);
    }
  }

  lemma MarkItemKeepsCoherence(db: Db, i: Id, status: ItemStatus)
    requires Coherent(db) && i in db.items && UnderReview(db, db.items[i].batch) && status != ItemPending
    ensures SameRows(db, MarkItem(db, i, status)) && Coherent(MarkItem(db, i, status))
  {
    var db' := MarkItem(db, i, status);
    forall j | j in db'.items ensures ItemCoherent(db', j) {
      assert ItemCoherent(db, j);
    }
  }

  lemma RefuseKeepsCoherence(db: Db, i: Id)
    requires Coherent(db) && Unshared(db) && Referred(db)
    requires i in db.items && UnderReview(db, db.items[i].batch)
    ensures SameRows(db, RefuseTransaction(db, db.items[i].transaction))
    ensures Coherent(RefuseTransaction(db, db.items[i].transaction))
  {
    var db' := RefuseTransaction(db, db.items[i].transaction);
    forall j | j in db'.items ensures ItemCoherent(db', j) {
      assert ItemCoherent(db, j);
    }
  }

  lemma ApproveItemKeepsInv(db: Db, i: Id)
    requires Inv(db) && i in db.items && UnderReview(db, db.items[i].batch)
    ensures SameRows(db, ItemApprovedIn(db, i)) && Inv(ItemApprovedIn(db, i))
  {
    MarkItemKeepsCoherence(db, i, ItemApproved);
    var db1 := MarkItem(db, i, ItemApproved);
    SameRowsKeepInv(db, db1);
    RecalculateKeepsCoherence(db1, db.items[i].batch);
    SameRowsKeepInv(db1, Recalculate(db1, db.items[i].batch));
    SameRowsCompose(db, db1, Recalculate(db1, db.items[i].batch));
  }

  lemma SameRowsCompose(db: Db, db1: Db, db2: Db)
    requires SameRows(db, db1) && SameRows(db1, db2)
    ensures SameRows(db, db2)
  {
  }

  lemma RejectItemKeepsInv(db: Db, i: Id)
    requires Inv(db) && i in db.items && UnderReview(db, db.items[i].batch)
    ensures SameRows(db, ItemRejectedIn(db, i)) && Inv(ItemRejectedIn(db, i))
  {
    var db2 := RefuseTransaction(MarkItem(db, i, ItemRejected), db.items[i].transaction);
    MarkAndRefuseKeepInv(db, i);
    var db3 := Recalculate(db2, db.items[i].batch);
    RecalculateKeepsCoherence(db2, db.items[i].batch);
    SameRowsKeepInv(db2, db3);
    SameRowsCompose(db, db2, db3);
  }

  lemma MarkAndRefuseKeepInv(db: Db, i: Id)
    requires Inv(db) && i in db.items && UnderReview(db, db.items[i].batch)
    ensures var db2 := RefuseTransaction(MarkItem(db, i, ItemRejected), db.items[i].transaction);
            SameRows(db, db2) && Inv(db2) && db2.batches == db.batches
  {
    var db1 := MarkItem(db, i, ItemRejected);
    MarkItemKeepsCoherence(db, i, ItemRejected);
    SameRowsKeepInv(db, db1);
    var db2 := RefuseTransaction(db1, db1.items[i].transaction);
    RefuseKeepsCoherence(db1, i);
    SameRowsKeepInv(db1, db2);
    SameRowsCompose(db, db1, db2);
  }

  lemma RejectBatchKeepsInv(db: Db, b: Id)
    requires Inv(db) && UnderReview(db, b)
    ensures SameRows(db, SetStatus(db, b, REJECTED)) && Inv(SetStatus(db, b, REJECTED))
  {
    RejectKeepsCoherence(db, b);
    SameRowsKeepInv(db, SetStatus(db, b, REJECTED));
  }

  lemma RejectKeepsCoherence(db: Db, b: Id)
    requires Coherent(db) && Stepped(db) && UnderReview(db, b)
    ensures var db' := SetStatus(db, b, REJECTED); SameRows(db, db') && Coherent(db') && Stepped(db')
  {
    forall i | i in db.items ensures ItemCoherent(SetStatus(db, b, REJECTED), i) {
      assert ItemCoherent(db, i);
    }
  }

  lemma ReturnToDraftKeepsInv(db: Db, b: Id)
    requires Inv(db) && UnderReview(db, b)
    ensures SameRows(db, ReturnToDraft(db, b)) && Inv(ReturnToDraft(db, b))
  {
    ReturnKeepsCoherence(db, b);
    SameRowsKeepInv(db, ReturnToDraft(db, b));
  }

  lemma ReturnKeepsCoherence(db: Db, b: Id)
    requires Coherent(db) && Stepped(db) && UnderReview(db, b)
    ensures var db' := ReturnToDraft(db, b); SameRows(db, db') && Coherent(db') && Stepped(db')
  {
    forall i | i in db.items ensures ItemCoherent(ReturnToDraft(db, b), i) {
      assert ItemCoherent(db, i);
    }
  }

  // ---------- the split of rejected items ----------

  ghost predicate SomeRejected(db: Db, b: Id) {
    exists i :: IsRejectedIn(db, b, i)
  }

  lemma SplitKeepsOwners(db: Db, b: Id)
    requires Owned(db) && b in db.batches
    ensures Owned(SplitRejected(db, b))
  {
    var db' := SplitRejected(db, b);
    forall t | t in db'.transactions ensures exists i :: Owns(db', i, t) {
      var i :| Owns(db, i, t);
      assert Owns(db', i, t);
    }
  }

  lemma SplitKeepsReferences(db: Db, b: Id)
    requires Bounded(db) && Referred(db) && Unshared(db) && b in db.batches
    ensures Bounded(SplitRejected(db, b)) && Referred(SplitRejected(db, b)) && Unshared(SplitRejected(db, b))
  {
  }

  lemma SplitKeepsOncePerBatch(db: Db, b: Id)
    requires Bounded(db) && OncePerBatch(db) && b in db.batches
    ensures OncePerBatch(SplitRejected(db, b))
  {
  }

  lemma SplitKeepsCoherence(db: Db, b: Id)
    requires Coherent(db) && Stepped(db) && Bounded(db) && UnderReview(db, b)
    ensures Stepped(SplitRejected(db, b)) && Coherent(SplitRejected(db, b))
  {
    var db' := SplitRejected(db, b);
    forall i | i in db'.items ensures ItemCoherent(db', i) {
      assert ItemCoherent(db, i);
    }
  }

  lemma CellSplits(db: Db, b: Id, i: Id)
    requires Bounded(db) && b in db.batches && SomeRejected(db, b)
    ensures Cell(SplitRejected(db, b), db.nextBatch, i) == RejectedCell(db, b, i)
    ensures Cell(SplitRejected(db, b), b, i) == if IsRejectedIn(db, b, i) then ZERO else Cell(db, b, i)
  {
    var split := SplitRejected(db, b);
    assert split.items.Keys == db.items.Keys && split.transactions == db.transactions;
    if i in db.items {
      assert split.items[i].transaction == db.items[i].transaction;
      assert split.items[i].batch == if IsRejectedIn(db, b, i) then db.nextBatch else db.items[i].batch;
    }
  }

  lemma OtherCellsStay(db: Db, b: Id, i: Id, c: Id)
    requires b in db.batches && c != b && c != db.nextBatch
    ensures Cell(SplitRejected(db, b), c, i) == Cell(db, c, i)
  {
  }

  lemma PlusZero(t: Totals)
    ensures t.Plus(ZERO) == t && ZERO.Plus(t) == t
  {
  }

  /** The moved rows leave the original batch's sum and make up the new one's; every other sum stays. */
  lemma SplitMovesSums(db: Db, b: Id, c: Id)
    requires Bounded(db) && b in db.batches && SomeRejected(db, b)
    ensures c != b && c != db.nextBatch ==> BatchSum(SplitRejected(db, b), c) == BatchSum(db, c)
    ensures BatchSum(SplitRejected(db, b), db.nextBatch) == RejectedSum(db, b)
    ensures BatchSum(db, b) == BatchSum(SplitRejected(db, b), b).Plus(RejectedSum(db, b))
  {
    var db' := SplitRejected(db, b);
    if c != b && c != db.nextBatch {
      forall i ensures Cell(db', c, i) == Cell(db, c, i) {
        OtherCellsStay(db, b, i, c);
      }
      SumCongruent(db.nextItem, Cells(db, c), Cells(db', c));
    }
    forall i ensures && Cell(db', db.nextBatch, i) == RejectedCell(db, b, i)
                     && Cell(db, b, i) == Cell(db', b, i).Plus(RejectedCell(db, b, i))
    {
      CellSplits(db, b, i);
      PlusZero(Cell(db, b, i));
    }
    SumCongruent(db.nextItem, RejectedCells(db, b), Cells(db', db.nextBatch));
    SumPlus(db.nextItem, Cells(db', b), RejectedCells(db, b), Cells(db, b));
  }

  lemma MinusUndoesPlus(a: Totals, d: Totals)
    ensures a.Plus(d).Minus(d) == a
  {
  }

  lemma SplitKeepsBalance(db: Db, b: Id)
    requires Balanced(db) && Bounded(db) && b in db.batches
    ensures Balanced(SplitRejected(db, b))
  {
    if SomeRejected(db, b) {
      var db' := SplitRejected(db, b);
      forall c | c in db'.batches ensures db'.batches[c].totals == BatchSum(db', c) {
        SplitMovesSums(db, b, c);
        MinusUndoesPlus(BatchSum(db', b), RejectedSum(db, b));
      }
    }
  }

  lemma SplitEmptiesRejected(db: Db, b: Id)
    requires b in db.batches && b < db.nextBatch
    ensures var db' := SplitRejected(db, b);
            && !SomeRejected(db', b) && b in db'.batches
            && db'.batches[b].status == db.batches[b].status && db'.batches[b].step == db.batches[b].step
  {
  }

  /** Splitting off the rejected items on its own keeps the whole invariant. */
  lemma SplitKeepsInv(db: Db, b: Id)
    requires Inv(db) && UnderReview(db, b)
    ensures Inv(SplitRejected(db, b)) && UnderReview(SplitRejected(db, b), b)
    ensures !SomeRejected(SplitRejected(db, b), b)
    ensures SplitRejected(db, b).batches[b].step == db.batches[b].step
  {
    SplitKeepsReferences(db, b);
    SplitKeepsOwners(db, b);
    SplitKeepsOncePerBatch(db, b);
    SplitKeepsCoherence(db, b);
    SplitKeepsBalance(db, b);
    SplitEmptiesRejected(db, b);
  }

  // ---------- batch approval ----------

  lemma PayKeepsCoherence(db: Db, b: Id)
    requires Coherent(db) && Unshared(db) && Referred(db) && UnderReview(db, b) && !SomeRejected(db, b)
    ensures SameRows(db, PayBatch(db, b)) && Coherent(PayBatch(db, b))
  {
    var db' := PayBatch(db, b);
    forall i | i in db.items ensures ItemCoherent(db', i) {
      assert ItemCoherent(db, i) && !IsRejectedIn(db, b, i);
      assert db.items[i].transaction in PayableTransactions(db, b) <==> db.items[i].batch == b;
    }
  }

  lemma PayKeepsInv(db: Db, b: Id)
    requires Inv(db) && UnderReview(db, b) && !SomeRejected(db, b)
    ensures Inv(PayBatch(db, b))
  {
    PayKeepsCoherence(db, b);
    SameRowsKeepInv(db, PayBatch(db, b));
  }

  lemma PassOnKeepsCoherence(db: Db, b: Id)
    requires Coherent(db) && Stepped(db) && UnderReview(db, b) && db.batches[b].step == 1
    ensures SameRows(db, PassOn(db, b)) && Coherent(PassOn(db, b)) && Stepped(PassOn(db, b))
  {
    forall i | i in db.items ensures ItemCoherent(PassOn(db, b), i) {
      assert ItemCoherent(db, i);
    }
  }

  lemma PassOnKeepsInv(db: Db, b: Id)
    requires Inv(db) && UnderReview(db, b) && db.batches[b].step == 1
    ensures Inv(PassOn(db, b))
  {
    PassOnKeepsCoherence(db, b);
    SameRowsKeepInv(db, PassOn(db, b));
  }

  lemma ApproveBatchKeepsInv(db: Db, b: Id, final: bool)
    requires Inv(db) && UnderReview(db, b) && (final || db.batches[b].step == 1)
    ensures Inv(BatchApproved(db, b, final))
  {
    SplitKeepsInv(db, b);
    var split := SplitRejected(db, b);
    if final {
      PayKeepsInv(split, b);
    } else {
      PassOnKeepsInv(split, b);
    }
  }

  // ---------- filling a draft ----------

  /** Every other batch is balanced, and batch `b` is a draft whose rows sum to `sum`. */
  ghost predicate Filling(db: Db, b: Id, sum: Totals) {
    && Linked(db) && Stepped(db) && Coherent(db)
    && b in db.batches && db.batches[b].status == DRAFT
    && (forall c :: c in db.batches && c != b ==> db.batches[c].totals == BatchSum(db, c))
    && BatchSum(db, b) == sum
  }

  ghost predicate NotInBatch(db: Db, b: Id, e: Id) {
    forall i :: i in db.items && db.items[i].batch == b ==> db.items[i].employee != e
  }

  lemma InsertLineExtendsSums(db: Db, b: Id, line: Line, c: Id)
    requires Linked(db)
    ensures BatchSum(InsertLine(db, b, line), c) ==
            if c == b then BatchSum(db, c).Plus(RowTotals(line.figures)) else BatchSum(db, c).Plus(ZERO)
  {
    SumCongruent(db.nextItem, Cells(db, c), Cells(InsertLine(db, b, line), c));
  }

  lemma InsertLineKeepsOwners(db: Db, b: Id, line: Line)
    requires Owned(db) && Bounded(db)
    ensures Owned(InsertLine(db, b, line))
  {
    var db' := InsertLine(db, b, line);
    forall t | t in db'.transactions ensures exists i :: Owns(db', i, t) {
      if t == db.nextTransaction {
        assert Owns(db', db.nextItem, t);
      } else {
        var i :| Owns(db, i, t);
        assert Owns(db', i, t);
      }
    }
  }

  lemma InsertLineKeepsLinks(db: Db, b: Id, line: Line)
    requires Linked(db) && b in db.batches && NotInBatch(db, b, line.employee)
    ensures Linked(InsertLine(db, b, line))
  {
    InsertLineKeepsOwners(db, b, line);
  }

  lemma InsertLineKeepsCoherence(db: Db, b: Id, line: Line)
    requires Coherent(db) && Bounded(db) && Referred(db) && b in db.batches && db.batches[b].status == DRAFT
    ensures Coherent(InsertLine(db, b, line))
  {
    forall i | i in InsertLine(db, b, line).items ensures ItemCoherent(InsertLine(db, b, line), i) {
      assert i in db.items ==> ItemCoherent(db, i);
    }
  }

  lemma InsertLineKeepsFilling(db: Db, b: Id, line: Line, sum: Totals)
    requires Filling(db, b, sum) && NotInBatch(db, b, line.employee)
    ensures Filling(InsertLine(db, b, line), b, sum.Plus(RowTotals(line.figures)))
  {
    var db' := InsertLine(db, b, line);
    InsertLineKeepsLinks(db, b, line);
    InsertLineKeepsCoherence(db, b, line);
    forall c ensures BatchSum(db', c) ==
                     if c == b then BatchSum(db, c).Plus(RowTotals(line.figures)) else BatchSum(db, c) {
      InsertLineExtendsSums(db, b, line, c);
      PlusZero(BatchSum(db, c));
    }
  }

  ghost predicate DistinctEmployees(lines: seq<Line>) {
    forall m, n :: 0 <= m < n < |lines| ==> lines[m].employee != lines[n].employee
  }

  lemma LineSumStep(lines: seq<Line>)
    requires lines != []
    ensures LineSum(lines) == LineSum(lines[..|lines| - 1]).Plus(RowTotals(lines[|lines| - 1].figures))
  {
    SumCongruent(|lines| - 1, LineCells(lines[..|lines| - 1]), LineCells(lines));
  }

  /** Inserting lines leaves the other tables alone and adds an item for each line and no other. */
  lemma {:induction false} InsertLinesAddRows(db: Db, b: Id, lines: seq<Line>)
    ensures var db' := InsertLines(db, b, lines);
            && db'.batches == db.batches && db'.nextBatch == db.nextBatch && db'.contributions == db.contributions
            && db'.nextItem == db.nextItem + |lines| && db'.nextTransaction == db.nextTransaction + |lines|
    ensures forall i :: i in InsertLines(db, b, lines).items && !(db.nextItem <= i < db.nextItem + |lines|) ==>
              i in db.items && InsertLines(db, b, lines).items[i] == db.items[i]
    ensures forall i :: i in InsertLines(db, b, lines).items && db.nextItem <= i < db.nextItem + |lines| ==>
              InsertLines(db, b, lines).items[i] ==
              Item(b, lines[i - db.nextItem].employee, db.nextTransaction + (i - db.nextItem), ItemPending)
  {
    if lines != [] {
      InsertLinesAddRows(db, b, lines[..|lines| - 1]);
    }
  }

  lemma {:induction false} InsertedItemAt(db: Db, b: Id, lines: seq<Line>, k: nat)
    requires k < |lines|
    ensures var items := InsertLines(db, b, lines).items;
            db.nextItem + k in items
            && items[db.nextItem + k] == Item(b, lines[k].employee, db.nextTransaction + k, ItemPending)
  {
    InsertLinesAddRows(db, b, lines[..|lines| - 1]);
    if k < |lines| - 1 {
      InsertedItemAt(db, b, lines[..|lines| - 1], k);
    }
  }

  lemma {:induction false} InsertedTransactionAt(db: Db, b: Id, lines: seq<Line>, k: nat)
    requires k < |lines|
    ensures var rows := InsertLines(db, b, lines).transactions;
            db.nextTransaction + k in rows
            && rows[db.nextTransaction + k] == Transaction(lines[k].employee, lines[k].figures, Unpaid)
  {
    InsertLinesAddRows(db, b, lines[..|lines| - 1]);
    if k < |lines| - 1 {
      InsertedTransactionAt(db, b, lines[..|lines| - 1], k);
    }
  }

  /** Lines for distinct employees, inserted into an empty draft, sum to the lines' own sum. */
  lemma {:induction false} InsertLinesKeepFilling(db: Db, b: Id, lines: seq<Line>)
    requires Filling(db, b, ZERO) && DistinctEmployees(lines)
    requires forall i :: i in db.items ==> db.items[i].batch != b
    ensures Filling(InsertLines(db, b, lines), b, LineSum(lines))
  {
    if lines != [] {
      var front := lines[..|lines| - 1];
      var line := lines[|lines| - 1];
      InsertLinesKeepFilling(db, b, front);
      NotYetInserted(db, b, front, line);
      InsertLineKeepsFilling(InsertLines(db, b, front), b, line, LineSum(front));
      LineSumStep(lines);
    }
  }

  lemma NotYetInserted(db: Db, b: Id, lines: seq<Line>, line: Line)
    requires forall i :: i in db.items ==> db.items[i].batch != b
    requires forall n :: 0 <= n < |lines| ==> lines[n].employee != line.employee
    ensures NotInBatch(InsertLines(db, b, lines), b, line.employee)
  {
    InsertLinesAddRows(db, b, lines);
  }

  // ---------- opening a draft ----------

  lemma ClearKeepsLinks(db: Db, b: Id)
    requires Linked(db)
    ensures Linked(ClearBatch(db, b))
  {
    var db' := ClearBatch(db, b);
    forall t | t in db'.transactions ensures exists i :: Owns(db', i, t) {
      var i :| Owns(db, i, t);
      assert Owns(db', i, t);
    }
  }

  lemma ClearedSums(db: Db, b: Id, c: Id)
    requires Bounded(db) && Unshared(db)
    ensures BatchSum(ClearBatch(db, b), c) == if c == b then ZERO else BatchSum(db, c)
  {
    if c == b {
      SumZero(db.nextItem, Cells(ClearBatch(db, b), c));
    } else {
      SumCongruent(db.nextItem, Cells(db, c), Cells(ClearBatch(db, b), c));
    }
  }

  /** Clearing a draft leaves it empty and everything else as it was. */
  lemma ClearDraftIsFilling(db: Db, b: Id)
    requires Inv(db) && b in db.batches && db.batches[b].status == DRAFT
    ensures Filling(ClearBatch(db, b), b, ZERO)
    ensures forall i :: i in ClearBatch(db, b).items ==> ClearBatch(db, b).items[i].batch != b
  {
    ClearKeepsLinks(db, b);
    ClearKeepsCoherence(db, b);
    forall c ensures BatchSum(ClearBatch(db, b), c) == if c == b then ZERO else BatchSum(db, c) {
      ClearedSums(db, b, c);
    }
  }

  lemma ClearKeepsCoherence(db: Db, b: Id)
    requires Coherent(db)
    ensures Coherent(ClearBatch(db, b))
  {
    forall i | i in ClearBatch(db, b).items ensures ItemCoherent(ClearBatch(db, b), i) {
      assert ItemCoherent(db, i);
    }
  }

  /** Everything but one draft's own totals, and the savings ledger, is the same. */
  ghost predicate SameButTotals(db: Db, db': Db, b: Id) {
    && db'.items == db.items && db'.transactions == db.transactions
    && db'.nextBatch == db.nextBatch && db'.nextItem == db.nextItem && db'.nextTransaction == db.nextTransaction
    && b in db.batches && b in db'.batches
    && db'.batches == db.batches[b := db.batches[b].(totals := db'.batches[b].totals)]
  }

  lemma TotalsKeepLinks(db: Db, db': Db, b: Id)
    requires Linked(db) && SameButTotals(db, db', b)
    ensures Linked(db')
  {
    forall t | t in db'.transactions ensures exists i :: Owns(db', i, t) {
      var i :| Owns(db, i, t);
      assert Owns(db', i, t);
    }
  }

  lemma TotalsKeepFilling(db: Db, db': Db, b: Id, sum: Totals)
    requires Filling(db, b, sum) && SameButTotals(db, db', b)
    ensures Filling(db', b, sum)
  {
    TotalsKeepLinks(db, db', b);
    TotalsKeepCoherence(db, db', b);
    forall c ensures BatchSum(db', c) == BatchSum(db, c) {
      SumCongruent(db.nextItem, Cells(db, c), Cells(db', c));
    }
  }

  lemma TotalsKeepCoherence(db: Db, db': Db, b: Id)
    requires Coherent(db) && Stepped(db) && SameButTotals(db, db', b)
    ensures Coherent(db') && Stepped(db')
  {
    forall i | i in db'.items ensures ItemCoherent(db', i) {
      assert ItemCoherent(db, i);
    }
  }

  function AddDraft(db: Db, batch: Batch): Db {
    db.(batches := db.batches[db.nextBatch := batch], nextBatch := db.nextBatch + 1)
  }

  lemma AddDraftKeepsLinks(db: Db, batch: Batch)
    requires Linked(db)
    ensures Linked(AddDraft(db, batch))
  {
    var db' := AddDraft(db, batch);
    forall t | t in db'.transactions ensures exists i :: Owns(db', i, t) {
      var i :| Owns(db, i, t);
      assert Owns(db', i, t);
    }
  }

  lemma AddDraftKeepsSums(db: Db, batch: Batch, c: Id)
    requires Bounded(db)
    ensures BatchSum(AddDraft(db, batch), c) == BatchSum(db, c)
    ensures c == db.nextBatch ==> BatchSum(db, c) == ZERO
  {
    SumCongruent(db.nextItem, Cells(db, c), Cells(AddDraft(db, batch), c));
    if c == db.nextBatch {
      SumZero(db.nextItem, Cells(db, c));
    }
  }

  lemma AddDraftKeepsCoherence(db: Db, batch: Batch)
    requires Coherent(db) && Stepped(db) && Bounded(db) && batch.status == DRAFT && batch.step == 1
    ensures Coherent(AddDraft(db, batch)) && Stepped(AddDraft(db, batch))
  {
    forall i | i in db.items ensures ItemCoherent(AddDraft(db, batch), i) {
      assert ItemCoherent(db, i);
    }
  }

  lemma AddDraftIsFilling(db: Db, batch: Batch)
    requires Inv(db) && batch.status == DRAFT && batch.step == 1
    ensures Filling(AddDraft(db, batch), db.nextBatch, ZERO)
    ensures forall i :: i in db.items ==> db.items[i].batch != db.nextBatch
  {
    AddDraftKeepsLinks(db, batch);
    AddDraftKeepsCoherence(db, batch);
    forall c ensures BatchSum(AddDraft(db, batch), c) == BatchSum(db, c)
             ensures c == db.nextBatch ==> BatchSum(db, c) == ZERO
    {
      AddDraftKeepsSums(db, batch, c);
    }
  }

  lemma OpenDraftIsFilling(db: Db, req: Request, totals: Totals, ledger: map<(Id, Id), Money>)
    requires Inv(db) && ValidRequest(db, req)
    ensures var open := OpenDraft(db, req, totals).(contributions := ledger);
            var b := TargetBatch(db, req);
            && Filling(open, b, ZERO)
            && open.batches[b].totals == totals
            && (forall i :: i in open.items ==> open.items[i].batch != b)
  {
    if req.draft.Some? {
      RedraftIsFilling(db, req, totals, ledger);
    } else {
      var batch := Batch(req.location, req.month, req.year, totals, DRAFT, 1);
      AddDraftIsFilling(db, batch);
      TotalsKeepFilling(AddDraft(db, batch), AddDraft(db, batch).(contributions := ledger), db.nextBatch, ZERO);
    }
  }

  lemma RedraftIsFilling(db: Db, req: Request, totals: Totals, ledger: map<(Id, Id), Money>)
    requires Inv(db) && ValidRequest(db, req) && req.draft.Some?
    ensures var open := OpenDraft(db, req, totals).(contributions := ledger);
            var b := req.draft.value;
            && Filling(open, b, ZERO)
            && open.batches[b].totals == totals
            && (forall i :: i in open.items ==> open.items[i].batch != b)
  {
    var b := req.draft.value;
    ClearDraftIsFilling(db, b);
    TotalsKeepFilling(ClearBatch(db, b), OpenDraft(db, req, totals).(contributions := ledger), b, ZERO);
  }

  lemma {:induction false} LinesAreDistinct(employees: seq<Id>, processed: set<Id>, calculations: map<Id, Calculation>)
    requires forall m, n :: 0 <= m < n < |employees| ==> employees[m] != employees[n]
    ensures forall m, n :: 0 <= m < n < |Eligible(employees, processed)| ==>
              Eligible(employees, processed)[m] != Eligible(employees, processed)[n]
    ensures forall e :: e in Eligible(employees, processed) <==> e in employees && e !in processed
    ensures DistinctEmployees(Lines(employees, calculations))
    ensures forall l :: l in Lines(employees, calculations) ==> l.employee in employees
  {
    if employees != [] {
      var last := |employees| - 1;
      LinesAreDistinct(employees[..last], processed, calculations);
      assert employees == employees[..last] + [employees[last]];
    }
  }

  lemma RequestLinesAreDistinct(db: Db, req: Request)
    requires ValidRequest(db, req)
    ensures DistinctEmployees(RequestLines(db, req))
    ensures forall l :: l in RequestLines(db, req) ==> l.employee !in AlreadyProcessed(db, req.month, req.year)
  {
    var processed := AlreadyProcessed(db, req.month, req.year);
    LinesAreDistinct(req.employees, processed, req.calculations);
    LinesAreDistinct(Eligible(req.employees, processed), {}, req.calculations);
  }

  lemma FilledIsBalanced(db: Db, b: Id, sum: Totals)
    requires Filling(db, b, sum) && db.batches[b].totals == sum
    ensures Inv(db)
  {
  }

  /** Charging works line by line and keeps every line's employee. */
  lemma {:induction false} ChargeAllAt(contributions: map<(Id, Id), Money>, b: Id, memberships: map<Id, Money>,
                                       lines: seq<Line>)
    ensures |ChargeAll(contributions, b, memberships, lines)| == |lines|
    ensures forall n :: 0 <= n < |lines| ==>
              ChargeAll(contributions, b, memberships, lines)[n] == Charge(contributions, b, memberships, lines[n])
  {
    if lines != [] {
      ChargeAllAt(contributions, b, memberships, lines[..|lines| - 1]);
    }
  }

  lemma ChargeKeepsEmployees(contributions: map<(Id, Id), Money>, b: Id, memberships: map<Id, Money>, lines: seq<Line>)
    ensures var charged := ChargeAll(contributions, b, memberships, lines);
            && |charged| == |lines|
            && (forall n :: 0 <= n < |lines| ==> charged[n].employee == lines[n].employee)
            && (DistinctEmployees(lines) ==> DistinctEmployees(charged))
  {
    ChargeAllAt(contributions, b, memberships, lines);
  }

  lemma FillDraftKeepsInv(db: Db, req: Request, lines: seq<Line>)
    requires Inv(db) && ValidRequest(db, req) && DistinctEmployees(lines)
    ensures Inv(FillDraft(db, req, lines))
  {
    var b := TargetBatch(db, req);
    var ledger := Contribute(db.contributions, b, lines, req.memberships);
    var charged := ChargeAll(ledger, b, req.memberships, lines);
    var open := OpenDraft(db, req, LineSum(charged)).(contributions := ledger);
    ChargeKeepsEmployees(ledger, b, req.memberships, lines);
    OpenDraftIsFilling(db, req, LineSum(charged), ledger);
    InsertLinesKeepFilling(open, b, charged);
    InsertLinesAddRows(open, b, charged);
    FilledIsBalanced(InsertLines(open, b, charged), b, LineSum(charged));
  }
}
