/** What a review changes and what it leaves: items, transactions, and where an item's batch belongs. */
module PayrollMoves {
  import opened PayCalculation
  import opened PayrollState
  import opened PayrollInvariants
  import opened PayrollRuns
  import opened PayrollGuarantees
  import opened PayrollCreation

  // ---------- the review of one item ----------

  ghost predicate WaitsForReview(db: Db, b: Id) {
    exists j :: j in db.items && db.items[j].batch == b && db.items[j].status == ItemPending
  }

  /** Only the item's status changes, and its batch goes IN_REVIEW exactly when no item of it is pending any
      more. */
  ghost predicate MarksItem(db: Db, db': Db, i: Id, status: ItemStatus) {
    && i in db.items && db.items[i].batch in db.batches
    && db'.items == db.items[i := db.items[i].(status := status)]
    && db'.contributions == db.contributions
    && var b := db.items[i].batch;
       db'.batches == db.batches[b := db.batches[b].(
         status := if WaitsForReview(db', b) then db.batches[b].status else IN_REVIEW)]
  }

  ghost predicate ApprovesItem(db: Db, db': Db, i: Id) {
    MarksItem(db, db', i, ItemApproved) && db'.transactions == db.transactions
  }

  /** The item's transaction is refused, and no other. */
  ghost predicate RefusesItem(db: Db, db': Db, i: Id) {
    && MarksItem(db, db', i, ItemRejected) && db.items[i].transaction in db.transactions
    && var t := db.items[i].transaction;
       db'.transactions == db.transactions[t := db.transactions[t].(status := Refused)]
  }

  lemma RecalculationMarks(db: Db, b: Id)
    requires b in db.batches && exists i :: i in db.items && db.items[i].batch == b
    ensures Recalculate(db, b) == db.(batches := db.batches[b := db.batches[b].(
              status := if WaitsForReview(db, b) then db.batches[b].status else IN_REVIEW)])
  {
    assert SomeItemPending(db, b) <==> WaitsForReview(db, b);
    assert db.batches[b].(status := db.batches[b].status) == db.batches[b];
    assert db.batches[b := db.batches[b]] == db.batches;
  }

  lemma ItemApprovalMarks(db: Db, i: Id)
    requires i in db.items && db.items[i].batch in db.batches
    ensures ApprovesItem(db, ItemApprovedIn(db, i), i)
  {
    var b, marked := db.items[i].batch, MarkItem(db, i, ItemApproved);
    assert i in marked.items && marked.items[i].batch == b;
    RecalculationMarks(marked, b);
    SameWaiting(marked, Recalculate(marked, b), b);
  }

  lemma SameWaiting(db: Db, db': Db, b: Id)
    requires db'.items == db.items
    ensures WaitsForReview(db', b) <==> WaitsForReview(db, b)
  {
  }

  lemma ItemRejectionRefuses(db: Db, i: Id)
    requires i in db.items && db.items[i].batch in db.batches && db.items[i].transaction in db.transactions
    ensures RefusesItem(db, ItemRejectedIn(db, i), i)
  {
    var b := db.items[i].batch;
    var refused := RefuseTransaction(MarkItem(db, i, ItemRejected), db.items[i].transaction);
    assert i in refused.items && refused.items[i].batch == b;
    RecalculationMarks(refused, b);
    SameWaiting(refused, Recalculate(refused, b), b);
  }

  // ---------- the split and the payment ----------

  /** The rejected items of the batch, and only they, move, pending again, to one new draft of the batch's
      location and period; they keep employee and transaction. */
  ghost predicate SplitsOff(db: Db, db': Db, b: Id) {
    && b in db.batches && b in db'.batches
    && db'.items.Keys == db.items.Keys && db'.transactions.Keys == db.transactions.Keys
    && (forall i :: i in db.items ==>
          && db'.items[i].employee == db.items[i].employee && db'.items[i].transaction == db.items[i].transaction
          && (db'.items[i].batch != db.items[i].batch <==> db.items[i].batch == b && db.items[i].status == ItemRejected)
          && (db'.items[i].batch != db.items[i].batch ==> IsMoved(db, db', b, i)))
    && (forall i, j | i in db.items && j in db.items ::
          db'.items[i].batch != db.items[i].batch && db'.items[j].batch != db.items[j].batch ==>
            db'.items[i].batch == db'.items[j].batch)
    && (forall c :: c in db.batches ==> c in db'.batches && SamePlace(db.batches[c], db'.batches[c]))
    && ((forall i :: i in db.items ==> db'.items[i].batch == db.items[i].batch) ==> db'.batches.Keys == db.batches.Keys)
  }

  predicate SamePlace(x: Batch, y: Batch) {
    x.location == y.location && x.month == y.month && x.year == y.year
  }

  predicate IsMoved(db: Db, db': Db, b: Id, i: Id) {
    && i in db.items && i in db'.items && b in db.batches
    && var c := db'.items[i].batch;
       && c !in db.batches && c in db'.batches && db'.items[i].status == ItemPending
       && SamePlace(db.batches[b], db'.batches[c])
       && db'.batches[c].status == DRAFT && db'.batches[c].step == 1
  }

  /** What stays is approved and paid when the approval is final, and left as it was when it is not; nothing
      is paid but what stays. */
  ghost predicate PaysIff(db: Db, db': Db, b: Id, final: bool) {
    forall i :: i in db.items ==> PaysAt(db, db', b, final, i)
  }

  predicate PaysAt(db: Db, db': Db, b: Id, final: bool, i: Id) {
    i in db.items && i in db'.items && db.items[i].transaction in db.transactions
    && db.items[i].transaction in db'.transactions ==>
      var stays := db.items[i].batch == b && db.items[i].status != ItemRejected;
      var before, after := db.transactions[db.items[i].transaction], db'.transactions[db.items[i].transaction];
      && after == (if final && stays then before.(status := Paid) else before)
      && (db.items[i].batch == db'.items[i].batch ==>
            db'.items[i].status == if final && stays then ItemApproved else db.items[i].status)
  }

  lemma SplitSplitsOff(db: Db, b: Id)
    requires Bounded(db) && b in db.batches
    ensures SplitsOff(db, SplitRejected(db, b), b)
  {
    if forall i | i in db.items :: !IsRejectedIn(db, b, i) {
      assert SplitRejected(db, b) == db;
      NothingSplitsOff(db, b);
    } else {
      RejectedSplitOff(db, b);
    }
  }

  lemma NothingSplitsOff(db: Db, b: Id)
    requires b in db.batches && forall i | i in db.items :: !IsRejectedIn(db, b, i)
    ensures SplitsOff(db, db, b)
  {
    forall i | i in db.items ensures !(db.items[i].batch == b && db.items[i].status == ItemRejected) {
      assert !IsRejectedIn(db, b, i);
    }
  }

  lemma RejectedSplitOff(db: Db, b: Id)
    requires Bounded(db) && b in db.batches && exists i :: IsRejectedIn(db, b, i)
    ensures SplitsOff(db, SplitRejected(db, b), b)
  {
    var i :| IsRejectedIn(db, b, i);
    SplitItems(db, b);
    SplitBatches(db, b);
    assert SplitRejected(db, b).items[i].batch == db.nextBatch != b;
  }

  lemma SplitItems(db: Db, b: Id)
    requires b in db.batches && exists i :: IsRejectedIn(db, b, i)
    ensures var db' := SplitRejected(db, b);
            && db'.items.Keys == db.items.Keys && db'.transactions == db.transactions
            && forall i :: i in db.items ==>
                 db'.items[i] == if db.items[i].batch == b && db.items[i].status == ItemRejected
                                 then db.items[i].(batch := db.nextBatch, status := ItemPending) else db.items[i]
  {
  }

  lemma SplitBatches(db: Db, b: Id)
    requires Bounded(db) && b in db.batches && exists i :: IsRejectedIn(db, b, i)
    ensures var db', n := SplitRejected(db, b), db.nextBatch;
            && n !in db.batches && db'.batches.Keys == db.batches.Keys + {n}
            && (forall c :: c in db.batches ==> SamePlace(db.batches[c], db'.batches[c]))
            && SamePlace(db.batches[b], db'.batches[n]) && db'.batches[n].status == DRAFT && db'.batches[n].step == 1
  {
  }

  lemma PayingKeepsSplit(db: Db, split: Db, db': Db, b: Id)
    requires SplitsOff(db, split, b) && split.items.Keys == db'.items.Keys
    requires forall i :: i in split.items ==> SameItemRow(split.items[i], db'.items[i])
    requires forall i :: i in split.items && split.items[i].batch != b ==> db'.items[i] == split.items[i]
    requires split.transactions.Keys == db'.transactions.Keys && split.batches.Keys == db'.batches.Keys
    requires forall c :: c in split.batches && c != b ==> db'.batches[c] == split.batches[c]
    requires b in split.batches && SamePlace(split.batches[b], db'.batches[b])
    ensures SplitsOff(db, db', b)
  {
  }

  lemma PayChangesOnly(db: Db, b: Id)
    requires b in db.batches
    ensures forall db' :: db' == PayBatch(db, b) || db' == PassOn(db, b) ==>
              && db'.items.Keys == db.items.Keys
              && (forall i :: i in db.items ==> SameItemRow(db.items[i], db'.items[i]))
              && (forall i :: i in db.items && db.items[i].batch != b ==> db'.items[i] == db.items[i])
              && db'.transactions.Keys == db.transactions.Keys && db'.batches.Keys == db.batches.Keys
              && (forall c :: c in db.batches && c != b ==> db'.batches[c] == db.batches[c])
              && SamePlace(db.batches[b], db'.batches[b])
  {
  }

  lemma ApprovalSplitsOff(db: Db, b: Id, final: bool)
    requires Bounded(db) && b in db.batches
    ensures SplitsOff(db, BatchApproved(db, b, final), b)
  {
    var split := SplitRejected(db, b);
    SplitSplitsOff(db, b);
    PayChangesOnly(split, b);
    PayingKeepsSplit(db, split, BatchApproved(db, b, final), b);
  }

  lemma SplitRows(db: Db, b: Id, i: Id)
    requires Bounded(db) && b in db.batches && i in db.items
    ensures var split := SplitRejected(db, b);
            && b in split.batches && split.transactions == db.transactions && i in split.items
            && split.items[i].transaction == db.items[i].transaction
            && (if db.items[i].batch == b && db.items[i].status == ItemRejected
                then split.items[i].batch != b && split.items[i].batch != db.items[i].batch
                else split.items[i] == db.items[i])
  {
    assert IsRejectedIn(db, b, i) <==> db.items[i].batch == b && db.items[i].status == ItemRejected;
  }

  lemma PaidRow(db: Db, b: Id, i: Id)
    requires Unshared(db) && b in db.batches && i in db.items && db.items[i].transaction in db.transactions
    ensures var db', t := PayBatch(db, b), db.items[i].transaction;
            var stays := db.items[i].batch == b && db.items[i].status != ItemRejected;
            && db'.transactions[t] == (if stays then db.transactions[t].(status := Paid) else db.transactions[t])
            && db'.items[i] == if stays then db.items[i].(status := ItemApproved) else db.items[i]
  {
    assert db.items[i].transaction in PayableTransactions(db, b)
      <==> db.items[i].batch == b && db.items[i].status != ItemRejected;
  }

  lemma ApprovalPaysIff(db: Db, b: Id, final: bool)
    requires Bounded(db) && Referred(db) && Unshared(db) && b in db.batches
    ensures PaysIff(db, BatchApproved(db, b, final), b, final)
  {
    var split := SplitRejected(db, b);
    SplitKeepsReferences(db, b);
    forall i | i in db.items
      ensures PaysAt(db, BatchApproved(db, b, final), b, final, i)
    {
      SplitRows(db, b, i);
      PaidRow(split, b, i);
    }
  }

  // ---------- where items belong, over runs ----------

  /** The item has the same employee and transaction, and its batch the same location and period. */
  predicate KeepsPlace(db: Db, db': Db, i: Id) {
    && i in db.items && i in db'.items && db.items[i].batch in db.batches && db'.items[i].batch in db'.batches
    && db'.items[i].employee == db.items[i].employee && db'.items[i].transaction == db.items[i].transaction
    && SamePlace(db.batches[db.items[i].batch], db'.batches[db'.items[i].batch])
  }

  /** No item id is used again, and whatever item is still there kept its place. */
  ghost predicate ItemsKeepPlace(db: Db, db': Db) {
    && db.nextItem <= db'.nextItem && (forall i :: i in db.items ==> i < db.nextItem)
    && (forall i :: i in db'.items && i < db.nextItem ==> i in db.items)
    && (forall i :: i in db.items && i in db'.items ==> KeepsPlace(db, db', i))
  }

  lemma SameRowsKeepPlace(db: Db, db': Db)
    requires Bounded(db) && SameRows(db, db')
    ensures ItemsKeepPlace(db, db')
  {
    forall i | i in db.items ensures KeepsPlace(db, db', i) {
      assert SameItemRow(db.items[i], db'.items[i]);
      assert SameBatchRow(db.batches[db.items[i].batch], db'.batches[db.items[i].batch]);
    }
  }

  lemma ApprovalKeepsPlace(db: Db, b: Id, final: bool)
    requires Bounded(db) && b in db.batches
    ensures ItemsKeepPlace(db, BatchApproved(db, b, final))
  {
    ApprovalSplitsOff(db, b, final);
    ApprovalKeepsNumbers(db, b, final);
    SplittingKeepsPlace(db, BatchApproved(db, b, final), b);
  }

  lemma ApprovalKeepsNumbers(db: Db, b: Id, final: bool)
    requires b in db.batches
    ensures BatchApproved(db, b, final).nextItem == db.nextItem
  {
  }

  lemma SplittingKeepsPlace(db: Db, db': Db, b: Id)
    requires Bounded(db) && SplitsOff(db, db', b) && db'.nextItem == db.nextItem
    ensures ItemsKeepPlace(db, db')
  {
    forall i | i in db.items ensures KeepsPlace(db, db', i) {
      SplitKeepsPlace(db, db', b, i);
    }
  }

  lemma SplitKeepsPlace(db: Db, db': Db, b: Id, i: Id)
    requires SplitsOff(db, db', b) && i in db.items && db.items[i].batch in db.batches
    ensures KeepsPlace(db, db', i)
  {
    assert db'.items[i].batch != db.items[i].batch ==> IsMoved(db, db', b, i);
  }

  lemma NumberedByInsertion(db: Db, b: Id, lines: seq<Line>, i: Id)
    requires forall j :: j in db.items ==> j < db.nextItem && db.items[j].batch != b
    ensures var db' := InsertLines(db, b, lines);
            && db'.nextItem == db.nextItem + |lines|
            && (i in db'.items ==> (db'.items[i].batch == b <==> db.nextItem <= i))
  {
    InsertLinesAddRows(db, b, lines);
  }

  lemma CreationKeepsPlace(db: Db, req: Request, lines: seq<Line>)
    requires Bounded(db) && ValidRequest(db, req)
    ensures ItemsKeepPlace(db, FillDraft(db, req, lines))
  {
    var db' := FillDraft(db, req, lines);
    FillDraftBatchRows(db, req, lines);
    var open, charged := FilledFrom(db, req, lines);
    NumberedByInsertion(open, TargetBatch(db, req), charged, 0);
    forall i | i in db'.items && i < db.nextItem ensures i in db.items && KeepsPlace(db, db', i) {
      NumberedByInsertion(open, TargetBatch(db, req), charged, i);
      FillDraftItems(db, req, lines, i);
    }
  }

  lemma EffectKeepsPlace(db: Db, e: Event, db': Db)
    requires Inv(db) && Effect(db, e, db')
    ensures ItemsKeepPlace(db, db')
  {
    match e
    case Create(_, request) => CreationKeepsPlace(db, request, RequestLines(db, request));
    case Submit(b) =>
      SubmitKeepsInv(db, b);
      SameRowsKeepPlace(db, db');
    case AcceptItem(i, _, _) =>
      ApproveItemKeepsInv(db, i);
      SameRowsKeepPlace(db, db');
    case DenyItem(i, _, _) =>
      RejectItemKeepsInv(db, i);
      SameRowsKeepPlace(db, db');
    case AcceptBatch(b, _, org) => ApprovalKeepsPlace(db, b, IsFinalApproval(db.batches[b], org));
    case DenyBatch(b, _, _) =>
      RejectBatchKeepsInv(db, b);
      ReturnToDraftKeepsInv(db, b);
      SameRowsKeepPlace(db, db');
  }

  lemma KeepingPlaceComposes(db: Db, db1: Db, db2: Db)
    requires ItemsKeepPlace(db, db1) && ItemsKeepPlace(db1, db2)
    ensures ItemsKeepPlace(db, db2)
  {
    forall i | i in db.items && i in db2.items ensures KeepsPlace(db, db2, i) {
      assert i < db1.nextItem;
      assert KeepsPlace(db, db1, i) && KeepsPlace(db1, db2, i);
    }
  }

  lemma StepKeepsPlace(states: seq<Db>, events: seq<Event>, m: nat)
    requires Run(states, events) && Initial(states[0]) && m < |events|
    ensures ItemsKeepPlace(states[m], states[m + 1])
  {
    ReachableStatesSatisfyInv(states, events, m);
    assert Next(states[m], events[m], states[m + 1]);
    StepHasEffect(states[m], events[m], states[m + 1]);
    if states[m + 1] == states[m] {
      NothingMoves(states[m]);
    } else {
      EffectKeepsPlace(states[m], events[m], states[m + 1]);
    }
  }

  lemma NothingMoves(db: Db)
    requires Bounded(db)
    ensures ItemsKeepPlace(db, db)
  {
  }

  /** Over every run an item, for as long as it is there, stays with its employee and transaction in batches of
      one location and period, however often it is split off and reviewed again. */
  lemma {:induction false} ItemsStayInPlace(states: seq<Db>, events: seq<Event>, k: nat, m: nat)
    requires Run(states, events) && Initial(states[0]) && k <= m <= |events|
    ensures ItemsKeepPlace(states[k], states[m])
  {
    if k == m {
      NothingMovesIn(states, events, k);
    } else {
      ItemsStayInPlace(states, events, k, m - 1);
      OneMoreStep(states, events, states[k], m - 1);
    }
  }

  lemma OneMoreStep(states: seq<Db>, events: seq<Event>, db: Db, m: nat)
    requires Run(states, events) && Initial(states[0]) && m < |events| && ItemsKeepPlace(db, states[m])
    ensures ItemsKeepPlace(db, states[m + 1])
  {
    StepKeepsPlace(states, events, m);
    KeepingPlaceComposes(db, states[m], states[m + 1]);
  }

  lemma NothingMovesIn(states: seq<Db>, events: seq<Event>, k: nat)
    requires Run(states, events) && Initial(states[0]) && k <= |events|
    ensures ItemsKeepPlace(states[k], states[k])
  {
    ReachableStatesSatisfyInv(states, events, k);
    NothingMoves(states[k]);
  }
}
