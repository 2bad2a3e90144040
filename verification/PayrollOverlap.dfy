/** Nobody in two active batches of one period: which calls can end that, over whole runs. */
module PayrollOverlap {
  import opened Wrappers
  import opened PayrollState
  import opened PayrollInvariants
  import opened PayrollRuns
  import opened PayrollGuarantees

  /** Two items of one employee in active batches of one period. */
  predicate Together(db: Db, month: int, year: int, i: Id, j: Id) {
    && i != j && InActiveBatch(db, month, year, i) && InActiveBatch(db, month, year, j)
    && db.items[i].employee == db.items[j].employee
  }

  ghost predicate Overlap(db: Db) {
    exists month, year, i, j :: Together(db, month, year, i, j)
  }

  /** Item `i` of batch `b` is for somebody whose item `j` is in an active batch of the same period. */
  predicate ClashAt(db: Db, b: Id, i: Id, j: Id) {
    && b in db.batches && InBatch(db, i, b)
    && InActiveBatch(db, db.batches[b].month, db.batches[b].year, j)
    && db.items[i].employee == db.items[j].employee
  }

  ghost predicate Clashes(db: Db, b: Id) {
    exists i, j :: ClashAt(db, b, i, j)
  }

  /** What is active afterwards was active before, for the same employee. */
  ghost predicate ActiveOnlyShrinks(db: Db, db': Db) {
    forall month, year, i :: InActiveBatch(db', month, year, i) ==>
      InActiveBatch(db, month, year, i) && db'.items[i].employee == db.items[i].employee
  }

  predicate IsActiveStatus(status: BatchStatus) {
    status !in {DRAFT, REJECTED}
  }

  lemma SameRowsShrinkActive(db: Db, db': Db)
    requires SameRows(db, db')
    requires forall b :: b in db.batches && IsActiveStatus(db'.batches[b].status) ==>
            IsActiveStatus(db.batches[b].status)
    ensures ActiveOnlyShrinks(db, db')
  {
    forall month, year, i | InActiveBatch(db', month, year, i)
      ensures InActiveBatch(db, month, year, i) && db'.items[i].employee == db.items[i].employee
    {
      assert SameItemRow(db.items[i], db'.items[i]);
      assert SameBatchRow(db.batches[db.items[i].batch], db'.batches[db.items[i].batch]);
    }
  }

  lemma FillingShrinksActive(db: Db, req: Request, lines: seq<Line>)
    requires Bounded(db) && ValidRequest(db, req)
    ensures ActiveOnlyShrinks(db, FillDraft(db, req, lines))
  {
    FillDraftBatchRows(db, req, lines);
    forall month, year, i | InActiveBatch(FillDraft(db, req, lines), month, year, i)
      ensures InActiveBatch(db, month, year, i) && FillDraft(db, req, lines).items[i].employee == db.items[i].employee
    {
      FillDraftItems(db, req, lines, i);
    }
  }

  lemma SplitShrinksActive(db: Db, b: Id)
    requires Bounded(db) && b in db.batches
    ensures ActiveOnlyShrinks(db, SplitRejected(db, b))
  {
  }

  lemma ApprovalShrinksActive(db: Db, b: Id, org: Org)
    requires Inv(db) && UnderReview(db, b)
    ensures ActiveOnlyShrinks(db, BatchApproved(db, b, IsFinalApproval(db.batches[b], org)))
  {
    var split := SplitRejected(db, b);
    SplitShrinksActive(db, b);
    SplitKeepsInv(db, b);
    PayingShrinksActive(split, b);
    ShrinkingComposes(db, split, PayBatch(split, b));
    ShrinkingComposes(db, split, PassOn(split, b));
  }

  lemma PayingShrinksActive(db: Db, b: Id)
    requires Referred(db) && UnderReview(db, b)
    ensures ActiveOnlyShrinks(db, PayBatch(db, b)) && ActiveOnlyShrinks(db, PassOn(db, b))
  {
    PassOnRows(db, b);
    SameRowsShrinkActive(db, PayBatch(db, b));
    SameRowsShrinkActive(db, PassOn(db, b));
  }

  lemma PassOnRows(db: Db, b: Id)
    requires Referred(db) && b in db.batches
    ensures SameRows(db, PassOn(db, b)) && SameRows(db, PayBatch(db, b))
  {
  }

  lemma ShrinkingComposes(db: Db, db1: Db, db2: Db)
    requires ActiveOnlyShrinks(db, db1) && ActiveOnlyShrinks(db1, db2)
    ensures ActiveOnlyShrinks(db, db2)
  {
  }

  lemma ReviewShrinksActive(db: Db, e: Event, db': Db)
    requires Inv(db) && Effect(db, e, db') && SameRows(db, db') && !e.Submit?
    ensures ActiveOnlyShrinks(db, db')
  {
    forall b | b in db.batches && IsActiveStatus(db'.batches[b].status) ensures IsActiveStatus(db.batches[b].status) {
      ReviewActivatesNone(db, e, db', b);
    }
    SameRowsShrinkActive(db, db');
  }

  lemma ReviewActivatesNone(db: Db, e: Event, db': Db, b: Id)
    requires Inv(db) && Effect(db, e, db') && !e.Submit? && b in db.batches && b in db'.batches
    ensures IsActiveStatus(db'.batches[b].status) ==> IsActiveStatus(db.batches[b].status)
  {
    EffectMovesStage(db, e, db', b);
  }

  lemma OthersShrinkActive(db: Db, e: Event, db': Db)
    requires Inv(db) && Effect(db, e, db') && !e.Submit?
    ensures ActiveOnlyShrinks(db, db')
  {
    match e
    case Create(_, request) => FillingShrinksActive(db, request, RequestLines(db, request));
    case AcceptItem(i, _, _) =>
      ApproveItemKeepsInv(db, i);
      ReviewShrinksActive(db, e, db');
    case DenyItem(i, _, _) =>
      RejectItemKeepsInv(db, i);
      ReviewShrinksActive(db, e, db');
    case AcceptBatch(b, _, org) => ApprovalShrinksActive(db, b, org);
    case DenyBatch(b, _, _) =>
      RejectBatchKeepsInv(db, b);
      ReturnToDraftKeepsInv(db, b);
      ReviewShrinksActive(db, e, db');
  }

  /** A submission makes the batch's own items active, and no others. */
  lemma SubmissionActivates(db: Db, b: Id, month: int, year: int, i: Id)
    requires Bounded(db) && b in db.batches && !IsActiveStatus(db.batches[b].status)
    ensures Submitted(db, b).items == db.items
    ensures InActiveBatch(Submitted(db, b), month, year, i) <==>
            || InActiveBatch(db, month, year, i)
            || (InBatch(db, i, b) && db.batches[b].month == month && db.batches[b].year == year)
    ensures InBatch(db, i, b) ==> !InActiveBatch(db, month, year, i)
  {
  }

  lemma SubmissionOverlapsIff(db: Db, b: Id)
    requires Bounded(db) && OncePerBatch(db) && !Overlap(db) && b in db.batches && !IsActiveStatus(db.batches[b].status)
    ensures Overlap(Submitted(db, b)) <==> Clashes(db, b)
  {
    var db' := Submitted(db, b);
    forall month, year, i ensures
      InActiveBatch(db', month, year, i) <==>
      || InActiveBatch(db, month, year, i)
      || (InBatch(db, i, b) && db.batches[b].month == month && db.batches[b].year == year)
    {
      SubmissionActivates(db, b, month, year, i);
    }
    if Overlap(db') {
      var month, year, i, j :| Together(db', month, year, i, j);
      assert !Together(db, month, year, i, j);
      assert ClashAt(db, b, i, j) || ClashAt(db, b, j, i);
    }
    if Clashes(db, b) {
      var i, j :| ClashAt(db, b, i, j);
      SubmissionActivates(db, b, db.batches[b].month, db.batches[b].year, i);
      assert Together(db', db.batches[b].month, db.batches[b].year, i, j);
    }
  }

  /** A submission that succeeds although somebody of the batch is already in another active one. */
  ghost predicate ClashingSubmit(db: Db, e: Event) {
    e.Submit? && SubmitBatch(db, e.batch).Ok? && Clashes(db, e.batch)
  }

  /** From tables where nobody is in two active batches of a period, one call leads to the contrary exactly
      when it is a successful submission of a batch that holds somebody of another active one. */
  lemma OverlapArisesIff(db: Db, e: Event, db': Db)
    requires Inv(db) && Next(db, e, db') && !Overlap(db)
    ensures Overlap(db') <==> ClashingSubmit(db, e)
  {
    StepHasEffect(db, e, db');
    if e.Submit? {
      if SubmitBatch(db, e.batch).Ok? {
        SubmissionOverlapsIff(db, e.batch);
      }
    } else if db' != db {
      OthersShrinkActive(db, e, db');
      if Overlap(db') {
        var month, year, i, j :| Together(db', month, year, i, j);
        assert Together(db, month, year, i, j);
      }
    }
  }

  /** Over a run: nobody is ever in two active batches of a period exactly as long as no submission clashes. */
  lemma {:induction false} NoOverlapUntilClash(states: seq<Db>, events: seq<Event>, k: nat)
    requires Run(states, events) && Initial(states[0]) && k <= |events|
    ensures (forall n :: 0 <= n <= k ==> !Overlap(states[n]))
            <==> (forall n :: 0 <= n < k ==> !ClashingSubmit(states[n], events[n]))
  {
    if k == 0 {
      NoOverlapInitially(states[0]);
    } else {
      NoOverlapUntilClash(states, events, k - 1);
      if !Overlap(states[k - 1]) {
        OverlapArisesInRun(states, events, k - 1);
      }
    }
  }

  lemma NoOverlapInitially(db: Db)
    requires Initial(db)
    ensures !Overlap(db)
  {
    forall month, year, i, j ensures !Together(db, month, year, i, j) {
    }
  }

  lemma OverlapArisesInRun(states: seq<Db>, events: seq<Event>, k: nat)
    requires Run(states, events) && Initial(states[0]) && k < |events| && !Overlap(states[k])
    ensures Overlap(states[k + 1]) <==> ClashingSubmit(states[k], events[k])
  {
    ReachableStatesSatisfyInv(states, events, k);
    assert Next(states[k], events[k], states[k + 1]);
    OverlapArisesIff(states[k], events[k], states[k + 1]);
  }

  /** Two drafts of one period that share an employee, say one paid at both locations since a transfer:
      nothing refuses either submission, and the second puts the employee in two active batches. */
  lemma SecondSubmissionOverlaps(db: Db, b: Id, c: Id, i: Id, j: Id)
    requires Bounded(db) && b != c && InBatch(db, i, b) && InBatch(db, j, c)
    requires b in db.batches && c in db.batches && db.batches[b].status == DRAFT == db.batches[c].status
    requires db.batches[b].month == db.batches[c].month && db.batches[b].year == db.batches[c].year
    requires db.items[i].employee == db.items[j].employee
    ensures SubmitBatch(db, b) == Ok(Submitted(db, b)) && SubmitBatch(Submitted(db, b), c).Ok?
    ensures Overlap(Submitted(Submitted(db, b), c))
  {
    var first := Submitted(db, b);
    SubmissionActivates(db, b, db.batches[b].month, db.batches[b].year, i);
    SubmissionActivates(first, c, db.batches[c].month, db.batches[c].year, i);
    SubmissionActivates(first, c, db.batches[c].month, db.batches[c].year, j);
    assert Together(Submitted(first, c), db.batches[b].month, db.batches[b].year, i, j);
  }
}
