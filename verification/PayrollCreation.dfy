/** What a successful batch creation leaves in the tables: who is in the batch, with which amounts. */
module PayrollCreation {
  import opened Wrappers
  import opened Ledger
  import opened PayCalculation
  import opened PayrollState
  import opened PayrollInvariants
  import opened PayrollRuns
  import opened PayrollGuarantees

  predicate ItemOf(db: Db, b: Id, e: Id, i: Id) {
    i in db.items && db.items[i].batch == b && db.items[i].employee == e
  }

  predicate IsIn(db: Db, b: Id, e: Id) {
    exists i | i in db.items :: ItemOf(db, b, e, i)
  }

  /** Item `j` has the employee in a submitted, reviewed or approved batch of the period. */
  predicate TakesPart(db: Db, month: int, year: int, e: Id, j: Id) {
    && j in db.items && db.items[j].employee == e && db.items[j].batch in db.batches
    && db.batches[db.items[j].batch].month == month && db.batches[db.items[j].batch].year == year
    && db.batches[db.items[j].batch].status in {PENDING, IN_REVIEW, MANAGER_APPROVED, APPROVED}
  }

  /** Asked for, with pay calculated, and in no active batch of the period yet. */
  predicate Qualifies(db: Db, req: Request, e: Id) {
    && e in req.employees && e in req.calculations
    && forall j | j in db.items :: !TakesPart(db, req.month, req.year, e, j)
  }

  function Qualified(db: Db, req: Request): set<Id> {
    set e | e in req.employees && Qualifies(db, req, e)
  }

  /** What a member saves with batch `b`: what the ledger already says, else the monthly amount. */
  function Saving(db: Db, req: Request, b: Id, e: Id): Money {
    if e !in req.memberships then 0.0
    else if (e, b) in db.contributions then db.contributions[(e, b)]
    else req.memberships[e]
  }

  /** The draft found, or else a batch that was not there. */
  predicate IsTarget(db: Db, req: Request, b: Id) {
    match req.draft
    case Some(d) => b == d
    case None => b !in db.batches
  }

  /** The item is pending, and its unpaid transaction has the employee's own calculated amounts, with the
      savings added to the deductions and taken off the net. */
  predicate IsCharged(db: Db, db': Db, req: Request, b: Id, i: Id) {
    && i in db'.items && db'.items[i].status == ItemPending
    && db'.items[i].employee in req.calculations && db'.items[i].transaction in db'.transactions
    && var e, t := db'.items[i].employee, db'.transactions[db'.items[i].transaction];
       var pay, saving := req.calculations[e], Saving(db, req, b, e);
       && t.employee == e && t.status == Unpaid
       && t.figures.base == pay.base && t.figures.allowance == pay.allowance && t.figures.overtime == pay.overtime
       && t.figures.gross == pay.gross && t.figures.tax == pay.tax && t.figures.configured == pay.configured
       && t.figures.absence == pay.absence && t.figures.dailyNetRate == pay.dailyNetRate
       && t.figures.deductions == pay.deductions + saving
       && t.figures.net == if pay.net > saving then pay.net - saving else 0.0
  }

  /** Exactly the members among the qualified have an entry for the batch; every old entry stays. */
  ghost predicate EntersSavings(db: Db, db': Db, req: Request, b: Id) {
    forall e, c ::
      && ((e, c) in db'.contributions <==>
            (e, c) in db.contributions || (c == b && e in req.memberships && Qualifies(db, req, e)))
      && ((e, c) in db'.contributions ==>
            db'.contributions[(e, c)]
            == if (e, c) in db.contributions then db.contributions[(e, c)] else req.memberships[e])
  }

  /** The batch holds exactly the qualified employees, each once and with the amounts due; the savings ledger
      has exactly their entries; its row is a draft of the request's place and period that counts them, and
      every other batch row is the old one. */
  ghost predicate CreatedAsAsked(db: Db, db': Db, req: Request, b: Id) {
    && IsTarget(db, req, b)
    && (forall e :: IsIn(db', b, e) <==> Qualifies(db, req, e))
    && (forall i :: i in db'.items && db'.items[i].batch == b ==> IsCharged(db, db', req, b, i))
    && (forall e, i, j :: ItemOf(db', b, e, i) && ItemOf(db', b, e, j) ==> i == j)
    && EntersSavings(db, db', req, b)
    && b in db'.batches && db'.batches == db.batches[b := db'.batches[b]]
    && db'.batches[b].(totals := ZERO) == Batch(req.location, req.month, req.year, ZERO, DRAFT, 1)
    && db'.batches[b].totals.employees == |Qualified(db, req)|
  }

  // ---------- the lines ----------

  lemma {:induction false} LinesHold(employees: seq<Id>, calculations: map<Id, Calculation>, e: Id)
    ensures HasLine(Lines(employees, calculations), e) <==> e in employees && e in calculations
    ensures forall n :: 0 <= n < |Lines(employees, calculations)| ==>
              var line := Lines(employees, calculations)[n];
              line.employee in calculations && line.figures == calculations[line.employee]
  {
    if employees != [] {
      var front, last := employees[..|employees| - 1], employees[|employees| - 1];
      LinesHold(front, calculations, e);
      assert employees == front + [last];
      if last in calculations {
        HasLineGrows(Lines(front, calculations), Line(last, calculations[last]), e);
      } else {
        assert Lines(employees, calculations) == Lines(front, calculations);
      }
    }
  }

  lemma HasLineGrows(lines: seq<Line>, line: Line, e: Id)
    ensures HasLine(lines + [line], e) <==> HasLine(lines, e) || line.employee == e
  {
    assert (lines + [line])[|lines|] == line;
    assert forall n :: 0 <= n < |lines| ==> (lines + [line])[n] == lines[n];
  }

  lemma ActiveStatuses(status: BatchStatus)
    ensures status !in {DRAFT, REJECTED} <==> status in {PENDING, IN_REVIEW, MANAGER_APPROVED, APPROVED}
  {
    match status
    case DRAFT =>
    case PENDING =>
    case IN_REVIEW =>
    case MANAGER_APPROVED =>
    case APPROVED =>
    case REJECTED =>
  }

  lemma ProcessedIff(db: Db, month: int, year: int, e: Id)
    ensures e in AlreadyProcessed(db, month, year) <==> exists j :: TakesPart(db, month, year, e, j)
  {
    if e in AlreadyProcessed(db, month, year) {
      var j :| j in db.items && InActiveBatch(db, month, year, j) && db.items[j].employee == e;
      ActiveStatuses(db.batches[db.items[j].batch].status);
      assert TakesPart(db, month, year, e, j);
    }
    if j :| TakesPart(db, month, year, e, j) {
      assert InActiveBatch(db, month, year, j);
    }
  }

  lemma RequestLinesHold(db: Db, req: Request, e: Id)
    requires ValidRequest(db, req)
    ensures HasLine(RequestLines(db, req), e) <==> Qualifies(db, req, e)
  {
    var processed := AlreadyProcessed(db, req.month, req.year);
    LinesAreDistinct(req.employees, processed, req.calculations);
    LinesHold(Eligible(req.employees, processed), req.calculations, e);
    ProcessedIff(db, req.month, req.year, e);
  }

  lemma RequestLinesAreCalculated(db: Db, req: Request)
    requires ValidRequest(db, req)
    ensures forall n :: 0 <= n < |RequestLines(db, req)| ==>
              var line := RequestLines(db, req)[n];
              line.employee in req.calculations && line.figures == req.calculations[line.employee]
  {
    LinesHold(Eligible(req.employees, AlreadyProcessed(db, req.month, req.year)), req.calculations, 0);
  }

  lemma {:induction false} AsManyAsLines(lines: seq<Line>, employees: set<Id>)
    requires DistinctEmployees(lines) && forall e :: e in employees <==> HasLine(lines, e)
    ensures |employees| == |lines|
  {
    if lines == [] {
      assert employees == {};
    } else {
      var front, last := lines[..|lines| - 1], lines[|lines| - 1];
      assert lines == front + [last];
      forall e ensures e in employees - {last.employee} <==> HasLine(front, e) {
        HasLineGrows(front, last, e);
      }
      HasLineGrows(front, last, last.employee);
      AsManyAsLines(front, employees - {last.employee});
    }
  }

  lemma {:induction false} LineSumCounts(lines: seq<Line>)
    ensures LineSum(lines).employees == |lines|
  {
    if lines != [] {
      LineSumCounts(lines[..|lines| - 1]);
      LineSumStep(lines);
    }
  }

  lemma QualifiedAreCounted(db: Db, req: Request)
    requires ValidRequest(db, req)
    ensures |RequestLines(db, req)| == |Qualified(db, req)|
  {
    RequestLinesAreDistinct(db, req);
    forall e ensures e in Qualified(db, req) <==> HasLine(RequestLines(db, req), e) {
      RequestLinesHold(db, req, e);
    }
    AsManyAsLines(RequestLines(db, req), Qualified(db, req));
  }

  // ---------- the filled draft ----------

  /** Item and transaction of line `n`. */
  lemma RowsOfLine(db: Db, b: Id, lines: seq<Line>, n: nat)
    requires n < |lines|
    ensures var db', i, t := InsertLines(db, b, lines), db.nextItem + n, db.nextTransaction + n;
            && i in db'.items && db'.items[i] == Item(b, lines[n].employee, t, ItemPending)
            && t in db'.transactions && db'.transactions[t] == Transaction(lines[n].employee, lines[n].figures, Unpaid)
  {
    InsertedItemAt(db, b, lines, n);
    InsertedTransactionAt(db, b, lines, n);
  }

  /** The line of an item in the batch. */
  lemma LineOfItem(db: Db, b: Id, lines: seq<Line>, i: Id) returns (n: nat)
    requires forall j :: j in db.items ==> db.items[j].batch != b
    requires i in InsertLines(db, b, lines).items && InsertLines(db, b, lines).items[i].batch == b
    ensures n < |lines| && i == db.nextItem + n
  {
    InsertLinesAddRows(db, b, lines);
    n := i - db.nextItem;
  }

  lemma ChargedLineIs(db: Db, req: Request, b: Id, lines: seq<Line>, n: nat)
    requires n < |lines|
    requires lines[n].employee in req.calculations && lines[n].figures == req.calculations[lines[n].employee]
    ensures var ledger := Contribute(db.contributions, b, lines, req.memberships);
            var line := Charge(ledger, b, req.memberships, lines[n]);
            var pay, saving := req.calculations[lines[n].employee], Saving(db, req, b, lines[n].employee);
            && line.employee == lines[n].employee
            && line.figures == pay.(deductions := pay.deductions + saving,
                                    net := if pay.net > saving then pay.net - saving else 0.0)
  {
    assert HasLine(lines, lines[n].employee);
  }

  lemma RowsAreCharged(db: Db, db': Db, req: Request, b: Id, i: Id, e: Id, t: Id, figures: Figures)
    requires i in db'.items && db'.items[i] == Item(b, e, t, ItemPending)
    requires t in db'.transactions && db'.transactions[t] == Transaction(e, figures, Unpaid)
    requires e in req.calculations
    requires var pay, saving := req.calculations[e], Saving(db, req, b, e);
             figures == pay.(deductions := pay.deductions + saving,
                             net := if pay.net > saving then pay.net - saving else 0.0)
    ensures IsCharged(db, db', req, b, i)
  {
  }

  /** Each line has its employee's calculated amounts with the savings due. */
  ghost predicate LinesDue(db: Db, req: Request, b: Id, lines: seq<Line>) {
    forall n :: 0 <= n < |lines| ==> LineDue(db, req, b, lines[n])
  }

  predicate LineDue(db: Db, req: Request, b: Id, line: Line) {
    line.employee in req.calculations
    && var pay, saving := req.calculations[line.employee], Saving(db, req, b, line.employee);
       line.figures == pay.(deductions := pay.deductions + saving,
                            net := if pay.net > saving then pay.net - saving else 0.0)
  }

  lemma ChargedLinesAreDue(db: Db, req: Request)
    requires ValidRequest(db, req)
    ensures var b, lines := TargetBatch(db, req), RequestLines(db, req);
            var ledger := Contribute(db.contributions, b, lines, req.memberships);
            LinesDue(db, req, b, ChargeAll(ledger, b, req.memberships, lines))
  {
    RequestLinesAreCalculated(db, req);
    ChargedLinesDue(db, req, TargetBatch(db, req), RequestLines(db, req));
  }

  lemma ChargedLinesDue(db: Db, req: Request, b: Id, lines: seq<Line>)
    requires forall n :: 0 <= n < |lines| ==>
               lines[n].employee in req.calculations && lines[n].figures == req.calculations[lines[n].employee]
    ensures var ledger := Contribute(db.contributions, b, lines, req.memberships);
            LinesDue(db, req, b, ChargeAll(ledger, b, req.memberships, lines))
  {
    var ledger := Contribute(db.contributions, b, lines, req.memberships);
    ChargeAllAt(ledger, b, req.memberships, lines);
    forall n | 0 <= n < |lines| ensures LineDue(db, req, b, Charge(ledger, b, req.memberships, lines[n])) {
      ChargedLineIs(db, req, b, lines, n);
    }
  }

  lemma InsertedAreCharged(db: Db, req: Request, open: Db, b: Id, lines: seq<Line>, i: Id)
    requires LinesDue(db, req, b, lines) && forall j :: j in open.items ==> open.items[j].batch != b
    requires i in InsertLines(open, b, lines).items && InsertLines(open, b, lines).items[i].batch == b
    ensures IsCharged(db, InsertLines(open, b, lines), req, b, i)
  {
    var n := LineOfItem(open, b, lines, i);
    RowsOfLine(open, b, lines, n);
    assert LineDue(db, req, b, lines[n]);
    var line := lines[n];
    RowsAreCharged(db, InsertLines(open, b, lines), req, b, i, line.employee, open.nextTransaction + n, line.figures);
  }

  lemma SameEmployeeSameItem(open: Db, b: Id, lines: seq<Line>, i: Id, j: Id)
    requires DistinctEmployees(lines) && forall k :: k in open.items ==> open.items[k].batch != b
    requires var db' := InsertLines(open, b, lines);
             i in db'.items && j in db'.items && db'.items[i].batch == b == db'.items[j].batch
             && db'.items[i].employee == db'.items[j].employee
    ensures i == j
  {
    var m := LineOfItem(open, b, lines, i);
    var n := LineOfItem(open, b, lines, j);
    RowsOfLine(open, b, lines, m);
    RowsOfLine(open, b, lines, n);
  }

  lemma WhoIsIn(db: Db, b: Id, lines: seq<Line>, e: Id)
    requires forall i :: i in db.items ==> db.items[i].batch != b
    ensures IsIn(InsertLines(db, b, lines), b, e) <==> HasLine(lines, e)
  {
    var db' := InsertLines(db, b, lines);
    if IsIn(db', b, e) {
      var i :| i in db'.items && ItemOf(db', b, e, i);
      var n := LineOfItem(db, b, lines, i);
      RowsOfLine(db, b, lines, n);
    }
    if HasLine(lines, e) {
      var n :| 0 <= n < |lines| && lines[n].employee == e;
      RowsOfLine(db, b, lines, n);
      assert ItemOf(db', b, e, db.nextItem + n);
    }
  }

  lemma SavingsAreEntered(db: Db, req: Request)
    requires ValidRequest(db, req)
    ensures EntersSavings(db, FillDraft(db, req, RequestLines(db, req)), req, TargetBatch(db, req))
  {
    var b, lines := TargetBatch(db, req), RequestLines(db, req);
    FillDraftBatches(db, req, lines);
    forall e ensures HasLine(lines, e) <==> Qualifies(db, req, e) {
      RequestLinesHold(db, req, e);
    }
    ContributedAt(db.contributions, b, lines, req.memberships);
  }

  lemma ContributedAt(contributions: map<(Id, Id), Money>, b: Id, lines: seq<Line>, memberships: map<Id, Money>)
    ensures var ledger := Contribute(contributions, b, lines, memberships);
            forall e, c ::
              && ((e, c) in ledger <==>
                    (e, c) in contributions || (c == b && e in memberships && HasLine(lines, e)))
              && ((e, c) in ledger ==>
                    ledger[(e, c)] == if (e, c) in contributions then contributions[(e, c)] else memberships[e])
  {
  }

  lemma RowIsFilled(db: Db, req: Request)
    requires Inv(db) && ValidRequest(db, req)
    ensures var db', b := FillDraft(db, req, RequestLines(db, req)), TargetBatch(db, req);
            && IsTarget(db, req, b)
            && b in db'.batches && db'.batches == db.batches[b := db'.batches[b]]
            && db'.batches[b].(totals := ZERO) == Batch(req.location, req.month, req.year, ZERO, DRAFT, 1)
            && db'.batches[b].totals.employees == |Qualified(db, req)|
  {
    var b, lines := TargetBatch(db, req), RequestLines(db, req);
    var ledger := Contribute(db.contributions, b, lines, req.memberships);
    var charged := ChargeAll(ledger, b, req.memberships, lines);
    FillDraftBatches(db, req, lines);
    OpenedRow(db, req, LineSum(charged));
    ChargeKeepsEmployees(ledger, b, req.memberships, lines);
    LineSumCounts(charged);
    QualifiedAreCounted(db, req);
  }

  lemma OpenedRow(db: Db, req: Request, totals: Totals)
    requires Bounded(db) && Stepped(db) && ValidRequest(db, req)
    ensures var open, b := OpenDraft(db, req, totals), TargetBatch(db, req);
            && IsTarget(db, req, b)
            && open.batches == db.batches[b := Batch(req.location, req.month, req.year, totals, DRAFT, 1)]
  {
  }

  /** A successful creation does what it is asked, and nothing else to any batch row or ledger entry. */
  lemma CreationIsAsAsked(db: Db, actor: Actor, req: Request)
    requires Inv(db) && ValidRequest(db, req) && CreateBatch(db, actor, req).Ok?
    ensures CreatedAsAsked(db, CreateBatch(db, actor, req).value, req, TargetBatch(db, req))
  {
    FillingIsAsAsked(db, req);
  }

  lemma FillingIsAsAsked(db: Db, req: Request)
    requires Inv(db) && ValidRequest(db, req)
    ensures CreatedAsAsked(db, FillDraft(db, req, RequestLines(db, req)), req, TargetBatch(db, req))
  {
    var db', b := FillDraft(db, req, RequestLines(db, req)), TargetBatch(db, req);
    RowIsFilled(db, req);
    SavingsAreEntered(db, req);
    RequestLinesAreDistinct(db, req);
    ChargedLinesAreDue(db, req);
    var open, charged := FilledFrom(db, req, RequestLines(db, req));
    ChargedHold(Contribute(db.contributions, b, RequestLines(db, req), req.memberships), b, req.memberships,
                RequestLines(db, req));
    forall e ensures IsIn(db', b, e) <==> Qualifies(db, req, e) {
      WhoIsIn(open, b, charged, e);
      RequestLinesHold(db, req, e);
    }
    forall i | i in db'.items && db'.items[i].batch == b ensures IsCharged(db, db', req, b, i) {
      InsertedAreCharged(db, req, open, b, charged, i);
    }
    forall e, i, j | ItemOf(db', b, e, i) && ItemOf(db', b, e, j) ensures i == j {
      SameEmployeeSameItem(open, b, charged, i, j);
    }
  }

  /** Which error refuses a creation: another location, nobody asked for, everybody already in an active batch
      of the period, or nobody left with a calculation. */
  ghost predicate RefusedFor(db: Db, actor: Actor, req: Request, outcome: Result<Db, Error>) {
    var allowed := SuperAdmin in actor.roles || actor.location == Some(req.location);
    var taken := forall e :: e in req.employees ==> exists j :: TakesPart(db, req.month, req.year, e, j);
    && (outcome.Ok? <==> allowed && Qualified(db, req) != {})
    && (outcome == Err(WrongLocation) <==> !allowed)
    && (outcome == Err(NoEmployees) <==> allowed && req.employees == [])
    && (outcome == Err(AllProcessed) <==> allowed && req.employees != [] && taken)
    && (outcome == Err(NoStructures) <==> allowed && !taken && Qualified(db, req) == {})
  }

  lemma CreationRefusedFor(db: Db, actor: Actor, req: Request)
    requires ValidRequest(db, req)
    ensures RefusedFor(db, actor, req, CreateBatch(db, actor, req))
  {
    var processed := AlreadyProcessed(db, req.month, req.year);
    QualifiedAreCounted(db, req);
    LinesAreDistinct(req.employees, processed, req.calculations);
    forall e ensures e in processed <==> exists j :: TakesPart(db, req.month, req.year, e, j) {
      ProcessedIff(db, req.month, req.year, e);
    }
    if Eligible(req.employees, processed) == [] {
      assert RequestLines(db, req) == [];
      assert forall e :: e in req.employees ==> e in processed;
    } else {
      assert Eligible(req.employees, processed)[0] in Eligible(req.employees, processed);
    }
  }
}
