/** The payroll service: the tables as fields, each call a method that updates them step by step. */
module PayrollService {
  import opened Wrappers
  import opened Ledger
  import opened PayCalculation
  import opened PayrollState
  import opened PayrollInvariants
  import opened PayrollGuarantees
  import opened PayrollCreation
  import opened PayrollMoves
  import PayrollRuns

  /** `InsertLines` copies the other tables through. */
  lemma {:induction false} InsertLinesFrame(db: Db, b: Id, lines: seq<Line>, batches: map<Id, Batch>,
                                            ledger: map<(Id, Id), Money>)
    ensures InsertLines(db.(batches := batches, contributions := ledger), b, lines)
            == InsertLines(db, b, lines).(batches := batches, contributions := ledger)
  {
    if lines != [] {
      InsertLinesFrame(db, b, lines[..|lines| - 1], batches, ledger);
    }
  }

  function WithFigures(db: Db, t: Id, figures: Figures): Db
    requires t in db.transactions
  {
    db.(transactions := db.transactions[t := db.transactions[t].(figures := figures)])
  }

  /** Rewriting an older transaction and inserting a line commute. */
  lemma InsertLineCommutes(db: Db, b: Id, line: Line, t: Id, figures: Figures)
    requires t in db.transactions && t < db.nextTransaction
    ensures InsertLine(WithFigures(db, t, figures), b, line) == WithFigures(InsertLine(db, b, line), t, figures)
  {
    var rows := db.transactions;
    var row := rows[t].(figures := figures);
    var added := Transaction(line.employee, line.figures, Unpaid);
    assert rows[t := row][db.nextTransaction := added] == rows[db.nextTransaction := added][t := row];
  }

  /** Rewriting the figures of one inserted transaction is inserting the line with other figures. */
  lemma {:induction false} InsertLinesWithFigures(db: Db, b: Id, lines: seq<Line>, k: nat, figures: Figures)
    requires k < |lines|
    ensures var t := db.nextTransaction + k;
            && t in InsertLines(db, b, lines).transactions
            && InsertLines(db, b, lines[k := lines[k].(figures := figures)])
               == WithFigures(InsertLines(db, b, lines), t, figures)
  {
    var last := |lines| - 1;
    var lines' := lines[k := lines[k].(figures := figures)];
    var front := InsertLines(db, b, lines[..last]);
    InsertLinesAddRows(db, b, lines[..last]);
    InsertedTransactionAt(db, b, lines, k);
    if k < last {
      InsertLinesWithFigures(db, b, lines[..last], k, figures);
      assert lines'[..last] == lines[..last][k := lines[k].(figures := figures)];
      InsertLineCommutes(front, b, lines[last], db.nextTransaction + k, figures);
    } else {
      assert lines'[..last] == lines[..last];
    }
  }

  /** What a member is charged: the batch's ledger entry if there is one, else the monthly amount. */
  function Amount(contributions: map<(Id, Id), Money>, b: Id, memberships: map<Id, Money>, e: Id): Money
    requires e in memberships
  {
    if (e, b) in contributions then contributions[(e, b)] else memberships[e]
  }

  /** The ledger with an entry for each of `members`. */
  function Entered(contributions: map<(Id, Id), Money>, b: Id, memberships: map<Id, Money>, members: seq<Id>)
    : map<(Id, Id), Money>
    requires forall e :: e in members ==> e in memberships
  {
    if members == [] then contributions
    else
      var e := members[|members| - 1];
      var before := Entered(contributions, b, memberships, members[..|members| - 1]);
      before[(e, b) := Amount(contributions, b, memberships, e)]
  }

  lemma {:induction false} EnteredAt(contributions: map<(Id, Id), Money>, b: Id, memberships: map<Id, Money>,
                                     members: seq<Id>, key: (Id, Id))
    requires forall e :: e in members ==> e in memberships
    ensures var ledger := Entered(contributions, b, memberships, members);
            && (key in ledger <==> key in contributions || (key.1 == b && key.0 in members))
            && (key in ledger ==>
              ledger[key] == if key in contributions then contributions[key] else memberships[key.0])
  {
    if members != [] {
      EnteredAt(contributions, b, memberships, members[..|members| - 1], key);
    }
  }

  /** Writing the entries one by one gives the ledger that batch creation is specified to leave. */
  lemma EnteredIsContributed(contributions: map<(Id, Id), Money>, b: Id, memberships: map<Id, Money>,
                             members: seq<Id>, lines: seq<Line>)
    requires forall e :: e in members <==> e in memberships && HasLine(lines, e)
    ensures Entered(contributions, b, memberships, members) == Contribute(contributions, b, lines, memberships)
  {
    forall key: (Id, Id) ensures
      var ledger := Entered(contributions, b, memberships, members);
      var ledger' := Contribute(contributions, b, lines, memberships);
      (key in ledger <==> key in ledger') && (key in ledger ==> ledger[key] == ledger'[key])
    {
      EnteredAt(contributions, b, memberships, members, key);
    }
  }

  predicate Names(deductions: seq<(Id, Money)>, e: Id) {
    exists n | 0 <= n < |deductions| :: deductions[n].0 == e
  }

  lemma NamesGrows(deductions: seq<(Id, Money)>, n: nat)
    requires n < |deductions|
    ensures forall e :: Names(deductions[..n + 1], e) <==> Names(deductions[..n], e) || e == deductions[n].0
  {
    forall e ensures Names(deductions[..n + 1], e) <==> Names(deductions[..n], e) || e == deductions[n].0 {
      if Names(deductions[..n], e) {
        var m :| 0 <= m < n && deductions[..n][m].0 == e;
        assert deductions[..n + 1][m].0 == e;
      }
      if e == deductions[n].0 {
        assert deductions[..n + 1][n].0 == e;
      }
    }
  }

  /** One deduction for each line of a member, of its ledger entry. */
  ghost predicate AreDeductions(
    deductions: seq<(Id, Money)>, ledger: map<(Id, Id), Money>, b: Id, memberships: map<Id, Money>, lines: seq<Line>)
  {
    && (forall m, n :: 0 <= m < n < |deductions| ==> deductions[m].0 != deductions[n].0)
    && (forall n :: 0 <= n < |deductions| ==>
          HasLine(lines, deductions[n].0)
          && deductions[n].0 in memberships
          && (deductions[n].0, b) in ledger && ledger[(deductions[n].0, b)] == deductions[n].1)
    && (forall k :: 0 <= k < |lines| && lines[k].employee in memberships ==> Names(deductions, lines[k].employee))
  }

  lemma EnteredAreDeductions(contributions: map<(Id, Id), Money>, b: Id, memberships: map<Id, Money>,
                             members: seq<Id>, lines: seq<Line>, deductions: seq<(Id, Money)>)
    requires forall e :: e in members <==> e in memberships && HasLine(lines, e)
    requires forall m, n :: 0 <= m < n < |members| ==> members[m] != members[n]
    requires |deductions| == |members|
    requires forall n :: 0 <= n < |members| ==>
            deductions[n] == (members[n], Amount(contributions, b, memberships, members[n]))
    ensures AreDeductions(deductions, Entered(contributions, b, memberships, members), b, memberships, lines)
  {
    forall n | 0 <= n < |members| {
      EnteredAt(contributions, b, memberships, members, (members[n], b));
    }
    forall k | 0 <= k < |lines| && lines[k].employee in memberships ensures Names(deductions, lines[k].employee) {
      assert HasLine(lines, lines[k].employee);
      var n :| 0 <= n < |members| && members[n] == lines[k].employee;
      assert deductions[n].0 == lines[k].employee;
    }
  }

  /** The lines named by the deductions are charged, the others not yet. */
  ghost predicate PartlyCharged(charged: seq<Line>, lines: seq<Line>, deductions: seq<(Id, Money)>,
                                ledger: map<(Id, Id), Money>, b: Id, memberships: map<Id, Money>) {
    && |charged| == |lines|
    && (forall k :: 0 <= k < |lines| ==> charged[k].employee == lines[k].employee)
    && (forall k :: 0 <= k < |lines| ==>
          charged[k] == if Names(deductions, lines[k].employee) then Charge(ledger, b, memberships, lines[k])
                        else lines[k])
  }

  lemma ChargingStep(before: seq<Line>, after: seq<Line>, lines: seq<Line>, deductions: seq<(Id, Money)>, n: nat,
                     k: nat,
                     ledger: map<(Id, Id), Money>, b: Id, memberships: map<Id, Money>)
    requires DistinctEmployees(lines) && AreDeductions(deductions, ledger, b, memberships, lines) && n < |deductions|
    requires PartlyCharged(before, lines, deductions[..n], ledger, b, memberships)
    requires k < |before| && before[k].employee == deductions[n].0
    requires after == before[k := before[k].(figures := Adjust(before[k].figures, deductions[n].1))]
    ensures PartlyCharged(after, lines, deductions[..n + 1], ledger, b, memberships)
  {
    NamesGrows(deductions, n);
    assert !Names(deductions[..n], deductions[n].0);
  }

  /** The rows of an employee in a batch. */
  predicate RowOf(db: Db, b: Id, e: Id, i: Id) {
    i in db.items && db.items[i].batch == b && db.items[i].employee == e
  }

  function TransactionsOf(db: Db, b: Id, e: Id): set<Id> {
    set i | i in db.items && RowOf(db, b, e, i) :: db.items[i].transaction
  }

  /** An employee and batch select exactly the transaction inserted for that employee's line. */
  lemma TransactionsOfInserted(db: Db, b: Id, lines: seq<Line>, k: nat)
    requires k < |lines| && DistinctEmployees(lines)
    requires forall i :: i in db.items ==> db.items[i].batch != b
    ensures TransactionsOf(InsertLines(db, b, lines), b, lines[k].employee) == {db.nextTransaction + k}
  {
    var db' := InsertLines(db, b, lines);
    InsertedItemAt(db, b, lines, k);
    assert RowOf(db', b, lines[k].employee, db.nextItem + k);
    InsertLinesAddRows(db, b, lines);
  }

  function Retotalled(db: Db, b: Id, totals: Totals): Db
    requires b in db.batches
  {
    db.(batches := db.batches[b := db.batches[b].(totals := totals)])
  }

  lemma RetotalledInserted(db: Db, b: Id, lines: seq<Line>, totals: Totals, ledger: map<(Id, Id), Money>)
    requires b in db.batches
    ensures InsertLines(Retotalled(db, b, totals).(contributions := ledger), b, lines)
            == InsertLines(db.(contributions := ledger), b, lines).(batches := Retotalled(db, b, totals).batches)
  {
    InsertLinesFrame(db, b, lines, Retotalled(db, b, totals).batches, ledger);
    InsertLinesFrame(db, b, lines, db.batches, ledger);
  }

  /** Opening a draft with some totals and then storing others is opening it with those. */
  lemma OpenDraftWithTotals(db: Db, req: Request, totals: Totals, totals': Totals)
    requires ValidRequest(db, req)
    ensures var b := TargetBatch(db, req);
            var open := OpenDraft(db, req, totals);
            b in open.batches && open.batches[b].totals == totals
            && OpenDraft(db, req, totals') == Retotalled(open, b, totals')
  {
  }

  lemma OpenDraftIsEmpty(db: Db, req: Request, totals: Totals)
    requires Bounded(db) && ValidRequest(db, req)
    ensures var open := OpenDraft(db, req, totals);
            forall i :: i in open.items ==> open.items[i].batch != TargetBatch(db, req)
  {
  }

  /** Savings change neither the head count nor the gross, allowance and tax sums. */
  lemma {:induction false} ChargedSums(contributions: map<(Id, Id), Money>, b: Id, memberships: map<Id, Money>,
                                       lines: seq<Line>)
    ensures var sum := LineSum(lines);
            var charged := LineSum(ChargeAll(contributions, b, memberships, lines));
            charged == sum.(amount := charged.amount, deductions := charged.deductions)
  {
    if lines != [] {
      ChargeAllAt(contributions, b, memberships, lines);
      ChargedSums(contributions, b, memberships, lines[..|lines| - 1]);
      LineSumStep(lines);
      LineSumStep(ChargeAll(contributions, b, memberships, lines));
    }
  }

  // ---------- what each call leaves ----------

  lemma ItemApprovalKeepsInv(db: Db, i: Id)
    requires Inv(db) && i in db.items && UnderReview(db, db.items[i].batch)
    ensures var db' := ItemApprovedIn(db, i);
            Inv(db') && SameRows(db, db') && i in db'.items && db'.items[i].status == ItemApproved
  {
    ApproveItemKeepsInv(db, i);
    ItemStatuses(db, i);
  }

  lemma ItemRejectionKeepsInv(db: Db, i: Id)
    requires Inv(db) && i in db.items && UnderReview(db, db.items[i].batch)
    requires db.items[i].transaction in db.transactions
    ensures var db' := ItemRejectedIn(db, i);
            Inv(db') && SameRows(db, db') && IsRefused(db', i)
  {
    RejectItemKeepsInv(db, i);
    ItemStatuses(db, i);
  }

  lemma ApproveItemOutcome(db: Db, i: Id, actor: Actor, org: Org)
    requires Inv(db)
    ensures match PayrollState.ApproveItem(db, i, actor, org)
            case Ok(db') => Inv(db') && SameRows(db, db') && ApprovesItem(db, db', i)
            case Err(_) => true
  {
    if PayrollState.ApproveItem(db, i, actor, org).Ok? {
      PayrollRuns.GuardMeansUnderReview(db, db.items[i].batch, actor, org);
      ItemApprovalKeepsInv(db, i);
      ItemApprovalMarks(db, i);
    }
  }

  lemma RejectItemOutcome(db: Db, i: Id, actor: Actor, org: Org)
    requires Inv(db)
    ensures match PayrollState.RejectItem(db, i, actor, org)
            case Ok(db') => Inv(db') && SameRows(db, db') && IsRefused(db', i) && RefusesItem(db, db', i)
            case Err(_) => true
  {
    if PayrollState.RejectItem(db, i, actor, org).Ok? {
      PayrollRuns.GuardMeansUnderReview(db, db.items[i].batch, actor, org);
      ItemRejectionKeepsInv(db, i);
      ItemRejectionRefuses(db, i);
    }
  }

  /** The item is rejected and so is its transaction. */
  predicate IsRefused(db: Db, i: Id) {
    && i in db.items && db.items[i].status == ItemRejected
    && db.items[i].transaction in db.transactions && db.transactions[db.items[i].transaction].status == Refused
  }

  lemma ItemStatuses(db: Db, i: Id)
    requires i in db.items && db.items[i].batch in db.batches && db.items[i].transaction in db.transactions
    ensures i in ItemApprovedIn(db, i).items && ItemApprovedIn(db, i).items[i].status == ItemApproved
    ensures IsRefused(ItemRejectedIn(db, i), i)
  {
  }

  lemma BatchApprovalKeepsInv(db: Db, b: Id, actor: Actor, org: Org)
    requires Inv(db) && GuardError(db, b, actor, org) == None
    ensures UnderReview(db, b) && (IsFinalApproval(db.batches[b], org) <==> IsLast(db.batches[b], org))
    ensures var final := IsLast(db.batches[b], org);
            && Inv(BatchApproved(db, b, final))
            && (if final then MayFinalise(actor, org) else MayInitiate(actor, db.batches[b]))
            && (if final then Stage(BatchApproved(db, b, final), b).0 == APPROVED
                else Stage(BatchApproved(db, b, final), b) == (MANAGER_APPROVED, 2))
            && SplitsOff(db, BatchApproved(db, b, final), b) && PaysIff(db, BatchApproved(db, b, final), b, final)
  {
    GuardAllowsIff(db, b, actor, org);
    PayrollRuns.AcceptBatchKeepsInv(db, b, org);
    PayrollRuns.NonFinalMeansFirstStep(db, b, org);
    ApprovalOutcome(db, b, IsLast(db.batches[b], org));
  }

  lemma ApprovalOutcome(db: Db, b: Id, final: bool)
    requires Inv(db) && UnderReview(db, b) && (!final ==> db.batches[b].step == 1)
    ensures var db' := BatchApproved(db, b, final);
            && (if final then Stage(db', b).0 == APPROVED else Stage(db', b) == (MANAGER_APPROVED, 2))
            && SplitsOff(db, db', b) && PaysIff(db, db', b, final)
  {
    BatchApprovedStage(db, b, final, b);
    ApprovalSplitsOff(db, b, final);
    ApprovalPaysIff(db, b, final);
  }

  /** The batch is REJECTED with its items as they are, or a draft at the first step with all of them pending;
      no transaction, contribution, other batch or other item changes. */
  ghost predicate SendsBack(db: Db, db': Db, b: Id, terminal: bool) {
    && b in db.batches && db'.transactions == db.transactions && db'.contributions == db.contributions
    && (if terminal then
          db'.items == db.items && db'.batches == db.batches[b := db.batches[b].(status := REJECTED)]
        else
          && db'.batches == db.batches[b := db.batches[b].(status := DRAFT, step := 1)]
          && db'.items.Keys == db.items.Keys
          && (forall i :: i in db.items ==>
                db'.items[i] == if db.items[i].batch == b then db.items[i].(status := ItemPending) else db.items[i]))
  }

  lemma RejectBatchOutcome(db: Db, b: Id, actor: Actor, org: Org)
    requires Inv(db)
    ensures match PayrollState.RejectBatch(db, b, actor, org)
            case Ok(db') => Inv(db') && SameRows(db, db') && SendsBack(db, db', b, SuperAdmin in actor.roles)
            case Err(_) => true
  {
    if GuardError(db, b, actor, org).None? {
      PayrollRuns.GuardMeansUnderReview(db, b, actor, org);
      SendingBack(db, b);
    }
  }

  lemma SendingBack(db: Db, b: Id)
    requires Inv(db) && UnderReview(db, b)
    ensures Inv(SetStatus(db, b, REJECTED)) && Inv(ReturnToDraft(db, b))
    ensures SameRows(db, SetStatus(db, b, REJECTED)) && SameRows(db, ReturnToDraft(db, b))
    ensures SendsBack(db, SetStatus(db, b, REJECTED), b, true) && SendsBack(db, ReturnToDraft(db, b), b, false)
  {
    RejectBatchKeepsInv(db, b);
    ReturnToDraftKeepsInv(db, b);
  }

  lemma CreationOutcome(db: Db, actor: Actor, req: Request)
    requires Inv(db) && ValidRequest(db, req)
    ensures match PayrollState.CreateBatch(db, actor, req)
            case Ok(db') =>
              && Inv(db') && CreatedAsAsked(db, db', req, TargetBatch(db, req))
              && (forall c :: c in db.batches && c != TargetBatch(db, req) ==> PayrollRuns.Frozen(db, db', c))
            case Err(_) => forall c :: c in db.batches ==> PayrollRuns.Frozen(db, db, c)
    ensures RefusedFor(db, actor, req, PayrollState.CreateBatch(db, actor, req))
  {
    CreationRefusedFor(db, actor, req);
    forall c | c in db.batches ensures PayrollRuns.Frozen(db, db, c) {
      PayrollRuns.FrozenIsReflexive(db, c);
    }
    if PayrollState.CreateBatch(db, actor, req).Ok? {
      FillingOutcome(db, req);
    }
  }

  lemma FillingOutcome(db: Db, req: Request)
    requires Inv(db) && ValidRequest(db, req)
    ensures var db' := FillDraft(db, req, RequestLines(db, req));
            && Inv(db') && CreatedAsAsked(db, db', req, TargetBatch(db, req))
            && forall c :: c in db.batches && c != TargetBatch(db, req) ==> PayrollRuns.Frozen(db, db', c)
  {
    PayrollRuns.CreateKeepsInv(db, req);
    FillingIsAsAsked(db, req);
    forall c | c in db.batches && c != TargetBatch(db, req)
      ensures PayrollRuns.Frozen(db, FillDraft(db, req, RequestLines(db, req)), c)
    {
      PayrollRuns.CreateFreezesOthers(db, req, c);
    }
  }

  class PayrollService {
    var batches: map<Id, Batch>
    var items: map<Id, Item>
    var transactions: map<Id, Transaction>
    var contributions: map<(Id, Id), Money>
    var nextBatch: Id
    var nextItem: Id
    var nextTransaction: Id

    ghost function State(): Db
      reads this
    {
      Db(batches, items, transactions, contributions, nextBatch, nextItem, nextTransaction)
    }

    constructor ()
      ensures Inv(State())
    {
      batches, items, transactions, contributions := map[], map[], map[], map[];
      nextBatch, nextItem, nextTransaction := 1, 1, 1;
    }

    /** A draft or a rejected batch is submitted with the rows and totals it has, to the first step; any other
        is refused. */
    method SubmitBatch(b: Id) returns (error: Option<Error>)
      requires Inv(State())
      modifies this
      ensures Inv(State())
      ensures error == None <==> b in old(batches) && old(batches)[b].status in {DRAFT, REJECTED}
      ensures error == None ==> SameRows(old(State()), State()) && Stage(State(), b) == (PENDING, 1)
      ensures items == old(items) && transactions == old(transactions) && contributions == old(contributions)
      ensures forall c :: c in batches && c != b ==> c in old(batches) && batches[c] == old(batches)[c]
      ensures match PayrollState.SubmitBatch(old(State()), b)
              case Ok(db) => error == None && State() == db
              case Err(e) => error == Some(e) && State() == old(State())
    {
      if b !in batches {
        return Some(NotFound);
      }
      if batches[b].status == APPROVED {
        return Some(Terminal);
      }
      if batches[b].status !in {DRAFT, REJECTED} {
        return Some(NotSubmittable);
      }
      SubmitKeepsInv(State(), b);
      batches := batches[b := batches[b].(status := PENDING, step := 1)];
      return None;
    }

    /** Scan the batch's items for one that is still pending. */
    method RecalculateBatchStatus(b: Id)
      requires b in batches && Bounded(State())
      modifies this`batches
      ensures State() == Recalculate(old(State()), b)
    {
      var hasItems, hasPending := false, false;
      for i := 0 to nextItem
        invariant hasItems <==> exists j :: 0 <= j < i && j in items && items[j].batch == b
        invariant hasPending <==>
                exists j :: 0 <= j < i && j in items && items[j].batch == b && items[j].status == ItemPending
      {
        if i in items && items[i].batch == b {
          hasItems := true;
          if items[i].status == ItemPending {
            hasPending := true;
          }
        }
      }
      if !hasItems || hasPending {
        return;
      }
      batches := batches[b := batches[b].(status := IN_REVIEW)];
    }

    /** A successful approval marks the one item, and its batch goes into review exactly when none of its items
        is pending any more; no money and no row moves. */
    method ApproveItem(i: Id, actor: Actor, org: Org) returns (error: Option<Error>)
      requires Inv(State())
      modifies this
      ensures Inv(State())
      ensures error == None ==>
                SameRows(old(State()), State()) && ApprovesItem(old(State()), State(), i)
      ensures match PayrollState.ApproveItem(old(State()), i, actor, org)
              case Ok(db) => error == None && State() == db
              case Err(e) => error == Some(e) && State() == old(State())
    {
      ApproveItemOutcome(State(), i, actor, org);
      error := AcceptIfAllowed(i, actor, org);
    }

    method AcceptIfAllowed(i: Id, actor: Actor, org: Org) returns (error: Option<Error>)
      requires Bounded(State()) && Referred(State())
      modifies this
      ensures match PayrollState.ApproveItem(old(State()), i, actor, org)
              case Ok(db) => error == None && State() == db
              case Err(e) => error == Some(e) && State() == old(State())
    {
      error := CheckItem(i, actor, org);
      if error.None? {
        AcceptItem(i);
      }
    }

    method AcceptItem(i: Id)
      requires i in items && items[i].batch in batches && Bounded(State())
      modifies this
      ensures State() == ItemApprovedIn(old(State()), i)
    {
      items := items[i := items[i].(status := ItemApproved)];
      RecalculateBatchStatus(items[i].batch);
    }

    /** A successful rejection of an item refuses its own transaction, and moves no money and no row. */
    method RejectItem(i: Id, actor: Actor, org: Org) returns (error: Option<Error>)
      requires Inv(State())
      modifies this
      ensures Inv(State())
      ensures error == None ==>
                SameRows(old(State()), State()) && RefusesItem(old(State()), State(), i)
      ensures match PayrollState.RejectItem(old(State()), i, actor, org)
              case Ok(db) => error == None && State() == db
              case Err(e) => error == Some(e) && State() == old(State())
    {
      RejectItemOutcome(State(), i, actor, org);
      error := RefuseIfAllowed(i, actor, org);
    }

    method RefuseIfAllowed(i: Id, actor: Actor, org: Org) returns (error: Option<Error>)
      requires Bounded(State()) && Referred(State())
      modifies this
      ensures match PayrollState.RejectItem(old(State()), i, actor, org)
              case Ok(db) => error == None && State() == db
              case Err(e) => error == Some(e) && State() == old(State())
    {
      error := CheckItem(i, actor, org);
      if error.None? {
        RefuseItem(i);
      }
    }

    method RefuseItem(i: Id)
      requires i in items && items[i].batch in batches && items[i].transaction in transactions && Bounded(State())
      modifies this
      ensures State() == ItemRejectedIn(old(State()), i)
    {
      var t := items[i].transaction;
      items := items[i := items[i].(status := ItemRejected)];
      transactions := transactions[t := transactions[t].(status := Refused)];
      RecalculateBatchStatus(items[i].batch);
    }

    method CheckItem(i: Id, actor: Actor, org: Org) returns (error: Option<Error>)
      requires Bounded(State()) && Referred(State())
      ensures error == ItemError(State(), i, actor, org)
      ensures error.None? ==> i in items && UnderReview(State(), items[i].batch) && items[i].transaction in transactions
    {
      if i !in items {
        return Some(NotFound);
      }
      error := Guard(items[i].batch, actor, org);
    }

    /** The guard passes exactly for a batch under review and an actor who may take the approval to come:
        finalise it when it is the last one, else initiate it. */
    method CheckBatch(b: Id, actor: Actor, org: Org) returns (error: Option<Error>)
      requires Stepped(State())
      ensures error == GuardError(State(), b, actor, org)
      ensures Answers(State(), b, actor, org, error)
    {
      GuardAnswers(State(), b, actor, org);
      error := Guard(b, actor, org);
    }

    method Guard(b: Id, actor: Actor, org: Org) returns (error: Option<Error>)
      ensures error == GuardError(State(), b, actor, org)
      ensures error == None ==> UnderReview(State(), b)
    {
      if b !in batches {
        return Some(NotFound);
      }
      error := ReviewError(batches[b]);
      if error.None? {
        error := ApprovalError(actor, batches[b], org);
      }
    }

    /** The rejected items of a batch, with the sum of their rows. */
    method CollectRejected(b: Id) returns (rejected: seq<Id>, moved: Totals)
      requires Bounded(State()) && Referred(State())
      ensures forall j: Id :: j in rejected <==> IsRejectedIn(State(), b, j)
      ensures moved == RejectedSum(State(), b)
    {
      rejected := [];
      moved := ZERO;
      ghost var db := State();
      for i := 0 to nextItem
        invariant forall j: Id :: j in rejected <==> j < i && IsRejectedIn(db, b, j)
        invariant moved == Sum(i, RejectedCells(db, b))
      {
        if i in items && items[i].batch == b && items[i].status == ItemRejected {
          rejected := rejected + [i];
          moved := moved.Plus(RowTotals(transactions[items[i].transaction].figures));
        } else {
          PlusZero(moved);
        }
      }
    }

    /** Move each rejected item, pending again, to a new draft, and take their sums off the batch. */
    method HandlePartialRejectionSplit(b: Id)
      requires b in batches && Bounded(State()) && Referred(State())
      modifies this
      ensures State() == SplitRejected(old(State()), b) && SplitsOff(old(State()), State(), b)
    {
      SplitSplitsOff(State(), b);
      var rejected, moved := CollectRejected(b);
      if rejected != [] {
        assert IsRejectedIn(State(), b, rejected[0]);
        SplitOff(b, rejected, moved);
      }
    }

    method SplitOff(b: Id, rejected: seq<Id>, moved: Totals)
      requires b in batches && b != nextBatch
      requires forall j: Id :: j in rejected <==> IsRejectedIn(State(), b, j)
      requires exists j: Id :: IsRejectedIn(State(), b, j)
      requires moved == RejectedSum(State(), b)
      modifies this
      ensures State() == SplitRejected(old(State()), b)
    {
      var batch := batches[b];
      var splitOff := nextBatch;
      batches := batches[splitOff := Batch(batch.location, batch.month, batch.year, moved, DRAFT, 1)];
      nextBatch := nextBatch + 1;
      MoveItems(rejected, splitOff);
      batches := batches[b := batch.(totals := batch.totals.Minus(moved))];
      assert items == SplitRejected(old(State()), b).items;
    }

    method MoveItems(moving: seq<Id>, target: Id)
      requires forall i :: i in moving ==> i in items
      modifies this`items
      ensures items == map i | i in old(items) ::
                if i in moving then old(items)[i].(batch := target, status := ItemPending) else old(items)[i]
    {
      for n := 0 to |moving|
        invariant items.Keys == old(items).Keys
        invariant forall i :: i in items ==>
                    items[i] == if i in moving[..n] then old(items)[i].(batch := target, status := ItemPending)
                                else old(items)[i]
      {
        var i := moving[n];
        assert moving[..n + 1] == moving[..n] + [i];
        items := items[i := items[i].(batch := target, status := ItemPending)];
      }
      assert moving[..|moving|] == moving;
    }

    /** A successful approval is by somebody entitled to it, and brings the batch to APPROVED when it was the
        final one and to the second step otherwise. */
    method ApproveBatch(b: Id, actor: Actor, org: Org) returns (error: Option<Error>)
      requires Inv(State())
      modifies this
      ensures Inv(State())
      ensures error == None ==>
                && b in old(batches)
                && if IsLast(old(batches)[b], org)
                   then MayFinalise(actor, org) && Stage(State(), b).0 == APPROVED
                   else MayInitiate(actor, old(batches)[b]) && Stage(State(), b) == (MANAGER_APPROVED, 2)
      ensures error == None ==>
                && SplitsOff(old(State()), State(), b)
                && PaysIff(old(State()), State(), b, IsLast(old(batches)[b], org))
      ensures match PayrollState.ApproveBatch(old(State()), b, actor, org)
              case Ok(db) => error == None && State() == db
              case Err(e) => error == Some(e) && State() == old(State())
    {
      error := CheckBatch(b, actor, org);
      if error.None? {
        BatchApprovalKeepsInv(State(), b, actor, org);
        AcceptBatch(b, org);
      }
    }

    method AcceptBatch(b: Id, org: Org)
      requires b in batches && Bounded(State()) && Referred(State())
      modifies this
      ensures State() == BatchApproved(old(State()), b, IsFinalApproval(old(batches)[b], org))
    {
      var isFinal := batches[b].step >= (if batches[b].location in org.initialApproverAt then 2 else 1);
      var nextStep := batches[b].step + 1;
      HandlePartialRejectionSplit(b);
      FinishApproval(b, isFinal, nextStep);
    }

    method FinishApproval(b: Id, isFinal: bool, nextStep: int)
      requires b in batches && Bounded(State()) && nextStep == batches[b].step + 1
      modifies this
      ensures State() == if isFinal then PayBatch(old(State()), b) else PassOn(old(State()), b)
    {
      if isFinal {
        PayItems(b);
      } else {
        batches := batches[b := batches[b].(status := MANAGER_APPROVED, step := nextStep)];
      }
    }

    /** Approve every item not rejected, pay its transaction, and close the batch. */
    method PayItems(b: Id)
      requires b in batches && Bounded(State())
      modifies this
      ensures State() == PayBatch(old(State()), b)
    {
      ghost var db := State();
      var payable: set<Id> := {};
      for i := 0 to nextItem
        invariant State() == db
        invariant payable == set j | j in items && j < i && items[j].batch == b && items[j].status != ItemRejected
                                  :: items[j].transaction
      {
        if i in items && items[i].batch == b && items[i].status != ItemRejected {
          payable := payable + {items[i].transaction};
        }
      }
      assert payable == PayableTransactions(db, b);
      items := map i | i in items ::
        if items[i].batch == b && items[i].status != ItemRejected then items[i].(status := ItemApproved) else items[i];
      transactions := map t | t in transactions ::
        if t in payable then transactions[t].(status := Paid) else transactions[t];
      batches := batches[b := batches[b].(status := APPROVED)];
    }

    /** A rejection moves no money and no row: from a super admin the batch is REJECTED, from anyone else
        allowed it is a draft again, at the first step and with every item pending. */
    method RejectBatch(b: Id, actor: Actor, org: Org) returns (error: Option<Error>)
      requires Inv(State())
      modifies this
      ensures Inv(State())
      ensures error == None ==>
                && SameRows(old(State()), State())
                && SendsBack(old(State()), State(), b, SuperAdmin in actor.roles)
      ensures match PayrollState.RejectBatch(old(State()), b, actor, org)
              case Ok(db) => error == None && State() == db
              case Err(e) => error == Some(e) && State() == old(State())
    {
      RejectBatchOutcome(State(), b, actor, org);
      error := SendBackIfAllowed(b, actor, org);
    }

    method SendBackIfAllowed(b: Id, actor: Actor, org: Org) returns (error: Option<Error>)
      modifies this
      ensures match PayrollState.RejectBatch(old(State()), b, actor, org)
              case Ok(db) => error == None && State() == db
              case Err(e) => error == Some(e) && State() == old(State())
    {
      error := Guard(b, actor, org);
      if error.None? {
        SendBack(b, SuperAdmin in actor.roles);
      }
    }

    method SendBack(b: Id, terminal: bool)
      requires b in batches
      modifies this
      ensures State() == if terminal then SetStatus(old(State()), b, REJECTED) else ReturnToDraft(old(State()), b)
    {
      if terminal {
        batches := batches[b := batches[b].(status := REJECTED)];
      } else {
        items := map i | i in items ::
          if items[i].batch == b then items[i].(status := ItemPending) else items[i];
        batches := batches[b := batches[b].(status := DRAFT, step := 1)];
      }
    }

    // ---------- creating a batch ----------

    method CollectLines(req: Request) returns (eligible: seq<Id>, lines: seq<Line>)
      requires ValidRequest(State(), req)
      ensures eligible == Eligible(req.employees, AlreadyProcessed(State(), req.month, req.year))
      ensures lines == RequestLines(State(), req)
      ensures forall e :: HasLine(lines, e) <==> Qualifies(State(), req, e)
      ensures forall n :: 0 <= n < |lines| ==>
                lines[n].employee in req.calculations && lines[n].figures == req.calculations[lines[n].employee]
    {
      RequestLinesAreCalculated(State(), req);
      forall e ensures HasLine(RequestLines(State(), req), e) <==> Qualifies(State(), req, e) {
        RequestLinesHold(State(), req, e);
      }
      var processed := set i | i in items && items[i].batch in batches
                                 && batches[items[i].batch].month == req.month
                                 && batches[items[i].batch].year == req.year
                                 && batches[items[i].batch].status !in {DRAFT, REJECTED}
                                 :: items[i].employee;
      assert processed == AlreadyProcessed(State(), req.month, req.year);
      eligible := [];
      for n := 0 to |req.employees|
        invariant eligible == Eligible(req.employees[..n], processed)
      {
        assert req.employees[..n + 1][..n] == req.employees[..n];
        if req.employees[n] !in processed {
          eligible := eligible + [req.employees[n]];
        }
      }
      assert req.employees[..|req.employees|] == req.employees;
      lines := [];
      for n := 0 to |eligible|
        invariant lines == Lines(eligible[..n], req.calculations)
      {
        assert eligible[..n + 1][..n] == eligible[..n];
        if eligible[n] in req.calculations {
          lines := lines + [Line(eligible[n], req.calculations[eligible[n]])];
        }
      }
      assert eligible[..|eligible|] == eligible;
    }

    /** `calculations.reduce(...)`, all six totals at once. */
    static method Reduce(lines: seq<Line>) returns (totals: Totals)
      ensures totals == LineSum(lines)
    {
      totals := ZERO;
      for n := 0 to |lines|
        invariant totals == Sum(n, LineCells(lines))
      {
        totals := totals.Plus(RowTotals(lines[n].figures));
      }
    }

    method OpenBatch(req: Request, totals: Totals) returns (b: Id)
      requires ValidRequest(State(), req)
      modifies this
      ensures b == TargetBatch(old(State()), req) && State() == OpenDraft(old(State()), req, totals)
    {
      if req.draft.Some? {
        b := req.draft.value;
        var gone := set i | i in items && items[i].batch == b :: items[i].transaction;
        items := map i | i in items && items[i].batch != b :: items[i];
        transactions := map t | t in transactions && t !in gone :: transactions[t];
        batches := batches[b := batches[b].(totals := totals)];
      } else {
        b := nextBatch;
        batches := batches[b := Batch(req.location, req.month, req.year, totals, DRAFT, 1)];
        nextBatch := nextBatch + 1;
      }
    }

    method InsertRows(b: Id, lines: seq<Line>)
      modifies this
      ensures State() == InsertLines(old(State()), b, lines)
    {
      for n := 0 to |lines|
        invariant State() == InsertLines(old(State()), b, lines[..n])
      {
        assert lines[..n + 1][..n] == lines[..n];
        var t := nextTransaction;
        transactions := transactions[t := Transaction(lines[n].employee, lines[n].figures, Unpaid)];
        nextTransaction := nextTransaction + 1;
        items := items[nextItem := Item(b, lines[n].employee, t, ItemPending)];
        nextItem := nextItem + 1;
      }
      assert lines[..|lines|] == lines;
    }

    /** The active memberships of the employees paid in the batch. */
    static method FindMembers(lines: seq<Line>, memberships: map<Id, Money>) returns (members: seq<Id>)
      ensures forall e :: e in members <==> e in memberships && HasLine(lines, e)
      ensures forall m, n :: 0 <= m < n < |members| ==> members[m] != members[n]
    {
      members := [];
      var active := set e | e in memberships && HasLine(lines, e);
      var todo := active;
      while todo != {}
        invariant forall e :: e in members <==> e in active && e !in todo
        invariant todo <= active
        invariant forall m, n :: 0 <= m < n < |members| ==> members[m] != members[n]
        decreases todo
      {
        var e :| e in todo;
        todo := todo - {e};
        members := members + [e];
      }
    }

    /** `deductForBatch`: reuse the batch's ledger entry of each member, or write one. */
    method DeductForBatch(b: Id, members: seq<Id>, memberships: map<Id, Money>) returns (deductions: seq<(Id, Money)>)
      requires forall e :: e in members ==> e in memberships
      modifies this`contributions
      ensures contributions == Entered(old(contributions), b, memberships, members)
      ensures |deductions| == |members|
      ensures forall n :: 0 <= n < |members| ==>
                deductions[n] == (members[n], Amount(old(contributions), b, memberships, members[n]))
    {
      deductions := [];
      var existing := contributions;
      for n := 0 to |members|
        invariant contributions == Entered(existing, b, memberships, members[..n])
        invariant |deductions| == n
        invariant forall k :: 0 <= k < n ==>
                    deductions[k] == (members[k], Amount(existing, b, memberships, members[k]))
      {
        var e := members[n];
        assert members[..n + 1][..n] == members[..n];
        if (e, b) in existing {
          deductions := deductions + [(e, existing[(e, b)])];
          EnteredAt(existing, b, memberships, members[..n], (e, b));
        } else {
          contributions := contributions[(e, b) := memberships[e]];
          deductions := deductions + [(e, memberships[e])];
        }
      }
      assert members[..|members|] == members;
    }

    static method FindLine(lines: seq<Line>, e: Id) returns (k: nat)
      requires HasLine(lines, e)
      ensures k < |lines| && lines[k].employee == e
    {
      k := 0;
      while lines[k].employee != e
        invariant k < |lines| && forall j :: 0 <= j < k ==> lines[j].employee != e
        decreases |lines| - k
      {
        k := k + 1;
      }
    }

    /** Write the deductions and net pay of every transaction of the employee in the batch. */
    method UpdateTransactions(b: Id, e: Id, deductions: Money, net: Money)
      modifies this`transactions
      ensures var hit, rows := TransactionsOf(old(State()), b, e), old(transactions);
              transactions == map t | t in rows ::
                if t in hit then rows[t].(figures := rows[t].figures.(deductions := deductions, net := net))
                else rows[t]
    {
      var hit := set i | i in items && items[i].batch == b && items[i].employee == e :: items[i].transaction;
      assert hit == TransactionsOf(State(), b, e);
      transactions := map t | t in transactions ::
        if t in hit then transactions[t].(figures := transactions[t].figures.(deductions := deductions, net := net))
        else transactions[t];
    }

    /** Add one saving to its line and to the line's transaction. */
    method ApplyDeduction(ghost open: Db, b: Id, lines: seq<Line>, e: Id, amount: Money)
      returns (charged: seq<Line>, ghost k: nat)
      requires DistinctEmployees(lines) && HasLine(lines, e)
      requires forall i :: i in open.items ==> open.items[i].batch != b
      requires State() == InsertLines(open, b, lines)
      modifies this`transactions
      ensures k < |lines| && lines[k].employee == e
      ensures charged == lines[k := lines[k].(figures := Adjust(lines[k].figures, amount))]
      ensures State() == InsertLines(open, b, charged)
    {
      var n := FindLine(lines, e);
      k := n;
      var deductions := lines[n].figures.deductions + amount;
      var net := Max0(lines[n].figures.net - amount);
      TransactionsOfInserted(open, b, lines, n);
      InsertedTransactionAt(open, b, lines, n);
      InsertLinesWithFigures(open, b, lines, n, Adjust(lines[n].figures, amount));
      ghost var before := transactions;
      ghost var t := open.nextTransaction + n;
      UpdateTransactions(b, e, deductions, net);
      assert before[t].figures == lines[n].figures;
      assert transactions == before[t := before[t].(figures := Adjust(lines[n].figures, amount))];
      charged := lines[n := lines[n].(figures := lines[n].figures.(deductions := deductions, net := net))];
    }

    /** Apply every deduction to its line and transaction. */
    method ApplyDeductions(ghost open: Db, b: Id, ghost ledger: map<(Id, Id), Money>, ghost memberships: map<Id, Money>,
                           lines: seq<Line>, deductions: seq<(Id, Money)>)
      returns (charged: seq<Line>)
      requires DistinctEmployees(lines)
      requires forall i :: i in open.items ==> open.items[i].batch != b
      requires State() == InsertLines(open, b, lines)
      requires AreDeductions(deductions, ledger, b, memberships, lines)
      modifies this`transactions
      ensures charged == ChargeAll(ledger, b, memberships, lines) && (deductions == [] ==> charged == lines)
      ensures State() == InsertLines(open, b, charged)
    {
      charged := lines;
      for n := 0 to |deductions|
        invariant n == 0 ==> charged == lines
        invariant PartlyCharged(charged, lines, deductions[..n], ledger, b, memberships)
        invariant State() == InsertLines(open, b, charged)
      {
        ghost var before, k := charged, 0;
        assert HasLine(charged, deductions[n].0);
        charged, k := ApplyDeduction(open, b, charged, deductions[n].0, deductions[n].1);
        ChargingStep(before, charged, lines, deductions, n, k, ledger, b, memberships);
      }
      assert deductions[..|deductions|] == deductions;
      ChargeAllAt(ledger, b, memberships, lines);
    }

    /** A creation succeeds when the actor may work at the location and somebody qualifies. The batch then holds
        exactly the qualified, each with the amounts due, and no other batch is touched. */
    method CreateBatch(actor: Actor, req: Request) returns (error: Option<Error>)
      requires Inv(State()) && ValidRequest(State(), req)
      modifies this
      ensures Inv(State())
      ensures RefusedFor(old(State()), actor, req, match error case None => Ok(State()) case Some(e) => Err(e))
      ensures error == None ==> CreatedAsAsked(old(State()), State(), req, TargetBatch(old(State()), req))
      ensures forall c :: c in old(batches) && c != TargetBatch(old(State()), req) ==>
                PayrollRuns.Frozen(old(State()), State(), c)
      ensures match PayrollState.CreateBatch(old(State()), actor, req)
              case Ok(db) => error == None && State() == db
              case Err(e) => error == Some(e) && State() == old(State())
    {
      CreationOutcome(State(), actor, req);
      error := CreateIfAllowed(actor, req);
    }

    method CreateIfAllowed(actor: Actor, req: Request) returns (error: Option<Error>)
      requires Bounded(State()) && ValidRequest(State(), req)
      modifies this
      ensures match PayrollState.CreateBatch(old(State()), actor, req)
              case Ok(db) => error == None && State() == db
              case Err(e) => error == Some(e) && State() == old(State())
    {
      if !ActorAllowedAt(actor, req.location) {
        return Some(WrongLocation);
      }
      if req.employees == [] {
        return Some(NoEmployees);
      }
      var eligible, lines := CollectLines(req);
      if eligible == [] {
        return Some(AllProcessed);
      }
      if lines == [] {
        return Some(NoStructures);
      }
      RequestLinesAreDistinct(State(), req);
      WriteDraft(req, lines);
      return None;
    }

    /** The transaction that stores a batch: its row, a row pair for each line, then the savings. */
    method WriteDraft(req: Request, lines: seq<Line>)
      requires Bounded(State()) && ValidRequest(State(), req) && DistinctEmployees(lines)
      modifies this
      ensures State() == FillDraft(old(State()), req, lines)
    {
      var totals := Reduce(lines);
      var b := OpenBatch(req, totals);
      ghost var open := State();
      OpenDraftIsEmpty(old(State()), req, totals);
      OpenDraftWithTotals(old(State()), req, totals, totals);
      InsertRows(b, lines);
      ghost var charged := DeductSavings(open, b, lines, req.memberships);
      OpenDraftWithTotals(old(State()), req, totals, LineSum(charged));
    }

    /** Take the savings off the lines and correct the batch's two totals. */
    method DeductSavings(ghost open: Db, b: Id, lines: seq<Line>, memberships: map<Id, Money>)
      returns (ghost charged: seq<Line>)
      requires b in open.batches && open.batches[b].totals == LineSum(lines) && DistinctEmployees(lines)
      requires forall i :: i in open.items ==> open.items[i].batch != b
      requires State() == InsertLines(open, b, lines)
      modifies this`batches, this`transactions, this`contributions
      ensures var ledger := Contribute(open.contributions, b, lines, memberships);
              && charged == ChargeAll(ledger, b, memberships, lines)
              && State() == InsertLines(Retotalled(open, b, LineSum(charged)).(contributions := ledger), b, charged)
    {
      var any, net := ChargeSavings(open, b, lines, memberships);
      charged := net;
      InsertLinesAddRows(open.(contributions := contributions), b, charged);
      ChargedSums(contributions, b, memberships, lines);
      CorrectTotals(b, net, any);
      RetotalledInserted(open, b, charged, LineSum(charged), contributions);
    }

    /** Enter the savings and apply them; `any` tells whether there were some. */
    method ChargeSavings(ghost open: Db, b: Id, lines: seq<Line>, memberships: map<Id, Money>)
      returns (any: bool, charged: seq<Line>)
      requires DistinctEmployees(lines)
      requires forall i :: i in open.items ==> open.items[i].batch != b
      requires State() == InsertLines(open, b, lines)
      modifies this`transactions, this`contributions
      ensures contributions == Contribute(open.contributions, b, lines, memberships)
      ensures charged == ChargeAll(contributions, b, memberships, lines) && (!any ==> charged == lines)
      ensures State() == InsertLines(open.(contributions := contributions), b, charged)
    {
      InsertLinesAddRows(open, b, lines);
      var deductions := EnterSavings(b, lines, memberships);
      InsertLinesFrame(open, b, lines, open.batches, contributions);
      ghost var entered := open.(contributions := contributions);
      charged := ApplyDeductions(entered, b, contributions, memberships, lines, deductions);
      any := |deductions| > 0;
    }

    /** `deductForBatch` as a whole: which memberships it charges and what it enters. */
    method EnterSavings(b: Id, lines: seq<Line>, memberships: map<Id, Money>) returns (deductions: seq<(Id, Money)>)
      modifies this`contributions
      ensures contributions == Contribute(old(contributions), b, lines, memberships)
      ensures AreDeductions(deductions, contributions, b, memberships, lines)
    {
      var members := FindMembers(lines, memberships);
      EnteredIsContributed(contributions, b, memberships, members, lines);
      ghost var before := contributions;
      deductions := DeductForBatch(b, members, memberships);
      EnteredAreDeductions(before, b, memberships, members, lines, deductions);
    }

    /** Store the net and deduction totals again if savings changed them; the other totals stand. */
    method CorrectTotals(b: Id, charged: seq<Line>, any: bool)
      requires b in batches
      requires var sum := LineSum(charged);
               && sum == batches[b].totals.(amount := sum.amount, deductions := sum.deductions)
               && (any || sum == batches[b].totals)
      modifies this`batches
      ensures batches == old(batches)[b := old(batches)[b].(totals := LineSum(charged))]
    {
      if any {
        var corrected := Reduce(charged);
        var totals := batches[b].totals.(amount := corrected.amount, deductions := corrected.deductions);
        batches := batches[b := batches[b].(totals := totals)];
      }
    }
  }
}
