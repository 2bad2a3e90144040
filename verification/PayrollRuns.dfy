/** Payroll over whole runs: what holds in every reachable state, and what a run can never undo. */
module PayrollRuns {
  import opened Wrappers
  import opened Ledger
  import opened PayCalculation
  import opened PayrollState
  import opened PayrollInvariants

  datatype Event =
    | Create(creator: Actor, request: Request)
    | Submit(batch: Id)
    | AcceptItem(item: Id, actor: Actor, org: Org)
    | DenyItem(item: Id, actor: Actor, org: Org)
    | AcceptBatch(batch: Id, actor: Actor, org: Org)
    | DenyBatch(batch: Id, actor: Actor, org: Org)

  /** A refused call leaves the tables alone. */
  function After(db: Db, r: Result<Db, Error>): Db {
    if r.Ok? then r.value else db
  }

  predicate Enabled(db: Db, e: Event) {
    e.Create? ==> ValidRequest(db, e.request)
  }

  function Outcome(db: Db, e: Event): Result<Db, Error>
    requires Enabled(db, e)
  {
    match e
    case Create(creator, request) => CreateBatch(db, creator, request)
    case Submit(b) => SubmitBatch(db, b)
    case AcceptItem(i, actor, org) => ApproveItem(db, i, actor, org)
    case DenyItem(i, actor, org) => RejectItem(db, i, actor, org)
    case AcceptBatch(b, actor, org) => ApproveBatch(db, b, actor, org)
    case DenyBatch(b, actor, org) => RejectBatch(db, b, actor, org)
  }

  predicate Next(db: Db, e: Event, db': Db) {
    Enabled(db, e) && db' == After(db, Outcome(db, e))
  }

  predicate Initial(db: Db) {
    db.batches == map[] && db.items == map[] && db.transactions == map[] && db.contributions == map[]
  }

  ghost predicate Run(states: seq<Db>, events: seq<Event>) {
    && |states| == |events| + 1
    && forall k :: 0 <= k < |events| ==> Next(states[k], events[k], states[k + 1])
  }

  // ---------- the effect of a successful call ----------

  /** The tables after a successful call, with the guards stripped off. */
  ghost predicate Effect(db: Db, e: Event, db': Db) {
    match e
    case Create(creator, request) =>
      ValidRequest(db, request) && db' == FillDraft(db, request, RequestLines(db, request))
    case Submit(b) => b in db.batches && db.batches[b].status in {DRAFT, REJECTED} && db' == Submitted(db, b)
    case AcceptItem(i, _, _) => i in db.items && UnderReview(db, db.items[i].batch) && db' == ItemApprovedIn(db, i)
    case DenyItem(i, _, _) =>
      && i in db.items && UnderReview(db, db.items[i].batch)
      && db.items[i].transaction in db.transactions && db' == ItemRejectedIn(db, i)
    case AcceptBatch(b, _, org) =>
      UnderReview(db, b) && db' == BatchApproved(db, b, IsFinalApproval(db.batches[b], org))
    case DenyBatch(b, _, _) =>
      UnderReview(db, b) && (db' == SetStatus(db, b, REJECTED) || db' == ReturnToDraft(db, b))
  }

  lemma GuardMeansUnderReview(db: Db, b: Id, actor: Actor, org: Org)
    requires GuardError(db, b, actor, org).None?
    ensures UnderReview(db, b) && ApprovalError(actor, db.batches[b], org).None?
  {
  }

  lemma StepHasEffect(db: Db, e: Event, db': Db)
    requires Next(db, e, db')
    ensures db' == db || Effect(db, e, db')
  {
    if Outcome(db, e).Ok? {
      match e
      case Create(_, _) =>
      case Submit(_) =>
      case AcceptItem(i, actor, org) => GuardMeansUnderReview(db, db.items[i].batch, actor, org);
      case DenyItem(i, actor, org) => GuardMeansUnderReview(db, db.items[i].batch, actor, org);
      case AcceptBatch(b, actor, org) => GuardMeansUnderReview(db, b, actor, org);
      case DenyBatch(b, actor, org) => GuardMeansUnderReview(db, b, actor, org);
    }
  }

  // ---------- the invariant over every run ----------

  lemma NonFinalMeansFirstStep(db: Db, b: Id, org: Org)
    requires Stepped(db) && b in db.batches
    ensures IsFinalApproval(db.batches[b], org) <==> !AwaitsInitialStep(db.batches[b], org)
  {
  }

  lemma CreateKeepsInv(db: Db, request: Request)
    requires Inv(db) && ValidRequest(db, request)
    ensures Inv(FillDraft(db, request, RequestLines(db, request)))
  {
    RequestLinesAreDistinct(db, request);
    FillDraftKeepsInv(db, request, RequestLines(db, request));
  }

  lemma AcceptBatchKeepsInv(db: Db, b: Id, org: Org)
    requires Inv(db) && UnderReview(db, b)
    ensures Inv(BatchApproved(db, b, IsFinalApproval(db.batches[b], org)))
  {
    NonFinalMeansFirstStep(db, b, org);
    ApproveBatchKeepsInv(db, b, IsFinalApproval(db.batches[b], org));
  }

  lemma EffectKeepsInv(db: Db, e: Event, db': Db)
    requires Inv(db) && Effect(db, e, db')
    ensures Inv(db')
  {
    match e
    case Create(_, request) => CreateKeepsInv(db, request);
    case Submit(b) => SubmitKeepsInv(db, b);
    case AcceptItem(i, _, _) => ApproveItemKeepsInv(db, i);
    case DenyItem(i, _, _) => RejectItemKeepsInv(db, i);
    case AcceptBatch(b, _, org) => AcceptBatchKeepsInv(db, b, org);
    case DenyBatch(b, _, _) =>
      RejectBatchKeepsInv(db, b);
      ReturnToDraftKeepsInv(db, b);
  }

  lemma EmptyTablesSatisfyInv(db: Db)
    requires Initial(db)
    ensures Inv(db)
  {
  }

  lemma StepKeepsInv(db: Db, e: Event, db': Db)
    requires Inv(db) && Next(db, e, db')
    ensures Inv(db')
  {
    StepHasEffect(db, e, db');
    if db' != db {
      EffectKeepsInv(db, e, db');
    }
  }

  /** In every reachable state the rows are linked, the statuses coherent and every batch's six totals
      equal to the count and sums over its own rows. */
  lemma {:induction false} ReachableStatesSatisfyInv(states: seq<Db>, events: seq<Event>, k: nat)
    requires Run(states, events) && Initial(states[0]) && k <= |events|
    ensures Inv(states[k])
  {
    if k == 0 {
      EmptyTablesSatisfyInv(states[0]);
    } else {
      ReachableStatesSatisfyInv(states, events, k - 1);
      StepKeepsInv(states[k - 1], events[k - 1], states[k]);
    }
  }

  // ---------- approved batches never change ----------

  predicate InBatch(db: Db, i: Id, b: Id) {
    i in db.items && db.items[i].batch == b
  }

  /** Batch `b`, its items and their transactions are the same in both states. */
  ghost predicate Frozen(db: Db, db': Db, b: Id) {
    && b in db.batches && b in db'.batches && db'.batches[b] == db.batches[b]
    && (forall i :: InBatch(db, i, b) <==> InBatch(db', i, b))
    && (forall i :: InBatch(db, i, b) ==>
          && db'.items[i] == db.items[i]
          && db.items[i].transaction in db.transactions && db.items[i].transaction in db'.transactions
          && db'.transactions[db.items[i].transaction] == db.transactions[db.items[i].transaction])
  }

  lemma FrozenIsTransitive(db: Db, db1: Db, db2: Db, b: Id)
    requires Frozen(db, db1, b) && Frozen(db1, db2, b)
    ensures Frozen(db, db2, b)
  {
    forall i | InBatch(db, i, b)
      ensures db2.items[i] == db.items[i] && db.items[i].transaction in db2.transactions
              && db2.transactions[db.items[i].transaction] == db.transactions[db.items[i].transaction]
    {
      assert InBatch(db1, i, b);
    }
  }

  lemma RecalculateFreezes(db: Db, c: Id, b: Id)
    requires Referred(db) && c in db.batches && b in db.batches && b != c
    ensures Frozen(db, Recalculate(db, c), b)
  {
  }

  lemma MarkItemFreezes(db: Db, i: Id, status: ItemStatus, b: Id)
    requires Referred(db) && i in db.items && b in db.batches && b != db.items[i].batch
    ensures Frozen(db, MarkItem(db, i, status), b)
  {
  }

  lemma RefuseFreezes(db: Db, i: Id, b: Id)
    requires Referred(db) && Unshared(db) && i in db.items && b in db.batches && b != db.items[i].batch
    ensures Frozen(db, RefuseTransaction(db, db.items[i].transaction), b)
  {
  }

  lemma SplitFreezes(db: Db, c: Id, b: Id)
    requires Referred(db) && Bounded(db) && c in db.batches && b in db.batches && b != c
    ensures Frozen(db, SplitRejected(db, c), b)
  {
  }

  lemma PayFreezes(db: Db, c: Id, b: Id)
    requires Referred(db) && Unshared(db) && c in db.batches && b in db.batches && b != c
    ensures Frozen(db, PayBatch(db, c), b)
  {
    var db' := PayBatch(db, c);
    forall i | InBatch(db, i, b) ensures db.items[i].transaction !in PayableTransactions(db, c) {
    }
  }

  lemma ReviewFreezes(db: Db, c: Id, b: Id, status: BatchStatus)
    requires Referred(db) && c in db.batches && b in db.batches && b != c
    ensures Frozen(db, SetStatus(db, c, status), b) && Frozen(db, ReturnToDraft(db, c), b)
    ensures Frozen(db, PassOn(db, c), b) && Frozen(db, Submitted(db, c), b)
  {
  }

  lemma OpenDraftFreezes(db: Db, req: Request, totals: Totals, ledger: map<(Id, Id), Money>, b: Id)
    requires Referred(db) && Unshared(db) && Bounded(db) && ValidRequest(db, req)
    requires b in db.batches && b != TargetBatch(db, req)
    ensures Frozen(db, OpenDraft(db, req, totals).(contributions := ledger), b)
  {
    if req.draft.Some? {
      var d := req.draft.value;
      var gone := set i | i in db.items && db.items[i].batch == d :: db.items[i].transaction;
      forall i | InBatch(db, i, b) ensures db.items[i].transaction !in gone {
      }
    }
  }

  lemma InsertLineFreezes(db: Db, c: Id, line: Line, b: Id)
    requires Referred(db) && Bounded(db) && b in db.batches && b != c
    ensures Frozen(db, InsertLine(db, c, line), b)
  {
  }

  lemma {:induction false} InsertLinesFreeze(db: Db, c: Id, lines: seq<Line>, b: Id)
    requires Filling(db, c, ZERO) && DistinctEmployees(lines)
    requires forall i :: i in db.items ==> db.items[i].batch != c
    requires b in db.batches && b != c
    ensures Frozen(db, InsertLines(db, c, lines), b)
  {
    if lines != [] {
      var front := lines[..|lines| - 1];
      InsertLinesFreeze(db, c, front, b);
      InsertLinesKeepFilling(db, c, front);
      InsertLineFreezes(InsertLines(db, c, front), c, lines[|lines| - 1], b);
      FrozenIsTransitive(db, InsertLines(db, c, front), InsertLines(db, c, lines), b);
    }
  }

  lemma FillDraftFreezes(db: Db, req: Request, lines: seq<Line>, b: Id)
    requires Inv(db) && ValidRequest(db, req) && DistinctEmployees(lines)
    requires b in db.batches && b != TargetBatch(db, req)
    ensures Frozen(db, FillDraft(db, req, lines), b)
  {
    var c := TargetBatch(db, req);
    var ledger := Contribute(db.contributions, c, lines, req.memberships);
    var charged := ChargeAll(ledger, c, req.memberships, lines);
    var open := OpenDraft(db, req, LineSum(charged)).(contributions := ledger);
    OpenDraftFreezes(db, req, LineSum(charged), ledger, b);
    OpenDraftIsFilling(db, req, LineSum(charged), ledger);
    ChargeKeepsEmployees(ledger, c, req.memberships, lines);
    InsertLinesFreeze(open, c, charged, b);
    FrozenIsTransitive(db, open, InsertLines(open, c, charged), b);
  }

  lemma ItemApprovedFreezes(db: Db, i: Id, b: Id)
    requires Referred(db) && i in db.items && db.items[i].batch in db.batches
    requires b in db.batches && b != db.items[i].batch
    ensures Frozen(db, ItemApprovedIn(db, i), b)
  {
    var c := db.items[i].batch;
    var db1 := MarkItem(db, i, ItemApproved);
    MarkItemFreezes(db, i, ItemApproved, b);
    RecalculateFreezes(db1, c, b);
    FrozenIsTransitive(db, db1, Recalculate(db1, c), b);
  }

  lemma MarkAndRefuseFreeze(db: Db, i: Id, b: Id)
    requires Referred(db) && Unshared(db) && i in db.items && b in db.batches && b != db.items[i].batch
    ensures var db2 := RefuseTransaction(MarkItem(db, i, ItemRejected), db.items[i].transaction);
            Frozen(db, db2, b) && Referred(db2) && db2.batches == db.batches
  {
    var db1 := MarkItem(db, i, ItemRejected);
    MarkItemFreezes(db, i, ItemRejected, b);
    RefuseFreezes(db1, i, b);
    FrozenIsTransitive(db, db1, RefuseTransaction(db1, db.items[i].transaction), b);
  }

  lemma ItemRejectedFreezes(db: Db, i: Id, b: Id)
    requires Referred(db) && Unshared(db) && i in db.items && db.items[i].batch in db.batches
    requires b in db.batches && b != db.items[i].batch
    ensures Frozen(db, ItemRejectedIn(db, i), b)
  {
    var c := db.items[i].batch;
    var db2 := RefuseTransaction(MarkItem(db, i, ItemRejected), db.items[i].transaction);
    MarkAndRefuseFreeze(db, i, b);
    RecalculateFreezes(db2, c, b);
    FrozenIsTransitive(db, db2, Recalculate(db2, c), b);
  }

  lemma BatchApprovedFreezes(db: Db, c: Id, final: bool, b: Id)
    requires Inv(db) && UnderReview(db, c) && b in db.batches && b != c
    ensures Frozen(db, BatchApproved(db, c, final), b)
  {
    var split := SplitRejected(db, c);
    SplitFreezes(db, c, b);
    SplitKeepsInv(db, c);
    PayFreezes(split, c, b);
    ReviewFreezes(split, c, b, MANAGER_APPROVED);
    FrozenIsTransitive(db, split, BatchApproved(db, c, final), b);
  }

  lemma CreateFreezesOthers(db: Db, request: Request, b: Id)
    requires Inv(db) && ValidRequest(db, request) && b in db.batches && b != TargetBatch(db, request)
    ensures Frozen(db, FillDraft(db, request, RequestLines(db, request)), b)
  {
    RequestLinesAreDistinct(db, request);
    FillDraftFreezes(db, request, RequestLines(db, request), b);
  }

  /** The batch a call is about. */
  function OwnBatch(db: Db, e: Event): Option<Id> {
    match e
    case Create(_, request) => Some(TargetBatch(db, request))
    case Submit(b) => Some(b)
    case AcceptItem(i, _, _) => if i in db.items then Some(db.items[i].batch) else None
    case DenyItem(i, _, _) => if i in db.items then Some(db.items[i].batch) else None
    case AcceptBatch(b, _, _) => Some(b)
    case DenyBatch(b, _, _) => Some(b)
  }

  /** A call leaves every batch but its own as it was: the row, the items and their transactions. */
  lemma EffectFreezesOthers(db: Db, e: Event, db': Db, b: Id)
    requires Inv(db) && Effect(db, e, db') && b in db.batches && Some(b) != OwnBatch(db, e)
    ensures Frozen(db, db', b)
  {
    match e
    case Create(_, request) => CreateFreezesOthers(db, request, b);
    case Submit(c) => ReviewFreezes(db, c, b, PENDING);
    case AcceptItem(i, _, _) => ItemApprovedFreezes(db, i, b);
    case DenyItem(i, _, _) => ItemRejectedFreezes(db, i, b);
    case AcceptBatch(c, _, org) => BatchApprovedFreezes(db, c, IsFinalApproval(db.batches[c], org), b);
    case DenyBatch(c, _, _) => ReviewFreezes(db, c, b, REJECTED);
  }

  /** The same of a call that is refused: nothing else is ever touched. */
  lemma OtherBatchesAreFrozen(db: Db, e: Event, db': Db, b: Id)
    requires Inv(db) && Next(db, e, db') && b in db.batches && Some(b) != OwnBatch(db, e)
    ensures Frozen(db, db', b)
  {
    StepHasEffect(db, e, db');
    if db' == db {
      FrozenIsReflexive(db, b);
    } else {
      EffectFreezesOthers(db, e, db', b);
    }
  }

  lemma EffectFreezesApproved(db: Db, e: Event, db': Db, b: Id)
    requires Inv(db) && Effect(db, e, db') && b in db.batches && db.batches[b].status == APPROVED
    ensures Frozen(db, db', b)
  {
    OwnBatchIsOpen(db, e, db', b);
    EffectFreezesOthers(db, e, db', b);
  }

  lemma OwnBatchIsOpen(db: Db, e: Event, db': Db, b: Id)
    requires Effect(db, e, db') && Bounded(db) && b in db.batches
    ensures OwnBatch(db, e) == Some(b) ==> db.batches[b].status != APPROVED
  {
  }

  lemma StepFreezesApproved(db: Db, e: Event, db': Db, b: Id)
    requires Inv(db) && Next(db, e, db') && b in db.batches && db.batches[b].status == APPROVED
    ensures Frozen(db, db', b)
  {
    StepHasEffect(db, e, db');
    if db' != db {
      EffectFreezesApproved(db, e, db', b);
    }
  }

  /** Once a batch is approved, no later call of any kind changes its row, its items or their transactions. */
  lemma {:induction false} ApprovedBatchesNeverChange(states: seq<Db>, events: seq<Event>, k: nat, m: nat, b: Id)
    requires Run(states, events) && Initial(states[0]) && k <= m <= |events|
    requires b in states[k].batches && states[k].batches[b].status == APPROVED
    ensures Frozen(states[k], states[m], b)
  {
    if k == m {
      ReachableStatesSatisfyInv(states, events, k);
      FrozenIsReflexive(states[k], b);
    } else {
      ApprovedBatchesNeverChange(states, events, k, m - 1, b);
      NextFreezesApproved(states, events, m - 1, b);
      FrozenIsTransitive(states[k], states[m - 1], states[m], b);
    }
  }

  lemma FrozenIsReflexive(db: Db, b: Id)
    requires Referred(db) && b in db.batches
    ensures Frozen(db, db, b)
  {
  }

  lemma NextFreezesApproved(states: seq<Db>, events: seq<Event>, m: nat, b: Id)
    requires Run(states, events) && Initial(states[0]) && m < |events|
    requires b in states[m].batches && states[m].batches[b].status == APPROVED
    ensures Frozen(states[m], states[m + 1], b)
  {
    ReachableStatesSatisfyInv(states, events, m);
    StepFreezesApproved(states[m], events[m], states[m + 1], b);
  }
}
