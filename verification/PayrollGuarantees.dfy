/** Conservation of paid money, the approval protocol, and batch creation done twice. */
module PayrollGuarantees {
  import opened Wrappers
  import opened Ledger
  import opened Permissions
  import opened PayCalculation
  import opened PayrollState
  import opened PayrollInvariants
  import opened PayrollRuns

  // ---------- what is paid is what was approved ----------

  function PaidTransaction(db: Db, t: Id): Totals {
    if t in db.transactions && db.transactions[t].status == Paid then RowTotals(db.transactions[t].figures) else ZERO
  }

  function PaidTransactions(db: Db): nat -> Totals {
    (t: nat) => PaidTransaction(db, t)
  }

  /** Count and sums over every PAID transaction. */
  function PaidSum(db: Db): Totals {
    Sum(db.nextTransaction, PaidTransactions(db))
  }

  function ApprovedBatch(db: Db, b: Id): Totals {
    if b in db.batches && db.batches[b].status == APPROVED then db.batches[b].totals else ZERO
  }

  function ApprovedBatches(db: Db): nat -> Totals {
    (b: nat) => ApprovedBatch(db, b)
  }

  /** The running totals of every APPROVED batch, added up. */
  function ApprovedSum(db: Db): Totals {
    Sum(db.nextBatch, ApprovedBatches(db))
  }

  /** Item `i`'s row, when its transaction is paid and numbered below `t`. */
  function PaidItem(db: Db, t: Id, i: Id): Totals {
    if i in db.items && db.items[i].transaction < t then PaidTransaction(db, db.items[i].transaction) else ZERO
  }

  function PaidItems(db: Db, t: Id): nat -> Totals {
    (i: nat) => PaidItem(db, t, i)
  }

  /** Item `i`'s row, when its batch is approved and numbered below `b`. */
  function ApprovedItem(db: Db, b: Id, i: Id): Totals {
    if i in db.items && db.items[i].batch < b && db.items[i].batch in db.batches
       && db.batches[db.items[i].batch].status == APPROVED
    then Cell(db, db.items[i].batch, i) else ZERO
  }

  function ApprovedItems(db: Db, b: Id): nat -> Totals {
    (i: nat) => ApprovedItem(db, b, i)
  }

  lemma MinusZeroPlus(s: Totals, t: Totals)
    ensures s.Minus(ZERO).Plus(t) == s.Plus(t)
  {
  }

  /** Counting paid transactions one by one is counting the items they belong to. */
  lemma PaidByItem(db: Db, t: nat)
    requires Linked(db)
    ensures Sum(t, PaidTransactions(db)) == Sum(db.nextItem, PaidItems(db, t))
  {
    var byItem := (k: nat) => Sum(db.nextItem, PaidItems(db, k));
    SumZero(db.nextItem, PaidItems(db, 0));
    forall k: nat | k < t ensures byItem(k + 1) == byItem(k).Plus(PaidTransactions(db)(k)) {
      PaidItemStep(db, k);
    }
    SumsByStep(t, PaidTransactions(db), byItem);
  }

  lemma PaidItemStep(db: Db, t: nat)
    requires Bounded(db) && Referred(db) && Unshared(db) && Owned(db)
    ensures Sum(db.nextItem, PaidItems(db, t + 1)) == Sum(db.nextItem, PaidItems(db, t)).Plus(PaidTransaction(db, t))
  {
    if t in db.transactions {
      var k :| Owns(db, k, t);
      forall i: nat | i < db.nextItem && i != k ensures PaidItems(db, t)(i) == PaidItems(db, t + 1)(i) {
      }
      SumDiffersAtOne(db.nextItem, PaidItems(db, t), PaidItems(db, t + 1), k);
      MinusZeroPlus(Sum(db.nextItem, PaidItems(db, t)), PaidTransaction(db, t));
    } else {
      SumCongruent(db.nextItem, PaidItems(db, t), PaidItems(db, t + 1));
      PlusZero(Sum(db.nextItem, PaidItems(db, t)));
    }
  }

  /** Adding up approved batches is adding up the items that sit in them. */
  lemma ApprovedByItem(db: Db, b: nat)
    requires Balanced(db)
    ensures Sum(b, ApprovedBatches(db)) == Sum(db.nextItem, ApprovedItems(db, b))
  {
    var byItem := (k: nat) => Sum(db.nextItem, ApprovedItems(db, k));
    SumZero(db.nextItem, ApprovedItems(db, 0));
    forall k: nat | k < b ensures byItem(k + 1) == byItem(k).Plus(ApprovedBatches(db)(k)) {
      ApprovedItemStep(db, k);
    }
    SumsByStep(b, ApprovedBatches(db), byItem);
  }

  lemma ApprovedCellStep(db: Db, b: nat, i: nat)
    requires b in db.batches && db.batches[b].status == APPROVED
    ensures ApprovedItem(db, b + 1, i) == ApprovedItem(db, b, i).Plus(Cell(db, b, i))
  {
    if i in db.items && db.items[i].batch == b {
      assert ApprovedItem(db, b, i) == ZERO && ApprovedItem(db, b + 1, i) == Cell(db, b, i);
      PlusZero(Cell(db, b, i));
    } else {
      assert Cell(db, b, i) == ZERO && ApprovedItem(db, b + 1, i) == ApprovedItem(db, b, i);
      PlusZero(ApprovedItem(db, b, i));
    }
  }

  lemma ApprovedItemStep(db: Db, b: nat)
    requires Balanced(db)
    ensures Sum(db.nextItem, ApprovedItems(db, b + 1))
            == Sum(db.nextItem, ApprovedItems(db, b)).Plus(ApprovedBatch(db, b))
  {
    if b in db.batches && db.batches[b].status == APPROVED {
      forall i: nat | i < db.nextItem
        ensures ApprovedItems(db, b + 1)(i) == ApprovedItems(db, b)(i).Plus(Cells(db, b)(i))
      {
        ApprovedCellStep(db, b, i);
      }
      SumPlus(db.nextItem, ApprovedItems(db, b), Cells(db, b), ApprovedItems(db, b + 1));
    } else {
      SumCongruent(db.nextItem, ApprovedItems(db, b), ApprovedItems(db, b + 1));
      PlusZero(Sum(db.nextItem, ApprovedItems(db, b)));
    }
  }

  lemma PaidItemIsApprovedItem(db: Db, i: Id)
    requires Bounded(db) && Referred(db) && Coherent(db)
    ensures PaidItem(db, db.nextTransaction, i) == ApprovedItem(db, db.nextBatch, i)
  {
    if i in db.items {
      assert ItemCoherent(db, i);
    }
  }

  /** In every reachable state the paid transactions and the approved batches carry the same money:
      head count, net, gross, allowances, deductions and tax alike. */
  lemma PaidEqualsApproved(states: seq<Db>, events: seq<Event>, k: nat)
    requires Run(states, events) && Initial(states[0]) && k <= |events|
    ensures PaidSum(states[k]) == ApprovedSum(states[k])
  {
    ReachableStatesSatisfyInv(states, events, k);
    PaidEqualsApprovedUnderInv(states[k]);
  }

  lemma PaidEqualsApprovedUnderInv(db: Db)
    requires Inv(db)
    ensures PaidSum(db) == ApprovedSum(db)
  {
    PaidByItem(db, db.nextTransaction);
    ApprovedByItem(db, db.nextBatch);
    forall i: nat | i < db.nextItem ensures PaidItems(db, db.nextTransaction)(i) == ApprovedItems(db, db.nextBatch)(i) {
      PaidItemIsApprovedItem(db, i);
    }
    SumCongruent(db.nextItem, PaidItems(db, db.nextTransaction), ApprovedItems(db, db.nextBatch));
  }

  /** In every reachable state a transaction is PAID exactly when its item sits in an APPROVED batch. */
  lemma PaidIffInApprovedBatch(states: seq<Db>, events: seq<Event>, k: nat, i: Id)
    requires Run(states, events) && Initial(states[0]) && k <= |events| && i in states[k].items
    ensures var db := states[k];
            && db.items[i].transaction in db.transactions && db.items[i].batch in db.batches
            && (db.transactions[db.items[i].transaction].status == Paid <==>
              db.batches[db.items[i].batch].status == APPROVED)
  {
    ReachableStatesSatisfyInv(states, events, k);
    assert ItemCoherent(states[k], i);
  }

  // ---------- the approval protocol ----------

  /** A super admin, or HR located at a headquarters with active HR and holding a final-approval key. */
  predicate MayFinalise(actor: Actor, org: Org) {
    || SuperAdmin in actor.roles
    || (&& Hr in actor.roles && (Holds(actor, PayrollApproveFinal) || Holds(actor, PayrollApprove))
        && org.headquarters.Some? && org.headquarters.value in org.activeHrAt && actor.location == org.headquarters)
  }

  /** The permission check and the effect branch alike: an approval that succeeds finalises the batch
      exactly when the check took its final branch, and then only for an actor who may finalise. */
  lemma ApprovalBranchesAgree(db: Db, b: Id, actor: Actor, org: Org)
    requires Stepped(db) && ApproveBatch(db, b, actor, org).Ok?
    ensures b in db.batches
    ensures IsFinalApproval(db.batches[b], org) <==> !AwaitsInitialStep(db.batches[b], org)
    ensures IsFinalApproval(db.batches[b], org) <==> IsLast(db.batches[b], org)
    ensures IsLast(db.batches[b], org) ==> MayFinalise(actor, org)
  {
    GuardMeansUnderReview(db, b, actor, org);
    NonFinalMeansFirstStep(db, b, org);
  }

  /** A super admin, a holder of an initial-approval key, or the branch manager of the batch's location. */
  predicate MayInitiate(actor: Actor, batch: Batch) {
    || SuperAdmin in actor.roles
    || Holds(actor, PayrollApproveInitial) || Holds(actor, PayrollApprove)
    || (BranchManager in actor.roles && actor.location == Some(batch.location))
  }

  /** No approval is to come after this one: the first step is behind, or nobody at the location takes it. */
  predicate IsLast(batch: Batch, org: Org) {
    batch.step > 1 || batch.location !in org.initialApproverAt
  }

  /** The guard lets an actor act exactly on a batch under review, and exactly when the actor may finalise it
      or, where the approval to come is not the final one, initiate it. */
  lemma GuardAllowsIff(db: Db, b: Id, actor: Actor, org: Org)
    requires Stepped(db)
    ensures GuardError(db, b, actor, org) == None <==>
            UnderReview(db, b)
            && if IsLast(db.batches[b], org) then MayFinalise(actor, org)
               else MayInitiate(actor, db.batches[b])
  {
    if b in db.batches {
      NonFinalMeansFirstStep(db, b, org);
    }
  }

  /** What the guard answers: no such batch, one already decided, one not submitted, or an actor who may not take
      the approval to come. */
  ghost predicate Answers(db: Db, b: Id, actor: Actor, org: Org, error: Option<Error>) {
    && (error == Some(NotFound) <==> b !in db.batches)
    && (error == Some(Terminal) <==> b in db.batches && db.batches[b].status in {APPROVED, REJECTED})
    && (error == Some(NotSubmitted) <==> b in db.batches && db.batches[b].status == DRAFT)
    && (error == Some(NotFinalApprover) <==>
          UnderReview(db, b) && IsLast(db.batches[b], org) && !MayFinalise(actor, org))
    && (error == Some(NotInitialApprover) <==>
          UnderReview(db, b) && !IsLast(db.batches[b], org) && !MayInitiate(actor, db.batches[b]))
    && (error == None <==>
          UnderReview(db, b)
          && if IsLast(db.batches[b], org) then MayFinalise(actor, org) else MayInitiate(actor, db.batches[b]))
  }

  lemma GuardAnswers(db: Db, b: Id, actor: Actor, org: Org)
    requires Stepped(db)
    ensures Answers(db, b, actor, org, GuardError(db, b, actor, org))
  {
    GuardAllowsIff(db, b, actor, org);
    if b in db.batches {
      NonFinalMeansFirstStep(db, b, org);
      if db.batches[b].status !in {APPROVED, REJECTED, DRAFT} {
        assert UnderReview(db, b);
      }
    }
  }

  /** Who holds the approval keys: the last override decides; without one, each is held by its own grant, and
      the initial and the final one by the general grant too. */
  lemma ApprovalKeysHeldIff(actor: Actor)
    ensures Holds(actor, PayrollApprove) <==>
            || LastAllows(actor.overrides, PayrollApprove)
            || (!Named(actor.overrides, PayrollApprove) && PayrollApprove in actor.permissions)
    ensures forall key :: key in {PayrollApproveInitial, PayrollApproveFinal} ==>
              (Holds(actor, key) <==>
                || LastAllows(actor.overrides, key)
                || (!Named(actor.overrides, key) && (key in actor.permissions || PayrollApprove in actor.permissions)))
  {
    forall key | key in {PayrollApprove, PayrollApproveInitial, PayrollApproveFinal}
      ensures Holds(actor, key) <==>
              || LastAllows(actor.overrides, key)
              || (!Named(actor.overrides, key) && Reaches(IMPLIED_PERMISSIONS, actor.permissions, key))
      ensures Reaches(IMPLIED_PERMISSIONS, actor.permissions, key) <==>
              key in actor.permissions || (key != PayrollApprove && PayrollApprove in actor.permissions)
    {
      EffectiveIff(IMPLIED_PERMISSIONS, actor.permissions, actor.overrides, key);
      ApprovalKeyReached(actor.permissions, key);
    }
  }

  lemma ApprovalKeyReached(raw: set<Key>, key: Key)
    requires key in {PayrollApprove, PayrollApproveInitial, PayrollApproveFinal}
    ensures Reaches(IMPLIED_PERMISSIONS, raw, key) <==> key in raw || (key != PayrollApprove && PayrollApprove in raw)
  {
    forall h | h in IMPLIED_PERMISSIONS
      ensures key in IMPLIED_PERMISSIONS[h] <==> h == PayrollApprove && key != PayrollApprove
    {
      ImpliedIsEntry(h);
      ApprovalKeyInEntry(h, key);
    }
  }

  lemma ApprovalKeyInEntry(h: Key, key: Key)
    requires key in {PayrollApprove, PayrollApproveInitial, PayrollApproveFinal}
    ensures key in Entry(h) <==> h == PayrollApprove && key != PayrollApprove
  {
    if h == PayrollApprove {
      assert Entry(h)[0] == PayrollApproveInitial && Entry(h)[1] == PayrollApproveFinal && Entry(h)[2] == PayrollRead;
    }
  }

  /** The status and step of a batch, or those of a draft when there is no such batch. */
  function Stage(db: Db, b: Id): (BatchStatus, int) {
    if b in db.batches then (db.batches[b].status, db.batches[b].step) else (DRAFT, 1)
  }

  lemma {:induction false} InsertLinesKeepBatches(db: Db, c: Id, lines: seq<Line>)
    ensures InsertLines(db, c, lines).batches == db.batches
  {
    if lines != [] {
      InsertLinesKeepBatches(db, c, lines[..|lines| - 1]);
    }
  }

  lemma FillDraftKeepsStages(db: Db, req: Request, lines: seq<Line>, b: Id)
    requires Bounded(db) && Stepped(db) && ValidRequest(db, req)
    ensures Stage(FillDraft(db, req, lines), b) == Stage(db, b)
  {
    var c := TargetBatch(db, req);
    var ledger := Contribute(db.contributions, c, lines, req.memberships);
    var charged := ChargeAll(ledger, c, req.memberships, lines);
    InsertLinesKeepBatches(OpenDraft(db, req, LineSum(charged)).(contributions := ledger), c, charged);
  }

  /** How each call moves a batch's status and step: these moves and no others. */
  ghost predicate StageMoves(e: Event, before: (BatchStatus, int), after: (BatchStatus, int), b: Id) {
    || after == before
    || (e == Submit(b) && before.0 in {DRAFT, REJECTED} && after == (PENDING, 1))
    || (before.0 in {PENDING, IN_REVIEW, MANAGER_APPROVED} && (e.AcceptItem? || e.DenyItem?)
        && after == (IN_REVIEW, before.1))
    || (before.0 in {PENDING, IN_REVIEW, MANAGER_APPROVED} && e.AcceptBatch? && e.batch == b
        && (after == (APPROVED, before.1) || (before.1 == 1 && after == (MANAGER_APPROVED, 2))))
    || (before.0 in {PENDING, IN_REVIEW, MANAGER_APPROVED} && e.DenyBatch? && e.batch == b
        && (after == (REJECTED, before.1) || after == (DRAFT, 1)))
  }

  lemma RecalculateStage(db: Db, c: Id, b: Id)
    requires c in db.batches
    ensures || Stage(Recalculate(db, c), b) == Stage(db, b)
            || (b == c && Stage(Recalculate(db, c), b) == (IN_REVIEW, db.batches[c].step))
  {
  }

  lemma SplitKeepsStages(db: Db, c: Id, b: Id)
    requires Bounded(db) && c in db.batches
    ensures Stage(SplitRejected(db, c), b) == Stage(db, b)
  {
  }

  lemma BatchApprovedStage(db: Db, c: Id, final: bool, b: Id)
    requires Bounded(db) && c in db.batches
    ensures b != c ==> Stage(BatchApproved(db, c, final), b) == Stage(db, b)
    ensures Stage(BatchApproved(db, c, final), c) ==
            if final then (APPROVED, db.batches[c].step) else (MANAGER_APPROVED, db.batches[c].step + 1)
  {
    SplitKeepsStages(db, c, b);
    SplitKeepsStages(db, c, c);
  }

  lemma EffectMovesStage(db: Db, e: Event, db': Db, b: Id)
    requires Bounded(db) && Stepped(db) && Effect(db, e, db')
    ensures StageMoves(e, Stage(db, b), Stage(db', b), b)
  {
    match e
    case Create(_, request) => FillDraftKeepsStages(db, request, RequestLines(db, request), b);
    case Submit(_) =>
    case AcceptItem(i, _, _) => RecalculateStage(MarkItem(db, i, ItemApproved), db.items[i].batch, b);
    case DenyItem(i, _, _) =>
      RecalculateStage(RefuseTransaction(MarkItem(db, i, ItemRejected), db.items[i].transaction), db.items[i].batch, b);
    case AcceptBatch(c, _, org) =>
      BatchApprovedStage(db, c, IsFinalApproval(db.batches[c], org), b);
      NonFinalMeansFirstStep(db, c, org);
    case DenyBatch(_, _, _) =>
  }

  /** A batch becomes APPROVED only through a batch approval by an actor who may finalise. */
  lemma OnlyFinalisersApprove(states: seq<Db>, events: seq<Event>, k: nat, b: Id)
    requires Run(states, events) && Initial(states[0]) && k < |events|
    requires Stage(states[k], b).0 != APPROVED && Stage(states[k + 1], b).0 == APPROVED
    ensures events[k].AcceptBatch? && events[k].batch == b && MayFinalise(events[k].actor, events[k].org)
    ensures !AwaitsInitialStep(states[k].batches[b], events[k].org)
  {
    ReachableStatesSatisfyInv(states, events, k);
    var db, e, db' := states[k], events[k], states[k + 1];
    assert Next(db, e, db');
    StepHasEffect(db, e, db');
    EffectMovesStage(db, e, db', b);
    BatchApprovedStage(db, b, IsFinalApproval(db.batches[b], e.org), b);
    ApprovalBranchesAgree(db, b, e.actor, e.org);
  }

  function BudgetOf(stage: (BatchStatus, int)): int {
    if stage.0 in {PENDING, IN_REVIEW, MANAGER_APPROVED} then 3 - stage.1 else 0
  }

  /** How many batch approvals are still possible before the next submission. */
  function Budget(db: Db, b: Id): int {
    BudgetOf(Stage(db, b))
  }

  lemma BudgetRange(db: Db, b: Id)
    requires Stepped(db)
    ensures 0 <= Budget(db, b) <= 2
  {
  }

  lemma MovesKeepBudget(e: Event, before: (BatchStatus, int), after: (BatchStatus, int), b: Id)
    requires StageMoves(e, before, after, b) && 1 <= before.1 <= 2
    requires !(e == Submit(b) && before.0 in {DRAFT, REJECTED})
    ensures BudgetOf(after) <= BudgetOf(before)
  {
  }

  lemma ApprovalSpends(db: Db, b: Id, org: Org)
    requires Bounded(db) && Stepped(db) && UnderReview(db, b)
    ensures Budget(BatchApproved(db, b, IsFinalApproval(db.batches[b], org)), b) + 1 <= Budget(db, b)
  {
    BatchApprovedStage(db, b, IsFinalApproval(db.batches[b], org), b);
    NonFinalMeansFirstStep(db, b, org);
  }

  predicate Approves(db: Db, e: Event, b: Id) {
    Enabled(db, e) && e.AcceptBatch? && e.batch == b && Outcome(db, e).Ok?
  }

  predicate Submits(db: Db, e: Event, b: Id) {
    Enabled(db, e) && e.Submit? && e.batch == b && Outcome(db, e).Ok?
  }

  lemma StepSpendsBudget(db: Db, e: Event, db': Db, b: Id)
    requires Bounded(db) && Stepped(db) && Next(db, e, db') && !Submits(db, e, b)
    ensures Budget(db', b) + (if Approves(db, e, b) then 1 else 0) <= Budget(db, b)
  {
    if Outcome(db, e).Ok? {
      SuccessHasEffect(db, e);
      if e.AcceptBatch? && e.batch == b {
        ApprovalSpends(db, b, e.org);
      } else {
        SuccessfulSubmission(db, e, b);
        EffectMovesStage(db, e, db', b);
        MovesKeepBudget(e, Stage(db, b), Stage(db', b), b);
      }
    }
  }

  lemma SuccessfulSubmission(db: Db, e: Event, b: Id)
    requires Stepped(db) && Enabled(db, e) && Outcome(db, e).Ok? && !Submits(db, e, b)
    ensures e != Submit(b) && 1 <= Stage(db, b).1 <= 2
  {
  }

  lemma SuccessHasEffect(db: Db, e: Event)
    requires Enabled(db, e) && Outcome(db, e).Ok?
    ensures Effect(db, e, Outcome(db, e).value)
  {
    match e
    case Create(_, _) =>
    case Submit(_) =>
    case AcceptItem(i, actor, org) => GuardMeansUnderReview(db, db.items[i].batch, actor, org);
    case DenyItem(i, actor, org) => GuardMeansUnderReview(db, db.items[i].batch, actor, org);
    case AcceptBatch(b, actor, org) => GuardMeansUnderReview(db, b, actor, org);
    case DenyBatch(b, actor, org) => GuardMeansUnderReview(db, b, actor, org);
  }

  /** The successful approvals of batch `b` from state `k` up to state `m`. */
  ghost function Approvals(states: seq<Db>, events: seq<Event>, k: nat, m: nat, b: Id): nat
    requires |states| == |events| + 1 && k <= m <= |events|
    decreases m
  {
    if k == m then 0
    else Approvals(states, events, k, m - 1, b) + (if Approves(states[m - 1], events[m - 1], b) then 1 else 0)
  }

  lemma {:induction false} ApprovalsSpendBudget(states: seq<Db>, events: seq<Event>, k: nat, m: nat, b: Id)
    requires Run(states, events) && Initial(states[0]) && k <= m <= |events|
    requires forall n :: k <= n < m ==> !Submits(states[n], events[n], b)
    ensures Approvals(states, events, k, m, b) + Budget(states[m], b) <= Budget(states[k], b)
    decreases m
  {
    if k < m {
      ApprovalsSpendBudget(states, events, k, m - 1, b);
      ReachableStatesSatisfyInv(states, events, m - 1);
      StepSpendsBudget(states[m - 1], events[m - 1], states[m], b);
    }
  }

  /** Between two submissions a batch is approved at most twice. */
  lemma AtMostTwoApprovalsPerSubmission(states: seq<Db>, events: seq<Event>, k: nat, m: nat, b: Id)
    requires Run(states, events) && Initial(states[0]) && k <= m <= |events|
    requires forall n :: k <= n < m ==> !Submits(states[n], events[n], b)
    ensures Approvals(states, events, k, m, b) <= 2
  {
    ApprovalsSpendBudget(states, events, k, m, b);
    ReachableStatesSatisfyInv(states, events, k);
    ReachableStatesSatisfyInv(states, events, m);
    BudgetRange(states[k], b);
    BudgetRange(states[m], b);
  }

  // ---------- batch creation ----------

  lemma {:induction false} InsertLinesKeepOld(db: Db, b: Id, lines: seq<Line>)
    requires forall i :: i in db.items ==> i < db.nextItem
    ensures forall i :: i in db.items ==>
            i in InsertLines(db, b, lines).items && InsertLines(db, b, lines).items[i] == db.items[i]
  {
    if lines != [] {
      InsertLinesKeepOld(db, b, lines[..|lines| - 1]);
      InsertLinesAddRows(db, b, lines[..|lines| - 1]);
    }
  }

  /** A filled draft is the opened one, with what it kept of the old items, and the charged lines inserted. */
  lemma FilledFrom(db: Db, req: Request, lines: seq<Line>) returns (open: Db, charged: seq<Line>)
    requires Bounded(db) && ValidRequest(db, req)
    ensures var b := TargetBatch(db, req);
            && FillDraft(db, req, lines) == InsertLines(open, b, charged)
            && charged == ChargeAll(Contribute(db.contributions, b, lines, req.memberships), b, req.memberships, lines)
            && open.nextItem == db.nextItem && KeepsOtherItems(db, open, b)
  {
    var b := TargetBatch(db, req);
    var ledger := Contribute(db.contributions, b, lines, req.memberships);
    charged := ChargeAll(ledger, b, req.memberships, lines);
    open := OpenDraft(db, req, LineSum(charged)).(contributions := ledger);
    OpenDraftItems(db, req, LineSum(charged));
  }

  /** The items are exactly the old ones outside the batch. */
  ghost predicate KeepsOtherItems(db: Db, db': Db, b: Id) {
    && (forall i :: i in db'.items ==>
          i < db.nextItem && i in db.items && db'.items[i] == db.items[i] && db'.items[i].batch != b)
    && (forall i :: i in db.items && db.items[i].batch != b ==> i in db'.items)
  }

  lemma OpenDraftItems(db: Db, req: Request, totals: Totals)
    requires Bounded(db) && ValidRequest(db, req)
    ensures var open := OpenDraft(db, req, totals);
            open.nextItem == db.nextItem && KeepsOtherItems(db, open, TargetBatch(db, req))
  {
  }

  /** Charging leaves the lines' employees. */
  lemma ChargedHold(ledger: map<(Id, Id), Money>, b: Id, memberships: map<Id, Money>, lines: seq<Line>)
    ensures var charged := ChargeAll(ledger, b, memberships, lines);
            && (forall e :: HasLine(charged, e) <==> HasLine(lines, e))
            && (DistinctEmployees(lines) ==> DistinctEmployees(charged))
  {
    ChargeKeepsEmployees(ledger, b, memberships, lines);
    var charged := ChargeAll(ledger, b, memberships, lines);
    forall e ensures HasLine(charged, e) <==> HasLine(lines, e) {
      if n :| 0 <= n < |lines| && lines[n].employee == e {
        assert charged[n].employee == e;
      }
    }
  }

  /** After filling: the target's items are for the lines' employees, every other item is an old one. */
  lemma FillDraftItems(db: Db, req: Request, lines: seq<Line>, i: Id)
    requires Bounded(db) && ValidRequest(db, req)
    ensures var db' := FillDraft(db, req, lines);
            var b := TargetBatch(db, req);
            && (i in db'.items && db'.items[i].batch == b ==> HasLine(lines, db'.items[i].employee))
            && (i in db'.items && db'.items[i].batch != b ==> i in db.items && db'.items[i] == db.items[i])
            && (i in db.items && db.items[i].batch != b ==> i in db'.items && db'.items[i] == db.items[i])
  {
    var open, charged := FilledFrom(db, req, lines);
    InsertedItem(open, TargetBatch(db, req), charged, i);
    var db' := FillDraft(db, req, lines);
    if i in db'.items && db'.items[i].batch == TargetBatch(db, req) {
      InsertedHolds(open, TargetBatch(db, req), charged, i);
    }
    ChargedHold(Contribute(db.contributions, TargetBatch(db, req), lines, req.memberships), TargetBatch(db, req),
                req.memberships, lines);
  }

  lemma InsertedItem(db: Db, b: Id, lines: seq<Line>, i: Id)
    requires forall j :: j in db.items ==> j < db.nextItem && db.items[j].batch != b
    ensures var db' := InsertLines(db, b, lines);
            && (i in db.items ==> i in db'.items && db'.items[i] == db.items[i])
            && (i in db'.items && i !in db.items ==>
                  && db.nextItem <= i < db.nextItem + |lines|
                  && db'.items[i].batch == b && db'.items[i].employee == lines[i - db.nextItem].employee)
  {
    InsertLinesAddRows(db, b, lines);
    InsertLinesKeepOld(db, b, lines);
  }

  lemma InsertedHolds(db: Db, b: Id, lines: seq<Line>, i: Id)
    requires forall j :: j in db.items ==> j < db.nextItem && db.items[j].batch != b
    requires i in InsertLines(db, b, lines).items && InsertLines(db, b, lines).items[i].batch == b
    ensures HasLine(lines, InsertLines(db, b, lines).items[i].employee)
  {
    InsertedItem(db, b, lines, i);
  }

  /** After filling: the target is a draft of the request's period, every other batch row is an old one. */
  lemma FillDraftBatchRows(db: Db, req: Request, lines: seq<Line>)
    requires Bounded(db) && ValidRequest(db, req)
    ensures var db' := FillDraft(db, req, lines);
            var b := TargetBatch(db, req);
            && IsDraftFor(db', req, b)
            && (forall c :: c != b ==> (c in db'.batches <==> c in db.batches))
            && (forall c :: c != b && c in db.batches ==> db'.batches[c] == db.batches[c])
  {
    FillDraftBatches(db, req, lines);
  }

  lemma FillDraftBatches(db: Db, req: Request, lines: seq<Line>)
    requires ValidRequest(db, req)
    ensures var b := TargetBatch(db, req);
            var ledger := Contribute(db.contributions, b, lines, req.memberships);
            var charged := ChargeAll(ledger, b, req.memberships, lines);
            && FillDraft(db, req, lines).contributions == ledger
            && FillDraft(db, req, lines).batches == OpenDraft(db, req, LineSum(charged)).batches
  {
    var b := TargetBatch(db, req);
    var ledger := Contribute(db.contributions, b, lines, req.memberships);
    var charged := ChargeAll(ledger, b, req.memberships, lines);
    InsertLinesAddRows(OpenDraft(db, req, LineSum(charged)).(contributions := ledger), b, charged);
  }

  /** Filling a draft changes nobody's place in an active batch. */
  lemma FillingKeepsActive(db: Db, req: Request, lines: seq<Line>, j: Id)
    requires Bounded(db) && ValidRequest(db, req)
    ensures var db' := FillDraft(db, req, lines);
            && (InActiveBatch(db', req.month, req.year, j) <==> InActiveBatch(db, req.month, req.year, j))
            && (InActiveBatch(db, req.month, req.year, j) ==> db'.items[j] == db.items[j])
  {
    FillDraftItems(db, req, lines, j);
    FillDraftBatchRows(db, req, lines);
  }

  lemma SameActiveMeansSameProcessed(db: Db, db': Db, month: int, year: int)
    requires forall j :: InActiveBatch(db', month, year, j) <==> InActiveBatch(db, month, year, j)
    requires forall j :: InActiveBatch(db, month, year, j) ==> j in db'.items && db'.items[j] == db.items[j]
    ensures AlreadyProcessed(db', month, year) == AlreadyProcessed(db, month, year)
  {
    forall e | e in AlreadyProcessed(db, month, year) ensures e in AlreadyProcessed(db', month, year) {
      var j :| j in db.items && InActiveBatch(db, month, year, j) && db.items[j].employee == e;
      assert InActiveBatch(db', month, year, j);
    }
    forall e | e in AlreadyProcessed(db', month, year) ensures e in AlreadyProcessed(db, month, year) {
      var j :| j in db'.items && InActiveBatch(db', month, year, j) && db'.items[j].employee == e;
      assert InActiveBatch(db, month, year, j);
    }
  }

  lemma FillingKeepsProcessed(db: Db, req: Request, lines: seq<Line>)
    requires Bounded(db) && ValidRequest(db, req)
    ensures AlreadyProcessed(FillDraft(db, req, lines), req.month, req.year)
            == AlreadyProcessed(db, req.month, req.year)
  {
    forall j
      ensures InActiveBatch(FillDraft(db, req, lines), req.month, req.year, j) <==>
              InActiveBatch(db, req.month, req.year, j)
      ensures InActiveBatch(db, req.month, req.year, j) ==> FillDraft(db, req, lines).items[j] == db.items[j]
    {
      FillingKeepsActive(db, req, lines, j);
    }
    SameActiveMeansSameProcessed(db, FillDraft(db, req, lines), req.month, req.year);
  }

  /** The batch a successful creation fills contains nobody who is in an active batch of the period. */
  lemma CreationIsDisjoint(db: Db, actor: Actor, req: Request, i: Id, j: Id)
    requires Bounded(db) && ValidRequest(db, req) && CreateBatch(db, actor, req).Ok?
    requires InBatch(CreateBatch(db, actor, req).value, i, TargetBatch(db, req))
    requires InActiveBatch(CreateBatch(db, actor, req).value, req.month, req.year, j)
    ensures var db' := CreateBatch(db, actor, req).value; db'.items[i].employee != db'.items[j].employee
  {
    var lines := RequestLines(db, req);
    var db' := FillDraft(db, req, lines);
    FillDraftItems(db, req, lines, i);
    FillingKeepsActive(db, req, lines, j);
    RequestLinesAreDistinct(db, req);
    var n :| 0 <= n < |lines| && lines[n].employee == db'.items[i].employee;
    assert lines[n] in lines;
    assert db'.items[j].employee in AlreadyProcessed(db, req.month, req.year);
  }

  /** The ledger entries a batch needs are there after the first creation, so a second adds none. */
  lemma ContributeIsIdempotent(contributions: map<(Id, Id), Money>, b: Id, lines: seq<Line>,
                               memberships: map<Id, Money>)
    ensures var ledger := Contribute(contributions, b, lines, memberships);
            Contribute(ledger, b, lines, memberships) == ledger
  {
  }

  /** The request repeated against the draft it just filled. */
  function Again(db: Db, req: Request): Request {
    req.(draft := Some(TargetBatch(db, req)))
  }

  /** Creating a batch again on its own unchanged draft adds no savings contribution and reproduces every
      batch row, totals included; only row ids are new. */
  lemma RecreatingReproducesTotals(db: Db, actor: Actor, req: Request)
    requires Bounded(db) && ValidRequest(db, req) && CreateBatch(db, actor, req).Ok?
    ensures var db1 := CreateBatch(db, actor, req).value;
            && ValidRequest(db1, Again(db, req)) && CreateBatch(db1, actor, Again(db, req)).Ok?
            && var db2 := CreateBatch(db1, actor, Again(db, req)).value;
               db2.contributions == db1.contributions && db2.batches == db1.batches
  {
    AgainHasTheSameLines(db, req);
    RefillingReproducesBatches(db, req, RequestLines(db, req));
  }

  lemma AgainHasTheSameLines(db: Db, req: Request)
    requires Bounded(db) && ValidRequest(db, req)
    ensures var db1 := FillDraft(db, req, RequestLines(db, req));
            ValidRequest(db1, Again(db, req)) && RequestLines(db1, Again(db, req)) == RequestLines(db, req)
  {
    FillDraftBatchRows(db, req, RequestLines(db, req));
    FillingKeepsProcessed(db, req, RequestLines(db, req));
  }

  lemma RefillingReproducesBatches(db: Db, req: Request, lines: seq<Line>)
    requires Bounded(db) && ValidRequest(db, req) && ValidRequest(FillDraft(db, req, lines), Again(db, req))
    ensures var db1 := FillDraft(db, req, lines);
            var db2 := FillDraft(db1, Again(db, req), lines);
            db2.contributions == db1.contributions && db2.batches == db1.batches
  {
    FillDraftBatches(db, req, lines);
    ContributeIsIdempotent(db.contributions, TargetBatch(db, req), lines, req.memberships);
    SettledDraftStays(FillDraft(db, req, lines), Again(db, req), lines);
  }

  /** A draft whose savings are recorded and whose totals are its lines' is rewritten as it is. */
  lemma SettledDraftStays(db: Db, req: Request, lines: seq<Line>)
    requires ValidRequest(db, req) && req.draft.Some?
    requires Contribute(db.contributions, req.draft.value, lines, req.memberships) == db.contributions
    requires db.batches[req.draft.value].totals ==
             LineSum(ChargeAll(db.contributions, req.draft.value, req.memberships, lines))
    ensures FillDraft(db, req, lines).contributions == db.contributions
    ensures FillDraft(db, req, lines).batches == db.batches
  {
    FillDraftBatches(db, req, lines);
  }

  // ---------- itemised transactions ----------

  ghost predicate AllItemised(db: Db) {
    forall t :: t in db.transactions ==> Itemised(db.transactions[t].figures)
  }

  ghost predicate LinesItemised(lines: seq<Line>) {
    forall n :: 0 <= n < |lines| ==> Itemised(lines[n].figures)
  }

  ghost predicate NoneNegative(contributions: map<(Id, Id), Money>) {
    forall c :: c in contributions ==> contributions[c] >= 0.0
  }

  ghost predicate SavingsNotNegative(db: Db) {
    NoneNegative(db.contributions)
  }

  /** A line that batch creation writes is itemised exactly when it is charged nothing, the amount is not
      negative, or its deductions did not exceed its gross beforehand. */
  lemma ChargedLineItemisedIff(ledger: map<(Id, Id), Money>, b: Id, memberships: map<Id, Money>, line: Line)
    requires Itemised(line.figures)
    ensures Itemised(Charge(ledger, b, memberships, line).figures) <==>
            line.employee !in memberships || (line.employee, b) !in ledger
            || ledger[(line.employee, b)] >= 0.0 || line.figures.gross >= line.figures.deductions
  {
    AdjustKeepsItemisedIff(line.figures, if (line.employee, b) in ledger then ledger[(line.employee, b)] else 0.0);
  }

  lemma {:induction false} LinesAreItemised(employees: seq<Id>, calculations: map<Id, Calculation>)
    ensures LinesItemised(Lines(employees, calculations))
  {
    if employees != [] {
      LinesAreItemised(employees[..|employees| - 1], calculations);
    }
  }

  lemma {:induction false} InsertLinesKeepItemised(db: Db, b: Id, lines: seq<Line>)
    requires AllItemised(db) && LinesItemised(lines)
    ensures AllItemised(InsertLines(db, b, lines))
  {
    if lines != [] {
      InsertLinesKeepItemised(db, b, lines[..|lines| - 1]);
    }
  }

  lemma ChargedLinesAreItemised(ledger: map<(Id, Id), Money>, b: Id, memberships: map<Id, Money>, lines: seq<Line>)
    requires NoneNegative(ledger)
    requires LinesItemised(lines)
    ensures LinesItemised(ChargeAll(ledger, b, memberships, lines))
  {
    var charged := ChargeAll(ledger, b, memberships, lines);
    ChargeAllAt(ledger, b, memberships, lines);
    forall n | 0 <= n < |charged| ensures Itemised(charged[n].figures) {
      ChargedLineItemisedIff(ledger, b, memberships, lines[n]);
    }
  }

  lemma OpenDraftKeepsItemised(db: Db, req: Request, totals: Totals, ledger: map<(Id, Id), Money>)
    requires AllItemised(db) && ValidRequest(db, req)
    ensures AllItemised(OpenDraft(db, req, totals).(contributions := ledger))
  {
  }

  lemma ContributionsStayNotNegative(contributions: map<(Id, Id), Money>, b: Id, lines: seq<Line>,
                                     memberships: map<Id, Money>)
    requires NoneNegative(contributions)
    requires forall e :: e in memberships ==> memberships[e] >= 0.0
    ensures NoneNegative(Contribute(contributions, b, lines, memberships))
  {
  }

  lemma ItemisedHalves(db: Db, req: Request, lines: seq<Line>) returns (open: Db, charged: seq<Line>)
    requires AllItemised(db) && SavingsNotNegative(db) && ValidRequest(db, req)
    requires forall e :: e in req.memberships ==> req.memberships[e] >= 0.0
    requires LinesItemised(lines)
    ensures FillDraft(db, req, lines) == InsertLines(open, TargetBatch(db, req), charged)
    ensures AllItemised(open) && LinesItemised(charged)
  {
    var b := TargetBatch(db, req);
    var ledger := Contribute(db.contributions, b, lines, req.memberships);
    charged := ChargeAll(ledger, b, req.memberships, lines);
    open := OpenDraft(db, req, LineSum(charged)).(contributions := ledger);
    ContributionsStayNotNegative(db.contributions, b, lines, req.memberships);
    ChargedLinesAreItemised(ledger, b, req.memberships, lines);
    OpenDraftKeepsItemised(db, req, LineSum(charged), ledger);
  }

  lemma FillDraftKeepsItemised(db: Db, req: Request, lines: seq<Line>)
    requires AllItemised(db) && SavingsNotNegative(db) && ValidRequest(db, req)
    requires forall e :: e in req.memberships ==> req.memberships[e] >= 0.0
    requires LinesItemised(lines)
    ensures AllItemised(FillDraft(db, req, lines))
  {
    var open, charged := ItemisedHalves(db, req, lines);
    InsertLinesKeepItemised(open, TargetBatch(db, req), charged);
  }

  lemma FillDraftKeepsSavings(db: Db, req: Request, lines: seq<Line>)
    requires SavingsNotNegative(db) && ValidRequest(db, req)
    requires forall e :: e in req.memberships ==> req.memberships[e] >= 0.0
    ensures SavingsNotNegative(FillDraft(db, req, lines))
  {
    ContributionsStayNotNegative(db.contributions, TargetBatch(db, req), lines, req.memberships);
    FillDraftBatches(db, req, lines);
  }

  /** With no negative savings amount, every transaction batch creation leaves is itemised. */
  lemma CreateBatchKeepsItemised(db: Db, actor: Actor, req: Request)
    requires AllItemised(db) && SavingsNotNegative(db) && ValidRequest(db, req) && CreateBatch(db, actor, req).Ok?
    requires forall e :: e in req.memberships ==> req.memberships[e] >= 0.0
    ensures AllItemised(CreateBatch(db, actor, req).value) && SavingsNotNegative(CreateBatch(db, actor, req).value)
  {
    LinesAreItemised(Eligible(req.employees, AlreadyProcessed(db, req.month, req.year)), req.calculations);
    FillDraftKeepsItemised(db, req, RequestLines(db, req));
    FillDraftKeepsSavings(db, req, RequestLines(db, req));
  }

  lemma {:induction false} InsertLinesItemisedIff(db: Db, b: Id, lines: seq<Line>)
    requires forall t :: t in db.transactions ==> t < db.nextTransaction
    ensures AllItemised(InsertLines(db, b, lines)) <==> AllItemised(db) && LinesItemised(lines)
    ensures forall t :: t in InsertLines(db, b, lines).transactions ==> t < db.nextTransaction + |lines|
  {
    if lines != [] {
      var front, last := lines[..|lines| - 1], lines[|lines| - 1];
      InsertLinesItemisedIff(db, b, front);
      InsertLinesAddRows(db, b, front);
      InsertLineItemisedIff(InsertLines(db, b, front), b, last);
      assert lines == front + [last];
      assert LinesItemised(lines) <==> LinesItemised(front) && Itemised(last.figures);
    }
  }

  lemma InsertLineItemisedIff(db: Db, b: Id, line: Line)
    requires forall t :: t in db.transactions ==> t < db.nextTransaction
    ensures AllItemised(InsertLine(db, b, line)) <==> AllItemised(db) && Itemised(line.figures)
  {
    var db' := InsertLine(db, b, line);
    assert db'.transactions[db.nextTransaction].figures == line.figures;
    assert forall t :: t in db.transactions ==> db'.transactions[t] == db.transactions[t];
  }

  /** What is charged to the line: the batch's ledger entry, or else the monthly amount. */
  predicate SafeToCharge(contributions: map<(Id, Id), Money>, b: Id, memberships: map<Id, Money>, line: Line) {
    line.employee in memberships ==>
      var amount :=
        if (line.employee, b) in contributions then contributions[(line.employee, b)] else memberships[line.employee];
      amount >= 0.0 || line.figures.gross >= line.figures.deductions
  }

  lemma ChargedItemisedIff(contributions: map<(Id, Id), Money>, b: Id, memberships: map<Id, Money>, lines: seq<Line>)
    requires LinesItemised(lines)
    ensures LinesItemised(ChargeAll(Contribute(contributions, b, lines, memberships), b, memberships, lines)) <==>
            forall n :: 0 <= n < |lines| ==> SafeToCharge(contributions, b, memberships, lines[n])
  {
    var ledger := Contribute(contributions, b, lines, memberships);
    ChargeAllAt(ledger, b, memberships, lines);
    forall n | 0 <= n < |lines|
      ensures Itemised(Charge(ledger, b, memberships, lines[n]).figures) <==>
              SafeToCharge(contributions, b, memberships, lines[n])
    {
      assert HasLine(lines, lines[n].employee);
      ChargedLineItemisedIff(ledger, b, memberships, lines[n]);
    }
  }

  lemma FillDraftItemisedIff(db: Db, req: Request, lines: seq<Line>)
    requires Bounded(db) && AllItemised(db) && ValidRequest(db, req) && LinesItemised(lines)
    ensures AllItemised(FillDraft(db, req, lines)) <==>
            forall n :: 0 <= n < |lines| ==>
              SafeToCharge(db.contributions, TargetBatch(db, req), req.memberships, lines[n])
  {
    var b := TargetBatch(db, req);
    var ledger := Contribute(db.contributions, b, lines, req.memberships);
    var charged := ChargeAll(ledger, b, req.memberships, lines);
    OpenDraftKeepsItemised(db, req, LineSum(charged), ledger);
    OpenDraftKeepsIds(db, req, LineSum(charged), ledger);
    InsertLinesItemisedIff(OpenDraft(db, req, LineSum(charged)).(contributions := ledger), b, charged);
    ChargedItemisedIff(db.contributions, b, req.memberships, lines);
  }

  lemma OpenDraftKeepsIds(db: Db, req: Request, totals: Totals, ledger: map<(Id, Id), Money>)
    requires Bounded(db) && ValidRequest(db, req)
    ensures var open := OpenDraft(db, req, totals).(contributions := ledger);
            forall t :: t in open.transactions ==> t < open.nextTransaction
  {
  }

  /** Batch creation leaves every transaction itemised exactly when each member of the batch is charged an
      amount that is not negative or has a gross that covers the deductions. */
  lemma CreateBatchItemisedIff(db: Db, actor: Actor, req: Request)
    requires Bounded(db) && AllItemised(db) && ValidRequest(db, req) && CreateBatch(db, actor, req).Ok?
    ensures AllItemised(CreateBatch(db, actor, req).value) <==>
            var lines := RequestLines(db, req);
            forall n :: 0 <= n < |lines| ==>
              SafeToCharge(db.contributions, TargetBatch(db, req), req.memberships, lines[n])
  {
    LinesAreItemised(Eligible(req.employees, AlreadyProcessed(db, req.month, req.year)), req.calculations);
    FillDraftItemisedIff(db, req, RequestLines(db, req));
  }

  lemma OneLine(e: Id, processed: set<Id>, calculations: map<Id, Calculation>)
    requires e !in processed && e in calculations
    ensures Eligible([e], processed) == [e] && Lines([e], calculations) == [Line(e, calculations[e])]
  {
    assert [e][..0] == [];
  }

  const EMPTY_TABLES := Db(map[], map[], map[], map[], 1, 1, 1)

  const OVERDRAWN: Calculation := Figures(100.0, 0.0, 0.0, 100.0, 0.0, 150.0, 0.0, 150.0, 0.0, None)

  const NEGATIVE_MEMBER := Request(1, 1, 2025, [7], map[7 := OVERDRAWN], map[7 := -10.0], None)

  /** A gross of 100, deductions of 150, and a membership of -10: the net becomes 10 with deductions still
      above the gross. */
  lemma NegativeSavingBreaksCreation(admin: Actor)
    requires SuperAdmin in admin.roles
    ensures ValidRequest(EMPTY_TABLES, NEGATIVE_MEMBER) && CreateBatch(EMPTY_TABLES, admin, NEGATIVE_MEMBER).Ok?
    ensures !AllItemised(CreateBatch(EMPTY_TABLES, admin, NEGATIVE_MEMBER).value)
  {
    NegativeMemberLine();
    var line := RequestLines(EMPTY_TABLES, NEGATIVE_MEMBER)[0];
    NotSafeToCharge(NEGATIVE_MEMBER.memberships, line);
    CreateBatchItemisedIff(EMPTY_TABLES, admin, NEGATIVE_MEMBER);
  }

  lemma NegativeMemberLine()
    ensures Eligible(NEGATIVE_MEMBER.employees, AlreadyProcessed(EMPTY_TABLES, 1, 2025)) == [7]
    ensures RequestLines(EMPTY_TABLES, NEGATIVE_MEMBER) == [Line(7, OVERDRAWN)]
  {
    OneLine(7, AlreadyProcessed(EMPTY_TABLES, 1, 2025), NEGATIVE_MEMBER.calculations);
  }

  lemma NotSafeToCharge(memberships: map<Id, Money>, line: Line)
    requires line.employee in memberships && memberships[line.employee] < 0.0
    requires line.figures.gross < line.figures.deductions
    ensures !SafeToCharge(map[], 1, memberships, line)
  {
  }

  /** No other call touches a figure or a contribution. */
  lemma EffectKeepsFigures(db: Db, e: Event, db': Db)
    requires Effect(db, e, db') && !e.Create?
    ensures db'.contributions == db.contributions
    ensures forall t :: t in db'.transactions ==>
            t in db.transactions && db'.transactions[t].figures == db.transactions[t].figures
  {
    match e
    case Submit(_) =>
    case AcceptItem(_, _, _) =>
    case DenyItem(_, _, _) =>
    case AcceptBatch(b, _, org) => BatchApprovedKeepsFigures(db, b, IsFinalApproval(db.batches[b], org));
    case DenyBatch(_, _, _) =>
  }

  lemma BatchApprovedKeepsFigures(db: Db, b: Id, final: bool)
    requires b in db.batches
    ensures var db' := BatchApproved(db, b, final);
            && db'.contributions == db.contributions
            && forall t :: t in db'.transactions ==>
              t in db.transactions && db'.transactions[t].figures == db.transactions[t].figures
  {
    assert SplitRejected(db, b).transactions == db.transactions;
  }

  ghost predicate AsksNoNegativeSavings(e: Event) {
    e.Create? ==> forall m :: m in e.request.memberships ==> e.request.memberships[m] >= 0.0
  }

  /** In every run whose memberships are not negative, every transaction of every reachable state is
      itemised: gross is base plus allowance plus overtime, net is gross less deductions but not below zero. */
  lemma {:induction false} ReachableTransactionsAreItemised(states: seq<Db>, events: seq<Event>, k: nat)
    requires Run(states, events) && Initial(states[0]) && k <= |events|
    requires forall n :: 0 <= n < |events| ==> AsksNoNegativeSavings(events[n])
    ensures AllItemised(states[k]) && SavingsNotNegative(states[k])
  {
    if k > 0 {
      var db, e, db' := states[k - 1], events[k - 1], states[k];
      ReachableTransactionsAreItemised(states, events, k - 1);
      assert Next(db, e, db') && AsksNoNegativeSavings(e);
      StepHasEffect(db, e, db');
      if e.Create? {
        if Outcome(db, e).Ok? {
          CreateBatchKeepsItemised(db, e.creator, e.request);
        }
      } else if db' != db {
        EffectKeepsFigures(db, e, db');
      }
    }
  }
}
