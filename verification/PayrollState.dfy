/** The payroll tables and what each payroll transaction does to them, as functions of the tables. */
module PayrollState {
  import opened Wrappers
  import opened Ledger
  import opened Permissions
  import opened PayCalculation

  type Id = nat

  datatype BatchStatus = DRAFT | PENDING | IN_REVIEW | MANAGER_APPROVED | APPROVED | REJECTED

  datatype ItemStatus = ItemPending | ItemApproved | ItemRejected

  datatype TransactionStatus = Unpaid | Paid | Refused

  datatype Batch = Batch(
    location: Id, month: int, year: int, totals: Totals, status: BatchStatus, step: int)

  datatype Item = Item(batch: Id, employee: Id, transaction: Id, status: ItemStatus)

  datatype Transaction = Transaction(employee: Id, figures: Figures, status: TransactionStatus)

  /** The four tables, with the next automatic id of each; a contribution is keyed by employee and batch. */
  datatype Db = Db(
    batches: map<Id, Batch>,
    items: map<Id, Item>,
    transactions: map<Id, Transaction>,
    contributions: map<(Id, Id), Money>,
    nextBatch: Id, nextItem: Id, nextTransaction: Id)

  datatype Error =
    | NoEmployees | AllProcessed | NoStructures | WrongLocation
    | NotFound | Terminal | NotSubmitted | NotSubmittable | NotInitialApprover | NotFinalApprover

  // ---------- actors ----------

  datatype Role = SuperAdmin | BranchManager | Hr | OtherRole(name: string)

  datatype Actor = Actor(
    roles: set<Role>, permissions: set<Key>, overrides: seq<Override>, location: Option<Id>)

  /** What the approval checks look up: locations with an initial approver, headquarters, locations with active HR. */
  datatype Org = Org(initialApproverAt: set<Id>, headquarters: Option<Id>, activeHrAt: set<Id>)

  predicate Holds(actor: Actor, key: Key) {
    key in Effective(IMPLIED_PERMISSIONS, actor.permissions, actor.overrides)
  }

  /** Headquarters when it has active HR; otherwise only a super admin may give final approval. */
  function FinalApprovalAuthority(org: Org): Option<Id> {
    if org.headquarters.Some? && org.headquarters.value in org.activeHrAt then org.headquarters else None
  }

  predicate AwaitsInitialStep(batch: Batch, org: Org) {
    batch.step == 1 && batch.location in org.initialApproverAt
  }

  /** `ensureActorCanApproveBatch`. */
  function ApprovalError(actor: Actor, batch: Batch, org: Org): Option<Error> {
    if SuperAdmin in actor.roles then None
    else if AwaitsInitialStep(batch, org) then
      if Holds(actor, PayrollApproveInitial) || Holds(actor, PayrollApprove)
         || (BranchManager in actor.roles && actor.location == Some(batch.location))
      then None else Some(NotInitialApprover)
    else
      var authority := FinalApprovalAuthority(org);
      if authority.Some? && (Holds(actor, PayrollApproveFinal) || Holds(actor, PayrollApprove))
         && Hr in actor.roles && actor.location == authority
      then None else Some(NotFinalApprover)
  }

  /** `ensureBatchCanStillBeReviewed`. */
  function ReviewError(batch: Batch): Option<Error> {
    if batch.status == APPROVED || batch.status == REJECTED then Some(Terminal)
    else if batch.status == DRAFT then Some(NotSubmitted)
    else None
  }

  function GuardError(db: Db, b: Id, actor: Actor, org: Org): Option<Error> {
    if b !in db.batches then Some(NotFound)
    else if ReviewError(db.batches[b]).Some? then ReviewError(db.batches[b])
    else ApprovalError(actor, db.batches[b], org)
  }

  // ---------- sums over the rows of a batch ----------

  function RowTotals(f: Figures): Totals {
    Totals(1, f.net, f.gross, f.allowance, f.deductions, f.tax)
  }

  /** What item `i` adds to batch `b`: its transaction's figures when it is there, else nothing. */
  function Cell(db: Db, b: Id, i: Id): Totals {
    if i in db.items && db.items[i].batch == b && db.items[i].transaction in db.transactions
    then RowTotals(db.transactions[db.items[i].transaction].figures)
    else ZERO
  }

  function Cells(db: Db, b: Id): nat -> Totals {
    (i: nat) => Cell(db, b, i)
  }

  /** Head count and sums over the batch's own items. */
  function BatchSum(db: Db, b: Id): Totals {
    Sum(db.nextItem, Cells(db, b))
  }

  // ---------- creating or redrafting a batch ----------

  /** One employee's calculated pay. */
  datatype Line = Line(employee: Id, figures: Figures)

  /** What batch creation finds: the active employees, the pay calculated for those with a structure in
      force, the active savings memberships, and the draft the lookup returns. */
  datatype Request = Request(
    location: Id, month: int, year: int,
    employees: seq<Id>,
    calculations: map<Id, Calculation>,
    memberships: map<Id, Money>,
    draft: Option<Id>)

  predicate IsDraftFor(db: Db, req: Request, d: Id) {
    && d in db.batches && db.batches[d].status == DRAFT
    && db.batches[d].location == req.location
    && db.batches[d].month == req.month && db.batches[d].year == req.year
  }

  /** The lookup returns some matching draft when there is one; which one is not specified. */
  predicate ValidRequest(db: Db, req: Request) {
    && (forall m, n :: 0 <= m < n < |req.employees| ==> req.employees[m] != req.employees[n])
    && (if req.draft.Some? then IsDraftFor(db, req, req.draft.value)
        else forall d | d in db.batches :: !IsDraftFor(db, req, d))
  }

  predicate InActiveBatch(db: Db, month: int, year: int, i: Id) {
    && i in db.items && db.items[i].batch in db.batches
    && var batch := db.batches[db.items[i].batch];
       batch.month == month && batch.year == year && batch.status !in {DRAFT, REJECTED}
  }

  /** Employees with an item in an active batch of the period. */
  function AlreadyProcessed(db: Db, month: int, year: int): set<Id> {
    set i | i in db.items && InActiveBatch(db, month, year, i) :: db.items[i].employee
  }

  function Eligible(employees: seq<Id>, processed: set<Id>): seq<Id> {
    if employees == [] then []
    else
      var last := |employees| - 1;
      Eligible(employees[..last], processed)
        + (if employees[last] in processed then [] else [employees[last]])
  }

  /** The lines of the eligible employees that have a calculation, in order. */
  function Lines(employees: seq<Id>, calculations: map<Id, Calculation>): seq<Line> {
    if employees == [] then []
    else
      var last := |employees| - 1;
      Lines(employees[..last], calculations)
        + (if employees[last] in calculations then [Line(employees[last], calculations[employees[last]])] else [])
  }

  function RequestLines(db: Db, req: Request): seq<Line> {
    Lines(Eligible(req.employees, AlreadyProcessed(db, req.month, req.year)), req.calculations)
  }

  function LineCells(lines: seq<Line>): nat -> Totals {
    (n: nat) => if n < |lines| then RowTotals(lines[n].figures) else ZERO
  }

  function LineSum(lines: seq<Line>): Totals {
    Sum(|lines|, LineCells(lines))
  }

  predicate HasLine(lines: seq<Line>, e: Id) {
    exists n | 0 <= n < |lines| :: lines[n].employee == e
  }

  /** The ledger after `deductForBatch`: one entry per line with a membership; an entry that is there stays. */
  function Contribute(contributions: map<(Id, Id), Money>, b: Id, lines: seq<Line>, memberships: map<Id, Money>)
    : map<(Id, Id), Money>
  {
    contributions + map e | e in memberships && HasLine(lines, e) && (e, b) !in contributions
                      :: (e, b) := memberships[e]
  }

  /** The savings each member's line is charged: the ledger's entry for this batch. */
  function Charge(contributions: map<(Id, Id), Money>, b: Id, memberships: map<Id, Money>, line: Line): Line {
    if line.employee in memberships && (line.employee, b) in contributions
    then line.(figures := Adjust(line.figures, contributions[(line.employee, b)]))
    else line
  }

  function ChargeAll(contributions: map<(Id, Id), Money>, b: Id, memberships: map<Id, Money>,
                     lines: seq<Line>): seq<Line> {
    if lines == [] then []
    else
      var last := |lines| - 1;
      ChargeAll(contributions, b, memberships, lines[..last]) + [Charge(contributions, b, memberships, lines[last])]
  }

  /** Delete every item of batch `b` with its transaction. */
  function ClearBatch(db: Db, b: Id): Db {
    var gone := set i | i in db.items && db.items[i].batch == b :: db.items[i].transaction;
    db.(items := map i | i in db.items && db.items[i].batch != b :: db.items[i],
        transactions := map t | t in db.transactions && t !in gone :: db.transactions[t])
  }

  /** One new transaction for a line, and one pending item that refers to it. */
  function InsertLine(db: Db, b: Id, line: Line): Db {
    db.(items := db.items[db.nextItem := Item(b, line.employee, db.nextTransaction, ItemPending)],
        transactions := db.transactions[db.nextTransaction := Transaction(line.employee, line.figures, Unpaid)],
        nextItem := db.nextItem + 1,
        nextTransaction := db.nextTransaction + 1)
  }

  function InsertLines(db: Db, b: Id, lines: seq<Line>): Db {
    if lines == [] then db
    else
      var last := |lines| - 1;
      InsertLine(InsertLines(db, b, lines[..last]), b, lines[last])
  }

  function TargetBatch(db: Db, req: Request): Id {
    if req.draft.Some? then req.draft.value else db.nextBatch
  }

  /** The batch row with its rows cleared: the draft being redone, or a fresh one. */
  function OpenDraft(db: Db, req: Request, totals: Totals): Db
    requires ValidRequest(db, req)
  {
    if req.draft.Some? then
      var d := req.draft.value;
      ClearBatch(db, d).(batches := db.batches[d := db.batches[d].(totals := totals)])
    else
      db.(batches := db.batches[db.nextBatch := Batch(req.location, req.month, req.year, totals, DRAFT, 1)],
          nextBatch := db.nextBatch + 1)
  }

  function ActorAllowedAt(actor: Actor, location: Id): bool {
    SuperAdmin in actor.roles || actor.location == Some(location)
  }

  /** `createBatch`. */
  function CreateBatch(db: Db, actor: Actor, req: Request): Result<Db, Error>
    requires ValidRequest(db, req)
  {
    var lines := RequestLines(db, req);
    if !ActorAllowedAt(actor, req.location) then Err(WrongLocation)
    else if req.employees == [] then Err(NoEmployees)
    else if Eligible(req.employees, AlreadyProcessed(db, req.month, req.year)) == [] then Err(AllProcessed)
    else if lines == [] then Err(NoStructures)
    else Ok(FillDraft(db, req, lines))
  }

  function FillDraft(db: Db, req: Request, lines: seq<Line>): Db
    requires ValidRequest(db, req)
  {
    var b := TargetBatch(db, req);
    var ledger := Contribute(db.contributions, b, lines, req.memberships);
    var charged := ChargeAll(ledger, b, req.memberships, lines);
    InsertLines(OpenDraft(db, req, LineSum(charged)).(contributions := ledger), b, charged)
  }

  // ---------- submission and review ----------

  function SetStatus(db: Db, b: Id, status: BatchStatus): Db
    requires b in db.batches
  {
    db.(batches := db.batches[b := db.batches[b].(status := status)])
  }

  function Submitted(db: Db, b: Id): Db
    requires b in db.batches
  {
    db.(batches := db.batches[b := db.batches[b].(status := PENDING, step := 1)])
  }

  /** `submitBatch`. */
  function SubmitBatch(db: Db, b: Id): Result<Db, Error> {
    if b !in db.batches then Err(NotFound)
    else if db.batches[b].status == APPROVED then Err(Terminal)
    else if db.batches[b].status !in {DRAFT, REJECTED} then Err(NotSubmittable)
    else Ok(Submitted(db, b))
  }

  predicate SomeItemPending(db: Db, b: Id) {
    exists i | i in db.items :: db.items[i].batch == b && db.items[i].status == ItemPending
  }

  /** `recalculateBatchStatus`: a batch without a pending item goes into review. */
  function Recalculate(db: Db, b: Id): Db
    requires b in db.batches
  {
    if SomeItemPending(db, b) || (forall i | i in db.items :: db.items[i].batch != b) then db
    else SetStatus(db, b, IN_REVIEW)
  }

  function ItemError(db: Db, i: Id, actor: Actor, org: Org): Option<Error> {
    if i !in db.items then Some(NotFound) else GuardError(db, db.items[i].batch, actor, org)
  }

  function MarkItem(db: Db, i: Id, status: ItemStatus): Db
    requires i in db.items
  {
    db.(items := db.items[i := db.items[i].(status := status)])
  }

  function RefuseTransaction(db: Db, t: Id): Db
    requires t in db.transactions
  {
    db.(transactions := db.transactions[t := db.transactions[t].(status := Refused)])
  }

  function ItemApprovedIn(db: Db, i: Id): Db
    requires i in db.items && db.items[i].batch in db.batches
  {
    Recalculate(MarkItem(db, i, ItemApproved), db.items[i].batch)
  }

  function ItemRejectedIn(db: Db, i: Id): Db
    requires i in db.items && db.items[i].batch in db.batches && db.items[i].transaction in db.transactions
  {
    Recalculate(RefuseTransaction(MarkItem(db, i, ItemRejected), db.items[i].transaction), db.items[i].batch)
  }

  /** `approveItem`. */
  function ApproveItem(db: Db, i: Id, actor: Actor, org: Org): Result<Db, Error> {
    var error := ItemError(db, i, actor, org);
    if error.Some? then Err(error.value) else Ok(ItemApprovedIn(db, i))
  }

  /** `rejectItem`; the transaction it refuses always exists. */
  function RejectItem(db: Db, i: Id, actor: Actor, org: Org): Result<Db, Error> {
    var error := ItemError(db, i, actor, org);
    if error.Some? then Err(error.value)
    else if db.items[i].transaction !in db.transactions then Err(NotFound)
    else Ok(ItemRejectedIn(db, i))
  }

  // ---------- batch approval ----------

  predicate IsRejectedIn(db: Db, b: Id, i: Id) {
    i in db.items && db.items[i].batch == b && db.items[i].status == ItemRejected
  }

  function RejectedCell(db: Db, b: Id, i: Id): Totals {
    if IsRejectedIn(db, b, i) then Cell(db, b, i) else ZERO
  }

  function RejectedCells(db: Db, b: Id): nat -> Totals {
    (i: nat) => RejectedCell(db, b, i)
  }

  function RejectedSum(db: Db, b: Id): Totals {
    Sum(db.nextItem, RejectedCells(db, b))
  }

  /** `handlePartialRejectionSplit`: the rejected items move, pending again, to a new draft; the original
      batch's totals go down by theirs. */
  function SplitRejected(db: Db, b: Id): Db
    requires b in db.batches
  {
    if forall i | i in db.items :: !IsRejectedIn(db, b, i) then db
    else
      var batch := db.batches[b];
      var moved := RejectedSum(db, b);
      var splitOff := Batch(batch.location, batch.month, batch.year, moved, DRAFT, 1);
      db.(batches := db.batches[db.nextBatch := splitOff][b := batch.(totals := batch.totals.Minus(moved))],
          items := map i | i in db.items ::
                     if IsRejectedIn(db, b, i) then db.items[i].(batch := db.nextBatch, status := ItemPending)
                     else db.items[i],
          nextBatch := db.nextBatch + 1)
  }

  function PayableTransactions(db: Db, b: Id): set<Id> {
    set i | i in db.items && db.items[i].batch == b && db.items[i].status != ItemRejected :: db.items[i].transaction
  }

  /** The final step: every item not rejected is approved and its transaction paid. */
  function PayBatch(db: Db, b: Id): Db
    requires b in db.batches
  {
    var payable := PayableTransactions(db, b);
    db.(batches := db.batches[b := db.batches[b].(status := APPROVED)],
        items := map i | i in db.items ::
                   if db.items[i].batch == b && db.items[i].status != ItemRejected
                   then db.items[i].(status := ItemApproved) else db.items[i],
        transactions := map t | t in db.transactions ::
                   if t in payable then db.transactions[t].(status := Paid) else db.transactions[t])
  }

  predicate IsFinalApproval(batch: Batch, org: Org) {
    batch.step >= (if batch.location in org.initialApproverAt then 2 else 1)
  }

  /** The step before the last: the manager has approved, the counter goes up. */
  function PassOn(db: Db, b: Id): Db
    requires b in db.batches
  {
    db.(batches := db.batches[b := db.batches[b].(status := MANAGER_APPROVED, step := db.batches[b].step + 1)])
  }

  /** Split off the rejected items, then pay the batch or pass it to the next step. */
  function BatchApproved(db: Db, b: Id, final: bool): Db
    requires b in db.batches
  {
    if final then PayBatch(SplitRejected(db, b), b) else PassOn(SplitRejected(db, b), b)
  }

  /** `approveBatch`. */
  function ApproveBatch(db: Db, b: Id, actor: Actor, org: Org): Result<Db, Error> {
    var error := GuardError(db, b, actor, org);
    if error.Some? then Err(error.value) else Ok(BatchApproved(db, b, IsFinalApproval(db.batches[b], org)))
  }

  function ReturnToDraft(db: Db, b: Id): Db
    requires b in db.batches
  {
    db.(batches := db.batches[b := db.batches[b].(status := DRAFT, step := 1)],
        items := map i | i in db.items ::
                   if db.items[i].batch == b then db.items[i].(status := ItemPending) else db.items[i])
  }

  /** `rejectBatch`: terminal from a super admin, otherwise back to a draft with every item pending. */
  function RejectBatch(db: Db, b: Id, actor: Actor, org: Org): Result<Db, Error> {
    var error := GuardError(db, b, actor, org);
    if error.Some? then Err(error.value)
    else if SuperAdmin in actor.roles then Ok(SetStatus(db, b, REJECTED))
    else Ok(ReturnToDraft(db, b))
  }
}
