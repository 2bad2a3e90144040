/** The dashboard's figures for the payroll tables: what it shows as approved is what was paid. */
module DashboardLedger {
  import opened Ledger
  import opened PayrollState
  import opened PayrollInvariants
  import PayrollRuns
  import opened PayrollGuarantees
  import Dashboard

  function StatusName(status: BatchStatus): (name: string)
    ensures name == "APPROVED" <==> status == APPROVED
  {
    match status
    case DRAFT => "DRAFT"
    case PENDING => "PENDING"
    case IN_REVIEW => "IN_REVIEW"
    case MANAGER_APPROVED => "MANAGER_APPROVED"
    case APPROVED => "APPROVED"
    case REJECTED => "REJECTED"
  }

  function RowOfBatch(batch: Batch): Dashboard.BatchRow {
    Dashboard.BatchRow(batch.year * 12 + batch.month - 1, StatusName(batch.status), batch.totals)
  }

  /** The batch rows below `n`, as the dashboard reads them. */
  function BatchRows(db: Db, n: nat): seq<Dashboard.BatchRow> {
    if n == 0 then []
    else BatchRows(db, n - 1) + if n - 1 in db.batches then [RowOfBatch(db.batches[n - 1])] else []
  }

  lemma {:induction false} ApprovedEntry(db: Db, n: nat)
    ensures Dashboard.Summary(Dashboard.WithStatus(BatchRows(db, n), "APPROVED")).totals == Sum(n, ApprovedBatches(db))
  {
    if n > 0 {
      ApprovedEntry(db, n - 1);
      if n - 1 in db.batches {
        Dashboard.SummaryOfStatus(BatchRows(db, n - 1), RowOfBatch(db.batches[n - 1]), "APPROVED");
      } else {
        assert BatchRows(db, n) == BatchRows(db, n - 1);
      }
      PlusZero(Sum(n - 1, ApprovedBatches(db)));
    }
  }

  /** In every reachable state the dashboard's APPROVED entry over all batches carries exactly the paid money. */
  lemma ApprovedOnDashboardIsPaid(states: seq<Db>, events: seq<PayrollRuns.Event>, k: nat)
    requires PayrollRuns.Run(states, events) && PayrollRuns.Initial(states[0]) && k <= |events|
    ensures var rows := BatchRows(states[k], states[k].nextBatch);
            Dashboard.Summary(Dashboard.WithStatus(rows, "APPROVED")).totals == PaidSum(states[k])
  {
    ApprovedEntry(states[k], states[k].nextBatch);
    PaidEqualsApproved(states, events, k);
  }
}
