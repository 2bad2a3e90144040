# REG Pay in Dafny

A Dafny model of the REG Pay payroll system (a NestJS and Prisma back end with a React front end) and proofs about it. `dafny verify dfyconfig.toml` checks all of it.

Tables are maps keyed by row id, and each service call is one atomic step, except in the session protocol, where each database statement is a step and requests interleave freely. Where the source updates state in place the model is a class whose methods are proved equal to functions of the old state; the lemmas then speak about those functions over all runs.

| file | models |
|---|---|
| `PayrollState.dfy` | the payroll tables and what each payroll call does to them, as functions |
| `PayrollInvariants.dfy` | what every payroll call keeps true |
| `PayrollRuns.dfy` | runs of calls: the invariant in every reachable state, approved batches frozen |
| `PayrollGuarantees.dfy` | paid money equals approved totals, the two-step approval, creation done twice, itemised transactions |
| `PayrollTotals.dfy` | each running total as the sum of its own amount |
| `PayrollCreation.dfy` | who is in a created batch, and with which amounts |
| `PayrollMoves.dfy` | what reviews and approvals change: statuses, payment, where items go |
| `PayrollOverlap.dfy` | which call can put somebody in two active batches of a period |
| `PayrollService.dfy` | the payroll service as a class, with its loops, proved equal to those functions |
| `PayCalculation.dfy` | gross to net for one employee and period |
| `PayTerms.dfy` | every figure of that calculation read off the terms and the attendance |
| `Ledger.dfy` | the six running totals and sums of them |
| `Wrappers.dfy`, `Sets.dfy`, `Sums.dfy` | options, results, a fact about finite sets, sums of reals |
| `Sessions.dfy` | refresh-token rotation under concurrency |
| `Permissions.dfy` | implied permissions and overrides, front end and back end |
| `NamePairs.dfy`, `HireDates.dfy` | the seed's two algorithms |
| `Csv.dfy` | the batch export and a reader written from section 2 of RFC 4180 |
| `Dashboard.dfy`, `DashboardLedger.dfy` | time buckets, trends and distributions, and their link to the payroll tables |
| `SalaryTimeline.dfy` | salary structures over time and payroll's lookup |
| `Departments.dfy` | the deactivation protocol |
| `TimeRecords.dfy` | attendance and its bulk import |

## Assumptions

- A new batch starts at approval step 1; overtime pay is hours times rate; a user's raw permission keys are role keys plus direct keys.
- Money and hours are exact (`real`).
- A fresh refresh token hashes to a value no session has yet.
- A savings contribution is identified by employee and batch, and an employee has at most one active membership.
- Day boundaries and month starts come from a calendar whose month starts strictly increase; hire dates use the Gregorian month lengths.
- Salary structures start and end on whole days.

## Where the code and its own words differ

- The comment at `backend/prisma/seed.ts:236-238` promises distinct names up to the product of the pool sizes. The code reaches only as many as one period of the walk meets, which is lcm(F, L / gcd(7, L)) without repeated names, and for a larger count that passes the guard it never stops: `NamePairs.ReachesCountIff`, `NamePairs.CollectedIsThePeriod`, `NamePairs.FourOfTwoByTwoNeverReached`.
- The daily net rate stored with a MONTHLY calculation does not reproduce the net when there are absences and the daily rate was rounded to cents: `PayCalculation.MonthlyNetFollowsDailyRateIff`, `PayCalculation.RoundedDailyRateDisagrees`.
- `monthly_amount` of a savings membership is not checked to be non-negative; `PayrollGuarantees.CreateBatchItemisedIff` says exactly when that breaks the net formula, `PayrollGuarantees.NegativeSavingBreaksCreation` shows that it does.
- In a trend by month or year the additions can exceed the summary's new employees: `Dashboard.AddedAreNewIff`, `Dashboard.EarlyHireIsAddedButNotNew`.
- More days of presence can lower a net with a positive daily net rate, through a work-day override within the month and through deductions across the 21-day threshold: `PayCalculation.NetIsMonotoneInDays` and `PayCalculation.ThresholdNetRisesIff` say exactly when, `PayCalculation.MoreDaysCanLowerMonthlyNet` and `PayCalculation.ThresholdCanLowerNet` show it.
- Nothing rechecks other batches at a submission: `PayrollOverlap.OverlapArisesIff`, `PayrollOverlap.SecondSubmissionOverlaps`.
- Re-enabling a department cancels pending requests, but in every reachable state there is none to cancel: `Departments.NothingToCancel`.
- The comment at `backend/src/auth/auth.service.ts:474-481` has refresh block suspended accounts. Sessions that a refresh, login or verification has still to insert at that moment outlive the block, and verification starts one even for a blocked account: `Sessions.BlockIsCompleteUnless`, `Sessions.VerificationReopens`.

## Model

| member | source | states |
|---|---|---|
| PayrollRuns.ReachableStatesSatisfyInv | backend/src/payroll/payroll.service.ts:202-411 | In every state of every run, all six running totals of every batch equal the head count and sums over its own items' transactions; each item has its own transaction for the same employee; each transaction belongs to an item; no employee is twice in a batch; a DRAFT batch has only PENDING items, an IN_REVIEW batch none, an APPROVED batch only APPROVED ones; a transaction is PAID exactly when its batch is APPROVED; the step is 1 or 2 |
| PayrollInvariants.FillDraftKeepsInv | backend/src/payroll/payroll.service.ts:202-378 | Creating or redrafting a batch, savings correction included, keeps the whole invariant |
| PayrollInvariants.InsertLinesKeepFilling | backend/src/payroll/payroll.service.ts:261-310 | Rows inserted for distinct employees into an empty draft sum to the calculated lines' own totals and disturb no other batch |
| PayrollInvariants.SplitMovesSums | backend/src/payroll/payroll.service.ts:1008-1083 | The split moves exactly the rejected rows' sums from the old batch to the new one; every other batch's sum stays |
| PayrollInvariants.SplitKeepsInv | backend/src/payroll/payroll.service.ts:1008-1121 | The split keeps the whole invariant and leaves no rejected item in the original batch |
| PayrollInvariants.ApproveItemKeepsInv | backend/src/payroll/payroll.service.ts:716-761 | Approving an item, with the status recalculation, keeps rows, links, totals and status coherence |
| PayrollInvariants.RejectItemKeepsInv | backend/src/payroll/payroll.service.ts:763-851 | Rejecting an item and its transaction, with the status recalculation, keeps rows, links, totals and status coherence |
| PayrollInvariants.RecalculateKeepsCoherence | backend/src/payroll/payroll.service.ts:1771-1790 | A batch under review goes IN_REVIEW only when none of its items is pending |
| PayrollInvariants.ApproveBatchKeepsInv | backend/src/payroll/payroll.service.ts:869-935 | Split plus payment, or split plus the move to the second step, keeps the whole invariant |
| PayrollInvariants.ReturnToDraftKeepsInv | backend/src/payroll/payroll.service.ts:1195-1217 | A batch sent back is a coherent draft with every item pending and the same rows and totals |
| PayrollInvariants.SubmitKeepsInv | backend/src/payroll/payroll.service.ts:561-598 | Submission changes only status and step and keeps the invariant |
| PayrollRuns.ApprovedBatchesNeverChange | backend/src/payroll/payroll.service.ts:1973-1995 | Once a batch is APPROVED, no later call of any kind, in any run, changes its row, its set of items, the items or their transactions |
| PayrollGuarantees.PaidEqualsApproved | backend/src/payroll/payroll.service.ts:876-935 | In every reachable state the count and sums over all PAID transactions equal the running totals of the APPROVED batches added up |
| PayrollGuarantees.PaidIffInApprovedBatch | backend/src/payroll/payroll.service.ts:876-935 | In every reachable state a transaction is PAID if and only if its item sits in an APPROVED batch |
| PayrollGuarantees.ApprovalBranchesAgree | backend/src/payroll/payroll.service.ts:1923-1971 | The permission check's branch and the effect's branch always agree: an approval is the final one if and only if the first step is behind or the location has no initial approver, and then the actor is a SUPER_ADMIN or HR located at a headquarters with active HR and holding a final-approval permission |
| PayrollGuarantees.GuardAllowsIff | backend/src/payroll/payroll.service.ts:1923-1995 | The guard passes if and only if the batch is under review and the actor may finalise it, where the approval to come is the final one, or else initiate it |
| PayrollGuarantees.GuardAnswers | backend/src/payroll/payroll.service.ts:1923-1995 | Each answer of the guard, exactly: no such batch, already approved or rejected, not submitted, an actor who may not finalise where this approval is the last, one who may not initiate where it is not, or none of these |
| PayrollGuarantees.OnlyFinalisersApprove | backend/src/payroll/payroll.service.ts:869-935 | In every run a batch becomes APPROVED only through a batch approval by an actor who may finalise |
| PayrollGuarantees.AtMostTwoApprovalsPerSubmission | backend/src/payroll/payroll.service.ts:869-935 | Between two submissions of a batch at most two batch approvals succeed, in every run |
| PayrollGuarantees.EffectMovesStage | backend/src/payroll/payroll.service.ts:869-935 | The only status and step moves of a batch, by call: submission, review of an item, the two approval moves, the two rejection moves |
| PayrollGuarantees.CreationIsDisjoint | backend/src/payroll/payroll.service.ts:117-148 | A freshly filled batch contains nobody who is in an active batch of the same period |
| PayrollCreation.CreationIsAsAsked | backend/src/payroll/payroll.service.ts:117-378 | A successful creation leaves in the target batch exactly the employees asked for that have a calculation and no item in an active batch of the period, each once, with a pending item and an unpaid transaction of their own calculated amounts, the savings due added to the deductions and taken off the net; the batch's head count is their number, its place and period are the request's, the savings ledger gains exactly the members' entries, and every other batch row stays |
| PayrollCreation.CreationRefusedFor | backend/src/payroll/payroll.service.ts:93-171 | Which error refuses a creation, and that it succeeds if and only if the actor may work at the location and somebody qualifies |
| PayrollCreation.QualifiedAreCounted | backend/src/payroll/payroll.service.ts:152-171 | As many lines are calculated as employees qualify |
| PayrollTotals.ReachableBatchesAddUp | backend/src/payroll/payroll.service.ts:185-200 | In every reachable state each batch's head count is the number of its items and each of the five amounts is the sum of that amount over its items' transactions |
| PayrollMoves.ItemApprovalMarks | backend/src/payroll/payroll.service.ts:716-761 | Approving an item changes that item to APPROVED and nothing else but the status of its batch, which becomes IN_REVIEW if and only if no item of it is pending any more |
| PayrollMoves.ItemRejectionRefuses | backend/src/payroll/payroll.service.ts:763-851 | The same for a rejection, which also rejects the item's own transaction and no other |
| PayrollMoves.ApprovalSplitsOff | backend/src/payroll/payroll.service.ts:1008-1121 | A batch approval moves exactly the rejected items of the batch, all to one new DRAFT at step 1 of the location, month and year they came from, pending again and with their employee and transaction; without a rejected item no batch is made |
| PayrollMoves.ApprovalPaysIff | backend/src/payroll/payroll.service.ts:876-935 | A final approval pays exactly the transactions of the items that stay and approves those items; no other transaction changes, and none does in an approval that is not final |
| PayrollMoves.ItemsStayInPlace | backend/src/payroll/payroll.service.ts:1008-1121 | Over every run an item, for as long as it exists, keeps its employee and transaction and stays in batches of one location, month and year; no item id is used again |
| PayrollRuns.OtherBatchesAreFrozen | backend/src/payroll/payroll.service.ts:202-1217 | No call of any kind changes a batch other than its own: neither its row nor its items nor their transactions |
| PayrollGuarantees.ApprovalKeysHeldIff | backend/src/payroll/payroll.service.ts:1923-1971 | An actor holds an approval permission as the last override of it says, and without one if it is granted, or, for the initial and the final one, if the general one is |
| PayrollGuarantees.RecreatingReproducesTotals | backend/src/payroll/payroll.service.ts:185-378 | Creating again on one's own unchanged draft adds no contribution and reproduces every batch row, totals included |
| PayrollGuarantees.ChargedLineItemisedIff | backend/src/payroll/payroll.service.ts:327-360 | The savings correction keeps net = max(0, gross - deductions) exactly when nothing is charged, the amount is not negative, or deductions did not exceed gross |
| PayrollGuarantees.CreateBatchKeepsItemised | backend/src/payroll/payroll.service.ts:312-378 | With no negative savings amount, every transaction that creation leaves is itemised: gross = base + allowance + overtime, net = max(0, gross - deductions) |
| PayrollGuarantees.CreateBatchItemisedIff | backend/src/payroll/payroll.service.ts:312-378 | Creation leaves every transaction itemised if and only if each member in the batch is charged an amount that is not negative or has a gross that covers the deductions |
| PayrollGuarantees.NegativeSavingBreaksCreation | backend/src/payroll/payroll.service.ts:327-360 | A membership of -10 on an overdrawn employee, for which creation leaves a transaction that is not itemised |
| PayrollOverlap.OverlapArisesIff | backend/src/payroll/payroll.service.ts:575-598 | From tables where nobody is in two active batches of a period, one call leads to the contrary if and only if it is a successful submission of a batch that holds somebody of another active one |
| PayrollOverlap.NoOverlapUntilClash | backend/src/payroll/payroll.service.ts:118-135 | Over every run, nobody is in two active batches of a period exactly as long as no submission clashes |
| PayrollOverlap.SecondSubmissionOverlaps | backend/src/payroll/payroll.service.ts:575-598 | Two drafts of a period that share an employee: both submissions succeed and the employee is in two active batches |
| PayrollGuarantees.ReachableTransactionsAreItemised | backend/src/payroll/payroll.service.ts:202-411 | The same for every transaction of every reachable state, over runs whose memberships are not negative |
| PayrollService.PayrollService.CreateBatch | backend/src/payroll/payroll.service.ts:81-411 | Keeps the invariant. Refused with the tables unchanged and for the stated reason, or succeeds: then the target batch is as in `PayrollCreation.CreationIsAsAsked`, and every other batch keeps its row, items and transactions |
| PayrollService.PayrollService.CollectLines | backend/src/payroll/payroll.service.ts:117-156 | An employee has a line if and only if asked for, calculated and not in an active batch of the period, and each line has its own employee's calculated figures |
| PayrollService.PayrollService.WriteDraft | backend/src/payroll/payroll.service.ts:202-378 | Row, item and transaction writes, then savings, then the corrected totals, give the specified draft |
| PayrollService.PayrollService.ApplyDeductions | backend/src/payroll/payroll.service.ts:325-360 | Updating the transactions found by employee and batch, deduction by deduction, is charging every member's line once |
| PayrollService.TransactionsOfInserted | backend/src/payroll/payroll.service.ts:336-350 | In the filled draft an employee and batch select exactly that employee's one transaction |
| PayrollService.PayrollService.DeductForBatch | backend/src/ikimina/ikimina.service.ts:333-391 | Each member is charged the batch's existing ledger entry or else the monthly amount, which is then entered |
| PayrollService.EnteredIsContributed | backend/src/ikimina/ikimina.service.ts:333-391 | Entering the contributions one by one gives the specified ledger: a missing entry is added, an existing one stays |
| PayrollService.PayrollService.SubmitBatch | backend/src/payroll/payroll.service.ts:561-598 | Keeps the invariant. Succeeds exactly for a DRAFT or REJECTED batch, which is then PENDING at step 1 with the rows and totals it had; no item, transaction, contribution or other batch changes |
| PayrollService.PayrollService.ApproveItem | backend/src/payroll/payroll.service.ts:716-761 | Keeps the invariant. Refused with nothing changed unless the guard passes; otherwise the effect is that of `PayrollMoves.ItemApprovalMarks`, and no money and no row moves |
| PayrollService.PayrollService.RejectItem | backend/src/payroll/payroll.service.ts:763-851 | Keeps the invariant. The same guard; otherwise the effect is that of `PayrollMoves.ItemRejectionRefuses`, and no money and no row moves |
| PayrollService.PayrollService.RecalculateBatchStatus | backend/src/payroll/payroll.service.ts:1771-1790 | The scan of the items finds whether the batch has items and a pending one, and sets the status accordingly |
| PayrollService.PayrollService.HandlePartialRejectionSplit | backend/src/payroll/payroll.service.ts:1008-1083 | Exactly the rejected items move, to one new DRAFT of the location and period they came from, as in `PayrollMoves.ApprovalSplitsOff` |
| PayrollService.PayrollService.CollectRejected | backend/src/payroll/payroll.service.ts:1013-1041 | The rejected items and the sum of their rows |
| PayrollService.PayrollService.ApproveBatch | backend/src/payroll/payroll.service.ts:853-935 | Keeps the invariant. A success is by an actor who may finalise and leaves the batch APPROVED, or, where the approval is not the final one, by one who may initiate and leaves it at the second step; the rejected items are split off and the others paid as in `PayrollMoves.ApprovalSplitsOff` and `PayrollMoves.ApprovalPaysIff` |
| PayrollService.PayrollService.RejectBatch | backend/src/payroll/payroll.service.ts:1138-1217 | Keeps the invariant. No transaction, contribution, other batch or other item changes; for a super admin the batch is REJECTED with its items as they were, otherwise a draft at step 1 with every item pending |
| PayrollService.PayrollService.CheckBatch | backend/src/payroll/payroll.service.ts:1923-1995 | Answers exactly as `PayrollGuarantees.GuardAnswers` says |
| PayTerms.CalculateEmployeePayroll | backend/src/payroll/payroll.service.ts:1395-1714 | All figures over the terms and the attendance: tax is the salary at the sum of all rates, own deductions are each deduction's share, both times paid days over the basis; base, allowances, overtime, gross, absence, net and daily net rate likewise. In every branch net = max(0, gross - deductions), and net is the line of `NetIsLinear` |
| PayTerms.TaxIsSalaryAtAllRates | backend/src/payroll/payroll.service.ts:1590-1599 | The full tax is the salary times the sum of all the policies' rates over 100 |
| PayTerms.OwnIsTotal | backend/src/payroll/payroll.service.ts:1504-1588 | The full own deductions are the sum over all deductions: nothing when a monthly tax goes by the same normalised name, else the full base at the last assigned policy of that name, else at the deduction's own percentage, else its fixed amount |
| PayTerms.FiguresDeductByTerms | backend/src/payroll/payroll.service.ts:1572-1714 | Tax (months only), own deductions (months, and days or contracts past 21 days), absence and the total of the deductions, over the terms |
| PayTerms.FiguresEarnByTerms | backend/src/payroll/payroll.service.ts:1418-1714 | Base pay, allowances, overtime, gross and net, over the terms |
| PayTerms.FiguresRateByTerms | backend/src/payroll/payroll.service.ts:1620-1705 | The daily net rate is a full period's pay, after full tax and deductions, over the work-day basis, and there is none up to 21 days by the day |
| PayTerms.AbsenceRate | backend/src/common/utils/payroll-calc.util.ts:48-55 | The rate of an absent day is the stored daily rate; a month without one takes the salary over the basis, rounded to the nearest cent |
| PayTerms.NormalizeByCharacter | backend/src/payroll/payroll.service.ts:2338-2342 | Names are compared character by character: letters lowered, everything else dropped |
| PayTerms.NormalizeIsIdempotent | backend/src/payroll/payroll.service.ts:2338-2342 | Normalising a name a second time changes nothing |
| PayCalculation.NetIsLinear | backend/src/payroll/payroll.service.ts:1572-1714 | In every branch net pay is a line in the paid days, clamped at zero: by the month the salary less every absent day, plus per paid day the absence rate and the extras spread over the basis; past 21 days the daily rate and the extras per day |
| PayCalculation.LongNetFollowsDailyRate | backend/src/payroll/payroll.service.ts:1649-1705 | DAILY and CUSTOM past 21 days: the itemised net is always max(0, daily net rate x paid days + overtime) |
| PayCalculation.LongBaseIsRateTimesDays | backend/src/payroll/payroll.service.ts:1692-1692 | Past 21 days base pay is the stored daily rate times days worked, whatever base override was given |
| PayCalculation.MonthlyGap | backend/src/payroll/payroll.service.ts:1572-1648 | The exact gap between the two monthly computations: absent days times (salary / work days - absence rate) |
| PayCalculation.MonthlyNetFollowsDailyRateIff | backend/src/payroll/payroll.service.ts:1572-1648 | For MONTHLY the two amounts coincide if and only if nobody was absent or absence rate x work-day basis = salary; a positive net agrees exactly then |
| PayCalculation.RoundedDailyRateDisagrees | backend/src/common/utils/payroll-calc.util.ts:48-55 | A concrete salary whose daily rate, rounded to cents as the system stores it, makes the two computations differ |
| PayCalculation.MorePresenceIsMoreDays | backend/src/payroll/payroll.service.ts:1418-1437 | More present days, within a branch, are at least as many paid days on the same line |
| PayCalculation.NetIsMonotoneInDays | backend/src/payroll/payroll.service.ts:1432-1714 | Within a branch, for all terms: more days pay at least as much if and only if they are no more paid days, or a day's slope is not negative, or nothing was paid in the first place |
| PayCalculation.CoherentNetIsMonotone | backend/src/payroll/payroll.service.ts:1432-1462 | Where the absence rate times the work days is the salary, a daily net rate that is not negative is enough |
| PayCalculation.SlopeIsDailyNetRateIff | backend/src/payroll/payroll.service.ts:1620-1625 | The slope is the stored daily net rate if and only if the absence rate times the work days is the salary |
| PayCalculation.MoreDaysCanLowerMonthlyNet | backend/src/payroll/payroll.service.ts:1418-1456 | A work-day override for which ten days of presence pay 110000 and none 120000, with a daily net rate of 11000 |
| PayCalculation.ThresholdNetRisesIff | backend/src/payroll/payroll.service.ts:1649-1714 | Up to 21 days against more, for all terms: the longer attendance pays at least as much if and only if the shorter pays nothing or the daily rate with the extras per day covers the shorter amount |
| PayCalculation.ThresholdCanLowerNet | backend/src/payroll/payroll.service.ts:1649-1714 | Terms for which 21 days pay 210 and 22 days pay nothing, because past the threshold a deduction comes in |
| PayCalculation.ProratedLinesSumToProratedTotal | backend/src/payroll/payroll.service.ts:1512-1547 | The prorated breakdown lines add up to the prorated total |
| PayCalculation.AdjustKeepsItemisedIff | backend/src/payroll/payroll.service.ts:330-360 | A savings adjustment keeps net = max(0, gross - deductions) if and only if the amount is not negative or gross covers deductions |
| Sessions.WinningClaims | backend/src/auth/auth.service.ts:460-513 | In every interleaving, a refresh claim that succeeds is for an account not suspended or rejected at that moment, and for a session never claimed before |
| Sessions.LoginsStartIff | backend/src/auth/auth.service.ts:219-235 | In every interleaving a login starts a request if and only if the account exists, is not deleted, is neither suspended nor rejected at that moment and, when active, is verified |
| Sessions.NeverMoreThanIssued | backend/src/auth/auth.service.ts:253-272 | In every interleaving, unrevoked sessions plus claimed but not yet reinserted refreshes never exceed the sessions issued by login and verification |
| Sessions.RevocationIsPermanent | backend/src/auth/auth.service.ts:496-509 | No later step of any kind brings a revoked session back or changes its owner or token hash |
| Sessions.ReplayedTokensFail | backend/src/auth/auth.service.ts:496-513 | A refresh with a token that was already rotated out never wins its claim |
| Sessions.BlockingEndsSessions | backend/src/users/users.service.ts:816-837 | Whatever happens after a suspension, rejection or department closure, a reactivation included, a winning claim for that user is of a session inserted after it |
| Sessions.BlockIsCompleteUnless | backend/src/users/users.service.ts:813-837 | After a suspension, rejection or department closure, and without a new login or verification, some refresh of the user still succeeds later if and only if a refresh, login or verification was in flight at the block and the account is not rejected or deleted |
| Sessions.RejectionIsFinal | backend/src/users/users.service.ts:735-756 | After a rejection no refresh of the user ever succeeds, whatever the later steps are |
| Sessions.VerificationReopens | backend/src/auth/auth.service.ts:662-696 | Verification looks at no status: for a blocked account it starts a session that a reactivation makes usable |
| Sessions.UsableSessionCanBeClaimed | backend/src/auth/auth.service.ts:460-513 | Liveness: a refresh with an unrevoked, unexpired session of an unblocked account passes its check and can win its claim |
| Sessions.StepKeepsInv | backend/src/auth/auth.service.ts:454-526 | Every statement of every request keeps the protocol invariant |
| Sessions.FindByHashFinds | backend/src/auth/auth.service.ts:460-468 | The lookup finds a session with the hash exactly when there is one |
| Sessions.AuthTables.RefreshRead | backend/src/auth/auth.service.ts:460-494 | What passes the check is the unexpired session of the token, of an account not blocked |
| Sessions.AuthTables.RefreshClaim | backend/src/auth/auth.service.ts:496-509 | Claims exactly a usable session; a won claim is for an unblocked account and a session never claimed before, and won or lost the session is of no more use |
| Sessions.AuthTables.CreateSession | backend/src/auth/auth.service.ts:511-526 | The new token's lookup finds the new row, which is the only session that becomes usable |
| Sessions.AuthTables.Login | backend/src/auth/auth.service.ts:219-235 | Accepted if and only if the account exists, is not deleted, is neither suspended nor rejected and, when active, is verified; accepted, the request is the user's, and nothing else changes |
| Sessions.AuthTables.VerifyAccount | backend/src/auth/auth.service.ts:662-696 | Accepted exactly for an account that is not deleted and not yet verified, whatever its status; it is verified and a request for a session starts |
| Sessions.AuthTables.ApproveUser | backend/src/users/users.service.ts:476-488 | An account that is not deleted becomes active and unverified, and no login of it is accepted before it is verified |
| Sessions.AuthTables.Logout | backend/src/auth/auth.service.ts:546-553 | Exactly the user's sessions with that token stop being usable |
| Sessions.AuthTables.LogoutAll | backend/src/auth/auth.service.ts:555-561 | Exactly the user's sessions stop being usable |
| Sessions.AuthTables.SuspendUser | backend/src/users/users.service.ts:813-837 | The account is blocked, exactly its sessions stop being usable, and with nothing in flight its access does not return |
| Sessions.AuthTables.RejectUser | backend/src/users/users.service.ts:735-756 | The account is blocked for good: exactly its sessions stop being usable and its access never returns |
| Sessions.AuthTables.ReactivateUser | backend/src/users/users.service.ts:847-857 | The account is no longer blocked and no revoked session comes back to life |
| Sessions.AuthTables.SuspendMembers | backend/src/departments/department.service.ts:509-535 | Exactly the active members are blocked and exactly their sessions stop being usable |
| Permissions.ExpandPermissionKeys | frontend/src/lib/permissions.ts:165-183 | The fixpoint loop terminates with the least set that contains the given keys and is closed under implication |
| Permissions.LeastClosureIsMonotone | frontend/src/lib/permissions.ts:165-183 | That set is unique, grows with the input, and expanding it again changes nothing |
| Permissions.SinglePassSufficesIffTransitive | backend/src/auth/auth.service.ts:796-803 | One pass over a table reaches the least closed set for every input if and only if the table is transitively closed |
| Permissions.ImpliedPermissionsAreTransitive | frontend/src/lib/permissions.ts:140-163 | The system's table is transitively closed |
| Permissions.FrontEndAndBackEndAgree | frontend/src/lib/permissions.ts:165-183 | Front-end fixpoint and back-end single pass give the same keys, the blank key aside |
| Permissions.BuildEffectivePermissions | backend/src/auth/auth.service.ts:790-814 | A key is effective if and only if its last override allows it or, without an override, a role or a direct grant has it or has a key whose table entry lists it |
| Permissions.LastOverrideWins | backend/src/auth/auth.service.ts:805-811 | A key is effective as its last override says, and by its grants when no override names it |
| Permissions.EffectiveIff | backend/src/auth/auth.service.ts:796-811 | A key is effective if and only if its last override allows it or, without an override, it is granted or listed in the entry of a granted key |
| Permissions.EffectiveOfRoles | backend/src/auth/auth.service.ts:790-814 | The same with the grants read off the roles and the direct keys |
| Permissions.SerializeEffectivePermissions | backend/src/users/users.service.ts:1755-1857 | Of the keys that are not blank the map holds exactly the effective ones, labelled by override, direct grant, role or implication, the first that applies |
| Permissions.EffectiveComputationsAgree | backend/src/users/users.service.ts:1755-1857 | Both computations agree on every key that is not blank, and on the blank key exactly when its last override repeats what the expansion says |
| NamePairs.BuildUniqueNamePairs | backend/prisma/seed.ts:239-271 | For any pools: an error exactly when more pairs are asked for than combinations; otherwise exactly count pairs from the pools, no key twice; with no repeated name pair k is first name k with last name 7k, both modulo their pools |
| NamePairs.CollectedIsThePeriod | backend/prisma/seed.ts:254-268 | With no repeated name, every iteration up to the walk's period collects a new pair and none after it does |
| NamePairs.PairsRepeatIff | backend/prisma/seed.ts:255-267 | With no repeated name, two iterations visit the same pair if and only if the period lcm(first names, last names / gcd(7, last names)) divides their distance |
| NamePairs.ReachesCountIff | backend/prisma/seed.ts:254-268 | For any pools, the loop ever holds count pairs if and only if one period of the walk meets that many different keys |
| NamePairs.CollectedIsVisited | backend/prisma/seed.ts:254-268 | The list always holds one pair for each key the walk has met |
| NamePairs.EveryGuardedCountReachedIff | backend/prisma/seed.ts:244-249 | For any pools, every count that passes the guard is reached if and only if the walk meets as many keys as there are combinations |
| NamePairs.FourOfTwoByTwoNeverReached | backend/prisma/seed.ts:236-249 | Two pools of two and count 4: passes the guard, never finishes |
| NamePairs.SeedPoolsSuffice | backend/prisma/seed.ts:1454-1463 | For pools of the seed's own sizes without repeated names, 200 pairs are reached |
| NamePairs.KeysAgreeIff | backend/prisma/seed.ts:257-257 | The joined key tells pairs apart when first names contain no bar |
| HireDates.ShareOut | backend/prisma/seed.ts:351-372 | The quotas sum to the number of employees, each is the floor or the ceiling of its exact share, and every month rounded up ranks before those that are not |
| HireDates.ApportionmentIsUnique | backend/prisma/seed.ts:351-372 | No other list of quotas meets that description |
| HireDates.LeftOver | backend/prisma/seed.ts:357-372 | What the floors leave over is fewer than the months with a fraction, so the remainder loop never wraps |
| HireDates.PlaceRest | backend/prisma/seed.ts:370-372 | In place, one more for each of the first ranks, as many as were left over, without wrapping |
| HireDates.RankingSorts | backend/prisma/seed.ts:363-368 | The ranking lists each month once, larger remainders first and ties by month |
| HireDates.BuildEmployeeHireDates | backend/prisma/seed.ts:345-394 | An error exactly when there is no month and somebody to place; otherwise the dates of an apportionment over the months from the start to today's |
| HireDates.HireDatesAreApportioned | backend/prisma/seed.ts:374-394 | One date for each employee, none after today, each within its month, and per month as many as its quota |
| HireDates.FirstYearOfWeights | backend/prisma/seed.ts:351-356 | The twelve weights of a first year |
| HireDates.HiresShareDayIff | backend/prisma/seed.ts:374-391 | The first hire of a month falls on day 1 + 3 x month number modulo the open days, and two hires of a month share a day if and only if they are a whole number of rounds apart, a round being all the open days, or a fifth of them when five divides them |
| Csv.ReadUndoesPrint | backend/src/payroll/payroll.service.ts:705-707 | Reading the printed table back by section 2 of RFC 4180 gives the same table: always when line breaks separate records, and, where an ending break is allowed for, if and only if the last of several rows is not one empty cell |
| Csv.ReadPrinted | backend/src/payroll/payroll.service.ts:705-707 | What either reading gives for every printed table |
| Csv.PrintIsInjective | backend/src/payroll/payroll.service.ts:705-707 | Different tables never print alike |
| Csv.ReadCellUndoesPrinting | backend/src/payroll/payroll.service.ts:1279-1303 | A printed cell, quoted or not, reads back as its text whatever follows it |
| Csv.ReadQuotedUndoesEscaping | backend/src/payroll/payroll.service.ts:1299-1301 | Doubled quotes read back as the quotes they stand for |
| Csv.BareIff | backend/src/payroll/payroll.service.ts:1299-1302 | A cell is printed as it is if and only if it has no quote, comma or line break |
| Csv.PrintsExample | backend/src/payroll/payroll.service.ts:705-707 | The exact text of a table with a comma, a quote and an empty cell |
| Dashboard.BuildBuckets | backend/src/dashboard/dashboard-analytics.service.ts:554-587 | The loop ends, the buckets tile [aligned from, to] with no gap or overlap, the first starts at the day, month or year of the range's start, and every bucket but the last has the full length of its interval |
| Dashboard.BucketsAreWhole | backend/src/dashboard/dashboard-analytics.service.ts:574-587 | Buckets in a chain of next dates are 24 hours, seven times that, or the rest of their calendar month or year |
| Dashboard.CountsAreCardinal | backend/src/dashboard/dashboard-analytics.service.ts:108-157 | The head count at a date is the number of employees dated up to it, and the active count that of the active ones |
| Dashboard.ExactlyOneBucket | backend/src/dashboard/dashboard-analytics.service.ts:554-572 | Every instant of the range is in exactly one bucket and no other instant is in any |
| Dashboard.HeadcountChains | backend/src/dashboard/dashboard-analytics.service.ts:108-147 | Each head count is the previous one plus its own additions; the last is the summary's total and its active count the summary's |
| Dashboard.AddedAreNewIff | backend/src/dashboard/dashboard-analytics.service.ts:148-157 | The trend's additions add up to the summary's new employees if and only if nobody was hired between the aligned start and the range's start |
| Dashboard.EarlyHireIsAddedButNotNew | backend/src/dashboard/dashboard-analytics.service.ts:148-157 | A bucket, a range and a hire for which the two differ |
| Dashboard.TrendTotal | backend/src/dashboard/dashboard-analytics.service.ts:240-265 | The trend's figures add up to the figure of all batches dated in the tiled range |
| Dashboard.RangeIsByDate | backend/src/dashboard/dashboard-analytics.service.ts:185-240 | The batches of the range are those dated from the start of its first month to the end of its last |
| Dashboard.FigureIsSum | backend/src/dashboard/dashboard-analytics.service.ts:230-265 | The figure of a range counts the batches whose month starts in it and sums each of their six totals |
| Dashboard.SummaryIsSum | backend/src/dashboard/dashboard-analytics.service.ts:303-307 | The summary is the number of batches and the sum of each of the six totals over them |
| Dashboard.PayrollAnalytics | backend/src/dashboard/dashboard-analytics.service.ts:162-322 | The payroll trend and the summary both add up to the figure of all batches dated in the range's months, and the status map has for each status that occurs the sum of its batches |
| Dashboard.StatusDistribution | backend/src/dashboard/dashboard-analytics.service.ts:267-281 | The map updated batch by batch holds, for exactly the statuses that occur, the sums of their batches |
| Dashboard.DistributionAddsUp | backend/src/dashboard/dashboard-analytics.service.ts:267-320 | The status entries, each listed once in any order, add up to the summary |
| DashboardLedger.ApprovedOnDashboardIsPaid | backend/src/dashboard/dashboard-analytics.service.ts:267-281 | In every reachable payroll state the dashboard's APPROVED entry over all batches is exactly the paid money |
| SalaryTimeline.RunsKeepChains | backend/src/payment-structures/payment-structures.service.ts:112-171 | However creations for many employees interleave, each employee's rows form a chain: each ends where the next begins and exactly the last is open |
| SalaryTimeline.AcceptedIff | backend/src/payment-structures/payment-structures.service.ts:119-143 | The overlap test accepts a start exactly when it is after the open row's, or the same while that row is the only one |
| SalaryTimeline.CreateExtendsOne | backend/src/payment-structures/payment-structures.service.ts:157-171 | An accepted creation closes and extends the one employee's rows and leaves all others alone |
| SalaryTimeline.OneInForce | backend/src/payment-structures/payment-structures.service.ts:157-171 | On each day from the first start on exactly one structure is in force, before it none |
| SalaryTimeline.PayrollPicksInForceIff | backend/src/payroll/payroll.service.ts:1362-1369 | After any run, every row payroll's lookup may return is the one in force at the period's end, exactly unless the first two rows start together within the period and the second is in force |
| SalaryTimeline.LookupFindsSomeIff | backend/src/payroll/payroll.service.ts:1362-1371 | The lookup finds nothing if and only if the period ends before the first structure |
| SalaryTimeline.PaymentStructures.Create | backend/src/payment-structures/payment-structures.service.ts:112-171 | Keeps every employee's chain; accepted if and only if no row of the employee's forbids the start, and then that employee's open rows end at the start, one open row is added, and it is the only one in force from then on; refused, nothing changes |
| Departments.RunsKeepInv | backend/src/departments/department.service.ts:280-325 | Every run keeps at most one PENDING request for a department and only on an ACTIVE one; pending requests have employees left, completed ones none, no request is ever CANCELLED, and no two active departments of a location share a name |
| Departments.ArchivedOnlyEmptyOrSuspended | backend/src/departments/department.service.ts:624-706 | A department becomes archived only when nobody is assigned to it, or by suspending every active one who is; no request for it stays pending |
| Departments.SettledIsFinal | backend/src/departments/department.service.ts:769-803 | A settled request never changes again |
| Departments.NothingToCancel | backend/src/departments/department.service.ts:427-437 | The cancellation in re-enabling never finds a request |
| Departments.DepartmentService.DeleteDepartment | backend/src/departments/department.service.ts:280-325 | Keeps the invariant and every other department and request. Refused exactly when there is no such department or the actor may not manage it; otherwise it is archived with nothing pending, or active with one pending request that counts everyone assigned |
| Departments.DepartmentService.RequestDeactivation | backend/src/departments/department.service.ts:676-710 | Keeps the invariant; the pending request gets the new remaining count, or the only new request is opened with it; every other request stays |
| Departments.DepartmentService.ArchiveNow | backend/src/departments/department.service.ts:769-803 | Keeps the invariant; only the department's active flag and its pending requests change, which are completed with nothing remaining |
| Departments.DepartmentService.ArchivePendingDepartmentIfEmpty | backend/src/departments/department.service.ts:624-679 | Keeps the invariant; archives the department if and only if a request is pending and nobody is assigned |
| Departments.DepartmentService.CloseBySuspension | backend/src/departments/department.service.ts:476-551 | Keeps the invariant; succeeds exactly for a manager of an active department with a pending request, and suspends exactly the active employees still assigned and archives the department |
| Departments.DepartmentService.EnableAtLocation | backend/src/departments/department.service.ts:334-440 | Keeps the invariant and touches no request; refused exactly without access to all branches or when another active department of the location has the name; otherwise the row found or a new one is active under the name, and no other row changes |
| TimeRecords.ImportedIff | backend/src/time-records/time-records.service.ts:97-315 | All or nothing: the import succeeds if and only if there are rows, the range is proper and every row has a digits-only id of an employee in scope whom the actor may manage, is PRESENT, or ABSENT without overtime, and falls on a day in the range; without a given range no date is out of range |
| TimeRecords.LastRowWins | backend/src/time-records/time-records.service.ts:317-354 | After an import the last row for an employee and day decides the record: absent if and only if the row says ABSENT, then with overtime 0, and present with the row's hours or 0; an old record keeps its other fields, a new one takes the employee's, and every other key is untouched |
| TimeRecords.ImportStoresLastRows | backend/src/time-records/time-records.service.ts:317-354 | Every accepted import stores the last row of each employee and day and nothing else |
| TimeRecords.FirstProblemIff | backend/src/time-records/time-records.service.ts:191-246 | A row whose employee cannot be used reports one problem, the first of: no id, no number, unknown, other location, other department |
| TimeRecords.LaterProblemsIff | backend/src/time-records/time-records.service.ts:246-306 | For a usable employee each of the other problems is reported if and only if its own condition holds, independently of the rest |
| TimeRecords.ErrorsNameRows | backend/src/time-records/time-records.service.ts:191-315 | The report has exactly the problems of each row, by the row's number |
| TimeRecords.AbsencesHaveNoOvertime | backend/src/time-records/time-records.service.ts:367-388 | Every run of imports, creations, updates and approvals keeps ABSENT records at zero overtime |
| TimeRecords.NoProblemsIff | backend/src/time-records/time-records.service.ts:191-306 | The chain of row checks reports nothing exactly for a good row |
| TimeRecords.TimeRecordService.BulkImport | backend/src/time-records/time-records.service.ts:97-365 | The store after an accepted import is as in `TimeRecords.LastRowWins` for every key; otherwise it is unchanged and the errors name each row's problems; absences keep no overtime either way |
| TimeRecords.TimeRecordService.CreateRecord | backend/src/time-records/time-records.service.ts:31-72 | Refused exactly for an unknown employee, one out of the actor's reach, or a day that has a record; otherwise a present day keeps its hours and an absence has none, location and department are the employee's; every other record stays |
| TimeRecords.TimeRecordService.UpdateRecord | backend/src/time-records/time-records.service.ts:367-391 | Refused exactly without a record or out of the actor's reach; an unnamed status or overtime is kept, an absence has no overtime; the record's other fields and every other record stay |
| TimeRecords.TimeRecordService.ApproveRecord | backend/src/time-records/time-records.service.ts:413-431 | Refused exactly without a record or out of the actor's reach; otherwise the record's approver changes and nothing else |

## Left out

- NamePairs.BuildUniqueNamePairs: counts that pass the guard but that the walk never reaches are not admitted, because the loop has no end for them (`NamePairs.ReachesCountIff`).
- PayrollService.PayrollService.CreateBatch: which matching draft the lookup returns, the employees found and their pay calculations are inputs, and so is the set of active memberships; phone numbers, description, attachments and dates of a batch are not kept.
- PayrollGuarantees.CreationIsDisjoint: holds when the batch is created; `PayrollOverlap.NoOverlapUntilClash` says what holds over runs.
- PayrollGuarantees.RecreatingReproducesTotals: row ids differ, and the draft must be the one just filled.
- PayTerms.CalculateEmployeePayroll: attendance, allowances, deductions and tax policies in force are inputs; the metadata breakdown is not kept; deduction names are compared by their letters a to z, without Unicode folding.
- PayCalculation.NetIsMonotoneInDays: within one branch and with the same overtime; `PayCalculation.ThresholdNetRisesIff` covers the threshold.
- Sessions.NeverMoreThanIssued: access tokens are not modelled, only sessions; each database statement is atomic, and the read of a session and its user is one statement.
- Sessions.AuthTables.RefreshRead: password checks, verification codes and token signing are inputs or left out; the payload lookup between claim and insert is not a step.
- Departments.DepartmentService.EnableAtLocation: which archived row the lookup by code or name finds is an input, and names are kept in normalised form; creating and renaming departments are left out.
- Departments.ArchivedOnlyEmptyOrSuspended: employees may still be moved into a department with a pending request, since finalising a transfer does not recheck.
- SalaryTimeline.RunsKeepChains: creation only; `update` can set any end date and break the chain. The amounts of a structure are not kept.
- Dashboard.PayrollAnalytics: keys and labels of buckets, the choice of interval from the length of the range, the order of the distribution and the count of pending batches are left out.
- HireDates.BuildEmployeeHireDates: remainders are exact; the source compares floating-point ones.
- Csv.Print: values are given as text; turning numbers and objects into text is left out.
- TimeRecords.TimeRecordService.BulkImport: dates that do not parse in the given range, and looking up the scope by name, are left out.
- Serialisers, audit rows, notifications, mail, caches, uploads, query scoping, controllers and the React components.
- Races inside payroll, department and attendance calls: each call is atomic there.
- Rounding of decimal columns and floating point, except the daily rate rounded to cents.
- The batch statuses that no call ever sets (REJECTED_BY_BRANCH_MANAGER and REJECTED_BY_SUPER_ADMIN).
