# Verification of Kora OS

Kora OS is a multi-tenant back end for salons. This project models the parts where money,
time and access depend on exact arithmetic or on the order of concurrent steps, and proves
what those parts promise, for every input, run and interleaving.

| files | what they model |
|---|---|
| `money`, `rounding`, `apportionment` | bounded sums, half-up rounding, largest-remainder apportionment of an adjustment |
| `commission`, `accruals` | earning commission and reversing it in capped pieces |
| `settlement`, `settlement_runs`, `settlement_progress`, `settlement_history` | a checkout, its payments, disputes and posting, under every interleaving |
| `posting` | what the last confirmation needs: stock, commission and receipt in one transaction |
| `corrections`, `corrections_runs`, `corrections_history` | refunds and reversals of an immutable sale |
| `cash`, `payment_desk` | a cash drawer, and payments recorded under idempotency keys into checkouts and drawers |
| `stock` | a branch's stock and its movement ledger |
| `refund_desk` | corrections with the drawers that pay them and the stock they return |
| `local_time`, `intervals`, `eligibility`, `availability` | the schedule algebra and the slot generator |
| `booking`, `booking_runs`, `booking_history` | booking, moving and ending appointments, and what a slot on offer is worth |
| `tokens`, `tokens_runs` | refresh-token families |
| `receipts` | receipt numbers and their series |
| `reports`, `staff_reports`, `paging` | totals by currency and staff, and cursor paging |
| `arithmetic`, `sorting`, `strings`, `options` | shared definitions |

## How to read it

A service that updates stored rows is a class whose methods say, through `State()`, exactly
which rows they leave; each is tied to a function on values, and the `*_runs` files prove
invariants of that function over sequences of events. The `*_history` files say what the rows
mean: after every run they are those of a plain log of the requests that were carried out,
with the exact condition for each to be. A request that reads first and writes
later is split there: other requests act in between (the `others` parameters, or separate
read and commit events). A row lock, a version check, a unique index and the exclusion
constraint are guards of the step that meets them. Integers are unbounded, so a column's
range is written out where it can refuse a write.

Values from outside the model are parameters: the current time, whether an access, policy or
eligibility check passes (`envOk`, `postingOk`, `staffOk`), whether a transaction
commits (`commits`), and what other requests do. `Posting` says when `postingOk` is true. A
schedule is that of one local day at a fixed offset from UTC. SHA-256 fingerprints and token
hashes are taken to be injective.

## What the proofs found

- The apportionment is exact for every positive gross. With zero gross and a non-zero
  adjustment it returns the gross unchanged (`Apportionment.NetsSumExactly`).
- Accrual spreads the whole transaction adjustment over the SERVICE lines, so service nets
  add up to the posted total only without product gross (`Accruals.ServiceNetsMeetTransactionTotal`).
- The commission columns take no negative basis, so a checkout whose discount exceeds the
  gross of its net-basis services can be paid for and never settles
  (`Accruals.DiscountBeyondServicesNeverPosts`, `Posting.BeyondServicesNeverSettles`).
- A sale with a free line can never be reversed, since a correction item of 0 is refused
  (`CorrectionsRuns.ReversalRequestedIff`).
- A reversal pays back the prices of the lines; of a discounted sale that is more than was
  paid (`RefundDesk.ReversalMeetsTotalIff`).
- A checkout discounted to zero stays OPEN, takes no payment and never settles
  (`SettlementRuns.SettlementSafety`).
- `execute` locks the correction row before the sale row
  (`apps/api/src/modules/corrections/transaction-correction-execution.service.ts:143-157`); the
  comment at lines 61-70 says the opposite order. The model follows the code.
- The comment at `apps/api/src/modules/availability/availability-engine.service.ts:66-74` says
  booking revalidates a slot. It rechecks lead time, horizon and overlap, not opening hours
  (`BookingRuns.ClosedDayIsBooked`), and a buffer over midnight can be offered and refused
  (`BookingRuns.HonouredIffInsideDay`, `BookingRuns.OfferedAcrossMidnight`).
- The key's unique index is described as the net for a concurrent duplicate booking
  (`apps/api/src/modules/appointments/appointment-booking.service.ts:291-294`). The exclusion
  constraint is met first, so that net holds only when another candidate is free
  (`BookingRuns.RacingDuplicate`). A concurrent duplicate payment likewise meets the balance
  check first (`PaymentDesk.RacingPayment`). Neither is ever carried out twice.
- A refresh prints the new token's expiry as the session's; the stored expiry never moves
  (`TokensRuns.PrintedExpiryOverstated`).
- Nothing stops a drawer's ledger from going below zero, and such a drawer cannot be closed
  (`Cash.ClosesIff`; the constraint is in
  `apps/api/prisma/migrations/20260904220000_add_branch_cash_controls/migration.sql:255`).
- The staff report drops refunded and reversed accruals of staff without a line or earned
  commission (`StaffReports.CommissionConservedIff`). Committed data never has any: each such
  accrual is written beside a line of its staff member (`StaffReports.CommittedReportConserves`).
  Lines and accruals are read by two parallel queries
  (`apps/api/src/modules/reports/reports.service.ts:445-478`), so only a commit between them
  can separate the two.
- An empty cursor reads as no cursor, which would make paging endless (`Paging.PagingIsComplete`).
  No present caller has an empty key: keys are UUIDs or enum names
  (`apps/api/src/modules/reports/reports.service.ts:491-760`).

## Model

| member | source | states |
|---|---|---|
| `Money.SumMinorAmounts` | apps/api/src/common/money/assert-safe-money-amount.util.ts:52-61 | the running total is refused as soon as it passes the column ceiling, which for non-negative amounts means: refused exactly when the whole sum overflows, otherwise the sum |
| `Rounding.FloorDivIsFloor` | apps/api/src/modules/commissions/commission-adjustment-allocation.util.ts:84-88 | truncating division corrected by the sign of the remainder is mathematical floor division for both signs |
| `Rounding.RoundHalfUpIsNearest` | apps/api/src/modules/commissions/commission-calculation.util.ts:13-21 | the result is the one integer within half a unit of the quotient, ties going up, and never negative |
| `Rounding.RoundHalfUpExact` | apps/api/src/modules/commissions/commission-calculation.util.ts:13-21 | an exact quotient is returned unchanged |
| `Rounding.RoundHalfUpMonotone` | apps/api/src/modules/commissions/commission-calculation.util.ts:13-21 | a larger numerator never rounds to less |
| `Apportionment.AllocateAdjustmentsAcrossLines` | apps/api/src/modules/commissions/commission-adjustment-allocation.util.ts:23-78 | for distinct line ids and non-negative gross, the map holds exactly the lines, each with gross plus floored share plus one unit for a top-remainder winner set of the size left over |
| `Apportionment.AllocateProportionally` | apps/api/src/modules/commissions/commission-adjustment-allocation.util.ts:39-77 | the positive-gross part: floors, ranking by remainder then display order, one extra unit for each of the first ranks |
| `Apportionment.RemainingUnitsInRange` | apps/api/src/modules/commissions/commission-adjustment-allocation.util.ts:50-55 | the units left after flooring are at least 0 and fewer than the lines, for either sign of the adjustment |
| `Apportionment.NetsSumExactly` | apps/api/src/modules/commissions/commission-adjustment-allocation.util.ts:31-77 | the nets sum to gross plus adjustment if and only if the gross is positive or the adjustment zero |
| `Apportionment.WinnersHaveRemainder` | apps/api/src/modules/commissions/commission-adjustment-allocation.util.ts:57-71 | a line with zero remainder never receives an extra unit |
| `Apportionment.ShareWithinQuota` | apps/api/src/modules/commissions/commission-adjustment-allocation.util.ts:42-77 | every share is within one unit of gross times adjustment over total, and exact where that is whole |
| `Apportionment.NetsNonNegativeIff` | apps/api/src/modules/commissions/commission-adjustment-allocation.util.ts:42-77 | every net is non-negative if and only if the discount does not exceed the gross of the lines passed |
| `Apportionment.NetsMonotone` | apps/api/src/modules/commissions/commission-adjustment-allocation.util.ts:42-77 | a strictly larger gross never ends with a smaller net |
| `Apportionment.OrderIndependent` | apps/api/src/modules/commissions/commission-adjustment-allocation.util.ts:57-71 | with distinct display orders the result does not depend on the order of the array |
| `Apportionment.EarlierDisplayedFirst` | apps/api/src/modules/commissions/commission-adjustment-allocation.util.ts:57-62 | of two lines of equal gross the one displayed earlier never nets less, and at most one unit more |
| `Apportionment.RankDecides` | apps/api/src/modules/commissions/commission-adjustment-allocation.util.ts:42-71 | with distinct display orders a line nets its gross, its share rounded down, and one left-over unit exactly when fewer lines are ahead of it (larger remainder of the division, or equal and displayed earlier) than there are units |
| `Apportionment.TieGoesToFirst` | apps/api/src/modules/commissions/commission-adjustment-allocation.util.ts:57-71 | two lines of 50 and an adjustment of -1 net 50 and 49, the first displayed keeping its price |
| `Commission.AdjustmentCapped` | apps/api/src/modules/commissions/commission-adjustment.service.ts:63-90 | a correction takes a non-negative amount and never more than what is left of the accrual |
| `Commission.CumulativeWithinOriginal` | apps/api/src/modules/commissions/commission-adjustment.service.ts:59-90 | over any sequence of corrections the amount reversed stays between 0 and the amount earned |
| `Commission.FullCorrectionReversesAll` | apps/api/src/modules/commissions/commission-adjustment.service.ts:63-90 | one correction of the whole line reverses exactly what was earned, for every rule type |
| `Commission.CumulativeIsCappedSum` | apps/api/src/modules/commissions/commission-adjustment.service.ts:59-90 | the running cap equals capping the sum of the uncapped amounts once at the end |
| `Commission.PercentageResidue` | apps/api/src/modules/commissions/commission-adjustment-calculation.util.ts:15-26 | a PERCENTAGE line refunded in full by k corrections keeps at most k units, and a sharper bound in the rate, through both roundings and the cap |
| `Commission.FixedClosedByFullRequest` | apps/api/src/modules/commissions/commission-adjustment-calculation.util.ts:42-56 | once one correction covers the whole line of a FIXED accrual nothing is left |
| `Commission.FixedResidue` | apps/api/src/modules/commissions/commission-adjustment-calculation.util.ts:42-56 | a FIXED line refunded in full by k corrections keeps less than k/2 units |
| `Commission.FixedResidueIsTight` | apps/api/src/modules/commissions/commission-adjustment-calculation.util.ts:42-56 | three thirds of a line of 3 leave 1 unit of a FIXED commission of 1: the residue really occurs |
| `Commission.EarnedAmount` | apps/api/src/modules/commissions/commission-calculation.util.ts:41-56 | a stored row carries the rule and basis it was given and the amount the rule gives: the nearest unit of the rate's share, the fixed amount, or nothing |
| `Commission.PercentageCorrectionIs` | apps/api/src/modules/commissions/commission-adjustment-calculation.util.ts:15-26 | a PERCENTAGE correction takes the nearest unit of the rate on the nearest unit of the prorated basis, capped by what is left |
| `Commission.FixedCorrectionIs` | apps/api/src/modules/commissions/commission-adjustment-calculation.util.ts:42-56 | a FIXED correction takes the nearest unit of the prorated amount, capped by what is left; all that is left for the whole line |
| `Commission.OneCorrectionWithinShare` | apps/api/src/modules/commissions/commission-adjustment-calculation.util.ts:15-26 | one PERCENTAGE correction is within (1 + rate) / 2 units of the exact share of what it refunds, from above always and from below unless it takes all that is left |
| `Commission.PercentageWithinShare` | apps/api/src/modules/commissions/commission-adjustment.service.ts:59-90 | after k corrections the amount taken is within k (1 + rate) / 2 units of the exact share of everything refunded, again from both sides |
| `Commission.FixedWithinShare` | apps/api/src/modules/commissions/commission-adjustment.service.ts:59-90 | the same for FIXED lines refunded in k partial pieces, within k / 2 units |
| `Commission.QuarterRefund` | apps/api/src/modules/commissions/commission-adjustment-calculation.util.ts:15-26 | a quarter of a line of 10000 earning 1000 at 10% is refunded: exactly 250 is reversed |
| `Commission.StoredIff` | apps/api/prisma/migrations/20260904180000_add_commission_and_receipt_models/migration.sql:320-321 | for a valid rule a row is stored if and only if its basis is not negative: the column's range is the only refusal |
| `Accruals.CommissionLedger.constructor` | apps/api/src/modules/commissions/commission-accrual.service.ts:50-60 | a sale starts without accruals or adjustments |
| `Accruals.CommissionLedger.AccrueForTransaction` | apps/api/src/modules/commissions/commission-accrual.service.ts:50-160 | writes a row for each SERVICE line that has none, on its policy basis, and leaves existing rows alone; refused exactly when one such row cannot be calculated or its basis is below what the column takes |
| `Accruals.CommissionLedger.AdjustForCorrection` | apps/api/src/modules/commissions/commission-adjustment.service.ts:35-113 | appends for each corrected line with an earned row the amount that the rule, the cap and the prior rows give |
| `Accruals.SumPrior` | apps/api/src/modules/commissions/commission-adjustment.service.ts:59-63 | the already-adjusted amount is the sum of the prior rows of that accrual |
| `Accruals.DiscountWithinServicesAccrues` | apps/api/src/modules/commissions/commission-accrual.service.ts:85-130 | when the discount is within the gross of the service lines every line accrues under any policies, and every row is one a later correction can prorate |
| `Accruals.RepairCompletesTheSame` | apps/api/src/modules/commissions/commission-accrual.service.ts:50-110 | repairing a partly accrued sale gives every line the row of one complete run, whatever order the lines were read in |
| `Accruals.SecondAccrualIsNoOp` | apps/api/src/modules/commissions/commission-accrual.service.ts:50-84 | a second call over a fully accrued sale changes nothing |
| `Accruals.ServiceNetsMeetTransactionTotal` | apps/api/src/modules/commissions/commission-accrual.service.ts:56-97 | the service nets add up to the posted total if and only if the sale has no product gross (with no service gross: if the total is zero), because the whole adjustment is spread over service lines only |
| `Accruals.AccruesIff` | apps/api/src/modules/commissions/commission-accrual.service.ts:85-157 | accrual succeeds if and only if no line still without a row, on the net basis, has a negative net |
| `Accruals.RowsSayWhatWasEarned` | apps/api/src/modules/commissions/commission-accrual.service.ts:111-157 | each row that was missing carries its policy's rule, the price or the net as its basis, and the amount that rule gives on it |
| `Accruals.ServicesNetInOrder` | apps/api/src/modules/commissions/commission-accrual.service.ts:85-104 | of two services of one price the one displayed first never nets less, nor a dearer one less than a cheaper one while the discount is within the services |
| `Accruals.NetBasisSaleAccruesIff` | apps/api/src/modules/commissions/commission-accrual.service.ts:85-157 | a fresh sale wholly on the net basis accrues if and only if its service gross is 0 or the discount is within it |
| `Accruals.DiscountBeyondServicesNeverPosts` | apps/api/src/modules/commissions/commission-accrual.service.ts:85-157 | services of 100, products of 900 and a discount of 500 leave a net of -400, which no rule on the net basis can accrue |
| `Accruals.StoredRowsAreEarned` | apps/api/src/modules/commissions/commission-accrual.service.ts:120-157 | every row that is stored is one a later correction can prorate |
| `Accruals.StoredRowsAreCorrectable` | apps/api/src/modules/commissions/commission-adjustment.service.ts:44-113 | no correction of a sale's stored rows is ever refused |
| `Accruals.CorrectionKeepsConsistent` | apps/api/src/modules/commissions/commission-adjustment.service.ts:44-113 | correcting keeps every line's rows equal to the cumulative reversal of its corrected amounts, and is never refused on such a ledger |
| `Settlement.CheckoutStore.constructor` | apps/api/src/modules/checkouts/checkouts.service.ts:170-200 | a new checkout is OPEN, unadjusted, unpaid, at version 1 |
| `Settlement.CheckoutStore.ConfirmedSum` | apps/api/src/modules/transactions/transaction-posting.service.ts:76-82 | the sum of the confirmed payments |
| `Settlement.CheckoutStore.Allocate` | apps/api/src/modules/transactions/transaction-posting.service.ts:151-157 | one allocation for each confirmed payment, in order, of its amount |
| `Settlement.CheckoutStore.PostTransaction` | apps/api/src/modules/transactions/transaction-posting.service.ts:61-231 | posts one transaction and settles, or refuses on a balance that does not match, a missing operator or an existing transaction |
| `Settlement.CheckoutStore.RecalculateStatus` | apps/api/src/modules/payments/checkout-settlement.service.ts:50-87 | the stored status becomes the derived one, settling when ready; a terminal checkout is left alone |
| `Settlement.CheckoutStore.RecordPayment` | apps/api/src/modules/payments/payments.service.ts:117-243 | appends a RECORDED payment and recalculates, or refuses on amount, state, balance or missing operator with every row unchanged |
| `Settlement.CheckoutStore.TransitionRecorded` | apps/api/src/modules/payments/payment-verifications.service.ts:105-276 | confirms, disputes or voids a RECORDED payment and recalculates; anything else is refused with every row unchanged |
| `Settlement.CheckoutStore.ResolveDispute` | apps/api/src/modules/payments/payment-disputes.service.ts:75-196 | closes an open dispute and confirms or voids its payment, then recalculates |
| `Settlement.CheckoutStore.AddAdjustment` | apps/api/src/modules/checkouts/checkouts.service.ts:319-387 | commits totals computed from an earlier read only if the stored version is still the one read |
| `Settlement.CheckoutStore.VoidCheckout` | apps/api/src/modules/checkouts/checkouts.service.ts:410-449 | voids under the same version check |
| `SettlementRuns.AdjustmentNeedsNoPayment` | apps/api/src/modules/checkouts/checkouts.service.ts:325-387 | with the read, the payment count and the commit as separate steps, an adjustment that commits finds the checkout as read, OPEN and without a payment |
| `SettlementRuns.RunKeepsInv` | apps/api/src/modules/payments/checkout-settlement.service.ts:50-87 | the balance, status, terminal, dispute and stale-request invariants hold in every reachable state of every interleaving |
| `SettlementRuns.SettlementSafety` | apps/api/src/modules/payments/checkout-settlement.service.ts:39-87 | active payments never exceed the total; an unfinished checkout with a positive total has the derived status; SETTLED if and only if posted, then paid exactly by confirmed payments and posted once for the total; a total of zero is never paid or settled |
| `SettlementProgress.PaidInFullSettles` | apps/api/src/modules/payments/checkout-settlement.service.ts:50-87 | any payments that add up to the total, recorded and then confirmed one by one, settle the checkout with the last confirmation and not before |
| `SettlementRuns.TotalFrozenOncePaid` | apps/api/src/modules/checkouts/checkouts.service.ts:333-387 | from the first payment on the total never changes |
| `SettlementRuns.SettledForever` | apps/api/src/modules/payments/checkout-settlement.service.ts:56-60 | no later event changes any row of a SETTLED checkout |
| `SettlementRuns.VoidedNeverPosts` | apps/api/src/modules/checkouts/checkouts.service.ts:410-449 | a VOIDED checkout keeps its row and never gains a transaction |
| `SettlementRuns.DefensiveRefusalsUnreachable` | apps/api/src/modules/payments/payment-disputes.service.ts:97-130 | in reachable states an open dispute always has a disputed payment, a recorded one never has a dispute, and the active sum fits its column |
| `SettlementHistory.AdjustmentIsSumOfDeltas` | apps/api/src/modules/checkouts/checkouts.service.ts:346-387 | over any interleaving the adjustment is the sum of the deltas that committed, and the total has moved by exactly that |
| `SettlementHistory.AdjustmentCommitsIff` | apps/api/src/modules/checkouts/checkouts.service.ts:325-387 | an adjustment commits if and only if the checkout is as it was read, the delta is non-zero and bounded, and the total stays in its column |
| `SettlementHistory.PaymentsAreHistory` | apps/api/src/modules/payments/checkout-settlement.service.ts:50-87 | payments and disputes refine a plain log of the requests carried out: each at its recorded amount and at what was last decided about it |
| `SettlementHistory.RecordTakesIff` | apps/api/src/modules/payments/payments.service.ts:120-188 | in a reachable state a payment is recorded if and only if it is a bounded amount the running checkout has room for and the operator is known |
| `SettlementHistory.ConfirmTakesIff` | apps/api/src/modules/payments/payment-verifications.service.ts:105-276 | a confirmation is carried out if and only if the payment awaits it and, when it is the last one outstanding, the posting goes through |
| `SettlementHistory.DisputeAndVoidTakeIff` | apps/api/src/modules/payments/payment-verifications.service.ts:105-276 | disputing or voiding a payment that awaits confirmation is never refused |
| `SettlementHistory.ResolveTakesIff` | apps/api/src/modules/payments/payment-disputes.service.ts:75-196 | a dispute is resolved if and only if it stands; only confirming the last payment outstanding needs the posting |
| `SettlementHistory.GuardsOnAnyRows` | apps/api/src/modules/transactions/transaction-posting.service.ts:61-110 | on any rows a sale is posted only for its confirmed total, with an operator and once, and a payment is disputed only once |
| `SettlementHistory.StatusMeansPayments` | apps/api/src/modules/payments/checkout-settlement.service.ts:39-87 | DISPUTED exactly while a payment is disputed, AWAITING_VERIFICATION exactly while none is and one is unconfirmed, OPEN only below the total |
| `SettlementHistory.VoidedIffVoidTook` | apps/api/src/modules/checkouts/checkouts.service.ts:410-449 | a checkout is VOIDED if and only if a void of it was carried out |
| `SettlementHistory.VoidTakesIff` | apps/api/src/modules/checkouts/checkouts.service.ts:410-449 | a void commits if and only if the checkout is as it was read running |
| `SettlementHistory.VersionCountsChanges` | apps/api/src/modules/payments/checkout-settlement.service.ts:69-84 | the checkout's version counts the changes of its row |
| `SettlementHistory.AllocationsAreConfirmed` | apps/api/src/modules/transactions/transaction-posting.service.ts:151-157 | the allocations are exactly the confirmed payments, in order, each in full |
| `SettlementHistory.SettledSaleIsWhatWasPaid` | apps/api/src/modules/transactions/transaction-posting.service.ts:61-231 | in every run a settled checkout was posted once, at its subtotal plus the committed deltas, against exactly its confirmed payments |
| `Posting.PostsIff` | apps/api/src/modules/transactions/transaction-posting.service.ts:61-231 | stock, commission and receipt all go through if and only if every product is active and held in full and no net-basis service line nets below zero |
| `Posting.LastConfirmationSettlesIff` | apps/api/src/modules/transactions/transaction-posting.service.ts:61-231 | the confirmation that completes the balance settles if and only if the checkout has an operator, its products are there and its net-basis services carry the discount; receipt numbering never blocks it |
| `Posting.BeyondServicesNeverSettles` | apps/api/src/modules/transactions/transaction-posting.service.ts:61-231 | a checkout whose services are all on the net basis and whose discount exceeds their gross is refused its last confirmation whatever stock it has |
| `Posting.ServicesAreServiceLines` | apps/api/src/modules/commissions/commission-accrual.service.ts:56-60 | only SERVICE lines are accrued, each at its own price and place |
| `Posting.PostingTakesStock` | apps/api/src/modules/transactions/transaction-posting.service.ts:176-194 | a posting lowers each tracked variant by exactly the products sold of it |
| `Corrections.AddItems` | apps/api/src/modules/corrections/transaction-correction-execution.service.ts:197-203 | adds each item to its line's running amount |
| `Corrections.AccumulateExecuted` | apps/api/src/modules/corrections/transaction-correction-execution.service.ts:195-204 | the accumulator holds, for every line, the amount of all executed corrections |
| `Corrections.CheckItems` | apps/api/src/modules/corrections/transaction-correction-execution.service.ts:206-249 | accepts exactly the items within the line cap whose stocked lines are corrected in full |
| `Corrections.RestoreStock` | apps/api/src/modules/corrections/transaction-correction-execution.service.ts:315-338 | restores the sold quantity of each stocked and tracked line, in item order |
| `Corrections.RemainingRefundable` | apps/api/src/modules/corrections/transaction-correction-execution.service.ts:365-383 | the printed remaining amount, clamped line by line at zero |
| `Corrections.SaleCorrections.Request` | apps/api/src/modules/corrections/transaction-corrections.service.ts:57-270 | a refund request is checked against its lines; a reversal request takes every line in full and is refused if a line was free |
| `Corrections.SaleCorrections.DecideCorrection` | apps/api/src/modules/corrections/transaction-corrections.service.ts:318-491 | approve, reject and cancel commit only on the status and version read |
| `Corrections.SaleCorrections.ExecuteCorrection` | apps/api/src/modules/corrections/transaction-correction-execution.service.ts:142-445 | executes an approved correction with all of its writes or refuses with none |
| `CorrectionsRuns.ReversalRequestedIff` | apps/api/src/modules/corrections/transaction-corrections.service.ts:167-225 | a reversal can be requested if and only if nothing executed was seen and every line has a positive price: the item column takes no amount of 0 |
| `CorrectionsRuns.ReversalExcludes` | apps/api/src/modules/corrections/transaction-correction-execution.service.ts:183-226 | nothing executes after a reversal, and a reversal executes only first |
| `CorrectionsRuns.StockedOnlyOnce` | apps/api/src/modules/corrections/transaction-correction-execution.service.ts:238-248 | a stocked line given back once is never corrected again |
| `CorrectionsRuns.RunKeepsInv` | apps/api/src/modules/corrections/transaction-correction-execution.service.ts:142-445 | caps, exclusion, posting, stock and commission invariants hold after any commands in any order |
| `CorrectionsRuns.RefundConservation` | apps/api/src/modules/corrections/transaction-correction-execution.service.ts:173-249 | executed amounts never exceed a line's price, a reversal is the only executed correction, corrective transactions and executed corrections match one to one, stock returns at most once per line by the quantity sold |
| `CorrectionsRuns.ReversalIsFinal` | apps/api/src/modules/corrections/transaction-correction-execution.service.ts:183-226 | after an executed reversal nothing is ever posted, restored or adjusted again |
| `CorrectionsRuns.ApprovedExecutesIff` | apps/api/src/modules/corrections/transaction-correction-execution.service.ts:183-249 | in a reachable state an approved correction executes if and only if, for a reversal, nothing has executed before it and, for a refund, each line still has the amount and stocked lines are whole, within the column total: commission never blocks it |
| `CorrectionsRuns.RemainingIsExact` | apps/api/src/modules/corrections/transaction-correction-execution.service.ts:365-383 | the printed remaining refundable is the prices less everything executed: the clamp never binds |
| `CorrectionsRuns.CommissionFollowsCorrections` | apps/api/src/modules/commissions/commission-adjustment.service.ts:44-113 | in every reachable state commission reversed is within what was earned, all of it after a reversal, and within the rounding residue after any full refund in pieces; at any time a PERCENTAGE line has given back the rate's share of what was refunded, within the rounding of its pieces |
| `CorrectionsHistory.CorrectionsAreHistory` | apps/api/src/modules/corrections/transaction-corrections.service.ts:57-491 | corrections refine a plain log of the commands carried out: each is what was asked for and stands where the last command about it put it |
| `CorrectionsHistory.ClosedForEver` | apps/api/src/modules/corrections/transaction-corrections.service.ts:401-404 | a rejected, cancelled or executed correction never changes again |
| `CorrectionsHistory.ExecutedWasApproved` | apps/api/src/modules/corrections/transaction-correction-execution.service.ts:142-150 | an executed correction was approved by a decision carried out before its execution |
| `CorrectionsHistory.RefundTakesIff` | apps/api/src/modules/corrections/transaction-corrections.service.ts:57-140 | a refund is requested if and only if its lines are distinct lines of the sale, each at a positive amount within its price, and the sum fits |
| `CorrectionsHistory.DecisionTakesIff` | apps/api/src/modules/corrections/transaction-corrections.service.ts:318-491 | a decision is carried out if and only if status and version are as read and the state allows it |
| `CorrectionsHistory.ExecutionTakesIff` | apps/api/src/modules/corrections/transaction-correction-execution.service.ts:142-249 | in a reachable state an execution is carried out if and only if the correction is approved, a reversal is first, and a refund's lines still have the amount, stocked ones whole |
| `CorrectionsHistory.SecondDecisionLoses` | apps/api/src/modules/corrections/transaction-corrections.service.ts:395-415 | of two decisions made on the same read only one is ever carried out |
| `CorrectionsHistory.ExecutionDoesAsAsked` | apps/api/src/modules/corrections/transaction-correction-execution.service.ts:276-338 | an execution posts the correction's kind, lines and amount and brings back the sold quantity of exactly the tracked stocked lines it covers |
| `LocalTime.MinutesRoundTrip` | apps/api/src/common/scheduling/local-time.util.ts:24-33 | encoding then decoding gives the minute modulo a day, so the identity exactly below 1440 |
| `LocalTime.LocalTimeRoundTrip` | apps/api/src/common/scheduling/local-time.util.ts:24-33 | decoding then encoding a valid HH:mm text is the identity |
| `LocalTime.CompareIsNumeric` | apps/api/src/common/scheduling/local-time.util.ts:20-22 | comparing the texts is comparing the minutes |
| `Intervals.NormalFormUnique` | apps/api/src/common/scheduling/interval-math.util.ts:26-38 | two sorted, strictly separated lists of the same minutes are the same list |
| `Intervals.MergeMinuteRanges` | apps/api/src/common/scheduling/interval-math.util.ts:26-38 | merging keeps exactly the minutes and yields the normal form |
| `Intervals.IntersectMinuteRanges` | apps/api/src/common/scheduling/interval-math.util.ts:40-52 | intersection of the minute sets, in normal form |
| `Intervals.SubtractMinuteRanges` | apps/api/src/common/scheduling/interval-math.util.ts:54-73 | difference of the minute sets, in normal form |
| `Intervals.RangesRoundTrip` | apps/api/src/common/scheduling/interval-math.util.ts:10-24 | minute ranges of one day survive printing as HH:mm and reading back |
| `Intervals.IntersectLocalIntervals` | apps/api/src/common/scheduling/interval-math.util.ts:79-85 | intersection of HH:mm schedules, minute by minute |
| `Intervals.MergeLocalIntervals` | apps/api/src/common/scheduling/interval-math.util.ts:87-90 | union of HH:mm schedules, minute by minute |
| `Intervals.SubtractLocalIntervals` | apps/api/src/common/scheduling/interval-math.util.ts:92-97 | difference of HH:mm schedules, minute by minute |
| `Eligibility.ResolveEligibleProviders` | apps/api/src/modules/availability/availability-engine.service.ts:131-170 | exactly the active staff with a bookable assignment to every requested service, once each, or only the one asked for |
| `Availability.ResolveStaffAvailableIntervals` | apps/api/src/modules/availability/availability-engine.service.ts:405-419 | a minute is open exactly when the last exception covering it is special availability, or none covers it and a rule does |
| `Availability.FullDayAbsenceEmptiesDay` | apps/api/src/modules/availability/availability-engine.service.ts:405-416 | a full-day absence read last leaves no interval, whatever came before |
| `Availability.SlotsOfRange` | apps/api/src/modules/availability/availability-engine.service.ts:311-347 | one open range yields exactly its grid starts that fit and are bookable, in order |
| `Availability.GridOfRanges` | apps/api/src/modules/availability/availability-engine.service.ts:289-318 | the grid of the merged ranges is the declarative one: whole steps into an unbroken open stretch, open for the whole duration |
| `Availability.SlotsOfProvider` | apps/api/src/modules/availability/availability-engine.service.ts:282-348 | exactly the offered starts of one provider, ascending |
| `Sorting.SortIsStable` | apps/api/src/modules/availability/availability-engine.service.ts:351 | elements the comparison does not tell apart keep their order |
| `Availability.ComputeDaySlots` | apps/api/src/modules/availability/availability-engine.service.ts:259-351 | a slot is in the result exactly when some provider offers it; sorted by start, providers in their given order at one start, none twice |
| `Availability.DurationOfOne` | apps/api/src/modules/availability/availability-engine.service.ts:294-298 | one service takes the provider's own minutes where they have any, else the branch's |
| `Availability.DurationsAddUp` | apps/api/src/modules/availability/availability-engine.service.ts:294-298 | services asked for together take what they take apart |
| `Availability.OfferedIff` | apps/api/src/modules/availability/availability-engine.service.ts:300-336 | a start is offered if and only if it is on the open grid, the lead time away, and clear of each booked window by the buffer of the side it is on, in milliseconds |
| `Availability.OfferedSlotIs` | apps/api/src/modules/availability/availability-engine.service.ts:300-348 | an offered slot is its provider's, as long as the services take, and clear of everything booked that day |
| `Availability.BufferAfterKeepsAway` | apps/api/src/modules/availability/availability-engine.service.ts:327-336 | with 10:30 to 11:15 taken and 15 minutes after each appointment a half-hour is offered at 09:30 and not at 10:00; with the 15 minutes before instead, at 10:00 too |
| `Booking.AppointmentStore.constructor` | apps/api/src/modules/appointments/appointment-booking.service.ts:431-475 | an empty book |
| `Booking.AppointmentStore.AttemptSingleProviderTransaction` | apps/api/src/modules/appointments/appointment-booking.service.ts:431-531 | a conflict is met before the key: unavailable, else the stored key row, else a new appointment with its key row |
| `Booking.AppointmentStore.CreateAppointment` | apps/api/src/modules/appointments/appointment-booking.service.ts:533-550 | the candidates are tried in the order of their ids |
| `Booking.AppointmentStore.AttemptCreation` | apps/api/src/modules/appointments/appointment-booking.service.ts:248-404 | no provider, lead time, horizon and a stored key are answered before any attempt; then the candidate loop |
| `Booking.AppointmentStore.TryCandidates` | apps/api/src/modules/appointments/appointment-booking.service.ts:321-404 | with other requests between attempts: SLOT_UNAVAILABLE exactly when every candidate conflicted at its own attempt, otherwise the first that did not answers |
| `Booking.AppointmentStore.Cancel` | apps/api/src/modules/appointments/appointment-commands.service.ts:48-87 | cancels exactly when the row is CONFIRMED both when read and when written and, for a customer, the cutoff has not passed |
| `Booking.AppointmentStore.MarkNoShow` | apps/api/src/modules/appointments/appointment-commands.service.ts:115-148 | the same, for a start not in the future |
| `Booking.AppointmentStore.Reschedule` | apps/api/src/modules/appointments/appointment-commands.service.ts:183-294 | moves the row exactly when the checks on the row read pass and status, version and window still allow it; a refused move changes nothing |
| `BookingRuns.RunKeepsInv` | apps/api/src/modules/appointments/appointment-booking.service.ts:431-489 | no double booking and one-to-one keys hold after any events |
| `BookingRuns.BookingSafety` | apps/api/src/modules/appointments/appointment-booking.service.ts:431-531 | over any interleaving a provider's CONFIRMED windows are disjoint and two appointments never share a (customer, key) |
| `BookingRuns.RescheduleIsAtomic` | apps/api/src/modules/appointments/appointment-commands.service.ts:208-250 | a move that commits moved exactly the row it read, keeps the booked duration, every other row and every key, and the book stays free of double bookings |
| `BookingRuns.RetryReplays` | apps/api/src/modules/appointments/appointment-booking.service.ts:295-319 | once a key is stored every later retry of the same request answers the same appointment, a different request is refused |
| `BookingRuns.QuietCreation` | apps/api/src/modules/appointments/appointment-booking.service.ts:248-404 | without interference a fresh request is booked if and only if it is in time and some candidate is free |
| `BookingRuns.OfferedIffFree` | apps/api/src/modules/availability/availability-engine.service.ts:300-336 | an offered window is really free if and only if no appointment outside the day overlaps it |
| `BookingRuns.OfferedIsBooked` | apps/api/src/modules/appointments/appointment-booking.service.ts:257-332 | a start on offer, inside the horizon and with its buffered window inside the day, is booked if nothing changes in between |
| `BookingRuns.HonouredIffInsideDay` | apps/api/src/modules/availability/availability-engine.service.ts:276-336 | a start that can be offered is free in every book that offers it if and only if its buffered window lies inside the day |
| `BookingRuns.OfferedAcrossMidnight` | apps/api/src/modules/availability/availability-engine.service.ts:276-309 | a concrete slot whose buffer crosses midnight into an appointment of the next day is offered and refused |
| `BookingRuns.ClosedDayIsBooked` | apps/api/src/modules/appointments/appointment-booking.service.ts:248-332 | booking does not look at opening hours: on a shut day with nothing on offer a start in time is booked all the same |
| `BookingRuns.RacingDuplicate` | apps/api/src/modules/appointments/appointment-booking.service.ts:285-319 | the later of two concurrent twins is answered with its sibling's appointment if and only if another candidate is free, and otherwise with SLOT_UNAVAILABLE |
| `BookingHistory.StatusIsFirstEnd` | apps/api/src/modules/appointments/appointment-commands.service.ts:48-148 | an appointment ends as the first request to end it says, CANCELLED or NO_SHOW, whatever moves happen, and stays CONFIRMED without one |
| `BookingHistory.EndedForEver` | apps/api/src/modules/appointments/appointment-commands.service.ts:48-148 | an ended appointment never changes again |
| `BookingHistory.PlacesAreHistory` | apps/api/src/modules/appointments/appointment-commands.service.ts:208-250 | appointments refine a plain log of the requests carried out: provider, start, minutes, status and key are those last asked for |
| `BookingHistory.AttemptTakesIff` | apps/api/src/modules/appointments/appointment-booking.service.ts:431-531 | an attempt books if and only if the provider is clear by the buffers and the key is new; a provider who is not clear is unavailable even for a known key |
| `BookingHistory.MoveTakesIff` | apps/api/src/modules/appointments/appointment-commands.service.ts:208-250 | a move is carried out if and only if the appointment runs at the version read and the provider it goes to is clear of everything else |
| `BookingHistory.ReadAllows` | apps/api/src/modules/appointments/appointment-commands.service.ts:48-206 | cancelling needs a confirmed appointment before the customer's cutoff, marking a no-show one that has started, moving also a start in time and an eligible provider unless it keeps its own |
| `BookingHistory.InTimeIff` | apps/api/src/modules/appointments/appointment-booking.service.ts:257-270 | lead time and horizon, in milliseconds |
| `BookingHistory.AppointmentsKeepGap` | apps/api/src/modules/appointments/appointment-booking.service.ts:329-330 | over every run under one policy both buffers lie between any two confirmed appointments of a provider, and each stored window reaches its buffer before the start and after the end |
| `BookingHistory.OfferedKeepsGap` | apps/api/src/modules/availability/availability-engine.service.ts:327-336 | a start on offer keeps the same distance from every confirmed appointment of that day |
| `BookingHistory.RefusedBeforeTrying` | apps/api/src/modules/appointments/appointment-booking.service.ts:248-270 | no provider, too soon and too far are answered exactly then, and change nothing |
| `BookingHistory.BookedAsAsked` | apps/api/src/modules/appointments/appointment-booking.service.ts:431-475 | a booked request has a confirmed appointment with one of the candidates, at its start, for its services' minutes, under its key |
| `BookingHistory.SameRequestIff` | apps/api/src/modules/appointments/appointment-booking.service.ts:285-319 | a stored key recognises a request by branch, services in order and start, and nothing else |
| `BookingHistory.LowestFreeIdBooked` | apps/api/src/modules/appointments/appointment-booking.service.ts:533-550 | left alone, a request goes to the free provider whose id comes first |
| `Tokens.AuthStore.IssueSession` | apps/api/src/modules/auth/auth.service.ts:427-463 | a new session holds one live token and prints the expiry it stores |
| `Tokens.AuthStore.Refresh` | apps/api/src/modules/auth/auth.service.ts:85-213 | the whole refresh, with other transactions between its reads, its rotation and a revocation, either of which may be aborted as a deadlock victim |
| `Tokens.AuthStore.ClaimAndCreate` | apps/api/src/modules/auth/auth.service.ts:138-175 | claim, session check and new token commit together or not at all; the transaction may be aborted as a deadlock victim |
| `Tokens.AuthStore.Revoke` | apps/api/src/modules/auth/auth.service.ts:479-493 | revokes the session and every token of its family |
| `Tokens.AuthStore.RecoverBrowserAccessToken` | apps/api/src/modules/auth/auth.service.ts:221-274 | succeeds exactly for a live, unexpired token of a user with access, and changes nothing |
| `Tokens.AuthStore.LogoutByRefreshToken` | apps/api/src/modules/auth/auth.service.ts:296-324 | revokes the family of any known token, spent or not |
| `Tokens.AuthStore.LogoutAllSessions` | apps/api/src/modules/auth/auth.service.ts:336-357 | revokes every session of the user, tokens of the sessions listed beforehand |
| `TokensRuns.OneLiveToken` | apps/api/src/modules/auth/auth.service.ts:138-175 | over any interleaving a session never has two live tokens |
| `TokensRuns.RedeemedAtMostOnce` | apps/api/src/modules/auth/auth.service.ts:140-151 | a token is exchanged at most once, exactly when it becomes used |
| `TokensRuns.RunFollows` | apps/api/src/modules/auth/auth.service.ts:479-493 | a stored session expiry never moves and no use or revocation is undone |
| `TokensRuns.RevokedForEver` | apps/api/src/modules/auth/auth.service.ts:479-493 | a revoked session never has a live token again |
| `TokensRuns.SpentTokenEndsFamily` | apps/api/src/modules/auth/auth.service.ts:103-119 | presenting a used or revoked token of a user with access ends its family for ever, once the revocation commits; aborted, it answers with an error and changes nothing |
| `TokensRuns.LosingRacerEndsFamily` | apps/api/src/modules/auth/auth.service.ts:177-195 | the loser of two racing refreshes revokes the family, the winner's new token included, once that revocation commits |
| `TokensRuns.GrantedIff` | apps/api/src/modules/auth/auth.service.ts:85-213 | exactly when a refresh is granted, and then its token is the only live one of the session |
| `TokensRuns.GrantedLeaves` | apps/api/src/modules/auth/auth.service.ts:138-212 | a granted refresh spends the presented token, adds one fresh token that lasts as long as printed, and changes no other row |
| `TokensRuns.RefusedUntried` | apps/api/src/modules/auth/auth.service.ts:96-135 | a token that is unknown, expired or of a user without access changes nothing; an expired session is ended |
| `TokensRuns.LockedOutStaysOut` | apps/api/src/modules/auth/auth.service.ts:96-101 | a user who loses access stays without it until it is given back, and then has it again |
| `TokensRuns.UnnamedIsUntouched` | apps/api/src/modules/auth/auth.service.ts:479-493 | a session that no event names, and whose user is not logged out everywhere, keeps its row and tokens |
| `TokensRuns.RecoveryMatchesRefresh` | apps/api/src/modules/auth/auth.service.ts:215-241 | recovery succeeds exactly when a refresh on its own would |
| `TokensRuns.PrintedExpiryOverstated` | apps/api/src/modules/auth/auth.service.ts:202-212 | the session expiry a refresh prints is later than the stored one exactly when time has passed since issue |
| `TokensRuns.LogoutAllEndsEverySession` | apps/api/src/modules/auth/auth.service.ts:336-357 | logging out everywhere also ends a session opened after the list was read |
| `TokensRuns.LogoutAllSparesOthers` | apps/api/src/modules/auth/auth.service.ts:336-357 | logging out everywhere leaves other users' sessions as they were and marks every token of the sessions that ran when it began |
| `TokensRuns.RevocationReachesEveryToken` | apps/api/src/modules/auth/auth.service.ts:479-493 | a revocation marks the session and each of its tokens |
| `TokensRuns.LoginOpens` | apps/api/src/modules/auth/auth.service.ts:427-463 | a login adds one running session with one fresh token, both lasting the whole time to live |
| `Cash.CashSession.OpenSession` | apps/api/src/modules/cash/cash-sessions.service.ts:75-108 | an unsafe float opens nothing; otherwise an OPEN drawer with an opening-float entry exactly for a positive float |
| `Cash.CashSession.RecordMovement` | apps/api/src/modules/cash/cash-sessions.service.ts:189-218 | appends a manual entry while the drawer is open, or changes nothing |
| `Cash.CashSession.RecordPaymentReceivedEntry` | apps/api/src/modules/cash/cash-sessions.service.ts:342-377 | appends the payment's entry while the drawer is open, or changes nothing |
| `Cash.CashSession.RecordRefundPaidEntry` | apps/api/src/modules/cash/cash-sessions.service.ts:388-423 | appends a refund entry while the drawer is open, or changes nothing |
| `Cash.CashSession.CloseSession` | apps/api/src/modules/cash/cash-sessions.service.ts:236-267 | stores expectation, count and variance and closes; refused for an expectation its column does not take |
| `Cash.CashSession.ReviewSession` | apps/api/src/modules/cash/cash-sessions.service.ts:289-313 | a closed drawer is reviewed on the version read |
| `Cash.ExpectedIsCustody` | apps/api/src/modules/cash/cash-expected-balance.util.ts:24-26 | float plus receipts plus cash in, less cash out, drops and refunds |
| `Cash.ExpectedIgnoresOrder` | apps/api/src/modules/cash/cash-expected-balance.util.ts:20-26 | the order of the entries does not matter |
| `Cash.CustodyHolds` | apps/api/src/modules/cash/cash-sessions.service.ts:247-262 | over any run a closed drawer's expectation is the signed sum of its whole ledger and its variance counted less expected |
| `Cash.ClosedIsFrozen` | apps/api/src/modules/cash/cash-sessions.service.ts:199-204 | a drawer no longer open never changes its ledger or count and never reopens |
| `Cash.ClosesIff` | apps/api/src/modules/cash/cash-sessions.service.ts:236-267 | an open drawer can be closed if and only if its expectation is storable; a ledger below zero is reachable and cannot be |
| `Cash.LedgerIsHistory` | apps/api/src/modules/cash/cash-sessions.service.ts:189-423 | the ledger is exactly the entries asked for and carried out, in order, each of its own type, amount and payment |
| `Cash.TakesIff` | apps/api/src/modules/cash/cash-sessions.service.ts:189-313 | entries and the close are carried out if and only if the drawer is open and the amounts safe, the close if the expectation fits its column, the review on the closed drawer it read |
| `Cash.OpensWithFloat` | apps/api/src/modules/cash/cash-sessions.service.ts:75-108 | a drawer opens for a float within the bounds, holding it as its one entry, with nothing counted |
| `Cash.CountStands` | apps/api/src/modules/cash/cash-sessions.service.ts:236-313 | the count that closed a drawer is kept for ever, with the expectation and the difference; REVIEWED exactly after a review of that version |
| `PaymentDesk.PaymentsService.RecordInTransaction` | apps/api/src/modules/payments/payments.service.ts:120-243 | checkout rules, then the drawer entry, then the key: all rows or none |
| `PaymentDesk.PaymentsService.RecordPayment` | apps/api/src/modules/payments/payments.service.ts:111-258 | look-up, interference, transaction, and the look-up after losing the key |
| `PaymentDesk.RunKeepsInv` | apps/api/src/modules/payments/payments.service.ts:111-258 | keys, records, payments and ledger entries correspond after any events |
| `PaymentDesk.PaymentCustody` | apps/api/src/modules/payments/payments.service.ts:192-217 | a key belongs to at most one payment record; a drawer payment has exactly one entry, of its amount, in its own drawer; a drawer received exactly what was paid into it |
| `PaymentDesk.PaidAsAsked` | apps/api/src/modules/payments/payments.service.ts:189-243 | a payment that is recorded has the request's checkout, amount, drawer and key, and only the drawer asked for has received it |
| `PaymentDesk.RetryReplays` | apps/api/src/modules/payments/payments.service.ts:350-376 | every later retry answers the first payment and records nothing; the key with another request is a conflict |
| `PaymentDesk.RacingPayment` | apps/api/src/modules/payments/payments.service.ts:135-147 | the later of two concurrent twins replays if and only if the balance had room for both, and is otherwise refused |
| `RefundDesk.RunKeepsInv` | apps/api/src/modules/corrections/transaction-correction-execution.service.ts:142-445 | sales, drawers, stock and payments back stay matched after any executions, requests, decisions, drawer movements and stock changes |
| `RefundDesk.RefundCustody` | apps/api/src/modules/corrections/transaction-correction-execution.service.ts:401-425 | each corrective transaction is paid back exactly once, for its total; what a drawer's ledger refunded is exactly what was paid back from it; a sale never pays back more than its lines cost |
| `RefundDesk.PaidBackAsAsked` | apps/api/src/modules/corrections/transaction-correction-execution.service.ts:401-425 | an execution pays the correction's amount from the open drawer that was named and from no other |
| `RefundDesk.ExecutedWithinSale` | apps/api/src/modules/corrections/transaction-correction-execution.service.ts:195-226 | all executed corrections of a sale together stay within the prices of its lines |
| `RefundDesk.ExecutionReturnsStock` | apps/api/src/modules/corrections/transaction-correction-execution.service.ts:315-338 | executing raises each variant's stock by exactly what the sale records as restored of it |
| `RefundDesk.ReversalMeetsTotalIff` | apps/api/src/modules/corrections/transaction-correction-execution.service.ts:276-299 | a reversal pays back the prices of all lines, which is the total that was paid if and only if the sale carried no adjustment |
| `Stock.BranchInventory.Apply` | apps/api/src/modules/products/branch-inventory.service.ts:364-424 | archived is refused, untracked moves nothing, a negative result is refused, otherwise quantity and movement are written together |
| `Stock.BranchInventory.Mutate` | apps/api/src/modules/products/branch-inventory.service.ts:426-516 | the same, with untracked refused |
| `Stock.BranchInventory.MoveLines` | apps/api/src/modules/transactions/transaction-posting.service.ts:176-194 | the lines of a transaction move together or not at all |
| `Stock.CommitKeepsInvIff` | apps/api/src/modules/products/branch-inventory.service.ts:397-423 | a movement computed from a quantity keeps the ledger if and only if that quantity is still current |
| `Stock.StockLedger` | apps/api/src/modules/products/branch-inventory.service.ts:364-516 | over any run on-hand is the sum of the movements, which chain and never go below zero |
| `Stock.OnHandIsHistory` | apps/api/src/modules/products/branch-inventory.service.ts:364-516 | a variant's quantity is what was received, adjusted, sold and given back of it, each movement carried out counted once |
| `Stock.MutationTakesIff` | apps/api/src/modules/products/branch-inventory.service.ts:426-516 | receiving and adjusting need an active, tracked product and a quantity within its column |
| `Stock.LinesEffect` | apps/api/src/modules/transactions/transaction-posting.service.ts:176-194 | a transaction moves each tracked variant by exactly what its lines add up to |
| `Stock.SalePostsIff` | apps/api/src/modules/products/branch-inventory.service.ts:397-403 | a sale posts if and only if its variants are active and every tracked one holds all the lines want together |
| `Stock.SellThenRestore` | apps/api/src/modules/corrections/transaction-correction-execution.service.ts:315-338 | selling and restoring the same lines leaves every quantity as it was |
| `Receipts.DecimalValue` | apps/api/src/modules/receipts/receipt-number.util.ts:12-14 | printed decimals read back |
| `Receipts.NumbersAreInjective` | apps/api/src/modules/receipts/receipt-number.util.ts:12-14 | different (code, year, sequence) print differently, dashes in codes included |
| `Receipts.SequenceIsFiveDigits` | apps/api/src/modules/receipts/receipt-number.util.ts:12-14 | the sequence prints in five digits with leading zeros, and in full from 100000 on |
| `Receipts.ReceiptService.IssueReceipt` | apps/api/src/modules/receipts/receipt.service.ts:56-209 | an existing receipt is returned; otherwise up to five numbers are drawn and the first free one is issued |
| `Receipts.FirstAttemptSucceeds` | apps/api/src/modules/receipts/receipt.service.ts:192-202 | the next number of a series is never taken, so the retry is unreachable |
| `Receipts.RunKeepsInv` | apps/api/src/modules/receipts/receipt.service.ts:88-109 | every series stays numbered 1 to its last, after any requests |
| `Receipts.ReceiptNumbering` | apps/api/src/modules/receipts/receipt.service.ts:266-287 | sale and corrective receipts of a (branch, year) carry exactly 1..last in order, every request gets its receipt, and no two receipts print the same number |
| `Receipts.ReceiptIsAsAsked` | apps/api/src/modules/receipts/receipt.service.ts:56-209 | in every run a first request gets a receipt for its transaction, in its own series, numbered one after the last and printed as such; a repeated one changes nothing |
| `Reports.SumByCurrency` | apps/api/src/modules/reports/report-aggregation.util.ts:17-25 | one entry for each currency that occurs, ordered, holding its total |
| `Reports.NetByCurrency` | apps/api/src/modules/reports/report-aggregation.util.ts:61-74 | gross less every deduction, a currency only a deduction mentions included |
| `Reports.SummaryUnique` | apps/api/src/modules/reports/report-aggregation.util.ts:17-25 | the ordered per-currency list is determined by its totals |
| `StaffReports.GroupIs` | apps/api/src/modules/reports/report-aggregation.util.ts:224-228 | a group holds exactly its staff member's amounts, in order |
| `StaffReports.AggregateStaffPerformance` | apps/api/src/modules/reports/report-aggregation.util.ts:165-222 | entries in staff order for exactly the staff with a line or earned commission, each with their totals and nets |
| `StaffReports.AggregateCommissionsBySource` | apps/api/src/modules/reports/report-aggregation.util.ts:396-430 | entries in staff order covering every accrual, each with totals by source and net |
| `StaffReports.StaffReportConserves` | apps/api/src/modules/reports/report-aggregation.util.ts:165-222 | per currency the net revenues add up to sales less refunds less reversals over all lines; net commissions do so less the accruals of staff without an entry |
| `StaffReports.StaffEntrySays` | apps/api/src/modules/reports/report-aggregation.util.ts:165-222 | each figure of an entry is the sum of that staff member's rows of its kind and currency |
| `StaffReports.CommissionEntrySays` | apps/api/src/modules/reports/report-aggregation.util.ts:396-430 | the same by source: with a policy, without, refunded and reversed |
| `StaffReports.CommissionConservedIff` | apps/api/src/modules/reports/report-aggregation.util.ts:199-219 | net commission is conserved if and only if no accrual of a positive amount belongs to a staff member without line and without earned commission |
| `StaffReports.CommittedReportConserves` | apps/api/src/modules/reports/reports.service.ts:445-487 | over the lines and accruals of the same posted transactions, where every accrual was written beside a line of its staff member, net commission is conserved in every currency |
| `StaffReports.RefundWithoutItsLineIsLost` | apps/api/src/modules/reports/report-aggregation.util.ts:199 | read without the line written beside it a refunded accrual of 5 disappears; read with that line it counts |
| `StaffReports.CommissionReportConserves` | apps/api/src/modules/reports/report-aggregation.util.ts:396-430 | the report by source loses nothing |
| `Paging.PagingIsComplete` | apps/api/src/modules/reports/report-aggregation.util.ts:436-447 | following nextCursor ends and reads exactly the list if and only if not (one item a page, a longer list and an empty first key) |
| `Paging.PageIsFull` | apps/api/src/modules/reports/report-aggregation.util.ts:436-447 | a page holds as many items as asked for, fewer only at the end, and its cursor is its last key |

## Left out

- Persistence, transport, modules, request validation, views, audit and domain events, e-mail: plumbing that no modelled step reads.
- Tenant, branch and separation-of-duties checks: single predicates, parameters here.
- Time zones and daylight saving: a day is a fixed instant plus minutes.
- Random references and their retry loops: uniqueness alone matters to the rows.
- Idempotency keys of corrections: the same pattern as `PaymentDesk`.
- Choosing a commission rule, rule history, queue tickets, register archiving, marketplace and onboarding: selection tables and CRUD that would only add easy members.
- Branch hours of a date and the effective dates of staff rules: the engine's inputs are the branch's intervals and the rules already in force; the loop over dates repeats `Availability.ComputeDaySlots`.
- Average amounts, `serviceCount`, the service and payment-method reports and the redactions: the same folds or filters.
- Availability.ComputeDaySlots: sorts by the instant, where the source compares ISO texts, which agree for years of four digits.
- Reports.SumByCurrency: currency codes compare by character, where the source uses a locale; for upper-case letters these agree.
- Stock.BranchInventory.Apply: the upsert, read and write of a movement are one atomic step; whether the upsert takes the row lock is decided inside the database library, and `Stock.CommitKeepsInvIff` says what depends on it.
- Receipts.ReceiptService.IssueReceipt: the retry is modelled as the loop is written; inside one database transaction a failed insert would abort it, which `Receipts.FirstAttemptSucceeds` makes irrelevant.
- Corrections.SaleCorrections.Request: the lines of one correction are distinct by a unique index, so a repeated line is refused at the request.
- PaymentDesk.PaymentCustody: the checkouts and drawers exist from the start of the run; one opened later has no payment until then.
- Booking.AppointmentStore.AttemptCreation: the check that the branch and the services exist, and the customer record that may be created first, are not modelled.
- Tokens.AuthStore.Refresh: the rotation locks the token row before the session row and a revocation the other way round (`apps/api/src/modules/auth/auth.service.ts:138-175`, `479-493`), so each is atomic but either can be aborted to break a deadlock: `commits` says whether it was. A logout that is aborted is an event that does not happen.
