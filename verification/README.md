# ERP add-ons: a verified model of the business rules

This project models the business logic of a set of ERP add-ons in Dafny and proves properties of that model. The add-ons are:

- **purchase requests**: the seven-state workflow; creation gates by role and by a weekly quota; the allocation ledger; and the availability, transfer, on-hold and confirm-done wizards. It also covers the storekeeper rules on stock pickings.
- **B2B spend tiers**: interval validation, the tier lookup and progress percentage, the evaluation window and its key, and the nightly categorisation with its de-duplicated notification log.
- **petty cash**: the custodian state machine; balances filtered by posting state and year; two-line journal entries; the allocation and expense wizards; and the cash report wizard.
- **work-location history**: history records appended when an employee's location changes, the "current" record, the duration display, and the installation hook.
- **branches**: the constraints on a user's allowed and default branches, the `branch_ids` fallback of record rules, and branch consistency of sale orders.
- **customer discount categories**: pricelist matching, the pricelist realignment on write, code uniqueness, and the installation hook.
- **delete access**: the access check that reserves `unlink` to a group.

## How the model is built

**Records and state**
- Database records the code only reads become datatypes.
- Records the code updates in place become classes: `PurchaseRequest.Request`, the allocation ledger, the availability wizard, `PettyCash.PettyCash`, the B2B partner book, the employee book, sale orders and the partner directory.
- Class methods state their new state in terms of specification functions, and lemmas about those functions carry the properties.

**ORM behaviour**
- An ORM search becomes a filter over an input sequence, in the order the search would return.
- `limit=1` is the first match in that order.
- Odoo's default filtering of archived records is modelled for every search on a model with an `active` field, in one of two ways.
  - Where the model is given the records themselves, they carry `active` and the model filters on it: partners in the discount hook, employees in the work-location install hook, operation types in the transfer wizard, and petty cash boxes in the cash report summary.
  - Where an input sequence stands for a search's result, its comment says archived records are already left out: the wizards' boxes, the company's warehouses in the transfer wizard, and the cron's customers.
- Group membership becomes explicit booleans.
- Configuration parameters, "today" and "now" are parameters.

**Values**
- Money and quantities are `real`; rounding of floats is not modelled.
- Datetimes in the work-location history are integer seconds.
- The weekly purchase-request count compares each request's UTC creation day (its stored `create_date`) with midnight of the user's local Monday, so a request's local and UTC days are separate inputs.
- Python's `int()` of a negative quotient truncates toward zero, and the model says so explicitly (`TruncDiv`).
- A falsy value counts as unset: an upper limit of `0.0` is "no limit", and an empty reason is no reason.

**Errors**
- The exceptions the code raises are `Fail`/`Err` values, and their guards are modelled in the order the code tests them.
- Clearing an employee's work location is refused with `LocationRequired`. The written history record requires a location, so the create inside `write` fails and the transaction is rolled back.
- Equal `change_date`s in the `is_current` search are ordered by id, newest first. The search's own order is `change_date desc` only, so the database leaves such ties unspecified.

## Model

| member | source | states |
|---|---|---|
| PurchaseRequest.IsEditable | purchase_request/models/purchase_request.py:67-80 | a request is editable iff it is in draft |
| PurchaseRequest.AnySubmittable | purchase_request/models/purchase_request.py:283-287 | true iff some line is not cancelled and has a non-zero quantity |
| PurchaseRequest.ToApproveAllowed | purchase_request/models/purchase_request.py:282-287 | submission is allowed iff the state is draft and some live line has a quantity |
| PurchaseRequest.UnfulfilledLines | purchase_request/models/purchase_request.py:413-418 | exactly the non-cancelled lines with unfulfilled quantity > 0, drawn from the request's lines |
| PurchaseRequest.WithCancelledKeepsLines | purchase_request/models/purchase_request.py:395-408 | cancelling or un-cancelling every line changes only each line's cancelled flag |
| PurchaseRequest.AllFulfilledHasNoUnfulfilled | purchase_request/models/purchase_request.py:525-536 | when every live line has unfulfilled ≤ 0, `button_done` finds nothing to confirm |
| PurchaseRequest.RejectThenAutoReject | purchase_request/models/purchase_request.py:406-408 | after rejecting, every line is cancelled (so the auto-reject rule agrees) and the request cannot be submitted; after reset none is cancelled |
| PurchaseRequest.Hold | purchase_request/wizard/purchase_request_on_hold_wizard.py:42-46 | the hold write sets exactly the state to on hold, the recorded previous state and the reason |
| PurchaseRequest.Resume | purchase_request/models/purchase_request.py:463-472 | from on hold with a recorded state: back to that state, with the previous state and the reason cleared; otherwise nothing changes |
| PurchaseRequest.HoldResumeRoundTrip | purchase_request/models/purchase_request.py:457-472 | holding from state S (recorded by the wizard) and resuming gives S back with both hold fields cleared |
| PurchaseRequest.ResumeIdempotent | purchase_request/models/purchase_request.py:463-472 | lifting a hold twice is the same as lifting it once |
| PurchaseRequest.CheckCreationPermission | purchase_request/models/purchase_request.py:300-316 | passes iff the user is an administrator or not a warehouse manager; the failure is the manager error |
| PurchaseRequest.CountSinceAppend | purchase_request/models/purchase_request.py:341-345 | the per-user count of requests since a date adds up over concatenated request lists |
| PurchaseRequest.CheckCreationLimit | purchase_request/models/purchase_request.py:318-356 | fails iff the user is a non-admin requester, the limit is > 0, and the count of their requests whose UTC creation day is on or after the local Monday (`context_today - weekday`) is ≥ the limit; the error carries limit and count |
| PurchaseRequest.CreatedTodayCounts | purchase_request/models/purchase_request.py:337-345 | a request created today is counted in this week's quota |
| PurchaseRequest.LocalMondayBeforeUtcMidnight | purchase_request/models/purchase_request.py:337-345 | a request made on a local Monday while it is still Sunday in UTC is not counted in that week |
| PurchaseRequest.NewCreation | purchase_request/models/purchase_request.py:364-366 | a missing name or "New" draws the sequence; the requester defaults to the current user |
| PurchaseRequest.NewCreations | purchase_request/models/purchase_request.py:364-372 | one stored request per vals, each carrying the UTC day of the creation instant |
| PurchaseRequest.CreateAsWritten | purchase_request/models/purchase_request.py:358-373 | the batch is stored iff both gates pass once, for the whole batch; the stored list is the old records followed by exactly `NewCreations` of the batch |
| PurchaseRequest.BatchExceedsQuota | purchase_request/models/purchase_request.py:358-373 | with a weekly limit of 1 and no earlier request, a batch of two is accepted and the week's count becomes 2 |
| PurchaseRequest.CreateChecked | purchase_request/models/purchase_request.py:318-356 | the quota is checked before each request: a stored batch keeps the old records in front and, if the user's week count starts within the limit, keeps it within the limit; the only refusal is the weekly-limit error |
| PurchaseRequest.CreateCheckedStores | purchase_request/models/purchase_request.py:364-367 | an accepted re-checked batch is the old records followed by exactly `NewCreations` of the batch |
| PurchaseRequest.CreateCheckedAccepts | purchase_request/models/purchase_request.py:337-355 | the re-checked batch is accepted whenever the quota does not apply or the count plus the batch size stays within the limit |
| PurchaseRequest.Create | purchase_request/models/purchase_request.py:358-373 | corrected create: permission as in the source; a stored batch is the old records followed by `NewCreations` and keeps the user's weekly count within the limit; it is accepted whenever the permission passes and the quota does not apply or the count is below the limit with room for the whole batch |
| PurchaseRequest.CreateCheckedRefusesOverflow | purchase_request/models/purchase_request.py:337-355 | a batch of the user's own requests that would take the weekly count past the limit is refused |
| PurchaseRequest.CreateOwnBatch | purchase_request/models/purchase_request.py:358-373 | for a batch of the user's own requests counted this week, the corrected create accepts exactly when the permission passes and the batch fits in what is left of the quota |
| PurchaseRequest.Unlink | purchase_request/models/purchase_request.py:383-393 | deletion passes iff every request is in draft; one other request fails the whole call |
| PurchaseRequest.BuildConfirmLines | purchase_request/models/purchase_request.py:419-436 | one wizard row per unfulfilled line, carrying its id, product, unit, requested and unfulfilled quantity, with requested = fulfilled + unfulfilled |
| PurchaseRequest.Request.ButtonDraft | purchase_request/models/purchase_request.py:395-397 | every line un-cancelled, state draft, nothing else changed |
| PurchaseRequest.Request.ButtonToApprove | purchase_request/models/purchase_request.py:399-401 | passes iff submission is allowed (`to_approve_allowed_check`, lines 481-490), then sets to approve; on failure the state is unchanged |
| PurchaseRequest.Request.ButtonApproved | purchase_request/models/purchase_request.py:403-404 | state approved and the approver assigned, nothing else changed |
| PurchaseRequest.Request.ButtonRejected | purchase_request/models/purchase_request.py:406-408 | every line cancelled, state rejected |
| PurchaseRequest.Request.ButtonInProgress | purchase_request/models/purchase_request.py:410-411 | state in progress, nothing else changed |
| PurchaseRequest.Request.ButtonDone | purchase_request/models/purchase_request.py:413-446 | with unfulfilled lines, the state is kept and the confirmation rows returned are exactly `ConfirmRowsOf` the lines (one per unfulfilled line, in order, with its id, product, unit and quantities); otherwise the state becomes done |
| PurchaseRequest.Request.ButtonRemoveOnHold | purchase_request/models/purchase_request.py:463-472 | the hold fields become `Resume` of the old ones; nothing else changes |
| PurchaseRequest.Request.CheckAutoReject | purchase_request/models/purchase_request.py:474-479 | rejected iff no line is left uncancelled (including no lines); otherwise unchanged |
| PurchaseRequest.Request.CheckAutoDone | purchase_request/models/purchase_request.py:525-536 | done iff approved or in progress, with lines, all live lines fulfilled; otherwise unchanged |
| RequestAllocation.OpenQty | purchase_request/models/purchase_request_allocation.py:85-94 | never negative; 0 on a cancelled or done purchase line; otherwise at least requested − allocated, and either that difference or 0 |
| RequestAllocation.OpenQtyAntitone | purchase_request/models/purchase_request_allocation.py:89-94 | allocating more never increases the open quantity |
| RequestAllocation.NotifyAllocation | purchase_request/models/purchase_request_allocation.py:124-135 | no note for a zero quantity; otherwise one note per allocation, on its request, with the quantity, the escaped product name, which holds only markup-safe characters, and the unescaped unit name (`False` without purchase line) |
| RequestAllocation.LabelKeepsName | purchase_request/models/purchase_request_allocation.py:108 | unescaping the note's product label gives back the product name |
| RequestAllocation.LinesOf | purchase_request/models/purchase_request_allocation.py:140 | exactly the request lines of the given allocations |
| RequestAllocation.Selected | purchase_request/models/purchase_request_allocation.py:155-165 | exactly the ledger allocations with a selected id |
| RequestAllocation.Remaining | purchase_request/models/purchase_request_allocation.py:165-167 | exactly the ledger allocations without a selected id |
| RequestAllocation.ApplyAll | purchase_request/models/purchase_request_allocation.py:158 | the write changes the selected allocations and no other, keeping ids and order |
| RequestAllocation.Numbered | purchase_request/models/purchase_request_allocation.py:149-150 | created allocations get consecutive fresh ids |
| RequestAllocation.WriteRecomputesOldAndNew | purchase_request/models/purchase_request_allocation.py:155-163 | a re-parented allocation's old line and new line are both recomputed |
| RequestAllocation.UnlinkSplitsLedger | purchase_request/models/purchase_request_allocation.py:165-174 | a deleted allocation's line is recomputed; every other allocation stays |
| RequestAllocation.RemainingWellNumbered | purchase_request/models/purchase_request_allocation.py:165-167 | deleting keeps the ledger's ids unique and below the next id |
| RequestAllocation.Ledger.Create | purchase_request/models/purchase_request_allocation.py:148-153 | appends the numbered allocations and recomputes exactly their lines |
| RequestAllocation.Ledger.Write | purchase_request/models/purchase_request_allocation.py:155-163 | updates the selected allocations and recomputes the union of their lines before and after |
| RequestAllocation.Ledger.Unlink | purchase_request/models/purchase_request_allocation.py:165-174 | removes the selected allocations and recomputes the lines they had |
| CheckAvailabilityWizard.SearchQuants | purchase_request/wizard/purchase_request_check_availability_wizard.py:40-45 | exactly the quants of the product, in internal locations, with positive quantity, in the company |
| CheckAvailabilityWizard.StockStep | purchase_request/wizard/purchase_request_check_availability_wizard.py:48-64 | a quant adds its location only if it is not excluded, not yet present, and has stock available |
| CheckAvailabilityWizard.StockEntries | purchase_request/wizard/purchase_request_check_availability_wizard.py:47-64 | the stocked locations: none excluded (not the destination, not under its `parent_path`), all with available > 0, no location twice |
| CheckAvailabilityWizard.LineRows | purchase_request/wizard/purchase_request_check_availability_wizard.py:66-86 | one row per stocked location, or a single row without location; requested = the line's unfulfilled quantity, transfer 0 |
| CheckAvailabilityWizard.RowsForLine | purchase_request/wizard/purchase_request_check_availability_wizard.py:32-86 | a line gets rows only when it is live, has unfulfilled quantity and a product; each row is of that line and product, requests its unfulfilled quantity, transfers 0, and any location it names has stock and is not excluded |
| CheckAvailabilityWizard.WizardRows | purchase_request/wizard/purchase_request_check_availability_wizard.py:32-86 | rows only for live lines with unfulfilled > 0 and a product; transfer 0; located rows have stock and are not excluded |
| CheckAvailabilityWizard.LineWithoutStockGetsOneRow | purchase_request/wizard/purchase_request_check_availability_wizard.py:77-86 | a qualifying line gets at least one row, and exactly one row without location when no location has stock |
| CheckAvailabilityWizard.LocationOncePerLine | purchase_request/wizard/purchase_request_check_availability_wizard.py:57-76 | within one request line's rows, a location appears at most once |
| CheckAvailabilityWizard.RemainingForLine | purchase_request/wizard/purchase_request_check_availability_wizard.py:236-247 | max(0, requested − transfers of the other rows of the same line) |
| CheckAvailabilityWizard.OthersPlusSelf | purchase_request/wizard/purchase_request_check_availability_wizard.py:242-246 | the other rows' transfers plus this row's make up the line's total |
| CheckAvailabilityWizard.ClampTransfer | purchase_request/wizard/purchase_request_check_availability_wizard.py:250-263 | a negative input gives 0; otherwise the result is at most the input, the available and the remaining quantity, equals one of them, and is non-negative when they are |
| CheckAvailabilityWizard.Chosen | purchase_request/wizard/purchase_request_check_availability_wizard.py:91 | exactly the rows with transfer > 0 |
| CheckAvailabilityWizard.AcceptedRowsHaveSource | purchase_request/wizard/purchase_request_check_availability_wizard.py:96-101 | every row that passes the availability check has a location |
| CheckAvailabilityWizard.CheckAvailable | purchase_request/wizard/purchase_request_check_availability_wizard.py:96-101 | passes iff no chosen row's transfer exceeds its available quantity; a failure names the first such row's product, transfer and available quantity |
| CheckAvailabilityWizard.LineTotals | purchase_request/wizard/purchase_request_check_availability_wizard.py:104-109 | one total per request line that has chosen rows, equal to the sum of their transfers; the lines are listed in order of first appearance |
| CheckAvailabilityWizard.CheckTotals | purchase_request/wizard/purchase_request_check_availability_wizard.py:111-116 | passes iff no request line's total transfer exceeds its unfulfilled quantity; a failure names the first such line in order of first appearance, with its total and unfulfilled quantity |
| CheckAvailabilityWizard.ConvertToTransfer | purchase_request/wizard/purchase_request_check_availability_wizard.py:88-134 | accepted iff some row is chosen and both checks pass; no chosen row gives the nothing-to-transfer error; otherwise a failure is the first row's availability error if any row exceeds its available quantity, else the first line's unfulfilled-quantity error; on success one transfer line per chosen row, each with a source location and a positive quantity |
| CheckAvailabilityWizard.TransferLines | purchase_request/wizard/purchase_request_check_availability_wizard.py:125-134 | one transfer wizard line per chosen row, in order, carrying its request line, product, source location, quantity and unit |
| CheckAvailabilityWizard.CollectStock | purchase_request/wizard/purchase_request_check_availability_wizard.py:47-64 | the dictionary the quant loop builds is `StockEntries` |
| CheckAvailabilityWizard.MakeLineRows | purchase_request/wizard/purchase_request_check_availability_wizard.py:66-86 | the rows the row loop creates are `LineRows` |
| CheckAvailabilityWizard.Wizard.CreateWizardLines | purchase_request/wizard/purchase_request_check_availability_wizard.py:23-86 | appends exactly `WizardRows` of the request's lines |
| CheckAvailabilityWizard.Wizard.OnchangeLocation | purchase_request/wizard/purchase_request_check_availability_wizard.py:221-234 | the row takes the location with transfer reset to 0; it warns iff the location is the destination |
| CheckAvailabilityWizard.Wizard.OnchangeTransferQty | purchase_request/wizard/purchase_request_check_availability_wizard.py:249-263 | only the edited row's transfer changes, to the clamped value |
| CheckAvailabilityWizard.OnchangeKeepsLineTotal | purchase_request/wizard/purchase_request_check_availability_wizard.py:250-263 | after the onchange, the line's total transfer is at most max(requested, the other rows' transfers) |
| CreateTransferWizard.FirstInternalType | purchase_request/wizard/purchase_request_create_transfer_wizard.py:79-85 | the first active internal operation type of the warehouse in search order, or none iff there is none |
| CreateTransferWizard.FindInternalPickingType | purchase_request/wizard/purchase_request_create_transfer_wizard.py:70-86 | the first internal type of the source location's warehouse, else of the company's first warehouse; none when the company has no warehouse |
| CreateTransferWizard.MovesFor | purchase_request/wizard/purchase_request_create_transfer_wizard.py:119-132 | one move per row, with the row's product, quantity, unit and source, into the destination |
| CreateTransferWizard.AllocationsFor | purchase_request/wizard/purchase_request_create_transfer_wizard.py:134-139 | one allocation per move, on the row's request line, requesting the row's quantity |
| CreateTransferWizard.MoveAllocationPairing | purchase_request/wizard/purchase_request_create_transfer_wizard.py:119-139 | the k-th allocation points at the k-th move, with the same line and quantity |
| CreateTransferWizard.ActionCreateTransfer | purchase_request/wizard/purchase_request_create_transfer_wizard.py:88-143 | no lines or no operation type: fails before anything is created; with lines and an operation type it passes, with one picking, one move and one allocation per row, and approved becomes in progress |
| CreateTransferWizard.CreateMoves | purchase_request/wizard/purchase_request_create_transfer_wizard.py:119-139 | the moves appended are exactly one per row, in row order, numbered on from the next move id, and the allocations are one per move on its request line, numbered on from the next allocation id; pickings are untouched |
| OnHoldWizard.Wizard.ActionPutOnHold | purchase_request/wizard/purchase_request_on_hold_wizard.py:36-47 | an empty reason fails and changes nothing; otherwise exactly state, previous state and reason are written |
| ConfirmDoneWizard.ComputeTotals | purchase_request/wizard/purchase_request_confirm_done_wizard.py:31-35 | the count is the number of rows and the quantity the sum of their unfulfilled quantities |
| ConfirmDoneWizard.TotalPositive | purchase_request/wizard/purchase_request_confirm_done_wizard.py:31-35 | rows whose unfulfilled quantities are positive, as `button_done` builds them, total a positive quantity whenever there is a row |
| ConfirmDoneWizard.UnfulfilledSumAppend | purchase_request/wizard/purchase_request_confirm_done_wizard.py:35 | the total is additive over concatenation |
| ConfirmDoneWizard.ActionConfirmDone | purchase_request/wizard/purchase_request_confirm_done_wizard.py:37-41 | the request becomes done and nothing else changes |
| StorekeeperPicking.CanValidate | purchase_request/models/stock_picking.py:87-124 | non-internal pickings, non-storekeepers, administrators and managers may validate; a plain storekeeper may iff they keep the destination warehouse |
| StorekeeperPicking.ButtonValidate | purchase_request/models/stock_picking.py:126-147 | passes iff every picking may be validated; a failure names the first picking that may not, its destination warehouse and that warehouse's storekeeper |
| StorekeeperPicking.Notifications | purchase_request/models/stock_picking.py:18-85 | nothing without the template or for types other than internal and incoming; every mail goes to the recipient's non-empty address; source-side mails only on internal transfers, to the source storekeeper; destination-side mails to the destination storekeeper; at most one for incoming |
| StorekeeperPicking.IncomingReachesDestination | purchase_request/models/stock_picking.py:59-85 | a receipt mails exactly the destination storekeeper when that storekeeper has an email, and nobody otherwise |
| StorekeeperPicking.NoStorekeeperMailedTwice | purchase_request/models/stock_picking.py:32-57 | no recipient appears twice |
| StorekeeperPicking.InternalTransferReachesBoth | purchase_request/models/stock_picking.py:32-57 | an internal transfer mails the source storekeeper and the destination storekeeper, each when they have an email |
| B2BCategory.High | pct_b2b_customer_categorization/models/b2b_category.py:34-35 | the upper bound is infinite iff the upper limit is falsy (0) |
| B2BCategory.MinBound | pct_b2b_customer_categorization/models/b2b_category.py:35 | a spend is below the minimum iff it is below both bounds |
| B2BCategory.OverlapsMeansSharedSpend | pct_b2b_customer_categorization/models/b2b_category.py:33-37 | the overlap test holds iff some spend lies in both ranges |
| B2BCategory.OverlapsSymmetric | pct_b2b_customer_categorization/models/b2b_category.py:33-37 | the overlap test is symmetric |
| B2BCategory.AdjacentRangesDoNotOverlap | pct_b2b_customer_categorization/models/b2b_category.py:36 | adjacent ranges [a, b) and [b, c) do not overlap |
| B2BCategory.CheckRange | pct_b2b_customer_categorization/models/b2b_category.py:20-24 | passes iff every record has no upper limit or an upper limit above its lower limit |
| B2BCategory.FirstOverlap | pct_b2b_customer_categorization/models/b2b_category.py:29-37 | the first other active category in search order that overlaps, or none iff there is none |
| B2BCategory.CheckOverlap | pct_b2b_customer_categorization/models/b2b_category.py:26-37 | passes iff no active record overlaps any other active category; a failure names the first overlapping active record and the first category it overlaps |
| B2BCategory.InactiveIgnored | pct_b2b_customer_categorization/models/b2b_category.py:29-31 | an inactive category is neither checked nor compared against |
| B2BCategory.NeverComparedWithItself | pct_b2b_customer_categorization/models/b2b_category.py:31 | a lone active category passes, whatever its range |
| B2BCategory.AtMostOneTier | pct_b2b_customer_categorization/models/b2b_category.py:26-37 | after the overlap check passes, no spend lies in two active categories |
| B2BPartner.CurrentTier | pct_b2b_customer_categorization/models/res_partner.py:90-95 | the first active tier containing the spend, by ascending lower limit; none iff no active tier contains it |
| B2BPartner.Clamp100 | pct_b2b_customer_categorization/models/res_partner.py:110-112 | the result lies in [0, 100] and equals the input inside that range |
| B2BPartner.ProgressPct | pct_b2b_customer_categorization/models/res_partner.py:82-112 | 0 without a tier, 100 for an unbounded tier, 0 for an empty span, otherwise (spend − lower)/span × 100, always in [0, 100] |
| B2BPartner.B2BWindow | pct_b2b_customer_categorization/models/res_partner.py:117-131 | last-x days gives a window of x days ending today, absent only when its start falls before the calendar; ytd gives Jan 1 to today; anything else gives the 1st of the month to today; each with its key |
| B2BPartner.KeyIdentifiesWindow | pct_b2b_customer_categorization/models/res_partner.py:121-131 | equal keys mean the same kind of window with the same start |
| B2BPartner.LastKeyInjective | pct_b2b_customer_categorization/models/res_partner.py:123 | `LAST-x-date` keys determine x and the date |
| B2BPartner.YtdKeyInjective | pct_b2b_customer_categorization/models/res_partner.py:127 | `YTD-yyyy` keys determine the year |
| B2BPartner.MtdKeyInjective | pct_b2b_customer_categorization/models/res_partner.py:131 | `MTD-yyyy-mm` keys determine year and month |
| B2BPartner.NewCategories | pct_b2b_customer_categorization/models/res_partner.py:176-187 | nothing for spend ≤ 0; otherwise exactly the categories of the search whose range holds the spend |
| B2BPartner.NewCategoriesFirst | pct_b2b_customer_categorization/models/res_partner.py:176-190 | the first new category, the one the run reads, is the first category in search order holding the spend |
| B2BPartner.Candidate | pct_b2b_customer_categorization/models/res_partner.py:189-195 | only the first new category, only with an upper limit and progress ≥ the threshold |
| B2BPartner.Recipients | pct_b2b_customer_categorization/models/res_partner.py:205-207 | exactly the contact lines with active notification and an email |
| B2BPartner.StepLogs | pct_b2b_customer_categorization/models/res_partner.py:196-226 | a log entry is added for a candidate iff none exists for (partner, category, window) |
| B2BPartner.StepMails | pct_b2b_customer_categorization/models/res_partner.py:204-218 | with a candidate category, a fresh log entry and the template, exactly one mail per recipient of the category; otherwise none |
| B2BPartner.RunLogsGrowsUniquely | pct_b2b_customer_categorization/models/res_partner.py:176-226 | the run keeps the old log and adds only fresh entries of this window, never twice |
| B2BPartner.RunLogsCover | pct_b2b_customer_categorization/models/res_partner.py:189-226 | after the run, every partner due a notification has its entry |
| B2BPartner.RunLogsStable | pct_b2b_customer_categorization/models/res_partner.py:196-204 | a log that already holds every due entry is not changed |
| B2BPartner.SecondRunLogsNothing | pct_b2b_customer_categorization/models/res_partner.py:196-226 | a second run in the same window logs nothing |
| B2BPartner.RunCategoriesAssigns | pct_b2b_customer_categorization/models/res_partner.py:176-187 | every handled partner ends with exactly its categories; no other partner changes |
| B2BPartner.Book.HandlePartner | pct_b2b_customer_categorization/models/res_partner.py:176-226 | one loop pass: the categories replaced, the log and mails as specified |
| B2BPartner.Book.RunCategorization | pct_b2b_customer_categorization/models/res_partner.py:137-226 | the whole run over the customers, as specified by `RunCategories`, `RunLogs` and `RunMails` |
| PettyCash.LineState | pct_petty_cash/models/pct_petty_cash.py:273-279 | a line's state is its entry's state, or draft without an entry |
| PettyCash.UnpostedIgnored | pct_petty_cash/models/pct_petty_cash.py:128-148 | an unposted or undated line changes no balance |
| PettyCash.NextYearBefore | pct_petty_cash/models/pct_petty_cash.py:128-176 | what is brought into year y+1 is what was brought into y plus year y's movements |
| PettyCash.ComputeAmounts | pct_petty_cash/models/pct_petty_cash.py:159-183 | amount left = brought forward + allocated − expensed, with each part the posted sums of its year |
| PettyCash.AmountLeftRollsOver | pct_petty_cash/models/pct_petty_cash.py:128-183 | next year's brought forward equals this year's amount left |
| PettyCash.SetRunning | pct_petty_cash/models/pct_petty_cash.py:185-189 | running only from draft; other states unchanged |
| PettyCash.SetClosed | pct_petty_cash/models/pct_petty_cash.py:191-195 | closed only from running; other states unchanged |
| PettyCash.NoShortcutToClosed | pct_petty_cash/models/pct_petty_cash.py:185-195 | a draft box cannot be closed directly, only through running |
| PettyCash.TwoLineEntryBalanced | pct_petty_cash/models/pct_petty_cash.py:304-327 | a two-line entry of one debit and one credit of the same amount is balanced |
| PettyCash.AllocationMove | pct_petty_cash/models/pct_petty_cash.py:289-330 | fails if an entry exists, or the custodian or source account is missing; otherwise a balanced draft two-line entry from the source account to the custodian account |
| PettyCash.ExpenseMove | pct_petty_cash/models/pct_petty_cash.py:447-493 | fails if an entry exists, or the custodian or expense account is missing; otherwise a balanced draft two-line entry from the custodian account to the expense account |
| PettyCash.PostIfDraft | pct_petty_cash/models/pct_petty_cash.py:336-338 | only a draft entry is posted |
| PettyCash.PostAllocation | pct_petty_cash/models/pct_petty_cash.py:332-339 | a line with an entry always succeeds: a draft entry becomes posted, any other entry is kept as it was; a line without one gets `AllocationMove`'s entry, posted, or that function's error; afterwards the line has a non-draft entry |
| PettyCash.PostExpense | pct_petty_cash/models/pct_petty_cash.py:495-504 | refused with the box's name unless it is running; then as `PostAllocation`, with `ExpenseMove`'s entry |
| PettyCash.PostAllocationIdempotent | pct_petty_cash/models/pct_petty_cash.py:332-339 | posting an allocation line a second time changes nothing |
| PettyCash.PostExpenseIdempotent | pct_petty_cash/models/pct_petty_cash.py:495-504 | posting an expense line a second time changes nothing |
| PettyCash.PettyCash.ActionSetRunning | pct_petty_cash/models/pct_petty_cash.py:185-189 | the state follows `SetRunning`; the lines are unchanged, and the box's name, custodian, journal and accounts are constants |
| PettyCash.PettyCash.ActionSetClosed | pct_petty_cash/models/pct_petty_cash.py:191-195 | the state follows `SetClosed`; the lines are unchanged, and the box's name, custodian, journal and accounts are constants |
| PettyCash.PettyCash.ActionSetDraft | pct_petty_cash/models/pct_petty_cash.py:197-201 | back to draft from any state; the lines are unchanged, and the box's name, custodian, journal and accounts are constants |
| PettyCash.PettyCash.AllocationCreateMove | pct_petty_cash/models/pct_petty_cash.py:289-330 | attaches the entry on success; on failure nothing changes; the state, the expenses and the box's constant fields stay |
| PettyCash.PettyCash.AllocationPost | pct_petty_cash/models/pct_petty_cash.py:332-339 | line `k` becomes `PostAllocation` of the old line and every other allocation stays; on an error nothing changes; a line that has an entry always passes; no state check on the box; the state, the expenses and the box's constant fields stay |
| PettyCash.PettyCash.ExpenseCreateMove | pct_petty_cash/models/pct_petty_cash.py:447-493 | attaches the entry on success; on failure nothing changes; the state, the allocations and the box's constant fields stay |
| PettyCash.PettyCash.ExpensePost | pct_petty_cash/models/pct_petty_cash.py:495-504 | line `k` becomes `PostExpense` of the old line and every other expense stays; on an error, including a box that is not running, nothing changes; a running box whose line has an entry always passes; the state, the allocations and the box's constant fields stay |
| PettyCashWizards.FirstOfCustodian | pct_petty_cash/wizards/allocation_wizard.py:47-51 | the first box the user keeps, or none iff they keep none |
| PettyCashWizards.DefaultPettyCash | pct_petty_cash/wizards/allocation_wizard.py:42-51 | the context's active id when opened from a petty cash, else the first box the user keeps |
| PettyCashWizards.Admissible | pct_petty_cash/wizards/allocation_wizard.py:55-59 | passes iff the box is not closed and the amount is > 0; a closed box is reported first |
| PettyCashWizards.NewAllocation | pct_petty_cash/wizards/allocation_wizard.py:61-68 | a draft allocation with the wizard's date, amount and journal, the journal's default account as source account, the wizard's analytic distribution, and the new record's id |
| PettyCashWizards.NewExpense | pct_petty_cash/wizards/expense_wizard.py:72-82 | a draft expense with the wizard's date, description, amount, attachments and analytic distribution and the new record's id; the product and its account only if a product is set |
| PettyCashWizards.ActionCreateAllocation | pct_petty_cash/wizards/allocation_wizard.py:53-77 | appends exactly one allocation iff admissible; otherwise nothing changes; the state, the expenses and the box's constant fields stay |
| PettyCashWizards.ActionCreateExpense | pct_petty_cash/wizards/expense_wizard.py:64-90 | appends exactly one expense iff admissible; otherwise nothing changes; the state, the allocations and the box's constant fields stay |
| PettyCashWizards.NewAllocationLeavesBalances | pct_petty_cash/wizards/allocation_wizard.py:61-68 | a new draft allocation changes no balance until posted |
| PettyCashWizards.NewExpenseLeavesBalances | pct_petty_cash/wizards/expense_wizard.py:72-82 | a new draft expense changes no balance until posted |
| CashReport.FilterDomain | pct_petty_cash/wizards/cash_report_wizard.py:104-130 | a custodian term iff a custodian is chosen; inclusive Jan 1 and Dec 31 bounds iff a year is chosen; the user's own custodianship for a non-accountant; the domain selects exactly `Selected` |
| CashReport.YearBoundsSelectYear | pct_petty_cash/wizards/cash_report_wizard.py:109-112 | the year bounds keep a dated line iff it lies in the year |
| CashReport.Search | pct_petty_cash/wizards/cash_report_wizard.py:185-192 | exactly the lines the domain holds for |
| CashReport.OnchangeFilters | pct_petty_cash/wizards/cash_report_wizard.py:185-192 | the selections are exactly the lines matching the filters |
| CashReport.ComputeSummary | pct_petty_cash/wizards/cash_report_wizard.py:132-157 | balance = brought forward + allocated − expensed; brought forward of the chosen custodian's active boxes, all active boxes for an accountant, or the user's own |
| CashReport.ArchivedBoxIgnored | pct_petty_cash/wizards/cash_report_wizard.py:144-154 | an archived box adds nothing to the brought forward |
| CashReport.PrintGuard | pct_petty_cash/wizards/cash_report_wizard.py:377-378 | fails iff both selections are empty |
| CashReport.ExportGuard | pct_petty_cash/wizards/cash_report_wizard.py:198-206 | fails without the spreadsheet writer; otherwise as `PrintGuard` |
| CashReport.GetReportValues | pct_petty_cash/wizards/cash_report_wizard.py:396-425 | balance = brought forward + allocated − expensed; missing data gives zeros |
| CashReport.SumAmountsOfIds | pct_petty_cash/wizards/cash_report_wizard.py:408-416 | summing amounts looked up by id equals summing the lines |
| CashReport.PrintedReportMatchesWizard | pct_petty_cash/wizards/cash_report_wizard.py:380-425 | the printed report shows the wizard's summary figures |
| CashReport.Insert | pct_petty_cash/wizards/cash_report_wizard.py:76-102 | inserting a year keeps the list strictly increasing, with exactly the old years plus it |
| CashReport.AddYears | pct_petty_cash/wizards/cash_report_wizard.py:80-97 | adding the query's non-empty years keeps the list strictly increasing with exactly those years |
| CashReport.YearSelection | pct_petty_cash/wizards/cash_report_wizard.py:74-102 | distinct, ascending, always with the current year, and exactly the years of the lines plus it |
| CashReport.YearLabels | pct_petty_cash/wizards/cash_report_wizard.py:101-102 | each choice's key and label are the year's decimal form |
| CashReport.YearLabelsDistinct | pct_petty_cash/wizards/cash_report_wizard.py:101-102 | distinct years give distinct choices |
| WorkLocationHistory.Latest | pct_work_location_history/models/work_location_history.py:82-84 | the employee's dated record that no other is later than; none iff there is none |
| WorkLocationHistory.IsCurrent | pct_work_location_history/models/work_location_history.py:76-85 | false without employee or date; a current record is one of its employee's dated records (uniqueness, recency and the converse, newest ⇒ current, follow in the next three lemmas) |
| WorkLocationHistory.OneCurrentPerEmployee | pct_work_location_history/models/work_location_history.py:76-85 | an employee has at most one current record |
| WorkLocationHistory.CurrentIsNewest | pct_work_location_history/models/work_location_history.py:76-85 | no record of the employee is dated after the current one |
| WorkLocationHistory.NewestIsCurrent | pct_work_location_history/models/work_location_history.py:76-85 | the employee's newest dated record (by change date, then id, both descending) is current: with `CurrentIsNewest`, current exactly when newest |
| WorkLocationHistory.NextChange | pct_work_location_history/models/work_location_history.py:95-103 | the earliest later change of the employee, or none iff there is none |
| WorkLocationHistory.TruncDiv | pct_work_location_history/models/work_location_history.py:110 | `int()` of a quotient: the floor quotient for a non-negative total, for a negative one the quotient of the magnitudes, negated (truncation toward zero) |
| WorkLocationHistory.SpanParts | pct_work_location_history/models/work_location_history.py:110-112 | hours in 0..23, minutes in 0..59; days non-negative for a non-negative total and 0 or less below one day |
| WorkLocationHistory.Display | pct_work_location_history/models/work_location_history.py:114-119 | `Dd Hh Mm` when days > 0, else `Hh Mm` when hours > 0, else `Mm` |
| WorkLocationHistory.PartsAreMinutes | pct_work_location_history/models/work_location_history.py:110-112 | for a non-negative total, days, hours and minutes recombine to the whole minutes |
| WorkLocationHistory.DisplayDeterminesMinutes | pct_work_location_history/models/work_location_history.py:110-119 | two non-negative durations with the same display have the same whole minutes |
| WorkLocationHistory.ComputeDuration | pct_work_location_history/models/work_location_history.py:87-119 | 0 and empty display without employee or date; otherwise it runs to the next change, else to now |
| WorkLocationHistory.SupersededRecordEndsAtNext | pct_work_location_history/models/work_location_history.py:95-107 | a record with a later change lasts a positive time, no longer than up to that change |
| WorkLocationHistory.HistoryCount | pct_work_location_history/models/hr_employee.py:17-20 | the number of the employee's records; 0 iff there is none |
| WorkLocationHistory.HistoryCountAppend | pct_work_location_history/models/hr_employee.py:17-20 | the count is additive over appended records |
| WorkLocationEmployee.WriteRecords | pct_work_location_history/models/hr_employee.py:22-35 | at most one record per employee written |
| WorkLocationEmployee.WriteRecordsAreMoves | pct_work_location_history/models/hr_employee.py:28-35 | each record is for a written employee whose location differed, with previous = the old location |
| WorkLocationEmployee.WriteRecordsCount | pct_work_location_history/models/hr_employee.py:22-35 | with distinct ids, an employee gets one record iff it is written and its location differs, else none |
| WorkLocationEmployee.EmployeeBook.Write | pct_work_location_history/models/hr_employee.py:22-36 | no location key: nothing appended; clearing fails exactly when some employee has a location, and a failure changes nothing; setting a location always passes, appends `WriteRecords` and sets that location on exactly the written employees |
| WorkLocationEmployee.EmployeeBook.Create | pct_work_location_history/models/hr_employee.py:38-50 | each new employee is stored with exactly its given location, existing employees keep theirs, no other key appears, and `CreateRecords` is appended |
| WorkLocationEmployee.LogCreated | pct_work_location_history/models/hr_employee.py:41-49 | the loop logs exactly `CreateRecords`: one record per employee created with a location |
| WorkLocationEmployee.WithCreatedStores | pct_work_location_history/models/hr_employee.py:40 | storing employees with distinct ids gives each its location, keeps every other key's value and adds no other key |
| WorkLocationEmployee.CreateRecords | pct_work_location_history/models/hr_employee.py:41-49 | at most one record per created employee |
| WorkLocationEmployee.CreateRecordsAreFirst | pct_work_location_history/models/hr_employee.py:41-49 | each record has no previous location, and there are exactly as many as employees created with a location |
| WorkLocationHooks.HookRecords | pct_work_location_history/hooks.py:6-25 | at most one record per employee row |
| WorkLocationHooks.PostInitHook | pct_work_location_history/hooks.py:4-25 | appends exactly `HookRecords`; locations unchanged |
| WorkLocationHooks.FindHistory | pct_work_location_history/hooks.py:13-15 | found iff the employee has a history record |
| WorkLocationHooks.HookRecordsAreInitial | pct_work_location_history/hooks.py:17-25 | every record is for an active located employee with no history, with its location, no previous location, the superuser |
| WorkLocationHooks.HookCovers | pct_work_location_history/hooks.py:6-25 | afterwards every active located employee has history |
| WorkLocationHooks.HookSkipsCovered | pct_work_location_history/hooks.py:13-17 | nothing is created when every active located employee has history |
| WorkLocationHooks.HookSkipsArchived | pct_work_location_history/hooks.py:6-8 | an archived employee gets no record |
| WorkLocationHooks.HookIdempotent | pct_work_location_history/hooks.py:12-25 | a second run creates nothing |
| BranchUsers.CheckBranchId | pct_branches/models/res_users.py:25-30 | passes iff every user with allowed branches and a default has the default among them |
| BranchUsers.CheckBranch | pct_branches/models/res_users.py:32-42 | the same rule, for active users only |
| BranchUsers.FirstCheckSubsumesSecond | pct_branches/models/res_users.py:25-42 | whatever passes the first check passes the second |
| BranchUsers.ArchivedUserOnlyFailsFirst | pct_branches/models/res_users.py:25-42 | an archived user with a stray default fails only the first check |
| BranchUsers.WriteClearsCaches | pct_branches/models/res_users.py:20-23 | the caches are cleared iff the write touches a branch field |
| BranchRecordRules.EvalBranchIds | pct_branches/models/ir_rule.py:9-30 | the context's branches if any, else the allowed ones, else the default alone, else none |
| BranchRecordRules.FallbackKeepsDefault | pct_branches/models/ir_rule.py:21-26 | without a selection, a user's valid default branch is always visible |
| BranchRecordRules.EmptyOnlyWithoutBranches | pct_branches/models/ir_rule.py:15-28 | the rules see no branch iff neither the context nor the user names one |
| BranchRecordRules.DomainKeys | pct_branches/models/ir_rule.py:32-34 | the parent keys, unchanged, followed by one more key, the branch selection key |
| BranchSaleOrder.CheckBranchConsistency | pct_branches/models/sale_order.py:58-80 | passes iff no order has a warehouse or a pricelist of another branch |
| BranchSaleOrder.UnbranchedPasses | pct_branches/models/sale_order.py:60-62 | an order without a branch, or with unbranched warehouse and pricelist, passes |
| BranchSaleOrder.PrepareInvoice | pct_branches/models/sale_order.py:82-87 | the order's branch, if set, replaces the invoice's; nothing else changes |
| BranchSaleOrder.BankNote | pct_branches/models/sale_order.py:47-48 | the warehouse's bank information if any, else the old note |
| BranchSaleOrder.SaleOrder.OnchangeWarehouse | pct_branches/models/sale_order.py:42-48 | the warehouse's branch (if any) becomes the order's, so they cannot conflict; bank information into the note |
| BranchSaleOrder.SaleOrder.CopyBankInformation | pct_branches/models/sale_order.py:54-55 | the note takes the warehouse's bank information |
| BranchSaleOrder.Create | pct_branches/models/sale_order.py:50-56 | every created order takes its warehouse's bank information as note |
| DiscountPricelist.InsertDiscount | pct_discount/models/discount.py:27-30 | refused iff the code is already used in the company; otherwise keeps codes unique per company |
| DiscountPricelist.CodeIdentifiesDiscount | pct_discount/models/discount.py:27-30 | under the constraint a code names one discount per company |
| DiscountPricelist.FirstReg | pct_discount/models/discount.py:42-48 | the first active `REG` discount in search order; none iff there is none |
| DiscountPricelist.DefaultDiscount | pct_discount/models/discount.py:42-48 | a new partner's category is the company's `REG` discount when it has one |
| DiscountPricelist.FirstMatch | pct_discount/models/discount.py:75-80 | the first matching pricelist in search order; none iff none matches |
| DiscountPricelist.MatchingPricelist | pct_discount/models/discount.py:64-82 | none without partner or branch, or without a discount in the company; otherwise the first active pricelist, in search order, of that company, branch and discount |
| DiscountPricelist.SaleOrder.OnchangePartnerBranch | pct_discount/models/discount.py:84-89 | the pricelist becomes the match when there is one, else stays |
| DiscountPricelist.Realigned | pct_discount/models/discount.py:94-97 | the match if there is one, else the current pricelist |
| DiscountPricelist.Write | pct_discount/models/discount.py:91-98 | the values are written, then every order's pricelist is its match if any, else the written value |
| DiscountPricelist.RealignedCarriesDiscount | pct_discount/models/discount.py:91-98 | after a write with a match, the order's pricelist carries the partner's discount and the order's branch |
| DiscountPricelist.RealignedStable | pct_discount/models/discount.py:91-98 | realigning twice is the same as once |
| DiscountHooks.Assign | pct_discount/hooks.py:11-16 | only an active customer without a category is given the category; every other partner is returned unchanged |
| DiscountHooks.AssignAll | pct_discount/hooks.py:16 | the bulk write touches each partner by `Assign` |
| DiscountHooks.HookAsWritten | pct_discount/hooks.py:3-16 | no `REG` discount of any company: nothing changes; otherwise the first one is written on the active customers without a category |
| DiscountHooks.HookAsWrittenCrossesCompanies | pct_discount/hooks.py:4-6 | the hook as written can write another company's `REG` category where the company has none |
| DiscountHooks.SetDefaultPartnerDiscount | pct_discount/hooks.py:3-16 | without `REG` nothing changes; only active customers without a category are updated, and they receive the company's `REG` |
| DiscountHooks.PartnerDirectory.RunHook | pct_discount/hooks.py:3-16 | the partners become `SetDefaultPartnerDiscount` of the old ones: only active customers without a category get the company's REG category, everyone else is left as is |
| DiscountHooks.HookStaysInCompany | pct_discount/hooks.py:4-16 | every category the hook writes is a `REG` category of the company it runs in |
| DiscountHooks.HookLeavesNoTarget | pct_discount/hooks.py:11-16 | afterwards no active customer is left without a category |
| DiscountHooks.HookSkipsNonTargets | pct_discount/hooks.py:11-14 | archived partners, non-customers and partners with a category are left exactly as they were |
| DiscountHooks.HookIdempotent | pct_discount/hooks.py:11-16 | a second run updates nothing |
| DeleteRemoval.ParentCheck | pct_delete_removal/models/base_model.py:10 | the parent check's answer, raising only when asked to |
| DeleteRemoval.CheckAccessRights | pct_delete_removal/models/base_model.py:8-26 | raises iff asked to and access is refused; access is granted iff the parent grants it and it is not an unlink by a non-superuser outside the delete group |
| DeleteRemoval.OnlyUnlinkRestricted | pct_delete_removal/models/base_model.py:12-14 | other operations, superusers and group members get the parent's answer |
| DeleteRemoval.NeverWidens | pct_delete_removal/models/base_model.py:23-26 | nothing the parent refuses is granted |
| DeleteRemoval.UnlinkNeedsGroup | pct_delete_removal/models/base_model.py:12-21 | a non-superuser outside the group never gets unlink |
| DeleteRemoval.RaiseAgreesWithQuiet | pct_delete_removal/models/base_model.py:19-24 | the raising call fails exactly when the quiet call answers False |
| Dates.WeekStart | purchase_request/models/purchase_request.py:337-338 | the start of the week lies between six days before today and today, `weekday` days back |
| Dates.WeekStartIsMonday | purchase_request/models/purchase_request.py:337-338 | the start of the week is a Monday |
| Dates.WithinYear | pct_petty_cash/wizards/cash_report_wizard.py:109-112 | a valid date lies between Jan 1 and Dec 31 of a year iff it is in that year |
| Text.UnescapeEscape | purchase_request/models/purchase_request_allocation.py:108 | HTML escaping is undone by unescaping |

## Left out

- Mail, chatter and notification sending are modelled only as the list of recipients or notes produced, and whether a log entry is created.
- Spreadsheet and PDF export (`xlsxwriter`, attachments, report actions) are I/O. Only the guards and the report figures are modelled.
- The raw SQL query of `_get_year_selection` is replaced by the lists of years it returns. The set, sort and label steps are modelled.
- Window actions returned by buttons, `action_view_*` methods, `default_get`, the analytic-distribution onchange and `_onchange_branch_id` of sale orders are view plumbing.
- The computes of `purchase.request.line` (transfer, unfulfilled and purchased quantities) are not part of this model. Their values are inputs, and only the set of lines sent to recompute is modelled.
- `do_cancel` and `do_uncancel` of request lines are modelled as setting the cancelled flag.
- Cache clearing itself (`call_cache_clearing_methods`) is host-framework behaviour. Only the condition that triggers it is modelled.
- The weekly-quota race between concurrent creates is a transaction-isolation matter, not modelled.
- Message subscription of the assignee in purchase-request `create` and `write` is a chatter side effect.
- Translations, display names and sequence formats are not modelled; a sequence-drawn name is a number.
- `round(days, 2)` in the work-location duration is dropped: days are an exact quotient.
- Datetimes are integer seconds.
- Today, now and the configuration parameters are parameters of the model.
- Dates.AddDays: states only that a successful shift lands `n` days later, not when the shift leaves the supported calendar range.
- B2BPartner.ProgressPct: the clamp to [0, 100] is modelled, but inside a tier it never acts; the lemma states the unclamped share.
- The company-dependent storage of a partner's discount is modelled as a function `discountOf(partner, company)`, and the hook works on the partners as seen in one company.
- The `domain` on a pricelist's discount field is a view restriction, not an invariant of stored data.

## Findings

| source | as written | input that shows it | evidently intended | confidence | as-written member | corrected member |
|---|---|---|---|---|---|---|
| purchase_request/models/purchase_request.py:358-373 | the weekly quota is checked once, before a batch `create` stores all its requests | a requester (not administrator) with limit 1 and no request this week creates two requests in one call: both are stored and the week's count becomes 2 | no batch takes the user's weekly count above the limit | not executed; high that the count can exceed the limit, medium that the authors meant batches to be limited | PurchaseRequest.BatchExceedsQuota | PurchaseRequest.Create |
| pct_discount/hooks.py:4-6 | the `REG` discount is searched without a company filter, so the hook may write another company's category | the only `REG` discount belongs to company 2; the hook runs in company 1 and gives a customer that category, while `_default_discount` (discount.py:42-48) finds none for company 1 | the category of the company the hook runs in, as `_default_discount` chooses it | not executed; medium | DiscountHooks.HookAsWrittenCrossesCompanies | DiscountHooks.SetDefaultPartnerDiscount |
