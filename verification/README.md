# Verified model of the expense, subscription, feed and friend logic

This project models the parts of a trip-expense backend whose correctness is not
visible from one function body, and proves what they are for.

**Money.** `Ledger` holds the expenses and settlements the engine reads and the order
of its checks. `NetBalances`, `NorthWestFill`, `PairLists`, `PairwiseDebts` and
`Simplify` are the engine's loops as methods, each proved against a closed form that mentions no loop and
no row order: a user's net is a sum; `u`'s debt to `v` in one expense is the overlap of
`u`'s stretch of shares with `v`'s stretch of contributions when both are laid end to end
in id order. On these forms rest the results that relate the algorithms: the pairwise view
reconciles with the aggregate one (`Reconciliation`), a fill has few cells (`FillCells`),
the greedy settle-up moves the least possible and is short (`SettleUp`) and takes the largest
amounts first (`PlanOrder`), recording either plan
settles the trip (`RoundTrip`), row order never matters (`Determinism`), and double-precision
numbers are exact throughout (`ExactRange`). `Splits` models the four calculators, `TripLedger`
everything that can enter a ledger, `ReadSkew` what a request sees that reads it in two statements,
and `Dashboard` the aggregates over many trips and the guard of account deletion.

**Subscriptions.** `EntitlementRows` gives every transaction as a function between committed
states; `EntitlementStore`, `VerificationFlow`, `Rtdn` and `Sweep` are the services and the
repository as mutable state, each method tied to those functions. `Ownership`, `PremiumCache`,
`Register` and `Migration` prove what all schedules keep, for any answers of Google, fresh or stale,
and `Traffic` that verifies, deliveries and sweeps in any mix are such schedules. `Interleaving`
splits transactions into lock acquisitions, reads, work and commits between which other jobs step;
`Locality` is why the locks make that serial. On it rest `Acknowledgement`, how often Google is
told, `Overlap`, what it does to the premium flag, and `FetchOrder`, what it does to an answer
fetched before another.

**Feed and friends.** `ActivityFeed` is keyset pagination under insertions; `FriendRequests` is
the request and friendship state machine, `FriendOutcomes` what each call comes to in terms of the
rows, and `FriendOverlap` its calls when they overlap.

## Reading the model

- Ids, tokens and message ids are natural numbers: their rank in the order in which the source
  compares them (`localeCompare` for user ids, string order for tokens). Only equality and order
  are ever used. There is one purchase row per token and none is ever deleted, so a purchase's
  uuid is represented by the token it was created for.
- `Portion` stands for both a payment (`contributionMinor`) and a participant row (`shareMinor`).
- Amounts are integers, as the request schema demands; `ExactRange` says when that is the truth
  about the program's numbers.
- Google is an arbitrary oracle: its answers are parameters of the operations. One clock reading
  serves a whole transaction, and an entitling decision is taken at or before it. In a schedule
  (`EntitlementRows.Serial`) each transaction has its own reading and readings need not ascend; a
  `Run` has one clock that only ticks move.
- Thrown errors are values: `Ledger.Fault`, `VerificationFlow.FlowResult`, `Rtdn.Outcome`,
  `TripLedger.Outcome`, `FriendRequests.Outcome`.
- A schedule skips an operation that cannot occur in its state.
- In `Interleaving` a transaction takes its locks one by one, then reads the purchases of its
  tokens and the rows they source, then works (reads its clock and its user's rows, or calls
  Google), then commits what it computed from what it read. It may fail at any point.
- The cursor codec uses the platform's base64 and date printing as parameters that invert
  (`ActivityFeed.Faithful`).

## Where the code and its comments disagree

- The comment of `simplify` promises at most max(creditors, debtors) transfers. Credits 3, 3
  against debts 2, 2, 2 need four (`SettleUp.MaxBoundFails`); `SettleUp.MaxBoundIff` says when
  the promise holds. The bound in the file header is the right one (`SettleUp.PlanBound`).
- The comment of `computePairwiseDebts` promises an order by (fromUserId, toUserId). The loops
  order by the unordered pair (`ListingOrder.FromOrderFails`); `ListingOrder.FromOrderIff` says
  exactly when the two orders agree.
- The parity promised for `computePairwiseDebts` needs non-negative shares, which the engine does
  not check: `Reconciliation.ReconcilesIffNonNegative`. Every ledger the services can write
  has them (`TripLedger.ReachableLedger`).
- "The successor becomes the single active entitlement" holds only when the successor was not on
  record before (`Migration.PredecessorClosedIffNew`).
- "Acknowledge exactly once" is defeated by a reconcile that writes an older answer over the
  stored flag, which two calls with the same answer reach (`Acknowledgement.SameAnswerTwice`), and by
  a transaction that fails after Google accepted. `Acknowledgement.FlagAccounts` is the exact count,
  `Acknowledgement.AtMostOnce` the exact condition.
- REVOKED reads as terminal; a later entitling answer grants again (`Register.RegrantAfterRevoke`).
- The premium cache is kept coherent by refreshing it inside each transaction; transactions of one
  user on different tokens take different locks. One after the other they keep it right
  (`PremiumCache.RunCoheres`); overlapping, exactly when each saw what matters
  (`Overlap.CommitCoheresIff`). `Overlap.OverlapIff` says when the flag ends falsely off or on, and
  `Overlap.ClosingMissesGrant` gives a schedule from any tables, with its exact condition.
- "The latest fetch always wins" holds of notifications handled one after the other
  (`Rtdn.LatestFetchWins`). The fetch precedes the lock, so an older answer can commit last and stay
  (`FetchOrder.OlderFetchWins`); `FetchOrder.NewestFetchWinsIff` says exactly when the newest wins.
- Friend requests are read in up to three statements and written in another. `FriendOverlap.OverlapIff`
  says exactly when two overlapping calls break the invariants, and `FriendOverlap.InterleavedIff` that
  every interleaving of two calls is covered: crossing sends, a request accepted between the reads of
  a send (`FriendOverlap.AcceptBetweenReads`), and a rejection or cancellation written after an
  acceptance it did not see.
- Balances and dashboard read expenses before settlements so as "never" to see a settlement without
  its preceding expense. An expense and a settlement created between the two readings are seen just
  so (`ReadSkew.OrphanShown`); `ReadSkew.OrphanIff` and `ReadSkew.SnapshotIff` are the exact
  conditions, and the other order would keep the promise (`ReadSkew.SettlementsFirstSeesNone`).
- The dashboard lists undeleted trips, a hundred at most; the guard of account deletion looks at every
  membership. A deleted trip with a balance leaves a clear dashboard and an account that cannot be
  deleted (`Dashboard.ClearButRefused`); `Dashboard.DeletableIff` is the exact relation.

## Model

| member | source | states |
|---|---|---|
| Ledger.FaultlessIffValid | src/modules/expense/engine/balance-engine.ts:91-121 | the engine's ordered checks reject exactly the books with an unpaid expense, a non-positive or repeated contribution, a side that does not sum to the amount, or a non-positive or self settlement |
| Ledger.PaymentsFaultMeans | src/modules/expense/engine/balance-engine.ts:95-107 | the first contribution that is not positive, or by someone seen before, gives the fault |
| Ledger.ExpenseFaultMeans | src/modules/expense/engine/balance-engine.ts:91-121 | an expense without payments, with a bad contribution, with contributions or with shares that miss the amount is reported as just that, in this order |
| Ledger.FirstExpenseFault | src/modules/expense/engine/balance-engine.ts:210-288 | the first faulty expense is reported before any later one and any settlement |
| Ledger.FirstSettlementFault | src/modules/expense/engine/balance-engine.ts:262-274 | past faultless expenses, the first settlement of nothing, or to oneself, is reported |
| PairwiseDebts.AssertExpenseIntegrity | src/modules/expense/engine/balance-engine.ts:91-121 | the loop with the growing set reports the first fault of an expense, the same one the aggregate path would report |
| NetBalances.ComputeNetBalances | src/modules/expense/engine/balance-engine.ts:210-288 | fails with the book's first fault, else lists every member in order, then every former party once in id order, each with paid minus owed plus settled out minus settled in |
| NetBalances.PostExpense | src/modules/expense/engine/balance-engine.ts:218-261 | posting one expense moves every user's running net by their contribution less their share, or reports its fault |
| NetBalances.PostSettlements | src/modules/expense/engine/balance-engine.ts:262-274 | completed settlements raise the payer and lower the receiver; the first bad one is reported |
| NetBalances.ReportSumsToZero | src/modules/expense/engine/balance-engine.ts:8-14 | no minor unit is lost: the reported nets of any accepted book sum to zero, given distinct members |
| NorthWestFill.FillRow | src/modules/expense/engine/balance-engine.ts:349-358 | one row of the fill adds to each pair the overlap of the row's stretch with the payer's, and leaves in every column what lies beyond the row |
| NorthWestFill.TakenIsOverlap | src/modules/expense/engine/balance-engine.ts:341-358 | what the columns give a row adds up to the overlap of the two stretches laid out in id order |
| NorthWestFill.FillExpense | src/modules/expense/engine/balance-engine.ts:336-359 | the sorted, column-consuming fill of one expense enters exactly the overlap closed form for every pair and nothing on the diagonal |
| NorthWestFill.LayoutPermuted | src/modules/expense/engine/balance-engine.ts:339-342 | the stretches do not depend on the order of the rows |
| FillCells.FewCells | src/modules/expense/engine/balance-engine.ts:339-358 | an accepted expense with non-negative shares yields at most payers plus participants minus one debts |
| FillCells.Staircase | src/modules/expense/engine/balance-engine.ts:339-358 | the fill goes down both sides in id order: a larger debtor id never owes a smaller payer id than one before |
| PairwiseDebts.ComputePairwiseDebts | src/modules/expense/engine/balance-engine.ts:319-398 | fails with the same fault as the aggregate path, else lists one transfer for exactly the pairs with a non-zero net debt, in pair order |
| PairwiseDebts.CreditSettlements | src/modules/expense/engine/balance-engine.ts:361-374 | a settlement becomes a debt of its receiver to its payer |
| PairLists.PairListMembers | src/modules/expense/engine/balance-engine.ts:376-397 | the nested loops over sorted ids produce every positive net debt once, ordered by smaller then larger id |
| PairwiseDebts.PairwiseUnique | src/modules/expense/engine/balance-engine.ts:316-317 | a book has one pairwise list only |
| PairwiseDebts.OnePerPair | src/modules/expense/engine/balance-engine.ts:316-317 | no self-pair and at most one transfer per unordered pair |
| ListingOrder.FromOrderIff | src/modules/expense/engine/balance-engine.ts:316-317 | the list is in the documented (from, to) order if and only if no debt from a larger to a smaller id crosses another debt |
| ListingOrder.FromOrderFails | src/modules/expense/engine/balance-engine.ts:316-317 | a valid ledger together with its pairwise list, which is not in the documented order |
| Reconciliation.MarginsConsumed | src/modules/expense/engine/balance-engine.ts:301-307 | in each expense a participant's debts sum to their share and a payer's credits to their contribution |
| Reconciliation.PairwiseReconciles | src/modules/expense/engine/balance-engine.ts:310-314 | for every user, pairwise paid minus pairwise received is the negation of the aggregate net |
| Reconciliation.ReconcilesIffNonNegative | src/modules/expense/engine/balance-engine.ts:310-314 | an accepted expense reconciles for every user if and only if none of its shares is negative |
| Simplify.SimplifyDebts | src/modules/expense/engine/balance-engine.ts:409-446 | the two-pointer walk returns the greedy plan over creditors and debtors sorted by amount, then id |
| PlanOrder.PlanInOrder | src/modules/expense/engine/balance-engine.ts:413-423 | for distinct users, along the plan the payers' debts and the receivers' credits never rise, and among equal ones the ids ascend |
| Simplify.GreedyMoves | src/modules/expense/engine/balance-engine.ts:425-444 | the walk pays every debtor out and every creditor in by exactly their amounts |
| Simplify.GreedyDirection | src/modules/expense/engine/balance-engine.ts:425-444 | every transfer is positive and runs from a debtor to a creditor |
| SettleUp.PlanSettles | src/modules/expense/engine/balance-engine.ts:400-446 | on balances that sum to zero the plan clears every balance with strictly positive transfers |
| SettleUp.NoPlanMovesLess | src/modules/expense/engine/balance-engine.ts:400-446 | no settling plan whatsoever moves a smaller total |
| SettleUp.PlanBound | src/modules/expense/engine/balance-engine.ts:12 | at most creditors plus debtors minus one transfers |
| SettleUp.PlanIsShort | src/modules/expense/engine/balance-engine.ts:400-446 | the plan has fewer than twice as many transfers as any settling plan |
| SettleUp.PlanCount | src/modules/expense/engine/balance-engine.ts:425-444 | the number of transfers is the number of distinct prefix sums of the two sorted sides |
| SettleUp.MaxBoundIff | src/modules/expense/engine/balance-engine.ts:407 | the documented bound max(creditors, debtors) holds exactly when one side's prefix sums include the other's |
| SettleUp.MaxBoundFails | src/modules/expense/engine/balance-engine.ts:407 | balances summing to zero that need more transfers than documented |
| RoundTrip.SimplifiedRoundTrip | src/modules/expense/engine/balance-engine.ts:262-274 | recording the plan as completed settlements keeps the book accepted, makes every net zero and the next plan empty |
| RoundTrip.PairwiseRoundTrip | src/modules/expense/engine/balance-engine.ts:361-397 | recording the pairwise list keeps the book accepted and empties the recomputed list, and with non-negative shares every net |
| Determinism.SimplifyIgnoresOrder | src/modules/expense/engine/balance-engine.ts:13 | the identical plan for any reordering of the balances |
| Determinism.PairwiseIgnoresOrder | src/modules/expense/engine/balance-engine.ts:339-342 | the identical list for any reordering of expenses, of the rows inside them and of settlements |
| Determinism.AcceptanceIgnoresOrder | src/modules/expense/engine/balance-engine.ts:91-121 | whether a book is accepted does not depend on row order |
| ExactRange.PostingIsExact | src/modules/expense/engine/balance-engine.ts:218-261 | with amounts capped and at most 90,071 records, every running net and running sum while an expense is posted stays within 2^53 - 1 |
| ExactRange.NetIsExact | src/modules/expense/engine/balance-engine.ts:262-274 | so does every net after any number of settlements |
| ExactRange.FillIsExact | src/modules/expense/engine/balance-engine.ts:336-359 | so does the debt table, entry by entry, at every moment of the fill |
| ExactRange.MarginsAreExact | src/modules/expense/engine/balance-engine.ts:341-358 | what a column still offers and what a row still asks for stay between 0 and the largest amount |
| ExactRange.PairwiseIsExact | src/modules/expense/engine/balance-engine.ts:361-397 | so do every debt after any number of settlements and every netted debt, whether or not there are expenses |
| ExactRange.PlanIsExact | src/modules/expense/engine/balance-engine.ts:409-446 | so do the reported nets, all remaining amounts after any number of steps of the walk, and the transfers |
| ExactRange.StepsLeadOn | src/modules/expense/engine/balance-engine.ts:425-444 | what is left of both sides after some steps of the walk determines exactly the rest of the plan |
| ExactRange.BoundIsTight | src/database/constants.ts:34 | the largest expense repeated is exact up to 90,071 times and not beyond |
| Splits.EqualAddsUpIff | src/modules/expense/engine/balance-engine.ts:140-161 | an equal split sums to the amount if and only if the payer is listed once or nothing is left over |
| Splits.EqualShareAt | src/modules/expense/engine/balance-engine.ts:155-160 | everyone gets the floor of an equal part and the payer alone carries the remainder |
| Splits.SumFigures | src/modules/expense/engine/calculators/percent.calculator.ts:77-101 | the validation loop yields the total exactly when every figure is present and in range |
| Splits.ExtraFits | src/modules/expense/engine/calculators/percent.calculator.ts:120-123 | the undistributed surplus lies between 0 and one less than the number of participants, and equals the fractional parts |
| Splits.LargestRemainderAddsUp | src/modules/expense/engine/calculators/shares.calculator.ts:76-121 | the shares of distinct participants sum to the amount |
| Splits.QuotaRule | src/modules/expense/engine/calculators/percent.calculator.ts:104-149 | every share is less than one minor unit from the exact proportion |
| Splits.NoEnvy | src/modules/expense/engine/calculators/percent.calculator.ts:125-139 | a larger figure never gets a smaller share |
| Splits.LargestRemainderIgnoresOrder | src/modules/expense/engine/calculators/percent.calculator.ts:54-59 | each participant's share is the same whatever order the request lists them in |
| Splits.CalculateExact | src/modules/expense/engine/calculators/exact.calculator.ts:30-76 | the running sum accepts exactly the complete, non-negative lists that sum to the amount |
| Splits.Calculate | src/modules/expense/engine/split-registry.ts:69-76 | dispatch to the calculator of the split type |
| Splits.ComputeAcceptsIff | src/modules/expense/engine/split-registry.ts:58-76 | each split type accepts exactly the figures in its range that add up to its total |
| Splits.ComputeFigures | src/modules/expense/engine/split-registry.ts:58-76 | EXACT gives each participant their figure, PERCENT and SHARES their proportion within one minor unit, EQUAL the same to all and the remainder to the payer |
| Splits.ExtraUnitsRanked | src/modules/expense/engine/calculators/percent.calculator.ts:125-139 | the units left by rounding down go to the largest fractional parts, among equal ones to the smaller id |
| Splits.ComputeIsSound | src/modules/expense/engine/split-registry.ts:58-76 | whatever the type, the shares are non-negative, keep the participants' ids and sum to the amount |
| TripLedger.DuplicateIndexes | src/modules/expense/validation/index.ts:100-132 | the refinement reports exactly the indexes whose id occurred before, none if and only if the ids are distinct |
| TripLedger.ValidateBody | src/modules/expense/validation/index.ts:189-430 | a body passes exactly when its amounts and figures are in range, its lists non-empty and distinct, and its payments and figures add up |
| TripLedger.DistinctStay | src/modules/expense/service/expense.service.ts:415-420 | the service's deduplication changes nothing on a request the schema let through |
| TripLedger.TripStore.CreateExpense | src/modules/expense/service/expense.service.ts:50-166 | validation, membership, payer and participant guards, the calculator and the write-time sum guard, in this order, append one row or leave the trip unchanged |
| TripLedger.CreateOutcome | src/modules/expense/service/expense.service.ts:50-140 | in the request's own figures: malformed or disabled is bad, an outsider's is forbidden, and otherwise it is accepted exactly when it names somebody, all members, with every payer among them |
| TripLedger.CreateRecords | src/modules/expense/service/expense.service.ts:373-421 | an accepted request appends one live row with the requester as creator, the request's amount, its payments or the one payer's of the whole, and the participants it names, in order, or all members |
| TripLedger.CreateShares | src/modules/expense/service/expense.service.ts:117-166 | and each recorded share is the one its split type promises for the figure in the request |
| TripLedger.ExecuteExtends | src/modules/settlement/service/settlement.service.ts:34-66 | a request of someone outside the trip changes nothing, and a settlement enters the ledger only between two different members |
| TripLedger.HistoryExtends | src/modules/expense/service/expense.service.ts:232-244 | over any history an expense stays as recorded until its own creator deletes it, and then only its flag changes; settlements are only ever added, each by a request for it |
| TripLedger.CreateKeepsOk | src/modules/expense/service/expense.service.ts:72-166 | every accepted creation leaves a well-formed trip, and the write-time guard never fires |
| TripLedger.AcceptedIff | src/modules/expense/service/expense.service.ts:55-126 | on a well-formed trip an expense is accepted if and only if its body passes the schema, its type is enabled and everyone named is placed: the calculators never refuse what the schema let through |
| TripLedger.ReachableLedger | src/modules/expense/service/expense.service.ts:255-332 | after any sequence of creations, deletions, settlements and membership changes both engine functions accept the ledger, nets sum to zero, the plan settles them and the pairwise view reconciles |
| TripLedger.DeletionTakesBack | src/modules/expense/service/expense.service.ts:232-244 | a deletion takes back from every net exactly what the expense had put there |
| TripLedger.DeletionOutcome | src/modules/expense/service/expense.service.ts:232-244 | only a live expense is deleted, only by its creator while a member; every refusal has its error and changes nothing |
| TripLedger.DeleteUndoesCreate | src/modules/expense/repository/expense.repository.ts:124-165 | creating an expense and deleting it again restores the ledger the engine reads |
| TripLedger.SettlementMoves | src/modules/settlement/service/settlement.service.ts:34-66 | an accepted settlement moves its amount between the two nets it names and no other |
| TripLedger.SettlementOutcome | src/modules/settlement/service/settlement.service.ts:34-66 | accepted exactly between two different members, in range, asked for by a member; then appended as asked |
| TripLedger.TripStore.Balances | src/modules/expense/service/expense.service.ts:255-332 | the summary is totals, nets, pairwise list and plan of one ledger, and on a well-formed trip the call never throws |
| TripLedger.SummaryShows | src/modules/expense/service/expense.service.ts:255-332 | it totals live expenses and settlements, explains each net by paid, owed and settled, and shows a plan, which clears the nets, only to those who asked |
| TripLedger.TotalsByUser | src/modules/expense/service/expense.service.ts:276-294 | the loop over a map yields every user's paid and owed totals |
| TripLedger.TotalsExplainNet | src/modules/expense/engine/balance-engine.ts:163-172 | paid minus owed totals account for the expense part of the net |
| ReadSkew.ReadingIsOk | src/modules/expense/service/expense.service.ts:264-271 | however many commands commit between the two readings of a balances request, the engine accepts the ledger, its nets sum to zero, its plan settles them and the pairwise view reconciles |
| ReadSkew.SnapshotIff | src/modules/expense/service/expense.service.ts:264-271 | the two readings show one state of the trip exactly when no expense was created or deleted and then a settlement recorded between them |
| ReadSkew.OrphanIff | src/modules/dashboard/service/dashboard.service.ts:40-44 | a settlement is seen without an expense recorded before it exactly when an expense and then a settlement were created between the readings |
| ReadSkew.SettlementsFirstSeesNone | src/modules/dashboard/service/dashboard.service.ts:40-44 | reading the settlements before the expenses never shows one |
| ReadSkew.OrphanShown | src/modules/dashboard/service/dashboard.service.ts:40-44 | a history of two commands, for any two members and any amount, in which the request sees the repayment and not the expense |
| Dashboard.UserNetIsNet | src/modules/expense/engine/balance-engine.ts:163-189 | the scalar form from four sums is the user's entry of the full matrix |
| Dashboard.TripNetMeans | src/modules/expense/repository/expense.repository.ts:230-256 | a user's net in a trip counts its live expenses and completed settlements, and nothing of another trip |
| Dashboard.OverallMeans | src/modules/dashboard/service/dashboard.service.ts:48-62 | owed sums the positive nets, owing the negative ones, and their difference is the overall net |
| Dashboard.ExpenseTotalsByTrip | src/modules/expense/repository/expense.repository.ts:230-256 | one pass over the interleaved rows of many trips gives each trip the viewer's totals over that trip's live expenses |
| Dashboard.SettlementTotalsByTrip | src/modules/settlement/repository/settlement.repository.ts:134-159 | the same for completed settlements sent and received |
| Dashboard.GetDashboard | src/modules/dashboard/service/dashboard.service.ts:31-71 | every trip shows the viewer's net in that trip's full ledger; the overall net is their sum, split into owed and owing |
| Dashboard.ListingMeans | src/modules/trip/repository/trip.repository.ts:179-192 | at most a hundred undeleted trips of the user, last updated first, none left out that was updated later |
| Dashboard.DashboardMatchesBalances | src/modules/dashboard/service/dashboard.service.ts:14-22 | the dashboard's number is the viewer's balance in whatever the balances endpoint reports for the trip |
| Dashboard.HasOutstandingBalance | src/modules/auth/repository/user.repository.ts:113-153 | true exactly when some membership trip leaves the user a non-zero net |
| Dashboard.DeletableIff | src/modules/auth/repository/user.repository.ts:101-153 | no membership trip has a balance if and only if the dashboard shows nothing owed and nothing owing and every membership trip it does not list has a zero net |
| Dashboard.UnlistedIsDeleted | src/modules/trip/repository/trip.repository.ts:179-192 | with at most 100 undeleted trips, what the dashboard does not list of a user's membership trips is exactly the deleted ones |
| Dashboard.DeletedTripBlocks | src/modules/trip/service/trip.service.ts:123-127 | when the one trip in which a user has a balance is deleted, their dashboard is clear and the deletion of their account is refused |
| Dashboard.ClearButRefused | src/modules/auth/repository/user.repository.ts:113-122 | such a state, for any two users: one expense paid for the other in a trip that is then deleted |
| EntitlementStore.Store.FurthestExpiry | src/modules/entitlement/service/entitlement.service.ts:258-265 | null when some active row is perpetual, else the furthest expiry |
| EntitlementStore.Store.RefreshPremiumCache | src/modules/entitlement/service/entitlement.service.ts:250-269 | the cached pair becomes the snapshot of the user's live rows and nothing else changes |
| EntitlementStore.Store.GrantWithinTx | src/modules/entitlement/service/entitlement.service.ts:97-129 | one row per source key is written with its derived status, then the owner's cache is refreshed |
| Ownership.GrantMeans | src/modules/entitlement/service/entitlement.service.ts:53-56 | a granted row is active exactly when it never expires or expires after its start |
| Ownership.LiveMeans | src/modules/entitlement/repository/entitlement.repository.ts:353-371 | a row is live while active with no expiry or one ahead |
| EntitlementStore.Store.CloseBySourceWithinTx | src/modules/entitlement/service/entitlement.service.ts:198-237 | only the named row, and only if active, is closed |
| EntitlementStore.Store.ReconcileInTx | src/modules/entitlement/service/verification.service.ts:281-434 | the row-by-row transaction leaves exactly the state of the transaction function, or the old one when refused |
| EntitlementStore.Store.AcknowledgeIfNeeded | src/modules/entitlement/service/verification.service.ts:463-500 | Google is asked only for an unacknowledged token on record, and only its acceptance sets the flag |
| EntitlementStore.Store.RevokeByToken | src/modules/entitlement/service/verification.service.ts:509-547 | the token's purchase becomes REVOKED and only the entitlement it sources is closed |
| EntitlementStore.Store.ExpireByToken | src/modules/entitlement/service/verification.service.ts:553-588 | the same with EXPIRED |
| Ownership.StepKeepsInv | src/modules/entitlement/service/verification.service.ts:281-434 | every transaction keeps row ids distinct, every subscription row with its owner's purchase, and all owners |
| Ownership.SerialKeepsOwners | src/modules/entitlement/repository/entitlement.repository.ts:172-201 | in every schedule, for any answers of Google and any clock readings, no token changes hands or is lost |
| Ownership.ChainKeepsOwner | src/modules/entitlement/service/verification.service.ts:289-311 | a token first recorded while its linked predecessor is on record has the predecessor's owner, then and after every later schedule |
| Ownership.SerialOwners | src/modules/entitlement/service/verification.service.ts:297-311 | every owner that appears in a schedule was there before or was asserted by a client |
| PremiumCache.RunCoheres | src/modules/entitlement/service/entitlement.service.ts:241-269 | at the end of every run, and while time passes after it, the cached pair read with its own expiry is true exactly when a live row exists; the flag is never falsely off |
| Register.ApplyRefines | src/modules/entitlement/service/verification.service.ts:262-446 | every transaction does to the tables what overwriting one register per token does |
| Register.PremiumIffRegister | src/modules/entitlement/service/entitlement.service.ts:58-74 | premium by subscription is a register of the user holding a time still ahead |
| Register.PremiumIffLastTouch | src/modules/entitlement/service/verification.service.ts:241-247 | after any schedule a user is premium by subscription exactly when the last touch of some token they own was an entitling reconcile with expiry ahead |
| Register.RegrantAfterRevoke | src/modules/entitlement/service/verification.service.ts:340-351 | revocation is not terminal: a later entitling answer makes the owner premium again |
| Migration.MigrationMoves | src/modules/entitlement/service/verification.service.ts:289-390 | a new entitling token takes the entitlement over: the predecessor's row is closed and its purchase EXPIRED |
| Migration.PredecessorClosedIffNew | src/modules/entitlement/service/verification.service.ts:293-295 | an entitling reconcile closes the linked token's active entitlement if and only if its own token was not on record |
| Migration.SerialSpares | src/modules/entitlement/service/entitlement.service.ts:190-197 | no schedule of operations on other tokens alters a token's purchase or entitlement, except by introducing a new token that links to it; late verifies of recorded tokens never do, whatever they link to |
| Migration.ForcedEndings | src/modules/entitlement/service/verification.service.ts:509-588 | a revoke and an expiry leave their own terminal states, close the token's own entitlement and no other; repeating a revoke changes nothing |
| VerificationFlow.ReconcileFromGoogle | src/modules/entitlement/service/verification.service.ts:262-446 | fetch, transaction and acknowledge in sequence, with each error of the fetch or the transaction as its result |
| VerificationFlow.FlowOutcome | src/modules/entitlement/service/verification.service.ts:262-324 | each reply has its own outcome; an answer about a known product is stored for the token's owner, else its predecessor's, else the asserted identity, and refused to anyone else |
| VerificationFlow.ReconciledMeans | src/modules/entitlement/service/verification.service.ts:326-446 | a stored answer leaves its fields in the purchase, its row active exactly when Google says ACTIVE, CANCELED or IN_GRACE_PERIOD with an expiry ahead, expired otherwise, and the flag on exactly when reported or when the acknowledge that follows a grant was accepted |
| VerificationFlow.ReconciledElsewhere | src/modules/entitlement/service/verification.service.ts:364-403 | of other tokens at most the predecessor of a new entitling one is changed: its purchase becomes EXPIRED and its active row is expired |
| VerificationFlow.FlowIsSerial | src/modules/entitlement/service/verification.service.ts:262-446 | a reconcile that succeeds is its transactions in order; one that fails changes nothing |
| VerificationFlow.KnownTokenFlow | src/modules/entitlement/service/verification.service.ts:289-311 | for a token on record no ownership error is possible and no other purchase changes |
| VerificationFlow.VerifyNeverSteals | src/modules/entitlement/service/verification.service.ts:98-148 | a client's verify either changes nothing or leaves the token, and the chain it continues, with that client |
| VerificationFlow.VerifyRefusedIff | src/modules/entitlement/service/verification.service.ts:98-148 | a verify is refused exactly when the token, or the predecessor a new one continues, is someone else's |
| VerificationFlow.GuardRefusesWhatTxRefuses | src/modules/entitlement/service/verification.service.ts:108-123 | for a token on record the early guard refuses exactly what the transaction would refuse |
| Rtdn.ProcessPushMessage | src/modules/entitlement/service/rtdn.service.ts:74-187 | gate, decoding, routing and marker as one function of inbox and delivery |
| Rtdn.HandleOther | src/modules/entitlement/service/rtdn.service.ts:74-130 | a duplicate changes nothing, and a malformed, test or tokenless delivery is recorded as just that |
| Rtdn.HandleKnown | src/modules/entitlement/service/rtdn.service.ts:130-187 | about a recorded token: a revocation ends it REVOKED, a dropped one EXPIRED, a failing call is retried, an unknown product changes nothing, any other answer is reconciled for its owner |
| Rtdn.HandleUnknown | src/modules/entitlement/service/rtdn.service.ts:189-240 | about a token not on record: only an answer that continues a recorded one is processed, for that one's owner |
| Rtdn.RetryIffGoogleFails | src/modules/entitlement/service/rtdn.service.ts:62-66 | a delivery is to be retried exactly when it asks Google and Google fails; it then leaves no trace, and every other delivery is recorded |
| Rtdn.RedeliveryIsInert | src/modules/entitlement/service/rtdn.service.ts:58-60 | any schedule of duplicates and retries ends like one in which each message is delivered at most once |
| Rtdn.DeliverOwners | src/modules/entitlement/service/rtdn.service.ts:189-196 | notifications never bring in an owner |
| Rtdn.LatestFetchWins | src/modules/entitlement/service/rtdn.service.ts:61-63 | of deliveries handled one after the other, whatever came before and about whatever tokens, one about a recorded token that revokes it or whose fetch succeeds leaves that token's register as if it had been the only one |
| Rtdn.EarlierFetchesLeaveNothing | src/modules/entitlement/service/rtdn.service.ts:61-63 | when the earlier deliveries were about the same token, it leaves every register so |
| Sweep.RunSweep | src/modules/entitlement/service/reconciliation.service.ts:63-128 | the loop with continue and break equals the routed turns, with the counters of the summary |
| Sweep.TurnMeans | src/modules/entitlement/service/reconciliation.service.ts:83-128 | a known product is reconciled, a dropped token expired, a failing call or unknown product fails the item and changes nothing, and a configuration error ends the run |
| Sweep.SummaryMeans | src/modules/entitlement/service/reconciliation.service.ts:83-128 | up to the first configuration error each counter is the number of items of its kind: answered with a known product, dropped, failing |
| Sweep.BacklogMeans | src/modules/entitlement/repository/entitlement.repository.ts:225-244 | the backlog is the unacknowledged purchases in ACTIVE, CANCELED or IN_GRACE_PERIOD |
| Sweep.SummaryAccounts | src/modules/entitlement/service/reconciliation.service.ts:83-128 | the run is aborted exactly by a configuration error, and the counters account for every item before it |
| Sweep.AckSweepShrinksBacklog | src/modules/entitlement/repository/entitlement.repository.ts:225-244 | an acknowledgement sweep never enlarges the backlog, and run to its end leaves exactly the items that failed, whose acknowledge was refused, or that Google calls billable with a missing or past expiry |
| Sweep.FullSweepEmptiesBacklog | src/modules/entitlement/service/reconciliation.service.ts:48-57 | a batch covering the backlog empties it if and only if every item was recovered |
| Traffic.TrafficIsSerial | src/modules/entitlement/service/verification.service.ts:241-247 | any mix of verifies, deliveries, sweeps and other grants leaves the tables of an explicit schedule of transactions |
| Traffic.TrafficPremium | src/modules/entitlement/service/verification.service.ts:241-247 | after any such mix a user is premium by subscription exactly when the last touch of some token they own was an entitling reconcile with expiry ahead |
| Traffic.TrafficOwners | src/modules/entitlement/service/verification.service.ts:297-311 | in any such mix no token changes hands, and every new owner verified for themselves |
| Traffic.TrafficCoheres | src/modules/entitlement/service/entitlement.service.ts:241-269 | any such mix with ascending times is a run under one clock, and leaves the cached pair right then and later |
| Traffic.FromEmptyTables | src/modules/entitlement/service/verification.service.ts:297-311 | from empty tables only clients who verified own anything, and every cached pair is right |
| Locality.WritesAreLocal | src/modules/entitlement/service/verification.service.ts:281-434 | a transaction computed from the purchases of its locked tokens and the rows they source alone writes what it would have written having read every table |
| Locality.OtherViewsStay | src/modules/entitlement/service/verification.service.ts:281-434 | a transaction leaves what a transaction on other tokens has read as it was |
| Interleaving.CriticalSectionsDisjoint | src/modules/entitlement/repository/entitlement.repository.ts:108-121 | in every interleaving two transactions past their locks share no token, and what each has read of its tokens is still what the tables hold |
| Interleaving.CommitIsStep | src/modules/entitlement/service/verification.service.ts:281-434 | what a transaction commits, computed from an earlier view, is what it would write in one step at its commit |
| Interleaving.NoDeadlock | src/modules/entitlement/service/verification.service.ts:282-288 | in every reachable state with an unfinished transaction some transaction can advance |
| Interleaving.PlayIsSerial | src/modules/entitlement/service/verification.service.ts:281-289 | with other jobs stepping between the locks, the reads, the work and the commit of each transaction, purchases and rows are those of the serial schedule in commit order |
| Interleaving.InterleavedOwners | src/modules/entitlement/service/verification.service.ts:289-311 | in every interleaving no token changes hands, and every new owner was asserted by a client |
| Interleaving.InterleavedChain | src/modules/entitlement/service/verification.service.ts:289-311 | in every interleaving a token first recorded while its linked predecessor is on record has the predecessor's owner, then and later |
| Interleaving.InterleavedSpares | src/modules/entitlement/service/entitlement.service.ts:190-197 | in every interleaving transactions about other tokens leave a token's purchase and entitlement alone, unless they introduce a new token that links to it |
| Interleaving.InterleavedPremium | src/modules/entitlement/service/verification.service.ts:241-247 | in every interleaving premium by subscription is decided by the last touch, in commit order, of the tokens a user owns |
| FetchOrder.LastCommitDecides | src/modules/entitlement/service/verification.service.ts:267-289 | in every interleaving the register of a recorded token holds what its last committed fetch left, whenever that was fetched |
| FetchOrder.NewestFetchWinsIff | src/modules/entitlement/service/rtdn.service.ts:61-63 | the newest fetch wins exactly when it was the last to commit or the last one left the same |
| FetchOrder.OlderFetchWins | src/modules/entitlement/service/rtdn.service.ts:61-63 | from any tables, a schedule in which the later fetch commits first and the older answer stays |
| Interleaving.CommitsAreEnabled | src/modules/entitlement/service/verification.service.ts:274-281 | what commits is always a transaction that can occur then: its decision was taken before it |
| Acknowledgement.FlagAccounts | src/modules/entitlement/service/verification.service.ts:448-500 | for every token, what turned its flag on (Google's successes, answers that reported it, the start) equals what turned it off (an older answer stored over it, a failed transaction after the call) plus what is on or in flight |
| Acknowledgement.AtMostOnce | src/modules/entitlement/service/verification.service.ts:448-462 | a token is acknowledged at most once while nothing was forgotten or lost, not at all when its flag was on, and never before a grant committed; with the exact balance for the general case |
| Acknowledgement.SameAnswerTwice | src/modules/entitlement/repository/entitlement.repository.ts:172-201 | from any tables, two reconciles that fetched the same unacknowledged entitling answer, run one after the other, acknowledge twice |
| Overlap.CommitCoheresIff | src/modules/entitlement/service/entitlement.service.ts:241-269 | a commit keeps the cached pairs right exactly when the rows it saw say of the users it refreshes what the rows say after it |
| Overlap.PlayCoheres | src/modules/entitlement/service/entitlement.service.ts:241-269 | in every interleaving whose commits all saw what matters the cached pairs are right throughout |
| Overlap.UntouchedSawAll | src/modules/entitlement/service/entitlement.service.ts:241-269 | a transaction has seen all that matters when no row of the users it refreshes has been changed by another since it worked |
| Overlap.ApartCoheres | src/modules/entitlement/service/entitlement.service.ts:241-269 | every interleaving in which transactions of one user never overlap keeps the cached pairs right throughout, whatever transactions of other users do |
| Overlap.OverlapIff | src/modules/entitlement/service/entitlement.service.ts:241-269 | two overlapping transactions leave the pair falsely off exactly when the last to commit saw no live row and the first wrote one, falsely on exactly when the first closed all it saw live and wrote none |
| Overlap.ReachableOverlap | src/modules/entitlement/service/verification.service.ts:281-288 | from any tables any two transactions on different tokens reach such an overlap, with exactly these effects |
| Overlap.ClosingMissesGrant | src/modules/entitlement/service/verification.service.ts:333-403 | a closing that overlaps a grant of another token and commits last leaves the pair falsely off exactly while the grant has time left and no other row is live |
| ActivityFeed.TakesTheFirst | src/modules/activity/repository/activity.repository.ts:42-60 | the query returns the first matching rows of the (createdAt, id) descending order, all of them when they fit |
| ActivityFeed.CursorRoundTrip | src/modules/activity/service/activity.service.ts:215-234 | decoding an encoded cursor gives it back |
| ActivityFeed.ClampLimit | src/modules/activity/service/activity.service.ts:210-213 | every page asks for between one row and the maximum, so reading makes progress |
| ActivityFeed.LimitMeans | src/modules/activity/service/activity.service.ts:210-213 | an absent limit is twenty, any other its whole part, at least one and at most fifty |
| ActivityFeed.WholeLimit | src/modules/activity/service/activity.service.ts:210-213 | a whole limit between one and fifty is taken as asked |
| ActivityFeed.PageMeans | src/modules/activity/service/activity.service.ts:33-47 | a page has as many rows as asked for, or as match: the user's newest before the cursor's place, newest first; a next page is offered exactly when more match |
| ActivityFeed.CursorMeans | src/modules/activity/service/activity.service.ts:215-234 | the cursor names time and id apart by a bar; whatever does not decode so stands for the first page |
| ActivityFeed.FeedIsPage | src/modules/activity/service/activity.service.ts:33-47 | a page lists the first matching rows; its cursor names its last row, and none means none is left |
| ActivityFeed.EveryInitialRowOnce | src/modules/activity/service/activity.service.ts:33-47 | following nextCursor to its end meets every row present at the start exactly once, newest first, whatever is inserted in between and however limits vary |
| ActivityFeed.NewerRowsNeverIntrude | src/modules/activity/repository/activity.repository.ts:42-60 | when only newer rows arrive the reader gets exactly the initial feed and finishes within as many pages as it had rows |
| FriendRequests.AcceptKeepsInv | src/modules/friend/repository/friend.repository.ts:235-264 | accepting keeps all invariants and the canonical pair is never asked for one user |
| FriendRequests.RunKeepsInv | src/modules/friend/service/friend.service.ts:128-303 | after any calls: one request per direction, never pending both ways, friendships canonical and unique, each with an accepted and no pending request between its two users |
| FriendRequests.CallSucceedsIff | src/modules/friend/service/friend.service.ts:128-303 | a call succeeds exactly when the actor's own view offers it, and a call that fails changes nothing |
| FriendRequests.CallShows | src/modules/friend/service/friend.service.ts:128-303 | after a successful call its two users see the request, a friend, or nothing, according to the call |
| FriendRequests.OthersUnmoved | src/modules/friend/service/friend.service.ts:128-303 | a call changes nothing between any other two users |
| FriendRequests.Canonical | src/database/helpers.ts:45-55 | the same ordered pair for both orders of two distinct users |
| FriendRequests.DecorateUsers | src/modules/friend/service/friend.service.ts:87-124 | the two-query batched view equals the per-user lookup whatever order the rows arrive in |
| FriendRequests.ViewsAgree | src/modules/friend/service/friend.service.ts:87-124 | two users see the same relationship from opposite ends |
| FriendOutcomes.SendOutcome | src/modules/friend/service/friend.service.ts:128-199 | refused to oneself, a stranger, a friend and someone who asks already; otherwise the one row of the direction ends pending, new, as it is or opened again |
| FriendOutcomes.AcceptOutcome | src/modules/friend/repository/friend.repository.ts:235-264 | the recipient's pending request becomes ACCEPTED and the one row of the pair is added, smaller id first; each refusal has its error |
| FriendOutcomes.ClosingOutcome | src/modules/friend/service/friend.service.ts:228-289 | a rejection leaves DECLINED and only the recipient may, a cancellation CANCELLED and only the sender may, of a pending request |
| FriendOutcomes.RemoveOutcome | src/modules/friend/service/friend.service.ts:293-303 | the one row of the pair goes and requests stay |
| FriendOutcomes.ViewMeans | src/modules/friend/service/friend.service.ts:87-124 | a user sees a friend, else the request they sent, else the one sent to them, else nothing |
| FriendOverlap.DecideThenWrite | src/modules/friend/service/friend.service.ts:128-303 | reading and deciding, then writing, with nothing in between, is the atomic call |
| FriendOverlap.OverlapIff | src/modules/friend/service/friend.service.ts:128-303 | two calls, the second of which made some of its reads before the first wrote, keep the invariants exactly when they do not clash: crossing sends that both read both rows, a request accepted between the reads of a send, or one turned down or taken back unseen after it was accepted with no accepted one the other way |
| FriendOverlap.InterleavedIff | src/modules/friend/service/friend.service.ts:128-303 | however the reads and writes of two calls interleave, the state they leave is one of these, with its exact condition |
| FriendOverlap.AcceptBetweenReads | src/modules/friend/service/friend.service.ts:139-176 | from any state with a pending request, a send back that is refused before the accept and after it breaks the invariants when the accept falls between its first two reads |

## Left out

- HTTP routing, DTO mapping, string, uuid and date parsing, telemetry, alerts and audit payloads.
- The Google client: its answers and failures are parameters, and so is the clock.
- Entitlement history rows: their previous status is not per row, so no replay statement holds of them.
- Reward unlocks, group limits and entitlement types other than PREMIUM: no transaction here reads or writes them.
- The general `close` of an entitlement, which takes no token lock and which no service calls: it occurs in schedules and not in interleavings.
- Sweeps and deliveries as wholes in interleavings: their transactions interleave one by one.
- Overlaps of three or more friend calls: `FriendOverlap` is about two.
- Row locks otherwise, and collisions of advisory lock keys (distinct tokens are taken to have distinct keys).
- Two deliveries of one message racing past the duplicate gate: as transactions they are two reconciles, of which `FetchOrder.LastCommitDecides` says what they leave.
- Overlap.ReachableOverlap: leaves out the row lock a refresh takes on its user's row, which rules such a schedule out when both transactions refresh the user and the last one is a migration that refreshes twice.
- The selection of sweep batches beyond the acknowledgement backlog, and batch limits.
- Non-integer and non-finite amounts: excluded by the request schema.
- The engine's rejection of non-integer contributions, which integers cannot express.
- Membership and invitation rules of trips: any change of members that lists nobody twice is allowed.
- The order of expenses by `spentAt`: `Determinism` shows that it cannot matter.
- Friend search, contact matching, messages of requests, and deletion of users.
- TripLedger.TripStore.CreateExpense: keeps the accounting columns only; the split snapshot kept for audit is not modelled.
- Splits.Calculate: amounts are natural numbers, as the schema guarantees for every caller.
