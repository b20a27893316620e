# Katana back end: verified models

These Dafny modules model the protocols and money rules of the payment orchestrator's back end
(`apps/admin-dashboard/src/lib`) and prove what they keep. There is one module per component:

| module | component |
|---|---|
| `PayinConfirmation` | confirming a pay-in: the read, the duplicate check and the guarded write of many callers, interleaved with the expiry sweep |
| `PayinCreation` | creating an order once, directly or through the banker switch, between other callers' inserts |
| `BankerSettled` | which pay-ins lump-sum settlements cover: running sums against a walk through the queues |
| `Ledger`, `FifoSettlement` | double-entry posting, pay-in completion and settlement batches |
| `FifoApprovals`, `FifoAccounts` | which batches wait for a second person; what every ledger account holds |
| `EventChain` | the hash-chained log of an order and its verifier |
| `ChargebackRules`, `ChargebackStore` | versioned rules, the pick, and the chargeback state machine with its postings |
| `ChargebackDecisions` | what each chargeback call decides, and where every posting came from |
| `QuotaEngine`, `DtPurchases` | purchases, quota lots, reservations, consumption and refills; one lot and two shares a purchase |
| `QuotaDecisions` | which lot a reservation takes, what a confirmation opens, and the way of a purchase |
| `SettlementBuffer`, `BufferOverlaps` | a banker's security reserves, released oldest first, and their ledger; calls that overlap |
| `MidChain`, `MidDecisions` | the bank, TSP, banker and MID chain; who is placed and which MIDs are issued |
| `CircuitBreaker` | the per-provider circuit with exclusive probes |
| `CsvExport` | the CSV writer and a reader of RFC 4180 |
| `BankerSwitch` | pin, priority and weighted order of bankers |
| `CallbackState` | a callback URL's state from its checks |
| `Gstin` | the GSTIN check character |
| `Options`, `SetSums` | optional values; sums over finite sets |

Each component that changes tables is given twice: as functions on a state value, over which runs,
interleavings and invariants are stated, and as a class whose fields are the tables and whose methods are
proved to make exactly those changes. What the functions decide is then stated a second time, from the rows'
own fields and without the functions, and the two are proved to agree. One SQL statement, or one transaction, is one step, but for the calls
named under "Left out" that are taken whole. Money is whole
paise, so the source's half paisa of float slack is exact comparison.

Check everything with `dafny verify dfyconfig.toml`.

## Where the code does less than it seems to promise

Each of these has a lemma with the exact condition or a concrete case.

- `fifo-settlement.ts:36` says the batch net equals what the orders were credited. It is short of it by up
  to 2(n-1) paise (`BatchNetIsSumExactly`, `ShortfallBoundReached`).
- The ledger refuses a line of zero, so a pay-in below 52 paise (its MDR rounds to nothing) completes
  without ever being credited (`PayinPostsExactlyFrom52Paise`), and a batch whose net is zero or whose hold
  is negative is reported settled though nothing was posted (`ReportedSettledExactlyWhenPosted`,
  `HeldBatchReportedNotPosted`).
- "A UTR may settle exactly one order of its mode" (`katana-order.ts:790`) fails for test orders, which the
  unique index leaves out (`ReferenceUniqueExactlyWhenLive`).
- Coverage is not for good: an order created earlier but paid later uncovers newer ones
  (`PaidLateUncoversExactlyWhenOlder`).
- A chargeback matched to a pay-in without a banker reads as debited with nothing posted
  (`DebitPostedExactlyWithBanker`, `DebitedInNameOnly`).
- A person's approval is not held to what the pay-in is worth (`ApprovalOverdrawsExactly`, `ApprovalOverdraws`).
- The banker-cap exemption of `chain-store.ts:470` skips the check for MIDs elsewhere once a cap was lowered
  (`AcceptedMoveStrandsMidsExactly`, `LoweredCapStrandsAMid`).
- A banker put on a place between `endTspBank`'s count and its UPDATE ends up on an ended link
  (`EndedUnderABanker`; exactly when is `LinksConfirmedExactly`).
- Two confirmations of one purchase that both pass the status check open two lots of it
  (`TwoConfirmationsOpenTwoLots`; exactly when is `OneLotExactly`).
- Two settlements of one banker's buffer that overlap release the same money twice
  (`TwoSettlementsReleaseTwice`), unless both fit in the oldest reserve with money left
  (`BothListedFitExactly`); two fundings that overlap open at one closing (`TwoFundingsOpenAlike`). When the
  ledger tells the reserves is exact over all runs (`LedgerTellsTheReservesExactly`); calls one at a time are
  one case (`OutstandingIsFundedLessSettled`).
- A bar in an actor or a reason lets a hashed event be cut into other fields (`FieldsPinnedExactlyWhenClean`,
  `StoryPinnedExactlyWhenClean`).
- Two shares of a purchase that both end in half a paisa are both rounded up (`SplitAddsUpExactly`); the
  default 60/40 split never does.
- The GSTIN check character alone does not notice 0 and Z changing places, nor characters two apart
  (`SwapKeepsCheckExactly`, `SwapTwoApartKeepsCheck`).

## Model

| member | source | states |
|---|---|---|
| PayinConfirmation.StepKeepsInv | apps/admin-dashboard/src/lib/katana-order.ts:744-849 | one statement of any caller, one sweep or one new order keeps: calls know true things of the orders they saw, callbacks are the Confirmed calls one for one, each order's confirmation history fits its status, live references are unique; and statuses only climb |
| PayinConfirmation.RunKeepsInv | apps/admin-dashboard/src/lib/katana-order.ts:744-849 | the same over every interleaving of any number of callers |
| PayinConfirmation.StatusOnlyClimbs | apps/admin-dashboard/src/lib/katana-order.ts:774-788 | between any two points of a run a status stays or climbs PENDING, then EXPIRED or FAILED, then paid; a paid order keeps its status for ever |
| PayinConfirmation.AtMostTwoConfirmations | apps/admin-dashboard/src/lib/katana-order.ts:783-848 | at most two confirmations commit on an order; if two, the first was FAILED and the second SUCCESS |
| PayinConfirmation.ChangedMeansAlreadyPaid | apps/admin-dashboard/src/lib/katana-order.ts:836-842 | "order changed, retry" is answered only to a SUCCESS confirmation, and the very order it could not write is already paid, so one retry is enough |
| PayinConfirmation.LiveReferenceSettlesOneOrder | tools/migrations/vendorGateway/0035_payin_rrn_unique.sql:22-24 | in every run two paid live orders never carry the same bank reference |
| PayinConfirmation.ReferenceUniqueExactlyWhenLive | apps/admin-dashboard/src/lib/katana-order.ts:790-799 | "a reference settles one order of its mode" holds in every run exactly for live orders; two racing callers break it for test orders |
| PayinConfirmation.RaceSettlesTwo | apps/admin-dashboard/src/lib/katana-order.ts:794-834 | the interleaving that settles two test orders with one reference |
| PayinConfirmation.CallbacksAreConfirmedCalls | apps/admin-dashboard/src/lib/katana-order.ts:844-848 | a call is answered Confirmed exactly when it sent a callback, and never sends two |
| PayinConfirmation.FinalMeansFinal | apps/admin-dashboard/src/lib/katana-order.ts:777-788 | a payment is refused as final only by a legacy SUCCEEDED order, never by an expired or declined one; a failure only by an expired or paid one; a paid order a call was refused by is still as it was |
| PayinConfirmation.ReplayMeansDone | apps/admin-dashboard/src/lib/katana-order.ts:784-787 | an idempotent answer repeats the outcome asked for, and the call's own order is paid for good when that was a payment |
| PayinConfirmation.SixTurnsAnswer | apps/admin-dashboard/src/lib/katana-order.ts:836-842 | whatever runs in between, a call is answered after at most six of its own statements |
| PayinConfirmation.UninterruptedTurn | apps/admin-dashboard/src/lib/katana-order.ts:744-849 | every statement of a call nobody interrupts keeps to one atomic decision: the answer it would give at once on the orders it started from, with that order written and its callback sent exactly when Confirmed |
| PayinConfirmation.SweepKeepsRows | apps/admin-dashboard/src/app/api/v1/cron/status-sweep/route.ts:43-49 | the guarded sweep keeps confirmation histories, live references and the climb of statuses |
| PayinConfirmation.Desk.Read | apps/admin-dashboard/src/lib/katana-order.ts:745-788 | the look-up by id, or by reference with the merchant and the mode where they are given: 404 exactly when no order has those fields, a refusal to choose exactly when two different ones do, and of the only one the mode, a repeat, a conflict, or on |
| PayinConfirmation.Desk.Write | apps/admin-dashboard/src/lib/katana-order.ts:819-846 | the guarded UPDATE: commit and callback, retry once, or the unique index's refusal |
| PayinConfirmation.Desk.Turn | apps/admin-dashboard/src/lib/katana-order.ts:744-849 | the next statement of a call is the model's step, and keeps what calls know |
| PayinConfirmation.Desk.Confirm | apps/admin-dashboard/src/lib/katana-order.ts:744-849 | a call left alone: which of its answers it gives, read from the id, reference, merchant, mode, status and UTRs of the orders there; only when confirmed is anything written, and then the one order it names takes the status and reference and its callback goes out |
| PayinConfirmation.ConfirmedIsTheOrderAskedFor | apps/admin-dashboard/src/lib/katana-order.ts:745-775 | in every interleaving a call answered as confirmed sent its callback for an order of the id it asked for, or of the reference it asked for and its own merchant whenever it gave one, and of the evidence's mode |
| PayinConfirmation.LookUpExactly | apps/admin-dashboard/src/lib/katana-order.ts:745-788 | what the first SELECT and the final-status lock answer, case by case, from the orders' fields |
| PayinConfirmation.DuplicateExactly | apps/admin-dashboard/src/lib/katana-order.ts:790-799 | the look-up stops a payment exactly when another order of the mode carries its UTR |
| PayinConfirmation.WritesExactly | apps/admin-dashboard/src/lib/katana-order.ts:819-848 | the guarded UPDATE: an order not as it was seen sends the call back once and then gives up; a reference a paid live order holds is refused; otherwise status and reference are written and one callback is sent |
| PayinConfirmation.SweepsExactly | apps/admin-dashboard/src/app/api/v1/cron/status-sweep/route.ts:38-49 | only a pending order is swept, a live one only to EXPIRED, and nothing else of any order moves |
| PayinCreation.PayinTable.Insert | apps/admin-dashboard/src/lib/katana-order.ts:635-651 | INSERT on either unique key: the row is added, or some row holds one of its keys |
| PayinCreation.PayinTable.ReadExisting | apps/admin-dashboard/src/lib/katana-order.ts:673-684 | finds an order exactly when one has this signing key, txnid and mode |
| PayinCreation.PayinTable.CreateOnce | apps/admin-dashboard/src/lib/katana-order.ts:363-370 | whatever other callers insert between its statements: success is an order of the caller's own signing key, txnid and mode; at most one row is its own; a replay is answered before limits and accounts; TxnidInUse only when the banker's txnid is on another key's order |
| PayinCreation.PayinTable.CreateOnBanker | apps/admin-dashboard/src/lib/katana-order.ts:258-275 | the retry over accounts keeps all of that and ends; the answer is that of the first attempt whose account did not fail with another to go to and fewer than five excluded; a banker nothing stands against refuses only a taken txnid |
| PayinCreation.PayinTable.CreateAcrossBankers | apps/admin-dashboard/src/lib/katana-order.ts:212-256 | a replay is answered first from whichever banker took it; otherwise the order goes to the first banker not passed over; it is given up only when every banker was passed over, or one in its turn failed for good; a txnid is taken only where some banker has it on another key's order |
| PayinCreation.PayinTable.Create | apps/admin-dashboard/src/lib/katana-order.ts:184-256 | on both routes: a replay when the key is there, a taken txnid only where a banker has it, at most one new row; a routed new row is of the first banker not passed over, an unrouted one the caller's own; the first banker offered the order takes it as new when nothing stands against it and nobody else holds its keys |
| PayinCreation.PayinTable.CreateTwice | apps/admin-dashboard/src/lib/katana-order.ts:655-661 | two creates of one signing key, txnid and mode, one after the other with anything in between: both successes name one order, and the second created none |
| PayinCreation.OverlappingCreatesMakeOne | apps/admin-dashboard/src/lib/katana-order.ts:655-661 | two creates of one key that overlap in any way: both successes name one order, and at most one of them answers it as new |
| PayinCreation.SameKeySameOrder | tools/migrations/vendorGateway/0042_banker_switch.sql:66-67 | answers given at different times under one key name one order |
| BankerSettled.CoverageIsTwoPhaseWalk | apps/admin-dashboard/src/lib/banker-settled.ts:9-19 | the query's running sums cover an order exactly when the two-phase walk pays it: its channel's money oldest first until one does not fit, then the no-channel money over what is left |
| BankerSettled.RunningSumIsWalk | apps/admin-dashboard/src/lib/banker-settled.ts:135-150 | a running total within the money is exactly a place among the orders the walk pays |
| BankerSettled.ByChannelIsPhaseOne | apps/admin-dashboard/src/lib/banker-settled.ts:146-146 | by_channel is exactly "paid in phase one" |
| BankerSettled.QueueNeverOverspends | apps/admin-dashboard/src/lib/banker-settled.ts:144-156 | the orders a queue covers sum to no more than it received |
| BankerSettled.CoverageWithinSettled | apps/admin-dashboard/src/lib/banker-settled.ts:17-19 | what is covered of a banker's channel by its own settlements, and of a banker by no-channel ones, is within what was settled |
| BankerSettled.MoreSettledKeepsCover | apps/admin-dashboard/src/lib/banker-settled.ts:155-156 | totals that only grew uncover no order |
| BankerSettled.AddedSettlementKeepsCover | apps/admin-dashboard/src/lib/banker-settled.ts:57-76 | one more settlement anywhere in the list, to a channel or to none, never uncovers a covered order |
| BankerSettled.QueueGrows | apps/admin-dashboard/src/lib/banker-settled.ts:66-68 | it adds its amount to its own queue and to no other |
| BankerSettled.InsertKeepsCover | apps/admin-dashboard/src/lib/banker-settled.ts:127-128 | an order newest of its banker changes no other order's cover |
| BankerSettled.OlderOrderUncovers | apps/admin-dashboard/src/lib/banker-settled.ts:134-143 | an order paid late but created earlier uncovers a later one |
| BankerSettled.PaidLateUncoversExactlyWhenOlder | apps/admin-dashboard/src/lib/banker-settled.ts:127-153 | a newly paid order can never uncover another, whatever was settled, exactly when it is the newest of its banker |
| BankerSettled.QueueKeyInjective | apps/admin-dashboard/src/lib/banker-settled.ts:52-52 | two queues have one key only when they are one banker and channel, though codes may hold the separator |
| BankerSettled.Group | apps/admin-dashboard/src/lib/banker-settled.ts:58-62 | the grouping loop: every queue's settlements in order under its key, each key once |
| BankerSettled.BuildCoverage | apps/admin-dashboard/src/lib/banker-settled.ts:57-76 | the totals are the sums of each banker's and channel's settlements |
| BankerSettled.SettlementCovering | apps/admin-dashboard/src/lib/banker-settled.ts:165-177 | the loop returns the first settlement of the order's queue whose running total reaches its position, or none |
| BankerSettled.ReachedExactlyWithinTotal | apps/admin-dashboard/src/lib/banker-settled.ts:171-176 | some settlement of a queue reaches a position exactly when it is within the queue's total |
| BankerSettled.NamedExactlyWhenCovered | apps/admin-dashboard/src/lib/banker-settled.ts:161-177 | settlementCovering names a settlement exactly for the covered orders |
| BankerSettled.LaterOrderNeverEarlierSettlement | apps/admin-dashboard/src/lib/banker-settled.ts:161-164 | of two covered orders of one queue the later never gets an earlier settlement |
| Ledger.HasProblem | apps/admin-dashboard/src/lib/ledger.ts:89-100 | the loop refuses exactly the empty, the non-positive and the unbalanced journal |
| Ledger.Journal.Post | apps/admin-dashboard/src/lib/ledger.ts:119-140 | a refused journal and a repeated key change nothing; otherwise the lines are appended |
| Ledger.PostKeepsBalanced | apps/admin-dashboard/src/lib/ledger.ts:119-194 | posting keeps the whole book balanced |
| Ledger.PostsExactly | apps/admin-dashboard/src/lib/ledger.ts:85-140 | a journal posts exactly when it has lines, all positive, whose debits equal its credits, under a new key; otherwise the book stays as it is |
| FifoSettlement.BatchNetShortfall | apps/admin-dashboard/src/lib/fifo-settlement.ts:31-37 | a batch's net falls short of the sum of its orders' nets by exactly the whole paise the per-order floors dropped, between 0 and 2(n-1) |
| FifoSettlement.BatchNetIsSumExactly | apps/admin-dashboard/src/lib/fifo-settlement.ts:36-36 | the equality the comment claims holds exactly when the floors dropped less than one paisa of MDR and of reserve |
| FifoSettlement.ShortfallBoundReached | apps/admin-dashboard/src/lib/fifo-settlement.ts:33-36 | two pay-ins of 99 paise reach the bound |
| FifoSettlement.PayinPostsExactlyFrom52Paise | apps/admin-dashboard/src/lib/fifo.ts:357-375 | a pay-in's journal is accepted exactly from 52 paise |
| FifoSettlement.BatchPostsExactly | apps/admin-dashboard/src/lib/fifo-settlement.ts:94-106 | a batch's journal is accepted exactly when it pays something and holds nothing negative, for any GST and signed adjustment |
| FifoSettlement.BatchMoves | apps/admin-dashboard/src/lib/fifo-settlement.ts:96-106 | an accepted batch debits the merchant's payable by exactly its order net |
| FifoSettlement.StepKeeps | apps/admin-dashboard/src/lib/fifo-settlement.ts:26-134 | each completion, creation, finalisation and rejection keeps orders, tags, batches, postings and every merchant's payable in step |
| FifoSettlement.RunKeeps | apps/admin-dashboard/src/lib/fifo-settlement.ts:26-134 | the same over every run |
| FifoSettlement.Reachable | apps/admin-dashboard/src/lib/fifo-settlement.ts:26-134 | from nothing: MERCHANT_PAYABLE equals the credits of unsettled orders plus what each posted batch left behind |
| FifoSettlement.PayableCoversUnsettled | apps/admin-dashboard/src/lib/fifo-settlement.ts:31-37 | in every run a merchant's MERCHANT_PAYABLE is at least its unsettled nets, and above them by at most 2(n-1) paise for each posted batch of n orders (its completed pay-ins being of 52 paise or more) |
| FifoSettlement.PayinCoveredExactlyFrom52Paise | apps/admin-dashboard/src/lib/fifo.ts:359-381 | that condition is needed: one completed pay-in is covered exactly from 52 paise |
| FifoSettlement.LeftoverIsDropped | apps/admin-dashboard/src/lib/fifo-settlement.ts:36-36 | what a batch of pay-ins of 52 paise or more leaves in the payable is exactly what its orders' floors dropped |
| FifoSettlement.SettledOnce | apps/admin-dashboard/src/lib/fifo-settlement.ts:66-68 | an order is settled by exactly one posted batch, and by that one for ever, whatever is created, finalised or rejected afterwards |
| FifoSettlement.BooksBalance | apps/admin-dashboard/src/lib/fifo-settlement.ts:98-106 | debits equal credits in every reachable book |
| FifoSettlement.ReportedSettledExactlyWhenPosted | apps/admin-dashboard/src/lib/fifo-settlement.ts:79-80 | a batch reported settled has moved its money exactly when it pays something and its hold is not negative |
| FifoSettlement.HeldBatchReportedNotPosted | apps/admin-dashboard/src/lib/fifo-settlement.ts:79-80 | one pay-in of 100 paise with its net of 94 held: reported settled, nothing posted, and the order stays in the batch |
| FifoSettlement.BatchTakesOldest | apps/admin-dashboard/src/lib/fifo-settlement.ts:27-31 | a batch takes every order it may up to a thousand, and then the thousand completed first |
| FifoSettlement.UnsettledComplete | apps/admin-dashboard/src/lib/fifo-settlement.ts:27-31 | an order stands among the unsettled exactly when it is completed and may be taken |
| FifoSettlement.UnsettledTakeable | apps/admin-dashboard/src/lib/fifo-settlement.ts:27-31 | a batch takes only the merchant's completed, untagged orders, each once |
| FifoSettlement.Desk.Complete | apps/admin-dashboard/src/lib/fifo.ts:354-382 | the completion and its journal, which posts exactly from 52 paise |
| FifoSettlement.Desk.ComputeBatch | apps/admin-dashboard/src/lib/fifo-settlement.ts:26-38 | the loop's gross is the sum over the first thousand takeable orders, oldest completion first |
| FifoSettlement.Desk.CreateBatch | apps/admin-dashboard/src/lib/fifo-settlement.ts:44-81 | the whole new state of a creation and its answer |
| FifoSettlement.Desk.FinalizeBatch | apps/admin-dashboard/src/lib/fifo-settlement.ts:85-128 | the whole new state of a finalisation; not ok exactly when the batch is missing, rejected or refused by the ledger |
| FifoSettlement.Desk.RejectBatch | apps/admin-dashboard/src/lib/fifo-settlement.ts:131-134 | the batch is rejected and exactly its orders are released |
| FifoSettlement.Desk.MarkOrders | apps/admin-dashboard/src/lib/fifo-settlement.ts:123-125 | the loop settles exactly the batch's completed orders |
| FifoApprovals.CreateAnswersExactly | apps/admin-dashboard/src/lib/fifo-settlement.ts:44-80 | what a creation answers, from the orders' amounts: nothing to settle, less than nothing to pay, a person to release it exactly when it is adjusted or pays from the limit up, or reported settled |
| FifoApprovals.WaitingMovesNothing | apps/admin-dashboard/src/lib/fifo-settlement.ts:66-78 | a batch that waits tags its orders and moves no money and no status; a refused creation changes nothing |
| FifoApprovals.AdjustedNeedsAPerson | apps/admin-dashboard/src/lib/fifo-settlement.ts:54-80 | in every run the journal of an adjusted batch, or of one from the limit up, was posted by a finalisation of the waiting batch, never by its creation |
| FifoApprovals.BatchPays | apps/admin-dashboard/src/lib/fifo-settlement.ts:31-49 | what a batch pays: its gross less floored MDR, reserve, GST on the MDR and the hold, plus the adjustment |
| FifoApprovals.FinalizesExactly | apps/admin-dashboard/src/lib/fifo-settlement.ts:85-128 | a finalisation posts exactly a batch not rejected that pays something and holds nothing negative, and settles its completed orders |
| FifoApprovals.RejectsExactly | apps/admin-dashboard/src/lib/fifo-settlement.ts:131-134 | a rejection releases exactly its batch's orders and moves no money |
| FifoAccounts.PayinMovesEach | apps/admin-dashboard/src/lib/fifo.ts:357-375 | a pay-in's journal moves its amount out of the gateway's float, its net, reserve and MDR into their own accounts, and nothing else |
| FifoAccounts.BatchMovesEach | apps/admin-dashboard/src/lib/fifo-settlement.ts:96-106 | a batch's journal moves each account by its own part: payable, paid out, GST, hold, and the adjustment by its sign |
| FifoAccounts.AccountsHoldTheirParts | apps/admin-dashboard/src/lib/fifo-settlement.ts:85-128 | in every run each account, every gateway's float included, holds exactly its parts of the pay-ins credited and the batches posted |
| EventChain.RecordedLogsAccepted | apps/admin-dashboard/src/lib/fifo.ts:47-85 | any events recorded after any legacy rows make a log the verifier accepts |
| EventChain.SameHeadSameMaterials | apps/admin-dashboard/src/lib/fifo.ts:77-83 | two accepted logs of one order with one last hash have equal sequences of hashed texts |
| EventChain.FieldsPinnedExactlyWhenClean | apps/admin-dashboard/src/lib/fifo.ts:61-61 | a hashed text pins its event's fields exactly when none of them holds the separator |
| EventChain.TamperingDetected | apps/admin-dashboard/src/lib/fifo.ts:51-85 | with separator-free fields, no edit, removal, insertion or reordering keeps both acceptance and the last hash |
| EventChain.StoryPinnedExactlyWhenClean | apps/admin-dashboard/src/lib/fifo.ts:51-85 | the last hash of an accepted log pins what its events say exactly when no hashed field holds the separator |
| EventChain.SpellingIsGood | apps/admin-dashboard/src/lib/fifo.ts:61-62 | what is asked of the hash can be met |
| EventChain.RecordsExactly | apps/admin-dashboard/src/lib/fifo.ts:47-68 | recording appends one row: the event as given, its kind `system` when none was, the newest hash to chain on or GENESIS, and the hash of the text of all of that |
| EventChain.RecordAllAppends | apps/admin-dashboard/src/lib/fifo.ts:47-68 | recording events in turn keeps every row there was and adds one for each, saying what it says |
| EventChain.AcceptedExactly | apps/admin-dashboard/src/lib/fifo.ts:71-85 | a log is accepted exactly when every chained row names the chained row before it and hashes to its entry |
| EventChain.OrderLog.RecordEvent | apps/admin-dashboard/src/lib/fifo.ts:47-68 | appends one event chained on the newest hash |
| EventChain.OrderLog.Verify | apps/admin-dashboard/src/lib/fifo.ts:71-85 | the loop accepts exactly the well-chained logs and otherwise names the first event that breaks the chain |
| ChargebackRules.OneRulePerScope | apps/admin-dashboard/src/lib/chargebacks-store.ts:48-77 | any sequence of rule changes, committed at whatever instants, leaves at most one rule in force per scope at every instant, with strictly rising versions |
| ChargebackRules.StepKeepsSuccession | apps/admin-dashboard/src/lib/chargebacks-store.ts:48-77 | creating or ending a rule at any instant keeps the succession of each scope's rules |
| ChargebackRules.PickIsBest | apps/admin-dashboard/src/lib/chargeback-rules.ts:80-91 | a rule is picked exactly when one fits, and none that fits scores higher |
| ChargebackRules.PickIsUniqueMaximum | apps/admin-dashboard/src/lib/chargeback-rules.ts:75-91 | with one rule per scope there is no tie: every other fitting rule scores strictly less |
| ChargebackRules.EqualScoreSameScope | apps/admin-dashboard/src/lib/chargeback-rules.ts:89-90 | two fitting scopes of equal score are one scope |
| ChargebackRules.ScoreIsLexicographic | apps/admin-dashboard/src/lib/chargeback-rules.ts:75-79 | a higher score is more specific: banker, then merchant, then channel, then reason |
| ChargebackRules.RuleDebitWithinAmount | apps/admin-dashboard/src/lib/chargeback-rules.ts:96-98 | the debit is the nearest paisa of the ratio, within the amount, all of it at 100% |
| ChargebackRules.RuleBook.Create | apps/admin-dashboard/src/lib/chargebacks-store.ts:48-69 | the scope's rule in force ends now and the next version is appended; the succession is kept |
| ChargebackRules.RuleBook.EndRule | apps/admin-dashboard/src/lib/chargebacks-store.ts:72-77 | exactly the named rule in force ends now |
| ChargebackRules.PickedExactly | apps/admin-dashboard/src/lib/chargeback-rules.ts:80-91 | a rule is picked exactly when one is in force and states nothing the chargeback is not; none that applies outranks it: banker, then merchant, then channel, then reason, then the newer |
| ChargebackRules.CreatedRuleIsPicked | apps/admin-dashboard/src/lib/chargeback-rules.ts:80-91 | whatever rules there were, one created now is the one picked now for a chargeback of just its scope |
| ChargebackRules.CreatesExactly | apps/admin-dashboard/src/lib/chargebacks-store.ts:48-69 | creating ends what the scope has in force and adds one rule of its terms, open-ended, of the next version above every version of the scope |
| ChargebackRules.EndsExactly | apps/admin-dashboard/src/lib/chargebacks-store.ts:72-77 | ending sets the end of the named rule when it is in force, and changes nothing else |
| ChargebackStore.StepKeeps | apps/admin-dashboard/src/lib/chargebacks-store.ts:362-531 | every evaluate, approve, reverse and dismiss keeps each row in step with its postings and its pay-in |
| ChargebackStore.RunKeeps | apps/admin-dashboard/src/lib/chargebacks-store.ts:362-531 | the same over every run |
| ChargebackStore.TotalsAreThePostings | apps/admin-dashboard/src/lib/chargebacks-store.ts:362-531 | in every run 0 <= reversed <= debited <= amount, both are the sums of the postings, there is at most one debit, and the state is the one the postings call for |
| ChargebackStore.ReconciledExactlyWhenClosed | apps/admin-dashboard/src/lib/chargeback-rules.ts:170-184 | in every run a chain has no problem exactly when its chargeback is no longer open and not debited in name only, which it can be only on a pay-in without a banker |
| ChargebackStore.DecidedStaysDecided | apps/admin-dashboard/src/lib/chargebacks-store.ts:409-409 | whatever comes after, a decided chargeback is never decided again; a reversed or dismissed one never changes |
| ChargebackStore.PostingsAppendOnly | apps/admin-dashboard/src/lib/chargebacks-store.ts:338-351 | at no point of a run is a posting edited or removed |
| ChargebackStore.ReversalNamesItsDebit | apps/admin-dashboard/src/lib/chargebacks-store.ts:494-519 | a reversal is one new posting that names its own chargeback's debit, for no more than is still debited |
| ChargebackStore.DebitPostedExactlyWithBanker | apps/admin-dashboard/src/lib/chargebacks-store.ts:428-437 | a rule's debit is posted exactly when the pay-in has a banker; without one the row reads as debited and stays unreconciled |
| ChargebackStore.DebitedInNameOnly | apps/admin-dashboard/src/lib/chargebacks-store.ts:428-437 | a run that ends so: a pay-in without a banker, a rule that debits all of it, nothing posted |
| ChargebackStore.RulesNeverOverdraw | apps/admin-dashboard/src/lib/chargeback-rules.ts:134-139 | in every run without approvals by a person, decided standing chargebacks of a pay-in never exceed it |
| ChargebackStore.ApprovalOverdrawsExactly | apps/admin-dashboard/src/lib/chargebacks-store.ts:446-490 | an approval keeps that exactly when its claim still fits beside what stands |
| ChargebackStore.ApprovalOverdraws | apps/admin-dashboard/src/lib/chargebacks-store.ts:446-490 | a run that takes 200 of a pay-in of 100: one chargeback debited by rule, a second one approved |
| ChargebackStore.Desk.ClaimedByOthers | apps/admin-dashboard/src/lib/chargebacks-store.ts:332-336 | the sum over the other chargebacks of the pay-in that are neither dismissed nor reversed |
| ChargebackStore.Desk.Evaluate | apps/admin-dashboard/src/lib/chargebacks-store.ts:403-440 | the whole new state of an evaluation |
| ChargebackStore.Desk.Approve | apps/admin-dashboard/src/lib/chargebacks-store.ts:446-491 | the whole new state of an approval, and which error instead |
| ChargebackStore.Desk.Reverse | apps/admin-dashboard/src/lib/chargebacks-store.ts:494-519 | the whole new state of a reversal, and which error instead |
| ChargebackStore.Desk.Dismiss | apps/admin-dashboard/src/lib/chargebacks-store.ts:522-531 | dismissed exactly while nothing is debited |
| ChargebackDecisions.MatchedDebitsExactly | apps/admin-dashboard/src/lib/chargebacks-store.ts:408-437 | an evaluation posts a debit exactly when the pay-in is paid and has a banker, the claim fits in it beside the others', and a rule that debits by itself within its limit takes something; the debit is that rule's ratio to the nearest paisa |
| ChargebackDecisions.MatchedStateExactly | apps/admin-dashboard/src/lib/chargeback-rules.ts:117-154 | the state it leaves: review, exception, matched, partly or wholly debited, each exactly when |
| ChargebackDecisions.MatchedRow | apps/admin-dashboard/src/lib/chargebacks-store.ts:419-427 | the row is tied to its pay-in, channel and banker and keeps what the rule calculated; no other row moves |
| ChargebackDecisions.UnmatchedExactly | apps/admin-dashboard/src/lib/chargeback-rules.ts:117-122 | with no pay-in found, several candidates or one of the other channel go to a person, and otherwise it waits |
| ChargebackDecisions.ApprovalAnswersExactly | apps/admin-dashboard/src/lib/chargebacks-store.ts:446-469 | which error an approval gives, or none, from the row, the stated amount and the rule |
| ChargebackDecisions.ApprovalWrites | apps/admin-dashboard/src/lib/chargebacks-store.ts:470-488 | an accepted approval posts its debit, marked when a person stated it, and the row says so |
| ChargebackDecisions.ReversalExactly | apps/admin-dashboard/src/lib/chargebacks-store.ts:494-517 | a reversal is taken exactly within what is still debited, as a new posting; given back in full, the chargeback is reversed |
| ChargebackDecisions.LastDebitIsNewest | apps/admin-dashboard/src/lib/chargebacks-store.ts:504-508 | a reversal names the newest debit |
| ChargebackDecisions.DismissalExactly | apps/admin-dashboard/src/lib/chargebacks-store.ts:522-531 | a chargeback is closed exactly while nothing is debited and it is not dismissed yet |
| ChargebackDecisions.ProblemsExactly | apps/admin-dashboard/src/lib/chargeback-rules.ts:170-184 | each thing wrong with a chain is named exactly when it is so |
| ChargebackDecisions.EveryPostingWarranted | apps/admin-dashboard/src/lib/chargebacks-store.ts:403-519 | every posting of every run was warranted when it was made: a debit by an evaluation that may debit by itself, or by a person's approval; a reversal within what was still debited |
| QuotaEngine.StepKeeps | apps/admin-dashboard/src/lib/dt-engine.ts:63-184 | every reservation, consumption, release and statement of a transition, in any order, keeps each lot in step with its reservations and refills |
| QuotaEngine.LotsAddUp | apps/admin-dashboard/src/lib/dt-engine.ts:131-184 | in every run a lot's reserved and consumed are the sums of its live and consumed reservations, together within what was allocated |
| QuotaEngine.ExhaustedExactlyWhenConsumed | apps/admin-dashboard/src/lib/dt-engine.ts:144-150 | a lot is exhausted exactly when fully consumed; then it has no live reservation and asked for exactly one refill |
| QuotaEngine.ReservationDecidedOnce | apps/admin-dashboard/src/lib/dt-engine.ts:138-142 | over any run a reservation keeps its lot and amount, and once consumed or released stays so |
| QuotaEngine.ReleaseUndoesReserve | apps/admin-dashboard/src/lib/dt-engine.ts:171-184 | reserving and releasing leaves every lot, purchase and refill as it was |
| DtPurchases.ConfirmedOnce | apps/admin-dashboard/src/lib/dt.ts:106-126 | while no two transitions of one purchase overlap, it never becomes two lots |
| DtPurchases.OneLotExactly | apps/admin-dashboard/src/lib/dt.ts:106-137 | however transitions interleave, no purchase becomes two lots exactly when every confirmation that inserts its lot finds none of its purchase |
| DtPurchases.TwoConfirmationsOpenTwoLots | apps/admin-dashboard/src/lib/dt.ts:110-134 | a run in which two confirmations pass the check before either writes: two lots of one purchase |
| DtPurchases.SerialKeepsOne | apps/admin-dashboard/src/lib/dt.ts:106-137 | without overlap a purchase with a lot is past confirmation or its one confirmation is under way |
| DtPurchases.ConfirmNeedsItsCheckAtTheWrite | apps/admin-dashboard/src/lib/dt.ts:110-134 | the insert of the lot alone keeps that exactly when the purchase has no lot by then |
| DtPurchases.SplitAddsUpExactly | apps/admin-dashboard/src/lib/dt.ts:121-122 | a share and the rest add up to the total exactly unless both end in half a paisa |
| DtPurchases.DefaultSplitAddsUp | apps/admin-dashboard/src/lib/dt.ts:104-128 | the 60/40 split adds up to the paisa |
| QuotaEngine.Engine.Transition | apps/admin-dashboard/src/lib/dt.ts:106-137 | a transition nobody interrupts moves the purchase exactly along the allowed transitions; confirming opens its lot and reserve |
| QuotaEngine.Engine.ReadStatus | apps/admin-dashboard/src/lib/dt.ts:110-112 | the read and check of a transition |
| QuotaEngine.Engine.InsertLot | apps/admin-dashboard/src/lib/dt.ts:121-125 | the insert of the lot, of the priority share |
| QuotaEngine.Engine.InsertReserve | apps/admin-dashboard/src/lib/dt.ts:122-128 | the insert of the reserve, of the security share |
| QuotaEngine.Engine.WriteStatus | apps/admin-dashboard/src/lib/dt.ts:134-134 | the unguarded status update |
| QuotaEngine.FindLot | apps/admin-dashboard/src/lib/dt-engine.ts:67-75 | the oldest lot with room, or none has room |
| QuotaEngine.Engine.Reserve | apps/admin-dashboard/src/lib/dt-engine.ts:63-126 | the amount is reserved on the oldest lot with room, or nothing changes and no lot has room |
| QuotaEngine.Engine.Consume | apps/admin-dashboard/src/lib/dt-engine.ts:131-151 | the whole new state of a consumption, with exhaustion and its refill |
| QuotaEngine.Engine.Release | apps/admin-dashboard/src/lib/dt-engine.ts:171-184 | the whole new state of a release |
| QuotaDecisions.ConfirmationOpens | apps/admin-dashboard/src/lib/dt.ts:119-128 | a confirmation inserts one open lot of the priority share and then one reserve of the security share, both of its own purchase, to the nearest paisa |
| QuotaDecisions.TransitionExactly | apps/admin-dashboard/src/lib/dt.ts:106-137 | a transition left alone: refused with nothing changed, or the status, and for a confirmation its lot and its reserve |
| QuotaDecisions.LotsAndReservesAreShares | apps/admin-dashboard/src/lib/dt.ts:121-128 | in every run a lot is allocated the priority share of its purchase and a reserve holds the security share; 60/40 shares are the total |
| QuotaDecisions.ConfirmedHasItsShares | apps/admin-dashboard/src/lib/dt.ts:113-134 | however calls interleave, a purchase that was ever confirmed has a lot and a reserve |
| QuotaDecisions.SerialStatusClimbs | apps/admin-dashboard/src/lib/dt.ts:14-25 | while no two transitions of one purchase overlap, no purchase ever moves back along its life cycle |
| QuotaDecisions.ReservesExactly | apps/admin-dashboard/src/lib/dt-engine.ts:63-83 | a reservation is taken on a lot exactly when it is open with that much left, is the payer's, and none such was bought earlier |
| QuotaDecisions.NoRoomExactly | apps/admin-dashboard/src/lib/dt-engine.ts:100-112 | no lot is found exactly when none may take the amount; a merchant's lots count only while their purchase is ACTIVE |
| QuotaDecisions.ConsumesExactly | apps/admin-dashboard/src/lib/dt-engine.ts:138-150 | consuming moves the amount, and the consumption that uses a lot up closes it, exhausts an ACTIVE purchase and asks for one refill |
| QuotaDecisions.ReleasesExactly | apps/admin-dashboard/src/lib/dt-engine.ts:171-184 | releasing only gives the amount back |
| SettlementBuffer.OutstandingIsFundedLessSettled | apps/admin-dashboard/src/lib/dt.ts:165-166 | after any run of calls one at a time, the last closing, what the reserves have left, and all that was funded less all that was settled are one amount; the ledger is a chain and the oldest reserve goes first |
| BufferOverlaps.LedgerTellsTheReservesExactly | apps/admin-dashboard/src/lib/dt.ts:165-202 | however calls interleave, once all are done the ledger is a chain that closes at what the reserves have left exactly when every listing found its amount outstanding, every release what it took, and every entry was inserted at the closing it opens at |
| BufferOverlaps.FundedLessSettledExactly | apps/admin-dashboard/src/lib/dt.ts:165-166 | however calls interleave, once all are done the reserves never have less left than was funded less settled, and have just that exactly when every listing and release fitted |
| BufferOverlaps.ChainedExactly | apps/admin-dashboard/src/lib/dt.ts:186-193 | however calls interleave, the ledger is a chain exactly when each entry is inserted at the closing it opens at |
| BufferOverlaps.WithinExactly | apps/admin-dashboard/src/app/api/v1/dt/settlements/route.ts:51-65 | however calls interleave, no reserve gives more than it holds exactly when every release finds as much left as it takes |
| BufferOverlaps.BothListedFitExactly | apps/admin-dashboard/src/app/api/v1/dt/settlements/route.ts:45-65 | two settlements that both listed the reserves before either took stay within what is held exactly when both together fit in the oldest reserve with money left |
| BufferOverlaps.StepExcess | apps/admin-dashboard/src/app/api/v1/dt/settlements/route.ts:37-72 | no statement leaves less in the reserves than the entries account for, and only a release or listing that does not fit leaves more |
| SettlementBuffer.TwoFundingsOpenAlike | apps/admin-dashboard/src/lib/dt.ts:186-200 | two fundings of 100 that overlap: the reserves gain 200, the last closing 100 |
| SettlementBuffer.SerialKeeps | apps/admin-dashboard/src/lib/dt.ts:181-202 | between any two statements of such a run the call in flight leads to that agreement |
| SettlementBuffer.TwoSettlementsReleaseTwice | apps/admin-dashboard/src/app/api/v1/dt/settlements/route.ts:38-65 | two settlements that overlap: both pass the check, both release the same 100 |
| SettlementBuffer.SettleIsItsStatements | apps/admin-dashboard/src/app/api/v1/dt/settlements/route.ts:37-72 | the statements of a settlement nobody interrupts come to one change: oldest reserves released, one entry |
| SettlementBuffer.FundIsItsStatements | apps/admin-dashboard/src/lib/dt.ts:122-130 | the statements of a funding nobody interrupts come to one change: a reserve and its entry |
| SettlementBuffer.PlanReleases | apps/admin-dashboard/src/app/api/v1/dt/settlements/route.ts:45-65 | taking what the listed reserves had left, one after the other, is the oldest-first release |
| SettlementBuffer.ReleaseTakesExactly | apps/admin-dashboard/src/app/api/v1/dt/settlements/route.ts:51-65 | a release takes exactly the amount from what the reserves have left |
| SettlementBuffer.ReleaseKeepsOrder | apps/admin-dashboard/src/app/api/v1/dt/settlements/route.ts:44-65 | no reserve gives more than it holds, none gives back, and none is touched before every older one is used up |
| SettlementBuffer.FirstOpeningIsOutstanding | apps/admin-dashboard/src/lib/dt.ts:190-192 | the first opening, worked out after the reserves moved, is what was outstanding before |
| SettlementBuffer.Buffer.AddBufferEntry | apps/admin-dashboard/src/lib/dt.ts:181-202 | one entry, opening where the last one closed |
| SettlementBuffer.Buffer.Fund | apps/admin-dashboard/src/lib/dt.ts:122-130 | a new reserve and its entry |
| SettlementBuffer.Buffer.ReleaseFifo | apps/admin-dashboard/src/app/api/v1/dt/settlements/route.ts:51-65 | the loop over the reserves, oldest first, partials allowed |
| SettlementBuffer.Buffer.Settle | apps/admin-dashboard/src/app/api/v1/dt/settlements/route.ts:37-72 | nobody interrupting: refused exactly above what is outstanding; otherwise released and entered |
| SettlementBuffer.SettlesExactly | apps/admin-dashboard/src/app/api/v1/dt/settlements/route.ts:37-72 | a lone settlement is refused exactly above what is outstanding; otherwise exactly that much is released and entered, opening where the ledger closed |
| SettlementBuffer.FundsExactly | apps/admin-dashboard/src/lib/dt.ts:122-130 | a lone funding adds a reserve with all of it left, and its entry |
| MidChain.StepKeeps | apps/admin-dashboard/src/lib/chain-store.ts:328-594 | while no quota or cap is lowered, each statement or transaction, in any order, keeps: open MIDs on their banker's own place, MIDs within quota, bankers within cap, open MID values unique |
| MidChain.ReachableChain | apps/admin-dashboard/src/lib/chain-store.ts:328-594 | the same of every reachable chain |
| MidChain.LinksStayConfirmed | apps/admin-dashboard/src/lib/chain-store.ts:353-361 | while nobody is put on a place between the count of its users and the UPDATE that ends its link, every banker's link is confirmed |
| MidChain.LinksConfirmedExactly | apps/admin-dashboard/src/lib/chain-store.ts:353-361 | however calls interleave, every banker's link is confirmed at every point of a run exactly when every UPDATE that ends a link finds nobody on its place |
| MidChain.EndedUnderABanker | apps/admin-dashboard/src/lib/chain-store.ts:353-359 | a run in which one does: count, setBankerChain, UPDATE, and a banker on an ended link |
| MidChain.MidNeverReopens | apps/admin-dashboard/src/lib/chain-store.ts:539-594 | over any run a MID keeps its banker, place, flow and value and only moves on: pending, then active or rejected, then inactive |
| MidChain.ActiveWasApproved | apps/admin-dashboard/src/lib/chain-store.ts:561-580 | every active MID of every run was approved at some step, on its banker's own place, under a live TSP with the link confirmed, the flow allowed and the quota free at that time |
| MidChain.LinkWasChecked | apps/admin-dashboard/src/lib/chain-store.ts:328-340 | every link of every run goes back to a call that found its TSP there and its bank active |
| MidChain.PlacementWithinCap | apps/admin-dashboard/src/lib/chain-store.ts:453-475 | on such a chain an accepted placement leaves the TSP within its cap and the banker with no open MID elsewhere: the cap exemption was not what let it in |
| MidChain.AcceptedMoveStrandsMidsExactly | apps/admin-dashboard/src/lib/chain-store.ts:466-470 | an accepted placement strands an open MID exactly when the TSP is full and the banker holds MIDs elsewhere: the exempted refusal hides the later one |
| MidChain.LoweredCapStrandsAMid | apps/admin-dashboard/src/lib/chain-store.ts:466-470 | from nothing, a cap lowered under its bankers and then a move: an open MID off its banker's bank |
| MidChain.EndNeedsItsCountAtTheWrite | apps/admin-dashboard/src/lib/chain-store.ts:353-359 | the UPDATE alone keeps every banker's link confirmed exactly when nobody uses the link when it is made |
| MidChain.Registry.LinkTspBank | apps/admin-dashboard/src/lib/chain-store.ts:328-340 | nobody interrupting, a link is opened, or re-opened once ended, exactly for a known TSP and an active bank |
| MidChain.Registry.CheckBank | apps/admin-dashboard/src/lib/chain-store.ts:329-332 | the reads: unknown, inactive, or past the check |
| MidChain.Registry.WriteLink | apps/admin-dashboard/src/lib/chain-store.ts:333-338 | the INSERT: opened exactly when there is no link or an ended one |
| MidChain.Registry.ConfirmTspBank | apps/admin-dashboard/src/lib/chain-store.ts:343-350 | exactly a pending link becomes confirmed |
| MidChain.Registry.EndTspBank | apps/admin-dashboard/src/lib/chain-store.ts:353-361 | nobody interrupting, a link ends unless a banker uses it |
| MidChain.Registry.CountUsers | apps/admin-dashboard/src/lib/chain-store.ts:354-356 | the count: past it exactly when nobody is on the place |
| MidChain.Registry.WriteEnd | apps/admin-dashboard/src/lib/chain-store.ts:357-359 | the UPDATE: ends exactly a link not ended yet, whoever uses it by now |
| MidChain.Registry.SetBankerChain | apps/admin-dashboard/src/lib/chain-store.ts:453-475 | the first refusal in the rules' order, the cap waived for a banker already there, or the placement |
| MidChain.Registry.RequestMid | apps/admin-dashboard/src/lib/chain-store.ts:478-501 | the first refusal, a taken value, or the MID recorded as pending |
| MidChain.Registry.ApplyMidIssue | apps/admin-dashboard/src/lib/chain-store.ts:561-580 | checked again against the banker's present place, or the MID turns active |
| MidChain.Registry.RejectMid | apps/admin-dashboard/src/lib/chain-store.ts:540-586 | exactly a pending MID is rejected or withdrawn |
| MidChain.Registry.ApplyMidDeactivate | apps/admin-dashboard/src/lib/chain-store.ts:588-594 | exactly an active MID is taken out of use |
| MidDecisions.PlacedExactly | apps/admin-dashboard/src/lib/chain-store.ts:453-475 | a banker is placed exactly when the TSP is live, the bank active and the link confirmed, and it is on a TSP full of others already, or the TSP has room and it has no open MID elsewhere; nothing else moves |
| MidDecisions.PlacementRefusedExactly | apps/admin-dashboard/src/lib/chain.ts:249-261 | which refusal otherwise: the first that stands, read from the tables |
| MidDecisions.PlaceWasAccepted | apps/admin-dashboard/src/lib/chain-store.ts:453-475 | in every run every banker's place goes back to a step that put it there under a live TSP with an active bank and a confirmed link |
| MidDecisions.RecordedExactly | apps/admin-dashboard/src/lib/chain-store.ts:478-501 | a MID is recorded exactly for a banker on a place that issues its flow, within the quota, of a value not open on the TSP |
| MidDecisions.IssuedExactly | apps/admin-dashboard/src/lib/chain-store.ts:561-580 | it turns active exactly while its banker is still on its place, which still issues the flow, within the quota of active MIDs |
| MidDecisions.NotIssuedExactly | apps/admin-dashboard/src/lib/chain.ts:305-315 | why a place issues no MID: the first reason that stands |
| MidDecisions.MidWasAllowed | apps/admin-dashboard/src/lib/chain-store.ts:478-501 | in every run every MID, whatever became of it, goes back to a request its banker's chain allowed |
| MidDecisions.ClosedExactly | apps/admin-dashboard/src/lib/chain-store.ts:540-594 | a MID is rejected exactly while pending and taken out of use exactly while active; nothing else of it, or of any other, moves |
| MidDecisions.LinkedExactly | apps/admin-dashboard/src/lib/chain-store.ts:328-340 | a link is opened exactly for a known TSP and an active bank where there is none in use |
| MidDecisions.EndedExactly | apps/admin-dashboard/src/lib/chain-store.ts:353-361 | a link left alone ends exactly when it has not ended and no banker is on its place |
| MidDecisions.ChecksExactly | apps/admin-dashboard/src/lib/chain-store.ts:328-356 | a call to open or end a link goes past its check exactly for an active bank, or with nobody on the place |
| MidDecisions.LinkWritesExactly | apps/admin-dashboard/src/lib/chain-store.ts:333-359 | its write opens a link that is not in use or ends one that is, whatever happened since its check |
| CircuitBreaker.ClosedExactlyBelowThreshold | apps/admin-dashboard/src/lib/circuit-breaker.ts:140-165 | in every timed history the circuit is closed exactly while fewer than the threshold failed since the last success or reset, and exactly while it has no opening time |
| CircuitBreaker.ProbesMoreThanHoldApart | apps/admin-dashboard/src/lib/circuit-breaker.ts:97-114 | two granted probes with no report between them are more than the hold apart |
| CircuitBreaker.NextProbeExactlyAfterHold | apps/admin-dashboard/src/lib/circuit-breaker.ts:103-114 | until a probe reports, the next claim is granted exactly when the hold has run out |
| CircuitBreaker.NoProbeBeforeCoolOff | apps/admin-dashboard/src/lib/circuit-breaker.ts:153-159 | once the circuit opened, by a trip or a failed probe, no probe is granted before the full cool-off |
| CircuitBreaker.FailedProbeOpens | apps/admin-dashboard/src/lib/circuit-breaker.ts:148-159 | a failure while half-open opens the circuit again, from now |
| CircuitBreaker.ProbeGrantedAfterCoolOff | apps/admin-dashboard/src/lib/circuit-breaker.ts:56-114 | past the cool-off and the hold a read and a claim get the probe, whatever an earlier cycle left in half_open_at |
| CircuitBreaker.AfterSound | apps/admin-dashboard/src/lib/circuit-breaker.ts:55-199 | the fields of every circuit reached agree with each other and with the reports so far |
| CircuitBreaker.HalfOpenExactly | apps/admin-dashboard/src/lib/circuit-breaker.ts:55-85 | a circuit that is not closed remembers the time of its last opening, and is half-open exactly when a read since found the cool-off run out |
| CircuitBreaker.GrantedExactly | apps/admin-dashboard/src/lib/circuit-breaker.ts:92-114 | a claim gets the probe exactly when the circuit is half-open and every probe granted since it was last closed is of an earlier opening or over thirty seconds old |
| CircuitBreaker.Breaker.GetCircuit | apps/admin-dashboard/src/lib/circuit-breaker.ts:66-85 | the read and its promotion |
| CircuitBreaker.Breaker.ClaimProbe | apps/admin-dashboard/src/lib/circuit-breaker.ts:103-114 | granted exactly when half-open with no live probe, and then remembered |
| CircuitBreaker.Breaker.RecordFailure | apps/admin-dashboard/src/lib/circuit-breaker.ts:140-181 | the new fields, and tripped exactly when this failure opened the circuit |
| CircuitBreaker.Breaker.Close | apps/admin-dashboard/src/lib/circuit-breaker.ts:116-130 | a success or a reset leaves the circuit as new |
| CsvExport.FieldReads | apps/admin-dashboard/src/lib/csv.ts:10-26 | whatever a cell holds, a reader of section 2 of RFC 4180 gets back its text, a long reference with one leading tab |
| CsvExport.ExportReadsBack | apps/admin-dashboard/src/lib/csv.ts:35-39 | the reader gets back exactly the header and cell texts, row by row, for any text with commas, quotes and line breaks |
| CsvExport.ReadsBackExactlyWithAColumn | apps/admin-dashboard/src/lib/csv.ts:35-39 | that holds exactly when there is a column |
| CsvExport.FileReads | apps/admin-dashboard/src/lib/csv.ts:36-38 | lines of fields that read back, joined by CRLF, read back record by record |
| CsvExport.QuotedExactly | apps/admin-dashboard/src/lib/csv.ts:10-15 | a cell is written as it is exactly when it holds no comma, quote or line break, and otherwise between quotes |
| CsvExport.ReferenceExactly | apps/admin-dashboard/src/lib/csv.ts:22-26 | a reference of twelve digits or more is quoted behind a tab, and any other is written like a cell |
| BankerSwitch.PinFirstNobodyTwice | apps/admin-dashboard/src/lib/banker-switch.ts:48-61 | a live pin is listed first, even out of rotation, and no banker twice |
| BankerSwitch.ListsExactlyPinAndEligible | apps/admin-dashboard/src/lib/banker-switch.ts:59-75 | a banker is listed exactly when it is the live pin or eligible: in rotation, and of positive weight in WEIGHTED mode |
| BankerSwitch.PriorityIsSorted | apps/admin-dashboard/src/lib/banker-switch.ts:72-74 | in PRIORITY mode the rotation is the one arrangement of the eligible bankers sorted by priority, orders today and code |
| BankerSwitch.ExactlyOneLands | apps/admin-dashboard/src/lib/banker-switch.ts:65-67 | the weight intervals tile the unit interval: every random number falls on exactly one banker |
| BankerSwitch.Draw | apps/admin-dashboard/src/lib/banker-switch.ts:65-67 | the subtracting loop picks the banker whose cumulative weight interval holds the number |
| BankerSwitch.DrawAll | apps/admin-dashboard/src/lib/banker-switch.ts:63-70 | the splicing loop ends and lists the draws in order |
| BankerSwitch.BankerOrder | apps/admin-dashboard/src/lib/banker-switch.ts:53-77 | the pin and then the rotation, for every member list, clock and random stream |
| BankerSwitch.EveryRotationCanComeUp | apps/admin-dashboard/src/lib/banker-switch.ts:62-70 | each arrangement of the eligible bankers comes up for some random numbers |
| BankerSwitch.OfferedExactly | apps/admin-dashboard/src/lib/banker-switch.ts:39-62 | a banker is offered the order exactly when it is pinned and the pin lasts, or is in rotation and of positive weight where weights count |
| BankerSwitch.OfferedInOrder | apps/admin-dashboard/src/lib/banker-switch.ts:71-75 | in PRIORITY mode, of two bankers not pinned the earlier has the lower priority, then fewer orders today, then the earlier code |
| BankerSwitch.DrawnExactly | apps/admin-dashboard/src/lib/banker-switch.ts:64-67 | a number draws the banker exactly when its share of all the weight falls within that banker's own weight |
| CallbackState.StateFromPings | apps/admin-dashboard/src/lib/integration.ts:91-99 | the state worked out from the history is the state that moving on check by check gives |
| CallbackState.FoldedIsRun | apps/admin-dashboard/src/lib/integration.ts:68-72 | moving on check by check comes to the run of newest failures and whether any check ever passed |
| CallbackState.WindowGivesStatusExactly | apps/admin-dashboard/src/lib/integration.ts:91-99 | the newest k checks give the true status exactly when k is three or more, or they hold a pass, or there are fewer than three checks, all failed |
| CallbackState.WindowCapsCount | apps/admin-dashboard/src/lib/integration.ts:94-98 | a window's failure count is the true count capped at the window |
| CallbackState.LatestPingsSuffice | apps/admin-dashboard/src/lib/callback-verify.ts:148-154 | read from the latest pings of all URLs, the state is true as soon as three of them checked this URL |
| CallbackState.RedExactlyFromThirdFailure | apps/admin-dashboard/src/lib/integration.ts:63-71 | the alert is red exactly when this failure is at least the third in a row, which is exactly when the status is FAILED |
| Gstin.GstinCheckChar | apps/admin-dashboard/src/lib/kyc-validators.ts:13-20 | the loop's weighted sum and its check character |
| Gstin.CheckIsLuhnMod36 | apps/admin-dashboard/src/lib/kyc-validators.ts:13-20 | the check character fits exactly when all fifteen weighted terms add up to a multiple of 36 |
| Gstin.ExactlyOneCheckChar | apps/admin-dashboard/src/lib/kyc-validators.ts:12-20 | every fourteen characters take exactly one check character |
| Gstin.TermIsPermutation | apps/admin-dashboard/src/lib/kyc-validators.ts:16-17 | doubling and adding the base-36 digits permutes 0..35 |
| Gstin.SwapKeepsCheckExactly | apps/admin-dashboard/src/lib/kyc-validators.ts:13-20 | the check character lets two neighbours change places exactly when they are equal or 0 and Z |
| Gstin.SwapTwoApartKeepsCheck | apps/admin-dashboard/src/lib/kyc-validators.ts:16-16 | it never notices a swap of characters two places apart |
| Gstin.OneChangeRefused | apps/admin-dashboard/src/lib/kyc-validators.ts:30-38 | any one character of an accepted GSTIN changed to any other is refused |
| Gstin.SwapRefused | apps/admin-dashboard/src/lib/kyc-validators.ts:23-37 | two different neighbours of an accepted GSTIN swapped are always refused: the shape stops 0 and Z |
| Gstin.RefusedExactly | apps/admin-dashboard/src/lib/kyc-validators.ts:30-38 | why an identifier is refused: the first thing wrong of its length, its characters, its state code and its weighted sum; accepted exactly when nothing is |
| Gstin.OneCompletionAccepted | apps/admin-dashboard/src/lib/kyc-validators.ts:12-38 | of all characters that may end a well-formed identifier of a known state exactly one makes it accepted |

## Left out

- Steps that the source splits and the model does not: a completion and its journal, the statements of one
  settlement-batch call, an evaluation's or approval's reading of pay-ins, rules and its own row before the row
  lock, two evaluations of different chargebacks on one pay-in, a circuit read and its promotion.
- MidChain.Registry.SetBankerChain: takes no lock shared with requestMid in the source, so the two calls can overlap there; here each is one step.
- Failed statements that the source swallows (`.catch`): taken to succeed, among them the fall-back of
  `recordEvent` to GENESIS when its read fails.
- Currencies other than one, refunds, payouts and disputes on the FIFO desk, and its life cycle before COMPLETED.
- FifoSettlement.PayableCoversUnsettled: asks every completed pay-in of the merchant to be at least 52 paise, because smaller ones are never credited; `Reachable` states the exact equation for all amounts.
- Floating point: money is in paise and the weighted draw in exact reals, so rounding is modelled only where
  the source rounds to the paisa.
- Hashing: SHA-256 is any function without collisions whose output holds no separator. The event payload is
  not hashed by the source, legacy rows are skipped by its verifier, and cutting events off the end of a log
  leaves a log that is accepted with another last hash.
- EventChain.TamperingDetected: compares hashed fields, in which an absent field and an empty one, or an absent kind and `system`, are the same text.
- What a banker's attempt on an order meets (blocks, limits, flows, accounts, the gateway) and the order of
  bankers inside `createAcrossBankers`: arbitrary inputs there; the order itself is `BankerSwitch`.
- The life cycle of refill requests and the lots a refill opens; other bankers' buffers, which are separate rows.
- Which pay-ins match a chargeback, and the list limit on rules: the match and the picked rule are arguments.
- Generated references, batch references and ids: arbitrary, batch ids being distinct.
- CircuitBreaker.ClosedExactlyBelowThreshold: asks for a threshold of at least one.
- A lost count when two checks of one per-flow callback URL overlap (`callback-verify.ts`): one check is one step.
- GSTIN tidying (upper case, spaces), PAN and IFSC shapes, MID input shapes, CSV dates and other values
  (a cell is the text it prints as), the BOM.
- Commission, dashboards, labels, health scores, onboarding checklists, gateways, webhooks,
  alerts and sessions: I/O, look-ups or easy members only.
