# Pooli: payment matching, action gateway and watcher

Pooli sells for USDT on two chains. Buyers pay an amount that is unique while it is reserved, so the amount alone
tells which order a transfer pays. This project models the code that depends on that and on the code around it:

- **Payments** (`Ledger`, `Offers`, `Machine`, `PaymentStore`): orders, intents, options, reservations, chain events,
  matches, usage counters and gap rows as maps. `Ledger` and `Offers` say what each transaction does to the tables;
  `PaymentStore` does it row by row, with a buffer of emissions and rollback, and is proved to do the same.
  `Machine` makes worker, API and operators a free choice among eleven atomic transactions. `Invariant`,
  `Preservation`, `Payments`, `Settlement`, `History`, `Conservation`, `Delivery`, `Matching`, `Lifecycle` and
  `Recount` prove what holds for every transaction and after every schedule; `Outcomes` and `Operations` say of each
  transaction exactly when it does what, row by row.
- **Watcher** (`Watcher`, `Coverage`, `Checkout`, `Joint`): the block cursor with its overlap, bounded windows and
  gated skips; which blocks a run of polls accounts for; what a gap withholds from checkout; and watcher and payment
  tables run together.
- **Action gateway** (`Proposals`, `Store`, `Registry`, `Interleaving`, `Linearization`, `Conflicts`, `Answers`,
  `Validation`): the proposal state machine, the versioned store, the registry's operations run alone as methods of a
  class, and run concurrently as a system whose reads, decisions and writes interleave freely, with every reply
  explained by the operations run one at a time, and what each of those answers.
- **Supporting algorithms** (`Limiters`, `ConfirmGate`, `Poller`, `Amounts`, `Usdt`, `Toman`, `Text`): the two rate
  limiters and the gate two of them form in front of a confirmation, the status poller, the amount round trip across
  languages, and the amount parsers and printers.

A step carries what its transaction draws from outside: clock readings, random draws, the row a query happened to
return first among equals, the health of the watchers, and whether the commit went through. Theorems hold for all of
these, and for clocks that go in any direction unless they say otherwise.

## What turned out false, and exactly when it holds

- Usage counters do not count settled options. When a paid intent goes to review and a second exact transfer puts it
  in flight again, the worker selects the first payment once more, and its next update pays and counts it again
  (`Recount.ReviewedPaymentIsCountedTwice`); the excess is exactly the number of updates that pay by a settled option
  (`Recount.CountersAndSettledOptions`).
- Paid is not final. `Lifecycle.PaidIsLeftExactly` says what takes an intent out of it.
- A claimed amount can wrap around below the base when the base is within 999999 of the largest int64
  (`Offers.ClaimsStayInRangeExactly`).
- A poll passes blocks unseen when no watched address is valid, or when reading the cursor fails (the error is
  dropped and the poll starts cold) while the cursor is further behind than the look-back
  (`Coverage.PollCoversExactly`, and a run that loses a block, `Coverage.FailedReadLosesBlocks`); with a span below
  the overlap the cursor stalls (`Coverage.ProgressExactly`).
- An open gap does not withhold tron while the health queries fail (`Checkout.GapWithholdsExactly`).
- An empty proposal id breaks the idempotency of its key (`Store.InsertKeepsFindableExactly`).
- The two Toman printers differ on some negative numbers (`Toman.PrintersAgreeExactly`).
- The digest comparison ignores what follows the digest when it is not another hex byte
  (`Proposals.SafeEqualHexExactly`).
- Reloads overlap, because the guard of ticks knows only the reloads of ticks: exactly when a running poller becomes
  visible, with a pollable status, while any reload is unsettled, or a tick that passes its guards fires while a reload
  of becoming visible is unsettled (`Poller.ReloadsOverlapExactly`). `Poller.VisibilityReloadOverlaps`,
  `Poller.TickReloadOverlaps` and `Poller.VisibilityReloadsOverlap` are such runs.
- A concurrent operation is not always answered as if it ran alone. It is told of a version conflict, which an operation
  run alone never is (`Linearization.AtomicMeetsNoVersionConflict`), exactly when it would swap and the proposal it read
  has changed by its write; and of an idempotency conflict exactly when it would insert and by its write the key or the
  id is taken (`Linearization.InterleavingRefinesAtomic`). `Conflicts.VersionConflictRun` and
  `Conflicts.IdempotencyConflictRun` end in one.

Where the comment above the confirmation update names another function and only the in-flight statuses, the code
updates an intent from any status but Paid; the model follows the code.

## Model

| member | source | states |
|---|---|---|
| Payments.OptionsMoveInLockstep | internal/payment/matcher.go:172-239 | After every schedule an option has at most one exact match, has one exactly when its reservation is matched or consumed, is settled exactly when it is consumed, and if superseded its reservation is released |
| Payments.HeldKeysAreUnique | infra/migrations/000003_reservation_matched.up.sql:13-15 | After every schedule at most one reservation holds a (destination, network, token, amount), so the exact lookup has at most one answer |
| Payments.NothingIsPayableBehindAGap | internal/ops/gaps.go:62-72 | After every schedule no offered option on a network other than tron with an open gap belongs to an intent awaiting payment |
| Settlement.StepPays | internal/payment/matcher.go:212-249 | Every step either pays by the event that its guard names, settling that event's option and counting one payment, or pays, settles and counts nothing |
| History.PaidIsSound | internal/payment/matcher.go:518-577 | A paid intent was paid by an ingest or a confirmation update of an exact match whose event had the settled option's key and enough confirmations for its network; nothing else ever pays |
| History.SettlementIsFinal | internal/payment/matcher.go:483-494 | The option a paying step settled is settled for good, with its match and key, whatever the intent's status becomes |
| History.NothingIsUndone | internal/payment/matcher.go:422-441 | Between any two moments of a schedule reservations, options, keys, events and matches only move forward, and an event left without a match stays without |
| Lifecycle.PaidIsLeftExactly | internal/payment/matcher.go:172-203 | A step takes an intent out of Paid if and only if it is a fresh exact transfer to an amount still held for that intent, or an operator's review |
| Lifecycle.IntentsMoveLegally | internal/payment/matcher.go:164-441 | No intent disappears or changes hands, and each status change is one that its transaction may make from that status at that time: in flight or paid only by a transfer in time, expired and refreshed only past the deadline |
| Lifecycle.StampUnitsAgreeExactly | internal/payment/matcher.go:65-98 | A block stamp in seconds and in milliseconds means the same time if and only if it is later than a thousand million seconds; one that is not positive counts for nothing, and then the time of observation does, or the clock |
| Lifecycle.NormalAddressesAgreeExactly | internal/payment/matcher.go:509-515 | Normalising twice is normalising once, and two addresses become one exactly when, up to the space around them, they differ at most in case on BSC or when both start with 0x, and are the same text otherwise |
| Ledger.RequiredConfirmations | internal/payment/matcher.go:454-465 | The configured number, or 15 on BSC and 1 elsewhere when none is configured; never below one |
| Ledger.LateMs | internal/payment/matcher.go:57-62 | Two hours by default, and otherwise the window cut to whole seconds |
| Matching.ExactMatchExactly | internal/payment/matcher.go:140-239 | On the tables of any run an event matches exactly if and only if some option holds its key actively, is neither in flight nor paid, and is in time; and it matches that option |
| Matching.UnmatchedIsClassifiedExactly | internal/payment/matcher.go:259-420 | Without a holder, the numbers of released and near candidates decide the outcome, both ways; one near candidate means under- or overpaid by 1..1000 and never exactly paid |
| Matching.NearExactly | internal/payment/matcher.go:346-359 | The near window is 1000 units each way and is empty for amounts within 1000 units of either end of int64 |
| Matching.OnlyExactMatchesSettle | internal/payment/matcher.go:279-420 | An event that is no exact match changes no option, reservation, order or counter; an ignored one changes no intent and no match either |
| Outcomes.ExactOutcome | internal/payment/matcher.go:212-249 | An exact transfer in time makes its intent paid and says payment.paid if and only if it has the confirmations its network needs, confirming and payment.confirming if and only if it has some and not enough, seen and payment.seen if and only if it has none; with the rows that go with each: match, reservation, option, order, counter and event |
| Outcomes.HeldOutcome | internal/payment/matcher.go:172-210 | A transfer of a held amount that is not payable: the second to an intent in flight sends it to review, the second to any other is a duplicate, the first past the deadline is late; each is reported and announced as such and moves nothing held |
| Outcomes.LateOutcome | internal/payment/matcher.go:259-342 | One reservation released and exactly paid no earlier than its deadline and no later than the late window after it is a late payment |
| Outcomes.AmbiguousLateOutcome | internal/payment/matcher.go:279-300 | Several such reservations are left alone: only the event is recorded, and a seller is told of an unmatched transfer |
| Outcomes.NearOutcome | internal/payment/matcher.go:344-420 | One amount asked for within 1000 units: less is underpaid, more is overpaid |
| Outcomes.AmbiguousNearOutcome | internal/payment/matcher.go:344-420 | Several: the intent of the nearest goes to review |
| Outcomes.UnknownOutcome | internal/payment/matcher.go:361-420 | None: the event is recorded and ignored, silently |
| Outcomes.RepeatOutcome | internal/payment/matcher.go:125-129 | A repeated delivery changes and announces nothing, and is reported as a duplicate |
| Outcomes.SomeRowIsFirst | internal/payment/matcher.go:140-153 | Whatever the tables, each query of an ingest that finds rows has one it may return first, so every event can be ingested |
| Outcomes.ConfirmationOutcome | internal/payment/matcher.go:518-577 | A confirmation update makes an unpaid intent paid if and only if the transfer now has the confirmations its network needs, and confirming if and only if it has not, and announces just that change; a paid intent stays as it is |
| Conservation.PaymentsAreCountedOnce | internal/payment/matcher.go:496-507 | After every schedule each usage counter is the number of steps that paid for its merchant in its period, and the counters sum to the number of payment.paid emissions and to the number of moves into Paid |
| Conservation.PaidIsEmittedExactly | internal/payment/matcher.go:235-249 | A step emits at most once, and payment.paid exactly when it pays |
| Delivery.DeliveriesActOnce | internal/payment/matcher.go:26-132 | Every schedule, with failed transactions, retries and redeliveries anywhere in it, leaves the tables and emissions of its essential part, in which every transaction commits and no event is observed twice |
| Conservation.IngestMatchesOrIgnores | internal/payment/matcher.go:108-132 | A fresh event that commits is either ignored or has one match row, and that row and the intent's status are the ones the result reports |
| Recount.CountersAndSettledOptions | internal/payment/matcher.go:536-559 | The usage counters exceed the settled options by exactly the confirmation updates that paid again by an already settled option |
| Recount.CountersAreExactlySettledOptions | internal/payment/matcher.go:536-559 | So the counters count settled options if and only if no confirmation update pays by a settled option |
| Recount.ReviewedPaymentIsCountedTwice | internal/payment/matcher.go:536-559 | Under every configuration, a schedule in which the worker counts one payment twice for one settled option: reviewed after payment, then put in flight again by a second exact transfer, so that the worker's query selects the first |
| Delivery.RepeatsHaveNoEffect | internal/payment/matcher.go:108-132 | Deleting every repeated ingest from a schedule leaves the final tables and everything emitted unchanged |
| Delivery.EventsAreRefusedExactly | internal/payment/matcher.go:100-103 | An ingest commits if and only if the database lets it and the event names an id, a network, a token and a destination; one that does not changes nothing |
| Delivery.EventsAreIngested | internal/payment/matcher.go:112-124 | The event table holds exactly the events that some committed ingest of the schedule carried |
| Preservation.DoKeepsInv | internal/payment/matcher.go:100-254 | Each of the eleven transactions keeps the invariant that ties the tables together |
| Preservation.AfterKeepsInv | internal/payment/matcher.go:100-254 | The invariant holds after every schedule |
| Preservation.IngestKeepsInv | internal/payment/matcher.go:100-254 | Ingesting any event, with any row order of the queries, keeps the invariant |
| Preservation.ConfirmKeepsInv | internal/payment/matcher.go:518-577 | A confirmation update keeps the invariant from any status of the intent |
| Preservation.CreateKeepsInv | internal/httpapi/handlers_orders.go:484-548 | Creating an intent, or offering more options of an existing one, keeps the invariant, gap gate included |
| Preservation.RefreshKeepsInv | internal/httpapi/handlers_public.go:216-309 | Refreshing a quote keeps the invariant: all that was held is released before the options are superseded |
| Preservation.SweepsKeepInv | apps/chain-worker/main.go:265-282 | Each of the three expiry statements keeps the invariant by itself |
| Preservation.ReviewKeepsInv | internal/httpapi/handlers_admin.go:174-189 | Operator review keeps the invariant, and an intent paid after it was paid before |
| Preservation.SnapKeepsInv | internal/ops/gaps.go:62-72 | The gate keeps the invariant, and a gap is recorded only where no option of the network has an intent awaiting payment or in flight |
| Preservation.AcknowledgeKeepsInv | internal/ops/gaps.go:74-84 | Acknowledging the gaps of one network keeps the invariant |
| Invariant.LockKeepsInv | internal/payment/matcher.go:221-228 | An exact match recorded together with the lock of its reservation keeps the tables in lockstep |
| Invariant.ConsumeKeepsInv | internal/payment/matcher.go:483-494 | Consuming a locked reservation together with settling its option keeps the tables in lockstep |
| Invariant.OfferKeepsInv | internal/httpapi/handlers_orders.go:588-606 | An option offered with an active reservation on a free key and an allowed network keeps the invariant |
| Payments.CreateOnlyOffers | internal/httpapi/handlers_orders.go:484-548 | Creation settles, pays and matches nothing, and leaves every existing intent exactly as it is |
| Payments.RefreshOnlyOffers | internal/httpapi/handlers_public.go:258-309 | Refresh settles, pays and matches nothing; it changes no intent, or only the refreshed one, to awaiting payment with the new deadline |
| Payments.InFlightIntentsAreFollowed | apps/chain-worker/main.go:222-235 | After every schedule the worker's query selects an exact match of each intent that is seen or confirming, so no payment in flight is forgotten |
| Offers.Deadline | internal/httpapi/handlers_orders.go:504-507 | The earlier of the quote's end and the order's own deadline |
| Offers.ClaimIsFirstFit | internal/payment/reserve.go:52-86 | With at least 17 attempts and no overflow a claim is the least free amount of base+1..base+17 if any is free, lies in (base, base+999999], and fails only when all 17 are held |
| Offers.ClaimsStayInRangeExactly | internal/payment/reserve.go:56-60 | Claims lie in (base, base+999999], whatever is held and drawn, if and only if base+999999 fits an int64 |
| Matching.OffersAreFirstFit | internal/httpapi/handlers_orders.go:588-606 | An offered option asks for the first-fit amount on its lane and holds it, and an offer fails only when the 17 nearest amounts are held |
| Operations.OfferFailsExactly | internal/payment/reserve.go:52-86 | An offer fails if and only if the network has a wallet and all of the 48 amounts it tries are held there: the 17 nearest above the base, then 31 jumps of 100000 to 999999 |
| Operations.OfferingExactly | internal/httpapi/handlers_orders.go:552-609 | Offering goes through if and only if some network asked for, in any case and spacing, is effective and has a wallet, and none is exhausted at its turn; then each such network has a new option that holds what it asks for, and nothing else changes |
| Operations.CreationExactly | internal/httpapi/handlers_orders.go:484-548 | Creation goes through if and only if the order is the seller's and the offers do; it opens the order, with an intent if it had none, until the earlier of quote's end and the order's deadline |
| Operations.RefreshIsRefusedExactly | internal/httpapi/handlers_public.go:216-309 | The exact condition of each of the four refusals of a refresh and of its success, over the tables; refused, it changes nothing |
| Operations.WithdrawnExactly | internal/httpapi/handlers_public.go:258-295 | Before it offers again a refresh supersedes what was offered, releases what was held and not settled, and sets intent and order awaiting until the new deadline, row by row |
| Operations.RefreshLeaves | internal/httpapi/handlers_public.go:258-309 | A refresh that goes through leaves the withdrawn options and one new option for each effective network with a wallet |
| Operations.IntentsExpireExactly | apps/chain-worker/main.go:266-268 | An intent expires if and only if it was created or awaiting and its deadline is before the clock |
| Operations.ReservationsExpireExactly | apps/chain-worker/main.go:269-271 | A reservation is released if and only if it was active and its deadline is before the clock |
| Operations.OrdersExpireExactly | apps/chain-worker/main.go:272-281 | An order expires if and only if it awaits payment and its intent expired or its own deadline is before the clock |
| Operations.TickLeavesNothingOverdue | apps/chain-worker/main.go:265-282 | One expiry tick leaves nothing overdue, does nothing if and only if nothing was, and is idempotent, also under an earlier clock |
| Operations.OrderIsAddedExactly | internal/httpapi/create_order.go:141-146 | A new order starts as created with its deadline, and an id that is taken keeps its order |
| Operations.ReviewIsAnsweredExactly | internal/httpapi/handlers_admin.go:147-206 | The exact condition of each refusal of an operator's resolution, and what it changes |
| Operations.GateIsShutExactly | internal/ops/gaps.go:40-72 | The gate is shut if and only if some option of the network is awaiting payment or in flight; open, it puts a proper range on record |
| Operations.AcknowledgingClosesExactly | internal/ops/gaps.go:74-84 | After it a network has an open gap if and only if it is another one and had one before |
| PaymentStore.PaymentStore.Ingest | internal/payment/matcher.go:100-254 | The whole transaction against the specification: on commit the tables, the result and the emissions are those of the ledger's Ingest for some first row the queries could return; otherwise nothing changes |
| PaymentStore.PaymentStore.IngestHeld | internal/payment/matcher.go:164-252 | The three outcomes of the exact lookup, in the source's order of tests |
| PaymentStore.PaymentStore.IngestExact | internal/payment/matcher.go:205-249 | Match, lock, settle when confirmed, mark processed, emit |
| PaymentStore.PaymentStore.ReconcileReleasedExact | internal/payment/matcher.go:259-342 | One released candidate is late, several are left alone, none falls through with nothing changed |
| PaymentStore.PaymentStore.HandleUnmatched | internal/payment/matcher.go:344-420 | The near-miss outcomes, for the nearest candidate |
| PaymentStore.PaymentStore.SettlePaid | internal/payment/matcher.go:483-507 | Reservation consumed, option settled, order paid, counter incremented |
| PaymentStore.PaymentStore.Transition | internal/payment/matcher.go:422-441 | The status moves, and a match row is added unless the event has one |
| PaymentStore.PaymentStore.ApplyConfirmations | internal/payment/matcher.go:518-577 | The whole confirmation transaction against the specification, from any status |
| PaymentStore.PaymentStore.Finish | internal/payment/matcher.go:26-36 | Buffered emissions go out after a commit and are dropped with the changes after a rollback |
| PaymentStore.PaymentStore.ClaimUniqueReservation | internal/payment/reserve.go:52-86 | The retry loop finds the first candidate that no held reservation of the lane has, or changes nothing |
| PaymentStore.PaymentStore.InsertPaymentOptions | internal/httpapi/handlers_orders.go:552-609 | The loop over the effective networks, skipping those without a wallet, and the number of options created |
| PaymentStore.PaymentStore.CreatePaymentIntentForOrder | internal/httpapi/handlers_orders.go:484-548 | The creation transaction, or no change at all when it fails or offers nothing |
| PaymentStore.PaymentStore.RefreshQuote | internal/httpapi/handlers_public.go:216-309 | The refresh transaction with its refusals in order, or no change at all |
| PaymentStore.PaymentStore.ReleaseHeld | internal/httpapi/handlers_public.go:258-269 | What is active for the unsettled options of the intent is released |
| PaymentStore.PaymentStore.Supersede | internal/httpapi/handlers_public.go:270-275 | The offered options of the intent are superseded |
| PaymentStore.PaymentStore.CreateOrder | internal/httpapi/create_order.go:141-146 | A new order starts as created, with its deadline, and has no intent |
| PaymentStore.PaymentStore.ExpireIntents | apps/chain-worker/main.go:266-268 | Created and awaiting intents past their deadline expire |
| PaymentStore.PaymentStore.ReleaseExpired | apps/chain-worker/main.go:269-271 | Active reservations past their deadline are released |
| PaymentStore.PaymentStore.ExpireOrders | apps/chain-worker/main.go:272-281 | Awaiting orders expire with their intent or at their own deadline |
| PaymentStore.PaymentStore.AdminResolve | internal/httpapi/handlers_admin.go:147-206 | Refusals in order; only needs_review moves the status, and never to Paid |
| PaymentStore.PaymentStore.GateCursorSnap | internal/ops/gaps.go:62-72 | The gate refuses while an option is live, else records the range unless it is inverted |
| PaymentStore.PaymentStore.AcknowledgeWatcherGaps | internal/ops/gaps.go:74-84 | Every open gap of the network, and no other, is acknowledged |
| Checkout.EffectiveCheckoutNetworks | internal/ops/checkout.go:7-23 | The configured networks in order, less those withheld by an open gap or a stale cursor |
| Checkout.MarkCursorsUnhealthyForGaps | internal/ops/checkout.go:25-39 | Exactly the cursors of networks with an open gap become unhealthy |
| Checkout.TronOnly | internal/httpapi/checkout_networks.go:34-42 | The tron entries of the list |
| Checkout.EffectiveNetworks | internal/httpapi/checkout_networks.go:20-32 | The composed list, failing closed for BSC when health cannot be read |
| Checkout.EffectiveExactly | internal/httpapi/checkout_networks.go:20-32 | A network is offered if and only if it is configured and, while health can be read, has no open gap and its last cursor entry is not stale, and otherwise is tron; marking cursors adds nothing |
| Checkout.KeepSplits | internal/ops/checkout.go:7-23 | What is offered is in the order configured, each network as often as it is configured |
| Checkout.GapWithholdsExactly | internal/httpapi/checkout_networks.go:20-42 | A network with an open gap is offered if and only if it is tron and the health queries fail |
| Watcher.EVMAdapter.PlanObserveRange | internal/chain/evm.go:127-162 | The stepwise plan is the closed form: start, skip and bounded end |
| Watcher.EVMAdapter.ObserveTransfers | internal/chain/evm.go:164-235 | A poll's outcome and what it leaves, including the gap that stays when the fetch fails |
| Watcher.EVMAdapter.FetchInBatches | internal/chain/evm.go:210-222 | The logs of all batches in order, or a failure |
| Watcher.EVMAdapter.FilterAddresses | internal/chain/evm.go:198-205 | The valid addresses, normalised, in order |
| Watcher.EVMAdapter.EnsureChainId | internal/chain/evm.go:493-510 | The chain id is checked once, and a mismatch refuses |
| Watcher.EVMAdapter.PollOnce | apps/chain-worker/main.go:167-220 | The cursor moves only when the poll got through and the save did |
| Coverage.PlansAreBounded | internal/chain/evm.go:110-162 | The plan in the configured numbers: the start is the overlap behind the cursor or 64 blocks behind the head; it skips if and only if it lags by more than the catch-up limit and lies before the last 64 blocks, and then over exactly those between; the window reaches to the head or to the span |
| Coverage.UnreadableCursorsAreZero | internal/chain/evm.go:550-560 | A cursor that is no decimal number of 64 bits counts as block 0 |
| Coverage.SavedCursorIsReadBack | internal/chain/evm.go:550-560 | Every 64-bit cursor is read back as it was written |
| Coverage.PollCoversExactly | internal/chain/evm.go:164-235 | A poll that moves the cursor forward accounts for every block it passes if and only if a watched address is valid and the cursor was read or lies within the look-back |
| Coverage.SoundPollsAccount | apps/chain-worker/main.go:191-218 | A poll that reads the cursor, watches a valid address and sees a head below 2^64-1 accounts for the blocks it passes, from any state |
| Coverage.BlocksAreCovered | apps/chain-worker/main.go:191-218 | Over any run in which each poll that moves the cursor meets the exact condition of PollCoversExactly (a valid address on the first), every block from the first cold start to the saved cursor was scanned or is in a recorded gap |
| Coverage.FailedReadLosesBlocks | apps/chain-worker/main.go:191-199 | Whatever the settings and addresses, a cold start at block 100 and a failed cursor read at block 1000 leave block 500 behind the cursor, neither scanned nor recorded |
| Coverage.WindowsAndGapsAreWellFormed | internal/chain/evm.go:139-160 | Over any run windows never exceed the configured span, 64 by default, and recorded gaps are proper ranges |
| Coverage.BatchesFetchEverything | internal/chain/evm.go:210-222 | Splitting addresses into batches loses no transfer and invents none |
| Coverage.BatchesPartition | internal/chain/evm.go:206-222 | The addresses are asked for in order, in batches that are not empty and no larger than the size |
| Coverage.ValidAddressesExactly | internal/chain/evm.go:85-108 | The addresses asked for are those watched that are 0x and 40 hex digits in any case and spacing, lower-cased |
| Coverage.PollFailsExactly | internal/chain/evm.go:164-222 | A poll fails if and only if the token is not the allowed one, the chain is the wrong one, the head is not told, a skip is refused, or the node fails a batch |
| Coverage.ChainIsCheckedExactly | internal/chain/evm.go:493-510 | The chain counts as checked once a poll with the allowed token met the configured chain, and ever after |
| Coverage.ScansAreComplete | internal/chain/evm.go:196-234 | A completed scan returns exactly the window's transfers to the valid watched addresses |
| Coverage.CursorCatchesUp | internal/chain/evm.go:127-162 | n successful polls at a fixed head reach head+1 or gain n strides of span+1-overlap, and then stay |
| Coverage.ProgressExactly | internal/chain/evm.go:134-160 | Away from the head a successful poll moves the cursor forward if and only if the span is at least the overlap |
| Joint.SkipsPassTheGate | internal/chain/evm.go:184-191 | A skip goes on record only while no BSC option is live |
| Joint.SkippedBlocksWithholdCheckout | internal/ops/gaps.go:40-72 | After any mix of transactions and polls that account for what they pass, each block below the cursor was scanned or has a gap row, and an open row withholds BSC from checkout and leaves no BSC option payable |
| Linearization.InterleavingRefinesAtomic | apps/action-gateway/src/domain/registry.ts:89-187 | At every moment of every interleaving the store is that of the writes so far run one at a time in their order, each with the atomic reply; and every reply given is the atomic one at its read, except that it is a version conflict if and only if the operation would swap a proposal that has changed by its write, and an idempotency conflict if and only if it would insert and by its write the key or the id is taken |
| Linearization.ReplyIsExplained | apps/action-gateway/src/domain/store.ts:55-78 | What an operation that reads one store and writes to a later one is told: the atomic reply at the read, or the conflict |
| Linearization.ConflictsExactly | apps/action-gateway/src/domain/store.ts:55-78 | The replies are conflicts exactly under those conditions: the atomic reply at the read is never a version conflict, and an idempotency conflict only when the fresh id was taken already |
| Conflicts.VersionConflictRun | apps/action-gateway/src/domain/registry.ts:153-159 | For every proposal that is accepted, an interleaving in which the later of two declines is told of a version conflict |
| Conflicts.IdempotencyConflictRun | apps/action-gateway/src/domain/registry.ts:89-121 | For every proposal that is accepted, an interleaving in which the later of two calls with one key is told of an idempotency conflict |
| Linearization.AtomicMeetsNoVersionConflict | apps/action-gateway/src/domain/registry.ts:136-187 | Run alone no operation is ever answered with a version conflict |
| Interleaving.WriteIsAtomic | apps/action-gateway/src/domain/registry.ts:136-187 | A write that takes effect is the whole operation applied to the value stored at that moment |
| Interleaving.NextKeepsInv | apps/action-gateway/src/domain/store.ts:67-78 | Every snapshot in flight stays a prefix of what is stored, and stored proposals only grow |
| Interleaving.ReachableProposals | apps/action-gateway/src/domain/state-machine.ts:57-115 | Every stored proposal has version equal to history length, at most 3, legal records, a fixed payload, digest, code hash and expiry, a unique key, and passes the lint |
| Interleaving.ExecutedMeansApproved | apps/action-gateway/src/domain/state-machine.ts:139-183 | An executed proposal was executed once, right after a human confirmation whose call presented the code and the digest in time |
| Answers.ConfirmIsAnsweredExactly | apps/action-gateway/src/domain/state-machine.ts:132-165 | A confirmation of a stored proposal succeeds if and only if it is pending, its deadline is ahead, the code hashes to the stored hash and the digest shown spells the stored one; with the exact condition of each of the four refusals |
| Answers.ConfirmStoresExactly | apps/action-gateway/src/domain/registry.ts:136-151 | It stores the confirmation when it succeeds, the expiry when it fails on a pending proposal and the clock, read again, has reached the deadline, and otherwise nothing |
| Answers.RejectIsAnsweredExactly | apps/action-gateway/src/domain/state-machine.ts:167-173 | A rejection succeeds if and only if the proposal is pending and its deadline ahead; with the exact condition of each refusal, and what is stored |
| Answers.ExecuteIsAnsweredExactly | apps/action-gateway/src/domain/registry.ts:168-179 | An execution succeeds if and only if the proposal is confirmed, and records the reference made of its id |
| Answers.FailIsAnsweredExactly | apps/action-gateway/src/domain/registry.ts:181-187 | A failure is recorded if and only if the proposal is confirmed |
| Answers.ProposeIsAnsweredExactly | apps/action-gateway/src/domain/registry.ts:89-121 | The exact condition of each answer to a proposal, and the record that a fresh one stores |
| Answers.ClosedMeansInTime | apps/action-gateway/src/domain/state-machine.ts:125-130 | In every interleaving a proposal is stored as expired only by a call whose clock had reached its deadline, and as rejected only by a decline before it |
| Interleaving.LinkCodesAreIssuedOnce | apps/action-gateway/src/domain/registry.ts:99-120 | Among all replies ever given, at most one for each key carries a plaintext link code |
| Interleaving.SilentRepliesCarryNoCode | apps/action-gateway/src/domain/registry.ts:100-105 | A reply that changed nothing carries no code |
| Interleaving.ExecutionReferencesAreRecovered | apps/action-gateway/src/domain/state-machine.ts:193-196 | In every reachable store the reference is recovered exactly for executed proposals |
| Proposals.ReferenceIsRecoveredExactly | apps/action-gateway/src/domain/state-machine.ts:193-196 | A reference is recovered from the audit trail if and only if it is one non-empty word |
| Proposals.SafeEqualHexExactly | apps/action-gateway/src/domain/state-machine.ts:50-55 | Exactly which texts the comparison accepts for a digest: its spelling in either case, followed by anything that is not another hex byte |
| Proposals.EqualVersionsAreEqual | apps/action-gateway/src/domain/state-machine.ts:66-78 | Equal versions of one proposal are equal records |
| Proposals.HistoryShape | apps/action-gateway/src/domain/state-machine.ts:57-64 | At most three versions, and which states each can be in |
| Proposals.ExecutedOnceAfterHuman | apps/action-gateway/src/domain/state-machine.ts:179-183 | Execution is at most once, last, and directly after a human confirmation |
| Store.InMemoryProposalStore.Insert | apps/action-gateway/src/domain/store.ts:55-65 | Insert refuses a used id or key, else adds to both maps |
| Store.InMemoryProposalStore.CompareAndSwap | apps/action-gateway/src/domain/store.ts:67-78 | The swap succeeds exactly on the expected version |
| Store.InMemoryProposalStore.FindByIdempotencyKey | apps/action-gateway/src/domain/store.ts:49-53 | The proposal the key was used for |
| Store.InsertKeepsFindableExactly | apps/action-gateway/src/domain/store.ts:49-65 | An insert keeps used keys findable if and only if the new id is not empty |
| Store.EmptyIdBreaksIdempotency | apps/action-gateway/src/domain/store.ts:49-65 | With an empty id one key is inserted twice |
| Store.KeyNamesOne | apps/action-gateway/src/domain/store.ts:41-65 | A key names at most one proposal |
| Registry.ActionRegistry.ProposeDraft | apps/action-gateway/src/domain/registry.ts:89-121 | Run alone, a proposal is the atomic operation: validated, deduplicated or inserted |
| Registry.ActionRegistry.ConfirmDraft | apps/action-gateway/src/domain/registry.ts:136-151 | Run alone, a confirmation is the atomic operation, and a refusal past the deadline stores the expiry |
| Registry.ActionRegistry.RejectDraft | apps/action-gateway/src/domain/registry.ts:153-159 | Run alone, a rejection is the atomic operation |
| Registry.ActionRegistry.ExecuteDraft | apps/action-gateway/src/domain/registry.ts:168-179 | Run alone, an execution is the atomic operation, for confirmed proposals only |
| Registry.ActionRegistry.FailDraft | apps/action-gateway/src/domain/registry.ts:181-187 | Run alone, a failure is the atomic operation |
| Validation.SanitizeIsIdempotent | apps/action-gateway/src/domain/validation.ts:24-30 | Sanitising twice is sanitising once |
| Validation.AcceptedDraftsAreFixedPoints | apps/action-gateway/src/domain/validation.ts:44-79 | An accepted draft is a fixed point of the validator, so it passes the false-paid lint again |
| Validation.DraftIsAcceptedExactly | apps/action-gateway/src/domain/validation.ts:44-79 | Exactly which drafts are accepted, field by field, and in which form |
| Validation.LintFindsExactly | apps/action-gateway/src/domain/validation.ts:21-42 | The lint finds a claim if and only if the text has one of six phrases, in any case, as words of its own, or one of two in Persian |
| Validation.SanitizingKeepsWords | apps/action-gateway/src/domain/validation.ts:24-30 | Sanitising keeps the words of a text and their order, with single plain spaces between them and none around |
| Validation.ClaimsSurviveContext | apps/action-gateway/src/domain/validation.ts:33-42 | A claim of payment is still found in every context whose letters, digits and underscores do not run into it |
| Limiters.PruneInPlace | internal/httpapi/ratelimit.go:29-35 | The in-place filter keeps exactly the entries after the cutoff, in order |
| Limiters.SlidingWindowLimiter.Allow | internal/httpapi/ratelimit.go:24-42 | One call's answer and the list it leaves |
| Limiters.PrunedListDecidesLikeFullHistory | internal/httpapi/ratelimit.go:24-42 | In clock order the pruned list decides exactly like counting the full admission history |
| Limiters.RefusedExactly | internal/httpapi/ratelimit.go:24-42 | A call is refused if and only if the window that ends with it holds maxHits admissions already |
| Limiters.SlidingWindowBound | internal/httpapi/ratelimit.go:24-42 | No half-open window admits more than maxHits |
| Limiters.AttemptLimiter.Consume | apps/action-gateway/src/http/confirmation-api.ts:46-56 | One attempt's answer, and the counter it leaves |
| Limiters.AttemptLimiter.Clear | apps/action-gateway/src/http/confirmation-api.ts:59-61 | Only the cleared key is forgotten |
| Limiters.FixedWindowBound | apps/action-gateway/src/http/confirmation-api.ts:46-56 | k windows in a row, wherever they start, grant at most (k+1)*max-1 attempts of a key that is not cleared |
| Limiters.GrantedExactly | apps/action-gateway/src/http/confirmation-api.ts:46-56 | An attempt is granted if and only if no window is open or fewer than max were granted in the open one, and opens one if and only if none is |
| Limiters.FixedWindowBoundIsReached | apps/action-gateway/src/http/confirmation-api.ts:46-56 | For every limit of two or more and any number of windows some attempts reach the bound, if and only if a window is longer than one tick |
| ConfirmGate.ConfirmationGate.AdmitAttempt | apps/action-gateway/src/http/confirmation-api.ts:151-156 | An attempt is charged to its proposal, and to all only when its proposal's limiter let it through |
| ConfirmGate.ConfirmationGate.Succeeded | apps/action-gateway/src/http/confirmation-api.ts:168-168 | A success clears its own proposal's counter and no other |
| ConfirmGate.AttemptsAreBoundedOverall | apps/action-gateway/src/http/confirmation-api.ts:115-168 | However many proposals are tried and however often successes clear them, k windows in a row admit at most (k+1)*100-1 attempts in all |
| ConfirmGate.AdmittedExactly | apps/action-gateway/src/http/confirmation-api.ts:115-168 | An attempt is admitted if and only if its proposal had fewer than five granted in its open minute, counted since its last success, and all proposals together fewer than a hundred in theirs |
| ConfirmGate.RefusedAttemptsHaveNoEffect | apps/action-gateway/src/http/confirmation-api.ts:151-156 | Deleting from any sequence of requests the attempts that their own proposal's limiter refused leaves every counter and everything admitted as it was |
| Poller.PaymentStatusPoller.RunTick | apps/web/src/lib/paymentPoll.ts:78-106 | A tick up to the reload it awaits: the next timer is armed first |
| Poller.PaymentStatusPoller.TimerFired | apps/web/src/lib/paymentPoll.ts:72-75 | A due timer is forgotten before its tick runs |
| Poller.PaymentStatusPoller.ReloadSettled | apps/web/src/lib/paymentPoll.ts:98-105 | The rest of the tick, once the reload settled |
| Poller.PaymentStatusPoller.ArmTimer | apps/web/src/lib/paymentPoll.ts:69-76 | At most one timer, and none once stopped |
| Poller.PaymentStatusPoller.Start | apps/web/src/lib/paymentPoll.ts:109-118 | Starting twice is starting once, and a final status does not start |
| Poller.PaymentStatusPoller.Stop | apps/web/src/lib/paymentPoll.ts:119-123 | No timer after a stop |
| Poller.PaymentStatusPoller.SetHidden | apps/web/src/lib/paymentPoll.ts:124-135 | Becoming visible reloads at once and ensures a timer |
| Poller.PollerIsSound | apps/web/src/lib/paymentPoll.ts:48-136 | Over any run at most one timer is armed and none while stopped; a running poller without one has read a final status; tick reloads never overlap and start at least 2000 ms apart |
| Poller.UnfinishedKeepsPolling | apps/web/src/lib/paymentPoll.ts:1-136 | While the status read is created, awaiting payment, seen or confirming, the poller runs exactly from its start to its stop, hidden or not, and its next tick is always due within five seconds |
| Poller.TickDoesExactly | apps/web/src/lib/paymentPoll.ts:27-106 | What a tick arms and reloads: nothing for a final or unknown status; in five seconds while hidden; otherwise in two, three or five seconds by its number, with a reload unless the last is under way |
| Poller.OtherEventsDoExactly | apps/web/src/lib/paymentPoll.ts:98-135 | What start, stop, a settled reload and a change of visibility arm, disarm and reload |
| Poller.ReloadsOverlapExactly | apps/web/src/lib/paymentPoll.ts:78-135 | At an event of a run a reload starts over an unsettled one if and only if a running poller becomes visible there, with a pollable status, while any reload is unsettled, or a tick that passes its guards fires while a reload of becoming visible is unsettled |
| Poller.VisibilityReloadOverlaps | apps/web/src/lib/paymentPoll.ts:128-129 | A run in which becoming visible reloads over a tick's reload: start, first tick, hide, show |
| Poller.TickReloadOverlaps | apps/web/src/lib/paymentPoll.ts:92-95 | A run in which a tick reloads over the reload of becoming visible: start, hide, show, first tick |
| Poller.VisibilityReloadsOverlap | apps/web/src/lib/paymentPoll.ts:128-129 | A run in which two reloads of becoming visible overlap: start, hide, show, hide, show |
| Amounts.AmountRoundTrip | apps/web/src/lib/payment-handoff/amount.ts:5-22 | Scaling, encoding into the calldata word, parsing and scaling back is the identity for values that fit int64 and one word |
| Amounts.RecipientRoundTrip | apps/web/src/lib/payment-handoff/amount.ts:17-22 | The calldata is the selector and two words, and the first word names the recipient |
| Amounts.Confirmations | internal/chain/evm.go:376-381 | The blocks from the transfer's to the head, both counted, and none while the head is behind |
| Amounts.AcceptedScalesBackExactly | internal/chain/evm.go:342-374 | An accepted on-chain amount scales back with nothing lost |
| Amounts.AcceptedExactlyWhenAligned | internal/chain/evm.go:342-366 | Exactly the multiples of the shift with a non-negative int64 quotient are accepted |
| Amounts.AmountIsRefusedExactly | internal/chain/evm.go:342-374 | The exact condition of each of the four refusals of an on-chain amount |
| Amounts.ScaleIsDecimal | apps/web/src/lib/payment-handoff/amount.ts:5-15 | Six decimals scale by one and each further decimal by ten |
| Amounts.ScalingBelowSix | apps/web/src/lib/payment-handoff/amount.ts:9-11 | Below six decimals the buyer is refused and the other direction leaves the amount as it is |
| Amounts.HexIsReadExactly | internal/chain/evm.go:570-580 | A hex amount is read if and only if, without space, case, prefix and sign, it is hex digits, or nothing is left |
| Amounts.TopicsAreCut | internal/chain/evm.go:582-593 | A topic of at most 40 digits is taken whole, and of a longer one the last 40 |
| Amounts.AmountFitsOneWord | apps/web/src/lib/payment-handoff/amount.ts:17-22 | The amount fills one 64-digit word if and only if it fits a uint256 |
| Amounts.TopicRoundTrip | internal/chain/evm.go:582-593 | A valid address written as a topic is read back |
| Usdt.UsdtRoundTrip | apps/web/src/lib/usdt.ts:4-22 | Parsing the formatted amount gives it back for 1..2^53-1 |
| Usdt.TextIsReadExactly | apps/web/src/lib/usdt.ts:4-15 | The number a decimal text stands for, in millionths, read if and only if it lies in 1..2^53-1 |
| Usdt.OnlyDecimalsAreRead | apps/web/src/lib/usdt.ts:4-15 | Nothing is read but digits, or digits, a point and one to six digits, commas and outer white space apart |
| Usdt.CommasAreIgnored | apps/web/src/lib/usdt.ts:4-15 | Commas inside a text count for nothing |
| Usdt.DisplayIsShortest | apps/web/src/lib/usdt.ts:17-22 | What is displayed has no trailing zero in its fraction, and is 0 exactly for amounts that are not positive |
| Toman.ParseTomanDigits | internal/httpapi/handlers_instagram.go:417-442 | The digits of the three scripts, separators skipped, in 1..2^63-1, or a refusal |
| Toman.TomanIsReadExactly | internal/httpapi/handlers_instagram.go:417-442 | A text is read if and only if it has nothing but digits of the three scripts and separators, and its digits make a positive int64; it is read as that number |
| Toman.SignsArePrinted | internal/httpapi/handlers_instagram.go:444-456 | Zero is printed as 0 and a negative number as its absolute value behind a minus sign, the least int64 apart |
| Toman.FormatTomanPeeling | internal/httpapi/handlers_instagram.go:444-456 | Groups of three counted from the right |
| Toman.FormatTomanScanning | internal/email/templates.go:363-380 | The left-to-right scan, sign put back |
| Toman.ScanIsGrouping | internal/email/templates.go:370-378 | Scanning from the left and peeling from the right put separators at the same places |
| Toman.PrintersAgreeExactly | internal/email/templates.go:363-380 | The two printers agree if and only if the number is not negative, or its digits do not fill whole groups and it is not the least int64 |
| Toman.TomanRoundTrip | internal/httpapi/handlers_instagram.go:417-456 | Parsing what either printer writes gives every positive int64 back, for either separator |

## Left out

- Recount.CountersAreExactlySettledOptions: counts over all merchants and periods together, not for each counter row.
- Coverage.BlocksAreCovered: assumes that each poll that moves the cursor accounts for what it passes (the condition of PollCoversExactly) and leaves it below 2^64; a poll that fails the condition is excluded even where an earlier one has scanned what it passes.
- Delivery.RepeatsHaveNoEffect: compares tables and emissions, not the replies of the deleted ingests.
- Joint.SkippedBlocksWithholdCheckout: takes the gate's count and insert as one step, and likewise the health reads and the inserts of an offer; the code runs them on separate connections without a lock.
- Interleaving.ReachableProposals: assumes that fresh proposal ids are not empty.
- Proposals.SafeEqualHexExactly: SHA-256 and the canonical JSON are unknown functions, and the comparison's timing is not modelled.
- Limiters.SlidingWindowBound: assumes that clock order is lock order, although the clock is read before the lock is taken.
- Usdt.UsdtRoundTrip: numbers are integers; up to 2^53-1 doubles represent them exactly, and the parser refuses the rest.
- The state-event log, audit rows, exchange-rate quotes, paid_at and the payloads of emissions: nothing in the model reads them.
- Order creation beyond its row, order cancellation, wallets and their defaults: a wallet lookup is a parameter of the step that makes it.
- Quote resolution and decimal division: the base amount of an offer is a parameter, and a failed quote is a transaction that does not commit.
- Postgres isolation, row locks and lock waits: a transaction is one atomic step, and only its outcome may fail.
- Decoding logs into events, receipt verification, block timestamps of logs, and every RPC: a poll's logs are an arbitrary answer of the node.
- The Tron cursor and its paging.
- The limit and order of the worker's query, the fifty events seen first: the theorems about schedules hold for confirmation updates of any event with any count, and WorkerSelects is the query's condition.
- The pages and routes around the confirmation gate, the per-order limit in front of a refresh, sessions, HTTP, JSON, and every user interface.
- A reload that throws before it returns a promise, which would leave a poller that becomes visible without a new timer.
- Unicode: case folding and the folds of case-insensitive patterns are those of ASCII.
- Unsigned wrap-around in block arithmetic near 2^64.
