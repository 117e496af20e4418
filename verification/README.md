# StreamWeave, verified model

A Dafny model of the parts of StreamWeave whose correctness depends on the order in
which things happen, with proofs about every run of them.

- **Orders store.** `Saga` says what one transaction does to one order: its row, its
  items, its outbox messages. `StoreModel` puts many orders, the inbox and the
  idempotency records together and lets transactions interleave: a fact transaction
  is an inbox insert, a row read, an item read and a commit, and anything may commit
  in between. Writes are guarded by the aggregate version as in the SQL text.
  `SagaInvariant`, `SagaPreservation`, `SagaInterleaving` and `StoreInvariant` build
  the invariant; `SagaTheorems`, `StoreTheorems`, `Serialisability`, `StoreDelivery`
  and `MessageContents` state what it means. `FactEffects`, `AttemptEffects` and
  `RequestEffects` say independently of the handlers what every fact, commit and request
  must do, and prove that it does exactly that. `FactTransaction` and `OrderStore` are the
  imperative handlers, proved to refine those specifications.
- **Order aggregate and quotes.** `OrderAggregate` and `QuoteLines`: bounded int64
  money arithmetic against unbounded sums, and the pigeonhole argument that quote
  lines are a permutation of the order items.
- **Orders relay.** `RelayConsumer`: the consumer loop, retry and quarantine.
  `OutboxLease`: concurrent publishers that claim rows by lease.
- **Identity sessions.** `Sessions`: refresh-token families with reuse detection under
  stale reads.
- **Gateway key cache.** `Jwks`: the single-flight refresh protocol.
- **Listing.** `Pagination`: keyset pages over a table that may change between pages;
  `OrderListing` applies it to the tables of a running store.

Where the code and its documentation differ, the model follows the code:

- The aggregate's transition table (`apps/orders/internal/domain/orders/models.go:216-227`)
  is not what the store enforces. `SagaInvariant.StoreEdge` is the store's own set of
  edges; `SagaTheorems.FollowsTableIff` says exactly when the table is followed.
- `docs/design/orders-data-model.md:51` speaks of locking the order; the handlers read
  without a lock and rely on the version guard. The model does the same, including
  reads of row and items that are torn by a commit in between.
- A handler that finds nothing to write commits without the version guard, also from a
  stale read, and can then repeat compensation commands. Such a fact is serialised at
  its read. `Serialisability.RunCommitSerialIff` says exactly when it is also serial at
  its commit, and `Serialisability.OvertakenPaymentDoesLess` shows one that is not: a
  payment fact that commits after a cancellation it did not see.
- A failure record can reopen a PROCESSED inbox row, and two attempts at a RETRY row can
  overlap, so an event can be applied again. `StoreDelivery.ApplicationsExact` counts
  how often, `AppliedTwiceOnlyIf` says why; `FailureRecordReopens` and
  `OverlapAppliesLate` show that both happen.

## Model

| member | source | states |
|---|---|---|
| `StoreTheorems.RunHistory` | apps/orders/internal/adapters/outbound/postgres/generated/orders.sql.go:845-849 | Between any two moments of any run: equal aggregate version means equal row and equal items, the version never falls, a total once written stays, a terminal status never changes, identity columns are fixed and messages are only appended |
| `StoreTheorems.RunEventsTellStatus` | apps/orders/internal/adapters/outbound/postgres/store.go:393-436 | In every reachable state, folding an order's events in outbox order gives the stored status: one created, at most one confirmed and one cancellation_requested, exactly one terminal event iff the status is terminal, strictly rising versions |
| `StoreTheorems.RunMoneyConserved` | apps/orders/internal/adapters/outbound/postgres/store.go:449-467 | In every reachable state at most one authorize command exists, it and every refund command carry the stored total and currency, and the total is the sum of the stored line totals |
| `StoreTheorems.RunPaymentsAreAuthorised` | apps/orders/internal/adapters/outbound/postgres/store.go:558-576 | In every run the payment reference changes only by the commit of an authorisation whose amount and currency equal the stored total and currency |
| `StoreTheorems.RunCancellationCompensates` | apps/orders/internal/adapters/outbound/postgres/store.go:602-681 | In every reachable state, a CANCEL_REQUESTED or CANCELLED order has a release command for its reservation and a refund command for its payment and full total; CANCELLED implies the completion flag of each reference held |
| `StoreTheorems.RunReferences` | apps/orders/internal/adapters/outbound/postgres/store.go:545-585 | In every reachable state payment implies total, total implies reservation, CONFIRMED implies all three, COMPLETED implies a shipment |
| `StoreTheorems.RunTwiceIsOnce` | apps/orders/internal/adapters/outbound/postgres/store.go:361-439 | Applying one fact twice in a row to any reachable order leaves status, references, flags, total and item prices as after one application; any extra command repeats an operation id and data already in the outbox |
| `StoreTheorems.ChangeIsSerial` | apps/orders/internal/adapters/outbound/postgres/store.go:683-699 | Whenever an action other than a cancellation request changes an order row, it is a commit from an up-to-date read of that order, and its fact applied alone gives the new row and items |
| `StoreInvariant.RunKeeps` | apps/orders/internal/adapters/outbound/postgres/store.go:60-447 | Every reachable world satisfies the store invariant: each order's row, items and messages, the inbox, the request records, and every transaction in flight against the row it read |
| `StoreInvariant.StepKeeps` | apps/orders/internal/adapters/outbound/postgres/store.go:60-447 | Each action keeps the store invariant and moves every order forward |
| `StoreInvariant.CreateKeeps` | apps/orders/internal/adapters/outbound/postgres/store.go:60-136 | A creation, successful or not, keeps the table invariant |
| `StoreInvariant.CancelKeeps` | apps/orders/internal/adapters/outbound/postgres/store.go:171-231 | A cancellation request, successful or not, keeps the table invariant |
| `StoreInvariant.CommitKeeps` | apps/orders/internal/adapters/outbound/postgres/store.go:357-447 | The commit of a fact transaction that read at any earlier time keeps the table invariant |
| `SagaInterleaving.CommitIsSerialOrRepeats` | apps/orders/internal/adapters/outbound/postgres/store.go:628-699 | A handler that committed after reading at any earlier time keeps the order invariant; it did what it would have done from the stored row if and only if its row was up to date or the stored row gives the fact the same to do, and from an outdated row it left the order unchanged and only repeated commands |
| `SagaInterleaving.StaleSerialIff` | apps/orders/internal/adapters/outbound/postgres/store.go:361-439 | For every kind of fact, the condition on the row read and the row stored under which a fact committed from a stale read does what it would do alone at its commit; both directions |
| `AttemptEffects.StaleExact` | apps/orders/internal/adapters/outbound/postgres/store.go:683-699 | Once the row has changed, a fact is applied iff it finds nothing to write in the row it read; it then changes no row or item and sends only the commands that row calls for |
| `SagaInterleaving.AppliedAdvances` | apps/orders/internal/adapters/outbound/postgres/store.go:683-699 | An applied fact keeps identity columns, never lowers the version, follows the store's status edges, and changes row or items only with a higher version |
| `SagaInterleaving.StaleHandle` | apps/orders/internal/adapters/outbound/postgres/store.go:361-439 | From a stale read a handler commits nothing but the compensation commands of the cancellation it saw |
| `SagaPreservation.FactKeeps` | apps/orders/internal/adapters/outbound/postgres/store.go:361-439 | Every fact keeps the order invariant (references, prices, event history, money, compensation) |
| `FactEffects.FactExact` | apps/orders/internal/adapters/outbound/postgres/store.go:361-439 | For every row satisfying the invariant and every fact: exactly when it is accepted, the row and items it leaves, column by column, and the messages it sends |
| `FactEffects.ReservedExact` | apps/orders/internal/adapters/outbound/postgres/store.go:469-556 | A reservation of an open order is applied iff it has a valid reference and the order's reserve operation and, for a PENDING order, its quote is verified, in the order's currency, for an unpriced order, with one exact line per item and a sum within the limit; then prices, total, reference and one authorize command are written; during cancellation the reference is stored and undone |
| `FactEffects.OfferIff` | apps/orders/internal/adapters/outbound/postgres/store.go:506-537 | The checks on a quote accept exactly a verified, numbered quote of the order's currency whose lines are the items, with exact line totals and a sum within the limit |
| `FactEffects.CoversIff` | apps/orders/internal/adapters/outbound/postgres/store.go:514-537 | The two loops over the quote lines accept exactly lines that quote each item once in its quantity, and nothing else |
| `FactEffects.AuthorizedExact` | apps/orders/internal/adapters/outbound/postgres/store.go:558-600 | An authorisation of an open order is applied iff amount, currency and reference are right; a PENDING order becomes CONFIRMED with its event and the fulfilment command, a cancelled one stores and undoes the payment |
| `FactEffects.ReleasedExact` | apps/orders/internal/adapters/outbound/postgres/store.go:602-613 | A release is applied iff it names the reservation held, in every status; it sets the flag and completes a cancellation iff there is no payment or it was refunded |
| `FactEffects.RefundedExact` | apps/orders/internal/adapters/outbound/postgres/store.go:615-626 | A refund is applied iff it names the payment held, in every status; it sets the flag and completes a cancellation iff there is no reservation or it was released |
| `FactEffects.RejectionExact` | apps/orders/internal/adapters/outbound/postgres/store.go:374-413 | A refused reservation fails an open order without commands, settles the inventory side of a cancellation, and leaves an ended order alone |
| `FactEffects.DeclineExact` | apps/orders/internal/adapters/outbound/postgres/store.go:374-413 | A declined payment fails an open order and releases its reservation, settles the payment side of a cancellation, and leaves an ended order alone |
| `FactEffects.LossExact` | apps/orders/internal/adapters/outbound/postgres/store.go:374-413 | A failed fulfilment fails an open order and undoes reservation and payment; during cancellation it repeats these commands |
| `FactEffects.FulfilledExact` | apps/orders/internal/adapters/outbound/postgres/store.go:418-436 | A completion with a valid shipment completes every open order, with its event; an ended order is left alone |
| `SagaPreservation.ReservedKeeps` | apps/orders/internal/adapters/outbound/postgres/store.go:469-556 | The inventory.reserved handler keeps the order invariant in every status |
| `SagaPreservation.AuthorizedKeeps` | apps/orders/internal/adapters/outbound/postgres/store.go:558-600 | The payment.authorized handler keeps the order invariant in every status |
| `SagaPreservation.ReleasedKeeps` | apps/orders/internal/adapters/outbound/postgres/store.go:602-613 | The inventory.released handler keeps the order invariant |
| `SagaPreservation.RefundedKeeps` | apps/orders/internal/adapters/outbound/postgres/store.go:615-626 | The payment.refunded handler keeps the order invariant |
| `SagaPreservation.FailureKeeps` | apps/orders/internal/adapters/outbound/postgres/store.go:374-417 | The three failure facts keep the order invariant, during cancellation and otherwise |
| `SagaPreservation.FulfilledKeeps` | apps/orders/internal/adapters/outbound/postgres/store.go:418-436 | The fulfillment.completed handler keeps the order invariant |
| `SagaPreservation.CompletionKeeps` | apps/orders/internal/adapters/outbound/postgres/store.go:662-681 | Completing a cancellation keeps the order invariant |
| `SagaPreservation.CreationKeeps` | apps/orders/internal/adapters/outbound/postgres/store.go:103-135 | A created order satisfies the order invariant with its created event and reserve command |
| `SagaPreservation.CancellationKeeps` | apps/orders/internal/adapters/outbound/postgres/store.go:199-231 | A cancellation request keeps the order invariant and emits the compensation of what is held |
| `SagaPreservation.QuoteFactEffect` | apps/orders/internal/adapters/outbound/postgres/store.go:506-556 | An accepted quote on a pending order writes exactly the reservation, the exact total, the priced items and one authorize command for that total |
| `StoreTheorems.RunItemsOnlyFromReservation` | apps/orders/internal/adapters/outbound/postgres/store.go:469-556 | In every run the item rows of an order change only by the commit of a reservation fact that names that order |
| `SagaTheorems.HistoryCounts` | apps/orders/internal/adapters/outbound/postgres/store.go:393-436 | A legal event history announces each status at most once and no status ranked above its last |
| `SagaTheorems.EventVersionsRise` | apps/orders/internal/adapters/outbound/postgres/store.go:393-436 | The versions of the events of a legal history rise strictly |
| `SagaTheorems.EventsTellStatus` | apps/orders/internal/adapters/outbound/postgres/store.go:662-681 | The order invariant gives the status as the fold of the events, with the exact event counts |
| `SagaTheorems.MoneyConserved` | apps/orders/internal/adapters/outbound/postgres/store.go:449-467 | The order invariant gives one authorize command and one amount for every authorize and refund command |
| `SagaTheorems.AcceptedAuthorisationCarriesTotal` | apps/orders/internal/adapters/outbound/postgres/store.go:558-576 | An applied fact changes the payment reference only if it is an authorisation of exactly the total |
| `SagaTheorems.AcceptedReservation` | apps/orders/internal/adapters/outbound/postgres/store.go:506-549 | The first accepted reservation: items stored are a permutation of the quote lines and the total is their sum |
| `SagaTheorems.TotalOnlyFromReservation` | apps/orders/internal/adapters/outbound/postgres/store.go:537-549 | An applied fact changes the total only if it is a reservation of a pending order |
| `SagaTheorems.QuotedOnlyOnce` | apps/orders/internal/domain/orders/models.go:147-149 | A reservation of a pending order that already has a total is refused |
| `SagaTheorems.TwiceIsOnce` | apps/orders/internal/adapters/outbound/postgres/store.go:361-439 | A fact applied a second time changes nothing a reader sees and only repeats commands |
| `StoreDelivery.AppliedAtMostOnce` | apps/orders/internal/adapters/outbound/postgres/store.go:343-355 | With non-overlapping attempts at an event, its committed applications number at most one plus the failure records written over its PROCESSED or DLQ row |
| `StoreDelivery.RecordsKept` | apps/orders/internal/adapters/outbound/postgres/generated/orders.sql.go:275-279 | A committed request record is never changed |
| `StoreDelivery.CreateReplays` | apps/orders/internal/adapters/outbound/postgres/store.go:80-102 | After a success under a key every later creation under it writes nothing; with the same hash it returns the same order and first-stored response, with another hash it is refused |
| `StoreDelivery.CancelReplays` | apps/orders/internal/adapters/outbound/postgres/store.go:182-198 | After a successful cancellation under a key every later one writes nothing: same hash returns the same order, another hash is refused |
| `StoreDelivery.OneOrderPerKey` | apps/orders/internal/adapters/outbound/postgres/store.go:60-136 | Two orders never come from one (actor, operation, key) |
| `StoreDelivery.RecordedCreate` | apps/orders/internal/adapters/outbound/postgres/store.go:80-102 | A creation under a recorded key writes nothing and succeeds only with the recorded hash, returning the recorded order and response |
| `StoreDelivery.RecordedCancel` | apps/orders/internal/adapters/outbound/postgres/store.go:182-198 | A cancellation under a recorded key writes nothing; it succeeds iff the hash is equal, and returns the order its record names |
| `OrderStore.Store.Create` | apps/orders/internal/adapters/outbound/postgres/store.go:60-136 | Draft check, idempotency insert, replay or insertion; result and tables are those of the serial specification, rollback on conflict |
| `OrderStore.Store.Replay` | apps/orders/internal/adapters/outbound/postgres/store.go:80-102 | Returns the outcome recorded for the key, or the error for another hash or a missing order |
| `OrderStore.Store.RequestCancellation` | apps/orders/internal/adapters/outbound/postgres/store.go:171-231 | Replay, refusal or guarded cancellation; result and tables are those of the serial specification |
| `OrderStore.Store.WriteCancellation` | apps/orders/internal/adapters/outbound/postgres/store.go:199-230 | The writes of a cancellation: status, version, request response, event and compensation commands of the returned row |
| `OrderStore.Store.BeginFact` | apps/orders/internal/adapters/outbound/postgres/store.go:327-355 | Refuses inadmissible payloads, skips settled events, otherwise opens an attempt that remembers whether it inserted the inbox row |
| `OrderStore.Store.ProcessFact` | apps/orders/internal/adapters/outbound/postgres/store.go:327-447 | A fact processed alone: refused, skipped, failed without change, or applied with its inbox row PROCESSED |
| `OrderStore.Store.RecordFactFailure` | apps/orders/internal/adapters/outbound/postgres/store.go:270-304 | Upserts the retry row; quarantine from the eighth attempt on, and at once for a message without identity |
| `FactTransaction.Transaction.ApplyFact` | apps/orders/internal/adapters/outbound/postgres/store.go:361-447 | The switch over fact types: outcome, row, items and messages are those of the handler specification, from any earlier read |
| `FactTransaction.Transaction.ApplyInventoryReserved` | apps/orders/internal/adapters/outbound/postgres/store.go:469-556 | Reservation handler in every status, from any earlier read |
| `FactTransaction.Transaction.ApplyQuotedReservation` | apps/orders/internal/adapters/outbound/postgres/store.go:506-556 | Quote checks, pricing and writes of a pending order |
| `FactTransaction.Transaction.WriteQuote` | apps/orders/internal/adapters/outbound/postgres/store.go:540-555 | Item prices, guarded total update and authorize command of an accepted quote |
| `FactTransaction.Transaction.WriteQuotedItems` | apps/orders/internal/adapters/outbound/postgres/store.go:540-544 | The loop of item updates equals the fold of the UPDATE statement over the priced items |
| `FactTransaction.Transaction.ApplyPaymentAuthorized` | apps/orders/internal/adapters/outbound/postgres/store.go:558-600 | Authorisation handler in every status |
| `FactTransaction.Transaction.ConfirmOrder` | apps/orders/internal/adapters/outbound/postgres/store.go:578-600 | Guarded confirm update, confirmed event and fulfilment command |
| `FactTransaction.Transaction.ApplyInventoryReleased` | apps/orders/internal/adapters/outbound/postgres/store.go:602-613 | Release handler: reference check, flag, completion |
| `FactTransaction.Transaction.ApplyPaymentRefunded` | apps/orders/internal/adapters/outbound/postgres/store.go:615-626 | Refund handler: reference check, flag, completion |
| `FactTransaction.Transaction.ApplyDependencyFailure` | apps/orders/internal/adapters/outbound/postgres/store.go:374-417 | Failure facts: settlement during cancellation, otherwise FAILED with compensation |
| `FactTransaction.Transaction.SettleFailure` | apps/orders/internal/adapters/outbound/postgres/store.go:374-392 | A failure fact during cancellation: flag, compensation commands, completion |
| `FactTransaction.Transaction.FailOrder` | apps/orders/internal/adapters/outbound/postgres/store.go:393-417 | Guarded FAILED update, failed event and compensation commands |
| `FactTransaction.Transaction.ApplyFulfillmentCompleted` | apps/orders/internal/adapters/outbound/postgres/store.go:418-436 | Completion handler: guarded COMPLETED update and completed event |
| `FactTransaction.Transaction.MaybeCompleteCancellation` | apps/orders/internal/adapters/outbound/postgres/store.go:662-681 | Completes a cancellation exactly when every reference held is settled |
| `FactTransaction.Transaction.InsertCompensationCommands` | apps/orders/internal/adapters/outbound/postgres/store.go:449-467 | Appends the release and refund commands that the trigger and the references call for |
| `FactTransaction.Transaction.MarkInventoryReleased` | apps/orders/internal/adapters/outbound/postgres/store.go:628-643 | Sets the flag once under the version guard |
| `FactTransaction.Transaction.MarkPaymentRefunded` | apps/orders/internal/adapters/outbound/postgres/store.go:645-660 | Sets the flag once under the version guard |
| `FactTransaction.Transaction.UpdateWorkflow` | apps/orders/internal/adapters/outbound/postgres/store.go:683-699 | Skips a terminal order, fails on a version mismatch or a CHECK violation, else writes the row |
| `FactTransaction.Transaction.UpdateOrderWorkflowState` | apps/orders/internal/adapters/outbound/postgres/generated/orders.sql.go:845-849 | The guarded UPDATE with its COALESCE columns; zero rows when the version differs |
| `FactTransaction.Transaction.UpdateOrderItemQuote` | apps/orders/internal/adapters/outbound/postgres/generated/orders.sql.go:819-822 | Writes the quote columns of the item with the given product and no other |
| `OrderAggregate.QuoteAcceptedIff` | apps/orders/internal/domain/orders/models.go:143-187 | The checked loop's verdict equals the condition over unbounded integers |
| `OrderAggregate.NoLineError` | apps/orders/internal/domain/orders/models.go:156-176 | The loop reports no defect iff all prices are usable and the unbounded total is within the limit |
| `OrderAggregate.DivisionGuard` | apps/orders/internal/domain/orders/models.go:167-169 | The division guard is exactly the overflow test on the product |
| `OrderAggregate.Order.SnapshotLines` | apps/orders/internal/domain/orders/models.go:177-182 | The computed lines are copied into the items index by index |
| `QuoteLines.CheckQuoteLines` | apps/orders/internal/adapters/outbound/postgres/store.go:514-536 | Returns the price map iff all lines are valid and distinct and every order item has its quantity among them |
| `QuoteLines.ReadLines` | apps/orders/internal/adapters/outbound/postgres/store.go:514-531 | The loop over the lines accepts iff all are valid and no product repeats; it fills the price and quantity maps |
| `QuoteLines.CheckLine` | apps/orders/internal/adapters/outbound/postgres/store.go:516-528 | One line is valid iff ids and bounds hold, the product fits int64 and equals the line total; the multiplication does not overflow |
| `QuoteLines.AcceptedLinesPermuteItems` | apps/orders/internal/adapters/outbound/postgres/store.go:506-536 | Pigeonhole: accepted lines, as many as items, are a permutation of the priced items |
| `QuoteLines.AcceptedTotalIsQuotedSum` | apps/orders/internal/adapters/outbound/postgres/store.go:506-549 | The total computed from the items is the sum of the quoted line totals |
| `RelayConsumer.ConsumeMessages` | apps/orders/cmd/relay/main.go:149-180 | For every store, every sequence of fetch and commit results and every availability of the store and the dead-letter topic: committed messages are a prefix of fetched ones at every moment, at most one is outstanding, none is committed before the store accepted it or it was published to the dead-letter topic. Wherever the loop stops, the inbox row of every committed message with an identity is PROCESSED or DLQ, unless its event id is that of the message being worked on. Unless cancelled, every delivered message is committed |
| `RelayConsumer.HandleUntilCommitted` | apps/orders/cmd/relay/main.go:157-179 | Retries one message against the store until it is committed, fetching no other meanwhile; once it is committed its inbox row is settled, as is every row that was settled before |
| `RelayConsumer.ProcessMessage` | apps/orders/cmd/relay/main.go:184-212 | From the answers it gets: accepted by the store; or failed and recorded, and from the eighth failure on, or at once without an inbox identity, published and marked DLQ; true iff accepted or completely quarantined, with exactly the tables that leaves |
| `RelayConsumer.RoundSettles` | apps/orders/cmd/relay/main.go:184-212 | A round that lets a message go leaves its inbox row PROCESSED or DLQ, also for a message without identity whose event id has a row |
| `RelayConsumer.LegalIsSafe` | apps/orders/cmd/relay/main.go:149-212 | Every history the loop can produce is safe at every moment |
| `RelayConsumer.BackoffBounded` | apps/orders/cmd/relay/main.go:259-275 | The total backoff from any number of recorded attempts is at most 1956 seconds |
| `RelayConsumer.BackoffExact` | apps/orders/cmd/relay/main.go:259-275 | The delays of both relays, attempt by attempt |
| `RelayConsumer.RoundExact` | apps/orders/cmd/relay/main.go:184-212 | One round of a message for every answer of the store, the failure record, the dead-letter topic and the mark: what is stored, what is seen outside and whether the message is let go |
| `OutboxLease.PublishedWasWritten` | apps/orders/internal/adapters/outbound/postgres/generated/orders.sql.go:653-656 | In every run a row marked published had a successful broker write |
| `OutboxLease.PublishedForGood` | apps/orders/internal/adapters/outbound/postgres/generated/orders.sql.go:637-656 | A published row stays published, at the same time |
| `Sessions.RunKeeps` | apps/identity/internal/application/identity/service.go:143-261 | In every run with stale pre-reads, the sessions of each family form a single chain of rotations of one user, ACTIVE only at its end; token hashes are unique |
| `Sessions.OneActivePerFamily` | apps/identity/internal/application/identity/service.go:143-230 | At most one session of a family is ACTIVE |
| `Sessions.EndedForGood` | apps/identity/internal/adapters/outbound/postgres/generated/identity.sql.go:964-998 | A family without an ACTIVE session never has one again |
| `Sessions.RunAdvances` | apps/identity/internal/adapters/outbound/postgres/generated/identity.sql.go:948-998 | Identity columns never change, a ROTATED session is never ACTIVE again and keeps its successor, and a REVOKED row is never written again |
| `Sessions.RefreshedOnce` | apps/identity/internal/application/identity/service.go:194-220 | However refreshes interleave, a refresh token is exchanged at most once |
| `Sessions.LogoutAllEndsFamilies` | apps/identity/internal/adapters/outbound/postgres/generated/identity.sql.go:980-983 | Revoking a user's sessions ends every family the user had |
| `Sessions.StepKeeps` | apps/identity/internal/application/identity/service.go:143-281 | Each session transaction keeps the chain invariant and only advances rows |
| `Sessions.RotationExtendsChain` | apps/identity/internal/application/identity/service.go:193-212 | A successful refresh appends the replacement to the end of the family's chain |
| `Sessions.SessionStore.FinishRefresh` | apps/identity/internal/application/identity/service.go:165-220 | Exchanges the session iff it was ACTIVE and unexpired when read, is ACTIVE now, the user is active and the new id and hash are unused: the old row is ROTATED, the new one continues family and user and expires thirty days after the read; a collision changes nothing; any other refresh revokes the family |
| `Sessions.SessionStore.RevokeSessionFamily` | apps/identity/internal/adapters/outbound/postgres/generated/identity.sql.go:964-967 | Revokes, at the given time, every session of the family that is not yet revoked, and changes no other row |
| `Jwks.RunKeeps` | apps/gateway/internal/adapters/outbound/jwks/verifier.go:174-214 | In every interleaving at most one fetch is in flight, no done channel is closed twice, every channel made is closed except that of the fetch in progress, and the cache is the last successful fetch |
| `Jwks.NoDeadlock` | apps/gateway/internal/adapters/outbound/jwks/verifier.go:183-196 | Every unfinished caller can move on, or waits for a channel whose fetching caller can complete |
| `Jwks.AtMostOneFetchPerLookup` | apps/gateway/internal/adapters/outbound/jwks/verifier.go:157-214 | A lookup starts or joins at most one fetch |
| `Jwks.ReturnedKeyIsRecent` | apps/gateway/internal/adapters/outbound/jwks/verifier.go:235-237 | Every returned key comes from a successful fetch at most fifteen minutes earlier |
| `Jwks.PassedCheckIsFresh` | apps/gateway/internal/adapters/outbound/jwks/verifier.go:225-243 | A readiness check passes only within five minutes of a successful fetch, and within the age its response allows |
| `Jwks.UnknownKeyIsFetched` | apps/gateway/internal/adapters/outbound/jwks/verifier.go:157-214 | In every run a key the cache did not know when it was looked up is neither found nor refused without starting or joining a fetch |
| `Jwks.LookupExact` | apps/gateway/internal/adapters/outbound/jwks/verifier.go:157-165 | A lookup is answered from the cache at once iff the key is cached and at most fifteen minutes old; it insists on a fetch iff the cache does not know the key |
| `Jwks.RefreshExact` | apps/gateway/internal/adapters/outbound/jwks/verifier.go:174-196 | A caller that does not insist returns iff the cache is fresh; otherwise it joins the fetch in progress or starts one |
| `Jwks.WaitExact` | apps/gateway/internal/adapters/outbound/jwks/verifier.go:185-193 | A waiting caller wakes when its channel is closed and is refused unless the cache is fresh by then |
| `Jwks.FetchExact` | apps/gateway/internal/adapters/outbound/jwks/verifier.go:198-214 | A successful fetch replaces keys, time and age, a failed one none of them; both close the channel |
| `Jwks.FinalExact` | apps/gateway/internal/adapters/outbound/jwks/verifier.go:168-172 | After the refresh the lookup is answered iff the key is cached and at most fifteen minutes old |
| `Jwks.StepKeeps` | apps/gateway/internal/adapters/outbound/jwks/verifier.go:157-214 | Each atomic section of a caller keeps the cache invariant |
| `Jwks.Verifier.Find` | apps/gateway/internal/adapters/outbound/jwks/verifier.go:157-171 | Returns the key iff it is cached and at most fifteen minutes old |
| `Jwks.Verifier.BeginRefresh` | apps/gateway/internal/adapters/outbound/jwks/verifier.go:178-196 | Returns iff not forced and the cache is fresh, joins iff a fetch is in progress, otherwise starts one on a new open channel; keeps the channel invariant |
| `Jwks.Verifier.EndRefresh` | apps/gateway/internal/adapters/outbound/jwks/verifier.go:198-205 | Stores keys, time and age of a successful fetch, keeps the cache after a failed one, closes the open channel once; keeps the channel invariant |
| `Pagination.WalkIsSortedListing` | apps/orders/internal/adapters/outbound/postgres/store.go:138-169 | On a fixed table a completed walk returns exactly the orders of the customer in the status asked for, each once, newest first and by descending identifier at equal times |
| `Pagination.WalkEnds` | apps/orders/internal/adapters/outbound/postgres/store.go:138-169 | On a fixed table a walk has at most one page more than there are matching orders |
| `Pagination.NoOrderTwice` | apps/orders/internal/adapters/outbound/postgres/store.go:138-169 | With orders created and changed between pages no order is returned twice |
| `Pagination.NothingMissed` | apps/orders/internal/adapters/outbound/postgres/store.go:138-169 | An order that matches throughout a completed walk is returned |
| `Pagination.WalkDescends` | apps/orders/internal/adapters/outbound/postgres/generated/orders.sql.go:455-466 | Whatever happens between pages, the keys of a walk descend strictly |
| `Pagination.List` | apps/orders/internal/adapters/outbound/postgres/store.go:138-169 | Refuses foreign and malformed cursors; otherwise returns the newest orders of the customer in the status asked for that are older than the cursor, with a next cursor iff more are left; an empty page for limit zero |
| `Pagination.ListOrders` | apps/orders/internal/adapters/outbound/postgres/generated/orders.sql.go:455-466 | The eligible rows in descending key order, at most the page size, none skipped |
| `Pagination.PageShown` | apps/orders/internal/adapters/outbound/postgres/store.go:138-169 | A page holds only orders asked for and older than the cursor, newest first; those left out are older than all of it, and the next key is there iff some are |
| `Pagination.TextBeforeIff` | apps/orders/internal/adapters/outbound/postgres/generated/orders.sql.go:455-466 | Identifiers are ordered by their first difference |
| `Pagination.CutAtLimit` | apps/orders/internal/adapters/outbound/postgres/store.go:150-166 | Dropping the extra row loses nothing: every remaining order lies below the next cursor |
| `Serialisability.RunIsSerial` | apps/orders/internal/adapters/outbound/postgres/store.go:327-447 | Every interleaving of creations, cancellations and split fact transactions (inbox insert, row read, item read, commit) has a serial order in which every committed create, cancel and fact occurs exactly once: at its commit, or, for a fact that committed from a stale read, at the read of its row. In that order each returns and sends what it did in the run, and orders, items, sagas, requests, the sequence of order events, the multiset of outbox messages, and the inbox row of every event without a failure record are the same |
| `Serialisability.RunInboxIsSerial` | apps/orders/internal/adapters/outbound/postgres/store.go:343-355 | Any such serial order leaves, for every event for which neither a failure nor a dead letter was recorded, the inbox row of the run |
| `Serialisability.RunCommitSerialIff` | apps/orders/internal/adapters/outbound/postgres/store.go:683-699 | In every run a committed fact has the outcome it has alone at its commit if and only if its row was up to date or the stored row gives it the same to do |
| `Serialisability.OvertakenPaymentDoesLess` | apps/orders/internal/adapters/outbound/postgres/store.go:558-577 | After any run, a payment fact read while its order was CONFIRMED and committed after a cancellation request does nothing, while alone at that moment it would store the payment and send its refund |
| `Serialisability.FreshCommitIsSerial` | apps/orders/internal/adapters/outbound/postgres/store.go:683-699 | A commit whose row is still at the version it read leaves exactly the tables of the fact run alone, inbox included, and sends the same messages |
| `Serialisability.StaleFactAtRead` | apps/orders/internal/adapters/outbound/postgres/store.go:375-392 | A fact that committed from a stale read, run alone at the position of that read, changes no order, sends what it sent and is answered as it was |
| `Serialisability.AfterInserted` | apps/orders/internal/adapters/outbound/postgres/store.go:449-467 | A transaction that leaves orders, items, sagas and requests alone can be inserted anywhere in a serial order: all later ones find those tables as before |
| `Serialisability.SerialAtInserted` | apps/orders/internal/adapters/outbound/postgres/store.go:449-467 | Such an insertion adds its own commands to the outbox and nothing else; the order events are unchanged |
| `StoreTheorems.StaleCommitRepeats` | apps/orders/internal/adapters/outbound/postgres/store.go:375-392 | A commit from a stale read changes no table but the inbox, and adds only commands that repeat ones already in the outbox |
| `StoreTheorems.RunTotalsAreQuoted` | apps/orders/internal/adapters/outbound/postgres/store.go:506-549 | In every run the total is written only by the commit, with a verified quote, of a reservation fact that names this order; its reservation is then the one stored, the stored items are a permutation of its quote lines (product, quantity, price, line total) and the total is the sum of the quoted line totals |
| `AttemptEffects.RunCommitExact` | apps/orders/internal/adapters/outbound/postgres/store.go:356-447 | In every run a commit leaves exactly what its fact gives, from the stored row if that is the row it read, and otherwise only if it writes nothing; the inbox row becomes PROCESSED, and a rejected fact changes nothing |
| `AttemptEffects.RunFactAlone` | apps/orders/internal/adapters/outbound/postgres/store.go:356-439 | On the tables of any run, a fact processed with nothing in between does exactly what it gives |
| `AttemptEffects.RunUnverifiedQuote` | apps/orders/internal/adapters/outbound/postgres/store.go:511-513 | In every run a commit whose quote was not verified leaves every total and every item as it is and sends no authorize command |
| `AttemptEffects.RunCancellationSettles` | apps/orders/internal/adapters/outbound/postgres/store.go:602-681 | In every run an up-to-date attempt at a release, a refund, a refused reservation or a declined payment of a CANCEL_REQUESTED order is applied: it sets its flag, keeps references and total, and the order is CANCELLED, with one cancelled event, iff the other side is settled |
| `AttemptEffects.RunSameLines` | apps/orders/internal/adapters/outbound/postgres/store.go:541-544 | In every run an order keeps its products and quantities |
| `AttemptEffects.OpenExact` | apps/orders/internal/adapters/outbound/postgres/store.go:328-355 | An attempt is opened iff the envelope is complete, of version one, about a valid order id, from the service that owns the fact, and its event is not PROCESSED or DLQ |
| `AttemptEffects.ReadsExact` | apps/orders/internal/adapters/outbound/postgres/store.go:356-359 | An attempt reads the row of its order once and then its items once |
| `AttemptEffects.RecordsExact` | apps/orders/internal/adapters/outbound/postgres/store.go:270-308 | A failure record upserts RETRY with one more attempt for an identified message, a dead-letter mark sets DLQ on an existing row; neither touches anything else |
| `RequestEffects.RunCreateExact` | apps/orders/internal/adapters/outbound/postgres/store.go:60-136 | Every creation in every run: refused for its first defect, replayed under a recorded key and hash, refused for a taken id, or inserted with its row, items, saga, record, event and reserve command, field by field |
| `RequestEffects.RunOrderAsCreated` | apps/orders/internal/adapters/outbound/postgres/store.go:60-136 | An order comes into being only by a creation, PENDING at version one, with the id, customer, normalised currency, products, quantities and time of that request, and keeps all of these for good |
| `RequestEffects.RunCancelExact` | apps/orders/internal/adapters/outbound/postgres/store.go:171-231 | Every cancellation in every run: replayed under a recorded key and hash; under a new key it succeeds iff the order is stored at the expected version and PENDING or CONFIRMED, and then the row is CANCEL_REQUESTED at the next version with every other column as stored, with its record, event and commands |
| `RequestEffects.RunCancelledOnce` | apps/orders/internal/adapters/outbound/postgres/generated/orders.sql.go:766-772 | Of the cancellations of an order that expect the same version at most one succeeds |
| `StoreTheorems.RunFollowsTableIff` | apps/orders/internal/adapters/outbound/postgres/store.go:418-436 | In every run a change of status is one the aggregate's table allows if and only if it is not the commit of a completion fact for an order that is not CONFIRMED |
| `StoreTheorems.RunReservationNeverMissing` | apps/orders/internal/adapters/outbound/postgres/store.go:558-592 | In every run and for every attempt in flight: if the payment matches the order it loaded, that order has a reservation, so the missing-reservation error cannot occur; if the order is still current the commit confirms it |
| `MessageContents.RunMessagesFaithful` | apps/orders/internal/adapters/outbound/postgres/store.go:729-740 | In every reachable state: created events, reserve and fulfilment commands carry the stored customer, currency, products and quantities; confirmed events and fulfilment commands name the stored payment and reservation unless a cancellation was requested since; release and refund commands are absent from PENDING and CONFIRMED orders; a completion event names the stored shipment and a failure event the stored failure code |
| `MessageContents.FactTruthful` | apps/orders/internal/adapters/outbound/postgres/store.go:361-439 | What one applied fact sends agrees with what it stores, and it leaves alone what earlier messages have said |
| `MessageContents.FailureCompensates` | apps/orders/internal/adapters/outbound/postgres/store.go:393-417 | A failing order stores its reason, keeps its references, and sends exactly the release and refund commands its failure calls for |
| `MessageContents.RunFailureCompensates` | apps/orders/internal/adapters/outbound/postgres/store.go:393-417 | For every run and every order that failed in it: a failure fact failed it, and from then on it has sent a release command iff it holds a reservation and inventory did not itself refuse, and a refund command iff it holds a payment and fulfilment failed; with any other failure fact a payment stays without a refund command |
| `SagaInterleaving.StaleActsAtRead` | apps/orders/internal/adapters/outbound/postgres/store.go:361-439 | What a handler commits from a stale read is what it would have done alone at the moment it read the row |
| `SagaPreservation.ConfirmEffect` | apps/orders/internal/adapters/outbound/postgres/store.go:578-592 | From a row that satisfies the invariant a matching authorisation always confirms: it stores the payment and sends one confirmed event and one fulfilment command |
| `SagaTheorems.StoreLeavesTransitionTable` | apps/orders/internal/adapters/outbound/postgres/store.go:418-436 | The two departures from the aggregate's table happen: a completion fact completes PENDING and CANCEL_REQUESTED orders, and a failure fact never fails a CANCEL_REQUESTED one although the table allows it |
| `SagaTheorems.FollowsTableIff` | apps/orders/internal/adapters/outbound/postgres/store.go:361-439 | An applied fact that changes the status makes a transition of the aggregate's table if and only if it is not a completion of an order that is not CONFIRMED |
| `StoreDelivery.ApplicationsExact` | apps/orders/internal/adapters/outbound/postgres/generated/orders.sql.go:688-697 | In every run the committed applications of an event plus the dead-letter marks of its unsettled row number exactly the failure records over its settled row plus the commits made after it was settled, plus one if it is settled |
| `StoreDelivery.AtMostOnceIff` | apps/orders/internal/adapters/outbound/postgres/store.go:343-355 | An event is applied at most once if and only if the reopenings of its row and the late commits, counting its present state, exceed its burials by at most one |
| `StoreDelivery.AppliedTwiceOnlyIf` | apps/orders/internal/adapters/outbound/postgres/store.go:343-355 | Of any two committed applications of an event in a run, the attempt of the second was already in flight when the first committed, or a failure record was written over the settled row in between |
| `StoreDelivery.FailureRecordReopens` | apps/orders/internal/adapters/outbound/postgres/generated/orders.sql.go:688-697 | Reopening happens: after any run, a completion fact for an ended order is applied, a failure record reopens its PROCESSED row, and the next delivery applies it again |
| `StoreDelivery.OverlapAppliesLate` | apps/orders/internal/adapters/outbound/postgres/store.go:343-355 | Late commits happen: after any run that left the event in RETRY, two overlapping attempts at the completion of an ended order both commit, the second after the event was settled |
| `StoreDelivery.NeverLeftReceived` | apps/orders/internal/adapters/outbound/postgres/generated/orders.sql.go:601-604 | Although every fact transaction inserts its inbox row as RECEIVED, no committed inbox row is RECEIVED |
| `OrderStore.Store.CommitFact` | apps/orders/internal/adapters/outbound/postgres/store.go:343-447 | Inserts the inbox row as RECEIVED, applies the handler's writes, marks the row PROCESSED and commits, or rolls every table back |
| `OrderAggregate.NewOrder` | apps/orders/internal/domain/orders/models.go:74-112 | Succeeds exactly on valid drafts, with the id, customer, products and quantities given, the currency trimmed and capitalised, both times the time given, version one, status PENDING and no price, reference or flag; otherwise returns the first defect, field by field and item by item |
| `OrderAggregate.DraftErrorTells` | apps/orders/internal/domain/orders/models.go:74-107 | The defect reported is the first one in the order of examination; of the items, the first that is not sound |
| `OrderAggregate.IdentifiersExact` | apps/orders/internal/domain/orders/models.go:57-64 | Each identifier is its prefix followed by letters and digits, a currency three capitals |
| `Basics.NormalText` | apps/orders/internal/domain/orders/models.go:81 | The normal currency is the text between the white space around it, with small letters made capital |
| `OrderAggregate.DraftAcceptedIff` | apps/orders/internal/domain/orders/models.go:74-112 | The sequence of checks is silent iff ids, normalised currency, item count, quantities, distinct products and time are all valid |
| `OrderAggregate.CheckItems` | apps/orders/internal/domain/orders/models.go:91-103 | The loop with its set of seen products reports the first defect of the item list |
| `StoreDelivery.NormalisedRequest` | apps/orders/internal/application/orders/service.go:77-85 | A creation request with its currency already trimmed and upper-cased has the outcome and the effect of the request as it came |
| `OrderAggregate.Order.ApplyQuote` | apps/orders/internal/domain/orders/models.go:143-187 | For any quantities: the first defect met, or the prices and the accumulated total; on any rejection the order is unchanged. For positive quantities it accepts iff the preconditions hold, every price is present and in range and the exact sum is at most the maximum, and the total is that sum |
| `OrderAggregate.LineErrorTells` | apps/orders/internal/domain/orders/models.go:155-175 | The quote loop stops at the first item whose price is missing or out of range, or that takes the exact total over the limit |
| `OrderAggregate.PriceLines` | apps/orders/internal/domain/orders/models.go:156-176 | The checked accumulation loop, for quantities of any sign: first defect, lines and the int64 total with its wrap-around; for positive quantities the total is exact |
| `OrderAggregate.PriceLine` | apps/orders/internal/domain/orders/models.go:161-175 | One turn: the division guard and the subtraction guard decide exactly as unbounded integers would, and the product fits int64 whatever the sign of the quantity |
| `OrderAggregate.RunningIsExact` | apps/orders/internal/domain/orders/models.go:156-176 | As long as the loop reports no defect on positive quantities, its int64 accumulator holds the exact total |
| `RelayConsumer.RetryUntilSettled` | apps/orders/cmd/relay/main.go:157-212 | For any mix of store results, with failure records and dead-letter writes working, a message leaves the loop accepted with a settled inbox row, or quarantined with no other table changed, after at most the attempts left of eight and 1956 seconds of backoff; a message without inbox identity is quarantined after one failure, and the inbox row of its event id, if any, is dead-lettered |
| `RelayConsumer.QuarantinedRow` | apps/orders/internal/adapters/outbound/postgres/store.go:306-308 | The quarantine of a message with an identity leaves its inbox row dead-lettered with all its attempts, and changes nothing else |
| `OutboxLease.TimelyRelaysExclude` | apps/orders/cmd/relay/main.go:113-141 | In every run in which no clock step passes the end of a held lease, no two relays hold the same row, and every held row is unpublished, due and leased to its holder |
| `OutboxLease.SharingIff` | apps/orders/internal/adapters/outbound/postgres/generated/orders.sql.go:27-41 | The condition is exact: after a timely run, letting the clock pass to a time makes some claim share a row if and only if a relay still holds a row whose lease ends before that time |
| `OutboxLease.RowsBounded` | apps/orders/cmd/relay/main.go:259-268 | In every run no lease ends later than two minutes from now, and no retry is put off by more than half an hour |
| `OutboxLease.UnpublishedBecomesDue` | apps/orders/internal/adapters/outbound/postgres/generated/orders.sql.go:27-41 | After any run an unpublished row is claimable at every time from half an hour on that is not before its creation time |
| `OutboxLease.PassingClaimsBounded` | apps/orders/internal/adapters/outbound/postgres/generated/orders.sql.go:27-41 | While a due row waits and no older row becomes due, the oldest-first claims that pass it by, times the size of a claim, number at most the due rows ahead of it |
| `OutboxLease.UnpublishedIsTaken` | apps/orders/internal/adapters/outbound/postgres/generated/orders.sql.go:27-41 | After any run, from a bounded time on, an unpublished row is taken by one of the next oldest-first claims as soon as these outnumber the due rows ahead of it |
| `OutboxLease.Relay.ClaimPendingOutbox` | apps/orders/internal/adapters/outbound/postgres/generated/orders.sql.go:27-41 | Leases for two minutes exactly the oldest unpublished rows whose retry time has come and whose lease has ended, up to the limit, changing no other row; it is the claim step of the relays' state machine |
| `OutboxLease.Relay.PublishBatch` | apps/orders/cmd/relay/main.go:113-141 | A failed write counts an attempt, frees the row and puts it off by the delay of its attempts; a written row is marked published; the first row written but not marked stops the batch; no other row is touched. The loop takes exactly the send, publish, fail and drop steps of the relays' state machine |
| `OutboxLease.BatchExact` | apps/orders/cmd/relay/main.go:113-141 | The steps of a batch stop at the first row written but not marked, and leave each row before it published, put off or untouched, column by column |
| `OutboxLease.StepsContinueRun` | apps/orders/cmd/relay/main.go:113-141 | The steps of a batch continue the run they start from, so every theorem about runs holds of them |
| `Sessions.SpentTokenEndsFamily` | apps/identity/internal/application/identity/service.go:165-220 | Once a session was seen ROTATED or REVOKED, whoever completes a refresh with its token, however early it was read, is detected and ends the family for good |
| `Sessions.ExchangedTokenEndsFamily` | apps/identity/internal/application/identity/service.go:194-220 | Presenting a token that was already exchanged is detected and ends its family for good |
| `Sessions.ExpiredTokenEndsFamily` | apps/identity/internal/application/identity/service.go:165-176 | Presenting a token that had expired at its read is detected and ends its family for good |
| `Sessions.DisabledUserEndsFamily` | apps/identity/internal/application/identity/service.go:165-176 | Completing a refresh for a user who is not active is a detected reuse and ends the family for good |
| `Sessions.RefreshedIff` | apps/identity/internal/application/identity/service.go:165-220 | In every run a refresh succeeds iff the session was ACTIVE and unexpired at its read, is ACTIVE now, the user is active and the new id and hash are unused |
| `Sessions.RunRefreshExact` | apps/identity/internal/application/identity/service.go:165-220 | In every run a completed refresh is a detected reuse that revokes the family, a collision that changes nothing, or an exchange for a session of the same family and user, with every row stated |
| `Sessions.LoginExact` | apps/identity/internal/application/identity/service.go:232-261 | A login adds one ACTIVE session of a new family that expires in thirty days, unless id, hash or family is taken |
| `Sessions.LogoutExact` | apps/identity/internal/adapters/outbound/postgres/generated/identity.sql.go:948-983 | A logout revokes the session named, logging out everywhere all sessions of the user; rows revoked before keep their time |
| `OrderListing.RunKeysFixed` | apps/orders/internal/adapters/outbound/postgres/store.go:103-108 | At all moments of a run of the store an order has one key, so the listing theorems apply to its tables |
| `OrderListing.RunListing` | apps/orders/internal/adapters/outbound/postgres/store.go:138-169 | A client that follows cursors while the store runs is never shown an order twice, is shown only orders that belonged to the customer and were in the status asked for at one of its reads, and after a completed walk every order that was so at each read |

## Left out

- OrderAggregate.NewOrder: times are UTC nanoseconds, zero or local; letters whose capital is outside A to Z stay as they are, since no such text is a currency either way.
- Serialisability.RunIsSerial: failure records and dead-letter marks are no transactions of the serial order, so the inbox rows of events that have them are not compared.
- OutboxLease.TimelyRelaysExclude: one clock is shared by all relays and the database.
- OutboxLease.UnpublishedIsTaken: claims follow each other at one moment; `PassingClaimsBounded` allows other steps in between as long as no older row becomes due again.
- OutboxLease.Relay.ClaimPendingOutbox: row locks and SKIP LOCKED are replaced by one atomic claim; the order of the returned rows, which the statement leaves open, is not stated; the state machine's claim is stated for limits up to the relay's hundred.
- OutboxLease.Relay.PublishBatch: the results of broker writes and of marking statements, and the times at which they happen, are parameters; the clock does not run backwards.
- RelayConsumer.ConsumeMessages: no other consumer and no request changes the store meanwhile; the results of the reader, the broker and the database connection are parameters.
- RelayConsumer.RetryUntilSettled: no other consumer works on the message meanwhile, and other orders stay as they are; the store's availability and the verdicts on the quote are parameters.
- Sessions.RunKeeps: each identity transaction is atomic, login draws a family identifier that is not in use, and the user row is a parameter of the refresh.
- Sessions.LogoutAllEndsFamilies: says nothing about families that begin after the revocation.
- Jwks.RunKeeps: a fetch returns in the end with keys or an error; the clock does not run backwards.
- Pagination.List: the cursor encoding and its signature are a bijection and a verdict; negative limits, which the service excludes, are not modelled. Listed orders are represented by their keys, not loaded again.
- Pagination.ListOrders: identifiers are compared by code point, in place of the database collation.
- The service's cap on cursor length: pages are stated at the store, below that cap.
- Order transitions through `TransitionIfVersion` and `Confirm`: the store does not call them.
- Errors of `ProcessFact` are one rejection; their texts and wrapping are not distinguished.
- Message UUIDs, headers, topics, partition keys and payload timestamps of outbox rows, and the saga phase text.
- Expiry of idempotency records and 64-bit wrap-around of aggregate versions.
- Quote signatures, request hashes, password and token hashing, JWT parsing: verdicts and opaque values are parameters.
- Rate limits, audit records, roles, mail, one-time tokens and administrator counting in the identity service.
- HTTP handlers, configuration, telemetry, metrics, and the internals of Kafka, PostgreSQL and Redis.
- The identity outbox relay: a simpler copy of the orders outbox.
