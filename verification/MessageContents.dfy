/** What the outbox says about an order agrees with the order's own tables. */
module MessageContents {
  import opened Basics
  import opened OrderAggregate
  import opened QuoteLines
  import opened Saga
  import opened SagaInvariant
  import opened SagaPreservation
  import opened SagaInterleaving
  import opened SagaTheorems
  import opened StoreModel
  import opened StoreInvariant
  import opened StoreTheorems

  /** A message about an order agrees with the order as it is stored, whatever was
      stored when the message was sent. References can be replaced only after a
      cancellation was requested; `cancelled` tells whether one was. */
  ghost predicate Faithful(row: OrderRow, items: seq<Item>, cancelled: bool, body: Body) {
    match body
    case OrderCreated(customerId, currency, lines) => Describes(row, items, customerId, currency, lines)
    case ReserveInventory(customerId, currency, lines) => Describes(row, items, customerId, currency, lines)
    case OrderConfirmed(paymentId, reservationId) =>
      && ValidPaymentId(paymentId) && ValidReservationId(reservationId) && row.status != Pending
      && (!cancelled ==> row.paymentId == Some(paymentId) && row.reservationId == Some(reservationId))
    case CreateFulfillment(customerId, reservationId, currency, lines) =>
      && Describes(row, items, customerId, currency, lines) && ValidReservationId(reservationId) &&
         row.status != Pending
      && (!cancelled ==> row.reservationId == Some(reservationId))
    case ReleaseInventory(_) => row.status != Pending && row.status != Confirmed
    case RefundPayment(_, _, _) => row.status != Pending && row.status != Confirmed
    case OrderCompleted(shipmentId) => row.shipmentId == Some(shipmentId)
    case OrderFailed(reason) => row.failureCode == Some(reason)
    case _ => true
  }

  predicate Describes(row: OrderRow, items: seq<Item>, customerId: string, currency: string,
                      lines: seq<(string, int32)>) {
    customerId == row.customerId && currency == row.currency && lines == ItemLines(items)
  }

  ghost predicate AllFaithful(row: OrderRow, items: seq<Item>, cancelled: bool, log: seq<Message>) {
    forall i :: 0 <= i < |log| ==> Faithful(row, items, cancelled, log[i].body)
  }

  ghost predicate WasCancelled(log: seq<Message>) {
    exists i :: 0 <= i < |log| && log[i].body.CancellationRequested?
  }

  /** What a change of an order leaves alone. */
  ghost predicate Survives(row: OrderRow, items: seq<Item>, next: OrderRow, nextItems: seq<Item>) {
    && next.customerId == row.customerId && next.currency == row.currency && ItemLines(nextItems) == ItemLines(items)
    && (row.status != Pending ==> next.status != Pending && (next.status == Confirmed ==> row.status == Confirmed))
    && (row.status != Pending && row.status != CancelRequested ==>
          next.paymentId == row.paymentId && next.reservationId == row.reservationId)
    && (IsTerminal(row.status) ==> next.shipmentId == row.shipmentId && next.failureCode == row.failureCode)
  }

  lemma {:induction false} EventCounted(log: seq<Message>, i: nat, s: Status)
    requires i < |log| && Announces(log[i].body) == Some(s)
    ensures 1 <= CountEvents(log, s)
  {
    var n := |log| - 1;
    if i < n {
      assert log[..n][i] == log[i];
      EventCounted(log[..n], i, s);
    }
  }

  /** A terminal event is the last one. */
  lemma {:induction false} TerminalEventTells(row: OrderRow, log: seq<Message>, i: nat)
    requires LogInv(row, log) && i < |log| && (log[i].body.OrderCompleted? || log[i].body.OrderFailed?)
    ensures IsTerminal(row.status)
  {
    var s := Announces(log[i].body).value;
    EventCounted(log, i, s);
    HistoryCounts(log, s);
  }

  lemma {:induction false} LastStatusAnnounced(log: seq<Message>, s: Status)
    requires LastStatus(log) == Some(s)
    ensures exists i :: 0 <= i < |log| && Announces(log[i].body) == Some(s)
  {
    var n := |log| - 1;
    if Announces(log[n].body) != Some(s) {
      LastStatusAnnounced(log[..n], s);
      var i :| 0 <= i < n && Announces(log[..n][i].body) == Some(s);
      assert Announces(log[i].body) == Some(s);
    }
  }

  lemma {:induction false} CancellingWasCancelled(row: OrderRow, log: seq<Message>)
    requires LogInv(row, log) && row.status == CancelRequested
    ensures WasCancelled(log)
  {
    LastStatusAnnounced(log, CancelRequested);
  }

  lemma {:induction false} OldStayFaithful(row: OrderRow, items: seq<Item>, log: seq<Message>, next: OrderRow,
                                           nextItems: seq<Item>, cancelled: bool)
    requires LogInv(row, log) && AllFaithful(row, items, WasCancelled(log), log) &&
             Survives(row, items, next, nextItems)
    requires WasCancelled(log) ==> cancelled
    ensures AllFaithful(next, nextItems, cancelled, log)
  {
    if row.status == CancelRequested { CancellingWasCancelled(row, log); }
    forall i | 0 <= i < |log| ensures Faithful(next, nextItems, cancelled, log[i].body) {
      assert Faithful(row, items, WasCancelled(log), log[i].body);
      if log[i].body.OrderCompleted? || log[i].body.OrderFailed? {
        TerminalEventTells(row, log, i);
      }
    }
  }

  lemma {:induction false} CancelledGrows(log: seq<Message>, out: seq<Message>)
    requires WasCancelled(log)
    ensures WasCancelled(log + out)
  {
    var i :| 0 <= i < |log| && log[i].body.CancellationRequested?;
    assert (log + out)[i] == log[i];
  }

  lemma {:induction false} FaithfulAppend(row: OrderRow, items: seq<Item>, log: seq<Message>, out: seq<Message>,
                                          cancelled: bool)
    requires AllFaithful(row, items, cancelled, log) && AllFaithful(row, items, false, out)
    ensures AllFaithful(row, items, cancelled, log + out)
  {}

  // ------------------------------------------------------------------------- facts

  lemma {:induction false} CompensationFaithful(row: OrderRow, items: seq<Item>, order: OrderRow, sagaId: string,
                                                causationId: string, t: Trigger)
    requires row.status != Pending && row.status != Confirmed
    ensures AllFaithful(row, items, false, Compensation(order, sagaId, causationId, t))
  {}

  /** What an applied fact sends agrees with what it stores. */
  ghost predicate Truthful(row: OrderRow, items: seq<Item>, v: View) {
    Survives(row, items, v.row, v.items) && AllFaithful(v.row, v.items, false, v.out)
  }

  lemma {:induction false} CompletionTruthful(row: OrderRow, items: seq<Item>, next: OrderRow, out: seq<Message>,
                                              sagaId: string, causationId: string, now: int)
    requires StorableTotal(row.total) && AllFaithful(next, items, false, out)
    requires next == row.(inventoryReleased := next.inventoryReleased, paymentRefunded := next.paymentRefunded,
                          version := next.version, updatedAt := next.updatedAt)
    requires AllFaithful(next.(status := Cancelled, version := next.version + 1, updatedAt := now), items, false, out)
    ensures var o := MaybeComplete(View(next, items, out), next, sagaId, causationId, now);
            o.Applied? ==> Truthful(row, items, o.view)
  {
    if next.status == CancelRequested && CompensationComplete(next) {
      CompletionEffect(next, items, out, sagaId, causationId, now);
    }
  }

  lemma {:induction false} ReservedTruthful(row: OrderRow, items: seq<Item>, e: Envelope, quoteOk: bool, now: int)
    requires RowInv(row) && WellFormedItems(items) && e.body.InventoryReserved? &&
             Serial(row, items, e, quoteOk, now).Applied?
    ensures Truthful(row, items, Serial(row, items, e, quoteOk, now).view)
  {
    if row.status == Pending {
      QuoteTotal(row, items, e.body, quoteOk, now);
      QuoteFactEffect(row, items, e, quoteOk, now);
      assert ItemLines(PricedItems(items, PricesIn(e.body.lines.value), e.body.quoteId, e.body.quoteVersion.value)) ==
             ItemLines(items);
    } else if row.status == CancelRequested {
      LateReservationEffect(row, items, e, quoteOk, now);
      var next := LateRow(row, Some(e.body.reservationId), None, now);
      CompensationFaithful(next, items, next, e.sagaId, e.eventId, OnCancellation);
    }
  }

  lemma {:induction false} AuthorizedTruthful(row: OrderRow, items: seq<Item>, e: Envelope, quoteOk: bool, now: int)
    requires RowInv(row) && e.body.PaymentAuthorized? && Serial(row, items, e, quoteOk, now).Applied?
    ensures Truthful(row, items, Serial(row, items, e, quoteOk, now).view)
  {
    if row.status == Pending {
      ConfirmEffect(row, items, e, quoteOk, now);
    } else if row.status == CancelRequested {
      LatePaymentEffect(row, items, e, quoteOk, now);
      var next := LateRow(row, None, Some(e.body.paymentId), now);
      CompensationFaithful(next, items, next, e.sagaId, e.eventId, OnCancellation);
    }
  }

  lemma {:induction false} SettlementSetsFlags(row: OrderRow, f: FactBody, now: int)
    ensures var next := SettledRow(row, f, now);
            next == row.(inventoryReleased := next.inventoryReleased, paymentRefunded := next.paymentRefunded,
                         version := next.version, updatedAt := next.updatedAt)
  {}

  lemma {:induction false} SettlementTruthful(row: OrderRow, items: seq<Item>, e: Envelope, quoteOk: bool, now: int)
    requires RowInv(row) && IsFailureFact(e.body) && row.status == CancelRequested &&
             Serial(row, items, e, quoteOk, now).Applied?
    ensures Truthful(row, items, Serial(row, items, e, quoteOk, now).view)
  {
    SettlementEffect(row, items, e, quoteOk, now);
    var next := SettledRow(row, e.body, now);
    var out := Compensation(next, e.sagaId, e.eventId, TriggerOf(e.body));
    SettlementSetsFlags(row, e.body, now);
    CompensationFaithful(next, items, next, e.sagaId, e.eventId, TriggerOf(e.body));
    CompensationFaithful(CompletedRow(next, now), items, next, e.sagaId, e.eventId, TriggerOf(e.body));
    CompletionTruthful(row, items, next, out, e.sagaId, e.eventId, now);
  }

  lemma {:induction false} FailedTruthful(row: OrderRow, items: seq<Item>, e: Envelope, reason: string, now: int)
    requires RowInv(row) && IsFailureFact(e.body) && !IsTerminal(row.status) && StorableFailureCode(reason) &&
             reason != ""
    ensures FailWith(View(row, items, []), row, e, reason, now).Applied?
    ensures Truthful(row, items, FailWith(View(row, items, []), row, e, reason, now).view)
  {
    FailedEffect(row, items, e, reason, now);
    var next := FailedRow(row, reason, now);
    CompensationFaithful(next, items, next, e.sagaId, e.eventId, TriggerOf(e.body));
  }

  lemma {:induction false} FailureTruthful(row: OrderRow, items: seq<Item>, e: Envelope, quoteOk: bool, now: int)
    requires RowInv(row) && IsFailureFact(e.body) && Serial(row, items, e, quoteOk, now).Applied?
    ensures Truthful(row, items, Serial(row, items, e, quoteOk, now).view)
  {
    if row.status == CancelRequested {
      SettlementTruthful(row, items, e, quoteOk, now);
    } else if !IsTerminal(row.status) {
      FailedEffect(row, items, e, FailureReason(e.body), now);
      FailedTruthful(row, items, e, FailureReason(e.body), now);
    }
  }

  lemma {:induction false} FlagTruthful(row: OrderRow, items: seq<Item>, e: Envelope, quoteOk: bool, now: int)
    requires RowInv(row) && (e.body.InventoryReleased? || e.body.PaymentRefunded?) &&
             Serial(row, items, e, quoteOk, now).Applied?
    ensures Truthful(row, items, Serial(row, items, e, quoteOk, now).view)
  {
    if e.body.InventoryReleased? {
      CompletionTruthful(row, items, ReleasedRow(row, now), [], e.sagaId, e.eventId, now);
    } else {
      CompletionTruthful(row, items, RefundedRow(row, now), [], e.sagaId, e.eventId, now);
    }
  }

  lemma {:induction false} FulfilledTruthful(row: OrderRow, items: seq<Item>, e: Envelope, quoteOk: bool, now: int)
    requires RowInv(row) && e.body.FulfillmentCompleted? && Serial(row, items, e, quoteOk, now).Applied?
    ensures Truthful(row, items, Serial(row, items, e, quoteOk, now).view)
  {
    if !IsTerminal(row.status) {
      FulfilledEffect(row, items, e, now);
    }
  }

  /** What an applied fact sends and stores agree. */
  lemma {:induction false} FactTruthful(row: OrderRow, items: seq<Item>, e: Envelope, quoteOk: bool, now: int)
    requires RowInv(row) && WellFormedItems(items) && Serial(row, items, e, quoteOk, now).Applied?
    ensures Truthful(row, items, Serial(row, items, e, quoteOk, now).view)
  {
    if e.body.InventoryReserved? {
      ReservedTruthful(row, items, e, quoteOk, now);
    } else if e.body.PaymentAuthorized? {
      AuthorizedTruthful(row, items, e, quoteOk, now);
    } else if e.body.InventoryReleased? || e.body.PaymentRefunded? {
      FlagTruthful(row, items, e, quoteOk, now);
    } else if IsFailureFact(e.body) {
      FailureTruthful(row, items, e, quoteOk, now);
    } else if e.body.FulfillmentCompleted? {
      FulfilledTruthful(row, items, e, quoteOk, now);
    }
  }

  // -------------------------------------------------------------------------- runs

  ghost predicate OrderFaithful(db: Db, id: string) {
    id in db.orders ==>
      var log := LogOf(db.outbox, id); AllFaithful(db.orders[id], ItemsOf(db, id), WasCancelled(log), log)
  }

  ghost predicate DbFaithful(db: Db) {
    forall id {:trigger OrderFaithful(db, id)} :: OrderFaithful(db, id)
  }

  lemma {:induction false} WriteFaithful(db: Db, next: Db, id: string, v: View)
    requires DbFaithful(db) && WritesOnly(db, next, id, v) && GoodWrite(db, id, v)
    requires var log := LogOf(db.outbox, id) + v.out; AllFaithful(v.row, v.items, WasCancelled(log), log)
    ensures DbFaithful(next)
  {
    OwnMessages(v.row, v.items, LogOf(db.outbox, id), v.out);
    forall other ensures OrderFaithful(next, other) {
      assert OrderFaithful(db, other);
      AppendOwn(db.outbox, v.out, id, other);
    }
  }

  /** What an order's change sends is faithful, and so is all that was sent before. */
  lemma {:induction false} LogFaithful(row: OrderRow, items: seq<Item>, log: seq<Message>, v: View)
    requires LogInv(row, log) && AllFaithful(row, items, WasCancelled(log), log) && Truthful(row, items, v)
    ensures AllFaithful(v.row, v.items, WasCancelled(log + v.out), log + v.out)
  {
    if WasCancelled(log) { CancelledGrows(log, v.out); }
    OldStayFaithful(row, items, log, v.row, v.items, WasCancelled(log + v.out));
    FaithfulAppend(v.row, v.items, log, v.out, WasCancelled(log + v.out));
  }

  /** Repeated commands are as faithful as the commands they repeat. */
  lemma {:induction false} RepeatsFaithful(row: OrderRow, items: seq<Item>, log: seq<Message>, out: seq<Message>)
    requires AllFaithful(row, items, WasCancelled(log), log) && Repeats(log, out)
    requires forall k :: 0 <= k < |out| ==> out[k].body.ReleaseInventory? || out[k].body.RefundPayment?
    ensures AllFaithful(row, items, WasCancelled(log + out), log + out)
  {
    forall k | 0 <= k < |out| ensures Faithful(row, items, false, out[k].body) {
      var i :| 0 <= i < |log| && log[i].operation == out[k].operation && log[i].body == out[k].body;
      assert Faithful(row, items, WasCancelled(log), log[i].body);
    }
    if WasCancelled(log + out) {
      var i :| 0 <= i < |log + out| && (log + out)[i].body.CancellationRequested?;
      assert i < |log| && log[i] == (log + out)[i];
    } else if WasCancelled(log) {
      CancelledGrows(log, out);
    }
    FaithfulAppend(row, items, log, out, WasCancelled(log + out));
  }

  lemma {:induction false} CommitViewFaithful(db: Db, at: Attempt, quoteOk: bool, now: int)
    requires DbInv(db) && AttemptOk(db, at) && DbFaithful(db) && HandleAttempt(db, at, quoteOk, now).Applied?
    ensures var v := HandleAttempt(db, at, quoteOk, now).view; var log := LogOf(db.outbox, at.e.orderId) + v.out;
            AllFaithful(v.row, v.items, WasCancelled(log), log)
  {
    var id := at.e.orderId;
    assert OrderOk(db, id) && OrderFaithful(db, id);
    var row, items, log := db.orders[id], ItemsOf(db, id), LogOf(db.outbox, id);
    if at.row.value.version != row.version {
      StaleAttempt(db, at, quoteOk, now);
      RepeatsFaithful(row, items, log, HandleAttempt(db, at, quoteOk, now).view.out);
    } else {
      FreshAttempt(db, at, quoteOk, now);
      FactTruthful(row, items, at.e, quoteOk, now);
      LogFaithful(row, items, log, HandleAttempt(db, at, quoteOk, now).view);
    }
  }

  lemma {:induction false} CommitFaithful(db: Db, at: Attempt, quoteOk: bool, now: int)
    requires DbInv(db) && AttemptOk(db, at) && DbFaithful(db)
    ensures DbFaithful(CommitAttempt(db, at, quoteOk, now))
  {
    var o := HandleAttempt(db, at, quoteOk, now);
    if o.Applied? {
      CommitIsGood(db, at, quoteOk, now);
      CommitViewFaithful(db, at, quoteOk, now);
      WriteFaithful(db, CommitAttempt(db, at, quoteOk, now), at.e.orderId, o.view);
    }
  }

  lemma {:induction false} CancelFaithful(db: Db, c: CancelRequest)
    requires DbInv(db) && DbFaithful(db)
    ensures DbFaithful(Cancel(db, c))
  {
    if !(c.key in db.requests || CancelOutcome(db, c).Err?) {
      var id := c.orderId;
      CancelIsGood(db, c);
      var v := CancelView(db, c);
      assert OrderOk(db, id) && OrderFaithful(db, id);
      CompensationFaithful(v.row, v.items, v.row, db.sagas[id], c.eventId, OnCancellation);
      LogFaithful(db.orders[id], ItemsOf(db, id), LogOf(db.outbox, id), v);
      WriteFaithful(db, Cancel(db, c), id, v);
    }
  }

  lemma {:induction false} CreateFaithful(db: Db, r: CreateRequest)
    requires DbInv(db) && DbFaithful(db)
    ensures DbFaithful(Create(db, r))
  {
    var o := CreateOutcome(db, r);
    if o.Ok? && !o.value.replayed {
      DraftAcceptedIff(r.orderId, r.customerId, r.currency, r.items, r.now);
      InsertIsGood(db, r, o.value.order);
      InsertFaithful(db, r, o.value.order);
    }
  }

  lemma {:induction false} CreationFaithful(order: OrderValue, r: CreateRequest)
    ensures var out := CreationMessages(order, r.sagaId, r.eventId, r.commandId);
            AllFaithful(order.row, order.items, WasCancelled(out), out)
  {}

  lemma {:induction false} InsertFaithful(db: Db, r: CreateRequest, order: OrderValue)
    requires DbInv(db) && DbFaithful(db) && order.row.id !in db.orders
    requires GoodWrite(db, order.row.id,
             View(order.row, order.items, CreationMessages(order, r.sagaId, r.eventId, r.commandId)))
    ensures DbFaithful(InsertedOrder(db, r, order))
  {
    var v := View(order.row, order.items, CreationMessages(order, r.sagaId, r.eventId, r.commandId));
    assert LogOf(db.outbox, order.row.id) + v.out == v.out;
    CreationFaithful(order, r);
    WriteFaithful(db, InsertedOrder(db, r, order), order.row.id, v);
  }

  lemma {:induction false} SameFaithful(db: Db, next: Db)
    requires DbFaithful(db) && next.orders == db.orders && next.items == db.items && next.outbox == db.outbox
    ensures DbFaithful(next)
  {
    forall id ensures OrderFaithful(next, id) {
      assert OrderFaithful(db, id);
    }
  }

  lemma {:induction false} StepFaithful(w: World, act: Action)
    requires WorldInv(w) && DbFaithful(w.db)
    ensures DbFaithful(Step(w, act).db)
  {
    match act
    case CreateOrder(r) => CreateFaithful(w.db, r);
    case CancelOrder(c) => CancelFaithful(w.db, c);
    case Commit(a, quoteOk, now) => if a in w.attempts { CommitFaithful(w.db, w.attempts[a], quoteOk, now); }
    case _ => SameFaithful(w.db, Step(w, act).db);
  }

  /** In every run, every message of an order agrees with its stored customer,
      currency, products and quantities; its completion event names the stored
      shipment and its failure event the stored failure code. */
  lemma {:induction false} RunMessagesFaithful(actions: seq<Action>)
    ensures DbFaithful(Run(actions).db)
  {
    if actions != [] {
      RunKeeps(actions[..|actions| - 1]);
      RunMessagesFaithful(actions[..|actions| - 1]);
      StepFaithful(Run(actions[..|actions| - 1]), actions[|actions| - 1]);
    }
  }

  // ---------------------------------------------------------------------- failures

  /** Exactly what a FAILED order has sent to undo what it holds. */
  ghost predicate FailureUndone(row: OrderRow, log: seq<Message>, f: FactBody) {
    && (forall r :: Sent(log, ReleaseInventory(r)) <==> !f.InventoryRejected? && row.reservationId == Some(r))
    && (forall p, amount, currency :: Sent(log, RefundPayment(p, amount, currency)) <==>
          f.FulfillmentFailed? && row.paymentId == Some(p) && row.total == Some(amount) && row.currency == currency)
  }

  /** A failing order stores the reason and undoes what it holds: a reservation
      unless inventory itself refused, a payment only after fulfilment failed. */
  lemma {:induction false} FailureCompensates(row: OrderRow, items: seq<Item>, e: Envelope, quoteOk: bool, now: int)
    requires RowInv(row) && IsFailureFact(e.body) && !IsTerminal(row.status) && row.status != CancelRequested
    requires Serial(row, items, e, quoteOk, now).Applied?
    ensures var v := Serial(row, items, e, quoteOk, now).view;
            && v.row.status == Failed && v.row.failureCode == Some(FailureReason(e.body)) && v.items == items
            && v.row.reservationId == row.reservationId && v.row.paymentId == row.paymentId
            && v.row.total == row.total && v.row.currency == row.currency && FailureUndone(v.row, v.out, e.body)
  {
    FailedEffect(row, items, e, FailureReason(e.body), now);
    var next := FailedRow(row, FailureReason(e.body), now);
    CompensationExact(next, e.sagaId, e.eventId, TriggerOf(e.body),
                      Emit(next, e.sagaId, e.eventId, OrderFailed(FailureReason(e.body))));
  }

  lemma {:induction false} CompensationExact(row: OrderRow, sagaId: string, causationId: string, t: Trigger,
                                             event: Message)
    requires RowInv(row) && event.body.OrderFailed?
    ensures var out := [event] + Compensation(row, sagaId, causationId, t);
            && (forall r :: Sent(out, ReleaseInventory(r)) <==> !t.OnRejected? && row.reservationId == Some(r))
            && (forall p, amount, currency :: Sent(out, RefundPayment(p, amount, currency)) <==>
                  (t.OnFulfillmentFailed? || t.OnCancellation?) && row.paymentId == Some(p) &&
                    row.total == Some(amount) && row.currency == currency)
  {
    var c := Compensation(row, sagaId, causationId, t);
    if !t.OnRejected? && row.reservationId.Some? {
      assert c[0].body == ReleaseInventory(row.reservationId.value);
      SentAppended([event], c, 0);
    }
    if (t.OnFulfillmentFailed? || t.OnCancellation?) && row.paymentId.Some? {
      assert c[|c| - 1].body == RefundPayment(row.paymentId.value, row.total.value, row.currency);
      SentAppended([event], c, |c| - 1);
    }
  }

  /** After its failure an order sends nothing more and keeps its references and total. */
  ghost predicate Frozen(db: Db, next: Db, id: string) {
    && id in db.orders && id in next.orders && LogOf(next.outbox, id) == LogOf(db.outbox, id)
    && var row, after := db.orders[id], next.orders[id];
       && after.status == row.status && after.paymentId == row.paymentId && after.reservationId == row.reservationId
       && after.total == row.total && after.currency == row.currency
  }

  lemma {:induction false} EndedIsSilent(row: OrderRow, items: seq<Item>, e: Envelope, quoteOk: bool, now: int)
    requires IsTerminal(row.status) && Serial(row, items, e, quoteOk, now).Applied?
    ensures var v := Serial(row, items, e, quoteOk, now).view;
            && v.out == [] && v.row.status == row.status && v.row.paymentId == row.paymentId
            && v.row.reservationId == row.reservationId && v.row.total == row.total && v.row.currency == row.currency
  {}

  lemma {:induction false} WriteElsewhere(db: Db, next: Db, id: string, v: View, other: string)
    requires WritesOnly(db, next, id, v) && GoodWrite(db, id, v) && other in db.orders && other != id
    ensures Frozen(db, next, other)
  {
    OwnMessages(v.row, v.items, LogOf(db.outbox, id), v.out);
    AppendOwn(db.outbox, v.out, id, other);
  }

  lemma {:induction false} CommitFrozen(db: Db, at: Attempt, quoteOk: bool, now: int, id: string)
    requires DbInv(db) && AttemptOk(db, at) && id in db.orders && db.orders[id].status == Failed
    ensures Frozen(db, CommitAttempt(db, at, quoteOk, now), id)
  {
    var o := HandleAttempt(db, at, quoteOk, now);
    if o.Applied? {
      CommitIsGood(db, at, quoteOk, now);
      if at.e.orderId != id {
        WriteElsewhere(db, CommitAttempt(db, at, quoteOk, now), at.e.orderId, o.view, id);
      } else {
        if at.row.value.version != db.orders[id].version {
          StaleAttempt(db, at, quoteOk, now);
        } else {
          FreshAttempt(db, at, quoteOk, now);
          EndedIsSilent(db.orders[id], ItemsOf(db, id), at.e, quoteOk, now);
        }
        assert db.outbox + [] == db.outbox;
      }
    }
  }

  lemma {:induction false} CancelFrozen(db: Db, c: CancelRequest, id: string)
    requires DbInv(db) && id in db.orders && db.orders[id].status == Failed
    ensures Frozen(db, Cancel(db, c), id)
  {
    if !(c.key in db.requests || CancelOutcome(db, c).Err?) {
      CancelIsGood(db, c);
      WriteElsewhere(db, Cancel(db, c), c.orderId, CancelView(db, c), id);
    }
  }

  lemma {:induction false} CreateFrozen(db: Db, r: CreateRequest, id: string)
    requires DbInv(db) && id in db.orders
    ensures Frozen(db, Create(db, r), id)
  {
    var o := CreateOutcome(db, r);
    if o.Ok? && !o.value.replayed {
      DraftAcceptedIff(r.orderId, r.customerId, r.currency, r.items, r.now);
      InsertIsGood(db, r, o.value.order);
      WriteElsewhere(db, Create(db, r), r.orderId,
                     View(o.value.order.row, o.value.order.items,
                          CreationMessages(o.value.order, r.sagaId, r.eventId, r.commandId)), id);
    }
  }

  lemma {:induction false} OtherActionFrozen(w: World, act: Action, id: string)
    requires !act.CreateOrder? && !act.CancelOrder? && !act.Commit? && id in w.db.orders
    ensures Frozen(w.db, Step(w, act).db, id)
  {}

  lemma {:induction false} StepFrozen(w: World, act: Action, id: string)
    requires WorldInv(w) && id in w.db.orders && w.db.orders[id].status == Failed
    ensures Frozen(w.db, Step(w, act).db, id)
  {
    match act
    case CreateOrder(r) => CreateFrozen(w.db, r, id);
    case CancelOrder(c) => CancelFrozen(w.db, c, id);
    case Commit(a, quoteOk, now) => if a in w.attempts { CommitFrozen(w.db, w.attempts[a], quoteOk, now, id); }
    case _ => OtherActionFrozen(w, act, id);
  }

  lemma {:induction false} LastFrozen(actions: seq<Action>, id: string)
    requires actions != [] && id in Run(actions[..|actions| - 1]).db.orders
    requires Run(actions[..|actions| - 1]).db.orders[id].status == Failed
    ensures Frozen(Run(actions[..|actions| - 1]).db, Run(actions).db, id)
  {
    RunKeeps(actions[..|actions| - 1]);
    StepFrozen(Run(actions[..|actions| - 1]), actions[|actions| - 1], id);
  }

  lemma {:induction false} FrozenTwice(a: Db, b: Db, c: Db, id: string)
    requires Frozen(a, b, id) && Frozen(b, c, id)
    ensures Frozen(a, c, id)
  {}

  lemma {:induction false} RunFrozen(actions: seq<Action>, k: nat, id: string)
    requires k <= |actions| && id in Run(actions[..k]).db.orders && Run(actions[..k]).db.orders[id].status == Failed
    ensures Frozen(Run(actions[..k]).db, Run(actions).db, id)
  {
    if k == |actions| {
      assert actions[..k] == actions;
    } else {
      var n := |actions| - 1;
      assert actions[..n][..k] == actions[..k];
      RunFrozen(actions[..n], k, id);
      LastFrozen(actions, id);
      FrozenTwice(Run(actions[..k]).db, Run(actions[..n]).db, Run(actions).db, id);
    }
  }

  /** Only a failure fact fails an order, and not during a cancellation. */
  lemma {:induction false} FailedByFailureFact(row: OrderRow, items: seq<Item>, e: Envelope, quoteOk: bool, now: int)
    requires RowInv(row) && WellFormedItems(items) && Serial(row, items, e, quoteOk, now).Applied?
    requires Serial(row, items, e, quoteOk, now).view.row.status == Failed && row.status != Failed
    ensures IsFailureFact(e.body) && (row.status == Pending || row.status == Confirmed)
  {
    AppliedAdvances(row, items, e, quoteOk, now);
    if e.body.InventoryReserved? {
      ReservationStatus(row, items, e, quoteOk, now);
    } else if e.body.InventoryReleased? || e.body.PaymentRefunded? {
      FlagStatus(row, items, e, quoteOk, now);
    } else if e.body.FulfillmentCompleted? && !IsTerminal(row.status) {
      FulfilledEffect(row, items, e, now);
    }
  }

  /** Nothing was undone before the failure: pending and confirmed orders have sent
      no release and no refund. */
  lemma {:induction false} FirstUndone(row: OrderRow, items: seq<Item>, log: seq<Message>, out: seq<Message>,
                                       next: OrderRow, f: FactBody)
    requires AllFaithful(row, items, WasCancelled(log), log) && (row.status == Pending || row.status == Confirmed)
    requires FailureUndone(next, out, f)
    ensures FailureUndone(next, log + out, f)
  {
    forall body: Body | body.ReleaseInventory? || body.RefundPayment?
      ensures Sent(log + out, body) <==> Sent(out, body)
    {
      if Sent(out, body) {
        var i :| 0 <= i < |out| && out[i].body == body;
        assert (log + out)[|log| + i] == out[i];
      }
      if Sent(log + out, body) {
        var i :| 0 <= i < |log + out| && (log + out)[i].body == body;
        assert i < |log| ==> Faithful(row, items, WasCancelled(log), log[i].body);
        assert out[i - |log|].body == body;
      }
    }
  }

  /** For every run and every order that failed in it: the action that failed it was
      the commit of a failure fact, and from then on the order has sent a release
      command iff it holds a reservation and inventory did not itself refuse, and a
      refund command iff it holds a payment and fulfilment failed. A FAILED order thus
      keeps its payment without a refund exactly when another fact failed it. */
  lemma {:induction false} RunFailureCompensates(actions: seq<Action>, i: nat, id: string)
    requires i < |actions| && id in Run(actions[..i]).db.orders && Run(actions[..i]).db.orders[id].status != Failed
    requires id in Run(actions[..i + 1]).db.orders && Run(actions[..i + 1]).db.orders[id].status == Failed
    ensures var w, act := Run(actions[..i]), actions[i];
            && act.Commit? && act.a in w.attempts && w.attempts[act.a].e.orderId == id &&
               IsFailureFact(w.attempts[act.a].e.body)
            && id in Run(actions).db.orders && Run(actions).db.orders[id].status == Failed
            && FailureUndone(Run(actions).db.orders[id], LogOf(Run(actions).db.outbox, id), w.attempts[act.a].e.body)
  {
    assert actions[..i + 1][..i] == actions[..i];
    RunKeeps(actions[..i]);
    RunMessagesFaithful(actions[..i]);
    FailingStep(Run(actions[..i]), actions[i], id);
    RunFrozen(actions, i + 1, id);
  }

  lemma {:induction false} FailingFact(row: OrderRow, items: seq<Item>, log: seq<Message>, e: Envelope, quoteOk: bool,
                                       now: int)
    requires RowInv(row) && WellFormedItems(items) && AllFaithful(row, items, WasCancelled(log), log)
    requires row.status != Failed && Serial(row, items, e, quoteOk, now).Applied?
    requires Serial(row, items, e, quoteOk, now).view.row.status == Failed
    ensures IsFailureFact(e.body)
    ensures var v := Serial(row, items, e, quoteOk, now).view; FailureUndone(v.row, log + v.out, e.body)
  {
    FailedByFailureFact(row, items, e, quoteOk, now);
    FailureCompensates(row, items, e, quoteOk, now);
    var v := Serial(row, items, e, quoteOk, now).view;
    FirstUndone(row, items, log, v.out, v.row, e.body);
  }

  lemma {:induction false} CommitLog(db: Db, at: Attempt, quoteOk: bool, now: int)
    requires DbInv(db) && AttemptOk(db, at) && HandleAttempt(db, at, quoteOk, now).Applied?
    ensures var id := at.e.orderId;
            LogOf(CommitAttempt(db, at, quoteOk, now).outbox, id) ==
              LogOf(db.outbox, id) + HandleAttempt(db, at, quoteOk, now).view.out
  {
    var v := HandleAttempt(db, at, quoteOk, now).view;
    CommitIsGood(db, at, quoteOk, now);
    OwnMessages(v.row, v.items, LogOf(db.outbox, at.e.orderId), v.out);
    AppendOwn(db.outbox, v.out, at.e.orderId, at.e.orderId);
  }

  lemma {:induction false} FailingStep(w: World, act: Action, id: string)
    requires WorldInv(w) && DbFaithful(w.db) && id in w.db.orders && id in Step(w, act).db.orders
    requires w.db.orders[id].status != Failed && Step(w, act).db.orders[id].status == Failed
    ensures act.Commit? && act.a in w.attempts && w.attempts[act.a].e.orderId == id &&
            IsFailureFact(w.attempts[act.a].e.body)
    ensures var next := Step(w, act).db;
            FailureUndone(next.orders[id], LogOf(next.outbox, id), w.attempts[act.a].e.body)
  {
    assert OrderOk(w.db, id) && OrderFaithful(w.db, id);
    ChangeIsSerial(w, act, id);
    CommitLog(w.db, w.attempts[act.a], act.quoteOk, act.now);
    FailingFact(w.db.orders[id], ItemsOf(w.db, id), LogOf(w.db.outbox, id), w.attempts[act.a].e, act.quoteOk, act.now);
  }
}
