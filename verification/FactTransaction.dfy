/** The body of one fact transaction, statement by statement. The fields are the
    stored row, items and new outbox rows as the transaction's own statements see
    them; a caller that gets `false` discards them, which is the rollback. */
module FactTransaction {
  import opened Basics
  import opened OrderAggregate
  import opened QuoteLines
  import opened Saga

  class Transaction {
    var row: OrderRow
    var items: seq<Item>
    var out: seq<Message>

    constructor (row: OrderRow, items: seq<Item>)
      ensures Tables() == View(row, items, [])
    {
      this.row := row;
      this.items := items;
      this.out := [];
    }

    function Tables(): View
      reads this
    {
      View(row, items, out)
    }

    // ------------------------------------------------------------- statements

    /** UPDATE orders ... WHERE aggregate_version = expected; None is a failed statement. */
    method UpdateOrderWorkflowState(c: Change, expected: nat, now: int) returns (rows: Option<nat>)
      modifies this`row
      ensures rows.None? <==>
              old(row).version == expected && !(StorableFailureCode(c.failure) && StorableTotal(c.total))
      ensures rows == Some(0) <==> old(row).version != expected
      ensures rows == Some(1) <==>
              old(row).version == expected && StorableFailureCode(c.failure) && StorableTotal(c.total)
      ensures row == if rows == Some(1) then WorkflowRow(old(row), c, now) else old(row)
    {
      if row.version != expected { return Some(0); }
      if !StorableFailureCode(c.failure) || !StorableTotal(c.total) { return None; }
      var failureCode := if c.failure == "" then row.failureCode else Some(c.failure);
      var reservationId := if c.reservation == "" then row.reservationId else Some(c.reservation);
      var paymentId := if c.payment == "" then row.paymentId else Some(c.payment);
      var shipmentId := if c.shipment == "" then row.shipmentId else Some(c.shipment);
      var total := if c.total.None? then row.total else c.total;
      row := row.(status := c.status, failureCode := failureCode, reservationId := reservationId,
        paymentId := paymentId,
                  shipmentId := shipmentId, total := total, version := row.version + 1, updatedAt := now);
      rows := Some(1);
    }

    method UpdateOrderItemQuote(quoted: Item)
      modifies this`items
      ensures items == QuoteItem(old(items), quoted)
    {
      var stored := items;
      for i := 0 to |stored|
        invariant |items| == |stored|
        invariant forall k :: 0 <= k < i ==> items[k] == QuoteItem(stored, quoted)[k]
        invariant forall k :: i <= k < |stored| ==> items[k] == stored[k]
      {
        if items[i].productId == quoted.productId {
          items := items[i := items[i].(unitPrice := quoted.unitPrice, lineTotal := quoted.lineTotal,
                                        quoteId := quoted.quoteId, quoteVersion := quoted.quoteVersion)];
        }
      }
    }

    method InsertOutbox(m: Message)
      modifies this`out
      ensures out == old(out) + [m]
    {
      out := out + [m];
    }

    // ---------------------------------------------------------------- helpers

    method UpdateWorkflow(order: OrderRow, c: Change, now: int) returns (ok: bool)
      modifies this`row
      ensures var o := Saga.UpdateWorkflow(old(Tables()), order, c, now);
              ok == o.Applied? && (ok ==> Tables() == o.view)
    {
      if c.status != order.status && IsTerminal(order.status) { return true; }
      var rows := UpdateOrderWorkflowState(c, order.version, now);
      ok := rows == Some(1);
    }

    method MarkInventoryReleased(order: Order, now: int) returns (ok: bool)
      modifies this`row, order`row
      ensures var o := MarkReleased(old(Tables()), old(order.row), now); ok == o.Applied? && (ok ==> Tables() == o.view)
      ensures ok ==> order.row == ReleasedRow(old(order.row), now)
    {
      if order.row.inventoryReleased { return true; }
      if row.version != order.row.version || row.inventoryReleased { return false; }
      row := row.(inventoryReleased := true, version := row.version + 1, updatedAt := now);
      order.row := order.row.(inventoryReleased := true, version := order.row.version + 1, updatedAt := now);
      ok := true;
    }

    method MarkPaymentRefunded(order: Order, now: int) returns (ok: bool)
      modifies this`row, order`row
      ensures var o := MarkRefunded(old(Tables()), old(order.row), now); ok == o.Applied? && (ok ==> Tables() == o.view)
      ensures ok ==> order.row == RefundedRow(old(order.row), now)
    {
      if order.row.paymentRefunded { return true; }
      if row.version != order.row.version || row.paymentRefunded { return false; }
      row := row.(paymentRefunded := true, version := row.version + 1, updatedAt := now);
      order.row := order.row.(paymentRefunded := true, version := order.row.version + 1, updatedAt := now);
      ok := true;
    }

    method InsertCompensationCommands(order: OrderRow, sagaId: string, causationId: string, trigger: Trigger)
      modifies this`out
      ensures out == old(out) + Compensation(order, sagaId, causationId, trigger)
    {
      ghost var before := out;
      if (trigger.OnPaymentFailed? || trigger.OnFulfillmentFailed? || trigger.OnCancellation?)
         && order.reservationId.Some? && ValidReservationId(order.reservationId.value) {
        InsertOutbox(Emit(order, sagaId, causationId, ReleaseInventory(order.reservationId.value)));
      }
      if (trigger.OnFulfillmentFailed? || trigger.OnCancellation?)
         && order.paymentId.Some? && ValidPaymentId(order.paymentId.value) && order.total.Some? {
        InsertOutbox(Emit(order, sagaId, causationId,
          RefundPayment(order.paymentId.value, order.total.value, order.currency)));
      }
      assert out == before + Compensation(order, sagaId, causationId, trigger);
    }

    method MaybeCompleteCancellation(order: Order, sagaId: string, causationId: string, now: int) returns (ok: bool)
      modifies this, order`row
      ensures var o := MaybeComplete(old(Tables()), old(order.row), sagaId, causationId, now);
              ok == o.Applied? && (ok ==> Tables() == o.view)
    {
      if order.row.status != CancelRequested { return true; }
      if (order.row.reservationId.Some? && !order.row.inventoryReleased) ||
         (order.row.paymentId.Some? && !order.row.paymentRefunded) {
        return true;
      }
      ok := UpdateWorkflow(order.row, Change(Cancelled, "", "", "", "", order.row.total), now);
      if !ok { return; }
      order.row := order.row.(version := order.row.version + 1);
      InsertOutbox(Emit(order.row, sagaId, causationId, OrderCancelled("CUSTOMER_REQUESTED")));
    }

    // --------------------------------------------------------------- handlers

    method WriteQuotedItems(order: Order)
      modifies this`items
      ensures items == QuoteItems(old(items), order.items)
    {
      ghost var stored := items;
      for index := 0 to |order.items|
        invariant items == QuoteItems(stored, order.items[..index])
      {
        assert order.items[..index + 1][..index] == order.items[..index];
        UpdateOrderItemQuote(order.items[index]);
      }
      assert order.items[..|order.items|] == order.items;
    }

    /** The pending branch of an inventory reservation: quote checks, prices, total, authorise command. */
    method ApplyQuotedReservation(order: Order, e: Envelope, quoteOk: bool, now: int) returns (ok: bool)
      requires e.body.InventoryReserved?
      modifies this, order
      ensures var o := ApplyQuoteFact(old(Tables()), old(order.Value()), e, quoteOk, now);
              ok == o.Applied? && (ok ==> Tables() == o.view)
    {
      var expectedVersion := order.row.version;
      var f := e.body;
      if f.currency != order.row.currency { return false; }
      if f.quoteVersion.None? { return false; }
      if f.lines.None? || |f.lines.value| != |order.items| { return false; }
      if !quoteOk { return false; }
      var prices := CheckQuoteLines(f.lines.value, order.items);
      if prices.None? { return false; }
      var error := order.ApplyQuote(f.quoteId, f.quoteVersion.value, prices.value, Utc(now));
      if error.Some? { return false; }
      order.row := order.row.(version := expectedVersion);
      ok := WriteQuote(order, e, now);
    }

    /** The writes of an accepted quote: item prices, the order's total, the authorise command. */
    method WriteQuote(order: Order, e: Envelope, now: int) returns (ok: bool)
      requires e.body.InventoryReserved?
      modifies this, order
      ensures var o := StoreQuote(old(Tables()), old(order.Value()), e, now);
              ok == o.Applied? && (ok ==> Tables() == o.view)
    {
      WriteQuotedItems(order);
      ok := UpdateWorkflow(order.row, Change(Pending, "", e.body.reservationId, "", "", order.row.total), now);
      if !ok { return; }
      order.row := order.row.(version := order.row.version + 1, reservationId := Some(e.body.reservationId));
      if order.row.total.None? { return false; }
      InsertOutbox(Emit(order.row, e.sagaId, e.eventId, AuthorizePayment(order.row.total.value, order.row.currency)));
    }

    method ApplyInventoryReserved(order: Order, e: Envelope, quoteOk: bool, now: int) returns (ok: bool)
      requires e.body.InventoryReserved?
      modifies this, order
      ensures var o := ApplyReserved(old(Tables()), old(order.Value()), e, quoteOk, now);
              ok == o.Applied? && (ok ==> Tables() == o.view)
    {
      if IsTerminal(order.row.status) { return true; }
      var reservationId := e.body.reservationId;
      if !ValidReservationId(reservationId) { return false; }
      if e.operation != Operation(order.row.id, ReserveStep) { return false; }
      if order.row.status == CancelRequested {
        order.row := order.row.(reservationId := Some(reservationId));
        ok := UpdateWorkflow(order.row, Change(CancelRequested, "", reservationId, "", "", order.row.total), now);
        if !ok { return; }
        order.row := order.row.(version := order.row.version + 1);
        InsertCompensationCommands(order.row, e.sagaId, e.eventId, OnCancellation);
        return true;
      }
      if order.row.status != Pending { return true; }
      ok := ApplyQuotedReservation(order, e, quoteOk, now);
    }

    method ApplyPaymentAuthorized(order: Order, e: Envelope, now: int) returns (ok: bool)
      requires e.body.PaymentAuthorized?
      modifies this, order`row
      ensures var o := ApplyAuthorized(old(Tables()), old(order.Value()), e, now);
              ok == o.Applied? && (ok ==> Tables() == o.view)
    {
      if IsTerminal(order.row.status) || order.row.status == Confirmed { return true; }
      var f := e.body;
      if f.amount.None? || order.row.total.None? || f.amount.value != order.row.total.value ||
         f.currency != order.row.currency {
        return false;
      }
      if !ValidPaymentId(f.paymentId) { return false; }
      if order.row.status == CancelRequested {
        order.row := order.row.(paymentId := Some(f.paymentId));
        ok := UpdateWorkflow(order.row, Change(CancelRequested, "", "", f.paymentId, "", order.row.total), now);
        if !ok { return; }
        order.row := order.row.(version := order.row.version + 1);
        InsertCompensationCommands(order.row, e.sagaId, e.eventId, OnCancellation);
        return true;
      }
      ok := ConfirmOrder(order, e, now);
    }

    /** The pending branch of a payment authorisation. */
    method ConfirmOrder(order: Order, e: Envelope, now: int) returns (ok: bool)
      requires e.body.PaymentAuthorized? && order.row.status == Pending && ValidPaymentId(e.body.paymentId)
      requires e.body.amount.Some? && e.body.amount == order.row.total && e.body.currency == order.row.currency
      modifies this, order`row
      ensures var o := ApplyAuthorized(old(Tables()), old(order.Value()), e, now);
              ok == o.Applied? && (ok ==> Tables() == o.view)
    {
      ok := UpdateWorkflow(order.row, Change(Confirmed, "", "", e.body.paymentId, "", order.row.total), now);
      if !ok { return; }
      order.row := order.row.(version := order.row.version + 1, paymentId := Some(e.body.paymentId));
      if order.row.reservationId.None? || order.row.reservationId.value == "" { return false; }
      ghost var before := out;
      var confirmed := Emit(order.row, e.sagaId, e.eventId,
        OrderConfirmed(e.body.paymentId, order.row.reservationId.value));
      var command := Emit(order.row, e.sagaId, e.eventId,
        CreateFulfillment(order.row.customerId, order.row.reservationId.value, order.row.currency,
                          ItemLines(order.items)));
      InsertOutbox(confirmed);
      InsertOutbox(command);
      assert out == before + [confirmed, command];
    }

    method ApplyInventoryReleased(order: Order, e: Envelope, now: int) returns (ok: bool)
      requires e.body.InventoryReleased?
      modifies this, order`row
      ensures var o := ApplyReleased(old(Tables()), old(order.row), e, now);
              ok == o.Applied? && (ok ==> Tables() == o.view)
    {
      if order.row.reservationId.None? || order.row.reservationId.value != e.body.reservationId { return false; }
      if IsTerminal(order.row.status) && order.row.inventoryReleased { return true; }
      ok := MarkInventoryReleased(order, now);
      if !ok { return; }
      ok := MaybeCompleteCancellation(order, e.sagaId, e.eventId, now);
    }

    method ApplyPaymentRefunded(order: Order, e: Envelope, now: int) returns (ok: bool)
      requires e.body.PaymentRefunded?
      modifies this, order`row
      ensures var o := ApplyRefunded(old(Tables()), old(order.row), e, now);
              ok == o.Applied? && (ok ==> Tables() == o.view)
    {
      if order.row.paymentId.None? || order.row.paymentId.value != e.body.paymentId { return false; }
      if IsTerminal(order.row.status) && order.row.paymentRefunded { return true; }
      ok := MarkPaymentRefunded(order, now);
      if !ok { return; }
      ok := MaybeCompleteCancellation(order, e.sagaId, e.eventId, now);
    }

    /** A failure fact during cancellation. */
    method SettleFailure(order: Order, e: Envelope, now: int) returns (ok: bool)
      requires IsFailureFact(e.body) && order.row.status == CancelRequested
      modifies this, order`row
      ensures var o := ApplyFailure(old(Tables()), old(order.row), e, now);
              ok == o.Applied? && (ok ==> Tables() == o.view)
    {
      if e.body.InventoryRejected? {
        ok := MarkInventoryReleased(order, now);
        if !ok { return; }
      } else if e.body.PaymentFailed? {
        ok := MarkPaymentRefunded(order, now);
        if !ok { return; }
      }
      InsertCompensationCommands(order.row, e.sagaId, e.eventId, TriggerOf(e.body));
      ok := MaybeCompleteCancellation(order, e.sagaId, e.eventId, now);
    }

    method ApplyDependencyFailure(order: Order, e: Envelope, now: int) returns (ok: bool)
      requires IsFailureFact(e.body)
      modifies this, order`row
      ensures var o := ApplyFailure(old(Tables()), old(order.row), e, now);
              ok == o.Applied? && (ok ==> Tables() == o.view)
    {
      if order.row.status == CancelRequested {
        ok := SettleFailure(order, e, now);
        return;
      }
      if IsTerminal(order.row.status) { return true; }
      var reason := e.body.reason;
      if reason == "" { reason := "DOWNSTREAM_REJECTED"; }
      ok := FailOrder(order, e, reason, now);
    }

    method FailOrder(order: Order, e: Envelope, reason: string, now: int) returns (ok: bool)
      requires IsFailureFact(e.body)
      modifies this, order`row
      ensures var o := FailWith(old(Tables()), old(order.row), e, reason, now);
              ok == o.Applied? && (ok ==> Tables() == o.view)
    {
      ok := UpdateWorkflow(order.row, Change(Failed, reason, "", "", "", order.row.total), now);
      if !ok { return; }
      order.row := order.row.(version := order.row.version + 1);
      ghost var before := out;
      var failed := Emit(order.row, e.sagaId, e.eventId, OrderFailed(reason));
      InsertOutbox(failed);
      InsertCompensationCommands(order.row, e.sagaId, e.eventId, TriggerOf(e.body));
      assert out == before + ([failed] + Compensation(order.row, e.sagaId, e.eventId, TriggerOf(e.body)));
    }

    method ApplyFulfillmentCompleted(order: Order, e: Envelope, now: int) returns (ok: bool)
      requires e.body.FulfillmentCompleted?
      modifies this, order`row
      ensures var o := ApplyFulfilled(old(Tables()), old(order.row), e, now);
              ok == o.Applied? && (ok ==> Tables() == o.view)
    {
      if IsTerminal(order.row.status) { return true; }
      var shipmentId := e.body.shipmentId;
      if !ValidShipmentId(shipmentId) { return false; }
      ok := UpdateWorkflow(order.row, Change(Completed, "", "", "", shipmentId, order.row.total), now);
      if !ok { return; }
      order.row := order.row.(version := order.row.version + 1);
      InsertOutbox(Emit(order.row, e.sagaId, e.eventId, OrderCompleted(shipmentId)));
    }

    /** The switch of ProcessFact over the event types. */
    method ApplyFact(loaded: OrderValue, e: Envelope, quoteOk: bool, now: int) returns (ok: bool)
      modifies this
      ensures var o := Handle(old(Tables()), loaded, e, quoteOk, now); ok == o.Applied? && (ok ==> Tables() == o.view)
    {
      var order := new Order(loaded);
      match e.body
      case InventoryReserved(_, _, _, _, _) => ok := ApplyInventoryReserved(order, e, quoteOk, now);
      case InventoryReleased(_) => ok := ApplyInventoryReleased(order, e, now);
      case PaymentAuthorized(_, _, _) => ok := ApplyPaymentAuthorized(order, e, now);
      case PaymentRefunded(_) => ok := ApplyPaymentRefunded(order, e, now);
      case FulfillmentCompleted(_) => ok := ApplyFulfillmentCompleted(order, e, now);
      case Unsupported(_) => ok := false;
      case _ => ok := ApplyDependencyFailure(order, e, now);
    }
  }
}
