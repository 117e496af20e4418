/** Every transaction keeps the order invariant, also when it was computed from
    an order that was read earlier and has changed since. */
module SagaPreservation {
  import opened Basics
  import opened OrderAggregate
  import opened QuoteLines
  import opened Saga
  import opened SagaInvariant

  ghost predicate Keeps(row: OrderRow, items: seq<Item>, log: seq<Message>, o: Outcome) {
    o.Applied? ==> OrderInv(o.view.row, o.view.items, log + o.view.out)
  }

  // ------------------------------------------------------------------- quoting

  /** After the first k updates the first k items carry their quote. */
  lemma {:induction false} QuoteItemsAt(items: seq<Item>, priced: seq<Item>, k: nat, i: nat)
    requires k <= |items| == |priced| && i < |items| && Distinct(Products(items)) && Products(priced) == Products(items)
    requires priced[i].quantity == items[i].quantity
    ensures |QuoteItems(items, priced[..k])| == |items|
    ensures QuoteItems(items, priced[..k])[i] == if i < k then priced[i] else items[i]
  {
    if k > 0 {
      QuoteItemsAt(items, priced, k - 1, i);
      assert priced[..k][..k - 1] == priced[..k - 1];
      assert Products(priced)[k - 1] == Products(items)[k - 1];
      assert Products(priced)[i] == Products(items)[i];
      assert i != k - 1 ==> Products(items)[i] != Products(items)[k - 1];
    }
  }

  lemma {:induction false} QuoteItemsAll(items: seq<Item>, prices: map<string, int64>, quoteId: string,
                                         quoteVersion: int64)
    requires Distinct(Products(items)) && items != []
    ensures var priced := PricedItems(items, prices, quoteId, quoteVersion); QuoteItems(items, priced) == priced
  {
    var priced := PricedItems(items, prices, quoteId, quoteVersion);
    assert Products(priced) == Products(items);
    assert priced[..|items|] == priced;
    QuoteItemsAt(items, priced, |items|, 0);
    forall i | 0 <= i < |items| ensures QuoteItems(items, priced)[i] == priced[i] {
      QuoteItemsAt(items, priced, |items|, i);
    }
  }

  lemma {:induction false} CompletionKeepsItems(v: View, order: OrderRow, sagaId: string, causationId: string, now: int)
    ensures var o := MaybeComplete(v, order, sagaId, causationId, now); o.Applied? ==> o.view.items == v.items
  {}

  /** Only a reservation writes item rows. */
  lemma {:induction false} HandleKeepsItems(v: View, order: OrderValue, e: Envelope, quoteOk: bool, now: int)
    requires !e.body.InventoryReserved? && Handle(v, order, e, quoteOk, now).Applied?
    ensures Handle(v, order, e, quoteOk, now).view.items == v.items
  {
    var row := order.row;
    if e.body.InventoryReleased? {
      var marked := MarkReleased(v, row, now);
      if marked.Applied? { CompletionKeepsItems(marked.view, ReleasedRow(row, now), e.sagaId, e.eventId, now); }
    } else if e.body.PaymentRefunded? {
      var marked := MarkRefunded(v, row, now);
      if marked.Applied? { CompletionKeepsItems(marked.view, RefundedRow(row, now), e.sagaId, e.eventId, now); }
    } else if IsFailureFact(e.body) {
      var marked := MarkSettled(v, row, e.body, now);
      if marked.Applied? {
        var held := SettledRow(row, e.body, now);
        CompletionKeepsItems(Send(marked.view, Compensation(held, e.sagaId, e.eventId, TriggerOf(e.body))), held,
                             e.sagaId, e.eventId, now);
      }
    }
  }

  /** The line total stored for an item is the exact product. */
  lemma {:induction false} StoredLineTotal(items: seq<Item>, prices: map<string, int64>, k: nat)
    requires PositiveQuantities(items) && PricesUsable(items, prices) && k < |items|
    requires TotalOf(items, prices) <= MAX_TOTAL_MINOR as int
    ensures Wrap64(LineTotalOf(items[k], prices)) as int == LineTotalOf(items[k], prices)
  {
    LineWithinTotal(items, prices, k);
    WrapExact(LineTotalOf(items[k], prices));
  }

  lemma {:induction false} StoredSumOfPriced(items: seq<Item>, prices: map<string, int64>, quoteId: string,
                                             quoteVersion: int64)
    requires PositiveQuantities(items) && PricesUsable(items, prices) &&
             TotalOf(items, prices) <= MAX_TOTAL_MINOR as int
    ensures StoredSum(PricedItems(items, prices, quoteId, quoteVersion)) == TotalOf(items, prices)
  {
    if items != [] {
      var n := |items| - 1;
      StoredLineTotal(items, prices, n);
      LineTotalNonNegative(items[n], prices);
      assert PricedItems(items, prices, quoteId, quoteVersion)[..n] ==
             PricedItems(items[..n], prices, quoteId, quoteVersion);
      StoredSumOfPriced(items[..n], prices, quoteId, quoteVersion);
    }
  }

  lemma {:induction false} PricedItemsInv(row: OrderRow, items: seq<Item>, prices: map<string, int64>, quoteId: string,
                                          quoteVersion: int64)
    requires WellFormedItems(items) && PricesUsable(items, prices) && TotalOf(items, prices) <= MAX_TOTAL_MINOR as int
    requires row.total.Some? && row.total.value as int == TotalOf(items, prices)
    ensures ItemsInv(row, PricedItems(items, prices, quoteId, quoteVersion))
  {
    var priced := PricedItems(items, prices, quoteId, quoteVersion);
    StoredSumOfPriced(items, prices, quoteId, quoteVersion);
    assert Products(priced) == Products(items);
    forall i | 0 <= i < |priced| ensures PriceStored(priced[i]) {
      StoredLineTotal(items, prices, i);
    }
  }

  lemma {:induction false} WellFormedPositive(items: seq<Item>)
    requires WellFormedItems(items)
    ensures PositiveQuantities(items) && Distinct(Products(items))
  {}

  /** The total and the price map of an accepted quote. */
  lemma {:induction false} QuoteTotal(row: OrderRow, items: seq<Item>, f: FactBody, quoteOk: bool, now: int)
    requires WellFormedItems(items) && f.InventoryReserved?
    requires QuoteUsable(OrderValue(row, items), f, quoteOk, now)
    ensures row.status == Pending && row.total.None?
    ensures var prices := PricesIn(f.lines.value);
            && PricesUsable(items, prices) && 0 <= TotalOf(items, prices) <= MAX_TOTAL_MINOR as int
            && RunningTotal(items, prices) as int == TotalOf(items, prices)
  {
    WellFormedPositive(items);
    RunningIsExact(items, PricesIn(f.lines.value));
  }

  function QuotedRow(row: OrderRow, reservationId: string, total: int64, now: int): OrderRow {
    row.(reservationId := Some(reservationId), total := Some(total), version := row.version + 1, updatedAt := now)
  }

  /** What the writes of a quote leave, when the prices cover the items. */
  lemma {:induction false} StoreQuoteEffect(row: OrderRow, items: seq<Item>, priced: seq<Item>, total: int64, at: int,
                                            e: Envelope, now: int)
    requires e.body.InventoryReserved? && ValidReservationId(e.body.reservationId)
    requires row.status == Pending && 0 <= total <= MAX_TOTAL_MINOR && QuoteItems(items, priced) == priced
    ensures StoreQuote(View(row, items, []), OrderValue(row.(total := Some(total), updatedAt := at), priced), e, now) ==
            Applied(View(
              QuotedRow(row, e.body.reservationId, total, now), priced,
              [Emit(row.(version := row.version + 1), e.sagaId, e.eventId, AuthorizePayment(total, row.currency))]))
  {}

  /** What the first accepted reservation writes. */
  lemma {:induction false} QuoteFactEffect(row: OrderRow, items: seq<Item>, e: Envelope, quoteOk: bool, now: int)
    requires WellFormedItems(items)
    requires e.body.InventoryReserved? && ValidReservationId(e.body.reservationId)
    requires QuoteUsable(OrderValue(row, items), e.body, quoteOk, now)
    ensures var prices := PricesIn(e.body.lines.value);
            var total := RunningTotal(items, prices);
            ApplyQuoteFact(View(row, items, []), OrderValue(row, items), e, quoteOk, now) ==
            Applied(View(
              QuotedRow(row, e.body.reservationId, total, now),
              PricedItems(items, prices, e.body.quoteId, e.body.quoteVersion.value),
              [Emit(row.(version := row.version + 1), e.sagaId, e.eventId, AuthorizePayment(total, row.currency))]))
  {
    var prices := PricesIn(e.body.lines.value);
    var priced := PricedItems(items, prices, e.body.quoteId, e.body.quoteVersion.value);
    QuoteTotal(row, items, e.body, quoteOk, now);
    QuoteItemsAll(items, prices, e.body.quoteId, e.body.quoteVersion.value);
    StoreQuoteEffect(row, items, priced, RunningTotal(items, prices), now, e, now);
  }

  lemma {:induction false} ReservedQuoteKeeps(row: OrderRow, items: seq<Item>, log: seq<Message>, e: Envelope,
                                              quoteOk: bool, now: int)
    requires OrderInv(row, items, log)
    requires e.body.InventoryReserved? && ValidReservationId(e.body.reservationId) && row.status == Pending
    ensures Keeps(row, items, log, ApplyQuoteFact(View(row, items, []), OrderValue(row, items), e, quoteOk, now))
  {
    if QuoteUsable(OrderValue(row, items), e.body, quoteOk, now) {
      QuoteTotal(row, items, e.body, quoteOk, now);
      QuoteFactEffect(row, items, e, quoteOk, now);
      var prices := PricesIn(e.body.lines.value);
      var total := RunningTotal(items, prices);
      var next := QuotedRow(row, e.body.reservationId, total, now);
      PricedItemsInv(next, items, prices, e.body.quoteId, e.body.quoteVersion.value);
      AppendAuthorize(row, next, log,
        Emit(row.(version := row.version + 1), e.sagaId, e.eventId, AuthorizePayment(total, row.currency)));
    }
  }

  lemma {:induction false} SameTotalItems(row: OrderRow, next: OrderRow, items: seq<Item>)
    requires ItemsInv(row, items) && next.total == row.total
    ensures ItemsInv(next, items)
  {}

  /** A reference that arrives during cancellation is stored and compensated at once. */
  lemma {:induction false} LateReferenceKeeps(row: OrderRow, next: OrderRow, items: seq<Item>, log: seq<Message>,
                                              sagaId: string, causationId: string)
    requires OrderInv(row, items, log) && row.status == CancelRequested
    requires SameForLog(row, next) && RowInv(next)
    ensures OrderInv(next, items, log + Compensation(next, sagaId, causationId, OnCancellation))
  {
    SameTotalItems(row, next, items);
    RowAdvances(row, next, log);
    AppendCompensation(next, log, next, sagaId, causationId, OnCancellation);
    CancellationCompensates(log, next, sagaId, causationId);
  }

  /** A compensation depends only on identity, references, total and version. */
  lemma {:induction false} CompensationDependsOn(a: OrderRow, b: OrderRow, sagaId: string, causationId: string,
                                                 t: Trigger)
    requires a.id == b.id && a.version == b.version && a.currency == b.currency
    requires a.reservationId == b.reservationId && a.paymentId == b.paymentId && a.total == b.total
    ensures Compensation(a, sagaId, causationId, t) == Compensation(b, sagaId, causationId, t)
  {}

  function LateRow(row: OrderRow, reservationId: Option<string>, paymentId: Option<string>, now: int): OrderRow {
    row.(reservationId := Coalesce(reservationId, row.reservationId), paymentId := Coalesce(paymentId, row.paymentId),
         version := row.version + 1, updatedAt := now)
  }

  lemma {:induction false} LateReservationEffect(row: OrderRow, items: seq<Item>, e: Envelope, quoteOk: bool, now: int)
    requires RowInv(row) && row.status == CancelRequested && e.body.InventoryReserved?
    requires ValidReservationId(e.body.reservationId) && e.operation == Operation(row.id, ReserveStep)
    ensures var next := LateRow(row, Some(e.body.reservationId), None, now);
            RowInv(next) &&
            Serial(row, items, e, quoteOk, now) ==
            Applied(View(next, items, Compensation(next, e.sagaId, e.eventId, OnCancellation)))
  {}

  lemma {:induction false} LatePaymentEffect(row: OrderRow, items: seq<Item>, e: Envelope, quoteOk: bool, now: int)
    requires RowInv(row) && row.status == CancelRequested && e.body.PaymentAuthorized? &&
             ValidPaymentId(e.body.paymentId)
    requires e.body.amount.Some? && e.body.amount == row.total && e.body.currency == row.currency
    ensures var next := LateRow(row, None, Some(e.body.paymentId), now);
            RowInv(next) &&
            Serial(row, items, e, quoteOk, now) ==
            Applied(View(next, items, Compensation(next, e.sagaId, e.eventId, OnCancellation)))
  {}

  lemma {:induction false} ReservedKeeps(row: OrderRow, items: seq<Item>, log: seq<Message>, e: Envelope,
                                         quoteOk: bool, now: int)
    requires OrderInv(row, items, log) && e.body.InventoryReserved?
    ensures Keeps(row, items, log, Serial(row, items, e, quoteOk, now))
  {
    assert log + [] == log;
    if !IsTerminal(row.status) && ValidReservationId(e.body.reservationId) &&
       e.operation == Operation(row.id, ReserveStep) {
      if row.status == CancelRequested {
        LateReservationEffect(row, items, e, quoteOk, now);
        LateReferenceKeeps(row, LateRow(row, Some(e.body.reservationId), None, now), items, log, e.sagaId, e.eventId);
      } else if row.status == Pending {
        ReservedQuoteKeeps(row, items, log, e, quoteOk, now);
      }
    }
  }

  function ConfirmedRow(row: OrderRow, paymentId: string, now: int): OrderRow {
    row.(status := Confirmed, paymentId := Some(paymentId), version := row.version + 1, updatedAt := now)
  }

  function ConfirmationMessages(row: OrderRow, items: seq<Item>, e: Envelope): seq<Message>
    requires row.paymentId.Some? && row.reservationId.Some?
  {
    [Emit(row, e.sagaId, e.eventId, OrderConfirmed(row.paymentId.value, row.reservationId.value)),
     Emit(row, e.sagaId, e.eventId,
       CreateFulfillment(row.customerId, row.reservationId.value, row.currency, ItemLines(items)))]
  }

  /** A confirmation always finds the reservation: the error raised after the
      update for a missing reservation is unreachable. */
  lemma {:induction false} ConfirmEffect(row: OrderRow, items: seq<Item>, e: Envelope, quoteOk: bool, now: int)
    requires RowInv(row) && row.status == Pending && e.body.PaymentAuthorized? && ValidPaymentId(e.body.paymentId)
    requires e.body.amount.Some? && e.body.amount == row.total && e.body.currency == row.currency
    ensures row.reservationId.Some? && row.reservationId.value != ""
    ensures var next := ConfirmedRow(row, e.body.paymentId, now);
            RowInv(next) &&
            Serial(row, items, e, quoteOk, now) == Applied(View(next, items, ConfirmationMessages(next, items, e)))
  {}

  lemma {:induction false} ConfirmKeeps(row: OrderRow, items: seq<Item>, log: seq<Message>, e: Envelope,
                                        paymentId: string, now: int)
    requires OrderInv(row, items, log) && row.status == Pending && row.reservationId.Some?
    requires RowInv(ConfirmedRow(row, paymentId, now))
    ensures var next := ConfirmedRow(row, paymentId, now);
            OrderInv(next, items, log + ConfirmationMessages(next, items, e))
  {
    var next := ConfirmedRow(row, paymentId, now);
    var out := ConfirmationMessages(next, items, e);
    SameTotalItems(row, next, items);
    AppendEvent(row, next, log, out[0]);
    AppendCommand(next, log + [out[0]], out[1]);
    assert log + [out[0]] + [out[1]] == log + out;
  }

  lemma {:induction false} AuthorizedKeeps(row: OrderRow, items: seq<Item>, log: seq<Message>, e: Envelope,
                                           quoteOk: bool, now: int)
    requires OrderInv(row, items, log) && e.body.PaymentAuthorized?
    ensures Keeps(row, items, log, Serial(row, items, e, quoteOk, now))
  {
    assert log + [] == log;
    if !IsTerminal(row.status) && row.status != Confirmed && ValidPaymentId(e.body.paymentId)
       && e.body.amount.Some? && e.body.amount == row.total && e.body.currency == row.currency {
      if row.status == CancelRequested {
        LatePaymentEffect(row, items, e, quoteOk, now);
        LateReferenceKeeps(row, LateRow(row, None, Some(e.body.paymentId), now), items, log, e.sagaId, e.eventId);
      } else {
        ConfirmEffect(row, items, e, quoteOk, now);
        ConfirmKeeps(row, items, log, e, e.body.paymentId, now);
      }
    }
  }

  function CompletedRow(row: OrderRow, now: int): OrderRow {
    row.(status := Cancelled, version := row.version + 1, updatedAt := now)
  }

  lemma {:induction false} CompletionEffect(row: OrderRow, items: seq<Item>, out: seq<Message>, sagaId: string,
                                            causationId: string, now: int)
    requires StorableTotal(row.total) && row.status == CancelRequested && CompensationComplete(row)
    ensures MaybeComplete(View(row, items, out), row, sagaId, causationId, now) ==
            Applied(View(CompletedRow(row, now), items,
              out + [Emit(CompletedRow(row, now), sagaId, causationId, OrderCancelled("CUSTOMER_REQUESTED"))]))
  {}

  /** Completing a cancellation, when every reference held is settled. */
  lemma {:induction false} CompletionKeeps(row: OrderRow, items: seq<Item>, log: seq<Message>, out: seq<Message>,
                                           sagaId: string, causationId: string, now: int)
    requires OrderInv(row, items, log + out)
    ensures Keeps(row, items, log, MaybeComplete(View(row, items, out), row, sagaId, causationId, now))
  {
    if row.status == CancelRequested && CompensationComplete(row) {
      CompletionEffect(row, items, out, sagaId, causationId, now);
      var next := CompletedRow(row, now);
      var m := Emit(next, sagaId, causationId, OrderCancelled("CUSTOMER_REQUESTED"));
      SameTotalItems(row, next, items);
      AppendEvent(row, next, log + out, m);
      CompensatedGrows(next, log + out, [m]);
      assert log + out + [m] == log + (out + [m]);
    }
  }

  /** Setting a completion flag alone. */
  lemma {:induction false} FlagKeeps(row: OrderRow, next: OrderRow, items: seq<Item>, log: seq<Message>)
    requires OrderInv(row, items, log)
    requires next == row.(inventoryReleased := next.inventoryReleased, paymentRefunded := next.paymentRefunded,
                          version := next.version, updatedAt := next.updatedAt)
    requires row.version <= next.version
    requires (row.inventoryReleased ==> next.inventoryReleased) && (row.paymentRefunded ==> next.paymentRefunded)
    ensures OrderInv(next, items, log)
  {
    SameTotalItems(row, next, items);
    RowAdvances(row, next, log);
  }

  lemma {:induction false} ReleasedKeeps(row: OrderRow, items: seq<Item>, log: seq<Message>, e: Envelope,
                                         quoteOk: bool, now: int)
    requires OrderInv(row, items, log) && e.body.InventoryReleased?
    ensures Keeps(row, items, log, Serial(row, items, e, quoteOk, now))
  {
    assert log + [] == log;
    var next := ReleasedRow(row, now);
    FlagKeeps(row, next, items, log);
    CompletionKeeps(next, items, log, [], e.sagaId, e.eventId, now);
  }

  lemma {:induction false} RefundedKeeps(row: OrderRow, items: seq<Item>, log: seq<Message>, e: Envelope,
                                         quoteOk: bool, now: int)
    requires OrderInv(row, items, log) && e.body.PaymentRefunded?
    ensures Keeps(row, items, log, Serial(row, items, e, quoteOk, now))
  {
    assert log + [] == log;
    var next := RefundedRow(row, now);
    FlagKeeps(row, next, items, log);
    CompletionKeeps(next, items, log, [], e.sagaId, e.eventId, now);
  }

  /** Compensation commands repeated for the row itself. */
  lemma {:induction false} RepeatKeeps(row: OrderRow, items: seq<Item>, log: seq<Message>, order: OrderRow,
                                       sagaId: string, causationId: string, t: Trigger)
    requires OrderInv(row, items, log) && CompensatesFor(order, row)
    ensures OrderInv(row, items, log + Compensation(order, sagaId, causationId, t))
  {
    AppendCompensation(row, log, order, sagaId, causationId, t);
    if Cancelling(row.status) {
      CompensatedGrows(row, log, Compensation(order, sagaId, causationId, t));
    }
  }

  lemma {:induction false} FailureKeeps(row: OrderRow, items: seq<Item>, log: seq<Message>, e: Envelope, quoteOk: bool,
                                        now: int)
    requires OrderInv(row, items, log) && IsFailureFact(e.body)
    ensures Keeps(row, items, log, Serial(row, items, e, quoteOk, now))
  {
    var o := Serial(row, items, e, quoteOk, now);
    assert log + [] == log;
    if row.status == CancelRequested {
      var next := SettledRow(row, e.body, now);
      var repeated := Compensation(next, e.sagaId, e.eventId, TriggerOf(e.body));
      FlagKeeps(row, next, items, log);
      RepeatKeeps(next, items, log, next, e.sagaId, e.eventId, TriggerOf(e.body));
      CompletionKeeps(next, items, log, repeated, e.sagaId, e.eventId, now);
      assert [] + repeated == repeated;
    } else if o.Applied? && !IsTerminal(row.status) {
      FailedKeeps(row, items, log, e, now);
    }
  }

  function FailedRow(row: OrderRow, reason: string, now: int): OrderRow {
    row.(status := Failed, failureCode := Coalesce(NullString(reason), row.failureCode), version := row.version + 1,
      updatedAt := now)
  }

  function FailureMessages(row: OrderRow, e: Envelope, reason: string): seq<Message>
    requires IsFailureFact(e.body)
  {
    [Emit(row, e.sagaId, e.eventId, OrderFailed(reason))] + Compensation(row, e.sagaId, e.eventId, TriggerOf(e.body))
  }

  lemma {:induction false} FailedEffect(row: OrderRow, items: seq<Item>, e: Envelope, reason: string, now: int)
    requires RowInv(row) && IsFailureFact(e.body) && !IsTerminal(row.status)
    ensures var next := FailedRow(row, reason, now);
            RowInv(next) &&
            FailWith(View(row, items, []), row, e, reason, now) ==
            if StorableFailureCode(reason) then Applied(View(next, items, FailureMessages(next, e, reason)))
               else Rejected
  {
    CompensationDependsOn(row.(version := row.version + 1), FailedRow(row, reason, now), e.sagaId, e.eventId,
                          TriggerOf(e.body));
  }

  lemma {:induction false} FailedLog(row: OrderRow, log: seq<Message>, e: Envelope, reason: string, now: int)
    requires LogInv(row, log) && IsFailureFact(e.body) && !IsTerminal(row.status) && row.status != CancelRequested
    ensures var next := FailedRow(row, reason, now); LogInv(next, log + FailureMessages(next, e, reason))
  {
    var next := FailedRow(row, reason, now);
    var m := Emit(next, e.sagaId, e.eventId, OrderFailed(reason));
    AppendEvent(row, next, log, m);
    AppendCompensation(next, log + [m], next, e.sagaId, e.eventId, TriggerOf(e.body));
    assert log + [m] + Compensation(next, e.sagaId, e.eventId, TriggerOf(e.body)) ==
           log + FailureMessages(next, e, reason);
  }

  lemma {:induction false} FailedKeeps(row: OrderRow, items: seq<Item>, log: seq<Message>, e: Envelope, now: int)
    requires OrderInv(row, items, log) && IsFailureFact(e.body)
    requires !IsTerminal(row.status) && row.status != CancelRequested
    ensures Keeps(row, items, log, ApplyFailure(View(row, items, []), row, e, now))
  {
    var reason := FailureReason(e.body);
    FailedEffect(row, items, e, reason, now);
    FailedLog(row, log, e, reason, now);
    SameTotalItems(row, FailedRow(row, reason, now), items);
  }

  function FulfilledRow(row: OrderRow, shipmentId: string, now: int): OrderRow {
    row.(status := Completed, shipmentId := Some(shipmentId), version := row.version + 1, updatedAt := now)
  }

  lemma {:induction false} FulfilledEffect(row: OrderRow, items: seq<Item>, e: Envelope, now: int)
    requires StorableTotal(row.total) && e.body.FulfillmentCompleted? && !IsTerminal(row.status)
    ensures var next := FulfilledRow(row, e.body.shipmentId, now);
            ApplyFulfilled(View(row, items, []), row, e, now) ==
            if ValidShipmentId(e.body.shipmentId)
            then Applied(View(next, items, [Emit(next, e.sagaId, e.eventId, OrderCompleted(e.body.shipmentId))]))
            else Rejected
  {}

  lemma {:induction false} FulfilledHistory(row: OrderRow, items: seq<Item>, log: seq<Message>, e: Envelope, now: int)
    requires OrderInv(row, items, log) && e.body.FulfillmentCompleted? && !IsTerminal(row.status)
    ensures var next := FulfilledRow(row, e.body.shipmentId, now);
            OrderInv(next, items, log + [Emit(next, e.sagaId, e.eventId, OrderCompleted(e.body.shipmentId))])
  {
    var next := FulfilledRow(row, e.body.shipmentId, now);
    SameTotalItems(row, next, items);
    AppendEvent(row, next, log, Emit(next, e.sagaId, e.eventId, OrderCompleted(e.body.shipmentId)));
  }

  lemma {:induction false} FulfilledKeeps(row: OrderRow, items: seq<Item>, log: seq<Message>, e: Envelope,
                                          quoteOk: bool, now: int)
    requires OrderInv(row, items, log) && e.body.FulfillmentCompleted?
    ensures Keeps(row, items, log, Serial(row, items, e, quoteOk, now))
  {
    if IsTerminal(row.status) {
      assert log + [] == log;
    } else {
      FulfilledEffect(row, items, e, now);
      FulfilledHistory(row, items, log, e, now);
    }
  }

  /** Every fact keeps the order invariant. */
  lemma {:induction false} FactKeeps(row: OrderRow, items: seq<Item>, log: seq<Message>, e: Envelope, quoteOk: bool,
                                     now: int)
    requires OrderInv(row, items, log)
    ensures Keeps(row, items, log, Serial(row, items, e, quoteOk, now))
  {
    match e.body
    case InventoryReserved(_, _, _, _, _) => ReservedKeeps(row, items, log, e, quoteOk, now);
    case InventoryReleased(_) => ReleasedKeeps(row, items, log, e, quoteOk, now);
    case PaymentAuthorized(_, _, _) => AuthorizedKeeps(row, items, log, e, quoteOk, now);
    case PaymentRefunded(_) => RefundedKeeps(row, items, log, e, quoteOk, now);
    case FulfillmentCompleted(_) => FulfilledKeeps(row, items, log, e, quoteOk, now);
    case Unsupported(_) =>
    case _ => FailureKeeps(row, items, log, e, quoteOk, now);
  }

  /** The history that consists of the creation event. */
  lemma {:induction false} FirstEvent(m: Message)
    requires m.body.OrderCreated? && m.version >= 1
    ensures LegalLog([m]) && LastStatus([m]) == Some(Pending) && LastVersion([m]) == m.version &&
            CountAuthorize([m]) == 0
  {
    assert [m][..0] == [];
    assert LegalLog([]) && LastStatus([]) == None && LastVersion([]) == 0;
    assert Follows([], m);
  }

  /** A fresh order satisfies the invariant with the two messages of its creation. */
  lemma {:induction false} CreationKeeps(id: string, customerId: string, currency: string, items: seq<Item>, nanos: int,
                      sagaId: string, eventId: string, commandId: string)
    requires WellFormedItems(items)
    ensures var order := FreshOrder(id, customerId, currency, items, nanos);
            OrderInv(order.row, order.items, CreationMessages(order, sagaId, eventId, commandId))
  {
    var order := FreshOrder(id, customerId, currency, items, nanos);
    var log := CreationMessages(order, sagaId, eventId, commandId);
    assert Products(order.items) == Products(items);
    assert log[..1] == [log[0]];
    FirstEvent(log[0]);
  }

  lemma {:induction false} CancellationKeeps(row: OrderRow, items: seq<Item>, log: seq<Message>, expectedVersion: nat,
                          sagaId: string, eventId: string, commandId: string, reason: string, now: int)
    requires OrderInv(row, items, log) && Cancellable(row, expectedVersion)
    ensures var next := CancelledRow(row, now);
            OrderInv(next, items, log + CancellationMessages(next, sagaId, eventId, commandId, reason))
  {
    var next := CancelledRow(row, now);
    var m := Emit(next, sagaId, commandId, CancellationRequested(reason));
    SameTotalItems(row, next, items);
    AppendEvent(row, next, log, m);
    AppendCompensation(next, log + [m], next, sagaId, eventId, OnCancellation);
    CancellationCompensates(log + [m], next, sagaId, eventId);
    assert log + [m] + Compensation(next, sagaId, eventId, OnCancellation)
        == log + CancellationMessages(next, sagaId, eventId, commandId, reason);
  }
}
