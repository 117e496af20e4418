/** What each fact does to an order, exactly: when it is accepted, the row and items it
    leaves and the messages it sends, column by column. */
module FactEffects {
  import opened Basics
  import opened OrderAggregate
  import opened QuoteLines
  import opened Saga
  import opened SagaInvariant
  import opened SagaPreservation

  // ----------------------------------------------------------------- what is written

  /** A message about the order at the given version, caused by the fact. */
  function Note(row: OrderRow, version: nat, e: Envelope, step: OperationStep, body: Body): Message {
    Message(row.id, version, e.sagaId, e.eventId, Operation(row.id, step), body)
  }

  /** The release command for the reservation held, if any. */
  function Release(row: OrderRow, version: nat, e: Envelope): seq<Message> {
    if row.reservationId.None? then []
    else [Note(row, version, e, ReleaseStep, ReleaseInventory(row.reservationId.value))]
  }

  /** The refund command for the payment held, if any. */
  function Refund(row: OrderRow, version: nat, e: Envelope): seq<Message> {
    if row.paymentId.None? || row.total.None? then []
    else [Note(row, version, e, RefundStep, RefundPayment(row.paymentId.value, row.total.value, row.currency))]
  }

  predicate Ended(row: OrderRow) {
    row.status == Cancelled || row.status == Completed || row.status == Failed
  }

  ghost predicate Ignored(row: OrderRow, items: seq<Item>, o: Outcome) {
    o == Applied(View(row, items, []))
  }

  /** Nothing is left to undo: what is reserved is released, what is paid is refunded. */
  predicate Undone(row: OrderRow, released: bool, refunded: bool) {
    (row.reservationId.None? || released) && (row.paymentId.None? || refunded)
  }

  /** The row with its two flags as given. Each change of the row is one version; a
      cancellation with nothing left to undo is completed. */
  function Flagged(row: OrderRow, released: bool, refunded: bool, now: int): OrderRow {
    var changed := released != row.inventoryReleased || refunded != row.paymentRefunded;
    var done := row.status == CancelRequested && Undone(row, released, refunded);
    row.(inventoryReleased := released, paymentRefunded := refunded, status := if done then Cancelled else row.status,
         version := row.version + (if changed then 1 else 0) + (if done then 1 else 0),
         updatedAt := if changed || done then now else row.updatedAt)
  }

  /** The cancelled event, if the cancellation is completed. */
  function Closing(row: OrderRow, next: OrderRow, e: Envelope): seq<Message> {
    if next.status == row.status then []
    else [Note(row, next.version, e, FinishStep, OrderCancelled("CUSTOMER_REQUESTED"))]
  }

  /** A code the column accepts: two to sixty-four capitals, digits and underscores,
      the first one a capital. */
  predicate CodeText(code: string) {
    2 <= |code| <= 64 && 'A' <= code[0] <= 'Z' &&
    forall c :: c in code ==> 'A' <= c <= 'Z' || '0' <= c <= '9' || c == '_'
  }

  // ------------------------------------------------------------------- reservations

  /** The lines quote the items and nothing else, with exact line totals. */
  ghost predicate Covers(lines: seq<QuoteLine>, items: seq<Item>) {
    && |lines| == |items|
    && (forall i, j :: 0 <= i < j < |lines| ==> lines[i].productId != lines[j].productId)
    && (forall k :: 0 <= k < |lines| ==>
          && ValidProductId(lines[k].productId) && 1 <= lines[k].quantity && 0 <= lines[k].unitPrice
          && lines[k].lineTotal as int == lines[k].unitPrice as int * lines[k].quantity as int)
    && (forall i :: 0 <= i < |items| ==> Quotes(lines, items[i]))
  }

  ghost predicate Quotes(lines: seq<QuoteLine>, item: Item) {
    exists k :: 0 <= k < |lines| && lines[k].productId == item.productId && lines[k].quantity == item.quantity
  }

  /** What a quote for a PENDING order needs. */
  ghost predicate Offer(row: OrderRow, items: seq<Item>, f: FactBody, quoteOk: bool)
    requires f.InventoryReserved?
  {
    && quoteOk && row.total.None? && f.currency == row.currency
    && ValidQuoteId(f.quoteId) && f.quoteVersion.Some? && 1 <= f.quoteVersion.value
    && f.lines.Some? && Covers(f.lines.value, items)
    && SumOfTotals(LineFacts(f.lines.value)) <= 1_000_000_000
  }

  /** Each item carries the price, line total and quote of the line of its product. */
  ghost predicate PricedFrom(items: seq<Item>, next: seq<Item>, f: FactBody)
    requires f.InventoryReserved? && f.lines.Some? && f.quoteVersion.Some?
  {
    |next| == |items| &&
    forall i, k :: 0 <= i < |items| && 0 <= k < |f.lines.value| && f.lines.value[k].productId == items[i].productId ==>
      next[i] == Item(items[i].productId, items[i].quantity, Some(f.lines.value[k].unitPrice),
                      Some(f.lines.value[k].lineTotal), Some(f.quoteId), f.quoteVersion)
  }

  ghost predicate QuoteStored(row: OrderRow, items: seq<Item>, e: Envelope, now: int, o: Outcome)
    requires e.body.InventoryReserved? && e.body.lines.Some? && e.body.quoteVersion.Some?
  {
    o.Applied? && o.view.row.total.Some? &&
    var total := o.view.row.total.value;
    && total as int == SumOfTotals(LineFacts(e.body.lines.value)) && PricedFrom(items, o.view.items, e.body)
    && o.view.row == row.(reservationId := Some(e.body.reservationId), total := Some(total),
                          version := row.version + 1, updatedAt := now)
    && o.view.out == [Note(row, row.version + 1, e, AuthorizeStep, AuthorizePayment(total, row.currency))]
  }

  ghost predicate ReservedGives(row: OrderRow, items: seq<Item>, e: Envelope, quoteOk: bool, now: int, o: Outcome)
    requires e.body.InventoryReserved?
  {
    if Ended(row) then Ignored(row, items, o)
    else if !ValidReservationId(e.body.reservationId) || e.operation != Operation(row.id, ReserveStep) then o.Rejected?
    else if row.status == Confirmed then Ignored(row, items, o)
    else if row.status == CancelRequested then
      var next := row.(reservationId := Some(e.body.reservationId), version := row.version + 1, updatedAt := now);
      o == Applied(View(next, items, Release(next, next.version, e) + Refund(next, next.version, e)))
    else if !Offer(row, items, e.body, quoteOk) then o.Rejected?
    else QuoteStored(row, items, e, now, o)
  }

  lemma {:induction false} QuotedQuantity(lines: seq<QuoteLine>, item: Item)
    requires Distinct(LineProducts(lines)) && 1 <= item.quantity
    ensures QuantityIn(lines, item.productId) == item.quantity <==> Quotes(lines, item)
  {
    if QuantityIn(lines, item.productId) == item.quantity {
      QuantityFindsLine(lines, item.productId);
      var k :| 0 <= k < |lines| && lines[k].productId == item.productId;
      LookupLine(lines, k);
    }
    if Quotes(lines, item) {
      var k :| 0 <= k < |lines| && lines[k].productId == item.productId && lines[k].quantity == item.quantity;
      LookupLine(lines, k);
    }
  }

  lemma {:induction false} LineExact(line: QuoteLine)
    ensures LineValid(line) <==>
            && ValidProductId(line.productId) && 1 <= line.quantity && 0 <= line.unitPrice
            && line.lineTotal as int == line.unitPrice as int * line.quantity as int
  {
    if 1 <= line.quantity && 0 <= line.unitPrice { ProductBounds(line); }
  }

  lemma {:induction false} SoundExact(lines: seq<QuoteLine>)
    ensures LinesSound(lines) <==>
            && (forall i, j :: 0 <= i < j < |lines| ==> lines[i].productId != lines[j].productId)
            && (forall k :: 0 <= k < |lines| ==>
                  && ValidProductId(lines[k].productId) && 1 <= lines[k].quantity && 0 <= lines[k].unitPrice
                  && lines[k].lineTotal as int == lines[k].unitPrice as int * lines[k].quantity as int)
  {
    assert forall i :: 0 <= i < |lines| ==> LineProducts(lines)[i] == lines[i].productId;
    forall k | 0 <= k < |lines| { LineExact(lines[k]); }
  }

  /** The line checks accept exactly the lines that cover the items. */
  lemma {:induction false} CoversIff(lines: seq<QuoteLine>, items: seq<Item>)
    requires PositiveQuantities(items)
    ensures |lines| == |items| && LinesMatch(lines, items) <==> Covers(lines, items)
  {
    SoundExact(lines);
    if LinesSound(lines) {
      forall i | 0 <= i < |items| { QuotedQuantity(lines, items[i]); }
    }
  }

  lemma {:induction false} PartOfSum(facts: seq<Priced>, k: nat)
    requires k < |facts| && forall i :: 0 <= i < |facts| ==> 0 <= facts[i].lineTotal
    ensures 0 <= facts[k].lineTotal <= SumOfTotals(facts)
  {
    var n := |facts| - 1;
    if k < n {
      PartOfSum(facts[..n], k);
    } else if n > 0 {
      PartOfSum(facts[..n], n - 1);
    }
  }

  lemma {:induction false} LineTotalsNonNegative(lines: seq<QuoteLine>, items: seq<Item>)
    requires Covers(lines, items)
    ensures forall k :: 0 <= k < |lines| ==> 0 <= lines[k].unitPrice as int <= lines[k].lineTotal as int
  {
    forall k | 0 <= k < |lines| ensures 0 <= lines[k].unitPrice as int <= lines[k].lineTotal as int {
      Grows(lines[k].unitPrice as int, lines[k].quantity as int);
    }
  }

  lemma {:induction false} Grows(price: int, quantity: int)
    requires 0 <= price && 1 <= quantity
    ensures price <= price * quantity
  {}

  /** Every price is usable once the sum of the line totals is within the limit. */
  lemma {:induction false} CoveredPrices(lines: seq<QuoteLine>, items: seq<Item>)
    requires Covers(lines, items) && SumOfTotals(LineFacts(lines)) <= 1_000_000_000
    requires LinesSound(lines)
    ensures PricesUsable(items, PricesIn(lines))
  {
    LineTotalsNonNegative(lines, items);
    forall i | 0 <= i < |items|
      ensures items[i].productId in PricesIn(lines) && 0 <= PricesIn(lines)[items[i].productId] <= MAX_TOTAL_MINOR
    {
      assert Quotes(lines, items[i]);
      var k :| 0 <= k < |lines| && lines[k].productId == items[i].productId && lines[k].quantity == items[i].quantity;
      LookupLine(lines, k);
      PartOfSum(LineFacts(lines), k);
    }
  }

  /** The aggregate prices the order from covering lines exactly when their sum is
      within the limit. */
  lemma {:induction false} PricesIff(lines: seq<QuoteLine>, items: seq<Item>)
    requires WellFormedItems(items) && Covers(lines, items)
    ensures LineError(items, PricesIn(lines)).None? <==> SumOfTotals(LineFacts(lines)) <= 1_000_000_000
    ensures TotalOf(items, PricesIn(lines)) == SumOfTotals(LineFacts(lines))
  {
    WellFormedPositive(items);
    CoversIff(lines, items);
    AcceptedTotalIsQuotedSum(lines, items);
    NoLineError(items, PricesIn(lines));
    if SumOfTotals(LineFacts(lines)) <= 1_000_000_000 { CoveredPrices(lines, items); }
  }

  lemma {:induction false} OfferIff(row: OrderRow, items: seq<Item>, f: FactBody, quoteOk: bool, now: int)
    requires WellFormedItems(items) && f.InventoryReserved? && row.status == Pending
    ensures QuoteUsable(OrderValue(row, items), f, quoteOk, now) <==> Offer(row, items, f, quoteOk)
  {
    WellFormedPositive(items);
    if f.lines.Some? {
      CoversIff(f.lines.value, items);
      if Covers(f.lines.value, items) { PricesIff(f.lines.value, items); }
    }
  }

  lemma {:induction false} PricedFromLine(items: seq<Item>, lines: seq<QuoteLine>, i: nat, k: nat, quoteId: string,
                                          quoteVersion: int64)
    requires WellFormedItems(items) && Covers(lines, items) && SumOfTotals(LineFacts(lines)) <= 1_000_000_000
    requires i < |items| && k < |lines| && lines[k].productId == items[i].productId
    ensures PricedItem(items[i], PricesIn(lines), quoteId, quoteVersion) ==
            Item(items[i].productId, items[i].quantity, Some(lines[k].unitPrice), Some(lines[k].lineTotal),
                 Some(quoteId), Some(quoteVersion))
  {
    WellFormedPositive(items);
    SoundExact(lines);
    PricesIff(lines, items);
    CoveredPrices(lines, items);
    LookupLine(lines, k);
    assert Quotes(lines, items[i]);
    StoredLineTotal(items, PricesIn(lines), i);
    MulCommutes(items[i].quantity as int, lines[k].unitPrice as int);
  }

  lemma {:induction false} PricedFromLines(items: seq<Item>, f: FactBody)
    requires WellFormedItems(items) && f.InventoryReserved? && f.lines.Some? && f.quoteVersion.Some?
    requires Covers(f.lines.value, items) && SumOfTotals(LineFacts(f.lines.value)) <= 1_000_000_000
    ensures PricedFrom(items, PricedItems(items, PricesIn(f.lines.value), f.quoteId, f.quoteVersion.value), f)
  {
    forall i: nat, k: nat | i < |items| && k < |f.lines.value| && f.lines.value[k].productId == items[i].productId {
      PricedFromLine(items, f.lines.value, i, k, f.quoteId, f.quoteVersion.value);
    }
  }

  lemma {:induction false} QuoteExact(row: OrderRow, items: seq<Item>, e: Envelope, quoteOk: bool, now: int)
    requires RowInv(row) && WellFormedItems(items) && row.status == Pending
    requires e.body.InventoryReserved? && ValidReservationId(e.body.reservationId)
    requires Offer(row, items, e.body, quoteOk)
    ensures QuoteStored(row, items, e, now,
                        ApplyQuoteFact(View(row, items, []), OrderValue(row, items), e, quoteOk, now))
  {
    var lines := e.body.lines.value;
    OfferIff(row, items, e.body, quoteOk, now);
    QuoteTotal(row, items, e.body, quoteOk, now);
    QuoteFactEffect(row, items, e, quoteOk, now);
    PricesIff(lines, items);
    PricedFromLines(items, e.body);
    QuotedIsStored(row, items, e, RunningTotal(items, PricesIn(lines)),
                   PricedItems(items, PricesIn(lines), e.body.quoteId, e.body.quoteVersion.value), now);
  }

  lemma {:induction false} QuotedIsStored(row: OrderRow, items: seq<Item>, e: Envelope, total: int64, priced: seq<Item>,
                                          now: int)
    requires e.body.InventoryReserved? && e.body.lines.Some? && e.body.quoteVersion.Some?
    requires total as int == SumOfTotals(LineFacts(e.body.lines.value)) && PricedFrom(items, priced, e.body)
    ensures QuoteStored(row, items, e, now, Applied(View(
              QuotedRow(row, e.body.reservationId, total, now), priced,
              [Emit(row.(version := row.version + 1), e.sagaId, e.eventId, AuthorizePayment(total, row.currency))])))
  {}

  /** A reservation of an open order is applied exactly when it names the order's
      reserve operation with a valid reference and, for a PENDING order, its quote is
      verified, new, complete, exact and within the limit. */
  lemma {:induction false} ReservedExact(row: OrderRow, items: seq<Item>, e: Envelope, quoteOk: bool, now: int)
    requires RowInv(row) && WellFormedItems(items) && e.body.InventoryReserved?
    ensures ReservedGives(row, items, e, quoteOk, now, Serial(row, items, e, quoteOk, now))
  {
    if !Ended(row) && ValidReservationId(e.body.reservationId) && e.operation == Operation(row.id, ReserveStep) {
      if row.status == Pending {
        OfferIff(row, items, e.body, quoteOk, now);
        if Offer(row, items, e.body, quoteOk) { QuoteExact(row, items, e, quoteOk, now); }
      } else if row.status == CancelRequested {
        LateReservationEffect(row, items, e, quoteOk, now);
        LateCommands(LateRow(row, Some(e.body.reservationId), None, now), e);
      }
    }
  }

  /** A reference that arrives during cancellation is undone together with the other one. */
  lemma {:induction false} LateCommands(next: OrderRow, e: Envelope)
    requires RowInv(next)
    ensures Compensation(next, e.sagaId, e.eventId, OnCancellation) ==
            Release(next, next.version, e) + Refund(next, next.version, e)
  {}

  // ----------------------------------------------------------------------- payments

  ghost predicate LinesOf(items: seq<Item>, lines: seq<(string, int32)>) {
    |lines| == |items| && forall i :: 0 <= i < |items| ==> lines[i] == (items[i].productId, items[i].quantity)
  }

  /** The order is CONFIRMED, announced and handed to fulfilment. */
  ghost predicate ConfirmationStored(row: OrderRow, items: seq<Item>, e: Envelope, now: int, o: Outcome)
    requires e.body.PaymentAuthorized?
  {
    o.Applied? && row.reservationId.Some? && |o.view.out| == 2 && o.view.out[1].body.CreateFulfillment? &&
    var held, lines := row.reservationId.value, o.view.out[1].body.lines;
    && LinesOf(items, lines) && o.view.items == items
    && o.view.row == row.(status := Confirmed, paymentId := Some(e.body.paymentId), version := row.version + 1,
                          updatedAt := now)
    && o.view.out == [Note(row, row.version + 1, e, ConfirmStep, OrderConfirmed(e.body.paymentId, held)),
                      Note(row, row.version + 1, e, FulfillStep,
                           CreateFulfillment(row.customerId, held, row.currency, lines))]
  }

  ghost predicate AuthorizedGives(row: OrderRow, items: seq<Item>, e: Envelope, now: int, o: Outcome)
    requires e.body.PaymentAuthorized?
  {
    if Ended(row) || row.status == Confirmed then Ignored(row, items, o)
    else if row.total.None? || e.body.amount != row.total || e.body.currency != row.currency ||
            !ValidPaymentId(e.body.paymentId) then o.Rejected?
    else if row.status == CancelRequested then
      var next := row.(paymentId := Some(e.body.paymentId), version := row.version + 1, updatedAt := now);
      o == Applied(View(next, items, Release(next, next.version, e) + Refund(next, next.version, e)))
    else ConfirmationStored(row, items, e, now, o)
  }

  /** An authorisation of an open order is applied exactly when it is for the stored
      total and currency; a PENDING order is then confirmed. */
  lemma {:induction false} AuthorizedExact(row: OrderRow, items: seq<Item>, e: Envelope, quoteOk: bool, now: int)
    requires RowInv(row) && e.body.PaymentAuthorized?
    ensures AuthorizedGives(row, items, e, now, Serial(row, items, e, quoteOk, now))
  {
    if !Ended(row) && row.status != Confirmed && ValidPaymentId(e.body.paymentId) && e.body.amount.Some? &&
       e.body.amount == row.total && e.body.currency == row.currency {
      if row.status == Pending {
        ConfirmationExact(row, items, e, quoteOk, now);
      } else {
        LatePaymentEffect(row, items, e, quoteOk, now);
        LateCommands(LateRow(row, None, Some(e.body.paymentId), now), e);
      }
    }
  }

  lemma {:induction false} ConfirmationExact(row: OrderRow, items: seq<Item>, e: Envelope, quoteOk: bool, now: int)
    requires RowInv(row) && row.status == Pending && e.body.PaymentAuthorized? && ValidPaymentId(e.body.paymentId)
    requires e.body.amount.Some? && e.body.amount == row.total && e.body.currency == row.currency
    ensures ConfirmationStored(row, items, e, now, Serial(row, items, e, quoteOk, now))
  {
    ConfirmEffect(row, items, e, quoteOk, now);
  }

  // --------------------------------------------------------------- release and refund

  ghost predicate ReleasedGives(row: OrderRow, items: seq<Item>, e: Envelope, now: int, o: Outcome)
    requires e.body.InventoryReleased?
  {
    if row.reservationId != Some(e.body.reservationId) then o.Rejected?
    else
      var next := Flagged(row, true, row.paymentRefunded, now);
      o == Applied(View(next, items, Closing(row, next, e)))
  }

  /** A release fact is applied exactly when it names the reservation held. It sets the
      flag and completes a cancellation whose payment, if any, is refunded. */
  lemma {:induction false} ReleasedExact(row: OrderRow, items: seq<Item>, e: Envelope, quoteOk: bool, now: int)
    requires RowInv(row) && e.body.InventoryReleased?
    ensures ReleasedGives(row, items, e, now, Serial(row, items, e, quoteOk, now))
  {
    ReleaseHandled(row, items, e, now);
  }

  lemma {:induction false} ReleaseHandled(row: OrderRow, items: seq<Item>, e: Envelope, now: int)
    requires RowInv(row) && e.body.InventoryReleased?
    ensures ReleasedGives(row, items, e, now, ApplyReleased(View(row, items, []), row, e, now))
  {}

  ghost predicate RefundedGives(row: OrderRow, items: seq<Item>, e: Envelope, now: int, o: Outcome)
    requires e.body.PaymentRefunded?
  {
    if row.paymentId != Some(e.body.paymentId) then o.Rejected?
    else
      var next := Flagged(row, row.inventoryReleased, true, now);
      o == Applied(View(next, items, Closing(row, next, e)))
  }

  /** A refund fact is applied exactly when it names the payment held. It sets the flag
      and completes a cancellation whose reservation, if any, is released. */
  lemma {:induction false} RefundedExact(row: OrderRow, items: seq<Item>, e: Envelope, quoteOk: bool, now: int)
    requires RowInv(row) && e.body.PaymentRefunded?
    ensures RefundedGives(row, items, e, now, Serial(row, items, e, quoteOk, now))
  {
    RefundHandled(row, items, e, now);
  }

  lemma {:induction false} RefundHandled(row: OrderRow, items: seq<Item>, e: Envelope, now: int)
    requires RowInv(row) && e.body.PaymentRefunded?
    ensures RefundedGives(row, items, e, now, ApplyRefunded(View(row, items, []), row, e, now))
  {}

  // ----------------------------------------------------------------------- failures

  function ReasonText(reason: string): string {
    if reason == "" then "DOWNSTREAM_REJECTED" else reason
  }

  /** The order is FAILED and announced, with the given commands, if the reason can be stored. */
  ghost predicate FailureStored(row: OrderRow, items: seq<Item>, e: Envelope, reason: string, undo: seq<Message>,
                                now: int, o: Outcome) {
    if !CodeText(reason) then o.Rejected?
    else o == Applied(View(
      row.(status := Failed, failureCode := Some(reason), version := row.version + 1, updatedAt := now), items,
      [Note(row, row.version + 1, e, FailStep, OrderFailed(reason))] + undo))
  }

  ghost predicate RejectionGives(row: OrderRow, items: seq<Item>, e: Envelope, now: int, o: Outcome)
    requires e.body.InventoryRejected?
  {
    if Ended(row) then Ignored(row, items, o)
    else if row.status == CancelRequested then
      var next := Flagged(row, true, row.paymentRefunded, now);
      o == Applied(View(next, items, Closing(row, next, e)))
    else FailureStored(row, items, e, ReasonText(e.body.reason), [], now, o)
  }

  ghost predicate DeclineGives(row: OrderRow, items: seq<Item>, e: Envelope, now: int, o: Outcome)
    requires e.body.PaymentFailed?
  {
    if Ended(row) then Ignored(row, items, o)
    else if row.status == CancelRequested then
      var next := Flagged(row, row.inventoryReleased, true, now);
      var version := row.version + if row.paymentRefunded then 0 else 1;
      o == Applied(View(next, items, Release(row, version, e) + Closing(row, next, e)))
    else FailureStored(row, items, e, ReasonText(e.body.reason), Release(row, row.version + 1, e), now, o)
  }

  ghost predicate LossGives(row: OrderRow, items: seq<Item>, e: Envelope, now: int, o: Outcome)
    requires e.body.FulfillmentFailed?
  {
    if Ended(row) then Ignored(row, items, o)
    else if row.status == CancelRequested then
      var next := Flagged(row, row.inventoryReleased, row.paymentRefunded, now);
      o == Applied(View(next, items,
                        Release(row, row.version, e) + Refund(row, row.version, e) + Closing(row, next, e)))
    else
      FailureStored(row, items, e, ReasonText(e.body.reason),
                    Release(row, row.version + 1, e) + Refund(row, row.version + 1, e), now, o)
  }

  lemma {:induction false} CodeTextIff(code: string)
    requires code != ""
    ensures StorableFailureCode(code) <==> CodeText(code)
  {
    if CodeText(code) {
      assert forall i :: 0 <= i < |code| ==> code[i] in code;
    }
    if StorableFailureCode(code) {
      forall c | c in code ensures 'A' <= c <= 'Z' || '0' <= c <= '9' || c == '_' {
        var i :| 0 <= i < |code| && code[i] == c;
      }
    }
  }

  /** The commands a row calls for, by the kind of fact. */
  lemma {:induction false} CompensationExact(row: OrderRow, version: nat, e: Envelope, t: Trigger)
    requires RowInv(row)
    ensures Compensation(row.(version := version), e.sagaId, e.eventId, t) ==
            (if t.OnRejected? then [] else Release(row, version, e)) +
            (if t.OnRejected? || t.OnPaymentFailed? then [] else Refund(row, version, e))
  {}

  lemma {:induction false} FailedExact(row: OrderRow, items: seq<Item>, e: Envelope, undo: seq<Message>, quoteOk: bool,
                                       now: int)
    requires RowInv(row) && IsFailureFact(e.body) && (row.status == Pending || row.status == Confirmed)
    requires undo == Compensation(row.(version := row.version + 1), e.sagaId, e.eventId, TriggerOf(e.body))
    ensures FailureStored(row, items, e, ReasonText(e.body.reason), undo, now, Serial(row, items, e, quoteOk, now))
  {
    FailureHandled(row, items, e, ReasonText(e.body.reason), undo, now);
  }

  lemma {:induction false} FailureHandled(row: OrderRow, items: seq<Item>, e: Envelope, reason: string,
                                          undo: seq<Message>, now: int)
    requires RowInv(row) && IsFailureFact(e.body) && (row.status == Pending || row.status == Confirmed) && reason != ""
    requires undo == Compensation(row.(version := row.version + 1), e.sagaId, e.eventId, TriggerOf(e.body))
    ensures FailureStored(row, items, e, reason, undo, now, FailWith(View(row, items, []), row, e, reason, now))
  {
    CodeTextIff(reason);
    FailedEffect(row, items, e, reason, now);
    CompensationDependsOn(row.(version := row.version + 1), FailedRow(row, reason, now), e.sagaId, e.eventId,
                          TriggerOf(e.body));
  }

  /** A cancellation in progress takes every failure fact: the flag of the side that
      failed is set, and what the other side holds is undone. */
  lemma {:induction false} SettledExact(row: OrderRow, items: seq<Item>, e: Envelope, undo: seq<Message>, quoteOk: bool,
                                        now: int)
    requires RowInv(row) && IsFailureFact(e.body) && row.status == CancelRequested
    requires undo == Compensation(SettledRow(row, e.body, now), e.sagaId, e.eventId, TriggerOf(e.body))
    ensures var released := row.inventoryReleased || e.body.InventoryRejected?;
            var refunded := row.paymentRefunded || e.body.PaymentFailed?;
            var next := Flagged(row, released, refunded, now);
            Serial(row, items, e, quoteOk, now) == Applied(View(next, items, undo + Closing(row, next, e)))
  {
    var held := SettledRow(row, e.body, now);
    SettledMark(row, items, e.body, now);
    assert [] + undo == undo;
    assert Send(View(held, items, []), undo) == View(held, items, undo);
    SettlementCloses(row, items, e, undo, now);
  }

  lemma {:induction false} SettlementCloses(row: OrderRow, items: seq<Item>, e: Envelope, undo: seq<Message>, now: int)
    requires RowInv(row) && row.status == CancelRequested
    ensures var released := row.inventoryReleased || e.body.InventoryRejected?;
            var refunded := row.paymentRefunded || e.body.PaymentFailed?;
            var held, next := SettledRow(row, e.body, now), Flagged(row, released, refunded, now);
            MaybeComplete(View(held, items, undo), held, e.sagaId, e.eventId, now) ==
            Applied(View(next, items, undo + Closing(row, next, e)))
  {
    var held := SettledRow(row, e.body, now);
    assert undo + [] == undo;
    if CompensationComplete(held) {
      CompletionEffect(held, items, undo, e.sagaId, e.eventId, now);
    }
  }

  lemma {:induction false} SettledMark(row: OrderRow, items: seq<Item>, f: FactBody, now: int)
    ensures MarkSettled(View(row, items, []), row, f, now) == Applied(View(SettledRow(row, f, now), items, []))
  {}

  lemma {:induction false} SettledCommands(row: OrderRow, e: Envelope, now: int)
    requires RowInv(row) && IsFailureFact(e.body)
    ensures Compensation(SettledRow(row, e.body, now), e.sagaId, e.eventId, TriggerOf(e.body)) ==
            Compensation(row.(version := SettledRow(row, e.body, now).version), e.sagaId, e.eventId, TriggerOf(e.body))
  {
    CompensationDependsOn(SettledRow(row, e.body, now), row.(version := SettledRow(row, e.body, now).version),
                          e.sagaId, e.eventId, TriggerOf(e.body));
  }

  lemma {:induction false} RejectionExact(row: OrderRow, items: seq<Item>, e: Envelope, quoteOk: bool, now: int)
    requires RowInv(row) && e.body.InventoryRejected?
    ensures RejectionGives(row, items, e, now, Serial(row, items, e, quoteOk, now))
  {
    if row.status == CancelRequested {
      SettledExact(row, items, e, [], quoteOk, now);
      assert [] + Closing(row, Flagged(row, true, row.paymentRefunded, now), e) ==
             Closing(row, Flagged(row, true, row.paymentRefunded, now), e);
    } else if !Ended(row) {
      FailedExact(row, items, e, [], quoteOk, now);
    }
  }

  lemma {:induction false} DeclineExact(row: OrderRow, items: seq<Item>, e: Envelope, quoteOk: bool, now: int)
    requires RowInv(row) && e.body.PaymentFailed?
    ensures DeclineGives(row, items, e, now, Serial(row, items, e, quoteOk, now))
  {
    if row.status == CancelRequested {
      var version := SettledRow(row, e.body, now).version;
      SettledCommands(row, e, now);
      CompensationExact(row, version, e, OnPaymentFailed);
      assert Release(row, version, e) + [] == Release(row, version, e);
      SettledExact(row, items, e, Release(row, version, e), quoteOk, now);
    } else if !Ended(row) {
      CompensationExact(row, row.version + 1, e, OnPaymentFailed);
      assert Release(row, row.version + 1, e) + [] == Release(row, row.version + 1, e);
      FailedExact(row, items, e, Release(row, row.version + 1, e), quoteOk, now);
    }
  }

  lemma {:induction false} LossExact(row: OrderRow, items: seq<Item>, e: Envelope, quoteOk: bool, now: int)
    requires RowInv(row) && e.body.FulfillmentFailed?
    ensures LossGives(row, items, e, now, Serial(row, items, e, quoteOk, now))
  {
    if row.status == CancelRequested {
      CompensationExact(row, row.version, e, OnFulfillmentFailed);
      SettledExact(row, items, e, Release(row, row.version, e) + Refund(row, row.version, e), quoteOk, now);
    } else if !Ended(row) {
      var version := row.version + 1;
      CompensationExact(row, version, e, OnFulfillmentFailed);
      FailedExact(row, items, e, Release(row, version, e) + Refund(row, version, e), quoteOk, now);
    }
  }

  // --------------------------------------------------------------------- completion

  ghost predicate FulfilledGives(row: OrderRow, items: seq<Item>, e: Envelope, now: int, o: Outcome)
    requires e.body.FulfillmentCompleted?
  {
    if Ended(row) then Ignored(row, items, o)
    else if !ValidShipmentId(e.body.shipmentId) then o.Rejected?
    else o == Applied(View(
      row.(status := Completed, shipmentId := Some(e.body.shipmentId), version := row.version + 1, updatedAt := now),
      items, [Note(row, row.version + 1, e, CompleteStep, OrderCompleted(e.body.shipmentId))]))
  }

  lemma {:induction false} FulfilledExact(row: OrderRow, items: seq<Item>, e: Envelope, quoteOk: bool, now: int)
    requires RowInv(row) && e.body.FulfillmentCompleted?
    ensures FulfilledGives(row, items, e, now, Serial(row, items, e, quoteOk, now))
  {
    CompletionHandled(row, items, e, now);
  }

  lemma {:induction false} CompletionHandled(row: OrderRow, items: seq<Item>, e: Envelope, now: int)
    requires RowInv(row) && e.body.FulfillmentCompleted?
    ensures FulfilledGives(row, items, e, now, ApplyFulfilled(View(row, items, []), row, e, now))
  {
    if !Ended(row) { FulfilledEffect(row, items, e, now); }
  }

  // ---------------------------------------------------------------------- every fact

  ghost predicate Gives(row: OrderRow, items: seq<Item>, e: Envelope, quoteOk: bool, now: int, o: Outcome) {
    match e.body
    case InventoryReserved(_, _, _, _, _) => ReservedGives(row, items, e, quoteOk, now, o)
    case InventoryRejected(_) => RejectionGives(row, items, e, now, o)
    case InventoryReleased(_) => ReleasedGives(row, items, e, now, o)
    case PaymentAuthorized(_, _, _) => AuthorizedGives(row, items, e, now, o)
    case PaymentFailed(_) => DeclineGives(row, items, e, now, o)
    case PaymentRefunded(_) => RefundedGives(row, items, e, now, o)
    case FulfillmentCompleted(_) => FulfilledGives(row, items, e, now, o)
    case FulfillmentFailed(_) => LossGives(row, items, e, now, o)
    case Unsupported(_) => o.Rejected?
  }

  /** Every fact, from every status, does exactly what its kind gives. */
  lemma {:induction false} FactExact(row: OrderRow, items: seq<Item>, e: Envelope, quoteOk: bool, now: int)
    requires RowInv(row) && WellFormedItems(items)
    ensures Gives(row, items, e, quoteOk, now, Serial(row, items, e, quoteOk, now))
  {
    match e.body
    case InventoryReserved(_, _, _, _, _) => ReservedExact(row, items, e, quoteOk, now);
    case InventoryRejected(_) => RejectionExact(row, items, e, quoteOk, now);
    case InventoryReleased(_) => ReleasedExact(row, items, e, quoteOk, now);
    case PaymentAuthorized(_, _, _) => AuthorizedExact(row, items, e, quoteOk, now);
    case PaymentFailed(_) => DeclineExact(row, items, e, quoteOk, now);
    case PaymentRefunded(_) => RefundedExact(row, items, e, quoteOk, now);
    case FulfillmentCompleted(_) => FulfilledExact(row, items, e, quoteOk, now);
    case FulfillmentFailed(_) => LossExact(row, items, e, quoteOk, now);
    case Unsupported(_) =>
  }
}
