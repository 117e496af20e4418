/** What one committed transaction does to one order: its row, its items and the
    outbox messages it adds. A handler works from the order it loaded earlier
    (`order`) against the row that is stored when it writes (`View.row`); every
    write of the row is guarded by the version. */
module Saga {
  import opened Basics
  import opened OrderAggregate
  import opened QuoteLines

  // ------------------------------------------------------------ outbox messages

  datatype Body =
    | OrderCreated(customerId: string, currency: string, lines: seq<(string, int32)>)
    | ReserveInventory(customerId: string, currency: string, lines: seq<(string, int32)>)
    | AuthorizePayment(amount: int64, currency: string)
    | OrderConfirmed(paymentId: string, reservationId: string)
    | CreateFulfillment(customerId: string, reservationId: string, currency: string, lines: seq<(string, int32)>)
    | CancellationRequested(reason: string)
    | ReleaseInventory(reservationId: string)
    | RefundPayment(paymentId: string, amount: int64, currency: string)
    | OrderCancelled(reason: string)
    | OrderCompleted(shipmentId: string)
    | OrderFailed(reason: string)

  datatype OperationStep =
    | CreateStep | ReserveStep | AuthorizeStep | ConfirmStep | FulfillStep | CancelStep
    | ReleaseStep | RefundStep | FinishStep | CompleteStep | FailStep

  /** An operation id: the order id and the step it names, written `id:step` on
      the wire; any other text is foreign. */
  datatype Operation = Operation(orderId: string, step: OperationStep) | Foreign(text: string)

  datatype Message = Message(
    orderId: string, version: nat, sagaId: string, causationId: string, operation: Operation, body: Body)

  function StepOf(body: Body): OperationStep {
    match body
    case OrderCreated(_, _, _) => CreateStep
    case ReserveInventory(_, _, _) => ReserveStep
    case AuthorizePayment(_, _) => AuthorizeStep
    case OrderConfirmed(_, _) => ConfirmStep
    case CreateFulfillment(_, _, _, _) => FulfillStep
    case CancellationRequested(_) => CancelStep
    case ReleaseInventory(_) => ReleaseStep
    case RefundPayment(_, _, _) => RefundStep
    case OrderCancelled(_) => FinishStep
    case OrderCompleted(_) => CompleteStep
    case OrderFailed(_) => FailStep
  }

  function Emit(order: OrderRow, sagaId: string, causationId: string, body: Body): Message {
    Message(order.id, order.version, sagaId, causationId, Operation(order.id, StepOf(body)), body)
  }

  function ItemLines(items: seq<Item>): seq<(string, int32)> {
    seq(|items|, i requires 0 <= i < |items| => (items[i].productId, items[i].quantity))
  }

  /** The status an order event announces; commands announce none. */
  function Announces(body: Body): Option<Status> {
    match body
    case OrderCreated(_, _, _) => Some(Pending)
    case OrderConfirmed(_, _) => Some(Confirmed)
    case CancellationRequested(_) => Some(CancelRequested)
    case OrderCancelled(_) => Some(Cancelled)
    case OrderCompleted(_) => Some(Completed)
    case OrderFailed(_) => Some(Failed)
    case _ => None
  }

  // -------------------------------------------------------------- incoming facts

  datatype FactBody =
    | InventoryReserved(reservationId: string, currency: string, quoteId: string,
                        quoteVersion: Option<int64>, lines: Option<seq<QuoteLine>>)
    | InventoryRejected(reason: string)
    | InventoryReleased(reservationId: string)
    | PaymentAuthorized(paymentId: string, amount: Option<int64>, currency: string)
    | PaymentFailed(reason: string)
    | PaymentRefunded(paymentId: string)
    | FulfillmentCompleted(shipmentId: string)
    | FulfillmentFailed(reason: string)
    | Unsupported(eventType: string)

  datatype Envelope = Envelope(
    eventId: string, aggregateId: string, aggregateType: string, producer: string, schemaVersion: int,
    correlationId: string, operation: Operation, sagaId: string, orderId: string, body: FactBody)

  predicate ValidFactIdentity(e: Envelope) {
    match e.body
    case InventoryReserved(_, _, _, _, _) | InventoryRejected(_) | InventoryReleased(_) =>
      e.aggregateType == "inventory" && e.producer == "inventory"
    case PaymentAuthorized(_, _, _) | PaymentFailed(_) | PaymentRefunded(_) =>
      e.aggregateType == "payment" && e.producer == "payments"
    case FulfillmentCompleted(_) | FulfillmentFailed(_) =>
      e.aggregateType == "fulfillment" && e.producer == "fulfillment"
    case Unsupported(_) => false
  }

  /** The envelope checks made before any transaction is opened. */
  predicate Admissible(e: Envelope) {
    && e.eventId != "" && e.aggregateId != "" && e.schemaVersion == 1
    && ValidOrderId(e.orderId) && e.correlationId == e.orderId && ValidFactIdentity(e)
  }

  // ------------------------------------------------------------- row statements

  datatype View = View(row: OrderRow, items: seq<Item>, out: seq<Message>)

  datatype Outcome = Applied(view: View) | Rejected {
    predicate IsFailure() { Rejected? }
    function PropagateFailure(): Outcome requires Rejected? { Rejected }
    function Extract(): View requires Applied? { view }
  }

  function Send(v: View, messages: seq<Message>): View {
    v.(out := v.out + messages)
  }

  /** The CHECK constraint on failure_code; a NULL passes. */
  predicate StorableFailureCode(code: string) {
    code == "" ||
    (2 <= |code| <= 64 && 'A' <= code[0] <= 'Z' &&
     forall i :: 1 <= i < |code| ==> 'A' <= code[i] <= 'Z' || '0' <= code[i] <= '9' || code[i] == '_')
  }

  /** The CHECK constraint on total_minor; a NULL passes. */
  predicate StorableTotal(total: Option<int64>) {
    total.None? || 0 <= total.value <= MAX_TOTAL_MINOR
  }

  /** The columns written by a workflow update. */
  datatype Change = Change(
    status: Status, failure: string, reservation: string, payment: string, shipment: string, total: Option<int64>)

  function WorkflowRow(row: OrderRow, c: Change, now: int): OrderRow {
    row.(status := c.status,
         failureCode := Coalesce(NullString(c.failure), row.failureCode),
         reservationId := Coalesce(NullString(c.reservation), row.reservationId),
         paymentId := Coalesce(NullString(c.payment), row.paymentId),
         shipmentId := Coalesce(NullString(c.shipment), row.shipmentId),
         total := Coalesce(c.total, row.total),
         version := row.version + 1,
         updatedAt := now)
  }

  function UpdateWorkflow(v: View, order: OrderRow, c: Change, now: int): Outcome {
    if c.status != order.status && IsTerminal(order.status) then Applied(v)
    else if v.row.version != order.version || !StorableFailureCode(c.failure) || !StorableTotal(c.total) then Rejected
    else Applied(v.(row := WorkflowRow(v.row, c, now)))
  }

  function ReleasedRow(row: OrderRow, now: int): OrderRow {
    if row.inventoryReleased then row
    else row.(inventoryReleased := true, version := row.version + 1, updatedAt := now)
  }

  function MarkReleased(v: View, order: OrderRow, now: int): Outcome {
    if order.inventoryReleased then Applied(v)
    else if v.row.version != order.version || v.row.inventoryReleased then Rejected
    else Applied(v.(row := ReleasedRow(v.row, now)))
  }

  function RefundedRow(row: OrderRow, now: int): OrderRow {
    if row.paymentRefunded then row
    else row.(paymentRefunded := true, version := row.version + 1, updatedAt := now)
  }

  function MarkRefunded(v: View, order: OrderRow, now: int): Outcome {
    if order.paymentRefunded then Applied(v)
    else if v.row.version != order.version || v.row.paymentRefunded then Rejected
    else Applied(v.(row := RefundedRow(v.row, now)))
  }

  /** One UPDATE of the quote columns of the item with the given product. */
  function QuoteItem(stored: seq<Item>, quoted: Item): seq<Item> {
    seq(|stored|, i requires 0 <= i < |stored| =>
      if stored[i].productId == quoted.productId
      then stored[i].(unitPrice := quoted.unitPrice, lineTotal := quoted.lineTotal,
                      quoteId := quoted.quoteId, quoteVersion := quoted.quoteVersion)
      else stored[i])
  }

  function QuoteItems(stored: seq<Item>, quoted: seq<Item>): seq<Item> {
    if quoted == [] then stored
    else QuoteItem(QuoteItems(stored, quoted[..|quoted| - 1]), quoted[|quoted| - 1])
  }

  // ------------------------------------------------------------------- handlers

  datatype Trigger = OnRejected | OnPaymentFailed | OnFulfillmentFailed | OnCancellation

  function Compensation(order: OrderRow, sagaId: string, causationId: string, trigger: Trigger): seq<Message> {
    (if !trigger.OnRejected? && order.reservationId.Some? && ValidReservationId(order.reservationId.value)
     then [Emit(order, sagaId, causationId, ReleaseInventory(order.reservationId.value))] else []) +
    (if (trigger.OnFulfillmentFailed? || trigger.OnCancellation?)
        && order.paymentId.Some? && ValidPaymentId(order.paymentId.value) && order.total.Some?
     then [Emit(order, sagaId, causationId, RefundPayment(order.paymentId.value, order.total.value, order.currency))]
       else [])
  }

  predicate CompensationComplete(order: OrderRow) {
    && (order.reservationId.Some? ==> order.inventoryReleased)
    && (order.paymentId.Some? ==> order.paymentRefunded)
  }

  function MaybeComplete(v: View, order: OrderRow, sagaId: string, causationId: string, now: int): Outcome {
    if order.status != CancelRequested || !CompensationComplete(order) then Applied(v)
    else
      var v1 :- UpdateWorkflow(v, order, Change(Cancelled, "", "", "", "", order.total), now);
      Applied(Send(v1,
        [Emit(order.(version := order.version + 1), sagaId, causationId, OrderCancelled("CUSTOMER_REQUESTED"))]))
  }

  ghost predicate QuoteUsable(order: OrderValue, f: FactBody, quoteOk: bool, now: int)
    requires f.InventoryReserved?
  {
    && f.currency == order.row.currency && f.quoteVersion.Some?
    && f.lines.Some? && |f.lines.value| == |order.items|
    && quoteOk
    && LinesMatch(f.lines.value, order.items)
    && QuoteError(order, f.quoteId, f.quoteVersion.value, PricesIn(f.lines.value), Utc(now)).None?
  }

  /** The writes of an accepted quote, from the priced order and the version it was read at. */
  function StoreQuote(v: View, quoted: OrderValue, e: Envelope, now: int): Outcome
    requires e.body.InventoryReserved?
  {
    var held := quoted.row;
    var v1 :- UpdateWorkflow(v.(items := QuoteItems(v.items, quoted.items)), held,
                             Change(Pending, "", e.body.reservationId, "", "", held.total), now);
    if held.total.None? then Rejected
    else Applied(Send(v1, [Emit(held.(version := held.version + 1), e.sagaId, e.eventId,
                                AuthorizePayment(held.total.value, held.currency))]))
  }

  ghost function ApplyQuoteFact(v: View, order: OrderValue, e: Envelope, quoteOk: bool, now: int): Outcome
    requires e.body.InventoryReserved?
  {
    var f := e.body;
    if !QuoteUsable(order, f, quoteOk, now) then Rejected
    else
      var quoted := Quoted(order, f.quoteId, f.quoteVersion.value, PricesIn(f.lines.value), now);
      StoreQuote(v, quoted.(row := quoted.row.(version := order.row.version)), e, now)
  }

  ghost function ApplyReserved(v: View, order: OrderValue, e: Envelope, quoteOk: bool, now: int): Outcome
    requires e.body.InventoryReserved?
  {
    var id := e.body.reservationId;
    if IsTerminal(order.row.status) then Applied(v)
    else if !ValidReservationId(id) || e.operation != Operation(order.row.id, ReserveStep) then Rejected
    else if order.row.status == CancelRequested then
      var held := order.row.(reservationId := Some(id));
      var v1 :- UpdateWorkflow(v, held, Change(CancelRequested, "", id, "", "", held.total), now);
      Applied(Send(v1, Compensation(held.(version := held.version + 1), e.sagaId, e.eventId, OnCancellation)))
    else if order.row.status != Pending then Applied(v)
    else ApplyQuoteFact(v, order, e, quoteOk, now)
  }

  function ApplyAuthorized(v: View, order: OrderValue, e: Envelope, now: int): Outcome
    requires e.body.PaymentAuthorized?
  {
    var f := e.body;
    if IsTerminal(order.row.status) || order.row.status == Confirmed then Applied(v)
    else if f.amount.None? || order.row.total.None? || f.amount != order.row.total ||
            f.currency != order.row.currency then Rejected
    else if !ValidPaymentId(f.paymentId) then Rejected
    else if order.row.status == CancelRequested then
      var held := order.row.(paymentId := Some(f.paymentId));
      var v1 :- UpdateWorkflow(v, held, Change(CancelRequested, "", "", f.paymentId, "", held.total), now);
      Applied(Send(v1, Compensation(held.(version := held.version + 1), e.sagaId, e.eventId, OnCancellation)))
    else
      var v1 :- UpdateWorkflow(v, order.row, Change(Confirmed, "", "", f.paymentId, "", order.row.total), now);
      var held := order.row.(version := order.row.version + 1, paymentId := Some(f.paymentId));
      if held.reservationId.None? || held.reservationId.value == "" then Rejected
      else Applied(Send(v1,
        [Emit(held, e.sagaId, e.eventId, OrderConfirmed(f.paymentId, held.reservationId.value)),
         Emit(held, e.sagaId, e.eventId,
              CreateFulfillment(held.customerId, held.reservationId.value, held.currency, ItemLines(order.items)))]))
  }

  function ApplyReleased(v: View, order: OrderRow, e: Envelope, now: int): Outcome
    requires e.body.InventoryReleased?
  {
    if order.reservationId != Some(e.body.reservationId) then Rejected
    else if IsTerminal(order.status) && order.inventoryReleased then Applied(v)
    else
      var v1 :- MarkReleased(v, order, now);
      MaybeComplete(v1, ReleasedRow(order, now), e.sagaId, e.eventId, now)
  }

  function ApplyRefunded(v: View, order: OrderRow, e: Envelope, now: int): Outcome
    requires e.body.PaymentRefunded?
  {
    if order.paymentId != Some(e.body.paymentId) then Rejected
    else if IsTerminal(order.status) && order.paymentRefunded then Applied(v)
    else
      var v1 :- MarkRefunded(v, order, now);
      MaybeComplete(v1, RefundedRow(order, now), e.sagaId, e.eventId, now)
  }

  predicate IsFailureFact(f: FactBody) {
    f.InventoryRejected? || f.PaymentFailed? || f.FulfillmentFailed?
  }

  function TriggerOf(f: FactBody): Trigger
    requires IsFailureFact(f)
  {
    if f.InventoryRejected? then OnRejected else if f.PaymentFailed? then OnPaymentFailed else OnFulfillmentFailed
  }

  /** The in-memory order after the flag a failure fact settles during cancellation. */
  function SettledRow(order: OrderRow, f: FactBody, now: int): OrderRow {
    if f.InventoryRejected? then ReleasedRow(order, now)
    else if f.PaymentFailed? then RefundedRow(order, now)
    else order
  }

  function MarkSettled(v: View, order: OrderRow, f: FactBody, now: int): Outcome {
    if f.InventoryRejected? then MarkReleased(v, order, now)
    else if f.PaymentFailed? then MarkRefunded(v, order, now)
    else Applied(v)
  }

  function FailureReason(f: FactBody): string
    requires IsFailureFact(f)
  {
    if f.reason == "" then "DOWNSTREAM_REJECTED" else f.reason
  }

  function FailWith(v: View, order: OrderRow, e: Envelope, reason: string, now: int): Outcome
    requires IsFailureFact(e.body)
  {
    var v1 :- UpdateWorkflow(v, order, Change(Failed, reason, "", "", "", order.total), now);
    var held := order.(version := order.version + 1);
    Applied(Send(v1, [Emit(held, e.sagaId, e.eventId, OrderFailed(reason))]
                     + Compensation(held, e.sagaId, e.eventId, TriggerOf(e.body))))
  }

  function ApplyFailure(v: View, order: OrderRow, e: Envelope, now: int): Outcome
    requires IsFailureFact(e.body)
  {
    if order.status == CancelRequested then
      var v1 :- MarkSettled(v, order, e.body, now);
      var held := SettledRow(order, e.body, now);
      MaybeComplete(Send(v1, Compensation(held, e.sagaId, e.eventId, TriggerOf(e.body))), held, e.sagaId, e.eventId,
        now)
    else if IsTerminal(order.status) then Applied(v)
    else FailWith(v, order, e, FailureReason(e.body), now)
  }

  function ApplyFulfilled(v: View, order: OrderRow, e: Envelope, now: int): Outcome
    requires e.body.FulfillmentCompleted?
  {
    var id := e.body.shipmentId;
    if IsTerminal(order.status) then Applied(v)
    else if !ValidShipmentId(id) then Rejected
    else
      var v1 :- UpdateWorkflow(v, order, Change(Completed, "", "", "", id, order.total), now);
      Applied(Send(v1, [Emit(order.(version := order.version + 1), e.sagaId, e.eventId, OrderCompleted(id))]))
  }

  /** The switch over fact types: what a fact does to the order it names. */
  ghost function Handle(v: View, order: OrderValue, e: Envelope, quoteOk: bool, now: int): Outcome {
    match e.body
    case InventoryReserved(_, _, _, _, _) => ApplyReserved(v, order, e, quoteOk, now)
    case InventoryReleased(_) => ApplyReleased(v, order.row, e, now)
    case PaymentAuthorized(_, _, _) => ApplyAuthorized(v, order, e, now)
    case PaymentRefunded(_) => ApplyRefunded(v, order.row, e, now)
    case FulfillmentCompleted(_) => ApplyFulfilled(v, order.row, e, now)
    case Unsupported(_) => Rejected
    case _ => ApplyFailure(v, order.row, e, now)
  }

  /** A fact applied with nothing in between its read and its writes. */
  ghost function Serial(row: OrderRow, items: seq<Item>, e: Envelope, quoteOk: bool, now: int): Outcome {
    Handle(View(row, items, []), OrderValue(row, items), e, quoteOk, now)
  }

  /** The messages written when an order is created. */
  function CreationMessages(order: OrderValue, sagaId: string, eventId: string, commandId: string): seq<Message> {
    [Emit(order.row, sagaId, commandId, OrderCreated(order.row.customerId, order.row.currency, ItemLines(order.items))),
     Emit(order.row, sagaId, eventId,
       ReserveInventory(order.row.customerId, order.row.currency, ItemLines(order.items)))]
  }

  predicate Cancellable(row: OrderRow, expectedVersion: nat) {
    row.version == expectedVersion && (row.status == Pending || row.status == Confirmed)
  }

  function CancelledRow(row: OrderRow, now: int): OrderRow {
    row.(status := CancelRequested, version := row.version + 1, updatedAt := now)
  }

  /** The messages written with a cancellation request, from the row it returned. */
  function CancellationMessages(row: OrderRow, sagaId: string, eventId: string, commandId: string,
                                reason: string): seq<Message> {
    [Emit(row, sagaId, commandId, CancellationRequested(reason))] + Compensation(row, sagaId, eventId, OnCancellation)
  }
}
