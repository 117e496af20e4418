/** What every committed transaction keeps true of one order: its row, its items
    and its outbox messages in insertion order (`log`). */
module SagaInvariant {
  import opened Basics
  import opened OrderAggregate
  import opened Saga

  // ---------------------------------------------------------- the event history

  /** The status changes the store makes. They differ from the aggregate's own
      table: a completion fact is accepted from every non-terminal status, and a
      cancellation in progress never becomes a failure. */
  predicate StoreEdge(from: Status, to: Status) {
    match from
    case Pending => to == Confirmed || to == CancelRequested || to == Failed || to == Completed
    case Confirmed => to == CancelRequested || to == Failed || to == Completed
    case CancelRequested => to == Cancelled || to == Completed
    case _ => false
  }

  /** The status announced by the last order event: the fold of the event history. */
  function LastStatus(log: seq<Message>): Option<Status> {
    if log == [] then None
    else if Announces(log[|log| - 1].body).Some? then Announces(log[|log| - 1].body)
    else LastStatus(log[..|log| - 1])
  }

  function LastVersion(log: seq<Message>): nat {
    if log == [] then 0
    else if Announces(log[|log| - 1].body).Some? then log[|log| - 1].version
    else LastVersion(log[..|log| - 1])
  }

  /** An event may follow a history: creation first, then edges of the store, at rising versions. */
  predicate Follows(log: seq<Message>, m: Message) {
    match Announces(m.body)
    case None => true
    case Some(s) =>
      && LastVersion(log) < m.version
      && (match LastStatus(log)
          case None => s == Pending
          case Some(t) => StoreEdge(t, s))
  }

  predicate LegalLog(log: seq<Message>) {
    log == [] || (LegalLog(log[..|log| - 1]) && Follows(log[..|log| - 1], log[|log| - 1]))
  }

  function CountEvents(log: seq<Message>, s: Status): nat {
    if log == [] then 0
    else CountEvents(log[..|log| - 1], s) + if Announces(log[|log| - 1].body) == Some(s) then 1 else 0
  }

  function CountAuthorize(log: seq<Message>): nat {
    if log == [] then 0
    else CountAuthorize(log[..|log| - 1]) + if log[|log| - 1].body.AuthorizePayment? then 1 else 0
  }

  function Rank(s: Status): nat {
    match s
    case Pending => 0
    case Confirmed => 1
    case CancelRequested => 2
    case _ => 3
  }

  // -------------------------------------------------------------- the invariants

  ghost predicate Sent(log: seq<Message>, body: Body) {
    exists i :: 0 <= i < |log| && log[i].body == body
  }

  /** References held by a row. */
  ghost predicate RowInv(row: OrderRow) {
    && 1 <= row.version
    && StorableTotal(row.total)
    && (row.reservationId.Some? ==> ValidReservationId(row.reservationId.value))
    && (row.paymentId.Some? ==> ValidPaymentId(row.paymentId.value) && row.total.Some?)
    && (row.total.Some? ==> row.reservationId.Some?)
    && (row.status == Confirmed ==> row.paymentId.Some?)
    && (row.status == Completed ==> row.shipmentId.Some?)
    && (row.status == Cancelled ==> CompensationComplete(row))
  }

  function StoredSum(items: seq<Item>): int {
    if items == [] then 0
    else StoredSum(items[..|items| - 1]) +
         (if items[|items| - 1].lineTotal.Some? then items[|items| - 1].lineTotal.value as int else 0)
  }

  ghost predicate PriceStored(item: Item) {
    && item.unitPrice.Some? && 0 <= item.unitPrice.value
    && item.lineTotal.Some? && item.lineTotal.value as int == item.quantity as int * item.unitPrice.value as int
    && item.quoteId.Some? && item.quoteVersion.Some?
  }

  /** Items are priceless until the quote; afterwards their totals add up to the order total. */
  ghost predicate ItemsInv(row: OrderRow, items: seq<Item>) {
    && WellFormedItems(items)
    && (row.total.None? ==> forall i :: 0 <= i < |items| ==> IsUnpriced(items[i]))
    && (row.total.Some? ==>
          && (forall i :: 0 <= i < |items| ==> PriceStored(items[i]))
          && StoredSum(items) == row.total.value as int)
  }

  /** A message carries the order's identity, the operation id of its kind, and
      no amount other than the order's total. */
  ghost predicate MessageInv(row: OrderRow, m: Message) {
    && m.orderId == row.id
    && m.operation == Operation(row.id, StepOf(m.body))
    && (m.body.AuthorizePayment? ==> row.total == Some(m.body.amount) && m.body.currency == row.currency)
    && (m.body.RefundPayment? ==> row.total == Some(m.body.amount) && m.body.currency == row.currency)
  }

  ghost predicate LogInv(row: OrderRow, log: seq<Message>) {
    && LegalLog(log) && LastStatus(log) == Some(row.status) && LastVersion(log) <= row.version
    && CountAuthorize(log) == (if row.total.Some? then 1 else 0)
    && forall i :: 0 <= i < |log| ==> MessageInv(row, log[i])
  }

  /** Every reference held during or after a cancellation has its compensating command. */
  ghost predicate Compensated(row: OrderRow, log: seq<Message>) {
    && (row.reservationId.Some? ==> Sent(log, ReleaseInventory(row.reservationId.value)))
    && (row.paymentId.Some? && row.total.Some? ==>
          Sent(log, RefundPayment(row.paymentId.value, row.total.value, row.currency)))
  }

  predicate Cancelling(s: Status) {
    s == CancelRequested || s == Cancelled
  }

  ghost predicate OrderInv(row: OrderRow, items: seq<Item>, log: seq<Message>) {
    RowInv(row) && ItemsInv(row, items) && LogInv(row, log) && (Cancelling(row.status) ==> Compensated(row, log))
  }

  // --------------------------------------------------- appending to the history

  lemma {:induction false} SentGrows(log: seq<Message>, more: seq<Message>, body: Body)
    requires Sent(log, body)
    ensures Sent(log + more, body)
  {
    var i :| 0 <= i < |log| && log[i].body == body;
    assert (log + more)[i].body == body;
  }

  lemma {:induction false} SentAppended(log: seq<Message>, more: seq<Message>, k: nat)
    requires k < |more|
    ensures Sent(log + more, more[k].body)
  {
    assert (log + more)[|log| + k] == more[k];
  }

  lemma {:induction false} CompensatedGrows(row: OrderRow, log: seq<Message>, more: seq<Message>)
    requires Compensated(row, log)
    ensures Compensated(row, log + more)
  {
    if row.reservationId.Some? {
      SentGrows(log, more, ReleaseInventory(row.reservationId.value));
    }
    if row.paymentId.Some? && row.total.Some? {
      SentGrows(log, more, RefundPayment(row.paymentId.value, row.total.value, row.currency));
    }
  }

  /** Two rows that agree on everything the log is judged by, apart from a rising version. */
  predicate SameForLog(row: OrderRow, next: OrderRow) {
    && next.id == row.id && next.currency == row.currency && next.total == row.total
    && next.status == row.status && row.version <= next.version
  }

  lemma {:induction false} RowAdvances(row: OrderRow, next: OrderRow, log: seq<Message>)
    requires LogInv(row, log) && SameForLog(row, next)
    ensures LogInv(next, log)
  {
    forall i | 0 <= i < |log| ensures MessageInv(next, log[i]) {
      assert MessageInv(row, log[i]);
    }
  }

  lemma {:induction false} AppendCommand(row: OrderRow, log: seq<Message>, m: Message)
    requires LogInv(row, log) && MessageInv(row, m)
    requires Announces(m.body).None? && !m.body.AuthorizePayment?
    ensures LogInv(row, log + [m])
  {
    assert (log + [m])[..|log|] == log;
  }

  lemma {:induction false} AppendEvent(row: OrderRow, next: OrderRow, log: seq<Message>, m: Message)
    requires LogInv(row, log) && MessageInv(next, m)
    requires Announces(m.body) == Some(next.status) && StoreEdge(row.status, next.status)
    requires row.version < m.version <= next.version
    requires next.id == row.id && next.currency == row.currency && next.total == row.total
    ensures LogInv(next, log + [m])
  {
    assert (log + [m])[..|log|] == log;
    forall i | 0 <= i < |log| ensures MessageInv(next, (log + [m])[i]) {
      assert MessageInv(row, log[i]);
    }
  }

  lemma {:induction false} AppendAuthorize(row: OrderRow, next: OrderRow, log: seq<Message>, m: Message)
    requires LogInv(row, log) && row.total.None? && next.total.Some? && MessageInv(next, m) && m.body.AuthorizePayment?
    requires next.id == row.id && next.currency == row.currency && next.status == row.status &&
             row.version <= next.version
    ensures LogInv(next, log + [m])
  {
    assert (log + [m])[..|log|] == log;
    forall i | 0 <= i < |log| ensures MessageInv(next, (log + [m])[i]) {
      assert MessageInv(row, log[i]);
    }
  }

  /** The order value a compensation was computed from, against the stored row. */
  predicate CompensatesFor(order: OrderRow, row: OrderRow) {
    order.id == row.id && order.currency == row.currency && (order.total.Some? ==> row.total == order.total)
  }

  lemma {:induction false} AppendCompensation(row: OrderRow, log: seq<Message>, order: OrderRow, sagaId: string,
                                              causationId: string, t: Trigger)
    requires LogInv(row, log) && CompensatesFor(order, row)
    ensures LogInv(row, log + Compensation(order, sagaId, causationId, t))
  {
    var sent := Compensation(order, sagaId, causationId, t);
    if sent == [] {
      assert log + sent == log;
    } else {
      AppendCommand(row, log, sent[0]);
      if |sent| == 2 {
        AppendCommand(row, log + [sent[0]], sent[1]);
        assert log + [sent[0]] + [sent[1]] == log + sent;
      } else {
        assert log + [sent[0]] == log + sent;
      }
    }
  }

  lemma {:induction false} CancellationCompensates(log: seq<Message>, order: OrderRow, sagaId: string,
                                                   causationId: string)
    requires RowInv(order)
    ensures Compensated(order, log + Compensation(order, sagaId, causationId, OnCancellation))
  {
    var sent := Compensation(order, sagaId, causationId, OnCancellation);
    if order.reservationId.Some? {
      SentAppended(log, sent, 0);
    }
    if order.paymentId.Some? {
      SentAppended(log, sent, |sent| - 1);
    }
  }
}
