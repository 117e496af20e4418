/** What the order invariant means: the event history, the money, the quote and
    the harmlessness of a fact that is applied twice. */
module SagaTheorems {
  import opened Basics
  import opened OrderAggregate
  import opened QuoteLines
  import opened Saga
  import opened SagaInvariant
  import opened SagaPreservation
  import opened SagaInterleaving

  // ----------------------------------------------------------- the event history

  lemma {:induction false} HistoryCounts(log: seq<Message>, s: Status)
    requires LegalLog(log)
    ensures CountEvents(log, s) <= 1
    ensures LastStatus(log).None? ==> CountEvents(log, s) == 0
    ensures LastStatus(log).Some? ==>
      var t := LastStatus(log).value;
      && (s == t ==> CountEvents(log, s) == 1)
      && (s == Pending ==> CountEvents(log, s) == 1)
      && (s != t && Rank(t) <= Rank(s) ==> CountEvents(log, s) == 0)
  {
    if log != [] {
      HistoryCounts(log[..|log| - 1], s);
    }
  }

  lemma {:induction false} EventVersionBounded(log: seq<Message>, i: nat)
    requires LegalLog(log) && i < |log| && Announces(log[i].body).Some?
    ensures log[i].version <= LastVersion(log)
  {
    var n := |log| - 1;
    if i < n {
      assert log[..n][i] == log[i];
      EventVersionBounded(log[..n], i);
    }
  }

  lemma {:induction false} EventVersionsRise(log: seq<Message>, i: nat, j: nat)
    requires LegalLog(log) && i < j < |log|
    requires Announces(log[i].body).Some? && Announces(log[j].body).Some?
    ensures log[i].version < log[j].version
  {
    var n := |log| - 1;
    assert log[..n][i] == log[i];
    if j < n {
      assert log[..n][j] == log[j];
      EventVersionsRise(log[..n], i, j);
    } else {
      EventVersionBounded(log[..n], i);
    }
  }

  /** The order's events fold to its stored status: created once, confirmed and
      cancellation-requested at most once, one terminal event exactly when the
      status is terminal, at strictly rising versions. */
  lemma {:induction false} EventsTellStatus(row: OrderRow, items: seq<Item>, log: seq<Message>)
    requires OrderInv(row, items, log)
    ensures LastStatus(log) == Some(row.status)
    ensures CountEvents(log, Pending) == 1 && CountEvents(log, Confirmed) <= 1 && CountEvents(log, CancelRequested) <= 1
    ensures CountEvents(log, Cancelled) + CountEvents(log, Completed) + CountEvents(log, Failed) ==
            if IsTerminal(row.status) then 1 else 0
    ensures forall i, j :: 0 <= i < j < |log| && Announces(log[i].body).Some? && Announces(log[j].body).Some? ==>
              log[i].version < log[j].version
  {
    HistoryCounts(log, Pending);
    HistoryCounts(log, Confirmed);
    HistoryCounts(log, CancelRequested);
    HistoryCounts(log, Cancelled);
    HistoryCounts(log, Completed);
    HistoryCounts(log, Failed);
    forall i, j | 0 <= i < j < |log| && Announces(log[i].body).Some? && Announces(log[j].body).Some?
      ensures log[i].version < log[j].version
    {
      EventVersionsRise(log, i, j);
    }
  }

  /** The two ways in which the store leaves the aggregate's transition table: a
      completion fact ends every open order, and a failure fact never fails an
      order whose cancellation was requested. */
  lemma {:induction false} StoreLeavesTransitionTable(row: OrderRow, items: seq<Item>, e: Envelope, quoteOk: bool,
                                                      now: int)
    requires RowInv(row) && (row.status == Pending || row.status == CancelRequested)
    ensures e.body.FulfillmentCompleted? && ValidShipmentId(e.body.shipmentId) ==>
      var o := Serial(row, items, e, quoteOk, now);
      o.Applied? && o.view.row.status == Completed && !AllowedTransition(row.status, Completed)
    ensures row.status == CancelRequested && Serial(row, items, e, quoteOk, now).Applied? && WellFormedItems(items) ==>
      Serial(row, items, e, quoteOk, now).view.row.status != Failed && AllowedTransition(CancelRequested, Failed)
  {
    if row.status == CancelRequested && Serial(row, items, e, quoteOk, now).Applied? && WellFormedItems(items) {
      AppliedAdvances(row, items, e, quoteOk, now);
    }
  }

  lemma {:induction false} CompletionStatus(v: View, order: OrderRow, sagaId: string, causationId: string, now: int)
    requires v.row.status == order.status
    ensures var o := MaybeComplete(v, order, sagaId, causationId, now);
            o.Applied? ==>
              o.view.row.status == order.status ||
              (order.status == CancelRequested && o.view.row.status == Cancelled)
  {}

  /** The status a failure fact leads to. */
  lemma {:induction false} FailureStatus(row: OrderRow, items: seq<Item>, e: Envelope, quoteOk: bool, now: int)
    requires RowInv(row) && IsFailureFact(e.body) && Serial(row, items, e, quoteOk, now).Applied?
    ensures var next := Serial(row, items, e, quoteOk, now).view.row.status;
            next == row.status || AllowedTransition(row.status, next)
  {
    if row.status == CancelRequested {
      var next := SettledRow(row, e.body, now);
      SettlementEffect(row, items, e, quoteOk, now);
      CompletionStatus(View(next, items, Compensation(next, e.sagaId, e.eventId, TriggerOf(e.body))), next, e.sagaId,
                       e.eventId, now);
    } else if !IsTerminal(row.status) {
      FailedEffect(row, items, e, FailureReason(e.body), now);
    }
  }

  lemma {:induction false} FlagStatus(row: OrderRow, items: seq<Item>, e: Envelope, quoteOk: bool, now: int)
    requires (e.body.InventoryReleased? || e.body.PaymentRefunded?) && Serial(row, items, e, quoteOk, now).Applied?
    ensures var next := Serial(row, items, e, quoteOk, now).view.row.status;
            next == row.status || (row.status == CancelRequested && next == Cancelled)
  {
    if e.body.InventoryReleased? {
      CompletionStatus(View(ReleasedRow(row, now), items, []), ReleasedRow(row, now), e.sagaId, e.eventId, now);
    } else {
      CompletionStatus(View(RefundedRow(row, now), items, []), RefundedRow(row, now), e.sagaId, e.eventId, now);
    }
  }

  lemma {:induction false} ReservationStatus(row: OrderRow, items: seq<Item>, e: Envelope, quoteOk: bool, now: int)
    requires RowInv(row) && WellFormedItems(items) && e.body.InventoryReserved? &&
             Serial(row, items, e, quoteOk, now).Applied?
    ensures Serial(row, items, e, quoteOk, now).view.row.status == row.status
  {
    if row.status == Pending {
      QuoteFactEffect(row, items, e, quoteOk, now);
    } else if row.status == CancelRequested {
      LateReservationEffect(row, items, e, quoteOk, now);
    }
  }

  /** Exactly when the store follows the aggregate's table: an applied fact that
      changes the status makes an allowed transition, unless it is a completion of
      an order that is not CONFIRMED. */
  lemma {:induction false} FollowsTableIff(row: OrderRow, items: seq<Item>, e: Envelope, quoteOk: bool, now: int)
    requires RowInv(row) && WellFormedItems(items) && Serial(row, items, e, quoteOk, now).Applied?
    requires Serial(row, items, e, quoteOk, now).view.row.status != row.status
    ensures AllowedTransition(row.status, Serial(row, items, e, quoteOk, now).view.row.status) <==>
            !(e.body.FulfillmentCompleted? && row.status != Confirmed)
  {
    match e.body
    case FulfillmentCompleted(_) => FulfilledEffect(row, items, e, now);
    case InventoryReserved(_, _, _, _, _) => ReservationStatus(row, items, e, quoteOk, now);
    case PaymentAuthorized(_, _, _) =>
    case InventoryReleased(_) => FlagStatus(row, items, e, quoteOk, now);
    case PaymentRefunded(_) => FlagStatus(row, items, e, quoteOk, now);
    case Unsupported(_) =>
    case _ => FailureStatus(row, items, e, quoteOk, now);
  }

  // ----------------------------------------------------------------------- money

  /** At most one authorisation is ever requested; it and every refund carry the total. */
  lemma {:induction false} MoneyConserved(row: OrderRow, items: seq<Item>, log: seq<Message>)
    requires OrderInv(row, items, log)
    ensures forall i, j :: 0 <= i < j < |log| ==> !(log[i].body.AuthorizePayment? && log[j].body.AuthorizePayment?)
    ensures forall i :: 0 <= i < |log| && (log[i].body.AuthorizePayment? || log[i].body.RefundPayment?) ==>
              row.total == Some(log[i].body.amount) && log[i].body.currency == row.currency
    ensures row.total.Some? ==> row.total.value as int == StoredSum(items)
  {
    forall i, j | 0 <= i < j < |log| && log[i].body.AuthorizePayment? ensures !log[j].body.AuthorizePayment? {
      AuthorizeOnce(log, i, j);
    }
    forall i | 0 <= i < |log| && (log[i].body.AuthorizePayment? || log[i].body.RefundPayment?)
      ensures row.total == Some(log[i].body.amount) && log[i].body.currency == row.currency
    {
      assert MessageInv(row, log[i]);
    }
  }

  lemma {:induction false} AuthorizeCounted(log: seq<Message>, i: nat)
    requires i < |log| && log[i].body.AuthorizePayment?
    ensures 1 <= CountAuthorize(log)
  {
    var n := |log| - 1;
    if i < n {
      assert log[..n][i] == log[i];
      AuthorizeCounted(log[..n], i);
    }
  }

  lemma {:induction false} AuthorizeOnce(log: seq<Message>, i: nat, j: nat)
    requires i < j < |log| && CountAuthorize(log) <= 1 && log[i].body.AuthorizePayment?
    ensures !log[j].body.AuthorizePayment?
  {
    var n := |log| - 1;
    assert log[..n][i] == log[i];
    AuthorizeCounted(log[..n], i);
    if j < n {
      AuthorizeOnce(log[..n], i, j);
    }
  }

  lemma {:induction false} FailureKeepsPayment(row: OrderRow, items: seq<Item>, e: Envelope, quoteOk: bool, now: int)
    requires RowInv(row) && IsFailureFact(e.body) && Serial(row, items, e, quoteOk, now).Applied?
    ensures Serial(row, items, e, quoteOk, now).view.row.paymentId == row.paymentId
  {
    if row.status == CancelRequested {
      var next := SettledRow(row, e.body, now);
      PaymentKept(View(next, items, [] + Compensation(next, e.sagaId, e.eventId, TriggerOf(e.body))), next, e.sagaId,
                  e.eventId, now);
    } else if !IsTerminal(row.status) {
      FailedEffect(row, items, e, FailureReason(e.body), now);
    }
  }

  lemma {:induction false} ReservationKeepsPayment(row: OrderRow, items: seq<Item>, e: Envelope, quoteOk: bool,
                                                   now: int)
    requires RowInv(row) && WellFormedItems(items) && e.body.InventoryReserved? &&
             Serial(row, items, e, quoteOk, now).Applied?
    ensures Serial(row, items, e, quoteOk, now).view.row.paymentId == row.paymentId
  {
    if row.status == Pending {
      QuoteTotal(row, items, e.body, quoteOk, now);
      QuoteFactEffect(row, items, e, quoteOk, now);
    } else if row.status == CancelRequested {
      LateReservationEffect(row, items, e, quoteOk, now);
    }
  }

  /** A payment reference is only ever taken from an authorisation of the exact total. */
  lemma {:induction false} AcceptedAuthorisationCarriesTotal(row: OrderRow, items: seq<Item>, e: Envelope,
                                                             quoteOk: bool, now: int)
    requires RowInv(row) && WellFormedItems(items) && Serial(row, items, e, quoteOk, now).Applied?
    ensures var held := Serial(row, items, e, quoteOk, now).view.row.paymentId;
            held == row.paymentId ||
            (e.body.PaymentAuthorized? && held == Some(e.body.paymentId)
             && row.total.Some? && e.body.amount == row.total && e.body.currency == row.currency)
  {
    match e.body
    case InventoryReserved(_, _, _, _, _) => ReservationKeepsPayment(row, items, e, quoteOk, now);
    case PaymentAuthorized(_, _, _) =>
    case InventoryReleased(_) =>
      PaymentKept(View(ReleasedRow(row, now), items, []), ReleasedRow(row, now), e.sagaId, e.eventId, now);
    case PaymentRefunded(_) =>
      PaymentKept(View(RefundedRow(row, now), items, []), RefundedRow(row, now), e.sagaId, e.eventId, now);
    case FulfillmentCompleted(_) =>
    case Unsupported(_) =>
    case _ => FailureKeepsPayment(row, items, e, quoteOk, now);
  }

  lemma {:induction false} PaymentKept(v: View, order: OrderRow, sagaId: string, causationId: string, now: int)
    ensures var o := MaybeComplete(v, order, sagaId, causationId, now);
            o.Applied? ==> o.view.row.paymentId == v.row.paymentId
  {}

  // ----------------------------------------------------------------------- quote

  function StoredFacts(items: seq<Item>): seq<Priced>
    requires forall i :: 0 <= i < |items| ==> items[i].unitPrice.Some? && items[i].lineTotal.Some?
  {
    seq(|items|, i requires 0 <= i < |items| =>
      Priced(items[i].productId, items[i].quantity as int, items[i].unitPrice.value as int,
        items[i].lineTotal.value as int))
  }

  /** The first accepted reservation: the stored items are a permutation of the
      quoted lines, with their prices and totals, and the stored total is the
      sum of the quoted line totals. */
  lemma {:induction false} AcceptedReservation(row: OrderRow, items: seq<Item>, log: seq<Message>, e: Envelope,
                                               quoteOk: bool, now: int)
    requires OrderInv(row, items, log) && row.status == Pending && e.body.InventoryReserved?
    requires Serial(row, items, e, quoteOk, now).Applied?
    ensures row.total.None? && e.body.lines.Some?
    ensures var v := Serial(row, items, e, quoteOk, now).view;
            && v.row.reservationId == Some(e.body.reservationId)
            && (forall i :: 0 <= i < |v.items| ==> v.items[i].unitPrice.Some? && v.items[i].lineTotal.Some?)
            && multiset(StoredFacts(v.items)) == multiset(LineFacts(e.body.lines.value))
            && v.row.total.Some? && v.row.total.value as int == SumOfTotals(LineFacts(e.body.lines.value))
  {
    var lines := e.body.lines.value;
    var prices := PricesIn(lines);
    QuoteTotal(row, items, e.body, quoteOk, now);
    QuoteFactEffect(row, items, e, quoteOk, now);
    WellFormedPositive(items);
    AcceptedLinesPermuteItems(lines, items);
    AcceptedTotalIsQuotedSum(lines, items);
    var stored := PricedItems(items, prices, e.body.quoteId, e.body.quoteVersion.value);
    StoredFactsOfPriced(items, prices, e.body.quoteId, e.body.quoteVersion.value);
  }

  lemma {:induction false} CompletionKeepsTotal(v: View, order: OrderRow, sagaId: string, causationId: string, now: int)
    requires v.row.total == order.total
    ensures var o := MaybeComplete(v, order, sagaId, causationId, now); o.Applied? ==> o.view.row.total == v.row.total
  {}

  lemma {:induction false} FlagKeepsTotal(row: OrderRow, items: seq<Item>, e: Envelope, quoteOk: bool, now: int)
    requires (e.body.InventoryReleased? || e.body.PaymentRefunded?) && Serial(row, items, e, quoteOk, now).Applied?
    ensures Serial(row, items, e, quoteOk, now).view.row.total == row.total
  {
    if e.body.InventoryReleased? {
      CompletionKeepsTotal(View(ReleasedRow(row, now), items, []), ReleasedRow(row, now), e.sagaId, e.eventId, now);
    } else {
      CompletionKeepsTotal(View(RefundedRow(row, now), items, []), RefundedRow(row, now), e.sagaId, e.eventId, now);
    }
  }

  lemma {:induction false} FailureKeepsTotal(row: OrderRow, items: seq<Item>, e: Envelope, quoteOk: bool, now: int)
    requires RowInv(row) && IsFailureFact(e.body) && Serial(row, items, e, quoteOk, now).Applied?
    ensures Serial(row, items, e, quoteOk, now).view.row.total == row.total
  {
    if row.status == CancelRequested {
      var next := SettledRow(row, e.body, now);
      SettlementEffect(row, items, e, quoteOk, now);
      CompletionKeepsTotal(View(next, items, Compensation(next, e.sagaId, e.eventId, TriggerOf(e.body))), next,
                           e.sagaId, e.eventId, now);
    } else if !IsTerminal(row.status) {
      FailedEffect(row, items, e, FailureReason(e.body), now);
    }
  }

  /** Only the first reservation of a pending order writes the total. */
  lemma {:induction false} TotalOnlyFromReservation(row: OrderRow, items: seq<Item>, e: Envelope, quoteOk: bool,
                                                    now: int)
    requires RowInv(row) && Serial(row, items, e, quoteOk, now).Applied?
    requires Serial(row, items, e, quoteOk, now).view.row.total != row.total
    ensures e.body.InventoryReserved? && row.status == Pending && quoteOk
  {
    if e.body.InventoryReleased? || e.body.PaymentRefunded? {
      FlagKeepsTotal(row, items, e, quoteOk, now);
    } else if IsFailureFact(e.body) {
      FailureKeepsTotal(row, items, e, quoteOk, now);
    } else if e.body.InventoryReserved? && row.status == CancelRequested {
      LateReservationEffect(row, items, e, quoteOk, now);
    }
  }

  lemma {:induction false} StoredFactsOfPriced(items: seq<Item>, prices: map<string, int64>, quoteId: string,
                                               quoteVersion: int64)
    requires PositiveQuantities(items) && PricesUsable(items, prices) &&
             TotalOf(items, prices) <= MAX_TOTAL_MINOR as int
    ensures var stored := PricedItems(items, prices, quoteId, quoteVersion);
            && (forall i :: 0 <= i < |stored| ==> stored[i].unitPrice.Some? && stored[i].lineTotal.Some?)
            && StoredFacts(stored) == ItemFacts(items, prices)
  {
    forall i | 0 <= i < |items|
      ensures Wrap64(LineTotalOf(items[i], prices)) as int == LineTotalOf(items[i], prices)
    {
      StoredLineTotal(items, prices, i);
    }
  }

  // --------------------------------------------------------- a fact applied twice

  /** Everything a reader of the order sees except its version and time of update. */
  predicate SameOrder(a: View, b: View) {
    a.items == b.items && b.row == a.row.(version := b.row.version, updatedAt := b.row.updatedAt)
  }

  ghost predicate Harmless(v: View, log: seq<Message>, o: Outcome) {
    o.Applied? ==> SameOrder(v, o.view) && Repeats(log, o.view.out)
  }

  lemma {:induction false} LateTwice(row: OrderRow, items: seq<Item>, log: seq<Message>, next: OrderRow,
                                     sagaId: string, causationId: string)
    requires OrderInv(row, items, log) && row.status == CancelRequested
    requires next == row.(version := next.version, updatedAt := next.updatedAt)
    ensures Repeats(log, Compensation(next, sagaId, causationId, OnCancellation))
  {
    CompensationRepeats(row, log, next, sagaId, causationId, OnCancellation);
  }

  lemma {:induction false} TwiceLateReservation(row: OrderRow, items: seq<Item>, log: seq<Message>, e: Envelope,
                                                q1: bool, n1: int, q2: bool, n2: int)
    requires OrderInv(row, items, log) && e.body.InventoryReserved? && row.status == CancelRequested
    requires Serial(row, items, e, q1, n1).Applied?
    ensures var v := Serial(row, items, e, q1, n1).view; Harmless(v, log + v.out, Serial(v.row, v.items, e, q2, n2))
  {
    var v := Serial(row, items, e, q1, n1).view;
    FactKeeps(row, items, log, e, q1, n1);
    LateReservationEffect(row, items, e, q1, n1);
    LateReservationEffect(v.row, items, e, q2, n2);
    LateTwice(v.row, items, log + v.out, LateRow(v.row, Some(e.body.reservationId), None, n2), e.sagaId, e.eventId);
  }

  /** A priced order is not priced again. */
  lemma {:induction false} QuotedOnlyOnce(row: OrderRow, items: seq<Item>, e: Envelope, quoteOk: bool, now: int)
    requires WellFormedItems(items) && e.body.InventoryReserved? && row.status == Pending && row.total.Some?
    ensures Serial(row, items, e, quoteOk, now).Rejected?
  {
    if QuoteUsable(OrderValue(row, items), e.body, quoteOk, now) {
      QuoteTotal(row, items, e.body, quoteOk, now);
    }
  }

  lemma {:induction false} TwiceReserved(row: OrderRow, items: seq<Item>, log: seq<Message>, e: Envelope, q1: bool,
                                         n1: int, q2: bool, n2: int)
    requires OrderInv(row, items, log) && e.body.InventoryReserved? && Serial(row, items, e, q1, n1).Applied?
    ensures var v := Serial(row, items, e, q1, n1).view; Harmless(v, log + v.out, Serial(v.row, v.items, e, q2, n2))
  {
    if row.status == CancelRequested {
      TwiceLateReservation(row, items, log, e, q1, n1, q2, n2);
    } else if row.status == Pending {
      QuoteTotal(row, items, e.body, q1, n1);
      QuoteFactEffect(row, items, e, q1, n1);
      FactKeeps(row, items, log, e, q1, n1);
      var v := Serial(row, items, e, q1, n1).view;
      QuotedOnlyOnce(v.row, v.items, e, q2, n2);
    }
  }

  lemma {:induction false} TwiceAuthorized(row: OrderRow, items: seq<Item>, log: seq<Message>, e: Envelope, q1: bool,
                                           n1: int, q2: bool, n2: int)
    requires OrderInv(row, items, log) && e.body.PaymentAuthorized? && Serial(row, items, e, q1, n1).Applied?
    ensures var v := Serial(row, items, e, q1, n1).view; Harmless(v, log + v.out, Serial(v.row, v.items, e, q2, n2))
  {
    var v := Serial(row, items, e, q1, n1).view;
    FactKeeps(row, items, log, e, q1, n1);
    if row.status == CancelRequested {
      LatePaymentEffect(row, items, e, q1, n1);
      LatePaymentEffect(v.row, items, e, q2, n2);
      LateTwice(v.row, items, log + v.out, LateRow(v.row, None, Some(e.body.paymentId), n2), e.sagaId, e.eventId);
    } else if row.status == Pending {
      ConfirmEffect(row, items, e, q1, n1);
    }
  }

  /** After a completion attempt there is nothing left to complete. */
  lemma {:induction false} CompletionSettles(v: View, row: OrderRow, sagaId: string, causationId: string, now: int)
    requires v.row == row && MaybeComplete(v, row, sagaId, causationId, now).Applied?
    ensures var w := MaybeComplete(v, row, sagaId, causationId, now).view;
            && w.items == v.items
            && (w.row.status == CancelRequested ==> !CompensationComplete(w.row))
            && (w.row.status == row.status || (w.row.status == Cancelled && row.status == CancelRequested))
            && w.row.inventoryReleased == row.inventoryReleased && w.row.paymentRefunded == row.paymentRefunded
            && w.row.reservationId == row.reservationId && w.row.paymentId == row.paymentId
  {}

  lemma {:induction false} TwiceReleased(row: OrderRow, items: seq<Item>, log: seq<Message>, e: Envelope, q1: bool,
                                         n1: int, q2: bool, n2: int)
    requires e.body.InventoryReleased? && Serial(row, items, e, q1, n1).Applied?
    ensures var v := Serial(row, items, e, q1, n1).view; Harmless(v, log + v.out, Serial(v.row, v.items, e, q2, n2))
  {
    var next := ReleasedRow(row, n1);
    if MaybeComplete(View(next, items, []), next, e.sagaId, e.eventId, n1).Applied? {
      CompletionSettles(View(next, items, []), next, e.sagaId, e.eventId, n1);
    }
  }

  lemma {:induction false} TwiceRefunded(row: OrderRow, items: seq<Item>, log: seq<Message>, e: Envelope, q1: bool,
                                         n1: int, q2: bool, n2: int)
    requires e.body.PaymentRefunded? && Serial(row, items, e, q1, n1).Applied?
    ensures var v := Serial(row, items, e, q1, n1).view; Harmless(v, log + v.out, Serial(v.row, v.items, e, q2, n2))
  {
    var next := RefundedRow(row, n1);
    if MaybeComplete(View(next, items, []), next, e.sagaId, e.eventId, n1).Applied? {
      CompletionSettles(View(next, items, []), next, e.sagaId, e.eventId, n1);
    }
  }

  /** A failure fact that finds its flag already set during cancellation. */
  lemma {:induction false} SettledFailureRepeats(row: OrderRow, items: seq<Item>, log: seq<Message>, e: Envelope,
                                                 quoteOk: bool, now: int)
    requires OrderInv(row, items, log) && IsFailureFact(e.body) && row.status == CancelRequested
    requires SettledRow(row, e.body, now) == row && !CompensationComplete(row)
    ensures Harmless(View(row, items, []), log, Serial(row, items, e, quoteOk, now))
  {
    var again := Compensation(row, e.sagaId, e.eventId, TriggerOf(e.body));
    assert [] + again == again;
    CompensationRepeats(row, log, row, e.sagaId, e.eventId, TriggerOf(e.body));
  }

  /** A failure fact during cancellation settles its flag, sends the commands and tries to complete. */
  lemma {:induction false} SettlementEffect(row: OrderRow, items: seq<Item>, e: Envelope, quoteOk: bool, now: int)
    requires IsFailureFact(e.body) && row.status == CancelRequested
    ensures var next := SettledRow(row, e.body, now);
            Serial(row, items, e, quoteOk, now) ==
            MaybeComplete(View(next, items, Compensation(next, e.sagaId, e.eventId, TriggerOf(e.body))), next, e.sagaId,
              e.eventId, now)
  {
    var commands := Compensation(SettledRow(row, e.body, now), e.sagaId, e.eventId, TriggerOf(e.body));
    assert [] + commands == commands;
  }

  lemma {:induction false} TwiceCancelFailure(row: OrderRow, items: seq<Item>, log: seq<Message>, e: Envelope,
                                              q1: bool, n1: int, q2: bool, n2: int)
    requires OrderInv(row, items, log) && IsFailureFact(e.body) && row.status == CancelRequested
    requires Serial(row, items, e, q1, n1).Applied?
    ensures var v := Serial(row, items, e, q1, n1).view; Harmless(v, log + v.out, Serial(v.row, v.items, e, q2, n2))
  {
    var v := Serial(row, items, e, q1, n1).view;
    FactKeeps(row, items, log, e, q1, n1);
    var next := SettledRow(row, e.body, n1);
    SettlementEffect(row, items, e, q1, n1);
    CompletionSettles(View(next, items, Compensation(next, e.sagaId, e.eventId, TriggerOf(e.body))), next, e.sagaId,
                      e.eventId, n1);
    if v.row.status == CancelRequested {
      SettledFailureRepeats(v.row, v.items, log + v.out, e, q2, n2);
    }
  }

  lemma {:induction false} TwiceEnding(row: OrderRow, items: seq<Item>, log: seq<Message>, e: Envelope, q1: bool,
                                       n1: int, q2: bool, n2: int)
    requires RowInv(row) && Serial(row, items, e, q1, n1).Applied?
    requires e.body.FulfillmentCompleted? || (IsFailureFact(e.body) && row.status != CancelRequested)
    ensures var v := Serial(row, items, e, q1, n1).view; Harmless(v, log + v.out, Serial(v.row, v.items, e, q2, n2))
  {
    if IsFailureFact(e.body) && !IsTerminal(row.status) {
      FailedEffect(row, items, e, FailureReason(e.body), n1);
    }
  }

  /** Applying the same fact twice in a row leaves the order as after one
      application, and any extra command repeats one already sent. */
  lemma {:induction false} TwiceIsOnce(row: OrderRow, items: seq<Item>, log: seq<Message>, e: Envelope, q1: bool,
                                       n1: int, q2: bool, n2: int)
    requires OrderInv(row, items, log) && Serial(row, items, e, q1, n1).Applied?
    ensures var v := Serial(row, items, e, q1, n1).view; Harmless(v, log + v.out, Serial(v.row, v.items, e, q2, n2))
  {
    if e.body.InventoryReserved? {
      TwiceReserved(row, items, log, e, q1, n1, q2, n2);
    } else if e.body.PaymentAuthorized? {
      TwiceAuthorized(row, items, log, e, q1, n1, q2, n2);
    } else if e.body.InventoryReleased? {
      TwiceReleased(row, items, log, e, q1, n1, q2, n2);
    } else if e.body.PaymentRefunded? {
      TwiceRefunded(row, items, log, e, q1, n1, q2, n2);
    } else if IsFailureFact(e.body) && row.status == CancelRequested {
      TwiceCancelFailure(row, items, log, e, q1, n1, q2, n2);
    } else if !e.body.Unsupported? {
      TwiceEnding(row, items, log, e, q1, n1, q2, n2);
    }
  }
}
