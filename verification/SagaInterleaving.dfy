/** Handlers that read an order, let other transactions commit, and then write
    under the version guard. */
module SagaInterleaving {
  import opened Basics
  import opened OrderAggregate
  import opened Saga
  import opened SagaInvariant
  import opened SagaPreservation

  /** How the stored row of an order may develop. */
  ghost predicate Advances(row: OrderRow, next: OrderRow) {
    && next.id == row.id && next.customerId == row.customerId
    && next.currency == row.currency && next.createdAt == row.createdAt
    && row.version <= next.version
    && (row.version == next.version ==> next == row)
    && (row.total.Some? ==> next.total == row.total)
    && (row.inventoryReleased ==> next.inventoryReleased) && (row.paymentRefunded ==> next.paymentRefunded)
    && (next.status == row.status || (row.version < next.version && StoreEdge(row.status, next.status)))
  }

  lemma {:induction false} AppliedAdvancesReserved(row: OrderRow, items: seq<Item>, e: Envelope, quoteOk: bool,
                                                   now: int)
    requires RowInv(row) && WellFormedItems(items) && e.body.InventoryReserved?
    requires Serial(row, items, e, quoteOk, now).Applied?
    ensures var v := Serial(row, items, e, quoteOk, now).view;
            Advances(row, v.row) && (row.version == v.row.version ==> v == View(row, items, []))
  {
    if row.status == Pending {
      QuoteTotal(row, items, e.body, quoteOk, now);
      QuoteFactEffect(row, items, e, quoteOk, now);
    } else if row.status == CancelRequested {
      LateReservationEffect(row, items, e, quoteOk, now);
    }
  }

  lemma {:induction false} AppliedAdvancesAuthorized(row: OrderRow, items: seq<Item>, e: Envelope, quoteOk: bool,
                                                     now: int)
    requires RowInv(row) && e.body.PaymentAuthorized?
    requires Serial(row, items, e, quoteOk, now).Applied?
    ensures var v := Serial(row, items, e, quoteOk, now).view;
            Advances(row, v.row) && (row.version == v.row.version ==> v == View(row, items, []))
  {
    if row.status == Pending {
      ConfirmEffect(row, items, e, quoteOk, now);
    } else if row.status == CancelRequested {
      LatePaymentEffect(row, items, e, quoteOk, now);
    }
  }

  lemma {:induction false} CompletionAdvances(v: View, row: OrderRow, sagaId: string, causationId: string, now: int)
    requires v.row == row
    requires MaybeComplete(v, row, sagaId, causationId, now).Applied?
    ensures var w := MaybeComplete(v, row, sagaId, causationId, now).view;
            w.items == v.items && (w == v || (Advances(row, w.row) && w.row.version == row.version + 1))
  {}

  lemma {:induction false} AppliedAdvancesFlags(row: OrderRow, items: seq<Item>, e: Envelope, quoteOk: bool, now: int)
    requires RowInv(row) && (e.body.InventoryReleased? || e.body.PaymentRefunded?)
    requires Serial(row, items, e, quoteOk, now).Applied?
    ensures var v := Serial(row, items, e, quoteOk, now).view;
            Advances(row, v.row) && (row.version == v.row.version ==> v == View(row, items, []))
  {
    var next := if e.body.InventoryReleased? then ReleasedRow(row, now) else RefundedRow(row, now);
    var marked := View(next, items, []);
    if MaybeComplete(marked, next, e.sagaId, e.eventId, now).Applied? {
      CompletionAdvances(marked, next, e.sagaId, e.eventId, now);
    }
  }

  lemma {:induction false} AppliedAdvancesSettlement(row: OrderRow, items: seq<Item>, e: Envelope, now: int)
    requires IsFailureFact(e.body) && row.status == CancelRequested
    requires ApplyFailure(View(row, items, []), row, e, now).Applied?
    ensures var v := ApplyFailure(View(row, items, []), row, e, now).view;
            Advances(row, v.row) && (row.version == v.row.version ==> v.row == row && v.items == items)
  {
    var next := SettledRow(row, e.body, now);
    var marked := View(next, items, [] + Compensation(next, e.sagaId, e.eventId, TriggerOf(e.body)));
    CompletionAdvances(marked, next, e.sagaId, e.eventId, now);
  }

  lemma {:induction false} AppliedAdvancesFailure(row: OrderRow, items: seq<Item>, e: Envelope, quoteOk: bool, now: int)
    requires RowInv(row) && IsFailureFact(e.body)
    requires Serial(row, items, e, quoteOk, now).Applied?
    ensures var v := Serial(row, items, e, quoteOk, now).view;
            Advances(row, v.row) && (row.version == v.row.version ==> v.row == row && v.items == items)
  {
    if row.status == CancelRequested {
      AppliedAdvancesSettlement(row, items, e, now);
    } else if !IsTerminal(row.status) {
      FailedEffect(row, items, e, FailureReason(e.body), now);
    }
  }

  /** An applied fact moves the row forward, and changes nothing of the order
      unless it raises the version. */
  lemma {:induction false} AppliedAdvances(row: OrderRow, items: seq<Item>, e: Envelope, quoteOk: bool, now: int)
    requires RowInv(row) && WellFormedItems(items)
    requires Serial(row, items, e, quoteOk, now).Applied?
    ensures var v := Serial(row, items, e, quoteOk, now).view;
            Advances(row, v.row) && (row.version == v.row.version ==> v.row == row && v.items == items)
  {
    match e.body
    case InventoryReserved(_, _, _, _, _) => AppliedAdvancesReserved(row, items, e, quoteOk, now);
    case PaymentAuthorized(_, _, _) => AppliedAdvancesAuthorized(row, items, e, quoteOk, now);
    case InventoryReleased(_) => AppliedAdvancesFlags(row, items, e, quoteOk, now);
    case PaymentRefunded(_) => AppliedAdvancesFlags(row, items, e, quoteOk, now);
    case FulfillmentCompleted(_) =>
    case Unsupported(_) =>
    case _ => AppliedAdvancesFailure(row, items, e, quoteOk, now);
  }

  // ------------------------------------------------------------ earlier snapshots

  /** What is known of a row read earlier, against the row and log stored now. */
  ghost predicate Snapshot(snap: OrderRow, row: OrderRow, log: seq<Message>) {
    && RowInv(snap)
    && AdvancedFrom(snap, row)
    && (snap.status == CancelRequested ==> Compensated(snap, log))
  }

  /** The part of `Advances` that composes over several transactions. */
  ghost predicate AdvancedFrom(snap: OrderRow, row: OrderRow) {
    && row.id == snap.id && row.customerId == snap.customerId
    && row.currency == snap.currency && row.createdAt == snap.createdAt
    && snap.version <= row.version
    && (snap.version == row.version ==> row == snap)
    && (snap.total.Some? ==> row.total == snap.total)
    && (snap.inventoryReleased ==> row.inventoryReleased) && (snap.paymentRefunded ==> row.paymentRefunded)
    && (snap.status != Pending ==> row.status != Pending)
    && (IsTerminal(snap.status) ==> row.status == snap.status)
    && (snap.status == CancelRequested ==>
          row.status == CancelRequested || row.status == Cancelled || row.status == Completed)
  }

  lemma {:induction false} SnapshotSurvives(snap: OrderRow, row: OrderRow, next: OrderRow, log: seq<Message>,
                                            more: seq<Message>)
    requires Snapshot(snap, row, log) && Advances(row, next)
    ensures Snapshot(snap, next, log + more)
  {
    if snap.status == CancelRequested {
      CompensatedGrows(snap, log, more);
    }
  }

  /** The only thing a stale handler can commit: nothing, or the compensation
      commands of the cancellation it saw. */
  ghost predicate StaleOutput(snap: OrderRow, e: Envelope, out: seq<Message>) {
    out == [] ||
    (snap.status == CancelRequested && IsFailureFact(e.body) &&
     out == Compensation(snap, e.sagaId, e.eventId, TriggerOf(e.body)))
  }

  lemma {:induction false} StaleCompletes(v: View, order: OrderRow, sagaId: string, causationId: string, now: int)
    requires v.row.version != order.version
    ensures var o := MaybeComplete(v, order, sagaId, causationId, now); o.Rejected? || o == Applied(v)
  {}

  lemma {:induction false} StaleFailure(v: View, snap: OrderRow, e: Envelope, now: int)
    requires v.row.version != snap.version && IsFailureFact(e.body) && v.out == []
    ensures var o := ApplyFailure(v, snap, e, now);
            o.Applied? ==> o.view.row == v.row && o.view.items == v.items && StaleOutput(snap, e, o.view.out)
  {
    if snap.status == CancelRequested {
      var o := MarkSettled(v, snap, e.body, now);
      if o.Applied? {
        assert o == Applied(v) && SettledRow(snap, e.body, now) == snap;
        var repeated := Compensation(snap, e.sagaId, e.eventId, TriggerOf(e.body));
        assert v.out + repeated == repeated;
        StaleCompletes(Send(v, repeated), snap, e.sagaId, e.eventId, now);
      }
    }
  }

  lemma {:induction false} StaleHandle(v: View, order: OrderValue, e: Envelope, quoteOk: bool, now: int)
    requires v.row.version != order.row.version && v.out == []
    ensures var o := Handle(v, order, e, quoteOk, now);
            o.Applied? ==> o.view.row == v.row && o.view.items == v.items && StaleOutput(order.row, e, o.view.out)
  {
    match e.body
    case InventoryReleased(_) => StaleCompletes(v, order.row, e.sagaId, e.eventId, now);
    case PaymentRefunded(_) => StaleCompletes(v, order.row, e.sagaId, e.eventId, now);
    case InventoryReserved(_, _, _, _, _) =>
    case PaymentAuthorized(_, _, _) =>
    case FulfillmentCompleted(_) =>
    case Unsupported(_) =>
    case _ => StaleFailure(v, order.row, e, now);
  }

  lemma {:induction false} StaleFailureAtRead(v: View, snap: OrderRow, itemsAtRead: seq<Item>, e: Envelope, now: int)
    requires v.row.version != snap.version && v.out == [] && IsFailureFact(e.body) &&
             ApplyFailure(v, snap, e, now).Applied?
    ensures ApplyFailure(View(snap, itemsAtRead, []), snap, e, now) ==
            Applied(View(snap, itemsAtRead, ApplyFailure(v, snap, e, now).view.out))
  {
    StaleFailure(v, snap, e, now);
    var c := Compensation(snap, e.sagaId, e.eventId, TriggerOf(e.body));
    assert [] + c == c && v.out + c == c;
  }

  /** What a stale handler commits is what it would have done alone at the moment
      it read the row. */
  lemma {:induction false} StaleActsAtRead(v: View, snap: OrderValue, itemsAtRead: seq<Item>, e: Envelope,
                                           quoteOk: bool, now: int)
    requires v.row.version != snap.row.version && v.out == [] && Handle(v, snap, e, quoteOk, now).Applied?
    ensures Serial(snap.row, itemsAtRead, e, quoteOk, now) ==
            Applied(View(snap.row, itemsAtRead, Handle(v, snap, e, quoteOk, now).view.out))
  {
    if IsFailureFact(e.body) {
      StaleFailureAtRead(v, snap.row, itemsAtRead, e, now);
    } else {
      StaleHandle(v, snap, e, quoteOk, now);
    }
  }

  /** Every message repeats the operation id and the data of one already in the log. */
  ghost predicate Repeats(log: seq<Message>, out: seq<Message>) {
    forall k :: 0 <= k < |out| ==>
      exists i :: 0 <= i < |log| && log[i].operation == out[k].operation && log[i].body == out[k].body
  }

  lemma {:induction false} CompensationRepeats(row: OrderRow, log: seq<Message>, snap: OrderRow, sagaId: string,
                                               causationId: string, t: Trigger)
    requires LogInv(row, log) && snap.id == row.id && Compensated(snap, log)
    ensures Repeats(log, Compensation(snap, sagaId, causationId, t))
  {
    var out := Compensation(snap, sagaId, causationId, t);
    forall k | 0 <= k < |out|
      ensures exists i :: 0 <= i < |log| && log[i].operation == out[k].operation && log[i].body == out[k].body
    {
      assert Sent(log, out[k].body);
      var i :| 0 <= i < |log| && log[i].body == out[k].body;
      assert MessageInv(row, log[i]);
    }
  }

  // --------------------------------------------------- stale commits at their commit

  /** Both rows hold the settled reference, and no cancellation waits to be completed. */
  predicate StillSettled(row: OrderRow, held: Option<string>, reference: string) {
    held == Some(reference) && !(row.status == CancelRequested && CompensationComplete(row))
  }

  /** The failure fact has nothing to send, from the row it read or from the stored one. */
  predicate NothingToUndo(snap: OrderRow, row: OrderRow, e: Envelope)
    requires IsFailureFact(e.body)
  {
    var t := TriggerOf(e.body);
    || IsTerminal(snap.status)
    || (&& Compensation(snap, e.sagaId, e.eventId, t) == []
        && (row.status == CancelRequested ==>
              Compensation(row, e.sagaId, e.eventId, t) == [] && !CompensationComplete(row)))
  }

  /** When a fact that commits from a stale read would have done the same from the row
      that is stored at its commit. */
  predicate SameAtCommit(snap: OrderRow, row: OrderRow, e: Envelope) {
    match e.body
    case InventoryReserved(_, _, _, _, _) => row.status != CancelRequested
    case PaymentAuthorized(_, _, _) => row.status != CancelRequested
    case InventoryReleased(reservationId) => StillSettled(row, row.reservationId, reservationId)
    case PaymentRefunded(paymentId) => StillSettled(row, row.paymentId, paymentId)
    case FulfillmentCompleted(_) => true
    case Unsupported(_) => true
    case _ => NothingToUndo(snap, row, e)
  }

  /** A fact whose row was read before the last change of the order, and that commits. */
  ghost predicate StaleApplied(row: OrderRow, items: seq<Item>, snap: OrderValue, e: Envelope, quoteOk: bool, now: int)
  {
    && RowInv(row) && RowInv(snap.row) && AdvancedFrom(snap.row, row) && snap.row.version != row.version
    && Handle(View(row, items, []), snap, e, quoteOk, now).Applied?
  }

  lemma {:induction false} StaleReservedIff(row: OrderRow, items: seq<Item>, snap: OrderValue, e: Envelope,
                                            quoteOk: bool, now: int)
    requires StaleApplied(row, items, snap, e, quoteOk, now) && e.body.InventoryReserved?
    ensures Serial(row, items, e, quoteOk, now) == Handle(View(row, items, []), snap, e, quoteOk, now) <==>
            row.status != CancelRequested
  {
    assert IsTerminal(snap.row.status) || snap.row.status == Confirmed;
    if row.status == CancelRequested && ValidReservationId(e.body.reservationId) &&
       e.operation == Operation(row.id, ReserveStep) {
      LateReservationEffect(row, items, e, quoteOk, now);
    }
  }

  lemma {:induction false} StaleAuthorizedIff(row: OrderRow, items: seq<Item>, snap: OrderValue, e: Envelope,
                                              quoteOk: bool, now: int)
    requires StaleApplied(row, items, snap, e, quoteOk, now) && e.body.PaymentAuthorized?
    ensures Serial(row, items, e, quoteOk, now) == Handle(View(row, items, []), snap, e, quoteOk, now) <==>
            row.status != CancelRequested
  {
    assert IsTerminal(snap.row.status) || snap.row.status == Confirmed;
  }

  lemma {:induction false} StaleFlagIff(row: OrderRow, items: seq<Item>, snap: OrderValue, e: Envelope,
                                        quoteOk: bool, now: int)
    requires StaleApplied(row, items, snap, e, quoteOk, now)
    requires e.body.InventoryReleased? || e.body.PaymentRefunded?
    ensures Serial(row, items, e, quoteOk, now) == Handle(View(row, items, []), snap, e, quoteOk, now) <==>
            SameAtCommit(snap.row, row, e)
  {
    StaleHandle(View(row, items, []), snap, e, quoteOk, now);
  }

  lemma {:induction false} StaleFailureSends(v: View, snap: OrderRow, e: Envelope, now: int)
    requires v.row.version != snap.version && v.out == [] && IsFailureFact(e.body)
    requires ApplyFailure(v, snap, e, now).Applied? && !IsTerminal(snap.status)
    ensures snap.status == CancelRequested && SettledRow(snap, e.body, now) == snap
    ensures ApplyFailure(v, snap, e, now).view ==
            View(v.row, v.items, Compensation(snap, e.sagaId, e.eventId, TriggerOf(e.body)))
  {
    var c := Compensation(snap, e.sagaId, e.eventId, TriggerOf(e.body));
    assert v.out + c == c;
  }

  /** A failure fact that finds its flag set during a cancellation. */
  lemma {:induction false} SettledFailure(row: OrderRow, items: seq<Item>, e: Envelope, now: int)
    requires IsFailureFact(e.body) && row.status == CancelRequested && SettledRow(row, e.body, now) == row
    ensures var o := ApplyFailure(View(row, items, []), row, e, now);
            if CompensationComplete(row) then o.Applied? ==> o.view.row.status == Cancelled
            else o == Applied(View(row, items, Compensation(row, e.sagaId, e.eventId, TriggerOf(e.body))))
  {
    var c := Compensation(row, e.sagaId, e.eventId, TriggerOf(e.body));
    assert [] + c == c;
  }

  /** Commands carry the version, so those of two versions are equal only if there are none. */
  lemma {:induction false} CompensationsDiffer(a: OrderRow, b: OrderRow, sagaId: string, causationId: string,
                                               t: Trigger)
    requires a.version != b.version
    ensures Compensation(a, sagaId, causationId, t) == Compensation(b, sagaId, causationId, t) <==>
            Compensation(a, sagaId, causationId, t) == [] && Compensation(b, sagaId, causationId, t) == []
  {
    var c, d := Compensation(a, sagaId, causationId, t), Compensation(b, sagaId, causationId, t);
    assert c != [] ==> c[0].version == a.version;
    assert d != [] ==> d[0].version == b.version;
  }

  lemma {:induction false} StaleFailureIff(row: OrderRow, items: seq<Item>, snap: OrderRow, e: Envelope, now: int)
    requires AdvancedFrom(snap, row) && snap.version != row.version && IsFailureFact(e.body)
    requires ApplyFailure(View(row, items, []), snap, e, now).Applied?
    ensures ApplyFailure(View(row, items, []), row, e, now) == ApplyFailure(View(row, items, []), snap, e, now) <==>
            NothingToUndo(snap, row, e)
  {
    if !IsTerminal(snap.status) {
      StaleFailureSends(View(row, items, []), snap, e, now);
      CompensationsDiffer(snap, row, e.sagaId, e.eventId, TriggerOf(e.body));
      if row.status == CancelRequested {
        SettledFailure(row, items, e, now);
      }
    }
  }

  /** A fact that commits from a stale read does what it would do alone at its commit
      if and only if the condition holds; otherwise it does less, or it repeats commands
      that the stored row no longer calls for. */
  lemma {:induction false} StaleSerialIff(row: OrderRow, items: seq<Item>, snap: OrderValue, e: Envelope,
                                          quoteOk: bool, now: int)
    requires StaleApplied(row, items, snap, e, quoteOk, now)
    ensures Serial(row, items, e, quoteOk, now) == Handle(View(row, items, []), snap, e, quoteOk, now) <==>
            SameAtCommit(snap.row, row, e)
  {
    match e.body
    case InventoryReserved(_, _, _, _, _) => StaleReservedIff(row, items, snap, e, quoteOk, now);
    case PaymentAuthorized(_, _, _) => StaleAuthorizedIff(row, items, snap, e, quoteOk, now);
    case InventoryReleased(_) => StaleFlagIff(row, items, snap, e, quoteOk, now);
    case PaymentRefunded(_) => StaleFlagIff(row, items, snap, e, quoteOk, now);
    case FulfillmentCompleted(_) =>
    case Unsupported(_) =>
    case _ => StaleFailureIff(row, items, snap.row, e, now);
  }

  /** The commit of a handler that read the row and items at any earlier time. It acts
      as if it had read just before writing if and only if the row is unchanged or the
      condition on stale commits holds; from a stale read it leaves the order as it is
      and only repeats commands that were sent before. */
  lemma {:induction false} CommitIsSerialOrRepeats(row: OrderRow, items: seq<Item>, log: seq<Message>,
                                                   snap: OrderValue, e: Envelope, quoteOk: bool, now: int)
    requires OrderInv(row, items, log) && Snapshot(snap.row, row, log)
    requires snap.row.version == row.version ==> snap.items == items
    requires Handle(View(row, items, []), snap, e, quoteOk, now).Applied?
    ensures var v := Handle(View(row, items, []), snap, e, quoteOk, now).view;
            && OrderInv(v.row, v.items, log + v.out) && Advances(row, v.row)
            && (row.version == v.row.version ==> v.row == row && v.items == items)
            && (Serial(row, items, e, quoteOk, now) == Applied(v) <==>
                  snap.row.version == row.version || SameAtCommit(snap.row, row, e))
            && (snap.row.version != row.version ==> v.row == row && v.items == items && Repeats(log, v.out))
  {
    var v := Handle(View(row, items, []), snap, e, quoteOk, now).view;
    if snap.row.version == row.version {
      FactKeeps(row, items, log, e, quoteOk, now);
      AppliedAdvances(row, items, e, quoteOk, now);
    } else {
      StaleHandle(View(row, items, []), snap, e, quoteOk, now);
      StaleSerialIff(row, items, snap, e, quoteOk, now);
      if v.out != [] {
        RepeatKeeps(row, items, log, snap.row, e.sagaId, e.eventId, TriggerOf(e.body));
        CompensationRepeats(row, log, snap.row, e.sagaId, e.eventId, TriggerOf(e.body));
      } else {
        assert log + v.out == log;
      }
    }
  }
}
