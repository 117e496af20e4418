/** What every fact transaction of a running store commits, exactly, whether the order
    changed since its row was read or not. */
module AttemptEffects {
  import opened Basics
  import opened OrderAggregate
  import opened Saga
  import opened SagaInvariant
  import opened StoreModel
  import opened StoreInvariant
  import opened StoreTheorems
  import opened FactEffects

  // ------------------------------------------------------------------ outdated reads

  /** A fact that finds nothing to write in the row it read commits without the version
      guard; any other fact is rejected once the row has changed. */
  ghost predicate StaleGives(snap: OrderRow, row: OrderRow, items: seq<Item>, e: Envelope, o: Outcome) {
    match e.body
    case InventoryReserved(reservationId, _, _, _, _) =>
      if Ended(snap) || (snap.status == Confirmed && ValidReservationId(reservationId) &&
                         e.operation == Operation(snap.id, ReserveStep))
      then Ignored(row, items, o) else o.Rejected?
    case PaymentAuthorized(_, _, _) =>
      if Ended(snap) || snap.status == Confirmed then Ignored(row, items, o) else o.Rejected?
    case InventoryReleased(reservationId) =>
      if snap.reservationId == Some(reservationId) && snap.inventoryReleased && StillOpen(snap)
      then Ignored(row, items, o) else o.Rejected?
    case PaymentRefunded(paymentId) =>
      if snap.paymentId == Some(paymentId) && snap.paymentRefunded && StillOpen(snap)
      then Ignored(row, items, o) else o.Rejected?
    case InventoryRejected(_) =>
      if Ended(snap) || (snap.status == CancelRequested && snap.inventoryReleased && StillOpen(snap))
      then Ignored(row, items, o) else o.Rejected?
    case PaymentFailed(_) =>
      if Ended(snap) then Ignored(row, items, o)
      else if snap.status == CancelRequested && snap.paymentRefunded && StillOpen(snap)
      then o == Applied(View(row, items, Release(snap, snap.version, e))) else o.Rejected?
    case FulfillmentFailed(_) =>
      if Ended(snap) then Ignored(row, items, o)
      else if snap.status == CancelRequested && StillOpen(snap)
      then o == Applied(View(row, items, Release(snap, snap.version, e) + Refund(snap, snap.version, e)))
      else o.Rejected?
    case FulfillmentCompleted(_) => if Ended(snap) then Ignored(row, items, o) else o.Rejected?
    case Unsupported(_) => o.Rejected?
  }

  /** No cancellation waits to be completed. */
  predicate StillOpen(row: OrderRow) {
    row.status == CancelRequested ==> !Undone(row, row.inventoryReleased, row.paymentRefunded)
  }

  lemma {:induction false} StaleCompletion(v: View, snap: OrderRow, sagaId: string, causationId: string, now: int)
    requires v.row.version != snap.version
    ensures MaybeComplete(v, snap, sagaId, causationId, now) == if StillOpen(snap) then Applied(v) else Rejected
  {}

  lemma {:induction false} StaleFailureExact(row: OrderRow, items: seq<Item>, snap: OrderRow, e: Envelope, now: int)
    requires RowInv(snap) && row.version != snap.version && IsFailureFact(e.body)
    ensures StaleGives(snap, row, items, e, ApplyFailure(View(row, items, []), snap, e, now))
  {
    if snap.status == CancelRequested {
      var undo := Compensation(snap, e.sagaId, e.eventId, TriggerOf(e.body));
      assert snap.(version := snap.version) == snap;
      CompensationExact(snap, snap.version, e, TriggerOf(e.body));
      assert [] + undo == undo && Release(snap, snap.version, e) + [] == Release(snap, snap.version, e);
      StaleCompletion(View(row, items, undo), snap, e.sagaId, e.eventId, now);
    }
  }

  lemma {:induction false} StaleExact(row: OrderRow, items: seq<Item>, snap: OrderValue, e: Envelope, quoteOk: bool,
                                      now: int)
    requires RowInv(snap.row) && row.version != snap.row.version
    ensures StaleGives(snap.row, row, items, e, Handle(View(row, items, []), snap, e, quoteOk, now))
  {
    if IsFailureFact(e.body) {
      StaleFailureExact(row, items, snap.row, e, now);
    } else {
      StaleCompletion(View(row, items, []), snap.row, e.sagaId, e.eventId, now);
    }
  }

  // ------------------------------------------------------------------ opening and reading

  /** The service that may report the fact, and the type of what it reports on. */
  predicate ReportedBy(f: FactBody, producer: string, aggregateType: string) {
    match f
    case InventoryReserved(_, _, _, _, _) => producer == "inventory" && aggregateType == "inventory"
    case InventoryRejected(_) => producer == "inventory" && aggregateType == "inventory"
    case InventoryReleased(_) => producer == "inventory" && aggregateType == "inventory"
    case PaymentAuthorized(_, _, _) => producer == "payments" && aggregateType == "payment"
    case PaymentFailed(_) => producer == "payments" && aggregateType == "payment"
    case PaymentRefunded(_) => producer == "payments" && aggregateType == "payment"
    case FulfillmentCompleted(_) => producer == "fulfillment" && aggregateType == "fulfillment"
    case FulfillmentFailed(_) => producer == "fulfillment" && aggregateType == "fulfillment"
    case Unsupported(_) => false
  }

  /** An attempt is opened exactly for an identified fact of the right service about a
      well-formed order id, unless its event is PROCESSED or DLQ. */
  lemma {:induction false} OpenExact(w: World, a: nat, group: string, p: Payload)
    requires a !in w.attempts
    ensures var next := Step(w, Open(a, group, p));
            && next.db == w.db
            && (a in next.attempts <==>
                  p.Json? &&
                  var e := p.envelope; var k := InboxKey(group, e.eventId);
                  && e.eventId != "" && e.aggregateId != "" && e.schemaVersion == 1 && ValidOrderId(e.orderId)
                  && e.correlationId == e.orderId && ReportedBy(e.body, e.producer, e.aggregateType)
                  && !(k in w.db.inbox && w.db.inbox[k].status in {Processed, DeadLettered}))
            && (a in next.attempts ==>
                  var e := p.envelope; var k := InboxKey(group, e.eventId);
                  next.attempts == w.attempts[a := Attempt(k, e, k !in w.db.inbox, None, None)])
  {}

  /** The reads of an attempt: the row of its order, once, and then its items, once. */
  lemma {:induction false} ReadsExact(w: World, a: nat)
    requires a in w.attempts
    ensures var at, id := w.attempts[a], w.attempts[a].e.orderId;
            && Step(w, LoadRow(a)) == w.(attempts := w.attempts[a :=
                 if at.row.None? && id in w.db.orders then at.(row := Some(w.db.orders[id])) else at])
            && Step(w, LoadItems(a)) == w.(attempts := w.attempts[a :=
                 if at.row.Some? && at.items.None? then at.(items := Some(ItemsOf(w.db, id))) else at])
  {}

  /** Failure records and dead-letter marks write the inbox row of their event, and nothing else. */
  lemma {:induction false} RecordsExact(w: World, group: string, p: Payload, k: InboxKey)
    ensures Step(w, Fail(group, p)) ==
            if p.Malformed? || p.envelope.eventId == "" || p.envelope.correlationId == "" ||
               p.envelope.body == Unsupported("") then w
            else
              var f := InboxKey(group, p.envelope.eventId);
              w.(db := w.db.(inbox := w.db.inbox[f := InboxRow(
                Retry, 1 + if f in w.db.inbox then w.db.inbox[f].attempts else 0)]))
    ensures Step(w, DeadLetter(k)) ==
            if k !in w.db.inbox then w
            else w.(db := w.db.(inbox := w.db.inbox[k := InboxRow(DeadLettered, w.db.inbox[k].attempts)]))
  {}

  // ---------------------------------------------------------------------- every run

  /** The outcome of an attempt: it needs both reads and a free inbox key. */
  ghost predicate AttemptGives(db: Db, at: Attempt, quoteOk: bool, now: int, o: Outcome) {
    var id := at.e.orderId;
    if at.row.None? || at.items.None? || id !in db.orders || (at.inserted && at.key in db.inbox) then o.Rejected?
    else if at.row.value.version == db.orders[id].version
    then Gives(db.orders[id], ItemsOf(db, id), at.e, quoteOk, now, o)
    else StaleGives(at.row.value, db.orders[id], ItemsOf(db, id), at.e, o)
  }

  /** What the outcome leaves: nothing, or the order, its messages and its inbox row. */
  ghost predicate Leaves(db: Db, at: Attempt, o: Outcome, next: Db) {
    if o.Rejected? then next == db
    else
      next == db.(orders := db.orders[at.e.orderId := o.view.row], items := db.items[at.e.orderId := o.view.items],
                  outbox := db.outbox + o.view.out,
                  inbox := db.inbox[at.key := InboxRow(Processed,
                                                       if at.key in db.inbox then db.inbox[at.key].attempts else 1)])
  }

  lemma {:induction false} AttemptExact(db: Db, at: Attempt, quoteOk: bool, now: int)
    requires DbInv(db) && AttemptOk(db, at)
    ensures AttemptGives(db, at, quoteOk, now, HandleAttempt(db, at, quoteOk, now))
  {
    var id := at.e.orderId;
    if at.row.Some? && at.items.Some? && InboxFree(db, at) {
      assert OrderOk(db, id);
      if at.row.value.version == db.orders[id].version {
        FactExact(db.orders[id], ItemsOf(db, id), at.e, quoteOk, now);
      } else {
        StaleExact(db.orders[id], ItemsOf(db, id), OrderValue(at.row.value, at.items.value), at.e, quoteOk, now);
      }
    }
  }

  lemma {:induction false} CommitLeaves(db: Db, at: Attempt, quoteOk: bool, now: int)
    requires AttemptOk(db, at)
    ensures Leaves(db, at, HandleAttempt(db, at, quoteOk, now), CommitAttempt(db, at, quoteOk, now))
  {
    assert HandleAttempt(db, at, quoteOk, now).Applied? ==> InboxFree(db, at);
  }

  /** A commit and whether it succeeds. */
  ghost predicate CommitGives(db: Db, at: Attempt, quoteOk: bool, now: int, ok: bool, next: Db) {
    exists o :: AttemptGives(db, at, quoteOk, now, o) && Leaves(db, at, o, next) && ok == o.Applied?
  }

  lemma {:induction false} CommitExact(db: Db, at: Attempt, quoteOk: bool, now: int)
    requires DbInv(db) && AttemptOk(db, at)
    ensures CommitGives(db, at, quoteOk, now, HandleAttempt(db, at, quoteOk, now).Applied?,
                        CommitAttempt(db, at, quoteOk, now))
  {
    AttemptExact(db, at, quoteOk, now);
    CommitLeaves(db, at, quoteOk, now);
  }

  /** In every run, a commit does to the tables exactly what its fact gives: from the
      stored row if that is the row it read, and otherwise only if it writes nothing. */
  lemma {:induction false} RunCommitExact(actions: seq<Action>, a: nat, quoteOk: bool, now: int)
    requires a in Run(actions).attempts
    ensures var w := Run(actions); var next := Step(w, Commit(a, quoteOk, now));
            && next.attempts == w.attempts - {a}
            && exists ok :: CommitGives(w.db, w.attempts[a], quoteOk, now, ok, next.db)
  {
    RunKeeps(actions);
    var w := Run(actions);
    assert AttemptOk(w.db, w.attempts[a]);
    CommitExact(w.db, w.attempts[a], quoteOk, now);
  }

  /** A fact processed with nothing in between, on the tables of any run. */
  lemma {:induction false} RunFactAlone(actions: seq<Action>, e: Envelope, quoteOk: bool, now: int)
    ensures var db := Run(actions).db; var o := FactAlone(db, e, quoteOk, now);
            if e.orderId !in db.orders then o.Rejected?
            else Gives(db.orders[e.orderId], ItemsOf(db, e.orderId), e, quoteOk, now, o)
  {
    RunKeeps(actions);
    var db := Run(actions).db;
    if e.orderId in db.orders {
      assert OrderOk(db, e.orderId);
      FactExact(db.orders[e.orderId], ItemsOf(db, e.orderId), e, quoteOk, now);
    }
  }

  // ----------------------------------------------------------------- unverified quotes

  /** Without a verified quote no total, no item and no authorize command is written. */
  lemma {:induction false} UnverifiedGives(row: OrderRow, items: seq<Item>, e: Envelope, now: int, o: Outcome)
    requires Gives(row, items, e, false, now, o) && o.Applied?
    ensures o.view.row.total == row.total && o.view.items == items && NoAuthorize(o.view.out)
  {
    if e.body.InventoryReserved? {
      UnverifiedReservation(row, items, e, now, o);
    } else if e.body.InventoryRejected? {
      RejectionPricesNothing(row, items, e, now, o);
    } else if e.body.PaymentFailed? {
      DeclinePricesNothing(row, items, e, now, o);
    } else if e.body.FulfillmentFailed? {
      LossPricesNothing(row, items, e, now, o);
    }
  }

  ghost predicate NoAuthorize(out: seq<Message>) {
    forall k :: 0 <= k < |out| ==> !out[k].body.AuthorizePayment?
  }

  lemma {:induction false} UnverifiedReservation(row: OrderRow, items: seq<Item>, e: Envelope, now: int, o: Outcome)
    requires e.body.InventoryReserved? && ReservedGives(row, items, e, false, now, o) && o.Applied?
    ensures o.view.row.total == row.total && o.view.items == items && NoAuthorize(o.view.out)
  {}

  lemma {:induction false} RejectionPricesNothing(row: OrderRow, items: seq<Item>, e: Envelope, now: int, o: Outcome)
    requires e.body.InventoryRejected? && RejectionGives(row, items, e, now, o) && o.Applied?
    ensures o.view.row.total == row.total && o.view.items == items && NoAuthorize(o.view.out)
  {}

  lemma {:induction false} DeclinePricesNothing(row: OrderRow, items: seq<Item>, e: Envelope, now: int, o: Outcome)
    requires e.body.PaymentFailed? && DeclineGives(row, items, e, now, o) && o.Applied?
    ensures o.view.row.total == row.total && o.view.items == items && NoAuthorize(o.view.out)
  {}

  lemma {:induction false} LossPricesNothing(row: OrderRow, items: seq<Item>, e: Envelope, now: int, o: Outcome)
    requires e.body.FulfillmentFailed? && LossGives(row, items, e, now, o) && o.Applied?
    ensures o.view.row.total == row.total && o.view.items == items && NoAuthorize(o.view.out)
  {}

  lemma {:induction false} StaleUnverified(snap: OrderRow, row: OrderRow, items: seq<Item>, e: Envelope, o: Outcome)
    requires StaleGives(snap, row, items, e, o) && o.Applied?
    ensures o.view.row == row && o.view.items == items && NoAuthorize(o.view.out)
  {}

  lemma {:induction false} UnverifiedAttempt(db: Db, at: Attempt, now: int, o: Outcome)
    requires AttemptGives(db, at, false, now, o) && o.Applied?
    ensures at.e.orderId in db.orders
    ensures o.view.row.total == db.orders[at.e.orderId].total && o.view.items == ItemsOf(db, at.e.orderId)
    ensures NoAuthorize(o.view.out)
  {
    var id := at.e.orderId;
    if at.row.value.version == db.orders[id].version {
      UnverifiedGives(db.orders[id], ItemsOf(db, id), at.e, now, o);
    } else {
      StaleUnverified(at.row.value, db.orders[id], ItemsOf(db, id), at.e, o);
    }
  }

  /** In every run, a commit whose quote was not verified leaves every total and every
      item as it is and sends no authorize command. */
  lemma {:induction false} RunUnverifiedQuote(actions: seq<Action>, a: nat, now: int)
    requires a in Run(actions).attempts
    ensures NothingPriced(Run(actions).db, Step(Run(actions), Commit(a, false, now)).db)
  {
    RunCommitExact(actions, a, false, now);
    var w := Run(actions);
    var next := Step(w, Commit(a, false, now)).db;
    var ok :| CommitGives(w.db, w.attempts[a], false, now, ok, next);
    var o :| AttemptGives(w.db, w.attempts[a], false, now, o) && Leaves(w.db, w.attempts[a], o, next);
    UnverifiedLeaves(w.db, w.attempts[a], now, o, next);
  }

  ghost predicate NothingPriced(db: Db, next: Db) {
    && (forall id :: id in db.orders ==>
          id in next.orders && next.orders[id].total == db.orders[id].total && ItemsOf(next, id) == ItemsOf(db, id))
    && db.outbox <= next.outbox && NoAuthorize(next.outbox[|db.outbox|..])
  }

  lemma {:induction false} UnverifiedLeaves(db: Db, at: Attempt, now: int, o: Outcome, next: Db)
    requires AttemptGives(db, at, false, now, o) && Leaves(db, at, o, next)
    ensures NothingPriced(db, next)
  {
    if o.Applied? {
      UnverifiedAttempt(db, at, now, o);
      assert next.outbox[|db.outbox|..] == o.view.out;
    }
  }

  // ------------------------------------------------------------- cancellations in progress

  /** The fact reports that one side of a cancellation has nothing left to undo. */
  predicate Settles(row: OrderRow, f: FactBody) {
    match f
    case InventoryReleased(reservationId) => row.reservationId == Some(reservationId)
    case PaymentRefunded(paymentId) => row.paymentId == Some(paymentId)
    case InventoryRejected(_) => true
    case PaymentFailed(_) => true
    case _ => false
  }

  predicate SettlesInventory(f: FactBody) {
    f.InventoryReleased? || f.InventoryRejected?
  }

  /** Both reads are made, the row is current and the inbox key is free. */
  ghost predicate UpToDate(w: World, a: nat) {
    a in w.attempts &&
    var at := w.attempts[a];
    && at.row.Some? && at.items.Some? && (at.inserted ==> at.key !in w.db.inbox)
    && at.e.orderId in w.db.orders && at.row.value.version == w.db.orders[at.e.orderId].version
  }

  /** The flag of the fact's side is set, nothing else of the order is lost, and the
      cancellation ends if and only if the other side is settled too. */
  ghost predicate SettledBy(row: OrderRow, f: FactBody, next: OrderRow) {
    && next.inventoryReleased == (row.inventoryReleased || SettlesInventory(f))
    && next.paymentRefunded == (row.paymentRefunded || !SettlesInventory(f))
    && next.id == row.id && next.customerId == row.customerId && next.currency == row.currency
    && next.total == row.total && next.reservationId == row.reservationId && next.paymentId == row.paymentId
    && next.shipmentId == row.shipmentId && next.failureCode == row.failureCode && next.createdAt == row.createdAt
    && (next.status == Cancelled || next.status == CancelRequested)
    && (next.status == Cancelled <==>
          if SettlesInventory(f) then row.paymentId.None? || row.paymentRefunded
          else row.reservationId.None? || row.inventoryReleased)
  }

  /** One cancelled event, last and at the new version, exactly when the cancellation ends. */
  ghost predicate Announced(next: OrderRow, out: seq<Message>) {
    && (forall k :: 0 <= k < |out| && out[k].body.OrderCancelled? ==> next.status == Cancelled && k == |out| - 1)
    && (next.status == Cancelled ==>
          out != [] && out[|out| - 1].body == OrderCancelled("CUSTOMER_REQUESTED") &&
          out[|out| - 1].orderId == next.id && out[|out| - 1].version == next.version)
  }

  lemma {:induction false} SettlementGives(row: OrderRow, items: seq<Item>, e: Envelope, quoteOk: bool, now: int,
                                           o: Outcome)
    requires row.status == CancelRequested && Settles(row, e.body) && Gives(row, items, e, quoteOk, now, o)
    ensures o.Applied? && SettledBy(row, e.body, o.view.row) && o.view.items == items
    ensures Announced(o.view.row, o.view.out)
  {}

  ghost predicate SettlementStored(db: Db, at: Attempt, next: Db) {
    var id := at.e.orderId;
    && id in db.orders && id in next.orders && SettledBy(db.orders[id], at.e.body, next.orders[id])
    && ItemsOf(next, id) == ItemsOf(db, id)
    && db.outbox <= next.outbox && Announced(next.orders[id], next.outbox[|db.outbox|..])
    && at.key in next.inbox && next.inbox[at.key].status == Processed
  }

  lemma {:induction false} SettlementLeaves(db: Db, at: Attempt, o: Outcome, next: Db)
    requires at.e.orderId in db.orders && Leaves(db, at, o, next) && o.Applied?
    requires SettledBy(db.orders[at.e.orderId], at.e.body, o.view.row) && o.view.items == ItemsOf(db, at.e.orderId)
    requires Announced(o.view.row, o.view.out)
    ensures SettlementStored(db, at, next)
  {
    assert next.outbox[|db.outbox|..] == o.view.out;
  }

  /** In every run, a current attempt at a release, a refund, a refused reservation or a
      declined payment of an order in CANCEL_REQUESTED is applied: it sets its flag,
      settles its inbox row, and completes the cancellation, with one cancelled event,
      if and only if the other side is settled. */
  lemma {:induction false} RunCancellationSettles(actions: seq<Action>, a: nat, quoteOk: bool, now: int)
    requires UpToDate(Run(actions), a)
    requires var w := Run(actions); var at := w.attempts[a];
             w.db.orders[at.e.orderId].status == CancelRequested && Settles(w.db.orders[at.e.orderId], at.e.body)
    ensures var w := Run(actions); var at := w.attempts[a];
            SettlementStored(w.db, at, Step(w, Commit(a, quoteOk, now)).db)
  {
    RunCommitExact(actions, a, quoteOk, now);
    var w := Run(actions);
    var at := w.attempts[a];
    var next := Step(w, Commit(a, quoteOk, now)).db;
    var ok :| CommitGives(w.db, at, quoteOk, now, ok, next);
    var o :| AttemptGives(w.db, at, quoteOk, now, o) && Leaves(w.db, at, o, next);
    SettlementGives(w.db.orders[at.e.orderId], ItemsOf(w.db, at.e.orderId), at.e, quoteOk, now, o);
    SettlementLeaves(w.db, at, o, next);
  }

  // --------------------------------------------------------------------- item lines

  /** The same products in the same quantities. */
  ghost predicate SameLines(items: seq<Item>, next: seq<Item>) {
    |next| == |items| &&
    forall i :: 0 <= i < |items| ==> next[i].productId == items[i].productId && next[i].quantity == items[i].quantity
  }

  lemma {:induction false} GivesSameLines(row: OrderRow, items: seq<Item>, e: Envelope, quoteOk: bool, now: int,
                                          o: Outcome)
    requires Gives(row, items, e, quoteOk, now, o) && o.Applied?
    ensures SameLines(items, o.view.items)
  {
    if e.body.InventoryReserved? && o.view.items != items {
      var lines := e.body.lines.value;
      forall i | 0 <= i < |items|
        ensures o.view.items[i].productId == items[i].productId && o.view.items[i].quantity == items[i].quantity
      {
        assert Quotes(lines, items[i]);
        var k :| 0 <= k < |lines| && lines[k].productId == items[i].productId && lines[k].quantity == items[i].quantity;
      }
    }
  }

  lemma {:induction false} StepSameLines(w: World, act: Action, id: string)
    requires WorldInv(w) && id in w.db.orders
    ensures id in Step(w, act).db.orders && SameLines(ItemsOf(w.db, id), ItemsOf(Step(w, act).db, id))
  {
    StepKeeps(w, act);
    assert OrderAdvances(w.db, Step(w, act).db, id);
    if ItemsOf(Step(w, act).db, id) != ItemsOf(w.db, id) {
      CancelKeepsItems(w, act, id);
      ChangeIsSerial(w, act, id);
      assert OrderOk(w.db, id);
      FactExact(w.db.orders[id], ItemsOf(w.db, id), w.attempts[act.a].e, act.quoteOk, act.now);
      GivesSameLines(w.db.orders[id], ItemsOf(w.db, id), w.attempts[act.a].e, act.quoteOk, act.now,
                     Serial(w.db.orders[id], ItemsOf(w.db, id), w.attempts[act.a].e, act.quoteOk, act.now));
    }
  }

  lemma {:induction false} CancelKeepsItems(w: World, act: Action, id: string)
    requires ItemsOf(Step(w, act).db, id) != ItemsOf(w.db, id)
    ensures !act.CancelOrder?
  {}

  /** In every run an order keeps its products and quantities. */
  lemma {:induction false} RunSameLines(actions: seq<Action>, k: nat, id: string)
    requires k <= |actions| && id in Run(actions[..k]).db.orders
    ensures id in Run(actions).db.orders
    ensures SameLines(ItemsOf(Run(actions[..k]).db, id), ItemsOf(Run(actions).db, id))
  {
    if k == |actions| {
      assert actions[..k] == actions;
    } else {
      var n := |actions| - 1;
      assert actions[..n][..k] == actions[..k];
      RunSameLines(actions[..n], k, id);
      RunKeeps(actions[..n]);
      StepSameLines(Run(actions[..n]), actions[n], id);
    }
  }
}
