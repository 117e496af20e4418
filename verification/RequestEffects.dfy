/** What the two requests of the orders store do, exactly: when they succeed, what they
    return and what they write. */
module RequestEffects {
  import opened Basics
  import opened OrderAggregate
  import opened Saga
  import opened SagaInvariant
  import opened StoreModel
  import opened StoreInvariant
  import opened StoreTheorems
  import opened FactEffects
  import opened AttemptEffects

  // ----------------------------------------------------------------------- creation

  /** The two messages of a creation: its event, and the reserve command with the lines
      of the order. */
  ghost predicate CreationSent(order: OrderValue, r: CreateRequest, out: seq<Message>) {
    |out| == 2 && out[0].body.OrderCreated? &&
    var id, lines := r.orderId, out[0].body.lines;
    && LinesOf(r.items, lines)
    && out[0] == Message(id, 1, r.sagaId, r.commandId, Operation(id, CreateStep),
                         OrderCreated(r.customerId, Normal(r.currency), lines))
    && out[1] == Message(id, 1, r.sagaId, r.eventId, Operation(id, ReserveStep),
                         ReserveInventory(r.customerId, Normal(r.currency), lines))
  }

  /** The tables with the new order in them. */
  ghost predicate OrderInserted(db: Db, r: CreateRequest, order: OrderValue, next: Db)
    requires r.now.Utc?
  {
    && next.orders == db.orders[r.orderId := order.row] && next.items == db.items[r.orderId := order.items]
    && next.sagas == db.sagas[r.orderId := r.sagaId] && next.inbox == db.inbox
    && next.requests == db.requests[r.key := RequestRecord(r.hash, Some(r.orderId),
                                                           Some(Response(r.orderId, Pending, r.now.nanos)))]
    && db.outbox <= next.outbox && CreationSent(order, r, next.outbox[|db.outbox|..])
  }

  /** A creation: refused for the first defect of its draft, replayed under a recorded
      key, refused for a taken id, or inserted. */
  ghost predicate CreateGives(db: Db, r: CreateRequest, o: Result<CreateResult, StoreError>, next: Db) {
    if !ValidDraft(r.orderId, r.customerId, r.currency, r.items, r.now) then
      && next == db && o.Err? && o.error.InvalidInput?
      && DefectiveDraft(r.orderId, r.customerId, r.currency, r.items, r.now, o.error.cause)
    else if r.key in db.requests then
      next == db &&
      var record := db.requests[r.key];
      if record.hash != r.hash then o == Err(IdempotencyConflict)
      else
        record.resource.Some? && record.resource.value in db.orders && record.response.Some? &&
        var id := record.resource.value;
        o == Ok(CreateResult(OrderValue(db.orders[id], ItemsOf(db, id)), true, record.response.value))
    else if r.orderId in db.orders then next == db && o == Err(Conflict)
    else
      o.Ok? &&
      var order := o.value.order;
      && o.value == CreateResult(order, false, Response(r.orderId, Pending, r.now.nanos))
      && IsNewOrder(order, r.orderId, r.customerId, Normal(r.currency), r.items, r.now.nanos)
      && OrderInserted(db, r, order, next)
  }

  lemma {:induction false} CreationMessagesSent(order: OrderValue, r: CreateRequest)
    requires r.now.Utc? && IsNewOrder(order, r.orderId, r.customerId, Normal(r.currency), r.items, r.now.nanos)
    ensures CreationSent(order, r, CreationMessages(order, r.sagaId, r.eventId, r.commandId))
  {}

  lemma {:induction false} InsertExact(db: Db, r: CreateRequest, order: OrderValue)
    requires r.now.Utc? && IsNewOrder(order, r.orderId, r.customerId, Normal(r.currency), r.items, r.now.nanos)
    ensures OrderInserted(db, r, order, InsertedOrder(db, r, order))
  {
    CreationMessagesSent(order, r);
    var out := CreationMessages(order, r.sagaId, r.eventId, r.commandId);
    assert (db.outbox + out)[|db.outbox|..] == out;
  }

  lemma {:induction false} CreateExact(db: Db, r: CreateRequest)
    requires DbInv(db)
    ensures CreateGives(db, r, CreateOutcome(db, r), Create(db, r))
  {
    DraftAcceptedIff(r.orderId, r.customerId, r.currency, r.items, r.now);
    if DraftError(r.orderId, r.customerId, r.currency, r.items, r.now).Some? {
      DraftErrorTells(r.orderId, r.customerId, r.currency, r.items, r.now);
    } else if r.key in db.requests {
      assert RequestOk(db, r.key);
    } else if r.orderId !in db.orders {
      FreshOrderIsNew(r.orderId, r.customerId, Normal(r.currency), r.items, r.now.nanos);
      InsertExact(db, r, DraftOf(r));
    }
  }

  /** Every creation in every run. */
  lemma {:induction false} RunCreateExact(actions: seq<Action>, r: CreateRequest)
    ensures CreateGives(Run(actions).db, r, CreateOutcome(Run(actions).db, r), Step(Run(actions), CreateOrder(r)).db)
  {
    RunKeeps(actions);
    CreateExact(Run(actions).db, r);
  }

  /** Only a creation of that id brings an order into being. */
  lemma {:induction false} OrdersAppear(w: World, act: Action, id: string)
    requires WorldInv(w) && id !in w.db.orders && id in Step(w, act).db.orders
    ensures act.CreateOrder? && act.create.orderId == id
  {
    if act.CreateOrder? { CreateExact(w.db, act.create); }
  }

  /** What stays of a creation for as long as the order exists. */
  ghost predicate StillAsCreated(db: Db, r: CreateRequest) {
    r.now.Utc? && r.orderId in db.orders &&
    var row := db.orders[r.orderId];
    && row.id == r.orderId && row.customerId == r.customerId && row.currency == Normal(r.currency)
    && row.createdAt == r.now.nanos && SameLines(r.items, ItemsOf(db, r.orderId))
  }

  /** In every run, an order comes into being only by a creation, with the id, customer,
      normalised currency, products, quantities and time of that request, PENDING at
      version one; all but its status and version it keeps for good. */
  lemma {:induction false} RunOrderAsCreated(actions: seq<Action>, k: nat, id: string)
    requires k < |actions| && id !in Run(actions[..k]).db.orders && id in Run(actions[..k + 1]).db.orders
    ensures actions[k].CreateOrder? && actions[k].create.orderId == id
    ensures var row := Run(actions[..k + 1]).db.orders[id]; row.status == Pending && row.version == 1
    ensures StillAsCreated(Run(actions[..k + 1]).db, actions[k].create)
    ensures StillAsCreated(Run(actions).db, actions[k].create)
  {
    OrderAppears(actions, k, id);
    RunHistory(actions, k + 1, id);
    RunSameLines(actions, k + 1, id);
    KeepsCreation(Run(actions[..k + 1]).db, Run(actions).db, actions[k].create);
  }

  lemma {:induction false} OrderAppears(actions: seq<Action>, k: nat, id: string)
    requires k < |actions| && id !in Run(actions[..k]).db.orders && id in Run(actions[..k + 1]).db.orders
    ensures actions[k].CreateOrder? && actions[k].create.orderId == id
    ensures var row := Run(actions[..k + 1]).db.orders[id]; row.status == Pending && row.version == 1
    ensures StillAsCreated(Run(actions[..k + 1]).db, actions[k].create)
  {
    assert actions[..k + 1][..k] == actions[..k];
    RunKeeps(actions[..k]);
    OrdersAppear(Run(actions[..k]), actions[k], id);
    RunCreateExact(actions[..k], actions[k].create);
    CreatedAsAsked(Run(actions[..k]).db, actions[k].create, Run(actions[..k + 1]).db);
  }

  lemma {:induction false} CreatedAsAsked(db: Db, r: CreateRequest, next: Db)
    requires CreateGives(db, r, CreateOutcome(db, r), next) && r.orderId !in db.orders && r.orderId in next.orders
    ensures StillAsCreated(next, r) && next.orders[r.orderId].status == Pending && next.orders[r.orderId].version == 1
  {}

  lemma {:induction false} KeepsCreation(db: Db, next: Db, r: CreateRequest)
    requires StillAsCreated(db, r) && OrderHistory(db, next, r.orderId)
    requires SameLines(ItemsOf(db, r.orderId), ItemsOf(next, r.orderId))
    ensures StillAsCreated(next, r)
  {}

  // ------------------------------------------------------------------- cancellation

  /** The messages of a cancellation request: its event, and the commands that undo what
      the order holds. */
  ghost predicate CancellationSent(row: OrderRow, sagaId: string, c: CancelRequest, out: seq<Message>) {
    out ==
    [Message(row.id, row.version, sagaId, c.commandId, Operation(row.id, CancelStep),
             CancellationRequested(c.reason))] +
    (if row.reservationId.None? then []
     else [Message(row.id, row.version, sagaId, c.eventId, Operation(row.id, ReleaseStep),
                   ReleaseInventory(row.reservationId.value))]) +
    (if row.paymentId.None? || row.total.None? then []
     else [Message(row.id, row.version, sagaId, c.eventId, Operation(row.id, RefundStep),
                   RefundPayment(row.paymentId.value, row.total.value, row.currency))])
  }

  /** The tables with the cancellation in them. */
  ghost predicate CancellationStored(db: Db, c: CancelRequest, row: OrderRow, next: Db)
    requires c.orderId in db.sagas
  {
    && next.orders == db.orders[c.orderId := row] && next.items == db.items && next.sagas == db.sagas
    && next.inbox == db.inbox
    && next.requests == db.requests[c.key := RequestRecord(c.hash, Some(c.orderId),
                                                           Some(Response(c.orderId, CancelRequested, c.now)))]
    && db.outbox <= next.outbox && CancellationSent(row, db.sagas[c.orderId], c, next.outbox[|db.outbox|..])
  }

  /** The stored order is the one the caller saw, and can still be cancelled. */
  predicate MayCancel(db: Db, c: CancelRequest) {
    && c.orderId in db.orders && db.orders[c.orderId].version == c.expectedVersion
    && (db.orders[c.orderId].status == Pending || db.orders[c.orderId].status == Confirmed)
  }

  /** A cancellation: replayed under a recorded key, refused, or stored. */
  ghost predicate CancelGives(db: Db, c: CancelRequest, o: Result<OrderRow, StoreError>, next: Db) {
    if c.key in db.requests then
      next == db &&
      var record := db.requests[c.key];
      if record.hash != c.hash then o == Err(IdempotencyConflict)
      else record.resource.Some? && record.resource.value in db.orders && o == Ok(db.orders[record.resource.value])
    else if !MayCancel(db, c) then next == db && o == Err(NotFound)
    else
      && o == Ok(db.orders[c.orderId].(status := CancelRequested, version := c.expectedVersion + 1, updatedAt := c.now))
      && c.orderId in db.sagas && CancellationStored(db, c, o.value, next)
  }

  lemma {:induction false} CancellationMessagesSent(row: OrderRow, sagaId: string, c: CancelRequest)
    requires RowInv(row)
    ensures CancellationSent(row, sagaId, c, CancellationMessages(row, sagaId, c.eventId, c.commandId, c.reason))
  {}

  lemma {:induction false} CancelExact(db: Db, c: CancelRequest)
    requires DbInv(db)
    ensures CancelGives(db, c, CancelOutcome(db, c), Cancel(db, c))
  {
    if c.key in db.requests {
      assert RequestOk(db, c.key);
    } else if MayCancel(db, c) {
      assert OrderOk(db, c.orderId);
      var row := CancelledRow(db.orders[c.orderId], c.now);
      var out := CancellationMessages(row, db.sagas[c.orderId], c.eventId, c.commandId, c.reason);
      CancellationMessagesSent(row, db.sagas[c.orderId], c);
      ItemsKnown(db, c.orderId);
      assert (db.outbox + out)[|db.outbox|..] == out;
    }
  }

  /** Every cancellation in every run: under a new key it succeeds if and only if the
      order exists at the version the caller expects and is PENDING or CONFIRMED. */
  lemma {:induction false} RunCancelExact(actions: seq<Action>, c: CancelRequest)
    ensures CancelGives(Run(actions).db, c, CancelOutcome(Run(actions).db, c), Step(Run(actions), CancelOrder(c)).db)
    ensures c.key !in Run(actions).db.requests ==>
            (CancelOutcome(Run(actions).db, c).Ok? <==> MayCancel(Run(actions).db, c))
  {
    RunKeeps(actions);
    CancelExact(Run(actions).db, c);
  }

  /** The k-th action is a cancellation under a new key that succeeds. */
  ghost predicate CancelsAt(actions: seq<Action>, k: nat, id: string, expectedVersion: nat) {
    k < |actions| && actions[k].CancelOrder? &&
    var db, c := Run(actions[..k]).db, actions[k].cancel;
    && c.orderId == id && c.expectedVersion == expectedVersion
    && c.key !in db.requests && CancelOutcome(db, c).Ok?
  }

  /** Of the cancellations of an order that expect the same version, at most one succeeds. */
  lemma {:induction false} RunCancelledOnce(actions: seq<Action>, i: nat, j: nat, id: string, expectedVersion: nat)
    requires i < j && CancelsAt(actions, i, id, expectedVersion)
    ensures !CancelsAt(actions, j, id, expectedVersion)
  {
    if CancelsAt(actions, j, id, expectedVersion) {
      RunCancelExact(actions[..i], actions[i].cancel);
      RunCancelExact(actions[..j], actions[j].cancel);
      assert actions[..i + 1][..i] == actions[..i];
      assert actions[..j][..i + 1] == actions[..i + 1];
      RunHistory(actions[..j], i + 1, id);
    }
  }
}
