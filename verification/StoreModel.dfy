/** The tables of the orders store and the transactions that change them. A fact
    transaction is split into its inbox insert, its two reads and its commit, so
    that other transactions can commit in between. */
module StoreModel {
  import opened Basics
  import opened OrderAggregate
  import opened Saga

  datatype InboxStatus = Received | Processed | Retry | DeadLettered
  datatype InboxRow = InboxRow(status: InboxStatus, attempts: nat)
  datatype InboxKey = InboxKey(group: string, messageId: string)

  datatype RequestKey = RequestKey(actor: string, operation: string, key: string)
  datatype Response = Response(orderId: string, status: Status, at: int)
  datatype RequestRecord = RequestRecord(hash: string, resource: Option<string>, response: Option<Response>)

  datatype Db = Db(
    orders: map<string, OrderRow>,
    items: map<string, seq<Item>>,
    sagas: map<string, string>,
    outbox: seq<Message>,
    inbox: InboxTable,
    requests: map<RequestKey, RequestRecord>)

  /** The items stored for an order; none are found for an unknown id. */
  function ItemsOf(db: Db, id: string): seq<Item> {
    if id in db.items then db.items[id] else []
  }

  const EMPTY := Db(map[], map[], map[], [], map[], map[])

  datatype StoreError = Conflict | NotFound | IdempotencyConflict | InvalidInput(cause: OrderError)

  // ---------------------------------------------------------------- create, cancel

  datatype CreateRequest = CreateRequest(
    key: RequestKey, hash: string, orderId: string, customerId: string, currency: string, items: seq<Item>,
    now: Timestamp, sagaId: string, eventId: string, commandId: string)

  datatype CreateResult = CreateResult(order: OrderValue, replayed: bool, response: Response)

  function AcceptedResponse(row: OrderRow, at: int): Response {
    Response(row.id, row.status, at)
  }

  /** The tables after inserting a new order with everything written beside it. */
  function InsertedOrder(db: Db, r: CreateRequest, order: OrderValue): Db {
    db.(orders := db.orders[order.row.id := order.row],
        items := db.items[order.row.id := order.items],
        sagas := db.sagas[order.row.id := r.sagaId],
        outbox := db.outbox + CreationMessages(order, r.sagaId, r.eventId, r.commandId),
        requests := db.requests[r.key := RequestRecord(r.hash, Some(order.row.id),
                                                       Some(AcceptedResponse(order.row, order.row.createdAt)))])
  }

  function DraftOf(r: CreateRequest): OrderValue
    requires r.now.Utc?
  {
    FreshOrder(r.orderId, r.customerId, Normal(r.currency), r.items, r.now.nanos)
  }

  function CreateOutcome(db: Db, r: CreateRequest): Result<CreateResult, StoreError> {
    var draft := DraftError(r.orderId, r.customerId, r.currency, r.items, r.now);
    if draft.Some? then Err(InvalidInput(draft.value))
    else if r.key in db.requests then
      var record := db.requests[r.key];
      if record.hash != r.hash then Err(IdempotencyConflict)
      else if record.resource.None? || record.resource.value !in db.orders then Err(NotFound)
      else
        var order := OrderValue(db.orders[record.resource.value], ItemsOf(db, record.resource.value));
        Ok(CreateResult(order, true,
                        if record.response.Some? then record.response.value
                        else AcceptedResponse(order.row, order.row.createdAt)))
    else if r.orderId in db.orders then Err(Conflict)
    else Ok(CreateResult(DraftOf(r), false, AcceptedResponse(DraftOf(r).row, r.now.nanos)))
  }

  function Create(db: Db, r: CreateRequest): Db {
    var o := CreateOutcome(db, r);
    if o.Ok? && !o.value.replayed then InsertedOrder(db, r, o.value.order) else db
  }

  datatype CancelRequest = CancelRequest(
    key: RequestKey, hash: string, orderId: string, reason: string, expectedVersion: nat,
    now: int, eventId: string, commandId: string)

  function CancelOutcome(db: Db, c: CancelRequest): Result<OrderRow, StoreError> {
    if c.key in db.requests then
      var record := db.requests[c.key];
      if record.hash != c.hash then Err(IdempotencyConflict)
      else if record.resource.None? || record.resource.value !in db.orders then Err(NotFound)
      else Ok(db.orders[record.resource.value])
    else if c.orderId !in db.orders || !Cancellable(db.orders[c.orderId], c.expectedVersion) ||
            c.orderId !in db.sagas then Err(NotFound)
    else Ok(CancelledRow(db.orders[c.orderId], c.now))
  }

  /** Replaces one order's row and items and appends its messages. */
  function WriteOrder(db: Db, id: string, v: View): Db {
    db.(orders := db.orders[id := v.row], items := db.items[id := v.items], outbox := db.outbox + v.out)
  }

  function Cancel(db: Db, c: CancelRequest): Db {
    if c.key in db.requests || CancelOutcome(db, c).Err? then db
    else
      var row := CancelledRow(db.orders[c.orderId], c.now);
      WriteOrder(db, c.orderId,
                 View(row, ItemsOf(db, c.orderId),
                      CancellationMessages(row, db.sagas[c.orderId], c.eventId, c.commandId, c.reason)))
        .(requests := db.requests[c.key := RequestRecord(c.hash, Some(row.id),
          Some(AcceptedResponse(row, row.updatedAt)))])
  }

  // -------------------------------------------------------------------------- facts

  /** A message as the relay reads it. A payload that is not an envelope may still
      carry an event id; an empty one counts as none. */
  datatype Payload = Malformed(eventId: string) | Json(envelope: Envelope)

  function EventIdOf(p: Payload): string {
    if p.Malformed? then p.eventId else p.envelope.eventId
  }

  type InboxTable = map<InboxKey, InboxRow>

  /** INSERT ... ON CONFLICT DO NOTHING, as RECEIVED with one attempt. */
  function InsertInbox(inbox: InboxTable, k: InboxKey): InboxTable {
    if k in inbox then inbox else inbox[k := InboxRow(Received, 1)]
  }

  /** UPDATE ... SET status = PROCESSED. */
  function MarkInboxProcessed(inbox: InboxTable, k: InboxKey): InboxTable {
    if k in inbox then inbox[k := inbox[k].(status := Processed)] else inbox
  }

  predicate Settled(db: Db, k: InboxKey) {
    k in db.inbox && (db.inbox[k].status == Processed || db.inbox[k].status == DeadLettered)
  }

  /** A fact transaction in progress: what it has inserted and read so far. */
  datatype Attempt = Attempt(key: InboxKey, e: Envelope, inserted: bool, row: Option<OrderRow>,
    items: Option<seq<Item>>)

  /** The inbox insert; None when the payload is refused or the event is already settled. */
  function OpenAttempt(db: Db, group: string, p: Payload): Option<Attempt> {
    if p.Malformed? || !Admissible(p.envelope) then None
    else
      var k := InboxKey(group, p.envelope.eventId);
      if Settled(db, k) then None else Some(Attempt(k, p.envelope, k !in db.inbox, None, None))
  }

  function ReadRow(db: Db, at: Attempt): Attempt {
    if at.row.None? && at.e.orderId in db.orders then at.(row := Some(db.orders[at.e.orderId])) else at
  }

  function ReadItems(db: Db, at: Attempt): Attempt {
    if at.row.Some? && at.items.None? then at.(items := Some(ItemsOf(db, at.e.orderId))) else at
  }

  /** The unique key of the inbox refuses a second insert. */
  predicate InboxFree(db: Db, at: Attempt) {
    at.inserted ==> at.key !in db.inbox
  }

  /** The inbox as the transaction sees it: with its own insert, if it made one. */
  function InboxView(db: Db, at: Attempt): InboxTable {
    if at.inserted then InsertInbox(db.inbox, at.key) else db.inbox
  }

  ghost function HandleAttempt(db: Db, at: Attempt, quoteOk: bool, now: int): Outcome {
    var id := at.e.orderId;
    if at.row.None? || at.items.None? || !InboxFree(db, at) || id !in db.orders then Rejected
    else Handle(View(db.orders[id], ItemsOf(db, id), []), OrderValue(at.row.value, at.items.value), at.e, quoteOk, now)
  }

  /** The guarded writes and the commit; a refused transaction leaves the tables alone. */
  ghost function CommitAttempt(db: Db, at: Attempt, quoteOk: bool, now: int): Db {
    match HandleAttempt(db, at, quoteOk, now)
    case Rejected => db
    case Applied(v) =>
      WriteOrder(db, at.e.orderId, v).(inbox := MarkInboxProcessed(InboxView(db, at), at.key))
  }

  /** A fact handled with nothing in between. */
  ghost function FactAlone(db: Db, e: Envelope, quoteOk: bool, now: int): Outcome {
    if e.orderId !in db.orders then Rejected
    else Serial(db.orders[e.orderId], ItemsOf(db, e.orderId), e, quoteOk, now)
  }

  /** The order's tables, its messages and the inbox row, unless the fact is rejected. */
  ghost function FactWrites(db: Db, k: InboxKey, id: string, o: Outcome): Db {
    if o.Rejected? then db
    else WriteOrder(db, id, o.view).(inbox := MarkInboxProcessed(InsertInbox(db.inbox, k), k))
  }

  predicate HasInboxIdentity(p: Payload) {
    p.Json? && p.envelope.eventId != "" && p.envelope.correlationId != "" && p.envelope.body != Unsupported("")
  }

  function RecordFailure(db: Db, group: string, p: Payload): Db {
    if !HasInboxIdentity(p) then db
    else
      var k := InboxKey(group, p.envelope.eventId);
      db.(inbox := db.inbox[k := InboxRow(Retry, if k in db.inbox then db.inbox[k].attempts + 1 else 1)])
  }

  function MarkDeadLetter(db: Db, k: InboxKey): Db {
    if k in db.inbox then db.(inbox := db.inbox[k := db.inbox[k].(status := DeadLettered)]) else db
  }

  // --------------------------------------------------------------------------- runs

  datatype World = World(db: Db, attempts: map<nat, Attempt>)

  datatype Action =
    | CreateOrder(create: CreateRequest)
    | CancelOrder(cancel: CancelRequest)
    | Open(a: nat, group: string, payload: Payload)
    | LoadRow(a: nat)
    | LoadItems(a: nat)
    | Commit(a: nat, quoteOk: bool, now: int)
    | Abort(a: nat)
    | Fail(group: string, payload: Payload)
    | DeadLetter(key: InboxKey)

  ghost function Step(w: World, act: Action): World {
    match act
    case CreateOrder(r) => w.(db := Create(w.db, r))
    case CancelOrder(c) => w.(db := Cancel(w.db, c))
    case Open(a, group, p) =>
      var at := OpenAttempt(w.db, group, p);
      if a !in w.attempts && at.Some? then w.(attempts := w.attempts[a := at.value]) else w
    case LoadRow(a) => if a in w.attempts then w.(attempts := w.attempts[a := ReadRow(w.db, w.attempts[a])]) else w
    case LoadItems(a) => if a in w.attempts then w.(attempts := w.attempts[a := ReadItems(w.db, w.attempts[a])]) else w
    case Commit(a, quoteOk, now) =>
      if a in w.attempts then World(CommitAttempt(w.db, w.attempts[a], quoteOk, now), w.attempts - {a}) else w
    case Abort(a) => w.(attempts := w.attempts - {a})
    case Fail(group, p) => w.(db := RecordFailure(w.db, group, p))
    case DeadLetter(k) => w.(db := MarkDeadLetter(w.db, k))
  }

  /** The world after a run of actions in any order. */
  ghost function Run(actions: seq<Action>): World {
    if actions == [] then World(EMPTY, map[])
    else Step(Run(actions[..|actions| - 1]), actions[|actions| - 1])
  }
}
