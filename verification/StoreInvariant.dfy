/** Every run of the store, in every interleaving, keeps the tables consistent. */
module StoreInvariant {
  import opened Basics
  import opened OrderAggregate
  import opened Saga
  import opened SagaInvariant
  import opened SagaPreservation
  import opened SagaInterleaving
  import opened StoreModel

  /** The outbox messages of one order, in insertion order. */
  function LogOf(outbox: seq<Message>, id: string): seq<Message> {
    if outbox == [] then []
    else LogOf(outbox[..|outbox| - 1], id) + (if outbox[|outbox| - 1].orderId == id then [outbox[|outbox| - 1]] else [])
  }

  lemma {:induction false} LogOfAppend(a: seq<Message>, b: seq<Message>, id: string)
    ensures LogOf(a + b, id) == LogOf(a, id) + LogOf(b, id)
  {
    if b == [] {
      assert a + b == a;
    } else {
      assert (a + b)[..|a + b| - 1] == a + b[..|b| - 1];
      LogOfAppend(a, b[..|b| - 1], id);
    }
  }

  lemma {:induction false} LogOfOwn(out: seq<Message>, id: string)
    requires forall k :: 0 <= k < |out| ==> out[k].orderId == id
    ensures LogOf(out, id) == out
  {
    if out != [] {
      LogOfOwn(out[..|out| - 1], id);
    }
  }

  lemma {:induction false} LogOfOthers(out: seq<Message>, id: string)
    requires forall k :: 0 <= k < |out| ==> out[k].orderId != id
    ensures LogOf(out, id) == []
  {
    if out != [] {
      LogOfOthers(out[..|out| - 1], id);
    }
  }

  // -------------------------------------------------------------------- invariants

  ghost predicate OrderOk(db: Db, id: string)
    requires id in db.orders
  {
    db.orders[id].id == id && OrderInv(db.orders[id], ItemsOf(db, id), LogOf(db.outbox, id))
  }

  ghost predicate RequestOk(db: Db, k: RequestKey)
    requires k in db.requests
  {
    var record := db.requests[k];
    record.resource.Some? && record.resource.value in db.orders
    && record.response.Some? && record.response.value.orderId == record.resource.value
  }

  ghost predicate OrdersOk(db: Db) {
    && (forall id {:trigger OrderOk(db, id)} :: id in db.orders ==> OrderOk(db, id))
    && (forall id {:trigger LogOf(db.outbox, id)} :: id !in db.orders ==> LogOf(db.outbox, id) == [])
  }

  /** No committed inbox row is RECEIVED. */
  ghost predicate InboxOk(db: Db) {
    forall k :: k in db.inbox ==> db.inbox[k].status != Received
  }

  ghost predicate RequestsOk(db: Db) {
    forall k {:trigger RequestOk(db, k)} :: k in db.requests ==> RequestOk(db, k)
  }

  ghost predicate DbInv(db: Db) {
    db.sagas.Keys == db.orders.Keys && OrdersOk(db) && InboxOk(db) && RequestsOk(db)
  }

  /** What a transaction in progress has read is still a snapshot of its order. */
  ghost predicate AttemptOk(db: Db, at: Attempt) {
    && Admissible(at.e) && at.key.messageId == at.e.eventId && (!at.inserted ==> at.key in db.inbox)
    && (at.items.Some? ==> at.row.Some?)
    && (at.row.Some? ==>
          && at.e.orderId in db.orders
          && Snapshot(at.row.value, db.orders[at.e.orderId], LogOf(db.outbox, at.e.orderId))
          && (at.items.Some? && at.row.value.version == db.orders[at.e.orderId].version ==>
                at.items.value == ItemsOf(db, at.e.orderId)))
  }

  ghost predicate WorldInv(w: World) {
    DbInv(w.db) && forall a :: a in w.attempts ==> AttemptOk(w.db, w.attempts[a])
  }

  /** One order's tables move forward. */
  ghost predicate OrderAdvances(db: Db, next: Db, id: string)
    requires id in db.orders
  {
    && id in next.orders && Advances(db.orders[id], next.orders[id])
    && (db.orders[id].version == next.orders[id].version ==> ItemsOf(next, id) == ItemsOf(db, id))
    && LogOf(db.outbox, id) <= LogOf(next.outbox, id)
  }

  ghost predicate DbAdvances(db: Db, next: Db) {
    forall id {:trigger OrderAdvances(db, next, id)} :: id in db.orders ==> OrderAdvances(db, next, id)
  }

  /** Inbox rows are never deleted. */
  ghost predicate InboxGrows(db: Db, next: Db) {
    forall k :: k in db.inbox ==> k in next.inbox
  }

  lemma {:induction false} SameOrdersAdvance(db: Db, next: Db)
    requires next.orders == db.orders && next.items == db.items && next.outbox == db.outbox
    ensures DbAdvances(db, next)
  {}

  lemma {:induction false} AttemptSurvives(db: Db, next: Db, at: Attempt)
    requires AttemptOk(db, at) && DbAdvances(db, next) && InboxGrows(db, next)
    ensures AttemptOk(next, at)
  {
    if at.row.Some? {
      var id := at.e.orderId;
      assert OrderAdvances(db, next, id);
      var before, after := LogOf(db.outbox, id), LogOf(next.outbox, id);
      assert after == before + after[|before|..];
      SnapshotSurvives(at.row.value, db.orders[id], next.orders[id], before, after[|before|..]);
    }
  }

  lemma {:induction false} AttemptsSurvive(w: World, next: World)
    requires WorldInv(w) && DbInv(next.db) && DbAdvances(w.db, next.db) && InboxGrows(w.db, next.db)
    requires forall a :: a in next.attempts ==> a in w.attempts && next.attempts[a] == w.attempts[a]
    ensures WorldInv(next)
  {
    forall a | a in next.attempts ensures AttemptOk(next.db, next.attempts[a]) {
      AttemptSurvives(w.db, next.db, w.attempts[a]);
    }
  }

  // --------------------------------------------------------------- table updates

  lemma {:induction false} OwnMessages(row: OrderRow, items: seq<Item>, log: seq<Message>, out: seq<Message>)
    requires OrderInv(row, items, log + out)
    ensures forall k :: 0 <= k < |out| ==> out[k].orderId == row.id
  {
    forall k | 0 <= k < |out| ensures out[k].orderId == row.id {
      assert (log + out)[|log| + k] == out[k];
      assert MessageInv(row, (log + out)[|log| + k]);
    }
  }

  lemma {:induction false} AppendOwn(outbox: seq<Message>, out: seq<Message>, id: string, other: string)
    requires forall k :: 0 <= k < |out| ==> out[k].orderId == id
    ensures LogOf(outbox + out, other) == if other == id then LogOf(outbox, id) + out else LogOf(outbox, other)
  {
    LogOfAppend(outbox, out, other);
    if other == id {
      LogOfOwn(out, id);
    } else {
      LogOfOthers(out, other);
      assert LogOf(outbox, other) + [] == LogOf(outbox, other);
    }
  }

  /** The tables around a write of one order, old or new. */
  ghost predicate WritesOnly(db: Db, next: Db, id: string, v: View) {
    next.orders == db.orders[id := v.row] && next.items == db.items[id := v.items] && next.outbox == db.outbox + v.out
  }

  lemma {:induction false} WriteKeepsOrders(db: Db, next: Db, id: string, v: View)
    requires OrdersOk(db) && WritesOnly(db, next, id, v) && v.row.id == id
    requires OrderInv(v.row, v.items, LogOf(db.outbox, id) + v.out)
    ensures OrdersOk(next)
  {
    OwnMessages(v.row, v.items, LogOf(db.outbox, id), v.out);
    forall other | other in next.orders ensures OrderOk(next, other) {
      AppendOwn(db.outbox, v.out, id, other);
      assert other != id ==> OrderOk(db, other);
    }
    forall other | other !in next.orders ensures LogOf(next.outbox, other) == [] {
      AppendOwn(db.outbox, v.out, id, other);
    }
  }

  lemma {:induction false} WriteAdvances(db: Db, next: Db, id: string, v: View)
    requires WritesOnly(db, next, id, v) && OrderInv(v.row, v.items, LogOf(db.outbox, id) + v.out) && v.row.id == id
    requires id in db.orders ==> Advances(db.orders[id], v.row)
    requires id in db.orders && db.orders[id].version == v.row.version ==> v.items == ItemsOf(db, id)
    ensures DbAdvances(db, next)
  {
    OwnMessages(v.row, v.items, LogOf(db.outbox, id), v.out);
    forall other | other in db.orders ensures OrderAdvances(db, next, other) {
      AppendOwn(db.outbox, v.out, id, other);
    }
  }

  /** A request record may be added beside a write; the others stay. */
  lemma {:induction false} RequestAdded(db: Db, next: Db, key: RequestKey, record: RequestRecord)
    requires RequestsOk(db) && next.requests == db.requests[key := record]
    requires forall id :: id in db.orders ==> id in next.orders
    requires record.resource.Some? && record.resource.value in next.orders
    requires record.response.Some? && record.response.value.orderId == record.resource.value
    ensures RequestsOk(next)
  {
    forall k | k in next.requests ensures RequestOk(next, k) {
      assert k != key ==> RequestOk(db, k);
    }
  }

  lemma {:induction false} RequestsSame(db: Db, next: Db)
    requires RequestsOk(db) && next.requests == db.requests
    requires forall id :: id in db.orders ==> id in next.orders
    ensures RequestsOk(next)
  {
    forall k | k in next.requests ensures RequestOk(next, k) {
      assert RequestOk(db, k);
    }
  }

  /** What a write of one order must establish about it. */
  ghost predicate GoodWrite(db: Db, id: string, v: View) {
    && v.row.id == id
    && OrderInv(v.row, v.items, LogOf(db.outbox, id) + v.out)
    && (id in db.orders ==>
          && Advances(db.orders[id], v.row)
          && (db.orders[id].version == v.row.version ==> v.items == ItemsOf(db, id)))
  }

  lemma {:induction false} WriteKeeps(db: Db, next: Db, id: string, v: View)
    requires OrdersOk(db) && WritesOnly(db, next, id, v) && GoodWrite(db, id, v)
    ensures OrdersOk(next) && DbAdvances(db, next)
  {
    WriteKeepsOrders(db, next, id, v);
    WriteAdvances(db, next, id, v);
  }

  // ----------------------------------------------------------------- each action

  lemma {:induction false} InsertIsGood(db: Db, r: CreateRequest, order: OrderValue)
    requires OrdersOk(db) && ValidDraft(r.orderId, r.customerId, r.currency, r.items, r.now)
    requires order == DraftOf(r) && r.orderId !in db.orders
    ensures GoodWrite(db, r.orderId,
            View(order.row, order.items, CreationMessages(order, r.sagaId, r.eventId, r.commandId)))
  {
    var out := CreationMessages(order, r.sagaId, r.eventId, r.commandId);
    CreationKeeps(r.orderId, r.customerId, Normal(r.currency), r.items, r.now.nanos, r.sagaId, r.eventId, r.commandId);
    assert LogOf(db.outbox, r.orderId) + out == out;
  }

  lemma {:induction false} InsertKeeps(db: Db, r: CreateRequest, order: OrderValue)
    requires DbInv(db) && ValidDraft(r.orderId, r.customerId, r.currency, r.items, r.now)
    requires order == DraftOf(r) && r.orderId !in db.orders
    ensures DbInv(InsertedOrder(db, r, order)) && DbAdvances(db, InsertedOrder(db, r, order))
  {
    InsertIsGood(db, r, order);
    InsertedKeeps(db, InsertedOrder(db, r, order), r, order);
  }

  lemma {:induction false} InsertedKeeps(db: Db, next: Db, r: CreateRequest, order: OrderValue)
    requires DbInv(db) && next == InsertedOrder(db, r, order)
    requires GoodWrite(db, order.row.id,
             View(order.row, order.items, CreationMessages(order, r.sagaId, r.eventId, r.commandId)))
    ensures DbInv(next) && DbAdvances(db, next)
  {
    RequestAdded(db, next, r.key, next.requests[r.key]);
    WriteKeeps(db, next, order.row.id,
               View(order.row, order.items, CreationMessages(order, r.sagaId, r.eventId, r.commandId)));
  }

  lemma {:induction false} CreateKeeps(db: Db, r: CreateRequest)
    requires DbInv(db)
    ensures DbInv(Create(db, r)) && DbAdvances(db, Create(db, r))
  {
    var o := CreateOutcome(db, r);
    if o.Ok? && !o.value.replayed {
      DraftAcceptedIff(r.orderId, r.customerId, r.currency, r.items, r.now);
      InsertKeeps(db, r, o.value.order);
    } else {
      SameOrdersAdvance(db, db);
    }
  }

  function CancelView(db: Db, c: CancelRequest): View
    requires c.orderId in db.orders && c.orderId in db.sagas
  {
    var row := CancelledRow(db.orders[c.orderId], c.now);
    View(row, ItemsOf(db, c.orderId), CancellationMessages(row, db.sagas[c.orderId], c.eventId, c.commandId, c.reason))
  }

  lemma {:induction false} CancelIsGood(db: Db, c: CancelRequest)
    requires OrdersOk(db) && c.orderId in db.orders && c.orderId in db.sagas
    requires Cancellable(db.orders[c.orderId], c.expectedVersion)
    ensures GoodWrite(db, c.orderId, CancelView(db, c))
  {
    var id := c.orderId;
    assert OrderOk(db, id);
    CancellationKeeps(db.orders[id], ItemsOf(db, id), LogOf(db.outbox, id), c.expectedVersion,
                      db.sagas[id], c.eventId, c.commandId, c.reason, c.now);
  }

  lemma {:induction false} CancelKeeps(db: Db, c: CancelRequest)
    requires DbInv(db)
    ensures DbInv(Cancel(db, c)) && DbAdvances(db, Cancel(db, c))
  {
    if c.key in db.requests || CancelOutcome(db, c).Err? {
      SameOrdersAdvance(db, db);
    } else {
      CancelIsGood(db, c);
      CancelledKeeps(db, Cancel(db, c), c, CancelView(db, c));
    }
  }

  lemma {:induction false} CancelledKeeps(db: Db, next: Db, c: CancelRequest, v: View)
    requires DbInv(db) && c.orderId in db.orders && GoodWrite(db, c.orderId, v)
    requires next == WriteOrder(db, c.orderId, v)
             .(requests := db.requests[c.key := RequestRecord(c.hash, Some(v.row.id),
               Some(AcceptedResponse(v.row, v.row.updatedAt)))])
    ensures DbInv(next) && DbAdvances(db, next)
  {
    RequestAdded(db, next, c.key, next.requests[c.key]);
    WriteKeeps(db, next, c.orderId, v);
  }

  lemma {:induction false} CommitIsGood(db: Db, at: Attempt, quoteOk: bool, now: int)
    requires OrdersOk(db) && AttemptOk(db, at) && HandleAttempt(db, at, quoteOk, now).Applied?
    ensures at.e.orderId in db.orders
    ensures GoodWrite(db, at.e.orderId, HandleAttempt(db, at, quoteOk, now).view)
  {
    var id := at.e.orderId;
    assert OrderOk(db, id);
    CommitIsSerialOrRepeats(db.orders[id], ItemsOf(db, id), LogOf(db.outbox, id),
                            OrderValue(at.row.value, at.items.value), at.e, quoteOk, now);
  }

  lemma {:induction false} CommitKeeps(db: Db, at: Attempt, quoteOk: bool, now: int)
    requires DbInv(db) && AttemptOk(db, at)
    ensures DbInv(CommitAttempt(db, at, quoteOk, now)) && DbAdvances(db, CommitAttempt(db, at, quoteOk, now))
  {
    var o := HandleAttempt(db, at, quoteOk, now);
    if o.Applied? {
      CommitIsGood(db, at, quoteOk, now);
      CommittedKeeps(db, CommitAttempt(db, at, quoteOk, now), at, o.view);
    } else {
      SameOrdersAdvance(db, db);
    }
  }

  lemma {:induction false} CommittedKeeps(db: Db, next: Db, at: Attempt, v: View)
    requires DbInv(db) && at.e.orderId in db.orders && GoodWrite(db, at.e.orderId, v)
    requires next == WriteOrder(db, at.e.orderId, v).(inbox := MarkInboxProcessed(InboxView(db, at), at.key))
    ensures DbInv(next) && DbAdvances(db, next)
  {
    RequestsSame(db, next);
    WriteKeeps(db, next, at.e.orderId, v);
  }

  lemma {:induction false} InboxKeeps(db: Db, next: Db)
    requires DbInv(db) && next == db.(inbox := next.inbox)
    requires InboxOk(next)
    ensures DbInv(next) && DbAdvances(db, next)
  {
    SameOrdersAdvance(db, next);
    forall id | id in next.orders ensures OrderOk(next, id) {
      assert OrderOk(db, id);
    }
    RequestsSame(db, next);
  }

  lemma {:induction false} ReadRowKeeps(db: Db, at: Attempt)
    requires DbInv(db) && AttemptOk(db, at)
    ensures AttemptOk(db, ReadRow(db, at))
  {
    if at.e.orderId in db.orders {
      assert OrderOk(db, at.e.orderId);
    }
  }

  lemma {:induction false} ReadItemsKeeps(db: Db, at: Attempt)
    requires DbInv(db) && AttemptOk(db, at)
    ensures AttemptOk(db, ReadItems(db, at))
  {
    if at.row.Some? {
      assert OrderOk(db, at.e.orderId);
    }
  }

  lemma {:induction false} StepDbKeeps(w: World, act: Action)
    requires WorldInv(w)
    ensures DbInv(Step(w, act).db) && DbAdvances(w.db, Step(w, act).db)
  {
    match act
    case CreateOrder(r) => CreateKeeps(w.db, r);
    case CancelOrder(c) => CancelKeeps(w.db, c);
    case Commit(a, quoteOk, now) =>
      if a in w.attempts { CommitKeeps(w.db, w.attempts[a], quoteOk, now); } else { SameOrdersAdvance(w.db, w.db); }
    case Fail(group, p) => InboxKeeps(w.db, RecordFailure(w.db, group, p));
    case DeadLetter(k) => InboxKeeps(w.db, MarkDeadLetter(w.db, k));
    case _ => SameOrdersAdvance(w.db, w.db);
  }

  lemma {:induction false} StepInboxGrows(w: World, act: Action)
    ensures InboxGrows(w.db, Step(w, act).db)
  {}

  lemma {:induction false} StepKeeps(w: World, act: Action)
    requires WorldInv(w)
    ensures WorldInv(Step(w, act)) && DbAdvances(w.db, Step(w, act).db)
  {
    StepDbKeeps(w, act);
    StepInboxGrows(w, act);
    match act
    case LoadRow(a) => if a in w.attempts { ReadRowKeeps(w.db, w.attempts[a]); }
    case LoadItems(a) => if a in w.attempts { ReadItemsKeeps(w.db, w.attempts[a]); }
    case Open(a, group, p) =>
    case _ => AttemptsSurvive(w, Step(w, act));
  }

  /** Every reachable state of the store satisfies the invariant. */
  lemma {:induction false} RunKeeps(actions: seq<Action>)
    ensures WorldInv(Run(actions))
  {
    if actions != [] {
      RunKeeps(actions[..|actions| - 1]);
      StepKeeps(Run(actions[..|actions| - 1]), actions[|actions| - 1]);
    }
  }
}
