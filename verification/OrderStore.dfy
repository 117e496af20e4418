/** The orders store as an object whose methods run one transaction each. */
module OrderStore {
  import opened Basics
  import opened OrderAggregate
  import opened Saga
  import opened StoreModel
  import opened FactTransaction

  class Store {
    var orders: map<string, OrderRow>
    var items: map<string, seq<Item>>
    var sagas: map<string, string>
    var outbox: seq<Message>
    var inbox: InboxTable
    var requests: map<RequestKey, RequestRecord>

    constructor ()
      ensures Tables() == EMPTY
    {
      orders, items, sagas, outbox, inbox, requests := map[], map[], map[], [], map[], map[];
    }

    function Tables(): Db
      reads this
    {
      Db(orders, items, sagas, outbox, inbox, requests)
    }

    /** INSERT ... ON CONFLICT DO NOTHING. */
    method InsertIdempotency(key: RequestKey, record: RequestRecord) returns (inserted: nat)
      modifies this`requests
      ensures inserted == if key in old(requests) then 0 else 1
      ensures requests == if key in old(requests) then old(requests) else old(requests)[key := record]
    {
      if key in requests { return 0; }
      requests := requests[key := record];
      inserted := 1;
    }

    /** The service checks the draft, the store inserts it or replays the recorded response. */
    method Create(r: CreateRequest) returns (result: Result<CreateResult, StoreError>)
      modifies this
      ensures result == CreateOutcome(old(Tables()), r)
      ensures Tables() == StoreModel.Create(old(Tables()), r)
    {
      var draft := NewOrder(r.orderId, r.customerId, r.currency, r.items, r.now);
      DraftAcceptedIff(r.orderId, r.customerId, r.currency, r.items, r.now);
      if draft.Err? { return Err(InvalidInput(draft.error)); }
      var order := draft.value;
      var accepted := Response(order.row.id, order.row.status, order.row.createdAt);
      var inserted := InsertIdempotency(r.key, RequestRecord(r.hash, Some(order.row.id), Some(accepted)));
      if inserted == 0 {
        result := Replay(r);
        return;
      }
      if order.row.id in orders {
        requests := requests - {r.key};
        assert requests == old(requests);
        return Err(Conflict);
      }
      WriteCreation(r, order);
      result := Ok(CreateResult(order, false, accepted));
    }

    /** The rows and messages of a new order. */
    method WriteCreation(r: CreateRequest, order: OrderValue)
      requires r.key in requests && requests[r.key] ==
               RequestRecord(r.hash, Some(order.row.id), Some(AcceptedResponse(order.row, order.row.createdAt)))
      modifies this`orders, this`items, this`sagas, this`outbox
      ensures Tables() == InsertedOrder(old(Tables()), r, order)
    {
      orders := orders[order.row.id := order.row];
      items := items[order.row.id := order.items];
      sagas := sagas[order.row.id := r.sagaId];
      outbox := outbox + CreationMessages(order, r.sagaId, r.eventId, r.commandId);
      assert requests[r.key := requests[r.key]] == requests;
    }

    method Replay(r: CreateRequest) returns (result: Result<CreateResult, StoreError>)
      requires r.key in requests && DraftError(r.orderId, r.customerId, r.currency, r.items, r.now).None?
      ensures result == CreateOutcome(Tables(), r)
    {
      var record := requests[r.key];
      if record.hash != r.hash { return Err(IdempotencyConflict); }
      if record.resource.None? || record.resource.value !in orders { return Err(NotFound); }
      var id := record.resource.value;
      var replayed := OrderValue(orders[id], if id in items then items[id] else []);
      var accepted := Response(replayed.row.id, replayed.row.status, replayed.row.createdAt);
      if record.response.Some? { accepted := record.response.value; }
      result := Ok(CreateResult(replayed, true, accepted));
    }

    method RequestCancellation(c: CancelRequest) returns (result: Result<OrderRow, StoreError>)
      modifies this
      ensures result == CancelOutcome(old(Tables()), c)
      ensures Tables() == StoreModel.Cancel(old(Tables()), c)
    {
      var inserted := InsertIdempotency(c.key, RequestRecord(c.hash, None, None));
      if inserted == 0 {
        var record := requests[c.key];
        if record.hash != c.hash { return Err(IdempotencyConflict); }
        if record.resource.None? || record.resource.value !in orders { return Err(NotFound); }
        return Ok(orders[record.resource.value]);
      }
      if c.orderId !in orders || orders[c.orderId].version != c.expectedVersion
         || !(orders[c.orderId].status == Pending || orders[c.orderId].status == Confirmed) || c.orderId !in sagas {
        requests := requests - {c.key};
        assert requests == old(requests);
        return Err(NotFound);
      }
      var row := WriteCancellation(c);
      result := Ok(row);
    }

    /** The writes of a cancellation that passed its guards. */
    method WriteCancellation(c: CancelRequest) returns (row: OrderRow)
      requires c.orderId in orders && c.orderId in sagas
      modifies this
      ensures row == CancelledRow(old(orders)[c.orderId], c.now)
      ensures Tables() == WriteOrder(old(Tables()), c.orderId,
          View(row, ItemsOf(old(Tables()), c.orderId),
               CancellationMessages(row, old(sagas)[c.orderId], c.eventId, c.commandId, c.reason)))
        .(requests := old(requests)[c.key := RequestRecord(c.hash, Some(row.id), Some(AcceptedResponse(row, c.now)))])
    {
      row := orders[c.orderId].(status := CancelRequested, version := orders[c.orderId].version + 1,
        updatedAt := c.now);
      orders := orders[c.orderId := row];
      items := items[c.orderId := if c.orderId in items then items[c.orderId] else []];
      requests := requests[c.key := RequestRecord(c.hash, Some(row.id),
        Some(Response(row.id, row.status, row.updatedAt)))];
      outbox := outbox + CancellationMessages(row, sagas[c.orderId], c.eventId, c.commandId, c.reason);
    }

    /** The inbox insert of a fact transaction. */
    method BeginFact(group: string, p: Payload) returns (at: Option<Attempt>)
      ensures at == OpenAttempt(Tables(), group, p)
    {
      if p.Malformed? || !Admissible(p.envelope) { return None; }
      var k := InboxKey(group, p.envelope.eventId);
      if k !in inbox { return Some(Attempt(k, p.envelope, true, None, None)); }
      if inbox[k].status == Processed || inbox[k].status == DeadLettered { return None; }
      at := Some(Attempt(k, p.envelope, false, None, None));
    }

    /** The inbox row of the fact's own transaction, not yet visible to others. */
    method InsertInboxRow(k: InboxKey) returns (inserted: nat)
      modifies this`inbox
      ensures inserted == if k in old(inbox) then 0 else 1
      ensures inbox == InsertInbox(old(inbox), k)
    {
      if k in inbox { return 0; }
      inbox := inbox[k := InboxRow(Received, 1)];
      inserted := 1;
    }

    method MarkProcessed(k: InboxKey)
      modifies this`inbox
      ensures inbox == MarkInboxProcessed(old(inbox), k)
    {
      if k in inbox {
        inbox := inbox[k := InboxRow(Processed, inbox[k].attempts)];
      }
    }

    /** The inbox insert, the guarded writes, the inbox update and the commit or rollback. */
    method CommitFact(at: Attempt, quoteOk: bool, now: int) returns (ok: bool)
      modifies this
      ensures Tables() == CommitAttempt(old(Tables()), at, quoteOk, now)
      ensures ok == HandleAttempt(old(Tables()), at, quoteOk, now).Applied?
    {
      var id := at.e.orderId;
      if at.row.None? || at.items.None? || id !in orders { return false; }
      var before := inbox;
      if at.inserted {
        var inserted := InsertInboxRow(at.key);
        if inserted == 0 { return false; }
      }
      var tx := new Transaction(orders[id], if id in items then items[id] else []);
      ok := tx.ApplyFact(OrderValue(at.row.value, at.items.value), at.e, quoteOk, now);
      if !ok {
        inbox := before;
        return;
      }
      orders := orders[id := tx.row];
      items := items[id := tx.items];
      outbox := outbox + tx.out;
      MarkProcessed(at.key);
    }

    /** A fact processed with nothing in between. */
    method ProcessFact(group: string, p: Payload, quoteOk: bool, now: int) returns (ok: bool)
      modifies this
      ensures p.Malformed? || !Admissible(p.envelope) ==> !ok && Tables() == old(Tables())
      ensures p.Json? && Admissible(p.envelope) ==>
        var k := InboxKey(group, p.envelope.eventId);
        var was := old(Tables());
        if Settled(was, k) then ok && Tables() == was
        else
          var o := FactAlone(was, p.envelope, quoteOk, now);
          ok == o.Applied? && Tables() == FactWrites(was, k, p.envelope.orderId, o)
    {
      var begun := BeginFact(group, p);
      if begun.None? {
        return p.Json? && Admissible(p.envelope);
      }
      var at := begun.value;
      var id := at.e.orderId;
      if id !in orders { return false; }
      at := at.(row := Some(orders[id]), items := Some(if id in items then items[id] else []));
      ok := CommitFact(at, quoteOk, now);
    }

    /** Upserts the retry state; reports when the message is to be quarantined. */
    method RecordFactFailure(group: string, p: Payload) returns (quarantined: bool, attempts: nat)
      modifies this`inbox
      ensures Tables() == RecordFailure(old(Tables()), group, p)
      ensures HasInboxIdentity(p) ==>
        var k := InboxKey(group, p.envelope.eventId); attempts == inbox[k].attempts && quarantined == (attempts >= 8)
      ensures !HasInboxIdentity(p) ==> quarantined && attempts == 0
    {
      if !HasInboxIdentity(p) { return true, 0; }
      var k := InboxKey(group, p.envelope.eventId);
      attempts := 1;
      if k in inbox { attempts := inbox[k].attempts + 1; }
      inbox := inbox[k := InboxRow(Retry, attempts)];
      quarantined := attempts >= 8;
    }

    method MarkFactDeadLetter(k: InboxKey)
      modifies this`inbox
      ensures Tables() == MarkDeadLetter(old(Tables()), k)
    {
      if k in inbox {
        inbox := inbox[k := InboxRow(DeadLettered, inbox[k].attempts)];
      }
    }
  }
}
