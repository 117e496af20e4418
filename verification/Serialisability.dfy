/** Every run of the store is equivalent to its committed transactions executed
    one after the other. */
module Serialisability {
  import opened Basics
  import opened OrderAggregate
  import opened Saga
  import opened SagaInvariant
  import opened SagaPreservation
  import opened SagaInterleaving
  import opened StoreModel
  import opened StoreInvariant
  import opened StoreTheorems
  import opened StoreDelivery

  // ----------------------------------------------------------- transactions alone

  datatype SerialOp =
    | SerialCreate(create: CreateRequest)
    | SerialCancel(cancel: CancelRequest)
    | SerialFact(key: InboxKey, e: Envelope, quoteOk: bool, now: int)

  ghost function SerialStep(db: Db, op: SerialOp): Db {
    match op
    case SerialCreate(r) => Create(db, r)
    case SerialCancel(c) => Cancel(db, c)
    case SerialFact(k, e, quoteOk, now) => FactWrites(db, k, e.orderId, FactAlone(db, e, quoteOk, now))
  }

  /** The messages a transaction adds to the outbox. */
  ghost function Emitted(db: Db, op: SerialOp): seq<Message> {
    match op
    case SerialCreate(r) =>
      var o := CreateOutcome(db, r);
      if o.Ok? && !o.value.replayed then CreationMessages(o.value.order, r.sagaId, r.eventId, r.commandId) else []
    case SerialCancel(c) =>
      if c.key in db.requests || CancelOutcome(db, c).Err? then [] else CancelView(db, c).out
    case SerialFact(_, e, quoteOk, now) =>
      var o := FactAlone(db, e, quoteOk, now);
      if o.Applied? then o.view.out else []
  }

  /** What a transaction returns to its caller. */
  datatype Answer =
    | CreateAnswer(created: Result<CreateResult, StoreError>)
    | CancelAnswer(cancelled: Result<OrderRow, StoreError>)
    | FactAnswer(applied: bool)

  ghost function SerialAnswer(db: Db, op: SerialOp): Answer {
    match op
    case SerialCreate(r) => CreateAnswer(CreateOutcome(db, r))
    case SerialCancel(c) => CancelAnswer(CancelOutcome(db, c))
    case SerialFact(_, e, quoteOk, now) => FactAnswer(FactAlone(db, e, quoteOk, now).Applied?)
  }

  ghost function RunFrom(db: Db, ops: seq<SerialOp>): Db {
    if ops == [] then db else SerialStep(RunFrom(db, ops[..|ops| - 1]), ops[|ops| - 1])
  }

  /** Orders, items, sagas and request records: all that a transaction reads. */
  ghost predicate SameCore(a: Db, b: Db) {
    a.orders == b.orders && a.items == b.items && a.sagas == b.sagas && a.requests == b.requests
  }

  lemma {:induction false} CoreCreateOutcome(a: Db, b: Db, r: CreateRequest)
    requires SameCore(a, b)
    ensures CreateOutcome(a, r) == CreateOutcome(b, r)
  {}

  lemma {:induction false} CoreInsert(a: Db, b: Db, r: CreateRequest, order: OrderValue)
    requires SameCore(a, b)
    ensures SameCore(InsertedOrder(a, r, order), InsertedOrder(b, r, order))
  {}

  lemma {:induction false} CoreCreate(a: Db, b: Db, r: CreateRequest)
    requires SameCore(a, b)
    ensures SameCore(Create(a, r), Create(b, r)) && CreateOutcome(a, r) == CreateOutcome(b, r)
  {
    CoreCreateOutcome(a, b, r);
    var o := CreateOutcome(a, r);
    if o.Ok? { CoreInsert(a, b, r, o.value.order); }
  }

  lemma {:induction false} CoreCancel(a: Db, b: Db, c: CancelRequest)
    requires SameCore(a, b)
    ensures SameCore(Cancel(a, c), Cancel(b, c)) && CancelOutcome(a, c) == CancelOutcome(b, c)
  {}

  lemma {:induction false} CoreFact(a: Db, b: Db, e: Envelope, quoteOk: bool, now: int)
    requires SameCore(a, b)
    ensures FactAlone(a, e, quoteOk, now) == FactAlone(b, e, quoteOk, now)
  {}

  lemma {:induction false} CoreWrites(a: Db, b: Db, k: InboxKey, id: string, o: Outcome)
    requires SameCore(a, b)
    ensures SameCore(FactWrites(a, k, id, o), FactWrites(b, k, id, o))
  {}

  /** The transaction has the same effect on the cores, and the same messages and answer. */
  ghost predicate StepsAlike(a: Db, b: Db, op: SerialOp) {
    && SameCore(SerialStep(a, op), SerialStep(b, op))
    && Emitted(a, op) == Emitted(b, op) && SerialAnswer(a, op) == SerialAnswer(b, op)
  }

  lemma {:induction false} CoreCreateStep(a: Db, b: Db, r: CreateRequest)
    requires SameCore(a, b)
    ensures StepsAlike(a, b, SerialCreate(r))
  {
    CoreCreate(a, b, r);
  }

  lemma {:induction false} CoreCancelStep(a: Db, b: Db, c: CancelRequest)
    requires SameCore(a, b)
    ensures StepsAlike(a, b, SerialCancel(c))
  {
    CoreCancel(a, b, c);
  }

  lemma {:induction false} CoreFactStep(a: Db, b: Db, k: InboxKey, e: Envelope, quoteOk: bool, now: int)
    requires SameCore(a, b)
    ensures StepsAlike(a, b, SerialFact(k, e, quoteOk, now))
  {
    CoreFact(a, b, e, quoteOk, now);
    CoreWrites(a, b, k, e.orderId, FactAlone(a, e, quoteOk, now));
  }

  /** A transaction's effect, messages and answer depend only on the core. */
  lemma {:induction false} CoreStep(a: Db, b: Db, op: SerialOp)
    requires SameCore(a, b)
    ensures StepsAlike(a, b, op)
  {
    match op
    case SerialCreate(r) => CoreCreateStep(a, b, r);
    case SerialCancel(c) => CoreCancelStep(a, b, c);
    case SerialFact(k, e, quoteOk, now) => CoreFactStep(a, b, k, e, quoteOk, now);
  }

  lemma {:induction false} StepAppends(db: Db, op: SerialOp)
    ensures SerialStep(db, op).outbox == db.outbox + Emitted(db, op)
  {
    assert db.outbox + [] == db.outbox;
  }

  lemma {:induction false} RunFromAppend(db: Db, a: seq<SerialOp>, b: seq<SerialOp>)
    ensures RunFrom(db, a + b) == RunFrom(RunFrom(db, a), b)
  {
    if b == [] {
      assert a + b == a;
    } else {
      assert (a + b)[..|a + b| - 1] == a + b[..|b| - 1];
      RunFromAppend(db, a, b[..|b| - 1]);
    }
  }

  lemma {:induction false} RunFromOne(db: Db, ops: seq<SerialOp>, op: SerialOp)
    ensures RunFrom(db, ops + [op]) == SerialStep(RunFrom(db, ops), op)
  {
    assert (ops + [op])[..|ops|] == ops;
  }

  /** Two stores with equal cores that have sent the same messages since a and b. */
  ghost predicate InStep(a: Db, b: Db, x: Db, y: Db, out: seq<Message>) {
    SameCore(x, y) && x.outbox == a.outbox + out && y.outbox == b.outbox + out
  }

  lemma {:induction false} SendsAlike(x: Db, y: Db, op: SerialOp) returns (sent: seq<Message>)
    requires SameCore(x, y)
    ensures InStep(x, y, SerialStep(x, op), SerialStep(y, op), sent)
  {
    sent := Emitted(x, op);
    CoreStep(x, y, op);
    StepAppends(x, op);
    StepAppends(y, op);
  }

  lemma {:induction false} InStepTwice(a: Db, b: Db, x: Db, y: Db, out: seq<Message>, x2: Db, y2: Db,
                                       sent: seq<Message>)
    requires InStep(a, b, x, y, out) && InStep(x, y, x2, y2, sent)
    ensures InStep(a, b, x2, y2, out + sent)
  {
    assert a.outbox + (out + sent) == (a.outbox + out) + sent && b.outbox + (out + sent) == (b.outbox + out) + sent;
  }

  /** From equal cores the same transactions keep equal cores and send the same messages. */
  lemma {:induction false} CoreRun(a: Db, b: Db, ops: seq<SerialOp>) returns (out: seq<Message>)
    requires SameCore(a, b)
    ensures InStep(a, b, RunFrom(a, ops), RunFrom(b, ops), out)
  {
    if ops == [] {
      out := [];
    } else {
      var n := |ops| - 1;
      var before := CoreRun(a, b, ops[..n]);
      var x, y := RunFrom(a, ops[..n]), RunFrom(b, ops[..n]);
      var sent := SendsAlike(x, y, ops[n]);
      InStepTwice(a, b, x, y, before, RunFrom(a, ops), RunFrom(b, ops), sent);
      out := before + sent;
    }
  }

  // ------------------------------------------------------------------ order events

  function EventsOf(outbox: seq<Message>): seq<Message> {
    if outbox == [] then []
    else EventsOf(outbox[..|outbox| - 1]) +
         (if Announces(outbox[|outbox| - 1].body).Some? then [outbox[|outbox| - 1]] else [])
  }

  lemma {:induction false} EventsOfAppend(a: seq<Message>, b: seq<Message>)
    ensures EventsOf(a + b) == EventsOf(a) + EventsOf(b)
  {
    if b == [] {
      assert a + b == a;
    } else {
      assert (a + b)[..|a + b| - 1] == a + b[..|b| - 1];
      EventsOfAppend(a, b[..|b| - 1]);
    }
  }

  ghost predicate Commands(out: seq<Message>) {
    forall k :: 0 <= k < |out| ==> Announces(out[k].body).None?
  }

  lemma {:induction false} CommandsHaveNoEvents(out: seq<Message>)
    requires Commands(out)
    ensures EventsOf(out) == []
  {
    if out != [] {
      CommandsHaveNoEvents(out[..|out| - 1]);
    }
  }

  lemma {:induction false} CommandsBetween(log: seq<Message>, m: seq<Message>, out: seq<Message>)
    requires Commands(m)
    ensures EventsOf(log + m + out) == EventsOf(log + out)
    ensures multiset(log + m + out) == multiset(log + out) + multiset(m)
  {
    EventsOfAppend(log + m, out);
    EventsOfAppend(log, m);
    EventsOfAppend(log, out);
    CommandsHaveNoEvents(m);
    assert EventsOf(log) + [] == EventsOf(log);
  }

  /** After a transaction that leaves the core alone, later transactions send what they
      would have sent without it. */
  lemma {:induction false} QuietThen(d: Db, x: SerialOp, m: seq<Message>, post: seq<SerialOp>)
    requires SameCore(SerialStep(d, x), d) && Emitted(d, x) == m && Commands(m)
    ensures var with, without := RunFrom(SerialStep(d, x), post), RunFrom(d, post);
            && EventsOf(with.outbox) == EventsOf(without.outbox)
            && multiset(with.outbox) == multiset(without.outbox) + multiset(m)
  {
    StepAppends(d, x);
    var out := CoreRun(SerialStep(d, x), d, post);
    CommandsBetween(d.outbox, m, out);
  }

  // ----------------------------------------------------------- committed transactions

  ghost predicate CommittedAt(w: World, act: Action) {
    match act
    case CreateOrder(r) => CreateOutcome(w.db, r).Ok?
    case CancelOrder(c) => CancelOutcome(w.db, c).Ok?
    case Commit(a, quoteOk, now) => a in w.attempts && HandleAttempt(w.db, w.attempts[a], quoteOk, now).Applied?
    case _ => false
  }

  ghost function OpAt(w: World, act: Action): SerialOp
    requires CommittedAt(w, act)
  {
    match act
    case CreateOrder(r) => SerialCreate(r)
    case CancelOrder(c) => SerialCancel(c)
    case Commit(a, quoteOk, now) => SerialFact(w.attempts[a].key, w.attempts[a].e, quoteOk, now)
  }

  ghost function AnswerAt(w: World, act: Action): Answer
    requires CommittedAt(w, act)
  {
    match act
    case CreateOrder(r) => CreateAnswer(CreateOutcome(w.db, r))
    case CancelOrder(c) => CancelAnswer(CancelOutcome(w.db, c))
    case Commit(_, _, _) => FactAnswer(true)
  }

  ghost function SentAt(w: World, act: Action): seq<Message>
    requires CommittedAt(w, act)
  {
    if act.Commit? then HandleAttempt(w.db, w.attempts[act.a], act.quoteOk, act.now).view.out
    else Emitted(w.db, OpAt(w, act))
  }

  ghost predicate IsStale(w: World, act: Action)
    requires CommittedAt(w, act)
  {
    act.Commit? && w.attempts[act.a].row.value.version != w.db.orders[w.attempts[act.a].e.orderId].version
  }

  lemma {:induction false} UncommittedStep(w: World, act: Action)
    requires !CommittedAt(w, act)
    ensures SameCore(Step(w, act).db, w.db) && Step(w, act).db.outbox == w.db.outbox
  {}

  lemma {:induction false} FreshCommitIsSerial(w: World, act: Action)
    requires WorldInv(w) && act.Commit? && CommittedAt(w, act) && !IsStale(w, act)
    ensures Step(w, act).db == SerialStep(w.db, OpAt(w, act))
    ensures SentAt(w, act) == Emitted(w.db, OpAt(w, act)) && AnswerAt(w, act) == SerialAnswer(w.db, OpAt(w, act))
  {
    FreshAttempt(w.db, w.attempts[act.a], act.quoteOk, act.now);
  }

  /** Exactly when a committed fact is serial at its commit: in every run, the fact run
      alone at the moment of its commit has the same outcome if and only if its row is
      up to date, or the stored row gives it no more and no less to do. */
  lemma {:induction false} RunCommitSerialIff(actions: seq<Action>, act: Action)
    requires act.Commit? && CommittedAt(Run(actions), act)
    ensures var w := Run(actions); var at := w.attempts[act.a];
            FactAlone(w.db, at.e, act.quoteOk, act.now) == HandleAttempt(w.db, at, act.quoteOk, act.now) <==>
            !IsStale(w, act) || SameAtCommit(at.row.value, w.db.orders[at.e.orderId], at.e)
  {
    RunKeeps(actions);
    var w := Run(actions);
    var at := w.attempts[act.a];
    var id := at.e.orderId;
    assert OrderOk(w.db, id);
    CommitIsSerialOrRepeats(w.db.orders[id], ItemsOf(w.db, id), LogOf(w.db.outbox, id),
                            OrderValue(at.row.value, at.items.value), at.e, act.quoteOk, act.now);
  }

  /** A matching payment for a confirmed order, read before a cancellation is requested. */
  ghost predicate PaymentOvertaken(w: World, a: nat, group: string, e: Envelope, c: CancelRequest) {
    && Admissible(e) && a !in w.attempts && !Settled(w.db, InboxKey(group, e.eventId))
    && e.orderId in w.db.orders && w.db.orders[e.orderId].status == Confirmed
    && e.body.PaymentAuthorized? && ValidPaymentId(e.body.paymentId)
    && e.body.amount.Some? && e.body.amount == w.db.orders[e.orderId].total
    && e.body.currency == w.db.orders[e.orderId].currency
    && c.orderId == e.orderId && c.expectedVersion == w.db.orders[e.orderId].version && c.key !in w.db.requests
  }

  lemma {:induction false} CancelAfterRead(w: World, a: nat, group: string, e: Envelope, c: CancelRequest)
    requires WorldInv(w) && PaymentOvertaken(w, a, group, e, c)
    ensures var next := Step(Delivered(w, a, group, e), CancelOrder(c));
            && next.attempts == w.attempts[a := ReadAttempt(w.db, group, e)]
            && next.db == Cancel(w.db, c) && next.db.inbox == w.db.inbox
            && e.orderId in next.db.orders && next.db.orders[e.orderId] == CancelledRow(w.db.orders[e.orderId], c.now)
  {
    DeliveredReads(w, a, group, e);
  }

  /** A payment read while its order was CONFIRMED, whose cancellation is now requested. */
  ghost predicate Overtaken(db: Db, at: Attempt) {
    && at.e.body.PaymentAuthorized? && at.e.orderId in db.orders && InboxFree(db, at)
    && at.row.Some? && at.items.Some? && at.row.value.status == Confirmed
    && db.orders[at.e.orderId].status == CancelRequested && ValidPaymentId(at.e.body.paymentId)
    && at.e.body.amount.Some? && at.e.body.amount == db.orders[at.e.orderId].total
    && at.e.body.currency == db.orders[at.e.orderId].currency
  }

  lemma {:induction false} OvertakenAlone(db: Db, at: Attempt, quoteOk: bool, now: int)
    requires DbInv(db) && Overtaken(db, at)
    ensures var o := FactAlone(db, at.e, quoteOk, now);
            && o.Applied? && o.view.row.version == db.orders[at.e.orderId].version + 1
            && Sent(o.view.out, RefundPayment(at.e.body.paymentId, at.e.body.amount.value, at.e.body.currency))
  {
    var row := db.orders[at.e.orderId];
    assert OrderOk(db, at.e.orderId);
    LatePaymentEffect(row, ItemsOf(db, at.e.orderId), at.e, quoteOk, now);
    var next := LateRow(row, None, Some(at.e.body.paymentId), now);
    var out := Compensation(next, at.e.sagaId, at.e.eventId, OnCancellation);
    assert out[|out| - 1].body == RefundPayment(at.e.body.paymentId, at.e.body.amount.value, row.currency);
  }

  lemma {:induction false} OvertakenCommit(db: Db, at: Attempt, quoteOk: bool, now: int)
    requires DbInv(db) && Overtaken(db, at)
    ensures HandleAttempt(db, at, quoteOk, now).Applied? && HandleAttempt(db, at, quoteOk, now).view.out == []
    ensures SameCore(CommitAttempt(db, at, quoteOk, now), db)
  {
    ItemsKnown(db, at.e.orderId);
  }

  lemma {:induction false} OvertakenTables(db: Db, at: Attempt, quoteOk: bool, now: int)
    requires DbInv(db) && Overtaken(db, at)
    ensures !SameCore(SerialStep(db, SerialFact(at.key, at.e, quoteOk, now)), db)
    ensures Sent(Emitted(db, SerialFact(at.key, at.e, quoteOk, now)),
                 RefundPayment(at.e.body.paymentId, at.e.body.amount.value, at.e.body.currency))
  {
    OvertakenAlone(db, at, quoteOk, now);
    var next := SerialStep(db, SerialFact(at.key, at.e, quoteOk, now));
    assert next.orders[at.e.orderId].version != db.orders[at.e.orderId].version;
  }

  /** Such a commit that is not serial happens: after any run, a payment fact that was
      read while its order was CONFIRMED and commits after a cancellation request does
      nothing, while alone at that moment it stores the payment and sends its refund. */
  lemma {:induction false} OvertakenPaymentDoesLess(actions: seq<Action>, a: nat, group: string, e: Envelope,
                                                    c: CancelRequest, quoteOk: bool, now: int)
    requires PaymentOvertaken(Run(actions), a, group, e, c)
    ensures var w := Step(Delivered(Run(actions), a, group, e), CancelOrder(c));
            && CommittedAt(w, Commit(a, quoteOk, now)) && IsStale(w, Commit(a, quoteOk, now))
            && SentAt(w, Commit(a, quoteOk, now)) == []
            && SameCore(Step(w, Commit(a, quoteOk, now)).db, w.db)
            && !SameCore(SerialStep(w.db, SerialFact(InboxKey(group, e.eventId), e, quoteOk, now)), w.db)
            && Sent(Emitted(w.db, SerialFact(InboxKey(group, e.eventId), e, quoteOk, now)),
                    RefundPayment(e.body.paymentId, e.body.amount.value, e.body.currency))
  {
    RunKeeps(actions);
    CancelAfterRead(Run(actions), a, group, e, c);
    OvertakenWorld(Run(actions), Step(Delivered(Run(actions), a, group, e), CancelOrder(c)), a, group, e, c, quoteOk,
                   now);
  }

  lemma {:induction false} OvertakenWorld(before: World, w: World, a: nat, group: string, e: Envelope,
                                          c: CancelRequest, quoteOk: bool, now: int)
    requires WorldInv(before) && PaymentOvertaken(before, a, group, e, c)
    requires w == World(Cancel(before.db, c), before.attempts[a := ReadAttempt(before.db, group, e)])
    requires w.db.inbox == before.db.inbox && e.orderId in w.db.orders
    requires w.db.orders[e.orderId] == CancelledRow(before.db.orders[e.orderId], c.now)
    ensures var act := Commit(a, quoteOk, now);
            && CommittedAt(w, act) && IsStale(w, act) && SentAt(w, act) == [] && SameCore(Step(w, act).db, w.db)
            && !SameCore(SerialStep(w.db, SerialFact(InboxKey(group, e.eventId), e, quoteOk, now)), w.db)
            && Sent(Emitted(w.db, SerialFact(InboxKey(group, e.eventId), e, quoteOk, now)),
                    RefundPayment(e.body.paymentId, e.body.amount.value, e.body.currency))
  {
    CancelKeeps(before.db, c);
    OvertakenCommit(w.db, w.attempts[a], quoteOk, now);
    OvertakenTables(w.db, w.attempts[a], quoteOk, now);
  }

  lemma {:induction false} PromptStep(w: World, act: Action)
    requires WorldInv(w) && CommittedAt(w, act) && !IsStale(w, act)
    ensures SameCore(Step(w, act).db, SerialStep(w.db, OpAt(w, act)))
    ensures Step(w, act).db.outbox == w.db.outbox + SentAt(w, act)
    ensures SentAt(w, act) == Emitted(w.db, OpAt(w, act)) && AnswerAt(w, act) == SerialAnswer(w.db, OpAt(w, act))
  {
    StepAppends(w.db, OpAt(w, act));
    if act.Commit? { FreshCommitIsSerial(w, act); }
  }

  lemma {:induction false} StaleStep(w: World, act: Action)
    requires WorldInv(w) && CommittedAt(w, act) && IsStale(w, act)
    ensures SameCore(Step(w, act).db, w.db) && Commands(SentAt(w, act))
    ensures Step(w, act).db.outbox == w.db.outbox + SentAt(w, act)
  {
    StaleCommitRepeats(w.db, w.attempts[act.a], act.quoteOk, act.now);
  }

  // --------------------------------------------------------------------- row reads

  ghost predicate Carries(w: World, a: nat, e: Envelope, row: OrderRow) {
    a in w.attempts && w.attempts[a].e == e && w.attempts[a].row == Some(row)
  }

  /** Attempt a read the row at position p and has carried it since, up to position q. */
  ghost predicate ReadSince(actions: seq<Action>, p: nat, q: nat, a: nat, e: Envelope, row: OrderRow)
    requires q <= |actions|
  {
    && p < q && actions[p] == LoadRow(a)
    && e.orderId in Run(actions[..p]).db.orders && Run(actions[..p]).db.orders[e.orderId] == row
    && forall m :: p < m <= q ==> Carries(Run(actions[..m]), a, e, row)
  }

  lemma {:induction false} CarriedOrRead(w: World, act: Action, a: nat, e: Envelope, row: OrderRow)
    requires Carries(Step(w, act), a, e, row)
    ensures Carries(w, a, e, row) || (act == LoadRow(a) && e.orderId in w.db.orders && w.db.orders[e.orderId] == row)
  {}

  lemma {:induction false} RowWasRead(actions: seq<Action>, a: nat, e: Envelope, row: OrderRow) returns (p: nat)
    requires Carries(Run(actions), a, e, row)
    ensures ReadSince(actions, p, |actions|, a, e, row)
  {
    var n := |actions| - 1;
    CarriedOrRead(Run(actions[..n]), actions[n], a, e, row);
    assert actions[..n + 1] == actions;
    if Carries(Run(actions[..n]), a, e, row) {
      p := RowWasRead(actions[..n], a, e, row);
      ReadExtends(actions, p, a, e, row);
    } else {
      p := n;
    }
  }

  lemma {:induction false} ReadExtends(actions: seq<Action>, p: nat, a: nat, e: Envelope, row: OrderRow)
    requires actions != [] && ReadSince(actions[..|actions| - 1], p, |actions| - 1, a, e, row)
    requires Carries(Run(actions), a, e, row)
    ensures ReadSince(actions, p, |actions|, a, e, row)
  {
    var n := |actions| - 1;
    assert actions[..n][..p] == actions[..p];
    forall m | p < m <= |actions| ensures Carries(Run(actions[..m]), a, e, row) {
      if m <= n {
        assert actions[..n][..m] == actions[..m];
        assert Carries(Run(actions[..n][..m]), a, e, row);
      } else {
        assert actions[..m] == actions;
      }
    }
  }

  /** A fact that committed from a stale read does the same, and sends the same,
      when it runs alone at the position of that read. */
  lemma {:induction false} StaleFactAtRead(actions: seq<Action>, p: nat, act: Action)
    requires var w := Run(actions);
             && CommittedAt(w, act) && IsStale(w, act)
             && ReadSince(actions, p, |actions|, act.a, w.attempts[act.a].e, w.attempts[act.a].row.value)
    ensures var w, db := Run(actions), Run(actions[..p]).db;
            && SameCore(SerialStep(db, OpAt(w, act)), db)
            && Emitted(db, OpAt(w, act)) == SentAt(w, act) && SerialAnswer(db, OpAt(w, act)) == AnswerAt(w, act)
  {
    var w, db := Run(actions), Run(actions[..p]).db;
    var at := w.attempts[act.a];
    var id := at.e.orderId;
    RunKeeps(actions[..p]);
    ItemsKnown(db, id);
    StaleActsAtRead(View(w.db.orders[id], ItemsOf(w.db, id), []), OrderValue(at.row.value, at.items.value),
                    ItemsOf(db, id), at.e, act.quoteOk, act.now);
  }

  // --------------------------------------------------------------- the serial order

  /** A committed transaction, the action that committed it, and its position. */
  datatype Placed = Placed(op: SerialOp, commit: nat, at: nat)

  function Ops(s: seq<Placed>): seq<SerialOp> {
    seq(|s|, i requires 0 <= i < |s| => s[i].op)
  }

  /** The store before the k-th transaction of the serial order. */
  ghost function SerialAt(s: seq<Placed>, k: nat): Db
    requires k <= |s|
  {
    RunFrom(EMPTY, Ops(s[..k]))
  }

  /** A transaction stands at its commit; a fact that committed from a stale read
      stands at the read of its row, before the commit. */
  ghost predicate IsPlaced(actions: seq<Action>, x: Placed) {
    x.commit < |actions| &&
    var w, act := Run(actions[..x.commit]), actions[x.commit];
    && CommittedAt(w, act) && x.op == OpAt(w, act)
    && if IsStale(w, act)
       then ReadSince(actions, x.at, x.commit, act.a, w.attempts[act.a].e, w.attempts[act.a].row.value)
       else x.at == x.commit
  }

  /** Run alone on db, the transaction answers and sends what it did in the run. */
  ghost predicate AnswersAs(actions: seq<Action>, db: Db, x: Placed) {
    x.commit < |actions| && CommittedAt(Run(actions[..x.commit]), actions[x.commit]) &&
    var w, act := Run(actions[..x.commit]), actions[x.commit];
    Emitted(db, x.op) == SentAt(w, act) && SerialAnswer(db, x.op) == AnswerAt(w, act)
  }

  ghost predicate Sorted(s: seq<Placed>) {
    forall j, k :: 0 <= j < k < |s| ==> s[j].at <= s[k].at
  }

  ghost predicate OncePerCommit(s: seq<Placed>) {
    forall j, k :: 0 <= j < k < |s| ==> s[j].commit != s[k].commit
  }

  ghost predicate AllPlaced(actions: seq<Action>, s: seq<Placed>) {
    forall i: nat {:trigger CommitsAt(actions, i)} :: CommitsAt(actions, i) ==> Holds(s, i)
  }

  ghost predicate CommitsAt(actions: seq<Action>, i: nat) {
    i < |actions| && CommittedAt(Run(actions[..i]), actions[i])
  }

  lemma {:induction false} CommitsAtPrefix(actions: seq<Action>, n: nat, i: nat)
    requires i < n <= |actions| && CommitsAt(actions, i)
    ensures CommitsAt(actions[..n], i)
  {
    assert actions[..n][..i] == actions[..i];
  }

  ghost predicate Holds(s: seq<Placed>, i: nat) {
    exists k :: 0 <= k < |s| && s[k].commit == i
  }

  ghost predicate SameStore(a: Db, b: Db) {
    SameCore(a, b) && EventsOf(a.outbox) == EventsOf(b.outbox) && multiset(a.outbox) == multiset(b.outbox)
  }

  /** Every committed transaction occurs exactly once, at a position between its row
      read and its commit, with the answer and the messages it had; the tables agree. */
  ghost predicate Serialises(actions: seq<Action>, s: seq<Placed>) {
    && Sorted(s) && OncePerCommit(s) && AllPlaced(actions, s) && AllAnswered(actions, s)
    && SameStore(Run(actions).db, SerialAt(s, |s|))
  }

  ghost predicate InPlace(actions: seq<Action>, s: seq<Placed>, k: nat)
    requires k < |s|
  {
    IsPlaced(actions, s[k]) && AnswersAs(actions, SerialAt(s, k), s[k])
  }

  ghost predicate AllAnswered(actions: seq<Action>, s: seq<Placed>) {
    forall k: nat {:trigger InPlace(actions, s, k)} :: k < |s| ==> InPlace(actions, s, k)
  }

  /** The first k transactions are those placed before position q. */
  ghost predicate Splits(s: seq<Placed>, k: nat, q: nat) {
    && k <= |s|
    && (forall j :: 0 <= j < k ==> s[j].at < q)
    && (forall j :: k <= j < |s| ==> q <= s[j].at)
  }

  /** At every position the serial store has the core the run had there. */
  ghost predicate Tracks(actions: seq<Action>, s: seq<Placed>) {
    forall k: nat, q: nat {:trigger Splits(s, k, q)} ::
      q <= |actions| && Splits(s, k, q) ==> SameCore(SerialAt(s, k), Run(actions[..q]).db)
  }

  lemma {:induction false} SplitPoint(s: seq<Placed>, q: nat) returns (k: nat)
    requires Sorted(s)
    ensures Splits(s, k, q)
  {
    k := 0;
    while k < |s| && s[k].at < q
      invariant k <= |s| && forall j :: 0 <= j < k ==> s[j].at < q
    {
      k := k + 1;
    }
  }

  lemma {:induction false} FromSplit(s: seq<Placed>, k: nat, q: nat)
    requires k < |s| && Splits(s, k, q)
    ensures q <= s[k].at
  {}

  lemma {:induction false} PlacedBefore(actions: seq<Action>, x: Placed)
    requires IsPlaced(actions, x)
    ensures x.at <= x.commit < |actions|
  {}

  // --------------------------------------------------------- extending by one action

  lemma {:induction false} ReadSinceExtends(actions: seq<Action>, n: nat, p: nat, q: nat, a: nat, e: Envelope,
                                            row: OrderRow)
    requires q <= n <= |actions| && ReadSince(actions[..n], p, q, a, e, row)
    ensures ReadSince(actions, p, q, a, e, row)
  {
    assert actions[..n][..p] == actions[..p];
    forall m | p < m <= q ensures Carries(Run(actions[..m]), a, e, row) {
      assert actions[..n][..m] == actions[..m];
      assert Carries(Run(actions[..n][..m]), a, e, row);
    }
  }

  lemma {:induction false} PlacedExtends(actions: seq<Action>, n: nat, x: Placed)
    requires n <= |actions| && IsPlaced(actions[..n], x)
    ensures IsPlaced(actions, x)
  {
    assert actions[..n][..x.commit] == actions[..x.commit];
    var w, act := Run(actions[..x.commit]), actions[x.commit];
    if IsStale(w, act) {
      ReadSinceExtends(actions, n, x.at, x.commit, act.a, w.attempts[act.a].e, w.attempts[act.a].row.value);
    }
  }

  lemma {:induction false} AnsweredExtends(actions: seq<Action>, n: nat, s: seq<Placed>, k: nat)
    requires n <= |actions| && k < |s| && InPlace(actions[..n], s, k)
    ensures InPlace(actions, s, k)
  {
    PlacedExtends(actions, n, s[k]);
    assert actions[..n][..s[k].commit] == actions[..s[k].commit];
  }

  lemma {:induction false} AllPlacedExtends(actions: seq<Action>, s: seq<Placed>, t: seq<Placed>)
    requires actions != [] && AllPlaced(actions[..|actions| - 1], s)
    requires forall i :: Holds(s, i) ==> Holds(t, i)
    requires CommitsAt(actions, |actions| - 1) ==> Holds(t, |actions| - 1)
    ensures AllPlaced(actions, t)
  {
    var n := |actions| - 1;
    forall i: nat | CommitsAt(actions, i) ensures Holds(t, i) {
      if i < n { CommitsAtPrefix(actions, n, i); }
    }
  }

  /** An action that leaves the core alone leaves the serial order as it is. */
  lemma {:induction false} TracksSame(actions: seq<Action>, s: seq<Placed>)
    requires actions != [] && Tracks(actions[..|actions| - 1], s)
    requires forall k :: 0 <= k < |s| ==> s[k].at < |actions| - 1
    requires SameCore(Run(actions).db, Run(actions[..|actions| - 1]).db)
    ensures Tracks(actions, s)
  {
    var n := |actions| - 1;
    forall k: nat, q: nat | q <= |actions| && Splits(s, k, q) ensures SameCore(SerialAt(s, k), Run(actions[..q]).db) {
      if q <= n {
        assert actions[..n][..q] == actions[..q];
      } else {
        if k < |s| { FromSplit(s, k, q); }
        assert k == |s| && Splits(s, k, n) && actions[..n][..n] == actions[..n] && actions[..q] == actions;
      }
    }
  }

  lemma {:induction false} SerialAtEnd(s: seq<Placed>, x: Placed)
    ensures SerialAt(s + [x], |s| + 1) == SerialStep(SerialAt(s, |s|), x.op)
  {
    assert (s + [x])[..|s| + 1] == s + [x] && s[..|s|] == s;
    assert Ops(s + [x]) == Ops(s) + [x.op];
    RunFromOne(EMPTY, Ops(s), x.op);
  }

  lemma {:induction false} TracksAppend(actions: seq<Action>, s: seq<Placed>, x: Placed)
    requires actions != [] && Tracks(actions[..|actions| - 1], s) && x.at == |actions| - 1
    requires forall k :: 0 <= k < |s| ==> s[k].at < |actions| - 1
    requires SameCore(Run(actions).db, SerialStep(SerialAt(s, |s|), x.op))
    ensures Tracks(actions, s + [x])
  {
    var n := |actions| - 1;
    forall k: nat, q: nat | q <= |actions| && Splits(s + [x], k, q)
      ensures SameCore(SerialAt(s + [x], k), Run(actions[..q]).db)
    {
      if q <= n {
        assert (s + [x])[|s|] == x;
        assert k <= |s| && (s + [x])[..k] == s[..k] && actions[..n][..q] == actions[..q];
        assert forall j :: 0 <= j < |s| ==> (s + [x])[j] == s[j];
        assert Splits(s, k, q);
      } else {
        if k < |s| + 1 { FromSplit(s + [x], k, q); }
        assert k == |s| + 1 && actions[..q] == actions;
        SerialAtEnd(s, x);
      }
    }
  }

  /** The serial order with x inserted after its first k transactions. */
  function Inserted(s: seq<Placed>, k: nat, x: Placed): seq<Placed>
    requires k <= |s|
  {
    s[..k] + [x] + s[k..]
  }

  /** x leaves the core alone where it is inserted, and sends only commands. */
  ghost predicate QuietAt(s: seq<Placed>, k: nat, x: Placed)
    requires k <= |s|
  {
    SameCore(SerialStep(SerialAt(s, k), x.op), SerialAt(s, k)) && Commands(Emitted(SerialAt(s, k), x.op))
  }

  lemma {:induction false} SerialAtSplit(s: seq<Placed>, k: nat, j: nat)
    requires k <= j <= |s|
    ensures SerialAt(s, j) == RunFrom(SerialAt(s, k), Ops(s[k..j]))
  {
    assert Ops(s[..j]) == Ops(s[..k]) + Ops(s[k..j]);
    RunFromAppend(EMPTY, Ops(s[..k]), Ops(s[k..j]));
  }

  lemma {:induction false} SerialAtNext(s: seq<Placed>, j: nat)
    requires j < |s|
    ensures SerialAt(s, j + 1) == SerialStep(SerialAt(s, j), s[j].op)
  {
    assert Ops(s[..j + 1]) == Ops(s[..j]) + [s[j].op];
    RunFromOne(EMPTY, Ops(s[..j]), s[j].op);
  }

  lemma {:induction false} BeforeInserted(s: seq<Placed>, k: nat, x: Placed, m: nat)
    requires m <= k <= |s|
    ensures SerialAt(Inserted(s, k, x), m) == SerialAt(s, m)
  {
    assert Inserted(s, k, x)[..m] == s[..m];
  }

  /** The store after the inserted transaction has the core it had before it. */
  ghost predicate KeepsCore(s: seq<Placed>, k: nat, x: Placed) {
    k <= |s| && SameCore(SerialAt(Inserted(s, k, x), k + 1), SerialAt(s, k))
  }

  lemma {:induction false} InsertedStep(s: seq<Placed>, k: nat, x: Placed)
    requires k <= |s|
    ensures SerialAt(Inserted(s, k, x), k + 1) == SerialStep(SerialAt(s, k), x.op)
  {
    BeforeInserted(s, k, x, k);
    SerialAtNext(Inserted(s, k, x), k);
  }

  lemma {:induction false} QuietKeepsCore(s: seq<Placed>, k: nat, x: Placed)
    requires k <= |s| && QuietAt(s, k, x)
    ensures KeepsCore(s, k, x)
  {
    InsertedStep(s, k, x);
  }

  lemma {:induction false} InsertedTail(s: seq<Placed>, k: nat, x: Placed, j: nat)
    requires k <= j <= |s|
    ensures SerialAt(Inserted(s, k, x), j + 1) == RunFrom(SerialAt(Inserted(s, k, x), k + 1), Ops(s[k..j]))
  {
    SerialAtSplit(Inserted(s, k, x), k + 1, j + 1);
    assert Inserted(s, k, x)[k + 1..j + 1] == s[k..j];
  }

  /** Later transactions find the core they found without it. */
  lemma {:induction false} AfterInserted(s: seq<Placed>, k: nat, x: Placed, j: nat)
    requires k <= j <= |s| && KeepsCore(s, k, x)
    ensures SameCore(SerialAt(Inserted(s, k, x), j + 1), SerialAt(s, j))
  {
    SerialAtSplit(s, k, j);
    InsertedTail(s, k, x, j);
    var out := CoreRun(SerialAt(Inserted(s, k, x), k + 1), SerialAt(s, k), Ops(s[k..j]));
  }

  /** Only its messages are added. */
  lemma {:induction false} SerialAtInserted(s: seq<Placed>, k: nat, x: Placed, j: nat)
    requires k <= j <= |s| && QuietAt(s, k, x)
    ensures EventsOf(SerialAt(Inserted(s, k, x), j + 1).outbox) == EventsOf(SerialAt(s, j).outbox)
    ensures multiset(SerialAt(Inserted(s, k, x), j + 1).outbox) ==
            multiset(SerialAt(s, j).outbox) + multiset(Emitted(SerialAt(s, k), x.op))
  {
    SerialAtSplit(s, k, j);
    InsertedTail(s, k, x, j);
    InsertedStep(s, k, x);
    QuietThen(SerialAt(s, k), x.op, Emitted(SerialAt(s, k), x.op), Ops(s[k..j]));
  }

  lemma {:induction false} SameCoreAs(a: Db, b: Db, c: Db)
    requires SameCore(a, b) && SameCore(b, c)
    ensures SameCore(a, c)
  {}

  lemma {:induction false} InsertedCore(s: seq<Placed>, k: nat, x: Placed, m: nat, db: Db)
    requires KeepsCore(s, k, x) && m <= |s| + 1
    requires SameCore(SerialAt(s, if m <= k then m else m - 1), db)
    ensures SameCore(SerialAt(Inserted(s, k, x), m), db)
  {
    if m <= k {
      BeforeInserted(s, k, x, m);
    } else {
      AfterInserted(s, k, x, m - 1);
      SameCoreAs(SerialAt(Inserted(s, k, x), m), SerialAt(s, m - 1), db);
    }
  }

  lemma {:induction false} TracksInsert(actions: seq<Action>, s: seq<Placed>, k: nat, x: Placed)
    requires Tracks(actions, s) && Splits(s, k, x.at + 1) && KeepsCore(s, k, x)
    ensures Tracks(actions, Inserted(s, k, x))
  {
    var t := Inserted(s, k, x);
    forall m: nat, q: nat | q <= |actions| && Splits(t, m, q) ensures SameCore(SerialAt(t, m), Run(actions[..q]).db) {
      InsertedSplits(s, k, x, m, q);
      InsertedCore(s, k, x, m, Run(actions[..q]).db);
    }
  }

  lemma {:induction false} InsertedSplits(s: seq<Placed>, k: nat, x: Placed, m: nat, q: nat)
    requires k <= |s| && Splits(s, k, x.at + 1) && Splits(Inserted(s, k, x), m, q)
    ensures if m <= k then Splits(s, m, q) else Splits(s, m - 1, q)
  {
    var t := Inserted(s, k, x);
    assert forall j :: 0 <= j < k ==> t[j] == s[j];
    assert forall j :: k <= j < |s| ==> t[j + 1] == s[j];
    assert t[k] == x;
  }

  lemma {:induction false} InsertedSorted(s: seq<Placed>, k: nat, x: Placed)
    requires Sorted(s) && Splits(s, k, x.at + 1)
    ensures Sorted(Inserted(s, k, x))
  {}

  lemma {:induction false} InsertedHolds(s: seq<Placed>, k: nat, x: Placed, i: nat)
    requires k <= |s|
    ensures Holds(Inserted(s, k, x), i) <==> Holds(s, i) || x.commit == i
  {
    var t := Inserted(s, k, x);
    if Holds(s, i) {
      var j :| 0 <= j < |s| && s[j].commit == i;
      assert t[if j < k then j else j + 1] == s[j];
    }
    assert t[k] == x;
    if Holds(t, i) && x.commit != i {
      var j :| 0 <= j < |t| && t[j].commit == i;
      assert j != k;
      assert s[if j < k then j else j - 1] == t[j];
    }
  }

  lemma {:induction false} InsertedOnce(s: seq<Placed>, k: nat, x: Placed)
    requires k <= |s| && OncePerCommit(s) && !Holds(s, x.commit)
    ensures OncePerCommit(Inserted(s, k, x))
  {
    assert forall j :: 0 <= j < |s| ==> s[j].commit != x.commit;
  }

  lemma {:induction false} AnswersAlike(actions: seq<Action>, x: Placed, d: Db, db: Db)
    requires SameCore(d, db) && AnswersAs(actions, db, x)
    ensures AnswersAs(actions, d, x)
  {
    CoreStep(d, db, x.op);
  }

  /** The transactions before the inserted one still answer and send what they did. */
  lemma {:induction false} AnsweredBefore(actions: seq<Action>, s: seq<Placed>, k: nat, x: Placed, j: nat)
    requires j < k <= |s| && InPlace(actions, s, j)
    ensures InPlace(actions, Inserted(s, k, x), j)
  {
    BeforeInserted(s, k, x, j);
  }

  /** So do those after it. */
  lemma {:induction false} AnsweredAfter(actions: seq<Action>, s: seq<Placed>, k: nat, x: Placed, m: nat)
    requires k < m <= |s| && KeepsCore(s, k, x) && InPlace(actions, s, m - 1)
    ensures InPlace(actions, Inserted(s, k, x), m)
  {
    AfterInserted(s, k, x, m - 1);
    AnswersAlike(actions, s[m - 1], SerialAt(Inserted(s, k, x), m), SerialAt(s, m - 1));
  }

  // -------------------------------------------------------------------- the theorem

  ghost predicate Order(actions: seq<Action>, s: seq<Placed>) {
    Serialises(actions, s) && Tracks(actions, s)
  }

  lemma {:induction false} OrderFrom(actions: seq<Action>, t: seq<Placed>, n: nat)
    requires Sorted(t) && OncePerCommit(t) && AllPlaced(actions, t) && AllAnswered(actions, t) && Tracks(actions, t)
    requires n == |t| && SameStore(Run(actions).db, SerialAt(t, n))
    ensures Order(actions, t)
  {}

  lemma {:induction false} UnplacedAction(actions: seq<Action>, s: seq<Placed>)
    requires actions != [] && Order(actions[..|actions| - 1], s)
    requires !CommittedAt(Run(actions[..|actions| - 1]), actions[|actions| - 1])
    ensures Order(actions, s)
  {
    var n := |actions| - 1;
    UncommittedStep(Run(actions[..n]), actions[n]);
    PlacedEarlier(actions, s);
    AllPlacedExtends(actions, s, s);
    TracksSame(actions, s);
  }

  /** What the transactions placed so far keep when the run goes on. */
  lemma {:induction false} PlacedEarlier(actions: seq<Action>, s: seq<Placed>)
    requires actions != []
    requires AllAnswered(actions[..|actions| - 1], s)
    ensures forall k :: 0 <= k < |s| ==> s[k].at <= s[k].commit < |actions| - 1
    ensures AllAnswered(actions, s)
  {
    var n := |actions| - 1;
    forall k: nat | k < |s| ensures s[k].at <= s[k].commit < n && InPlace(actions, s, k) {
      assert InPlace(actions[..n], s, k);
      PlacedBefore(actions[..n], s[k]);
      AnsweredExtends(actions, n, s, k);
    }
  }

  lemma {:induction false} PromptAnswered(actions: seq<Action>, s: seq<Placed>, x: Placed)
    requires actions != [] && SameCore(SerialAt(s, |s|), Run(actions[..|actions| - 1]).db)
    requires var w, act := Run(actions[..|actions| - 1]), actions[|actions| - 1];
             WorldInv(w) && CommittedAt(w, act) && !IsStale(w, act) &&
               x == Placed(OpAt(w, act), |actions| - 1, |actions| - 1)
    ensures InPlace(actions, s + [x], |s|)
    ensures SameCore(Run(actions).db, SerialStep(SerialAt(s, |s|), x.op))
    ensures Run(actions).db.outbox == Run(actions[..|actions| - 1]).db.outbox + Emitted(SerialAt(s, |s|), x.op)
  {
    var n := |actions| - 1;
    PromptStep(Run(actions[..n]), actions[n]);
    CoreStep(SerialAt(s, |s|), Run(actions[..n]).db, x.op);
    assert (s + [x])[..|s|] == s[..|s|] && (s + [x])[|s|] == x;
  }

  lemma {:induction false} AnsweredAppended(actions: seq<Action>, s: seq<Placed>, x: Placed, k: nat)
    requires k < |s| && InPlace(actions, s, k)
    ensures InPlace(actions, s + [x], k)
  {
    assert (s + [x])[..k] == s[..k];
  }

  lemma {:induction false} SameStoreAppend(a: Db, b: Db, a2: Db, b2: Db, out: seq<Message>)
    requires SameStore(a, b) && SameCore(a2, b2) && a2.outbox == a.outbox + out && b2.outbox == b.outbox + out
    ensures SameStore(a2, b2)
  {
    EventsOfAppend(a.outbox, out);
    EventsOfAppend(b.outbox, out);
  }

  lemma {:induction false} PromptAllAnswered(actions: seq<Action>, s: seq<Placed>, x: Placed)
    requires AllAnswered(actions, s) && InPlace(actions, s + [x], |s|)
    ensures AllAnswered(actions, s + [x])
  {
    forall k: nat | k < |s| + 1 ensures InPlace(actions, s + [x], k) {
      if k < |s| {
        assert InPlace(actions, s, k);
        AnsweredAppended(actions, s, x, k);
      }
    }
  }

  lemma {:induction false} PromptStore(db: Db, next: Db, s: seq<Placed>, x: Placed)
    requires SameStore(db, SerialAt(s, |s|)) && SameCore(next, SerialStep(SerialAt(s, |s|), x.op))
    requires next.outbox == db.outbox + Emitted(SerialAt(s, |s|), x.op)
    ensures SameStore(next, SerialAt(s + [x], |s| + 1))
  {
    SerialAtEnd(s, x);
    StepAppends(SerialAt(s, |s|), x.op);
    SameStoreAppend(db, SerialAt(s, |s|), next, SerialAt(s + [x], |s| + 1), Emitted(SerialAt(s, |s|), x.op));
  }

  /** x stands for the last action, which committed from an up-to-date read. */
  ghost predicate IsPrompt(actions: seq<Action>, x: Placed) {
    actions != [] &&
    var w, act := Run(actions[..|actions| - 1]), actions[|actions| - 1];
    CommittedAt(w, act) && !IsStale(w, act) && x == Placed(OpAt(w, act), |actions| - 1, |actions| - 1)
  }

  lemma {:induction false} PromptTables(actions: seq<Action>, s: seq<Placed>, x: Placed)
    requires IsPrompt(actions, x) && Order(actions[..|actions| - 1], s)
    ensures AllAnswered(actions, s + [x]) && SameStore(Run(actions).db, SerialAt(s + [x], |s| + 1))
  {
    var n := |actions| - 1;
    RunKeeps(actions[..n]);
    PlacedEarlier(actions, s);
    PromptAnswered(actions, s, x);
    PromptStore(Run(actions[..n]).db, Run(actions).db, s, x);
    PromptAllAnswered(actions, s, x);
  }

  lemma {:induction false} PromptTracks(actions: seq<Action>, s: seq<Placed>, x: Placed)
    requires IsPrompt(actions, x) && Order(actions[..|actions| - 1], s)
    ensures Tracks(actions, s + [x])
  {
    RunKeeps(actions[..|actions| - 1]);
    PlacedEarlier(actions, s);
    PromptAnswered(actions, s, x);
    TracksAppend(actions, s, x);
  }

  lemma {:induction false} PromptPlaced(actions: seq<Action>, s: seq<Placed>, x: Placed)
    requires IsPrompt(actions, x) && Order(actions[..|actions| - 1], s)
    ensures Sorted(s + [x]) && OncePerCommit(s + [x]) && AllPlaced(actions, s + [x])
  {
    PlacedEarlier(actions, s);
    AppendLast(s, x);
    AppendHolds(s, x);
    AllPlacedExtends(actions, s, s + [x]);
  }

  lemma {:induction false} PromptAction(actions: seq<Action>, s: seq<Placed>, x: Placed)
    requires IsPrompt(actions, x) && Order(actions[..|actions| - 1], s)
    ensures Order(actions, s + [x])
  {
    PromptTables(actions, s, x);
    PromptTracks(actions, s, x);
    PromptPlaced(actions, s, x);
    OrderFrom(actions, s + [x], |s| + 1);
  }

  lemma {:induction false} AppendLast(s: seq<Placed>, x: Placed)
    requires Sorted(s) && OncePerCommit(s) && forall k :: 0 <= k < |s| ==> s[k].at <= x.at && s[k].commit < x.commit
    ensures Sorted(s + [x]) && OncePerCommit(s + [x])
  {}

  lemma {:induction false} AppendHolds(s: seq<Placed>, x: Placed)
    ensures forall i :: Holds(s, i) ==> Holds(s + [x], i)
    ensures Holds(s + [x], x.commit)
  {
    forall i | Holds(s, i) ensures Holds(s + [x], i) {
      var k :| 0 <= k < |s| && s[k].commit == i;
      assert (s + [x])[k] == s[k];
    }
    assert (s + [x])[|s|] == x;
  }

  /** x stands for the last action, which committed from a stale read, at that read. */
  ghost predicate IsLate(actions: seq<Action>, x: Placed) {
    actions != [] &&
    var w, act := Run(actions[..|actions| - 1]), actions[|actions| - 1];
    && CommittedAt(w, act) && IsStale(w, act) && x.op == OpAt(w, act) && x.commit == |actions| - 1
    && ReadSince(actions[..|actions| - 1], x.at, |actions| - 1, act.a, w.attempts[act.a].e, w.attempts[act.a].row.value)
  }

  lemma {:induction false} LateIsPlaced(actions: seq<Action>, x: Placed)
    requires IsLate(actions, x)
    ensures IsPlaced(actions, x)
  {
    var n := |actions| - 1;
    var w, act := Run(actions[..n]), actions[n];
    ReadSinceExtends(actions, n, x.at, n, act.a, w.attempts[act.a].e, w.attempts[act.a].row.value);
  }

  /** Reading a row changes no table. */
  lemma {:induction false} ReadChangesNothing(actions: seq<Action>, p: nat)
    requires p < |actions| && actions[p].LoadRow?
    ensures SameCore(Run(actions[..p + 1]).db, Run(actions[..p]).db)
  {
    assert actions[..p + 1][..p] == actions[..p];
  }

  lemma {:induction false} QuietAlike(d: Db, db: Db, op: SerialOp)
    requires SameCore(d, db) && SameCore(SerialStep(db, op), db)
    ensures SameCore(SerialStep(d, op), d) && Emitted(d, op) == Emitted(db, op)
  {
    CoreStep(d, db, op);
  }

  lemma {:induction false} LateAtRead(actions: seq<Action>, x: Placed)
    requires IsLate(actions, x)
    ensures var db := Run(actions[..|actions| - 1][..x.at]).db;
            SameCore(SerialStep(db, x.op), db) && Commands(Emitted(db, x.op)) && AnswersAs(actions, db, x)
  {
    var n := |actions| - 1;
    RunKeeps(actions[..n]);
    StaleFactAtRead(actions[..n], x.at, actions[n]);
    StaleStep(Run(actions[..n]), actions[n]);
  }

  lemma {:induction false} TracksRead(actions: seq<Action>, s: seq<Placed>, k: nat, p: nat)
    requires p < |actions| && actions[p].LoadRow? && Tracks(actions, s) && Splits(s, k, p + 1)
    ensures SameCore(SerialAt(s, k), Run(actions[..p]).db)
  {
    ReadChangesNothing(actions, p);
  }

  lemma {:induction false} LateAnywhere(actions: seq<Action>, s: seq<Placed>, k: nat, x: Placed, db: Db)
    requires k <= |s| && SameCore(SerialAt(s, k), db) && SameCore(SerialStep(db, x.op), db)
    requires Commands(Emitted(db, x.op)) && AnswersAs(actions, db, x)
    ensures QuietAt(s, k, x) && AnswersAs(actions, SerialAt(s, k), x)
  {
    QuietAlike(SerialAt(s, k), db, x.op);
    AnswersAlike(actions, x, SerialAt(s, k), db);
  }

  /** Where it is inserted, the late fact leaves the core alone, sends the commands
      it sent, and is answered as it was. */
  lemma {:induction false} LateIsQuiet(actions: seq<Action>, s: seq<Placed>, k: nat, x: Placed)
    requires IsLate(actions, x) && Tracks(actions[..|actions| - 1], s) && Splits(s, k, x.at + 1)
    ensures QuietAt(s, k, x) && AnswersAs(actions, SerialAt(s, k), x)
  {
    var before := actions[..|actions| - 1];
    LateAtRead(actions, x);
    TracksRead(before, s, k, x.at);
    LateAnywhere(actions, s, k, x, Run(before[..x.at]).db);
  }

  lemma {:induction false} LateAnswered(actions: seq<Action>, s: seq<Placed>, k: nat, x: Placed)
    requires k <= |s| && IsPlaced(actions, x) && AnswersAs(actions, SerialAt(s, k), x)
    ensures InPlace(actions, Inserted(s, k, x), k)
  {
    assert Inserted(s, k, x)[..k] == s[..k];
  }

  lemma {:induction false} StillAnsweredBefore(actions: seq<Action>, s: seq<Placed>, k: nat, x: Placed, j: nat)
    requires j < k <= |s| && AllAnswered(actions, s)
    ensures InPlace(actions, Inserted(s, k, x), j)
  {
    assert InPlace(actions, s, j);
    AnsweredBefore(actions, s, k, x, j);
  }

  lemma {:induction false} StillAnsweredAfter(actions: seq<Action>, s: seq<Placed>, k: nat, x: Placed, m: nat)
    requires k < m <= |s| && KeepsCore(s, k, x) && AllAnswered(actions, s)
    ensures InPlace(actions, Inserted(s, k, x), m)
  {
    assert InPlace(actions, s, m - 1);
    AnsweredAfter(actions, s, k, x, m);
  }

  lemma {:induction false} LateAllAnswered(actions: seq<Action>, s: seq<Placed>, k: nat, x: Placed)
    requires AllAnswered(actions, s) && KeepsCore(s, k, x)
    requires InPlace(actions, Inserted(s, k, x), k)
    ensures AllAnswered(actions, Inserted(s, k, x))
  {
    var t := Inserted(s, k, x);
    forall m: nat | m < |t| ensures InPlace(actions, t, m) {
      if m < k {
        StillAnsweredBefore(actions, s, k, x, m);
      } else if k < m {
        StillAnsweredAfter(actions, s, k, x, m);
      }
    }
  }

  lemma {:induction false} LateStore(db: Db, next: Db, s: seq<Placed>, k: nat, x: Placed)
    requires SameStore(db, SerialAt(s, |s|)) && SameCore(next, db) && k <= |s| && QuietAt(s, k, x)
    requires next.outbox == db.outbox + Emitted(SerialAt(s, k), x.op)
    ensures SameStore(next, SerialAt(Inserted(s, k, x), |s| + 1))
  {
    var m := Emitted(SerialAt(s, k), x.op);
    SerialAtInserted(s, k, x, |s|);
    QuietKeepsCore(s, k, x);
    AfterInserted(s, k, x, |s|);
    CommandsBetween(db.outbox, m, []);
    assert db.outbox + m + [] == db.outbox + m && db.outbox + [] == db.outbox;
  }

  /** The late commit itself changes the outbox only. */
  lemma {:induction false} LateStep(actions: seq<Action>, db: Db, x: Placed)
    requires IsLate(actions, x) && AnswersAs(actions, db, x)
    ensures SameCore(Run(actions).db, Run(actions[..|actions| - 1]).db)
    ensures Run(actions).db.outbox == Run(actions[..|actions| - 1]).db.outbox + Emitted(db, x.op)
  {
    RunKeeps(actions[..|actions| - 1]);
    StaleStep(Run(actions[..|actions| - 1]), actions[|actions| - 1]);
  }

  lemma {:induction false} LateInPlace(actions: seq<Action>, s: seq<Placed>, k: nat, x: Placed)
    requires IsLate(actions, x) && Splits(s, k, x.at + 1) && Tracks(actions[..|actions| - 1], s)
    ensures KeepsCore(s, k, x) && InPlace(actions, Inserted(s, k, x), k)
  {
    LateIsPlaced(actions, x);
    LateIsQuiet(actions, s, k, x);
    QuietKeepsCore(s, k, x);
    LateAnswered(actions, s, k, x);
  }

  lemma {:induction false} LateTables(actions: seq<Action>, s: seq<Placed>, k: nat, x: Placed)
    requires IsLate(actions, x) && Order(actions[..|actions| - 1], s) && Splits(s, k, x.at + 1)
    ensures SameStore(Run(actions).db, SerialAt(Inserted(s, k, x), |s| + 1))
  {
    LateIsQuiet(actions, s, k, x);
    LateStep(actions, SerialAt(s, k), x);
    LateStore(Run(actions[..|actions| - 1]).db, Run(actions).db, s, k, x);
  }

  lemma {:induction false} LateTracks(actions: seq<Action>, s: seq<Placed>, k: nat, x: Placed)
    requires IsLate(actions, x) && Order(actions[..|actions| - 1], s) && Splits(s, k, x.at + 1)
    ensures Tracks(actions, Inserted(s, k, x))
  {
    PlacedEarlier(actions, s);
    LateIsQuiet(actions, s, k, x);
    LateStep(actions, SerialAt(s, k), x);
    TracksSame(actions, s);
    QuietKeepsCore(s, k, x);
    TracksInsert(actions, s, k, x);
  }

  lemma {:induction false} LatePlaced(actions: seq<Action>, s: seq<Placed>, k: nat, x: Placed)
    requires IsLate(actions, x) && Order(actions[..|actions| - 1], s) && Splits(s, k, x.at + 1)
    ensures Sorted(Inserted(s, k, x)) && OncePerCommit(Inserted(s, k, x)) && AllPlaced(actions, Inserted(s, k, x))
  {
    PlacedEarlier(actions, s);
    InsertedSorted(s, k, x);
    InsertedOnce(s, k, x);
    forall i ensures Holds(Inserted(s, k, x), i) <==> Holds(s, i) || x.commit == i {
      InsertedHolds(s, k, x, i);
    }
    AllPlacedExtends(actions, s, Inserted(s, k, x));
  }

  lemma {:induction false} LateEveryAnswer(actions: seq<Action>, s: seq<Placed>, k: nat, x: Placed)
    requires IsLate(actions, x) && Order(actions[..|actions| - 1], s) && Splits(s, k, x.at + 1)
    ensures AllAnswered(actions, Inserted(s, k, x))
  {
    PlacedEarlier(actions, s);
    LateInPlace(actions, s, k, x);
    LateAllAnswered(actions, s, k, x);
  }

  lemma {:induction false} LateAction(actions: seq<Action>, s: seq<Placed>, k: nat, x: Placed)
    requires IsLate(actions, x) && Order(actions[..|actions| - 1], s) && Splits(s, k, x.at + 1)
    ensures Order(actions, Inserted(s, k, x))
  {
    LateEveryAnswer(actions, s, k, x);
    LateTables(actions, s, k, x);
    LateTracks(actions, s, k, x);
    LatePlaced(actions, s, k, x);
    OrderFrom(actions, Inserted(s, k, x), |s| + 1);
  }

  /** The order after one more action. */
  lemma {:induction false} NextOrder(actions: seq<Action>, s: seq<Placed>) returns (t: seq<Placed>)
    requires actions != [] && Order(actions[..|actions| - 1], s)
    ensures Order(actions, t)
  {
    var n := |actions| - 1;
    var w, act := Run(actions[..n]), actions[n];
    if !CommittedAt(w, act) {
      UnplacedAction(actions, s);
      t := s;
    } else if !IsStale(w, act) {
      var x := Placed(OpAt(w, act), n, n);
      PromptAction(actions, s, x);
      t := s + [x];
    } else {
      var at := w.attempts[act.a];
      var p := RowWasRead(actions[..n], act.a, at.e, at.row.value);
      var x := Placed(OpAt(w, act), n, p);
      var k := SplitPoint(s, p + 1);
      LateAction(actions, s, k, x);
      t := Inserted(s, k, x);
    }
  }

  lemma {:induction false} OrderExists(actions: seq<Action>) returns (s: seq<Placed>)
    ensures Order(actions, s)
  {
    if actions == [] {
      s := [];
      assert forall q: nat :: q <= |actions| ==> actions[..q] == [];
    } else {
      var before := OrderExists(actions[..|actions| - 1]);
      s := NextOrder(actions, before);
    }
  }

  // ---------------------------------------------------------------------- the inbox

  /** No failure record and no dead-letter mark is written for the event. */
  ghost predicate NeverRecorded(actions: seq<Action>, k: InboxKey) {
    forall i :: 0 <= i < |actions| ==> !Records(actions[i], k)
  }

  ghost predicate Records(act: Action, k: InboxKey) {
    act == DeadLetter(k) || (act.Fail? && act.payload.Json? && k == InboxKey(act.group, act.payload.envelope.eventId))
  }

  ghost predicate AppliedIn(actions: seq<Action>, k: InboxKey) {
    actions != [] &&
    var n := |actions| - 1;
    AppliedIn(actions[..n], k) || Applies(Run(actions[..n]), actions[n], k)
  }

  lemma {:induction false} AppliedAt(actions: seq<Action>, i: nat, k: InboxKey)
    requires i < |actions| && Applies(Run(actions[..i]), actions[i], k)
    ensures AppliedIn(actions, k)
  {
    var n := |actions| - 1;
    if i < n {
      assert actions[..n][..i] == actions[..i];
      AppliedAt(actions[..n], i, k);
    }
  }

  lemma {:induction false} AppliedSomewhere(actions: seq<Action>, k: InboxKey) returns (i: nat)
    requires AppliedIn(actions, k)
    ensures i < |actions| && Applies(Run(actions[..i]), actions[i], k)
  {
    var n := |actions| - 1;
    if Applies(Run(actions[..n]), actions[n], k) {
      i := n;
    } else {
      i := AppliedSomewhere(actions[..n], k);
      assert actions[..n][..i] == actions[..i];
    }
  }

  /** The event's row, if any, is PROCESSED after one attempt. */
  ghost predicate OnceProcessed(inbox: InboxTable, k: InboxKey) {
    k in inbox ==> inbox[k] == InboxRow(Processed, 1)
  }

  lemma {:induction false} UnrecordedCommit(db: Db, at: Attempt, quoteOk: bool, now: int, k: InboxKey)
    requires AttemptOk(db, at) && OnceProcessed(db.inbox, k)
    ensures var next, o := CommitAttempt(db, at, quoteOk, now).inbox, HandleAttempt(db, at, quoteOk, now);
            OnceProcessed(next, k) && (k in next <==> k in db.inbox || (o.Applied? && at.key == k))
  {}

  lemma {:induction false} UnrecordedStep(w: World, act: Action, k: InboxKey)
    requires WorldInv(w) && !Records(act, k) && OnceProcessed(w.db.inbox, k)
    ensures OnceProcessed(Step(w, act).db.inbox, k)
    ensures k in Step(w, act).db.inbox <==> k in w.db.inbox || Applies(w, act, k)
  {
    if act.Commit? && act.a in w.attempts {
      UnrecordedCommit(w.db, w.attempts[act.a], act.quoteOk, act.now, k);
    }
  }

  lemma {:induction false} RunInbox(actions: seq<Action>, k: InboxKey)
    requires NeverRecorded(actions, k)
    ensures OnceProcessed(Run(actions).db.inbox, k) && (k in Run(actions).db.inbox <==> AppliedIn(actions, k))
  {
    if actions != [] {
      var n := |actions| - 1;
      RunInbox(actions[..n], k);
      RunKeeps(actions[..n]);
      UnrecordedStep(Run(actions[..n]), actions[n], k);
    }
  }

  ghost predicate PlacedFact(s: seq<Placed>, n: nat, k: InboxKey)
    requires n <= |s|
  {
    exists j :: 0 <= j < n && s[j].op.SerialFact? && s[j].op.key == k
  }

  lemma {:induction false} PlacedFactApplies(actions: seq<Action>, s: seq<Placed>, j: nat)
    requires j < |s| && InPlace(actions, s, j) && s[j].op.SerialFact?
    ensures var op := s[j].op; FactAlone(SerialAt(s, j), op.e, op.quoteOk, op.now).Applied?
    ensures Applies(Run(actions[..s[j].commit]), actions[s[j].commit], s[j].op.key)
  {}

  lemma {:induction false} SerialInboxStep(db: Db, op: SerialOp, k: InboxKey)
    requires OnceProcessed(db.inbox, k)
    requires op.SerialFact? ==> FactAlone(db, op.e, op.quoteOk, op.now).Applied?
    ensures OnceProcessed(SerialStep(db, op).inbox, k)
    ensures k in SerialStep(db, op).inbox <==> k in db.inbox || (op.SerialFact? && op.key == k)
  {}

  lemma {:induction false} SerialInboxNext(actions: seq<Action>, s: seq<Placed>, j: nat, k: InboxKey)
    requires AllAnswered(actions, s) && j < |s| && OnceProcessed(SerialAt(s, j).inbox, k)
    ensures OnceProcessed(SerialAt(s, j + 1).inbox, k)
    ensures k in SerialAt(s, j + 1).inbox <==> k in SerialAt(s, j).inbox || (s[j].op.SerialFact? && s[j].op.key == k)
  {
    assert InPlace(actions, s, j);
    if s[j].op.SerialFact? { PlacedFactApplies(actions, s, j); }
    SerialInboxStep(SerialAt(s, j), s[j].op, k);
    SerialAtNext(s, j);
  }

  lemma {:induction false} SerialInbox(actions: seq<Action>, s: seq<Placed>, n: nat, k: InboxKey)
    requires AllAnswered(actions, s) && n <= |s|
    ensures OnceProcessed(SerialAt(s, n).inbox, k) && (k in SerialAt(s, n).inbox <==> PlacedFact(s, n, k))
  {
    if n > 0 {
      SerialInbox(actions, s, n - 1, k);
      SerialInboxNext(actions, s, n - 1, k);
    }
  }

  lemma {:induction false} PlacedAs(actions: seq<Action>, x: Placed, k: InboxKey)
    requires IsPlaced(actions, x) && Applies(Run(actions[..x.commit]), actions[x.commit], k)
    ensures x.op.SerialFact? && x.op.key == k
  {}

  lemma {:induction false} AppliedIsPlaced(actions: seq<Action>, s: seq<Placed>, i: nat, k: InboxKey)
    requires AllPlaced(actions, s) && AllAnswered(actions, s)
    requires i < |actions| && Applies(Run(actions[..i]), actions[i], k)
    ensures PlacedFact(s, |s|, k)
  {
    assert CommitsAt(actions, i);
    var j :| 0 <= j < |s| && s[j].commit == i;
    assert InPlace(actions, s, j);
    PlacedAs(actions, s[j], k);
  }

  /** The facts of the serial order are those that were applied in the run. */
  lemma {:induction false} PlacedIffApplied(actions: seq<Action>, s: seq<Placed>, k: InboxKey)
    requires AllPlaced(actions, s) && AllAnswered(actions, s)
    ensures PlacedFact(s, |s|, k) <==> AppliedIn(actions, k)
  {
    if PlacedFact(s, |s|, k) {
      var j :| 0 <= j < |s| && s[j].op.SerialFact? && s[j].op.key == k;
      assert InPlace(actions, s, j);
      PlacedFactApplies(actions, s, j);
      AppliedAt(actions, s[j].commit, k);
    }
    if AppliedIn(actions, k) {
      var i := AppliedSomewhere(actions, k);
      AppliedIsPlaced(actions, s, i, k);
    }
  }

  ghost predicate SameInboxRow(a: Db, b: Db, k: InboxKey) {
    (k in a.inbox <==> k in b.inbox) && (k in a.inbox ==> a.inbox[k] == b.inbox[k])
  }

  ghost predicate SameInbox(actions: seq<Action>, s: seq<Placed>) {
    forall k {:trigger NeverRecorded(actions, k)} ::
      NeverRecorded(actions, k) ==> SameInboxRow(Run(actions).db, SerialAt(s, |s|), k)
  }

  /** The serial order leaves the inbox row the run left, for every event for which no
      failure was recorded. */
  lemma {:induction false} RunInboxIsSerial(actions: seq<Action>, s: seq<Placed>, k: InboxKey)
    requires Serialises(actions, s) && NeverRecorded(actions, k)
    ensures SameInboxRow(Run(actions).db, SerialAt(s, |s|), k)
  {
    RunInbox(actions, k);
    SerialInbox(actions, s, |s|, k);
    PlacedIffApplied(actions, s, k);
  }

  /** Every run is serialisable: its committed creations, cancellations and facts
      occur exactly once each in a serial order, a fact between its row read and its
      commit; there each returns and sends what it did in the run, and the orders,
      items, sagas, requests, order events and outbox messages are the same. So is the
      inbox row of every event for which no failure was recorded. */
  lemma {:induction false} RunIsSerial(actions: seq<Action>)
    ensures exists s :: Serialises(actions, s) && SameInbox(actions, s)
  {
    var s := OrderExists(actions);
    forall k | NeverRecorded(actions, k) ensures SameInboxRow(Run(actions).db, SerialAt(s, |s|), k) {
      RunInboxIsSerial(actions, s, k);
    }
    assert SameInbox(actions, s);
  }
}
