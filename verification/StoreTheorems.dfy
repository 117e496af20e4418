/** What holds of every run of the store, for every interleaving of its transactions. */
module StoreTheorems {
  import opened Basics
  import opened OrderAggregate
  import opened QuoteLines
  import opened Saga
  import opened SagaInvariant
  import opened SagaPreservation
  import opened SagaInterleaving
  import opened SagaTheorems
  import opened StoreModel
  import opened StoreInvariant

  ghost function OrderLog(w: World, id: string): seq<Message> {
    LogOf(w.db.outbox, id)
  }

  lemma {:induction false} RunOrder(actions: seq<Action>, id: string)
    requires id in Run(actions).db.orders
    ensures var w := Run(actions);
            w.db.orders[id].id == id && OrderInv(w.db.orders[id], ItemsOf(w.db, id), OrderLog(w, id))
  {
    RunKeeps(actions);
    assert OrderOk(Run(actions).db, id);
  }

  // ------------------------------------------------------------- one order, any run

  /** Folding an order's events in outbox order gives exactly its stored status. */
  lemma {:induction false} RunEventsTellStatus(actions: seq<Action>, id: string)
    requires id in Run(actions).db.orders
    ensures var w := Run(actions); var log := OrderLog(w, id); var status := w.db.orders[id].status;
            && LastStatus(log) == Some(status)
            && CountEvents(log, Pending) == 1 && CountEvents(log, Confirmed) <= 1 &&
               CountEvents(log, CancelRequested) <= 1
            && CountEvents(log, Cancelled) + CountEvents(log, Completed) + CountEvents(log, Failed) ==
               (if IsTerminal(status) then 1 else 0)
            && forall i, j :: 0 <= i < j < |log| && Announces(log[i].body).Some? && Announces(log[j].body).Some? ==>
                 log[i].version < log[j].version
  {
    RunOrder(actions, id);
    EventsTellStatus(Run(actions).db.orders[id], ItemsOf(Run(actions).db, id), OrderLog(Run(actions), id));
  }

  /** At most one authorise command; it and every refund command carry the stored total. */
  lemma {:induction false} RunMoneyConserved(actions: seq<Action>, id: string)
    requires id in Run(actions).db.orders
    ensures var w := Run(actions); var log := OrderLog(w, id); var row := w.db.orders[id];
            && (forall i, j :: 0 <= i < j < |log| ==> !(log[i].body.AuthorizePayment? && log[j].body.AuthorizePayment?))
            && (forall i :: 0 <= i < |log| && (log[i].body.AuthorizePayment? || log[i].body.RefundPayment?) ==>
                  row.total == Some(log[i].body.amount) && log[i].body.currency == row.currency)
            && (row.total.Some? ==> row.total.value as int == StoredSum(ItemsOf(w.db, id)))
  {
    RunOrder(actions, id);
    MoneyConserved(Run(actions).db.orders[id], ItemsOf(Run(actions).db, id), OrderLog(Run(actions), id));
  }

  /** During and after a cancellation every reference held has its compensating
      command, and a cancelled order has every completion flag it needs. */
  lemma {:induction false} RunCancellationCompensates(actions: seq<Action>, id: string)
    requires id in Run(actions).db.orders && Cancelling(Run(actions).db.orders[id].status)
    ensures var w := Run(actions); var row := w.db.orders[id];
            && (row.reservationId.Some? ==> Sent(OrderLog(w, id), ReleaseInventory(row.reservationId.value)))
            && (row.paymentId.Some? ==>
                  row.total.Some? &&
                    Sent(OrderLog(w, id), RefundPayment(row.paymentId.value, row.total.value, row.currency)))
            && (row.status == Cancelled ==> CompensationComplete(row))
  {
    RunOrder(actions, id);
  }

  /** A payment implies a total, a total a reservation, CONFIRMED all three, COMPLETED a shipment. */
  lemma {:induction false} RunReferences(actions: seq<Action>, id: string)
    requires id in Run(actions).db.orders
    ensures var row := Run(actions).db.orders[id];
            && (row.paymentId.Some? ==> row.total.Some?) && (row.total.Some? ==> row.reservationId.Some?)
            && (row.status == Confirmed ==> row.paymentId.Some?) && (row.status == Completed ==> row.shipmentId.Some?)
  {
    RunOrder(actions, id);
  }

  /** Applying a fact a second time to any reachable order changes nothing a
      reader sees, and any extra command repeats one already in the outbox. */
  lemma {:induction false} RunTwiceIsOnce(actions: seq<Action>, id: string, e: Envelope, q1: bool, n1: int, q2: bool,
                                          n2: int)
    requires id in Run(actions).db.orders
    requires Serial(Run(actions).db.orders[id], ItemsOf(Run(actions).db, id), e, q1, n1).Applied?
    ensures var w := Run(actions);
            var once := Serial(w.db.orders[id], ItemsOf(w.db, id), e, q1, n1).view;
            Harmless(once, OrderLog(w, id) + once.out, Serial(once.row, once.items, e, q2, n2))
  {
    RunOrder(actions, id);
    TwiceIsOnce(Run(actions).db.orders[id], ItemsOf(Run(actions).db, id), OrderLog(Run(actions), id), e, q1, n1, q2,
                n2);
  }

  // -------------------------------------------------------------- the row's history

  lemma {:induction false} LastStepAdvances(actions: seq<Action>, id: string)
    requires actions != [] && id in Run(actions[..|actions| - 1]).db.orders
    ensures OrderAdvances(Run(actions[..|actions| - 1]).db, Run(actions).db, id)
  {
    RunKeeps(actions[..|actions| - 1]);
    StepKeeps(Run(actions[..|actions| - 1]), actions[|actions| - 1]);
  }

  ghost predicate OrderHistory(before: Db, after: Db, id: string) {
    && id in before.orders && id in after.orders && AdvancedFrom(before.orders[id], after.orders[id])
    && (before.orders[id].version == after.orders[id].version ==> ItemsOf(before, id) == ItemsOf(after, id))
    && LogOf(before.outbox, id) <= LogOf(after.outbox, id)
  }

  lemma {:induction false} HistoryExtends(before: Db, db: Db, after: Db, id: string)
    requires OrderHistory(before, db, id) && OrderAdvances(db, after, id)
    ensures OrderHistory(before, after, id)
  {}

  /** Between any two moments of a run: a version names one row and one item list,
      the total is written once, a terminal status never changes, and messages
      are only added. */
  lemma {:induction false} RunHistory(actions: seq<Action>, k: nat, id: string)
    requires k <= |actions| && id in Run(actions[..k]).db.orders
    ensures OrderHistory(Run(actions[..k]).db, Run(actions).db, id)
  {
    if k == |actions| {
      assert actions[..k] == actions;
    } else {
      var n := |actions| - 1;
      assert actions[..n][..k] == actions[..k];
      RunHistory(actions[..n], k, id);
      LastStepAdvances(actions, id);
      HistoryExtends(Run(actions[..k]).db, Run(actions[..n]).db, Run(actions).db, id);
    }
  }

  // ------------------------------------------------------- fresh and stale commits

  /** A commit whose order has not changed since its row was read. */
  ghost predicate FreshCommit(w: World, act: Action) {
    && act.Commit? && act.a in w.attempts
    && HandleAttempt(w.db, w.attempts[act.a], act.quoteOk, act.now).Applied?
    && w.attempts[act.a].row.value.version == w.db.orders[w.attempts[act.a].e.orderId].version
  }

  /** A commit from an up-to-date read is the fact applied to the stored order. */
  lemma {:induction false} FreshAttempt(db: Db, at: Attempt, quoteOk: bool, now: int)
    requires DbInv(db) && AttemptOk(db, at) && HandleAttempt(db, at, quoteOk, now).Applied?
    requires at.row.value.version == db.orders[at.e.orderId].version
    ensures Serial(db.orders[at.e.orderId], ItemsOf(db, at.e.orderId), at.e, quoteOk, now) ==
            HandleAttempt(db, at, quoteOk, now)
  {}

  lemma {:induction false} StaleAttempt(db: Db, at: Attempt, quoteOk: bool, now: int)
    requires DbInv(db) && AttemptOk(db, at) && HandleAttempt(db, at, quoteOk, now).Applied?
    requires at.row.value.version != db.orders[at.e.orderId].version
    ensures var id := at.e.orderId; var v := HandleAttempt(db, at, quoteOk, now).view;
            && v.row == db.orders[id] && v.items == ItemsOf(db, id)
            && (forall k :: 0 <= k < |v.out| ==> v.out[k].body.ReleaseInventory? || v.out[k].body.RefundPayment?)
            && Repeats(LogOf(db.outbox, id), v.out) && (v.out == [] || at.row.value.status == CancelRequested)
  {
    var id := at.e.orderId;
    assert OrderOk(db, id);
    StaleHandle(View(db.orders[id], ItemsOf(db, id), []), OrderValue(at.row.value, at.items.value), at.e, quoteOk, now);
    if HandleAttempt(db, at, quoteOk, now).view.out != [] {
      CompensationRepeats(db.orders[id], LogOf(db.outbox, id), at.row.value, at.e.sagaId, at.e.eventId,
                          TriggerOf(at.e.body));
    }
  }

  lemma {:induction false} ItemsKnown(db: Db, id: string)
    requires DbInv(db) && id in db.orders
    ensures id in db.items && db.items[id := ItemsOf(db, id)] == db.items && db.orders[id := db.orders[id]] == db.orders
  {
    assert OrderOk(db, id);
  }

  /** A commit from a stale read changes no table but the inbox, and adds only
      commands that repeat ones in the outbox. */
  lemma {:induction false} StaleCommitRepeats(db: Db, at: Attempt, quoteOk: bool, now: int)
    requires DbInv(db) && AttemptOk(db, at) && HandleAttempt(db, at, quoteOk, now).Applied?
    requires at.row.value.version != db.orders[at.e.orderId].version
    ensures var out := HandleAttempt(db, at, quoteOk, now).view.out; var next := CommitAttempt(db, at, quoteOk, now);
            && next == db.(outbox := db.outbox + out, inbox := next.inbox)
            && Repeats(LogOf(db.outbox, at.e.orderId), out)
            && (forall k :: 0 <= k < |out| ==> Announces(out[k].body).None?)
  {
    StaleAttempt(db, at, quoteOk, now);
    ItemsKnown(db, at.e.orderId);
  }

  // ------------------------------------------------------------- where money comes from

  lemma {:induction false} ChangedByCommit(w: World, act: Action, id: string)
    requires WorldInv(w) && id in w.db.orders && id in Step(w, act).db.orders
    requires Step(w, act).db.orders[id] != w.db.orders[id] && !act.CancelOrder?
    ensures act.Commit? && act.a in w.attempts && w.attempts[act.a].e.orderId == id
    ensures HandleAttempt(w.db, w.attempts[act.a], act.quoteOk, act.now).Applied?
    ensures HandleAttempt(w.db, w.attempts[act.a], act.quoteOk, act.now).view.row == Step(w, act).db.orders[id]
    ensures HandleAttempt(w.db, w.attempts[act.a], act.quoteOk, act.now).view.items == ItemsOf(Step(w, act).db, id)
  {}

  /** A commit that changes an order's row is its fact applied to the stored row. */
  lemma {:induction false} ChangeIsSerial(w: World, act: Action, id: string)
    requires WorldInv(w) && id in w.db.orders && id in Step(w, act).db.orders
    requires Step(w, act).db.orders[id] != w.db.orders[id] && !act.CancelOrder?
    ensures FreshCommit(w, act) && w.attempts[act.a].e.orderId == id
    ensures Serial(w.db.orders[id], ItemsOf(w.db, id), w.attempts[act.a].e, act.quoteOk, act.now) ==
            Applied(View(Step(w, act).db.orders[id], ItemsOf(Step(w, act).db, id),
                         HandleAttempt(w.db, w.attempts[act.a], act.quoteOk, act.now).view.out))
  {
    ChangedByCommit(w, act, id);
    var at := w.attempts[act.a];
    if at.row.value.version != w.db.orders[id].version {
      StaleAttempt(w.db, at, act.quoteOk, act.now);
    } else {
      FreshAttempt(w.db, at, act.quoteOk, act.now);
    }
  }

  /** In every run, a payment reference is written only by the commit of an
      authorisation of exactly the stored total. */
  lemma {:induction false} RunPaymentsAreAuthorised(actions: seq<Action>, act: Action, id: string)
    requires var w := Run(actions); id in w.db.orders && id in Step(w, act).db.orders
    requires Step(Run(actions), act).db.orders[id].paymentId != Run(actions).db.orders[id].paymentId
    ensures var w := Run(actions);
            act.Commit? && act.a in w.attempts &&
            var e := w.attempts[act.a].e;
            && e.orderId == id && e.body.PaymentAuthorized?
            && Step(w, act).db.orders[id].paymentId == Some(e.body.paymentId)
            && w.db.orders[id].total.Some? && e.body.amount == w.db.orders[id].total &&
               e.body.currency == w.db.orders[id].currency
  {
    RunKeeps(actions);
    var w := Run(actions);
    assert OrderOk(w.db, id);
    ChangeIsSerial(w, act, id);
    AcceptedAuthorisationCarriesTotal(w.db.orders[id], ItemsOf(w.db, id), w.attempts[act.a].e, act.quoteOk, act.now);
  }

  lemma {:induction false} ItemsChangeWithRow(actions: seq<Action>, act: Action, id: string)
    requires var w := Run(actions); id in w.db.orders && id in Step(w, act).db.orders
    requires ItemsOf(Step(Run(actions), act).db, id) != ItemsOf(Run(actions).db, id)
    ensures Step(Run(actions), act).db.orders[id] != Run(actions).db.orders[id] && !act.CancelOrder?
  {
    RunKeeps(actions);
    StepKeeps(Run(actions), act);
    assert OrderAdvances(Run(actions).db, Step(Run(actions), act).db, id);
  }

  /** In every run, item rows are written only by the commit of a reservation fact that
      names their order: no other fact, and no request, changes them. */
  lemma {:induction false} RunItemsOnlyFromReservation(actions: seq<Action>, act: Action, id: string)
    requires var w := Run(actions); id in w.db.orders && id in Step(w, act).db.orders
    requires ItemsOf(Step(Run(actions), act).db, id) != ItemsOf(Run(actions).db, id)
    ensures var w := Run(actions);
            && act.Commit? && act.a in w.attempts && w.attempts[act.a].e.orderId == id
            && w.attempts[act.a].e.body.InventoryReserved?
  {
    var w := Run(actions);
    RunKeeps(actions);
    ItemsChangeWithRow(actions, act, id);
    ChangeIsSerial(w, act, id);
    if !w.attempts[act.a].e.body.InventoryReserved? {
      HandleKeepsItems(View(w.db.orders[id], ItemsOf(w.db, id), []), OrderValue(w.db.orders[id], ItemsOf(w.db, id)),
                       w.attempts[act.a].e, act.quoteOk, act.now);
    }
  }

  /** In every run, a change of status follows the aggregate's table unless it is the
      commit of a completion fact for an order that is not CONFIRMED. */
  lemma {:induction false} RunFollowsTableIff(actions: seq<Action>, act: Action, id: string)
    requires var w := Run(actions); id in w.db.orders && id in Step(w, act).db.orders
    requires Step(Run(actions), act).db.orders[id].status != Run(actions).db.orders[id].status
    ensures var w := Run(actions); var from, to := w.db.orders[id].status, Step(w, act).db.orders[id].status;
            AllowedTransition(from, to) <==>
            !(act.Commit? && act.a in w.attempts && w.attempts[act.a].e.body.FulfillmentCompleted? && from != Confirmed)
  {
    RunKeeps(actions);
    var w := Run(actions);
    assert OrderOk(w.db, id);
    if !act.CancelOrder? {
      ChangeIsSerial(w, act, id);
      FollowsTableIff(w.db.orders[id], ItemsOf(w.db, id), w.attempts[act.a].e, act.quoteOk, act.now);
    }
  }

  /** The payment checks of a pending order, in the row a handler loaded. */
  ghost predicate PaymentMatches(row: OrderRow, e: Envelope) {
    && e.body.PaymentAuthorized? && row.status == Pending && ValidPaymentId(e.body.paymentId)
    && e.body.amount.Some? && e.body.amount == row.total && e.body.currency == row.currency
  }

  /** In every run, an attempt in flight whose payment matches the row it loaded finds
      a reservation there: the missing-reservation error cannot occur. If that row is
      still current and the event is not recorded, the commit confirms the order. */
  lemma {:induction false} RunReservationNeverMissing(actions: seq<Action>, a: nat, quoteOk: bool, now: int)
    requires a in Run(actions).attempts && Run(actions).attempts[a].row.Some?
    requires PaymentMatches(Run(actions).attempts[a].row.value, Run(actions).attempts[a].e)
    ensures var w := Run(actions); var at := w.attempts[a];
            && at.e.orderId in w.db.orders && at.row.value.reservationId.Some? && at.row.value.reservationId.value != ""
            && (at.items.Some? && InboxFree(w.db, at) && at.row.value.version == w.db.orders[at.e.orderId].version ==>
                  var o := HandleAttempt(w.db, at, quoteOk, now);
                  o.Applied? && o.view.row.status == Confirmed && o.view.row.paymentId == Some(at.e.body.paymentId))
  {
    RunKeeps(actions);
    var w := Run(actions);
    var at := w.attempts[a];
    assert AttemptOk(w.db, at) && OrderOk(w.db, at.e.orderId);
    if at.row.value == w.db.orders[at.e.orderId] {
      ConfirmEffect(at.row.value, ItemsOf(w.db, at.e.orderId), at.e, quoteOk, now);
    }
  }

  /** In every run, a total is written only by the commit of a reservation whose quote
      was verified and whose quoted lines, prices and line totals are those of the items then stored,
      and the total is the sum of the quoted line totals. */
  lemma {:induction false} RunTotalsAreQuoted(actions: seq<Action>, act: Action, id: string)
    requires var w := Run(actions); id in w.db.orders && id in Step(w, act).db.orders
    requires Step(Run(actions), act).db.orders[id].total != Run(actions).db.orders[id].total
    ensures var w := Run(actions); var next := Step(w, act).db; var items := ItemsOf(next, id);
            act.Commit? && act.a in w.attempts &&
            var f := w.attempts[act.a].e.body;
            && act.quoteOk && w.attempts[act.a].e.orderId == id
            && f.InventoryReserved? && f.lines.Some? && w.db.orders[id].total.None?
            && next.orders[id].reservationId == Some(f.reservationId)
            && (forall i :: 0 <= i < |items| ==> items[i].unitPrice.Some? && items[i].lineTotal.Some?)
            && multiset(StoredFacts(items)) == multiset(LineFacts(f.lines.value))
            && next.orders[id].total.Some? &&
               next.orders[id].total.value as int == SumOfTotals(LineFacts(f.lines.value))
  {
    RunKeeps(actions);
    var w := Run(actions);
    assert OrderOk(w.db, id);
    ChangeIsSerial(w, act, id);
    var e := w.attempts[act.a].e;
    TotalOnlyFromReservation(w.db.orders[id], ItemsOf(w.db, id), e, act.quoteOk, act.now);
    AcceptedReservation(w.db.orders[id], ItemsOf(w.db, id), LogOf(w.db.outbox, id), e, act.quoteOk, act.now);
  }
}
