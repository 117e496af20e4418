/** Deduplication over whole runs: events through the inbox, requests through
    their idempotency records. */
module StoreDelivery {
  import opened Basics
  import opened OrderAggregate
  import opened Saga
  import opened StoreModel
  import opened StoreInvariant

  // -------------------------------------------------------------------- inbox events

  /** The action commits an application of the event. */
  ghost predicate Applies(w: World, act: Action, k: InboxKey) {
    && act.Commit? && act.a in w.attempts && w.attempts[act.a].key == k
    && HandleAttempt(w.db, w.attempts[act.a], act.quoteOk, act.now).Applied?
  }

  /** The action writes a failure record over a row that was already PROCESSED or DLQ. */
  ghost predicate Overwrites(w: World, act: Action, k: InboxKey) {
    act.Fail? && HasInboxIdentity(act.payload) && k == InboxKey(act.group, act.payload.envelope.eventId) &&
      Settled(w.db, k)
  }

  /** The action commits although the event was settled after its transaction began. */
  ghost predicate AppliesLate(w: World, act: Action, k: InboxKey) {
    Applies(w, act, k) && Settled(w.db, k)
  }

  ghost function Count(actions: seq<Action>, k: InboxKey, p: (World, Action, InboxKey) -> bool): nat {
    if actions == [] then 0
    else Count(actions[..|actions| - 1], k, p) +
         (if p(Run(actions[..|actions| - 1]), actions[|actions| - 1], k) then 1 else 0)
  }

  /** The action dead-letters a row that was not settled. */
  ghost predicate Buries(w: World, act: Action, k: InboxKey) {
    act == DeadLetter(k) && k in w.db.inbox && !Settled(w.db, k)
  }

  function One(b: bool): nat {
    if b then 1 else 0
  }

  /** Every action balances: an application or a burial settles the row, unless it
      was settled before; only a failure record unsettles it. */
  lemma {:induction false} SettledBalance(w: World, act: Action, k: InboxKey)
    requires WorldInv(w)
    ensures One(Applies(w, act, k)) + One(Buries(w, act, k)) + One(Settled(w.db, k)) ==
            One(Overwrites(w, act, k)) + One(AppliesLate(w, act, k)) + One(Settled(Step(w, act).db, k))
  {
    if act.Commit? && act.a in w.attempts {
      assert AttemptOk(w.db, w.attempts[act.a]);
    }
  }

  /** In every run the committed applications of an event, together with the
      dead-letter marks of its unsettled row, number exactly the failure records
      written over its settled row plus the commits made after it was settled,
      plus one if it is settled now. */
  lemma {:induction false} ApplicationsExact(actions: seq<Action>, k: InboxKey)
    ensures Count(actions, k, Applies) + Count(actions, k, Buries) ==
            Count(actions, k, Overwrites) + Count(actions, k, AppliesLate) + One(Settled(Run(actions).db, k))
  {
    if actions != [] {
      var n := |actions| - 1;
      ApplicationsExact(actions[..n], k);
      RunKeeps(actions[..n]);
      SettledBalance(Run(actions[..n]), actions[n], k);
    }
  }

  /** An event is applied at most once exactly when the reopenings of its row and
      the late commits do not outnumber the burials, counting its present state. */
  lemma {:induction false} AtMostOnceIff(actions: seq<Action>, k: InboxKey)
    ensures Count(actions, k, Applies) <= 1 <==>
            Count(actions, k, Overwrites) + Count(actions, k, AppliesLate) + One(Settled(Run(actions).db, k)) <=
            1 + Count(actions, k, Buries)
  {
    ApplicationsExact(actions, k);
  }

  ghost predicate Touches(act: Action, k: InboxKey) {
    match act
    case Open(_, group, p) => p.Json? && k == InboxKey(group, p.envelope.eventId)
    case Fail(group, p) => p.Json? && k == InboxKey(group, p.envelope.eventId)
    case DeadLetter(key) => key == k
    case _ => false
  }

  ghost predicate InFlight(w: World, k: InboxKey) {
    exists a :: a in w.attempts && w.attempts[a].key == k
  }

  /** No attempt at the event begins, and no failure of it is recorded, while another is in flight. */
  ghost predicate NonOverlapping(actions: seq<Action>, k: InboxKey) {
    forall n :: 0 <= n < |actions| && Touches(actions[n], k) ==> !InFlight(Run(actions[..n]), k)
  }

  ghost predicate Exclusive(w: World, k: InboxKey) {
    && (forall a, b ::
          a in w.attempts && b in w.attempts && w.attempts[a].key == k && w.attempts[b].key == k ==> a == b)
    && (InFlight(w, k) ==> !Settled(w.db, k))
  }

  lemma {:induction false} SettledOnlyBy(w: World, act: Action, k: InboxKey)
    requires Settled(Step(w, act).db, k) && !Settled(w.db, k)
    ensures (act.Commit? && act.a in w.attempts && w.attempts[act.a].key == k) || act == DeadLetter(k)
  {}

  lemma {:induction false} AttemptFrom(w: World, act: Action, a: nat)
    requires a in Step(w, act).attempts
    ensures var key := Step(w, act).attempts[a].key;
            || (a in w.attempts && w.attempts[a].key == key && !(act.Commit? && act.a == a))
            || (a !in w.attempts && act.Open? && act.a == a && Touches(act, key) && !Settled(w.db, key) &&
               Step(w, act).db == w.db)
  {}

  lemma {:induction false} ExclusiveStep(w: World, act: Action, k: InboxKey)
    requires Exclusive(w, k) && (Touches(act, k) ==> !InFlight(w, k))
    ensures Exclusive(Step(w, act), k)
  {
    var next := Step(w, act);
    forall a | a in next.attempts { AttemptFrom(w, act, a); }
    if InFlight(next, k) && Settled(next.db, k) && !Settled(w.db, k) {
      SettledOnlyBy(w, act, k);
    }
  }

  lemma {:induction false} NonOverlappingExclusive(actions: seq<Action>, k: InboxKey)
    requires NonOverlapping(actions, k)
    ensures Exclusive(Run(actions), k)
  {
    if actions != [] {
      var n := |actions| - 1;
      assert forall m :: 0 <= m < n ==> actions[..n][m] == actions[m] && actions[..n][..m] == actions[..m];
      NonOverlappingExclusive(actions[..n], k);
      ExclusiveStep(Run(actions[..n]), actions[n], k);
    }
  }

  lemma {:induction false} NonOverlappingNeverLate(actions: seq<Action>, k: InboxKey)
    requires NonOverlapping(actions, k)
    ensures Count(actions, k, AppliesLate) == 0
  {
    if actions != [] {
      var n := |actions| - 1;
      assert forall m :: 0 <= m < n ==> actions[..n][m] == actions[m] && actions[..n][..m] == actions[..m];
      NonOverlappingNeverLate(actions[..n], k);
      NonOverlappingExclusive(actions[..n], k);
    }
  }

  /** With non-overlapping attempts an event is applied at most once, plus once for
      every failure record written over its settled row. */
  lemma {:induction false} AppliedAtMostOnce(actions: seq<Action>, k: InboxKey)
    requires NonOverlapping(actions, k)
    ensures Count(actions, k, Applies) <= 1 + Count(actions, k, Overwrites)
  {
    ApplicationsExact(actions, k);
    NonOverlappingNeverLate(actions, k);
  }

  /** No failure record is written over the settled row of the event from moment m to j. */
  ghost predicate Undisturbed(actions: seq<Action>, m: nat, j: nat, k: InboxKey) {
    m <= j <= |actions| && forall n | m <= n < j :: !Overwrites(Run(actions[..n]), actions[n], k)
  }

  lemma {:induction false} RunLast(actions: seq<Action>, n: nat)
    requires n < |actions|
    ensures Run(actions[..n + 1]) == Step(Run(actions[..n]), actions[n])
  {
    assert actions[..n + 1][..n] == actions[..n];
  }

  lemma {:induction false} SettledAfter(w: World, next: World, act: Action, k: InboxKey)
    requires WorldInv(w) && next == Step(w, act) && !Overwrites(w, act, k)
    requires Settled(w.db, k) || Applies(w, act, k)
    ensures Settled(next.db, k)
  {
    SettledBalance(w, act, k);
  }

  lemma {:induction false} SettledUnlessOverwritten(actions: seq<Action>, m: nat, j: nat, k: InboxKey)
    requires Undisturbed(actions, m, j, k) && Settled(Run(actions[..m]).db, k)
    ensures Settled(Run(actions[..j]).db, k)
  {
    if m < j {
      var n := j - 1;
      SettledUnlessOverwritten(actions, m, n, k);
      RunKeeps(actions[..n]);
      RunLast(actions, n);
      SettledAfter(Run(actions[..n]), Run(actions[..j]), actions[n], k);
    }
  }

  lemma {:induction false} OpenBefore(w: World, next: World, act: Action, a: nat, k: InboxKey)
    requires next == Step(w, act) && Settled(w.db, k)
    requires a in next.attempts && next.attempts[a].key == k
    ensures a in w.attempts && w.attempts[a].key == k
  {
    AttemptFrom(w, act, a);
  }

  /** No attempt at an event begins while its row is settled. */
  lemma {:induction false} InFlightSince(actions: seq<Action>, m: nat, j: nat, a: nat, k: InboxKey)
    requires Undisturbed(actions, m, j, k) && Settled(Run(actions[..m]).db, k)
    requires a in Run(actions[..j]).attempts && Run(actions[..j]).attempts[a].key == k
    ensures a in Run(actions[..m]).attempts && Run(actions[..m]).attempts[a].key == k
  {
    if m < j {
      var n := j - 1;
      SettledUnlessOverwritten(actions, m, n, k);
      RunLast(actions, n);
      OpenBefore(Run(actions[..n]), Run(actions[..j]), actions[n], a, k);
      InFlightSince(actions, m, n, a, k);
    }
  }

  /** The attempt survives the commit of another attempt at the same event. */
  lemma {:induction false} OutlivesCommit(w: World, next: World, act: Action, a: nat, k: InboxKey)
    requires next == Step(w, act) && Applies(w, act, k)
    requires a in next.attempts && next.attempts[a].key == k
    ensures a in w.attempts && w.attempts[a].key == k && a != act.a
  {
    AttemptFrom(w, act, a);
  }

  /** Why an event is applied twice: of any two applications, the attempt of the second
      was already in flight when the first was committed, or a failure record was
      written over the settled row in between. */
  lemma {:induction false} AppliedTwiceOnlyIf(actions: seq<Action>, i: nat, j: nat, k: InboxKey)
    requires i < j < |actions|
    requires Applies(Run(actions[..i]), actions[i], k) && Applies(Run(actions[..j]), actions[j], k)
    ensures || (exists n | i < n < j :: Overwrites(Run(actions[..n]), actions[n], k))
            || (&& actions[j].a in Run(actions[..i]).attempts && Run(actions[..i]).attempts[actions[j].a].key == k
                && actions[j].a != actions[i].a)
  {
    if Undisturbed(actions, i + 1, j, k) {
      RunKeeps(actions[..i]);
      RunLast(actions, i);
      SettledAfter(Run(actions[..i]), Run(actions[..i + 1]), actions[i], k);
      InFlightSince(actions, i + 1, j, actions[j].a, k);
      OutlivesCommit(Run(actions[..i]), Run(actions[..i + 1]), actions[i], actions[j].a, k);
    }
  }

  // The allowance for failure records is needed: such a record reopens a processed
  // event, and a redelivery then applies it again.

  ghost function Delivered(w: World, a: nat, group: string, e: Envelope): World {
    Step(Step(Step(w, Open(a, group, Json(e))), LoadRow(a)), LoadItems(a))
  }

  function ReadAttempt(db: Db, group: string, e: Envelope): Attempt
    requires e.orderId in db.orders
  {
    var k := InboxKey(group, e.eventId);
    Attempt(k, e, k !in db.inbox, Some(db.orders[e.orderId]), Some(ItemsOf(db, e.orderId)))
  }

  lemma {:induction false} DeliveredReads(w: World, a: nat, group: string, e: Envelope)
    requires Admissible(e) && a !in w.attempts && e.orderId in w.db.orders && !Settled(w.db, InboxKey(group, e.eventId))
    ensures Delivered(w, a, group, e) == World(w.db, w.attempts[a := ReadAttempt(w.db, group, e)])
  {
    var full := ReadAttempt(w.db, group, e);
    var w1 := Step(w, Open(a, group, Json(e)));
    assert w1 == World(w.db, w.attempts[a := full.(row := None, items := None)]);
    var w2 := Step(w1, LoadRow(a));
    assert w2 == World(w.db, w.attempts[a := full.(items := None)]);
  }

  lemma {:induction false} EndedOrderCommit(db: Db, at: Attempt, quoteOk: bool, now: int)
    requires at.e.body.FulfillmentCompleted? && at.row.Some? && at.items.Some? && IsTerminal(at.row.value.status)
    requires at.e.orderId in db.orders && InboxFree(db, at) && (!at.inserted ==> at.key in db.inbox)
    ensures HandleAttempt(db, at, quoteOk, now).Applied?
    ensures var next := CommitAttempt(db, at, quoteOk, now); next.orders == db.orders && Settled(next, at.key)
  {
    assert db.orders[at.e.orderId := db.orders[at.e.orderId]] == db.orders;
  }

  /** A completion fact for an ended order is applied whenever its inbox row is not settled. */
  lemma {:induction false} EndedOrderDelivery(w: World, a: nat, group: string, e: Envelope, quoteOk: bool, now: int)
    requires Admissible(e) && e.body.FulfillmentCompleted? && a !in w.attempts && e.orderId in w.db.orders
    requires IsTerminal(w.db.orders[e.orderId].status) && !Settled(w.db, InboxKey(group, e.eventId))
    ensures Applies(Delivered(w, a, group, e), Commit(a, quoteOk, now), InboxKey(group, e.eventId))
    ensures var next := Step(Delivered(w, a, group, e), Commit(a, quoteOk, now));
            next.attempts == w.attempts && next.db.orders == w.db.orders && Settled(next.db, InboxKey(group, e.eventId))
  {
    DeliveredReads(w, a, group, e);
    EndedOrderCommit(w.db, ReadAttempt(w.db, group, e), quoteOk, now);
  }

  lemma {:induction false} FailureUnsettles(w: World, group: string, e: Envelope)
    requires Admissible(e)
    ensures var next := Step(w, Fail(group, Json(e)));
            next.attempts == w.attempts && next.db.orders == w.db.orders &&
              !Settled(next.db, InboxKey(group, e.eventId))
  {}

  /** After any run, the completion of an ended order is applied, reopened by a
      failure record and applied again. */
  lemma {:induction false} FailureRecordReopens(actions: seq<Action>, a: nat, group: string, e: Envelope,
                                                quoteOk: bool, now: int)
    requires var w := Run(actions);
             && Admissible(e) && e.body.FulfillmentCompleted? && a !in w.attempts
             && e.orderId in w.db.orders && IsTerminal(w.db.orders[e.orderId].status)
             && !Settled(w.db, InboxKey(group, e.eventId))
    ensures var k := InboxKey(group, e.eventId);
            var first := Delivered(Run(actions), a, group, e);
            var between := Step(first, Commit(a, quoteOk, now));
            var second := Delivered(Step(between, Fail(group, Json(e))), a, group, e);
            && Applies(first, Commit(a, quoteOk, now), k) && Overwrites(between, Fail(group, Json(e)), k)
            && Applies(second, Commit(a, quoteOk, now), k)
  {
    EndedOrderDelivery(Run(actions), a, group, e, quoteOk, now);
    var between := Step(Delivered(Run(actions), a, group, e), Commit(a, quoteOk, now));
    FailureUnsettles(between, group, e);
    EndedOrderDelivery(Step(between, Fail(group, Json(e))), a, group, e, quoteOk, now);
  }

  /** After any run that left the event's row in RETRY, two overlapping attempts at
      the completion of an ended order both commit: the second one late. */
  lemma {:induction false} OverlapAppliesLate(actions: seq<Action>, a: nat, b: nat, group: string, e: Envelope,
                                              quoteOk: bool, now: int)
    requires var w := Run(actions); var k := InboxKey(group, e.eventId);
             && Admissible(e) && e.body.FulfillmentCompleted? && a !in w.attempts && b !in w.attempts && a != b
             && e.orderId in w.db.orders && IsTerminal(w.db.orders[e.orderId].status)
             && k in w.db.inbox && w.db.inbox[k].status == Retry
    ensures var k := InboxKey(group, e.eventId);
            var both := Delivered(Delivered(Run(actions), a, group, e), b, group, e);
            && Applies(both, Commit(a, quoteOk, now), k)
            && AppliesLate(Step(both, Commit(a, quoteOk, now)), Commit(b, quoteOk, now), k)
  {
    OverlapReads(Run(actions), a, b, group, e);
    OverlapCommits(Run(actions), a, b, ReadAttempt(Run(actions).db, group, e), quoteOk, now);
  }

  lemma {:induction false} OverlapReads(w: World, a: nat, b: nat, group: string, e: Envelope)
    requires Admissible(e) && a !in w.attempts && b !in w.attempts && a != b
    requires e.orderId in w.db.orders && !Settled(w.db, InboxKey(group, e.eventId))
    ensures var at := ReadAttempt(w.db, group, e);
            Delivered(Delivered(w, a, group, e), b, group, e) == World(w.db, w.attempts[a := at][b := at])
  {
    DeliveredReads(w, a, group, e);
    DeliveredReads(Delivered(w, a, group, e), b, group, e);
  }

  lemma {:induction false} OverlapCommits(w: World, a: nat, b: nat, at: Attempt, quoteOk: bool, now: int)
    requires at.e.body.FulfillmentCompleted? && at.row.Some? && at.items.Some? && IsTerminal(at.row.value.status)
    requires at.e.orderId in w.db.orders && !at.inserted && at.key in w.db.inbox && a != b
    ensures var both := World(w.db, w.attempts[a := at][b := at]);
            && Applies(both, Commit(a, quoteOk, now), at.key)
            && AppliesLate(Step(both, Commit(a, quoteOk, now)), Commit(b, quoteOk, now), at.key)
  {
    EndedOrderCommit(w.db, at, quoteOk, now);
    EndedOrderCommit(CommitAttempt(w.db, at, quoteOk, now), at, quoteOk, now);
  }

  /** No committed inbox row is ever RECEIVED. */
  lemma {:induction false} NeverLeftReceived(actions: seq<Action>, k: InboxKey)
    requires k in Run(actions).db.inbox
    ensures Run(actions).db.inbox[k].status != Received
  {
    RunKeeps(actions);
  }

  // ---------------------------------------------------------------- request records

  lemma {:induction false} RecordsStepKept(w: World, act: Action, k: RequestKey)
    requires k in w.db.requests
    ensures k in Step(w, act).db.requests && Step(w, act).db.requests[k] == w.db.requests[k]
  {}

  lemma {:induction false} LastRecordKept(actions: seq<Action>, k: RequestKey)
    requires actions != [] && k in Run(actions[..|actions| - 1]).db.requests
    ensures k in Run(actions).db.requests
    ensures Run(actions).db.requests[k] == Run(actions[..|actions| - 1]).db.requests[k]
  {
    RecordsStepKept(Run(actions[..|actions| - 1]), actions[|actions| - 1], k);
  }

  /** A committed request record is never changed. */
  lemma {:induction false} RecordsKept(actions: seq<Action>, n: nat, k: RequestKey)
    requires n <= |actions| && k in Run(actions[..n]).db.requests
    ensures k in Run(actions).db.requests && Run(actions).db.requests[k] == Run(actions[..n]).db.requests[k]
  {
    if n == |actions| {
      assert actions[..n] == actions;
    } else {
      var m := |actions| - 1;
      assert actions[..m][..n] == actions[..n];
      RecordsKept(actions[..m], n, k);
      LastRecordKept(actions, k);
    }
  }

  lemma {:induction false} CreateSuccessRecorded(db: Db, r: CreateRequest)
    requires DbInv(db) && CreateOutcome(db, r).Ok?
    ensures var o := CreateOutcome(db, r).value;
            r.key in Create(db, r).requests &&
            Create(db, r).requests[r.key] == RequestRecord(r.hash, Some(o.order.row.id), Some(o.response))
  {
    if r.key in db.requests {
      assert RequestOk(db, r.key);
      assert OrderOk(db, db.requests[r.key].resource.value);
    }
  }

  /** A creation whose key is recorded: nothing is written; it succeeds only with
      the recorded hash, and then returns the recorded order and response. */
  lemma {:induction false} RecordedCreate(db: Db, r: CreateRequest)
    requires DbInv(db) && r.key in db.requests
    ensures Create(db, r) == db
    ensures var o := CreateOutcome(db, r); var record := db.requests[r.key];
            && (o.Ok? ==> o.value.replayed && record.hash == r.hash
                          && record.resource == Some(o.value.order.row.id) && record.response == Some(o.value.response))
            && (o.Err? ==> o.error.InvalidInput? || (o.error.IdempotencyConflict? && record.hash != r.hash))
  {
    assert RequestOk(db, r.key);
    assert OrderOk(db, db.requests[r.key].resource.value);
  }

  /** A request with its currency written differently is the same request. */
  lemma {:induction false} NormalisedRequest(db: Db, r: CreateRequest)
    ensures var n := r.(currency := Normal(r.currency));
            CreateOutcome(db, n) == CreateOutcome(db, r) && Create(db, n) == Create(db, r)
  {
    NormalTwice(r.currency);
  }

  /** A record made by one action is unchanged before a later one. */
  lemma {:induction false} RecordedBefore(actions: seq<Action>, i: nat, j: nat, k: RequestKey)
    requires i < j < |actions| && k in Step(Run(actions[..i]), actions[i]).db.requests
    ensures k in Run(actions[..j]).db.requests
    ensures Run(actions[..j]).db.requests[k] == Step(Run(actions[..i]), actions[i]).db.requests[k]
  {
    assert actions[..i + 1][..i] == actions[..i];
    assert actions[..j][..i + 1] == actions[..i + 1];
    RecordsKept(actions[..j], i + 1, k);
  }

  /** After a successful creation, every later creation under its key writes
      nothing; it is refused unless the hash is equal, and then it returns the
      same order and the first-stored response. */
  lemma {:induction false} CreateReplays(actions: seq<Action>, i: nat, j: nat)
    requires i < j < |actions| && actions[i].CreateOrder? && actions[j].CreateOrder?
    requires actions[i].create.key == actions[j].create.key
    requires CreateOutcome(Run(actions[..i]).db, actions[i].create).Ok?
    ensures var first := CreateOutcome(Run(actions[..i]).db, actions[i].create).value;
            var db := Run(actions[..j]).db;
            var second := CreateOutcome(db, actions[j].create);
            && Create(db, actions[j].create) == db
            && (second.Ok? ==>
                  && second.value.replayed && second.value.order.row.id == first.order.row.id
                  && second.value.response == first.response && actions[j].create.hash == actions[i].create.hash)
            && (second.Err? ==>
                  second.error.InvalidInput? ||
                  (second.error.IdempotencyConflict? && actions[j].create.hash != actions[i].create.hash))
  {
    RunKeeps(actions[..i]);
    RunKeeps(actions[..j]);
    CreateSuccessRecorded(Run(actions[..i]).db, actions[i].create);
    RecordedBefore(actions, i, j, actions[i].create.key);
    RecordedCreate(Run(actions[..j]).db, actions[j].create);
  }

  lemma {:induction false} CancelSuccessRecorded(db: Db, c: CancelRequest)
    requires DbInv(db) && CancelOutcome(db, c).Ok?
    ensures c.key in Cancel(db, c).requests && Cancel(db, c).requests[c.key].hash == c.hash
    ensures Cancel(db, c).requests[c.key].resource == Some(CancelOutcome(db, c).value.id)
    ensures c.key !in db.requests ==> CancelOutcome(db, c).value.id == c.orderId
  {
    if c.key in db.requests {
      assert RequestOk(db, c.key);
      assert OrderOk(db, db.requests[c.key].resource.value);
    } else {
      assert OrderOk(db, c.orderId);
    }
  }

  lemma {:induction false} RecordedCancel(db: Db, c: CancelRequest)
    requires DbInv(db) && c.key in db.requests
    ensures Cancel(db, c) == db
    ensures var o := CancelOutcome(db, c); var record := db.requests[c.key];
            if record.hash == c.hash then o.Ok? && record.resource == Some(o.value.id)
            else o == Err(IdempotencyConflict)
  {
    assert RequestOk(db, c.key);
    assert OrderOk(db, db.requests[c.key].resource.value);
  }

  /** After a successful cancellation, every later one under its key writes
      nothing: it returns the same order, or is refused for another hash. */
  lemma {:induction false} CancelReplays(actions: seq<Action>, i: nat, j: nat)
    requires i < j < |actions| && actions[i].CancelOrder? && actions[j].CancelOrder?
    requires actions[i].cancel.key == actions[j].cancel.key
    requires CancelOutcome(Run(actions[..i]).db, actions[i].cancel).Ok?
    ensures var first := CancelOutcome(Run(actions[..i]).db, actions[i].cancel).value;
            var db := Run(actions[..j]).db;
            var second := CancelOutcome(db, actions[j].cancel);
            && Cancel(db, actions[j].cancel) == db
            && if actions[j].cancel.hash == actions[i].cancel.hash
               then second.Ok? && second.value.id == first.id
               else second == Err(IdempotencyConflict)
  {
    RunKeeps(actions[..i]);
    RunKeeps(actions[..j]);
    CancelSuccessRecorded(Run(actions[..i]).db, actions[i].cancel);
    RecordedBefore(actions, i, j, actions[i].cancel.key);
    RecordedCancel(Run(actions[..j]).db, actions[j].cancel);
  }

  /** Orders come into being only by a first success under a key. */
  lemma {:induction false} OrdersOnlyFromFirstSuccess(w: World, act: Action, id: string)
    requires WorldInv(w) && id !in w.db.orders && id in Step(w, act).db.orders
    ensures act.CreateOrder? && act.create.orderId == id && act.create.key !in w.db.requests
    ensures CreateOutcome(w.db, act.create).Ok? && !CreateOutcome(w.db, act.create).value.replayed
  {}

  /** Two orders never come from one key. */
  lemma {:induction false} OneOrderPerKey(actions: seq<Action>, i: nat, j: nat, first: string, second: string)
    requires i < j < |actions|
    requires first !in Run(actions[..i]).db.orders && first in Step(Run(actions[..i]), actions[i]).db.orders
    requires second !in Run(actions[..j]).db.orders && second in Step(Run(actions[..j]), actions[j]).db.orders
    ensures actions[i].CreateOrder? && actions[j].CreateOrder? && actions[i].create.key != actions[j].create.key
  {
    RunKeeps(actions[..i]);
    RunKeeps(actions[..j]);
    OrdersOnlyFromFirstSuccess(Run(actions[..i]), actions[i], first);
    OrdersOnlyFromFirstSuccess(Run(actions[..j]), actions[j], second);
    CreateSuccessRecorded(Run(actions[..i]).db, actions[i].create);
    RecordedBefore(actions, i, j, actions[i].create.key);
  }
}
