/** The consumer loop of the orders relay: fetch, process or quarantine, commit. */
module RelayConsumer {
  import opened Basics
  import opened Saga
  import opened StoreModel
  import opened OrderStore

  // ---------------------------------------------------------------------- backoff

  const DELAYS: seq<nat> := [1, 5, 30, 120, 300, 600, 900, 1800]
  const MAX_ATTEMPTS: nat := 8

  /** Seconds to wait after the given number of attempts. */
  function OutboxBackoff(attempts: int): nat {
    if attempts < 0 then DELAYS[0] else if attempts >= |DELAYS| then DELAYS[|DELAYS| - 1] else DELAYS[attempts]
  }

  function InboxBackoff(attempt: int): nat {
    OutboxBackoff((if attempt < 1 then 1 else attempt) - 1)
  }

  /** The delays, attempt by attempt: the first of eight, then longer ones up to half an hour. */
  function RetryDelay(attempts: nat): nat {
    match attempts
    case 0 => 1
    case 1 => 5
    case 2 => 30
    case 3 => 120
    case 4 => 300
    case 5 => 600
    case 6 => 900
    case _ => 1800
  }

  /** Both relays wait by the same table; the consumer counts from its first failure. */
  lemma {:induction false} BackoffExact(attempts: nat)
    ensures OutboxBackoff(attempts) == RetryDelay(attempts)
    ensures InboxBackoff(attempts) == RetryDelay(if attempts == 0 then 0 else attempts - 1)
  {}

  // ------------------------------------------------------------------- the history

  datatype Delivery = Delivery(offset: int, value: Payload)

  /** What the outside world sees of the loop. */
  datatype Event = Fetched(m: Delivery) | Accepted | Quarantined | Committed(m: Delivery)

  function Fetches(t: seq<Event>): seq<Delivery> {
    if t == [] then []
    else Fetches(t[..|t| - 1]) + (if t[|t| - 1].Fetched? then [t[|t| - 1].m] else [])
  }

  function Commits(t: seq<Event>): seq<Delivery> {
    if t == [] then []
    else Commits(t[..|t| - 1]) + (if t[|t| - 1].Committed? then [t[|t| - 1].m] else [])
  }

  /** The event clears the message: the store accepted it, which it does only with an
      inbox identity, or it was published to the dead-letter topic. */
  ghost predicate Clears(e: Event, m: Delivery) {
    e.Quarantined? || (e.Accepted? && HasInboxIdentity(m.value))
  }

  /** The message, most recently fetched, was cleared after it was fetched. */
  ghost predicate Cleared(t: seq<Event>, m: Delivery) {
    exists d ::
      && 0 <= d < |t| && Clears(t[d], m)
      && forall k :: d < k < |t| ==> !t[k].Fetched? && !t[k].Committed?
  }

  /** At every moment: committed offsets are a prefix of the fetched ones, at most
      one message is outstanding, and no message is committed before it is cleared. */
  ghost predicate Safe(t: seq<Event>) {
    && (forall n :: 0 <= n <= |t| ==>
          Commits(t[..n]) <= Fetches(t[..n]) && |Fetches(t[..n])| <= |Commits(t[..n])| + 1)
    && (forall n :: 0 <= n < |t| && t[n].Committed? ==> Cleared(t[..n], t[n].m))
  }

  /** The acceptances and quarantines of a history, in order. */
  function Clearances(t: seq<Event>): seq<Event> {
    if t == [] then []
    else Clearances(t[..|t| - 1]) + (if t[|t| - 1].Accepted? || t[|t| - 1].Quarantined? then [t[|t| - 1]] else [])
  }

  datatype Loop = Idle | Holding(m: Delivery, cleared: bool) | Stuck

  function Follow(s: Loop, e: Event): Loop {
    match (s, e)
    case (Idle, Fetched(m)) => Holding(m, false)
    case (Holding(m, _), Accepted) => if HasInboxIdentity(m.value) then Holding(m, true) else Stuck
    case (Holding(m, _), Quarantined) => Holding(m, true)
    case (Holding(m, true), Committed(m')) => if m' == m then Idle else Stuck
    case _ => Stuck
  }

  function After(t: seq<Event>): Loop {
    if t == [] then Idle else Follow(After(t[..|t| - 1]), t[|t| - 1])
  }

  lemma {:induction false} Extend(t: seq<Event>, e: Event)
    ensures After(t + [e]) == Follow(After(t), e)
    ensures Fetches(t + [e]) == if e.Fetched? then Fetches(t) + [e.m] else Fetches(t)
    ensures Commits(t + [e]) == if e.Committed? then Commits(t) + [e.m] else Commits(t)
    ensures Clearances(t + [e]) == if e.Accepted? || e.Quarantined? then Clearances(t) + [e] else Clearances(t)
  {
    assert (t + [e])[..|t|] == t;
  }

  lemma {:induction false} AfterTellsHistory(t: seq<Event>)
    requires After(t) != Stuck
    ensures After(t).Idle? ==> Commits(t) == Fetches(t)
    ensures After(t).Holding? ==> Fetches(t) == Commits(t) + [After(t).m]
    ensures After(t).Holding? && After(t).cleared ==> Cleared(t, After(t).m)
  {
    if t != [] {
      var n := |t| - 1;
      AfterTellsHistory(t[..n]);
      if t[n].Accepted? || t[n].Quarantined? {
        assert Clears(t[n], After(t).m);
      }
    }
  }

  lemma {:induction false} LegalPrefix(t: seq<Event>, n: nat)
    requires n <= |t| && After(t) != Stuck
    ensures After(t[..n]) != Stuck
    decreases |t|
  {
    if n == |t| {
      assert t[..n] == t;
    } else {
      var k := |t| - 1;
      assert t[..k][..n] == t[..n];
      LegalPrefix(t[..k], n);
    }
  }

  /** Every history of the loop is safe at every moment. */
  lemma {:induction false} LegalIsSafe(t: seq<Event>)
    requires After(t) != Stuck
    ensures Safe(t)
  {
    forall n | 0 <= n <= |t| ensures Commits(t[..n]) <= Fetches(t[..n]) && |Fetches(t[..n])| <= |Commits(t[..n])| + 1 {
      LegalPrefix(t, n);
      AfterTellsHistory(t[..n]);
    }
    forall n | 0 <= n < |t| && t[n].Committed? ensures Cleared(t[..n], t[n].m) {
      LegalPrefix(t, n + 1);
      LegalPrefix(t, n);
      assert t[..n + 1][..n] == t[..n];
      AfterTellsHistory(t[..n]);
    }
  }

  // ------------------------------------------------------------------- one round

  /** One try at a message: the store cannot be reached, or it answers with the given
      verdict on the quote at the given time. */
  datatype Trial = Unreachable | Reachable(quoteOk: bool, now: int)

  /** The tables after the store accepts the message, if it does. */
  ghost function Accepts(db: Db, group: string, p: Payload, trial: Trial): Option<Db> {
    if trial.Unreachable? || p.Malformed? || !Admissible(p.envelope) then None
    else
      var k, id := InboxKey(group, p.envelope.eventId), p.envelope.orderId;
      var o := FactAlone(db, p.envelope, trial.quoteOk, trial.now);
      if Settled(db, k) then Some(db) else if o.Rejected? then None else Some(FactWrites(db, k, id, o))
  }

  method TryFact(store: Store, group: string, p: Payload, trial: Trial) returns (ok: bool)
    modifies store
    ensures !ok ==> store.Tables() == old(store.Tables())
    ensures Accepts(old(store.Tables()), group, p, trial) == if ok then Some(store.Tables()) else None
  {
    if trial.Unreachable? { return false; }
    ok := store.ProcessFact(group, p, trial.quoteOk, trial.now);
  }

  /** A quarantined message is published to the dead-letter topic; its inbox row, if
      the message names one, is marked. */
  function Quarantine(db: Db, group: string, p: Payload): Db {
    if EventIdOf(p) == "" then db else MarkDeadLetter(db, InboxKey(group, EventIdOf(p)))
  }

  method QuarantineMessage(store: Store, group: string, p: Payload)
    modifies store`inbox
    ensures store.Tables() == Quarantine(old(store.Tables()), group, p)
  {
    var eventId := EventIdOf(p);
    if eventId != "" { store.MarkFactDeadLetter(InboxKey(group, eventId)); }
  }

  lemma {:induction false} AdmissibleHasIdentity(e: Envelope)
    requires Admissible(e)
    ensures HasInboxIdentity(Json(e))
  {}

  lemma {:induction false} AcceptedSettles(db: Db, group: string, p: Payload, trial: Trial)
    requires Accepts(db, group, p, trial).Some?
    ensures HasInboxIdentity(p)
    ensures Settled(Accepts(db, group, p, trial).value, InboxKey(group, p.envelope.eventId))
  {
    AdmissibleHasIdentity(p.envelope);
  }

  /** One round of a message: how the store answers, and whether the failure record,
      the dead-letter write and the dead-letter mark succeed when they are made. */
  datatype Round = Round(trial: Trial, recorded: bool, published: bool, marked: bool)

  function KeyOf(group: string, p: Payload): InboxKey {
    InboxKey(group, EventIdOf(p))
  }

  /** The failure just recorded is the last one; a message without an identity has only one. */
  predicate Exhausted(db: Db, group: string, p: Payload) {
    HasInboxIdentity(p) ==> KeyOf(group, p) in db.inbox && db.inbox[KeyOf(group, p)].attempts >= MAX_ATTEMPTS
  }

  /** The message reaches the dead-letter topic in this round. */
  ghost predicate Publishes(db: Db, group: string, p: Payload, round: Round) {
    && Accepts(db, group, p, round.trial).None? && round.recorded && round.published
    && Exhausted(RecordFailure(db, group, p), group, p)
  }

  ghost predicate Buries(db: Db, group: string, p: Payload, round: Round) {
    Publishes(db, group, p, round) && (round.marked || EventIdOf(p) == "")
  }

  ghost function AfterRound(db: Db, group: string, p: Payload, round: Round): Db {
    var accepted := Accepts(db, group, p, round.trial);
    if accepted.Some? then accepted.value
    else if !round.recorded then db
    else if Buries(db, group, p, round) then Quarantine(RecordFailure(db, group, p), group, p)
    else RecordFailure(db, group, p)
  }

  ghost function RoundEvents(db: Db, group: string, p: Payload, round: Round): seq<Event> {
    if Accepts(db, group, p, round.trial).Some? then [Accepted]
    else if Publishes(db, group, p, round) then [Quarantined]
    else []
  }

  ghost predicate RoundDone(db: Db, group: string, p: Payload, round: Round) {
    Accepts(db, group, p, round.trial).Some? || Buries(db, group, p, round)
  }

  /** Only the row of this event may differ, and it is not deleted. */
  ghost predicate OtherRowsKept(db: Db, after: Db, k: InboxKey) {
    && (forall x :: x != k ==> (x in after.inbox <==> x in db.inbox))
    && (forall x :: x != k && x in db.inbox ==> after.inbox[x] == db.inbox[x])
    && (k in db.inbox ==> k in after.inbox)
    && (k.messageId == "" ==> after.inbox == db.inbox)
  }

  lemma {:induction false} RoundKeepsRows(db: Db, group: string, p: Payload, round: Round)
    ensures OtherRowsKept(db, AfterRound(db, group, p, round), KeyOf(group, p))
  {
    if Accepts(db, group, p, round.trial).Some? { AcceptedSettles(db, group, p, round.trial); }
  }

  /** A message is let go only with its inbox row settled; a row already there is
      settled again even if the message has no identity. */
  lemma {:induction false} RoundSettles(db: Db, group: string, p: Payload, round: Round)
    requires RoundDone(db, group, p, round)
    ensures HasInboxIdentity(p) || (EventIdOf(p) != "" && KeyOf(group, p) in db.inbox) ==>
              Settled(AfterRound(db, group, p, round), KeyOf(group, p))
  {
    if Accepts(db, group, p, round.trial).Some? { AcceptedSettles(db, group, p, round.trial); }
  }

  /** A message the inbox can name: an envelope with an event id, a correlation id and a type. */
  predicate Identified(p: Payload) {
    match p
    case Malformed(_) => false
    case Json(e) => e.eventId != "" && e.correlationId != "" && !(e.body.Unsupported? && e.body.eventType == "")
  }

  predicate AlreadySettled(db: Db, k: InboxKey) {
    k in db.inbox && (db.inbox[k].status == InboxStatus.Processed || db.inbox[k].status == DeadLettered)
  }

  /** The store accepts the message, and the tables it leaves. */
  ghost predicate AcceptedAs(db: Db, group: string, p: Payload, trial: Trial, next: Db) {
    trial.Reachable? && p.Json? && Admissible(p.envelope) &&
    var k, id := InboxKey(group, p.envelope.eventId), p.envelope.orderId;
    if AlreadySettled(db, k) then next == db
    else
      id in db.orders &&
      var o := FactAlone(db, p.envelope, trial.quoteOk, trial.now);
      && o.Applied?
      && next == db.(orders := db.orders[id := o.view.row], items := db.items[id := o.view.items],
                     outbox := db.outbox + o.view.out,
                     inbox := db.inbox[k := InboxRow(InboxStatus.Processed,
                                                     if k in db.inbox then db.inbox[k].attempts else 1)])
  }

  /** The inbox with one more failure of the message, if the inbox can name it. */
  function OneMoreFailure(db: Db, group: string, p: Payload): Db {
    if !Identified(p) then db
    else
      var k := InboxKey(group, p.envelope.eventId);
      db.(inbox := db.inbox[k := InboxRow(Retry, if k in db.inbox then db.inbox[k].attempts + 1 else 1)])
  }

  /** One round of a message, from the answers it gets: accepted; or failed, recorded, and
      after the eighth failure, or the first one of a message the inbox cannot name,
      published to the dead-letter topic and marked. */
  ghost predicate RoundGives(db: Db, group: string, p: Payload, round: Round, next: Db, done: bool, seen: seq<Event>) {
    var eventId := if p.Malformed? then p.eventId else p.envelope.eventId;
    var k := InboxKey(group, eventId);
    var failed := OneMoreFailure(db, group, p);
    if exists after :: AcceptedAs(db, group, p, round.trial, after) then
      AcceptedAs(db, group, p, round.trial, next) && done && seen == [Accepted]
    else if !round.recorded then next == db && !done && seen == []
    else if (Identified(p) && failed.inbox[k].attempts < 8) || !round.published then
      next == failed && !done && seen == []
    else if eventId != "" && !round.marked then next == failed && !done && seen == [Quarantined]
    else
      && done && seen == [Quarantined]
      && next == if eventId == "" || k !in failed.inbox then failed
                 else failed.(inbox := failed.inbox[k := failed.inbox[k].(status := DeadLettered)])
  }

  lemma {:induction false} AcceptsExact(db: Db, group: string, p: Payload, trial: Trial, next: Db)
    ensures AcceptedAs(db, group, p, trial, next) <==> Accepts(db, group, p, trial) == Some(next)
  {
    if p.Json? { InboxWritten(db.inbox, InboxKey(group, p.envelope.eventId)); }
  }

  lemma {:induction false} InboxWritten(inbox: InboxTable, k: InboxKey)
    ensures MarkInboxProcessed(InsertInbox(inbox, k), k) ==
            inbox[k := InboxRow(InboxStatus.Processed, if k in inbox then inbox[k].attempts else 1)]
  {}

  lemma {:induction false} RoundExact(db: Db, group: string, p: Payload, round: Round)
    ensures RoundGives(db, group, p, round, AfterRound(db, group, p, round), RoundDone(db, group, p, round),
                       RoundEvents(db, group, p, round))
  {
    forall after { AcceptsExact(db, group, p, round.trial, after); }
    assert Identified(p) <==> HasInboxIdentity(p);
    if Accepts(db, group, p, round.trial).Some? {
      assert AcceptedAs(db, group, p, round.trial, Accepts(db, group, p, round.trial).value);
    }
  }

  /** True only after the store accepted the message or its quarantine is complete. */
  method ProcessMessage(store: Store, group: string, p: Payload, round: Round)
    returns (done: bool, seen: seq<Event>)
    modifies store
    ensures RoundGives(old(store.Tables()), group, p, round, store.Tables(), done, seen)
    ensures store.Tables() == AfterRound(old(store.Tables()), group, p, round)
    ensures seen == RoundEvents(old(store.Tables()), group, p, round)
    ensures done == RoundDone(old(store.Tables()), group, p, round)
  {
    RoundExact(store.Tables(), group, p, round);
    var accepted := TryFact(store, group, p, round.trial);
    if accepted { return true, [Accepted]; }
    if !round.recorded { return false, []; }
    var quarantined, _ := store.RecordFactFailure(group, p);
    if !quarantined || !round.published { return false, []; }
    if EventIdOf(p) != "" {
      if !round.marked { return false, [Quarantined]; }
      store.MarkFactDeadLetter(KeyOf(group, p));
    }
    return true, [Quarantined];
  }

  /** The tables after the first rounds, each working on the given payload. */
  ghost function PlayTables(db: Db, group: string, ps: seq<Payload>, rounds: seq<Round>): Db
    requires |ps| == |rounds|
  {
    if ps == [] then db
    else
      var n := |ps| - 1;
      AfterRound(PlayTables(db, group, ps[..n], rounds[..n]), group, ps[n], rounds[n])
  }

  ghost function PlayEvents(db: Db, group: string, ps: seq<Payload>, rounds: seq<Round>): seq<Event>
    requires |ps| == |rounds|
  {
    if ps == [] then []
    else
      var n := |ps| - 1;
      PlayEvents(db, group, ps[..n], rounds[..n]) +
      RoundEvents(PlayTables(db, group, ps[..n], rounds[..n]), group, ps[n], rounds[n])
  }

  /** The tables and the clearances seen are those of the rounds played from db. */
  ghost predicate Played(after: Db, t: seq<Event>, db: Db, group: string, ps: seq<Payload>, rounds: seq<Round>) {
    && |ps| <= |rounds| && after == PlayTables(db, group, ps, rounds[..|ps|])
    && Clearances(t) == PlayEvents(db, group, ps, rounds[..|ps|])
  }

  lemma {:induction false} PlayedOneMore(before: Db, t: seq<Event>, after: Db, next: seq<Event>, db: Db, group: string,
                                         ps: seq<Payload>, p: Payload, rounds: seq<Round>)
    requires Played(before, t, db, group, ps, rounds) && |ps| < |rounds|
    requires after == AfterRound(before, group, p, rounds[|ps|])
    requires Clearances(next) == Clearances(t) + RoundEvents(before, group, p, rounds[|ps|])
    ensures Played(after, next, db, group, ps + [p], rounds)
  {
    PlayOne(db, group, ps, p, rounds);
  }

  lemma {:induction false} PlayOne(db: Db, group: string, ps: seq<Payload>, p: Payload, rounds: seq<Round>)
    requires |ps| < |rounds|
    ensures var n := |ps|; var before := PlayTables(db, group, ps, rounds[..n]);
            && PlayTables(db, group, ps + [p], rounds[..n + 1]) == AfterRound(before, group, p, rounds[n])
            && PlayEvents(db, group, ps + [p], rounds[..n + 1]) ==
               PlayEvents(db, group, ps, rounds[..n]) + RoundEvents(before, group, p, rounds[n])
  {
    var n := |ps|;
    assert (ps + [p])[..n] == ps && rounds[..n + 1][..n] == rounds[..n];
  }

  /** The history goes on with what a round shows of the message held. */
  lemma {:induction false} FollowRound(t: seq<Event>, m: Delivery, db: Db, group: string, round: Round)
    requires After(t).Holding? && After(t).m == m
    ensures var next := t + RoundEvents(db, group, m.value, round);
            && After(next).Holding? && After(next).m == m && Fetches(next) == Fetches(t) && Commits(next) == Commits(t)
            && Clearances(next) == Clearances(t) + RoundEvents(db, group, m.value, round)
            && (RoundDone(db, group, m.value, round) ==> After(next).cleared)
  {
    if Accepts(db, group, m.value, round.trial).Some? {
      AcceptedSettles(db, group, m.value, round.trial);
      Extend(t, Accepted);
    } else if Publishes(db, group, m.value, round) {
      Extend(t, Quarantined);
    } else {
      assert t + [] == t && Clearances(t) + [] == Clearances(t);
    }
  }

  // ---------------------------------------------------------------------- the loop

  /** The messages a reader delivers; a failed fetch delivers none. */
  function Delivered(fetches: seq<Option<Delivery>>): seq<Delivery> {
    if fetches == [] then []
    else Delivered(fetches[..|fetches| - 1]) +
         (if fetches[|fetches| - 1].Some? then [fetches[|fetches| - 1].value] else [])
  }

  method CommitMessage(m: Delivery, t: seq<Event>) returns (next: seq<Event>)
    requires After(t) == Holding(m, true)
    ensures After(next).Idle? && Fetches(next) == Fetches(t) && Clearances(next) == Clearances(t)
    ensures Commits(next) == Commits(t) + [m]
  {
    Extend(t, Committed(m));
    next := t + [Committed(m)];
  }

  /** The message is done with: its row is settled if it has an identity, and every row
      that was settled before is settled now. */
  ghost predicate Resolved(db: Db, after: Db, group: string, p: Payload) {
    && (HasInboxIdentity(p) ==> Settled(after, KeyOf(group, p)))
    && (forall k :: Settled(db, k) ==> Settled(after, k))
  }

  lemma {:induction false} DoneResolves(start: Db, db: Db, group: string, p: Payload, round: Round)
    requires OtherRowsKept(start, db, KeyOf(group, p)) && RoundDone(db, group, p, round)
    ensures Resolved(start, AfterRound(db, group, p, round), group, p)
  {
    RoundKeepsRows(db, group, p, round);
    RoundSettles(db, group, p, round);
  }

  /** Retries one message until it is committed or the rounds run out. */
  method HandleUntilCommitted(store: Store, group: string, m: Delivery, rounds: seq<Round>, commits: seq<bool>,
                              t: seq<Event>, r0: nat, c0: nat, ghost ps0: seq<Payload>, ghost start: Db)
    returns (next: seq<Event>, r: nat, c: nat, committed: bool, ghost ps: seq<Payload>)
    requires After(t) == Holding(m, false) && r0 == |ps0| <= |rounds| && c0 <= |commits|
    requires Played(store.Tables(), t, start, group, ps0, rounds)
    modifies store
    ensures r == |ps| <= |rounds| && c <= |commits| && Played(store.Tables(), next, start, group, ps, rounds)
    ensures Fetches(next) == Fetches(t) && Commits(next) == Commits(t) + (if committed then [m] else [])
    ensures committed ==> After(next).Idle? && Resolved(old(store.Tables()), store.Tables(), group, m.value)
    ensures !committed ==>
      && (r == |rounds| || c == |commits|) && After(next).Holding? && After(next).m == m
      && OtherRowsKept(old(store.Tables()), store.Tables(), KeyOf(group, m.value))
  {
    next, r, c, ps := t, r0, c0, ps0;
    while r < |rounds|
      invariant r == |ps| <= |rounds| && c <= |commits| && Played(store.Tables(), next, start, group, ps, rounds)
      invariant After(next).Holding? && After(next).m == m && Fetches(next) == Fetches(t) && Commits(next) == Commits(t)
      invariant OtherRowsKept(old(store.Tables()), store.Tables(), KeyOf(group, m.value))
    {
      ghost var db := store.Tables();
      FollowRound(next, m, db, group, rounds[r]);
      RoundKeepsRows(db, group, m.value, rounds[r]);
      var done, seen := ProcessMessage(store, group, m.value, rounds[r]);
      PlayedOneMore(db, next, store.Tables(), next + seen, start, group, ps, m.value, rounds);
      next, ps := next + seen, ps + [m.value];
      if done { DoneResolves(old(store.Tables()), db, group, m.value, rounds[r]); }
      r := r + 1;
      if done {
        if c == |commits| { return next, r, c, false, ps; }
        c := c + 1;
        if commits[c - 1] {
          next := CommitMessage(m, next);
          return next, r, c, true, ps;
        }
      }
    }
    committed := false;
  }

  predicate WorksOn(loop: Loop, group: string, m: Delivery) {
    loop.Holding? && KeyOf(group, loop.m.value) == KeyOf(group, m.value)
  }

  /** Every message of the list that has an identity has a settled inbox row, except
      perhaps one with the event id of the message being worked on. */
  ghost predicate AllSettled(db: Db, group: string, ms: seq<Delivery>, loop: Loop) {
    forall m :: m in ms && HasInboxIdentity(m.value) && !WorksOn(loop, group, m) ==> Settled(db, KeyOf(group, m.value))
  }

  lemma {:induction false} CommittedSettled(db: Db, after: Db, group: string, ms: seq<Delivery>, m: Delivery)
    requires AllSettled(db, group, ms, Idle) && Resolved(db, after, group, m.value)
    ensures AllSettled(after, group, ms + [m], Idle)
  {}

  lemma {:induction false} StillSettled(db: Db, after: Db, group: string, ms: seq<Delivery>, loop: Loop)
    requires AllSettled(db, group, ms, Idle) && loop.Holding?
    requires OtherRowsKept(db, after, KeyOf(group, loop.m.value))
    ensures AllSettled(after, group, ms, loop)
  {}

  /** The outer loop. Running out of fetches, rounds or commit results is the
      cancelled context, which may happen at any point; otherwise every message
      delivered has been committed. Wherever it stops, the inbox row of every committed
      message is PROCESSED or DLQ, and a committed message that cannot have a row was
      published to the dead-letter topic. */
  method ConsumeMessages(store: Store, group: string, fetches: seq<Option<Delivery>>, rounds: seq<Round>,
                         commits: seq<bool>)
    returns (t: seq<Event>, c: nat, cancelled: bool, ghost ps: seq<Payload>)
    modifies store
    ensures Safe(t) && AllSettled(store.Tables(), group, Commits(t), After(t))
    ensures Played(store.Tables(), t, old(store.Tables()), group, ps, rounds)
    ensures c <= |commits| && Fetches(t) <= Delivered(fetches)
    ensures if cancelled then |ps| == |rounds| || c == |commits| else After(t).Idle? && Commits(t) == Delivered(fetches)
  {
    t, c, cancelled, ps := [], 0, false, [];
    var f, r := 0, 0;
    while f < |fetches|
      invariant f <= |fetches| && r == |ps| <= |rounds| && c <= |commits| && !cancelled
      invariant After(t).Idle? && Fetches(t) == Delivered(fetches[..f])
      invariant Played(store.Tables(), t, old(store.Tables()), group, ps, rounds)
      invariant AllSettled(store.Tables(), group, Commits(t), Idle)
    {
      assert fetches[..f + 1][..f] == fetches[..f];
      DeliveredPrefix(fetches, f + 1);
      var fetched := fetches[f];
      f := f + 1;
      if fetched.Some? {
        Extend(t, Fetched(fetched.value));
        t := t + [Fetched(fetched.value)];
        ghost var db := store.Tables();
        var committed;
        t, r, c, committed, ps :=
          HandleUntilCommitted(store, group, fetched.value, rounds, commits, t, r, c, ps, old(store.Tables()));
        if !committed {
          StillSettled(db, store.Tables(), group, Commits(t), After(t));
          LegalIsSafe(t);
          return t, c, true, ps;
        }
        CommittedSettled(db, store.Tables(), group, Commits(t)[..|Commits(t)| - 1], fetched.value);
      }
    }
    assert fetches[..|fetches|] == fetches;
    LegalIsSafe(t);
    AfterTellsHistory(t);
  }

  lemma {:induction false} DeliveredPrefix(fetches: seq<Option<Delivery>>, n: nat)
    requires n <= |fetches|
    ensures Delivered(fetches[..n]) <= Delivered(fetches)
    decreases |fetches|
  {
    if n == |fetches| {
      assert fetches[..n] == fetches;
    } else {
      var k := |fetches| - 1;
      assert fetches[..k][..n] == fetches[..n];
      DeliveredPrefix(fetches[..k], n);
    }
  }

  // ----------------------------------------------------------------- retry budget

  /** The waits after failures first+1, ..., 7. */
  function BackoffFrom(first: nat): nat
    decreases MAX_ATTEMPTS - first
  {
    if first + 1 >= MAX_ATTEMPTS then 0 else InboxBackoff(first + 1) + BackoffFrom(first + 1)
  }

  lemma {:induction false} BackoffTotals()
    ensures BackoffFrom(7) == 0 && BackoffFrom(6) == 900 && BackoffFrom(5) == 1500 && BackoffFrom(4) == 1800
    ensures BackoffFrom(3) == 1920 && BackoffFrom(2) == 1950 && BackoffFrom(1) == 1955 && BackoffFrom(0) == 1956
  {
    assert BackoffFrom(7) == 0;
    assert BackoffFrom(6) == 900 + BackoffFrom(7);
    assert BackoffFrom(5) == 600 + BackoffFrom(6);
    assert BackoffFrom(4) == 300 + BackoffFrom(5);
    assert BackoffFrom(3) == 120 + BackoffFrom(4);
    assert BackoffFrom(2) == 30 + BackoffFrom(3);
    assert BackoffFrom(1) == 5 + BackoffFrom(2);
    assert BackoffFrom(0) == 1 + BackoffFrom(1);
  }

  lemma {:induction false} BackoffBounded(first: nat)
    ensures BackoffFrom(first) <= 1956
  {
    BackoffTotals();
    if first < 8 {
      assert first in {0, 1, 2, 3, 4, 5, 6, 7};
    }
  }

  function AttemptsRecorded(inbox: InboxTable, k: InboxKey): nat {
    if k in inbox then inbox[k].attempts else 0
  }

  /** The tables with the failures of a message recorded in its inbox row. */
  function FailuresRecorded(db: Db, k: InboxKey, failures: nat): Db {
    if failures == 0 then db
    else db.(inbox := db.inbox[k := InboxRow(Retry, AttemptsRecorded(db.inbox, k) + failures)])
  }

  /** A message without an inbox identity is never accepted: one try, then quarantine. */
  method RetryAnonymous(store: Store, group: string, p: Payload, trial: Trial)
    requires !HasInboxIdentity(p)
    modifies store
    ensures store.Tables() == Quarantine(old(store.Tables()), group, p)
  {
    if p.Json? && Admissible(p.envelope) { AdmissibleHasIdentity(p.envelope); }
    var accepted := TryFact(store, group, p, trial);
    assert !accepted;
    var quarantined, _ := store.RecordFactFailure(group, p);
    QuarantineMessage(store, group, p);
  }

  lemma {:induction false} RecordOneMore(db: Db, group: string, p: Payload, n: nat)
    requires HasInboxIdentity(p)
    ensures var k := InboxKey(group, p.envelope.eventId);
            var next := RecordFailure(FailuresRecorded(db, k, n), group, p);
            && next == FailuresRecorded(db, k, n + 1)
            && k in next.inbox && next.inbox[k].attempts == AttemptsRecorded(db.inbox, k) + n + 1
  {
    var k := InboxKey(group, p.envelope.eventId);
    var row := InboxRow(Retry, AttemptsRecorded(db.inbox, k) + n + 1);
    assert FailuresRecorded(db, k, n).inbox[k := row] == db.inbox[k := row];
  }

  /** One turn for a message with an identity: accepted, or one more failure recorded,
      with the message quarantined from the eighth attempt on. */
  method ProcessOrRecord(store: Store, group: string, p: Payload, trial: Trial, ghost db: Db, ghost n: nat)
    returns (accepted: bool, quarantined: bool, attempts: nat)
    requires HasInboxIdentity(p) && store.Tables() == FailuresRecorded(db, InboxKey(group, p.envelope.eventId), n)
    modifies store
    ensures accepted ==> Settled(store.Tables(), InboxKey(group, p.envelope.eventId))
    ensures !accepted ==>
      var k := InboxKey(group, p.envelope.eventId);
      var recorded := FailuresRecorded(db, k, n + 1);
      && attempts == AttemptsRecorded(db.inbox, k) + n + 1 && quarantined == (attempts >= MAX_ATTEMPTS)
      && store.Tables() == if quarantined then Quarantine(recorded, group, p) else recorded
  {
    quarantined, attempts := false, 0;
    accepted := TryFact(store, group, p, trial);
    if !accepted {
      RecordOneMore(db, group, p, n);
      quarantined, attempts := store.RecordFactFailure(group, p);
      if quarantined { QuarantineMessage(store, group, p); }
    }
  }

  /** What the loop leaves of a message with an identity. */
  ghost predicate Left(db: Db, after: Db, group: string, p: Payload, accepted: bool, failures: nat, slept: nat)
    requires HasInboxIdentity(p)
  {
    var k := InboxKey(group, p.envelope.eventId);
    var before := AttemptsRecorded(db.inbox, k);
    if accepted then Settled(after, k) && (failures == 0 || before + failures < MAX_ATTEMPTS)
    else
      && failures == (if before + 1 >= MAX_ATTEMPTS then 1 else MAX_ATTEMPTS - before) && slept == BackoffFrom(before)
      && after == Quarantine(FailuresRecorded(db, k, failures), group, p)
  }

  method RetryIdentified(store: Store, group: string, p: Payload, trials: nat -> Trial)
    returns (accepted: bool, failures: nat, slept: nat)
    requires HasInboxIdentity(p)
    modifies store
    ensures failures <= MAX_ATTEMPTS && slept <= 1956
    ensures Left(old(store.Tables()), store.Tables(), group, p, accepted, failures, slept)
  {
    accepted, failures, slept := false, 0, 0;
    ghost var k := InboxKey(group, p.envelope.eventId);
    ghost var before := AttemptsRecorded(store.inbox, k);
    BackoffBounded(before);
    while true
      invariant failures > 0 ==> before + failures < MAX_ATTEMPTS
      invariant slept + BackoffFrom(before + failures) == BackoffFrom(before)
      invariant store.Tables() == FailuresRecorded(old(store.Tables()), k, failures)
      decreases MAX_ATTEMPTS - failures
    {
      var quarantined, attempts;
      accepted, quarantined, attempts :=
        ProcessOrRecord(store, group, p, trials(failures), old(store.Tables()), failures);
      if accepted { return; }
      failures := failures + 1;
      if quarantined { return; }
      slept := slept + InboxBackoff(attempts);
    }
  }

  /** The retry loop of one message, for any mix of results of the store, with failure
      records and the dead-letter topic working. The message leaves the loop accepted,
      with a settled inbox row, or quarantined with no other table changed; either way
      within the attempts left of eight and 1956 seconds of backoff. */
  method RetryUntilSettled(store: Store, group: string, p: Payload, trials: nat -> Trial)
    returns (accepted: bool, failures: nat, slept: nat)
    modifies store
    ensures failures <= MAX_ATTEMPTS && slept <= 1956
    ensures accepted ==> p.Json? && Settled(store.Tables(), InboxKey(group, p.envelope.eventId))
    ensures HasInboxIdentity(p) ==> Left(old(store.Tables()), store.Tables(), group, p, accepted, failures, slept)
    ensures !HasInboxIdentity(p) ==>
      !accepted && failures == 1 && slept == 0 && store.Tables() == Quarantine(old(store.Tables()), group, p)
  {
    if HasInboxIdentity(p) {
      accepted, failures, slept := RetryIdentified(store, group, p, trials);
    } else {
      RetryAnonymous(store, group, p, trials(0));
      accepted, failures, slept := false, 1, 0;
    }
  }

  /** What the quarantine of a message with an identity leaves: its inbox row, which its
      failures created, is dead-lettered with all its attempts. */
  lemma {:induction false} QuarantinedRow(db: Db, group: string, p: Payload, failures: nat)
    requires HasInboxIdentity(p) && failures > 0
    ensures var k := InboxKey(group, p.envelope.eventId);
            Quarantine(FailuresRecorded(db, k, failures), group, p) ==
            db.(inbox := db.inbox[k := InboxRow(DeadLettered, AttemptsRecorded(db.inbox, k) + failures)])
  {
    var k := InboxKey(group, p.envelope.eventId);
    var row := InboxRow(DeadLettered, AttemptsRecorded(db.inbox, k) + failures);
    assert FailuresRecorded(db, k, failures).inbox[k := row] == db.inbox[k := row];
  }
}
