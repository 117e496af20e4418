/** The outbox publisher: relays lease rows, write them to the broker and mark them. */
module OutboxLease {
  import opened Basics
  import opened RelayConsumer

  const LEASE: nat := 120
  const BATCH: nat := 100
  const MAX_DELAY: nat := 1800

  datatype Row = Row(
    createdAt: int, publishedAt: Option<int>, attempts: nat, nextAttempt: int, owner: Option<string>,
      until: Option<int>)

  /** The WHERE clause of the claiming statement. */
  predicate Claimable(row: Row, now: int) {
    row.publishedAt.None? && row.nextAttempt <= now && (row.until.None? || row.until.value < now)
  }

  function Leased(row: Row, owner: string, until: int): Row {
    row.(owner := Some(owner), until := Some(until))
  }

  /** UPDATE ... SET published_at WHERE published_at IS NULL. */
  function MarkedPublished(row: Row, now: int): Row {
    if row.publishedAt.Some? then row
    else row.(publishedAt := Some(now), attempts := row.attempts + 1, owner := None, until := None)
  }

  /** UPDATE ... SET next_attempt_at WHERE published_at IS NULL. */
  function MarkedFailed(row: Row, retryAt: int): Row {
    if row.publishedAt.Some? then row
    else row.(attempts := row.attempts + 1, nextAttempt := retryAt, owner := None, until := None)
  }

  // --------------------------------------------------------------- concurrent relays

  /** A row in the hands of a relay, as the claim returned it. */
  datatype Claim = Claim(owner: string, id: string, until: int, attempts: nat, sent: bool)

  datatype World = World(now: int, rows: map<string, Row>, held: set<Claim>, written: set<string>)

  datatype Action =
    | Insert(id: string, createdAt: int)
    | Tick(to: int)
    | Take(owner: string, ids: set<string>)
    | Send(c: Claim)
    | Publish(c: Claim)
    | Fail(c: Claim)
    | Drop(c: Claim)

  function ClaimOf(w: World, owner: string, id: string): Claim
    requires id in w.rows
  {
    Claim(owner, id, w.now + LEASE, w.rows[id].attempts, false)
  }

  predicate CanTake(w: World, ids: set<string>) {
    |ids| <= BATCH && forall id :: id in ids ==> id in w.rows && Claimable(w.rows[id], w.now)
  }

  /** One step of some relay, of the store or of the clock; an impossible step does nothing. */
  function Step(w: World, a: Action): World {
    match a
    case Insert(id, at) =>
      if id in w.rows then w else w.(rows := w.rows[id := Row(at, None, 0, at, None, None)])
    case Tick(to) => if w.now <= to then w.(now := to) else w
    case Take(owner, ids) =>
      if CanTake(w, ids) then
        w.(rows := map id | id in w.rows :: if id in ids then Leased(w.rows[id], owner, w.now + LEASE) else w.rows[id],
           held := w.held + set id | id in ids :: ClaimOf(w, owner, id))
      else w
    case Send(c) =>
      if c in w.held then w.(held := w.held - {c} + {c.(sent := true)}, written := w.written + {c.id}) else w
    case Publish(c) =>
      if c in w.held && c.sent && c.id in w.rows
      then w.(rows := w.rows[c.id := MarkedPublished(w.rows[c.id], w.now)], held := w.held - {c}) else w
    case Fail(c) =>
      if c in w.held && !c.sent && c.id in w.rows
      then w.(rows := w.rows[c.id := MarkedFailed(w.rows[c.id], w.now + OutboxBackoff(c.attempts))],
        held := w.held - {c})
      else w
    case Drop(c) => w.(held := w.held - {c})
  }

  function Run(start: int, actions: seq<Action>): World {
    if actions == [] then World(start, map[], {}, {})
    else Step(Run(start, actions[..|actions| - 1]), actions[|actions| - 1])
  }

  // ---------------------------------------------------------------- timely relays

  /** No clock tick passes the end of a lease that a relay still works under. */
  ghost predicate Timely(w: World, a: Action) {
    a.Tick? ==> forall c :: c in w.held ==> a.to <= c.until
  }

  ghost predicate TimelyRun(start: int, actions: seq<Action>) {
    forall n :: 0 <= n < |actions| ==> Timely(Run(start, actions[..n]), actions[n])
  }

  /** A held row is unpublished, leased to its holder, and was due when it was claimed. */
  ghost predicate Backed(w: World, c: Claim) {
    && c.id in w.rows && w.rows[c.id].publishedAt.None?
    && w.rows[c.id].owner == Some(c.owner) && w.rows[c.id].until == Some(c.until) && w.now <= c.until
    && w.rows[c.id].nextAttempt <= w.now
  }

  /** Two relays, or one relay twice, work on the same row. */
  ghost predicate Shares(w: World) {
    exists c, d :: c in w.held && d in w.held && c != d && c.id == d.id
  }

  ghost predicate Exclusive(w: World) {
    (forall c :: c in w.held ==> Backed(w, c)) && !Shares(w)
  }

  lemma {:induction false} TakeExclusive(w: World, owner: string, ids: set<string>)
    requires Exclusive(w)
    ensures Exclusive(Step(w, Take(owner, ids)))
  {
    var next := Step(w, Take(owner, ids));
    if next != w {
      forall c | c in next.held ensures Backed(next, c) {
        if c in w.held { assert Backed(w, c); }
      }
      forall c, d | c in next.held && d in next.held && c.id == d.id ensures c == d {
        if c in w.held { assert Backed(w, c); }
        if d in w.held { assert Backed(w, d); }
      }
    }
  }

  lemma {:induction false} ExclusiveStep(w: World, a: Action)
    requires Exclusive(w) && Timely(w, a)
    ensures Exclusive(Step(w, a))
  {
    var next := Step(w, a);
    if a.Take? {
      TakeExclusive(w, a.owner, a.ids);
    } else {
      forall c | c in next.held ensures Backed(next, c) {
        if c in w.held {
          assert Backed(w, c);
        } else {
          assert a.Send? && Backed(w, a.c);
        }
      }
      assert forall c :: c in next.held ==> c in w.held || (a.Send? && c == a.c.(sent := true));
    }
  }

  /** If every relay finishes a claimed row before its lease ends, no two relays
      ever hold the same row. */
  lemma {:induction false} TimelyRelaysExclude(start: int, actions: seq<Action>)
    requires TimelyRun(start, actions)
    ensures Exclusive(Run(start, actions))
  {
    if actions != [] {
      var n := |actions| - 1;
      assert forall m :: 0 <= m < n ==> actions[..n][m] == actions[m] && actions[..n][..m] == actions[..m];
      TimelyRelaysExclude(start, actions[..n]);
      ExclusiveStep(Run(start, actions[..n]), actions[n]);
    }
  }

  lemma {:induction false} LateClaimShares(w: World, to: int, owner: string, c: Claim)
    requires c in w.held && Backed(w, c) && c.until < to
    ensures Shares(Step(Step(w, Tick(to)), Take(owner, {c.id})))
  {
    var late := Step(w, Tick(to));
    var next := Step(late, Take(owner, {c.id}));
    var d := ClaimOf(late, owner, c.id);
    assert c.id in {c.id};
    assert c in next.held && d in next.held && c != d && c.id == d.id;
  }

  /** The condition is exact: after a timely run, letting the clock pass to `to` makes
      some claim share a row if and only if a relay still holds a row whose lease ends
      before `to`. */
  lemma {:induction false} SharingIff(start: int, actions: seq<Action>, to: int)
    requires TimelyRun(start, actions) && Run(start, actions).now <= to
    ensures (exists owner, ids :: Shares(Step(Step(Run(start, actions), Tick(to)), Take(owner, ids)))) <==>
            (exists c :: c in Run(start, actions).held && c.until < to)
  {
    var w := Run(start, actions);
    TimelyRelaysExclude(start, actions);
    if c :| c in w.held && c.until < to {
      LateClaimShares(w, to, "", c);
    } else {
      ExclusiveStep(w, Tick(to));
      forall owner, ids ensures !Shares(Step(Step(w, Tick(to)), Take(owner, ids))) {
        TakeExclusive(Step(w, Tick(to)), owner, ids);
      }
    }
  }

  // --------------------------------------------------------------------- all runs

  ghost predicate WrittenInv(w: World) {
    && (forall id :: id in w.rows && w.rows[id].publishedAt.Some? ==> id in w.written)
    && (forall c :: c in w.held && c.sent ==> c.id in w.written)
  }

  /** In every run a row marked published had a successful broker write. */
  lemma {:induction false} PublishedWasWritten(start: int, actions: seq<Action>)
    ensures WrittenInv(Run(start, actions))
  {
    if actions != [] {
      PublishedWasWritten(start, actions[..|actions| - 1]);
    }
  }

  /** A published row stays published, at the same time. */
  lemma {:induction false} PublishedForGood(start: int, actions: seq<Action>, k: nat, id: string)
    requires k <= |actions| && id in Run(start, actions[..k]).rows
    requires Run(start, actions[..k]).rows[id].publishedAt.Some?
    ensures id in Run(start, actions).rows
    ensures Run(start, actions).rows[id].publishedAt == Run(start, actions[..k]).rows[id].publishedAt
  {
    if k == |actions| {
      assert actions[..k] == actions;
    } else {
      var n := |actions| - 1;
      assert actions[..n][..k] == actions[..k];
      PublishedForGood(start, actions[..n], k, id);
    }
  }

  /** Leases and retries end within bounded time of the present. */
  ghost predicate Bounded(row: Row, now: int) {
    && (row.until.Some? ==> row.until.value <= now + LEASE)
    && (row.nextAttempt <= now + MAX_DELAY || row.nextAttempt <= row.createdAt)
  }

  lemma {:induction false} BackoffAtMost(attempts: nat)
    ensures 0 <= OutboxBackoff(attempts) <= MAX_DELAY
  {}

  lemma {:induction false} BoundedStep(w: World, a: Action, id: string)
    requires forall x :: x in w.rows ==> Bounded(w.rows[x], w.now)
    requires id in Step(w, a).rows
    ensures Bounded(Step(w, a).rows[id], Step(w, a).now)
  {
    if a.Fail? { BackoffAtMost(a.c.attempts); }
  }

  lemma {:induction false} RowsBounded(start: int, actions: seq<Action>)
    ensures forall id :: id in Run(start, actions).rows ==>
            Bounded(Run(start, actions).rows[id], Run(start, actions).now)
  {
    if actions != [] {
      var n := |actions| - 1;
      RowsBounded(start, actions[..n]);
      forall id | id in Run(start, actions).rows
        ensures Bounded(Run(start, actions).rows[id], Run(start, actions).now)
      {
        BoundedStep(Run(start, actions[..n]), actions[n], id);
      }
    }
  }

  /** After any run, an unpublished row is claimable at every time from half an hour
      on, and not before its creation time: no lease and no retry defers it further. */
  lemma {:induction false} UnpublishedBecomesDue(start: int, actions: seq<Action>, id: string, to: int)
    requires id in Run(start, actions).rows && Run(start, actions).rows[id].publishedAt.None?
    requires Run(start, actions).now + MAX_DELAY <= to && Run(start, actions).rows[id].createdAt <= to
    ensures Claimable(Run(start, actions).rows[id], to)
  {
    RowsBounded(start, actions);
    assert Bounded(Run(start, actions).rows[id], Run(start, actions).now);
  }

  // ------------------------------------------------------------- oldest-first claims

  ghost predicate Due(w: World, id: string) {
    id in w.rows && Claimable(w.rows[id], w.now)
  }

  /** The rows a claim of at most `limit` rows in order of creation may take. */
  ghost predicate OldestBatch(w: World, ids: set<string>, limit: nat) {
    && |ids| <= limit && (forall id :: id in ids ==> Due(w, id))
    && (forall c :: Due(w, c) && c !in ids ==>
          |ids| == limit && forall x :: x in ids ==> w.rows[x].createdAt <= w.rows[c].createdAt)
  }

  /** The due rows a claim may prefer to this one. */
  ghost function Ahead(w: World, id: string): set<string>
    requires id in w.rows
  {
    set x | x in w.rows && x != id && Claimable(w.rows[x], w.now) && w.rows[x].createdAt <= w.rows[id].createdAt
  }

  /** The row waits while another acts: a claim takes the oldest due rows but not this
      one, and no other action makes a preferred row due. */
  ghost predicate Waits(w: World, act: Action, id: string, limit: nat) {
    Due(w, id) &&
    if act.Take? then OldestBatch(w, act.ids, limit) && id !in act.ids
    else Due(Step(w, act), id) && Ahead(Step(w, act), id) <= Ahead(w, id)
  }

  /** The row is due and waits through all the actions. */
  ghost predicate WaitsThrough(w: World, acts: seq<Action>, id: string, limit: nat)
    decreases |acts|
  {
    Due(w, id) &&
    (acts != [] ==> Waits(w, acts[0], id, limit) && WaitsThrough(Step(w, acts[0]), acts[1..], id, limit))
  }

  function Claims(acts: seq<Action>): nat {
    if acts == [] then 0 else (if acts[0].Take? then 1 else 0) + Claims(acts[1..])
  }

  lemma {:induction false} SubsetSize(a: set<string>, b: set<string>)
    requires a <= b
    ensures |a| <= |b| && |b - a| == |b| - |a|
  {
    assert b == a + (b - a);
  }

  /** A claim that passes a due row by uses up `limit` of the rows ahead of it. */
  lemma {:induction false} PassingClaim(w: World, act: Action, id: string, limit: nat)
    requires act.Take? && Waits(w, act, id, limit) && limit <= BATCH
    ensures Due(Step(w, act), id) && |Ahead(Step(w, act), id)| + limit <= |Ahead(w, id)|
  {
    var next := Step(w, act);
    assert CanTake(w, act.ids);
    assert act.ids <= Ahead(w, id);
    assert Ahead(next, id) <= Ahead(w, id) - act.ids;
    SubsetSize(act.ids, Ahead(w, id));
    SubsetSize(Ahead(next, id), Ahead(w, id) - act.ids);
  }

  lemma {:induction false} PassingOther(w: World, act: Action, id: string, limit: nat)
    requires !act.Take? && Waits(w, act, id, limit)
    ensures Due(Step(w, act), id) && |Ahead(Step(w, act), id)| <= |Ahead(w, id)|
  {
    SubsetSize(Ahead(Step(w, act), id), Ahead(w, id));
  }

  /** However long a due row waits, the claims that pass it by number at most the rows
      ahead of it, divided by the size of a claim. */
  lemma {:induction false} PassingClaimsBounded(w: World, acts: seq<Action>, id: string, limit: nat)
    requires WaitsThrough(w, acts, id, limit) && limit <= BATCH
    ensures Claims(acts) * limit <= |Ahead(w, id)|
    decreases |acts|
  {
    if acts != [] {
      PassingClaimsBounded(Step(w, acts[0]), acts[1..], id, limit);
      if acts[0].Take? {
        PassingClaim(w, acts[0], id, limit);
        assert (1 + Claims(acts[1..])) * limit == limit + Claims(acts[1..]) * limit;
      } else {
        PassingOther(w, acts[0], id, limit);
      }
    }
  }


  function StepsFrom(w: World, acts: seq<Action>): World
    decreases |acts|
  {
    if acts == [] then w else StepsFrom(Step(w, acts[0]), acts[1..])
  }

  /** Claims one after the other, each taking the oldest due rows. */
  ghost predicate OldestClaims(w: World, acts: seq<Action>, limit: nat)
    decreases |acts|
  {
    acts != [] ==>
      acts[0].Take? && OldestBatch(w, acts[0].ids, limit) && OldestClaims(Step(w, acts[0]), acts[1..], limit)
  }

  lemma {:induction false} ClaimsWait(w: World, acts: seq<Action>, id: string, limit: nat)
    requires Due(w, id) && OldestClaims(w, acts, limit) && limit <= BATCH
    requires forall k :: 0 <= k < |acts| ==> acts[k].Take? && id !in acts[k].ids
    ensures WaitsThrough(w, acts, id, limit) && Claims(acts) == |acts|
    decreases |acts|
  {
    if acts != [] {
      PassingClaim(w, acts[0], id, limit);
      ClaimsWait(Step(w, acts[0]), acts[1..], id, limit);
    }
  }

  lemma {:induction false} OldestClaimsTake(w: World, acts: seq<Action>, limit: nat)
    requires OldestClaims(w, acts, limit)
    ensures forall k :: 0 <= k < |acts| ==> acts[k].Take?
    decreases |acts|
  {
    if acts != [] {
      OldestClaimsTake(Step(w, acts[0]), acts[1..], limit);
      assert forall k :: 1 <= k < |acts| ==> acts[k] == acts[1..][k - 1];
    }
  }

  /** After any run, from a bounded time on, an unpublished row is taken by one of the
      next oldest-first claims as soon as these outnumber the rows ahead of it. */
  lemma {:induction false} UnpublishedIsTaken(start: int, actions: seq<Action>, id: string, to: int, acts: seq<Action>,
                                              limit: nat)
    requires id in Run(start, actions).rows && Run(start, actions).rows[id].publishedAt.None?
    requires Run(start, actions).now + MAX_DELAY <= to && Run(start, actions).rows[id].createdAt <= to
    requires OldestClaims(Step(Run(start, actions), Tick(to)), acts, limit) && limit <= BATCH
    requires |acts| * limit > |Ahead(Step(Run(start, actions), Tick(to)), id)|
    ensures exists k :: 0 <= k < |acts| && acts[k].Take? && id in acts[k].ids
  {
    var w := Step(Run(start, actions), Tick(to));
    UnpublishedBecomesDue(start, actions, id, to);
    OldestClaimsTake(w, acts, limit);
    if forall k :: 0 <= k < |acts| ==> id !in acts[k].ids {
      ClaimsWait(w, acts, id, limit);
      PassingClaimsBounded(w, acts, id, limit);
    }
  }

  // ---------------------------------------------------------------------- one batch

  /** The row after one turn of the publishing loop. */
  function AfterTurn(row: Row, attempts: nat, wrote: bool, marked: bool, now: int): Row {
    if !marked then row
    else if wrote then MarkedPublished(row, now)
    else MarkedFailed(row, now + OutboxBackoff(attempts))
  }

  /** The steps one turn of the publishing loop stands for. */
  function TurnActions(c: Claim, time: int, wrote: bool, marked: bool): seq<Action> {
    [Tick(time)] +
    (if wrote then [Send(c), if marked then Publish(c.(sent := true)) else Drop(c.(sent := true))]
     else [if marked then Fail(c) else Drop(c)])
  }

  function Drops(claims: seq<Claim>): seq<Action> {
    seq(|claims|, i requires 0 <= i < |claims| => Drop(claims[i]))
  }

  /** One turn's outcome: the time, and whether the write and the mark succeeded. */
  datatype Turn = Turn(time: int, wrote: bool, marked: bool)

  function BatchActions(claims: seq<Claim>, turns: seq<Turn>): seq<Action>
    requires |claims| == |turns|
  {
    if claims == [] then []
    else
      TurnActions(claims[0], turns[0].time, turns[0].wrote, turns[0].marked) +
      (if turns[0].wrote && !turns[0].marked then Drops(claims[1..]) else BatchActions(claims[1..], turns[1..]))
  }

  lemma {:induction false} StepsAppend(w: World, a: seq<Action>, b: seq<Action>)
    ensures StepsFrom(w, a + b) == StepsFrom(StepsFrom(w, a), b)
    decreases |a|
  {
    if a == [] {
      assert a + b == b;
    } else {
      assert (a + b)[1..] == a[1..] + b;
      StepsAppend(Step(w, a[0]), a[1..], b);
    }
  }

  /** Steps taken from the state of a run continue that run. */
  lemma {:induction false} StepsContinueRun(start: int, actions: seq<Action>, acts: seq<Action>)
    ensures StepsFrom(Run(start, actions), acts) == Run(start, actions + acts)
    decreases |acts|
  {
    if acts == [] {
      assert actions + acts == actions;
    } else {
      assert (actions + [acts[0]])[..|actions|] == actions;
      StepsContinueRun(start, actions + [acts[0]], acts[1..]);
      assert actions + [acts[0]] + acts[1..] == actions + acts;
    }
  }

  lemma {:induction false} DropsAll(w: World, claims: seq<Claim>)
    ensures StepsFrom(w, Drops(claims)) == w.(held := w.held - Elements(claims))
    decreases |claims|
  {
    if claims == [] {
      assert w.held - Elements(claims) == w.held;
    } else {
      var next := Step(w, Drop(claims[0]));
      assert Drops(claims)[1..] == Drops(claims[1..]);
      DropsAll(next, claims[1..]);
      assert w.held - {claims[0]} - Elements(claims[1..]) == w.held - Elements(claims);
    }
  }

  lemma {:induction false} StepsTwo(w: World, a: Action, b: Action)
    ensures StepsFrom(w, [a] + [b]) == Step(Step(w, a), b)
  {
    assert ([a] + [b])[1..] == [b] && [b][1..] == [];
    assert StepsFrom(Step(w, a), [b]) == StepsFrom(Step(Step(w, a), b), []);
  }

  lemma {:induction false} StepsThree(w: World, a: Action, b: Action, c: Action)
    ensures StepsFrom(w, [a] + [b, c]) == Step(Step(Step(w, a), b), c)
  {
    assert ([a] + [b, c])[1..] == [b] + [c];
    StepsTwo(Step(w, a), b, c);
  }

  /** One turn: the row is marked or left, the relay lets go of it, and the broker has
      it if the write succeeded. */
  lemma {:induction false} TurnSteps(w: World, c: Claim, turn: Turn)
    requires c in w.held && !c.sent && c.(sent := true) !in w.held && c.id in w.rows && w.now <= turn.time
    ensures StepsFrom(w, TurnActions(c, turn.time, turn.wrote, turn.marked)) ==
            World(turn.time, w.rows[c.id := AfterTurn(w.rows[c.id], c.attempts, turn.wrote, turn.marked, turn.time)],
                  w.held - {c}, if turn.wrote then w.written + {c.id} else w.written)
  {
    var w1 := Step(w, Tick(turn.time));
    assert w.rows[c.id := w.rows[c.id]] == w.rows;
    var sent := c.(sent := true);
    if turn.wrote {
      StepsThree(w, Tick(turn.time), Send(c), if turn.marked then Publish(sent) else Drop(sent));
      assert Step(w1, Send(c)).held - {sent} == w.held - {c};
    } else {
      StepsTwo(w, Tick(turn.time), if turn.marked then Fail(c) else Drop(c));
    }
  }

  /** The clock does not run backwards during a batch. */
  ghost predicate Clock(now: int, turns: seq<Turn>) {
    && (forall i :: 0 <= i < |turns| ==> now <= turns[i].time)
    && (forall i, j :: 0 <= i < j < |turns| ==> turns[i].time <= turns[j].time)
  }

  /** The claims a relay works through: held, unsent, of different rows. */
  ghost predicate Working(w: World, claims: seq<Claim>) {
    && (forall i :: 0 <= i < |claims| ==>
          claims[i] in w.held && !claims[i].sent && claims[i].(sent := true) !in w.held && claims[i].id in w.rows)
    && (forall i, j :: 0 <= i < j < |claims| ==> claims[i].id != claims[j].id)
  }

  /** The state after one turn. */
  function TurnState(w: World, c: Claim, turn: Turn): World
    requires c.id in w.rows
  {
    World(turn.time, w.rows[c.id := AfterTurn(w.rows[c.id], c.attempts, turn.wrote, turn.marked, turn.time)],
          w.held - {c}, if turn.wrote then w.written + {c.id} else w.written)
  }

  /** The number of rows handled before a written row could not be marked. */
  function Handled(turns: seq<Turn>): nat {
    if turns == [] || (turns[0].wrote && !turns[0].marked) then 0 else 1 + Handled(turns[1..])
  }

  lemma {:induction false} HandledTells(turns: seq<Turn>)
    ensures Handled(turns) <= |turns| && forall i :: 0 <= i < Handled(turns) ==> !(turns[i].wrote && !turns[i].marked)
    ensures Handled(turns) < |turns| ==> turns[Handled(turns)].wrote && !turns[Handled(turns)].marked
  {
    if turns != [] { HandledTells(turns[1..]); }
  }

  /** The first turn of a batch, and what is left to do after it. */
  lemma {:induction false} BatchTurn(w: World, claims: seq<Claim>, turns: seq<Turn>)
    requires |claims| == |turns| && claims != [] && Clock(w.now, turns) && Working(w, claims)
    ensures var next := TurnState(w, claims[0], turns[0]);
            && Clock(next.now, turns[1..]) && Working(next, claims[1..])
            && StepsFrom(w, BatchActions(claims, turns)) ==
               if turns[0].wrote && !turns[0].marked then next.(held := next.held - Elements(claims[1..]))
               else StepsFrom(next, BatchActions(claims[1..], turns[1..]))
  {
    var c, turn := claims[0], turns[0];
    var acts := TurnActions(c, turn.time, turn.wrote, turn.marked);
    TurnSteps(w, c, turn);
    var next := StepsFrom(w, acts);
    StepsAppend(w, acts,
                if turn.wrote && !turn.marked then Drops(claims[1..]) else BatchActions(claims[1..], turns[1..]));
    DropsAll(next, claims[1..]);
  }

  /** After n turns of a batch the remaining turns lead where the whole batch leads. */
  ghost predicate BatchAt(start: World, w: World, claims: seq<Claim>, turns: seq<Turn>, n: nat) {
    && n <= |claims| == |turns| && Clock(w.now, turns[n..]) && Working(w, claims[n..])
    && Handled(turns) == n + Handled(turns[n..])
    && StepsFrom(w, BatchActions(claims[n..], turns[n..])) == StepsFrom(start, BatchActions(claims, turns))
  }

  lemma {:induction false} BatchGoesOn(start: World, w: World, claims: seq<Claim>, turns: seq<Turn>, n: nat)
    requires BatchAt(start, w, claims, turns, n) && n < |claims|
    ensures claims[n].id in w.rows
    ensures var next := TurnState(w, claims[n], turns[n]);
            if turns[n].wrote && !turns[n].marked
            then Handled(turns) == n && next.(held := next.held - Elements(claims[n + 1..])) ==
                                        StepsFrom(start, BatchActions(claims, turns))
            else BatchAt(start, next, claims, turns, n + 1)
  {
    assert claims[n..][1..] == claims[n + 1..] && turns[n..][1..] == turns[n + 1..];
    BatchTurn(w, claims[n..], turns[n..]);
  }

  /** The rows after a batch: each handled row had its turn, every other row is untouched. */
  ghost predicate BatchRows(before: map<string, Row>, after: map<string, Row>, claims: seq<Claim>, turns: seq<Turn>,
                            n: nat)
    requires n <= |claims| == |turns| && forall i :: 0 <= i < |claims| ==> claims[i].id in before
  {
    && after.Keys == before.Keys
    && (forall i :: 0 <= i < n ==>
          after[claims[i].id] ==
          AfterTurn(before[claims[i].id], claims[i].attempts, turns[i].wrote, turns[i].marked, turns[i].time))
    && (forall id :: id in before && (forall i :: 0 <= i < n ==> claims[i].id != id) ==> after[id] == before[id])
  }

  /** The row after its turn: left as it is if it cannot be marked or is published
      already; else published, or put off by the delay of its attempts, and free. */
  ghost predicate TurnLeaves(row: Row, attempts: nat, turn: Turn, after: Row) {
    if !turn.marked || row.publishedAt.Some? then after == row
    else if turn.wrote then
      after == row.(publishedAt := Some(turn.time), attempts := row.attempts + 1, owner := None, until := None)
    else
      after == row.(attempts := row.attempts + 1, nextAttempt := turn.time + RetryDelay(attempts), owner := None,
                    until := None)
  }

  /** The batch stops at the first row that was written and could not be marked; the rows
      before it had their turns, and no other row is touched. */
  ghost predicate BatchLeaves(before: map<string, Row>, after: map<string, Row>, claims: seq<Claim>, turns: seq<Turn>,
                              n: nat)
    requires |claims| == |turns| && forall i :: 0 <= i < |claims| ==> claims[i].id in before
  {
    && n <= |turns| && (forall i :: 0 <= i < n ==> !(turns[i].wrote && !turns[i].marked))
    && (n < |turns| ==> turns[n].wrote && !turns[n].marked)
    && after.Keys == before.Keys
    && (forall i :: 0 <= i < n ==>
          TurnLeaves(before[claims[i].id], claims[i].attempts, turns[i], after[claims[i].id]))
    && (forall id :: id in before && (forall i :: 0 <= i < n ==> claims[i].id != id) ==> after[id] == before[id])
  }

  lemma {:induction false} BatchExact(before: map<string, Row>, after: map<string, Row>, claims: seq<Claim>,
                                      turns: seq<Turn>)
    requires |claims| == |turns| && forall i :: 0 <= i < |claims| ==> claims[i].id in before
    requires Handled(turns) <= |claims| && BatchRows(before, after, claims, turns, Handled(turns))
    ensures BatchLeaves(before, after, claims, turns, Handled(turns))
  {
    HandledTells(turns);
    forall i | 0 <= i < Handled(turns)
      ensures TurnLeaves(before[claims[i].id], claims[i].attempts, turns[i], after[claims[i].id])
    {
      BackoffExact(claims[i].attempts);
    }
  }

  lemma {:induction false} BatchOutcome(w: World, claims: seq<Claim>, turns: seq<Turn>)
    requires |claims| == |turns| && Clock(w.now, turns) && Working(w, claims)
    ensures Handled(turns) <= |claims|
    ensures BatchRows(w.rows, StepsFrom(w, BatchActions(claims, turns)).rows, claims, turns, Handled(turns))
    decreases |claims|
  {
    HandledTells(turns);
    if claims != [] {
      BatchTurn(w, claims, turns);
      if Handled(turns) > 0 {
        var next := TurnState(w, claims[0], turns[0]);
        BatchOutcome(next, claims[1..], turns[1..]);
        var after := StepsFrom(w, BatchActions(claims, turns)).rows;
        BatchRowsExtend(w.rows, next.rows, after, claims, turns, Handled(turns));
      }
    }
  }

  lemma {:induction false} BatchRowsExtend(before: map<string, Row>, next: map<string, Row>, after: map<string, Row>,
                                           claims: seq<Claim>, turns: seq<Turn>, n: nat)
    requires 0 < n <= |claims| == |turns| && forall i :: 0 <= i < |claims| ==> claims[i].id in before
    requires forall i, j :: 0 <= i < j < |claims| ==> claims[i].id != claims[j].id
    requires var c, turn := claims[0], turns[0];
             next == before[c.id := AfterTurn(before[c.id], c.attempts, turn.wrote, turn.marked, turn.time)]
    requires BatchRows(next, after, claims[1..], turns[1..], n - 1)
    ensures BatchRows(before, after, claims, turns, n)
  {
    forall i | 0 <= i < n
      ensures after[claims[i].id] ==
              AfterTurn(before[claims[i].id], claims[i].attempts, turns[i].wrote, turns[i].marked, turns[i].time)
    {
      if i > 0 { assert claims[i] == claims[1..][i - 1] && turns[i] == turns[1..][i - 1]; }
    }
    forall id | id in before && (forall i :: 0 <= i < n ==> claims[i].id != id) ensures after[id] == before[id] {
      assert forall i :: 0 <= i < n - 1 ==> claims[1..][i] == claims[i + 1];
    }
  }

  class Relay {
    var now: int
    var rows: map<string, Row>
    var written: set<string>
    ghost var held: set<Claim>

    ghost function State(): World
      reads this
    {
      World(now, rows, held, written)
    }

    /** Leases the oldest claimable rows, at most `limit` of them. The statement returns
        them in no promised order: only which rows are taken is stated. */
    method ClaimPendingOutbox(owner: string, limit: nat) returns (batch: seq<string>)
      modifies this
      ensures |batch| <= limit && Distinct(batch) && OldestReady(old(rows), now, batch, limit)
      ensures now == old(now) && rows.Keys == old(rows).Keys
      ensures forall id :: id in rows ==>
        rows[id] == if id in batch then old(rows)[id].(owner := Some(owner), until := Some(now + 120))
                    else old(rows)[id]
      ensures OldestBatch(old(State()), Elements(batch), limit)
      ensures limit <= BATCH ==> State() == Step(old(State()), Take(owner, Elements(batch)))
    {
      batch := Oldest(limit);
      DistinctCardinality(batch);
      ghost var before := State();
      rows := map id | id in rows :: if id in batch then Leased(rows[id], owner, now + LEASE) else rows[id];
      held := held + set id | id in Elements(batch) :: ClaimOf(before, owner, id);
    }

    /** The publishing loop over a claimed batch. A row that cannot be written is put
        off and skipped; a row that was written but cannot be marked stops the batch.
        The loop takes exactly the steps of the relays' state machine. */
    method PublishBatch(claims: seq<Claim>, turns: seq<Turn>) returns (handled: nat, failed: bool)
      requires |claims| == |turns| && Clock(now, turns) && Working(State(), claims)
      modifies this
      ensures State() == StepsFrom(old(State()), BatchActions(claims, turns))
      ensures handled == Handled(turns) <= |claims| && failed == (handled < |claims|)
      ensures BatchLeaves(old(rows), rows, claims, turns, handled)
    {
      BatchOutcome(State(), claims, turns);
      BatchExact(rows, StepsFrom(State(), BatchActions(claims, turns)).rows, claims, turns);
      handled := 0;
      while handled < |claims|
        invariant BatchAt(old(State()), State(), claims, turns, handled)
      {
        var turn := turns[handled];
        BatchGoesOn(old(State()), State(), claims, turns, handled);
        PublishRow(claims[handled], turn);
        if turn.wrote && !turn.marked {
          held := held - Elements(claims[handled + 1..]);
          return handled, true;
        }
        handled := handled + 1;
      }
      failed := false;
    }

    /** The body of the loop: the broker write and the statement that records it. */
    method PublishRow(c: Claim, turn: Turn)
      requires c.id in rows
      modifies this
      ensures State() == TurnState(old(State()), c, turn)
    {
      now := turn.time;
      held := held - {c};
      if turn.wrote {
        written := written + {c.id};
        if turn.marked { rows := rows[c.id := MarkedPublished(rows[c.id], now)]; }
      } else if turn.marked {
        rows := rows[c.id := MarkedFailed(rows[c.id], now + OutboxBackoff(c.attempts))];
      }
      assert old(rows)[c.id := old(rows)[c.id]] == old(rows);
    }

    /** The subquery: due rows in order of creation. */
    method Oldest(limit: nat) returns (batch: seq<string>)
      ensures |batch| <= limit && Distinct(batch)
      ensures forall i :: 0 <= i < |batch| ==> batch[i] in rows && Claimable(rows[batch[i]], now)
      ensures forall i, j :: 0 <= i < j < |batch| ==> rows[batch[i]].createdAt <= rows[batch[j]].createdAt
      ensures OldestBatch(State(), Elements(batch), limit)
    {
      batch := [];
      var left := set id | id in rows && Claimable(rows[id], now);
      while |batch| < limit && left != {}
        invariant |batch| <= limit && Distinct(batch)
        invariant left == set id | id in rows && Claimable(rows[id], now) && id !in batch
        invariant forall i :: 0 <= i < |batch| ==> batch[i] in rows && Claimable(rows[batch[i]], now)
        invariant forall i, j :: 0 <= i < j < |batch| ==> rows[batch[i]].createdAt <= rows[batch[j]].createdAt
        invariant forall id, i :: id in left && 0 <= i < |batch| ==> rows[batch[i]].createdAt <= rows[id].createdAt
        decreases left
      {
        OldestExists(rows, left);
        var next :| next in left && IsOldest(rows, left, next);
        batch := batch + [next];
        left := left - {next};
      }
      DistinctCardinality(batch);
      assert forall id :: Due(State(), id) && id !in batch ==> id in left;
    }
  }

  /** Unpublished, its retry time has come, and its lease, if any, has ended. */
  predicate Ready(row: Row, now: int) {
    match (row.publishedAt, row.until)
    case (None, None) => row.nextAttempt <= now
    case (None, Some(until)) => row.nextAttempt <= now && until < now
    case (Some(_), _) => false
  }

  /** Ready rows only: as many of the oldest as the limit allows. */
  ghost predicate OldestReady(rows: map<string, Row>, now: int, batch: seq<string>, limit: nat) {
    && (forall id :: id in batch ==> id in rows && Ready(rows[id], now))
    && (forall id :: id in rows && id !in batch && Ready(rows[id], now) ==>
          |batch| == limit && forall x :: x in batch && x in rows ==> rows[x].createdAt <= rows[id].createdAt)
  }

  predicate IsOldest(rows: map<string, Row>, s: set<string>, m: string)
    requires s <= rows.Keys && m in rows
  {
    forall id :: id in s ==> rows[m].createdAt <= rows[id].createdAt
  }

  lemma {:induction false} OldestExists(rows: map<string, Row>, s: set<string>)
    requires s != {} && s <= rows.Keys
    ensures exists m :: m in s && IsOldest(rows, s, m)
  {
    var x :| x in s;
    if s == {x} {
      assert IsOldest(rows, s, x);
    } else {
      OldestExists(rows, s - {x});
      var m :| m in s - {x} && IsOldest(rows, s - {x}, m);
      var best := if rows[x].createdAt <= rows[m].createdAt then x else m;
      assert IsOldest(rows, s, best);
    }
  }
}
