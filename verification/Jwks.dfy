/** The gateway's key cache: one fetch at a time, shared by every waiting lookup. */
module Jwks {
  import opened Basics

  const REFRESH_AFTER: int := 300
  const MAX_STALE: int := 900

  type Key = string
  type Keys = map<string, Key>

  /** The verifier's fields, the channels made and closed so far, and whether a
      channel was ever closed twice. */
  datatype Cache = Cache(
    keys: Keys, loadedAt: int, cacheAge: int, refreshing: bool, refreshDone: nat,
    made: nat, closed: set<nat>, panicked: bool)

  const EMPTY := Cache(map[], 0, 0, false, 0, 0, {}, false)

  function EffectiveRefreshAfter(c: Cache): int {
    if 0 < c.cacheAge < REFRESH_AFTER then c.cacheAge else REFRESH_AFTER
  }

  predicate IsFresh(c: Cache, now: int) {
    |c.keys| > 0 && now - c.loadedAt <= EffectiveRefreshAfter(c)
  }

  predicate IsUsable(c: Cache, now: int) {
    |c.keys| > 0 && now - c.loadedAt <= MAX_STALE
  }

  datatype Entry = AlreadyFresh | Join(channel: nat) | Start(channel: nat)

  /** The locked section that decides whether to fetch, to wait or to return. */
  function Enter(c: Cache, force: bool, now: int): Entry {
    if !force && IsFresh(c, now) then AlreadyFresh
    else if c.refreshing then Join(c.refreshDone)
    else Start(c.made)
  }

  function Entered(c: Cache, e: Entry): Cache {
    if e.Start? then c.(refreshing := true, refreshDone := e.channel, made := c.made + 1) else c
  }

  datatype Fetched = Loaded(keys: Keys, age: int) | FetchFailed

  /** The locked section after a fetch: store the keys, wake the waiters. */
  function Completed(c: Cache, channel: nat, f: Fetched, now: int): Cache {
    var d := if f.Loaded? then c.(keys := f.keys, loadedAt := now, cacheAge := f.age) else c;
    d.(refreshing := false, panicked := c.panicked || channel in c.closed, closed := c.closed + {channel})
  }

  // ------------------------------------------------------------------------ threads

  /** Where a caller is. Without a key identifier it is a readiness check. */
  datatype Pc =
    | Lookup(kid: string)
    | Checking(want: Option<string>, force: bool)
    | Entering(want: Option<string>, force: bool)
    | Waiting(want: Option<string>, channel: nat)
    | Fetching(want: Option<string>, channel: nat)
    | Woken(want: Option<string>)
    | Final(kid: string)
    | Found(kid: string, key: Key, at: int, load: int)
    | Passed(at: int, load: int)
    | Refused

  datatype Load = Load(at: int, keys: Keys, age: int)

  /** The clock, the cache, every successful fetch so far, and the callers. */
  datatype World = World(now: int, cache: Cache, loads: seq<Load>, threads: map<nat, Pc>)

  datatype Action =
    | Tick(to: int)
    | Begin(t: nat, want: Option<string>)
    | Advance(t: nat)
    | Complete(t: nat, result: Fetched)
    | Cancel(t: nat)

  /** A refresh without an error: a lookup looks again, a check passes. */
  function Returned(want: Option<string>, now: int, load: int): Pc {
    if want.Some? then Final(want.value) else Passed(now, load)
  }

  function Answer(w: World, kid: string): Option<Pc> {
    if kid in w.cache.keys && IsUsable(w.cache, w.now)
    then Some(Found(kid, w.cache.keys[kid], w.now, |w.loads| - 1)) else None
  }

  /** The next atomic section of a caller that is not fetching. */
  function Next(w: World, pc: Pc): Pc {
    match pc
    case Lookup(kid) =>
      var a := Answer(w, kid);
      if a.Some? then a.value else Checking(Some(kid), kid !in w.cache.keys)
    case Checking(want, force) =>
      if !force && IsFresh(w.cache, w.now) then Returned(want, w.now, |w.loads| - 1) else Entering(want, force)
    case Entering(want, force) => (
      match Enter(w.cache, force, w.now)
      case AlreadyFresh => Returned(want, w.now, |w.loads| - 1)
      case Join(channel) => Waiting(want, channel)
      case Start(channel) => Fetching(want, channel))
    case Waiting(want, channel) => if channel in w.cache.closed then Woken(want) else pc
    case Woken(want) => if IsFresh(w.cache, w.now) then Returned(want, w.now, |w.loads| - 1) else Refused
    case Final(kid) =>
      var a := Answer(w, kid);
      if a.Some? then a.value else Refused
    case _ => pc
  }

  function Step(w: World, a: Action): World {
    match a
    case Tick(to) => if w.now <= to then w.(now := to) else w
    case Begin(t, want) =>
      if t in w.threads then w
      else w.(threads := w.threads[t := if want.Some? then Lookup(want.value) else Checking(None, false)])
    case Advance(t) =>
      if t !in w.threads then w
      else
        var pc := w.threads[t];
        w.(cache := if pc.Entering? then Entered(w.cache, Enter(w.cache, pc.force, w.now)) else w.cache,
           threads := w.threads[t := Next(w, pc)])
    case Complete(t, result) =>
      if t !in w.threads || !w.threads[t].Fetching? then w
      else
        var pc := w.threads[t];
        var loads := if result.Loaded? then w.loads + [Load(w.now, result.keys, result.age)] else w.loads;
        w.(cache := Completed(w.cache, pc.channel, result, w.now), loads := loads,
           threads := w.threads[t := if result.Loaded? then Returned(pc.want, w.now, |loads| - 1) else Refused])
    case Cancel(t) =>
      if t in w.threads && w.threads[t].Waiting? then w.(threads := w.threads[t := Refused]) else w
  }

  function Run(start: int, actions: seq<Action>): World {
    if actions == [] then World(start, EMPTY, [], map[])
    else Step(Run(start, actions[..|actions| - 1]), actions[|actions| - 1])
  }

  // ---------------------------------------------------------------------- invariant

  /** Every channel made is closed, except that of the fetch in progress. */
  ghost predicate ChannelsOk(c: Cache) {
    && !c.panicked
    && (forall ch :: ch in c.closed ==> ch < c.made)
    && (forall ch: nat :: ch < c.made ==> (ch in c.closed <==> !(c.refreshing && ch == c.refreshDone)))
    && (c.refreshing ==> c.refreshDone < c.made)
  }

  /** The cache holds exactly the last successful fetch. */
  ghost predicate CacheOk(w: World) {
    && (w.loads == [] ==> w.cache.keys == map[])
    && (w.loads != [] ==> var l := w.loads[|w.loads| - 1]; CacheHolds(w.cache, l) && l.at <= w.now)
  }

  predicate CacheHolds(c: Cache, l: Load) {
    c.keys == l.keys && c.loadedAt == l.at && c.cacheAge == l.age
  }

  /** How long a fetch stays fresh: as long as the response says, five minutes at most. */
  function FreshFor(age: int): int {
    if 0 < age < 300 then age else 300
  }

  ghost predicate Within(w: World, at: int, load: int, age: int) {
    0 <= load < |w.loads| && w.loads[load].at <= at <= w.now && at - w.loads[load].at <= age
  }

  ghost predicate PcOk(w: World, pc: Pc) {
    match pc
    case Waiting(_, ch) => ch < w.cache.made
    case Fetching(_, ch) => w.cache.refreshing && ch == w.cache.refreshDone
    case Found(kid, key, at, load) =>
      Within(w, at, load, MAX_STALE) && kid in w.loads[load].keys && w.loads[load].keys[kid] == key
    case Passed(at, load) => 0 <= load < |w.loads| && Within(w, at, load, FreshFor(w.loads[load].age))
    case _ => true
  }

  ghost predicate IsFetching(w: World, t: nat) {
    t in w.threads && w.threads[t].Fetching?
  }

  ghost predicate Inv(w: World) {
    && ChannelsOk(w.cache) && CacheOk(w)
    && (forall t :: t in w.threads ==> PcOk(w, w.threads[t]))
    && (forall t, u :: IsFetching(w, t) && IsFetching(w, u) ==> t == u)
    && (w.cache.refreshing ==> exists t :: IsFetching(w, t))
  }

  /** What the moving thread's new position needs, its world's other threads keep. */
  lemma {:induction false} PcsKept(w: World, n: World, t: nat, pc: Pc)
    requires Inv(w) && n.threads == w.threads[t := pc] && PcOk(n, pc)
    requires w.now <= n.now && w.loads <= n.loads && w.cache.made <= n.cache.made
    requires (exists u :: u != t && IsFetching(w, u)) ==>
      n.cache.refreshing == w.cache.refreshing && n.cache.refreshDone == w.cache.refreshDone
    ensures forall u :: u in n.threads ==> PcOk(n, n.threads[u])
  {
    forall u | u in n.threads ensures PcOk(n, n.threads[u]) {
      if u != t {
        assert PcOk(w, w.threads[u]);
        if w.threads[u].Fetching? { assert IsFetching(w, u); }
      }
    }
  }

  lemma {:induction false} NextOk(w: World, pc: Pc)
    requires Inv(w) && PcOk(w, pc) && !pc.Fetching?
    requires !(pc.Entering? && Enter(w.cache, pc.force, w.now).Start?)
    ensures PcOk(w, Next(w, pc)) && !Next(w, pc).Fetching?
  {
  }

  lemma {:induction false} AdvanceKeeps(w: World, t: nat)
    requires Inv(w)
    ensures Inv(Step(w, Advance(t)))
  {
    var n := Step(w, Advance(t));
    if t in w.threads {
      var pc := w.threads[t];
      if pc.Entering? && Enter(w.cache, pc.force, w.now).Start? {
        forall u | u in w.threads ensures !IsFetching(w, u) {
          assert PcOk(w, w.threads[u]);
        }
        PcsKept(w, n, t, Next(w, pc));
        assert IsFetching(n, t);
        assert forall u :: IsFetching(n, u) ==> u == t || IsFetching(w, u);
      } else if !pc.Fetching? {
        NextOk(w, pc);
        PcsKept(w, n, t, Next(w, pc));
        assert forall u :: IsFetching(n, u) <==> IsFetching(w, u);
      } else {
        assert n.threads == w.threads;
      }
    }
  }

  lemma {:induction false} CompleteKeeps(w: World, t: nat, result: Fetched)
    requires Inv(w) && IsFetching(w, t)
    ensures Inv(Step(w, Complete(t, result)))
  {
    var n := Step(w, Complete(t, result));
    assert PcOk(w, w.threads[t]);
    PcsKept(w, n, t, n.threads[t]);
    assert forall u :: IsFetching(n, u) ==> IsFetching(w, u) && u != t;
  }

  lemma {:induction false} StepKeeps(w: World, a: Action)
    requires Inv(w)
    ensures Inv(Step(w, a))
  {
    var n := Step(w, a);
    match a
    case Tick(_) =>
      assert forall u :: IsFetching(n, u) <==> IsFetching(w, u);
      forall u | u in n.threads ensures PcOk(n, n.threads[u]) {
        assert PcOk(w, w.threads[u]);
      }
    case Begin(t, _) =>
      if t !in w.threads {
        PcsKept(w, n, t, n.threads[t]);
        assert forall u :: IsFetching(n, u) <==> IsFetching(w, u);
      }
    case Advance(t) => AdvanceKeeps(w, t);
    case Complete(t, result) => if IsFetching(w, t) { CompleteKeeps(w, t, result); }
    case Cancel(t) =>
      if n != w {
        PcsKept(w, n, t, Refused);
        assert forall u :: IsFetching(n, u) <==> IsFetching(w, u);
      }
  }

  /** In every interleaving: one fetch at a time, no channel closed twice, and the
      cache is the last successful fetch. */
  lemma {:induction false} RunKeeps(start: int, actions: seq<Action>)
    ensures Inv(Run(start, actions))
  {
    if actions != [] {
      RunKeeps(start, actions[..|actions| - 1]);
      StepKeeps(Run(start, actions[..|actions| - 1]), actions[|actions| - 1]);
    }
  }

  // ----------------------------------------------------------------------- theorems

  /** A returned key comes from a successful fetch at most fifteen minutes before. */
  lemma {:induction false} ReturnedKeyIsRecent(start: int, actions: seq<Action>, t: nat)
    requires var w := Run(start, actions); t in w.threads && w.threads[t].Found?
    ensures var w := Run(start, actions); var r := w.threads[t];
            && 0 <= r.load < |w.loads| && r.kid in w.loads[r.load].keys && w.loads[r.load].keys[r.kid] == r.key
            && w.loads[r.load].at <= r.at <= w.loads[r.load].at + 15 * 60
  {
    RunKeeps(start, actions);
    assert PcOk(Run(start, actions), Run(start, actions).threads[t]);
  }

  /** A readiness check passes only while a successful fetch is fresh: within the age its
      response allows, and within five minutes. */
  lemma {:induction false} PassedCheckIsFresh(start: int, actions: seq<Action>, t: nat)
    requires var w := Run(start, actions); t in w.threads && w.threads[t].Passed?
    ensures var w := Run(start, actions); var r := w.threads[t];
            && 0 <= r.load < |w.loads| && w.loads[r.load].at <= r.at <= w.loads[r.load].at + 5 * 60
            && (w.loads[r.load].age > 0 ==> r.at <= w.loads[r.load].at + w.loads[r.load].age)
  {
    RunKeeps(start, actions);
    assert PcOk(Run(start, actions), Run(start, actions).threads[t]);
  }

  /** The number of sections a caller still has before it. */
  function Rank(pc: Pc): nat {
    match pc
    case Lookup(_) => 6
    case Checking(_, _) => 5
    case Entering(_, _) => 4
    case Waiting(_, _) => 3
    case Fetching(_, _) => 3
    case Woken(_) => 2
    case Final(_) => 1
    case _ => 0
  }

  predicate Moves(w: World, a: Action, u: nat) {
    u in w.threads && u in Step(w, a).threads && Rank(Step(w, a).threads[u]) < Rank(w.threads[u])
  }

  lemma {:induction false} CanMove(w: World, t: nat)
    requires Inv(w) && t in w.threads && Rank(w.threads[t]) > 0
    requires w.threads[t].Waiting? ==> w.threads[t].channel in w.cache.closed
    ensures exists a :: Moves(w, a, t)
  {
    if w.threads[t].Fetching? {
      assert Moves(w, Complete(t, FetchFailed), t);
    } else {
      assert Moves(w, Advance(t), t);
    }
  }

  /** No caller is stuck: it can move on, or the fetch it waits for can complete. */
  lemma {:induction false} NoDeadlock(start: int, actions: seq<Action>, t: nat)
    requires var w := Run(start, actions); t in w.threads && Rank(w.threads[t]) > 0
    ensures var w := Run(start, actions);
            || (exists a :: Moves(w, a, t))
            || (w.threads[t].Waiting? && exists u, a ::
                  IsFetching(w, u) && w.threads[u].channel == w.threads[t].channel && Moves(w, a, u))
  {
    RunKeeps(start, actions);
    var w := Run(start, actions);
    assert PcOk(w, w.threads[t]);
    if w.threads[t].Waiting? && w.threads[t].channel !in w.cache.closed {
      var u :| IsFetching(w, u);
      assert PcOk(w, w.threads[u]);
      CanMove(w, u);
      var a :| Moves(w, a, u);
    } else {
      CanMove(w, t);
    }
  }

  predicate Enters(w: World, a: Action, t: nat) {
    && t in w.threads && t in Step(w, a).threads && Rank(w.threads[t]) > 3
    && (Step(w, a).threads[t].Waiting? || Step(w, a).threads[t].Fetching?)
  }

  /** How often a caller starts a fetch or joins one. */
  function Entries(start: int, actions: seq<Action>, t: nat): nat {
    if actions == [] then 0
    else
      var before := actions[..|actions| - 1];
      Entries(start, before, t) + if Enters(Run(start, before), actions[|actions| - 1], t) then 1 else 0
  }

  lemma {:induction false} RankFalls(w: World, a: Action, t: nat)
    requires t in w.threads
    ensures t in Step(w, a).threads
    ensures Step(w, a).threads[t] == w.threads[t] || Rank(Step(w, a).threads[t]) < Rank(w.threads[t])
  {
  }

  /** One lookup causes or joins at most one fetch. */
  lemma {:induction false} AtMostOneFetchPerLookup(start: int, actions: seq<Action>, t: nat)
    ensures Entries(start, actions, t) <= 1
    ensures Entries(start, actions, t) == 1 ==>
      t in Run(start, actions).threads && Rank(Run(start, actions).threads[t]) <= 3
  {
    if actions != [] {
      var before := actions[..|actions| - 1];
      AtMostOneFetchPerLookup(start, before, t);
      var w := Run(start, before);
      if t in w.threads {
        RankFalls(w, actions[|actions| - 1], t);
      }
    }
  }

  // ------------------------------------------------------------- when a fetch is made

  /** The cache is fresh: it has keys, and their fetch is. */
  predicate FreshNow(c: Cache, now: int) {
    c.keys != map[] && now <= c.loadedAt + FreshFor(c.cacheAge)
  }

  /** A key the cache may still hand out: fetched at most fifteen minutes before. */
  predicate Serves(c: Cache, kid: string, now: int) {
    kid in c.keys && now <= c.loadedAt + 15 * 60
  }

  lemma {:induction false} FreshExact(c: Cache, kid: string, now: int)
    ensures IsFresh(c, now) <==> FreshNow(c, now)
    ensures kid in c.keys && IsUsable(c, now) <==> Serves(c, kid, now)
  {
    assert |c.keys| == 0 <==> c.keys == map[];
  }

  /** A lookup is answered from the cache at once if the cache may serve the key, and it
      insists on a fetch if the cache does not know the key. */
  lemma {:induction false} LookupExact(w: World, t: nat, kid: string)
    requires t in w.threads && w.threads[t] == Lookup(kid)
    ensures var next := Step(w, Advance(t));
            && next.cache == w.cache
            && next.threads[t] == if Serves(w.cache, kid, w.now)
                                  then Found(kid, w.cache.keys[kid], w.now, |w.loads| - 1)
                                  else Checking(Some(kid), kid !in w.cache.keys)
  {
    FreshExact(w.cache, kid, w.now);
  }

  /** The second look after a refresh answers with the key or refuses. */
  lemma {:induction false} FinalExact(w: World, t: nat, kid: string)
    requires t in w.threads && w.threads[t] == Final(kid)
    ensures Step(w, Advance(t)).threads[t] ==
            if Serves(w.cache, kid, w.now) then Found(kid, w.cache.keys[kid], w.now, |w.loads| - 1) else Refused
  {
    FreshExact(w.cache, kid, w.now);
  }

  /** A caller that does not insist returns as soon as it finds the cache fresh, before
      or under the lock; otherwise it joins the fetch in progress or starts one. */
  lemma {:induction false} RefreshExact(w: World, t: nat, want: Option<string>, force: bool)
    requires t in w.threads && (w.threads[t] == Checking(want, force) || w.threads[t] == Entering(want, force))
    ensures var pc, c := Step(w, Advance(t)).threads[t], Step(w, Advance(t)).cache;
            if !force && FreshNow(w.cache, w.now) then
              c == w.cache && pc == if want.Some? then Final(want.value) else Passed(w.now, |w.loads| - 1)
            else if w.threads[t].Checking? then c == w.cache && pc == Entering(want, force)
            else if w.cache.refreshing then c == w.cache && pc == Waiting(want, w.cache.refreshDone)
            else
              && pc == Fetching(want, w.cache.made)
              && c == w.cache.(refreshing := true, refreshDone := w.cache.made, made := w.cache.made + 1)
  {
    FreshExact(w.cache, "", w.now);
  }

  /** A waiting caller wakes when its channel is closed, and is refused unless the cache
      is fresh by then. */
  lemma {:induction false} WaitExact(w: World, t: nat, want: Option<string>)
    requires t in w.threads && (w.threads[t].Waiting? || w.threads[t].Woken?) && w.threads[t].want == want
    ensures var pc := Step(w, Advance(t)).threads[t];
            if w.threads[t].Waiting? then
              pc == if w.threads[t].channel in w.cache.closed then Woken(want) else w.threads[t]
            else if !FreshNow(w.cache, w.now) then pc == Refused
            else pc == if want.Some? then Final(want.value) else Passed(w.now, |w.loads| - 1)
  {
    FreshExact(w.cache, "", w.now);
  }

  /** A fetch stores what it loaded, keeps the cache if it failed, and wakes the waiters. */
  lemma {:induction false} FetchExact(w: World, t: nat, result: Fetched)
    requires IsFetching(w, t)
    ensures var next, pc := Step(w, Complete(t, result)), w.threads[t];
            && next.cache.closed == w.cache.closed + {pc.channel} && !next.cache.refreshing
            && next.cache.made == w.cache.made
            && (result.FetchFailed? ==>
                  && next.threads[t] == Refused && next.loads == w.loads && next.cache.keys == w.cache.keys
                  && next.cache.loadedAt == w.cache.loadedAt && next.cache.cacheAge == w.cache.cacheAge)
            && (result.Loaded? ==>
                  && next.loads == w.loads + [Load(w.now, result.keys, result.age)]
                  && next.cache.keys == result.keys && next.cache.loadedAt == w.now && next.cache.cacheAge == result.age
                  && next.threads[t] == if pc.want.Some? then Final(pc.want.value) else Passed(w.now, |w.loads|))
  {}

  /** In every run a key unknown to the cache when it was looked up is never refused, or
      found, without starting or joining a fetch. */
  lemma {:induction false} UnknownKeyIsFetched(start: int, actions: seq<Action>, i: nat, t: nat, kid: string)
    requires i < |actions| && actions[i] == Advance(t)
    requires var w := Run(start, actions[..i]);
             t in w.threads && w.threads[t] == Lookup(kid) && kid !in w.cache.keys
    ensures t in Run(start, actions).threads
    ensures var pc := Run(start, actions).threads[t];
            pc == Checking(Some(kid), true) || pc == Entering(Some(kid), true) || Entries(start, actions, t) == 1
  {
    var n := |actions| - 1;
    var w := Run(start, actions[..n]);
    if i == n {
      LookupExact(w, t, kid);
    } else {
      assert actions[..n][..i] == actions[..i];
      UnknownKeyIsFetched(start, actions[..n], i, t, kid);
      AtMostOneFetchPerLookup(start, actions, t);
      StillInsists(w, actions[n], t, kid);
    }
  }

  lemma {:induction false} StillInsists(w: World, a: Action, t: nat, kid: string)
    requires t in w.threads
    ensures t in Step(w, a).threads
    ensures w.threads[t] == Checking(Some(kid), true) ==>
            Step(w, a).threads[t] == w.threads[t] || Step(w, a).threads[t] == Entering(Some(kid), true)
    ensures w.threads[t] == Entering(Some(kid), true) ==> Step(w, a).threads[t] == w.threads[t] || Enters(w, a, t)
  {}

  // ------------------------------------------------------------------- the verifier

  class Verifier {
    var cache: Cache

    constructor ()
      ensures cache == EMPTY
    {
      cache := EMPTY;
    }

    method Find(kid: string, now: int) returns (key: Option<Key>)
      ensures key.Some? <==> kid in cache.keys && now - cache.loadedAt <= 15 * 60
      ensures key.Some? ==> key.value == cache.keys[kid]
    {
      if kid in cache.keys && IsUsable(cache, now) {
        key := Some(cache.keys[kid]);
      } else {
        assert kid in cache.keys ==> |cache.keys| > 0;
        key := None;
      }
    }

    method BeginRefresh(force: bool, now: int) returns (e: Entry)
      requires ChannelsOk(cache)
      modifies this
      ensures e.AlreadyFresh? <==> !force && FreshNow(old(cache), now)
      ensures e.Join? <==> !e.AlreadyFresh? && old(cache).refreshing
      ensures e.Join? ==> e.channel == old(cache).refreshDone
      ensures !e.Start? ==> cache == old(cache)
      ensures e.Start? ==>
        && e.channel == old(cache).made
        && cache == old(cache).(refreshing := true, refreshDone := old(cache).made, made := old(cache).made + 1)
      ensures e == Enter(old(cache), force, now) && cache == Entered(old(cache), e) && ChannelsOk(cache)
      ensures e.Start? ==> !old(cache).refreshing && e.channel !in cache.closed
      ensures e.Join? ==> e.channel !in cache.closed
    {
      FreshExact(cache, "", now);
      if !force && IsFresh(cache, now) { return AlreadyFresh; }
      if cache.refreshing { return Join(cache.refreshDone); }
      var channel := cache.made;
      cache := cache.(refreshing := true, refreshDone := channel, made := cache.made + 1);
      e := Start(channel);
    }

    method EndRefresh(channel: nat, f: Fetched, now: int)
      requires ChannelsOk(cache) && cache.refreshing && channel == cache.refreshDone
      modifies this
      ensures cache == Completed(old(cache), channel, f, now) && ChannelsOk(cache)
      ensures !cache.refreshing && cache.closed == old(cache).closed + {channel} && cache.made == old(cache).made
      ensures f.Loaded? ==> cache.keys == f.keys && cache.loadedAt == now && cache.cacheAge == f.age
      ensures f.FetchFailed? ==>
        && cache.keys == old(cache).keys && cache.loadedAt == old(cache).loadedAt
        && cache.cacheAge == old(cache).cacheAge
    {
      if f.Loaded? {
        cache := cache.(keys := f.keys, loadedAt := now, cacheAge := f.age);
      }
      cache := cache.(refreshing := false);
      cache := cache.(panicked := cache.panicked || channel in cache.closed, closed := cache.closed + {channel});
    }
  }
}
