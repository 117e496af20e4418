/** Refresh-token rotation: sessions, families and concurrent refreshes. */
module Sessions {
  import opened Basics

  const REFRESH_TTL: int := 2592000

  datatype SessionStatus = Active | Rotated | Revoked

  datatype Session = Session(
    family: string, user: string, hash: string, status: SessionStatus, expiresAt: int,
    rotatedFrom: Option<string>, replacedBy: Option<string>, revokedAt: Option<int>)

  predicate IsUsable(s: Session, now: int) {
    s.status == Active && now < s.expiresAt
  }

  type Table = map<string, Session>

  predicate HashTaken(t: Table, hash: string) {
    exists id :: id in t && t[id].hash == hash
  }

  function RevokedRow(s: Session, now: int): Session {
    if s.status == Revoked then s else s.(status := Revoked, revokedAt := Some(now))
  }

  function RevokeFamily(t: Table, family: string, now: int): Table {
    map id | id in t :: if t[id].family == family then RevokedRow(t[id], now) else t[id]
  }

  function RevokeUser(t: Table, user: string, now: int): Table {
    map id | id in t :: if t[id].user == user then RevokedRow(t[id], now) else t[id]
  }

  function RevokeOne(t: Table, id: string, now: int): Table {
    if id in t then t[id := RevokedRow(t[id], now)] else t
  }

  function NewSession(family: string, user: string, hash: string, now: int, from: Option<string>): Session {
    Session(family, user, hash, Active, now + REFRESH_TTL, from, None, None)
  }

  /** A refresh between its reads and its transaction: the row it read, and when. */
  datatype Flight = Flight(id: string, session: Session, now: int)

  datatype Outcome = Refreshed | ReuseDetected | Failed

  /** What the transaction of a refresh decides. A key collision rolls it back. */
  function Decide(t: Table, f: Flight, userActive: bool, newId: string, newHash: string): Outcome {
    if !IsUsable(f.session, f.now) || !userActive then ReuseDetected
    else if f.id !in t || t[f.id].status != Active then ReuseDetected
    else if newId in t || HashTaken(t, newHash) then Failed
    else Refreshed
  }

  function Commit(t: Table, f: Flight, userActive: bool, newId: string, newHash: string): Table {
    match Decide(t, f, userActive, newId, newHash)
    case ReuseDetected => RevokeFamily(t, f.session.family, f.now)
    case Failed => t
    case Refreshed =>
      t[newId := NewSession(f.session.family, f.session.user, newHash, f.now, Some(f.id))]
       [f.id := t[f.id].(status := Rotated, replacedBy := Some(newId))]
  }

  // -------------------------------------------------------------------------- runs

  datatype World = World(table: Table, flights: map<nat, Flight>)

  datatype Action =
    | Login(id: string, family: string, user: string, hash: string, now: int)
    | Present(thread: nat, id: string, now: int)
    | Finish(thread: nat, userActive: bool, newId: string, newHash: string)
    | Logout(id: string, now: int)
    | LogoutAll(user: string, now: int)

  ghost predicate InFamily(t: Table, family: string, id: string) {
    id in t && t[id].family == family
  }

  /** One transaction, or the reads that precede one. Login draws a new family
      identifier; a disabled account and a password reset revoke as LogoutAll does. */
  ghost function Step(w: World, a: Action): World {
    match a
    case Login(id, family, user, hash, now) =>
      if id in w.table || HashTaken(w.table, hash) || (exists x :: InFamily(w.table, family, x)) then w
      else w.(table := w.table[id := NewSession(family, user, hash, now, None)])
    case Present(thread, id, now) =>
      if id in w.table then w.(flights := w.flights[thread := Flight(id, w.table[id], now)]) else w
    case Finish(thread, userActive, newId, newHash) =>
      if thread in w.flights
      then World(Commit(w.table, w.flights[thread], userActive, newId, newHash), w.flights - {thread})
      else w
    case Logout(id, now) => w.(table := RevokeOne(w.table, id, now))
    case LogoutAll(user, now) => w.(table := RevokeUser(w.table, user, now))
  }

  ghost function Run(actions: seq<Action>): World {
    if actions == [] then World(map[], map[])
    else Step(Run(actions[..|actions| - 1]), actions[|actions| - 1])
  }

  // --------------------------------------------------------------------- invariant

  ghost predicate LinkOk(t: Table, c: seq<string>, i: nat)
    requires i < |c| && forall k :: 0 <= k < |c| ==> c[k] in t
  {
    && t[c[i]].rotatedFrom == (if i == 0 then None else Some(c[i - 1]))
    && t[c[i]].replacedBy == (if i == |c| - 1 then None else Some(c[i + 1]))
    && t[c[i]].user == t[c[0]].user
    && (t[c[i]].status == Rotated ==> i < |c| - 1)
    && (t[c[i]].status == Active ==> i == |c| - 1)
  }

  /** The sessions of a family, in order of rotation. */
  ghost predicate IsChain(t: Table, family: string, c: seq<string>) {
    && Distinct(c)
    && (forall id :: id in c <==> InFamily(t, family, id))
    && (forall k :: 0 <= k < |c| ==> c[k] in t)
    && (forall i :: 0 <= i < |c| ==> LinkOk(t, c, i))
  }

  ghost predicate Chained(t: Table, family: string) {
    exists c :: IsChain(t, family, c)
  }

  ghost predicate HashesDistinct(t: Table) {
    forall id, jd :: id in t && jd in t && t[id].hash == t[jd].hash ==> id == jd
  }

  ghost predicate RevocationsDated(t: Table) {
    forall id :: id in t ==> (t[id].status == Revoked <==> t[id].revokedAt.Some?)
  }

  ghost predicate TableOk(t: Table) {
    (forall family {:trigger Chained(t, family)} :: Chained(t, family)) && HashesDistinct(t) && RevocationsDated(t)
  }

  /** What never changes in a row, and in which direction its status moves. */
  ghost predicate RowAdvances(s: Session, n: Session) {
    && n == s.(status := n.status, replacedBy := n.replacedBy, revokedAt := n.revokedAt)
    && (s.status == Revoked ==> n == s)
    && (s.status == Rotated ==> n.status != Active && n.replacedBy == s.replacedBy)
  }

  ghost predicate TableAdvances(t: Table, u: Table) {
    forall id :: id in t ==> id in u && RowAdvances(t[id], u[id])
  }

  ghost predicate FlightsOk(w: World) {
    forall thread :: thread in w.flights ==>
      w.flights[thread].id in w.table && RowAdvances(w.flights[thread].session, w.table[w.flights[thread].id])
  }

  ghost predicate Inv(w: World) {
    TableOk(w.table) && FlightsOk(w)
  }

  /** Rows of the family only lose their ACTIVE status, or nothing changes in them. */
  lemma {:induction false} SameChain(t: Table, u: Table, family: string, c: seq<string>)
    requires IsChain(t, family, c) && TableAdvances(t, u)
    requires forall id :: InFamily(u, family, id) ==>
      id in t && u[id].replacedBy == t[id].replacedBy && (u[id].status == t[id].status || u[id].status == Revoked)
    ensures IsChain(u, family, c)
  {
    forall id ensures id in c <==> InFamily(u, family, id) {
      assert id in c <==> InFamily(t, family, id);
    }
    forall i | 0 <= i < |c| ensures LinkOk(u, c, i) {
      assert LinkOk(t, c, i) && c[i] in c && c[0] in c;
      assert InFamily(u, family, c[i]) && InFamily(u, family, c[0]);
    }
  }

  lemma {:induction false} RevocationKeeps(t: Table, u: Table)
    requires TableOk(t) && u.Keys == t.Keys
    requires forall id :: id in t ==> u[id] == t[id] || exists now :: u[id] == RevokedRow(t[id], now)
    ensures TableOk(u) && TableAdvances(t, u)
  {
    forall family ensures Chained(u, family) {
      assert Chained(t, family);
      var c :| IsChain(t, family, c);
      SameChain(t, u, family, c);
    }
  }

  lemma {:induction false} LoginKeeps(t: Table, id: string, s: Session)
    requires TableOk(t) && id !in t && !HashTaken(t, s.hash)
    requires s == NewSession(s.family, s.user, s.hash, s.expiresAt - REFRESH_TTL, None)
    requires forall x :: !InFamily(t, s.family, x)
    ensures TableOk(t[id := s]) && TableAdvances(t, t[id := s])
  {
    var u := t[id := s];
    forall family ensures Chained(u, family) {
      if family == s.family {
        forall x ensures x in [id] <==> InFamily(u, family, x) {
          assert !InFamily(t, family, x);
        }
        assert LinkOk(u, [id], 0) && IsChain(u, family, [id]);
      } else {
        assert Chained(t, family);
        var c :| IsChain(t, family, c);
        SameChain(t, u, family, c);
      }
    }
  }

  /** The ACTIVE session of a family is the last of its chain. */
  lemma {:induction false} ActiveIsLast(t: Table, family: string, c: seq<string>, id: string)
    requires IsChain(t, family, c) && InFamily(t, family, id) && t[id].status == Active
    ensures |c| > 0 && c[|c| - 1] == id
  {
    assert id in c;
    var i :| 0 <= i < |c| && c[i] == id;
    assert LinkOk(t, c, i);
  }

  lemma {:induction false} RotationExtendsChain(t: Table, c: seq<string>, f: Flight, newId: string, newHash: string)
    requires IsChain(t, f.session.family, c) && f.id in t && RowAdvances(f.session, t[f.id])
    requires Decide(t, f, true, newId, newHash) == Refreshed
    ensures IsChain(Commit(t, f, true, newId, newHash), f.session.family, c + [newId])
  {
    var u := Commit(t, f, true, newId, newHash);
    var family := f.session.family;
    ActiveIsLast(t, family, c, f.id);
    var d := c + [newId];
    assert newId in c <==> InFamily(t, family, newId);
    forall id ensures id in d <==> InFamily(u, family, id) {
      assert id in c <==> InFamily(t, family, id);
    }
    forall i | 0 <= i < |d| ensures LinkOk(u, d, i) {
      assert LinkOk(t, c, 0) && LinkOk(t, c, |c| - 1);
      if i < |c| {
        assert LinkOk(t, c, i);
        assert i < |c| - 1 ==> c[i] != f.id;
      }
    }
  }

  lemma {:induction false} RotationKeeps(t: Table, f: Flight, newId: string, newHash: string)
    requires TableOk(t) && f.id in t && RowAdvances(f.session, t[f.id])
    requires Decide(t, f, true, newId, newHash) == Refreshed
    ensures TableOk(Commit(t, f, true, newId, newHash)) && TableAdvances(t, Commit(t, f, true, newId, newHash))
  {
    var u := Commit(t, f, true, newId, newHash);
    forall family ensures Chained(u, family) {
      assert Chained(t, family);
      var c :| IsChain(t, family, c);
      if family == f.session.family {
        RotationExtendsChain(t, c, f, newId, newHash);
      } else {
        SameChain(t, u, family, c);
      }
    }
  }

  lemma {:induction false} StepKeepsTable(w: World, a: Action)
    requires Inv(w)
    ensures TableOk(Step(w, a).table) && TableAdvances(w.table, Step(w, a).table)
  {
    match a
    case Login(id, family, user, hash, now) =>
      if Step(w, a) != w {
        LoginKeeps(w.table, id, NewSession(family, user, hash, now, None));
      }
    case Present(_, _, _) =>
    case Finish(thread, userActive, newId, newHash) =>
      if thread in w.flights {
        var f := w.flights[thread];
        match Decide(w.table, f, userActive, newId, newHash)
        case ReuseDetected => RevocationKeeps(w.table, Step(w, a).table);
        case Failed =>
        case Refreshed => RotationKeeps(w.table, f, newId, newHash);
      }
    case Logout(_, _) => RevocationKeeps(w.table, Step(w, a).table);
    case LogoutAll(_, _) => RevocationKeeps(w.table, Step(w, a).table);
  }

  lemma {:induction false} StepKeeps(w: World, a: Action)
    requires Inv(w)
    ensures Inv(Step(w, a)) && TableAdvances(w.table, Step(w, a).table)
  {
    StepKeepsTable(w, a);
  }

  // ---------------------------------------------------------------------- theorems

  /** In every run the sessions of each family form one chain of rotations. */
  lemma {:induction false} RunKeeps(actions: seq<Action>)
    ensures Inv(Run(actions))
  {
    if actions == [] {
      forall family ensures Chained(Run(actions).table, family) {
        assert IsChain(Run(actions).table, family, []);
      }
    } else {
      RunKeeps(actions[..|actions| - 1]);
      StepKeeps(Run(actions[..|actions| - 1]), actions[|actions| - 1]);
    }
  }

  /** At most one session of a family is ACTIVE. */
  lemma {:induction false} OneActivePerFamily(actions: seq<Action>, id: string, jd: string)
    requires var t := Run(actions).table;
             id in t && jd in t && t[id].family == t[jd].family && t[id].status == Active && t[jd].status == Active
    ensures id == jd
  {
    RunKeeps(actions);
    var t := Run(actions).table;
    assert Chained(t, t[id].family);
    var c :| IsChain(t, t[id].family, c);
    ActiveIsLast(t, t[id].family, c, id);
    ActiveIsLast(t, t[id].family, c, jd);
  }

  ghost predicate Ended(t: Table, family: string) {
    && (exists id :: InFamily(t, family, id))
    && (forall id :: InFamily(t, family, id) ==> t[id].status != Active)
  }

  /** A new session starts its family or follows an ACTIVE session of it. */
  lemma {:induction false} NewSessionNotEnded(w: World, a: Action, family: string, id: string)
    requires Inv(w) && id !in w.table && InFamily(Step(w, a).table, family, id)
    ensures !Ended(w.table, family)
  {
    if a.Finish? {
      assert InFamily(w.table, family, w.flights[a.thread].id);
    }
  }

  lemma {:induction false} EndedAdvances(t: Table, u: Table, family: string)
    requires TableAdvances(t, u) && Ended(t, family)
    requires forall id :: InFamily(u, family, id) ==> id in t
    ensures Ended(u, family)
  {
    var x :| InFamily(t, family, x);
    assert InFamily(u, family, x);
    forall id | InFamily(u, family, id) ensures u[id].status != Active {
      assert InFamily(t, family, id);
    }
  }

  lemma {:induction false} EndedStep(w: World, a: Action, family: string)
    requires Inv(w) && Ended(w.table, family)
    ensures Ended(Step(w, a).table, family)
  {
    StepKeeps(w, a);
    forall id | InFamily(Step(w, a).table, family, id) ensures id in w.table {
      if id !in w.table { NewSessionNotEnded(w, a, family, id); }
    }
    EndedAdvances(w.table, Step(w, a).table, family);
  }

  lemma {:induction false} LastStep(actions: seq<Action>)
    requires actions != []
    ensures var n := |actions| - 1;
            Inv(Run(actions[..n])) && TableAdvances(Run(actions[..n]).table, Run(actions).table)
  {
    RunKeeps(actions[..|actions| - 1]);
    StepKeeps(Run(actions[..|actions| - 1]), actions[|actions| - 1]);
  }

  lemma {:induction false} EndedAfterLast(actions: seq<Action>, family: string)
    requires actions != [] && Ended(Run(actions[..|actions| - 1]).table, family)
    ensures Ended(Run(actions).table, family)
  {
    LastStep(actions);
    EndedStep(Run(actions[..|actions| - 1]), actions[|actions| - 1], family);
  }

  /** A family without an ACTIVE session never has one again. */
  lemma {:induction false} EndedForGood(actions: seq<Action>, k: nat, family: string)
    requires k <= |actions| && Ended(Run(actions[..k]).table, family)
    ensures Ended(Run(actions).table, family)
  {
    if k == |actions| {
      assert actions[..k] == actions;
    } else {
      assert actions[..|actions| - 1][..k] == actions[..k];
      EndedForGood(actions[..|actions| - 1], k, family);
      EndedAfterLast(actions, family);
    }
  }

  /** Rows only advance along a run; a REVOKED row is never written again. */
  lemma {:induction false} RunAdvances(actions: seq<Action>, k: nat, id: string)
    requires k <= |actions| && id in Run(actions[..k]).table
    ensures id in Run(actions).table && RowAdvances(Run(actions[..k]).table[id], Run(actions).table[id])
  {
    if k == |actions| {
      assert actions[..k] == actions;
    } else {
      assert actions[..|actions| - 1][..k] == actions[..k];
      RunAdvances(actions[..|actions| - 1], k, id);
      LastStep(actions);
    }
  }

  /** The outcome of the refresh that the k-th action completes, for the session it presented. */
  ghost predicate Completes(actions: seq<Action>, k: nat, id: string, o: Outcome)
    requires k < |actions|
  {
    var w := Run(actions[..k]);
    var a := actions[k];
    && a.Finish? && a.thread in w.flights && w.flights[a.thread].id == id
    && Decide(w.table, w.flights[a.thread], a.userActive, a.newId, a.newHash) == o
  }

  /** A refresh token is exchanged at most once, however refreshes interleave. */
  lemma {:induction false} RefreshedOnce(actions: seq<Action>, i: nat, j: nat, id: string)
    requires i < j < |actions| && Completes(actions, i, id, Refreshed)
    ensures !Completes(actions, j, id, Refreshed)
  {
    assert actions[..j][..i + 1] == actions[..i + 1] && actions[..i + 1][..i] == actions[..i];
    assert Run(actions[..i + 1]) == Step(Run(actions[..i]), actions[i]);
    RunAdvances(actions[..j], i + 1, id);
  }

  lemma {:induction false} RunLast(actions: seq<Action>, n: nat)
    requires n < |actions|
    ensures Run(actions[..n + 1]) == Step(Run(actions[..n]), actions[n])
  {
    assert actions[..n + 1][..n] == actions[..n];
  }

  /** A detected reuse ends the family: none of its sessions is ever ACTIVE again. */
  lemma {:induction false} ReuseEndsFamily(actions: seq<Action>, k: nat, id: string)
    requires k < |actions| && Completes(actions, k, id, ReuseDetected)
    ensures id in Run(actions).table && Ended(Run(actions).table, Run(actions).table[id].family)
  {
    RunKeeps(actions[..k]);
    ReuseEnds(Run(actions[..k]), actions[k], id);
    RunLast(actions, k);
    EndedForGood(actions, k + 1, Run(actions[..k + 1]).table[id].family);
    RunAdvances(actions, k + 1, id);
  }

  lemma {:induction false} RevokedFamilyEnds(t: Table, family: string, now: int, id: string)
    requires InFamily(t, family, id)
    ensures var u := RevokeFamily(t, family, now); InFamily(u, family, id) && Ended(u, family)
  {
    assert InFamily(RevokeFamily(t, family, now), family, id);
  }

  lemma {:induction false} ReuseEnds(w: World, a: Action, id: string)
    requires Inv(w) && a.Finish? && a.thread in w.flights && w.flights[a.thread].id == id
    requires Decide(w.table, w.flights[a.thread], a.userActive, a.newId, a.newHash) == ReuseDetected
    ensures var u := Step(w, a).table; id in u && Ended(u, u[id].family)
  {
    var f := w.flights[a.thread];
    RevokedFamilyEnds(w.table, f.session.family, f.now, id);
  }

  /** The j-th action completes a refresh that presented the session. */
  ghost predicate Finishes(actions: seq<Action>, j: nat, id: string)
    requires j < |actions|
  {
    actions[j].Finish? && actions[j].thread in Run(actions[..j]).flights &&
      Run(actions[..j]).flights[actions[j].thread].id == id
  }

  /** A session that was ever seen ROTATED or REVOKED is spent: whoever completes a
      refresh with its token from then on, however early the token was read, is
      detected, and its family ends for good. */
  lemma {:induction false} SpentTokenEndsFamily(actions: seq<Action>, i: nat, j: nat, id: string)
    requires i <= j < |actions| && Finishes(actions, j, id)
    requires id in Run(actions[..i]).table && Run(actions[..i]).table[id].status != Active
    ensures Completes(actions, j, id, ReuseDetected)
    ensures id in Run(actions).table && Ended(Run(actions).table, Run(actions).table[id].family)
  {
    assert actions[..j][..i] == actions[..i];
    RunAdvances(actions[..j], i, id);
    ReuseEndsFamily(actions, j, id);
  }

  /** Presenting a token that was already exchanged ends the family for good. */
  lemma {:induction false} ExchangedTokenEndsFamily(actions: seq<Action>, i: nat, j: nat, id: string)
    requires i < j < |actions| && Completes(actions, i, id, Refreshed) && Finishes(actions, j, id)
    ensures Completes(actions, j, id, ReuseDetected)
    ensures id in Run(actions).table && Ended(Run(actions).table, Run(actions).table[id].family)
  {
    assert actions[..i + 1][..i] == actions[..i];
    assert Run(actions[..i + 1]) == Step(Run(actions[..i]), actions[i]);
    SpentTokenEndsFamily(actions, i + 1, j, id);
  }

  predicate LeavesFlight(a: Action, thread: nat) {
    (a.Present? || a.Finish?) ==> a.thread != thread
  }

  ghost predicate Untouched(actions: seq<Action>, k: nat, j: nat, thread: nat)
    requires j <= |actions|
  {
    forall m {:trigger LeavesFlight(actions[m], thread)} :: k < m < j ==> LeavesFlight(actions[m], thread)
  }

  ghost predicate HasFlight(w: World, thread: nat, f: Flight) {
    thread in w.flights && w.flights[thread] == f
  }

  ghost predicate FlightAt(actions: seq<Action>, n: nat, thread: nat, f: Flight) {
    n <= |actions| && HasFlight(Run(actions[..n]), thread, f)
  }

  lemma {:induction false} StepKeepsFlight(w: World, a: Action, thread: nat, f: Flight)
    requires HasFlight(w, thread, f) && LeavesFlight(a, thread)
    ensures HasFlight(Step(w, a), thread, f)
  {}

  lemma {:induction false} LastKeepsFlight(actions: seq<Action>, n: nat, thread: nat, f: Flight)
    requires n < |actions| && FlightAt(actions, n, thread, f) && LeavesFlight(actions[n], thread)
    ensures FlightAt(actions, n + 1, thread, f)
  {
    StepKeepsFlight(Run(actions[..n]), actions[n], thread, f);
    RunLast(actions, n);
  }

  /** A refresh keeps what it read until it completes. */
  lemma {:induction false} FlightKept(actions: seq<Action>, k: nat, j: nat, thread: nat, f: Flight)
    requires k < j <= |actions| && FlightAt(actions, k + 1, thread, f) && Untouched(actions, k, j, thread)
    ensures FlightAt(actions, j, thread, f)
  {
    if k + 1 < j {
      FlightKept(actions, k, j - 1, thread, f);
      assert LeavesFlight(actions[j - 1], thread);
      LastKeepsFlight(actions, j - 1, thread, f);
    }
  }

  /** Presenting an expired token ends the family for good. */
  lemma {:induction false} ExpiredTokenEndsFamily(actions: seq<Action>, k: nat, j: nat, id: string)
    requires k < j < |actions| && actions[k].Present? && actions[k].id == id && id in Run(actions[..k]).table
    requires Run(actions[..k]).table[id].expiresAt <= actions[k].now
    requires actions[j].Finish? && actions[j].thread == actions[k].thread && Untouched(actions, k, j, actions[k].thread)
    ensures Completes(actions, j, id, ReuseDetected)
    ensures id in Run(actions).table && Ended(Run(actions).table, Run(actions).table[id].family)
  {
    RunLast(actions, k);
    FlightKept(actions, k, j, actions[k].thread, Flight(id, Run(actions[..k]).table[id], actions[k].now));
    ReuseEndsFamily(actions, j, id);
  }

  /** Logging out everywhere, disabling an account and resetting its password end
      every family the user had. */
  lemma {:induction false} LogoutAllEndsFamilies(actions: seq<Action>, k: nat, id: string)
    requires k < |actions| && actions[k].LogoutAll?
    requires id in Run(actions[..k]).table && Run(actions[..k]).table[id].user == actions[k].user
    ensures id in Run(actions).table && Ended(Run(actions).table, Run(actions).table[id].family)
  {
    RunKeeps(actions[..k]);
    var t := Run(actions[..k]).table;
    var next := actions[..k + 1];
    assert next[..k] == actions[..k];
    var u := Run(next).table;
    assert u == RevokeUser(t, actions[k].user, actions[k].now);
    var family := t[id].family;
    assert Chained(t, family);
    var c :| IsChain(t, family, c);
    assert InFamily(t, family, id);
    forall x | InFamily(u, family, x) ensures u[x].status != Active {
      assert InFamily(t, family, x);
      var i :| 0 <= i < |c| && c[i] == x;
      var j :| 0 <= j < |c| && c[j] == id;
      assert LinkOk(t, c, i) && LinkOk(t, c, j);
    }
    assert InFamily(u, family, id);
    EndedForGood(actions, k + 1, family);
    RunAdvances(actions, k + 1, id);
  }

  // ------------------------------------------------------------ what is written, exactly

  /** The given sessions, unless revoked before, are REVOKED at the given time. */
  ghost predicate Revokes(t: Table, u: Table, ids: set<string>, now: int) {
    u.Keys == t.Keys &&
    forall id :: id in t ==>
      u[id] == if id in ids && t[id].status != Revoked then t[id].(status := Revoked, revokedAt := Some(now)) else t[id]
  }

  ghost function FamilyIds(t: Table, family: string): set<string> {
    set id | id in t && t[id].family == family
  }

  ghost function UserIds(t: Table, user: string): set<string> {
    set id | id in t && t[id].user == user
  }

  /** The presented session could be exchanged when it was read, and still can. */
  ghost predicate Exchangeable(t: Table, f: Flight, userActive: bool) {
    && f.session.status == Active && f.now < f.session.expiresAt && userActive
    && f.id in t && t[f.id].status == Active
  }

  ghost predicate Unused(t: Table, newId: string, newHash: string) {
    newId !in t && forall id :: id in t ==> t[id].hash != newHash
  }

  /** The old session is ROTATED to the new one, which continues its family for its
      user and expires thirty days after the old one was read. */
  ghost predicate Exchanged(t: Table, u: Table, f: Flight, newId: string, newHash: string)
    requires f.id in t
  {
    && u.Keys == t.Keys + {newId} && (forall id :: id in t && id != f.id ==> u[id] == t[id])
    && f.id in u && u[f.id] == t[f.id].(status := Rotated, replacedBy := Some(newId))
    && newId in u && u[newId].family == f.session.family && u[newId].user == f.session.user
    && u[newId].hash == newHash && u[newId].status == Active && u[newId].expiresAt == f.now + 30 * 24 * 60 * 60
    && u[newId].rotatedFrom == Some(f.id) && u[newId].replacedBy.None? && u[newId].revokedAt.None?
  }

  /** The outcome of a refresh and the table it leaves. */
  ghost predicate RefreshGives(t: Table, f: Flight, userActive: bool, newId: string, newHash: string, o: Outcome,
                               u: Table) {
    if !Exchangeable(t, f, userActive) then
      o == ReuseDetected && Revokes(t, u, FamilyIds(t, f.session.family), f.now)
    else if !Unused(t, newId, newHash) then o == Failed && u == t
    else o == Refreshed && Exchanged(t, u, f, newId, newHash)
  }

  lemma {:induction false} RefreshExact(t: Table, f: Flight, userActive: bool, newId: string, newHash: string)
    ensures RefreshGives(t, f, userActive, newId, newHash, Decide(t, f, userActive, newId, newHash),
                         Commit(t, f, userActive, newId, newHash))
  {}

  /** In every run, a completed refresh is exactly a detected reuse, a collision or an
      exchange, for the family and the user of the session presented. */
  lemma {:induction false} RunRefreshExact(actions: seq<Action>, j: nat, id: string)
    requires j < |actions| && Finishes(actions, j, id)
    ensures var t, u, a := Run(actions[..j]).table, Run(actions[..j + 1]).table, actions[j];
            var f := Run(actions[..j]).flights[a.thread];
            && id in t && f.session.family == t[id].family && f.session.user == t[id].user
            && exists o ::
                 Completes(actions, j, id, o) && RefreshGives(t, f, a.userActive, a.newId, a.newHash, o, u)
  {
    RunKeeps(actions[..j]);
    RunLast(actions, j);
    var w, a := Run(actions[..j]), actions[j];
    var f := w.flights[a.thread];
    RefreshExact(w.table, f, a.userActive, a.newId, a.newHash);
    assert Completes(actions, j, id, Decide(w.table, f, a.userActive, a.newId, a.newHash));
  }

  /** A refresh succeeds if and only if the session was ACTIVE and unexpired when it was
      read, is ACTIVE now, its user is active and the new id and hash are unused. */
  lemma {:induction false} RefreshedIff(actions: seq<Action>, j: nat, id: string)
    requires j < |actions| && Finishes(actions, j, id)
    ensures var t, a := Run(actions[..j]).table, actions[j];
            var f := Run(actions[..j]).flights[a.thread];
            Completes(actions, j, id, Refreshed) <==>
            && f.session.status == Active && f.now < f.session.expiresAt && a.userActive
            && id in t && t[id].status == Active && a.newId !in t && (forall x :: x in t ==> t[x].hash != a.newHash)
  {
    RunRefreshExact(actions, j, id);
  }

  /** Completing a refresh for a user who is not active is a detected reuse, and ends the
      family for good. */
  lemma {:induction false} DisabledUserEndsFamily(actions: seq<Action>, j: nat, id: string)
    requires j < |actions| && Finishes(actions, j, id) && !actions[j].userActive
    ensures Completes(actions, j, id, ReuseDetected)
    ensures id in Run(actions).table && Ended(Run(actions).table, Run(actions).table[id].family)
  {
    RunRefreshExact(actions, j, id);
    ReuseEndsFamily(actions, j, id);
  }

  /** A login adds one ACTIVE session of a new family, unless its id, hash or family is taken. */
  ghost predicate LoginGives(t: Table, a: Action, u: Table)
    requires a.Login?
  {
    if !Unused(t, a.id, a.hash) || FamilyIds(t, a.family) != {} then u == t
    else
      && u.Keys == t.Keys + {a.id} && (forall x :: x in t ==> u[x] == t[x])
      && u[a.id].family == a.family && u[a.id].user == a.user && u[a.id].hash == a.hash && u[a.id].status == Active
      && u[a.id].expiresAt == a.now + 30 * 24 * 60 * 60
      && u[a.id].rotatedFrom.None? && u[a.id].replacedBy.None? && u[a.id].revokedAt.None?
  }

  lemma {:induction false} LoginExact(w: World, a: Action)
    requires a.Login?
    ensures LoginGives(w.table, a, Step(w, a).table)
  {
    if x :| InFamily(w.table, a.family, x) {
      assert x in FamilyIds(w.table, a.family);
    } else if x :| x in FamilyIds(w.table, a.family) {
      assert InFamily(w.table, a.family, x);
    }
  }

  /** A logout revokes the one session named; logging out everywhere all those of the user. */
  lemma {:induction false} LogoutExact(w: World, a: Action)
    requires a.Logout? || a.LogoutAll?
    ensures Revokes(w.table, Step(w, a).table, if a.Logout? then {a.id} else UserIds(w.table, a.user), a.now)
  {}

  // ------------------------------------------------------------------- the service

  class SessionStore {
    var sessions: Table

    method CreateSession(id: string, s: Session) returns (ok: bool)
      modifies this
      ensures ok <==> id !in old(sessions) && !HashTaken(old(sessions), s.hash)
      ensures sessions == if ok then old(sessions)[id := s] else old(sessions)
    {
      ok := id !in sessions && !HashTaken(sessions, s.hash);
      if ok { sessions := sessions[id := s]; }
    }

    method LockActiveSession(id: string) returns (locked: bool)
      ensures locked <==> id in sessions && sessions[id].status == Active
    {
      locked := id in sessions && sessions[id].status == Active;
    }

    method RotateSession(id: string, newId: string) returns (count: nat)
      modifies this
      ensures count == (if id in old(sessions) && old(sessions)[id].status == Active then 1 else 0)
      ensures sessions == if count == 0 then old(sessions)
                          else old(sessions)[id := old(sessions)[id].(status := Rotated, replacedBy := Some(newId))]
    {
      if id in sessions && sessions[id].status == Active {
        sessions := sessions[id := sessions[id].(status := Rotated, replacedBy := Some(newId))];
        count := 1;
      } else {
        count := 0;
      }
    }

    method RevokeSessionFamily(family: string, now: int)
      modifies this
      ensures Revokes(old(sessions), sessions, FamilyIds(old(sessions), family), now)
      ensures sessions == RevokeFamily(old(sessions), family, now)
    {
      var left := sessions.Keys;
      var table := sessions;
      var result := sessions;
      while left != {}
        invariant left <= table.Keys == result.Keys
        invariant forall id :: id in table ==>
          result[id] == (if id !in left && table[id].family == family then RevokedRow(table[id], now) else table[id])
        decreases left
      {
        var id :| id in left;
        if table[id].family == family && table[id].status != Revoked {
          result := result[id := table[id].(status := Revoked, revokedAt := Some(now))];
        }
        left := left - {id};
      }
      sessions := result;
    }

    /** The transaction of a refresh. Its third branch, a rotation that finds the
        locked session gone, cannot be taken: the count is always one. */
    method FinishRefresh(f: Flight, userActive: bool, newId: string, newHash: string) returns (o: Outcome)
      modifies this
      ensures RefreshGives(old(sessions), f, userActive, newId, newHash, o, sessions)
      ensures o == Decide(old(sessions), f, userActive, newId, newHash)
      ensures sessions == Commit(old(sessions), f, userActive, newId, newHash)
    {
      RefreshExact(sessions, f, userActive, newId, newHash);
      if !IsUsable(f.session, f.now) || !userActive {
        RevokeSessionFamily(f.session.family, f.now);
        return ReuseDetected;
      }
      var locked := LockActiveSession(f.id);
      if !locked {
        RevokeSessionFamily(f.session.family, f.now);
        return ReuseDetected;
      }
      var created := CreateSession(newId, NewSession(f.session.family, f.session.user, newHash, f.now, Some(f.id)));
      if !created { return Failed; }
      var rotated := RotateSession(f.id, newId);
      assert rotated == 1;
      o := Refreshed;
    }
  }
}
