/** Listing the orders of a running store, page by page. */
module OrderListing {
  import opened OrderAggregate
  import opened StoreModel
  import opened StoreTheorems
  import Pages = Pagination

  function StatusText(s: Status): string {
    match s
    case Pending => "PENDING"
    case Confirmed => "CONFIRMED"
    case CancelRequested => "CANCEL_REQUESTED"
    case Cancelled => "CANCELLED"
    case Completed => "COMPLETED"
    case Failed => "FAILED"
  }

  /** The columns of the orders table that the listing query reads. */
  function Listed(db: Db): Pages.Table {
    map id | id in db.orders ::
      Pages.Row(db.orders[id].createdAt, db.orders[id].customerId, StatusText(db.orders[id].status))
  }

  /** The status a query text asks for; an empty text asks for any. */
  predicate InStatus(text: string, s: Status) {
    || text == ""
    || (text == "PENDING" && s == Pending) || (text == "CONFIRMED" && s == Confirmed)
    || (text == "CANCEL_REQUESTED" && s == CancelRequested) || (text == "CANCELLED" && s == Cancelled)
    || (text == "COMPLETED" && s == Completed) || (text == "FAILED" && s == Failed)
  }

  /** An order of the customer, created at the time of the key, in the status asked for. */
  predicate Wanted(db: Db, q: Pages.Query, k: Pages.Key) {
    && k.id in db.orders && db.orders[k.id].createdAt == k.createdAt && db.orders[k.id].customerId == q.customer
    && InStatus(q.status, db.orders[k.id].status)
  }

  lemma {:induction false} WantedIff(db: Db, q: Pages.Query, k: Pages.Key)
    ensures Pages.Matches(Listed(db), q, k) <==> Wanted(db, q, k)
  {}

  /** The tables a client meets when it reads pages at the given moments of a run. */
  ghost function TablesAt(actions: seq<Action>, moments: seq<nat>): seq<Pages.Table>
    requires forall i :: 0 <= i < |moments| ==> moments[i] <= |actions|
  {
    seq(|moments|, i requires 0 <= i < |moments| => Listed(Run(actions[..moments[i]]).db))
  }

  /** An order has one creation time and one customer at all moments of a run. */
  lemma {:induction false} KeyFixed(actions: seq<Action>, m: nat, n: nat, id: string)
    requires m <= n <= |actions| && id in Run(actions[..m]).db.orders
    ensures id in Run(actions[..n]).db.orders
    ensures Run(actions[..n]).db.orders[id].createdAt == Run(actions[..m]).db.orders[id].createdAt
    ensures Run(actions[..n]).db.orders[id].customerId == Run(actions[..m]).db.orders[id].customerId
  {
    assert actions[..n][..m] == actions[..m];
    RunHistory(actions[..n], m, id);
  }

  lemma {:induction false} RunKeysFixed(actions: seq<Action>, moments: seq<nat>)
    requires forall i :: 0 <= i < |moments| ==> moments[i] <= |actions|
    ensures Pages.KeysFixed(TablesAt(actions, moments))
  {
    var tables: seq<Pages.Table> := TablesAt(actions, moments);
    forall i, j, id | 0 <= i < |tables| && 0 <= j < |tables| && id in tables[i] && id in tables[j]
      ensures tables[i][id].createdAt == tables[j][id].createdAt
    {
      if moments[i] <= moments[j] {
        KeyFixed(actions, moments[i], moments[j], id);
      } else {
        KeyFixed(actions, moments[j], moments[i], id);
      }
    }
  }

  ghost predicate WantedThroughout(actions: seq<Action>, moments: seq<nat>, q: Pages.Query, k: Pages.Key)
    requires forall i :: 0 <= i < |moments| ==> moments[i] <= |actions|
  {
    forall i :: 0 <= i < |moments| ==> Wanted(Run(actions[..moments[i]]).db, q, k)
  }

  ghost predicate WantedOnce(actions: seq<Action>, moments: seq<nat>, q: Pages.Query, k: Pages.Key)
    requires forall i :: 0 <= i < |moments| ==> moments[i] <= |actions|
  {
    exists i :: 0 <= i < |moments| && Wanted(Run(actions[..moments[i]]).db, q, k)
  }

  lemma {:induction false} WantedMatches(actions: seq<Action>, moments: seq<nat>, q: Pages.Query, k: Pages.Key)
    requires forall i :: 0 <= i < |moments| ==> moments[i] <= |actions|
    requires WantedThroughout(actions, moments, q, k)
    ensures Pages.AlwaysMatches(q, TablesAt(actions, moments), k)
  {
    forall i | 0 <= i < |moments| ensures Pages.Matches(TablesAt(actions, moments)[i], q, k) {
      WantedIff(Run(actions[..moments[i]]).db, q, k);
    }
  }

  lemma {:induction false} ShownWasWanted(actions: seq<Action>, moments: seq<nat>, q: Pages.Query, limit: nat,
                                          pages: seq<Pages.Page>, k: Pages.Key)
    requires forall i :: 0 <= i < |moments| ==> moments[i] <= |actions|
    requires Pages.Walk(q, limit, TablesAt(actions, moments), pages) && k in Pages.Concat(pages)
    ensures WantedOnce(actions, moments, q, k)
  {
    var tables := TablesAt(actions, moments);
    Pages.WalkMatches(q, limit, tables, pages, k);
    var i :| 0 <= i < |tables| && Pages.Matches(tables[i], q, k);
    WantedIff(Run(actions[..moments[i]]).db, q, k);
  }

  /** A client that follows cursors while orders are created, confirmed, cancelled and
      completed is never shown an order twice, is shown only orders of the customer that
      were in the status asked for at one of its reads, and is shown every order that was
      so at each of them. */
  lemma {:induction false} RunListing(actions: seq<Action>, moments: seq<nat>, q: Pages.Query, limit: nat,
                                      pages: seq<Pages.Page>)
    requires forall i :: 0 <= i < |moments| ==> moments[i] <= |actions|
    requires Pages.Walk(q, limit, TablesAt(actions, moments), pages)
    ensures forall a, b :: 0 <= a < b < |Pages.Concat(pages)| ==> Pages.Concat(pages)[a].id != Pages.Concat(pages)[b].id
    ensures forall k :: k in Pages.Concat(pages) ==> WantedOnce(actions, moments, q, k)
    ensures pages != [] && pages[|pages| - 1].next.None? ==>
      forall k :: WantedThroughout(actions, moments, q, k) ==> k in Pages.Concat(pages)
  {
    var tables := TablesAt(actions, moments);
    RunKeysFixed(actions, moments);
    forall a, b | 0 <= a < b < |Pages.Concat(pages)| ensures Pages.Concat(pages)[a].id != Pages.Concat(pages)[b].id {
      Pages.NoOrderTwice(q, limit, tables, pages, a, b);
    }
    if pages != [] && pages[|pages| - 1].next.None? {
      forall k | WantedThroughout(actions, moments, q, k) ensures k in Pages.Concat(pages) {
        WantedMatches(actions, moments, q, k);
        Pages.NothingMissed(q, limit, tables, pages, k);
      }
    }
    forall k | k in Pages.Concat(pages) ensures WantedOnce(actions, moments, q, k) {
      ShownWasWanted(actions, moments, q, limit, pages, k);
    }
  }
}
