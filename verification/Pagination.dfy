/** Listing orders page by page, following signed cursors. */
module Pagination {
  import opened Basics

  // --------------------------------------------------------------------- key order

  datatype Key = Key(createdAt: int, id: string)

  predicate TextBefore(a: string, b: string) {
    if a == [] || b == [] then a == [] && b != []
    else a[0] < b[0] || (a[0] == b[0] && TextBefore(a[1..], b[1..]))
  }

  /** The row comparison of the query: creation time first, then identifier. */
  predicate Before(a: Key, b: Key) {
    a.createdAt < b.createdAt || (a.createdAt == b.createdAt && TextBefore(a.id, b.id))
  }

  lemma {:induction false} TextIrreflexive(a: string)
    ensures !TextBefore(a, a)
  {
    if a != [] { TextIrreflexive(a[1..]); }
  }

  lemma {:induction false} TextTransitive(a: string, b: string, c: string)
    requires TextBefore(a, b) && TextBefore(b, c)
    ensures TextBefore(a, c)
  {
    if a != [] && a[0] == b[0] == c[0] { TextTransitive(a[1..], b[1..], c[1..]); }
  }

  lemma {:induction false} TextTotal(a: string, b: string)
    ensures TextBefore(a, b) || TextBefore(b, a) || a == b
  {
    if a != [] && b != [] && a[0] == b[0] {
      TextTotal(a[1..], b[1..]);
      assert a == [a[0]] + a[1..] && b == [b[0]] + b[1..];
    }
  }

  lemma {:induction false} BeforeIrreflexive(a: Key)
    ensures !Before(a, a)
  {
    TextIrreflexive(a.id);
  }

  lemma {:induction false} BeforeTransitive(a: Key, b: Key, c: Key)
    requires Before(a, b) && Before(b, c)
    ensures Before(a, c)
  {
    if TextBefore(a.id, b.id) && TextBefore(b.id, c.id) { TextTransitive(a.id, b.id, c.id); }
  }

  lemma {:induction false} BeforeTotal(a: Key, b: Key)
    ensures Before(a, b) || Before(b, a) || a == b
  {
    TextTotal(a.id, b.id);
  }

  /** The texts agree up to n, where a ends or has the smaller character. */
  predicate FirstDifference(a: string, b: string, n: nat) {
    n <= |a| && n < |b| && a[..n] == b[..n] && (n == |a| || a[n] < b[n])
  }

  lemma {:induction false} SameStart(a: string, b: string, n: nat)
    requires FirstDifference(a, b, n)
    ensures n > 0 ==> a[0] == b[0]
  {
    if n > 0 { assert a[..n][0] == b[..n][0]; }
  }

  lemma {:induction false} TextBeforeIff(a: string, b: string)
    ensures TextBefore(a, b) <==> exists n: nat :: FirstDifference(a, b, n)
  {
    if a != [] && b != [] && a[0] == b[0] {
      TextBeforeIff(a[1..], b[1..]);
      assert a == [a[0]] + a[1..] && b == [b[0]] + b[1..];
      if n: nat :| FirstDifference(a[1..], b[1..], n) {
        assert a[..n + 1] == [a[0]] + a[1..][..n] && b[..n + 1] == [b[0]] + b[1..][..n];
        assert FirstDifference(a, b, n + 1);
      }
      if n: nat :| FirstDifference(a, b, n) {
        assert n > 0;
        assert a[1..][..n - 1] == a[..n][1..] && b[1..][..n - 1] == b[..n][1..];
        assert FirstDifference(a[1..], b[1..], n - 1);
      }
    } else {
      if TextBefore(a, b) { assert FirstDifference(a, b, 0); }
      if n: nat :| FirstDifference(a, b, n) { SameStart(a, b, n); }
    }
  }

  /** Created later, or at the same time with the later identifier. */
  ghost predicate Newer(a: Key, b: Key) {
    a.createdAt > b.createdAt ||
    (a.createdAt == b.createdAt && exists n: nat :: FirstDifference(b.id, a.id, n))
  }

  lemma {:induction false} NewerIff(a: Key, b: Key)
    ensures Newer(a, b) <==> Before(b, a)
  {
    TextBeforeIff(b.id, a.id);
  }

  // ------------------------------------------------------------------------ queries

  datatype Row = Row(createdAt: int, customer: string, status: string)

  type Table = map<string, Row>

  datatype Query = Query(customer: string, status: string)

  predicate Matches(t: Table, q: Query, k: Key) {
    k.id in t && t[k.id].createdAt == k.createdAt && t[k.id].customer == q.customer &&
      (q.status == "" || t[k.id].status == q.status)
  }

  /** The customer's order with that key, in the status asked for, if one is. */
  ghost predicate Asked(t: Table, q: Query, k: Key) {
    exists id :: id in t && t[id].customer == q.customer && k == Key(t[id].createdAt, id) &&
      (q.status != "" ==> t[id].status == q.status)
  }

  lemma {:induction false} AskedIff(t: Table, q: Query, k: Key)
    ensures Asked(t, q, k) <==> Matches(t, q, k)
  {}

  /** The WHERE clause of the query. */
  predicate Eligible(t: Table, q: Query, after: Option<Key>, k: Key) {
    Matches(t, q, k) && (after.None? || Before(k, after.value))
  }

  predicate Descending(s: seq<Key>) {
    forall i, j :: 0 <= i < j < |s| ==> Before(s[j], s[i])
  }

  datatype CursorValue = CursorValue(customer: string, status: string, key: Key)

  /** A cursor as the client sends it: absent, not decodable, or issued by the store. */
  datatype Cursor = NoCursor | Malformed | Issued(value: CursorValue)

  datatype Page = Page(keys: seq<Key>, next: Option<Key>)

  /** The first `limit` eligible orders, newest first; a next key exactly when some are left. */
  ghost predicate IsPage(t: Table, q: Query, after: Option<Key>, limit: nat, p: Page) {
    && |p.keys| <= limit && Descending(p.keys)
    && (forall k :: k in p.keys ==> Eligible(t, q, after, k))
    && (p.next.Some? ==> |p.keys| == limit && limit > 0 && p.next.value == p.keys[limit - 1])
    && (forall k :: Eligible(t, q, after, k) && k !in p.keys ==> p.next.Some? && Before(k, p.next.value))
    && (p.next.Some? ==> exists k :: Eligible(t, q, after, k) && k !in p.keys)
  }

  predicate Newest(s: set<Key>, m: Key) {
    forall k :: k in s && k != m ==> Before(k, m)
  }

  lemma {:induction false} NewestExists(s: set<Key>)
    requires s != {}
    ensures exists m :: m in s && Newest(s, m)
  {
    var x :| x in s;
    if s == {x} {
      assert Newest(s, x);
    } else {
      NewestExists(s - {x});
      var m :| m in s - {x} && Newest(s - {x}, m);
      BeforeTotal(x, m);
      var best := if Before(x, m) then m else x;
      forall k | k in s && k != best ensures Before(k, best) {
        if best == x && k != m { BeforeTransitive(k, m, x); }
      }
      assert Newest(s, best);
    }
  }

  /** The query: eligible rows in descending order of key, at most `size` of them. */
  method ListOrders(t: Table, q: Query, after: Option<Key>, size: nat) returns (rows: seq<Key>)
    ensures |rows| <= size && Descending(rows)
    ensures forall k :: k in rows ==> Eligible(t, q, after, k)
    ensures forall k :: Eligible(t, q, after, k) && k !in rows ==>
      |rows| == size && forall i :: 0 <= i < |rows| ==> Before(k, rows[i])
  {
    rows := [];
    var left := set id | id in t && Eligible(t, q, after, Key(t[id].createdAt, id)) :: Key(t[id].createdAt, id);
    assert forall k :: Eligible(t, q, after, k) <==> k in left;
    while |rows| < size && left != {}
      invariant |rows| <= size && Descending(rows)
      invariant forall k :: k in left <==> Eligible(t, q, after, k) && k !in rows
      invariant forall k :: k in rows ==> Eligible(t, q, after, k)
      invariant forall k, i :: k in left && 0 <= i < |rows| ==> Before(k, rows[i])
      decreases left
    {
      NewestExists(left);
      var next :| next in left && Newest(left, next);
      rows := rows + [next];
      left := left - {next};
    }
  }

  /** The page as the client sees it: the newest orders asked for that are older than the
      cursor, and a next key exactly when there are more. */
  ghost predicate ShowsPage(t: Table, q: Query, after: Option<Key>, limit: nat, p: Page) {
    && |p.keys| <= limit && (forall i, j :: 0 <= i < j < |p.keys| ==> Newer(p.keys[i], p.keys[j]))
    && (forall k :: k in p.keys ==> Asked(t, q, k) && (after.Some? ==> Newer(after.value, k)))
    && (p.next.Some? <==> exists k :: k !in p.keys && Asked(t, q, k) && (after.Some? ==> Newer(after.value, k)))
    && (p.next.Some? ==> |p.keys| == limit > 0 && p.next.value == p.keys[limit - 1])
    && (forall k :: k !in p.keys && Asked(t, q, k) && (after.Some? ==> Newer(after.value, k)) ==>
          forall i :: 0 <= i < |p.keys| ==> Newer(p.keys[i], k))
  }

  lemma {:induction false} EligibleIff(t: Table, q: Query, after: Option<Key>, k: Key)
    ensures Eligible(t, q, after, k) <==> Asked(t, q, k) && (after.Some? ==> Newer(after.value, k))
  {
    AskedIff(t, q, k);
    if after.Some? { NewerIff(after.value, k); }
  }

  lemma {:induction false} PageShown(t: Table, q: Query, after: Option<Key>, limit: nat, p: Page)
    requires IsPage(t, q, after, limit, p)
    ensures ShowsPage(t, q, after, limit, p)
  {
    forall k { EligibleIff(t, q, after, k); }
    forall i, j | 0 <= i < j < |p.keys| ensures Newer(p.keys[i], p.keys[j]) { NewerIff(p.keys[i], p.keys[j]); }
    forall k, i | Eligible(t, q, after, k) && k !in p.keys && 0 <= i < |p.keys| ensures Newer(p.keys[i], k) {
      if i < limit - 1 { BeforeTransitive(k, p.keys[limit - 1], p.keys[i]); }
      NewerIff(p.keys[i], k);
    }
  }

  /** One page. A cursor of another customer or another filter is refused. */
  method List(t: Table, q: Query, cursor: Cursor, limit: nat) returns (r: Result<Page, ()>)
    ensures r.Ok? <==>
            !cursor.Malformed? &&
            (cursor.Issued? ==> cursor.value.customer == q.customer && cursor.value.status == q.status)
    ensures r.Ok? && limit == 0 ==> r.value == Page([], None)
    ensures r.Ok? && limit > 0 ==>
      var after := if cursor.Issued? then Some(cursor.value.key) else None;
      IsPage(t, q, after, limit, r.value) && ShowsPage(t, q, after, limit, r.value)
  {
    if cursor.Malformed? { return Err(()); }
    if cursor.Issued? && (cursor.value.customer != q.customer || cursor.value.status != q.status) { return Err(()); }
    var after := if cursor.Issued? then Some(cursor.value.key) else None;
    var rows := ListOrders(t, q, after, limit + 1);
    var keys := if |rows| > limit then rows[..limit] else rows;
    if |rows| <= limit || keys == [] {
      if limit > 0 { PageShown(t, q, after, limit, Page(keys, None)); }
      return Ok(Page(keys, None));
    }
    var last := keys[|keys| - 1];
    CutAtLimit(t, q, after, limit, rows);
    PageShown(t, q, after, limit, Page(keys, Some(last)));
    r := Ok(Page(keys, Some(last)));
  }

  /** The row beyond the limit shows that there is more, and is not lost. */
  lemma {:induction false} CutAtLimit(t: Table, q: Query, after: Option<Key>, limit: nat, rows: seq<Key>)
    requires 0 < limit && |rows| == limit + 1 && Descending(rows)
    requires forall k :: k in rows ==> Eligible(t, q, after, k)
    requires forall k :: Eligible(t, q, after, k) && k !in rows ==> forall i :: 0 <= i < |rows| ==> Before(k, rows[i])
    ensures IsPage(t, q, after, limit, Page(rows[..limit], Some(rows[limit - 1])))
  {
    var keys := rows[..limit];
    assert rows[limit] in rows;
    assert rows[limit] !in keys by {
      BeforeIrreflexive(rows[limit]);
    }
    forall k | Eligible(t, q, after, k) && k !in keys ensures Before(k, rows[limit - 1]) {
      if k in rows {
        var i :| 0 <= i < |rows| && rows[i] == k;
        assert forall j :: 0 <= j < limit ==> keys[j] == rows[j] && rows[j] in keys;
      }
    }
  }

  // -------------------------------------------------------------------------- walks

  function Concat(pages: seq<Page>): seq<Key> {
    if pages == [] then [] else Concat(pages[..|pages| - 1]) + pages[|pages| - 1].keys
  }

  function CursorAfter(pages: seq<Page>): Option<Key> {
    if pages == [] then None else pages[|pages| - 1].next
  }

  /** A client follows cursors; the i-th page is read from the i-th table. */
  ghost predicate Walk(q: Query, limit: nat, tables: seq<Table>, pages: seq<Page>) {
    |tables| == |pages| &&
    (pages != [] ==>
      var n := |pages| - 1;
      && Walk(q, limit, tables[..n], pages[..n])
      && (n > 0 ==> pages[n - 1].next.Some?)
      && IsPage(tables[n], q, CursorAfter(pages[..n]), limit, pages[n]))
  }

  /** Creation times do not change: an order has one key in all the tables. */
  ghost predicate KeysFixed(tables: seq<Table>) {
    forall i, j, id :: 0 <= i < |tables| && 0 <= j < |tables| && id in tables[i] && id in tables[j] ==>
      tables[i][id].createdAt == tables[j][id].createdAt
  }

  ghost predicate AlwaysMatches(q: Query, tables: seq<Table>, k: Key) {
    forall i :: 0 <= i < |tables| ==> Matches(tables[i], q, k)
  }

  lemma {:induction false} DescendingAppend(a: seq<Key>, b: seq<Key>)
    requires Descending(a) && Descending(b)
    requires a != [] ==> forall k :: k in b ==> Before(k, a[|a| - 1])
    ensures Descending(a + b)
  {
    forall i, j | 0 <= i < |a| && 0 <= j < |b| ensures Before(b[j], a[i]) {
      assert b[j] in b;
      if i < |a| - 1 { BeforeTransitive(b[j], a[|a| - 1], a[i]); }
    }
  }

  /** Whatever happens to the tables between pages, the keys of the walk descend strictly. */
  lemma {:induction false} WalkDescends(q: Query, limit: nat, tables: seq<Table>, pages: seq<Page>)
    requires Walk(q, limit, tables, pages)
    ensures Descending(Concat(pages))
    ensures CursorAfter(pages).Some? ==>
      Concat(pages) != [] && Concat(pages)[|Concat(pages)| - 1] == CursorAfter(pages).value
  {
    if pages != [] {
      var n := |pages| - 1;
      WalkDescends(q, limit, tables[..n], pages[..n]);
      DescendingAppend(Concat(pages[..n]), pages[n].keys);
    }
  }

  /** Every key of a walk was a matching order of some table. */
  lemma {:induction false} WalkMatches(q: Query, limit: nat, tables: seq<Table>, pages: seq<Page>, k: Key)
    requires Walk(q, limit, tables, pages) && k in Concat(pages)
    ensures exists i :: 0 <= i < |tables| && Matches(tables[i], q, k)
  {
    var n := |pages| - 1;
    if k in pages[n].keys {
      assert Matches(tables[n], q, k);
    } else {
      WalkMatches(q, limit, tables[..n], pages[..n], k);
      var i :| 0 <= i < n && Matches(tables[..n][i], q, k);
      assert Matches(tables[i], q, k);
    }
  }

  /** With orders created and changed between pages, no order is returned twice. */
  lemma {:induction false} NoOrderTwice(q: Query, limit: nat, tables: seq<Table>, pages: seq<Page>, a: nat, b: nat)
    requires Walk(q, limit, tables, pages) && KeysFixed(tables) && a < b < |Concat(pages)|
    ensures Concat(pages)[a].id != Concat(pages)[b].id
  {
    WalkDescends(q, limit, tables, pages);
    var s := Concat(pages);
    WalkMatches(q, limit, tables, pages, s[a]);
    WalkMatches(q, limit, tables, pages, s[b]);
    var i :| 0 <= i < |tables| && Matches(tables[i], q, s[a]);
    var j :| 0 <= j < |tables| && Matches(tables[j], q, s[b]);
    BeforeIrreflexive(s[a]);
  }

  lemma {:induction false} NotYetPassed(q: Query, limit: nat, tables: seq<Table>, pages: seq<Page>, k: Key)
    requires Walk(q, limit, tables, pages) && AlwaysMatches(q, tables, k)
    ensures pages == [] || k in Concat(pages) || (CursorAfter(pages).Some? && Before(k, CursorAfter(pages).value))
  {
    if pages != [] {
      var n := |pages| - 1;
      assert forall i :: 0 <= i < n ==> tables[..n][i] == tables[i];
      NotYetPassed(q, limit, tables[..n], pages[..n], k);
      assert k !in Concat(pages[..n]) ==> Eligible(tables[n], q, CursorAfter(pages[..n]), k);
    }
  }

  /** An order that matches throughout a completed walk is returned. */
  lemma {:induction false} NothingMissed(q: Query, limit: nat, tables: seq<Table>, pages: seq<Page>, k: Key)
    requires Walk(q, limit, tables, pages) && pages != [] && pages[|pages| - 1].next.None?
    requires AlwaysMatches(q, tables, k)
    ensures k in Concat(pages)
  {
    NotYetPassed(q, limit, tables, pages, k);
  }

  // -------------------------------------------------------------------- fixed table

  ghost predicate AllEqual(tables: seq<Table>, t: Table) {
    forall i :: 0 <= i < |tables| ==> tables[i] == t
  }

  /** On a table that does not change, a completed walk is the descending list of
      exactly the matching orders. */
  lemma {:induction false} WalkIsSortedListing(q: Query, limit: nat, tables: seq<Table>, pages: seq<Page>, t: Table)
    requires Walk(q, limit, tables, pages) && pages != [] && pages[|pages| - 1].next.None? && AllEqual(tables, t)
    ensures forall i, j :: 0 <= i < j < |Concat(pages)| ==> Newer(Concat(pages)[i], Concat(pages)[j])
    ensures forall k :: k in Concat(pages) <==> Asked(t, q, k)
  {
    WalkDescends(q, limit, tables, pages);
    forall i, j | 0 <= i < j < |Concat(pages)| ensures Newer(Concat(pages)[i], Concat(pages)[j]) {
      NewerIff(Concat(pages)[i], Concat(pages)[j]);
    }
    forall k { AskedIff(t, q, k); }
    forall k ensures k in Concat(pages) <==> Matches(t, q, k) {
      if Matches(t, q, k) { NothingMissed(q, limit, tables, pages, k); }
      if k in Concat(pages) { WalkMatches(q, limit, tables, pages, k); }
    }
  }

  function MatchingKeys(t: Table, q: Query): set<Key> {
    set id | id in t && Matches(t, q, Key(t[id].createdAt, id)) :: Key(t[id].createdAt, id)
  }

  lemma {:induction false} WalkLength(q: Query, limit: nat, tables: seq<Table>, pages: seq<Page>)
    requires Walk(q, limit, tables, pages) && limit > 0
    ensures |Concat(pages)| >= (if CursorAfter(pages).Some? then |pages| else |pages| - 1)
  {
    if pages != [] {
      WalkLength(q, limit, tables[..|pages| - 1], pages[..|pages| - 1]);
    }
  }

  /** Following cursors over an unchanging table ends: a walk has at most one page
      more than there are matching orders. */
  lemma {:induction false} WalkEnds(q: Query, limit: nat, tables: seq<Table>, pages: seq<Page>, t: Table)
    requires Walk(q, limit, tables, pages) && limit > 0 && AllEqual(tables, t)
    ensures |pages| <= |MatchingKeys(t, q)| + 1
  {
    WalkLength(q, limit, tables, pages);
    WalkDescends(q, limit, tables, pages);
    var s := Concat(pages);
    forall i, j | 0 <= i < j < |s| ensures s[i] != s[j] {
      BeforeIrreflexive(s[i]);
    }
    forall k | k in s ensures k in MatchingKeys(t, q) {
      WalkMatches(q, limit, tables, pages, k);
      assert k == Key(t[k.id].createdAt, k.id);
    }
    DistinctCardinality(s);
    SubsetBound(Elements(s), MatchingKeys(t, q));
  }

  lemma {:induction false} SubsetBound(a: set<Key>, b: set<Key>)
    requires a <= b
    ensures |a| <= |b|
  {
    assert b == a + (b - a) && |b| == |a| + |b - a|;
  }
}
