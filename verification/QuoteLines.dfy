/** The checks made on the lines of an inventory quote before it is applied to an order. */
module QuoteLines {
  import opened Basics
  import opened OrderAggregate

  datatype QuoteLine = QuoteLine(productId: string, quantity: int32, unitPrice: int64, lineTotal: int64)

  /** A line whose total is the exact product, which fits in 64 bits. */
  predicate LineValid(line: QuoteLine) {
    && ValidProductId(line.productId) && 1 <= line.quantity && 0 <= line.unitPrice && 0 <= line.lineTotal
    && line.unitPrice as int * line.quantity as int <= MAX_INT64 as int
    && line.lineTotal as int == line.unitPrice as int * line.quantity as int
  }

  function LineProducts(lines: seq<QuoteLine>): seq<string> {
    seq(|lines|, i requires 0 <= i < |lines| => lines[i].productId)
  }

  /** The quantity the lines give for a product; an absent product reads as zero. */
  function QuantityIn(lines: seq<QuoteLine>, productId: string): int32 {
    if lines == [] then 0
    else if lines[|lines| - 1].productId == productId then lines[|lines| - 1].quantity
    else QuantityIn(lines[..|lines| - 1], productId)
  }

  function PricesIn(lines: seq<QuoteLine>): map<string, int64> {
    if lines == [] then map[]
    else PricesIn(lines[..|lines| - 1])[lines[|lines| - 1].productId := lines[|lines| - 1].unitPrice]
  }

  ghost predicate LinesSound(lines: seq<QuoteLine>) {
    Distinct(LineProducts(lines)) && forall i :: 0 <= i < |lines| ==> LineValid(lines[i])
  }

  ghost predicate QuantitiesMatch(lines: seq<QuoteLine>, items: seq<Item>) {
    forall i :: 0 <= i < |items| ==> QuantityIn(lines, items[i].productId) == items[i].quantity
  }

  ghost predicate LinesMatch(lines: seq<QuoteLine>, items: seq<Item>) {
    LinesSound(lines) && QuantitiesMatch(lines, items)
  }

  lemma {:induction false} LinesSoundSnoc(lines: seq<QuoteLine>, line: QuoteLine)
    ensures LinesSound(lines + [line]) <==>
            LinesSound(lines) && LineValid(line) && line.productId !in LineProducts(lines)
  {
    var all := lines + [line];
    var n := |lines|;
    assert LineProducts(all) == LineProducts(lines) + [line.productId];
    assert forall i :: 0 <= i < n ==> all[i] == lines[i] && LineProducts(all)[i] == LineProducts(lines)[i];
    assert all[n] == line && LineProducts(all)[n] == line.productId;
  }

  lemma {:induction false} LinesSoundPrefix(lines: seq<QuoteLine>, k: nat)
    requires k <= |lines| && LinesSound(lines)
    ensures LinesSound(lines[..k])
  {
    assert forall i :: 0 <= i < k ==> LineProducts(lines[..k])[i] == LineProducts(lines)[i];
  }

  lemma {:induction false} PricesInKeys(lines: seq<QuoteLine>)
    ensures forall p :: p in PricesIn(lines) <==> p in LineProducts(lines)
  {
    if lines != [] {
      var n := |lines| - 1;
      PricesInKeys(lines[..n]);
      assert LineProducts(lines) == LineProducts(lines[..n]) + [lines[n].productId];
    }
  }

  /** The checks made on one line. The multiplication is proved to stay within int64. */
  method CheckLine(line: QuoteLine) returns (ok: bool)
    ensures ok <==> LineValid(line)
  {
    if !ValidProductId(line.productId) || line.quantity < 1 || line.unitPrice < 0 || line.lineTotal < 0 {
      return false;
    }
    if line.unitPrice != 0 {
      DivisionGuard(line.quantity as int, line.unitPrice as int, MAX_INT64 as int);
      if line.quantity as int64 > MAX_INT64 / line.unitPrice { return false; }
    }
    ProductBounds(line);
    MulCommutes(line.quantity as int, line.unitPrice as int);
    ok := line.lineTotal == line.unitPrice * line.quantity as int64;
  }

  /** The loop over the quote lines, filling the price and quantity maps. */
  method ReadLines(lines: seq<QuoteLine>) returns (ok: bool, prices: map<string, int64>, quantities: map<string, int32>)
    ensures ok <==> LinesSound(lines)
    ensures ok ==> prices == PricesIn(lines)
    ensures ok ==> forall p :: QuantityIn(lines, p) == if p in quantities then quantities[p] else 0
  {
    prices, quantities := map[], map[];
    for index := 0 to |lines|
      invariant LinesSound(lines[..index])
      invariant prices == PricesIn(lines[..index])
      invariant forall p :: QuantityIn(lines[..index], p) == if p in quantities then quantities[p] else 0
    {
      var line := lines[index];
      assert lines[..index + 1] == lines[..index] + [line];
      if LinesSound(lines) { LinesSoundPrefix(lines, index + 1); }
      LinesSoundSnoc(lines[..index], line);
      PricesInKeys(lines[..index]);
      var valid := CheckLine(line);
      if !valid || line.productId in prices { return false, map[], map[]; }
      prices := prices[line.productId := line.unitPrice];
      quantities := quantities[line.productId := line.quantity];
    }
    assert lines[..|lines|] == lines;
    ok := true;
  }

  /** The line checks followed by the loop that compares quantities with the order items. */
  method CheckQuoteLines(lines: seq<QuoteLine>, items: seq<Item>) returns (prices: Option<map<string, int64>>)
    ensures prices.Some? <==> LinesMatch(lines, items)
    ensures prices.Some? ==> prices.value == PricesIn(lines)
  {
    var sound, found, quantities := ReadLines(lines);
    if !sound { return None; }
    for index := 0 to |items|
      invariant forall i :: 0 <= i < index ==> QuantityIn(lines, items[i].productId) == items[i].quantity
    {
      var item := items[index];
      var quoted := if item.productId in quantities then quantities[item.productId] else 0;
      if quoted != item.quantity { return None; }
    }
    prices := Some(found);
  }

  lemma {:induction false} ProductBounds(line: QuoteLine)
    requires 1 <= line.quantity && 0 <= line.unitPrice
    ensures 0 <= line.unitPrice as int * line.quantity as int
    ensures line.unitPrice == 0 ==> line.unitPrice as int * line.quantity as int == 0
  {}

  // ------------------------------------------------ the lines permute the items

  /** What a line and a priced item have in common. */
  datatype Priced = Priced(productId: string, quantity: int, unitPrice: int, lineTotal: int)

  function LineFacts(lines: seq<QuoteLine>): seq<Priced> {
    seq(|lines|, i requires 0 <= i < |lines| =>
      Priced(lines[i].productId, lines[i].quantity as int, lines[i].unitPrice as int, lines[i].lineTotal as int))
  }

  function ItemFacts(items: seq<Item>, prices: map<string, int64>): seq<Priced> {
    seq(|items|, i requires 0 <= i < |items| =>
      Priced(items[i].productId, items[i].quantity as int, PriceOf(prices, items[i].productId),
        LineTotalOf(items[i], prices)))
  }

  lemma {:induction false} LookupLine(lines: seq<QuoteLine>, k: nat)
    requires Distinct(LineProducts(lines)) && k < |lines|
    ensures QuantityIn(lines, lines[k].productId) == lines[k].quantity
    ensures lines[k].productId in PricesIn(lines) && PricesIn(lines)[lines[k].productId] == lines[k].unitPrice
  {
    var n := |lines| - 1;
    if k < n {
      assert LineProducts(lines)[k] != LineProducts(lines)[n];
      assert forall i :: 0 <= i < n ==> LineProducts(lines[..n])[i] == LineProducts(lines)[i];
      LookupLine(lines[..n], k);
      assert lines[..n][k] == lines[k];
    }
  }

  lemma {:induction false} QuantityFindsLine(lines: seq<QuoteLine>, productId: string)
    requires QuantityIn(lines, productId) != 0
    ensures exists k :: 0 <= k < |lines| && lines[k].productId == productId
  {
    var n := |lines| - 1;
    if lines[n].productId != productId {
      QuantityFindsLine(lines[..n], productId);
      var k :| 0 <= k < n && lines[..n][k].productId == productId;
      assert lines[k].productId == productId;
    }
  }

  /** Pigeonhole: as many lines as items, each item found among the lines with
      its quantity, so the priced items are a permutation of the lines. */
  lemma {:induction false} AcceptedLinesPermuteItems(lines: seq<QuoteLine>, items: seq<Item>)
    requires LinesMatch(lines, items) && |lines| == |items|
    requires Distinct(Products(items)) && PositiveQuantities(items)
    ensures multiset(ItemFacts(items, PricesIn(lines))) == multiset(LineFacts(lines))
  {
    var a, b := ItemFacts(items, PricesIn(lines)), LineFacts(lines);
    forall i, j | 0 <= i < j < |a| ensures a[i] != a[j] {
      assert Products(items)[i] != Products(items)[j];
    }
    forall i, j | 0 <= i < j < |b| ensures b[i] != b[j] {
      assert LineProducts(lines)[i] != LineProducts(lines)[j];
    }
    forall x | x in a ensures x in b {
      var i :| 0 <= i < |a| && a[i] == x;
      QuantityFindsLine(lines, items[i].productId);
      var k :| 0 <= k < |lines| && lines[k].productId == items[i].productId;
      LookupLine(lines, k);
      assert LineValid(lines[k]);
      MulCommutes(items[i].quantity as int, lines[k].unitPrice as int);
      assert b[k] == x;
    }
    Pigeonhole(a, b);
  }

  lemma {:induction false} MulCommutes(x: int, y: int)
    ensures x * y == y * x
  {}

  function SumOfTotals(facts: seq<Priced>): int {
    if facts == [] then 0 else SumOfTotals(facts[..|facts| - 1]) + facts[|facts| - 1].lineTotal
  }

  lemma {:induction false} SumAppend(a: seq<Priced>, b: seq<Priced>)
    ensures SumOfTotals(a + b) == SumOfTotals(a) + SumOfTotals(b)
  {
    if b == [] {
      assert a + b == a;
    } else {
      assert (a + b)[..|a + b| - 1] == a + b[..|b| - 1];
      SumAppend(a, b[..|b| - 1]);
    }
  }

  /** A sum does not depend on the order of its terms. */
  lemma {:induction false} SumOfPermutation(a: seq<Priced>, b: seq<Priced>)
    requires multiset(a) == multiset(b)
    ensures SumOfTotals(a) == SumOfTotals(b)
  {
    if a == [] {
      assert |multiset(b)| == 0;
    } else {
      var n := |a| - 1;
      var last := a[n];
      assert a == a[..n] + [last];
      assert last in multiset(b);
      var k :| 0 <= k < |b| && b[k] == last;
      var rest := b[..k] + b[k + 1..];
      assert b == b[..k] + [last] + b[k + 1..];
      assert multiset(rest) == multiset(b) - multiset{last};
      assert multiset(a[..n]) == multiset(a) - multiset{last};
      SumOfPermutation(a[..n], rest);
      SumAppend(b[..k], b[k + 1..]);
      SumAppend(b[..k] + [last], b[k + 1..]);
      SumAppend(b[..k], [last]);
    }
  }

  lemma {:induction false} TotalOfIsSum(items: seq<Item>, prices: map<string, int64>)
    ensures TotalOf(items, prices) == SumOfTotals(ItemFacts(items, prices))
  {
    if items != [] {
      var n := |items| - 1;
      TotalOfIsSum(items[..n], prices);
      assert ItemFacts(items, prices)[..n] == ItemFacts(items[..n], prices);
    }
  }

  /** The total computed from the order items is the sum of the quoted line totals. */
  lemma {:induction false} AcceptedTotalIsQuotedSum(lines: seq<QuoteLine>, items: seq<Item>)
    requires LinesMatch(lines, items) && |lines| == |items|
    requires Distinct(Products(items)) && PositiveQuantities(items)
    ensures TotalOf(items, PricesIn(lines)) == SumOfTotals(LineFacts(lines))
  {
    AcceptedLinesPermuteItems(lines, items);
    SumOfPermutation(ItemFacts(items, PricesIn(lines)), LineFacts(lines));
    TotalOfIsSum(items, PricesIn(lines));
  }
}
