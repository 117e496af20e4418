/** The order aggregate: construction, the checked money arithmetic of a quote,
    and the transition table the aggregate declares. */
module OrderAggregate {
  import opened Basics

  const MAX_ITEMS: nat := 100
  const MAX_QUANTITY: int32 := 1000
  const MAX_TOTAL_MINOR: int64 := 1_000_000_000
  const INITIAL_VERSION: nat := 1

  datatype Status = Pending | Confirmed | CancelRequested | Cancelled | Completed | Failed

  predicate IsTerminal(s: Status) {
    s == Cancelled || s == Completed || s == Failed
  }

  predicate AllowedTransition(from: Status, to: Status) {
    match from
    case Pending => to == Confirmed || to == CancelRequested || to == Failed
    case Confirmed => to == CancelRequested || to == Completed || to == Failed
    case CancelRequested => to == Cancelled || to == Failed
    case _ => false
  }

  datatype Item = Item(
    productId: string,
    quantity: int32,
    unitPrice: Option<int64>,
    lineTotal: Option<int64>,
    quoteId: Option<string>,
    quoteVersion: Option<int64>)

  /** One row of the orders table. */
  datatype OrderRow = OrderRow(
    id: string,
    customerId: string,
    currency: string,
    total: Option<int64>,
    reservationId: Option<string>,
    paymentId: Option<string>,
    shipmentId: Option<string>,
    failureCode: Option<string>,
    inventoryReleased: bool,
    paymentRefunded: bool,
    status: Status,
    version: nat,
    createdAt: int,
    updatedAt: int)

  datatype OrderValue = OrderValue(row: OrderRow, items: seq<Item>)

  /** A time the aggregate may be given: only a non-zero UTC time is accepted. */
  datatype Timestamp = Utc(nanos: int) | ZeroTime | Local(nanos: int)

  datatype OrderError =
    | InvalidOrderId | InvalidCustomerId | InvalidCurrency | EmptyOrder | TooManyItems
    | InvalidProductId | InvalidQuantity | DuplicateProduct | InvalidTimestamp
    | PricesAlreadySet | InvalidMoney | MoneyOverflow

  predicate ValidOrderId(s: string) { MatchesId("ord_", s) }
  predicate ValidCustomerId(s: string) { MatchesId("usr_", s) }
  predicate ValidProductId(s: string) { MatchesId("prd_", s) }
  predicate ValidQuoteId(s: string) { MatchesId("qte_", s) }
  predicate ValidReservationId(s: string) { MatchesId("res_", s) }
  predicate ValidPaymentId(s: string) { MatchesId("pay_", s) }
  predicate ValidShipmentId(s: string) { MatchesId("shp_", s) }

  predicate ValidCurrency(s: string) {
    |s| == 3 && forall i :: 0 <= i < 3 ==> 'A' <= s[i] <= 'Z'
  }

  /** The identifiers of the platform, each by its prefix, and the currency codes. */
  lemma {:induction false} IdentifiersExact(s: string)
    ensures ValidOrderId(s) <==> IsId("ord_", s)
    ensures ValidCustomerId(s) <==> IsId("usr_", s)
    ensures ValidProductId(s) <==> IsId("prd_", s)
    ensures ValidQuoteId(s) <==> IsId("qte_", s)
    ensures ValidReservationId(s) <==> IsId("res_", s)
    ensures ValidPaymentId(s) <==> IsId("pay_", s)
    ensures ValidShipmentId(s) <==> IsId("shp_", s)
    ensures ValidCurrency(s) <==> |s| == 3 && forall c :: c in s ==> 'A' <= c <= 'Z'
  {
    IdExact("ord_", s);
    IdExact("usr_", s);
    IdExact("prd_", s);
    IdExact("qte_", s);
    IdExact("res_", s);
    IdExact("pay_", s);
    IdExact("shp_", s);
    assert forall i :: 0 <= i < |s| ==> s[i] in s;
  }

  // ---------------------------------------------------------------- NewOrder

  function Products(items: seq<Item>): seq<string> {
    seq(|items|, i requires 0 <= i < |items| => items[i].productId)
  }

  ghost predicate SoundItems(items: seq<Item>) {
    && Distinct(Products(items))
    && forall i :: 0 <= i < |items| ==>
         ValidProductId(items[i].productId) && 1 <= items[i].quantity <= MAX_QUANTITY
  }

  ghost predicate WellFormedItems(items: seq<Item>) {
    1 <= |items| <= MAX_ITEMS && SoundItems(items)
  }

  function Unpriced(item: Item): Item {
    Item(item.productId, item.quantity, None, None, None, None)
  }

  predicate IsUnpriced(item: Item) {
    item == Unpriced(item)
  }

  /** A new order: unpriced items, first version, nothing reserved or paid. */
  function FreshOrder(id: string, customerId: string, currency: string, items: seq<Item>, nanos: int): OrderValue {
    OrderValue(
      OrderRow(id, customerId, currency, None, None, None, None, None, false, false,
               Pending, INITIAL_VERSION, nanos, nanos),
      seq(|items|, i requires 0 <= i < |items| => Unpriced(items[i])))
  }

  /** The order a valid draft becomes, field by field. */
  ghost predicate IsNewOrder(order: OrderValue, id: string, customerId: string, currency: string, items: seq<Item>,
                             nanos: int) {
    && order.row.id == id && order.row.customerId == customerId && order.row.currency == currency
    && order.row.status == Pending && order.row.version == 1
    && order.row.createdAt == nanos && order.row.updatedAt == nanos
    && order.row.total.None? && order.row.reservationId.None? && order.row.paymentId.None?
    && order.row.shipmentId.None? && order.row.failureCode.None?
    && !order.row.inventoryReleased && !order.row.paymentRefunded
    && |order.items| == |items|
    && (forall i :: 0 <= i < |items| ==>
          && order.items[i].productId == items[i].productId && order.items[i].quantity == items[i].quantity
          && order.items[i].unitPrice.None? && order.items[i].lineTotal.None?
          && order.items[i].quoteId.None? && order.items[i].quoteVersion.None?)
  }

  lemma {:induction false} FreshOrderIsNew(id: string, customerId: string, currency: string, items: seq<Item>,
                                           nanos: int)
    ensures IsNewOrder(FreshOrder(id, customerId, currency, items, nanos), id, customerId, currency, items, nanos)
  {}

  /** The first item that is not sound, and what is wrong with it. */
  ghost predicate DefectiveItem(items: seq<Item>, i: nat, error: OrderError) {
    i < |items| && SoundItems(items[..i]) &&
    var item := items[i];
    match error
    case InvalidProductId => !ValidProductId(item.productId)
    case InvalidQuantity => ValidProductId(item.productId) && !(1 <= item.quantity <= 1000)
    case DuplicateProduct =>
      && ValidProductId(item.productId) && 1 <= item.quantity <= 1000
      && exists j :: 0 <= j < i && items[j].productId == item.productId
    case _ => false
  }

  /** The first thing wrong with a draft, in the order in which it is examined. */
  ghost predicate DefectiveDraft(id: string, customerId: string, currency: string, items: seq<Item>, now: Timestamp,
                                 error: OrderError) {
    if !ValidOrderId(id) then error == InvalidOrderId
    else if !ValidCustomerId(customerId) then error == InvalidCustomerId
    else if !ValidCurrency(Normal(currency)) then error == InvalidCurrency
    else if items == [] then error == EmptyOrder
    else if |items| > 100 then error == TooManyItems
    else if !SoundItems(items) then exists i: nat :: DefectiveItem(items, i, error)
    else !now.Utc? && error == InvalidTimestamp
  }

  lemma {:induction false} ItemErrorTells(items: seq<Item>)
    requires ItemError(items).Some?
    ensures exists i: nat :: DefectiveItem(items, i, ItemError(items).value)
  {
    var n := |items| - 1;
    NoItemError(items[..n]);
    if ItemError(items[..n]).Some? {
      ItemErrorTells(items[..n]);
      var i: nat :| DefectiveItem(items[..n], i, ItemError(items).value);
      assert items[..n][..i] == items[..i];
      assert DefectiveItem(items, i, ItemError(items).value);
    } else {
      if items[n].productId in Products(items[..n]) {
        var j :| 0 <= j < n && Products(items[..n])[j] == items[n].productId;
        assert items[j].productId == items[n].productId;
      }
      assert DefectiveItem(items, n, ItemError(items).value);
    }
  }

  lemma {:induction false} DraftErrorTells(id: string, customerId: string, currency: string, items: seq<Item>,
                                           now: Timestamp)
    requires DraftError(id, customerId, currency, items, now).Some?
    ensures DefectiveDraft(id, customerId, currency, items, now,
                           DraftError(id, customerId, currency, items, now).value)
  {
    NoItemError(items);
    if ItemError(items).Some? { ItemErrorTells(items); }
  }

  ghost predicate ValidDraft(id: string, customerId: string, currency: string, items: seq<Item>, now: Timestamp) {
    ValidOrderId(id) && ValidCustomerId(customerId) && ValidCurrency(Normal(currency)) && WellFormedItems(items) &&
      now.Utc?
  }

  /** The first defect of the item list, in the order in which the items are examined. */
  function ItemError(items: seq<Item>): Option<OrderError> {
    if items == [] then None
    else
      var before := items[..|items| - 1];
      var item := items[|items| - 1];
      if ItemError(before).Some? then ItemError(before)
      else if !ValidProductId(item.productId) then Some(InvalidProductId)
      else if item.quantity < 1 || item.quantity > MAX_QUANTITY then Some(InvalidQuantity)
      else if item.productId in Products(before) then Some(DuplicateProduct)
      else None
  }

  function DraftError(id: string, customerId: string, currency: string, items: seq<Item>,
                      now: Timestamp): Option<OrderError> {
    if !ValidOrderId(id) then Some(InvalidOrderId)
    else if !ValidCustomerId(customerId) then Some(InvalidCustomerId)
    else if !ValidCurrency(Normal(currency)) then Some(InvalidCurrency)
    else if |items| == 0 then Some(EmptyOrder)
    else if |items| > MAX_ITEMS then Some(TooManyItems)
    else if ItemError(items).Some? then ItemError(items)
    else if !now.Utc? then Some(InvalidTimestamp)
    else None
  }

  lemma {:induction false} ItemErrorPrefix(items: seq<Item>, k: nat)
    requires k <= |items|
    ensures ItemError(items[..k]).Some? ==> ItemError(items) == ItemError(items[..k])
    decreases |items| - k
  {
    if k == |items| {
      assert items[..k] == items;
    } else {
      assert items[..k + 1][..k] == items[..k];
      ItemErrorPrefix(items, k + 1);
    }
  }

  lemma {:induction false} SoundItemsSnoc(items: seq<Item>, item: Item)
    ensures SoundItems(items + [item]) <==>
            && SoundItems(items) && ValidProductId(item.productId)
            && 1 <= item.quantity <= MAX_QUANTITY && item.productId !in Products(items)
  {
    var all := items + [item];
    var n := |items|;
    assert Products(all) == Products(items) + [item.productId];
    assert forall i :: 0 <= i < n ==> all[i] == items[i] && Products(all)[i] == Products(items)[i];
    assert all[n] == item && Products(all)[n] == item.productId;
  }

  lemma {:induction false} NoItemError(items: seq<Item>)
    ensures ItemError(items).None? <==> SoundItems(items)
  {
    if items != [] {
      var n := |items| - 1;
      NoItemError(items[..n]);
      assert items == items[..n] + [items[n]];
      SoundItemsSnoc(items[..n], items[n]);
    }
  }

  /** NewOrder accepts exactly the valid drafts. */
  lemma {:induction false} DraftAcceptedIff(id: string, customerId: string, currency: string, items: seq<Item>,
                                            now: Timestamp)
    ensures DraftError(id, customerId, currency, items, now).None? <==> ValidDraft(id, customerId, currency, items, now)
  {
    NoItemError(items);
  }

  /** The loop over the items of a draft, with its set of products seen. */
  method CheckItems(items: seq<Item>) returns (error: Option<OrderError>)
    ensures error == ItemError(items)
  {
    var seen: set<string> := {};
    for index := 0 to |items|
      invariant ItemError(items[..index]).None?
      invariant forall p :: p in seen <==> p in Products(items[..index])
    {
      var item := items[index];
      assert items[..index + 1][..index] == items[..index];
      ItemErrorPrefix(items, index + 1);
      if !ValidProductId(item.productId) { return Some(InvalidProductId); }
      if item.quantity < 1 || item.quantity > MAX_QUANTITY { return Some(InvalidQuantity); }
      if item.productId in seen { return Some(DuplicateProduct); }
      seen := seen + {item.productId};
      assert Products(items[..index + 1]) == Products(items[..index]) + [item.productId];
    }
    assert items[..|items|] == items;
    error := None;
  }

  method NewOrder(id: string, customerId: string, currency: string, items: seq<Item>, now: Timestamp)
    returns (r: Result<OrderValue, OrderError>)
    ensures r.Ok? <==> ValidDraft(id, customerId, currency, items, now)
    ensures r.Ok? ==> IsNewOrder(r.value, id, customerId, Normal(currency), items, now.nanos)
    ensures r.Err? ==> DefectiveDraft(id, customerId, currency, items, now, r.error)
    ensures r.Ok? ==> r.value == FreshOrder(id, customerId, Normal(currency), items, now.nanos)
    ensures r.Err? ==> DraftError(id, customerId, currency, items, now) == Some(r.error)
  {
    DraftAcceptedIff(id, customerId, currency, items, now);
    if DraftError(id, customerId, currency, items, now).Some? { DraftErrorTells(id, customerId, currency, items, now); }
    if !ValidOrderId(id) { return Err(InvalidOrderId); }
    if !ValidCustomerId(customerId) { return Err(InvalidCustomerId); }
    var normal := Normal(currency);
    if !ValidCurrency(normal) { return Err(InvalidCurrency); }
    if |items| == 0 { return Err(EmptyOrder); }
    if |items| > MAX_ITEMS { return Err(TooManyItems); }
    var defect := CheckItems(items);
    if defect.Some? { return Err(defect.value); }
    if !now.Utc? { return Err(InvalidTimestamp); }
    var copyItems: seq<Item> := [];
    for index := 0 to |items|
      invariant |copyItems| == index && forall k :: 0 <= k < index ==> copyItems[k] == Unpriced(items[k])
    {
      copyItems := copyItems + [Item(items[index].productId, items[index].quantity, None, None, None, None)];
    }
    r := Ok(OrderValue(
      OrderRow(id, customerId, normal, None, None, None, None, None, false, false,
               Pending, INITIAL_VERSION, now.nanos, now.nanos),
      copyItems));
  }

  // -------------------------------------------------------------- ApplyQuote

  function PriceOf(prices: map<string, int64>, productId: string): int {
    if productId in prices then prices[productId] as int else 0
  }

  ghost predicate PricesUsable(items: seq<Item>, prices: map<string, int64>) {
    forall i :: 0 <= i < |items| ==>
      items[i].productId in prices && 0 <= prices[items[i].productId] <= MAX_TOTAL_MINOR
  }

  function LineTotalOf(item: Item, prices: map<string, int64>): int {
    item.quantity as int * PriceOf(prices, item.productId)
  }

  /** The order total over unbounded integers. */
  function TotalOf(items: seq<Item>, prices: map<string, int64>): int {
    if items == [] then 0
    else TotalOf(items[..|items| - 1], prices) + LineTotalOf(items[|items| - 1], prices)
  }

  /** The order total as the int64 accumulator holds it. */
  function RunningTotal(items: seq<Item>, prices: map<string, int64>): int64 {
    if items == [] then 0
    else Wrap64(RunningTotal(items[..|items| - 1], prices) as int + LineTotalOf(items[|items| - 1], prices))
  }

  /** The checks made on one item, given the total accumulated before it. */
  function TurnError(item: Item, prices: map<string, int64>, total: int64): Option<OrderError> {
    if item.productId !in prices || !(0 <= prices[item.productId] <= MAX_TOTAL_MINOR) then Some(InvalidMoney)
    else if LineTotalOf(item, prices) > MAX_TOTAL_MINOR as int then Some(MoneyOverflow)
    else if total as int + LineTotalOf(item, prices) > MAX_TOTAL_MINOR as int then Some(MoneyOverflow)
    else None
  }

  /** The first defect the checked loop meets, in the order in which it meets it. */
  function LineError(items: seq<Item>, prices: map<string, int64>): Option<OrderError> {
    if items == [] then None
    else
      var before := items[..|items| - 1];
      if LineError(before, prices).Some? then LineError(before, prices)
      else TurnError(items[|items| - 1], prices, RunningTotal(before, prices))
  }

  ghost predicate PositiveQuantities(items: seq<Item>) {
    forall i :: 0 <= i < |items| ==> 1 <= items[i].quantity
  }

  lemma {:induction false} LineErrorPrefix(items: seq<Item>, prices: map<string, int64>, k: nat)
    requires k <= |items|
    ensures LineError(items[..k], prices).Some? ==> LineError(items, prices) == LineError(items[..k], prices)
    decreases |items| - k
  {
    if k == |items| {
      assert items[..k] == items;
    } else {
      assert items[..k + 1][..k] == items[..k];
      LineErrorPrefix(items, prices, k + 1);
    }
  }

  lemma {:induction false} LineTotalNonNegative(item: Item, prices: map<string, int64>)
    requires 1 <= item.quantity && item.productId in prices && 0 <= prices[item.productId]
    ensures 0 <= LineTotalOf(item, prices)
  {}

  lemma {:induction false} TotalNonNegative(items: seq<Item>, prices: map<string, int64>)
    requires PositiveQuantities(items) && PricesUsable(items, prices)
    ensures 0 <= TotalOf(items, prices)
  {
    if items != [] {
      TotalNonNegative(items[..|items| - 1], prices);
      LineTotalNonNegative(items[|items| - 1], prices);
    }
  }

  lemma {:induction false} PricesUsableSnoc(items: seq<Item>, prices: map<string, int64>)
    requires items != []
    ensures PricesUsable(items, prices) <==>
            var last := items[|items| - 1].productId;
            PricesUsable(items[..|items| - 1], prices) && last in prices && 0 <= prices[last] <= MAX_TOTAL_MINOR
  {
    var n := |items| - 1;
    assert forall i :: 0 <= i < n ==> items[..n][i] == items[i];
  }

  /** As long as the loop reports no defect, its accumulator holds the exact total. */
  lemma {:induction false} RunningIsExact(items: seq<Item>, prices: map<string, int64>)
    requires PositiveQuantities(items) && LineError(items, prices).None?
    ensures PricesUsable(items, prices)
    ensures RunningTotal(items, prices) as int == TotalOf(items, prices) &&
            0 <= TotalOf(items, prices) <= MAX_TOTAL_MINOR as int
  {
    if items != [] {
      var n := |items| - 1;
      RunningIsExact(items[..n], prices);
      PricesUsableSnoc(items, prices);
      LineTotalNonNegative(items[n], prices);
      WrapExact(RunningTotal(items[..n], prices) as int + LineTotalOf(items[n], prices));
    }
  }

  /** The checked loop is silent exactly when every price is usable and the exact
      total is within the limit. */
  lemma {:induction false} NoLineError(items: seq<Item>, prices: map<string, int64>)
    requires PositiveQuantities(items)
    ensures LineError(items, prices).None? <==>
            PricesUsable(items, prices) && TotalOf(items, prices) <= MAX_TOTAL_MINOR as int
  {
    if LineError(items, prices).None? {
      RunningIsExact(items, prices);
    } else if items != [] {
      var n := |items| - 1;
      NoLineError(items[..n], prices);
      PricesUsableSnoc(items, prices);
      if PricesUsable(items, prices) {
        TotalNonNegative(items[..n], prices);
        LineTotalNonNegative(items[n], prices);
        if LineError(items[..n], prices).None? { RunningIsExact(items[..n], prices); }
      }
    }
  }

  function QuoteError(order: OrderValue, quoteId: string, quoteVersion: int64, prices: map<string, int64>,
                      now: Timestamp): Option<OrderError> {
    if order.row.status != Pending || order.row.total.Some? then Some(PricesAlreadySet)
    else if !ValidQuoteId(quoteId) || quoteVersion < 1 then Some(InvalidMoney)
    else if !now.Utc? then Some(InvalidTimestamp)
    else LineError(order.items, prices)
  }

  ghost predicate QuoteAcceptable(order: OrderValue, quoteId: string, quoteVersion: int64, prices: map<string, int64>,
                                  now: Timestamp) {
    && order.row.status == Pending && order.row.total.None?
    && ValidQuoteId(quoteId) && 1 <= quoteVersion && now.Utc?
    && PricesUsable(order.items, prices)
    && TotalOf(order.items, prices) <= MAX_TOTAL_MINOR as int
  }

  /** The aggregate accepts a quote exactly when its preconditions hold, every
      price is present and in range, and the exact sum is within the limit. */
  lemma {:induction false} QuoteAcceptedIff(order: OrderValue, quoteId: string, quoteVersion: int64,
                                            prices: map<string, int64>, now: Timestamp)
    requires PositiveQuantities(order.items)
    ensures QuoteError(order, quoteId, quoteVersion, prices, now).None? <==>
            QuoteAcceptable(order, quoteId, quoteVersion, prices, now)
  {
    NoLineError(order.items, prices);
  }

  lemma {:induction false} LineWithinTotal(items: seq<Item>, prices: map<string, int64>, k: nat)
    requires PositiveQuantities(items) && PricesUsable(items, prices) && k < |items|
    ensures 0 <= LineTotalOf(items[k], prices) <= TotalOf(items, prices)
  {
    var n := |items| - 1;
    LineTotalNonNegative(items[k], prices);
    LineTotalNonNegative(items[n], prices);
    TotalNonNegative(items[..n], prices);
    if k < n {
      LineWithinTotal(items[..n], prices, k);
    }
  }

  function PricedItem(item: Item, prices: map<string, int64>, quoteId: string, quoteVersion: int64): Item {
    Item(item.productId, item.quantity,
         if item.productId in prices then Some(prices[item.productId]) else None,
         Some(Wrap64(LineTotalOf(item, prices))), Some(quoteId), Some(quoteVersion))
  }

  function PricedItems(items: seq<Item>, prices: map<string, int64>, quoteId: string, quoteVersion: int64): seq<Item> {
    seq(|items|, i requires 0 <= i < |items| => PricedItem(items[i], prices, quoteId, quoteVersion))
  }

  /** The aggregate after an accepted quote. */
  function Quoted(order: OrderValue, quoteId: string, quoteVersion: int64, prices: map<string, int64>,
                  nanos: int): OrderValue {
    OrderValue(
      order.row.(total := Some(RunningTotal(order.items, prices)), version := order.row.version + 1,
        updatedAt := nanos),
      PricedItems(order.items, prices, quoteId, quoteVersion))
  }

  lemma {:induction false} DivisionGuard(quantity: int, price: int, limit: int)
    requires 0 < price && 0 <= limit
    ensures quantity > limit / price <==> quantity * price > limit
  {
    var q := limit / price;
    assert limit == price * q + limit % price;
    if quantity > q {
      assert price * quantity >= price * (q + 1);
    } else {
      assert price * quantity <= price * q;
    }
  }

  /** A 32-bit quantity times a price in range fits in 64 bits, whatever its sign. */
  lemma {:induction false} LineTotalFits(item: Item, prices: map<string, int64>)
    requires item.productId in prices && 0 <= prices[item.productId] <= MAX_TOTAL_MINOR
    ensures -0x2000_0000_0000_0000 <= LineTotalOf(item, prices) < 0x2000_0000_0000_0000
  {
    var q, p := item.quantity as int, PriceOf(prices, item.productId);
    ProductBound(q, p);
  }

  lemma {:induction false} ProductBound(q: int, p: int)
    requires -0x8000_0000 <= q < 0x8000_0000 && 0 <= p <= 1_000_000_000
    ensures -0x2000_0000_0000_0000 <= q * p < 0x2000_0000_0000_0000
  {
    if 0 <= q {
      assert 0 <= q * p <= q * 1_000_000_000;
    } else {
      assert q * 1_000_000_000 <= q * p <= 0;
    }
  }

  /** One turn of the checked loop: the division guard and the subtraction guard
      decide exactly as unbounded integers would. */
  method PriceLine(item: Item, prices: map<string, int64>, total: int64)
    returns (error: Option<OrderError>, price: int64, lineTotal: int64)
    ensures error == TurnError(item, prices, total)
    ensures error.None? ==> LinePriced(item, (price, lineTotal), prices)
  {
    price, lineTotal := 0, 0;
    if item.productId !in prices { return Some(InvalidMoney), 0, 0; }
    price := prices[item.productId];
    if price < 0 || price > MAX_TOTAL_MINOR { return Some(InvalidMoney), 0, 0; }
    if price != 0 {
      DivisionGuard(item.quantity as int, price as int, MAX_TOTAL_MINOR as int);
      if item.quantity as int64 > MAX_TOTAL_MINOR / price { return Some(MoneyOverflow), 0, 0; }
    }
    LineTotalFits(item, prices);
    lineTotal := item.quantity as int64 * price;
    if total > MAX_TOTAL_MINOR - lineTotal { return Some(MoneyOverflow), 0, 0; }
    error := None;
  }

  /** The checked accumulation loop. Quantities may be of any sign here; when they
      are positive no int64 operation leaves its range. */
  method PriceLines(items: seq<Item>, prices: map<string, int64>)
    returns (error: Option<OrderError>, total: int64, lines: seq<(int64, int64)>)
    ensures error == LineError(items, prices)
    ensures error.None? ==> total == RunningTotal(items, prices)
    ensures error.None? && PositiveQuantities(items) ==> total as int == TotalOf(items, prices)
    ensures error.None? ==> |lines| == |items|
    ensures error.None? ==> forall k :: 0 <= k < |items| ==> LinePriced(items[k], lines[k], prices)
  {
    total, lines := 0, [];
    for index := 0 to |items|
      invariant |lines| == index && LineError(items[..index], prices).None?
      invariant total == RunningTotal(items[..index], prices)
      invariant forall k :: 0 <= k < index ==> LinePriced(items[k], lines[k], prices)
    {
      assert items[..index + 1][..index] == items[..index];
      LineErrorPrefix(items, prices, index + 1);
      var failed, price, lineTotal := PriceLine(items[index], prices, total);
      if failed.Some? { return failed, 0, []; }
      total := Wrap64(total as int + lineTotal as int);
      lines := lines + [(price, lineTotal)];
    }
    assert items[..|items|] == items;
    if PositiveQuantities(items) { RunningIsExact(items, prices); }
    error := None;
  }

  ghost predicate LinePriced(item: Item, line: (int64, int64), prices: map<string, int64>) {
    item.productId in prices && line.0 == prices[item.productId] && line.1 as int == LineTotalOf(item, prices)
  }

  /** Every item keeps its product and quantity and carries the price, the exact line
      total and the quote. */
  ghost predicate ItemsPriced(items: seq<Item>, next: seq<Item>, prices: map<string, int64>, quoteId: string,
                              quoteVersion: int64) {
    |next| == |items| &&
    forall i :: 0 <= i < |items| ==>
      && items[i].productId in prices && next[i].lineTotal.Some?
      && next[i].lineTotal.value as int == items[i].quantity as int * prices[items[i].productId] as int
      && next[i] == Item(items[i].productId, items[i].quantity, Some(prices[items[i].productId]), next[i].lineTotal,
                         Some(quoteId), Some(quoteVersion))
  }

  /** Why a quote is refused: an order is priced once, under a numbered quote, at a
      given time, with prices in range and a total within the limit. */
  ghost predicate RefusesQuote(order: OrderValue, quoteId: string, quoteVersion: int64, prices: map<string, int64>,
                               now: Timestamp, error: OrderError) {
    if order.row.status != Pending || order.row.total.Some? then error == PricesAlreadySet
    else if !ValidQuoteId(quoteId) || quoteVersion < 1 then error == InvalidMoney
    else if !now.Utc? then error == InvalidTimestamp
    else PositiveQuantities(order.items) ==> exists i: nat :: StopsAt(order.items, prices, i, error)
  }

  /** The first item whose price is missing or out of range, or that takes the exact
      total over the limit. */
  ghost predicate StopsAt(items: seq<Item>, prices: map<string, int64>, i: nat, error: OrderError) {
    i < |items| && PricesUsable(items[..i], prices) && TotalOf(items[..i], prices) <= 1_000_000_000 &&
    if items[i].productId !in prices || !(0 <= prices[items[i].productId] <= 1_000_000_000) then error == InvalidMoney
    else TotalOf(items[..i], prices) + LineTotalOf(items[i], prices) > 1_000_000_000 && error == MoneyOverflow
  }

  lemma {:induction false} LineErrorTells(items: seq<Item>, prices: map<string, int64>)
    requires PositiveQuantities(items) && LineError(items, prices).Some?
    ensures exists i: nat :: StopsAt(items, prices, i, LineError(items, prices).value)
  {
    var n := |items| - 1;
    if LineError(items[..n], prices).Some? {
      LineErrorTells(items[..n], prices);
      var i: nat :| StopsAt(items[..n], prices, i, LineError(items, prices).value);
      assert items[..n][..i] == items[..i];
      assert StopsAt(items, prices, i, LineError(items, prices).value);
    } else {
      RunningIsExact(items[..n], prices);
      assert StopsAt(items, prices, n, LineError(items, prices).value);
    }
  }

  lemma {:induction false} PricedLine(item: Item, line: (int64, int64), prices: map<string, int64>, quoteId: string,
                                      quoteVersion: int64)
    requires LinePriced(item, line, prices)
    ensures PricedItem(item, prices, quoteId, quoteVersion) ==
            Item(item.productId, item.quantity, Some(line.0), Some(line.1), Some(quoteId), Some(quoteVersion))
  {
    WrapExact(LineTotalOf(item, prices));
  }

  /** The mutable aggregate held in memory by a handler. */
  class Order {
    var row: OrderRow
    var items: seq<Item>

    constructor (value: OrderValue)
      ensures Value() == value
    {
      row := value.row;
      items := value.items;
    }

    function Value(): OrderValue
      reads this
    {
      OrderValue(row, items)
    }

    /** Copies the computed lines into the items, index by index. */
    method SnapshotLines(lines: seq<(int64, int64)>, quoteId: string, quoteVersion: int64,
                         ghost prices: map<string, int64>)
      requires |lines| == |items| && forall k :: 0 <= k < |items| ==> LinePriced(items[k], lines[k], prices)
      modifies this`items
      ensures items == PricedItems(old(items), prices, quoteId, quoteVersion)
    {
      ghost var was := items;
      for index := 0 to |items|
        invariant |items| == |was|
        invariant forall k :: 0 <= k < index ==> items[k] == PricedItem(was[k], prices, quoteId, quoteVersion)
        invariant forall k :: index <= k < |was| ==> items[k] == was[k]
      {
        var line := lines[index];
        var item := Item(items[index].productId, items[index].quantity,
                         Some(line.0), Some(line.1), Some(quoteId), Some(quoteVersion));
        PricedLine(was[index], line, prices, quoteId, quoteVersion);
        items := items[index := item];
      }
    }

    /** Accepts, prices and totals exactly; on any rejection the aggregate is unchanged. */
    method ApplyQuote(quoteId: string, quoteVersion: int64, prices: map<string, int64>, now: Timestamp)
      returns (error: Option<OrderError>)
      modifies this
      ensures error == QuoteError(old(Value()), quoteId, quoteVersion, prices, now)
      ensures PositiveQuantities(old(items)) ==>
        (error.None? <==> QuoteAcceptable(old(Value()), quoteId, quoteVersion, prices, now))
      ensures error.None? ==> Value() == Quoted(old(Value()), quoteId, quoteVersion, prices, now.nanos)
      ensures error.None? && PositiveQuantities(old(items)) ==> row.total.value as int == TotalOf(old(items), prices)
      ensures error.None? ==>
        && row == old(row).(total := row.total, version := old(row).version + 1, updatedAt := now.nanos)
        && ItemsPriced(old(items), items, prices, quoteId, quoteVersion)
      ensures error.Some? ==>
        Value() == old(Value()) && RefusesQuote(old(Value()), quoteId, quoteVersion, prices, now, error.value)
    {
      if PositiveQuantities(items) { QuoteAcceptedIff(Value(), quoteId, quoteVersion, prices, now); }
      if row.status != Pending || row.total.Some? { return Some(PricesAlreadySet); }
      if !ValidQuoteId(quoteId) || quoteVersion < 1 { return Some(InvalidMoney); }
      if !now.Utc? { return Some(InvalidTimestamp); }
      var failed, total, lines := PriceLines(items, prices);
      if failed.Some? {
        if PositiveQuantities(items) { LineErrorTells(items, prices); }
        return failed;
      }
      SnapshotLines(lines, quoteId, quoteVersion, prices);
      assert ItemsPriced(old(items), items, prices, quoteId, quoteVersion) by {
        forall k | 0 <= k < |lines| { PricedLine(old(items)[k], lines[k], prices, quoteId, quoteVersion); }
      }
      row := row.(total := Some(total), version := row.version + 1, updatedAt := now.nanos);
      error := None;
    }
  }
}
