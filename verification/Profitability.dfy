/**
 The per-product profitability report: grouping order items into product rows
 while spreading each order's costs over its items.

 Amounts are paise; shares and spread costs are exact reals until the report
 rounds its rows. Orders are numbered by their place in the list of paid orders.
 */
module Profitability {
  import opened Rounding

  /** A live product, or what is left of a deleted one. */
  datatype Key = Live(product: nat) | Deleted(sku: string)

  /** `costPrice` is what its product costs, if there still is one. */
  datatype Item = Item(order: nat, key: Key, costPrice: nat, quantity: nat, lineTotal: int, taxableValue: int)

  /** A paid order; `refunded` is the sum of its processed refunds. */
  datatype PaidOrder = PaidOrder(subtotal: int, total: int, refunded: int)

  datatype Settings = Settings(gatewayFeePercent: real, shippingPerOrder: real, packagingPerUnit: real)

  /** The costs an order bears as a whole. */
  datatype Cost = Gateway | Shipping | Refunds

  datatype Row = Row(
    key: Key, costPrice: nat, units: nat, revenue: int, cogs: int,
    gateway: real, shipping: real, packaging: real, refund: real)
  {
    function Of(cost: Cost): real {
      match cost
      case Gateway => gateway
      case Shipping => shipping
      case Refunds => refund
    }

    function GrossMargin(): int {
      revenue - cogs
    }

    function Net(): real {
      GrossMargin() as real - gateway - shipping - packaging - refund
    }
  }

  /** A printed row: paise, and the margin in tenths of a percent. */
  datatype Printed = Printed(
    key: Key, units: nat, revenue: int, cogs: int, grossMargin: int, marginTenths: int,
    gateway: int, shipping: int, packaging: int, refund: int, net: int)
  {
    function Of(cost: Cost): int {
      match cost
      case Gateway => gateway
      case Shipping => shipping
      case Refunds => refund
    }
  }

  // ----- what an item bears -----

  function Bill(cfg: Settings, o: PaidOrder, cost: Cost): real {
    match cost
    case Gateway => o.total as real * (cfg.gatewayFeePercent / 100.0)
    case Shipping => cfg.shippingPerOrder
    case Refunds => o.refunded as real
  }

  /** A bill's part for some lines of an order; an order with no subtotal passes nothing on. */
  function Part(bill: real, lineTotal: int, subtotal: int): real {
    bill * if subtotal != 0 then lineTotal as real / subtotal as real else 0.0
  }

  function Borne(cfg: Settings, orders: seq<PaidOrder>, i: Item, cost: Cost): real
    requires i.order < |orders|
  {
    Part(Bill(cfg, orders[i.order], cost), i.lineTotal, orders[i.order].subtotal)
  }

  ghost predicate Known(orders: seq<PaidOrder>, items: seq<Item>) {
    forall i <- items :: i.order < |orders|
  }

  // ----- sums the rows are measured against -----

  /** What the items of one product bear of a cost. */
  function BorneBy(cfg: Settings, orders: seq<PaidOrder>, items: seq<Item>, key: Key, cost: Cost): real
    requires forall i <- items :: i.order < |orders|
  {
    if items == [] then 0.0
    else
      var n := |items| - 1;
      var last := items[n];
      BorneBy(cfg, orders, items[..n], key, cost)
      + if last.key == key then Borne(cfg, orders, last, cost) else 0.0
  }

  function UnitsOf(items: seq<Item>, key: Key): nat {
    if items == [] then 0
    else
      var n := |items| - 1;
      UnitsOf(items[..n], key) + if items[n].key == key then items[n].quantity else 0
  }

  function RevenueOf(items: seq<Item>, key: Key): int {
    if items == [] then 0
    else
      var n := |items| - 1;
      RevenueOf(items[..n], key) + if items[n].key == key then items[n].taxableValue else 0
  }

  /** What all items bear of a cost, whatever their product. */
  function BorneByAll(cfg: Settings, orders: seq<PaidOrder>, items: seq<Item>, cost: Cost): real
    requires forall i <- items :: i.order < |orders|
  {
    if items == [] then 0.0
    else
      var n := |items| - 1;
      BorneByAll(cfg, orders, items[..n], cost) + Borne(cfg, orders, items[n], cost)
  }

  function LineTotals(items: seq<Item>, order: nat): int {
    if items == [] then 0
    else
      var n := |items| - 1;
      LineTotals(items[..n], order) + if items[n].order == order then items[n].lineTotal else 0
  }

  /** A cost summed over the orders themselves. */
  function Billed(cfg: Settings, orders: seq<PaidOrder>, cost: Cost): real {
    if orders == [] then 0.0
    else Billed(cfg, orders[..|orders| - 1], cost) + Bill(cfg, orders[|orders| - 1], cost)
  }

  function RowSum(rows: seq<Row>, cost: Cost): real {
    if rows == [] then 0.0 else RowSum(rows[..|rows| - 1], cost) + rows[|rows| - 1].Of(cost)
  }

  function PrintedSum(rows: seq<Printed>, cost: Cost): int {
    if rows == [] then 0 else PrintedSum(rows[..|rows| - 1], cost) + rows[|rows| - 1].Of(cost)
  }

  /** What the orders' buyers paid, discounts taken off, and what they were paid back. */
  function TotalsOf(orders: seq<PaidOrder>): int {
    if orders == [] then 0 else TotalsOf(orders[..|orders| - 1]) + orders[|orders| - 1].total
  }

  function RefundsOf(orders: seq<PaidOrder>): int {
    if orders == [] then 0 else RefundsOf(orders[..|orders| - 1]) + orders[|orders| - 1].refunded
  }

  /** Fees are a percentage of the totals, shipping is flat per order, and refunds are what was refunded. */
  lemma {:induction false} WhatIsBilled(cfg: Settings, orders: seq<PaidOrder>)
    ensures Billed(cfg, orders, Gateway) * 100.0 == TotalsOf(orders) as real * cfg.gatewayFeePercent
    ensures Billed(cfg, orders, Shipping) == |orders| as real * cfg.shippingPerOrder
    ensures Billed(cfg, orders, Refunds) == RefundsOf(orders) as real
  {
    if orders != [] {
      var front, last := orders[..|orders| - 1], orders[|orders| - 1];
      WhatIsBilled(cfg, front);
      FeesAdd(Billed(cfg, front, Gateway), TotalsOf(front), last.total, cfg.gatewayFeePercent);
      ShippingAdds(|front|, cfg.shippingPerOrder);
    }
  }

  lemma FeesAdd(billed: real, a: int, b: int, percent: real)
    requires billed * 100.0 == a as real * percent
    ensures (billed + b as real * (percent / 100.0)) * 100.0 == (a + b) as real * percent
  {
  }

  lemma ShippingAdds(n: nat, each: real)
    ensures n as real * each + each == (n + 1) as real * each
  {
  }

  // ----- conservation -----

  /** What the items bear, counted for the first orders only. */
  function BorneUpTo(cfg: Settings, orders: seq<PaidOrder>, items: seq<Item>, cost: Cost, n: nat): real
    requires forall i <- items :: i.order < |orders|
  {
    if items == [] then 0.0
    else
      var m := |items| - 1;
      BorneUpTo(cfg, orders, items[..m], cost, n)
      + if items[m].order < n then Borne(cfg, orders, items[m], cost) else 0.0
  }

  lemma Parts(bill: real, a: int, b: int, subtotal: int)
    ensures Part(bill, 0, subtotal) == 0.0 == Part(bill, a, 0)
    ensures subtotal != 0 ==> Part(bill, subtotal, subtotal) == bill
    ensures Part(bill, a + b, subtotal) == Part(bill, a, subtotal) + Part(bill, b, subtotal)
  {
  }

  /** The items of one order bear its bill in proportion to their line totals. */
  lemma {:induction false} OneOrder(cfg: Settings, orders: seq<PaidOrder>, items: seq<Item>, cost: Cost, n: nat)
    requires Known(orders, items) && n < |orders|
    ensures BorneUpTo(cfg, orders, items, cost, n + 1)
            == BorneUpTo(cfg, orders, items, cost, n)
               + Part(Bill(cfg, orders[n], cost), LineTotals(items, n), orders[n].subtotal)
  {
    var bill, subtotal := Bill(cfg, orders[n], cost), orders[n].subtotal;
    if items == [] {
      Parts(bill, 0, 0, subtotal);
    } else {
      var m := |items| - 1;
      OneOrder(cfg, orders, items[..m], cost, n);
      assert items[m] in items;
      Parts(bill, LineTotals(items[..m], n), items[m].lineTotal, subtotal);
    }
  }

  lemma {:induction false} NoneBefore(cfg: Settings, orders: seq<PaidOrder>, items: seq<Item>, cost: Cost)
    requires Known(orders, items)
    ensures BorneUpTo(cfg, orders, items, cost, 0) == 0.0
    ensures BorneUpTo(cfg, orders, items, cost, |orders|) == BorneByAll(cfg, orders, items, cost)
  {
    if items != [] {
      assert items[|items| - 1] in items;
      NoneBefore(cfg, orders, items[..|items| - 1], cost);
    }
  }

  /** Orders whose subtotal is the positive sum of their line totals: what checkout writes. */
  ghost predicate Sound(orders: seq<PaidOrder>, items: seq<Item>) {
    Known(orders, items)
    && forall n: nat | n < |orders| :: orders[n].subtotal == LineTotals(items, n) && orders[n].subtotal > 0
  }

  lemma {:induction false} BilledUpTo(cfg: Settings, orders: seq<PaidOrder>, items: seq<Item>, cost: Cost, n: nat)
    requires Sound(orders, items) && n <= |orders|
    ensures BorneUpTo(cfg, orders, items, cost, n) == Billed(cfg, orders[..n], cost)
  {
    if n == 0 {
      NoneBefore(cfg, orders, items, cost);
    } else {
      BilledUpTo(cfg, orders, items, cost, n - 1);
      OneOrder(cfg, orders, items, cost, n - 1);
      assert orders[..n][..n - 1] == orders[..n - 1];
      Parts(Bill(cfg, orders[n - 1], cost), 0, 0, orders[n - 1].subtotal);
    }
  }

  /** Spread over items, every cost comes back whole. */
  lemma ItemsBearTheBill(cfg: Settings, orders: seq<PaidOrder>, items: seq<Item>, cost: Cost)
    requires Sound(orders, items)
    ensures BorneByAll(cfg, orders, items, cost) == Billed(cfg, orders, cost)
  {
    BilledUpTo(cfg, orders, items, cost, |orders|);
    NoneBefore(cfg, orders, items, cost);
    assert orders[..|orders|] == orders;
  }

  // ----- the grouping loop -----

  predicate DistinctKeys(rows: seq<Row>) {
    forall j, k | 0 <= j < k < |rows| :: rows[j].key != rows[k].key
  }

  /** A row says what the items of its product add up to. */
  ghost predicate Accounts(cfg: Settings, orders: seq<PaidOrder>, items: seq<Item>, r: Row)
    requires Known(orders, items)
  {
    && r.units == UnitsOf(items, r.key)
    && r.revenue == RevenueOf(items, r.key)
    && r.cogs == r.costPrice * r.units
    && r.packaging == cfg.packagingPerUnit * r.units as real
    && forall cost: Cost :: r.Of(cost) == BorneBy(cfg, orders, items, r.key, cost)
  }

  lemma {:induction false} RowReplaced(rows: seq<Row>, k: nat, r: Row, cost: Cost)
    requires k < |rows|
    ensures RowSum(rows[k := r], cost) == RowSum(rows, cost) - rows[k].Of(cost) + r.Of(cost)
  {
    var n := |rows| - 1;
    if k == n {
      assert rows[k := r][..n] == rows[..n];
    } else {
      RowReplaced(rows[..n], k, r, cost);
      assert rows[k := r][..n] == rows[..n][k := r];
    }
  }

  lemma {:induction false} AbsentProduct(cfg: Settings, orders: seq<PaidOrder>, items: seq<Item>, key: Key)
    requires Known(orders, items) && forall i <- items :: i.key != key
    ensures UnitsOf(items, key) == 0 && RevenueOf(items, key) == 0
    ensures forall cost: Cost :: BorneBy(cfg, orders, items, key, cost) == 0.0
  {
    if items != [] {
      assert items[|items| - 1] in items;
      AbsentProduct(cfg, orders, items[..|items| - 1], key);
    }
  }

  method FindRow(rows: seq<Row>, key: Key) returns (k: nat)
    ensures k <= |rows|
    ensures k < |rows| ==> rows[k].key == key
    ensures forall j | 0 <= j < k :: rows[j].key != key
  {
    k := 0;
    while k < |rows| && rows[k].key != key
      invariant k <= |rows|
      invariant forall j | 0 <= j < k :: rows[j].key != key
    {
      k := k + 1;
    }
  }

  /** One item booked on its product's row. */
  function Book(cfg: Settings, orders: seq<PaidOrder>, r: Row, i: Item): Row
    requires i.order < |orders|
  {
    r.(units := r.units + i.quantity,
       revenue := r.revenue + i.taxableValue,
       cogs := r.cogs + r.costPrice * i.quantity,
       gateway := r.gateway + Borne(cfg, orders, i, Gateway),
       shipping := r.shipping + Borne(cfg, orders, i, Shipping),
       packaging := r.packaging + cfg.packagingPerUnit * i.quantity as real,
       refund := r.refund + Borne(cfg, orders, i, Refunds))
  }

  function Blank(i: Item): Row {
    Row(i.key, if i.key.Live? then i.costPrice else 0, 0, 0, 0, 0.0, 0.0, 0.0, 0.0)
  }

  /** Booking an item on the row of its key keeps that row's account; other rows are not concerned. */
  lemma BookAccounts(cfg: Settings, orders: seq<PaidOrder>, items: seq<Item>, r: Row, i: Item)
    requires Known(orders, items + [i]) && i.order < |orders|
    requires Known(orders, items) && Accounts(cfg, orders, items, r)
    ensures r.key == i.key ==> Accounts(cfg, orders, items + [i], Book(cfg, orders, r, i))
    ensures r.key != i.key ==> Accounts(cfg, orders, items + [i], r)
  {
  }

  predicate HasRow(rows: seq<Row>, key: Key) {
    exists r <- rows :: r.key == key
  }

  predicate Occurs(items: seq<Item>, key: Key) {
    exists i <- items :: i.key == key
  }

  /** A row's cost price is that of an item of its product, and nothing for a deleted one. */
  ghost predicate Priced(items: seq<Item>, r: Row) {
    if r.key.Deleted? then r.costPrice == 0 else exists i <- items :: i.key == r.key && r.costPrice == i.costPrice
  }

  lemma PricedOneMore(items: seq<Item>, rows: seq<Row>, i: Item)
    requires forall r <- rows :: Priced(items, r)
    ensures forall r <- rows :: Priced(items + [i], r)
    ensures Priced(items + [i], Blank(i))
  {
    assert i in items + [i];
    assert forall x <- items :: x in items + [i];
  }

  lemma BookPriced(cfg: Settings, orders: seq<PaidOrder>, items: seq<Item>, rows: seq<Row>, k: nat, i: Item)
    requires k < |rows| && i.order < |orders| && forall r <- rows :: Priced(items, r)
    ensures forall r <- rows[k := Book(cfg, orders, rows[k], i)] :: Priced(items, r)
  {
    var rows' := rows[k := Book(cfg, orders, rows[k], i)];
    forall j | 0 <= j < |rows'|
      ensures Priced(items, rows'[j])
    {
      assert rows[j] in rows;
    }
  }

  /** One row a product, for the products of the items and no others, each accounting for its items. */
  ghost predicate Grouped(cfg: Settings, orders: seq<PaidOrder>, items: seq<Item>, rows: seq<Row>)
    requires Known(orders, items)
  {
    && DistinctKeys(rows)
    && (forall key :: HasRow(rows, key) <==> Occurs(items, key))
    && (forall r <- rows :: Accounts(cfg, orders, items, r))
    && forall cost: Cost :: RowSum(rows, cost) == BorneByAll(cfg, orders, items, cost)
  }

  lemma BookRow(cfg: Settings, orders: seq<PaidOrder>, items: seq<Item>, rows: seq<Row>, k: nat, i: Item)
    requires Known(orders, items) && i.order < |orders| && k < |rows| && rows[k].key == i.key
    requires DistinctKeys(rows) && forall r <- rows :: Accounts(cfg, orders, items, r)
    ensures Known(orders, items + [i])
    ensures forall r <- rows[k := Book(cfg, orders, rows[k], i)] :: Accounts(cfg, orders, items + [i], r)
  {
    var rows' := rows[k := Book(cfg, orders, rows[k], i)];
    assert Known(orders, items + [i]);
    forall j | 0 <= j < |rows'|
      ensures Accounts(cfg, orders, items + [i], rows'[j])
    {
      assert rows[j] in rows;
      BookAccounts(cfg, orders, items, rows[j], i);
    }
  }

  lemma BookSum(cfg: Settings, orders: seq<PaidOrder>, items: seq<Item>, rows: seq<Row>, k: nat, i: Item, cost: Cost)
    requires Known(orders, items) && Known(orders, items + [i]) && i.order < |orders| && k < |rows|
    requires RowSum(rows, cost) == BorneByAll(cfg, orders, items, cost)
    ensures RowSum(rows[k := Book(cfg, orders, rows[k], i)], cost) == BorneByAll(cfg, orders, items + [i], cost)
  {
    RowReplaced(rows, k, Book(cfg, orders, rows[k], i), cost);
    assert (items + [i])[..|items|] == items;
  }

  /** A blank row for a product not met before changes no sum. */
  lemma OpenRow(cfg: Settings, orders: seq<PaidOrder>, items: seq<Item>, rows: seq<Row>, i: Item)
    requires Known(orders, items) && Grouped(cfg, orders, items, rows) && !HasRow(rows, i.key)
    ensures var rows' := rows + [Blank(i)];
            && DistinctKeys(rows')
            && (forall r <- rows' :: Accounts(cfg, orders, items, r))
            && forall cost: Cost :: RowSum(rows', cost) == BorneByAll(cfg, orders, items, cost)
  {
    var rows' := rows + [Blank(i)];
    assert rows'[..|rows|] == rows;
    assert !Occurs(items, i.key);
    AbsentProduct(cfg, orders, items, i.key);
    forall j | 0 <= j < |rows|
      ensures rows[j].key != i.key
    {
      assert rows[j] in rows;
    }
  }

  /** One turn of the grouping loop, once the item's row is there. */
  lemma BookKeepsGroups(cfg: Settings, orders: seq<PaidOrder>, items: seq<Item>, rows: seq<Row>, k: nat, i: Item)
    requires Known(orders, items) && i.order < |orders| && k < |rows| && rows[k].key == i.key
    requires DistinctKeys(rows) && forall r <- rows :: Accounts(cfg, orders, items, r)
    requires forall key :: HasRow(rows, key) <==> Occurs(items, key) || key == i.key
    requires forall cost: Cost :: RowSum(rows, cost) == BorneByAll(cfg, orders, items, cost)
    ensures Known(orders, items + [i])
    ensures Grouped(cfg, orders, items + [i], rows[k := Book(cfg, orders, rows[k], i)])
  {
    var rows' := rows[k := Book(cfg, orders, rows[k], i)];
    BookRow(cfg, orders, items, rows, k, i);
    forall cost: Cost
      ensures RowSum(rows', cost) == BorneByAll(cfg, orders, items + [i], cost)
    {
      BookSum(cfg, orders, items, rows, k, i, cost);
    }
    forall key
      ensures HasRow(rows', key) <==> Occurs(items + [i], key)
    {
      SameKeys(rows, rows', key);
      assert Occurs(items + [i], key) <==> Occurs(items, key) || key == i.key by {
        assert i in items + [i];
      }
    }
  }

  lemma SameKeys(rows: seq<Row>, rows': seq<Row>, key: Key)
    requires |rows| == |rows'| && forall j | 0 <= j < |rows| :: rows[j].key == rows'[j].key
    ensures HasRow(rows, key) <==> HasRow(rows', key)
  {
  }

  /** The rows of the report before rounding, in the order their products first appear. */
  method GroupByProduct(cfg: Settings, orders: seq<PaidOrder>, items: seq<Item>) returns (rows: seq<Row>)
    requires Known(orders, items)
    ensures Grouped(cfg, orders, items, rows)
    ensures forall r <- rows :: Priced(items, r)
  {
    rows := [];
    for n := 0 to |items|
      invariant Known(orders, items[..n])
      invariant Grouped(cfg, orders, items[..n], rows)
      invariant forall r <- rows :: Priced(items[..n], r)
    {
      var i := items[n];
      assert i in items && items[..n + 1] == items[..n] + [i];
      PricedOneMore(items[..n], rows, i);
      var k := FindRow(rows, i.key);
      if k == |rows| {
        OpenRow(cfg, orders, items[..n], rows, i);
        rows := rows + [Blank(i)];
      }
      assert forall key :: HasRow(rows, key) <==> Occurs(items[..n], key) || key == i.key by {
        assert rows[k] in rows;
      }
      BookKeepsGroups(cfg, orders, items[..n], rows, k, i);
      BookPriced(cfg, orders, items[..n + 1], rows, k, i);
      var row := BookItem(cfg, orders, rows[k], i);
      rows := rows[k := row];
    }
    assert items[..|items|] == items;
  }

  lemma BorneByShare(cfg: Settings, orders: seq<PaidOrder>, i: Item, share: real,
                     gateway: real, shipping: real, refund: real)
    requires i.order < |orders|
    requires var o := orders[i.order];
             && share == (if o.subtotal != 0 then i.lineTotal as real / o.subtotal as real else 0.0)
             && gateway == o.total as real * (cfg.gatewayFeePercent / 100.0) * share
             && shipping == cfg.shippingPerOrder * share && refund == o.refunded as real * share
    ensures gateway == Borne(cfg, orders, i, Gateway)
    ensures shipping == Borne(cfg, orders, i, Shipping) && refund == Borne(cfg, orders, i, Refunds)
  {
  }

  /** One item's share of its order's costs, and its own, added to its product's row. */
  method BookItem(cfg: Settings, orders: seq<PaidOrder>, before: Row, i: Item) returns (row: Row)
    requires i.order < |orders|
    ensures row == Book(cfg, orders, before, i)
  {
    row := before;
    var order := orders[i.order];
    var share := if order.subtotal != 0 then i.lineTotal as real / order.subtotal as real else 0.0;
    var gateway := order.total as real * (cfg.gatewayFeePercent / 100.0) * share;
    var shipping, refund := cfg.shippingPerOrder * share, order.refunded as real * share;
    BorneByShare(cfg, orders, i, share, gateway, shipping, refund);
    row := row.(units := row.units + i.quantity, revenue := row.revenue + i.taxableValue);
    row := row.(cogs := row.cogs + row.costPrice * i.quantity);
    row := row.(gateway := row.gateway + gateway, shipping := row.shipping + shipping);
    row := row.(packaging := row.packaging + cfg.packagingPerUnit * i.quantity as real);
    row := row.(refund := row.refund + refund);
  }

  // ----- rounding and ordering the rows -----

  function Print(r: Row): Printed {
    Printed(r.key, r.units, r.revenue, r.cogs, r.GrossMargin(),
            if r.revenue != 0
            then RoundHalfEven(r.GrossMargin() as real / r.revenue as real * 100.0 * 10.0) else 0,
            RoundHalfEven(r.gateway), RoundHalfEven(r.shipping), RoundHalfEven(r.packaging),
            RoundHalfEven(r.refund), RoundHalfEven(r.Net()))
  }

  function PrintAll(rows: seq<Row>): (printed: seq<Printed>)
    ensures |printed| == |rows| && forall k | 0 <= k < |rows| :: printed[k] == Print(rows[k])
  {
    if rows == [] then [] else PrintAll(rows[..|rows| - 1]) + [Print(rows[|rows| - 1])]
  }

  /** The margin is the gross margin as a share of the revenue, to the nearest tenth of a percent. */
  lemma MarginTells(gross: int, revenue: int, tenths: int)
    requires revenue != 0 && tenths == RoundHalfEven(gross as real / revenue as real * 100.0 * 10.0)
    ensures MarginIsNear(gross, revenue, tenths)
  {
    var x, r := gross as real / revenue as real * 100.0 * 10.0, revenue as real;
    RoundsToNearest(x, tenths);
    assert x * r == 1000.0 * gross as real;
    var off := tenths as real - x;
    assert off * r == (tenths * revenue - 1000 * gross) as real by {
      assert tenths as real * r == (tenths * revenue) as real;
    }
    if revenue > 0 {
      ProductSign(0.5 - off, r);
      ProductSign(0.5 + off, r);
    } else {
      ProductSign(0.5 - off, 0.0 - r);
      ProductSign(0.5 + off, 0.0 - r);
    }
  }

  /** Rounding moves a column's total by at most half a paisa a row. */
  lemma {:induction false} RoundingShiftsLittle(rows: seq<Row>, cost: Cost)
    ensures -(|rows| as real / 2.0) <= PrintedSum(PrintAll(rows), cost) as real - RowSum(rows, cost)
            <= |rows| as real / 2.0
  {
    if rows != [] {
      var n := |rows| - 1;
      RoundingShiftsLittle(rows[..n], cost);
      assert PrintAll(rows)[..n] == PrintAll(rows[..n]);
      RoundsToNearest(rows[n].Of(cost), RoundHalfEven(rows[n].Of(cost)));
    }
  }

  /** The printed net is rounded on its own, yet never more than two paise from the printed columns. */
  lemma PrintedRowAddsUp(r: Row)
    ensures var p := Print(r);
            -2 <= p.net - (p.grossMargin - p.gateway - p.shipping - p.packaging - p.refund) <= 2
  {
  }

  predicate Near(n: int, x: real) {
    -0.5 <= n as real - x <= 0.5
  }

  lemma RoundsNear(x: real)
    ensures Near(RoundHalfEven(x), x)
  {
  }

  /** The exact columns of a printed row, and its margin to the nearest tenth of a percent. */
  ghost predicate TellsSales(items: seq<Item>, p: Printed) {
    && p.units == UnitsOf(items, p.key) && p.revenue == RevenueOf(items, p.key)
    && (if p.key.Deleted? then p.cogs == 0
        else exists i <- items :: i.key == p.key && p.cogs == i.costPrice * p.units)
    && p.grossMargin == p.revenue - p.cogs
    && (if p.revenue == 0 then p.marginTenths == 0 else MarginIsNear(p.grossMargin, p.revenue, p.marginTenths))
  }

  predicate MarginIsNear(gross: int, revenue: int, tenths: int) {
    var miss := 2 * (tenths * revenue - 1000 * gross);
    -revenue <= miss <= revenue || revenue <= miss <= -revenue
  }

  /** Its cost columns and its net, each within half a paisa of what the items of the product bear. */
  ghost predicate TellsCosts(cfg: Settings, orders: seq<PaidOrder>, items: seq<Item>, p: Printed)
    requires Known(orders, items)
  {
    CostsNear(p, BorneBy(cfg, orders, items, p.key, Gateway), BorneBy(cfg, orders, items, p.key, Shipping),
              cfg.packagingPerUnit * p.units as real, BorneBy(cfg, orders, items, p.key, Refunds))
  }

  predicate CostsNear(p: Printed, gateway: real, shipping: real, packaging: real, refund: real) {
    && Near(p.gateway, gateway) && Near(p.shipping, shipping) && Near(p.packaging, packaging) && Near(p.refund, refund)
    && Near(p.net, p.grossMargin as real - gateway - shipping - packaging - refund)
  }

  lemma PrintTellsSales(cfg: Settings, orders: seq<PaidOrder>, items: seq<Item>, r: Row)
    requires Known(orders, items) && Accounts(cfg, orders, items, r) && Priced(items, r)
    ensures TellsSales(items, Print(r))
  {
    var p := Print(r);
    if r.revenue != 0 {
      MarginTells(r.GrossMargin(), r.revenue, p.marginTenths);
    }
    if r.key.Live? {
      var i :| i in items && i.key == r.key && r.costPrice == i.costPrice;
      assert p.cogs == i.costPrice * p.units;
    }
  }

  lemma PrintTellsCosts(cfg: Settings, orders: seq<PaidOrder>, items: seq<Item>, r: Row)
    requires Known(orders, items) && Accounts(cfg, orders, items, r)
    ensures TellsCosts(cfg, orders, items, Print(r))
  {
    PrintRounds(r);
    CostColumns(cfg, orders, items, r);
    RoundedTellsCosts(cfg, orders, items, r, Print(r));
  }

  lemma CostColumns(cfg: Settings, orders: seq<PaidOrder>, items: seq<Item>, r: Row)
    requires Known(orders, items) && Accounts(cfg, orders, items, r)
    ensures r.gateway == BorneBy(cfg, orders, items, r.key, Gateway)
    ensures r.shipping == BorneBy(cfg, orders, items, r.key, Shipping)
    ensures r.refund == BorneBy(cfg, orders, items, r.key, Refunds)
    ensures r.packaging == cfg.packagingPerUnit * r.units as real
  {
    assert r.Of(Gateway) == r.gateway && r.Of(Shipping) == r.shipping && r.Of(Refunds) == r.refund;
  }

  lemma RoundedTellsCosts(cfg: Settings, orders: seq<PaidOrder>, items: seq<Item>, r: Row, p: Printed)
    requires Known(orders, items) && Rounded(r, p)
    requires r.gateway == BorneBy(cfg, orders, items, r.key, Gateway)
    requires r.shipping == BorneBy(cfg, orders, items, r.key, Shipping)
    requires r.refund == BorneBy(cfg, orders, items, r.key, Refunds)
    requires r.packaging == cfg.packagingPerUnit * r.units as real
    ensures TellsCosts(cfg, orders, items, p)
  {
  }

  predicate Rounded(r: Row, p: Printed) {
    && p.key == r.key && p.units == r.units && p.grossMargin == r.revenue - r.cogs
    && CostsNear(p, r.gateway, r.shipping, r.packaging, r.refund)
  }

  lemma PrintRounds(r: Row)
    ensures Rounded(r, Print(r))
  {
    RoundsNear(r.gateway);
    RoundsNear(r.shipping);
    RoundsNear(r.packaging);
    RoundsNear(r.refund);
    RoundsNear(r.Net());
  }

  lemma RowOf(cfg: Settings, orders: seq<PaidOrder>, items: seq<Item>, rows: seq<Row>, p: Printed)
    requires Known(orders, items) && Grouped(cfg, orders, items, rows) && p in PrintAll(rows)
    requires forall r <- rows :: Priced(items, r)
    ensures Occurs(items, p.key) && TellsSales(items, p) && TellsCosts(cfg, orders, items, p)
  {
    var k :| 0 <= k < |rows| && p == Print(rows[k]);
    assert rows[k] in rows && HasRow(rows, rows[k].key);
    PrintTellsSales(cfg, orders, items, rows[k]);
    PrintTellsCosts(cfg, orders, items, rows[k]);
  }

  predicate Descending(rows: seq<Printed>) {
    forall j, k | 0 <= j < k < |rows| :: rows[j].net >= rows[k].net
  }

  /** The rows of one net contribution, in the order they come. */
  function WithNet(rows: seq<Printed>, net: int): seq<Printed> {
    if rows == [] then []
    else
      var n := |rows| - 1;
      WithNet(rows[..n], net) + if rows[n].net == net then [rows[n]] else []
  }

  /** The same rows: equal nets keep their order, so this and `Descending` leave one possible list. */
  ghost predicate StablyPermutes(rows: seq<Printed>, sorted: seq<Printed>) {
    && |rows| == |sorted|
    && (forall net :: WithNet(sorted, net) == WithNet(rows, net))
    && forall cost: Cost :: PrintedSum(sorted, cost) == PrintedSum(rows, cost)
  }

  function Insert(rows: seq<Printed>, r: Printed): seq<Printed> {
    if rows == [] || rows[|rows| - 1].net >= r.net then rows + [r]
    else Insert(rows[..|rows| - 1], r) + [rows[|rows| - 1]]
  }

  lemma {:induction false} InsertKeepsOrder(rows: seq<Printed>, r: Printed)
    requires Descending(rows)
    ensures Descending(Insert(rows, r)) && |Insert(rows, r)| == |rows| + 1
    ensures forall p <- Insert(rows, r) :: p == r || p in rows
  {
    if rows != [] && rows[|rows| - 1].net < r.net {
      var front, last := rows[..|rows| - 1], rows[|rows| - 1];
      InsertKeepsOrder(front, r);
      assert forall p <- Insert(front, r) :: p.net >= last.net;
    }
  }

  lemma {:induction false} InsertKeepsRows(rows: seq<Printed>, r: Printed, net: int)
    requires Descending(rows)
    ensures WithNet(Insert(rows, r), net) == WithNet(rows, net) + if r.net == net then [r] else []
  {
    var after := Insert(rows, r);
    if rows == [] || rows[|rows| - 1].net >= r.net {
      assert after[..|rows|] == rows;
    } else {
      InsertKeepsRows(rows[..|rows| - 1], r, net);
      assert after[..|after| - 1] == Insert(rows[..|rows| - 1], r);
    }
  }

  lemma {:induction false} InsertKeepsSums(rows: seq<Printed>, r: Printed, cost: Cost)
    ensures PrintedSum(Insert(rows, r), cost) == PrintedSum(rows, cost) + r.Of(cost)
  {
    var after := Insert(rows, r);
    if rows == [] || rows[|rows| - 1].net >= r.net {
      assert after[..|rows|] == rows;
    } else {
      InsertKeepsSums(rows[..|rows| - 1], r, cost);
      assert after[..|after| - 1] == Insert(rows[..|rows| - 1], r);
    }
  }

  lemma {:induction false} InWithNet(rows: seq<Printed>, p: Printed)
    ensures p in WithNet(rows, p.net) <==> p in rows
  {
    if rows != [] {
      InWithNet(rows[..|rows| - 1], p);
    }
  }

  /** Sorting adds no row. */
  lemma SameRows(rows: seq<Printed>, sorted: seq<Printed>, p: Printed)
    requires StablyPermutes(rows, sorted) && p in sorted
    ensures p in rows
  {
    InWithNet(rows, p);
    InWithNet(sorted, p);
  }

  lemma InsertStably(rows: seq<Printed>, sorted: seq<Printed>, r: Printed)
    requires Descending(sorted) && StablyPermutes(rows, sorted)
    ensures Descending(Insert(sorted, r)) && StablyPermutes(rows + [r], Insert(sorted, r))
  {
    assert (rows + [r])[..|rows|] == rows;
    InsertKeepsOrder(sorted, r);
    forall net
      ensures WithNet(Insert(sorted, r), net) == WithNet(rows + [r], net)
    {
      InsertKeepsRows(sorted, r, net);
    }
    forall cost: Cost
      ensures PrintedSum(Insert(sorted, r), cost) == PrintedSum(rows + [r], cost)
    {
      InsertKeepsSums(sorted, r, cost);
    }
  }

  method SortByNet(rows: seq<Printed>) returns (sorted: seq<Printed>)
    ensures Descending(sorted) && StablyPermutes(rows, sorted)
  {
    sorted := [];
    for n := 0 to |rows|
      invariant Descending(sorted) && StablyPermutes(rows[..n], sorted)
    {
      assert rows[..n + 1] == rows[..n] + [rows[n]];
      InsertStably(rows[..n], sorted, rows[n]);
      sorted := Insert(sorted, rows[n]);
    }
    assert rows[..|rows|] == rows;
  }

  /**
   The report. `rows` are its rows before rounding; each printed row tells what the items of its product
   sold and bore. When every order's subtotal is what its lines add up to, each printed cost column is
   within half a paisa a row of that cost over orders: the percentage of all their totals, the flat
   charge for each, and all that was refunded.
   */
  method ProductProfitabilityReport(cfg: Settings, orders: seq<PaidOrder>, items: seq<Item>)
    returns (report: seq<Printed>, ghost rows: seq<Row>)
    requires Known(orders, items)
    ensures Grouped(cfg, orders, items, rows)
    ensures Descending(report) && StablyPermutes(PrintAll(rows), report)
    ensures forall p <- report ::
              Occurs(items, p.key) && TellsSales(items, p) && TellsCosts(cfg, orders, items, p)
    ensures Billed(cfg, orders, Gateway) * 100.0 == TotalsOf(orders) as real * cfg.gatewayFeePercent
    ensures Billed(cfg, orders, Shipping) == |orders| as real * cfg.shippingPerOrder
    ensures Billed(cfg, orders, Refunds) == RefundsOf(orders) as real
    ensures Sound(orders, items) ==> forall cost: Cost ::
              -(|report| as real / 2.0) <= PrintedSum(report, cost) as real - Billed(cfg, orders, cost)
              <= |report| as real / 2.0
  {
    var grouped := GroupByProduct(cfg, orders, items);
    rows := grouped;
    var printed: seq<Printed> := [];
    for n := 0 to |grouped|
      invariant printed == PrintAll(grouped[..n])
    {
      assert grouped[..n + 1][..n] == grouped[..n];
      printed := printed + [Print(grouped[n])];
    }
    assert grouped[..|grouped|] == grouped;
    report := SortByNet(printed);
    forall p | p in report
      ensures Occurs(items, p.key) && TellsSales(items, p) && TellsCosts(cfg, orders, items, p)
    {
      SameRows(printed, report, p);
      RowOf(cfg, orders, items, grouped, p);
    }
    WhatIsBilled(cfg, orders);
    forall cost: Cost | Sound(orders, items)
      ensures -(|report| as real / 2.0) <= PrintedSum(report, cost) as real - Billed(cfg, orders, cost)
              <= |report| as real / 2.0
    {
      RoundingShiftsLittle(rows, cost);
      ItemsBearTheBill(cfg, orders, items, cost);
    }
  }
}
