/**
 Stock counters and the movement ledger, as values.

 Every product and every variant carries two counters, the units on hand and
 the units held for unpaid checkouts. The service functions change them line by
 line, clamping as they go, and write one ledger row for each change. This
 module gives those loops their meaning: `PostLines` and `ReserveLines` say what
 a loop over order lines does one line after the other, and the lemmas show
 what it amounts to for each target, whatever the lines are.
 */
module Stock {
  import opened Wrappers

  /** What a counter belongs to: the product itself, or one of its variants. */
  datatype Target = OfProduct(product: nat) | OfVariant(variant: nat)

  datatype Counter = Counter(stock: nat, reserved: nat) {
    function Available(): nat {
      if stock > reserved then stock - reserved else 0
    }
  }

  /** An order line. Both references are nullable; the variant wins over the product. */
  datatype Line = Line(product: Option<nat>, variant: Option<nat>, quantity: nat) {
    function Target(): Option<Target> {
      if variant.Some? then Some(OfVariant(variant.value))
      else if product.Some? then Some(OfProduct(product.value))
      else None
    }
  }

  datatype Kind = Reserved | Released | Sold | Restocked | Restored | Returned | Adjusted {
    /** Movements of units into or out of the shop that no order makes. */
    predicate External() {
      Restocked? || Returned? || Adjusted?
    }
  }

  /** The document a movement row points back at. */
  datatype Source = OfOrder(order: nat) | OfPurchase(purchase: nat) | OfReturn(request: nat) | Manual

  datatype Movement = Movement(kind: Kind, target: Target, stockDelta: int, reservedDelta: int, source: Source)

  type Counters = map<Target, Counter>

  datatype Inventory = Inventory(counters: Counters, ledger: seq<Movement>)

  datatype Reservation = Held(inventory: Inventory) | Short(target: Target, left: nat)

  // ----- one line -----

  /** One counter after `quantity` units have moved through it, clamps included. */
  function Moved(kind: Kind, c: Counter, quantity: nat): Counter {
    match kind
    case Reserved => c.(reserved := c.reserved + quantity)
    case Released => c.(reserved := c.reserved - Min(quantity, c.reserved))
    case Sold => Counter(if c.stock < quantity then 0 else c.stock - quantity,
                         c.reserved - Min(quantity, c.reserved))
    case _ => c.(stock := c.stock + quantity)
  }

  /** Stores a new counter and the ledger row that accounts for the change. */
  function Post(inv: Inventory, kind: Kind, source: Source, t: Target, c: Counter): Inventory
    requires t in inv.counters
  {
    var was := inv.counters[t];
    Inventory(inv.counters[t := c],
              inv.ledger + [Movement(kind, t, c.stock - was.stock, c.reserved - was.reserved, source)])
  }

  function PostLine(inv: Inventory, kind: Kind, source: Source, line: Line): Inventory
    requires Known(inv.counters, [line])
  {
    match line.Target()
    case None => inv
    case Some(t) =>
      assert line in [line];
      Post(inv, kind, source, t, Moved(kind, inv.counters[t], line.quantity))
  }

  // ----- all lines of an order -----

  /** Foreign keys: whatever a line points at exists. */
  predicate Known(counters: Counters, lines: seq<Line>) {
    forall l <- lines :: l.Target().Some? ==> l.Target().value in counters
  }

  function PostLines(inv: Inventory, kind: Kind, source: Source, lines: seq<Line>): (r: Inventory)
    requires Known(inv.counters, lines)
    ensures r.counters.Keys == inv.counters.Keys
  {
    if lines == [] then inv
    else
      var n := |lines| - 1;
      var rest := PostLines(inv, kind, source, lines[..n]);
      PostLine(rest, kind, source, lines[n])
  }

  function ReserveLines(inv: Inventory, source: Source, lines: seq<Line>): (r: Reservation)
    requires Known(inv.counters, lines)
    ensures r.Held? ==> r.inventory.counters.Keys == inv.counters.Keys
  {
    if lines == [] then Held(inv)
    else
      var n := |lines| - 1;
      var rest := ReserveLines(inv, source, lines[..n]);
      if rest.Short? then rest
      else
        var t := lines[n].Target();
        if t.Some? && rest.inventory.counters[t.value].Available() < lines[n].quantity
        then Short(t.value, rest.inventory.counters[t.value].Available())
        else Held(PostLine(rest.inventory, Reserved, source, lines[n]))
  }

  /** Units of `t` asked for over all lines, repeated targets added up. */
  function Demand(lines: seq<Line>, t: Target): nat {
    if lines == [] then 0
    else
      var n := |lines| - 1;
      Demand(lines[..n], t) + if lines[n].Target() == Some(t) then lines[n].quantity else 0
  }

  predicate Coverable(counters: Counters, lines: seq<Line>) {
    forall t <- counters :: Demand(lines, t) <= counters[t].Available()
  }

  // ----- closed form of the loops -----

  /** The clamping loop is one clamped step by the total for that target. */
  lemma {:induction false} PostLinesClosed(inv: Inventory, kind: Kind, source: Source, lines: seq<Line>, t: Target)
    requires Known(inv.counters, lines) && t in inv.counters
    ensures PostLines(inv, kind, source, lines).counters[t] == Moved(kind, inv.counters[t], Demand(lines, t))
  {
    if lines != [] {
      var n := |lines| - 1;
      PostLinesClosed(inv, kind, source, lines[..n], t);
      LastLineMoves(inv, kind, source, lines, t);
      MovedTwice(kind, inv.counters[t], Demand(lines[..n], t), Demand(lines, t) - Demand(lines[..n], t));
    }
  }

  lemma LastLineMoves(inv: Inventory, kind: Kind, source: Source, lines: seq<Line>, t: Target)
    requires Known(inv.counters, lines) && t in inv.counters && lines != []
    ensures var front := lines[..|lines| - 1];
            && Demand(front, t) <= Demand(lines, t)
            && PostLines(inv, kind, source, lines).counters[t]
               == Moved(kind, PostLines(inv, kind, source, front).counters[t], Demand(lines, t) - Demand(front, t))
  {
  }

  lemma MovedTwice(kind: Kind, c: Counter, a: nat, b: nat)
    ensures Moved(kind, Moved(kind, c, a), b) == Moved(kind, c, a + b)
  {
  }

  /** `reserve_stock` succeeds exactly when every target's total is available, and then posts every line. */
  lemma {:induction false} ReserveLinesClosed(inv: Inventory, source: Source, lines: seq<Line>)
    requires Known(inv.counters, lines)
    ensures ReserveLines(inv, source, lines).Held? <==> Coverable(inv.counters, lines)
    ensures Coverable(inv.counters, lines)
            ==> ReserveLines(inv, source, lines) == Held(PostLines(inv, Reserved, source, lines))
  {
    if lines != [] {
      var n := |lines| - 1;
      var front, last := lines[..n], lines[n];
      ReserveLinesClosed(inv, source, front);
      assert forall t <- inv.counters :: Demand(front, t) <= Demand(lines, t);
      if Coverable(inv.counters, front) && last.Target().Some? {
        var t := last.Target().value;
        PostLinesClosed(inv, Reserved, source, front, t);
        assert Demand(lines, t) == Demand(front, t) + last.quantity;
        assert forall u <- inv.counters | u != t :: Demand(lines, u) == Demand(front, u);
      } else if Coverable(inv.counters, front) {
        assert forall u <- inv.counters :: Demand(lines, u) == Demand(front, u);
      }
    }
  }

  /** What the error reports: a line's target, and what earlier lines had left of it. */
  lemma {:induction false} ShortReport(inv: Inventory, source: Source, lines: seq<Line>)
    requires Known(inv.counters, lines)
    requires ReserveLines(inv, source, lines).Short?
    ensures var Short(t, left) := ReserveLines(inv, source, lines);
            t in inv.counters
            && exists k | 0 <= k < |lines| ::
                 && lines[k].Target() == Some(t)
                 && Coverable(inv.counters, lines[..k])
                 && left == inv.counters[t].Available() - Demand(lines[..k], t) < lines[k].quantity
  {
    var n := |lines| - 1;
    var front := lines[..n];
    if ReserveLines(inv, source, front).Short? {
      ShortReport(inv, source, front);
      var t, left := ReserveLines(inv, source, front).target, ReserveLines(inv, source, front).left;
      var k :| 0 <= k < n && front[k].Target() == Some(t) && Coverable(inv.counters, front[..k])
               && left == inv.counters[t].Available() - Demand(front[..k], t) < front[k].quantity;
      assert front[..k] == lines[..k];
    } else {
      ReserveLinesClosed(inv, source, front);
      var t := lines[n].Target().value;
      PostLinesClosed(inv, Reserved, source, front, t);
    }
  }

  lemma {:induction false} DemandConcat(a: seq<Line>, b: seq<Line>, t: Target)
    ensures Demand(a + b, t) == Demand(a, t) + Demand(b, t)
  {
    if b == [] {
      assert a + b == a;
    } else {
      var n := |b| - 1;
      DemandConcat(a, b[..n], t);
      assert (a + b)[..|a + b| - 1] == a + b[..n];
    }
  }

  lemma DemandWithout(b: seq<Line>, k: nat, t: Target)
    requires k < |b|
    ensures Demand(b, t) == Demand(b[..k] + b[k + 1..], t) + Demand([b[k]], t)
    ensures multiset(b) == multiset(b[..k] + b[k + 1..]) + multiset{b[k]}
  {
    DemandConcat(b[..k], b[k + 1..], t);
    DemandConcat(b[..k], [b[k]], t);
    DemandConcat(b[..k] + [b[k]], b[k + 1..], t);
    assert b == b[..k] + [b[k]] + b[k + 1..];
  }

  lemma {:induction false} DemandPermutes(a: seq<Line>, b: seq<Line>, t: Target)
    requires multiset(a) == multiset(b)
    ensures Demand(a, t) == Demand(b, t)
  {
    if a == [] {
      assert |multiset(b)| == 0;
    } else {
      assert a[0] in multiset(b);
      var k :| 0 <= k < |b| && b[k] == a[0];
      DemandWithout(a, 0, t);
      DemandWithout(b, k, t);
      var a', b' := a[..0] + a[1..], b[..k] + b[k + 1..];
      assert multiset(a') == multiset(a) - multiset{a[0]};
      assert multiset(b') == multiset(b) - multiset{b[k]};
      DemandPermutes(a', b', t);
    }
  }

  // ----- which counter a line moves -----

  /** Units on lines of one variant. */
  function VariantUnits(lines: seq<Line>, v: nat): nat {
    if lines == [] then 0
    else
      var n := |lines| - 1;
      VariantUnits(lines[..n], v) + if lines[n].variant == Some(v) then lines[n].quantity else 0
  }

  /** Units on lines of one product that name no variant. */
  function ProductUnits(lines: seq<Line>, p: nat): nat {
    if lines == [] then 0
    else
      var n := |lines| - 1;
      ProductUnits(lines[..n], p)
      + if lines[n].variant == None && lines[n].product == Some(p) then lines[n].quantity else 0
  }

  /** What the lines ask of a counter, by the keys they carry. */
  function UnitsFor(lines: seq<Line>, t: Target): nat {
    match t
    case OfVariant(v) => VariantUnits(lines, v)
    case OfProduct(p) => ProductUnits(lines, p)
  }

  /** A line with a variant draws on the variant's counter, one without on its product's. */
  lemma {:induction false} DemandByKeys(lines: seq<Line>, t: Target)
    ensures Demand(lines, t) == UnitsFor(lines, t)
  {
    if lines != [] {
      DemandByKeys(lines[..|lines| - 1], t);
    }
  }

  /** One line asks for its units where its keys say, and nowhere else. */
  lemma OneLineUnits(l: Line)
    ensures forall v: nat :: VariantUnits([l], v) == if l.variant == Some(v) then l.quantity else 0
    ensures forall p: nat ::
              ProductUnits([l], p) == if l.variant == None && l.product == Some(p) then l.quantity else 0
  {
    assert [l][..0] == [];
  }

  /** Lines can be covered exactly when every counter they draw on has their units beside what is held. */
  lemma CoverableByKeys(counters: Counters, lines: seq<Line>)
    ensures Coverable(counters, lines)
            <==> forall t <- counters ::
                   UnitsFor(lines, t) == 0 || counters[t].reserved + UnitsFor(lines, t) <= counters[t].stock
  {
    forall t | t in counters
      ensures Demand(lines, t) <= counters[t].Available()
              <==> UnitsFor(lines, t) == 0 || counters[t].reserved + UnitsFor(lines, t) <= counters[t].stock
    {
      DemandByKeys(lines, t);
    }
  }

  /** Lines whose product and variant are both deleted move nothing and leave no row. */
  lemma {:induction false} KeylessLinesMoveNothing(inv: Inventory, kind: Kind, source: Source, lines: seq<Line>)
    requires forall l <- lines :: l.product == None && l.variant == None
    ensures Known(inv.counters, lines) && PostLines(inv, kind, source, lines) == inv
    ensures ReserveLines(inv, source, lines) == Held(inv)
  {
    if lines != [] {
      assert lines[|lines| - 1] in lines;
      KeylessLinesMoveNothing(inv, kind, source, lines[..|lines| - 1]);
    }
  }

  /** Line order does not matter: permuted lines reserve alike and leave the same counters. */
  lemma LineOrderIrrelevant(inv: Inventory, kind: Kind, source: Source, a: seq<Line>, b: seq<Line>)
    requires Known(inv.counters, a) && Known(inv.counters, b)
    requires multiset(a) == multiset(b)
    ensures PostLines(inv, kind, source, a).counters == PostLines(inv, kind, source, b).counters
    ensures ReserveLines(inv, source, a).Held? <==> ReserveLines(inv, source, b).Held?
  {
    forall t | t in inv.counters
      ensures Demand(a, t) == Demand(b, t)
      ensures PostLines(inv, kind, source, a).counters[t] == PostLines(inv, kind, source, b).counters[t]
    {
      DemandPermutes(a, b, t);
      PostLinesClosed(inv, kind, source, a, t);
      PostLinesClosed(inv, kind, source, b, t);
    }
    ReserveLinesClosed(inv, source, a);
    ReserveLinesClosed(inv, source, b);
  }

  // ----- round trips -----

  /** Reserve then release gives every counter back. */
  lemma ReserveReleaseRoundTrip(inv: Inventory, source: Source, lines: seq<Line>)
    requires Known(inv.counters, lines) && ReserveLines(inv, source, lines).Held?
    ensures PostLines(ReserveLines(inv, source, lines).inventory, Released, source, lines).counters == inv.counters
  {
    var held := ReserveLines(inv, source, lines).inventory;
    ReserveLinesClosed(inv, source, lines);
    forall t | t in inv.counters
      ensures PostLines(held, Released, source, lines).counters[t] == inv.counters[t]
    {
      PostLinesClosed(inv, Reserved, source, lines, t);
      PostLinesClosed(held, Released, source, lines, t);
    }
  }

  /** Reserve, convert to a sale, then restore gives every counter back. */
  lemma ReserveSellRestoreRoundTrip(inv: Inventory, source: Source, lines: seq<Line>)
    requires Known(inv.counters, lines) && ReserveLines(inv, source, lines).Held?
    ensures var sold := PostLines(ReserveLines(inv, source, lines).inventory, Sold, source, lines);
            PostLines(sold, Restored, source, lines).counters == inv.counters
  {
    ReserveLinesClosed(inv, source, lines);
    var sold := PostLines(PostLines(inv, Reserved, source, lines), Sold, source, lines);
    forall t | t in inv.counters
      ensures PostLines(sold, Restored, source, lines).counters[t] == inv.counters[t]
    {
      SoldAndBack(inv, source, lines, t);
    }
  }

  lemma SoldAndBack(inv: Inventory, source: Source, lines: seq<Line>, t: Target)
    requires Known(inv.counters, lines) && t in inv.counters && Demand(lines, t) <= inv.counters[t].Available()
    ensures var held := PostLines(inv, Reserved, source, lines);
            PostLines(PostLines(held, Sold, source, lines), Restored, source, lines).counters[t] == inv.counters[t]
  {
    var held := PostLines(inv, Reserved, source, lines);
    PostLinesClosed(inv, Reserved, source, lines, t);
    PostLinesClosed(held, Sold, source, lines, t);
    PostLinesClosed(PostLines(held, Sold, source, lines), Restored, source, lines, t);
  }

  // ----- the other service functions -----

  /** A supplier delivery or a resellable return: a positive quantity put on the shelf. */
  function PutAway(inv: Inventory, kind: Kind, source: Source, t: Target, quantity: int): Inventory {
    if quantity <= 0 || t !in inv.counters then inv
    else Post(inv, kind, source, t, Moved(kind, inv.counters[t], quantity))
  }

  /** A manual correction; the on-hand count is floored at zero. */
  function Adjust(inv: Inventory, t: Target, delta: int): Inventory {
    if delta == 0 || t !in inv.counters then inv
    else
      var c := inv.counters[t];
      Post(inv, Adjusted, Manual, t, c.(stock := Max(c.stock + delta, 0)))
  }

  /** A correction taken back restores every counter exactly when it never hit the floor. */
  lemma CorrectionsComeBack(inv: Inventory, t: Target, delta: int)
    requires t in inv.counters
    ensures Adjust(Adjust(inv, t, delta), t, 0 - delta).counters == inv.counters <==> inv.counters[t].stock + delta >= 0
  {
    var back := Adjust(Adjust(inv, t, delta), t, 0 - delta);
    if delta != 0 {
      assert back.counters[t].stock == Max(Max(inv.counters[t].stock + delta, 0) - delta, 0);
      assert back.counters[t].reserved == inv.counters[t].reserved;
    }
  }

  // ----- the ledger replays -----

  function StockSum(ledger: seq<Movement>, t: Target): int {
    if ledger == [] then 0
    else
      var n := |ledger| - 1;
      StockSum(ledger[..n], t) + if ledger[n].target == t then ledger[n].stockDelta else 0
  }

  function ReservedSum(ledger: seq<Movement>, t: Target): int {
    if ledger == [] then 0
    else
      var n := |ledger| - 1;
      ReservedSum(ledger[..n], t) + if ledger[n].target == t then ledger[n].reservedDelta else 0
  }

  /** The counters are the opening counters plus the sums of their own ledger rows. */
  ghost predicate Replays(opening: Counters, inv: Inventory) {
    && inv.counters.Keys == opening.Keys
    && forall t <- opening ::
         && inv.counters[t].stock == opening[t].stock + StockSum(inv.ledger, t)
         && inv.counters[t].reserved == opening[t].reserved + ReservedSum(inv.ledger, t)
  }

  lemma PostReplays(opening: Counters, inv: Inventory, kind: Kind, source: Source, t: Target, c: Counter)
    requires Replays(opening, inv) && t in inv.counters
    ensures Replays(opening, Post(inv, kind, source, t, c))
  {
  }

  lemma {:induction false} PostLinesReplays(opening: Counters, inv: Inventory, kind: Kind, source: Source,
                                            lines: seq<Line>)
    requires Replays(opening, inv) && Known(inv.counters, lines)
    ensures Replays(opening, PostLines(inv, kind, source, lines))
  {
    if lines != [] {
      var n := |lines| - 1;
      var rest := PostLines(inv, kind, source, lines[..n]);
      PostLinesReplays(opening, inv, kind, source, lines[..n]);
      if lines[n].Target().Some? {
        var t := lines[n].Target().value;
        PostReplays(opening, rest, kind, source, t, Moved(kind, rest.counters[t], lines[n].quantity));
      }
    }
  }

  // ----- the rows one order leaves -----

  /** The targets of the rows of one kind written for one order, oldest first. */
  function OrderRows(ledger: seq<Movement>, order: nat, kind: Kind): seq<Target> {
    if ledger == [] then []
    else
      var n := |ledger| - 1;
      OrderRows(ledger[..n], order, kind)
      + if ledger[n].kind == kind && ledger[n].source == OfOrder(order) then [ledger[n].target] else []
  }

  function LineTargets(lines: seq<Line>): seq<Target> {
    if lines == [] then []
    else
      var n := |lines| - 1;
      LineTargets(lines[..n]) + if lines[n].Target().Some? then [lines[n].Target().value] else []
  }

  lemma PostRows(inv: Inventory, kind: Kind, source: Source, t: Target, c: Counter, other: nat, k: Kind)
    requires t in inv.counters
    ensures OrderRows(Post(inv, kind, source, t, c).ledger, other, k)
            == OrderRows(inv.ledger, other, k) + if source == OfOrder(other) && k == kind then [t] else []
  {
    var after := Post(inv, kind, source, t, c);
    assert after.ledger[..|after.ledger| - 1] == inv.ledger;
  }

  lemma PostLineRows(inv: Inventory, kind: Kind, order: nat, line: Line, other: nat, k: Kind)
    requires Known(inv.counters, [line])
    ensures OrderRows(PostLine(inv, kind, OfOrder(order), line).ledger, other, k)
            == OrderRows(inv.ledger, other, k)
               + if other == order && k == kind && line.Target().Some? then [line.Target().value] else []
  {
    assert line in [line];
    if line.Target().Some? {
      var t := line.Target().value;
      PostRows(inv, kind, OfOrder(order), t, Moved(kind, inv.counters[t], line.quantity), other, k);
    }
  }

  lemma {:induction false} PostLinesRows(inv: Inventory, kind: Kind, order: nat, lines: seq<Line>, other: nat, k: Kind)
    requires Known(inv.counters, lines)
    ensures OrderRows(PostLines(inv, kind, OfOrder(order), lines).ledger, other, k)
            == OrderRows(inv.ledger, other, k) + if other == order && k == kind then LineTargets(lines) else []
  {
    if lines != [] {
      var n := |lines| - 1;
      PostLinesRows(inv, kind, order, lines[..n], other, k);
      PostLineRows(PostLines(inv, kind, OfOrder(order), lines[..n]), kind, order, lines[n], other, k);
    }
  }

  function ExactRow(order: nat, line: Line): seq<Movement> {
    match line.Target()
    case None => []
    case Some(t) => [Movement(Sold, t, 0 - line.quantity, 0 - line.quantity, OfOrder(order))]
  }

  /** The rows a sale would leave if no clamp were ever hit: minus the ordered units on both counters. */
  function ExactSale(order: nat, lines: seq<Line>): seq<Movement> {
    if lines == [] then []
    else ExactSale(order, lines[..|lines| - 1]) + ExactRow(order, lines[|lines| - 1])
  }

  /** Every unit sold is both held and on hand. */
  predicate Covered(counters: Counters, lines: seq<Line>) {
    forall t <- counters :: Demand(lines, t) <= counters[t].reserved && Demand(lines, t) <= counters[t].stock
  }

  /** A sold line leaves its exact row exactly when its units are both held and on hand. */
  lemma LineIsExact(inv: Inventory, order: nat, line: Line)
    requires Known(inv.counters, [line])
    ensures |PostLine(inv, Sold, OfOrder(order), line).ledger| == |inv.ledger| + |ExactRow(order, line)|
    ensures PostLine(inv, Sold, OfOrder(order), line).ledger == inv.ledger + ExactRow(order, line)
            <==> (line.Target().Some? ==>
                    && line.Target().value in inv.counters
                    && line.quantity <= inv.counters[line.Target().value].reserved
                    && line.quantity <= inv.counters[line.Target().value].stock)
  {
    assert line in [line];
    if line.Target().Some? {
      var after := PostLine(inv, Sold, OfOrder(order), line).ledger;
      assert after[|inv.ledger|] == (inv.ledger + ExactRow(order, line))[|inv.ledger|]
             <==> after[|inv.ledger|] == ExactRow(order, line)[0];
    }
  }

  lemma {:induction false} SaleRowCount(inv: Inventory, order: nat, lines: seq<Line>)
    requires Known(inv.counters, lines)
    ensures |PostLines(inv, Sold, OfOrder(order), lines).ledger| == |inv.ledger| + |ExactSale(order, lines)|
    ensures inv.ledger <= PostLines(inv, Sold, OfOrder(order), lines).ledger
  {
    if lines != [] {
      var front, last := lines[..|lines| - 1], lines[|lines| - 1];
      SaleRowCount(inv, order, front);
      LineIsExact(PostLines(inv, Sold, OfOrder(order), front), order, last);
    }
  }

  lemma CoveredOneMore(counters: Counters, lines: seq<Line>)
    requires lines != [] && Known(counters, lines)
    ensures var front, last := lines[..|lines| - 1], lines[|lines| - 1];
            Covered(counters, lines)
            <==> Covered(counters, front)
                 && (last.Target().Some? ==>
                       var t := last.Target().value;
                       && Demand(front, t) + last.quantity <= counters[t].reserved
                       && Demand(front, t) + last.quantity <= counters[t].stock)
  {
    var front, last := lines[..|lines| - 1], lines[|lines| - 1];
    assert last in lines;
    forall t | t in counters
      ensures Demand(lines, t) == Demand(front, t) + if last.Target() == Some(t) then last.quantity else 0
    {
    }
  }

  /** No line of a sale reaches a floor exactly when, for every target, all its units are held and on hand. */
  lemma {:induction false} SaleIsExact(inv: Inventory, order: nat, lines: seq<Line>)
    requires Known(inv.counters, lines)
    ensures PostLines(inv, Sold, OfOrder(order), lines).ledger == inv.ledger + ExactSale(order, lines)
            <==> Covered(inv.counters, lines)
  {
    if lines == [] {
    } else {
      var front, last := lines[..|lines| - 1], lines[|lines| - 1];
      var mid := PostLines(inv, Sold, OfOrder(order), front);
      SaleIsExact(inv, order, front);
      SaleRowCount(inv, order, front);
      LineIsExact(mid, order, last);
      CoveredOneMore(inv.counters, lines);
      ExactInParts(mid.ledger, inv.ledger + ExactSale(order, front),
                   PostLine(mid, Sold, OfOrder(order), last).ledger, ExactRow(order, last));
      if last.Target().Some? {
        PostLinesClosed(inv, Sold, OfOrder(order), front, last.Target().value);
      }
    }
  }

  /** Ledgers that agree row for row agree before the last line, and on it. */
  lemma ExactInParts(mid: seq<Movement>, expected: seq<Movement>, end: seq<Movement>, row: seq<Movement>)
    requires mid <= end && |mid| == |expected| && |end| == |mid| + |row|
    ensures end == expected + row <==> mid == expected && end == mid + row
  {
    assert end[..|mid|] == mid;
    assert (expected + row)[..|expected|] == expected;
  }
}
