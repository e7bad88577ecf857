/**
 Purchase orders: what a receipt books, and what a drafted reorder is good for.

 A receipt works on the line the caller loaded earlier: its guard and the count
 it stores come from that copy, while the units go on the shelf for real. The
 lemmas say exactly when the ledger and the line still agree afterwards, what
 the status means, and when a fully received low-stock draft really lifts a
 product above its threshold.
 */
module Purchasing {
  import opened Wrappers
  import opened Stock

  datatype Status = Draft | Ordered | PartlyReceived | Received | Cancelled

  datatype Wanted = Wanted(product: nat, variant: Option<nat>, quantity: nat) {
    function Shelf(): Target {
      if variant.Some? then OfVariant(variant.value) else OfProduct(product)
    }
  }

  datatype BoughtLine = BoughtLine(wanted: Wanted, received: nat) {
    predicate Complete() {
      received >= wanted.quantity
    }
  }

  datatype Purchase = Purchase(lines: seq<BoughtLine>, status: Status) {
    predicate Complete() {
      lines != [] && forall l <- lines :: l.Complete()
    }

    predicate Begun() {
      exists l <- lines :: l.received > 0
    }
  }

  datatype Books = Books(purchases: seq<Purchase>, inventory: Inventory)

  /** `seen` is what the caller's copy says: the order's status, or the line's received count. */
  datatype Step =
    | Place(wanted: seq<Wanted>)
    | MarkOrdered(purchase: nat, status: Status)
    | Receive(purchase: nat, line: nat, seen: nat, quantity: int)
    | Elsewhere(kind: Kind, source: Source, target: Target, counter: Counter)

  ghost predicate Valid(b: Books) {
    forall p <- b.purchases :: forall l <- p.lines :: l.wanted.Shelf() in b.inventory.counters
  }

  // ----- the service -----

  predicate Stocked(counters: Counters, wanted: seq<Wanted>) {
    forall w <- wanted :: w.Shelf() in counters
  }

  /** Received units go to the counter a sale of the same product and variant takes from. */
  lemma ReceiptsGoWhereSalesComeFrom(w: Wanted, t: Target)
    ensures UnitsFor([Line(Some(w.product), w.variant, w.quantity)], t) == if t == w.Shelf() then w.quantity else 0
  {
    OneLineUnits(Line(Some(w.product), w.variant, w.quantity));
  }

  function Opened(wanted: seq<Wanted>): (lines: seq<BoughtLine>)
    ensures |lines| == |wanted| && forall k | 0 <= k < |wanted| :: lines[k] == BoughtLine(wanted[k], 0)
  {
    if wanted == [] then []
    else Opened(wanted[..|wanted| - 1]) + [BoughtLine(wanted[|wanted| - 1], 0)]
  }

  predicate Accepts(b: Books, step: Step) {
    step.Receive? && step.purchase < |b.purchases| && step.line < |b.purchases[step.purchase].lines|
    && 0 < step.quantity <= b.purchases[step.purchase].lines[step.line].wanted.quantity - step.seen
  }

  function AfterReceipt(p: Purchase, k: nat, received: nat): Purchase
    requires k < |p.lines|
  {
    var p' := p.(lines := p.lines[k := p.lines[k].(received := received)]);
    if p'.Complete() then p'.(status := Received)
    else if p'.Begun() then p'.(status := PartlyReceived) else p'
  }

  function Do(b: Books, step: Step): Books {
    match step
    case Place(wanted) =>
      if wanted == [] || !Stocked(b.inventory.counters, wanted) then b
      else b.(purchases := b.purchases + [Purchase(Opened(wanted), Draft)])
    case MarkOrdered(p, status) =>
      if p >= |b.purchases| || status != Draft then b
      else b.(purchases := b.purchases[p := b.purchases[p].(status := Ordered)])
    case Receive(p, k, seen, quantity) =>
      if !Accepts(b, step) then b
      else
        var shelf := b.purchases[p].lines[k].wanted.Shelf();
        Books(b.purchases[p := AfterReceipt(b.purchases[p], k, seen + quantity)],
              PutAway(b.inventory, Restocked, OfPurchase(p), shelf, quantity))
    case Elsewhere(kind, source, t, c) =>
      if t !in b.inventory.counters || source.OfPurchase? then b
      else b.(inventory := Post(b.inventory, kind, source, t, c))
  }

  function Run(b: Books, steps: seq<Step>): Books {
    if steps == [] then b else Do(Run(b, steps[..|steps| - 1]), steps[|steps| - 1])
  }

  lemma DoValid(b: Books, step: Step)
    requires Valid(b)
    ensures Valid(Do(b, step))
  {
  }

  // ----- the ledger agrees with the lines -----

  function ReceivedOn(lines: seq<BoughtLine>, t: Target): nat {
    if lines == [] then 0
    else
      var n := |lines| - 1;
      ReceivedOn(lines[..n], t) + if lines[n].wanted.Shelf() == t then lines[n].received else 0
  }

  function OrderedOn(lines: seq<BoughtLine>, t: Target): nat {
    if lines == [] then 0
    else
      var n := |lines| - 1;
      OrderedOn(lines[..n], t) + if lines[n].wanted.Shelf() == t then lines[n].wanted.quantity else 0
  }

  /** Units the ledger says were restocked on one shelf under one purchase order. */
  function RestockedUnder(ledger: seq<Movement>, p: nat, t: Target): int {
    if ledger == [] then 0
    else
      var n := |ledger| - 1;
      var m := ledger[n];
      RestockedUnder(ledger[..n], p, t)
      + if m.kind == Restocked && m.source == OfPurchase(p) && m.target == t then m.stockDelta else 0
  }

  ghost predicate Agree(b: Books, p: nat, t: Target)
    requires p < |b.purchases|
  {
    RestockedUnder(b.inventory.ledger, p, t) == ReceivedOn(b.purchases[p].lines, t)
  }

  ghost predicate Balanced(b: Books) {
    && (forall p: nat, t | p < |b.purchases| :: Agree(b, p, t))
    && (forall p: nat, t | p >= |b.purchases| :: RestockedUnder(b.inventory.ledger, p, t) == 0)
  }

  /** The receipt was made against a copy of the line that is no longer true. */
  predicate Stale(b: Books, step: Step) {
    Accepts(b, step) && step.seen != b.purchases[step.purchase].lines[step.line].received
  }

  lemma {:induction false} ReceivedReplaced(lines: seq<BoughtLine>, k: nat, received: nat, t: Target)
    requires k < |lines|
    ensures ReceivedOn(lines[k := lines[k].(received := received)], t)
            == ReceivedOn(lines, t)
               + if lines[k].wanted.Shelf() == t then received - lines[k].received else 0
    ensures OrderedOn(lines[k := lines[k].(received := received)], t) == OrderedOn(lines, t)
  {
    var n := |lines| - 1;
    var lines' := lines[k := lines[k].(received := received)];
    if k == n {
      assert lines'[..n] == lines[..n];
    } else {
      ReceivedReplaced(lines[..n], k, received, t);
      assert lines'[..n] == lines[..n][k := lines[k].(received := received)];
    }
  }

  lemma {:induction false} NothingReceived(wanted: seq<Wanted>, t: Target)
    ensures ReceivedOn(Opened(wanted), t) == 0
  {
    if wanted != [] {
      var n := |wanted| - 1;
      assert Opened(wanted)[..n] == Opened(wanted[..n]);
      NothingReceived(wanted[..n], t);
    }
  }

  lemma RestockRow(inv: Inventory, order: nat, shelf: Target, quantity: nat, p: nat, t: Target)
    requires shelf in inv.counters && quantity > 0
    ensures RestockedUnder(PutAway(inv, Restocked, OfPurchase(order), shelf, quantity).ledger, p, t)
            == RestockedUnder(inv.ledger, p, t) + if order == p && shelf == t then quantity else 0
  {
    var ledger := PutAway(inv, Restocked, OfPurchase(order), shelf, quantity).ledger;
    assert ledger[..|inv.ledger|] == inv.ledger;
  }

  lemma OtherRow(ledger: seq<Movement>, m: Movement, p: nat, t: Target)
    requires !m.source.OfPurchase?
    ensures RestockedUnder(ledger + [m], p, t) == RestockedUnder(ledger, p, t)
  {
  }

  /** The rows a step adds, seen from one purchase order and one shelf. */
  lemma RowsStep(b: Books, step: Step, p: nat, t: Target)
    requires Valid(b)
    ensures RestockedUnder(Do(b, step).inventory.ledger, p, t)
            == RestockedUnder(b.inventory.ledger, p, t)
               + if Accepts(b, step) && step.purchase == p
                    && b.purchases[p].lines[step.line].wanted.Shelf() == t then step.quantity else 0
  {
    if Accepts(b, step) {
      var lines := b.purchases[step.purchase].lines;
      assert b.purchases[step.purchase] in b.purchases && lines[step.line] in lines;
      RestockRow(b.inventory, step.purchase, lines[step.line].wanted.Shelf(), step.quantity, p, t);
    } else if step.Elsewhere? && Do(b, step) != b {
      var ledger' := Do(b, step).inventory.ledger;
      OtherRow(b.inventory.ledger, ledger'[|b.inventory.ledger|], p, t);
    }
  }

  lemma ReceivedStep(b: Books, step: Step, p: nat, t: Target)
    requires p < |Do(b, step).purchases|
    ensures ReceivedOn(Do(b, step).purchases[p].lines, t)
            == (if p < |b.purchases| then ReceivedOn(b.purchases[p].lines, t) else 0)
               + (if Accepts(b, step) && step.purchase == p
                     && b.purchases[p].lines[step.line].wanted.Shelf() == t
                  then step.seen + step.quantity - b.purchases[p].lines[step.line].received else 0)
  {
    if p == |b.purchases| {
      NothingReceived(step.wanted, t);
    } else if Accepts(b, step) && step.purchase == p {
      ReceivedReplaced(b.purchases[p].lines, step.line, step.seen + step.quantity, t);
    }
  }

  lemma AgreeStep(b: Books, step: Step, p: nat, t: Target)
    requires Valid(b) && Balanced(b) && p < |Do(b, step).purchases|
    ensures Agree(Do(b, step), p, t)
            <==> !(Stale(b, step) && step.purchase == p
                   && b.purchases[p].lines[step.line].wanted.Shelf() == t)
  {
    RowsStep(b, step, p, t);
    ReceivedStep(b, step, p, t);
    if p < |b.purchases| {
      assert Agree(b, p, t);
    }
  }

  /** Restocked rows and received counts stay equal, shelf by shelf, exactly when no receipt used a stale copy. */
  lemma BalancedStep(b: Books, step: Step)
    requires Valid(b) && Balanced(b)
    ensures Balanced(Do(b, step)) <==> !Stale(b, step)
  {
    var b' := Do(b, step);
    forall p: nat, t | p < |b'.purchases|
      ensures Agree(b', p, t)
              <==> !(Stale(b, step) && step.purchase == p
                     && b.purchases[p].lines[step.line].wanted.Shelf() == t)
    {
      AgreeStep(b, step, p, t);
    }
    forall p: nat, t | p >= |b'.purchases|
      ensures RestockedUnder(b'.inventory.ledger, p, t) == 0
    {
      RowsStep(b, step, p, t);
    }
    if Stale(b, step) {
      assert !Agree(b', step.purchase, b.purchases[step.purchase].lines[step.line].wanted.Shelf());
    }
  }

  // ----- never more than ordered -----

  ghost predicate Within(b: Books) {
    forall p <- b.purchases :: forall l <- p.lines :: l.received <= l.wanted.quantity
  }

  lemma WithinStep(b: Books, step: Step)
    requires Within(b)
    ensures Within(Do(b, step))
  {
  }

  lemma {:induction false} ReceivedAtMostOrdered(lines: seq<BoughtLine>, t: Target)
    requires forall l <- lines :: l.received <= l.wanted.quantity
    ensures ReceivedOn(lines, t) <= OrderedOn(lines, t)
    ensures (forall l <- lines :: l.Complete()) ==> ReceivedOn(lines, t) == OrderedOn(lines, t)
  {
    if lines != [] {
      assert lines[|lines| - 1] in lines;
      ReceivedAtMostOrdered(lines[..|lines| - 1], t);
    }
  }

  // ----- what the status says -----

  predicate Told(p: Purchase) {
    && (p.status == Received ==> p.Complete())
    && (p.Begun() ==> p.status == if p.Complete() then Received else PartlyReceived)
  }

  /** Marking an order as ordered from a copy taken before its first receipt. */
  predicate Undoes(b: Books, step: Step) {
    step.MarkOrdered? && step.status == Draft && step.purchase < |b.purchases|
    && b.purchases[step.purchase].Begun()
  }

  lemma ReceiptIsTold(p: Purchase, k: nat, received: nat)
    requires k < |p.lines| && received > 0
    ensures var p' := AfterReceipt(p, k, received);
            && Told(p') && p'.Begun() && |p'.lines| == |p.lines|
            && p'.lines == p.lines[k := BoughtLine(p.lines[k].wanted, received)]
            && p'.status == if forall l <- p'.lines :: l.received >= l.wanted.quantity then Received else PartlyReceived
  {
    var p' := AfterReceipt(p, k, received);
    assert p'.lines[k].received > 0 && p'.lines[k] in p'.lines;
  }

  /** An accepted receipt, field by field: the count, the status, and the one counter its units go to. */
  lemma ReceiptSays(b: Books, p: nat, k: nat, seen: nat, quantity: int)
    requires Valid(b) && Accepts(b, Receive(p, k, seen, quantity))
    ensures var b' := Do(b, Receive(p, k, seen, quantity));
            var line := b.purchases[p].lines[k];
            var t := if line.wanted.variant.Some? then OfVariant(line.wanted.variant.value)
                     else OfProduct(line.wanted.product);
            && Valid(b') && |b'.purchases| == |b.purchases|
            && b'.purchases[p].lines == b.purchases[p].lines[k := BoughtLine(line.wanted, seen + quantity)]
            && b'.purchases[p].status == (if forall l <- b'.purchases[p].lines :: l.received >= l.wanted.quantity
                                          then Received else PartlyReceived)
            && t == line.wanted.Shelf() && t in b.inventory.counters
            && b'.inventory.counters == b.inventory.counters[t := Counter(b.inventory.counters[t].stock + quantity,
                                                                          b.inventory.counters[t].reserved)]
  {
    assert b.purchases[p] in b.purchases && b.purchases[p].lines[k] in b.purchases[p].lines;
    DoValid(b, Receive(p, k, seen, quantity));
    ReceiptIsTold(b.purchases[p], k, seen + quantity);
  }

  /** After any step the statuses still tell what was received, unless a stale "ordered" wiped one. */
  lemma ToldStep(b: Books, step: Step)
    requires forall p <- b.purchases :: Told(p)
    ensures (forall p <- Do(b, step).purchases :: Told(p)) <==> !Undoes(b, step)
  {
    var b' := Do(b, step);
    if step.Place? && b' != b {
      var p := Purchase(Opened(step.wanted), Draft);
      assert !p.Begun();
      assert forall q <- b'.purchases :: q in b.purchases || q == p;
    } else if step.MarkOrdered? && step.status == Draft && step.purchase < |b.purchases| {
      var p, p' := b.purchases[step.purchase], b'.purchases[step.purchase];
      assert p in b.purchases && p' in b'.purchases;
      assert p'.Begun() == p.Begun();
      assert forall q <- b'.purchases :: q in b.purchases || q == p';
    } else if Accepts(b, step) {
      var p' := b'.purchases[step.purchase];
      ReceiptIsTold(b.purchases[step.purchase], step.line, step.seen + step.quantity);
      assert forall q <- b'.purchases :: q in b.purchases || q == p';
    }
  }

  // ----- whole runs -----

  /** Every receipt of the run works on a current copy of its line. */
  ghost predicate Current(b: Books, steps: seq<Step>) {
    steps == []
    || (Current(b, steps[..|steps| - 1]) && !Stale(Run(b, steps[..|steps| - 1]), steps[|steps| - 1]))
  }

  lemma {:induction false} EveryRunWithin(b: Books, steps: seq<Step>)
    requires Valid(b) && Within(b)
    ensures Valid(Run(b, steps)) && Within(Run(b, steps))
  {
    if steps != [] {
      EveryRunWithin(b, steps[..|steps| - 1]);
      DoValid(Run(b, steps[..|steps| - 1]), steps[|steps| - 1]);
      WithinStep(Run(b, steps[..|steps| - 1]), steps[|steps| - 1]);
    }
  }

  lemma {:induction false} BalancedRun(b: Books, steps: seq<Step>)
    requires Valid(b) && Balanced(b) && Within(b) && Current(b, steps)
    ensures Balanced(Run(b, steps))
  {
    if steps != [] {
      BalancedRun(b, steps[..|steps| - 1]);
      EveryRunWithin(b, steps[..|steps| - 1]);
      BalancedStep(Run(b, steps[..|steps| - 1]), steps[|steps| - 1]);
    }
  }

  /**
   Over any run from empty books, with any other stock movements between: the units the ledger ties
   to a purchase order are the units its lines say were received, and no more than were ordered.
   */
  lemma EveryRunBalanced(opening: Counters, steps: seq<Step>, p: nat, t: Target)
    requires Current(Books([], Inventory(opening, [])), steps)
    requires p < |Run(Books([], Inventory(opening, [])), steps).purchases|
    ensures var end := Run(Books([], Inventory(opening, [])), steps);
            RestockedUnder(end.inventory.ledger, p, t) == ReceivedOn(end.purchases[p].lines, t)
            <= OrderedOn(end.purchases[p].lines, t)
  {
    var b := Books([], Inventory(opening, []));
    var end := Run(b, steps);
    BalancedRun(b, steps);
    EveryRunWithin(b, steps);
    assert Agree(end, p, t) && end.purchases[p] in end.purchases;
    ReceivedAtMostOrdered(end.purchases[p].lines, t);
  }

  // ----- reordering what runs low -----

  datatype Product = Product(id: nat, threshold: nat, active: bool, supplier: Option<nat>)

  predicate RunsLow(counters: Counters, p: Product, supplier: nat)
    requires OfProduct(p.id) in counters
  {
    p.supplier == Some(supplier) && p.active && counters[OfProduct(p.id)].Available() <= p.threshold
  }

  function Suggested(counters: Counters, p: Product): nat
    requires OfProduct(p.id) in counters
  {
    Max(p.threshold * 2 - counters[OfProduct(p.id)].Available(), 1)
  }

  /** Active products of the supplier with no more to sell than their threshold, a product exactly at it included. */
  predicate AtOrBelow(counters: Counters, p: Product, supplier: nat)
    requires OfProduct(p.id) in counters
  {
    var c := counters[OfProduct(p.id)];
    p.active && p.supplier == Some(supplier) && c.stock <= c.reserved + p.threshold
  }

  /** What runs low, and what brings what is left to sell up to twice the threshold, one unit at the least. */
  lemma WhatRunsLow(counters: Counters, p: Product, supplier: nat)
    requires OfProduct(p.id) in counters
    ensures RunsLow(counters, p, supplier) <==> AtOrBelow(counters, p, supplier)
    ensures var c, n := counters[OfProduct(p.id)], Suggested(counters, p);
            var left := if c.stock > c.reserved then c.stock - c.reserved else 0;
            n >= 1 && left + n >= 2 * p.threshold && (n == 1 || left + n == 2 * p.threshold)
  {
  }

  predicate OnShelves(counters: Counters, products: seq<Product>) {
    forall p <- products :: OfProduct(p.id) in counters
  }

  function LowStock(counters: Counters, products: seq<Product>, supplier: nat): (r: seq<Wanted>)
    requires OnShelves(counters, products)
    ensures Stocked(counters, r)
  {
    if products == [] then []
    else
      var n := |products| - 1;
      var rest := LowStock(counters, products[..n], supplier);
      assert products[n] in products;
      if RunsLow(counters, products[n], supplier)
      then rest + [Wanted(products[n].id, None, Suggested(counters, products[n]))] else rest
  }

  predicate Distinct(products: seq<Product>) {
    forall j, k | 0 <= j < k < |products| :: products[j].id != products[k].id
  }

  /** What the last product adds to a draft, seen from one product. */
  lemma LastAsks(counters: Counters, products: seq<Product>, supplier: nat, id: nat)
    requires OnShelves(counters, products) && products != []
    ensures var front, last := products[..|products| - 1], products[|products| - 1];
            OrderedOn(Opened(LowStock(counters, products, supplier)), OfProduct(id))
            == OrderedOn(Opened(LowStock(counters, front, supplier)), OfProduct(id))
               + if last.id == id && RunsLow(counters, last, supplier) then Suggested(counters, last) else 0
  {
    var front, last := products[..|products| - 1], products[|products| - 1];
    var rest := LowStock(counters, front, supplier);
    assert last in products;
    if RunsLow(counters, last, supplier) {
      var lines := Opened(LowStock(counters, products, supplier));
      assert lines[..|rest|] == Opened(rest);
    }
  }

  /** The draft asks for a product's suggested quantity if it runs low, and for nothing else of it. */
  lemma {:induction false} DraftAsks(counters: Counters, products: seq<Product>, supplier: nat, id: nat)
    requires OnShelves(counters, products) && Distinct(products)
    ensures OrderedOn(Opened(LowStock(counters, products, supplier)), OfProduct(id)) > 0
            <==> exists p <- products :: p.id == id && RunsLow(counters, p, supplier)
    ensures forall p <- products :: p.id == id && RunsLow(counters, p, supplier) ==>
              OrderedOn(Opened(LowStock(counters, products, supplier)), OfProduct(id)) == Suggested(counters, p)
  {
    if products != [] {
      var front, last := products[..|products| - 1], products[|products| - 1];
      assert last in products;
      assert forall p <- products :: p in front || p == last;
      assert last.id == id ==> forall p <- front :: p.id != id;
      DraftAsks(counters, front, supplier, id);
      LastAsks(counters, products, supplier, id);
    }
  }

  /** The lines ask for such a product that quantity, and for any other product nothing. */
  predicate TopsUp(lines: seq<BoughtLine>, counters: Counters, p: Product, supplier: nat)
    requires OfProduct(p.id) in counters
  {
    var c, n := counters[OfProduct(p.id)], OrderedOn(lines, OfProduct(p.id));
    var left := if c.stock > c.reserved then c.stock - c.reserved else 0;
    if AtOrBelow(counters, p, supplier)
    then n >= 1 && left + n >= 2 * p.threshold && (n == 1 || left + n == 2 * p.threshold)
    else n == 0
  }

  lemma DraftTopsUp(counters: Counters, products: seq<Product>, supplier: nat, p: Product)
    requires OnShelves(counters, products) && Distinct(products) && p in products
    ensures TopsUp(Opened(LowStock(counters, products, supplier)), counters, p, supplier)
  {
    DraftAsks(counters, products, supplier, p.id);
    WhatRunsLow(counters, p, supplier);
    assert forall q <- products :: q.id == p.id ==> q == p;
  }

  predicate OnlyReceiptsOf(steps: seq<Step>, p: nat) {
    forall s <- steps :: s.Receive? && s.purchase == p
  }

  /** What is on a shelf beyond what one purchase order brought to it, and what is held. */
  function Beside(b: Books, p: nat, t: Target): (int, nat)
    requires p < |b.purchases| && t in b.inventory.counters
  {
    (b.inventory.counters[t].stock - ReceivedOn(b.purchases[p].lines, t), b.inventory.counters[t].reserved)
  }

  lemma ReceiptCounter(b: Books, step: Step, t: Target)
    requires Valid(b) && step.Receive? && t in b.inventory.counters
    ensures t in Do(b, step).inventory.counters
    ensures var c := b.inventory.counters[t];
            Do(b, step).inventory.counters[t]
            == Counter(c.stock + if Accepts(b, step)
                                    && b.purchases[step.purchase].lines[step.line].wanted.Shelf() == t
                                 then step.quantity else 0,
                       c.reserved)
  {
    if Accepts(b, step) {
      var lines := b.purchases[step.purchase].lines;
      assert b.purchases[step.purchase] in b.purchases && lines[step.line] in lines;
    }
  }

  lemma ReceiptKeepsOrdered(b: Books, step: Step, t: Target)
    requires step.Receive? && step.purchase < |b.purchases|
    ensures |Do(b, step).purchases| == |b.purchases|
    ensures OrderedOn(Do(b, step).purchases[step.purchase].lines, t) == OrderedOn(b.purchases[step.purchase].lines, t)
  {
    if Accepts(b, step) {
      ReceivedReplaced(b.purchases[step.purchase].lines, step.line, step.seen + step.quantity, t);
    }
  }

  lemma ReceiptMoves(b: Books, step: Step, t: Target)
    requires Valid(b) && step.Receive? && step.purchase < |b.purchases| && t in b.inventory.counters
    requires !Stale(b, step)
    ensures var b', p := Do(b, step), step.purchase;
            && p < |b'.purchases| && t in b'.inventory.counters
            && Beside(b', p, t) == Beside(b, p, t)
            && OrderedOn(b'.purchases[p].lines, t) == OrderedOn(b.purchases[p].lines, t)
  {
    ReceiptKeepsOrdered(b, step, t);
    ReceiptCounter(b, step, t);
    ReceivedStep(b, step, step.purchase, t);
  }

  /** Receipts put on a shelf what they add to its lines, and touch nothing that is held. */
  lemma {:induction false} ReceiptsMove(b: Books, steps: seq<Step>, p: nat, t: Target)
    requires Valid(b) && Within(b) && p < |b.purchases| && t in b.inventory.counters
    requires OnlyReceiptsOf(steps, p) && Current(b, steps)
    ensures var end := Run(b, steps);
            && p < |end.purchases| && t in end.inventory.counters
            && Beside(end, p, t) == Beside(b, p, t)
            && OrderedOn(end.purchases[p].lines, t) == OrderedOn(b.purchases[p].lines, t)
  {
    if steps != [] {
      var n := |steps| - 1;
      assert steps[n] in steps;
      ReceiptsMove(b, steps[..n], p, t);
      EveryRunWithin(b, steps[..n]);
      ReceiptMoves(Run(b, steps[..n]), steps[n], t);
    }
  }

  /** Receiving all of a purchase order puts what was still due on the shelf. */
  lemma FullyReceived(b: Books, steps: seq<Step>, p: nat, t: Target)
    requires Valid(b) && Within(b) && p < |b.purchases| && t in b.inventory.counters
    requires OnlyReceiptsOf(steps, p) && Current(b, steps)
    requires p < |Run(b, steps).purchases| && Run(b, steps).purchases[p].Complete()
    ensures var end := Run(b, steps);
            && t in end.inventory.counters
            && end.inventory.counters[t].reserved == b.inventory.counters[t].reserved
            && end.inventory.counters[t].stock
               == b.inventory.counters[t].stock
                  + OrderedOn(b.purchases[p].lines, t) - ReceivedOn(b.purchases[p].lines, t)
  {
    ReceiptsMove(b, steps, p, t);
    EveryRunWithin(b, steps);
    var end := Run(b, steps);
    assert end.purchases[p] in end.purchases;
    ReceivedAtMostOrdered(end.purchases[p].lines, t);
  }

  /**
   Once a low-stock draft is fully received, in any number of receipts and with nothing else moving,
   a drafted product is above its threshold exactly when what was held of it beyond the units on
   hand was below the threshold (or below one). Holding no more than is on hand is always enough.
   */
  lemma ReorderIsEnough(b: Books, products: seq<Product>, supplier: nat, p: Product, steps: seq<Step>)
    requires Valid(b) && Within(b) && OnShelves(b.inventory.counters, products) && Distinct(products)
    requires p in products && RunsLow(b.inventory.counters, p, supplier)
    requires var drafted := Do(b, Place(LowStock(b.inventory.counters, products, supplier)));
             && OnlyReceiptsOf(steps, |b.purchases|) && Current(drafted, steps)
             && |b.purchases| < |Run(drafted, steps).purchases|
             && Run(drafted, steps).purchases[|b.purchases|].Complete()
    ensures var end := Run(Do(b, Place(LowStock(b.inventory.counters, products, supplier))), steps);
            var c := b.inventory.counters[OfProduct(p.id)];
            && OfProduct(p.id) in end.inventory.counters
            && (end.inventory.counters[OfProduct(p.id)].Available() > p.threshold
                <==> c.reserved - c.stock < Max(p.threshold, 1))
  {
    var wanted := LowStock(b.inventory.counters, products, supplier);
    var drafted := Do(b, Place(wanted));
    var t, q := OfProduct(p.id), |b.purchases|;
    DraftAsks(b.inventory.counters, products, supplier, p.id);
    assert wanted != [];
    assert drafted == b.(purchases := b.purchases + [Purchase(Opened(wanted), Draft)]);
    NothingReceived(wanted, t);
    DoValid(b, Place(wanted));
    WithinStep(b, Place(wanted));
    FullyReceived(drafted, steps, q, t);
  }
}
