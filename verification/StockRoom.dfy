/**
 The stock service: the only code that changes counters or writes ledger rows.

 Each method runs the service's own loop and clamps over the mutable counters;
 its contract gives the whole new state, once as the value-level fold of the
 module `Stock` and once as what the loop amounts to for each target.
 */
module StockRoom {
  import opened Wrappers
  import opened Stock

  class StockRoom {
    var counters: Counters
    var ledger: seq<Movement>

    function Snapshot(): Inventory
      reads this
    {
      Inventory(counters, ledger)
    }

    constructor (opening: Counters)
      ensures Snapshot() == Inventory(opening, [])
    {
      counters, ledger := opening, [];
    }

    /** One line of a reservation: held, or left alone when too little is available. */
    method HoldLine(order: nat, line: Line) returns (left: Option<nat>)
      requires Known(counters, [line])
      modifies this
      ensures left.None? <==> (line.Target().Some? ==> line.quantity <= old(counters)[line.Target().value].Available())
      ensures left.Some? ==>
                left.value == old(counters)[line.Target().value].Available() && Snapshot() == old(Snapshot())
      ensures left.None? ==> Snapshot() == PostLine(old(Snapshot()), Reserved, OfOrder(order), line)
    {
      assert line in [line];
      var target := line.Target();
      if target.Some? {
        var c := counters[target.value];
        if c.Available() < line.quantity {
          return Some(c.Available());
        }
        counters := counters[target.value := c.(reserved := c.reserved + line.quantity)];
        ledger := ledger + [Movement(Reserved, target.value, 0, line.quantity, OfOrder(order))];
      }
      left := None;
    }

    /** One transaction: either every line is held, or the counters and the ledger are as before. */
    method ReserveStock(order: nat, lines: seq<Line>) returns (r: Option<(Target, nat)>)
      requires Known(counters, lines)
      modifies this
      ensures r.None? <==> Coverable(old(counters), lines)
      ensures r.None? <==> forall t <- old(counters) ::
                UnitsFor(lines, t) == 0 || old(counters)[t].reserved + UnitsFor(lines, t) <= old(counters)[t].stock
      ensures r.None? ==> counters.Keys == old(counters).Keys && forall t <- counters ::
                && counters[t].stock == old(counters)[t].stock
                && counters[t].reserved == old(counters)[t].reserved + UnitsFor(lines, t)
      ensures r.None? ==> Snapshot() == PostLines(old(Snapshot()), Reserved, OfOrder(order), lines)
      ensures r.Some? ==> Snapshot() == old(Snapshot())
      ensures r.Some? ==> ReserveLines(old(Snapshot()), OfOrder(order), lines) == Short(r.value.0, r.value.1)
    {
      ReserveLinesClosed(Snapshot(), OfOrder(order), lines);
      CoverableByKeys(counters, lines);
      AllClosed(Snapshot(), Reserved, OfOrder(order), lines);
      var savedCounters, savedLedger := counters, ledger;
      for i := 0 to |lines|
        invariant counters.Keys == savedCounters.Keys
        invariant ReserveLines(old(Snapshot()), OfOrder(order), lines[..i]) == Held(Snapshot())
      {
        assert lines[..i + 1][..i] == lines[..i];
        var left := HoldLine(order, lines[i]);
        if left.Some? {
          counters, ledger := savedCounters, savedLedger;
          ShortStays(Snapshot(), OfOrder(order), lines, i + 1);
          return Some((lines[i].Target().value, left.value));
        }
      }
      assert lines[..|lines|] == lines;
      r := None;
    }

    method ReleaseLine(order: nat, line: Line)
      requires Known(counters, [line])
      modifies this
      ensures Snapshot() == PostLine(old(Snapshot()), Released, OfOrder(order), line)
      ensures counters.Keys == old(counters).Keys
    {
      assert line in [line];
      var target := line.Target();
      if target.Some? {
        var c := counters[target.value];
        var released: int := Min(line.quantity, c.reserved);
        counters := counters[target.value := c.(reserved := c.reserved - released)];
        ledger := ledger + [Movement(Released, target.value, 0, 0 - released, OfOrder(order))];
      }
    }

    method ReleaseReservation(order: nat, lines: seq<Line>)
      requires Known(counters, lines)
      modifies this
      ensures Snapshot() == PostLines(old(Snapshot()), Released, OfOrder(order), lines)
      ensures counters.Keys == old(counters).Keys
      ensures forall t <- counters :: counters[t].stock == old(counters)[t].stock
      ensures forall t <- counters ::
                counters[t].reserved == Max(old(counters)[t].reserved - UnitsFor(lines, t), 0)
    {
      for i := 0 to |lines|
        invariant Known(counters, lines)
        invariant Snapshot() == PostLines(old(Snapshot()), Released, OfOrder(order), lines[..i])
      {
        assert lines[..i + 1][..i] == lines[..i];
        ReleaseLine(order, lines[i]);
      }
      assert lines[..|lines|] == lines;
      AllClosed(old(Snapshot()), Released, OfOrder(order), lines);
    }

    method SellLine(order: nat, line: Line)
      requires Known(counters, [line])
      modifies this
      ensures Snapshot() == PostLine(old(Snapshot()), Sold, OfOrder(order), line)
      ensures counters.Keys == old(counters).Keys
    {
      assert line in [line];
      var target := line.Target();
      if target.Some? {
        var c := counters[target.value];
        var stock, stockDelta;
        if c.stock < line.quantity {
          stockDelta := 0 - c.stock;
          stock := 0;
        } else {
          stockDelta := 0 - line.quantity;
          stock := c.stock - line.quantity;
        }
        var reservedDelta := 0 - Min(line.quantity, c.reserved);
        counters := counters[target.value := Counter(stock, c.reserved + reservedDelta)];
        ledger := ledger + [Movement(Sold, target.value, stockDelta, reservedDelta, OfOrder(order))];
      }
    }

    method ConvertReservationToSale(order: nat, lines: seq<Line>)
      requires Known(counters, lines)
      modifies this
      ensures Snapshot() == PostLines(old(Snapshot()), Sold, OfOrder(order), lines)
      ensures counters.Keys == old(counters).Keys
      ensures forall t <- counters ::
                && counters[t].stock == Max(old(counters)[t].stock - UnitsFor(lines, t), 0)
                && counters[t].reserved == Max(old(counters)[t].reserved - UnitsFor(lines, t), 0)
    {
      for i := 0 to |lines|
        invariant Known(counters, lines)
        invariant Snapshot() == PostLines(old(Snapshot()), Sold, OfOrder(order), lines[..i])
      {
        assert lines[..i + 1][..i] == lines[..i];
        SellLine(order, lines[i]);
      }
      assert lines[..|lines|] == lines;
      AllClosed(old(Snapshot()), Sold, OfOrder(order), lines);
    }

    method RestoreLine(order: nat, line: Line)
      requires Known(counters, [line])
      modifies this
      ensures Snapshot() == PostLine(old(Snapshot()), Restored, OfOrder(order), line)
      ensures counters.Keys == old(counters).Keys
    {
      assert line in [line];
      var target := line.Target();
      if target.Some? {
        var c := counters[target.value];
        counters := counters[target.value := c.(stock := c.stock + line.quantity)];
        ledger := ledger + [Movement(Restored, target.value, line.quantity, 0, OfOrder(order))];
      }
    }

    method RestoreStockForCancellation(order: nat, lines: seq<Line>)
      requires Known(counters, lines)
      modifies this
      ensures Snapshot() == PostLines(old(Snapshot()), Restored, OfOrder(order), lines)
      ensures counters.Keys == old(counters).Keys
      ensures forall t <- counters ::
                && counters[t].stock == old(counters)[t].stock + UnitsFor(lines, t)
                && counters[t].reserved == old(counters)[t].reserved
    {
      for i := 0 to |lines|
        invariant Known(counters, lines)
        invariant Snapshot() == PostLines(old(Snapshot()), Restored, OfOrder(order), lines[..i])
      {
        assert lines[..i + 1][..i] == lines[..i];
        RestoreLine(order, lines[i]);
      }
      assert lines[..|lines|] == lines;
      AllClosed(old(Snapshot()), Restored, OfOrder(order), lines);
    }

    /** `record_restock` (a delivery) and `restock_from_return` differ only in the row they write. */
    method PutOnShelf(kind: Kind, source: Source, t: Target, quantity: int) returns (ok: bool)
      requires kind == Restocked || kind == Returned
      requires t in counters
      modifies this
      ensures ok <==> quantity > 0
      ensures Snapshot() == PutAway(old(Snapshot()), kind, source, t, quantity)
      ensures ok ==>
                counters == old(counters)[t := Counter(old(counters)[t].stock + quantity, old(counters)[t].reserved)]
      ensures ledger == old(ledger) + if ok then [Movement(kind, t, quantity, 0, source)] else []
    {
      if quantity <= 0 {
        return false;
      }
      var c := counters[t];
      counters := counters[t := c.(stock := c.stock + quantity)];
      ledger := ledger + [Movement(kind, t, quantity, 0, source)];
      ok := true;
    }

    method RecordAdjustment(t: Target, delta: int) returns (ok: bool)
      requires t in counters
      modifies this
      ensures ok <==> delta != 0
      ensures Snapshot() == Adjust(old(Snapshot()), t, delta)
      ensures counters == old(counters)[t := Counter(Max(old(counters)[t].stock + delta, 0), old(counters)[t].reserved)]
      ensures ledger == old(ledger)
                        + if ok then [Movement(Adjusted, t, counters[t].stock - old(counters)[t].stock, 0, Manual)]
                          else []
    {
      if delta == 0 {
        return false;
      }
      var c := counters[t];
      var newStock := Max(c.stock + delta, 0);
      var applied := newStock - c.stock;
      counters := counters[t := c.(stock := newStock)];
      ledger := ledger + [Movement(Adjusted, t, applied, 0, Manual)];
      ok := true;
    }
  }

  lemma AllClosed(inv: Inventory, kind: Kind, source: Source, lines: seq<Line>)
    requires Known(inv.counters, lines)
    ensures forall t <- inv.counters ::
              PostLines(inv, kind, source, lines).counters[t] == Moved(kind, inv.counters[t], UnitsFor(lines, t))
  {
    forall t | t in inv.counters
      ensures PostLines(inv, kind, source, lines).counters[t] == Moved(kind, inv.counters[t], UnitsFor(lines, t))
    {
      PostLinesClosed(inv, kind, source, lines, t);
      DemandByKeys(lines, t);
    }
  }

  /** Once a prefix of the lines comes up short, so does the whole order, with the same report. */
  lemma {:induction false} ShortStays(inv: Inventory, source: Source, lines: seq<Line>, n: nat)
    requires Known(inv.counters, lines) && n <= |lines|
    requires ReserveLines(inv, source, lines[..n]).Short?
    ensures ReserveLines(inv, source, lines) == ReserveLines(inv, source, lines[..n])
  {
    if n == |lines| {
      assert lines[..n] == lines;
    } else {
      var front := lines[..|lines| - 1];
      assert front[..n] == lines[..n];
      ShortStays(inv, source, front, n);
    }
  }
}
