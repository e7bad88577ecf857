/**
 The purchase-order service over its rows and the stock service. A method
 returns false, or no order, where the service raises.
 */
module PurchaseDesk {
  import opened Wrappers
  import opened Stock
  import opened Purchasing
  import Room = StockRoom

  class PurchaseDesk {
    const room: Room.StockRoom
    var purchases: seq<Purchase>

    function Snapshot(): Books
      reads this, room
    {
      Books(purchases, room.Snapshot())
    }

    constructor (room: Room.StockRoom)
      ensures this.room == room && purchases == []
    {
      this.room, purchases := room, [];
    }

    method CreatePurchaseOrder(wanted: seq<Wanted>) returns (made: Option<nat>)
      requires Stocked(room.counters, wanted)
      modifies this
      ensures made == if wanted == [] then None else Some(|old(purchases)|)
      ensures Snapshot() == Do(old(Snapshot()), Place(wanted))
      ensures made.None? ==> Snapshot() == old(Snapshot())
      ensures made.Some? ==>
                && |purchases| == |old(purchases)| + 1 && purchases[..|old(purchases)|] == old(purchases)
                && purchases[made.value].status == Draft && |purchases[made.value].lines| == |wanted|
                && forall k | 0 <= k < |wanted| :: purchases[made.value].lines[k] == BoughtLine(wanted[k], 0)
    {
      if wanted == [] {
        return None;
      }
      var lines: seq<BoughtLine> := [];
      for i := 0 to |wanted|
        invariant lines == Opened(wanted[..i])
      {
        assert wanted[..i + 1][..i] == wanted[..i];
        lines := lines + [BoughtLine(wanted[i], 0)];
      }
      assert wanted[..|wanted|] == wanted;
      made := Some(|purchases|);
      purchases := purchases + [Purchase(lines, Draft)];
    }

    /** `status` is what the caller's copy of the order says. */
    method MarkPurchaseOrderOrdered(p: nat, status: Status) returns (ok: bool)
      requires p < |purchases|
      modifies this
      ensures ok <==> status == Draft
      ensures purchases == if ok then old(purchases)[p := Purchase(old(purchases)[p].lines, Ordered)]
                           else old(purchases)
      ensures Snapshot() == Do(old(Snapshot()), MarkOrdered(p, status))
    {
      if status != Draft {
        return false;
      }
      purchases := purchases[p := purchases[p].(status := Ordered)];
      ok := true;
    }

    /** `seen` is the received count on the caller's copy of the line; no status is looked at. */
    method ReceivePurchaseOrderLine(p: nat, k: nat, seen: nat, quantity: int) returns (ok: bool)
      requires Valid(Snapshot()) && p < |purchases| && k < |purchases[p].lines|
      modifies this, room
      ensures ok <==> 0 < quantity <= old(purchases)[p].lines[k].wanted.quantity - seen
      ensures Snapshot() == Do(old(Snapshot()), Receive(p, k, seen, quantity))
      ensures Valid(Snapshot())
      ensures !ok ==> Snapshot() == old(Snapshot())
      ensures ok ==>
                && |purchases| == |old(purchases)|
                && purchases[p].lines
                   == old(purchases)[p].lines[k := old(purchases)[p].lines[k].(received := seen + quantity)]
                && purchases[p].status == (if forall l <- purchases[p].lines :: l.received >= l.wanted.quantity
                                           then Received else PartlyReceived)
      ensures ok ==>
                var w := old(purchases)[p].lines[k].wanted;
                var t := if w.variant.Some? then OfVariant(w.variant.value) else OfProduct(w.product);
                t in old(room.counters) && room.counters
                   == old(room.counters)[t := Counter(old(room.counters)[t].stock + quantity,
                                                      old(room.counters)[t].reserved)]
    {
      var line := purchases[p].lines[k];
      if quantity <= 0 || quantity > line.wanted.quantity - seen {
        return false;
      }
      ReceiptSays(Snapshot(), p, k, seen, quantity);
      ok := room.PutOnShelf(Restocked, OfPurchase(p), line.wanted.Shelf(), quantity);
      var purchase := CountReceived(purchases[p], k, seen + quantity);
      purchases := purchases[p := purchase];
    }

    /** The line's new count, and the status re-evaluated over all lines. */
    method CountReceived(before: Purchase, k: nat, received: nat) returns (purchase: Purchase)
      requires k < |before.lines|
      ensures purchase == AfterReceipt(before, k, received)
    {
      purchase := before.(lines := before.lines[k := before.lines[k].(received := received)]);
      if purchase.Complete() {
        purchase := purchase.(status := Received);
      } else if purchase.Begun() {
        purchase := purchase.(status := PartlyReceived);
      }
    }

    method CreatePurchaseOrderFromLowStock(products: seq<Product>, supplier: nat) returns (made: Option<nat>)
      requires OnShelves(room.counters, products)
      modifies this
      ensures made.None? <==> forall p <- products :: !AtOrBelow(room.counters, p, supplier)
      ensures made.Some? ==> made.value < |purchases| && purchases[made.value].status == Draft
      ensures made.Some? && Distinct(products) ==>
                forall p <- products :: TopsUp(purchases[made.value].lines, room.counters, p, supplier)
      ensures Snapshot() == Do(old(Snapshot()), Place(LowStock(room.counters, products, supplier)))
    {
      var wanted: seq<Wanted> := [];
      for i := 0 to |products|
        invariant purchases == old(purchases)
        invariant wanted == LowStock(room.counters, products[..i], supplier)
        invariant wanted == [] <==> forall p <- products[..i] :: !AtOrBelow(room.counters, p, supplier)
      {
        assert products[..i + 1][..i] == products[..i] && products[..i + 1] == products[..i] + [products[i]];
        var p := products[i];
        WhatRunsLow(room.counters, p, supplier);
        if p.supplier == Some(supplier) && p.active {
          var available := room.counters[OfProduct(p.id)].Available();
          if available <= p.threshold {
            wanted := wanted + [Wanted(p.id, None, Max(p.threshold * 2 - available, 1))];
          }
        }
      }
      assert products[..|products|] == products;
      if wanted == [] {
        return None;
      }
      made := CreatePurchaseOrder(wanted);
      assert purchases[made.value].lines == Opened(wanted);
      forall p | p in products && Distinct(products)
        ensures TopsUp(purchases[made.value].lines, room.counters, p, supplier)
      {
        DraftTopsUp(room.counters, products, supplier, p);
      }
    }
  }
}
