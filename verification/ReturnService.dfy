/**
 The return service over its request rows and the stock service: the requested
 lines are checked one by one, and received lines go on the shelf one by one.
 Guards look at what the caller holds (`left`, `seen`), as the service's do; a
 method returns false where the service raises.
 */
module ReturnService {
  import opened Wrappers
  import opened Stock
  import opened Returns
  import opened ReturnMoves
  import P = Payments
  import Room = StockRoom

  class ReturnService {
    const items: seq<Item>
    const room: Room.StockRoom
    var requests: seq<Request>

    function Snapshot(): Office
      reads this, room
    {
      Office(items, requests, room.Snapshot())
    }

    ghost predicate Valid()
      reads this, room
    {
      Returns.Valid(Snapshot())
    }

    constructor (items: seq<Item>, room: Room.StockRoom)
      requires forall x <- items :: x.Shelf().Some? ==> x.Shelf().value in room.counters
      ensures Valid() && this.items == items && this.room == room && requests == []
    {
      this.items, this.room, requests := items, room, [];
    }

    /** What a caller reads before asking: the quantities left of the items it will name. */
    method RemainingReturnable(asks: seq<Ask>) returns (left: seq<int>)
      requires forall a <- asks :: a.item < |items|
      ensures |left| == |asks| && forall k | 0 <= k < |asks| :: left[k] == Remaining(Snapshot(), asks[k].item)
    {
      left := [];
      for k := 0 to |asks|
        invariant |left| == k && forall j | 0 <= j < k :: left[j] == Remaining(Snapshot(), asks[j].item)
      {
        assert asks[k] in asks;
        left := left + [items[asks[k].item].quantity - Claimed(requests, asks[k].item)];
      }
    }

    /** `left` was read earlier; the rows are created in a transaction that does not look again. */
    method RequestReturn(order: nat, delivered: bool, window: Window, asks: seq<Ask>, left: seq<int>) returns (ok: bool)
      requires Valid() && |left| == |asks|
      modifies this
      ensures Snapshot() == Do(old(Snapshot()), Submit(order, delivered, window, asks, left))
      ensures ok <==> delivered && window == Open && asks != [] && forall k | 0 <= k < |asks| ::
                && asks[k].item < |items| && items[asks[k].item].order == order
                && 0 < asks[k].quantity && asks[k].quantity <= left[k]
      ensures !ok ==> requests == old(requests)
      ensures ok ==>
                && |requests| == |old(requests)| + 1 && requests[..|old(requests)|] == old(requests)
                && var q := requests[|old(requests)|];
                   && q.order == order && q.status == Requested && q.refunds == [] && |q.lines| == |asks|
                   && forall k | 0 <= k < |asks| :: q.lines[k] == ReturnLine(asks[k].item, asks[k].quantity, false)
    {
      if !delivered || window != Open || asks == [] {
        return false;
      }
      for k := 0 to |asks|
        invariant forall j | 0 <= j < k :: AskIsFine(items, order, asks[j], left[j])
      {
        var a := asks[k];
        if a.item >= |items| || items[a.item].order != order {
          return false;
        }
        if a.quantity <= 0 || a.quantity > left[k] {
          return false;
        }
      }
      var lines: seq<ReturnLine> := [];
      for k := 0 to |asks|
        invariant lines == LinesFor(asks[..k])
      {
        assert asks[..k + 1][..k] == asks[..k];
        assert AskIsFine(items, order, asks[k], left[k]);
        lines := lines + [ReturnLine(asks[k].item, asks[k].quantity, false)];
      }
      assert asks[..|asks|] == asks;
      requests := requests + [Request(order, lines, Requested, [])];
      ok := true;
    }

    /** Approval, rejection and withdrawal: the caller's copy must say nobody has acted yet. */
    method ReviewReturn(r: nat, seen: Status, verdict: Verdict) returns (ok: bool)
      requires Valid() && r < |requests|
      modifies this
      ensures Snapshot() == Do(old(Snapshot()), Review(r, seen, verdict))
      ensures ok <==> seen == Requested
      ensures !ok ==> requests == old(requests)
      ensures ok ==> requests[r].status == if verdict == Approve then Approved
                                           else if verdict == Reject then Rejected else Cancelled
    {
      if seen != Requested {
        return false;
      }
      var status := match verdict
        case Approve => Approved
        case Reject => Rejected
        case Withdraw => Cancelled;
      requests := requests[r := requests[r].(status := status)];
      ok := true;
    }

    /** One line of a receipt: on the shelf if it is to be restocked and its product still exists. */
    method JudgeLine(r: nat, goes: bool, line: ReturnLine) returns (judged: ReturnLine)
      requires line.item < |items| && line.quantity > 0
      requires ShelfFor(items, line).Some? ==> ShelfFor(items, line).value in room.counters
      modifies room
      ensures (room.Snapshot(), judged) == Judged(items, old(room.Snapshot()), r, goes, line)
      ensures room.counters.Keys == old(room.counters).Keys
    {
      var item := items[line.item];
      judged := line.(restocked := goes);
      if goes && item.product.Some? {
        var shelf := if item.variant.Some? then OfVariant(item.variant.value) else OfProduct(item.product.value);
        var put := room.PutOnShelf(Returned, OfReturn(r), shelf, line.quantity);
      } else if goes {
        judged := judged.(restocked := false);
      }
    }

    method JudgeLines(r: nat, restock: set<nat>, lines: seq<ReturnLine>) returns (judged: seq<ReturnLine>)
      requires Shelvable(items, room.counters, lines) && forall l <- lines :: l.item < |items|
      modifies room
      ensures (room.Snapshot(), judged) == ReceiveLines(items, old(room.Snapshot()), r, restock, lines)
    {
      judged := [];
      for k := 0 to |lines|
        invariant room.counters.Keys == old(room.counters).Keys
        invariant (room.Snapshot(), judged) == ReceiveLines(items, old(room.Snapshot()), r, restock, lines[..k])
      {
        assert lines[..k + 1][..k] == lines[..k] && lines[k] in lines;
        var line := JudgeLine(r, k in restock, lines[k]);
        judged := judged + [line];
      }
      assert lines[..|lines|] == lines;
    }

    /** One transaction: every line judged, restocked if it can be, then the request received. */
    method MarkReturnReceived(r: nat, seen: Status, restock: set<nat>) returns (ok: bool)
      requires Valid() && r < |requests|
      modifies this, room
      ensures Snapshot() == Do(old(Snapshot()), Receive(r, seen, restock))
      ensures ok <==> seen == Approved
      ensures !ok ==> Snapshot() == old(Snapshot())
      ensures ok ==> requests[r].status == Received && requests[r].refunds == old(requests)[r].refunds
      ensures ok ==> forall t <- old(room.counters) ::
                && t in room.counters && room.counters[t].reserved == old(room.counters)[t].reserved
                && room.counters[t].stock
                   == old(room.counters)[t].stock + RestockedTo(items, requests[r].lines, t)
      ensures ok ==> |requests[r].lines| == |old(requests)[r].lines|
      ensures ok ==> forall k | 0 <= k < |requests[r].lines| ::
                var line := old(requests)[r].lines[k];
                && requests[r].lines[k] == line.(restocked := requests[r].lines[k].restocked)
                && (requests[r].lines[k].restocked
                    <==> k in restock && line.item < |items| && items[line.item].product.Some?)
    {
      if seen != Approved {
        return false;
      }
      LinesAreShelvable(Snapshot(), r);
      ReceiveAllCounters(items, room.Snapshot(), r, restock, requests[r].lines);
      var judged := JudgeLines(r, restock, requests[r].lines);
      requests := requests[r := requests[r].(lines := judged, status := Received)];
      ok := true;
    }

    /** `accepted` says whether a refundable payment was found and took the refund. */
    method InitiateReturnRefund(r: nat, seen: Status, accepted: bool, outcome: Option<P.RefundStatus>)
      returns (ok: bool)
      requires Valid() && r < |requests|
      modifies this
      ensures Snapshot() == Do(old(Snapshot()), StartRefund(r, seen, accepted, outcome))
      ensures ok <==> seen == Received && accepted
      ensures !ok ==> requests == old(requests)
      ensures ok ==>
                && requests[r].status == RefundInitiated && requests[r].lines == old(requests)[r].lines
                && requests[r].refunds
                   == old(requests)[r].refunds + [if outcome.Some? then outcome.value else P.Initiated]
    {
      if seen != Received || !accepted {
        return false;
      }
      LinkToRefund(r, outcome);
      requests := requests[r := requests[r].(status := RefundInitiated)];
      ok := true;
    }

    /** The payment page's own way in: no look at the request's status. */
    method LinkToRefund(r: nat, outcome: Option<P.RefundStatus>)
      requires Valid() && r < |requests|
      modifies this
      ensures Snapshot() == Do(old(Snapshot()), LinkRefund(r, outcome))
      ensures requests[r].status == if outcome == Some(P.Processed) then Refunded
                                    else if outcome == Some(P.Bounced) then Received else old(requests)[r].status
      ensures requests[r].refunds
              == old(requests)[r].refunds + [if outcome.Some? then outcome.value else P.Initiated]
    {
      var status := if outcome.Some? then outcome.value else P.Initiated;
      requests := requests[r := requests[r].(refunds := requests[r].refunds + [status])];
      if status == P.Processed {
        requests := requests[r := requests[r].(status := Refunded)];
      } else if status == P.Bounced {
        requests := requests[r := requests[r].(status := Received)];
      }
    }

    /** The pipeline of a refund linked to the request, whose outcome was judged on a loaded refund. */
    method RefundSettled(r: nat, k: nat, known: P.RefundStatus, result: P.RefundStatus)
      requires Valid() && r < |requests| && k < |requests[r].refunds|
      modifies this
      ensures Snapshot() == Do(old(Snapshot()), SettleRefund(r, k, known, result))
      ensures result == P.Initiated || known == result ==> requests == old(requests)
      ensures result != P.Initiated && known != result ==>
                && requests[r].status == (if result == P.Processed then Refunded else Received)
                && requests[r].refunds == old(requests)[r].refunds[k := result]
    {
      if result != P.Initiated && known != result {
        var status := if result == P.Processed then Refunded else Received;
        requests := requests[r := requests[r].(refunds := requests[r].refunds[k := result], status := status)];
      }
    }
  }
}
