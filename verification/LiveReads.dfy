/** What `_live_deals` shows when the same order is asked for in several chunks of forty.  The recovery of stale
    composites has no row limit, so one order's rows can reach over a chunk boundary; every chunk then lists the
    order's deal once more, and the test `len(deals) == 1` fails in that pass.  Later passes ask for fewer rows:
    which orders are left in the end is settled here on lists of order numbers. */
module LiveReads {
  import opened OrderDomain
  import opened StageOutbox

  /** How many chunks name the order. */
  function ChunksNaming(orders: seq<Order>, order: Order): nat
    decreases |orders|
  {
    if orders == [] then 0
    else
      var n := if |orders| <= LIVE_CHUNK then |orders| else LIVE_CHUNK;
      (if order in orders[..n] then 1 else 0) + ChunksNaming(orders[n..], order)
  }

  lemma {:induction false} LiveCount(deals: seq<Deal>, orders: seq<Order>, order: Order)
    ensures |Live(deals, orders, order)| == ChunksNaming(orders, order) * |Matching(deals, order)|
    decreases |orders|
  {
    if orders == [] {
    } else {
      var n := if |orders| <= LIVE_CHUNK then |orders| else LIVE_CHUNK;
      LiveCount(deals, orders[n..], order);
      OneMore(ChunksNaming(orders[n..], order), |Matching(deals, order)|);
    }
  }

  lemma OneMore(c: nat, m: nat)
    ensures (1 + c) * m == m + c * m
  {
  }

  lemma {:induction false} OneChunkIsExact(deals: seq<Deal>, orders: seq<Order>, order: Order)
    requires ChunksNaming(orders, order) == 1
    ensures Live(deals, orders, order) == Matching(deals, order)
    decreases |orders|
  {
    var n := if |orders| <= LIVE_CHUNK then |orders| else LIVE_CHUNK;
    if order in orders[..n] {
      NoChunkNoDeals(deals, orders[n..], order);
    } else {
      OneChunkIsExact(deals, orders[n..], order);
    }
  }

  lemma {:induction false} NoChunkNoDeals(deals: seq<Deal>, orders: seq<Order>, order: Order)
    requires ChunksNaming(orders, order) == 0
    ensures Live(deals, orders, order) == []
    decreases |orders|
  {
    if orders == [] {
    } else {
      var n := if |orders| <= LIVE_CHUNK then |orders| else LIVE_CHUNK;
      NoChunkNoDeals(deals, orders[n..], order);
    }
  }

  /** A read sees an order's deal exactly when one deal exists and one chunk asks for it. */
  lemma {:induction false} ReadableIff(deals: seq<Deal>, orders: seq<Order>, order: Order)
    ensures Single(deals, orders, order).Some? <==> ChunksNaming(orders, order) == 1 && |Matching(deals, order)| == 1
    ensures Single(deals, orders, order).Some? ==> Single(deals, orders, order).value == Matching(deals, order)[0]
  {
    LiveCount(deals, orders, order);
    var c, m := ChunksNaming(orders, order), |Matching(deals, order)|;
    ProductIsOne(c, m);
    if c == 1 {
      OneChunkIsExact(deals, orders, order);
    }
  }

  lemma ProductIsOne(a: nat, b: nat)
    ensures a * b == 1 <==> a == 1 && b == 1
  {
    if a > 1 && b > 0 {
      assert a * b >= a * 1 by {
        assert a * (b - 1) >= 0;
      }
    }
  }

  /** A row whose order is asked for in two chunks gets no command in this pass and is sent to retry, whatever the
      CRM shows. */
  lemma {:induction false} StraddledRowIsRetried(deals: seq<Deal>, after: seq<Deal>, outbox: seq<Row>, ids: seq<nat>,
                                                 i: nat, target: Stage)
    requires i in ids && i < |outbox|
    requires ChunksNaming(OrdersOf(outbox, Picked(|outbox|, ids)), outbox[i].order) >= 2
    ensures i !in Commands(deals, outbox, ids)
    ensures MarkAll(after, outbox, ids, target)[i].status == Retry
  {
    ReadableIff(deals, OrdersOf(outbox, Picked(|outbox|, ids)), outbox[i].order);
    ReadableIff(after, OrdersOf(outbox, Picked(|outbox|, ids)), outbox[i].order);
  }

  /** At most forty rows are always readable: the other modes take twenty at a time. */
  lemma {:induction false} FortyRowsAreReadable(orders: seq<Order>, order: Order)
    requires order in orders && |orders| <= LIVE_CHUNK
    ensures ChunksNaming(orders, order) == 1
  {
    assert orders[..|orders|] == orders;
    assert ChunksNaming(orders[|orders|..], order) == 0;
  }

  // ---------- repeated passes ----------

  /** The entries of `part` that a read for `all` leaves unreadable. */
  function Stay(all: seq<Order>, part: seq<Order>): seq<Order> {
    if part == [] then []
    else
      var rest, o := Stay(all, part[..|part| - 1]), part[|part| - 1];
      if ChunksNaming(all, o) == 1 then rest else rest + [o]
  }

  /** One row per entry: the rows a pass over this list leaves open. */
  function Remaining(orders: seq<Order>): seq<Order> { Stay(orders, orders) }

  function RemainingAfter(orders: seq<Order>, n: nat): seq<Order>
    decreases n
  {
    if n == 0 then orders else RemainingAfter(Remaining(orders), n - 1)
  }

  /** Every order on the list is named by two chunks of the list. */
  predicate Stuck(orders: seq<Order>) {
    forall k | 0 <= k < |orders| :: ChunksNaming(orders, orders[k]) >= 2
  }

  lemma {:induction false} NamedAtLeastOnce(orders: seq<Order>, order: Order)
    requires order in orders
    ensures ChunksNaming(orders, order) >= 1
    decreases |orders|
  {
    var n := if |orders| <= LIVE_CHUNK then |orders| else LIVE_CHUNK;
    if order !in orders[..n] {
      assert order in orders[n..];
      NamedAtLeastOnce(orders[n..], order);
    }
  }

  lemma {:induction false} StayMembers(all: seq<Order>, part: seq<Order>)
    ensures |Stay(all, part)| <= |part|
    ensures Stay(all, part) == part <==> forall k | 0 <= k < |part| :: ChunksNaming(all, part[k]) != 1
    ensures |Stay(all, part)| == |part| ==> Stay(all, part) == part
    ensures Stay(all, part) == [] <==> forall k | 0 <= k < |part| :: ChunksNaming(all, part[k]) == 1
  {
    if part == [] {
      assert Stay(all, part) == [];
    } else {
      var front, last := part[..|part| - 1], part[|part| - 1];
      StayMembers(all, front);
      assert part == front + [last];
      assert forall k | 0 <= k < |front| :: front[k] == part[k];
      assert part[|front|] == last;
    }
  }

  /** A pass leaves the list as it is if and only if every order on it is named by two of its chunks. */
  lemma StuckIff(orders: seq<Order>)
    ensures Remaining(orders) == orders <==> Stuck(orders)
    ensures !Stuck(orders) ==> |Remaining(orders)| < |orders|
  {
    StayMembers(orders, orders);
    forall k | 0 <= k < |orders| ensures ChunksNaming(orders, orders[k]) >= 1 {
      NamedAtLeastOnce(orders, orders[k]);
    }
  }

  /** And then no number of passes changes it. */
  lemma {:induction false} StuckForever(orders: seq<Order>, n: nat)
    requires Stuck(orders)
    ensures RemainingAfter(orders, n) == orders
  {
    if n == 0 {
      assert RemainingAfter(orders, 0) == orders;
    } else {
      StuckIff(orders);
      StuckForever(orders, n - 1);
    }
  }

  /** So a list is the same after some passes if and only if it is stuck. */
  lemma {:induction false} StaysAfterIff(orders: seq<Order>, n: nat)
    requires n > 0
    ensures RemainingAfter(orders, n) == orders <==> Stuck(orders)
  {
    if Stuck(orders) {
      StuckForever(orders, n);
    } else {
      StuckIff(orders);
      OnlyFewerRemain(Remaining(orders), n - 1);
    }
  }

  lemma {:induction false} OnlyFewerRemain(orders: seq<Order>, n: nat)
    ensures |RemainingAfter(orders, n)| <= |orders|
    decreases n
  {
    if n == 0 {
      assert RemainingAfter(orders, 0) == orders;
    } else {
      StayMembers(orders, orders);
      OnlyFewerRemain(Remaining(orders), n - 1);
    }
  }

  /** As many passes as there are rows reach such a list, which may be empty. */
  lemma {:induction false} PassesGetStuck(orders: seq<Order>, n: nat)
    requires n >= |orders|
    ensures Stuck(RemainingAfter(orders, n))
    decreases n
  {
    if n == 0 {
      assert RemainingAfter(orders, 0) == [];
    } else if Stuck(orders) {
      StuckForever(orders, n);
    } else {
      StuckIff(orders);
      PassesGetStuck(Remaining(orders), n - 1);
    }
  }

  /** A list of at most forty rows is done in one pass. */
  lemma ShortListDrains(orders: seq<Order>)
    requires |orders| <= LIVE_CHUNK
    ensures Remaining(orders) == []
  {
    forall k | 0 <= k < |orders| ensures ChunksNaming(orders, orders[k]) == 1 {
      FortyRowsAreReadable(orders, orders[k]);
    }
    StayMembers(orders, orders);
  }

  /** One order's rows alone: done in one pass if and only if there are at most forty, and stuck otherwise. */
  lemma OneOrderDrainsIff(orders: seq<Order>, order: Order)
    requires forall k | 0 <= k < |orders| :: orders[k] == order
    ensures Remaining(orders) == [] <==> |orders| <= LIVE_CHUNK
    ensures |orders| > LIVE_CHUNK ==> Stuck(orders)
  {
    if |orders| <= LIVE_CHUNK {
      ShortListDrains(orders);
    } else {
      assert orders[..LIVE_CHUNK][0] == order && orders[LIVE_CHUNK..][0] == order;
      NamedAtLeastOnce(orders[LIVE_CHUNK..], order);
      assert Stuck(orders);
      StuckIff(orders);
    }
  }

  lemma TwoPasses(orders: seq<Order>)
    ensures RemainingAfter(orders, 2) == Remaining(Remaining(orders))
  {
    var once := Remaining(orders);
    assert RemainingAfter(once, 1) == RemainingAfter(Remaining(once), 0);
    assert RemainingAfter(orders, 2) == RemainingAfter(once, 1);
  }

  /** A straddle need not last: two rows of one order around thirty-nine of another stay behind once, and the
      second pass, over these two alone, is readable. */
  lemma SecondPassReads(a: Order, b: Order, orders: seq<Order>)
    requires a != b && orders == [a] + seq(LIVE_CHUNK - 1, _ => b) + [a]
    ensures ChunksNaming(orders, a) == 2 && ChunksNaming(orders, b) == 1
    ensures Remaining(orders) == [a, a] && RemainingAfter(orders, 2) == []
  {
    var middle := seq(LIVE_CHUNK - 1, _ => b);
    assert orders[..LIVE_CHUNK] == [a] + middle && orders[LIVE_CHUNK..] == [a];
    assert orders[..LIVE_CHUNK][0] == a && orders[..LIVE_CHUNK][1] == b;
    FortyRowsAreReadable([a], a);
    assert ChunksNaming([a], b) == 0 by {
      assert [a][1..] == [] && [a][..1] == [a];
    }
    assert Stay(orders, [a]) == [a] by {
      assert [a][..0] == [];
    }
    StayDropsRun(orders, [a], b, LIVE_CHUNK - 1);
    assert orders[..|orders| - 1] == [a] + middle;
    assert Remaining(orders) == [a] + [a];
    ShortListDrains([a, a]);
    TwoPasses(orders);
  }

  lemma {:induction false} StayDropsRun(all: seq<Order>, head: seq<Order>, o: Order, n: nat)
    requires ChunksNaming(all, o) == 1
    ensures Stay(all, head + seq(n, _ => o)) == Stay(all, head)
  {
    var run := head + seq(n, _ => o);
    if n == 0 {
      assert run == head;
    } else {
      assert run[..|run| - 1] == head + seq(n - 1, _ => o);
      StayDropsRun(all, head, o, n - 1);
    }
  }
}
