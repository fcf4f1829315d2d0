/** The CRM as the scripts see it: paged listings, and a batch call of which any part may land. */
module CrmClient {
  import opened OrderDomain
  import opened StageOutbox

  const PAGE_SIZE: nat := 50

  function Filtered(deals: seq<Deal>, batch: seq<Order>): seq<Deal> {
    if deals == [] then []
    else
      var d := deals[|deals| - 1];
      Filtered(deals[..|deals| - 1], batch) + (if d.order in batch then [d] else [])
  }

  function PageEnd(n: nat, start: nat): nat { if n <= start + PAGE_SIZE then n else start + PAGE_SIZE }

  function Got(live: map<Order, seq<Deal>>, order: Order): seq<Deal> {
    if order in live then live[order] else []
  }

  lemma {:induction false} FilteredMatching(deals: seq<Deal>, batch: seq<Order>, order: Order)
    ensures Matching(Filtered(deals, batch), order) == if order in batch then Matching(deals, order) else []
  {
    if deals == [] {
    } else {
      var d, before := deals[|deals| - 1], Filtered(deals[..|deals| - 1], batch);
      FilteredMatching(deals[..|deals| - 1], batch, order);
      if d.order in batch {
        MatchingAppend(before, d, order);
      } else {
        assert Filtered(deals, batch) == before;
      }
    }
  }

  lemma {:induction false} MatchingAppend(deals: seq<Deal>, d: Deal, order: Order)
    ensures Matching(deals + [d], order) == Matching(deals, order) + (if d.order == order then [d] else [])
  {
    assert (deals + [d])[..|deals|] == deals;
  }

  /** `live` lists what `live0` lists, followed by `rows`, order by order. */
  ghost predicate Extends(live0: map<Order, seq<Deal>>, live: map<Order, seq<Deal>>, rows: seq<Deal>) {
    forall o: Order :: Got(live, o) == Got(live0, o) + Matching(rows, o)
  }

  function WithDeal(live: map<Order, seq<Deal>>, d: Deal): map<Order, seq<Deal>> {
    live[d.order := Got(live, d.order) + [d]]
  }

  lemma WithDealHere(live: map<Order, seq<Deal>>, d: Deal)
    ensures Got(WithDeal(live, d), d.order) == Got(live, d.order) + [d]
  {
  }

  lemma WithDealElsewhere(live: map<Order, seq<Deal>>, d: Deal, o: Order)
    requires d.order != o
    ensures Got(WithDeal(live, d), o) == Got(live, o)
  {
  }

  lemma {:induction false} WithDealAt(live0: map<Order, seq<Deal>>, live: map<Order, seq<Deal>>, rows: seq<Deal>,
                                      d: Deal, o: Order)
    requires Got(live, o) == Got(live0, o) + Matching(rows, o)
    ensures Got(WithDeal(live, d), o) == Got(live0, o) + Matching(rows + [d], o)
  {
    if d.order == o {
      calc {
        Got(WithDeal(live, d), o);
        { WithDealHere(live, d); }
        Got(live, o) + [d];
        (Got(live0, o) + Matching(rows, o)) + [d];
        Got(live0, o) + (Matching(rows, o) + [d]);
        { MatchingAppend(rows, d, o); }
        Got(live0, o) + Matching(rows + [d], o);
      }
    } else {
      WithDealElsewhere(live, d, o);
      MatchingAppend(rows, d, o);
      assert Matching(rows, o) + [] == Matching(rows, o);
    }
  }

  lemma ExtendsByOne(live0: map<Order, seq<Deal>>, live: map<Order, seq<Deal>>, rows: seq<Deal>, d: Deal)
    requires Extends(live0, live, rows)
    ensures Extends(live0, WithDeal(live, d), rows + [d])
  {
    forall o: Order ensures Got(WithDeal(live, d), o) == Got(live0, o) + Matching(rows + [d], o) {
      WithDealAt(live0, live, rows, d, o);
    }
  }

  lemma {:induction false} MatchingConcat(a: seq<Deal>, b: seq<Deal>, order: Order)
    ensures Matching(a + b, order) == Matching(a, order) + Matching(b, order)
  {
    if b == [] {
      assert a + b == a;
    } else {
      var front, d := b[..|b| - 1], b[|b| - 1];
      MatchingConcat(a, front, order);
      assert (a + b)[..|a + b| - 1] == a + front && (a + b)[|a + b| - 1] == d;
      var last := if d.order == order then [d] else [];
      assert Matching(a + b, order) == Matching(a + front, order) + last;
      assert (Matching(a, order) + Matching(front, order)) + last == Matching(a, order) + (Matching(front, order) + last);
    }
  }

  lemma ExtendsConcat(live0: map<Order, seq<Deal>>, live1: map<Order, seq<Deal>>, live2: map<Order, seq<Deal>>,
                      rows: seq<Deal>, more: seq<Deal>)
    requires Extends(live0, live1, rows) && Extends(live1, live2, more)
    ensures Extends(live0, live2, rows + more)
  {
    forall o: Order ensures Got(live2, o) == Got(live0, o) + Matching(rows + more, o) {
      MatchingConcat(rows, more, o);
      var a, m, n := Got(live0, o), Matching(rows, o), Matching(more, o);
      assert Got(live2, o) == Got(live1, o) + n && Got(live1, o) == a + m;
      assert (a + m) + n == a + (m + n);
    }
  }

  /** `live` plus what the chunks from `start` on will add is the whole listing. */
  ghost predicate ReadUpTo(live: map<Order, seq<Deal>>, deals: seq<Deal>, orders: seq<Order>, start: nat)
    requires start <= |orders|
  {
    forall o: Order :: Got(live, o) + Live(deals, orders[start..], o) == Live(deals, orders, o)
  }

  lemma {:induction false} ChunkAt(deals: seq<Deal>, orders: seq<Order>, start: nat, end: nat, o: Order)
    requires start < |orders| && end == (if |orders| <= start + LIVE_CHUNK then |orders| else start + LIVE_CHUNK)
    ensures Live(deals, orders[start..], o) ==
            Matching(Filtered(deals, orders[start..end]), o) + Live(deals, orders[end..], o)
  {
    var rest := orders[start..];
    assert rest[..end - start] == orders[start..end] && rest[end - start..] == orders[end..];
    FilteredMatching(deals, orders[start..end], o);
  }

  lemma {:induction false} ReadOneChunkFor(live0: map<Order, seq<Deal>>, live: map<Order, seq<Deal>>,
                                           deals: seq<Deal>, orders: seq<Order>, start: nat, end: nat, o: Order)
    requires start < |orders| && end == (if |orders| <= start + LIVE_CHUNK then |orders| else start + LIVE_CHUNK)
    requires Got(live0, o) + Live(deals, orders[start..], o) == Live(deals, orders, o)
    requires Got(live, o) == Got(live0, o) + Matching(Filtered(deals, orders[start..end]), o)
    ensures Got(live, o) + Live(deals, orders[end..], o) == Live(deals, orders, o)
  {
    var a, b, c := Got(live0, o), Matching(Filtered(deals, orders[start..end]), o), Live(deals, orders[end..], o);
    ChunkAt(deals, orders, start, end, o);
    assert (a + b) + c == a + (b + c);
  }

  lemma {:induction false} ReadOneChunk(live0: map<Order, seq<Deal>>, live: map<Order, seq<Deal>>, deals: seq<Deal>,
                                        orders: seq<Order>, start: nat, end: nat)
    requires start < |orders| && end == (if |orders| <= start + LIVE_CHUNK then |orders| else start + LIVE_CHUNK)
    requires ReadUpTo(live0, deals, orders, start) && Extends(live0, live, Filtered(deals, orders[start..end]))
    ensures ReadUpTo(live, deals, orders, end)
  {
    forall o: Order ensures Got(live, o) + Live(deals, orders[end..], o) == Live(deals, orders, o) {
      ReadOneChunkFor(live0, live, deals, orders, start, end, o);
    }
  }

  /** `live` is `live0` and the first `done` of the chunk's deals. */
  ghost predicate ReadSoFar(live0: map<Order, seq<Deal>>, live: map<Order, seq<Deal>>, found: seq<Deal>, done: nat) {
    done <= |found| && Extends(live0, live, found[..done])
  }

  lemma StartReading(live0: map<Order, seq<Deal>>, found: seq<Deal>)
    ensures ReadSoFar(live0, live0, found, 0)
  {
    assert found[..0] == [];
  }

  lemma PageIsSlice(found: seq<Deal>, done: nat, page: seq<Deal>)
    requires done <= |found| && page <= found[done..]
    ensures done + |page| <= |found| && found[..done] + page == found[..done + |page|]
    ensures page == found[done..] <==> done + |page| == |found|
  {
    assert page == found[done..][..|page|] == found[done..done + |page|];
  }

  lemma ReadOnePage(live0: map<Order, seq<Deal>>, before: map<Order, seq<Deal>>, live: map<Order, seq<Deal>>,
                    found: seq<Deal>, done: nat, page: seq<Deal>, upto: nat)
    requires done <= |found| && upto <= |found| && found[..done] + page == found[..upto]
    requires ReadSoFar(live0, before, found, done) && Extends(before, live, page)
    ensures ReadSoFar(live0, live, found, upto)
  {
    ExtendsConcat(live0, before, live, found[..done], page);
  }

  lemma LastPageIsRead(live0: map<Order, seq<Deal>>, before: map<Order, seq<Deal>>, live: map<Order, seq<Deal>>,
                       found: seq<Deal>, done: nat)
    requires done <= |found| && ReadSoFar(live0, before, found, done) && Extends(before, live, found[done..])
    ensures Extends(live0, live, found)
  {
    ExtendsConcat(live0, before, live, found[..done], found[done..]);
    assert found[..done] + found[done..] == found;
  }

  lemma PageIsRead(live0: map<Order, seq<Deal>>, before: map<Order, seq<Deal>>, live: map<Order, seq<Deal>>,
                   found: seq<Deal>, done: nat, page: seq<Deal>, next: Option<nat>)
    requires done <= |found| && page <= found[done..] && ReadSoFar(live0, before, found, done)
    requires Extends(before, live, page)
    requires next.None? <==> page == found[done..]
    requires next.Some? ==> next.value == done + |page| && page != []
    ensures next.Some? ==> done < next.value && ReadSoFar(live0, live, found, next.value)
    ensures next.None? ==> Extends(live0, live, found)
  {
    if next.None? {
      LastPageIsRead(live0, before, live, found, done);
    } else {
      PageIsSlice(found, done, page);
      ReadOnePage(live0, before, live, found, done, page, next.value);
    }
  }

  class Crm {
    var deals: seq<Deal>

    constructor (deals: seq<Deal>)
      ensures this.deals == deals
    {
      this.deals := deals;
    }

    /** `crm.deal.list` for a batch of order numbers: the next deals of the listing, and where it goes on, if this
        was not the rest of it. */
    method ListPage(batch: seq<Order>, start: nat) returns (page: seq<Deal>, next: Option<nat>)
      requires start <= |Filtered(deals, batch)|
      ensures page <= Filtered(deals, batch)[start..]
      ensures next.None? <==> page == Filtered(deals, batch)[start..]
      ensures next.Some? ==> next.value == start + |page| && page != []
      ensures |page| <= PAGE_SIZE
    {
      var found := Filtered(deals, batch);
      page := found[start..PageEnd(|found|, start)];
      next := if start + PAGE_SIZE < |found| then Some(start + PAGE_SIZE) else None;
    }

    /** The rows of one page are appended to the lists of their orders. */
    method AddPage(page: seq<Deal>, live0: map<Order, seq<Deal>>) returns (live: map<Order, seq<Deal>>)
      ensures Extends(live0, live, page)
    {
      live := live0;
      for k := 0 to |page|
        invariant Extends(live0, live, page[..k])
      {
        var d := page[k];
        ExtendsByOne(live0, live, page[..k], d);
        assert page[..k] + [d] == page[..k + 1];
        live := WithDeal(live, d);
      }
      assert page[..|page|] == page;
    }

    /** One turn of the inner loop: fetch a page and append it. */
    method NextPage(batch: seq<Order>, ghost live0: map<Order, seq<Deal>>, live1: map<Order, seq<Deal>>, offset: nat)
      returns (live: map<Order, seq<Deal>>, next: Option<nat>)
      requires ReadSoFar(live0, live1, Filtered(deals, batch), offset)
      ensures next.Some? ==> offset < next.value && ReadSoFar(live0, live, Filtered(deals, batch), next.value)
      ensures next.None? ==> Extends(live0, live, Filtered(deals, batch))
    {
      ghost var found := Filtered(deals, batch);
      var page;
      page, next := ListPage(batch, offset);
      live := AddPage(page, live1);
      PageIsRead(live0, live1, live, found, offset, page, next);
    }

    /** The inner loops of `_live_deals`: every page of one chunk is appended to `live0`. */
    method AddChunk(batch: seq<Order>, live0: map<Order, seq<Deal>>) returns (live: map<Order, seq<Deal>>)
      ensures Extends(live0, live, Filtered(deals, batch))
    {
      live := live0;
      var offset: Option<nat> := Some(0);
      StartReading(live0, Filtered(deals, batch));
      while offset.Some?
        invariant offset.Some? ==> ReadSoFar(live0, live, Filtered(deals, batch), offset.value)
        invariant offset.None? ==> Extends(live0, live, Filtered(deals, batch))
        decreases if offset.Some? then |Filtered(deals, batch)| - offset.value + 1 else 0
      {
        live, offset := NextPage(batch, live0, live, offset.value);
      }
    }

    /** `_live_deals` */
    method LiveDeals(orders: seq<Order>) returns (live: map<Order, seq<Deal>>)
      ensures forall o: Order :: Got(live, o) == Live(deals, orders, o)
    {
      live := map[];
      var start := 0;
      while start < |orders|
        invariant start <= |orders| && ReadUpTo(live, deals, orders, start)
      {
        var end := if |orders| <= start + LIVE_CHUNK then |orders| else start + LIVE_CHUNK;
        ghost var live0 := live;
        live := AddChunk(orders[start..end], live);
        ReadOneChunk(live0, live, deals, orders, start, end);
        start := end;
      }
      forall o: Order ensures Got(live, o) == Live(deals, orders, o) {
        assert Got(live, o) + Live(deals, orders[start..], o) == Live(deals, orders, o);
      }
    }

    /** A non-halting `batch` of stage updates: each of them lands or fails on its own. */
    method Batch(dealIds: seq<int>, target: Stage) returns (ghost landed: set<nat>)
      modifies this
      ensures forall k | k in landed :: k < |dealIds|
      ensures |deals| == |old(deals)|
      ensures forall j | 0 <= j < |deals| ::
                deals[j] == if exists k | k in landed :: k < |dealIds| && dealIds[k] == old(deals)[j].id
                            then old(deals)[j].(stage := target) else old(deals)[j]
    {
      landed := {};
      for k := 0 to |dealIds|
        invariant forall m | m in landed :: m < k
        invariant |deals| == |old(deals)|
        invariant forall j | 0 <= j < |deals| ::
                    deals[j] == if exists m | m in landed :: m < |dealIds| && dealIds[m] == old(deals)[j].id
                                then old(deals)[j].(stage := target) else old(deals)[j]
      {
        var lands: bool := *;
        if lands {
          ghost var before, landed0 := deals, landed;
          deals := seq(|deals|, j requires 0 <= j < |before| reads this requires before == deals =>
            if deals[j].id == dealIds[k] then deals[j].(stage := target) else deals[j]);
          landed := landed + {k};
          forall j | 0 <= j < |deals|
            ensures deals[j] == if exists m | m in landed :: m < |dealIds| && dealIds[m] == old(deals)[j].id
                                then old(deals)[j].(stage := target) else old(deals)[j]
          {
            assert k in landed;
            if exists m | m in landed0 :: m < |dealIds| && dealIds[m] == old(deals)[j].id {
              var m :| m in landed0 && m < |dealIds| && dealIds[m] == old(deals)[j].id;
              assert m in landed;
            }
          }
        }
      }
    }
  }
}
