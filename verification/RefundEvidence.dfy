/** Attribution of payments and refunds to orders: `_money_refund_evidence` over the 1C documents. */
module RefundEvidence {
  import opened OrderDomain

  // ---------- the 1C documents, and the movement rows the query takes from them ----------

  /** `counts` is "posted and not marked for deletion". */
  datatype Sale = Sale(order: Order, counts: bool)

  /** `sales` are the sales named in the header or on a line of the return. */
  datatype ReturnDoc = ReturnDoc(sales: set<nat>, counts: bool)

  datatype RefundDoc = RefundDoc(ref: nat, returnRef: nat, amount: int, counts: bool)

  datatype PaymentLink = ByOrder(order: Order) | BySale(sale: nat)

  datatype PaymentDoc = PaymentDoc(ref: nat, link: PaymentLink, amount: int, counts: bool)

  datatype Ledger = Ledger(sales: map<nat, Sale>, goodsReturns: map<nat, ReturnDoc>, refunds: seq<RefundDoc>,
                           payments: seq<PaymentDoc>)
  {
    predicate Valid() {
      (forall i, j | 0 <= i < j < |refunds| :: refunds[i].ref != refunds[j].ref) &&
      (forall i, j | 0 <= i < j < |payments| :: payments[i].ref != payments[j].ref)
    }

    /** `return_map`: the return counts and names a sale of the order that counts. */
    predicate MapsReturn(order: Order, returnRef: nat) {
      returnRef in goodsReturns && goodsReturns[returnRef].counts &&
      exists s | s in goodsReturns[returnRef].sales :: s in sales && sales[s].counts && sales[s].order == order
    }

    /** `all_return_orders`: every order behind the return, asked for or not, its sale counting or not. */
    function ReturnOrders(returnRef: nat): set<Order>
      requires returnRef in goodsReturns
    {
      set s | s in goodsReturns[returnRef].sales && s in sales :: sales[s].order
    }
  }

  datatype Kind = PaymentKind | RefundKind

  datatype Movement = Movement(order: Order, kind: Kind, doc: nat, amount: int, exact: bool)

  predicate IsPaymentRow(ledger: Ledger, m: Movement) {
    m.kind.PaymentKind? && m.exact &&
    exists i | 0 <= i < |ledger.payments| ::
      var p := ledger.payments[i];
      p.ref == m.doc && p.amount == m.amount && p.counts &&
      match p.link
      case ByOrder(order) => order == m.order
      case BySale(sale) => sale in ledger.sales && ledger.sales[sale].counts && ledger.sales[sale].order == m.order
  }

  predicate IsRefundRow(ledger: Ledger, m: Movement) {
    m.kind.RefundKind? &&
    exists i | 0 <= i < |ledger.refunds| ::
      var r := ledger.refunds[i];
      r.ref == m.doc && r.amount == m.amount && r.counts && ledger.MapsReturn(m.order, r.returnRef) &&
      m.exact == (|ledger.ReturnOrders(r.returnRef)| == 1)
  }

  /** The rows of the query; UNION ALL may list the same movement more than once. */
  predicate RowsFrom(ledger: Ledger, rows: seq<Movement>) {
    forall k | 0 <= k < |rows| :: IsPaymentRow(ledger, rows[k]) || IsRefundRow(ledger, rows[k])
  }

  // ---------- deduplication and sums ----------

  predicate SameKey(a: Movement, b: Movement) { a.order == b.order && a.kind == b.kind && a.doc == b.doc }

  predicate DistinctKeys(rows: seq<Movement>) {
    forall i, j | 0 <= i < j < |rows| :: !SameKey(rows[i], rows[j])
  }

  /** `unique[key] = row` */
  function Put(unique: seq<Movement>, m: Movement): seq<Movement> {
    if unique == [] then [m]
    else
      var n := |unique| - 1;
      if SameKey(unique[n], m) then unique[..n] + [m] else Put(unique[..n], m) + [unique[n]]
  }

  function Dedup(rows: seq<Movement>): seq<Movement> {
    if rows == [] then [] else Put(Dedup(rows[..|rows| - 1]), rows[|rows| - 1])
  }

  datatype Part = Paid | Refunded | Ambiguous

  function PartOf(m: Movement): Part {
    if m.kind.PaymentKind? then Paid else if m.exact then Refunded else Ambiguous
  }

  function Sum(rows: seq<Movement>, order: Order, part: Part): int {
    if rows == [] then 0
    else
      var m := rows[|rows| - 1];
      Sum(rows[..|rows| - 1], order, part) + (if m.order == order && PartOf(m) == part then m.amount else 0)
  }

  function OrderTotal(rows: seq<Movement>, order: Order): int {
    if rows == [] then 0
    else OrderTotal(rows[..|rows| - 1], order) + (if rows[|rows| - 1].order == order then rows[|rows| - 1].amount else 0)
  }

  lemma {:induction false} PutMembers(unique: seq<Movement>, m: Movement)
    requires DistinctKeys(unique)
    ensures DistinctKeys(Put(unique, m))
    ensures forall x :: x in Put(unique, m) <==> x == m || (x in unique && !SameKey(x, m))
  {
    if unique == [] {
    } else {
      var n := |unique| - 1;
      var rest, last := unique[..n], unique[n];
      PutMembers(rest, m);
      assert unique == rest + [last];
      if SameKey(last, m) {
        assert Put(unique, m) == rest + [m];
      } else {
        assert Put(unique, m) == Put(rest, m) + [last];
        forall k | 0 <= k < |Put(rest, m)| ensures !SameKey(Put(rest, m)[k], last) {
          assert Put(rest, m)[k] in Put(rest, m);
        }
      }
    }
  }

  lemma {:induction false} DedupKeepsKeys(rows: seq<Movement>, x: Movement) returns (y: Movement)
    requires x in rows
    ensures y in Dedup(rows) && SameKey(x, y)
  {
    var rest, m := rows[..|rows| - 1], rows[|rows| - 1];
    DedupIsDistinct(rest);
    PutMembers(Dedup(rest), m);
    if SameKey(x, m) {
      y := m;
    } else {
      assert x in rest;
      y := DedupKeepsKeys(rest, x);
    }
  }

  lemma {:induction false} DedupIsDistinct(rows: seq<Movement>)
    ensures DistinctKeys(Dedup(rows))
    ensures forall x | x in Dedup(rows) :: x in rows
  {
    if rows == [] {
    } else {
      DedupIsDistinct(rows[..|rows| - 1]);
      PutMembers(Dedup(rows[..|rows| - 1]), rows[|rows| - 1]);
    }
  }

  /** No row is counted twice, no key is lost, and only fetched rows are counted. */
  lemma {:induction false} DedupIsSound(rows: seq<Movement>)
    ensures DistinctKeys(Dedup(rows))
    ensures forall x | x in Dedup(rows) :: x in rows
    ensures forall x | x in rows :: exists y | y in Dedup(rows) :: SameKey(x, y)
  {
    DedupIsDistinct(rows);
    forall x | x in rows ensures exists y | y in Dedup(rows) :: SameKey(x, y) {
      var y := DedupKeepsKeys(rows, x);
    }
  }

  /** Payment, exact refund and ambiguous refund of an order add up to all its deduplicated movements. */
  lemma {:induction false} PartsAddUp(rows: seq<Movement>, order: Order)
    ensures Sum(rows, order, Paid) + Sum(rows, order, Refunded) + Sum(rows, order, Ambiguous) == OrderTotal(rows, order)
  {
    if rows == [] {
    } else {
      PartsAddUp(rows[..|rows| - 1], order);
    }
  }

  // ---------- no refund document is exact for two orders ----------

  lemma SingletonHasOne(s: set<Order>, a: Order, b: Order)
    requires |s| == 1 && a in s && b in s
    ensures a == b
  {
    assert |s - {a}| == 0;
    assert b !in s - {a};
  }

  lemma ExactRefundHasOneOrder(ledger: Ledger, a: Movement, b: Movement)
    requires ledger.Valid() && IsRefundRow(ledger, a) && IsRefundRow(ledger, b)
    requires a.doc == b.doc && a.exact
    ensures a.order == b.order && a.amount == b.amount && b.exact
  {
    var i :| 0 <= i < |ledger.refunds| &&
             var r := ledger.refunds[i];
             r.ref == a.doc && r.amount == a.amount && r.counts && ledger.MapsReturn(a.order, r.returnRef) &&
             a.exact == (|ledger.ReturnOrders(r.returnRef)| == 1);
    var r := ledger.refunds[i].returnRef;
    assert ledger.MapsReturn(b.order, r);
    assert a.order in ledger.ReturnOrders(r) && b.order in ledger.ReturnOrders(r);
    SingletonHasOne(ledger.ReturnOrders(r), a.order, b.order);
  }

  function DocTotal(docs: seq<RefundDoc>): int {
    if docs == [] then 0 else DocTotal(docs[..|docs| - 1]) + docs[|docs| - 1].amount
  }

  function SumOverOrders(rows: seq<Movement>, orders: seq<Order>, part: Part): int {
    if orders == [] then 0
    else SumOverOrders(rows, orders[..|orders| - 1], part) + Sum(rows, orders[|orders| - 1], part)
  }

  function ExactRows(rows: seq<Movement>, orders: seq<Order>): seq<Movement> {
    if rows == [] then []
    else
      var m := rows[|rows| - 1];
      ExactRows(rows[..|rows| - 1], orders) + (if PartOf(m).Refunded? && m.order in orders then [m] else [])
  }

  function Amounts(rows: seq<Movement>): int {
    if rows == [] then 0 else Amounts(rows[..|rows| - 1]) + rows[|rows| - 1].amount
  }

  predicate Distinct(orders: seq<Order>) { forall i, j | 0 <= i < j < |orders| :: orders[i] != orders[j] }

  lemma {:induction false} SumOverOrdersStep(rows: seq<Movement>, orders: seq<Order>, part: Part)
    requires rows != [] && Distinct(orders)
    ensures var m := rows[|rows| - 1];
            SumOverOrders(rows, orders, part) == SumOverOrders(rows[..|rows| - 1], orders, part) +
                                                 (if m.order in orders && PartOf(m) == part then m.amount else 0)
  {
    if orders == [] {
    } else {
      SumOverOrdersStep(rows, orders[..|orders| - 1], part);
      assert orders == orders[..|orders| - 1] + [orders[|orders| - 1]];
    }
  }

  lemma {:induction false} NothingToSum(orders: seq<Order>, part: Part)
    ensures SumOverOrders([], orders, part) == 0
  {
    if orders != [] { NothingToSum(orders[..|orders| - 1], part); }
  }

  lemma {:induction false} ExactSumsAreRowSums(rows: seq<Movement>, orders: seq<Order>)
    requires Distinct(orders)
    ensures SumOverOrders(rows, orders, Refunded) == Amounts(ExactRows(rows, orders))
  {
    if rows == [] {
      NothingToSum(orders, Refunded);
    } else {
      var m, before := rows[|rows| - 1], ExactRows(rows[..|rows| - 1], orders);
      ExactSumsAreRowSums(rows[..|rows| - 1], orders);
      SumOverOrdersStep(rows, orders, Refunded);
      if PartOf(m).Refunded? && m.order in orders {
        assert (before + [m])[..|before|] == before;
      } else {
        assert ExactRows(rows, orders) == before;
      }
    }
  }

  lemma {:induction false} DocTotalWithout(docs: seq<RefundDoc>, j: nat)
    requires j < |docs|
    ensures DocTotal(docs) == DocTotal(docs[..j] + docs[j + 1..]) + docs[j].amount
  {
    if j == |docs| - 1 {
      assert docs[..j] + docs[j + 1..] == docs[..j];
    } else {
      var n := |docs| - 1;
      DocTotalWithout(docs[..n], j);
      assert (docs[..j] + docs[j + 1..])[..n - 1] == docs[..n][..j] + docs[..n][j + 1..];
    }
  }

  predicate Covered(docs: seq<RefundDoc>, m: Movement) {
    exists j | 0 <= j < |docs| :: docs[j].ref == m.doc && docs[j].amount == m.amount
  }

  predicate Covers(docs: seq<RefundDoc>, rows: seq<Movement>) {
    forall k | 0 <= k < |rows| :: Covered(docs, rows[k])
  }

  predicate DistinctDocs(rows: seq<Movement>) {
    forall i, j | 0 <= i < j < |rows| :: rows[i].doc != rows[j].doc
  }

  lemma {:induction false} RowsWithinDocs(rows: seq<Movement>, docs: seq<RefundDoc>)
    requires DistinctDocs(rows) && Covers(docs, rows)
    requires forall j | 0 <= j < |docs| :: docs[j].amount >= 0
    ensures Amounts(rows) <= DocTotal(docs)
    decreases |rows| + |docs|
  {
    if rows == [] {
      if docs != [] { RowsWithinDocs(rows, docs[..|docs| - 1]); }
    } else {
      var n := |rows| - 1;
      assert Covered(docs, rows[n]);
      var j :| 0 <= j < |docs| && docs[j].ref == rows[n].doc && docs[j].amount == rows[n].amount;
      var rest := docs[..j] + docs[j + 1..];
      forall k | 0 <= k < n ensures Covered(rest, rows[k]) {
        assert Covered(docs, rows[k]);
        var i :| 0 <= i < |docs| && docs[i].ref == rows[k].doc && docs[i].amount == rows[k].amount;
        assert i != j;
        assert rest[if i < j then i else i - 1] == docs[i];
      }
      RowsWithinDocs(rows[..n], rest);
      DocTotalWithout(docs, j);
    }
  }

  lemma {:induction false} ExactRowsMembers(rows: seq<Movement>, orders: seq<Order>)
    requires DistinctKeys(rows)
    ensures forall k | 0 <= k < |ExactRows(rows, orders)| ::
              ExactRows(rows, orders)[k] in rows && PartOf(ExactRows(rows, orders)[k]).Refunded?
    ensures DistinctKeys(ExactRows(rows, orders))
  {
    if rows == [] {
    } else {
      ExactRowsMembers(rows[..|rows| - 1], orders);
      assert rows == rows[..|rows| - 1] + [rows[|rows| - 1]];
    }
  }

  lemma RefundRowIsCovered(ledger: Ledger, m: Movement)
    requires IsRefundRow(ledger, m)
    ensures Covered(ledger.refunds, m)
  {
  }

  lemma ExactRowsAreDistinct(ledger: Ledger, exact: seq<Movement>)
    requires ledger.Valid() && DistinctKeys(exact)
    requires forall k | 0 <= k < |exact| :: IsRefundRow(ledger, exact[k]) && exact[k].exact
    ensures DistinctDocs(exact)
  {
    forall i, j | 0 <= i < j < |exact| ensures exact[i].doc != exact[j].doc {
      if exact[i].doc == exact[j].doc { ExactRefundHasOneOrder(ledger, exact[i], exact[j]); }
    }
  }

  /** The exact refunds of any set of orders, taken together, never exceed the distinct refund documents. */
  lemma {:induction false} ExactRefundsWithinDocuments(ledger: Ledger, rows: seq<Movement>, orders: seq<Order>)
    requires ledger.Valid() && RowsFrom(ledger, rows) && Distinct(orders)
    requires forall j | 0 <= j < |ledger.refunds| :: ledger.refunds[j].amount >= 0
    ensures SumOverOrders(Dedup(rows), orders, Refunded) <= DocTotal(ledger.refunds)
  {
    var unique := Dedup(rows);
    var exact := ExactRows(unique, orders);
    DedupIsSound(rows);
    ExactRowsMembers(unique, orders);
    assert DistinctDocs(exact) && Covers(ledger.refunds, exact) by {
      forall k | 0 <= k < |exact|
        ensures IsRefundRow(ledger, exact[k]) && exact[k].exact && Covered(ledger.refunds, exact[k])
      {
        assert exact[k] in rows;
        RefundRowIsCovered(ledger, exact[k]);
      }
      ExactRowsAreDistinct(ledger, exact);
    }
    RowsWithinDocs(exact, ledger.refunds);
    ExactSumsAreRowSums(unique, orders);
  }

  // ---------- the method ----------

  datatype Classification = FullMoneyRefund | PartialRefund | AmbiguousRefund | NoRefund

  datatype Money = Money(payment: int, refund: int, ambiguous: int, classification: Classification)

  /** `_classify_money_refund` */
  function Classify(payment: int, refund: int, ambiguous: int): Classification {
    if payment > MONEY_TOLERANCE && refund >= payment - MONEY_TOLERANCE then FullMoneyRefund
    else if refund > MONEY_TOLERANCE then PartialRefund
    else if ambiguous > MONEY_TOLERANCE then AmbiguousRefund
    else NoRefund
  }

  /** A full refund is never concluded from ambiguous links, and money a document may owe to the order
      is never reported as "no refund". */
  lemma ClassificationFailsClosed(payment: int, refund: int, ambiguous: int, other: int)
    ensures Classify(payment, refund, ambiguous).FullMoneyRefund? <==> Classify(payment, refund, other).FullMoneyRefund?
    ensures Classify(payment, refund, ambiguous).NoRefund? ==>
              refund <= MONEY_TOLERANCE && ambiguous <= MONEY_TOLERANCE &&
              (payment <= MONEY_TOLERANCE || payment - refund > MONEY_TOLERANCE)
  {
  }

  method SumParts(unique: seq<Movement>, order: Order) returns (payment: int, refund: int, ambiguous: int)
    ensures payment == Sum(unique, order, Paid) && refund == Sum(unique, order, Refunded) &&
            ambiguous == Sum(unique, order, Ambiguous)
  {
    payment, refund, ambiguous := 0, 0, 0;
    for k := 0 to |unique|
      invariant payment == Sum(unique[..k], order, Paid) && refund == Sum(unique[..k], order, Refunded) &&
                ambiguous == Sum(unique[..k], order, Ambiguous)
    {
      var m := unique[k];
      assert unique[..k + 1][..k] == unique[..k];
      if m.order == order {
        if m.kind == PaymentKind {
          payment := payment + m.amount;
        } else if m.exact {
          refund := refund + m.amount;
        } else {
          ambiguous := ambiguous + m.amount;
        }
      }
    }
    assert unique[..|unique|] == unique;
  }

  /** `_money_refund_evidence` for the fetched rows. */
  method MoneyRefundEvidence(rows: seq<Movement>, orders: seq<Order>) returns (result: map<Order, Money>)
    ensures forall o :: o in result <==> o in orders
    ensures forall o | o in result ::
              result[o].payment == Sum(Dedup(rows), o, Paid) && result[o].refund == Sum(Dedup(rows), o, Refunded) &&
              result[o].ambiguous == Sum(Dedup(rows), o, Ambiguous) &&
              result[o].payment + result[o].refund + result[o].ambiguous == OrderTotal(Dedup(rows), o) &&
              result[o].classification == Classify(result[o].payment, result[o].refund, result[o].ambiguous)
  {
    var unique: seq<Movement> := [];
    for k := 0 to |rows|
      invariant unique == Dedup(rows[..k])
    {
      assert rows[..k + 1][..k] == rows[..k];
      unique := Put(unique, rows[k]);
    }
    assert rows[..|rows|] == rows;
    result := map[];
    for k := 0 to |orders|
      invariant forall o :: o in result <==> o in orders[..k]
      invariant forall o | o in result ::
                  result[o].payment == Sum(unique, o, Paid) && result[o].refund == Sum(unique, o, Refunded) &&
                  result[o].ambiguous == Sum(unique, o, Ambiguous) &&
                  result[o].classification == Classify(result[o].payment, result[o].refund, result[o].ambiguous)
    {
      var payment, refund, ambiguous := SumParts(unique, orders[k]);
      result := result[orders[k] := Money(payment, refund, ambiguous, Classify(payment, refund, ambiguous))];
      assert orders[..k + 1] == orders[..k] + [orders[k]];
    }
    assert orders[..|orders|] == orders;
    forall o | o in result
      ensures result[o].payment + result[o].refund + result[o].ambiguous == OrderTotal(unique, o)
    {
      PartsAddUp(unique, o);
    }
  }
}
