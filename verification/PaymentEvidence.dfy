/** Payments of a pickup order, split by the times of its last sale and of its last return. */
module PaymentEvidence {
  import opened OrderDomain

  datatype Payment = Payment(at: int, amount: int)

  predicate InRange(at: int, low: Option<int>, high: Option<int>) {
    (low.Some? ==> low.value <= at) && (high.Some? ==> at < high.value)
  }

  /** The payments made at or after `low` and before `high`, in their order. */
  function Between(items: seq<Payment>, low: Option<int>, high: Option<int>): (r: seq<Payment>)
    ensures forall k | 0 <= k < |r| :: r[k] in items && InRange(r[k].at, low, high)
  {
    if items == [] then []
    else
      Between(items[..|items| - 1], low, high) +
      (if InRange(items[|items| - 1].at, low, high) then [items[|items| - 1]] else [])
  }

  function Total(items: seq<Payment>): int {
    if items == [] then 0 else Total(items[..|items| - 1]) + items[|items| - 1].amount
  }

  function LatestAt(items: seq<Payment>): (r: int)
    requires items != []
    ensures exists k | 0 <= k < |items| :: items[k].at == r
    ensures forall k | 0 <= k < |items| :: items[k].at <= r
  {
    var last := items[|items| - 1].at;
    if |items| == 1 then last
    else
      var r := LatestAt(items[..|items| - 1]);
      if last > r then last else r
  }

  function Early(items: seq<Payment>, rtuAt: int): seq<Payment> { Between(items, None, Some(rtuAt)) }

  function BeforeReturn(items: seq<Payment>, rtuAt: int, returnAt: int): seq<Payment> {
    Between(items, Some(rtuAt), Some(returnAt))
  }

  function AfterReturn(items: seq<Payment>, returnAt: int): seq<Payment> { Between(items, Some(returnAt), None) }

  /** `Fails` stands for the ValueError of `max` over no payments. */
  datatype PaymentSequence = Fails | Sequence(before: int, after: int, qualifyingAt: Option<int>)

  /** `_pickup_payment_sequence` */
  function PaymentsOf(items: seq<Payment>, rtuAt: int, returnAt: int, sale: int): PaymentSequence {
    var before := BeforeReturn(items, rtuAt, returnAt);
    var beforeAmount, afterAmount := Total(before), Total(AfterReturn(items, returnAt));
    if beforeAmount >= sale - MONEY_TOLERANCE then
      if before == [] then Fails else Sequence(beforeAmount, afterAmount, Some(LatestAt(before)))
    else Sequence(beforeAmount, afterAmount, None)
  }

  lemma {:induction false} BetweenCount(items: seq<Payment>, low: Option<int>, high: Option<int>, p: Payment)
    ensures multiset(Between(items, low, high))[p] == if InRange(p.at, low, high) then multiset(items)[p] else 0
  {
    if items == [] {
    } else {
      var rest := items[..|items| - 1];
      BetweenCount(rest, low, high, p);
      assert items == rest + [items[|items| - 1]];
    }
  }

  lemma {:induction false} BetweenTotal(items: seq<Payment>, low: Option<int>, high: Option<int>)
    requires items != []
    ensures Total(Between(items, low, high)) ==
            Total(Between(items[..|items| - 1], low, high)) +
            (if InRange(items[|items| - 1].at, low, high) then items[|items| - 1].amount else 0)
  {
    var before := Between(items[..|items| - 1], low, high);
    if InRange(items[|items| - 1].at, low, high) {
      TotalAppend(before, items[|items| - 1]);
    } else {
      assert Between(items, low, high) == before;
    }
  }

  lemma {:induction false} BetweenTotals(items: seq<Payment>, rtuAt: int, returnAt: int)
    requires rtuAt <= returnAt
    ensures Total(items) == Total(Early(items, rtuAt)) + Total(BeforeReturn(items, rtuAt, returnAt)) +
                            Total(AfterReturn(items, returnAt))
  {
    if items == [] {
    } else {
      BetweenTotals(items[..|items| - 1], rtuAt, returnAt);
      BetweenTotal(items, None, Some(rtuAt));
      BetweenTotal(items, Some(rtuAt), Some(returnAt));
      BetweenTotal(items, Some(returnAt), None);
    }
  }

  lemma {:induction false} TotalAppend(items: seq<Payment>, p: Payment)
    ensures Total(items + [p]) == Total(items) + p.amount
  {
    assert (items + [p])[..|items|] == items;
  }

  /** Whenever the return is not before the sale, early payments, payments before the return and payments
      after it partition the movements: each payment occurs in them exactly as often as among the
      movements, and the three amounts add up to the whole. */
  lemma {:induction false} PaymentsPartition(items: seq<Payment>, rtuAt: int, returnAt: int, p: Payment)
    requires rtuAt <= returnAt
    ensures multiset(items)[p] ==
            multiset(Early(items, rtuAt))[p] + multiset(BeforeReturn(items, rtuAt, returnAt))[p] +
            multiset(AfterReturn(items, returnAt))[p]
    ensures Total(items) == Total(Early(items, rtuAt)) + Total(BeforeReturn(items, rtuAt, returnAt)) +
                            Total(AfterReturn(items, returnAt))
  {
    BetweenTotals(items, rtuAt, returnAt);
    BetweenCount(items, None, Some(rtuAt), p);
    BetweenCount(items, Some(rtuAt), Some(returnAt), p);
    BetweenCount(items, Some(returnAt), None, p);
  }

  /** The computation fails exactly on an order without a payment before the return whose sale amount is
      within the tolerance; the callers refuse such amounts first. */
  lemma FailsExactlyOnSmallSale(items: seq<Payment>, rtuAt: int, returnAt: int, sale: int)
    ensures PaymentsOf(items, rtuAt, returnAt, sale).Fails? <==>
            BeforeReturn(items, rtuAt, returnAt) == [] && sale <= MONEY_TOLERANCE
  {
    assert BeforeReturn(items, rtuAt, returnAt) == [] ==> Total(BeforeReturn(items, rtuAt, returnAt)) == 0;
  }

  /** A qualifying time is the time of a payment made at or after the last sale and before the return, and
      it is the last such time. */
  lemma QualifyingTime(items: seq<Payment>, rtuAt: int, returnAt: int, sale: int)
    requires PaymentsOf(items, rtuAt, returnAt, sale).Sequence?
    ensures var q := PaymentsOf(items, rtuAt, returnAt, sale).qualifyingAt;
            q.Some? ==> rtuAt <= q.value < returnAt && (exists p :: p in items && p.at == q.value) &&
                        forall p | p in items && rtuAt <= p.at < returnAt :: p.at <= q.value
  {
    var q := PaymentsOf(items, rtuAt, returnAt, sale).qualifyingAt;
    var before := BeforeReturn(items, rtuAt, returnAt);
    if q.Some? {
      var k :| 0 <= k < |before| && before[k].at == q.value;
      assert before[k] in items;
      forall p | p in items && rtuAt <= p.at < returnAt ensures p.at <= q.value {
        BetweenKeeps(items, Some(rtuAt), Some(returnAt), p);
      }
    }
  }

  lemma {:induction false} BetweenKeeps(items: seq<Payment>, low: Option<int>, high: Option<int>, p: Payment)
    requires p in items && InRange(p.at, low, high)
    ensures p in Between(items, low, high)
  {
    if p in items[..|items| - 1] {
      BetweenKeeps(items[..|items| - 1], low, high, p);
    }
  }
}
