/** The sales documents (RTU) of an order in 1C.  `query_rtu_signal_by_orders` sums them up and
    `_pickup_issued_rtu_movements` lists them; both look at the posted, unmarked ones and call one issued by the same
    two tests, so what the two say is not independent. */
module RtuDocuments {
  import opened OrderDomain
  import opened ReadyBatches

  /** A posted return that names the RTU in its header or on a line, and what it gives back of it. */
  datatype GoodsReturn = GoodsReturn(at: int, amount: int)

  datatype Rtu = Rtu(number: string, date: int, sale: int, printed: bool, scans: seq<int>, goodsReturns: seq<GoodsReturn>)
  {
    predicate Issued() { printed && scans != [] }
  }

  function Later(a: Option<int>, b: Option<int>): Option<int> {
    if a.None? then b else if b.None? || b.value <= a.value then a else b
  }

  function LatestTime(times: seq<int>): Option<int> {
    if times == [] then None else Later(LatestTime(times[..|times| - 1]), Some(times[|times| - 1]))
  }

  function LatestReturn(found: seq<GoodsReturn>): Option<int> {
    if found == [] then None else Later(LatestReturn(found[..|found| - 1]), Some(found[|found| - 1].at))
  }

  function ReturnedAmount(found: seq<GoodsReturn>): int {
    if found == [] then 0 else ReturnedAmount(found[..|found| - 1]) + found[|found| - 1].amount
  }

  /** The sums and maxima over an order's documents. */
  function SumUp(rtus: seq<Rtu>): RtuSignal {
    if rtus == [] then RtuSignal(0, 0, 0, 0, 0, None, None)
    else
      var s, r := SumUp(rtus[..|rtus| - 1]), rtus[|rtus| - 1];
      RtuSignal(s.rtuCount + 1, s.returnedRtuCount + (if r.goodsReturns != [] then 1 else 0),
                s.issuedRtuCount + (if r.Issued() then 1 else 0), s.sale + r.sale,
                s.returned + ReturnedAmount(r.goodsReturns), Later(s.latestRtuAt, Some(r.date)),
                Later(s.latestReturnAt, LatestReturn(r.goodsReturns)))
  }

  /** `query_rtu_signal_by_orders` for one order: no row without a document. */
  function SignalOf(rtus: seq<Rtu>): Option<RtuSignal> { if rtus == [] then None else Some(SumUp(rtus)) }

  /** `_pickup_issued_rtu_movements` for one order. */
  function MovementsOf(rtus: seq<Rtu>): (r: seq<RtuMovement>)
    ensures |r| == |rtus|
    ensures forall k | 0 <= k < |rtus| ::
              r[k] == RtuMovement(rtus[k].number, rtus[k].sale, rtus[k].Issued(), LatestTime(rtus[k].scans),
                                  LatestReturn(rtus[k].goodsReturns))
  {
    seq(|rtus|, k requires 0 <= k < |rtus| =>
      RtuMovement(rtus[k].number, rtus[k].sale, rtus[k].Issued(), LatestTime(rtus[k].scans),
                  LatestReturn(rtus[k].goodsReturns)))
  }

  /** The signal counts issued documents exactly when the movements list one. */
  lemma {:induction false} IssuedIsShared(rtus: seq<Rtu>)
    ensures SumUp(rtus).issuedRtuCount >= 0
    ensures SumUp(rtus).issuedRtuCount > 0 <==> exists k | 0 <= k < |rtus| :: MovementsOf(rtus)[k].issued
  {
    if rtus == [] {
    } else {
      var front := rtus[..|rtus| - 1];
      IssuedIsShared(front);
      assert forall k | 0 <= k < |front| :: MovementsOf(rtus)[k] == MovementsOf(front)[k];
      assert MovementsOf(rtus)[|front|].issued == rtus[|front|].Issued();
    }
  }
}
