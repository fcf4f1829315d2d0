/** From candidates to ready items: what each mode demands of the evidence, and how a run selects its candidates. */
module ReadyBatches {
  import opened OrderDomain
  import opened PaymentEvidence
  import RefundEvidence

  datatype Candidate = Candidate(order: Order, dealId: int)

  datatype Reason =
    | NoRetainedGoods
    | MoneyEvidenceMissing
    | NotFullRefund(classification: RefundEvidence.Classification)
    | RtuEvidenceMissing
    | IssuedInOneC
    | NotAllRtuReturned
    | SaleAmountMissing
    | GoodsReturnIncomplete
    | ReturnChronologyMissing
    | ReturnNotAfterRtu
    | PaymentBeforeReturnNotFull
    | ConfirmedPaymentBeforeReturn
    | PaymentAfterReturnMissing
    | NoIssuedRtuBeforeReturn
    | DealNotUnique
    | DealChanged
    | AlreadyAtTarget
    | UnexpectedStage(stage: Stage)
    | NotPickupDelivery
    | ExecutionCaseMissing
    | ConfirmedDeliveryEvidence
    | CurrentInventory
    | OneCNotConfigured
    | CaseDealChanged
    | LatestEventMissing
    | LatestChatMessageEdited
    | CompositeRefused(why: CompositeRefusal)

  /** Why `_classify_stale_execution_composite` finds no target. */
  datatype CompositeRefusal =
    | NotHistorical
    | OneCTimeMissing
    | ChatTimeMissing
    | ChatNotLater
    | NotChatConfirmation
    | NotStageUpdate
    | ReceivedNotStrong
    | ReceivedConflicts
    | NonReceiptConflicts
    | UnsupportedChatEvent

  datatype Verdict = Ready(evidence: Evidence) | Blocked(reason: Reason)

  /** What a run knows about one candidate besides its evidence: the CRM listing, whether a case exists,
      whether its goods still lie in a warehouse, whether a delivery is on record. */
  datatype Site = Site(live: seq<Deal>, hasCase: bool, inventory: bool, delivered: bool)

  datatype RtuSignal = RtuSignal(rtuCount: int, returnedRtuCount: int, issuedRtuCount: int, sale: int, returned: int,
                                 latestRtuAt: Option<int>, latestReturnAt: Option<int>)

  // ---------- the checks all modes share ----------

  /** The CRM refuses the candidate: `None` means its one deal waits at EXECUTING. */
  function DealRefusal(c: Candidate, live: seq<Deal>, target: Stage): Option<Reason> {
    if |live| != 1 then Some(DealNotUnique)
    else if live[0].id != c.dealId then Some(DealChanged)
    else if live[0].stage == target then Some(AlreadyAtTarget)
    else if live[0].stage != Executing then Some(UnexpectedStage(live[0].stage))
    else None
  }

  predicate DealWaits(c: Candidate, live: seq<Deal>) {
    |live| == 1 && live[0].id == c.dealId && live[0].stage == Executing
  }

  /** Goods sold and wholly returned, as full refunds and pickup returns demand it. */
  function ReturnRefusal(s: RtuSignal): Option<Reason> {
    if s.rtuCount <= 0 || s.returnedRtuCount != s.rtuCount then Some(NotAllRtuReturned)
    else if s.sale <= MONEY_TOLERANCE then Some(SaleAmountMissing)
    else if s.returned < s.sale - MONEY_TOLERANCE then Some(GoodsReturnIncomplete)
    else None
  }

  predicate WhollyReturned(s: RtuSignal) {
    s.rtuCount > 0 && s.returnedRtuCount == s.rtuCount && s.sale > MONEY_TOLERANCE &&
    s.returned >= s.sale - MONEY_TOLERANCE
  }

  // ---------- partial return with retained goods ----------

  datatype LineRow = LineRow(product: string, soldQty: int, returnedQty: int, soldAmount: int, returnedAmount: int)

  predicate OverReturned(r: LineRow) { r.returnedQty > r.soldQty + QTY_TOLERANCE }

  predicate Retains(r: LineRow) {
    r.soldQty - r.returnedQty > QTY_TOLERANCE && r.soldAmount - r.returnedAmount > MONEY_TOLERANCE
  }

  function RetainedLines(rows: seq<LineRow>): seq<RetainedLine> {
    if rows == [] then []
    else
      var r := rows[|rows| - 1];
      RetainedLines(rows[..|rows| - 1]) +
      (if Retains(r) then [RetainedLine(r.product, r.soldQty - r.returnedQty, r.soldAmount - r.returnedAmount)] else [])
  }

  /** What the lines of one order prove: retained goods, unless a line was returned beyond its sale. */
  function RetainedOf(rows: seq<LineRow>): Option<Evidence> {
    if (forall k | 0 <= k < |rows| :: !OverReturned(rows[k])) && (exists k | 0 <= k < |rows| :: Retains(rows[k]))
    then Some(RetainedGoods(RetainedLines(rows))) else None
  }

  /** One order of `_line_evidence`: the loop stops at the first line returned beyond its sale. */
  method LineEvidence(rows: seq<LineRow>) returns (evidence: Option<Evidence>)
    ensures evidence.Some? <==> (forall r | r in rows :: !OverReturned(r)) && (exists r :: r in rows && Retains(r))
    ensures evidence.Some? ==> evidence.value == RetainedGoods(RetainedLines(rows))
    ensures evidence == RetainedOf(rows)
  {
    var retained: seq<RetainedLine> := [];
    var conflict := false;
    var k := 0;
    while k < |rows| && !conflict
      invariant k <= |rows|
      invariant retained == RetainedLines(rows[..k])
      invariant retained != [] <==> exists m :: 0 <= m < k && Retains(rows[m])
      invariant conflict <==> exists m :: 0 <= m < k && OverReturned(rows[m])
      decreases |rows| - k, !conflict
    {
      var r := rows[k];
      assert rows[..k + 1][..k] == rows[..k];
      if OverReturned(r) {
        conflict := true;
      } else if Retains(r) {
        retained := retained + [RetainedLine(r.product, r.soldQty - r.returnedQty, r.soldAmount - r.returnedAmount)];
      }
      k := k + 1;
    }
    if conflict || retained == [] {
      return None;
    }
    assert rows[..k] == rows;
    return Some(RetainedGoods(retained));
  }

  function PartialVerdict(c: Candidate, evidence: Option<Evidence>, site: Site): Verdict {
    if evidence.None? then Blocked(NoRetainedGoods)
    else
      var refusal := DealRefusal(c, site.live, Won);
      if refusal.Some? then Blocked(refusal.value)
      else if site.inventory then Blocked(CurrentInventory)
      else Ready(evidence.value)
  }

  // ---------- full goods and money refund ----------

  function RefundVerdict(c: Candidate, money: Option<RefundEvidence.Money>, signal: Option<RtuSignal>, site: Site): Verdict {
    if money.None? then Blocked(MoneyEvidenceMissing)
    else if !money.value.classification.FullMoneyRefund? then Blocked(NotFullRefund(money.value.classification))
    else if signal.None? then Blocked(RtuEvidenceMissing)
    else
      var s := signal.value;
      if s.issuedRtuCount > 0 then Blocked(IssuedInOneC)
      else if ReturnRefusal(s).Some? then Blocked(ReturnRefusal(s).value)
      else if s.latestReturnAt.None? then Blocked(ReturnChronologyMissing)
      else
        var refusal := DealRefusal(c, site.live, Lose);
        if refusal.Some? then Blocked(refusal.value)
        else if !site.hasCase then Blocked(ExecutionCaseMissing)
        else if site.delivered then Blocked(ConfirmedDeliveryEvidence)
        else if site.inventory then Blocked(CurrentInventory)
        else Ready(RefundFacts(c.order, s.rtuCount, s.returnedRtuCount, s.sale, s.returned, money.value.payment,
                               money.value.refund, s.latestReturnAt.value))
  }

  // ---------- pickup returns ----------

  function PickupRefusal(payments: PaymentSequence, target: Stage): Option<Reason>
    requires payments.Sequence?
  {
    if target == Won then
      if payments.qualifyingAt.None? then Some(PaymentBeforeReturnNotFull) else None
    else if payments.qualifyingAt.Some? then Some(ConfirmedPaymentBeforeReturn)
    else if payments.after <= MONEY_TOLERANCE then Some(PaymentAfterReturnMissing)
    else None
  }

  function PickupVerdict(c: Candidate, signal: Option<RtuSignal>, payments: seq<Payment>, site: Site, target: Stage): Verdict
    requires target in {Won, Dismantling}
  {
    if signal.None? then Blocked(RtuEvidenceMissing)
    else
      var s := signal.value;
      if ReturnRefusal(s).Some? then Blocked(ReturnRefusal(s).value)
      else if s.latestRtuAt.None? || s.latestReturnAt.None? then Blocked(ReturnChronologyMissing)
      else if s.latestReturnAt.value <= s.latestRtuAt.value then Blocked(ReturnNotAfterRtu)
      else
        FailsExactlyOnSmallSale(payments, s.latestRtuAt.value, s.latestReturnAt.value, s.sale);
        var p := PaymentsOf(payments, s.latestRtuAt.value, s.latestReturnAt.value, s.sale);
        if PickupRefusal(p, target).Some? then Blocked(PickupRefusal(p, target).value)
        else
          var refusal := DealRefusal(c, site.live, target);
          if refusal.Some? then Blocked(refusal.value)
          else if !site.live[0].pickup then Blocked(NotPickupDelivery)
          else if !site.hasCase then Blocked(ExecutionCaseMissing)
          else if site.inventory then Blocked(CurrentInventory)
          else Ready(PickupFacts(c.order, target, s.rtuCount, s.returnedRtuCount, s.sale, s.returned, s.latestRtuAt.value,
                                 s.latestReturnAt.value, p.before, p.after, p.qualifyingAt))
  }

  /** Ready for WON means paid in full between the last sale and the return; ready for DISMANTLING means
      not so paid, with money that came only afterwards. */
  lemma PickupReadyIff(c: Candidate, signal: Option<RtuSignal>, payments: seq<Payment>, site: Site, target: Stage)
    requires target in {Won, Dismantling}
    ensures PickupVerdict(c, signal, payments, site, target).Ready? <==>
            signal.Some? && WhollyReturned(signal.value) &&
            signal.value.latestRtuAt.Some? && signal.value.latestReturnAt.Some? &&
            var rtuAt, returnAt := signal.value.latestRtuAt.value, signal.value.latestReturnAt.value;
            var paidInTime := Total(BeforeReturn(payments, rtuAt, returnAt)) >= signal.value.sale - MONEY_TOLERANCE;
            rtuAt < returnAt &&
            (if target == Won then paidInTime
             else !paidInTime && Total(AfterReturn(payments, returnAt)) > MONEY_TOLERANCE) &&
            DealWaits(c, site.live) && site.live[0].pickup && site.hasCase && !site.inventory
  {
    if signal.Some? && signal.value.latestRtuAt.Some? && signal.value.latestReturnAt.Some? {
      FailsExactlyOnSmallSale(payments, signal.value.latestRtuAt.value, signal.value.latestReturnAt.value,
                              signal.value.sale);
    }
  }

  /** The same order with the same movements is never ready for both pickup modes, whatever the CRM and
      the warehouse show at the two moments; and the time that makes it WON lies between sale and return. */
  lemma PickupModesExclude(c: Candidate, signal: Option<RtuSignal>, payments: seq<Payment>, site: Site, later: Site)
    requires PickupVerdict(c, signal, payments, site, Won).Ready?
    ensures PickupVerdict(c, signal, payments, later, Dismantling).Blocked?
    ensures var e := PickupVerdict(c, signal, payments, site, Won).evidence;
            e.PickupFacts? && e.qualifyingAt.Some? && e.latestRtuAt <= e.qualifyingAt.value < e.latestReturnAt
  {
    PickupReadyIff(c, signal, payments, site, Won);
    PickupReadyIff(c, signal, payments, later, Dismantling);
    var s := signal.value;
    QualifyingTime(payments, s.latestRtuAt.value, s.latestReturnAt.value, s.sale);
  }

  // ---------- pickup issued, then returned ----------

  datatype RtuMovement = RtuMovement(number: string, amount: int, issued: bool, scannedAt: Option<int>,
                                     returnedAt: Option<int>)

  predicate Qualifies(r: RtuMovement) {
    r.issued && r.scannedAt.Some? && (r.returnedAt.None? || r.returnedAt.value > r.scannedAt.value)
  }

  /** `_qualifying_issued_rtu_rows` */
  function QualifyingRows(rows: seq<RtuMovement>): (r: seq<QualifyingRtu>)
    ensures r != [] <==> exists k | 0 <= k < |rows| :: Qualifies(rows[k])
  {
    if rows == [] then []
    else
      var m := rows[|rows| - 1];
      QualifyingRows(rows[..|rows| - 1]) +
      (if Qualifies(m) then [QualifyingRtu(m.number, m.amount, m.scannedAt.value, m.returnedAt)] else [])
  }

  function IssuedCount(rows: seq<RtuMovement>): nat {
    if rows == [] then 0
    else IssuedCount(rows[..|rows| - 1]) +
         (if rows[|rows| - 1].issued && rows[|rows| - 1].scannedAt.Some? then 1 else 0)
  }

  function IssuedVerdict(c: Candidate, rows: seq<RtuMovement>, site: Site): Verdict {
    if rows == [] then Blocked(RtuEvidenceMissing)
    else if QualifyingRows(rows) == [] then Blocked(NoIssuedRtuBeforeReturn)
    else
      var refusal := DealRefusal(c, site.live, Won);
      if refusal.Some? then Blocked(refusal.value)
      else if !site.live[0].pickup then Blocked(NotPickupDelivery)
      else if !site.hasCase then Blocked(ExecutionCaseMissing)
      else if site.inventory then Blocked(CurrentInventory)
      else Ready(IssuedFacts(c.order, |rows|, IssuedCount(rows), QualifyingRows(rows)))
  }

  // ---------- candidate selection ----------

  datatype Selection = Selected(candidates: seq<Candidate>) | Refused(why: SelectionError)

  datatype SelectionError = BatchAndOrders | NotOpen(orders: seq<Order>) | BatchNotPositive | BatchEmpty

  /** The 1-based slice `all[(b - 1) * 20 : b * 20]`. */
  function Slice(all: seq<Candidate>, batch: int): seq<Candidate>
    requires batch >= 1
  {
    var start := Min((batch - 1) * BATCH_SIZE, |all|);
    all[start..Min(start + BATCH_SIZE, |all|)]
  }

  /** `{item.order_number: item}`: the last candidate of an order wins. */
  function FindCandidate(all: seq<Candidate>, order: Order): (r: Option<Candidate>)
    ensures r.Some? ==> r.value in all && r.value.order == order
    ensures r.None? ==> forall c | c in all :: c.order != order
  {
    if all == [] then None
    else if all[|all| - 1].order == order then Some(all[|all| - 1])
    else FindCandidate(all[..|all| - 1], order)
  }

  function Missing(all: seq<Candidate>, orders: seq<Order>): (r: seq<Order>)
    ensures forall o :: o in r <==> o in orders && FindCandidate(all, o).None?
  {
    if orders == [] then []
    else
      var o := orders[|orders| - 1];
      Missing(all, orders[..|orders| - 1]) + (if FindCandidate(all, o).None? then [o] else [])
  }

  /** `dict.fromkeys(orders)`, looked up. */
  function Lookup(all: seq<Candidate>, orders: seq<Order>): seq<Candidate>
    requires forall o | o in orders :: FindCandidate(all, o).Some?
  {
    if orders == [] then []
    else
      var o := orders[|orders| - 1];
      Lookup(all, orders[..|orders| - 1]) +
      (if o in orders[..|orders| - 1] then [] else [FindCandidate(all, o).value])
  }

  /** `_select_candidates` */
  function Select(all: seq<Candidate>, batch: Option<int>, orders: seq<Order>): Selection {
    if batch.Some? && orders != [] then Refused(BatchAndOrders)
    else if orders != [] then
      if Missing(all, orders) != [] then Refused(NotOpen(Missing(all, orders))) else Selected(Lookup(all, orders))
    else if batch.None? then Selected(all)
    else if batch.value < 1 then Refused(BatchNotPositive)
    else if Slice(all, batch.value) == [] then Refused(BatchEmpty)
    else Selected(Slice(all, batch.value))
  }

  /** An explicit selection yields each requested order once, in the order of its first mention. */
  lemma {:induction false} LookupIsExact(all: seq<Candidate>, orders: seq<Order>)
    requires forall o | o in orders :: FindCandidate(all, o).Some?
    ensures forall o :: o in orders <==> exists c | c in Lookup(all, orders) :: c.order == o
    ensures forall i, j | 0 <= i < j < |Lookup(all, orders)| :: Lookup(all, orders)[i].order != Lookup(all, orders)[j].order
    ensures forall c | c in Lookup(all, orders) :: c in all
  {
    if orders == [] {
    } else {
      var rest, last := orders[..|orders| - 1], orders[|orders| - 1];
      LookupIsExact(all, rest);
      assert orders == rest + [last];
      var before := Lookup(all, rest);
      if last !in rest {
        var found := FindCandidate(all, last).value;
        assert Lookup(all, orders) == before + [found];
        forall i | 0 <= i < |before| ensures before[i].order != last {
          assert before[i] in before;
        }
      } else {
        assert Lookup(all, orders) == before;
      }
    }
  }

  function Batches(all: seq<Candidate>, n: nat): seq<Candidate> {
    if n == 0 then [] else Batches(all, n - 1) + Slice(all, n)
  }

  /** Batches 1..n are exactly the first 20 * n candidates, so ceil(|all| / 20) batches are all of them, and
      a later batch number is refused as empty. */
  lemma {:induction false} BatchesTile(all: seq<Candidate>, n: nat)
    ensures Batches(all, n) == all[..Min(n * BATCH_SIZE, |all|)]
    ensures |all| <= n * BATCH_SIZE ==> Batches(all, n) == all && Select(all, Some(n + 1), []) == Refused(BatchEmpty)
    ensures n >= 1 && (n - 1) * BATCH_SIZE < |all| ==> Select(all, Some(n), []) == Selected(Slice(all, n))
  {
    if n == 0 {
    } else {
      BatchesTile(all, n - 1);
    }
  }
}
