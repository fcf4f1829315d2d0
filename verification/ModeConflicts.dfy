/** Which modes can find one order ready on the same facts.  The modes select their candidates by the same open
    reviews and snapshot amounts and read the same sales documents, so some pairs exclude each other; the others really
    compete for a deal, with WON against LOSE among them. */
module ModeConflicts {
  import opened OrderDomain
  import opened StageOutbox
  import opened PaymentEvidence
  import opened ReadyBatches
  import opened RtuDocuments
  import opened ModeScans
  import StaleScan

  // ---------- candidates ----------

  predicate OpenReview(reviews: seq<Review>, order: Order, reason: ReviewReason) {
    exists r | r in reviews :: r.order == order && r.conflict && r.open && r.reason == reason
  }

  /** `_header_candidates`, `_full_return_candidates` and `_issued_return_candidates`: an unknown amount satisfies no
      comparison. */
  predicate IsCandidate(facts: Facts, kind: EventKind, c: Candidate)
    requires IsMode(kind)
  {
    c.order in facts.cases &&
    var card := facts.cases[c.order];
    card.dealId == Some(c.dealId) &&
    if kind.PickupIssued? then OpenReview(facts.reviews, c.order, IssuedAndReturned)
    else
      OpenReview(facts.reviews, c.order, PaidAndReturned) && card.sale.Some? && card.returned.Some? &&
      if kind.PartialReturn? then card.returned.value < card.sale.value - MONEY_TOLERANCE
      else card.returned.value >= card.sale.value - MONEY_TOLERANCE
  }

  /** The mode takes the order up and finds it ready. */
  predicate Takes(facts: Facts, kind: EventKind, c: Candidate)
    requires IsMode(kind)
  {
    IsCandidate(facts, kind, c) && OrderVerdict(facts, kind, c).Ready?
  }

  // ---------- pairs that exclude each other ----------

  /** A partial return and the modes over whole returns, a refund of goods never issued and an issued pickup, and the
      pickup paid in time and the pickup paid late. */
  predicate Apart(a: EventKind, b: EventKind) {
    (a.PartialReturn? && (b.FullRefund? || b.PickupPaid? || b.PickupLate?)) ||
    (a.FullRefund? && b.PickupIssued?) ||
    (a.PickupPaid? && b.PickupLate?)
  }

  lemma {:induction false} PickupsExclude(facts: Facts, c: Candidate)
    ensures !(OrderVerdict(facts, PickupPaid, c).Ready? && OrderVerdict(facts, PickupLate, c).Ready?)
  {
    var site := SiteOf(facts, Matching(facts.deals, c.order), c.order);
    if OrderVerdict(facts, PickupPaid, c).Ready? {
      PickupModesExclude(c, SignalIn(facts.rtus, c.order), ListIn(facts.payments, c.order), site, site);
    }
  }

  /** The refund's count of issued documents and the movements of the issued pickup are read off the same documents. */
  lemma {:induction false} IssuedExcludesRefund(facts: Facts, c: Candidate)
    ensures !(OrderVerdict(facts, FullRefund, c).Ready? && OrderVerdict(facts, PickupIssued, c).Ready?)
  {
    var rtus := ListIn(facts.rtus, c.order);
    IssuedIsShared(rtus);
    if OrderVerdict(facts, PickupIssued, c).Ready? {
      var k :| 0 <= k < |rtus| && Qualifies(MovementsOf(rtus)[k]);
      assert MovementsOf(rtus)[k].issued;
    }
  }

  lemma {:induction false} ApartModes(facts: Facts, a: EventKind, b: EventKind, c: Candidate)
    requires IsMode(a) && IsMode(b) && Apart(a, b)
    ensures !(Takes(facts, a, c) && Takes(facts, b, c))
  {
    if a.FullRefund? {
      IssuedExcludesRefund(facts, c);
    } else if a.PickupPaid? {
      PickupsExclude(facts, c);
    }
  }

  // ---------- facts that agree with each other ----------

  function Sold(rows: seq<LineRow>): int {
    if rows == [] then 0 else Sold(rows[..|rows| - 1]) + rows[|rows| - 1].soldAmount
  }

  function TakenBack(rows: seq<LineRow>): int {
    if rows == [] then 0 else TakenBack(rows[..|rows| - 1]) + rows[|rows| - 1].returnedAmount
  }

  /** Nothing happens to a document before its date. */
  predicate InOrder(r: Rtu) {
    (forall t | t in r.scans :: r.date <= t) && forall g | g in r.goodsReturns :: r.date <= g.at
  }

  /** What the queries say of one order fits together: the lines add up to the documents, the last snapshot shows their
      amounts, both payment queries see the same money, and times are in order. */
  predicate OrderAgrees(facts: Facts, order: Order) {
    var rtus, rows := ListIn(facts.rtus, order), ListIn(facts.lines, order);
    Sold(rows) == SumUp(rtus).sale && TakenBack(rows) == SumUp(rtus).returned &&
    (order in facts.cases ==>
       facts.cases[order].sale == Some(SumUp(rtus).sale) && facts.cases[order].returned == Some(SumUp(rtus).returned)) &&
    Total(ListIn(facts.payments, order)) == MoneyOf(facts.money, order).payment &&
    forall r | r in rtus :: InOrder(r)
  }

  ghost predicate Agree(facts: Facts) { forall order: Order :: OrderAgrees(facts, order) }

  // ---------- one order in several modes ----------

  const SALE := 1000

  /** One order with one document, sold at 0 and returned at 10, paid at `paidAt` and refunded. */
  function Contested(c: Candidate, issued: bool, whole: bool, paidAt: int): Facts {
    var back := if whole then SALE else SALE / 2;
    Facts([Deal(c.dealId, c.order, Executing, true)],
          map[c.order := CaseCard(Some(c.dealId), Some(SALE), Some(back))],
          [Review(c.order, true, true, PaidAndReturned), Review(c.order, true, true, IssuedAndReturned)],
          {}, {},
          map[c.order := [Rtu("1", 0, SALE, issued, [1], [GoodsReturn(10, back)])]],
          map[c.order := [LineRow("", 2 * QTY_UNIT, if whole then 2 * QTY_UNIT else QTY_UNIT, SALE, back)]],
          [RefundEvidence.Movement(c.order, RefundEvidence.PaymentKind, 0, SALE, true),
           RefundEvidence.Movement(c.order, RefundEvidence.RefundKind, 1, SALE, true)],
          map[c.order := [Payment(paidAt, SALE)]])
  }

  const QTY_UNIT := 10000

  lemma {:induction false} ContestedDeal(c: Candidate, issued: bool, whole: bool, paidAt: int)
    ensures Matching(Contested(c, issued, whole, paidAt).deals, c.order) == [Deal(c.dealId, c.order, Executing, true)]
  {
    var deals := Contested(c, issued, whole, paidAt).deals;
    assert deals[..0] == [];
  }

  lemma {:induction false} ContestedRtus(r: Rtu, t: int, g: GoodsReturn)
    requires r.scans == [t] && r.goodsReturns == [g]
    ensures SumUp([r]) == RtuSignal(1, 1, if r.printed then 1 else 0, r.sale, g.amount, Some(r.date), Some(g.at))
    ensures MovementsOf([r]) == [RtuMovement(r.number, r.sale, r.printed, Some(t), Some(g.at))]
  {
    assert [r][..0] == [] && [t][..0] == [] && [g][..0] == [];
    assert LatestTime([]) == None && LatestReturn([]) == None && ReturnedAmount([]) == 0;
    assert SumUp([]) == RtuSignal(0, 0, 0, 0, 0, None, None);
  }

  lemma {:induction false} DedupPair(a: RefundEvidence.Movement, b: RefundEvidence.Movement)
    requires !RefundEvidence.SameKey(a, b)
    ensures RefundEvidence.Dedup([a, b]) == [b, a]
  {
    assert [a, b][..1] == [a] && [a][..0] == [];
    assert RefundEvidence.Dedup([]) == [];
    assert RefundEvidence.Put([], b) == [b];
    assert RefundEvidence.Dedup([a]) == RefundEvidence.Put([], a) == [a];
    assert RefundEvidence.Put([a], b) == RefundEvidence.Put([], b) + [a];
  }

  lemma {:induction false} SumPair(a: RefundEvidence.Movement, b: RefundEvidence.Movement, order: Order,
                                   part: RefundEvidence.Part)
    ensures RefundEvidence.Sum([a, b], order, part) ==
            (if a.order == order && RefundEvidence.PartOf(a) == part then a.amount else 0) +
            (if b.order == order && RefundEvidence.PartOf(b) == part then b.amount else 0)
  {
    SumAppend([], a, order, part);
    assert [] + [a] == [a] && [a] + [b] == [a, b];
    SumAppend([a], b, order, part);
  }

  lemma {:induction false} ContestedMoney(c: Candidate, issued: bool, whole: bool, paidAt: int, order: Order)
    ensures var money := MoneyOf(Contested(c, issued, whole, paidAt).money, order);
            money.payment == (if order == c.order then SALE else 0) &&
            (order == c.order ==> money.classification.FullMoneyRefund?)
  {
    var rows := Contested(c, issued, whole, paidAt).money;
    DedupPair(rows[0], rows[1]);
    SumPair(rows[1], rows[0], order, RefundEvidence.Paid);
    SumPair(rows[1], rows[0], order, RefundEvidence.Refunded);
    assert rows == [rows[0], rows[1]];
  }

  lemma {:induction false} BetweenOne(p: Payment, low: Option<int>, high: Option<int>)
    ensures Between([p], low, high) == if InRange(p.at, low, high) then [p] else []
  {
    assert [p][..0] == [] && Between([], low, high) == [] && [] + [p] == [p];
  }

  lemma TotalOne(p: Payment)
    ensures Total([p]) == p.amount && Total([]) == 0
  {
    assert [p][..0] == [];
  }

  lemma LinesOne(r: LineRow)
    ensures Sold([r]) == r.soldAmount && TakenBack([r]) == r.returnedAmount && Sold([]) == 0 && TakenBack([]) == 0
  {
    assert [r][..0] == [];
  }

  lemma ContestedPayments(p: Payment)
    ensures Total(BeforeReturn([p], 0, 10)) == if 0 <= p.at < 10 then p.amount else 0
    ensures Total(AfterReturn([p], 10)) == if 10 <= p.at then p.amount else 0
  {
    BetweenOne(p, Some(0), Some(10));
    BetweenOne(p, Some(10), None);
    TotalOne(p);
  }

  /** The facts are such as 1C and the database can show. */
  lemma {:induction false} ContestedAgrees(c: Candidate, issued: bool, whole: bool, paidAt: int)
    ensures Agree(Contested(c, issued, whole, paidAt))
  {
    var facts := Contested(c, issued, whole, paidAt);
    var rtus, rows := facts.rtus[c.order], facts.lines[c.order];
    ContestedRtus(rtus[0], 1, rtus[0].goodsReturns[0]);
    LinesOne(rows[0]);
    TotalOne(Payment(paidAt, SALE));
    forall order: Order ensures OrderAgrees(facts, order) {
      ContestedMoney(c, issued, whole, paidAt, order);
      if order != c.order {
        assert ListIn(facts.rtus, order) == [] && ListIn(facts.lines, order) == [];
      }
    }
  }

  lemma {:induction false} ReturnedIsReady(c: Candidate, s: RtuSignal, paidAt: int, site: Site, target: Stage)
    requires s.rtuCount == s.returnedRtuCount == 1 && s.sale == s.returned == SALE
    requires s.latestRtuAt == Some(0) && s.latestReturnAt == Some(10)
    requires DealWaits(c, site.live) && site.live[0].pickup && site.hasCase && !site.inventory
    requires (target == Won && paidAt == 5) || (target == Dismantling && paidAt == 10)
    ensures PickupVerdict(c, Some(s), [Payment(paidAt, SALE)], site, target).Ready?
  {
    ContestedPayments(Payment(paidAt, SALE));
    PickupReadyIff(c, Some(s), [Payment(paidAt, SALE)], site, target);
  }

  lemma {:induction false} ContestedSignal(c: Candidate, issued: bool, paidAt: int) returns (s: RtuSignal)
    ensures s == RtuSignal(1, 1, if issued then 1 else 0, SALE, SALE, Some(0), Some(10))
    ensures SignalIn(Contested(c, issued, true, paidAt).rtus, c.order) == Some(s)
  {
    var rtus := Contested(c, issued, true, paidAt).rtus[c.order];
    ContestedRtus(rtus[0], 1, rtus[0].goodsReturns[0]);
    s := SumUp(rtus);
  }

  lemma {:induction false} ContestedPickup(c: Candidate, issued: bool, paidAt: int)
    requires paidAt in {5, 10}
    ensures OrderVerdict(Contested(c, issued, true, paidAt), if paidAt == 5 then PickupPaid else PickupLate, c).Ready?
  {
    var kind, target := if paidAt == 5 then PickupPaid else PickupLate, if paidAt == 5 then Won else Dismantling;
    ContestedDeal(c, issued, true, paidAt);
    var s := ContestedSignal(c, issued, paidAt);
    var site := Site([Deal(c.dealId, c.order, Executing, true)], true, false, false);
    ReturnedIsReady(c, s, paidAt, site, target);
    PickupVerdictIs(Contested(c, issued, true, paidAt), kind, c, s, [Payment(paidAt, SALE)], site, target);
  }

  /** What the verdict of a pickup-return mode is made of. */
  lemma PickupVerdictIs(facts: Facts, kind: EventKind, c: Candidate, s: RtuSignal, payments: seq<Payment>, site: Site,
                        target: Stage)
    requires (kind == PickupPaid && target == Won) || (kind == PickupLate && target == Dismantling)
    requires SignalIn(facts.rtus, c.order) == Some(s) && ListIn(facts.payments, c.order) == payments
    requires SiteOf(facts, Matching(facts.deals, c.order), c.order) == site
    ensures OrderVerdict(facts, kind, c) == PickupVerdict(c, Some(s), payments, site, target)
  {
  }

  lemma {:induction false} ContestedRefund(c: Candidate, paidAt: int)
    ensures OrderVerdict(Contested(c, false, true, paidAt), FullRefund, c).Ready?
  {
    var rtus := Contested(c, false, true, paidAt).rtus[c.order];
    ContestedDeal(c, false, true, paidAt);
    ContestedMoney(c, false, true, paidAt, c.order);
    ContestedRtus(rtus[0], 1, rtus[0].goodsReturns[0]);
  }

  lemma {:induction false} ContestedPartial(c: Candidate, issued: bool, paidAt: int)
    ensures OrderVerdict(Contested(c, issued, false, paidAt), PartialReturn, c).Ready?
  {
    ContestedDeal(c, issued, false, paidAt);
    assert Retains(Contested(c, issued, false, paidAt).lines[c.order][0]);
  }

  lemma {:induction false} ContestedIssued(c: Candidate, whole: bool, paidAt: int)
    ensures OrderVerdict(Contested(c, true, whole, paidAt), PickupIssued, c).Ready?
  {
    var rtus := Contested(c, true, whole, paidAt).rtus[c.order];
    ContestedDeal(c, true, whole, paidAt);
    ContestedRtus(rtus[0], 1, rtus[0].goodsReturns[0]);
    assert Qualifies(MovementsOf(rtus)[0]);
  }

  lemma {:induction false} ContestedIsTaken(c: Candidate, issued: bool, whole: bool, paidAt: int, kind: EventKind)
    requires IsMode(kind)
    requires match kind
             case PartialReturn => !whole
             case FullRefund => whole && !issued
             case PickupPaid => whole && paidAt == 5
             case PickupLate => whole && paidAt == 10
             case _ => issued
    ensures Takes(Contested(c, issued, whole, paidAt), kind, c)
  {
    var facts := Contested(c, issued, whole, paidAt);
    assert facts.reviews[0] in facts.reviews && facts.reviews[1] in facts.reviews;
    match kind
    case PartialReturn => ContestedPartial(c, issued, paidAt);
    case FullRefund => ContestedRefund(c, paidAt);
    case PickupPaid => ContestedPickup(c, issued, paidAt);
    case PickupLate => ContestedPickup(c, issued, paidAt);
    case _ => ContestedIssued(c, whole, paidAt);
  }

  /** Two modes never take one order on the same facts if and only if they are one of these five pairs: a partial
      return with a mode over whole returns, a full refund with an issued pickup, and the two pickup-return modes.
      Every other pair meets on facts that agree with each other, so the same order can be ready for WON and for LOSE,
      and which one it becomes is decided by who moves the deal first. */
  lemma {:induction false} ModesExcludeIff(a: EventKind, b: EventKind)
    requires IsMode(a) && IsMode(b)
    ensures Apart(a, b) || Apart(b, a) ==> forall facts, c :: !(Takes(facts, a, c) && Takes(facts, b, c))
    ensures !(Apart(a, b) || Apart(b, a)) ==> exists facts, c :: Agree(facts) && Takes(facts, a, c) && Takes(facts, b, c)
  {
    if Apart(a, b) || Apart(b, a) {
      forall facts, c ensures !(Takes(facts, a, c) && Takes(facts, b, c)) {
        if Apart(a, b) { ApartModes(facts, a, b, c); } else { ApartModes(facts, b, a, c); }
      }
    } else {
      var c := Candidate("0", 1);
      var issued, whole := a.PickupIssued? || b.PickupIssued?, !a.PartialReturn? && !b.PartialReturn?;
      var paidAt := if a.PickupLate? || b.PickupLate? then 10 else 5;
      ContestedAgrees(c, issued, whole, paidAt);
      ContestedIsTaken(c, issued, whole, paidAt, a);
      ContestedIsTaken(c, issued, whole, paidAt, b);
    }
  }

  // ---------- all seven kinds of events ----------

  /** The deal decides for the composites as well: once a deal of the order has left EXECUTING, neither a candidate mode
      nor a scan for composites finds the order ready, whatever 1C, the chat and the database say by then. */
  lemma {:induction false} MovedDealEndsEveryMode(facts: Facts, kind: EventKind, c: Candidate, db: Db,
                                                  notes: StaleScan.Notes, settings: StaleScan.Settings)
    requires exists d | d in facts.deals :: d.order == c.order && d.stage != Executing
    ensures IsMode(kind) ==> OrderVerdict(facts, kind, c).Blocked?
    ensures StaleScan.OrderVerdict(db, notes, settings, facts.deals, c.order).Blocked?
  {
    var d :| d in facts.deals && d.order == c.order && d.stage != Executing;
    MatchingMembers(facts.deals, c.order);
    assert d in Matching(facts.deals, c.order);
    if IsMode(kind) && OrderVerdict(facts, kind, c).Ready? {
      ReadyNeedsWaitingDeal(facts, kind, c);
    }
    if StaleScan.OrderVerdict(db, notes, settings, facts.deals, c.order).Ready? {
      StaleScan.ReadyNeedsWaitingDeal(db, notes, settings, facts.deals, c.order);
    }
  }
}
