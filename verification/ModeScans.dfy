/** The scans of the five modes over candidates, twenty at a time.  Every batch fetches its own evidence and its own
    CRM listing; the result is nevertheless that of one pass, and the modes compete for the same deals. */
module ModeScans {
  import opened OrderDomain
  import opened StageOutbox
  import opened LiveReads
  import opened PaymentEvidence
  import opened ReadyBatches
  import opened RtuDocuments

  /** What a case holds for the selection of candidates: its deal, and the amounts of the last execution snapshot in
      its payload. */
  datatype CaseCard = CaseCard(dealId: Option<int>, sale: Option<int>, returned: Option<int>)

  /** What 1C, the CRM and the database hold.  The sales documents of an order are listed as the queries order them;
      `money` are the movement rows of all orders, which the refund query restricts to the asked ones. */
  datatype Facts = Facts(deals: seq<Deal>, cases: map<Order, CaseCard>, reviews: seq<Review>, stocked: set<Order>,
                         delivered: set<Order>, rtus: map<Order, seq<Rtu>>, lines: map<Order, seq<LineRow>>,
                         money: seq<RefundEvidence.Movement>, payments: map<Order, seq<Payment>>)

  /** A mode is known by the kind of event it writes. */
  predicate IsMode(kind: EventKind) { kind.IsScript() && !kind.IsComposite() }

  // ---------- what one batch fetches ----------

  /** A query for the asked orders: a dictionary over those of them that have rows. */
  function Asked<V>(all: map<Order, V>, asked: seq<Order>): map<Order, V> {
    map o | o in all && o in asked :: all[o]
  }

  function SignalIn(rtus: map<Order, seq<Rtu>>, order: Order): Option<RtuSignal> { SignalOf(ListIn(rtus, order)) }

  function OfOrders(rows: seq<RefundEvidence.Movement>, asked: seq<Order>): seq<RefundEvidence.Movement> {
    if rows == [] then []
    else
      var front := OfOrders(rows[..|rows| - 1], asked);
      if rows[|rows| - 1].order in asked then front + [rows[|rows| - 1]] else front
  }

  /** One order's entry of `_money_refund_evidence` over fetched rows. */
  function MoneyOf(rows: seq<RefundEvidence.Movement>, order: Order): RefundEvidence.Money {
    var unique := RefundEvidence.Dedup(rows);
    var paid := RefundEvidence.Sum(unique, order, RefundEvidence.Paid);
    var refunded := RefundEvidence.Sum(unique, order, RefundEvidence.Refunded);
    var ambiguous := RefundEvidence.Sum(unique, order, RefundEvidence.Ambiguous);
    RefundEvidence.Money(paid, refunded, ambiguous, RefundEvidence.Classify(paid, refunded, ambiguous))
  }

  function SiteOf(facts: Facts, live: seq<Deal>, order: Order): Site {
    Site(live, order in facts.cases, order in facts.stocked, order in facts.delivered)
  }

  function RetainedIn(lines: map<Order, seq<LineRow>>, order: Order): Option<Evidence> {
    if order in lines then RetainedOf(lines[order]) else None
  }

  function ListIn<T>(found: map<Order, seq<T>>, order: Order): seq<T> { if order in found then found[order] else [] }

  /** The verdict of a mode's ready batch, from what the batch of `asked` orders fetched. */
  function BatchVerdict(facts: Facts, kind: EventKind, asked: seq<Order>, c: Candidate): Verdict
    requires IsMode(kind)
  {
    var site := SiteOf(facts, Live(facts.deals, asked, c.order), c.order);
    match kind
    case PartialReturn => PartialVerdict(c, RetainedIn(Asked(facts.lines, asked), c.order), site)
    case FullRefund =>
      var money := if c.order in asked then Some(MoneyOf(OfOrders(facts.money, asked), c.order)) else None;
      RefundVerdict(c, money, SignalIn(Asked(facts.rtus, asked), c.order), site)
    case PickupPaid =>
      PickupVerdict(c, SignalIn(Asked(facts.rtus, asked), c.order), ListIn(Asked(facts.payments, asked), c.order), site, Won)
    case PickupLate =>
      PickupVerdict(c, SignalIn(Asked(facts.rtus, asked), c.order), ListIn(Asked(facts.payments, asked), c.order), site,
                    Dismantling)
    case PickupIssued => IssuedVerdict(c, MovementsOf(ListIn(Asked(facts.rtus, asked), c.order)), site)
  }

  /** The verdict from everything there is to know about the candidate's order. */
  function OrderVerdict(facts: Facts, kind: EventKind, c: Candidate): Verdict
    requires IsMode(kind)
  {
    var site := SiteOf(facts, Matching(facts.deals, c.order), c.order);
    match kind
    case PartialReturn => PartialVerdict(c, RetainedIn(facts.lines, c.order), site)
    case FullRefund => RefundVerdict(c, Some(MoneyOf(facts.money, c.order)), SignalIn(facts.rtus, c.order), site)
    case PickupPaid => PickupVerdict(c, SignalIn(facts.rtus, c.order), ListIn(facts.payments, c.order), site, Won)
    case PickupLate => PickupVerdict(c, SignalIn(facts.rtus, c.order), ListIn(facts.payments, c.order), site, Dismantling)
    case PickupIssued => IssuedVerdict(c, MovementsOf(ListIn(facts.rtus, c.order)), site)
  }

  // ---------- a batch sees what one pass sees ----------

  lemma {:induction false} PutOfOrders(unique: seq<RefundEvidence.Movement>, m: RefundEvidence.Movement,
                                       asked: seq<Order>)
    ensures OfOrders(RefundEvidence.Put(unique, m), asked) ==
            if m.order in asked then RefundEvidence.Put(OfOrders(unique, asked), m) else OfOrders(unique, asked)
  {
    if unique == [] {
      assert RefundEvidence.Put(unique, m) == [m] && [m][..0] == [];
    } else {
      var front, last := unique[..|unique| - 1], unique[|unique| - 1];
      if RefundEvidence.SameKey(last, m) {
        OfOrdersAppend(front, m, asked);
      } else {
        PutOfOrders(front, m, asked);
        OfOrdersAppend(RefundEvidence.Put(front, m), last, asked);
        if m.order in asked && last.order in asked {
          var kept := OfOrders(front, asked);
          assert (kept + [last])[..|kept|] == kept;
        }
      }
    }
  }

  lemma OfOrdersAppend(rows: seq<RefundEvidence.Movement>, m: RefundEvidence.Movement, asked: seq<Order>)
    ensures OfOrders(rows + [m], asked) == if m.order in asked then OfOrders(rows, asked) + [m] else OfOrders(rows, asked)
  {
    assert (rows + [m])[..|rows|] == rows;
  }

  lemma {:induction false} DedupOfOrders(rows: seq<RefundEvidence.Movement>, asked: seq<Order>)
    ensures OfOrders(RefundEvidence.Dedup(rows), asked) == RefundEvidence.Dedup(OfOrders(rows, asked))
  {
    if rows == [] {
      assert RefundEvidence.Dedup(rows) == [];
    } else {
      var front, m := rows[..|rows| - 1], rows[|rows| - 1];
      DedupOfOrders(front, asked);
      PutOfOrders(RefundEvidence.Dedup(front), m, asked);
      if m.order in asked {
        var kept := OfOrders(front, asked);
        assert (kept + [m])[..|kept|] == kept;
      }
    }
  }

  lemma SumAppend(rows: seq<RefundEvidence.Movement>, m: RefundEvidence.Movement, order: Order,
                  part: RefundEvidence.Part)
    ensures RefundEvidence.Sum(rows + [m], order, part) ==
            RefundEvidence.Sum(rows, order, part) +
            (if m.order == order && RefundEvidence.PartOf(m) == part then m.amount else 0)
  {
    assert (rows + [m])[..|rows|] == rows;
  }

  lemma {:induction false} SumOfOrders(rows: seq<RefundEvidence.Movement>, asked: seq<Order>, order: Order,
                                       part: RefundEvidence.Part)
    requires order in asked
    ensures RefundEvidence.Sum(OfOrders(rows, asked), order, part) == RefundEvidence.Sum(rows, order, part)
  {
    if rows == [] {
      assert OfOrders(rows, asked) == [];
    } else {
      var front, m := rows[..|rows| - 1], rows[|rows| - 1];
      SumOfOrders(front, asked, order, part);
      assert rows == front + [m];
      SumAppend(front, m, order, part);
      SumAppend(OfOrders(front, asked), m, order, part);
    }
  }

  /** The money of an order does not depend on what else is asked for. */
  lemma {:induction false} MoneyIsOwn(rows: seq<RefundEvidence.Movement>, asked: seq<Order>, order: Order)
    requires order in asked
    ensures MoneyOf(OfOrders(rows, asked), order) == MoneyOf(rows, order)
  {
    DedupOfOrders(rows, asked);
    var unique := RefundEvidence.Dedup(rows);
    SumOfOrders(unique, asked, order, RefundEvidence.Paid);
    SumOfOrders(unique, asked, order, RefundEvidence.Refunded);
    SumOfOrders(unique, asked, order, RefundEvidence.Ambiguous);
  }

  /** In every mode a candidate gets in its batch the verdict it would get alone. */
  lemma {:induction false} VerdictIsOwn(facts: Facts, kind: EventKind, asked: seq<Order>, c: Candidate)
    requires IsMode(kind) && |asked| <= LIVE_CHUNK && c.order in asked
    ensures BatchVerdict(facts, kind, asked, c) == OrderVerdict(facts, kind, c)
  {
    FortyRowsAreReadable(asked, c.order);
    OneChunkIsExact(facts.deals, asked, c.order);
    MoneyIsOwn(facts.money, asked, c.order);
  }

  // ---------- batches and runs ----------

  function Judged(candidates: seq<Candidate>, judge: Candidate -> Verdict): (r: seq<Verdict>)
    ensures |r| == |candidates| && forall k | 0 <= k < |r| :: r[k] == judge(candidates[k])
  {
    seq(|candidates|, k requires 0 <= k < |candidates| => judge(candidates[k]))
  }

  lemma JudgedConcat(a: seq<Candidate>, b: seq<Candidate>, judge: Candidate -> Verdict)
    ensures Judged(a + b, judge) == Judged(a, judge) + Judged(b, judge)
  {
  }

  function JudgeOf(facts: Facts, kind: EventKind): Candidate -> Verdict
    requires IsMode(kind)
  {
    (c: Candidate) => OrderVerdict(facts, kind, c)
  }

  function Verdicts(facts: Facts, kind: EventKind, candidates: seq<Candidate>): (r: seq<Verdict>)
    requires IsMode(kind)
    ensures |r| == |candidates|
  {
    Judged(candidates, JudgeOf(facts, kind))
  }

  lemma VerdictAt(facts: Facts, kind: EventKind, candidates: seq<Candidate>, k: nat)
    requires IsMode(kind) && k < |candidates|
    ensures Verdicts(facts, kind, candidates)[k] == OrderVerdict(facts, kind, candidates[k])
  {
  }

  /** The ready candidates with their evidence, in order. */
  function ReadyFrom(candidates: seq<Candidate>, verdicts: seq<Verdict>): seq<(Candidate, Evidence)>
    requires |verdicts| == |candidates|
  {
    if candidates == [] then []
    else
      var n := |candidates| - 1;
      var front := ReadyFrom(candidates[..n], verdicts[..n]);
      if verdicts[n].Ready? then front + [(candidates[n], verdicts[n].evidence)] else front
  }

  function BlockedFrom(verdicts: seq<Verdict>): multiset<Reason> {
    if verdicts == [] then multiset{}
    else
      var n := |verdicts| - 1;
      var front := BlockedFrom(verdicts[..n]);
      if verdicts[n].Blocked? then front + multiset{verdicts[n].reason} else front
  }

  function ReadyOf(facts: Facts, kind: EventKind, candidates: seq<Candidate>): seq<(Candidate, Evidence)>
    requires IsMode(kind)
  {
    ReadyFrom(candidates, Verdicts(facts, kind, candidates))
  }

  function BlockedOf(facts: Facts, kind: EventKind, candidates: seq<Candidate>): multiset<Reason>
    requires IsMode(kind)
  {
    BlockedFrom(Verdicts(facts, kind, candidates))
  }

  lemma {:induction false} EveryoneCounts(candidates: seq<Candidate>, verdicts: seq<Verdict>)
    requires |verdicts| == |candidates|
    ensures |ReadyFrom(candidates, verdicts)| + |BlockedFrom(verdicts)| == |candidates|
  {
    if candidates == [] {
      assert BlockedFrom(verdicts) == multiset{};
    } else {
      EveryoneCounts(candidates[..|candidates| - 1], verdicts[..|candidates| - 1]);
    }
  }

  lemma {:induction false} ReadyConcat(a: seq<Candidate>, b: seq<Candidate>, v: seq<Verdict>, w: seq<Verdict>)
    requires |v| == |a| && |w| == |b|
    ensures ReadyFrom(a + b, v + w) == ReadyFrom(a, v) + ReadyFrom(b, w)
  {
    if b == [] {
      assert a + b == a && v + w == v;
    } else {
      var n := |b| - 1;
      assert (a + b)[..|a + b| - 1] == a + b[..n] && (v + w)[..|v + w| - 1] == v + w[..n];
      ReadyConcat(a, b[..n], v, w[..n]);
    }
  }

  lemma {:induction false} BlockedConcat(v: seq<Verdict>, w: seq<Verdict>)
    ensures BlockedFrom(v + w) == BlockedFrom(v) + BlockedFrom(w)
  {
    if w == [] {
      assert v + w == v;
    } else {
      assert (v + w)[..|v + w| - 1] == v + w[..|w| - 1];
      BlockedConcat(v, w[..|w| - 1]);
    }
  }

  lemma {:induction false} ScansConcat(facts: Facts, kind: EventKind, a: seq<Candidate>, b: seq<Candidate>)
    requires IsMode(kind)
    ensures ReadyOf(facts, kind, a + b) == ReadyOf(facts, kind, a) + ReadyOf(facts, kind, b)
    ensures BlockedOf(facts, kind, a + b) == BlockedOf(facts, kind, a) + BlockedOf(facts, kind, b)
  {
    var v, w := Verdicts(facts, kind, a), Verdicts(facts, kind, b);
    JudgedConcat(a, b, JudgeOf(facts, kind));
    ReadyConcat(a, b, v, w);
    BlockedConcat(v, w);
  }

  function OrdersIn(candidates: seq<Candidate>): (r: seq<Order>)
    ensures |r| == |candidates| && forall k | 0 <= k < |r| :: r[k] == candidates[k].order
  {
    seq(|candidates|, k requires 0 <= k < |candidates| => candidates[k].order)
  }

  lemma ReadyStep(candidates: seq<Candidate>, verdicts: seq<Verdict>, k: nat)
    requires |verdicts| == |candidates| && k < |candidates|
    ensures ReadyFrom(candidates[..k + 1], verdicts[..k + 1]) ==
            if verdicts[k].Ready? then ReadyFrom(candidates[..k], verdicts[..k]) + [(candidates[k], verdicts[k].evidence)]
            else ReadyFrom(candidates[..k], verdicts[..k])
    ensures BlockedFrom(verdicts[..k + 1]) ==
            if verdicts[k].Blocked? then BlockedFrom(verdicts[..k]) + multiset{verdicts[k].reason}
            else BlockedFrom(verdicts[..k])
  {
    assert candidates[..k + 1][..k] == candidates[..k] && verdicts[..k + 1][..k] == verdicts[..k];
  }

  /** The ready batch of a mode: the evidence and the listing are those of the batch's own orders. */
  method ReadyBatch(facts: Facts, kind: EventKind, batch: seq<Candidate>)
    returns (ready: seq<(Candidate, Evidence)>, blocked: multiset<Reason>)
    requires IsMode(kind) && |batch| <= BATCH_SIZE
    ensures ready == ReadyOf(facts, kind, batch) && blocked == BlockedOf(facts, kind, batch)
  {
    var asked := OrdersIn(batch);
    ghost var verdicts := Verdicts(facts, kind, batch);
    ready, blocked := [], multiset{};
    for k := 0 to |batch|
      invariant ready == ReadyFrom(batch[..k], verdicts[..k]) && blocked == BlockedFrom(verdicts[..k])
    {
      ReadyStep(batch, verdicts, k);
      var verdict := VerdictInBatch(facts, kind, asked, batch, k);
      match verdict
      case Ready(evidence) => ready := ready + [(batch[k], evidence)];
      case Blocked(reason) => blocked := blocked + multiset{reason};
    }
    assert batch[..|batch|] == batch && verdicts[..|batch|] == verdicts;
  }

  method VerdictInBatch(facts: Facts, kind: EventKind, asked: seq<Order>, batch: seq<Candidate>, k: nat)
    returns (verdict: Verdict)
    requires IsMode(kind) && |batch| <= BATCH_SIZE && k < |batch| && asked == OrdersIn(batch)
    ensures verdict == Verdicts(facts, kind, batch)[k]
  {
    assert asked[k] == batch[k].order;
    verdict := BatchVerdict(facts, kind, asked, batch[k]);
    VerdictIsOwn(facts, kind, asked, batch[k]);
    VerdictAt(facts, kind, batch, k);
  }

  /** The loop over the batches of a dry run: every candidate ends up ready or under exactly one reason, and the
      batches together find what one pass over all candidates finds. */
  method Scan(facts: Facts, kind: EventKind, candidates: seq<Candidate>)
    returns (ready: seq<(Candidate, Evidence)>, totals: multiset<Reason>)
    requires IsMode(kind)
    ensures ready == ReadyOf(facts, kind, candidates) && totals == BlockedOf(facts, kind, candidates)
    ensures |ready| + |totals| == |candidates|
  {
    ready, totals := [], multiset{};
    var start := 0;
    while start < |candidates|
      invariant start <= |candidates|
      invariant ready == ReadyOf(facts, kind, candidates[..start]) && totals == BlockedOf(facts, kind, candidates[..start])
    {
      var end := if |candidates| <= start + BATCH_SIZE then |candidates| else start + BATCH_SIZE;
      var batchReady, blocked := ReadyBatch(facts, kind, candidates[start..end]);
      ScansConcat(facts, kind, candidates[..start], candidates[start..end]);
      assert candidates[..start] + candidates[start..end] == candidates[..end];
      ready, totals := ready + batchReady, totals + blocked;
      start := end;
    }
    assert candidates[..start] == candidates;
    EveryoneCounts(candidates, Verdicts(facts, kind, candidates));
  }

  // ---------- the modes against each other ----------

  /** A ready item fits its mode, and its order's only deal is the candidate's and waits at EXECUTING. */
  lemma {:induction false} ReadyNeedsWaitingDeal(facts: Facts, kind: EventKind, c: Candidate)
    requires IsMode(kind) && OrderVerdict(facts, kind, c).Ready?
    ensures Fits(kind, OrderVerdict(facts, kind, c).evidence)
    ensures DealWaits(c, Matching(facts.deals, c.order))
  {
    if kind.PickupPaid? {
      PickupReadyIff(c, SignalIn(facts.rtus, c.order), ListIn(facts.payments, c.order),
                     SiteOf(facts, Matching(facts.deals, c.order), c.order), Won);
    } else if kind.PickupLate? {
      PickupReadyIff(c, SignalIn(facts.rtus, c.order), ListIn(facts.payments, c.order),
                     SiteOf(facts, Matching(facts.deals, c.order), c.order), Dismantling);
    }
  }
}
