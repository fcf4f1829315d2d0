/** Vocabulary shared by the order-return reconciliation modules: CRM stages, event kinds,
    evidence, and the rows the scripts keep in the database. */
module OrderDomain {

  datatype Option<+T> = None | Some(value: T)

  /** A site order is known by its number, which is never blank. */
  type Order = s: string | |s| > 0 witness "0"

  /** Money is counted in cents; `MONEY_TOLERANCE` is Decimal("0.05"). */
  const MONEY_TOLERANCE: int := 5

  /** Quantities are counted in ten-thousandths; `QTY_TOLERANCE` is Decimal("0.0001"). */
  const QTY_TOLERANCE: int := 1

  const BATCH_SIZE: nat := 20

  function Min(a: int, b: int): int { if a <= b then a else b }

  datatype Stage = Executing | Won | Lose | Dismantling | FinalInvoice | OtherStage(name: string)

  /** The first seven kinds are written by the reconciliation script, the last one stands for
      every event type written by other pipelines. */
  datatype EventKind =
    | PartialReturn
    | FullRefund
    | PickupPaid
    | PickupLate
    | PickupIssued
    | CompositeWon
    | CompositeLose
    | OtherKind(name: string)
  {
    predicate IsScript() { !OtherKind? }

    predicate IsComposite() { CompositeWon? || CompositeLose? }

    /** The one CRM stage a script event kind may move a deal to. */
    function Target(): Stage
      requires IsScript()
    {
      match this
      case FullRefund => Lose
      case PickupLate => Dismantling
      case CompositeLose => Lose
      case _ => Won
    }

    /** Modes whose apply ends in `_finalize_applied`; the others end in `_record_case_stages`. */
    predicate ResolvesReviews() { PartialReturn? || FullRefund? }
  }

  datatype RetainedLine = RetainedLine(product: string, quantity: int, amount: int)

  datatype QualifyingRtu = QualifyingRtu(number: string, amount: int, scannedAt: int, returnedAt: Option<int>)

  /** The canonical content that the script hashes.  The SHA-256 fingerprint is taken to be
      injective, so the evidence itself plays its part in keys and source references. */
  datatype Evidence =
    | RetainedGoods(lines: seq<RetainedLine>)
    | RefundFacts(refundOrder: Order, rtuCount: int, returnedRtuCount: int, sale: int, returned: int,
                  payment: int, refund: int, latestReturnAt: int)
    | PickupFacts(pickupOrder: Order, pickupTarget: Stage, rtuCount: int, returnedRtuCount: int, sale: int,
                  returned: int, latestRtuAt: int, latestReturnAt: int, paidBefore: int, paidAfter: int,
                  qualifyingAt: Option<int>)
    | IssuedFacts(issuedOrder: Order, rtuTotal: int, issuedTotal: int, rtus: seq<QualifyingRtu>)
    | CompositeFacts(snapshot: string, chatEventId: nat, chatAt: int, compositeTarget: Stage, reason: string)

  /** Each mode hashes its own evidence shape. */
  predicate Fits(kind: EventKind, evidence: Evidence) {
    match kind
    case PartialReturn => evidence.RetainedGoods?
    case FullRefund => evidence.RefundFacts?
    case PickupPaid => evidence.PickupFacts? && evidence.pickupTarget == Won
    case PickupLate => evidence.PickupFacts? && evidence.pickupTarget == Dismantling
    case PickupIssued => evidence.IssuedFacts?
    case CompositeWon => evidence.CompositeFacts? && evidence.compositeTarget == Won
    case CompositeLose => evidence.CompositeFacts? && evidence.compositeTarget == Lose
    case OtherKind(_) => false
  }

  datatype Source = BitrixChat | Manual | OneC | Reconciliation | OtherSource(name: string)

  /** `source_ref`: a prefix per mode, followed by the fingerprint. */
  datatype SourceRef =
    | PartialSaleRef(evidence: Evidence)
    | FullRefundRef(evidence: Evidence)
    | PickupReturnRef(paidBefore: bool, evidence: Evidence)
    | PickupIssuedRef(evidence: Evidence)
    | CompositeRef(evidence: Evidence)
    | OtherRef(text: string)

  function RefOf(kind: EventKind, evidence: Evidence): SourceRef {
    match kind
    case PartialReturn => PartialSaleRef(evidence)
    case FullRefund => FullRefundRef(evidence)
    case PickupPaid => PickupReturnRef(true, evidence)
    case PickupLate => PickupReturnRef(false, evidence)
    case PickupIssued => PickupIssuedRef(evidence)
    case CompositeWon => CompositeRef(evidence)
    case CompositeLose => CompositeRef(evidence)
    case OtherKind(name) => OtherRef(name)
  }

  /** Composites are written by the reconciliation itself, everything else reports 1C facts. */
  function SourceOf(kind: EventKind): Source { if kind.IsComposite() then Reconciliation else OneC }

  datatype Event = Event(order: Order, kind: EventKind, ref: SourceRef, at: Option<int>, source: Source)
  {
    /** `source|source_ref|order|type`, the idempotency key of an event. */
    predicate SameKey(that: Event) {
      order == that.order && kind == that.kind && ref == that.ref && source == that.source
    }
  }

  /** The script writes the first three; the stage worker also parks rows for review or as terminal. */
  datatype Status = Pending | Retry | Applied | ManualReview | Terminal

  /** `execution-stage|order|fingerprint|target` */
  datatype Key = Key(order: Order, evidence: Evidence, target: Stage)

  datatype Row = Row(key: Key, order: Order, dealId: int, kind: EventKind, target: Stage, eventId: nat,
                     status: Status, liveStage: Option<Stage>)
  {
    /** Rows that recovery and re-enqueuing still pick up. */
    predicate Open() { status.Pending? || status.Retry? }

    /** Two versions of one row: everything but the delivery outcome is written once. */
    predicate SameIdentity(that: Row) {
      key == that.key && order == that.order && dealId == that.dealId && kind == that.kind &&
      target == that.target && eventId == that.eventId
    }
  }

  datatype Case = Case(dealId: Option<int>, derived: Option<EventKind>, crmStage: Option<Stage>,
                       lastEvidence: Option<nat>)

  datatype ReviewReason = PaidAndReturned | IssuedAndReturned | OtherReason(name: string)

  /** One order may have several open conflict reviews at once: each decision for a manual review adds one. */
  datatype Review = Review(order: Order, conflict: bool, open: bool, reason: ReviewReason)

  datatype Deal = Deal(id: int, order: Order, stage: Stage, pickup: bool)

  /** What a ready batch hands to the enqueue step. */
  datatype Item = Item(order: Order, dealId: int, kind: EventKind, evidence: Evidence, eventAt: int)

  datatype Db = Db(cases: map<Order, Case>, events: map<nat, Event>, nextEvent: nat, outbox: seq<Row>,
                   reviews: seq<Review>)
}
