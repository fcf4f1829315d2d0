/** The scan of `--stale-execution`: one snapshot per order whose deal waits at EXECUTING, judged by a 1C decision and
    the later chat event of its case. */
module StaleScan {
  import opened OrderDomain
  import opened StageOutbox
  import opened ReadyBatches
  import opened LiveReads
  import CompositeRace

  datatype Decision = Decision(updatesStage: bool, target: Option<Stage>, reason: DecisionReason)

  datatype DecisionReason = PrintedAndScanned | AssembledWithoutReturn | FullUnpaidReturn | OtherDecision(name: string)

  datatype ChatKind = PickupReceived | PickupDismantling | PickupUnclaimed | OtherChatKind(name: string)

  datatype ChatEvent = ChatEvent(kind: ChatKind, at: Option<int>, source: Source, strong: bool)

  datatype Snapshot = Snapshot(order: Order, dealId: int, historical: bool, times: seq<Option<int>>, decision: Decision,
                               fingerprint: string)

  /** `_snapshot_evidence_at`: the latest time that is known. */
  function EvidenceAt(times: seq<Option<int>>): (r: Option<int>)
    ensures r.None? <==> forall k | 0 <= k < |times| :: times[k].None?
    ensures r.Some? ==> (exists k | 0 <= k < |times| :: times[k] == r) &&
                        forall k | 0 <= k < |times| && times[k].Some? :: times[k].value <= r.value
  {
    if times == [] then None
    else
      var last, r := times[|times| - 1], EvidenceAt(times[..|times| - 1]);
      if last.None? then r else if r.None? || last.value > r.value then last else r
  }

  /** `_classify_stale_execution_composite` */
  function CompositeTarget(s: Snapshot, chat: ChatEvent): (Option<Stage>, Option<CompositeRefusal>) {
    var onecAt := EvidenceAt(s.times);
    if !s.historical then (None, Some(NotHistorical))
    else if onecAt.None? then (None, Some(OneCTimeMissing))
    else if chat.at.None? then (None, Some(ChatTimeMissing))
    else if chat.at.value <= onecAt.value then (None, Some(ChatNotLater))
    else if !chat.source.BitrixChat? && !chat.source.Manual? then (None, Some(NotChatConfirmation))
    else if !s.decision.updatesStage then (None, Some(NotStageUpdate))
    else if chat.kind.PickupReceived? then
      if !chat.strong then (None, Some(ReceivedNotStrong))
      else if s.decision.target == Some(Won) && s.decision.reason.PrintedAndScanned? then (Some(Won), None)
      else if s.decision.target == Some(FinalInvoice) && s.decision.reason.AssembledWithoutReturn? then (Some(Won), None)
      else (None, Some(ReceivedConflicts))
    else if chat.kind.PickupDismantling? || chat.kind.PickupUnclaimed? then
      if s.decision.target == Some(Lose) && s.decision.reason.FullUnpaidReturn? then (Some(Lose), None)
      else (None, Some(NonReceiptConflicts))
    else (None, Some(UnsupportedChatEvent))
  }

  /** Every known 1C time precedes the chat event. */
  predicate ChatIsLater(s: Snapshot, chat: ChatEvent) {
    chat.at.Some? && (exists k | 0 <= k < |s.times| :: s.times[k].Some?) &&
    forall k | 0 <= k < |s.times| && s.times[k].Some? :: s.times[k].value < chat.at.value
  }

  /** The composite is fail-closed: WON needs a strong receipt in the chat after 1C goods that were issued
      or assembled, LOSE needs a non-receipt after a full unpaid return, and nothing else passes. */
  lemma CompositeTargetIff(s: Snapshot, chat: ChatEvent)
    ensures var (target, refusal) := CompositeTarget(s, chat);
            (target.Some? <==> refusal.None?) && target in {None, Some(Won), Some(Lose)} &&
            (target == Some(Won) <==>
             s.historical && ChatIsLater(s, chat) && (chat.source.BitrixChat? || chat.source.Manual?) && s.decision.updatesStage &&
             chat.kind.PickupReceived? && chat.strong &&
             ((s.decision.target == Some(Won) && s.decision.reason.PrintedAndScanned?) ||
              (s.decision.target == Some(FinalInvoice) && s.decision.reason.AssembledWithoutReturn?))) &&
            (target == Some(Lose) <==>
             s.historical && ChatIsLater(s, chat) && (chat.source.BitrixChat? || chat.source.Manual?) && s.decision.updatesStage &&
             (chat.kind.PickupDismantling? || chat.kind.PickupUnclaimed?) &&
             s.decision.target == Some(Lose) && s.decision.reason.FullUnpaidReturn?)
  {
  }

  // ---------- snapshots ----------

  /** What 1C says of an order: the times of its last sale, assembly, issue and return, and what
      `decide_execution_stage` makes of the rest. */
  datatype OneCView = OneCView(times: seq<Option<int>>, decision: Decision, fingerprint: string)

  /** `_historical_execution_evidence` */
  predicate IsHistorical(at: Option<int>, cutover: Option<int>) {
    at.None? || cutover.None? || at.value < cutover.value
  }

  /** An order 1C does not know has neither times nor a stage update. */
  const UNKNOWN: OneCView := OneCView([], Decision(false, None, OtherDecision("")), "")

  /** `build_execution_snapshots`, for one deal. */
  function SnapshotOf(onec: map<Order, OneCView>, cutover: Option<int>, deal: Deal): Snapshot {
    var view := if deal.order in onec then onec[deal.order] else UNKNOWN;
    Snapshot(deal.order, deal.id, IsHistorical(EvidenceAt(view.times), cutover), view.times, view.decision,
             view.fingerprint)
  }

  // ---------- the latest event ----------

  /** The latest of the events below `n` of this order. */
  function Latest(events: map<nat, Event>, order: Order, n: nat): Option<nat> {
    if n == 0 then None
    else
      var before := Latest(events, order, n - 1);
      if n - 1 !in events || events[n - 1].order != order then before
      else if before.None? || before.value !in events then Some(n - 1)
      else if Precedes(events[n - 1], n - 1, events[before.value], before.value) then Some(n - 1)
      else before
  }

  lemma {:induction false} LatestBelow(events: map<nat, Event>, order: Order, n: nat)
    ensures Latest(events, order, n).None? <==> forall e | e in events && e < n :: events[e].order != order
    ensures Latest(events, order, n).Some? ==>
              var l := Latest(events, order, n).value;
              l < n && l in events && events[l].order == order &&
              forall e | e in events && e < n && e != l && events[e].order == order ::
                Precedes(events[l], l, events[e], e)
  {
    if n == 0 {
      assert Latest(events, order, 0) == None;
    } else {
      LatestBelow(events, order, n - 1);
    }
  }

  /** `_latest_execution_event` returns the latest event of the order, if it has any. */
  lemma {:induction false} LatestIsLatest(events: map<nat, Event>, order: Order, n: nat)
    requires forall e | e in events :: e < n
    ensures Latest(events, order, n).Some? ==> IsLatest(events, order, Latest(events, order, n).value)
    ensures Latest(events, order, n).None? <==> forall e | e in events :: events[e].order != order
  {
    LatestBelow(events, order, n);
  }

  // ---------- one snapshot ----------

  /** What the database knows besides the cases and events: which events were reported with strong confidence, which
      chat messages were edited afterwards, and which orders' goods lie in a warehouse. */
  datatype Notes = Notes(strong: set<nat>, edited: set<nat>, stocked: set<Order>)

  function ChatKindOf(kind: EventKind): ChatKind {
    match kind
    case OtherKind("pickup_client_received") => PickupReceived
    case OtherKind("pickup_dismantling_started") => PickupDismantling
    case OtherKind("pickup_unclaimed_reported") => PickupUnclaimed
    case OtherKind(name) => OtherChatKind(name)
    case _ => OtherChatKind("")
  }

  function ChatOf(db: Db, notes: Notes, id: nat): ChatEvent
    requires id in db.events
  {
    ChatEvent(ChatKindOf(db.events[id].kind), db.events[id].at, db.events[id].source, id in notes.strong)
  }

  function ReasonText(s: Snapshot, target: Stage): string {
    if target == Lose then "onec_full_unpaid_return_and_later_nonreceipt"
    else if s.decision.reason.PrintedAndScanned? then "onec_issued_and_later_pickup_received"
    else "onec_assembled_and_later_pickup_received"
  }

  /** The body of the loop over the snapshots. */
  function StaleVerdict(db: Db, notes: Notes, s: Snapshot): Verdict {
    if s.order !in db.cases then Blocked(ExecutionCaseMissing)
    else if db.cases[s.order].dealId !in {None, Some(s.dealId)} then Blocked(CaseDealChanged)
    else
      var latest := Latest(db.events, s.order, db.nextEvent);
      if latest.None? || latest.value !in db.events then Blocked(LatestEventMissing)
      else
        var id := latest.value;
        var event := db.events[id];
        if event.source.BitrixChat? && id in notes.edited then Blocked(LatestChatMessageEdited)
        else if s.order in notes.stocked then Blocked(CurrentInventory)
        else
          var (target, refusal) := CompositeTarget(s, ChatOf(db, notes, id));
          if target.None? then Blocked(CompositeRefused(if refusal.Some? then refusal.value else UnsupportedChatEvent))
          else if event.at.None? then Blocked(CompositeRefused(ChatTimeMissing))
          else Ready(CompositeFacts(s.fingerprint, id, event.at.value, target.value, ReasonText(s, target.value)))
  }

  /** What the enqueue step is given for a ready snapshot. */
  function ItemOf(s: Snapshot, evidence: Evidence): Item
    requires evidence.CompositeFacts?
  {
    Item(s.order, s.dealId, if evidence.compositeTarget == Won then CompositeWon else CompositeLose, evidence,
         evidence.chatAt)
  }

  predicate EventsBelow(db: Db) { forall e | e in db.events :: e < db.nextEvent }

  /** A ready snapshot is what a worker may gather: a composite over the latest event of its order, a chat
      confirmation with a time, aimed at WON or LOSE. */
  lemma {:induction false} ReadyGathers(db: Db, notes: Notes, s: Snapshot)
    requires EventsBelow(db) && StaleVerdict(db, notes, s).Ready?
    ensures StaleVerdict(db, notes, s).evidence.CompositeFacts?
    ensures CompositeRace.Gathers(db.events, ItemOf(s, StaleVerdict(db, notes, s).evidence))
  {
    LatestIsLatest(db.events, s.order, db.nextEvent);
    var latest := Latest(db.events, s.order, db.nextEvent);
    CompositeTargetIff(s, ChatOf(db, notes, latest.value));
  }

  /** And it passes the checks under the row lock, as long as nothing has changed. */
  lemma {:induction false} ReadyPassesLock(db: Db, notes: Notes, s: Snapshot)
    requires EventsBelow(db) && StaleVerdict(db, notes, s).Ready?
    ensures StaleVerdict(db, notes, s).evidence.CompositeFacts?
    ensures var item := ItemOf(s, StaleVerdict(db, notes, s).evidence);
            item.kind.IsScript() && item.order in db.cases && PassesLockedChecks(db, item)
  {
    ReadyGathers(db, notes, s);
  }

  /** Once the composite is enqueued, the same snapshot is never ready again for the same chat event. */
  lemma {:induction false} ConsumedIsBlocked(db: Db, notes: Notes, later: Db, notes1: Notes, s: Snapshot, s1: Snapshot)
    requires EventsBelow(db) && StaleVerdict(db, notes, s).Ready? && EventsBelow(later)
    requires var item := ItemOf(s, StaleVerdict(db, notes, s).evidence);
             !HasEvent(db.events, EventOf(item)) &&
             forall e | e in EnqueueOne(db, item).0.events ::
               e in later.events && later.events[e] == EnqueueOne(db, item).0.events[e]
    requires s1.order == s.order && StaleVerdict(later, notes1, s1).Ready?
    ensures StaleVerdict(later, notes1, s1).evidence.chatEventId != StaleVerdict(db, notes, s).evidence.chatEventId
  {
    ReadyPassesLock(db, notes, s);
    ReadyGathers(later, notes1, s1);
    var item := ItemOf(s, StaleVerdict(db, notes, s).evidence);
    var c, e := item.evidence.chatEventId, db.nextEvent;
    assert EnqueueOne(db, item).0.events[e] == EventOf(item);
    assert later.events[e] == EventOf(item) && later.events[c] == db.events[c];
    assert !Precedes(later.events[c], c, later.events[e], e);
  }

  // ---------- the scan ----------

  /** The deal by which an order enters the scan, or the reason why it does not. */
  function Entry(deals: seq<Deal>, order: Order): (Option<Deal>, Option<Reason>) {
    var found := Matching(deals, order);
    if |found| != 1 then (None, Some(DealNotUnique))
    else if found[0].stage != Executing then (None, Some(UnexpectedStage(found[0].stage)))
    else (Some(found[0]), None)
  }

  /** The 1C view, or nothing when its connection is not configured, and the cut-over time. */
  datatype Settings = Settings(onec: Option<map<Order, OneCView>>, cutover: Option<int>)

  function DealVerdict(db: Db, notes: Notes, settings: Settings, deal: Deal): Verdict {
    if settings.onec.None? then Blocked(OneCNotConfigured)
    else StaleVerdict(db, notes, SnapshotOf(settings.onec.value, settings.cutover, deal))
  }

  /** What becomes of one order. */
  function OrderVerdict(db: Db, notes: Notes, settings: Settings, deals: seq<Deal>, order: Order): Verdict {
    var (deal, refusal) := Entry(deals, order);
    if deal.Some? then DealVerdict(db, notes, settings, deal.value)
    else Blocked(if refusal.Some? then refusal.value else DealNotUnique)
  }

  function ReadyOrders(db: Db, notes: Notes, settings: Settings, deals: seq<Deal>, orders: seq<Order>): seq<Evidence> {
    if orders == [] then []
    else
      var front := ReadyOrders(db, notes, settings, deals, orders[..|orders| - 1]);
      var v := OrderVerdict(db, notes, settings, deals, orders[|orders| - 1]);
      if v.Ready? then front + [v.evidence] else front
  }

  function BlockedOrders(db: Db, notes: Notes, settings: Settings, deals: seq<Deal>, orders: seq<Order>): multiset<Reason> {
    if orders == [] then multiset{}
    else
      var front := BlockedOrders(db, notes, settings, deals, orders[..|orders| - 1]);
      var v := OrderVerdict(db, notes, settings, deals, orders[|orders| - 1]);
      if v.Blocked? then front + multiset{v.reason} else front
  }

  /** The deals that enter the second phase, and the reasons of the orders that do not. */
  function Entered(deals: seq<Deal>, orders: seq<Order>): seq<Deal> {
    if orders == [] then []
    else
      var front, entry := Entered(deals, orders[..|orders| - 1]), Entry(deals, orders[|orders| - 1]);
      if entry.0.Some? then front + [entry.0.value] else front
  }

  function Turned(deals: seq<Deal>, orders: seq<Order>): multiset<Reason> {
    if orders == [] then multiset{}
    else
      var front, entry := Turned(deals, orders[..|orders| - 1]), Entry(deals, orders[|orders| - 1]);
      if entry.0.Some? then front else front + multiset{if entry.1.Some? then entry.1.value else DealNotUnique}
  }

  function ReadyDeals(db: Db, notes: Notes, settings: Settings, entered: seq<Deal>): seq<Evidence> {
    if entered == [] then []
    else
      var front := ReadyDeals(db, notes, settings, entered[..|entered| - 1]);
      var v := DealVerdict(db, notes, settings, entered[|entered| - 1]);
      if v.Ready? then front + [v.evidence] else front
  }

  function BlockedDeals(db: Db, notes: Notes, settings: Settings, entered: seq<Deal>): multiset<Reason> {
    if entered == [] then multiset{}
    else
      var front := BlockedDeals(db, notes, settings, entered[..|entered| - 1]);
      var v := DealVerdict(db, notes, settings, entered[|entered| - 1]);
      if v.Blocked? then front + multiset{v.reason} else front
  }

  lemma DealsAppend(db: Db, notes: Notes, settings: Settings, front: seq<Deal>, d: Deal)
    ensures var v := DealVerdict(db, notes, settings, d);
            ReadyDeals(db, notes, settings, front + [d]) ==
            (if v.Ready? then ReadyDeals(db, notes, settings, front) + [v.evidence]
             else ReadyDeals(db, notes, settings, front)) &&
            BlockedDeals(db, notes, settings, front + [d]) ==
            (if v.Blocked? then BlockedDeals(db, notes, settings, front) + multiset{v.reason}
             else BlockedDeals(db, notes, settings, front))
  {
    assert (front + [d])[..|front|] == front;
  }

  /** The two phases give every order its verdict. */
  lemma {:induction false} PhasesAgree(db: Db, notes: Notes, settings: Settings, deals: seq<Deal>, orders: seq<Order>)
    ensures ReadyOrders(db, notes, settings, deals, orders) == ReadyDeals(db, notes, settings, Entered(deals, orders))
    ensures BlockedOrders(db, notes, settings, deals, orders) ==
            Turned(deals, orders) + BlockedDeals(db, notes, settings, Entered(deals, orders))
  {
    if orders == [] {
      assert Entered(deals, orders) == [];
    } else {
      var rest, order := orders[..|orders| - 1], orders[|orders| - 1];
      PhasesAgree(db, notes, settings, deals, rest);
      var entry := Entry(deals, order);
      if entry.0.Some? {
        DealsAppend(db, notes, settings, Entered(deals, rest), entry.0.value);
      }
    }
  }

  lemma {:induction false} EveryOrderCounts(db: Db, notes: Notes, settings: Settings, deals: seq<Deal>,
                                            orders: seq<Order>)
    ensures |ReadyOrders(db, notes, settings, deals, orders)| + |BlockedOrders(db, notes, settings, deals, orders)| ==
            |orders|
  {
    if orders == [] {
      assert ReadyOrders(db, notes, settings, deals, orders) == [];
    } else {
      EveryOrderCounts(db, notes, settings, deals, orders[..|orders| - 1]);
    }
  }

  lemma {:induction false} NoneConfigured(db: Db, notes: Notes, settings: Settings, entered: seq<Deal>)
    requires settings.onec.None?
    ensures ReadyDeals(db, notes, settings, entered) == []
    ensures BlockedDeals(db, notes, settings, entered) == multiset{}[OneCNotConfigured := |entered|]
  {
    if entered == [] {
      assert BlockedDeals(db, notes, settings, entered) == multiset{};
    } else {
      NoneConfigured(db, notes, settings, entered[..|entered| - 1]);
    }
  }

  /** At most forty orders are read in one chunk, so each sees its own deals. */
  lemma {:induction false} ScanReads(deals: seq<Deal>, orders: seq<Order>, order: Order)
    requires |orders| <= LIVE_CHUNK && order in orders
    ensures Live(deals, orders, order) == Matching(deals, order)
  {
    FortyRowsAreReadable(orders, order);
    OneChunkIsExact(deals, orders, order);
  }

  /** The first loop of `_stale_execution_ready_batch`: which deals are unique and wait. */
  method EnterDeals(deals: seq<Deal>, orders: seq<Order>) returns (entered: seq<Deal>, blocked: multiset<Reason>)
    requires |orders| <= BATCH_SIZE
    ensures entered == Entered(deals, orders) && blocked == Turned(deals, orders)
  {
    entered, blocked := [], multiset{};
    for k := 0 to |orders|
      invariant entered == Entered(deals, orders[..k]) && blocked == Turned(deals, orders[..k])
    {
      assert orders[..k + 1][..k] == orders[..k];
      ScanReads(deals, orders, orders[k]);
      var live := Live(deals, orders, orders[k]);
      if |live| != 1 {
        blocked := blocked + multiset{DealNotUnique};
      } else if live[0].stage != Executing {
        blocked := blocked + multiset{UnexpectedStage(live[0].stage)};
      } else {
        entered := entered + [live[0]];
      }
    }
    assert orders[..|orders|] == orders;
  }

  /** The second loop: a verdict for every snapshot, of which there is one per deal. */
  method JudgeDeals(db: Db, notes: Notes, onec: map<Order, OneCView>, cutover: Option<int>, entered: seq<Deal>)
    returns (ready: seq<Evidence>, blocked: multiset<Reason>)
    ensures ready == ReadyDeals(db, notes, Settings(Some(onec), cutover), entered)
    ensures blocked == BlockedDeals(db, notes, Settings(Some(onec), cutover), entered)
  {
    ready, blocked := [], multiset{};
    for k := 0 to |entered|
      invariant ready == ReadyDeals(db, notes, Settings(Some(onec), cutover), entered[..k])
      invariant blocked == BlockedDeals(db, notes, Settings(Some(onec), cutover), entered[..k])
    {
      assert entered[..k + 1] == entered[..k] + [entered[k]];
      DealsAppend(db, notes, Settings(Some(onec), cutover), entered[..k], entered[k]);
      match StaleVerdict(db, notes, SnapshotOf(onec, cutover, entered[k]))
      case Ready(evidence) => ready := ready + [evidence];
      case Blocked(reason) => blocked := blocked + multiset{reason};
    }
    assert entered[..|entered|] == entered;
  }

  /** `_stale_execution_ready_batch`: every order ends up ready or under exactly one reason, and what becomes of it
      depends on no other order of the selection. */
  method StaleReadyBatch(db: Db, notes: Notes, settings: Settings, deals: seq<Deal>, orders: seq<Order>)
    returns (ready: seq<Evidence>, blocked: multiset<Reason>)
    requires |orders| <= BATCH_SIZE
    ensures ready == ReadyOrders(db, notes, settings, deals, orders)
    ensures blocked == BlockedOrders(db, notes, settings, deals, orders)
    ensures |ready| + |blocked| == |orders|
  {
    var entered;
    entered, blocked := EnterDeals(deals, orders);
    PhasesAgree(db, notes, settings, deals, orders);
    EveryOrderCounts(db, notes, settings, deals, orders);
    ready := [];
    if entered == [] {
      return;
    }
    if settings.onec.None? {
      NoneConfigured(db, notes, settings, entered);
      blocked := blocked + multiset{}[OneCNotConfigured := |entered|];
      return;
    }
    var more;
    ready, more := JudgeDeals(db, notes, settings.onec.value, settings.cutover, entered);
    assert settings == Settings(Some(settings.onec.value), settings.cutover);
    blocked := blocked + more;
  }

  /** A scan finds ready only orders whose single deal waits at EXECUTING. */
  lemma ReadyNeedsWaitingDeal(db: Db, notes: Notes, settings: Settings, deals: seq<Deal>, order: Order)
    requires OrderVerdict(db, notes, settings, deals, order).Ready?
    ensures |Matching(deals, order)| == 1 && Matching(deals, order)[0].stage == Executing
    ensures Matching(deals, order)[0].order == order
  {
    MatchingMembers(deals, order);
    assert Matching(deals, order)[0] in Matching(deals, order);
  }
}
