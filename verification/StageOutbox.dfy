/** The stage outbox as functions on values: enqueue, the CRM batch, the readback that marks rows,
    and the case and review updates that follow. */
module StageOutbox {
  import opened OrderDomain

  // ---------- events ----------

  predicate HasEvent(events: map<nat, Event>, event: Event) {
    exists e | e in events :: events[e].SameKey(event)
  }

  /** `a` is listed before `b` by `ORDER BY event_at DESC NULLS LAST, id DESC`. */
  predicate Precedes(a: Event, aId: nat, b: Event, bId: nat) {
    match (a.at, b.at)
    case (Some(x), Some(y)) => x > y || (x == y && aId > bId)
    case (Some(_), None) => true
    case (None, Some(_)) => false
    case (None, None) => aId > bId
  }

  /** `_latest_execution_event` of the order's case returns event `id`. */
  predicate IsLatest(events: map<nat, Event>, order: Order, id: nat) {
    id in events && events[id].order == order &&
    forall e | e in events && e != id && events[e].order == order :: Precedes(events[id], id, events[e], e)
  }

  // ---------- enqueue ----------

  /** Id of the row with this idempotency key, if any. */
  function FindKey(outbox: seq<Row>, key: Key): (r: Option<nat>)
    ensures r.Some? ==> r.value < |outbox| && outbox[r.value].key == key
    ensures r.None? ==> forall i | 0 <= i < |outbox| :: outbox[i].key != key
  {
    if outbox == [] then None
    else if outbox[|outbox| - 1].key == key then Some(|outbox| - 1)
    else FindKey(outbox[..|outbox| - 1], key)
  }

  /** The composite mode re-reads the case and its latest event under the row lock. */
  predicate PassesLockedChecks(db: Db, item: Item)
    requires item.order in db.cases
  {
    item.kind.IsComposite() ==>
      db.cases[item.order].dealId in {None, Some(item.dealId)} &&
      item.evidence.CompositeFacts? &&
      IsLatest(db.events, item.order, item.evidence.chatEventId)
  }

  function KeyOf(item: Item): Key
    requires item.kind.IsScript()
  {
    Key(item.order, item.evidence, item.kind.Target())
  }

  function EventOf(item: Item): Event {
    Event(item.order, item.kind, RefOf(item.kind, item.evidence), Some(item.eventAt), SourceOf(item.kind))
  }

  function CaseAfter(c: Case, item: Item, eventId: nat): Case {
    c.(dealId := Some(item.dealId), derived := Some(item.kind), crmStage := Some(Executing),
    lastEvidence := Some(eventId))
  }

  /** One turn of an `_enqueue*` loop: the new database and the outbox id it collects, if any. */
  function EnqueueOne(db: Db, item: Item): (Db, Option<nat>)
    requires item.kind.IsScript()
  {
    if item.order !in db.cases || !PassesLockedChecks(db, item) then (db, None)
    else if HasEvent(db.events, EventOf(item)) then
      var existing := FindKey(db.outbox, KeyOf(item));
      (db, if existing.Some? && db.outbox[existing.value].Open() then existing else None)
    else
      var e := db.nextEvent;
      var row := Row(KeyOf(item), item.order, item.dealId, item.kind, item.kind.Target(), e, Pending, None);
      (db.(events := db.events[e := EventOf(item)], nextEvent := e + 1,
       cases := db.cases[item.order := CaseAfter(db.cases[item.order], item, e)],
       outbox := db.outbox + [row]),
       Some(|db.outbox|))
  }

  function Listed(id: Option<nat>): seq<nat> { if id.Some? then [id.value] else [] }

  predicate ScriptItems(items: seq<Item>) {
    forall i | 0 <= i < |items| :: Fits(items[i].kind, items[i].evidence)
  }

  function Enqueue(db: Db, items: seq<Item>): (Db, seq<nat>)
    requires ScriptItems(items)
  {
    if items == [] then (db, [])
    else
      var (db1, ids) := Enqueue(db, items[..|items| - 1]);
      var (db2, id) := EnqueueOne(db1, items[|items| - 1]);
      (db2, ids + Listed(id))
  }

  // ---------- what the CRM shows ----------

  function Matching(deals: seq<Deal>, order: Order): seq<Deal> {
    if deals == [] then []
    else Matching(deals[..|deals| - 1], order) +
         (if deals[|deals| - 1].order == order then [deals[|deals| - 1]] else [])
  }

  lemma {:induction false} MatchingMembers(deals: seq<Deal>, order: Order)
    ensures forall d :: d in Matching(deals, order) <==> d in deals && d.order == order
  {
    if deals == [] {
    } else {
      MatchingMembers(deals[..|deals| - 1], order);
      assert deals == deals[..|deals| - 1] + [deals[|deals| - 1]];
    }
  }

  predicate UniqueIds(deals: seq<Deal>) { forall i, j | 0 <= i < j < |deals| :: deals[i].id != deals[j].id }

  const LIVE_CHUNK: nat := 40

  /** `_live_deals(order_numbers)[order]`: the order numbers are queried in chunks of 40, and a
      chunk that names the order lists all its deals once more. */
  function Live(deals: seq<Deal>, orders: seq<Order>, order: Order): seq<Deal>
    decreases |orders|
  {
    if orders == [] then []
    else
      var n := if |orders| <= LIVE_CHUNK then |orders| else LIVE_CHUNK;
      (if order in orders[..n] then Matching(deals, order) else []) + Live(deals, orders[n..], order)
  }

  /** The order's only listed deal. */
  function Single(deals: seq<Deal>, orders: seq<Order>, order: Order): Option<Deal> {
    var live := Live(deals, orders, order);
    if |live| == 1 then Some(live[0]) else None
  }

  // ---------- apply ----------

  /** Ids below `n` that occur in `ids`, ascending: `SELECT ... WHERE id IN ids ORDER BY id`. */
  function Picked(n: nat, ids: seq<nat>): (r: seq<nat>)
    ensures forall k | 0 <= k < |r| :: r[k] < n && r[k] in ids
    ensures forall i: nat | i < n && i in ids :: i in r
    ensures forall i, j | 0 <= i < j < |r| :: r[i] < r[j]
  {
    if n == 0 then [] else Picked(n - 1, ids) + (if n - 1 in ids then [n - 1] else [])
  }

  function OrdersOf(outbox: seq<Row>, ids: seq<nat>): (r: seq<Order>)
    requires forall k | 0 <= k < |ids| :: ids[k] < |outbox|
    ensures |r| == |ids|
    ensures forall k | 0 <= k < |ids| :: r[k] == outbox[ids[k]].order
  {
    seq(|ids|, k requires 0 <= k < |ids| => outbox[ids[k]].order)
  }

  /** The deal a row is judged by, as one CRM read shows it. */
  function DealFor(deals: seq<Deal>, outbox: seq<Row>, ids: seq<nat>, i: nat): Option<Deal>
    requires i < |outbox|
  {
    Single(deals, OrdersOf(outbox, Picked(|outbox|, ids)), outbox[i].order)
  }

  /** Rows for which `_apply_outbox` puts a stage update into the batch. */
  function Commands(deals: seq<Deal>, outbox: seq<Row>, ids: seq<nat>): set<nat> {
    set i | i in ids && i < |outbox| && NeedsCommand(deals, outbox, ids, i)
  }

  predicate NeedsCommand(deals: seq<Deal>, outbox: seq<Row>, ids: seq<nat>, i: nat)
    requires i < |outbox|
  {
    var d := DealFor(deals, outbox, ids, i);
    d.Some? && d.value.id == outbox[i].dealId && d.value.stage == Executing
  }

  predicate Hit(deal: Deal, outbox: seq<Row>, landed: set<nat>) {
    exists i | i in landed :: i < |outbox| && outbox[i].dealId == deal.id
  }

  /** The batch does not halt on errors: any subset of its updates may land. */
  function Land(deals: seq<Deal>, outbox: seq<Row>, landed: set<nat>, target: Stage): (r: seq<Deal>)
    ensures |r| == |deals|
    ensures forall k | 0 <= k < |deals| ::
              r[k] == if Hit(deals[k], outbox, landed) then deals[k].(stage := target) else deals[k]
  {
    seq(|deals|, k requires 0 <= k < |deals| =>
      if Hit(deals[k], outbox, landed) then deals[k].(stage := target) else deals[k])
  }

  predicate Confirms(row: Row, deal: Option<Deal>, target: Stage) {
    deal.Some? && deal.value.id == row.dealId && deal.value.stage == target
  }

  function Mark(row: Row, deal: Option<Deal>, target: Stage): Row {
    row.(status := if Confirms(row, deal, target) then Applied else Retry,
    liveStage := if deal.Some? then Some(deal.value.stage) else None)
  }

  function MarkAll(deals: seq<Deal>, outbox: seq<Row>, ids: seq<nat>, target: Stage): (r: seq<Row>)
    ensures |r| == |outbox|
    ensures forall i | 0 <= i < |outbox| ::
              r[i] == if i in ids then Mark(outbox[i], DealFor(deals, outbox, ids, i), target) else outbox[i]
  {
    seq(|outbox|, i requires 0 <= i < |outbox| =>
      if i in ids then Mark(outbox[i], DealFor(deals, outbox, ids, i), target) else outbox[i])
  }

  /** Orders of the rows that a readback just confirmed. */
  function ConfirmedOrders(deals: seq<Deal>, outbox: seq<Row>, ids: seq<nat>, target: Stage): set<Order> {
    set i | i in ids && i < |outbox| && IsConfirmed(deals, outbox, ids, i, target) :: outbox[i].order
  }

  predicate IsConfirmed(deals: seq<Deal>, outbox: seq<Row>, ids: seq<nat>, i: nat, target: Stage)
    requires i < |outbox|
  {
    Confirms(outbox[i], DealFor(deals, outbox, ids, i), target)
  }

  function WithStages(cases: map<Order, Case>, orders: set<Order>, target: Stage): map<Order, Case> {
    map o | o in cases :: if o in orders then cases[o].(crmStage := Some(target)) else cases[o]
  }

  predicate Resolvable(review: Review, orders: set<Order>) {
    review.conflict && review.open && review.reason.PaidAndReturned? && review.order in orders
  }

  function WithResolved(reviews: seq<Review>, orders: set<Order>): (r: seq<Review>)
    ensures |r| == |reviews|
    ensures forall k | 0 <= k < |reviews| ::
              r[k] == if Resolvable(reviews[k], orders) then reviews[k].(open := false) else reviews[k]
  {
    seq(|reviews|, k requires 0 <= k < |reviews| =>
      if Resolvable(reviews[k], orders) then reviews[k].(open := false) else reviews[k])
  }

  /** `_finalize_applied` when `resolve` is set, `_record_case_stages` otherwise. */
  function Finalize(db: Db, orders: set<Order>, target: Stage, resolve: bool): Db {
    db.(cases := WithStages(db.cases, orders, target),
    reviews := if resolve then WithResolved(db.reviews, orders) else db.reviews)
  }

  // ---------- recovery ----------

  /** Open rows of one event kind, oldest first. */
  function OpenIds(outbox: seq<Row>, kind: EventKind): (r: seq<nat>)
    ensures forall k | 0 <= k < |r| :: r[k] < |outbox| && outbox[r[k]].kind == kind && outbox[r[k]].Open()
    ensures forall i: nat | i < |outbox| && outbox[i].kind == kind && outbox[i].Open() :: i in r
    ensures forall i, j | 0 <= i < j < |r| :: r[i] < r[j]
  {
    if outbox == [] then []
    else
      var n := |outbox| - 1;
      OpenIds(outbox[..n], kind) + (if outbox[n].kind == kind && outbox[n].Open() then [n] else [])
  }

  function FirstBatch(ids: seq<nat>): seq<nat> {
    if |ids| <= BATCH_SIZE then ids else ids[..BATCH_SIZE]
  }

  predicate IsOpenComposite(row: Row, orders: seq<Order>, target: Stage) {
    row.kind.IsComposite() && row.Open() && row.order in orders && row.target == target
  }

  /** Open composite rows of the selected orders that aim at `target`, oldest first. */
  function OpenComposites(outbox: seq<Row>, orders: seq<Order>, target: Stage): (r: seq<nat>)
    ensures forall k | 0 <= k < |r| :: r[k] < |outbox| && IsOpenComposite(outbox[r[k]], orders, target)
    ensures forall i: nat | i < |outbox| && IsOpenComposite(outbox[i], orders, target) :: i in r
    ensures forall i, j | 0 <= i < j < |r| :: r[i] < r[j]
  {
    if outbox == [] then []
    else
      var n := |outbox| - 1;
      OpenComposites(outbox[..n], orders, target) +
      (if IsOpenComposite(outbox[n], orders, target) then [n] else [])
  }
}
