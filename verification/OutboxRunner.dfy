/** The script's own methods over a mutable database and the CRM, each proved to do exactly what the
    value functions of StageOutbox say. */
module OutboxRunner {
  import opened OrderDomain
  import opened StageOutbox
  import opened CrmClient
  import opened OutboxProtocol

  /** `StageOutboxResult`, as far as the callers use it. */
  datatype Result = Result(order: Order, applied: bool)

  /** `deals[0] if len(deals) == 1` */
  function OnlyOne(found: seq<Deal>): Option<Deal> { if |found| == 1 then Some(found[0]) else None }

  lemma {:induction false} OnlyOneIsDealFor(deals: seq<Deal>, outbox: seq<Row>, ids: seq<nat>, rows: seq<nat>, i: nat)
    requires rows == Picked(|outbox|, ids) && i < |outbox|
    ensures OnlyOne(Live(deals, OrdersOf(outbox, rows), outbox[i].order)) == DealFor(deals, outbox, ids, i)
  {
  }

  /** The first rows' deals, as one read shows them. */
  predicate AreDeals(deals: seq<Deal>, outbox: seq<Row>, ids: seq<nat>, rows: seq<nat>, found: seq<Option<Deal>>) {
    |found| <= |rows| &&
    forall m | 0 <= m < |found| :: rows[m] < |outbox| && found[m] == DealFor(deals, outbox, ids, rows[m])
  }

  lemma {:induction false} NextDeal(deals: seq<Deal>, outbox: seq<Row>, ids: seq<nat>, rows: seq<nat>,
                                    found: seq<Option<Deal>>, listed: seq<Deal>)
    requires rows == Picked(|outbox|, ids) && |found| < |rows| && AreDeals(deals, outbox, ids, rows, found)
    requires listed == Live(deals, OrdersOf(outbox, rows), outbox[rows[|found|]].order)
    ensures AreDeals(deals, outbox, ids, rows, found + [OnlyOne(listed)])
  {
    OnlyOneIsDealFor(deals, outbox, ids, rows, rows[|found|]);
    var more := found + [OnlyOne(listed)];
    forall m | 0 <= m < |more| ensures rows[m] < |outbox| && more[m] == DealFor(deals, outbox, ids, rows[m]) {
      assert m < |found| ==> more[m] == found[m];
    }
  }

  predicate Waits(row: Row, deal: Option<Deal>) {
    deal.Some? && deal.value.id == row.dealId && deal.value.stage == Executing
  }

  function WaitingRows(outbox: seq<Row>, rows: seq<nat>, found: seq<Option<Deal>>, k: nat): seq<nat>
    requires k <= |rows| == |found| && forall m | 0 <= m < |rows| :: rows[m] < |outbox|
  {
    if k == 0 then []
    else WaitingRows(outbox, rows, found, k - 1) +
         (if Waits(outbox[rows[k - 1]], found[k - 1]) then [rows[k - 1]] else [])
  }

  lemma {:induction false} WaitingRowOrigin(outbox: seq<Row>, rows: seq<nat>, found: seq<Option<Deal>>, k: nat, c: nat)
    returns (m: nat)
    requires k <= |rows| == |found| && forall m | 0 <= m < |rows| :: rows[m] < |outbox|
    requires c < |WaitingRows(outbox, rows, found, k)|
    ensures m < k && rows[m] == WaitingRows(outbox, rows, found, k)[c] && Waits(outbox[rows[m]], found[m])
  {
    if c < |WaitingRows(outbox, rows, found, k - 1)| {
      m := WaitingRowOrigin(outbox, rows, found, k - 1, c);
    } else {
      m := k - 1;
    }
  }

  lemma {:induction false} WaitingRowIsCommand(deals: seq<Deal>, outbox: seq<Row>, ids: seq<nat>, rows: seq<nat>,
                                               found: seq<Option<Deal>>)
    requires rows == Picked(|outbox|, ids) && |rows| == |found| && AreDeals(deals, outbox, ids, rows, found)
    ensures AllIn(WaitingRows(outbox, rows, found, |rows|), Commands(deals, outbox, ids))
  {
    forall c: nat | c < |WaitingRows(outbox, rows, found, |rows|)|
      ensures WaitingRows(outbox, rows, found, |rows|)[c] in Commands(deals, outbox, ids)
    {
      var m := WaitingRowOrigin(outbox, rows, found, |rows|, c);
      WaitsIsNeeds(deals, outbox, ids, rows, found, m);
    }
  }

  predicate AllIn(listed: seq<nat>, commands: set<nat>) { forall c | 0 <= c < |listed| :: listed[c] in commands }

  lemma {:induction false} WaitsIsNeeds(deals: seq<Deal>, outbox: seq<Row>, ids: seq<nat>, rows: seq<nat>,
                                        found: seq<Option<Deal>>, m: nat)
    requires rows == Picked(|outbox|, ids) && m < |rows| == |found| && AreDeals(deals, outbox, ids, rows, found)
    requires Waits(outbox[rows[m]], found[m])
    ensures rows[m] in Commands(deals, outbox, ids)
  {
    assert NeedsCommand(deals, outbox, ids, rows[m]);
  }

  lemma {:induction false} WaitingRowIsListed(outbox: seq<Row>, rows: seq<nat>, found: seq<Option<Deal>>, k: nat,
                                              m: nat)
    requires m < k <= |rows| == |found| && forall m | 0 <= m < |rows| :: rows[m] < |outbox|
    requires Waits(outbox[rows[m]], found[m])
    ensures rows[m] in WaitingRows(outbox, rows, found, k)
  {
    if m < k - 1 {
      WaitingRowIsListed(outbox, rows, found, k - 1, m);
    }
  }

  lemma {:induction false} CommandsAreListed(deals: seq<Deal>, outbox: seq<Row>, ids: seq<nat>, rows: seq<nat>,
                                             found: seq<Option<Deal>>)
    requires rows == Picked(|outbox|, ids) && |found| == |rows| && AreDeals(deals, outbox, ids, rows, found)
    ensures forall i | i in Commands(deals, outbox, ids) :: i in WaitingRows(outbox, rows, found, |rows|)
  {
    forall i | i in Commands(deals, outbox, ids) ensures i in WaitingRows(outbox, rows, found, |rows|) {
      assert NeedsCommand(deals, outbox, ids, i);
      assert i in rows;
      var m :| 0 <= m < |rows| && rows[m] == i;
      WaitingRowIsListed(outbox, rows, found, |rows|, m);
    }
  }

  function Marked(deals: seq<Deal>, outbox: seq<Row>, ids: seq<nat>, i: nat, target: Stage): Row
    requires i < |outbox|
  {
    Mark(outbox[i], DealFor(deals, outbox, ids, i), target)
  }

  function ResultOf(deals: seq<Deal>, outbox: seq<Row>, ids: seq<nat>, i: nat, target: Stage): Result
    requires i < |outbox|
  {
    Result(outbox[i].order, IsConfirmed(deals, outbox, ids, i, target))
  }

  function ResultsOf(deals: seq<Deal>, outbox: seq<Row>, ids: seq<nat>, rows: seq<nat>, target: Stage): seq<Result>
    requires rows == Picked(|outbox|, ids)
  {
    seq(|rows|, m requires 0 <= m < |rows| => ResultOf(deals, outbox, ids, rows[m], target))
  }

  lemma {:induction false} AllMarked(deals: seq<Deal>, before: seq<Row>, after: seq<Row>, ids: seq<nat>,
                                     rows: seq<nat>, target: Stage)
    requires rows == Picked(|before|, ids) && |after| == |before|
    requires forall m | 0 <= m < |rows| :: after[rows[m]] == Marked(deals, before, ids, rows[m], target)
    requires forall i | 0 <= i < |before| && i !in rows :: after[i] == before[i]
    ensures after == MarkAll(deals, before, ids, target)
  {
    forall i | 0 <= i < |before| ensures after[i] == MarkAll(deals, before, ids, target)[i] {
      if i in ids {
        assert i in rows;
        var m :| 0 <= m < |rows| && rows[m] == i;
      } else {
        assert i !in rows;
      }
    }
  }

  function Applieds(results: seq<Result>): set<Order> {
    set m | 0 <= m < |results| && results[m].applied :: results[m].order
  }

  lemma {:induction false} ConfirmedFromResults(deals: seq<Deal>, outbox: seq<Row>, ids: seq<nat>, rows: seq<nat>,
                                                target: Stage)
    requires rows == Picked(|outbox|, ids)
    ensures Applieds(ResultsOf(deals, outbox, ids, rows, target)) == ConfirmedOrders(deals, outbox, ids, target)
  {
    var results := ResultsOf(deals, outbox, ids, rows, target);
    forall o | o in ConfirmedOrders(deals, outbox, ids, target) ensures o in Applieds(results) {
      var i :| i in ids && i < |outbox| && IsConfirmed(deals, outbox, ids, i, target) && outbox[i].order == o;
      assert i in rows;
      var m :| 0 <= m < |rows| && rows[m] == i;
      assert results[m].order == o && results[m].applied;
    }
    forall o | o in Applieds(results) ensures o in ConfirmedOrders(deals, outbox, ids, target) {
      var m :| 0 <= m < |results| && results[m].applied && results[m].order == o;
      assert IsConfirmed(deals, outbox, ids, rows[m], target);
    }
  }

  class Store {
    var cases: map<Order, Case>
    var events: map<nat, Event>
    var nextEvent: nat
    var outbox: seq<Row>
    var reviews: seq<Review>

    function Contents(): Db
      reads this
    {
      Db(cases, events, nextEvent, outbox, reviews)
    }

    constructor (db: Db)
      ensures Contents() == db
    {
      cases, events, nextEvent, outbox, reviews := db.cases, db.events, db.nextEvent, db.outbox, db.reviews;
    }

    /** One turn of the enqueue loops: skip, re-list an open row, or write event, case and row. */
    method EnqueueItem(item: Item) returns (id: Option<nat>)
      requires item.kind.IsScript()
      modifies this
      ensures (Contents(), id) == EnqueueOne(old(Contents()), item)
      ensures old(outbox) <= outbox && |outbox| <= |old(outbox)| + 1
      ensures |outbox| > |old(outbox)| <==>
                item.order in old(cases) && PassesLockedChecks(old(Contents()), item) &&
                !HasEvent(old(events), EventOf(item))
      ensures |outbox| > |old(outbox)| ==> HasEvent(events, EventOf(item)) && id == Some(|old(outbox)|)
      ensures id.Some? ==> id.value < |outbox| && outbox[id.value].Open() && outbox[id.value].key == KeyOf(item)
      ensures forall o | o in cases && o != item.order :: o in old(cases) && cases[o] == old(cases)[o]
    {
      id := None;
      if item.order !in cases || !PassesLockedChecks(Contents(), item) {
        return;
      }
      if HasEvent(events, EventOf(item)) {
        var existing := FindKey(outbox, KeyOf(item));
        if existing.Some? && outbox[existing.value].status in {Pending, Retry} {
          id := existing;
        }
        return;
      }
      var eventId := nextEvent;
      events, nextEvent := events[eventId := EventOf(item)], eventId + 1;
      cases := cases[item.order := CaseAfter(cases[item.order], item, eventId)];
      id := Some(|outbox|);
      outbox := outbox + [Row(KeyOf(item), item.order, item.dealId, item.kind, item.kind.Target(), eventId, Pending, None)];
      assert events[eventId].SameKey(EventOf(item));
    }

    /** `_enqueue*`: all items in one transaction. */
    method EnqueueAll(items: seq<Item>) returns (ids: seq<nat>)
      requires ScriptItems(items)
      modifies this
      ensures (Contents(), ids) == Enqueue(old(Contents()), items)
    {
      ids := [];
      for n := 0 to |items|
        invariant (Contents(), ids) == Enqueue(old(Contents()), items[..n])
      {
        assert items[..n + 1][..n] == items[..n] && items[..n + 1][n] == items[n];
        ghost var ids0 := ids;
        var id := EnqueueItem(items[n]);
        if id.Some? { ids := ids + [id.value]; }
        assert ids == ids0 + Listed(id);
      }
      assert items[..|items|] == items;
    }

    /** One `_live_deals` read for the given rows: the only deal of each row's order, if there is one. */
    method ReadDeals(crm: Crm, ids: seq<nat>, rows: seq<nat>) returns (found: seq<Option<Deal>>)
      requires rows == Picked(|outbox|, ids)
      ensures |found| == |rows| && AreDeals(crm.deals, outbox, ids, rows, found)
    {
      var live := crm.LiveDeals(OrdersOf(outbox, rows));
      found := [];
      for k := 0 to |rows|
        invariant |found| == k && AreDeals(crm.deals, outbox, ids, rows, found)
      {
        var listed := Got(live, outbox[rows[k]].order);
        NextDeal(crm.deals, outbox, ids, rows, found, listed);
        found := found + [OnlyOne(listed)];
      }
    }

    /** The first half of `_apply_outbox`: rows whose deal still waits at EXECUTING get an update. */
    method CollectCommands(crm: Crm, ids: seq<nat>, rows: seq<nat>) returns (commands: seq<nat>)
      requires rows == Picked(|outbox|, ids)
      ensures AllIn(commands, Commands(crm.deals, outbox, ids))
      ensures forall i | i in Commands(crm.deals, outbox, ids) :: i in commands
    {
      var found := ReadDeals(crm, ids, rows);
      commands := WaitingOnly(rows, found);
      WaitingRowIsCommand(crm.deals, outbox, ids, rows, found);
      CommandsAreListed(crm.deals, outbox, ids, rows, found);
    }

    method WaitingOnly(rows: seq<nat>, found: seq<Option<Deal>>) returns (commands: seq<nat>)
      requires |found| == |rows| && forall m | 0 <= m < |rows| :: rows[m] < |outbox|
      ensures commands == WaitingRows(outbox, rows, found, |rows|)
    {
      commands := [];
      for k := 0 to |rows|
        invariant commands == WaitingRows(outbox, rows, found, k)
      {
        var row := outbox[rows[k]];
        if found[k].Some? && found[k].value.id == row.dealId && found[k].value.stage == Executing {
          commands := commands + [rows[k]];
        }
      }
    }

    method MarkRow(i: nat, deal: Option<Deal>, target: Stage) returns (result: Result)
      requires i < |outbox|
      modifies this`outbox
      ensures outbox == old(outbox)[i := Mark(old(outbox)[i], deal, target)]
      ensures result == Result(old(outbox)[i].order, Confirms(old(outbox)[i], deal, target))
    {
      var row := outbox[i];
      var stage := if deal.Some? then Some(deal.value.stage) else None;
      var applied := deal.Some? && deal.value.id == row.dealId && stage == Some(target);
      if applied {
        outbox := outbox[i := row.(status := Applied, liveStage := stage)];
      } else {
        outbox := outbox[i := row.(status := Retry, liveStage := stage)];
      }
      result := Result(row.order, applied);
    }

    method MarkRows(rows: seq<nat>, found: seq<Option<Deal>>, target: Stage) returns (results: seq<Result>)
      requires |found| == |rows| && forall m | 0 <= m < |rows| :: rows[m] < |outbox|
      requires forall l, m | 0 <= l < m < |rows| :: rows[l] < rows[m]
      modifies this`outbox
      ensures |outbox| == |old(outbox)| && |results| == |rows|
      ensures forall m | 0 <= m < |rows| :: outbox[rows[m]] == Mark(old(outbox)[rows[m]], found[m], target)
      ensures forall i | 0 <= i < |outbox| && i !in rows :: outbox[i] == old(outbox)[i]
      ensures forall m | 0 <= m < |rows| ::
                results[m] == Result(old(outbox)[rows[m]].order, Confirms(old(outbox)[rows[m]], found[m], target))
    {
      ghost var before := outbox;
      results := [];
      for k := 0 to |rows|
        invariant |outbox| == |before| && |results| == k
        invariant forall m | 0 <= m < k :: outbox[rows[m]] == Mark(before[rows[m]], found[m], target)
        invariant forall m | k <= m < |rows| :: outbox[rows[m]] == before[rows[m]]
        invariant forall i | 0 <= i < |before| && i !in rows :: outbox[i] == before[i]
        invariant forall m | 0 <= m < k ::
                    results[m] == Result(before[rows[m]].order, Confirms(before[rows[m]], found[m], target))
      {
        var result := MarkRow(rows[k], found[k], target);
        results := results + [result];
      }
    }

    /** The second half of `_apply_outbox`: read back and mark every row. */
    method MarkFromReadback(crm: Crm, ids: seq<nat>, rows: seq<nat>, target: Stage) returns (results: seq<Result>)
      requires rows == Picked(|outbox|, ids)
      modifies this`outbox
      ensures outbox == MarkAll(crm.deals, old(outbox), ids, target)
      ensures results == ResultsOf(crm.deals, old(outbox), ids, rows, target)
    {
      var found := ReadDeals(crm, ids, rows);
      ghost var before := outbox;
      results := MarkRows(rows, found, target);
      AllMarked(crm.deals, before, outbox, ids, rows, target);
    }

    /** `_apply_outbox`: for some part of the commands that needed sending, the CRM carries it out and
        the rows are marked by what the readback shows. */
    method ApplyOutbox(crm: Crm, ids: seq<nat>, target: Stage) returns (confirmed: set<Order>, ghost landed: set<nat>)
      modifies this`outbox, crm
      ensures landed <= Commands(old(crm.deals), old(outbox), ids)
      ensures crm.deals == Land(old(crm.deals), old(outbox), landed, target)
      ensures outbox == MarkAll(crm.deals, old(outbox), ids, target)
      ensures confirmed == ConfirmedOrders(crm.deals, old(outbox), ids, target)
    {
      landed := {};
      if ids == [] {
        assert Land(crm.deals, outbox, {}, target) == crm.deals;
        return {}, {};
      }
      var rows := Picked(|outbox|, ids);
      var commands := CollectCommands(crm, ids, rows);
      ghost var before := crm.deals;
      if commands != [] {
        var dealIds := seq(|commands|, k requires 0 <= k < |commands| && commands[k] < |outbox| reads this =>
          outbox[commands[k]].dealId);
        ghost var hits := crm.Batch(dealIds, target);
        landed := set k | k in hits :: commands[k];
        SameHits(before, crm.deals, commands, dealIds, hits, target);
      } else {
        assert Land(crm.deals, outbox, {}, target) == crm.deals;
      }
      ghost var outbox0 := outbox;
      var results := MarkFromReadback(crm, ids, rows, target);
      confirmed := Applieds(results);
      ConfirmedFromResults(crm.deals, outbox0, ids, rows, target);
    }

    lemma SameHits(before: seq<Deal>, after: seq<Deal>, commands: seq<nat>, dealIds: seq<int>, hits: set<nat>,
                   target: Stage)
      requires |dealIds| == |commands| && |after| == |before|
      requires forall k | 0 <= k < |commands| :: commands[k] < |outbox| && dealIds[k] == outbox[commands[k]].dealId
      requires forall k | k in hits :: k < |commands|
      requires forall j | 0 <= j < |before| ::
                 after[j] == if exists k | k in hits :: k < |dealIds| && dealIds[k] == before[j].id
                             then before[j].(stage := target) else before[j]
      ensures after == Land(before, outbox, set k | k in hits :: commands[k], target)
    {
      var landed := set k | k in hits :: commands[k];
      forall j | 0 <= j < |before|
        ensures Hit(before[j], outbox, landed) <==> exists k | k in hits :: k < |dealIds| && dealIds[k] == before[j].id
      {
        if k :| k in hits && dealIds[k] == before[j].id {
          assert commands[k] in landed;
        }
        if Hit(before[j], outbox, landed) {
          var i :| i in landed && i < |outbox| && outbox[i].dealId == before[j].id;
          var k :| k in hits && commands[k] == i;
        }
      }
    }

    /** `_record_case_stages`: the cases of the confirmed orders, one by one. */
    method RecordCaseStages(orders: set<Order>, target: Stage)
      modifies this`cases
      ensures cases == WithStages(old(cases), orders, target)
    {
      var todo := orders * cases.Keys;
      while todo != {}
        invariant cases.Keys == old(cases).Keys && todo <= orders * cases.Keys
        invariant forall o | o in cases ::
                    cases[o] == if o in orders && o !in todo then old(cases)[o].(crmStage := Some(target)) else old(cases)[o]
      {
        var o :| o in todo;
        cases := cases[o := cases[o].(crmStage := Some(target))];
        todo := todo - {o};
      }
    }

    method ResolveReviews(orders: set<Order>)
      modifies this`reviews
      ensures reviews == WithResolved(old(reviews), orders)
    {
      for k := 0 to |reviews|
        invariant |reviews| == |old(reviews)|
        invariant forall m | 0 <= m < |reviews| ::
                    reviews[m] == if m < k && Resolvable(old(reviews)[m], orders)
                                  then old(reviews)[m].(open := false) else old(reviews)[m]
      {
        if Resolvable(reviews[k], orders) {
          reviews := reviews[k := reviews[k].(open := false)];
        }
      }
    }

    /** `_finalize_applied` when `resolve` is set, `_record_case_stages` otherwise. */
    method FinalizeApplied(orders: set<Order>, target: Stage, resolve: bool)
      modifies this`cases, this`reviews
      ensures Contents() == Finalize(old(Contents()), orders, target, resolve)
    {
      RecordCaseStages(orders, target);
      if resolve {
        ResolveReviews(orders);
      }
    }

    /** `_apply_outbox` and the update that follows it. */
    method RunJob(crm: Crm, job: Job) returns (ghost landed: set<nat>)
      modifies this, crm
      ensures JobDone(old(Contents()), old(crm.deals), Contents(), crm.deals, job, landed)
    {
      var confirmed;
      confirmed, landed := ApplyOutbox(crm, job.ids, job.target);
      FinalizeApplied(confirmed, job.target, job.resolve);
    }

    /** The apply branch of a mode: enqueue the ready batch, then run its job. */
    method ApplyReady(crm: Crm, kind: EventKind, items: seq<Item>) returns (ghost landed: set<nat>)
      requires kind.IsScript() && ScriptItems(items)
      modifies this, crm
      ensures var (db1, ids) := Enqueue(old(Contents()), items);
              JobDone(db1, old(crm.deals), Contents(), crm.deals, Job(ids, kind.Target(), kind.ResolvesReviews()), landed)
    {
      var ids := EnqueueAll(items);
      landed := RunJob(crm, Job(ids, kind.Target(), kind.ResolvesReviews()));
    }

    /** `--recover-pending` of one mode, start to end. */
    method RecoverPending(crm: Crm, kind: EventKind) returns (ghost landed: set<nat>)
      requires kind.IsScript()
      modifies this, crm
      ensures var ids := FirstBatch(OpenIds(old(outbox), kind));
              JobDone(old(Contents()), old(crm.deals), Contents(), crm.deals,
                      Job(ids, kind.Target(), kind.ResolvesReviews()), landed)
    {
      landed := RunJob(crm, Job(FirstBatch(OpenIds(outbox, kind)), kind.Target(), kind.ResolvesReviews()));
    }

    /** `_recover_stale_execution_pending`: the rows are listed once, then WON is applied before LOSE. */
    method RecoverComposites(crm: Crm, orders: seq<Order>)
      returns (ghost db1: Db, ghost deals1: seq<Deal>, ghost won: set<nat>, ghost lost: set<nat>)
      modifies this, crm
      ensures JobDone(old(Contents()), old(crm.deals), db1, deals1,
                      Job(OpenComposites(old(outbox), orders, Won), Won, false), won)
      ensures JobDone(db1, deals1, Contents(), crm.deals,
                      Job(OpenComposites(old(outbox), orders, Lose), Lose, false), lost)
    {
      var toWon, toLose := OpenComposites(outbox, orders, Won), OpenComposites(outbox, orders, Lose);
      won := RunJob(crm, Job(toWon, Won, false));
      db1, deals1 := Contents(), crm.deals;
      lost := RunJob(crm, Job(toLose, Lose, false));
    }
  }
}
