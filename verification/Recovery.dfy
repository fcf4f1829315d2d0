/** `--recover-pending` drains: with a CRM that performs every update, each round closes the oldest
    twenty open rows of its kind. */
module Recovery {
  import opened OrderDomain
  import opened StageOutbox
  import opened OutboxProtocol
  import opened OutboxRuns

  function RoundIds(outbox: seq<Row>, kind: EventKind): seq<nat> {
    FirstBatch(OpenIds(outbox, kind))
  }

  /** The deals after a batch, every command of which landed. */
  function PassDeals(deals: seq<Deal>, outbox: seq<Row>, ids: seq<nat>, target: Stage): seq<Deal> {
    Land(deals, outbox, Commands(deals, outbox, ids), target)
  }

  /** The rows after the readback. */
  function PassRows(deals: seq<Deal>, outbox: seq<Row>, ids: seq<nat>, target: Stage): seq<Row> {
    MarkAll(PassDeals(deals, outbox, ids, target), outbox, ids, target)
  }

  function DealsAfter(deals: seq<Deal>, outbox: seq<Row>, kind: EventKind): seq<Deal>
    requires kind.IsScript()
  {
    PassDeals(deals, outbox, RoundIds(outbox, kind), kind.Target())
  }

  function RowsAfter(deals: seq<Deal>, outbox: seq<Row>, kind: EventKind): seq<Row>
    requires kind.IsScript()
  {
    PassRows(deals, outbox, RoundIds(outbox, kind), kind.Target())
  }

  /** A finished job all of whose commands landed is such a pass. */
  lemma LandedJobIsPass(db0: Db, deals0: seq<Deal>, db1: Db, deals1: seq<Deal>, job: Job)
    requires JobDone(db0, deals0, db1, deals1, job, Commands(deals0, db0.outbox, job.ids))
    ensures deals1 == PassDeals(deals0, db0.outbox, job.ids, job.target)
    ensures db1.outbox == PassRows(deals0, db0.outbox, job.ids, job.target)
  {
  }

  /** The protocol state after a recovery listing and the five steps of its one job. */
  function Recovered(s: State, kind: EventKind): State
    requires Enabled(s, RecoverMode(kind)) && RoundIds(s.db.outbox, kind) != []
  {
    var listed := Next(s, RecoverMode(kind));
    var landed := Commands(s.deals, s.db.outbox, RoundIds(s.db.outbox, kind));
    var sent := Next(Next(listed, ReadDeals), SendBatch(landed));
    Next(Next(Next(sent, ReadDealsBack), CommitMarks), CommitCases)
  }

  /** From the listing to the case update, a recovery without interference whose commands all land is one round. */
  lemma RoundIsProtocolRun(s: State, kind: EventKind)
    requires Enabled(s, RecoverMode(kind)) && RoundIds(s.db.outbox, kind) != []
    ensures Recovered(s, kind).deals == DealsAfter(s.deals, s.db.outbox, kind)
    ensures Recovered(s, kind).db.outbox == RowsAfter(s.deals, s.db.outbox, kind)
    ensures Recovered(s, kind).pc.Idle?
  {
    var listed := Next(s, RecoverMode(kind));
    var landed := Commands(s.deals, s.db.outbox, RoundIds(s.db.outbox, kind));
    ApplyIsAProtocolRun(listed, landed);
    LandedJobIsPass(s.db, s.deals, Recovered(s, kind).db, Recovered(s, kind).deals, listed.pc.jobs[0]);
  }

  predicate Ascending(s: seq<nat>) { forall i, j | 0 <= i < j < |s| :: s[i] < s[j] }

  predicate Within(a: seq<nat>, b: seq<nat>) { forall k | 0 <= k < |a| :: a[k] in b }

  lemma SameHead(a: seq<nat>, b: seq<nat>)
    requires Ascending(a) && Ascending(b) && Within(a, b) && Within(b, a) && (a != [] || b != [])
    ensures a != [] && b != [] && a[0] == b[0]
  {
    if a != [] { assert a[0] in b; }
    if b != [] { assert b[0] in a; }
  }

  lemma TailWithin(a: seq<nat>, b: seq<nat>)
    requires Ascending(a) && Within(a, b) && a != [] && b != [] && a[0] == b[0]
    ensures Within(a[1..], b[1..])
  {
    forall k | 0 <= k < |a[1..]| ensures a[1..][k] in b[1..] {
      assert a[k + 1] in b && a[k + 1] != b[0];
      var x :| 0 <= x < |b| && b[x] == a[k + 1];
      assert b[1..][x - 1] == a[1..][k];
    }
  }

  lemma {:induction false} AscendingUnique(a: seq<nat>, b: seq<nat>)
    requires Ascending(a) && Ascending(b) && Within(a, b) && Within(b, a)
    ensures a == b
  {
    if a != [] || b != [] {
      SameHead(a, b);
      TailWithin(a, b);
      TailWithin(b, a);
      AscendingUnique(a[1..], b[1..]);
    }
  }

  /** The order's one deal, recorded on the row, waits at EXECUTING or has reached the row's target. */
  predicate Settled(deals: seq<Deal>, row: Row) {
    var found := Matching(deals, row.order);
    |found| == 1 && found[0].id == row.dealId && found[0].stage in {Executing, row.target}
  }

  predicate AllSettled(deals: seq<Deal>, outbox: seq<Row>, kind: EventKind) {
    forall i | 0 <= i < |outbox| && outbox[i].kind == kind && outbox[i].Open() :: Settled(deals, outbox[i])
  }

  predicate TargetsOk(outbox: seq<Row>) {
    forall i | 0 <= i < |outbox| :: outbox[i].kind.IsScript() && outbox[i].target == outbox[i].kind.Target()
  }

  /** A read for at most forty orders lists each order's deals once. */
  lemma {:induction false} ShortReadIsExact(deals: seq<Deal>, orders: seq<Order>, order: Order)
    requires |orders| <= LIVE_CHUNK && order in orders
    ensures Live(deals, orders, order) == Matching(deals, order)
  {
    assert orders[..|orders|] == orders;
    assert Live(deals, orders[|orders|..], order) == [];
  }

  lemma {:induction false} RoundReads(deals: seq<Deal>, outbox: seq<Row>, kind: EventKind, i: nat)
    requires i in RoundIds(outbox, kind) && i < |outbox|
    ensures DealFor(deals, outbox, RoundIds(outbox, kind), i) ==
            (var m := Matching(deals, outbox[i].order); if |m| == 1 then Some(m[0]) else None)
  {
    var ids := RoundIds(outbox, kind);
    AscendingUnique(Picked(|outbox|, ids), ids);
    var k :| 0 <= k < |ids| && ids[k] == i;
    var orders := OrdersOf(outbox, ids);
    assert orders[k] == outbox[i].order;
    ShortReadIsExact(deals, orders, outbox[i].order);
  }

  lemma {:induction false} LandKeepsMatching(deals: seq<Deal>, after: seq<Deal>, target: Stage, order: Order)
    requires |after| == |deals|
    requires forall k | 0 <= k < |deals| :: after[k] in {deals[k], deals[k].(stage := target)}
    ensures |Matching(after, order)| == |Matching(deals, order)|
    ensures forall k | 0 <= k < |Matching(deals, order)| ::
              Matching(after, order)[k] in {Matching(deals, order)[k], Matching(deals, order)[k].(stage := target)}
  {
    if deals == [] {
    } else {
      var n := |deals| - 1;
      forall k | 0 <= k < n ensures after[..n][k] in {deals[..n][k], deals[..n][k].(stage := target)} {
        assert after[k] in {deals[k], deals[k].(stage := target)};
      }
      LandKeepsMatching(deals[..n], after[..n], target, order);
      assert after[n] in {deals[n], deals[n].(stage := target)};
    }
  }

  lemma {:induction false} PassStaysSettled(deals: seq<Deal>, outbox: seq<Row>, ids: seq<nat>, target: Stage, i: nat)
    requires i < |outbox| && Settled(deals, outbox[i]) && outbox[i].target == target
    ensures Settled(PassDeals(deals, outbox, ids, target), outbox[i])
    ensures Matching(PassDeals(deals, outbox, ids, target), outbox[i].order)[0] in
              {Matching(deals, outbox[i].order)[0], Matching(deals, outbox[i].order)[0].(stage := target)}
  {
    var after := PassDeals(deals, outbox, ids, target);
    LandKeepsMatching(deals, after, target, outbox[i].order);
    var d0, d1 := Matching(deals, outbox[i].order)[0], Matching(after, outbox[i].order)[0];
    assert d1 in {d0, d0.(stage := target)};
  }

  /** Every row of the batch ends APPLIED; one whose deal already stands in the target (its update landed
      before a crash) gets there without a second command. */
  lemma {:induction false} RoundClosesRow(deals: seq<Deal>, outbox: seq<Row>, kind: EventKind, i: nat)
    requires kind.IsScript() && TargetsOk(outbox) && AllSettled(deals, outbox, kind)
    requires i in RoundIds(outbox, kind)
    ensures i < |outbox| && RowsAfter(deals, outbox, kind)[i].status == Applied
    ensures Matching(deals, outbox[i].order)[0].stage == kind.Target() ==>
              i !in Commands(deals, outbox, RoundIds(outbox, kind))
  {
    var ids, after := RoundIds(outbox, kind), DealsAfter(deals, outbox, kind);
    assert outbox[i].kind == kind && outbox[i].Open();
    RoundReads(deals, outbox, kind, i);
    RoundReads(after, outbox, kind, i);
    PassStaysSettled(deals, outbox, RoundIds(outbox, kind), kind.Target(), i);
    var d := Matching(deals, outbox[i].order)[0];
    if d.stage == Executing {
      assert i in Commands(deals, outbox, ids);
      CommandedDealMoves(deals, outbox, ids, kind.Target(), i);
    }
  }

  /** The deal of a commanded row shows the target afterwards. */
  lemma {:induction false} CommandedDealMoves(deals: seq<Deal>, outbox: seq<Row>, ids: seq<nat>, target: Stage, i: nat)
    requires i < |outbox| && i in Commands(deals, outbox, ids)
    requires var found := Matching(PassDeals(deals, outbox, ids, target), outbox[i].order);
             |found| == 1 && found[0].id == outbox[i].dealId
    ensures Matching(PassDeals(deals, outbox, ids, target), outbox[i].order)[0].stage == target
  {
    var after := PassDeals(deals, outbox, ids, target);
    var d1 := Matching(after, outbox[i].order)[0];
    MatchingMembers(after, outbox[i].order);
    assert d1 in Matching(after, outbox[i].order) && d1 in after;
    var k :| 0 <= k < |after| && after[k] == d1;
    assert Hit(deals[k], outbox, Commands(deals, outbox, ids));
  }

  function Rest(ids: seq<nat>, n: nat): seq<nat> { if |ids| <= n then [] else ids[n..] }

  lemma {:induction false} RoundLeavesRest(deals: seq<Deal>, outbox: seq<Row>, kind: EventKind)
    requires kind.IsScript()
    requires AllClosed(RowsAfter(deals, outbox, kind), RoundIds(outbox, kind))
    ensures OpenIds(RowsAfter(deals, outbox, kind), kind) == Rest(OpenIds(outbox, kind), BATCH_SIZE)
  {
    ClosedLeaveRest(outbox, RowsAfter(deals, outbox, kind), kind);
  }

  /** Closing the first batch of the open rows and nothing else leaves the rest open. */
  lemma {:induction false} ClosedLeaveRest(outbox: seq<Row>, outbox1: seq<Row>, kind: EventKind)
    requires |outbox1| == |outbox| && AllClosed(outbox1, RoundIds(outbox, kind))
    requires forall i | 0 <= i < |outbox| && i !in RoundIds(outbox, kind) :: outbox1[i] == outbox[i]
    ensures OpenIds(outbox1, kind) == Rest(OpenIds(outbox, kind), BATCH_SIZE)
  {
    var open, ids := OpenIds(outbox, kind), RoundIds(outbox, kind);
    var left, open1 := Rest(open, BATCH_SIZE), OpenIds(outbox1, kind);
    assert open == ids + left;
    forall k | 0 <= k < |open1| ensures open1[k] in left {
      assert open1[k] !in ids;
      assert open1[k] in open;
    }
    forall k | 0 <= k < |left| ensures left[k] in open1 {
      assert left[k] == open[|ids| + k] && outbox[left[k]].Open();
      assert left[k] !in ids;
    }
    AscendingUnique(open1, left);
  }

  lemma RoundStaysSettled(deals: seq<Deal>, outbox: seq<Row>, kind: EventKind)
    requires kind.IsScript() && TargetsOk(outbox) && AllSettled(deals, outbox, kind)
    requires AllClosed(RowsAfter(deals, outbox, kind), RoundIds(outbox, kind))
    ensures AllSettled(DealsAfter(deals, outbox, kind), RowsAfter(deals, outbox, kind), kind)
  {
    var outbox1 := RowsAfter(deals, outbox, kind);
    forall i | 0 <= i < |outbox1| && outbox1[i].kind == kind && outbox1[i].Open()
      ensures Settled(DealsAfter(deals, outbox, kind), outbox1[i])
    {
      assert outbox1[i] == outbox[i];
      PassStaysSettled(deals, outbox, RoundIds(outbox, kind), kind.Target(), i);
    }
  }

  /** What a round needs and leaves: rows with their kinds' targets, deals at EXECUTING or there already. */
  predicate Ready(deals: seq<Deal>, outbox: seq<Row>, kind: EventKind) {
    TargetsOk(outbox) && AllSettled(deals, outbox, kind)
  }

  lemma {:induction false} RoundAdvances(deals: seq<Deal>, outbox: seq<Row>, kind: EventKind)
    requires kind.IsScript() && Ready(deals, outbox, kind)
    ensures OpenIds(RowsAfter(deals, outbox, kind), kind) == Rest(OpenIds(outbox, kind), BATCH_SIZE)
    ensures Ready(DealsAfter(deals, outbox, kind), RowsAfter(deals, outbox, kind), kind)
  {
    RoundClosesAll(deals, outbox, kind);
    RoundLeavesRest(deals, outbox, kind);
    RoundStaysSettled(deals, outbox, kind);
    RoundKeepsTargets(deals, outbox, kind);
  }

  /** One recovery round closes exactly the oldest min(20, open) rows of its kind, leaves the others as
      they were and keeps the conditions for the next round. */
  lemma {:induction false} RoundCloses(deals: seq<Deal>, outbox: seq<Row>, kind: EventKind)
    requires kind.IsScript() && Ready(deals, outbox, kind)
    ensures OpenIds(RowsAfter(deals, outbox, kind), kind) == Rest(OpenIds(outbox, kind), BATCH_SIZE)
    ensures Ready(DealsAfter(deals, outbox, kind), RowsAfter(deals, outbox, kind), kind)
    ensures forall i | 0 <= i < |outbox| && i !in RoundIds(outbox, kind) ::
              RowsAfter(deals, outbox, kind)[i] == outbox[i]
  {
    RoundAdvances(deals, outbox, kind);
    RoundKeepsTargets(deals, outbox, kind);
  }

  predicate AllClosed(outbox: seq<Row>, ids: seq<nat>) {
    forall i | i in ids :: i < |outbox| && !outbox[i].Open()
  }

  lemma {:induction false} RoundClosesAll(deals: seq<Deal>, outbox: seq<Row>, kind: EventKind)
    requires kind.IsScript() && Ready(deals, outbox, kind)
    ensures AllClosed(RowsAfter(deals, outbox, kind), RoundIds(outbox, kind))
  {
    forall i | i in RoundIds(outbox, kind) ensures i < |outbox| && !RowsAfter(deals, outbox, kind)[i].Open() {
      RoundClosesRow(deals, outbox, kind, i);
    }
  }

  lemma {:induction false} RoundKeepsTargets(deals: seq<Deal>, outbox: seq<Row>, kind: EventKind)
    requires kind.IsScript() && TargetsOk(outbox)
    ensures TargetsOk(RowsAfter(deals, outbox, kind))
    ensures forall i | 0 <= i < |outbox| && i !in RoundIds(outbox, kind) :: RowsAfter(deals, outbox, kind)[i] == outbox[i]
  {
    forall i | 0 <= i < |outbox| ensures RowsAfter(deals, outbox, kind)[i].SameIdentity(outbox[i]) {
    }
  }

  lemma RestOfRest(ids: seq<nat>, m: nat, n: nat)
    ensures Rest(Rest(ids, m), n) == Rest(ids, m + n)
  {
  }

  lemma RestStep(open: seq<nat>, open1: seq<nat>, left: seq<nat>, n: nat)
    requires n > 0 && open1 == Rest(open, BATCH_SIZE) && left == Rest(open1, (n - 1) * BATCH_SIZE)
    ensures left == Rest(open, n * BATCH_SIZE)
  {
    RestOfRest(open, BATCH_SIZE, (n - 1) * BATCH_SIZE);
  }

  function AfterRounds(n: nat, deals: seq<Deal>, outbox: seq<Row>, kind: EventKind): (seq<Deal>, seq<Row>)
    requires kind.IsScript()
  {
    if n == 0 then (deals, outbox)
    else AfterRounds(n - 1, DealsAfter(deals, outbox, kind), RowsAfter(deals, outbox, kind), kind)
  }

  predicate Drained(n: nat, deals: seq<Deal>, outbox: seq<Row>, kind: EventKind)
    requires kind.IsScript()
  {
    OpenIds(AfterRounds(n, deals, outbox, kind).1, kind) == Rest(OpenIds(outbox, kind), n * BATCH_SIZE)
  }

  ghost predicate IsRound(deals: seq<Deal>, outbox: seq<Row>, deals1: seq<Deal>, outbox1: seq<Row>, kind: EventKind)
    requires kind.IsScript()
  {
    deals1 == DealsAfter(deals, outbox, kind) && outbox1 == RowsAfter(deals, outbox, kind)
  }

  lemma {:induction false} OneRound(deals: seq<Deal>, outbox: seq<Row>, kind: EventKind)
    returns (deals1: seq<Deal>, outbox1: seq<Row>)
    requires kind.IsScript() && Ready(deals, outbox, kind)
    ensures IsRound(deals, outbox, deals1, outbox1, kind) && Ready(deals1, outbox1, kind)
    ensures OpenIds(outbox1, kind) == Rest(OpenIds(outbox, kind), BATCH_SIZE)
  {
    RoundAdvances(deals, outbox, kind);
    deals1, outbox1 := DealsAfter(deals, outbox, kind), RowsAfter(deals, outbox, kind);
  }

  lemma {:induction false} OneRoundMore(n: nat, deals: seq<Deal>, outbox: seq<Row>, deals1: seq<Deal>,
                                        outbox1: seq<Row>, kind: EventKind)
    requires kind.IsScript() && n > 0 && IsRound(deals, outbox, deals1, outbox1, kind)
    requires OpenIds(outbox1, kind) == Rest(OpenIds(outbox, kind), BATCH_SIZE) && Drained(n - 1, deals1, outbox1, kind)
    ensures Drained(n, deals, outbox, kind)
  {
    RestStep(OpenIds(outbox, kind), OpenIds(outbox1, kind), OpenIds(AfterRounds(n, deals, outbox, kind).1, kind), n);
  }

  /** After n rounds exactly the first 20 * n open rows are closed, so ceil(open / 20) rounds leave none. */
  lemma {:induction false} RecoveryDrains(n: nat, deals: seq<Deal>, outbox: seq<Row>, kind: EventKind)
    requires kind.IsScript() && !kind.IsComposite() && Ready(deals, outbox, kind)
    ensures Drained(n, deals, outbox, kind)
  {
    if n == 0 {
      assert AfterRounds(0, deals, outbox, kind) == (deals, outbox);
    } else {
      var deals1, outbox1 := OneRound(deals, outbox, kind);
      RecoveryDrains(n - 1, deals1, outbox1, kind);
      OneRoundMore(n, deals, outbox, deals1, outbox1, kind);
    }
  }
}
