/** The recovery of stale composites over any number of rounds.  A round takes every open row of the selected
    orders, WON rows first, then LOSE rows.  Which rows it closes depends only on where their orders stand in the two
    lists and on where the deals stand, so the rounds are those of `RecoveryScenes`. */
module CompositeRecovery {
  import opened OrderDomain
  import opened StageOutbox
  import opened OutboxInvariant
  import opened OutboxProtocol
  import opened OutboxRuns
  import opened LiveReads
  import opened Recovery
  import opened RecoveryScenes

  /** The open composite rows with this target, oldest first. */
  function WaitingRows(outbox: seq<Row>, orders: seq<Order>, target: Stage): seq<Waiting> {
    if outbox == [] then []
    else
      var front, last := WaitingRows(outbox[..|outbox| - 1], orders, target), outbox[|outbox| - 1];
      if IsOpenComposite(last, orders, target) then front + [Waiting(last.order, last.dealId)] else front
  }

  function WaitingAt(row: Row): Waiting { Waiting(row.order, row.dealId) }

  lemma {:induction false} OrdersOfFront(outbox: seq<Row>, ids: seq<nat>)
    requires outbox != [] && forall k | 0 <= k < |ids| :: ids[k] < |outbox| - 1
    ensures OrdersOf(outbox, ids) == OrdersOf(outbox[..|outbox| - 1], ids)
    ensures OrdersOf(outbox, ids + [|outbox| - 1]) == OrdersOf(outbox, ids) + [outbox[|outbox| - 1].order]
  {
  }

  lemma {:induction false} NamesAreOrders(outbox: seq<Row>, orders: seq<Order>, target: Stage)
    ensures Names(WaitingRows(outbox, orders, target)) == OrdersOf(outbox, OpenComposites(outbox, orders, target))
  {
    if outbox == [] {
    } else {
      var n := |outbox| - 1;
      var ids := OpenComposites(outbox[..n], orders, target);
      NamesAreOrders(outbox[..n], orders, target);
      OrdersOfFront(outbox, ids);
      assert OpenComposites(outbox, orders, target) ==
             if IsOpenComposite(outbox[n], orders, target) then ids + [n] else ids by {
        assert ids + [] == ids;
      }
    }
  }

  lemma {:induction false} WaitingMembers(outbox: seq<Row>, orders: seq<Order>, target: Stage)
    ensures |WaitingRows(outbox, orders, target)| == |OpenComposites(outbox, orders, target)|
    ensures forall w :: w in WaitingRows(outbox, orders, target) <==>
              exists i | 0 <= i < |outbox| :: IsOpenComposite(outbox[i], orders, target) && WaitingAt(outbox[i]) == w
  {
    if outbox == [] {
    } else {
      var front, last := outbox[..|outbox| - 1], outbox[|outbox| - 1];
      WaitingMembers(front, orders, target);
      assert forall i | 0 <= i < |front| :: outbox[i] == front[i];
    }
  }

  // ---------- one pass ----------

  /** A read for the listed rows. */
  lemma {:induction false} PassReads(deals: seq<Deal>, outbox: seq<Row>, orders: seq<Order>, target: Stage, i: nat)
    requires i < |outbox|
    ensures var ids, found := OpenComposites(outbox, orders, target), Matching(deals, outbox[i].order);
            DealFor(deals, outbox, ids, i) ==
            if ChunksNaming(Names(WaitingRows(outbox, orders, target)), outbox[i].order) == 1 && |found| == 1
            then Some(found[0]) else None
  {
    var ids := OpenComposites(outbox, orders, target);
    AscendingUnique(Picked(|outbox|, ids), ids);
    NamesAreOrders(outbox, orders, target);
    ReadableIff(deals, OrdersOf(outbox, ids), outbox[i].order);
  }

  /** The rows that get a command are those the pass can close and whose deal still waits. */
  lemma {:induction false} PassCommands(deals: seq<Deal>, outbox: seq<Row>, orders: seq<Order>, target: Stage, i: nat)
    requires i < |outbox| && i in OpenComposites(outbox, orders, target)
    ensures i in Commands(deals, outbox, OpenComposites(outbox, orders, target)) <==>
            Closes(deals, WaitingRows(outbox, orders, target), WaitingAt(outbox[i]), target) &&
            Matching(deals, outbox[i].order)[0].stage == Executing
  {
    PassReads(deals, outbox, orders, target, i);
  }

  lemma {:induction false} PassMovesDeal(deals: seq<Deal>, outbox: seq<Row>, orders: seq<Order>, target: Stage, k: nat)
    requires UniqueIds(deals) && k < |deals|
    ensures Hit(deals[k], outbox, Commands(deals, outbox, OpenComposites(outbox, orders, target))) <==>
            Commanded(deals, WaitingRows(outbox, orders, target), deals[k], target)
  {
    var ids, q, d := OpenComposites(outbox, orders, target), WaitingRows(outbox, orders, target), deals[k];
    WaitingMembers(outbox, orders, target);
    if Hit(d, outbox, Commands(deals, outbox, ids)) {
      var i :| i in Commands(deals, outbox, ids) && i < |outbox| && outbox[i].dealId == d.id;
      PassCommands(deals, outbox, orders, target, i);
      OnlyDeal(deals, outbox[i].order, k);
      assert IsOpenComposite(outbox[i], orders, target);
      assert WaitingAt(outbox[i]) in q;
    }
    if Commanded(deals, q, d, target) {
      var w :| w in q && w.dealId == d.id && Closes(deals, q, w, target);
      var i :| 0 <= i < |outbox| && IsOpenComposite(outbox[i], orders, target) && WaitingAt(outbox[i]) == w;
      OnlyDeal(deals, w.order, k);
      PassCommands(deals, outbox, orders, target, i);
    }
  }

  function PassedDeals(deals: seq<Deal>, outbox: seq<Row>, orders: seq<Order>, target: Stage): seq<Deal> {
    PassDeals(deals, outbox, OpenComposites(outbox, orders, target), target)
  }

  function PassedRows(deals: seq<Deal>, outbox: seq<Row>, orders: seq<Order>, target: Stage): seq<Row> {
    PassRows(deals, outbox, OpenComposites(outbox, orders, target), target)
  }

  /** The deals move as the list says. */
  lemma {:induction false} PassMoves(deals: seq<Deal>, outbox: seq<Row>, orders: seq<Order>, target: Stage)
    requires UniqueIds(deals)
    ensures PassedDeals(deals, outbox, orders, target) == MovedBy(deals, WaitingRows(outbox, orders, target), target)
    ensures UniqueIds(PassedDeals(deals, outbox, orders, target))
  {
    forall k | 0 <= k < |deals|
      ensures PassedDeals(deals, outbox, orders, target)[k] ==
              MovedBy(deals, WaitingRows(outbox, orders, target), target)[k]
    {
      PassMovesDeal(deals, outbox, orders, target, k);
    }
  }

  /** A row of a pass is applied if and only if one chunk of the pass names its order and the order's one deal is the
      row's and waits at EXECUTING or stands in the target. */
  lemma {:induction false} PassRow(deals: seq<Deal>, outbox: seq<Row>, orders: seq<Order>, target: Stage, i: nat)
    requires UniqueIds(deals) && target != Executing && i in OpenComposites(outbox, orders, target) && i < |outbox|
    ensures PassedRows(deals, outbox, orders, target)[i].status ==
            if Closes(deals, WaitingRows(outbox, orders, target), WaitingAt(outbox[i]), target) then Applied else Retry
  {
    var q, after, w := WaitingRows(outbox, orders, target), PassedDeals(deals, outbox, orders, target), WaitingAt(outbox[i]);
    PassMoves(deals, outbox, orders, target);
    PassReads(after, outbox, orders, target, i);
    MovedProgress(deals, q, target);
    RipeAfter(deals, after, w, target, target);
    if Closes(deals, q, w, target) {
      WaitingMembers(outbox, orders, target);
      ListedIsOpen(outbox, orders, target, i);
      ClosedStands(deals, q, w, target);
    }
  }

  lemma ListedIsOpen(outbox: seq<Row>, orders: seq<Order>, target: Stage, i: nat)
    requires i in OpenComposites(outbox, orders, target) && i < |outbox|
    ensures IsOpenComposite(outbox[i], orders, target)
  {
    var ids := OpenComposites(outbox, orders, target);
    var k :| 0 <= k < |ids| && ids[k] == i;
  }

  /** What a pass does to the rows. */
  predicate PassSplits(deals: seq<Deal>, outbox: seq<Row>, outbox1: seq<Row>, orders: seq<Order>, target: Stage,
                       all: seq<Waiting>)
  {
    |outbox1| == |outbox| &&
    forall i | 0 <= i < |outbox| ::
      outbox1[i].SameIdentity(outbox[i]) &&
      if IsOpenComposite(outbox[i], orders, target)
      then outbox1[i].status == if Closes(deals, all, WaitingAt(outbox[i]), target) then Applied else Retry
      else outbox1[i] == outbox[i]
  }

  lemma {:induction false} PassSplitsRows(deals: seq<Deal>, outbox: seq<Row>, orders: seq<Order>, target: Stage)
    requires UniqueIds(deals) && target != Executing
    ensures PassSplits(deals, outbox, PassedRows(deals, outbox, orders, target), orders, target,
                       WaitingRows(outbox, orders, target))
  {
    var ids, all := OpenComposites(outbox, orders, target), WaitingRows(outbox, orders, target);
    forall i | 0 <= i < |outbox| && IsOpenComposite(outbox[i], orders, target)
      ensures PassedRows(deals, outbox, orders, target)[i].status ==
              if Closes(deals, all, WaitingAt(outbox[i]), target) then Applied else Retry
    {
      PassRow(deals, outbox, orders, target, i);
    }
    forall i | 0 <= i < |outbox| && !IsOpenComposite(outbox[i], orders, target) ensures i !in ids {
    }
  }

  /** A pass leaves its own list thinned out ... */
  lemma {:induction false} PassThins(deals: seq<Deal>, outbox: seq<Row>, outbox1: seq<Row>, orders: seq<Order>,
                                     target: Stage, all: seq<Waiting>)
    requires PassSplits(deals, outbox, outbox1, orders, target, all)
    ensures WaitingRows(outbox1, orders, target) == StayOpen(deals, all, WaitingRows(outbox, orders, target), target)
  {
    if outbox == [] {
      assert WaitingRows(outbox, orders, target) == [];
    } else {
      var n := |outbox| - 1;
      PassThins(deals, outbox[..n], outbox1[..n], orders, target, all);
      assert outbox1[n].SameIdentity(outbox[n]);
      var front := WaitingRows(outbox[..n], orders, target);
      if IsOpenComposite(outbox[n], orders, target) {
        assert (front + [WaitingAt(outbox[n])])[..|front|] == front;
      }
    }
  }

  /** ... and the other target's list as it is. */
  lemma {:induction false} PassKeepsOther(deals: seq<Deal>, outbox: seq<Row>, outbox1: seq<Row>, orders: seq<Order>,
                                          target: Stage, all: seq<Waiting>, other: Stage)
    requires PassSplits(deals, outbox, outbox1, orders, target, all) && other != target
    ensures WaitingRows(outbox1, orders, other) == WaitingRows(outbox, orders, other)
    ensures OpenComposites(outbox1, orders, other) == OpenComposites(outbox, orders, other)
  {
    if outbox == [] {
    } else {
      var n := |outbox| - 1;
      PassKeepsOther(deals, outbox[..n], outbox1[..n], orders, target, all, other);
      assert outbox1[n].SameIdentity(outbox[n]);
    }
  }

  // ---------- rounds ----------

  function CompositeRound(deals: seq<Deal>, outbox: seq<Row>, orders: seq<Order>): (seq<Deal>, seq<Row>) {
    var lose := OpenComposites(outbox, orders, Lose);
    var deals1, outbox1 := PassedDeals(deals, outbox, orders, Won), PassedRows(deals, outbox, orders, Won);
    (PassDeals(deals1, outbox1, lose, Lose), PassRows(deals1, outbox1, lose, Lose))
  }

  function SceneOf(deals: seq<Deal>, outbox: seq<Row>, orders: seq<Order>): Scene {
    Scene(deals, WaitingRows(outbox, orders, Won), WaitingRows(outbox, orders, Lose))
  }

  /** One round is a step of the scene. */
  lemma {:induction false} RoundFollows(deals: seq<Deal>, outbox: seq<Row>, orders: seq<Order>)
    requires UniqueIds(deals)
    ensures var (deals2, outbox2) := CompositeRound(deals, outbox, orders);
            UniqueIds(deals2) && SceneOf(deals2, outbox2, orders) == NextScene(SceneOf(deals, outbox, orders))
  {
    var deals1, outbox1 := PassedDeals(deals, outbox, orders, Won), PassedRows(deals, outbox, orders, Won);
    PassMoves(deals, outbox, orders, Won);
    PassSplitsRows(deals, outbox, orders, Won);
    PassThins(deals, outbox, outbox1, orders, Won, WaitingRows(outbox, orders, Won));
    PassKeepsOther(deals, outbox, outbox1, orders, Won, WaitingRows(outbox, orders, Won), Lose);
    PassMoves(deals1, outbox1, orders, Lose);
    PassSplitsRows(deals1, outbox1, orders, Lose);
    var outbox2, lose := PassedRows(deals1, outbox1, orders, Lose), WaitingRows(outbox1, orders, Lose);
    PassThins(deals1, outbox1, outbox2, orders, Lose, lose);
    PassKeepsOther(deals1, outbox1, outbox2, orders, Lose, lose, Won);
  }

  function AfterCompositeRounds(n: nat, deals: seq<Deal>, outbox: seq<Row>, orders: seq<Order>): (seq<Deal>, seq<Row>)
    decreases n
  {
    if n == 0 then (deals, outbox)
    else
      var (deals1, outbox1) := CompositeRound(deals, outbox, orders);
      AfterCompositeRounds(n - 1, deals1, outbox1, orders)
  }

  lemma RoundsStep(n: nat, deals: seq<Deal>, outbox: seq<Row>, orders: seq<Order>)
    requires n > 0
    ensures var (deals1, outbox1) := CompositeRound(deals, outbox, orders);
            AfterCompositeRounds(n, deals, outbox, orders) == AfterCompositeRounds(n - 1, deals1, outbox1, orders)
  {
  }

  lemma SceneStep(s: Scene, n: nat)
    requires n > 0
    ensures SceneAfter(s, n) == SceneAfter(NextScene(s), n - 1)
  {
  }

  /** After any number of rounds, whatever the rows and the deals, open rows and deals are those of the scene. */
  lemma {:induction false} RoundsFollow(n: nat, deals: seq<Deal>, outbox: seq<Row>, orders: seq<Order>)
    requires UniqueIds(deals)
    ensures var (deals1, left) := AfterCompositeRounds(n, deals, outbox, orders);
            SceneOf(deals1, left, orders) == SceneAfter(SceneOf(deals, outbox, orders), n)
    decreases n
  {
    if n == 0 {
      assert AfterCompositeRounds(0, deals, outbox, orders) == (deals, outbox);
    } else {
      var (deals1, outbox1) := CompositeRound(deals, outbox, orders);
      RoundFollows(deals, outbox, orders);
      RoundsStep(n, deals, outbox, orders);
      SceneStep(SceneOf(deals, outbox, orders), n);
      RoundsFollow(n - 1, deals1, outbox1, orders);
    }
  }

  // ---------- what the rounds come to ----------

  /** The rows that wait for WON are the same after any number of rounds if and only if the first pass can close none
      of them, those for LOSE if and only if none can be closed after that pass; at most forty ripe rows are done in one
      round; and as many rounds as there are open rows reach a state in which both lists stay. */
  lemma {:induction false} QueueStaysIff(n: nat, deals: seq<Deal>, outbox: seq<Row>, orders: seq<Order>)
    requires UniqueIds(deals) && n > 0
    ensures var (won, lose) := (WaitingRows(outbox, orders, Won), WaitingRows(outbox, orders, Lose));
            var (deals1, left) := AfterCompositeRounds(n, deals, outbox, orders);
            (WaitingRows(left, orders, Won) == won <==> Stalled(deals, won, Won)) &&
            (WaitingRows(left, orders, Lose) == lose <==> Stalled(PassedDeals(deals, outbox, orders, Won), lose, Lose)) &&
            (Closable(deals, won, Won) ==> WaitingRows(left, orders, Won) == []) &&
            (Closable(PassedDeals(deals, outbox, orders, Won), lose, Lose) ==> WaitingRows(left, orders, Lose) == []) &&
            (n >= |won| + |lose| ==>
               Stalled(deals1, WaitingRows(left, orders, Won), Won) &&
               Stalled(PassedDeals(deals1, left, orders, Won), WaitingRows(left, orders, Lose), Lose))
  {
    var s := SceneOf(deals, outbox, orders);
    RoundsFollow(n, deals, outbox, orders);
    ListsStayIff(s, n);
    ShortListsDrain(s, n);
    PassMoves(deals, outbox, orders, Won);
    if n >= |s.won| + |s.lose| {
      var (deals1, left) := AfterCompositeRounds(n, deals, outbox, orders);
      RoundsEnd(s, n);
      RoundsKeepIds(n, deals, outbox, orders);
      PassMoves(deals1, left, orders, Won);
    }
  }

  lemma {:induction false} RoundsKeepIds(n: nat, deals: seq<Deal>, outbox: seq<Row>, orders: seq<Order>)
    requires UniqueIds(deals)
    ensures UniqueIds(AfterCompositeRounds(n, deals, outbox, orders).0)
    decreases n
  {
    if n == 0 {
      assert AfterCompositeRounds(0, deals, outbox, orders) == (deals, outbox);
    } else {
      var (deals1, outbox1) := CompositeRound(deals, outbox, orders);
      RoundFollows(deals, outbox, orders);
      RoundsStep(n, deals, outbox, orders);
      RoundsKeepIds(n - 1, deals1, outbox1, orders);
    }
  }

  /** Of an order with open rows for both targets, the rows of one target stay open through all rounds. */
  lemma {:induction false} OneTargetIsLeft(n: nat, deals: seq<Deal>, outbox: seq<Row>, orders: seq<Order>, order: Order)
    requires UniqueIds(deals)
    ensures var left := AfterCompositeRounds(n, deals, outbox, orders).1;
            Of(WaitingRows(left, orders, Won), order) == Of(WaitingRows(outbox, orders, Won), order) ||
            Of(WaitingRows(left, orders, Lose), order) == Of(WaitingRows(outbox, orders, Lose), order)
  {
    RoundsFollow(n, deals, outbox, orders);
    OneTargetWins(SceneOf(deals, outbox, orders), n, order);
  }

  predicate Settles(n: nat, deals: seq<Deal>, outbox: seq<Row>, orders: seq<Order>) {
    var left := AfterCompositeRounds(n, deals, outbox, orders).1;
    OpenComposites(left, orders, Won) == [] && OpenComposites(left, orders, Lose) == []
  }

  /** Rounds over one order close all its rows if and only if they aim at one target, are at most forty, and were
      written for the order's one deal, which waits at EXECUTING or stands in that target. */
  lemma {:induction false} OrderSettlesIff(n: nat, deals: seq<Deal>, outbox: seq<Row>, order: Order)
    requires UniqueIds(deals) && n > 0
    ensures Settles(n, deals, outbox, [order]) <==> OneTargetCloses(SceneOf(deals, outbox, [order]))
  {
    var s, left := SceneOf(deals, outbox, [order]), AfterCompositeRounds(n, deals, outbox, [order]).1;
    RoundsFollow(n, deals, outbox, [order]);
    WaitingMembers(left, [order], Won);
    WaitingMembers(left, [order], Lose);
    WaitingMembers(outbox, [order], Won);
    WaitingMembers(outbox, [order], Lose);
    OneOrderSettlesIff(s, n, order);
  }

  // ---------- queues of one target each ----------

  /** On ripe rows of one target for each order the lists of orders alone predict what stays open: a round leaves an order behind if and only if two chunks
      of its list name it. */
  lemma {:induction false} RoundsThin(n: nat, deals: seq<Deal>, outbox: seq<Row>, orders: seq<Order>)
    requires UniqueIds(deals) && Recoverable(SceneOf(deals, outbox, orders))
    ensures var s, left := SceneOf(deals, outbox, orders), AfterCompositeRounds(n, deals, outbox, orders).1;
            Names(WaitingRows(left, orders, Won)) == RemainingAfter(Names(s.won), n) &&
            Names(WaitingRows(left, orders, Lose)) == RemainingAfter(Names(s.lose), n)
  {
    RoundsFollow(n, deals, outbox, orders);
    ScenesThin(SceneOf(deals, outbox, orders), n, SceneAfter(SceneOf(deals, outbox, orders), n));
  }

  // ---------- the rounds are runs of the protocol ----------

  /** One job of a recovery: skipped when empty, otherwise its five steps with every command landing. */
  function JobRun(s: State): State
    requires s.pc.Todo? && s.pc.jobs != []
  {
    var job := s.pc.jobs[0];
    if job.ids == [] then Next(s, SkipEmptyJob)
    else
      var sent := Next(Next(s, ReadDeals), SendBatch(Commands(s.deals, s.db.outbox, job.ids)));
      Next(Next(Next(sent, ReadDealsBack), CommitMarks), CommitCases)
  }

  lemma {:induction false} JobRunIsPass(s: State)
    requires s.pc.Todo? && s.pc.jobs != []
    ensures var job := s.pc.jobs[0];
            JobRun(s).deals == PassDeals(s.deals, s.db.outbox, job.ids, job.target) &&
            JobRun(s).db.outbox == PassRows(s.deals, s.db.outbox, job.ids, job.target) &&
            JobRun(s).pc == After(s.pc.jobs[1..])
  {
    var job := s.pc.jobs[0];
    if job.ids == [] {
      assert Commands(s.deals, s.db.outbox, []) == {};
    } else {
      ApplyIsAProtocolRun(s, Commands(s.deals, s.db.outbox, job.ids));
      LandedJobIsPass(s.db, s.deals, JobRun(s).db, JobRun(s).deals, job);
    }
  }

  ghost predicate IsJobRun(s: State, t: State) { s.pc.Todo? && s.pc.jobs != [] && t == JobRun(s) }

  lemma {:induction false} OneJobRun(s: State) returns (t: State)
    requires s.pc.Todo? && s.pc.jobs != []
    ensures IsJobRun(s, t)
    ensures t.deals == PassDeals(s.deals, s.db.outbox, s.pc.jobs[0].ids, s.pc.jobs[0].target)
    ensures t.db.outbox == PassRows(s.deals, s.db.outbox, s.pc.jobs[0].ids, s.pc.jobs[0].target)
    ensures t.pc == After(s.pc.jobs[1..])
  {
    t := JobRun(s);
    JobRunIsPass(s);
  }

  /** From the listing to the last case update, a composite recovery without interference whose commands all
      land is one round. */
  lemma {:induction false} CompositeRoundIsProtocolRun(s: State, orders: seq<Order>)
    returns (listed: State, halfway: State, done: State)
    requires Enabled(s, RecoverComposites(orders))
    ensures listed == Next(s, RecoverComposites(orders)) && IsJobRun(listed, halfway) && IsJobRun(halfway, done)
    ensures (done.deals, done.db.outbox) == CompositeRound(s.deals, s.db.outbox, orders) && done.pc.Idle?
  {
    listed := Next(s, RecoverComposites(orders));
    halfway := OneJobRun(listed);
    assert listed.pc.jobs[1..] == [Job(OpenComposites(s.db.outbox, orders, Lose), Lose, false)];
    done := OneJobRun(halfway);
  }

  // ---------- forty-one rows ----------

  function Facts(k: nat): Evidence { CompositeFacts("", 2 * k, 2 * k, Won, "") }

  /** An order to which forty-one chat messages each brought a composite that is still open. */
  function CrowdedRow(order: Order, k: nat): Row {
    Row(Key(order, Facts(k), Won), order, 1, CompositeWon, Won, 2 * k + 1, Retry, None)
  }

  function CrowdedEvent(order: Order, e: nat): Event {
    if e % 2 == 0 then Event(order, OtherKind("chat"), OtherRef(seq(e, _ => 'x')), Some(e), BitrixChat)
    else Event(order, CompositeWon, CompositeRef(Facts(e / 2)), Some(e - 1), Reconciliation)
  }

  const CROWD: nat := LIVE_CHUNK + 1

  function Crowded(order: Order): Db {
    Db(map[order := Case(Some(1), Some(CompositeWon), Some(Executing), Some(2 * CROWD - 1))],
       map e: nat | e < 2 * CROWD :: CrowdedEvent(order, e), 2 * CROWD,
       seq(CROWD, k requires 0 <= k < CROWD => CrowdedRow(order, k)), [])
  }

  lemma {:induction false} CrowdedRowsOk(order: Order)
    ensures forall k | 0 <= k < CROWD :: RowOk(Crowded(order), Crowded(order).outbox[k])
  {
    forall k | 0 <= k < CROWD ensures RowOk(Crowded(order), Crowded(order).outbox[k]) {
      assert (2 * k + 1) / 2 == k && (2 * k + 1) % 2 == 1;
      assert Crowded(order).outbox[k] == CrowdedRow(order, k);
    }
  }

  lemma {:induction false} CrowdedEventsDiffer(order: Order, a: nat, b: nat)
    requires a != b
    ensures !CrowdedEvent(order, a).SameKey(CrowdedEvent(order, b))
  {
    if a % 2 == 0 && b % 2 == 0 {
      assert |seq(a, _ => 'x')| == a && |seq(b, _ => 'x')| == b;
    } else if a % 2 == 1 && b % 2 == 1 {
      assert a / 2 != b / 2;
    }
  }

  lemma {:induction false} CrowdedHasRows(order: Order)
    ensures forall e | e in Crowded(order).events && Crowded(order).events[e].kind.IsScript() ::
              HasRow(Crowded(order).outbox, e)
  {
    var db := Crowded(order);
    forall e | e in db.events && db.events[e].kind.IsScript() ensures HasRow(db.outbox, e) {
      assert db.outbox[e / 2] == CrowdedRow(order, e / 2);
    }
  }

  lemma {:induction false} CrowdedIsOk(order: Order)
    ensures DbOk(Crowded(order))
  {
    var db := Crowded(order);
    CrowdedRowsOk(order);
    CrowdedHasRows(order);
    assert EventsUnique(db.events) by {
      forall a, b | a in db.events && b in db.events && a != b ensures !db.events[a].SameKey(db.events[b]) {
        CrowdedEventsDiffer(order, a, b);
      }
    }
    assert KeysUnique(db.outbox) by {
      forall i, j | 0 <= i < j < |db.outbox|
        ensures db.outbox[i].key != db.outbox[j].key && db.outbox[i].eventId != db.outbox[j].eventId
      {
        assert db.outbox[i] == CrowdedRow(order, i) && db.outbox[j] == CrowdedRow(order, j);
      }
    }
  }

  /** A consistent database and a CRM that performs every update, on which no number of recoveries closes a row. */
  lemma {:induction false} CrowdedStaysOpen(order: Order, n: nat)
    ensures DbOk(Crowded(order))
    ensures var deals, outbox := [Deal(1, order, Executing, false)], Crowded(order).outbox;
            AllRipe(deals, WaitingRows(outbox, [order], Won), Won) &&
            |OpenComposites(AfterCompositeRounds(n, deals, outbox, [order]).1, [order], Won)| == CROWD
  {
    var deals, outbox := [Deal(1, order, Executing, false)], Crowded(order).outbox;
    var left := AfterCompositeRounds(n, deals, outbox, [order]).1;
    CrowdedIsOk(order);
    CrowdIsListed(order);
    WaitingMembers(outbox, [order], Won);
    WaitingMembers(left, [order], Won);
    CrowdedIsRipe(order, outbox);
    LongIsStalled(deals, WaitingRows(outbox, [order], Won), Won, order);
    RoundsFollow(n, deals, outbox, [order]);
    ListsStayIff(SceneOf(deals, outbox, [order]), n);
  }

  lemma {:induction false} CrowdedDealIsRipe(order: Order)
    ensures Ripe([Deal(1, order, Executing, false)], Waiting(order, 1), Won)
  {
    var deals := [Deal(1, order, Executing, false)];
    assert deals[..0] == [];
    assert Matching(deals, order) == deals;
  }

  lemma CrowdedWaits(order: Order, i: nat)
    requires i < CROWD
    ensures WaitingAt(Crowded(order).outbox[i]) == Waiting(order, 1)
  {
    assert Crowded(order).outbox[i] == CrowdedRow(order, i);
  }

  lemma {:induction false} CrowdedIsRipe(order: Order, outbox: seq<Row>)
    requires outbox == Crowded(order).outbox
    ensures var q := WaitingRows(outbox, [order], Won);
            AllRipe([Deal(1, order, Executing, false)], q, Won) && forall w | w in q :: w.order == order
  {
    WaitingMembers(outbox, [order], Won);
    CrowdedDealIsRipe(order);
    forall w | w in WaitingRows(outbox, [order], Won) ensures w == Waiting(order, 1) {
      var i :| 0 <= i < |outbox| && IsOpenComposite(outbox[i], [order], Won) && WaitingAt(outbox[i]) == w;
      CrowdedWaits(order, i);
    }
  }

  lemma {:induction false} CrowdIsListed(order: Order)
    ensures OpenComposites(Crowded(order).outbox, [order], Won) == seq(CROWD, k requires 0 <= k < CROWD => k)
  {
    var outbox := Crowded(order).outbox;
    var all: seq<nat> := seq(CROWD, k requires 0 <= k < CROWD => k);
    forall k | 0 <= k < CROWD ensures k in OpenComposites(outbox, [order], Won) {
      assert IsOpenComposite(outbox[k], [order], Won);
    }
    forall k | k in OpenComposites(outbox, [order], Won) ensures k in all {
      assert all[k] == k;
    }
    AscendingUnique(OpenComposites(outbox, [order], Won), all);
  }
}
