/** Theorems about whole sequences of runs: soundness of APPLIED, of case stages and of resolved
    reviews, and the single stage change of every deal. */
module OutboxRuns {
  import opened OrderDomain
  import opened StageOutbox
  import opened OutboxInvariant
  import opened OutboxProtocol

  predicate Steps(before: State, a: Action, after: State) {
    Enabled(before, a) && after == Next(before, a)
  }

  predicate StepAt(states: seq<State>, actions: seq<Action>, k: nat)
    requires k < |actions| && |states| == |actions| + 1
  {
    Steps(states[k], actions[k], states[k + 1])
  }

  predicate IsRun(states: seq<State>, actions: seq<Action>) {
    |states| == |actions| + 1 && forall k | 0 <= k < |actions| :: StepAt(states, actions, k)
  }

  lemma {:induction false} RunKeepsInv(states: seq<State>, actions: seq<Action>, n: nat)
    requires IsRun(states, actions) && Init(states[0]) && n < |states|
    ensures Inv(states[n])
  {
    if n == 0 {
    } else {
      RunKeepsInv(states, actions, n - 1);
      assert StepAt(states, actions, n - 1);
      StepKeepsInv(states[n - 1], actions[n - 1]);
    }
  }

  /** Over any stretch of any runs, rows keep order, deal, kind, target and key. */
  lemma {:induction false} RunKeepsRows(states: seq<State>, actions: seq<Action>, m: nat, n: nat)
    requires IsRun(states, actions) && Init(states[0]) && m <= n < |states|
    ensures RowsKept(states[m].db.outbox, states[n].db.outbox)
    decreases n
  {
    if m < n {
      RunKeepsRows(states, actions, m, n - 1);
      RunKeepsInv(states, actions, n - 1);
      assert StepAt(states, actions, n - 1);
      StepKeepsInv(states[n - 1], actions[n - 1]);
    }
  }

  predicate RowOfEvent(outbox: seq<Row>, e: nat, i: nat) {
    i < |outbox| && outbox[i].eventId == e
  }

  /** After any runs, script events and rows are in bijection and no two rows share a key. */
  lemma EventsMatchRows(states: seq<State>, actions: seq<Action>, n: nat)
    requires IsRun(states, actions) && Init(states[0]) && n < |states|
    ensures var db := states[n].db;
            (forall e | e in db.events && db.events[e].kind.IsScript() :: exists i: nat :: RowOfEvent(db.outbox, e, i)) &&
            (forall i | 0 <= i < |db.outbox| ::
               db.outbox[i].eventId in db.events && db.events[db.outbox[i].eventId].kind == db.outbox[i].kind) &&
            (forall i, j | 0 <= i < j < |db.outbox| ::
               db.outbox[i].eventId != db.outbox[j].eventId && db.outbox[i].key != db.outbox[j].key)
  {
    RunKeepsInv(states, actions, n);
    var db := states[n].db;
    forall e | e in db.events && db.events[e].kind.IsScript() ensures exists i: nat :: RowOfEvent(db.outbox, e, i) {
      assert HasRow(db.outbox, e);
      var i :| 0 <= i < |db.outbox| && db.outbox[i].eventId == e;
      assert RowOfEvent(db.outbox, e, i);
    }
    forall i | 0 <= i < |db.outbox|
      ensures db.outbox[i].eventId in db.events && db.events[db.outbox[i].eventId].kind == db.outbox[i].kind
    {
      assert RowOk(db, db.outbox[i]);
    }
  }

  /** The CRM holds exactly one deal for the order: this one, in this stage. */
  predicate Shows(deals: seq<Deal>, x: Sighting) {
    |Matching(deals, x.order)| == 1 && Matching(deals, x.order)[0].id == x.dealId &&
    Matching(deals, x.order)[0].stage == x.stage
  }

  lemma SightingIsShown(s: State, x: Sighting)
    requires s.pc.Sent? && x in Sightings(s.deals, s.db.outbox, s.pc.job.ids)
    ensures Shows(s.deals, x)
  {
    var outbox, ids := s.db.outbox, s.pc.job.ids;
    var i :| i in ids && i < |outbox| && DealFor(s.deals, outbox, ids, i).Some? &&
             x == (var d := DealFor(s.deals, outbox, ids, i).value; Sighting(d.order, d.id, d.stage));
    LiveIsMatching(s.deals, OrdersOf(outbox, Picked(|outbox|, ids)), outbox[i].order);
    MatchingMembers(s.deals, outbox[i].order);
    assert Matching(s.deals, outbox[i].order)[0] in Matching(s.deals, outbox[i].order);
  }

  lemma {:induction false} SightingsComeFromReadbacks(states: seq<State>, actions: seq<Action>, n: nat, x: Sighting)
    requires IsRun(states, actions) && Init(states[0]) && n < |states| && x in states[n].seen
    ensures exists k | 0 <= k < n :: actions[k].ReadDealsBack? && Shows(states[k].deals, x)
  {
    assert n > 0;
    assert StepAt(states, actions, n - 1);
    if x in states[n - 1].seen {
      SightingsComeFromReadbacks(states, actions, n - 1, x);
    } else {
      assert actions[n - 1].ReadDealsBack?;
      SightingIsShown(states[n - 1], x);
    }
  }

  // ---------- who turns a row APPLIED, and who turns it back ----------

  predicate IsApplied(outbox: seq<Row>, i: nat) { i < |outbox| && outbox[i].status == Applied }

  /** Step `m` turned row `i` APPLIED. */
  predicate TurnsApplied(states: seq<State>, m: nat, i: nat)
    requires m < |states| - 1
  {
    !IsApplied(states[m].db.outbox, i) && IsApplied(states[m + 1].db.outbox, i)
  }

  /** A readback before step `m` saw the single deal of row `i`'s order, with the row's deal id, in the row's
      own target stage. */
  ghost predicate ReadBackBefore(states: seq<State>, actions: seq<Action>, m: nat, i: nat)
    requires m < |actions| < |states| && i < |states[m].db.outbox|
  {
    var row := states[m].db.outbox[i];
    exists k | 0 <= k < m ::
      actions[k].ReadDealsBack? && Shows(states[k].deals, Sighting(row.order, row.dealId, row.target))
  }

  /** The script turns a row APPLIED only after such a readback, whatever crashes and lost updates came
      before. */
  lemma ScriptAppliesOnReadback(states: seq<State>, actions: seq<Action>, m: nat, i: nat)
    requires IsRun(states, actions) && Init(states[0]) && m < |actions| && TurnsApplied(states, m, i)
    requires !actions[m].World?
    ensures actions[m].CommitMarks? && i < |states[m].db.outbox| && ReadBackBefore(states, actions, m, i)
  {
    RunKeepsInv(states, actions, m);
    assert StepAt(states, actions, m);
    ScriptAppliesByMarks(states[m], actions[m], i);
    var row := states[m].db.outbox[i];
    SightingsComeFromReadbacks(states, actions, m, Sighting(row.order, row.dealId, row.target));
  }

  /** Row `i` has been APPLIED since step `m`. */
  predicate AppliedSince(states: seq<State>, m: nat, n: nat, i: nat)
    requires m < n < |states|
  {
    TurnsApplied(states, m, i) && forall k | m < k <= n :: IsApplied(states[k].db.outbox, i)
  }

  /** Behind every APPLIED row stands the step that applied it: a marking by the script, with its readback, or
      a write of another system. */
  lemma {:induction false} AppliedHasReadback(states: seq<State>, actions: seq<Action>, n: nat, i: nat) returns (m: nat)
    requires IsRun(states, actions) && Init(states[0]) && n < |states| && IsApplied(states[n].db.outbox, i)
    ensures m < n && AppliedSince(states, m, n, i)
    ensures !actions[m].World? ==>
              actions[m].CommitMarks? && i < |states[m].db.outbox| && ReadBackBefore(states, actions, m, i)
  {
    assert n > 0;
    if IsApplied(states[n - 1].db.outbox, i) {
      m := AppliedHasReadback(states, actions, n - 1, i);
    } else {
      m := n - 1;
      assert TurnsApplied(states, m, i);
      if !actions[m].World? {
        ScriptAppliesOnReadback(states, actions, m, i);
      }
    }
  }

  predicate AloftSince(states: seq<State>, m: nat, n: nat, i: nat)
    requires m <= n < |states|
  {
    forall k | m <= k <= n :: InFlight(states[k].pc, i)
  }

  /** A row the script still has to mark is APPLIED only if another system applied it after the listing. */
  lemma {:induction false} AppliedInFlightIsForeign(states: seq<State>, actions: seq<Action>, n: nat, i: nat)
    returns (m: nat)
    requires IsRun(states, actions) && Init(states[0]) && n < |states|
    requires IsApplied(states[n].db.outbox, i) && InFlight(states[n].pc, i)
    ensures m < n && actions[m].World? && TurnsApplied(states, m, i) && AloftSince(states, m, n, i)
  {
    FlightBack(states, actions, n, i);
    if IsApplied(states[n - 1].db.outbox, i) {
      m := AppliedInFlightIsForeign(states, actions, n - 1, i);
      AloftLonger(states, m, n, i);
    } else {
      m := n - 1;
    }
  }

  lemma FlightBack(states: seq<State>, actions: seq<Action>, n: nat, i: nat)
    requires IsRun(states, actions) && Init(states[0]) && n < |states|
    requires IsApplied(states[n].db.outbox, i) && InFlight(states[n].pc, i)
    ensures n > 0 && InFlight(states[n - 1].pc, i)
    ensures IsApplied(states[n - 1].db.outbox, i) || actions[n - 1].World?
  {
    assert n > 0;
    RunKeepsInv(states, actions, n - 1);
    assert StepAt(states, actions, n - 1);
    FlightStep(states[n - 1], actions[n - 1], i);
  }

  lemma AloftLonger(states: seq<State>, m: nat, n: nat, i: nat)
    requires m < n < |states| && AloftSince(states, m, n - 1, i) && InFlight(states[n].pc, i)
    ensures AloftSince(states, m, n, i)
  {
  }

  lemma FlightStep(s: State, a: Action, i: nat)
    requires Inv(s) && Enabled(s, a) && IsApplied(Next(s, a).db.outbox, i) && InFlight(Next(s, a).pc, i)
    ensures InFlight(s.pc, i) && (IsApplied(s.db.outbox, i) || a.World?)
  {
    if Lists(a) {
      ListedAreOpen(s, a, i);
    } else {
      StaysInFlight(s, a, i);
      if !IsApplied(s.db.outbox, i) && !a.World? {
        ScriptAppliesByMarks(s, a, i);
      }
    }
  }

  /** Only a listing puts rows in flight, and a marking takes its own rows out. */
  lemma StaysInFlight(s: State, a: Action, i: nat)
    requires Inv(s) && Enabled(s, a) && !Lists(a) && InFlight(Next(s, a).pc, i)
    ensures InFlight(s.pc, i) && (a.CommitMarks? ==> i !in s.pc.job.ids)
  {
    if a.SkipEmptyJob? || a.ReadDeals? {
      var rest := s.pc.jobs[1..];
      if InJobs(rest, i) {
        var k :| 0 <= k < |rest| && i in rest[k].ids;
        assert i in s.pc.jobs[k + 1].ids;
      }
      assert a.ReadDeals? && i in s.pc.jobs[0].ids ==> InJobs(s.pc.jobs, i);
    } else if a.CommitMarks? {
      var k :| 0 <= k < |s.pc.jobs| && i in s.pc.jobs[k].ids;
      assert JobOk(s.db.outbox, s.pc.jobs[k]) && s.pc.jobs[k].target != s.pc.job.target;
    }
  }

  /** The script is about to mark row `i`, and its readback does not show the order's deal in the target. */
  predicate ReadbackMisses(s: State, i: nat) {
    s.pc.ReadBack? && i < |s.db.outbox| && i in s.pc.job.ids &&
    !Confirms(s.db.outbox[i], DealFor(s.pc.snap, s.db.outbox, s.pc.job.ids, i), s.pc.job.target)
  }

  /** APPLIED is left by a step if and only if that step marks the row and its readback did not find the
      order's deal in the target; and then another system had applied the row between the script's listing
      and its marking, which does not look at the status again. */
  lemma AppliedIsLeftIff(states: seq<State>, actions: seq<Action>, n: nat, i: nat)
    requires IsRun(states, actions) && Init(states[0]) && n < |actions| && IsApplied(states[n].db.outbox, i)
    ensures !IsApplied(states[n + 1].db.outbox, i) <==> actions[n].CommitMarks? && ReadbackMisses(states[n], i)
    ensures !IsApplied(states[n + 1].db.outbox, i) ==>
              exists m | 0 <= m < n ::
                actions[m].World? && TurnsApplied(states, m, i) && AloftSince(states, m, n, i)
  {
    RunKeepsInv(states, actions, n);
    assert StepAt(states, actions, n);
    ClosedRowsChangeByMarks(states[n], actions[n], i);
    if !IsApplied(states[n + 1].db.outbox, i) {
      var m := AppliedInFlightIsForeign(states, actions, n, i);
    }
  }

  /** The loss is always possible: while the script waits with a readback that does not show the target, the
      stage worker may apply the row, and the marking then sends it back to retry. */
  lemma ForeignApplyIsLost(s: State, i: nat, db: Db)
    requires Inv(s) && ReadbackMisses(s, i) && s.db.outbox[i].Open()
    requires db == s.db.(outbox := s.db.outbox[i := s.db.outbox[i].(status := Applied)])
    ensures Enabled(s, World(db, s.deals)) && IsApplied(Next(s, World(db, s.deals)).db.outbox, i)
    ensures Next(Next(s, World(db, s.deals)), CommitMarks).db.outbox[i].status == Retry
  {
    assert WorldOk(s.db, db) by {
      EventsAreUnique(s.db);
    }
    MissesStill(s, i, db);
    MarkedMissRetries(Next(s, World(db, s.deals)), i);
  }

  lemma MissesStill(s: State, i: nat, db: Db)
    requires ReadbackMisses(s, i) && |db.outbox| == |s.db.outbox| && RowsKept(s.db.outbox, db.outbox)
    requires Enabled(s, World(db, s.deals))
    ensures ReadbackMisses(Next(s, World(db, s.deals)), i)
  {
    OrdersIgnoreStatus(s.db.outbox, db.outbox, Picked(|db.outbox|, s.pc.job.ids));
  }

  lemma MarkedMissRetries(s: State, i: nat)
    requires ReadbackMisses(s, i)
    ensures Next(s, CommitMarks).db.outbox[i].status == Retry
  {
  }

  lemma EventsAreUnique(db: Db)
    requires DbOk(db)
    ensures EventsUnique(db.events) && forall e | e in db.events :: e < db.nextEvent
  {
  }

  /** No other system turns rows in flight APPLIED. */
  ghost predicate LeavesFlightAlone(states: seq<State>, actions: seq<Action>) {
    |states| == |actions| + 1 && forall m: nat, i: nat | m < |actions| && actions[m].World? && TurnsApplied(states, m, i) ::
      !InFlight(states[m].pc, i)
  }

  /** Then an APPLIED row is never left. */
  lemma {:induction false} AppliedIsFinal(states: seq<State>, actions: seq<Action>, m: nat, n: nat, i: nat)
    requires IsRun(states, actions) && Init(states[0]) && LeavesFlightAlone(states, actions)
    requires m <= n < |states| && IsApplied(states[m].db.outbox, i)
    ensures i < |states[n].db.outbox| && states[n].db.outbox[i] == states[m].db.outbox[i]
  {
    if m < n {
      AppliedIsFinal(states, actions, m, n - 1, i);
      RunKeepsInv(states, actions, n - 1);
      assert StepAt(states, actions, n - 1);
      ClosedRowsChangeByMarks(states[n - 1], actions[n - 1], i);
      NotAppliedInFlight(states, actions, n - 1, i);
    }
  }

  lemma NotAppliedInFlight(states: seq<State>, actions: seq<Action>, n: nat, i: nat)
    requires IsRun(states, actions) && Init(states[0]) && LeavesFlightAlone(states, actions)
    requires n < |states| && IsApplied(states[n].db.outbox, i)
    ensures !InFlight(states[n].pc, i)
  {
    if InFlight(states[n].pc, i) {
      var m := AppliedInFlightIsForeign(states, actions, n, i);
    }
  }

  predicate CaseStageIs(db: Db, order: Order, stage: Option<Stage>) {
    order in db.cases && db.cases[order].crmStage == stage
  }

  lemma {:induction false} EnqueueSetsExecuting(db: Db, items: seq<Item>, order: Order)
    requires ScriptItems(items) && order in db.cases
    ensures order in Enqueue(db, items).0.cases
    ensures Enqueue(db, items).0.cases[order].crmStage in {db.cases[order].crmStage, Some(Executing)}
  {
    if items == [] {
    } else {
      EnqueueSetsExecuting(db, items[..|items| - 1], order);
    }
  }

  /** Whenever the script itself writes a case's CRM stage, it writes EXECUTING while enqueuing, or a
      target for which an APPLIED row of that order exists. */
  lemma CaseStageIsBacked(states: seq<State>, actions: seq<Action>, n: nat, order: Order)
    requires IsRun(states, actions) && Init(states[0]) && n < |actions| && !actions[n].World?
    requires order in states[n].db.cases
    ensures var before, after := states[n].db.cases[order].crmStage, states[n + 1].db;
            order in after.cases &&
            (CaseStageIs(after, order, before) ||
             (CaseStageIs(after, order, Some(Executing)) && (actions[n].EnqueueMode? || actions[n].EnqueueComposites?)) ||
             exists target | CaseStageIs(after, order, Some(target)) :: Backed(after.outbox, order, target))
  {
    RunKeepsInv(states, actions, n);
    assert StepAt(states, actions, n);
    var s, a := states[n], actions[n];
    if a.EnqueueMode? || a.EnqueueComposites? {
      EnqueueSetsExecuting(s.db, a.items, order);
    } else if a.CommitCases? && order in s.pc.orders {
      assert CaseStageIs(states[n + 1].db, order, Some(s.pc.job.target));
      assert Backed(states[n + 1].db.outbox, order, s.pc.job.target);
    }
  }

  lemma {:induction false} EnqueueKeepsReviews(db: Db, items: seq<Item>)
    requires ScriptItems(items)
    ensures Enqueue(db, items).0.reviews == db.reviews
  {
    if items == [] {
    } else {
      EnqueueKeepsReviews(db, items[..|items| - 1]);
    }
  }

  /** The script changes a review only by closing an open paid-and-returned conflict, and then an
      APPLIED row of the review's order with the job's target exists. */
  lemma ResolvedReviewIsBacked(states: seq<State>, actions: seq<Action>, n: nat, r: nat)
    requires IsRun(states, actions) && Init(states[0]) && n < |actions| && !actions[n].World?
    requires r < |states[n].db.reviews|
    ensures |states[n + 1].db.reviews| == |states[n].db.reviews|
    ensures var before, after := states[n].db.reviews[r], states[n + 1].db.reviews[r];
            after == before ||
            (before.conflict && before.open && before.reason.PaidAndReturned? && after == before.(open := false) &&
             actions[n].CommitCases? && states[n].pc.Marked? &&
             Backed(states[n + 1].db.outbox, before.order, states[n].pc.job.target))
  {
    RunKeepsInv(states, actions, n);
    assert StepAt(states, actions, n);
    var s, a := states[n], actions[n];
    if a.EnqueueMode? || a.EnqueueComposites? {
      EnqueueKeepsReviews(s.db, a.items);
    }
  }

  /** `_apply_outbox` and the case update after it, run without interference, are five protocol actions;
      their joint effect is the one the runner's methods are proved to have. */
  lemma ApplyIsAProtocolRun(s: State, landed: set<nat>)
    requires s.pc.Todo? && s.pc.jobs != [] && s.pc.jobs[0].ids != []
    requires landed <= Commands(s.deals, s.db.outbox, s.pc.jobs[0].ids)
    ensures Enabled(s, ReadDeals) && Enabled(Next(s, ReadDeals), SendBatch(landed))
    ensures var sent := Next(Next(s, ReadDeals), SendBatch(landed));
            var done := Next(Next(Next(sent, ReadDealsBack), CommitMarks), CommitCases);
            JobDone(s.db, s.deals, done.db, done.deals, s.pc.jobs[0], landed) && done.pc == After(s.pc.jobs[1..])
  {
  }

  // ---------- only this script writes the CRM ----------

  predicate QuietWorld(states: seq<State>, actions: seq<Action>) {
    IsRun(states, actions) && Init(states[0]) && UniqueIds(states[0].deals) &&
    forall k | 0 <= k < |actions| && actions[k].World? :: actions[k].deals == states[k].deals
  }

  predicate FreshRead(s: State) {
    UniqueIds(s.deals) && (s.pc.Read? ==> s.pc.snap == s.deals)
  }

  /** Deal `k` either keeps its stage or leaves EXECUTING for the target of an outbox row of its own
      order and id. */
  predicate MovesByRow(before: State, after: State, k: nat)
    requires k < |before.deals| == |after.deals|
  {
    var d := before.deals[k];
    after.deals[k] == d ||
    (d.stage == Executing && after.deals[k].stage != Executing &&
     after.deals[k] == d.(stage := after.deals[k].stage) &&
     exists i | 0 <= i < |before.db.outbox| ::
       before.db.outbox[i].order == d.order && before.db.outbox[i].dealId == d.id &&
       before.db.outbox[i].target == after.deals[k].stage)
  }

  lemma CommandNamesItsDeal(deals: seq<Deal>, outbox: seq<Row>, ids: seq<nat>, i: nat, k: nat)
    requires UniqueIds(deals) && i in Commands(deals, outbox, ids) && k < |deals| && deals[k].id == outbox[i].dealId
    ensures i < |outbox| && deals[k].stage == Executing && deals[k].order == outbox[i].order
  {
    var d := DealFor(deals, outbox, ids, i).value;
    LiveIsMatching(deals, OrdersOf(outbox, Picked(|outbox|, ids)), outbox[i].order);
    MatchingMembers(deals, outbox[i].order);
    assert d in Matching(deals, outbox[i].order);
    var m :| 0 <= m < |deals| && deals[m] == d;
  }

  lemma SendMovesByRow(s: State, a: Action, k: nat)
    requires Inv(s) && FreshRead(s) && Enabled(s, a) && a.SendBatch? && k < |s.deals|
    ensures MovesByRow(s, Next(s, a), k)
  {
    var outbox, job := s.db.outbox, s.pc.job;
    if Hit(s.deals[k], outbox, a.landed) {
      var i :| i in a.landed && i < |outbox| && outbox[i].dealId == s.deals[k].id;
      assert i in Commands(s.deals, outbox, job.ids);
      CommandNamesItsDeal(s.deals, outbox, job.ids, i, k);
      var m :| 0 <= m < |job.ids| && job.ids[m] == i;
      assert outbox[job.ids[m]].target == job.target && RowOk(s.db, outbox[i]);
    }
  }

  predicate DealsMoveByRow(before: State, after: State) {
    |after.deals| == |before.deals| && forall k | 0 <= k < |before.deals| :: MovesByRow(before, after, k)
  }

  lemma QuietStep(s: State, a: Action)
    requires Inv(s) && FreshRead(s) && Enabled(s, a) && (a.World? ==> a.deals == s.deals)
    ensures FreshRead(Next(s, a)) && DealsMoveByRow(s, Next(s, a))
  {
    if a.SendBatch? {
      forall k | 0 <= k < |s.deals| ensures MovesByRow(s, Next(s, a), k) {
        SendMovesByRow(s, a, k);
      }
    } else {
      assert Next(s, a).deals == s.deals;
    }
  }

  lemma {:induction false} QuietRun(states: seq<State>, actions: seq<Action>, n: nat)
    requires QuietWorld(states, actions) && n < |states|
    ensures FreshRead(states[n])
  {
    if n == 0 {
    } else {
      QuietRun(states, actions, n - 1);
      RunKeepsInv(states, actions, n - 1);
      assert StepAt(states, actions, n - 1);
      QuietStep(states[n - 1], actions[n - 1]);
    }
  }

  lemma QuietMove(states: seq<State>, actions: seq<Action>, n: nat)
    requires QuietWorld(states, actions) && n < |actions|
    ensures DealsMoveByRow(states[n], states[n + 1])
  {
    QuietRun(states, actions, n);
    RunKeepsInv(states, actions, n);
    assert StepAt(states, actions, n);
    QuietStep(states[n], actions[n]);
  }

  lemma {:induction false} MovedDealStays(states: seq<State>, actions: seq<Action>, m: nat, n: nat, k: nat)
    requires QuietWorld(states, actions) && m <= n < |states|
    requires k < |states[m].deals| && states[m].deals[k].stage != Executing
    ensures k < |states[n].deals| && states[n].deals[k] == states[m].deals[k]
    decreases n
  {
    if m < n {
      MovedDealStays(states, actions, m, n - 1, k);
      QuietMove(states, actions, n - 1);
      assert MovesByRow(states[n - 1], states[n], k);
    }
  }

  /** If only these runs write the CRM, then over any sequence of runs in any modes a deal moves at most
      once: from EXECUTING to the target of an outbox row of its order, and there it stays, even when rows
      with other targets are pending. */
  lemma DealMovesOnce(states: seq<State>, actions: seq<Action>, m: nat, k: nat)
    requires QuietWorld(states, actions) && m < |actions| && k < |states[m].deals|
    ensures |states[m + 1].deals| == |states[m].deals| && MovesByRow(states[m], states[m + 1], k)
    ensures states[m + 1].deals[k] != states[m].deals[k] ==>
              forall n | m < n < |states| :: k < |states[n].deals| && states[n].deals[k] == states[m + 1].deals[k]
  {
    QuietMove(states, actions, m);
    assert MovesByRow(states[m], states[m + 1], k);
    if states[m + 1].deals[k] != states[m].deals[k] {
      forall n | m < n < |states| ensures k < |states[n].deals| && states[n].deals[k] == states[m + 1].deals[k] {
        MovedDealStays(states, actions, m + 1, n, k);
      }
    }
  }
}
