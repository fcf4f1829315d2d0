/** Sequential runs of the reconciliation script as a transition system.

    One action is one commit, one CRM call or one crash; between any two of them the script may die,
    and the batch may land any subset of its updates.  `World` is everything other systems do, the worker
    of `process_stage_outbox` among them: it picks up the same open rows and may close them. */
module OutboxProtocol {
  import opened OrderDomain
  import opened StageOutbox
  import opened OutboxInvariant

  /** One call of `_apply_outbox` together with the case update that follows it. */
  datatype Job = Job(ids: seq<nat>, target: Stage, resolve: bool)

  /** How far the running script has come; `snap` is what a CRM read returned. */
  datatype Pc =
    | Idle
    | Todo(jobs: seq<Job>)
    | Read(job: Job, snap: seq<Deal>, jobs: seq<Job>)
    | Sent(job: Job, jobs: seq<Job>)
    | ReadBack(job: Job, snap: seq<Deal>, jobs: seq<Job>)
    | Marked(job: Job, orders: set<Order>, jobs: seq<Job>)

  /** A readback showed this deal, in this stage, as the order's only deal. */
  datatype Sighting = Sighting(order: Order, dealId: int, stage: Stage)

  datatype State = State(db: Db, deals: seq<Deal>, pc: Pc, seen: set<Sighting>)

  datatype Action =
    | EnqueueMode(kind: EventKind, items: seq<Item>)
    | EnqueueComposites(items: seq<Item>)
    | RecoverMode(kind: EventKind)
    | RecoverComposites(orders: seq<Order>)
    | SkipEmptyJob
    | ReadDeals
    | SendBatch(landed: set<nat>)
    | ReadDealsBack
    | CommitMarks
    | CommitCases
    | Crash
    | World(db: Db, deals: seq<Deal>)

  function JobsOf(kind: EventKind, ids: seq<nat>): seq<Job>
    requires kind.IsScript()
  {
    [Job(ids, kind.Target(), kind.ResolvesReviews())]
  }

  function WithTarget(outbox: seq<Row>, ids: seq<nat>, target: Stage): (r: seq<nat>)
    ensures forall k | 0 <= k < |r| :: r[k] in ids && r[k] < |outbox| && outbox[r[k]].target == target
  {
    if ids == [] then []
    else
      (if ids[0] < |outbox| && outbox[ids[0]].target == target then [ids[0]] else []) +
      WithTarget(outbox, ids[1..], target)
  }

  function CompositeJobs(outbox: seq<Row>, ids: seq<nat>): seq<Job> {
    [Job(WithTarget(outbox, ids, Won), Won, false), Job(WithTarget(outbox, ids, Lose), Lose, false)]
  }

  /** Other systems may move deals, touch cases and reviews and record events of their own, and the stage
      worker may give open rows any status; events and closed rows of this script are left alone. */
  predicate WorldOk(before: Db, after: Db) {
    |after.outbox| == |before.outbox| && RowsKept(before.outbox, after.outbox) &&
    ClosedKept(before.outbox, after.outbox) &&
    before.nextEvent <= after.nextEvent && EventsUnique(after.events) &&
    (forall e | e in before.events :: e in after.events && after.events[e] == before.events[e]) &&
    forall e | e in after.events :: e < after.nextEvent && (e in before.events || !after.events[e].kind.IsScript())
  }

  predicate Enabled(s: State, a: Action) {
    match a
    case EnqueueMode(kind, items) =>
      s.pc.Idle? && kind.IsScript() && !kind.IsComposite() && ScriptItems(items) &&
      forall i | 0 <= i < |items| :: items[i].kind == kind
    case EnqueueComposites(items) =>
      s.pc.Idle? && ScriptItems(items) && forall i | 0 <= i < |items| :: items[i].kind.IsComposite()
    case RecoverMode(kind) => s.pc.Idle? && kind.IsScript() && !kind.IsComposite()
    case RecoverComposites(_) => s.pc.Idle?
    case SkipEmptyJob => s.pc.Todo? && s.pc.jobs != [] && s.pc.jobs[0].ids == []
    case ReadDeals => s.pc.Todo? && s.pc.jobs != [] && s.pc.jobs[0].ids != []
    case SendBatch(landed) => s.pc.Read? && landed <= Commands(s.pc.snap, s.db.outbox, s.pc.job.ids)
    case ReadDealsBack => s.pc.Sent?
    case CommitMarks => s.pc.ReadBack?
    case CommitCases => s.pc.Marked?
    case Crash => true
    case World(db, _) => WorldOk(s.db, db)
  }

  /** What a finished job did: some of its commands landed, its rows were marked by the readback, and the
      confirmed orders' cases and reviews were updated. */
  ghost predicate JobDone(db0: Db, deals0: seq<Deal>, db1: Db, deals1: seq<Deal>, job: Job, landed: set<nat>) {
    landed <= Commands(deals0, db0.outbox, job.ids) && deals1 == Land(deals0, db0.outbox, landed, job.target) &&
    db1 == Finalize(db0.(outbox := MarkAll(deals1, db0.outbox, job.ids, job.target)),
                    ConfirmedOrders(deals1, db0.outbox, job.ids, job.target), job.target, job.resolve)
  }

  function After(jobs: seq<Job>): Pc { if jobs == [] then Idle else Todo(jobs) }

  function Sightings(deals: seq<Deal>, outbox: seq<Row>, ids: seq<nat>): set<Sighting> {
    set i | i in ids && i < |outbox| && DealFor(deals, outbox, ids, i).Some? ::
      var d := DealFor(deals, outbox, ids, i).value; Sighting(d.order, d.id, d.stage)
  }

  function Next(s: State, a: Action): State
    requires Enabled(s, a)
  {
    match a
    case EnqueueMode(kind, items) =>
      var (db, ids) := Enqueue(s.db, items);
      s.(db := db, pc := Todo(JobsOf(kind, ids)))
    case EnqueueComposites(items) =>
      var (db, ids) := Enqueue(s.db, items);
      s.(db := db, pc := Todo(CompositeJobs(db.outbox, ids)))
    case RecoverMode(kind) =>
      s.(pc := Todo(JobsOf(kind, FirstBatch(OpenIds(s.db.outbox, kind)))))
    case RecoverComposites(orders) =>
      s.(pc := Todo([Job(OpenComposites(s.db.outbox, orders, Won), Won, false),
                     Job(OpenComposites(s.db.outbox, orders, Lose), Lose, false)]))
    case SkipEmptyJob => s.(pc := After(s.pc.jobs[1..]))
    case ReadDeals => s.(pc := Read(s.pc.jobs[0], s.deals, s.pc.jobs[1..]))
    case SendBatch(landed) =>
      s.(deals := Land(s.deals, s.db.outbox, landed, s.pc.job.target), pc := Sent(s.pc.job, s.pc.jobs))
    case ReadDealsBack =>
      s.(pc := ReadBack(s.pc.job, s.deals, s.pc.jobs),
      seen := s.seen + Sightings(s.deals, s.db.outbox, s.pc.job.ids))
    case CommitMarks =>
      var job := s.pc.job;
      s.(db := s.db.(outbox := MarkAll(s.pc.snap, s.db.outbox, job.ids, job.target)),
      pc := Marked(job, ConfirmedOrders(s.pc.snap, s.db.outbox, job.ids, job.target), s.pc.jobs))
    case CommitCases =>
      s.(db := Finalize(s.db, s.pc.orders, s.pc.job.target, s.pc.job.resolve), pc := After(s.pc.jobs))
    case Crash => s.(pc := Idle)
    case World(db, deals) => s.(db := db, deals := deals)
  }

  // ---------- the invariant ----------

  predicate JobOk(outbox: seq<Row>, job: Job) { IdsOk(outbox, job.ids, job.target) }

  /** The jobs still to do are sound and no two share a target, so no job touches another's rows. */
  predicate JobsOk(outbox: seq<Row>, jobs: seq<Job>) {
    (forall k | 0 <= k < |jobs| :: JobOk(outbox, jobs[k])) &&
    forall k, m | 0 <= k < m < |jobs| :: jobs[k].target != jobs[m].target
  }

  predicate Apart(job: Job, jobs: seq<Job>) {
    forall k | 0 <= k < |jobs| :: jobs[k].target != job.target
  }

  /** An applied row of this order with this target stands behind the confirmation. */
  predicate Backed(outbox: seq<Row>, order: Order, target: Stage) {
    exists i | 0 <= i < |outbox| ::
      outbox[i].order == order && outbox[i].target == target && outbox[i].status == Applied
  }

  predicate PcOk(s: State) {
    match s.pc
    case Idle => true
    case Todo(jobs) => JobsOk(s.db.outbox, jobs)
    case Read(job, _, jobs) => JobOk(s.db.outbox, job) && JobsOk(s.db.outbox, jobs) && Apart(job, jobs)
    case Sent(job, jobs) => JobOk(s.db.outbox, job) && JobsOk(s.db.outbox, jobs) && Apart(job, jobs)
    case ReadBack(job, snap, jobs) =>
      JobOk(s.db.outbox, job) && JobsOk(s.db.outbox, jobs) && Apart(job, jobs) &&
      Sightings(snap, s.db.outbox, job.ids) <= s.seen
    case Marked(job, orders, jobs) =>
      JobsOk(s.db.outbox, jobs) && forall o | o in orders :: Backed(s.db.outbox, o, job.target)
  }

  predicate Inv(s: State) { DbOk(s.db) && PcOk(s) }

  /** Before the first run: no row and no event of this script. */
  predicate Init(s: State) {
    s.db.outbox == [] && s.pc.Idle? && s.seen == {} && EventsUnique(s.db.events) &&
    forall e | e in s.db.events :: e < s.db.nextEvent && !s.db.events[e].kind.IsScript()
  }

  /** A row some job of the running script still has to mark. */
  predicate InJobs(jobs: seq<Job>, i: nat) { exists k | 0 <= k < |jobs| :: i in jobs[k].ids }

  predicate InFlight(pc: Pc, i: nat) {
    match pc
    case Idle => false
    case Todo(jobs) => InJobs(jobs, i)
    case Read(job, _, jobs) => i in job.ids || InJobs(jobs, i)
    case Sent(job, jobs) => i in job.ids || InJobs(jobs, i)
    case ReadBack(job, _, jobs) => i in job.ids || InJobs(jobs, i)
    case Marked(_, _, jobs) => InJobs(jobs, i)
  }

  predicate Lists(a: Action) {
    a.EnqueueMode? || a.EnqueueComposites? || a.RecoverMode? || a.RecoverComposites?
  }

  lemma WithTargetWithin(outbox: seq<Row>, ids: seq<nat>, target: Stage)
    requires AllOpen(outbox, ids)
    ensures AllOpen(outbox, WithTarget(outbox, ids, target)) && IdsOk(outbox, WithTarget(outbox, ids, target), target)
  {
    var picked := WithTarget(outbox, ids, target);
    forall k | 0 <= k < |picked| ensures outbox[picked[k]].Open() {
      var m :| 0 <= m < |ids| && ids[m] == picked[k];
    }
  }

  /** A fresh listing puts open rows in flight, and no others. */
  lemma ListedAreOpen(s: State, a: Action, i: nat)
    requires Inv(s) && Enabled(s, a) && Lists(a) && InFlight(Next(s, a).pc, i)
    ensures i < |Next(s, a).db.outbox| && Next(s, a).db.outbox[i].Open()
  {
    if a.EnqueueMode? || a.EnqueueComposites? {
      EnqueueKeepsDb(s.db, a.items);
      var (db, ids) := Enqueue(s.db, a.items);
      assert AllOpen(db.outbox, ids);
      WithTargetWithin(db.outbox, ids, Won);
      WithTargetWithin(db.outbox, ids, Lose);
    }
  }

  lemma EnqueueStep(s: State, a: Action)
    requires Inv(s) && Enabled(s, a) && (a.EnqueueMode? || a.EnqueueComposites?)
    ensures Inv(Next(s, a)) && RowsKept(s.db.outbox, Next(s, a).db.outbox)
    ensures ClosedKept(s.db.outbox, Next(s, a).db.outbox)
  {
    EnqueueKeepsDb(s.db, a.items);
    var (db, ids) := Enqueue(s.db, a.items);
    if a.EnqueueComposites? {
      assert AllOpen(db.outbox, ids);
      WithTargetWithin(db.outbox, ids, Won);
      WithTargetWithin(db.outbox, ids, Lose);
    }
  }

  lemma {:induction false} EnqueueAddsPending(db: Db, items: seq<Item>, i: nat)
    requires ScriptItems(items) && i < |Enqueue(db, items).0.outbox|
    ensures var row := Enqueue(db, items).0.outbox[i];
            if i < |db.outbox| then row == db.outbox[i] else row.status == Pending
  {
    if items == [] {
      assert Enqueue(db, items).0 == db;
    } else {
      var dbA := Enqueue(db, items[..|items| - 1]).0;
      if i < |dbA.outbox| {
        EnqueueAddsPending(db, items[..|items| - 1], i);
      } else {
        EnqueueGrows(db, items[..|items| - 1]);
      }
    }
  }

  lemma {:induction false} EnqueueGrows(db: Db, items: seq<Item>)
    requires ScriptItems(items)
    ensures db.outbox <= Enqueue(db, items).0.outbox
  {
    if items == [] {
      assert Enqueue(db, items).0 == db;
    } else {
      EnqueueGrows(db, items[..|items| - 1]);
    }
  }

  lemma {:induction false} LiveIsMatching(deals: seq<Deal>, orders: seq<Order>, order: Order)
    requires Single(deals, orders, order).Some?
    ensures Matching(deals, order) == [Single(deals, orders, order).value]
    decreases |orders|
  {
    var n := if |orders| <= LIVE_CHUNK then |orders| else LIVE_CHUNK;
    if order in orders[..n] && |Matching(deals, order)| > 0 {
    } else {
      LiveIsMatching(deals, orders[n..], order);
    }
  }

  lemma MarkedRowWasSeen(s: State, i: nat)
    requires Inv(s) && s.pc.ReadBack? && i in s.pc.job.ids
    requires Confirms(s.db.outbox[i], DealFor(s.pc.snap, s.db.outbox, s.pc.job.ids, i), s.pc.job.target)
    ensures Sighting(s.db.outbox[i].order, s.db.outbox[i].dealId, s.db.outbox[i].target) in s.seen
  {
    var outbox, ids := s.db.outbox, s.pc.job.ids;
    var d := DealFor(s.pc.snap, outbox, ids, i).value;
    LiveIsMatching(s.pc.snap, OrdersOf(outbox, Picked(|outbox|, ids)), outbox[i].order);
    MatchingMembers(s.pc.snap, outbox[i].order);
    assert d in Matching(s.pc.snap, outbox[i].order);
    assert Sighting(d.order, d.id, d.stage) in Sightings(s.pc.snap, outbox, ids);
  }

  lemma MarkKeepsOtherJob(deals: seq<Deal>, outbox: seq<Row>, job: Job, other: Job)
    requires JobOk(outbox, job) && JobOk(outbox, other) && job.target != other.target
    ensures JobOk(MarkAll(deals, outbox, job.ids, job.target), other)
  {
    forall m | 0 <= m < |other.ids| ensures other.ids[m] !in job.ids {}
  }

  lemma ConfirmedAreBacked(deals: seq<Deal>, outbox: seq<Row>, job: Job)
    requires JobOk(outbox, job)
    ensures forall o | o in ConfirmedOrders(deals, outbox, job.ids, job.target) ::
              Backed(MarkAll(deals, outbox, job.ids, job.target), o, job.target)
  {
    var marked := MarkAll(deals, outbox, job.ids, job.target);
    forall o | o in ConfirmedOrders(deals, outbox, job.ids, job.target) ensures Backed(marked, o, job.target) {
      var i :| i in job.ids && i < |outbox| && outbox[i].order == o &&
               IsConfirmed(deals, outbox, job.ids, i, job.target);
      var k :| 0 <= k < |job.ids| && job.ids[k] == i;
      assert marked[i].order == o && marked[i].target == job.target && marked[i].status == Applied;
    }
  }

  lemma CommitMarksPc(s: State)
    requires Inv(s) && s.pc.ReadBack?
    ensures PcOk(Next(s, CommitMarks))
  {
    var job := s.pc.job;
    ConfirmedAreBacked(s.pc.snap, s.db.outbox, job);
    forall k | 0 <= k < |s.pc.jobs|
      ensures JobOk(MarkAll(s.pc.snap, s.db.outbox, job.ids, job.target), s.pc.jobs[k])
    {
      MarkKeepsOtherJob(s.pc.snap, s.db.outbox, job, s.pc.jobs[k]);
    }
  }

  lemma CommitMarksStep(s: State)
    requires Inv(s) && s.pc.ReadBack?
    ensures Inv(Next(s, CommitMarks)) && RowsKept(s.db.outbox, Next(s, CommitMarks).db.outbox)
  {
    var t := Next(s, CommitMarks);
    assert DbOk(t.db) && RowsKept(s.db.outbox, t.db.outbox) by {
      MarkKeepsDb(s.db, s.pc.snap, s.pc.job.ids, s.pc.job.target);
    }
    assert PcOk(t) by { CommitMarksPc(s); }
  }

  lemma BackedStays(before: seq<Row>, after: seq<Row>, order: Order, target: Stage)
    requires Backed(before, order, target) && ClosedKept(before, after)
    ensures Backed(after, order, target)
  {
    var i :| 0 <= i < |before| && before[i].order == order && before[i].target == target && before[i].status == Applied;
    assert after[i] == before[i];
  }

  lemma JobsIgnoreStatus(before: seq<Row>, after: seq<Row>, jobs: seq<Job>)
    requires JobsOk(before, jobs) && RowsKept(before, after)
    ensures JobsOk(after, jobs)
  {
    forall k | 0 <= k < |jobs| ensures JobOk(after, jobs[k]) {
      JobIgnoresStatus(before, after, jobs[k]);
    }
  }

  lemma JobIgnoresStatus(before: seq<Row>, after: seq<Row>, job: Job)
    requires JobOk(before, job) && RowsKept(before, after)
    ensures JobOk(after, job)
  {
  }

  lemma WorldKeepsPc(s: State, a: Action)
    requires Inv(s) && Enabled(s, a) && a.World?
    ensures PcOk(Next(s, a))
  {
    var before, after := s.db.outbox, a.db.outbox;
    if !s.pc.Idle? {
      JobsIgnoreStatus(before, after, s.pc.jobs);
    }
    if s.pc.Marked? {
      forall o | o in s.pc.orders ensures Backed(after, o, s.pc.job.target) {
        BackedStays(before, after, o, s.pc.job.target);
      }
    } else if !s.pc.Idle? && !s.pc.Todo? {
      JobIgnoresStatus(before, after, s.pc.job);
      SightingsIgnoreStatus(if s.pc.ReadBack? then s.pc.snap else [], before, after, s.pc.job.ids);
    }
  }

  lemma {:induction false} OrdersIgnoreStatus(before: seq<Row>, after: seq<Row>, ids: seq<nat>)
    requires |before| == |after| && RowsKept(before, after) && forall k | 0 <= k < |ids| :: ids[k] < |before|
    ensures OrdersOf(before, ids) == OrdersOf(after, ids)
  {
  }

  lemma SightingsIgnoreStatus(deals: seq<Deal>, before: seq<Row>, after: seq<Row>, ids: seq<nat>)
    requires |before| == |after| && RowsKept(before, after)
    ensures Sightings(deals, before, ids) == Sightings(deals, after, ids)
  {
    OrdersIgnoreStatus(before, after, Picked(|before|, ids));
    forall i | 0 <= i < |before| ensures DealFor(deals, before, ids, i) == DealFor(deals, after, ids, i) {
      assert after[i].SameIdentity(before[i]);
    }
  }

  lemma WorldStep(s: State, a: Action)
    requires Inv(s) && Enabled(s, a) && a.World?
    ensures Inv(Next(s, a)) && RowsKept(s.db.outbox, Next(s, a).db.outbox)
  {
    assert DbOk(a.db) by {
      forall i | 0 <= i < |a.db.outbox| ensures RowOk(a.db, a.db.outbox[i]) {
        assert RowOk(s.db, s.db.outbox[i]) && a.db.outbox[i].SameIdentity(s.db.outbox[i]);
      }
      forall e | e in a.db.events && a.db.events[e].kind.IsScript() ensures HasRow(a.db.outbox, e) {
        assert HasRow(s.db.outbox, e);
        var i :| 0 <= i < |s.db.outbox| && s.db.outbox[i].eventId == e;
        assert a.db.outbox[i].eventId == e;
      }
    }
    WorldKeepsPc(s, a);
  }

  lemma CommitCasesStep(s: State)
    requires Inv(s) && s.pc.Marked?
    ensures Inv(Next(s, CommitCases))
  {
    forall i | 0 <= i < |s.db.outbox| ensures RowOk(Next(s, CommitCases).db, s.db.outbox[i]) {
      assert RowOk(s.db, s.db.outbox[i]);
    }
  }

  lemma RecoverStep(s: State, a: Action)
    requires Inv(s) && Enabled(s, a) && (a.RecoverMode? || a.RecoverComposites?)
    ensures Inv(Next(s, a))
  {
  }

  lemma SkipStep(s: State)
    requires Inv(s) && Enabled(s, SkipEmptyJob)
    ensures Inv(Next(s, SkipEmptyJob))
  {
  }

  lemma ReadStep(s: State)
    requires Inv(s) && Enabled(s, ReadDeals)
    ensures Inv(Next(s, ReadDeals))
  {
  }

  /** Every action of every reachable state keeps the invariant and each row's identity. */
  lemma StepKeepsInv(s: State, a: Action)
    requires Inv(s) && Enabled(s, a)
    ensures Inv(Next(s, a))
    ensures RowsKept(s.db.outbox, Next(s, a).db.outbox)
  {
    match a
    case EnqueueMode(_, _) => EnqueueStep(s, a);
    case EnqueueComposites(_) => EnqueueStep(s, a);
    case CommitMarks => CommitMarksStep(s);
    case World(_, _) => WorldStep(s, a);
    case CommitCases => CommitCasesStep(s);
    case RecoverMode(_) => RecoverStep(s, a);
    case RecoverComposites(_) => RecoverStep(s, a);
    case SkipEmptyJob => SkipStep(s);
    case ReadDeals => ReadStep(s);
    case _ =>
  }

  /** Only the marking step touches rows that are no longer open, and only those of its own job. */
  lemma ClosedRowsChangeByMarks(s: State, a: Action, i: nat)
    requires Inv(s) && Enabled(s, a) && i < |s.db.outbox| && !s.db.outbox[i].Open()
    ensures i < |Next(s, a).db.outbox|
    ensures Next(s, a).db.outbox[i] != s.db.outbox[i] ==> a.CommitMarks? && i in s.pc.job.ids
  {
    if a.EnqueueMode? || a.EnqueueComposites? {
      EnqueueStep(s, a);
    }
  }

  /** A step of the script turns a row APPLIED only by marking it after a readback that confirmed it. */
  lemma ScriptAppliesByMarks(s: State, a: Action, i: nat)
    requires Inv(s) && Enabled(s, a) && !a.World? && i < |Next(s, a).db.outbox|
    requires Next(s, a).db.outbox[i].status == Applied
    requires i < |s.db.outbox| ==> s.db.outbox[i].status != Applied
    ensures a.CommitMarks? && i < |s.db.outbox| && i in s.pc.job.ids
    ensures Sighting(s.db.outbox[i].order, s.db.outbox[i].dealId, s.db.outbox[i].target) in s.seen
  {
    if a.EnqueueMode? || a.EnqueueComposites? {
      EnqueueAddsPending(s.db, a.items, i);
    } else if a.CommitMarks? {
      MarkedRowWasSeen(s, i);
    }
  }
}
