/** `--stale-execution` with several workers: scans and enqueue transactions interleave freely, and one
    chat event still yields at most one composite outbox row. */
module CompositeRace {
  import opened OrderDomain
  import opened StageOutbox

  /** A worker between scans, with gathered evidence, or inside its enqueue transaction.  Writes of a
      transaction are its own until the commit; `held` are the cases it locked FOR UPDATE. */
  datatype Worker =
    | Resting
    | Scanned(ready: seq<Item>)
    | InTxn(todo: seq<Item>, held: set<Order>, events: map<nat, Event>, rows: seq<Row>)

  datatype World = World(events: map<nat, Event>, nextEvent: nat, rows: seq<Row>, workers: seq<Worker>)

  datatype Action =
    | Scan(item: Item)
    | Begin
    | Lock
    | Insert
    | Skip
    | Commit
    | Abort
    | OtherEvent(event: Event)

  predicate FromChat(source: Source) { source.BitrixChat? || source.Manual? }

  /** The latest event, as the scan and the enqueue both test it: a chat confirmation with a time. */
  predicate Gathers(events: map<nat, Event>, item: Item) {
    Fits(item.kind, item.evidence) && item.kind.IsComposite() &&
    var c := item.evidence.chatEventId;
    IsLatest(events, item.order, c) && FromChat(events[c].source) &&
    events[c].at == Some(item.evidence.chatAt) && item.eventAt == item.evidence.chatAt
  }

  /** What worker `w` reads inside its transaction. */
  function Visible(s: World, w: nat): map<nat, Event>
    requires w < |s.workers| && s.workers[w].InTxn?
  {
    s.events + s.workers[w].events
  }

  predicate Holds(k: Worker, order: Order) { k.InTxn? && order in k.held }

  predicate Enabled(s: World, w: nat, a: Action) {
    w < |s.workers| &&
    var k := s.workers[w];
    match a
    case Scan(item) => !k.InTxn? && Gathers(s.events, item)
    case Begin => k.Scanned?
    case Lock =>
      k.InTxn? && k.todo != [] && forall v | 0 <= v < |s.workers| && v != w :: !Holds(s.workers[v], k.todo[0].order)
    case Insert =>
      k.InTxn? && k.todo != [] && Holds(k, k.todo[0].order) && k.todo[0].kind.IsComposite() &&
      Fits(k.todo[0].kind, k.todo[0].evidence) &&
      IsLatest(Visible(s, w), k.todo[0].order, k.todo[0].evidence.chatEventId)
    case Skip => k.InTxn? && k.todo != []
    case Commit => k.InTxn? && k.todo == []
    case Abort => true
    case OtherEvent(event) => !event.kind.IsComposite()
  }

  function RowOf(item: Item, e: nat): Row
    requires item.kind.IsScript()
  {
    Row(KeyOf(item), item.order, item.dealId, item.kind, item.kind.Target(), e, Pending, None)
  }

  function Next(s: World, w: nat, a: Action): World
    requires Enabled(s, w, a)
  {
    var k := s.workers[w];
    match a
    case Scan(item) => s.(workers := s.workers[w := Scanned((if k.Scanned? then k.ready else []) + [item])])
    case Begin => s.(workers := s.workers[w := InTxn(k.ready, {}, map[], [])])
    case Lock => s.(workers := s.workers[w := k.(held := k.held + {k.todo[0].order})])
    case Insert =>
      var item, e := k.todo[0], s.nextEvent;
      s.(nextEvent := e + 1,
      workers := s.workers[w := InTxn(k.todo[1..], k.held, k.events[e := EventOf(item)], k.rows + [RowOf(item, e)])])
    case Skip => s.(workers := s.workers[w := k.(todo := k.todo[1..])])
    case Commit =>
      s.(events := s.events + k.events, rows := s.rows + k.rows, workers := s.workers[w := Resting])
    case Abort => s.(workers := s.workers[w := Resting])
    case OtherEvent(event) => s.(events := s.events[s.nextEvent := event], nextEvent := s.nextEvent + 1)
  }

  // ---------- the invariant ----------

  function ChatOf(event: Event): Option<nat> {
    if event.kind.IsComposite() && event.ref.CompositeRef? && event.ref.evidence.CompositeFacts?
    then Some(event.ref.evidence.chatEventId) else None
  }

  /** A composite event stands right above the chat event it consumed: same order, same time, larger id. */
  predicate Consumes(events: map<nat, Event>, event: Event, e: nat) {
    event.kind.IsComposite() ==>
      event.ref.CompositeRef? && event.ref.evidence.CompositeFacts? &&
      var c := event.ref.evidence.chatEventId;
      c in events && c < e && events[c].order == event.order && events[c].at.Some? && events[c].at == event.at
  }

  predicate ItemOk(events: map<nat, Event>, item: Item) {
    Fits(item.kind, item.evidence) && item.kind.IsComposite() &&
    var c := item.evidence.chatEventId;
    c in events && events[c].order == item.order && events[c].at == Some(item.eventAt)
  }

  predicate ItemsOk(events: map<nat, Event>, items: seq<Item>) {
    forall i | 0 <= i < |items| :: ItemOk(events, items[i])
  }

  predicate NoTwin(events: map<nat, Event>, others: map<nat, Event>) {
    forall e, f | e in events && f in others && e != f && events[e].kind.IsComposite() && others[f].kind.IsComposite() ::
      ChatOf(events[e]) != ChatOf(others[f])
  }

  predicate RowsMatch(events: map<nat, Event>, rows: seq<Row>) {
    (forall i | 0 <= i < |rows| ::
      rows[i].kind.IsComposite() && rows[i].eventId in events && events[rows[i].eventId].kind.IsComposite() &&
      rows[i].key.evidence.CompositeFacts? &&
      ChatOf(events[rows[i].eventId]) == Some(rows[i].key.evidence.chatEventId)) &&
    forall i, j | 0 <= i < j < |rows| :: rows[i].eventId != rows[j].eventId
  }

  predicate EventsOk(committed: map<nat, Event>, events: map<nat, Event>, next: nat) {
    forall e | e in events :: e < next && Consumes(committed, events[e], e)
  }

  predicate WorkerOk(s: World, k: Worker) {
    match k
    case Resting => true
    case Scanned(ready) => ItemsOk(s.events, ready)
    case InTxn(todo, held, events, rows) =>
      ItemsOk(s.events, todo) && EventsOk(s.events, events, s.nextEvent) && events.Keys !! s.events.Keys &&
      (forall e | e in events :: events[e].order in held && events[e].kind.IsComposite()) &&
      NoTwin(events, events) && NoTwin(events, s.events) && RowsMatch(events, rows)
  }

  predicate PairOk(a: Worker, b: Worker) {
    a.InTxn? && b.InTxn? ==> a.held !! b.held && a.events.Keys !! b.events.Keys && NoTwin(a.events, b.events)
  }

  predicate Inv(s: World) {
    EventsOk(s.events, s.events, s.nextEvent) && NoTwin(s.events, s.events) && RowsMatch(s.events, s.rows) &&
    (forall w | 0 <= w < |s.workers| :: WorkerOk(s, s.workers[w])) &&
    forall v, w | 0 <= v < |s.workers| && 0 <= w < |s.workers| && v != w :: PairOk(s.workers[v], s.workers[w])
  }

  predicate Init(s: World) {
    s.rows == [] && (forall w | 0 <= w < |s.workers| :: s.workers[w].Resting?) &&
    forall e | e in s.events :: e < s.nextEvent && !s.events[e].kind.IsComposite()
  }

  // ---------- every step keeps it ----------

  /** A chat event below a composite event is not the latest of its order, and never will be again. */
  lemma ConsumedIsNotLatest(events: map<nat, Event>, base: map<nat, Event>, e: nat, c: nat)
    requires e in events && Consumes(base, events[e], e) && ChatOf(events[e]) == Some(c)
    requires c in base && c in events && events[c] == base[c]
    ensures !IsLatest(events, events[e].order, c)
  {
    assert !Precedes(events[c], c, events[e], e);
  }

  predicate Unconsumed(events: map<nat, Event>, c: nat) {
    forall e | e in events && events[e].kind.IsComposite() :: ChatOf(events[e]) != Some(c)
  }

  lemma NoTwinGrows(events: map<nat, Event>, others: map<nat, Event>, e: nat, event: Event, c: nat)
    requires NoTwin(events, others) && Unconsumed(others, c) && ChatOf(event) == Some(c)
    ensures NoTwin(events[e := event], others)
  {
  }

  /** The re-read under the lock proves that nobody consumed the chat event: not a committed event, not
      this transaction, and no other one, since none of them holds the case. */
  lemma InsertIsNew(s: World, w: nat)
    requires Inv(s) && Enabled(s, w, Insert)
    ensures var c := s.workers[w].todo[0].evidence.chatEventId;
            Unconsumed(s.events, c) && Unconsumed(s.workers[w].events, c) &&
            forall v | 0 <= v < |s.workers| && v != w && s.workers[v].InTxn? :: Unconsumed(s.workers[v].events, c)
  {
    var k := s.workers[w];
    var item := k.todo[0];
    var c := item.evidence.chatEventId;
    assert WorkerOk(s, k) && ItemOk(s.events, item);
    var all := Visible(s, w);
    forall e | e in s.events && s.events[e].kind.IsComposite() ensures ChatOf(s.events[e]) != Some(c) {
      assert all[e] == s.events[e];
      if ChatOf(s.events[e]) == Some(c) { ConsumedIsNotLatest(all, s.events, e, c); }
    }
    forall e | e in k.events && k.events[e].kind.IsComposite() ensures ChatOf(k.events[e]) != Some(c) {
      if ChatOf(k.events[e]) == Some(c) { ConsumedIsNotLatest(all, s.events, e, c); }
    }
    forall v | 0 <= v < |s.workers| && v != w && s.workers[v].InTxn? ensures Unconsumed(s.workers[v].events, c) {
      assert PairOk(s.workers[w], s.workers[v]) && WorkerOk(s, s.workers[v]);
      forall e | e in s.workers[v].events ensures ChatOf(s.workers[v].events[e]) != Some(c) {
        assert s.workers[v].events[e].order in s.workers[v].held;
        assert Consumes(s.events, s.workers[v].events[e], e);
      }
    }
  }

  /** Facts about one worker survive when the committed events grow without touching its own. */
  lemma WorkerStaysOk(s: World, t: World, k: Worker)
    requires WorkerOk(s, k) && s.nextEvent <= t.nextEvent
    requires forall e | e in s.events :: e in t.events && t.events[e] == s.events[e]
    requires k.InTxn? ==> k.events.Keys !! t.events.Keys && NoTwin(k.events, t.events)
    ensures WorkerOk(t, k)
  {
    if k.InTxn? {
      forall e | e in k.events ensures Consumes(t.events, k.events[e], e) {
        assert Consumes(s.events, k.events[e], e);
      }
      forall i | 0 <= i < |k.todo| ensures ItemOk(t.events, k.todo[i]) {
        assert ItemOk(s.events, k.todo[i]);
      }
    } else if k.Scanned? {
      forall i | 0 <= i < |k.ready| ensures ItemOk(t.events, k.ready[i]) {
        assert ItemOk(s.events, k.ready[i]);
      }
    }
  }

  lemma LocalStep(s: World, w: nat, a: Action)
    requires Inv(s) && Enabled(s, w, a) && (a.Scan? || a.Begin? || a.Lock? || a.Skip? || a.Abort?)
    ensures Inv(Next(s, w, a))
  {
    var t := Next(s, w, a);
    assert WorkerOk(s, s.workers[w]);
    forall v | 0 <= v < |t.workers| ensures WorkerOk(t, t.workers[v]) {
      if v != w { WorkerStaysOk(s, t, s.workers[v]); }
    }
    forall u, v | 0 <= u < |t.workers| && 0 <= v < |t.workers| && u != v ensures PairOk(t.workers[u], t.workers[v]) {
      assert PairOk(s.workers[u], s.workers[v]);
    }
  }

  lemma OtherEventStep(s: World, w: nat, event: Event)
    requires Inv(s) && Enabled(s, w, OtherEvent(event))
    ensures Inv(Next(s, w, OtherEvent(event)))
  {
    var t := Next(s, w, OtherEvent(event));
    forall e | e in t.events ensures Consumes(t.events, t.events[e], e) {
      if e in s.events { assert Consumes(s.events, s.events[e], e); }
    }
    forall v | 0 <= v < |t.workers| ensures WorkerOk(t, t.workers[v]) {
      WorkerStaysOk(s, t, s.workers[v]);
    }
  }

  lemma InsertKeepsEvents(s: World, w: nat)
    requires Inv(s) && Enabled(s, w, Insert)
    ensures EventsOk(s.events, Next(s, w, Insert).workers[w].events, Next(s, w, Insert).nextEvent)
  {
    assert WorkerOk(s, s.workers[w]) && ItemOk(s.events, s.workers[w].todo[0]);
  }

  lemma RestIsOk(events: map<nat, Event>, items: seq<Item>)
    requires items != [] && ItemsOk(events, items)
    ensures ItemOk(events, items[0]) && ItemsOk(events, items[1..])
  {
    forall i | 0 <= i < |items[1..]| ensures ItemOk(events, items[1..][i]) {
      assert ItemOk(events, items[i + 1]);
    }
  }

  lemma InsertKeepsLocal(s: World, w: nat)
    requires Inv(s) && Enabled(s, w, Insert)
    ensures var t, k1 := Next(s, w, Insert), Next(s, w, Insert).workers[w];
            ItemsOk(t.events, k1.todo) && k1.events.Keys !! t.events.Keys && RowsMatch(k1.events, k1.rows) &&
            forall e | e in k1.events :: k1.events[e].order in k1.held && k1.events[e].kind.IsComposite()
  {
    var k := s.workers[w];
    assert WorkerOk(s, k);
    RestIsOk(s.events, k.todo);
  }

  lemma InsertWorker(s: World, w: nat)
    requires Inv(s) && Enabled(s, w, Insert)
    ensures WorkerOk(Next(s, w, Insert), Next(s, w, Insert).workers[w])
  {
    var t, k, item := Next(s, w, Insert), s.workers[w], s.workers[w].todo[0];
    var k1, c, event := t.workers[w], item.evidence.chatEventId, EventOf(item);
    assert WorkerOk(s, k) && ItemOk(s.events, item);
    assert NoTwin(k1.events, s.events) && NoTwin(k1.events, k1.events) by {
      InsertIsNew(s, w);
      NoTwinGrows(k.events, s.events, s.nextEvent, event, c);
      NoTwinGrows(k.events, k.events, s.nextEvent, event, c);
    }
    InsertKeepsEvents(s, w);
    InsertKeepsLocal(s, w);
  }

  lemma InsertPair(s: World, w: nat, v: nat)
    requires Inv(s) && Enabled(s, w, Insert) && v < |s.workers| && v != w
    ensures PairOk(Next(s, w, Insert).workers[w], s.workers[v]) && PairOk(s.workers[v], Next(s, w, Insert).workers[w])
  {
    var k, b, item := s.workers[w], s.workers[v], s.workers[w].todo[0];
    assert PairOk(k, b) && PairOk(b, k) && WorkerOk(s, b);
    if b.InTxn? {
      InsertIsNew(s, w);
      NoTwinGrows(k.events, b.events, s.nextEvent, EventOf(item), item.evidence.chatEventId);
    }
  }

  lemma InsertStep(s: World, w: nat)
    requires Inv(s) && Enabled(s, w, Insert)
    ensures Inv(Next(s, w, Insert))
  {
    var t := Next(s, w, Insert);
    InsertWorker(s, w);
    forall v | 0 <= v < |t.workers| && v != w ensures WorkerOk(t, t.workers[v]) {
      WorkerStaysOk(s, t, s.workers[v]);
    }
    forall u, v | 0 <= u < |t.workers| && 0 <= v < |t.workers| && u != v ensures PairOk(t.workers[u], t.workers[v]) {
      if u == w { InsertPair(s, w, v); } else if v == w { InsertPair(s, w, u); }
      else { assert PairOk(s.workers[u], s.workers[v]); }
    }
  }

  lemma CommitShared(s: World, w: nat)
    requires Inv(s) && Enabled(s, w, Commit)
    ensures var t := Next(s, w, Commit);
            EventsOk(t.events, t.events, t.nextEvent) && NoTwin(t.events, t.events) && RowsMatch(t.events, t.rows)
  {
    var t, k := Next(s, w, Commit), s.workers[w];
    assert WorkerOk(s, k);
    forall e | e in t.events ensures e < t.nextEvent && Consumes(t.events, t.events[e], e) {
      if e in k.events { assert Consumes(s.events, k.events[e], e); } else { assert Consumes(s.events, s.events[e], e); }
    }
  }

  lemma CommitOther(s: World, w: nat, v: nat)
    requires Inv(s) && Enabled(s, w, Commit) && v < |s.workers| && v != w
    ensures WorkerOk(Next(s, w, Commit), s.workers[v])
  {
    var t, k := Next(s, w, Commit), s.workers[v];
    assert WorkerOk(s, k) && WorkerOk(s, s.workers[w]) && PairOk(k, s.workers[w]);
    WorkerStaysOk(s, t, k);
  }

  /** Every step of every worker keeps the invariant. */
  lemma StepKeepsInv(s: World, w: nat, a: Action)
    requires Inv(s) && Enabled(s, w, a)
    ensures Inv(Next(s, w, a))
  {
    match a
    case Insert => InsertStep(s, w);
    case OtherEvent(event) => OtherEventStep(s, w, event);
    case Commit =>
      CommitShared(s, w);
      var t := Next(s, w, a);
      forall v | 0 <= v < |t.workers| ensures WorkerOk(t, t.workers[v]) {
        if v != w { CommitOther(s, w, v); }
      }
      forall u, v | 0 <= u < |t.workers| && 0 <= v < |t.workers| && u != v ensures PairOk(t.workers[u], t.workers[v]) {
        assert PairOk(s.workers[u], s.workers[v]);
      }
    case _ => LocalStep(s, w, a);
  }

  // ---------- whole interleavings ----------

  predicate StepAt(states: seq<World>, moves: seq<(nat, Action)>, n: nat)
    requires n < |moves| && |states| == |moves| + 1
  {
    Enabled(states[n], moves[n].0, moves[n].1) && states[n + 1] == Next(states[n], moves[n].0, moves[n].1)
  }

  predicate IsInterleaving(states: seq<World>, moves: seq<(nat, Action)>) {
    |states| == |moves| + 1 && Init(states[0]) && forall n | 0 <= n < |moves| :: StepAt(states, moves, n)
  }

  lemma {:induction false} InterleavingKeepsInv(states: seq<World>, moves: seq<(nat, Action)>, n: nat)
    requires IsInterleaving(states, moves) && n < |states|
    ensures Inv(states[n])
  {
    if n == 0 {
    } else {
      InterleavingKeepsInv(states, moves, n - 1);
      assert StepAt(states, moves, n - 1);
      StepKeepsInv(states[n - 1], moves[n - 1].0, moves[n - 1].1);
    }
  }

  /** Exactly once: in every interleaving of any number of workers, two composite outbox rows never stand
      for the same chat event. */
  lemma OneRowPerChatEvent(states: seq<World>, moves: seq<(nat, Action)>, n: nat, i: nat, j: nat)
    requires IsInterleaving(states, moves) && n < |states| && i < j < |states[n].rows|
    ensures states[n].rows[i].key.evidence.CompositeFacts? && states[n].rows[j].key.evidence.CompositeFacts?
    ensures states[n].rows[i].key.evidence.chatEventId != states[n].rows[j].key.evidence.chatEventId
  {
    InterleavingKeepsInv(states, moves, n);
    var s := states[n];
    assert ChatOf(s.events[s.rows[i].eventId]) != ChatOf(s.events[s.rows[j].eventId]);
  }

  /** Once a row for a chat event is committed, no scan gathers that chat event again: the composite event
      has become the latest one, and it is not a chat confirmation. */
  lemma ConsumedIsNeverGathered(states: seq<World>, moves: seq<(nat, Action)>, n: nat, i: nat, item: Item)
    requires IsInterleaving(states, moves) && n < |states| && i < |states[n].rows|
    requires item.evidence.CompositeFacts? && states[n].rows[i].key.evidence.CompositeFacts? &&
             item.evidence.chatEventId == states[n].rows[i].key.evidence.chatEventId
    ensures !Gathers(states[n].events, item)
  {
    InterleavingKeepsInv(states, moves, n);
    var s := states[n];
    var e := s.rows[i].eventId;
    if Gathers(s.events, item) {
      ConsumedIsNotLatest(s.events, s.events, e, item.evidence.chatEventId);
    }
  }
}
