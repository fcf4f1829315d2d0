/** What every database operation of the outbox keeps: script events and outbox rows stay in
    bijection, keys stay unique, and a row never changes its identity. */
module OutboxInvariant {
  import opened OrderDomain
  import opened StageOutbox

  /** A row agrees with its key, with its kind's target and with its event. */
  predicate RowOk(db: Db, row: Row) {
    row.kind.IsScript() && Fits(row.kind, row.key.evidence) &&
    row.key == Key(row.order, row.key.evidence, row.target) && row.target == row.kind.Target() &&
    row.eventId in db.events &&
    db.events[row.eventId].SameKey(KeyEvent(row))
  }

  /** The key of the event behind a row. */
  function KeyEvent(row: Row): Event {
    Event(row.order, row.kind, RefOf(row.kind, row.key.evidence), None, SourceOf(row.kind))
  }

  predicate HasRow(outbox: seq<Row>, e: nat) {
    exists i | 0 <= i < |outbox| :: outbox[i].eventId == e
  }

  predicate KeysUnique(outbox: seq<Row>) {
    forall i, j | 0 <= i < j < |outbox| ::
      outbox[i].key != outbox[j].key && outbox[i].eventId != outbox[j].eventId
  }

  predicate EventsUnique(events: map<nat, Event>) {
    forall a, b | a in events && b in events && a != b ::
      !events[a].SameKey(events[b])
  }

  predicate DbOk(db: Db) {
    && (forall i | 0 <= i < |db.outbox| :: RowOk(db, db.outbox[i]))
    && KeysUnique(db.outbox)
    && EventsUnique(db.events)
    && (forall e | e in db.events :: e < db.nextEvent)
    && (forall e | e in db.events && db.events[e].kind.IsScript() :: HasRow(db.outbox, e))
  }

  /** The evidence shape and the target together tell the mode that produced them. */
  lemma EvidenceTellsKind(a: EventKind, b: EventKind, evidence: Evidence)
    requires Fits(a, evidence) && Fits(b, evidence) && a.Target() == b.Target()
    ensures a == b
  {
  }

  /** A new database keeps every row of the old one in place, with its identity. */
  predicate RowsKept(before: seq<Row>, after: seq<Row>) {
    |before| <= |after| && forall i | 0 <= i < |before| :: after[i].SameIdentity(before[i])
  }

  /** Rows that were no longer open have not been touched. */
  predicate ClosedKept(before: seq<Row>, after: seq<Row>) {
    |before| <= |after| && forall i | 0 <= i < |before| && !before[i].Open() :: after[i] == before[i]
  }

  /** The rows a job works on, all with the job's target. */
  predicate IdsOk(outbox: seq<Row>, ids: seq<nat>, target: Stage) {
    forall k | 0 <= k < |ids| :: ids[k] < |outbox| && outbox[ids[k]].target == target
  }

  /** When a job is listed its rows are open. */
  predicate AllOpen(outbox: seq<Row>, ids: seq<nat>) {
    forall k | 0 <= k < |ids| :: ids[k] < |outbox| && outbox[ids[k]].Open()
  }

  lemma NewKeyIsFresh(db: Db, item: Item)
    requires DbOk(db) && Fits(item.kind, item.evidence)
    requires !HasEvent(db.events, EventOf(item))
    ensures forall i | 0 <= i < |db.outbox| ::
              db.outbox[i].key != KeyOf(item) && db.outbox[i].eventId != db.nextEvent
  {
    forall i | 0 <= i < |db.outbox|
      ensures db.outbox[i].key != KeyOf(item) && db.outbox[i].eventId != db.nextEvent
    {
      assert RowOk(db, db.outbox[i]);
      if db.outbox[i].key == KeyOf(item) {
        EvidenceTellsKind(db.outbox[i].kind, item.kind, item.evidence);
        assert false;
      }
    }
  }

  lemma HasRowGrows(outbox: seq<Row>, more: seq<Row>, e: nat)
    requires HasRow(outbox, e)
    ensures HasRow(outbox + more, e)
  {
    var i :| 0 <= i < |outbox| && outbox[i].eventId == e;
    assert (outbox + more)[i].eventId == e;
  }

  lemma EnqueueOneKeepsDb(db: Db, item: Item)
    requires DbOk(db) && Fits(item.kind, item.evidence)
    ensures var (db1, id) := EnqueueOne(db, item);
            DbOk(db1) && db.outbox <= db1.outbox && db1.cases.Keys == db.cases.Keys &&
            (id.Some? ==> id.value < |db1.outbox| && db1.outbox[id.value].key == KeyOf(item) &&
                          db1.outbox[id.value].Open() && db1.outbox[id.value].target == item.kind.Target())
  {
    var (db1, id) := EnqueueOne(db, item);
    if |db1.outbox| == |db.outbox| + 1 {
      NewKeyIsFresh(db, item);
      forall i | 0 <= i < |db.outbox| ensures RowOk(db1, db1.outbox[i]) {
        assert RowOk(db, db.outbox[i]);
      }
      forall e | e in db1.events && db1.events[e].kind.IsScript() ensures HasRow(db1.outbox, e) {
        if e == db.nextEvent {
          assert db1.outbox[|db.outbox|].eventId == e;
        } else {
          HasRowGrows(db.outbox, [db1.outbox[|db.outbox|]], e);
        }
      }
    }
  }

  /** Every collected id is an open row whose target is that of some item. */
  predicate Collected(outbox: seq<Row>, items: seq<Item>, ids: seq<nat>)
    requires ScriptItems(items)
  {
    forall k | 0 <= k < |ids| ::
      ids[k] < |outbox| && outbox[ids[k]].Open() &&
      exists m | 0 <= m < |items| :: outbox[ids[k]].target == items[m].kind.Target()
  }

  lemma CollectedGrows(outbox: seq<Row>, outbox1: seq<Row>, items: seq<Item>, item: Item, ids: seq<nat>)
    requires ScriptItems(items) && ScriptItems(items + [item])
    requires Collected(outbox, items, ids) && outbox <= outbox1
    ensures Collected(outbox1, items + [item], ids)
  {
    forall k | 0 <= k < |ids|
      ensures exists m | 0 <= m < |items + [item]| :: outbox1[ids[k]].target == (items + [item])[m].kind.Target()
    {
      var m :| 0 <= m < |items| && outbox[ids[k]].target == items[m].kind.Target();
      assert (items + [item])[m] == items[m];
    }
  }

  lemma {:induction false} EnqueueKeepsDb(db: Db, items: seq<Item>)
    requires DbOk(db) && ScriptItems(items)
    ensures var (db1, ids) := Enqueue(db, items);
            DbOk(db1) && db.outbox <= db1.outbox && db1.cases.Keys == db.cases.Keys &&
            Collected(db1.outbox, items, ids)
  {
    if items == [] {
    } else {
      var rest, item := items[..|items| - 1], items[|items| - 1];
      EnqueueKeepsDb(db, rest);
      var (dbA, idsA) := Enqueue(db, rest);
      EnqueueOneKeepsDb(dbA, item);
      var (dbB, id) := EnqueueOne(dbA, item);
      assert items == rest + [item];
      CollectedGrows(dbA.outbox, dbB.outbox, rest, item, idsA);
      assert Collected(dbB.outbox, items, Listed(id)) by {
        assert items[|items| - 1] == item;
      }
    }
  }

  lemma MarkKeepsDb(db: Db, deals: seq<Deal>, ids: seq<nat>, target: Stage)
    requires DbOk(db) && IdsOk(db.outbox, ids, target)
    ensures DbOk(db.(outbox := MarkAll(deals, db.outbox, ids, target)))
    ensures RowsKept(db.outbox, MarkAll(deals, db.outbox, ids, target))
  {
    var outbox := MarkAll(deals, db.outbox, ids, target);
    forall i | 0 <= i < |outbox| ensures outbox[i].SameIdentity(db.outbox[i]) && RowOk(db.(outbox := outbox), outbox[i]) {
      assert RowOk(db, db.outbox[i]);
    }
    forall e | e in db.events && db.events[e].kind.IsScript() ensures HasRow(outbox, e) {
      assert HasRow(db.outbox, e);
      var i :| 0 <= i < |db.outbox| && db.outbox[i].eventId == e;
      assert outbox[i].eventId == e;
    }
  }

  // ---------- enqueue is idempotent ----------

  predicate PlainItems(items: seq<Item>) {
    ScriptItems(items) && forall i | 0 <= i < |items| :: !items[i].kind.IsComposite()
  }

  /** `later` comes after `done`: open rows were marked, rows and events were added, no case came or went. */
  predicate Follows(done: Db, later: Db) {
    DbOk(later) && RowsKept(done.outbox, later.outbox) && ClosedKept(done.outbox, later.outbox) &&
    later.cases.Keys == done.cases.Keys &&
    forall e | e in done.events :: e in later.events && later.events[e] == done.events[e]
  }

  function StillOpen(outbox: seq<Row>, ids: seq<nat>): seq<nat>
    requires forall k | 0 <= k < |ids| :: ids[k] < |outbox|
  {
    if ids == [] then []
    else
      var n := |ids| - 1;
      StillOpen(outbox, ids[..n]) + (if outbox[ids[n]].Open() then [ids[n]] else [])
  }

  lemma {:induction false} KeyIsFoundOnce(outbox: seq<Row>, i: nat)
    requires i < |outbox| && KeysUnique(outbox)
    ensures FindKey(outbox, outbox[i].key) == Some(i)
  {
  }

  lemma EventHasKeyedRow(db: Db, item: Item)
    requires DbOk(db) && Fits(item.kind, item.evidence)
    requires HasEvent(db.events, EventOf(item))
    ensures FindKey(db.outbox, KeyOf(item)).Some?
  {
    var e :| e in db.events && db.events[e].SameKey(EventOf(item));
    assert HasRow(db.outbox, e);
    var i :| 0 <= i < |db.outbox| && db.outbox[i].eventId == e;
    assert RowOk(db, db.outbox[i]);
    assert db.outbox[i].key == KeyOf(item);
  }

  lemma EventStays(db: Db, later: Db, item: Item)
    requires HasEvent(db.events, EventOf(item))
    requires forall e | e in db.events :: e in later.events && later.events[e] == db.events[e]
    ensures HasEvent(later.events, EventOf(item))
  {
    var e :| e in db.events && db.events[e].SameKey(EventOf(item));
    assert e in later.events;
  }

  lemma RowStays(done: Db, later: Db, i: nat)
    requires Follows(done, later) && i < |done.outbox|
    ensures FindKey(later.outbox, done.outbox[i].key) == Some(i)
    ensures !done.outbox[i].Open() ==> !later.outbox[i].Open()
  {
    KeyIsFoundOnce(later.outbox, i);
  }

  lemma ReEnqueueOne(db: Db, item: Item, later: Db)
    requires DbOk(db) && Fits(item.kind, item.evidence) && !item.kind.IsComposite()
    requires Follows(EnqueueOne(db, item).0, later)
    ensures EnqueueOne(db, item).1.Some? ==> EnqueueOne(db, item).1.value < |later.outbox|
    ensures EnqueueOne(later, item) ==
            (later, var id := EnqueueOne(db, item).1;
                    if id.Some? && later.outbox[id.value].Open() then id else None)
  {
    if item.order in db.cases {
      if HasEvent(db.events, EventOf(item)) {
        ReEnqueueKnown(db, item, later);
      } else {
        ReEnqueueNew(db, item, later);
      }
    }
  }

  lemma ReEnqueueKnown(db: Db, item: Item, later: Db)
    requires DbOk(db) && Fits(item.kind, item.evidence) && !item.kind.IsComposite() && item.order in db.cases
    requires HasEvent(db.events, EventOf(item)) && Follows(db, later)
    ensures HasEvent(later.events, EventOf(item))
    ensures var i := FindKey(db.outbox, KeyOf(item));
            i.Some? && FindKey(later.outbox, KeyOf(item)) == i &&
            (!db.outbox[i.value].Open() ==> !later.outbox[i.value].Open())
  {
    EventHasKeyedRow(db, item);
    EventStays(db, later, item);
    RowStays(db, later, FindKey(db.outbox, KeyOf(item)).value);
  }

  lemma ReEnqueueNew(db: Db, item: Item, later: Db)
    requires DbOk(db) && Fits(item.kind, item.evidence) && !item.kind.IsComposite() && item.order in db.cases
    requires !HasEvent(db.events, EventOf(item))
    requires Follows(EnqueueOne(db, item).0, later)
    ensures HasEvent(later.events, EventOf(item))
    ensures FindKey(later.outbox, KeyOf(item)) == Some(|db.outbox|)
  {
    var done := EnqueueOne(db, item).0;
    assert done.events[db.nextEvent] == EventOf(item);
    EventStays(done, later, item);
    RowStays(done, later, |db.outbox|);
  }

  lemma FollowsEarlier(db: Db, item: Item, later: Db)
    requires DbOk(db) && Fits(item.kind, item.evidence) && Follows(EnqueueOne(db, item).0, later)
    ensures Follows(db, later)
  {
    EnqueueOneKeepsDb(db, item);
  }

  lemma {:induction false} StillOpenAppend(outbox: seq<Row>, ids: seq<nat>, id: Option<nat>)
    requires forall k | 0 <= k < |ids| :: ids[k] < |outbox|
    requires id.Some? ==> id.value < |outbox|
    ensures forall k | 0 <= k < |ids + Listed(id)| :: (ids + Listed(id))[k] < |outbox|
    ensures StillOpen(outbox, ids + Listed(id)) ==
            StillOpen(outbox, ids) + Listed(if id.Some? && outbox[id.value].Open() then id else None)
  {
    if id.Some? {
      assert (ids + Listed(id))[..|ids|] == ids;
    } else {
      assert ids + Listed(id) == ids;
    }
  }

  /** Enqueuing the same ready list again writes nothing and lists exactly the earlier ids that are
      still open, in the same order. */
  lemma {:induction false} ReEnqueueListsOpenIds(db: Db, items: seq<Item>, later: Db)
    requires DbOk(db) && PlainItems(items)
    requires Follows(Enqueue(db, items).0, later)
    ensures forall k | 0 <= k < |Enqueue(db, items).1| :: Enqueue(db, items).1[k] < |later.outbox|
    ensures Enqueue(later, items) == (later, StillOpen(later.outbox, Enqueue(db, items).1))
  {
    if items == [] {
    } else {
      var rest, item := items[..|items| - 1], items[|items| - 1];
      var (dbA, idsA) := Enqueue(db, rest);
      EnqueueKeepsDb(db, rest);
      FollowsEarlier(dbA, item, later);
      ReEnqueueListsOpenIds(db, rest, later);
      ReEnqueueOne(dbA, item, later);
      StillOpenAppend(later.outbox, idsA, EnqueueOne(dbA, item).1);
    }
  }

  /** A composite is enqueued once per chat event, for good: the event it wrote stands above the chat event, so
      in every later database the locked check refuses the same item, and no row is listed again. */
  lemma CompositeIsNotRepeated(db: Db, item: Item, later: Db)
    requires DbOk(db) && Fits(item.kind, item.evidence) && item.kind.IsComposite()
    requires item.order in db.cases && PassesLockedChecks(db, item) && !HasEvent(db.events, EventOf(item))
    requires db.events[item.evidence.chatEventId].at == Some(item.eventAt)
    requires Follows(EnqueueOne(db, item).0, later)
    ensures |EnqueueOne(db, item).0.outbox| == |db.outbox| + 1
    ensures EnqueueOne(later, item) == (later, None)
  {
    var e, c := db.nextEvent, item.evidence.chatEventId;
    assert EnqueueOne(db, item).0.events[e] == EventOf(item);
    assert later.events[e] == EventOf(item) && later.events[c] == db.events[c];
    assert !Precedes(later.events[c], c, later.events[e], e);
  }
}
