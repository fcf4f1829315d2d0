/** The receivable ledger sync: one long period is fetched and upserted in windows of a few days.  Times are
    seconds; a snapshot date is a day number. */
module SyncWindows {
  import opened OrderDomain

  const DAY: int := 86400
  const DEFAULT_CHUNK_DAYS: int := 1

  /** A half-open period; a missing bound does not limit it. */
  datatype Window = Window(start: Option<int>, end: Option<int>)

  predicate Covers(w: Window, at: int) {
    (w.start.Some? ==> w.start.value <= at) && (w.end.Some? ==> at < w.end.value)
  }

  function EffectiveEnd(end: Option<int>, snapshotDate: Option<int>): Option<int> {
    if end.None? && snapshotDate.Some? then Some((snapshotDate.value + 1) * DAY) else end
  }

  function ChunkSize(settingDays: int): int {
    (if settingDays > DEFAULT_CHUNK_DAYS then settingDays else DEFAULT_CHUNK_DAYS) * DAY
  }

  /** Window `k` starts `k` chunks after `start` and reaches to the next one, or to `end`. */
  predicate IsChunk(w: Window, start: int, end: int, chunk: int, k: int) {
    w == Window(Some(start + k * chunk), Some(if start + (k + 1) * chunk < end then start + (k + 1) * chunk else end))
  }

  /** Consecutive windows from `start` to `end`: no gap, no overlap, all but the last of full size. */
  predicate Tiles(windows: seq<Window>, start: int, end: int, chunk: int) {
    |windows| > 0 && (forall k | 0 <= k < |windows| :: IsChunk(windows[k], start, end, chunk, k)) &&
    start + (|windows| - 1) * chunk < end <= start + |windows| * chunk
  }

  /** `_build_receivable_sync_windows` */
  method BuildWindows(start: Option<int>, end: Option<int>, snapshotDate: Option<int>, settingDays: int)
    returns (windows: seq<Window>)
    ensures |windows| > 0
    ensures WindowsFor(windows, start, EffectiveEnd(end, snapshotDate), ChunkSize(settingDays))
  {
    var last := EffectiveEnd(end, snapshotDate);
    if start.None? || last.None? {
      return [Window(start, last)];
    }
    var chunk := ChunkSize(settingDays);
    if last.value - start.value <= chunk {
      return [Window(start, last)];
    }
    windows := [];
    var current := start.value;
    while current < last.value
      invariant forall k | 0 <= k < |windows| :: IsChunk(windows[k], start.value, last.value, chunk, k)
      invariant if current < last.value then current == start.value + |windows| * chunk
                else |windows| > 0 && current == last.value &&
                     start.value + (|windows| - 1) * chunk < last.value <= start.value + |windows| * chunk
      decreases last.value - current
    {
      NextChunk(|windows|, chunk);
      var next := if current + chunk < last.value then current + chunk else last.value;
      windows := windows + [Window(Some(current), Some(next))];
      current := next;
    }
  }

  lemma NextChunk(k: int, chunk: int)
    ensures (k + 1) * chunk == k * chunk + chunk
  {
  }

  lemma {:induction false} Multiples(a: int, b: int, chunk: int)
    requires a < b && chunk > 0
    ensures a * chunk + chunk <= b * chunk
    decreases b - a
  {
    NextChunk(a, chunk);
    if a + 1 < b {
      Multiples(a + 1, b, chunk);
    }
  }

  function CeilDiv(a: int, b: int): int
    requires b > 0
  {
    (a + b - 1) / b
  }

  /** The number of windows is the length divided by the chunk size, rounded up; their bounds meet. */
  lemma TilesCount(windows: seq<Window>, start: int, end: int, chunk: int)
    requires chunk > 0 && start < end && Tiles(windows, start, end, chunk)
    ensures |windows| == CeilDiv(end - start, chunk)
    ensures windows[0].start == Some(start) && windows[|windows| - 1].end == Some(end)
    ensures forall k | 0 <= k < |windows| - 1 :: windows[k].end == windows[k + 1].start
    ensures forall k | 0 <= k < |windows| - 1 :: windows[k].end.value - windows[k].start.value == chunk
    ensures 0 < windows[|windows| - 1].end.value - windows[|windows| - 1].start.value <= chunk
  {
    var n := |windows|;
    NextChunk(n - 1, chunk);
    assert IsChunk(windows[0], start, end, chunk, 0) && IsChunk(windows[n - 1], start, end, chunk, n - 1);
    Quotient(end - start + chunk - 1, n, chunk);
    forall k | 0 <= k < n - 1
      ensures windows[k].end == windows[k + 1].start && windows[k].end.value - windows[k].start.value == chunk
    {
      NextChunk(k, chunk);
      assert IsChunk(windows[k], start, end, chunk, k) && IsChunk(windows[k + 1], start, end, chunk, k + 1);
      if k + 1 < n - 1 {
        Multiples(k + 1, n - 1, chunk);
      }
    }
  }

  lemma Quotient(a: int, n: int, b: int)
    requires b > 0 && n * b <= a < n * b + b
    ensures a / b == n
  {
    var q, r := a / b, a % b;
    assert a == q * b + r;
    if q < n {
      Multiples(q, n, b);
    }
    if n < q {
      Multiples(n, q, b);
    }
  }

  lemma SomeWindow(windows: seq<Window>, start: int, end: int, chunk: int, at: int) returns (k: nat)
    requires chunk > 0 && start <= at < end && Tiles(windows, start, end, chunk)
    ensures k < |windows| && Covers(windows[k], at)
  {
    var n := |windows|;
    var q := (at - start) / chunk;
    assert at - start == q * chunk + (at - start) % chunk;
    if n <= q {
      if n < q {
        Multiples(n, q, chunk);
      }
      assert false;
    }
    NextChunk(q, chunk);
    k := q;
    assert IsChunk(windows[k], start, end, chunk, k);
  }

  lemma WindowsApart(windows: seq<Window>, start: int, end: int, chunk: int, at: int, i: nat, j: nat)
    requires chunk > 0 && Tiles(windows, start, end, chunk) && i < j < |windows|
    ensures !(Covers(windows[i], at) && Covers(windows[j], at))
  {
    NextChunk(i, chunk);
    Multiples(i, j, chunk);
    assert IsChunk(windows[i], start, end, chunk, i) && IsChunk(windows[j], start, end, chunk, j);
  }

  lemma WindowInside(windows: seq<Window>, start: int, end: int, chunk: int, at: int, k: nat)
    requires chunk > 0 && Tiles(windows, start, end, chunk) && k < |windows| && Covers(windows[k], at)
    ensures start <= at < end
  {
    assert IsChunk(windows[k], start, end, chunk, k);
    if k > 0 {
      Multiples(0, k, chunk);
    }
  }

  /** Every moment of the period lies in exactly one window, and no other moment lies in any. */
  lemma OneWindowEach(windows: seq<Window>, start: int, end: int, chunk: int, at: int)
    requires chunk > 0 && Tiles(windows, start, end, chunk)
    ensures start <= at < end <==> exists k | 0 <= k < |windows| :: Covers(windows[k], at)
    ensures forall i, j | 0 <= i < j < |windows| :: !(Covers(windows[i], at) && Covers(windows[j], at))
  {
    if start <= at < end {
      var k := SomeWindow(windows, start, end, chunk, at);
    }
    forall k | 0 <= k < |windows| && Covers(windows[k], at) ensures start <= at < end {
      WindowInside(windows, start, end, chunk, at, k);
    }
    forall i, j | 0 <= i < j < |windows| ensures !(Covers(windows[i], at) && Covers(windows[j], at)) {
      WindowsApart(windows, start, end, chunk, at, i, j);
    }
  }

  // ---------- fetching ----------

  /** The business key holds neither the time nor the amount of the event. */
  datatype LedgerEvent = LedgerEvent(key: string, at: int, body: string)

  predicate TimeOrdered(events: seq<LedgerEvent>) { forall i, j | 0 <= i < j < |events| :: events[i].at <= events[j].at }

  /** `fetch_receivable_events`: the events of a window, in source order. */
  function Fetch(source: seq<LedgerEvent>, w: Window): seq<LedgerEvent> {
    if source == [] then []
    else
      var e := source[|source| - 1];
      Fetch(source[..|source| - 1], w) + (if Covers(w, e.at) then [e] else [])
  }

  /** What the first `n` windows fetch, one after the other. */
  function FetchAll(source: seq<LedgerEvent>, windows: seq<Window>, n: nat): seq<LedgerEvent>
    requires n <= |windows|
  {
    if n == 0 then [] else FetchAll(source, windows, n - 1) + Fetch(source, windows[n - 1])
  }

  /** Two periods that meet: an ordered source is fetched in the same order in one go. */
  lemma {:induction false} FetchSplits(source: seq<LedgerEvent>, a: int, b: int, c: int)
    requires TimeOrdered(source) && a <= b <= c
    ensures Fetch(source, Window(Some(a), Some(c))) ==
            Fetch(source, Window(Some(a), Some(b))) + Fetch(source, Window(Some(b), Some(c)))
  {
    if source == [] {
    } else {
      var rest, e := source[..|source| - 1], source[|source| - 1];
      FetchSplits(rest, a, b, c);
      if a <= e.at < b {
        FetchNothing(rest, b, c, e.at);
      }
    }
  }

  lemma {:induction false} FetchNothing(source: seq<LedgerEvent>, b: int, c: int, at: int)
    requires at < b && forall k | 0 <= k < |source| :: source[k].at <= at
    ensures Fetch(source, Window(Some(b), Some(c))) == []
  {
    if source == [] {
    } else {
      FetchNothing(source[..|source| - 1], b, c, at);
    }
  }

  lemma {:induction false} FetchPrefix(source: seq<LedgerEvent>, windows: seq<Window>, start: int, end: int,
                                       chunk: int, n: nat)
    requires chunk > 0 && start < end && Tiles(windows, start, end, chunk) && 0 < n <= |windows| && TimeOrdered(source)
    ensures FetchAll(source, windows, n) == Fetch(source, Window(Some(start), windows[n - 1].end))
  {
    assert IsChunk(windows[n - 1], start, end, chunk, n - 1);
    if n == 1 {
      assert FetchAll(source, windows, 0) == [];
    } else {
      TilesCount(windows, start, end, chunk);
      FetchPrefix(source, windows, start, end, chunk, n - 1);
      assert windows[n - 2].end == windows[n - 1].start;
      Multiples(0, n - 1, chunk);
      NextChunk(n - 1, chunk);
      FetchSplits(source, start, windows[n - 1].start.value, windows[n - 1].end.value);
    }
  }

  /** The windows fetch exactly what one window over the whole period fetches, in the same order. */
  lemma {:induction false} WindowsFetchTheSame(source: seq<LedgerEvent>, windows: seq<Window>, start: int, end: int,
                                               chunk: int)
    requires chunk > 0 && start < end && Tiles(windows, start, end, chunk) && TimeOrdered(source)
    ensures FetchAll(source, windows, |windows|) == Fetch(source, Window(Some(start), Some(end)))
  {
    TilesCount(windows, start, end, chunk);
    FetchPrefix(source, windows, start, end, chunk, |windows|);
  }

  /** Whatever `BuildWindows` returned. */
  predicate WindowsFor(windows: seq<Window>, start: Option<int>, last: Option<int>, chunk: int) {
    if start.Some? && last.Some? && start.value < last.value then Tiles(windows, start.value, last.value, chunk)
    else windows == [Window(start, last)]
  }

  lemma {:induction false} AllAsOne(source: seq<LedgerEvent>, windows: seq<Window>, start: Option<int>,
                                    last: Option<int>, chunk: int)
    requires chunk > 0 && WindowsFor(windows, start, last, chunk) && TimeOrdered(source)
    ensures FetchAll(source, windows, |windows|) == Fetch(source, Window(start, last))
  {
    if start.Some? && last.Some? && start.value < last.value {
      WindowsFetchTheSame(source, windows, start.value, last.value, chunk);
    } else {
      assert FetchAll(source, windows, 0) == [];
    }
  }

  function Occurrences(events: seq<LedgerEvent>, e: LedgerEvent): nat {
    if events == [] then 0 else Occurrences(events[..|events| - 1], e) + (if events[|events| - 1] == e then 1 else 0)
  }

  lemma {:induction false} OccurrencesConcat(a: seq<LedgerEvent>, b: seq<LedgerEvent>, e: LedgerEvent)
    ensures Occurrences(a + b, e) == Occurrences(a, e) + Occurrences(b, e)
  {
    if b == [] {
      assert a + b == a;
    } else {
      OccurrencesConcat(a, b[..|b| - 1], e);
      assert (a + b)[..|a + b| - 1] == a + b[..|b| - 1];
    }
  }

  lemma {:induction false} FetchOccurrences(source: seq<LedgerEvent>, w: Window, e: LedgerEvent)
    ensures Occurrences(Fetch(source, w), e) == if Covers(w, e.at) then Occurrences(source, e) else 0
  {
    if source == [] {
    } else {
      FetchOccurrences(source[..|source| - 1], w, e);
      var last := source[|source| - 1];
      OccurrencesConcat(Fetch(source[..|source| - 1], w), if Covers(w, last.at) then [last] else [], e);
      assert Occurrences([last], e) == Occurrences([], e) + (if last == e then 1 else 0);
    }
  }

  /** In whatever order the source lists its events: each one of the period is fetched exactly once. */
  lemma {:induction false} FetchedOnce(source: seq<LedgerEvent>, windows: seq<Window>, start: int, end: int,
                                       chunk: int, e: LedgerEvent)
    requires chunk > 0 && Tiles(windows, start, end, chunk)
    ensures Occurrences(FetchAll(source, windows, |windows|), e) == if start <= e.at < end then Occurrences(source, e) else 0
  {
    if start <= e.at < end {
      var k := SomeWindow(windows, start, end, chunk, e.at);
      FetchedBy(source, windows, start, end, chunk, e, |windows|, k);
    } else {
      forall k: nat | k < |windows| ensures !Covers(windows[k], e.at) {
        if Covers(windows[k], e.at) {
          WindowInside(windows, start, end, chunk, e.at, k);
        }
      }
      FetchedByNone(source, windows, e, |windows|);
    }
  }

  lemma {:induction false} FetchedByNone(source: seq<LedgerEvent>, windows: seq<Window>, e: LedgerEvent, n: nat)
    requires n <= |windows| && forall k | 0 <= k < n :: !Covers(windows[k], e.at)
    ensures Occurrences(FetchAll(source, windows, n), e) == 0
  {
    if n == 0 {
    } else {
      FetchedByNone(source, windows, e, n - 1);
      FetchOccurrences(source, windows[n - 1], e);
      OccurrencesConcat(FetchAll(source, windows, n - 1), Fetch(source, windows[n - 1]), e);
    }
  }

  lemma {:induction false} FetchedBy(source: seq<LedgerEvent>, windows: seq<Window>, start: int, end: int, chunk: int,
                                     e: LedgerEvent, n: nat, k: nat)
    requires chunk > 0 && Tiles(windows, start, end, chunk) && k < n <= |windows| && Covers(windows[k], e.at)
    ensures Occurrences(FetchAll(source, windows, n), e) == Occurrences(source, e)
  {
    FetchOccurrences(source, windows[n - 1], e);
    OccurrencesConcat(FetchAll(source, windows, n - 1), Fetch(source, windows[n - 1]), e);
    if k == n - 1 {
      forall i: nat | i < k ensures !Covers(windows[i], e.at) {
        WindowsApart(windows, start, end, chunk, e.at, i, k);
      }
      FetchedByNone(source, windows, e, k);
    } else {
      WindowsApart(windows, start, end, chunk, e.at, k, n - 1);
      FetchedBy(source, windows, start, end, chunk, e, n - 1, k);
    }
  }

  // ---------- upserting ----------

  datatype Counts = Counts(processed: nat, inserted: nat, updated: nat, existing: nat)

  function Plus(a: Counts, b: Counts): Counts {
    Counts(a.processed + b.processed, a.inserted + b.inserted, a.updated + b.updated, a.existing + b.existing)
  }

  lemma PlusIsAssociative(a: Counts, b: Counts, c: Counts)
    ensures Plus(Plus(a, b), c) == Plus(a, Plus(b, c))
  {
  }

  const NONE: Counts := Counts(0, 0, 0, 0)

  type Rows = map<string, LedgerEvent>

  /** One event taken alone: inserted when its key is new, otherwise updated, or left alone when it is the same. */
  function UpsertOne(rows: Rows, e: LedgerEvent): (Rows, Counts) {
    (rows[e.key := e],
     if e.key !in rows then Counts(1, 1, 0, 0) else if rows[e.key] == e then Counts(1, 0, 0, 1) else Counts(1, 0, 1, 0))
  }

  /** The ledger after events upserted one by one, and what became of each. */
  function Upserted(rows: Rows, events: seq<LedgerEvent>): (Rows, Counts) {
    if events == [] then (rows, NONE)
    else
      var (rows1, c) := Upserted(rows, events[..|events| - 1]);
      var (rows2, c1) := UpsertOne(rows1, events[|events| - 1]);
      (rows2, Plus(c, c1))
  }

  predicate Occurs(events: seq<LedgerEvent>, key: string) { exists k | 0 <= k < |events| :: events[k].key == key }

  lemma OccursStep(front: seq<LedgerEvent>, e: LedgerEvent, key: string)
    ensures Occurs(front + [e], key) <==> Occurs(front, key) || e.key == key
  {
    var events := front + [e];
    assert events[|front|] == e && forall k | 0 <= k < |front| :: events[k] == front[k];
    if Occurs(front, key) {
      var k :| 0 <= k < |front| && front[k].key == key;
      assert events[k].key == key;
    }
  }

  /** No key that the ledger lacks occurs twice. */
  predicate NoNewTwice(rows: Rows, events: seq<LedgerEvent>) {
    forall i, j | 0 <= i < j < |events| && events[i].key == events[j].key :: events[i].key in rows
  }

  /** A batch under way: known keys are looked up once, before the first event; new rows wait for the flush. */
  datatype Batch = Batch(rows: Rows, added: seq<LedgerEvent>, counts: Counts)

  function Batched(rows: Rows, events: seq<LedgerEvent>): (b: Batch)
    ensures b.rows.Keys == rows.Keys && forall k | 0 <= k < |b.added| :: b.added[k].key !in rows
  {
    if events == [] then Batch(rows, [], NONE)
    else
      var b, e := Batched(rows, events[..|events| - 1]), events[|events| - 1];
      if e.key in rows
      then Batch(b.rows[e.key := e], b.added, Plus(b.counts, UpsertOne(b.rows, e).1))
      else Batch(b.rows, b.added + [e], Plus(b.counts, Counts(1, 1, 0, 0)))
  }

  function Flushed(b: Batch): Rows { b.rows + MapOf(b.added) }

  function MapOf(events: seq<LedgerEvent>): Rows {
    if events == [] then map[] else MapOf(events[..|events| - 1])[events[|events| - 1].key := events[|events| - 1]]
  }

  lemma {:induction false} MapOfKeys(events: seq<LedgerEvent>, key: string)
    ensures key in MapOf(events) <==> Occurs(events, key)
  {
    if events == [] {
      assert MapOf(events) == map[];
    } else {
      var front, e := events[..|events| - 1], events[|events| - 1];
      MapOfKeys(front, key);
      OccursStep(front, e, key);
      assert events == front + [e];
    }
  }

  predicate DistinctKeys(events: seq<LedgerEvent>) {
    forall i, j | 0 <= i < j < |events| :: events[i].key != events[j].key
  }

  lemma DistinctStep(front: seq<LedgerEvent>, e: LedgerEvent)
    ensures DistinctKeys(front + [e]) <==> DistinctKeys(front) && !Occurs(front, e.key)
  {
    var events := front + [e];
    assert events[|front|] == e && forall k | 0 <= k < |front| :: events[k] == front[k];
    if DistinctKeys(events) {
      forall i, j | 0 <= i < j < |front| ensures front[i].key != front[j].key {
        assert events[i].key != events[j].key;
      }
      forall k | 0 <= k < |front| ensures front[k].key != e.key {
        assert events[k].key != events[|front|].key;
      }
    }
  }

  /** The new rows are the events with unknown keys. */
  lemma {:induction false} AddedKeys(rows: Rows, events: seq<LedgerEvent>, key: string)
    requires key !in rows
    ensures Occurs(Batched(rows, events).added, key) <==> Occurs(events, key)
  {
    if events == [] {
      assert Batched(rows, events).added == [];
    } else {
      var front, e := events[..|events| - 1], events[|events| - 1];
      AddedKeys(rows, front, key);
      OccursStep(front, e, key);
      OccursStep(Batched(rows, front).added, e, key);
      assert events == front + [e];
    }
  }

  lemma {:induction false} FlushWorksIff(rows: Rows, events: seq<LedgerEvent>)
    ensures DistinctKeys(Batched(rows, events).added) <==> NoNewTwice(rows, events)
  {
    if events == [] {
      assert Batched(rows, events).added == [];
    } else {
      var front, e := events[..|events| - 1], events[|events| - 1];
      FlushWorksIff(rows, front);
      assert events == front + [e];
      NoNewTwiceStep(rows, front, e);
      DistinctStep(Batched(rows, front).added, e);
      if e.key !in rows {
        AddedKeys(rows, front, e.key);
      }
    }
  }

  lemma NoNewTwiceStep(rows: Rows, front: seq<LedgerEvent>, e: LedgerEvent)
    ensures NoNewTwice(rows, front + [e]) <==> NoNewTwice(rows, front) && (e.key in rows || !Occurs(front, e.key))
  {
    var events := front + [e];
    assert events[|front|] == e && forall k | 0 <= k < |front| :: events[k] == front[k];
    if NoNewTwice(rows, events) {
      forall i, j | 0 <= i < j < |front| && front[i].key == front[j].key ensures front[i].key in rows {
        assert events[i].key == events[j].key;
      }
      forall k | 0 <= k < |front| && e.key !in rows ensures front[k].key != e.key {
        assert events[k].key == front[k].key;
      }
    }
  }

  lemma FlushKnown(rows: Rows, added: seq<LedgerEvent>, e: LedgerEvent)
    requires e.key in rows && !Occurs(added, e.key)
    ensures rows[e.key := e] + MapOf(added) == (rows + MapOf(added))[e.key := e]
    ensures (rows + MapOf(added))[e.key] == rows[e.key]
  {
    MapOfKeys(added, e.key);
  }

  lemma FlushNew(rows: Rows, added: seq<LedgerEvent>, e: LedgerEvent)
    ensures rows + MapOf(added + [e]) == (rows + MapOf(added))[e.key := e]
  {
    assert (added + [e])[..|added|] == added;
  }

  lemma UpsertedStep(rows: Rows, front: seq<LedgerEvent>, e: LedgerEvent)
    ensures var (rows1, c) := Upserted(rows, front);
            Upserted(rows, front + [e]) == (rows1[e.key := e], Plus(c, UpsertOne(rows1, e).1))
  {
    assert (front + [e])[..|front|] == front;
  }

  /** A batch that can be flushed does what its events do one by one. */
  lemma {:induction false} BatchIsUpserted(rows: Rows, events: seq<LedgerEvent>)
    requires NoNewTwice(rows, events)
    ensures Upserted(rows, events) == (Flushed(Batched(rows, events)), Batched(rows, events).counts)
  {
    if events == [] {
      assert Flushed(Batched(rows, events)) == rows;
    } else {
      var front, e := events[..|events| - 1], events[|events| - 1];
      assert events == front + [e];
      NoNewTwiceStep(rows, front, e);
      BatchIsUpserted(rows, front);
      UpsertedStep(rows, front, e);
      BatchStep(rows, front, e);
    }
  }

  lemma {:induction false} BatchStep(rows: Rows, front: seq<LedgerEvent>, e: LedgerEvent)
    requires e.key in rows || !Occurs(front, e.key)
    ensures var b, b1 := Batched(rows, front), Batched(rows, front + [e]);
            Flushed(b1) == Flushed(b)[e.key := e] && b1.counts == Plus(b.counts, UpsertOne(Flushed(b), e).1)
  {
    var b := Batched(rows, front);
    assert (front + [e])[..|front|] == front;
    if e.key in rows {
      FlushKnown(b.rows, b.added, e);
    } else {
      FlushNew(b.rows, b.added, e);
      AddedKeys(rows, front, e.key);
      MapOfKeys(b.added, e.key);
    }
  }

  /** `upsert_receivable_ledger_events` and the flush, against a unique key: it fails, and changes nothing, if and
      only if a key the ledger lacks occurs twice in the batch. */
  method UpsertBatch(rows: Rows, events: seq<LedgerEvent>) returns (ok: bool, rows1: Rows, counts: Counts)
    ensures ok <==> NoNewTwice(rows, events)
    ensures ok ==> (rows1, counts) == Upserted(rows, events)
    ensures !ok ==> rows1 == rows
  {
    var known, added := rows, [];
    counts := NONE;
    for n := 0 to |events|
      invariant Batch(known, added, counts) == Batched(rows, events[..n])
    {
      var e := events[n];
      assert events[..n + 1][..n] == events[..n];
      if e.key in rows {
        counts := Plus(counts, if known[e.key] == e then Counts(1, 0, 0, 1) else Counts(1, 0, 1, 0));
        known := known[e.key := e];
      } else {
        counts, added := Plus(counts, Counts(1, 1, 0, 0)), added + [e];
      }
    }
    assert events[..|events|] == events;
    FlushWorksIff(rows, events);
    ok := DistinctKeys(added);
    if ok {
      BatchIsUpserted(rows, events);
      rows1 := known + MapOf(added);
    } else {
      rows1 := rows;
    }
  }

  /** Upserting in two portions is upserting at once, and the counts add up. */
  lemma {:induction false} UpsertedSplits(rows: Rows, a: seq<LedgerEvent>, b: seq<LedgerEvent>)
    ensures var (rows1, c1) := Upserted(rows, a);
            var (rows2, c2) := Upserted(rows1, b);
            Upserted(rows, a + b) == (rows2, Plus(c1, c2))
  {
    if b == [] {
      assert a + b == a;
    } else {
      var front, e := b[..|b| - 1], b[|b| - 1];
      UpsertedSplits(rows, a, front);
      assert (a + b)[..|a + b| - 1] == a + front && (a + b)[|a + b| - 1] == e;
      var (rows1, c1) := Upserted(rows, a);
      var (rows2, c2) := Upserted(rows1, front);
      PlusIsAssociative(c1, c2, UpsertOne(rows2, e).1);
    }
  }

  /** Each event is counted under one heading, and the ledger grows by the inserted ones. */
  lemma {:induction false} CountsAddUp(rows: Rows, events: seq<LedgerEvent>)
    ensures var c := Upserted(rows, events).1;
            c.processed == |events| == c.inserted + c.updated + c.existing
    ensures |Upserted(rows, events).0| == |rows| + Upserted(rows, events).1.inserted
  {
    if events == [] {
      assert Upserted(rows, events) == (rows, NONE);
    } else {
      CountsAddUp(rows, events[..|events| - 1]);
      var (rows1, c) := Upserted(rows, events[..|events| - 1]);
      var e := events[|events| - 1];
      assert rows1[e.key := e].Keys == rows1.Keys + {e.key};
      if e.key in rows1 {
        assert rows1.Keys + {e.key} == rows1.Keys;
      }
    }
  }

  // ---------- windows against one batch ----------

  predicate OccursTwice(events: seq<LedgerEvent>, key: string) {
    exists i, j | 0 <= i < j < |events| :: events[i].key == key && events[j].key == key
  }

  /** Every window's batch can be flushed on the ledger the windows before it left. */
  predicate ChunksFit(rows: Rows, source: seq<LedgerEvent>, windows: seq<Window>) {
    forall n | 0 <= n < |windows| :: ChunkFits(rows, source, windows, n)
  }

  predicate ChunkFits(rows: Rows, source: seq<LedgerEvent>, windows: seq<Window>, n: nat)
    requires n < |windows|
  {
    NoNewTwice(Upserted(rows, FetchAll(source, windows, n)).0, Fetch(source, windows[n]))
  }

  lemma {:induction false} UpsertedKeys(rows: Rows, events: seq<LedgerEvent>, key: string)
    ensures key in Upserted(rows, events).0 <==> key in rows || Occurs(events, key)
  {
    if events == [] {
      assert Upserted(rows, events).0 == rows;
    } else {
      var front, e := events[..|events| - 1], events[|events| - 1];
      UpsertedKeys(rows, front, key);
      OccursStep(front, e, key);
      UpsertedStep(rows, front, e);
      assert events == front + [e];
    }
  }

  /** Every new key that the window repeats has occurred in a window before. */
  ghost predicate RepeatsAreOld(rows: Rows, source: seq<LedgerEvent>, windows: seq<Window>, n: nat)
    requires n < |windows|
  {
    forall key | OccursTwice(Fetch(source, windows[n]), key) :: key in rows || Occurs(FetchAll(source, windows, n), key)
  }

  lemma {:induction false} ChunkFitsIff(rows: Rows, source: seq<LedgerEvent>, windows: seq<Window>, n: nat)
    requires n < |windows|
    ensures ChunkFits(rows, source, windows, n) <==> RepeatsAreOld(rows, source, windows, n)
  {
    var before, batch := FetchAll(source, windows, n), Fetch(source, windows[n]);
    forall key ensures key in Upserted(rows, before).0 <==> key in rows || Occurs(before, key) {
      UpsertedKeys(rows, before, key);
    }
    TwiceIsPair(Upserted(rows, before).0, batch);
  }

  /** The windows go through if and only if no new key occurs twice in the window where it occurs first. */
  lemma {:induction false} ChunksFitIff(rows: Rows, source: seq<LedgerEvent>, windows: seq<Window>)
    ensures ChunksFit(rows, source, windows) <==> forall n: nat | n < |windows| :: RepeatsAreOld(rows, source, windows, n)
  {
    forall n: nat | n < |windows|
      ensures ChunkFits(rows, source, windows, n) <==> RepeatsAreOld(rows, source, windows, n)
    {
      ChunkFitsIff(rows, source, windows, n);
    }
  }

  lemma TwiceIsPair(rows: Rows, events: seq<LedgerEvent>)
    ensures NoNewTwice(rows, events) <==> forall key | OccursTwice(events, key) :: key in rows
  {
    if forall key | OccursTwice(events, key) :: key in rows {
      forall i, j | 0 <= i < j < |events| && events[i].key == events[j].key ensures events[i].key in rows {
        assert OccursTwice(events, events[i].key);
      }
    }
  }

  lemma {:induction false} NoNewTwiceConcat(rows: Rows, a: seq<LedgerEvent>, b: seq<LedgerEvent>)
    requires NoNewTwice(rows, a + b)
    ensures NoNewTwice(rows, a) && NoNewTwice(rows, b)
  {
    var all := a + b;
    forall i, j | 0 <= i < j < |a| && a[i].key == a[j].key ensures a[i].key in rows {
      assert all[i] == a[i] && all[j] == a[j];
    }
    forall i, j | 0 <= i < j < |b| && b[i].key == b[j].key ensures b[i].key in rows {
      assert all[|a| + i] == b[i] && all[|a| + j] == b[j];
    }
  }

  lemma {:induction false} FitStepwise(rows: Rows, source: seq<LedgerEvent>, windows: seq<Window>, n: nat)
    requires n <= |windows| && NoNewTwice(rows, FetchAll(source, windows, n))
    ensures forall k: nat | k < n :: ChunkFits(rows, source, windows, k)
  {
    if n == 0 {
    } else {
      var before, batch := FetchAll(source, windows, n - 1), Fetch(source, windows[n - 1]);
      NoNewTwiceConcat(rows, before, batch);
      FitStepwise(rows, source, windows, n - 1);
      forall i, j | 0 <= i < j < |batch| && batch[i].key == batch[j].key
        ensures batch[i].key in Upserted(rows, before).0
      {
        UpsertedKeys(rows, before, batch[i].key);
      }
    }
  }

  /** Ledger and counts after one batch, and after the windows; nothing when a batch fails. */
  function OneShot(rows: Rows, events: seq<LedgerEvent>): Option<(Rows, Counts)> {
    if NoNewTwice(rows, events) then Some(Upserted(rows, events)) else None
  }

  function Chunked(rows: Rows, source: seq<LedgerEvent>, windows: seq<Window>): Option<(Rows, Counts)> {
    if ChunksFit(rows, source, windows) then Some(Upserted(rows, FetchAll(source, windows, |windows|))) else None
  }

  /** The windows do what one batch for the whole period does if and only if no key that the ledger lacks occurs
      twice in the period; otherwise the one batch fails, and the windows go through if and only if each such key
      has occurred in an earlier window. */
  lemma {:induction false} ChunkedIsOneShotIff(rows: Rows, source: seq<LedgerEvent>, windows: seq<Window>,
                                               start: Option<int>, last: Option<int>, chunk: int)
    requires chunk > 0 && WindowsFor(windows, start, last, chunk) && TimeOrdered(source)
    ensures var period := Fetch(source, Window(start, last));
            OneShot(rows, period).Some? && Chunked(rows, source, windows) == OneShot(rows, period) <==>
            forall key | OccursTwice(period, key) :: key in rows
    ensures var period := Fetch(source, Window(start, last));
            OneShot(rows, period).None? <==> exists key | OccursTwice(period, key) :: key !in rows
    ensures Chunked(rows, source, windows).Some? <==>
            forall n: nat | n < |windows| :: RepeatsAreOld(rows, source, windows, n)
  {
    AllAsOne(source, windows, start, last, chunk);
    TwiceIsPair(rows, Fetch(source, Window(start, last)));
    ChunksFitIff(rows, source, windows);
    if NoNewTwice(rows, Fetch(source, Window(start, last))) {
      FitStepwise(rows, source, windows, |windows|);
    }
  }

  /** A new key on two days: the windows insert it and then update it, one batch cannot. */
  lemma {:induction false} DaysSaveRepeats(key: string, was: string, now: string)
    ensures var source := [LedgerEvent(key, 0, was), LedgerEvent(key, DAY, now)];
            var windows := [Window(Some(0), Some(DAY)), Window(Some(DAY), Some(2 * DAY))];
            Tiles(windows, 0, 2 * DAY, DAY) && ChunksFit(map[], source, windows) &&
            !NoNewTwice(map[], Fetch(source, Window(Some(0), Some(2 * DAY))))
  {
    var a, b := LedgerEvent(key, 0, was), LedgerEvent(key, DAY, now);
    var source := [a, b];
    var windows := [Window(Some(0), Some(DAY)), Window(Some(DAY), Some(2 * DAY))];
    FetchPair(a, b, windows[0]);
    FetchPair(a, b, windows[1]);
    FetchPair(a, b, Window(Some(0), Some(2 * DAY)));
    assert [a, b][0].key == [a, b][1].key == key;
    forall n | 0 <= n < |windows| ensures ChunkFits(map[], source, windows, n) {
      assert |Fetch(source, windows[n])| == 1;
    }
    assert IsChunk(windows[0], 0, 2 * DAY, DAY, 0) && IsChunk(windows[1], 0, 2 * DAY, DAY, 1);
  }

  lemma {:induction false} FetchPair(a: LedgerEvent, b: LedgerEvent, w: Window)
    ensures Fetch([a, b], w) ==
            if Covers(w, a.at) then if Covers(w, b.at) then [a, b] else [a] else if Covers(w, b.at) then [b] else []
  {
    assert [a, b][..1] == [a] && [a][..0] == [];
    assert Fetch([], w) == [];
    assert Fetch([a], w) == if Covers(w, a.at) then [a] else [];
  }

  // ---------- the sync ----------

  /** What one `sync_receivable_ledger` call reports besides the counts. */
  datatype Report = Report(counts: Counts, assignments: nat, snapshots: nat, cases: nat, reset: nat)

  /** The counts are summed elsewhere; `reset` is the first call's, everything else the last call's. */
  ghost predicate Aggregates(total: Report, calls: seq<(Option<int>, Report)>) {
    calls != [] ==> total == calls[|calls| - 1].1.(counts := total.counts, reset := calls[0].1.reset)
  }

  /** Only the last of `n` calls is given the snapshot date. */
  ghost predicate DatedLast(calls: seq<(Option<int>, Report)>, snapshotDate: Option<int>, n: nat) {
    forall k | 0 <= k < |calls| :: calls[k].0 == if k == n - 1 then snapshotDate else None
  }

  ghost predicate Became(before: Rows, after: Rows, counts: Counts, events: seq<LedgerEvent>) {
    (after, counts) == Upserted(before, events)
  }

  lemma BecameMore(rows0: Rows, rows1: Rows, rows2: Rows, c1: Counts, c2: Counts, a: seq<LedgerEvent>,
                   b: seq<LedgerEvent>)
    requires Became(rows0, rows1, c1, a) && Became(rows1, rows2, c2, b)
    ensures Became(rows0, rows2, Plus(c1, c2), a + b)
  {
    UpsertedSplits(rows0, a, b);
  }

  /** The ledger after the first `n` windows. */
  ghost predicate Synced(before: Rows, after: Rows, counts: Counts, source: seq<LedgerEvent>, windows: seq<Window>,
                         n: nat) {
    n <= |windows| && Became(before, after, counts, FetchAll(source, windows, n)) &&
    forall k: nat | k < n :: ChunkFits(before, source, windows, k)
  }

  lemma {:induction false} Nothing(rows: Rows, source: seq<LedgerEvent>, windows: seq<Window>)
    ensures Synced(rows, rows, NONE, source, windows, 0)
  {
  }

  lemma {:induction false} SyncedMore(rows0: Rows, rows1: Rows, rows2: Rows, c1: Counts, c2: Counts,
                                      source: seq<LedgerEvent>, windows: seq<Window>, n: nat)
    requires Synced(rows0, rows1, c1, source, windows, n) && n < |windows|
    requires NoNewTwice(rows1, Fetch(source, windows[n])) && Became(rows1, rows2, c2, Fetch(source, windows[n]))
    ensures Synced(rows0, rows2, Plus(c1, c2), source, windows, n + 1)
  {
    BecameMore(rows0, rows1, rows2, c1, c2, FetchAll(source, windows, n), Fetch(source, windows[n]));
  }

  class Ledger {
    var rows: Rows

    /** The snapshot date each committed call was given, and what it reported. */
    ghost var calls: seq<(Option<int>, Report)>

    constructor (rows: Rows)
      ensures this.rows == rows && calls == []
    {
      this.rows, calls := rows, [];
    }

    /** `sync_receivable_ledger` and the commit; the events come as a list, so they are one batch.  When it raises,
        the session ends without a commit. */
    method Sync(events: seq<LedgerEvent>, snapshotDate: Option<int>) returns (ok: bool, r: Report)
      modifies this
      ensures ok <==> NoNewTwice(old(rows), events)
      ensures ok ==> Became(old(rows), rows, r.counts, events) && calls == old(calls) + [(snapshotDate, r)]
      ensures !ok ==> rows == old(rows) && calls == old(calls)
    {
      var rows1, counts;
      ok, rows1, counts := UpsertBatch(rows, events);
      var a, s, c, d: nat := *, *, *, *;
      r := Report(counts, a, s, c, d);
      if ok {
        rows, calls := rows1, calls + [(snapshotDate, r)];
      }
    }

    /** One turn of the chunk loop: fetch, sync, aggregate. */
    method SyncNext(source: seq<LedgerEvent>, windows: seq<Window>, n: nat, snapshotDate: Option<int>, total: Report,
                    ghost rows0: Rows)
      returns (ok: bool, total1: Report)
      requires n < |windows| && Halfway(rows0, rows, calls, total, source, windows, snapshotDate, n)
      modifies this
      ensures ok <==> ChunkFits(rows0, source, windows, n)
      ensures Halfway(rows0, rows, calls, total1, source, windows, snapshotDate, if ok then n + 1 else n)
    {
      var events := Fetch(source, windows[n]);
      ghost var before := rows;
      var r;
      ok, r := Sync(events, if n + 1 == |windows| then snapshotDate else None);
      total1 := total;
      if ok {
        total1 := Report(Plus(total.counts, r.counts), r.assignments, r.snapshots, r.cases,
                         if n == 0 then r.reset else total.reset);
        HalfwayMore(rows0, before, rows, old(calls), total, source, windows, snapshotDate, n, r, total1);
      }
    }

    /** The chunk loop; it ends at the first window that fails. */
    method SyncAll(source: seq<LedgerEvent>, windows: seq<Window>, snapshotDate: Option<int>)
      returns (ok: bool, total: Report)
      requires calls == []
      modifies this
      ensures |calls| <= |windows| && Halfway(old(rows), rows, calls, total, source, windows, snapshotDate, |calls|)
      ensures if ok then |calls| == |windows|
              else |calls| < |windows| && !ChunkFits(old(rows), source, windows, |calls|)
    {
      total := Report(NONE, 0, 0, 0, 0);
      NothingYet(rows, total, source, windows, snapshotDate);
      for n := 0 to |windows|
        invariant Halfway(old(rows), rows, calls, total, source, windows, snapshotDate, n)
      {
        ok, total := SyncNext(source, windows, n, snapshotDate, total, old(rows));
        if !ok {
          return;
        }
      }
      ok := true;
    }

    /** `run_receivable_ledger_sync`: its windows and the chunk loop.  It goes through if and only if no new key
        occurs twice in the window of its first occurrence; otherwise the windows before that one are committed. */
    method Run(source: seq<LedgerEvent>, start: Option<int>, end: Option<int>, snapshotDate: Option<int>,
               settingDays: int)
      returns (ok: bool, total: Report, windows: seq<Window>)
      requires calls == []
      modifies this
      ensures |windows| > 0 && WindowsFor(windows, start, EffectiveEnd(end, snapshotDate), ChunkSize(settingDays))
      ensures ok <==> ChunksFit(old(rows), source, windows)
      ensures |calls| <= |windows| && DatedLast(calls, snapshotDate, |windows|) && Aggregates(total, calls)
      ensures Became(old(rows), rows, total.counts, FetchAll(source, windows, |calls|))
      ensures if ok then |calls| == |windows|
              else |calls| < |windows| && !ChunkFits(old(rows), source, windows, |calls|)
      ensures ok && TimeOrdered(source) ==>
                Became(old(rows), rows, total.counts, Fetch(source, Window(start, EffectiveEnd(end, snapshotDate))))
    {
      windows := BuildWindows(start, end, snapshotDate, settingDays);
      ok, total := SyncAll(source, windows, snapshotDate);
      if TimeOrdered(source) {
        AllAsOne(source, windows, start, EffectiveEnd(end, snapshotDate), ChunkSize(settingDays));
      }
    }
  }

  /** The state of the chunk loop after `n` windows. */
  ghost predicate Halfway(rows0: Rows, rows: Rows, calls: seq<(Option<int>, Report)>, total: Report,
                          source: seq<LedgerEvent>, windows: seq<Window>, snapshotDate: Option<int>, n: nat) {
    |calls| == n && DatedLast(calls, snapshotDate, |windows|) && Aggregates(total, calls) &&
    Synced(rows0, rows, total.counts, source, windows, n)
  }

  lemma {:induction false} NothingYet(rows: Rows, total: Report, source: seq<LedgerEvent>, windows: seq<Window>,
                                      snapshotDate: Option<int>)
    requires total.counts == NONE
    ensures Halfway(rows, rows, [], total, source, windows, snapshotDate, 0)
  {
    Nothing(rows, source, windows);
  }

  lemma {:induction false} CallsMore(calls: seq<(Option<int>, Report)>, total: Report, snapshotDate: Option<int>,
                                     n: nat, r: Report, total1: Report)
    requires |calls| < n && DatedLast(calls, snapshotDate, n) && Aggregates(total, calls)
    requires total1 == r.(counts := total1.counts, reset := if |calls| == 0 then r.reset else total.reset)
    ensures var more := calls + [(if |calls| + 1 == n then snapshotDate else None, r)];
            DatedLast(more, snapshotDate, n) && Aggregates(total1, more)
  {
  }

  lemma {:induction false} HalfwayMore(rows0: Rows, rows1: Rows, rows2: Rows, calls: seq<(Option<int>, Report)>,
                                       total: Report, source: seq<LedgerEvent>, windows: seq<Window>,
                                       snapshotDate: Option<int>, n: nat, r: Report, total1: Report)
    requires n < |windows| && Halfway(rows0, rows1, calls, total, source, windows, snapshotDate, n)
    requires NoNewTwice(rows1, Fetch(source, windows[n])) && Became(rows1, rows2, r.counts, Fetch(source, windows[n]))
    requires total1 == r.(counts := Plus(total.counts, r.counts), reset := if n == 0 then r.reset else total.reset)
    ensures Halfway(rows0, rows2, calls + [(if n + 1 == |windows| then snapshotDate else None, r)], total1, source, windows,
                    snapshotDate, n + 1)
  {
    SyncedMore(rows0, rows1, rows2, total.counts, r.counts, source, windows, n);
    CallsMore(calls, total, snapshotDate, |windows|, r, total1);
  }
}
