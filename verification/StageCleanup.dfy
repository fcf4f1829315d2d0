/** Emptying and deleting stages that are no longer wanted: `cleanup_extra_stages` of the card balance process. */
module StageCleanup {
  import opened OrderDomain
  import opened StageBoard

  // ---------- cleanup of extra stages ----------

  predicate Kept(statusId: string, keep: set<string>) { statusId == "" || statusId in keep }

  /** `v` comes from `start`: the same items, each where it was or in one of the targets, no stage added, and
      every kept stage still there. */
  predicate Comes(start: View, v: View, keep: set<string>, targets: set<string>) {
    SameCards(start.cards, v.cards) && UniqueStages(v.stages) &&
    (forall s | s in v.stages :: s in start.stages) &&
    (forall s | s in start.stages && Kept(s.statusId, keep) :: s in v.stages) &&
    forall k | 0 <= k < |v.cards| :: v.cards[k].stage == start.cards[k].stage || v.cards[k].stage in targets
  }

  /** And nobody is stranded. */
  predicate Safe(start: View, v: View, keep: set<string>, targets: set<string>) {
    Comes(start, v, keep, targets) && Housed(v)
  }

  /** Every board recorded between `earlier` and `later` was safe. */
  ghost predicate SafeSince(start: View, earlier: seq<View>, later: seq<View>, keep: set<string>,
                            targets: set<string>) {
    |earlier| <= |later| && later[..|earlier|] == earlier &&
    forall n | |earlier| <= n < |later| :: Safe(start, later[n], keep, targets)
  }

  lemma SafeSinceGrows(start: View, h0: seq<View>, h1: seq<View>, h2: seq<View>, keep: set<string>,
                       targets: set<string>)
    requires SafeSince(start, h0, h1, keep, targets) && SafeSince(start, h1, h2, keep, targets)
    ensures SafeSince(start, h0, h2, keep, targets)
  {
    assert h2[..|h0|] == h2[..|h1|][..|h0|];
    forall n | |h0| <= n < |h2| ensures Safe(start, h2[n], keep, targets) {
      if n < |h1| { assert h2[n] == h2[..|h1|][n] == h1[n]; }
    }
  }

  lemma HousedAfterMoves(before: View, after: View, target: string)
    requires Housed(before) && Follows(before, after, target) && HasStage(before.stages, target)
    ensures Housed(after)
  {
    forall k | 0 <= k < |after.cards| ensures HasStage(after.stages, after.cards[k].stage) {
      assert HasStage(before.stages, before.cards[k].stage);
    }
  }

  lemma ComesAfterMoves(start: View, before: View, after: View, keep: set<string>, targets: set<string>, target: string)
    requires Comes(start, before, keep, targets) && Follows(before, after, target) && target in targets
    ensures Comes(start, after, keep, targets)
    ensures Housed(before) && HasStage(before.stages, target) ==> Housed(after)
  {
    if Housed(before) && HasStage(before.stages, target) {
      HousedAfterMoves(before, after, target);
    }
  }

  /** A stage without items can go. */
  lemma HousedAfterDelete(v: View, s: BoardStage)
    requires Housed(v) && UniqueStages(v.stages)
    requires forall t | t in v.stages && t.dbId == s.dbId :: t.statusId == s.statusId
    requires forall k | 0 <= k < |v.cards| :: v.cards[k].stage != s.statusId
    ensures Housed(View(WithoutStage(v.stages, s.dbId), v.cards))
  {
    WithoutStageMembers(v.stages, s.dbId);
    var rest := WithoutStage(v.stages, s.dbId);
    forall k | 0 <= k < |v.cards| ensures HasStage(rest, v.cards[k].stage) {
      assert HasStage(v.stages, v.cards[k].stage);
      var m :| 0 <= m < |v.stages| && v.stages[m].statusId == v.cards[k].stage;
      assert v.stages[m] in rest;
      var n :| 0 <= n < |rest| && rest[n] == v.stages[m];
    }
  }

  lemma ComesAfterDelete(start: View, before: View, s: BoardStage, keep: set<string>, targets: set<string>)
    requires Comes(start, before, keep, targets) && UniqueStages(start.stages)
    requires s in start.stages && !Kept(s.statusId, keep)
    requires forall k | 0 <= k < |before.cards| :: before.cards[k].stage != s.statusId
    ensures Comes(start, View(WithoutStage(before.stages, s.dbId), before.cards), keep, targets)
    ensures Housed(before) ==> Housed(View(WithoutStage(before.stages, s.dbId), before.cards))
  {
    WithoutStageMembers(before.stages, s.dbId);
    forall t | t in start.stages && t.dbId == s.dbId ensures t == s {}
    if Housed(before) {
      HousedAfterDelete(before, s);
    }
  }

  /** The same without the promise that the stage is empty. */
  lemma ComesAfterForcedDelete(start: View, before: View, s: BoardStage, keep: set<string>, targets: set<string>)
    requires Comes(start, before, keep, targets) && UniqueStages(start.stages)
    requires s in start.stages && !Kept(s.statusId, keep)
    ensures Comes(start, View(WithoutStage(before.stages, s.dbId), before.cards), keep, targets)
  {
    WithoutStageMembers(before.stages, s.dbId);
    forall t | t in start.stages && t.dbId == s.dbId ensures t == s {}
  }

  lemma SameStage(stages: seq<BoardStage>, s: BoardStage, t: BoardStage)
    requires UniqueStages(stages) && s in stages && t in stages && s.dbId == t.dbId
    ensures s == t
  {
  }

  lemma KeptStageStands(start: View, v: View, keep: set<string>, targets: set<string>, target: string)
    requires Comes(start, v, keep, targets) && target in keep && HasStage(start.stages, target)
    ensures HasStage(v.stages, target)
  {
    var k :| 0 <= k < |start.stages| && start.stages[k].statusId == target;
    assert start.stages[k] in v.stages;
    var m :| 0 <= m < |v.stages| && v.stages[m] == start.stages[k];
  }

  /** The target is kept and on the board, so what is moved there stays. */
  predicate Stands(start: View, keep: set<string>, target: string) {
    target in keep && HasStage(start.stages, target)
  }

  /** The items `ids` went to `target`, the others stayed. */
  predicate Carried(before: seq<Card>, after: seq<Card>, ids: seq<int>, target: string) {
    |after| == |before| &&
    forall k | 0 <= k < |before| ::
      after[k] == if before[k].id in ids then before[k].(stage := target) else before[k]
  }

  /** Move the listed items of a stage to `target`, then delete it; stop at the first call that fails.  With a
      target that stands, every recorded board is safe. */
  method EmptyAndDelete(board: Board, s: BoardStage, ids: seq<int>, target: string, ghost keep: set<string>,
                        ghost targets: set<string>, ghost start: View)
    returns (emptied: bool, deleted: bool)
    requires UniqueStages(start.stages) && Comes(start, View(board.stages, board.cards), keep, targets)
    requires s in start.stages && !Kept(s.statusId, keep) && ids == IdsIn(board.cards, s.statusId)
    requires ids != [] ==> target in targets
    modifies board
    ensures Comes(start, View(board.stages, board.cards), keep, targets)
    ensures (ids == [] || Stands(start, keep, target)) && old(Housed(View(board.stages, board.cards))) ==>
              Housed(View(board.stages, board.cards)) &&
              SafeSince(start, old(board.history), board.history, keep, targets)
    ensures board.reliable ==> Carried(old(board.cards), board.cards, ids, target)
    ensures board.reliable && s in old(board.stages) ==> deleted
    ensures deleted ==> emptied && s in old(board.stages) && board.stages == WithoutStage(old(board.stages), s.dbId)
    ensures !deleted ==> board.stages in {old(board.stages), WithoutStage(old(board.stages), s.dbId)}
  {
    ghost var before := View(board.stages, board.cards);
    ghost var stands := (ids == [] || Stands(start, keep, target)) && Housed(before);
    emptied, deleted := true, false;
    if ids != [] {
      if stands { KeptStageStands(start, before, keep, targets, target); }
      emptied := board.MoveAll(ids, target);
      forall v | Follows(before, v, target)
        ensures Comes(start, v, keep, targets) && (stands ==> Housed(v))
      {
        ComesAfterMoves(start, before, v, keep, targets, target);
      }
      if !emptied {
        return;
      }
    }
    if stands { EmptiedHere(before, View(board.stages, board.cards), s, ids, target, keep); }
    ghost var emptyBoard := View(board.stages, board.cards);
    DeletionIsFine(start, emptyBoard, s, keep, targets, stands);
    deleted := board.DeleteStage(s.dbId);
    if deleted {
      ghost var t :| t in emptyBoard.stages && t.dbId == s.dbId;
      SameStage(start.stages, s, t);
    }
  }

  /** Nothing is left in a stage whose items were moved elsewhere. */
  lemma {:induction false} EmptiedHere(before: View, now: View, s: BoardStage, ids: seq<int>, target: string,
                                       keep: set<string>)
    requires SameCards(before.cards, now.cards) && ids == IdsIn(before.cards, s.statusId) && !Kept(s.statusId, keep)
    requires ids == [] || target in keep
    requires ids == [] ==> now == before
    requires ids != [] ==> forall k | 0 <= k < |now.cards| ::
               if now.cards[k].id in ids then now.cards[k].stage == target else now.cards[k] == before.cards[k]
    ensures forall k | 0 <= k < |now.cards| :: now.cards[k].stage != s.statusId
  {
    IdsInMembers(before.cards, s.statusId);
    forall k | 0 <= k < |now.cards| ensures now.cards[k].stage != s.statusId {
      if before.cards[k].stage == s.statusId { assert before.cards[k].id in ids; }
    }
  }

  lemma DeletionIsFine(start: View, now: View, s: BoardStage, keep: set<string>, targets: set<string>, stands: bool)
    requires Comes(start, now, keep, targets) && UniqueStages(start.stages)
    requires s in start.stages && !Kept(s.statusId, keep)
    requires stands ==> Housed(now) && forall k | 0 <= k < |now.cards| :: now.cards[k].stage != s.statusId
    ensures Comes(start, View(WithoutStage(now.stages, s.dbId), now.cards), keep, targets)
    ensures stands ==> Housed(View(WithoutStage(now.stages, s.dbId), now.cards))
  {
    if stands {
      ComesAfterDelete(start, now, s, keep, targets);
    } else {
      ComesAfterForcedDelete(start, now, s, keep, targets);
    }
  }

  datatype Outcome = Deleted | SkippedNonEmpty | SkippedError

  datatype Report = Report(deleted: seq<string>, moved: seq<(string, nat)>, nonEmpty: seq<string>, errors: seq<string>)

  function Targets(fallback: Option<string>): set<string> { if fallback.Some? then {fallback.value} else {} }

  /** An empty id is no fallback. */
  function Usable(fallback: Option<string>): Option<string> { if fallback == Some("") then None else fallback }

  predicate FallbackStands(start: View, keep: set<string>, fallback: Option<string>) {
    fallback.Some? ==> Stands(start, keep, fallback.value)
  }

  /** The body of the clean-up loop for one extra stage. */
  method HandleStage(board: Board, s: BoardStage, keep: set<string>, fallback: Option<string>, ghost start: View)
    returns (outcome: Outcome, moved: Option<nat>)
    requires UniqueStages(start.stages) && Comes(start, View(board.stages, board.cards), keep, Targets(fallback))
    requires s in start.stages && !Kept(s.statusId, keep)
    modifies board
    ensures Comes(start, View(board.stages, board.cards), keep, Targets(fallback))
    ensures FallbackStands(start, keep, fallback) && old(Housed(View(board.stages, board.cards))) ==>
              Housed(View(board.stages, board.cards)) &&
              SafeSince(start, old(board.history), board.history, keep, Targets(fallback))
    ensures board.reliable && fallback.Some? ==>
              Carried(old(board.cards), board.cards, IdsIn(old(board.cards), s.statusId), fallback.value)
    ensures board.reliable && s in old(board.stages) ==>
              outcome == if fallback.None? && IdsIn(old(board.cards), s.statusId) != [] then SkippedNonEmpty else Deleted
    ensures outcome.Deleted? ==> s in old(board.stages) && board.stages == WithoutStage(old(board.stages), s.dbId)
    ensures outcome.SkippedNonEmpty? ==> fallback.None? && IdsIn(board.cards, s.statusId) != [] &&
                                         board.stages == old(board.stages)
    ensures outcome.SkippedError? ==> board.stages in {old(board.stages), WithoutStage(old(board.stages), s.dbId)}
  {
    var ok, ids := board.ListStageItemIds(s.statusId);
    if !ok {
      return SkippedError, None;
    }
    if ids != [] && fallback.None? {
      return SkippedNonEmpty, None;
    }
    var target := if fallback.Some? then fallback.value else "";
    var emptied, deleted := EmptyAndDelete(board, s, ids, target, keep, Targets(fallback), start);
    outcome := if deleted then Deleted else SkippedError;
    moved := if emptied && ids != [] then Some(|ids|) else None;
  }

  function Extras(stages: seq<BoardStage>, keep: set<string>): seq<string> {
    if stages == [] then []
    else
      var s := stages[|stages| - 1];
      Extras(stages[..|stages| - 1], keep) + (if Kept(s.statusId, keep) then [] else [s.statusId])
  }

  /** The three result lists hold every extra stage once and nothing else. */
  ghost predicate Accounts(report: Report, extras: seq<string>) {
    |report.deleted| + |report.nonEmpty| + |report.errors| == |extras| &&
    forall x :: x in extras <==> x in report.deleted || x in report.nonEmpty || x in report.errors
  }

  lemma {:induction false} OthersStay(before: seq<BoardStage>, after: seq<BoardStage>, s: BoardStage)
    requires UniqueStages(before) && after in {before, WithoutStage(before, s.dbId)} && s in before
    ensures forall t | t in before && t != s :: t in after
    ensures forall x | x != s.statusId :: HasStage(before, x) <==> HasStage(after, x)
    ensures after == WithoutStage(before, s.dbId) ==> !HasStage(after, s.statusId)
  {
    WithoutStageMembers(before, s.dbId);
    forall x | x != s.statusId ensures HasStage(before, x) <==> HasStage(after, x) {
      if HasStage(before, x) {
        var k :| 0 <= k < |before| && before[k].statusId == x;
        assert before[k] in after;
        var m :| 0 <= m < |after| && after[m] == before[k];
      }
      if HasStage(after, x) {
        var k :| 0 <= k < |after| && after[k].statusId == x;
        assert after[k] in before;
        var m :| 0 <= m < |before| && before[m] == after[k];
      }
    }
    if after == WithoutStage(before, s.dbId) {
      forall k | 0 <= k < |after| ensures after[k].statusId != s.statusId {
        assert after[k] in after;
      }
    }
  }

  lemma {:induction false} ExtrasMembers(stages: seq<BoardStage>, keep: set<string>)
    ensures forall x | x in Extras(stages, keep) :: HasStage(stages, x)
  {
    if stages == [] {
    } else {
      var n := |stages| - 1;
      ExtrasMembers(stages[..n], keep);
      forall x | x in Extras(stages, keep) ensures HasStage(stages, x) {
        if x in Extras(stages[..n], keep) {
          var m :| 0 <= m < n && stages[..n][m].statusId == x;
          assert stages[m].statusId == x;
        } else {
          assert stages[n].statusId == x;
        }
      }
    }
  }

  /** The report after the first `n` listed stages agrees with the board. */
  ghost predicate Booked(report: Report, listed: seq<BoardStage>, n: nat, board: seq<BoardStage>, keep: set<string>,
                         fallback: Option<string>)
    requires n <= |listed|
  {
    Accounts(report, Extras(listed[..n], keep)) &&
    (forall x | x in report.deleted :: !HasStage(board, x)) &&
    (forall x | x in report.nonEmpty :: HasStage(board, x) && fallback.None?) &&
    forall k | n <= k < |listed| :: listed[k] in board
  }

  function WithOutcome(report: Report, x: string, outcome: Outcome): Report {
    match outcome
    case Deleted => report.(deleted := report.deleted + [x])
    case SkippedNonEmpty => report.(nonEmpty := report.nonEmpty + [x])
    case SkippedError => report.(errors := report.errors + [x])
  }

  /** What a run without failed calls leaves behind: with a fallback every extra stage is deleted, without
      one exactly the stages that held no items. */
  predicate Complete(report: Report, cards: seq<Card>, fallback: Option<string>) {
    report.errors == [] &&
    (forall x | x in report.nonEmpty :: fallback.None? && IdsIn(cards, x) != []) &&
    forall x | x in report.deleted :: fallback.Some? || IdsIn(cards, x) == []
  }

  lemma NothingMoved(start: View, v: View, keep: set<string>)
    requires Comes(start, v, keep, {})
    ensures v.cards == start.cards
  {
  }

  lemma {:induction false} NotYetBooked(report: Report, listed: seq<BoardStage>, n: nat, keep: set<string>)
    requires n < |listed| && UniqueStages(listed) && Accounts(report, Extras(listed[..n], keep))
    ensures listed[n].statusId !in report.deleted && listed[n].statusId !in report.nonEmpty
  {
    ExtrasMembers(listed[..n], keep);
    forall m | 0 <= m < n ensures listed[..n][m].statusId != listed[n].statusId {}
  }

  lemma {:induction false} AccountsForOneMore(report: Report, listed: seq<BoardStage>, n: nat, keep: set<string>,
                                              outcome: Outcome)
    requires n < |listed| && !Kept(listed[n].statusId, keep) && Accounts(report, Extras(listed[..n], keep))
    ensures Accounts(WithOutcome(report, listed[n].statusId, outcome), Extras(listed[..n + 1], keep))
  {
    assert listed[..n + 1][..n] == listed[..n];
  }

  lemma {:induction false} BookOne(report: Report, listed: seq<BoardStage>, n: nat, before: seq<BoardStage>,
                                   after: seq<BoardStage>, keep: set<string>, fallback: Option<string>,
                                   outcome: Outcome)
    requires n < |listed| && UniqueStages(listed) && UniqueStages(before) && !Kept(listed[n].statusId, keep)
    requires Booked(report, listed, n, before, keep, fallback) && listed[n] in before
    requires after in {before, WithoutStage(before, listed[n].dbId)}
    requires outcome.Deleted? ==> after == WithoutStage(before, listed[n].dbId)
    requires outcome.SkippedNonEmpty? ==> after == before && fallback.None?
    ensures Booked(WithOutcome(report, listed[n].statusId, outcome), listed, n + 1, after, keep, fallback)
  {
    var s := listed[n];
    OthersStay(before, after, s);
    NotYetBooked(report, listed, n, keep);
    AccountsForOneMore(report, listed, n, keep, outcome);
    assert HasStage(before, s.statusId) by {
      var m :| 0 <= m < |before| && before[m] == s;
    }
    forall k | n + 1 <= k < |listed| ensures listed[k] in after {
      assert listed[k] in before && listed[k] != s;
    }
  }

  lemma BookKept(report: Report, listed: seq<BoardStage>, n: nat, board: seq<BoardStage>, keep: set<string>,
                 fallback: Option<string>)
    requires n < |listed| && Kept(listed[n].statusId, keep) && Booked(report, listed, n, board, keep, fallback)
    ensures Booked(report, listed, n + 1, board, keep, fallback)
  {
    assert listed[..n + 1][..n] == listed[..n];
    assert Extras(listed[..n + 1], keep) == Extras(listed[..n], keep);
  }

  predicate UniqueCards(cards: seq<Card>) { forall i, j | 0 <= i < j < |cards| :: cards[i].id != cards[j].id }

  /** One of the first `n` listed stages is extra and has this id. */
  predicate IsHandled(listed: seq<BoardStage>, n: nat, keep: set<string>, statusId: string)
    requires n <= |listed|
  {
    exists m | 0 <= m < n :: listed[m].statusId == statusId && !Kept(statusId, keep)
  }

  /** Items of the stages handled so far are in the fallback, the others where they were. */
  predicate Sheltered(start: View, cards: seq<Card>, n: nat, keep: set<string>, fallback: Option<string>)
    requires n <= |start.stages|
  {
    fallback.Some? ==>
      |cards| == |start.cards| &&
      forall k | 0 <= k < |cards| ::
        cards[k] == if IsHandled(start.stages, n, keep, start.cards[k].stage)
                    then start.cards[k].(stage := fallback.value) else start.cards[k]
  }

  lemma HandledStep(listed: seq<BoardStage>, n: nat, keep: set<string>, x: string)
    requires n < |listed|
    ensures IsHandled(listed, n + 1, keep, x) <==>
            IsHandled(listed, n, keep, x) || (x == listed[n].statusId && !Kept(x, keep))
  {
  }

  lemma {:induction false} ShelteredStep(start: View, before: seq<Card>, after: seq<Card>, n: nat, keep: set<string>,
                                         fallback: string)
    requires n < |start.stages| && UniqueCards(start.cards) && !Kept(start.stages[n].statusId, keep)
    requires Sheltered(start, before, n, keep, Some(fallback))
    requires Carried(before, after, IdsIn(before, start.stages[n].statusId), fallback)
    ensures Sheltered(start, after, n + 1, keep, Some(fallback))
  {
    var ids, x := IdsIn(before, start.stages[n].statusId), start.stages[n].statusId;
    IdsInMembers(before, x);
    forall k | 0 <= k < |after|
      ensures after[k] == if IsHandled(start.stages, n + 1, keep, start.cards[k].stage)
                          then start.cards[k].(stage := fallback) else start.cards[k]
    {
      HandledStep(start.stages, n, keep, start.cards[k].stage);
      assert before[k].id in ids <==> before[k].stage == x by {
        forall m | 0 <= m < |before| && before[m].id == before[k].id ensures m == k {}
      }
    }
  }

  lemma ShelteredSkip(start: View, cards: seq<Card>, n: nat, keep: set<string>, fallback: Option<string>)
    requires n < |start.stages| && Kept(start.stages[n].statusId, keep) && Sheltered(start, cards, n, keep, fallback)
    ensures Sheltered(start, cards, n + 1, keep, fallback)
  {
    if fallback.Some? {
      forall k | 0 <= k < |cards|
        ensures IsHandled(start.stages, n + 1, keep, start.cards[k].stage) <==>
                IsHandled(start.stages, n, keep, start.cards[k].stage)
      {
        HandledStep(start.stages, n, keep, start.cards[k].stage);
      }
    }
  }

  /** What a reliable board looks like after the first `n` listed stages. */
  ghost predicate Faultless(report: Report, start: View, cards: seq<Card>, n: nat, keep: set<string>,
                            fallback: Option<string>)
    requires n <= |start.stages|
  {
    Complete(report, start.cards, fallback) && (UniqueCards(start.cards) ==> Sheltered(start, cards, n, keep, fallback))
  }

  /** An extra stage is handled, and its items are sheltered. */
  method CleanExtra(board: Board, s: BoardStage, keep: set<string>, fallback: Option<string>, ghost n: nat,
                    ghost start: View) returns (outcome: Outcome, moved: Option<nat>)
    requires n < |start.stages| && s == start.stages[n] && !Kept(s.statusId, keep) && s in board.stages
    requires UniqueStages(start.stages) && Comes(start, View(board.stages, board.cards), keep, Targets(fallback))
    modifies board
    ensures Comes(start, View(board.stages, board.cards), keep, Targets(fallback))
    ensures FallbackStands(start, keep, fallback) && old(Housed(View(board.stages, board.cards))) ==>
              Housed(View(board.stages, board.cards)) &&
              SafeSince(start, old(board.history), board.history, keep, Targets(fallback))
    ensures board.reliable && UniqueCards(start.cards) && Sheltered(start, old(board.cards), n, keep, fallback) ==>
              Sheltered(start, board.cards, n + 1, keep, fallback)
    ensures board.reliable ==>
              outcome ==
              if fallback.None? && IdsIn(start.cards, s.statusId) != [] then SkippedNonEmpty else Deleted
    ensures board.stages in {old(board.stages), WithoutStage(old(board.stages), s.dbId)}
    ensures outcome.Deleted? ==> board.stages == WithoutStage(old(board.stages), s.dbId)
    ensures outcome.SkippedNonEmpty? ==> fallback.None? && board.stages == old(board.stages)
  {
    ghost var before := board.cards;
    if fallback.None? { NothingMoved(start, View(board.stages, board.cards), keep); }
    outcome, moved := HandleStage(board, s, keep, fallback, start);
    if board.reliable && fallback.Some? && UniqueCards(start.cards) && Sheltered(start, before, n, keep, fallback) {
      ShelteredStep(start, before, board.cards, n, keep, fallback.value);
    }
  }

  lemma CompleteStep(report: Report, cards: seq<Card>, x: string, outcome: Outcome, fallback: Option<string>)
    requires Complete(report, cards, fallback)
    requires outcome == if fallback.None? && IdsIn(cards, x) != [] then SkippedNonEmpty else Deleted
    ensures Complete(WithOutcome(report, x, outcome), cards, fallback)
  {
  }

  function WithMoved(report: Report, x: string, moved: Option<nat>): Report {
    if moved.Some? then report.(moved := report.moved + [(x, moved.value)]) else report
  }

  /** One turn of the clean-up loop. */
  method CleanOne(board: Board, listed: seq<BoardStage>, n: nat, keep: set<string>, fallback: Option<string>,
                  report0: Report, ghost start: View) returns (report: Report)
    requires n < |listed| && listed == start.stages && UniqueStages(listed)
    requires Comes(start, View(board.stages, board.cards), keep, Targets(fallback))
    requires Booked(report0, listed, n, board.stages, keep, fallback)
    modifies board
    ensures Comes(start, View(board.stages, board.cards), keep, Targets(fallback))
    ensures FallbackStands(start, keep, fallback) && old(Housed(View(board.stages, board.cards))) ==>
              Housed(View(board.stages, board.cards)) &&
              SafeSince(start, old(board.history), board.history, keep, Targets(fallback))
    ensures Booked(report, listed, n + 1, board.stages, keep, fallback)
    ensures board.reliable && Faultless(report0, start, old(board.cards), n, keep, fallback) ==>
              Faultless(report, start, board.cards, n + 1, keep, fallback)
  {
    var s := listed[n];
    if Kept(s.statusId, keep) {
      BookKept(report0, listed, n, board.stages, keep, fallback);
      if Sheltered(start, board.cards, n, keep, fallback) {
        ShelteredSkip(start, board.cards, n, keep, fallback);
      }
      return report0;
    }
    ghost var before := board.stages;
    var outcome, moved := CleanExtra(board, s, keep, fallback, n, start);
    report := WithMoved(report0, s.statusId, moved);
    MovedIsBooked(report0, s.statusId, moved, listed, n, before, keep, fallback);
    BookOne(report, listed, n, before, board.stages, keep, fallback, outcome);
    if board.reliable && Complete(report, start.cards, fallback) {
      CompleteStep(report, start.cards, s.statusId, outcome, fallback);
    }
    report := WithOutcome(report, s.statusId, outcome);
  }

  /** The list of moved items bears on neither. */
  lemma MovedIsBooked(report: Report, x: string, moved: Option<nat>, listed: seq<BoardStage>, n: nat,
                      board: seq<BoardStage>, keep: set<string>, fallback: Option<string>)
    requires n <= |listed| && Booked(report, listed, n, board, keep, fallback)
    ensures Booked(WithMoved(report, x, moved), listed, n, board, keep, fallback)
    ensures forall cards :: Complete(report, cards, fallback) ==> Complete(WithMoved(report, x, moved), cards, fallback)
  {
  }

  /** An item lies in a stage that is not kept. */
  predicate SomeoneInExtra(start: View, keep: set<string>) {
    exists k | 0 <= k < |start.cards| :: !Kept(start.cards[k].stage, keep)
  }

  /** The whole loop of a run without failed calls: it ends with everyone housed if and only if the fallback
      stands or was not needed. */
  lemma {:induction false} HousedIff(start: View, v: View, keep: set<string>, fallback: Option<string>, report: Report)
    requires UniqueStages(start.stages) && Housed(start) && UniqueCards(start.cards) && fallback != Some("")
    requires Comes(start, v, keep, Targets(fallback)) && (FallbackStands(start, keep, fallback) ==> Housed(v))
    requires Booked(report, start.stages, |start.stages|, v.stages, keep, fallback)
    requires Faultless(report, start, v.cards, |start.stages|, keep, fallback)
    ensures Housed(v) <==> FallbackStands(start, keep, fallback) || !SomeoneInExtra(start, keep)
  {
    if !FallbackStands(start, keep, fallback) {
      ExtrasAreGone(start, v, keep, fallback, report);
      if SomeoneInExtra(start, keep) {
        var k :| 0 <= k < |start.cards| && !Kept(start.cards[k].stage, keep);
        assert HasStage(start.stages, start.cards[k].stage);
        assert IsHandled(start.stages, |start.stages|, keep, start.cards[k].stage);
        FallbackIsGone(start, v, keep, fallback.value);
        assert !HasStage(v.stages, v.cards[k].stage);
      } else {
        forall k | 0 <= k < |v.cards| ensures HasStage(v.stages, v.cards[k].stage) {
          assert HasStage(start.stages, start.cards[k].stage) && v.cards[k] == start.cards[k];
          var m :| 0 <= m < |start.stages| && start.stages[m].statusId == start.cards[k].stage;
          assert start.stages[m] in v.stages;
          var i :| 0 <= i < |v.stages| && v.stages[i] == start.stages[m];
        }
      }
    }
  }

  lemma {:induction false} ExtrasAreGone(start: View, v: View, keep: set<string>, fallback: Option<string>,
                                         report: Report)
    requires Booked(report, start.stages, |start.stages|, v.stages, keep, fallback) && fallback.Some?
    requires Complete(report, start.cards, fallback)
    ensures forall s | s in start.stages && !Kept(s.statusId, keep) :: !HasStage(v.stages, s.statusId)
  {
    assert start.stages[..|start.stages|] == start.stages;
    forall s | s in start.stages && !Kept(s.statusId, keep) ensures !HasStage(v.stages, s.statusId) {
      ExtraIsListed(start.stages, keep, s);
      assert s.statusId in report.deleted;
    }
  }

  lemma {:induction false} ExtraIsListed(stages: seq<BoardStage>, keep: set<string>, s: BoardStage)
    requires s in stages && !Kept(s.statusId, keep)
    ensures s.statusId in Extras(stages, keep)
  {
    var n := |stages| - 1;
    if s != stages[n] {
      assert s in stages[..n];
      ExtraIsListed(stages[..n], keep, s);
    }
  }

  lemma {:induction false} FallbackIsGone(start: View, v: View, keep: set<string>, fallback: string)
    requires forall s | s in start.stages && !Kept(s.statusId, keep) :: !HasStage(v.stages, s.statusId)
    requires forall s | s in v.stages :: s in start.stages
    requires !Stands(start, keep, fallback) && fallback != ""
    ensures !HasStage(v.stages, fallback)
  {
    forall m | 0 <= m < |v.stages| ensures v.stages[m].statusId != fallback {
      assert v.stages[m] in v.stages;
      var k :| 0 <= k < |start.stages| && start.stages[k] == v.stages[m];
      assert HasStage(start.stages, v.stages[m].statusId) && HasStage(v.stages, v.stages[m].statusId);
    }
  }

  /** `cleanup_extra_stages`: with a fallback that is kept and on the board, or none, no item is stranded or lost
      at any moment, whatever calls fail, and no kept stage is gone.  With any fallback every extra stage is in
      the end under exactly one heading of the report, a reported deletion has happened, and a stage skipped as
      non-empty still stands.  On a reliable board everyone is housed in the end if and only if the fallback
      stands or no item lay in an extra stage. */
  method CleanupExtraStages(board: Board, keep: set<string>, fallbackId: Option<string>) returns (report: Report)
    requires board.Valid()
    modifies board
    ensures var start, fallback := old(View(board.stages, board.cards)), Usable(fallbackId);
            FallbackStands(start, keep, fallback) ==>
              Safe(start, View(board.stages, board.cards), keep, Targets(fallback)) &&
              SafeSince(start, old(board.history), board.history, keep, Targets(fallback))
    ensures Accounts(report, Extras(old(board.stages), keep))
    ensures forall x | x in report.deleted :: !HasStage(board.stages, x)
    ensures forall x | x in report.nonEmpty :: HasStage(board.stages, x) && Usable(fallbackId).None?
    ensures board.reliable ==> Complete(report, old(board.cards), Usable(fallbackId))
    ensures board.reliable && UniqueCards(old(board.cards)) ==>
              var start := old(View(board.stages, board.cards));
              (Housed(View(board.stages, board.cards)) <==>
               FallbackStands(start, keep, Usable(fallbackId)) || !SomeoneInExtra(start, keep))
  {
    ghost var start := View(board.stages, board.cards);
    var stages, fallback := board.stages, Usable(fallbackId);
    report := Report([], [], [], []);
    for n := 0 to |stages|
      invariant Comes(start, View(board.stages, board.cards), keep, Targets(fallback))
      invariant FallbackStands(start, keep, fallback) ==>
                  Housed(View(board.stages, board.cards)) &&
                  SafeSince(start, old(board.history), board.history, keep, Targets(fallback))
      invariant Booked(report, stages, n, board.stages, keep, fallback)
      invariant board.reliable ==> Faultless(report, start, board.cards, n, keep, fallback)
    {
      ghost var before := board.history;
      report := CleanOne(board, stages, n, keep, fallback, report, start);
      if FallbackStands(start, keep, fallback) {
        SafeSinceGrows(start, old(board.history), before, board.history, keep, Targets(fallback));
      }
    }
    assert stages[..|stages|] == stages;
    if board.reliable && UniqueCards(start.cards) {
      HousedIff(start, View(board.stages, board.cards), keep, fallback, report);
    }
  }

  /** With a fallback that is an extra stage itself, a clean-up in which no call fails strands the item it moves. */
  method UnkeptFallbackStrands() returns (before: View, after: View)
    ensures Housed(before) && UniqueCards(before.cards) && !Housed(after)
  {
    var stages := [BoardStage(1, "OLD", "", 10, Process), BoardStage(2, "SPARE", "", 20, Process)];
    var board := new Board(stages, [Card(1, "OLD")], true);
    before := View(board.stages, board.cards);
    assert stages[0].statusId == "OLD";
    var report := CleanupExtraStages(board, {}, Some("SPARE"));
    assert !Kept(before.cards[0].stage, {});
    after := View(board.stages, board.cards);
  }

  function FallbackOf(desired: map<string, string>): Option<string> {
    if "waiting_screenshot" in desired && desired["waiting_screenshot"] != ""
    then Some(desired["waiting_screenshot"]) else None
  }

  /** The caller keeps the stages that `ensure_stages` returned and falls back on "waiting_screenshot",
      which is one of them: so the fallback always stands. */
  method CleanupAfterSetup(board: Board, desired: map<string, string>) returns (report: Report)
    requires board.Valid() && forall key | key in desired && desired[key] != "" :: HasStage(board.stages, desired[key])
    modifies board
    ensures Safe(old(View(board.stages, board.cards)), View(board.stages, board.cards), desired.Values,
                 Targets(FallbackOf(desired)))
    ensures SafeSince(old(View(board.stages, board.cards)), old(board.history), board.history, desired.Values,
                      Targets(FallbackOf(desired)))
    ensures Accounts(report, Extras(old(board.stages), desired.Values))
  {
    report := CleanupExtraStages(board, desired.Values, FallbackOf(desired));
  }

  lemma {:induction false} ExtrasDistinct(stages: seq<BoardStage>, keep: set<string>)
    requires UniqueStages(stages)
    ensures forall i, j | 0 <= i < j < |Extras(stages, keep)| :: Extras(stages, keep)[i] != Extras(stages, keep)[j]
  {
    if stages == [] {
    } else {
      var n := |stages| - 1;
      ExtrasDistinct(stages[..n], keep);
      ExtrasMembers(stages[..n], keep);
      forall k | 0 <= k < |Extras(stages[..n], keep)| ensures Extras(stages[..n], keep)[k] != stages[n].statusId {
        assert Extras(stages[..n], keep)[k] in Extras(stages[..n], keep);
        assert HasStage(stages[..n], Extras(stages[..n], keep)[k]);
      }
    }
  }

  function Elements(s: seq<string>): set<string> { set x | x in s }

  lemma {:induction false} ElementsCount(s: seq<string>)
    ensures |Elements(s)| <= |s|
    ensures (forall i, j | 0 <= i < j < |s| :: s[i] != s[j]) ==> |Elements(s)| == |s|
  {
    if s == [] {
    } else {
      var n := |s| - 1;
      ElementsCount(s[..n]);
      assert s == s[..n] + [s[n]];
      assert Elements(s) == Elements(s[..n]) + {s[n]};
    }
  }

  /** An extra stage stands under exactly one of the three headings. */
  lemma {:induction false} ExactlyOneHeading(stages: seq<BoardStage>, keep: set<string>, report: Report, x: string)
    requires UniqueStages(stages) && Accounts(report, Extras(stages, keep)) && x in Extras(stages, keep)
    ensures (x in report.deleted && x !in report.nonEmpty && x !in report.errors) ||
            (x !in report.deleted && x in report.nonEmpty && x !in report.errors) ||
            (x !in report.deleted && x !in report.nonEmpty && x in report.errors)
  {
    var extras := Extras(stages, keep);
    var d, n, e := Elements(report.deleted), Elements(report.nonEmpty), Elements(report.errors);
    ExtrasDistinct(stages, keep);
    ElementsCount(extras);
    ElementsCount(report.deleted);
    ElementsCount(report.nonEmpty);
    ElementsCount(report.errors);
    assert Elements(extras) == d + n + e;
    CountsKeepApart(d, n, e);
    assert x in d + n + e;
  }

  /** Three sets that together have as many elements as one after the other do not meet. */
  lemma CountsKeepApart(d: set<string>, n: set<string>, e: set<string>)
    requires |d + n + e| >= |d| + |n| + |e|
    ensures d !! n && d !! e && n !! e
  {
    assert |d + n| == |d| + |n| - |d * n|;
    assert |d + n + e| == |d + n| + |e| - |(d + n) * e|;
    assert d * n == {} && (d + n) * e == {};
    forall x | x in e ensures x !in d && x !in n {
      assert x !in (d + n) * e;
    }
  }
}
