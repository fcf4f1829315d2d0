/** `merge_and_delete_obsolete_stages` and the dry-run plan that predicts it. */
module StageMerge {
  import opened StageBoard
  import opened StageCleanup

  datatype Merge = Merge(oldIds: set<string>, oldNames: set<string>, target: string, reason: string)

  datatype PlanRow = PlanRow(stage: BoardStage, target: string, reason: string)

  datatype MergeAction = MergeAction(oldStage: string, target: string, movedItems: nat, reason: string)

  predicate IsOld(m: Merge, s: BoardStage) {
    s.statusId != m.target && (s.statusId in m.oldIds || s.name in m.oldNames)
  }

  predicate IsObsolete(merges: seq<Merge>, s: BoardStage) {
    exists k | 0 <= k < |merges| :: IsOld(merges[k], s)
  }

  function RowsOf(m: Merge, stages: seq<BoardStage>): (r: seq<PlanRow>)
    ensures forall k | 0 <= k < |r| ::
              r[k].stage in stages && IsOld(m, r[k].stage) && r[k].target == m.target && r[k].reason == m.reason
  {
    if stages == [] then []
    else
      var s := stages[|stages| - 1];
      RowsOf(m, stages[..|stages| - 1]) + (if IsOld(m, s) then [PlanRow(s, m.target, m.reason)] else [])
  }

  /** The row carries out one of the merges. */
  predicate RowOf(merges: seq<Merge>, row: PlanRow) {
    exists m | 0 <= m < |merges| :: merges[m].target == row.target && IsOld(merges[m], row.stage)
  }

  /** `obsolete_stage_merge_plan` */
  function Plan(merges: seq<Merge>, stages: seq<BoardStage>): (r: seq<PlanRow>)
    ensures forall k | 0 <= k < |r| :: r[k].stage in stages && RowOf(merges, r[k])
  {
    if merges == [] then []
    else
      var n := |merges| - 1;
      var before, rows := Plan(merges[..n], stages), RowsOf(merges[n], stages);
      PlanGrows(merges, merges[..n], stages, before, rows);
      before + rows
  }

  lemma PlanGrows(merges: seq<Merge>, front: seq<Merge>, stages: seq<BoardStage>, before: seq<PlanRow>,
                  rows: seq<PlanRow>)
    requires merges != [] && front == merges[..|merges| - 1] && rows == RowsOf(merges[|merges| - 1], stages)
    requires forall k | 0 <= k < |before| :: before[k].stage in stages && RowOf(front, before[k])
    ensures forall k | 0 <= k < |before + rows| ::
              (before + rows)[k].stage in stages && RowOf(merges, (before + rows)[k])
  {
    var n := |merges| - 1;
    forall k | 0 <= k < |before + rows| ensures RowOf(merges, (before + rows)[k]) {
      if k < |before| {
        var m :| 0 <= m < |front| && front[m].target == before[k].target && IsOld(front[m], before[k].stage);
        assert merges[m] == front[m];
      } else {
        assert IsOld(merges[n], rows[k - |before|].stage);
      }
    }
  }

  lemma PlanStep(merges: seq<Merge>, stages: seq<BoardStage>) returns (before: seq<PlanRow>, rows: seq<PlanRow>)
    requires merges != []
    ensures before == Plan(merges[..|merges| - 1], stages) && rows == RowsOf(merges[|merges| - 1], stages)
    ensures Plan(merges, stages) == before + rows
  {
    before, rows := Plan(merges[..|merges| - 1], stages), RowsOf(merges[|merges| - 1], stages);
  }

  predicate IsPlanned(plan: seq<PlanRow>, s: BoardStage) { exists k | 0 <= k < |plan| :: plan[k].stage == s }

  lemma PlannedInEither(before: seq<PlanRow>, rows: seq<PlanRow>, s: BoardStage)
    ensures IsPlanned(before, s) || IsPlanned(rows, s) ==> IsPlanned(before + rows, s)
  {
    if IsPlanned(before, s) {
      var k :| 0 <= k < |before| && before[k].stage == s;
      assert (before + rows)[k].stage == s;
    }
    if IsPlanned(rows, s) {
      var k :| 0 <= k < |rows| && rows[k].stage == s;
      assert (before + rows)[|before| + k].stage == s;
    }
  }

  /** Every match of a stage by a merge is planned, and so exactly the obsolete stages are. */
  lemma {:induction false} MatchIsPlanned(merges: seq<Merge>, stages: seq<BoardStage>, s: BoardStage)
    requires s in stages && IsObsolete(merges, s)
    ensures IsPlanned(Plan(merges, stages), s)
  {
    var n := |merges| - 1;
    var before, rows := PlanStep(merges, stages);
    if IsOld(merges[n], s) {
      var k := RowIsThere(merges[n], stages, s);
    } else {
      var m :| 0 <= m < |merges| && IsOld(merges[m], s);
      assert IsOld(merges[..n][m], s);
      MatchIsPlanned(merges[..n], stages, s);
    }
    PlannedInEither(before, rows, s);
  }

  lemma {:induction false} RowIsThere(m: Merge, stages: seq<BoardStage>, s: BoardStage) returns (k: nat)
    requires s in stages && IsOld(m, s)
    ensures k < |RowsOf(m, stages)| && RowsOf(m, stages)[k].stage == s
  {
    var n := |stages| - 1;
    if s == stages[n] {
      k := |RowsOf(m, stages[..n])|;
    } else {
      assert s in stages[..n];
      k := RowIsThere(m, stages[..n], s);
    }
  }

  /** The merge has items to move. */
  predicate HoldsItems(m: Merge, v: View) {
    exists s | s in v.stages :: IsOld(m, s) && IdsIn(v.cards, s.statusId) != []
  }

  /** A merge that has items to move has a target on the board that no merge calls old. */
  predicate TargetsStand(merges: seq<Merge>, v: View) {
    forall k | 0 <= k < |merges| && HoldsItems(merges[k], v) ::
      HasStage(v.stages, merges[k].target) &&
      forall s | s in v.stages && s.statusId == merges[k].target :: !IsObsolete(merges, s)
  }

  function KeepOf(merges: seq<Merge>, stages: seq<BoardStage>): set<string> {
    set s | s in stages && !IsObsolete(merges, s) :: s.statusId
  }

  /** Where items may go: to the targets of the merges that have some, if these stand; an item that went to a stage
      another merge calls old may go further. */
  function TargetSet(merges: seq<Merge>, v: View): set<string> {
    set k | 0 <= k < |merges| && (TargetsStand(merges, v) ==> HoldsItems(merges[k], v)) :: merges[k].target
  }

  predicate NamedStages(stages: seq<BoardStage>) { forall s | s in stages :: s.statusId != "" }

  lemma ObsoleteIsNotKept(merges: seq<Merge>, stages: seq<BoardStage>, s: BoardStage)
    requires UniqueStages(stages) && NamedStages(stages) && s in stages && IsObsolete(merges, s)
    ensures !Kept(s.statusId, KeepOf(merges, stages))
  {
    forall t | t in stages && t.statusId == s.statusId ensures t == s {
      SameStatus(stages, s, t);
    }
  }

  lemma SameStatus(stages: seq<BoardStage>, s: BoardStage, t: BoardStage)
    requires UniqueStages(stages) && s in stages && t in stages && s.statusId == t.statusId
    ensures s == t
  {
  }

  lemma TargetIsKept(merges: seq<Merge>, v: View, k: nat)
    requires k < |merges| && TargetsStand(merges, v) && HoldsItems(merges[k], v)
    ensures Stands(v, KeepOf(merges, v.stages), merges[k].target)
  {
    assert HasStage(v.stages, merges[k].target);
    var m :| 0 <= m < |v.stages| && v.stages[m].statusId == merges[k].target;
    assert v.stages[m] in v.stages && !IsObsolete(merges, v.stages[m]);
  }

  /** The actions done so far are the first plan rows. */
  predicate Predicted(actions: seq<MergeAction>, plan: seq<PlanRow>) {
    |actions| <= |plan| && forall k | 0 <= k < |actions| :: Performs(actions[k], plan[k])
  }

  predicate Performs(action: MergeAction, row: PlanRow) {
    action.oldStage == row.stage.statusId && action.target == row.target && action.reason == row.reason
  }

  /** The row's stage may go, and its items have somewhere to go; if the targets stand, no target is on its way out. */
  predicate RowReady(row: PlanRow, start: View, keep: set<string>, targets: set<string>, stand: bool) {
    row.stage in start.stages && !Kept(row.stage.statusId, keep) &&
    if stand then
      targets <= keep &&
      (IdsIn(start.cards, row.stage.statusId) != [] ==> row.target in targets && Stands(start, keep, row.target))
    else row.target in targets
  }

  /** No item comes to an old stage. */
  lemma {:induction false} HeldFromStart(start: View, v: View, keep: set<string>, targets: set<string>, x: string)
    requires Comes(start, v, keep, targets) && targets <= keep && !Kept(x, keep) && IdsIn(v.cards, x) != []
    ensures IdsIn(start.cards, x) != []
  {
    var id := IdsIn(v.cards, x)[0];
    assert id in IdsIn(v.cards, x);
    IdsInMembers(v.cards, x);
    var k :| 0 <= k < |v.cards| && v.cards[k].id == id && v.cards[k].stage == x;
    assert start.cards[k].stage == x && start.cards[k].id == id;
    IdsInMembers(start.cards, x);
    assert id in IdsIn(start.cards, x);
  }

  /** Items are where they were or in a target; and safe, if the targets stand. */
  predicate Within(start: View, v: View, keep: set<string>, targets: set<string>, stand: bool) {
    Comes(start, v, keep, targets) && (stand ==> Housed(v))
  }

  /** The body of the inner loop for one old stage; `ok` is false when an exception leaves the function. */
  method MergeOne(board: Board, row: PlanRow, ghost keep: set<string>, ghost targets: set<string>, ghost start: View,
                  ghost stand: bool) returns (ok: bool, action: MergeAction)
    requires UniqueStages(start.stages) && Within(start, View(board.stages, board.cards), keep, targets, stand)
    requires RowReady(row, start, keep, targets, stand)
    modifies board
    ensures Within(start, View(board.stages, board.cards), keep, targets, stand)
    ensures stand ==> SafeSince(start, old(board.history), board.history, keep, targets)
    ensures ok ==> Performs(action, row)
    ensures ok ==> action.movedItems == |IdsIn(old(board.cards), row.stage.statusId)|
    ensures ok ==> row.stage in old(board.stages) && board.stages == WithoutStage(old(board.stages), row.stage.dbId)
    ensures board.reliable && row.stage in old(board.stages) ==> ok
  {
    action := MergeAction("", "", 0, "");
    var ids;
    ok, ids := board.ListStageItemIds(row.stage.statusId);
    if !ok {
      return;
    }
    if stand && ids != [] {
      HeldFromStart(start, View(board.stages, board.cards), keep, targets, row.stage.statusId);
    }
    var emptied, deleted := EmptyAndDelete(board, row.stage, ids, row.target, keep, targets, start);
    ok := deleted;
    action := MergeAction(row.stage.statusId, row.target, |ids|, row.reason);
  }

  /** The list after the deletions of the first `n` rows. */
  function Removed(stages: seq<BoardStage>, plan: seq<PlanRow>, n: nat): seq<BoardStage>
    requires n <= |plan|
  {
    if n == 0 then stages else WithoutStage(Removed(stages, plan, n - 1), plan[n - 1].stage.dbId)
  }

  /** The stages still on the board: the listed ones minus the plan rows already carried out. */
  predicate LeftOver(listed: seq<BoardStage>, plan: seq<PlanRow>, n: nat, board: seq<BoardStage>)
    requires n <= |plan|
  {
    forall s | s in listed :: s in board <==> forall k | 0 <= k < n :: plan[k].stage != s
  }

  lemma {:induction false} LeftOverStep(listed: seq<BoardStage>, plan: seq<PlanRow>, n: nat, before: seq<BoardStage>)
    requires n < |plan| && LeftOver(listed, plan, n, before) && UniqueStages(listed) && plan[n].stage in listed
    ensures LeftOver(listed, plan, n + 1, WithoutStage(before, plan[n].stage.dbId))
  {
    var s := plan[n].stage;
    WithoutStageMembers(before, s.dbId);
    var after := WithoutStage(before, s.dbId);
    forall t | t in listed ensures t in after <==> forall k | 0 <= k < n + 1 :: plan[k].stage != t {
      if t.dbId == s.dbId { SameStage(listed, s, t); }
    }
  }

  predicate DistinctUpTo(plan: seq<PlanRow>, n: nat)
    requires n <= |plan|
  {
    forall i, j | 0 <= i < j < n :: plan[i].stage != plan[j].stage
  }

  /** No listed stage is old for two merges. */
  predicate MatchedOnce(merges: seq<Merge>, stages: seq<BoardStage>) {
    forall s, k, m | s in stages && 0 <= k < m < |merges| :: !(IsOld(merges[k], s) && IsOld(merges[m], s))
  }

  lemma {:induction false} RowsAreDistinct(m: Merge, stages: seq<BoardStage>)
    requires UniqueStages(stages)
    ensures DistinctUpTo(RowsOf(m, stages), |RowsOf(m, stages)|)
  {
    if stages == [] {
    } else {
      var front, last := stages[..|stages| - 1], stages[|stages| - 1];
      RowsAreDistinct(m, front);
      var rows := RowsOf(m, front);
      forall k | 0 <= k < |rows| ensures rows[k].stage != last {
        assert rows[k].stage in front;
        var i :| 0 <= i < |front| && front[i] == rows[k].stage;
        assert stages[i] == rows[k].stage;
      }
    }
  }

  predicate NoneShared(before: seq<PlanRow>, rows: seq<PlanRow>) {
    forall i, j | 0 <= i < |before| && 0 <= j < |rows| :: before[i].stage != rows[j].stage
  }

  /** Two lists without repetition joined: without repetition exactly when they share no stage. */
  lemma DistinctJoin(before: seq<PlanRow>, rows: seq<PlanRow>)
    requires DistinctUpTo(rows, |rows|)
    ensures DistinctUpTo(before + rows, |before + rows|) <==>
            DistinctUpTo(before, |before|) && NoneShared(before, rows)
  {
    var all := before + rows;
    if DistinctUpTo(all, |all|) {
      forall i, j | 0 <= i < |before| && 0 <= j < |rows| ensures before[i].stage != rows[j].stage {
        assert all[i].stage != all[|before| + j].stage;
      }
      forall i, j | 0 <= i < j < |before| ensures before[i].stage != before[j].stage {
        assert all[i].stage != all[j].stage;
      }
    }
  }

  /** A plan meets each stage once exactly when no stage is old for two merges. */
  lemma {:induction false} PlannedOnceIff(merges: seq<Merge>, stages: seq<BoardStage>)
    requires UniqueStages(stages)
    ensures DistinctUpTo(Plan(merges, stages), |Plan(merges, stages)|) <==> MatchedOnce(merges, stages)
  {
    if merges == [] {
      assert Plan(merges, stages) == [];
    } else {
      var front, last := merges[..|merges| - 1], merges[|merges| - 1];
      var before, rows := Plan(front, stages), RowsOf(last, stages);
      PlannedOnceIff(front, stages);
      RowsAreDistinct(last, stages);
      DistinctJoin(before, rows);
      LastSharesNone(merges, stages);
      MatchedOnceStep(merges, stages);
      assert Plan(merges, stages) == before + rows;
    }
  }

  lemma MatchedOnceStep(merges: seq<Merge>, stages: seq<BoardStage>)
    requires merges != []
    ensures var front, last := merges[..|merges| - 1], merges[|merges| - 1];
            MatchedOnce(merges, stages) <==>
            MatchedOnce(front, stages) && forall s | s in stages && IsOld(last, s) :: !IsObsolete(front, s)
  {
    var front, last := merges[..|merges| - 1], merges[|merges| - 1];
    assert forall k | 0 <= k < |front| :: front[k] == merges[k];
    if MatchedOnce(merges, stages) {
      forall s | s in stages && IsOld(last, s) ensures !IsObsolete(front, s) {
        forall k | 0 <= k < |front| ensures !IsOld(front[k], s) {
          assert front[k] == merges[k];
        }
      }
    }
  }

  lemma SharedStage(before: seq<PlanRow>, rows: seq<PlanRow>, s: BoardStage)
    requires IsPlanned(before, s) && IsPlanned(rows, s)
    ensures !NoneShared(before, rows)
  {
  }

  lemma {:induction false} LastSharesNone(merges: seq<Merge>, stages: seq<BoardStage>)
    requires merges != []
    ensures var front, last := merges[..|merges| - 1], merges[|merges| - 1];
            NoneShared(Plan(front, stages), RowsOf(last, stages)) <==>
            forall s | s in stages && IsOld(last, s) :: !IsObsolete(front, s)
  {
    var front, last := merges[..|merges| - 1], merges[|merges| - 1];
    var before, rows := Plan(front, stages), RowsOf(last, stages);
    forall s | s in stages && IsOld(last, s) && IsObsolete(front, s) ensures !NoneShared(before, rows) {
      MatchIsPlanned(front, stages, s);
      var j := RowIsThere(last, stages, s);
      SharedStage(before, rows, s);
    }
    forall i | 0 <= i < |before| ensures IsObsolete(front, before[i].stage) {
      assert RowOf(front, before[i]);
    }
  }

  lemma RowIsFresh(listed: seq<BoardStage>, plan: seq<PlanRow>, n: nat, board: seq<BoardStage>)
    requires n < |plan| && LeftOver(listed, plan, n, board) && DistinctUpTo(plan, n) && plan[n].stage in listed
    ensures plan[n].stage in board ==> DistinctUpTo(plan, n + 1)
    ensures plan[n].stage !in board ==> !DistinctUpTo(plan, |plan|)
  {
  }

  ghost predicate AllReady(plan: seq<PlanRow>, start: View, keep: set<string>, targets: set<string>, stand: bool) {
    forall n: nat | n < |plan| :: RowReady(plan[n], start, keep, targets, stand)
  }

  lemma ReadyAt(plan: seq<PlanRow>, start: View, keep: set<string>, targets: set<string>, stand: bool, n: nat)
    requires AllReady(plan, start, keep, targets, stand) && n < |plan|
    ensures RowReady(plan[n], start, keep, targets, stand)
  {
  }

  lemma {:induction false} RowIsReady(merges: seq<Merge>, start: View, n: nat)
    requires UniqueStages(start.stages) && NamedStages(start.stages) && n < |Plan(merges, start.stages)|
    ensures RowReady(Plan(merges, start.stages)[n], start, KeepOf(merges, start.stages), TargetSet(merges, start),
                     TargetsStand(merges, start))
  {
    var row := Plan(merges, start.stages)[n];
    var m :| 0 <= m < |merges| && merges[m].target == row.target && IsOld(merges[m], row.stage);
    ObsoleteIsNotKept(merges, start.stages, row.stage);
    if !TargetsStand(merges, start) {
      return;
    }
    if IdsIn(start.cards, row.stage.statusId) != [] {
      assert HoldsItems(merges[m], start);
      TargetIsKept(merges, start, m);
    }
    forall x | x in TargetSet(merges, start) ensures x in KeepOf(merges, start.stages) {
      var k :| 0 <= k < |merges| && HoldsItems(merges[k], start) && merges[k].target == x;
      TargetIsKept(merges, start, k);
    }
  }

  /** The board after the first `n` plan rows. */
  ghost predicate MergedUpTo(start: View, board: View, plan: seq<PlanRow>, n: nat, keep: set<string>,
                             targets: set<string>, stand: bool)
    requires n <= |plan|
  {
    Within(start, board, keep, targets, stand) && LeftOver(start.stages, plan, n, board.stages) && DistinctUpTo(plan, n) &&
    board.stages == Removed(start.stages, plan, n)
  }

  method MergeRow(board: Board, plan: seq<PlanRow>, n: nat, ghost keep: set<string>, ghost targets: set<string>,
                  ghost start: View, ghost stand: bool)
    returns (ok: bool, action: MergeAction)
    requires n < |plan| && RowReady(plan[n], start, keep, targets, stand) && UniqueStages(start.stages)
    requires MergedUpTo(start, View(board.stages, board.cards), plan, n, keep, targets, stand)
    modifies board
    ensures Within(start, View(board.stages, board.cards), keep, targets, stand)
    ensures stand ==> SafeSince(start, old(board.history), board.history, keep, targets)
    ensures ok ==> MergedUpTo(start, View(board.stages, board.cards), plan, n + 1, keep, targets, stand)
    ensures ok ==> Performs(action, plan[n])
    ensures board.reliable && !ok ==> !DistinctUpTo(plan, |plan|)
  {
    RowIsFresh(start.stages, plan, n, board.stages);
    LeftOverStep(start.stages, plan, n, board.stages);
    ok, action := MergeOne(board, plan[n], keep, targets, start, stand);
  }

  /** The rows of the plan, one after the other, until a call fails. */
  method MergeRows(board: Board, plan: seq<PlanRow>, ghost keep: set<string>, ghost targets: set<string>,
                   ghost start: View, ghost stand: bool)
    returns (ok: bool, actions: seq<MergeAction>)
    requires UniqueStages(start.stages) && AllReady(plan, start, keep, targets, stand)
    requires MergedUpTo(start, View(board.stages, board.cards), plan, 0, keep, targets, stand)
    modifies board
    ensures Within(start, View(board.stages, board.cards), keep, targets, stand)
    ensures stand ==> SafeSince(start, old(board.history), board.history, keep, targets)
    ensures Predicted(actions, plan)
    ensures ok ==> |actions| == |plan| && board.stages == Removed(start.stages, plan, |plan|)
    ensures board.reliable ==> (ok <==> DistinctUpTo(plan, |plan|))
  {
    ok, actions := true, [];
    for n := 0 to |plan|
      invariant ok && |actions| == n && Predicted(actions, plan)
      invariant MergedUpTo(start, View(board.stages, board.cards), plan, n, keep, targets, stand)
      invariant stand ==> SafeSince(start, old(board.history), board.history, keep, targets)
    {
      ghost var history := board.history;
      ReadyAt(plan, start, keep, targets, stand, n);
      var action;
      ok, action := MergeRow(board, plan, n, keep, targets, start, stand);
      if stand { SafeSinceGrows(start, old(board.history), history, board.history, keep, targets); }
      if !ok {
        return;
      }
      actions := actions + [action];
    }
  }

  /** `merge_and_delete_obsolete_stages`; the plan lists the (merge, old stage) pairs of its two loops.  An item is at
      any moment where it was or in a target, and no stage outside the merges is touched.  Given that the targets of
      merges with items stand, no item is stranded at any moment, even when a call fails midway.  The actions are a
      prefix of the dry-run plan, the whole of it when the function returns, and then exactly the obsolete stages are
      gone.  On a reliable board the function returns if and only if no stage is matched by two merges: the second
      match tries to delete a stage that is gone. */
  method MergeAndDelete(board: Board, merges: seq<Merge>) returns (ok: bool, actions: seq<MergeAction>)
    requires board.Valid() && NamedStages(board.stages)
    modifies board
    ensures var start := old(View(board.stages, board.cards));
            var keep := KeepOf(merges, start.stages);
            Comes(start, View(board.stages, board.cards), keep, TargetSet(merges, start)) &&
            (TargetsStand(merges, start) ==>
               Housed(View(board.stages, board.cards)) &&
               SafeSince(start, old(board.history), board.history, keep, TargetSet(merges, start)))
    ensures var plan := Plan(merges, old(board.stages));
            Predicted(actions, plan) && (ok ==> |actions| == |plan|) &&
            (board.reliable ==> (ok <==> MatchedOnce(merges, old(board.stages))))
    ensures ok ==> board.stages == Without(old(board.stages), ObsoleteIds(merges, old(board.stages)))
  {
    ghost var start := View(board.stages, board.cards);
    ghost var keep, targets, stand := KeepOf(merges, board.stages), TargetSet(merges, start), TargetsStand(merges, start);
    var plan := Plan(merges, board.stages);
    forall n: nat | n < |plan| ensures RowReady(plan[n], start, keep, targets, stand) {
      RowIsReady(merges, start, n);
    }
    RemovedIsWithout(merges, start.stages);
    PlannedOnceIff(merges, start.stages);
    ok, actions := MergeRows(board, plan, keep, targets, start, stand);
  }

  // ---------- what is left ----------

  function Without(stages: seq<BoardStage>, ids: set<string>): seq<BoardStage> {
    if stages == [] then []
    else
      var s := stages[|stages| - 1];
      var rest := Without(stages[..|stages| - 1], ids);
      if s.statusId in ids then rest else rest + [s]
  }

  function ObsoleteIds(merges: seq<Merge>, stages: seq<BoardStage>): set<string> {
    set s | s in stages && IsObsolete(merges, s) :: s.statusId
  }

  lemma {:induction false} WithoutOne(stages: seq<BoardStage>, dbId: int, statusId: string, ids: set<string>)
    requires forall s | s in stages :: s.dbId == dbId <==> s.statusId == statusId
    ensures WithoutStage(Without(stages, ids), dbId) == Without(stages, ids + {statusId})
  {
    if stages == [] {
      assert Without(stages, ids) == [];
    } else {
      var front, last := stages[..|stages| - 1], stages[|stages| - 1];
      WithoutOne(front, dbId, statusId, ids);
      assert last in stages;
      if last.statusId !in ids {
        assert (Without(front, ids) + [last])[..|Without(front, ids)|] == Without(front, ids);
      } else {
        assert Without(stages, ids) == Without(front, ids);
      }
    }
  }

  function PlannedIds(plan: seq<PlanRow>, n: nat): set<string>
    requires n <= |plan|
  {
    if n == 0 then {} else PlannedIds(plan, n - 1) + {plan[n - 1].stage.statusId}
  }

  lemma {:induction false} WithoutNone(stages: seq<BoardStage>)
    ensures Without(stages, {}) == stages
  {
    if stages == [] {
      assert Without(stages, {}) == [];
    } else {
      WithoutNone(stages[..|stages| - 1]);
    }
  }

  lemma {:induction false} RemovedIsPlanned(stages: seq<BoardStage>, plan: seq<PlanRow>, n: nat)
    requires n <= |plan| && UniqueStages(stages) && forall k | 0 <= k < |plan| :: plan[k].stage in stages
    ensures Removed(stages, plan, n) == Without(stages, PlannedIds(plan, n))
  {
    if n == 0 {
      WithoutNone(stages);
    } else {
      RemovedIsPlanned(stages, plan, n - 1);
      var s := plan[n - 1].stage;
      forall t | t in stages ensures t.dbId == s.dbId <==> t.statusId == s.statusId {
        var i :| 0 <= i < |stages| && stages[i] == s;
        var j :| 0 <= j < |stages| && stages[j] == t;
      }
      WithoutOne(stages, s.dbId, s.statusId, PlannedIds(plan, n - 1));
    }
  }

  lemma {:induction false} PlannedIdsMembers(plan: seq<PlanRow>, n: nat, x: string)
    requires n <= |plan|
    ensures x in PlannedIds(plan, n) <==> exists k | 0 <= k < n :: plan[k].stage.statusId == x
  {
    if n == 0 {
      assert PlannedIds(plan, 0) == {};
    } else {
      PlannedIdsMembers(plan, n - 1, x);
    }
  }

  lemma {:induction false} RemovedIsWithout(merges: seq<Merge>, stages: seq<BoardStage>)
    requires UniqueStages(stages)
    ensures var plan := Plan(merges, stages);
            Removed(stages, plan, |plan|) == Without(stages, ObsoleteIds(merges, stages))
  {
    var plan := Plan(merges, stages);
    RemovedIsPlanned(stages, plan, |plan|);
    forall x ensures x in PlannedIds(plan, |plan|) <==> x in ObsoleteIds(merges, stages) {
      PlannedIdsMembers(plan, |plan|, x);
      if x in PlannedIds(plan, |plan|) {
        var k :| 0 <= k < |plan| && plan[k].stage.statusId == x;
        assert RowOf(merges, plan[k]);
        assert IsObsolete(merges, plan[k].stage);
      }
      if x in ObsoleteIds(merges, stages) {
        var s :| s in stages && IsObsolete(merges, s) && s.statusId == x;
        MatchIsPlanned(merges, stages, s);
      }
    }
    assert PlannedIds(plan, |plan|) == ObsoleteIds(merges, stages);
  }

  // ---------- the merge table ----------

  function TableId(prefix: string, code: string): string { prefix + ":" + code }

  function IdsOf(prefix: string, codes: set<string>): set<string> { set c | c in codes :: TableId(prefix, c) }

  const SUPPLIER_ORDER := "Заказ поставщику"
  const SUPPLIER_TERMS := "Согласование условий"

  /** `OBSOLETE_STAGE_MERGES` for the process and category that `prefix` names. */
  function OrdinaryMerges(prefix: string): seq<Merge> {
    [Merge(IdsOf(prefix, {"PREPARATION", "TERMS"}), {SUPPLIER_TERMS}, TableId(prefix, "NEW"),
           "supplier_terms moved to order_formation; procurement starts at supplier_order"),
     Merge(IdsOf(prefix, {"CLIENT", "ORDER"}), {SUPPLIER_ORDER}, TableId(prefix, "NEW"),
           "supplier_order merged into system start stage")]
  }

  function CargoMerges(prefix: string): seq<Merge> {
    [Merge(IdsOf(prefix, {"PREPARATION"}), {}, TableId(prefix, "NEW"),
           "supplier_assembly moved to order_formation; procurement starts at supplier_order"),
     Merge(IdsOf(prefix, {"ORDER"}), {SUPPLIER_ORDER}, TableId(prefix, "NEW"),
           "supplier_order merged into system start stage"),
     Merge(IdsOf(prefix, {"PAYOK"}), {}, TableId(prefix, "SUPPLIER_DISPATCH"),
           "arrived is an action before own_delivery, not a separate stage")]
  }

  function ImportMerges(prefix: string): seq<Merge> {
    [Merge(IdsOf(prefix, {"ORDER", "UC_OW8QYB"}), {SUPPLIER_ORDER}, TableId(prefix, "NEW"),
           "supplier_order merged into system start stage")]
  }

  lemma TableIdInjective(prefix: string, a: string, b: string)
    requires TableId(prefix, a) == TableId(prefix, b)
    ensures a == b
  {
    assert TableId(prefix, a)[|prefix| + 1..] == a && TableId(prefix, b)[|prefix| + 1..] == b;
  }

  /** The ordinary and the import tables have one target, the start stage: it has to exist as soon as there is
      an item to move. */
  lemma SingleTargetStands(merges: seq<Merge>, prefix: string, v: View)
    requires merges in {OrdinaryMerges(prefix), ImportMerges(prefix)}
    ensures TargetsStand(merges, v) <==>
            HasStage(v.stages, TableId(prefix, "NEW")) || forall k | 0 <= k < |merges| :: !HoldsItems(merges[k], v)
  {
    assert forall k | 0 <= k < |merges| :: merges[k].target == TableId(prefix, "NEW");
    forall s | s in v.stages && s.statusId == TableId(prefix, "NEW") ensures !IsObsolete(merges, s) {
    }
  }

  function TermsStage(prefix: string): BoardStage {
    BoardStage(1, TableId(prefix, "CLIENT"), SUPPLIER_TERMS, 10, Process)
  }

  /** A stage with an old code of the second merge and the old name of the first is planned twice: on a board that holds
      it the ordinary merge fails, though every call that makes sense is performed. */
  lemma {:induction false} OrdinaryMatchesTwice(prefix: string)
    ensures var merges, s := OrdinaryMerges(prefix), TermsStage(prefix);
            !MatchedOnce(merges, [s]) && TargetsStand(merges, View([s], [])) &&
            !DistinctUpTo(Plan(merges, [s]), |Plan(merges, [s])|)
  {
    var merges, s := OrdinaryMerges(prefix), TermsStage(prefix);
    if TableId(prefix, "CLIENT") == TableId(prefix, "NEW") {
      TableIdInjective(prefix, "CLIENT", "NEW");
      assert false;
    }
    assert s in [s] && IsOld(merges[0], s) && IsOld(merges[1], s);
    PlannedOnceIff(merges, [s]);
    forall k | 0 <= k < |merges| ensures !HoldsItems(merges[k], View([s], [])) {
    }
  }

  lemma DispatchIsNotAnOldCode(prefix: string)
    ensures var dispatch := TableId(prefix, "SUPPLIER_DISPATCH");
            dispatch !in IdsOf(prefix, {"PREPARATION"}) && dispatch !in IdsOf(prefix, {"ORDER"}) &&
            dispatch != TableId(prefix, "NEW")
    ensures TableId(prefix, "NEW") !in IdsOf(prefix, {"PAYOK"})
  {
    var dispatch := TableId(prefix, "SUPPLIER_DISPATCH");
    if dispatch in IdsOf(prefix, {"PREPARATION"}) { TableIdInjective(prefix, "SUPPLIER_DISPATCH", "PREPARATION"); }
    if dispatch in IdsOf(prefix, {"ORDER"}) { TableIdInjective(prefix, "SUPPLIER_DISPATCH", "ORDER"); }
    if dispatch == TableId(prefix, "NEW") { TableIdInjective(prefix, "SUPPLIER_DISPATCH", "NEW"); }
    if TableId(prefix, "NEW") in IdsOf(prefix, {"PAYOK"}) { TableIdInjective(prefix, "NEW", "PAYOK"); }
  }

  /** The cargo table is safe exactly when each of its targets exists as soon as it has an item to receive, and
      the dispatch stage then does not carry the name by which the second merge looks for old stages. */
  lemma CargoTargetsStand(prefix: string, v: View)
    ensures var merges := CargoMerges(prefix);
            TargetsStand(merges, v) <==>
            (HoldsItems(merges[0], v) || HoldsItems(merges[1], v) ==> HasStage(v.stages, TableId(prefix, "NEW"))) &&
            (HoldsItems(merges[2], v) ==>
               HasStage(v.stages, TableId(prefix, "SUPPLIER_DISPATCH")) &&
               forall s | s in v.stages && s.statusId == TableId(prefix, "SUPPLIER_DISPATCH") :: s.name != SUPPLIER_ORDER)
  {
    var merges, start, dispatch := CargoMerges(prefix), TableId(prefix, "NEW"), TableId(prefix, "SUPPLIER_DISPATCH");
    DispatchIsNotAnOldCode(prefix);
    assert merges[0].target == start && merges[1].target == start && merges[2].target == dispatch;
    forall s | s in v.stages && s.statusId == start ensures !IsObsolete(merges, s) {}
    forall s | s in v.stages && s.statusId == dispatch ensures IsObsolete(merges, s) <==> s.name == SUPPLIER_ORDER {
      assert IsOld(merges[1], s) <==> s.name == SUPPLIER_ORDER;
    }
  }
}
