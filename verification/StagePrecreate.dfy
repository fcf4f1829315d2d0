/** `precreate_missing_process_stages_before_success`: the additions made before `ensure_stages`, and what they
    do to the dry run, which has never seen them. */
module StagePrecreate {
  import opened StageBoard
  import opened StageClaims
  import opened StageEnsure

  function MinSort(stages: seq<BoardStage>): (r: int)
    requires |stages| > 0
    ensures forall k | 0 <= k < |stages| :: r <= stages[k].sort
    ensures exists k | 0 <= k < |stages| :: r == stages[k].sort
  {
    var last := stages[|stages| - 1].sort;
    if |stages| == 1 then last
    else
      var rest := MinSort(stages[..|stages| - 1]);
      if rest <= last then rest else last
  }

  predicate IsMissing(stages: seq<BoardStage>, spec: Spec, successSort: int) {
    spec.semantics == Process && spec.sort > successSort && FindId(stages, spec.statusId).None?
  }

  /** The process specs that sort after success and have no stage yet, in their order. */
  function Missing(stages: seq<BoardStage>, specs: seq<Spec>, successSort: int): seq<Spec> {
    if specs == [] then []
    else
      var front, spec := Missing(stages, specs[..|specs| - 1], successSort), specs[|specs| - 1];
      if IsMissing(stages, spec, successSort) then front + [spec] else front
  }

  function ToPrecreate(stages: seq<BoardStage>, specs: seq<Spec>): seq<Spec> {
    var success := Having(stages, Success);
    if success == [] then [] else Missing(stages, specs, MinSort(success))
  }

  function StartSort(successSort: int, count: nat): int {
    if successSort - count >= 1 then successSort - count else 1
  }

  /** The stages added for these specs, their ids and sorts consecutive. */
  function NewStages(missing: seq<Spec>, start: int, nextId: int): (r: seq<BoardStage>)
    ensures |r| == |missing|
    ensures forall n | 0 <= n < |r| :: r[n] == BoardStage(nextId + n, missing[n].statusId, missing[n].name, start + n, Process)
  {
    seq(|missing|, n requires 0 <= n < |missing| =>
      BoardStage(nextId + n, missing[n].statusId, missing[n].name, start + n, Process))
  }

  function StartOf(stages: seq<BoardStage>, specs: seq<Spec>): int {
    var success := Having(stages, Success);
    if success == [] then 1 else StartSort(MinSort(success), |ToPrecreate(stages, specs)|)
  }

  /** The old list with the missing stages behind it. */
  function AfterPrecreate(stages: seq<BoardStage>, specs: seq<Spec>, nextId: int): seq<BoardStage> {
    stages + NewStages(ToPrecreate(stages, specs), StartOf(stages, specs), nextId)
  }

  lemma {:induction false} MissingAt(stages: seq<BoardStage>, specs: seq<Spec>, successSort: int, n: nat)
    requires n < |Missing(stages, specs, successSort)|
    ensures Missing(stages, specs, successSort)[n] in specs
    ensures IsMissing(stages, Missing(stages, specs, successSort)[n], successSort)
  {
    var rest := Missing(stages, specs[..|specs| - 1], successSort);
    if n < |rest| {
      MissingAt(stages, specs[..|specs| - 1], successSort, n);
    }
  }

  lemma {:induction false} MissingIndex(stages: seq<BoardStage>, specs: seq<Spec>, successSort: int, k: nat)
    returns (n: nat)
    requires k < |specs| && IsMissing(stages, specs[k], successSort)
    ensures n < |Missing(stages, specs, successSort)| && Missing(stages, specs, successSort)[n] == specs[k]
  {
    if k < |specs| - 1 {
      n := MissingIndex(stages, specs[..|specs| - 1], successSort, k);
    } else {
      n := |Missing(stages, specs[..|specs| - 1], successSort)|;
    }
  }

  lemma {:induction false} MissingDistinct(stages: seq<BoardStage>, specs: seq<Spec>, successSort: int)
    requires DistinctSpecs(specs)
    ensures DistinctSpecs(Missing(stages, specs, successSort))
  {
    if specs == [] {
    } else {
      var front, last := specs[..|specs| - 1], specs[|specs| - 1];
      MissingDistinct(stages, front, successSort);
      var rest := Missing(stages, front, successSort);
      forall n | 0 <= n < |rest| ensures rest[n].statusId != last.statusId && rest[n].name != last.name {
        MissingAt(stages, front, successSort, n);
        var k :| 0 <= k < |front| && front[k] == rest[n];
        assert specs[k] == rest[n];
      }
    }
  }

  /** Adds the missing stages; every addition is accepted. */
  method Precreate(server: StageServer, specs: seq<Spec>)
    requires server.Valid() && DistinctSpecs(specs)
    modifies server
    ensures server.Valid()
    ensures server.stages == AfterPrecreate(old(server.stages), specs, old(server.nextId))
  {
    var stages := server.stages;
    var success := Having(stages, Success);
    if success == [] {
      return;
    }
    var successSort := MinSort(success);
    var missing := Missing(stages, specs, successSort);
    if missing == [] {
      return;
    }
    MissingDistinct(stages, specs, successSort);
    AddAll(server, missing, StartSort(successSort, |missing|), specs, successSort);
  }

  /** The first `n` missing stages have been added. */
  predicate AddedUpTo(now: seq<BoardStage>, stages: seq<BoardStage>, missing: seq<Spec>, n: nat, start: int, nextId: int) {
    n <= |missing| && now == stages + NewStages(missing[..n], start, nextId)
  }

  /** The additions, in order; every one is accepted. */
  method AddAll(server: StageServer, missing: seq<Spec>, start: int, ghost specs: seq<Spec>, ghost successSort: int)
    requires server.Valid()
    requires DistinctSpecs(missing) && missing == Missing(server.stages, specs, successSort)
    modifies server
    ensures server.Valid() && server.stages == old(server.stages) + NewStages(missing, start, old(server.nextId))
  {
    ghost var stages, nextId := server.stages, server.nextId;
    NothingAdded(stages, missing, start, nextId);
    for n := 0 to |missing|
      invariant server.Valid() && server.nextId == nextId + n
      invariant AddedUpTo(server.stages, stages, missing, n, start, nextId)
    {
      MissingAt(stages, specs, successSort, n);
      AddOne(server, missing, n, start, stages, nextId);
    }
    assert missing[..|missing|] == missing;
  }

  method AddOne(server: StageServer, missing: seq<Spec>, n: nat, start: int, ghost stages: seq<BoardStage>,
                ghost nextId: int)
    requires server.Valid() && server.nextId == nextId + n && n < |missing| && DistinctSpecs(missing)
    requires AddedUpTo(server.stages, stages, missing, n, start, nextId) && FindId(stages, missing[n].statusId).None?
    modifies server
    ensures server.Valid() && server.nextId == nextId + n + 1
    ensures AddedUpTo(server.stages, stages, missing, n + 1, start, nextId)
  {
    NotYet(stages, missing, n, start, nextId);
    OneMoreStage(stages, missing, n, start, nextId);
    var ok := server.Add(missing[n].statusId, missing[n].name, start + n, Process);
  }

  lemma NothingAdded(stages: seq<BoardStage>, missing: seq<Spec>, start: int, nextId: int)
    ensures AddedUpTo(stages, stages, missing, 0, start, nextId)
  {
    assert stages + NewStages([], start, nextId) == stages;
  }

  lemma {:induction false} OneMoreStage(stages: seq<BoardStage>, missing: seq<Spec>, n: nat, start: int, nextId: int)
    requires n < |missing|
    ensures stages + NewStages(missing[..n + 1], start, nextId) ==
            stages + NewStages(missing[..n], start, nextId) +
            [BoardStage(nextId + n, missing[n].statusId, missing[n].name, start + n, Process)]
  {
    assert NewStages(missing[..n + 1], start, nextId) ==
           NewStages(missing[..n], start, nextId) +
           [BoardStage(nextId + n, missing[n].statusId, missing[n].name, start + n, Process)];
  }

  lemma {:induction false} NotYet(stages: seq<BoardStage>, missing: seq<Spec>, n: nat, start: int, nextId: int)
    requires n < |missing| && DistinctSpecs(missing) && FindId(stages, missing[n].statusId).None?
    ensures !HasStage(stages + NewStages(missing[..n], start, nextId), missing[n].statusId)
  {
    var added := NewStages(missing[..n], start, nextId);
    forall i | 0 <= i < |stages + added| ensures (stages + added)[i].statusId != missing[n].statusId {
      if i < |stages| {
        assert stages[i] in stages;
      } else {
        assert added[i - |stages|].statusId == missing[i - |stages|].statusId;
      }
    }
  }

  /** Every new stage sorts before every success stage exactly when the success sort leaves enough room. */
  lemma {:induction false} PrecreatedSortsBeforeSuccess(before: seq<BoardStage>, specs: seq<Spec>, nextId: int)
    requires ToPrecreate(before, specs) != []
    ensures var after := AfterPrecreate(before, specs, nextId);
            (forall n, k | |before| <= n < |after| && 0 <= k < |before| && before[k].semantics == Success ::
               after[n].sort < before[k].sort) <==>
            |ToPrecreate(before, specs)| < MinSort(Having(before, Success))
  {
    var missing, success := ToPrecreate(before, specs), Having(before, Success);
    var after, low := AfterPrecreate(before, specs, nextId), MinSort(success);
    HavingMembers(before, Success);
    var m :| 0 <= m < |success| && success[m].sort == low;
    assert success[m] in success;
    var k :| 0 <= k < |before| && before[k] == success[m];
    assert after[|after| - 1].sort == StartOf(before, specs) + |missing| - 1;
    if |missing| < low {
      forall n, j | |before| <= n < |after| && 0 <= j < |before| && before[j].semantics == Success
        ensures after[n].sort < before[j].sort
      {
        assert before[j] in success;
        var i :| 0 <= i < |success| && success[i] == before[j];
        assert low <= success[i].sort;
      }
    }
  }
}
