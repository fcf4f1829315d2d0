/** Two boards on which the procurement dry run and the apply part: the one Bitrix creates, and one whose failure
    stages change places. */
module StageSurprise {
  import opened OrderDomain
  import opened StageBoard
  import opened StageMerge
  import opened StageClaims
  import opened StageEnsure
  import opened StagePrecreate
  import opened StageDirect
  import opened StageForecast
  import opened StagePipeline

  /** The "ordinary" entry of `CATEGORY_SPECS`. */
  function OrdinarySpecs(prefix: string): seq<Spec> {
    [Spec("supplier_order", TableId(prefix, "NEW"), SUPPLIER_ORDER, 100, Process),
     Spec("waiting_delivery", TableId(prefix, "WAITING"), "Ожидаем поставку", 200, Process),
     Spec("receiving", TableId(prefix, "RECEIVING"), "Приемка на склад", 300, Process),
     Spec("closed", TableId(prefix, "CLOSED"), "Закрыто", 900, Success),
     Spec("cancelled", TableId(prefix, "CANCELLED"), "Отменено / не пошло", 1000, Failure)]
  }

  /** A new category: start, two steps, success and failure. */
  function DefaultBoard(prefix: string): seq<BoardStage> {
    [BoardStage(1, TableId(prefix, "NEW"), "Начало", 10, Process),
     BoardStage(2, TableId(prefix, "PREPARATION"), "Подготовка", 20, Process),
     BoardStage(3, TableId(prefix, "CLIENT"), "Согласование", 30, Process),
     BoardStage(4, TableId(prefix, "SUCCESS"), "Успех", 40, Success),
     BoardStage(5, TableId(prefix, "FAIL"), "Провал", 50, Failure)]
  }

  const CODES: seq<string> :=
    ["NEW", "WAITING", "RECEIVING", "CLOSED", "CANCELLED", "PREPARATION", "CLIENT", "SUCCESS", "FAIL", "TERMS", "ORDER"]

  lemma CodesDiffer(prefix: string)
    ensures forall i, j | 0 <= i < j < |CODES| :: TableId(prefix, CODES[i]) != TableId(prefix, CODES[j])
  {
    forall i, j | 0 <= i < j < |CODES| ensures TableId(prefix, CODES[i]) != TableId(prefix, CODES[j]) {
      if TableId(prefix, CODES[i]) == TableId(prefix, CODES[j]) {
        TableIdInjective(prefix, CODES[i], CODES[j]);
        assert false;
      }
    }
  }

  lemma {:induction false} DefaultIsUnique(prefix: string)
    ensures UniqueStages(DefaultBoard(prefix))
  {
    CodesDiffer(prefix);
    assert CODES[0] == "NEW" && CODES[5] == "PREPARATION" && CODES[6] == "CLIENT" && CODES[7] == "SUCCESS";
    assert CODES[8] == "FAIL";
  }

  lemma {:induction false} OrdinaryIsDistinct(prefix: string)
    ensures DistinctSpecs(OrdinarySpecs(prefix)) && OneSuccessSpec(OrdinarySpecs(prefix))
  {
    CodesDiffer(prefix);
    assert CODES[0] == "NEW" && CODES[1] == "WAITING" && CODES[2] == "RECEIVING" && CODES[3] == "CLOSED";
    assert CODES[4] == "CANCELLED";
  }

  lemma {:induction false} DefaultProcess(prefix: string)
    ensures Ids(Sorted(Having(DefaultBoard(prefix), Process))) ==
            [TableId(prefix, "NEW"), TableId(prefix, "PREPARATION"), TableId(prefix, "CLIENT")]
  {
    var b := DefaultBoard(prefix);
    var s1, s2, s3 := b[0], b[1], b[2];
    assert b == [s1] + [s2] + [s3] + [b[3]] + [b[4]];
    assert Having([], Process) == [] && [] + [s1] == [s1];
    HavingAppend([], s1, Process);
    HavingAppend([s1], s2, Process);
    HavingAppend([s1] + [s2], s3, Process);
    HavingAppend([s1] + [s2] + [s3], b[3], Process);
    HavingAppend([s1] + [s2] + [s3] + [b[3]], b[4], Process);
    assert Sorted([]) == [];
    SortedAppend([], s1);
    SortedAppend([s1], s2);
    SortedAppend([s1] + [s2], s3);
  }

  /** Behind a matched first spec, a process spec without a stage claims the first free one. */
  lemma {:induction false} SecondClaimsFirstFree(board: seq<BoardStage>, specs: seq<Spec>, x: string)
    requires UniqueStages(board) && DistinctSpecs(specs) && OneSuccessSpec(specs) && |specs| > 1
    requires IsIdOf(board, specs[0].statusId) && !IsIdOf(board, specs[1].statusId) && specs[1].semantics == Process
    requires Nth(Free(Ids(Sorted(Having(board, Process))), ExpectedIds(specs)), 0) == Some(x)
    ensures |ClaimsOf(board, specs)| == |specs| && ClaimsOf(board, specs)[1] == Some(x)
  {
    var env := EnvOf(board, specs);
    ClaimsAreDirect(board, specs);
    assert specs[0].statusId in env.ids && specs[1].statusId !in env.ids;
    assert Rank(env, specs, 1, Process) == Rank(env, specs, 0, Process) == 0;
  }

  /** The dry run means to rename the system's own first step into the waiting stage. */
  lemma {:induction false} DefaultPlan(prefix: string)
    ensures var plan := ClaimsOf(DefaultBoard(prefix), OrdinarySpecs(prefix));
            |plan| == 5 && plan[1] == Some(TableId(prefix, "PREPARATION"))
  {
    DefaultIsUnique(prefix);
    OrdinaryIsDistinct(prefix);
    DefaultProcess(prefix);
    FreeAfterNew(prefix);
    NewIsMatched(prefix);
    SecondClaimsFirstFree(DefaultBoard(prefix), OrdinarySpecs(prefix), TableId(prefix, "PREPARATION"));
  }

  lemma Differ(prefix: string, a: string, b: string)
    requires a != b
    ensures TableId(prefix, a) != TableId(prefix, b)
  {
    if TableId(prefix, a) == TableId(prefix, b) {
      TableIdInjective(prefix, a, b);
    }
  }

  lemma {:induction false} NewIsMatched(prefix: string)
    ensures IsIdOf(DefaultBoard(prefix), TableId(prefix, "NEW")) && !IsIdOf(DefaultBoard(prefix), TableId(prefix, "WAITING"))
  {
    var board, waiting := DefaultBoard(prefix), TableId(prefix, "WAITING");
    assert board[0] in board;
    Differ(prefix, "NEW", "WAITING");
    Differ(prefix, "PREPARATION", "WAITING");
    Differ(prefix, "CLIENT", "WAITING");
    Differ(prefix, "SUCCESS", "WAITING");
    Differ(prefix, "FAIL", "WAITING");
    forall k | 0 <= k < |board| ensures board[k].statusId != waiting {
    }
  }

  lemma {:induction false} FreeAfterNew(prefix: string)
    ensures var iter := [TableId(prefix, "NEW"), TableId(prefix, "PREPARATION"), TableId(prefix, "CLIENT")];
            Nth(Free(iter, ExpectedIds(OrdinarySpecs(prefix))), 0) == Some(TableId(prefix, "PREPARATION"))
  {
    var specs := OrdinarySpecs(prefix);
    var iter := [TableId(prefix, "NEW"), TableId(prefix, "PREPARATION"), TableId(prefix, "CLIENT")];
    assert specs[0].statusId in ExpectedIds(specs);
    CodesDiffer(prefix);
    assert CODES[0] == "NEW" && CODES[1] == "WAITING" && CODES[2] == "RECEIVING" && CODES[3] == "CLOSED";
    assert CODES[4] == "CANCELLED" && CODES[5] == "PREPARATION";
    assert iter[1..][0] == TableId(prefix, "PREPARATION");
  }

  lemma {:induction false} PreparationIsObsolete(prefix: string)
    ensures TableId(prefix, "PREPARATION") in Gone(DefaultBoard(prefix), OrdinaryMerges(prefix))
  {
    var merges, s := OrdinaryMerges(prefix), DefaultBoard(prefix)[1];
    CodesDiffer(prefix);
    assert CODES[0] == "NEW" && CODES[5] == "PREPARATION";
    assert IsOld(merges[0], s);
    assert s in DefaultBoard(prefix);
  }

  /** A process spec behind every success stage, without a stage of its own, gets one. */
  lemma {:induction false} BehindSuccessIsBorn(left: seq<BoardStage>, specs: seq<Spec>, k: nat, success: BoardStage)
    requires k < |specs| && specs[k].semantics == Process && !IsIdOf(left, specs[k].statusId)
    requires success in left && success.semantics == Success
    requires forall s | s in left && s.semantics == Success :: s.sort < specs[k].sort
    ensures specs[k].statusId in ExpectedIds(ToPrecreate(left, specs))
  {
    var found, missing := Having(left, Success), ToPrecreate(left, specs);
    HavingMembers(left, Success);
    assert success in found;
    var m :| 0 <= m < |found| && found[m].sort == MinSort(found);
    assert found[m] in found;
    var n := MissingIndex(left, specs, MinSort(found), k);
    assert missing[n].statusId == specs[k].statusId;
  }

  /** The merges leave the success stage, and no stage bears the waiting stage's id. */
  lemma {:induction false} WaitingIsBorn(prefix: string)
    ensures TableId(prefix, "WAITING") in Born(DefaultBoard(prefix), OrdinaryMerges(prefix), OrdinarySpecs(prefix))
  {
    var board, merges, specs := DefaultBoard(prefix), OrdinaryMerges(prefix), OrdinarySpecs(prefix);
    var left := Left(board, merges);
    WithoutMembers(board, Gone(board, merges));
    SuccessIsLeft(prefix);
    NewIsMatched(prefix);
    assert !IsIdOf(left, specs[1].statusId);
    forall s | s in left && s.semantics == Success ensures s.sort < specs[1].sort {
      assert s in board;
    }
    BehindSuccessIsBorn(left, specs, 1, board[3]);
  }

  lemma {:induction false} SuccessIsLeft(prefix: string)
    ensures DefaultBoard(prefix)[3] in Left(DefaultBoard(prefix), OrdinaryMerges(prefix))
  {
    var board, merges := DefaultBoard(prefix), OrdinaryMerges(prefix);
    var s := board[3];
    WithoutMembers(board, Gone(board, merges));
    CodesDiffer(prefix);
    assert CODES[5] == "PREPARATION" && CODES[6] == "CLIENT" && CODES[7] == "SUCCESS" && CODES[9] == "TERMS";
    assert CODES[10] == "ORDER" && CODES[0] == "NEW" && CODES[8] == "FAIL";
    assert !IsObsolete(merges, s);
    forall t | t in board && t.statusId == s.statusId ensures t == s {
    }
  }

  /** So on the board of a new category the dry run announces an update of a stage that the apply deletes, for a
      spec that the apply adds a stage for. */
  lemma {:induction false} DefaultBoardParts(prefix: string)
    ensures var board, merges, specs := DefaultBoard(prefix), OrdinaryMerges(prefix), OrdinarySpecs(prefix);
            var plan := ClaimsOf(board, specs);
            |plan| == |specs| && !PlanAvoids(plan, Gone(board, merges)) && !PlanAdds(plan, specs, Born(board, merges, specs))
  {
    var board, merges, specs := DefaultBoard(prefix), OrdinaryMerges(prefix), OrdinarySpecs(prefix);
    DefaultIsUnique(prefix);
    OrdinaryIsDistinct(prefix);
    DefaultPlan(prefix);
    PreparationIsObsolete(prefix);
    WaitingIsBorn(prefix);
    assert specs[1].statusId in Born(board, merges, specs);
  }

  // ---------- new stages that overtake success ----------

  /** A success stage that the first addition would have to share its place with. */
  function EarlySuccess(prefix: string): BoardStage { BoardStage(1, TableId(prefix, "SUCCESS"), "Успех", 2, Success) }

  lemma {:induction false} AllThreeAreMissing(prefix: string)
    ensures ToPrecreate([EarlySuccess(prefix)], OrdinarySpecs(prefix)) == OrdinarySpecs(prefix)[..3]
    ensures Having([EarlySuccess(prefix)], Success) == [EarlySuccess(prefix)]
  {
    var board, specs := [EarlySuccess(prefix)], OrdinarySpecs(prefix);
    assert board[..0] == [];
    assert MinSort(board) == 2;
    Differ(prefix, "SUCCESS", "NEW");
    Differ(prefix, "SUCCESS", "WAITING");
    Differ(prefix, "SUCCESS", "RECEIVING");
    ThreeOfFive(board, specs[0], specs[1], specs[2], specs[3], specs[4], 2);
    assert specs == [specs[0]] + [specs[1]] + [specs[2]] + [specs[3]] + [specs[4]];
    assert specs[..3] == [specs[0]] + [specs[1]] + [specs[2]];
    assert Having(board, Success) == board by {
      assert Having([], Success) == [] && [] + board == board;
    }
    assert ToPrecreate(board, specs) == Missing(board, specs, MinSort(board));
  }

  lemma MissingAppend(board: seq<BoardStage>, front: seq<Spec>, s: Spec, successSort: int)
    ensures Missing(board, front + [s], successSort) ==
            if IsMissing(board, s, successSort) then Missing(board, front, successSort) + [s]
            else Missing(board, front, successSort)
  {
    assert (front + [s])[..|front|] == front;
  }

  /** Of five specs the first three are missing. */
  lemma {:induction false} ThreeOfFive(board: seq<BoardStage>, a: Spec, b: Spec, c: Spec, d: Spec, e: Spec,
                                       successSort: int)
    requires IsMissing(board, a, successSort) && IsMissing(board, b, successSort) && IsMissing(board, c, successSort)
    requires !IsMissing(board, d, successSort) && !IsMissing(board, e, successSort)
    ensures Missing(board, [a] + [b] + [c] + [d] + [e], successSort) == [a] + [b] + [c]
  {
    assert Missing(board, [], successSort) == [] && [] + [a] == [a];
    MissingAppend(board, [], a, successSort);
    MissingAppend(board, [a], b, successSort);
    MissingAppend(board, [a] + [b], c, successSort);
    MissingAppend(board, [a] + [b] + [c], d, successSort);
    MissingAppend(board, [a] + [b] + [c] + [d], e, successSort);
  }

  /** With a success stage at SORT 2 and three steps to add, the last one is added behind it. */
  lemma {:induction false} PrecreatedOvertakes(prefix: string, nextId: int)
    ensures var after := AfterPrecreate([EarlySuccess(prefix)], OrdinarySpecs(prefix), nextId);
            |after| == 4 && after[0] == EarlySuccess(prefix) && after[3].statusId == TableId(prefix, "RECEIVING") &&
            after[3].sort == 3 > after[0].sort
  {
    AllThreeAreMissing(prefix);
    assert MinSort([EarlySuccess(prefix)]) == 2;
  }

  // ---------- failure stages that change places ----------

  /** The two failure stages a category may start with, listed with the later one first. */
  function LateStage(prefix: string): BoardStage { BoardStage(1, TableId(prefix, "FAIL"), "Провал", 60, Failure) }

  function EarlyStage(prefix: string): BoardStage { BoardStage(2, TableId(prefix, "APOLOGY"), "Анализ провала", 50, Failure) }

  /** What a failure stage becomes that sorts among the process steps. */
  function Cancelled(s: BoardStage): BoardStage { s.(name := "Отменено / не пошло", sort := 1000) }

  lemma {:induction false} OrdinaryTerminals(prefix: string)
    ensures MaxProcessSort(OrdinarySpecs(prefix)) == 300
    ensures LastSpec(OrdinarySpecs(prefix), Failure) == Some(OrdinarySpecs(prefix)[4])
  {
    var specs := OrdinarySpecs(prefix);
    assert specs[..4][..3] == specs[..3] && specs[..3][..2] == specs[..2] && specs[..2][..1] == specs[..1];
    assert MaxProcessSort(specs[..1]) == 100 by {
      assert specs[..1][..0] == [];
    }
    assert HasProcessSpec(specs[..1]) && HasProcessSpec(specs[..2]) by {
      assert specs[..1][0].semantics == Process && specs[..2][0].semantics == Process;
    }
    assert MaxProcessSort(specs[..2]) == 200;
    assert MaxProcessSort(specs[..3]) == 300;
    assert MaxProcessSort(specs[..4]) == 300;
  }

  lemma {:induction false} BothMove(prefix: string)
    ensures TerminalsMoved([LateStage(prefix), EarlyStage(prefix)], OrdinarySpecs(prefix)) ==
            [Cancelled(LateStage(prefix)), Cancelled(EarlyStage(prefix))]
  {
    OrdinaryTerminals(prefix);
  }

  lemma IdsOfCodes(prefix: string, code: string, codes: set<string>)
    ensures TableId(prefix, code) in IdsOf(prefix, codes) <==> code in codes
  {
    if TableId(prefix, code) in IdsOf(prefix, codes) {
      var c :| c in codes && TableId(prefix, c) == TableId(prefix, code);
      TableIdInjective(prefix, c, code);
    }
  }

  /** No merge looks for a failure stage. */
  lemma {:induction false} NotObsolete(prefix: string, s: BoardStage, code: string)
    requires s.statusId == TableId(prefix, code) && code !in {"PREPARATION", "TERMS", "CLIENT", "ORDER"}
    requires s.name !in {SUPPLIER_TERMS, SUPPLIER_ORDER}
    ensures !IsObsolete(OrdinaryMerges(prefix), s)
  {
    IdsOfCodes(prefix, code, {"PREPARATION", "TERMS"});
    IdsOfCodes(prefix, code, {"CLIENT", "ORDER"});
  }

  lemma {:induction false} NotExpected(prefix: string, code: string)
    requires code !in {"NEW", "WAITING", "RECEIVING", "CLOSED", "CANCELLED"}
    ensures TableId(prefix, code) !in ExpectedIds(OrdinarySpecs(prefix))
  {
    Differ(prefix, code, "NEW");
    Differ(prefix, code, "WAITING");
    Differ(prefix, code, "RECEIVING");
    Differ(prefix, code, "CLOSED");
    Differ(prefix, code, "CANCELLED");
  }

  lemma NamesDiffer(prefix: string)
    ensures LateStage(prefix).name !in {SUPPLIER_TERMS, SUPPLIER_ORDER}
    ensures EarlyStage(prefix).name !in {SUPPLIER_TERMS, SUPPLIER_ORDER}
  {
    assert LateStage(prefix).name[0] == 'П' && EarlyStage(prefix).name[0] == 'А';
    assert SUPPLIER_TERMS[0] == 'С' && SUPPLIER_ORDER[0] == 'З';
  }

  lemma {:induction false} NothingGoes(prefix: string)
    ensures var board := [LateStage(prefix), EarlyStage(prefix)]; Left(board, OrdinaryMerges(prefix)) == board
  {
    NamesDiffer(prefix);
    NotObsolete(prefix, LateStage(prefix), "FAIL");
    NotObsolete(prefix, EarlyStage(prefix), "APOLOGY");
    var board, merges := [LateStage(prefix), EarlyStage(prefix)], OrdinaryMerges(prefix);
    assert Gone(board, merges) == {};
    WithoutNone(board);
  }

  lemma {:induction false} TwoFailures(a: BoardStage, b: BoardStage)
    requires a.semantics == b.semantics == Failure
    ensures Sorted(Having([a, b], Failure)) == if a.sort <= b.sort then [a, b] else [b, a]
  {
    assert [a, b] == [a] + [b] && [] + [a] == [a];
    HavingAppend([], a, Failure);
    HavingAppend([a], b, Failure);
    assert Sorted([]) == [];
    SortedAppend([], a);
    SortedAppend([a], b);
    assert [a][..0] == [];
  }

  lemma {:induction false} TwoFailuresEnv(a: BoardStage, b: BoardStage, specs: seq<Spec>)
    requires a.semantics == b.semantics == Failure
    ensures EnvOf([a, b], specs).failure ==
            if a.sort <= b.sort then [a.statusId, b.statusId] else [b.statusId, a.statusId]
  {
    TwoFailures(a, b);
    TwoIds(a, b);
    TwoIds(b, a);
  }

  lemma TwoIds(a: BoardStage, b: BoardStage)
    ensures Ids([a, b]) == [a.statusId, b.statusId]
  {
  }

  /** Bitrix's two failure stages, listed with the later one first, both sort among the process steps; they move to one
      and the same SORT, and the tie is decided by the order in which the server lists them. */
  lemma {:induction false} TieParts(prefix: string)
    ensures !FailuresKeepOrder([LateStage(prefix), EarlyStage(prefix)], OrdinaryMerges(prefix), OrdinarySpecs(prefix))
  {
    var late, early, specs := LateStage(prefix), EarlyStage(prefix), OrdinarySpecs(prefix);
    NothingGoes(prefix);
    BothMove(prefix);
    TwoFailuresEnv(late, early, specs);
    TwoFailuresEnv(Cancelled(late), Cancelled(early), specs);
    NotExpected(prefix, "FAIL");
    NotExpected(prefix, "APOLOGY");
    Differ(prefix, "FAIL", "APOLOGY");
    assert specs[4].statusId in ExpectedIds(specs);
    SwappedPart(EnvOf([late, early], specs), EnvOf([Cancelled(late), Cancelled(early)], specs), specs, late.statusId,
                early.statusId);
  }

  /** Two free failure stages change places while a failure spec needs the first of them. */
  lemma {:induction false} SwappedPart(before: Env, after: Env, specs: seq<Spec>, late: string, early: string)
    requires before.failure == [early, late] && after.failure == [late, early] && late != early
    requires before.expected == after.expected && late !in before.expected && early !in before.expected
    requires |specs| > 0 && Unmatched(before, specs, |specs| - 1, Failure)
    ensures !SameFailures(before, after, specs)
  {
    assert Free(before.failure, before.expected)[0] == early && Free(after.failure, after.expected)[0] == late;
    assert Nth(Free(before.failure, before.expected), 0) != Nth(Free(after.failure, after.expected), 0);
    assert Rank(before, specs, |specs|, Failure) == Rank(before, specs, |specs| - 1, Failure) + 1;
  }
}
