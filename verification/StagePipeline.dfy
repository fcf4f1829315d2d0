/** The procurement set-up of one category, from the list its dry run reads to the claims of its apply: merge and
    delete obsolete stages, precreate missing ones, move the terminal stages, ensure the rest. */
module StagePipeline {
  import opened OrderDomain
  import opened StageBoard
  import StageCleanup
  import opened StageMerge
  import opened StageClaims
  import opened StageEnsure
  import opened StagePrecreate
  import opened StageDirect
  import opened StageForecast

  // ---------- moving the terminal stages ----------

  function MaxProcessSort(specs: seq<Spec>): int {
    if specs == [] then 0
    else
      var front, last := specs[..|specs| - 1], specs[|specs| - 1];
      if last.semantics != Process then MaxProcessSort(front)
      else if HasProcessSpec(front) then (if MaxProcessSort(front) >= last.sort then MaxProcessSort(front) else last.sort)
      else last.sort
  }

  /** Some spec is a process spec. */
  predicate HasProcessSpec(specs: seq<Spec>) { exists k | 0 <= k < |specs| :: specs[k].semantics == Process }

  /** The spec whose name and sort a terminal stage gets: the last one of its semantics. */
  function LastSpec(specs: seq<Spec>, semantics: Semantics): Option<Spec> {
    if specs == [] then None
    else if specs[|specs| - 1].semantics == semantics then Some(specs[|specs| - 1])
    else LastSpec(specs[..|specs| - 1], semantics)
  }

  /** A terminal stage that sorts among the process steps moves behind them. */
  predicate MustMove(s: BoardStage, specs: seq<Spec>) {
    s.semantics != Process && MaxProcessSort(specs) != 0 && s.sort <= MaxProcessSort(specs) &&
    LastSpec(specs, s.semantics).Some? && LastSpec(specs, s.semantics).value.sort != 0
  }

  function TerminalMoved(s: BoardStage, specs: seq<Spec>): BoardStage {
    if MustMove(s, specs)
    then s.(name := LastSpec(specs, s.semantics).value.name, sort := LastSpec(specs, s.semantics).value.sort) else s
  }

  function TerminalsMoved(stages: seq<BoardStage>, specs: seq<Spec>): (r: seq<BoardStage>)
    ensures |r| == |stages| && forall k | 0 <= k < |r| :: r[k] == TerminalMoved(stages[k], specs)
  {
    seq(|stages|, k requires 0 <= k < |stages| => TerminalMoved(stages[k], specs))
  }

  /** `move_terminal_stages_after_process_steps` */
  method MoveTerminals(server: StageServer, specs: seq<Spec>)
    requires server.Valid()
    modifies server`stages
    ensures server.Valid() && server.stages == TerminalsMoved(old(server.stages), specs)
  {
    var stages := server.stages;
    for n := 0 to |stages|
      invariant server.Valid() && |server.stages| == |stages|
      invariant forall k | 0 <= k < |stages| ::
                  server.stages[k] == if k < n then TerminalMoved(stages[k], specs) else stages[k]
    {
      var s := stages[n];
      if MustMove(s, specs) {
        var spec := LastSpec(specs, s.semantics).value;
        server.Update(s.dbId, Fields(Some(spec.name), spec.sort, Some(s.semantics)));
      }
    }
  }

  // ---------- what the steps do to the list ----------

  function Gone(listed: seq<BoardStage>, merges: seq<Merge>): set<string> { ObsoleteIds(merges, listed) }

  function Left(listed: seq<BoardStage>, merges: seq<Merge>): seq<BoardStage> {
    Without(listed, Gone(listed, merges))
  }

  /** The ids of the specs that get a stage before `ensure_stages`. */
  function Born(listed: seq<BoardStage>, merges: seq<Merge>, specs: seq<Spec>): set<string> {
    ExpectedIds(ToPrecreate(Left(listed, merges), specs))
  }

  /** Process stages for these specs were appended. */
  predicate Appended(before: seq<BoardStage>, after: seq<BoardStage>, missing: seq<Spec>) {
    |after| == |before| + |missing| && after[..|before|] == before &&
    forall n | 0 <= n < |missing| ::
      after[|before| + n].statusId == missing[n].statusId && after[|before| + n].semantics == Process
  }

  lemma {:induction false} WithoutMembers(stages: seq<BoardStage>, ids: set<string>)
    ensures forall s :: s in Without(stages, ids) <==> s in stages && s.statusId !in ids
  {
    if stages == [] {
      assert Without(stages, ids) == [];
    } else {
      WithoutMembers(stages[..|stages| - 1], ids);
      assert stages == stages[..|stages| - 1] + [stages[|stages| - 1]];
    }
  }

  lemma {:induction false} WithoutUnique(stages: seq<BoardStage>, ids: set<string>)
    requires UniqueStages(stages)
    ensures UniqueStages(Without(stages, ids))
  {
    if stages == [] {
      assert Without(stages, ids) == [];
    } else {
      var rest, last := stages[..|stages| - 1], stages[|stages| - 1];
      WithoutUnique(rest, ids);
      WithoutMembers(rest, ids);
      var front := Without(rest, ids);
      forall k | 0 <= k < |front| ensures front[k].dbId != last.dbId && front[k].statusId != last.statusId {
        assert front[k] in front;
        var m :| 0 <= m < |rest| && rest[m] == front[k];
        assert stages[m] == front[k];
      }
    }
  }

  lemma {:induction false} WithoutCommutes(stages: seq<BoardStage>, a: set<string>, b: set<string>)
    ensures Without(Without(stages, a), b) == Without(Without(stages, b), a)
  {
    if stages == [] {
      assert Without(stages, a) == [] == Without(stages, b);
    } else {
      var front, last := stages[..|stages| - 1], stages[|stages| - 1];
      WithoutCommutes(front, a, b);
      WithoutAppend(Without(front, a), last, b);
      WithoutAppend(Without(front, b), last, a);
    }
  }

  lemma {:induction false} WithoutAppend(stages: seq<BoardStage>, s: BoardStage, ids: set<string>)
    ensures Without(stages + [s], ids) == if s.statusId in ids then Without(stages, ids) else Without(stages, ids) + [s]
  {
    assert (stages + [s])[..|stages|] == stages;
  }

  lemma {:induction false} HavingWithout(stages: seq<BoardStage>, ids: set<string>, semantics: Semantics)
    ensures Having(Without(stages, ids), semantics) == Without(Having(stages, semantics), ids)
  {
    if stages == [] {
      assert Without(stages, ids) == [] == Having(stages, semantics);
    } else {
      var front, last := stages[..|stages| - 1], stages[|stages| - 1];
      HavingWithout(front, ids, semantics);
      assert stages == front + [last];
      HavingAppend(front, last, semantics);
      HavingAppend(Without(front, ids), last, semantics);
      WithoutAppend(Having(front, semantics), last, ids);
    }
  }

  lemma {:induction false} HavingAppend(stages: seq<BoardStage>, s: BoardStage, semantics: Semantics)
    ensures Having(stages + [s], semantics) ==
            if s.semantics == semantics then Having(stages, semantics) + [s] else Having(stages, semantics)
  {
    assert (stages + [s])[..|stages|] == stages;
  }

  lemma {:induction false} InsertWithout(sorted: seq<BoardStage>, s: BoardStage, ids: set<string>)
    requires Ascends(sorted)
    ensures Without(InsertStage(sorted, s), ids) ==
            if s.statusId in ids then Without(sorted, ids) else InsertStage(Without(sorted, ids), s)
  {
    if sorted == [] || sorted[|sorted| - 1].sort <= s.sort {
      InsertAtEnd(sorted, s, ids);
    } else {
      var front, last := sorted[..|sorted| - 1], sorted[|sorted| - 1];
      assert sorted == front + [last];
      InsertWithout(front, s, ids);
      WithoutAppend(InsertStage(front, s), last, ids);
      WithoutAppend(front, last, ids);
      if s.statusId !in ids && last.statusId !in ids {
        InsertBefore(Without(front, ids), last, s);
      }
    }
  }

  lemma InsertBefore(front: seq<BoardStage>, last: BoardStage, s: BoardStage)
    requires last.sort > s.sort
    ensures InsertStage(front + [last], s) == InsertStage(front, s) + [last]
  {
    assert (front + [last])[..|front|] == front;
  }

  lemma {:induction false} InsertAtEnd(sorted: seq<BoardStage>, s: BoardStage, ids: set<string>)
    requires Ascends(sorted) && (sorted == [] || sorted[|sorted| - 1].sort <= s.sort)
    ensures Without(InsertStage(sorted, s), ids) ==
            if s.statusId in ids then Without(sorted, ids) else InsertStage(Without(sorted, ids), s)
  {
    WithoutAppend(sorted, s, ids);
    WithoutMembers(sorted, ids);
    var left := Without(sorted, ids);
    if left != [] {
      assert left[|left| - 1] in left;
      var k :| 0 <= k < |sorted| && sorted[k] == left[|left| - 1];
      assert left[|left| - 1].sort <= s.sort;
    }
  }

  lemma SortedIsOrdered(stages: seq<BoardStage>)
    ensures Ascends(Sorted(stages))
  {
    SortedOrder(stages);
  }

  lemma {:induction false} SortedWithout(stages: seq<BoardStage>, ids: set<string>)
    ensures Sorted(Without(stages, ids)) == Without(Sorted(stages), ids)
  {
    if stages == [] {
      assert Without(stages, ids) == [] == Sorted(stages);
    } else {
      var front, last := stages[..|stages| - 1], stages[|stages| - 1];
      SortedWithout(front, ids);
      SortedIsOrdered(front);
      InsertWithout(Sorted(front), last, ids);
      SortedAppend(Without(front, ids), last);
    }
  }

  lemma {:induction false} SortedAppend(stages: seq<BoardStage>, s: BoardStage)
    ensures Sorted(stages + [s]) == InsertStage(Sorted(stages), s)
  {
    assert (stages + [s])[..|stages|] == stages;
  }

  lemma {:induction false} FreeAppend(iter: seq<string>, x: string, taken: set<string>)
    ensures Free(iter + [x], taken) == if x in taken then Free(iter, taken) else Free(iter, taken) + [x]
  {
    if iter == [] {
      assert iter + [x] == [x] && [x][1..] == [];
    } else {
      FreeAppend(iter[1..], x, taken);
      assert (iter + [x])[1..] == iter[1..] + [x];
    }
  }

  lemma {:induction false} FreeIds(stages: seq<BoardStage>, ids: set<string>)
    ensures Free(Ids(stages), ids) == Ids(Without(stages, ids))
  {
    if stages == [] {
      assert Ids(stages) == [];
    } else {
      var front, last := stages[..|stages| - 1], stages[|stages| - 1];
      FreeIds(front, ids);
      assert Ids(stages) == Ids(front) + [last.statusId];
      FreeAppend(Ids(front), last.statusId, ids);
    }
  }

  /** The free stages of one semantics, read off the list. */
  lemma {:induction false} FreeOf(stages: seq<BoardStage>, semantics: Semantics, ids: set<string>)
    ensures Free(Ids(Sorted(Having(stages, semantics))), ids) == Ids(Sorted(Having(Without(stages, ids), semantics)))
  {
    FreeIds(Sorted(Having(stages, semantics)), ids);
    SortedWithout(Having(stages, semantics), ids);
    HavingWithout(stages, ids, semantics);
  }

  /** Moving terminal stages keeps ids and semantics, and leaves process stages alone. */
  lemma {:induction false} MovedKeeps(stages: seq<BoardStage>, specs: seq<Spec>, semantics: Semantics)
    ensures Ids(Having(TerminalsMoved(stages, specs), semantics)) == Ids(Having(stages, semantics))
    ensures semantics == Process ==> Having(TerminalsMoved(stages, specs), semantics) == Having(stages, semantics)
  {
    var moved := TerminalsMoved(stages, specs);
    if stages == [] {
      assert moved == [];
    } else {
      var front := stages[..|stages| - 1];
      MovedKeeps(front, specs, semantics);
      assert moved[..|moved| - 1] == TerminalsMoved(front, specs);
    }
  }

  lemma {:induction false} MovedWithout(stages: seq<BoardStage>, specs: seq<Spec>, ids: set<string>)
    ensures Without(TerminalsMoved(stages, specs), ids) == TerminalsMoved(Without(stages, ids), specs)
  {
    var moved := TerminalsMoved(stages, specs);
    if stages == [] {
      assert moved == [];
    } else {
      var front, last := stages[..|stages| - 1], stages[|stages| - 1];
      MovedWithout(front, specs, ids);
      assert moved[..|moved| - 1] == TerminalsMoved(front, specs);
      assert TerminalsMoved(Without(front, ids) + [last], specs) ==
             TerminalsMoved(Without(front, ids), specs) + [TerminalMoved(last, specs)];
    }
  }

  /** What is appended for expected ids is not free, and no terminal stage. */
  lemma {:induction false} AppendedKeeps(before: seq<BoardStage>, after: seq<BoardStage>, missing: seq<Spec>,
                                         ids: set<string>, semantics: Semantics)
    requires Appended(before, after, missing)
    ensures ExpectedIds(missing) <= ids ==> Without(after, ids) == Without(before, ids)
    ensures semantics != Process ==> Having(after, semantics) == Having(before, semantics)
  {
    if missing == [] {
      assert after == before;
    } else {
      var n := |missing| - 1;
      var rest, last := after[..|after| - 1], after[|after| - 1];
      assert rest[..|before|] == before;
      forall m | 0 <= m < n
        ensures rest[|before| + m].statusId == missing[..n][m].statusId && rest[|before| + m].semantics == Process
      {
        assert after[|before| + m] == rest[|before| + m];
      }
      AppendedKeeps(before, rest, missing[..n], ids, semantics);
      assert after == rest + [last];
      assert after[|before| + n] == last;
      HavingAppend(rest, last, semantics);
      WithoutAppend(rest, last, ids);
      ExpectedIdsStep(missing);
    }
  }

  lemma {:induction false} ExpectedIdsStep(specs: seq<Spec>)
    requires specs != []
    ensures ExpectedIds(specs) == ExpectedIds(specs[..|specs| - 1]) + {specs[|specs| - 1].statusId}
  {
    var front := specs[..|specs| - 1];
    forall x | x in ExpectedIds(specs) ensures x in ExpectedIds(front) + {specs[|specs| - 1].statusId} {
      var k :| 0 <= k < |specs| && specs[k].statusId == x;
      if k < |front| { assert front[k].statusId == x; }
    }
    forall x | x in ExpectedIds(front) ensures x in ExpectedIds(specs) {
      var k :| 0 <= k < |front| && front[k].statusId == x;
      assert specs[k].statusId == x;
    }
  }

  // ---------- from the dry run's list to the apply's ----------

  /** `later` is the list `ensure_stages` reads, if the dry run read `listed`. */
  predicate Reached(listed: seq<BoardStage>, later: seq<BoardStage>, middle: seq<BoardStage>, merges: seq<Merge>,
                    specs: seq<Spec>) {
    Appended(Left(listed, merges), middle, ToPrecreate(Left(listed, merges), specs)) && UniqueStages(middle) &&
    later == TerminalsMoved(middle, specs)
  }

  lemma {:induction false} MovedUnique(stages: seq<BoardStage>, specs: seq<Spec>)
    requires UniqueStages(stages)
    ensures UniqueStages(TerminalsMoved(stages, specs))
  {
    var moved := TerminalsMoved(stages, specs);
    forall i, j | 0 <= i < j < |moved| ensures moved[i].dbId != moved[j].dbId && moved[i].statusId != moved[j].statusId {
      assert stages[i].dbId != stages[j].dbId;
    }
  }

  lemma {:induction false} PrecreatedAreMissing(stages: seq<BoardStage>, specs: seq<Spec>, x: string) returns (k: nat)
    requires x in ExpectedIds(ToPrecreate(stages, specs))
    ensures k < |specs| && specs[k].statusId == x && specs[k].semantics == Process && FindId(stages, x).None?
  {
    var missing := ToPrecreate(stages, specs);
    var n :| 0 <= n < |missing| && missing[n].statusId == x;
    MissingAt(stages, specs, MinSort(Having(stages, Success)), n);
    k :| 0 <= k < |specs| && specs[k] == missing[n];
  }

  predicate IsIdOf(stages: seq<BoardStage>, x: string) { exists s :: s in stages && s.statusId == x }

  lemma LeftIds(listed: seq<BoardStage>, gone: set<string>, x: string)
    ensures IsIdOf(Without(listed, gone), x) <==> IsIdOf(listed, x) && x !in gone
  {
    WithoutMembers(listed, gone);
    if IsIdOf(listed, x) && x !in gone {
      var s :| s in listed && s.statusId == x;
      assert s in Without(listed, gone);
    }
  }

  lemma {:induction false} AppendedIds(left: seq<BoardStage>, middle: seq<BoardStage>, missing: seq<Spec>, x: string)
    requires Appended(left, middle, missing)
    ensures IsIdOf(middle, x) <==> IsIdOf(left, x) || x in ExpectedIds(missing)
  {
    assert middle == left + middle[|left|..];
    if IsIdOf(middle, x) {
      var s :| s in middle && s.statusId == x;
      var k :| 0 <= k < |middle| && middle[k] == s;
      if k >= |left| {
        assert middle[|left| + (k - |left|)].statusId == missing[k - |left|].statusId;
      }
    }
    if x in ExpectedIds(missing) {
      var n :| 0 <= n < |missing| && missing[n].statusId == x;
      assert middle[|left| + n] in middle;
    }
  }

  lemma MovedIds(stages: seq<BoardStage>, specs: seq<Spec>, x: string)
    ensures IsIdOf(TerminalsMoved(stages, specs), x) <==> IsIdOf(stages, x)
  {
    var moved := TerminalsMoved(stages, specs);
    if IsIdOf(stages, x) {
      var s :| s in stages && s.statusId == x;
      var k :| 0 <= k < |stages| && stages[k] == s;
      assert moved[k] in moved;
    }
    if IsIdOf(moved, x) {
      var s :| s in moved && s.statusId == x;
      var k :| 0 <= k < |moved| && moved[k] == s;
      assert stages[k] in stages;
    }
  }

  lemma {:induction false} LaterIds(listed: seq<BoardStage>, later: seq<BoardStage>, middle: seq<BoardStage>,
                                    merges: seq<Merge>, specs: seq<Spec>, x: string)
    requires Reached(listed, later, middle, merges, specs)
    ensures IsIdOf(later, x) <==>
            (IsIdOf(listed, x) && x !in Gone(listed, merges)) || x in Born(listed, merges, specs)
  {
    MovedIds(middle, specs, x);
    AppendedIds(Left(listed, merges), middle, ToPrecreate(Left(listed, merges), specs), x);
    LeftIds(listed, Gone(listed, merges), x);
  }

  lemma {:induction false} IdsReplaced(listed: seq<BoardStage>, later: seq<BoardStage>, middle: seq<BoardStage>,
                                       merges: seq<Merge>, specs: seq<Spec>)
    requires Reached(listed, later, middle, merges, specs)
    ensures EnvOf(later, specs).ids ==
            EnvOf(listed, specs).ids - Gone(listed, merges) + Born(listed, merges, specs)
    ensures Born(listed, merges, specs) !! EnvOf(listed, specs).ids - Gone(listed, merges)
    ensures Born(listed, merges, specs) <= ExpectedIds(specs)
  {
    forall x ensures x in EnvOf(later, specs).ids <==>
                     x in EnvOf(listed, specs).ids - Gone(listed, merges) + Born(listed, merges, specs)
    {
      LaterIds(listed, later, middle, merges, specs, x);
    }
    var left := Left(listed, merges);
    WithoutMembers(listed, Gone(listed, merges));
    forall x | x in Born(listed, merges, specs)
      ensures x !in EnvOf(listed, specs).ids - Gone(listed, merges) && x in ExpectedIds(specs)
    {
      var k := PrecreatedAreMissing(left, specs, x);
    }
  }

  lemma {:induction false} ProcessIsReplaced(listed: seq<BoardStage>, later: seq<BoardStage>, middle: seq<BoardStage>,
                                             merges: seq<Merge>, specs: seq<Spec>)
    requires Reached(listed, later, middle, merges, specs) && DistinctSpecs(specs)
    ensures ProcessReplaced(EnvOf(listed, specs), EnvOf(later, specs), specs, Gone(listed, merges),
                            Born(listed, merges, specs))
  {
    IdsReplaced(listed, later, middle, merges, specs);
    SameFreeProcess(listed, later, middle, merges, specs);
    BornAreProcess(listed, merges, specs);
  }

  lemma {:induction false} BornAreProcess(listed: seq<BoardStage>, merges: seq<Merge>, specs: seq<Spec>)
    requires DistinctSpecs(specs)
    ensures forall k | 0 <= k < |specs| && specs[k].statusId in Born(listed, merges, specs) ::
              specs[k].semantics == Process
  {
    forall k | 0 <= k < |specs| && specs[k].statusId in Born(listed, merges, specs)
      ensures specs[k].semantics == Process
    {
      var j := PrecreatedAreMissing(Left(listed, merges), specs, specs[k].statusId);
      assert j == k;
    }
  }

  lemma {:induction false} SameFreeProcess(listed: seq<BoardStage>, later: seq<BoardStage>, middle: seq<BoardStage>,
                                           merges: seq<Merge>, specs: seq<Spec>)
    requires Reached(listed, later, middle, merges, specs) && Born(listed, merges, specs) <= ExpectedIds(specs)
    ensures Free(EnvOf(later, specs).process, ExpectedIds(specs)) ==
            Free(Free(EnvOf(listed, specs).process, ExpectedIds(specs)), Gone(listed, merges))
  {
    var expected, gone, left := ExpectedIds(specs), Gone(listed, merges), Left(listed, merges);
    FreeOf(later, Process, expected);
    MovedWithout(middle, specs, expected);
    MovedKeeps(Without(middle, expected), specs, Process);
    AppendedKeeps(left, middle, ToPrecreate(left, specs), expected, Process);
    WithoutCommutes(listed, gone, expected);
    assert Without(middle, expected) == Without(Without(listed, expected), gone);
    FreeOf(listed, Process, expected);
    FreeOf(Without(listed, expected), Process, gone);
  }

  lemma {:induction false} FirstOfWithout(stages: seq<BoardStage>, ids: set<string>)
    ensures stages == [] ==> Without(stages, ids) == []
    ensures stages != [] && stages[0].statusId !in ids ==>
              Without(stages, ids) != [] && Without(stages, ids)[0] == stages[0]
  {
    if |stages| > 1 {
      FirstOfWithout(stages[..|stages| - 1], ids);
    }
  }

  lemma {:induction false} SuccessIsReplaced(listed: seq<BoardStage>, later: seq<BoardStage>, middle: seq<BoardStage>,
                                             merges: seq<Merge>, specs: seq<Spec>)
    requires Reached(listed, later, middle, merges, specs)
    ensures SuccessReplaced(EnvOf(listed, specs), EnvOf(later, specs), Gone(listed, merges), Born(listed, merges, specs))
  {
    var gone, left := Gone(listed, merges), Left(listed, merges);
    var found := Having(left, Success);
    MovedKeeps(middle, specs, Success);
    AppendedKeeps(left, middle, ToPrecreate(left, specs), {}, Success);
    assert Ids(Having(later, Success)) == Ids(found);
    assert FirstSuccess(later) == FirstSuccess(left) by {
      assert |Having(later, Success)| == |found|;
      if found != [] { assert Ids(Having(later, Success))[0] == Ids(found)[0]; }
    }
    HavingWithout(listed, gone, Success);
    FirstOfWithout(Having(listed, Success), gone);
    if found != [] {
      HavingMembers(left, Success);
      WithoutMembers(listed, gone);
      assert found[0] in found && found[0] in left;
      if found[0].statusId in Born(listed, merges, specs) {
        var k := PrecreatedAreMissing(left, specs, found[0].statusId);
        assert false;
      }
    }
  }

  lemma {:induction false} ListIsReplaced(listed: seq<BoardStage>, later: seq<BoardStage>, middle: seq<BoardStage>,
                                          merges: seq<Merge>, specs: seq<Spec>)
    requires Reached(listed, later, middle, merges, specs)
    requires UniqueStages(listed) && DistinctSpecs(specs) && OneSuccessSpec(specs)
    ensures Replaced(EnvOf(listed, specs), EnvOf(later, specs), specs, Gone(listed, merges), Born(listed, merges, specs))
  {
    MovedUnique(middle, specs);
    EnvIsOk(listed, specs);
    EnvIsOk(later, specs);
    EnvIsClosed(later, specs);
    ProcessIsReplaced(listed, later, middle, merges, specs);
    SuccessIsReplaced(listed, later, middle, merges, specs);
    IdsReplaced(listed, later, middle, merges, specs);
    var after := EnvOf(later, specs);
    forall x | x in Free(after.failure, after.expected) ensures x !in Gone(listed, merges) {
      assert x in after.ids && x !in Born(listed, merges, specs);
    }
  }

  // ---------- when the dry run is right ----------

  /** For a spec that got its stage beforehand the dry run said "add"; every other spec claims what it predicted. */
  predicate FollowsPlan(plan: seq<Option<string>>, claims: seq<Option<string>>, specs: seq<Spec>, born: set<string>) {
    |plan| == |claims| == |specs| &&
    forall k | 0 <= k < |specs| :: if specs[k].statusId in born then plan[k].None? else claims[k] == plan[k]
  }

  /** No stage that the merges delete was planned to be used. */
  predicate PlanAvoids(plan: seq<Option<string>>, gone: set<string>) {
    forall k | 0 <= k < |plan| && plan[k].Some? :: plan[k].value !in gone
  }

  predicate PlanAdds(plan: seq<Option<string>>, specs: seq<Spec>, born: set<string>) {
    |plan| == |specs| && forall k | 0 <= k < |specs| && specs[k].statusId in born :: plan[k].None?
  }

  /** Among the failure stages no spec expects, the ones needed keep their order when terminal stages move. */
  predicate FailuresKeepOrder(listed: seq<BoardStage>, merges: seq<Merge>, specs: seq<Spec>) {
    var before, after := EnvOf(listed, specs), EnvOf(TerminalsMoved(Left(listed, merges), specs), specs);
    SameFailures(before, after, specs)
  }

  lemma {:induction false} FailuresOfLeft(listed: seq<BoardStage>, later: seq<BoardStage>, middle: seq<BoardStage>,
                                          merges: seq<Merge>, specs: seq<Spec>)
    requires Reached(listed, later, middle, merges, specs)
    ensures EnvOf(TerminalsMoved(Left(listed, merges), specs), specs).failure == EnvOf(later, specs).failure
  {
    var left, missing := Left(listed, merges), ToPrecreate(Left(listed, merges), specs);
    MovedAppended(left, middle, missing, specs);
    AppendedKeeps(TerminalsMoved(left, specs), later, missing, {}, Failure);
  }

  lemma MovedAppended(left: seq<BoardStage>, middle: seq<BoardStage>, missing: seq<Spec>, specs: seq<Spec>)
    requires Appended(left, middle, missing)
    ensures Appended(TerminalsMoved(left, specs), TerminalsMoved(middle, specs), missing)
  {
    var before, after := TerminalsMoved(left, specs), TerminalsMoved(middle, specs);
    forall k | 0 <= k < |before| ensures after[k] == before[k] {
      assert middle[k] == middle[..|left|][k];
    }
    assert after[..|before|] == before;
  }

  /** The procurement dry run predicts the apply if and only if it uses no stage that the merges delete, would add
      a stage for every spec that gets one beforehand, and the failure stages it needs keep their order. */
  lemma {:induction false} PlanHoldsIff(listed: seq<BoardStage>, later: seq<BoardStage>, middle: seq<BoardStage>,
                                        merges: seq<Merge>, specs: seq<Spec>)
    requires Reached(listed, later, middle, merges, specs)
    requires UniqueStages(listed) && DistinctSpecs(specs) && OneSuccessSpec(specs)
    ensures var plan, born := ClaimsOf(listed, specs), Born(listed, merges, specs);
            FollowsPlan(plan, ClaimsOf(later, specs), specs, born) <==>
            PlanAvoids(plan, Gone(listed, merges)) && PlanAdds(plan, specs, born) &&
            FailuresKeepOrder(listed, merges, specs)
  {
    MovedUnique(middle, specs);
    ClaimsAreDirect(listed, specs);
    ClaimsAreDirect(later, specs);
    ListIsReplaced(listed, later, middle, merges, specs);
    FailuresOfLeft(listed, later, middle, merges, specs);
    var before, after := EnvOf(listed, specs), EnvOf(later, specs);
    AgreesIff(before, after, specs, Gone(listed, merges), Born(listed, merges, specs));
    DirectConditions(before, after, specs, Gone(listed, merges), Born(listed, merges, specs), ClaimsOf(listed, specs),
                     ClaimsOf(later, specs));
  }

  lemma DirectConditions(before: Env, after: Env, specs: seq<Spec>, gone: set<string>, born: set<string>,
                         plan: seq<Option<string>>, claims: seq<Option<string>>)
    requires AreDirect(before, specs, plan) && AreDirect(after, specs, claims) && |plan| == |claims| == |specs|
    ensures Agrees(before, after, specs, born) <==> FollowsPlan(plan, claims, specs, born)
    ensures SparesClaims(before, specs, gone) <==> PlanAvoids(plan, gone)
    ensures BornWereAdds(before, specs, born) <==> PlanAdds(plan, specs, born)
  {
    forall k | 0 <= k < |specs|
      ensures AgreesAt(before, after, specs, born, k) <==>
              if specs[k].statusId in born then plan[k].None? else claims[k] == plan[k]
    {
    }
  }

  // ---------- the steps in a row ----------

  /** The list that `ensure_stages` reads: precreated stages added, terminal stages moved. */
  function Prepared(left: seq<BoardStage>, specs: seq<Spec>, nextId: int): seq<BoardStage> {
    TerminalsMoved(AfterPrecreate(left, specs, nextId), specs)
  }

  lemma {:induction false} PrecreatedIsAppended(before: seq<BoardStage>, specs: seq<Spec>, nextId: int)
    ensures Appended(before, AfterPrecreate(before, specs, nextId), ToPrecreate(before, specs))
  {
  }

  /** What was done is what the dry run of `listed` said, exactly under the conditions above. */
  ghost predicate AsPlanned(listed: seq<BoardStage>, merges: seq<Merge>, specs: seq<Spec>, claims: seq<Option<string>>) {
    var plan, born := ClaimsOf(listed, specs), Born(listed, merges, specs);
    FollowsPlan(plan, claims, specs, born) <==>
    PlanAvoids(plan, Gone(listed, merges)) && PlanAdds(plan, specs, born) && FailuresKeepOrder(listed, merges, specs)
  }

  /** Precreate, move, ensure, on a board from which the merges have deleted the obsolete stages.  It goes through if
      and only if every spec passes on the list that the first two steps leave. */
  method SetUp(server: StageServer, specs: seq<Spec>, ghost listed: seq<BoardStage>, ghost merges: seq<Merge>)
    returns (ok: bool, claims: seq<Option<string>>, desired: seq<BoardStage>)
    requires server.Valid() && UniqueStages(listed) && DistinctSpecs(specs) && OneSuccessSpec(specs)
    requires server.stages == Left(listed, merges)
    modifies server
    ensures server.Valid()
    ensures ok <==> Succeeds(Prepared(Left(listed, merges), specs, old(server.nextId)), specs)
    ensures ok ==> AsPlanned(listed, merges, specs, claims)
    ensures ok ==> |desired| == |specs| && AllServe(desired, specs)
  {
    PrecreatedIsAppended(server.stages, specs, server.nextId);
    Precreate(server, specs);
    ghost var middle := server.stages;
    MoveTerminals(server, specs);
    PlanHoldsIff(listed, server.stages, middle, merges, specs);
    ok, claims, desired := server.EnsureStages(specs);
  }

  /** One category of the apply, from the board as the dry run read it.  On a board that performs every call it goes
      through if and only if no stage is old for two merges and every spec passes on the list that merges, precreation
      and terminal moves leave; and no item is stranded while the merges run, if their targets stand. */
  method SetUpCategory(board: Board, merges: seq<Merge>, specs: seq<Spec>, nextId: int)
    returns (ok: bool, claims: seq<Option<string>>, desired: seq<BoardStage>)
    requires board.Valid() && NamedStages(board.stages)
    requires DistinctSpecs(specs) && OneSuccessSpec(specs) && forall s | s in board.stages :: s.dbId < nextId
    modifies board
    ensures var start := old(View(board.stages, board.cards));
            TargetsStand(merges, start) ==>
              StageCleanup.SafeSince(start, old(board.history), board.history, KeepOf(merges, start.stages),
                                     TargetSet(merges, start))
    ensures board.reliable ==>
              (ok <==> MatchedOnce(merges, old(board.stages)) &&
                       Succeeds(Prepared(Left(old(board.stages), merges), specs, nextId), specs))
    ensures ok ==> AsPlanned(old(board.stages), merges, specs, claims)
    ensures ok ==> |desired| == |specs| && AllServe(desired, specs)
  {
    ghost var listed := board.stages;
    var actions;
    ok, actions := MergeAndDelete(board, merges);
    claims, desired := [], [];
    if !ok {
      return;
    }
    WithoutMembers(listed, Gone(listed, merges));
    WithoutUnique(listed, Gone(listed, merges));
    forall k | 0 <= k < |board.stages| ensures board.stages[k].dbId < nextId {
      assert board.stages[k] in board.stages;
    }
    var server := new StageServer(board.stages, nextId);
    ok, claims, desired := SetUp(server, specs, listed, merges);
  }
}
