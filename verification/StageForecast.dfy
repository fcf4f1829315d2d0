/** When do the claims survive a change of the list?  Some stages go, some expected ids arrive as process stages,
    and the failure stages may change places: the exact condition, on what the claim rule looks at. */
module StageForecast {
  import opened OrderDomain
  import opened StageBoard
  import opened StageClaims
  import opened StageDirect

  /** The list lost the stages `gone` and won process stages for the expected ids `born`. */
  ghost predicate Replaced(before: Env, after: Env, specs: seq<Spec>, gone: set<string>, born: set<string>) {
    EnvOk(before, specs) && EnvOk(after, specs) && ProcessReplaced(before, after, specs, gone, born) &&
    (forall x | x in Free(after.failure, after.expected) :: x !in gone) && SuccessReplaced(before, after, gone, born)
  }

  ghost predicate ProcessReplaced(before: Env, after: Env, specs: seq<Spec>, gone: set<string>, born: set<string>) {
    after.ids == before.ids - gone + born && born !! before.ids - gone &&
    (forall k | 0 <= k < |specs| && specs[k].statusId in born :: specs[k].semantics == Process) &&
    Free(after.process, after.expected) == Free(Free(before.process, before.expected), gone)
  }

  predicate SuccessReplaced(before: Env, after: Env, gone: set<string>, born: set<string>) {
    (before.success.None? ==> after.success.None?) &&
    (before.success.Some? && before.success.value !in gone ==> after.success == before.success) &&
    (after.success.Some? ==> after.success.value !in gone && after.success.value !in born)
  }

  /** No stage that goes was claimed. */
  predicate SparesClaims(before: Env, specs: seq<Spec>, gone: set<string>) {
    forall k | 0 <= k < |specs| && Direct(before, specs, k).Some? :: Direct(before, specs, k).value !in gone
  }

  /** Every spec that gets a stage of its own was going to have one added. */
  predicate BornWereAdds(before: Env, specs: seq<Spec>, born: set<string>) {
    forall k | 0 <= k < |specs| && specs[k].statusId in born :: Direct(before, specs, k).None?
  }

  /** As many free failure stages as failure specs need them come in the same order. */
  predicate SameFailures(before: Env, after: Env, specs: seq<Spec>) {
    forall q | 0 <= q < Rank(before, specs, |specs|, Failure) ::
      Nth(Free(before.failure, before.expected), q) == Nth(Free(after.failure, after.expected), q)
  }

  /** A spec with a new stage was going to have one added; every other spec claims what it did. */
  predicate AgreesAt(before: Env, after: Env, specs: seq<Spec>, born: set<string>, k: nat)
    requires k < |specs|
  {
    if specs[k].statusId in born then Direct(before, specs, k).None?
    else Direct(after, specs, k) == Direct(before, specs, k)
  }

  predicate Agrees(before: Env, after: Env, specs: seq<Spec>, born: set<string>) {
    forall k | 0 <= k < |specs| :: AgreesAt(before, after, specs, born, k)
  }

  // ---------- the conditions suffice ----------

  ghost predicate Kept(before: Env, after: Env, specs: seq<Spec>, gone: set<string>, born: set<string>) {
    Replaced(before, after, specs, gone, born) && SparesClaims(before, specs, gone) &&
    BornWereAdds(before, specs, born)
  }

  /** An id on the board was claimed: by its own spec, or by the success spec that stands before it. */
  lemma {:induction false} MatchedIsClaimed(env: Env, specs: seq<Spec>, k: nat) returns (j: nat)
    requires EnvOk(env, specs) && k < |specs| && specs[k].statusId in env.ids
    ensures j <= k && Direct(env, specs, j) == Some(specs[k].statusId)
  {
    j := k;
    if SuccessTakes(env, specs, k) {
      j :| 0 <= j < k && Unmatched(env, specs, j, Success);
      assert !OwnedBefore(specs, j, specs[k].statusId);
    }
  }

  lemma {:induction false} SameMatches(before: Env, after: Env, specs: seq<Spec>, gone: set<string>,
                                       born: set<string>, k: nat)
    requires Kept(before, after, specs, gone, born) && k < |specs|
    ensures specs[k].statusId in born ==> specs[k].statusId !in before.ids
    ensures specs[k].statusId !in born ==> (specs[k].statusId in before.ids <==> specs[k].statusId in after.ids)
  {
    if specs[k].statusId in before.ids {
      var j := MatchedIsClaimed(before, specs, k);
      assert specs[k].statusId !in gone;
    }
  }

  /** A success spec that needs it finds the success stage it was going to find. */
  lemma {:induction false} SameSuccess(before: Env, after: Env, specs: seq<Spec>, gone: set<string>,
                                       born: set<string>, j: nat)
    requires Kept(before, after, specs, gone, born) && j < |specs| && Unmatched(before, specs, j, Success)
    ensures after.success == before.success
  {
    if before.success.Some? {
      if OwnedBefore(specs, j, before.success.value) {
        var i :| 0 <= i < j && specs[i].statusId == before.success.value;
        var c := MatchedIsClaimed(before, specs, i);
      } else {
        assert Direct(before, specs, j) == before.success;
      }
    }
  }

  /** Each rank below the count belongs to a spec. */
  lemma {:induction false} RankHit(env: Env, specs: seq<Spec>, n: nat, semantics: Semantics, q: nat) returns (j: nat)
    requires n <= |specs| && q < Rank(env, specs, n, semantics)
    ensures j < n && Unmatched(env, specs, j, semantics) && Rank(env, specs, j, semantics) == q
    decreases n
  {
    if q < Rank(env, specs, n - 1, semantics) {
      j := RankHit(env, specs, n - 1, semantics, q);
    } else {
      j := n - 1;
    }
  }

  lemma {:induction false} FreePrefix(iter: seq<string>, gone: set<string>, m: nat)
    requires m <= |iter| && forall q | 0 <= q < m :: iter[q] !in gone
    ensures forall q | 0 <= q < m :: q < |Free(iter, gone)| && Free(iter, gone)[q] == iter[q]
    ensures m == |iter| ==> Free(iter, gone) == iter
  {
    if m == 0 {
      assert iter == [] ==> Free(iter, gone) == [];
    } else {
      forall q | 0 <= q < m - 1 ensures iter[1..][q] !in gone {
        assert iter[1..][q] == iter[q + 1];
      }
      FreePrefix(iter[1..], gone, m - 1);
      var rest := Free(iter[1..], gone);
      assert iter[0] !in gone && Free(iter, gone) == [iter[0]] + rest;
      assert iter == [iter[0]] + iter[1..];
      forall q | 0 <= q < m ensures q < |Free(iter, gone)| && Free(iter, gone)[q] == iter[q] {
        if q > 0 {
          assert rest[q - 1] == iter[1..][q - 1];
        }
      }
    }
  }

  /** The free process stages that specs were going to claim are still the first free ones. */
  lemma {:induction false} SameProcess(before: Env, after: Env, specs: seq<Spec>, gone: set<string>, born: set<string>)
    requires Kept(before, after, specs, gone, born)
    ensures var free, free1 := Free(before.process, before.expected), Free(after.process, after.expected);
            forall q | 0 <= q < Rank(before, specs, |specs|, Process) :: Nth(free1, q) == Nth(free, q)
    ensures |Free(before.process, before.expected)| <= Rank(before, specs, |specs|, Process) ==>
              Free(after.process, after.expected) == Free(before.process, before.expected)
  {
    var free, total := Free(before.process, before.expected), Rank(before, specs, |specs|, Process);
    var m := if total <= |free| then total else |free|;
    forall q | 0 <= q < m ensures free[q] !in gone {
      var j := RankHit(before, specs, |specs|, Process, q);
      assert Direct(before, specs, j) == Some(free[q]);
    }
    FreePrefix(free, gone, m);
  }

  /** A process spec has the rank it had, unless no free stage was left for it anyway. */
  predicate RankKept(before: Env, after: Env, specs: seq<Spec>, n: nat)
    requires n <= |specs|
  {
    var was, now := Rank(before, specs, n, Process), Rank(after, specs, n, Process);
    var count := |Free(before.process, before.expected)|;
    Rank(after, specs, n, Failure) == Rank(before, specs, n, Failure) && (now == was || (now >= count && was >= count))
  }

  lemma {:induction false} RankStep(before: Env, after: Env, specs: seq<Spec>, gone: set<string>, born: set<string>,
                                    n: nat)
    requires Kept(before, after, specs, gone, born) && n < |specs| && RankKept(before, after, specs, n)
    ensures RankKept(before, after, specs, n + 1)
  {
    SameMatches(before, after, specs, gone, born, n);
    if specs[n].statusId in born {
      assert Direct(before, specs, n).None?;
    }
  }

  lemma {:induction false} RanksKept(before: Env, after: Env, specs: seq<Spec>, gone: set<string>, born: set<string>,
                                     n: nat)
    requires Kept(before, after, specs, gone, born) && n <= |specs|
    ensures RankKept(before, after, specs, n)
  {
    if n == 0 {
      assert Rank(before, specs, 0, Process) == 0;
    } else {
      RanksKept(before, after, specs, gone, born, n - 1);
      RankStep(before, after, specs, gone, born, n - 1);
    }
  }

  lemma {:induction false} MatchedAgrees(before: Env, after: Env, specs: seq<Spec>, gone: set<string>,
                                         born: set<string>, k: nat)
    requires Kept(before, after, specs, gone, born) && k < |specs|
    requires specs[k].statusId !in born && specs[k].statusId in before.ids
    ensures AgreesAt(before, after, specs, born, k)
  {
    SameMatches(before, after, specs, gone, born, k);
    forall j | 0 <= j < k && specs[j].semantics == Success
      ensures Unmatched(before, specs, j, Success) <==> Unmatched(after, specs, j, Success)
      ensures Unmatched(before, specs, j, Success) ==> after.success == before.success
    {
      SameMatches(before, after, specs, gone, born, j);
      if Unmatched(before, specs, j, Success) {
        SameSuccess(before, after, specs, gone, born, j);
      }
    }
  }

  lemma {:induction false} UnmatchedAgrees(before: Env, after: Env, specs: seq<Spec>, gone: set<string>,
                                           born: set<string>, k: nat)
    requires Kept(before, after, specs, gone, born) && SameFailures(before, after, specs) && k < |specs|
    requires specs[k].statusId !in born && specs[k].statusId !in before.ids
    ensures AgreesAt(before, after, specs, born, k)
  {
    SameMatches(before, after, specs, gone, born, k);
    RanksKept(before, after, specs, gone, born, k);
    match specs[k].semantics
    case Success =>
      SameSuccess(before, after, specs, gone, born, k);
    case Failure =>
      RankGrows(before, specs, k, |specs|, Failure);
    case Process =>
      RankGrows(before, specs, k, |specs|, Process);
      SameProcess(before, after, specs, gone, born);
  }

  lemma {:induction false} ConditionsSuffice(before: Env, after: Env, specs: seq<Spec>, gone: set<string>,
                                             born: set<string>)
    requires Kept(before, after, specs, gone, born) && SameFailures(before, after, specs)
    ensures Agrees(before, after, specs, born)
  {
    forall k | 0 <= k < |specs| ensures AgreesAt(before, after, specs, born, k) {
      if specs[k].statusId !in born {
        if specs[k].statusId in before.ids {
          MatchedAgrees(before, after, specs, gone, born, k);
        } else {
          UnmatchedAgrees(before, after, specs, gone, born, k);
        }
      }
    }
  }

  // ---------- and they are needed ----------

  /** What is claimed afterwards was not taken away, unless it came back under its own id. */
  lemma {:induction false} ClaimsAreThere(before: Env, after: Env, specs: seq<Spec>, gone: set<string>,
                                          born: set<string>, k: nat)
    requires Replaced(before, after, specs, gone, born) && k < |specs|
    requires specs[k].statusId !in born && Direct(after, specs, k).Some?
    ensures Direct(after, specs, k).value !in gone
  {
    if specs[k].statusId !in after.ids && specs[k].semantics != Success {
      FromIterator(after, specs, k);
    }
  }

  lemma {:induction false} ConditionsAreNeeded(before: Env, after: Env, specs: seq<Spec>, gone: set<string>,
                                               born: set<string>)
    requires Replaced(before, after, specs, gone, born) && Agrees(before, after, specs, born)
    ensures Kept(before, after, specs, gone, born) && SameFailures(before, after, specs)
  {
    forall k | 0 <= k < |specs| && Direct(before, specs, k).Some? ensures Direct(before, specs, k).value !in gone {
      assert AgreesAt(before, after, specs, born, k);
      ClaimsAreThere(before, after, specs, gone, born, k);
    }
    forall k | 0 <= k < |specs| && specs[k].statusId in born ensures Direct(before, specs, k).None? {
      assert AgreesAt(before, after, specs, born, k);
    }
    FailuresAreNeeded(before, after, specs, gone, born);
  }

  lemma {:induction false} FailuresAreNeeded(before: Env, after: Env, specs: seq<Spec>, gone: set<string>,
                                             born: set<string>)
    requires Kept(before, after, specs, gone, born) && Agrees(before, after, specs, born)
    ensures SameFailures(before, after, specs)
  {
    forall q | 0 <= q < Rank(before, specs, |specs|, Failure)
      ensures Nth(Free(before.failure, before.expected), q) == Nth(Free(after.failure, after.expected), q)
    {
      var j := RankHit(before, specs, |specs|, Failure, q);
      SameMatches(before, after, specs, gone, born, j);
      RanksKept(before, after, specs, gone, born, j);
      assert AgreesAt(before, after, specs, born, j);
    }
  }

  /** The claims survive if and only if no claimed stage goes, every spec with a new stage was going to have one
      added, and the failure stages that are needed keep their order. */
  lemma {:induction false} AgreesIff(before: Env, after: Env, specs: seq<Spec>, gone: set<string>, born: set<string>)
    requires Replaced(before, after, specs, gone, born)
    ensures Agrees(before, after, specs, born) <==>
            SparesClaims(before, specs, gone) && BornWereAdds(before, specs, born) &&
            SameFailures(before, after, specs)
  {
    if Agrees(before, after, specs, born) {
      ConditionsAreNeeded(before, after, specs, gone, born);
    } else if SparesClaims(before, specs, gone) && BornWereAdds(before, specs, born) &&
              SameFailures(before, after, specs) {
      ConditionsSuffice(before, after, specs, gone, born);
    }
  }
}
