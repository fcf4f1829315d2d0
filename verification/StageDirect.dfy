/** The claims without the cursor: a spec found by id claims its own stage, and the j-th other process or failure
    spec the j-th stage of its kind that no spec expects. */
module StageDirect {
  import opened OrderDomain
  import opened StageBoard
  import opened StageClaims
  import opened StageEnsure

  /** The ids of `iter` outside a set, in their order. */
  function Free(iter: seq<string>, taken: set<string>): (r: seq<string>)
    ensures forall x :: x in r <==> x in iter && x !in taken
  {
    if iter == [] then [] else if iter[0] in taken then Free(iter[1..], taken) else [iter[0]] + Free(iter[1..], taken)
  }

  function Nth(s: seq<string>, n: nat): Option<string> { if n < |s| then Some(s[n]) else None }

  function Drop(s: seq<string>, n: nat): seq<string> { if n <= |s| then s[n..] else [] }

  /** Spec `k` is not on the board by id and has this semantics. */
  predicate Unmatched(env: Env, specs: seq<Spec>, k: nat, semantics: Semantics)
    requires k < |specs|
  {
    specs[k].semantics == semantics && specs[k].statusId !in env.ids
  }

  /** How many of the first `n` specs go to the iterator of this semantics. */
  function Rank(env: Env, specs: seq<Spec>, n: nat, semantics: Semantics): nat
    requires n <= |specs|
  {
    if n == 0 then 0
    else Rank(env, specs, n - 1, semantics) + (if Unmatched(env, specs, n - 1, semantics) then 1 else 0)
  }

  /** The success stage bears spec `k`'s id, and the success spec comes first and takes it. */
  predicate SuccessTakes(env: Env, specs: seq<Spec>, k: nat)
    requires k < |specs|
  {
    env.success == Some(specs[k].statusId) && exists j | 0 <= j < k :: Unmatched(env, specs, j, Success)
  }

  predicate OwnedBefore(specs: seq<Spec>, k: nat, id: string)
    requires k < |specs|
  {
    exists j | 0 <= j < k :: specs[j].statusId == id
  }

  function Direct(env: Env, specs: seq<Spec>, k: nat): Option<string>
    requires k < |specs|
  {
    if specs[k].statusId in env.ids then
      if SuccessTakes(env, specs, k) then None else Some(specs[k].statusId)
    else
      match specs[k].semantics
      case Success => if env.success.Some? && !OwnedBefore(specs, k, env.success.value) then env.success else None
      case Failure => Nth(Free(env.failure, env.expected), Rank(env, specs, k, Failure))
      case Process => Nth(Free(env.process, env.expected), Rank(env, specs, k, Process))
  }

  predicate Distinct(s: seq<string>) { forall i, j | 0 <= i < j < |s| :: s[i] != s[j] }

  /** Each stage has one semantics and stands in its list once. */
  predicate EnvOk(env: Env, specs: seq<Spec>) {
    Distinct(env.process) && Distinct(env.failure) && (forall x | x in env.process :: x !in env.failure) &&
    (env.success.Some? ==> env.success.value in env.ids && env.success.value !in env.process &&
                           env.success.value !in env.failure) &&
    env.expected == ExpectedIds(specs) && DistinctSpecs(specs) && OneSuccessSpec(specs)
  }

  // ---------- the two rules agree ----------

  ghost predicate UsedIsDirect(env: Env, specs: seq<Spec>, n: nat, used: set<string>)
    requires n <= |specs|
  {
    forall x :: x in used <==> exists j | 0 <= j < n :: Direct(env, specs, j) == Some(x)
  }

  ghost predicate Tracked(env: Env, specs: seq<Spec>, n: nat, c: Cursor)
    requires n <= |specs|
  {
    UsedIsDirect(env, specs, n, c.used) && At(env, c.process, env.process, Rank(env, specs, n, Process)) &&
    At(env, c.failure, env.failure, Rank(env, specs, n, Failure))
  }

  /** `now` is what is left of `iter` after `n` free stages. */
  predicate At(env: Env, now: seq<string>, iter: seq<string>, n: nat) {
    Free(now, env.expected) == Drop(Free(iter, env.expected), n)
  }

  function IterOf(env: Env, semantics: Semantics): seq<string> {
    if semantics == Process then env.process else env.failure
  }

  function Ahead(c: Cursor, semantics: Semantics): seq<string> {
    if semantics == Process then c.process else c.failure
  }

  lemma {:induction false} NextUnusedIsFree(iter: seq<string>, used: set<string>, expected: set<string>)
    requires forall x | x in Free(iter, expected) :: x !in used
    ensures var (found, rest) := NextUnused(iter, used, expected);
            found == Nth(Free(iter, expected), 0) && Free(rest, expected) == Drop(Free(iter, expected), 1)
  {
    if iter == [] {
      assert Free(iter, expected) == [];
    } else if iter[0] in expected {
      NextUnusedIsFree(iter[1..], used, expected);
    } else {
      assert iter[0] in Free(iter, expected);
    }
  }

  lemma DropStep(s: seq<string>, n: nat)
    ensures Nth(Drop(s, n), 0) == Nth(s, n) && Drop(Drop(s, n), 1) == Drop(s, n + 1)
  {
  }

  lemma {:induction false} FreeDistinct(iter: seq<string>, taken: set<string>)
    requires Distinct(iter)
    ensures Distinct(Free(iter, taken))
  {
    if iter == [] {
      assert Free(iter, taken) == [];
    } else {
      FreeDistinct(iter[1..], taken);
    }
  }

  lemma {:induction false} RankGrows(env: Env, specs: seq<Spec>, j: nat, n: nat, semantics: Semantics)
    requires j <= n <= |specs|
    ensures Rank(env, specs, j, semantics) <= Rank(env, specs, n, semantics)
    ensures j < n && Unmatched(env, specs, j, semantics) ==>
              Rank(env, specs, j, semantics) < Rank(env, specs, n, semantics)
    decreases n
  {
    if j < n {
      RankGrows(env, specs, j, n - 1, semantics);
    }
  }

  /** What the iterators offer is a stage of their kind that no spec expects. */
  lemma FromIterator(env: Env, specs: seq<Spec>, j: nat)
    requires j < |specs| && Direct(env, specs, j).Some?
    ensures specs[j].statusId !in env.ids && specs[j].semantics != Success ==>
              Direct(env, specs, j).value !in env.expected &&
              Direct(env, specs, j).value in IterOf(env, specs[j].semantics)
  {
  }

  /** A stage the iterator has yet to offer has not been claimed. */
  lemma {:induction false} FreeIsUnclaimed(env: Env, specs: seq<Spec>, n: nat, j: nat, semantics: Semantics, q: nat)
    requires EnvOk(env, specs) && j < n <= |specs| && semantics != Success
    requires Rank(env, specs, n, semantics) <= q < |Free(IterOf(env, semantics), env.expected)|
    ensures Direct(env, specs, j) != Some(Free(IterOf(env, semantics), env.expected)[q])
  {
    var iter := IterOf(env, semantics);
    var free := Free(iter, env.expected);
    FreeDistinct(iter, env.expected);
    assert free[q] in free;
    assert specs[j].statusId in env.expected;
    if Unmatched(env, specs, j, semantics) {
      RankGrows(env, specs, j, n, semantics);
    } else if specs[j].statusId !in env.ids && specs[j].semantics != Success {
      var others := Free(if semantics == Process then env.failure else env.process, env.expected);
      assert Direct(env, specs, j).Some? ==> Direct(env, specs, j).value in others;
    }
  }

  lemma {:induction false} AheadIsUnclaimed(env: Env, specs: seq<Spec>, n: nat, c: Cursor, semantics: Semantics, x: string)
    requires EnvOk(env, specs) && n < |specs| && Tracked(env, specs, n, c) && semantics != Success
    requires x in Free(Ahead(c, semantics), env.expected)
    ensures x !in c.used
  {
    var now := Free(Ahead(c, semantics), env.expected);
    var k :| 0 <= k < |now| && now[k] == x;
    var r := Rank(env, specs, n, semantics);
    assert x == Free(IterOf(env, semantics), env.expected)[r + k];
    forall j | 0 <= j < n ensures Direct(env, specs, j) != Some(x) {
      FreeIsUnclaimed(env, specs, n, j, semantics, r + k);
    }
  }

  lemma TrackedAt(env: Env, specs: seq<Spec>, n: nat, c: Cursor, semantics: Semantics)
    requires n <= |specs| && Tracked(env, specs, n, c) && semantics != Success
    ensures At(env, Ahead(c, semantics), IterOf(env, semantics), Rank(env, specs, n, semantics))
  {
  }

  lemma {:induction false} IteratorOffers(env: Env, specs: seq<Spec>, n: nat, c: Cursor, semantics: Semantics)
    requires EnvOk(env, specs) && n < |specs| && Tracked(env, specs, n, c) && semantics != Success
    ensures var iter := IterOf(env, semantics);
            var (found, rest) := NextUnused(Ahead(c, semantics), c.used, env.expected);
            found == Nth(Free(iter, env.expected), Rank(env, specs, n, semantics)) &&
            At(env, rest, iter, Rank(env, specs, n, semantics) + 1)
  {
    var now := Ahead(c, semantics);
    forall x | x in Free(now, env.expected) ensures x !in c.used {
      AheadIsUnclaimed(env, specs, n, c, semantics, x);
    }
    TrackedAt(env, specs, n, c, semantics);
    Offers(env, now, IterOf(env, semantics), c.used, Rank(env, specs, n, semantics));
  }

  lemma {:induction false} Offers(env: Env, now: seq<string>, iter: seq<string>, used: set<string>, r: nat)
    requires At(env, now, iter, r) && forall x | x in Free(now, env.expected) :: x !in used
    ensures var (found, rest) := NextUnused(now, used, env.expected);
            found == Nth(Free(iter, env.expected), r) && At(env, rest, iter, r + 1)
  {
    NextUnusedIsFree(now, used, env.expected);
    DropStep(Free(iter, env.expected), r);
  }

  /** An expected id has been claimed before if and only if the success spec took it. */
  lemma {:induction false} OwnIsUsedIff(env: Env, specs: seq<Spec>, n: nat, used: set<string>)
    requires EnvOk(env, specs) && n < |specs| && UsedIsDirect(env, specs, n, used) && specs[n].statusId in env.ids
    ensures specs[n].statusId in used <==> SuccessTakes(env, specs, n)
  {
    var id := specs[n].statusId;
    assert id in env.expected;
    if SuccessTakes(env, specs, n) {
      var j :| 0 <= j < n && Unmatched(env, specs, j, Success);
      assert Direct(env, specs, j) == Some(id);
    }
    if id in used {
      var j :| 0 <= j < n && Direct(env, specs, j) == Some(id);
      assert specs[j].statusId != id;
      FromIterator(env, specs, j);
      assert Unmatched(env, specs, j, Success);
    }
  }

  lemma {:induction false} SuccessIsUsedIff(env: Env, specs: seq<Spec>, n: nat, used: set<string>)
    requires EnvOk(env, specs) && n < |specs| && UsedIsDirect(env, specs, n, used)
    requires Unmatched(env, specs, n, Success) && env.success.Some?
    ensures env.success.value in used <==> OwnedBefore(specs, n, env.success.value)
  {
    var id := env.success.value;
    if OwnedBefore(specs, n, id) {
      var j :| 0 <= j < n && specs[j].statusId == id;
      assert Direct(env, specs, j) == Some(id);
    }
    if id in used {
      var j :| 0 <= j < n && Direct(env, specs, j) == Some(id);
      FromIterator(env, specs, j);
      assert specs[j].semantics != Success;
      assert specs[j].statusId == id;
    }
  }

  lemma {:induction false} ClaimIsDirect(env: Env, specs: seq<Spec>, n: nat, c: Cursor)
    requires EnvOk(env, specs) && n < |specs| && Tracked(env, specs, n, c)
    ensures Claim(env, c, specs[n]).0 == Direct(env, specs, n)
  {
    if specs[n].statusId in env.ids {
      OwnIsUsedIff(env, specs, n, c.used);
    } else if specs[n].semantics == Success {
      if env.success.Some? {
        SuccessIsUsedIff(env, specs, n, c.used);
      }
    } else {
      IteratorOffers(env, specs, n, c, specs[n].semantics);
    }
  }

  lemma {:induction false} TrackedStep(env: Env, specs: seq<Spec>, n: nat, c: Cursor)
    requires EnvOk(env, specs) && n < |specs| && Tracked(env, specs, n, c)
    ensures Tracked(env, specs, n + 1, Claim(env, c, specs[n]).1)
  {
    ClaimIsDirect(env, specs, n, c);
    UsedGrows(env, c, specs[n]);
    UsedStep(env, specs, n, c.used, Claim(env, c, specs[n]).1.used);
    IteratorStep(env, specs, n, c, Process);
    IteratorStep(env, specs, n, c, Failure);
  }

  lemma UsedGrows(env: Env, c: Cursor, spec: Spec)
    ensures var (claim, c1) := Claim(env, c, spec);
            c1.used == if claim.Some? then c.used + {claim.value} else c.used
  {
  }

  /** Only the iterator that was asked moves on. */
  lemma AskedMovesOn(env: Env, c: Cursor, spec: Spec, semantics: Semantics)
    requires semantics != Success
    ensures Ahead(Claim(env, c, spec).1, semantics) ==
            if spec.semantics == semantics && spec.statusId !in env.ids
            then NextUnused(Ahead(c, semantics), c.used, env.expected).1 else Ahead(c, semantics)
  {
  }

  lemma {:induction false} IteratorStep(env: Env, specs: seq<Spec>, n: nat, c: Cursor, semantics: Semantics)
    requires EnvOk(env, specs) && n < |specs| && Tracked(env, specs, n, c) && semantics != Success
    ensures At(env, Ahead(Claim(env, c, specs[n]).1, semantics), IterOf(env, semantics),
               Rank(env, specs, n + 1, semantics))
  {
    AskedMovesOn(env, c, specs[n], semantics);
    IteratorOffers(env, specs, n, c, semantics);
    assert Rank(env, specs, n + 1, semantics) ==
           Rank(env, specs, n, semantics) + (if Unmatched(env, specs, n, semantics) then 1 else 0);
  }

  lemma {:induction false} UsedStep(env: Env, specs: seq<Spec>, n: nat, used: set<string>, used1: set<string>)
    requires n < |specs| && UsedIsDirect(env, specs, n, used)
    requires var claim := Direct(env, specs, n); used1 == if claim.Some? then used + {claim.value} else used
    ensures UsedIsDirect(env, specs, n + 1, used1)
  {
    forall x ensures x in used1 <==> exists j | 0 <= j < n + 1 :: Direct(env, specs, j) == Some(x) {
      if x in used1 {
        if x in used {
          var j :| 0 <= j < n && Direct(env, specs, j) == Some(x);
        } else {
          assert Direct(env, specs, n) == Some(x);
        }
      }
      if j :| 0 <= j < n + 1 && Direct(env, specs, j) == Some(x) {
        if j < n {
          assert x in used;
        }
      }
    }
  }

  predicate AreDirect(env: Env, specs: seq<Spec>, claims: seq<Option<string>>) {
    |claims| <= |specs| && forall k | 0 <= k < |claims| :: claims[k] == Direct(env, specs, k)
  }

  lemma {:induction false} OneMoreDirect(env: Env, specs: seq<Spec>, n: nat, c: Cursor, upto: nat) returns (c1: Cursor)
    requires EnvOk(env, specs) && n < |specs| && upto == n + 1
    requires c == Claims(env, specs, n).1 && Tracked(env, specs, n, c)
    ensures c1 == Claims(env, specs, upto).1 && Tracked(env, specs, upto, c1)
    ensures Claims(env, specs, upto).0 == Claims(env, specs, n).0 + [Direct(env, specs, n)]
  {
    ClaimIsDirect(env, specs, n, c);
    TrackedStep(env, specs, n, c);
    c1 := Claims(env, specs, upto).1;
  }

  lemma {:induction false} NoneYet(env: Env, specs: seq<Spec>)
    ensures Claims(env, specs, 0).0 == [] && Tracked(env, specs, 0, Claims(env, specs, 0).1)
  {
  }

  lemma {:induction false} ClaimsTrack(env: Env, specs: seq<Spec>, n: nat) returns (c: Cursor)
    requires EnvOk(env, specs) && n <= |specs|
    ensures c == Claims(env, specs, n).1 && Tracked(env, specs, n, c)
  {
    if n == 0 {
      NoneYet(env, specs);
      c := Claims(env, specs, 0).1;
    } else {
      var before := ClaimsTrack(env, specs, n - 1);
      c := OneMoreDirect(env, specs, n - 1, before, n);
    }
  }

  lemma {:induction false} NextIsDirect(env: Env, specs: seq<Spec>, n: nat)
    requires EnvOk(env, specs) && n < |specs|
    ensures Claims(env, specs, n + 1).0 == Claims(env, specs, n).0 + [Direct(env, specs, n)]
  {
    var c := ClaimsTrack(env, specs, n);
    var c1 := OneMoreDirect(env, specs, n, c, n + 1);
  }

  lemma DirectAppend(env: Env, specs: seq<Spec>, claims: seq<Option<string>>)
    requires |claims| < |specs| && AreDirect(env, specs, claims)
    ensures AreDirect(env, specs, claims + [Direct(env, specs, |claims|)])
  {
  }

  lemma {:induction false} AllDirect(env: Env, specs: seq<Spec>, n: nat) returns (claims: seq<Option<string>>)
    requires EnvOk(env, specs) && n <= |specs|
    ensures claims == Claims(env, specs, n).0 && |claims| == n && AreDirect(env, specs, claims)
  {
    if n == 0 {
      NoneYet(env, specs);
      claims := [];
    } else {
      var before := AllDirect(env, specs, n - 1);
      NextIsDirect(env, specs, n - 1);
      DirectAppend(env, specs, before);
      claims := before + [Direct(env, specs, n - 1)];
    }
  }

  /** What the cursor claims is what the direct rule says. */
  lemma {:induction false} ClaimsAreDirect(stages: seq<BoardStage>, specs: seq<Spec>)
    requires UniqueStages(stages) && DistinctSpecs(specs) && OneSuccessSpec(specs)
    ensures |ClaimsOf(stages, specs)| == |specs|
    ensures forall k | 0 <= k < |specs| :: ClaimsOf(stages, specs)[k] == Direct(EnvOf(stages, specs), specs, k)
  {
    EnvIsOk(stages, specs);
    var claims := AllDirect(EnvOf(stages, specs), specs, |specs|);
  }

  // ---------- a list of stages ----------

  lemma {:induction false} IdsDistinct(stages: seq<BoardStage>)
    requires UniqueStages(stages)
    ensures Distinct(Ids(stages))
  {
  }

  lemma {:induction false} SortedIds(stages: seq<BoardStage>, semantics: Semantics)
    requires UniqueStages(stages)
    ensures Distinct(Ids(Sorted(Having(stages, semantics))))
    ensures forall x :: x in Ids(Sorted(Having(stages, semantics))) <==>
                        exists s :: s in stages && s.statusId == x && s.semantics == semantics
  {
    var sorted := Sorted(Having(stages, semantics));
    HavingMembers(stages, semantics);
    SortedMembers(Having(stages, semantics));
    HavingUnique(stages, semantics);
    SortedOrder(Having(stages, semantics));
    IdsDistinct(sorted);
    forall x ensures x in Ids(sorted) <==> exists s :: s in stages && s.statusId == x && s.semantics == semantics {
      if x in Ids(sorted) {
        var k :| 0 <= k < |sorted| && Ids(sorted)[k] == x;
        assert sorted[k] in sorted;
      }
      if s :| s in stages && s.statusId == x && s.semantics == semantics {
        assert s in sorted;
        var k :| 0 <= k < |sorted| && sorted[k] == s;
        assert Ids(sorted)[k] == x;
      }
    }
  }

  /** One stage stands behind every id. */
  lemma {:induction false} OneSemantics(stages: seq<BoardStage>, x: string, a: Semantics, b: Semantics)
    requires UniqueStages(stages) && a != b
    requires x in Ids(Sorted(Having(stages, a)))
    ensures x !in Ids(Sorted(Having(stages, b)))
  {
    SortedIds(stages, a);
    SortedIds(stages, b);
    var s :| s in stages && s.statusId == x && s.semantics == a;
    forall t | t in stages && t.statusId == x ensures t == s {
      OneStage(stages, s, t);
    }
  }

  lemma OneStage(stages: seq<BoardStage>, s: BoardStage, t: BoardStage)
    requires UniqueStages(stages) && s in stages && t in stages && s.statusId == t.statusId
    ensures s == t
  {
    var i :| 0 <= i < |stages| && stages[i] == s;
    var j :| 0 <= j < |stages| && stages[j] == t;
  }

  lemma {:induction false} EnvIsOk(stages: seq<BoardStage>, specs: seq<Spec>)
    requires UniqueStages(stages) && DistinctSpecs(specs) && OneSuccessSpec(specs)
    ensures EnvOk(EnvOf(stages, specs), specs)
  {
    var env := EnvOf(stages, specs);
    EnvIsClosed(stages, specs);
    SortedIds(stages, Process);
    SortedIds(stages, Failure);
    forall x | x in env.process ensures x !in env.failure {
      OneSemantics(stages, x, Process, Failure);
    }
    if env.success.Some? {
      HavingMembers(stages, Success);
      SortedMembers(Having(stages, Success));
      var first := Having(stages, Success)[0];
      assert first in Having(stages, Success);
      SortedIds(stages, Success);
      assert env.success.value in Ids(Sorted(Having(stages, Success)));
      OneSemantics(stages, env.success.value, Success, Process);
      OneSemantics(stages, env.success.value, Success, Failure);
    }
  }
}
