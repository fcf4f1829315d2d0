/** Desired stages claim existing ones: `ensure_stages` on the remote board, and `stage_plan`, the dry run
    that predicts it. */
module StageClaims {
  import opened OrderDomain
  import opened StageBoard

  /** `statusId` is the id built from the spec's code. */
  datatype Spec = Spec(key: string, statusId: string, name: string, sort: int, semantics: Semantics)

  predicate DistinctSpecs(specs: seq<Spec>) {
    forall i, j | 0 <= i < j < |specs| :: specs[i].statusId != specs[j].statusId && specs[i].name != specs[j].name
  }

  // ---------- stable sorting by SORT ----------

  function InsertStage(sorted: seq<BoardStage>, s: BoardStage): seq<BoardStage> {
    if sorted == [] || sorted[|sorted| - 1].sort <= s.sort then sorted + [s]
    else InsertStage(sorted[..|sorted| - 1], s) + [sorted[|sorted| - 1]]
  }

  function Sorted(stages: seq<BoardStage>): seq<BoardStage> {
    if stages == [] then [] else InsertStage(Sorted(stages[..|stages| - 1]), stages[|stages| - 1])
  }

  function Having(stages: seq<BoardStage>, semantics: Semantics): seq<BoardStage> {
    if stages == [] then []
    else
      var s := stages[|stages| - 1];
      Having(stages[..|stages| - 1], semantics) + (if s.semantics == semantics then [s] else [])
  }

  function Ids(stages: seq<BoardStage>): (r: seq<string>)
    ensures |r| == |stages| && forall k | 0 <= k < |r| :: r[k] == stages[k].statusId
  {
    seq(|stages|, k requires 0 <= k < |stages| => stages[k].statusId)
  }

  // ---------- the claims ----------

  /** What both functions look at: the ids on the board, the process and failure stages in SORT order, the
      first success stage, and the ids the specs expect. */
  datatype Env = Env(ids: set<string>, process: seq<string>, failure: seq<string>, success: Option<string>,
                     expected: set<string>)

  function FirstSuccess(stages: seq<BoardStage>): Option<string> {
    var found := Having(stages, Success);
    if found == [] then None else Some(found[0].statusId)
  }

  function ExpectedIds(specs: seq<Spec>): set<string> { set k | 0 <= k < |specs| :: specs[k].statusId }

  function EnvOf(stages: seq<BoardStage>, specs: seq<Spec>): Env {
    Env(set s | s in stages :: s.statusId, Ids(Sorted(Having(stages, Process))), Ids(Sorted(Having(stages, Failure))),
        FirstSuccess(stages), ExpectedIds(specs))
  }

  /** The two iterators and the ids claimed so far. */
  datatype Cursor = Cursor(process: seq<string>, failure: seq<string>, used: set<string>)

  /** `next_unused_stage`: advance past stages that are used or that some spec expects by id. */
  function NextUnused(iter: seq<string>, used: set<string>, expected: set<string>): (r: (Option<string>, seq<string>))
    ensures r.0.Some? ==> r.0.value in iter && r.0.value !in used && r.0.value !in expected
    ensures forall x | x in r.1 :: x in iter
  {
    if iter == [] then (None, [])
    else if iter[0] !in used && iter[0] !in expected then (Some(iter[0]), iter[1..])
    else NextUnused(iter[1..], used, expected)
  }

  function Claim(env: Env, c: Cursor, spec: Spec): (Option<string>, Cursor) {
    if spec.statusId in env.ids then
      if spec.statusId in c.used then (None, c) else (Some(spec.statusId), c.(used := c.used + {spec.statusId}))
    else
      match spec.semantics
      case Success =>
        if env.success.Some? && env.success.value !in c.used
        then (env.success, c.(used := c.used + {env.success.value})) else (None, c)
      case Failure =>
        var (found, rest) := NextUnused(c.failure, c.used, env.expected);
        (found, Cursor(c.process, rest, if found.Some? then c.used + {found.value} else c.used))
      case Process =>
        var (found, rest) := NextUnused(c.process, c.used, env.expected);
        (found, Cursor(rest, c.failure, if found.Some? then c.used + {found.value} else c.used))
  }

  /** The claims of the first `n` specs: `Some(id)` for a claimed stage, `None` for a stage to add. */
  function Claims(env: Env, specs: seq<Spec>, n: nat): (seq<Option<string>>, Cursor)
    requires n <= |specs|
  {
    if n == 0 then ([], Cursor(env.process, env.failure, {}))
    else
      var (claims, c) := Claims(env, specs, n - 1);
      var (claim, c1) := Claim(env, c, specs[n - 1]);
      (claims + [claim], c1)
  }

  function ClaimsOf(stages: seq<BoardStage>, specs: seq<Spec>): seq<Option<string>> {
    Claims(EnvOf(stages, specs), specs, |specs|).0
  }

  /** No stage is claimed twice, and every claim is a stage of the board. */
  lemma {:induction false} ClaimsAreInjective(env: Env, specs: seq<Spec>, n: nat)
    requires n <= |specs|
    requires forall x | x in env.process || x in env.failure :: x in env.ids
    requires env.success.Some? ==> env.success.value in env.ids
    ensures var (claims, c) := Claims(env, specs, n);
            |claims| == n && (forall k | 0 <= k < n && claims[k].Some? :: claims[k].value in c.used) &&
            (forall x | x in c.used :: x in env.ids) &&
            (forall x | x in c.process :: x in env.process) && (forall x | x in c.failure :: x in env.failure) &&
            forall i, j | 0 <= i < j < n && claims[i].Some? && claims[j].Some? :: claims[i] != claims[j]
  {
    if n == 0 {
    } else {
      ClaimsAreInjective(env, specs, n - 1);
    }
  }

  // ---------- the dry run ----------

  datatype PlanAction = Add | Update | Keep

  datatype PlanRow = PlanRow(key: string, action: PlanAction, existing: Option<string>)

  function FindId(stages: seq<BoardStage>, statusId: string): (r: Option<BoardStage>)
    ensures r.Some? ==> r.value in stages && r.value.statusId == statusId
    ensures r.None? <==> forall s | s in stages :: s.statusId != statusId
  {
    if stages == [] then None
    else if stages[|stages| - 1].statusId == statusId then Some(stages[|stages| - 1])
    else FindId(stages[..|stages| - 1], statusId)
  }

  predicate UpToDate(s: BoardStage, spec: Spec) {
    s.name == spec.name && s.sort == spec.sort && s.semantics == spec.semantics
  }

  /** A plan row: the claimed stage, "add" where there is none, "keep" where nothing would change. */
  predicate Predicts(row: PlanRow, stages: seq<BoardStage>, claim: Option<string>, spec: Spec) {
    row.key == spec.key && row.existing == claim && (row.action.Add? <==> claim.None?) &&
    (row.action.Keep? <==>
     claim.Some? && FindId(stages, claim.value).Some? && UpToDate(FindId(stages, claim.value).value, spec))
  }

  ghost predicate AllPredict(rows: seq<PlanRow>, stages: seq<BoardStage>, claims: seq<Option<string>>,
                             specs: seq<Spec>) {
    |rows| == |claims| <= |specs| && forall k | 0 <= k < |rows| :: Predicts(rows[k], stages, claims[k], specs[k])
  }

  /** One turn of the loop of `stage_plan`. */
  method PlanOne(stages: seq<BoardStage>, ghost specs: seq<Spec>, spec: Spec, c: Cursor, success: Option<string>,
                 expected: set<string>)
    returns (row: PlanRow, c1: Cursor)
    requires success == FirstSuccess(stages) && expected == ExpectedIds(specs)
    ensures (row.existing, c1) == Claim(EnvOf(stages, specs), c, spec)
    ensures Predicts(row, stages, row.existing, spec)
  {
    c1 := c;
    var byId := FindId(stages, spec.statusId);
    var current: Option<string> := if byId.Some? then Some(spec.statusId) else None;
    if current.None? {
      if spec.semantics == Success {
        current := success;
      } else if spec.semantics == Failure {
        var (found, rest) := NextUnused(c.failure, c.used, expected);
        current, c1 := found, c.(failure := rest);
      } else {
        var (found, rest) := NextUnused(c.process, c.used, expected);
        current, c1 := found, c.(process := rest);
      }
    }
    if current.Some? && current.value in c.used {
      current := None;
    }
    var action := Add;
    if current.Some? {
      c1 := c1.(used := c1.used + {current.value});
      var found := FindId(stages, current.value);
      action := if found.Some? && UpToDate(found.value, spec) then Keep else Update;
    }
    row := PlanRow(spec.key, action, current);
  }

  /** `stage_plan` */
  method StagePlan(stages: seq<BoardStage>, specs: seq<Spec>) returns (rows: seq<PlanRow>)
    ensures |rows| == |specs| && AllPredict(rows, stages, ClaimsOf(stages, specs), specs)
  {
    var c := Cursor(Ids(Sorted(Having(stages, Process))), Ids(Sorted(Having(stages, Failure))), {});
    var success, expected := FirstSuccess(stages), ExpectedIds(specs);
    rows := [];
    for n := 0 to |specs|
      invariant |rows| == n && c == Claims(EnvOf(stages, specs), specs, n).1
      invariant AllPredict(rows, stages, Claims(EnvOf(stages, specs), specs, n).0, specs)
    {
      var row;
      row, c := PlanOne(stages, specs, specs[n], c, success, expected);
      rows := rows + [row];
    }
  }

  lemma {:induction false} HavingMembers(stages: seq<BoardStage>, semantics: Semantics)
    ensures forall s :: s in Having(stages, semantics) <==> s in stages && s.semantics == semantics
  {
    if stages == [] {
    } else {
      HavingMembers(stages[..|stages| - 1], semantics);
      assert stages == stages[..|stages| - 1] + [stages[|stages| - 1]];
    }
  }

  lemma {:induction false} InsertMembers(sorted: seq<BoardStage>, s: BoardStage)
    ensures forall x :: x in InsertStage(sorted, s) <==> x == s || x in sorted
    ensures |InsertStage(sorted, s)| == |sorted| + 1
  {
    if sorted == [] {
    } else {
      InsertMembers(sorted[..|sorted| - 1], s);
      assert sorted == sorted[..|sorted| - 1] + [sorted[|sorted| - 1]];
    }
  }

  lemma {:induction false} SortedMembers(stages: seq<BoardStage>)
    ensures forall x :: x in Sorted(stages) <==> x in stages
    ensures |Sorted(stages)| == |stages|
  {
    if stages == [] {
    } else {
      SortedMembers(stages[..|stages| - 1]);
      InsertMembers(Sorted(stages[..|stages| - 1]), stages[|stages| - 1]);
      assert stages == stages[..|stages| - 1] + [stages[|stages| - 1]];
    }
  }

  lemma EnvIsClosed(stages: seq<BoardStage>, specs: seq<Spec>)
    ensures var env := EnvOf(stages, specs);
            (forall x | x in env.process || x in env.failure :: x in env.ids) &&
            (env.success.Some? ==> env.success.value in env.ids)
  {
    HavingMembers(stages, Process);
    HavingMembers(stages, Failure);
    HavingMembers(stages, Success);
    SortedMembers(Having(stages, Process));
    SortedMembers(Having(stages, Failure));
    var env := EnvOf(stages, specs);
    forall x | x in env.process ensures x in env.ids {
      var k :| 0 <= k < |env.process| && env.process[k] == x;
      assert Sorted(Having(stages, Process))[k] in Sorted(Having(stages, Process));
    }
    forall x | x in env.failure ensures x in env.ids {
      var k :| 0 <= k < |env.failure| && env.failure[k] == x;
      assert Sorted(Having(stages, Failure))[k] in Sorted(Having(stages, Failure));
    }
    if env.success.Some? {
      assert Having(stages, Success)[0] in Having(stages, Success);
    }
  }

  // ---------- sorting: order, uniqueness ----------

  predicate Ascends(s: seq<BoardStage>) { forall i, j | 0 <= i < j < |s| :: s[i].sort <= s[j].sort }

  predicate StrictlyAscends(s: seq<BoardStage>) { forall i, j | 0 <= i < j < |s| :: s[i].sort < s[j].sort }

  lemma {:induction false} InsertKeepsOrder(sorted: seq<BoardStage>, s: BoardStage)
    requires Ascends(sorted)
    ensures Ascends(InsertStage(sorted, s))
    ensures UniqueStages(sorted + [s]) ==> UniqueStages(InsertStage(sorted, s))
  {
    if sorted != [] && sorted[|sorted| - 1].sort > s.sort {
      var rest, last := sorted[..|sorted| - 1], sorted[|sorted| - 1];
      InsertKeepsOrder(rest, s);
      InsertMembers(rest, s);
      var r := InsertStage(rest, s);
      forall k | 0 <= k < |r| ensures r[k].sort <= last.sort {
        assert r[k] in r;
      }
      if UniqueStages(sorted + [s]) {
        var all := sorted + [s];
        assert forall i | 0 <= i < |rest| :: (rest + [s])[i] == all[i];
        assert (rest + [s])[|rest|] == all[|sorted|];
        forall k | 0 <= k < |r| ensures r[k].dbId != last.dbId && r[k].statusId != last.statusId {
          assert r[k] in r;
          assert all[|rest|] == last;
          if r[k] == s {
            assert all[|sorted|] == s;
          } else {
            var m :| 0 <= m < |rest| && rest[m] == r[k];
            assert all[m] == r[k];
          }
        }
      }
    }
  }

  lemma {:induction false} SortedOrder(stages: seq<BoardStage>)
    ensures Ascends(Sorted(stages))
    ensures UniqueStages(stages) ==> UniqueStages(Sorted(stages))
  {
    if stages == [] {
    } else {
      var rest, last := stages[..|stages| - 1], stages[|stages| - 1];
      SortedOrder(rest);
      SortedMembers(rest);
      InsertKeepsOrder(Sorted(rest), last);
      if UniqueStages(stages) {
        var front := Sorted(rest);
        forall k | 0 <= k < |front| ensures front[k].dbId != last.dbId && front[k].statusId != last.statusId {
          assert front[k] in front;
          var m :| 0 <= m < |rest| && rest[m] == front[k];
          assert stages[m] == front[k];
        }
      }
    }
  }

  lemma {:induction false} HavingUnique(stages: seq<BoardStage>, semantics: Semantics)
    requires UniqueStages(stages)
    ensures UniqueStages(Having(stages, semantics))
  {
    if stages == [] {
    } else {
      var rest, last := stages[..|stages| - 1], stages[|stages| - 1];
      HavingUnique(rest, semantics);
      HavingMembers(rest, semantics);
      var front := Having(rest, semantics);
      forall k | 0 <= k < |front| ensures front[k].dbId != last.dbId && front[k].statusId != last.statusId {
        assert front[k] in front;
        var m :| 0 <= m < |rest| && rest[m] == front[k];
        assert stages[m] == front[k];
      }
    }
  }

  /** A strictly ascending sequence is determined by its members. */
  lemma {:induction false} AscendingIsUnique(p: seq<BoardStage>, q: seq<BoardStage>)
    requires StrictlyAscends(p) && StrictlyAscends(q)
    requires forall x :: x in p <==> x in q
    ensures p == q
  {
    assert p != [] ==> p[|p| - 1] in q;
    assert q != [] ==> q[|q| - 1] in p;
    if p == [] {
    } else {
      var p0, q0 := p[..|p| - 1], q[..|q| - 1];
      assert p == p0 + [p[|p| - 1]] && q == q0 + [q[|q| - 1]];
      assert p[|p| - 1] == q[|q| - 1];
      forall x ensures x in p0 <==> x in q0 {
        assert x in p0 ==> x in q && x != p[|p| - 1];
        assert x in q0 ==> x in p && x != q[|q| - 1];
      }
      AscendingIsUnique(p0, q0);
    }
  }
}
