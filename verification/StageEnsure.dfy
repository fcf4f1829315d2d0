/** `ensure_stages` on the remote stage list, and what the dry run is worth as a prediction of it. */
module StageEnsure {
  import opened OrderDomain
  import opened StageBoard
  import opened StageClaims

  // ---------- the remote stage list ----------

  /** The fields of one `crm.status.update`; a field that is not sent keeps its value. */
  datatype Fields = Fields(name: Option<string>, sort: int, semantics: Option<Semantics>)

  function Overlay(s: BoardStage, f: Fields): BoardStage {
    s.(name := if f.name.Some? then f.name.value else s.name, sort := f.sort,
       semantics := if f.semantics.Some? then f.semantics.value else s.semantics)
  }

  function Updated(stages: seq<BoardStage>, dbId: int, f: Fields): (r: seq<BoardStage>)
    ensures |r| == |stages|
    ensures forall k | 0 <= k < |r| :: r[k] == if stages[k].dbId == dbId then Overlay(stages[k], f) else stages[k]
  {
    seq(|stages|, k requires 0 <= k < |stages| => if stages[k].dbId == dbId then Overlay(stages[k], f) else stages[k])
  }

  const SUCCESS_SORT: int := 990
  const FAILURE_SORT: int := 1000

  /** The first `n` failure stages get the sorts 1001, 1002, ... */
  function Ranked(base: seq<BoardStage>, failure: seq<BoardStage>, n: nat): (r: seq<BoardStage>)
    requires n <= |failure|
  {
    if n == 0 then base
    else Updated(Ranked(base, failure, n - 1), failure[n - 1].dbId, Fields(None, FAILURE_SORT + n, None))
  }

  function SuccessPushed(stages: seq<BoardStage>): seq<BoardStage> {
    var success := Having(stages, Success);
    if success == [] then stages else Updated(stages, success[0].dbId, Fields(None, SUCCESS_SORT, None))
  }

  function Pushed(stages: seq<BoardStage>): seq<BoardStage> {
    var failure := Sorted(Having(stages, Failure));
    Ranked(SuccessPushed(stages), failure, |failure|)
  }

  // ---------- when the apply goes through ----------

  predicate Unclaimed(claims: seq<Option<string>>, statusId: string) {
    forall j | 0 <= j < |claims| :: claims[j] != Some(statusId)
  }

  predicate IsTwin(s: BoardStage, spec: Spec, claims: seq<Option<string>>) {
    s.name == spec.name && s.semantics == Process && Unclaimed(claims, s.statusId)
  }

  /** A process stage nobody has claimed already bears the spec's name. */
  predicate Twin(stages: seq<BoardStage>, spec: Spec, claims: seq<Option<string>>) {
    exists i | 0 <= i < |stages| :: IsTwin(stages[i], spec, claims)
  }

  function SemanticsAt(stages: seq<BoardStage>, statusId: string): Option<Semantics> {
    var found := FindId(stages, statusId);
    if found.Some? then Some(found.value.semantics) else None
  }

  /** Spec `k` gets its stage: to add it the id must be free; and an update cannot turn a terminal stage into
      a process one, so the readback then has to find a twin. */
  predicate Passes(stages: seq<BoardStage>, specs: seq<Spec>, k: nat)
    requires k < |specs|
  {
    var claims := Claims(EnvOf(stages, specs), specs, k).0;
    var claim := Claim(EnvOf(stages, specs), Claims(EnvOf(stages, specs), specs, k).1, specs[k]).0;
    if claim.None? then FindId(stages, specs[k].statusId).None?
    else
      specs[k].semantics == Process && SemanticsAt(stages, claim.value) != Some(Process) ==>
      Twin(stages, specs[k], claims)
  }

  predicate Succeeds(stages: seq<BoardStage>, specs: seq<Spec>) {
    forall k | 0 <= k < |specs| :: Passes(stages, specs, k)
  }

  // ---------- what the board looks like after some specs ----------

  /** A claimed stage: the spec's name and sort; a process spec sends no semantics. */
  predicate Bears(now: BoardStage, was: BoardStage, spec: Spec) {
    now.dbId == was.dbId && now.statusId == was.statusId && now.name == spec.name && now.sort == spec.sort &&
    now.semantics == if spec.semantics == Process then was.semantics else spec.semantics
  }

  predicate AddedFor(s: BoardStage, claims: seq<Option<string>>, specs: seq<Spec>, j: nat) {
    j < |claims| && j < |specs| && claims[j].None? && s.statusId == specs[j].statusId && s.name == specs[j].name &&
    s.sort == specs[j].sort && s.semantics == specs[j].semantics
  }

  predicate AddedForSome(s: BoardStage, claims: seq<Option<string>>, specs: seq<Spec>) {
    exists j: nat | j < |claims| :: AddedFor(s, claims, specs, j)
  }

  predicate HasAdded(now: seq<BoardStage>, from: nat, claims: seq<Option<string>>, specs: seq<Spec>, j: nat) {
    exists i | from <= i < |now| :: AddedFor(now[i], claims, specs, j)
  }

  predicate SameIds(base: seq<BoardStage>, now: seq<BoardStage>) {
    |base| <= |now| && forall i | 0 <= i < |base| :: now[i].dbId == base[i].dbId && now[i].statusId == base[i].statusId
  }

  predicate RestKept(base: seq<BoardStage>, now: seq<BoardStage>, claims: seq<Option<string>>) {
    |base| <= |now| && forall i | 0 <= i < |base| && Unclaimed(claims, base[i].statusId) :: now[i] == base[i]
  }

  predicate ClaimedBear(base: seq<BoardStage>, now: seq<BoardStage>, claims: seq<Option<string>>, specs: seq<Spec>) {
    |base| <= |now| && |claims| <= |specs| &&
    forall i, j | 0 <= i < |base| && 0 <= j < |claims| && claims[j] == Some(base[i].statusId) ::
      Bears(now[i], base[i], specs[j])
  }

  predicate TailIsAdded(from: nat, now: seq<BoardStage>, claims: seq<Option<string>>, specs: seq<Spec>) {
    forall i | from <= i < |now| :: AddedForSome(now[i], claims, specs)
  }

  ghost predicate AllAdded(from: nat, now: seq<BoardStage>, claims: seq<Option<string>>, specs: seq<Spec>) {
    forall j: nat | j < |claims| && claims[j].None? :: HasAdded(now, from, claims, specs, j)
  }

  /** Unclaimed stages stand as they were, claimed ones carry their spec, and the rest were added. */
  ghost predicate Shows(base: seq<BoardStage>, now: seq<BoardStage>, claims: seq<Option<string>>, specs: seq<Spec>) {
    SameIds(base, now) && RestKept(base, now, claims) && ClaimedBear(base, now, claims, specs) &&
    TailIsAdded(|base|, now, claims, specs) && AllAdded(|base|, now, claims, specs)
  }

  /** The item the readback looks for. */
  function FirstNamed(stages: seq<BoardStage>, name: string, semantics: Semantics): (r: Option<BoardStage>)
    ensures r.Some? ==> r.value in stages && r.value.name == name && r.value.semantics == semantics
    ensures r.None? ==> forall k | 0 <= k < |stages| :: !(stages[k].name == name && stages[k].semantics == semantics)
  {
    if stages == [] then None
    else if stages[0].name == name && stages[0].semantics == semantics then Some(stages[0])
    else FirstNamed(stages[1..], name, semantics)
  }

  /** The method's cursor against the cursor of `Claims`: it also holds the ids added so far. */
  ghost predicate Tracks(env: Env, specs: seq<Spec>, n: nat, claims: seq<Option<string>>, c: Cursor,
                         added: set<string>) {
    n <= |specs| && claims == Claims(env, specs, n).0 &&
    var cursor := Claims(env, specs, n).1;
    c.process == cursor.process && c.failure == cursor.failure && c.used == cursor.used + added &&
    added <= env.expected && added !! env.ids
  }

  lemma {:induction false} NextUnusedIgnores(iter: seq<string>, used: set<string>, added: set<string>,
                                             expected: set<string>)
    requires added <= expected
    ensures NextUnused(iter, used + added, expected) == NextUnused(iter, used, expected)
  {
    if iter == [] {
    } else {
      NextUnusedIgnores(iter[1..], used, added, expected);
    }
  }

  lemma {:induction false} TracksNext(env: Env, specs: seq<Spec>, n: nat, claims: seq<Option<string>>, c: Cursor,
                                      added: set<string>)
    requires n < |specs| && Tracks(env, specs, n, claims, c, added)
    requires env.success.Some? ==> env.success.value in env.ids
    ensures var (current, c1) := Claim(env, c, specs[n]);
            current == Claim(env, Claims(env, specs, n).1, specs[n]).0 &&
            Tracks(env, specs, n + 1, claims + [current], c1, added)
  {
    var cursor := Claims(env, specs, n).1;
    NextUnusedIgnores(c.process, cursor.used, added, env.expected);
    NextUnusedIgnores(c.failure, cursor.used, added, env.expected);
    var (current, c1) := Claim(env, c, specs[n]);
    var (want, cursor1) := Claim(env, cursor, specs[n]);
    assert current == want;
    assert c1.used == cursor1.used + added;
  }

  /** One round of the loop: the stage `by_status`, the iterators or the success stage offer. */
  method NextClaim(listed: seq<BoardStage>, ghost specs: seq<Spec>, spec: Spec, c: Cursor, success: Option<string>,
                   expected: set<string>)
    returns (current: Option<string>, c1: Cursor)
    requires success == FirstSuccess(listed) && expected == ExpectedIds(specs)
    ensures (current, c1) == Claim(EnvOf(listed, specs), c, spec)
  {
    c1 := c;
    var byId := FindId(listed, spec.statusId);
    current := if byId.Some? then Some(byId.value.statusId) else None;
    if current.None? {
      if spec.semantics == Process {
        var (found, rest) := NextUnused(c.process, c.used, expected);
        current, c1 := found, c.(process := rest);
      } else if spec.semantics == Success {
        current := if success.Some? && success.value !in c.used then success else None;
      } else {
        var (found, rest) := NextUnused(c.failure, c.used, expected);
        current, c1 := found, c.(failure := rest);
      }
    } else if current.value in c.used {
      current := None;
    }
    if current.Some? {
      c1 := c1.(used := c1.used + {current.value});
    }
  }

  /** A server that performs every update, and refuses only a second stage under one status id. */
  class StageServer {
    var stages: seq<BoardStage>
    var nextId: int

    constructor (stages: seq<BoardStage>, nextId: int)
      requires UniqueStages(stages) && forall k | 0 <= k < |stages| :: stages[k].dbId < nextId
      ensures Valid() && this.stages == stages && this.nextId == nextId
    {
      this.stages, this.nextId := stages, nextId;
    }

    ghost predicate Valid()
      reads this
    {
      UniqueStages(stages) && forall k | 0 <= k < |stages| :: stages[k].dbId < nextId
    }

    /** `crm.status.update` */
    method Update(dbId: int, f: Fields)
      requires Valid()
      modifies this`stages
      ensures Valid() && stages == Updated(old(stages), dbId, f)
    {
      stages := Updated(stages, dbId, f);
    }

    /** `crm.status.add` */
    method Add(statusId: string, name: string, sort: int, semantics: Semantics) returns (ok: bool)
      requires Valid()
      modifies this
      ensures Valid()
      ensures ok <==> !HasStage(old(stages), statusId)
      ensures stages == if ok then old(stages) + [BoardStage(old(nextId), statusId, name, sort, semantics)] else old(stages)
      ensures nextId == if ok then old(nextId) + 1 else old(nextId)
    {
      ok := !HasStage(stages, statusId);
      if ok {
        stages := stages + [BoardStage(nextId, statusId, name, sort, semantics)];
        nextId := nextId + 1;
      }
    }

    /** The terminal stages give way: success to 990, failures to 1001, 1002, ... in their order. */
    method PushTerminals()
      requires Valid()
      modifies this`stages
      ensures Valid() && stages == Pushed(old(stages))
    {
      var success := Having(stages, Success);
      var failure := Sorted(Having(stages, Failure));
      if success != [] {
        Update(success[0].dbId, Fields(None, SUCCESS_SORT, None));
      }
      ghost var base := stages;
      for n := 0 to |failure|
        invariant Valid() && stages == Ranked(base, failure, n)
      {
        Update(failure[n].dbId, Fields(None, FAILURE_SORT + n + 1, None));
      }
    }

    /** One spec: update the claimed stage and look for the result, or add a stage. */
    method Place(listed: seq<BoardStage>, specs: seq<Spec>, claims: seq<Option<string>>, current: Option<string>)
      returns (ok: bool, got: BoardStage, isNew: bool)
      requires Valid() && UniqueStages(listed) && DistinctSpecs(specs) && |claims| < |specs|
      requires Shows(listed, stages, claims, specs)
      requires claims == Claims(EnvOf(listed, specs), specs, |claims|).0
      requires current == Claim(EnvOf(listed, specs), Claims(EnvOf(listed, specs), specs, |claims|).1, specs[|claims|]).0
      modifies this
      ensures Valid()
      ensures ok <==> Passes(listed, specs, |claims|)
      ensures ok ==> Shows(listed, stages, claims + [current], specs) && Serves(got, specs[|claims|])
      ensures ok && isNew ==> FindId(listed, specs[|claims|].statusId).None?
    {
      var n, spec := |claims|, specs[|claims|];
      var found: Option<BoardStage> := None;
      if current.Some? {
        ClaimIsListed(listed, specs, n);
        var stage := FindId(listed, current.value).value;
        var fields := FieldsOf(spec);
        FoundIff(listed, stages, claims, specs, current.value);
        ShowsClaim(listed, stages, claims, specs, current.value);
        Update(stage.dbId, fields);
        found := FirstNamed(stages, spec.name, spec.semantics);
      }
      if found.Some? {
        return true, found.value, false;
      }
      isNew := true;
      if current.None? {
        ShowsAdd(listed, stages, claims, specs, nextId);
      } else {
        StaysListed(listed, stages, claims + [current], specs, current.value);
      }
      ok := Add(spec.statusId, spec.name, spec.sort, spec.semantics);
      got := BoardStage(0, spec.statusId, spec.name, spec.sort, spec.semantics);
      if ok {
        got := FindId(stages, spec.statusId).value;
      }
    }

    /** One turn of the loop: pick the stage, then place the spec on it. */
    method ServeNext(listed: seq<BoardStage>, specs: seq<Spec>, claims: seq<Option<string>>, desired: seq<BoardStage>,
                     c: Cursor, ghost added: set<string>)
      returns (ok: bool, current: Option<string>, got: BoardStage, c1: Cursor, ghost added1: set<string>)
      requires Valid() && UniqueStages(listed) && DistinctSpecs(specs) && |claims| < |specs|
      requires Served(listed, stages, specs, claims, desired, c, added)
      modifies this
      ensures Valid()
      ensures ok <==> Passes(listed, specs, |claims|)
      ensures ok ==> Served(listed, stages, specs, claims + [current], desired + [got], c1, added1)
    {
      var n := |claims|;
      ghost var env := EnvOf(listed, specs);
      EnvIsClosed(listed, specs);
      TracksNext(env, specs, n, claims, c, added);
      current, c1 := NextClaim(listed, specs, specs[n], c, FirstSuccess(listed), ExpectedIds(specs));
      var isNew;
      ok, got, isNew := Place(listed, specs, claims, current);
      added1 := added;
      if ok {
        if isNew {
          c1, added1 := c1.(used := c1.used + {specs[n].statusId}), added + {specs[n].statusId};
        }
        assert Tracks(env, specs, n + 1, claims + [current], c1, added1);
        ServedOneMore(listed, specs, claims, desired, got);
      }
    }

    /** `ensure_stages`.  `claims` records what each spec claimed, `desired` what the caller gets. */
    method EnsureStages(specs: seq<Spec>) returns (ok: bool, claims: seq<Option<string>>, desired: seq<BoardStage>)
      requires Valid() && DistinctSpecs(specs)
      modifies this
      ensures Valid()
      ensures ok <==> Succeeds(old(stages), specs)
      ensures ok ==> claims == ClaimsOf(old(stages), specs)
      ensures ok ==> Shows(Pushed(old(stages)), stages, claims, specs)
      ensures ok ==> |desired| == |specs| && AllServe(desired, specs)
    {
      ghost var first := stages;
      PushTerminals();
      var listed := stages;
      var c := StartCursor(listed);
      ghost var added: set<string> := {};
      claims, desired := [], [];
      Starts(listed, specs);
      for n := 0 to |specs|
        invariant Valid() && |claims| == |desired| == n
        invariant Served(listed, stages, specs, claims, desired, c, added)
      {
        var current, got;
        ok, current, got, c, added := ServeNext(listed, specs, claims, desired, c, added);
        if !ok {
          Fails(first, specs, n);
          return;
        }
        claims, desired := claims + [current], desired + [got];
      }
      ok := true;
      Ends(first, stages, specs, claims, desired, c, added);
    }
  }

  /** The state of the loop after the first `|claims|` specs. */
  ghost predicate Served(listed: seq<BoardStage>, now: seq<BoardStage>, specs: seq<Spec>, claims: seq<Option<string>>,
                         desired: seq<BoardStage>, c: Cursor, added: set<string>) {
    |desired| == |claims| <= |specs| && Tracks(EnvOf(listed, specs), specs, |claims|, claims, c, added) &&
    Shows(listed, now, claims, specs) && AllPass(listed, specs, |claims|) && AllServe(desired, specs)
  }

  function StartCursor(listed: seq<BoardStage>): Cursor {
    Cursor(Ids(Sorted(Having(listed, Process))), Ids(Sorted(Having(listed, Failure))), {})
  }

  lemma {:induction false} ServedOneMore(listed: seq<BoardStage>, specs: seq<Spec>, claims: seq<Option<string>>,
                                         desired: seq<BoardStage>, got: BoardStage)
    requires |desired| == |claims| < |specs| && AllPass(listed, specs, |claims|) && AllServe(desired, specs)
    requires Passes(listed, specs, |claims|) && Serves(got, specs[|claims|])
    ensures AllPass(listed, specs, |claims| + 1) && AllServe(desired + [got], specs)
  {
  }

  predicate Serves(s: BoardStage, spec: Spec) { s.name == spec.name && s.semantics == spec.semantics }

  predicate AllServe(desired: seq<BoardStage>, specs: seq<Spec>) {
    |desired| <= |specs| && forall k | 0 <= k < |desired| :: Serves(desired[k], specs[k])
  }

  predicate AllPass(stages: seq<BoardStage>, specs: seq<Spec>, n: nat) {
    n <= |specs| && forall k | 0 <= k < n :: Passes(stages, specs, k)
  }

  function FieldsOf(spec: Spec): Fields {
    Fields(Some(spec.name), spec.sort, if spec.semantics == Process then None else Some(spec.semantics))
  }

  // ---------- one claim ----------

  lemma {:induction false} FindIdUnique(stages: seq<BoardStage>, i: nat)
    requires i < |stages| && UniqueStages(stages)
    ensures FindId(stages, stages[i].statusId) == Some(stages[i])
  {
    var found := FindId(stages, stages[i].statusId);
    assert stages[i] in stages;
    var k :| 0 <= k < |stages| && stages[k] == found.value;
  }

  /** A process iterator offers process stages only. */
  lemma IteratorsKeepSemantics(listed: seq<BoardStage>, specs: seq<Spec>, x: string)
    requires UniqueStages(listed) && x in EnvOf(listed, specs).process
    ensures SemanticsAt(listed, x) == Some(Process)
  {
    var process := Sorted(Having(listed, Process));
    var k :| 0 <= k < |process| && Ids(process)[k] == x;
    HavingMembers(listed, Process);
    SortedMembers(Having(listed, Process));
    assert process[k] in process;
    var i :| 0 <= i < |listed| && listed[i] == process[k];
    FindIdUnique(listed, i);
  }

  /** The claimed stage is on the list, was free, and a process spec gets a terminal stage by id only. */
  lemma {:induction false} ClaimIsListed(listed: seq<BoardStage>, specs: seq<Spec>, n: nat)
    requires UniqueStages(listed) && n < |specs|
    ensures var env := EnvOf(listed, specs);
            var claims := Claims(env, specs, n).0;
            var claim := Claim(env, Claims(env, specs, n).1, specs[n]).0;
            |claims| == n &&
            (claim.Some? ==> FindId(listed, claim.value).Some? && Unclaimed(claims, claim.value)) &&
            (claim.Some? && specs[n].semantics == Process && SemanticsAt(listed, claim.value) != Some(Process) ==>
             claim.value == specs[n].statusId)
  {
    var env := EnvOf(listed, specs);
    EnvIsClosed(listed, specs);
    ClaimsAreInjective(env, specs, n);
    ClaimsAreInjective(env, specs, n + 1);
    var claims := Claims(env, specs, n).0;
    var claim := Claim(env, Claims(env, specs, n).1, specs[n]).0;
    assert Claims(env, specs, n + 1).0 == claims + [claim];
    if claim.Some? {
      assert Claims(env, specs, n + 1).0[n] == claim;
      if specs[n].semantics == Process && claim.value != specs[n].statusId {
        assert claim.value in env.process;
        IteratorsKeepSemantics(listed, specs, claim.value);
      }
    }
  }

  /** Whose stage it is among the first `|base|`. */
  lemma {:induction false} StaysListed(base: seq<BoardStage>, now: seq<BoardStage>, claims: seq<Option<string>>,
                                       specs: seq<Spec>, statusId: string)
    requires Shows(base, now, claims, specs) && FindId(base, statusId).Some?
    ensures HasStage(now, statusId)
  {
    var i :| 0 <= i < |base| && base[i] == FindId(base, statusId).value;
    assert now[i].statusId == statusId;
  }

  /** An update of one listed stage, seen from the list: nothing else changes. */
  predicate OneChanged(now: seq<BoardStage>, after: seq<BoardStage>, k: nat) {
    |now| == |after| && forall i | 0 <= i < |now| && i != k :: after[i] == now[i]
  }

  lemma {:induction false} ShowsClaim(base: seq<BoardStage>, now: seq<BoardStage>, claims: seq<Option<string>>,
                                      specs: seq<Spec>, id: string)
    requires UniqueStages(base) && UniqueStages(now) && Shows(base, now, claims, specs) && |claims| < |specs|
    requires FindId(base, id).Some? && Unclaimed(claims, id)
    ensures Shows(base, Updated(now, FindId(base, id).value.dbId, FieldsOf(specs[|claims|])), claims + [Some(id)], specs)
  {
    var stage, spec := FindId(base, id).value, specs[|claims|];
    var after := Updated(now, stage.dbId, FieldsOf(spec));
    var k :| 0 <= k < |base| && base[k] == stage;
    assert OneChanged(now, after, k);
    assert now[k] == base[k];
    assert Bears(after[k], base[k], spec);
    ClaimKeepsBase(base, now, after, claims, specs, id, k);
    ClaimKeepsTail(base, now, after, claims, Some(id), specs, k);
  }

  lemma ClaimKeepsBase(base: seq<BoardStage>, now: seq<BoardStage>, after: seq<BoardStage>,
                       claims: seq<Option<string>>, specs: seq<Spec>, id: string, k: nat)
    requires UniqueStages(base) && k < |base| && base[k].statusId == id && |claims| < |specs|
    requires RestKept(base, now, claims) && ClaimedBear(base, now, claims, specs) && Unclaimed(claims, id)
    requires OneChanged(now, after, k) && Bears(after[k], base[k], specs[|claims|])
    ensures RestKept(base, after, claims + [Some(id)]) && ClaimedBear(base, after, claims + [Some(id)], specs)
  {
    var claims1 := claims + [Some(id)];
    forall i | 0 <= i < |base| && Unclaimed(claims1, base[i].statusId) ensures after[i] == base[i] {
      assert claims1[|claims|] == Some(id);
      assert forall j | 0 <= j < |claims| :: claims1[j] == claims[j];
      assert Unclaimed(claims, base[i].statusId);
    }
    forall i, j | 0 <= i < |base| && 0 <= j < |claims1| && claims1[j] == Some(base[i].statusId)
      ensures Bears(after[i], base[i], specs[j])
    {
      if j < |claims| {
        assert claims[j] == Some(base[i].statusId);
      }
    }
  }

  lemma ClaimKeepsTail(base: seq<BoardStage>, now: seq<BoardStage>, after: seq<BoardStage>,
                       claims: seq<Option<string>>, claim: Option<string>, specs: seq<Spec>, k: nat)
    requires claim.Some? && k < |base| <= |now| && OneChanged(now, after, k)
    requires TailIsAdded(|base|, now, claims, specs) && AllAdded(|base|, now, claims, specs)
    ensures TailIsAdded(|base|, after, claims + [claim], specs) && AllAdded(|base|, after, claims + [claim], specs)
  {
    var claims1 := claims + [claim];
    forall i | |base| <= i < |after| ensures AddedForSome(after[i], claims1, specs) {
      var j: nat :| j < |claims| && AddedFor(now[i], claims, specs, j);
      assert AddedFor(after[i], claims1, specs, j);
    }
    forall j: nat | j < |claims1| && claims1[j].None? ensures HasAdded(after, |base|, claims1, specs, j) {
      assert HasAdded(now, |base|, claims, specs, j);
      var i :| |base| <= i < |now| && AddedFor(now[i], claims, specs, j);
      assert AddedFor(after[i], claims1, specs, j);
    }
  }

  lemma {:induction false} ShowsAdd(base: seq<BoardStage>, now: seq<BoardStage>, claims: seq<Option<string>>,
                                    specs: seq<Spec>, dbId: int)
    requires Shows(base, now, claims, specs) && |claims| < |specs| && DistinctSpecs(specs)
    ensures var spec := specs[|claims|];
            var extra := BoardStage(dbId, spec.statusId, spec.name, spec.sort, spec.semantics);
            Shows(base, now + [extra], claims + [None], specs)
    ensures HasStage(now, specs[|claims|].statusId) <==> FindId(base, specs[|claims|].statusId).Some?
  {
    var spec, claims1 := specs[|claims|], claims + [None];
    var extra := BoardStage(dbId, spec.statusId, spec.name, spec.sort, spec.semantics);
    var after := now + [extra];
    forall i | 0 <= i < |base| && Unclaimed(claims1, base[i].statusId) ensures after[i] == base[i] {
      assert forall j | 0 <= j < |claims| :: claims1[j] == claims[j];
      assert Unclaimed(claims, base[i].statusId);
    }
    forall i | |base| <= i < |after| ensures AddedForSome(after[i], claims1, specs) {
      if i < |now| {
        var j: nat :| j < |claims| && AddedFor(now[i], claims, specs, j);
        assert AddedFor(after[i], claims1, specs, j);
      } else {
        assert AddedFor(after[i], claims1, specs, |claims|);
      }
    }
    forall j: nat | j < |claims1| && claims1[j].None? ensures HasAdded(after, |base|, claims1, specs, j) {
      if j < |claims| {
        assert HasAdded(now, |base|, claims, specs, j);
        var i :| |base| <= i < |now| && AddedFor(now[i], claims, specs, j);
        assert AddedFor(after[i], claims1, specs, j);
      } else {
        assert AddedFor(after[|now|], claims1, specs, j);
      }
    }
    if FindId(base, spec.statusId).Some? {
      StaysListed(base, now, claims, specs, spec.statusId);
    }
    if HasStage(now, spec.statusId) {
      var i :| 0 <= i < |now| && now[i].statusId == spec.statusId;
      OthersDiffer(base, now, claims, specs, i);
      assert base[i] in base;
    }
  }

  /** The readback finds the spec's name exactly when the stage took the semantics or a twin has it. */
  lemma {:induction false} FoundIff(base: seq<BoardStage>, now: seq<BoardStage>, claims: seq<Option<string>>,
                                    specs: seq<Spec>, id: string)
    requires UniqueStages(base) && UniqueStages(now) && Shows(base, now, claims, specs) && |claims| < |specs|
    requires FindId(base, id).Some? && Unclaimed(claims, id) && DistinctSpecs(specs)
    ensures var spec := specs[|claims|];
            FirstNamed(Updated(now, FindId(base, id).value.dbId, FieldsOf(spec)), spec.name, spec.semantics).Some? <==>
            (spec.semantics == Process && SemanticsAt(base, id) != Some(Process) ==> Twin(base, spec, claims))
  {
    var stage, spec := FindId(base, id).value, specs[|claims|];
    var after := Updated(now, stage.dbId, FieldsOf(spec));
    var found := FirstNamed(after, spec.name, spec.semantics);
    var k :| 0 <= k < |base| && base[k] == stage;
    assert now[k] == base[k];
    assert forall i | 0 <= i < |now| && i != k :: after[i] == now[i];
    if spec.semantics == Process && stage.semantics != Process {
      if Twin(base, spec, claims) {
        var t :| 0 <= t < |base| && IsTwin(base[t], spec, claims);
        assert after[t] == now[t] == base[t];
      }
      if found.Some? {
        var i :| 0 <= i < |after| && after[i] == found.value;
        assert i != k;
        NamedIsTwin(base, now, claims, specs, i);
      }
    } else {
      assert after[k].name == spec.name && after[k].semantics == spec.semantics;
    }
  }

  /** Claimed and added stages bear other specs' names, added ones other specs' ids. */
  lemma OthersDiffer(base: seq<BoardStage>, now: seq<BoardStage>, claims: seq<Option<string>>, specs: seq<Spec>, i: nat)
    requires Shows(base, now, claims, specs) && |claims| < |specs| && DistinctSpecs(specs) && i < |now|
    ensures i >= |base| || !Unclaimed(claims, base[i].statusId) ==> now[i].name != specs[|claims|].name
    ensures i >= |base| ==> now[i].statusId != specs[|claims|].statusId
  {
    if i >= |base| {
      var j: nat :| j < |claims| && AddedFor(now[i], claims, specs, j);
      assert specs[j].name != specs[|claims|].name && specs[j].statusId != specs[|claims|].statusId;
    } else if !Unclaimed(claims, base[i].statusId) {
      var j :| 0 <= j < |claims| && claims[j] == Some(base[i].statusId);
      assert Bears(now[i], base[i], specs[j]);
      assert specs[j].name != specs[|claims|].name;
    }
  }

  lemma NamedIsTwin(base: seq<BoardStage>, now: seq<BoardStage>, claims: seq<Option<string>>, specs: seq<Spec>, i: nat)
    requires Shows(base, now, claims, specs) && |claims| < |specs| && DistinctSpecs(specs) && i < |now|
    requires now[i].name == specs[|claims|].name && now[i].semantics == Process
    ensures Twin(base, specs[|claims|], claims)
  {
    OthersDiffer(base, now, claims, specs, i);
    assert IsTwin(base[i], specs[|claims|], claims);
  }

  // ---------- pushing the terminal stages changes no claim ----------

  /** The same list but for the SORT values. */
  predicate SameButSort(a: seq<BoardStage>, b: seq<BoardStage>) {
    |a| == |b| && forall k | 0 <= k < |a| :: b[k] == a[k].(sort := b[k].sort)
  }

  predicate SameWhere(a: seq<BoardStage>, b: seq<BoardStage>, semantics: Semantics) {
    |a| == |b| && forall k | 0 <= k < |a| && a[k].semantics == semantics :: a[k] == b[k]
  }

  lemma {:induction false} HavingAligned(a: seq<BoardStage>, b: seq<BoardStage>, semantics: Semantics)
    requires SameButSort(a, b)
    ensures SameButSort(Having(a, semantics), Having(b, semantics))
    ensures SameWhere(a, b, semantics) ==> Having(a, semantics) == Having(b, semantics)
  {
    if a == [] {
    } else {
      HavingAligned(a[..|a| - 1], b[..|b| - 1], semantics);
    }
  }

  lemma {:induction false} FindAligned(a: seq<BoardStage>, b: seq<BoardStage>, statusId: string)
    requires SameButSort(a, b)
    ensures FindId(a, statusId).Some? == FindId(b, statusId).Some?
    ensures SemanticsAt(a, statusId) == SemanticsAt(b, statusId)
  {
    if a == [] {
    } else {
      FindAligned(a[..|a| - 1], b[..|b| - 1], statusId);
    }
  }

  lemma {:induction false} RankedAt(base: seq<BoardStage>, failure: seq<BoardStage>, n: nat, k: nat)
    requires n <= |failure| && k < |base| && UniqueStages(failure)
    ensures |Ranked(base, failure, n)| == |base|
    ensures var r := Ranked(base, failure, n)[k];
            ((forall j | 0 <= j < n :: failure[j].dbId != base[k].dbId) ==> r == base[k]) &&
            (forall j | 0 <= j < n && failure[j].dbId == base[k].dbId :: r == base[k].(sort := FAILURE_SORT + j + 1))
  {
    if n == 0 {
    } else {
      RankedAt(base, failure, n - 1, k);
    }
  }

  lemma {:induction false} PushedAt(stages: seq<BoardStage>)
    requires UniqueStages(stages)
    ensures SameButSort(stages, Pushed(stages)) && SameWhere(stages, Pushed(stages), Process)
    ensures var failure := Sorted(Having(stages, Failure));
            forall k, j | 0 <= k < |stages| && 0 <= j < |failure| && failure[j].dbId == stages[k].dbId ::
              Pushed(stages)[k] == failure[j].(sort := FAILURE_SORT + j + 1)
  {
    var failure, base := Sorted(Having(stages, Failure)), SuccessPushed(stages);
    HavingUnique(stages, Failure);
    SortedOrder(Having(stages, Failure));
    HavingMembers(stages, Failure);
    HavingMembers(stages, Success);
    SortedMembers(Having(stages, Failure));
    forall j | 0 <= j < |failure| ensures failure[j] in stages && failure[j].semantics == Failure {
      assert failure[j] in failure;
    }
    SuccessPushedAt(stages);
    forall k | 0 <= k < |stages|
      ensures |Pushed(stages)| == |stages|
      ensures Pushed(stages)[k] == stages[k].(sort := Pushed(stages)[k].sort)
      ensures stages[k].semantics == Process ==> Pushed(stages)[k] == stages[k]
      ensures forall j | 0 <= j < |failure| && failure[j].dbId == stages[k].dbId ::
                Pushed(stages)[k] == failure[j].(sort := FAILURE_SORT + j + 1)
    {
      RankedAt(base, failure, |failure|, k);
      forall j | 0 <= j < |failure| && failure[j].dbId == stages[k].dbId ensures failure[j] == stages[k] {
        SameDbId(stages, failure[j], k);
      }
    }
    if stages == [] {
      assert Having(stages, Failure) == [];
    }
  }

  lemma SameDbId(stages: seq<BoardStage>, s: BoardStage, k: nat)
    requires UniqueStages(stages) && s in stages && k < |stages| && s.dbId == stages[k].dbId
    ensures s == stages[k]
  {
    var m :| 0 <= m < |stages| && stages[m] == s;
  }

  lemma SuccessPushedAt(stages: seq<BoardStage>)
    requires UniqueStages(stages)
    ensures SameButSort(stages, SuccessPushed(stages))
    ensures SameWhere(stages, SuccessPushed(stages), Process) && SameWhere(stages, SuccessPushed(stages), Failure)
  {
    var success := Having(stages, Success);
    HavingMembers(stages, Success);
    if success != [] {
      assert success[0] in success;
      var m :| 0 <= m < |stages| && stages[m] == success[0];
      assert forall k | 0 <= k < |stages| && k != m :: stages[k].dbId != success[0].dbId;
    }
  }

  function Restamped(failure: seq<BoardStage>): (r: seq<BoardStage>)
    ensures |r| == |failure| && forall j | 0 <= j < |r| :: r[j] == failure[j].(sort := FAILURE_SORT + j + 1)
  {
    seq(|failure|, j requires 0 <= j < |failure| => failure[j].(sort := FAILURE_SORT + j + 1))
  }

  lemma {:induction false} FailureAt(stages: seq<BoardStage>, x: BoardStage)
    ensures x in Sorted(Having(stages, Failure)) <==> x in stages && x.semantics == Failure
  {
    SortedMembers(Having(stages, Failure));
    HavingMembers(stages, Failure);
  }

  lemma {:induction false} PushedFailures(stages: seq<BoardStage>, x: BoardStage)
    requires UniqueStages(stages)
    ensures x in Sorted(Having(Pushed(stages), Failure)) <==> x in Restamped(Sorted(Having(stages, Failure)))
  {
    var pushed, failure := Pushed(stages), Sorted(Having(stages, Failure));
    PushedAt(stages);
    FailureAt(pushed, x);
    if x in pushed && x.semantics == Failure {
      var k :| 0 <= k < |pushed| && pushed[k] == x;
      FailureAt(stages, stages[k]);
      var j :| 0 <= j < |failure| && failure[j] == stages[k];
      assert Restamped(failure)[j] == x;
    }
    if x in Restamped(failure) {
      var j :| 0 <= j < |failure| && Restamped(failure)[j] == x;
      FailureAt(stages, failure[j]);
      var k :| 0 <= k < |stages| && stages[k] == failure[j];
      assert pushed[k] == x;
    }
  }

  /** In an ascending list of distinct stages, sorts that are all different fix the order. */
  lemma AscendsLike(now: seq<BoardStage>, model: seq<BoardStage>)
    requires Ascends(now) && UniqueStages(now) && StrictlyAscends(model)
    requires forall x :: x in now <==> x in model
    ensures now == model
  {
    forall i, j | 0 <= i < j < |now| ensures now[i].sort < now[j].sort {
      assert now[i] in model && now[j] in model;
      assert now[i].dbId != now[j].dbId;
    }
    AscendingIsUnique(now, model);
  }

  /** The new failure sorts repeat the old failure order. */
  lemma {:induction false} FailureOrderKept(stages: seq<BoardStage>)
    requires UniqueStages(stages)
    ensures Ids(Sorted(Having(Pushed(stages), Failure))) == Ids(Sorted(Having(stages, Failure)))
  {
    var after := Having(Pushed(stages), Failure);
    var now, restamped := Sorted(after), Restamped(Sorted(Having(stages, Failure)));
    forall x ensures x in now <==> x in restamped {
      PushedFailures(stages, x);
    }
    assert Ascends(now) && UniqueStages(now) by {
      PushedIsUnique(stages);
      HavingUnique(Pushed(stages), Failure);
      SortedOrder(after);
    }
    AscendsLike(now, restamped);
  }

  lemma PushedIsUnique(stages: seq<BoardStage>)
    requires UniqueStages(stages)
    ensures UniqueStages(Pushed(stages))
  {
    PushedAt(stages);
    var pushed := Pushed(stages);
    forall i, j | 0 <= i < j < |pushed|
      ensures pushed[i].dbId != pushed[j].dbId && pushed[i].statusId != pushed[j].statusId
    {
      assert stages[i].dbId != stages[j].dbId;
    }
  }

  lemma PushedKeepsEnv(stages: seq<BoardStage>, specs: seq<Spec>)
    requires UniqueStages(stages)
    ensures EnvOf(Pushed(stages), specs) == EnvOf(stages, specs)
  {
    var pushed := Pushed(stages);
    PushedAt(stages);
    FailureOrderKept(stages);
    HavingAligned(stages, pushed, Process);
    HavingAligned(stages, pushed, Success);
    var ids, ids1 := set s | s in stages :: s.statusId, set s | s in pushed :: s.statusId;
    forall x ensures x in ids <==> x in ids1 {
      if x in ids {
        var k :| 0 <= k < |stages| && stages[k].statusId == x;
        assert pushed[k] in pushed;
      }
      if x in ids1 {
        var k :| 0 <= k < |pushed| && pushed[k].statusId == x;
        assert stages[k] in stages;
      }
    }
  }

  /** The dry run reads the list before the push, the apply after it: both claim the same stages. */
  lemma PushedKeepsClaims(stages: seq<BoardStage>, specs: seq<Spec>)
    requires UniqueStages(stages)
    ensures ClaimsOf(Pushed(stages), specs) == ClaimsOf(stages, specs)
    ensures Succeeds(Pushed(stages), specs) <==> Succeeds(stages, specs)
  {
    PushedKeepsEnv(stages, specs);
    PushedAt(stages);
    forall k: nat | k < |specs| ensures Passes(Pushed(stages), specs, k) <==> Passes(stages, specs, k) {
      var env := EnvOf(stages, specs);
      var claim := Claim(env, Claims(env, specs, k).1, specs[k]).0;
      FindAligned(stages, Pushed(stages), specs[k].statusId);
      if claim.Some? {
        FindAligned(stages, Pushed(stages), claim.value);
      }
      TwinAligned(stages, Pushed(stages), specs[k], Claims(env, specs, k).0);
    }
  }

  lemma {:induction false} Starts(listed: seq<BoardStage>, specs: seq<Spec>)
    ensures Served(listed, listed, specs, [], [], StartCursor(listed), {})
  {
  }

  lemma {:induction false} Fails(stages: seq<BoardStage>, specs: seq<Spec>, n: nat)
    requires UniqueStages(stages) && n < |specs| && !Passes(Pushed(stages), specs, n)
    ensures !Succeeds(stages, specs)
  {
    PushedKeepsClaims(stages, specs);
  }

  lemma {:induction false} Ends(stages: seq<BoardStage>, now: seq<BoardStage>, specs: seq<Spec>,
                                claims: seq<Option<string>>, desired: seq<BoardStage>, c: Cursor, added: set<string>)
    requires UniqueStages(stages) && Served(Pushed(stages), now, specs, claims, desired, c, added) && |claims| == |specs|
    ensures Succeeds(stages, specs) && claims == ClaimsOf(stages, specs)
    ensures Shows(Pushed(stages), now, claims, specs) && AllServe(desired, specs)
  {
    PushedKeepsClaims(stages, specs);
  }

  lemma TwinAligned(a: seq<BoardStage>, b: seq<BoardStage>, spec: Spec, claims: seq<Option<string>>)
    requires SameButSort(a, b)
    ensures Twin(a, spec, claims) <==> Twin(b, spec, claims)
  {
    forall i | 0 <= i < |a| ensures IsTwin(a[i], spec, claims) <==> IsTwin(b[i], spec, claims) {
    }
  }

  // ---------- what the dry run is worth ----------

  predicate OneSuccessSpec(specs: seq<Spec>) {
    forall i, j | 0 <= i < j < |specs| :: !(specs[i].semantics == Success && specs[j].semantics == Success)
  }

  /** Every stage that a spec finds by id already carries the spec's semantics. */
  predicate Matched(stages: seq<BoardStage>, specs: seq<Spec>) {
    forall k | 0 <= k < |specs| && FindId(stages, specs[k].statusId).Some? ::
      SemanticsAt(stages, specs[k].statusId) == Some(specs[k].semantics)
  }

  /** Where a claimed id comes from: its own spec, outside the expected ids, or the success stage. */
  ghost predicate Origin(env: Env, specs: seq<Spec>, n: nat, x: string) {
    x !in env.expected || exists j: nat | j < n && j < |specs| ::
      specs[j].statusId == x || (specs[j].semantics == Success && specs[j].statusId !in env.ids && env.success == Some(x))
  }

  lemma {:induction false} UsedHasOrigin(env: Env, specs: seq<Spec>, n: nat, x: string)
    requires n <= |specs| && x in Claims(env, specs, n).1.used
    ensures Origin(env, specs, n, x)
  {
    if n == 0 {
    } else {
      var cursor := Claims(env, specs, n - 1).1;
      if x in cursor.used {
        UsedHasOrigin(env, specs, n - 1, x);
      } else {
        assert Claim(env, cursor, specs[n - 1]).0 == Some(x);
        assert specs[n - 1].statusId == x || x !in env.expected ||
               (specs[n - 1].semantics == Success && specs[n - 1].statusId !in env.ids && env.success == Some(x));
      }
    }
  }

  lemma SuccessIsSuccess(stages: seq<BoardStage>)
    requires UniqueStages(stages) && FirstSuccess(stages).Some?
    ensures SemanticsAt(stages, FirstSuccess(stages).value) == Some(Success)
  {
    HavingMembers(stages, Success);
    var s := Having(stages, Success)[0];
    assert s in Having(stages, Success);
    var k :| 0 <= k < |stages| && stages[k] == s;
    FindIdUnique(stages, k);
  }

  /** A spec whose id is on the board under its own semantics claims that stage. */
  lemma {:induction false} MatchedClaimsItself(stages: seq<BoardStage>, specs: seq<Spec>, k: nat)
    requires UniqueStages(stages) && DistinctSpecs(specs) && OneSuccessSpec(specs) && k < |specs|
    requires SemanticsAt(stages, specs[k].statusId) == Some(specs[k].semantics)
    ensures var env := EnvOf(stages, specs);
            Claim(env, Claims(env, specs, k).1, specs[k]).0 == Some(specs[k].statusId)
  {
    var env, id := EnvOf(stages, specs), specs[k].statusId;
    if id in Claims(env, specs, k).1.used {
      UsedHasOrigin(env, specs, k, id);
      assert id in env.expected;
      var j: nat :| j < k && (specs[j].statusId == id ||
                              (specs[j].semantics == Success && specs[j].statusId !in env.ids && env.success == Some(id)));
      if env.success == Some(id) {
        SuccessIsSuccess(stages);
      }
      assert false;
    }
  }

  /** The dry run predicts the apply: matched ids, distinct specs and one success spec suffice. */
  lemma PredictionHolds(stages: seq<BoardStage>, specs: seq<Spec>)
    requires UniqueStages(stages) && DistinctSpecs(specs) && OneSuccessSpec(specs) && Matched(stages, specs)
    ensures Succeeds(stages, specs)
  {
    forall k: nat | k < |specs| ensures Passes(stages, specs, k) {
      if FindId(stages, specs[k].statusId).Some? {
        MatchedClaimsItself(stages, specs, k);
      } else {
        ClaimIsListed(stages, specs, k);
      }
    }
  }

  /** The failing family: a process spec's id sits on a terminal stage, and no process stage bears its name. */
  lemma {:induction false} TerminalUnderProcessId(stages: seq<BoardStage>, specs: seq<Spec>, k: nat)
    requires k < |specs| && specs[k].semantics == Process
    requires FindId(stages, specs[k].statusId).Some? && SemanticsAt(stages, specs[k].statusId) != Some(Process)
    requires forall i | 0 <= i < |stages| && stages[i].semantics == Process :: stages[i].name != specs[k].name
    ensures !Passes(stages, specs, k) && !Succeeds(stages, specs)
  {
    var env := EnvOf(stages, specs);
    var claims := Claims(env, specs, k).0;
    assert !Twin(stages, specs[k], claims);
  }
}
