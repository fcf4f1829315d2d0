/** A remote board of stages and items, and the clean-up of stages nobody wants any more.

    Every remote call may fail, with or without having taken effect.  The ghost field `history` holds
    the board after each call, so that a contract can speak about every moment in between. */
module StageBoard {
  import opened OrderDomain

  datatype Semantics = Process | Success | Failure

  datatype BoardStage = BoardStage(dbId: int, statusId: string, name: string, sort: int, semantics: Semantics)

  datatype Card = Card(id: int, stage: string)

  datatype View = View(stages: seq<BoardStage>, cards: seq<Card>)

  predicate HasStage(stages: seq<BoardStage>, statusId: string) {
    exists k | 0 <= k < |stages| :: stages[k].statusId == statusId
  }

  /** No item is stranded: each one sits in a stage that exists. */
  predicate Housed(v: View) {
    forall k | 0 <= k < |v.cards| :: HasStage(v.stages, v.cards[k].stage)
  }

  predicate UniqueStages(stages: seq<BoardStage>) {
    forall i, j | 0 <= i < j < |stages| ::
      stages[i].dbId != stages[j].dbId && stages[i].statusId != stages[j].statusId
  }

  predicate SameCards(a: seq<Card>, b: seq<Card>) {
    |a| == |b| && forall k | 0 <= k < |a| :: a[k].id == b[k].id
  }

  function IdsIn(cards: seq<Card>, statusId: string): seq<int> {
    if cards == [] then []
    else
      var c := cards[|cards| - 1];
      IdsIn(cards[..|cards| - 1], statusId) + (if c.stage == statusId then [c.id] else [])
  }

  function Moved(cards: seq<Card>, id: int, target: string): (r: seq<Card>)
    ensures |r| == |cards|
    ensures forall k | 0 <= k < |r| :: r[k] == if cards[k].id == id then cards[k].(stage := target) else cards[k]
  {
    seq(|cards|, k requires 0 <= k < |cards| => if cards[k].id == id then cards[k].(stage := target) else cards[k])
  }

  function WithoutStage(stages: seq<BoardStage>, dbId: int): seq<BoardStage> {
    if stages == [] then []
    else
      var s := stages[|stages| - 1];
      WithoutStage(stages[..|stages| - 1], dbId) + (if s.dbId == dbId then [] else [s])
  }

  lemma {:induction false} WithoutStageMembers(stages: seq<BoardStage>, dbId: int)
    ensures forall s :: s in WithoutStage(stages, dbId) <==> s in stages && s.dbId != dbId
    ensures UniqueStages(stages) ==> UniqueStages(WithoutStage(stages, dbId))
  {
    if stages == [] {
    } else {
      var rest, s := stages[..|stages| - 1], stages[|stages| - 1];
      WithoutStageMembers(rest, dbId);
      assert stages == rest + [s];
      if UniqueStages(stages) {
        var before := WithoutStage(rest, dbId);
        forall k | 0 <= k < |before| ensures before[k].dbId != s.dbId && before[k].statusId != s.statusId {
          assert before[k] in before;
          var m :| 0 <= m < |rest| && rest[m] == before[k];
        }
      }
    }
  }

  lemma {:induction false} IdsInMembers(cards: seq<Card>, statusId: string)
    ensures forall id ::
              id in IdsIn(cards, statusId) <==>
              exists k | 0 <= k < |cards| :: cards[k].id == id && cards[k].stage == statusId
  {
    if cards == [] {
    } else {
      var rest := cards[..|cards| - 1];
      IdsInMembers(rest, statusId);
      assert forall k | 0 <= k < |rest| :: rest[k] == cards[k];
    }
  }

  const PAGE_SIZE: nat := 50

  class Board {
    var stages: seq<BoardStage>
    var cards: seq<Card>
    ghost var history: seq<View>

    /** A reliable board performs every call that makes sense. */
    const reliable: bool

    constructor (stages: seq<BoardStage>, cards: seq<Card>, reliable: bool)
      ensures this.stages == stages && this.cards == cards && this.reliable == reliable && history == []
    {
      this.stages, this.cards, this.reliable, history := stages, cards, reliable, [];
    }

    ghost predicate Valid()
      reads this
    {
      UniqueStages(stages) && Housed(View(stages, cards))
    }

    /** `crm.item.list` for one stage: the next ids of its items, and where the list goes on, if this was not the
        rest of it. */
    method ListPage(statusId: string, start: nat) returns (ok: bool, page: seq<int>, next: Option<nat>)
      ensures reliable ==> ok
      ensures ok && start <= |IdsIn(cards, statusId)| ==>
                var rest := IdsIn(cards, statusId)[start..];
                page <= rest && |page| <= PAGE_SIZE && (next.None? <==> page == rest) &&
                (next.Some? ==> next.value == start + |page| && page != [])
      ensures ok && start > |IdsIn(cards, statusId)| ==> page == [] && next.None?
    {
      ok := *;
      ok := ok || reliable;
      var all := IdsIn(cards, statusId);
      page := if start <= |all| then all[start..Min(start + PAGE_SIZE, |all|)] else [];
      next := if start + PAGE_SIZE < |all| then Some(start + PAGE_SIZE) else None;
    }

    /** `crm.item.update` */
    method MoveCard(id: int, target: string) returns (ok: bool)
      modifies this`cards, this`history
      ensures reliable ==> ok
      ensures history == old(history) + [View(stages, cards)]
      ensures cards == Moved(old(cards), id, target) || (!ok && cards == old(cards))
    {
      ok := *;
      ok := ok || reliable;
      var lands: bool := *;
      if ok || lands {
        cards := Moved(cards, id, target);
      }
      history := history + [View(stages, cards)];
    }

    /** `crm.status.delete`; an unknown id is an error. */
    method DeleteStage(dbId: int) returns (ok: bool)
      modifies this`stages, this`history
      ensures history == old(history) + [View(stages, cards)]
      ensures stages == WithoutStage(old(stages), dbId) || (!ok && stages == old(stages))
      ensures reliable && (exists s :: s in old(stages) && s.dbId == dbId) ==> ok
      ensures ok ==> (exists s :: s in old(stages) && s.dbId == dbId) && stages == WithoutStage(old(stages), dbId)
    {
      ok := *;
      ok := ok || reliable;
      if forall k | 0 <= k < |stages| :: stages[k].dbId != dbId {
        ok := false;
      }
      var lands: bool := *;
      if ok || lands {
        stages := WithoutStage(stages, dbId);
      }
      history := history + [View(stages, cards)];
    }

    /** `_list_stage_item_ids`: follow `next` until it is missing or a page is empty. */
    method ListStageItemIds(statusId: string) returns (ok: bool, ids: seq<int>)
      ensures reliable ==> ok
      ensures ok ==> ids == IdsIn(cards, statusId)
    {
      ghost var all := IdsIn(cards, statusId);
      ids := [];
      var start := 0;
      while true
        invariant start <= |all| && ids == all[..start]
        decreases |all| - start
      {
        var page, next;
        ok, page, next := ListPage(statusId, start);
        if !ok {
          return;
        }
        assert all[..start] + page == all[..start + |page|];
        ids := ids + page;
        if next.None? || page == [] {
          break;
        }
        start := next.value;
      }
    }

    /** The moves of one stage: `moved` items are known to have arrived when a call fails. */
    method MoveAll(ids: seq<int>, target: string) returns (ok: bool)
      modifies this`cards, this`history
      ensures reliable ==> ok
      ensures Steps(old(history), history, old(View(stages, cards)), target)
      ensures Follows(old(View(stages, cards)), View(stages, cards), target)
      ensures forall k | 0 <= k < |cards| && cards[k].id !in ids :: cards[k] == old(cards)[k]
      ensures ok ==> forall k | 0 <= k < |cards| && cards[k].id in ids :: cards[k].stage == target
    {
      ok := true;
      ghost var before := View(stages, cards);
      for n := 0 to |ids|
        invariant Steps(old(history), history, before, target)
        invariant Follows(before, View(stages, cards), target)
        invariant forall k | 0 <= k < |cards| && cards[k].id !in ids :: cards[k] == before.cards[k]
        invariant forall k | 0 <= k < |cards| && cards[k].id in ids[..n] :: cards[k].stage == target
      {
        ok := MoveCard(ids[n], target);
        if !ok {
          return;
        }
      }
      assert ids[..|ids|] == ids;
    }
  }

  /** The stages stand as they were, and items only went to `target`. */
  predicate Follows(before: View, after: View, target: string) {
    after.stages == before.stages && SameCards(before.cards, after.cards) &&
    forall k | 0 <= k < |before.cards| :: after.cards[k].stage in {before.cards[k].stage, target}
  }

  /** Every board recorded since then follows from `before` by such moves. */
  ghost predicate Steps(earlier: seq<View>, later: seq<View>, before: View, target: string) {
    |earlier| <= |later| && later[..|earlier|] == earlier &&
    forall n | |earlier| <= n < |later| :: Follows(before, later[n], target)
  }
}
