/** The rounds of the composite recovery on lists: what is waiting for WON and for LOSE, and where the deals stand.  An
    order may wait for both; whichever target its deal reaches first, the other one is never reached. */
module RecoveryScenes {
  import opened OrderDomain
  import opened StageOutbox
  import opened LiveReads

  /** An open row: the order it names and the deal it was written for. */
  datatype Waiting = Waiting(order: Order, dealId: int)

  function Names(q: seq<Waiting>): (r: seq<Order>)
    ensures |r| == |q| && forall k | 0 <= k < |r| :: r[k] == q[k].order
  {
    seq(|q|, k requires 0 <= k < |q| => q[k].order)
  }

  /** The order's one deal is the row's, and it waits at EXECUTING or has reached the target. */
  predicate Ripe(deals: seq<Deal>, w: Waiting, target: Stage) {
    var found := Matching(deals, w.order);
    |found| == 1 && found[0].id == w.dealId && found[0].stage in {Executing, target}
  }

  /** A pass over `all` closes the row: one chunk names its order, and it is ripe. */
  predicate Closes(deals: seq<Deal>, all: seq<Waiting>, w: Waiting, target: Stage) {
    ChunksNaming(Names(all), w.order) == 1 && Ripe(deals, w, target)
  }

  function StayOpen(deals: seq<Deal>, all: seq<Waiting>, part: seq<Waiting>, target: Stage): seq<Waiting> {
    if part == [] then []
    else
      var rest, w := StayOpen(deals, all, part[..|part| - 1], target), part[|part| - 1];
      if Closes(deals, all, w, target) then rest else rest + [w]
  }

  predicate Commanded(deals: seq<Deal>, q: seq<Waiting>, d: Deal, target: Stage) {
    d.stage == Executing && exists w | w in q :: w.dealId == d.id && Closes(deals, q, w, target)
  }

  /** The deals after a pass whose commands all land. */
  function MovedBy(deals: seq<Deal>, q: seq<Waiting>, target: Stage): seq<Deal> {
    seq(|deals|, k requires 0 <= k < |deals| =>
      if Commanded(deals, q, deals[k], target) then deals[k].(stage := target) else deals[k])
  }

  datatype Scene = Scene(deals: seq<Deal>, won: seq<Waiting>, lose: seq<Waiting>)

  /** First the rows for WON, then those for LOSE. */
  function NextScene(s: Scene): Scene {
    var deals1 := MovedBy(s.deals, s.won, Won);
    Scene(MovedBy(deals1, s.lose, Lose), StayOpen(s.deals, s.won, s.won, Won), StayOpen(deals1, s.lose, s.lose, Lose))
  }

  function SceneAfter(s: Scene, n: nat): Scene
    decreases n
  {
    if n == 0 then s else SceneAfter(NextScene(s), n - 1)
  }

  // ---------- one pass ----------

  /** Deals only leave EXECUTING, for the target. */
  predicate Progress(deals: seq<Deal>, after: seq<Deal>, target: Stage) {
    |after| == |deals| &&
    forall k | 0 <= k < |deals| ::
      after[k] == deals[k] || (deals[k].stage == Executing && after[k] == deals[k].(stage := target))
  }

  lemma {:induction false} ProgressMatching(deals: seq<Deal>, after: seq<Deal>, target: Stage, order: Order)
    requires Progress(deals, after, target)
    ensures Progress(Matching(deals, order), Matching(after, order), target)
  {
    if deals == [] {
      assert after == [];
    } else {
      var n := |deals| - 1;
      ProgressMatching(deals[..n], after[..n], target, order);
      assert after[n].order == deals[n].order;
    }
  }

  lemma MovedProgress(deals: seq<Deal>, q: seq<Waiting>, target: Stage)
    ensures Progress(deals, MovedBy(deals, q, target), target)
    ensures UniqueIds(deals) ==> UniqueIds(MovedBy(deals, q, target))
  {
    var after := MovedBy(deals, q, target);
    if UniqueIds(deals) {
      forall i, j | 0 <= i < j < |after| ensures after[i].id != after[j].id {
        assert deals[i].id != deals[j].id;
      }
    }
  }

  /** Progress towards a target changes nothing for its own rows, and ripens no other row. */
  lemma {:induction false} RipeAfter(deals: seq<Deal>, after: seq<Deal>, w: Waiting, towards: Stage, target: Stage)
    requires Progress(deals, after, towards) && towards != Executing
    ensures Ripe(after, w, target) ==> Ripe(deals, w, target)
    ensures towards == target ==> (Ripe(after, w, target) <==> Ripe(deals, w, target))
  {
    ProgressMatching(deals, after, towards, w.order);
  }

  /** Nothing closes. */
  predicate Stalled(deals: seq<Deal>, q: seq<Waiting>, target: Stage) {
    forall k | 0 <= k < |q| :: !Closes(deals, q, q[k], target)
  }

  lemma {:induction false} StayOpenMembers(deals: seq<Deal>, all: seq<Waiting>, part: seq<Waiting>, target: Stage)
    ensures forall w :: w in StayOpen(deals, all, part, target) <==> w in part && !Closes(deals, all, w, target)
    ensures |StayOpen(deals, all, part, target)| <= |part|
    ensures |StayOpen(deals, all, part, target)| == |part| ==> StayOpen(deals, all, part, target) == part
  {
    if part == [] {
      assert StayOpen(deals, all, part, target) == [];
    } else {
      StayOpenMembers(deals, all, part[..|part| - 1], target);
      assert part == part[..|part| - 1] + [part[|part| - 1]];
    }
  }

  lemma {:induction false} StayAllOpen(deals: seq<Deal>, all: seq<Waiting>, part: seq<Waiting>, target: Stage)
    requires forall k | 0 <= k < |part| :: !Closes(deals, all, part[k], target)
    ensures StayOpen(deals, all, part, target) == part
  {
    if part == [] {
      assert StayOpen(deals, all, part, target) == [];
    } else {
      StayAllOpen(deals, all, part[..|part| - 1], target);
    }
  }

  /** A pass over an stalled list changes nothing, any other pass shortens its list. */
  lemma {:induction false} StalledPass(deals: seq<Deal>, q: seq<Waiting>, target: Stage)
    ensures Stalled(deals, q, target) ==> StayOpen(deals, q, q, target) == q && MovedBy(deals, q, target) == deals
    ensures !Stalled(deals, q, target) ==> |StayOpen(deals, q, q, target)| < |q|
  {
    if Stalled(deals, q, target) {
      StayAllOpen(deals, q, q, target);
      var after := MovedBy(deals, q, target);
      forall k | 0 <= k < |deals| ensures after[k] == deals[k] {
        assert !Commanded(deals, q, deals[k], target);
      }
    } else {
      StayOpenMembers(deals, q, q, target);
      var k :| 0 <= k < |q| && Closes(deals, q, q[k], target);
      assert q[k] in q && q[k] !in StayOpen(deals, q, q, target);
    }
  }

  /** A list that was stalled stays so while deals make progress. */
  lemma StalledAfter(deals: seq<Deal>, after: seq<Deal>, q: seq<Waiting>, towards: Stage, target: Stage)
    requires Progress(deals, after, towards) && towards != Executing && Stalled(deals, q, target)
    ensures Stalled(after, q, target)
  {
    forall k | 0 <= k < |q| ensures !Closes(after, q, q[k], target) {
      RipeAfter(deals, after, q[k], towards, target);
    }
  }

  lemma OnlyDeal(deals: seq<Deal>, order: Order, k: nat)
    requires UniqueIds(deals) && k < |deals| && |Matching(deals, order)| == 1 && Matching(deals, order)[0].id == deals[k].id
    ensures Matching(deals, order)[0] == deals[k] && deals[k].order == order
  {
    var d := Matching(deals, order)[0];
    MatchingMembers(deals, order);
    assert d in Matching(deals, order);
    var x :| 0 <= x < |deals| && deals[x] == d;
    assert x == k;
  }

  // ---------- which lists stay ----------

  predicate WonStalled(s: Scene) { Stalled(s.deals, s.won, Won) }

  /** Stalled when its turn comes. */
  predicate LoseStalled(s: Scene) { Stalled(MovedBy(s.deals, s.won, Won), s.lose, Lose) }

  /** The lists after a round are those before it or shorter. */
  predicate Thinner(s: Scene, t: Scene) {
    |t.won| <= |s.won| && |t.lose| <= |s.lose| && (|t.won| == |s.won| ==> t.won == s.won) &&
    (|t.lose| == |s.lose| ==> t.lose == s.lose)
  }

  /** One round: each list stays if it is stalled when its pass begins, and gets shorter otherwise. */
  lemma {:induction false} RoundThins(s: Scene)
    ensures var t := NextScene(s);
            Thinner(s, t) && (t.won == s.won <==> WonStalled(s)) && (t.lose == s.lose <==> LoseStalled(s)) &&
            (WonStalled(s) && LoseStalled(s) ==> t == s)
  {
    StalledPass(s.deals, s.won, Won);
    StalledPass(MovedBy(s.deals, s.won, Won), s.lose, Lose);
  }

  /** A list that was stalled at its pass is stalled at its next one. */
  lemma {:induction false} StalledNext(s: Scene)
    ensures WonStalled(s) ==> WonStalled(NextScene(s))
    ensures LoseStalled(s) ==> LoseStalled(NextScene(s))
  {
    var deals1, t := MovedBy(s.deals, s.won, Won), NextScene(s);
    StalledPass(s.deals, s.won, Won);
    StalledPass(deals1, s.lose, Lose);
    MovedProgress(deals1, s.lose, Lose);
    MovedProgress(t.deals, t.won, Won);
    if WonStalled(s) {
      StalledAfter(deals1, t.deals, s.won, Lose, Won);
    }
    if LoseStalled(s) {
      StalledAfter(t.deals, MovedBy(t.deals, t.won, Won), s.lose, Won, Lose);
    }
  }

  /** The scene after one round, and what the rest of the rounds start from. */
  lemma {:induction false} FirstRound(s: Scene, n: nat) returns (t: Scene)
    requires n > 0
    ensures SceneAfter(s, n) == SceneAfter(t, n - 1) && Thinner(s, t)
    ensures t.won == s.won <==> WonStalled(s)
    ensures t.lose == s.lose <==> LoseStalled(s)
    ensures WonStalled(s) ==> WonStalled(t)
    ensures LoseStalled(s) ==> LoseStalled(t)
    ensures WonStalled(s) && LoseStalled(s) ==> t == s
  {
    t := NextScene(s);
    RoundThins(s);
    StalledNext(s);
  }

  /** What stays between two scenes, and what that says of the first. */
  predicate StaysAsStalled(s: Scene, n: nat, last: Scene) {
    Thinner(s, last) && (WonStalled(s) ==> last.won == s.won) && (LoseStalled(s) ==> last.lose == s.lose) &&
    (n > 0 ==> (last.won == s.won ==> WonStalled(s)) && (last.lose == s.lose ==> LoseStalled(s)))
  }

  lemma {:induction false} OneMoreRound(s: Scene, n: nat, last: Scene) returns (t: Scene)
    requires n > 0 && last == SceneAfter(s, n)
    ensures last == SceneAfter(t, n - 1)
    ensures StaysAsStalled(t, n - 1, last) ==> StaysAsStalled(s, n, last)
  {
    t := FirstRound(s, n);
  }

  lemma {:induction false} StaysThrough(s: Scene, n: nat, last: Scene)
    requires last == SceneAfter(s, n)
    ensures StaysAsStalled(s, n, last)
    decreases n
  {
    if n == 0 {
      assert last == s;
    } else {
      var t := OneMoreRound(s, n, last);
      StaysThrough(t, n - 1, last);
    }
  }

  /** The rows for WON stay through any number of rounds if and only if the first pass closes none of them; the rows
      for LOSE, if and only if none closes once the rows for WON have had their pass. */
  lemma {:induction false} ListsStayIff(s: Scene, n: nat)
    ensures Thinner(s, SceneAfter(s, n))
    ensures WonStalled(s) ==> SceneAfter(s, n).won == s.won
    ensures LoseStalled(s) ==> SceneAfter(s, n).lose == s.lose
    ensures n > 0 ==> (SceneAfter(s, n).won == s.won <==> WonStalled(s))
    ensures n > 0 ==> (SceneAfter(s, n).lose == s.lose <==> LoseStalled(s))
  {
    StaysThrough(s, n, SceneAfter(s, n));
  }

  /** As many rounds as there are rows reach a scene in which both lists stay for good. */
  lemma {:induction false} RoundsEnd(s: Scene, n: nat)
    requires n >= |s.won| + |s.lose|
    ensures WonStalled(SceneAfter(s, n)) && LoseStalled(SceneAfter(s, n))
    decreases n
  {
    if n == 0 {
      assert SceneAfter(s, 0) == s && s.won == [] && s.lose == [];
    } else if WonStalled(s) && LoseStalled(s) {
      SameForever(s, n);
    } else {
      var t := FirstRound(s, n);
      RoundsEnd(t, n - 1);
    }
  }

  lemma {:induction false} SameForever(s: Scene, n: nat)
    requires WonStalled(s) && LoseStalled(s)
    ensures SceneAfter(s, n) == s
    decreases n
  {
    if n == 0 {
      assert SceneAfter(s, 0) == s;
    } else {
      var t := FirstRound(s, n);
      SameForever(s, n - 1);
    }
  }

  // ---------- an order with both targets ----------

  /** The rows of one order. */
  function Of(q: seq<Waiting>, order: Order): seq<Waiting> {
    if q == [] then []
    else
      var rest := Of(q[..|q| - 1], order);
      if q[|q| - 1].order == order then rest + [q[|q| - 1]] else rest
  }

  predicate StandsAt(deals: seq<Deal>, order: Order, stage: Stage) {
    |Matching(deals, order)| == 1 && Matching(deals, order)[0].stage == stage
  }

  /** A deal that has left EXECUTING stays where it is. */
  lemma StandsOn(deals: seq<Deal>, after: seq<Deal>, order: Order, stage: Stage, towards: Stage)
    requires Progress(deals, after, towards) && StandsAt(deals, order, stage) && stage != Executing
    ensures StandsAt(after, order, stage)
  {
    ProgressMatching(deals, after, towards, order);
  }

  /** A row that closes leaves its order's deal in the target. */
  lemma {:induction false} ClosedStands(deals: seq<Deal>, q: seq<Waiting>, w: Waiting, target: Stage)
    requires w in q && Closes(deals, q, w, target) && target != Executing
    ensures StandsAt(MovedBy(deals, q, target), w.order, target)
  {
    var after := MovedBy(deals, q, target);
    MovedProgress(deals, q, target);
    ProgressMatching(deals, after, target, w.order);
    var d := Matching(after, w.order)[0];
    MatchingMembers(after, w.order);
    assert d in Matching(after, w.order);
    var k :| 0 <= k < |after| && after[k] == d;
    assert deals[k].order == w.order;
    OnlyOne(deals, w.order, k);
    if deals[k].stage == Executing {
      assert Commanded(deals, q, deals[k], target);
    }
  }

  /** Either the pass closes no row of the order, or the order's deal then stands in the target. */
  lemma {:induction false} PassOf(deals: seq<Deal>, all: seq<Waiting>, part: seq<Waiting>, target: Stage, order: Order)
    requires target != Executing && forall w | w in part :: w in all
    ensures Of(StayOpen(deals, all, part, target), order) == Of(part, order) ||
            StandsAt(MovedBy(deals, all, target), order, target)
  {
    if part == [] {
      assert StayOpen(deals, all, part, target) == [];
    } else {
      var front, w := part[..|part| - 1], part[|part| - 1];
      PassOf(deals, all, front, target, order);
      if Closes(deals, all, w, target) {
        ClosedStands(deals, all, w, target);
      } else {
        OfAppend(StayOpen(deals, all, front, target), w, order);
      }
    }
  }

  lemma OfAppend(q: seq<Waiting>, w: Waiting, order: Order)
    ensures Of(q + [w], order) == if w.order == order then Of(q, order) + [w] else Of(q, order)
  {
    assert (q + [w])[..|q|] == q;
  }

  /** Rows of the order that are gone went with the deal to their target. */
  predicate WentWithDeal(q0: seq<Waiting>, q: seq<Waiting>, deals: seq<Deal>, order: Order, target: Stage) {
    Of(q, order) == Of(q0, order) || StandsAt(deals, order, target)
  }

  lemma {:induction false} PassKeepsPact(q0: seq<Waiting>, q: seq<Waiting>, deals: seq<Deal>, order: Order,
                                         target: Stage, mine: seq<Waiting>, mine0: seq<Waiting>, towards: Stage)
    requires {target, towards} == {Won, Lose}
    requires WentWithDeal(q0, q, deals, order, target) && WentWithDeal(mine0, mine, deals, order, towards)
    ensures WentWithDeal(q0, q, MovedBy(deals, mine, towards), order, target)
    ensures WentWithDeal(mine0, StayOpen(deals, mine, mine, towards), MovedBy(deals, mine, towards), order, towards)
  {
    var after := MovedBy(deals, mine, towards);
    MovedProgress(deals, mine, towards);
    if StandsAt(deals, order, target) {
      StandsOn(deals, after, order, target, towards);
    }
    if StandsAt(deals, order, towards) {
      StandsOn(deals, after, order, towards, towards);
    } else {
      PassOf(deals, mine, mine, towards, order);
    }
  }

  lemma {:induction false} PactHolds(s0: Scene, s: Scene, n: nat, order: Order)
    requires WentWithDeal(s0.won, s.won, s.deals, order, Won) && WentWithDeal(s0.lose, s.lose, s.deals, order, Lose)
    ensures var t := SceneAfter(s, n);
            WentWithDeal(s0.won, t.won, t.deals, order, Won) && WentWithDeal(s0.lose, t.lose, t.deals, order, Lose)
    decreases n
  {
    if n > 0 {
      PassKeepsPact(s0.lose, s.lose, s.deals, order, Lose, s.won, s0.won, Won);
      var deals1, won1 := MovedBy(s.deals, s.won, Won), StayOpen(s.deals, s.won, s.won, Won);
      PassKeepsPact(s0.won, won1, deals1, order, Won, s.lose, s0.lose, Lose);
      PactHolds(s0, NextScene(s), n - 1, order);
    }
  }

  /** However many rounds are run, of an order that waits for both targets the rows of one target all stay. */
  lemma {:induction false} OneTargetWins(s: Scene, n: nat, order: Order)
    ensures Of(SceneAfter(s, n).won, order) == Of(s.won, order) || Of(SceneAfter(s, n).lose, order) == Of(s.lose, order)
  {
    PactHolds(s, s, n, order);
  }

  /** A pass that closes no row of the order leaves its deal where it waits. */
  lemma {:induction false} StillWaits(deals: seq<Deal>, q: seq<Waiting>, target: Stage, order: Order)
    requires UniqueIds(deals) && StandsAt(deals, order, Executing)
    requires forall w | w in q && w.order == order :: !Closes(deals, q, w, target)
    ensures StandsAt(MovedBy(deals, q, target), order, Executing)
  {
    var after := MovedBy(deals, q, target);
    MovedProgress(deals, q, target);
    ProgressMatching(deals, after, target, order);
    var d := Matching(after, order)[0];
    MatchingMembers(after, order);
    assert d in Matching(after, order);
    var k :| 0 <= k < |after| && after[k] == d;
    assert deals[k].order == order;
    OnlyOne(deals, order, k);
    if Commanded(deals, q, deals[k], target) {
      var v :| v in q && v.dealId == deals[k].id && Closes(deals, q, v, target);
      OnlyDeal(deals, v.order, k);
      assert false;
    }
  }

  /** One chunk of the list names the order. */
  predicate Readable(q: seq<Waiting>, order: Order) { ChunksNaming(Names(q), order) == 1 }

  lemma {:induction false} RipePass(deals: seq<Deal>, q: seq<Waiting>, target: Stage, order: Order)
    requires UniqueIds(deals) && StandsAt(deals, order, Executing) && target != Executing
    requires forall w | w in q && w.order == order :: Ripe(deals, w, target)
    ensures StandsAt(MovedBy(deals, q, target), order, if Readable(q, order) then target else Executing)
  {
    if Readable(q, order) {
      var k := NamedAt(Names(q), order);
      assert q[k] in q;
      ClosedStands(deals, q, q[k], target);
    } else {
      StillWaits(deals, q, target, order);
    }
  }

  lemma {:induction false} NamedAt(orders: seq<Order>, order: Order) returns (k: nat)
    requires ChunksNaming(orders, order) > 0
    ensures k < |orders| && orders[k] == order
    decreases |orders|
  {
    var n := if |orders| <= LIVE_CHUNK then |orders| else LIVE_CHUNK;
    if order in orders[..n] {
      k :| 0 <= k < n && orders[k] == order;
    } else {
      k := NamedAt(orders[n..], order);
      k := k + n;
    }
  }

  /** Where one round takes a waiting deal whose rows are all its own: to WON if one chunk of the rows for WON names the
      order, otherwise to LOSE if one chunk of the rows for LOSE does; so a straddle lets LOSE go first. */
  lemma {:induction false} RoundDecides(s: Scene, order: Order)
    requires UniqueIds(s.deals) && StandsAt(s.deals, order, Executing)
    requires forall w | w in s.won + s.lose && w.order == order :: w.dealId == Matching(s.deals, order)[0].id
    ensures StandsAt(NextScene(s).deals, order,
                     if Readable(s.won, order) then Won else if Readable(s.lose, order) then Lose else Executing)
  {
    var deals1 := MovedBy(s.deals, s.won, Won);
    MovedProgress(s.deals, s.won, Won);
    RipePass(s.deals, s.won, Won, order);
    ProgressMatching(s.deals, deals1, Won, order);
    if Readable(s.won, order) {
      MovedProgress(deals1, s.lose, Lose);
      StandsOn(deals1, NextScene(s).deals, order, Won, Lose);
    } else {
      RipePass(deals1, s.lose, Lose, order);
    }
  }

  /** The deal waits, and the order's rows were written for it. */
  predicate OwnDealWaits(s: Scene, order: Order) {
    UniqueIds(s.deals) && StandsAt(s.deals, order, Executing) &&
    forall w | w in s.won + s.lose && w.order == order :: w.dealId == Matching(s.deals, order)[0].id
  }

  /** An order whose rows for WON straddle and whose rows for LOSE do not goes to LOSE, and its rows for WON stay open
      for good. */
  lemma {:induction false} LoseGoesFirst(s: Scene, n: nat, order: Order)
    requires OwnDealWaits(s, order) && !Readable(s.won, order) && Readable(s.lose, order) && n > 0
    ensures StandsAt(SceneAfter(s, n).deals, order, Lose)
    ensures Of(SceneAfter(s, n).won, order) == Of(s.won, order)
  {
    RoundDecides(s, order);
    StandsForGood(NextScene(s), n - 1, order, Lose);
    PactHolds(s, s, n, order);
  }

  /** Two rows for WON around thirty-nine of another order, and one for LOSE. */
  function Straddled(a: Order, b: Order): Scene {
    Scene([Deal(1, a, Executing, false), Deal(2, b, Executing, false)],
          [Waiting(a, 1)] + seq(LIVE_CHUNK - 1, _ => Waiting(b, 2)) + [Waiting(a, 1)], [Waiting(a, 1)])
  }

  /** Such an order. */
  lemma {:induction false} StraddledLoses(a: Order, b: Order)
    requires a != b
    ensures var s := Straddled(a, b); OwnDealWaits(s, a) && !Readable(s.won, a) && Readable(s.lose, a)
  {
    var s, d, e := Straddled(a, b), Deal(1, a, Executing, false), Deal(2, b, Executing, false);
    assert [d, e][..1] == [d] && [d][..0] == [];
    assert Matching([], a) == [] && Matching([d], a) == [d];
    assert Matching([d, e], a) == Matching([d], a) + [];
    SecondPassReads(a, b, [a] + seq(LIVE_CHUNK - 1, _ => b) + [a]);
    assert Names(s.won) == [a] + seq(LIVE_CHUNK - 1, _ => b) + [a];
    assert Names(s.lose)[0] == a;
    FortyRowsAreReadable(Names(s.lose), a);
  }

  lemma {:induction false} StandsForGood(s: Scene, n: nat, order: Order, stage: Stage)
    requires StandsAt(s.deals, order, stage) && stage != Executing
    ensures StandsAt(SceneAfter(s, n).deals, order, stage)
    decreases n
  {
    if n == 0 {
      assert SceneAfter(s, 0) == s;
    } else {
      var deals1 := MovedBy(s.deals, s.won, Won);
      MovedProgress(s.deals, s.won, Won);
      MovedProgress(deals1, s.lose, Lose);
      StandsOn(s.deals, deals1, order, stage, Won);
      StandsOn(deals1, NextScene(s).deals, order, stage, Lose);
      StandsForGood(NextScene(s), n - 1, order, stage);
    }
  }

  // ---------- what is never closed, and when everything is ----------

  lemma {:induction false} NotRipeRound(s: Scene, w: Waiting)
    ensures !Ripe(s.deals, w, Won) ==>
              !Ripe(NextScene(s).deals, w, Won) && (w in s.won ==> w in NextScene(s).won)
    ensures !Ripe(s.deals, w, Lose) ==>
              !Ripe(NextScene(s).deals, w, Lose) && (w in s.lose ==> w in NextScene(s).lose)
  {
    var deals1 := MovedBy(s.deals, s.won, Won);
    StayOpenMembers(s.deals, s.won, s.won, Won);
    StayOpenMembers(deals1, s.lose, s.lose, Lose);
    MovedProgress(s.deals, s.won, Won);
    MovedProgress(deals1, s.lose, Lose);
    RipeAfter(s.deals, deals1, w, Won, Won);
    RipeAfter(s.deals, deals1, w, Won, Lose);
    RipeAfter(deals1, NextScene(s).deals, w, Lose, Won);
    RipeAfter(deals1, NextScene(s).deals, w, Lose, Lose);
  }

  /** A row whose deal is not the order's only one, or stands elsewhere, is never closed. */
  lemma {:induction false} NotRipeStays(s: Scene, n: nat, w: Waiting)
    ensures !Ripe(s.deals, w, Won) && w in s.won ==> w in SceneAfter(s, n).won
    ensures !Ripe(s.deals, w, Lose) && w in s.lose ==> w in SceneAfter(s, n).lose
    decreases n
  {
    if n == 0 {
      assert SceneAfter(s, 0) == s;
    } else {
      NotRipeRound(s, w);
      NotRipeStays(NextScene(s), n - 1, w);
    }
  }

  predicate AllRipe(deals: seq<Deal>, q: seq<Waiting>, target: Stage) { forall w | w in q :: Ripe(deals, w, target) }

  /** A pass over at most forty ripe rows closes them all. */
  lemma {:induction false} ShortPass(deals: seq<Deal>, q: seq<Waiting>, target: Stage)
    requires |q| <= LIVE_CHUNK && AllRipe(deals, q, target)
    ensures StayOpen(deals, q, q, target) == []
  {
    StayOpenMembers(deals, q, q, target);
    var left := StayOpen(deals, q, q, target);
    if left != [] {
      var w := left[0];
      assert w in left && w in q;
      var k :| 0 <= k < |q| && q[k] == w;
      assert Names(q)[k] == w.order;
      FortyRowsAreReadable(Names(q), w.order);
      assert false;
    }
  }

  /** More than forty rows of one order are never closed. */
  lemma {:induction false} LongIsStalled(deals: seq<Deal>, q: seq<Waiting>, target: Stage, order: Order)
    requires |q| > LIVE_CHUNK && forall w | w in q :: w.order == order
    ensures Stalled(deals, q, target)
  {
    OneOrderDrainsIff(Names(q), order);
    assert Names(q)[0] == order;
  }

  lemma {:induction false} OfOne(q: seq<Waiting>, order: Order)
    requires forall w | w in q :: w.order == order
    ensures Of(q, order) == q
  {
    if q == [] {
    } else {
      OfOne(q[..|q| - 1], order);
      assert q[|q| - 1] in q;
    }
  }

  /** What one target asks of the rows of one order: at most forty, and each for the order's deal. */
  predicate Closable(deals: seq<Deal>, q: seq<Waiting>, target: Stage) {
    |q| <= LIVE_CHUNK && AllRipe(deals, q, target)
  }

  /** At most forty rows, all ripe when their pass comes, are done after one round. */
  lemma {:induction false} ShortListsDrain(s: Scene, n: nat)
    requires n > 0
    ensures Closable(s.deals, s.won, Won) ==> SceneAfter(s, n).won == []
    ensures Closable(MovedBy(s.deals, s.won, Won), s.lose, Lose) ==> SceneAfter(s, n).lose == []
  {
    var deals1 := MovedBy(s.deals, s.won, Won);
    if Closable(s.deals, s.won, Won) { ShortPass(s.deals, s.won, Won); }
    if Closable(deals1, s.lose, Lose) { ShortPass(deals1, s.lose, Lose); }
    ListsStayIff(NextScene(s), n - 1);
  }

  /** One list that rounds empty, while the other one is empty already. */
  lemma {:induction false} EmptiedIsClosable(s: Scene, n: nat, order: Order)
    requires forall w | w in s.won || w in s.lose :: w.order == order
    ensures s.lose == [] && SceneAfter(s, n).won == [] ==> Closable(s.deals, s.won, Won)
    ensures s.won == [] && SceneAfter(s, n).lose == [] ==> Closable(s.deals, s.lose, Lose)
  {
    ListsStayIff(s, n);
    StalledPass(s.deals, [], Won);
    if |s.won| > LIVE_CHUNK { LongIsStalled(s.deals, s.won, Won, order); }
    if |s.lose| > LIVE_CHUNK { LongIsStalled(MovedBy(s.deals, s.won, Won), s.lose, Lose, order); }
    forall w ensures !Ripe(s.deals, w, Won) && w in s.won ==> w in SceneAfter(s, n).won
      ensures !Ripe(s.deals, w, Lose) && w in s.lose ==> w in SceneAfter(s, n).lose
    {
      NotRipeStays(s, n, w);
    }
  }

  predicate Done(s: Scene) { s.won == [] && s.lose == [] }

  /** Everything waits for one target, and can be closed. */
  predicate OneTargetCloses(s: Scene) {
    (s.lose == [] && Closable(s.deals, s.won, Won)) || (s.won == [] && Closable(s.deals, s.lose, Lose))
  }

  lemma {:induction false} ClosableSettles(s: Scene, n: nat)
    requires n > 0 && OneTargetCloses(s)
    ensures Done(SceneAfter(s, n))
  {
    ShortListsDrain(s, n);
    ListsStayIff(s, n);
    if s.won == [] { StalledPass(s.deals, s.won, Won); }
  }

  lemma {:induction false} BothNeverDone(s: Scene, n: nat, order: Order)
    requires forall w | w in s.won || w in s.lose :: w.order == order
    requires s.won != [] && s.lose != []
    ensures !Done(SceneAfter(s, n))
  {
    OneTargetWins(s, n, order);
    OfOne(s.won, order);
    OfOne(s.lose, order);
    assert Of([], order) == [];
  }

  /** Rounds close every row of an order if and only if all of them aim at one target, are at most forty, and are
      written for the order's one deal, which waits at EXECUTING or stands in that target. */
  lemma {:induction false} OneOrderSettlesIff(s: Scene, n: nat, order: Order)
    requires n > 0 && forall w | w in s.won || w in s.lose :: w.order == order
    ensures Done(SceneAfter(s, n)) <==> OneTargetCloses(s)
  {
    if OneTargetCloses(s) {
      ClosableSettles(s, n);
    } else if s.won != [] && s.lose != [] {
      BothNeverDone(s, n, order);
    } else {
      EmptiedIsClosable(s, n, order);
    }
  }

  // ---------- queues of one target each ----------

  /** What recovery finds when every deal waits at EXECUTING or has reached the target of its order's rows, and no order
      has rows for both. */
  predicate Recoverable(s: Scene) {
    AllRipe(s.deals, s.won, Won) && AllRipe(s.deals, s.lose, Lose) &&
    forall v, w | v in s.won && w in s.lose :: v.order != w.order
  }

  lemma {:induction false} RipeThins(deals: seq<Deal>, all: seq<Waiting>, part: seq<Waiting>, target: Stage)
    requires AllRipe(deals, part, target)
    ensures Names(StayOpen(deals, all, part, target)) == Stay(Names(all), Names(part))
  {
    if part == [] {
      assert StayOpen(deals, all, part, target) == [];
    } else {
      var front, w := part[..|part| - 1], part[|part| - 1];
      RipeThins(deals, all, front, target);
      assert Names(part)[..|part| - 1] == Names(front);
      var rest := StayOpen(deals, all, front, target);
      assert Names(rest + [w]) == Names(rest) + [w.order];
      assert w in part;
    }
  }

  /** A pass moves no deal of an order it does not list. */
  lemma {:induction false} PassSpares(deals: seq<Deal>, q: seq<Waiting>, target: Stage, w: Waiting, other: Stage)
    requires UniqueIds(deals) && Ripe(deals, w, other) && forall v | v in q :: v.order != w.order
    ensures Ripe(MovedBy(deals, q, target), w, other)
  {
    var after := MovedBy(deals, q, target);
    MovedProgress(deals, q, target);
    ProgressMatching(deals, after, target, w.order);
    var d := Matching(after, w.order)[0];
    MatchingMembers(after, w.order);
    assert d in Matching(after, w.order);
    var k :| 0 <= k < |after| && after[k] == d;
    if Commanded(deals, q, deals[k], target) {
      var v :| v in q && v.dealId == deals[k].id && Closes(deals, q, v, target);
      OnlyDeal(deals, v.order, k);
      MatchingMembers(deals, v.order);
      assert false;
    }
    assert deals[k] == d && deals[k].order == w.order;
    OnlyOne(deals, w.order, k);
  }

  lemma OnlyOne(deals: seq<Deal>, order: Order, k: nat)
    requires k < |deals| && deals[k].order == order && |Matching(deals, order)| == 1
    ensures Matching(deals, order)[0] == deals[k]
  {
    MatchingMembers(deals, order);
    assert deals[k] in Matching(deals, order);
  }

  /** One round thins out both lists once. */
  lemma {:induction false} RecoverableNext(s: Scene)
    requires UniqueIds(s.deals) && Recoverable(s)
    ensures var t := NextScene(s);
            UniqueIds(t.deals) && Recoverable(t) && Names(t.won) == Remaining(Names(s.won)) &&
            Names(t.lose) == Remaining(Names(s.lose))
  {
    var deals1, t := MovedBy(s.deals, s.won, Won), NextScene(s);
    MovedProgress(s.deals, s.won, Won);
    MovedProgress(deals1, s.lose, Lose);
    StayOpenMembers(s.deals, s.won, s.won, Won);
    StayOpenMembers(deals1, s.lose, s.lose, Lose);
    RipeThins(s.deals, s.won, s.won, Won);
    forall w | w in s.lose ensures Ripe(deals1, w, Lose) && Ripe(t.deals, w, Lose) {
      PassSpares(s.deals, s.won, Won, w, Lose);
      RipeAfter(deals1, t.deals, w, Lose, Lose);
    }
    RipeThins(deals1, s.lose, s.lose, Lose);
    forall w | w in s.won ensures Ripe(t.deals, w, Won) {
      RipeAfter(s.deals, deals1, w, Won, Won);
      PassSpares(deals1, s.lose, Lose, w, Won);
    }
  }

  lemma RemainingStep(queue: seq<Order>, n: nat)
    requires n > 0
    ensures RemainingAfter(queue, n) == RemainingAfter(Remaining(queue), n - 1)
  {
  }

  /** `last` is what the lists of orders predict after `n` rounds. */
  predicate Predicted(s: Scene, n: nat, last: Scene) {
    Names(last.won) == RemainingAfter(Names(s.won), n) && Names(last.lose) == RemainingAfter(Names(s.lose), n)
  }

  lemma {:induction false} RecoverableRound(s: Scene, n: nat, last: Scene) returns (t: Scene)
    requires n > 0 && UniqueIds(s.deals) && Recoverable(s) && last == SceneAfter(s, n)
    ensures last == SceneAfter(t, n - 1) && UniqueIds(t.deals) && Recoverable(t)
    ensures Predicted(t, n - 1, last) ==> Predicted(s, n, last)
  {
    t := NextScene(s);
    RecoverableNext(s);
    RemainingStep(Names(s.won), n);
    RemainingStep(Names(s.lose), n);
  }

  lemma {:induction false} ScenesThin(s: Scene, n: nat, last: Scene)
    requires UniqueIds(s.deals) && Recoverable(s) && last == SceneAfter(s, n)
    ensures Predicted(s, n, last)
    decreases n
  {
    if n == 0 {
      assert last == s;
    } else {
      var t := RecoverableRound(s, n, last);
      ScenesThin(t, n - 1, last);
    }
  }
}
