/** Since when does a customer wait?  The backfill's scans over a stored conversation against the worker's scans
    over the same one: the worker lets only replies that say something count, and knows whether a first response
    has been given. */
module AwaitingReply {
  import opened OrderDomain

  datatype Message = Message(authorKind: string, visible: bool, substantive: bool, at: int)
  {
    predicate IsReply() { authorKind in SUPPORT_KINDS && visible }

    predicate IsCustomer() { authorKind == CUSTOMER }
  }

  const SUPPORT_KINDS: set<string> := {"support", "support-team", "support_team"}
  const CUSTOMER: string := "customer"

  /** Which visible replies end a wait, and whether a first response is on record. */
  datatype Rule = Rule(substantiveOnly: bool, started: bool)
  {
    predicate Ends(m: Message) { m.IsReply() && (substantiveOnly ==> m.substantive) }
  }

  /** The backfill lets every visible reply count and asks for one. */
  const BACKFILL: Rule := Rule(false, false)

  function Worker(started: bool): Rule { Rule(true, started) }

  predicate AfterEveryReply(messages: seq<Message>, rule: Rule, at: int) {
    forall k | 0 <= k < |messages| && rule.Ends(messages[k]) :: messages[k].at < at
  }

  predicate HasReply(messages: seq<Message>, rule: Rule) {
    exists k | 0 <= k < |messages| :: rule.Ends(messages[k])
  }

  predicate CustomerAt(messages: seq<Message>, at: int) {
    exists k | 0 <= k < |messages| :: messages[k].IsCustomer() && messages[k].at == at
  }

  /** A customer who wrote at `at` has not been answered since the first response. */
  predicate Unanswered(messages: seq<Message>, rule: Rule, at: int) {
    (rule.started || HasReply(messages, rule)) && AfterEveryReply(messages, rule, at)
  }

  /** `since` is the time of the first customer message that is unanswered. */
  predicate WaitsSince(messages: seq<Message>, rule: Rule, since: int) {
    CustomerAt(messages, since) && Unanswered(messages, rule, since) &&
    forall k | 0 <= k < |messages| && messages[k].IsCustomer() && Unanswered(messages, rule, messages[k].at) ::
      since <= messages[k].at
  }

  // ---------- the scans ----------

  /** `last` is the time of the last of the first `n` messages that ends a wait, if one does. */
  predicate IsLastReply(messages: seq<Message>, rule: Rule, n: nat, last: Option<int>)
    requires n <= |messages|
  {
    (forall k | 0 <= k < n && rule.Ends(messages[k]) :: last.Some? && messages[k].at <= last.value) &&
    (last.Some? ==> exists k | 0 <= k < n :: rule.Ends(messages[k]) && messages[k].at == last.value)
  }

  predicate IsAfter(last: Option<int>, at: int) { last.None? || last.value < at }

  /** `first` is the earliest customer message among the first `n` after `last`, if there is one. */
  predicate IsFirstCustomer(messages: seq<Message>, last: Option<int>, n: nat, first: Option<int>)
    requires n <= |messages|
  {
    (forall k | 0 <= k < n && messages[k].IsCustomer() && IsAfter(last, messages[k].at) ::
       first.Some? && first.value <= messages[k].at) &&
    (first.Some? ==> IsAfter(last, first.value) && CustomerAt(messages, first.value))
  }

  lemma LastReplyDecides(messages: seq<Message>, rule: Rule, last: Option<int>, at: int)
    requires IsLastReply(messages, rule, |messages|, last)
    ensures HasReply(messages, rule) <==> last.Some?
    ensures AfterEveryReply(messages, rule, at) <==> IsAfter(last, at)
  {
  }

  /** What the two scans find is the answer, wherever a wait can be told at all. */
  lemma {:induction false} ScansAnswer(messages: seq<Message>, rule: Rule, last: Option<int>, first: Option<int>)
    requires IsLastReply(messages, rule, |messages|, last) && IsFirstCustomer(messages, last, |messages|, first)
    ensures var since := if rule.started || last.Some? then first else None;
            forall t :: since == Some(t) <==> WaitsSince(messages, rule, t)
  {
    var since := if rule.started || last.Some? then first else None;
    LastReplyDecides(messages, rule, last, 0);
    forall at ensures AfterEveryReply(messages, rule, at) <==> IsAfter(last, at) {
      LastReplyDecides(messages, rule, last, at);
    }
    forall t ensures since == Some(t) <==> WaitsSince(messages, rule, t) {
      if WaitsSince(messages, rule, t) {
        var k :| 0 <= k < |messages| && messages[k].IsCustomer() && messages[k].at == t;
        var m :| 0 <= m < |messages| && messages[m].IsCustomer() && messages[m].at == first.value;
      }
    }
  }

  /** `awaiting_since_from_history` */
  method AwaitingSince(messages: seq<Message>) returns (since: Option<int>)
    ensures forall t :: since == Some(t) <==> WaitsSince(messages, BACKFILL, t)
  {
    var last: Option<int> := None;
    for n := 0 to |messages|
      invariant IsLastReply(messages, BACKFILL, n, last)
    {
      if messages[n].IsReply() && (last.None? || messages[n].at > last.value) {
        last := Some(messages[n].at);
      }
    }
    if last.None? {
      ScansAnswer(messages, BACKFILL, None, FirstOf(messages, None));
      return None;
    }
    since := None;
    for n := 0 to |messages|
      invariant IsFirstCustomer(messages, last, n, since)
    {
      if messages[n].IsCustomer() && messages[n].at > last.value && (since.None? || messages[n].at < since.value) {
        since := Some(messages[n].at);
      }
    }
    ScansAnswer(messages, BACKFILL, last, since);
  }

  /** `compute_awaiting_reply_since`; `started` says that the case has a first response time. */
  method ComputeAwaiting(messages: seq<Message>, started: bool) returns (since: Option<int>)
    ensures forall t :: since == Some(t) <==> WaitsSince(messages, Worker(started), t)
    ensures since == Online(Arranged(messages), Worker(started)).0
  {
    var last: Option<int> := None;
    for n := 0 to |messages|
      invariant IsLastReply(messages, Worker(started), n, last)
    {
      if messages[n].IsReply() && messages[n].substantive && (last.None? || messages[n].at > last.value) {
        last := Some(messages[n].at);
      }
    }
    var first: Option<int> := None;
    for n := 0 to |messages|
      invariant IsFirstCustomer(messages, last, n, first)
    {
      if messages[n].IsCustomer() && !(last.Some? && messages[n].at <= last.value) &&
         (first.None? || messages[n].at < first.value) {
        first := Some(messages[n].at);
      }
    }
    ScansAnswer(messages, Worker(started), last, first);
    since := if first.None? || (!started && last.None?) then None else first;
    ArrangedIsHistory(messages);
    ScansAreOnline(messages, Arranged(messages), Worker(started), since);
  }

  /** The first customer message after `last`. */
  function FirstOf(messages: seq<Message>, last: Option<int>): (first: Option<int>)
    ensures IsFirstCustomer(messages, last, |messages|, first)
  {
    if messages == [] then None
    else
      var n := |messages| - 1;
      var first := FirstOf(messages[..n], last);
      FirstStays(messages, last, first);
      if messages[n].IsCustomer() && IsAfter(last, messages[n].at) && (first.None? || messages[n].at < first.value)
      then Some(messages[n].at) else first
  }

  lemma FirstStays(messages: seq<Message>, last: Option<int>, first: Option<int>)
    requires messages != [] && IsFirstCustomer(messages[..|messages| - 1], last, |messages| - 1, first)
    ensures IsFirstCustomer(messages, last, |messages| - 1, first)
  {
    var front := messages[..|messages| - 1];
    if first.Some? {
      var k :| 0 <= k < |front| && front[k].IsCustomer() && front[k].at == first.value;
      assert messages[k].IsCustomer() && messages[k].at == first.value;
    }
    assert forall k | 0 <= k < |front| :: messages[k] == front[k];
  }

  function LastOf(messages: seq<Message>, rule: Rule): (last: Option<int>)
    ensures IsLastReply(messages, rule, |messages|, last)
  {
    if messages == [] then None
    else
      var n := |messages| - 1;
      var last := LastOf(messages[..n], rule);
      assert forall k | 0 <= k < n :: messages[k] == messages[..n][k];
      if rule.Ends(messages[n]) && (last.None? || messages[n].at > last.value) then Some(messages[n].at) else last
  }

  /** Somebody waits if and only if some customer message is unanswered. */
  lemma {:induction false} WaitExists(messages: seq<Message>, rule: Rule) returns (since: Option<int>)
    ensures since.Some? ==> WaitsSince(messages, rule, since.value)
    ensures since.None? ==> forall t :: !WaitsSince(messages, rule, t)
    ensures since.None? ==>
              forall k | 0 <= k < |messages| && messages[k].IsCustomer() :: !Unanswered(messages, rule, messages[k].at)
  {
    var last := LastOf(messages, rule);
    var first := FirstOf(messages, last);
    ScansAnswer(messages, rule, last, first);
    since := if rule.started || last.Some? then first else None;
    if since.None? {
      forall k | 0 <= k < |messages| && messages[k].IsCustomer() ensures !Unanswered(messages, rule, messages[k].at) {
        LastReplyDecides(messages, rule, last, messages[k].at);
      }
    }
  }

  // ---------- backfill against worker ----------

  ghost predicate Agree(messages: seq<Message>, started: bool) {
    forall t :: WaitsSince(messages, BACKFILL, t) <==> WaitsSince(messages, Worker(started), t)
  }

  /** Every visible reply ends a wait for the backfill, so it calls fewer customers unanswered once the
      conversation has started for the worker. */
  lemma BackfillSeesFewer(messages: seq<Message>, started: bool, at: int)
    requires started || HasReply(messages, Worker(started))
    requires Unanswered(messages, BACKFILL, at)
    ensures Unanswered(messages, Worker(started), at)
  {
    forall k | 0 <= k < |messages| && Worker(started).Ends(messages[k]) ensures messages[k].at < at {
      assert BACKFILL.Ends(messages[k]);
    }
  }

  /** Nobody waits by the worker's rule whom the backfill takes for answered. */
  predicate NoneForgotten(messages: seq<Message>, started: bool) {
    forall k | 0 <= k < |messages| && messages[k].IsCustomer() && Unanswered(messages, Worker(started), messages[k].at) ::
      Unanswered(messages, BACKFILL, messages[k].at)
  }

  predicate NobodyWaits(messages: seq<Message>, rule: Rule) {
    forall k | 0 <= k < |messages| && messages[k].IsCustomer() :: !Unanswered(messages, rule, messages[k].at)
  }

  /** The two agree if and only if no customer message lies between the worker's starting point and the last
      visible reply: in a conversation that has started for the worker, no one it finds unanswered was answered
      or passed over by the backfill; in one that has not, the backfill finds nobody either. */
  lemma {:induction false} AgreeIff(messages: seq<Message>, started: bool)
    ensures Agree(messages, started) <==>
            if started || HasReply(messages, Worker(started)) then NoneForgotten(messages, started)
            else NobodyWaits(messages, BACKFILL)
  {
    if started || HasReply(messages, Worker(started)) {
      AgreeIfNoneForgotten(messages, started);
      NoneForgottenIfAgree(messages, started);
    } else {
      var since := WaitExists(messages, BACKFILL);
      if since.Some? {
        assert WaitsSince(messages, BACKFILL, since.value) && !WaitsSince(messages, Worker(started), since.value);
      }
    }
  }

  lemma {:induction false} AgreeIfNoneForgotten(messages: seq<Message>, started: bool)
    requires started || HasReply(messages, Worker(started))
    ensures NoneForgotten(messages, started) ==> Agree(messages, started)
  {
    if NoneForgotten(messages, started) {
      forall k | 0 <= k < |messages| && messages[k].IsCustomer()
        ensures Unanswered(messages, BACKFILL, messages[k].at) <==> Unanswered(messages, Worker(started), messages[k].at)
      {
        if Unanswered(messages, BACKFILL, messages[k].at) {
          BackfillSeesFewer(messages, started, messages[k].at);
        }
      }
      forall t ensures WaitsSince(messages, BACKFILL, t) <==> WaitsSince(messages, Worker(started), t) {
        SameWait(messages, BACKFILL, Worker(started), t);
        SameWait(messages, Worker(started), BACKFILL, t);
      }
    }
  }

  lemma SameWait(messages: seq<Message>, a: Rule, b: Rule, t: int)
    requires forall k | 0 <= k < |messages| && messages[k].IsCustomer() ::
               Unanswered(messages, a, messages[k].at) <==> Unanswered(messages, b, messages[k].at)
    ensures WaitsSince(messages, a, t) ==> WaitsSince(messages, b, t)
  {
    if WaitsSince(messages, a, t) {
      var k :| 0 <= k < |messages| && messages[k].IsCustomer() && messages[k].at == t;
      assert Unanswered(messages, b, messages[k].at);
    }
  }

  /** The worker's first unanswered customer is the backfill's too, and everyone later wrote after the same
      replies. */
  lemma {:induction false} NoneForgottenIfAgree(messages: seq<Message>, started: bool)
    requires started || HasReply(messages, Worker(started))
    ensures Agree(messages, started) ==> NoneForgotten(messages, started)
  {
    if Agree(messages, started) {
      var since := WaitExists(messages, Worker(started));
      if since.Some? {
        assert WaitsSince(messages, BACKFILL, since.value);
      }
    }
  }

  /** In a case the backfill selects, whose first response is on record, its answer is never earlier than the
      worker's, and never a wait the worker does not see. */
  lemma {:induction false} BackfillIsLater(messages: seq<Message>, since: int) returns (sooner: int)
    requires WaitsSince(messages, BACKFILL, since)
    ensures WaitsSince(messages, Worker(true), sooner) && sooner <= since
  {
    BackfillSeesFewer(messages, true, since);
    var k :| 0 <= k < |messages| && messages[k].IsCustomer() && messages[k].at == since;
    assert Unanswered(messages, Worker(true), messages[k].at);
    var found := WaitExists(messages, Worker(true));
    sooner := found.value;
  }

  /** A bare greeting ends the wait for the backfill only. */
  lemma GreetingHidesWait(started: bool)
    ensures var messages := [Message("support", true, true, 1), Message("customer", true, false, 2),
                             Message("support", true, false, 3)];
            WaitsSince(messages, Worker(started), 2) && forall t :: !WaitsSince(messages, BACKFILL, t)
  {
    var messages := [Message("support", true, true, 1), Message("customer", true, false, 2),
                     Message("support", true, false, 3)];
    assert Worker(started).Ends(messages[0]) && messages[1].IsCustomer();
    assert !Worker(started).Ends(messages[1]) && !Worker(started).Ends(messages[2]);
    forall t ensures !WaitsSince(messages, BACKFILL, t) {
      assert BACKFILL.Ends(messages[2]);
    }
  }

  /** A first response that left no visible message starts the worker's clock and not the backfill's. */
  lemma HiddenResponseHidesWait()
    ensures var messages := [Message("customer", true, false, 1)];
            WaitsSince(messages, Worker(true), 1) && forall t :: !WaitsSince(messages, BACKFILL, t)
  {
    var messages := [Message("customer", true, false, 1)];
    assert messages[0].IsCustomer() && !Worker(true).Ends(messages[0]);
  }

  // ---------- the worker message by message ----------

  /** Messages arrive in time order, replies after customers of the same time. */
  predicate Arrives(messages: seq<Message>, m: Message) {
    forall k | 0 <= k < |messages| ::
      messages[k].at < m.at || (messages[k].at == m.at && !(messages[k].IsReply() && m.IsCustomer()))
  }

  /** What the answer becomes when one more message arrives: a reply that counts ends every wait, a wait keeps
      its time, and a customer begins one once the conversation has started. */
  predicate Turns(messages: seq<Message>, m: Message, rule: Rule, before: Option<int>, after: Option<int>) {
    after == if rule.Ends(m) then None
             else if before.Some? then before
             else if m.IsCustomer() && (rule.started || HasReply(messages, rule)) then Some(m.at)
             else None
  }

  ghost predicate Answers(messages: seq<Message>, rule: Rule, since: Option<int>) {
    forall t :: since == Some(t) <==> WaitsSince(messages, rule, t)
  }

  lemma WaitsSinceIsUnique(messages: seq<Message>, rule: Rule, s: int, t: int)
    requires WaitsSince(messages, rule, s) && WaitsSince(messages, rule, t)
    ensures s == t
  {
    var i :| 0 <= i < |messages| && messages[i].IsCustomer() && messages[i].at == s;
    var j :| 0 <= j < |messages| && messages[j].IsCustomer() && messages[j].at == t;
  }

  lemma {:induction false} UnansweredStep(messages: seq<Message>, m: Message, rule: Rule, at: int)
    ensures rule.Ends(m) && at <= m.at ==> !Unanswered(messages + [m], rule, at)
    ensures !rule.Ends(m) ==> (Unanswered(messages + [m], rule, at) <==> Unanswered(messages, rule, at))
  {
    var longer := messages + [m];
    assert longer[|messages|] == m && forall k | 0 <= k < |messages| :: longer[k] == messages[k];
    if !rule.Ends(m) {
      assert HasReply(longer, rule) <==> HasReply(messages, rule) by {
        if HasReply(messages, rule) {
          var k :| 0 <= k < |messages| && rule.Ends(messages[k]);
          assert rule.Ends(longer[k]);
        }
      }
    }
  }

  /** Recomputing from the whole history on every message does what keeping the answer would do. */
  lemma {:induction false} RecomputingTurns(messages: seq<Message>, m: Message, rule: Rule, before: Option<int>,
                                            after: Option<int>)
    requires Arrives(messages, m) && Answers(messages, rule, before) && Turns(messages, m, rule, before, after)
    ensures Answers(messages + [m], rule, after)
  {
    var longer := messages + [m];
    assert longer[|messages|] == m && forall k | 0 <= k < |messages| :: longer[k] == messages[k];
    forall at ensures rule.Ends(m) && at <= m.at ==> !Unanswered(longer, rule, at)
      ensures !rule.Ends(m) ==> (Unanswered(longer, rule, at) <==> Unanswered(messages, rule, at))
    {
      UnansweredStep(messages, m, rule, at);
    }
    if after.Some? {
      TurnWaits(messages, m, rule, before, after.value);
      forall t | WaitsSince(longer, rule, t) ensures after == Some(t) {
        WaitsSinceIsUnique(longer, rule, t, after.value);
      }
    } else {
      TurnEnds(messages, m, rule, before);
    }
  }

  lemma {:induction false} TurnWaits(messages: seq<Message>, m: Message, rule: Rule, before: Option<int>, since: int)
    requires Arrives(messages, m) && Answers(messages, rule, before) && Turns(messages, m, rule, before, Some(since))
    ensures WaitsSince(messages + [m], rule, since)
  {
    var longer := messages + [m];
    assert longer[|messages|] == m && forall k | 0 <= k < |messages| :: longer[k] == messages[k];
    UnansweredStep(messages, m, rule, since);
    if before.Some? {
      assert WaitsSince(messages, rule, since);
      var c :| 0 <= c < |messages| && messages[c].IsCustomer() && messages[c].at == since;
      assert longer[c].IsCustomer() && longer[c].at == since;
    } else {
      assert longer[|messages|].IsCustomer() && AfterEveryReply(messages, rule, m.at);
    }
    var found := WaitExists(messages, rule);
    forall k | 0 <= k < |longer| && longer[k].IsCustomer() && Unanswered(longer, rule, longer[k].at)
      ensures since <= longer[k].at
    {
      UnansweredStep(messages, m, rule, longer[k].at);
    }
  }

  lemma {:induction false} TurnEnds(messages: seq<Message>, m: Message, rule: Rule, before: Option<int>)
    requires Arrives(messages, m) && Answers(messages, rule, before) && Turns(messages, m, rule, before, None)
    ensures forall t :: !WaitsSince(messages + [m], rule, t)
  {
    var longer := messages + [m];
    assert longer[|messages|] == m && forall k | 0 <= k < |messages| :: longer[k] == messages[k];
    var found := WaitExists(messages, rule);
    forall t ensures !WaitsSince(longer, rule, t) {
      if WaitsSince(longer, rule, t) {
        var c :| 0 <= c < |longer| && longer[c].IsCustomer() && longer[c].at == t;
        UnansweredStep(messages, m, rule, t);
      }
    }
  }

  // ---------- the whole history at once ----------

  /** The answer kept message by message, and whether the conversation has started. */
  function Online(history: seq<Message>, rule: Rule): (Option<int>, bool) {
    if history == [] then (None, rule.started)
    else
      var (before, begun) := Online(history[..|history| - 1], rule);
      var m := history[|history| - 1];
      (if rule.Ends(m) then None else if before.Some? then before else if m.IsCustomer() && begun then Some(m.at) else None,
       begun || rule.Ends(m))
  }

  predicate InTimeOrder(history: seq<Message>) {
    forall n | 0 <= n < |history| :: Arrives(history[..n], history[n])
  }

  lemma {:induction false} OnlineBegins(history: seq<Message>, rule: Rule)
    ensures Online(history, rule).1 <==> rule.started || HasReply(history, rule)
  {
    if history == [] {
    } else {
      var front := history[..|history| - 1];
      OnlineBegins(front, rule);
      assert HasReply(history, rule) <==> HasReply(front, rule) || rule.Ends(history[|front|]) by {
        if HasReply(front, rule) {
          var k :| 0 <= k < |front| && rule.Ends(front[k]);
          assert rule.Ends(history[k]);
        }
        if HasReply(history, rule) && !rule.Ends(history[|front|]) {
          var k :| 0 <= k < |history| && rule.Ends(history[k]);
          assert rule.Ends(front[k]);
        }
      }
    }
  }

  lemma {:induction false} OnlineAnswers(history: seq<Message>, rule: Rule)
    requires InTimeOrder(history)
    ensures Answers(history, rule, Online(history, rule).0)
  {
    if history == [] {
      assert Online(history, rule).0 == None;
    } else {
      var front, m := history[..|history| - 1], history[|history| - 1];
      assert Arrives(history[..|front|], history[|front|]);
      forall n | 0 <= n < |front| ensures Arrives(front[..n], front[n]) {
        assert history[..n] == front[..n] && Arrives(history[..n], history[n]);
      }
      OnlineAnswers(front, rule);
      OnlineBegins(front, rule);
      RecomputingTurns(front, m, rule, Online(front, rule).0, Online(history, rule).0);
      assert history == front + [m];
    }
  }

  predicate SameMessages(a: seq<Message>, b: seq<Message>) {
    (forall k | 0 <= k < |a| :: a[k] in b) && forall k | 0 <= k < |b| :: b[k] in a
  }

  /** The order of a list does not bear on the answer. */
  lemma {:induction false} SameAnswer(a: seq<Message>, b: seq<Message>, rule: Rule, t: int)
    requires SameMessages(a, b) && WaitsSince(a, rule, t)
    ensures WaitsSince(b, rule, t)
  {
    var k :| 0 <= k < |a| && a[k].IsCustomer() && a[k].at == t;
    var m :| 0 <= m < |b| && b[m] == a[k];
    assert b[m].IsCustomer() && b[m].at == t;
    forall at ensures Unanswered(a, rule, at) <==> Unanswered(b, rule, at) {
      SameReplies(a, b, rule, at);
    }
    forall j | 0 <= j < |b| && b[j].IsCustomer() && Unanswered(b, rule, b[j].at) ensures t <= b[j].at {
      var i :| 0 <= i < |a| && a[i] == b[j];
      assert a[i].IsCustomer();
    }
  }

  lemma SameReplies(a: seq<Message>, b: seq<Message>, rule: Rule, at: int)
    requires SameMessages(a, b)
    ensures Unanswered(a, rule, at) <==> Unanswered(b, rule, at)
  {
    RepliesAmong(a, b, rule, at);
    RepliesAmong(b, a, rule, at);
  }

  lemma RepliesAmong(a: seq<Message>, b: seq<Message>, rule: Rule, at: int)
    requires forall k | 0 <= k < |a| :: a[k] in b
    ensures HasReply(a, rule) ==> HasReply(b, rule)
    ensures AfterEveryReply(b, rule, at) ==> AfterEveryReply(a, rule, at)
  {
    forall k | 0 <= k < |a| && rule.Ends(a[k]) ensures HasReply(b, rule) && exists j | 0 <= j < |b| :: b[j] == a[k] {
      var j :| 0 <= j < |b| && b[j] == a[k];
      assert rule.Ends(b[j]);
    }
  }

  /** Whatever the order in which a list holds the messages, its scans find what keeping the answer message by message
      through the time-ordered history finds. */
  lemma {:induction false} ScansAreOnline(messages: seq<Message>, history: seq<Message>, rule: Rule, since: Option<int>)
    requires InTimeOrder(history) && SameMessages(messages, history) && Answers(messages, rule, since)
    ensures since == Online(history, rule).0
  {
    var online := Online(history, rule).0;
    OnlineAnswers(history, rule);
    if since.Some? {
      SameAnswer(messages, history, rule, since.value);
    } else if online.Some? {
      SameAnswer(history, messages, rule, online.value);
    }
  }

  /** By time, customers first. */
  predicate Comes(a: Message, b: Message) { a.at < b.at || (a.at == b.at && (a.IsCustomer() || !b.IsCustomer())) }

  function Insert(history: seq<Message>, m: Message): seq<Message> {
    if history == [] || Comes(history[|history| - 1], m) then history + [m]
    else Insert(history[..|history| - 1], m) + [history[|history| - 1]]
  }

  /** The history behind a list of messages. */
  function Arranged(messages: seq<Message>): seq<Message> {
    if messages == [] then [] else Insert(Arranged(messages[..|messages| - 1]), messages[|messages| - 1])
  }

  predicate Ordered(history: seq<Message>) { forall i, j | 0 <= i < j < |history| :: Comes(history[i], history[j]) }

  lemma {:induction false} InsertKeeps(history: seq<Message>, m: Message)
    requires Ordered(history)
    ensures Ordered(Insert(history, m))
    ensures forall x :: x in Insert(history, m) <==> x == m || x in history
  {
    if history == [] {
    } else {
      var front, last := history[..|history| - 1], history[|history| - 1];
      assert history == front + [last];
      InsertKeeps(front, m);
      if !Comes(last, m) {
        var inserted := Insert(front, m);
        forall k | 0 <= k < |inserted| ensures Comes(inserted[k], last) {
          assert inserted[k] in inserted;
          if inserted[k] != m {
            var i :| 0 <= i < |front| && front[i] == inserted[k];
            assert Comes(history[i], history[|front|]);
          }
        }
      }
    }
  }

  lemma {:induction false} ArrangedMembers(messages: seq<Message>)
    ensures Ordered(Arranged(messages))
    ensures forall x :: x in Arranged(messages) <==> x in messages
  {
    if messages == [] {
      assert Arranged(messages) == [];
    } else {
      var front, m := messages[..|messages| - 1], messages[|messages| - 1];
      ArrangedMembers(front);
      InsertKeeps(Arranged(front), m);
      assert messages == front + [m];
    }
  }

  /** Every list of messages is one arrangement of a time-ordered history. */
  lemma {:induction false} ArrangedIsHistory(messages: seq<Message>)
    ensures InTimeOrder(Arranged(messages)) && SameMessages(messages, Arranged(messages))
  {
    var history := Arranged(messages);
    ArrangedMembers(messages);
    OrderedIsInTime(history);
    forall k | 0 <= k < |messages| ensures messages[k] in history {
      assert messages[k] in messages;
    }
    forall k | 0 <= k < |history| ensures history[k] in messages {
      assert history[k] in history;
    }
  }

  lemma OrderedIsInTime(history: seq<Message>)
    requires Ordered(history)
    ensures InTimeOrder(history)
  {
    forall n | 0 <= n < |history| ensures Arrives(history[..n], history[n]) {
      forall k | 0 <= k < n ensures Comes(history[k], history[n]) {
      }
    }
  }
}
