/** Pickup fields on deals: read the field list page by page, plan, apply, and plan again. */
module FieldSetup {
  import opened OrderDomain

  datatype Field = Field(id: int, name: string, kind: string)

  datatype Definition = Definition(name: string, kind: string, title: string, mayCreate: bool)

  /** REQUIRED_FIELDS may be created, REUSED_FIELDS must be there already. */
  const DEFINITIONS: seq<Definition> :=
    [Definition("UF_CRM_MM_PICKUP_STORAGE_STARTED_AT", "datetime", "Самовывоз: поступил на точку", true),
     Definition("UF_CRM_MM_PICKUP_SLA_STARTED_AT", "datetime", "Самовывоз: начало SLA", true),
     Definition("UF_CRM_MM_PICKUP_HOLD_UNTIL", "date", "Самовывоз: удерживать до", true),
     Definition("UF_CRM_MM_PICKUP_DERIVED_STATUS", "string", "Самовывоз: внутренний статус", true),
     Definition("UF_CRM_MM_PICKUP_LAST_EVIDENCE", "string", "Самовывоз: последнее основание", true),
     Definition("UF_CRM_MM_PICKUP_READY_SMS_AT", "datetime", "SMS «Самовывоз готов к выдаче» отправлена", false)]

  datatype Entry =
    | AddField(name: string, kind: string, title: string)
    | DuplicateCode(name: string, ids: seq<int>)
    | ReusedMissing(name: string, kind: string)
    | WrongType(name: string, kind: string, actual: string)
  {
    predicate ManualReview() { !AddField? }
  }

  predicate DistinctNames(defs: seq<Definition>) {
    forall i, j | 0 <= i < j < |defs| :: defs[i].name != defs[j].name
  }

  predicate Clear(plan: seq<Entry>) { forall k | 0 <= k < |plan| :: !plan[k].ManualReview() }

  predicate DistinctEntries(plan: seq<Entry>) {
    forall i, j | 0 <= i < j < |plan| :: plan[i].name != plan[j].name
  }

  // ---------- planning ----------

  function Named(fields: seq<Field>, name: string): seq<Field> {
    if fields == [] then []
    else
      var f := fields[|fields| - 1];
      var rest := Named(fields[..|fields| - 1], name);
      if f.name == name then rest + [f] else rest
  }

  function Ids(fields: seq<Field>): seq<int> { seq(|fields|, k requires 0 <= k < |fields| => fields[k].id) }

  function EntryFor(matches: seq<Field>, def: Definition): Option<Entry> {
    if |matches| > 1 then Some(DuplicateCode(def.name, Ids(matches)))
    else if matches == [] then
      Some(if def.mayCreate then AddField(def.name, def.kind, def.title) else ReusedMissing(def.name, def.kind))
    else if matches[0].kind != def.kind then Some(WrongType(def.name, def.kind, matches[0].kind))
    else None
  }

  function Plan(fields: seq<Field>, defs: seq<Definition>): seq<Entry> {
    if defs == [] then []
    else
      var def := defs[|defs| - 1];
      var entry := EntryFor(Named(fields, def.name), def);
      WithEntry(Plan(fields, defs[..|defs| - 1]), entry)
  }

  function Get(m: map<string, seq<Field>>, name: string): seq<Field> { if name in m then m[name] else [] }

  /** The first loop of `build_plan`; unnamed fields are left out. */
  method GroupByName(fields: seq<Field>) returns (current: map<string, seq<Field>>)
    ensures forall name | name != "" :: Get(current, name) == Named(fields, name)
  {
    current := map[];
    for n := 0 to |fields|
      invariant forall name | name != "" :: Get(current, name) == Named(fields[..n], name)
    {
      assert fields[..n + 1][..n] == fields[..n];
      if fields[n].name != "" {
        current := current[fields[n].name := Get(current, fields[n].name) + [fields[n]]];
      }
    }
    assert fields[..|fields|] == fields;
  }

  lemma DefinitionsAreNamed()
    ensures DistinctNames(DEFINITIONS)
    ensures forall k | 0 <= k < |DEFINITIONS| :: DEFINITIONS[k].name != ""
  {
  }

  /** `build_plan` */
  method BuildPlan(fields: seq<Field>) returns (plan: seq<Entry>)
    ensures plan == Plan(fields, DEFINITIONS)
  {
    var current := GroupByName(fields);
    var defs := DEFINITIONS;
    DefinitionsAreNamed();
    plan := PlanFrom(current, fields, defs);
  }

  /** The second loop, over the definitions. */
  method PlanFrom(current: map<string, seq<Field>>, ghost fields: seq<Field>, defs: seq<Definition>)
    returns (plan: seq<Entry>)
    requires forall name | name != "" :: Get(current, name) == Named(fields, name)
    requires forall k | 0 <= k < |defs| :: defs[k].name != ""
    ensures plan == Plan(fields, defs)
  {
    plan := [];
    for n := 0 to |defs|
      invariant plan == Plan(fields, defs[..n])
    {
      var def := defs[n];
      assert defs[..n + 1][..n] == defs[..n];
      var matches := Get(current, def.name);
      if |matches| > 1 {
        plan := plan + [DuplicateCode(def.name, Ids(matches))];
        continue;
      }
      if matches == [] && def.mayCreate {
        plan := plan + [AddField(def.name, def.kind, def.title)];
        continue;
      }
      if matches == [] {
        plan := plan + [ReusedMissing(def.name, def.kind)];
        continue;
      }
      if matches[0].kind != def.kind {
        plan := plan + [WrongType(def.name, def.kind, matches[0].kind)];
      }
    }
    assert defs[..|defs|] == defs;
  }

  // ---------- applying ----------

  /** `added` are the fields that the first entries of a plan ask for. */
  predicate Answers(added: seq<Field>, plan: seq<Entry>) {
    |added| <= |plan| && forall k | 0 <= k < |added| ::
      plan[k].AddField? && added[k].name == plan[k].name && added[k].kind == plan[k].kind
  }

  class FieldServer {
    var fields: seq<Field>
    var nextId: int

    constructor (fields: seq<Field>)
      ensures this.fields == fields
    {
      this.fields, nextId := fields, 1;
    }

    /** `add_deal_user_field`; it may raise before or after the field is written. */
    method Add(name: string, kind: string) returns (ok: bool)
      modifies this
      ensures (exists id :: fields == old(fields) + [Field(id, name, kind)]) || (!ok && fields == old(fields))
    {
      ok := *;
      var lands: bool := *;
      if ok || lands {
        fields, nextId := fields + [Field(nextId, name, kind)], nextId + 1;
      }
    }

    /** `apply_plan`; `ok` is false when an addition raises half-way. */
    method Apply(plan: seq<Entry>) returns (ok: bool, written: bool, ghost added: seq<Field>)
      modifies this
      ensures fields == old(fields) + added && Answers(added, plan)
      ensures !Clear(plan) ==> ok && added == []
      ensures written <==> Clear(plan)
      ensures ok && Clear(plan) ==> |added| == |plan|
    {
      added := [];
      if exists k | 0 <= k < |plan| :: plan[k].ManualReview() {
        return true, false, [];
      }
      written := true;
      for n := 0 to |plan|
        invariant fields == old(fields) + added && Answers(added, plan) && |added| == n
      {
        ghost var before := fields;
        ok := Add(plan[n].name, plan[n].kind);
        if fields != before {
          ghost var id :| fields == before + [Field(id, plan[n].name, plan[n].kind)];
          added := added + [Field(id, plan[n].name, plan[n].kind)];
        }
        if !ok {
          return;
        }
      }
      ok := true;
    }

    /** One run of the script: read, plan, apply. */
    method Run() returns (ok: bool, plan: seq<Entry>)
      modifies this
      ensures plan == Plan(old(fields), DEFINITIONS)
      ensures !Clear(plan) ==> fields == old(fields)
      ensures ok && Clear(plan) ==> Plan(fields, DEFINITIONS) == []
      ensures Clear(plan) ==> |old(fields)| <= |fields| <= |old(fields)| + |plan| &&
                              Plan(fields, DEFINITIONS) == plan[|fields| - |old(fields)|..]
    {
      plan := BuildPlan(fields);
      ghost var before := fields;
      ghost var added;
      var written;
      ok, written, added := Apply(plan);
      if Clear(plan) {
        DefinitionsAreNamed();
        PlanAfter(before, DEFINITIONS, added);
      }
    }
  }

  // ---------- convergence ----------

  lemma {:induction false} NamedConcat(a: seq<Field>, b: seq<Field>, name: string)
    ensures Named(a + b, name) == Named(a, name) + Named(b, name)
  {
    if b == [] {
      assert a + b == a;
    } else {
      NamedConcat(a, b[..|b| - 1], name);
      assert (a + b)[..|a + b| - 1] == a + b[..|b| - 1];
    }
  }

  /** An added field is the only one of its name among the added ones. */
  lemma {:induction false} NamedAdded(added: seq<Field>, name: string, k: nat)
    requires k < |added| && added[k].name == name
    requires forall i | 0 <= i < |added| && i != k :: added[i].name != name
    ensures Named(added, name) == [added[k]]
  {
    var front := added[..|added| - 1];
    if k == |added| - 1 {
      NamedNone(front, name);
    } else {
      NamedAdded(front, name, k);
    }
  }

  lemma {:induction false} NamedNone(fields: seq<Field>, name: string)
    requires forall i | 0 <= i < |fields| :: fields[i].name != name
    ensures Named(fields, name) == []
  {
    if fields == [] {
    } else {
      NamedNone(fields[..|fields| - 1], name);
    }
  }

  lemma {:induction false} PlanNames(fields: seq<Field>, defs: seq<Definition>, n: nat)
    requires n < |Plan(fields, defs)|
    ensures exists k | 0 <= k < |defs| :: defs[k].name == Plan(fields, defs)[n].name
  {
    var front := defs[..|defs| - 1];
    if n < |Plan(fields, front)| {
      PlanNames(fields, front, n);
      var k :| 0 <= k < |front| && front[k].name == Plan(fields, front)[n].name;
      assert defs[k] == front[k];
    } else {
      assert defs[|defs| - 1].name == Plan(fields, defs)[n].name;
    }
  }

  /** Plan entries have the names of distinct definitions. */
  lemma {:induction false} PlanIsDistinct(fields: seq<Field>, defs: seq<Definition>)
    requires DistinctNames(defs)
    ensures DistinctEntries(Plan(fields, defs))
  {
    if defs == [] {
    } else {
      var front, last := defs[..|defs| - 1], defs[|defs| - 1];
      PlanIsDistinct(fields, front);
      forall i | 0 <= i < |Plan(fields, front)| ensures Plan(fields, front)[i].name != last.name {
        PlanNames(fields, front, i);
      }
    }
  }

  /** After any part of the additions, the rebuilt plan is what was left of the old one. */
  lemma {:induction false} PlanAfter(fields: seq<Field>, defs: seq<Definition>, added: seq<Field>)
    requires DistinctNames(defs) && Clear(Plan(fields, defs)) && Answers(added, Plan(fields, defs))
    ensures Plan(fields + added, defs) == Plan(fields, defs)[|added|..]
  {
    assert defs[..|defs|] == defs;
    PlanIsDistinct(fields, defs);
    PlanAfterSome(fields, defs, added, |defs|);
  }

  /** The plan of the first `m` definitions is a prefix of the whole plan. */
  lemma {:induction false} PlanPrefix(fields: seq<Field>, defs: seq<Definition>, m: nat)
    requires m <= |defs|
    ensures Plan(fields, defs[..m]) <= Plan(fields, defs)
    decreases |defs|
  {
    if m == |defs| {
      assert defs[..m] == defs;
    } else {
      PlanPrefix(fields, defs[..|defs| - 1], m);
      assert defs[..|defs| - 1][..m] == defs[..m];
    }
  }

  lemma {:induction false} PlanAfterSome(fields: seq<Field>, defs: seq<Definition>, added: seq<Field>, m: nat)
    requires m <= |defs| && Answers(added, Plan(fields, defs))
    requires DistinctNames(defs) && Clear(Plan(fields, defs))
    requires DistinctEntries(Plan(fields, defs))
    ensures var part := Plan(fields, defs[..m]);
            Plan(fields + added, defs[..m]) == if |added| <= |part| then part[|added|..] else []
  {
    if m == 0 {
    } else {
      PlanAfterSome(fields, defs, added, m - 1);
      PlanPrefix(fields, defs, m);
      assert defs[..m][..m - 1] == defs[..m - 1] && defs[..m][m - 1] == defs[m - 1];
      EntryAfter(fields, defs, added, m - 1);
      OneMoreEntry(Plan(fields, defs[..m - 1]), Plan(fields + added, defs[..m - 1]),
                   EntryFor(Named(fields, defs[m - 1].name), defs[m - 1]), |added|);
    }
  }

  function WithEntry(plan: seq<Entry>, entry: Option<Entry>): seq<Entry> {
    if entry.Some? then plan + [entry.value] else plan
  }

  lemma {:induction false} OneMoreEntry(part: seq<Entry>, after: seq<Entry>, before: Option<Entry>, n: nat)
    requires after == if n <= |part| then part[n..] else []
    ensures var now := if before.Some? && |part| < n then None else before;
            var part1 := WithEntry(part, before);
            WithEntry(after, now) == if n <= |part1| then part1[n..] else []
  {
  }

  lemma {:induction false} EntryAfter(fields: seq<Field>, defs: seq<Definition>, added: seq<Field>, m: nat)
    requires m < |defs| && Answers(added, Plan(fields, defs)) && DistinctNames(defs)
    requires DistinctEntries(Plan(fields, defs))
    requires Clear(Plan(fields, defs)) && Plan(fields, defs[..m + 1]) <= Plan(fields, defs)
    requires defs[..m + 1][..m] == defs[..m]
    ensures var before := EntryFor(Named(fields, defs[m].name), defs[m]);
            EntryFor(Named(fields + added, defs[m].name), defs[m]) ==
            if before.Some? && |Plan(fields, defs[..m])| < |added| then None else before
  {
    var plan, at, def := Plan(fields, defs), |Plan(fields, defs[..m])|, defs[m];
    var before := EntryFor(Named(fields, def.name), def);
    NamedConcat(fields, added, def.name);
    if before.Some? {
      assert plan[at] == before.value;
      if at < |added| {
        NamedAdded(added, def.name, at);
      } else {
        NamedNone(added, def.name);
      }
    } else {
      forall i | 0 <= i < |added| ensures added[i].name != def.name {
        NotPlanned(fields, defs, m, i);
      }
      NamedNone(added, def.name);
    }
  }

  /** A definition that needs nothing lends its name to no entry. */
  lemma {:induction false} NotPlanned(fields: seq<Field>, defs: seq<Definition>, m: nat, i: nat)
    requires m < |defs| && DistinctNames(defs) && i < |Plan(fields, defs)|
    requires EntryFor(Named(fields, defs[m].name), defs[m]).None?
    ensures Plan(fields, defs)[i].name != defs[m].name
  {
    var front, last := defs[..|defs| - 1], defs[|defs| - 1];
    if i < |Plan(fields, front)| {
      if m < |defs| - 1 {
        NotPlanned(fields, front, m, i);
      } else {
        PlanNames(fields, front, i);
      }
    }
  }

  // ---------- reading all pages ----------

  /** A malformed `result` is not a list; an empty `next` stands for a missing one. */
  datatype Page = Page(isList: bool, rows: seq<Field>, next: string)
  {
    predicate IsLast() { next == "" || rows == [] }
  }

  /** The first request asks for the rows from 0 on, and so does one that follows a `next` of "0". */
  const START: string := "0"

  /** The answer may depend on the number of the request. */
  type Listing = (nat, string) -> Page

  /** The requests sent: each one but the first follows the `next` of the one before. */
  predicate Requests(chain: seq<string>, listing: Listing) {
    |chain| > 0 && chain[0] == START && forall n: nat | n < |chain| - 1 :: GoesOn(chain, listing, n)
  }

  predicate GoesOn(chain: seq<string>, listing: Listing, n: nat)
    requires n < |chain| - 1
  {
    var page := listing(n, chain[n]);
    page.isList && !page.IsLast() && chain[n + 1] == page.next
  }

  predicate NoRepeats(chain: seq<string>) { forall i, j | 0 <= i < j < |chain| :: chain[i] != chain[j] }

  function RowsOf(chain: seq<string>, listing: Listing, n: nat): seq<Field>
    requires n <= |chain|
  {
    if n == 0 then [] else RowsOf(chain, listing, n - 1) + listing(n - 1, chain[n - 1]).rows
  }

  /** The answer to the last request. */
  function Final(chain: seq<string>, listing: Listing): Page
    requires |chain| > 0
  {
    listing(|chain| - 1, chain[|chain| - 1])
  }

  /** `fetch_all_deal_user_fields`.  It ends for every listing whose `next` values come from a finite set; `chain`
      lists the starts it asked for.  No `next` is followed twice; the first page, which was not reached by one, is
      asked for again if and only if some followed `next` is "0". */
  method FetchAll(listing: Listing, ghost nexts: set<string>) returns (ok: bool, rows: seq<Field>, chain: seq<string>)
    requires forall n, start :: listing(n, start).next in nexts
    ensures Requests(chain, listing) && NoRepeats(chain[1..])
    ensures NoRepeats(chain) <==> START !in chain[1..]
    ensures ok ==> rows == RowsOf(chain, listing, |chain|)
    ensures ok <==> Final(chain, listing).isList && Final(chain, listing).IsLast()
    ensures !ok && Final(chain, listing).isList ==> Final(chain, listing).next in chain[1..]
    ensures ok && Steady(listing) ==> NoRepeats(chain)
  {
    rows := [];
    var start, seen: set<string> := START, {};
    chain := [START];
    var n := 0;
    while true
      invariant |chain| == n + 1 && chain[n] == start && Requests(chain, listing) && NoRepeats(chain[1..])
      invariant rows == RowsOf(chain, listing, n)
      invariant seen <= nexts && Seen(seen, chain)
      decreases nexts - seen
    {
      var page := listing(n, start);
      assert page == Final(chain, listing);
      RepeatsIff(chain);
      if !page.isList {
        return false, rows, chain;
      }
      rows := rows + page.rows;
      if page.next == "" || page.rows == [] {
        if Steady(listing) { SteadyReadsOnce(listing, chain); }
        return true, rows, chain;
      }
      if page.next in seen {
        return false, rows, chain;
      }
      Follow(chain, listing, page, seen);
      seen, start := seen + {page.next}, page.next;
      chain := chain + [start];
      n := n + 1;
    }
  }

  const AGAIN: Listing := (n, start) => Page(true, [Field(1, "UF_CRM_MM", "date")], START)

  /** A server whose first page leads back to 0 is asked for it again before the read is given up. */
  method FirstPageTwice() returns (ok: bool, rows: seq<Field>, chain: seq<string>)
    ensures !ok && chain == [START, START]
  {
    ok, rows, chain := FetchAll(AGAIN, {START});
    assert !Final(chain, AGAIN).IsLast();
    forall n | 1 <= n < |chain| ensures chain[n] == START {
      assert GoesOn(chain, AGAIN, n - 1);
    }
    if |chain[1..]| > 1 { SameStartRepeats(chain[1..]); }
  }

  lemma SameStartRepeats(starts: seq<string>)
    requires |starts| > 1 && forall n | 0 <= n < |starts| :: starts[n] == START
    ensures !NoRepeats(starts)
  {
    assert starts[0] == starts[1];
  }

  lemma RepeatsIff(chain: seq<string>)
    requires |chain| > 0 && chain[0] == START && NoRepeats(chain[1..])
    ensures NoRepeats(chain) <==> START !in chain[1..]
  {
    if START in chain[1..] {
      var k :| 0 <= k < |chain[1..]| && chain[1..][k] == START;
      assert chain[0] == chain[k + 1];
    } else {
      forall i, j | 0 <= i < j < |chain| ensures chain[i] != chain[j] {
        assert chain[j] == chain[1..][j - 1];
        if i > 0 {
          assert chain[i] == chain[1..][i - 1];
        }
      }
    }
  }

  ghost predicate Seen(seen: set<string>, chain: seq<string>)
    requires |chain| > 0
  {
    forall key :: key in seen <==> key in chain[1..]
  }

  lemma {:induction false} Follow(chain: seq<string>, listing: Listing, page: Page, seen: set<string>)
    requires Requests(chain, listing) && NoRepeats(chain[1..]) && Seen(seen, chain)
    requires page == Final(chain, listing) && page.isList && !page.IsLast() && page.next !in seen
    ensures var longer := chain + [page.next];
            Requests(longer, listing) && NoRepeats(longer[1..]) && Seen(seen + {page.next}, longer) &&
            RowsOf(longer, listing, |chain|) == RowsOf(chain, listing, |chain| - 1) + page.rows
  {
    var longer := chain + [page.next];
    forall n: nat | n < |longer| - 1 ensures GoesOn(longer, listing, n) {
      if n < |chain| - 1 {
        assert GoesOn(chain, listing, n);
      }
    }
    assert page.next !in chain[1..];
    assert longer[1..] == chain[1..] + [page.next];
    RowsOfPrefix(chain, page.next, listing, |chain|);
  }

  /** A steady listing leads back to its first page only to be given up. */
  lemma SteadyReadsOnce(listing: Listing, chain: seq<string>)
    requires Steady(listing) && Requests(chain, listing) && NoRepeats(chain[1..])
    requires Final(chain, listing).isList && Final(chain, listing).IsLast()
    ensures NoRepeats(chain)
  {
    RepeatsIff(chain);
    forall k | 1 <= k < |chain| ensures chain[k] != START {
      assert GoesOn(chain, listing, 0);
      assert listing(0, START) == listing(k, START);
      if k < |chain| - 1 {
        assert GoesOn(chain, listing, k);
        assert chain[1..][0] != chain[1..][k];
      }
    }
  }

  lemma {:induction false} RowsOfPrefix(chain: seq<string>, start: string, listing: Listing, n: nat)
    requires n <= |chain|
    ensures RowsOf(chain + [start], listing, n) == RowsOf(chain, listing, n)
  {
    if n == 0 {
    } else {
      RowsOfPrefix(chain, start, listing, n - 1);
    }
  }

  /** The listing does not change while it is read. */
  ghost predicate Steady(listing: Listing) {
    forall m, n, start :: listing(m, start) == listing(n, start)
  }

  /** A complete read: pages from the first one to one without successor. */
  predicate Completes(chain: seq<string>, listing: Listing) {
    Requests(chain, listing) && Final(chain, listing).isList && Final(chain, listing).IsLast()
  }

  /** On a steady listing the read gives up only when no complete read exists. */
  lemma GivesUpRightly(listing: Listing, chain: seq<string>, page: Page, other: seq<string>)
    requires Steady(listing) && Requests(chain, listing) && page == Final(chain, listing)
    requires !page.isList || (!page.IsLast() && page.next in chain)
    ensures !Completes(other, listing)
  {
    forall m: nat | m < |chain| - 1 ensures !listing(m, chain[m]).IsLast() {
      assert GoesOn(chain, listing, m);
    }
    if Requests(other, listing) {
      var last := |other| - 1;
      StaysInside(listing, chain, page, other, last);
      var m :| 0 <= m < |chain| && chain[m] == other[last];
      assert listing(m, chain[m]) == listing(last, other[last]);
    }
  }

  lemma {:induction false} StaysInside(listing: Listing, chain: seq<string>, page: Page, other: seq<string>, n: nat)
    requires Steady(listing) && Requests(chain, listing) && page == Final(chain, listing)
    requires !page.isList || (!page.IsLast() && page.next in chain)
    requires Requests(other, listing) && n < |other|
    ensures other[n] in chain
  {
    if n == 0 {
      assert chain[0] == other[0];
    } else {
      StaysInside(listing, chain, page, other, n - 1);
      var m :| 0 <= m < |chain| && chain[m] == other[n - 1];
      assert listing(m, chain[m]) == listing(n - 1, other[n - 1]);
      assert GoesOn(other, listing, n - 1);
      if m < |chain| - 1 {
        assert GoesOn(chain, listing, m);
        assert chain[m + 1] == other[n];
      }
    }
  }
}
