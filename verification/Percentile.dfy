/** Supplier preparation profiles: the nearest-rank 75th percentile of lead times, per supplier and pooled per
    contour. */
module Percentile {
  import opened OrderDomain

  // ---------- sorting and counting ----------

  function Insert(sorted: seq<int>, x: int): seq<int> {
    if sorted == [] || sorted[|sorted| - 1] <= x then sorted + [x]
    else Insert(sorted[..|sorted| - 1], x) + [sorted[|sorted| - 1]]
  }

  function Sort(values: seq<int>): seq<int> {
    if values == [] then [] else Insert(Sort(values[..|values| - 1]), values[|values| - 1])
  }

  predicate Ascends(s: seq<int>) { forall i, j | 0 <= i < j < |s| :: s[i] <= s[j] }

  function AtMost(values: seq<int>, r: int): nat {
    if values == [] then 0 else AtMost(values[..|values| - 1], r) + (if values[|values| - 1] <= r then 1 else 0)
  }

  function Below(values: seq<int>, r: int): nat { AtMost(values, r - 1) }

  lemma {:induction false} AtMostAppend(values: seq<int>, x: int, r: int)
    ensures AtMost(values + [x], r) == AtMost(values, r) + (if x <= r then 1 else 0)
  {
    assert (values + [x])[..|values|] == values;
  }

  lemma {:induction false} InsertLaws(sorted: seq<int>, x: int)
    requires Ascends(sorted)
    ensures Ascends(Insert(sorted, x)) && |Insert(sorted, x)| == |sorted| + 1
    ensures forall y :: y in Insert(sorted, x) <==> y == x || y in sorted
  {
    if sorted != [] && sorted[|sorted| - 1] > x {
      var front, last := sorted[..|sorted| - 1], sorted[|sorted| - 1];
      InsertLaws(front, x);
      assert sorted == front + [last];
      forall k | 0 <= k < |Insert(front, x)| ensures Insert(front, x)[k] <= last {
        assert Insert(front, x)[k] in Insert(front, x);
      }
    }
  }

  lemma {:induction false} InsertKeepsRank(sorted: seq<int>, x: int, r: int)
    ensures AtMost(Insert(sorted, x), r) == AtMost(sorted, r) + (if x <= r then 1 else 0)
  {
    AtMostAppend(sorted, x, r);
    if sorted != [] && sorted[|sorted| - 1] > x {
      var front, last := sorted[..|sorted| - 1], sorted[|sorted| - 1];
      InsertKeepsRank(front, x, r);
      AtMostAppend(Insert(front, x), last, r);
    }
  }

  lemma {:induction false} SortLaws(values: seq<int>)
    ensures Ascends(Sort(values)) && |Sort(values)| == |values|
    ensures forall y :: y in Sort(values) <==> y in values
  {
    if values == [] {
    } else {
      var front, last := values[..|values| - 1], values[|values| - 1];
      SortLaws(front);
      InsertLaws(Sort(front), last);
      assert values == front + [last];
    }
  }

  lemma {:induction false} SortKeepsRank(values: seq<int>, r: int)
    ensures AtMost(Sort(values), r) == AtMost(values, r)
  {
    if values == [] {
    } else {
      SortKeepsRank(values[..|values| - 1], r);
      InsertKeepsRank(Sort(values[..|values| - 1]), values[|values| - 1], r);
    }
  }

  lemma {:induction false} AtMostBounds(values: seq<int>, r: int)
    ensures AtMost(values, r) <= |values|
    ensures (forall k | 0 <= k < |values| :: values[k] <= r) ==> AtMost(values, r) == |values|
  {
    if values == [] {
    } else {
      AtMostBounds(values[..|values| - 1], r);
    }
  }

  lemma {:induction false} RankInSorted(sorted: seq<int>, i: nat)
    requires Ascends(sorted) && i < |sorted|
    ensures AtMost(sorted, sorted[i]) >= i + 1 && Below(sorted, sorted[i]) <= i
  {
    var front := sorted[..|sorted| - 1];
    if i == |sorted| - 1 {
      AtMostBounds(sorted, sorted[i]);
      AtMostBounds(front, sorted[i] - 1);
    } else {
      RankInSorted(front, i);
    }
  }

  lemma {:induction false} AtMostGrows(values: seq<int>, r: int, s: int)
    requires r <= s
    ensures AtMost(values, r) <= AtMost(values, s)
  {
    if values == [] {
    } else {
      AtMostGrows(values[..|values| - 1], r, s);
    }
  }

  // ---------- the percentile ----------

  /** An observed value with at least three quarters at most it, and less than three quarters below it. */
  predicate IsP75(values: seq<int>, r: int) {
    r in values && 4 * AtMost(values, r) >= 3 * |values| && 4 * Below(values, r) < 3 * |values|
  }

  /** max(0, ceil(0.75 n) - 1) */
  function Rank(n: nat): (rank: nat)
    ensures n > 0 ==> rank < n && 4 * rank < 3 * n <= 4 * (rank + 1)
  {
    if n == 0 then 0 else (3 * n + 3) / 4 - 1
  }

  lemma {:induction false} RankMeets(values: seq<int>, ordered: seq<int>, rank: nat)
    requires |ordered| == |values| && Ascends(ordered) && rank < |ordered| && ordered[rank] in values
    requires 4 * rank < 3 * |ordered| <= 4 * (rank + 1)
    requires forall r :: AtMost(ordered, r) == AtMost(values, r)
    ensures IsP75(values, ordered[rank])
  {
    RankInSorted(ordered, rank);
  }

  lemma {:induction false} RankLaws(values: seq<int>)
    ensures |Sort(values)| == |values|
    ensures values != [] ==> IsP75(values, Sort(values)[Rank(|values|)])
  {
    SortLaws(values);
    if values != [] {
      forall r ensures AtMost(Sort(values), r) == AtMost(values, r) {
        SortKeepsRank(values, r);
      }
      assert Sort(values)[Rank(|values|)] in Sort(values);
      RankMeets(values, Sort(values), Rank(|values|));
    }
  }

  /** `_p75`; no observations are an error. */
  function P75(values: seq<int>): (r: Option<int>)
    ensures r.None? <==> values == []
    ensures r.Some? ==> IsP75(values, r.value)
  {
    RankLaws(values);
    var ordered := Sort(values);
    if ordered == [] then None else Some(ordered[Rank(|ordered|)])
  }

  /** The laws leave no choice. */
  lemma P75IsUnique(values: seq<int>, r: int, s: int)
    requires IsP75(values, r) && IsP75(values, s)
    ensures r == s
  {
    if r < s {
      AtMostGrows(values, r, s - 1);
    } else if s < r {
      AtMostGrows(values, s, r - 1);
    }
  }

  // ---------- observations ----------

  /** Strings are already cleaned; a lead time that is no number is `None`. */
  datatype Observation = Observation(supplier: string, contour: string, leadDays: Option<int>)

  const ALLOWED_CONTOURS: set<string> := {"cargo", "ved_import"}

  predicate Counts(o: Observation) { o.leadDays.Some? && o.contour in ALLOWED_CONTOURS && o.leadDays.value > 0 }

  datatype Level = SupplierContour(supplier: string, contour: string) | Contour(contour: string)

  predicate Belongs(o: Observation, level: Level) {
    Counts(o) && o.contour == level.contour &&
    (level.SupplierContour? ==> level.supplier != "" && o.supplier == level.supplier)
  }

  /** The lead times of one level, in the order they were observed. */
  function Values(observations: seq<Observation>, level: Level): seq<int> {
    if observations == [] then []
    else
      var o := observations[|observations| - 1];
      var rest := Values(observations[..|observations| - 1], level);
      if Belongs(o, level) then rest + [o.leadDays.value] else rest
  }

  datatype Profile = Profile(sampleSize: nat, p75: int)

  function Get<K(==)>(m: map<K, seq<int>>, k: K): seq<int> { if k in m then m[k] else [] }

  /** The dictionary holds exactly the non-empty samples of its levels. */
  ghost predicate HoldsSuppliers(m: map<(string, string), seq<int>>, observations: seq<Observation>) {
    (forall s, c | s != "" :: Get(m, (s, c)) == Values(observations, SupplierContour(s, c))) &&
    forall k | k in m :: m[k] != [] && k.0 != ""
  }

  ghost predicate HoldsContours(m: map<string, seq<int>>, observations: seq<Observation>) {
    (forall c :: Get(m, c) == Values(observations, Contour(c))) && forall c | c in m :: m[c] != []
  }

  lemma {:induction false} ValuesNext(observations: seq<Observation>, n: nat, level: Level)
    requires n < |observations|
    ensures Values(observations[..n + 1], level) ==
            if Belongs(observations[n], level) then Values(observations[..n], level) + [observations[n].leadDays.value]
            else Values(observations[..n], level)
  {
    assert observations[..n + 1][..n] == observations[..n];
  }

  lemma SuppliersNext(m: map<(string, string), seq<int>>, observations: seq<Observation>, n: nat)
    requires n < |observations| && HoldsSuppliers(m, observations[..n])
    ensures var o := observations[n];
            var key := (o.supplier, o.contour);
            var m1 := if Counts(o) && o.supplier != "" then m[key := Get(m, key) + [o.leadDays.value]] else m;
            HoldsSuppliers(m1, observations[..n + 1])
  {
    forall s: string, c: string ensures Values(observations[..n + 1], SupplierContour(s, c)) ==
            if Belongs(observations[n], SupplierContour(s, c))
            then Values(observations[..n], SupplierContour(s, c)) + [observations[n].leadDays.value]
            else Values(observations[..n], SupplierContour(s, c))
    {
      ValuesNext(observations, n, SupplierContour(s, c));
    }
  }

  lemma ContoursNext(m: map<string, seq<int>>, observations: seq<Observation>, n: nat)
    requires n < |observations| && HoldsContours(m, observations[..n])
    ensures var o := observations[n];
            var m1 := if Counts(o) then m[o.contour := Get(m, o.contour) + [o.leadDays.value]] else m;
            HoldsContours(m1, observations[..n + 1])
  {
    forall c: string ensures Values(observations[..n + 1], Contour(c)) ==
            if Belongs(observations[n], Contour(c))
            then Values(observations[..n], Contour(c)) + [observations[n].leadDays.value]
            else Values(observations[..n], Contour(c))
    {
      ValuesNext(observations, n, Contour(c));
    }
  }

  function ProfileOf(values: seq<int>): (p: Profile)
    requires values != []
    ensures p.sampleSize == |values| && IsP75(values, p.p75)
  {
    Profile(|values|, P75(values).value)
  }

  /** A level has a profile exactly when something was observed for it, and it describes that sample. */
  ghost predicate Describes(profiles: map<Level, Profile>, observations: seq<Observation>) {
    forall level ::
      (level in profiles <==> Values(observations, level) != []) &&
      (level in profiles ==>
       profiles[level].sampleSize == |Values(observations, level)| &&
       IsP75(Values(observations, level), profiles[level].p75))
  }

  lemma {:induction false} BlankSupplierHasNoSample(observations: seq<Observation>, contour: string)
    ensures Values(observations, SupplierContour("", contour)) == []
  {
    if observations == [] {
    } else {
      BlankSupplierHasNoSample(observations[..|observations| - 1], contour);
    }
  }

  /** The two comprehensions at the end. */
  method Summarise(suppliers: map<(string, string), seq<int>>, contours: map<string, seq<int>>,
                   ghost observations: seq<Observation>)
    returns (profiles: map<Level, Profile>)
    requires HoldsSuppliers(suppliers, observations) && HoldsContours(contours, observations)
    ensures Describes(profiles, observations)
  {
    var bySupplier := map k | k in suppliers :: SupplierContour(k.0, k.1) := ProfileOf(suppliers[k]);
    var byContour := map c | c in contours :: Contour(c) := ProfileOf(contours[c]);
    profiles := bySupplier + byContour;
    forall level: Level
      ensures level in profiles <==> Values(observations, level) != []
      ensures level in profiles ==> profiles[level] == ProfileOf(Values(observations, level))
    {
      match level
      case SupplierContour(s, c) =>
        BlankSupplierHasNoSample(observations, c);
        assert level in profiles <==> (s, c) in suppliers;
        assert s != "" ==> Get(suppliers, (s, c)) == Values(observations, level);
      case Contour(c) =>
        assert level in profiles <==> c in contours;
        assert Get(contours, c) == Values(observations, level);
    }
  }

  /** `build_supplier_prepare_profiles`, its list keyed by level. */
  method BuildProfiles(observations: seq<Observation>) returns (profiles: map<Level, Profile>)
    ensures Describes(profiles, observations)
  {
    var suppliers: map<(string, string), seq<int>> := map[];
    var contours: map<string, seq<int>> := map[];
    for n := 0 to |observations|
      invariant HoldsSuppliers(suppliers, observations[..n]) && HoldsContours(contours, observations[..n])
    {
      var o := observations[n];
      SuppliersNext(suppliers, observations, n);
      ContoursNext(contours, observations, n);
      if Counts(o) {
        contours := contours[o.contour := Get(contours, o.contour) + [o.leadDays.value]];
        if o.supplier != "" {
          var key := (o.supplier, o.contour);
          suppliers := suppliers[key := Get(suppliers, key) + [o.leadDays.value]];
        }
      }
    }
    assert observations[..|observations|] == observations;
    profiles := Summarise(suppliers, contours, observations);
  }

  // ---------- conservation ----------

  function CountValid(observations: seq<Observation>): nat {
    if observations == [] then 0
    else CountValid(observations[..|observations| - 1]) + (if Counts(observations[|observations| - 1]) then 1 else 0)
  }

  /** Every valid observation is in exactly one contour sample. */
  lemma {:induction false} ContourSamplesAddUp(observations: seq<Observation>)
    ensures |Values(observations, Contour("cargo"))| + |Values(observations, Contour("ved_import"))| ==
            CountValid(observations)
  {
    if observations == [] {
    } else {
      ContourSamplesAddUp(observations[..|observations| - 1]);
    }
  }

  // ---------- pooled against single suppliers ----------

  predicate AllNamed(observations: seq<Observation>, contour: string) {
    forall k | 0 <= k < |observations| && Belongs(observations[k], Contour(contour)) :: observations[k].supplier != ""
  }

  /** The observations without one supplier's. */
  function Without(observations: seq<Observation>, supplier: string): seq<Observation> {
    if observations == [] then []
    else
      var o := observations[|observations| - 1];
      var rest := Without(observations[..|observations| - 1], supplier);
      if o.supplier == supplier then rest else rest + [o]
  }

  lemma {:induction false} WithoutLaws(observations: seq<Observation>, supplier: string)
    ensures |Without(observations, supplier)| <= |observations|
    ensures forall o :: o in Without(observations, supplier) <==> o in observations && o.supplier != supplier
  {
    if observations == [] {
    } else {
      WithoutLaws(observations[..|observations| - 1], supplier);
      assert observations == observations[..|observations| - 1] + [observations[|observations| - 1]];
    }
  }

  lemma {:induction false} ValuesConcat(a: seq<Observation>, o: Observation, level: Level, r: int)
    ensures Values(a + [o], level) == if Belongs(o, level) then Values(a, level) + [o.leadDays.value] else Values(a, level)
    ensures AtMost(Values(a + [o], level), r) ==
            AtMost(Values(a, level), r) + (if Belongs(o, level) && o.leadDays.value <= r then 1 else 0)
  {
    assert (a + [o])[..|a|] == a;
    if Belongs(o, level) {
      AtMostAppend(Values(a, level), o.leadDays.value, r);
    }
  }

  /** Taking one supplier out splits the pooled sample into that supplier's sample and the rest. */
  lemma {:induction false} PooledSplits(observations: seq<Observation>, contour: string, supplier: string, r: int)
    requires supplier != ""
    ensures var own := Values(observations, SupplierContour(supplier, contour));
            var rest := Values(Without(observations, supplier), Contour(contour));
            |Values(observations, Contour(contour))| == |own| + |rest| &&
            AtMost(Values(observations, Contour(contour)), r) == AtMost(own, r) + AtMost(rest, r)
  {
    if observations == [] {
    } else {
      var front, o := observations[..|observations| - 1], observations[|observations| - 1];
      PooledSplits(front, contour, supplier, r);
      assert observations == front + [o];
      ValuesConcat(front, o, Contour(contour), r);
      ValuesConcat(front, o, SupplierContour(supplier, contour), r);
      if o.supplier != supplier {
        ValuesConcat(Without(front, supplier), o, Contour(contour), r);
      }
    }
  }

  lemma {:induction false} OthersKeepTheirs(observations: seq<Observation>, contour: string, supplier: string,
                                            other: string)
    requires other != supplier
    ensures Values(Without(observations, supplier), SupplierContour(other, contour)) ==
            Values(observations, SupplierContour(other, contour))
  {
    if observations == [] {
    } else {
      var front, o := observations[..|observations| - 1], observations[|observations| - 1];
      OthersKeepTheirs(front, contour, supplier, other);
      if o.supplier != supplier {
        ValuesConcat(Without(front, supplier), o, SupplierContour(other, contour), 0);
      }
    }
  }

  /** The share of a sample at or below `r`: less than three quarters, or at least three quarters. */
  predicate Light(values: seq<int>, r: int) { 4 * AtMost(values, r) < 3 * |values| }

  /** When every supplier's sample is light at `r`, so is the pooled one; when none is, neither is the pooled one. */
  lemma {:induction false} PooledFollows(observations: seq<Observation>, contour: string, r: int, light: bool)
    requires AllNamed(observations, contour)
    requires forall s | Values(observations, SupplierContour(s, contour)) != [] ::
               Light(Values(observations, SupplierContour(s, contour)), r) == light
    ensures var pooled := Values(observations, Contour(contour));
            pooled != [] ==> Light(pooled, r) == light
    decreases |Values(observations, Contour(contour))|
  {
    var pooled := Values(observations, Contour(contour));
    if pooled == [] {
    } else {
      var s := SomeSupplier(observations, contour);
      var rest := Without(observations, s);
      PooledSplits(observations, contour, s, r);
      WithoutLaws(observations, s);
      assert AllNamed(rest, contour) by {
        forall k | 0 <= k < |rest| && Belongs(rest[k], Contour(contour)) ensures rest[k].supplier != "" {
          assert rest[k] in rest;
        }
      }
      forall t | Values(rest, SupplierContour(t, contour)) != []
        ensures Light(Values(rest, SupplierContour(t, contour)), r) == light
      {
        if t == s {
          OwnGone(observations, contour, s);
        } else {
          OthersKeepTheirs(observations, contour, s, t);
        }
      }
      PooledFollows(rest, contour, r, light);
      AtMostBounds(Values(rest, Contour(contour)), r);
    }
  }

  lemma {:induction false} OwnGone(observations: seq<Observation>, contour: string, supplier: string)
    ensures Values(Without(observations, supplier), SupplierContour(supplier, contour)) == []
  {
    if observations == [] {
    } else {
      var front, o := observations[..|observations| - 1], observations[|observations| - 1];
      OwnGone(front, contour, supplier);
      if o.supplier != supplier {
        ValuesConcat(Without(front, supplier), o, SupplierContour(supplier, contour), 0);
      }
    }
  }

  lemma {:induction false} SomeSupplier(observations: seq<Observation>, contour: string) returns (s: string)
    requires AllNamed(observations, contour) && Values(observations, Contour(contour)) != []
    ensures s != "" && Values(observations, SupplierContour(s, contour)) != []
  {
    var front, o := observations[..|observations| - 1], observations[|observations| - 1];
    if Belongs(o, Contour(contour)) {
      s := o.supplier;
    } else {
      s := SomeSupplier(front, contour);
    }
  }

  /** The pooled percentile lies between the least and the greatest percentile of the contour's suppliers. */
  lemma {:induction false} PooledLiesBetween(observations: seq<Observation>, contour: string, pooled: int)
    requires AllNamed(observations, contour) && IsP75(Values(observations, Contour(contour)), pooled)
    ensures exists s, p :: IsP75(Values(observations, SupplierContour(s, contour)), p) && p <= pooled
    ensures exists s, p :: IsP75(Values(observations, SupplierContour(s, contour)), p) && p >= pooled
  {
    if forall s, p :: IsP75(Values(observations, SupplierContour(s, contour)), p) ==> p > pooled {
      forall s | Values(observations, SupplierContour(s, contour)) != []
        ensures Light(Values(observations, SupplierContour(s, contour)), pooled) == true
      {
        var own := Values(observations, SupplierContour(s, contour));
        var p := P75(own).value;
        assert IsP75(own, p);
        AtMostGrows(own, pooled, p - 1);
      }
      PooledFollows(observations, contour, pooled, true);
    }
    if forall s, p :: IsP75(Values(observations, SupplierContour(s, contour)), p) ==> p < pooled {
      forall s | Values(observations, SupplierContour(s, contour)) != []
        ensures Light(Values(observations, SupplierContour(s, contour)), pooled - 1) == false
      {
        var own := Values(observations, SupplierContour(s, contour));
        var p := P75(own).value;
        assert IsP75(own, p);
        AtMostGrows(own, p, pooled - 1);
      }
      PooledFollows(observations, contour, pooled - 1, false);
    }
  }

  lemma {:induction false} PairValues(a: Observation, b: Observation, level: Level)
    ensures Values([a, b], level) ==
            (if Belongs(a, level) then [a.leadDays.value] else []) +
            (if Belongs(b, level) then [b.leadDays.value] else [])
  {
    assert [a, b][..1] == [a] && [a][..0] == [];
    assert Values([a], level) == if Belongs(a, level) then [] + [a.leadDays.value] else [];
  }

  /** Without the names it can fail: an anonymous slow observation is in the pool only. */
  lemma {:induction false} AnonymousPoolEscapes(fast: Observation, anonymous: Observation, s: string, p: int)
    requires fast == Observation("a", "cargo", Some(1)) && anonymous == Observation("", "cargo", Some(9))
    requires IsP75(Values([fast, anonymous], SupplierContour(s, "cargo")), p)
    ensures p < 9 && IsP75(Values([fast, anonymous], Contour("cargo")), 9)
  {
    PairValues(fast, anonymous, SupplierContour(s, "cargo"));
    assert !Belongs(anonymous, SupplierContour(s, "cargo"));
    assert p == 1;
    assert Values([fast, anonymous], Contour("cargo")) == [1, 9] by {
      PairValues(fast, anonymous, Contour("cargo"));
      assert Belongs(fast, Contour("cargo")) && Belongs(anonymous, Contour("cargo"));
    }
    NineOfTwo();
  }

  lemma {:induction false} NineOfTwo()
    ensures IsP75([1, 9], 9)
  {
    AtMostAppend([1], 9, 9);
    AtMostAppend([], 1, 9);
    AtMostAppend([1], 9, 8);
    AtMostAppend([], 1, 8);
    assert [1, 9] == [1] + [9] && [1] == [] + [1];
  }
}
