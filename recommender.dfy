/** The sort the recommender ranks each tier with, and pandas' `head`. */
module Ranking {

  /** Non-increasing by `key`. */
  predicate NonIncreasing<T>(s: seq<T>, key: T -> int) {
    forall i, j :: 0 <= i < j < |s| ==> key(s[i]) >= key(s[j])
  }

  /** Insert `x` into a sequence that is non-increasing by `key`, before the
      first element whose key is not larger. */
  function InsertDesc<T>(x: T, s: seq<T>, key: T -> int): seq<T>
  {
    if s == [] then [x]
    else if key(s[0]) <= key(x) then [x] + s
    else [s[0]] + InsertDesc(x, s[1..], key)
  }

  /** Inserting adds exactly `x`. */
  lemma {:induction false} InsertDescPerm<T>(x: T, s: seq<T>, key: T -> int)
    ensures multiset(InsertDesc(x, s, key)) == multiset(s) + multiset{x}
  {
    if s != [] && key(s[0]) > key(x) {
      assert s == [s[0]] + s[1..];
      InsertDescPerm(x, s[1..], key);
    }
  }
  /** Inserting keeps the order non-increasing. */
  lemma {:induction false} InsertDescSorted<T>(x: T, s: seq<T>, key: T -> int)
    requires NonIncreasing(s, key)
    ensures NonIncreasing(InsertDesc(x, s, key), key)
  {
    if s == [] {
    } else if key(s[0]) <= key(x) {
      forall z | z in s
        ensures key(z) <= key(x)
      {
        var m :| 0 <= m < |s| && s[m] == z;
        assert m == 0 || key(s[0]) >= key(s[m]);
      }
      PrependSorted(x, s, key);
    } else {
      var t := s[1..];
      assert NonIncreasing(t, key);
      InsertDescSorted(x, t, key);
      InsertDescPerm(x, t, key);
      var r := InsertDesc(x, t, key);
      forall z | z in r
        ensures key(z) <= key(s[0])
      {
        assert z in multiset(r);
        if z != x {
          assert z in multiset(t);
          var m :| 0 <= m < |t| && t[m] == z;
          assert s[m + 1] == z;
        }
      }
      PrependSorted(s[0], r, key);
    }
  }

  /** Putting an element whose key is at least every key of a non-increasing
      sequence in front of it keeps it non-increasing. */
  lemma PrependSorted<T>(y: T, r: seq<T>, key: T -> int)
    requires NonIncreasing(r, key)
    requires forall z :: z in r ==> key(z) <= key(y)
    ensures NonIncreasing([y] + r, key)
  {
    var res := [y] + r;
    forall i, j | 0 <= i < j < |res|
      ensures key(res[i]) >= key(res[j])
    {
      assert res[j] == r[j - 1];
      if i == 0 {
        assert r[j - 1] in r;
      } else {
        assert res[i] == r[i - 1];
      }
    }
  }

  /** `sort_values(key, ascending=False)`: a permutation of `s` that is
      non-increasing by `key`. Equal keys keep their input order here; the
      source's unstable sort may order them differently. */
  function SortDesc<T>(s: seq<T>, key: T -> int): (r: seq<T>)
    ensures multiset(r) == multiset(s)
  {
    if s == [] then []
    else
      assert s == [s[0]] + s[1..];
      InsertDescPerm(s[0], SortDesc(s[1..], key), key);
      InsertDesc(s[0], SortDesc(s[1..], key), key)
  }

  /** The sorted sequence is non-increasing by `key`. */
  lemma {:induction false} SortDescSorted<T>(s: seq<T>, key: T -> int)
    ensures NonIncreasing(SortDesc(s, key), key)
  {
    if s != [] {
      SortDescSorted(s[1..], key);
      InsertDescSorted(s[0], SortDesc(s[1..], key), key);
    }
  }

  function Min(a: int, b: int): int {
    if a <= b then a else b
  }

  function Max(a: int, b: int): int {
    if a >= b then a else b
  }

  /** `DataFrame.head(n)`: the first `n` rows, or for a negative `n` all
      rows but the last `-n`. */
  function Head<T>(s: seq<T>, n: int): (r: seq<T>)
    ensures n >= 0 ==> r == s[..Min(n, |s|)]
    ensures n < 0 ==> r == s[..Max(0, |s| + n)]
  {
    if n >= 0 then s[..Min(n, |s|)] else s[..Max(0, |s| + n)]
  }

  /** `rows[mask]`: the elements satisfying `p`, in order. */
  function Filter<T(!new)>(s: seq<T>, p: T -> bool): (r: seq<T>)
    ensures multiset(r) <= multiset(s)
  {
    if s == [] then []
    else
      assert s == [s[0]] + s[1..];
      (if p(s[0]) then [s[0]] else []) + Filter(s[1..], p)
  }

  /** The filter keeps exactly the elements that satisfy `p`. */
  lemma {:induction false} FilterMembers<T(!new)>(s: seq<T>, p: T -> bool)
    ensures forall x :: x in Filter(s, p) <==> x in s && p(x)
  {
    if s != [] {
      assert s == [s[0]] + s[1..];
      FilterMembers(s[1..], p);
    }
  }

  /** The filter keeps every element satisfying `p` as often as `s` holds it
      and drops every other element. */
  lemma {:induction false} FilterCounts<T(!new)>(s: seq<T>, p: T -> bool)
    ensures forall x :: multiset(Filter(s, p))[x] == (if p(x) then multiset(s)[x] else 0)
  {
    if s != [] {
      assert s == [s[0]] + s[1..];
      FilterCounts(s[1..], p);
    }
  }

  /** The filter distributes over concatenation, so it keeps the relative
      order of the elements it selects. */
  lemma {:induction false} FilterAppend<T(!new)>(a: seq<T>, b: seq<T>, p: T -> bool)
    ensures Filter(a + b, p) == Filter(a, p) + Filter(b, p)
  {
    if a == [] {
      assert a + b == b;
    } else {
      var x, t := a[0], a[1..];
      var h := if p(x) then [x] else [];
      assert a == [x] + t;
      assert a + b == [x] + (t + b);
      FilterCons(x, t + b, p);
      FilterCons(x, t, p);
      FilterAppend(t, b, p);
      AppendAssoc(h, Filter(t, p), Filter(b, p));
    }
  }

  lemma AppendAssoc<T>(x: seq<T>, y: seq<T>, z: seq<T>)
    ensures x + (y + z) == (x + y) + z
  {
  }

  lemma FilterCons<T(!new)>(x: T, s: seq<T>, p: T -> bool)
    ensures Filter([x] + s, p) == (if p(x) then [x] else []) + Filter(s, p)
  {
    assert ([x] + s)[0] == x && ([x] + s)[1..] == s;
  }

  /** Two predicates that agree on every element select the same elements. */
  lemma {:induction false} FilterAgreeing<T(!new)>(s: seq<T>, p: T -> bool, q: T -> bool)
    requires forall x :: x in s ==> p(x) == q(x)
    ensures Filter(s, p) == Filter(s, q)
  {
    if s != [] {
      assert s[0] in s;
      assert forall x :: x in s[1..] ==> x in s;
      FilterAgreeing(s[1..], p, q);
    }
  }

  /** The set of names of the elements: `rows["Scheme_Name"]` used with `isin`. */
  function NamesOf<T(==,!new)>(s: seq<T>, name: T -> string): set<string> {
    set x | x in s :: name(x)
  }

  /** `rows[~rows["Scheme_Name"].isin(names)]`: the elements whose name is
      not in `names`, in order. */
  function ExcludeNames<T(!new)>(s: seq<T>, names: set<string>, name: T -> string): (r: seq<T>)
    ensures forall x :: x in r <==> x in s && name(x) !in names
    ensures multiset(r) <= multiset(s)
  {
    if s == [] then []
    else
      assert s == [s[0]] + s[1..];
      (if name(s[0]) in names then [] else [s[0]]) + ExcludeNames(s[1..], names, name)
  }

  /** Excluding names is the filter that keeps the elements whose name is
      not excluded: it keeps their order and their multiplicity. */
  lemma {:induction false} ExcludeNamesIsFilter<T(!new)>(s: seq<T>, names: set<string>, name: T -> string)
    ensures ExcludeNames(s, names, name) == Filter(s, x => name(x) !in names)
  {
    if s != [] {
      ExcludeNamesIsFilter(s[1..], names, name);
    }
  }

  /** A sequence has at most as many distinct names as elements. */
  lemma {:induction false} NamesOfBound<T(!new)>(s: seq<T>, name: T -> string)
    ensures |NamesOf(s, name)| <= |s|
  {
    if s != [] {
      assert NamesOf(s, name) == NamesOf(s[1..], name) + {name(s[0])} by {
        assert s == [s[0]] + s[1..];
      }
      NamesOfBound(s[1..], name);
    }
  }

  /** `ExcludeNames` leaves nothing when every element's name is excluded. */
  lemma AllNamesExcluded<T(!new)>(s: seq<T>, names: set<string>, name: T -> string)
    requires forall x :: x in s ==> name(x) in names
    ensures ExcludeNames(s, names, name) == []
  {
  }

  /** The first `k` elements of `first` followed by `second`; for a negative
      `k`, `first` without its last `-k` elements. */
  function TwoTier<T>(first: seq<T>, second: seq<T>, k: int): seq<T> {
    if k >= 0 then (first + second)[..Min(k, |first| + |second|)] else first[..Max(0, |first| + k)]
  }

  /** The fallback rows: every core row whose name is not among the first
      tier's names, ranked. */
  function Fallback<T(==,!new)>(first: seq<T>, core: seq<T>, key: T -> int, name: T -> string): seq<T> {
    SortDesc(ExcludeNames(core, NamesOf(first, name), name), key)
  }

  /** Once the first tier and (a part of) the fallback rows are in `base` and
      `base` is still short of `k`, the fallback was taken whole, so every
      core row's name is in `base` and a further pass over the core rows
      excluding `base`'s names finds nothing. */
  lemma CoreTierFindsNothingNew<T(!new)>(first: seq<T>, core: seq<T>, base: seq<T>, k: int,
                                   key: T -> int, name: T -> string)
    requires var f := Fallback(first, core, key, name);
             base == first + Head(f, k - |first|) || (f == [] && base == first)
    requires |base| < k
    ensures ExcludeNames(core, NamesOf(base, name), name) == []
  {
    var f := Fallback(first, core, key, name);
    var rest := ExcludeNames(core, NamesOf(first, name), name);
    assert multiset(f) == multiset(rest);
    assert base == first + f;
    forall x | x in core
      ensures name(x) in NamesOf(base, name)
    {
      if name(x) !in NamesOf(first, name) {
        assert x in rest;
        assert x in multiset(f);
        assert x in base;
      } else {
        var y :| y in first && name(y) == name(x);
        assert y in base;
      }
    }
    AllNamesExcluded(core, NamesOf(base, name), name);
  }

  /** Every core name is a first-tier name or a fallback name, so the first
      tier and the fallback rows together are at least as many as the
      distinct core names. */
  lemma FallbackCoversNames<T(!new)>(first: seq<T>, core: seq<T>, key: T -> int, name: T -> string)
    ensures |NamesOf(core, name)| <= |first| + |Fallback(first, core, key, name)|
  {
    var f := Fallback(first, core, key, name);
    var rest := ExcludeNames(core, NamesOf(first, name), name);
    assert multiset(f) == multiset(rest);
    forall n | n in NamesOf(core, name)
      ensures n in NamesOf(first, name) + NamesOf(f, name)
    {
      var x :| x in core && name(x) == n;
      if n !in NamesOf(first, name) {
        assert x in rest;
        assert x in multiset(f);
        assert x in f;
      }
    }
    SubsetOfUnion(NamesOf(core, name), NamesOf(first, name), NamesOf(f, name));
    NamesOfBound(first, name);
    NamesOfBound(f, name);
  }

  /** A subset of a union is no larger than the two sets together. */
  lemma SubsetOfUnion(a: set<string>, b: set<string>, c: set<string>)
    requires a <= b + c
    ensures |a| <= |b| + |c|
  {
    var u := b + c;
    assert u == a + (u - a);
    assert a * (u - a) == {};
    assert |b + c| + |b * c| == |b| + |c|;
  }

  /** What the two-tier assembly promises, for a first tier `first`: it
      holds `min(k, |first| + |fallback|)` rows; when the first tier alone has
      `k` rows it is exactly their first `k`; the first tier is its prefix;
      every later row is a core row whose name is not among the first
      tier's. */
  lemma TwoTierShape<T(!new)>(first: seq<T>, core: seq<T>, k: int, key: T -> int, name: T -> string)
    ensures var f := Fallback(first, core, key, name);
            var r := TwoTier(first, f, k);
            && (k >= 0 ==> |r| == Min(k, |first| + |f|) && |r| <= k)
            && (0 <= k <= |first| ==> r == first[..k])
            && (forall i :: 0 <= i < |r| && i < |first| ==> r[i] == first[i])
            && (forall i :: |first| <= i < |r| ==> r[i] in core && name(r[i]) !in NamesOf(first, name))
  {
    var f := Fallback(first, core, key, name);
    var rest := ExcludeNames(core, NamesOf(first, name), name);
    var r := TwoTier(first, f, k);
    forall i | |first| <= i < |r|
      ensures r[i] in core && name(r[i]) !in NamesOf(first, name)
    {
      assert r[i] == f[i - |first|];
      assert r[i] in multiset(rest);
    }
  }

  /** For a first tier non-increasing by `key`, the first tier's rows and the
      fallback rows of the two-tier result are each non-increasing by `key`. */
  lemma TwoTierSorted<T(!new)>(first: seq<T>, core: seq<T>, k: int, key: T -> int, name: T -> string)
    requires NonIncreasing(first, key)
    ensures var r := TwoTier(first, Fallback(first, core, key, name), k);
            forall i, j :: 0 <= i < j < |r| && (j < |first| || |first| <= i) ==> key(r[i]) >= key(r[j])
  {
    var f := Fallback(first, core, key, name);
    var r := TwoTier(first, f, k);
    SortDescSorted(ExcludeNames(core, NamesOf(first, name), name), key);
    forall i, j | 0 <= i < j < |r| && (j < |first| || |first| <= i)
      ensures key(r[i]) >= key(r[j])
    {
      if |first| <= i {
        assert r[i] == f[i - |first|] && r[j] == f[j - |first|];
      } else {
        assert r[i] == first[i] && r[j] == first[j];
      }
    }
  }

  /** The tier assembly of `recommend_schemes` (app.py:213-248) on the three
      candidate lists: the strong rows ranked, then while short of `k` the
      ranked mild rows and then the ranked core rows whose names are not yet
      taken, each cut to what is still needed, and finally `head(k)`. With
      the mild tier equal to the core tier it is the two-tier result: the
      third pass never adds a row. */
  method AssembleTiers<T(==,!new)>(strong: seq<T>, mild: seq<T>, core: seq<T>, k: int,
                                   key: T -> int, name: T -> string)
    returns (result: seq<T>)
    requires mild == core
    ensures result == TwoTier(SortDesc(strong, key), Fallback(SortDesc(strong, key), core, key, name), k)
  {
    ghost var first := SortDesc(strong, key);
    ghost var f := Fallback(first, core, key, name);
    var base := strong;
    if base != [] {
      base := SortDesc(base, key);
    }
    assert base == first;

    var need := k - |base|;
    if need > 0 {
      var rest := ExcludeNames(mild, NamesOf(base, name), name);
      assert SortDesc(rest, key) == f;
      if rest != [] {
        base := base + Head(SortDesc(rest, key), need);
      } else {
        assert f == [] && Head(f, need) == [];
        assert base == first + Head(f, need);
      }
      assert TierState(first, f, k, base);
    } else {
      assert TierState(first, f, k, base);
    }

    need := k - |base|;
    if need > 0 {
      CoreTierFindsNothingNew(first, core, base, k, key, name);
      var rest := ExcludeNames(core, NamesOf(base, name), name);
      if rest != [] {
        base := base + Head(SortDesc(rest, key), need);
      }
    }

    if base == [] {
      result := base;
    } else {
      result := Head(base, k);
    }
    HeadOfTierState(first, f, k, base);
  }

  /** What the rows gathered after the second tier are: the first tier, and
      when it is short of `k` and `k` is positive, as many fallback rows as
      fit. */
  ghost predicate TierState<T>(first: seq<T>, f: seq<T>, k: int, base: seq<T>) {
    if k > |first| then base == first + Head(f, k - |first|) else base == first
  }

  /** `head(k)` of the gathered rows is the two-tier result. */
  lemma HeadOfTierState<T>(first: seq<T>, f: seq<T>, k: int, base: seq<T>)
    requires TierState(first, f, k, base)
    ensures (if base == [] then base else Head(base, k)) == TwoTier(first, f, k)
  {
    if k > |first| {
      assert (first + f)[..Min(k, |first| + |f|)] == first + f[..Min(k - |first|, |f|)];
    }
  }

  /** Row `i` of the two-tier result is drawn from `all`; it satisfies the
      strong predicate `ps` when it lies in the first part and the core
      predicate `pc` otherwise. */
  lemma TierRowDrawnFrom<T(!new)>(all: seq<T>, ps: T -> bool, pc: T -> bool, k: int,
                                  key: T -> int, name: T -> string, i: int)
    requires var first := SortDesc(Filter(all, ps), key);
             0 <= i < |TwoTier(first, Fallback(first, Filter(all, pc), key, name), k)|
    ensures var first := SortDesc(Filter(all, ps), key);
            var r := TwoTier(first, Fallback(first, Filter(all, pc), key, name), k);
            r[i] in all && (if i < |first| then ps(r[i]) else pc(r[i]))
  {
    var first := SortDesc(Filter(all, ps), key);
    var core := Filter(all, pc);
    var r := TwoTier(first, Fallback(first, core, key, name), k);
    TwoTierShape(first, core, k, key, name);
    FilterMembers(all, ps);
    FilterMembers(all, pc);
    if i < |first| {
      assert r[i] in multiset(first);
    }
  }

  /** A filter that every element passes keeps the whole sequence. */
  lemma {:induction false} FilterKeepsAll<T(!new)>(s: seq<T>, p: T -> bool)
    requires forall x :: x in s ==> p(x)
    ensures Filter(s, p) == s
  {
    if s != [] {
      assert s == [s[0]] + s[1..];
      assert p(s[0]);
      assert forall x :: x in s[1..] ==> x in s;
      FilterKeepsAll(s[1..], p);
    }
  }

  /** Sorting two copies of one element gives them back. */
  lemma SortDescOfTwin<T>(x: T, key: T -> int)
    ensures SortDesc([x, x], key) == [x, x]
  {
    var r := SortDesc([x, x], key);
    assert multiset(r) == multiset{x, x};
    assert |r| == 2;
    assert r[0] in multiset(r) && r[1] in multiset(r);
  }

  /** Two copies of one element that passes the strong predicate both stay
      in the ranked first tier and in a two-row result. */
  lemma TwinsKept<T(!new)>(x: T, ps: T -> bool, pc: T -> bool, key: T -> int, name: T -> string)
    requires ps(x)
    ensures SortDesc(Filter([x, x], ps), key) == [x, x]
    ensures TwoTier([x, x], Fallback([x, x], Filter([x, x], pc), key, name), 2) == [x, x]
  {
    FilterKeepsAll([x, x], ps);
    SortDescOfTwin(x, key);
  }
}

/** `recommend_schemes` (app.py:207-248): up to `k` eligible, category-allowed
    schemes, strong tag matches first, then the fallback tiers. */
module Recommender {
  import opened Schemes
  import opened Rules
  import opened Gates
  import opened Scorer
  import opened Ranking

  /** The three tiers: tag match, tag match or gender match, and none. */
  datatype Tier = Strong | Mild | Core

  /** The mask of one tier (app.py:210-212, 223-225, 236-237). */
  predicate InTier(row: Scheme, u: Profile, tier: Tier) {
    && PassesCoreFilters(row, u)
    && AllowedCategory(row, u)
    && match tier
       case Strong => StrongMatch(row, u)
       case Mild => MildMatch(row, u)
       case Core => true
  }

  function Mask(u: Profile, tier: Tier): Scheme -> bool {
    (row: Scheme) => InTier(row, u, tier)
  }

  /** The rows of one tier, in dataset order. */
  function Candidates(df: seq<Scheme>, u: Profile, tier: Tier): seq<Scheme> {
    Filter(df, Mask(u, tier))
  }

  /** The `Scheme_Name` column. */
  function NameOf(row: Scheme): string {
    row.name
  }

  /** The `__score` column as a sort key. */
  function ScoreKey(u: Profile, netloc: string -> string): Scheme -> int {
    (row: Scheme) => ScoreRow(row, u, netloc)
  }

  /** The rows sorted by score, highest first. */
  function Ranked(rows: seq<Scheme>, u: Profile, netloc: string -> string): seq<Scheme> {
    SortDesc(rows, ScoreKey(u, netloc))
  }

  /** The strong tier, ranked: the prefix of every result. */
  function StrongRanked(df: seq<Scheme>, u: Profile, netloc: string -> string): seq<Scheme> {
    Ranked(Candidates(df, u, Strong), u, netloc)
  }

  /** Every eligible, category-allowed row whose name is not a strong row's
      name, ranked: all the fallback tiers can append. */
  function FallbackRanked(df: seq<Scheme>, u: Profile, netloc: string -> string): seq<Scheme> {
    Fallback(StrongRanked(df, u, netloc), Candidates(df, u, Core), ScoreKey(u, netloc), NameOf)
  }

  /** The result described in two tiers: the strong rows, then the fallback
      rows, cut to `k` (pandas' `head`). */
  function TwoTierResult(df: seq<Scheme>, u: Profile, k: int, netloc: string -> string): seq<Scheme> {
    TwoTier(StrongRanked(df, u, netloc), FallbackRanked(df, u, netloc), k)
  }

  /** `recommend_schemes` (app.py:207-248). `netloc` stands for
      `urlparse(link).netloc`. The three tier masks are computed and the
      tiers assembled as the source assembles them. */
  method RecommendSchemes(df: seq<Scheme>, u: Profile, k: int, netloc: string -> string)
    returns (result: seq<Scheme>)
    ensures result == TwoTierResult(df, u, k, netloc)
    ensures k >= 0 ==> |result| <= k
    ensures forall i :: 0 <= i < |result| ==>
              result[i] in df && PassesCoreFilters(result[i], u) && AllowedCategory(result[i], u)
  {
    var strong := Candidates(df, u, Strong);
    var mild := Candidates(df, u, Mild);
    var core := Candidates(df, u, Core);
    MildTierIsCoreTier(df, u);
    result := AssembleTiers(strong, mild, core, k, ScoreKey(u, netloc), NameOf);
    ResultRowsEligible(df, u, k, netloc);
  }

  // ---- properties of the tiers ----

  /** The mild tier and the core tier select the same rows, because every
      eligible row is gender-compatible (app.py:177, 195). */
  lemma MildTierIsCoreTier(df: seq<Scheme>, u: Profile)
    ensures Candidates(df, u, Mild) == Candidates(df, u, Core)
  {
    forall x | x in df
      ensures Mask(u, Mild)(x) == Mask(u, Core)(x)
    {
      if PassesCoreFilters(x, u) {
        EligibleIsMildMatch(x, u);
      }
    }
    FilterAgreeing(df, Mask(u, Mild), Mask(u, Core));
  }

  /** What a recommendation promises about its rows: each comes from the
      dataset and passes both gates, and the rows of the strong prefix match a
      tag. */
  lemma ResultRowsEligible(df: seq<Scheme>, u: Profile, k: int, netloc: string -> string)
    ensures var r := TwoTierResult(df, u, k, netloc);
            forall i :: 0 <= i < |r| ==>
              && r[i] in df && PassesCoreFilters(r[i], u) && AllowedCategory(r[i], u)
              && (i < |StrongRanked(df, u, netloc)| ==> TagHit(r[i], u))
  {
    var r := TwoTierResult(df, u, k, netloc);
    var n := |StrongRanked(df, u, netloc)|;
    forall i | 0 <= i < |r|
      ensures r[i] in df && PassesCoreFilters(r[i], u) && AllowedCategory(r[i], u)
      ensures i < n ==> TagHit(r[i], u)
    {
      TierRowDrawnFrom(df, Mask(u, Strong), Mask(u, Core), k, ScoreKey(u, netloc), NameOf, i);
      if i < n {
        assert Mask(u, Strong)(r[i]);
      } else {
        assert Mask(u, Core)(r[i]);
      }
    }
  }

  /** What a recommendation promises about its shape: it holds
      `min(k, |strong| + |fallback|)` rows; when the strong tier alone has `k`
      rows it is exactly their first `k`; the ranked strong rows form its
      prefix; the fallback rows that follow share no name with a strong row. */
  lemma ResultShape(df: seq<Scheme>, u: Profile, k: int, netloc: string -> string)
    ensures var r := TwoTierResult(df, u, k, netloc);
            var s := StrongRanked(df, u, netloc);
            var f := FallbackRanked(df, u, netloc);
            && (k >= 0 ==> |r| == Min(k, |s| + |f|) && |r| <= k)
            && (0 <= k <= |s| ==> r == s[..k])
            && (forall i :: 0 <= i < |r| && i < |s| ==> r[i] == s[i])
            && (forall i :: |s| <= i < |r| ==> r[i].name !in NamesOf(s, NameOf))
  {
    TwoTierShape(StrongRanked(df, u, netloc), Candidates(df, u, Core), k, ScoreKey(u, netloc), NameOf);
  }

  /** The tiers reach `k`: when the eligible, category-allowed rows carry at
      least `k` distinct names, the recommendation holds exactly `k` rows. */
  lemma ResultReachesK(df: seq<Scheme>, u: Profile, k: int, netloc: string -> string)
    requires 0 <= k <= |NamesOf(Candidates(df, u, Core), NameOf)|
    ensures |TwoTierResult(df, u, k, netloc)| == k
  {
    ResultShape(df, u, k, netloc);
    FallbackCoversNames(StrongRanked(df, u, netloc), Candidates(df, u, Core), ScoreKey(u, netloc), NameOf);
  }

  /** The strong prefix and the fallback rows are each ordered by score,
      highest first. */
  lemma ResultRanked(df: seq<Scheme>, u: Profile, k: int, netloc: string -> string)
    ensures var r := TwoTierResult(df, u, k, netloc);
            var n := |StrongRanked(df, u, netloc)|;
            forall i, j :: 0 <= i < j < |r| && (j < n || n <= i) ==>
              ScoreRow(r[i], u, netloc) >= ScoreRow(r[j], u, netloc)
  {
    var key := ScoreKey(u, netloc);
    var r := TwoTierResult(df, u, k, netloc);
    var n := |StrongRanked(df, u, netloc)|;
    SortDescSorted(Candidates(df, u, Strong), key);
    TwoTierSorted(StrongRanked(df, u, netloc), Candidates(df, u, Core), k, key, NameOf);
    forall i, j | 0 <= i < j < |r| && (j < n || n <= i)
      ensures ScoreRow(r[i], u, netloc) >= ScoreRow(r[j], u, netloc)
    {
      assert key(r[i]) >= key(r[j]);
    }
  }

  /** Names are not made unique inside a tier: a dataset holding the same
      strongly matching record twice yields it twice. */
  lemma StrongTierKeepsDuplicates(x: Scheme, u: Profile, netloc: string -> string)
    requires InTier(x, u, Strong)
    ensures StrongRanked([x, x], u, netloc) == [x, x]
    ensures TwoTierResult([x, x], u, 2, netloc) == [x, x]
  {
    assert Mask(u, Strong)(x);
    TwinsKept(x, Mask(u, Strong), Mask(u, Core), ScoreKey(u, netloc), NameOf);
  }
}
