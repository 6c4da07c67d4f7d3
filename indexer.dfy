/**
 * The indexer: it counts the published content of a sitemap into an index
 * of sitemap files (how many files each content type needs), persists the
 * index, and resolves the requested sitemap against it.
 */
module Indexing {
  import opened Wrappers
  import opened Text
  import PA = PhpArray
  import opened OptionStore

  /** Default number of permalinks per sitemap file. */
  const MaxPermalinksPerSitemap: int := 1000
  /** The most sitemap files one index may list. */
  const MaxNumberOfSitemaps: int := 50000

  /** A row of a count query: a content type and how many items of it are published. */
  datatype Counter = Counter(contentType: string, count: int)

  /** The three fields that `updateIndex` accumulates into; `index` is `None` while PHP's field is still null. */
  datatype Tally = Tally(index: Option<Index>, sitemaps: int, permalinks: int)

  /**
   * `$this->indexOfSitemaps[$type] = $n`, which creates the array on the
   * first write: `PA.Set` without its contract, whose facts the lemmas
   * below call up one write at a time.
   */
  function Record(index: Option<Index>, contentType: string, n: int): Index
  {
    PA.RawSet(index.GetOr([]), contentType, n)
  }

  /** The files `count` items need at `m` permalinks a file, `ceil(count / m)`; `FilesIsCeiling` states it. */
  function Files(count: int, m: int): int
    requires m > 0
  {
    (count + m - 1) / m
  }

  lemma FilesIsCeiling(count: int, m: int)
    requires m > 0
    ensures Files(count, m) == CeilDiv(count, m)
    ensures count > 0 ==> Files(count, m) >= 1
  {
  }

  /** The counter asks for more files than the budget has left. */
  predicate Overflows(t: Tally, c: Counter, m: int)
    requires m > 0
  {
    Files(c.count, m) > MaxNumberOfSitemaps - t.sitemaps
  }

  /** The number of files a pass writes for the counter: all it asks for, or what the budget has left. */
  function Written(t: Tally, c: Counter, m: int): int
    requires m > 0
  {
    if Overflows(t, c, m) then MaxNumberOfSitemaps - t.sitemaps else Files(c.count, m)
  }

  /** One pass of the loop of `updateIndex` over a counter with a positive count. */
  function Step(t: Tally, c: Counter, m: int): Tally
    requires m > 0
  {
    var n := Written(t, c, m);
    Tally(Some(Record(t.index, c.contentType, n)), t.sitemaps + n,
          if Overflows(t, c, m) then t.permalinks + n * m else t.permalinks + c.count)
  }

  /**
   * The loop of `updateIndex`: each counter with a positive count asks for
   * `ceil(count / m)` files; one that asks for more than the budget left
   * takes what is left, adds `left * m` permalinks and ends the loop.
   */
  function Fold(t: Tally, counters: seq<Counter>, m: int): Tally
    requires m > 0
    decreases |counters|
  {
    if counters == [] then t
    else if counters[0].count <= 0 then Fold(t, counters[1..], m)
    else if Overflows(t, counters[0], m) then Step(t, counters[0], m)
    else Fold(Step(t, counters[0], m), counters[1..], m)
  }

  /** The whole of `updateIndex`: the loop, then the permalink total bumped by one unless it is still -1. */
  function UpdateIndexEffect(t: Tally, counters: seq<Counter>, m: int): Tally
    requires m > 0
  {
    var f := Fold(t, counters, m);
    if f.permalinks > -1 then f.(permalinks := f.permalinks + 1) else f
  }

  /** How many files the counters with a positive count ask for. */
  function Demand(counters: seq<Counter>, m: int): int
    requires m > 0
  {
    if counters == [] then 0
    else (if counters[0].count > 0 then Files(counters[0].count, m) else 0) + Demand(counters[1..], m)
  }

  /** How many items the counters with a positive count hold. */
  function Volume(counters: seq<Counter>): int
  {
    if counters == [] then 0
    else (if counters[0].count > 0 then counters[0].count else 0) + Volume(counters[1..])
  }

  /** The counters with a positive count, in order. */
  function Positive(counters: seq<Counter>): seq<Counter>
  {
    if counters == [] then []
    else (if counters[0].count > 0 then [counters[0]] else []) + Positive(counters[1..])
  }

  /** The content types of a count query are distinct (it groups by content type). */
  predicate DistinctTypes(counters: seq<Counter>)
  {
    forall i, j :: 0 <= i < j < |counters| ==> counters[i].contentType != counters[j].contentType
  }

  predicate HasType(counters: seq<Counter>, contentType: string)
  {
    exists i :: 0 <= i < |counters| && counters[i].contentType == contentType
  }

  lemma DistinctTail(counters: seq<Counter>)
    requires counters != [] && DistinctTypes(counters)
    ensures DistinctTypes(counters[1..])
    ensures !HasType(counters[1..], counters[0].contentType)
  {
    var rest := counters[1..];
    forall a, b | 0 <= a < b < |rest| ensures rest[a].contentType != rest[b].contentType {
      assert rest[a] == counters[a + 1] && rest[b] == counters[b + 1];
    }
    forall i | 0 <= i < |rest| ensures rest[i].contentType != counters[0].contentType {
      assert rest[i] == counters[i + 1];
    }
  }

  lemma MissingTail(counters: seq<Counter>, contentType: string)
    requires counters != [] && !HasType(counters, contentType)
    ensures counters[0].contentType != contentType
    ensures !HasType(counters[1..], contentType)
  {
    forall i | 0 <= i < |counters[1..]| ensures counters[1..][i].contentType != contentType {
      assert counters[1..][i] == counters[i + 1];
    }
  }

  /** The index never lists more files than the global budget. */
  lemma {:induction false} FoldWithinGlobalBudget(t: Tally, counters: seq<Counter>, m: int)
    requires m > 0 && t.sitemaps <= MaxNumberOfSitemaps
    ensures t.sitemaps <= Fold(t, counters, m).sitemaps <= MaxNumberOfSitemaps
    decreases |counters|
  {
    if counters != [] {
      var c := counters[0];
      if c.count <= 0 {
        FoldWithinGlobalBudget(t, counters[1..], m);
      } else if !Overflows(t, c, m) {
        FilesIsCeiling(c.count, m);
        FoldWithinGlobalBudget(Step(t, c, m), counters[1..], m);
      }
    }
  }

  /** Counters with a count of zero or less change nothing. */
  lemma {:induction false} FoldIgnoresEmptyCounters(t: Tally, counters: seq<Counter>, m: int)
    requires m > 0
    ensures Fold(t, counters, m) == Fold(t, Positive(counters), m)
    decreases |counters|
  {
    if counters != [] {
      var c := counters[0];
      var rest := Positive(counters[1..]);
      if c.count <= 0 {
        FoldIgnoresEmptyCounters(t, counters[1..], m);
        assert Positive(counters) == rest;
      } else {
        assert Positive(counters) == [c] + rest;
        assert ([c] + rest)[0] == c && ([c] + rest)[1..] == rest;
        if !Overflows(t, c, m) {
          FoldIgnoresEmptyCounters(Step(t, c, m), counters[1..], m);
        }
      }
    }
  }

  lemma {:induction false} DemandNonNegative(counters: seq<Counter>, m: int)
    requires m > 0
    ensures Demand(counters, m) >= 0
    decreases |counters|
  {
    if counters != [] {
      DemandNonNegative(counters[1..], m);
      FilesIsCeiling(counters[0].count, m);
    }
  }

  /** Within the budget every positive counter is taken in full. */
  lemma {:induction false} FoldUnderBudget(t: Tally, counters: seq<Counter>, m: int)
    requires m > 0
    requires t.sitemaps + Demand(counters, m) <= MaxNumberOfSitemaps
    ensures Fold(t, counters, m).sitemaps == t.sitemaps + Demand(counters, m)
    ensures Fold(t, counters, m).permalinks == t.permalinks + Volume(counters)
    decreases |counters|
  {
    if counters != [] {
      var c := counters[0];
      DemandNonNegative(counters[1..], m);
      if c.count <= 0 {
        FoldUnderBudget(t, counters[1..], m);
      } else {
        FoldUnderBudget(Step(t, c, m), counters[1..], m);
      }
    }
  }

  /** When the counters ask for more than the budget left, the index ends up listing exactly the budget. */
  lemma {:induction false} FoldFillsBudget(t: Tally, counters: seq<Counter>, m: int)
    requires m > 0 && t.sitemaps <= MaxNumberOfSitemaps
    requires t.sitemaps + Demand(counters, m) > MaxNumberOfSitemaps
    ensures Fold(t, counters, m).sitemaps == MaxNumberOfSitemaps
    decreases |counters|
  {
    var c := counters[0];
    if c.count <= 0 {
      FoldFillsBudget(t, counters[1..], m);
    } else if !Overflows(t, c, m) {
      FoldFillsBudget(Step(t, c, m), counters[1..], m);
    }
  }

  /**
   * The counter that does not fit records exactly the budget left (zero
   * when it is used up), adds `left * m` permalinks, and nothing after it
   * is looked at.
   */
  lemma FoldStopsAtOverflow(t: Tally, c: Counter, rest: seq<Counter>, m: int)
    requires m > 0 && c.count > 0
    requires CeilDiv(c.count, m) > MaxNumberOfSitemaps - t.sitemaps
    ensures var left := MaxNumberOfSitemaps - t.sitemaps;
      Fold(t, [c] + rest, m)
        == Tally(Some(Record(t.index, c.contentType, left)), MaxNumberOfSitemaps, t.permalinks + left * m)
  {
    FilesIsCeiling(c.count, m);
    assert ([c] + rest)[0] == c;
  }

  /** Whatever a step writes, other content types keep their entries. */
  lemma StepKeepsOtherTypes(t: Tally, c: Counter, m: int, contentType: string)
    requires m > 0 && c.contentType != contentType
    ensures PA.Get(Step(t, c, m).index.value, contentType) == PA.Get(t.index.GetOr([]), contentType)
  {
    PA.SetGetOther(t.index.GetOr([]), c.contentType, Written(t, c, m), contentType);
  }

  /** A content type no counter names keeps its entry. */
  lemma {:induction false} FoldKeepsOtherTypes(t: Tally, counters: seq<Counter>, m: int, contentType: string)
    requires m > 0
    requires !HasType(counters, contentType)
    ensures PA.Get(Fold(t, counters, m).index.GetOr([]), contentType) == PA.Get(t.index.GetOr([]), contentType)
    decreases |counters|
  {
    if counters != [] {
      var c := counters[0];
      MissingTail(counters, contentType);
      if c.count <= 0 {
        FoldKeepsOtherTypes(t, counters[1..], m, contentType);
      } else {
        StepKeepsOtherTypes(t, c, m, contentType);
        if !Overflows(t, c, m) {
          FoldKeepsOtherTypes(Step(t, c, m), counters[1..], m, contentType);
        }
      }
    }
  }

  lemma {:induction false} FoldIndexStaysSet(t: Tally, counters: seq<Counter>, m: int)
    requires m > 0 && t.index.Some?
    ensures Fold(t, counters, m).index.Some?
    decreases |counters|
  {
    if counters != [] {
      var c := counters[0];
      if c.count <= 0 {
        FoldIndexStaysSet(t, counters[1..], m);
      } else if !Overflows(t, c, m) {
        FoldIndexStaysSet(Step(t, c, m), counters[1..], m);
      }
    }
  }

  /** Within the budget, each counted content type is recorded with `ceil(count / m)` files. */
  lemma {:induction false} FoldRecordsEachType(t: Tally, counters: seq<Counter>, m: int, j: nat)
    requires m > 0 && DistinctTypes(counters)
    requires t.sitemaps + Demand(counters, m) <= MaxNumberOfSitemaps
    requires j < |counters| && counters[j].count > 0
    ensures Fold(t, counters, m).index.Some?
    ensures PA.Get(Fold(t, counters, m).index.value, counters[j].contentType) == Some(CeilDiv(counters[j].count, m))
    decreases |counters|
  {
    var c := counters[0];
    var rest := counters[1..];
    DemandNonNegative(rest, m);
    DistinctTail(counters);
    if j == 0 {
      var t' := Step(t, c, m);
      FoldKeepsOtherTypes(t', rest, m, c.contentType);
      FoldIndexStaysSet(t', rest, m);
      PA.SetGet(t.index.GetOr([]), c.contentType, Files(c.count, m));
      FilesIsCeiling(c.count, m);
    } else {
      assert rest[j - 1] == counters[j];
      if c.count <= 0 {
        FoldRecordsEachType(t, rest, m, j - 1);
      } else {
        FoldRecordsEachType(Step(t, c, m), rest, m, j - 1);
      }
    }
  }

  /** A step that writes a content type new to the index keeps the index adding up to the running total. */
  lemma StepKeepsIndexSum(t: Tally, c: Counter, m: int)
    requires m > 0
    requires PA.DistinctKeys(t.index.GetOr([]))
    requires PA.SumValues(t.index.GetOr([])) == t.sitemaps
    requires c.contentType !in PA.Keys(t.index.GetOr([]))
    ensures PA.DistinctKeys(Step(t, c, m).index.value)
    ensures PA.SumValues(Step(t, c, m).index.value) == Step(t, c, m).sitemaps
    ensures PA.Keys(Step(t, c, m).index.value) == PA.Keys(t.index.GetOr([])) + [c.contentType]
  {
    var idx := t.index.GetOr([]);
    var v := Written(t, c, m);
    PA.SumValuesSet(idx, c.contentType, v);
    assert PA.Set(idx, c.contentType, v) == Record(t.index, c.contentType, v);
    PA.GetFacts(idx, c.contentType);
  }

  /**
   * When the index's values add up to the running total and the counters
   * bring new content types, they still add up afterwards: the total the
   * fold keeps is the one `getTotalNumberOfSitemaps` would recompute.
   */
  lemma {:induction false} FoldKeepsIndexSum(t: Tally, counters: seq<Counter>, m: int)
    requires m > 0 && DistinctTypes(counters)
    requires PA.DistinctKeys(t.index.GetOr([]))
    requires PA.SumValues(t.index.GetOr([])) == t.sitemaps
    requires forall i :: 0 <= i < |counters| ==> counters[i].contentType !in PA.Keys(t.index.GetOr([]))
    ensures PA.DistinctKeys(Fold(t, counters, m).index.GetOr([]))
    ensures PA.SumValues(Fold(t, counters, m).index.GetOr([])) == Fold(t, counters, m).sitemaps
    decreases |counters|
  {
    if counters != [] {
      var c := counters[0];
      var rest := counters[1..];
      DistinctTail(counters);
      forall i | 0 <= i < |rest| ensures rest[i].contentType !in PA.Keys(t.index.GetOr([])) {
        assert rest[i] == counters[i + 1];
      }
      if c.count <= 0 {
        FoldKeepsIndexSum(t, rest, m);
      } else {
        StepKeepsIndexSum(t, c, m);
        if !Overflows(t, c, m) {
          var t' := Step(t, c, m);
          forall i | 0 <= i < |rest| ensures rest[i].contentType !in PA.Keys(t'.index.GetOr([])) {
            assert rest[i].contentType != c.contentType;
          }
          FoldKeepsIndexSum(t', rest, m);
        }
      }
    }
  }

  /**
   * Within the budget, `updateIndex` leaves the permalink total at -1 when
   * it was -1 and nothing was counted, and otherwise adds the items plus one.
   */
  lemma UpdateIndexPermalinks(t: Tally, counters: seq<Counter>, m: int)
    requires m > 0 && t.permalinks >= -1
    requires t.sitemaps + Demand(counters, m) <= MaxNumberOfSitemaps
    ensures UpdateIndexEffect(t, counters, m).permalinks
         == if t.permalinks == -1 && Volume(counters) == 0 then -1 else t.permalinks + Volume(counters) + 1
  {
    FoldUnderBudget(t, counters, m);
    VolumeNonNegative(counters);
  }

  lemma {:induction false} VolumeNonNegative(counters: seq<Counter>)
    ensures Volume(counters) >= 0
    decreases |counters|
  {
    if counters != [] {
      VolumeNonNegative(counters[1..]);
    }
  }

  /** The UID of a requested sitemap file: `id-n`, where the unnumbered file is number 1, and empty for the index. */
  function UIDOf(id: string, number: int): string
  {
    if id == "index" then ""
    else if number > 0 then id + "-" + IntToString(number)
    else id + "-1"
  }

  /**
   * Two files of sitemaps with IDs free of '-' share a UID only when they
   * are the same file: same ID, and same number once 0 is read as 1.
   */
  lemma UIDsIdentifyFiles(id1: string, n1: int, id2: string, n2: int)
    requires id1 != "index" && id2 != "index"
    requires '-' !in id1 && '-' !in id2
    requires UIDOf(id1, n1) == UIDOf(id2, n2)
    ensures id1 == id2
    ensures (if n1 > 0 then n1 else 1) == (if n2 > 0 then n2 else 1)
  {
    var u := UIDOf(id1, n1);
    var s1 := if n1 > 0 then NatToString(n1) else "1";
    var s2 := if n2 > 0 then NatToString(n2) else "1";
    assert u == id1 + "-" + s1 && u == id2 + "-" + s2;
    assert IndexOf(u, '-') == Some(|id1|) by {
      assert u[|id1|] == '-' && u[..|id1|] == id1;
    }
    assert IndexOf(u, '-') == Some(|id2|) by {
      assert u[|id2|] == '-' && u[..|id2|] == id2;
    }
    assert id1 == u[..|id1|] && id2 == u[..|id2|];
    assert s1 == u[|id1| + 1..] && s2 == u[|id2| + 1..];
    var k1: nat := if n1 > 0 then n1 else 1;
    var k2: nat := if n2 > 0 then n2 else 1;
    assert s1 == NatToString(k1) && s2 == NatToString(k2);
    NatToStringInjective(k1, k2);
  }

  /** The first of `postTypes` that the index lists. */
  function FirstIndexed(postTypes: seq<string>, index: Option<Index>): (r: Option<string>)
    ensures r.Some? ==> r.value in postTypes && r.value in PA.Keys(index.GetOr([]))
    ensures r.None? ==> forall i :: 0 <= i < |postTypes| ==> postTypes[i] !in PA.Keys(index.GetOr([]))
  {
    if postTypes == [] then None
    else if postTypes[0] in PA.Keys(index.GetOr([])) then Some(postTypes[0])
    else
      var r := FirstIndexed(postTypes[1..], index);
      assert r.None? ==> forall i :: 0 <= i < |postTypes| ==> postTypes[i] !in PA.Keys(index.GetOr([])) by {
        if r.None? {
          forall i | 0 <= i < |postTypes| ensures postTypes[i] !in PA.Keys(index.GetOr([])) {
            if i > 0 { assert postTypes[i] == postTypes[1..][i - 1]; }
          }
        }
      }
      r
  }

  /** `(int) getOption('max_permalinks_in_{slug}', 1000)`, from the stored value. */
  function MaxPermalinksOption(stored: Option<int>): int
  {
    stored.GetOr(MaxPermalinksPerSitemap)
  }

  /** The rows and settings the counting of `buildIndex` reads. */
  datatype IndexQueries = IndexQueries(
    publicPostTypes: seq<string>,
    publicTaxonomies: seq<string>,
    /** the content types `isContentTypeIncluded` accepts for the slug */
    included: set<string>,
    pageOnFront: int,
    postCounts: seq<Counter>,
    authorCounts: seq<Counter>,
    taxonomyCounts: seq<Counter>)

  /**
   * `postTypesList` after `countCustomPosts`: the included post types, each
   * quoted and followed by a comma, appended to what it held, and then the
   * last character dropped (`substr($list, 0, -1)`, which leaves "" as "").
   */
  function PostTypesList(before: string, postTypes: seq<string>, included: set<string>): string
  {
    var l := before + QuotedList(postTypes, included);
    if |l| > 0 then l[..|l| - 1] else ""
  }

  function QuotedList(names: seq<string>, included: set<string>): string
  {
    if names == [] then ""
    else (if names[0] in included then "'" + names[0] + "'," else "") + QuotedList(names[1..], included)
  }

  /** The names `isContentTypeIncluded` accepts, in order. */
  function IncludedNames(names: seq<string>, included: set<string>): (r: seq<string>)
    ensures forall i :: 0 <= i < |r| ==> r[i] in included && r[i] in names
  {
    if names == [] then []
    else (if names[0] in included then [names[0]] else []) + IncludedNames(names[1..], included)
  }

  function Quoted(names: seq<string>): (r: seq<string>)
    ensures |r| == |names|
    ensures forall i :: 0 <= i < |names| ==> r[i] == "'" + names[i] + "'"
  {
    if names == [] then [] else ["'" + names[0] + "'"] + Quoted(names[1..])
  }

  /** The quoted list, with its trailing comma, is the comma-joined quoted names plus a comma. */
  lemma {:induction false} QuotedListIsJoin(names: seq<string>, included: set<string>)
    ensures var ns := IncludedNames(names, included);
      QuotedList(names, included) == if ns == [] then "" else Join(Quoted(ns), ",") + ","
    decreases |names|
  {
    if names != [] {
      var rest := IncludedNames(names[1..], included);
      QuotedListIsJoin(names[1..], included);
      if names[0] in included {
        var q := "'" + names[0] + "'";
        assert IncludedNames(names, included) == [names[0]] + rest;
        assert Quoted([names[0]] + rest) == [q] + Quoted(rest) by {
          assert ([names[0]] + rest)[1..] == rest;
        }
        if rest != [] {
          assert ([q] + Quoted(rest))[1..] == Quoted(rest);
          assert Join([q] + Quoted(rest), ",") == q + "," + Join(Quoted(rest), ",");
          assert QuotedList(names, included) == q + "," + (Join(Quoted(rest), ",") + ",");
        } else {
          assert Join([q], ",") == q;
        }
      } else {
        assert IncludedNames(names, included) == rest;
      }
    }
  }

  /** Built from nothing, the list is the included post types, quoted and joined with commas. */
  lemma PostTypesListIsJoin(postTypes: seq<string>, included: set<string>)
    ensures PostTypesList("", postTypes, included) == Join(Quoted(IncludedNames(postTypes, included)), ",")
  {
    QuotedListIsJoin(postTypes, included);
    var ns := IncludedNames(postTypes, included);
    if ns != [] {
      var j := Join(Quoted(ns), ",");
      assert "" + (j + ",") == j + ",";
      assert (j + ",")[..|j + ","| - 1] == j;
    }
  }

  predicate AnyIncluded(names: seq<string>, included: set<string>)
  {
    exists i :: 0 <= i < |names| && names[i] in included
  }

  /** `countCustomPosts`: the home page counts when there is no static front page (sitemap only). */
  function CountPosts(t: Tally, q: IndexQueries, slug: string, m: int): Tally
    requires m > 0
  {
    var t0 := if slug == "sitemap" && q.pageOnFront <= 0 then t.(permalinks := t.permalinks + 1) else t;
    UpdateIndexEffect(t0, q.postCounts, m)
  }

  /** `countAuthorsPages`: skipped with no budget left or when authors are excluded. */
  function CountAuthors(t: Tally, q: IndexQueries, m: int): Tally
    requires m > 0
  {
    if MaxNumberOfSitemaps - t.sitemaps <= 0 || "authors" !in q.included then t
    else UpdateIndexEffect(t, q.authorCounts, m)
  }

  /** `countTaxonomies`: skipped with no budget left or when no public taxonomy is included. */
  function CountTaxonomies(t: Tally, q: IndexQueries, m: int): Tally
    requires m > 0
  {
    if MaxNumberOfSitemaps - t.sitemaps <= 0 || !AnyIncluded(q.publicTaxonomies, q.included) then t
    else UpdateIndexEffect(t, q.taxonomyCounts, m)
  }

  /** The counting part of `buildIndex`: posts, then for the sitemap authors and taxonomies. */
  function CountAll(t: Tally, q: IndexQueries, slug: string, m: int): Tally
    requires m > 0
  {
    var t1 := CountPosts(t, q, slug, m);
    if slug == "sitemap" then CountTaxonomies(CountAuthors(t1, q, m), q, m) else t1
  }

  /** Every batch of counting keeps the index within the global budget. */
  lemma CountAllWithinBudget(t: Tally, q: IndexQueries, slug: string, m: int)
    requires m > 0 && 0 <= t.sitemaps <= MaxNumberOfSitemaps
    ensures t.sitemaps <= CountAll(t, q, slug, m).sitemaps <= MaxNumberOfSitemaps
  {
    var t0 := if slug == "sitemap" && q.pageOnFront <= 0 then t.(permalinks := t.permalinks + 1) else t;
    FoldWithinGlobalBudget(t0, q.postCounts, m);
    var t1 := CountPosts(t, q, slug, m);
    FoldWithinGlobalBudget(t1, q.authorCounts, m);
    var t2 := CountAuthors(t1, q, m);
    FoldWithinGlobalBudget(t2, q.taxonomyCounts, m);
  }

  /** A newsmap index counts posts only, and never the home page. */
  lemma NewsmapCountsPostsOnly(t: Tally, q: IndexQueries, slug: string, m: int)
    requires m > 0 && slug != "sitemap"
    ensures CountAll(t, q, slug, m) == UpdateIndexEffect(t, q.postCounts, m)
  {
  }

  /** The tally of an indexer that has not counted anything yet. */
  const Uncounted: Tally := Tally(None, 0, -1)

  /** What `getTotalNumberOfSitemaps` answers for a tally: the index added up when the running total is 0. */
  function TotalOf(t: Tally): int
  {
    if t.sitemaps == 0 && t.index.Some? && t.index.value != [] then PA.SumValues(t.index.value) else t.sitemaps
  }

  /** The three count queries together name each content type once. */
  predicate DistinctQueries(q: IndexQueries)
  {
    DistinctTypes(q.postCounts + q.authorCounts + q.taxonomyCounts)
  }

  lemma DistinctParts(q: IndexQueries)
    requires DistinctQueries(q)
    ensures DistinctTypes(q.postCounts) && DistinctTypes(q.authorCounts) && DistinctTypes(q.taxonomyCounts)
    ensures forall i :: 0 <= i < |q.authorCounts| ==> !HasType(q.postCounts, q.authorCounts[i].contentType)
    ensures forall i :: 0 <= i < |q.taxonomyCounts| ==>
      !HasType(q.postCounts, q.taxonomyCounts[i].contentType) && !HasType(q.authorCounts, q.taxonomyCounts[i].contentType)
  {
    var p, a, x := q.postCounts, q.authorCounts, q.taxonomyCounts;
    var all := p + a + x;
    assert forall i :: 0 <= i < |p| ==> all[i] == p[i];
    assert forall i :: 0 <= i < |a| ==> all[|p| + i] == a[i];
    assert forall i :: 0 <= i < |x| ==> all[|p| + |a| + i] == x[i];
  }

  /** Counting from a content type no counter names and the tally does not list leaves it unlisted. */
  lemma UpdateIndexKeepsTypeOut(t: Tally, counters: seq<Counter>, m: int, contentType: string)
    requires m > 0 && !HasType(counters, contentType)
    requires contentType !in PA.Keys(t.index.GetOr([]))
    ensures contentType !in PA.Keys(UpdateIndexEffect(t, counters, m).index.GetOr([]))
  {
    FoldKeepsOtherTypes(t, counters, m, contentType);
    PA.GetFacts(t.index.GetOr([]), contentType);
    PA.GetFacts(UpdateIndexEffect(t, counters, m).index.GetOr([]), contentType);
  }

  /** `FoldKeepsIndexSum` for the whole of `updateIndex`. */
  lemma UpdateIndexKeepsIndexSum(t: Tally, counters: seq<Counter>, m: int)
    requires m > 0 && DistinctTypes(counters)
    requires PA.DistinctKeys(t.index.GetOr([]))
    requires PA.SumValues(t.index.GetOr([])) == t.sitemaps
    requires forall i :: 0 <= i < |counters| ==> counters[i].contentType !in PA.Keys(t.index.GetOr([]))
    ensures PA.DistinctKeys(UpdateIndexEffect(t, counters, m).index.GetOr([]))
    ensures PA.SumValues(UpdateIndexEffect(t, counters, m).index.GetOr([])) == UpdateIndexEffect(t, counters, m).sitemaps
  {
    FoldKeepsIndexSum(t, counters, m);
  }

  /**
   * When the count queries name distinct content types, a fresh count
   * leaves an index whose values add up to its total, so what
   * `getTotalNumberOfSitemaps` answers is that sum.
   */
  lemma CountedTotalIsSum(q: IndexQueries, slug: string, m: int)
    requires m > 0 && DistinctQueries(q)
    ensures PA.DistinctKeys(CountAll(Uncounted, q, slug, m).index.GetOr([]))
    ensures TotalOf(CountAll(Uncounted, q, slug, m)) == PA.SumValues(CountAll(Uncounted, q, slug, m).index.GetOr([]))
  {
    DistinctParts(q);
    var t0 := if slug == "sitemap" && q.pageOnFront <= 0 then Uncounted.(permalinks := 0) else Uncounted;
    UpdateIndexKeepsIndexSum(t0, q.postCounts, m);
    var t1 := CountPosts(Uncounted, q, slug, m);
    if slug == "sitemap" {
      var t2 := CountAuthors(t1, q, m);
      forall i | 0 <= i < |q.authorCounts|
        ensures q.authorCounts[i].contentType !in PA.Keys(t1.index.GetOr([]))
      {
        UpdateIndexKeepsTypeOut(t0, q.postCounts, m, q.authorCounts[i].contentType);
      }
      if t2 != t1 {
        UpdateIndexKeepsIndexSum(t1, q.authorCounts, m);
      }
      forall i | 0 <= i < |q.taxonomyCounts|
        ensures q.taxonomyCounts[i].contentType !in PA.Keys(t2.index.GetOr([]))
      {
        var ct := q.taxonomyCounts[i].contentType;
        UpdateIndexKeepsTypeOut(t0, q.postCounts, m, ct);
        if t2 != t1 {
          UpdateIndexKeepsTypeOut(t1, q.authorCounts, m, ct);
        }
      }
      if CountTaxonomies(t2, q, m) != t2 {
        UpdateIndexKeepsIndexSum(t2, q.taxonomyCounts, m);
      }
    }
  }

  /** Whether file `number` of sitemap `id` is listed: `isset($index[$id]) && $number <= $index[$id]`. */
  function SitemapExistsIn(index: Option<Index>, id: string, number: int): (b: bool)
    ensures b ==> id in PA.Keys(index.GetOr([]))
    ensures b <==> PA.Get(index.GetOr([]), id).Some? && number <= PA.Get(index.GetOr([]), id).value
  {
    PA.GetFacts(index.GetOr([]), id);
    match PA.Get(index.GetOr([]), id)
    case None => false
    case Some(n) => number <= n
  }

  /** The content type of the requested sitemap, as `getRequestedSitemapContentType` settles it. */
  function ContentTypeFor(slug: string, id: string, index: Option<Index>, publicPostTypes: seq<string>): string
  {
    if id != "index" then id
    else FirstIndexed(publicPostTypes, index).GetOr(if slug == "sitemap" then "page" else "post")
  }

  class Indexer {
    /** `requestedSitemapSlug`: 'sitemap' or 'newsmap'. */
    const slug: string
    /** `(int)` of the stored `max_permalinks_in_{slug}` option, or 1000. */
    const maxPermalinksOption: int
    var id: string
    var number: int
    var contentType: string
    var contentFamily: string
    var index: Option<Index>
    var totalSitemaps: int
    var totalPermalinks: int
    var postTypesList: string
    /** 0 until `getMaxPermalinksPerSitemap` has read the option. */
    var maxPermalinks: int

    ghost predicate Valid()
      reads this
    {
      maxPermalinksOption > 0 && (maxPermalinks == 0 || maxPermalinks == maxPermalinksOption)
    }

    function Tallied(): Tally
      reads this
    {
      Tally(index, totalSitemaps, totalPermalinks)
    }

    constructor (slug: string, id: string, maxPermalinksOption: int)
      requires maxPermalinksOption > 0
      ensures Valid()
      ensures this.slug == slug && this.id == id && this.maxPermalinksOption == maxPermalinksOption
      ensures number == 0 && contentType == "" && contentFamily == "" && index == None
      ensures totalSitemaps == 0 && totalPermalinks == -1 && postTypesList == "" && maxPermalinks == 0
      ensures !HasIndexJustBeenBuilt()
    {
      this.slug := slug;
      this.id := id;
      this.maxPermalinksOption := maxPermalinksOption;
      number := 0;
      contentType := "";
      contentFamily := "";
      index := None;
      totalSitemaps := 0;
      totalPermalinks := -1;
      postTypesList := "";
      maxPermalinks := 0;
    }

    function UID(): (u: string)
      reads this
      ensures id == "index" <==> u == ""
    {
      UIDOf(id, number)
    }

    method SetNumber(n: int)
      modifies this`number
      ensures number == n
    {
      number := n;
    }

    /** `getRequestedSitemapContentFamily`: 'post' until the ID has been classified. */
    function ContentFamily(): (f: string)
      reads this
      ensures f != ""
      ensures contentFamily != "" && contentFamily != "0" ==> f == contentFamily
    {
      if contentFamily == "" || contentFamily == "0" then "post" else contentFamily
    }

    function HasIndexJustBeenBuilt(): bool
      reads this
    {
      totalPermalinks > -1
    }

    function MaxNumberOfSitemapsToIndex(): (left: int)
      reads this
      ensures left + totalSitemaps == MaxNumberOfSitemaps
    {
      MaxNumberOfSitemaps - totalSitemaps
    }

    /** `getMaxPermalinksPerSitemap`: the option, read once. */
    method GetMaxPermalinksPerSitemap() returns (m: int)
      requires Valid()
      modifies this`maxPermalinks
      ensures Valid() && m == maxPermalinks == maxPermalinksOption
    {
      if maxPermalinks == 0 {
        maxPermalinks := maxPermalinksOption;
      }
      m := maxPermalinks;
    }

    /** `getRequestedSitemapContentType`, memoised in `contentType`. */
    method GetContentType(publicPostTypes: seq<string>) returns (ct: string)
      modifies this`contentType
      ensures old(PA.TruthyString(contentType)) ==> ct == contentType == old(contentType)
      ensures !old(PA.TruthyString(contentType)) ==> ct == contentType == ContentTypeFor(slug, id, index, publicPostTypes)
    {
      if !PA.TruthyString(contentType) {
        contentType := id;
        if id == "index" {
          contentType := if slug == "sitemap" then "page" else "post";
          var i := 0;
          while i < |publicPostTypes|
            invariant 0 <= i <= |publicPostTypes|
            invariant forall j :: 0 <= j < i ==> publicPostTypes[j] !in PA.Keys(index.GetOr([]))
            invariant contentType == if slug == "sitemap" then "page" else "post"
          {
            PA.GetFacts(index.GetOr([]), publicPostTypes[i]);
            if PA.Get(index.GetOr([]), publicPostTypes[i]).Some? {
              contentType := publicPostTypes[i];
              FirstIndexedAt(publicPostTypes, index, i);
              break;
            }
            i := i + 1;
          }
          if i == |publicPostTypes| {
            FirstIndexedNone(publicPostTypes, index);
          }
        }
      }
      ct := contentType;
    }

    /** `getTotalNumberOfSitemaps`: adds up the index when the running total is 0. */
    method GetTotalNumberOfSitemaps() returns (total: int)
      modifies this`totalSitemaps
      ensures old(totalSitemaps) == 0 && index.Some? && index.value != []
        ==> totalSitemaps == PA.SumValues(index.value)
      ensures !(old(totalSitemaps) == 0 && index.Some? && index.value != []) ==> totalSitemaps == old(totalSitemaps)
      ensures total == totalSitemaps
    {
      if totalSitemaps == 0 && index.Some? && index.value != [] {
        var entries := index.value;
        var i := 0;
        while i < |entries|
          invariant 0 <= i <= |entries|
          invariant totalSitemaps + PA.SumValues(entries[i..]) == PA.SumValues(entries)
        {
          assert entries[i..] == [entries[i]] + entries[i + 1..];
          assert PA.SumValues(entries[i..]) == entries[i].1 + PA.SumValues(entries[i + 1..]);
          totalSitemaps := totalSitemaps + entries[i].1;
          i := i + 1;
        }
      }
      total := totalSitemaps;
    }

    /** `updateIndex`. */
    method UpdateIndex(counters: seq<Counter>)
      requires Valid()
      modifies this`index, this`totalSitemaps, this`totalPermalinks, this`maxPermalinks
      ensures Valid() && maxPermalinks == maxPermalinksOption
      ensures Tallied() == UpdateIndexEffect(old(Tallied()), counters, maxPermalinksOption)
    {
      var m := GetMaxPermalinksPerSitemap();
      ghost var start := Tallied();
      var i := 0;
      var stopped := false;
      while i < |counters| && !stopped
        invariant 0 <= i <= |counters|
        invariant m == maxPermalinksOption && Valid() && maxPermalinks == m
        invariant stopped ==> Tallied() == Fold(start, counters, m)
        invariant !stopped ==> Fold(start, counters, m) == Fold(Tallied(), counters[i..], m)
        decreases |counters| - i, if stopped then 0 else 1
      {
        var c := counters[i];
        assert counters[i..][0] == c && counters[i..][1..] == counters[i + 1..];
        if c.count > 0 {
          var n := Files(c.count, m);
          var left := MaxNumberOfSitemapsToIndex();
          if n > left {
            totalSitemaps := totalSitemaps + left;
            totalPermalinks := totalPermalinks + left * m;
            index := Some(Record(index, c.contentType, left));
            stopped := true;
          } else {
            totalSitemaps := totalSitemaps + n;
            totalPermalinks := totalPermalinks + c.count;
            index := Some(Record(index, c.contentType, n));
          }
        }
        if !stopped {
          i := i + 1;
        }
      }
      if totalPermalinks > -1 {
        totalPermalinks := totalPermalinks + 1;
      }
    }

    /** `countCustomPosts`. */
    method CountCustomPosts(q: IndexQueries)
      requires Valid()
      modifies this`index, this`totalSitemaps, this`totalPermalinks, this`maxPermalinks, this`postTypesList
      ensures Valid()
      ensures Tallied() == CountPosts(old(Tallied()), q, slug, maxPermalinksOption)
      ensures postTypesList == PostTypesList(old(postTypesList), q.publicPostTypes, q.included)
    {
      postTypesList := PostTypesList(postTypesList, q.publicPostTypes, q.included);
      if slug == "sitemap" && q.pageOnFront <= 0 {
        totalPermalinks := totalPermalinks + 1;
      }
      UpdateIndex(q.postCounts);
    }

    /** `countAuthorsPages`. */
    method CountAuthorsPages(q: IndexQueries) returns (counted: bool)
      requires Valid()
      modifies this`index, this`totalSitemaps, this`totalPermalinks, this`maxPermalinks
      ensures Valid()
      ensures Tallied() == CountAuthors(old(Tallied()), q, maxPermalinksOption)
      ensures counted <==> (old(MaxNumberOfSitemapsToIndex()) > 0 && "authors" in q.included)
    {
      if MaxNumberOfSitemapsToIndex() <= 0 || "authors" !in q.included {
        return false;
      }
      UpdateIndex(q.authorCounts);
      counted := true;
    }

    /** `countTaxonomies`. */
    method CountTaxonomyPages(q: IndexQueries) returns (counted: bool)
      requires Valid()
      modifies this`index, this`totalSitemaps, this`totalPermalinks, this`maxPermalinks
      ensures Valid()
      ensures Tallied() == CountTaxonomies(old(Tallied()), q, maxPermalinksOption)
      ensures counted <==> (old(MaxNumberOfSitemapsToIndex()) > 0 && AnyIncluded(q.publicTaxonomies, q.included))
    {
      if MaxNumberOfSitemapsToIndex() <= 0 || !AnyIncluded(q.publicTaxonomies, q.included) {
        return false;
      }
      UpdateIndex(q.taxonomyCounts);
      counted := true;
    }

    /**
     * `buildIndex`: a stored index is loaded as it is, with no counting and
     * no write; otherwise the content is counted and the index persisted.
     */
    method BuildIndex(store: Store, q: IndexQueries)
      requires Valid()
      modifies this`index, this`totalSitemaps, this`totalPermalinks, this`maxPermalinks, this`postTypesList, store`indexes
      ensures Valid()
      ensures var key := slug + "_index";
        if key in old(store.indexes) then
          && index == Some(old(store.indexes[key]))
          && totalSitemaps == old(totalSitemaps) && totalPermalinks == old(totalPermalinks)
          && store.indexes == old(store.indexes)
          && postTypesList == old(postTypesList)
        else
          && Tallied() == CountAll(old(Tallied()), q, slug, maxPermalinksOption)
          && store.indexes == (if index.Some? then old(store.indexes)[key := index.value] else old(store.indexes) - {key})
    {
      var key := slug + "_index";
      if key in store.indexes {
        index := Some(store.indexes[key]);
        return;
      }
      CountCustomPosts(q);
      if slug == "sitemap" {
        var _ := CountAuthorsPages(q);
        var _ := CountTaxonomyPages(q);
      }
      if index.Some? {
        store.indexes := store.indexes[key := index.value];
      } else {
        store.indexes := store.indexes - {key};
      }
    }

    /**
     * `sitemapIDisValid`: 'authors' is the author family, then a public post
     * type the post family, then a public taxonomy the taxonomy family;
     * anything else clears the ID.
     */
    method SitemapIDIsValid(publicPostTypes: seq<string>, publicTaxonomies: seq<string>) returns (valid: bool)
      modifies this`id, this`contentFamily
      ensures valid <==> old(id) == "authors" || old(id) in publicPostTypes || old(id) in publicTaxonomies
      ensures valid ==> id == old(id)
      ensures !valid ==> id == "" && contentFamily == old(contentFamily)
      ensures valid && old(id) == "authors" ==> contentFamily == "author"
      ensures valid && old(id) != "authors" && old(id) in publicPostTypes ==> contentFamily == "post"
      ensures valid && old(id) != "authors" && old(id) !in publicPostTypes ==> contentFamily == "taxonomy"
    {
      if id == "authors" {
        contentFamily := "author";
        return true;
      }
      var i := 0;
      while i < |publicPostTypes|
        invariant 0 <= i <= |publicPostTypes|
        invariant id !in publicPostTypes[..i]
        invariant id == old(id) && contentFamily == old(contentFamily)
      {
        if id == publicPostTypes[i] {
          contentFamily := "post";
          return true;
        }
        Text.TakeSnoc(publicPostTypes, i);
        i := i + 1;
      }
      assert publicPostTypes[..i] == publicPostTypes;
      var j := 0;
      while j < |publicTaxonomies|
        invariant 0 <= j <= |publicTaxonomies|
        invariant id !in publicTaxonomies[..j]
        invariant id == old(id) && contentFamily == old(contentFamily)
      {
        if id == publicTaxonomies[j] {
          contentFamily := "taxonomy";
          return true;
        }
        Text.TakeSnoc(publicTaxonomies, j);
        j := j + 1;
      }
      assert publicTaxonomies[..j] == publicTaxonomies;
      id := "";
      valid := false;
    }

    /** `requestedSitemapExists`: builds the index, then looks the requested file up. */
    method RequestedSitemapExists(store: Store, q: IndexQueries) returns (exists_: bool)
      requires Valid()
      modifies this`index, this`totalSitemaps, this`totalPermalinks, this`maxPermalinks, this`postTypesList, store`indexes
      ensures Valid()
      ensures exists_ == SitemapExistsIn(index, id, number)
      ensures var key := slug + "_index";
        if key in old(store.indexes) then
          && index == Some(old(store.indexes[key]))
          && totalSitemaps == old(totalSitemaps) && totalPermalinks == old(totalPermalinks)
          && store.indexes == old(store.indexes)
          && postTypesList == old(postTypesList)
        else
          && Tallied() == CountAll(old(Tallied()), q, slug, maxPermalinksOption)
          && store.indexes == (if index.Some? then old(store.indexes)[key := index.value] else old(store.indexes) - {key})
    {
      BuildIndex(store, q);
      match PA.Get(index.GetOr([]), id)
      case None => exists_ := false;
      case Some(n) => exists_ := number <= n;
    }
  }

  lemma FirstIndexedAt(postTypes: seq<string>, index: Option<Index>, i: nat)
    requires i < |postTypes| && postTypes[i] in PA.Keys(index.GetOr([]))
    requires forall j :: 0 <= j < i ==> postTypes[j] !in PA.Keys(index.GetOr([]))
    ensures FirstIndexed(postTypes, index) == Some(postTypes[i])
    decreases i
  {
    if i > 0 {
      FirstIndexedAt(postTypes[1..], index, i - 1);
    }
  }

  lemma FirstIndexedNone(postTypes: seq<string>, index: Option<Index>)
    requires forall j :: 0 <= j < |postTypes| ==> postTypes[j] !in PA.Keys(index.GetOr([]))
    ensures FirstIndexed(postTypes, index) == None
  {
  }
}
