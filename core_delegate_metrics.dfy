/**
 * `updateMetrics` and `computeMetricsAverageValues`: after a sitemap, the
 * index of sitemaps or a page of the Site Tree has been served, the
 * delegate records how many queries the builder ran and how long it took,
 * for the document served and for its content as a whole, and refreshes the
 * averages over all the documents measured so far.
 */
module DelegateMetrics {
  import opened Wrappers
  import opened Text
  import PA = PhpArray
  import opened OptionStore

  /** What a builder reports after `build`: its sitemap slug and its `num_queries` and `runtime` metrics. */
  datatype BuildReport = BuildReport(sitemapSlug: string, numQueries: int, runtime: int)

  /**
   * What the indexer reports: the UID of the requested file, whether the
   * index was built during this request, and its totals (the number of
   * images is an input here; its query is not part of this model).
   */
  datatype IndexReport = IndexReport(uid: string, justBuilt: bool, totalSitemaps: int, totalPermalinks: int, totalImages: int)

  /** What the Site Tree page reports: the requested page and the paginator's totals. */
  datatype PageReport = PageReport(pageNumber: int, totalItems: int, numberOfPages: int)

  /** The per-document arrays `updateMetrics` keeps. */
  predicate DocumentName(name: string)
  {
    name == "num_queries" || name == "runtime"
  }

  /**
   * The shape every stored metrics row keeps: one array per document
   * metric, none of them empty, so every average has something to divide by.
   */
  predicate WellFormed(m: Metrics)
  {
    && PA.DistinctKeys(m.perDocument)
    && forall d :: d in m.perDocument ==> DocumentName(d.0) && d.1 != []
  }

  /** Every metrics row is well formed. */
  predicate RowsWellFormed(rows: map<string, Metrics>)
  {
    forall slug :: slug in rows ==> WellFormed(rows[slug])
  }

  /** Every metrics row of the store is well formed. */
  predicate StoreWellFormed(store: Store)
    reads store
  {
    RowsWellFormed(store.metrics)
  }

  lemma RowsWellFormedUpdate(rows: map<string, Metrics>, slug: string, m: Metrics)
    requires RowsWellFormed(rows) && WellFormed(m)
    ensures RowsWellFormed(rows[slug := m])
  {
  }

  lemma StoredRowWellFormed(store: Store, slug: string)
    requires StoreWellFormed(store)
    ensures WellFormed(store.MetricsOf(slug))
  {
  }

  /** `$metrics['metrics_per_document'][$name][$key]`, when it is set. */
  function DocumentValue(m: Metrics, name: string, key: PA.Key): Option<int>
  {
    match PA.Get(m.perDocument, name)
    case Some(a) => PA.Get(a, key)
    case None => None
  }

  /** `$metrics['metrics_per_document'][$name][$key] = $v`, creating the arrays on the way. */
  function Record(m: Metrics, name: string, key: PA.Key, v: int): Metrics
  {
    m.(perDocument := PA.RawSet(m.perDocument, name, PA.RawSet(PA.Get(m.perDocument, name).GetOr([]), key, v)))
  }

  /** Recording sets exactly one per-document value and keeps the row well formed. */
  lemma RecordFacts(m: Metrics, name: string, key: PA.Key, v: int)
    requires WellFormed(m) && DocumentName(name)
    ensures var r := Record(m, name, key, v);
      && WellFormed(r) && r.values == m.values && r.areFresh == m.areFresh
      && DocumentValue(r, name, key) == Some(v)
      && (forall name', key' :: name' != name || key' != key ==> DocumentValue(r, name', key') == DocumentValue(m, name', key'))
  {
    var before := PA.Get(m.perDocument, name).GetOr([]);
    var a := PA.RawSet(before, key, v);
    var r := Record(m, name, key, v);
    PA.SetFacts(before, key, v);
    PA.SetFacts(m.perDocument, name, a);
    assert a != [] by {
      PA.GetFacts(a, key);
    }
    forall d | d in r.perDocument ensures DocumentName(d.0) && d.1 != [] {
      RawSetEntry(m.perDocument, name, a, d);
    }
    forall name', key' | name' != name || key' != key
      ensures DocumentValue(r, name', key') == DocumentValue(m, name', key')
    {
      if name' == name {
        assert PA.Get(r.perDocument, name) == Some(a);
        if PA.Get(m.perDocument, name).None? {
          PA.GetFacts(a, key');
          assert PA.Keys(before) == [];
        }
      }
    }
  }

  /** An entry of `$a` after `$a[$k] = $v` is the new one or an old one. */
  lemma {:induction false} RawSetEntry<K, V>(a: seq<(K, V)>, k: K, v: V, e: (K, V))
    requires e in PA.RawSet(a, k, v)
    ensures e == (k, v) || e in a
  {
    if a != [] && a[0].0 != k && e != a[0] {
      assert e in PA.RawSet(a[1..], k, v);
      RawSetEntry(a[1..], k, v, e);
    } else if a != [] && a[0].0 == k && e != (k, v) {
      assert e in a[1..];
    }
  }

  // ----- averages -----

  /** The key of the average of a document metric. */
  function AverageKey(name: string): string
  {
    "avg_" + name
  }

  /** `ceil($sum / $num_values)` over one per-document array, and the metric's own entry removed. */
  function Average(values: map<string, int>, doc: (string, seq<(PA.Key, int)>)): map<string, int>
    requires doc.1 != []
  {
    values[AverageKey(doc.0) := CeilDiv(PA.SumValues(doc.1), |doc.1|)] - {doc.0}
  }

  /** Averaging one metric stores its mean and removes the metric. */
  lemma AverageOwn(values: map<string, int>, doc: (string, seq<(PA.Key, int)>))
    requires doc.1 != []
    ensures var r := Average(values, doc);
      AverageKey(doc.0) in r && r[AverageKey(doc.0)] == CeilDiv(PA.SumValues(doc.1), |doc.1|) && doc.0 !in r
  {
    assert |AverageKey(doc.0)| == |doc.0| + 4;
  }

  /** Averaging one metric keeps every other entry. */
  lemma AverageOther(values: map<string, int>, doc: (string, seq<(PA.Key, int)>), k: string)
    requires doc.1 != [] && k != AverageKey(doc.0) && k != doc.0
    ensures var r := Average(values, doc);
      (k in r <==> k in values) && (k in values ==> r[k] == values[k])
  {
  }

  /** The scalar entries after `computeMetricsAverageValues`: each document metric, in order, replaced by its average. */
  function Averaged(values: map<string, int>, docs: seq<(string, seq<(PA.Key, int)>)>): map<string, int>
    requires forall d :: d in docs ==> d.1 != []
  {
    if docs == [] then values
    else Average(Averaged(values, docs[..|docs| - 1]), docs[|docs| - 1])
  }

  /** The entries a document metric's average or removal never touches. */
  predicate Untouched(key: string)
  {
    key != "num_queries" && key != "runtime" && key != AverageKey("num_queries") && key != AverageKey("runtime")
  }

  lemma AverageKeysDiffer(a: string, b: string)
    requires AverageKey(a) == AverageKey(b)
    ensures a == b
  {
    assert AverageKey(a)[4..] == a && AverageKey(b)[4..] == b;
  }

  lemma AverageKeyIsNotAName(a: string, b: string)
    requires b == [] || b[0] != 'a'
    ensures AverageKey(a) != b
  {
    assert AverageKey(a)[0] == 'a';
  }

  /** Each document metric ends up as the ceiling of its mean, under its `avg_` key, and is itself removed. */
  lemma {:induction false} AveragedAt(values: map<string, int>, docs: seq<(string, seq<(PA.Key, int)>)>, d: (string, seq<(PA.Key, int)>))
    requires PA.DistinctKeys(docs)
    requires forall e :: e in docs ==> DocumentName(e.0) && e.1 != []
    requires d in docs
    ensures var r := Averaged(values, docs);
      AverageKey(d.0) in r && r[AverageKey(d.0)] == CeilDiv(PA.SumValues(d.1), |d.1|) && d.0 !in r
    decreases |docs|
  {
    var front := docs[..|docs| - 1];
    var last := docs[|docs| - 1];
    assert docs == front + [last];
    var p := Averaged(values, front);
    AverageKeyIsNotAName(d.0, last.0);
    AverageKeyIsNotAName(last.0, d.0);
    if d != last {
      assert d in front;
      var i :| 0 <= i < |front| && front[i] == d;
      assert docs[i] == d && i != |docs| - 1;
      assert d.0 != last.0;
      assert AverageKey(d.0) != AverageKey(last.0) by {
        if AverageKey(d.0) == AverageKey(last.0) {
          AverageKeysDiffer(d.0, last.0);
        }
      }
      assert PA.DistinctKeys(front);
      assert forall e :: e in front ==> e in docs;
      AveragedAt(values, front, d);
      AverageOther(p, last, AverageKey(d.0));
      AverageOther(p, last, d.0);
    } else {
      AverageOwn(p, last);
    }
  }

  /** Averaging keeps every entry that is neither a document metric nor one of their averages. */
  lemma {:induction false} AveragedKeeps(values: map<string, int>, docs: seq<(string, seq<(PA.Key, int)>)>, k: string)
    requires forall e :: e in docs ==> DocumentName(e.0) && e.1 != []
    requires Untouched(k)
    ensures var r := Averaged(values, docs);
      (k in r <==> k in values) && (k in values ==> r[k] == values[k])
    decreases |docs|
  {
    if docs != [] {
      var front := docs[..|docs| - 1];
      var last := docs[|docs| - 1];
      assert docs == front + [last];
      assert last in docs;
      AveragedKeeps(values, front, k);
      AverageOther(Averaged(values, front), last, k);
    }
  }

  /**
   * `computeMetricsAverageValues`: for each per-document array, sums and
   * counts its values, stores the rounded-up mean under `avg_{name}` and
   * removes the scalar entry `{name}`.
   */
  method ComputeAverages(m: Metrics) returns (r: Metrics)
    requires forall d :: d in m.perDocument ==> d.1 != []
    ensures r == m.(values := Averaged(m.values, m.perDocument))
  {
    var docs := m.perDocument;
    r := m;
    var k := 0;
    while k < |docs|
      invariant 0 <= k <= |docs|
      invariant forall d :: d in docs[..k] ==> d in docs
      invariant r == m.(values := Averaged(m.values, docs[..k]))
    {
      var name := docs[k].0;
      var values := docs[k].1;
      var sum := 0;
      var count := 0;
      var j := 0;
      while j < |values|
        invariant 0 <= j <= |values| && count == j
        invariant sum == PA.SumValues(values[..j])
      {
        PA.SumValuesAppend(values[..j], [values[j]]);
        Text.TakeSnoc(values, j);
        count := count + 1;
        sum := sum + values[j].1;
        j := j + 1;
      }
      assert values[..j] == values;
      assert docs[k] in docs;
      assert docs[..k + 1][..k] == docs[..k] && docs[..k + 1][k] == docs[k];
      r := r.(values := r.values[AverageKey(name) := CeilDiv(sum, count)] - {name});
      k := k + 1;
    }
    assert docs[..k] == docs;
  }

  // ----- updateMetrics -----

  /** `$sitemap_slug`: the requested slug, or else the builder's, or else `''`. */
  function MetricsSlug(requestedSlug: string, builder: Option<BuildReport>): string
  {
    if PA.TruthyString(requestedSlug) then requestedSlug
    else
      match builder
      case Some(b) => b.sitemapSlug
      case None => ""
  }

  /** The key of the served document: the UID of a sitemap file, the page number of the Site Tree. */
  function DocumentKey(slug: string, ix: IndexReport, pg: PageReport): PA.Key
  {
    if slug == "site_tree" then PA.IntKey(pg.pageNumber) else PA.KeyOfString(ix.uid)
  }

  /** The total whose being above 1 makes averages worth computing. */
  function TotalKey(slug: string): string
  {
    if slug == "site_tree" then "tot_pages" else "tot_sitemaps"
  }

  /** The totals recorded when the index (or the Site Tree's pagination) has just been built. */
  function WithTotals(m: Metrics, slug: string, ix: IndexReport, pg: PageReport): Metrics
  {
    if slug == "site_tree" then
      if pg.totalItems > 0 then m.(values := m.values["tot_pages" := pg.numberOfPages]["tot_items" := pg.totalItems]) else m
    else if ix.justBuilt then
      var v := m.values["tot_sitemaps" := ix.totalSitemaps]["tot_items" := ix.totalPermalinks];
      m.(values := if slug == "sitemap" then v["tot_images" := ix.totalImages] else v)
    else m
  }

  /** The builder's metrics, stored as the latest ones and as those of the served document. */
  function Recorded(m: Metrics, key: PA.Key, b: BuildReport): Metrics
  {
    var latest := m.(values := m.values["num_queries" := b.numQueries]["runtime" := b.runtime]);
    Record(Record(latest, "runtime", key, b.runtime), "num_queries", key, b.numQueries)
  }

  lemma RecordedFacts(m: Metrics, key: PA.Key, b: BuildReport)
    requires WellFormed(m)
    ensures var r := Recorded(m, key, b);
      && WellFormed(r) && r.areFresh == m.areFresh
      && r.values == m.values["num_queries" := b.numQueries]["runtime" := b.runtime]
      && DocumentValue(r, "num_queries", key) == Some(b.numQueries)
      && DocumentValue(r, "runtime", key) == Some(b.runtime)
      && (forall name, key' :: key' != key ==> DocumentValue(r, name, key') == DocumentValue(m, name, key'))
  {
    var latest := m.(values := m.values["num_queries" := b.numQueries]["runtime" := b.runtime]);
    RecordFacts(latest, "runtime", key, b.runtime);
    RecordFacts(Record(latest, "runtime", key, b.runtime), "num_queries", key, b.numQueries);
  }

  /** Averages when there is more than one document, otherwise no averages at all. */
  function Refreshed(m: Metrics, total: string): Metrics
    requires WellFormed(m)
  {
    if total in m.values && m.values[total] > 1 then m.(values := Averaged(m.values, m.perDocument))
    else m.(values := m.values - {AverageKey("num_queries"), AverageKey("runtime")})
  }

  /** The end of every write: the time of computation and the freshness flag. */
  function Stamped(m: Metrics, now: int): Metrics
  {
    m.(values := m.values["metrics_computed_on" := now], areFresh := true)
  }

  /**
   * The row `updateMetrics` writes for `slug`, or `None` when it writes
   * nothing: fresh metrics already hold the served document (a sitemap
   * index is never re-measured while they are fresh), or the slug is none
   * of `sitemap`, `newsmap` and `site_tree`.
   */
  function MergedMetrics(stored: Metrics, slug: string, builder: Option<BuildReport>, ix: IndexReport, pg: PageReport, now: int): Option<Metrics>
    requires WellFormed(stored)
    requires slug == "site_tree" ==> builder.Some?
  {
    var key := DocumentKey(slug, ix, pg);
    if slug != "sitemap" && slug != "newsmap" && slug != "site_tree" then None
    else if stored.areFresh && (builder.None? || DocumentValue(stored, "num_queries", key).Some?) then None
    else
      var totals := WithTotals(stored, slug, ix, pg);
      match builder
      case None => Some(Stamped(totals, now))
      case Some(b) =>
        RecordedFacts(totals, key, b);
        Some(Stamped(Refreshed(Recorded(totals, key, b), TotalKey(slug)), now))
  }

  /** Every row `updateMetrics` writes is well formed, fresh and stamped with the time of the write. */
  lemma MergedMetricsFresh(stored: Metrics, slug: string, builder: Option<BuildReport>, ix: IndexReport, pg: PageReport, now: int)
    requires WellFormed(stored)
    requires slug == "site_tree" ==> builder.Some?
    ensures match MergedMetrics(stored, slug, builder, ix, pg, now)
      case Some(m) => WellFormed(m) && m.areFresh && "metrics_computed_on" in m.values && m.values["metrics_computed_on"] == now
      case None => true
  {
    var key := DocumentKey(slug, ix, pg);
    var totals := WithTotals(stored, slug, ix, pg);
    assert WellFormed(totals);
    if builder.Some? {
      RecordedFacts(totals, key, builder.value);
    }
  }

  /**
   * A row is written exactly for the three slugs that have metrics, and only
   * when the stored metrics are stale or, for a sitemap file or a page of
   * the Site Tree, when they do not hold the served document yet.
   */
  lemma MetricsWrittenUnlessFresh(stored: Metrics, slug: string, builder: Option<BuildReport>, ix: IndexReport, pg: PageReport, now: int)
    requires WellFormed(stored)
    requires slug == "site_tree" ==> builder.Some?
    ensures MergedMetrics(stored, slug, builder, ix, pg, now).Some?
        <==> && (slug == "sitemap" || slug == "newsmap" || slug == "site_tree")
             && (!stored.areFresh || (builder.Some? && DocumentValue(stored, "num_queries", DocumentKey(slug, ix, pg)).None?))
  {
  }

  /**
   * Once a document has been measured, another request for the same
   * document leaves the row alone until the metrics are marked stale; so
   * does another request for the index of sitemaps.
   */
  lemma MetricsMeasuredOnce(stored: Metrics, slug: string, builder: Option<BuildReport>, ix: IndexReport, pg: PageReport, now: int,
                            builder': Option<BuildReport>, ix': IndexReport, pg': PageReport, now': int)
    requires WellFormed(stored)
    requires slug == "site_tree" ==> builder.Some? && builder'.Some?
    requires MergedMetrics(stored, slug, builder, ix, pg, now).Some?
    requires DocumentKey(slug, ix', pg') == DocumentKey(slug, ix, pg)
    requires builder.Some? || builder'.None?
    ensures var m := MergedMetrics(stored, slug, builder, ix, pg, now).value;
      WellFormed(m) && MergedMetrics(m, slug, builder', ix', pg', now').None?
  {
    MergedMetricsFresh(stored, slug, builder, ix, pg, now);
    if builder.Some? {
      RecordedFacts(WithTotals(stored, slug, ix, pg), DocumentKey(slug, ix, pg), builder.value);
    }
  }

  /**
   * A builder's metrics are stored as those of the served document and no
   * other document's entry changes; serving the index of sitemaps leaves
   * the per-document arrays as they were.
   */
  lemma MergedMetricsRecordDocument(stored: Metrics, slug: string, builder: Option<BuildReport>, ix: IndexReport, pg: PageReport, now: int, m: Metrics)
    requires WellFormed(stored)
    requires slug == "site_tree" ==> builder.Some?
    requires MergedMetrics(stored, slug, builder, ix, pg, now) == Some(m)
    ensures var key := DocumentKey(slug, ix, pg);
      match builder
      case Some(b) =>
        && DocumentValue(m, "num_queries", key) == Some(b.numQueries)
        && DocumentValue(m, "runtime", key) == Some(b.runtime)
        && (forall name, key' :: key' != key ==> DocumentValue(m, name, key') == DocumentValue(stored, name, key'))
      case None => m.perDocument == stored.perDocument
  {
    MergedShape(stored, slug, builder, ix, pg, now, m);
    var totals := WithTotals(stored, slug, ix, pg);
    if builder.Some? {
      var r := Recorded(totals, DocumentKey(slug, ix, pg), builder.value);
      RecordedFacts(totals, DocumentKey(slug, ix, pg), builder.value);
      SameDocuments(m, r);
    } else {
      SameDocuments(m, totals);
    }
  }

  lemma SameDocuments(m: Metrics, m': Metrics)
    requires m.perDocument == m'.perDocument
    ensures forall name, key :: DocumentValue(m, name, key) == DocumentValue(m', name, key)
  {
  }

  /** How a written row is made: totals, then the builder's metrics and their averages, then the stamp. */
  lemma MergedShape(stored: Metrics, slug: string, builder: Option<BuildReport>, ix: IndexReport, pg: PageReport, now: int, m: Metrics)
    requires WellFormed(stored)
    requires slug == "site_tree" ==> builder.Some?
    requires MergedMetrics(stored, slug, builder, ix, pg, now) == Some(m)
    ensures var totals := WithTotals(stored, slug, ix, pg);
      && WellFormed(totals) && totals.perDocument == stored.perDocument
      && match builder
         case None => m == Stamped(totals, now)
         case Some(b) => WellFormed(Recorded(totals, DocumentKey(slug, ix, pg), b))
                         && m == Stamped(Refreshed(Recorded(totals, DocumentKey(slug, ix, pg), b), TotalKey(slug)), now)
  {
    if builder.Some? {
      RecordedFacts(WithTotals(stored, slug, ix, pg), DocumentKey(slug, ix, pg), builder.value);
    }
  }

  /** The scalar entries that hold totals. */
  predicate TotalName(t: string)
  {
    t == "tot_sitemaps" || t == "tot_items" || t == "tot_images" || t == "tot_pages"
  }

  lemma TotalsAreNotMetrics(t: string)
    requires TotalName(t)
    ensures Untouched(t) && t != "metrics_computed_on"
  {
    assert t[0] == 't' && AverageKey("num_queries")[0] == 'a' && AverageKey("runtime")[0] == 'a';
  }

  /** Whether this write records fresh totals: the index, or the Site Tree's pagination, has just been built. */
  predicate Rebuilt(slug: string, ix: IndexReport, pg: PageReport)
  {
    if slug == "site_tree" then pg.totalItems > 0 else ix.justBuilt
  }

  /**
   * The totals are recorded when the index has just been built (the number
   * of images for `sitemap` only, the number of pages for the Site Tree),
   * and are otherwise carried over unchanged.
   */
  lemma MergedMetricsTotals(stored: Metrics, slug: string, builder: Option<BuildReport>, ix: IndexReport, pg: PageReport, now: int, m: Metrics, t: string)
    requires WellFormed(stored)
    requires slug == "site_tree" ==> builder.Some?
    requires MergedMetrics(stored, slug, builder, ix, pg, now) == Some(m)
    requires TotalName(t)
    ensures slug == "site_tree" && Rebuilt(slug, ix, pg) ==>
      "tot_pages" in m.values && m.values["tot_pages"] == pg.numberOfPages && "tot_items" in m.values && m.values["tot_items"] == pg.totalItems
    ensures slug != "site_tree" && Rebuilt(slug, ix, pg) ==>
      "tot_sitemaps" in m.values && m.values["tot_sitemaps"] == ix.totalSitemaps && "tot_items" in m.values && m.values["tot_items"] == ix.totalPermalinks
    ensures slug == "sitemap" && Rebuilt(slug, ix, pg) ==> "tot_images" in m.values && m.values["tot_images"] == ix.totalImages
    ensures !Rebuilt(slug, ix, pg) ==> (t in m.values <==> t in stored.values) && (t in stored.values ==> m.values[t] == stored.values[t])
  {
    MergedShape(stored, slug, builder, ix, pg, now, m);
    var totals := WithTotals(stored, slug, ix, pg);
    WithTotalsFacts(stored, slug, ix, pg, t);
    forall u | TotalName(u)
      ensures (u in m.values <==> u in totals.values) && (u in totals.values ==> m.values[u] == totals.values[u])
    {
      TotalsKept(totals, slug, builder, DocumentKey(slug, ix, pg), now, m, u);
    }
  }

  lemma WithTotalsFacts(stored: Metrics, slug: string, ix: IndexReport, pg: PageReport, t: string)
    requires TotalName(t)
    ensures var m := WithTotals(stored, slug, ix, pg);
      && (slug == "site_tree" && Rebuilt(slug, ix, pg) ==>
            "tot_pages" in m.values && m.values["tot_pages"] == pg.numberOfPages && "tot_items" in m.values && m.values["tot_items"] == pg.totalItems)
      && (slug != "site_tree" && Rebuilt(slug, ix, pg) ==>
            "tot_sitemaps" in m.values && m.values["tot_sitemaps"] == ix.totalSitemaps && "tot_items" in m.values && m.values["tot_items"] == ix.totalPermalinks)
      && (slug == "sitemap" && Rebuilt(slug, ix, pg) ==> "tot_images" in m.values && m.values["tot_images"] == ix.totalImages)
      && (!Rebuilt(slug, ix, pg) ==> m == stored)
  {
    if slug == "sitemap" {
      assert "tot_images" != "tot_items" && "tot_images" != "tot_sitemaps";
    }
  }

  /** Recording, averaging and stamping keep every total. */
  lemma TotalsKept(totals: Metrics, slug: string, builder: Option<BuildReport>, key: PA.Key, now: int, m: Metrics, u: string)
    requires WellFormed(totals) && TotalName(u)
    requires match builder
      case None => m == Stamped(totals, now)
      case Some(b) => WellFormed(Recorded(totals, key, b)) && m == Stamped(Refreshed(Recorded(totals, key, b), TotalKey(slug)), now)
    ensures (u in m.values <==> u in totals.values) && (u in totals.values ==> m.values[u] == totals.values[u])
  {
    TotalsAreNotMetrics(u);
    if builder.Some? {
      var r := Recorded(totals, key, builder.value);
      AveragedKeeps(r.values, r.perDocument, u);
    }
  }

  /**
   * With more than one document the averages of both document metrics
   * replace the latest values; otherwise the latest values stay and no
   * average is kept.
   */
  lemma MergedMetricsAverages(stored: Metrics, slug: string, b: BuildReport, ix: IndexReport, pg: PageReport, now: int, m: Metrics)
    requires WellFormed(stored)
    requires MergedMetrics(stored, slug, Some(b), ix, pg, now) == Some(m)
    ensures var total := TotalKey(slug);
      if total in m.values && m.values[total] > 1 then
        && "num_queries" !in m.values && "runtime" !in m.values
        && forall d :: d in m.perDocument ==> d.1 != [] && AverageKey(d.0) in m.values && m.values[AverageKey(d.0)] == CeilDiv(PA.SumValues(d.1), |d.1|)
      else
        && AverageKey("num_queries") !in m.values && AverageKey("runtime") !in m.values
        && "num_queries" in m.values && m.values["num_queries"] == b.numQueries
        && "runtime" in m.values && m.values["runtime"] == b.runtime
  {
    MergedShape(stored, slug, Some(b), ix, pg, now, m);
    var key := DocumentKey(slug, ix, pg);
    var totals := WithTotals(stored, slug, ix, pg);
    RecordedFacts(totals, key, b);
    RefreshedAverages(Recorded(totals, key, b), key, b, TotalKey(slug), now, m);
  }

  lemma RefreshedAverages(r: Metrics, key: PA.Key, b: BuildReport, total: string, now: int, m: Metrics)
    requires WellFormed(r) && TotalName(total)
    requires "num_queries" in r.values && r.values["num_queries"] == b.numQueries
    requires "runtime" in r.values && r.values["runtime"] == b.runtime
    requires DocumentValue(r, "num_queries", key).Some? && DocumentValue(r, "runtime", key).Some?
    requires m == Stamped(Refreshed(r, total), now)
    ensures if total in m.values && m.values[total] > 1 then
        && "num_queries" !in m.values && "runtime" !in m.values
        && forall d :: d in m.perDocument ==> d.1 != [] && AverageKey(d.0) in m.values && m.values[AverageKey(d.0)] == CeilDiv(PA.SumValues(d.1), |d.1|)
      else
        && AverageKey("num_queries") !in m.values && AverageKey("runtime") !in m.values
        && "num_queries" in m.values && m.values["num_queries"] == b.numQueries
        && "runtime" in m.values && m.values["runtime"] == b.runtime
  {
    TotalsAreNotMetrics(total);
    AveragedKeeps(r.values, r.perDocument, total);
    if total in r.values && r.values[total] > 1 {
      forall d | d in m.perDocument
        ensures d.1 != [] && AverageKey(d.0) in m.values && m.values[AverageKey(d.0)] == CeilDiv(PA.SumValues(d.1), |d.1|) && d.0 !in m.values
      {
        AveragedAt(r.values, r.perDocument, d);
        assert AverageKey(d.0)[0] == 'a';
      }
      DocumentPresent(r, "num_queries", key);
      DocumentPresent(r, "runtime", key);
    } else {
      assert AverageKey("num_queries")[0] == 'a' && AverageKey("runtime")[0] == 'a';
    }
  }

  /** A set per-document value comes from an entry of `metrics_per_document` under that name. */
  lemma DocumentPresent(m: Metrics, name: string, key: PA.Key)
    requires DocumentValue(m, name, key).Some?
    ensures exists d :: d in m.perDocument && d.0 == name
  {
    PA.GetFacts(m.perDocument, name);
    var i :| 0 <= i < |m.perDocument| && m.perDocument[i] == (name, PA.Get(m.perDocument, name).value);
    assert m.perDocument[i] in m.perDocument;
  }

  /**
   * `updateMetrics`: reads the slug's metrics row, leaves it alone when it
   * is already fresh for the served document, and otherwise records the
   * totals, the builder's metrics and their averages, stamps the row and
   * writes it back. Returns whether it wrote.
   */
  method UpdateMetrics(store: Store, requestedSlug: string, builder: Option<BuildReport>, ix: IndexReport, pg: PageReport, now: int)
      returns (written: bool)
    requires StoreWellFormed(store)
    requires MetricsSlug(requestedSlug, builder) == "site_tree" ==> builder.Some?
    modifies store`metrics
    ensures StoreWellFormed(store)
    ensures var slug := MetricsSlug(requestedSlug, builder);
      var merged := MergedMetrics(old(store.MetricsOf(slug)), slug, builder, ix, pg, now);
      && written == merged.Some?
      && store.metrics == if merged.Some? then old(store.metrics)[slug := merged.value] else old(store.metrics)
  {
    var slug := MetricsSlug(requestedSlug, builder);
    var metrics := store.MetricsOf(slug);
    ghost var stored := metrics;
    StoredRowWellFormed(store, slug);
    var key := DocumentKey(slug, ix, pg);
    if slug == "sitemap" || slug == "newsmap" {
      if metrics.areFresh && (builder.None? || DocumentValue(metrics, "num_queries", key).Some?) {
        return false;
      }
      metrics := WithTotals(metrics, slug, ix, pg);
    } else if slug == "site_tree" {
      if metrics.areFresh && DocumentValue(metrics, "num_queries", key).Some? {
        return false;
      }
      metrics := WithTotals(metrics, slug, ix, pg);
    } else {
      return false;
    }
    if builder.Some? {
      RecordedFacts(metrics, key, builder.value);
      metrics := Recorded(metrics, key, builder.value);
      var total := TotalKey(slug);
      if total in metrics.values && metrics.values[total] > 1 {
        metrics := ComputeAverages(metrics);
      } else {
        metrics := metrics.(values := metrics.values - {AverageKey("num_queries"), AverageKey("runtime")});
      }
    }
    metrics := Stamped(metrics, now);
    assert MergedMetrics(stored, slug, builder, ix, pg, now) == Some(metrics);
    MergedMetricsFresh(stored, slug, builder, ix, pg, now);
    RowsWellFormedUpdate(store.metrics, slug, metrics);
    store.metrics := store.metrics[slug := metrics];
    written := true;
  }
}
