/**
 * The plugin's non-autoloaded options, the rows the sitemap pipeline reads
 * and writes between requests: the index of sitemaps of each slug, the
 * metrics of each slug and the ping state of each sitemap. The database
 * class that persists them is not part of this model; a row that holds no
 * array (never written, or written as `null`) is an absent key.
 */
module OptionStore {
  import PA = PhpArray

  /** Each content type with its number of sitemap files, in index order. */
  type Index = seq<(string, int)>

  /**
   * The `metrics` option of one slug: its scalar entries, its
   * `metrics_per_document` arrays (each keyed by document) and its
   * `metrics_are_fresh` flag. Runtimes are carried as integers.
   */
  datatype Metrics = Metrics(values: map<string, int>, perDocument: seq<(string, seq<(PA.Key, int)>)>, areFresh: bool)

  /** What `getNonAutoloadOption('metrics', array(), $slug)` yields when nothing is stored. */
  const NoMetrics := Metrics(map[], [], false)

  /** The persisted fields of a `PingState`. */
  datatype PingRecord = PingRecord(sitemapID: string, code: string, latestTime: int, times: seq<int>)

  class Store {
    /** `{slug}_index` rows. */
    var indexes: map<string, Index>
    /** `metrics` rows, by slug. */
    var metrics: map<string, Metrics>
    /** `pingState` rows, by sitemap ID. */
    var pingStates: map<string, PingRecord>

    constructor ()
      ensures indexes == map[] && metrics == map[] && pingStates == map[]
    {
      indexes := map[];
      metrics := map[];
      pingStates := map[];
    }

    /** The metrics of `slug`, or the empty array. */
    function MetricsOf(slug: string): (m: Metrics)
      reads this
      ensures slug in metrics ==> m == metrics[slug]
      ensures slug !in metrics ==> m == NoMetrics
    {
      if slug in metrics then metrics[slug] else NoMetrics
    }
  }
}
