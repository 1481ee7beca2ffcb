/** services/monitoring.py: the bookkeeping of `MetricsCollector` — per-user
    activity histories, download and cache counters, error counters, named
    performance series — and the figures computed from them (percentiles,
    rates, the most frequent errors). Timestamps are whole seconds passed in
    as `now`; measured values are integers. */
module Monitoring {
  import opened Common

  /** At most this many activities are kept per user. */
  const MaxActivities := 100

  /** At most this many values are kept per performance series. */
  const MaxSeriesLength := 1000

  /** Activities are kept for thirty days. */
  const ActivityRetention := 30 * 24 * 3600

  /** The series `record_download` appends durations to. */
  const DownloadTime := "download_time"

  /** Python's `str[:50]` length of an error's message in its detail key. */
  const DetailLength := 50

  /** `d[k]` of a `defaultdict(int)`. */
  function Count(m: map<string, nat>, k: string): nat
  {
    if k in m then m[k] else 0
  }

  /** `d[k] += 1` on a `defaultdict(int)`. */
  function Inc(m: map<string, nat>, k: string): (r: map<string, nat>)
    ensures r.Keys == m.Keys + {k}
    ensures forall j :: Count(r, j) == Count(m, j) + (if j == k then 1 else 0)
  {
    m[k := Count(m, k) + 1]
  }

  /** `d[k]` of a `defaultdict(list)`. */
  function Series<K>(m: map<K, seq<int>>, k: K): seq<int>
  {
    if k in m then m[k] else []
  }

  /** The key `f"{error_type}:{error_message[:50]}"`. It is always a different
      key from the type itself. */
  function DetailKey(errorType: string, message: string): (r: string)
    ensures r != errorType
  {
    var r := errorType + ":" + Take(message, DetailLength);
    assert |r| > |errorType|;
    r
  }

  // ---------------------------------------------------------------------------
  // Percentiles

  function Identity(x: int): int { x }

  /** `_calculate_percentile` on a series: 0 for no values, otherwise the
      sorted values at index `min(int(n * p / 100), n - 1)`. */
  function Percentile(values: seq<int>, p: nat): int
  {
    var sorted := SortBy(values, Identity);
    if |sorted| == 0 then 0 else sorted[Min(|sorted| * p / 100, |sorted| - 1)]
  }

  /** A percentile of a non-empty series is one of its values, and 0 for an
      empty one. */
  lemma PercentileIsAValue(values: seq<int>, p: nat)
    ensures |values| == 0 ==> Percentile(values, p) == 0
    ensures |values| > 0 ==> Percentile(values, p) in values
  {
    var sorted := SortBy(values, Identity);
    if |values| > 0 {
      var i := Min(|sorted| * p / 100, |sorted| - 1);
      assert Percentile(values, p) == sorted[i];
      assert sorted[i] in multiset(values);
    }
  }

  /** A higher percentile is never smaller. */
  lemma PercentileMonotone(values: seq<int>, p: nat, q: nat)
    requires p <= q
    ensures Percentile(values, p) <= Percentile(values, q)
  {
    var n := |values|;
    if n > 0 {
      assert n * p <= n * q by { MulMonotone(n, p, q); }
      assert n * p / 100 <= n * q / 100;
    }
  }

  lemma MulMonotone(n: nat, p: nat, q: nat)
    requires p <= q
    ensures n * p <= n * q
  {
    assert n * q == n * p + n * (q - p);
  }

  /** The 0th percentile is the smallest value and any percentile of 100 or
      more the largest. */
  lemma PercentileExtremes(values: seq<int>, p: nat)
    requires |values| > 0
    ensures forall v :: v in values ==> Percentile(values, 0) <= v
    ensures p >= 100 ==> forall v :: v in values ==> v <= Percentile(values, p)
  {
    var sorted := SortBy(values, Identity);
    var n := |sorted|;
    forall v | v in values ensures sorted[0] <= v && v <= sorted[n - 1] {
      assert v in multiset(values);
      var j :| 0 <= j < n && sorted[j] == v;
      assert Identity(sorted[0]) <= Identity(sorted[j]);
      assert Identity(sorted[j]) <= Identity(sorted[n - 1]);
    }
    if p >= 100 {
      assert n * p >= n * 100 by { MulMonotone(n, 100, p); }
      assert n * p / 100 >= n;
    }
  }

  // ---------------------------------------------------------------------------
  // Rates

  /** `_calculate_cache_hit_rate`: hits as a percentage of lookups, 0 with no
      lookups. */
  function CacheHitRate(hits: nat, misses: nat): (r: real)
    ensures hits + misses == 0 ==> r == 0.0
    ensures 0.0 <= r <= 100.0
    ensures hits + misses > 0 && misses == 0 ==> r == 100.0
    ensures hits == 0 ==> r == 0.0
  {
    var total := hits + misses;
    if total > 0 then
      assert hits as real <= total as real;
      hits as real / total as real * 100.0
    else 0.0
  }

  /** `_calculate_error_rate`: the failed fraction of downloads, 0 with no
      downloads, at most 1 when no more downloads failed than were made. */
  function ErrorRate(failed: nat, total: nat): (r: real)
    ensures total == 0 ==> r == 0.0
    ensures 0.0 <= r
    ensures failed <= total ==> r <= 1.0
    ensures failed == 0 ==> r == 0.0
  {
    if total > 0 then failed as real / total as real else 0.0
  }

  // ---------------------------------------------------------------------------
  // The most frequent errors

  /** `error_counts.items()` in insertion order. */
  function Items(order: seq<string>, counts: map<string, nat>): (r: seq<(string, nat)>)
    ensures |r| == |order|
    ensures forall i :: 0 <= i < |r| ==> r[i] == (order[i], Count(counts, order[i]))
  {
    if |order| == 0 then [] else [(order[0], Count(counts, order[0]))] + Items(order[1..], counts)
  }

  /** The sort key of `sorted(..., key=count, reverse=True)`. */
  function ByCountDescending(e: (string, nat)): int { -(e.1 as int) }

  /** `_get_top_errors(limit)`: the `limit` first items once sorted by
      decreasing count. */
  function TopErrors(order: seq<string>, counts: map<string, nat>, limit: nat): seq<(string, nat)>
  {
    Take(SortBy(Items(order, counts), ByCountDescending), limit)
  }

  /** At most `limit` entries (fewer only when there are fewer error keys),
      each a recorded key with its count. */
  lemma TopErrorsAreRecorded(order: seq<string>, counts: map<string, nat>, limit: nat)
    requires forall k :: k in order <==> k in counts
    ensures var r := TopErrors(order, counts, limit);
      |r| == Min(limit, |order|)
      && forall i :: 0 <= i < |r| ==> r[i].0 in counts && r[i].1 == counts[r[i].0]
  {
    var items := Items(order, counts);
    var sorted := SortBy(items, ByCountDescending);
    var r := Take(sorted, limit);
    forall i | 0 <= i < |r| ensures r[i].0 in counts && r[i].1 == counts[r[i].0] {
      assert r[i] == sorted[i];
      assert sorted[i] in multiset(items);
      var j :| 0 <= j < |items| && items[j] == sorted[i];
    }
  }

  /** The entries come in non-increasing count order. */
  lemma TopErrorsDescending(order: seq<string>, counts: map<string, nat>, limit: nat)
    ensures var r := TopErrors(order, counts, limit);
      forall i, j :: 0 <= i < j < |r| ==> r[i].1 >= r[j].1
  {
    var sorted := SortBy(Items(order, counts), ByCountDescending);
    var r := Take(sorted, limit);
    forall i, j | 0 <= i < j < |r| ensures r[i].1 >= r[j].1 {
      assert ByCountDescending(sorted[i]) <= ByCountDescending(sorted[j]);
    }
  }

  /** No error left off the list is more frequent than one on it. */
  lemma TopErrorsAreMostFrequent(order: seq<string>, counts: map<string, nat>, limit: nat, k: string)
    requires forall k :: k in order <==> k in counts
    requires k in counts
    requires forall i :: 0 <= i < |TopErrors(order, counts, limit)| ==> TopErrors(order, counts, limit)[i].0 != k
    ensures forall i :: 0 <= i < |TopErrors(order, counts, limit)| ==> counts[k] <= TopErrors(order, counts, limit)[i].1
  {
    var items := Items(order, counts);
    var sorted := SortBy(items, ByCountDescending);
    var r := TopErrors(order, counts, limit);
    assert r == Take(sorted, limit);
    var j :| 0 <= j < |order| && order[j] == k;
    assert items[j] in multiset(sorted);
    var m :| 0 <= m < |sorted| && sorted[m] == items[j];
    assert sorted[m].0 == k;
    assert m >= |r|;
    forall i | 0 <= i < |r| ensures counts[k] <= r[i].1 {
      assert r[i] == sorted[i];
      assert ByCountDescending(sorted[i]) <= ByCountDescending(sorted[m]);
    }
  }

  // ---------------------------------------------------------------------------
  // Cleanup helpers

  /** Every series cut to its last 1000 values. */
  function CapAll(m: map<string, seq<int>>): (r: map<string, seq<int>>)
    ensures r.Keys == m.Keys
    ensures forall k :: k in r ==> |r[k]| <= MaxSeriesLength
  {
    map k | k in m :: Last(m[k], MaxSeriesLength)
  }

  /** The state of the capping loop: series still in `todo` are untouched. */
  function CappedExcept(m: map<string, seq<int>>, todo: set<string>): map<string, seq<int>>
  {
    map k | k in m :: if k in todo then m[k] else Last(m[k], MaxSeriesLength)
  }

  /** One loop step caps one more series. */
  lemma CapStep(m: map<string, seq<int>>, todo: set<string>, k: string)
    requires k in todo && todo <= m.Keys
    ensures CappedExcept(m, todo - {k}) == CappedExcept(m, todo)[k := Last(m[k], MaxSeriesLength)]
  {
  }

  // ---------------------------------------------------------------------------
  // The collector

  class MetricsCollector {
    var userActivity: map<int, seq<int>>
    var downloadStats: map<string, nat>
    var errorCounts: map<string, nat>
    /** The keys of `errorCounts` in insertion order (the order of a Python
        dictionary). */
    var errorOrder: seq<string>
    var performanceMetrics: map<string, seq<int>>

    /** Every user's history is non-empty and bounded; no more downloads
        failed than were recorded; `errorOrder` lists each error key once. */
    ghost predicate Valid()
      reads this
    {
      (forall u :: u in userActivity ==> 0 < |userActivity[u]| <= MaxActivities)
      && Count(downloadStats, "failed") <= Count(downloadStats, "total")
      && NoDup(errorOrder)
      && (forall k :: k in errorOrder <==> k in errorCounts)
    }

    constructor ()
      ensures userActivity == map[] && downloadStats == map[] && errorCounts == map[]
      ensures errorOrder == [] && performanceMetrics == map[]
      ensures Valid()
    {
      userActivity := map[];
      downloadStats := map[];
      errorCounts := map[];
      errorOrder := [];
      performanceMetrics := map[];
    }

    /** `record_user_activity`: the time is appended and only the 100 most
        recent entries kept. */
    method RecordUserActivity(user: int, now: int)
      requires Valid()
      modifies this
      ensures Valid()
      ensures userActivity == old(userActivity)[user := Last(Series(old(userActivity), user) + [now], MaxActivities)]
      ensures userActivity[user][|userActivity[user]| - 1] == now
      ensures downloadStats == old(downloadStats) && errorCounts == old(errorCounts)
      ensures errorOrder == old(errorOrder) && performanceMetrics == old(performanceMetrics)
    {
      userActivity := userActivity[user := Last(Series(userActivity, user) + [now], MaxActivities)];
    }

    /** `record_download`: the total and the status counters each grow by one
        (the same counter by two when the status is "total"), and a positive
        duration is appended to the download-time series, which this does not
        cap. */
    method RecordDownload(status: string, duration: int)
      requires Valid()
      modifies this
      ensures Valid()
      ensures downloadStats.Keys == old(downloadStats).Keys + {"total", status}
      ensures forall k :: (Count(downloadStats, k) ==
        Count(old(downloadStats), k) + (if k == "total" then 1 else 0) + (if k == status then 1 else 0))
      ensures performanceMetrics == if duration > 0
        then old(performanceMetrics)[DownloadTime := Series(old(performanceMetrics), DownloadTime) + [duration]]
        else old(performanceMetrics)
      ensures userActivity == old(userActivity) && errorCounts == old(errorCounts)
      ensures errorOrder == old(errorOrder)
    {
      downloadStats := Inc(Inc(downloadStats, "total"), status);
      if duration > 0 {
        performanceMetrics := performanceMetrics[DownloadTime := Series(performanceMetrics, DownloadTime) + [duration]];
      }
    }

    /** `record_cache_hit`. */
    method RecordCacheHit()
      requires Valid()
      modifies this
      ensures Valid()
      ensures downloadStats == Inc(old(downloadStats), "cache_hits")
      ensures userActivity == old(userActivity) && errorCounts == old(errorCounts)
      ensures errorOrder == old(errorOrder) && performanceMetrics == old(performanceMetrics)
    {
      downloadStats := Inc(downloadStats, "cache_hits");
    }

    /** `record_cache_miss`. */
    method RecordCacheMiss()
      requires Valid()
      modifies this
      ensures Valid()
      ensures downloadStats == Inc(old(downloadStats), "cache_misses")
      ensures userActivity == old(userActivity) && errorCounts == old(errorCounts)
      ensures errorOrder == old(errorOrder) && performanceMetrics == old(performanceMetrics)
    {
      downloadStats := Inc(downloadStats, "cache_misses");
    }

    /** `record_error`: the type's counter and its detail key's counter each
        grow by one; new keys join the insertion order. */
    method RecordError(errorType: string, message: string)
      requires Valid()
      modifies this
      ensures Valid()
      ensures var detail := DetailKey(errorType, message);
        (forall k :: Count(errorCounts, k) ==
           Count(old(errorCounts), k) + (if k == errorType || k == detail then 1 else 0))
        && errorCounts.Keys == old(errorCounts).Keys + {errorType, detail}
        && errorOrder == AppendNew(AppendNew(old(errorOrder), errorType), detail)
      ensures userActivity == old(userActivity) && downloadStats == old(downloadStats)
      ensures performanceMetrics == old(performanceMetrics)
    {
      var detail := DetailKey(errorType, message);
      errorCounts := Inc(Inc(errorCounts, errorType), detail);
      errorOrder := AppendNew(AppendNew(errorOrder, errorType), detail);
    }

    /** `record_performance_metric`: the value is appended and only the last
        1000 values kept. */
    method RecordPerformanceMetric(name: string, value: int)
      requires Valid()
      modifies this
      ensures Valid()
      ensures performanceMetrics ==
        old(performanceMetrics)[name := Last(Series(old(performanceMetrics), name) + [value], MaxSeriesLength)]
      ensures performanceMetrics[name][|performanceMetrics[name]| - 1] == value
      ensures userActivity == old(userActivity) && downloadStats == old(downloadStats)
      ensures errorCounts == old(errorCounts) && errorOrder == old(errorOrder)
    {
      performanceMetrics := performanceMetrics[name := Last(Series(performanceMetrics, name) + [value], MaxSeriesLength)];
    }

    /** The activity loop of `_cleanup_old_data`: histories cut to thirty days,
        users left with none deleted. */
    method PruneUserActivity(now: int)
      requires Valid()
      modifies this
      ensures Valid()
      ensures userActivity == PruneAll(old(userActivity), now, ActivityRetention)
      ensures downloadStats == old(downloadStats) && errorCounts == old(errorCounts)
      ensures errorOrder == old(errorOrder) && performanceMetrics == old(performanceMetrics)
    {
      ghost var m0 := userActivity;
      var todo := userActivity.Keys;
      while todo != {}
        invariant todo <= m0.Keys
        invariant userActivity == PrunedExcept(m0, todo, now, ActivityRetention)
        invariant downloadStats == old(downloadStats) && errorCounts == old(errorCounts)
        invariant errorOrder == old(errorOrder) && performanceMetrics == old(performanceMetrics)
        decreases |todo|
      {
        ghost var w := Pick(todo);
        var u :| u in todo;
        PruneStep(m0, todo, now, ActivityRetention, u);
        userActivity := userActivity[u := Recent(userActivity[u], now, ActivityRetention)];
        if userActivity[u] == [] {
          userActivity := userActivity - {u};
        }
        todo := todo - {u};
      }
      assert userActivity == PruneAll(m0, now, ActivityRetention);
      PruneAllProperties(m0, now, ActivityRetention);
    }

    /** One step of the series loop: a series longer than 1000 values is cut
        to its last 1000. */
    method CapSeries(name: string)
      requires name in performanceMetrics
      modifies this
      ensures performanceMetrics == old(performanceMetrics)[name := Last(old(performanceMetrics)[name], MaxSeriesLength)]
      ensures userActivity == old(userActivity) && downloadStats == old(downloadStats)
      ensures errorCounts == old(errorCounts) && errorOrder == old(errorOrder)
    {
      if |performanceMetrics[name]| > MaxSeriesLength {
        performanceMetrics := performanceMetrics[name := Last(performanceMetrics[name], MaxSeriesLength)];
      } else {
        assert Last(performanceMetrics[name], MaxSeriesLength) == performanceMetrics[name];
      }
    }

    /** The series loop of `_cleanup_old_data`: every series cut to its last
        1000 values. */
    method CapPerformanceMetrics()
      modifies this
      ensures performanceMetrics == CapAll(old(performanceMetrics))
      ensures userActivity == old(userActivity) && downloadStats == old(downloadStats)
      ensures errorCounts == old(errorCounts) && errorOrder == old(errorOrder)
    {
      ghost var m0 := performanceMetrics;
      var todo := performanceMetrics.Keys;
      while todo != {}
        invariant todo <= m0.Keys
        invariant performanceMetrics == CappedExcept(m0, todo)
        invariant userActivity == old(userActivity) && downloadStats == old(downloadStats)
        invariant errorCounts == old(errorCounts) && errorOrder == old(errorOrder)
        decreases |todo|
      {
        ghost var w := Pick(todo);
        var name :| name in todo;
        CapStep(m0, todo, name);
        CapSeries(name);
        todo := todo - {name};
      }
      assert performanceMetrics == CapAll(m0);
    }

    /** `_cleanup_old_data`: old activities and inactive users dropped, every
        series bounded again. */
    method CleanupOldData(now: int)
      requires Valid()
      modifies this
      ensures Valid()
      ensures userActivity == PruneAll(old(userActivity), now, ActivityRetention)
      ensures performanceMetrics == CapAll(old(performanceMetrics))
      ensures forall k :: k in performanceMetrics ==> |performanceMetrics[k]| <= MaxSeriesLength
      ensures downloadStats == old(downloadStats) && errorCounts == old(errorCounts)
      ensures errorOrder == old(errorOrder)
    {
      PruneUserActivity(now);
      CapPerformanceMetrics();
    }

    /** The error rate of a valid collector is a fraction. */
    lemma ErrorRateIsFraction()
      requires Valid()
      ensures 0.0 <= ErrorRate(Count(downloadStats, "failed"), Count(downloadStats, "total")) <= 1.0
    {
    }
  }
}
