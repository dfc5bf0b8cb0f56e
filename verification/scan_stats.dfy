/** The counting part of the history statistics: the per-issue histogram of
    `calculateScanStats`, its most common issue, and the cadence classification
    of `detectScanFrequency`. Rates, averages and scores are floating point
    and stay out of the model. */
module ScanStatistics {
  import opened Wrappers
  import opened Batching
  import opened Sorting

  /** The fields of a stored `AnalysisResult` that the statistics read. */
  datatype ScanResult = ScanResult(url: string, status: string, issues: seq<string>)

  /** One `issuesByType` entry: an issue text and how often it occurs. */
  datatype IssueCount = IssueCount(issueType: string, count: nat)

  /** The counting fields of `ScanStats`. */
  datatype ScanStats = ScanStats(
    urlsAnalyzed: nat,
    totalUrlsAnalyzed: nat,
    successfulScans: nat,
    mostCommonIssue: string,
    issuesByType: seq<IssueCount>)

  /** A processed scan: `scanDate` and `timestamp` are clock readings in
      milliseconds. */
  datatype ScanHistory = ScanHistory(url: string, scanDate: int, status: string, stats: ScanStats, timestamp: int)

  datatype Frequency = OneTime | Hourly | Daily | Weekly | Monthly

  const HOUR_MS := 1000 * 60 * 60
  const DAY_HOURS := 24
  const WEEK_HOURS := 168

  function FrequencyName(f: Frequency): string {
    match f
    case OneTime => "one-time"
    case Hourly => "hourly"
    case Daily => "daily"
    case Weekly => "weekly"
    case Monthly => "monthly"
  }

  // ---------------------------------------------------------------------------
  // The issue histogram

  /** Where `issue` already has an entry. */
  function IndexOfType(h: seq<IssueCount>, issue: string): (r: Option<nat>)
    ensures r.Some? ==> r.value < |h| && h[r.value].issueType == issue
    ensures r.None? ==> forall k :: 0 <= k < |h| ==> h[k].issueType != issue
    decreases |h|
  {
    if |h| == 0 then None
    else if h[0].issueType == issue then Some(0)
    else match IndexOfType(h[1..], issue)
      case None => None
      case Some(k) => Some(k + 1)
  }

  /** `issueCount[issue] = (issueCount[issue] || 0) + 1` on the entries of the
      dictionary, in key insertion order. */
  function Tally(h: seq<IssueCount>, issue: string): seq<IssueCount> {
    match IndexOfType(h, issue)
    case Some(k) => h[k := IssueCount(issue, h[k].count + 1)]
    case None => h + [IssueCount(issue, 1)]
  }

  /** `Object.entries(issueCount)` after counting `issues`. */
  function Histogram(issues: seq<string>): seq<IssueCount>
    decreases |issues|
  {
    if |issues| == 0 then [] else Tally(Histogram(issues[..|issues| - 1]), issues[|issues| - 1])
  }

  function TotalCount(h: seq<IssueCount>): nat
    decreases |h|
  {
    if |h| == 0 then 0 else TotalCount(h[..|h| - 1]) + h[|h| - 1].count
  }

  /** `h` counts `issues`: one entry per distinct issue, each holding its
      number of occurrences, and the counts add up to the number of issues. */
  predicate Counts(h: seq<IssueCount>, issues: seq<string>) {
    && (forall i, j :: 0 <= i < j < |h| ==> h[i].issueType != h[j].issueType)
    && (forall k :: 0 <= k < |h| ==> h[k].count == multiset(issues)[h[k].issueType] > 0)
    && (forall x :: x in issues ==> IndexOfType(h, x).Some?)
    && TotalCount(h) == |issues|
  }

  lemma {:induction false} TotalCountUpdate(h: seq<IssueCount>, k: nat, e: IssueCount)
    requires k < |h|
    ensures TotalCount(h[k := e]) == TotalCount(h) - h[k].count + e.count
    decreases |h|
  {
    var n := |h|;
    if k < n - 1 {
      assert h[k := e][..n - 1] == h[..n - 1][k := e];
      TotalCountUpdate(h[..n - 1], k, e);
    } else {
      assert h[k := e][..n - 1] == h[..n - 1];
    }
  }

  lemma TallyCounts(h: seq<IssueCount>, init: seq<string>, x: string)
    requires Counts(h, init)
    ensures Counts(Tally(h, x), init + [x])
  {
    assert multiset(init + [x]) == multiset(init) + multiset{x};
    match IndexOfType(h, x)
    case Some(k) => TallyExisting(h, init, x, k);
    case None => TallyNew(h, init, x);
  }

  lemma TallyExisting(h: seq<IssueCount>, init: seq<string>, x: string, k: nat)
    requires Counts(h, init) && k < |h| && h[k].issueType == x
    requires multiset(init + [x]) == multiset(init) + multiset{x}
    ensures Counts(h[k := IssueCount(x, h[k].count + 1)], init + [x])
  {
    var t := h[k := IssueCount(x, h[k].count + 1)];
    TotalCountUpdate(h, k, IssueCount(x, h[k].count + 1));
    forall y | y in init + [x]
      ensures IndexOfType(t, y).Some?
    {
      if y != x {
        assert y in init;
        assert t[IndexOfType(h, y).value].issueType == y;
      } else {
        assert t[k].issueType == y;
      }
    }
  }

  lemma TallyNew(h: seq<IssueCount>, init: seq<string>, x: string)
    requires Counts(h, init) && IndexOfType(h, x).None?
    requires multiset(init + [x]) == multiset(init) + multiset{x}
    ensures Counts(h + [IssueCount(x, 1)], init + [x])
  {
    var t := h + [IssueCount(x, 1)];
    assert x !in init;
    assert t[..|h|] == h;
    forall y | y in init + [x]
      ensures IndexOfType(t, y).Some?
    {
      if y != x {
        assert y in init;
        assert t[IndexOfType(h, y).value].issueType == y;
      } else {
        assert t[|h|].issueType == y;
      }
    }
  }

  /** The histogram counts its issues. */
  lemma {:induction false} HistogramCounts(issues: seq<string>)
    ensures Counts(Histogram(issues), issues)
    decreases |issues|
  {
    if |issues| > 0 {
      var n := |issues|;
      HistogramCounts(issues[..n - 1]);
      TallyCounts(Histogram(issues[..n - 1]), issues[..n - 1], issues[n - 1]);
      assert issues == issues[..n - 1] + [issues[n - 1]];
    }
  }

  /** Keys of `counts` in insertion order, each once. */
  ghost predicate Dictionary(types: seq<string>, counts: map<string, nat>) {
    && (forall t :: t in counts <==> t in types)
    && (forall a, b :: 0 <= a < b < |types| ==> types[a] != types[b])
  }

  /** The dictionary `issueCount`: its keys in insertion order and its values. */
  function Entries(types: seq<string>, counts: map<string, nat>): seq<IssueCount>
    requires Dictionary(types, counts)
  {
    seq(|types|, k requires 0 <= k < |types| => IssueCount(types[k], counts[types[k]]))
  }

  /** The `allIssues.forEach` loop of `calculateScanStats`. */
  method CountIssues(issues: seq<string>) returns (types: seq<string>, counts: map<string, nat>)
    ensures Dictionary(types, counts)
    ensures Entries(types, counts) == Histogram(issues)
  {
    types, counts := [], map[];
    var i := 0;
    while i < |issues|
      invariant 0 <= i <= |issues|
      invariant Dictionary(types, counts)
      invariant Entries(types, counts) == Histogram(issues[..i])
    {
      HistogramStep(issues, i);
      types, counts := CountIssue(types, counts, issues[i]);
      i := i + 1;
    }
    assert issues[..i] == issues;
  }

  /** `issueCount[issue] = (issueCount[issue] || 0) + 1`. */
  method CountIssue(types: seq<string>, counts: map<string, nat>, issue: string)
    returns (types': seq<string>, counts': map<string, nat>)
    requires Dictionary(types, counts)
    ensures Dictionary(types', counts')
    ensures Entries(types', counts') == Tally(Entries(types, counts), issue)
  {
    ghost var h := Entries(types, counts);
    var n := if issue in counts then counts[issue] else 0;
    if issue in counts {
      ghost var k :| 0 <= k < |types| && types[k] == issue;
      IndexOfDistinct(h, k);
      assert Tally(h, issue) == h[k := IssueCount(issue, n + 1)];
      EntriesUpdate(types, counts, k, n + 1);
      types', counts' := types, counts[issue := n + 1];
    } else {
      EntriesAppend(types, counts, issue, n + 1);
      assert Tally(h, issue) == h + [IssueCount(issue, 1)];
      types', counts' := types + [issue], counts[issue := n + 1];
    }
  }

  lemma HistogramStep(issues: seq<string>, i: nat)
    requires i < |issues|
    ensures Histogram(issues[..i + 1]) == Tally(Histogram(issues[..i]), issues[i])
  {
    assert issues[..i + 1][..i] == issues[..i];
  }

  /** In a histogram without repeated types, an entry is found where it is. */
  lemma IndexOfDistinct(h: seq<IssueCount>, k: nat)
    requires k < |h|
    requires forall a, b :: 0 <= a < b < |h| ==> h[a].issueType != h[b].issueType
    ensures IndexOfType(h, h[k].issueType) == Some(k)
  {
    var r := IndexOfType(h, h[k].issueType);
    assert r.Some?;
  }

  lemma EntriesUpdate(types: seq<string>, counts: map<string, nat>, k: nat, v: nat)
    requires Dictionary(types, counts) && k < |types|
    ensures Dictionary(types, counts[types[k] := v])
    ensures Entries(types, counts[types[k] := v]) == Entries(types, counts)[k := IssueCount(types[k], v)]
  {
  }

  lemma EntriesAppend(types: seq<string>, counts: map<string, nat>, x: string, v: nat)
    requires Dictionary(types, counts) && x !in counts
    ensures IndexOfType(Entries(types, counts), x).None?
    ensures Dictionary(types + [x], counts[x := v])
    ensures Entries(types + [x], counts[x := v]) == Entries(types, counts) + [IssueCount(x, v)]
  {
    var h := Entries(types, counts);
    assert forall j :: 0 <= j < |h| ==> h[j].issueType == types[j];
  }

  // ---------------------------------------------------------------------------
  // The most common issue

  function CountOf(e: IssueCount): int {
    e.count
  }

  /** The `reduce` that keeps an entry only when its count is strictly larger:
      the earliest of the entries with the largest count. */
  function FirstMax(s: seq<IssueCount>): (k: nat)
    requires |s| > 0
    ensures k < |s|
    ensures forall j :: 0 <= j < |s| ==> s[j].count <= s[k].count
    ensures forall j :: 0 <= j < k ==> s[j].count < s[k].count
    decreases |s|
  {
    if |s| == 1 then 0
    else
      var m := FirstMax(s[..|s| - 1]);
      if s[|s| - 1].count > s[m].count then |s| - 1 else m
  }

  /** `entries.sort(([, a], [, b]) => b - a)[0]?.[0] || 'None'`. */
  function MostCommonIssue(h: seq<IssueCount>): string {
    if |h| == 0 then "None"
    else
      var top := SortDesc(h, CountOf)[0];
      if top.issueType == "" then "None" else top.issueType
  }

  /** The stable sort puts first the earliest of the entries with the largest
      count, the entry the strict `reduce` keeps. */
  lemma TopIsFirstMaximal(h: seq<IssueCount>)
    requires |h| > 0
    ensures SortDesc(h, CountOf)[0] == h[FirstMax(h)]
  {
    var k := FirstMax(h);
    SortDescBounds(h, CountOf);
    var i :| 0 <= i < |h| && h[i] == SortDesc(h, CountOf)[0];
    StableTop(h, h[k].count, k);
  }

  /** The entry the stable sort puts first is the first entry of its count. */
  lemma StableTop(h: seq<IssueCount>, m: int, k: nat)
    requires k < |h| && h[k].count == m && forall j :: 0 <= j < k ==> h[j].count != m
    requires |SortDesc(h, CountOf)| > 0 && SortDesc(h, CountOf)[0].count == m
    ensures SortDesc(h, CountOf)[0] == h[k]
  {
    SortDescStable(h, CountOf, m);
    FirstOfKey(h, CountOf, m, k);
    FirstOfKey(SortDesc(h, CountOf), CountOf, m, 0);
  }

  /** The first element with key `v` heads the elements with key `v`. */
  lemma {:induction false} FirstOfKey<T>(s: seq<T>, key: T -> int, v: int, k: nat)
    requires k < |s| && key(s[k]) == v
    requires forall j :: 0 <= j < k ==> key(s[j]) != v
    ensures |WithKey(s, key, v)| > 0 && WithKey(s, key, v)[0] == s[k]
    decreases |s|
  {
    var n := |s|;
    if k < n - 1 {
      FirstOfKey(s[..n - 1], key, v, k);
    } else {
      NoneWithKey(s[..n - 1], key, v);
    }
  }

  lemma {:induction false} NoneWithKey<T>(s: seq<T>, key: T -> int, v: int)
    requires forall j :: 0 <= j < |s| ==> key(s[j]) != v
    ensures WithKey(s, key, v) == []
    decreases |s|
  {
    if |s| > 0 {
      NoneWithKey(s[..|s| - 1], key, v);
    }
  }

  /** `mostCommonIssue` names the earliest inserted of the issues counted most
      often, and is 'None' when there are no issues (or that issue is the
      empty string). */
  lemma MostCommonIssueIs(h: seq<IssueCount>)
    ensures |h| == 0 ==> MostCommonIssue(h) == "None"
    ensures |h| > 0 ==> MostCommonIssue(h) == (if h[FirstMax(h)].issueType == "" then "None" else h[FirstMax(h)].issueType)
  {
    if |h| > 0 {
      TopIsFirstMaximal(h);
    }
  }

  // ---------------------------------------------------------------------------
  // calculateScanStats

  /** `results.flatMap(r => r.issues)`. */
  function AllIssues(results: seq<ScanResult>): seq<string> {
    Flatten(seq(|results|, k requires 0 <= k < |results| => results[k].issues))
  }

  /** `results.filter(r => r.status === 'pass').length`. */
  function PassCount(results: seq<ScanResult>): (n: nat)
    ensures n <= |results|
    decreases |results|
  {
    if |results| == 0 then 0
    else PassCount(results[..|results| - 1]) + (if results[|results| - 1].status == "pass" then 1 else 0)
  }

  function ScanStatsOf(results: seq<ScanResult>): ScanStats {
    var h := Histogram(AllIssues(results));
    ScanStats(|results|, |results|, PassCount(results), MostCommonIssue(h), h)
  }

  /** `calculateScanStats`, counting parts. */
  method CalculateScanStats(results: seq<ScanResult>) returns (stats: ScanStats)
    ensures stats == ScanStatsOf(results)
  {
    var types, counts := CountIssues(AllIssues(results));
    var issuesByType := Entries(types, counts);
    stats := ScanStats(|results|, |results|, PassCount(results), MostCommonIssue(issuesByType), issuesByType);
  }

  /** One entry per distinct issue with its number of occurrences, counts
      adding up to the number of issues, and 'None' without issues. */
  lemma ScanStatsCounts(results: seq<ScanResult>)
    ensures ScanStatsOf(results).urlsAnalyzed == ScanStatsOf(results).totalUrlsAnalyzed == |results|
    ensures Counts(ScanStatsOf(results).issuesByType, AllIssues(results))
    ensures AllIssues(results) == [] ==> ScanStatsOf(results).mostCommonIssue == "None"
  {
    HistogramCounts(AllIssues(results));
  }

  // ---------------------------------------------------------------------------
  // detectScanFrequency

  /** The class of an average gap of `span / gaps` milliseconds, compared with
      one hour, one day and one week. */
  function Classify(span: int, gaps: nat): Frequency
    requires gaps > 0
  {
    if span <= gaps * HOUR_MS then Hourly
    else if span <= gaps * (DAY_HOURS * HOUR_MS) then Daily
    else if span <= gaps * (WEEK_HOURS * HOUR_MS) then Weekly
    else Monthly
  }

  function Stamp(s: ScanHistory): int {
    s.timestamp
  }

  /** `detectScanFrequency`: 'one-time' below two scans, otherwise the class of
      the average gap between consecutive scans, newest first. */
  function ScanFrequency(scans: seq<ScanHistory>): Frequency {
    if |scans| < 2 then OneTime
    else Classify(Span(SortDesc(scans, Stamp)), |scans| - 1)
  }

  /** First timestamp minus last. */
  function Span(sorted: seq<ScanHistory>): int
    requires |sorted| > 0
  {
    sorted[0].timestamp - sorted[|sorted| - 1].timestamp
  }

  function Sum(xs: seq<int>): int
    decreases |xs|
  {
    if |xs| == 0 then 0 else Sum(xs[..|xs| - 1]) + xs[|xs| - 1]
  }

  /** The `intervals` loop and the average of `detectScanFrequency`: the
      intervals between neighbours add up to newest minus oldest. */
  method DetectScanFrequency(scans: seq<ScanHistory>) returns (f: Frequency)
    ensures f == ScanFrequency(scans)
  {
    if |scans| < 2 {
      return OneTime;
    }
    var sorted := SortDesc(scans, Stamp);
    var intervals: seq<int> := [];
    var i := 1;
    while i < |sorted|
      invariant 1 <= i <= |sorted|
      invariant |intervals| == i - 1
      invariant Sum(intervals) == sorted[0].timestamp - sorted[i - 1].timestamp
    {
      intervals := intervals + [sorted[i - 1].timestamp - sorted[i].timestamp];
      assert intervals[..|intervals| - 1] == intervals[..i - 1];
      i := i + 1;
    }
    var total := Sum(intervals);
    var gaps := |intervals|;
    if total <= gaps * HOUR_MS {
      f := Hourly;
    } else if total <= gaps * (DAY_HOURS * HOUR_MS) {
      f := Daily;
    } else if total <= gaps * (WEEK_HOURS * HOUR_MS) {
      f := Weekly;
    } else {
      f := Monthly;
    }
  }

  function Rank(f: Frequency): nat {
    match f
    case OneTime => 0
    case Hourly => 1
    case Daily => 2
    case Weekly => 3
    case Monthly => 4
  }

  /** The average gap is (newest - oldest) / (n - 1), classified by the hour,
      day and week thresholds: only the newest and the oldest scan matter. */
  lemma FrequencyOfSpan(scans: seq<ScanHistory>, newest: nat, oldest: nat)
    requires |scans| >= 2 && newest < |scans| && oldest < |scans|
    requires forall k :: 0 <= k < |scans| ==> scans[oldest].timestamp <= scans[k].timestamp <= scans[newest].timestamp
    ensures ScanFrequency(scans) == Classify(scans[newest].timestamp - scans[oldest].timestamp, |scans| - 1)
  {
    var sorted := SortDesc(scans, Stamp);
    var n := |scans|;
    SortDescBounds(scans, Stamp);
    assert Stamp(sorted[0]) >= Stamp(scans[newest]);
    assert Stamp(scans[oldest]) >= Stamp(sorted[n - 1]);
    var a :| 0 <= a < n && scans[a] == sorted[0];
    var b :| 0 <= b < n && scans[b] == sorted[n - 1];
  }

  /** A longer span never gives a more frequent class. */
  lemma ClassifyMonotone(span1: int, span2: int, gaps: nat)
    requires gaps > 0 && span1 <= span2
    ensures Rank(Classify(span1, gaps)) <= Rank(Classify(span2, gaps))
  {
  }

  /** Scans taken within one hour of each other are 'hourly', however many. */
  lemma WithinAnHourIsHourly(scans: seq<ScanHistory>, t: int)
    requires |scans| >= 2
    requires forall i :: 0 <= i < |scans| ==> t <= scans[i].timestamp <= t + HOUR_MS
    ensures ScanFrequency(scans) == Hourly
  {
    var sorted := SortDesc(scans, Stamp);
    SortDescBounds(scans, Stamp);
    var a :| 0 <= a < |scans| && scans[a] == sorted[0];
    var b :| 0 <= b < |scans| && scans[b] == sorted[|scans| - 1];
    assert Span(sorted) <= HOUR_MS <= (|scans| - 1) * HOUR_MS;
  }
}
