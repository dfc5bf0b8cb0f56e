/** `groupHistoryByDomain`: stored searches are bucketed by the host name of
    their sitemap URL, each bucket is sorted newest first, every search's
    stored result is turned into a processed scan, and each bucket gets its
    totals, its most common issue, its cadence and its trend arrays. The
    clock is a parameter: the scans are processed one after another, and the
    `c`-th `processScanItem` of the call reads `clock(2 * c)` for `new Date()`
    and `clock(2 * c + 1)` for `Date.now()`. The third reading, the
    `Date.now()` that `calculateScanStats` stores as `lastScanDuration`, is
    not modelled, with the rest of that function's floating-point fields. */
module DomainGrouping {
  import opened Wrappers
  import opened Batching
  import opened Sorting
  import opened ScanStatistics

  /** A stored search; `searchDate` in milliseconds. */
  datatype HistoryItem = HistoryItem(id: string, sitemapUrl: string, searchDate: int, status: string, results: string)

  /** The clock of one call: its `n`-th reading in milliseconds. */
  type Clock = nat -> int

  /** `new URL(s).hostname`, None where the constructor throws. */
  type HostParser = string -> Option<string>

  /** `JSON.parse(results) as AnalysisResult`, None where `JSON.parse` throws
      and also where a parsed detail has no `technicalSpecs`, since summing
      `r.technicalSpecs.loadSpeed` for the statistics then throws as well. */
  type ResultParser = string -> Option<ScanResult>

  datatype Trends = Trends(dates: seq<int>, urlsAnalyzed: seq<nat>, issuesFound: seq<nat>)

  /** The counting fields of `overallStats`. */
  datatype Overall = Overall(totalUrlsAnalyzed: nat, scanFrequency: Frequency, mostCommonIssue: string, issuesByType: seq<IssueCount>)

  datatype DomainGroup = DomainGroup(
    domain: string,
    totalScans: nat,
    scans: seq<ScanHistory>,
    latestScan: ScanHistory,
    overallStats: Overall,
    trends: Trends)

  /** What makes the call throw: a stored result that `JSON.parse` rejects or
      whose details lack `technicalSpecs` (see `ResultParser`), or reading
      `.type` of the `undefined` that the most-common-issue `reduce` returns
      for a group none of whose scans has an issue. */
  datatype GroupError = UnparsableResults(id: string) | NoIssueTypes(domain: string)

  // ---------------------------------------------------------------------------
  // extractDomain and the domain map

  /** The host name, or the text itself when it is not a URL. */
  function ExtractDomain(url: string, hostOf: HostParser): (d: string)
    ensures hostOf(url).None? ==> d == url
    ensures hostOf(url).Some? ==> d == hostOf(url).value
  {
    match hostOf(url)
    case Some(host) => host
    case None => url
  }

  function DomainOf(item: HistoryItem, hostOf: HostParser): string {
    ExtractDomain(item.sitemapUrl, hostOf)
  }

  /** The keys of `domainMap` in insertion order: every domain once, where it
      first appears. */
  function Domains(items: seq<HistoryItem>, hostOf: HostParser): seq<string>
    decreases |items|
  {
    if |items| == 0 then []
    else
      var ds := Domains(items[..|items| - 1], hostOf);
      var d := DomainOf(items[|items| - 1], hostOf);
      if d in ds then ds else ds + [d]
  }

  /** The items whose domain is `d`, in input order. */
  function ItemsOf(items: seq<HistoryItem>, hostOf: HostParser, d: string): (r: seq<HistoryItem>)
    ensures forall x :: x in r ==> x in items && DomainOf(x, hostOf) == d
    decreases |items|
  {
    if |items| == 0 then []
    else
      var last := items[|items| - 1];
      ItemsOf(items[..|items| - 1], hostOf, d) + (if DomainOf(last, hostOf) == d then [last] else [])
  }

  lemma StepOf(items: seq<HistoryItem>, i: nat)
    requires i < |items|
    ensures items[..i + 1][..i] == items[..i] && items[..i + 1][i] == items[i]
  {
  }

  /** The `historyItems.forEach` loop: `domainMap.get(domain) || []`, push,
      `set`. */
  method GroupByDomain(items: seq<HistoryItem>, hostOf: HostParser)
    returns (domains: seq<string>, groups: map<string, seq<HistoryItem>>)
    ensures domains == Domains(items, hostOf)
    ensures forall d :: d in groups <==> d in domains
    ensures forall d :: d in groups ==> groups[d] == ItemsOf(items, hostOf, d)
  {
    domains, groups := [], map[];
    var i := 0;
    while i < |items|
      invariant 0 <= i <= |items|
      invariant domains == Domains(items[..i], hostOf)
      invariant forall d :: d in groups <==> d in domains
      invariant forall d :: d in groups ==> groups[d] == ItemsOf(items[..i], hostOf, d)
    {
      var item := items[i];
      var domain := ExtractDomain(item.sitemapUrl, hostOf);
      StepOf(items, i);
      if domain !in groups {
        NoItemsOutside(items[..i], hostOf, domain);
        // a new key joins the end of the map's iteration order
        domains := domains + [domain];
      }
      var group := if domain in groups then groups[domain] else [];
      groups := groups[domain := group + [item]];
      i := i + 1;
    }
    assert items[..i] == items;
  }

  /** A domain that is not among the keys has no items. */
  lemma {:induction false} NoItemsOutside(items: seq<HistoryItem>, hostOf: HostParser, d: string)
    requires d !in Domains(items, hostOf)
    ensures ItemsOf(items, hostOf, d) == []
    decreases |items|
  {
    if |items| > 0 {
      NoItemsOutside(items[..|items| - 1], hostOf, d);
    }
  }

  /** Every key has items. */
  lemma {:induction false} DomainsHaveItems(items: seq<HistoryItem>, hostOf: HostParser, d: string)
    requires d in Domains(items, hostOf)
    ensures |ItemsOf(items, hostOf, d)| > 0
    decreases |items|
  {
    var n := |items|;
    if d in Domains(items[..n - 1], hostOf) {
      DomainsHaveItems(items[..n - 1], hostOf, d);
    }
  }

  /** Every item is in the group of its own domain, and that domain is a key. */
  lemma {:induction false} InOwnGroup(items: seq<HistoryItem>, hostOf: HostParser, i: nat)
    requires i < |items|
    ensures DomainOf(items[i], hostOf) in Domains(items, hostOf)
    ensures items[i] in ItemsOf(items, hostOf, DomainOf(items[i], hostOf))
    decreases |items|
  {
    var n := |items|;
    if i < n - 1 {
      InOwnGroup(items[..n - 1], hostOf, i);
    }
  }

  /** No domain is a key twice. */
  lemma {:induction false} DomainsDistinct(items: seq<HistoryItem>, hostOf: HostParser)
    ensures forall a, b :: 0 <= a < b < |Domains(items, hostOf)| ==> Domains(items, hostOf)[a] != Domains(items, hostOf)[b]
    decreases |items|
  {
    if |items| > 0 {
      DomainsDistinct(items[..|items| - 1], hostOf);
    }
  }

  /** The number of items in the groups of `ds`. */
  function GroupSizes(items: seq<HistoryItem>, hostOf: HostParser, ds: seq<string>): nat
    decreases |ds|
  {
    if |ds| == 0 then 0 else GroupSizes(items, hostOf, ds[..|ds| - 1]) + |ItemsOf(items, hostOf, ds[|ds| - 1])|
  }

  /** One more item adds one to the group of its domain and nothing elsewhere. */
  lemma {:induction false} GroupSizesSnoc(items: seq<HistoryItem>, x: HistoryItem, hostOf: HostParser, ds: seq<string>)
    requires forall a, b :: 0 <= a < b < |ds| ==> ds[a] != ds[b]
    ensures GroupSizes(items + [x], hostOf, ds) == GroupSizes(items, hostOf, ds) + (if DomainOf(x, hostOf) in ds then 1 else 0)
    decreases |ds|
  {
    if |ds| > 0 {
      var n := |ds|;
      assert (items + [x])[..|items|] == items;
      GroupSizesSnoc(items, x, hostOf, ds[..n - 1]);
      assert DomainOf(x, hostOf) in ds <==> DomainOf(x, hostOf) in ds[..n - 1] || DomainOf(x, hostOf) == ds[n - 1] by {
        assert ds == ds[..n - 1] + [ds[n - 1]];
      }
    }
  }

  /** The groups partition the items: their sizes add up to the number of
      items. */
  lemma {:induction false} EveryItemGrouped(items: seq<HistoryItem>, hostOf: HostParser)
    ensures GroupSizes(items, hostOf, Domains(items, hostOf)) == |items|
    decreases |items|
  {
    if |items| > 0 {
      var n := |items|;
      var init := items[..n - 1];
      var x := items[n - 1];
      var ds := Domains(init, hostOf);
      assert items == init + [x];
      EveryItemGrouped(init, hostOf);
      DomainsDistinct(init, hostOf);
      GroupSizesSnoc(init, x, hostOf, ds);
      if DomainOf(x, hostOf) !in ds {
        NoItemsOutside(init, hostOf, DomainOf(x, hostOf));
        assert (ds + [DomainOf(x, hostOf)])[..|ds|] == ds;
      }
    }
  }

  // ---------------------------------------------------------------------------
  // One group

  function SearchDate(item: HistoryItem): int {
    item.searchDate
  }

  /** The `c`-th `processScanItem` of the call (the random `id` is left out). */
  function ProcessScanItem(r: ScanResult, clock: Clock, c: nat): ScanHistory {
    ScanHistory(r.url, clock(2 * c), r.status, ScanStatsOf([r]), clock(2 * c + 1))
  }

  /** `sortedItems.map(item => ... JSON.parse(item.results) ...)`: the first
      stored result that does not parse aborts the call. */
  function ParseAll(items: seq<HistoryItem>, parse: ResultParser): (r: Result<seq<ScanResult>, GroupError>)
    ensures r.Success? ==> |r.value| == |items| && forall i :: 0 <= i < |items| ==> parse(items[i].results) == Some(r.value[i])
    ensures r.Failure? ==> exists i :: (0 <= i < |items| && parse(items[i].results).None? && r.error == UnparsableResults(items[i].id)
      && forall j :: 0 <= j < i ==> parse(items[j].results).Some?)
    decreases |items|
  {
    if |items| == 0 then Success([])
    else match parse(items[0].results)
      case None => Failure(UnparsableResults(items[0].id))
      case Some(first) =>
        match ParseAll(items[1..], parse)
        case Failure(e) => Failure(e)
        case Success(rest) => Success([first] + rest)
  }

  function Reverse<T>(s: seq<T>): (r: seq<T>)
    ensures |r| == |s|
  {
    seq(|s|, i requires 0 <= i < |s| => s[|s| - 1 - i])
  }

  /** `trends`: each per-scan series, oldest first. */
  function TrendsOf(scans: seq<ScanHistory>): Trends {
    Trends(
      Reverse(seq(|scans|, i requires 0 <= i < |scans| => scans[i].scanDate)),
      Reverse(seq(|scans|, i requires 0 <= i < |scans| => scans[i].stats.urlsAnalyzed)),
      Reverse(seq(|scans|, i requires 0 <= i < |scans| => TotalCount(scans[i].stats.issuesByType))))
  }

  /** `scans.reduce((sum, scan) => sum + scan.stats.urlsAnalyzed, 0)`. */
  function TotalUrls(scans: seq<ScanHistory>): nat
    decreases |scans|
  {
    if |scans| == 0 then 0 else TotalUrls(scans[..|scans| - 1]) + scans[|scans| - 1].stats.urlsAnalyzed
  }

  /** `scans.flatMap(scan => scan.stats.issuesByType)`. */
  function IssueTypes(scans: seq<ScanHistory>): seq<IssueCount> {
    Flatten(seq(|scans|, i requires 0 <= i < |scans| => scans[i].stats.issuesByType))
  }

  /** The scans of a group's parsed results, in order, the first of them the
      `start`-th `processScanItem` of the call. */
  function ScansOf(results: seq<ScanResult>, clock: Clock, start: nat): (scans: seq<ScanHistory>)
    ensures |scans| == |results|
  {
    seq(|results|, i requires 0 <= i < |results| => ProcessScanItem(results[i], clock, start + i))
  }

  /** The group of `domain` once its results are parsed. */
  function GroupOf(domain: string, results: seq<ScanResult>, clock: Clock, start: nat): Result<DomainGroup, GroupError> {
    var scans := ScansOf(results, clock, start);
    var types := IssueTypes(scans);
    if |types| == 0 then Failure(NoIssueTypes(domain))
    else
      assert |scans| > 0;
      var overall := Overall(TotalUrls(scans), ScanFrequency(scans), types[FirstMax(types)].issueType, types);
      Success(DomainGroup(domain, |scans|, scans, scans[0], overall, TrendsOf(scans)))
  }

  /** The group of `domain` over its items (the body of the `map` over the
      entries of `domainMap`). */
  function BuildGroup(domain: string, items: seq<HistoryItem>, parse: ResultParser, clock: Clock, start: nat): Result<DomainGroup, GroupError> {
    match ParseAll(SortDesc(items, SearchDate), parse)
    case Failure(e) => Failure(e)
    case Success(results) => GroupOf(domain, results, clock, start)
  }

  // ---------------------------------------------------------------------------
  // All groups

  /** `xs.map(f)` where `f` may throw: the first failure aborts. */
  function MapAll<A, B, E>(xs: seq<A>, f: A -> Result<B, E>): (r: Result<seq<B>, E>)
    ensures r.Success? ==> |r.value| == |xs|
    decreases |xs|
  {
    if |xs| == 0 then Success([])
    else match MapAll(xs[..|xs| - 1], f)
      case Failure(e) => Failure(e)
      case Success(ys) =>
        match f(xs[|xs| - 1])
        case Failure(e) => Failure(e)
        case Success(y) => Success(ys + [y])
  }

  /** When the whole map succeeds, so does every call, each in its place. */
  lemma {:induction false} MapAllAt<A, B, E>(xs: seq<A>, f: A -> Result<B, E>, k: nat)
    requires MapAll(xs, f).Success? && k < |xs|
    ensures f(xs[k]).Success? && MapAll(xs, f).value[k] == f(xs[k]).value
    decreases |xs|
  {
    var n := |xs|;
    if k < n - 1 {
      MapAllAt(xs[..n - 1], f, k);
    }
  }

  /** How many items the first `k` entries hold: the number of scans
      processed before the group of entry `k`. */
  function Before(entries: seq<(string, seq<HistoryItem>)>, k: nat): nat
    requires k <= |entries|
  {
    if k == 0 then 0 else Before(entries, k - 1) + |entries[k - 1].1|
  }

  /** An entry of `domainMap` with the number of the first `processScanItem`
      its group makes. */
  datatype Entry = Entry(domain: string, items: seq<HistoryItem>, first: nat)

  function Numbered(entries: seq<(string, seq<HistoryItem>)>): (r: seq<Entry>)
    ensures |r| == |entries|
  {
    seq(|entries|, k requires 0 <= k < |entries| => Entry(entries[k].0, entries[k].1, Before(entries, k)))
  }

  /** `Array.from(domainMap.entries()).map(...)`. */
  function BuildGroups(entries: seq<(string, seq<HistoryItem>)>, parse: ResultParser, clock: Clock): Result<seq<DomainGroup>, GroupError> {
    MapAll(Numbered(entries), (e: Entry) => BuildGroup(e.domain, e.items, parse, clock, e.first))
  }

  /** The entries of the filled `domainMap`. */
  function DomainEntries(items: seq<HistoryItem>, hostOf: HostParser): seq<(string, seq<HistoryItem>)> {
    var ds := Domains(items, hostOf);
    seq(|ds|, k requires 0 <= k < |ds| => (ds[k], ItemsOf(items, hostOf, ds[k])))
  }

  function LatestScanDate(g: DomainGroup): int {
    g.latestScan.scanDate
  }

  /** The result of `groupHistoryByDomain`, groups newest latest scan first. */
  function GroupedHistory(items: seq<HistoryItem>, hostOf: HostParser, parse: ResultParser, clock: Clock): Result<seq<DomainGroup>, GroupError> {
    match BuildGroups(DomainEntries(items, hostOf), parse, clock)
    case Failure(e) => Failure(e)
    case Success(gs) => Success(SortDesc(gs, LatestScanDate))
  }

  /** `groupHistoryByDomain`. */
  method GroupHistoryByDomain(items: seq<HistoryItem>, hostOf: HostParser, parse: ResultParser, clock: Clock)
    returns (r: Result<seq<DomainGroup>, GroupError>)
    ensures r == GroupedHistory(items, hostOf, parse, clock)
  {
    var domains, groups := GroupByDomain(items, hostOf);
    var entries := seq(|domains|, k requires 0 <= k < |domains| => (domains[k], groups[domains[k]]));
    assert entries == DomainEntries(items, hostOf);
    var built := BuildGroups(entries, parse, clock);
    match built
    case Failure(e) =>
      r := Failure(e);
    case Success(gs) =>
      r := Success(SortDesc(gs, LatestScanDate));
  }

  // ---------------------------------------------------------------------------
  // What a group holds

  /** A processed scan of one stored result: one URL analysed, and as many
      issues found as the result lists. */
  lemma ProcessedScanCounts(r: ScanResult, clock: Clock, c: nat)
    ensures ProcessScanItem(r, clock, c).stats.urlsAnalyzed == 1
    ensures TotalCount(ProcessScanItem(r, clock, c).stats.issuesByType) == |r.issues|
    ensures ProcessScanItem(r, clock, c).stats.issuesByType == [] <==> r.issues == []
  {
    var h := ProcessScanItem(r, clock, c).stats.issuesByType;
    assert AllIssues([r]) == r.issues by {
      assert Flatten(seq(1, k requires 0 <= k < 1 => [r][k].issues)) == r.issues + Flatten([]);
    }
    HistogramCounts(r.issues);
    if r.issues != [] {
      assert r.issues[0] in r.issues;
    }
  }

  lemma TotalUrlsOfScans(results: seq<ScanResult>, clock: Clock, start: nat)
    ensures TotalUrls(ScansOf(results, clock, start)) == |results|
  {
    var scans := ScansOf(results, clock, start);
    forall i | 0 <= i < |scans|
      ensures scans[i].stats.urlsAnalyzed == 1
    {
      ProcessedScanCounts(results[i], clock, start + i);
    }
    TotalUrlsOfSingles(scans);
  }

  /** Scans of one URL each add up to one URL per scan. */
  lemma {:induction false} TotalUrlsOfSingles(scans: seq<ScanHistory>)
    requires forall i :: 0 <= i < |scans| ==> scans[i].stats.urlsAnalyzed == 1
    ensures TotalUrls(scans) == |scans|
    decreases |scans|
  {
    if |scans| > 0 {
      TotalUrlsOfSingles(scans[..|scans| - 1]);
    }
  }

  /** A one-level flattening is empty exactly when every part is. */
  lemma {:induction false} FlattenEmpty<T>(ss: seq<seq<T>>)
    ensures Flatten(ss) == [] <==> forall i :: 0 <= i < |ss| ==> ss[i] == []
    decreases |ss|
  {
    if |ss| > 0 {
      FlattenEmpty(ss[1..]);
      assert forall i :: 1 <= i < |ss| ==> ss[i] == ss[1..][i - 1];
    }
  }

  /** A group built from parsed results holds one scan per result, in the
      same order, the first of them as its latest scan, and one URL per scan
      in its total. */
  lemma GroupOfScans(domain: string, results: seq<ScanResult>, clock: Clock, start: nat)
    requires GroupOf(domain, results, clock, start).Success?
    ensures var g := GroupOf(domain, results, clock, start).value;
      && g.domain == domain
      && g.totalScans == |results| == |g.scans| > 0
      && g.latestScan == g.scans[0]
      && g.scans == ScansOf(results, clock, start)
      && g.overallStats.totalUrlsAnalyzed == |results|
  {
    TotalUrlsOfScans(results, clock, start);
  }

  /** The trend series of the scans of parsed results, read from the last
      result to the first. */
  lemma TrendsOfResults(results: seq<ScanResult>, clock: Clock, start: nat, i: nat)
    requires i < |results|
    ensures var t := TrendsOf(ScansOf(results, clock, start));
      && |t.dates| == |t.urlsAnalyzed| == |t.issuesFound| == |results|
      && t.dates[i] == clock(2 * (start + |results| - 1 - i)) && t.urlsAnalyzed[i] == 1
      && t.issuesFound[i] == |results[|results| - 1 - i].issues|
  {
    var scans := ScansOf(results, clock, start);
    var j := |results| - 1 - i;
    TrendsAt(scans, i);
    ScanAt(results, clock, start, j);
  }

  /** The `i`-th entry of each trend series comes from the `i`-th scan from
      the end. */
  lemma TrendsAt(scans: seq<ScanHistory>, i: nat)
    requires i < |scans|
    ensures var t := TrendsOf(scans);
      var s := scans[|scans| - 1 - i];
      && |t.dates| == |t.urlsAnalyzed| == |t.issuesFound| == |scans|
      && t.dates[i] == s.scanDate && t.urlsAnalyzed[i] == s.stats.urlsAnalyzed
      && t.issuesFound[i] == TotalCount(s.stats.issuesByType)
  {
  }

  /** The scan of the `i`-th result: timed by the clock readings of its
      `processScanItem`, one URL, and its issues counted. */
  lemma ScanAt(results: seq<ScanResult>, clock: Clock, start: nat, i: nat)
    requires i < |results|
    ensures var s := ScansOf(results, clock, start)[i];
      && s.scanDate == clock(2 * (start + i)) && s.timestamp == clock(2 * (start + i) + 1)
      && s.stats.urlsAnalyzed == 1
      && TotalCount(s.stats.issuesByType) == |results[i].issues|
      && (s.stats.issuesByType == [] <==> results[i].issues == [])
  {
    ProcessedScanCounts(results[i], clock, start + i);
  }

  /** Its trend series have one entry per scan and run oldest first: the
      scan's processing date, one URL and the number of issues of that
      result. */
  lemma GroupOfTrends(domain: string, results: seq<ScanResult>, clock: Clock, start: nat)
    requires GroupOf(domain, results, clock, start).Success?
    ensures var t := GroupOf(domain, results, clock, start).value.trends;
      var n := |results|;
      && |t.dates| == |t.urlsAnalyzed| == |t.issuesFound| == n
      && (forall i :: 0 <= i < n ==> t.dates[i] == clock(2 * (start + n - 1 - i)))
      && (forall i :: 0 <= i < n ==> t.urlsAnalyzed[i] == 1)
      && (forall i :: 0 <= i < n ==> t.issuesFound[i] == |results[n - 1 - i].issues|)
  {
    var t := GroupOf(domain, results, clock, start).value.trends;
    assert t == TrendsOf(ScansOf(results, clock, start));
    TrendsOfResults(results, clock, start, 0);
    forall i | 0 <= i < |results|
      ensures t.dates[i] == clock(2 * (start + |results| - 1 - i)) && t.urlsAnalyzed[i] == 1
      ensures t.issuesFound[i] == |results[|results| - 1 - i].issues|
    {
      TrendsOfResults(results, clock, start, i);
    }
  }

  /** Its most common issue is the earliest of the most counted entries of all
      its scans' histograms. */
  lemma GroupOfMostCommon(domain: string, results: seq<ScanResult>, clock: Clock, start: nat)
    requires GroupOf(domain, results, clock, start).Success?
    ensures var o := GroupOf(domain, results, clock, start).value.overallStats;
      var t := o.issuesByType;
      && t == IssueTypes(ScansOf(results, clock, start))
      && exists k :: (0 <= k < |t| && o.mostCommonIssue == t[k].issueType
        && (forall j :: 0 <= j < |t| ==> t[j].count <= t[k].count)
        && (forall j :: 0 <= j < k ==> t[j].count < t[k].count))
  {
    var types := IssueTypes(ScansOf(results, clock, start));
    var k := FirstMax(types);
    assert GroupOf(domain, results, clock, start).value.overallStats.mostCommonIssue == types[k].issueType;
  }

  /** A group built from parsed results fails only for want of an issue, and
      does exactly when no result lists one. */
  lemma GroupOfFails(domain: string, results: seq<ScanResult>, clock: Clock, start: nat)
    ensures GroupOf(domain, results, clock, start).Failure? ==> GroupOf(domain, results, clock, start).error == NoIssueTypes(domain)
    ensures GroupOf(domain, results, clock, start).Failure? <==> forall i :: 0 <= i < |results| ==> results[i].issues == []
  {
    NoIssueTypesExactly(results, clock, start);
  }

  /** The scans list no issue type exactly when no result lists an issue. */
  lemma NoIssueTypesExactly(results: seq<ScanResult>, clock: Clock, start: nat)
    ensures IssueTypes(ScansOf(results, clock, start)) == [] <==> forall i :: 0 <= i < |results| ==> results[i].issues == []
  {
    var scans := ScansOf(results, clock, start);
    var parts := seq(|scans|, i requires 0 <= i < |scans| => scans[i].stats.issuesByType);
    FlattenEmpty(parts);
    forall i | 0 <= i < |results|
      ensures parts[i] == [] <==> results[i].issues == []
    {
      ScanAt(results, clock, start, i);
    }
  }

  /** The stored items of a group, sorted newest first: in non-increasing
      search date order and a rearrangement of the items. */
  lemma SortedItems(items: seq<HistoryItem>)
    ensures NonIncreasing(SortDesc(items, SearchDate), SearchDate)
    ensures multiset(SortDesc(items, SearchDate)) == multiset(items)
  {
    SortDescSorted(items, SearchDate);
  }

  /** A group is built, in newest-first search order, from the stored results
      when all of them parse. */
  lemma BuildGroupParses(domain: string, items: seq<HistoryItem>, parse: ResultParser, clock: Clock, start: nat)
    requires BuildGroup(domain, items, parse, clock, start).Success?
    ensures var sorted := SortDesc(items, SearchDate);
      exists results: seq<ScanResult> ::
        && |results| == |sorted|
        && (forall i :: 0 <= i < |sorted| ==> parse(sorted[i].results) == Some(results[i]))
        && BuildGroup(domain, items, parse, clock, start) == GroupOf(domain, results, clock, start)
  {
    var results := ParseAll(SortDesc(items, SearchDate), parse).value;
    assert BuildGroup(domain, items, parse, clock, start) == GroupOf(domain, results, clock, start);
  }

  /** The same elements satisfy a property everywhere in one order exactly
      when they do in the other. */
  lemma Rearranged<T>(a: seq<T>, b: seq<T>, p: T -> bool)
    requires multiset(a) == multiset(b)
    ensures (forall i :: 0 <= i < |a| ==> p(a[i])) <==> (forall i :: 0 <= i < |b| ==> p(b[i]))
  {
    if forall i :: 0 <= i < |a| ==> p(a[i]) {
      forall i | 0 <= i < |b|
        ensures p(b[i])
      {
        assert b[i] in multiset(a);
        var j :| 0 <= j < |a| && a[j] == b[i];
      }
    }
    if forall i :: 0 <= i < |b| ==> p(b[i]) {
      forall i | 0 <= i < |a|
        ensures p(a[i])
      {
        assert a[i] in multiset(b);
        var j :| 0 <= j < |b| && b[j] == a[i];
      }
    }
  }

  /** The group fails for want of an issue exactly when every stored result
      parses and none of them lists an issue. */
  lemma NoIssuesNoGroup(domain: string, items: seq<HistoryItem>, parse: ResultParser, clock: Clock, start: nat)
    ensures BuildGroup(domain, items, parse, clock, start) == Failure(NoIssueTypes(domain))
      <==> (forall i :: 0 <= i < |items| ==> parse(items[i].results).Some? && parse(items[i].results).value.issues == [])
  {
    var sorted := SortDesc(items, SearchDate);
    var p := (x: HistoryItem) => parse(x.results).Some? && parse(x.results).value.issues == [];
    SortedItems(items);
    Rearranged(sorted, items, p);
    match ParseAll(sorted, parse)
    case Failure(e) =>
      var i :| 0 <= i < |sorted| && parse(sorted[i].results).None? && e == UnparsableResults(sorted[i].id);
      assert !p(sorted[i]);
    case Success(results) =>
      GroupOfFails(domain, results, clock, start);
      assert forall i :: 0 <= i < |sorted| ==> (p(sorted[i]) <==> results[i].issues == []);
  }

  // ---------------------------------------------------------------------------
  // What the whole grouping holds

  /** A built group holds one scan per item, and its latest scan is dated by
      the first clock reading of its first `processScanItem`. */
  lemma BuiltGroupFacts(domain: string, items: seq<HistoryItem>, parse: ResultParser, clock: Clock, start: nat)
    requires BuildGroup(domain, items, parse, clock, start).Success?
    ensures BuildGroup(domain, items, parse, clock, start).value.domain == domain
    ensures BuildGroup(domain, items, parse, clock, start).value.totalScans == |items|
    ensures LatestScanDate(BuildGroup(domain, items, parse, clock, start).value) == clock(2 * start)
  {
    var results := ParseAll(SortDesc(items, SearchDate), parse).value;
    GroupOfScans(domain, results, clock, start);
  }

  /** The groups before the final sort: one per domain, in the order the
      domains first appear, each holding exactly the items of its domain
      (so the scan counts add up to the number of items), its latest scan
      dated by the clock when its first scan was processed. */
  lemma BuiltGroupsShape(items: seq<HistoryItem>, hostOf: HostParser, parse: ResultParser, clock: Clock)
    requires BuildGroups(DomainEntries(items, hostOf), parse, clock).Success?
    ensures var entries := DomainEntries(items, hostOf);
      var built := BuildGroups(entries, parse, clock).value;
      var ds := Domains(items, hostOf);
      && |built| == |ds|
      && (forall k :: 0 <= k < |built| ==> built[k].domain == ds[k] && built[k].totalScans == |ItemsOf(items, hostOf, ds[k])|)
      && (forall k :: 0 <= k < |built| ==> LatestScanDate(built[k]) == clock(2 * Before(entries, k)))
      && GroupSizes(items, hostOf, ds) == |items|
  {
    var entries := DomainEntries(items, hostOf);
    var built := BuildGroups(entries, parse, clock).value;
    forall k | 0 <= k < |built|
      ensures built[k].domain == entries[k].0 && built[k].totalScans == |entries[k].1|
      ensures LatestScanDate(built[k]) == clock(2 * Before(entries, k))
    {
      MapAllAt(Numbered(entries), (e: Entry) => BuildGroup(e.domain, e.items, parse, clock, e.first), k);
      BuiltGroupFacts(entries[k].0, entries[k].1, parse, clock, Before(entries, k));
    }
    EveryItemGrouped(items, hostOf);
  }

  /** `groupHistoryByDomain` on a history: no history gives no groups, and the
      groups come newest latest scan first, a rearrangement of the groups in
      first-appearance order that keeps that order among groups whose latest
      scans carry the same clock reading. */
  lemma GroupedHistoryOrder(items: seq<HistoryItem>, hostOf: HostParser, parse: ResultParser, clock: Clock)
    requires GroupedHistory(items, hostOf, parse, clock).Success?
    ensures var gs := GroupedHistory(items, hostOf, parse, clock).value;
      var built := BuildGroups(DomainEntries(items, hostOf), parse, clock).value;
      && (|items| == 0 ==> gs == [])
      && NonIncreasing(gs, LatestScanDate)
      && multiset(gs) == multiset(built)
      && forall v :: WithKey(gs, LatestScanDate, v) == WithKey(built, LatestScanDate, v)
  {
    var built := BuildGroups(DomainEntries(items, hostOf), parse, clock).value;
    SortDescSorted(built, LatestScanDate);
    forall v {
      SortDescStable(built, LatestScanDate, v);
    }
  }

  /** When the clock does not move during the call, the final sort leaves the
      groups in the order their domains first appear. */
  lemma StoppedClockKeepsFirstAppearance(items: seq<HistoryItem>, hostOf: HostParser, parse: ResultParser, clock: Clock, t: int)
    requires GroupedHistory(items, hostOf, parse, clock).Success?
    requires forall c: nat :: clock(c) == t
    ensures var gs := GroupedHistory(items, hostOf, parse, clock).value;
      && |gs| == |Domains(items, hostOf)|
      && forall k :: 0 <= k < |gs| ==> gs[k].domain == Domains(items, hostOf)[k]
  {
    var built := BuildGroups(DomainEntries(items, hostOf), parse, clock).value;
    BuiltGroupsShape(items, hostOf, parse, clock);
    EqualKeysUnmoved(built, LatestScanDate, t);
  }

  // ---------------------------------------------------------------------------
  // The cadence of a group

  /** As written, every scan of a group is timed by the processing clock
      rather than by its search, so a group of two or more searches whose
      processing stays within one hour is 'hourly', however far apart the
      searches were made. */
  lemma QuickProcessingIsHourly(domain: string, items: seq<HistoryItem>, parse: ResultParser, clock: Clock, start: nat, t: int)
    requires BuildGroup(domain, items, parse, clock, start).Success? && |items| >= 2
    requires forall c: nat :: t <= clock(c) <= t + HOUR_MS
    ensures BuildGroup(domain, items, parse, clock, start).value.overallStats.scanFrequency == Hourly
  {
    var g := BuildGroup(domain, items, parse, clock, start).value;
    var results := ParseAll(SortDesc(items, SearchDate), parse).value;
    GroupOfScans(domain, results, clock, start);
    ScansWithin(results, clock, start, t);
    WithinAnHourIsHourly(g.scans, t);
  }

  /** Every scan is timed by some reading of the clock. */
  lemma ScansWithin(results: seq<ScanResult>, clock: Clock, start: nat, t: int)
    requires forall c: nat :: t <= clock(c) <= t + HOUR_MS
    ensures forall i :: 0 <= i < |results| ==> t <= ScansOf(results, clock, start)[i].timestamp <= t + HOUR_MS
  {
    forall i | 0 <= i < |results|
      ensures t <= ScansOf(results, clock, start)[i].timestamp <= t + HOUR_MS
    {
      assert ScansOf(results, clock, start)[i].timestamp == clock(2 * (start + i) + 1);
    }
  }

  /** The evidently intended scan: dated by its search. */
  function ProcessScanItemOn(item: HistoryItem, r: ScanResult): ScanHistory {
    ScanHistory(r.url, item.searchDate, r.status, ScanStatsOf([r]), item.searchDate)
  }

  /** The scans of a group dated by their searches. */
  function ScansOn(items: seq<HistoryItem>, results: seq<ScanResult>): (scans: seq<ScanHistory>)
    requires |results| == |items|
    ensures |scans| == |items|
    ensures forall k :: 0 <= k < |items| ==> scans[k].timestamp == items[k].searchDate
  {
    seq(|items|, i requires 0 <= i < |items| => ProcessScanItemOn(items[i], results[i]))
  }

  /** The cadence of the searches themselves, over the items of a group and
      their parsed results. */
  function SearchFrequency(items: seq<HistoryItem>, results: seq<ScanResult>): Frequency
    requires |results| == |items|
  {
    ScanFrequency(ScansOn(items, results))
  }

  /** The intended cadence classifies the span between the newest and the
      oldest search. */
  lemma SearchFrequencyOfSpan(items: seq<HistoryItem>, results: seq<ScanResult>, newest: nat, oldest: nat)
    requires |results| == |items| >= 2 && newest < |items| && oldest < |items|
    requires forall k :: 0 <= k < |items| ==> items[oldest].searchDate <= items[k].searchDate <= items[newest].searchDate
    ensures SearchFrequency(items, results) == Classify(items[newest].searchDate - items[oldest].searchDate, |items| - 1)
  {
    var scans := ScansOn(items, results);
    var span := items[newest].searchDate - items[oldest].searchDate;
    assert scans[newest].timestamp - scans[oldest].timestamp == span;
    FrequencyOfSpan(scans, newest, oldest);
  }

  /** Three searches a day apart, processed within an hour: daily by search
      date, 'hourly' as written. */
  lemma DailySearches(items: seq<HistoryItem>, results: seq<ScanResult>, parse: ResultParser, clock: Clock, start: nat, t: int)
    requires |items| == |results| == 3
    requires forall c: nat :: t <= clock(c) <= t + HOUR_MS
    requires items[1].searchDate == items[0].searchDate - DAY_HOURS * HOUR_MS
    requires items[2].searchDate == items[1].searchDate - DAY_HOURS * HOUR_MS
    requires BuildGroup("", items, parse, clock, start).Success?
    ensures SearchFrequency(items, results) == Daily
    ensures BuildGroup("", items, parse, clock, start).value.overallStats.scanFrequency == Hourly
  {
    assert items[2].searchDate <= items[1].searchDate <= items[0].searchDate;
    forall k | 0 <= k < |items|
      ensures items[2].searchDate <= items[k].searchDate <= items[0].searchDate
    {
      assert k == 0 || k == 1 || k == 2;
    }
    SearchFrequencyOfSpan(items, results, 0, 2);
    QuickProcessingIsHourly("", items, parse, clock, start, t);
  }
}
