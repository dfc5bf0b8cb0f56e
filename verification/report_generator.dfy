/** The printable HTML report of one stored scan, without its markup: the
    scan's details, the summary cards, and for each page its status and
    load-time badges, its three metadata fields and its broken links. */
module ReportGenerator {
  import opened Wrappers
  import opened Text
  import opened ScanResults

  /** A status badge: its text, and whether it is green rather than red. */
  datatype StatusBadge = StatusBadge(text: string, green: bool)

  /** One page of the detailed results; `brokenLinks` is empty when the page
      has no broken-links section. */
  datatype PageView = PageView(
    url: string,
    status: Option<StatusBadge>,
    loadTime: Option<string>,
    title: FieldView,
    description: FieldView,
    ogImage: FieldView,
    brokenLinks: seq<string>)

  datatype Report = Report(domain: string, sitemapUrl: string, scanDate: string, summary: Summary, pages: seq<PageView>)

  const STATUS_PREFIX := "Status: "

  /** The status badge, shown only for a truthy code: green for a 2xx code,
      red for any other, and its text gives the code back. */
  function ShowStatus(code: Option<int>): (b: Option<StatusBadge>)
    ensures b.Some? <==> NonZero(code)
    ensures b.Some? ==> (b.value.green <==> 200 <= code.value < 300)
    ensures b.Some? ==>
      |b.value.text| > |STATUS_PREFIX| && b.value.text[..|STATUS_PREFIX|] == STATUS_PREFIX
      && ParseInt(b.value.text[|STATUS_PREFIX|..]) == Some(code.value)
  {
    if NonZero(code) then
      var digits := IntToString(code.value);
      IntStringRoundTrip(code.value);
      assert (STATUS_PREFIX + digits)[|STATUS_PREFIX|..] == digits;
      Some(StatusBadge(STATUS_PREFIX + digits, 200 <= code.value && code.value < 300))
    else None
  }

  /** The load-time badge, shown only for a truthy load time. */
  function ShowLoadTime(t: Option<int>): (b: Option<string>)
    ensures b.Some? <==> NonZero(t)
  {
    if NonZero(t) then Some("Load Time: " + IntToString(t.value) + "ms") else None
  }

  function ShowPage(u: UrlAnalysis): PageView {
    PageView(u.url, ShowStatus(u.statusCode), ShowLoadTime(u.loadTime),
      ShowField(u.title), ShowField(u.description), ShowField(u.ogImage),
      if HasBrokenLinks(u) then u.brokenLinks.value else [])
  }

  /** `generateScanReport`: None where `new URL` throws on the sitemap
      address; otherwise the host name, the summary of the pages and one
      view per page, in order. The scan date comes in already formatted. */
  function GenerateScanReport(sitemapUrl: string, scanDate: string, results: seq<UrlAnalysis>,
                              hostOf: string -> Option<string>): (r: Option<Report>)
    ensures r.None? <==> hostOf(sitemapUrl).None?
    ensures r.Some? ==> r.value.domain == hostOf(sitemapUrl).value && |r.value.pages| == |results|
  {
    match hostOf(sitemapUrl)
    case None => None
    case Some(domain) =>
      Some(Report(domain, sitemapUrl, scanDate, Summarize(results),
        seq(|results|, i requires 0 <= i < |results| => ShowPage(results[i]))))
  }

  /** What a page view shows in red for each of the summary's checks. */
  predicate Shows(p: PageView, c: Check) {
    match c
    case MissingTitle => p.title.missing
    case MissingDescription => p.description.missing
    case MissingOgImage => p.ogImage.missing
    case BrokenLinks => p.brokenLinks != []
    case AnyIssue => p.title.missing || p.description.missing || p.ogImage.missing || p.brokenLinks != []
  }

  /** How many page views show the check in red. */
  function CountShown(ps: seq<PageView>, c: Check): (n: nat)
    ensures n <= |ps|
  {
    if |ps| == 0 then 0
    else CountShown(ps[..|ps| - 1], c) + (if Shows(ps[|ps| - 1], c) then 1 else 0)
  }

  /** A page's view shows a check in red exactly when the page fails it. */
  lemma ShowPageFaithful(u: UrlAnalysis, c: Check)
    ensures Shows(ShowPage(u), c) <==> Fails(u, c)
  {
  }

  lemma {:induction false} CountShownPages(rs: seq<UrlAnalysis>, c: Check)
    ensures CountShown(seq(|rs|, i requires 0 <= i < |rs| => ShowPage(rs[i])), c) == Count(rs, c)
  {
    if |rs| > 0 {
      var ps := seq(|rs|, i requires 0 <= i < |rs| => ShowPage(rs[i]));
      var init := rs[..|rs| - 1];
      CountShownPages(init, c);
      assert ps[..|ps| - 1] == seq(|init|, i requires 0 <= i < |init| => ShowPage(init[i]));
      ShowPageFaithful(rs[|rs| - 1], c);
    }
  }

  /** Every summary card agrees with the detailed results below it: the
      missing-title, missing-description and missing-image cards count the
      pages showing that field as `Missing`, the broken-links card the pages
      with a broken-links section, and the issues card the pages showing
      anything in red. */
  lemma SummaryCardsMatchPages(sitemapUrl: string, scanDate: string, results: seq<UrlAnalysis>,
                               hostOf: string -> Option<string>)
    requires hostOf(sitemapUrl).Some?
    ensures var r := GenerateScanReport(sitemapUrl, scanDate, results, hostOf).value;
      r.summary.totalUrls == |r.pages|
      && r.summary.urlsWithoutTitle == CountShown(r.pages, MissingTitle)
      && r.summary.urlsWithoutDescription == CountShown(r.pages, MissingDescription)
      && r.summary.urlsWithoutOgImage == CountShown(r.pages, MissingOgImage)
      && r.summary.urlsWithBrokenLinks == CountShown(r.pages, BrokenLinks)
      && r.summary.urlsWithIssues == CountShown(r.pages, AnyIssue)
  {
    CountShownPages(results, MissingTitle);
    CountShownPages(results, MissingDescription);
    CountShownPages(results, MissingOgImage);
    CountShownPages(results, BrokenLinks);
    CountShownPages(results, AnyIssue);
  }
}
