/** One page of a stored scan as the export and report generators read it
    back (`UrlAnalysis`), the JavaScript truthiness tests they apply to its
    optional fields, and the summary counts of a scan. The JSON export
    computes the same counts over the parsed pages as they are, and they
    agree with these on pages that read as records. */
module ScanResults {
  import opened Wrappers

  /** `UrlAnalysis`: every field but `url` may be absent. */
  datatype UrlAnalysis = UrlAnalysis(
    url: string,
    title: Option<string>,
    description: Option<string>,
    ogImage: Option<string>,
    brokenLinks: Option<seq<string>>,
    statusCode: Option<int>,
    loadTime: Option<int>)

  /** An optional string is truthy when it is there and not empty. */
  predicate Present(v: Option<string>) {
    v.Some? && v.value != ""
  }

  /** An optional number is truthy when it is there and not zero. */
  predicate NonZero(v: Option<int>) {
    v.Some? && v.value != 0
  }

  /** `url.brokenLinks && url.brokenLinks.length > 0`. */
  predicate HasBrokenLinks(u: UrlAnalysis) {
    u.brokenLinks.Some? && |u.brokenLinks.value| > 0
  }

  /** The five filters of the summary. */
  datatype Check = MissingTitle | MissingDescription | MissingOgImage | BrokenLinks | AnyIssue

  predicate Fails(u: UrlAnalysis, c: Check) {
    match c
    case MissingTitle => !Present(u.title)
    case MissingDescription => !Present(u.description)
    case MissingOgImage => !Present(u.ogImage)
    case BrokenLinks => HasBrokenLinks(u)
    case AnyIssue => !Present(u.title) || !Present(u.description) || !Present(u.ogImage) || HasBrokenLinks(u)
  }

  /** `results.filter(check).length`. */
  function Count(rs: seq<UrlAnalysis>, c: Check): (n: nat)
    ensures n <= |rs|
  {
    if |rs| == 0 then 0
    else Count(rs[..|rs| - 1], c) + (if Fails(rs[|rs| - 1], c) then 1 else 0)
  }

  /** The `summary` object. */
  datatype Summary = Summary(
    totalUrls: nat,
    urlsWithIssues: nat,
    urlsWithBrokenLinks: nat,
    urlsWithoutTitle: nat,
    urlsWithoutDescription: nat,
    urlsWithoutOgImage: nat)

  /** The summary of a scan: every URL with a missing field or a broken link
      counts once among the URLs with issues, whatever else it lacks, so each
      partial count is at most that one and that one at most their sum. */
  function Summarize(rs: seq<UrlAnalysis>): (s: Summary)
    ensures s.totalUrls == |rs| && s.urlsWithIssues <= s.totalUrls
    ensures s.urlsWithBrokenLinks <= s.urlsWithIssues
    ensures s.urlsWithoutTitle <= s.urlsWithIssues
    ensures s.urlsWithoutDescription <= s.urlsWithIssues
    ensures s.urlsWithoutOgImage <= s.urlsWithIssues
    ensures s.urlsWithIssues
      <= s.urlsWithoutTitle + s.urlsWithoutDescription + s.urlsWithoutOgImage + s.urlsWithBrokenLinks
    ensures s.urlsWithIssues == 0 <==> forall i :: 0 <= i < |rs| ==> !Fails(rs[i], AnyIssue)
  {
    CountBelowAny(rs, MissingTitle);
    CountBelowAny(rs, MissingDescription);
    CountBelowAny(rs, MissingOgImage);
    CountBelowAny(rs, BrokenLinks);
    CountAnyBelowSum(rs);
    CountZero(rs, AnyIssue);
    Summary(|rs|, Count(rs, AnyIssue), Count(rs, BrokenLinks),
      Count(rs, MissingTitle), Count(rs, MissingDescription), Count(rs, MissingOgImage))
  }

  /** A URL failing any one check has an issue, so no count exceeds the issue count. */
  lemma {:induction false} CountBelowAny(rs: seq<UrlAnalysis>, c: Check)
    ensures Count(rs, c) <= Count(rs, AnyIssue)
  {
    if |rs| > 0 {
      CountBelowAny(rs[..|rs| - 1], c);
    }
  }

  /** A URL with an issue fails at least one of the four checks. */
  lemma {:induction false} CountAnyBelowSum(rs: seq<UrlAnalysis>)
    ensures Count(rs, AnyIssue)
      <= Count(rs, MissingTitle) + Count(rs, MissingDescription) + Count(rs, MissingOgImage) + Count(rs, BrokenLinks)
  {
    if |rs| > 0 {
      CountAnyBelowSum(rs[..|rs| - 1]);
    }
  }

  /** No URL fails the check exactly when the count is zero. */
  lemma {:induction false} CountZero(rs: seq<UrlAnalysis>, c: Check)
    ensures Count(rs, c) == 0 <==> forall i :: 0 <= i < |rs| ==> !Fails(rs[i], c)
  {
    if |rs| > 0 {
      var init := rs[..|rs| - 1];
      CountZero(init, c);
      assert forall i :: 0 <= i < |init| ==> init[i] == rs[i];
    }
  }

  /** Counting a concatenation adds the counts of its parts. */
  lemma {:induction false} CountAppend(a: seq<UrlAnalysis>, b: seq<UrlAnalysis>, c: Check)
    ensures Count(a + b, c) == Count(a, c) + Count(b, c)
    decreases |b|
  {
    if |b| > 0 {
      assert (a + b)[..|a + b| - 1] == a + b[..|b| - 1];
      CountAppend(a, b[..|b| - 1], c);
    } else {
      assert a + b == a;
    }
  }

  /** The value an optional field holds when it is truthy, `fallback` otherwise:
      `value || fallback`. */
  function OrElse(v: Option<string>, fallback: string): (r: string)
    ensures Present(v) ==> r == v.value
    ensures !Present(v) ==> r == fallback
  {
    if Present(v) then v.value else fallback
  }

  /** How a metadata field is shown in the HTML exports: its value in the normal
      colour, or `Missing` in red when it is not truthy. */
  datatype FieldView = FieldView(text: string, missing: bool)

  function ShowField(v: Option<string>): (f: FieldView)
    ensures f.missing <==> !Present(v)
    ensures f.missing ==> f.text == "Missing"
  {
    FieldView(OrElse(v, "Missing"), !Present(v))
  }

  /** Two optional strings a reader of the page cannot tell apart: both falsy,
      or both truthy with the same text. */
  predicate ShownAlike(v: Option<string>, w: Option<string>) {
    (!Present(v) && !Present(w)) || (Present(v) && Present(w) && v.value == w.value)
  }

  /** Two fields look the same exactly when a reader cannot tell their values
      apart: a page whose title is the word `Missing` is still told apart from
      a page without a title, by the colour. */
  lemma ShowFieldFaithful(v: Option<string>, w: Option<string>)
    ensures ShowField(v) == ShowField(w) <==> ShownAlike(v, w)
  {
    if ShowField(v) == ShowField(w) && Present(v) {
      assert Present(w) && v.value == ShowField(v).text;
    }
  }

  /** The broken links a page lists: none when the field is absent. */
  function ListedLinks(links: Option<seq<string>>): seq<string> {
    if links.Some? then links.value else []
  }
}
