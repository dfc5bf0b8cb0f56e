/** The exports of one stored scan: a CSV file with one line per page, and a
    JSON document with the scan's details, its summary counts and the pages
    themselves. */
module ScanExport {
  import opened Wrappers
  import opened Text
  import opened Csv
  import opened JsonValues
  import opened ScanResults

  const SCAN_HEADERS: seq<string> := ["URL", "Status Code", "Load Time (ms)", "Has Title",
                                      "Has Description", "Has OG Image", "Broken Links Count", "Broken Links"]

  /** `value || ''` on a number: its decimal text when it is truthy, nothing otherwise. */
  function NumberText(v: Option<int>): string {
    if NonZero(v) then IntToString(v.value) else ""
  }

  function YesNo(b: bool): string {
    if b then "Yes" else "No"
  }

  /** `brokenLinks?.length || 0`. */
  function LinkCount(u: UrlAnalysis): nat {
    |ListedLinks(u.brokenLinks)|
  }

  /** `brokenLinks.join(', ')`. */
  function LinksText(u: UrlAnalysis): string {
    Join(ListedLinks(u.brokenLinks), ", ")
  }

  /** The values of a page's line. */
  function ScanFields(u: UrlAnalysis): (fs: seq<string>)
    ensures |fs| == |SCAN_HEADERS|
  {
    [u.url, NumberText(u.statusCode), NumberText(u.loadTime), YesNo(Present(u.title)),
     YesNo(Present(u.description)), YesNo(Present(u.ogImage)), NatToString(LinkCount(u)),
     LinksText(u)]
  }

  /** What each column of a page's line says about the page: the URL; the
      status code and load time, which read back as numbers when they were
      truthy and are empty otherwise; `Yes` exactly for the fields that are
      there; the number of broken links; and the links themselves. */
  lemma ScanFieldsMeaning(u: UrlAnalysis)
    ensures ScanFields(u)[0] == u.url
    ensures NonZero(u.statusCode) ==> ParseInt(ScanFields(u)[1]) == u.statusCode
    ensures !NonZero(u.statusCode) ==> ScanFields(u)[1] == ""
    ensures NonZero(u.loadTime) ==> ParseInt(ScanFields(u)[2]) == u.loadTime
    ensures !NonZero(u.loadTime) ==> ScanFields(u)[2] == ""
    ensures ScanFields(u)[3] == "Yes" <==> !Fails(u, MissingTitle)
    ensures ScanFields(u)[4] == "Yes" <==> !Fails(u, MissingDescription)
    ensures ScanFields(u)[5] == "Yes" <==> !Fails(u, MissingOgImage)
    ensures ParseInt(ScanFields(u)[6]) == Some(LinkCount(u))
    ensures LinkCount(u) > 0 <==> Fails(u, BrokenLinks)
  {
    if NonZero(u.statusCode) {
      IntStringRoundTrip(u.statusCode.value);
    }
    if NonZero(u.loadTime) {
      IntStringRoundTrip(u.loadTime.value);
    }
    IntStringRoundTrip(LinkCount(u));
  }

  /** How `generateScanCSV` writes a page's line: the URL and the links between
      quotes with any quote inside them left as it is, the links cell empty
      when the page has no list, the other values bare. */
  function ScanLine(u: UrlAnalysis): (cells: seq<Cell>)
    ensures Texts(cells) == ScanFields(u)
  {
    var fs := ScanFields(u);
    var cells := [Wrapped(u.url), Bare(fs[1]), Bare(fs[2]), Bare(fs[3]), Bare(fs[4]), Bare(fs[5]), Bare(fs[6]),
                  if u.brokenLinks.Some? then Wrapped(fs[7]) else Bare("")];
    assert Texts(cells) == fs;
    cells
  }

  /** `generateScanCSV`: the headings, then one line per page. */
  function GenerateScanCsv(results: seq<UrlAnalysis>): string {
    Document([BareCells(SCAN_HEADERS)] + seq(|results|, i requires 0 <= i < |results| => ScanLine(results[i])))
  }

  /** The corrected writer: the URL and the links between quotes with inner
      quotes doubled, as the history export writes every value. */
  function ScanLineEscaped(u: UrlAnalysis): (cells: seq<Cell>)
    ensures Texts(cells) == ScanFields(u)
  {
    var fs := ScanFields(u);
    var cells := [Escaped(u.url), Bare(fs[1]), Bare(fs[2]), Bare(fs[3]), Bare(fs[4]), Bare(fs[5]), Bare(fs[6]),
                  if u.brokenLinks.Some? then Escaped(fs[7]) else Bare("")];
    assert Texts(cells) == fs;
    cells
  }

  function GenerateScanCsvEscaped(results: seq<UrlAnalysis>): string {
    Document([BareCells(SCAN_HEADERS)] + seq(|results|, i requires 0 <= i < |results| => ScanLineEscaped(results[i])))
  }

  /** The table a reader should get back: the headings, then each page's values. */
  function ScanTable(results: seq<UrlAnalysis>): seq<seq<string>> {
    [SCAN_HEADERS] + seq(|results|, i requires 0 <= i < |results| => ScanFields(results[i]))
  }

  /** No double quote in the page's URL or in any of its broken links. */
  predicate QuoteFree(u: UrlAnalysis) {
    '"' !in u.url && forall k :: 0 <= k < |ListedLinks(u.brokenLinks)| ==> '"' !in ListedLinks(u.brokenLinks)[k]
  }

  lemma ScanHeadingsReadable()
    ensures AllReadable(BareCells(SCAN_HEADERS))
  {
    var cells := BareCells(SCAN_HEADERS);
    forall k | 0 <= k < |cells|
      ensures Readable(cells[k])
    {
      assert cells[k] == Bare(SCAN_HEADERS[k]);
      PlainScanHeading(SCAN_HEADERS[k]);
    }
  }

  lemma PlainScanHeading(h: string)
    requires h in SCAN_HEADERS
    ensures '"' !in h && ',' !in h && '\n' !in h
  {
    if h == "URL" || h == "Status Code" || h == "Load Time (ms)" || h == "Has Title" {
    } else {
      assert h == "Has Description" || h == "Has OG Image" || h == "Broken Links Count" || h == "Broken Links";
    }
  }

  /** Decimal numbers, `Yes` and `No` hold no quote, comma or line feed. */
  lemma BareValuesReadable(u: UrlAnalysis)
    ensures forall k :: 1 <= k <= 6 ==> Readable(Bare(ScanFields(u)[k]))
  {
    forall k | 1 <= k <= 6
      ensures Readable(Bare(ScanFields(u)[k]))
    {
      if k == 1 {
        NumberTextPlain(u.statusCode);
      } else if k == 2 {
        NumberTextPlain(u.loadTime);
      } else if k == 6 {
        DigitsPlain(NatToString(LinkCount(u)));
      }
    }
  }

  lemma NumberTextPlain(v: Option<int>)
    ensures Readable(Bare(NumberText(v)))
  {
    if NonZero(v) {
      var d := NatToString(if v.value < 0 then -v.value else v.value);
      DigitsPlain(d);
      assert NumberText(v) == d || NumberText(v) == "-" + d;
    }
  }

  lemma DigitsPlain(d: string)
    requires AllDigits(d)
    ensures '"' !in d && ',' !in d && '\n' !in d
  {
  }

  /** Lines of readable cells holding the pages' values read back, under the
      headings, as the scan's table. */
  lemma ReadScanLines(lines: seq<seq<Cell>>, results: seq<UrlAnalysis>)
    requires |lines| == |results|
    requires forall i :: 0 <= i < |lines| ==> AllReadable(lines[i]) && Texts(lines[i]) == ScanFields(results[i])
    ensures ReadCsv(Document([BareCells(SCAN_HEADERS)] + lines)) == Some(ScanTable(results))
  {
    var rows := [BareCells(SCAN_HEADERS)] + lines;
    ScanHeadingsReadable();
    assert forall i :: 1 <= i < |rows| ==> rows[i] == lines[i - 1];
    ReadDocument(rows);
    assert Table(rows) == ScanTable(results);
  }

  /** When no URL or link holds a double quote, reading the file back gives
      the headings and each page's values, line by line. */
  lemma ScanCsvReadsBack(results: seq<UrlAnalysis>)
    requires forall i :: 0 <= i < |results| ==> QuoteFree(results[i])
    ensures ReadCsv(GenerateScanCsv(results)) == Some(ScanTable(results))
  {
    var lines := seq(|results|, i requires 0 <= i < |results| => ScanLine(results[i]));
    forall i | 0 <= i < |lines|
      ensures AllReadable(lines[i])
    {
      ScanLineReadable(results[i]);
    }
    ReadScanLines(lines, results);
  }

  lemma ScanLineReadable(u: UrlAnalysis)
    requires QuoteFree(u)
    ensures AllReadable(ScanLine(u))
  {
    BareValuesReadable(u);
    if u.brokenLinks.Some? {
      JoinAvoids(ListedLinks(u.brokenLinks), ", ", '"');
    }
  }

  lemma ScanLineEscapedReadable(u: UrlAnalysis)
    ensures AllReadable(ScanLineEscaped(u))
  {
    BareValuesReadable(u);
  }

  /** The corrected writer reads back whatever the URLs and links hold. */
  lemma ScanCsvEscapedReadsBack(results: seq<UrlAnalysis>)
    ensures ReadCsv(GenerateScanCsvEscaped(results)) == Some(ScanTable(results))
  {
    var lines := seq(|results|, i requires 0 <= i < |results| => ScanLineEscaped(results[i]));
    forall i | 0 <= i < |lines|
      ensures AllReadable(lines[i])
    {
      ScanLineEscapedReadable(results[i]);
    }
    ReadScanLines(lines, results);
  }

  /** As written, a URL with a double quote followed by anything but a
      separator makes the file unreadable: the quote closes the URL's cell
      early and the rest of the URL is left where a comma should be. */
  lemma QuotedUrlBreaksScanCsv(results: seq<UrlAnalysis>, a: string, b: string)
    requires |results| >= 1 && results[0].url == a + "\"" + b
    requires '"' !in a && |b| > 0 && b[0] != '"' && b[0] != ',' && b[0] != '\n'
    ensures ReadCsv(GenerateScanCsv(results)) == None
  {
    var lines := seq(|results|, i requires 0 <= i < |results| => ScanLine(results[i]));
    var rows := [BareCells(SCAN_HEADERS)] + lines;
    assert rows[1..] == lines;
    var tail := Document(lines);
    DocumentCons(rows);
    ScanHeadingsReadable();
    ReadRecordOf(rows[0], "\n" + tail);
    DocumentStarts(lines);
    var more :| tail == CellText(Wrapped(a + "\"" + b)) + more;
    WrappedQuoteUnreadable(a, b, more);
    UnreadableLine(GenerateScanCsv(results), SCAN_HEADERS, tail);
  }

  /** One such page: the URL `a"b`. */
  lemma ScanCsvUnreadableExample()
    ensures ReadCsv(GenerateScanCsv([UrlAnalysis("a\"b", None, None, None, None, None, None)])) == None
  {
    var u := UrlAnalysis("a\"b", None, None, None, None, None, None);
    assert u.url == "a" + "\"" + "b";
    QuotedUrlBreaksScanCsv([u], "a", "b");
  }

  /** An optional text member, left out when the field is absent. */
  function TextMember(key: string, v: Option<string>): seq<Member> {
    if v.Some? then [Member(key, JStr(v.value))] else []
  }

  function NumberMember(key: string, v: Option<int>): seq<Member> {
    if v.Some? then [Member(key, JNum(v.value))] else []
  }

  function TextArray(ts: seq<string>): (items: seq<Json>)
    ensures |items| == |ts|
  {
    seq(|ts|, k requires 0 <= k < |ts| => JStr(ts[k]))
  }

  /** One JSON object that stores a page: its fields in declaration order,
      the absent ones left out. A stored page may order its members otherwise
      or carry more of them; the JSON export passes it on as it is. */
  function AnalysisJson(u: UrlAnalysis): Json {
    JObj([Member("url", JStr(u.url))]
      + TextMember("title", u.title) + TextMember("description", u.description) + TextMember("ogImage", u.ogImage)
      + (if u.brokenLinks.Some? then [Member("brokenLinks", JArr(TextArray(u.brokenLinks.value)))] else [])
      + NumberMember("statusCode", u.statusCode) + NumberMember("loadTime", u.loadTime))
  }

  /** The texts of an array of strings; None when an item is not a string. */
  function ArrayTexts(items: seq<Json>): (r: Option<seq<string>>)
    ensures r.Some? ==> |r.value| == |items|
    decreases |items|
  {
    if |items| == 0 then Some([])
    else if !items[0].JStr? then None
    else
      match ArrayTexts(items[1..])
      case None => None
      case Some(ts) => Some([items[0].s] + ts)
  }

  lemma {:induction false} TextsOfArray(ts: seq<string>)
    ensures ArrayTexts(TextArray(ts)) == Some(ts)
    decreases |ts|
  {
    if |ts| > 0 {
      TextsOfArray(ts[1..]);
      assert TextArray(ts)[1..] == TextArray(ts[1..]);
      assert ts == [ts[0]] + ts[1..];
    }
  }

  /** Reading one member of a parsed page: a known key sets its field, and
      fails when its value has the wrong type; any other key is ignored. */
  function ReadMember(u: UrlAnalysis, m: Member): Option<UrlAnalysis> {
    var v := m.value;
    if m.key == "url" then (if v.JStr? then Some(u.(url := v.s)) else None)
    else if m.key == "title" then (if v.JStr? then Some(u.(title := Some(v.s))) else None)
    else if m.key == "description" then (if v.JStr? then Some(u.(description := Some(v.s))) else None)
    else if m.key == "ogImage" then (if v.JStr? then Some(u.(ogImage := Some(v.s))) else None)
    else if m.key == "brokenLinks" then
      (if v.JArr? && ArrayTexts(v.items).Some? then Some(u.(brokenLinks := ArrayTexts(v.items))) else None)
    else if m.key == "statusCode" then (if v.JNum? then Some(u.(statusCode := Some(v.n))) else None)
    else if m.key == "loadTime" then (if v.JNum? then Some(u.(loadTime := Some(v.n))) else None)
    else Some(u)
  }

  /** The members of an object read in order, a later key overriding an earlier one. */
  function ReadMembers(u: UrlAnalysis, ms: seq<Member>): Option<UrlAnalysis>
    decreases |ms|
  {
    if |ms| == 0 then Some(u)
    else
      match ReadMember(u, ms[0])
      case None => None
      case Some(w) => ReadMembers(w, ms[1..])
  }

  const NO_FIELDS := UrlAnalysis("", None, None, None, None, None, None)

  /** A parsed page read as a `UrlAnalysis`; None for anything but an object
      whose known fields have the declared types. */
  function ReadAnalysis(j: Json): Option<UrlAnalysis> {
    if j.JObj? then ReadMembers(NO_FIELDS, j.members) else None
  }

  lemma {:induction false} ReadMembersAppend(u: UrlAnalysis, a: seq<Member>, b: seq<Member>)
    ensures ReadMembers(u, a + b) == match ReadMembers(u, a)
      case None => None
      case Some(w) => ReadMembers(w, b)
    decreases |a|
  {
    if |a| == 0 {
      assert a + b == b;
    } else {
      assert (a + b)[1..] == a[1..] + b;
      match ReadMember(u, a[0])
      case None =>
      case Some(w) => ReadMembersAppend(w, a[1..], b);
    }
  }

  lemma ReadTitle(u: UrlAnalysis, v: Option<string>)
    ensures ReadMembers(u, TextMember("title", v)) == Some(if v.Some? then u.(title := v) else u)
  {
  }

  lemma ReadDescription(u: UrlAnalysis, v: Option<string>)
    ensures ReadMembers(u, TextMember("description", v)) == Some(if v.Some? then u.(description := v) else u)
  {
  }

  lemma ReadOgImage(u: UrlAnalysis, v: Option<string>)
    ensures ReadMembers(u, TextMember("ogImage", v)) == Some(if v.Some? then u.(ogImage := v) else u)
  {
  }

  lemma ReadLinks(u: UrlAnalysis, v: Option<seq<string>>)
    ensures ReadMembers(u, if v.Some? then [Member("brokenLinks", JArr(TextArray(v.value)))] else [])
      == Some(if v.Some? then u.(brokenLinks := v) else u)
  {
    if v.Some? {
      TextsOfArray(v.value);
    }
  }

  lemma ReadStatusCode(u: UrlAnalysis, v: Option<int>)
    ensures ReadMembers(u, NumberMember("statusCode", v)) == Some(if v.Some? then u.(statusCode := v) else u)
  {
  }

  lemma ReadLoadTime(u: UrlAnalysis, v: Option<int>)
    ensures ReadMembers(u, NumberMember("loadTime", v)) == Some(if v.Some? then u.(loadTime := v) else u)
  {
  }

  /** A page written by the JSON export reads back as the same page: every
      field there is written under its own key with its own type, and an
      absent field is read as absent. */
  lemma AnalysisJsonReadsBack(u: UrlAnalysis)
    ensures ReadAnalysis(AnalysisJson(u)) == Some(u)
  {
    var m0 := [Member("url", JStr(u.url))];
    var m1 := TextMember("title", u.title);
    var m2 := TextMember("description", u.description);
    var m3 := TextMember("ogImage", u.ogImage);
    var m4 := if u.brokenLinks.Some? then [Member("brokenLinks", JArr(TextArray(u.brokenLinks.value)))] else [];
    var m5 := NumberMember("statusCode", u.statusCode);
    var m6 := NumberMember("loadTime", u.loadTime);
    var w0 := NO_FIELDS.(url := u.url);
    var w1 := w0.(title := u.title);
    var w2 := w1.(description := u.description);
    var w3 := w2.(ogImage := u.ogImage);
    var w4 := w3.(brokenLinks := u.brokenLinks);
    var w5 := w4.(statusCode := u.statusCode);
    assert ReadMembers(NO_FIELDS, m0) == Some(w0);
    ReadMembersAppend(NO_FIELDS, m0, m1);
    ReadTitle(w0, u.title);
    ReadMembersAppend(NO_FIELDS, m0 + m1, m2);
    ReadDescription(w1, u.description);
    ReadMembersAppend(NO_FIELDS, m0 + m1 + m2, m3);
    ReadOgImage(w2, u.ogImage);
    ReadMembersAppend(NO_FIELDS, m0 + m1 + m2 + m3, m4);
    ReadLinks(w3, u.brokenLinks);
    ReadMembersAppend(NO_FIELDS, m0 + m1 + m2 + m3 + m4, m5);
    ReadStatusCode(w4, u.statusCode);
    ReadMembersAppend(NO_FIELDS, m0 + m1 + m2 + m3 + m4 + m5, m6);
    ReadLoadTime(w5, u.loadTime);
  }

  /** The `summary` object, its counts in the order the source lists them. */
  function SummaryJson(s: Summary): Json {
    JObj([Member("totalUrls", JNum(s.totalUrls)), Member("urlsWithIssues", JNum(s.urlsWithIssues)),
          Member("urlsWithBrokenLinks", JNum(s.urlsWithBrokenLinks)), Member("urlsWithoutTitle", JNum(s.urlsWithoutTitle)),
          Member("urlsWithoutDescription", JNum(s.urlsWithoutDescription)), Member("urlsWithoutOgImage", JNum(s.urlsWithoutOgImage))])
  }

  /** A page of the summary that names one of the four keys the summary
      reads keeps, for that field, the value last given under the key, of
      the declared type; a field never named keeps its starting value. */
  predicate TextAgrees(start: Option<string>, field: Option<string>, v: Option<Json>) {
    match v
    case None => field == start
    case Some(j) => j.JStr? && field == Some(j.s)
  }

  predicate LinksAgree(start: Option<seq<string>>, field: Option<seq<string>>, v: Option<Json>) {
    match v
    case None => field == start
    case Some(j) => j.JArr? && ArrayTexts(j.items).Some? && field == ArrayTexts(j.items)
  }

  /** Reading one member sets the field of its key, to a value of the
      declared type, and leaves the other summary fields as they were. */
  lemma ReadMemberEffect(w: UrlAnalysis, m: Member, u: UrlAnalysis)
    requires ReadMember(w, m) == Some(u)
    ensures TextAgrees(w.title, u.title, if m.key == "title" then Some(m.value) else None)
    ensures TextAgrees(w.description, u.description, if m.key == "description" then Some(m.value) else None)
    ensures TextAgrees(w.ogImage, u.ogImage, if m.key == "ogImage" then Some(m.value) else None)
    ensures LinksAgree(w.brokenLinks, u.brokenLinks, if m.key == "brokenLinks" then Some(m.value) else None)
  {
  }

  /** Property access on members that end with `last`. */
  lemma LookupLast(init: seq<Member>, last: Member, key: string)
    ensures Lookup(init + [last], key) == if last.key == key then Some(last.value) else Lookup(init, key)
  {
    assert (init + [last])[..|init + [last]| - 1] == init;
  }

  /** Reading a page's members in order leaves each summary field holding
      what property access finds under its key: the last value given. */
  lemma {:induction false} ReadMembersLast(u0: UrlAnalysis, ms: seq<Member>, u: UrlAnalysis)
    requires ReadMembers(u0, ms) == Some(u)
    ensures TextAgrees(u0.title, u.title, Lookup(ms, "title"))
    ensures TextAgrees(u0.description, u.description, Lookup(ms, "description"))
    ensures TextAgrees(u0.ogImage, u.ogImage, Lookup(ms, "ogImage"))
    ensures LinksAgree(u0.brokenLinks, u.brokenLinks, Lookup(ms, "brokenLinks"))
    decreases |ms|
  {
    if |ms| > 0 {
      var init := ms[..|ms| - 1];
      var last := ms[|ms| - 1];
      assert ms == init + [last];
      ReadMembersAppend(u0, init, [last]);
      var w := ReadMembers(u0, init).value;
      ReadMembersOne(w, last);
      ReadMemberEffect(w, last, u);
      ReadMembersLast(u0, init, w);
      LookupLast(init, last, "title");
      LookupLast(init, last, "description");
      LookupLast(init, last, "ogImage");
      LookupLast(init, last, "brokenLinks");
    }
  }

  lemma ReadMembersOne(w: UrlAnalysis, m: Member)
    ensures ReadMembers(w, [m]) == ReadMember(w, m)
  {
  }

  /** `url[key]` is truthy on a parsed page; property access on anything but
      an object finds nothing. */
  predicate TruthyMember(page: Json, key: string) {
    var v := Get(page, key);
    v.Some? && Truthy(v.value)
  }

  /** `value.length > 0` on a truthy value: an array or a string that is not
      empty, or an object whose `length` member is a positive number or
      `true`; numbers and booleans have no `length`. */
  predicate LengthPositive(v: Json) {
    match v
    case JArr(items) => |items| > 0
    case JStr(s) => s != ""
    case JObj(_) =>
      var n := Get(v, "length");
      n.Some? && ((n.value.JNum? && n.value.n > 0) || n.value == JBool(true))
    case _ => false
  }

  /** `url.brokenLinks && url.brokenLinks.length > 0` on a parsed page. */
  predicate PageHasLinks(page: Json) {
    var v := Get(page, "brokenLinks");
    v.Some? && Truthy(v.value) && LengthPositive(v.value)
  }

  /** The five filters of the summary applied to a parsed page as it is. */
  predicate PageFails(page: Json, c: Check) {
    match c
    case MissingTitle => !TruthyMember(page, "title")
    case MissingDescription => !TruthyMember(page, "description")
    case MissingOgImage => !TruthyMember(page, "ogImage")
    case BrokenLinks => PageHasLinks(page)
    case AnyIssue =>
      !TruthyMember(page, "title") || !TruthyMember(page, "description") || !TruthyMember(page, "ogImage")
      || PageHasLinks(page)
  }

  /** On a page that reads as a `UrlAnalysis`, each filter says what it says
      of that record. */
  lemma PageFailsAsRead(page: Json, u: UrlAnalysis, c: Check)
    requires ReadAnalysis(page) == Some(u)
    ensures PageFails(page, c) <==> Fails(u, c)
  {
    PageFieldsAsRead(page, u);
  }

  /** The four fields the summary reads, on a page that reads as `u`. */
  lemma PageFieldsAsRead(page: Json, u: UrlAnalysis)
    requires ReadAnalysis(page) == Some(u)
    ensures TruthyMember(page, "title") <==> Present(u.title)
    ensures TruthyMember(page, "description") <==> Present(u.description)
    ensures TruthyMember(page, "ogImage") <==> Present(u.ogImage)
    ensures PageHasLinks(page) <==> HasBrokenLinks(u)
  {
    ReadMembersLast(NO_FIELDS, page.members, u);
    TextTruthy(u.title, Get(page, "title"));
    TextTruthy(u.description, Get(page, "description"));
    TextTruthy(u.ogImage, Get(page, "ogImage"));
    LinksPositive(u.brokenLinks, Get(page, "brokenLinks"));
  }

  /** A text field read from a value found under its key is truthy exactly
      when that value is. */
  lemma TextTruthy(field: Option<string>, v: Option<Json>)
    requires TextAgrees(None, field, v)
    ensures (v.Some? && Truthy(v.value)) <==> Present(field)
  {
  }

  /** A link list read from a value found under its key is non-empty exactly
      when that value is truthy with a positive length. */
  lemma LinksPositive(field: Option<seq<string>>, v: Option<Json>)
    requires LinksAgree(None, field, v)
    ensures (v.Some? && Truthy(v.value) && LengthPositive(v.value)) <==> (field.Some? && |field.value| > 0)
  {
  }

  /** `parsedResults.filter(check).length`. */
  function PageCount(pages: seq<Json>, c: Check): (n: nat)
    ensures n <= |pages|
  {
    if |pages| == 0 then 0
    else PageCount(pages[..|pages| - 1], c) + (if PageFails(pages[|pages| - 1], c) then 1 else 0)
  }

  /** The `summary` object of `generateScanJSON`, over the parsed pages. */
  function PageSummary(pages: seq<Json>): Summary {
    Summary(|pages|, PageCount(pages, AnyIssue), PageCount(pages, BrokenLinks),
      PageCount(pages, MissingTitle), PageCount(pages, MissingDescription), PageCount(pages, MissingOgImage))
  }

  lemma {:induction false} PageCountAsRead(pages: seq<Json>, results: seq<UrlAnalysis>, c: Check)
    requires |pages| == |results|
    requires forall i :: 0 <= i < |pages| ==> ReadAnalysis(pages[i]) == Some(results[i])
    ensures PageCount(pages, c) == Count(results, c)
    decreases |pages|
  {
    if |pages| > 0 {
      var n := |pages| - 1;
      PageCountAsRead(pages[..n], results[..n], c);
      PageFailsAsRead(pages[n], results[n], c);
    }
  }

  /** Pages that read as typed records give the summary of those records, so
      every count is at most the issue count, and that one at most the URL
      count and at most the sum of the four others. */
  lemma PageSummaryAsRead(pages: seq<Json>, results: seq<UrlAnalysis>)
    requires |pages| == |results|
    requires forall i :: 0 <= i < |pages| ==> ReadAnalysis(pages[i]) == Some(results[i])
    ensures PageSummary(pages) == Summarize(results)
  {
    PageCountAsRead(pages, results, AnyIssue);
    PageCountAsRead(pages, results, BrokenLinks);
    PageCountAsRead(pages, results, MissingTitle);
    PageCountAsRead(pages, results, MissingDescription);
    PageCountAsRead(pages, results, MissingOgImage);
  }

  /** `generateScanJSON` before `JSON.stringify`: the scan's details (the
      sitemap, its host name and the two dates, passed in as ISO strings),
      the summary of the pages and the parsed pages themselves, unchanged.
      None where `new URL` throws on the sitemap address, or where a page is
      `null` and reading its `title` throws. */
  function GenerateScanJson(sitemapUrl: string, scanDate: string, exportDate: string, pages: seq<Json>,
                            hostOf: string -> Option<string>): (r: Option<Json>)
    ensures r.None? <==> hostOf(sitemapUrl).None? || JNull in pages
  {
    match hostOf(sitemapUrl)
    case None => None
    case Some(domain) =>
      if JNull in pages then None
      else
        Some(JObj([
          Member("scanInfo", JObj([Member("sitemapUrl", JStr(sitemapUrl)), Member("domain", JStr(domain)),
                                   Member("scanDate", JStr(scanDate)), Member("exportDate", JStr(exportDate))])),
          Member("summary", SummaryJson(PageSummary(pages))),
          Member("results", JArr(pages))]))
  }

  /** The export's `results` are the parsed pages exactly, every member and
      its order kept, and its `summary` is their summary. */
  lemma ExportEchoesPages(sitemapUrl: string, scanDate: string, exportDate: string, pages: seq<Json>,
                          hostOf: string -> Option<string>)
    requires GenerateScanJson(sitemapUrl, scanDate, exportDate, pages, hostOf).Some?
    ensures var e := GenerateScanJson(sitemapUrl, scanDate, exportDate, pages, hostOf).value;
      Get(e, "results") == Some(JArr(pages)) && Get(e, "summary") == Some(SummaryJson(PageSummary(pages)))
  {
    var e := GenerateScanJson(sitemapUrl, scanDate, exportDate, pages, hostOf).value;
    ExportMembers(e.members[0].value, SummaryJson(PageSummary(pages)), JArr(pages));
  }

  /** The pages of an export's `results` array, read back one by one. */
  function ReadResults(v: Option<Json>): Option<seq<UrlAnalysis>> {
    if v.Some? && v.value.JArr? && forall i :: 0 <= i < |v.value.items| ==> ReadAnalysis(v.value.items[i]).Some?
    then Some(seq(|v.value.items|, i requires 0 <= i < |v.value.items| => ReadAnalysis(v.value.items[i]).value))
    else None
  }

  /** Pages that read as typed records come out unchanged, read back as
      those records, and sit beside the summary of exactly those records. */
  lemma ScanJsonReadsBack(sitemapUrl: string, scanDate: string, exportDate: string, pages: seq<Json>,
                          results: seq<UrlAnalysis>, hostOf: string -> Option<string>)
    requires hostOf(sitemapUrl).Some?
    requires |pages| == |results|
    requires forall i :: 0 <= i < |pages| ==> ReadAnalysis(pages[i]) == Some(results[i])
    ensures GenerateScanJson(sitemapUrl, scanDate, exportDate, pages, hostOf).Some?
    ensures var e := GenerateScanJson(sitemapUrl, scanDate, exportDate, pages, hostOf).value;
      Get(e, "results") == Some(JArr(pages))
      && ReadResults(Get(e, "results")) == Some(results)
      && Get(e, "summary") == Some(SummaryJson(Summarize(results)))
  {
    assert JNull !in pages by {
      forall i | 0 <= i < |pages|
        ensures pages[i] != JNull
      {
        assert ReadAnalysis(pages[i]).Some?;
      }
    }
    ExportEchoesPages(sitemapUrl, scanDate, exportDate, pages, hostOf);
    PageSummaryAsRead(pages, results);
    assert seq(|pages|, i requires 0 <= i < |pages| => ReadAnalysis(pages[i]).value) == results;
  }

  lemma ExportMembers(info: Json, summary: Json, results: Json)
    ensures var e := JObj([Member("scanInfo", info), Member("summary", summary), Member("results", results)]);
      Get(e, "summary") == Some(summary) && Get(e, "results") == Some(results)
  {
    var ms := [Member("scanInfo", info), Member("summary", summary), Member("results", results)];
    assert "results" != "summary";
    assert ms[..|ms| - 1] == [Member("scanInfo", info), Member("summary", summary)];
    assert Lookup(ms, "summary") == Lookup(ms[..|ms| - 1], "summary");
  }

  lemma ResultsReadBack(results: seq<UrlAnalysis>)
    ensures ReadResults(Some(JArr(seq(|results|, i requires 0 <= i < |results| => AnalysisJson(results[i]))))) == Some(results)
  {
    var items := seq(|results|, i requires 0 <= i < |results| => AnalysisJson(results[i]));
    forall i | 0 <= i < |results|
      ensures ReadAnalysis(items[i]) == Some(results[i])
    {
      AnalysisJsonReadsBack(results[i]);
    }
    assert seq(|items|, i requires 0 <= i < |items| => ReadAnalysis(items[i]).value) == results;
  }
}
