/** The history page's exports of past analyses: a CSV file with one line per
    analysis, and an HTML page whose table shows each analysis with a status
    badge and, when the analysis kept per-page details, a block listing each
    page's metadata. */
module HistoryExport {
  import opened Wrappers
  import opened Text
  import opened Csv
  import opened ScanResults

  /** One page of an analysis's `details`. */
  datatype Detail = Detail(
    url: string,
    title: Option<string>,
    description: Option<string>,
    ogImage: Option<string>,
    brokenLinks: Option<seq<string>>)

  /** One past analysis, as the history page hands it to the exporters. */
  datatype ExportItem = ExportItem(
    date: string,
    url: string,
    status: string,
    urlsAnalyzed: int,
    issuesFound: int,
    details: Option<seq<Detail>>)

  const HEADERS: seq<string> := ["Date", "Sitemap URL", "Status", "URLs Analyzed", "Issues Found"]

  /** The values of an item's line, the two counts written in decimal. */
  function Fields(item: ExportItem): (fs: seq<string>)
    ensures |fs| == |HEADERS|
  {
    [item.date, item.url, item.status, IntToString(item.urlsAnalyzed), IntToString(item.issuesFound)]
  }

  /** Every value of an item's line is written between quotes, inner quotes doubled. */
  function Line(item: ExportItem): (cells: seq<Cell>)
    ensures Texts(cells) == Fields(item)
  {
    var fs := Fields(item);
    var cells := seq(|fs|, k requires 0 <= k < |fs| => Escaped(fs[k]));
    assert Texts(cells) == fs;
    cells
  }

  /** The lines of the file: the headings, then one line per item. */
  function Lines(data: seq<ExportItem>): (rows: seq<seq<Cell>>)
    ensures |rows| == |data| + 1
  {
    [BareCells(HEADERS)] + seq(|data|, i requires 0 <= i < |data| => Line(data[i]))
  }

  /** `exportToCSV`: the headings joined by commas, then each item's quoted
      values; with no items, the headings alone. */
  function ExportToCsv(data: seq<ExportItem>): (csv: string)
    ensures |data| == 0 ==> csv == Join(HEADERS, ",")
  {
    var rows := Lines(data);
    assert |data| == 0 ==> Document(rows) == Join(HEADERS, ",") by {
      if |data| == 0 {
        assert seq(|rows|, i requires 0 <= i < |rows| => Record(rows[i])) == [Record(BareCells(HEADERS))];
        assert CellTexts(BareCells(HEADERS)) == HEADERS;
      }
    }
    Document(rows)
  }

  /** Reading the exported file back gives the headings and then, line by
      line, each item's date, URL, status and counts, whatever quotes,
      commas or line breaks those hold. */
  lemma ExportToCsvReadsBack(data: seq<ExportItem>)
    ensures ReadCsv(ExportToCsv(data)) == Some([HEADERS] + seq(|data|, i requires 0 <= i < |data| => Fields(data[i])))
  {
    var rows := Lines(data);
    forall i | 0 <= i < |rows|
      ensures |rows[i]| >= 1 && AllReadable(rows[i])
    {
      if i == 0 {
        HeadingsReadable();
      }
    }
    ReadDocument(rows);
    assert Table(rows) == [HEADERS] + seq(|data|, i requires 0 <= i < |data| => Fields(data[i]));
  }

  lemma HeadingsReadable()
    ensures AllReadable(BareCells(HEADERS))
  {
    var cells := BareCells(HEADERS);
    forall k | 0 <= k < |cells|
      ensures Readable(cells[k])
    {
      assert cells[k] == Bare(HEADERS[k]);
      PlainHeading(HEADERS[k]);
    }
  }

  lemma PlainHeading(h: string)
    requires h in HEADERS
    ensures '"' !in h && ',' !in h && '\n' !in h
  {
  }

  /** The two counts read back as the numbers they were written from. */
  lemma ExportedCountsReadBack(item: ExportItem)
    ensures ParseInt(Fields(item)[3]) == Some(item.urlsAnalyzed)
    ensures ParseInt(Fields(item)[4]) == Some(item.issuesFound)
  {
    IntStringRoundTrip(item.urlsAnalyzed);
    IntStringRoundTrip(item.issuesFound);
  }

  /** The badge colours: background and text. */
  datatype Badge = Badge(background: string, color: string)

  const COMPLETE_BADGE := Badge("#DEF7EC", "#03543F")
  const FAILED_BADGE := Badge("#FDE8E8", "#9B1C1C")
  const OTHER_BADGE := Badge("#FEF3C7", "#8B5C0C")

  /** Green for `complete`, red for `failed`, amber for any other status. */
  function StatusBadge(status: string): Badge {
    if status == "complete" then COMPLETE_BADGE
    else if status == "failed" then FAILED_BADGE
    else OTHER_BADGE
  }

  /** The badge tells complete, failed and every other status apart, and
      nothing more. */
  lemma BadgeTellsStatus(s: string, t: string)
    ensures StatusBadge(s) == StatusBadge(t) <==>
      (s == "complete" <==> t == "complete") && (s == "failed" <==> t == "failed")
  {
  }

  /** One page in an item's details block; its broken links are listed only
      when there are some. */
  datatype DetailView = DetailView(url: string, title: FieldView, description: FieldView, ogImage: FieldView, brokenLinks: seq<string>)

  /** One table row; `details` is empty when the row has no details block. */
  datatype RowView = RowView(date: string, url: string, status: string, badge: Badge,
                             urlsAnalyzed: int, issuesFound: int, details: seq<DetailView>)

  function ShowDetail(d: Detail): DetailView {
    DetailView(d.url, ShowField(d.title), ShowField(d.description), ShowField(d.ogImage), ListedLinks(d.brokenLinks))
  }

  /** An item's row: its badge, and one details entry per page it kept, in order. */
  function ShowRow(item: ExportItem): (r: RowView)
    ensures r.badge == StatusBadge(item.status)
    ensures item.details.None? ==> r.details == []
    ensures item.details.Some? ==>
      |r.details| == |item.details.value|
      && forall j :: 0 <= j < |r.details| ==> r.details[j] == ShowDetail(item.details.value[j])
  {
    var ds := if item.details.Some? then item.details.value else [];
    RowView(item.date, item.url, item.status, StatusBadge(item.status), item.urlsAnalyzed, item.issuesFound,
      seq(|ds|, j requires 0 <= j < |ds| => ShowDetail(ds[j])))
  }

  /** `exportToHTML` without the markup: one row per item in order, and a
      details block exactly when the item has a non-empty list of details,
      one entry per page in order. */
  function ExportToHtml(data: seq<ExportItem>): (rows: seq<RowView>)
    ensures |rows| == |data|
    ensures forall i :: 0 <= i < |data| ==>
      (rows[i].details != [] <==> data[i].details.Some? && |data[i].details.value| > 0)
    ensures forall i :: 0 <= i < |data| && data[i].details.Some? ==>
      |rows[i].details| == |data[i].details.value|
      && forall j :: 0 <= j < |rows[i].details| ==> rows[i].details[j].url == data[i].details.value[j].url
  {
    seq(|data|, i requires 0 <= i < |data| => ShowRow(data[i]))
  }

  /** Two pages look the same in a details block exactly when they have the
      same URL, metadata a reader cannot tell apart, and the same broken links
      (an absent list and an empty one both showing none). */
  lemma ShowDetailFaithful(d: Detail, e: Detail)
    ensures ShowDetail(d) == ShowDetail(e) <==>
      d.url == e.url && ShownAlike(d.title, e.title) && ShownAlike(d.description, e.description)
      && ShownAlike(d.ogImage, e.ogImage) && ListedLinks(d.brokenLinks) == ListedLinks(e.brokenLinks)
  {
    ShowFieldFaithful(d.title, e.title);
    ShowFieldFaithful(d.description, e.description);
    ShowFieldFaithful(d.ogImage, e.ogImage);
  }
}
