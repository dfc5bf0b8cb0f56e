/** How the analyze route turns its records into the JSON kept with a search
    (`serializeForPrisma`, `serializeDebugInfo`, `serializeAnalysisResult`) and
    how kept text is read back (`deserializeFromPrisma`). The JSON text itself
    is written and read by `JSON.stringify` and `JSON.parse`, which are
    parameters here. */
module Serialization {
  import opened Wrappers
  import opened Text
  import opened JsonValues
  import opened Debug
  import opened SeoIssues
  import opened PageRetry

  /** No number anywhere in the value. */
  predicate NoNumbers(v: Json)
    decreases v
  {
    match v
    case JNum(_) => false
    case JArr(items) => forall i :: 0 <= i < |items| ==> NoNumbers(items[i])
    case JObj(ms) => forall i :: 0 <= i < |ms| ==> NoNumbers(ms[i].value)
    case _ => true
  }

  /** `w` holds what `v` holds, in the same places and under the same keys,
      except that every number of `v` is a text in `w` that reads back as it. */
  predicate Mirrors(v: Json, w: Json)
    decreases v
  {
    match v
    case JNum(n) => w.JStr? && ParseInt(w.s) == Some(n)
    case JArr(items) =>
      w.JArr? && |w.items| == |items|
      && forall i :: 0 <= i < |items| ==> Mirrors(items[i], w.items[i])
    case JObj(ms) =>
      w.JObj? && |w.members| == |ms|
      && forall i :: 0 <= i < |ms| ==> w.members[i].key == ms[i].key && Mirrors(ms[i].value, w.members[i].value)
    case _ => w == v
  }

  /** The replacer of `serializeForPrisma`, which `JSON.stringify` applies to
      every value nested in the data: a number becomes `String(value)`, every
      other value is kept. What comes out has no number left and mirrors what
      went in. */
  function Stringify(v: Json): (r: Json)
    ensures NoNumbers(r)
    ensures Mirrors(v, r)
    decreases v
  {
    match v
    case JNum(n) =>
      IntStringRoundTrip(n);
      JStr(IntToString(n))
    case JArr(items) =>
      JArr(seq(|items|, i requires 0 <= i < |items| => Stringify(items[i])))
    case JObj(ms) =>
      JObj(seq(|ms|, i requires 0 <= i < |ms| => Member(ms[i].key, Stringify(ms[i].value))))
    case _ => v
  }

  /** A value without numbers passes the replacer unchanged. */
  lemma {:induction false} StringifyKeepsPlain(v: Json)
    requires NoNumbers(v)
    ensures Stringify(v) == v
    decreases v
  {
    match v
    case JArr(items) =>
      forall i | 0 <= i < |items| {
        StringifyKeepsPlain(items[i]);
      }
      assert Stringify(v).items == items;
    case JObj(ms) =>
      forall i | 0 <= i < |ms| {
        StringifyKeepsPlain(ms[i].value);
      }
      assert Stringify(v).members == ms;
    case _ =>
  }

  /** Serializing what was serialized changes nothing. */
  lemma StringifyIdempotent(v: Json)
    ensures Stringify(Stringify(v)) == Stringify(v)
  {
    StringifyKeepsPlain(Stringify(v));
  }

  /** `serializeForPrisma`: the text `JSON.stringify` writes for the data once
      the replacer has turned its numbers into strings. */
  function SerializeForPrisma(data: Json, render: Json -> string): string {
    render(Stringify(data))
  }

  /** What `deserializeFromPrisma` gives: `null` for a missing or empty text,
      the parsed value, or the exception `JSON.parse` throws on bad text. */
  datatype Loaded = NoData | Parsed(value: Json) | ParseFailed

  function DeserializeFromPrisma(data: Option<string>, parse: string -> Option<Json>): (r: Loaded)
    ensures r.NoData? <==> data.None? || data.value == ""
    ensures r.Parsed? ==> parse(data.value) == Some(r.value)
    ensures r.ParseFailed? <==> data.Some? && data.value != "" && parse(data.value).None?
  {
    if data.None? || data.value == "" then NoData
    else match parse(data.value)
      case Some(v) => Parsed(v)
      case None => ParseFailed
  }

  /** Reading back what was stored gives the data with its numbers as text:
      given that `JSON.parse` reads back what `JSON.stringify` writes, and
      that the text written is never empty. */
  lemma PrismaRoundTrip(data: Json, render: Json -> string, parse: string -> Option<Json>)
    requires forall v :: render(v) != "" && parse(render(v)) == Some(v)
    ensures var loaded := DeserializeFromPrisma(Some(SerializeForPrisma(data, render)), parse);
      loaded.Parsed? && Mirrors(data, loaded.value) && NoNumbers(loaded.value)
  {
    assert parse(render(Stringify(data))) == Some(Stringify(data));
  }

  /** A field the route declares as a number but fills with a number or with
      a string. */
  datatype Scalar = Str(s: string) | Num(n: int)

  /** `s` is `String(x)`: the string itself, or text that reads back as the number. */
  predicate Keeps(x: Scalar, s: string) {
    match x
    case Str(t) => s == t
    case Num(n) => ParseInt(s) == Some(n)
  }

  /** `String(x)`. */
  function StringOf(x: Scalar): (s: string)
    ensures Keeps(x, s)
  {
    match x
    case Str(t) => t
    case Num(n) =>
      IntStringRoundTrip(n);
      IntToString(n)
  }

  datatype Memory = Memory(heapUsed: Scalar, heapTotal: Scalar, rss: Scalar, external: Scalar, arrayBuffers: Scalar)

  datatype LiveLog = LiveLog(url: string, status: Scalar, duration: Scalar)

  /** A `DebugInfo` as the route holds it. */
  datatype LiveDebugInfo = LiveDebugInfo(
    xmlParsingStatus: string,
    httpStatus: Scalar,
    networkErrors: seq<string>,
    parsingErrors: seq<string>,
    rateLimitingIssues: seq<string>,
    memoryUsage: Memory,
    processingTime: Scalar,
    stackTrace: Option<string>,
    requestLogs: seq<LiveLog>)

  datatype SavedMemory = SavedMemory(heapUsed: string, heapTotal: string, rss: string, external: string, arrayBuffers: string)

  /** A `DebugInfo` after `serializeDebugInfo`: every field text, and no stack trace. */
  datatype SavedDebugInfo = SavedDebugInfo(
    xmlParsingStatus: string,
    httpStatus: string,
    networkErrors: seq<string>,
    parsingErrors: seq<string>,
    rateLimitingIssues: seq<string>,
    memoryUsage: SavedMemory,
    processingTime: string,
    requestLogs: seq<StoredLog>)

  function SaveMemory(m: Memory): SavedMemory {
    SavedMemory(StringOf(m.heapUsed), StringOf(m.heapTotal), StringOf(m.rss), StringOf(m.external), StringOf(m.arrayBuffers))
  }

  function SaveLog(log: LiveLog): StoredLog {
    StoredLog(log.url, StringOf(log.status), StringOf(log.duration))
  }

  /** `serializeDebugInfo`: the status text and the three message lists as
      they are, every number-typed field as its `String`, the request logs in
      order with their url kept; the stack trace is dropped. */
  function SerializeDebugInfo(d: LiveDebugInfo): (r: SavedDebugInfo)
    ensures r.xmlParsingStatus == d.xmlParsingStatus
    ensures r.networkErrors == d.networkErrors && r.parsingErrors == d.parsingErrors
    ensures r.rateLimitingIssues == d.rateLimitingIssues
    ensures Keeps(d.httpStatus, r.httpStatus) && Keeps(d.processingTime, r.processingTime)
    ensures Keeps(d.memoryUsage.heapUsed, r.memoryUsage.heapUsed)
    ensures Keeps(d.memoryUsage.heapTotal, r.memoryUsage.heapTotal)
    ensures Keeps(d.memoryUsage.rss, r.memoryUsage.rss)
    ensures Keeps(d.memoryUsage.external, r.memoryUsage.external)
    ensures Keeps(d.memoryUsage.arrayBuffers, r.memoryUsage.arrayBuffers)
    ensures |r.requestLogs| == |d.requestLogs|
    ensures forall i :: 0 <= i < |r.requestLogs| ==>
      r.requestLogs[i].url == d.requestLogs[i].url
      && Keeps(d.requestLogs[i].status, r.requestLogs[i].status)
      && Keeps(d.requestLogs[i].duration, r.requestLogs[i].duration)
  {
    SavedDebugInfo(d.xmlParsingStatus, StringOf(d.httpStatus), d.networkErrors, d.parsingErrors,
      d.rateLimitingIssues, SaveMemory(d.memoryUsage), StringOf(d.processingTime),
      seq(|d.requestLogs|, i requires 0 <= i < |d.requestLogs| => SaveLog(d.requestLogs[i])))
  }

  /** A saved `DebugInfo` read as a live one again: every field a string. */
  function Revive(r: SavedDebugInfo): LiveDebugInfo {
    var m := r.memoryUsage;
    LiveDebugInfo(r.xmlParsingStatus, Str(r.httpStatus), r.networkErrors, r.parsingErrors,
      r.rateLimitingIssues,
      Memory(Str(m.heapUsed), Str(m.heapTotal), Str(m.rss), Str(m.external), Str(m.arrayBuffers)),
      Str(r.processingTime), None,
      seq(|r.requestLogs|, i requires 0 <= i < |r.requestLogs| =>
        LiveLog(r.requestLogs[i].url, Str(r.requestLogs[i].status), Str(r.requestLogs[i].duration))))
  }

  /** Serializing a serialized `DebugInfo` again changes nothing. */
  lemma SerializeDebugInfoIdempotent(d: LiveDebugInfo)
    ensures SerializeDebugInfo(Revive(SerializeDebugInfo(d))) == SerializeDebugInfo(d)
  {
    var r := SerializeDebugInfo(d);
    assert SerializeDebugInfo(Revive(r)).requestLogs == r.requestLogs;
  }

  /** The accumulator as the route holds it: its status fields as strings (the
      route starts `httpStatus` at `'0'`), the memory readings and processing
      time it was given, no stack trace, and request logs with numbers. */
  function Live(info: DebugInfo, memory: Memory, processingTime: Scalar): LiveDebugInfo {
    LiveDebugInfo(info.xmlParsingStatus, Str(info.httpStatus), info.networkErrors, info.parsingErrors,
      info.rateLimitingIssues, memory, processingTime, None,
      seq(|info.requestLogs|, i requires 0 <= i < |info.requestLogs| =>
        LiveLog(info.requestLogs[i].url, Num(info.requestLogs[i].status), Num(info.requestLogs[i].duration))))
  }

  /** The record a failed request stores (`serializeDebugInfo` of the
      accumulator) and the summary a finished crawl stores (`Stored`) agree on
      every field the accumulator keeps, request logs included. */
  lemma FailureRecordAgreesWithSummary(info: DebugInfo, memory: Memory, processingTime: Scalar)
    ensures var r := SerializeDebugInfo(Live(info, memory, processingTime));
      var s := Stored(info);
      r.xmlParsingStatus == s.xmlParsingStatus && r.httpStatus == s.httpStatus
      && r.networkErrors == s.networkErrors && r.parsingErrors == s.parsingErrors
      && r.rateLimitingIssues == s.rateLimitingIssues && r.requestLogs == s.requestLogs
  {
    var r := SerializeDebugInfo(Live(info, memory, processingTime));
    assert r.requestLogs == Stored(info).requestLogs;
  }

  /** An `AnalysisResult` as the route holds it. */
  datatype LiveResult = LiveResult(
    url: string,
    status: Verdict,
    issues: seq<string>,
    metadata: Metadata,
    loadSpeed: Scalar,
    pageSize: Scalar,
    debugInfo: Option<LiveDebugInfo>)

  datatype SavedResult = SavedResult(
    url: string,
    status: Verdict,
    issues: seq<string>,
    metadata: Metadata,
    loadSpeed: string,
    pageSize: string,
    debugInfo: Option<SavedDebugInfo>)

  /** `serializeAnalysisResult`: the page, verdict, issues and metadata as they
      are, the two technical figures as their `String`, and the debug
      information serialized when there is some. */
  function SerializeAnalysisResult(res: LiveResult): (r: SavedResult)
    ensures r.url == res.url && r.status == res.status && r.issues == res.issues && r.metadata == res.metadata
    ensures Keeps(res.loadSpeed, r.loadSpeed) && Keeps(res.pageSize, r.pageSize)
    ensures r.debugInfo.Some? <==> res.debugInfo.Some?
    ensures r.debugInfo.Some? ==> r.debugInfo.value == SerializeDebugInfo(res.debugInfo.value)
  {
    SavedResult(res.url, res.status, res.issues, res.metadata, StringOf(res.loadSpeed), StringOf(res.pageSize),
      if res.debugInfo.Some? then Some(SerializeDebugInfo(res.debugInfo.value)) else None)
  }

  function ReviveResult(r: SavedResult): LiveResult {
    LiveResult(r.url, r.status, r.issues, r.metadata, Str(r.loadSpeed), Str(r.pageSize),
      if r.debugInfo.Some? then Some(Revive(r.debugInfo.value)) else None)
  }

  /** Serializing a serialized result again changes nothing. */
  lemma SerializeAnalysisResultIdempotent(res: LiveResult)
    ensures SerializeAnalysisResult(ReviveResult(SerializeAnalysisResult(res))) == SerializeAnalysisResult(res)
  {
    if res.debugInfo.Some? {
      SerializeDebugInfoIdempotent(res.debugInfo.value);
    }
  }

  /** A page the crawl analyzed already holds its technical figures as text,
      so serializing it keeps them as they are. */
  lemma AnalyzedPageUnchanged(p: PageResult)
    requires p.Analyzed?
    ensures var r := SerializeAnalysisResult(LiveResult(p.url, p.status, p.issues, p.metadata,
      Str(p.loadSpeed), Str(p.pageSize), None));
      r.loadSpeed == p.loadSpeed && r.pageSize == p.pageSize && r.debugInfo.None?
  {
  }
}
