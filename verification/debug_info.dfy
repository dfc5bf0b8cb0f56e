/** The shared `debugInfo` accumulator that the analyze route creates once per
    request and that sitemap expansion and every page fetch append to. */
module Debug {
  import opened Wrappers
  import opened Text

  /** One entry of `requestLogs`: the page, its HTTP status and the elapsed time. */
  datatype RequestLog = RequestLog(url: string, status: int, duration: int)

  /** The value of the accumulator at one point in time. */
  datatype DebugInfo = DebugInfo(
    xmlParsingStatus: string,
    httpStatus: string,
    networkErrors: seq<string>,
    parsingErrors: seq<string>,
    rateLimitingIssues: seq<string>,
    requestLogs: seq<RequestLog>)

  /** A request log as the summary of a finished crawl stores it: the status
      and the duration turned into their decimal text. */
  datatype StoredLog = StoredLog(url: string, status: string, duration: string)

  /** The `debugInfo` of the summary of a finished crawl. */
  datatype StoredDebugInfo = StoredDebugInfo(
    xmlParsingStatus: string,
    httpStatus: string,
    networkErrors: seq<string>,
    parsingErrors: seq<string>,
    rateLimitingIssues: seq<string>,
    requestLogs: seq<StoredLog>)

  function StoreLog(log: RequestLog): (s: StoredLog)
    ensures s.url == log.url
    ensures ParseInt(s.status) == Some(log.status) && ParseInt(s.duration) == Some(log.duration)
  {
    IntStringRoundTrip(log.status);
    IntStringRoundTrip(log.duration);
    StoredLog(log.url, IntToString(log.status), IntToString(log.duration))
  }

  /** The copy of the accumulator the route puts in its summary: every field as
      it is, and every request log with its numbers as text that reads back as
      the same numbers, in the same order. */
  function Stored(info: DebugInfo): (s: StoredDebugInfo)
    ensures s.xmlParsingStatus == info.xmlParsingStatus && s.httpStatus == info.httpStatus
    ensures s.networkErrors == info.networkErrors && s.parsingErrors == info.parsingErrors
    ensures s.rateLimitingIssues == info.rateLimitingIssues
    ensures |s.requestLogs| == |info.requestLogs|
    ensures forall i :: 0 <= i < |s.requestLogs| ==>
      s.requestLogs[i].url == info.requestLogs[i].url
      && ParseInt(s.requestLogs[i].status) == Some(info.requestLogs[i].status)
      && ParseInt(s.requestLogs[i].duration) == Some(info.requestLogs[i].duration)
  {
    StoredDebugInfo(info.xmlParsingStatus, info.httpStatus, info.networkErrors, info.parsingErrors,
      info.rateLimitingIssues,
      seq(|info.requestLogs|, i requires 0 <= i < |info.requestLogs| => StoreLog(info.requestLogs[i])))
  }

  /** The mutable part of `DebugInfo` that the crawl updates in place; `memoryUsage`
      and `processingTime` come from the runtime and the clock and are not modelled. */
  class DebugLog {
    var xmlParsingStatus: string
    var httpStatus: string
    var networkErrors: seq<string>
    var parsingErrors: seq<string>
    var rateLimitingIssues: seq<string>
    var requestLogs: seq<RequestLog>

    function Contents(): DebugInfo
      reads this
    {
      DebugInfo(xmlParsingStatus, httpStatus, networkErrors, parsingErrors, rateLimitingIssues, requestLogs)
    }

    /** The object literal the route starts every request with. */
    constructor ()
      ensures Contents() == DebugInfo("pending", "0", [], [], [], [])
    {
      xmlParsingStatus := "pending";
      httpStatus := "0";
      networkErrors := [];
      parsingErrors := [];
      rateLimitingIssues := [];
      requestLogs := [];
    }

    method AddNetworkError(message: string)
      modifies this
      ensures Contents() == old(Contents()).(networkErrors := old(networkErrors) + [message])
    {
      networkErrors := networkErrors + [message];
    }

    method AddParsingError(message: string)
      modifies this
      ensures Contents() == old(Contents()).(parsingErrors := old(parsingErrors) + [message])
    {
      parsingErrors := parsingErrors + [message];
    }

    method AddRateLimitingIssue(message: string)
      modifies this
      ensures Contents() == old(Contents()).(rateLimitingIssues := old(rateLimitingIssues) + [message])
    {
      rateLimitingIssues := rateLimitingIssues + [message];
    }

    method AddRequestLog(log: RequestLog)
      modifies this
      ensures Contents() == old(Contents()).(requestLogs := old(requestLogs) + [log])
    {
      requestLogs := requestLogs + [log];
    }
  }
}
