/** The per-page retry state machine of the analyze route: up to `MAX_RETRIES`
    attempts per page URL, the adaptive delay shared by the whole crawl, the
    debug entries every attempt leaves, and the result record (a full analysis,
    or a placeholder once the last attempt has failed). The network and the HTML
    parser are inputs: a `Script` says what each attempt on the page gives. */
module PageRetry {
  import opened Wrappers
  import opened Text
  import opened SeoIssues
  import opened Debug
  import opened AnalyzeConfig
  import opened Batching

  /** What the HTML parser finds in a fetched page: the raw `<title>` text, the
      raw `content` of each meta tag the route reads, and the body length. */
  datatype Page = Page(
    titleText: string,
    description: Option<string>,
    keywords: Option<string>,
    newsKeywords: Option<string>,
    ogSiteName: Option<string>,
    ogTitle: Option<string>,
    ogDescription: Option<string>,
    ogImage: Option<string>,
    bodyLength: nat)

  /** One `axios.get` of a page. A fetch carries the HTTP status and the two clock
      readings the route takes (milliseconds since the request started); a thrown
      error carries `error.response?.status`, `error.code` and `error.message`.
      The route's `validateStatus` lets a fetch resolve only with a status below
      400: an answer of 400 or more is thrown, as `Thrown(Some(status), …)`. */
  datatype Attempt =
    | Fetched(httpStatus: int, page: Page, loadElapsed: int, logElapsed: int)
    | Thrown(responseStatus: Option<int>, code: string, message: string)

  /** `validateStatus: (status) => status < 400`. */
  predicate PageAccepts(status: int) {
    status < 400
  }

  /** An outcome `axios.get` can give under that `validateStatus`. */
  predicate AxiosAttempt(a: Attempt) {
    a.Fetched? ==> PageAccepts(a.httpStatus)
  }

  /** What the first, second and third attempt on one page give; attempts after
      a success are never made, so their outcomes do not matter. */
  datatype Script = Script(first: Attempt, second: Attempt, third: Attempt) {
    function At(r: nat): Attempt
      requires r < MAX_RETRIES
    {
      if r == 0 then first else if r == 1 then second else third
    }

    /** Every attempt is one `axios.get` can give. */
    predicate ByAxios() {
      AxiosAttempt(first) && AxiosAttempt(second) && AxiosAttempt(third)
    }
  }

  datatype Metadata = Metadata(
    title: string, description: string, keywords: string, newsKeywords: string,
    ogSiteName: string, ogTitle: string, ogDescription: string, ogImage: string)

  datatype PageResult =
    | Analyzed(url: string, status: Verdict, issues: seq<string>, metadata: Metadata, loadSpeed: string, pageSize: string)
    | Placeholder(url: string, error: string, issues: seq<string>)

  const FAILED_TO_ANALYZE := "Failed to analyze page"
  const TOO_MANY_REQUESTS := 429
  const TIMEOUT_CODE := "ECONNABORTED"

  function RateLimitMessage(url: string): string { "Rate limit hit for " + url }
  function TimeoutMessage(url: string): string { "Timeout for " + url }
  function FetchErrorMessage(url: string, message: string): string { "Error fetching " + url + ": " + message }

  function Max(a: int, b: int): int { if a >= b then a else b }

  /** Every meta field falls back to the empty string (`attr('content') || ''`);
      the title is the raw, untrimmed text. */
  function MetadataOf(page: Page): Metadata {
    Metadata(page.titleText, page.description.GetOr(""), page.keywords.GetOr(""),
      page.newsKeywords.GetOr(""), page.ogSiteName.GetOr(""), page.ogTitle.GetOr(""),
      page.ogDescription.GetOr(""), page.ogImage.GetOr(""))
  }

  /** The full result for a successful fetch. */
  function AnalyzedFrom(url: string, a: Attempt): (r: PageResult)
    requires a.Fetched?
    ensures r.Analyzed? && r.url == url
    ensures r.issues == PageIssues(a.page.titleText, a.page.description)
    ensures r.status == Fail <==> r.issues != []
  {
    var issues := PageIssues(a.page.titleText, a.page.description);
    Analyzed(url, VerdictOf(issues), issues, MetadataOf(a.page), IntToString(a.loadElapsed), NatToString(a.page.bodyLength))
  }

  function PlaceholderFor(url: string, message: string): PageResult {
    Placeholder(url, message, [FAILED_TO_ANALYZE])
  }

  /** The number of failed attempts before the first fetch, counted from `from`,
      and at most `MAX_RETRIES`. */
  function LeadingFailures(script: Script, from: nat): (f: nat)
    requires from <= MAX_RETRIES
    ensures from <= f <= MAX_RETRIES
    ensures forall j :: from <= j < f ==> script.At(j).Thrown?
    ensures f < MAX_RETRIES ==> script.At(f).Fetched?
    decreases MAX_RETRIES - from
  {
    if from == MAX_RETRIES || script.At(from).Fetched? then from else LeadingFailures(script, from + 1)
  }

  /** How many attempts on page `k` fail before one succeeds or the attempts run out. */
  function Failures(script: Script): (f: nat)
    ensures f <= MAX_RETRIES
    ensures forall j :: 0 <= j < f ==> script.At(j).Thrown?
    ensures f < MAX_RETRIES ==> script.At(f).Fetched?
  {
    LeadingFailures(script, 0)
  }

  /** The side effects of failed attempts: requested sleeps and debug entries. */
  datatype Effects = Effects(sleeps: seq<int>, networkErrors: seq<string>, rateLimitingIssues: seq<string>)

  function Then(a: Effects, b: Effects): Effects {
    Effects(a.sleeps + b.sleeps, a.networkErrors + b.networkErrors, a.rateLimitingIssues + b.rateLimitingIssues)
  }

  /** One failed attempt after which the delay stands at `delay`: a 429 logs a
      rate-limit entry and waits `RATE_LIMIT_DELAY` first, a timeout and any other
      error log a network entry; then the route waits `delay`. */
  function FailureEffect(url: string, a: Attempt, delay: int): (e: Effects)
    requires a.Thrown?
    ensures |e.networkErrors| + |e.rateLimitingIssues| == 1
    ensures |e.sleeps| >= 1 && e.sleeps[|e.sleeps| - 1] == delay
  {
    if a.responseStatus == Some(TOO_MANY_REQUESTS) then Effects([RATE_LIMIT_DELAY, delay], [], [RateLimitMessage(url)])
    else if a.code == TIMEOUT_CODE then Effects([delay], [TimeoutMessage(url)], [])
    else Effects([delay], [FetchErrorMessage(url, a.message)], [])
  }

  /** The effects of the first `f` attempts on page `k`, all of which failed,
      starting from delay `d`. */
  function FailuresEffects(url: string, script: Script, d: int, f: nat): Effects
    requires f <= MAX_RETRIES
    requires forall j :: 0 <= j < f ==> script.At(j).Thrown?
  {
    if f == 0 then Effects([], [], [])
    else Then(FailuresEffects(url, script, d, f - 1), FailureEffect(url, script.At(f - 1), d + DELAY_INCREASE * f))
  }

  /** What one page leaves behind besides its result record: the shared delay
      after it, the pauses and debug entries of its failed attempts, and the
      request log of its successful one. */
  datatype Trace = Trace(delay: int, effects: Effects, requestLogs: seq<RequestLog>)

  /** The reference trace of the page at `url` when the shared delay is `d`: the
      first successful attempt logs one request; only a first-attempt success
      lowers the delay, and every failure raises it. */
  function TraceOf(url: string, script: Script, d: int): Trace {
    var f := Failures(script);
    Trace(if f == 0 then Max(MIN_DELAY, d - DELAY_DECREASE) else d + DELAY_INCREASE * f,
      FailuresEffects(url, script, d, f),
      if f < MAX_RETRIES then [RequestLog(url, script.At(f).httpStatus, script.At(f).logElapsed)] else [])
  }

  /** The request a page logs answered with a status `validateStatus`
      accepts: a page that answers 400 or more is never a success. */
  lemma LoggedStatusAccepted(url: string, script: Script, d: int)
    requires script.ByAxios()
    ensures forall log :: log in TraceOf(url, script, d).requestLogs ==> PageAccepts(log.status)
    ensures Outcome(url, script).Analyzed? ==> PageAccepts(script.At(Failures(script)).httpStatus)
  {
  }

  /** The result record of a page: the analysis of the first fetch, or the
      placeholder with the last error's message when every attempt failed. */
  function Outcome(url: string, script: Script): PageResult {
    var f := Failures(script);
    if f < MAX_RETRIES then AnalyzedFrom(url, script.At(f))
    else PlaceholderFor(url, script.At(MAX_RETRIES - 1).message)
  }

  /** The number of attempts made on page `k`. */
  function AttemptCount(script: Script): nat {
    var f := Failures(script);
    if f < MAX_RETRIES then f + 1 else f
  }

  /** The debug accumulator after one page has appended its entries. */
  function Logged(info: DebugInfo, t: Trace): DebugInfo {
    info.(networkErrors := info.networkErrors + t.effects.networkErrors,
      rateLimitingIssues := info.rateLimitingIssues + t.effects.rateLimitingIssues,
      requestLogs := info.requestLogs + t.requestLogs)
  }

  /** The retry loop of one page. The result starts as `null` (`None`) and is
      always set when the loop ends. */
  method AnalyzePage(url: string, script: Script, d: int, debug: DebugLog)
      returns (result: Option<PageResult>, delay: int, sleeps: seq<int>)
    requires script.ByAxios()
    modifies debug
    ensures result == Some(Outcome(url, script))
    ensures delay == TraceOf(url, script, d).delay
    ensures sleeps == TraceOf(url, script, d).effects.sleeps
    ensures debug.Contents() == Logged(old(debug.Contents()), TraceOf(url, script, d))
  {
    var retries: nat := 0;
    var success := false;
    result := None;
    delay := d;
    sleeps := [];
    ghost var effects := Effects([], [], []);
    while !success && retries < MAX_RETRIES
      invariant retries <= MAX_RETRIES
      invariant forall j :: 0 <= j < retries ==> script.At(j).Thrown?
      invariant success ==> Succeeded(url, script, d, retries, result, delay)
      invariant !success ==> StillFailing(url, script, d, retries, result, delay)
      invariant effects == FailuresEffects(url, script, d, retries)
      invariant sleeps == effects.sleeps
      invariant debug.Contents() == old(debug.Contents()).(
        networkErrors := old(debug.networkErrors) + effects.networkErrors,
        rateLimitingIssues := old(debug.rateLimitingIssues) + effects.rateLimitingIssues,
        requestLogs := old(debug.requestLogs)
          + (if success then [RequestLog(url, script.At(retries).httpStatus, script.At(retries).logElapsed)] else []))
      decreases MAX_RETRIES - retries, if success then 0 else 1
    {
      var a := script.At(retries);
      if a.Fetched? {
        result := AnalyzeFetched(url, a, debug);
        success := true;
        if retries == 0 {
          delay := Max(MIN_DELAY, delay - DELAY_DECREASE);
        }
      } else {
        FailStep(url, script, d, retries);
        retries := retries + 1;
        delay := delay + DELAY_INCREASE;
        var pause := LogFailure(url, a, delay, debug);
        if retries == MAX_RETRIES {
          result := Some(PlaceholderFor(url, a.message));
        }
        var e := FailureEffect(url, a, delay);
        Associative(sleeps, pause, [delay]);
        Associative(old(debug.networkErrors), effects.networkErrors, e.networkErrors);
        Associative(old(debug.rateLimitingIssues), effects.rateLimitingIssues, e.rateLimitingIssues);
        sleeps := sleeps + pause + [delay];
        effects := Then(effects, e);
      }
    }
    LoopExit(url, script, d, retries, success, result, delay);
  }

  /** The try block of an attempt that fetched the page: the issue checks, the
      result record, and one `requestLogs` entry. */
  method AnalyzeFetched(url: string, a: Attempt, debug: DebugLog) returns (result: Option<PageResult>)
    requires a.Fetched?
    modifies debug
    ensures result == Some(AnalyzedFrom(url, a))
    ensures debug.Contents() == old(debug.Contents()).(
      requestLogs := old(debug.requestLogs) + [RequestLog(url, a.httpStatus, a.logElapsed)])
  {
    var issues := CollectIssues(Trim(a.page.titleText), TrimmedAttribute(a.page.description));
    result := Some(Analyzed(url, VerdictOf(issues), issues, MetadataOf(a.page),
      IntToString(a.loadElapsed), NatToString(a.page.bodyLength)));
    debug.AddRequestLog(RequestLog(url, a.httpStatus, a.logElapsed));
  }

  /** The catch block of one failed attempt: one debug entry, chosen by the
      response status and then the error code, and the extra pause a 429 asks for. */
  method LogFailure(url: string, a: Attempt, ghost delay: int, debug: DebugLog) returns (pause: seq<int>)
    requires a.Thrown?
    modifies debug
    ensures pause + [delay] == FailureEffect(url, a, delay).sleeps
    ensures debug.Contents() == old(debug.Contents()).(
      networkErrors := old(debug.networkErrors) + FailureEffect(url, a, delay).networkErrors,
      rateLimitingIssues := old(debug.rateLimitingIssues) + FailureEffect(url, a, delay).rateLimitingIssues)
  {
    if a.responseStatus == Some(TOO_MANY_REQUESTS) {
      debug.AddRateLimitingIssue(RateLimitMessage(url));
      pause := [RATE_LIMIT_DELAY];
    } else if a.code == TIMEOUT_CODE {
      debug.AddNetworkError(TimeoutMessage(url));
      pause := [];
    } else {
      debug.AddNetworkError(FetchErrorMessage(url, a.message));
      pause := [];
    }
  }

  /** One more failed attempt extends the failures and their effects by one. */
  lemma FailStep(url: string, script: Script, d: int, retries: nat)
    requires retries < MAX_RETRIES && script.At(retries).Thrown?
    requires forall j :: 0 <= j < retries ==> script.At(j).Thrown?
    ensures forall j :: 0 <= j < retries + 1 ==> script.At(j).Thrown?
    ensures FailuresEffects(url, script, d, retries + 1) == Then(FailuresEffects(url, script, d, retries),
      FailureEffect(url, script.At(retries), d + DELAY_INCREASE * retries + DELAY_INCREASE))
  {
    assert d + DELAY_INCREASE * (retries + 1) == d + DELAY_INCREASE * retries + DELAY_INCREASE;
  }

  /** When the retry loop stops, its variables hold what `Outcome` and `TraceOf` say. */
  lemma LoopExit(url: string, script: Script, d: int, retries: nat, success: bool, result: Option<PageResult>, delay: int)
    requires retries <= MAX_RETRIES && (success || retries == MAX_RETRIES)
    requires forall j :: 0 <= j < retries ==> script.At(j).Thrown?
    requires success ==> Succeeded(url, script, d, retries, result, delay)
    requires !success ==> StillFailing(url, script, d, retries, result, delay)
    ensures Failures(script) == retries
    ensures result == Some(Outcome(url, script)) && delay == TraceOf(url, script, d).delay
    ensures TraceOf(url, script, d).effects == FailuresEffects(url, script, d, retries)
    ensures TraceOf(url, script, d).requestLogs
      == (if success then [RequestLog(url, script.At(retries).httpStatus, script.At(retries).logElapsed)] else [])
  {
    FailuresUnique(script, retries);
  }

  /** Loop state after attempt `retries` on page `k` succeeded. */
  ghost predicate Succeeded(url: string, script: Script, d: int, retries: nat, result: Option<PageResult>, delay: int) {
    retries < MAX_RETRIES && script.At(retries).Fetched?
    && result == Some(AnalyzedFrom(url, script.At(retries)))
    && delay == (if retries == 0 then Max(MIN_DELAY, d - DELAY_DECREASE) else d + DELAY_INCREASE * retries)
  }

  /** Loop state while the first `retries` attempts on page `k` have failed. */
  ghost predicate StillFailing(url: string, script: Script, d: int, retries: nat, result: Option<PageResult>, delay: int) {
    retries <= MAX_RETRIES && (forall j :: 0 <= j < retries ==> script.At(j).Thrown?)
    && delay == d + DELAY_INCREASE * retries
    && result == (if retries == MAX_RETRIES then Some(PlaceholderFor(url, script.At(MAX_RETRIES - 1).message)) else None)
  }

  /** The count of leading failures is determined by where the first fetch is. */
  lemma FailuresUnique(script: Script, f: nat)
    requires f <= MAX_RETRIES
    requires forall j :: 0 <= j < f ==> script.At(j).Thrown?
    requires f < MAX_RETRIES ==> script.At(f).Fetched?
    ensures Failures(script) == f
  {
  }

  // ---- Properties of one page ----

  /** At most `MAX_RETRIES` attempts, and exactly one debug entry per attempt:
      one `networkErrors` or `rateLimitingIssues` entry per failed attempt and one
      `requestLogs` entry for the successful one. */
  lemma {:induction false} OneEntryPerAttempt(url: string, script: Script, d: int)
    ensures AttemptCount(script) <= MAX_RETRIES
    ensures |TraceOf(url, script, d).effects.networkErrors| + |TraceOf(url, script, d).effects.rateLimitingIssues|
      == Failures(script)
    ensures |TraceOf(url, script, d).requestLogs| + Failures(script) == AttemptCount(script)
  {
    EntriesPerFailure(url, script, d, Failures(script));
  }

  lemma {:induction false} EntriesPerFailure(url: string, script: Script, d: int, f: nat)
    requires f <= MAX_RETRIES
    requires forall j :: 0 <= j < f ==> script.At(j).Thrown?
    ensures |FailuresEffects(url, script, d, f).networkErrors| + |FailuresEffects(url, script, d, f).rateLimitingIssues| == f
    ensures |FailuresEffects(url, script, d, f).sleeps|
      == f + |FailuresEffects(url, script, d, f).rateLimitingIssues|
  {
    if f > 0 {
      EntriesPerFailure(url, script, d, f - 1);
      var e := FailureEffect(url, script.At(f - 1), d + DELAY_INCREASE * f);
      assert |e.sleeps| == 1 + |e.rateLimitingIssues|;
      assert FailuresEffects(url, script, d, f) == Then(FailuresEffects(url, script, d, f - 1), e);
    }
  }

  /** Every failed attempt is followed by a sleep of the raised delay, the last
      one included; a 429 adds a `RATE_LIMIT_DELAY` sleep before it. */
  lemma {:induction false} SleepAfterEveryFailure(url: string, script: Script, d: int, f: nat)
    requires f <= MAX_RETRIES
    requires forall j :: 0 <= j < f ==> script.At(j).Thrown?
    ensures f > 0 ==>
      (|FailuresEffects(url, script, d, f).sleeps| > 0
       && FailuresEffects(url, script, d, f).sleeps[|FailuresEffects(url, script, d, f).sleeps| - 1] == d + DELAY_INCREASE * f)
    ensures forall i :: 0 <= i < |FailuresEffects(url, script, d, f).sleeps| ==>
      FailuresEffects(url, script, d, f).sleeps[i] == RATE_LIMIT_DELAY || d < FailuresEffects(url, script, d, f).sleeps[i] <= d + DELAY_INCREASE * f
  {
    if f > 0 {
      SleepAfterEveryFailure(url, script, d, f - 1);
    }
  }

  /** The delay never drops below `MIN_DELAY` once it starts there. */
  lemma DelayStaysAboveFloor(url: string, script: Script, d: int)
    requires d >= MIN_DELAY
    ensures TraceOf(url, script, d).delay >= MIN_DELAY
  {
  }

  /** The delay after a page: a first-attempt success lowers it by 50 down to the
      floor, a later success leaves the raises of the failures in place, and each
      failed attempt adds 100. */
  lemma DelayAfterPage(url: string, script: Script, d: int)
    ensures Failures(script) == 0 ==> TraceOf(url, script, d).delay == Max(MIN_DELAY, d - DELAY_DECREASE)
    ensures Failures(script) > 0 ==> TraceOf(url, script, d).delay == d + DELAY_INCREASE * Failures(script)
  {
  }

  /** The result names its page and carries at least one issue when, and only
      when, it is not a pass. */
  lemma OutcomeShape(url: string, script: Script)
    ensures Outcome(url, script).url == url
    ensures Outcome(url, script).Analyzed? ==> (Outcome(url, script).status == Fail <==> Outcome(url, script).issues != [])
    ensures 1 <= |Outcome(url, script).issues| <= 2 || Outcome(url, script).status == Pass
  {
    if Failures(script) < MAX_RETRIES {
      var a := script.At(Failures(script));
      AtMostTwoIssues(Trim(a.page.titleText), TrimmedAttribute(a.page.description));
    }
  }

  /** Exactly the pages whose attempts all fail get a placeholder, carrying the
      third error's message and the single issue `Failed to analyze page`. */
  lemma PlaceholderExactlyOnExhaustion(url: string, script: Script, d: int)
    ensures Outcome(url, script).Placeholder? <==>
      (forall j :: 0 <= j < MAX_RETRIES ==> script.At(j).Thrown?)
    ensures Outcome(url, script).Placeholder? ==>
      Outcome(url, script) == Placeholder(url, script.At(MAX_RETRIES - 1).message, [FAILED_TO_ANALYZE])
  {
    var f := Failures(script);
    if f < MAX_RETRIES {
      assert script.At(f).Fetched?;
    }
  }

  /** Three 429 responses in a row: a placeholder, three rate-limit entries, no
      network error, and the sleeps 1000, d+100, 1000, d+200, 1000, d+300. */
  lemma ThreeRateLimits(url: string, script: Script, d: int, message: string)
    requires var t := Thrown(Some(429), "ERR_BAD_REQUEST", message); script == Script(t, t, t)
    ensures Outcome(url, script) == Placeholder(url, message, [FAILED_TO_ANALYZE])
    ensures TraceOf(url, script, d).effects == Effects(
      [1000, d + 100, 1000, d + 200, 1000, d + 300], [],
      [RateLimitMessage(url), RateLimitMessage(url), RateLimitMessage(url)])
    ensures TraceOf(url, script, d).delay == d + 300
    ensures TraceOf(url, script, d).requestLogs == []
  {
    assert script.At(0).Thrown? && script.At(1).Thrown? && script.At(2).Thrown?;
    FailuresUnique(script, 3);
    assert FailuresEffects(url, script, d, 1) == Effects([1000, d + 100], [], [RateLimitMessage(url)]);
    assert FailuresEffects(url, script, d, 2) == Effects([1000, d + 100, 1000, d + 200], [], [RateLimitMessage(url), RateLimitMessage(url)]);
  }
}
