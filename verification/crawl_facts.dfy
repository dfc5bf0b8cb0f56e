/** What a whole crawl of `processRequest` guarantees: one result per page URL,
    the progress events of `ProgressEvents`, a delay and pauses that never go
    below `MIN_DELAY`, one debug entry per attempt, and the issue total. */
module CrawlFacts {
  import opened Batching
  import opened AnalyzeConfig
  import opened Debug
  import opened SeoIssues
  import opened PageRetry
  import opened SitemapExpansion
  import opened ProgressStream
  import opened Crawl

  /** Failed attempts over the pages `lo` to `hi - 1`. */
  function FailedAttempts(net: Network, lo: nat, hi: nat): nat
    requires lo <= hi
    decreases hi - lo
  {
    if lo == hi then 0 else FailedAttempts(net, lo, hi - 1) + Failures(net.At(hi - 1))
  }

  /** Pages among `lo` to `hi - 1` whose every attempt failed. */
  function GivenUp(net: Network, lo: nat, hi: nat): (g: nat)
    requires lo <= hi
    ensures g <= hi - lo
    decreases hi - lo
  {
    if lo == hi then 0 else GivenUp(net, lo, hi - 1) + (if Failures(net.At(hi - 1)) == MAX_RETRIES then 1 else 0)
  }

  /** The delay and every pause requested so far are at least `MIN_DELAY`. */
  predicate AboveFloor(c: CrawlState) {
    c.delay >= MIN_DELAY && forall i :: 0 <= i < |c.sleeps| ==> c.sleeps[i] >= MIN_DELAY
  }

  /** One page: events, parse errors and statuses untouched, one
      `networkErrors` or `rateLimitingIssues` entry per failed attempt, one
      `requestLogs` entry unless the page was given up, one pause per failed
      attempt plus one per 429, and the delay and pauses stay at or above the floor. */
  lemma StepFacts(urls: seq<string>, net: Network, c: CrawlState, k: nat)
    requires k < |urls|
    ensures var s := Step(urls, net, c, k); var f := Failures(net.At(k));
      && s.events == c.events
      && s.info.xmlParsingStatus == c.info.xmlParsingStatus
      && s.info.httpStatus == c.info.httpStatus
      && s.info.parsingErrors == c.info.parsingErrors
      && |s.info.rateLimitingIssues| >= |c.info.rateLimitingIssues|
      && |s.info.networkErrors| + |s.info.rateLimitingIssues| == |c.info.networkErrors| + |c.info.rateLimitingIssues| + f
      && |s.info.requestLogs| == |c.info.requestLogs| + (if f == MAX_RETRIES then 0 else 1)
      && |s.sleeps| == |c.sleeps| + f + (|s.info.rateLimitingIssues| - |c.info.rateLimitingIssues|)
      && (AboveFloor(c) ==> AboveFloor(s))
  {
    var script := net.At(k);
    var run := TraceOf(urls[k], script, c.delay);
    var f := Failures(script);
    OneEntryPerAttempt(urls[k], script, c.delay);
    EntriesPerFailure(urls[k], script, c.delay, f);
    assert run.effects == FailuresEffects(urls[k], script, c.delay, f);
    var s := Step(urls, net, c, k);
    if AboveFloor(c) {
      DelayStaysAboveFloor(urls[k], script, c.delay);
      SleepAfterEveryFailure(urls[k], script, c.delay, f);
      forall i | 0 <= i < |s.sleeps|
        ensures s.sleeps[i] >= MIN_DELAY
      {
        if i >= |c.sleeps| {
          assert s.sleeps[i] == run.effects.sleeps[i - |c.sleeps|];
        }
      }
    }
  }

  /** What the pages `lo` to `hi - 1` run from `c` leave in `d`: the one-page
      facts summed up. */
  predicate Tallied(net: Network, c: CrawlState, lo: nat, hi: nat, d: CrawlState)
    requires lo <= hi
  {
    && d.events == c.events
    && d.info.xmlParsingStatus == c.info.xmlParsingStatus
    && d.info.httpStatus == c.info.httpStatus
    && d.info.parsingErrors == c.info.parsingErrors
    && |d.info.rateLimitingIssues| >= |c.info.rateLimitingIssues|
    && |d.info.networkErrors| + |d.info.rateLimitingIssues|
       == |c.info.networkErrors| + |c.info.rateLimitingIssues| + FailedAttempts(net, lo, hi)
    && |d.info.requestLogs| == |c.info.requestLogs| + (hi - lo) - GivenUp(net, lo, hi)
    && |d.sleeps| == |c.sleeps| + FailedAttempts(net, lo, hi) + (|d.info.rateLimitingIssues| - |c.info.rateLimitingIssues|)
    && (AboveFloor(c) ==> AboveFloor(d))
  }

  lemma {:induction false} RunPagesFacts(urls: seq<string>, net: Network, c: CrawlState, lo: nat, hi: nat)
    requires lo <= hi <= |urls|
    ensures Tallied(net, c, lo, hi, RunPages(urls, net, c, lo, hi))
    decreases hi - lo
  {
    if lo < hi {
      RunPagesFacts(urls, net, c, lo, hi - 1);
      PageFacts(urls, net, c, lo, hi, RunPages(urls, net, c, lo, hi - 1));
    }
  }

  /** One more page after the pages `lo` to `hi - 2`. */
  lemma PageFacts(urls: seq<string>, net: Network, c: CrawlState, lo: nat, hi: nat, prev: CrawlState)
    requires lo < hi <= |urls| && Tallied(net, c, lo, hi - 1, prev)
    ensures Tallied(net, c, lo, hi, Step(urls, net, prev, hi - 1))
  {
    StepFacts(urls, net, prev, hi - 1);
  }

  /** The state after `b` batches has sent the first `b` progress events. */
  lemma {:induction false} EventsAfterBatches(urls: seq<string>, net: Network, info0: DebugInfo, b: nat)
    requires b <= BatchTotal(|urls|)
    ensures AfterBatches(urls, net, info0, b).events == ProgressEvents(|urls|)[..b]
  {
    if b > 0 {
      EventsAfterBatches(urls, net, info0, b - 1);
      EventsBatch(urls, net, AfterBatches(urls, net, info0, b - 1), b);
    }
  }

  /** Batch `b - 1` sends the `b`-th progress event. */
  lemma EventsBatch(urls: seq<string>, net: Network, prev: CrawlState, b: nat)
    requires 0 < b <= BatchTotal(|urls|)
    requires prev.events == ProgressEvents(|urls|)[..b - 1]
    ensures BatchAfter(urls, net, prev, b - 1).events == ProgressEvents(|urls|)[..b]
  {
    var n := |urls|;
    BatchBounds(n, b - 1);
    var lo, hi := BatchStart(b - 1), BatchEnd(n, b - 1);
    RunPagesFacts(urls, net, prev, lo, hi);
    PrefixSnoc(ProgressEvents(n), b);
    assert ProgressEvents(n)[b - 1] == EventAt(n, hi);
  }

  /** After any number of batches the delay and every pause requested are at
      least `MIN_DELAY`. */
  lemma {:induction false} FloorAfterBatches(urls: seq<string>, net: Network, info0: DebugInfo, b: nat)
    requires b <= BatchTotal(|urls|)
    ensures AboveFloor(AfterBatches(urls, net, info0, b))
  {
    if b > 0 {
      FloorAfterBatches(urls, net, info0, b - 1);
      FloorBatch(urls, net, AfterBatches(urls, net, info0, b - 1), b);
    }
  }

  /** One batch from a state above the floor, followed by a pause for the
      delay it ends with, stays above the floor. */
  lemma FloorBatch(urls: seq<string>, net: Network, prev: CrawlState, b: nat)
    requires 0 < b <= BatchTotal(|urls|) && AboveFloor(prev)
    ensures AboveFloor(BatchAfter(urls, net, prev, b - 1))
  {
    BatchBounds(|urls|, b - 1);
    var lo, hi := BatchStart(b - 1), BatchEnd(|urls|, b - 1);
    var ran := RunPages(urls, net, prev, lo, hi);
    RunPagesFacts(urls, net, prev, lo, hi);
    var c := BatchAfter(urls, net, prev, b - 1);
    forall i | 0 <= i < |c.sleeps|
      ensures c.sleeps[i] >= MIN_DELAY
    {
      if i >= |ran.sleeps| {
        assert c.sleeps[i] == ran.delay;
      } else {
        assert c.sleeps[i] == ran.sleeps[i];
      }
    }
  }

  /** The statuses and parse errors recorded while the sitemap was expanded. */
  predicate Kept(info0: DebugInfo, c: CrawlState) {
    && c.info.xmlParsingStatus == info0.xmlParsingStatus
    && c.info.httpStatus == info0.httpStatus
    && c.info.parsingErrors == info0.parsingErrors
  }

  /** The crawl never touches the statuses and parse errors. */
  lemma {:induction false} KeptAfterBatches(urls: seq<string>, net: Network, info0: DebugInfo, b: nat)
    requires b <= BatchTotal(|urls|)
    ensures Kept(info0, AfterBatches(urls, net, info0, b))
  {
    if b > 0 {
      KeptAfterBatches(urls, net, info0, b - 1);
      KeptBatch(urls, net, info0, AfterBatches(urls, net, info0, b - 1), b);
    }
  }

  lemma KeptBatch(urls: seq<string>, net: Network, info0: DebugInfo, prev: CrawlState, b: nat)
    requires 0 < b <= BatchTotal(|urls|) && Kept(info0, prev)
    ensures Kept(info0, BatchAfter(urls, net, prev, b - 1))
  {
    BatchBounds(|urls|, b - 1);
    RunPagesFacts(urls, net, prev, BatchStart(b - 1), BatchEnd(|urls|, b - 1));
  }

  /** Pages done after `b` of the batches of `n` pages. */
  function Done(n: nat, b: nat): nat { Min(BatchStart(b), n) }

  /** Batch `b` covers the pages from `Done(n, b)` to `Done(n, b + 1)`. */
  lemma DoneBounds(n: nat, b: nat)
    requires b < BatchTotal(n)
    ensures Done(n, b) == BatchStart(b) && Done(n, b + 1) == BatchEnd(n, b)
  {
    BatchBounds(n, b);
    NextBatchStart(b);
  }

  /** One `networkErrors` or `rateLimitingIssues` entry per failed attempt on
      the first `done` pages, and one `requestLogs` entry per page among them
      that was not given up. */
  predicate Entries(net: Network, info0: DebugInfo, done: nat, c: CrawlState) {
    && |c.info.networkErrors| + |c.info.rateLimitingIssues|
       == |info0.networkErrors| + |info0.rateLimitingIssues| + FailedAttempts(net, 0, done)
    && |c.info.requestLogs| == |info0.requestLogs| + done - GivenUp(net, 0, done)
  }

  lemma {:induction false} EntriesAfterBatches(urls: seq<string>, net: Network, info0: DebugInfo, b: nat)
    requires b <= BatchTotal(|urls|)
    ensures Entries(net, info0, Done(|urls|, b), AfterBatches(urls, net, info0, b))
  {
    if b > 0 {
      EntriesAfterBatches(urls, net, info0, b - 1);
      EntriesBatch(urls, net, info0, AfterBatches(urls, net, info0, b - 1), b);
    }
  }

  lemma EntriesBatch(urls: seq<string>, net: Network, info0: DebugInfo, prev: CrawlState, b: nat)
    requires 0 < b <= BatchTotal(|urls|) && Entries(net, info0, Done(|urls|, b - 1), prev)
    ensures Entries(net, info0, Done(|urls|, b), BatchAfter(urls, net, prev, b - 1))
  {
    var n := |urls|;
    DoneBounds(n, b - 1);
    var lo, hi := BatchStart(b - 1), BatchEnd(n, b - 1);
    RunPagesFacts(urls, net, prev, lo, hi);
    FailedAttemptsSplit(net, 0, lo, hi);
    GivenUpSplit(net, 0, lo, hi);
  }

  /** Pauses between batches among the first `b` batches of `n` pages: one
      after every batch but the last. */
  function BetweenBatches(n: nat, b: nat): nat {
    if b < BatchTotal(n) then b else if n == 0 then 0 else BatchTotal(n) - 1
  }

  /** Batch `b - 1` is followed by a pause exactly when it is not the last. */
  lemma NextBetween(n: nat, b: nat)
    requires 0 < b <= BatchTotal(n)
    ensures BetweenBatches(n, b) == BetweenBatches(n, b - 1) + (if BatchStart(b - 1) + CONCURRENT_REQUESTS < n then 1 else 0)
  {
    BatchTotalBounds(n, b - 1);
    BatchTotalBounds(n, b);
    NextBatchStart(b - 1);
  }

  /** One pause per failed attempt on the first `done` pages, one more per 429,
      and `between` pauses between batches. */
  predicate Pauses(net: Network, info0: DebugInfo, done: nat, between: nat, c: CrawlState) {
    && |c.info.rateLimitingIssues| >= |info0.rateLimitingIssues|
    && |c.sleeps| == FailedAttempts(net, 0, done) + (|c.info.rateLimitingIssues| - |info0.rateLimitingIssues|) + between
  }

  lemma {:induction false} PausesAfterBatches(urls: seq<string>, net: Network, info0: DebugInfo, b: nat)
    requires b <= BatchTotal(|urls|)
    ensures Pauses(net, info0, Done(|urls|, b), BetweenBatches(|urls|, b), AfterBatches(urls, net, info0, b))
  {
    if b > 0 {
      PausesAfterBatches(urls, net, info0, b - 1);
      PausesBatch(urls, net, info0, AfterBatches(urls, net, info0, b - 1), b);
    }
  }

  lemma PausesBatch(urls: seq<string>, net: Network, info0: DebugInfo, prev: CrawlState, b: nat)
    requires 0 < b <= BatchTotal(|urls|)
    requires Pauses(net, info0, Done(|urls|, b - 1), BetweenBatches(|urls|, b - 1), prev)
    ensures Pauses(net, info0, Done(|urls|, b), BetweenBatches(|urls|, b), BatchAfter(urls, net, prev, b - 1))
  {
    var n := |urls|;
    DoneBounds(n, b - 1);
    NextBetween(n, b);
    var lo, hi := BatchStart(b - 1), BatchEnd(n, b - 1);
    RunPagesFacts(urls, net, prev, lo, hi);
    FailedAttemptsSplit(net, 0, lo, hi);
  }

  lemma {:induction false} FailedAttemptsSplit(net: Network, lo: nat, mid: nat, hi: nat)
    requires lo <= mid <= hi
    ensures FailedAttempts(net, lo, hi) == FailedAttempts(net, lo, mid) + FailedAttempts(net, mid, hi)
    decreases hi - mid
  {
    if mid < hi {
      FailedAttemptsSplit(net, lo, mid, hi - 1);
    }
  }

  lemma {:induction false} GivenUpSplit(net: Network, lo: nat, mid: nat, hi: nat)
    requires lo <= mid <= hi
    ensures GivenUp(net, lo, hi) == GivenUp(net, lo, mid) + GivenUp(net, mid, hi)
    decreases hi - mid
  {
    if mid < hi {
      GivenUpSplit(net, lo, mid, hi - 1);
    }
  }

  /** The crawl sends exactly the events of `ProgressEvents`: one per batch. */
  lemma CrawlEvents(urls: seq<string>, net: Network, info0: DebugInfo)
    ensures Crawled(urls, net, info0).events == ProgressEvents(|urls|)
  {
    EventsAfterBatches(urls, net, info0, BatchTotal(|urls|));
    assert ProgressEvents(|urls|)[..BatchTotal(|urls|)] == ProgressEvents(|urls|);
  }

  /** The delay ends at or above `MIN_DELAY`, and every pause of the crawl, after
      a failed attempt, a 429 or a batch, is at least `MIN_DELAY`. */
  lemma CrawlFloor(urls: seq<string>, net: Network, info0: DebugInfo)
    ensures Crawled(urls, net, info0).delay >= MIN_DELAY
    ensures forall i :: 0 <= i < |Crawled(urls, net, info0).sleeps| ==> Crawled(urls, net, info0).sleeps[i] >= MIN_DELAY
  {
    FloorAfterBatches(urls, net, info0, BatchTotal(|urls|));
  }

  /** The crawl leaves the statuses and parse errors of the expansion as they were. */
  lemma CrawlKeeps(urls: seq<string>, net: Network, info0: DebugInfo)
    ensures Crawled(urls, net, info0).info.parsingErrors == info0.parsingErrors
    ensures Crawled(urls, net, info0).info.xmlParsingStatus == info0.xmlParsingStatus
    ensures Crawled(urls, net, info0).info.httpStatus == info0.httpStatus
  {
    KeptAfterBatches(urls, net, info0, BatchTotal(|urls|));
  }

  /** Over the whole crawl: one `networkErrors` or `rateLimitingIssues` entry
      per failed attempt, one `requestLogs` entry per page not given up, and one
      pause per failed attempt, one per 429 and one between consecutive batches. */
  lemma CrawlTally(urls: seq<string>, net: Network, info0: DebugInfo)
    ensures var c := Crawled(urls, net, info0);
      && |c.info.networkErrors| + |c.info.rateLimitingIssues|
         == |info0.networkErrors| + |info0.rateLimitingIssues| + FailedAttempts(net, 0, |urls|)
      && |c.info.requestLogs| == |info0.requestLogs| + |urls| - GivenUp(net, 0, |urls|)
      && |c.sleeps| == FailedAttempts(net, 0, |urls|)
         + (|c.info.rateLimitingIssues| - |info0.rateLimitingIssues|)
         + (if |urls| == 0 then 0 else BatchTotal(|urls|) - 1)
  {
    var n := |urls|;
    var b := BatchTotal(n);
    EntriesAfterBatches(urls, net, info0, b);
    PausesAfterBatches(urls, net, info0, b);
    if n > 0 {
      BatchTotalBounds(n, b - 1);
    }
    assert Done(n, b) == n;
  }

  /** Every request log from position `from` on records a status the page
      fetch's `validateStatus` accepts. */
  predicate AcceptedFrom(logs: seq<RequestLog>, from: nat) {
    from <= |logs| && forall i :: from <= i < |logs| ==> PageAccepts(logs[i].status)
  }

  lemma StepAccepted(urls: seq<string>, net: Network, c: CrawlState, k: nat, from: nat)
    requires k < |urls| && net.ByAxios() && AcceptedFrom(c.info.requestLogs, from)
    ensures AcceptedFrom(Step(urls, net, c, k).info.requestLogs, from)
  {
    LoggedStatusAccepted(urls[k], net.At(k), c.delay);
  }

  lemma {:induction false} RunPagesAccepted(urls: seq<string>, net: Network, c: CrawlState, lo: nat, hi: nat, from: nat)
    requires lo <= hi <= |urls| && net.ByAxios() && AcceptedFrom(c.info.requestLogs, from)
    ensures AcceptedFrom(RunPages(urls, net, c, lo, hi).info.requestLogs, from)
    decreases hi - lo
  {
    if lo < hi {
      RunPagesAccepted(urls, net, c, lo, hi - 1, from);
      StepAccepted(urls, net, RunPages(urls, net, c, lo, hi - 1), hi - 1, from);
    }
  }

  lemma {:induction false} AcceptedAfterBatches(urls: seq<string>, net: Network, info0: DebugInfo, b: nat)
    requires b <= BatchTotal(|urls|) && net.ByAxios()
    ensures AcceptedFrom(AfterBatches(urls, net, info0, b).info.requestLogs, |info0.requestLogs|)
  {
    if b > 0 {
      AcceptedAfterBatches(urls, net, info0, b - 1);
      BatchTotalBounds(|urls|, b - 1);
      RunPagesAccepted(urls, net, AfterBatches(urls, net, info0, b - 1), BatchStart(b - 1), BatchEnd(|urls|, b - 1),
                       |info0.requestLogs|);
    }
  }

  /** Every request the crawl logs answered below 400: a page that answers
      400 or more is retried, never logged as a success. */
  lemma CrawlLogsAccepted(urls: seq<string>, net: Network, info0: DebugInfo)
    requires net.ByAxios()
    ensures var logs := Crawled(urls, net, info0).info.requestLogs;
      |info0.requestLogs| <= |logs| && forall i :: |info0.requestLogs| <= i < |logs| ==> logs[i].status < 400
  {
    AcceptedAfterBatches(urls, net, info0, BatchTotal(|urls|));
  }

  /** One result per page URL, in order and duplicates included, each naming
      its URL; at most two issues per page, and no issue at all exactly when
      every result has an empty issue list. */
  lemma SummaryCounts(urls: seq<string>, net: Network, info0: DebugInfo)
    ensures SummaryOf(urls, net, info0).urlsAnalyzed == |urls| == |SummaryOf(urls, net, info0).details|
    ensures forall k :: 0 <= k < |urls| ==>
      SummaryOf(urls, net, info0).details[k] == Outcome(urls[k], net.At(k))
      && SummaryOf(urls, net, info0).details[k].url == urls[k]
    ensures SummaryOf(urls, net, info0).issues <= 2 * |urls|
    ensures SummaryOf(urls, net, info0).issues == 0 <==>
      forall k :: 0 <= k < |urls| ==> SummaryOf(urls, net, info0).details[k].issues == []
  {
    var rs := Outcomes(urls, net);
    forall k | 0 <= k < |rs|
      ensures rs[k].url == urls[k] && |rs[k].issues| <= 2
    {
      OutcomeShape(urls[k], net.At(k));
    }
    TotalIssuesBounds(rs);
  }

  /** The issue total is at most twice the number of results, and zero exactly
      when no result has an issue. */
  lemma {:induction false} TotalIssuesBounds(rs: seq<PageResult>)
    requires forall k :: 0 <= k < |rs| ==> |rs[k].issues| <= 2
    ensures TotalIssues(rs) <= 2 * |rs|
    ensures TotalIssues(rs) == 0 <==> forall k :: 0 <= k < |rs| ==> rs[k].issues == []
  {
    if |rs| > 0 {
      var init := rs[..|rs| - 1];
      TotalIssuesBounds(init);
      assert forall k :: 0 <= k < |init| ==> init[k] == rs[k];
    }
  }

}
