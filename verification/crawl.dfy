/** `processRequest` of the analyze route: expand the sitemap, crawl the page
    URLs in batches of `CONCURRENT_REQUESTS`, one retry loop per page with an
    adaptive delay shared across the whole crawl, a progress event after every
    batch, a pause between batches, and the summary the route returns.

    The pages of one batch run concurrently in the source; the model runs them
    in batch order, which is one of the interleavings the source allows. */
module Crawl {
  import opened Wrappers
  import opened Batching
  import opened AnalyzeConfig
  import opened Debug
  import opened SeoIssues
  import opened PageRetry
  import opened SitemapExpansion
  import opened ProgressStream

  /** What the network answers to each attempt on the page at position `k` of
      the crawl: `scripts[k]`, and `otherwise` for every position past the end
      of `scripts`. Any finite crawl sees only finitely many positions, so this
      describes every behaviour of the network the crawl can observe. */
  datatype Network = Network(scripts: seq<Script>, otherwise: Script) {
    function At(k: nat): Script {
      if k < |scripts| then scripts[k] else otherwise
    }

    /** Every answer is one `axios.get` can give. */
    predicate ByAxios() {
      (forall k :: 0 <= k < |scripts| ==> scripts[k].ByAxios()) && otherwise.ByAxios()
    }
  }

  /** The crawl's variables, other than the results, after some prefix of the
      pages: the shared delay, every pause requested, the debug accumulator and
      the progress events sent. */
  datatype CrawlState = CrawlState(delay: int, sleeps: seq<int>, info: DebugInfo, events: seq<Progress>)

  /** Page `k` run from the state `c`. */
  function Step(urls: seq<string>, net: Network, c: CrawlState, k: nat): CrawlState
    requires k < |urls|
  {
    var t := TraceOf(urls[k], net.At(k), c.delay);
    c.(delay := t.delay, sleeps := c.sleeps + t.effects.sleeps, info := Logged(c.info, t))
  }

  /** Pages `lo` to `hi - 1` run one after the other from `c`. */
  function RunPages(urls: seq<string>, net: Network, c: CrawlState, lo: nat, hi: nat): CrawlState
    requires lo <= hi <= |urls|
    decreases hi - lo
  {
    if lo == hi then c else Step(urls, net, RunPages(urls, net, c, lo, hi - 1), hi - 1)
  }

  /** The result of every page, in crawl order. A page's result depends only
      on what the network answers for it, not on the delay, so the results need
      not be threaded through the crawl state. */
  function Outcomes(urls: seq<string>, net: Network): (rs: seq<PageResult>)
    ensures |rs| == |urls|
  {
    seq(|urls|, k requires 0 <= k < |urls| => Outcome(urls[k], net.At(k)))
  }

  /** The first page of batch `b` (counting from 0) and the end of that batch. */
  function BatchStart(b: nat): nat { CONCURRENT_REQUESTS * b }

  lemma NextBatchStart(b: nat)
    ensures BatchStart(b + 1) == BatchStart(b) + CONCURRENT_REQUESTS
  {
  }

  function BatchEnd(n: nat, b: nat): nat { Min(BatchStart(b) + CONCURRENT_REQUESTS, n) }

  /** Batch `b` of `n` pages starts where the first `b` batches end, ends where
      the first `b + 1` end, and reports the event `EventAfter(n, b)`. */
  lemma BatchBounds(n: nat, b: nat)
    requires b < BatchTotal(n)
    ensures BatchStart(b) == Min(CONCURRENT_REQUESTS * b, n)
    ensures BatchEnd(n, b) == Min(CONCURRENT_REQUESTS * (b + 1), n)
    ensures EventAt(n, BatchEnd(n, b)) == EventAfter(n, b)
    ensures BatchStart(b) < BatchEnd(n, b) <= n
  {
    BatchTotalBounds(n, b);
    NextBatchStart(b);
  }

  /** The crawl's batch `b` is batch `b` of the general batching of the URL list:
      there are as many of them, and each covers the same slice of URLs. */
  lemma CrawlBatchesAreBatches(urls: seq<string>)
    ensures |Batches(urls, CONCURRENT_REQUESTS)| == BatchTotal(|urls|)
    ensures forall b :: 0 <= b < BatchTotal(|urls|) ==>
      Batches(urls, CONCURRENT_REQUESTS)[b] == urls[BatchStart(b)..BatchEnd(|urls|, b)]
  {
    BatchCount(urls, CONCURRENT_REQUESTS);
    forall b | 0 <= b < BatchTotal(|urls|)
      ensures Batches(urls, CONCURRENT_REQUESTS)[b] == urls[BatchStart(b)..BatchEnd(|urls|, b)]
    {
      BatchTotalBounds(|urls|, b);
      BatchAt(urls, CONCURRENT_REQUESTS, b);
    }
  }

  /** Taken batch after batch, the crawl visits every URL once, in list order. */
  lemma CrawlCoversUrls(urls: seq<string>)
    ensures Flatten(seq(BatchTotal(|urls|), b requires 0 <= b < BatchTotal(|urls|) => urls[BatchStart(b)..BatchEnd(|urls|, b)])) == urls
  {
    CrawlBatchesAreBatches(urls);
    FlattenBatches(urls, CONCURRENT_REQUESTS);
    assert seq(BatchTotal(|urls|), b requires 0 <= b < BatchTotal(|urls|) => urls[BatchStart(b)..BatchEnd(|urls|, b)])
      == Batches(urls, CONCURRENT_REQUESTS);
  }

  /** The event sent once `processed` of `n` pages are done. */
  function EventAt(n: nat, processed: nat): Progress {
    Progress(n, processed, if processed == n then Complete else Analyzing)
  }

  /** Batch `b` run from the state `c` the earlier batches left: its pages run
      one after the other, the pages processed so far are reported, and unless
      it was the last batch the crawl pauses for the current delay. */
  function BatchAfter(urls: seq<string>, net: Network, c: CrawlState, b: nat): CrawlState
    requires b < BatchTotal(|urls|)
  {
    BatchTotalBounds(|urls|, b);
    var lo := BatchStart(b);
    var hi := BatchEnd(|urls|, b);
    var ran := RunPages(urls, net, c, lo, hi);
    ran.(events := ran.events + [EventAt(|urls|, hi)],
      sleeps := ran.sleeps + (if lo + CONCURRENT_REQUESTS < |urls| then [ran.delay] else []))
  }

  /** The state after the first `b` batches of the crawl of `urls`, starting
      from the debug accumulator `info0`. */
  function AfterBatches(urls: seq<string>, net: Network, info0: DebugInfo, b: nat): CrawlState
    requires b <= BatchTotal(|urls|)
    decreases b
  {
    if b == 0 then CrawlState(MIN_DELAY, [], info0, [])
    else BatchAfter(urls, net, AfterBatches(urls, net, info0, b - 1), b - 1)
  }

  /** Batch `b` seen from outside: if its pages leave the delay at `d`, request
      the pauses `pauses` and leave the debug accumulator at `info`, then the
      state after it adds those, the progress event and the pause between batches. */
  lemma BatchStep(urls: seq<string>, net: Network, info0: DebugInfo, b: nat, d: int, pauses: seq<int>, info: DebugInfo)
    requires b < BatchTotal(|urls|)
    requires BatchStart(b) <= BatchEnd(|urls|, b) <= |urls|
    requires RunPages(urls, net, AfterBatches(urls, net, info0, b), BatchStart(b), BatchEnd(|urls|, b))
      == AfterBatches(urls, net, info0, b).(delay := d, sleeps := AfterBatches(urls, net, info0, b).sleeps + pauses, info := info)
    ensures forall next :: next == b + 1 ==> AfterBatches(urls, net, info0, next) == CrawlState(d,
      AfterBatches(urls, net, info0, b).sleeps + pauses + (if BatchStart(b) + CONCURRENT_REQUESTS < |urls| then [d] else []),
      info, AfterBatches(urls, net, info0, b).events + [EventAt(|urls|, BatchEnd(|urls|, b))])
  {
    var c := AfterBatches(urls, net, info0, b);
    if BatchStart(b) + CONCURRENT_REQUESTS >= |urls| {
      assert c.sleeps + pauses + [] == c.sleeps + pauses;
    }
    var s := CrawlState(d, c.sleeps + pauses + (if BatchStart(b) + CONCURRENT_REQUESTS < |urls| then [d] else []),
      info, c.events + [EventAt(|urls|, BatchEnd(|urls|, b))]);
    assert BatchAfter(urls, net, c, b) == s;
    forall next | next == b + 1
      ensures AfterBatches(urls, net, info0, next) == s
    {
      NextBatch(urls, net, info0, b, next, s);
    }
  }

  /** The state after batch `b` under the name `next` of the batch count that follows it. */
  lemma NextBatch(urls: seq<string>, net: Network, info0: DebugInfo, b: nat, next: nat, s: CrawlState)
    requires b < BatchTotal(|urls|) && next == b + 1
    requires BatchAfter(urls, net, AfterBatches(urls, net, info0, b), b) == s
    ensures AfterBatches(urls, net, info0, next) == s
  {
    assert next - 1 == b;
  }

  lemma FramesSnoc(events: seq<Progress>, p: Progress)
    ensures Frames(events + [p]) == Frames(events) + [ProgressFrame(p)]
  {
  }

  /** The debug accumulator once the sitemap has been expanded. */
  function Expanding(info0: DebugInfo, root: Sitemap): DebugInfo {
    info0.(parsingErrors := info0.parsingErrors + ExpansionErrors(root))
  }

  /** The crawl of the page URLs `urls`, but for its results. */
  function Crawled(urls: seq<string>, net: Network, info0: DebugInfo): CrawlState {
    AfterBatches(urls, net, info0, BatchTotal(|urls|))
  }

  /** The whole crawl of the sitemap `root`, but for its results. */
  function CrawlOf(root: Sitemap, net: Network, info0: DebugInfo): CrawlState {
    Crawled(Expanded(root), net, Expanding(info0, root))
  }

  /** `batchResults.filter(r => r !== null)`. */
  function Present(rs: seq<Option<PageResult>>): (present: seq<PageResult>)
    ensures |present| <= |rs|
  {
    if |rs| == 0 then []
    else Present(rs[..|rs| - 1]) + (if rs[|rs| - 1].Some? then [rs[|rs| - 1].value] else [])
  }

  /** `results.reduce((sum, r) => sum + (r.issues?.length || 0), 0)`. */
  function TotalIssues(rs: seq<PageResult>): nat {
    if |rs| == 0 then 0 else TotalIssues(rs[..|rs| - 1]) + |rs[|rs| - 1].issues|
  }

  /** The summary the route builds: how many results, how many issues in all,
      the results themselves and the stored copy of the debug accumulator. */
  datatype AnalysisData = AnalysisData(urlsAnalyzed: nat, issues: nat, details: seq<PageResult>, debugInfo: StoredDebugInfo)

  /** The summary of the crawl of `urls`. */
  function SummaryOf(urls: seq<string>, net: Network, info0: DebugInfo): AnalysisData {
    var results := Outcomes(urls, net);
    AnalysisData(|results|, TotalIssues(results), results, Stored(Crawled(urls, net, info0).info))
  }

  /** The summary of the crawl of `root`. */
  function Summary(root: Sitemap, net: Network, info0: DebugInfo): AnalysisData {
    SummaryOf(Expanded(root), net, Expanding(info0, root))
  }

  /** The frames a writer that accepts every write receives for `events`. */
  function Frames(events: seq<Progress>): (frames: seq<string>)
    ensures |frames| == |events|
  {
    seq(|events|, k requires 0 <= k < |events| => ProgressFrame(events[k]))
  }

  /** `processRequest` without the search-history update: the result is the
      summary of `CrawlOf`, the pauses are the ones it requests in order, the
      debug accumulator ends as it says, and the writer receives one frame per
      event unless it rejects writes. */
  method ProcessRequest(root: Sitemap, net: Network, debug: DebugLog, writer: Writer?)
      returns (data: AnalysisData, sleeps: seq<int>)
    requires net.ByAxios()
    modifies debug, writer
    ensures data == Summary(root, net, old(debug.Contents()))
    ensures sleeps == CrawlOf(root, net, old(debug.Contents())).sleeps
    ensures debug.Contents() == CrawlOf(root, net, old(debug.Contents())).info
    ensures writer != null && !writer.rejects ==>
      writer.frames == old(writer.frames) + Frames(CrawlOf(root, net, old(debug.Contents())).events)
    ensures writer != null && writer.rejects ==> writer.frames == old(writer.frames)
  {
    var urls := ExtractUrls(root, debug);
    data, sleeps := CrawlPages(urls, net, debug, writer);
  }

  /** The batch loop of `processRequest` over the page URLs the sitemap gave. */
  method CrawlPages(urls: seq<string>, net: Network, debug: DebugLog, writer: Writer?)
      returns (data: AnalysisData, sleeps: seq<int>)
    requires net.ByAxios()
    modifies debug, writer
    ensures data == SummaryOf(urls, net, old(debug.Contents()))
    ensures sleeps == Crawled(urls, net, old(debug.Contents())).sleeps
    ensures debug.Contents() == Crawled(urls, net, old(debug.Contents())).info
    ensures writer != null && !writer.rejects ==>
      writer.frames == old(writer.frames) + Frames(Crawled(urls, net, old(debug.Contents())).events)
    ensures writer != null && writer.rejects ==> writer.frames == old(writer.frames)
  {
    ghost var info1 := debug.Contents();
    ghost var sent := if writer == null then [] else writer.frames;
    var n := |urls|;
    var results: seq<PageResult> := [];
    var delay := MIN_DELAY;
    var processed := 0;
    sleeps := [];
    ghost var events: seq<Progress> := [];
    ghost var b: nat := 0;
    var i := 0;
    while i < n
      invariant i == BatchStart(b) && b <= BatchTotal(n)
      invariant b < BatchTotal(n) <==> i < n
      invariant processed == Min(i, n)
      invariant results == Outcomes(urls, net)[..processed]
      invariant AfterBatches(urls, net, info1, b) == CrawlState(delay, sleeps, debug.Contents(), events)
      invariant writer != null && !writer.rejects ==> writer.frames == sent + Frames(events)
      invariant writer != null && writer.rejects ==> writer.frames == sent
    {
      BatchTotalBounds(n, b);
      BatchTotalBounds(n, b + 1);
      var present;
      present, delay, sleeps, processed, events := CrawlBatch(urls, net, debug, writer, info1, sent, b, i, delay, sleeps, events);
      SliceSplit(Outcomes(urls, net), i, processed);
      results := results + present;
      NextBatchStart(b);
      i := i + CONCURRENT_REQUESTS;
      b := b + 1;
    }
    assert b == BatchTotal(n) && processed == n;
    SliceAll(Outcomes(urls, net));
    data := AnalysisData(|results|, TotalIssues(results), results, Stored(debug.Contents()));
  }

  /** One pass of the batch loop: batch `b`, which starts at page `i`, runs its
      pages, reports the pages processed so far and, unless it was the last,
      requests the pause between batches. */
  method CrawlBatch(urls: seq<string>, net: Network, debug: DebugLog, writer: Writer?, ghost info1: DebugInfo,
                    ghost sent: seq<string>, ghost b: nat, i: nat, delay0: int, sleeps0: seq<int>, ghost events0: seq<Progress>)
      returns (present: seq<PageResult>, delay: int, sleeps: seq<int>, processed: nat, ghost events: seq<Progress>)
    requires net.ByAxios()
    requires b < BatchTotal(|urls|) && i == BatchStart(b)
    requires AfterBatches(urls, net, info1, b) == CrawlState(delay0, sleeps0, debug.Contents(), events0)
    requires writer != null && !writer.rejects ==> writer.frames == sent + Frames(events0)
    requires writer != null && writer.rejects ==> writer.frames == sent
    modifies debug, writer
    ensures processed == BatchEnd(|urls|, b)
    ensures present == Outcomes(urls, net)[i..processed]
    ensures events == events0 + [EventAt(|urls|, processed)]
    ensures forall next :: next == b + 1 ==>
      AfterBatches(urls, net, info1, next) == CrawlState(delay, sleeps, debug.Contents(), events)
    ensures writer != null && !writer.rejects ==> writer.frames == sent + Frames(events)
    ensures writer != null && writer.rejects ==> writer.frames == sent
  {
    var n := |urls|;
    BatchTotalBounds(n, b);
    var hi := Min(i + CONCURRENT_REQUESTS, n);
    var batch := urls[i..hi];
    ghost var start := CrawlState(delay0, sleeps0, debug.Contents(), events0);
    assert hi == BatchEnd(n, b);
    var batchResults, batchSleeps;
    batchResults, delay, batchSleeps := AnalyzeBatch(urls, net, i, hi, delay0, debug, start);
    BatchStep(urls, net, info1, b, delay, batchSleeps, debug.Contents());
    present := Present(batchResults);
    sleeps := sleeps0 + batchSleeps;
    processed := i + |batch|;
    var p := Progress(n, processed, if processed == n then Complete else Analyzing);
    assert p == EventAt(n, processed);
    events := Report(writer, sent, events0, p);
    if i + CONCURRENT_REQUESTS < n {
      sleeps := sleeps + [delay];
    } else {
      assert sleeps == sleeps + [];
    }
  }

  /** `sendProgress` seen against the whole stream: the event joins the log
      of events sent, and a writer that accepts writes holds one frame per event. */
  method Report(writer: Writer?, ghost sent: seq<string>, ghost events0: seq<Progress>, p: Progress)
      returns (ghost events: seq<Progress>)
    requires writer != null && !writer.rejects ==> writer.frames == sent + Frames(events0)
    requires writer != null && writer.rejects ==> writer.frames == sent
    modifies writer
    ensures events == events0 + [p]
    ensures writer != null && !writer.rejects ==> writer.frames == sent + Frames(events)
    ensures writer != null && writer.rejects ==> writer.frames == sent
  {
    SendProgress(writer, p);
    events := events0 + [p];
    FramesSnoc(events0, p);
  }

  /** The pages `lo` to `hi - 1` of one batch, each through its retry loop, all
      sharing the delay. `start` is the crawl state when the batch begins. */
  method AnalyzeBatch(urls: seq<string>, net: Network, lo: nat, hi: nat, delay0: int, debug: DebugLog,
                      ghost start: CrawlState)
      returns (batchResults: seq<Option<PageResult>>, delay: int, sleeps: seq<int>)
    requires net.ByAxios()
    requires lo <= hi <= |urls|
    requires start.delay == delay0 && start.info == debug.Contents()
    modifies debug
    ensures |batchResults| == hi - lo
    ensures Present(batchResults) == Outcomes(urls, net)[lo..hi]
    ensures RunPages(urls, net, start, lo, hi) == start.(delay := delay, sleeps := start.sleeps + sleeps, info := debug.Contents())
  {
    batchResults := [];
    delay := delay0;
    sleeps := [];
    var j := lo;
    while j < hi
      invariant lo <= j <= hi && |batchResults| == j - lo
      invariant Present(batchResults) == Outcomes(urls, net)[lo..j]
      invariant RunPages(urls, net, start, lo, j) == start.(delay := delay, sleeps := start.sleeps + sleeps, info := debug.Contents())
    {
      ghost var before := RunPages(urls, net, start, lo, j);
      var result, d, s := AnalyzePage(urls[j], net.At(j), delay, debug);
      assert (batchResults + [result])[..|batchResults|] == batchResults;
      SliceSnoc(Outcomes(urls, net), lo, j);
      assert result.value == Outcomes(urls, net)[j];
      assert Present(batchResults + [result]) == Present(batchResults) + [result.value];
      NextPage(urls, net, start, lo, j);
      Associative(start.sleeps, sleeps, s);
      batchResults := batchResults + [result];
      delay := d;
      sleeps := sleeps + s;
      j := j + 1;
    }
  }

  /** Running one more page is one more `Step`, for every name of the next position. */
  lemma NextPage(urls: seq<string>, net: Network, c: CrawlState, lo: nat, j: nat)
    requires lo <= j < |urls|
    ensures forall next :: next == j + 1 ==>
      RunPages(urls, net, c, lo, next) == Step(urls, net, RunPages(urls, net, c, lo, j), j)
  {
    assert RunPages(urls, net, c, lo, j + 1) == Step(urls, net, RunPages(urls, net, c, lo, j), j);
  }

}
