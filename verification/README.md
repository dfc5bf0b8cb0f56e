# Sitemap analyzer core, modelled in Dafny

This project models the server and client core of a sitemap SEO analyzer:

- The analyze route expands a sitemap or sitemap index into page URLs. It crawls the pages in batches of five, with per-page retries and an adaptive delay. Each page is classified for SEO issues. Debug entries accumulate in a shared `debugInfo` object, and progress frames stream to the client.
- The browser page decodes that stream line by line.
- robots.txt parsing and sitemap discovery.
- Grouping the stored scan history by domain, with per-scan statistics.
- The history and scan exports (CSV, JSON, HTML report).
- The serializers that turn records into the JSON kept with a search.

The network, the XML and HTML parsers, `JSON.parse`/`JSON.stringify`, `new URL` and the clock are inputs of the model: a sitemap tree, a per-URL script of fetch outcomes, and parser and clock functions passed as parameters. Objects the source mutates in place are classes:

- the `debugInfo` accumulator (`Debug.DebugLog`);
- the progress stream writer (`ProgressStream.Writer`);
- the page's progress state (`StreamDecoder.ProgressDisplay`).

Their methods are proved against specification functions (`Crawl.Summary`, `StreamDecoder.Decoded`, `DomainGrouping.GroupedHistory`, …). Lemmas then prove what the source promises about those functions.

Modules, one per file:

- `Wrappers`, `Text`, `Batching`, `Sorting`, `JsonValues` (wrappers.dfy, text.dfy, batching.dfy, sorting.dfy, json.dfy): `Option`/`Result`; JavaScript `trim`, `.length` in UTF-16 units, `split`/`join`, `String(n)`; `slice`-batching; the stable `Array.prototype.sort`; JSON values, property access and truthiness.
- `AnalyzeConfig`, `Debug` (analyze_config.dfy, debug_info.dfy): the route's constants; the `debugInfo` accumulator and its stored copy.
- `SeoIssues`, `PageRetry` (seo_issues.dfy, page_retry.dfy): the per-page SEO checks; the per-page retry loop.
- `SitemapExpansion` (sitemap_expansion.dfy): `extractUrlsFromSitemap`.
- `ProgressStream`, `Crawl`, `CrawlFacts` (progress.dfy, crawl.dfy, crawl_facts.dfy): `sendProgress`; `processRequest`; what a whole crawl does.
- `StreamDecoder`, `Delivery` (stream_decoder.dfy, delivery.dfy): the page's stream decoder; what the client receives from the route.
- `RobotsTxt`, `SitemapFinder` (robots_txt.dfy, sitemap_finder.dfy): `findSitemapsInRobotsTxt`; `findSitemaps`.
- `ScanStatistics`, `DomainGrouping` (scan_stats.dfy, domain_grouping.dfy): `calculateScanStats`/`detectScanFrequency`; `groupHistoryByDomain`.
- `Csv`, `HistoryExport` (csv.dfy, history_export.dfy): an RFC 4180 reader used as the partner of the CSV writers; `exportToCSV`/`exportToHTML`.
- `ScanResults`, `ScanExport`, `ReportGenerator` (scan_results.dfy, scan_export.dfy, report_generator.dfy): stored scan pages and their summary; `generateScanCSV`/`generateScanJSON`; `generateScanReport`.
- `Serialization` (serialization.dfy): `serializeForPrisma`, `deserializeFromPrisma`, `serializeDebugInfo`, `serializeAnalysisResult`.

## Model

| member | source | states |
|---|---|---|
| Text.Trim | src/app/api/analyze/route.ts:124-125 | the result is no longer than the input and neither starts nor ends with JavaScript white space |
| Text.TrimBlank | src/app/api/analyze/route.ts:124-129 | trimming gives the empty string exactly when the text is all white space |
| Text.TrimIdempotent | src/app/api/analyze/route.ts:124 | trimming twice is trimming once |
| Text.TrimIgnoresPadding | src/app/api/analyze/route.ts:124-125 | white space added on either side does not change the trimmed text |
| Text.Utf16Length | src/app/api/analyze/route.ts:131-132 | `.length` counts UTF-16 code units: between one and two per character |
| Text.Utf16LengthBmp | src/app/api/analyze/route.ts:131-132 | `.length` equals the character count exactly when no character is outside the Basic Multilingual Plane |
| Text.Utf16LengthAstral | src/app/api/analyze/route.ts:131-132 | a text of astral characters has twice their number as `.length` |
| Text.Split | src/app/page.tsx:65 | `split('\n')` gives at least one part, no part holds the separator, and joining the parts gives back the text |
| Text.SplitJoin | src/app/page.tsx:65-66 | splitting what was joined from separator-free parts gives back the parts |
| Text.NatToString | src/utils/export.ts:22-23 | the decimal text of a number is non-empty digits, with no leading zero except for zero itself |
| Text.IntStringRoundTrip | src/utils/export.ts:22-23 | parsing `String(n)` gives back `n`, for negative numbers too |
| Batching.FlattenBatches | src/app/api/analyze/route.ts:317-325 | concatenating the batches of a list gives back the list, in order |
| Batching.BatchCount | src/app/api/analyze/route.ts:106-107 | a list of n items has ⌈n / size⌉ batches |
| Batching.BatchAt | src/app/api/analyze/route.ts:106-107 | batch j is the slice from j·size to min(j·size + size, n) |
| Sorting.SortDesc | src/utils/domainGrouping.ts:190-192 | the newest-first sort keeps the number of elements |
| Sorting.SortDescSorted | src/utils/domainGrouping.ts:190-192 | the sort is non-increasing by key and a permutation of its input |
| Sorting.SortDescStable | src/utils/domainGrouping.ts:190-192 | elements with equal keys keep their relative order, as `Array.prototype.sort` guarantees |
| Sorting.EqualKeysUnmoved | src/utils/domainGrouping.ts:255 | a list whose keys are all equal is left as it is |
| Sorting.SortDescBounds | src/utils/domainGrouping.ts:190-192 | the first element has the largest key and the last the smallest, both taken from the input |
| JsonValues.Lookup | src/app/page.tsx:73-85 | a key is missing exactly when no member has it; otherwise the value is the one stored under its last occurrence, as `JSON.parse` keeps the last duplicate |
| JsonValues.Get | src/app/page.tsx:73-85 | property access finds something only on an object |
| Debug.DebugLog.constructor | src/app/api/analyze/route.ts:23-38 | the accumulator starts with status `pending`, HTTP status `'0'` and empty lists |
| Debug.DebugLog.AddNetworkError | src/app/api/analyze/route.ts:183-185 | appends one message to `networkErrors` and changes nothing else |
| Debug.DebugLog.AddRateLimitingIssue | src/app/api/analyze/route.ts:180 | appends one message to `rateLimitingIssues` and changes nothing else |
| Debug.DebugLog.AddParsingError | src/app/api/analyze/route.ts:299 | appends one message to `parsingErrors` and changes nothing else |
| Debug.DebugLog.AddRequestLog | src/app/api/analyze/route.ts:165-169 | appends one request log and changes nothing else |
| Debug.StoreLog | src/app/api/analyze/route.ts:230-234 | a stored log keeps the url, and its status and duration texts parse back to the numbers |
| Debug.Stored | src/app/api/analyze/route.ts:227-235 | the summary's copy keeps every list and status as is, and keeps every request log in order with its numbers as text that reads back as them |
| SeoIssues.CollectIssues | src/app/api/analyze/route.ts:126-132 | at most two issues, and none exactly when title and description are non-empty and within 60 and 160 UTF-16 units |
| SeoIssues.ClassifyExactly | src/app/api/analyze/route.ts:129-132 | each of the four messages appears exactly when its condition holds |
| SeoIssues.ClassifyInCheckOrder | src/app/api/analyze/route.ts:129-132 | the messages come in the order of the four checks |
| SeoIssues.AtMostTwoIssues | src/app/api/analyze/route.ts:129-132 | missing and too long exclude each other, so a page has at most two issues |
| SeoIssues.PageIssuesIgnorePadding | src/app/api/analyze/route.ts:124-125 | white space around the title or description never changes the issues |
| SeoIssues.MissingExactlyWhenBlank | src/app/api/analyze/route.ts:124-130 | a field is reported missing exactly when it is absent or all white space |
| SeoIssues.LongTitleWithoutDescription | src/app/api/analyze/route.ts:125-137 | a 70-character title with no description fails with both issues, in check order |
| SeoIssues.AstralTitleTooLong | src/app/api/analyze/route.ts:131 | 31 emoji are 62 UTF-16 units, so the title is too long |
| PageRetry.AnalyzedFrom | src/app/api/analyze/route.ts:123-162 | a fetched page gives an analyzed result for its URL whose verdict is fail exactly when it has issues |
| PageRetry.Failures | src/app/api/analyze/route.ts:115-116 | the number of leading failed attempts, at most three; the attempt after them succeeded |
| PageRetry.FailureEffect | src/app/api/analyze/route.ts:176-199 | a failed attempt logs exactly one message and ends with a sleep of the increased delay |
| PageRetry.AnalyzePage | src/app/api/analyze/route.ts:110-202 | the retry loop returns the page's outcome, the new shared delay and the sleeps, and leaves exactly the trace's entries in the accumulator |
| PageRetry.LoggedStatusAccepted | src/app/api/analyze/route.ts:117-168 | a page's request log, and any analyzed result, come from an answer below 400; an answer of 400 or more is thrown and retried |
| PageRetry.AnalyzeFetched | src/app/api/analyze/route.ts:117-169 | a successful fetch yields its analyzed result and adds one request log |
| PageRetry.LogFailure | src/app/api/analyze/route.ts:175-186 | a failure adds its one message to the right list and sleeps as the script says |
| PageRetry.OneEntryPerAttempt | src/app/api/analyze/route.ts:115-195 | at most three attempts; one error or rate-limit entry per failed attempt, and one request log for the success |
| PageRetry.EntriesPerFailure | src/app/api/analyze/route.ts:175-199 | each failure adds one entry and one sleep, plus the rate-limit pause after a 429 |
| PageRetry.SleepAfterEveryFailure | src/app/api/analyze/route.ts:176-199 | every sleep is the rate-limit pause or a delay grown by 100 per failure so far |
| PageRetry.DelayStaysAboveFloor | src/app/api/analyze/route.ts:172-177 | the shared delay never drops below `MIN_DELAY` |
| PageRetry.DelayAfterPage | src/app/api/analyze/route.ts:171-177 | a first-try success lowers the delay by 50 down to the floor; each failure raises it by 100 |
| PageRetry.OutcomeShape | src/app/api/analyze/route.ts:135-193 | the result is for the page's URL, and an analyzed result fails exactly when it has issues |
| PageRetry.PlaceholderExactlyOnExhaustion | src/app/api/analyze/route.ts:188-193 | the placeholder appears exactly when all three attempts failed, with the last error message |
| PageRetry.ThreeRateLimits | src/app/api/analyze/route.ts:176-199 | three 429 responses give three rate-limit entries, pauses of 1000 ms between growing delays, and the placeholder |
| ProgressStream.StageName | src/app/api/analyze/route.ts:18 | a stage is one of `starting`, `analyzing`, `complete` |
| ProgressStream.ProgressFrame | src/app/api/analyze/route.ts:341-344 | a frame starts with `data: ` and ends with a blank line, and its JSON holds no line feed |
| ProgressStream.JsonHasNoNewline | src/app/api/analyze/route.ts:341-344 | the progress JSON never contains a line feed, so a frame is one line |
| ProgressStream.Writer.constructor | src/app/api/analyze/route.ts:46-47 | a new writer has received nothing |
| ProgressStream.SendProgress | src/app/api/analyze/route.ts:336-348 | a writer that accepts gets exactly one more frame; a failing write or a missing writer changes nothing |
| ProgressStream.ProgressEvents | src/app/api/analyze/route.ts:208-215 | one progress event per batch |
| ProgressStream.BatchTotalBounds | src/app/api/analyze/route.ts:106 | batch k exists exactly when 5·k is below the URL count |
| ProgressStream.ProgressEventsShape | src/app/api/analyze/route.ts:208-215 | every event carries the total; `current` rises strictly and is min(5·(k+1), n); only the last is `complete`; none is `starting` |
| ProgressStream.NoPagesNoEvents | src/app/api/analyze/route.ts:106-215 | an empty sitemap sends no progress at all |
| ProgressStream.TwelvePages | src/app/api/analyze/route.ts:106-215 | twelve pages give progress 5, 10 and 12 (complete) |
| SitemapExpansion.TextLocs | src/app/api/analyze/route.ts:305-307 | keeps exactly the `loc` values that are strings, at most as many as there are entries |
| SitemapExpansion.ChildLocs | src/app/api/analyze/route.ts:311-313 | keeps exactly the child sitemaps whose `loc` is a string |
| SitemapExpansion.ExtractUrls | src/app/api/analyze/route.ts:278-334 | returns the specified expansion of the sitemap tree and appends exactly its parsing errors |
| SitemapExpansion.ExtractIndex | src/app/api/analyze/route.ts:309-325 | an index yields its children's expansions in order, with their errors in order |
| SitemapExpansion.ExtractBatch | src/app/api/analyze/route.ts:317-323 | one batch of children gives their expansions in order, with their errors |
| SitemapExpansion.ChildLocsExpand | src/app/api/analyze/route.ts:311-325 | expanding the filtered children is expanding the index entries |
| SitemapExpansion.UrlsetTakesPrecedence | src/app/api/analyze/route.ts:303-308 | a document with `urlset.url` gives its string locations, even when it also has an index |
| SitemapExpansion.UnrecognizedDocument | src/app/api/analyze/route.ts:327 | a document that is neither a urlset nor an index gives nothing and logs nothing |
| SitemapExpansion.TextLocsKeepsEveryString | src/app/api/analyze/route.ts:305-307 | every string location is kept as often as it occurs |
| SitemapExpansion.DuplicatesKept | src/app/api/analyze/route.ts:305-308 | a page listed twice is crawled twice |
| SitemapExpansion.IndexFlattensChildren | src/app/api/analyze/route.ts:309-325 | an index gives the concatenation of its children's expansions |
| SitemapExpansion.ChildExpansions | src/app/api/analyze/route.ts:319-322 | one expansion per child, in order |
| SitemapExpansion.ExpandedListFlatten | src/app/api/analyze/route.ts:322-325 | expanding a list of children is flattening their expansions |
| SitemapExpansion.OneErrorPerFailedNode | src/app/api/analyze/route.ts:295-332 | exactly one parsing error per sitemap whose fetch or parse failed |
| SitemapExpansion.OneErrorPerFailedEntry | src/app/api/analyze/route.ts:309-332 | the same count over an index's entries |
| SitemapExpansion.OneChildFails | src/app/api/analyze/route.ts:309-332 | an index with one good and one failing child gives the good child's pages and one error |
| SitemapExpansion.AllTextLocs | src/app/api/analyze/route.ts:305-307 | locations that are all strings are kept as they are |
| Crawl.Outcomes | src/app/api/analyze/route.ts:110-207 | one result per URL, in URL order |
| Crawl.BatchBounds | src/app/api/analyze/route.ts:106-107 | batch b spans min(5b, n) to min(5b+5, n) and is non-empty |
| Crawl.CrawlBatchesAreBatches | src/app/api/analyze/route.ts:106-107 | the crawl's batches are the `slice(i, i + 5)` batches of the URL list |
| Crawl.CrawlCoversUrls | src/app/api/analyze/route.ts:106-107 | the crawl's batches cover every URL once, in order |
| Crawl.Present | src/app/api/analyze/route.ts:207 | dropping the `null` results keeps at most as many as there were |
| Crawl.Frames | src/app/api/analyze/route.ts:211-215 | one frame per progress event |
| Crawl.ProcessRequest | src/app/api/analyze/route.ts:97-235 | returns the specified summary of the expanded sitemap; the sleeps, the accumulator and the frames sent are those of the specified crawl |
| Crawl.CrawlPages | src/app/api/analyze/route.ts:100-235 | the batch loop gives the summary, sleeps, accumulator and frames of the specified crawl of the URL list |
| Crawl.CrawlBatch | src/app/api/analyze/route.ts:106-220 | one batch adds its URLs' results, one progress event and the pause between batches |
| Crawl.Report | src/app/api/analyze/route.ts:211-215 | reporting one event sends its frame and records it |
| Crawl.AnalyzeBatch | src/app/api/analyze/route.ts:110-207 | the pages of one batch give their results in order and the crawl state the specification prescribes |
| CrawlFacts.GivenUp | src/app/api/analyze/route.ts:188-193 | at most one placeholder per URL |
| CrawlFacts.CrawlEvents | src/app/api/analyze/route.ts:208-215 | the progress events of a crawl are exactly one per batch, as `ProgressEvents` describes |
| CrawlFacts.CrawlFloor | src/app/api/analyze/route.ts:171-199 | the delay and every sleep stay at or above `MIN_DELAY` |
| CrawlFacts.CrawlKeeps | src/app/api/analyze/route.ts:97-222 | the page crawl never touches the parsing errors, the XML status or the HTTP status |
| CrawlFacts.CrawlTally | src/app/api/analyze/route.ts:165-193 | one error entry per failed attempt, and one request log per URL that was not given up |
| CrawlFacts.CrawlLogsAccepted | src/app/api/analyze/route.ts:117-168 | every request log the crawl adds records a status below 400 |
| CrawlFacts.SummaryCounts | src/app/api/analyze/route.ts:223-226 | the summary counts every URL, lists each URL's outcome in order, and has at most two issues per URL, none exactly when no page has any |
| CrawlFacts.TotalIssuesBounds | src/app/api/analyze/route.ts:225 | the issue total is at most twice the result count, and zero exactly when no result has issues |
| StreamDecoder.ProgressDisplay.constructor | src/app/page.tsx:24 | the page starts with no progress shown |
| StreamDecoder.DataLine | src/app/page.tsx:69-71 | a `data: ` line is parsed from the character after `data:`, leading space included |
| StreamDecoder.ErrorFor | src/app/page.tsx:39-42 | a non-OK response reports the body's `error` when it is truthy; an object body without one gives the fixed message; the unreadable-body failure comes exactly when the body is missing or null |
| StreamDecoder.DispatchLines | src/app/page.tsx:68-91 | handling the complete lines gives the specified client state and shows the last progress update |
| StreamDecoder.Consume | src/app/page.tsx:50-92 | reading the chunks gives the same state as decoding their concatenation, and the buffer is the text after the last line feed |
| StreamDecoder.Analyze | src/app/page.tsx:28-98 | the outcome, the console log and the progress shown are those the specification gives for the response: pending while the body stays open, and once it is done, the last `complete` payload or 'No results received' |
| StreamDecoder.LinesAppend | src/app/page.tsx:64-66 | joining lines distributes over concatenation |
| StreamDecoder.DecodedLines | src/app/page.tsx:64-66 | text made of whole lines and a tail decodes to those lines, with the tail left in the buffer |
| StreamDecoder.ReceiveAllAppend | src/app/page.tsx:64-91 | handling lines in two reads is handling them in one, so chunk boundaries do not matter |
| StreamDecoder.LastCompleteWins | src/app/page.tsx:79-83 | the result is the one from the last `complete` message |
| StreamDecoder.NoCompleteKeepsResult | src/app/page.tsx:57-61 | without a `complete` message the result does not change |
| StreamDecoder.LastProgressShown | src/app/page.tsx:73-78 | the progress shown is the last progress message |
| StreamDecoder.NoProgressKeepsUpdates | src/app/page.tsx:73-78 | without progress messages the progress shown does not change |
| StreamDecoder.OtherLinesIgnored | src/app/page.tsx:69 | a line not starting with `data: ` has no effect |
| StreamDecoder.CaughtLineOnlyLogged | src/app/page.tsx:84-89 | a bad or `error` line is only logged: progress and result are as if it were absent |
| StreamDecoder.OnlyLogDiffers | src/app/page.tsx:84-89 | clients that differ only in their log stay that way |
| Delivery.FramesOfEvents | src/app/api/analyze/route.ts:341-344 | the route's frames are `data: ` lines of line-feed-free JSON |
| Delivery.FrameEffect | src/app/page.tsx:69-78 | the page turns a progress frame into that progress update |
| Delivery.ProgressObjectFields | src/app/page.tsx:73-78 | the page reads `total`, `current` and `status` back from the progress object |
| Delivery.FramesAreLines | src/app/api/analyze/route.ts:341-344 | the frames form complete lines with a blank line after each |
| Delivery.FrameLinesReceived | src/app/page.tsx:64-91 | receiving those lines yields exactly the updates, with no result and no log |
| Delivery.FramesDecoded | src/app/page.tsx:50-66 | however the frames are split into chunks, the page decodes the same lines |
| Delivery.ProgressEffects | src/app/page.tsx:73-78 | each progress frame gives its view |
| Delivery.ProgressOnlyStream | src/app/page.tsx:57-59 | a stream of progress frames that is then closed ends in `No results received`, with the last progress shown |
| Delivery.CrawlStreamHasNoResults | src/app/api/analyze/route.ts:336-344 | the crawl's stream, which the route never closes, leaves the page pending for ever: it shows n of n pages `complete`, or nothing for an empty sitemap, and no result has been decoded |
| Delivery.FinishedStreamDelivers | src/app/page.tsx:79-83 | progress frames followed by a `complete` frame, with the stream closed after it, resolve the page with its results and debug info |
| Delivery.FinishedLinesReceived | src/app/page.tsx:79-83 | the `complete` line sets the result after the updates |
| Delivery.CompleteEffect | src/app/page.tsx:79-83 | a `complete` frame carries its results and debug info to the page |
| RobotsTxt.StripScheme | src/utils/robotsParser.ts:11 | removes a leading `https://` or `http://`, and nothing otherwise |
| RobotsTxt.StripSlash | src/utils/robotsParser.ts:11 | removes one trailing slash, and nothing otherwise |
| RobotsTxt.SchemesNormaliseAlike | src/utils/sitemapFinder.ts:16-19 | `http://` and `https://` forms of an address normalise alike |
| RobotsTxt.NormalizeOnce | src/utils/sitemapFinder.ts:16-19 | normalising strips one scheme and one trailing slash |
| RobotsTxt.Exec | src/utils/robotsParser.ts:19-23 | the next match of the sitemap pattern lies after `lastIndex` |
| RobotsTxt.NextCapture | src/utils/robotsParser.ts:23-25 | the values are the trimmed capture of the next match followed by the values after it |
| RobotsTxt.CollectSitemaps | src/utils/robotsParser.ts:19-25 | the `exec` loop collects exactly the specified sitemap values |
| RobotsTxt.FindSitemapsInRobotsTxt | src/utils/robotsParser.ts:8-36 | a fetched robots.txt gives its sitemap values and no error; a failed fetch gives none and the error text |
| RobotsTxt.ValuesByLine | src/utils/robotsParser.ts:19-25 | when no `Sitemap:` field is blank, the pattern's values are exactly the trimmed values of the `Sitemap:` lines |
| RobotsTxt.BlankFieldTakesNextLine | src/utils/robotsParser.ts:19 | a blank `Sitemap:` field takes the next line as its value, although no line names it |
| RobotsTxt.BlankFieldCapture | src/utils/robotsParser.ts:19 | a blank field followed by a line gives exactly that line, trimmed, as the value |
| RobotsTxt.BlankFieldLines | src/utils/robotsParser.ts:19 | the same text has no `Sitemap:` line with a value |
| RobotsTxt.BlankFieldAtEndGivesEmpty | src/utils/robotsParser.ts:19-24 | a blank field at the end gives an empty value |
| SitemapFinder.FirstsKeepKeys | src/utils/sitemapFinder.ts:42-49 | de-duplication keeps every normalised address seen |
| SitemapFinder.FirstsDistinct | src/utils/sitemapFinder.ts:42-49 | no two kept values normalise alike |
| SitemapFinder.FirstsFromValues | src/utils/sitemapFinder.ts:42-49 | every kept value comes from robots.txt |
| SitemapFinder.FirstKept | src/utils/sitemapFinder.ts:42-49 | the first value for each normalised address is kept |
| SitemapFinder.FirstsOfDistinct | src/utils/sitemapFinder.ts:42-49 | values that are already distinct are kept as they are |
| SitemapFinder.FirstsIdempotent | src/utils/sitemapFinder.ts:42-49 | de-duplicating twice is de-duplicating once |
| SitemapFinder.ReadRobotsSitemaps | src/utils/sitemapFinder.ts:37-49 | the loop keeps the first value per normalised address, and `seenUrls` holds every normalised address |
| SitemapFinder.ReportsBound | src/utils/sitemapFinder.ts:54-82 | at most one report per common path |
| SitemapFinder.LocationsInOrder | src/utils/sitemapFinder.ts:54-82 | the reports follow the order of the common paths |
| SitemapFinder.LocationsUnseen | src/utils/sitemapFinder.ts:58-61 | no report is for an address already seen |
| SitemapFinder.LocationsComplete | src/utils/sitemapFinder.ts:54-82 | every unseen path whose probe gives a report is reported |
| SitemapFinder.PathUrlsApart | src/utils/sitemapFinder.ts:54-56 | the probed addresses normalise to distinct values |
| SitemapFinder.CommonPathsWellFormed | src/utils/sitemapFinder.ts:9-14 | the four common paths are distinct and end without a slash |
| SitemapFinder.ReportExactly | src/utils/sitemapFinder.ts:62-81 | a probe is reported missing exactly when `axios.head` rejects it (a failure, or a status outside 2xx such as 404), present exactly on status 200, and not at all on another 2xx status |
| SitemapFinder.NotFoundReportedMissing | src/utils/sitemapFinder.ts:62-81 | a 404 answer is reported missing, exactly as a failed request is |
| SitemapFinder.CommonLocationsFacts | src/utils/sitemapFinder.ts:51-82 | at most four reports, in path order, none for an address from robots.txt, and every unseen path that exists or whose probe is rejected reported |
| SitemapFinder.ProbeCommonPaths | src/utils/sitemapFinder.ts:51-82 | the probe loop gives exactly the specified reports |
| SitemapFinder.FindSitemaps | src/utils/sitemapFinder.ts:21-96 | a fetched robots.txt gives its de-duplicated values and the probe reports; a failed fetch gives empty lists and the error text |
| ScanStatistics.IndexOfType | src/utils/domainGrouping.ts:97 | finds the entry of an issue when there is one, and says none has it otherwise |
| ScanStatistics.HistogramCounts | src/utils/domainGrouping.ts:94-98 | the histogram has one entry per distinct issue, in first-seen order, counting its occurrences |
| ScanStatistics.CountIssues | src/utils/domainGrouping.ts:94-98 | the counting loop builds a dictionary whose entries are the histogram |
| ScanStatistics.CountIssue | src/utils/domainGrouping.ts:96-97 | counting one issue adds one to its entry or appends it |
| ScanStatistics.FirstMax | src/utils/domainGrouping.ts:101-102 | the first entry with the largest count |
| ScanStatistics.TopIsFirstMaximal | src/utils/domainGrouping.ts:101-102 | the stable descending sort puts the first maximal entry first |
| ScanStatistics.StableTop | src/utils/domainGrouping.ts:101-102 | the sorted histogram's top is the first entry with the top count |
| ScanStatistics.MostCommonIssueIs | src/utils/domainGrouping.ts:100-102 | the most common issue is the first with the largest count, or `None` when there is none or it is empty |
| ScanStatistics.PassCount | src/utils/domainGrouping.ts:90 | no more passing results than results |
| ScanStatistics.CalculateScanStats | src/utils/domainGrouping.ts:88-135 | the method computes the specified statistics |
| ScanStatistics.ScanStatsCounts | src/utils/domainGrouping.ts:88-134 | both URL counts are the result count, the issue types count every issue, and no issue gives `None` |
| ScanStatistics.DetectScanFrequency | src/utils/domainGrouping.ts:154-171 | the method computes the specified frequency |
| ScanStatistics.FrequencyOfSpan | src/utils/domainGrouping.ts:157-170 | the frequency depends only on the newest-to-oldest span divided by the number of gaps |
| ScanStatistics.ClassifyMonotone | src/utils/domainGrouping.ts:167-170 | a longer span never gives a more frequent class |
| ScanStatistics.WithinAnHourIsHourly | src/utils/domainGrouping.ts:164-167 | two or more scans within one hour are `hourly` |
| DomainGrouping.ExtractDomain | src/utils/domainGrouping.ts:76-83 | the host name when the URL parses, the text itself otherwise |
| DomainGrouping.ItemsOf | src/utils/domainGrouping.ts:180-185 | a domain's items all come from the input and have that domain |
| DomainGrouping.GroupByDomain | src/utils/domainGrouping.ts:178-185 | the map has exactly the domains in first-appearance order, each with its items in input order |
| DomainGrouping.NoItemsOutside | src/utils/domainGrouping.ts:180-185 | a domain not in the map has no items |
| DomainGrouping.DomainsHaveItems | src/utils/domainGrouping.ts:180-185 | every domain in the map has at least one item |
| DomainGrouping.InOwnGroup | src/utils/domainGrouping.ts:180-185 | every item is in the group of its own domain |
| DomainGrouping.DomainsDistinct | src/utils/domainGrouping.ts:178-185 | no domain appears twice |
| DomainGrouping.EveryItemGrouped | src/utils/domainGrouping.ts:178-185 | the group sizes add up to the number of items |
| DomainGrouping.ParseAll | src/utils/domainGrouping.ts:195 | either every stored result parses, in order, or the error names the first that does not |
| DomainGrouping.Reverse | src/utils/domainGrouping.ts:199-201 | reversing keeps the length |
| DomainGrouping.ScansOf | src/utils/domainGrouping.ts:195 | one scan per result |
| DomainGrouping.MapAll | src/utils/domainGrouping.ts:188 | a successful map has one value per entry |
| DomainGrouping.MapAllAt | src/utils/domainGrouping.ts:188 | each value of a successful map is the entry's own value |
| DomainGrouping.Numbered | src/utils/domainGrouping.ts:188 | one numbered entry per domain |
| DomainGrouping.GroupHistoryByDomain | src/utils/domainGrouping.ts:176-256 | the method computes the specified groups, or the specified error |
| DomainGrouping.ProcessedScanCounts | src/utils/domainGrouping.ts:140-148 | a processed scan counts one URL, its issue types count its issues, and it has no types exactly when it has no issues |
| DomainGrouping.TotalUrlsOfScans | src/utils/domainGrouping.ts:205 | a group's URL total is its number of scans |
| DomainGrouping.GroupOfScans | src/utils/domainGrouping.ts:237-241 | a group names its domain, counts its scans, and its latest scan is its first |
| DomainGrouping.TrendsAt | src/utils/domainGrouping.ts:198-202 | the trend arrays list the scans' dates, URL counts and issue totals oldest first |
| DomainGrouping.TrendsOfResults | src/utils/domainGrouping.ts:198-202 | the trend arrays, oldest first, hold each result's processing-time date, one URL and its issue count |
| DomainGrouping.ScanAt | src/utils/domainGrouping.ts:140-148 | scan i reads clock readings 2i and 2i+1 and counts its own issues |
| DomainGrouping.GroupOfTrends | src/utils/domainGrouping.ts:198-202 | the trends run oldest first, one URL per scan, each with its result's issues |
| DomainGrouping.GroupOfMostCommon | src/utils/domainGrouping.ts:211-212 | the group's most common issue is the first of the largest count among all scans' issue types |
| DomainGrouping.GroupOfFails | src/utils/domainGrouping.ts:211-212 | building a group fails, with `NoIssueTypes`, exactly when none of its scans has an issue |
| DomainGrouping.NoIssueTypesExactly | src/utils/domainGrouping.ts:211-212 | the issue types are empty exactly when no result has an issue |
| DomainGrouping.SortedItems | src/utils/domainGrouping.ts:190-192 | a domain's items are sorted newest first and are a permutation of them |
| DomainGrouping.BuildGroupParses | src/utils/domainGrouping.ts:190-195 | a built group is the group of the parsed results in newest-first order |
| DomainGrouping.NoIssuesNoGroup | src/utils/domainGrouping.ts:195-212 | a domain fails with `NoIssueTypes` exactly when all its results parse and none has an issue |
| DomainGrouping.BuiltGroupFacts | src/utils/domainGrouping.ts:237-241 | a built group has its domain, one scan per item, and its latest scan dated by its first clock reading |
| DomainGrouping.BuiltGroupsShape | src/utils/domainGrouping.ts:188-254 | one group per domain, in first-appearance order, sized by its items, and the sizes add up to all items |
| DomainGrouping.GroupedHistoryOrder | src/utils/domainGrouping.ts:255 | the groups come newest latest scan first, as a stable permutation of the built groups |
| DomainGrouping.StoppedClockKeepsFirstAppearance | src/utils/domainGrouping.ts:255 | when every clock reading is equal the final sort keeps first-appearance order |
| DomainGrouping.QuickProcessingIsHourly | src/utils/domainGrouping.ts:140-148 | when processing takes under an hour, any group of two or more scans is `hourly`, whatever its search dates |
| DomainGrouping.ScansWithin | src/utils/domainGrouping.ts:147 | every scan's timestamp is a clock reading |
| DomainGrouping.ScansOn | src/utils/domainGrouping.ts:140-148 | scans stamped with their search dates instead |
| DomainGrouping.SearchFrequencyOfSpan | src/utils/domainGrouping.ts:154-171 | the frequency by search dates depends on their span divided by the gaps |
| DomainGrouping.DailySearches | src/utils/domainGrouping.ts:154-171 | three searches a day apart are `daily` by search date but `hourly` as computed |
| Csv.EscapeQuotes | src/utils/export.ts:28 | doubling quotes never shortens a text and leaves a text without quotes as it is |
| Csv.ReadEscaped | src/utils/export.ts:28 | reading a quoted, escaped cell gives back the text and the rest of the input |
| Csv.ReadDocument | src/utils/export.ts:26-29 | reading a document of readable rows gives back every row's texts |
| Csv.BareCells | src/utils/export.ts:17 | plain cells read as their texts |
| Csv.WrappedQuoteUnreadable | src/utils/scanExport.ts:30 | a wrapped cell with a lone quote inside makes the record unreadable |
| Csv.UnreadableLine | src/utils/scanExport.ts:40 | one unreadable line makes the whole document unreadable |
| HistoryExport.Fields | src/utils/export.ts:18-24 | five fields per item, one per heading |
| HistoryExport.Line | src/utils/export.ts:28 | the quoted cells hold exactly the item's fields |
| HistoryExport.Lines | src/utils/export.ts:26-29 | the heading line plus one line per item |
| HistoryExport.ExportToCsv | src/utils/export.ts:16-30 | no items give only the heading line |
| HistoryExport.ExportToCsvReadsBack | src/utils/export.ts:16-30 | a CSV reader gets back the headings and each item's five fields, whatever quotes, commas or line feeds they hold |
| HistoryExport.HeadingsReadable | src/utils/export.ts:17 | the unquoted headings read back as themselves |
| HistoryExport.PlainHeading | src/utils/export.ts:17 | no heading holds a quote, comma or line feed |
| HistoryExport.ExportedCountsReadBack | src/utils/export.ts:22-23 | the two count columns parse back to the counts |
| HistoryExport.BadgeTellsStatus | src/utils/export.ts:86-95 | two badges look alike exactly when both statuses are `complete`, both `failed`, or both something else |
| HistoryExport.ShowRow | src/utils/export.ts:37-104 | a row shows its status badge and one detail view per detail |
| HistoryExport.ExportToHtml | src/utils/export.ts:36-105 | one row per item; details shown exactly when present and non-empty, one per page with its URL |
| HistoryExport.ShowDetailFaithful | src/utils/export.ts:44-67 | two details look alike exactly when a reader cannot tell their fields apart |
| ScanResults.Count | src/utils/scanExport.ts:54-60 | a filter count is at most the number of results |
| ScanResults.Summarize | src/utils/scanExport.ts:52-61 | total is the result count; each partial count ≤ issues ≤ total and ≤ their sum; no issues exactly when no URL fails |
| ScanResults.CountBelowAny | src/utils/scanExport.ts:54-60 | no single check counts more URLs than the issue count |
| ScanResults.CountAnyBelowSum | src/utils/scanExport.ts:54-60 | the issue count is at most the sum of the four checks |
| ScanResults.CountZero | src/utils/scanExport.ts:54-56 | a count is zero exactly when no URL fails the check |
| ScanResults.CountAppend | src/utils/scanExport.ts:54-60 | counts add up over concatenation |
| ScanResults.OrElse | src/utils/reportGenerator.ts:141 | `value \|\| fallback`: the value when truthy, the fallback otherwise |
| ScanResults.ShowField | src/utils/reportGenerator.ts:138-142 | a field is shown red exactly when falsy, and then as `Missing` |
| ScanResults.ShowFieldFaithful | src/utils/export.ts:48-59 | two fields look alike exactly when both are falsy or both have the same text |
| ScanExport.ScanFields | src/utils/scanExport.ts:29-38 | eight fields per result, one per heading |
| ScanExport.ScanFieldsMeaning | src/utils/scanExport.ts:29-38 | each column means what its heading says: truthy numbers parse back, falsy ones are empty, Yes exactly when present, and the link count parses back and is positive exactly when there are broken links |
| ScanExport.ScanLine | src/utils/scanExport.ts:29-38 | the cells hold exactly the result's fields |
| ScanExport.ScanLineEscaped | src/utils/scanExport.ts:29-38 | the escaped cells hold the same fields |
| ScanExport.ScanHeadingsReadable | src/utils/scanExport.ts:18-27 | the headings read back as themselves |
| ScanExport.ScanLineReadable | src/utils/scanExport.ts:29-38 | a result without quotes in its URL or links gives a readable line |
| ScanExport.ScanLineEscapedReadable | src/utils/scanExport.ts:29-38 | with quotes escaped every result gives a readable line |
| ScanExport.ScanCsvReadsBack | src/utils/scanExport.ts:11-41 | when no URL or link has a quote, a CSV reader gets back the headings and every result's fields |
| ScanExport.ScanCsvEscapedReadsBack | src/utils/scanExport.ts:11-41 | with quotes escaped, every scan reads back, whatever it holds |
| ScanExport.QuotedUrlBreaksScanCsv | src/utils/scanExport.ts:30 | a URL with an unescaped quote makes the CSV unreadable |
| ScanExport.ScanCsvUnreadableExample | src/utils/scanExport.ts:30 | the URL `a"b` makes the CSV unreadable |
| ScanExport.TextArray | src/utils/scanExport.ts:71 | one JSON string per text |
| ScanExport.TextsOfArray | src/utils/scanExport.ts:71 | reading the strings back gives the texts |
| ScanExport.AnalysisJsonReadsBack | src/utils/scanExport.ts:71 | reading a result's JSON back gives the result |
| ScanExport.ReadMembersLast | src/utils/scanExport.ts:54-60 | reading a page's members in order leaves each summary field holding the value property access finds: the last one given under its key |
| ScanExport.PageFieldsAsRead | src/utils/scanExport.ts:54-60 | on a page that reads as a typed record, each truthiness test of the summary says what it says of that record |
| ScanExport.PageFailsAsRead | src/utils/scanExport.ts:54-60 | each summary filter on such a page agrees with the same filter on its record |
| ScanExport.PageCount | src/utils/scanExport.ts:54-60 | a filter count never exceeds the number of pages |
| ScanExport.PageCountAsRead | src/utils/scanExport.ts:54-60 | on pages that read as records, each filter count is the count over the records |
| ScanExport.PageSummaryAsRead | src/utils/scanExport.ts:52-61 | pages that read as records give exactly the summary of those records, with its bounds |
| ScanExport.GenerateScanJson | src/utils/scanExport.ts:43-75 | the export fails exactly when the sitemap URL does not parse or a page is `null` |
| ScanExport.ExportMembers | src/utils/scanExport.ts:63-72 | the export object gives back its `summary` and `results` members |
| ScanExport.ExportEchoesPages | src/utils/scanExport.ts:52-72 | the export's `results` are the parsed pages unchanged, every member and its order kept, and its `summary` is theirs |
| ScanExport.ScanJsonReadsBack | src/utils/scanExport.ts:43-75 | pages that read as records come out unchanged, read back as those records, beside the summary of those records |
| ScanExport.ResultsReadBack | src/utils/scanExport.ts:71 | pages stored field by field read back as their records |
| ReportGenerator.ShowStatus | src/utils/reportGenerator.ts:120-128 | a badge exactly for a truthy code, green exactly for 2xx, and its text gives the code back |
| ReportGenerator.ShowLoadTime | src/utils/reportGenerator.ts:129-133 | a load-time badge exactly for a truthy load time |
| ReportGenerator.GenerateScanReport | src/utils/reportGenerator.ts:11-27 | the report fails exactly when the sitemap URL does not parse; otherwise it names the host and has one view per page |
| ReportGenerator.CountShown | src/utils/reportGenerator.ts:113-167 | at most one count per page view |
| ReportGenerator.ShowPageFaithful | src/utils/reportGenerator.ts:138-167 | a page view shows a check in red exactly when the page fails it |
| ReportGenerator.CountShownPages | src/utils/reportGenerator.ts:113-167 | the views showing a check in red are as many as the pages failing it |
| ReportGenerator.SummaryCardsMatchPages | src/utils/reportGenerator.ts:20-27 | every summary card equals the number of detailed results shown in red for it |
| Serialization.Stringify | src/lib/serialization.ts:11-24 | what is stored has no number left and mirrors the data, numbers becoming text that reads back as them |
| Serialization.StringifyKeepsPlain | src/lib/serialization.ts:11-24 | data without numbers is stored as it is |
| Serialization.StringifyIdempotent | src/lib/serialization.ts:11-24 | serializing stored data again changes nothing |
| Serialization.DeserializeFromPrisma | src/lib/serialization.ts:26-29 | null exactly for missing or empty text; otherwise the parsed value, or the parse failure |
| Serialization.PrismaRoundTrip | src/lib/serialization.ts:11-29 | reading back what was stored gives the data with its numbers as text |
| Serialization.StringOf | src/lib/serialization.ts:35 | `String(x)` keeps a string and turns a number into text that reads back as it |
| Serialization.SerializeDebugInfo | src/lib/serialization.ts:31-52 | lists and status kept, every numeric field as its text, request logs in order, stack trace dropped |
| Serialization.SerializeDebugInfoIdempotent | src/lib/serialization.ts:31-52 | serializing serialized debug info again changes nothing |
| Serialization.FailureRecordAgreesWithSummary | src/app/api/analyze/route.ts:226-235 | the debug info stored on failure and in the crawl summary agree on every field the accumulator keeps |
| Serialization.SerializeAnalysisResult | src/lib/serialization.ts:54-66 | page, verdict, issues and metadata kept; the technical figures as text; debug info serialized exactly when present |
| Serialization.SerializeAnalysisResultIdempotent | src/lib/serialization.ts:54-66 | serializing a serialized result again changes nothing |
| Serialization.AnalyzedPageUnchanged | src/lib/serialization.ts:60-63 | a crawled page's technical figures, already text, are stored as they are |

## Left out

- The network, the XML parser and the HTML parser are inputs. A sitemap is a finished tree of parse outcomes. A page is a script of three attempt outcomes. `axios` options such as timeouts and redirects are not modelled.
- `JSON.parse` and `JSON.stringify` text, `new URL(...).hostname`, `toISOString` and `toLocaleString` are parameters or given strings. JSON numbers are integers.
- ScanExport.GenerateScanJson: the stored `results` are taken as an already parsed array of pages. Text that parses to anything but an array, which makes the source throw at `.filter`, is not modelled.
- ScanExport.LengthPositive: an object-valued `brokenLinks` whose `length` member is a string, an array or an object, which JavaScript converts to a number before comparing it with 0, counts as having no broken links.
- `Promise.all`: the pages of a batch, and the children of a sitemap index, run one after another in list order. Effects of one page on the shared delay and the accumulator therefore come in URL order.
- Sleeps are recorded as the list of delays, not waited for.
- The clock is a parameter. In `groupHistoryByDomain` the readings are numbered in processing order.
- Floating-point statistics are not modelled: `successRate`, `healthScore`, `responseTimeAvg`, `percentage`, `lastScanDuration` and the trend indicators in `domainGrouping.ts`. The same holds for `processingTime` and `memoryUsage`, which come from the runtime.
- DomainGrouping.GroupHistoryByDomain: reading `technicalSpecs.loadSpeed` on a result without `technicalSpecs` (src/utils/domainGrouping.ts:105) throws. The model reports that throw through the result parser, as an `UnparsableResults` error.
- PageRetry.AnalyzedFrom: the analyzed result carries no per-result `debugInfo` snapshot (src/app/api/analyze/route.ts:153-161). That snapshot copies the accumulator's current lists and the clock's processing time. It is not read by any modelled code.
- SitemapExpansion.ExtractUrls: a sitemap is a finite tree. The source keeps no visited set and no depth limit (src/app/api/analyze/route.ts:309-321), so an index that lists itself, or any cycle of indexes, makes it fetch without end. The model does not cover such input.
- StreamDecoder.Analyze: on a body that stays open, the source's read loop never returns. The method stops at the state the page holds while it waits, and reports the mutation as pending.
- Crawl.ProcessRequest: the database updates after the crawl and on failure are not modelled (src/app/api/analyze/route.ts:238-274). The same holds for the POST handler's request parsing and database writes (src/app/api/analyze/route.ts:21-95). Their records are the serializer inputs modelled in `Serialization`.
- Serialization.SerializeForPrisma: the `bigint` and `Error` cases of the replacer are not modelled. JSON values here hold neither.
- Serialization.SerializeDebugInfo: `String` of an array element is the element itself, because every list holds strings.
- The browser-side stream decoding treats chunks as already-decoded text. `TextDecoder` splitting a multi-byte character across chunks is not modelled.
- `exportToJSON` (src/utils/export.ts:32-34) is `JSON.stringify` of its input and has no logic of its own. `downloadFile` (src/utils/export.ts:151-161) is browser I/O.
- The HTML text of the history table and the report (markup, classes, the `Generated on` line) is not modelled. The models are the views the markup shows: badges, colours, fields, lists and counts.
- `calculateScanStats` keeps `scanFrequency: 'daily'` and the `stable` trend indicators as constants. Only the counting fields are modelled.

## Findings

| source | as written | input that shows it | evidently intended | confidence | as-written member | corrected member |
|---|---|---|---|---|---|---|
| src/utils/robotsParser.ts:19 | `\s*` in `/^Sitemap:\s*(.+)$/gm` also matches a line break, so a blank `Sitemap:` field takes the next line as its value | `Sitemap:\nUser-agent: *` gives the value `User-agent: *` | only the `Sitemap:` lines give values (the same pattern is at src/utils/sitemapFinder.ts:37) | medium, not executed | RobotsTxt.BlankFieldTakesNextLine | RobotsTxt.ValuesByLine |
| src/utils/domainGrouping.ts:144-147 | each scan's `timestamp` is `Date.now()` at processing time, so `detectScanFrequency` measures how fast the history was processed | three searches one day apart, processed within an hour, give `hourly` | the frequency of the searches, from their search dates | medium, not executed | DomainGrouping.DailySearches | DomainGrouping.SearchFrequencyOfSpan |
| src/app/api/analyze/route.ts:336-344 | the route writes only `progress` frames, never a `complete` frame with the results, and never closes its writer | any sitemap: `reader.read()` (src/app/page.tsx:55) never reports `done`, so the page stays pending for ever, showing the last progress and no result | a final `complete` frame carrying the results and the debug info, then the writer closed; the page needs both (src/app/page.tsx:57-61, 79-83) | high, not executed | Delivery.CrawlStreamHasNoResults | Delivery.FinishedStreamDelivers |
| src/utils/scanExport.ts:30 | the URL cell is wrapped in quotes without doubling the quotes inside it (likewise the broken-links cell at line 37) | a result whose URL is `a"b` gives a CSV that no RFC 4180 reader accepts | quotes doubled, as `exportToCSV` does at src/utils/export.ts:28 | high, not executed | ScanExport.QuotedUrlBreaksScanCsv | ScanExport.ScanCsvEscapedReadsBack |
