/** What the page makes of the stream the analyze route writes. The route
    sends one `progress` frame per batch and nothing else, and it never closes
    its writer. So the page shows the last event and then waits for ever on a
    `read()` that never resolves, and no result is ever decoded. A route that
    wrote a final `complete` frame and then closed the stream would hand the
    page its results. */
module Delivery {
  import opened Wrappers
  import opened Text
  import opened Batching
  import opened JsonValues
  import opened ProgressStream
  import opened Crawl
  import opened SitemapExpansion
  import opened StreamDecoder
  import opened Debug
  import CrawlFacts

  /** The object `JSON.parse` makes of a progress frame's payload. */
  function ProgressObject(p: Progress): Json {
    JObj([Member("type", JStr("progress")), Member("total", JNum(p.total)),
          Member("current", JNum(p.current)), Member("status", JStr(StageName(p.status)))])
  }

  /** The value `setProgress` receives for `p`. */
  function ViewOf(p: Progress): ProgressView {
    ProgressView(Some(JNum(p.total)), Some(JNum(p.current)), Some(JStr(StageName(p.status))))
  }

  function Views(events: seq<Progress>): (views: seq<ProgressView>)
    ensures |views| == |events|
  {
    seq(|events|, k requires 0 <= k < |events| => ViewOf(events[k]))
  }

  /** `JSON.parse` reads back what `JSON.stringify` wrote for these events. */
  predicate ParsesProgress(events: seq<Progress>, parse: Parser) {
    forall k :: 0 <= k < |events| ==> parse(" " + ProgressJson(events[k])) == Some(ProgressObject(events[k]))
  }

  /** `data: <json>` and an empty line: one frame. */
  function DataFrame(json: string): string {
    "data: " + json + "\n\n"
  }

  function DataFrames(jsons: seq<string>): (frames: seq<string>)
    ensures |frames| == |jsons|
  {
    seq(|jsons|, k requires 0 <= k < |jsons| => DataFrame(jsons[k]))
  }

  /** The lines of the frames: a `data: ` line and an empty line per payload. */
  function DataLines(jsons: seq<string>): seq<string>
    decreases |jsons|
  {
    if |jsons| == 0 then []
    else DataLines(jsons[..|jsons| - 1]) + ["data: " + jsons[|jsons| - 1], ""]
  }

  /** The payloads the route's frames carry. */
  function Payloads(events: seq<Progress>): (jsons: seq<string>)
    ensures |jsons| == |events|
  {
    seq(|events|, k requires 0 <= k < |events| => ProgressJson(events[k]))
  }

  lemma TwoLines(a: string)
    ensures Lines([a, ""]) == a + "\n\n"
  {
    assert [a, ""][1..] == [""];
    assert [""][1..] == [];
  }

  lemma FramesOfEvents(events: seq<Progress>)
    ensures Frames(events) == DataFrames(Payloads(events))
    ensures forall k :: 0 <= k < |events| ==> '\n' !in Payloads(events)[k]
  {
    forall k | 0 <= k < |events|
      ensures Frames(events)[k] == DataFrames(Payloads(events))[k]
      ensures '\n' !in Payloads(events)[k]
    {
      JsonHasNoNewline(events[k]);
    }
  }

  /** The data line of a frame sets progress to the event's values. */
  lemma FrameEffect(p: Progress, parse: Parser)
    requires parse(" " + ProgressJson(p)) == Some(ProgressObject(p))
    ensures Effect("data: " + ProgressJson(p), parse) == Update(ViewOf(p))
  {
    DataLine(ProgressJson(p), ProgressObject(p), parse);
    ProgressObjectFields(p);
  }

  lemma ProgressObjectFields(p: Progress)
    ensures DataEffect(ProgressObject(p)) == Update(ViewOf(p))
  {
    var o := ProgressObject(p);
    var m := o.members;
    assert m[..3][..2] == m[..2] && m[..2][..1] == m[..1];
    assert Get(o, "type") == Some(JStr("progress")) by {
      assert Lookup(m[..1], "type") == Some(JStr("progress"));
      assert Lookup(m[..2], "type") == Lookup(m[..1], "type");
      assert Lookup(m[..3], "type") == Lookup(m[..2], "type");
    }
    assert Get(o, "total") == Some(JNum(p.total)) by {
      assert Lookup(m[..2], "total") == Some(JNum(p.total));
      assert Lookup(m[..3], "total") == Lookup(m[..2], "total");
    }
    assert Get(o, "current") == Some(JNum(p.current)) by {
      assert Lookup(m[..3], "current") == Some(JNum(p.current));
    }
  }

  /** The concatenated frames are their lines, each with its line feed. */
  lemma {:induction false} FramesAreLines(jsons: seq<string>)
    requires forall k :: 0 <= k < |jsons| ==> '\n' !in jsons[k]
    ensures Flatten(DataFrames(jsons)) == Lines(DataLines(jsons))
    ensures NoLineFeeds(DataLines(jsons))
    decreases |jsons|
  {
    if |jsons| > 0 {
      var n := |jsons|;
      var init := jsons[..n - 1];
      var data := "data: " + jsons[n - 1];
      FramesAreLines(init);
      assert DataFrames(jsons) == DataFrames(init) + [DataFrame(jsons[n - 1])];
      FlattenAppend(DataFrames(init), [DataFrame(jsons[n - 1])]);
      assert Flatten([DataFrame(jsons[n - 1])]) == DataFrame(jsons[n - 1]) + Flatten([]);
      LinesAppend(DataLines(init), [data, ""]);
      TwoLines(data);
      assert '\n' !in data by {
        assert forall i :: 6 <= i < |data| ==> data[i] == jsons[n - 1][i - 6];
      }
    }
  }

  /** Dispatching the lines calls `setProgress` once per frame, with the
      values its payload gives, and neither sets a result nor logs anything. */
  lemma {:induction false} FrameLinesReceived(jsons: seq<string>, views: seq<ProgressView>, parse: Parser)
    requires |views| == |jsons|
    requires forall k :: 0 <= k < |jsons| ==> Effect("data: " + jsons[k], parse) == Update(views[k])
    ensures ReceiveAll(Fresh, DataLines(jsons), parse) == Client(views, None, [])
    decreases |jsons|
  {
    if |jsons| > 0 {
      var n := |jsons|;
      var init := jsons[..n - 1];
      var data := "data: " + jsons[n - 1];
      assert forall k :: 0 <= k < n - 1 ==> init[k] == jsons[k];
      FrameLinesReceived(init, views[..n - 1], parse);
      ReceiveAllAppend(Fresh, DataLines(init), [data, ""], parse);
      FrameStep(ReceiveAll(Fresh, DataLines(init), parse), data, views[n - 1], parse);
      PrefixSnoc(views, n);
      SliceAll(views);
    }
  }

  /** The text of the frames, however chunked, is decoded into those lines
      with nothing pending. */
  lemma FramesDecoded(jsons: seq<string>, chunks: seq<string>, parse: Parser)
    requires forall k :: 0 <= k < |jsons| ==> '\n' !in jsons[k]
    requires Flatten(chunks) == Flatten(DataFrames(jsons))
    ensures Decoded(Flatten(chunks), parse) == ReceiveAll(Fresh, DataLines(jsons), parse)
  {
    FramesAreLines(jsons);
    DecodedLines(DataLines(jsons), "");
    assert Lines(DataLines(jsons)) + "" == Lines(DataLines(jsons));
  }

  /** Each progress payload decodes to its event's view. */
  lemma ProgressEffects(events: seq<Progress>, parse: Parser)
    requires ParsesProgress(events, parse)
    ensures forall k :: 0 <= k < |events| ==> Effect("data: " + Payloads(events)[k], parse) == Update(Views(events)[k])
  {
    forall k | 0 <= k < |events|
      ensures Effect("data: " + Payloads(events)[k], parse) == Update(Views(events)[k])
    {
      FrameEffect(events[k], parse);
    }
  }

  /** However the frames of `events` arrive chunked, a stream closed after
      them leaves the page showing the last event and rejecting with 'No
      results received'. */
  lemma ProgressOnlyStream(events: seq<Progress>, chunks: seq<string>, parse: Parser)
    requires Flatten(chunks) == Flatten(Frames(events))
    requires ParsesProgress(events, parse)
    ensures Analysis(Ok(Some(Body(chunks, Closed))), parse) == Run(Settled(Failure(NoResults)), [], Shown(Views(events)))
  {
    var jsons := Payloads(events);
    FramesOfEvents(events);
    FramesDecoded(jsons, chunks, parse);
    ProgressEffects(events, parse);
    FrameLinesReceived(jsons, Views(events), parse);
  }

  /** The stream of a whole crawl of `root`, which the route leaves open
      after its last frame: the mutation never settles. It shows `n` of `n`
      pages `complete` when the sitemap gave `n > 0` pages and nothing for an
      empty sitemap, and no result has been decoded, so closing the stream
      alone would only turn the wait into 'No results received'. */
  lemma CrawlStreamHasNoResults(root: Sitemap, net: Network, info0: DebugInfo, chunks: seq<string>, parse: Parser)
    requires Flatten(chunks) == Flatten(Frames(CrawlOf(root, net, info0).events))
    requires ParsesProgress(CrawlOf(root, net, info0).events, parse)
    ensures Analysis(Ok(Some(Body(chunks, Open))), parse).outcome == Pending
    ensures Decoded(Flatten(chunks), parse).result.None?
    ensures var n := |Expanded(root)|;
      Analysis(Ok(Some(Body(chunks, Open))), parse).progress
      == if n == 0 then None else Some(ProgressView(Some(JNum(n)), Some(JNum(n)), Some(JStr("complete"))))
  {
    var n := |Expanded(root)|;
    var events := CrawlOf(root, net, info0).events;
    CrawlFacts.CrawlEvents(Expanded(root), net, Expanding(info0, root));
    assert events == ProgressEvents(n);
    ProgressOnlyStream(events, chunks, parse);
    if n > 0 {
      ProgressEventsShape(n);
      BatchTotalBounds(n, 0);
      var last := events[|events| - 1];
      assert last.status == Complete;
      assert last.current == n by {
        BatchTotalBounds(n, |events| - 1);
      }
    }
  }

  /** The object a `complete` frame's payload parses to. */
  function CompleteObject(results: Json, debugInfo: Json): Json {
    JObj([Member("type", JStr("complete")), Member("results", results), Member("debugInfo", debugInfo)])
  }

  /** The progress frames followed by a final `complete` frame. */
  function FinishedFrames(events: seq<Progress>, json: string): seq<string> {
    Frames(events) + [DataFrame(json)]
  }

  /** With a final `complete` frame, and the stream closed after it, the page
      resolves with its results and debug information, showing the last
      progress event. */
  lemma FinishedStreamDelivers(events: seq<Progress>, json: string, results: Json, debugInfo: Json,
                               chunks: seq<string>, parse: Parser)
    requires '\n' !in json
    requires ParsesProgress(events, parse)
    requires parse(" " + json) == Some(CompleteObject(results, debugInfo))
    requires Flatten(chunks) == Flatten(FinishedFrames(events, json))
    ensures Analysis(Ok(Some(Body(chunks, Closed))), parse)
            == Run(Settled(Success(ApiResponse(Some(results), Some(debugInfo)))), [], Shown(Views(events)))
  {
    var jsons := Payloads(events);
    FinishedFramesAreData(events, json);
    FramesDecoded(jsons + [json], chunks, parse);
    ProgressEffects(events, parse);
    CompleteEffect(json, results, debugInfo, parse);
    FinishedLinesReceived(jsons, json, Views(events), parse);
  }

  lemma FinishedFramesAreData(events: seq<Progress>, json: string)
    requires '\n' !in json
    ensures FinishedFrames(events, json) == DataFrames(Payloads(events) + [json])
    ensures forall k :: 0 <= k < |events| + 1 ==> '\n' !in (Payloads(events) + [json])[k]
  {
    FramesOfEvents(events);
    assert DataFrames(Payloads(events) + [json]) == DataFrames(Payloads(events)) + [DataFrame(json)];
  }

  lemma FinishedLinesReceived(jsons: seq<string>, json: string, views: seq<ProgressView>, parse: Parser)
    requires |views| == |jsons|
    requires forall k :: 0 <= k < |jsons| ==> Effect("data: " + jsons[k], parse) == Update(views[k])
    requires Effect("data: " + json, parse).Completed?
    ensures ReceiveAll(Fresh, DataLines(jsons + [json]), parse)
            == Client(views, Some(Effect("data: " + json, parse).response), [])
  {
    var all := jsons + [json];
    var data := "data: " + json;
    assert all[..|all| - 1] == jsons;
    assert DataLines(all) == DataLines(jsons) + [data, ""];
    FrameLinesReceived(jsons, views, parse);
    ReceiveAllAppend(Fresh, DataLines(jsons), [data, ""], parse);
    FrameReceived(ReceiveAll(Fresh, DataLines(jsons), parse), data, parse);
  }

  lemma FrameStep(c: Client, data: string, view: ProgressView, parse: Parser)
    requires Effect(data, parse) == Update(view)
    ensures ReceiveAll(c, [data, ""], parse) == c.(updates := c.updates + [view])
  {
    FrameReceived(c, data, parse);
  }

  /** A frame's two lines do what its data line does. */
  lemma FrameReceived(c: Client, data: string, parse: Parser)
    ensures ReceiveAll(c, [data, ""], parse) == Apply(c, Effect(data, parse))
  {
    assert [data, ""][..1] == [data];
    assert [data][..0] == [];
    assert ReceiveAll(c, [data], parse) == Apply(c, Effect(data, parse));
    assert ReceiveAll(c, [data, ""], parse) == Apply(ReceiveAll(c, [data], parse), Effect("", parse));
    assert Effect("", parse) == Skipped;
  }

  lemma CompleteEffect(json: string, results: Json, debugInfo: Json, parse: Parser)
    requires parse(" " + json) == Some(CompleteObject(results, debugInfo))
    ensures Effect("data: " + json, parse) == Completed(ApiResponse(Some(results), Some(debugInfo)))
  {
    DataLine(json, CompleteObject(results, debugInfo), parse);
    var m := CompleteObject(results, debugInfo).members;
    assert m[..2][..1] == m[..1];
    assert Lookup(m[..2], "type") == Lookup(m[..1], "type");
    assert Lookup(m[..2], "results") == Some(results);
  }
}
