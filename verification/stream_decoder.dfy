/** The browser side of the analyze request: the mutation that posts the URL,
    reads the response body chunk by chunk, cuts it into lines and interprets
    every `data: ` line as a JSON payload (progress, complete, error). */
module StreamDecoder {
  import opened Wrappers
  import opened Text
  import opened Batching
  import opened JsonValues
  import opened ProgressStream

  /** `JSON.parse`: None where it throws. */
  type Parser = string -> Option<Json>

  /** The `{ total, current, status }` object handed to `setProgress`; each
      field is whatever the payload held, `undefined` included. */
  datatype ProgressView = ProgressView(total: Option<Json>, current: Option<Json>, status: Option<Json>)

  /** The `{ results, debugInfo }` object a `complete` payload yields. */
  datatype ApiResponse = ApiResponse(results: Option<Json>, debugInfo: Option<Json>)

  /** What the inner `catch` logs: unparsable JSON, a `null` payload (reading
      `.type` of it throws), or the error a server `error` payload carried. */
  datatype Logged = Unparsable(payload: string) | NullPayload | ServerReported(error: Option<Json>)

  /** What one dispatched line does. */
  datatype LineEffect = Skipped | Update(view: ProgressView) | Completed(response: ApiResponse) | Failed(entry: Logged)

  /** The decoder's state: every `setProgress` value in order, the `result`
      variable, and what was logged. */
  datatype Client = Client(updates: seq<ProgressView>, result: Option<ApiResponse>, logged: seq<Logged>)

  const DATA_PREFIX := "data: "
  const Fresh := Client([], None, [])

  /** Why the mutation rejects, with the message it carries:
      ServerError: the server's `error` field; AnalyzeFailed: 'Failed to analyze
      sitemap'; UnreadableErrorBody: the error body is not JSON or is `null`;
      NoReader: 'Failed to read response'; ReadFailed: the body stream broke;
      NoResults: 'No results received'. */
  datatype Failure = ServerError(error: Json) | AnalyzeFailed | UnreadableErrorBody | NoReader | ReadFailed | NoResults

  /** How the body stream stands after its chunks: the writer closed it, so
      the next `read()` reports `done`; reading failed; or it is still open,
      so the next `read()` never resolves. */
  datatype BodyEnd = Closed | Broken | Open

  /** A response body: decoded text chunks, and how the stream stands after them. */
  datatype Body = Body(chunks: seq<string>, end: BodyEnd)

  /** The `fetch` response: a non-OK status with its JSON body (None if that is
      not JSON), or an OK one with its body (None when there is no reader). */
  datatype Response = NotOk(errorBody: Option<Json>) | Ok(body: Option<Body>)

  /** Whether the mutation has settled, and how: it stays pending while it
      awaits a `read()` of an open body. */
  datatype Settlement = Pending | Settled(result: Result<ApiResponse, Failure>)

  /** What the page sees once the body's chunks are read: the outcome, the
      log, the progress shown. */
  datatype Run = Run(outcome: Settlement, logged: seq<Logged>, progress: Option<ProgressView>)

  /** The React state behind the progress bar. */
  class ProgressDisplay {
    var progress: Option<ProgressView>

    constructor ()
      ensures progress == None
    {
      progress := None;
    }
  }

  // ---------------------------------------------------------------------------
  // Specification

  /** The effect of one line: only `data: ` lines count, and their payload
      starts at index 5, the space after the colon included. */
  function Effect(line: string, parse: Parser): LineEffect {
    if !StartsWith(line, DATA_PREFIX) then Skipped
    else
      var payload := line[5..];
      match parse(payload)
      case None => Failed(Unparsable(payload))
      case Some(data) => DataEffect(data)
  }

  /** The effect of a parsed payload, by its `type` field. */
  function DataEffect(data: Json): LineEffect {
    if data.JNull? then Failed(NullPayload)
    else
      var kind := Get(data, "type");
      if kind == Some(JStr("progress")) then
        Update(ProgressView(Get(data, "total"), Get(data, "current"), Get(data, "status")))
      else if kind == Some(JStr("complete")) then
        Completed(ApiResponse(Get(data, "results"), Get(data, "debugInfo")))
      else if kind == Some(JStr("error")) then Failed(ServerReported(Get(data, "error")))
      else Skipped
  }

  /** A `data: ` line does what its parsed payload says. */
  lemma DataLine(json: string, data: Json, parse: Parser)
    requires parse(" " + json) == Some(data)
    ensures Effect("data: " + json, parse) == DataEffect(data)
  {
    var line := "data: " + json;
    assert line[..6] == DATA_PREFIX;
    assert line[5..] == " " + json;
  }

  function Apply(c: Client, e: LineEffect): Client {
    match e
    case Skipped => c
    case Update(v) => c.(updates := c.updates + [v])
    case Completed(r) => c.(result := Some(r))
    case Failed(entry) => c.(logged := c.logged + [entry])
  }

  /** The state after dispatching `lines` in order. */
  function ReceiveAll(c: Client, lines: seq<string>, parse: Parser): Client
    decreases |lines|
  {
    if |lines| == 0 then c
    else Apply(ReceiveAll(c, lines[..|lines| - 1], parse), Effect(lines[|lines| - 1], parse))
  }

  /** Every line followed by its line feed. */
  function Lines(lines: seq<string>): string
    decreases |lines|
  {
    if |lines| == 0 then "" else lines[0] + "\n" + Lines(lines[1..])
  }

  predicate NoLineFeeds(lines: seq<string>) {
    forall k :: 0 <= k < |lines| ==> '\n' !in lines[k]
  }

  /** The terminated lines of `text`, and the unterminated rest. */
  function CompleteLines(text: string): seq<string> {
    var parts := Split(text, '\n');
    parts[..|parts| - 1]
  }

  function Tail(text: string): string {
    var parts := Split(text, '\n');
    parts[|parts| - 1]
  }

  /** The decoder state once the whole of `text` has arrived. */
  function Decoded(text: string, parse: Parser): Client {
    ReceiveAll(Fresh, CompleteLines(text), parse)
  }

  /** The last value handed to `setProgress`, if any. */
  function Shown(updates: seq<ProgressView>): Option<ProgressView> {
    if |updates| == 0 then None else Some(updates[|updates| - 1])
  }

  /** `errorData.error || 'Failed to analyze sitemap'`; reading `.error` of a
      `null` body throws. */
  function ErrorFor(errorBody: Option<Json>): (f: Failure)
    ensures f.ServerError? ==> errorBody.Some? && Get(errorBody.value, "error") == Some(f.error) && Truthy(f.error)
    ensures errorBody.Some? && !errorBody.value.JNull? && !f.ServerError? ==>
              f == AnalyzeFailed && (Get(errorBody.value, "error").None? || !Truthy(Get(errorBody.value, "error").value))
    ensures errorBody.None? || errorBody == Some(JNull) <==> f == UnreadableErrorBody
  {
    match errorBody
    case None => UnreadableErrorBody
    case Some(body) =>
      if body.JNull? then UnreadableErrorBody
      else
        var error := Get(body, "error");
        if error.Some? && Truthy(error.value) then ServerError(error.value) else AnalyzeFailed
  }

  /** The whole mutation. */
  function Analysis(response: Response, parse: Parser): Run {
    match response
    case NotOk(errorBody) => Run(Settled(Failure(ErrorFor(errorBody))), [], None)
    case Ok(None) => Run(Settled(Failure(NoReader)), [], None)
    case Ok(Some(body)) =>
      var c := Decoded(Flatten(body.chunks), parse);
      var outcome :=
        match body.end
        case Open => Pending
        case Broken => Settled(Failure(ReadFailed))
        case Closed => if c.result.None? then Settled(Failure(NoResults)) else Settled(Success(c.result.value));
      Run(outcome, c.logged, Shown(c.updates))
  }

  // ---------------------------------------------------------------------------
  // The decoder

  /** The `for (const line of lines)` loop. */
  method DispatchLines(lines: seq<string>, parse: Parser, display: ProgressDisplay, c0: Client) returns (c: Client)
    modifies display
    requires display.progress == Shown(c0.updates)
    ensures c == ReceiveAll(c0, lines, parse)
    ensures display.progress == Shown(c.updates)
  {
    c := c0;
    var j := 0;
    while j < |lines|
      invariant 0 <= j <= |lines|
      invariant c == ReceiveAll(c0, lines[..j], parse)
      invariant display.progress == Shown(c.updates)
    {
      var line := lines[j];
      if StartsWith(line, DATA_PREFIX) {
        var payload := line[5..];
        var parsed := parse(payload);
        if parsed.None? {
          c := c.(logged := c.logged + [Unparsable(payload)]);
        } else if parsed.value.JNull? {
          c := c.(logged := c.logged + [NullPayload]);
        } else {
          var data := parsed.value;
          var kind := Get(data, "type");
          if kind == Some(JStr("progress")) {
            var view := ProgressView(Get(data, "total"), Get(data, "current"), Get(data, "status"));
            display.progress := Some(view);
            c := c.(updates := c.updates + [view]);
          } else if kind == Some(JStr("complete")) {
            c := c.(result := Some(ApiResponse(Get(data, "results"), Get(data, "debugInfo"))));
          } else if kind == Some(JStr("error")) {
            c := c.(logged := c.logged + [ServerReported(Get(data, "error"))]);
          }
        }
      }
      assert lines[..j + 1][..j] == lines[..j];
      j := j + 1;
    }
    assert lines[..|lines|] == lines;
  }

  /** The `while (true)` read loop: append the chunk to `buffer`, split on
      line feeds, keep the last piece and dispatch the others. The result is
      that of decoding the concatenated text, however it was chunked, and the
      unterminated tail is never dispatched. */
  method Consume(chunks: seq<string>, parse: Parser, display: ProgressDisplay) returns (c: Client, buffer: string)
    modifies display
    requires display.progress == None
    ensures c == Decoded(Flatten(chunks), parse)
    ensures buffer == Tail(Flatten(chunks)) && '\n' !in buffer
    ensures display.progress == Shown(c.updates)
  {
    c := Fresh;
    buffer := "";
    ghost var dispatched: seq<string> := [];
    var i := 0;
    while i < |chunks|
      invariant 0 <= i <= |chunks|
      invariant Lines(dispatched) + buffer == Flatten(chunks[..i])
      invariant NoLineFeeds(dispatched) && '\n' !in buffer
      invariant c == ReceiveAll(Fresh, dispatched, parse)
      invariant display.progress == Shown(c.updates)
    {
      ghost var received := Lines(dispatched) + buffer;
      buffer := buffer + chunks[i];
      var lines := Split(buffer, '\n');
      var k := |lines| - 1;
      var complete := lines[..k];
      LinesJoin(lines);
      LinesAppend(dispatched, complete);
      ReceiveAllAppend(Fresh, dispatched, complete, parse);
      c := DispatchLines(complete, parse, display, c);
      Associative(Lines(dispatched), Lines(complete), lines[k]);
      Associative(Lines(dispatched), received[|Lines(dispatched)|..], chunks[i]);
      buffer := lines[k];
      dispatched := dispatched + complete;
      ChunkSnoc(chunks, i);
      i := i + 1;
    }
    assert chunks[..i] == chunks;
    DecodedLines(dispatched, buffer);
  }

  /** `mutationFn`: reset progress, reject on a non-OK status or a missing
      reader, read the stream, and once it is done return the last `complete`
      payload or reject with 'No results received'. On an open body the
      method stops where the page waits for the next `read()`, and reports
      the mutation as pending. */
  method Analyze(response: Response, parse: Parser, display: ProgressDisplay)
      returns (outcome: Settlement, logged: seq<Logged>)
    modifies display
    ensures outcome == Analysis(response, parse).outcome
    ensures logged == Analysis(response, parse).logged
    ensures display.progress == Analysis(response, parse).progress
  {
    display.progress := None;
    logged := [];
    if response.NotOk? {
      outcome := Settled(Failure(ErrorFor(response.errorBody)));
      return;
    }
    if response.body.None? {
      outcome := Settled(Failure(NoReader));
      return;
    }
    var body := response.body.value;
    var c, buffer := Consume(body.chunks, parse, display);
    logged := c.logged;
    match body.end
    case Open =>
      outcome := Pending;
    case Broken =>
      outcome := Settled(Failure(ReadFailed));
    case Closed =>
      if c.result.None? {
        outcome := Settled(Failure(NoResults));
      } else {
        outcome := Settled(Success(c.result.value));
      }
  }

  // ---------------------------------------------------------------------------
  // Lemmas about lines

  lemma {:induction false} LinesAppend(a: seq<string>, b: seq<string>)
    ensures Lines(a + b) == Lines(a) + Lines(b)
    decreases |a|
  {
    if |a| == 0 {
      assert a + b == b;
    } else {
      assert (a + b)[1..] == a[1..] + b;
      LinesAppend(a[1..], b);
    }
  }

  /** The pieces of a split, each but the last with its line feed, rebuild the
      text: `Lines(init) + last == Join(pieces, "\n")`. */
  lemma {:induction false} LinesJoin(parts: seq<string>)
    requires |parts| >= 1
    ensures Lines(parts[..|parts| - 1]) + parts[|parts| - 1] == Join(parts, "\n")
    decreases |parts|
  {
    if |parts| > 1 {
      var n := |parts|;
      LinesJoin(parts[1..]);
      assert parts[..n - 1][1..] == parts[1..][..n - 2];
      assert parts[1..][n - 2] == parts[n - 1];
    }
  }

  lemma ChunkSnoc(chunks: seq<string>, i: nat)
    requires i < |chunks|
    ensures forall next :: next == i + 1 ==> Flatten(chunks[..next]) == Flatten(chunks[..i]) + chunks[i]
  {
    assert chunks[..i + 1] == chunks[..i] + [chunks[i]];
    FlattenAppend(chunks[..i], [chunks[i]]);
    assert Flatten([chunks[i]]) == chunks[i] + Flatten([]);
  }

  /** Text cut into terminated lines plus a tail without line feeds has
      exactly those lines and that tail. */
  lemma DecodedLines(lines: seq<string>, tail: string)
    requires NoLineFeeds(lines) && '\n' !in tail
    ensures CompleteLines(Lines(lines) + tail) == lines
    ensures Tail(Lines(lines) + tail) == tail
  {
    var parts := lines + [tail];
    assert parts[..|parts| - 1] == lines;
    LinesJoin(parts);
    SplitJoin(parts, '\n');
  }

  lemma {:induction false} ReceiveAllAppend(c: Client, a: seq<string>, b: seq<string>, parse: Parser)
    ensures ReceiveAll(c, a + b, parse) == ReceiveAll(ReceiveAll(c, a, parse), b, parse)
    decreases |b|
  {
    if |b| == 0 {
      assert a + b == a;
    } else {
      var n := |b|;
      assert (a + b)[..|a + b| - 1] == a + b[..n - 1];
      assert (a + b)[|a + b| - 1] == b[n - 1];
      ReceiveAllAppend(c, a, b[..n - 1], parse);
    }
  }

  // ---------------------------------------------------------------------------
  // What dispatching promises

  /** `result` is overwritten by every `complete` payload, so after the lines
      it holds the response of the last one. */
  lemma {:induction false} LastCompleteWins(c: Client, lines: seq<string>, k: nat, parse: Parser)
    requires k < |lines| && Effect(lines[k], parse).Completed?
    requires forall j :: k < j < |lines| ==> !Effect(lines[j], parse).Completed?
    ensures ReceiveAll(c, lines, parse).result == Some(Effect(lines[k], parse).response)
    decreases |lines|
  {
    var n := |lines|;
    if k < n - 1 {
      var init := lines[..n - 1];
      assert !Effect(lines[n - 1], parse).Completed?;
      assert init[k] == lines[k];
      LastCompleteWins(c, init, k, parse);
    }
  }

  /** Without a `complete` payload `result` keeps its value. */
  lemma {:induction false} NoCompleteKeepsResult(c: Client, lines: seq<string>, parse: Parser)
    requires forall j :: 0 <= j < |lines| ==> !Effect(lines[j], parse).Completed?
    ensures ReceiveAll(c, lines, parse).result == c.result
    decreases |lines|
  {
    if |lines| > 0 {
      var n := |lines|;
      assert !Effect(lines[n - 1], parse).Completed?;
      NoCompleteKeepsResult(c, lines[..n - 1], parse);
    }
  }

  /** Progress shows the `total`, `current` and `status` of the last `progress`
      payload. */
  lemma {:induction false} LastProgressShown(c: Client, lines: seq<string>, k: nat, parse: Parser)
    requires k < |lines| && Effect(lines[k], parse).Update?
    requires forall j :: k < j < |lines| ==> !Effect(lines[j], parse).Update?
    ensures Shown(ReceiveAll(c, lines, parse).updates) == Some(Effect(lines[k], parse).view)
    decreases |lines|
  {
    var n := |lines|;
    if k < n - 1 {
      var init := lines[..n - 1];
      assert !Effect(lines[n - 1], parse).Update?;
      assert init[k] == lines[k];
      LastProgressShown(c, init, k, parse);
    }
  }

  /** Without a `progress` payload, `setProgress` is never called. */
  lemma {:induction false} NoProgressKeepsUpdates(c: Client, lines: seq<string>, parse: Parser)
    requires forall j :: 0 <= j < |lines| ==> !Effect(lines[j], parse).Update?
    ensures ReceiveAll(c, lines, parse).updates == c.updates
    decreases |lines|
  {
    if |lines| > 0 {
      var n := |lines|;
      assert !Effect(lines[n - 1], parse).Update?;
      NoProgressKeepsUpdates(c, lines[..n - 1], parse);
    }
  }

  /** A line that is not a `data: ` line changes nothing. */
  lemma OtherLinesIgnored(c: Client, before: seq<string>, line: string, after: seq<string>, parse: Parser)
    requires !StartsWith(line, DATA_PREFIX)
    ensures ReceiveAll(c, before + [line] + after, parse) == ReceiveAll(c, before + after, parse)
  {
    ReceiveAllAppend(c, before + [line], after, parse);
    ReceiveAllAppend(c, before, [line], parse);
    ReceiveAllAppend(c, before, after, parse);
    assert ReceiveAll(c, before + [line], parse) == ReceiveAll(c, before, parse) by {
      assert (before + [line])[..|before|] == before;
    }
  }

  /** An `error` payload, malformed JSON or a `null` payload is caught and
      logged, and decoding goes on: the progress and the result are those of
      the stream without that line, and the log holds one more entry. */
  lemma CaughtLineOnlyLogged(c: Client, before: seq<string>, line: string, after: seq<string>, parse: Parser)
    requires Effect(line, parse).Failed?
    ensures ReceiveAll(c, before + [line] + after, parse).updates == ReceiveAll(c, before + after, parse).updates
    ensures ReceiveAll(c, before + [line] + after, parse).result == ReceiveAll(c, before + after, parse).result
    ensures |ReceiveAll(c, before + [line] + after, parse).logged| == |ReceiveAll(c, before + after, parse).logged| + 1
  {
    ReceiveAllAppend(c, before + [line], after, parse);
    ReceiveAllAppend(c, before, [line], parse);
    ReceiveAllAppend(c, before, after, parse);
    var x := ReceiveAll(c, before, parse);
    assert ReceiveAll(c, before + [line], parse) == x.(logged := x.logged + [Effect(line, parse).entry]) by {
      assert (before + [line])[..|before|] == before;
    }
    OnlyLogDiffers(x.(logged := x.logged + [Effect(line, parse).entry]), x, after, parse);
  }

  /** Two states that differ only in their logs stay so. */
  lemma {:induction false} OnlyLogDiffers(c1: Client, c2: Client, lines: seq<string>, parse: Parser)
    requires c1.updates == c2.updates && c1.result == c2.result
    ensures ReceiveAll(c1, lines, parse).updates == ReceiveAll(c2, lines, parse).updates
    ensures ReceiveAll(c1, lines, parse).result == ReceiveAll(c2, lines, parse).result
    ensures |ReceiveAll(c1, lines, parse).logged| - |c1.logged| == |ReceiveAll(c2, lines, parse).logged| - |c2.logged|
    decreases |lines|
  {
    if |lines| > 0 {
      OnlyLogDiffers(c1, c2, lines[..|lines| - 1], parse);
    }
  }
}
