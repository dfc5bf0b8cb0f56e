/** Progress reporting of the analyze route: the `Progress` record, its
    text/event-stream framing (`data: <json>\n\n`, a simplified server-sent event
    in the sense of section 9.2 of the WHATWG HTML Standard), the writer it goes
    to, and the sequence of events a crawl of `n` pages emits. */
module ProgressStream {
  import opened Text
  import opened Batching
  import opened AnalyzeConfig

  datatype Stage = Starting | Analyzing | Complete

  datatype Progress = Progress(total: nat, current: nat, status: Stage)

  function StageName(s: Stage): (name: string)
    ensures name in {"starting", "analyzing", "complete"}
  {
    match s
    case Starting => "starting"
    case Analyzing => "analyzing"
    case Complete => "complete"
  }

  /** `JSON.stringify({ type: 'progress', ...progress })`: the keys in insertion order. */
  function ProgressJson(p: Progress): string {
    "{\"type\":\"progress\",\"total\":" + NatToString(p.total)
    + ",\"current\":" + NatToString(p.current)
    + ",\"status\":\"" + StageName(p.status) + "\"}"
  }

  /** One frame as written to the stream: a `data: ` line and an empty line. */
  function ProgressFrame(p: Progress): (frame: string)
    ensures StartsWith(frame, "data: ")
    ensures |frame| >= 2 && frame[|frame| - 2..] == "\n\n"
    ensures '\n' !in ProgressJson(p)
  {
    var json := ProgressJson(p);
    JsonHasNoNewline(p);
    var frame := "data: " + json + "\n\n";
    assert frame[..6] == "data: ";
    frame
  }

  lemma JsonHasNoNewline(p: Progress)
    ensures '\n' !in ProgressJson(p)
  {
    var t := NatToString(p.total);
    var c := NatToString(p.current);
    assert '\n' !in t && '\n' !in c by {
      assert forall i :: 0 <= i < |t| ==> '0' <= t[i] <= '9';
      assert forall i :: 0 <= i < |c| ==> '0' <= c[i] <= '9';
    }
  }

  /** The writable side of the response stream. `rejects` says whether the
      consumer has gone away, in which case every write rejects. The route
      never closes it, so there is no close operation. */
  class Writer {
    var frames: seq<string>
    const rejects: bool

    constructor (rejects: bool)
      ensures frames == [] && this.rejects == rejects
    {
      frames := [];
      this.rejects := rejects;
    }
  }

  /** `sendProgress`: nothing without a writer; a rejected write is swallowed. */
  method SendProgress(writer: Writer?, p: Progress)
    modifies writer
    ensures writer != null && !writer.rejects ==> writer.frames == old(writer.frames) + [ProgressFrame(p)]
    ensures writer != null && writer.rejects ==> writer.frames == old(writer.frames)
  {
    if writer == null {
      return;
    }
    if !writer.rejects {
      writer.frames := writer.frames + [ProgressFrame(p)];
    }
  }

  /** The number of batches of `CONCURRENT_REQUESTS` pages among `n`. */
  function BatchTotal(n: nat): nat {
    (n + CONCURRENT_REQUESTS - 1) / CONCURRENT_REQUESTS
  }

  /** The event sent after batch `k`. */
  function EventAfter(n: nat, k: nat): Progress {
    var current := Min(CONCURRENT_REQUESTS * (k + 1), n);
    Progress(n, current, if current == n then Complete else Analyzing)
  }

  /** The events of a crawl of `n` pages, one per batch. */
  function ProgressEvents(n: nat): (events: seq<Progress>)
    ensures |events| == BatchTotal(n)
  {
    seq(BatchTotal(n), k requires 0 <= k < BatchTotal(n) => EventAfter(n, k))
  }

  lemma BatchTotalBounds(n: nat, k: nat)
    ensures k < BatchTotal(n) <==> CONCURRENT_REQUESTS * k < n
    ensures k + 1 == BatchTotal(n) ==> n <= CONCURRENT_REQUESTS * (k + 1)
  {
  }

  /** `total` is fixed at `n`, `current` is min(5(k+1), n) and strictly increases,
      and `status` is `complete` on the last event and `analyzing` on every other. */
  lemma ProgressEventsShape(n: nat)
    ensures forall k :: 0 <= k < |ProgressEvents(n)| ==> ProgressEvents(n)[k].total == n
    ensures forall k :: 0 <= k < |ProgressEvents(n)| ==>
      ProgressEvents(n)[k].current == Min(CONCURRENT_REQUESTS * (k + 1), n) && ProgressEvents(n)[k].current > 0
    ensures forall i, j :: 0 <= i < j < |ProgressEvents(n)| ==> ProgressEvents(n)[i].current < ProgressEvents(n)[j].current
    ensures forall k :: 0 <= k < |ProgressEvents(n)| ==>
      (ProgressEvents(n)[k].status == Complete <==> k == |ProgressEvents(n)| - 1)
    ensures forall k :: 0 <= k < |ProgressEvents(n)| ==> ProgressEvents(n)[k].status != Starting
  {
    var ev := ProgressEvents(n);
    forall k | 0 <= k < |ev|
      ensures ev[k].current > 0
      ensures ev[k].status == Complete <==> k == |ev| - 1
    {
      BatchTotalBounds(n, k);
      BatchTotalBounds(n, k + 1);
    }
    forall i, j | 0 <= i < j < |ev|
      ensures ev[i].current < ev[j].current
    {
      BatchTotalBounds(n, i + 1);
    }
  }

  /** An empty crawl reports nothing, not even `starting`. */
  lemma NoPagesNoEvents()
    ensures ProgressEvents(0) == []
  {
  }

  /** Twelve pages: three events, at 5, 10 and 12, only the last one `complete`. */
  lemma TwelvePages()
    ensures ProgressEvents(12) == [Progress(12, 5, Analyzing), Progress(12, 10, Analyzing), Progress(12, 12, Complete)]
  {
    assert BatchTotal(12) == 3;
  }
}
