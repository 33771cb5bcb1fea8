/**
 * The streaming side of backend/server.js: `sseSend`, which writes one
 * event-stream frame and swallows write errors, and the
 * `POST /api/scrape-stream` handler, which turns a scrape into a stream of
 * `progress` frames closed by exactly one `done` or `error` frame.
 *
 * The database insert of the run row is a parameter (its new row id, or
 * `None` when it fails), and so is the CSV file path, which depends on the
 * clock.
 */
module ServerStream {
  import opened Wrappers
  import opened Text
  import Json
  import EventStream
  import Scraper

  /** The parts of an Express response the handler touches. */
  class Response {
    /** The HTTP status. */
    var status: int
    /** The body sent by `res.json`, if any. */
    var body: Option<Json.Value>
    /** Whether the event-stream headers have been written (`writeHead(200, ...)`). */
    var streaming: bool
    /** Everything `res.write` has sent so far. */
    var written: string
    /** Whether the heartbeat interval is running. */
    var heartbeat: bool
    /** Whether the response has been ended. */
    var ended: bool
    /** Whether the connection is gone, so that every `res.write` throws. */
    const broken: bool

    constructor (broken: bool)
      ensures status == 200 && body == None && !streaming && written == ""
      ensures !heartbeat && !ended && this.broken == broken
    {
      status := 200;
      body := None;
      streaming := false;
      written := "";
      heartbeat := false;
      ended := false;
      this.broken := broken;
    }

    /** `res.status(code).json(value)`: a JSON reply, which ends the response. */
    method Reply(code: int, value: Json.Value)
      modifies this
      ensures status == code && body == Some(value) && ended
      ensures streaming == old(streaming) && written == old(written) && heartbeat == old(heartbeat)
    {
      status := code;
      body := Some(value);
      ended := true;
    }

    /** `res.writeHead(200, ...)` with the event-stream headers, then the heartbeat `setInterval`. */
    method OpenStream()
      modifies this
      ensures status == 200 && streaming && heartbeat
      ensures body == old(body) && written == old(written) && ended == old(ended)
    {
      status := 200;
      streaming := true;
      heartbeat := true;
    }

    /**
     * `sseSend(res, event, data)`: the line `event: E`, then the line
     * `data: J` for the JSON text `J` of the value, then a blank line; when
     * the connection is gone the write throws and the error is ignored.
     */
    method SseSend(codec: Json.Codec, event: string, data: Json.Value)
      modifies this
      ensures written == old(written) + (if broken then "" else EventStream.Frame(event, codec.stringify(data)))
      ensures status == old(status) && body == old(body) && streaming == old(streaming)
      ensures heartbeat == old(heartbeat) && ended == old(ended)
    {
      if !broken {
        ghost var before := written;
        written := written + ("event: " + event + "\n");
        written := written + ("data: " + codec.stringify(data) + "\n\n");
        EventStream.FrameWrites(event, codec.stringify(data));
        AppendAssociative(before, "event: " + event + "\n", "data: " + codec.stringify(data) + "\n\n");
      }
    }

    /** `clearInterval(heartbeat)` then `res.end()` (whose errors are ignored). */
    method Close()
      modifies this
      ensures !heartbeat && ended
      ensures status == old(status) && body == old(body) && streaming == old(streaming) && written == old(written)
    {
      heartbeat := false;
      ended := true;
    }
  }

  /** The request body `{ url, pages }`; `url` is "" when it is absent or
      falsy, `pages` is `None` when it is absent or falsy (the number 0 included). */
  datatype ScrapeRequest = ScrapeRequest(url: string, pages: Option<int>)

  /** `Number(pages || 1)`. */
  function PagesArg(pages: Option<int>): (r: int)
    ensures pages.None? ==> r == 1
    ensures pages.Some? ==> r == pages.value
  {
    match pages
    case None => 1
    case Some(n) => n
  }

  /** The page bound the scrape ends up with: `Number(pages || 1)` in the
      handler, then `pages || 1` in `scrape`. An absent or zero `pages` means
      one page; any other number is the bound itself. */
  lemma PagesBound(pages: Option<int>)
    ensures Scraper.PageBound(PagesArg(pages)) == if pages.None? || pages.value == 0 then 1 else pages.value
    ensures Scraper.PageBound(PagesArg(pages)) != 0
  {
  }

  const UrlRequired: string := "URL required"
  const ScrapeFailed: string := "Scrape failed"
  const DbInsertFailed: string := "DB insert failed"
  const ScrapeComplete: string := "Scrape complete"

  /** `{ error: message }`. */
  function ErrorBody(message: string): Json.Value {
    Json.JObj([("error", Json.JStr(message))])
  }

  /** `{ message }`, the data of an `error` frame. */
  function ErrorData(message: string): Json.Value {
    Json.JObj([("message", Json.JStr(message))])
  }

  /** A progress event `{ message, pct }` as the data of a `progress` frame. */
  function ProgressData(p: Scraper.Progress): Json.Value {
    Json.JObj([("message", Json.JStr(p.message)), ("pct", Json.JNum(p.pct))])
  }

  /** `{ runId, csvPath, itemCount, message: 'Scrape complete' }`. */
  function DoneData(runId: nat, csvPath: string, itemCount: nat): Json.Value {
    Json.JObj([("runId", Json.JNum(runId)), ("csvPath", Json.JStr(csvPath)),
               ("itemCount", Json.JNum(itemCount)), ("message", Json.JStr(ScrapeComplete))])
  }

  /** The `progress` frames for a sequence of progress events, in order. */
  function ProgressFrames(ps: seq<Scraper.Progress>): (r: seq<(string, Json.Value)>)
    ensures |r| == |ps|
    ensures forall k :: 0 <= k < |ps| ==> r[k] == ("progress", ProgressData(ps[k]))
  {
    seq(|ps|, k requires 0 <= k < |ps| => ("progress", ProgressData(ps[k])))
  }

  /**
   * The frame that closes a stream: the scrape's error message (or
   * 'Scrape failed' when it is empty), 'DB insert failed' when the run row
   * could not be stored, and otherwise `done` with the new run id.
   */
  function Terminal(result: Result<seq<Scraper.Item>, string>, insert: Option<nat>, csvPath: string): (r: (string, Json.Value))
    ensures r.0 == "done" || r.0 == "error"
    ensures r.0 == "done" <==> result.Ok? && insert.Some?
  {
    match result
    case Err(m) => ("error", ErrorData(if m == "" then ScrapeFailed else m))
    case Ok(items) =>
      match insert
      case None => ("error", ErrorData(DbInsertFailed))
      case Some(runId) => ("done", DoneData(runId, csvPath, |items|))
  }

  /** Every frame a scrape stream carries, in order. */
  function StreamEvents(run: Scraper.Run, insert: Option<nat>, csvPath: string): seq<(string, Json.Value)> {
    ProgressFrames(run.events) + [Terminal(run.result, insert, csvPath)]
  }

  /** `sseSend` for each frame in turn: their concatenated text, or nothing on a broken connection. */
  method SendAll(res: Response, codec: Json.Codec, frames: seq<(string, Json.Value)>)
    modifies res
    ensures res.written == old(res.written) + Sent(res.broken, codec, frames)
    ensures res.status == old(res.status) && res.body == old(res.body) && res.streaming == old(res.streaming)
    ensures res.heartbeat == old(res.heartbeat) && res.ended == old(res.ended)
  {
    var i := 0;
    while i < |frames|
      invariant 0 <= i <= |frames|
      invariant res.written == old(res.written) + Sent(res.broken, codec, frames[..i])
      invariant res.status == old(res.status) && res.body == old(res.body) && res.streaming == old(res.streaming)
      invariant res.heartbeat == old(res.heartbeat) && res.ended == old(res.ended)
    {
      res.SseSend(codec, frames[i].0, frames[i].1);
      SentSnoc(res.broken, codec, frames, i);
      AppendAssociative(old(res.written), Sent(res.broken, codec, frames[..i]),
                        if res.broken then "" else EventStream.Frame(frames[i].0, codec.stringify(frames[i].1)));
      i := i + 1;
    }
    assert frames[..i] == frames;
  }

  /** What a stream carries for the given frames: nothing once the connection
      is broken, the frames' text otherwise. */
  function Sent(broken: bool, codec: Json.Codec, frames: seq<(string, Json.Value)>): string {
    if broken then "" else EventStream.Frames(codec, frames)
  }

  lemma SentSnoc(broken: bool, codec: Json.Codec, frames: seq<(string, Json.Value)>, i: nat)
    requires i < |frames|
    ensures Sent(broken, codec, frames[..i + 1])
            == Sent(broken, codec, frames[..i]) + (if broken then "" else EventStream.Frame(frames[i].0, codec.stringify(frames[i].1)))
  {
    PrefixSnoc(frames, i);
    EventStream.FramesAppend(codec, frames[..i], [frames[i]]);
  }

  /**
   * `POST /api/scrape-stream`. Without a URL the reply is a 400 JSON error
   * and no stream is opened. Otherwise the stream is opened, every progress
   * event of the scrape is sent as a `progress` frame, then one terminal
   * frame, after which the heartbeat is cleared and the response ended.
   * The progress frames are written here after `Scraper.Scrape` returns
   * the events it delivered; in the server they are written as each event
   * is emitted, which gives the same text in the same order.
   */
  method ScrapeStream(res: Response, codec: Json.Codec, net: Scraper.Network, parse: Scraper.PageParser,
                      req: ScrapeRequest, insert: Option<nat>, csvPath: string)
    modifies res
    ensures req.url == "" ==>
              && res.status == 400 && res.body == Some(ErrorBody(UrlRequired)) && res.ended
              && res.heartbeat == old(res.heartbeat)
              && res.streaming == old(res.streaming) && res.written == old(res.written)
    ensures req.url != "" ==>
              && res.status == 200 && res.streaming && !res.heartbeat && res.ended
              && res.body == old(res.body)
              && res.written == old(res.written) +
                   (if res.broken then ""
                    else EventStream.Frames(codec, StreamEvents(Scraper.ScrapeSpec(net, parse, req.url, PagesArg(req.pages)),
                                                                insert, csvPath)))
  {
    if req.url == "" {
      res.Reply(400, ErrorBody(UrlRequired));
      return;
    }
    res.OpenStream();
    var run, delivered := Scraper.Scrape(net, parse, Scraper.Callback(_ => false), req.url, PagesArg(req.pages));
    SendAll(res, codec, ProgressFrames(delivered) + [Terminal(run.result, insert, csvPath)]);
    res.Close();
  }

  /**
   * What the browser reads back from a complete scrape stream: one
   * `progress` callback per progress event with its value unchanged, then
   * exactly one terminal callback, `done` exactly when the scrape succeeded
   * and the run row was stored, and nothing left in the buffer.
   */
  lemma StreamReadBack(codec: Json.Codec, run: Scraper.Run, insert: Option<nat>, csvPath: string)
    requires Json.Lawful(codec)
    ensures EventStream.ParseChunk(codec, EventStream.Frames(codec, StreamEvents(run, insert, csvPath))).1 == ""
    ensures var calls := EventStream.ParseChunk(codec, EventStream.Frames(codec, StreamEvents(run, insert, csvPath))).0;
      && |calls| == |run.events| + 1
      && (forall k :: 0 <= k < |run.events| ==>
            calls[k] == EventStream.Dispatch("progress", EventStream.Parsed(ProgressData(run.events[k]))))
      && (calls[|run.events|].event == "done" || calls[|run.events|].event == "error")
      && (calls[|run.events|].event == "done" <==> run.result.Ok? && insert.Some?)
  {
    var events := StreamEvents(run, insert, csvPath);
    StreamEventNames(run, insert, csvPath);
    EventStream.FramesRoundTrip(codec, events);
    EventStream.ExpectedAt(events);
  }

  /** Every frame of a stream carries a name the reader gets back unchanged. */
  lemma StreamEventNames(run: Scraper.Run, insert: Option<nat>, csvPath: string)
    ensures var events := StreamEvents(run, insert, csvPath);
            forall k :: 0 <= k < |events| ==> EventStream.ValidEventName(events[k].0)
  {
    var events := StreamEvents(run, insert, csvPath);
    var t := Terminal(run.result, insert, csvPath);
    assert EventStream.ValidEventName("progress");
    assert EventStream.ValidEventName(t.0);
    assert forall k :: 0 <= k < |events| ==> events[k].0 == "progress" || events[k].0 == t.0;
  }

  /** With no parser for the URL, the stream is a single `error` frame naming that, with no progress before it. */
  lemma NoParserStream(net: Scraper.Network, parse: Scraper.PageParser, url: string, pages: int,
                       insert: Option<nat>, csvPath: string)
    requires Scraper.Choose(url).None?
    ensures StreamEvents(Scraper.ScrapeSpec(net, parse, url, pages), insert, csvPath)
            == [("error", ErrorData(Scraper.NoParserMessage))]
  {
    Scraper.BooksFirst(url);
    assert Scraper.Registry == [Scraper.Books, Scraper.Quotes];
    Scraper.NoParserRun(net, parse, url, pages);
    assert ProgressFrames([]) == [];
  }

  /**
   * When a fetch fails for good, the stream ends with the progress frame
   * 'Fetch failed: <error>' at 0% followed by the `error` frame carrying the
   * same error (or 'Scrape failed' when its message is empty); nothing of the
   * run is stored.
   */
  lemma FailedFetchStream(net: Scraper.Network, parse: Scraper.PageParser, url: string, pages: int,
                          site: Scraper.Site, insert: Option<nat>, csvPath: string)
    requires Scraper.Choose(url) == Some(site)
    requires Scraper.ScrapeSpec(net, parse, url, pages).result.Err?
    ensures var run := Scraper.ScrapeSpec(net, parse, url, pages);
            var events := StreamEvents(run, insert, csvPath);
            var e := run.result.error;
      && |events| >= 2
      && events[|events| - 2] == ("progress", ProgressData(Scraper.Progress("Fetch failed: " + e, 0)))
      && events[|events| - 1] == ("error", ErrorData(if e == "" then ScrapeFailed else e))
  {
    Scraper.ScrapeFailureReported(net, parse, url, pages, site);
  }

  /**
   * When every page was fetched and the run row was stored, the stream ends
   * with `done`, whose item count is the number of items of all pages together.
   */
  lemma CompletedStream(net: Scraper.Network, parse: Scraper.PageParser, url: string, pages: int,
                        site: Scraper.Site, runId: nat, csvPath: string)
    requires Scraper.Choose(url) == Some(site)
    requires Scraper.ScrapeSpec(net, parse, url, pages).result.Ok?
    ensures var run := Scraper.ScrapeSpec(net, parse, url, pages);
            var events := StreamEvents(run, Some(runId), csvPath);
            events[|events| - 1] == ("done", DoneData(runId, csvPath, |Scraper.ItemsOf(run.steps)|))
  {
    Scraper.ScrapeOutcome(net, parse, url, pages, site);
  }
}
