# Web scraper core, modelled in Dafny

This project models the logic at the heart of a small web-scraping application.
Its Node.js backend fetches pages of books.toscrape.com or
quotes.toscrape.com, extracts items and streams progress to the browser. Its
browser front end reads that stream and pages through the stored results. The
model covers these parts:

- **The scrape pipeline (`backend/scraper.js`)**, in module `Scraper`:
  - the bounded-retry page fetch `fetchHtml`, with its backoff waits;
  - the ordered parser registry and `chooseParser`;
  - the pagination driver `scrape`, with its page cursor, page bound, item accumulator, progress events and polite pauses.

  The HTTP GET is a parameter: the outcome of attempt *i* for a URL. So is each
  site's `parsePage`: the items and the next link of a page. `Scrape` and
  `FetchHtml` are imperative methods proved equal to specification functions.
  `Scrape` runs the `while` loop of `scrape` and `FetchHtml` the `for` loop of `fetchHtml`. The
  properties of a scrape are proved about those functions.
- **The hostname registry (`backend/parsers/index.js`)**, in module `Hosts`:
  `getParser` is an exact hostname lookup in a two-entry table. A lemma shows
  how it differs from the substring match of the scrape pipeline.
- **The event-stream framing**, in module `EventStream`:
  - the frame that the server's `sseSend` writes;
  - the browser's incremental reader `parseSSEChunk`, with both of its loops.

  They form a framing round trip. This is the simplified subset of the
  Server-Sent Events format of section 9.2 of the WHATWG HTML Living Standard
  that the program uses:
  - the default event type is `message`;
  - `data:` lines are joined with a line feed;
  - only `\n` ends a line;
  - whole lines are trimmed.
- **The scrape-stream handler (`backend/server.js`)**, in module `ServerStream`:
  - a `Response` class whose fields the handler updates in place;
  - `sseSend`;
  - the `POST /api/scrape-stream` handler. It sends a 400 reply without a URL.
    Otherwise it sends one `progress` frame per progress event and exactly one
    terminal `done` or `error` frame, then clears the heartbeat.
- **The JSON routes (`backend/server.js`)**, in module `ServerRoutes`:
  - `GET /api/run/:id`: its offset arithmetic, the WHERE clause and parameter list built filter by filter, and the sort whitelist;
  - `DELETE /api/delete-runs`: the id sanitising;
  - `GET /api/export/:id`: the format dispatch.
- **The client logic (`frontend/script.js`)**, in module `Client`:
  - `escapeHtml`;
  - the page count and the "showing x to y" numbers;
  - the page-number window of `renderPagination`;
  - the previous, next and page-size handlers, in a `Page` class that holds the module-level paging state;
  - the stream callback that drives the progress bar and the start and stop buttons.

`Wrappers` holds `Option` and `Result`. `Text` models the JavaScript string
operations the code relies on: `split`, `join`, `trim`, `indexOf`/`includes`,
`startsWith`, ASCII case mapping, `replaceAll` of one character, and integer
formatting. `Json` holds the JSON value type, with `JSON.stringify` and
`JSON.parse` as an abstract pair (`Codec`). The model relies only on the laws
in `Json.Lawful`:
- parsing undoes stringifying;
- parsing the empty text fails, as `JSON.parse('')` throws;
- the text is non-empty;
- the text has no surrounding white space;
- the text has no line feed.

Where the code does something other than what one might read into its comments
or design, the model follows the code:
- **Progress is not monotone across pages.** The fetch event of page n+1 shows
  `round(n/P·40)`, which is less than the preceding `round(n/P·90)`. For P = 3
  the percentages are 0, 30, 13, 60, 27, 90.
- **`scrape` never reports 100%.** Every percentage it emits lies in [0, 90].
  The 100% comes only from the client on `done`.
- **The 150 ms pause does not fall only between two fetched pages.** A pause
  also follows the last page when that page has a next link and the page bound
  stops the loop. The loop re-checks the bound only after sleeping.
- **The backoff after failed attempt i (0-based) is 1000·(i+1) ms.** It is
  therefore 1000 ms after the first failure, not 0 ms.
- **The two parser registries disagree on subdomains.**
  `www.books.toscrape.com` is handed to the books parser by `scraper.js`. It
  gets no parser from `index.js`.

## Model

| member | source | states |
|---|---|---|
| Scraper.FetchPolicy | scraper.js:8-18 | `fetchHtml` makes at most retries+1 attempts. Its result is the last attempt's: the first success, if any attempt in range succeeds, and otherwise the last error. Every earlier attempt failed. Success happens iff some attempt in range succeeds. The waits are 1000·(i+1) ms, one after each failed attempt but the last. |
| Scraper.FetchHtml | scraper.js:8-18 | The `for` loop with its early return and rethrow makes exactly the attempts and waits of the retry policy. |
| Scraper.Walk | scraper.js:85-101 | The pages the loop visits from a cursor: nothing once the cursor is empty or the bound is reached; otherwise the page fetched with two retries, then either the failure (which ends the walk) or the parsed page followed by the walk from its next link. Its properties are WalkLength, WalkLinks and WalkVisits. |
| Scraper.ScrapeSpec | scraper.js:71-104 | A whole scrape: the no-parser failure, or the run of the walk from the URL with bound `pages \|\| 1`: its result, its events, its pages and its pauses. Its properties are ScrapePages, ScrapeOutcome, ScrapeProgress and ScrapePauses. |
| Scraper.FetchPct | scraper.js:87 | The fetch event's percentage `Math.round((n−1)/P·40)`, computed exactly. PctBounds keeps it in [0, 40]. |
| Scraper.ParsePct | scraper.js:97 | The parse event's percentage `Math.min(95, Math.round(n/P·90))`, computed exactly. PctBounds keeps it in [0, 90]. |
| Scraper.BackoffsAt | scraper.js:14-15 | The recorded waits after n failures number n, and wait i is 1000·(i+1) ms. |
| Scraper.MatchIndex | scraper.js:21-23 | The search returns the first position whose site is accepted, or the end of the sequence; `Choose` runs it over the registry with `match` (substring containment of the URL). |
| Scraper.ChooseParser | scraper.js:60-65 | The linear search returns a site whose `match` holds. It returns none iff no registered site matches, and it agrees with the first-match specification. |
| Scraper.BooksFirst | scraper.js:21-23 | Books is tried before quotes. A URL containing both host names goes to books; one containing only the quotes host goes to quotes; any other URL gets no parser. |
| Scraper.Scrape | scraper.js:71-104 | The `while` loop over cursor, page count, items, events and pauses ends in exactly the specified run. The callback receives every progress event iff it is a function, whether it returns or throws on each one (`Sink.Callback.throws`); the run equals the scrape's specification, which does not depend on the callback. |
| Scraper.NoParserRun | scraper.js:72-73 | Without a matching parser the scrape fails with 'No parser available for this site'. It fetches nothing, emits no event and makes no pause. |
| Scraper.ScrapePages | scraper.js:85-99 | At most `pages \|\| 1` pages are fetched. The first page fetched is the URL given. Each later page is the next link of the page before, which was parsed and had one. The run stops short of the bound only after a page without a next link or a failed fetch. |
| Scraper.WalkLength | scraper.js:85-99 | A walk fetches at most bound−done pages. It fetches at least one iff the cursor is set and the bound is not reached. It ends on a page with a next link only when the bound is reached. |
| Scraper.WalkLinks | scraper.js:76-98 | The visited pages form a chain: the first is the start URL, and each following URL is the previous page's next link. |
| Scraper.WalkVisits | scraper.js:90-95 | Every visited page was fetched with the default two retries. A fetched page was parsed with the chosen site's parser, and a failed fetch records its error. |
| Scraper.ScrapeOutcome | scraper.js:75-103 | A scrape returns items iff every visited page was fetched. The items are all pages' items concatenated in fetch order. Otherwise the failed fetch is the last page visited, and its error is the one thrown. |
| Scraper.RunOutcome | scraper.js:91-103 | For a chain where only the last page may have failed, the run succeeds iff no page failed. A successful run returns the concatenated items. A failed run returns the last page's error. |
| Scraper.ItemsOfConcat | scraper.js:96 | Items gathered over two stretches of pages are the first stretch's, then the second's: no reordering or deduplication. |
| Scraper.EventsAt | scraper.js:87-97 | There are exactly two events per visited page, in page order. The first is 'Fetching page n...' with the fetch percentage. The second is the item count with the parse percentage, or 'Fetch failed: …' at 0. |
| Scraper.RoundDivSpec | scraper.js:87-97 | The exact `Math.round` of a quotient is the nearest integer, with halves rounded up. |
| Scraper.PctBounds | scraper.js:87-97 | For page n of P with 1 ≤ n ≤ P, the fetch percentage lies in [0, 40] and the parse percentage in [0, 90]. |
| Scraper.ProgressFallsBetweenPages | scraper.js:87-97 | The next page's fetch percentage never exceeds the previous page's parse percentage. With at most 50 pages it is strictly lower, so progress is not monotone. |
| Scraper.ThreePageProgress | scraper.js:87-97 | Three successful, linked pages report 0, 30, 13, 60, 27, 90. |
| Scraper.ScrapeProgress | scraper.js:85-97 | A scrape reports two events per page. Every percentage lies in [0, 90], so it never reports 100. Each fetch event is at most 40. A failed fetch reports 'Fetch failed: <error>' at 0. |
| Scraper.ScrapeFailureReported | scraper.js:91-93 | When a scrape fails, its last event is 'Fetch failed: <error>' at 0, carrying the error it throws. |
| Scraper.ScrapePauses | scraper.js:98-100 | There is one 150 ms pause after each page but the last. One more follows the last page only when it links onwards, which happens only when the page bound stopped the loop. |
| Scraper.DriveFollowsWalk | scraper.js:85-101 | From any loop state whose totals agree with the pages visited so far, the loop ends in the run of the whole walk. |
| Hosts.GetParser | index.js:10-17 | A parser is returned only for a parsable URL whose hostname is a key of the table, and it is that key's entry. |
| Hosts.GetParserExact | index.js:5-17 | The books parser is returned exactly for hostname books.toscrape.com, the quotes parser exactly for quotes.toscrape.com, and none for an unparsable URL or any other hostname. |
| Hosts.SubdomainDisagreement | index.js:13 | For hostname www.books.toscrape.com the hostname lookup finds nothing, while the substring registry of scraper.js picks books. |
| EventStream.FrameWrites | server.js:30-31 | A frame is exactly the two writes: `event: E\n`, then `data: J\n\n`. |
| EventStream.Frame | server.js:30-31 | The text `event: E\n` + `data: J\n\n` of one `sseSend`. FrameWrites ties it to the two writes and FrameRoundTrip to the reader. |
| EventStream.ReadLines | script.js:345-349 | The loop over a block's lines ends with the last `event:` name and every `data:` payload in order, all trimmed. |
| EventStream.ReadLine | script.js:347-348 | After one more line, an `event:` line replaces the name and a `data:` line appends its trimmed text. Any other line changes neither. |
| EventStream.ReadBlock | script.js:344-352 | A block's callback has the last `event:` name, or 'message' without one. Its data is the joined `data:` payloads JSON-decoded when they parse, else the raw text, or null when empty (the null case is proved by EventStream.NullData). |
| EventStream.BlockDispatch | script.js:344-352 | The callback for one block: the event name or 'message', and the decoded data. ReadBlock computes it with the source's loop. |
| EventStream.NullData | script.js:350-351 | With a codec whose parse fails on the empty text, a block's data is null exactly when its joined `data:` text is empty, in particular when it has no `data:` line. |
| EventStream.ParseSseChunk | script.js:340-355 | The loop makes one callback per complete block, in buffer order, then returns the text after the last blank line. |
| EventStream.ChunkLayout | script.js:340-355 | The buffer is exactly the complete blocks, each followed by its blank line, then the remainder. No complete block and not the remainder contains a blank line, so the buffer is cut at every blank line. There are as many callbacks as complete blocks, each the dispatch of its own block, in order. |
| EventStream.FrameBlockDispatch | server.js:30-31 | Reading one frame's block gives back the frame's event name and the original JSON value. |
| EventStream.FrameRoundTrip | server.js:30-31 | A frame fed to the reader yields exactly one callback, with the event name and the original value, and an empty remainder. |
| EventStream.FramesThenRest | script.js:340-355 | Frames followed by any text are read back as one callback per frame, in order and unchanged, before whatever the following text yields. |
| EventStream.FramesRoundTrip | script.js:340-355 | A whole stream of frames is read back exactly, with nothing left over. |
| ServerStream.Response.SseSend | server.js:28-34 | `sseSend` appends the frame to what was written. On a broken connection the write error is swallowed and nothing is appended. No other response state changes. |
| ServerStream.Response.Reply | server.js:39 | `res.status(code).json(value)` sets the status and body and ends the response, leaving the stream state and the heartbeat as they were. |
| ServerStream.Response.OpenStream | server.js:42-50 | `writeHead(200, …)` and the heartbeat's `setInterval`: status 200, streaming and heartbeat running; the written text, body and ended flag are unchanged. |
| ServerStream.Response.Close | server.js:93-94 | `clearInterval(heartbeat)` then `res.end()`: the heartbeat stops and the response is ended, nothing else changes. |
| ServerStream.Terminal | server.js:66-97 | The frame that closes a stream is always `done` or `error`, and it is `done` exactly when the scrape succeeded and the run row was stored. |
| ServerStream.PagesBound | server.js:58 | After `Number(pages \|\| 1)` in the handler and `pages \|\| 1` in `scrape`, an absent or zero `pages` means one page and any other number is the bound itself; the bound is never 0. |
| ServerStream.SendAll | server.js:53-55 | Sending frames in turn writes their concatenated text, or nothing on a broken connection. |
| ServerStream.ScrapeStream | server.js:37-101 | Without a URL the reply is 400 'URL required', and no stream is opened or written, and the heartbeat is not started. Otherwise the stream is opened and carries the scrape's progress frames, then its terminal frame. The heartbeat is then cleared and the response ended. |
| ServerStream.StreamReadBack | server.js:53-99 | The browser reads back one `progress` callback per progress event, in order, carrying that event's `{message, pct}` unchanged, then exactly one terminal callback, with nothing left over. The terminal callback is `done` exactly when the scrape succeeded and the run row was stored, and `error` otherwise. |
| ServerStream.StreamEventNames | server.js:54-97 | Every frame of a scrape stream carries an event name that the reader gets back unchanged. |
| ServerStream.NoParserStream | server.js:96-97 | A URL without a parser streams a single `error` frame naming that, with no progress frame before it. |
| ServerStream.FailedFetchStream | server.js:96-97 | A failed fetch ends the stream with 'Fetch failed: <error>' at 0%, then the `error` frame with the same message, or 'Scrape failed' when that message is empty. |
| ServerStream.CompletedStream | server.js:92 | A successful scrape whose run row was stored ends with `done`. It carries the run id, the CSV path, 'Scrape complete' and the item count of all pages together. |
| ServerRoutes.OffsetWindows | server.js:115-117 | `page` defaults to 1 and `per_page` to 25, so the default offset is 0. For page ≥ 1 the offset is (page−1)·per_page ≥ 0, and consecutive pages are consecutive windows. |
| ServerRoutes.PageOf | server.js:115 | `Number(req.query.page \|\| 1)`: 1 when absent or empty. OffsetWindows states the defaults. |
| ServerRoutes.PerPageOf | server.js:116 | `Number(req.query.per_page \|\| 25)`: 25 when absent or empty. OffsetWindows states the defaults. |
| ServerRoutes.Offset | server.js:117 | `(page - 1) * per_page`. OffsetWindows and PagesDisjoint prove the windows it selects. |
| ServerRoutes.PagesDisjoint | server.js:117 | Two different pages of a positive size share no row. |
| ServerRoutes.BuildWhere | server.js:119-137 | The `where` string and the `params` list are built step by step. `where` is the run-id condition followed by one condition per present filter. `params` is the id followed by one parameter per present filter, in the same order. |
| ServerRoutes.Step | server.js:122-137 | One filter applied keeps `where` and `params` in step with the filters applied so far. |
| ServerRoutes.PresentMembers | server.js:122-134 | A filter contributes exactly when its query value is non-empty. |
| ServerRoutes.PresentInOrder | server.js:122-137 | The applied filters are, in this order, search, price_min, price_max and availability, each one only when its value is non-empty. |
| ServerRoutes.WherePlaceholders | server.js:119-137 | The WHERE clause holds exactly as many `?` as `params` has entries: one for the run id and one condition and one parameter per applied filter. A filter is applied iff its value is present. |
| ServerRoutes.SortColumn | server.js:140-141 | The ORDER BY column is always one of title, price_num, availability, category or id. |
| ServerRoutes.SortColumnChoice | server.js:140-141 | A whitelisted column is used as given. Anything else sorts by id. |
| ServerRoutes.SortOrder | server.js:142 | The direction is always ASC or DESC. |
| ServerRoutes.SortOrderAscending | server.js:142 | The direction is ASC exactly when `sortOrder` upper-cases to 'ASC', that is, for the three letters a, s, c in any case, with the long s for s. |
| ServerRoutes.RunItemsQuery | server.js:113-146 | The item query's `?` count equals its parameter count. The parameters start with the run id and end with per_page and the offset. |
| ServerRoutes.SqlPlaceholders | server.js:144 | The statement around the WHERE clause adds exactly two placeholders. |
| ServerRoutes.KeepTruthy | server.js:201 | `.filter(Boolean)` on numbers keeps exactly the non-zero numbers, with NaN and 0 dropped. |
| ServerRoutes.KeepTruthyAppend | server.js:201 | Filtering keeps the request order of the ids. |
| ServerRoutes.DeleteRuns | server.js:200-204 | `DELETE /api/delete-runs` up to its SELECT: 400 'No ids', or the query with one placeholder per kept id. DeleteRunsRejects and DeleteRunsQuery state when and how. |
| ServerRoutes.DeleteRunsRejects | server.js:201-202 | The reply is 400 'No ids' exactly when `ids` is not an array or holds no non-zero number. |
| ServerRoutes.DeleteRunsQuery | server.js:201-204 | Otherwise the SELECT binds exactly the non-zero ids in order, with one `?` per id. |
| ServerRoutes.PlaceholdersCount | server.js:203 | The placeholder list has one `?` per id and length 2n−1. |
| ServerRoutes.PlaceholdersAlternate | server.js:203 | The placeholder list alternates `?` and `,`, starting and ending with `?`. |
| ServerRoutes.FormatFor | server.js:164-192 | Only csv, xlsx and pdf select an output format, and the format's extension is its name. |
| ServerRoutes.Export | server.js:156-197 | `GET /api/export/:id` as a result: 500 'DB error', 404 'No items', 400 'Unsupported format', or the attachment with its name and content type. ExportDispatch and ExportFormatCase state each case. |
| ServerRoutes.ExportDispatch | server.js:158-192 | Export produces a file iff the query succeeded, the run has rows, and the lower-cased format is csv, xlsx or pdf. The file is `run_<id>.<format>`. A failed query is a 500 'DB error', an empty run a 404 'No items', and any other format a 400 'Unsupported format'. |
| ServerRoutes.ExportFormatCase | server.js:158 | The format is case-insensitive, and an absent one means csv. |
| Client.EscapeHtmlSpec | script.js:83 | `escapeHtml` returns '' exactly for '' and never emits `<` or `>`. Its output decodes back to the input. |
| Client.EscapeHtml | script.js:83 | '' for a falsy text, otherwise the three `replaceAll` calls in the source's order. EscapeHtmlSpec states what it guarantees. |
| Client.EscapeHtmlPerChar | script.js:83 | The three `replaceAll` calls, `&` first, escape each character on its own. |
| Client.UnescapeEscaped | script.js:83 | Decoding the character-by-character escape gives back the text. |
| Client.TotalPagesSpec | script.js:258 | There is at least one page; an empty result has exactly one. Otherwise the page count is the fewest pages that hold all items. |
| Client.TotalPages | script.js:258 | `Math.max(1, Math.ceil(totalItems / perPage))` on whole numbers. TotalPagesSpec states what it guarantees. |
| Client.ShowStart | script.js:282 | `((currentPage - 1) * perPage) + 1`. ShowRange relates it to the server's offset. |
| Client.ShowEnd | script.js:283 | `Math.min(totalItems, currentPage * perPage)`. ShowRange bounds it. |
| Client.ShowRange | script.js:282-283 | For a page in range, "showing x to y" are the 1-based positions of its first and last rows. The first is one past the server's offset. When there are items the range is non-empty and within them; with no items the only page shows "1 to 0". Every page but the last is full. |
| Client.RenderPagination | script.js:287-305 | The buttons run from the window's first page to its last, the current one highlighted. Prev is disabled iff currentPage ≤ 1; next is disabled iff currentPage ≥ totalPages. |
| Client.Window | script.js:290-293 | The first and last page number of the window, with the start pulled back when fewer than seven fit. WindowShape states its shape. |
| Client.WindowShape | script.js:290-294 | For 1 ≤ currentPage ≤ totalPages, the window holds exactly min(7, totalPages) consecutive pages within [1, totalPages] and contains currentPage. |
| Client.Page.Prev | script.js:306 | The previous button moves back one page and reloads iff not on the first. It keeps the current page within [1, totalPages] and changes nothing else. |
| Client.Page.Next | script.js:307 | The next button moves on one page and reloads iff not on the last. It keeps the current page within [1, totalPages] and changes nothing else. |
| Client.Page.SetPerPage | script.js:308 | A new page size takes effect and the view goes back to page 1. |
| Client.Page.Loaded | script.js:257-258 | A loaded page records the server's total and sets the page count to max(1, ceil(total/perPage)). |
| Client.Page.OnStreamEvent | script.js:392-415 | On `progress`: a numeric `pct` moves the bar and a non-empty `message` is shown. On `done`: the bar is full, the message or 'Done' is shown, start is enabled and stop disabled. A non-zero run id then selects that run on page 1 with the selector's page size. On `error`: the message or 'Error' is shown and the buttons are reset. Any other event, `ping` included, changes nothing. |
| Client.NumberField | script.js:394 | A number is read only from a parsed object whose field holds a JSON number. |
| Client.TextField | script.js:395-411 | A message is read only from a parsed object whose field holds a non-empty string. |
| Client.RunIdField | script.js:401 | A run id is taken only when it is non-zero. |
| Client.ProgressShown | script.js:393-395 | A server `progress` payload moves the bar to its percentage and shows its message when that is non-empty. |
| Client.DoneShown | script.js:396-402 | A server `done` payload selects its run when the id is non-zero and shows 'Scrape complete'. |
| Client.ErrorShown | script.js:410-411 | A server `error` payload's message is shown when non-empty. |

## Left out

- The HTML extraction in each site's `parsePage` (cheerio selectors, books.js
  and quotes.js) is a parameter. It is a foreign DOM library. The
  `price_num` field is also left out, because it comes from `parseFloat`.
- Resolving the next link against the page URL and extracting the hostname in
  `getParser` are parameters: they are WHATWG URL parsing.
- The GET is a parameter: a deterministic function of the URL and the attempt
  number. axios, its 15 s timeout and the user-agent header are left out.
  Sleeps are recorded as values (the backoff list, the pause count), not as
  time.
- **Floating point:**
  - `Math.round` and `Math.ceil` are computed exactly on rationals.
  - `pages`, `page`, `per_page` and run ids are whole numbers: a fractional
    or NaN value of these is left out. The delete ids are the exception:
    there `Number(x)` may be NaN, which `.filter(Boolean)` drops.
  - Client.Page.Loaded requires a positive page size: a page size of 0, or a
    NaN from the selector, would make the JavaScript division infinite or NaN.
- `getParser` on hostnames that name inherited object properties (such as
  `constructor`) is left out. The table is a two-entry finite map.
- ServerRoutes.SortOrderAscending: `toUpperCase` is modelled for ASCII and
  for the two non-ASCII characters that upper-case to ASCII letters,
  dotless i and long s. Other non-ASCII case mappings are left out.
- **Storage and rendering:** SQLite, the item inserts, the CSV, Excel and
  PDF rendering, the 500 'Export failed' reply, the file unlinks and row deletions of a delete and its
  "Deleted N runs" reply are left out. These are storage and foreign
  libraries. The database's answers are parameters: the new run id or an
  insert failure, and the row count of an export.
- **Express and the heartbeat:** request routing and response headers are
  left out. So are the `setInterval` heartbeat's `ping` frames; the model
  records only whether the heartbeat is running.
- ServerStream.Response.SseSend: a write error is all-or-nothing per call.
  A connection that breaks between the two writes of one frame is not
  modelled.
- ServerStream.ScrapeStream: the progress frames are written after the
  scrape returns. In the server they are written as each event is emitted,
  which gives the same text in the same order. The interleaving in time is
  not modelled.
- **Browser I/O:** the DOM, toasts, `loadHistory`, `loadResultsPage`, charts,
  themes, `debounce`, the filter listeners and the fetch/ReadableStream loop
  that feeds `parseSSEChunk` are left out.
- Client.TextField, Client.NumberField and Client.RunIdField read only
  JSON strings and numbers. A truthy `message` or `runId` of another JSON
  type is treated as absent, although the browser would display or use it.
  The server never sends one.
- `JSON.stringify` and `JSON.parse` internals are left out. The model
  assumes only the laws of `Json.Lawful`.
- Query-string parameters given as arrays, and a request body that is not an
  object, are left out. A query value is a string, with "" meaning absent.
