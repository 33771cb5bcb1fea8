/**
 * The scrape pipeline of backend/scraper.js: the bounded-retry page fetch
 * (`fetchHtml`), the ordered parser registry (`parsers`, `chooseParser`) and
 * the pagination driver (`scrape`) with its progress events.
 *
 * The network and the HTML extraction are parameters: `Network` gives the
 * outcome of the GET attempt with a given index for a URL, and `PageParser`
 * stands for each site's `parsePage` (the cheerio extraction and the
 * resolution of the next-page link against the current URL).
 */
module Scraper {
  import opened Wrappers
  import opened Text

  type Url = string
  type Html = string

  /** The outcome of GET attempt number `i` (0-based) for a URL: the response
      body, or the message of the error the request throws. */
  type Network = (Url, nat) -> Result<Html, string>

  /** The retry budget `scrape` uses: `fetchHtml(current)` with `retries = 2`. */
  const DefaultRetries: nat := 2

  /** The wait, in milliseconds, after failed attempt `i` when another follows. */
  function BackoffMs(i: nat): nat {
    1000 * (i + 1)
  }

  /** The waits after the first `n` failed attempts: 1000, 2000, ..., 1000·n. */
  function Backoffs(n: nat): seq<nat> {
    if n == 0 then [] else Backoffs(n - 1) + [BackoffMs(n - 1)]
  }

  lemma {:induction false} BackoffsAt(n: nat)
    ensures |Backoffs(n)| == n
    ensures forall i :: 0 <= i < n ==> Backoffs(n)[i] == 1000 * (i + 1)
  {
    if n > 0 {
      BackoffsAt(n - 1);
    }
  }

  /** What one `fetchHtml` call does: its outcome, the number of GET attempts
      it made, and the waits it made between them, in order. */
  datatype Fetch = Fetch(result: Result<Html, string>, attempts: nat, waits: seq<nat>)

  /** The first attempt index in `from..last` whose GET succeeds. */
  function FirstSuccess(net: Network, url: Url, from: nat, last: nat): (r: Option<nat>)
    decreases last + 1 - from
    ensures r.Some? ==> from <= r.value <= last && net(url, r.value).Ok?
    ensures r.Some? ==> forall j :: from <= j < r.value ==> net(url, j).Err?
    ensures r.None? ==> forall j :: from <= j <= last ==> net(url, j).Err?
  {
    if from > last then None
    else if net(url, from).Ok? then Some(from)
    else FirstSuccess(net, url, from + 1, last)
  }

  /** The fetch a `fetchHtml(url, retries)` call performs. */
  function FetchSpec(net: Network, url: Url, retries: nat): Fetch {
    match FirstSuccess(net, url, 0, retries)
    case Some(i) => Fetch(net(url, i), i + 1, Backoffs(i))
    case None => Fetch(net(url, retries), retries + 1, Backoffs(retries))
  }

  /**
   * The retry policy: at most `retries + 1` attempts; the result is that of
   * the last attempt made, which is the first successful one when there is
   * one (nothing is tried after it) and otherwise the last allowed one, whose
   * error is rethrown; every attempt before the last failed and was followed
   * by a wait of 1000·(i+1) ms, and the last attempt is followed by none.
   */
  lemma FetchPolicy(net: Network, url: Url, retries: nat)
    ensures 1 <= FetchSpec(net, url, retries).attempts <= retries + 1
    ensures FetchSpec(net, url, retries).result == net(url, FetchSpec(net, url, retries).attempts - 1)
    ensures forall j :: 0 <= j < FetchSpec(net, url, retries).attempts - 1 ==> net(url, j).Err?
    ensures FetchSpec(net, url, retries).result.Ok? <==> exists i :: 0 <= i <= retries && net(url, i).Ok?
    ensures FetchSpec(net, url, retries).result.Err? ==> FetchSpec(net, url, retries).attempts == retries + 1
    ensures |FetchSpec(net, url, retries).waits| == FetchSpec(net, url, retries).attempts - 1
    ensures forall i :: 0 <= i < |FetchSpec(net, url, retries).waits| ==>
              FetchSpec(net, url, retries).waits[i] == 1000 * (i + 1)
  {
    var f := FetchSpec(net, url, retries);
    BackoffsAt(f.attempts - 1);
    var first := FirstSuccess(net, url, 0, retries);
    if first.Some? {
      assert net(url, first.value).Ok?;
    }
  }

  /** `fetchHtml(url, retries)`: the `for` loop over attempts with an early
      return on success and a rethrow after the last failure. */
  method FetchHtml(net: Network, url: Url, retries: nat) returns (f: Fetch)
    ensures f == FetchSpec(net, url, retries)
  {
    var waits: seq<nat> := [];
    var i: nat := 0;
    while true
      invariant i <= retries
      invariant waits == Backoffs(i)
      invariant FirstSuccess(net, url, 0, retries) == FirstSuccess(net, url, i, retries)
      decreases retries - i
    {
      var r := net(url, i);
      if r.Ok? || i == retries {
        return Fetch(r, i + 1, waits);
      }
      waits := waits + [BackoffMs(i)];
      i := i + 1;
    }
  }

  // ---------------------------------------------------------------------
  // Parser registry

  /** The keys of the `parsers` object. */
  datatype Site = Books | Quotes

  /** `Object.keys(parsers)`: the order `chooseParser` tries them in. */
  const Registry: seq<Site> := [Books, Quotes]

  /** The text each site's `match` looks for in the URL. */
  function Pattern(site: Site): string {
    match site
    case Books => "books.toscrape.com"
    case Quotes => "quotes.toscrape.com"
  }

  /** `parsers[site].match(url)`: substring containment anywhere in the URL. */
  predicate Matches(site: Site, url: Url) {
    Includes(url, Pattern(site))
  }

  /** The index of the first site of `sites` at or after `from` that
      `accepts`, or `|sites|` when none does. */
  function MatchIndex(sites: seq<Site>, accepts: Site -> bool, from: nat): (r: nat)
    requires from <= |sites|
    decreases |sites| - from
    ensures from <= r <= |sites|
    ensures r < |sites| ==> accepts(sites[r])
    ensures forall j :: from <= j < r ==> !accepts(sites[j])
  {
    if from == |sites| || accepts(sites[from]) then from
    else MatchIndex(sites, accepts, from + 1)
  }

  /** The parser `chooseParser` picks: the first registered site that accepts
      the URL, or none. */
  function Choose(url: Url): Option<Site> {
    var i := MatchIndex(Registry, site => Matches(site, url), 0);
    if i < |Registry| then Some(Registry[i]) else None
  }

  /** `chooseParser(url)`: a linear search over the registry in key order. */
  method ChooseParser(url: Url) returns (r: Option<Site>)
    ensures r == Choose(url)
    ensures r.Some? ==> Matches(r.value, url)
    ensures r.None? <==> forall k :: 0 <= k < |Registry| ==> !Matches(Registry[k], url)
  {
    for i := 0 to |Registry|
      invariant MatchIndex(Registry, site => Matches(site, url), 0) == MatchIndex(Registry, site => Matches(site, url), i)
    {
      if Matches(Registry[i], url) {
        return Some(Registry[i]);
      }
    }
    return None;
  }

  /** Books is tried first: a URL mentioning both sites is handed to the books parser. */
  lemma BooksFirst(url: Url)
    ensures Matches(Books, url) ==> Choose(url) == Some(Books)
    ensures !Matches(Books, url) && Matches(Quotes, url) ==> Choose(url) == Some(Quotes)
    ensures !Matches(Books, url) && !Matches(Quotes, url) ==> Choose(url) == None
  {
    assert Registry[0] == Books && Registry[1] == Quotes;
  }

  // ---------------------------------------------------------------------
  // Pagination driver

  /** One extracted record. `price_num` is left out: it is a floating-point
      conversion of `price`. */
  datatype Item = Item(title: string, price: string, availability: string, category: string, formattedHtml: string)

  /** What `parsePage(html, baseUrl)` returns; `next` is "" where the source has null. */
  datatype Page = Page(items: seq<Item>, next: Url)

  /** Each site's `parsePage`. */
  type PageParser = (Site, Html, Url) -> Page

  /** The object `{message, pct}` passed to the progress callback. */
  datatype Progress = Progress(message: string, pct: int)

  /** `progressCallback`: absent or not a function, or a function, which on
      each event it is handed either returns or throws (`throws`). */
  datatype Sink = NoCallback | Callback(throws: Progress -> bool)

  /** One iteration of the driver's loop. */
  datatype Step =
    | Parsed(url: Url, fetch: Fetch, page: Page)
    | FetchFailed(url: Url, fetch: Fetch, message: string)

  const NoParserMessage: string := "No parser available for this site"

  /** `pages || 1`. */
  function PageBound(pages: int): int {
    if pages == 0 then 1 else pages
  }

  /** `⌊x / d⌋`, by repeated subtraction. */
  function FloorDiv(x: nat, d: nat): nat
    requires d > 0
    decreases x
  {
    if x < d then 0 else 1 + FloorDiv(x - d, d)
  }

  lemma {:induction false} FloorDivBounds(x: nat, d: nat)
    requires d > 0
    ensures d * FloorDiv(x, d) <= x < d * FloorDiv(x, d) + d
    decreases x
  {
    if x >= d {
      FloorDivBounds(x - d, d);
      assert d * FloorDiv(x, d) == d + d * FloorDiv(x - d, d);
    }
  }

  /** `Math.round(a / b)` for an exact quotient: `⌊a / b + 1/2⌋`. */
  function RoundDiv(a: nat, b: nat): nat
    requires b > 0
  {
    FloorDiv(2 * a + b, 2 * b)
  }

  /** Rounding gives the nearest integer, halves rounded up. */
  lemma RoundDivSpec(a: nat, b: nat)
    requires b > 0
    ensures b * (2 * RoundDiv(a, b) - 1) <= 2 * a < b * (2 * RoundDiv(a, b) + 1)
  {
    FloorDivBounds(2 * a + b, 2 * b);
  }

  lemma MulMonotone(b: int, x: int, y: int)
    requires b > 0 && x <= y
    ensures b * x <= b * y
  {
    assert b * y == b * x + b * (y - x);
  }

  /** Rounding is determined by the interval the quotient lies in. */
  lemma RoundDivUnique(a: nat, b: nat, r: int)
    requires b > 0 && b * (2 * r - 1) <= 2 * a < b * (2 * r + 1)
    ensures RoundDiv(a, b) == r
  {
    var q := RoundDiv(a, b);
    RoundDivSpec(a, b);
    if q < r {
      MulMonotone(b, 2 * q + 1, 2 * r - 1);
    } else if q > r {
      MulMonotone(b, 2 * r + 1, 2 * q - 1);
    }
  }

  lemma RoundDivMonotone(a1: nat, a2: nat, b: nat)
    requires b > 0 && a1 <= a2
    ensures RoundDiv(a1, b) <= RoundDiv(a2, b)
  {
    var q1 := RoundDiv(a1, b);
    var q2 := RoundDiv(a2, b);
    RoundDivSpec(a1, b);
    RoundDivSpec(a2, b);
    if q2 < q1 {
      MulMonotone(b, 2 * q2 + 1, 2 * q1 - 1);
    }
  }

  /** The fetch event's percentage for page `n` of `bound`: `round((n-1)/bound·40)`. */
  function FetchPct(n: nat, bound: nat): nat
    requires n >= 1 && bound > 0
  {
    RoundDiv(40 * (n - 1), bound)
  }

  /** The parse event's percentage for page `n` of `bound`: `min(95, round(n/bound·90))`. */
  function ParsePct(n: nat, bound: nat): nat
    requires bound > 0
  {
    var p := RoundDiv(90 * n, bound);
    if p < 95 then p else 95
  }

  /** The two percentages stay within their phases for every page the loop can reach. */
  lemma PctBounds(n: nat, bound: nat)
    requires 1 <= n <= bound
    ensures 0 <= FetchPct(n, bound) <= 40
    ensures 0 <= ParsePct(n, bound) <= 90
  {
    RoundDivMonotone(0, 40 * (n - 1), bound);
    RoundDivMonotone(40 * (n - 1), 40 * bound, bound);
    RoundDivUnique(40 * bound, bound, 40);
    RoundDivUnique(0, bound, 0);
    RoundDivMonotone(0, 90 * n, bound);
    RoundDivMonotone(90 * n, 90 * bound, bound);
    RoundDivUnique(90 * bound, bound, 90);
  }

  /**
   * Progress is not monotone across pages: the fetch event of page n+1 never
   * shows more than the parse event of page n before it, and with at most 50
   * pages it shows strictly less.
   */
  lemma ProgressFallsBetweenPages(n: nat, bound: nat)
    requires 1 <= n < bound
    ensures FetchPct(n + 1, bound) <= ParsePct(n, bound)
    ensures bound <= 50 ==> FetchPct(n + 1, bound) < ParsePct(n, bound)
  {
    PctBounds(n, bound);
    RoundDivMonotone(40 * n, 90 * n, bound);
    if bound <= 50 {
      var q1 := RoundDiv(40 * n, bound);
      var q2 := RoundDiv(90 * n, bound);
      assert 90 * n - 40 * n >= bound;
      RoundDivSpec(40 * n, bound);
      RoundDivSpec(90 * n, bound);
      if q2 <= q1 {
        MulMonotone(bound, 2 * q2 - 1, 2 * q1 - 1);
      }
    }
  }

  /** Three pages that all succeed and all link onwards show 0, 30, 13, 60, 27, 90. */
  lemma ThreePageProgress()
    ensures [FetchPct(1, 3), ParsePct(1, 3), FetchPct(2, 3), ParsePct(2, 3), FetchPct(3, 3), ParsePct(3, 3)]
            == [0, 30, 13, 60, 27, 90]
  {
    RoundDivUnique(0, 3, 0);
    RoundDivUnique(90, 3, 30);
    RoundDivUnique(40, 3, 13);
    RoundDivUnique(180, 3, 60);
    RoundDivUnique(80, 3, 27);
    RoundDivUnique(270, 3, 90);
  }

  function FetchingEvent(n: nat, bound: int): Progress
    requires n >= 1 && bound > 0
  {
    Progress("Fetching page " + NatToString(n) + "...", FetchPct(n, bound))
  }

  function FetchedEvent(count: nat, n: nat, bound: int): Progress
    requires bound > 0
  {
    Progress("Fetched " + NatToString(count) + " items", ParsePct(n, bound))
  }

  function FailedEvent(message: string): Progress {
    Progress("Fetch failed: " + message, 0)
  }

  /**
   * The pages the driver visits from `url` when `done` pages are behind it:
   * the loop runs while the cursor is non-empty and fewer than `bound` pages
   * were fetched, stops after a page without a next link, and stops at the
   * first fetch that fails.
   */
  function Walk(net: Network, parse: PageParser, site: Site, bound: int, url: Url, done: nat): (steps: seq<Step>)
    decreases if done < bound then bound - done else 0
  {
    if url == "" || done >= bound then []
    else
      var f := FetchSpec(net, url, DefaultRetries);
      match f.result
      case Err(e) => [FetchFailed(url, f, e)]
      case Ok(html) =>
        var p := parse(site, html, url);
        [Parsed(url, f, p)] + Walk(net, parse, site, bound, p.next, done + 1)
  }

  /**
   * How far a walk goes: at most `bound - done` pages, at least one exactly
   * when the cursor is set and the bound not reached, and it ends on a page
   * with a next link only when the bound is reached.
   */
  lemma {:induction false} WalkLength(net: Network, parse: PageParser, site: Site, bound: int, url: Url, done: nat)
    decreases if done < bound then bound - done else 0
    ensures var steps := Walk(net, parse, site, bound, url, done);
      && |steps| <= (if done < bound then bound - done else 0)
      && (url != "" && done < bound <==> |steps| > 0)
      && (|steps| > 0 && steps[|steps| - 1].Parsed? && steps[|steps| - 1].page.next != "" ==>
            |steps| == bound - done)
  {
    if url != "" && done < bound {
      var f := FetchSpec(net, url, DefaultRetries);
      if f.result.Ok? {
        var p := parse(site, f.result.value, url);
        WalkLength(net, parse, site, bound, p.next, done + 1);
        var rest := Walk(net, parse, site, bound, p.next, done + 1);
        assert Walk(net, parse, site, bound, url, done) == [Parsed(url, f, p)] + rest;
      }
    }
  }

  /** The pages start at `url`, and each page but the last was parsed and
      links onwards to the page after it. */
  predicate Chained(steps: seq<Step>, url: Url) {
    && (|steps| > 0 ==> steps[0].url == url)
    && forall k :: 0 <= k < |steps| - 1 ==>
         steps[k].Parsed? && steps[k].page.next != "" && steps[k + 1].url == steps[k].page.next
  }

  /** Every page was fetched with the default retry budget; a fetched page
      was parsed with the site's parser; a failed fetch records its error. */
  predicate Visited(net: Network, parse: PageParser, site: Site, steps: seq<Step>) {
    forall k :: 0 <= k < |steps| ==>
      && steps[k].fetch == FetchSpec(net, steps[k].url, DefaultRetries)
      && (steps[k].Parsed? ==>
            steps[k].fetch.result.Ok? && steps[k].page == parse(site, steps[k].fetch.result.value, steps[k].url))
      && (steps[k].FetchFailed? ==> steps[k].fetch.result == Err(steps[k].message))
  }

  /** How a walk proceeds: it starts at `url` and follows the next links. */
  lemma {:induction false} WalkLinks(net: Network, parse: PageParser, site: Site, bound: int, url: Url, done: nat)
    decreases if done < bound then bound - done else 0
    ensures Chained(Walk(net, parse, site, bound, url, done), url)
  {
    if url != "" && done < bound {
      var f := FetchSpec(net, url, DefaultRetries);
      if f.result.Ok? {
        var p := parse(site, f.result.value, url);
        WalkLinks(net, parse, site, bound, p.next, done + 1);
        var rest := Walk(net, parse, site, bound, p.next, done + 1);
        var steps := [Parsed(url, f, p)] + rest;
        assert Walk(net, parse, site, bound, url, done) == steps;
        assert forall k :: 1 <= k < |steps| ==> steps[k] == rest[k - 1];
      }
    }
  }

  /** What a walk does at each page: fetch it, then parse it or record the failure. */
  lemma {:induction false} WalkVisits(net: Network, parse: PageParser, site: Site, bound: int, url: Url, done: nat)
    decreases if done < bound then bound - done else 0
    ensures Visited(net, parse, site, Walk(net, parse, site, bound, url, done))
  {
    if url != "" && done < bound {
      var f := FetchSpec(net, url, DefaultRetries);
      if f.result.Ok? {
        var p := parse(site, f.result.value, url);
        WalkVisits(net, parse, site, bound, p.next, done + 1);
        var rest := Walk(net, parse, site, bound, p.next, done + 1);
        var steps := [Parsed(url, f, p)] + rest;
        assert Walk(net, parse, site, bound, url, done) == steps;
        assert forall k :: 1 <= k < |steps| ==> steps[k] == rest[k - 1];
      }
    }
  }

  /** The items of the parsed pages, concatenated in fetch order. */
  function ItemsOf(steps: seq<Step>): seq<Item> {
    if |steps| == 0 then []
    else
      var last := steps[|steps| - 1];
      ItemsOf(steps[..|steps| - 1]) + (if last.Parsed? then last.page.items else [])
  }

  /** The progress events of the steps, two per page: the fetch event, then
      the count of items or the fetch failure. */
  function EventsOf(steps: seq<Step>, bound: int): seq<Progress>
    requires |steps| == 0 || bound > 0
  {
    if |steps| == 0 then []
    else
      var n := |steps|;
      var last := steps[n - 1];
      EventsOf(steps[..n - 1], bound)
        + [FetchingEvent(n, bound)]
        + (if last.Parsed? then [FetchedEvent(|last.page.items|, n, bound)]
           else [FailedEvent(last.message)])
  }

  /** The 150 ms pauses: one after every parsed page that links onwards. */
  function PausesOf(steps: seq<Step>): nat {
    if |steps| == 0 then 0
    else
      var last := steps[|steps| - 1];
      PausesOf(steps[..|steps| - 1]) + (if last.Parsed? && last.page.next != "" then 1 else 0)
  }

  /** What one `scrape(url, pages, cb)` call does: its result (the items, or
      the message of the error it throws), the progress events it emits, the
      pages it visits and the number of 150 ms pauses it makes. */
  datatype Run = Run(result: Result<seq<Item>, string>, events: seq<Progress>, steps: seq<Step>, pauses: nat)

  function RunOf(steps: seq<Step>, bound: int): Run
    requires |steps| == 0 || bound > 0
  {
    var failed := |steps| > 0 && steps[|steps| - 1].FetchFailed?;
    Run(if failed then Err(steps[|steps| - 1].message) else Ok(ItemsOf(steps)),
        EventsOf(steps, bound), steps, PausesOf(steps))
  }

  function ScrapeSpec(net: Network, parse: PageParser, url: Url, pages: int): Run {
    match Choose(url)
    case None => Run(Err(NoParserMessage), [], [], 0)
    case Some(site) =>
      var bound := PageBound(pages);
      RunOf(Walk(net, parse, site, bound, url, 0), bound)
  }

  /** A visit whose fetch fails ends the walk. */
  lemma WalkStopsOnFailure(net: Network, parse: PageParser, site: Site, bound: int, url: Url, done: nat)
    requires url != "" && done < bound && FetchSpec(net, url, DefaultRetries).result.Err?
    ensures var f := FetchSpec(net, url, DefaultRetries);
            Walk(net, parse, site, bound, url, done) == [FetchFailed(url, f, f.result.error)]
  {
  }

  /** A visit whose fetch succeeds is followed by the walk from the page's next link. */
  lemma WalkContinues(net: Network, parse: PageParser, site: Site, bound: int, url: Url, done: nat)
    requires url != "" && done < bound && FetchSpec(net, url, DefaultRetries).result.Ok?
    ensures var f := FetchSpec(net, url, DefaultRetries);
            var p := parse(site, f.result.value, url);
            Walk(net, parse, site, bound, url, done) == [Parsed(url, f, p)] + Walk(net, parse, site, bound, p.next, done + 1)
  {
  }

  /** The driver's running totals agree with the pages visited so far. */
  ghost predicate Accounted(steps: seq<Step>, bound: int, items: seq<Item>, events: seq<Progress>, pauses: nat) {
    && (|steps| == 0 || bound > 0)
    && items == ItemsOf(steps)
    && events == EventsOf(steps, bound)
    && pauses == PausesOf(steps)
  }

  /** A parsed page adds its items, its two events and, when it links onwards, a pause. */
  lemma AccountParsed(steps: seq<Step>, s: Step, bound: int, items: seq<Item>, events: seq<Progress>, pauses: nat)
    requires Accounted(steps, bound, items, events, pauses)
    requires s.Parsed? && bound > 0
    ensures Accounted(steps + [s], bound, items + s.page.items,
                      events + [FetchingEvent(|steps| + 1, bound)] + [FetchedEvent(|s.page.items|, |steps| + 1, bound)],
                      pauses + (if s.page.next != "" then 1 else 0))
  {
    assert (steps + [s])[..|steps|] == steps;
  }

  /** A failed fetch ends the run with its error, after its two events. */
  lemma AccountFailed(steps: seq<Step>, s: Step, bound: int, items: seq<Item>, events: seq<Progress>, pauses: nat)
    requires Accounted(steps, bound, items, events, pauses)
    requires s.FetchFailed? && bound > 0
    ensures RunOf(steps + [s], bound)
            == Run(Err(s.message),
                   events + [FetchingEvent(|steps| + 1, bound)] + [FailedEvent(s.message)],
                   steps + [s], pauses)
  {
    assert (steps + [s])[..|steps|] == steps;
  }

  /** A run that ends without a failed fetch returns the items gathered. */
  lemma AccountDone(steps: seq<Step>, bound: int, items: seq<Item>, events: seq<Progress>, pauses: nat)
    requires Accounted(steps, bound, items, events, pauses)
    requires |steps| == 0 || steps[|steps| - 1].Parsed?
    ensures RunOf(steps, bound) == Run(Ok(items), events, steps, pauses)
  {
  }

  /**
   * The driver's loop as a tail-recursive function of its state (cursor,
   * pages fetched, pages visited, items, events, pauses): the run it ends
   * with.
   */
  ghost function Drive(net: Network, parse: PageParser, site: Site, bound: int, current: Url, pageCount: nat,
                       steps: seq<Step>, items: seq<Item>, events: seq<Progress>, pauses: nat): Run
    decreases if pageCount < bound then bound - pageCount else 0
  {
    if current == "" || pageCount >= bound then Run(Ok(items), events, steps, pauses)
    else
      var f := FetchSpec(net, current, DefaultRetries);
      var fetching := events + [FetchingEvent(pageCount + 1, bound)];
      match f.result
      case Err(e) => Run(Err(e), fetching + [FailedEvent(e)], steps + [FetchFailed(current, f, e)], pauses)
      case Ok(html) =>
        var page := parse(site, html, current);
        var steps' := steps + [Parsed(current, f, page)];
        var events' := fetching + [FetchedEvent(|page.items|, pageCount + 1, bound)];
        if page.next == "" then Run(Ok(items + page.items), events', steps', pauses)
        else Drive(net, parse, site, bound, page.next, pageCount + 1, steps', items + page.items, events', pauses + 1)
  }

  /** A state where the loop does not run again: the run is what was gathered. */
  lemma DriveStopped(net: Network, parse: PageParser, site: Site, bound: int, current: Url,
                     steps: seq<Step>, items: seq<Item>, events: seq<Progress>, pauses: nat)
    requires Accounted(steps, bound, items, events, pauses)
    requires |steps| == 0 || steps[|steps| - 1].Parsed?
    requires current == "" || |steps| >= bound
    ensures Drive(net, parse, site, bound, current, |steps|, steps, items, events, pauses)
            == RunOf(steps + Walk(net, parse, site, bound, current, |steps|), bound)
  {
    assert steps + Walk(net, parse, site, bound, current, |steps|) == steps;
    AccountDone(steps, bound, items, events, pauses);
  }

  /** A state whose next fetch fails: the run ends with that failure. */
  lemma DriveFails(net: Network, parse: PageParser, site: Site, bound: int, current: Url,
                   steps: seq<Step>, items: seq<Item>, events: seq<Progress>, pauses: nat)
    requires Accounted(steps, bound, items, events, pauses)
    requires current != "" && |steps| < bound && FetchSpec(net, current, DefaultRetries).result.Err?
    ensures Drive(net, parse, site, bound, current, |steps|, steps, items, events, pauses)
            == RunOf(steps + Walk(net, parse, site, bound, current, |steps|), bound)
  {
    var f := FetchSpec(net, current, DefaultRetries);
    WalkStopsOnFailure(net, parse, site, bound, current, |steps|);
    AccountFailed(steps, FetchFailed(current, f, f.result.error), bound, items, events, pauses);
  }

  /** A state whose next page is fetched and parsed: the totals that follow. */
  lemma DriveParses(net: Network, parse: PageParser, site: Site, bound: int, current: Url,
                    steps: seq<Step>, items: seq<Item>, events: seq<Progress>, pauses: nat)
    requires Accounted(steps, bound, items, events, pauses)
    requires current != "" && |steps| < bound && FetchSpec(net, current, DefaultRetries).result.Ok?
    ensures var f := FetchSpec(net, current, DefaultRetries);
            var page := parse(site, f.result.value, current);
            var steps' := steps + [Parsed(current, f, page)];
            && Accounted(steps', bound, items + page.items,
                         events + [FetchingEvent(|steps| + 1, bound)] + [FetchedEvent(|page.items|, |steps| + 1, bound)],
                         pauses + (if page.next != "" then 1 else 0))
            && steps + Walk(net, parse, site, bound, current, |steps|)
               == steps' + Walk(net, parse, site, bound, page.next, |steps'|)
  {
    var f := FetchSpec(net, current, DefaultRetries);
    var page := parse(site, f.result.value, current);
    var step := Parsed(current, f, page);
    var rest := Walk(net, parse, site, bound, page.next, |steps| + 1);
    WalkContinues(net, parse, site, bound, current, |steps|);
    AppendAssociative(steps, [step], rest);
    AccountParsed(steps, step, bound, items, events, pauses);
  }

  /** A state whose next page is parsed and has no next link: the run ends with that page. */
  lemma DriveLastPage(net: Network, parse: PageParser, site: Site, bound: int, current: Url,
                      steps: seq<Step>, items: seq<Item>, events: seq<Progress>, pauses: nat)
    requires Accounted(steps, bound, items, events, pauses)
    requires current != "" && |steps| < bound && FetchSpec(net, current, DefaultRetries).result.Ok?
    requires parse(site, FetchSpec(net, current, DefaultRetries).result.value, current).next == ""
    ensures Drive(net, parse, site, bound, current, |steps|, steps, items, events, pauses)
            == RunOf(steps + Walk(net, parse, site, bound, current, |steps|), bound)
  {
    var f := FetchSpec(net, current, DefaultRetries);
    var page := parse(site, f.result.value, current);
    var steps' := steps + [Parsed(current, f, page)];
    var events' := events + [FetchingEvent(|steps| + 1, bound)] + [FetchedEvent(|page.items|, |steps| + 1, bound)];
    DriveParses(net, parse, site, bound, current, steps, items, events, pauses);
    DriveStopped(net, parse, site, bound, page.next, steps', items + page.items, events', pauses);
  }

  /** A state whose next page is parsed and links onwards: the loop goes on from that link. */
  lemma DriveNextPage(net: Network, parse: PageParser, site: Site, bound: int, current: Url,
                      steps: seq<Step>, items: seq<Item>, events: seq<Progress>, pauses: nat)
    requires current != "" && |steps| < bound && FetchSpec(net, current, DefaultRetries).result.Ok?
    requires parse(site, FetchSpec(net, current, DefaultRetries).result.value, current).next != ""
    ensures var f := FetchSpec(net, current, DefaultRetries);
            var page := parse(site, f.result.value, current);
            Drive(net, parse, site, bound, current, |steps|, steps, items, events, pauses)
            == Drive(net, parse, site, bound, page.next, |steps| + 1, steps + [Parsed(current, f, page)], items + page.items,
                     events + [FetchingEvent(|steps| + 1, bound)] + [FetchedEvent(|page.items|, |steps| + 1, bound)],
                     pauses + 1)
  {
  }

  /** From any state whose totals agree with the pages visited, the loop ends
      with the run of those pages followed by the rest of the walk. */
  lemma {:induction false} DriveFollowsWalk(net: Network, parse: PageParser, site: Site, bound: int, current: Url,
                                            steps: seq<Step>, items: seq<Item>, events: seq<Progress>, pauses: nat)
    requires Accounted(steps, bound, items, events, pauses)
    requires |steps| == 0 || steps[|steps| - 1].Parsed?
    decreases if |steps| < bound then bound - |steps| else 0
    ensures Drive(net, parse, site, bound, current, |steps|, steps, items, events, pauses)
            == RunOf(steps + Walk(net, parse, site, bound, current, |steps|), bound)
  {
    if current == "" || |steps| >= bound {
      DriveStopped(net, parse, site, bound, current, steps, items, events, pauses);
    } else if FetchSpec(net, current, DefaultRetries).result.Err? {
      DriveFails(net, parse, site, bound, current, steps, items, events, pauses);
    } else if parse(site, FetchSpec(net, current, DefaultRetries).result.value, current).next == "" {
      DriveLastPage(net, parse, site, bound, current, steps, items, events, pauses);
    } else {
      var f := FetchSpec(net, current, DefaultRetries);
      var page := parse(site, f.result.value, current);
      var steps' := steps + [Parsed(current, f, page)];
      var events' := events + [FetchingEvent(|steps| + 1, bound)] + [FetchedEvent(|page.items|, |steps| + 1, bound)];
      DriveParses(net, parse, site, bound, current, steps, items, events, pauses);
      DriveNextPage(net, parse, site, bound, current, steps, items, events, pauses);
      DriveFollowsWalk(net, parse, site, bound, page.next, steps', items + page.items, events', pauses + 1);
    }
  }

  lemma ScrapeSpecOf(net: Network, parse: PageParser, url: Url, pages: int, site: Site)
    requires Choose(url) == Some(site)
    ensures ScrapeSpec(net, parse, url, pages)
            == RunOf(Walk(net, parse, site, PageBound(pages), url, 0), PageBound(pages))
  {
  }

  /** `emit(message, pct)`: handed to the callback only when it is a function;
      a throw from the callback is caught and ignored, so the event counts as
      delivered either way and the driver carries on. */
  function Emit(sink: Sink, delivered: seq<Progress>, p: Progress): seq<Progress> {
    match sink
    case NoCallback => delivered
    case Callback(throws) =>
      if throws(p) then delivered + [p]  // caught and ignored
      else delivered + [p]
  }

  /**
   * `scrape(url, pages, progressCallback)`: choose the parser, then fetch
   * and parse page after page, emitting progress, until there is no next
   * link or `pages || 1` pages were fetched. `delivered` is what reached the
   * callback; the run itself does not depend on the callback at all.
   */
  method Scrape(net: Network, parse: PageParser, sink: Sink, url: Url, pages: int)
    returns (run: Run, delivered: seq<Progress>)
    ensures run == ScrapeSpec(net, parse, url, pages)
    ensures delivered == if sink.Callback? then run.events else []
  {
    var parser := ChooseParser(url);
    if parser.None? {
      return Run(Err(NoParserMessage), [], [], 0), [];
    }
    var site := parser.value;
    var bound := PageBound(pages);
    ghost var final := Drive(net, parse, site, bound, url, 0, [], [], [], 0);
    assert final == ScrapeSpec(net, parse, url, pages) by {
      DriveFollowsWalk(net, parse, site, bound, url, [], [], [], 0);
      assert [] + Walk(net, parse, site, bound, url, 0) == Walk(net, parse, site, bound, url, 0);
      ScrapeSpecOf(net, parse, url, pages, site);
    }

    var items: seq<Item> := [];
    var current := url;
    var pageCount: nat := 0;
    var events: seq<Progress> := [];
    var steps: seq<Step> := [];
    var pauses: nat := 0;
    delivered := [];

    while current != "" && pageCount < bound
      invariant Drive(net, parse, site, bound, current, pageCount, steps, items, events, pauses) == final
      invariant delivered == if sink.Callback? then events else []
      decreases bound - pageCount
    {
      var fetching := FetchingEvent(pageCount + 1, bound);
      events, delivered := events + [fetching], Emit(sink, delivered, fetching);
      var f := FetchHtml(net, current, DefaultRetries);
      if f.result.Err? {
        var failed := FailedEvent(f.result.error);
        events, delivered := events + [failed], Emit(sink, delivered, failed);
        return Run(Err(f.result.error), events, steps + [FetchFailed(current, f, f.result.error)], pauses), delivered;
      }
      var page := parse(site, f.result.value, current);
      items := items + page.items;
      var fetched := FetchedEvent(|page.items|, pageCount + 1, bound);
      events, delivered := events + [fetched], Emit(sink, delivered, fetched);
      steps := steps + [Parsed(current, f, page)];
      pageCount := pageCount + 1;
      current := page.next;
      if current == "" {
        break;
      }
      pauses := pauses + 1;
    }
    run := Run(Ok(items), events, steps, pauses);
  }

  // ---------------------------------------------------------------------
  // Properties of a scrape

  /** The second event of page `n`: its item count, or its fetch failure. */
  function OutcomeEvent(s: Step, n: nat, bound: int): Progress
    requires bound > 0
  {
    if s.Parsed? then FetchedEvent(|s.page.items|, n, bound) else FailedEvent(s.message)
  }

  /** Two events per visited page, in page order: the fetch event, then the outcome. */
  lemma {:induction false} EventsAt(steps: seq<Step>, bound: int)
    requires |steps| == 0 || bound > 0
    ensures |EventsOf(steps, bound)| == 2 * |steps|
    ensures forall k :: 0 <= k < |steps| ==>
              EventsOf(steps, bound)[2 * k] == FetchingEvent(k + 1, bound)
              && EventsOf(steps, bound)[2 * k + 1] == OutcomeEvent(steps[k], k + 1, bound)
  {
    if |steps| > 0 {
      var n := |steps|;
      var front := steps[..n - 1];
      EventsAt(front, bound);
      var e := EventsOf(steps, bound);
      assert e == EventsOf(front, bound) + [FetchingEvent(n, bound)] + [OutcomeEvent(steps[n - 1], n, bound)];
      forall k | 0 <= k < n
        ensures e[2 * k] == FetchingEvent(k + 1, bound) && e[2 * k + 1] == OutcomeEvent(steps[k], k + 1, bound)
      {
        if k < n - 1 {
          assert front[k] == steps[k];
        }
      }
    }
  }

  /** Items gathered over two stretches of pages are those of the first, then those of the second. */
  lemma {:induction false} ItemsOfConcat(a: seq<Step>, b: seq<Step>)
    ensures ItemsOf(a + b) == ItemsOf(a) + ItemsOf(b)
    decreases |b|
  {
    if |b| == 0 {
      assert a + b == a;
    } else {
      var n := |b|;
      ItemsOfConcat(a, b[..n - 1]);
      assert (a + b)[..|a + b| - 1] == a + b[..n - 1];
      assert (a + b)[|a + b| - 1] == b[n - 1];
    }
  }

  /** Without a parser nothing is fetched and nothing is emitted. */
  lemma NoParserRun(net: Network, parse: PageParser, url: Url, pages: int)
    requires forall k :: 0 <= k < |Registry| ==> !Matches(Registry[k], url)
    ensures ScrapeSpec(net, parse, url, pages) == Run(Err(NoParserMessage), [], [], 0)
  {
    assert MatchIndex(Registry, site => Matches(site, url), 0) == |Registry|;
  }

  /**
   * The pages of a scrape: at most `pages || 1` of them; the first is the
   * URL given; each further page is the next link of the page before, which
   * was parsed and had one; and the run stops short of the bound only after a
   * page without a next link or a failed fetch.
   */
  lemma ScrapePages(net: Network, parse: PageParser, url: Url, pages: int)
    ensures var r := ScrapeSpec(net, parse, url, pages);
      && |r.steps| <= (if PageBound(pages) > 0 then PageBound(pages) else 0)
      && (|r.steps| > 0 ==> r.steps[0].url == url)
      && (forall k :: 0 <= k < |r.steps| - 1 ==>
            r.steps[k].Parsed? && r.steps[k].page.next != "" && r.steps[k + 1].url == r.steps[k].page.next)
      && (0 < |r.steps| < PageBound(pages) ==>
            r.steps[|r.steps| - 1].FetchFailed? || r.steps[|r.steps| - 1].page.next == "")
  {
    match Choose(url)
    case None =>
    case Some(site) =>
      WalkLength(net, parse, site, PageBound(pages), url, 0);
      WalkLinks(net, parse, site, PageBound(pages), url, 0);
  }

  /** The percentages of the events of at most `bound` pages. */
  lemma EventPcts(steps: seq<Step>, bound: int)
    requires 0 < |steps| <= bound
    ensures |EventsOf(steps, bound)| == 2 * |steps|
    ensures forall i :: 0 <= i < |EventsOf(steps, bound)| ==> 0 <= EventsOf(steps, bound)[i].pct <= 90
    ensures forall k :: 0 <= k < |steps| ==> EventsOf(steps, bound)[2 * k].pct <= 40
  {
    EventsAt(steps, bound);
    var e := EventsOf(steps, bound);
    forall k | 0 <= k < |steps|
      ensures 0 <= e[2 * k].pct <= 40 && 0 <= e[2 * k + 1].pct <= 90
    {
      PctBounds(k + 1, bound);
    }
    forall i | 0 <= i < |e|
      ensures 0 <= e[i].pct <= 90
    {
      var k := i / 2;
      assert i == 2 * k || i == 2 * k + 1;
    }
  }

  /**
   * Every percentage a scrape reports lies in [0, 90], so it never reaches
   * 100; each page's fetch event reports at most 40, and a fetch failure
   * reports 0.
   */
  lemma ScrapeProgress(net: Network, parse: PageParser, url: Url, pages: int)
    ensures var r := ScrapeSpec(net, parse, url, pages);
      && |r.events| == 2 * |r.steps|
      && (forall i :: 0 <= i < |r.events| ==> 0 <= r.events[i].pct <= 90)
      && (forall k :: 0 <= k < |r.steps| ==> r.events[2 * k].pct <= 40)
      && (forall k :: 0 <= k < |r.steps| && r.steps[k].FetchFailed? ==>
            r.events[2 * k + 1] == Progress("Fetch failed: " + r.steps[k].message, 0))
  {
    match Choose(url)
    case None =>
    case Some(site) =>
      var bound := PageBound(pages);
      var steps := Walk(net, parse, site, bound, url, 0);
      WalkLength(net, parse, site, bound, url, 0);
      EventsAt(steps, bound);
      if |steps| > 0 {
        EventPcts(steps, bound);
      }
  }

  /** The outcome of a run over a chain of pages where only the last may have failed. */
  lemma RunOutcome(steps: seq<Step>, bound: int)
    requires |steps| == 0 || bound > 0
    requires forall k :: 0 <= k < |steps| - 1 ==> steps[k].Parsed?
    ensures var r := RunOf(steps, bound);
      && (r.result.Ok? <==> forall k :: 0 <= k < |steps| ==> steps[k].Parsed?)
      && (r.result.Ok? ==> r.result.value == ItemsOf(steps))
      && (r.result.Err? ==> |steps| > 0 && steps[|steps| - 1].FetchFailed? && r.result.error == steps[|steps| - 1].message)
  {
  }

  /**
   * How a scrape ends: with the items of every visited page, in fetch order,
   * when every fetch succeeded; otherwise with the error of a failed fetch,
   * which is the last page visited.
   */
  lemma ScrapeOutcome(net: Network, parse: PageParser, url: Url, pages: int, site: Site)
    requires Choose(url) == Some(site)
    ensures var r := ScrapeSpec(net, parse, url, pages);
      && (r.result.Ok? <==> forall k :: 0 <= k < |r.steps| ==> r.steps[k].Parsed?)
      && (r.result.Ok? ==> r.result.value == ItemsOf(r.steps))
      && (r.result.Err? ==> && |r.steps| > 0
                            && r.steps[|r.steps| - 1].FetchFailed?
                            && r.result.error == r.steps[|r.steps| - 1].message
                            && r.steps[|r.steps| - 1].fetch.result == Err(r.result.error))
  {
    var bound := PageBound(pages);
    var steps := Walk(net, parse, site, bound, url, 0);
    WalkLinks(net, parse, site, bound, url, 0);
    WalkVisits(net, parse, site, bound, url, 0);
    RunOutcome(steps, bound);
  }

  /** A failed fetch is reported last, with percentage 0, and carries the error the scrape throws. */
  lemma ScrapeFailureReported(net: Network, parse: PageParser, url: Url, pages: int, site: Site)
    requires Choose(url) == Some(site)
    requires ScrapeSpec(net, parse, url, pages).result.Err?
    ensures var r := ScrapeSpec(net, parse, url, pages);
            |r.events| > 0 && r.events[|r.events| - 1] == Progress("Fetch failed: " + r.result.error, 0)
  {
    var bound := PageBound(pages);
    var steps := Walk(net, parse, site, bound, url, 0);
    WalkLength(net, parse, site, bound, url, 0);
    EventsAt(steps, bound);
    assert 2 * (|steps| - 1) + 1 == |EventsOf(steps, bound)| - 1;
  }

  /**
   * The 150 ms pauses of a scrape: one after each page but the last, and one
   * after the last page too when it links onwards, which happens only when
   * the page bound stopped the loop.
   */
  lemma ScrapePauses(net: Network, parse: PageParser, url: Url, pages: int)
    ensures var r := ScrapeSpec(net, parse, url, pages);
      && (|r.steps| == 0 ==> r.pauses == 0)
      && (|r.steps| > 0 ==>
            var last := r.steps[|r.steps| - 1];
            && r.pauses == |r.steps| - 1 + (if last.Parsed? && last.page.next != "" then 1 else 0)
            && (last.Parsed? && last.page.next != "" ==> |r.steps| == PageBound(pages)))
  {
    match Choose(url)
    case None =>
    case Some(site) =>
      var bound := PageBound(pages);
      WalkLength(net, parse, site, bound, url, 0);
      WalkLinks(net, parse, site, bound, url, 0);
      PausesOfLinked(Walk(net, parse, site, bound, url, 0));
  }

  /** Pauses along a chain of pages that all link onwards except perhaps the last. */
  lemma {:induction false} PausesOfLinked(steps: seq<Step>)
    requires forall k :: 0 <= k < |steps| - 1 ==> steps[k].Parsed? && steps[k].page.next != ""
    ensures |steps| == 0 ==> PausesOf(steps) == 0
    ensures |steps| > 0 ==>
              PausesOf(steps) == |steps| - 1 + (if steps[|steps| - 1].Parsed? && steps[|steps| - 1].page.next != "" then 1 else 0)
  {
    if |steps| > 1 {
      var front := steps[..|steps| - 1];
      assert forall k :: 0 <= k < |front| ==> front[k] == steps[k];
      PausesOfLinked(front);
    }
  }
}
