/**
 * The browser side of frontend/script.js that is logic rather than DOM
 * wiring: `escapeHtml`, the page arithmetic of the results table
 * (`totalPages`, the "showing x to y" numbers), the page-number window of
 * `renderPagination`, the previous/next/page-size handlers over the
 * module-level paging state, and the stream callback that updates the
 * progress bar and buttons. The stream reader itself is `EventStream`.
 */
module Client {
  import opened Wrappers
  import opened Text
  import Json
  import EventStream
  import ServerRoutes
  import ServerStream
  import Scraper

  // ---------------------------------------------------------------------
  // escapeHtml

  /** `String(s).replaceAll('&', '&amp;').replaceAll('<', '&lt;').replaceAll('>', '&gt;')`. */
  function ReplaceEntities(s: string): string {
    ReplaceChar(ReplaceChar(ReplaceChar(s, '&', "&amp;"), '<', "&lt;"), '>', "&gt;")
  }

  /** `escapeHtml(s)`: "" for a falsy (here: empty) string. */
  function EscapeHtml(s: string): string {
    if s == "" then "" else ReplaceEntities(s)
  }

  /** The escape of one character: the reference `escapeHtml` is measured against. */
  function EscapeChar(c: char): string {
    if c == '&' then "&amp;"
    else if c == '<' then "&lt;"
    else if c == '>' then "&gt;"
    else [c]
  }

  /** Escaping character by character. */
  function Escaped(s: string): string {
    if |s| == 0 then "" else EscapeChar(s[0]) + Escaped(s[1..])
  }

  /** Decoding of the three entities, as an HTML parser reads them in text. */
  function Unescape(t: string): string
    decreases |t|
  {
    if |t| == 0 then ""
    else if t[0] == '&' && StartsWith(t, "&amp;") then "&" + Unescape(t[5..])
    else if t[0] == '&' && StartsWith(t, "&lt;") then "<" + Unescape(t[4..])
    else if t[0] == '&' && StartsWith(t, "&gt;") then ">" + Unescape(t[4..])
    else [t[0]] + Unescape(t[1..])
  }

  lemma ReplaceEntitiesAppend(a: string, b: string)
    ensures ReplaceEntities(a + b) == ReplaceEntities(a) + ReplaceEntities(b)
  {
    ReplaceCharAppend(a, b, '&', "&amp;");
    var a1 := ReplaceChar(a, '&', "&amp;");
    var b1 := ReplaceChar(b, '&', "&amp;");
    ReplaceCharAppend(a1, b1, '<', "&lt;");
    ReplaceCharAppend(ReplaceChar(a1, '<', "&lt;"), ReplaceChar(b1, '<', "&lt;"), '>', "&gt;");
  }

  lemma ReplaceCharSingle(x: char, c: char, r: string)
    ensures ReplaceChar([x], c, r) == if x == c then r else [x]
  {
    assert [x][1..] == [];
  }

  /** On one character the three replacements give its escape: `&` is
      replaced first, so the `&` of the later entities is not escaped again. */
  lemma ReplaceEntitiesChar(c: char)
    ensures ReplaceEntities([c]) == EscapeChar(c)
  {
    ReplaceCharSingle(c, '&', "&amp;");
    if c == '&' {
      LaterReplacementsKeep("&amp;");
    } else {
      ReplaceCharSingle(c, '<', "&lt;");
      if c == '<' {
        ReplaceCharAbsent("&lt;", '>', "&gt;");
      } else {
        ReplaceCharSingle(c, '>', "&gt;");
      }
    }
  }

  /** The `<` and `>` replacements leave a string without those characters alone. */
  lemma LaterReplacementsKeep(s: string)
    requires '<' !in s && '>' !in s
    ensures ReplaceChar(ReplaceChar(s, '<', "&lt;"), '>', "&gt;") == s
  {
    ReplaceCharAbsent(s, '<', "&lt;");
    ReplaceCharAbsent(s, '>', "&gt;");
  }

  /** `escapeHtml` is the character-by-character escape. */
  lemma {:induction false} EscapeHtmlPerChar(s: string)
    ensures EscapeHtml(s) == Escaped(s)
    decreases |s|
  {
    if |s| > 0 {
      EscapeHtmlPerChar(s[1..]);
      assert s == [s[0]] + s[1..];
      ReplaceEntitiesAppend([s[0]], s[1..]);
      ReplaceEntitiesChar(s[0]);
      if s[1..] == "" {
        assert ReplaceEntities("") == "";
      }
    }
  }

  /** No `<` or `>` survives the escape. */
  lemma {:induction false} EscapedHasNoTags(s: string)
    ensures '<' !in Escaped(s) && '>' !in Escaped(s)
    decreases |s|
  {
    if |s| > 0 {
      EscapedHasNoTags(s[1..]);
    }
  }

  /** Decoding the escape of a character, followed by anything, gives the character back first. */
  lemma UnescapeChar(c: char, rest: string)
    ensures Unescape(EscapeChar(c) + rest) == [c] + Unescape(rest)
  {
    if c == '&' {
      UnescapeAmp(rest);
    } else if c == '<' {
      UnescapeAngle("&lt;", c, rest);
    } else if c == '>' {
      UnescapeAngle("&gt;", c, rest);
    } else {
      var t := [c] + rest;
      assert t[0] == c && t[1..] == rest;
    }
  }

  lemma UnescapeAmp(rest: string)
    ensures Unescape("&amp;" + rest) == "&" + Unescape(rest)
  {
    var t := "&amp;" + rest;
    assert t[..5] == "&amp;";
    assert t[5..] == rest;
  }

  /** `&lt;` and `&gt;` decode to their character. */
  lemma UnescapeAngle(entity: string, c: char, rest: string)
    requires (entity == "&lt;" && c == '<') || (entity == "&gt;" && c == '>')
    ensures Unescape(entity + rest) == [c] + Unescape(rest)
  {
    var t := entity + rest;
    assert t[1] == entity[1];
    assert t[..4] == entity;
    assert t[4..] == rest;
  }

  /** Escaping loses nothing: decoding gives back the original text. */
  lemma {:induction false} UnescapeEscaped(s: string)
    ensures Unescape(Escaped(s)) == s
    decreases |s|
  {
    if |s| > 0 {
      UnescapeEscaped(s[1..]);
      UnescapeChar(s[0], Escaped(s[1..]));
      assert s == [s[0]] + s[1..];
    }
  }

  /**
   * `escapeHtml` returns "" exactly for "", never emits `<` or `>`, and can
   * be decoded back to its input, so distinct texts stay distinct.
   */
  lemma EscapeHtmlSpec(s: string)
    ensures EscapeHtml(s) == "" <==> s == ""
    ensures '<' !in EscapeHtml(s) && '>' !in EscapeHtml(s)
    ensures Unescape(EscapeHtml(s)) == s
  {
    EscapeHtmlPerChar(s);
    EscapedHasNoTags(s);
    UnescapeEscaped(s);
    if s != "" {
      assert |EscapeChar(s[0])| > 0;
    }
  }

  // ---------------------------------------------------------------------
  // Page arithmetic

  /** `Math.ceil(a / b)` for whole numbers. */
  function CeilDiv(a: nat, b: nat): nat
    requires b > 0
  {
    (a + b - 1) / b
  }

  /** `Math.max(1, Math.ceil(totalItems / perPage))`. */
  function TotalPages(totalItems: nat, perPage: nat): nat
    requires perPage > 0
  {
    var c := CeilDiv(totalItems, perPage);
    if c < 1 then 1 else c
  }

  /** `((currentPage - 1) * perPage) + 1`. */
  function ShowStart(currentPage: int, perPage: int): int {
    (currentPage - 1) * perPage + 1
  }

  /** `Math.min(totalItems, currentPage * perPage)`. */
  function ShowEnd(totalItems: int, currentPage: int, perPage: int): int {
    if totalItems < currentPage * perPage then totalItems else currentPage * perPage
  }

  lemma CeilDivSpec(a: nat, b: nat)
    requires b > 0
    ensures CeilDiv(a, b) * b >= a
    ensures a > 0 ==> (CeilDiv(a, b) - 1) * b < a
  {
    var q := (a + b - 1) / b;
    var r := (a + b - 1) % b;
    assert a + b - 1 == q * b + r;
    assert (q - 1) * b == q * b - b;
  }

  /**
   * There is always at least one page; an empty result has exactly one, and
   * otherwise the pages are the fewest that hold all items: the last page
   * is the one holding the last item.
   */
  lemma TotalPagesSpec(totalItems: nat, perPage: nat)
    requires perPage > 0
    ensures TotalPages(totalItems, perPage) >= 1
    ensures totalItems == 0 ==> TotalPages(totalItems, perPage) == 1
    ensures totalItems > 0 ==>
              (TotalPages(totalItems, perPage) - 1) * perPage < totalItems <= TotalPages(totalItems, perPage) * perPage
  {
    CeilDivSpec(totalItems, perPage);
    if totalItems == 0 {
      assert CeilDiv(0, perPage) == (perPage - 1) / perPage == 0;
    }
  }

  /**
   * For a page within range, the "showing" numbers are the 1-based
   * positions of its first and last rows: the first is one past the offset
   * the server skips, the range is non-empty and within the items, and
   * every page but the last is full. With no items the only page shows
   * "1 to 0".
   */
  lemma ShowRange(totalItems: nat, perPage: nat, currentPage: int)
    requires perPage > 0
    requires 1 <= currentPage <= TotalPages(totalItems, perPage)
    ensures ShowStart(currentPage, perPage) == ServerRoutes.Offset(currentPage, perPage) + 1
    ensures totalItems == 0 ==> currentPage == 1 && ShowStart(currentPage, perPage) == 1 && ShowEnd(totalItems, currentPage, perPage) == 0
    ensures totalItems > 0 ==> 1 <= ShowStart(currentPage, perPage) <= ShowEnd(totalItems, currentPage, perPage) <= totalItems
    ensures ShowEnd(totalItems, currentPage, perPage) - ShowStart(currentPage, perPage) + 1 <= perPage
    ensures currentPage < TotalPages(totalItems, perPage) ==>
              ShowEnd(totalItems, currentPage, perPage) - ShowStart(currentPage, perPage) + 1 == perPage
  {
    var t := TotalPages(totalItems, perPage);
    TotalPagesSpec(totalItems, perPage);
    var before := (currentPage - 1) * perPage;
    var upto := currentPage * perPage;
    assert upto == before + perPage;
    Scraper.MulMonotone(perPage, 0, currentPage - 1);
    Scraper.MulMonotone(perPage, currentPage - 1, t - 1);
    if currentPage < t {
      Scraper.MulMonotone(perPage, currentPage, t - 1);
    }
  }

  // ---------------------------------------------------------------------
  // renderPagination

  /** One page-number button: its page and whether it is highlighted as current. */
  datatype PageButton = PageButton(page: int, current: bool)

  const MaxButtons: int := 7

  /** The first and last page number shown, as `renderPagination` computes them. */
  function Window(currentPage: int, totalPages: int): (int, int) {
    var half := MaxButtons / 2;
    var start := if currentPage - half > 1 then currentPage - half else 1;
    var end := if totalPages < start + MaxButtons - 1 then totalPages else start + MaxButtons - 1;
    var start' := if end - start + 1 < MaxButtons then (if end - MaxButtons + 1 > 1 then end - MaxButtons + 1 else 1)
                  else start;
    (start', end)
  }

  /**
   * `renderPagination`: the buttons from the window's first page to its
   * last, the current one highlighted, then the disabled state of the
   * previous and next buttons.
   */
  method RenderPagination(currentPage: int, totalPages: int)
    returns (buttons: seq<PageButton>, prevDisabled: bool, nextDisabled: bool)
    ensures |buttons| == if Window(currentPage, totalPages).1 < Window(currentPage, totalPages).0 then 0
                         else Window(currentPage, totalPages).1 - Window(currentPage, totalPages).0 + 1
    ensures forall k :: 0 <= k < |buttons| ==>
              buttons[k] == PageButton(Window(currentPage, totalPages).0 + k, Window(currentPage, totalPages).0 + k == currentPage)
    ensures prevDisabled <==> currentPage <= 1
    ensures nextDisabled <==> currentPage >= totalPages
  {
    var half := MaxButtons / 2;
    var start := if currentPage - half > 1 then currentPage - half else 1;
    var end := if totalPages < start + MaxButtons - 1 then totalPages else start + MaxButtons - 1;
    if end - start + 1 < MaxButtons {
      start := if end - MaxButtons + 1 > 1 then end - MaxButtons + 1 else 1;
    }
    buttons := [];
    var p := start;
    while p <= end
      invariant start <= p && (p <= end + 1 || p == start)
      invariant |buttons| == p - start
      invariant forall k :: 0 <= k < |buttons| ==> buttons[k] == PageButton(start + k, start + k == currentPage)
    {
      buttons := buttons + [PageButton(p, p == currentPage)];
      p := p + 1;
    }
    prevDisabled := currentPage <= 1;
    nextDisabled := currentPage >= totalPages;
  }

  /**
   * For a current page within [1, totalPages], the window holds exactly
   * `min(7, totalPages)` consecutive pages, all within [1, totalPages], and
   * the current page among them.
   */
  lemma WindowShape(currentPage: int, totalPages: int)
    requires 1 <= currentPage <= totalPages
    ensures var (first, last) := Window(currentPage, totalPages);
      && 1 <= first <= currentPage <= last <= totalPages
      && last - first + 1 == (if totalPages < MaxButtons then totalPages else MaxButtons)
  {
  }

  // ---------------------------------------------------------------------
  // Module-level page state and the stream callback

  /** The client state the handlers change: paging variables and the scrape
      controls (progress bar width in percent, its message, the two buttons). */
  class Page {
    var currentPage: int
    var perPage: int
    var totalItems: int
    var totalPages: int
    var barWidth: int
    var message: string
    var startDisabled: bool
    var stopDisabled: bool
    var runId: Option<int>

    /** The initial values of script.js's module-level variables. */
    constructor ()
      ensures currentPage == 1 && perPage == 25 && totalItems == 0 && totalPages == 1
      ensures barWidth == 0 && message == "" && !startDisabled && stopDisabled && runId == None
    {
      currentPage := 1;
      perPage := 25;
      totalItems := 0;
      totalPages := 1;
      barWidth := 0;
      message := "";
      startDisabled := false;
      stopDisabled := true;
      runId := None;
    }

    predicate InRange()
      reads this
    {
      1 <= currentPage <= totalPages
    }

    /** The previous-page button: one page back unless on the first; `reload`
        says whether the page is fetched again. */
    method Prev() returns (reload: bool)
      modifies this
      ensures reload <==> old(currentPage) > 1
      ensures currentPage == if reload then old(currentPage) - 1 else old(currentPage)
      ensures old(InRange()) ==> InRange()
      ensures perPage == old(perPage) && totalItems == old(totalItems) && totalPages == old(totalPages)
      ensures barWidth == old(barWidth) && message == old(message) && runId == old(runId)
      ensures startDisabled == old(startDisabled) && stopDisabled == old(stopDisabled)
    {
      reload := currentPage > 1;
      if reload {
        currentPage := currentPage - 1;
      }
    }

    /** The next-page button: one page on unless on the last. */
    method Next() returns (reload: bool)
      modifies this
      ensures reload <==> old(currentPage) < old(totalPages)
      ensures currentPage == if reload then old(currentPage) + 1 else old(currentPage)
      ensures old(InRange()) ==> InRange()
      ensures perPage == old(perPage) && totalItems == old(totalItems) && totalPages == old(totalPages)
      ensures barWidth == old(barWidth) && message == old(message) && runId == old(runId)
      ensures startDisabled == old(startDisabled) && stopDisabled == old(stopDisabled)
    {
      reload := currentPage < totalPages;
      if reload {
        currentPage := currentPage + 1;
      }
    }

    /** A new page size: back to the first page. */
    method SetPerPage(n: int)
      modifies this
      ensures perPage == n && currentPage == 1
      ensures totalItems == old(totalItems) && totalPages == old(totalPages)
      ensures old(totalPages) >= 1 ==> InRange()
      ensures barWidth == old(barWidth) && message == old(message) && runId == old(runId)
      ensures startDisabled == old(startDisabled) && stopDisabled == old(stopDisabled)
    {
      perPage := n;
      currentPage := 1;
    }

    /** A loaded results page: the total from the server and the page count. */
    method Loaded(total: nat)
      requires perPage > 0
      modifies this
      ensures currentPage == old(currentPage) && perPage == old(perPage)
      ensures totalItems == total && totalPages == TotalPages(total, perPage) && totalPages >= 1
      ensures barWidth == old(barWidth) && message == old(message) && runId == old(runId)
      ensures startDisabled == old(startDisabled) && stopDisabled == old(stopDisabled)
    {
      totalItems := total;
      totalPages := TotalPages(total, perPage);
      TotalPagesSpec(total, perPage);
    }

    /**
     * The stream callback for one `(event, data)` call. `progress` moves the
     * bar to a numeric `pct` and shows a non-empty string `message`; `done`
     * fills the bar, shows the message (or 'Done'), re-enables start and,
     * for a non-zero run id, selects that run on its first page with the
     * page size of the selector (`perPageChoice`, 25 when unset); `error`
     * shows the message (or 'Error') and re-enables start. Any other event,
     * the heartbeat `ping` included, changes nothing.
     */
    method OnStreamEvent(d: EventStream.Dispatch, perPageChoice: Option<int>)
      modifies this
      ensures d.event != "progress" && d.event != "done" && d.event != "error" ==>
                && currentPage == old(currentPage) && perPage == old(perPage)
                && barWidth == old(barWidth) && message == old(message) && runId == old(runId)
                && startDisabled == old(startDisabled) && stopDisabled == old(stopDisabled)
      ensures d.event == "progress" ==>
                && barWidth == (if NumberField(d.data, "pct").Some? then NumberField(d.data, "pct").value else old(barWidth))
                && message == (if TextField(d.data, "message").Some? then TextField(d.data, "message").value else old(message))
                && startDisabled == old(startDisabled) && stopDisabled == old(stopDisabled)
                && runId == old(runId) && currentPage == old(currentPage) && perPage == old(perPage)
      ensures d.event == "done" ==>
                && barWidth == 100 && !startDisabled && stopDisabled
                && message == (if TextField(d.data, "message").Some? then TextField(d.data, "message").value else "Done")
                && (RunIdField(d.data).Some? ==>
                      runId == RunIdField(d.data) && currentPage == 1 && perPage == PerPageChoice(perPageChoice))
                && (RunIdField(d.data).None? ==>
                      runId == old(runId) && currentPage == old(currentPage) && perPage == old(perPage))
      ensures d.event == "error" ==>
                && barWidth == old(barWidth) && !startDisabled && stopDisabled
                && message == (if TextField(d.data, "message").Some? then TextField(d.data, "message").value else "Error")
                && runId == old(runId) && currentPage == old(currentPage) && perPage == old(perPage)
      ensures totalItems == old(totalItems) && totalPages == old(totalPages)
    {
      if d.event == "progress" {
        var pct := NumberField(d.data, "pct");
        if pct.Some? {
          barWidth := pct.value;
        }
        var m := TextField(d.data, "message");
        if m.Some? {
          message := m.value;
        }
      } else if d.event == "done" {
        barWidth := 100;
        var m := TextField(d.data, "message");
        message := if m.Some? then m.value else "Done";
        startDisabled := false;
        stopDisabled := true;
        var id := RunIdField(d.data);
        if id.Some? {
          runId := id;
          currentPage := 1;
          perPage := PerPageChoice(perPageChoice);
        }
      } else if d.event == "error" {
        var m := TextField(d.data, "message");
        message := if m.Some? then m.value else "Error";
        startDisabled := false;
        stopDisabled := true;
      }
    }
  }

  /** `data && typeof data[key] === 'number'`: the number, when there is one. */
  function NumberField(data: EventStream.Payload, key: string): (r: Option<int>)
    ensures r.Some? ==> data.Parsed? && Json.Get(data.value, key) == Some(Json.JNum(r.value))
  {
    if data.Parsed? then
      match Json.Get(data.value, key)
      case Some(JNum(n)) => Some(n)
      case _ => None
    else None
  }

  /** `data && data[key]` for a message: a non-empty string, when there is one. */
  function TextField(data: EventStream.Payload, key: string): (r: Option<string>)
    ensures r.Some? ==> r.value != "" && data.Parsed? && Json.Get(data.value, key) == Some(Json.JStr(r.value))
  {
    if data.Parsed? then
      match Json.Get(data.value, key)
      case Some(JStr(s)) => if s == "" then None else Some(s)
      case _ => None
    else None
  }

  /** `data && data.runId` as a truthy number. */
  function RunIdField(data: EventStream.Payload): (r: Option<int>)
    ensures r.Some? ==> r.value != 0
  {
    match NumberField(data, "runId")
    case Some(n) => if n == 0 then None else Some(n)
    case None => None
  }

  /** `Number(perPageEl.value || 25)`. */
  function PerPageChoice(choice: Option<int>): int {
    match choice
    case None => 25
    case Some(n) => n
  }

  // ---------------------------------------------------------------------
  // What the callback reads from the server's payloads

  /** A progress frame's payload moves the bar to its percentage and shows
      its message when that is non-empty. */
  lemma ProgressShown(p: Scraper.Progress)
    ensures NumberField(EventStream.Parsed(ServerStream.ProgressData(p)), "pct") == Some(p.pct)
    ensures TextField(EventStream.Parsed(ServerStream.ProgressData(p)), "message")
              == if p.message == "" then None else Some(p.message)
  {
    var fields := ServerStream.ProgressData(p).fields;
    assert |fields[1].0| != |"message"|;
    assert Json.Lookup(fields, "message") == Json.Lookup(fields[..1], "message");
    assert fields[..1] == [("message", Json.JStr(p.message))];
  }

  /** The done payload selects its run when the id is non-zero and shows
      'Scrape complete'. */
  lemma DoneShown(runId: nat, csvPath: string, itemCount: nat)
    ensures RunIdField(EventStream.Parsed(ServerStream.DoneData(runId, csvPath, itemCount)))
              == if runId == 0 then None else Some(runId)
    ensures TextField(EventStream.Parsed(ServerStream.DoneData(runId, csvPath, itemCount)), "message")
              == Some(ServerStream.ScrapeComplete)
  {
    var fields := ServerStream.DoneData(runId, csvPath, itemCount).fields;
    assert |fields[3].0| != |"runId"| && |fields[2].0| != |"runId"| && |fields[1].0| != |"runId"|;
    assert Json.Lookup(fields, "runId") == Json.Lookup(fields[..3], "runId");
    assert Json.Lookup(fields[..3], "runId") == Json.Lookup(fields[..3][..2], "runId");
    assert Json.Lookup(fields[..3][..2], "runId") == Json.Lookup(fields[..3][..2][..1], "runId");
    assert fields[..3][..2][..1] == [("runId", Json.JNum(runId))];
  }

  /** The error payload's message is shown when non-empty. */
  lemma ErrorShown(message: string)
    ensures TextField(EventStream.Parsed(ServerStream.ErrorData(message)), "message")
              == if message == "" then None else Some(message)
  {
  }
}
