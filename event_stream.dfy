/**
 * The event-stream framing shared by the server and the browser client: the
 * frame `sseSend` writes (backend/server.js) and the incremental reader
 * `parseSSEChunk` (frontend/script.js). This is a subset of the Server-Sent
 * Events format of section 9.2 of the WHATWG HTML Living Standard: the
 * default event type is `message`, `data:` lines are joined with a line
 * feed, only `\n` ends a line, and whole lines are trimmed instead of one
 * space being stripped after the colon.
 */
module EventStream {
  import opened Wrappers
  import opened Text
  import Json

  /** The blank line that ends a block. */
  const BlankLine: string := "\n\n"

  /** An event name that `Frame` can carry so that the reader gets it back unchanged. */
  predicate ValidEventName(e: string) {
    e != "" && Trimmed(e) && '\n' !in e
  }

  /** The block of one frame, without its terminating blank line. */
  function FrameBlock(event: string, data: string): string {
    "event: " + event + "\n" + "data: " + data
  }

  /** The text `sseSend` writes for one event: `event: E\n` then `data: J\n\n`. */
  function Frame(event: string, data: string): string {
    FrameBlock(event, data) + BlankLine
  }

  /** A frame is the two writes `sseSend` makes: the event line, then the
      data line with the blank line after it. */
  lemma FrameWrites(event: string, data: string)
    ensures Frame(event, data) == ("event: " + event + "\n") + ("data: " + data + "\n\n")
  {
    AppendSplit("event: ", event, "\n", "data: ", data, "\n\n");
  }

  lemma AppendSplit<T>(a: seq<T>, b: seq<T>, c: seq<T>, d: seq<T>, e: seq<T>, f: seq<T>)
    ensures a + b + c + d + e + f == (a + b + c) + (d + e + f)
  {
  }

  /** What the reader's callback receives as data: the parsed JSON value, or
      the raw joined text when it does not parse, or null when it is empty. */
  datatype Payload = Parsed(value: Json.Value) | Raw(text: string) | Null

  /** One call of the reader's callback: `cb(event, data)`. */
  datatype Dispatch = Dispatch(event: string, data: Payload)

  /** `lines.map(l => l.trim()).filter(Boolean)`. */
  function NonBlank(lines: seq<string>): seq<string> {
    if |lines| == 0 then []
    else (if Trim(lines[0]) == "" then [] else [Trim(lines[0])]) + NonBlank(lines[1..])
  }

  function BlockLines(block: string): seq<string> {
    NonBlank(Split(block, "\n"))
  }

  /** The value of `ev` after reading `lines`: the trimmed text after the last
      `event:` line, "" while there is none (the source's null). */
  function EventField(lines: seq<string>): string {
    if |lines| == 0 then ""
    else if StartsWith(lines[|lines| - 1], "event:") then Trim(lines[|lines| - 1][6..])
    else EventField(lines[..|lines| - 1])
  }

  /** The value of `dataLines` after reading `lines`: the trimmed payload of
      every `data:` line, in order. */
  function DataLines(lines: seq<string>): seq<string> {
    if |lines| == 0 then []
    else
      var l := lines[|lines| - 1];
      DataLines(lines[..|lines| - 1])
        + (if StartsWith(l, "event:") then []
           else if StartsWith(l, "data:") then [Trim(l[5..])]
           else [])
  }

  /** `JSON.parse(text)`, falling back to `text || null`. */
  function Decode(codec: Json.Codec, text: string): Payload {
    match codec.parse(text)
    case Some(v) => Parsed(v)
    case None => if text == "" then Null else Raw(text)
  }

  /** The callback made for one complete block. */
  function BlockDispatch(codec: Json.Codec, block: string): Dispatch {
    var lines := BlockLines(block);
    var ev := EventField(lines);
    Dispatch(if ev == "" then "message" else ev, Decode(codec, Join(DataLines(lines), "\n")))
  }

  /**
   * With a lawful codec a block's data is null exactly when its joined
   * `data:` text is empty, which is the case for a block without any
   * `data:` line.
   */
  lemma NullData(codec: Json.Codec, block: string)
    requires Json.Lawful(codec)
    ensures BlockDispatch(codec, block).data == Null <==> Join(DataLines(BlockLines(block)), "\n") == ""
    ensures DataLines(BlockLines(block)) == [] ==> BlockDispatch(codec, block).data == Null
  {
  }

  /** The complete blocks of a buffer: every piece before the last blank line. */
  function Blocks(buffer: string): seq<string> {
    var parts := Split(buffer, BlankLine);
    parts[..|parts| - 1]
  }

  /** The unterminated tail after the last blank line. */
  function Remainder(buffer: string): string {
    var parts := Split(buffer, BlankLine);
    parts[|parts| - 1]
  }

  /** What `parseSSEChunk(buffer, cb)` does: the callbacks it makes, in order,
      and the text it returns. */
  function ParseChunk(codec: Json.Codec, buffer: string): (seq<Dispatch>, string) {
    (Dispatches(codec, Blocks(buffer)), Remainder(buffer))
  }

  /** One callback per block, in order. */
  function Dispatches(codec: Json.Codec, blocks: seq<string>): (r: seq<Dispatch>)
    ensures |r| == |blocks|
    ensures forall k :: 0 <= k < |blocks| ==> r[k] == BlockDispatch(codec, blocks[k])
  {
    seq(|blocks|, k requires 0 <= k < |blocks| => BlockDispatch(codec, blocks[k]))
  }

  /** The inner loop of `parseSSEChunk` over one block's lines: the event
      name (or "message") and the decoded data. */
  method ReadBlock(codec: Json.Codec, block: string) returns (d: Dispatch)
    ensures d == BlockDispatch(codec, block)
  {
    var ev, dataLines := ReadLines(BlockLines(block));
    var data := Decode(codec, Join(dataLines, "\n"));
    d := Dispatch(if ev == "" then "message" else ev, data);
  }

  /** The loop over a block's non-blank lines: the last `event:` name and
      every `data:` text. */
  method ReadLines(lines: seq<string>) returns (ev: string, dataLines: seq<string>)
    ensures ev == EventField(lines) && dataLines == DataLines(lines)
  {
    ev := "";
    dataLines := [];
    for j := 0 to |lines|
      invariant ev == EventField(lines[..j])
      invariant dataLines == DataLines(lines[..j])
    {
      var l := lines[j];
      PrefixSnoc(lines, j);
      ReadLine(lines[..j], l);
      if StartsWith(l, "event:") {
        ev := Trim(l[6..]);
      } else if StartsWith(l, "data:") {
        dataLines := dataLines + [Trim(l[5..])];
      }
    }
    assert lines[..|lines|] == lines;
  }

  /** One more line read: an `event:` line replaces the name, a `data:` line
      adds its trimmed text, and any other line changes neither. */
  lemma ReadLine(lines: seq<string>, l: string)
    ensures EventField(lines + [l]) == if StartsWith(l, "event:") then Trim(l[6..]) else EventField(lines)
    ensures DataLines(lines + [l]) == DataLines(lines)
              + (if StartsWith(l, "event:") then []
                 else if StartsWith(l, "data:") then [Trim(l[5..])]
                 else [])
  {
    assert (lines + [l])[..|lines|] == lines;
    assert (lines + [l])[|lines|] == l;
  }

  /** `parseSSEChunk`: one callback per complete block, in buffer order, then
      the remainder. */
  method ParseSseChunk(codec: Json.Codec, buffer: string) returns (calls: seq<Dispatch>, remaining: string)
    ensures (calls, remaining) == ParseChunk(codec, buffer)
  {
    var parts := Split(buffer, BlankLine);
    remaining := parts[|parts| - 1];
    parts := parts[..|parts| - 1];
    calls := [];
    for i := 0 to |parts|
      invariant |calls| == i
      invariant forall k :: 0 <= k < i ==> calls[k] == BlockDispatch(codec, parts[k])
    {
      var d := ReadBlock(codec, parts[i]);
      calls := calls + [d];
    }
    assert parts == Blocks(buffer);
    assert calls == Dispatches(codec, parts);
  }

  /** Each block followed by its blank line, concatenated. */
  function Terminated(blocks: seq<string>): string {
    if |blocks| == 0 then "" else blocks[0] + BlankLine + Terminated(blocks[1..])
  }

  lemma {:induction false} JoinAsTerminated(blocks: seq<string>, rest: string)
    ensures Join(blocks + [rest], BlankLine) == Terminated(blocks) + rest
    decreases |blocks|
  {
    if |blocks| == 0 {
      assert blocks + [rest] == [rest];
    } else {
      assert (blocks + [rest])[1..] == blocks[1..] + [rest];
      JoinAsTerminated(blocks[1..], rest);
    }
  }

  /**
   * The buffer is exactly the complete blocks, each with its blank line, then
   * the remainder; neither a complete block nor the remainder holds a blank
   * line, so the buffer is cut at every one of them, and there is one
   * callback per complete block.
   */
  lemma ChunkLayout(codec: Json.Codec, buffer: string)
    ensures buffer == Terminated(Blocks(buffer)) + Remainder(buffer)
    ensures forall k :: 0 <= k < |Blocks(buffer)| ==> !Includes(Blocks(buffer)[k], BlankLine)
    ensures !Includes(Remainder(buffer), BlankLine)
    ensures |ParseChunk(codec, buffer).0| == |Blocks(buffer)|
    ensures ParseChunk(codec, buffer).1 == Remainder(buffer)
  {
    var parts := Split(buffer, BlankLine);
    JoinSplit(buffer, BlankLine);
    assert parts == Blocks(buffer) + [Remainder(buffer)];
    JoinAsTerminated(Blocks(buffer), Remainder(buffer));
    SplitPiecesExcludeSeparator(buffer, BlankLine);
  }

  /** A line feed can occur in a frame's block only between its two lines. */
  lemma FrameBlockLineFeeds(event: string, data: string, j: nat)
    requires '\n' !in event && '\n' !in data
    requires j < |FrameBlock(event, data)| && FrameBlock(event, data)[j] == '\n'
    ensures j == 7 + |event|
  {
  }

  /** The first blank line of a frame, whatever follows it, is the one that ends it. */
  lemma FirstBlankLineEndsFrame(event: string, data: string, rest: string)
    requires '\n' !in event && '\n' !in data && data != ""
    ensures forall j: nat :: j < |FrameBlock(event, data)| ==>
              !OccursAt(FrameBlock(event, data) + BlankLine + rest, BlankLine, j)
  {
    var b := FrameBlock(event, data);
    var s := b + BlankLine + rest;
    forall j: nat | j < |b| ensures !OccursAt(s, BlankLine, j) {
      assert s[j] == b[j];
      if j + 1 < |b| {
        assert s[j + 1] == b[j + 1];
        if b[j] == '\n' {
          FrameBlockLineFeeds(event, data, j);
          assert b[j + 1] == 'd';
        }
      } else {
        assert b[j] == data[|data| - 1];
        assert data[|data| - 1] in data;
      }
      assert s[j] != '\n' || s[j + 1] != '\n';
    }
  }

  /** A frame's block splits into exactly its two lines. */
  lemma FrameBlockSplit(event: string, data: string)
    requires '\n' !in event && '\n' !in data
    ensures Split(FrameBlock(event, data), "\n") == ["event: " + event, "data: " + data]
  {
    assert '\n' !in "event: " + event;
    assert '\n' !in "data: " + data;
    AppendAssociative(("event: " + event) + "\n", "data: ", data);
    SplitTwoLines("event: " + event, "data: " + data);
  }

  /** Two lines without line feeds, joined by one, split back into those two. */
  lemma SplitTwoLines(head: string, tail: string)
    requires '\n' !in head && '\n' !in tail
    ensures Split(head + "\n" + tail, "\n") == [head, tail]
  {
    var b := head + "\n" + tail;
    forall j: nat | j < |head| ensures !OccursAt(b, "\n", j) {
      assert b[j..j + 1][0] == b[j] == head[j];
      assert head[j] in head;
    }
    SplitAtFirst(head, "\n", tail);
    forall j: nat ensures !OccursAt(tail, "\n", j) {
      if j < |tail| {
        assert tail[j] in tail;
      }
    }
    SplitWithout(tail, "\n");
  }

  /** A frame's block consists of exactly two non-blank lines. */
  lemma FrameBlockLines(event: string, data: string)
    requires ValidEventName(event) && data != "" && Trimmed(data) && '\n' !in data
    ensures BlockLines(FrameBlock(event, data)) == ["event: " + event, "data: " + data]
  {
    var head := "event: " + event;
    var tail := "data: " + data;
    FrameBlockSplit(event, data);
    assert Trim(head) == head by {
      assert head[|head| - 1] == event[|event| - 1];
      TrimOfTrimmed(head);
    }
    assert Trim(tail) == tail by {
      assert tail[|tail| - 1] == data[|data| - 1];
      TrimOfTrimmed(tail);
    }
    assert NonBlank([tail]) == [tail] by {
      assert [tail][1..] == [];
    }
    assert NonBlank([head, tail]) == [head] + NonBlank([tail]) by {
      assert [head, tail][1..] == [tail];
    }
  }

  /** The callback for a block, from what its lines yield. */
  lemma DispatchOfBlock(codec: Json.Codec, block: string, event: string, data: string, v: Json.Value)
    requires event != "" && EventField(BlockLines(block)) == event
    requires Join(DataLines(BlockLines(block)), "\n") == data && codec.parse(data) == Some(v)
    ensures BlockDispatch(codec, block) == Dispatch(event, Parsed(v))
  {
  }

  /** The two lines of a frame's block yield its event name... */
  lemma FrameEventField(event: string, data: string)
    requires Trimmed(event)
    ensures EventField(["event: " + event, "data: " + data]) == event
  {
    DataLineNotEvent(data);
    EventLineName(event);
    EventFieldPair("event: " + event, "data: " + data);
  }

  /** Of an `event:` line followed by another line, the first names the event. */
  lemma EventFieldPair(head: string, tail: string)
    requires StartsWith(head, "event:") && !StartsWith(tail, "event:")
    ensures EventField([head, tail]) == Trim(head[6..])
  {
    EventFieldSkip([head], tail);
    assert [head] + [tail] == [head, tail];
    EventFieldTake([], head);
    assert [] + [head] == [head];
  }

  /** An `event: E` line names the event E. */
  lemma EventLineName(event: string)
    requires Trimmed(event)
    ensures StartsWith("event: " + event, "event:")
    ensures Trim(("event: " + event)[6..]) == event
  {
    var head := "event: " + event;
    assert head[..6] == "event:";
    assert head[6..] == " " + event;
    TrimAfterSpaces(" ", event);
  }

  /** A `data:` line is not an `event:` line. */
  lemma DataLineNotEvent(data: string)
    ensures !StartsWith("data: " + data, "event:")
  {
    assert ("data: " + data)[0] == 'd';
  }

  /** A line that is not an `event:` line leaves the event name as it was. */
  lemma EventFieldSkip(lines: seq<string>, l: string)
    requires !StartsWith(l, "event:")
    ensures EventField(lines + [l]) == EventField(lines)
  {
    assert (lines + [l])[..|lines|] == lines;
  }

  /** An `event:` line sets the event name to its trimmed text. */
  lemma EventFieldTake(lines: seq<string>, l: string)
    requires StartsWith(l, "event:")
    ensures EventField(lines + [l]) == Trim(l[6..])
  {
    assert (lines + [l])[|lines|] == l;
  }

  /** ...and its data text as the one data line. */
  lemma FrameDataLines(event: string, data: string)
    requires Trimmed(data)
    ensures DataLines(["event: " + event, "data: " + data]) == [data]
  {
    var head := "event: " + event;
    var tail := "data: " + data;
    assert DataLines([head]) == [] by {
      assert StartsWith(head, "event:") by { assert head[..6] == "event:"; }
      assert DataLines([head][..0]) == [];
    }
    assert Trim(tail[5..]) == data by {
      assert tail[5..] == " " + data;
      TrimAfterSpaces(" ", data);
    }
    assert DataLines([head, tail]) == DataLines([head]) + [Trim(tail[5..])] by {
      assert !StartsWith(tail, "event:") by { assert tail[0] != 'e'; }
      assert StartsWith(tail, "data:") by { assert tail[..5] == "data:"; }
      assert [head, tail][..1] == [head];
    }
  }

  /** Reading one frame's block gives back its event name and value. */
  lemma FrameBlockDispatch(codec: Json.Codec, event: string, v: Json.Value)
    requires Json.Lawful(codec) && ValidEventName(event)
    ensures BlockDispatch(codec, FrameBlock(event, codec.stringify(v))) == Dispatch(event, Parsed(v))
  {
    var data := codec.stringify(v);
    var block := FrameBlock(event, data);
    assert EventField(BlockLines(block)) == event && Join(DataLines(BlockLines(block)), "\n") == data by {
      FrameBlockLines(event, data);
      FrameEventField(event, data);
      FrameDataLines(event, data);
      assert Join([data], "\n") == data;
    }
    DispatchOfBlock(codec, block, event, data, v);
  }

  lemma DispatchesCons(codec: Json.Codec, block: string, blocks: seq<string>)
    ensures Dispatches(codec, [block] + blocks) == [BlockDispatch(codec, block)] + Dispatches(codec, blocks)
  {
    var lhs := Dispatches(codec, [block] + blocks);
    var rhs := [BlockDispatch(codec, block)] + Dispatches(codec, blocks);
    forall k | 0 <= k < |lhs| ensures lhs[k] == rhs[k] {
      if k > 0 {
        assert ([block] + blocks)[k] == blocks[k - 1];
      }
    }
  }

  /** Reading a buffer that starts with a block and a blank line, where that
      blank line is the first one: the block's callback comes first. */
  lemma ParseChunkCons(codec: Json.Codec, block: string, rest: string)
    requires forall j: nat :: j < |block| ==> !OccursAt(block + BlankLine + rest, BlankLine, j)
    ensures ParseChunk(codec, block + BlankLine + rest)
            == ([BlockDispatch(codec, block)] + ParseChunk(codec, rest).0, ParseChunk(codec, rest).1)
  {
    var s := block + BlankLine + rest;
    assert Blocks(s) == [block] + Blocks(rest) && Remainder(s) == Remainder(rest) by {
      SplitAtFirst(block, BlankLine, rest);
      var inner := Split(rest, BlankLine);
      assert Split(s, BlankLine) == [block] + inner;
    }
    DispatchesCons(codec, block, Blocks(rest));
  }

  /** The concatenated frames of a sequence of (event, value) pairs. */
  function Frames(codec: Json.Codec, events: seq<(string, Json.Value)>): string {
    if |events| == 0 then ""
    else Frame(events[0].0, codec.stringify(events[0].1)) + Frames(codec, events[1..])
  }

  /** The callbacks a reader should make for those frames. */
  function Expected(events: seq<(string, Json.Value)>): seq<Dispatch> {
    if |events| == 0 then []
    else [Dispatch(events[0].0, Parsed(events[0].1))] + Expected(events[1..])
  }

  /**
   * Framing round trip: frames written by `sseSend`, followed by any text,
   * are read back as one callback per frame, in order, with each event name
   * and value unchanged, before whatever the following text yields.
   */
  lemma {:induction false} FramesThenRest(codec: Json.Codec, events: seq<(string, Json.Value)>, rest: string)
    requires Json.Lawful(codec)
    requires forall k :: 0 <= k < |events| ==> ValidEventName(events[k].0)
    ensures ParseChunk(codec, Frames(codec, events) + rest)
            == (Expected(events) + ParseChunk(codec, rest).0, ParseChunk(codec, rest).1)
    decreases |events|
  {
    if |events| == 0 {
      assert Frames(codec, events) + rest == rest;
      assert Expected(events) + ParseChunk(codec, rest).0 == ParseChunk(codec, rest).0;
    } else {
      var e := events[0].0;
      var data := codec.stringify(events[0].1);
      var block := FrameBlock(e, data);
      var tailText := Frames(codec, events[1..]) + rest;
      assert Frames(codec, events) + rest == block + BlankLine + tailText;
      assert ParseChunk(codec, block + BlankLine + tailText)
             == ([BlockDispatch(codec, block)] + ParseChunk(codec, tailText).0, ParseChunk(codec, tailText).1) by {
        FirstBlankLineEndsFrame(e, data, tailText);
        ParseChunkCons(codec, block, tailText);
      }
      assert BlockDispatch(codec, block) == Dispatch(e, Parsed(events[0].1)) by {
        FrameBlockDispatch(codec, e, events[0].1);
      }
      var rested := ParseChunk(codec, rest);
      assert ParseChunk(codec, tailText) == (Expected(events[1..]) + rested.0, rested.1) by {
        FramesThenRest(codec, events[1..], rest);
      }
      var first := Dispatch(e, Parsed(events[0].1));
      assert Expected(events) == [first] + Expected(events[1..]);
      ConsAppend(first, Expected(events[1..]), rested.0);
    }
  }

  /** Frames written one after another concatenate. */
  lemma {:induction false} FramesAppend(codec: Json.Codec, a: seq<(string, Json.Value)>, b: seq<(string, Json.Value)>)
    ensures Frames(codec, a + b) == Frames(codec, a) + Frames(codec, b)
    decreases |a|
  {
    if |a| == 0 {
      assert a + b == b;
    } else {
      assert (a + b)[1..] == a[1..] + b;
      FramesAppend(codec, a[1..], b);
    }
  }

  /** The expected callbacks are one per event, position by position. */
  lemma {:induction false} ExpectedAt(events: seq<(string, Json.Value)>)
    ensures |Expected(events)| == |events|
    ensures forall k :: 0 <= k < |events| ==> Expected(events)[k] == Dispatch(events[k].0, Parsed(events[k].1))
    decreases |events|
  {
    if |events| > 0 {
      ExpectedAt(events[1..]);
    }
  }

  lemma ConsAppend<T>(x: T, a: seq<T>, b: seq<T>)
    ensures [x] + (a + b) == ([x] + a) + b
  {
  }

  /** A whole stream of frames is read back exactly, with nothing left over. */
  lemma FramesRoundTrip(codec: Json.Codec, events: seq<(string, Json.Value)>)
    requires Json.Lawful(codec)
    requires forall k :: 0 <= k < |events| ==> ValidEventName(events[k].0)
    ensures ParseChunk(codec, Frames(codec, events)) == (Expected(events), "")
  {
    FramesThenRest(codec, events, "");
    assert Frames(codec, events) + "" == Frames(codec, events);
    assert Split("", BlankLine) == [""];
    assert Expected(events) + [] == Expected(events);
  }

  /** One frame yields exactly one callback, with its event and value, and an empty remainder. */
  lemma FrameRoundTrip(codec: Json.Codec, event: string, v: Json.Value)
    requires Json.Lawful(codec) && ValidEventName(event)
    ensures ParseChunk(codec, Frame(event, codec.stringify(v))) == ([Dispatch(event, Parsed(v))], "")
  {
    FramesRoundTrip(codec, [(event, v)]);
    assert Frames(codec, [(event, v)]) == Frame(event, codec.stringify(v)) + Frames(codec, []);
    assert Frames(codec, [(event, v)]) == Frame(event, codec.stringify(v));
    assert Expected([(event, v)]) == [Dispatch(event, Parsed(v))];
  }
}
