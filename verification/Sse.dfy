/** Server-sent events as this system reads them: a subset of the event stream format of the WHATWG
    HTML Living Standard, sections 9.2.5 and 9.2.6 (server/src/handlers/llm-handlers.js,
    `parseSseBlocks`; dashboard/app/v2/llm-stream.ts, `parseSseChunk`). */
module Sse {
  import opened JsText
  import opened Sequences

  datatype Event = Event(name: string, data: string)

  predicate BoundaryAt(s: string, i: int) {
    0 <= i && i + 1 < |s| && s[i] == '\n' && s[i + 1] == '\n'
  }

  /** `s.indexOf('\n\n', i)`. */
  function IndexOfBoundary(s: string, i: nat := 0): (b: int)
    requires i <= |s|
    ensures b == -1 || (i <= b && BoundaryAt(s, b))
    ensures forall k :: i <= k && (b == -1 || k < b) ==> !BoundaryAt(s, k)
    decreases |s| - i
  {
    if i + 1 >= |s| then -1
    else if BoundaryAt(s, i) then i
    else IndexOfBoundary(s, i + 1)
  }

  /** The complete blocks of a text, and what comes after the last one. */
  function Blocks(s: string): seq<string>
    decreases |s|
  {
    var b := IndexOfBoundary(s);
    if b < 0 then [] else [s[..b]] + Blocks(s[b + 2..])
  }

  function Rest(s: string): string
    decreases |s|
  {
    var b := IndexOfBoundary(s);
    if b < 0 then s else Rest(s[b + 2..])
  }

  function Concat(chunks: seq<string>): string {
    if chunks == [] then "" else chunks[0] + Concat(chunks[1..])
  }

  lemma FirstBoundary(s: string, b: nat)
    requires BoundaryAt(s, b) && forall k :: 0 <= k < b ==> !BoundaryAt(s, k)
    ensures IndexOfBoundary(s) == b
  {
  }

  /** Reading can be resumed from what the last read left over. */
  lemma {:induction false} Resume(a: string, b: string)
    ensures Blocks(a + b) == Blocks(a) + Blocks(Rest(a) + b)
    ensures Rest(a + b) == Rest(Rest(a) + b)
    decreases |a|
  {
    var k := IndexOfBoundary(a);
    if k >= 0 {
      forall i | 0 <= i < k
        ensures !BoundaryAt(a + b, i)
      {
        assert !BoundaryAt(a, i);
      }
      FirstBoundary(a + b, k);
      assert (a + b)[..k] == a[..k];
      assert (a + b)[k + 2..] == a[k + 2..] + b;
      Resume(a[k + 2..], b);
    }
  }

  lemma {:induction false} RestHasNoBlock(s: string)
    ensures Blocks(Rest(s)) == [] && Rest(Rest(s)) == Rest(s)
    decreases |s|
  {
    var k := IndexOfBoundary(s);
    if k >= 0 {
      RestHasNoBlock(s[k + 2..]);
    }
  }

  /** What the reader sees is what was between the boundaries, and nothing is lost. */
  lemma {:induction false} BlocksAndRestRejoin(s: string)
    ensures s == Joined(Blocks(s)) + Rest(s)
    decreases |s|
  {
    var k := IndexOfBoundary(s);
    if k >= 0 {
      var block, after := s[..k], s[k + 2..];
      BlocksAndRestRejoin(after);
      JoinedFirst(block, Blocks(after));
      Associates(block + "\n\n", Joined(Blocks(after)), Rest(after));
      CutAtBoundary(s, k);
      assert Blocks(s) == [block] + Blocks(after) && Rest(s) == Rest(after);
    }
  }

  lemma CutAtBoundary(s: string, k: nat)
    requires BoundaryAt(s, k)
    ensures s == s[..k] + "\n\n" + s[k + 2..]
  {
  }

  lemma JoinedFirst(block: string, blocks: seq<string>)
    ensures Joined([block] + blocks) == block + "\n\n" + Joined(blocks)
  {
    assert ([block] + blocks)[1..] == blocks;
  }

  /** Blocks written out, each with the blank line that ends it. */
  function Joined(blocks: seq<string>): string {
    if blocks == [] then "" else blocks[0] + "\n\n" + Joined(blocks[1..])
  }

  /** The value of the last `event:` line. */
  function EventName(lines: seq<string>): string {
    if lines == [] then "message"
    else
      var last := lines[|lines| - 1];
      if StartsWith(last, "event:") then
        var name := Trim(last[6..]);
        if name == "" then "message" else name
      else EventName(lines[..|lines| - 1])
  }

  function DataLines(lines: seq<string>): seq<string> {
    if lines == [] then []
    else
      var last := lines[|lines| - 1];
      DataLines(lines[..|lines| - 1]) + if StartsWith(last, "data:") then [TrimStart(last[5..])] else []
  }

  function EventOf(block: string): Event {
    var lines := Split(block, '\n');
    Event(EventName(lines), Join(DataLines(lines), "\n"))
  }

  /** What one more line does. */
  lemma LineStep(lines: seq<string>, i: nat)
    requires i < |lines|
    ensures var line := lines[i];
      && EventName(lines[..i + 1]) == (if !StartsWith(line, "event:") then EventName(lines[..i])
                                       else if Trim(line[6..]) == "" then "message" else Trim(line[6..]))
      && DataLines(lines[..i + 1]) ==
           DataLines(lines[..i]) + (if StartsWith(line, "data:") then [TrimStart(line[5..])] else [])
  {
    assert lines[..i + 1][..i] == lines[..i];
  }

  /** No line has two meanings. */
  lemma LineKinds(line: string)
    ensures StartsWith(line, ":") || line == "" ==> !StartsWith(line, "event:") && !StartsWith(line, "data:")
    ensures StartsWith(line, "event:") ==> !StartsWith(line, "data:")
  {
    assert StartsWith(line, ":") ==> line[0] == ':';
    assert StartsWith(line, "event:") ==> line[0] == 'e';
    assert StartsWith(line, "data:") ==> line[0] == 'd';
  }

  method ParseSseChunk(chunk: string) returns (event: Event)
    ensures event == EventOf(chunk)
  {
    var name := "message";
    var dataLines: seq<string> := [];
    var lines := Split(chunk, '\n');
    for i := 0 to |lines|
      invariant name == EventName(lines[..i]) && dataLines == DataLines(lines[..i])
    {
      var line := lines[i];
      LineStep(lines, i);
      LineKinds(line);
      if line == "" || StartsWith(line, ":") {
        continue;
      }
      if StartsWith(line, "event:") {
        name := Trim(line[6..]);
        if name == "" {
          name := "message";
        }
        continue;
      }
      if StartsWith(line, "data:") {
        dataLines := dataLines + [TrimStart(line[5..])];
      }
    }
    assert lines[..|lines|] == lines;
    event := Event(name, Join(dataLines, "\n"));
  }

  /** The event of a block, unless it is blank; carriage returns are dropped inside a block only. */
  function EventsIn(block: string): seq<Event> {
    var raw := Without(block, '\r');
    if Trim(raw) == "" then [] else [EventOf(raw)]
  }

  function EventsOf(blocks: seq<string>): seq<Event> {
    FlatMap(blocks, EventsIn)
  }

  lemma NextBlock(done: seq<string>, s: string)
    requires IndexOfBoundary(s) >= 0
    ensures var b := IndexOfBoundary(s);
      done + Blocks(s) == (done + [s[..b]]) + Blocks(s[b + 2..]) && Rest(s) == Rest(s[b + 2..])
  {
    var b := IndexOfBoundary(s);
    MoveOver(done, s[..b], Blocks(s[b + 2..]));
  }

  method ParseSseBlocks(buffer: string) returns (events: seq<Event>, remaining: string)
    ensures events == EventsOf(Blocks(buffer))
    ensures remaining == Rest(buffer)
  {
    events, remaining := [], buffer;
    var boundary := IndexOfBoundary(remaining);
    ghost var done: seq<string> := [];
    while boundary >= 0
      invariant boundary == IndexOfBoundary(remaining)
      invariant Blocks(buffer) == done + Blocks(remaining) && Rest(buffer) == Rest(remaining)
      invariant events == EventsOf(done)
      decreases |remaining|
    {
      ghost var block := remaining[..boundary];
      NextBlock(done, remaining);
      var rawBlock := Without(remaining[..boundary], '\r');
      remaining := remaining[boundary + 2..];
      boundary := IndexOfBoundary(remaining);
      FlatMapOneMore(done, block, EventsIn);
      done := done + [block];
      if Trim(rawBlock) == "" {
        continue;
      }
      var event := ParseSseChunk(rawBlock);
      events := events + [event];
    }
    assert Blocks(buffer) == done;
  }

  /** Reading chunk by chunk, carrying the remainder. */
  function Incremental(buffer: string, chunks: seq<string>): (seq<Event>, string)
    decreases |chunks|
  {
    if chunks == [] then ([], buffer)
    else
      var text := buffer + chunks[0];
      var more := Incremental(Rest(text), chunks[1..]);
      (EventsOf(Blocks(text)) + more.0, more.1)
  }

  /** Any chunking gives the events and the remainder of the whole text. */
  lemma {:induction false} IncrementalIsBatch(buffer: string, chunks: seq<string>)
    requires Blocks(buffer) == [] && Rest(buffer) == buffer
    ensures Incremental(buffer, chunks) ==
      (EventsOf(Blocks(buffer + Concat(chunks))), Rest(buffer + Concat(chunks)))
    decreases |chunks|
  {
    if chunks == [] {
      assert buffer + Concat(chunks) == buffer;
    } else {
      var text := buffer + chunks[0];
      RestHasNoBlock(text);
      IncrementalIsBatch(Rest(text), chunks[1..]);
      ResumedEvents(text, Concat(chunks[1..]));
      Associates(buffer, chunks[0], Concat(chunks[1..]));
    }
  }

  lemma {:induction false} ResumedEvents(text: string, more: string)
    ensures EventsOf(Blocks(text + more)) == EventsOf(Blocks(text)) + EventsOf(Blocks(Rest(text) + more))
    ensures Rest(text + more) == Rest(Rest(text) + more)
  {
    Resume(text, more);
    FlatMapAppend(Blocks(text), Blocks(Rest(text) + more), EventsIn);
  }

  predicate HasCrLfLines(s: string) {
    forall i :: 0 <= i < |s| && s[i] == '\n' ==> i > 0 && s[i - 1] == '\r'
  }

  /** A stream whose lines end in CR LF, which the standard allows, has no blocks at all here. */
  lemma CrLfNeverEndsABlock(s: string)
    requires HasCrLfLines(s)
    ensures EventsOf(Blocks(s)) == [] && Rest(s) == s
  {
  }

  /** One event as `emit` writes it. */
  function Rendered(e: Event): string {
    "event: " + e.name + "\n" + "data: " + e.data + "\n\n"
  }

  function RenderedAll(events: seq<Event>): string {
    if events == [] then ""
    else RenderedAll(events[..|events| - 1]) + Rendered(events[|events| - 1])
  }

  /** An event that survives the format: a trimmed name, and one line of data that does not begin
      with white space. */
  predicate Plain(e: Event) {
    && e.name != "" && Trim(e.name) == e.name && '\n' !in e.name && '\r' !in e.name
    && e.data != "" && !IsSpace(e.data[0]) && '\n' !in e.data && '\r' !in e.data
  }

  function BlockOf(e: Event): string {
    "event: " + e.name + "\n" + "data: " + e.data
  }

  lemma TrimStartSpace(s: string)
    requires s != "" && !IsSpace(s[0])
    ensures TrimStart(" " + s) == s
  {
    assert (" " + s)[1..] == s;
  }

  lemma TrimIdentity(s: string)
    requires Trim(s) == s && s != ""
    ensures !IsSpace(s[0])
  {
  }

  lemma SplitTwo(a: string, b: string)
    requires '\n' !in a && '\n' !in b
    ensures Split(a + "\n" + b, '\n') == [a, b]
  {
    var s := a + "\n" + b;
    assert s[..|a|] == a && s[|a| + 1..] == b;
    IndexOfCharIs(s, '\n', |a|);
  }

  lemma {:induction false} TwoLines(first: string, second: string)
    requires StartsWith(first, "event:") && StartsWith(second, "data:")
    requires Trim(first[6..]) != ""
    ensures EventName([first, second]) == Trim(first[6..])
    ensures DataLines([first, second]) == [TrimStart(second[5..])]
  {
    var lines := [first, second];
    LineKinds(first);
    LineKinds(second);
    LineStep(lines, 0);
    LineStep(lines, 1);
    assert lines[..0] == [] && lines[..2] == lines;
  }

  lemma AfterColon(e: Event)
    ensures StartsWith("event: " + e.name, "event:") && ("event: " + e.name)[6..] == " " + e.name
    ensures StartsWith("data: " + e.data, "data:") && ("data: " + e.data)[5..] == " " + e.data
  {
  }

  /** Parsing gives back what was written. */
  lemma ParseRendered(e: Event)
    requires Plain(e)
    ensures EventOf(BlockOf(e)) == e
  {
    var first, second := "event: " + e.name, "data: " + e.data;
    assert BlockOf(e) == first + "\n" + second;
    SplitTwo(first, second);
    AfterColon(e);
    TrimIdentity(e.name);
    TrimStartSpace(e.name);
    TrimStartSpace(e.data);
    TwoLines(first, second);
  }

  function BlocksOf(events: seq<Event>): seq<string> {
    seq(|events|, i requires 0 <= i < |events| => BlockOf(events[i]))
  }

  lemma OneRendered(e: Event)
    requires Plain(e)
    ensures Blocks(Rendered(e)) == [BlockOf(e)] && Rest(Rendered(e)) == ""
  {
    var s := Rendered(e);
    assert s == BlockOf(e) + "\n\n";
    OnlyOneNewline(e);
    FirstBoundary(s, |BlockOf(e)|);
    assert s[|BlockOf(e)| + 2..] == "" && s[..|BlockOf(e)|] == BlockOf(e);
  }

  lemma OnlyOneNewline(e: Event)
    requires Plain(e)
    ensures forall k :: 0 <= k < |BlockOf(e)| ==> !BoundaryAt(Rendered(e), k)
    ensures BoundaryAt(Rendered(e), |BlockOf(e)|)
  {
    var first, second := "event: " + e.name, "data: " + e.data;
    var s := Rendered(e);
    assert s == first + "\n" + second + "\n\n";
    assert s[|first| + 1] == 'd';
    assert forall k :: 0 <= k < |first| ==> s[k] == first[k];
    assert forall k :: |first| < k < |BlockOf(e)| ==> s[k] == second[k - |first| - 1];
  }

  lemma RenderedLast(text: string, e: Event)
    requires Plain(e) && Rest(text) == ""
    ensures Blocks(text + Rendered(e)) == Blocks(text) + [BlockOf(e)] && Rest(text + Rendered(e)) == ""
  {
    OneRendered(e);
    Resume(text, Rendered(e));
    assert "" + Rendered(e) == Rendered(e);
  }

  lemma BlocksOfLast(events: seq<Event>)
    requires events != []
    ensures BlocksOf(events) == BlocksOf(events[..|events| - 1]) + [BlockOf(events[|events| - 1])]
  {
  }

  /** A written stream reads back as the blocks it was written from, with nothing left over. */
  lemma {:induction false} BlocksOfRendered(events: seq<Event>)
    requires forall i :: 0 <= i < |events| ==> Plain(events[i])
    ensures Blocks(RenderedAll(events)) == BlocksOf(events) && Rest(RenderedAll(events)) == ""
  {
    if events != [] {
      var front, last := events[..|events| - 1], events[|events| - 1];
      BlocksOfRendered(front);
      RenderedLast(RenderedAll(front), last);
      BlocksOfLast(events);
    }
  }
}
