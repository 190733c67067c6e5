/** The browser side of a streamed chat (dashboard/app/v2/api.ts, `sendLlmChatStream`;
    dashboard/app/v2/llm-stream.ts, `dispatchLlmStreamEvent`), and the two sides together. */
module LlmClient {
  import opened JsText
  import opened Options
  import opened JsonValue
  import opened Sse
  import opened LlmRelay

  datatype Call =
    | OnMeta(conversationId: int, mode: string, modelId: string, startedAt: string)
    | OnDelta(number: int, text: string)
    | OnDone(conversationId: int, id: int, content: string, createdAt: string, modelId: string)
    | OnError(code: string, message: string)

  /** `Crash`: reading a field of a `null` payload throws. */
  datatype Outcome = Quiet | Act(call: Call, terminal: bool) | Crash

  function CallFor(name: string, json: Json): Outcome {
    var payload := Some(json);
    var message := Field(payload, "assistantMessage");
    if name == "meta" then
      Act(OnMeta(NumberOf(Field(payload, "conversationId")),
                 if StringOr(Field(payload, "mode"), "local") == "online" then "online" else "local",
                 StringOr(Field(payload, "modelId"), ""), StringOr(Field(payload, "startedAt"), "")), false)
    else if name == "delta" then
      Act(OnDelta(NumberOf(Field(payload, "seq")), StringOr(Field(payload, "text"), "")), false)
    else if name == "done" then
      Act(OnDone(NumberOf(Field(payload, "conversationId")), NumberOf(Field(message, "id")),
                 StringOr(Field(message, "content"), ""), StringOr(Field(message, "createdAt"), ""),
                 StringOr(Field(message, "modelId"), "")), true)
    else if name == "error" then
      Act(OnError(StringOr(Field(payload, "code"), "upstream_error"),
                  StringOr(Field(payload, "message"), "Stream failed")), true)
    else Quiet
  }

  /** `dispatchLlmStreamEvent`. */
  function Dispatch(e: Event, parse: Parse): Outcome {
    if e.data == "" then Quiet
    else match parse(e.data)
      case Malformed(_) => Act(OnError("parse_error", "Malformed stream payload"), true)
      case Parsed(json) =>
        if json.Null? && e.name in ["meta", "delta", "done", "error"] then Crash else CallFor(e.name, json)
  }

  /** The handler calls so far, and whether a terminal event was seen or the client threw. */
  datatype Progress = Progress(calls: seq<Call>, terminal: bool, crashed: bool)

  /** How one raw block changes the progress. */
  type Taker = (Progress, string) -> Progress

  const START := Progress([], false, false)

  function Take(p: Progress, raw: string, parse: Parse): Progress {
    if p.crashed || Trim(raw) == "" then p
    else match Dispatch(EventOf(raw), parse)
      case Quiet => p
      case Act(call, terminal) => p.(calls := p.calls + [call], terminal := p.terminal || terminal)
      case Crash => p.(crashed := true)
  }

  function TakerOf(parse: Parse): Taker {
    (p, raw) => Take(p, raw, parse)
  }

  function TakeAll(p: Progress, blocks: seq<string>, take: Taker): Progress {
    if blocks == [] then p else take(TakeAll(p, blocks[..|blocks| - 1], take), blocks[|blocks| - 1])
  }

  predicate Over(p: Progress) {
    p.terminal || p.crashed
  }

  /** Once the run is over it stays over. */
  ghost predicate Sticky(take: Taker) {
    forall p, raw :: Over(p) ==> Over(take(p, raw))
  }

  /** Blocks up to the one that ends the run. */
  function TakeUntilOver(p: Progress, blocks: seq<string>, take: Taker): Progress
    decreases |blocks|
  {
    if blocks == [] || Over(p) then p else TakeUntilOver(take(p, blocks[0]), blocks[1..], take)
  }

  lemma {:induction false} TakeAllAppend(p: Progress, a: seq<string>, b: seq<string>, take: Taker)
    ensures TakeAll(p, a + b, take) == TakeAll(TakeAll(p, a, take), b, take)
    decreases |b|
  {
    if b == [] {
      assert a + b == a;
    } else {
      assert (a + b)[..|a + b| - 1] == a + b[..|b| - 1];
      TakeAllAppend(p, a, b[..|b| - 1], take);
    }
  }

  lemma {:induction false} StaysOver(p: Progress, blocks: seq<string>, take: Taker)
    requires Sticky(take) && Over(p)
    ensures Over(TakeAll(p, blocks, take))
  {
    if blocks != [] {
      StaysOver(p, blocks[..|blocks| - 1], take);
    }
  }

  /** What the decoded chunks amount to once carriage returns are gone. */
  function Stripped(chunks: seq<string>): string {
    if chunks == [] then "" else Without(chunks[0], '\r') + Stripped(chunks[1..])
  }

  /** Every block of the stream, the unfinished last one included. */
  function AllBlocks(text: string): seq<string> {
    Blocks(text) + [Rest(text)]
  }

  class LlmStreamClient {
    const parse: Parse
    var buffer: string
    var progress: Progress

    constructor (parse: Parse)
      ensures this.parse == parse && buffer == "" && progress == START
    {
      this.parse, buffer, progress := parse, "", START;
    }

    method DispatchRaw(raw: string)
      modifies this`progress
      ensures progress == TakerOf(parse)(old(progress), raw)
    {
      if progress.crashed || Trim(raw) == "" {
        return;
      }
      var event := ParseSseChunk(raw);
      match Dispatch(event, parse) {
        case Quiet =>
        case Act(call, terminal) =>
          progress := progress.(calls := progress.calls + [call], terminal := progress.terminal || terminal);
        case Crash =>
          progress := progress.(crashed := true);
      }
    }

    /** The inner loop does not stop at a terminal event. */
    method ReceiveChunk(chunk: string)
      requires !Over(progress)
      modifies this
      ensures var text := old(buffer) + Without(chunk, '\r');
        progress == TakeAll(old(progress), Blocks(text), TakerOf(parse)) && buffer == Rest(text)
    {
      buffer := buffer + Without(chunk, '\r');
      ghost var text := buffer;
      ghost var done: seq<string> := [];
      var boundary := IndexOfBoundary(buffer);
      while boundary >= 0
        invariant boundary == IndexOfBoundary(buffer)
        invariant Blocks(text) == done + Blocks(buffer) && Rest(text) == Rest(buffer)
        invariant progress == TakeAll(old(progress), done, TakerOf(parse))
        decreases |buffer|
      {
        var raw := buffer[..boundary];
        NextBlock(done, buffer);
        buffer := buffer[boundary + 2..];
        boundary := IndexOfBoundary(buffer);
        DispatchRaw(raw);
        assert (done + [raw])[..|done|] == done;
        done := done + [raw];
      }
      assert Blocks(text) == done;
    }

    /** After the body has ended: whatever is left, up to a terminal event. */
    method ReceiveRest(tail: string)
      requires !Over(progress)
      modifies this
      ensures progress == TakeUntilOver(old(progress), AllBlocks(old(buffer) + Without(tail, '\r')), TakerOf(parse))
    {
      buffer := buffer + Without(tail, '\r');
      var blocks := AllBlocks(buffer);
      var i := 0;
      while i < |blocks| && !Over(progress)
        invariant i <= |blocks|
        invariant TakeUntilOver(old(progress), blocks, TakerOf(parse)) ==
          TakeUntilOver(progress, blocks[i..], TakerOf(parse))
      {
        DispatchRaw(blocks[i]);
        assert blocks[i..][1..] == blocks[i + 1..];
        i := i + 1;
      }
    }

    /** The whole read loop; `tail` is what the decoder still held. `ended` is the error thrown when
        the body ends without a terminal event. */
    method Receive(chunks: seq<string>, tail: string) returns (ended: bool)
      requires buffer == "" && progress == START
      modifies this
      ensures progress == Received(chunks, tail, TakerOf(parse))
      ensures ended <==> !Over(progress)
    {
      var i := 0;
      while i < |chunks| && !Over(progress)
        invariant i <= |chunks|
        invariant ReadOn("", START, chunks, TakerOf(parse)) == ReadOn(buffer, progress, chunks[i..], TakerOf(parse))
      {
        ReceiveChunk(chunks[i]);
        assert chunks[i..][1..] == chunks[i + 1..];
        i := i + 1;
      }
      if !Over(progress) {
        ReceiveRest(tail);
      }
      ended := !Over(progress);
    }
  }

  /** The outer loop: the buffer and the progress once it stops. */
  function ReadOn(buffer: string, p: Progress, chunks: seq<string>, take: Taker): (string, Progress)
    decreases |chunks|
  {
    if chunks == [] || Over(p) then (buffer, p)
    else
      var text := buffer + Without(chunks[0], '\r');
      ReadOn(Rest(text), TakeAll(p, Blocks(text), take), chunks[1..], take)
  }

  function Received(chunks: seq<string>, tail: string, take: Taker): Progress {
    var (buffer, p) := ReadOn("", START, chunks, take);
    if Over(p) then p else TakeUntilOver(p, AllBlocks(buffer + Without(tail, '\r')), take)
  }

  /** The loop has taken some beginning of the blocks; all of them unless it stopped early. */
  lemma {:induction false} ReadsABeginning(buffer: string, p: Progress, chunks: seq<string>, take: Taker)
    returns (m: nat)
    requires Blocks(buffer) == [] && Rest(buffer) == buffer
    ensures var text := buffer + Stripped(chunks);
      var (rest, q) := ReadOn(buffer, p, chunks, take);
      && m <= |Blocks(text)| && q == TakeAll(p, Blocks(text)[..m], take)
      && (!Over(q) ==> m == |Blocks(text)| && rest == Rest(text))
    decreases |chunks|
  {
    var text := buffer + Stripped(chunks);
    if chunks == [] || Over(p) {
      m := 0;
      assert chunks == [] ==> text == buffer;
    } else {
      var first := buffer + Without(chunks[0], '\r');
      RestHasNoBlock(first);
      Resume(first, Stripped(chunks[1..]));
      assert first + Stripped(chunks[1..]) == text;
      var q := TakeAll(p, Blocks(first), take);
      var k := ReadsABeginning(Rest(first), q, chunks[1..], take);
      m := |Blocks(first)| + k;
      var more := Blocks(Rest(first) + Stripped(chunks[1..]));
      assert Blocks(text)[..m] == Blocks(first) + more[..k];
      TakeAllAppend(p, Blocks(first), more[..k], take);
    }
  }

  /** Nothing that comes in a complete block after the end of the run would act. */
  ghost predicate QuietAfterEnd(blocks: seq<string>, take: Taker) {
    forall m :: 0 <= m <= |blocks| && Over(TakeAll(START, blocks[..m], take)) ==>
      TakeAll(START, blocks[..m], take) == TakeAll(START, blocks, take)
  }

  /** If nothing acts after the end, every chunking of a stream makes the same calls. */
  lemma SameForEveryChunking(chunks: seq<string>, tail: string, take: Taker)
    requires QuietAfterEnd(Blocks(Stripped(chunks)), take)
    ensures Received(chunks, tail, take) == Received([Stripped(chunks)], tail, take)
  {
    var text := Stripped(chunks);
    var whole := [text];
    StrippedTwice(chunks);
    assert Stripped(whole) == Without(text, '\r') + "" == text;
    assert "" + text == text;
    var m := ReadsABeginning("", START, chunks, take);
    var n := ReadsABeginning("", START, whole, take);
    var q, r := ReadOn("", START, chunks, take).1, ReadOn("", START, whole, take).1;
    assert Over(q) ==> q == TakeAll(START, Blocks(text), take);
    assert Over(r) ==> r == TakeAll(START, Blocks(text), take);
    assert Blocks(text)[..|Blocks(text)|] == Blocks(text);
  }

  lemma {:induction false} StrippedTwice(chunks: seq<string>)
    ensures '\r' !in Stripped(chunks) && Without(Stripped(chunks), '\r') == Stripped(chunks)
  {
    if chunks != [] {
      StrippedTwice(chunks[1..]);
      WithoutAbsent(Stripped(chunks), '\r');
    }
  }

  /** Otherwise the chunking shows: cut right after a block that ends the run, the rest is lost;
      uncut, it is still dispatched. */
  lemma ChunkingShows(text: string, tail: string, take: Taker) returns (cut: seq<string>)
    requires Sticky(take) && '\r' !in text && !QuietAfterEnd(Blocks(text), take)
    ensures Stripped(cut) == text && Received(cut, tail, take) != Received([text], tail, take)
  {
    var blocks := Blocks(text);
    var m :| 0 <= m <= |blocks| && Over(TakeAll(START, blocks[..m], take))
      && TakeAll(START, blocks[..m], take) != TakeAll(START, blocks, take);
    var rest := CutAfter(text, m);
    var head := Joined(blocks[..m]);
    cut := [head, rest];
    StrippedPair(head, rest);
    OneChunk(head, [rest], tail, take);
    OneChunk(text, [], tail, take);
    assert [head] + [rest] == cut && [text] + [] == [text];
    assert blocks[..m] + blocks[m..] == blocks;
    TakeAllAppend(START, blocks[..m], blocks[m..], take);
    StaysOver(TakeAll(START, blocks[..m], take), blocks[m..], take);
  }

  lemma StrippedPair(a: string, b: string)
    requires '\r' !in a + b
    ensures '\r' !in a && Stripped([a, b]) == a + b
  {
    NoReturns(a, b);
    assert [a, b][1..] == [b];
    assert Stripped([b]) == b + "" == b;
  }

  /** The chunking of a stream makes no difference exactly when nothing acts after its end. */
  lemma ChunkingIsInvisible(text: string, tail: string, take: Taker)
    requires Sticky(take) && '\r' !in text
    ensures QuietAfterEnd(Blocks(text), take) <==>
      forall chunks :: Stripped(chunks) == text ==> Received(chunks, tail, take) == Received([text], tail, take)
  {
    if QuietAfterEnd(Blocks(text), take) {
      forall chunks | Stripped(chunks) == text
        ensures Received(chunks, tail, take) == Received([text], tail, take)
      {
        SameForEveryChunking(chunks, tail, take);
      }
    } else {
      var cut := ChunkingShows(text, tail, take);
    }
  }

  /** A run that ends within its first chunk. */
  lemma OneChunk(chunk: string, more: seq<string>, tail: string, take: Taker)
    requires '\r' !in chunk
    ensures Over(TakeAll(START, Blocks(chunk), take)) ==>
      Received([chunk] + more, tail, take) == TakeAll(START, Blocks(chunk), take)
  {
    var chunks := [chunk] + more;
    var text := "" + Without(chunks[0], '\r');
    WithoutAbsent(chunk, '\r');
    assert text == chunk;
    assert ReadOn("", START, chunks, take) == ReadOn(Rest(text), TakeAll(START, Blocks(text), take), chunks[1..], take);
  }

  lemma NoReturns(a: string, b: string)
    requires '\r' !in a + b
    ensures Without(a, '\r') == a && Without(b, '\r') == b
  {
    assert forall c :: c in a || c in b ==> c in a + b;
    WithoutAbsent(a, '\r');
    WithoutAbsent(b, '\r');
  }

  /** The first block of a text stays the first block whatever follows it. */
  lemma FirstBlock(text: string, more: string)
    requires IndexOfBoundary(text) >= 0
    ensures var block := text[..IndexOfBoundary(text)];
      Blocks(block + "\n\n" + more) == [block] + Blocks(more)
  {
    var b := IndexOfBoundary(text);
    var head := text[..b] + "\n\n" + more;
    assert forall i :: 0 <= i < b + 2 ==> head[i] == text[i];
    assert forall i :: 0 <= i < b && BoundaryAt(head, i) ==> BoundaryAt(text, i);
    FirstBoundary(head, b);
    assert head[..b] == text[..b] && head[b + 2..] == more;
  }

  lemma {:induction false} JoinedAppend(a: seq<string>, b: seq<string>)
    ensures Joined(a + b) == Joined(a) + Joined(b)
  {
    if a == [] {
      assert a + b == b;
    } else {
      assert (a + b)[1..] == a[1..] + b;
      JoinedAppend(a[1..], b);
    }
  }

  lemma {:induction false} BlocksOfJoined(text: string, m: nat)
    requires m <= |Blocks(text)|
    ensures Blocks(Joined(Blocks(text)[..m])) == Blocks(text)[..m]
    decreases |text|
  {
    if m > 0 {
      var b := IndexOfBoundary(text);
      var after := Blocks(text[b + 2..]);
      BlocksOfJoined(text[b + 2..], m - 1);
      assert Blocks(text)[..m] == [text[..b]] + after[..m - 1];
      JoinedAppend([text[..b]], after[..m - 1]);
      FirstBlock(text, Joined(after[..m - 1]));
    }
  }

  /** A stream can be cut after any of its blocks. */
  lemma CutAfter(text: string, m: nat) returns (rest: string)
    requires m <= |Blocks(text)|
    ensures text == Joined(Blocks(text)[..m]) + rest
    ensures Blocks(Joined(Blocks(text)[..m])) == Blocks(text)[..m]
  {
    var blocks := Blocks(text);
    rest := Joined(blocks[m..]) + Rest(text);
    BlocksAndRestRejoin(text);
    assert blocks == blocks[..m] + blocks[m..];
    JoinedAppend(blocks[..m], blocks[m..]);
    BlocksOfJoined(text, m);
  }

  function DeltaCalls(texts: seq<string>): seq<Call> {
    seq(|texts|, i requires 0 <= i < |texts| => OnDelta(i + 1, texts[i]))
  }

  function TerminalCall(chat: Chat, relayed: Relayed, stored: Option<Stored>): Call {
    var content := Trim(Concat(relayed.deltas));
    if relayed.fault.Some? then ErrorCall("upstream_error", relayed.fault.value)
    else if content == "" then OnError("upstream_error", "LLM returned an empty response")
    else if stored.None? then OnError("persistence_error", "Unable to persist streamed assistant message")
    else DoneCall(chat, stored.value, content)
  }

  function OpeningCalls(chat: Chat, texts: seq<string>): seq<Call> {
    [MetaCall(chat)] + DeltaCalls(texts)
  }

  /** The calls of a whole run: one meta, the deltas numbered from one, one terminal call. */
  function ExpectedCalls(chat: Chat, relayed: Relayed, stored: Option<Stored>): seq<Call> {
    OpeningCalls(chat, relayed.deltas) + [TerminalCall(chat, relayed, stored)]
  }

  /** A block that adds one call, and perhaps ends the run. */
  ghost predicate Says(raw: string, call: Call, terminal: bool, take: Taker) {
    forall p: Progress :: !p.crashed ==>
      take(p, raw) == p.(calls := p.calls + [call], terminal := p.terminal || terminal)
  }

  /** A written event is dispatched as itself. */
  lemma WrittenSays(e: Event, call: Call, terminal: bool, parse: Parse)
    requires Plain(e) && Dispatch(e, parse) == Act(call, terminal)
    ensures Says(BlockOf(e), call, terminal, TakerOf(parse))
  {
    ParseRendered(e);
    assert BlockOf(e)[0] == 'e';
  }

  lemma ClientIsSticky(parse: Parse)
    ensures Sticky(TakerOf(parse))
  {
  }

  lemma {:induction false} Word(name: string)
    requires name in ["meta", "delta", "done", "error"]
    ensures name != "" && Trim(name) == name && '\n' !in name && '\r' !in name
  {
    assert !IsSpace(name[0]) && !IsSpace(name[|name| - 1]);
  }

  /** The payload of an emitted event comes out of the stream as it went in. */
  lemma PayloadSurvives(name: string, payload: Json, call: Call, terminal: bool, stringify: Stringify, parse: Parse)
    requires IsCodec(stringify, parse) && payload.Obj? && name in ["meta", "delta", "done", "error"]
    requires CallFor(name, payload) == Act(call, terminal)
    ensures var e := Event(name, stringify(payload));
      Plain(e) && Says(BlockOf(e), call, terminal, TakerOf(parse))
  {
    Word(name);
    assert parse(stringify(payload)) == Parsed(payload) && Braced(stringify(payload));
    WrittenSays(Event(name, stringify(payload)), call, terminal, parse);
  }

  function MetaCall(chat: Chat): Call {
    OnMeta(chat.conversationId, chat.mode, chat.modelId, chat.startedAt)
  }

  lemma MetaArrives(chat: Chat, stringify: Stringify, parse: Parse)
    requires IsCodec(stringify, parse) && (chat.mode == "local" || chat.mode == "online")
    ensures var e := MetaEvent(chat, stringify);
      Plain(e) && Says(BlockOf(e), MetaCall(chat), false, TakerOf(parse))
  {
    PayloadSurvives("meta", MetaPayload(chat), MetaCall(chat), false, stringify, parse);
  }

  lemma DeltaArrives(number: nat, text: string, stringify: Stringify, parse: Parse)
    requires IsCodec(stringify, parse) && text != ""
    ensures var e := DeltaEvent(number, text, stringify);
      Plain(e) && Says(BlockOf(e), OnDelta(number, text), false, TakerOf(parse))
  {
    PayloadSurvives("delta", DeltaPayload(number, text), OnDelta(number, text), false, stringify, parse);
  }

  function ErrorCall(code: string, message: string): Call {
    OnError(code, if message == "" then "Stream failed" else message)
  }

  lemma ErrorArrives(code: string, message: string, stringify: Stringify, parse: Parse)
    requires IsCodec(stringify, parse) && code != ""
    ensures var e := ErrorEvent(code, message, stringify);
      Plain(e) && Says(BlockOf(e), ErrorCall(code, message), true, TakerOf(parse))
  {
    PayloadSurvives("error", ErrorPayload(code, message), ErrorCall(code, message), true, stringify, parse);
  }

  function DoneCall(chat: Chat, stored: Stored, content: string): Call {
    OnDone(chat.conversationId, stored.id, content, stored.createdAt, chat.modelId)
  }

  lemma {:induction false} DoneArrives(chat: Chat, stored: Stored, content: string, stringify: Stringify, parse: Parse)
    requires IsCodec(stringify, parse)
    ensures var e := DoneEvent(chat, stored, content, stringify);
      Plain(e) && Says(BlockOf(e), DoneCall(chat, stored, content), true, TakerOf(parse))
  {
    PayloadSurvives(
      "done", DonePayload(chat, stored, content), DoneCall(chat, stored, content), true, stringify, parse);
  }

  lemma TerminalArrives(chat: Chat, relayed: Relayed, stored: Option<Stored>, stringify: Stringify, parse: Parse)
    requires IsCodec(stringify, parse)
    ensures var e := TerminalEvent(chat, relayed, stored, stringify);
      Plain(e) && Says(BlockOf(e), TerminalCall(chat, relayed, stored), true, TakerOf(parse))
  {
    var content := Trim(Concat(relayed.deltas));
    if relayed.fault.Some? {
      ErrorArrives("upstream_error", relayed.fault.value, stringify, parse);
    } else if content == "" {
      ErrorArrives("upstream_error", "LLM returned an empty response", stringify, parse);
    } else if stored.None? {
      ErrorArrives("persistence_error", "Unable to persist streamed assistant message", stringify, parse);
    } else {
      DoneArrives(chat, stored.value, content, stringify, parse);
    }
  }

  /** Blocks that add these calls and do not end the run. */
  ghost predicate Speak(blocks: seq<string>, calls: seq<Call>, take: Taker) {
    |blocks| == |calls| && forall i :: 0 <= i < |blocks| ==> Says(blocks[i], calls[i], false, take)
  }

  lemma {:induction false} CallsTaken(p: Progress, blocks: seq<string>, calls: seq<Call>, take: Taker)
    requires Speak(blocks, calls, take) && !p.crashed
    ensures TakeAll(p, blocks, take) == p.(calls := p.calls + calls)
  {
    if blocks == [] {
      assert p.calls + calls == p.calls;
    } else {
      var n := |blocks| - 1;
      CallsTaken(p, blocks[..n], calls[..n], take);
      assert Says(blocks[n], calls[n], false, take);
      AppendLast(p.calls, calls);
    }
  }

  lemma AppendLast<T>(a: seq<T>, b: seq<T>)
    requires b != []
    ensures a + b == (a + b[..|b| - 1]) + [b[|b| - 1]]
  {
  }

  lemma OpeningSpeaks(chat: Chat, texts: seq<string>, stringify: Stringify, parse: Parse)
    requires IsCodec(stringify, parse) && "" !in texts && (chat.mode == "local" || chat.mode == "online")
    ensures var opening := Opening(chat, texts, stringify);
      && Speak(BlocksOf(opening), OpeningCalls(chat, texts), TakerOf(parse))
      && forall i :: 0 <= i < |opening| ==> Plain(opening[i])
  {
    var opening := Opening(chat, texts, stringify);
    forall i | 0 <= i < |opening|
      ensures Plain(opening[i]) && Says(BlockOf(opening[i]), OpeningCalls(chat, texts)[i], false, TakerOf(parse))
    {
      OpeningEventArrives(chat, texts, i, stringify, parse);
    }
  }

  lemma OpeningEventArrives(chat: Chat, texts: seq<string>, i: nat, stringify: Stringify, parse: Parse)
    requires IsCodec(stringify, parse) && "" !in texts && (chat.mode == "local" || chat.mode == "online")
    requires i <= |texts|
    ensures var e := Opening(chat, texts, stringify)[i];
      Plain(e) && Says(BlockOf(e), OpeningCalls(chat, texts)[i], false, TakerOf(parse))
  {
    var e, call := Opening(chat, texts, stringify)[i], OpeningCalls(chat, texts)[i];
    if i == 0 {
      assert e == MetaEvent(chat, stringify) && call == MetaCall(chat);
      MetaArrives(chat, stringify, parse);
    } else {
      assert e == DeltaEvent(i, texts[i - 1], stringify) && call == OnDelta(i, texts[i - 1]);
      DeltaArrives(i, texts[i - 1], stringify, parse);
    }
  }

  lemma {:induction false} StrippedIsConcat(chunks: seq<string>)
    requires '\r' !in Concat(chunks)
    ensures Stripped(chunks) == Concat(chunks)
  {
    if chunks != [] {
      NoReturns(chunks[0], Concat(chunks[1..]));
      assert forall c :: c in Concat(chunks[1..]) ==> c in Concat(chunks);
      StrippedIsConcat(chunks[1..]);
    }
  }

  lemma {:induction false} NoReturnsWritten(events: seq<Event>)
    requires forall i :: 0 <= i < |events| ==> Plain(events[i])
    ensures '\r' !in RenderedAll(events)
  {
    if events != [] {
      NoReturnsWritten(events[..|events| - 1]);
    }
  }

  lemma WholeTaken(front: seq<string>, calls: seq<Call>, last: string, call: Call, take: Taker)
    requires Speak(front, calls, take) && Says(last, call, true, take)
    ensures TakeAll(START, front + [last], take) == Progress(calls + [call], true, false)
    ensures !Over(TakeAll(START, front, take))
  {
    CallsTaken(START, front, calls, take);
    assert [] + calls == calls;
    assert (front + [last])[..|front|] == front;
  }

  /** A stream whose last block ends the run is taken whole, however it is cut up. */
  lemma TakenWhole(front: seq<string>, last: string, chunks: seq<string>, tail: string, take: Taker)
    requires Sticky(take) && !Over(TakeAll(START, front, take)) && Over(TakeAll(START, front + [last], take))
    requires Blocks(Stripped(chunks)) == front + [last]
    ensures Received(chunks, tail, take) == TakeAll(START, front + [last], take)
  {
    var blocks := front + [last];
    assert "" + Stripped(chunks) == Stripped(chunks);
    var m := ReadsABeginning("", START, chunks, take);
    var k := if m <= |front| then m else |front|;
    NotOverBefore(front, k, take);
    assert front[..k] == blocks[..k];
    assert blocks[..|blocks|] == blocks;
  }

  lemma NotOverBefore(blocks: seq<string>, m: nat, take: Taker)
    requires Sticky(take) && m <= |blocks| && !Over(TakeAll(START, blocks, take))
    ensures !Over(TakeAll(START, blocks[..m], take))
  {
    assert blocks == blocks[..m] + blocks[m..];
    TakeAllAppend(START, blocks[..m], blocks[m..], take);
    if Over(TakeAll(START, blocks[..m], take)) {
      StaysOver(TakeAll(START, blocks[..m], take), blocks[m..], take);
    }
  }

  /** End to end: however the body of a completed run is cut up on its way, the browser's handlers
      are called with one meta, the deltas numbered from one, and one terminal event. */
  lemma {:induction false} EndToEnd(chat: Chat, input: seq<Read>, stored: Option<Stored>,
      stringify: Stringify, parse: Parse, chunks: seq<string>, tail: string)
    requires IsCodec(stringify, parse) && (chat.mode == "local" || chat.mode == "online")
    requires Concat(chunks) == RenderedAll(Script(chat, Relay(input, parse), stored, stringify))
    ensures Received(chunks, tail, TakerOf(parse)) ==
      Progress(ExpectedCalls(chat, Relay(input, parse), stored), true, false)
  {
    var relayed := Relay(input, parse);
    var opening, last := Opening(chat, relayed.deltas, stringify), TerminalEvent(chat, relayed, stored, stringify);
    DeltasNotEmpty(EventsOf(Blocks(TextOf(input))), parse);
    OpeningSpeaks(chat, relayed.deltas, stringify, parse);
    TerminalArrives(chat, relayed, stored, stringify, parse);
    StreamBlocks(opening, last, chunks);
    ClientIsSticky(parse);
    WholeTaken(BlocksOf(opening), OpeningCalls(chat, relayed.deltas), BlockOf(last),
               TerminalCall(chat, relayed, stored), TakerOf(parse));
    TakenWhole(BlocksOf(opening), BlockOf(last), chunks, tail, TakerOf(parse));
  }

  lemma StreamBlocks(opening: seq<Event>, last: Event, chunks: seq<string>)
    requires Plain(last) && forall i :: 0 <= i < |opening| ==> Plain(opening[i])
    requires Concat(chunks) == RenderedAll(opening + [last])
    ensures Blocks(Stripped(chunks)) == BlocksOf(opening) + [BlockOf(last)]
  {
    var events := opening + [last];
    NoReturnsWritten(events);
    StrippedIsConcat(chunks);
    BlocksOfRendered(events);
    assert BlocksOf(events) == BlocksOf(opening) + [BlockOf(last)];
  }

  /** The texts of the calls put together are the server's text, and `done` carries it trimmed. */
  lemma TextArrives(chat: Chat, relayed: Relayed, stored: Stored)
    requires relayed.fault.None? && Trim(Concat(relayed.deltas)) != ""
    ensures var calls := ExpectedCalls(chat, relayed, Some(stored));
      && Concat(CallTexts(calls)) == Concat(relayed.deltas)
      && calls[|calls| - 1] ==
           OnDone(chat.conversationId, stored.id, Trim(Concat(CallTexts(calls))), stored.createdAt, chat.modelId)
  {
    var calls := ExpectedCalls(chat, relayed, Some(stored));
    var deltas := DeltaCalls(relayed.deltas);
    var last := calls[|calls| - 1];
    assert [calls[0]] + deltas + [last] == calls;
    CallTextsAppend([calls[0]], deltas);
    CallTextsAppend([calls[0]] + deltas, [last]);
    DeltaTexts(relayed.deltas);
    assert CallTexts([calls[0]]) == [] && CallTexts([last]) == [];
    assert [] + relayed.deltas + [] == relayed.deltas;
  }

  function CallTexts(calls: seq<Call>): seq<string> {
    if calls == [] then []
    else
      var last := calls[|calls| - 1];
      CallTexts(calls[..|calls| - 1]) + if last.OnDelta? then [last.text] else []
  }

  lemma {:induction false} CallTextsAppend(a: seq<Call>, b: seq<Call>)
    ensures CallTexts(a + b) == CallTexts(a) + CallTexts(b)
    decreases |b|
  {
    if b == [] {
      assert a + b == a;
    } else {
      assert (a + b)[..|a + b| - 1] == a + b[..|b| - 1];
      CallTextsAppend(a, b[..|b| - 1]);
    }
  }

  lemma {:induction false} DeltaTexts(texts: seq<string>)
    ensures CallTexts(DeltaCalls(texts)) == texts
  {
    if texts != [] {
      var n := |texts| - 1;
      assert DeltaCalls(texts)[..n] == DeltaCalls(texts[..n]);
      DeltaTexts(texts[..n]);
    }
  }
}
