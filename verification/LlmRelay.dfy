/** The server side of a streamed chat (server/src/handlers/llm-handlers.js, `llmChatStreamHandler`):
    upstream events in, numbered deltas and one terminal event out. */
module LlmRelay {
  import opened JsText
  import opened Options
  import opened JsonValue
  import opened Sse

  /** What one read of the upstream body yields; the end of the list is the end of the body. */
  datatype Read = Chunk(text: string) | Fault(message: string)

  function PartTexts(parts: seq<Json>): string {
    if parts == [] then ""
    else
      var text := Field(Some(parts[0]), "text");
      (if IsString(text) then text.value.s else "") + PartTexts(parts[1..])
  }

  /** `extractStreamDeltaText`. */
  function DeltaText(payload: Json): string {
    var choices := Field(Some(payload), "choices");
    var choice := if IsArray(choices) && choices.value.items != [] then Some(choices.value.items[0]) else None;
    var content := Field(Field(choice, "delta"), "content");
    var whole := Field(Some(payload), "content");
    if IsString(content) then content.value.s
    else if IsArray(content) then PartTexts(content.value.items)
    else if IsString(Field(choice, "text")) then Field(choice, "text").value.s
    else if IsString(whole) then whole.value.s
    else ""
  }

  /** The texts relayed, and the error that cut them short, if any. */
  datatype Relayed = Relayed(deltas: seq<string>, fault: Option<string>)

  function AndThen(a: Relayed, b: Relayed): Relayed {
    if a.fault.Some? then a else Relayed(a.deltas + b.deltas, b.fault)
  }

  function RelayOne(e: Event, parse: Parse): Relayed {
    if e.data == "" || e.data == "[DONE]" then Relayed([], None)
    else match parse(e.data)
      case Malformed(message) => Relayed([], Some(message))
      case Parsed(payload) =>
        var delta := DeltaText(payload);
        Relayed(if delta == "" then [] else [delta], None)
  }

  function RelayAll(events: seq<Event>, parse: Parse): Relayed {
    if events == [] then Relayed([], None)
    else AndThen(RelayAll(events[..|events| - 1], parse), RelayOne(events[|events| - 1], parse))
  }

  lemma {:induction false} RelayAppend(a: seq<Event>, b: seq<Event>, parse: Parse)
    ensures RelayAll(a + b, parse) == AndThen(RelayAll(a, parse), RelayAll(b, parse))
    decreases |b|
  {
    if b == [] {
      assert a + b == a;
    } else {
      assert (a + b)[..|a + b| - 1] == a + b[..|b| - 1];
      RelayAppend(a, b[..|b| - 1], parse);
    }
  }

  /** Only non-empty texts are relayed. */
  lemma {:induction false} DeltasNotEmpty(events: seq<Event>, parse: Parse)
    ensures "" !in RelayAll(events, parse).deltas
  {
    if events != [] {
      DeltasNotEmpty(events[..|events| - 1], parse);
    }
  }

  /** Everything up to the first failed read, and that failure. */
  function TextOf(input: seq<Read>): string {
    if input == [] || input[0].Fault? then "" else input[0].text + TextOf(input[1..])
  }

  function FaultOf(input: seq<Read>): Option<string> {
    if input == [] then None
    else if input[0].Fault? then Some(input[0].message)
    else FaultOf(input[1..])
  }

  /** What a whole upstream comes to, whatever the chunking. */
  function RelayText(text: string, fault: Option<string>, parse: Parse): Relayed {
    AndThen(RelayAll(EventsOf(Blocks(text)), parse), Relayed([], fault))
  }

  function Relay(input: seq<Read>, parse: Parse): Relayed {
    RelayText(TextOf(input), FaultOf(input), parse)
  }

  datatype Chat = Chat(conversationId: int, mode: string, modelId: string, startedAt: string)

  /** The stored assistant message; `None` when storing it failed. */
  datatype Stored = Stored(id: int, createdAt: string)

  function MetaPayload(chat: Chat): Json {
    Obj(map["conversationId" := Num(chat.conversationId), "mode" := Str(chat.mode),
            "modelId" := Str(chat.modelId), "startedAt" := Str(chat.startedAt)])
  }

  function DeltaPayload(number: nat, text: string): Json {
    Obj(map["seq" := Num(number), "text" := Str(text)])
  }

  function ErrorPayload(code: string, message: string): Json {
    Obj(map["code" := Str(code), "message" := Str(message)])
  }

  function DonePayload(chat: Chat, stored: Stored, content: string): Json {
    var message := Obj(map[
      "id" := Num(stored.id), "role" := Str("assistant"), "content" := Str(content),
      "createdAt" := Str(stored.createdAt), "modelId" := Str(chat.modelId)]);
    Obj(map["conversationId" := Num(chat.conversationId), "assistantMessage" := message])
  }

  function MetaEvent(chat: Chat, stringify: Stringify): Event {
    Event("meta", stringify(MetaPayload(chat)))
  }

  function DeltaEvent(number: nat, text: string, stringify: Stringify): Event {
    Event("delta", stringify(DeltaPayload(number, text)))
  }

  function DeltaEvents(texts: seq<string>, stringify: Stringify): seq<Event> {
    seq(|texts|, i requires 0 <= i < |texts| => DeltaEvent(i + 1, texts[i], stringify))
  }

  function ErrorEvent(code: string, message: string, stringify: Stringify): Event {
    Event("error", stringify(ErrorPayload(code, message)))
  }

  function DoneEvent(chat: Chat, stored: Stored, content: string, stringify: Stringify): Event {
    Event("done", stringify(DonePayload(chat, stored, content)))
  }

  /** The one terminal event of a run that the client did not leave. */
  function TerminalEvent(chat: Chat, relayed: Relayed, stored: Option<Stored>, stringify: Stringify): Event {
    var content := Trim(Concat(relayed.deltas));
    if relayed.fault.Some? then ErrorEvent("upstream_error", relayed.fault.value, stringify)
    else if content == "" then ErrorEvent("upstream_error", "LLM returned an empty response", stringify)
    else if stored.None? then ErrorEvent("persistence_error", "Unable to persist streamed assistant message", stringify)
    else DoneEvent(chat, stored.value, content, stringify)
  }

  function Opening(chat: Chat, texts: seq<string>, stringify: Stringify): seq<Event> {
    [MetaEvent(chat, stringify)] + DeltaEvents(texts, stringify)
  }

  function Script(chat: Chat, relayed: Relayed, stored: Option<Stored>, stringify: Stringify): seq<Event> {
    Opening(chat, relayed.deltas, stringify) + [TerminalEvent(chat, relayed, stored, stringify)]
  }

  class Response {
    var body: string
    var ended: bool

    constructor ()
      ensures body == "" && !ended
    {
      body, ended := "", false;
    }

    method Write(text: string)
      requires !ended
      modifies this`body
      ensures body == old(body) + text
    {
      body := body + text;
    }

    method End()
      modifies this`ended
      ensures ended
    {
      ended := true;
    }
  }

  lemma RenderedOneMore(events: seq<Event>, e: Event)
    ensures RenderedAll(events + [e]) == RenderedAll(events) + Rendered(e)
  {
    assert (events + [e])[..|events|] == events;
  }

  lemma ConcatOneMore(texts: seq<string>, text: string)
    ensures Concat(texts + [text]) == Concat(texts) + text
  {
    if texts == [] {
      assert Concat([text]) == text + "" == "" + text;
    } else {
      assert (texts + [text])[1..] == texts[1..] + [text];
      ConcatOneMore(texts[1..], text);
    }
  }

  /** An `await`: the browser may have closed the connection meanwhile. */
  method Await(disconnected: bool) returns (now: bool)
    ensures disconnected ==> now
  {
    var closed: bool := *;
    now := disconnected || closed;
  }

  class ChatStream {
    const res: Response
    const chat: Chat
    const stringify: Stringify
    const parse: Parse
    var terminalSent: bool
    var buffer: string
    var number: nat
    var assistantText: string
    ghost var sent: seq<string>

    constructor (res: Response, chat: Chat, stringify: Stringify, parse: Parse)
      ensures this.res == res && this.chat == chat && this.stringify == stringify && this.parse == parse
      ensures !terminalSent && buffer == "" && number == 0 && assistantText == "" && sent == []
    {
      this.res, this.chat, this.stringify, this.parse := res, chat, stringify, parse;
      terminalSent, buffer, number, assistantText, sent := false, "", 0, "", [];
    }

    method Emit(e: Event)
      modifies res`body
      ensures res.body == old(res.body) + if res.ended then "" else Rendered(e)
    {
      if res.ended {
        return;
      }
      ghost var body := res.body;
      res.Write("event: " + e.name + "\n");
      res.Write("data: " + e.data + "\n\n");
      assert res.body == body + Rendered(e);
    }

    /** Sends at most one terminal event, and nothing can follow it. */
    method SendTerminal(e: Event)
      modifies this`terminalSent, res
      ensures old(terminalSent || res.ended) ==> res.body == old(res.body) && res.ended == old(res.ended)
      ensures !old(terminalSent || res.ended) ==> terminalSent && res.ended && res.body == old(res.body) + Rendered(e)
    {
      if terminalSent || res.ended {
        return;
      }
      terminalSent := true;
      Emit(e);
      res.End();
    }

    /** The texts relayed so far are on the wire, numbered from one. */
    ghost predicate Sent(texts: seq<string>)
      reads this, res
    {
      && !res.ended && !terminalSent
      && sent == texts && number == |texts| && assistantText == Concat(texts)
      && res.body == RenderedAll(Opening(chat, texts, stringify))
    }

    method SendDelta(delta: string)
      requires Sent(sent)
      modifies this`number, this`assistantText, this`sent, res`body
      ensures Sent(old(sent) + [delta])
    {
      number := number + 1;
      assistantText := assistantText + delta;
      var e := DeltaEvent(number, delta, stringify);
      RenderedOneMore(Opening(chat, sent, stringify), e);
      ConcatOneMore(sent, delta);
      assert Opening(chat, sent + [delta], stringify) == Opening(chat, sent, stringify) + [e];
      Emit(e);
      sent := sent + [delta];
    }

    /** Relays the events of one read, up to the first that does not parse. */
    method RelayEvents(events: seq<Event>) returns (fault: Option<string>)
      requires Sent(sent)
      modifies this`number, this`assistantText, this`sent, res`body
      ensures fault == RelayAll(events, parse).fault
      ensures Sent(old(sent) + RelayAll(events, parse).deltas)
    {
      for i := 0 to |events|
        invariant RelayAll(events[..i], parse).fault.None?
        invariant Sent(old(sent) + RelayAll(events[..i], parse).deltas)
      {
        var e := events[i];
        assert events[..i + 1][..i] == events[..i];
        ghost var before := RelayAll(events[..i], parse);
        if e.data == "" || e.data == "[DONE]" {
          assert before.deltas + [] == before.deltas;
          continue;
        }
        match parse(e.data) {
          case Malformed(message) =>
            RelayCut(events, i, parse);
            return Some(message);
          case Parsed(payload) =>
            var delta := DeltaText(payload);
            if delta == "" {
              assert before.deltas + [] == before.deltas;
              continue;
            }
            assert old(sent) + (before.deltas + [delta]) == (old(sent) + before.deltas) + [delta];
            SendDelta(delta);
        }
      }
      assert events[..|events|] == events;
      fault := None;
    }

    /** The first `i` reads have been relayed, with `fault` as the outcome. */
    ghost predicate Caught(input: seq<Read>, i: nat, fault: Option<string>)
      requires i <= |input|
      reads this, res
    {
      && FaultFree(input[..i]) && buffer == Rest(TextOf(input[..i]))
      && SoFar(input, i, parse) == Relayed(sent, fault)
      && Sent(sent)
    }

    method TakeChunk(input: seq<Read>, i: nat) returns (fault: Option<string>)
      requires i < |input| && input[i].Chunk? && Caught(input, i, None)
      modifies this`buffer, this`number, this`assistantText, this`sent, res`body
      ensures Caught(input, i + 1, fault)
    {
      RelayOneMore(input, i, parse);
      buffer := buffer + input[i].text;
      var events, remaining := ParseSseBlocks(buffer);
      buffer := remaining;
      fault := RelayEvents(events);
    }

    /** The read loop; `fault` is what the `catch` receives. */
    method Pump(input: seq<Read>) returns (fault: Option<string>, clientDisconnected: bool)
      requires buffer == "" && Sent([])
      modifies this`buffer, this`number, this`assistantText, this`sent, res`body
      ensures Sent(sent) && sent <= Relay(input, parse).deltas
      ensures clientDisconnected || Relay(input, parse) == Relayed(sent, fault)
    {
      var i := 0;
      fault, clientDisconnected := None, false;
      while !clientDisconnected
        invariant i <= |input| && fault.None? && Caught(input, i, None)
        decreases |input| - i
      {
        RelaySoFar(input, i, parse);
        clientDisconnected := Await(clientDisconnected);
        if i == |input| {
          return;
        }
        if input[i].Fault? {
          fault := Some(input[i].message);
          return;
        }
        fault := TakeChunk(input, i);
        i := i + 1;
        if fault.Some? {
          RelaySoFar(input, i, parse);
          return;
        }
      }
      RelaySoFar(input, i, parse);
    }

    /** A whole run. Unless the browser left, the wire carries exactly the script; if it did, a
        beginning of it without a terminal event. */
    method Handle(input: seq<Read>, stored: Option<Stored>) returns (clientDisconnected: bool)
      requires !terminalSent && buffer == "" && number == 0 && assistantText == "" && sent == []
      requires res.body == "" && !res.ended
      modifies this, res
      ensures !clientDisconnected ==>
        res.ended && res.body == RenderedAll(Script(chat, Relay(input, parse), stored, stringify))
      ensures clientDisconnected ==>
        !res.ended && sent <= Relay(input, parse).deltas && res.body == RenderedAll(Opening(chat, sent, stringify))
    {
      RenderedOneMore([], MetaEvent(chat, stringify));
      assert [] + [MetaEvent(chat, stringify)] == Opening(chat, [], stringify);
      Emit(MetaEvent(chat, stringify));
      var fault;
      fault, clientDisconnected := Pump(input);
      if clientDisconnected {
        return;
      }
      ghost var relayed := Relay(input, parse);
      RenderedOneMore(Opening(chat, relayed.deltas, stringify), TerminalEvent(chat, relayed, stored, stringify));
      if fault.Some? {
        SendTerminal(ErrorEvent("upstream_error", fault.value, stringify));
        return;
      }
      var normalized := Trim(assistantText);
      if normalized == "" {
        SendTerminal(ErrorEvent("upstream_error", "LLM returned an empty response", stringify));
        return;
      }
      if stored.None? {
        SendTerminal(ErrorEvent("persistence_error", "Unable to persist streamed assistant message", stringify));
        return;
      }
      SendTerminal(DoneEvent(chat, stored.value, normalized, stringify));
    }
  }

  predicate FaultFree(input: seq<Read>) {
    forall i :: 0 <= i < |input| ==> input[i].Chunk?
  }

  lemma {:induction false} TextSplits(a: seq<Read>, b: seq<Read>)
    requires FaultFree(a)
    ensures TextOf(a + b) == TextOf(a) + TextOf(b) && FaultOf(a + b) == FaultOf(b)
  {
    if a == [] {
      assert a + b == b;
    } else {
      assert (a + b)[1..] == a[1..] + b;
      TextSplits(a[1..], b);
    }
  }

  /** What the first `i` reads come to. */
  function SoFar(input: seq<Read>, i: nat, parse: Parse): Relayed
    requires i <= |input|
  {
    RelayAll(EventsOf(Blocks(TextOf(input[..i]))), parse)
  }

  /** The first reads settle the beginning of the result, and all of it once an event fails or a
      read does. */
  lemma {:induction false} RelaySoFar(input: seq<Read>, i: nat, parse: Parse)
    requires i <= |input| && FaultFree(input[..i])
    ensures var sofar := SoFar(input, i, parse);
      && sofar.deltas <= Relay(input, parse).deltas
      && (sofar.fault.Some? ==> Relay(input, parse) == sofar)
      && (i < |input| && input[i].Fault? ==> Relay(input, parse) == AndThen(sofar, Relayed([], Some(input[i].message))))
      && (i == |input| ==> Relay(input, parse) == AndThen(sofar, Relayed([], None)))
  {
    assert input == input[..i] + input[i..];
    TextSplits(input[..i], input[i..]);
    var text, more := TextOf(input[..i]), TextOf(input[i..]);
    ResumedEvents(text, more);
    RelayAppend(EventsOf(Blocks(text)), EventsOf(Blocks(Rest(text) + more)), parse);
    RestHasNoBlock(TextOf(input[..i]));
    assert Rest(TextOf(input[..i])) + "" == Rest(TextOf(input[..i]));
  }

  lemma {:induction false} RelayOneMore(input: seq<Read>, i: nat, parse: Parse)
    requires i < |input| && FaultFree(input[..i]) && input[i].Chunk?
    ensures FaultFree(input[..i + 1])
    ensures var buffer := Rest(TextOf(input[..i])) + input[i].text;
      && SoFar(input, i + 1, parse) == AndThen(SoFar(input, i, parse), RelayAll(EventsOf(Blocks(buffer)), parse))
      && Rest(TextOf(input[..i + 1])) == Rest(buffer)
  {
    assert input[..i + 1] == input[..i] + [input[i]];
    TextSplits(input[..i], [input[i]]);
    assert TextOf([input[i]]) == input[i].text + "" == input[i].text;
    var text, more := TextOf(input[..i]), input[i].text;
    ResumedEvents(text, more);
    RelayAppend(EventsOf(Blocks(text)), EventsOf(Blocks(Rest(text) + more)), parse);
  }

  /** After the first event that does not parse, nothing more is relayed. */
  lemma RelayCut(events: seq<Event>, i: nat, parse: Parse)
    requires i < |events| && RelayAll(events[..i + 1], parse).fault.Some?
    ensures RelayAll(events, parse) == RelayAll(events[..i + 1], parse)
  {
    RelayAppend(events[..i + 1], events[i + 1..], parse);
    assert events[..i + 1] + events[i + 1..] == events;
  }

  /** An upstream that ends its lines with CR LF is heard as silence. */
  lemma CrLfUpstreamIsEmpty(chat: Chat, input: seq<Read>, stored: Option<Stored>, stringify: Stringify, parse: Parse)
    requires FaultFree(input) && HasCrLfLines(TextOf(input))
    ensures Relay(input, parse) == Relayed([], None)
    ensures TerminalEvent(chat, Relay(input, parse), stored, stringify) ==
      ErrorEvent("upstream_error", "LLM returned an empty response", stringify)
  {
    CrLfNeverEndsABlock(TextOf(input));
    TextSplits(input, []);
    assert input + [] == input;
  }
}
