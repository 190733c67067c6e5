/** What a chat relays of an upstream, in the words of the upstream: the payloads are described field
    by field, without the code that reads them (server/src/handlers/llm-handlers.js, lines 248-270). */
module LlmUpstream {
  import opened Options
  import opened Sequences
  import opened JsText
  import opened JsonValue
  import opened Sse
  import opened LlmRelay

  /** The places in which a payload may carry text. */
  datatype Said =
    | InDelta(text: string)
    | InParts(parts: seq<Option<string>>)
    | InChoice(text: string)
    | InContent(text: string)

  ghost predicate Has(j: Json, name: string, value: Json) {
    j.Obj? && name in j.fields && j.fields[name] == value
  }

  /** The value is the content of the first choice's delta. */
  ghost predicate DeltaHolds(payload: Json, value: Json) {
    exists items, delta ::
      && Has(payload, "choices", Arr(items)) && items != []
      && Has(items[0], "delta", delta) && Has(delta, "content", value)
  }

  ghost predicate ChoiceHolds(payload: Json, value: Json) {
    exists items :: Has(payload, "choices", Arr(items)) && items != [] && Has(items[0], "text", value)
  }

  ghost predicate PartHolds(part: Json, text: Option<string>) {
    if text.Some? then Has(part, "text", Str(text.value)) else forall s :: !Has(part, "text", Str(s))
  }

  ghost predicate PartsHold(items: seq<Json>, parts: seq<Option<string>>) {
    |items| == |parts| && forall i :: 0 <= i < |parts| ==> PartHolds(items[i], parts[i])
  }

  /** No content in the first choice's delta that could be text. */
  ghost predicate NoDelta(payload: Json) {
    forall v :: DeltaHolds(payload, v) ==> !v.Str? && !v.Arr?
  }

  ghost predicate NoChoice(payload: Json) {
    NoDelta(payload) && forall s :: !ChoiceHolds(payload, Str(s))
  }

  /** The payload says this, whatever else it holds: the delta of the first choice comes before the
      text of that choice, and either before the content of the whole. */
  ghost predicate Says(payload: Json, said: Said) {
    match said
    case InDelta(text) => DeltaHolds(payload, Str(text))
    case InParts(parts) => exists items :: DeltaHolds(payload, Arr(items)) && PartsHold(items, parts)
    case InChoice(text) => NoDelta(payload) && ChoiceHolds(payload, Str(text))
    case InContent(text) => NoChoice(payload) && Has(payload, "content", Str(text))
  }

  ghost predicate SaysNothing(payload: Json) {
    NoChoice(payload) && forall s :: !Has(payload, "content", Str(s))
  }

  function PartsText(parts: seq<Option<string>>): string {
    if parts == [] then "" else (if parts[0].Some? then parts[0].value else "") + PartsText(parts[1..])
  }

  function TextSaid(said: Said): string {
    match said
    case InDelta(text) => text
    case InParts(parts) => PartsText(parts)
    case InChoice(text) => text
    case InContent(text) => text
  }

  lemma {:induction false} PartsRead(items: seq<Json>, parts: seq<Option<string>>)
    requires PartsHold(items, parts)
    ensures PartTexts(items) == PartsText(parts)
  {
    if items != [] {
      PartsRead(items[1..], parts[1..]);
      assert PartHolds(items[0], parts[0]);
      var text := Field(Some(items[0]), "text");
      assert IsString(text) ==> Has(items[0], "text", Str(text.value.s));
    }
  }

  /** The first choice of a payload, as `DeltaText` finds it. */
  function FirstChoice(payload: Json): Option<Json> {
    var choices := Field(Some(payload), "choices");
    if IsArray(choices) && choices.value.items != [] then Some(choices.value.items[0]) else None
  }

  lemma ChoiceFound(payload: Json, value: Json)
    ensures DeltaHolds(payload, value) <==> Field(Field(FirstChoice(payload), "delta"), "content") == Some(value)
    ensures ChoiceHolds(payload, value) <==> Field(FirstChoice(payload), "text") == Some(value)
  {
    var choices := Field(Some(payload), "choices");
    if IsArray(choices) && choices.value.items != [] {
      assert Has(payload, "choices", Arr(choices.value.items));
      var first := choices.value.items[0];
      var delta := Field(Some(first), "delta");
      if Field(delta, "content") == Some(value) {
        assert Has(first, "delta", delta.value) && Has(delta.value, "content", value);
      }
      if Field(Some(first), "text") == Some(value) {
        assert Has(first, "text", value);
      }
    }
  }

  lemma NoDeltaFound(payload: Json)
    ensures NoDelta(payload) <==>
      var content := Field(Field(FirstChoice(payload), "delta"), "content"); !IsString(content) && !IsArray(content)
    ensures (forall s :: !ChoiceHolds(payload, Str(s))) <==> !IsString(Field(FirstChoice(payload), "text"))
  {
    forall v
      ensures DeltaHolds(payload, v) <==> Field(Field(FirstChoice(payload), "delta"), "content") == Some(v)
      ensures ChoiceHolds(payload, v) <==> Field(FirstChoice(payload), "text") == Some(v)
    {
      ChoiceFound(payload, v);
    }
    var text := Field(FirstChoice(payload), "text");
    if IsString(text) {
      assert ChoiceHolds(payload, Str(text.value.s));
    }
  }

  /** A payload that says a text is read as that text. */
  lemma SaidIsRead(payload: Json, said: Said)
    requires Says(payload, said)
    ensures DeltaText(payload) == TextSaid(said)
  {
    NoDeltaFound(payload);
    match said
    case InDelta(text) => ChoiceFound(payload, Str(text));
    case InParts(parts) =>
      var items :| DeltaHolds(payload, Arr(items)) && PartsHold(items, parts);
      ChoiceFound(payload, Arr(items));
      PartsRead(items, parts);
    case InChoice(text) => ChoiceFound(payload, Str(text));
    case InContent(text) =>
  }

  /** And one that says nothing as nothing. */
  lemma NothingIsRead(payload: Json)
    requires SaysNothing(payload)
    ensures DeltaText(payload) == ""
  {
    NoDeltaFound(payload);
    var whole := Field(Some(payload), "content");
    assert IsString(whole) ==> Has(payload, "content", Str(whole.value.s));
  }

  /** Every payload says something in one of these places, or nothing. */
  lemma SaysSomethingOrNothing(payload: Json)
    ensures SaysNothing(payload) || exists said :: Says(payload, said)
  {
    NoDeltaFound(payload);
    var content := Field(Field(FirstChoice(payload), "delta"), "content");
    if IsString(content) {
      ChoiceFound(payload, content.value);
      assert Says(payload, InDelta(content.value.s));
    } else if IsArray(content) {
      ChoiceFound(payload, content.value);
      var parts := PartsOf(content.value.items);
      assert Says(payload, InParts(parts));
    } else if s :| ChoiceHolds(payload, Str(s)) {
      assert Says(payload, InChoice(s));
    } else if s :| Has(payload, "content", Str(s)) {
      assert Says(payload, InContent(s));
    }
  }

  function PartsOf(items: seq<Json>): (parts: seq<Option<string>>)
    ensures PartsHold(items, parts)
  {
    seq(|items|, i requires 0 <= i < |items| =>
      var text := Field(Some(items[i]), "text");
      if IsString(text) then Some(text.value.s) else None)
  }

  /** What the upstream sends: payloads, and the mark of the end. */
  datatype Message = Message(said: Said) | Silent | Over

  ghost predicate Carries(payload: Json, m: Message) {
    match m
    case Message(said) => payload.Obj? && Says(payload, said)
    case Silent => payload.Obj? && SaysNothing(payload)
    case Over => true
  }

  ghost predicate AllCarry(payloads: seq<Json>, messages: seq<Message>) {
    |payloads| == |messages| && forall i :: 0 <= i < |messages| ==> Carries(payloads[i], messages[i])
  }

  function DataOf(payload: Json, m: Message, stringify: Stringify): string {
    if m.Over? then "[DONE]" else stringify(payload)
  }

  /** The messages as they are written, a data line and a blank line each. */
  function Wire(payloads: seq<Json>, messages: seq<Message>, stringify: Stringify): string
    requires |payloads| == |messages|
  {
    if messages == [] then ""
    else
      var n := |messages| - 1;
      Wire(payloads[..n], messages[..n], stringify) + "data: " + DataOf(payloads[n], messages[n], stringify) + "\n\n"
  }

  /** The texts that are not empty, in order. */
  function Texts(messages: seq<Message>): seq<string> {
    if messages == [] then []
    else
      var last := messages[|messages| - 1];
      Texts(messages[..|messages| - 1]) +
        if last.Message? && TextSaid(last.said) != "" then [TextSaid(last.said)] else []
  }

  lemma OneData(data: string)
    requires '\n' !in data && data != ""
    ensures Blocks("data: " + data + "\n\n") == ["data: " + data] && Rest("data: " + data + "\n\n") == ""
  {
    var block := "data: " + data;
    var s := block + "\n\n";
    assert forall k :: 0 <= k < |block| ==> s[k] == block[k] && block[k] != '\n';
    FirstBoundary(s, |block|);
    assert s[|block| + 2..] == "" && s[..|block|] == block;
  }

  lemma DataLine(line: string)
    requires StartsWith(line, "data:")
    ensures EventName([line]) == "message" && DataLines([line]) == [TrimStart(line[5..])]
  {
    LineKinds(line);
    LineStep([line], 0);
    assert [line][..0] == [] && [line][..1] == [line];
  }

  lemma NotBlank(s: string)
    requires s != "" && !IsSpace(s[0])
    ensures Trim(s) != ""
  {
    assert TrimStart(s) == s;
  }

  lemma OneLine(line: string)
    requires StartsWith(line, "data:") && Trim(line) != "" && '\n' !in line && '\r' !in line
    ensures EventsIn(line) == [Event("message", TrimStart(line[5..]))]
  {
    WithoutAbsent(line, '\r');
    assert Split(line, '\n') == [line];
    DataLine(line);
  }

  lemma Spelled(data: string)
    requires '\n' !in data && '\r' !in data
    ensures var line := "data: " + data;
      StartsWith(line, "data:") && line[5..] == " " + data && line != "" && line[0] == 'd'
    ensures '\n' !in "data: " + data && '\r' !in "data: " + data
  {
    var line := "data: " + data;
    assert forall k :: 6 <= k < |line| ==> line[k] == data[k - 6];
  }

  lemma DataEvent(data: string)
    requires data != "" && !IsSpace(data[0]) && '\n' !in data && '\r' !in data
    ensures EventsIn("data: " + data) == [Event("message", data)]
  {
    var line := "data: " + data;
    Spelled(data);
    NotBlank(line);
    TrimStartSpace(data);
    OneLine(line);
  }

  /** One more message on the wire. */
  lemma WrittenNext(before: string, data: string, parse: Parse)
    requires Rest(before) == ""
    requires data != "" && !IsSpace(data[0]) && '\n' !in data && '\r' !in data
    ensures var wire := before + "data: " + data + "\n\n";
      && RelayAll(EventsOf(Blocks(wire)), parse) ==
           AndThen(RelayAll(EventsOf(Blocks(before)), parse), RelayAll([Event("message", data)], parse))
      && Rest(wire) == ""
  {
    var written := "data: " + data + "\n\n";
    assert before + "data: " + data + "\n\n" == before + written;
    OneData(data);
    DataEvent(data);
    assert "" + written == written;
    ResumedEvents(before, written);
    FlatMapOneMore([], "data: " + data, EventsIn);
    assert [] + ["data: " + data] == ["data: " + data];
    RelayAppend(EventsOf(Blocks(before)), [Event("message", data)], parse);
  }

  lemma OneRelayed(payload: Json, m: Message, stringify: Stringify, parse: Parse)
    requires IsCodec(stringify, parse) && Carries(payload, m)
    ensures RelayAll([Event("message", DataOf(payload, m, stringify))], parse) ==
      Relayed(if m.Message? && TextSaid(m.said) != "" then [TextSaid(m.said)] else [], None)
  {
    var e := Event("message", DataOf(payload, m, stringify));
    assert [e][..0] == [];
    match m
    case Message(said) => SaidIsRead(payload, said);
    case Silent => NothingIsRead(payload);
    case Over =>
  }

  lemma DataIsPlain(payload: Json, m: Message, stringify: Stringify, parse: Parse)
    requires IsCodec(stringify, parse) && Carries(payload, m)
    ensures var data := DataOf(payload, m, stringify);
      data != "" && !IsSpace(data[0]) && '\n' !in data && '\r' !in data
  {
    if !m.Over? {
      assert Braced(stringify(payload));
    }
  }

  /** The texts that are not empty are relayed in order, and nothing else is. */
  lemma {:induction false} TextsRelayed(
      payloads: seq<Json>, messages: seq<Message>, stringify: Stringify, parse: Parse)
    requires IsCodec(stringify, parse) && AllCarry(payloads, messages)
    ensures var wire := Wire(payloads, messages, stringify);
      RelayAll(EventsOf(Blocks(wire)), parse) == Relayed(Texts(messages), None) && Rest(wire) == ""
  {
    if messages != [] {
      var n := |messages| - 1;
      assert Carries(payloads[n], messages[n]);
      TextsRelayed(payloads[..n], messages[..n], stringify, parse);
      DataIsPlain(payloads[n], messages[n], stringify, parse);
      OneRelayed(payloads[n], messages[n], stringify, parse);
      WrittenNext(Wire(payloads[..n], messages[..n], stringify), DataOf(payloads[n], messages[n], stringify), parse);
    }
  }

  /** However it is cut into reads; an event whose blank line never came is not relayed either. */
  lemma UpstreamRelayed(
      input: seq<Read>, payloads: seq<Json>, messages: seq<Message>, tail: string, stringify: Stringify, parse: Parse)
    requires IsCodec(stringify, parse) && AllCarry(payloads, messages) && Blocks(tail) == []
    requires TextOf(input) == Wire(payloads, messages, stringify) + tail
    ensures Relay(input, parse) == Relayed(Texts(messages), FaultOf(input))
  {
    var wire := Wire(payloads, messages, stringify);
    TextsRelayed(payloads, messages, stringify, parse);
    ResumedEvents(wire, tail);
    NothingAfter(EventsOf(Blocks(wire)), Texts(messages));
    assert "" + tail == tail;
  }

  lemma NothingAfter(events: seq<Event>, texts: seq<string>)
    ensures events + [] == events && texts + [] == texts
  {
  }

  /** An event that is no JSON ends the relay with the parser's message, whatever follows it. */
  lemma GarbageCutsShort(input: seq<Read>, payloads: seq<Json>, messages: seq<Message>,
      garbage: string, message: string, tail: string, stringify: Stringify, parse: Parse)
    requires IsCodec(stringify, parse) && AllCarry(payloads, messages)
    requires garbage != "" && !IsSpace(garbage[0]) && '\n' !in garbage && '\r' !in garbage
    requires garbage != "[DONE]" && parse(garbage) == Malformed(message)
    requires TextOf(input) == Wire(payloads, messages, stringify) + "data: " + garbage + "\n\n" + tail
    ensures Relay(input, parse) == Relayed(Texts(messages), Some(message))
  {
    var wire := Wire(payloads, messages, stringify);
    var cut := wire + "data: " + garbage + "\n\n";
    var e := Event("message", garbage);
    TextsRelayed(payloads, messages, stringify, parse);
    WrittenNext(wire, garbage, parse);
    assert [e][..0] == [] && RelayAll([e], parse) == Relayed([], Some(message));
    ResumedEvents(cut, tail);
    RelayAppend(EventsOf(Blocks(cut)), EventsOf(Blocks(Rest(cut) + tail)), parse);
    NothingAfter(EventsOf(Blocks(wire)), Texts(messages));
  }

  /** What the browser is sent for such an upstream. */
  lemma UpstreamAnswered(input: seq<Read>, payloads: seq<Json>, messages: seq<Message>, tail: string,
      chat: Chat, stored: Stored, stringify: Stringify, parse: Parse)
    requires IsCodec(stringify, parse) && AllCarry(payloads, messages) && Blocks(tail) == []
    requires TextOf(input) == Wire(payloads, messages, stringify) + tail && FaultOf(input) == None
    requires Trim(Concat(Texts(messages))) != ""
    ensures Script(chat, Relay(input, parse), Some(stored), stringify) ==
      [MetaEvent(chat, stringify)] + DeltaEvents(Texts(messages), stringify) +
      [DoneEvent(chat, stored, Trim(Concat(Texts(messages))), stringify)]
  {
    UpstreamRelayed(input, payloads, messages, tail, stringify, parse);
  }
}
