/** What the browser makes of events that the server of this system does not send
    (dashboard/app/v2/llm-stream.ts, `dispatchLlmStreamEvent`, lines 38-98). */
module LlmDispatch {
  import opened JsText
  import opened Options
  import opened JsonValue
  import opened Sse
  import opened LlmClient

  /** An event whose data is no JSON is reported and ends the run. */
  lemma MalformedEndsTheRun(p: Progress, e: Event, parse: Parse, message: string)
    requires !p.crashed && Plain(e) && parse(e.data) == Malformed(message)
    ensures Take(p, BlockOf(e), parse) ==
      p.(calls := p.calls + [OnError("parse_error", "Malformed stream payload")], terminal := true)
  {
    WrittenSays(e, OnError("parse_error", "Malformed stream payload"), true, parse);
    assert TakerOf(parse)(p, BlockOf(e)) == Take(p, BlockOf(e), parse);
  }

  /** An event of another name is passed over. */
  lemma OtherNamesPassedOver(p: Progress, e: Event, parse: Parse, value: Json)
    requires Plain(e) && e.name !in ["meta", "delta", "done", "error"] && parse(e.data) == Parsed(value)
    ensures Take(p, BlockOf(e), parse) == p
  {
    ParseRendered(e);
  }

  /** A `null` payload makes the handlers throw, as soon as one of them reads a field of it. */
  lemma NullCrashes(p: Progress, e: Event, parse: Parse)
    requires !p.crashed && Plain(e) && e.name in ["meta", "delta", "done", "error"] && parse(e.data) == Parsed(Null)
    ensures Take(p, BlockOf(e), parse) == p.(crashed := true)
  {
    ParseRendered(e);
    assert BlockOf(e)[0] == 'e';
  }

  lemma DefaultsOf()
    ensures CallFor("meta", Obj(map[])) == Act(OnMeta(0, "local", "", ""), false)
    ensures CallFor("delta", Obj(map[])) == Act(OnDelta(0, ""), false)
    ensures CallFor("done", Obj(map[])) == Act(OnDone(0, 0, "", "", ""), true)
    ensures CallFor("error", Obj(map[])) == Act(OnError("upstream_error", "Stream failed"), true)
  {
  }

  /** Missing fields have their defaults. */
  lemma MissingFields(p: Progress, e: Event, parse: Parse)
    requires !p.crashed && Plain(e) && parse(e.data) == Parsed(Obj(map[]))
    requires e.name in ["meta", "delta", "done", "error"]
    ensures Take(p, BlockOf(e), parse) ==
      if e.name == "meta" then p.(calls := p.calls + [OnMeta(0, "local", "", "")])
      else if e.name == "delta" then p.(calls := p.calls + [OnDelta(0, "")])
      else if e.name == "done" then p.(calls := p.calls + [OnDone(0, 0, "", "", "")], terminal := true)
      else p.(calls := p.calls + [OnError("upstream_error", "Stream failed")], terminal := true)
  {
    DefaultsOf();
    var call := CallFor(e.name, Obj(map[]));
    assert call.Act?;
    WrittenSays(e, call.call, call.terminal, parse);
    assert TakerOf(parse)(p, BlockOf(e)) == Take(p, BlockOf(e), parse);
  }
}
