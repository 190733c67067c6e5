/** What a block of lines comes to, in the words of its lines (server/src/handlers/llm-handlers.js,
    lines 225-243; the event stream format of the WHATWG HTML Living Standard, section 9.2.6). */
module SseLines {
  import opened JsText
  import opened Sse

  datatype Line = Name(value: string) | Data(value: string) | Comment(value: string) | Empty

  function Written(line: Line): string {
    match line
    case Name(value) => "event:" + value
    case Data(value) => "data:" + value
    case Comment(value) => ":" + value
    case Empty => ""
  }

  function AllWritten(lines: seq<Line>): (r: seq<string>)
    ensures |r| == |lines|
  {
    if lines == [] then [] else AllWritten(lines[..|lines| - 1]) + [Written(lines[|lines| - 1])]
  }

  /** The values of the data lines, in order. */
  function DataValues(lines: seq<Line>): seq<string> {
    if lines == [] then []
    else
      var last := lines[|lines| - 1];
      DataValues(lines[..|lines| - 1]) + if last.Data? then [TrimStart(last.value)] else []
  }

  predicate IsLastName(lines: seq<Line>, i: nat) {
    i < |lines| && lines[i].Name? && forall j :: i < j < |lines| ==> !lines[j].Name?
  }

  lemma KindOf(line: Line)
    ensures StartsWith(Written(line), "event:") <==> line.Name?
    ensures StartsWith(Written(line), "data:") <==> line.Data?
    ensures line.Name? ==> Written(line)[6..] == line.value
    ensures line.Data? ==> Written(line)[5..] == line.value
  {
    LineKinds(Written(line));
  }

  lemma {:induction false} DataLinesInOrder(lines: seq<Line>)
    ensures DataLines(AllWritten(lines)) == DataValues(lines)
  {
    if lines != [] {
      var front, last := lines[..|lines| - 1], lines[|lines| - 1];
      DataLinesInOrder(front);
      KindOf(last);
      assert AllWritten(lines)[..|lines| - 1] == AllWritten(front);
    }
  }

  /** The last name line counts; if it is blank, or there is none, the name is `message`. */
  lemma {:induction false} LastNameCounts(lines: seq<Line>, i: nat)
    requires IsLastName(lines, i)
    ensures EventName(AllWritten(lines)) == if Trim(lines[i].value) == "" then "message" else Trim(lines[i].value)
    decreases |lines|
  {
    var front, last := lines[..|lines| - 1], lines[|lines| - 1];
    KindOf(last);
    assert AllWritten(lines)[..|lines| - 1] == AllWritten(front);
    if i < |front| {
      assert IsLastName(front, i);
      LastNameCounts(front, i);
    }
  }

  lemma {:induction false} NoNameIsMessage(lines: seq<Line>)
    requires forall i :: 0 <= i < |lines| ==> !lines[i].Name?
    ensures EventName(AllWritten(lines)) == "message"
  {
    if lines != [] {
      var front, last := lines[..|lines| - 1], lines[|lines| - 1];
      KindOf(last);
      assert AllWritten(lines)[..|lines| - 1] == AllWritten(front);
      NoNameIsMessage(front);
    }
  }

  lemma {:induction false} SplitLines(lines: seq<string>)
    requires lines != [] && forall i :: 0 <= i < |lines| ==> '\n' !in lines[i]
    ensures Split(Join(lines, "\n"), '\n') == lines
  {
    if |lines| > 1 {
      var rest := Join(lines[1..], "\n");
      var s := lines[0] + "\n" + rest;
      SplitLines(lines[1..]);
      assert s[..|lines[0]|] == lines[0] && s[|lines[0]| + 1..] == rest;
      IndexOfCharIs(s, '\n', |lines[0]|);
    }
  }

  /** A block: the data lines joined, under the last name; comments and empty lines count for nothing. */
  lemma BlockOfLines(lines: seq<Line>, i: nat)
    requires forall k :: 0 <= k < |lines| ==> '\n' !in Written(lines[k])
    requires IsLastName(lines, i) && Trim(lines[i].value) != ""
    ensures EventOf(Join(AllWritten(lines), "\n")) == Event(Trim(lines[i].value), Join(DataValues(lines), "\n"))
  {
    forall k | 0 <= k < |lines|
      ensures AllWritten(lines)[k] == Written(lines[k])
    {
      WrittenAt(lines, k);
    }
    SplitLines(AllWritten(lines));
    DataLinesInOrder(lines);
    LastNameCounts(lines, i);
  }

  lemma {:induction false} WrittenAt(lines: seq<Line>, k: nat)
    requires k < |lines|
    ensures AllWritten(lines)[k] == Written(lines[k])
  {
    if k < |lines| - 1 {
      WrittenAt(lines[..|lines| - 1], k);
    }
  }
}
