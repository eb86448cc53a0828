/**
 The SSE wire text: the formatter, a parser following sections 9.2.5 and 9.2.6 of
 the WHATWG HTML Living Standard, and their round trip.
 */
module SseText {
  import opened Options
  import opened UnicodeEscapes

  // ----------------------------------------------------------- formatter

  function Join(lines: seq<string>): string
    requires lines != []
  {
    if |lines| == 1 then lines[0] else lines[0] + "\n" + Join(lines[1..])
  }

  /** `json` is the encoded data, None for absent data. */
  function DataText(json: Option<string>): string {
    match json
    case None => ""
    case Some(j) => DecodeLiteralUnicodeEscapes(j)
  }

  function FormatSseMessage(event: string, json: Option<string>, id: Option<string>): string {
    var lines := ["event: " + event, "data: " + DataText(json)];
    var withId := if id.Some? && id.value != "" then lines + ["id: " + id.value] else lines;
    Join(withId + [""]) + "\n"
  }

  const HEARTBEAT: string := ": heartbeat\r\n\r\n"

  datatype Item =
    | Message(event: string, json: Option<string>, id: Option<string>)
    | Heartbeat

  function Wire(items: seq<Item>): string {
    if items == [] then ""
    else
      (match items[0]
       case Message(event, json, id) => FormatSseMessage(event, json, id)
       case Heartbeat => HEARTBEAT) + Wire(items[1..])
  }

  // -------------------------------------------------------------- parser

  predicate IsBreak(c: char) {
    c == '\r' || c == '\n'
  }

  predicate OneLine(s: string) {
    forall i :: 0 <= i < |s| ==> !IsBreak(s[i])
  }

  function LineLength(s: string): (k: nat)
    ensures k <= |s| && OneLine(s[..k]) && (k < |s| ==> IsBreak(s[k]))
  {
    if s == "" || IsBreak(s[0]) then 0 else 1 + LineLength(s[1..])
  }

  /** The terminated lines of the stream: CRLF, LF and CR each end a line. */
  function Lines(s: string): seq<string>
    decreases |s|
  {
    var k := LineLength(s);
    if k == |s| then []
    else
      var next := if s[k] == '\r' && k + 1 < |s| && s[k + 1] == '\n' then k + 2 else k + 1;
      [s[..k]] + Lines(s[next..])
  }

  datatype Event = Event(kind: string, data: string, lastEventId: string)

  datatype Parser = Parser(data: string, kind: string, idBuffer: string, events: seq<Event>)

  function Colon(line: string): (r: Option<nat>)
    ensures r.Some? ==> r.value < |line| && line[r.value] == ':'
    ensures r.Some? ==> forall i :: 0 <= i < r.value ==> line[i] != ':'
    ensures r.None? ==> ':' !in line
  {
    if line == "" then None
    else if line[0] == ':' then Some(0)
    else
      match Colon(line[1..])
      case None => None
      case Some(i) => Some(i + 1)
  }

  function Field(p: Parser, name: string, value: string): Parser {
    if name == "event" then p.(kind := value)
    else if name == "data" then p.(data := p.data + value + "\n")
    else if name == "id" then (if '\0' in value then p else p.(idBuffer := value))
    else p
  }

  function Dispatch(p: Parser): Parser {
    if p.data == "" then p.(kind := "")
    else
      var data := if p.data[|p.data| - 1] == '\n' then p.data[..|p.data| - 1] else p.data;
      p.(data := "", kind := "",
         events := p.events + [Event(if p.kind == "" then "message" else p.kind, data, p.idBuffer)])
  }

  function ProcessLine(p: Parser, line: string): Parser {
    if line == "" then Dispatch(p)
    else
      match Colon(line)
      case None => Field(p, line, "")
      case Some(k) =>
        if k == 0 then p
        else
          var value := line[k + 1..];
          Field(p, line[..k], if value != "" && value[0] == ' ' then value[1..] else value)
  }

  function ProcessLines(p: Parser, lines: seq<string>): Parser
    decreases |lines|
  {
    if lines == [] then p else ProcessLines(ProcessLine(p, lines[0]), lines[1..])
  }

  /** Strip one byte order mark, then process line by line; an event that the
      stream leaves unfinished is discarded. */
  function ParseStream(s: string): seq<Event> {
    var body := if s != "" && s[0] == '\U{FEFF}' then s[1..] else s;
    ProcessLines(Parser("", "", "", []), Lines(body)).events
  }

  // ---------------------------------------------------------- round trip

  /** What a message must satisfy to survive the wire: a one-line non-empty event
      name, a one-line id without NUL, and JSON without raw line breaks. */
  predicate Transmittable(m: Item) {
    match m
    case Heartbeat => true
    case Message(event, json, id) =>
      && event != "" && OneLine(event)
      && (json.Some? ==> OneLine(json.value))
      && (id.Some? ==> OneLine(id.value) && '\0' !in id.value)
  }

  /** The events a client sees: heartbeats are invisible, and a message without
      an id leaves the last event id as it was. */
  function Expected(items: seq<Item>, lastId: string): seq<Event> {
    if items == [] then []
    else
      match items[0]
      case Heartbeat => Expected(items[1..], lastId)
      case Message(event, json, id) =>
        var current := if id.Some? && id.value != "" then id.value else lastId;
        [Event(event, DataText(json), current)] + Expected(items[1..], current)
  }

  lemma {:induction false} LineLengthOfLine(line: string, rest: string)
    requires OneLine(line) && rest != "" && IsBreak(rest[0])
    ensures LineLength(line + rest) == |line|
  {
    if line == "" {
      assert line + rest == rest;
    } else {
      assert (line + rest)[1..] == line[1..] + rest;
      LineLengthOfLine(line[1..], rest);
    }
  }

  lemma LineFeedEndsLine(s: string, line: string, rest: string)
    requires OneLine(line) && s == line + "\n" + rest
    ensures Lines(s) == [line] + Lines(rest)
  {
    assert s == line + ("\n" + rest);
    LineLengthOfLine(line, "\n" + rest);
    assert s[..|line|] == line && s[|line| + 1..] == rest;
  }

  lemma CrLfEndsLine(s: string, line: string, rest: string)
    requires OneLine(line) && s == line + "\r\n" + rest
    ensures Lines(s) == [line] + Lines(rest)
  {
    assert s == line + ("\r\n" + rest);
    LineLengthOfLine(line, "\r\n" + rest);
    assert s[|line|] == '\r' && s[|line| + 1] == '\n';
    assert s[..|line|] == line && s[|line| + 2..] == rest;
  }

  lemma Regroup(a: string, b: string, c: string)
    ensures a + "\n" + b + "\n" + c == a + "\n" + (b + "\n" + c)
  {
  }

  lemma HeadAndTail(lines: seq<string>, rest: seq<string>)
    requires lines != []
    ensures [lines[0]] + (lines[1..] + rest) == lines + rest
  {
  }

  lemma {:induction false} JoinedLines(s: string, lines: seq<string>, rest: string)
    requires lines != [] && s == Join(lines) + "\n" + rest
    requires forall i :: 0 <= i < |lines| ==> OneLine(lines[i])
    ensures Lines(s) == lines + Lines(rest)
    decreases |lines|
  {
    if |lines| == 1 {
      LineFeedEndsLine(s, lines[0], rest);
      assert lines == [lines[0]];
    } else {
      var joined := Join(lines[1..]);
      var s' := joined + "\n" + rest;
      Regroup(lines[0], joined, rest);
      LineFeedEndsLine(s, lines[0], s');
      JoinedLines(s', lines[1..], rest);
      HeadAndTail(lines, Lines(rest));
    }
  }

  lemma {:induction false} ProcessConcat(p: Parser, a: seq<string>, b: seq<string>)
    ensures ProcessLines(p, a + b) == ProcessLines(ProcessLines(p, a), b)
    decreases |a|
  {
    if a == [] {
      assert a + b == b;
    } else {
      assert (a + b)[1..] == a[1..] + b;
      ProcessConcat(ProcessLine(p, a[0]), a[1..], b);
    }
  }

  lemma FieldLine(p: Parser, name: string, value: string)
    requires name != "" && ':' !in name
    ensures ProcessLine(p, name + ": " + value) == Field(p, name, value)
  {
    var line := name + ": " + value;
    assert line[|name|] == ':';
    assert forall i :: 0 <= i < |name| ==> line[i] == name[i] && line[i] != ':';
    assert Colon(line) == Some(|name|);
    assert line[..|name|] == name;
    assert line[|name| + 1..] == " " + value;
  }

  lemma DataTextIsOneLine(json: Option<string>)
    requires json.Some? ==> OneLine(json.value)
    ensures OneLine(DataText(json))
  {
    if json.Some? {
      PassAddsNoAscii(json.value);
    }
  }

  /** The lines of one message. */
  function MessageLines(event: string, json: Option<string>, id: Option<string>): seq<string> {
    ["event: " + event, "data: " + DataText(json)]
    + (if id.Some? && id.value != "" then ["id: " + id.value] else []) + [""]
  }

  lemma FormattedLines(event: string, json: Option<string>, id: Option<string>, rest: string)
    requires Transmittable(Message(event, json, id))
    ensures Lines(FormatSseMessage(event, json, id) + rest) == MessageLines(event, json, id) + Lines(rest)
  {
    DataTextIsOneLine(json);
    var lines := MessageLines(event, json, id);
    var two := ["event: " + event, "data: " + DataText(json)];
    assert two + [""] == two + [] + [""];
    assert FormatSseMessage(event, json, id) == Join(lines) + "\n";
    JoinedLines(FormatSseMessage(event, json, id) + rest, lines, rest);
  }

  predicate Clean(p: Parser) {
    p.data == "" && p.kind == ""
  }

  lemma ProcessCons(p: Parser, line: string, rest: seq<string>)
    ensures ProcessLines(p, [line] + rest) == ProcessLines(ProcessLine(p, line), rest)
  {
    assert ([line] + rest)[1..] == rest;
  }

  /** The blank line dispatches what the data line buffered, minus its final line feed. */
  lemma BlankLineDispatches(kind: string, data: string, idBuffer: string, events: seq<Event>)
    requires kind != ""
    ensures ProcessLines(Parser(data + "\n", kind, idBuffer, events), [""]) ==
            Parser("", "", idBuffer, events + [Event(kind, data, idBuffer)])
  {
    var p := Parser(data + "\n", kind, idBuffer, events);
    assert p.data[..|p.data| - 1] == data;
    assert [""] == [""] + [];
    ProcessCons(p, "", []);
  }

  /** The event line and the data line fill the two buffers. */
  lemma EventAndData(p: Parser, event: string, data: string, rest: seq<string>)
    requires Clean(p)
    ensures ProcessLines(p, ["event: " + event] + (["data: " + data] + rest)) ==
            ProcessLines(Parser(data + "\n", event, p.idBuffer, p.events), rest)
  {
    FieldLine(p, "event", event);
    assert "event" + ": " + event == "event: " + event;
    var p1 := p.(kind := event);
    ProcessCons(p, "event: " + event, ["data: " + data] + rest);
    FieldLine(p1, "data", data);
    assert "data" + ": " + data == "data: " + data;
    assert "" + data + "\n" == data + "\n";
    ProcessCons(p1, "data: " + data, rest);
  }

  lemma IdLine(p: Parser, id: string, rest: seq<string>)
    requires '\0' !in id
    ensures ProcessLines(p, ["id: " + id] + rest) == ProcessLines(p.(idBuffer := id), rest)
  {
    FieldLine(p, "id", id);
    assert "id" + ": " + id == "id: " + id;
    ProcessCons(p, "id: " + id, rest);
  }

  lemma MessageIsOneEvent(p: Parser, event: string, json: Option<string>, id: Option<string>)
    requires Transmittable(Message(event, json, id)) && Clean(p)
    ensures var current := if id.Some? && id.value != "" then id.value else p.idBuffer;
            ProcessLines(p, MessageLines(event, json, id)) ==
            Parser("", "", current, p.events + [Event(event, DataText(json), current)])
  {
    var data := DataText(json);
    var buffered := Parser(data + "\n", event, p.idBuffer, p.events);
    if id.Some? && id.value != "" {
      assert MessageLines(event, json, id) == ["event: " + event] + (["data: " + data] + (["id: " + id.value] + [""]));
      EventAndData(p, event, data, ["id: " + id.value] + [""]);
      IdLine(buffered, id.value, [""]);
      BlankLineDispatches(event, data, id.value, p.events);
    } else {
      assert MessageLines(event, json, id) == ["event: " + event] + (["data: " + data] + [""]);
      EventAndData(p, event, data, [""]);
      BlankLineDispatches(event, data, p.idBuffer, p.events);
    }
  }

  lemma HeartbeatLines(rest: string)
    ensures Lines(HEARTBEAT + rest) == [": heartbeat"] + ([""] + Lines(rest))
  {
    var blank := "\r\n" + rest;
    assert blank == "" + "\r\n" + rest;
    CrLfEndsLine(blank, "", rest);
    CommentLine(HEARTBEAT + rest, blank);
  }

  lemma CommentLine(s: string, blank: string)
    requires |s| >= 13 && s[..13] == ": heartbeat\r\n" && s[13..] == blank
    ensures Lines(s) == [": heartbeat"] + Lines(blank)
  {
    assert s == ": heartbeat" + "\r\n" + blank;
    CrLfEndsLine(s, ": heartbeat", blank);
  }

  lemma HeartbeatIsNothing(p: Parser, rest: string)
    requires Clean(p)
    ensures ProcessLines(p, Lines(HEARTBEAT + rest)) == ProcessLines(p, Lines(rest))
  {
    HeartbeatLines(rest);
    assert Colon(": heartbeat") == Some(0);
    ProcessCons(p, ": heartbeat", [""] + Lines(rest));
    ProcessCons(p, "", Lines(rest));
  }

  /** The parser after one message. */
  function AfterMessage(p: Parser, event: string, json: Option<string>, id: Option<string>): Parser {
    var current := if id.Some? && id.value != "" then id.value else p.idBuffer;
    Parser("", "", current, p.events + [Event(event, DataText(json), current)])
  }

  lemma MessageStep(p: Parser, event: string, json: Option<string>, id: Option<string>, rest: string)
    requires Transmittable(Message(event, json, id)) && Clean(p)
    ensures ProcessLines(p, Lines(FormatSseMessage(event, json, id) + rest)) ==
            ProcessLines(AfterMessage(p, event, json, id), Lines(rest))
  {
    FormattedLines(event, json, id, rest);
    MessageIsOneEvent(p, event, json, id);
    ProcessConcat(p, MessageLines(event, json, id), Lines(rest));
  }

  lemma {:induction false} WireParses(p: Parser, items: seq<Item>)
    requires Clean(p) && forall i :: 0 <= i < |items| ==> Transmittable(items[i])
    ensures ProcessLines(p, Lines(Wire(items))).events == p.events + Expected(items, p.idBuffer)
    decreases |items|
  {
    if items != [] {
      var rest := Wire(items[1..]);
      assert Transmittable(items[0]);
      match items[0] {
        case Heartbeat =>
          HeartbeatIsNothing(p, rest);
          WireParses(p, items[1..]);
        case Message(event, json, id) =>
          var p' := AfterMessage(p, event, json, id);
          MessageStep(p, event, json, id, rest);
          WireParses(p', items[1..]);
          Regrouped(p.events, p'.events[|p.events|], Expected(items[1..], p'.idBuffer));
      }
    }
  }

  lemma Regrouped(before: seq<Event>, e: Event, after: seq<Event>)
    ensures before + [e] + after == before + ([e] + after)
  {
  }

  /** SSE text round trip: a standard client reads back exactly the messages that
      were formatted, with any number of heartbeats in between. */
  lemma SseRoundTrip(items: seq<Item>)
    requires forall i :: 0 <= i < |items| ==> Transmittable(items[i])
    ensures ParseStream(Wire(items)) == Expected(items, "")
  {
    WireParses(Parser("", "", "", []), items);
    if items != [] && items[0].Message? {
      var m := items[0];
      assert FormatSseMessage(m.event, m.json, m.id)[0] == 'e';
    }
  }

  // ------------------------------------------------ what the client reads

  /** The data a client must read for encoded data: nothing for none; the JSON
      itself if it has no literal escape; and the text whose literally escaped
      form the JSON is. */
  ghost predicate Carries(json: Option<string>, text: string) {
    match json
    case None => text == ""
    case Some(j) =>
      || (text == j && forall i :: 0 <= i < |j| - 1 ==> !(j[i] == '\\' && j[i + 1] == 'u'))
      || (Unmarked(text) && exists upper :: j == Escape(text, upper))
  }

  lemma CarriesData(json: Option<string>, text: string)
    requires Carries(json, text)
    ensures DataText(json) == text
  {
    if json.Some? && Unmarked(text) && exists upper :: json.value == Escape(text, upper) {
      var upper :| json.value == Escape(text, upper);
      EscapeRoundTrip(text, upper);
    }
  }

  /** texts[i] is what item i, if it is a message, carries. */
  ghost predicate AllCarry(items: seq<Item>, texts: seq<string>) {
    |texts| == |items| && forall i :: 0 <= i < |items| && items[i].Message? ==> Carries(items[i].json, texts[i])
  }

  /** The events of a list of messages whose data is given outright. */
  function Received(items: seq<Item>, texts: seq<string>, lastId: string): seq<Event>
    requires |texts| == |items|
  {
    if items == [] then []
    else if items[0] == Heartbeat then Received(items[1..], texts[1..], lastId)
    else
      var current := if items[0].id == None || items[0].id == Some("") then lastId else items[0].id.value;
      [Event(items[0].event, texts[0], current)] + Received(items[1..], texts[1..], current)
  }

  lemma {:induction false} ExpectedIsReceived(items: seq<Item>, texts: seq<string>, lastId: string)
    requires AllCarry(items, texts)
    ensures Expected(items, lastId) == Received(items, texts, lastId)
  {
    if items != [] {
      var current := if items[0].Message? && items[0].id.Some? && items[0].id.value != "" then items[0].id.value
                     else lastId;
      if items[0].Message? {
        CarriesData(items[0].json, texts[0]);
      }
      TailCarries(items, texts);
      ExpectedIsReceived(items[1..], texts[1..], current);
    }
  }

  lemma TailCarries(items: seq<Item>, texts: seq<string>)
    requires AllCarry(items, texts) && items != []
    ensures AllCarry(items[1..], texts[1..])
  {
  }

  predicate OnOneLine(s: string) {
    '\r' !in s && '\n' !in s
  }

  /** Clients read the messages: parsing the wire text gives, for every message in
      order, its name, the data it carries and its id, and nothing else. */
  lemma ClientReadsMessages(items: seq<Item>, texts: seq<string>)
    requires forall i :: 0 <= i < |items| && items[i].Message? ==> items[i].event != "" && OnOneLine(items[i].event)
    requires forall i :: 0 <= i < |items| && items[i].Message? && items[i].json.Some? ==> OnOneLine(items[i].json.value)
    requires forall i :: 0 <= i < |items| && items[i].Message? && items[i].id.Some? ==>
               OnOneLine(items[i].id.value) && '\0' !in items[i].id.value
    requires AllCarry(items, texts)
    ensures ParseStream(Wire(items)) == Received(items, texts, "")
  {
    forall i | 0 <= i < |items| ensures Transmittable(items[i]) {
      if items[i].Message? {
        assert OnOneLine(items[i].event);
      }
    }
    SseRoundTrip(items);
    ExpectedIsReceived(items, texts, "");
  }

  // ------------------------------------------------- more of the standard

  /** Data lines of one event are joined by line feeds, and an event without a
      name is a `message`. */
  lemma DataLinesJoin(p: Parser, a: string, b: string)
    requires Clean(p)
    ensures ProcessLines(p, ["data: " + a] + (["data: " + b] + [""])).events ==
            p.events + [Event("message", a + "\n" + b, p.idBuffer)]
  {
    DataLine(p, a, ["data: " + b] + [""]);
    var p1 := p.(data := p.data + a + "\n");
    DataLine(p1, b, [""]);
    JoinedTwice("", a, b);
    LastBlankLine(p1.(data := p1.data + b + "\n"), a + "\n" + b);
  }

  lemma JoinedTwice(empty: string, a: string, b: string)
    requires empty == ""
    ensures empty + a + "\n" + b + "\n" == a + "\n" + b + "\n"
  {
    assert empty + a == a;
  }

  lemma DataLine(p: Parser, value: string, rest: seq<string>)
    ensures ProcessLines(p, ["data: " + value] + rest) == ProcessLines(p.(data := p.data + value + "\n"), rest)
  {
    FieldLine(p, "data", value);
    assert "data" + ": " + value == "data: " + value;
    ProcessCons(p, "data: " + value, rest);
  }

  lemma LastBlankLine(p: Parser, data: string)
    requires p.kind == "" && p.data == data + "\n"
    ensures ProcessLines(p, [""]).events == p.events + [Event("message", data, p.idBuffer)]
  {
    assert p.data[..|p.data| - 1] == data;
    assert [""] == [""] + [];
    ProcessCons(p, "", []);
  }

  /** A lone carriage return ends a line, too. */
  lemma CrEndsLine(s: string, line: string, rest: string)
    requires OneLine(line) && s == line + "\r" + rest && (rest == "" || rest[0] != '\n')
    ensures Lines(s) == [line] + Lines(rest)
  {
    assert s == line + ("\r" + rest);
    LineLengthOfLine(line, "\r" + rest);
    assert s[|line|] == '\r' && (rest != "" ==> s[|line| + 1] == rest[0]);
    assert s[..|line|] == line && s[|line| + 1..] == rest;
  }
}
