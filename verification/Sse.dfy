/**
 Server-Sent Events: writeSSE and the write loop of internal/api/logs.go, the loop of
 internal/api/stream.go, and the parser that section 9.2.6 of the WHATWG HTML Standard
 prescribes for the receiving EventSource.
 */
module Sse {
  import opened Wrappers
  import opened Text
  import opened Indices

  // ---------- the writer ----------

  /** What writeSSE writes. */
  function Frame(event: string, data: string): string {
    EventLine(event) + DataLines(Split(data, "\n")) + "\n"
  }

  function EventLine(event: string): string {
    if event != "" then "event: " + event + "\n" else ""
  }

  function DataLines(parts: seq<string>): string {
    if parts == [] then "" else DataLines(parts[..|parts| - 1]) + ("data: " + parts[|parts| - 1] + "\n")
  }

  /** A comment line followed by a blank line: the heartbeats. */
  function Comment(text: string): string {
    ":" + text + "\n\n"
  }

  // ---------- the parser of the standard ----------

  /** The complete lines of a stream; a line ends with CR LF, LF or CR.  `line` is what was read of the current one. */
  function LinesFrom(line: string, s: string): seq<string>
    decreases |s|
  {
    if s == "" then []
    else if s[0] == '\n' then [line] + LinesFrom("", s[1..])
    else if s[0] == '\r' then [line] + LinesFrom("", if |s| > 1 && s[1] == '\n' then s[2..] else s[1..])
    else LinesFrom(line + [s[0]], s[1..])
  }

  /** A dispatched event: its type and its data. */
  datatype Message = Message(eventType: string, data: string)

  /** The data buffer, the event type buffer, and what was dispatched. */
  datatype State = State(data: string, eventType: string, dispatched: seq<Message>)

  const START: State := State("", "", [])

  function Dispatch(st: State): State {
    if st.data == "" then State("", "", st.dispatched)
    else
      var data := if st.data[|st.data| - 1] == '\n' then st.data[..|st.data| - 1] else st.data;
      State("", "", st.dispatched + [Message(if st.eventType == "" then "message" else st.eventType, data)])
  }

  /** The fields `id` and `retry` set other things than the type and data of an event. */
  function ProcessField(st: State, field: string, value: string): State {
    if field == "event" then st.(eventType := value)
    else if field == "data" then st.(data := st.data + value + "\n")
    else st
  }

  function WithoutSpace(value: string): string {
    if value != "" && value[0] == ' ' then value[1..] else value
  }

  function ProcessLine(st: State, line: string): State {
    if line == "" then Dispatch(st)
    else if line[0] == ':' then st
    else
      match Index(line, ":")
      case Some(i) =>
        IndexFinds(line, ":");
        ProcessField(st, line[..i], WithoutSpace(line[i + 1..]))
      case None => ProcessField(st, line, "")
  }

  function ProcessLines(st: State, lines: seq<string>): State
    decreases |lines|
  {
    if lines == [] then st else ProcessLines(ProcessLine(st, lines[0]), lines[1..])
  }

  /** What an EventSource dispatches for a stream; an event cut off by the end of the stream is dropped. */
  function Parse(s: string): seq<Message> {
    ProcessLines(START, LinesFrom("", s)).dispatched
  }

  // ---------- reading back one line ----------

  predicate NoBreak(s: string) {
    '\n' !in s && '\r' !in s
  }

  function Feed(st: State, s: string): State {
    ProcessLines(st, LinesFrom("", s))
  }

  lemma {:induction false} LinesConcat(line: string, a: string, b: string)
    requires a != "" && a[|a| - 1] == '\n'
    ensures LinesFrom(line, a + b) == LinesFrom(line, a) + LinesFrom("", b)
    decreases |a|
  {
    assert (a + b)[1..] == a[1..] + b;
    if |a| == 1 {
      assert a[1..] + b == b;
    } else if a[0] == '\n' {
      LinesConcat("", a[1..], b);
    } else if a[0] == '\r' {
      if a[1] == '\n' {
        assert (a + b)[2..] == a[2..] + b;
        if |a| == 2 { assert a[2..] + b == b; } else { LinesConcat("", a[2..], b); }
      } else {
        LinesConcat("", a[1..], b);
      }
    } else {
      LinesConcat(line + [a[0]], a[1..], b);
    }
  }

  lemma {:induction false} ProcessConcat(st: State, xs: seq<string>, ys: seq<string>)
    ensures ProcessLines(st, xs + ys) == ProcessLines(ProcessLines(st, xs), ys)
    decreases |xs|
  {
    if xs == [] {
      assert xs + ys == ys;
    } else {
      assert (xs + ys)[1..] == xs[1..] + ys;
      ProcessConcat(ProcessLine(st, xs[0]), xs[1..], ys);
    }
  }

  lemma FeedConcat(st: State, a: string, b: string)
    requires a == "" || a[|a| - 1] == '\n'
    ensures Feed(st, a + b) == Feed(Feed(st, a), b)
  {
    if a == "" {
      assert a + b == b;
    } else {
      LinesConcat("", a, b);
      ProcessConcat(st, LinesFrom("", a), LinesFrom("", b));
    }
  }

  lemma {:induction false} OneLine(line: string, text: string)
    requires NoBreak(text)
    ensures LinesFrom(line, text + "\n") == [line + text]
    decreases |text|
  {
    if text == "" {
      assert text + "\n" == "\n" && line + text == line;
      assert "\n"[1..] == "";
    } else {
      assert (text + "\n")[1..] == text[1..] + "\n";
      OneLine(line + [text[0]], text[1..]);
      assert line + [text[0]] + text[1..] == line + text;
    }
  }

  lemma FeedLine(st: State, text: string)
    requires NoBreak(text)
    ensures Feed(st, text + "\n") == ProcessLine(st, text)
  {
    OneLine("", text);
    assert "" + text == text;
    assert LinesFrom("", text + "\n") == [text];
    assert [text][1..] == [];
    assert ProcessLines(st, [text]) == ProcessLines(ProcessLine(st, text), [text][1..]);
  }

  lemma FieldLine(st: State, field: string, value: string)
    requires field != "" && ':' !in field
    ensures ProcessLine(st, field + ": " + value) == ProcessField(st, field, value)
  {
    var line := field + ": " + value;
    assert line[0] == field[0] && field[0] in field;
    IndexFinds(line, ":");
    assert OccursAt(line, ":", |field|);
    var i := Index(line, ":").value;
    assert line[i] == ':';
    assert forall k | 0 <= k < |field| :: line[k] == field[k] && field[k] in field;
    assert line[i + 1..] == " " + value;
    assert (" " + value)[1..] == value;
  }

  lemma FeedField(st: State, field: string, value: string)
    requires field != "" && ':' !in field && NoBreak(field) && NoBreak(value)
    ensures Feed(st, field + ": " + value + "\n") == ProcessField(st, field, value)
  {
    FeedLine(st, field + ": " + value);
    FieldLine(st, field, value);
  }

  // ---------- reading back one frame ----------

  function Terminated(parts: seq<string>): string {
    if parts == [] then "" else Terminated(parts[..|parts| - 1]) + parts[|parts| - 1] + "\n"
  }

  lemma {:induction false} DataLinesEnd(parts: seq<string>)
    ensures DataLines(parts) == "" || DataLines(parts)[|DataLines(parts)| - 1] == '\n'
    ensures parts != [] ==> DataLines(parts) != ""
  {
  }

  lemma {:induction false} FeedDataLines(st: State, parts: seq<string>)
    requires forall p | p in parts :: NoBreak(p)
    ensures Feed(st, DataLines(parts)) == st.(data := st.data + Terminated(parts))
    decreases |parts|
  {
    if parts == [] {
      assert st.data + "" == st.data;
    } else {
      var front, last := parts[..|parts| - 1], parts[|parts| - 1];
      FeedDataLines(st, front);
      DataLinesEnd(front);
      FeedConcat(st, DataLines(front), "data: " + last + "\n");
      FeedField(Feed(st, DataLines(front)), "data", last);
      assert "data" + ": " + last + "\n" == "data: " + last + "\n";
      assert st.data + Terminated(front) + last + "\n" == st.data + (Terminated(front) + last + "\n");
    }
  }

  lemma {:induction false} TerminatedIsJoin(parts: seq<string>)
    requires parts != []
    ensures Terminated(parts) == Join(parts, "\n") + "\n"
    decreases |parts|
  {
    if |parts| == 1 {
      assert parts[..0] == [];
    } else {
      TerminatedCons(parts);
      TerminatedIsJoin(parts[1..]);
    }
  }

  lemma TerminatedSnoc(parts: seq<string>)
    requires parts != []
    ensures Terminated(parts) == Terminated(parts[..|parts| - 1]) + (parts[|parts| - 1] + "\n")
  {
    Regroup(Terminated(parts[..|parts| - 1]), parts[|parts| - 1], "\n");
  }

  lemma {:induction false} TerminatedCons(parts: seq<string>)
    requires parts != []
    ensures Terminated(parts) == parts[0] + "\n" + Terminated(parts[1..])
    decreases |parts|
  {
    if |parts| == 1 {
      assert parts[..0] == [] && parts[1..] == [];
    } else {
      var front, rest, line := parts[..|parts| - 1], parts[1..], parts[|parts| - 1] + "\n";
      TerminatedCons(front);
      assert front[1..] == rest[..|rest| - 1] && rest[|rest| - 1] + "\n" == line;
      Regroup(parts[0] + "\n", Terminated(front[1..]), line);
      TerminatedSnoc(parts);
      TerminatedSnoc(rest);
    }
  }

  /** The parts that writeSSE splits the data into have no line break of any kind. */
  lemma PartsHaveNoBreak(data: string)
    requires '\r' !in data
    ensures forall p | p in Split(data, "\n") :: NoBreak(p)
  {
    PartsAreFree(data, '\n');
    assert ['\n'] == "\n";
    SplitKeepsOut(data, '\r');
  }

  lemma {:induction false} SplitKeepsOut(s: string, c: char)
    requires c !in s
    ensures forall p | p in Split(s, "\n") :: c !in p
    decreases |s|
  {
    IndexFinds(s, "\n");
    if Index(s, "\n").Some? {
      var i := Index(s, "\n").value;
      SplitKeepsOut(s[i + 1..], c);
      assert |"\n"| == 1;
    }
  }

  /** The message a frame stands for; without an event name the type is "message". */
  function Written(event: string, data: string): Message {
    Message(if event == "" then "message" else event, data)
  }

  lemma FeedEventLine(st: State, event: string)
    requires st.eventType == "" && NoBreak(event)
    ensures Feed(st, EventLine(event)) == st.(eventType := event)
    ensures EventLine(event) == "" || EventLine(event)[|EventLine(event)| - 1] == '\n'
  {
    if event != "" {
      FeedField(st, "event", event);
      assert "event" + ": " + event + "\n" == EventLine(event);
    }
  }

  /** The data lines leave the data and one line feed in the buffer. */
  lemma FeedData(st: State, data: string)
    requires st.data == "" && '\r' !in data
    ensures Feed(st, DataLines(Split(data, "\n"))) == st.(data := data + "\n")
  {
    var parts := Split(data, "\n");
    PartsHaveNoBreak(data);
    FeedDataLines(st, parts);
    TerminatedIsJoin(parts);
    JoinSplit(data, "\n");
    assert "" + Terminated(parts) == data + "\n";
  }

  lemma FeedBlank(st: State, data: string)
    requires st.data == data + "\n"
    ensures Feed(st, "\n") ==
            State("", "", st.dispatched + [Message(if st.eventType == "" then "message" else st.eventType, data)])
  {
    FeedLine(st, "");
    assert "" + "\n" == "\n";
    assert (data + "\n")[..|data|] == data;
  }

  lemma FeedFrame(st: State, event: string, data: string)
    requires st.data == "" && st.eventType == "" && NoBreak(event) && '\r' !in data
    ensures Feed(st, Frame(event, data)) == State("", "", st.dispatched + [Written(event, data)])
  {
    var head, lines := EventLine(event), DataLines(Split(data, "\n"));
    FeedEventLine(st, event);
    FeedData(st.(eventType := event), data);
    FeedBlank(st.(eventType := event, data := data + "\n"), data);
    DataLinesEnd(Split(data, "\n"));
    FeedConcat(st, head, lines);
    FeedConcat(st, head + lines, "\n");
  }

  lemma FeedComment(st: State, text: string)
    requires NoBreak(text) && st.data == "" && st.eventType == ""
    ensures Feed(st, Comment(text)) == st
  {
    FeedLine(st, ":" + text);
    FeedLine(st, "");
    assert "" + "\n" == "\n";
    FeedConcat(st, ":" + text + "\n", "\n");
    assert Comment(text) == ":" + text + "\n" + "\n";
  }

  // ---------- reading back a whole stream ----------

  datatype Item = Event(event: string, data: string) | Heartbeat(text: string)

  function Encode(item: Item): string {
    match item
    case Event(event, data) => Frame(event, data)
    case Heartbeat(text) => Comment(text)
  }

  /** What is written for a sequence of frames and heartbeats. */
  function Stream(items: seq<Item>): string {
    if items == [] then "" else Encode(items[0]) + Stream(items[1..])
  }

  lemma StreamCons(item: Item, rest: seq<Item>)
    ensures Stream([item] + rest) == Encode(item) + Stream(rest)
  {
    var items := [item] + rest;
    assert items[0] == item && items[1..] == rest;
  }

  lemma {:induction false} StreamSnoc(items: seq<Item>, item: Item)
    ensures Stream(items + [item]) == Stream(items) + Encode(item)
    decreases |items|
  {
    if items == [] {
      assert [] + [item] == [item];
      StreamCons(item, []);
      assert Encode(item) + "" == "" + Encode(item);
    } else {
      StreamSnoc(items[1..], item);
      StreamCons(items[0], items[1..] + [item]);
      assert items + [item] == [items[0]] + (items[1..] + [item]);
      Regroup(Encode(items[0]), Stream(items[1..]), Encode(item));
    }
  }

  /** The messages that were written, in order. */
  function Messages(items: seq<Item>): seq<Message> {
    if items == [] then []
    else Says(items[0]) + Messages(items[1..])
  }

  lemma MessagesCons(item: Item, rest: seq<Item>)
    ensures Messages([item] + rest) == Says(item) + Messages(rest)
  {
    assert ([item] + rest)[1..] == rest;
  }

  /** The item survives the trip: no carriage return in the data, no line break in the name. */
  predicate Clean(item: Item) {
    match item
    case Event(event, data) => NoBreak(event) && '\r' !in data
    case Heartbeat(_) => true
  }

  /** And the heartbeats are lines. */
  predicate Deliverable(item: Item) {
    Clean(item) && (item.Heartbeat? ==> NoBreak(item.text))
  }

  lemma EncodeEnds(item: Item)
    ensures Encode(item) != "" && Encode(item)[|Encode(item)| - 1] == '\n'
  {
  }

  /** The messages that one item stands for. */
  function Says(item: Item): seq<Message> {
    if item.Event? then [Written(item.event, item.data)] else []
  }

  lemma FeedItem(st: State, item: Item)
    requires st.data == "" && st.eventType == "" && Deliverable(item)
    ensures Feed(st, Encode(item)) == State("", "", st.dispatched + Says(item))
  {
    match item {
      case Event(event, data) => FeedFrame(st, event, data);
      case Heartbeat(text) =>
        FeedComment(st, text);
        assert st.dispatched + [] == st.dispatched;
    }
  }

  lemma FeedThen(st: State, item: Item, rest: string)
    requires st.data == "" && st.eventType == "" && Deliverable(item)
    ensures Feed(st, Encode(item) + rest) == Feed(State("", "", st.dispatched + Says(item)), rest)
  {
    FeedItem(st, item);
    EncodeEnds(item);
    FeedConcat(st, Encode(item), rest);
  }

  lemma {:induction false} FeedStream(st: State, items: seq<Item>)
    requires st.data == "" && st.eventType == ""
    requires forall item | item in items :: Deliverable(item)
    ensures Feed(st, Stream(items)) == State("", "", st.dispatched + Messages(items))
    decreases |items|
  {
    if items == [] {
      assert st.dispatched + [] == st.dispatched;
    } else {
      var first, rest := items[0], items[1..];
      assert items == [first] + rest;
      StreamCons(first, rest);
      MessagesCons(first, rest);
      FeedThen(st, first, Stream(rest));
      FeedStream(State("", "", st.dispatched + Says(first)), rest);
      Regroup(st.dispatched, Says(first), Messages(rest));
    }
  }

  // ---------- what no stream can deliver ----------

  predicate CleanMessage(m: Message) {
    NoBreak(m.eventType) && '\r' !in m.data
  }

  lemma {:induction false} LinesHaveNoBreak(line: string, s: string)
    requires NoBreak(line)
    ensures forall l | l in LinesFrom(line, s) :: NoBreak(l)
    decreases |s|
  {
    if s != "" {
      if s[0] == '\n' {
        LinesHaveNoBreak("", s[1..]);
      } else if s[0] == '\r' {
        LinesHaveNoBreak("", if |s| > 1 && s[1] == '\n' then s[2..] else s[1..]);
      } else {
        LinesHaveNoBreak(line + [s[0]], s[1..]);
      }
    }
  }

  predicate CleanState(st: State) {
    '\r' !in st.data && NoBreak(st.eventType) && forall m | m in st.dispatched :: CleanMessage(m)
  }

  lemma ProcessLineClean(st: State, line: string)
    requires CleanState(st) && NoBreak(line)
    ensures CleanState(ProcessLine(st, line))
  {
    IndexFinds(line, ":");
  }

  lemma {:induction false} ProcessClean(st: State, lines: seq<string>)
    requires CleanState(st) && forall l | l in lines :: NoBreak(l)
    ensures CleanState(ProcessLines(st, lines))
    decreases |lines|
  {
    if lines != [] {
      ProcessLineClean(st, lines[0]);
      ProcessClean(ProcessLine(st, lines[0]), lines[1..]);
    }
  }

  /** Whatever the stream, no message that comes out has a carriage return or a broken type. */
  lemma ParsedIsClean(s: string)
    ensures forall m | m in Parse(s) :: CleanMessage(m)
  {
    LinesHaveNoBreak("", s);
    ProcessClean(START, LinesFrom("", s));
  }

  lemma {:induction false} MessagesHas(items: seq<Item>, item: Item)
    requires item in items && item.Event?
    ensures Written(item.event, item.data) in Messages(items)
    decreases |items|
  {
    if item != items[0] {
      assert items == [items[0]] + items[1..];
      MessagesHas(items[1..], item);
    }
  }

  /**
   The round trip.  An EventSource that reads the frames and heartbeats dispatches exactly
   the messages that were written, in order, multi-line data included, if and only if no
   data holds a carriage return and no event name holds a line break.
   */
  lemma StreamRoundTrip(items: seq<Item>)
    requires forall item | item in items && item.Heartbeat? :: NoBreak(item.text)
    ensures Parse(Stream(items)) == Messages(items) <==> forall item | item in items :: Clean(item)
  {
    if forall item | item in items :: Clean(item) {
      FeedStream(START, items);
      assert [] + Messages(items) == Messages(items);
    } else {
      var item :| item in items && !Clean(item);
      MessagesHas(items, item);
      ParsedIsClean(Stream(items));
      assert Written(item.event, item.data) !in Parse(Stream(items));
    }
  }

  lemma AllArrive(first: Item, rest: seq<Item>)
    requires Deliverable(first) && forall item | item in rest :: Deliverable(item)
    ensures Parse(Stream([first] + rest)) == Says(first) + Messages(rest)
  {
    StreamRoundTrip([first] + rest);
    MessagesCons(first, rest);
  }

  /** A log line with a carriage return inside, such as a progress bar writes, does not arrive as it was. */
  lemma CarriageReturnIsLost()
    ensures Parse(Stream([Event("", "10%\r20%")])) != [Message("message", "10%\r20%")]
  {
    var item := Event("", "10%\r20%");
    assert [item][1..] == [] && item.data[3] == '\r';
    StreamRoundTrip([item]);
    assert item in [item] && !Clean(item);
  }

  // ---------- the code that writes ----------

  lemma DataLinesSnoc(parts: seq<string>, i: nat)
    requires i < |parts|
    ensures DataLines(parts[..i + 1]) == DataLines(parts[..i]) + ("data: " + parts[i] + "\n")
  {
    assert parts[..i + 1][..i] == parts[..i];
  }

  /** The response that a handler writes to. */
  class Response {
    var body: string
    ghost var items: seq<Item>

    /** The body is the encoding of the items written so far. */
    ghost predicate Valid()
      reads this
    {
      body == Stream(items)
    }

    constructor ()
      ensures Valid() && items == []
    {
      body := "";
      items := [];
    }

    method WriteSSE(event: string, data: string)
      requires Valid()
      modifies this
      ensures Valid() && items == old(items) + [Event(event, data)]
    {
      ghost var head := EventLine(event);
      if event != "" {
        body := body + ("event: " + event + "\n");
      }
      var parts := Split(data, "\n");
      for i := 0 to |parts|
        invariant body == old(body) + head + DataLines(parts[..i])
        invariant items == old(items)
      {
        DataLinesSnoc(parts, i);
        body := body + ("data: " + parts[i] + "\n");
        Regroup(old(body) + head, DataLines(parts[..i]), "data: " + parts[i] + "\n");
      }
      assert parts[..|parts|] == parts;
      body := body + "\n";
      Regroup(old(body), head, DataLines(parts));
      Regroup(old(body), head + DataLines(parts), "\n");
      StreamSnoc(items, Event(event, data));
      items := items + [Event(event, data)];
    }

    method WriteComment(text: string)
      requires Valid()
      modifies this
      ensures Valid() && items == old(items) + [Heartbeat(text)]
    {
      body := body + (":" + text + "\n\n");
      StreamSnoc(items, Heartbeat(text));
      items := items + [Heartbeat(text)];
    }

    /** fmt.Fprintf(w, "event: ...\ndata: %s\n\n", ...): on one-line data the same as writeSSE. */
    method PrintEvent(event: string, data: string)
      requires Valid()
      requires event != "" && '\n' !in data
      modifies this
      ensures Valid() && items == old(items) + [Event(event, data)]
    {
      FprintfIsFrame(event, data);
      body := body + Printed(event, data);
      StreamSnoc(items, Event(event, data));
      items := items + [Event(event, data)];
    }
  }

  const HEARTBEAT: string := " heartbeat"
  const OPEN: string := "open"
  const CLOSE: string := "close"
  const ENDED: string := "stream ended"
  const ERROR: string := "error"
  const HELLO: string := "hello"
  const EMPTY_OBJECT: string := "{}"
  const PING: string := " ping "
  const INVALIDATE: string := "invalidate"

  /** What the select of logsStream sees, in the order in which it is chosen. */
  datatype LogInput = Tick | LogLine(text: string) | LinesClosed | ScanError(error: string) | Disconnected

  /** What one input makes logsStream write, and whether the stream goes on. */
  function LogWrites(x: LogInput): seq<Item> {
    match x
    case Tick => [Heartbeat(HEARTBEAT)]
    case LogLine(text) => [Event("", text)]
    case LinesClosed => [Event(CLOSE, ENDED)]
    case ScanError(error) => [Event(ERROR, error)]
    case Disconnected => []
  }

  predicate LogGoesOn(x: LogInput) {
    x.Tick? || x.LogLine?
  }

  /** The items that the log stream writes after the first one. */
  function LogItems(inputs: seq<LogInput>): seq<Item> {
    if inputs == [] then []
    else LogWrites(inputs[0]) + if LogGoesOn(inputs[0]) then LogItems(inputs[1..]) else []
  }

  /** One round of the select. */
  method LogStep(w: Response, input: LogInput) returns (more: bool)
    requires w.Valid()
    modifies w
    ensures w.Valid() && w.items == old(w.items) + LogWrites(input)
    ensures more == LogGoesOn(input)
  {
    match input {
      case Tick => w.WriteComment(HEARTBEAT);
      case LogLine(text) => w.WriteSSE("", text);
      case LinesClosed => w.WriteSSE(CLOSE, ENDED);
      case ScanError(error) => w.WriteSSE(ERROR, error);
      case Disconnected =>
    }
    more := input.Tick? || input.LogLine?;
  }

  /** What is still to be written when the loop is at input `i`. */
  function LogRest(inputs: seq<LogInput>, i: nat, more: bool): seq<Item>
    requires i <= |inputs|
  {
    if more then LogItems(inputs[i..]) else []
  }

  /** One turn of the loop. */
  lemma LogTurn(before: seq<Item>, inputs: seq<LogInput>, i: nat)
    requires i < |inputs|
    ensures before + LogRest(inputs, i, true) ==
            before + LogWrites(inputs[i]) + LogRest(inputs, i + 1, LogGoesOn(inputs[i]))
  {
    assert inputs[i..][1..] == inputs[i + 1..];
    Regroup(before, LogWrites(inputs[i]), LogRest(inputs, i + 1, LogGoesOn(inputs[i])));
  }

  lemma LogDone(items: seq<Item>, inputs: seq<LogInput>, i: nat, more: bool)
    requires i <= |inputs| && (i < |inputs| ==> !more)
    ensures items + LogRest(inputs, i, more) == items
  {
  }

  method LogLoop(w: Response, inputs: seq<LogInput>)
    requires w.Valid()
    modifies w
    ensures w.Valid() && w.items == old(w.items) + LogItems(inputs)
  {
    var i, more := 0, true;
    assert inputs[0..] == inputs;
    ghost var all := w.items + LogItems(inputs);
    while i < |inputs| && more
      invariant 0 <= i <= |inputs|
      invariant w.Valid()
      invariant w.items + LogRest(inputs, i, more) == all
    {
      LogTurn(w.items, inputs, i);
      more := LogStep(w, inputs[i]);
      i := i + 1;
    }
    LogDone(w.items, inputs, i, more);
  }

  method LogsStream(w: Response, open: string, inputs: seq<LogInput>)
    requires w.Valid() && w.items == []
    modifies w
    ensures w.Valid() && w.items == [Event(OPEN, open)] + LogItems(inputs)
  {
    w.WriteSSE(OPEN, open);
    LogLoop(w, inputs);
  }

  /** The messages that the log stream means to deliver. */
  function LogMessages(inputs: seq<LogInput>): seq<Message> {
    if inputs == [] then []
    else
      match inputs[0]
      case Tick => LogMessages(inputs[1..])
      case LogLine(text) => [Message("message", text)] + LogMessages(inputs[1..])
      case LinesClosed => [Message(CLOSE, ENDED)]
      case ScanError(error) => [Message(ERROR, error)]
      case Disconnected => []
  }

  /** No carriage return in a log line or in an error message. */
  predicate PlainLog(x: LogInput) {
    match x
    case LogLine(text) => '\r' !in text
    case ScanError(error) => '\r' !in error
    case Tick => true
    case LinesClosed => true
    case Disconnected => true
  }

  lemma {:induction false} LogItemsSay(inputs: seq<LogInput>)
    ensures Messages(LogItems(inputs)) == LogMessages(inputs)
    decreases |inputs|
  {
    if inputs != [] {
      LogItemsSay(inputs[1..]);
      var rest := LogItems(inputs[1..]);
      match inputs[0] {
        case Tick => MessagesCons(Heartbeat(HEARTBEAT), rest);
        case LogLine(text) => MessagesCons(Event("", text), rest);
        case LinesClosed => MessagesCons(Event(CLOSE, ENDED), []);
        case ScanError(error) => MessagesCons(Event(ERROR, error), []);
        case Disconnected =>
      }
    }
  }

  /** The names and texts as they go over the wire. */
  lemma WireNames()
    ensures OPEN == "open" && CLOSE == "close" && ENDED == "stream ended" && ERROR == "error"
    ensures HELLO == "hello" && EMPTY_OBJECT == "{}" && INVALIDATE == "invalidate"
    ensures Comment(HEARTBEAT) == ": heartbeat\n\n" && Comment(PING + "0") == ": ping 0\n\n"
  {
  }

  lemma LogNamesAreClean()
    ensures NoBreak(HEARTBEAT) && NoBreak(OPEN) && NoBreak(CLOSE) && NoBreak(ENDED) && NoBreak(ERROR)
  {
  }

  lemma {:induction false} LogItemsDeliverable(inputs: seq<LogInput>)
    requires forall x | x in inputs :: PlainLog(x)
    ensures forall item | item in LogItems(inputs) :: Deliverable(item)
    decreases |inputs|
  {
    if inputs != [] {
      assert PlainLog(inputs[0]);
      LogNamesAreClean();
      LogItemsDeliverable(inputs[1..]);
    }
  }

  /**
   What the browser gets from the log stream, when no line holds a carriage return: the
   opening message, then every line in order, then the closing or error message; heartbeats
   do not show.
   */
  lemma LogStreamArrives(open: string, inputs: seq<LogInput>)
    requires '\r' !in open
    requires forall x | x in inputs :: PlainLog(x)
    ensures Parse(Stream([Event(OPEN, open)] + LogItems(inputs))) == [Message(OPEN, open)] + LogMessages(inputs)
  {
    LogItemsSay(inputs);
    LogItemsDeliverable(inputs);
    LogNamesAreClean();
    AllArrive(Event(OPEN, open), LogItems(inputs));
  }

  /** What the select of the invalidation stream sees: an event's JSON, the closed channel, a tick, a disconnect. */
  datatype HubInput = Changed(cluster: string, json: string) | HubClosed | Ping(unix: string) | Gone

  /** What one input makes the invalidation stream write; the events of other clusters are left out. */
  function StreamWrites(x: HubInput, allowed: string -> bool): seq<Item> {
    match x
    case Changed(cluster, json) => if allowed(cluster) then [Event(INVALIDATE, json)] else []
    case Ping(unix) => [Heartbeat(PING + unix)]
    case HubClosed => []
    case Gone => []
  }

  predicate StreamGoesOn(x: HubInput) {
    x.Changed? || x.Ping?
  }

  function StreamItems(inputs: seq<HubInput>, allowed: string -> bool): seq<Item> {
    if inputs == [] then []
    else StreamWrites(inputs[0], allowed) + if StreamGoesOn(inputs[0]) then StreamItems(inputs[1..], allowed) else []
  }

  lemma OneDataLine(json: string)
    requires '\n' !in json
    ensures DataLines(Split(json, "\n")) == "data: " + json + "\n"
  {
    AbsentChar(json, '\n');
    assert ['\n'] == "\n";
    assert Split(json, "\n") == [json];
    DataLinesSnoc([json], 0);
    assert [json][..1] == [json] && [json][..0] == [];
    assert DataLines([]) == "";
    assert "" + ("data: " + json + "\n") == "data: " + json + "\n";
  }

  /** The format string of stream.go's Fprintf, with its two placeholders filled in. */
  function Printed(event: string, json: string): string {
    "event: " + event + "\ndata: " + json + "\n\n"
  }

  /** One-line data in one frame. */
  lemma FprintfIsFrame(event: string, json: string)
    requires event != "" && '\n' !in json
    ensures Printed(event, json) == Frame(event, json)
  {
    OneDataLine(json);
    var e := "event: " + event;
    var d := "data: " + json;
    assert "\ndata: " == "\n" + "data: ";
    assert "\n\n" == "\n" + "\n";
    assert Frame(event, json) == (e + "\n") + (d + "\n") + "\n";
    assert Printed(event, json) == e + ("\n" + "data: ") + json + ("\n" + "\n");
    Pieces(e, "\n", "data: ", json);
  }

  lemma Pieces(a: string, nl: string, c: string, d: string)
    ensures a + (nl + c) + d + (nl + nl) == (a + nl) + ((c + d) + nl) + nl
  {
  }

  /** One round of the select. */
  method ServeStep(w: Response, input: HubInput, allowed: string -> bool) returns (more: bool)
    requires w.Valid()
    requires input.Changed? ==> '\n' !in input.json
    modifies w
    ensures w.Valid() && w.items == old(w.items) + StreamWrites(input, allowed)
    ensures more == StreamGoesOn(input)
  {
    match input {
      case Changed(cluster, json) =>
        if allowed(cluster) {
          w.PrintEvent(INVALIDATE, json);
        }
      case Ping(unix) => w.WriteComment(PING + unix);
      case HubClosed =>
      case Gone =>
    }
    more := input.Changed? || input.Ping?;
  }

  /** What is still to be written when the loop is at input `i`. */
  function StreamRest(inputs: seq<HubInput>, i: nat, more: bool, allowed: string -> bool): seq<Item>
    requires i <= |inputs|
  {
    if more then StreamItems(inputs[i..], allowed) else []
  }

  /** One turn of the loop. */
  lemma StreamTurn(before: seq<Item>, inputs: seq<HubInput>, i: nat, allowed: string -> bool)
    requires i < |inputs|
    ensures before + StreamRest(inputs, i, true, allowed) ==
            before + StreamWrites(inputs[i], allowed) +
            StreamRest(inputs, i + 1, StreamGoesOn(inputs[i]), allowed)
  {
    assert inputs[i..][1..] == inputs[i + 1..];
    Regroup(before, StreamWrites(inputs[i], allowed), StreamRest(inputs, i + 1, StreamGoesOn(inputs[i]), allowed));
  }

  method ServeLoop(w: Response, inputs: seq<HubInput>, allowed: string -> bool)
    requires w.Valid()
    requires forall x | x in inputs && x.Changed? :: '\n' !in x.json
    modifies w
    ensures w.Valid() && w.items == old(w.items) + StreamItems(inputs, allowed)
  {
    var i, more := 0, true;
    assert inputs[0..] == inputs;
    ghost var all := w.items + StreamItems(inputs, allowed);
    while i < |inputs| && more
      invariant 0 <= i <= |inputs|
      invariant w.Valid()
      invariant w.items + StreamRest(inputs, i, more, allowed) == all
    {
      StreamTurn(w.items, inputs, i, allowed);
      assert inputs[i] in inputs;
      more := ServeStep(w, inputs[i], allowed);
      i := i + 1;
    }
    StreamDone(w.items, inputs, i, more, allowed);
  }

  lemma StreamDone(items: seq<Item>, inputs: seq<HubInput>, i: nat, more: bool, allowed: string -> bool)
    requires i <= |inputs| && (i < |inputs| ==> !more)
    ensures items + StreamRest(inputs, i, more, allowed) == items
  {
  }

  method Serve(w: Response, inputs: seq<HubInput>, allowed: string -> bool)
    requires w.Valid() && w.items == []
    requires forall x | x in inputs && x.Changed? :: '\n' !in x.json
    modifies w
    ensures w.Valid() && w.items == [Event(HELLO, EMPTY_OBJECT)] + StreamItems(inputs, allowed)
  {
    w.PrintEvent(HELLO, EMPTY_OBJECT);
    ServeLoop(w, inputs, allowed);
  }

  /** What the browser means to see on the invalidation stream. */
  function StreamMessages(inputs: seq<HubInput>, allowed: string -> bool): seq<Message> {
    if inputs == [] then []
    else
      match inputs[0]
      case Changed(cluster, json) =>
        (if allowed(cluster) then [Message(INVALIDATE, json)] else []) + StreamMessages(inputs[1..], allowed)
      case Ping(_) => StreamMessages(inputs[1..], allowed)
      case HubClosed => []
      case Gone => []
  }

  predicate PlainInput(x: HubInput) {
    match x
    case Changed(_, json) => '\r' !in json
    case Ping(unix) => NoBreak(unix)
    case HubClosed => true
    case Gone => true
  }

  lemma {:induction false} StreamItemsSay(inputs: seq<HubInput>, allowed: string -> bool)
    ensures Messages(StreamItems(inputs, allowed)) == StreamMessages(inputs, allowed)
    decreases |inputs|
  {
    if inputs != [] {
      StreamItemsSay(inputs[1..], allowed);
      var rest := StreamItems(inputs[1..], allowed);
      match inputs[0] {
        case Changed(cluster, json) =>
          MessagesCons(Event(INVALIDATE, json), rest);
          assert [] + rest == rest;
        case Ping(unix) =>
          MessagesCons(Heartbeat(PING + unix), rest);
        case HubClosed =>
        case Gone =>
      }
    }
  }

  lemma {:induction false} StreamItemsDeliverable(inputs: seq<HubInput>, allowed: string -> bool)
    requires forall x | x in inputs :: PlainInput(x)
    ensures forall item | item in StreamItems(inputs, allowed) :: Deliverable(item)
    decreases |inputs|
  {
    if inputs != [] {
      assert PlainInput(inputs[0]);
      assert NoBreak(INVALIDATE);
      StreamItemsDeliverable(inputs[1..], allowed);
    }
  }

  /** The browser gets the hello message and then the events of the permitted clusters, in order. */
  lemma InvalidationsArrive(inputs: seq<HubInput>, allowed: string -> bool)
    requires forall x | x in inputs :: PlainInput(x)
    ensures Parse(Stream([Event(HELLO, EMPTY_OBJECT)] + StreamItems(inputs, allowed))) ==
            [Message(HELLO, EMPTY_OBJECT)] + StreamMessages(inputs, allowed)
  {
    StreamItemsSay(inputs, allowed);
    StreamItemsDeliverable(inputs, allowed);
    AllArrive(Event(HELLO, EMPTY_OBJECT), StreamItems(inputs, allowed));
  }
}
