/** encode_sse and encode_heartbeat (services/log_broker.py) against the event stream parser
    of the WHATWG HTML Standard, section 9.2.6. */
module Sse {
  import opened Prelude
  import opened Json
  import opened LogStream

  // ---- what the broker writes ----

  function LineData(offset: nat, text: string): string {
    "{\"offset\": " + (Decimal(offset) + (", \"text\": \"" + (Escape(text) + ("\"" + "}"))))
  }

  function CodeData(exitCode: int): string {
    ", \"exit_code\": " + (Number(exitCode) + "}")
  }

  function EndData(status: string, exitCode: int): string {
    "{\"status\": \"" + (Escape(status) + ("\"" + CodeData(exitCode)))
  }

  function EventName(f: Frame): string {
    if f.Line? then "line" else "end"
  }

  function Data(f: Frame): string {
    match f
    case Line(offset, text) => LineData(offset, text)
    case End(status, exitCode) => EndData(status, exitCode)
  }

  function EncodeSse(data: string, event: string): string {
    ("event: " + event + "\n") + (("data: " + data + "\n") + "\n")
  }

  function EncodeHeartbeat(): string {
    ": heartbeat" + "\n" + "\n"
  }

  /** What a client is sent: frames, and heartbeats between them. */
  datatype Item = Framed(frame: Frame) | Heartbeat

  function Encode(item: Item): string {
    match item
    case Framed(f) => EncodeSse(Data(f), EventName(f))
    case Heartbeat => EncodeHeartbeat()
  }

  function EncodeAll(items: seq<Item>): string {
    if |items| == 0 then [] else Encode(items[0]) + EncodeAll(items[1..])
  }

  /** A line event's data on the wire. */
  lemma LineLooksLike()
    ensures LineData(7, "x") == "{\"offset\": 7, \"text\": \"x\"}"
  {
    EscapeWord("x");
    assert Decimal(7) == "7";
  }

  /** An end event's data on the wire. */
  lemma EndLooksLike()
    ensures EndData("ok", 0) == "{\"status\": \"ok\", \"exit_code\": 0}"
  {
    EscapeWord("ok");
    assert Number(0) == "0";
  }

  lemma FrameLooksLike()
    ensures EncodeSse("{}", "line") == "event: line\ndata: {}\n\n"
    ensures EncodeHeartbeat() == ": heartbeat\n\n"
  {
  }

  lemma {:induction false} EscapeWord(word: string)
    requires forall i | 0 <= i < |word| :: 'a' <= word[i] <= 'z'
    ensures Escape(word) == word
  {
    if |word| > 0 {
      EscapeWord(word[1..]);
      assert word == [word[0]] + word[1..];
    }
  }

  // ---- section 9.2.6: lines, fields, dispatch ----

  predicate LineBreak(c: char) {
    c == '\n' || c == '\r'
  }

  function LineLength(s: string): nat
    ensures LineLength(s) <= |s|
  {
    if |s| == 0 || LineBreak(s[0]) then 0 else 1 + LineLength(s[1..])
  }

  /** The complete lines of a stream: ended by CR LF, LF or CR; what follows the last line end
      is discarded. */
  function Lines(s: string): seq<string>
    decreases |s|
  {
    var k := LineLength(s);
    if k == |s| then []
    else if s[k] == '\r' && k + 1 < |s| && s[k + 1] == '\n' then [s[..k]] + Lines(s[k + 2..])
    else [s[..k]] + Lines(s[k + 1..])
  }

  datatype Event = Event(name: string, data: string)

  datatype Buffers = Buffers(name: string, data: string)

  function ColonAt(line: string): nat
    ensures ColonAt(line) <= |line|
  {
    if |line| == 0 || line[0] == ':' then 0 else 1 + ColonAt(line[1..])
  }

  /** One leading space of the value is dropped; a line without a colon has an empty value. */
  function FieldValue(line: string): string {
    var k := ColonAt(line);
    if k == |line| then []
    else if k + 1 < |line| && line[k + 1] == ' ' then line[k + 2..]
    else line[k + 1..]
  }

  function Field(b: Buffers, line: string): Buffers {
    if line[..ColonAt(line)] == "event" then b.(name := FieldValue(line))
    else if line[..ColonAt(line)] == "data" then b.(data := b.data + FieldValue(line) + "\n")
    else b
  }

  /** A blank line dispatches: an empty data buffer makes no event, otherwise its trailing LF
      goes; comments and unknown fields do nothing. */
  function Interpret(lines: seq<string>, b: Buffers): seq<Event> {
    if |lines| == 0 then []
    else if lines[0] == [] then
      (if b.data == [] then []
       else [Event(if b.name == [] then "message" else b.name, b.data[..|b.data| - 1])])
      + Interpret(lines[1..], Buffers([], []))
    else Interpret(lines[1..], Field(b, lines[0]))
  }

  function Parse(s: string): seq<Event> {
    Interpret(Lines(s), Buffers([], []))
  }

  // ---- round trip ----

  lemma {:induction false} LineLengthIs(line: string, rest: string)
    requires forall i | 0 <= i < |line| :: !LineBreak(line[i])
    requires |rest| > 0 && LineBreak(rest[0])
    ensures LineLength(line + rest) == |line|
  {
    if |line| > 0 {
      LineLengthIs(line[1..], rest);
      assert (line + rest)[1..] == line[1..] + rest;
    } else {
      assert line + rest == rest;
    }
  }

  lemma LinesStep(line: string, rest: string)
    requires Printable(line)
    ensures Lines(line + "\n" + rest) == [line] + Lines(rest)
  {
    var s := line + "\n" + rest;
    var tail := "\n" + rest;
    assert s == line + tail;
    assert forall i | 0 <= i < |line| :: !LineBreak(line[i]);
    LineLengthIs(line, tail);
    assert s[..|line|] == line && s[|line|] == '\n' && s[|line| + 1..] == rest;
  }

  lemma {:induction false} ColonAtIs(name: string, rest: string)
    requires forall i | 0 <= i < |name| :: name[i] != ':'
    ensures ColonAt(name + (":" + rest)) == |name|
  {
    if |name| > 0 {
      ColonAtIs(name[1..], rest);
      assert (name + (":" + rest))[1..] == name[1..] + (":" + rest);
    } else {
      assert name + (":" + rest) == ":" + rest;
    }
  }

  lemma FieldIs(name: string, value: string)
    requires forall i | 0 <= i < |name| :: name[i] != ':'
    ensures var line := name + (":" + (" " + value));
            line[..ColonAt(line)] == name && FieldValue(line) == value && line != []
  {
    var line := name + (":" + (" " + value));
    ColonAtIs(name, " " + value);
    assert line[|name|] == ':' && line[|name| + 1] == ' ';
    assert line[|name| + 2..] == value;
  }

  lemma EventField(b: Buffers, event: string)
    ensures Field(b, "event: " + event) == b.(name := event) && "event: " + event != []
  {
    FieldIs("event", event);
    assert "event: " + event == "event" + (":" + (" " + event));
  }

  lemma DataField(b: Buffers, data: string)
    ensures Field(b, "data: " + data) == b.(data := b.data + data + "\n") && "data: " + data != []
  {
    FieldIs("data", data);
    assert "data: " + data == "data" + (":" + (" " + data));
  }

  lemma Printables(a: string, b: string)
    requires Printable(a) && Printable(b)
    ensures Printable(a + b)
  {
  }

  /** A frame's three lines. */
  lemma FrameLines(data: string, event: string, rest: string)
    requires Printable(data) && Printable(event)
    ensures Lines(EncodeSse(data, event) + rest) ==
            ["event: " + event] + (["data: " + data] + ([[]] + Lines(rest)))
  {
    Printables("event: ", event);
    Printables("data: ", data);
    var blank := "\n" + rest;
    var second := "data: " + data + "\n" + blank;
    assert EncodeSse(data, event) + rest == "event: " + event + "\n" + second;
    LinesStep("event: " + event, second);
    LinesStep("data: " + data, blank);
    LinesStep([], rest);
    assert [] + "\n" + rest == blank;
  }

  lemma FrameInterpreted(data: string, event: string, lines: seq<string>)
    requires event != []
    ensures Interpret(["event: " + event] + (["data: " + data] + ([[]] + lines)), Buffers([], [])) ==
            [Event(event, data)] + Interpret(lines, Buffers([], []))
  {
    EventField(Buffers([], []), event);
    DataField(Buffers(event, []), data);
    var third := [[]] + lines;
    var second := ["data: " + data] + third;
    var all := ["event: " + event] + second;
    assert all[1..] == second && second[1..] == third && third[1..] == lines;
    assert [] + data + "\n" == data + "\n";
    var b := Buffers(event, data + "\n");
    assert b.data[..|b.data| - 1] == data;
    assert Interpret(third, b) == [Event(event, data)] + Interpret(lines, Buffers([], []));
  }

  lemma CommentInterpreted(comment: string, lines: seq<string>)
    requires |comment| > 0 && comment[0] == ':'
    ensures Interpret([comment] + ([[]] + lines), Buffers([], [])) == Interpret(lines, Buffers([], []))
  {
    var second := [[]] + lines;
    assert ([comment] + second)[1..] == second && second[1..] == lines;
    assert ColonAt(comment) == 0;
    assert Field(Buffers([], []), comment) == Buffers([], []);
    assert Interpret(second, Buffers([], [])) == [] + Interpret(lines, Buffers([], []));
  }

  lemma HeartbeatLines(comment: string, rest: string)
    requires Printable(comment)
    ensures Lines(comment + "\n" + "\n" + rest) == [comment] + ([[]] + Lines(rest))
  {
    var blank := "\n" + rest;
    assert comment + "\n" + "\n" + rest == comment + "\n" + blank;
    LinesStep(comment, blank);
    LinesStep([], rest);
    assert [] + "\n" + rest == blank;
  }

  lemma HeartbeatInterpreted(rest: string)
    ensures Parse(EncodeHeartbeat() + rest) == Parse(rest)
  {
    var comment := ": heartbeat";
    HeartbeatLines(comment, rest);
    CommentInterpreted(comment, Lines(rest));
    assert EncodeHeartbeat() + rest == comment + "\n" + "\n" + rest;
  }

  lemma LinePrintable(offset: nat, text: string)
    ensures Printable(LineData(offset, text))
  {
    EscapePrintable(text);
    NumberPrintable(offset);
    var s3 := Escape(text) + ("\"" + "}");
    Printables(Escape(text), "\"" + "}");
    Printables(", \"text\": \"", s3);
    Printables(Decimal(offset), ", \"text\": \"" + s3);
  }

  lemma EndPrintable(status: string, exitCode: int)
    ensures Printable(EndData(status, exitCode))
  {
    EscapePrintable(status);
    NumberPrintable(exitCode);
    Printables(Number(exitCode), "}");
    Printables(", \"exit_code\": ", Number(exitCode) + "}");
    Printables("\"", CodeData(exitCode));
    Printables(Escape(status), "\"" + CodeData(exitCode));
  }

  lemma DataPrintable(f: Frame)
    ensures Printable(Data(f)) && Printable(EventName(f)) && EventName(f) != []
  {
    match f
    case Line(offset, text) => LinePrintable(offset, text);
    case End(status, exitCode) => EndPrintable(status, exitCode);
  }

  function EventsOf(items: seq<Item>): seq<Event> {
    if |items| == 0 then []
    else
      (match items[0]
       case Framed(f) => [Event(EventName(f), Data(f))]
       case Heartbeat => [])
      + EventsOf(items[1..])
  }

  /** Any concatenation of line, end and heartbeat frames parses to exactly the line and end
      events, in order. */
  lemma {:induction false} StreamRoundTrip(items: seq<Item>)
    ensures Parse(EncodeAll(items)) == EventsOf(items)
  {
    if |items| > 0 {
      StreamRoundTrip(items[1..]);
      var rest := EncodeAll(items[1..]);
      match items[0]
      case Framed(f) =>
        DataPrintable(f);
        FrameLines(Data(f), EventName(f), rest);
        FrameInterpreted(Data(f), EventName(f), Lines(rest));
      case Heartbeat =>
        HeartbeatInterpreted(rest);
        assert [] + EventsOf(items[1..]) == EventsOf(items[1..]);
    }
  }

  // ---- and the data reads back ----

  function Strip(prefix: string, s: string): Option<string> {
    if prefix <= s then Some(s[|prefix|..]) else None
  }

  /** JSON.parse of a line event's data, for an object of this shape. */
  function ReadLine(data: string): Option<Frame> {
    match Strip("{\"offset\": ", data)
    case None => None
    case Some(s) =>
      match ReadNat(s)
      case None => None
      case Some((offset, s)) =>
        match Strip(", \"text\": \"", s)
        case None => None
        case Some(s) =>
          match ReadString(s)
          case Some((text, "}")) => Some(Line(offset, text))
          case _ => None
  }

  function ReadEnd(data: string): Option<Frame> {
    match Strip("{\"status\": \"", data)
    case None => None
    case Some(s) =>
      match ReadString(s)
      case None => None
      case Some((status, s)) => ReadCode(status, s)
  }

  function ReadCode(status: string, s: string): Option<Frame> {
    match Strip(", \"exit_code\": ", s)
    case None => None
    case Some(s) =>
      match ReadNumber(s)
      case Some((code, "}")) => Some(End(status, code))
      case _ => None
  }

  function Read(e: Event): Option<Frame> {
    if e.name == "line" then ReadLine(e.data) else if e.name == "end" then ReadEnd(e.data) else None
  }

  lemma StripIs(prefix: string, rest: string)
    ensures Strip(prefix, prefix + rest) == Some(rest)
  {
    assert (prefix + rest)[|prefix|..] == rest;
  }

  lemma TextReads(offset: nat, text: string)
    requires ReadString(Escape(text) + ("\"" + "}")) == Some((text, "}"))
    requires ReadNat(Decimal(offset) + (", \"text\": \"" + (Escape(text) + ("\"" + "}")))) ==
             Some((offset, ", \"text\": \"" + (Escape(text) + ("\"" + "}"))))
    ensures ReadLine(LineData(offset, text)) == Some(Line(offset, text))
  {
    var s3 := Escape(text) + ("\"" + "}");
    StripIs("{\"offset\": ", Decimal(offset) + (", \"text\": \"" + s3));
    StripIs(", \"text\": \"", s3);
  }

  lemma LineReads(offset: nat, text: string)
    ensures ReadLine(LineData(offset, text)) == Some(Line(offset, text))
  {
    StringRoundTrip(text, "}");
    NatRoundTrip(offset, ", \"text\": \"" + (Escape(text) + ("\"" + "}")));
    TextReads(offset, text);
  }

  lemma CodeReads(status: string, exitCode: int)
    ensures ReadCode(status, CodeData(exitCode)) == Some(End(status, exitCode))
  {
    StripIs(", \"exit_code\": ", Number(exitCode) + "}");
    NumberRoundTrip(exitCode, "}");
  }

  lemma StatusReads(status: string, code: string, s: string)
    requires ReadString(s) == Some((status, code))
    ensures ReadEnd("{\"status\": \"" + s) == ReadCode(status, code)
  {
    StripIs("{\"status\": \"", s);
  }

  lemma EndReads(status: string, exitCode: int)
    ensures ReadEnd(EndData(status, exitCode)) == Some(End(status, exitCode))
  {
    StringRoundTrip(status, CodeData(exitCode));
    StatusReads(status, CodeData(exitCode), Escape(status) + ("\"" + CodeData(exitCode)));
    CodeReads(status, exitCode);
  }

  /** The browser recovers each frame: its offset and text, or its status and exit code, down
      to the last character. */
  lemma {:induction false} FrameReads(f: Frame)
    ensures Read(Event(EventName(f), Data(f))) == Some(f)
  {
    match f
    case Line(offset, text) => LineReads(offset, text);
    case End(status, exitCode) => EndReads(status, exitCode);
  }

  function FramesIn(items: seq<Item>): seq<Frame> {
    if |items| == 0 then []
    else (if items[0].Framed? then [items[0].frame] else []) + FramesIn(items[1..])
  }

  function ReadAll(events: seq<Event>): seq<Option<Frame>> {
    if |events| == 0 then [] else [Read(events[0])] + ReadAll(events[1..])
  }

  function AllRead(frames: seq<Frame>): seq<Option<Frame>> {
    seq(|frames|, i requires 0 <= i < |frames| => Some(frames[i]))
  }

  lemma OneMoreRead(e: Event, f: Frame, events: seq<Event>, frames: seq<Frame>)
    requires Read(e) == Some(f) && ReadAll(events) == AllRead(frames)
    ensures ReadAll([e] + events) == AllRead([f] + frames)
  {
    assert ([e] + events)[1..] == events;
    assert AllRead([f] + frames) == [Some(f)] + AllRead(frames);
  }

  lemma {:induction false} EventsRead(items: seq<Item>)
    ensures ReadAll(EventsOf(items)) == AllRead(FramesIn(items))
  {
    if |items| > 0 {
      EventsRead(items[1..]);
      var events, frames := EventsOf(items[1..]), FramesIn(items[1..]);
      if items[0].Framed? {
        var f := items[0].frame;
        FrameReads(f);
        OneMoreRead(Event(EventName(f), Data(f)), f, events, frames);
      } else {
        assert [] + events == events && [] + frames == frames;
      }
    }
  }

  /** End to end: whatever frames the broker sends, with heartbeats anywhere between them, the
      browser reads exactly those frames, in order. */
  lemma {:induction false} StreamRecovered(items: seq<Item>)
    ensures ReadAll(Parse(EncodeAll(items))) == AllRead(FramesIn(items))
  {
    StreamRoundTrip(items);
    EventsRead(items);
  }
}
