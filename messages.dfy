/**
 * The broadcaster's message record and its event-stream wire text.
 *
 * `ToString` writes one `name: value` line per non-empty field, in the order id, event, data,
 * retry, then a `: comment` line, following the event-stream format of the WHATWG HTML Living
 * Standard, sections 9.2.5 and 9.2.6. `Decode` reads such text back; the round trip
 * `Decode(ToString(m)) == Some(m)` is the contract that ties the two together.
 */
module Messages {
  import opened Wrappers
  import opened Strings

  /** StringBuilder.AppendLine and StreamWriter.WriteLine end lines with Environment.NewLine (CR LF on Windows). */
  const NewLine: string := "\r\n"

  /** All five properties of the source's Message class; a null property is "". */
  datatype Message = Message(id: string, eventType: string, data: string, retry: string, comment: string)

  /** `new Message()`: every property null. */
  const Blank: Message := Message("", "", "", "", "")

  /** The keep-alive message sent by the heartbeat timer. */
  const Heartbeat: Message := Blank.(comment := "heartbeat")

  /** One `name: value` line. A comment line is a line with an empty field name. */
  function Line(name: string, value: string): string {
    name + ": " + value + NewLine
  }

  /** The line for a field, present only when the field is not null or empty. */
  function FieldLine(name: string, value: string): string {
    if IsNullOrEmpty(value) then "" else Line(name, value)
  }

  /** Message.ToString: the field lines in the fixed order id, event, data, retry, comment. */
  function ToString(m: Message): (r: string)
    ensures r == "" <==> m == Blank
    ensures r != "" ==> |r| >= 2 && r[|r| - 2..] == NewLine
  {
    FieldLine("id", m.id) + FieldLine("event", m.eventType) + FieldLine("data", m.data)
    + FieldLine("retry", m.retry) + FieldLine("", m.comment)
  }

  /** Message.IsOnlyComment: a heartbeat-style message that carries nothing but a comment. */
  predicate IsOnlyComment(m: Message) {
    IsNullOrEmpty(m.id) && IsNullOrEmpty(m.eventType) && IsNullOrEmpty(m.data)
    && IsNullOrEmpty(m.retry) && !IsNullOrEmpty(m.comment)
  }

  /** What Client.Send hands to StreamWriter.WriteLine: the text plus one more line terminator,
      which leaves the blank line that ends an event in the event-stream format. */
  function WireText(m: Message): (r: string)
    ensures ToString(m) == "" ==> r == NewLine
    ensures ToString(m) != "" ==> |r| >= 4 && r[|r| - 4..] == NewLine + NewLine
  {
    ToString(m) + NewLine
  }

  /** The text a stream receives from a sequence of successful writes. */
  function Transcript(log: seq<Message>): string {
    if log == [] then "" else WireText(log[0]) + Transcript(log[1..])
  }

  /** Writes append: the stream text of two runs of writes is the first's followed by the second's. */
  lemma {:induction false} TranscriptAppend(a: seq<Message>, b: seq<Message>)
    ensures Transcript(a + b) == Transcript(a) + Transcript(b)
  {
    if a == [] {
      assert a + b == b;
    } else {
      assert (a + b)[0] == a[0] && (a + b)[1..] == a[1..] + b;
      TranscriptAppend(a[1..], b);
    }
  }

  // ----- the overloads' message construction -----

  /** Send(data): a message with Data only. */
  function DataMessage(data: string): (m: Message)
    ensures Fields(m) == Present("data", data)
    ensures !IsOnlyComment(m)
  {
    Blank.(data := data)
  }

  /** Send(data, eventType): EventType and Data; on the wire the event line precedes the data line. */
  function EventMessage(data: string, eventType: string): (m: Message)
    ensures Fields(m) == Present("event", eventType) + Present("data", data)
    ensures !IsOnlyComment(m)
  {
    Blank.(eventType := eventType, data := data)
  }

  /** Send(data, eventType, messageId): EventType, Data and Id. */
  function IdentifiedMessage(data: string, eventType: string, messageId: string): (m: Message)
    ensures Fields(m) == Present("id", messageId) + Present("event", eventType) + Present("data", data)
    ensures !IsOnlyComment(m)
  {
    Blank.(eventType := eventType, data := data, id := messageId)
  }

  // ----- fields and the decoder -----

  /** One field line of the wire text: its name (empty for a comment) and its value. */
  datatype Field = Field(name: string, value: string)

  /** The field for a value, present only when the value is not empty. */
  function Present(name: string, value: string): seq<Field> {
    if IsNullOrEmpty(value) then [] else [Field(name, value)]
  }

  /** The non-empty fields of a message, in wire order. */
  function Fields(m: Message): seq<Field> {
    Present("id", m.id) + Present("event", m.eventType) + Present("data", m.data)
    + Present("retry", m.retry) + Present("", m.comment)
  }

  /** The text of a list of fields, one line each. */
  function Render(fs: seq<Field>): string {
    if fs == [] then "" else Line(fs[0].name, fs[0].value) + Render(fs[1..])
  }

  /** Splits one line at its first colon; one space after the colon is skipped, as the
      event-stream format prescribes. */
  function ParseLine(line: string): Option<Field> {
    var c := IndexOf(line, ':');
    if c == |line| then None
    else if c + 1 < |line| && line[c + 1] == ' ' then Some(Field(line[..c], line[c + 2..]))
    else Some(Field(line[..c], line[c + 1..]))
  }

  /** Splits text into CR LF terminated lines and parses each; fails on an unterminated line. */
  function ParseFields(s: string): Option<seq<Field>>
    decreases |s|
  {
    if s == [] then Some([])
    else
      var k := IndexOf(s, '\r');
      if k + 1 < |s| && s[k + 1] == '\n' then
        match ParseLine(s[..k])
        case None => None
        case Some(f) =>
          match ParseFields(s[k + 2..])
          case None => None
          case Some(fs) => Some([f] + fs)
      else None
  }

  /** Stores one field into a message; unknown field names are rejected. */
  function Apply(m: Message, f: Field): Option<Message> {
    if f.name == "id" then Some(m.(id := f.value))
    else if f.name == "event" then Some(m.(eventType := f.value))
    else if f.name == "data" then Some(m.(data := f.value))
    else if f.name == "retry" then Some(m.(retry := f.value))
    else if f.name == "" then Some(m.(comment := f.value))
    else None
  }

  /** Stores the fields one after the other into `m`. */
  function Assemble(m: Message, fs: seq<Field>): Option<Message>
    decreases |fs|
  {
    if fs == [] then Some(m)
    else match Apply(m, fs[0])
      case None => None
      case Some(m') => Assemble(m', fs[1..])
  }

  /** Reads wire text back into a message. */
  function Decode(s: string): Option<Message> {
    match ParseFields(s)
    case None => None
    case Some(fs) => Assemble(Blank, fs)
  }

  /** Fields whose values stay on one line; only these survive a trip through the wire. */
  predicate WireSafe(m: Message) {
    NoLineBreak(m.id) && NoLineBreak(m.eventType) && NoLineBreak(m.data)
    && NoLineBreak(m.retry) && NoLineBreak(m.comment)
  }

  // ----- the properties -----

  lemma {:induction false} RenderAppend(a: seq<Field>, b: seq<Field>)
    ensures Render(a + b) == Render(a) + Render(b)
  {
    if a != [] {
      assert (a + b)[1..] == a[1..] + b;
      RenderAppend(a[1..], b);
    } else {
      assert a + b == b;
    }
  }

  lemma RenderPresent(name: string, value: string)
    ensures Render(Present(name, value)) == FieldLine(name, value)
  {
    if value != "" {
      assert Render([Field(name, value)]) == Line(name, value) + Render([]);
    }
  }

  /** ToString is the rendering of the message's non-empty fields in wire order. */
  lemma ToStringIsRender(m: Message)
    ensures ToString(m) == Render(Fields(m))
  {
    var a, b, c, d, e := Present("id", m.id), Present("event", m.eventType), Present("data", m.data),
                         Present("retry", m.retry), Present("", m.comment);
    RenderPresent("id", m.id);
    RenderPresent("event", m.eventType);
    RenderPresent("data", m.data);
    RenderPresent("retry", m.retry);
    RenderPresent("", m.comment);
    RenderAppend(a, b);
    RenderAppend(a + b, c);
    RenderAppend(a + b + c, d);
    RenderAppend(a + b + c + d, e);
    assert Fields(m) == a + b + c + d + e;
  }

  /** A field whose name and value survive parsing. */
  predicate FieldSafe(f: Field) {
    NoLineBreak(f.name) && NoLineBreak(f.value) && forall i :: 0 <= i < |f.name| ==> f.name[i] != ':'
  }

  lemma ParseLineOf(f: Field)
    requires FieldSafe(f)
    ensures ParseLine(f.name + ": " + f.value) == Some(f)
  {
    var line := f.name + ": " + f.value;
    assert line == f.name + [':'] + (" " + f.value);
    IndexOfAfter(f.name, ':', " " + f.value);
    assert line[..|f.name|] == f.name;
    assert line[|f.name| + 2..] == f.value;
  }

  /** Parsing the rendering of safe fields gives the fields back. */
  lemma {:induction false} ParseRender(fs: seq<Field>)
    requires forall i :: 0 <= i < |fs| ==> FieldSafe(fs[i])
    ensures ParseFields(Render(fs)) == Some(fs)
  {
    if fs != [] {
      var f := fs[0];
      var line := f.name + ": " + f.value;
      var rest := Render(fs[1..]);
      var s := Render(fs);
      assert s == line + ['\r'] + (['\n'] + rest);
      assert forall i :: 0 <= i < |line| ==> line[i] != '\r' by {
        forall i | 0 <= i < |line| ensures line[i] != '\r' {
          if i < |f.name| { assert line[i] == f.name[i]; }
          else if i >= |f.name| + 2 { assert line[i] == f.value[i - |f.name| - 2]; }
        }
      }
      IndexOfAfter(line, '\r', ['\n'] + rest);
      assert s[..|line|] == line;
      assert s[|line| + 2..] == rest;
      ParseLineOf(f);
      ParseRender(fs[1..]);
      assert [f] + fs[1..] == fs;
    }
  }

  lemma {:induction false} AssembleAppend(m: Message, a: seq<Field>, b: seq<Field>)
    ensures Assemble(m, a + b) == match Assemble(m, a) case None => None case Some(m') => Assemble(m', b)
    decreases |a|
  {
    if a != [] {
      assert (a + b)[1..] == a[1..] + b;
      match Apply(m, a[0])
      case None =>
      case Some(m') => AssembleAppend(m', a[1..], b);
    } else {
      assert a + b == b;
    }
  }

  /** Storing a message's own fields into a blank message rebuilds it. */
  lemma AssembleFields(m: Message)
    ensures Assemble(Blank, Fields(m)) == Some(m)
  {
    var a, b, c, d, e := Present("id", m.id), Present("event", m.eventType), Present("data", m.data),
                         Present("retry", m.retry), Present("", m.comment);
    var m1 := Blank.(id := m.id);
    var m2 := m1.(eventType := m.eventType);
    var m3 := m2.(data := m.data);
    var m4 := m3.(retry := m.retry);
    assert Assemble(Blank, a) == Some(m1);
    AssembleAppend(Blank, a, b);
    assert Assemble(m1, b) == Some(m2);
    AssembleAppend(Blank, a + b, c);
    assert Assemble(m2, c) == Some(m3);
    AssembleAppend(Blank, a + b + c, d);
    assert Assemble(m3, d) == Some(m4);
    AssembleAppend(Blank, a + b + c + d, e);
    assert Assemble(m4, e) == Some(m);
  }

  lemma FieldsSafe(m: Message)
    requires WireSafe(m)
    ensures forall i :: 0 <= i < |Fields(m)| ==> FieldSafe(Fields(m)[i])
  {
    var fs := Fields(m);
    forall i | 0 <= i < |fs| ensures FieldSafe(fs[i]) {
      var f := fs[i];
      assert f.name in {"id", "event", "data", "retry", ""};
      assert f.value in {m.id, m.eventType, m.data, m.retry, m.comment};
    }
  }

  /** The wire text lists exactly the non-empty fields, each on its own line, in the order
      id, event, data, retry, comment. */
  lemma WireFieldOrder(m: Message)
    requires WireSafe(m)
    ensures ParseFields(ToString(m)) == Some(Fields(m))
  {
    ToStringIsRender(m);
    FieldsSafe(m);
    ParseRender(Fields(m));
  }

  /** The wire text determines the message: decoding it gives the message back. */
  lemma DecodeToString(m: Message)
    requires WireSafe(m)
    ensures Decode(ToString(m)) == Some(m)
  {
    WireFieldOrder(m);
    AssembleFields(m);
  }

  /** A comment-only message is a single comment line, which event-stream parsers ignore. */
  lemma OnlyCommentIsOneCommentLine(m: Message)
    ensures IsOnlyComment(m) <==> Fields(m) == [Field("", m.comment)]
  {
    var p := Present("id", m.id) + Present("event", m.eventType) + Present("data", m.data)
             + Present("retry", m.retry);
    assert Fields(m) == p + Present("", m.comment);
    assert forall i :: 0 <= i < |p| ==> p[i].name in {"id", "event", "data", "retry"};
    if |p| > 0 {
      assert Fields(m)[0] == p[0];
      assert Fields(m)[0].name != "";
    }
  }

  /** The heartbeat is the single line ": heartbeat". */
  lemma HeartbeatText()
    ensures IsOnlyComment(Heartbeat)
    ensures ToString(Heartbeat) == ": heartbeat\r\n"
  {
  }
}
