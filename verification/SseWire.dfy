/**
 Server-sent events on the wire: the frames the API prints, and the parser of section 9.2.6 of the
 WHATWG HTML Living Standard, which every EventSource client runs.
 */
module SseWire {
  import opened Wrappers

  // ----- printing -----

  datatype Frame = Frame(sequence: nat, kind: string, data: string)

  function Digit(n: nat): char
    requires n < 10
  {
    ('0' as int + n) as char
  }

  function Decimal(n: nat): string {
    if n < 10 then [Digit(n)] else Decimal(n / 10) + [Digit(n % 10)]
  }

  function Print(frame: Frame): string {
    "id: " + Decimal(frame.sequence) + "\nevent: " + frame.kind + "\ndata: " + frame.data + "\n\n"
  }

  function PrintAll(frames: seq<Frame>): string {
    if frames == [] then "" else Print(frames[0]) + PrintAll(frames[1..])
  }

  // ----- parsing: lines -----

  /** Where the first CR or LF stands; the length when there is none. */
  function LineEnd(s: string): (k: nat)
    ensures k <= |s|
    ensures forall i | 0 <= i < k :: s[i] != '\n' && s[i] != '\r'
    ensures k < |s| ==> s[k] == '\n' || s[k] == '\r'
  {
    if s == [] || s[0] == '\n' || s[0] == '\r' then 0 else 1 + LineEnd(s[1..])
  }

  /** A line ends with CR LF, LF or CR. */
  function BreakLength(s: string, k: nat): nat
    requires k < |s|
  {
    if s[k] == '\r' && k + 1 < |s| && s[k + 1] == '\n' then 2 else 1
  }

  /** The terminated lines; what follows the last line break is discarded at the end of the stream. */
  function Lines(s: string): seq<string>
    decreases |s|
  {
    var k := LineEnd(s);
    if k == |s| then [] else [s[..k]] + Lines(s[k + BreakLength(s, k)..])
  }

  // ----- parsing: fields and dispatch -----

  datatype Message = Message(lastEventId: string, kind: string, data: string)

  /** The three buffers of the parser and the last event ID of the event source. */
  datatype Parser = Parser(data: string, kind: string, idBuffer: string, lastEventId: string)

  function Colon(line: string): (k: nat)
    ensures k <= |line|
  {
    if line == [] || line[0] == ':' then 0 else 1 + Colon(line[1..])
  }

  function FieldName(line: string): string {
    line[..Colon(line)]
  }

  function FieldValue(line: string): string {
    var k := Colon(line);
    if k == |line| then ""
    else if k + 1 < |line| && line[k + 1] == ' ' then line[k + 2..]
    else line[k + 1..]
  }

  function TakeField(p: Parser, line: string): Parser {
    var value := FieldValue(line);
    if FieldName(line) == "event" then p.(kind := value)
    else if FieldName(line) == "data" then p.(data := p.data + value + "\n")
    else if FieldName(line) == "id" && '\0' !in value then p.(idBuffer := value)
    else p
  }

  function Dispatch(p: Parser): (Parser, seq<Message>) {
    var clean := Parser("", "", p.idBuffer, p.idBuffer);
    if p.data == "" then (clean, [])
    else
      var text := if p.data[|p.data| - 1] == '\n' then p.data[..|p.data| - 1] else p.data;
      (clean, [Message(p.idBuffer, if p.kind == "" then "message" else p.kind, text)])
  }

  function TakeLine(p: Parser, line: string): (Parser, seq<Message>) {
    if line == "" then Dispatch(p)
    else if line[0] == ':' then (p, [])
    else (TakeField(p, line), [])
  }

  function TakeLines(p: Parser, lines: seq<string>): (Parser, seq<Message>)
    decreases |lines|
  {
    if lines == [] then (p, [])
    else
      var (next, now) := TakeLine(p, lines[0]);
      var (last, later) := TakeLines(next, lines[1..]);
      (last, now + later)
  }

  /** One connection: parsing starts from the last event ID the client already has. */
  function Parse(stream: string, lastEventId: string): (Parser, seq<Message>) {
    TakeLines(Parser("", "", lastEventId, lastEventId), Lines(stream))
  }

  /** The number a Last-Event-ID header holds. */
  function ParseDecimal(s: string): Option<nat> {
    if |s| == 0 then None
    else if !('0' <= s[|s| - 1] <= '9') then None
    else
      var last := s[|s| - 1] as int - '0' as int;
      if |s| == 1 then Some(last)
      else match ParseDecimal(s[..|s| - 1])
           case None => None
           case Some(high) => Some(10 * high + last)
  }
}
