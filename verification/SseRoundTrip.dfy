/** Printing and parsing of server-sent events undo each other, also when the connection is cut. */
module SseRoundTrip {
  import opened Wrappers
  import opened SseWire
  import Json
  import JsonReader

  predicate OneLine(s: string) {
    '\n' !in s && '\r' !in s
  }

  predicate Plain(frame: Frame) {
    OneLine(frame.kind) && OneLine(frame.data) && frame.kind != ""
  }

  // ----- lines -----

  lemma {:induction false} LineEndOf(a: string, rest: string)
    requires OneLine(a)
    ensures LineEnd(a + "\n" + rest) == |a|
  {
    if a != [] {
      assert (a + "\n" + rest)[1..] == a[1..] + "\n" + rest;
      assert (a + "\n" + rest)[0] == a[0];
      LineEndOf(a[1..], rest);
    }
  }

  lemma NoLine(a: string)
    requires OneLine(a)
    ensures Lines(a) == []
  {
    assert LineEnd(a) == |a|;
  }

  lemma FirstLine(a: string, rest: string)
    requires OneLine(a)
    ensures Lines(a + "\n" + rest) == [a] + Lines(rest)
  {
    LineEndOf(a, rest);
    var s := a + "\n" + rest;
    assert s[..|a|] == a && s[|a|] == '\n' && s[|a| + 1..] == rest;
  }

  /** A cut inside or after the first line. */
  lemma CutLine(a: string, rest: string, n: nat)
    requires OneLine(a) && n <= |a + "\n" + rest|
    ensures Lines((a + "\n" + rest)[..n]) == if n <= |a| then [] else [a] + Lines(rest[..n - |a| - 1])
  {
    var s := a + "\n" + rest;
    if n <= |a| {
      assert s[..n] == a[..n];
      NoLine(a[..n]);
    } else {
      assert s[..n] == a + "\n" + rest[..n - |a| - 1];
      FirstLine(a, rest[..n - |a| - 1]);
    }
  }

  // ----- numbers -----

  lemma {:induction false} DecimalParses(n: nat)
    ensures ParseDecimal(Decimal(n)) == Some(n)
    ensures forall c | c in Decimal(n) :: '0' <= c <= '9'
  {
    if n >= 10 {
      DecimalParses(n / 10);
      var s := Decimal(n);
      assert s[..|s| - 1] == Decimal(n / 10);
    } else {
      assert Decimal(n)[..0] == [];
    }
  }

  // ----- one frame -----

  function IdLine(f: Frame): string { "id: " + Decimal(f.sequence) }

  function EventLine(f: Frame): string { "event: " + f.kind }

  function DataLine(f: Frame): string { "data: " + f.data }

  lemma {:induction false} ColonAfter(name: string, rest: string)
    requires ':' !in name
    ensures Colon(name + ":" + rest) == |name|
  {
    if name != [] {
      assert (name + ":" + rest)[1..] == name[1..] + ":" + rest;
      assert (name + ":" + rest)[0] == name[0];
      ColonAfter(name[1..], rest);
    }
  }

  lemma FieldParses(name: string, value: string)
    requires ':' !in name
    ensures FieldName(name + ": " + value) == name && FieldValue(name + ": " + value) == value
  {
    ColonAfter(name, " " + value);
    assert name + ": " + value == name + ":" + (" " + value);
  }

  function FromData(f: Frame, rest: string): string { DataLine(f) + "\n" + ("" + "\n" + rest) }

  function FromEvent(f: Frame, rest: string): string { EventLine(f) + "\n" + FromData(f, rest) }

  /** A frame is three field lines and an empty line. */
  lemma PrintIsFourLines(f: Frame, rest: string)
    ensures Print(f) + rest == IdLine(f) + "\n" + FromEvent(f, rest)
  {
    var a, b, c := Decimal(f.sequence), f.kind, f.data;
    assert Print(f) + rest == "id: " + a + ("\nevent: " + b + ("\ndata: " + c + ("\n\n" + rest)));
    assert "\ndata: " + c + ("\n\n" + rest) == "\n" + FromData(f, rest);
    assert "\nevent: " + b + ("\n" + FromData(f, rest)) == "\n" + FromEvent(f, rest);
  }

  lemma FieldLinesAreLines(f: Frame)
    requires Plain(f)
    ensures OneLine(IdLine(f)) && OneLine(EventLine(f)) && OneLine(DataLine(f))
  {
    DecimalParses(f.sequence);
  }

  function FrameLines(f: Frame, more: seq<string>): seq<string> {
    [IdLine(f)] + ([EventLine(f)] + ([DataLine(f)] + ([""] + more)))
  }

  lemma LinesOfFrame(f: Frame, rest: string)
    requires Plain(f)
    ensures Lines(Print(f) + rest) == FrameLines(f, Lines(rest))
  {
    FieldLinesAreLines(f);
    calc {
      Lines(Print(f) + rest);
      { PrintIsFourLines(f, rest); }
      Lines(IdLine(f) + "\n" + FromEvent(f, rest));
      { FirstLine(IdLine(f), FromEvent(f, rest)); }
      [IdLine(f)] + Lines(FromEvent(f, rest));
      { FirstLine(EventLine(f), FromData(f, rest)); }
      [IdLine(f)] + ([EventLine(f)] + Lines(FromData(f, rest)));
      { FirstLine(DataLine(f), "" + "\n" + rest); }
      [IdLine(f)] + ([EventLine(f)] + ([DataLine(f)] + Lines("" + "\n" + rest)));
      { FirstLine("", rest); }
      FrameLines(f, Lines(rest));
    }
  }

  /** Between frames the parser holds nothing but the last ID. */
  function Idle(id: string): Parser { Parser("", "", id, id) }

  function Received(f: Frame): Message { Message(Decimal(f.sequence), f.kind, f.data) }

  lemma TakeQuiet(p: Parser, line: string, next: Parser, more: seq<string>)
    requires TakeLine(p, line) == (next, [])
    ensures TakeLines(p, [line] + more) == TakeLines(next, more)
  {
    assert ([line] + more)[1..] == more;
    assert [] + TakeLines(next, more).1 == TakeLines(next, more).1;
  }

  lemma IdLineTaken(f: Frame, id: string)
    ensures TakeLine(Idle(id), IdLine(f)) == (Parser("", "", Decimal(f.sequence), id), [])
  {
    DecimalParses(f.sequence);
    FieldParses("id", Decimal(f.sequence));
    assert '\0' !in Decimal(f.sequence);
    assert IdLine(f) == "id" + ": " + Decimal(f.sequence);
  }

  lemma EventLineTaken(f: Frame, p: Parser)
    ensures TakeLine(p, EventLine(f)) == (p.(kind := f.kind), [])
  {
    FieldParses("event", f.kind);
    assert EventLine(f) == "event" + ": " + f.kind;
  }

  lemma DataLineTaken(f: Frame, p: Parser)
    requires p.data == ""
    ensures TakeLine(p, DataLine(f)) == (p.(data := f.data + "\n"), [])
  {
    FieldParses("data", f.data);
    assert DataLine(f) == "data" + ": " + f.data;
    assert "" + f.data + "\n" == f.data + "\n";
  }

  lemma EmptyLineTaken(f: Frame, id: string)
    requires f.kind != ""
    ensures TakeLine(Parser(f.data + "\n", f.kind, Decimal(f.sequence), id), "") ==
            (Idle(Decimal(f.sequence)), [Received(f)])
  {
    assert (f.data + "\n")[..|f.data|] == f.data;
  }

  /** The four lines of a frame yield its message and leave the parser idle. */
  lemma TakeFrame(f: Frame, id: string, more: seq<string>)
    requires Plain(f)
    ensures var (p, later) := TakeLines(Idle(Decimal(f.sequence)), more);
            TakeLines(Idle(id), FrameLines(f, more)) == (p, [Received(f)] + later)
  {
    var seqText := Decimal(f.sequence);
    var p1 := Parser("", "", seqText, id);
    var p2 := Parser("", f.kind, seqText, id);
    var p3 := Parser(f.data + "\n", f.kind, seqText, id);
    IdLineTaken(f, id);
    EventLineTaken(f, p1);
    DataLineTaken(f, p2);
    EmptyLineTaken(f, id);
    TakeQuiet(Idle(id), IdLine(f), p1, [EventLine(f)] + ([DataLine(f)] + ([""] + more)));
    TakeQuiet(p1, EventLine(f), p2, [DataLine(f)] + ([""] + more));
    TakeQuiet(p2, DataLine(f), p3, [""] + more);
    assert ([""] + more)[1..] == more;
  }

  // ----- a cut frame -----

  ghost predicate NoneEmpty(lines: seq<string>) {
    forall i | 0 <= i < |lines| :: lines[i] != ""
  }

  /** Fields alone are never dispatched, and never become the last event ID. */
  lemma {:induction false} FieldsAreHeldBack(p: Parser, lines: seq<string>)
    requires NoneEmpty(lines)
    ensures TakeLines(p, lines).1 == [] && TakeLines(p, lines).0.lastEventId == p.lastEventId
    decreases |lines|
  {
    if lines != [] {
      assert lines[0] != "";
      FieldsAreHeldBack(TakeLine(p, lines[0]).0, lines[1..]);
    }
  }

  lemma CutAfterLine(a: string, rest: string, n: nat)
    requires OneLine(a) && a != "" && n <= |a| + 1 + |rest|
    requires n > |a| ==> NoneEmpty(Lines(rest[..n - |a| - 1]))
    ensures NoneEmpty(Lines((a + "\n" + rest)[..n]))
  {
    CutLine(a, rest, n);
  }

  lemma CutInData(f: Frame, n: nat)
    requires Plain(f) && n < |FromData(f, "")|
    ensures NoneEmpty(Lines(FromData(f, "")[..n]))
  {
    FieldLinesAreLines(f);
    var end := "" + "\n" + "";
    if n > |DataLine(f)| {
      assert end[..n - |DataLine(f)| - 1] == "";
      NoLine("");
    }
    CutAfterLine(DataLine(f), end, n);
  }

  lemma CutInEvent(f: Frame, n: nat)
    requires Plain(f) && n < |FromEvent(f, "")|
    ensures NoneEmpty(Lines(FromEvent(f, "")[..n]))
  {
    FieldLinesAreLines(f);
    if n > |EventLine(f)| {
      CutInData(f, n - |EventLine(f)| - 1);
    }
    CutAfterLine(EventLine(f), FromData(f, ""), n);
  }

  /** A frame cut before its last byte has no empty line. */
  lemma CutFrameHasNoEmptyLine(f: Frame, n: nat)
    requires Plain(f) && n < |Print(f)|
    ensures NoneEmpty(Lines(Print(f)[..n]))
  {
    PrintIsFourLines(f, "");
    FieldLinesAreLines(f);
    assert Print(f) + "" == Print(f);
    if n > |IdLine(f)| {
      CutInEvent(f, n - |IdLine(f)| - 1);
    }
    CutAfterLine(IdLine(f), FromEvent(f, ""), n);
  }

  // ----- whole streams, cut anywhere -----

  ghost predicate AllPlain(frames: seq<Frame>) {
    frames == [] || (Plain(frames[0]) && AllPlain(frames[1..]))
  }

  lemma {:induction false} PlainFrom(frames: seq<Frame>, k: nat)
    requires AllPlain(frames) && k <= |frames|
    ensures AllPlain(frames[k..])
  {
    if k > 0 {
      PlainFrom(frames[1..], k - 1);
      assert frames[1..][k - 1..] == frames[k..];
    } else {
      assert frames[0..] == frames;
    }
  }

  /** How many frames are whole within the first n characters. */
  function WholeFrames(frames: seq<Frame>, n: nat): (k: nat)
    ensures k <= |frames|
  {
    if frames == [] || n < |Print(frames[0])| then 0
    else 1 + WholeFrames(frames[1..], n - |Print(frames[0])|)
  }

  function Messages(frames: seq<Frame>): seq<Message> {
    seq(|frames|, i requires 0 <= i < |frames| => Received(frames[i]))
  }

  function LastId(frames: seq<Frame>, id: string): string {
    if frames == [] then id else Decimal(frames[|frames| - 1].sequence)
  }

  /** What a client makes of a connection: the messages of these frames, and the ID of the last one. */
  ghost predicate Delivers(text: string, id: string, frames: seq<Frame>) {
    Parse(text, id).1 == Messages(frames) && Parse(text, id).0.lastEventId == LastId(frames, id)
  }

  lemma CutWithinFirst(f: Frame, later: string, n: nat, id: string)
    requires Plain(f) && n < |Print(f)|
    ensures Delivers((Print(f) + later)[..n], id, [])
  {
    assert (Print(f) + later)[..n] == Print(f)[..n];
    CutFrameHasNoEmptyLine(f, n);
    FieldsAreHeldBack(Idle(id), Lines(Print(f)[..n]));
  }

  lemma MessagesOfTail(f: Frame, rest: seq<Frame>, id: string)
    ensures Messages([f] + rest) == [Received(f)] + Messages(rest)
    ensures LastId([f] + rest, id) == LastId(rest, Decimal(f.sequence))
  {
  }

  lemma CutAfterFirst(f: Frame, later: string, n: nat, id: string, rest: seq<Frame>)
    requires Plain(f) && |Print(f)| <= n <= |Print(f)| + |later|
    requires Delivers(later[..n - |Print(f)|], Decimal(f.sequence), rest)
    ensures Delivers((Print(f) + later)[..n], id, [f] + rest)
  {
    var cut := later[..n - |Print(f)|];
    assert (Print(f) + later)[..n] == Print(f) + cut;
    LinesOfFrame(f, cut);
    TakeFrame(f, id, Lines(cut));
    MessagesOfTail(f, rest, id);
  }

  lemma WholeUnfolds(frames: seq<Frame>, n: nat)
    requires frames != []
    ensures PrintAll(frames) == Print(frames[0]) + PrintAll(frames[1..])
    ensures n < |Print(frames[0])| ==> frames[..WholeFrames(frames, n)] == []
    ensures n >= |Print(frames[0])| ==>
              frames[..WholeFrames(frames, n)] ==
              [frames[0]] + frames[1..][..WholeFrames(frames[1..], n - |Print(frames[0])|)]
  {
  }

  /** One frame more in front, whole or not. */
  lemma CutStep(f: Frame, later: string, n: nat, id: string, rest: seq<Frame>)
    requires Plain(f) && n <= |Print(f)| + |later|
    requires n >= |Print(f)| ==> Delivers(later[..n - |Print(f)|], Decimal(f.sequence), rest)
    ensures Delivers((Print(f) + later)[..n], id, if n < |Print(f)| then [] else [f] + rest)
  {
    if n < |Print(f)| {
      CutWithinFirst(f, later, n, id);
    } else {
      CutAfterFirst(f, later, n, id, rest);
    }
  }

  /**
   A connection cut after any character delivers exactly the frames it carried whole, and leaves the
   client with the ID of the last of them.
   */
  lemma {:induction false} CutStreamParses(frames: seq<Frame>, n: nat, id: string)
    returns (text: string, whole: seq<Frame>)
    requires AllPlain(frames) && n <= |PrintAll(frames)|
    ensures text == PrintAll(frames)[..n] && whole == frames[..WholeFrames(frames, n)]
    ensures Delivers(text, id, whole)
    decreases |frames|
  {
    text, whole := PrintAll(frames)[..n], frames[..WholeFrames(frames, n)];
    if frames == [] {
      NoLine("");
    } else {
      var f, later := frames[0], PrintAll(frames[1..]);
      var rest := [];
      WholeUnfolds(frames, n);
      if n >= |Print(f)| {
        var t;
        t, rest := CutStreamParses(frames[1..], n - |Print(f)|, Decimal(f.sequence));
      }
      CutStep(f, later, n, id, rest);
    }
  }

  lemma {:induction false} AllFramesWhole(frames: seq<Frame>)
    ensures WholeFrames(frames, |PrintAll(frames)|) == |frames|
  {
    if frames != [] {
      AllFramesWhole(frames[1..]);
    }
  }

  /** The list a client received, with its IDs read back as numbers; None when one is no number. */
  function Decoded(messages: seq<Message>): Option<seq<Frame>> {
    if messages == [] then Some([])
    else
      match (ParseDecimal(messages[0].lastEventId), Decoded(messages[1..]))
      case (Some(n), Some(rest)) => Some([Frame(n, messages[0].kind, messages[0].data)] + rest)
      case _ => None
  }

  lemma {:induction false} MessagesDecode(frames: seq<Frame>)
    ensures Decoded(Messages(frames)) == Some(frames)
  {
    if frames != [] {
      var f, rest := frames[0], frames[1..];
      DecimalParses(f.sequence);
      MessagesDecode(rest);
      assert frames == [f] + rest;
      MessagesOfTail(f, rest, "");
      assert Messages(frames)[1..] == Messages(rest);
      assert Frame(f.sequence, f.kind, f.data) == f;
    }
  }

  lemma WholeStreamParses(frames: seq<Frame>, id: string)
    requires AllPlain(frames)
    ensures Delivers(PrintAll(frames), id, frames)
  {
    var text := PrintAll(frames);
    AllFramesWhole(frames);
    var cut, whole := CutStreamParses(frames, |text|, id);
    assert text[..|text|] == text;
    assert frames[..|frames|] == frames;
  }

  /** What the server printed is exactly what the client receives. */
  lemma RoundTrip(frames: seq<Frame>, id: string)
    requires AllPlain(frames)
    ensures Decoded(Parse(PrintAll(frames), id).1) == Some(frames)
  {
    WholeStreamParses(frames, id);
    MessagesDecode(frames);
  }

  /** The frames of consecutive events, the first of them numbered after the cursor. */
  predicate Consecutive(frames: seq<Frame>, cursor: nat) {
    forall i | 0 <= i < |frames| :: frames[i].sequence == cursor + 1 + i
  }

  lemma HeaderIsCursor(frames: seq<Frame>, cursor: nat, k: nat)
    requires Consecutive(frames, cursor) && k <= |frames|
    ensures LastId(frames[..k], Decimal(cursor)) == Decimal(cursor + k)
  {
    if k > 0 {
      assert frames[..k][k - 1] == frames[k - 1];
    }
  }

  lemma MessagesSplit(frames: seq<Frame>, k: nat)
    requires k <= |frames|
    ensures Messages(frames[..k]) + Messages(frames[k..]) == Messages(frames)
  {
  }

  lemma ConsecutiveFrom(frames: seq<Frame>, cursor: nat, k: nat)
    requires Consecutive(frames, cursor) && k <= |frames|
    ensures Consecutive(frames[k..], cursor + k)
  {
  }

  /** What two connections deliver one after the other. */
  lemma TwoConnections(first: string, id: string, second: string, header: string, frames: seq<Frame>, k: nat)
    requires k <= |frames|
    requires Delivers(first, id, frames[..k]) && Delivers(second, header, frames[k..])
    ensures Parse(first, id).1 + Parse(second, header).1 == Messages(frames)
    ensures Parse(first, id).0.lastEventId == LastId(frames[..k], id)
  {
    MessagesSplit(frames, k);
  }

  /**
   A connection cut after any character, and a second one opened with the Last-Event-ID the first one
   left: the header is the cursor of the last whole frame, and together they deliver every frame once.
   */
  lemma ReconnectLosesNothing(frames: seq<Frame>, cursor: nat, n: nat) returns (k: nat, first: string, second: string)
    requires AllPlain(frames)
    requires Consecutive(frames, cursor) && n <= |PrintAll(frames)|
    ensures k <= |frames| && first == PrintAll(frames)[..n] && second == PrintAll(frames[k..])
    ensures Consecutive(frames[k..], cursor + k)
    ensures Parse(first, Decimal(cursor)).0.lastEventId == Decimal(cursor + k)
    ensures Parse(first, Decimal(cursor)).1 + Parse(second, Decimal(cursor + k)).1 == Messages(frames)
  {
    k := WholeFrames(frames, n);
    second := PrintAll(frames[k..]);
    var whole;
    first, whole := CutStreamParses(frames, n, Decimal(cursor));
    ConsecutiveFrom(frames, cursor, k);
    PlainFrom(frames, k);
    HeaderIsCursor(frames, cursor, k);
    WholeStreamParses(frames[k..], Decimal(cursor + k));
    TwoConnections(first, Decimal(cursor), second, Decimal(cursor + k), frames, k);
  }

  /** The data line always is one line: it is the compact JSON text of the event. */
  lemma EventFrameIsPlain(sequence: nat, kind: string, event: Json.Json, number: real -> string)
    requires OneLine(kind) && kind != ""
    requires forall x: real :: Json.Printable(number(x))
    ensures Plain(Frame(sequence, kind, Json.Dumps(event, number)))
  {
    Json.DumpsIsPrintable(event, number);
  }

  /** An event as the server sends it: its number, its type and the value that is printed as its data. */
  datatype Sent = Sent(sequence: nat, kind: string, event: Json.Json)

  function FramesOf(sent: seq<Sent>, number: real -> string): seq<Frame> {
    seq(|sent|, i requires 0 <= i < |sent| =>
      Frame(sent[i].sequence, sent[i].kind, Json.Dumps(sent[i].event, number)))
  }

  lemma NumbersArePrintable(number: real -> string, digits: JsonReader.Digits)
    requires JsonReader.Faithful(number, digits)
    ensures forall x: real :: Json.Printable(number(x))
  {
    forall x: real ensures Json.Printable(number(x)) {
      assert JsonReader.AllNumberChars(number(x));
    }
  }

  lemma {:induction false} SentIsPlain(sent: seq<Sent>, number: real -> string)
    requires forall x: real :: Json.Printable(number(x))
    requires forall i | 0 <= i < |sent| :: OneLine(sent[i].kind) && sent[i].kind != ""
    ensures AllPlain(FramesOf(sent, number))
    decreases |sent|
  {
    if sent != [] {
      EventFrameIsPlain(sent[0].sequence, sent[0].kind, sent[0].event, number);
      SentIsPlain(sent[1..], number);
      assert FramesOf(sent, number)[1..] == FramesOf(sent[1..], number);
    }
  }

  /** End to end: the client gets one message an event, with its number, its type and its whole value. */
  lemma EventsArrive(sent: seq<Sent>, id: string, number: real -> string, digits: JsonReader.Digits)
    requires JsonReader.Faithful(number, digits)
    requires forall i | 0 <= i < |sent| :: OneLine(sent[i].kind) && sent[i].kind != ""
    ensures var got := Parse(PrintAll(FramesOf(sent, number)), id).1;
            && |got| == |sent|
            && forall i | 0 <= i < |sent| ::
                 && ParseDecimal(got[i].lastEventId) == Some(sent[i].sequence)
                 && got[i].kind == sent[i].kind
                 && JsonReader.ReadValue(got[i].data, digits) == Some(JsonReader.Read(sent[i].event, ""))
  {
    var frames := FramesOf(sent, number);
    NumbersArePrintable(number, digits);
    SentIsPlain(sent, number);
    WholeStreamParses(frames, id);
    forall i | 0 <= i < |sent|
      ensures ParseDecimal(Messages(frames)[i].lastEventId) == Some(sent[i].sequence)
      ensures Messages(frames)[i].kind == sent[i].kind
      ensures JsonReader.ReadValue(Messages(frames)[i].data, digits) == Some(JsonReader.Read(sent[i].event, ""))
    {
      DecimalParses(sent[i].sequence);
      JsonReader.DumpsReadsBack(sent[i].event, number, digits);
    }
  }
}
