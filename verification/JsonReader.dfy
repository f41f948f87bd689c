/**
 Reading compact JSON text back, by the grammar of RFC 8259 without the optional white space.  What is
 printed of any value reads back as that value, so the data of an event on the wire is the event.
 */
module JsonReader {
  import opened Wrappers
  import opened Json

  predicate NumberChar(c: char) {
    '0' <= c <= '9' || c == '-' || c == '+' || c == '.' || c == 'e' || c == 'E'
  }

  function HexValue(c: char): Option<nat> {
    if '0' <= c <= '9' then Some(c as int - '0' as int)
    else if 'a' <= c <= 'f' then Some(c as int - 'a' as int + 10)
    else if 'A' <= c <= 'F' then Some(c as int - 'A' as int + 10)
    else None
  }

  /** The character of a two-letter escape. */
  function Unescape(c: char): Option<char> {
    if c == '"' || c == '\\' || c == '/' then Some(c)
    else if c == 'n' then Some('\n')
    else if c == 'r' then Some('\r')
    else if c == 't' then Some('\t')
    else if c == 'b' then Some(8 as char)
    else if c == 'f' then Some(12 as char)
    else None
  }

  /** A character by its code; surrogates, which are written in pairs, are not read. */
  function UnescapeCode(s: string): Option<char>
    requires |s| == 4
  {
    match (HexValue(s[0]), HexValue(s[1]), HexValue(s[2]), HexValue(s[3]))
    case (Some(a), Some(b), Some(c), Some(d)) =>
      var code := ((a * 16 + b) * 16 + c) * 16 + d;
      if 0 <= code < 0xD800 then Some(code as char) else None
    case _ => None
  }

  /** What was read, and the text behind it. */
  datatype Read<+T> = Read(value: T, rest: string)

  /** One character of a string, escaped or not. */
  function ReadChar(s: string): (r: Option<Read<char>>)
    ensures r.Some? ==> |r.value.rest| < |s|
  {
    if s == "" || s[0] as int < 32 then None
    else if s[0] != '\\' then Some(Read(s[0], s[1..]))
    else if |s| >= 6 && s[1] == 'u' then
      match UnescapeCode(s[2..6])
      case None => None
      case Some(c) => Some(Read(c, s[6..]))
    else if |s| >= 2 && Unescape(s[1]).Some? then Some(Read(Unescape(s[1]).value, s[2..]))
    else None
  }

  /** The characters of a string up to its closing quotation mark. */
  function ReadChars(s: string): (r: Option<Read<string>>)
    ensures r.Some? ==> |r.value.rest| < |s|
    decreases |s|
  {
    if s != "" && s[0] == '"' then Some(Read("", s[1..]))
    else
      match ReadChar(s)
      case None => None
      case Some(first) =>
        match ReadChars(first.rest)
        case None => None
        case Some(more) => Some(Read([first.value] + more.value, more.rest))
  }

  function NumberLength(s: string): (k: nat)
    ensures k <= |s|
  {
    if s == "" || !NumberChar(s[0]) then 0 else 1 + NumberLength(s[1..])
  }

  /** How a number reads is left to the caller of these functions. */
  type Digits = string -> Option<real>

  function ReadNumber(s: string, digits: Digits): (r: Option<Read<Json>>)
    ensures r.Some? ==> |r.value.rest| < |s|
  {
    var k := NumberLength(s);
    if k == 0 || digits(s[..k]).None? then None else Some(Read(Num(digits(s[..k]).value), s[k..]))
  }

  function ReadValue(s: string, digits: Digits): (r: Option<Read<Json>>)
    ensures r.Some? ==> |r.value.rest| < |s|
    decreases |s|, 0
  {
    if s == "" then None
    else if s[0] == '"' then
      match ReadChars(s[1..])
      case None => None
      case Some(text) => Some(Read(Str(text.value), text.rest))
    else if s[0] == '[' then
      if "]" <= s[1..] then Some(Read(Arr([]), s[2..]))
      else match ReadItems(s[1..], digits)
           case None => None
           case Some(items) => Some(Read(Arr(items.value), items.rest))
    else if s[0] == '{' then
      if "}" <= s[1..] then Some(Read(Obj([]), s[2..]))
      else match ReadFields(s[1..], digits)
           case None => None
           case Some(fields) => Some(Read(Obj(fields.value), fields.rest))
    else if "null" <= s then Some(Read(Null, s[4..]))
    else if "true" <= s then Some(Read(Bool(true), s[4..]))
    else if "false" <= s then Some(Read(Bool(false), s[5..]))
    else ReadNumber(s, digits)
  }

  function ReadItems(s: string, digits: Digits): (r: Option<Read<seq<Json>>>)
    ensures r.Some? ==> |r.value.rest| < |s|
    decreases |s|, 1
  {
    match ReadValue(s, digits)
    case None => None
    case Some(first) =>
      if "]" <= first.rest then Some(Read([first.value], first.rest[1..]))
      else if !("," <= first.rest) then None
      else match ReadItems(first.rest[1..], digits)
           case None => None
           case Some(more) => Some(Read([first.value] + more.value, more.rest))
  }

  function ReadField(s: string, digits: Digits): (r: Option<Read<Field>>)
    ensures r.Some? ==> |r.value.rest| < |s|
    decreases |s|, 1
  {
    if !("\"" <= s) then None
    else match ReadChars(s[1..])
      case None => None
      case Some(key) =>
        if !(":" <= key.rest) then None
        else match ReadValue(key.rest[1..], digits)
             case None => None
             case Some(value) => Some(Read(Field(key.value, value.value), value.rest))
  }

  function ReadFields(s: string, digits: Digits): (r: Option<Read<seq<Field>>>)
    ensures r.Some? ==> |r.value.rest| < |s|
    decreases |s|, 2
  {
    match ReadField(s, digits)
    case None => None
    case Some(first) =>
      if "}" <= first.rest then Some(Read([first.value], first.rest[1..]))
      else if !("," <= first.rest) then None
      else match ReadFields(first.rest[1..], digits)
           case None => None
           case Some(more) => Some(Read([first.value] + more.value, more.rest))
  }

  // ----- strings -----

  lemma Regroup(a: string, b: string, c: string)
    ensures a + (b + c) == (a + b) + c
  {
  }

  lemma HexDigitReads(n: nat)
    requires n < 16
    ensures HexValue(HexDigit(n)) == Some(n)
  {
  }

  lemma {:induction false} CharReads(c: char, rest: string)
    ensures ReadChar(EscapeChar(c) + rest) == Some(Read(c, rest))
    ensures EscapeChar(c) != "" && EscapeChar(c)[0] != '"'
  {
    var s := EscapeChar(c) + rest;
    var code := c as int;
    if code < 32 && c != '\n' && c != '\r' && c != '\t' && code != 8 && code != 12 {
      HexDigitReads(code / 16);
      HexDigitReads(code % 16);
      assert s[2..6] == ['0', '0', HexDigit(code / 16), HexDigit(code % 16)];
      assert s[6..] == rest;
    } else if |EscapeChar(c)| == 2 {
      assert s[2..] == rest;
    } else {
      assert s[1..] == rest;
    }
  }

  lemma {:induction false} CharsRead(t: string, rest: string)
    ensures ReadChars(Escape(t) + ("\"" + rest)) == Some(Read(t, rest))
  {
    var tail := "\"" + rest;
    if t == "" {
      assert "" + tail == tail && tail[1..] == rest;
    } else {
      var more := Escape(t[1..]) + tail;
      Regroup(EscapeChar(t[0]), Escape(t[1..]), tail);
      CharReads(t[0], more);
      CharsRead(t[1..], rest);
      assert (EscapeChar(t[0]) + more)[0] == EscapeChar(t[0])[0];
      assert [t[0]] + t[1..] == t;
    }
  }

  /** A text between two delimiters, and what follows. */
  lemma Delimited(open: string, middle: string, close: string, rest: string)
    requires |open| == |close| == 1
    ensures var s := open + middle + close + rest;
            s[..1] == open && s[1..] == middle + (close + rest) && (middle == "" ==> s[2..] == rest)
  {
  }

  lemma QuoteReads(t: string, rest: string)
    ensures "\"" <= Quote(t) + rest
    ensures ReadChars((Quote(t) + rest)[1..]) == Some(Read(t, rest))
  {
    Delimited("\"", Escape(t), "\"", rest);
    CharsRead(t, rest);
  }

  // ----- values -----

  /** Numbers print in the characters of numbers, and read back. */
  ghost predicate Faithful(number: real -> string, digits: Digits) {
    forall x: real :: number(x) != "" && AllNumberChars(number(x)) && digits(number(x)) == Some(x)
  }

  predicate AllNumberChars(s: string) {
    forall i | 0 <= i < |s| :: NumberChar(s[i])
  }

  /** What may follow a value: nothing that would lengthen a number. */
  predicate Stops(rest: string) {
    rest == "" || !NumberChar(rest[0])
  }

  lemma {:induction false} NumberRun(t: string, rest: string)
    requires AllNumberChars(t) && Stops(rest)
    ensures NumberLength(t + rest) == |t|
  {
    if t == "" {
      assert t + rest == rest;
    } else {
      assert NumberChar(t[0]) && (t + rest)[1..] == t[1..] + rest;
      NumberRun(t[1..], rest);
    }
  }

  lemma NumberReads(x: real, rest: string, number: real -> string, digits: Digits)
    requires Faithful(number, digits) && Stops(rest)
    ensures ReadValue(number(x) + rest, digits) == Some(Read(Num(x), rest))
  {
    var t := number(x);
    NumberRun(t, rest);
    assert NumberChar(t[0]) && (t + rest)[0] == t[0];
    assert (t + rest)[..|t|] == t && (t + rest)[|t|..] == rest;
  }

  lemma WordReads(j: Json, rest: string, number: real -> string, digits: Digits)
    requires j.Null? || j.Bool?
    ensures ReadValue(Dumps(j, number) + rest, digits) == Some(Read(j, rest))
  {
    var word := Dumps(j, number);
    assert word <= word + rest && (word + rest)[|word|..] == rest;
    assert (word + rest)[0] == word[0];
  }

  /** No value starts like the end of a list. */
  lemma ValueStart(j: Json, rest: string, number: real -> string, digits: Digits)
    requires Faithful(number, digits)
    ensures Dumps(j, number) != "" && !("]" <= Dumps(j, number) + rest)
  {
    var t := Dumps(j, number);
    if j.Num? {
      assert number(j.number) != "" && AllNumberChars(number(j.number));
      assert NumberChar(t[0]);
    }
    assert (t + rest)[0] == t[0];
  }

  lemma {:induction false} ValueReads(j: Json, rest: string, number: real -> string, digits: Digits)
    requires Faithful(number, digits) && Stops(rest)
    ensures ReadValue(Dumps(j, number) + rest, digits) == Some(Read(j, rest))
    decreases j, 0
  {
    match j
    case Num(x) => NumberReads(x, rest, number, digits);
    case Str(t) => QuoteReads(t, rest);
    case Arr(items) =>
      ArrayText(items, rest, number);
      if items != [] {
        ItemsRead(items, rest, number, digits);
        ItemsStart(items, rest, number, digits);
      }
    case Obj(fields) =>
      ObjectText(fields, rest, number);
      if fields != [] {
        FieldsRead(fields, rest, number, digits);
        FieldsStart(fields, rest, number);
      }
    case _ => WordReads(j, rest, number, digits);
  }

  lemma FourParts(a: string, b: string, c: string, d: string)
    ensures a + b + c + d == a + (b + (c + d))
  {
  }

  lemma EmptyParts(s: string)
    ensures "" + ("" + s) == s
  {
  }

  lemma ArrayText(items: seq<Json>, rest: string, number: real -> string)
    ensures var s := Dumps(Arr(items), number) + rest;
            s != "" && s[0] == '[' && s[1..] == DumpsItems(items, number) + ("]" + rest)
    ensures items == [] ==> (Dumps(Arr(items), number) + rest)[2..] == rest
  {
    Delimited("[", DumpsItems(items, number), "]", rest);
  }

  lemma ObjectText(fields: seq<Field>, rest: string, number: real -> string)
    ensures var s := Dumps(Obj(fields), number) + rest;
            s != "" && s[0] == '{' && s[1..] == DumpsFields(fields, number) + ("}" + rest)
    ensures fields == [] ==> (Dumps(Obj(fields), number) + rest)[2..] == rest
  {
    Delimited("{", DumpsFields(fields, number), "}", rest);
  }

  /** What follows the first of some items. */
  function ItemsTail(items: seq<Json>, rest: string, number: real -> string): string
    requires items != []
  {
    if |items| == 1 then "]" + rest else "," + (DumpsItems(items[1..], number) + ("]" + rest))
  }

  lemma ItemsText(items: seq<Json>, rest: string, number: real -> string)
    requires items != []
    ensures DumpsItems(items, number) + ("]" + rest) == Dumps(items[0], number) + ItemsTail(items, rest, number)
    ensures Stops(ItemsTail(items, rest, number))
  {
    var separator := if |items| == 1 then "" else ",";
    var more := DumpsItems(items[1..], number);
    assert DumpsItems(items, number) == Dumps(items[0], number) + separator + more;
    FourParts(Dumps(items[0], number), separator, more, "]" + rest);
    EmptyParts("]" + rest);
    ItemsTailForm(items, rest, number);
  }

  lemma ItemsTailForm(items: seq<Json>, rest: string, number: real -> string)
    requires items != []
    ensures var tail := ItemsTail(items, rest, number);
            if |items| == 1 then "]" <= tail && tail[1..] == rest
            else !("]" <= tail) && "," <= tail && tail[1..] == DumpsItems(items[1..], number) + ("]" + rest)
    ensures Stops(ItemsTail(items, rest, number))
  {
  }

  lemma ItemsStart(items: seq<Json>, rest: string, number: real -> string, digits: Digits)
    requires items != [] && Faithful(number, digits)
    ensures !("]" <= DumpsItems(items, number) + ("]" + rest))
  {
    ItemsText(items, rest, number);
    ValueStart(items[0], ItemsTail(items, rest, number), number, digits);
  }

  lemma {:induction false} ItemsRead(items: seq<Json>, rest: string, number: real -> string, digits: Digits)
    requires items != [] && Faithful(number, digits)
    ensures ReadItems(DumpsItems(items, number) + ("]" + rest), digits) == Some(Read(items, rest))
    decreases items, |items|
  {
    var tail := ItemsTail(items, rest, number);
    ItemsText(items, rest, number);
    ValueReads(items[0], tail, number, digits);
    ItemsTailForm(items, rest, number);
    assert [items[0]] + items[1..] == items;
    if |items| == 1 {
      assert items == [items[0]];
    } else {
      ItemsRead(items[1..], rest, number, digits);
    }
  }

  function FieldsTail(fields: seq<Field>, rest: string, number: real -> string): string
    requires fields != []
  {
    if |fields| == 1 then "}" + rest else "," + (DumpsFields(fields[1..], number) + ("}" + rest))
  }

  lemma FieldsText(fields: seq<Field>, rest: string, number: real -> string)
    requires fields != []
    ensures DumpsFields(fields, number) + ("}" + rest)
            == Quote(fields[0].key) + (":" + (Dumps(fields[0].value, number) + FieldsTail(fields, rest, number)))
    ensures Stops(FieldsTail(fields, rest, number))
  {
    var key, value := Quote(fields[0].key), Dumps(fields[0].value, number);
    var separator := if |fields| == 1 then "" else ",";
    var more := DumpsFields(fields[1..], number);
    assert DumpsFields(fields, number) == key + ":" + value + separator + more;
    FourParts(key + ":" + value, separator, more, "}" + rest);
    EmptyParts("}" + rest);
    FourParts(key, ":", value, FieldsTail(fields, rest, number));
    FieldsTailForm(fields, rest, number);
  }

  lemma FieldsTailForm(fields: seq<Field>, rest: string, number: real -> string)
    requires fields != []
    ensures var tail := FieldsTail(fields, rest, number);
            if |fields| == 1 then "}" <= tail && tail[1..] == rest
            else !("}" <= tail) && "," <= tail && tail[1..] == DumpsFields(fields[1..], number) + ("}" + rest)
    ensures Stops(FieldsTail(fields, rest, number))
  {
  }

  lemma FieldsStart(fields: seq<Field>, rest: string, number: real -> string)
    requires fields != []
    ensures !("}" <= DumpsFields(fields, number) + ("}" + rest))
  {
    FieldsText(fields, rest, number);
  }

  lemma FieldReads(f: Field, tail: string, number: real -> string, digits: Digits)
    requires ReadValue(Dumps(f.value, number) + tail, digits) == Some(Read(f.value, tail))
    ensures ReadField(Quote(f.key) + (":" + (Dumps(f.value, number) + tail)), digits) == Some(Read(f, tail))
  {
    var rest := ":" + (Dumps(f.value, number) + tail);
    QuoteReads(f.key, rest);
    assert ":" <= rest && rest[1..] == Dumps(f.value, number) + tail;
  }

  lemma {:induction false} FieldsRead(fields: seq<Field>, rest: string, number: real -> string, digits: Digits)
    requires fields != [] && Faithful(number, digits)
    ensures ReadFields(DumpsFields(fields, number) + ("}" + rest), digits) == Some(Read(fields, rest))
    decreases fields, |fields|
  {
    var tail := FieldsTail(fields, rest, number);
    FieldsText(fields, rest, number);
    ValueReads(fields[0].value, tail, number, digits);
    FieldReads(fields[0], tail, number, digits);
    FieldsTailForm(fields, rest, number);
    assert [fields[0]] + fields[1..] == fields;
    if |fields| == 1 {
      assert fields == [fields[0]];
    } else {
      FieldsRead(fields[1..], rest, number, digits);
    }
  }

  /** The text of any value reads back as the value, with nothing left. */
  lemma DumpsReadsBack(j: Json, number: real -> string, digits: Digits)
    requires Faithful(number, digits)
    ensures ReadValue(Dumps(j, number), digits) == Some(Read(j, ""))
  {
    ValueReads(j, "", number, digits);
    assert Dumps(j, number) + "" == Dumps(j, number);
  }
}
