/** JSON values as the Python code sees them, and the compact text json.dumps writes for them. */
module Json {
  import opened Wrappers

  datatype Json =
    | Null
    | Bool(value: bool)
    | Num(number: real)
    | Str(text: string)
    | Arr(items: seq<Json>)
    | Obj(fields: seq<Field>)

  /** A dict keeps its keys in insertion order. */
  datatype Field = Field(key: string, value: Json)

  /** dict.get: the value under a key, if there is one. */
  function Get(fields: seq<Field>, key: string): (r: Option<Json>)
    ensures r.Some? <==> exists i :: 0 <= i < |fields| && fields[i].key == key
    ensures r.Some? ==> exists i :: 0 <= i < |fields| && fields[i] == Field(key, r.value)
  {
    if fields == [] then None
    else if fields[0].key == key then
      assert fields[0] == Field(key, fields[0].value);
      Some(fields[0].value)
    else
      var r := Get(fields[1..], key);
      assert forall i | 1 <= i < |fields| :: fields[i] == fields[1..][i - 1];
      r
  }

  /** No key twice: what makes a list of fields a dict. */
  predicate DistinctKeys(fields: seq<Field>) {
    forall i, j | 0 <= i < j < |fields| :: fields[i].key != fields[j].key
  }

  /** In a dict, every field is the one its key finds. */
  lemma {:induction false} GetOwn(fields: seq<Field>, i: nat)
    requires DistinctKeys(fields) && i < |fields|
    ensures Get(fields, fields[i].key) == Some(fields[i].value)
  {
    if i > 0 {
      assert fields[0].key != fields[i].key;
      assert fields[1..][i - 1] == fields[i];
      GetOwn(fields[1..], i - 1);
    }
  }

  // ----- json.dumps(value, ensure_ascii=False, separators=(",", ":")) -----

  function HexDigit(n: nat): char
    requires n < 16
  {
    "0123456789abcdef"[n]
  }

  /** Control characters, the quotation mark and the backslash are escaped; nothing else is. */
  function EscapeChar(c: char): string {
    if c == '"' then "\\\""
    else if c == '\\' then "\\\\"
    else if c == '\n' then "\\n"
    else if c == '\r' then "\\r"
    else if c == '\t' then "\\t"
    else if c as int == 8 then "\\b"
    else if c as int == 12 then "\\f"
    else if c as int < 32 then "\\u00" + [HexDigit(c as int / 16), HexDigit(c as int % 16)]
    else [c]
  }

  function Escape(s: string): string {
    if s == [] then [] else EscapeChar(s[0]) + Escape(s[1..])
  }

  function Quote(s: string): string {
    "\"" + Escape(s) + "\""
  }

  /** How a number prints is left to the caller of these functions. */
  function Dumps(j: Json, number: real -> string): string
    decreases j, 0
  {
    match j
    case Null => "null"
    case Bool(b) => if b then "true" else "false"
    case Num(x) => number(x)
    case Str(s) => Quote(s)
    case Arr(items) => "[" + DumpsItems(items, number) + "]"
    case Obj(fields) => "{" + DumpsFields(fields, number) + "}"
  }

  function DumpsItems(items: seq<Json>, number: real -> string): string
    decreases items, |items|
  {
    if items == [] then ""
    else Dumps(items[0], number) + (if |items| == 1 then "" else ",") + DumpsItems(items[1..], number)
  }

  function DumpsFields(fields: seq<Field>, number: real -> string): string
    decreases fields, |fields|
  {
    if fields == [] then ""
    else
      Quote(fields[0].key) + ":" + Dumps(fields[0].value, number)
      + (if |fields| == 1 then "" else ",") + DumpsFields(fields[1..], number)
  }

  predicate Printable(s: string) {
    forall c | c in s :: c as int >= 32
  }

  lemma CharIsPrintable(c: char)
    ensures Printable(EscapeChar(c))
  {
  }

  lemma {:induction false} EscapeIsPrintable(s: string)
    ensures Printable(Escape(s))
  {
    if s != [] {
      CharIsPrintable(s[0]);
      EscapeIsPrintable(s[1..]);
    }
  }

  /** The text of any value is one line: strings escape their own line breaks. */
  lemma {:induction false} DumpsIsPrintable(j: Json, number: real -> string)
    requires forall x: real :: Printable(number(x))
    ensures Printable(Dumps(j, number))
    decreases j, 0
  {
    match j
    case Str(s) => EscapeIsPrintable(s);
    case Arr(items) => ItemsArePrintable(items, number);
    case Obj(fields) => FieldsArePrintable(fields, number);
    case _ =>
  }

  lemma {:induction false} ItemsArePrintable(items: seq<Json>, number: real -> string)
    requires forall x: real :: Printable(number(x))
    ensures Printable(DumpsItems(items, number))
    decreases items, |items|
  {
    if items != [] {
      DumpsIsPrintable(items[0], number);
      ItemsArePrintable(items[1..], number);
    }
  }

  lemma {:induction false} FieldsArePrintable(fields: seq<Field>, number: real -> string)
    requires forall x: real :: Printable(number(x))
    ensures Printable(DumpsFields(fields, number))
    decreases fields, |fields|
  {
    if fields != [] {
      EscapeIsPrintable(fields[0].key);
      DumpsIsPrintable(fields[0].value, number);
      FieldsArePrintable(fields[1..], number);
    }
  }
}
