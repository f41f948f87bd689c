/** The pinned character tokenizer: three special tokens, and otherwise one id per character. */
module Tokenizer {
  import opened Wrappers

  datatype Special = EndOfText | ImStart | ImEnd

  function Spelling(s: Special): (t: string)
    ensures 10 <= |t| <= 13
  {
    match s
    case EndOfText => "<|endoftext|>"
    case ImStart => "<|im_start|>"
    case ImEnd => "<|im_end|>"
  }

  function SpecialId(s: Special): nat {
    match s
    case EndOfText => 151643
    case ImStart => 151644
    case ImEnd => 151645
  }

  function CharId(c: char): nat { 100 + c as int }

  predicate StartsWith(text: string, index: nat, token: string)
    requires index <= |text|
  {
    index + |token| <= |text| && text[index..index + |token|] == token
  }

  /** The first special token, in table order, that starts at the index. */
  function Matched(text: string, index: nat): (r: Option<Special>)
    requires index <= |text|
    ensures r.Some? ==> StartsWith(text, index, Spelling(r.value))
  {
    if StartsWith(text, index, Spelling(EndOfText)) then Some(EndOfText)
    else if StartsWith(text, index, Spelling(ImStart)) then Some(ImStart)
    else if StartsWith(text, index, Spelling(ImEnd)) then Some(ImEnd)
    else None
  }

  datatype Offset = Offset(start: nat, end: nat)

  datatype Token = Token(id: nat, span: Offset)

  function TokenAt(text: string, index: nat): (t: Token)
    requires index < |text|
    ensures t.span.start == index < t.span.end <= |text|
  {
    match Matched(text, index)
    case Some(s) => Token(SpecialId(s), Offset(index, index + |Spelling(s)|))
    case None => Token(CharId(text[index]), Offset(index, index + 1))
  }

  /** What is appended for the rest of the text. */
  function Tokens(text: string, index: nat): seq<Token>
    requires index <= |text|
    decreases |text| - index
  {
    if index == |text| then [] else [TokenAt(text, index)] + Tokens(text, TokenAt(text, index).span.end)
  }

  function Ids(ts: seq<Token>): seq<nat> {
    seq(|ts|, i requires 0 <= i < |ts| => ts[i].id)
  }

  function Offsets(ts: seq<Token>): seq<Offset> {
    seq(|ts|, i requires 0 <= i < |ts| => ts[i].span)
  }

  method NextToken(text: string, index: nat) returns (id: nat, end: nat)
    requires index < |text|
    ensures Token(id, Offset(index, end)) == TokenAt(text, index)
  {
    var matched := Matched(text, index);
    if matched.Some? {
      return SpecialId(matched.value), index + |Spelling(matched.value)|;
    }
    return CharId(text[index]), index + 1;
  }

  lemma Extend(done: seq<Token>, t: Token, rest: seq<Token>)
    ensures Ids(done + [t]) == Ids(done) + [t.id]
    ensures Offsets(done + [t]) == Offsets(done) + [t.span]
    ensures done + ([t] + rest) == (done + [t]) + rest
  {
  }

  method Encode(text: string) returns (ids: seq<nat>, offsets: seq<Offset>)
    ensures ids == Ids(Tokens(text, 0)) && offsets == Offsets(Tokens(text, 0))
  {
    ids, offsets := [], [];
    var index := 0;
    ghost var done, rest: seq<Token> := [], Tokens(text, 0);
    while index < |text|
      invariant index <= |text|
      invariant rest == Tokens(text, index) && done + rest == Tokens(text, 0)
      invariant ids == Ids(done) && offsets == Offsets(done)
      decreases |text| - index
    {
      var id, end := NextToken(text, index);
      ghost var t := Token(id, Offset(index, end));
      Extend(done, t, Tokens(text, end));
      ids := ids + [id];
      offsets := offsets + [Offset(index, end)];
      done, rest := done + [t], Tokens(text, end);
      index := end;
    }
    assert done == Tokens(text, 0);
  }

  // ----- decoding -----

  /** The text an id stands for. */
  function Decode(id: nat): Option<string> {
    if id == 151643 then Some(Spelling(EndOfText))
    else if id == 151644 then Some(Spelling(ImStart))
    else if id == 151645 then Some(Spelling(ImEnd))
    else if 100 <= id < 100 + 0xD800 || 100 + 0xE000 <= id < 100 + 0x110000 then Some([(id - 100) as char])
    else None
  }

  function DecodeAll(ids: seq<nat>): Option<string> {
    if ids == [] then Some("")
    else
      match (Decode(ids[0]), DecodeAll(ids[1..]))
      case (Some(head), Some(tail)) => Some(head + tail)
      case _ => None
  }

  /** The three characters whose id is a special id: U+24FF7 to U+24FF9. */
  predicate Ambiguous(c: char) {
    0x24FF7 <= c as int <= 0x24FF9
  }

  predicate Clear(text: string) {
    forall i | 0 <= i < |text| :: !Ambiguous(text[i])
  }

  lemma CharDecodes(c: char)
    ensures Decode(CharId(c)).Some?
    ensures !Ambiguous(c) ==> Decode(CharId(c)) == Some([c])
    ensures Ambiguous(c) ==> |Decode(CharId(c)).value| > 1
  {
  }

  lemma SpecialDecodes(s: Special)
    ensures Decode(SpecialId(s)) == Some(Spelling(s))
  {
  }

  // ----- the offsets -----

  /** The offsets tile the rest of the text in order, without a gap. */
  lemma {:induction false} OffsetsTile(text: string, index: nat)
    requires index <= |text|
    ensures var os := Offsets(Tokens(text, index));
            && (os == [] <==> index == |text|)
            && (os != [] ==> os[0].start == index && os[|os| - 1].end == |text|)
            && (forall i | 0 <= i < |os| :: os[i].start < os[i].end <= |text|)
            && (forall i | 0 < i < |os| :: os[i].start == os[i - 1].end)
    decreases |text| - index
  {
    if index < |text| {
      var t := TokenAt(text, index);
      var rest := Tokens(text, t.span.end);
      OffsetsTile(text, t.span.end);
      assert Offsets(Tokens(text, index)) == [t.span] + Offsets(rest);
    }
  }

  /** No special token is a prefix of another, so table order decides nothing. */
  lemma AtMostOneMatches(text: string, index: nat, s: Special, t: Special)
    requires index <= |text| && StartsWith(text, index, Spelling(s)) && StartsWith(text, index, Spelling(t))
    ensures s == t
  {
    assert text[index..index + |Spelling(s)|][2] == Spelling(s)[2] == text[index + 2];
    assert text[index..index + |Spelling(t)|][2] == Spelling(t)[2] == text[index + 2];
    assert text[index..index + |Spelling(s)|][5] == Spelling(s)[5] == text[index + 5];
    assert text[index..index + |Spelling(t)|][5] == Spelling(t)[5] == text[index + 5];
  }

  // ----- the round trip -----

  lemma SpellingIsClear(s: Special)
    ensures Clear(Spelling(s))
  {
    var t := Spelling(s);
    forall i | 0 <= i < |t| ensures !Ambiguous(t[i]) {
      assert t[i] in {'<', '|', 'e', 'n', 'd', 'o', 'f', 't', 'x', 'i', 'm', '_', 's', 'a', 'r', '>'};
    }
  }

  lemma TokenDecodes(text: string, index: nat)
    requires index < |text|
    ensures var t := TokenAt(text, index);
            var source := text[index..t.span.end];
            && Decode(t.id).Some?
            && (Clear(source) ==> Decode(t.id).value == source)
            && (!Clear(source) ==> |Decode(t.id).value| > |source|)
  {
    match Matched(text, index)
    case Some(s) =>
      SpecialDecodes(s);
      SpellingIsClear(s);
    case None =>
      CharDecodes(text[index]);
      assert text[index..index + 1] == [text[index]];
  }

  lemma DecodeCons(id: nat, ids: seq<nat>)
    requires Decode(id).Some? && DecodeAll(ids).Some?
    ensures DecodeAll([id] + ids) == Some(Decode(id).value + DecodeAll(ids).value)
  {
    assert ([id] + ids)[1..] == ids;
  }

  lemma ClearOfBoth(a: string, b: string)
    ensures Clear(a + b) <==> Clear(a) && Clear(b)
  {
    assert forall i | 0 <= i < |a| :: (a + b)[i] == a[i];
    assert forall i | 0 <= i < |b| :: (a + b)[|a| + i] == b[i];
  }

  /** What decoding makes of the ids of a text: the text, or something longer. */
  ghost predicate DecodesTo(decoded: Option<string>, text: string) {
    && decoded.Some?
    && (Clear(text) ==> decoded.value == text)
    && (!Clear(text) ==> |decoded.value| > |text|)
  }

  lemma DecodesInParts(head: string, tail: string, a: string, b: string)
    requires DecodesTo(Some(head), a) && DecodesTo(Some(tail), b)
    ensures DecodesTo(Some(head + tail), a + b)
  {
    ClearOfBoth(a, b);
  }

  lemma IdsOfTokens(text: string, index: nat)
    requires index < |text|
    ensures Ids(Tokens(text, index)) ==
            [TokenAt(text, index).id] + Ids(Tokens(text, TokenAt(text, index).span.end))
  {
  }

  lemma SplitText(text: string, index: nat, end: nat)
    requires index <= end <= |text|
    ensures text[index..] == text[index..end] + text[end..]
  {
  }

  lemma {:induction false} RoundTripFrom(text: string, index: nat)
    requires index <= |text|
    ensures DecodesTo(DecodeAll(Ids(Tokens(text, index))), text[index..])
    decreases |text| - index
  {
    if index < |text| {
      var t := TokenAt(text, index);
      var end, ids := t.span.end, Ids(Tokens(text, t.span.end));
      RoundTripFrom(text, end);
      TokenDecodes(text, index);
      DecodeCons(t.id, ids);
      IdsOfTokens(text, index);
      SplitText(text, index, end);
      DecodesInParts(Decode(t.id).value, DecodeAll(ids).value, text[index..end], text[end..]);
    }
  }

  /** Decoding gives the text back exactly when it has none of the three ambiguous characters. */
  lemma RoundTrip(text: string)
    ensures DecodeAll(Ids(Tokens(text, 0))) == Some(text) <==> Clear(text)
  {
    RoundTripFrom(text, 0);
    assert text[0..] == text;
  }
}
