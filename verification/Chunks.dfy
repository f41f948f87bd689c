/** The overlapping line windows under which evidence is indexed. */
module Chunks {
  import opened Wrappers

  /** Lines start (from 0) up to, not including, end. */
  datatype Window = Window(start: nat, end: nat)

  datatype Chunk = Chunk(startLine: nat, endLine: nat, excerpt: string)

  datatype Shape = Shape(lines: nat, size: nat, overlap: nat)

  /** When the loop ends: the windows advance, or the first one is the last. */
  predicate Ends(s: Shape) {
    s.overlap < s.size || s.lines <= s.size
  }

  predicate Within(ws: seq<Window>, n: nat) {
    forall i | 0 <= i < |ws| :: ws[i].start < ws[i].end <= n
  }

  function WindowsFrom(s: Shape, start: nat): (ws: seq<Window>)
    requires Ends(s)
    ensures Within(ws, s.lines)
    decreases s.lines - start
  {
    if start >= s.lines then []
    else
      var end := Min(s.lines, start + s.size);
      if end == s.lines then [Window(start, end)]
      else [Window(start, end)] + WindowsFrom(s, end - s.overlap)
  }

  /** The start of round k of the loop, which may fall below 0 when the windows do not advance. */
  function LoopStart(s: Shape, k: nat): int {
    if k == 0 then 0 else Min(s.lines, LoopStart(s, k - 1) + s.size) - s.overlap
  }

  /** Otherwise no round is the last: the loop condition holds and no window reaches the end. */
  lemma {:induction false} NeverEnds(s: Shape, k: nat)
    requires !Ends(s)
    ensures LoopStart(s, k) < s.lines && Min(s.lines, LoopStart(s, k) + s.size) != s.lines
    ensures LoopStart(s, k) <= 0
  {
    if k > 0 {
      NeverEnds(s, k - 1);
    }
  }

  // ----- excerpts -----

  /** Which characters str.strip removes; a line feed is one of them. */
  type Spaces = space: char -> bool | space('\n') witness c => true

  function Join(lines: seq<string>): string {
    if lines == [] then "" else if |lines| == 1 then lines[0] else lines[0] + "\n" + Join(lines[1..])
  }

  function StripLeft(s: string, space: Spaces): string {
    if s != [] && space(s[0]) then StripLeft(s[1..], space) else s
  }

  function StripRight(s: string, space: Spaces): string {
    if s != [] && space(s[|s| - 1]) then StripRight(s[..|s| - 1], space) else s
  }

  function Strip(s: string, space: Spaces): string {
    StripRight(StripLeft(s, space), space)
  }

  predicate Blank(s: string, space: Spaces) {
    forall i | 0 <= i < |s| :: space(s[i])
  }

  /** The text of a window, from its lines. */
  type Excerpt = seq<string> -> string

  function JoinedAndStripped(space: Spaces): Excerpt {
    lines => Strip(Join(lines), space)
  }

  /** A blank window yields nothing. */
  function ChunksOf(lines: seq<string>, w: Window, text: Excerpt): seq<Chunk>
    requires w.start <= w.end <= |lines|
  {
    var excerpt := text(lines[w.start..w.end]);
    if excerpt == "" then [] else [Chunk(w.start + 1, w.end, excerpt)]
  }

  /** The chunks of the windows that are not blank, in order. */
  function Kept(lines: seq<string>, ws: seq<Window>, text: Excerpt): seq<Chunk>
    requires Within(ws, |lines|)
  {
    if ws == [] then [] else ChunksOf(lines, ws[0], text) + Kept(lines, ws[1..], text)
  }

  lemma {:induction false} KeptAppends(lines: seq<string>, seen: seq<Window>, w: Window, text: Excerpt)
    requires Within(seen, |lines|) && w.start < w.end <= |lines|
    ensures Within(seen + [w], |lines|)
    ensures Kept(lines, seen + [w], text) == Kept(lines, seen, text) + ChunksOf(lines, w, text)
  {
    if seen == [] {
      assert [w][1..] == [];
      assert [] + [w] == [w];
      assert Kept(lines, [w], text) == ChunksOf(lines, w, text) + [];
    } else {
      KeptAppends(lines, seen[1..], w, text);
      assert (seen + [w])[1..] == seen[1..] + [w];
      Regroup(ChunksOf(lines, seen[0], text), Kept(lines, seen[1..], text), ChunksOf(lines, w, text));
    }
  }

  lemma Regroup<T>(done: seq<T>, now: seq<T>, rest: seq<T>)
    ensures done + (now + rest) == (done + now) + rest
  {
  }

  lemma NextWindow(s: Shape, start: nat, seen: seq<Window>)
    requires Ends(s) && start < s.lines
    ensures var end := Min(s.lines, start + s.size);
            seen + WindowsFrom(s, start) ==
            if end == s.lines then seen + [Window(start, end)]
            else (seen + [Window(start, end)]) + WindowsFrom(s, end - s.overlap)
  {
    var end := Min(s.lines, start + s.size);
    if end < s.lines {
      Regroup(seen, [Window(start, end)], WindowsFrom(s, end - s.overlap));
    }
  }

  /** The chunks of a text of these lines. */
  function ChunksOfText(lines: seq<string>, s: Shape, text: Excerpt): seq<Chunk>
    requires Ends(s) && s.lines == |lines|
  {
    Kept(lines, WindowsFrom(s, 0), text)
  }

  /** What is yielded before the window at a start: the chunks of the windows seen, the rest to come. */
  ghost predicate SoFar(
    lines: seq<string>, s: Shape, start: nat, text: Excerpt, seen: seq<Window>, chunks: seq<Chunk>)
    requires Ends(s)
  {
    && Within(seen, |lines|) && chunks == Kept(lines, seen, text)
    && seen + WindowsFrom(s, start) == WindowsFrom(s, 0)
  }

  lemma NothingYet(lines: seq<string>, s: Shape, text: Excerpt)
    requires Ends(s)
    ensures SoFar(lines, s, 0, text, [], [])
  {
    assert [] + WindowsFrom(s, 0) == WindowsFrom(s, 0);
  }

  lemma NothingLeft(lines: seq<string>, s: Shape, start: nat, text: Excerpt, seen: seq<Window>, chunks: seq<Chunk>)
    requires Ends(s) && s.lines == |lines| && start >= s.lines && SoFar(lines, s, start, text, seen, chunks)
    ensures chunks == ChunksOfText(lines, s, text)
  {
    assert seen + [] == seen;
  }

  /** The loop of the generator, run to its end. */
  method Generate(lines: seq<string>, linesPerChunk: nat, overlap: nat, text: Excerpt) returns (chunks: seq<Chunk>)
    requires Ends(Shape(|lines|, linesPerChunk, overlap))
    ensures chunks == ChunksOfText(lines, Shape(|lines|, linesPerChunk, overlap), text)
  {
    ghost var s := Shape(|lines|, linesPerChunk, overlap);
    ghost var seen: seq<Window> := [];
    chunks := [];
    var start := 0;
    NothingYet(lines, s, text);
    while start < |lines|
      invariant SoFar(lines, s, start, text, seen, chunks)
      decreases |lines| - start
    {
      var end := Min(|lines|, start + linesPerChunk);
      chunks, seen := Yield(lines, s, start, end, text, chunks, seen);
      if end == |lines| {
        return;
      }
      start := end - overlap;
    }
    NothingLeft(lines, s, start, text, seen, chunks);
  }

  lemma WindowSeen(lines: seq<string>, s: Shape, start: nat, end: nat, text: Excerpt,
                   seen: seq<Window>, done: seq<Chunk>)
    requires Ends(s) && s.lines == |lines| && start < |lines| && end == Min(|lines|, start + s.size)
    requires SoFar(lines, s, start, text, seen, done)
    ensures var chunks := done + ChunksOf(lines, Window(start, end), text);
            && (end == |lines| ==> chunks == ChunksOfText(lines, s, text))
            && (end < |lines| ==> SoFar(lines, s, end - s.overlap, text, seen + [Window(start, end)], chunks))
  {
    KeptAppends(lines, seen, Window(start, end), text);
    NextWindow(s, start, seen);
  }

  /** Yield the excerpt of one window unless it is blank. */
  method Yield(lines: seq<string>, ghost s: Shape, start: nat, end: nat, text: Excerpt,
               done: seq<Chunk>, ghost seen: seq<Window>)
    returns (chunks: seq<Chunk>, ghost now: seq<Window>)
    requires Ends(s) && s.lines == |lines| && start < |lines| && end == Min(|lines|, start + s.size)
    requires SoFar(lines, s, start, text, seen, done)
    ensures end == |lines| ==> chunks == ChunksOfText(lines, s, text)
    ensures end < |lines| ==> SoFar(lines, s, end - s.overlap, text, now, chunks)
  {
    now := seen + [Window(start, end)];
    WindowSeen(lines, s, start, end, text, seen, done);
    var excerpt := text(lines[start..end]);
    chunks := if excerpt == "" then done else done + [Chunk(start + 1, end, excerpt)];
    assert excerpt == "" ==> done + [] == done;
  }

  method Chunks(lines: seq<string>, linesPerChunk: nat, overlap: nat, space: Spaces) returns (chunks: seq<Chunk>)
    requires Ends(Shape(|lines|, linesPerChunk, overlap))
    ensures chunks == ChunksOfText(lines, Shape(|lines|, linesPerChunk, overlap), JoinedAndStripped(space))
  {
    chunks := Generate(lines, linesPerChunk, overlap, JoinedAndStripped(space));
  }

  // ----- what the windows cover -----

  predicate Inside(w: Window, from: nat, length: nat) {
    w.start <= from && from + length <= w.end
  }

  /** Any passage of at most overlap + 1 lines lies wholly inside one window. */
  lemma {:induction false} PassageInsideOneWindow(s: Shape, start: nat, from: nat, length: nat) returns (w: Window)
    requires Ends(s) && 0 < length <= s.overlap + 1
    requires start <= from && from + length <= s.lines
    ensures w in WindowsFrom(s, start) && Inside(w, from, length) && w.end <= s.lines
    decreases s.lines - start
  {
    var end := Min(s.lines, start + s.size);
    if from + length <= end {
      w := Window(start, end);
    } else {
      w := PassageInsideOneWindow(s, end - s.overlap, from, length);
    }
  }

  /** Consecutive windows share exactly overlap lines, and only the last one reaches the end. */
  lemma {:induction false} ConsecutiveWindows(s: Shape, start: nat, i: nat)
    requires Ends(s) && i < |WindowsFrom(s, start)|
    ensures i + 1 < |WindowsFrom(s, start)| ==>
              WindowsFrom(s, start)[i].end - WindowsFrom(s, start)[i + 1].start == s.overlap
    ensures WindowsFrom(s, start)[i].end == s.lines <==> i + 1 == |WindowsFrom(s, start)|
    decreases i
  {
    if i > 0 {
      ConsecutiveWindows(s, start + s.size - s.overlap, i - 1);
    }
  }

  /** Where window number i is. */
  lemma {:induction false} WindowAt(s: Shape, start: nat, i: nat)
    requires Ends(s) && i < |WindowsFrom(s, start)|
    ensures WindowsFrom(s, start)[i].start == start + i * (s.size - s.overlap)
    ensures WindowsFrom(s, start)[i].end == Min(s.lines, WindowsFrom(s, start)[i].start + s.size)
    decreases i
  {
    var step := s.size - s.overlap;
    if i > 0 {
      WindowAt(s, start + step, i - 1);
      assert (i - 1) * step + step == i * step;
    }
  }

  /** The default shape has one window for every 35 lines after the first 5, and at least one. */
  lemma {:induction false} DefaultCount(lines: nat)
    requires lines > 0
    ensures |WindowsFrom(Shape(lines, 40, 5), 0)| == if lines <= 5 then 1 else (lines - 5 + 34) / 35
  {
    DefaultCountFrom(lines, 0);
  }

  lemma {:induction false} DefaultCountFrom(lines: nat, start: nat)
    requires start < lines
    ensures |WindowsFrom(Shape(lines, 40, 5), start)| == if lines - start <= 5 then 1 else (lines - start + 29) / 35
    decreases lines - start
  {
    if start + 40 < lines {
      DefaultCountFrom(lines, start + 35);
    }
  }

  // ----- what the chunks cover -----

  predicate OccursAt(part: string, whole: string, at: nat) {
    at + |part| <= |whole| && whole[at..at + |part|] == part
  }

  predicate Occurs(part: string, whole: string) {
    exists at: nat :: at <= |whole| && OccursAt(part, whole, at)
  }

  lemma SliceOfSlice(s: string, a: nat, b: nat, c: nat, d: nat)
    requires a <= b <= |s| && c <= d <= b - a
    ensures s[a..b][c..d] == s[a + c..a + d]
  {
    forall i | 0 <= i < d - c ensures s[a..b][c..d][i] == s[a + c..a + d][i] {
      assert s[a..b][c + i] == s[a + c + i];
    }
  }

  /** Text that stripping does not shorten. */
  predicate Tight(s: string, space: Spaces) {
    s != "" && !space(s[0]) && !space(s[|s| - 1])
  }

  lemma {:induction false} JoinKeepsLine(lines: seq<string>, i: nat) returns (at: nat)
    requires i < |lines|
    ensures OccursAt(lines[i], Join(lines), at)
  {
    var whole := Join(lines);
    if i == 0 {
      at := 0;
    } else {
      var rest := JoinKeepsLine(lines[1..], i - 1);
      at := |lines[0]| + 1 + rest;
      assert whole[|lines[0]| + 1..] == Join(lines[1..]);
      assert whole[at..at + |lines[i]|] == Join(lines[1..])[rest..rest + |lines[i]|];
    }
  }

  lemma {:induction false} StripLeftIsSuffix(s: string, space: Spaces) returns (from: nat)
    ensures from <= |s| && StripLeft(s, space) == s[from..]
    ensures forall i | 0 <= i < from :: space(s[i])
    ensures from < |s| ==> !space(s[from])
  {
    if s != [] && space(s[0]) {
      var rest := StripLeftIsSuffix(s[1..], space);
      from := rest + 1;
      assert s[1..][rest..] == s[from..];
      assert forall i | 1 <= i < from :: s[i] == s[1..][i - 1];
    } else {
      from := 0;
    }
  }

  lemma {:induction false} StripRightIsPrefix(s: string, space: Spaces) returns (to: nat)
    ensures to <= |s| && StripRight(s, space) == s[..to]
    ensures forall i | to <= i < |s| :: space(s[i])
    ensures to > 0 ==> !space(s[to - 1])
  {
    if s != [] && space(s[|s| - 1]) {
      to := StripRightIsPrefix(s[..|s| - 1], space);
      assert s[..|s| - 1][..to] == s[..to];
    } else {
      to := |s|;
    }
  }

  /** What stripping keeps of a text: from its first to its last character that is not removed. */
  lemma StripIsSlice(s: string, space: Spaces) returns (from: nat, to: nat)
    ensures from <= to <= |s| && Strip(s, space) == s[from..to]
    ensures forall i | 0 <= i < from || to <= i < |s| :: space(s[i])
    ensures from < to ==> !space(s[from]) && !space(s[to - 1])
  {
    from := StripLeftIsSuffix(s, space);
    var left := s[from..];
    var length := StripRightIsPrefix(left, space);
    to := from + length;
    assert left[..length] == s[from..to];
    forall i | to <= i < |s| ensures space(s[i]) {
      assert s[i] == left[i - from];
    }
    if from < to {
      assert s[to - 1] == left[length - 1];
    }
  }

  lemma StripIsTight(s: string, space: Spaces) returns (at: nat)
    requires !Blank(s, space)
    ensures Tight(Strip(s, space), space) && OccursAt(Strip(s, space), s, at)
  {
    var to;
    at, to := StripIsSlice(s, space);
    assert at < to;
  }

  /** Stripping a text removes nothing of a tight part of it. */
  lemma StripKeepsTight(part: string, s: string, at: nat, space: Spaces)
    requires Tight(part, space) && OccursAt(part, s, at)
    ensures Occurs(part, Strip(s, space))
  {
    var from, to := StripIsSlice(s, space);
    var last := at + |part| - 1;
    assert s[at] == s[at..at + |part|][0] == part[0];
    assert s[last] == s[at..at + |part|][|part| - 1] == part[|part| - 1];
    assert from <= at && last < to;
    SliceOfSlice(s, from, to, at - from, at - from + |part|);
    assert OccursAt(part, Strip(s, space), at - from);
  }

  lemma OccursWithin(part: string, line: string, whole: string, at: nat, inner: nat)
    requires OccursAt(part, line, inner) && OccursAt(line, whole, at)
    ensures OccursAt(part, whole, at + inner)
  {
    SliceOfSlice(whole, at, at + |line|, inner, inner + |part|);
  }

  /** The excerpt of some lines holds each of them that is not blank, stripped. */
  lemma ExcerptHoldsLine(lines: seq<string>, i: nat, space: Spaces)
    requires i < |lines| && !Blank(lines[i], space)
    ensures Strip(lines[i], space) != "" && Occurs(Strip(lines[i], space), Strip(Join(lines), space))
  {
    var part := Strip(lines[i], space);
    var inner := StripIsTight(lines[i], space);
    var at := JoinKeepsLine(lines, i);
    OccursWithin(part, lines[i], Join(lines), at, inner);
    StripKeepsTight(part, Join(lines), at + inner, space);
  }

  lemma {:induction false} WindowIsKept(lines: seq<string>, ws: seq<Window>, w: Window, text: Excerpt, c: Chunk)
    requires Within(ws, |lines|) && w in ws && w.start <= w.end <= |lines|
    requires ChunksOf(lines, w, text) == [c]
    ensures c in Kept(lines, ws, text)
  {
    if ws[0] != w {
      WindowIsKept(lines, ws[1..], w, text, c);
    } else {
      assert c in ChunksOf(lines, ws[0], text);
    }
  }

  /** A chunk is right when its excerpt is the stripped text of precisely its lines, at most a window of them. */
  predicate ExactChunk(lines: seq<string>, size: nat, space: Spaces, c: Chunk) {
    && 1 <= c.startLine <= c.endLine <= |lines| && c.endLine - c.startLine < size
    && c.excerpt != "" && c.excerpt == Strip(Join(lines[c.startLine - 1..c.endLine]), space)
  }

  lemma {:induction false} WindowSpan(s: Shape, start: nat, w: Window)
    requires Ends(s) && w in WindowsFrom(s, start)
    ensures w.end == Min(s.lines, w.start + s.size)
    decreases s.lines - start
  {
    var end := Min(s.lines, start + s.size);
    if w != Window(start, end) {
      WindowSpan(s, end - s.overlap, w);
    }
  }

  lemma {:induction false} KeptIsOfWindow(lines: seq<string>, ws: seq<Window>, text: Excerpt, c: Chunk)
    returns (w: Window)
    requires Within(ws, |lines|) && c in Kept(lines, ws, text)
    ensures w in ws && w.start < w.end <= |lines| && ChunksOf(lines, w, text) == [c]
  {
    if c in ChunksOf(lines, ws[0], text) {
      w := ws[0];
    } else {
      w := KeptIsOfWindow(lines, ws[1..], text, c);
    }
  }

  predicate Rising(ws: seq<Window>) {
    forall i, j | 0 <= i < j < |ws| :: ws[i].start < ws[j].start
  }

  predicate StartAfter(ws: seq<Window>, start: int) {
    forall i | 0 <= i < |ws| :: start < ws[i].start
  }

  lemma RisingCons(w: Window, rest: seq<Window>)
    requires Rising(rest) && StartAfter(rest, w.start)
    ensures Rising([w] + rest) && StartAfter([w] + rest, w.start - 1)
  {
  }

  lemma {:induction false} WindowsRise(s: Shape, start: nat)
    requires Ends(s)
    ensures Rising(WindowsFrom(s, start)) && StartAfter(WindowsFrom(s, start), start - 1)
    decreases s.lines - start
  {
    var end := Min(s.lines, start + s.size);
    if start < s.lines && end < s.lines {
      var next := end - s.overlap;
      WindowsRise(s, next);
      RisingCons(Window(start, end), WindowsFrom(s, next));
      assert WindowsFrom(s, start) == [Window(start, end)] + WindowsFrom(s, next);
    } else if start < s.lines {
      assert WindowsFrom(s, start) == [Window(start, end)];
    }
  }

  predicate InOrder(chunks: seq<Chunk>) {
    forall i, j | 0 <= i < j < |chunks| :: chunks[i].startLine < chunks[j].startLine
  }

  lemma OrderCons(now: seq<Chunk>, later: seq<Chunk>)
    requires |now| <= 1 && InOrder(later)
    requires forall i, j | 0 <= i < |now| && 0 <= j < |later| :: now[i].startLine < later[j].startLine
    ensures InOrder(now + later)
  {
  }

  lemma {:induction false} KeptInOrder(lines: seq<string>, ws: seq<Window>, text: Excerpt)
    requires Within(ws, |lines|) && Rising(ws)
    ensures InOrder(Kept(lines, ws, text))
    decreases |ws|
  {
    if ws != [] {
      var now, later := ChunksOf(lines, ws[0], text), Kept(lines, ws[1..], text);
      KeptInOrder(lines, ws[1..], text);
      forall i, j | 0 <= i < |now| && 0 <= j < |later| ensures now[i].startLine < later[j].startLine {
        var w := KeptIsOfWindow(lines, ws[1..], text, later[j]);
        var k :| 0 <= k < |ws[1..]| && ws[1..][k] == w;
        assert ws[k + 1] == w;
      }
      OrderCons(now, later);
    }
  }

  /** The chunks come in the order of the text, no two of them from one line on. */
  lemma ChunksAreInOrder(lines: seq<string>, s: Shape, text: Excerpt)
    requires Ends(s) && s.lines == |lines|
    ensures InOrder(ChunksOfText(lines, s, text))
  {
    WindowsRise(s, 0);
    KeptInOrder(lines, WindowsFrom(s, 0), text);
  }

  /** Every chunk is right. */
  lemma EveryChunkIsExact(lines: seq<string>, s: Shape, space: Spaces, c: Chunk)
    requires Ends(s) && s.lines == |lines| && c in ChunksOfText(lines, s, JoinedAndStripped(space))
    ensures ExactChunk(lines, s.size, space, c)
  {
    var w := KeptIsOfWindow(lines, WindowsFrom(s, 0), JoinedAndStripped(space), c);
    WindowSpan(s, 0, w);
  }

  /** Every line that is not blank is in a chunk: by its number, and with its stripped text. */
  lemma EveryLineIsIndexed(lines: seq<string>, s: Shape, i: nat, space: Spaces) returns (c: Chunk)
    requires Ends(s) && s.lines == |lines| && i < |lines| && !Blank(lines[i], space)
    ensures c in ChunksOfText(lines, s, JoinedAndStripped(space))
    ensures c.startLine <= i + 1 <= c.endLine && ExactChunk(lines, s.size, space, c)
    ensures Strip(lines[i], space) != "" && Occurs(Strip(lines[i], space), c.excerpt)
  {
    var w := PassageInsideOneWindow(s, 0, i, 1);
    var span := lines[w.start..w.end];
    assert span[i - w.start] == lines[i];
    ExcerptHoldsLine(span, i - w.start, space);
    c := Chunk(w.start + 1, w.end, Strip(Join(span), space));
    WindowIsKept(lines, WindowsFrom(s, 0), w, JoinedAndStripped(space), c);
    EveryChunkIsExact(lines, s, space, c);
  }
}
