/** The overlapping, character-capped windows of `codeindex.py` (`_chunks_for`), and their
    agreement with the line numbers the range reader uses on the same file. */
module IndexWindows {
  import opened Text
  import opened LineBreaks
  import opened Bytes
  import opened SafeFs
  import opened Utf8

  const CHUNK_LINES: nat := 80
  const CHUNK_OVERLAP: nat := 16
  const CHUNK_MAX_CHARS: nat := 4000

  /** `start` and `end` are 1-based and inclusive, as a pack range. */
  datatype Chunk = Chunk(start: nat, end: nat, text: string)

  /** Lines `from` up to `to` (0-based, exclusive). */
  datatype Window = Window(from: nat, to: nat)

  // --- the lines of a text ---------------------------------------------------------------

  /** `text.split("\n")` */
  function Split(text: string): (parts: seq<string>)
    ensures |parts| > 0
  {
    if text == "" then [""]
    else if text[0] == '\n' then [""] + Split(text[1..])
    else
      var rest := Split(text[1..]);
      [[text[0]] + rest[0]] + rest[1..]
  }

  /** A trailing newline ends the last line; it does not start one. */
  function PlainLines(text: string): seq<string> {
    var parts := Split(text);
    if parts[|parts| - 1] == "" then parts[..|parts| - 1] else parts
  }

  function DropCr(line: string): string {
    if line != "" && line[|line| - 1] == '\r' then line[..|line| - 1] else line
  }

  function TextLines(text: string): seq<string> {
    var plain := PlainLines(text);
    seq(|plain|, i requires 0 <= i < |plain| => DropCr(plain[i]))
  }

  // --- windows and chunks ------------------------------------------------------------------

  function WindowEndFrom(lines: seq<string>, i: nat, end: nat, chars: nat): (e: nat)
    requires i <= end <= |lines| && end - i <= CHUNK_LINES
    ensures end <= e <= |lines| && e - i <= CHUNK_LINES
    ensures end < |lines| && end - i < CHUNK_LINES && chars < CHUNK_MAX_CHARS ==> end < e
    decreases |lines| - end
  {
    if end < |lines| && end - i < CHUNK_LINES && chars < CHUNK_MAX_CHARS
    then WindowEndFrom(lines, i, end + 1, chars + |lines[end]| + 1)
    else end
  }

  function WindowEnd(lines: seq<string>, i: nat): (e: nat)
    requires i < |lines|
    ensures i < e <= |lines| && e - i <= CHUNK_LINES
  {
    WindowEndFrom(lines, i, i, 0)
  }

  function NextFrom(i: nat, e: nat): nat
    requires i < e
  {
    if i + 1 + CHUNK_OVERLAP > e then i + 1 else e - CHUNK_OVERLAP
  }

  function Windows(lines: seq<string>, i: nat): seq<Window>
    decreases |lines| - i
  {
    if i >= |lines| then []
    else
      var e := WindowEnd(lines, i);
      [Window(i, e)] + (if e >= |lines| then [] else Windows(lines, NextFrom(i, e)))
  }

  /** `"\n".join(lines[i:e])` */
  function Join(lines: seq<string>, i: nat, e: nat): string
    requires i <= e <= |lines|
    decreases e - i
  {
    if i == e then "" else if i + 1 == e then lines[i] else lines[i] + "\n" + Join(lines, i + 1, e)
  }

  function PieceAt(body: string, k: nat): string
    requires k <= |body|
  {
    if k + CHUNK_MAX_CHARS <= |body| then body[k..k + CHUNK_MAX_CHARS] else body[k..]
  }

  function Pieces(body: string, k: nat): seq<string>
    decreases |body| - k
  {
    if k >= |body| then []
    else (if Strip(PieceAt(body, k)) != "" then [PieceAt(body, k)] else []) + Pieces(body, k + CHUNK_MAX_CHARS)
  }

  function Tagged(w: Window, pieces: seq<string>): seq<Chunk> {
    seq(|pieces|, j requires 0 <= j < |pieces| => Chunk(w.from + 1, w.to, pieces[j]))
  }

  function ChunksOf(lines: seq<string>, w: Window): seq<Chunk>
    requires w.from <= w.to <= |lines|
  {
    Tagged(w, Pieces(Strip(Join(lines, w.from, w.to)), 0))
  }

  ghost predicate WindowsFit(lines: seq<string>, ws: seq<Window>) {
    forall j :: 0 <= j < |ws| ==> ws[j].from < ws[j].to <= |lines| && ws[j].to - ws[j].from <= CHUNK_LINES
  }

  lemma {:induction false} WindowsAreFit(lines: seq<string>, i: nat)
    ensures WindowsFit(lines, Windows(lines, i))
    decreases |lines| - i
  {
    if i < |lines| && WindowEnd(lines, i) < |lines| {
      WindowsAreFit(lines, NextFrom(i, WindowEnd(lines, i)));
    }
  }

  /** The chunks of the windows from line `i` on. */
  function ChunksFrom(lines: seq<string>, i: nat): seq<Chunk>
    decreases |lines| - i
  {
    if i >= |lines| then []
    else
      var e := WindowEnd(lines, i);
      ChunksOf(lines, Window(i, e)) + (if e >= |lines| then [] else ChunksFrom(lines, NextFrom(i, e)))
  }

  function Chunks(text: string): seq<Chunk> {
    ChunksFrom(TextLines(text), 0)
  }

  /** `_chunks_for` */
  method ChunksFor(text: string) returns (out: seq<Chunk>)
    ensures out == Chunks(text)
  {
    hide ChunksFrom, Pieces, Join, TextLines, Tagged, Strip, WindowEnd;
    var lines := TextLines(text);
    out := [];
    var i := 0;
    while i < |lines|
      invariant out + ChunksFrom(lines, i) == ChunksFrom(lines, 0)
      decreases |lines| - i
    {
      ghost var before := out;
      ChunksUnfold(lines, i);
      var end := MeasureWindow(lines, i);
      var pieces := CutBody(Strip(Join(lines, i, end)));
      ghost var more := Tagged(Window(i, end), pieces);
      assert more == ChunksOf(lines, Window(i, end));
      out := out + Tagged(Window(i, end), pieces);
      if end >= |lines| {
        assert more + [] == more;
        return;
      }
      i := NextFrom(i, end);
      AppendAssociates(before, more, ChunksFrom(lines, i));
    }
    ChunksDone(lines, i);
  }

  lemma AppendAssociates<T>(a: seq<T>, b: seq<T>, c: seq<T>)
    ensures a + (b + c) == a + b + c
  {
  }

  lemma ChunksDone(lines: seq<string>, i: nat)
    requires i >= |lines|
    ensures ChunksFrom(lines, i) == []
  {
  }

  lemma ChunksUnfold(lines: seq<string>, i: nat)
    requires i < |lines|
    ensures var e := WindowEnd(lines, i);
            ChunksFrom(lines, i) == ChunksOf(lines, Window(i, e)) +
                                    (if e >= |lines| then [] else ChunksFrom(lines, NextFrom(i, e)))
  {
  }

  /** The inner loop that grows one window line by line. */
  method MeasureWindow(lines: seq<string>, i: nat) returns (end: nat)
    requires i < |lines|
    ensures end == WindowEnd(lines, i)
  {
    end := i;
    var chars: nat := 0;
    while end < |lines| && end - i < CHUNK_LINES && chars < CHUNK_MAX_CHARS
      invariant i <= end <= |lines| && end - i <= CHUNK_LINES
      invariant WindowEndFrom(lines, i, end, chars) == WindowEnd(lines, i)
    {
      chars := chars + |lines[end]| + 1;
      end := end + 1;
    }
  }

  /** The inner loop that cuts a window's text into capped pieces. */
  method CutBody(body: string) returns (pieces: seq<string>)
    ensures pieces == Pieces(body, 0)
  {
    hide Strip, PieceAt;
    pieces := [];
    var k := 0;
    while k < |body|
      invariant pieces + Pieces(body, k) == Pieces(body, 0)
      decreases |body| - k
    {
      if Strip(PieceAt(body, k)) != "" {
        pieces := pieces + [PieceAt(body, k)];
      }
      k := k + CHUNK_MAX_CHARS;
    }
  }

  // --- windows leave no gap ---------------------------------------------------------------------

  /** Neighbouring windows share 16 lines, or all but the first of a shorter one. */
  ghost predicate Overlap(a: Window, b: Window) {
    a.to - b.from == if a.to - a.from > CHUNK_OVERLAP then CHUNK_OVERLAP else a.to - a.from - 1
  }

  ghost predicate Consecutive(a: Window, b: Window) {
    a.from < b.from <= a.to && Overlap(a, b)
  }

  ghost predicate NoGap(ws: seq<Window>) {
    forall j :: 0 <= j < |ws| - 1 ==> Consecutive(ws[j], ws[j + 1])
  }

  lemma NoGapCons(w: Window, ws: seq<Window>)
    requires NoGap(ws) && (ws != [] ==> Consecutive(w, ws[0]))
    ensures NoGap([w] + ws)
  {
    hide Consecutive;
    var all := [w] + ws;
    forall j | 0 <= j < |all| - 1 ensures Consecutive(all[j], all[j + 1]) {
      if j > 0 {
        assert Consecutive(ws[j - 1], ws[j]);
      }
    }
  }

  /** Consecutive windows move forward and touch or overlap, and together they run from the
      first line to the last. */
  lemma {:induction false} WindowsLeaveNoGap(lines: seq<string>, i: nat)
    requires i < |lines|
    ensures var ws := Windows(lines, i);
            ws != [] && ws[0].from == i && ws[|ws| - 1].to == |lines| && NoGap(ws)
    decreases |lines| - i
  {
    hide NoGap, WindowEnd;
    var e := WindowEnd(lines, i);
    NoGapNothing();
    if e < |lines| {
      var rest := Windows(lines, NextFrom(i, e));
      WindowsLeaveNoGap(lines, NextFrom(i, e));
      NoGapCons(Window(i, e), rest);
    } else {
      NoGapCons(Window(i, e), []);
    }
  }

  lemma NoGapNothing()
    ensures NoGap([])
  {
  }

  lemma JoinSnoc(lines: seq<string>, i: nat, e: nat)
    requires i <= e < |lines|
    ensures |Join(lines, i, e + 1)| == |lines[e]| + (if i == e then 0 else |Join(lines, i, e)| + 1)
    decreases e - i
  {
    JoinUnfold(lines, i, e + 1);
    if i < e {
      JoinUnfold(lines, i, e);
      JoinSnoc(lines, i + 1, e);
    }
  }

  lemma {:induction false} WindowStops(lines: seq<string>, i: nat, end: nat, chars: nat)
    requires i <= end <= |lines| && end - i <= CHUNK_LINES
    requires chars == if i == end then 0 else |Join(lines, i, end)| + 1
    requires end > i + 1 ==> |Join(lines, i, end - 1)| + 1 < CHUNK_MAX_CHARS
    ensures var e := WindowEndFrom(lines, i, end, chars);
            && (e == |lines| || e - i == CHUNK_LINES || (e > i && |Join(lines, i, e)| + 1 >= CHUNK_MAX_CHARS))
            && (e > i + 1 ==> |Join(lines, i, e - 1)| + 1 < CHUNK_MAX_CHARS)
    decreases |lines| - end
  {
    hide Join;
    if end < |lines| && end - i < CHUNK_LINES && chars < CHUNK_MAX_CHARS {
      JoinSnoc(lines, i, end);
      WindowStops(lines, i, end + 1, chars + |lines[end]| + 1);
    }
  }

  /** A window is as long as it may be: it ends at the end of the text, at 80 lines, or with the
      very line that takes it to 4000 characters (a line break counted per line). */
  lemma WindowIsMaximal(lines: seq<string>, i: nat)
    requires i < |lines|
    ensures var e := WindowEnd(lines, i);
            && (e == |lines| || e - i == CHUNK_LINES || |Join(lines, i, e)| + 1 >= CHUNK_MAX_CHARS)
            && (e > i + 1 ==> |Join(lines, i, e - 1)| + 1 < CHUNK_MAX_CHARS)
  {
    WindowStops(lines, i, i, 0);
  }

  // --- every visible character lands in a chunk -----------------------------------------------------

  /** Where column `col` of line `l` sits in the joined text of the window that starts at `i`. */
  function PosIn(lines: seq<string>, i: nat, l: nat, col: nat): nat
    requires i <= l < |lines|
    decreases l - i
  {
    if i == l then col else |lines[i]| + 1 + PosIn(lines, i + 1, l, col)
  }

  lemma JoinUnfold(lines: seq<string>, i: nat, e: nat)
    requires i < e <= |lines|
    ensures Join(lines, i, e) == lines[i] + (if i + 1 == e then "" else "\n" + Join(lines, i + 1, e))
  {
    assert lines[i] + "" == lines[i];
  }

  lemma {:induction false} JoinAt(lines: seq<string>, i: nat, e: nat, l: nat, col: nat)
    requires i <= l < e <= |lines| && col < |lines[l]|
    ensures PosIn(lines, i, l, col) < |Join(lines, i, e)|
    ensures Join(lines, i, e)[PosIn(lines, i, l, col)] == lines[l][col]
    decreases l - i
  {
    JoinUnfold(lines, i, e);
    hide Join;
    if i < l {
      JoinAt(lines, i + 1, e, l, col);
    }
  }

  /** Stripping keeps every visible character, at a fixed shift. */
  lemma {:induction false} StripKeeps(s: string, p: nat) returns (lead: nat)
    requires p < |s| && !IsSpace(s[p])
    ensures lead <= p < lead + |Strip(s)| && OccursAt(Strip(s), s, lead)
  {
    lead := StripLeftKeeps(s, p);
    var left := StripLeft(s);
    assert left[p - lead] == s[p];
    StripRightKeeps(left, p - lead);
    assert left[..|Strip(s)|] == s[lead..lead + |Strip(s)|];
  }

  lemma {:induction false} StripLeftKeeps(s: string, p: nat) returns (lead: nat)
    requires p < |s| && !IsSpace(s[p])
    ensures lead <= p && lead <= |s| && StripLeft(s) == s[lead..]
  {
    if IsSpace(s[0]) {
      lead := StripLeftKeeps(s[1..], p - 1);
      lead := lead + 1;
    } else {
      lead := 0;
    }
  }

  lemma {:induction false} StripRightKeeps(s: string, p: nat)
    requires p < |s| && !IsSpace(s[p])
    ensures p < |StripRight(s)| <= |s| && StripRight(s) == s[..|StripRight(s)|]
  {
    if IsSpace(s[|s| - 1]) {
      StripRightKeeps(s[..|s| - 1], p);
      assert s[..|s| - 1][..|StripRight(s)|] == s[..|StripRight(s)|];
    }
  }

  lemma PieceLength(body: string, k: nat)
    requires k <= |body|
    ensures |PieceAt(body, k)| <= CHUNK_MAX_CHARS && OccursAt(PieceAt(body, k), body, k)
    ensures k + |PieceAt(body, k)| == |body| || |PieceAt(body, k)| == CHUNK_MAX_CHARS
  {
  }

  lemma PieceIsVisible(body: string, k: nat, q: nat)
    requires k <= q < |body| && q < k + |PieceAt(body, k)| && !IsSpace(body[q])
    ensures Strip(PieceAt(body, k)) != ""
  {
    hide Strip;
    var piece := PieceAt(body, k);
    assert piece[q - k] == body[q];
    var lead := StripKeeps(piece, q - k);
  }

  /** A visible character of the body lies in one of its pieces. */
  lemma {:induction false} PieceHolds(body: string, k: nat, q: nat) returns (j: nat, at: nat)
    requires k <= q < |body| && !IsSpace(body[q])
    ensures j < |Pieces(body, k)|
    ensures OccursAt(Pieces(body, k)[j], body, at)
    ensures at <= q < at + |Pieces(body, k)[j]| && |Pieces(body, k)[j]| <= CHUNK_MAX_CHARS
    decreases |body| - k
  {
    PiecesUnfold(body, k);
    PieceLength(body, k);
    hide Strip, Pieces, PieceAt, OccursAt;
    var piece := PieceAt(body, k);
    if q < k + |piece| {
      PieceIsVisible(body, k, q);
      j, at := 0, k;
    } else {
      j, at := PieceHolds(body, k + CHUNK_MAX_CHARS, q);
      var rest := Pieces(body, k + CHUNK_MAX_CHARS);
      if Strip(piece) != "" {
        assert ([piece] + rest)[j + 1] == rest[j];
        j := j + 1;
      } else {
        assert [] + rest == rest;
      }
    }
  }

  lemma PiecesUnfold(body: string, k: nat)
    requires k < |body|
    ensures Pieces(body, k) ==
      (if Strip(PieceAt(body, k)) != "" then [PieceAt(body, k)] else []) + Pieces(body, k + CHUNK_MAX_CHARS)
  {
  }

  /** The chunk's text is a contiguous part of its window's text, and that part covers the
      character at line `l`, column `col`. */
  ghost predicate Carries(c: Chunk, lines: seq<string>, l: nat, col: nat) {
    && 1 <= c.start <= l + 1 <= c.end <= |lines|
    && c.end - c.start + 1 <= CHUNK_LINES
    && |c.text| <= CHUNK_MAX_CHARS
    && CoversSomewhere(c.text, Join(lines, c.start - 1, c.end), PosIn(lines, c.start - 1, l, col))
  }

  ghost predicate CoversSomewhere(part: string, whole: string, p: nat) {
    exists at: nat :: Covers(part, whole, at, p)
  }

  /** `part` stands at `at` in `whole`, and position `p` falls inside it. */
  ghost predicate Covers(part: string, whole: string, at: nat, p: nat) {
    OccursAt(part, whole, at) && at <= p < at + |part|
  }

  lemma CoversWithin(part: string, body: string, whole: string, at: nat, lead: nat, p: nat)
    requires lead <= p && Covers(part, body, at, p - lead) && OccursAt(body, whole, lead)
    ensures Covers(part, whole, lead + at, p)
  {
    forall k | 0 <= k < |part| ensures part[k] == whole[lead + at + k] {
      assert part[k] == body[at..at + |part|][k] == body[at + k] == whole[lead..lead + |body|][at + k];
    }
    assert part == whole[lead + at..lead + at + |part|];
  }

  lemma WindowCarries(lines: seq<string>, w: Window, l: nat, col: nat) returns (j: nat)
    requires w.from <= l < w.to <= |lines| && w.to - w.from <= CHUNK_LINES
    requires col < |lines[l]| && !IsSpace(lines[l][col])
    ensures j < |ChunksOf(lines, w)| && Carries(ChunksOf(lines, w)[j], lines, l, col)
  {
    hide Join, PosIn, Pieces, Strip, OccursAt;
    var joined, p := Join(lines, w.from, w.to), PosIn(lines, w.from, l, col);
    JoinAt(lines, w.from, w.to, l, col);
    var lead := StripKeeps(joined, p);
    var body := Strip(joined);
    SameCharacter(body, joined, lead, p);
    var at;
    j, at := PieceHolds(body, 0, p - lead);
    CoversWithin(Pieces(body, 0)[j], body, joined, at, lead, p);
    var c := ChunksOf(lines, w)[j];
    assert c.text == Pieces(body, 0)[j] && CoversSomewhere(c.text, joined, p);
  }

  lemma SameCharacter(body: string, whole: string, lead: nat, p: nat)
    requires OccursAt(body, whole, lead) && lead <= p < lead + |body|
    ensures body[p - lead] == whole[p]
  {
  }

  lemma {:induction false} EveryCharacterFrom(lines: seq<string>, i: nat, l: nat, col: nat) returns (j: nat)
    requires i <= l < |lines| && col < |lines[l]| && !IsSpace(lines[l][col])
    ensures j < |ChunksFrom(lines, i)| && Carries(ChunksFrom(lines, i)[j], lines, l, col)
    decreases |lines| - i
  {
    hide Carries, ChunksOf, ChunksFrom;
    var e := WindowEnd(lines, i);
    ChunksUnfold(lines, i);
    if l < e {
      j := WindowCarries(lines, Window(i, e), l, col);
    } else {
      j := EveryCharacterFrom(lines, NextFrom(i, e), l, col);
      j := j + |ChunksOf(lines, Window(i, e))|;
    }
  }

  /** Every character of the text that is not whitespace lands in some chunk of at most 4000
      characters, cut from a window of at most 80 lines that contains its line. */
  lemma EveryCharacterIsIndexed(text: string, l: nat, col: nat)
    requires l < |TextLines(text)| && col < |TextLines(text)[l]| && !IsSpace(TextLines(text)[l][col])
    ensures exists j :: 0 <= j < |Chunks(text)| && Carries(Chunks(text)[j], TextLines(text), l, col)
  {
    hide Carries, ChunksFrom, TextLines;
    var j := EveryCharacterFrom(TextLines(text), 0, l, col);
    assert Carries(Chunks(text)[j], TextLines(text), l, col);
  }

  // --- agreement with the reader's numbering -----------------------------------------------------------

  lemma {:induction false} ChunkRanges(lines: seq<string>, i: nat, c: Chunk)
    requires c in ChunksFrom(lines, i)
    ensures 1 <= c.start <= c.end <= |lines| && c.end - c.start < CHUNK_LINES
    decreases |lines| - i
  {
    var e := WindowEnd(lines, i);
    if c !in ChunksOf(lines, Window(i, e)) {
      ChunkRanges(lines, NextFrom(i, e), c);
    }
  }

  /** Only a newline character encodes to a newline byte. */
  lemma NewlineByte(c: char)
    ensures c == '\n' ==> EncodeChar(c) == [NEWLINE]
    ensures c != '\n' ==> EncodeChar(c) != [] && forall k :: 0 <= k < |EncodeChar(c)| ==> EncodeChar(c)[k] != NEWLINE
  {
  }

  lemma {:induction false} EncodeSplit(text: string, k: nat)
    requires k <= |text|
    ensures Encode(text) == Encode(text[..k]) + Encode(text[k..])
  {
    if k > 0 {
      EncodeSplit(text[1..], k - 1);
      assert text[..k][1..] == text[1..][..k - 1];
    }
  }

  lemma {:induction false} SkipPlain(data: seq<byte>, p: nat, q: nat)
    requires p <= q <= |data| && forall k :: p <= k < q ==> data[k] != NEWLINE
    ensures LineEnd(data, NEWLINE, p) == LineEnd(data, NEWLINE, q)
    decreases q - p
  {
    if p < q {
      SkipPlain(data, p + 1, q);
    }
  }

  /** The first line of the encoded text is the encoding of its first line. */
  lemma {:induction false} EncodedFirstLine(text: string)
    ensures LineEnd(Encode(text), NEWLINE, 0) == |Encode(text[..LineEnd(text, '\n', 0)])|
  {
    if text != "" {
      var c, rest := EncodeChar(text[0]), text[1..];
      var bytes := Encode(text);
      NewlineByte(text[0]);
      if text[0] == '\n' {
        assert text[..1][1..] == "";
        assert Encode(text[..1]) == c + Encode("");
      } else {
        EncodedFirstLine(rest);
        PlainCharacter(text);
        var e := LineEnd(text, '\n', 0);
        hide LineEnd;
        assert text[..e][1..] == rest[..e - 1];
      }
    }
  }

  /** A character that is no newline is skipped, in the text and in its encoding. */
  lemma PlainCharacter(text: string)
    requires text != "" && text[0] != '\n'
    ensures LineEnd(text, '\n', 0) == 1 + LineEnd(text[1..], '\n', 0)
    ensures LineEnd(Encode(text), NEWLINE, 0) == |EncodeChar(text[0])| + LineEnd(Encode(text[1..]), NEWLINE, 0)
  {
    LineEndShift(text, '\n', 1, 1);
    PlainBytes(text);
  }

  lemma PlainBytes(text: string)
    requires text != "" && text[0] != '\n'
    ensures LineEnd(Encode(text), NEWLINE, 0) == |EncodeChar(text[0])| + LineEnd(Encode(text[1..]), NEWLINE, 0)
  {
    var c, rest := EncodeChar(text[0]), Encode(text[1..]);
    NewlineByte(text[0]);
    assert Encode(text) == c + rest;
    hide EncodeChar, Encode, LineEnd;
    assert forall k :: 0 <= k < |c| ==> (c + rest)[k] == c[k];
    SkipPlain(c + rest, 0, |c|);
    LineEndShift(c + rest, NEWLINE, |c|, |c|);
    assert (c + rest)[|c|..] == rest;
  }

  ghost predicate Encodes(bytes: seq<seq<byte>>, lines: seq<string>) {
    |bytes| == |lines| && forall k :: 0 <= k < |lines| ==> bytes[k] == Encode(lines[k])
  }

  lemma EncodesCons(line: string, bytes: seq<seq<byte>>, lines: seq<string>)
    requires Encodes(bytes, lines)
    ensures Encodes([Encode(line)] + bytes, [line] + lines)
  {
    hide Encode;
  }

  /** The reader sees the encodings of the text's lines, line by line. */
  lemma {:induction false} EncodedLines(text: string)
    ensures Encodes(Lines(Encode(text), NEWLINE), Lines(text, '\n'))
    decreases |text|
  {
    if text == "" {
      NoLines();
    } else {
      var e, bytes := LineEnd(text, '\n', 0), Encode(text);
      EncodedFirstLine(text);
      EncodeSplit(text, e);
      EncodedLines(text[e..]);
      NewlineByte(text[0]);
      LinesUnfold(text, '\n');
      LinesUnfold(bytes, NEWLINE);
      hide Lines, LineEnd, Encode, EncodeChar, Encodes;
      assert bytes[..|Encode(text[..e])|] == Encode(text[..e]);
      assert bytes[|Encode(text[..e])|..] == Encode(text[e..]);
      EncodesCons(text[..e], Lines(Encode(text[e..]), NEWLINE), Lines(text[e..], '\n'));
    }
  }

  /** Splitting peels off the first line: up to its newline, or all of the text. */
  lemma {:induction false} SplitFirst(text: string)
    requires text != ""
    ensures var e := LineEnd(text, '\n', 0);
            if text[e - 1] == '\n' then Split(text) == [text[..e - 1]] + Split(text[e..])
            else e == |text| && Split(text) == [text]
  {
    if text[0] != '\n' {
      var rest := text[1..];
      LineEndShift(text, '\n', 1, 1);
      if rest == "" {
        assert Split(rest) == [""];
        assert [text[0]] + "" == text;
      } else {
        SplitFirst(rest);
        var e := LineEnd(text, '\n', 0);
        if text[e - 1] == '\n' {
          assert [text[0]] + rest[..e - 2] == text[..e - 1];
          assert rest[e - 1..] == text[e..];
          assert Split(rest)[0] == rest[..e - 2] && Split(rest)[1..] == Split(text[e..]);
        } else {
          assert [text[0]] + rest == text;
        }
      }
    }
  }

  function DropNewline(line: string): string {
    if line != "" && line[|line| - 1] == '\n' then line[..|line| - 1] else line
  }

  /** Python's split, without the empty tail, gives the lines without their newlines. */
  lemma {:induction false} PlainLinesAreLines(text: string)
    ensures |PlainLines(text)| == |Lines(text, '\n')|
    ensures forall k :: 0 <= k < |Lines(text, '\n')| ==> PlainLines(text)[k] == DropNewline(Lines(text, '\n')[k])
    decreases |text|
  {
    hide Split, PlainLines, LineEnd, Lines, DropNewline;
    if text == "" {
      NoLines();
    } else {
      var e := LineEnd(text, '\n', 0);
      SplitFirst(text);
      if text[e - 1] == '\n' {
        PlainLinesAreLines(text[e..]);
        PlainStep(text, e);
        LinesStep(text, e);
      } else {
        LastLine(text);
      }
    }
  }

  lemma NoLines()
    ensures PlainLines("") == [] && Lines("", '\n') == []
  {
  }

  lemma LastLine(text: string)
    requires text != "" && text[|text| - 1] != '\n' && LineEnd(text, '\n', 0) == |text| && Split(text) == [text]
    ensures PlainLines(text) == [text] && Lines(text, '\n') == [text] && DropNewline(text) == text
  {
    hide Split, LineEnd;
    assert text[..|text|] == text && text[|text|..] == "";
    assert Lines(text[|text|..], '\n') == [];
  }

  lemma PlainStep(text: string, e: nat)
    requires 0 < e <= |text| && text[e - 1] == '\n'
    requires Split(text) == [text[..e - 1]] + Split(text[e..])
    ensures PlainLines(text) == [text[..e - 1]] + PlainLines(text[e..])
    ensures DropNewline(text[..e]) == text[..e - 1]
  {
    hide Split;
    assert text[..e][..e - 1] == text[..e - 1];
    var rest := Split(text[e..]);
    assert Split(text)[|rest|] == rest[|rest| - 1];
  }

  lemma LinesStep(text: string, e: nat)
    requires text != "" && e == LineEnd(text, '\n', 0)
    ensures Lines(text, '\n') == [text[..e]] + Lines(text[e..], '\n')
  {
    hide LineEnd;
  }

  /** The index numbers lines the way the reader does: line `k` of the index is, without its
      line break, the very line `k` that a range read of the file's bytes returns. */
  lemma ReaderAgrees(text: string, k: nat)
    requires k < |TextLines(text)|
    ensures |Lines(Encode(text), NEWLINE)| == |TextLines(text)|
    ensures exists line ::
      Lines(Encode(text), NEWLINE)[k] == Encode(line) && TextLines(text)[k] == DropCr(DropNewline(line))
  {
    EncodedLines(text);
    PlainLinesAreLines(text);
    var line := Lines(text, '\n')[k];
    assert Lines(Encode(text), NEWLINE)[k] == Encode(line);
  }

  /** So no reported chunk range is ever out of the file: packing it cannot give BAD_RANGE. */
  lemma ChunkRangeIsReadable(text: string, c: Chunk, cap: nat)
    requires c in Chunks(text)
    ensures 1 <= c.start <= c.end && NaiveRange(Encode(text), c.start, c.end, cap) != BadRange
  {
    ChunkRanges(TextLines(text), 0, c);
    ReaderAgrees(text, c.start - 1);
  }
}
