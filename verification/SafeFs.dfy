/** The bounded-memory reader of `safe_fs.py` (`read_content`) against a naive reading of
    the same file by lines. */
module SafeFs {
  import opened LineBreaks
  import opened Bytes

  const NEWLINE: byte := 10
  const NUL: byte := 0

  datatype Read = Content(data: seq<byte>) | TooLarge | Binary | BadRange

  // --- the naive reading -----------------------------------------------------------------

  function Screen(data: seq<byte>, cap: nat): Read {
    if |data| > cap then TooLarge else if NUL in data then Binary else Content(data)
  }

  function Min(a: nat, b: nat): nat { if a < b then a else b }

  /** Split the whole file into lines, take START..END (END clamped), then cap and NUL tests. */
  function NaiveRange(data: seq<byte>, start: nat, end: nat, cap: nat): Read
    requires 1 <= start <= end
  {
    var lines := Lines(data, NEWLINE);
    if |lines| < start then BadRange
    else Screen(Concat(lines[start - 1..Min(end, |lines|)]), cap)
  }

  // --- the file handle ---------------------------------------------------------------------

  class FileHandle {
    const data: seq<byte>
    var pos: nat

    ghost predicate Valid()
      reads this
    {
      pos <= |data|
    }

    constructor (data: seq<byte>)
      ensures this.data == data && pos == 0 && Valid()
    {
      this.data, this.pos := data, 0;
    }

    /** `readline(limit)`: up to and including the next newline, never more than `limit` bytes. */
    method ReadLine(limit: nat) returns (piece: seq<byte>)
      requires Valid()
      modifies this
      ensures Valid() && pos == Min(LineEnd(data, NEWLINE, old(pos)), old(pos) + limit)
      ensures piece == data[old(pos)..pos]
    {
      var stop := Min(LineEnd(data, NEWLINE, pos), pos + limit);
      piece := data[pos..stop];
      pos := stop;
    }
  }

  /** Reading on from anywhere inside a line ends at the same place. */
  lemma {:induction false} LineEndInside(data: seq<byte>, p: nat, q: nat)
    requires p <= q <= |data| && (q < LineEnd(data, NEWLINE, p) || q == p)
    ensures LineEnd(data, NEWLINE, q) == LineEnd(data, NEWLINE, p)
    decreases q - p
  {
    if p < q {
      LineEndInside(data, p + 1, q);
    }
  }

  /** Between two reads the handle stands inside the line, or at the very end of the data. */
  lemma PieceAt(data: seq<byte>, from: nat, at: nat)
    requires from <= |data| && from <= at <= LineEnd(data, NEWLINE, from)
    requires at == from || at < LineEnd(data, NEWLINE, from) || at == |data|
    ensures LineEnd(data, NEWLINE, at) == LineEnd(data, NEWLINE, from)
  {
    if at < LineEnd(data, NEWLINE, from) {
      LineEndInside(data, from, at);
    }
  }

  /** A stretch inside a line ends with a newline exactly when it reaches the line's end
      and that end is a newline. */
  lemma {:induction false} NewlineEndsLine(data: seq<byte>, p: nat, q: nat)
    requires p < |data| && p < q <= LineEnd(data, NEWLINE, p)
    ensures data[q - 1] == NEWLINE ==> q == LineEnd(data, NEWLINE, p)
    ensures q == LineEnd(data, NEWLINE, p) ==> data[q - 1] == NEWLINE || q == |data|
    decreases q - p
  {
    if p + 1 < q {
      NewlineEndsLine(data, p + 1, q);
    }
  }

  lemma {:induction false} StartsGrow(data: seq<byte>, a: nat, b: nat)
    requires a <= b
    ensures StartOf(data, NEWLINE, a) <= StartOf(data, NEWLINE, b)
  {
    if a < b {
      StartsGrow(data, a, b - 1);
    }
  }

  // --- the reader ----------------------------------------------------------------------------

  /** The inner loop: one line, in bounded pieces. Collects it only when `keep`. */
  method ReadOneLine(fh: FileHandle, keep: bool, before: seq<byte>, cap: nat, chunk: nat)
    returns (collected: seq<byte>, started: bool, tooLarge: bool, ghost peak: nat)
    requires fh.Valid() && |before| <= cap && chunk > 0
    modifies fh
    ensures fh.Valid() && old(fh.pos) <= fh.pos <= LineEnd(fh.data, NEWLINE, old(fh.pos))
    ensures collected == before + (if keep then fh.data[old(fh.pos)..fh.pos] else [])
    ensures started == (old(fh.pos) < |fh.data|)
    ensures tooLarge == (|collected| > cap)
    ensures !tooLarge ==> fh.pos == LineEnd(fh.data, NEWLINE, old(fh.pos))
    ensures |before| <= peak <= cap + 1 && |collected| <= peak
  {
    hide LineEnd;
    collected, started, tooLarge, peak := before, false, false, |before|;
    ghost var from, data := fh.pos, fh.data;
    var done := false;
    while !done
      invariant fh.Valid() && fh.data == data && from <= fh.pos <= LineEnd(data, NEWLINE, from)
      invariant keep ==> collected == before + data[from..fh.pos]
      invariant !keep ==> collected == before
      invariant started == (from < fh.pos)
      invariant !done ==> fh.pos == from || fh.pos < LineEnd(data, NEWLINE, from) || fh.pos == |data|
      invariant done ==> fh.pos == LineEnd(data, NEWLINE, from)
      invariant |collected| <= cap && |before| <= peak <= cap + 1 && |collected| <= peak
      decreases !done, |data| - fh.pos
    {
      ghost var at := fh.pos;
      PieceAt(data, from, at);
      var piece := fh.ReadLine(if keep then cap + 1 - |collected| else chunk);
      if piece == [] {
        done := true;
      } else {
        started := true;
        NewlineEndsLine(data, from, fh.pos);
        if keep {
          CollectPiece(before, data, from, at, fh.pos);
          collected := collected + piece;
          peak := if |collected| > peak then |collected| else peak;
          if |collected| > cap {
            tooLarge := true;
            return;
          }
        }
        if piece[|piece| - 1] == NEWLINE {
          done := true;
        }
      }
    }
  }

  lemma CollectPiece(before: seq<byte>, data: seq<byte>, from: nat, at: nat, to: nat)
    requires from <= at <= to <= |data|
    ensures before + data[from..at] + data[at..to] == before + data[from..to]
  {
  }

  /** `read_content` on a line range. For every file, range, cap and skip-chunk size the result
      is the naive one, and never more than `cap + 1` bytes are held. */
  method ReadRange(data: seq<byte>, start: nat, end: nat, cap: nat, chunk: nat)
    returns (r: Read, ghost peak: nat)
    requires 1 <= start <= end && chunk > 0
    ensures r == NaiveRange(data, start, end, cap)
    ensures peak <= cap + 1
  {
    hide NaiveRange, StartOf, Lines;
    var fh := new FileHandle(data);
    var collected: seq<byte> := [];
    var lineno := 0;
    ghost var total := |Lines(data, NEWLINE)|;
    peak := 0;
    FirstStart(data);
    while lineno < end
      invariant fh.Valid() && fh.data == data && lineno <= end && lineno <= total
      invariant fh.pos == StartOf(data, NEWLINE, lineno)
      invariant lineno < start || StartOf(data, NEWLINE, start - 1) <= fh.pos
      invariant collected == if lineno < start then [] else data[StartOf(data, NEWLINE, start - 1)..fh.pos]
      invariant |collected| <= cap && peak <= cap + 1
    {
      EndOfLines(data, NEWLINE, lineno);
      NextStart(data, lineno);
      var keep := lineno + 1 >= start;
      ghost var from := fh.pos;
      var started, tooLarge;
      ghost var most;
      collected, started, tooLarge, most := ReadOneLine(fh, keep, collected, cap, chunk);
      peak := if most > peak then most else peak;
      if tooLarge {
        PrefixTooLarge(data, start, end, lineno, fh.pos, cap);
        return TooLarge, peak;
      }
      if !started {
        break;
      }
      lineno := lineno + 1;
    }
    FinishedRange(data, start, end, cap, lineno, collected);
    if lineno < start {
      return BadRange, peak;
    }
    if NUL in collected {
      return Binary, peak;
    }
    return Content(collected), peak;
  }

  lemma FirstStart(data: seq<byte>)
    ensures StartOf(data, NEWLINE, 0) == 0
  {
  }

  lemma NextStart(data: seq<byte>, k: nat)
    ensures StartOf(data, NEWLINE, k + 1) == LineEnd(data, NEWLINE, StartOf(data, NEWLINE, k))
  {
  }

  /** What the loop has when it stops is what the naive reading is about. */
  lemma FinishedRange(data: seq<byte>, start: nat, end: nat, cap: nat, lineno: nat, collected: seq<byte>)
    requires 1 <= start <= end && lineno == Min(end, |Lines(data, NEWLINE)|)
    requires lineno >= start ==> StartOf(data, NEWLINE, start - 1) <= StartOf(data, NEWLINE, lineno)
    requires collected == if lineno < start then []
                          else data[StartOf(data, NEWLINE, start - 1)..StartOf(data, NEWLINE, lineno)]
    ensures NaiveRange(data, start, end, cap) == if lineno < start then BadRange else Screen(collected, cap)
  {
    hide Lines, StartOf;
    if lineno >= start {
      LinesAreSlices(data, NEWLINE, start - 1, lineno);
    }
  }

  /** What has been collected part-way through is a prefix of the requested lines, so a
      collection over the cap means the request is over the cap. */
  lemma PrefixTooLarge(data: seq<byte>, start: nat, end: nat, lineno: nat, pos: nat, cap: nat)
    requires 1 <= start <= end && start - 1 <= lineno < end && lineno < |Lines(data, NEWLINE)|
    requires StartOf(data, NEWLINE, start - 1) <= pos <= StartOf(data, NEWLINE, lineno + 1)
    requires pos - StartOf(data, NEWLINE, start - 1) > cap
    ensures NaiveRange(data, start, end, cap) == TooLarge
  {
    hide Lines, StartOf;
    var stop := Min(end, |Lines(data, NEWLINE)|);
    LinesAreSlices(data, NEWLINE, start - 1, stop);
    StartsGrow(data, lineno + 1, stop);
  }

  /** `read_content` of a whole file: `size` is what `fstat` said, which the bytes may exceed. */
  method ReadWhole(data: seq<byte>, size: nat, cap: nat) returns (r: Read)
    ensures size <= cap ==> r == Screen(data, cap)
    ensures size > cap ==> r == TooLarge
  {
    if size > cap {
      return TooLarge;
    }
    var bytes := data[..Min(cap + 1, |data|)];
    if |bytes| > cap {
      return TooLarge;
    }
    assert bytes == data;
    if NUL in bytes {
      return Binary;
    }
    return Content(bytes);
  }

  /** A range covering every line reads exactly what a whole-file read does. */
  lemma WholeIsFullRange(data: seq<byte>, end: nat, cap: nat)
    requires data != [] && end >= |Lines(data, NEWLINE)| >= 1
    ensures NaiveRange(data, 1, end, cap) == Screen(data, cap)
  {
    hide Lines, StartOf;
    FirstStart(data);
    EndOfLines(data, NEWLINE, |Lines(data, NEWLINE)|);
    LinesAreSlices(data, NEWLINE, 0, |Lines(data, NEWLINE)|);
    assert Lines(data, NEWLINE)[0..|Lines(data, NEWLINE)|] == Lines(data, NEWLINE);
  }
}
