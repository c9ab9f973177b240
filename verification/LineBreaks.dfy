/** Newline-terminated lines of a byte or character sequence, shared by the range reader
    and the code index. */
module LineBreaks {

  /** One past the end of the line that starts at `p`: past its newline, or the end of data. */
  function LineEnd<T(==)>(data: seq<T>, nl: T, p: nat): (e: nat)
    requires p <= |data|
    ensures p <= e <= |data|
    ensures p < |data| ==> p < e
    decreases |data| - p
  {
    if p == |data| then p
    else if data[p] == nl then p + 1
    else LineEnd(data, nl, p + 1)
  }

  /** The lines of `data`, each with its newline; only the last may lack one. */
  function Lines<T(==)>(data: seq<T>, nl: T): seq<seq<T>>
    decreases |data|
  {
    if data == [] then []
    else [data[..LineEnd(data, nl, 0)]] + Lines(data[LineEnd(data, nl, 0)..], nl)
  }

  lemma LinesUnfold<T>(data: seq<T>, nl: T)
    requires data != []
    ensures Lines(data, nl) == [data[..LineEnd(data, nl, 0)]] + Lines(data[LineEnd(data, nl, 0)..], nl)
  {
  }

  function Concat<T>(parts: seq<seq<T>>): seq<T> {
    if parts == [] then [] else parts[0] + Concat(parts[1..])
  }

  /** Where line `k` (from 0) starts; the end of data when there are fewer lines. */
  function StartOf<T(==)>(data: seq<T>, nl: T, k: nat): (p: nat)
    ensures p <= |data|
  {
    if k == 0 then 0 else LineEnd(data, nl, StartOf(data, nl, k - 1))
  }

  lemma {:induction false} LineEndShift<T>(data: seq<T>, nl: T, cut: nat, p: nat)
    requires cut <= p <= |data|
    ensures LineEnd(data, nl, p) == cut + LineEnd(data[cut..], nl, p - cut)
    decreases |data| - p
  {
    if p < |data| && data[p] != nl {
      LineEndShift(data, nl, cut, p + 1);
    }
  }

  /** The start of line `k + 1` is found by skipping the first line and counting `k` more. */
  lemma {:induction false} StartShift<T>(data: seq<T>, nl: T, k: nat)
    ensures var cut := LineEnd(data, nl, 0);
            StartOf(data, nl, k + 1) == cut + StartOf(data[cut..], nl, k)
  {
    var cut := LineEnd(data, nl, 0);
    if k > 0 {
      StartShift(data, nl, k - 1);
      LineEndShift(data, nl, cut, StartOf(data, nl, k));
    }
  }

  /** Line `k` is the data between the starts of lines `k` and `k + 1`. */
  lemma {:induction false} LineAt<T>(data: seq<T>, nl: T, k: nat)
    requires k < |Lines(data, nl)|
    ensures StartOf(data, nl, k) < StartOf(data, nl, k + 1)
    ensures Lines(data, nl)[k] == data[StartOf(data, nl, k)..StartOf(data, nl, k + 1)]
    decreases |data|
  {
    hide LineEnd;
    var cut := LineEnd(data, nl, 0);
    if k == 0 {
      assert StartOf(data, nl, 1) == cut by { FirstStartOf(data, nl); }
    } else {
      hide StartOf;
      StartShift(data, nl, k - 1);
      StartShift(data, nl, k);
      LineAt(data[cut..], nl, k - 1);
    }
  }

  lemma FirstStartOf<T>(data: seq<T>, nl: T)
    ensures StartOf(data, nl, 0) == 0 && StartOf(data, nl, 1) == LineEnd(data, nl, 0)
  {
  }

  lemma {:induction false} LinesReachTheEnd<T>(data: seq<T>, nl: T)
    ensures StartOf(data, nl, |Lines(data, nl)|) == |data|
    decreases |data|
  {
    if data != [] {
      var cut := LineEnd(data, nl, 0);
      LinesReachTheEnd(data[cut..], nl);
      StartShift(data, nl, |Lines(data[cut..], nl)|);
    }
  }

  /** The lines from `a` up to `b`, joined, are the data between their starts. */
  lemma {:induction false} LinesAreSlices<T>(data: seq<T>, nl: T, a: nat, b: nat)
    requires a <= b <= |Lines(data, nl)|
    ensures StartOf(data, nl, a) <= StartOf(data, nl, b)
    ensures Concat(Lines(data, nl)[a..b]) == data[StartOf(data, nl, a)..StartOf(data, nl, b)]
    decreases b - a
  {
    if a < b {
      hide Lines, StartOf;
      LineAt(data, nl, a);
      LinesAreSlices(data, nl, a + 1, b);
      assert Lines(data, nl)[a..b][1..] == Lines(data, nl)[a + 1..b];
    }
  }

  /** The data runs out exactly when the lines do. */
  lemma EndOfLines<T>(data: seq<T>, nl: T, k: nat)
    requires k <= |Lines(data, nl)|
    ensures StartOf(data, nl, k) == |data| <==> k == |Lines(data, nl)|
  {
    hide Lines, StartOf;
    LinesReachTheEnd(data, nl);
    if k < |Lines(data, nl)| {
      LineAt(data, nl, k);
    }
  }

  // --- counting lines by their newlines ------------------------------------------------------

  function Newlines<T(==)>(data: seq<T>, nl: T): nat {
    if data == [] then 0 else (if data[0] == nl then 1 else 0) + Newlines(data[1..], nl)
  }

  function OpenLine<T(==)>(data: seq<T>, nl: T): nat {
    if data == [] || data[|data| - 1] == nl then 0 else 1
  }

  lemma {:induction false} NewlinesAppend<T>(a: seq<T>, b: seq<T>, nl: T)
    ensures Newlines(a + b, nl) == Newlines(a, nl) + Newlines(b, nl)
  {
    if a == [] {
      assert a + b == b;
    } else {
      NewlinesAppend(a[1..], b, nl);
      assert (a + b)[1..] == a[1..] + b;
    }
  }

  /** Up to its end, the line at `p` holds one newline, or none when the data runs out first. */
  lemma {:induction false} FirstLine<T>(data: seq<T>, nl: T, p: nat)
    requires p < |data|
    ensures var e := LineEnd(data, nl, p);
            Newlines(data[p..e], nl) + OpenLine(data[p..e], nl) == 1 && (e < |data| ==> data[e - 1] == nl)
    decreases |data| - p
  {
    var e := LineEnd(data, nl, p);
    if data[p] == nl {
      assert data[p..e] == [nl];
    } else if p + 1 < |data| {
      FirstLine(data, nl, p + 1);
      assert data[p..e][1..] == data[p + 1..e];
    } else {
      assert data[p..e] == [data[p]];
    }
  }

  lemma {:induction false} LineCount<T>(data: seq<T>, nl: T)
    ensures |Lines(data, nl)| == Newlines(data, nl) + OpenLine(data, nl)
    decreases |data|
  {
    if data != [] {
      var e := LineEnd(data, nl, 0);
      FirstLine(data, nl, 0);
      LineCount(data[e..], nl);
      NewlinesAppend(data[..e], data[e..], nl);
      assert data == data[..e] + data[e..] && data[0..e] == data[..e];
    }
  }
}
