/** UTF-8 as Python writes and reads it with the `surrogatepass` handler. */
module Utf8 {
  import opened Bytes

  /** The encoding of one character. */
  function EncodeChar(c: char): seq<byte> {
    var n := c as int;
    if n < 0x80 then [n]
    else if n < 0x800 then [0xC0 + n / 0x40, 0x80 + n % 0x40]
    else if n < 0x10000 then [0xE0 + n / 0x1000, 0x80 + (n / 0x40) % 0x40, 0x80 + n % 0x40]
    else [0xF0 + n / 0x40000, 0x80 + (n / 0x1000) % 0x40, 0x80 + (n / 0x40) % 0x40, 0x80 + n % 0x40]
  }

  function Encode(text: string): seq<byte> {
    if text == "" then [] else EncodeChar(text[0]) + Encode(text[1..])
  }

  predicate Continues(b: byte) {
    0x80 <= b < 0xC0
  }

  /** The length of the code point at the front, or 0 if the bytes do not begin with one. Only
      shortest forms up to 0x10FFFF count; surrogates do. */
  function FrontLength(bs: seq<byte>): (n: nat)
    ensures n <= |bs| && n <= 4
  {
    if bs == [] then 0
    else if bs[0] < 0x80 then 1
    else if 0xC2 <= bs[0] < 0xE0 && |bs| >= 2 && Continues(bs[1]) then 2
    else if 0xE0 <= bs[0] < 0xF0 && |bs| >= 3 && Continues(bs[1]) && Continues(bs[2])
            && (bs[0] == 0xE0 ==> bs[1] >= 0xA0) then 3
    else if 0xF0 <= bs[0] < 0xF5 && |bs| >= 4 && Continues(bs[1]) && Continues(bs[2]) && Continues(bs[3])
            && (bs[0] == 0xF0 ==> bs[1] >= 0x90) && (bs[0] == 0xF4 ==> bs[1] < 0x90) then 4
    else 0
  }

  /** `bs.decode("utf-8", "surrogatepass")` does not raise. */
  predicate Decodable(bs: seq<byte>)
    decreases |bs|
  {
    bs == [] || (FrontLength(bs) > 0 && Decodable(bs[FrontLength(bs)..]))
  }

  /** The code point at the front is a surrogate. */
  predicate FrontIsSurrogate(bs: seq<byte>) {
    FrontLength(bs) == 3 && bs[0] == 0xED && bs[1] >= 0xA0
  }

  /** The decoded text holds a surrogate, so plain UTF-8 cannot encode it again. */
  predicate HasSurrogate(bs: seq<byte>)
    decreases |bs|
  {
    bs != [] && FrontLength(bs) > 0 && (FrontIsSurrogate(bs) || HasSurrogate(bs[FrontLength(bs)..]))
  }

  lemma EncodedFront(c: char, rest: seq<byte>)
    ensures FrontLength(EncodeChar(c) + rest) == |EncodeChar(c)| > 0
  {
    var n := c as int;
    if 0x800 <= n < 0x10000 {
      assert n / 0x1000 == 0 ==> (n / 0x40) % 0x40 >= 0x20;
    } else if n >= 0x10000 {
      assert n / 0x40000 == 0 ==> (n / 0x1000) % 0x40 >= 0x10;
      assert n / 0x40000 == 4 ==> (n / 0x1000) % 0x40 < 0x10;
    }
  }

  /** No single character is a surrogate. */
  lemma EncodedNoSurrogate(c: char, rest: seq<byte>)
    ensures !FrontIsSurrogate(EncodeChar(c) + rest)
  {
    var n := c as int;
    if 0x800 <= n < 0x10000 && n / 0x1000 == 0xD {
      assert n < 0xD800 && (n / 0x40) % 0x40 < 0x20;
    }
  }

  /** Every encoded text can be decoded, and holds no surrogate. */
  lemma {:induction false} EncodedIsDecodable(text: string)
    ensures Decodable(Encode(text)) && !HasSurrogate(Encode(text))
  {
    if text != "" {
      EncodedIsDecodable(text[1..]);
      EncodedFront(text[0], Encode(text[1..]));
      EncodedNoSurrogate(text[0], Encode(text[1..]));
      var front := EncodeChar(text[0]);
      assert (front + Encode(text[1..]))[|front|..] == Encode(text[1..]);
    }
  }
}
