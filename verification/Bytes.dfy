/** Bytes and big-endian numbers. */
module Bytes {

  type byte = x: int | 0 <= x < 256

  function Pow256(w: nat): (p: nat)
    ensures p > 0
  {
    if w == 0 then 1 else 256 * Pow256(w - 1)
  }

  /** `n.to_bytes(w, "big")`, the low `w` bytes of `n`. */
  function ToBytes(n: nat, w: nat): (bs: seq<byte>)
    ensures |bs| == w
  {
    if w == 0 then [] else ToBytes(n / 256, w - 1) + [n % 256]
  }

  /** `int.from_bytes(bs, "big")` */
  function FromBytes(bs: seq<byte>): nat {
    if bs == [] then 0 else 256 * FromBytes(bs[..|bs| - 1]) + bs[|bs| - 1]
  }

  /** `str(n)` in ASCII. */
  function Decimal(n: nat): (d: seq<byte>)
    ensures |d| > 0 && d[0] != 45 && (|d| > 1 <==> n >= 10)
  {
    if n < 10 then [48 + n] else Decimal(n / 10) + [48 + n % 10]
  }

  lemma {:induction false} FromTo(n: nat, w: nat)
    requires n < Pow256(w)
    ensures FromBytes(ToBytes(n, w)) == n
  {
    if w > 0 {
      FromTo(n / 256, w - 1);
      assert ToBytes(n, w)[..w - 1] == ToBytes(n / 256, w - 1);
    }
  }

  lemma {:induction false} ToFrom(bs: seq<byte>)
    ensures FromBytes(bs) < Pow256(|bs|) && ToBytes(FromBytes(bs), |bs|) == bs
  {
    if bs != [] {
      ToFrom(bs[..|bs| - 1]);
    }
  }
}
