/** The base64 encoding of section 4 of RFC 4648, and its validating decoding in Python 3.11. */
module Base64 {
  import opened Text
  import opened Bytes

  type sextet = x: int | 0 <= x < 64

  function Digit(v: sextet): char {
    if v < 26 then 'A' + v as char
    else if v < 52 then 'a' + (v - 26) as char
    else if v < 62 then '0' + (v - 52) as char
    else if v == 62 then '+' else '/'
  }

  function Value(c: char): Option<sextet> {
    if 'A' <= c <= 'Z' then Some((c - 'A') as int)
    else if 'a' <= c <= 'z' then Some((c - 'a') as int + 26)
    else if '0' <= c <= '9' then Some((c - '0') as int + 52)
    else if c == '+' then Some(62)
    else if c == '/' then Some(63)
    else None
  }

  lemma ValueOfDigit(v: sextet)
    ensures Value(Digit(v)) == Some(v) && Digit(v) != '='
  {
  }

  /** Three bytes as four digits. */
  function Group(a: byte, b: byte, c: byte): (s: string)
    ensures |s| == 4
  {
    [Digit(a / 4), Digit((a % 4) * 16 + b / 16), Digit((b % 16) * 4 + c / 64), Digit(c % 64)]
  }

  function Encode(bs: seq<byte>): string {
    if |bs| == 0 then ""
    else if |bs| == 1 then Group(bs[0], 0, 0)[..2] + "=="
    else if |bs| == 2 then Group(bs[0], bs[1], 0)[..3] + "="
    else Group(bs[0], bs[1], bs[2]) + Encode(bs[3..])
  }

  /** One final group, padded or not. Unused low bits before the padding are ignored. */
  function DecodeLast(s: string): Option<seq<byte>>
    requires |s| == 4
  {
    var a, b, c, d := Value(s[0]), Value(s[1]), Value(s[2]), Value(s[3]);
    if a == None || b == None then None
    else if s[2] == '=' && s[3] == '=' then Some([a.value * 4 + b.value / 16])
    else if c == None then None
    else if s[3] == '=' then Some([a.value * 4 + b.value / 16, (b.value % 16) * 16 + c.value / 4])
    else DecodeGroup(s)
  }

  function DecodeGroup(s: string): Option<seq<byte>>
    requires |s| == 4
  {
    var a, b, c, d := Value(s[0]), Value(s[1]), Value(s[2]), Value(s[3]);
    if a == None || b == None || c == None || d == None then None
    else Some([a.value * 4 + b.value / 16, (b.value % 16) * 16 + c.value / 4, (c.value % 4) * 64 + d.value])
  }

  /** Whole groups, padding only at the very end. */
  function DecodeGroups(s: string): Option<seq<byte>> {
    if s == "" then Some([])
    else if |s| < 4 then None
    else if |s| == 4 then DecodeLast(s)
    else
      var head, rest := DecodeGroup(s[..4]), DecodeGroups(s[4..]);
      if head == None || rest == None then None else Some(head.value + rest.value)
  }

  /** Without the padding characters at the end. */
  function Unpadded(s: string): string {
    if s != "" && s[|s| - 1] == '=' then Unpadded(s[..|s| - 1]) else s
  }

  /** `b64decode(s, validate=True)`: after groups that need no padding, any amount of it is let pass. */
  function Decode(s: string): Option<seq<byte>> {
    var body := Unpadded(s);
    DecodeGroups(if body != "" && |body| % 4 == 0 then body else s)
  }

  /** The bits of three bytes, regrouped by six and back by eight. */
  lemma Regroup(a: byte, b: byte, c: byte)
    ensures a / 4 * 4 + ((a % 4) * 16 + b / 16) / 16 == a
    ensures ((a % 4) * 16 + b / 16) % 16 * 16 + ((b % 16) * 4 + c / 64) / 4 == b
    ensures ((b % 16) * 4 + c / 64) % 4 * 64 + c % 64 == c
  {
  }

  lemma GroupRoundTrip(a: byte, b: byte, c: byte)
    ensures DecodeGroup(Group(a, b, c)) == Some([a, b, c]) && DecodeLast(Group(a, b, c)) == Some([a, b, c])
    ensures DecodeLast(Group(a, 0, 0)[..2] + "==") == Some([a])
    ensures DecodeLast(Group(a, b, 0)[..3] + "=") == Some([a, b])
  {
    hide Digit, Value;
    assert Value('=') == None by { PadIsNoDigit(); }
    ValueOfDigit(a / 4);
    ValueOfDigit((a % 4) * 16 + b / 16);
    ValueOfDigit((a % 4) * 16 + 0 / 16);
    ValueOfDigit((b % 16) * 4 + c / 64);
    ValueOfDigit((b % 16) * 4 + 0 / 64);
    ValueOfDigit(c % 64);
    Regroup(a, b, c);
    Regroup(a, b, 0);
    Regroup(a, 0, 0);
  }

  lemma PadIsNoDigit()
    ensures Value('=') == None
  {
  }

  lemma DecodeStep(head: string, group: seq<byte>, rest: string, more: seq<byte>)
    requires |head| == 4 && DecodeGroup(head) == Some(group) && DecodeLast(head) == Some(group)
    requires DecodeGroups(rest) == Some(more)
    ensures DecodeGroups(head + rest) == Some(group + more)
  {
    hide DecodeGroup, DecodeLast;
    if rest == "" {
      assert head + rest == head && group + more == group;
    } else {
      assert (head + rest)[..4] == head && (head + rest)[4..] == rest;
    }
  }

  lemma {:induction false} DecodeGroupsEncode(bs: seq<byte>)
    ensures DecodeGroups(Encode(bs)) == Some(bs)
  {
    hide DecodeGroup, DecodeLast, DecodeGroups, Group;
    DecodeShort();
    if |bs| == 1 {
      GroupRoundTrip(bs[0], 0, 0);
      DecodeFour(Encode(bs));
      assert bs == [bs[0]];
    } else if |bs| == 2 {
      GroupRoundTrip(bs[0], bs[1], 0);
      DecodeFour(Encode(bs));
      assert bs == [bs[0], bs[1]];
    } else if |bs| >= 3 {
      GroupRoundTrip(bs[0], bs[1], bs[2]);
      DecodeGroupsEncode(bs[3..]);
      assert bs[..3] == [bs[0], bs[1], bs[2]] && bs[..3] + bs[3..] == bs;
      DecodeStep(Group(bs[0], bs[1], bs[2]), bs[..3], Encode(bs[3..]), bs[3..]);
    }
  }

  lemma DecodeShort()
    ensures DecodeGroups("") == Some([])
  {
  }

  lemma DecodeFour(s: string)
    requires |s| == 4
    ensures DecodeGroups(s) == DecodeLast(s)
  {
  }

  // --- padding ------------------------------------------------------------------------------

  lemma {:induction false} UnpaddedAppend(a: string, b: string)
    requires Unpadded(b) != ""
    ensures Unpadded(a + b) == a + Unpadded(b)
  {
    var n := |b| - 1;
    if b[n] == '=' {
      assert (a + b)[..|a + b| - 1] == a + b[..n];
      UnpaddedAppend(a, b[..n]);
    }
  }

  /** Digits are never padding. */
  lemma UnpaddedDigits(s: string, v: sextet)
    ensures Unpadded(s + [Digit(v)]) == s + [Digit(v)]
    ensures Unpadded(s + [Digit(v)] + "=") == s + [Digit(v)] && Unpadded(s + [Digit(v)] + "==") == s + [Digit(v)]
  {
    hide Digit;
    ValueOfDigit(v);
    var t := s + [Digit(v)];
    assert (t + "=")[..|t|] == t;
    assert (t + "==")[..|t| + 1] == t + "=";
  }

  /** How many padding characters an encoding of so many bytes ends with. */
  function PadLength(n: nat): nat {
    if n % 3 == 0 then 0 else if n % 3 == 1 then 2 else 1
  }

  lemma {:induction false} EncodedLength(bs: seq<byte>)
    ensures |Encode(bs)| % 4 == 0 && (bs != [] ==> |Encode(bs)| >= 4)
  {
    hide Group;
    if |bs| >= 3 {
      EncodedLength(bs[3..]);
    }
  }

  /** An encoding has exactly the padding it needs. */
  lemma {:induction false} EncodedPadding(bs: seq<byte>)
    ensures |Unpadded(Encode(bs))| == |Encode(bs)| - PadLength(|bs|)
    decreases |bs|, 1
  {
    hide Digit, Unpadded;
    if bs == [] {
      UnpaddedIsPrefix("");
    } else if |bs| == 1 {
      UnpaddedDigits([Digit(bs[0] / 4)], (bs[0] % 4) * 16);
      assert Encode(bs) == [Digit(bs[0] / 4)] + [Digit((bs[0] % 4) * 16)] + "==";
    } else if |bs| == 2 {
      var head := [Digit(bs[0] / 4), Digit((bs[0] % 4) * 16 + bs[1] / 16)];
      UnpaddedDigits(head, (bs[1] % 16) * 4);
      assert Encode(bs) == head + [Digit((bs[1] % 16) * 4)] + "=";
    } else {
      EncodedPaddingStep(bs);
    }
  }

  lemma {:induction false} EncodedPaddingStep(bs: seq<byte>)
    requires |bs| >= 3
    ensures |Unpadded(Encode(bs))| == |Encode(bs)| - PadLength(|bs|)
    decreases |bs|, 0
  {
    hide Digit, Unpadded;
    var group, rest := Group(bs[0], bs[1], bs[2]), Encode(bs[3..]);
    assert Encode(bs) == group + rest;
    assert PadLength(|bs|) == PadLength(|bs| - 3);
    if bs[3..] == [] {
      UnpaddedDigits(group[..3], bs[2] % 64);
      assert group + rest == group[..3] + [Digit(bs[2] % 64)];
    } else {
      EncodedPadding(bs[3..]);
      EncodedLength(bs[3..]);
      UnpaddedAppend(group, rest);
    }
  }

  /** Decoding an encoding gives back the bytes. */
  lemma DecodeEncode(bs: seq<byte>)
    ensures Decode(Encode(bs)) == Some(bs)
  {
    hide Encode, DecodeGroups, Unpadded;
    EncodedPadding(bs);
    EncodedLength(bs);
    DecodeGroupsEncode(bs);
    UnpaddedIsPrefix(Encode(bs));
    if PadLength(|bs|) == 0 {
      assert Unpadded(Encode(bs)) == Encode(bs);
    }
  }

  lemma {:induction false} UnpaddedIsPrefix(s: string)
    ensures Unpadded(s) <= s
    ensures Unpadded(s) != s ==> s[|s| - 1] == '='
  {
    if s != "" && s[|s| - 1] == '=' {
      UnpaddedIsPrefix(s[..|s| - 1]);
    }
  }

  lemma {:induction false} UnpaddedMore(s: string, n: nat)
    ensures Unpadded(s + seq(n, i => '=')) == Unpadded(s)
  {
    var pad := seq(n, i => '=');
    if n == 0 {
      assert s + pad == s;
    } else {
      var less := seq(n - 1, i => '=');
      assert (s + pad)[..|s + pad| - 1] == s + less;
      UnpaddedMore(s, n - 1);
    }
  }

  /** Surplus padding after an encoding is ignored exactly when the encoding itself needs none. */
  lemma SurplusPaddingExactly(bs: seq<byte>, n: nat)
    requires n > 0 && bs != []
    ensures Decode(Encode(bs) + seq(n, i => '=')) == Some(bs) <==> |bs| % 3 == 0
  {
    hide Encode, DecodeGroups, Unpadded;
    var s := Encode(bs) + seq(n, i => '=');
    UnpaddedMore(Encode(bs), n);
    EncodedPadding(bs);
    EncodedLength(bs);
    DecodeGroupsEncode(bs);
    UnpaddedIsPrefix(Encode(bs));
    if PadLength(|bs|) == 0 {
      assert Unpadded(Encode(bs)) == Encode(bs);
    } else {
      PaddingEndsIt(Encode(bs), n);
    }
  }

  /** Nothing may follow a group that is padded. */
  lemma {:induction false} PaddingEndsIt(s: string, n: nat)
    requires |s| >= 4 && |s| % 4 == 0 && s[|s| - 1] == '=' && n > 0
    ensures DecodeGroups(s + seq(n, i => '=')) == None
    decreases |s|
  {
    hide DecodeGroup, DecodeLast;
    var t := s + seq(n, i => '=');
    assert |t| > 4;
    if |s| == 4 {
      assert t[..4] == s;
      PaddedIsNoGroup(s);
    } else {
      PaddingEndsIt(s[4..], n);
      assert t[4..] == s[4..] + seq(n, i => '=');
    }
  }

  lemma PaddedIsNoGroup(s: string)
    requires |s| == 4 && s[3] == '='
    ensures DecodeGroup(s) == None
  {
    PadIsNoDigit();
  }
}
