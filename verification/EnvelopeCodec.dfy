/** The sealed-envelope codec of `context_crypto.py`: printer, parser, recogniser and the
    length-prefixed associated data. Sealing itself is an opaque ciphertext. */
module EnvelopeCodec {
  import opened Text
  import opened Bytes
  import opened Base64
  import Utf8

  const MAGIC := "afctx1:"
  const VER: byte := 1
  const SALT_LEN: nat := 16
  const NONCE_LEN: nat := 12
  const TAG_LEN: nat := 16
  const WRITER_MAX: nat := 0xFFFF
  const MIN_ENVELOPE: nat := 56

  /** The writer is its encoded bytes. */
  datatype Envelope = Envelope(ver: byte, kid: byte, writer: seq<byte>, ts: int,
                               salt: seq<byte>, nonce: seq<byte>, ct: seq<byte>)

  datatype PackResult = Packed(bytes: seq<byte>) | WriterTooLong | TimestampOverflow

  /** `BadWriter` is the decoding error the source does not turn into one of its own; the others
      are corrupt envelopes. */
  datatype ParseResult = Parsed(env: Envelope) | NoArmor | BadBase64 | TooShort | Truncated
                       | BadWriter

  // --- printer and parser --------------------------------------------------------------------

  function Pack(e: Envelope): PackResult {
    if |e.writer| > WRITER_MAX then WriterTooLong
    else if e.ts < 0 || e.ts >= Pow256(8) then TimestampOverflow
    else Packed([e.ver, e.kid] + ToBytes(|e.writer|, 2) + e.writer + ToBytes(e.ts, 8) + e.salt + e.nonce + e.ct)
  }

  /** The writer length an envelope declares in its header. */
  function DeclaredWriter(env: seq<byte>): nat
    requires |env| >= 4
  {
    FromBytes(env[2..4])
  }

  function ParseBytes(env: seq<byte>): ParseResult {
    if |env| < MIN_ENVELOPE then TooShort
    else
      var wlen := DeclaredWriter(env);
      var off := 4;
      if off + wlen + 8 + SALT_LEN + NONCE_LEN + TAG_LEN > |env| then Truncated
      else
        var writer := env[off..off + wlen];
        if !Utf8.Decodable(writer) then BadWriter
        else
          var off1 := off + wlen;
          var ts := FromBytes(env[off1..off1 + 8]);
          var off2 := off1 + 8;
          var salt := env[off2..off2 + SALT_LEN];
          var off3 := off2 + SALT_LEN;
          var nonce := env[off3..off3 + NONCE_LEN];
          Parsed(Envelope(env[0], env[1], writer, ts, salt, nonce, env[off3 + NONCE_LEN..]))
  }

  function Armor(env: seq<byte>): string {
    MAGIC + Encode(env)
  }

  predicate HasMagic(value: string) {
    |value| >= |MAGIC| && value[..|MAGIC|] == MAGIC
  }

  /** `_parse` */
  function Parse(value: string): ParseResult {
    if !HasMagic(value) then NoArmor
    else
      var env := Decode(value[|MAGIC|..]);
      if env == None then BadBase64 else ParseBytes(env.value)
  }

  /** `is_sealed` */
  predicate IsSealed(value: string) {
    && HasMagic(value)
    && var env := Decode(value[|MAGIC|..]);
       env.Some? && |env.value| >= MIN_ENVELOPE && env.value[0] == VER
  }

  datatype Meta = Meta(ver: byte, kid: byte, writer: seq<byte>, ts: int)

  /** `Undecodable` stands for the escaping decoding error. */
  datatype MetaResult = Readable(meta: Meta) | Corrupt | Undecodable

  /** `envelope_meta`: the header fields, without a key. */
  function EnvelopeMeta(value: string): MetaResult {
    match Parse(value)
    case Parsed(e) => Readable(Meta(e.ver, e.kid, e.writer, e.ts))
    case BadWriter => Undecodable
    case _ => Corrupt
  }

  /** What the sealer guarantees of the fields it packs; its writer is an encoded text. */
  predicate WellFormed(e: Envelope) {
    && Utf8.Decodable(e.writer)
    && |e.writer| <= WRITER_MAX && 0 <= e.ts < Pow256(8)
    && |e.salt| == SALT_LEN && |e.nonce| == NONCE_LEN && |e.ct| >= TAG_LEN
  }

  /** Parsing a packed envelope returns every field. */
  lemma ParsePack(e: Envelope)
    requires WellFormed(e)
    ensures Pack(e).Packed? && ParseBytes(Pack(e).bytes) == Parsed(e)
  {
    hide ToBytes, FromBytes, Pow256;
    var env, w := Pack(e).bytes, |e.writer|;
    TwoBytes();
    assert env[2..4] == ToBytes(w, 2);
    FromTo(w, 2);
    assert env[4..4 + w] == e.writer;
    assert env[4 + w..12 + w] == ToBytes(e.ts, 8);
    FromTo(e.ts, 8);
    assert env[12 + w..28 + w] == e.salt;
    assert env[28 + w..40 + w] == e.nonce;
    assert env[40 + w..] == e.ct;
  }

  lemma TwoBytes()
    ensures Pow256(2) == 65536
  {
    assert Pow256(2) == 256 * Pow256(1) && Pow256(1) == 256 * Pow256(0);
  }

  /** Whatever bytes the parser accepts, packing its result returns the same bytes. */
  lemma PackParse(env: seq<byte>)
    requires ParseBytes(env).Parsed?
    ensures WellFormed(ParseBytes(env).env) && Pack(ParseBytes(env).env) == Packed(env)
  {
    var e := ParseBytes(env).env;
    var w := |e.writer|;
    TwoBytes();
    ToFrom(env[2..4]);
    ToFrom(env[4 + w..12 + w]);
    hide ToBytes, FromBytes, Pow256;
    assert [e.ver, e.kid] + ToBytes(w, 2) == env[..4];
    SlicesJoin(env, w);
  }

  /** Header, writer, timestamp, salt, nonce and ciphertext are the whole envelope. */
  lemma SlicesJoin(env: seq<byte>, w: nat)
    requires 40 + w <= |env|
    ensures env[..4] + env[4..4 + w] + env[4 + w..12 + w] + env[12 + w..28 + w] + env[28 + w..40 + w] + env[40 + w..]
         == env
  {
    assert env[..4] + env[4..4 + w] == env[..4 + w];
    assert env[..4 + w] + env[4 + w..12 + w] == env[..12 + w];
    assert env[..12 + w] + env[12 + w..28 + w] == env[..28 + w];
    assert env[..28 + w] + env[28 + w..40 + w] == env[..40 + w];
    assert env[..40 + w] + env[40 + w..] == env;
  }

  lemma ArmorDecodes(env: seq<byte>)
    ensures HasMagic(Armor(env)) && Decode(Armor(env)[|MAGIC|..]) == Some(env)
  {
    DecodeEncode(env);
    assert Armor(env)[|MAGIC|..] == Encode(env);
  }

  /** Through the armor: a sealed envelope is recognised and every field comes back. */
  lemma ArmoredRoundTrip(e: Envelope)
    requires WellFormed(e)
    ensures Pack(e).Packed? && Parse(Armor(Pack(e).bytes)) == Parsed(e)
    ensures IsSealed(Armor(Pack(e).bytes)) <==> e.ver == VER
    ensures EnvelopeMeta(Armor(Pack(e).bytes)) == Readable(Meta(e.ver, e.kid, e.writer, e.ts))
  {
    ParsePack(e);
    ArmorDecodes(Pack(e).bytes);
  }

  /** Sealing under any writer id that is short enough and reading the header back gives its bytes. */
  lemma AnyWriterRoundTrips(e: Envelope, writer: string)
    requires e.writer == Utf8.Encode(writer) && |e.writer| <= WRITER_MAX && 0 <= e.ts < Pow256(8)
    requires |e.salt| == SALT_LEN && |e.nonce| == NONCE_LEN && |e.ct| >= TAG_LEN
    ensures WellFormed(e) && Parse(Armor(Pack(e).bytes)) == Parsed(e)
  {
    Utf8.EncodedIsDecodable(writer);
    ArmoredRoundTrip(e);
  }

  /** The writer bytes an envelope declares, when it is long enough to hold them. */
  function WriterIn(env: seq<byte>): seq<byte>
    requires |env| >= 4 && 4 + DeclaredWriter(env) <= |env|
  {
    env[4..4 + DeclaredWriter(env)]
  }

  /** The recogniser looks at neither the declared writer length nor the writer: a recognised
      value parses exactly when the envelope is long enough for the writer it declares and the
      writer's bytes can be decoded. */
  lemma SealedParsesExactly(value: string)
    requires IsSealed(value)
    ensures var env := Decode(value[|MAGIC|..]).value;
            Parse(value).Parsed? <==> MIN_ENVELOPE + DeclaredWriter(env) <= |env| && Utf8.Decodable(WriterIn(env))
    ensures Parse(value).Parsed? ==> Parse(value).env.ver == VER
  {
  }

  /** An envelope of the known version that declares one writer byte. */
  function OneByteWriter(writer: seq<byte>, rest: nat): seq<byte> {
    [VER, 0] + ToBytes(1, 2) + writer + seq(rest, i => 0)
  }

  /** Some recognised values do not parse: one is too short for its writer, and one is complete
      but its writer is the single byte 0xFF, on which decoding raises. */
  lemma SealedButUnparsable()
    ensures IsSealed(Armor(OneByteWriter([], 52))) && Parse(Armor(OneByteWriter([], 52))) == Truncated
    ensures IsSealed(Armor(OneByteWriter([0xFF], 52))) && Parse(Armor(OneByteWriter([0xFF], 52))) == BadWriter
  {
    var short, bad := OneByteWriter([], 52), OneByteWriter([0xFF], 52);
    DeclaresOne([], 52);
    DeclaresOne([0xFF], 52);
    assert bad[4..5] == [0xFF];
    hide OneByteWriter, Decode, Armor;
    ArmorDecodes(short);
    ArmorDecodes(bad);
  }

  lemma DeclaresOne(writer: seq<byte>, rest: nat)
    ensures var env := OneByteWriter(writer, rest);
            env[0] == VER && |env| == 4 + |writer| + rest && DeclaredWriter(env) == 1
  {
    TwoBytes();
    FromTo(1, 2);
    assert OneByteWriter(writer, rest)[2..4] == ToBytes(1, 2);
  }

  // --- associated data --------------------------------------------------------------------------

  /** `_lp` */
  function Framed(b: seq<byte>): seq<byte> {
    ToBytes(|b|, 4) + b
  }

  /** `str(int(ts))` in ASCII. */
  function DecimalInt(n: int): seq<byte> {
    if n < 0 then [45] + Decimal(-n) else Decimal(n)
  }

  /** `_aad` */
  function Aad(ver: byte, kid: byte, key: seq<byte>, writer: seq<byte>, ts: int): seq<byte> {
    Framed([ver]) + (Framed([kid]) + (Framed(key) + (Framed(writer) + Framed(DecimalInt(ts)))))
  }

  lemma {:induction false} DecimalInjective(a: nat, b: nat)
    requires Decimal(a) == Decimal(b)
    ensures a == b
  {
    var d := Decimal(a);
    if a >= 10 && b >= 10 {
      assert d[..|d| - 1] == Decimal(a / 10) && d[..|d| - 1] == Decimal(b / 10);
      DecimalInjective(a / 10, b / 10);
      assert d[|d| - 1] == 48 + a % 10 == 48 + b % 10;
    } else if a < 10 && b < 10 {
      assert d[0] == 48 + a == 48 + b;
    }
  }

  lemma DecimalIntInjective(a: int, b: int)
    requires DecimalInt(a) == DecimalInt(b)
    ensures a == b
  {
    var d := DecimalInt(a);
    if a < 0 && b < 0 {
      assert d[1..] == Decimal(-a) && d[1..] == Decimal(-b);
      DecimalInjective(-a, -b);
    } else if a >= 0 && b >= 0 {
      DecimalInjective(a, b);
    }
  }

  /** A frame can be cut off the front of a longer string in only one way. */
  lemma FramedPrefix(a: seq<byte>, b: seq<byte>, x: seq<byte>, y: seq<byte>)
    requires Framed(a) + x == Framed(b) + y && |a| < Pow256(4) && |b| < Pow256(4)
    ensures a == b && x == y
  {
    var all := Framed(a) + x;
    assert all[..4] == ToBytes(|a|, 4) && all[..4] == ToBytes(|b|, 4);
    FromTo(|a|, 4);
    FromTo(|b|, 4);
    assert all[4..4 + |a|] == a && all[4..4 + |a|] == b;
    assert all[4 + |a|..] == x && all[4 + |a|..] == y;
  }

  /** The associated data determines every field it binds: no two headers or storage keys
      share it, however their bytes are split. */
  lemma AadInjective(v1: byte, k1: byte, key1: seq<byte>, w1: seq<byte>, t1: int,
                     v2: byte, k2: byte, key2: seq<byte>, w2: seq<byte>, t2: int)
    requires Aad(v1, k1, key1, w1, t1) == Aad(v2, k2, key2, w2, t2)
    requires |key1| < Pow256(4) && |key2| < Pow256(4) && |w1| < Pow256(4) && |w2| < Pow256(4)
    requires |DecimalInt(t1)| < Pow256(4) && |DecimalInt(t2)| < Pow256(4)
    ensures v1 == v2 && k1 == k2 && key1 == key2 && w1 == w2 && t1 == t2
  {
    hide Framed, DecimalInt;
    OneFits();
    var d1, d2 := Framed(DecimalInt(t1)), Framed(DecimalInt(t2));
    FramedPrefix([v1], [v2], Framed([k1]) + (Framed(key1) + (Framed(w1) + d1)),
                 Framed([k2]) + (Framed(key2) + (Framed(w2) + d2)));
    assert v1 == [v1][0] == [v2][0];
    FramedPrefix([k1], [k2], Framed(key1) + (Framed(w1) + d1), Framed(key2) + (Framed(w2) + d2));
    assert k1 == [k1][0] == [k2][0];
    FramedPrefix(key1, key2, Framed(w1) + d1, Framed(w2) + d2);
    FramedPrefix(w1, w2, d1, d2);
    assert d1 + [] == d1 && d2 + [] == d2;
    FramedPrefix(DecimalInt(t1), DecimalInt(t2), [], []);
    DecimalIntInjective(t1, t2);
  }

  lemma OneFits()
    ensures 1 < Pow256(4)
  {
    assert Pow256(4) == 256 * Pow256(3);
  }
}
