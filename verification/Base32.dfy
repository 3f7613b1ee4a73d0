/**
 The streaming base32 encoder behind the TOTP backup codes: a 64-bit shift register that keeps
 shifting bytes in and is allowed to lose its high bits.
 */
module Base32 {
  import opened Common
  import opened Arith

  const ALPHABET: string := "ABCDEFGHIJKLMNOPQRSTUVWXYZ234567"

  /** Characters needed for m bytes: one per started group of five bits. */
  function CodeLength(m: nat): nat { (8 * m + 4) / 5 }

  /** Zero bits appended to fill the last group. */
  function Padding(m: nat): (r: nat)
    ensures r < 5
  {
    5 * CodeLength(m) - 8 * m
  }

  /** The zero-padded bit string, as a number. */
  function Padded(raw: seq<Byte>): (r: nat) {
    MulSign(BigEndian(raw), Pow2(Padding(|raw|)));
    Mul(BigEndian(raw), Pow2(Padding(|raw|)))
  }

  /** The k-th five-bit group of the zero-padded bit string (section 6 of RFC 4648). */
  function Group(raw: seq<Byte>, k: nat): (r: nat)
    requires k < CodeLength(|raw|)
    ensures r < 32
  {
    Shr(Padded(raw), 5 * (CodeLength(|raw|) - 1 - k)) % 32
  }

  /** Unpadded base32, by position. */
  function Base32Of(raw: seq<Byte>): (code: string)
    ensures |code| == CodeLength(|raw|)
  {
    seq(CodeLength(|raw|), k requires 0 <= k < CodeLength(|raw|) => ALPHABET[Group(raw, k)])
  }

  // ---------------------------------------------------------------- the encoder

  /** A group that lies inside a prefix can be read off that prefix. */
  lemma GroupFromPrefix(raw: seq<Byte>, i: nat, k: nat)
    requires i <= |raw| && 5 * (k + 1) <= 8 * i
    ensures k < CodeLength(|raw|)
    ensures Group(raw, k) == Shr(BigEndian(raw[..i]), 8 * i - 5 * (k + 1)) % 32
  {
    hide Mul, Pow2, BigEndian, Shr;
    var m := |raw|;
    var pad, low, tail := Padding(m), 8 * i - 5 * (k + 1), 8 * (m - i);
    assert 5 * (CodeLength(m) - 1 - k) == pad + (tail + low);
    Unpad(raw);
    ShrShr(Padded(raw), pad, tail + low);
    ShrShr(BigEndian(raw), tail, low);
    BigEndianPrefix(raw, i);
  }

  /** Shifting the padding out again leaves the byte string. */
  lemma Unpad(raw: seq<Byte>)
    ensures Shr(Padded(raw), Padding(|raw|)) == BigEndian(raw)
  {
    DivUnique(Padded(raw), Pow2(Padding(|raw|)), BigEndian(raw), 0);
  }

  /** The bits read from the register survive the wrap-around. */
  lemma RegisterKeepsLowBits(x: nat, bits: nat)
    requires bits + 5 <= 64
    ensures Shr(x % U64, bits) % 32 == Shr(x, bits) % 32
  {
    hide Mul, Pow2;
    var y, c, p, h := x % U64, x / U64, Pow2(bits), Pow2(59 - bits);
    Euclid(x, U64);
    Pow2Mul(5, 59 - bits);
    Pow2Mul(64 - bits, bits);
    Pow2At64();
    Pow2Small();
    Euclid(y, p);
    var q, r := y / p, y % p;
    // x == c * (32 * h * p) + (q * p + r) == (c * h * 32 + q) * p + r
    var high := Mul(Mul(c, h), 32);
    MulRules(32, h, 0);
    MulRules(c, h, 32);
    MulRules(c, Pow2(64 - bits), p);
    MulRules(high, q, p);
    DivUnique(x, p, high + q, r);
    ModAdd(Mul(c, h), 32, q);
  }

  /** Shifting a byte in, on the register and on the unbounded number. */
  lemma ShiftIn(buf: nat, x: nat, b: Byte)
    requires buf == x % U64
    ensures buf * 256 % U64 + b == (x * 256 + b) % U64
  {
    var c, d, e := x / U64, buf * 256 / U64, buf * 256 % U64;
    assert x * 256 + b == (256 * c + d) * U64 + (e + b);
    assert e == 256 * (buf - d * (U64 / 256));
    assert e <= U64 - 256;
    DivUnique(x * 256 + b, U64, 256 * c + d, e + b);
  }

  /** The final group: remaining bits shifted up, again only modulo the register. */
  lemma FlushGroup(buf: nat, x: nat, p: nat)
    requires buf == x % U64
    ensures Mul(buf, p) % U64 % 32 == Mul(x, p) % 32
  {
    hide Mul;
    var c, d := x / U64, Mul(buf, p) / U64;
    Euclid(x, U64);
    Euclid(Mul(buf, p), U64);
    // x * p == c * U64 * p + buf * p == (c * p + d) * U64 + buf * p % U64
    MulRules(Mul(c, U64), buf, p);
    MulRules(c, U64, p);
    MulRules(U64, p, 0);
    MulRules(c, p, U64);
    MulRules(Mul(c, p), d, U64);
    var k := Mul(c, p) + d;
    MulRules(k, U64 / 32, 32);
    assert Mul(U64 / 32, 32) == U64 by { Euclid(U64, 32); }
    ModAdd(Mul(k, U64 / 32), 32, Mul(buf, p) % U64);
  }

  /** Register contents after one more byte. */
  lemma ByteIn(raw: seq<Byte>, i: nat, buf: nat)
    requires i < |raw| && buf == BigEndian(raw[..i]) % U64
    ensures buf * 256 % U64 + raw[i] == BigEndian(raw[..i + 1]) % U64
  {
    assert raw[..i + 1][..i] == raw[..i];
    ShiftIn(buf, BigEndian(raw[..i]), raw[i]);
  }

  /** The letter emitted inside the loop. */
  lemma NextLetter(raw: seq<Byte>, i: nat, k: nat, buf: nat, bits: nat)
    requires i <= |raw| && bits + 5 * (k + 1) == 8 * i && bits <= 7
    requires buf == BigEndian(raw[..i]) % U64
    ensures k < CodeLength(|raw|) && ALPHABET[Shr(buf, bits) % 32] == Base32Of(raw)[k]
  {
    hide Mul, Pow2, Shr, BigEndian;
    RegisterKeepsLowBits(BigEndian(raw[..i]), bits);
    GroupFromPrefix(raw, i, k);
  }

  /** The letter emitted by the flush. */
  lemma LastLetter(raw: seq<Byte>, k: nat, buf: nat, bits: nat)
    requires 0 < bits < 5 && bits + 5 * k == 8 * |raw|
    requires buf == BigEndian(raw) % U64
    ensures k + 1 == CodeLength(|raw|)
    ensures ALPHABET[Mul(buf, Pow2(5 - bits)) % U64 % 32] == Base32Of(raw)[k]
  {
    hide Mul, Pow2, Shr, BigEndian;
    FlushGroup(buf, BigEndian(raw), Pow2(5 - bits));
    assert Padding(|raw|) == 5 - bits;
    ShrBasics(Padded(raw));
  }

  /** The encoding loop of the source, on byte strings of any length. */
  method Encode(raw: seq<Byte>) returns (code: string)
    ensures code == Base32Of(raw)
  {
    hide Base32Of, BigEndian, Shr, Pow2, Mul;
    code := "";
    var buf: nat, bits: nat := 0, 0;
    assert buf == BigEndian(raw[..0]) % U64 by { EmptyIsZero(); }
    var i := 0;
    while i < |raw|
      invariant 0 <= i <= |raw|
      invariant bits < 5 && bits + 5 * |code| == 8 * i
      invariant buf == BigEndian(raw[..i]) % U64
      invariant |code| <= CodeLength(|raw|)
      invariant forall k :: 0 <= k < |code| ==> code[k] == Base32Of(raw)[k]
    {
      ByteIn(raw, i, buf);
      buf := buf * 256 % U64 + raw[i];
      bits := bits + 8;
      i := i + 1;
      while bits >= 5
        invariant bits + 5 * |code| == 8 * i && bits <= 12
        invariant |code| <= CodeLength(|raw|)
        invariant forall k :: 0 <= k < |code| ==> code[k] == Base32Of(raw)[k]
      {
        bits := bits - 5;
        NextLetter(raw, i, |code|, buf, bits);
        code := code + [ALPHABET[Shr(buf, bits) % 32]];
      }
    }
    assert raw[..i] == raw;
    if bits > 0 {
      LastLetter(raw, |code|, buf, bits);
      code := code + [ALPHABET[Mul(buf, Pow2(5 - bits)) % U64 % 32]];
    }
  }

  lemma EmptyIsZero()
    ensures BigEndian([]) == 0
  {
  }

  // ---------------------------------------------------------------- decoding

  /** Value of a base32 letter. */
  function DigitOf(c: char): nat {
    if 'A' <= c <= 'Z' then (c - 'A') as nat
    else if '2' <= c <= '7' then (c - '2') as nat + 26
    else 0
  }

  function ValueOf(code: string): nat {
    if code == "" then 0 else ValueOf(code[..|code| - 1]) * 32 + DigitOf(code[|code| - 1])
  }

  /** The bytes denoted by a code: whole bytes only, the left-over bits are padding. */
  function Decode(code: string): seq<Byte> {
    var m := 5 * |code| / 8;
    ToBytes(Shr(ValueOf(code), 5 * |code| - 8 * m), m)
  }

  lemma LetterDigit(d: nat)
    requires d < 32
    ensures DigitOf(ALPHABET[d]) == d
  {
  }

  predicate Spells(code: string, x: nat) {
    forall k :: 0 <= k < |code| ==> code[k] == ALPHABET[Shr(x, 5 * (|code| - 1 - k)) % 32]
  }

  lemma {:induction false} SpelledValue(code: string, x: nat)
    requires Spells(code, x) && x < Pow2(5 * |code|)
    ensures ValueOf(code) == x
    decreases |code|
  {
    hide Pow2, Shr, DigitOf;
    ShrBasics(x);
    if code == "" {
      assert Pow2(0) == 1 by { Pow2Zero(); }
    } else {
      var n := |code| - 1;
      var init := code[..n];
      forall k | 0 <= k < n
        ensures init[k] == ALPHABET[Shr(Shr(x, 5), 5 * (n - 1 - k)) % 32]
      {
        ShrShr(x, 5, 5 * (n - 1 - k));
      }
      ShrBound(x, 5, 5 * n);
      SpelledValue(init, Shr(x, 5));
      LetterDigit(x % 32);
    }
  }

  lemma Pow2Zero()
    ensures Pow2(0) == 1
  {
  }

  lemma PaddedBound(raw: seq<Byte>)
    ensures Padded(raw) < Pow2(5 * CodeLength(|raw|))
  {
    hide Mul, Pow2;
    var p := Pow2(Padding(|raw|));
    BigEndianBound(raw);
    Pow2Mul(8 * |raw|, Padding(|raw|));
    Remainder(BigEndian(raw), p, Pow2(8 * |raw|), 0);
    MulRules(p, Pow2(8 * |raw|), 0);
  }

  /** Decoding an encoded byte string gives it back, whatever its length. */
  lemma DecodeEncode(raw: seq<Byte>)
    ensures Decode(Base32Of(raw)) == raw
  {
    hide Mul, Pow2, Shr, BigEndian, ValueOf;
    var code := Base32Of(raw);
    PaddedBound(raw);
    assert Spells(code, Padded(raw));
    SpelledValue(code, Padded(raw));
    assert 5 * |code| / 8 == |raw|;
    Unpad(raw);
    BytesRoundTrip(raw);
  }

  /** Different seeds get different codes; a ten-byte seed gets sixteen letters of the alphabet. */
  lemma CodesAreDistinct(a: seq<Byte>, b: seq<Byte>)
    ensures Base32Of(a) == Base32Of(b) ==> a == b
    ensures |a| == 10 ==> |Base32Of(a)| == 16
    ensures forall c :: c in Base32Of(a) ==> c in ALPHABET
  {
    DecodeEncode(a);
    DecodeEncode(b);
  }
}
