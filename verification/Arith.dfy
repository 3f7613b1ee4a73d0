/** Division, remainder and byte-string facts used by the codecs. */
module Arith {
  import opened Common

  type Byte = b: int | 0 <= b < 256

  /** A product under a name, so that proofs can treat it as a whole. */
  function Mul(a: int, b: int): int { a * b }

  lemma MulRules(a: int, b: int, c: int)
    ensures Mul(a, b) == Mul(b, a)
    ensures Mul(Mul(a, b), c) == Mul(a, Mul(b, c))
    ensures Mul(a + b, c) == Mul(a, c) + Mul(b, c)
    ensures Mul(a - b, c) == Mul(a, c) - Mul(b, c)
  {
  }

  lemma MulSign(a: int, b: int)
    requires a >= 0 && b >= 0
    ensures Mul(a, b) >= 0
    ensures a >= 1 ==> Mul(a, b) >= b
    ensures b >= 1 ==> Mul(a, b) >= a
  {
  }

  lemma MulMono(a: int, b: int, c: int)
    requires a <= b && c >= 0
    ensures Mul(a, c) <= Mul(b, c)
  {
    MulRules(b, a, c);
    MulSign(b - a, c);
  }

  lemma SmallMultiple(k: int, d: int)
    requires d > 0 && -d < Mul(k, d) < d
    ensures k == 0
  {
    if k >= 1 {
      MulMono(1, k, d);
    } else if k <= -1 {
      MulMono(k, -1, d);
    }
  }

  lemma Euclid(x: int, d: int)
    requires d > 0
    ensures x == Mul(x / d, d) + x % d && 0 <= x % d < d
    ensures x >= 0 ==> x / d >= 0
  {
  }

  lemma DivUnique(x: int, d: int, q: int, r: int)
    requires d > 0 && x == Mul(q, d) + r && 0 <= r < d
    ensures x / d == q && x % d == r
  {
    hide Mul;
    Euclid(x, d);
    MulRules(x / d, q, d);
    SmallMultiple(x / d - q, d);
  }

  lemma DivDiv(x: nat, a: int, b: int)
    requires a > 0 && b > 0
    ensures Mul(a, b) > 0 && x / a / b == x / Mul(a, b)
  {
    hide Mul;
    var q, r := x / a, x % a;
    Euclid(x, a);
    Euclid(q, b);
    var p, s := q / b, q % b;
    // x == (p * b + s) * a + r == p * (a * b) + (s * a + r)
    MulRules(Mul(p, b), s, a);
    MulRules(p, b, a);
    MulRules(a, b, 0);
    Remainder(s, a, b, r);
    MulSign(a, b);
    DivUnique(x, Mul(a, b), p, Mul(s, a) + r);
  }

  /** A two-digit remainder stays below the product of the radices. */
  lemma Remainder(s: int, a: int, b: int, r: int)
    requires 0 <= s < b && 0 <= r < a
    ensures 0 <= Mul(s, a) + r < Mul(a, b)
  {
    hide Mul;
    MulSign(s, a);
    MulMono(s + 1, b, a);
    MulRules(s, 1, a);
    MulRules(a, b, 0);
    MulOne(a);
  }

  lemma MulOne(a: int)
    ensures Mul(1, a) == a && Mul(a, 1) == a
  {
  }

  /** Adding a multiple of the divisor does not change the remainder. */
  lemma ModAdd(c: int, d: int, x: int)
    requires d > 0
    ensures (Mul(c, d) + x) % d == x % d
  {
    hide Mul;
    Euclid(x, d);
    MulRules(c, x / d, d);
    DivUnique(Mul(c, d) + x, d, c + x / d, x % d);
  }

  lemma Pow2Mul(m: nat, n: nat)
    ensures Pow2(m + n) == Mul(Pow2(m), Pow2(n))
  {
    Pow2Add(m, n);
  }

  /** Right shift: the register loses its k lowest bits. */
  function Shr(x: nat, k: nat): (r: nat) {
    Euclid(x, Pow2(k));
    x / Pow2(k)
  }

  lemma ShrShr(x: nat, j: nat, k: nat)
    ensures Shr(Shr(x, j), k) == Shr(x, j + k)
  {
    hide Mul, Pow2;
    Pow2Mul(j, k);
    DivDiv(x, Pow2(j), Pow2(k));
  }

  lemma ShrBasics(x: nat)
    ensures Shr(x, 0) == x && Shr(x, 5) == x / 32 && Shr(x, 8) == x / 256
  {
    Pow2Small();
    assert Pow2(0) == 1;
  }

  lemma ShrBound(x: nat, j: nat, k: nat)
    requires x < Pow2(j + k)
    ensures Shr(x, j) < Pow2(k)
  {
    hide Mul, Pow2;
    Pow2Mul(j, k);
    Euclid(x, Pow2(j));
    if Shr(x, j) >= Pow2(k) {
      MulMono(Pow2(k), Shr(x, j), Pow2(j));
      MulRules(Pow2(j), Pow2(k), 0);
    }
  }

  /** The number a byte string denotes, most significant byte first. */
  function BigEndian(s: seq<Byte>): nat {
    if s == [] then 0 else BigEndian(s[..|s| - 1]) * 256 + s[|s| - 1]
  }

  /** The m-byte string denoting a number. */
  function ToBytes(x: nat, m: nat): (s: seq<Byte>)
    ensures |s| == m
    decreases m
  {
    if m == 0 then [] else ToBytes(x / 256, m - 1) + [x % 256]
  }

  lemma {:induction false} BytesRoundTrip(s: seq<Byte>)
    ensures ToBytes(BigEndian(s), |s|) == s
  {
    if s == [] {
    } else {
      var init, last := s[..|s| - 1], s[|s| - 1];
      BytesRoundTrip(init);
      DivUnique(BigEndian(s), 256, BigEndian(init), last);
      assert s == init + [last];
    }
  }

  lemma {:induction false} ToBytesRead(x: nat, m: nat)
    requires x < Pow2(8 * m)
    ensures BigEndian(ToBytes(x, m)) == x
  {
    if m == 0 {
    } else {
      assert Pow2(8) == 256 by { Pow2Small(); }
      Pow2Add(8 * (m - 1), 8);
      hide Pow2;
      ToBytesRead(x / 256, m - 1);
      var s := ToBytes(x, m);
      assert s[..m - 1] == ToBytes(x / 256, m - 1) && s[m - 1] == x % 256;
      hide ToBytes;
    }
  }

  lemma {:induction false} BigEndianBound(s: seq<Byte>)
    ensures BigEndian(s) < Pow2(8 * |s|)
  {
    if s == [] {
    } else {
      BigEndianBound(s[..|s| - 1]);
      Pow2Add(8 * (|s| - 1), 8);
      assert Pow2(8) == 256 by { Pow2Small(); }
    }
  }

  lemma Pow2Small()
    ensures Pow2(3) == 8 && Pow2(5) == 32 && Pow2(8) == 256 && Pow2(16) == 65536
  {
    assert Pow2(3) == 2 * 2 * 2;
    assert Pow2(5) == 2 * 2 * Pow2(3);
    assert Pow2(8) == 2 * 2 * 2 * Pow2(5);
    Pow2Add(8, 8);
  }

  lemma Pow2At64()
    ensures Pow2(64) == U64
  {
    Pow2Small();
    hide Pow2;
    Pow2Add(16, 16);
    Pow2Add(32, 32);
  }

  /** Dropping the last bytes is an integer division. */
  lemma {:induction false} BigEndianPrefix(s: seq<Byte>, i: nat)
    requires i <= |s|
    ensures Shr(BigEndian(s), 8 * (|s| - i)) == BigEndian(s[..i])
    decreases |s|
  {
    ShrBasics(BigEndian(s));
    if i == |s| {
      assert s[..i] == s;
    } else {
      var k := |s| - 1;
      BigEndianPrefix(s[..k], i);
      assert s[..k][..i] == s[..i];
      DivUnique(BigEndian(s), 256, BigEndian(s[..k]), s[k]);
      ShrShr(BigEndian(s), 8, 8 * (k - i));
    }
  }
}
