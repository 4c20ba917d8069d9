/**
 Bytes, little-endian integers and the bitwise operators of the C and Python
 sources, defined on unbounded naturals so that every machine width has to be
 written out where the sources rely on it.
 */
module Bits {

  type byte = x: int | 0 <= x < 256

  function Pow2(n: nat): (r: nat)
    ensures r >= 1
  {
    if n == 0 then 1 else 2 * Pow2(n - 1)
  }

  function Pow256(n: nat): (r: nat)
    ensures r >= 1
  {
    if n == 0 then 1 else 256 * Pow256(n - 1)
  }

  /** `a << k`. */
  function Shl(a: nat, k: nat): nat
  {
    if k == 0 then a else 2 * Shl(a, k - 1)
  }

  /** `a & b`. */
  function BitAnd(a: nat, b: nat): nat
  {
    if a == 0 || b == 0 then 0
    else (if a % 2 == 1 && b % 2 == 1 then 1 else 0) + 2 * BitAnd(a / 2, b / 2)
  }

  /** `a | b`. */
  function BitOr(a: nat, b: nat): nat
  {
    if a == 0 then b else if b == 0 then a
    else (if a % 2 == 1 || b % 2 == 1 then 1 else 0) + 2 * BitOr(a / 2, b / 2)
  }

  /** `a ^ b`. */
  function BitXor(a: nat, b: nat): nat
  {
    if a == 0 then b else if b == 0 then a
    else (if a % 2 != b % 2 then 1 else 0) + 2 * BitXor(a / 2, b / 2)
  }

  /** The `k` low bytes of `n`, least significant first. */
  function LE(n: nat, k: nat): (s: seq<byte>)
    ensures |s| == k
  {
    if k == 0 then [] else [n % 256] + LE(n / 256, k - 1)
  }

  /** The integer a little-endian byte string denotes. */
  function FromLE(s: seq<byte>): (n: nat)
    ensures n < Pow256(|s|)
  {
    if s == [] then 0 else s[0] + 256 * FromLE(s[1..])
  }

  lemma {:induction false} FromLEOfLE(n: nat, k: nat)
    requires n < Pow256(k)
    ensures FromLE(LE(n, k)) == n
  {
    if k > 0 {
      FromLEOfLE(n / 256, k - 1);
      assert LE(n, k)[1..] == LE(n / 256, k - 1);
    }
  }

  lemma {:induction false} LEOfFromLE(s: seq<byte>)
    ensures LE(FromLE(s), |s|) == s
  {
    if s != [] {
      LEOfFromLE(s[1..]);
      assert (s[0] + 256 * FromLE(s[1..])) / 256 == FromLE(s[1..]);
      assert s == [s[0]] + s[1..];
    }
  }

  lemma ShlByte(a: nat, n: nat)
    ensures Shl(a, 8 * (n + 1)) == 256 * Shl(a, 8 * n)
  {
    var m := 8 * n;
    assert Shl(a, m + 8) == 2 * Shl(a, m + 7) == 4 * Shl(a, m + 6) == 8 * Shl(a, m + 5) == 16 * Shl(a, m + 4);
    assert Shl(a, m + 4) == 2 * Shl(a, m + 3) == 4 * Shl(a, m + 2) == 8 * Shl(a, m + 1) == 16 * Shl(a, m);
  }

  lemma {:induction false} FromLEAppend(s: seq<byte>, b: byte)
    ensures FromLE(s + [b]) == FromLE(s) + Shl(b, 8 * |s|)
  {
    if s == [] {
      assert s + [b] == [b];
      assert FromLE([b][1..]) == 0;
    } else {
      var t := s[1..];
      FromLEAppend(t, b);
      assert (s + [b])[1..] == t + [b];
      ShlByte(b, |t|);
    }
  }

  lemma {:induction false} ShlZero(k: nat)
    ensures Shl(0, k) == 0
  {
    if k > 0 { ShlZero(k - 1); }
  }

  /** Zero bytes above the top do not change the value. */
  lemma {:induction false} FromLEZeroPad(s: seq<byte>, z: seq<byte>)
    requires forall i :: 0 <= i < |z| ==> z[i] == 0
    ensures FromLE(s + z) == FromLE(s)
    decreases |z|
  {
    if z == [] {
      assert s + z == s;
    } else {
      var m := z[..|z| - 1];
      FromLEZeroPad(s, m);
      FromLEAppend(s + m, 0);
      ShlZero(8 * |s + m|);
      assert s + z == (s + m) + [0];
    }
  }

  lemma {:induction false} OrDisjoint(a: nat, c: nat, k: nat)
    requires a < Pow2(k)
    ensures BitOr(a, Shl(c, k)) == a + Shl(c, k)
  {
    if k > 0 && a > 0 {
      OrDisjoint(a / 2, c, k - 1);
    }
  }

  /** An operand below `2^k` leaves the higher bits of the other alone. */
  lemma {:induction false} XorLow(q: nat, r: nat, b: nat, k: nat)
    requires r < Pow2(k) && b < Pow2(k)
    ensures BitXor(Shl(q, k) + r, b) == Shl(q, k) + BitXor(r, b)
  {
    if k > 0 {
      XorLow(q, r / 2, b / 2, k - 1);
      var a := Shl(q, k) + r;
      assert a / 2 == Shl(q, k - 1) + r / 2 && a % 2 == r % 2;
      XorHalves(a, b);
      XorHalves(r, b);
    }
  }

  /** `^` works on the lowest bit and on the others apart. */
  lemma XorHalves(x: nat, y: nat)
    ensures BitXor(x, y) == (if x % 2 != y % 2 then 1 else 0) + 2 * BitXor(x / 2, y / 2)
  {
    if x == 0 {
      assert BitXor(0, y / 2) == y / 2;
    } else if y == 0 {
      assert BitXor(x / 2, 0) == x / 2;
    }
  }

  lemma {:induction false} XorBound(x: nat, y: nat, k: nat)
    requires x < Pow2(k) && y < Pow2(k)
    ensures BitXor(x, y) < Pow2(k)
  {
    if k > 0 {
      XorBound(x / 2, y / 2, k - 1);
      XorHalves(x, y);
    }
  }

  /** One operand and the result determine the other. */
  lemma {:induction false} XorCancels(p: nat, a: nat, b: nat)
    requires BitXor(p, a) == BitXor(p, b)
    ensures a == b
    decreases a + b
  {
    if a > 0 || b > 0 {
      XorHalves(p, a);
      XorHalves(p, b);
      XorCancels(p / 2, a / 2, b / 2);
    }
  }

  /** `(a >> 1) ^ b` tells the order of two different numbers. */
  lemma {:induction false} XorShifted(a: nat, b: nat)
    requires BitXor(a / 2, b) == BitXor(b / 2, a)
    ensures a == b
    decreases a + b
  {
    if a > 0 || b > 0 {
      XorHalves(a / 2, b);
      XorHalves(b / 2, a);
      XorShifted(a / 2, b / 2);
    }
  }

  lemma XorByte(q: nat, r: byte, b: byte)
    ensures BitXor(256 * q + r, b) == 256 * q + BitXor(r, b)
  {
    assert Pow2(8) == 16 * Pow2(4) == 256;
    ShlByte(q, 0);
    XorLow(q, r, b, 8);
  }

  lemma {:induction false} Pow256IsPow2(n: nat)
    ensures Pow256(n) == Pow2(8 * n)
  {
    if n > 0 {
      Pow256IsPow2(n - 1);
      var m := 8 * (n - 1);
      assert Pow2(m + 8) == 2 * Pow2(m + 7) == 4 * Pow2(m + 6) == 8 * Pow2(m + 5) == 16 * Pow2(m + 4);
      assert Pow2(m + 4) == 2 * Pow2(m + 3) == 4 * Pow2(m + 2) == 8 * Pow2(m + 1) == 16 * Pow2(m);
    }
  }

  /** `n & (2 p - 1)` from the same mask one bit shorter. */
  lemma AndOdd(n: nat, p: nat, mask: nat)
    requires n > 0 && p > 0 && mask == 2 * p - 1
    ensures BitAnd(n, mask) == n % 2 + 2 * BitAnd(n / 2, p - 1)
  {
    assert mask / 2 == p - 1 && mask % 2 == 1;
  }

  /** `n & (2^k - 1)` is the remainder. */
  lemma {:induction false} MaskIsMod(n: nat, k: nat, p: nat, mask: nat)
    requires p == Pow2(k) && mask == p - 1
    ensures BitAnd(n, mask) == n % p
  {
    if n == 0 {
      assert 0 % p == 0;
    } else if k > 0 {
      var half := Pow2(k - 1);
      MaskIsMod(n / 2, k - 1, half, half - 1);
      AndOdd(n, half, mask);
      HalvedMod(n, half, p);
    }
  }

  lemma HalvedMod(n: nat, p: nat, d: nat)
    requires p > 0 && d == 2 * p
    ensures n % d == n % 2 + 2 * ((n / 2) % p)
  {
    var q, r := (n / 2) / p, (n / 2) % p;
    assert n / 2 == p * q + r;
    assert n == (2 * p) * q + (2 * r + n % 2) by { assert 2 * (p * q) == (2 * p) * q; }
    DivModUnique(n, 2 * p, q, 2 * r + n % 2);
  }

  lemma DivModUnique(n: int, d: int, q: int, r: int)
    requires d > 0 && 0 <= r < d && n == d * q + r
    ensures n / d == q && n % d == r
  {
    var q', r' := n / d, n % d;
    var k := q - q';
    Distribute(d, q, q');
    if k >= 1 {
      AtLeastOne(d, k);
    } else if k <= -1 {
      AtLeastOne(d, -k);
      Distribute(d, 0, k);
    }
  }

  lemma Distribute(d: int, x: int, y: int)
    ensures d * (x - y) == d * x - d * y
  {
  }

  lemma AtLeastOne(d: int, k: int)
    requires d > 0 && k >= 1
    ensures d * k >= d
  {
  }

  /** `v |= byte << (8 * i)` on the bytes already collected appends one more. */
  lemma OrAppendsByte(s: seq<byte>, b: byte)
    ensures BitOr(FromLE(s), Shl(b, 8 * |s|)) == FromLE(s + [b])
  {
    Pow256IsPow2(|s|);
    OrDisjoint(FromLE(s), b, 8 * |s|);
    FromLEAppend(s, b);
  }

  /** The four-term decode `b0 | b1 << 8 | b2 << 16 | b3 << 24`. */
  function OrDecode4(b0: byte, b1: byte, b2: byte, b3: byte): nat
  {
    BitOr(BitOr(BitOr(b0, Shl(b1, 8)), Shl(b2, 16)), Shl(b3, 24))
  }

  lemma OrDecode4IsFromLE(s: seq<byte>)
    requires |s| == 4
    ensures OrDecode4(s[0], s[1], s[2], s[3]) == FromLE(s)
  {
    assert FromLE(s[..1]) == s[0] + 256 * FromLE(s[..1][1..]);
    OrAppendsByte(s[..1], s[1]);
    OrAppendsByte(s[..2], s[2]);
    OrAppendsByte(s[..3], s[3]);
    assert s[..1] + [s[1]] == s[..2] && s[..2] + [s[2]] == s[..3] && s[..3] + [s[3]] == s;
  }

  lemma Pow256At4()
    ensures Pow256(4) == 0x1_0000_0000
  {
    assert Pow256(4) == 256 * Pow256(3) == 0x1_0000 * Pow256(2) == 0x100_0000 * Pow256(1);
  }
}
