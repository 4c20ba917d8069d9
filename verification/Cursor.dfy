/**
 The cursor decoders that turn input bytes into typed arguments: the C runtime's
 byte loops and the Python runtime's slice-and-pad `struct` reads. Both zero-fill
 when the input runs out.
 */
module Cursor {
  import opened Bits

  type Bytes = seq<byte>

  const TWO31: int := 0x8000_0000
  const TWO32: int := 0x1_0000_0000
  const TWO63: int := 0x8000_0000_0000_0000
  const TWO64: int := 0x1_0000_0000_0000_0000

  function Min(a: nat, b: nat): nat { if a <= b then a else b }

  /** Two's-complement reading of an unsigned value below `2 * half`. */
  function Signed(v: nat, half: nat): int { if v >= half then v - 2 * half else v }

  function Unsigned(v: int, half: nat): int { if v < 0 then v + 2 * half else v }

  /** A typed draw; bounds of `Bounded` are `int32_t`, those of `Length` are `size_t`. */
  datatype Draw = U8 | I32 | I64 | Bounded(lo: int, hi: int) | Length(lo: int, hi: int)

  /** The draws the C code gives a meaning to: no signed overflow, no zero divisor. */
  predicate Defined(d: Draw)
  {
    match d
    case Bounded(lo, hi) => -TWO31 <= lo < TWO31 && -TWO31 <= hi < TWO31 && -TWO31 <= hi - lo < TWO31
    case Length(lo, hi) => 0 <= lo < TWO64 && 0 <= hi < TWO64 && hi - lo < TWO64 - 1
    case _ => true
  }

  datatype Drawn = Drawn(value: int, pos: nat)

  /** The unsigned little-endian value of up to `n` bytes from `pos`. */
  function Word(data: Bytes, pos: nat, n: nat): nat
    requires pos <= |data|
  {
    FromLE(data[pos..pos + Min(n, |data| - pos)])
  }

  // ---------------------------------------------------------------------- results

  function CDraw(data: Bytes, pos: nat, d: Draw): (r: Drawn)
    requires pos <= |data| && Defined(d)
    ensures pos <= r.pos <= |data|
  {
    var left := |data| - pos;
    match d
    case U8 => if left == 0 then Drawn(0, pos) else Drawn(data[pos], pos + 1)
    case I32 => Drawn(Signed(Word(data, pos, 4), TWO31), pos + Min(4, left))
    case I64 => Drawn(Signed(Word(data, pos, 8), TWO63), pos + Min(8, left))
    case Bounded(lo, hi) =>
      Drawn(if hi <= lo then lo else lo + Word(data, pos, 4) % (hi - lo + 1), pos + Min(4, left))
    case Length(lo, hi) =>
      Drawn(if hi <= lo then lo else lo + Word(data, pos, 8) % (hi - lo + 1), pos + Min(8, left))
  }

  function Zeros(n: nat): (z: Bytes)
    ensures |z| == n && forall i :: 0 <= i < n ==> z[i] == 0
  {
    seq(n, _ => 0)
  }

  /** `_take(n)`: the available bytes, padded with zeros to `n`. */
  function Padded(data: Bytes, pos: nat, n: nat): (b: Bytes)
    requires pos <= |data|
    ensures |b| == n
  {
    var avail := Min(n, |data| - pos);
    data[pos..pos + avail] + Zeros(n - avail)
  }

  function PyDraw(data: Bytes, pos: nat, d: Draw): (r: Drawn)
    requires pos <= |data| && Defined(d)
    ensures pos <= r.pos <= |data|
  {
    var left := |data| - pos;
    match d
    case U8 => if left == 0 then Drawn(0, pos) else Drawn(data[pos], pos + 1)
    case I32 => Drawn(Signed(FromLE(Padded(data, pos, 4)), TWO31), pos + Min(4, left))
    case I64 => Drawn(Signed(FromLE(Padded(data, pos, 8)), TWO63), pos + Min(8, left))
    case Bounded(lo, hi) =>
      if hi <= lo then Drawn(lo, pos)
      else Drawn(lo + FromLE(Padded(data, pos, 4)) % (hi - lo + 1), pos + Min(4, left))
    case Length(lo, hi) =>
      if hi <= lo then Drawn(lo, pos)
      else Drawn(lo + FromLE(Padded(data, pos, 4)) % (hi - lo + 1), pos + Min(4, left))
  }

  // -------------------------------------------------------------------- agreement

  lemma PaddedIsWord(data: Bytes, pos: nat, n: nat)
    requires pos <= |data|
    ensures FromLE(Padded(data, pos, n)) == Word(data, pos, n)
  {
    var avail := Min(n, |data| - pos);
    FromLEZeroPad(data[pos..pos + avail], Zeros(n - avail));
  }

  /** When the two runtimes decode a draw alike: always, except that C consumes bytes for
      an empty range and draws eight bytes, not four, for a length. */
  predicate AgreeAt(data: Bytes, pos: nat, d: Draw)
    requires pos <= |data|
  {
    match d
    case Bounded(lo, hi) => lo < hi || pos == |data|
    case Length(lo, hi) => if lo < hi then |data| - pos <= 4 else pos == |data|
    case _ => true
  }

  lemma DrawsAgreeIff(data: Bytes, pos: nat, d: Draw)
    requires pos <= |data| && Defined(d)
    ensures CDraw(data, pos, d) == PyDraw(data, pos, d) <==> AgreeAt(data, pos, d)
  {
    PaddedIsWord(data, pos, 4);
    PaddedIsWord(data, pos, 8);
  }

  /** Everything a sequence of draws returns, with the position after each. */
  function CTrace(data: Bytes, pos: nat, ds: seq<Draw>): (t: seq<Drawn>)
    requires pos <= |data| && forall d :: d in ds ==> Defined(d)
    ensures |t| == |ds|
    decreases |ds|
  {
    if ds == [] then [] else
    var r := CDraw(data, pos, ds[0]);
    [r] + CTrace(data, r.pos, ds[1..])
  }

  function PyTrace(data: Bytes, pos: nat, ds: seq<Draw>): (t: seq<Drawn>)
    requires pos <= |data| && forall d :: d in ds ==> Defined(d)
    ensures |t| == |ds|
    decreases |ds|
  {
    if ds == [] then [] else
    var r := PyDraw(data, pos, ds[0]);
    [r] + PyTrace(data, r.pos, ds[1..])
  }

  /** Where draw `i` of the C run starts. */
  function CPosBefore(data: Bytes, pos: nat, ds: seq<Draw>, i: nat): (p: nat)
    requires pos <= |data| && i <= |ds| && forall d :: d in ds ==> Defined(d)
    ensures pos <= p <= |data|
    decreases i
  {
    if i == 0 then pos else CPosBefore(data, CDraw(data, pos, ds[0]).pos, ds[1..], i - 1)
  }

  /** Every whole run of draws, from any position of any input, is the same in both
      languages if and only if each draw is of the agreeing kind where it happens. */
  lemma {:induction false} TracesAgreeIff(data: Bytes, pos: nat, ds: seq<Draw>)
    requires pos <= |data| && forall d :: d in ds ==> Defined(d)
    ensures CTrace(data, pos, ds) == PyTrace(data, pos, ds)
            <==> forall i :: 0 <= i < |ds| ==> AgreeAt(data, CPosBefore(data, pos, ds, i), ds[i])
    decreases |ds|
  {
    if ds != [] {
      var d, rest := ds[0], ds[1..];
      var c, p := CDraw(data, pos, d), PyDraw(data, pos, d);
      DrawsAgreeIff(data, pos, d);
      assert CPosBefore(data, pos, ds, 0) == pos;
      if AgreeAt(data, pos, d) {
        TracesAgreeIff(data, c.pos, rest);
        TraceTail(CTrace(data, pos, ds), PyTrace(data, pos, ds), c,
                  CTrace(data, c.pos, rest), PyTrace(data, c.pos, rest));
        forall i | 0 <= i < |rest|
          ensures CPosBefore(data, pos, ds, i + 1) == CPosBefore(data, c.pos, rest, i) && ds[i + 1] == rest[i]
        {
        }
        assert forall i :: 1 <= i < |ds| ==> ds[i] == rest[i - 1]
                                             && CPosBefore(data, pos, ds, i) == CPosBefore(data, c.pos, rest, i - 1);
      } else {
        assert CTrace(data, pos, ds)[0] != PyTrace(data, pos, ds)[0];
      }
    }
  }

  lemma TraceTail(a: seq<Drawn>, b: seq<Drawn>, x: Drawn, s: seq<Drawn>, t: seq<Drawn>)
    requires a == [x] + s && b == [x] + t
    ensures a == b <==> s == t
  {
    assert a[1..] == s && b[1..] == t;
  }

  /** Positions never move back and never pass the end. */
  lemma {:induction false} CTraceMonotone(data: Bytes, pos: nat, ds: seq<Draw>, i: nat, j: nat)
    requires pos <= |data| && i <= j <= |ds| && forall d :: d in ds ==> Defined(d)
    ensures pos <= CPosBefore(data, pos, ds, i) <= CPosBefore(data, pos, ds, j) <= |data|
    decreases i
  {
    if i > 0 {
      CTraceMonotone(data, CDraw(data, pos, ds[0]).pos, ds[1..], i - 1, j - 1);
    }
  }

  // ------------------------------------------------------------------ the C cursor

  lemma WordBound(n: nat)
    requires n <= 8
    ensures Pow256(n) <= TWO64 && (n <= 4 ==> Pow256(n) <= TWO32)
  {
    Pow256At4();
    assert Pow256(8) == 0x1_0000_0000 * Pow256(4) by {
      assert Pow256(8) == 256 * Pow256(7) == 0x1_0000 * Pow256(6) == 0x100_0000 * Pow256(5);
    }
    PowMonotone(n, 8);
    if n <= 4 { PowMonotone(n, 4); }
  }

  lemma {:induction false} PowMonotone(m: nat, n: nat)
    requires m <= n
    ensures Pow256(m) <= Pow256(n)
    decreases n - m
  {
    if m < n { PowMonotone(m, n - 1); }
  }

  lemma SignedRoundTrip(v: nat, half: nat)
    requires v < 2 * half
    ensures Unsigned(Signed(v, half), half) == v && 0 <= Signed(v, half) + half && Signed(v, half) < half
  {
  }

  lemma GatherStep(data: Bytes, start: nat, i: nat)
    requires start + i < |data|
    ensures BitOr(FromLE(data[start..start + i]), Shl(data[start + i], 8 * i)) == FromLE(data[start..start + i + 1])
  {
    OrAppendsByte(data[start..start + i], data[start + i]);
    assert data[start..start + i] + [data[start + i]] == data[start..start + i + 1];
  }

  // ------------------------------------------------------------ what draws can give

  lemma WordOf(n: nat, width: nat, tail: Bytes)
    requires n < Pow256(width)
    ensures Word(LE(n, width) + tail, 0, width) == n
  {
    FromLEOfLE(n, width);
    assert (LE(n, width) + tail)[0..width] == LE(n, width);
  }

  /** Every integer is drawn from its own two's-complement bytes, whatever follows. */
  lemma IntegersRoundTrip(v: int, tail: Bytes)
    ensures 0 <= v < 256 ==> CDraw([v] + tail, 0, Draw.U8) == Drawn(v, 1)
    ensures -TWO31 <= v < TWO31 ==> CDraw(LE(Unsigned(v, TWO31), 4) + tail, 0, Draw.I32) == Drawn(v, 4)
    ensures -TWO63 <= v < TWO63 ==> CDraw(LE(Unsigned(v, TWO63), 8) + tail, 0, Draw.I64) == Drawn(v, 8)
  {
    assert Pow256(4) == 0x1_0000 * Pow256(2) == TWO32;
    assert Pow256(8) == 0x1_0000 * Pow256(6) == TWO32 * Pow256(4);
    if -TWO31 <= v < TWO31 { WordOf(Unsigned(v, TWO31), 4, tail); }
    if -TWO63 <= v < TWO63 { WordOf(Unsigned(v, TWO63), 8, tail); }
  }

  /** The range a bounded draw reduces its word to, and the width of that word. */
  function RangeOf(d: Draw): int { if d.Bounded? || d.Length? then d.hi - d.lo + 1 else 1 }

  function WidthOf(d: Draw): nat { if d.Bounded? then 4 else 8 }

  predicate IsRange(d: Draw) { (d.Bounded? || d.Length?) && d.lo < d.hi && Defined(d) }

  lemma DivParts(w: nat, r: nat)
    requires r > 0
    ensures 0 <= w % r < r && w == r * (w / r) + w % r
  {
  }

  /** A bounded draw stays within its bounds and goes round them with the word it reads. */
  lemma BoundedDraws(data: Bytes, pos: nat, d: Draw)
    requires pos <= |data| && IsRange(d)
    ensures var v, w, r := CDraw(data, pos, d).value, Word(data, pos, WidthOf(d)), RangeOf(d);
            d.lo <= v <= d.hi && w == r * (w / r) + (v - d.lo)
  {
    DivParts(Word(data, pos, WidthOf(d)), RangeOf(d));
  }

  /** Every value between the bounds can be drawn. */
  lemma BoundedReaches(d: Draw, v: int, tail: Bytes)
    requires IsRange(d) && d.lo <= v <= d.hi
    ensures CDraw(LE(v - d.lo, WidthOf(d)) + tail, 0, d) == Drawn(v, WidthOf(d))
  {
    assert Pow256(4) == 0x1_0000 * Pow256(2) == TWO32;
    assert Pow256(8) == 0x1_0000 * Pow256(6) == TWO32 * Pow256(4);
    WordOf(v - d.lo, WidthOf(d), tail);
    DivModUnique(v - d.lo, RangeOf(d), 0, v - d.lo);
  }

  class CCursor {
    const data: Bytes
    var pos: nat

    ghost predicate Valid() reads this { pos <= |data| }

    constructor (data: Bytes)
      ensures Valid() && this.data == data && pos == 0
    {
      this.data, pos := data, 0;
    }

    function Remaining(): nat reads this requires Valid() { |data| - pos }

    method U8() returns (v: int)
      requires Valid()
      modifies this
      ensures Valid() && Drawn(v, pos) == old(CDraw(data, pos, Draw.U8))
    {
      if Remaining() == 0 { return 0; }
      v := data[pos];
      pos := pos + 1;
    }

    /** The byte loop shared by `bhf_i32` and `bhf_i64`. */
    method Gather(width: nat) returns (v: nat)
      requires Valid() && width <= 8
      modifies this
      ensures Valid() && v == old(Word(data, pos, width)) && pos == old(pos + Min(width, |data| - pos))
      ensures v < TWO64 && (width <= 4 ==> v < TWO32)
    {
      v := 0;
      ghost var start := pos;
      var i := 0;
      while i < width && Remaining() > 0
        invariant Valid() && i <= width && pos == start + i
        invariant v == FromLE(data[start..start + i])
        decreases width - i
      {
        GatherStep(data, start, i);
        v := BitOr(v, Shl(data[pos], 8 * i));
        pos, i := pos + 1, i + 1;
      }
      WordBound(i);
    }

    method I32() returns (v: int)
      requires Valid()
      modifies this
      ensures Valid() && Drawn(v, pos) == old(CDraw(data, pos, Draw.I32))
      ensures Unsigned(v, TWO31) == old(Word(data, pos, 4)) && -TWO31 <= v < TWO31
    {
      var w := Gather(4);
      v := Signed(w, TWO31);
      SignedRoundTrip(w, TWO31);
    }

    method I64() returns (v: int)
      requires Valid()
      modifies this
      ensures Valid() && Drawn(v, pos) == old(CDraw(data, pos, Draw.I64))
      ensures Unsigned(v, TWO63) == old(Word(data, pos, 8)) && -TWO63 <= v < TWO63
    {
      var w := Gather(8);
      v := Signed(w, TWO63);
      SignedRoundTrip(w, TWO63);
    }

    /** `bhf_bounded_i32`; draws before it looks at the bounds. */
    method BoundedI32(lo: int, hi: int) returns (v: int)
      requires Valid() && Defined(Bounded(lo, hi))
      modifies this
      ensures Valid() && Drawn(v, pos) == old(CDraw(data, pos, Bounded(lo, hi)))
      ensures lo <= hi ==> lo <= v <= hi
    {
      var range := (Unsigned(hi - lo, TWO31) + 1) % TWO32;
      var i := I32();
      var raw := Unsigned(i, TWO31);
      if hi <= lo { return lo; }
      v := lo + raw % range;
    }

    method BoundedLength(lo: int, hi: int) returns (v: int)
      requires Valid() && Defined(Length(lo, hi))
      modifies this
      ensures Valid() && Drawn(v, pos) == old(CDraw(data, pos, Length(lo, hi)))
      ensures lo <= hi ==> lo <= v <= hi
    {
      var range := (hi - lo + 1) % TWO64;
      var i := I64();
      var raw := Unsigned(i, TWO63);
      if hi <= lo { return lo; }
      v := lo + raw % range;
    }
  }

  // ------------------------------------------------------------- the Python cursor

  class PyCursor {
    const data: Bytes
    var pos: nat

    ghost predicate Valid() reads this { pos <= |data| }

    constructor (data: Bytes)
      ensures Valid() && this.data == data && pos == 0
    {
      this.data, pos := data, 0;
    }

    function Remaining(): nat reads this { if pos < |data| then |data| - pos else 0 }

    method Take(n: nat) returns (b: Bytes)
      requires Valid()
      modifies this
      ensures Valid() && b == old(Padded(data, pos, n)) && pos == old(pos + Min(n, |data| - pos))
    {
      var avail := Min(n, Remaining());
      b := data[pos..pos + avail];
      pos := pos + avail;
      if avail < n { b := b + Zeros(n - avail); }
    }

    method U8() returns (v: int)
      requires Valid()
      modifies this
      ensures Valid() && Drawn(v, pos) == old(PyDraw(data, pos, Draw.U8))
    {
      if Remaining() == 0 { return 0; }
      v := data[pos];
      pos := pos + 1;
    }

    method I32() returns (v: int)
      requires Valid()
      modifies this
      ensures Valid() && Drawn(v, pos) == old(PyDraw(data, pos, Draw.I32))
      ensures -TWO31 <= v < TWO31
    {
      var b := Take(4);
      WordBound(4);
      SignedRoundTrip(FromLE(b), TWO31);
      v := Signed(FromLE(b), TWO31);
    }

    method I64() returns (v: int)
      requires Valid()
      modifies this
      ensures Valid() && Drawn(v, pos) == old(PyDraw(data, pos, Draw.I64))
      ensures -TWO63 <= v < TWO63
    {
      var b := Take(8);
      WordBound(8);
      SignedRoundTrip(FromLE(b), TWO63);
      v := Signed(FromLE(b), TWO63);
    }

    method BoundedI32(lo: int, hi: int) returns (v: int)
      requires Valid() && Defined(Bounded(lo, hi))
      modifies this
      ensures Valid() && Drawn(v, pos) == old(PyDraw(data, pos, Bounded(lo, hi)))
    {
      if hi <= lo { return lo; }
      var b := Take(4);
      v := lo + FromLE(b) % (hi - lo + 1);
    }

    /** `bounded_length`, which is `bounded_i32` here. */
    method BoundedLength(lo: int, hi: int) returns (v: int)
      requires Valid() && Defined(Length(lo, hi))
      modifies this
      ensures Valid() && Drawn(v, pos) == old(PyDraw(data, pos, Length(lo, hi)))
      ensures lo <= hi ==> lo <= v <= hi
    {
      if hi <= lo { return lo; }
      var b := Take(4);
      v := lo + FromLE(b) % (hi - lo + 1);
    }
  }
}
