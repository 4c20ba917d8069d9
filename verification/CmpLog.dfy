/**
 The cmplog operand log: a fixed byte map shared by the C driver, which appends
 comparison operand pairs, and the engine, which arms it, runs one input and reads
 the pairs back.

   [u32 armed][u32 count] then 2048 records of [u8 len_a][u8 len_b][a: 32][b: 32]
 */
module CmpLog {
  import opened Bits

  type Bytes = seq<byte>

  const CMP_CAP: nat := 2048
  const OPMAX: nat := 32
  const REC: nat := 2 + 2 * OPMAX
  const CMP_BYTES: nat := 8 + CMP_CAP * REC

  datatype Pair = Pair(a: Bytes, b: Bytes)

  function Min(x: nat, y: nat): nat { if x <= y then x else y }

  // -------------------------------------------------------- what the bytes mean

  /** Where record `i` starts. */
  function Off(i: nat): (off: nat)
    ensures i < CMP_CAP ==> off + REC <= CMP_BYTES
  {
    8 + 66 * i
  }

  function Count(map_: Bytes): nat
    requires |map_| == CMP_BYTES
  {
    FromLE(map_[4..8])
  }

  /** Record `i`, with the operand lengths clamped as the engine clamps them. */
  function PairAt(map_: Bytes, i: nat): Pair
    requires |map_| == CMP_BYTES && i < CMP_CAP
  {
    var off := Off(i);
    Pair(map_[off + 2..off + 2 + Min(map_[off], OPMAX)],
         map_[off + 2 + OPMAX..off + 2 + OPMAX + Min(map_[off + 1], OPMAX)])
  }

  ghost function Decode(map_: Bytes): (ps: seq<Pair>)
    requires |map_| == CMP_BYTES
    ensures |ps| == Min(Count(map_), CMP_CAP)
  {
    seq(Min(Count(map_), CMP_CAP), i requires 0 <= i < CMP_CAP => PairAt(map_, i))
  }

  function Clamp(p: Pair): (r: Pair)
    ensures |r.a| == Min(|p.a|, OPMAX) && |r.b| == Min(|p.b|, OPMAX) && r.a <= p.a && r.b <= p.b
  {
    Pair(p.a[..Min(|p.a|, OPMAX)], p.b[..Min(|p.b|, OPMAX)])
  }

  /** What a log holding `ps` holds after one more push. */
  function Pushed(ps: seq<Pair>, p: Pair): seq<Pair>
  {
    if |ps| < CMP_CAP then ps + [Clamp(p)] else ps
  }

  function PushedAll(ps: seq<Pair>, pushes: seq<Pair>): seq<Pair>
    decreases |pushes|
  {
    if pushes == [] then ps
    else Pushed(PushedAll(ps, pushes[..|pushes| - 1]), pushes[|pushes| - 1])
  }

  /** From an empty log, any run of pushes leaves the first 2048 of them, clamped, in
      order. */
  lemma {:induction false} PushedAllIsPrefix(pushes: seq<Pair>)
    ensures var r := PushedAll([], pushes);
            |r| == Min(|pushes|, CMP_CAP)
            && forall i :: 0 <= i < |r| ==> r[i] == Clamp(pushes[i])
    decreases |pushes|
  {
    if pushes != [] {
      PushedAllIsPrefix(pushes[..|pushes| - 1]);
    }
  }

  lemma PairAtUnchanged(m0: Bytes, m1: Bytes, i: nat)
    requires |m0| == |m1| == CMP_BYTES && i < CMP_CAP
    requires forall k :: Off(i) <= k < Off(i) + REC ==> m0[k] == m1[k]
    ensures PairAt(m0, i) == PairAt(m1, i)
  {
    var o := Off(i);
    assert m0[o] == m1[o] && m0[o + 1] == m1[o + 1];
    assert PairAt(m0, i).a == PairAt(m1, i).a;
    assert PairAt(m0, i).b == PairAt(m1, i).b;
  }

  lemma PairWritten(map_: Bytes, i: nat, q: Pair)
    requires |map_| == CMP_BYTES && i < CMP_CAP && |q.a| <= OPMAX && |q.b| <= OPMAX
    requires map_[Off(i)] == |q.a| && map_[Off(i) + 1] == |q.b|
    requires forall k :: 0 <= k < |q.a| ==> map_[Off(i) + 2 + k] == q.a[k]
    requires forall k :: 0 <= k < |q.b| ==> map_[Off(i) + 2 + OPMAX + k] == q.b[k]
    ensures PairAt(map_, i) == q
  {
    assert PairAt(map_, i).a == q.a;
    assert PairAt(map_, i).b == q.b;
  }

  /** What a full push leaves behind, as bytes, reads back as one more pair. */
  lemma DecodeAfterPush(m0: Bytes, m1: Bytes, p: Pair)
    requires |m0| == |m1| == CMP_BYTES && Count(m0) < CMP_CAP
    requires Count(m1) == Count(m0) + 1
    requires forall i :: 8 <= i < Off(Count(m0)) ==> m1[i] == m0[i]
    requires PairAt(m1, Count(m0)) == Clamp(p)
    ensures Decode(m1) == Pushed(Decode(m0), p)
  {
    var n := Count(m0);
    forall i | 0 <= i < n
      ensures PairAt(m1, i) == PairAt(m0, i)
    {
      assert Off(i) + REC <= Off(n);
      PairAtUnchanged(m0, m1, i);
    }
  }

  // -------------------------------------------------------------- the shared map

  class CmpMap {
    const m: array<byte>

    ghost predicate Valid() { m.Length == CMP_BYTES }

    constructor ()
      ensures Valid() && fresh(m)
    {
      m := new byte[CMP_BYTES];
    }

    /** The byte-copy loop of `bhf_cmp_push`. */
    method Copy(at: nat, src: Bytes)
      requires at + |src| <= m.Length
      modifies m
      ensures forall k :: 0 <= k < |src| ==> m[at + k] == src[k]
      ensures forall k :: 0 <= k < m.Length && !(at <= k < at + |src|) ==> m[k] == old(m[k])
    {
      for i := 0 to |src|
        invariant forall k :: 0 <= k < i ==> m[at + k] == src[k]
        invariant forall k :: 0 <= k < m.Length && !(at <= k < at + i) ==> m[k] == old(m[k])
      {
        m[at + i] := src[i];
      }
    }

    /** The `count` word, as both sides read it. */
    method LoadCount() returns (count: nat)
      requires Valid()
      ensures count == Count(m[..])
    {
      OrDecode4IsFromLE(m[4..8]);
      count := OrDecode4(m[4], m[5], m[6], m[7]);
      assert m[..][4..8] == m[4..8];
    }

    method StoreCount(count: nat)
      requires Valid() && count <= CMP_CAP
      modifies m
      ensures Count(m[..]) == count
      ensures forall k :: 0 <= k < m.Length && !(4 <= k < 8) ==> m[k] == old(m[k])
    {
      m[4] := count % 256;
      m[5] := (count / 0x100) % 256;
      m[6] := (count / 0x1_0000) % 256;
      m[7] := (count / 0x100_0000) % 256;
      CountWritten(m[..], count);
    }

    method WriteRecord(i: nat, q: Pair)
      requires Valid() && i < CMP_CAP && |q.a| <= OPMAX && |q.b| <= OPMAX
      modifies m
      ensures PairAt(m[..], i) == q
      ensures forall k :: 0 <= k < m.Length && !(Off(i) <= k < Off(i) + REC) ==> m[k] == old(m[k])
    {
      var off := Off(i);
      m[off] := |q.a|;
      m[off + 1] := |q.b|;
      Copy(off + 2, q.a);
      Copy(off + 2 + OPMAX, q.b);
      PairWritten(m[..], i, q);
    }

    /** `bhf_cmp_push` on operands `p.a` and `p.b`. */
    method Push(p: Pair)
      requires Valid()
      modifies m
      ensures m[..4] == old(m[..4])
      ensures Decode(m[..]) == Pushed(old(Decode(m[..])), p)
      ensures old(Count(m[..])) >= CMP_CAP ==> m[..] == old(m[..])
    {
      ghost var m0 := m[..];
      var count := LoadCount();
      if count >= CMP_CAP { return; }
      WriteRecord(count, Clamp(p));
      ghost var mid := m[..];
      StoreCount(count + 1);
      PairAtUnchanged(mid, m[..], count);
      DecodeAfterPush(m0, m[..], p);
    }

    /** A run of pushes, as one execution of the target makes them. */
    method PushAll(pushes: seq<Pair>)
      requires Valid()
      modifies m
      ensures m[..4] == old(m[..4])
      ensures Decode(m[..]) == PushedAll(old(Decode(m[..])), pushes)
    {
      ghost var start := Decode(m[..]);
      for i := 0 to |pushes|
        invariant m[..4] == old(m[..4])
        invariant Decode(m[..]) == PushedAll(start, pushes[..i])
      {
        Push(pushes[i]);
        assert pushes[..i + 1][..i] == pushes[..i];
      }
      assert pushes[..|pushes|] == pushes;
    }

    /** `bhf_cmp_armed`. */
    method Armed() returns (armed: bool)
      requires Valid()
      ensures armed <==> m[0] != 0 || m[1] != 0 || m[2] != 0 || m[3] != 0
    {
      OrIsZero(m[0], m[1]);
      OrIsZero(BitOr(m[0], m[1]), m[2]);
      OrIsZero(BitOr(BitOr(m[0], m[1]), m[2]), m[3]);
      armed := BitOr(BitOr(BitOr(m[0], m[1]), m[2]), m[3]) != 0;
    }

    /** `bhf_cmp_int`: an unequal pair of nonzero integers, as `width` bytes each. */
    method CmpInt(a: nat, b: nat, width: nat)
      requires Valid()
      modifies m
      ensures m[..4] == old(m[..4])
      ensures Decode(m[..]) ==
              if m[..4] == [0, 0, 0, 0] || a == b || a == 0 || b == 0 then old(Decode(m[..]))
              else Pushed(old(Decode(m[..])), Pair(LE(a, Min(width, 8)), LE(b, Min(width, 8))))
    {
      var armed := Armed();
      assert m[..4] == [m[0], m[1], m[2], m[3]];
      if !armed || a == b || a == 0 || b == 0 { return; }
      var w := Min(width, 8);
      Push(Pair(LE(a, w), LE(b, w)));
    }

    /** The engine's `arm`: set `armed`, zero `count`. */
    method Arm()
      requires Valid()
      modifies m
      ensures m[..4] == [1, 0, 0, 0] && Decode(m[..]) == []
      ensures m[8..] == old(m[8..])
    {
      m[0] := 1;
      for i := 1 to 8
        invariant m[0] == 1 && forall k :: 1 <= k < i ==> m[k] == 0
        invariant m[8..] == old(m[8..])
      {
        m[i] := 0;
      }
      assert m[..][4..8] == LE(0, 4);
      CountWritten(m[..], 0);
    }

    method ReadPair(i: nat) returns (p: Pair)
      requires Valid() && i < CMP_CAP
      ensures p == PairAt(m[..], i)
    {
      var off := Off(i);
      var la, lb := Min(m[off], OPMAX), Min(m[off + 1], OPMAX);
      p := Pair(m[off + 2..off + 2 + la], m[off + 2 + OPMAX..off + 2 + OPMAX + lb]);
    }

    /** The engine's `read_log`: decode, skip records with two empty operands, keep the
        first of each repeated pair. */
    method ReadLog() returns (log: seq<Pair>)
      requires Valid()
      ensures log == FirstOccurrences(Decode(m[..]))
    {
      var count := LoadCount();
      count := Min(count, CMP_CAP);
      log := [];
      ghost var ps := Decode(m[..]);
      for i := 0 to count
        invariant log == FirstOccurrences(ps[..i])
      {
        var p := ReadPair(i);
        FirstOccurrencesStep(ps, i);
        if (p.a != [] || p.b != []) && p !in log { log := log + [p]; }
      }
      assert ps[..count] == ps;
    }

    /** The engine's `capture_cmplog` around one execution making `pushes`. */
    method Capture(pushes: seq<Pair>) returns (log: seq<Pair>)
      requires Valid()
      modifies m
      ensures log == FirstOccurrences(PushedAll([], pushes))
      ensures m[..4] == [0, 0, 0, 0] && Decode(m[..]) == PushedAll([], pushes)
    {
      Arm();
      PushAll(pushes);
      log := ReadLog();
      ghost var kept := m[..];
      for i := 0 to 4
        invariant m[4..] == kept[4..] && forall k :: 0 <= k < i ==> m[k] == 0
      {
        m[i] := 0;
      }
      DecodeOfTail(kept, m[..]);
    }
  }

  lemma OrIsZero(a: nat, b: nat)
    ensures BitOr(a, b) == 0 <==> a == 0 && b == 0
  {
  }

  /** The armed word is no part of the log. */
  lemma DecodeOfTail(a: Bytes, b: Bytes)
    requires |a| == |b| == CMP_BYTES && a[4..] == b[4..]
    ensures Decode(a) == Decode(b)
  {
    assert a[4..8] == a[4..][..4] == b[4..8];
    forall i: nat | i < CMP_CAP
      ensures PairAt(a, i) == PairAt(b, i)
    {
      SameRecord(a, b, i);
    }
  }

  lemma SameRecord(a: Bytes, b: Bytes, i: nat)
    requires |a| == |b| == CMP_BYTES && a[4..] == b[4..] && i < CMP_CAP
    ensures PairAt(a, i) == PairAt(b, i)
  {
    forall k | 4 <= k < CMP_BYTES
      ensures a[k] == b[k]
    {
      assert a[k] == a[4..][k - 4] && b[k] == b[4..][k - 4];
    }
  }

  lemma CountWritten(map_: Bytes, count: nat)
    requires |map_| == CMP_BYTES && count <= CMP_CAP
    requires map_[4] == count % 256 && map_[5] == (count / 0x100) % 256
    requires map_[6] == (count / 0x1_0000) % 256 && map_[7] == (count / 0x100_0000) % 256
    ensures Count(map_) == count
  {
    Pow256At4();
    FromLEOfLE(count, 4);
    assert LE(count, 4) == [count % 256] + LE(count / 256, 3);
    assert LE(count / 256, 3) == [count / 256 % 256] + LE(count / 256 / 256, 2);
    assert LE(count / 256 / 256, 2) == [count / 256 / 256 % 256] + LE(count / 256 / 256 / 256, 1);
    assert map_[4..8] == LE(count, 4);
  }

  /** The pairs of `ps` with some content, each kept where it first occurs. */
  function FirstOccurrences(ps: seq<Pair>): (log: seq<Pair>)
    decreases |ps|
  {
    if ps == [] then [] else
    var log, p := FirstOccurrences(ps[..|ps| - 1]), ps[|ps| - 1];
    if (p.a != [] || p.b != []) && p !in log then log + [p] else log
  }

  lemma FirstOccurrencesStep(ps: seq<Pair>, i: nat)
    requires i < |ps|
    ensures var log, p := FirstOccurrences(ps[..i]), ps[i];
            FirstOccurrences(ps[..i + 1]) == if (p.a != [] || p.b != []) && p !in log then log + [p] else log
  {
    assert ps[..i + 1][..i] == ps[..i];
  }

  /** The captured log is the pushed pairs as a set: of the first 2048 pushes it holds
      each nonempty clamped pair exactly once, and nothing else. */
  lemma CaptureIsComplete(pushes: seq<Pair>)
    ensures var log := FirstOccurrences(PushedAll([], pushes));
            && (forall i, j :: 0 <= i < j < |log| ==> log[i] != log[j])
            && (forall p :: p in log <==>
                  (p.a != [] || p.b != [])
                  && exists i :: 0 <= i < Min(|pushes|, CMP_CAP) && p == Clamp(pushes[i]))
  {
    var ps := PushedAll([], pushes);
    PushedAllIsPrefix(pushes);
    FirstOccurrencesAre(ps);
    forall p
      ensures p in ps <==> exists i :: 0 <= i < Min(|pushes|, CMP_CAP) && p == Clamp(pushes[i])
    {
      if p in ps {
        var i :| 0 <= i < |ps| && ps[i] == p;
        assert p == Clamp(pushes[i]);
      }
      if i :| 0 <= i < Min(|pushes|, CMP_CAP) && p == Clamp(pushes[i]) {
        assert ps[i] == p;
      }
    }
  }

  /** `p` first occurs in `ps` at `i`. */
  ghost predicate FirstAt(ps: seq<Pair>, p: Pair, i: nat) { i < |ps| && ps[i] == p && p !in ps[..i] }

  /** The log keeps the order in which its pairs first occurred, at `p` and at `q`. */
  lemma {:induction false} FirstOccurrencesInOrder(ps: seq<Pair>, i: nat, j: nat) returns (p: nat, q: nat)
    requires i < j < |FirstOccurrences(ps)|
    ensures p < q && FirstAt(ps, FirstOccurrences(ps)[i], p) && FirstAt(ps, FirstOccurrences(ps)[j], q)
    decreases |ps|
  {
    var n := |ps| - 1;
    var init := ps[..n];
    var before := FirstOccurrences(init);
    if j < |before| {
      p, q := FirstOccurrencesInOrder(init, i, j);
      FirstInPrefix(ps, n, before[i], p);
      FirstInPrefix(ps, n, before[j], q);
    } else {
      FirstOccurrencesAre(init);
      assert before[i] in init;
      p := FirstIndex(init, before[i]);
      q := n;
      FirstInPrefix(ps, n, before[i], p);
      assert ps[n] !in init;
    }
  }

  lemma FirstInPrefix(ps: seq<Pair>, n: nat, x: Pair, i: nat)
    requires n <= |ps| && FirstAt(ps[..n], x, i)
    ensures FirstAt(ps, x, i)
  {
    assert ps[..n][..i] == ps[..i];
  }

  lemma {:induction false} FirstIndex(ps: seq<Pair>, x: Pair) returns (i: nat)
    requires x in ps
    ensures FirstAt(ps, x, i)
  {
    var n := |ps| - 1;
    if x in ps[..n] {
      i := FirstIndex(ps[..n], x);
      FirstInPrefix(ps, n, x, i);
    } else {
      i := n;
    }
  }

  lemma {:induction false} FirstOccurrencesAre(ps: seq<Pair>)
    ensures var log := FirstOccurrences(ps);
            && (forall i, j :: 0 <= i < j < |log| ==> log[i] != log[j])
            && (forall p :: p in log <==> p in ps && (p.a != [] || p.b != []))
    decreases |ps|
  {
    if ps != [] {
      var init, last := ps[..|ps| - 1], ps[|ps| - 1];
      FirstOccurrencesAre(init);
      assert ps == init + [last];
    }
  }
}
