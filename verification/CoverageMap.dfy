/**
 The shared edge-coverage maps: the Python agent's edge-hash counters and the C
 runtime's guard bitmap with its hit-count map.
 */
module CoverageMap {
  import opened Bits

  const COV_BITS: nat := 0x1_0000
  const COV_MASK: nat := 0xFFFF
  const TWO32: nat := 0x1_0000_0000

  /** A byte counter that stops at 255. */
  function Saturated(v: byte, n: nat): byte { if v + n <= 255 then v + n else 255 }

  function Masked(n: nat): (c: nat)
    ensures c < COV_BITS
  {
    SixteenBits();
    MaskIsMod(n, 16, COV_BITS, COV_MASK);
    BitAnd(n, COV_MASK)
  }

  // ------------------------------------------------------------ the Python edge map

  /** The cell an executed block hits after `prev`, and the `prev` it leaves. */
  function EdgeCell(prev: nat, block: nat): (c: nat)
    ensures c < COV_BITS
  {
    Masked(BitXor(prev, block))
  }

  function NextPrev(block: nat): nat { Masked(block / 2) }

  lemma MaskedIs(n: nat)
    ensures Masked(n) == n % COV_BITS
  {
    SixteenBits();
    MaskIsMod(n, 16, COV_BITS, COV_MASK);
  }

  lemma SixteenBits()
    ensures Pow2(16) == COV_BITS
  {
    assert Pow2(16) == 0x10 * Pow2(12) == 0x100 * Pow2(8) == 0x1000 * Pow2(4) == 0x1_0000;
  }

  lemma SmallMod(n: nat, m: nat)
    requires n < m
    ensures n % m == n
  {
  }

  lemma MaskedSmall(n: nat)
    requires n < COV_BITS
    ensures Masked(n) == n
  {
    MaskedIs(n);
    SmallMod(n, COV_BITS);
  }

  lemma CellOf(prev: nat, block: nat)
    requires prev < COV_BITS && block < COV_BITS
    ensures EdgeCell(prev, block) == BitXor(prev, block) && NextPrev(block) == block / 2
  {
    SixteenBits();
    XorBound(prev, block, 16);
    MaskedSmall(BitXor(prev, block));
    MaskedSmall(block / 2);
  }

  /** From one block, steps to different blocks hit different cells. */
  lemma SuccessorsDiffer(prev: nat, a: nat, b: nat)
    requires prev < COV_BITS && a < COV_BITS && b < COV_BITS
    ensures EdgeCell(prev, a) == EdgeCell(prev, b) <==> a == b
  {
    CellOf(prev, a);
    CellOf(prev, b);
    if EdgeCell(prev, a) == EdgeCell(prev, b) { XorCancels(prev, a, b); }
  }

  /** The shift keeps directions apart: a step from `a` to `b` and one back never share a cell. */
  lemma DirectionsDiffer(a: nat, b: nat)
    requires a < COV_BITS && b < COV_BITS
    ensures EdgeCell(NextPrev(a), b) == EdgeCell(NextPrev(b), a) <==> a == b
  {
    CellOf(0, a);
    CellOf(0, b);
    CellOf(a / 2, b);
    CellOf(b / 2, a);
    if EdgeCell(NextPrev(a), b) == EdgeCell(NextPrev(b), a) { XorShifted(a, b); }
  }

  /** The first line of an input hits its own cell. */
  lemma EntryCell(block: nat)
    requires block < COV_BITS
    ensures EdgeCell(0, block) == block
  {
    CellOf(0, block);
  }

  /** A counter that starts at zero is exact below 255 and never falls back. */
  lemma CounterIs(v: byte, m: nat, n: nat)
    ensures Saturated(0, n) == n <==> n <= 255
    ensures v <= Saturated(v, n) <= v + n && (Saturated(v, n) < v + n ==> Saturated(v, n) == 255)
    ensures Saturated(Saturated(v, m), n) == Saturated(v, m + n)
  {
  }

  /** How often running the line trace from `prev` hits `cell`. */
  function Hits(trace: seq<nat>, prev: nat, cell: nat): nat
    decreases |trace|
  {
    if trace == [] then 0
    else (if EdgeCell(prev, trace[0]) == cell then 1 else 0) + Hits(trace[1..], NextPrev(trace[0]), cell)
  }

  /** Hits of a whole campaign: each input starts over from `prev == 0`. */
  function TotalHits(traces: seq<seq<nat>>, cell: nat): nat
    decreases |traces|
  {
    if traces == [] then 0 else Hits(traces[0], 0, cell) + TotalHits(traces[1..], cell)
  }

  lemma {:induction false} TotalHitsAppend(a: seq<seq<nat>>, b: seq<seq<nat>>, cell: nat)
    ensures TotalHits(a + b, cell) == TotalHits(a, cell) + TotalHits(b, cell)
    decreases |a|
  {
    if a == [] {
      assert a + b == b;
    } else {
      TotalHitsAppend(a[1..], b, cell);
      assert (a + b)[1..] == a[1..] + b;
    }
  }

  lemma TakeOneOut(b: seq<seq<nat>>, k: nat, cell: nat)
    requires k < |b|
    ensures TotalHits(b, cell) == Hits(b[k], 0, cell) + TotalHits(b[..k] + b[k + 1..], cell)
  {
    TotalHitsAppend(b[..k], b[k..], cell);
    TotalHitsAppend(b[..k], b[k + 1..], cell);
    assert b == b[..k] + b[k..] && b[k..][0] == b[k] && b[k..][1..] == b[k + 1..];
  }

  lemma RestIsPermutation<T>(a: seq<T>, b: seq<T>) returns (k: nat)
    requires multiset(a) == multiset(b) && a != []
    ensures k < |b| && b[k] == a[0] && multiset(a[1..]) == multiset(b[..k] + b[k + 1..])
  {
    assert a[0] in multiset(b);
    k :| 0 <= k < |b| && b[k] == a[0];
    SplitOut(a, 0);
    assert a[..0] + a[1..] == a[1..];
    SplitOut(b, k);
    CancelOne(a[0], multiset(a[1..]), multiset(b[..k] + b[k + 1..]));
  }

  lemma SplitOut<T>(b: seq<T>, k: nat)
    requires k < |b|
    ensures multiset(b) == multiset{b[k]} + multiset(b[..k] + b[k + 1..])
  {
    assert b == b[..k] + ([b[k]] + b[k + 1..]);
  }

  lemma CancelOne<T>(x: T, m: multiset<T>, n: multiset<T>)
    requires multiset{x} + m == multiset{x} + n
    ensures m == n
  {
    forall y
      ensures m[y] == n[y]
    {
      assert (multiset{x} + m)[y] == (multiset{x} + n)[y];
    }
  }

  /** The order of the inputs does not matter. */
  lemma {:induction false} OrderIrrelevant(a: seq<seq<nat>>, b: seq<seq<nat>>, cell: nat)
    requires multiset(a) == multiset(b)
    ensures TotalHits(a, cell) == TotalHits(b, cell)
    decreases |a|
  {
    if a == [] {
      assert |multiset(b)| == 0;
    } else {
      var k := RestIsPermutation(a, b);
      OrderIrrelevant(a[1..], b[..k] + b[k + 1..], cell);
      TakeOneOut(b, k, cell);
    }
  }

  class PyCoverage {
    const m: array<byte>
    var prev: nat

    ghost predicate Valid() { m.Length == COV_BITS }

    constructor (initial: array<byte>)
      requires initial.Length == COV_BITS
      ensures Valid() && m == initial && prev == 0
    {
      m, prev := initial, 0;
    }

    /** `reset_prev`. */
    method ResetPrev()
      modifies this`prev
      ensures prev == 0
    {
      prev := 0;
    }

    /** `_record`. */
    method Record(block: nat)
      requires Valid()
      modifies this`prev, m
      ensures prev == NextPrev(block)
      ensures var c := EdgeCell(old(prev), block); m[..] == old(m[..])[c := Saturated(old(m[c]), 1)]
    {
      var idx := EdgeCell(prev, block);
      var v := m[idx];
      if v != 0xFF { m[idx] := v + 1; }
      prev := NextPrev(block);
    }

    /** `_run_input` with the lines the target executed. */
    method RunInput(trace: seq<nat>)
      requires Valid()
      modifies this`prev, m
      ensures forall c :: 0 <= c < COV_BITS ==> m[c] == Saturated(old(m[c]), Hits(trace, 0, c))
    {
      ResetPrev();
      for i := 0 to |trace|
        invariant forall c :: 0 <= c < COV_BITS ==>
                    Saturated(m[c], Hits(trace[i..], prev, c)) == Saturated(old(m[c]), Hits(trace, 0, c))
      {
        ghost var before, p := m[..], prev;
        Record(trace[i]);
        assert trace[i..][1..] == trace[i + 1..];
        forall c | 0 <= c < COV_BITS
          ensures Saturated(m[c], Hits(trace[i + 1..], prev, c)) == Saturated(before[c], Hits(trace[i..], p, c))
        {
          assert m[c] == m[..][c];
        }
      }
      assert trace[|trace|..] == [];
    }

    /** A whole campaign. */
    method RunAll(traces: seq<seq<nat>>)
      requires Valid()
      modifies this`prev, m
      ensures forall c :: 0 <= c < COV_BITS ==> m[c] == Saturated(old(m[c]), TotalHits(traces, c))
    {
      for i := 0 to |traces|
        invariant forall c :: 0 <= c < COV_BITS ==>
                    Saturated(m[c], TotalHits(traces[i..], c)) == Saturated(old(m[c]), TotalHits(traces, c))
      {
        RunInput(traces[i]);
        assert traces[i..][1..] == traces[i + 1..];
      }
    }
  }

  // -------------------------------------------------------------- the C guard maps

  /** How often a run of executed guards hits `cell`; guard 0 is uninstrumented. */
  function GuardHits(guards: seq<nat>, cell: nat): nat
    decreases |guards|
  {
    if guards == [] then 0
    else (if guards[0] != 0 && Masked(guards[0]) == cell then 1 else 0) + GuardHits(guards[1..], cell)
  }

  lemma NextId(start: nat, i: nat)
    ensures ((start + i) % TWO32 + 1) % TWO32 == (start + 1 + i) % TWO32
  {
  }

  lemma ZeroAtWrap(start: nat, i: nat)
    requires start < TWO32 && i < TWO32
    ensures (start + 1 + i) % TWO32 == 0 <==> i == TWO32 - 1 - start
  {
  }

  class CCoverage {
    const present: array<byte>
    const counts: array<byte>
    var next: nat

    ghost predicate Valid() { present.Length == COV_BITS && counts.Length == COV_BITS && present != counts }

    constructor (present: array<byte>, counts: array<byte>)
      requires present.Length == COV_BITS && counts.Length == COV_BITS && present != counts
      ensures Valid() && this.present == present && this.counts == counts && next == 0
    {
      this.present, this.counts, next := present, counts, 0;
    }

    /** `__sanitizer_cov_trace_pc_guard`. */
    method TraceGuard(guard: nat)
      requires Valid()
      modifies present, counts
      ensures present[..] == if guard == 0 then old(present[..]) else old(present[..])[Masked(guard) := 1]
      ensures counts[..] == if guard == 0 then old(counts[..])
                            else old(counts[..])[Masked(guard) := Saturated(old(counts[Masked(guard)]), 1)]
    {
      if guard == 0 { return; }
      present[Masked(guard)] := 1;
      if counts[Masked(guard)] != 255 { counts[Masked(guard)] := counts[Masked(guard)] + 1; }
    }

    /** A run of executed edges. */
    method TraceGuards(guards: seq<nat>)
      requires Valid()
      modifies present, counts
      ensures forall c :: 0 <= c < COV_BITS ==> counts[c] == Saturated(old(counts[c]), GuardHits(guards, c))
      ensures forall c :: 0 <= c < COV_BITS ==> present[c] == if GuardHits(guards, c) > 0 then 1 else old(present[c])
    {
      for i := 0 to |guards|
        invariant forall c :: 0 <= c < COV_BITS ==>
                    Saturated(counts[c], GuardHits(guards[i..], c)) == Saturated(old(counts[c]), GuardHits(guards, c))
        invariant forall c :: 0 <= c < COV_BITS ==>
                    (if GuardHits(guards[i..], c) > 0 then 1 else present[c])
                    == (if GuardHits(guards, c) > 0 then 1 else old(present[c]))
      {
        ghost var k0, p0 := counts[..], present[..];
        TraceGuard(guards[i]);
        assert guards[i..][1..] == guards[i + 1..];
        forall c | 0 <= c < COV_BITS
          ensures Saturated(counts[c], GuardHits(guards[i + 1..], c)) == Saturated(k0[c], GuardHits(guards[i..], c))
          ensures (if GuardHits(guards[i + 1..], c) > 0 then 1 else present[c])
                  == (if GuardHits(guards[i..], c) > 0 then 1 else p0[c])
        {
          assert counts[c] == counts[..][c] && present[c] == present[..][c];
        }
      }
    }

    /** `__sanitizer_cov_trace_pc_guard_init` for one module's guard table: numbers an
        unnumbered table with the next consecutive ids, and leaves a numbered one. The
        counter has 32 bits; a guard gets id 0, which is never counted, exactly where it
        wraps. */
    method GuardInit(table: array<nat>)
      requires next < TWO32
      modifies table, this`next
      ensures next < TWO32
      ensures if table.Length == 0 || old(table[0]) != 0
              then table[..] == old(table[..]) && next == old(next)
              else next == (old(next) + table.Length) % TWO32
                   && forall i :: 0 <= i < table.Length ==> table[i] == (old(next) + 1 + i) % TWO32
      ensures table.Length < TWO32 && table.Length > 0 && old(table[0]) == 0 ==>
                forall i :: 0 <= i < table.Length ==> (table[i] == 0 <==> i == TWO32 - 1 - old(next))
    {
      if table.Length == 0 || table[0] != 0 { return; }
      var start := next;
      for i := 0 to table.Length
        invariant next == (start + i) % TWO32
        invariant forall k :: 0 <= k < i ==> table[k] == (start + 1 + k) % TWO32
      {
        NextId(start, i);
        next := (next + 1) % TWO32;
        table[i] := next;
      }
      if table.Length < TWO32 {
        forall i | 0 <= i < table.Length
          ensures table[i] == 0 <==> i == TWO32 - 1 - start
        {
          ZeroAtWrap(start, i);
        }
      }
    }
  }
}
