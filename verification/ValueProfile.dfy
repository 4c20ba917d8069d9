/**
 The value-profile token log: `[u32 cursor][{u8 len}{len bytes} ...]` in a 64 KiB
 map. The driver appends comparison operands, deduplicated in process; the engine
 parses them back into its dictionary.
 */
module ValueProfile {
  import opened Bits

  type Bytes = seq<byte>

  datatype Option<T> = None | Some(value: T)

  const VP_BYTES: nat := 0x1_0000
  const SLOTS: nat := 4096
  const FNV_OFFSET: nat := 1469598103934665603
  const FNV_PRIME: nat := 1099511628211
  const U64: nat := 0x1_0000_0000_0000_0000

  // ------------------------------------------------------------------ the layout

  predicate Token(t: Bytes) { 1 <= |t| <= 8 && exists i :: 0 <= i < |t| && t[i] != 0 }

  ghost predicate Tokens(ts: seq<Bytes>) { forall i :: 0 <= i < |ts| ==> Token(ts[i]) }

  lemma {:induction false} NonzeroBytes(t: Bytes)
    ensures FromLE(t) != 0 <==> exists i :: 0 <= i < |t| && t[i] != 0
  {
    if t != [] {
      NonzeroBytes(t[1..]);
      if i :| 0 <= i < |t| && t[i] != 0 {
        assert i > 0 ==> t[1..][i - 1] != 0;
      }
      if i :| 0 <= i < |t[1..]| && t[1..][i] != 0 {
        assert t[i + 1] != 0;
      }
    }
  }

  /** The operands worth logging are those of 1 to 8 bytes that denote a number other than 0. */
  lemma TokenIff(t: Bytes)
    ensures Token(t) <==> 1 <= |t| <= 8 && FromLE(t) != 0
  {
    NonzeroBytes(t);
  }

  /** One log record. */
  function Record(t: Bytes): Bytes
    requires |t| <= 8
  {
    [|t|] + t
  }

  ghost function Encode(ts: seq<Bytes>): Bytes
    requires Tokens(ts)
    decreases |ts|
  {
    if ts == [] then [] else
    var t := ts[|ts| - 1];
    Encode(ts[..|ts| - 1]) + Record(t)
  }

  /** The map holds exactly the tokens `ts`. */
  ghost predicate Holds(map_: Bytes, ts: seq<Bytes>)
  {
    && |map_| == VP_BYTES && Tokens(ts)
    && 4 + |Encode(ts)| <= VP_BYTES
    && FromLE(map_[..4]) == |Encode(ts)|
    && map_[4..4 + |Encode(ts)|] == Encode(ts)
  }

  /** The engine's parse of `bytes[i..end]`. */
  function Parse(bytes: Bytes, i: nat, end: nat): seq<Bytes>
    requires end <= |bytes|
    decreases end - i
  {
    if i >= end then [] else
    var len := bytes[i];
    if len == 0 || len > 8 || i + 1 + len > end then []
    else [bytes[i + 1..i + 1 + len]] + Parse(bytes, i + 1 + len, end)
  }

  lemma EncodeSnoc(ts: seq<Bytes>, t: Bytes)
    requires Tokens(ts)
    ensures Token(t) ==> Tokens(ts + [t]) && Encode(ts + [t]) == Encode(ts) + Record(t)
  {
    assert (ts + [t])[..|ts|] == ts;
  }

  lemma {:induction false} EncodeCons(t: Bytes, ts: seq<Bytes>)
    requires Token(t) && Tokens(ts)
    ensures Tokens([t] + ts) && Encode([t] + ts) == Record(t) + Encode(ts)
    decreases |ts|
  {
    if ts == [] {
      EncodeSnoc([], t);
      assert [] + [t] == [t] + ts;
    } else {
      var init, last := ts[..|ts| - 1], ts[|ts| - 1];
      EncodeCons(t, init);
      EncodeSnoc(init, last);
      EncodeSnoc([t] + init, last);
      assert ts == init + [last] && [t] + ts == [t] + init + [last];
      assert Record(t) + Encode(init) + Record(last) == Record(t) + (Encode(init) + Record(last));
    }
  }

  lemma SliceParts(bytes: Bytes, i: nat, end: nat, a: Bytes, b: Bytes)
    requires i <= end <= |bytes| && bytes[i..end] == a + b
    ensures i + |a| <= end && bytes[i..i + |a|] == a && bytes[i + |a|..end] == b
  {
    assert |a| + |b| == end - i;
    assert bytes[i..i + |a|] == bytes[i..end][..|a|];
    assert bytes[i + |a|..end] == bytes[i..end][|a|..];
  }

  lemma RecordParts(bytes: Bytes, i: nat, t: Bytes)
    requires |t| <= 8 && i + 1 + |t| <= |bytes| && bytes[i..i + 1 + |t|] == Record(t)
    ensures bytes[i] == |t| && bytes[i + 1..i + 1 + |t|] == t
  {
    assert bytes[i] == bytes[i..i + 1 + |t|][0];
    assert bytes[i + 1..i + 1 + |t|] == bytes[i..i + 1 + |t|][1..];
    assert Record(t)[1..] == t;
  }

  lemma ParseCons(bytes: Bytes, i: nat, end: nat)
    requires i < end <= |bytes| && 1 <= bytes[i] <= 8 && i + 1 + bytes[i] <= end
    ensures Parse(bytes, i, end) == [bytes[i + 1..i + 1 + bytes[i]]] + Parse(bytes, i + 1 + bytes[i], end)
  {
  }

  lemma {:induction false} ParsedLengths(bytes: Bytes, i: nat, end: nat)
    requires end <= |bytes|
    ensures forall k :: 0 <= k < |Parse(bytes, i, end)| ==> 1 <= |Parse(bytes, i, end)[k]| <= 8
    decreases end - i
  {
    if i < end && 1 <= bytes[i] <= 8 && i + 1 + bytes[i] <= end {
      ParsedLengths(bytes, i + 1 + bytes[i], end);
      ParseCons(bytes, i, end);
    }
  }

  /** The first record of an encoded suffix, and what is left after it. */
  lemma FirstRecord(bytes: Bytes, i: nat, end: nat, t: Bytes, rest: seq<Bytes>)
    requires Token(t) && Tokens(rest)
    requires i <= end <= |bytes| && bytes[i..end] == Record(t) + Encode(rest)
    ensures i + 1 + |t| <= end
    ensures bytes[i] == |t| && bytes[i + 1..i + 1 + |t|] == t && bytes[i + 1 + |t|..end] == Encode(rest)
  {
    SliceParts(bytes, i, end, Record(t), Encode(rest));
    RecordParts(bytes, i, t);
  }

  lemma {:induction false} ParseOfEncode(bytes: Bytes, i: nat, end: nat, ts: seq<Bytes>)
    requires i <= end <= |bytes| && Tokens(ts) && bytes[i..end] == Encode(ts)
    ensures Parse(bytes, i, end) == ts
    decreases |ts|
  {
    if ts != [] {
      var t, rest := ts[0], ts[1..];
      assert ts == [t] + rest;
      EncodeCons(t, rest);
      FirstRecord(bytes, i, end, t, rest);
      ParseCons(bytes, i, end);
      ParseOfEncode(bytes, i + 1 + |t|, end, rest);
    }
  }

  /** The log determines its tokens. */
  lemma UniqueTokens(map_: Bytes, ts: seq<Bytes>, us: seq<Bytes>)
    requires Holds(map_, ts) && Holds(map_, us)
    ensures ts == us
  {
    ParseOfEncode(map_, 4, 4 + |Encode(ts)|, ts);
    ParseOfEncode(map_, 4, 4 + |Encode(us)|, us);
  }

  /** Where the engine stops reading. */
  function EndOf(bytes: Bytes): (end: nat)
    requires |bytes| >= 4
    ensures 4 <= end <= |bytes|
  {
    var cursor := FromLE(bytes[..4]);
    if 4 + cursor <= |bytes| then 4 + cursor else |bytes|
  }

  lemma HeldTokens(bytes: Bytes, ts: seq<Bytes>)
    requires Holds(bytes, ts)
    ensures Parse(bytes, 4, EndOf(bytes)) == ts
  {
    ParseOfEncode(bytes, 4, EndOf(bytes), ts);
  }

  /** The record loop of `read_vp_tokens`. */
  method ReadRecords(bytes: Bytes, end: nat) returns (out: seq<Bytes>)
    requires 4 <= end <= |bytes|
    ensures out == Parse(bytes, 4, end)
  {
    out := [];
    var i: nat := 4;
    while i < end
      invariant Parse(bytes, 4, end) == out + Parse(bytes, i, end)
      decreases end - i
    {
      var len: nat := bytes[i];
      if len == 0 || len > 8 || i + 1 + len > end { break; }
      ParseCons(bytes, i, end);
      out := out + [bytes[i + 1..i + 1 + len]];
      i := i + 1 + len;
    }
  }

  /** `read_vp_tokens` over the file's bytes. */
  method ReadTokens(bytes: Bytes) returns (out: seq<Bytes>)
    ensures forall ts | Holds(bytes, ts) :: out == ts
    ensures forall i :: 0 <= i < |out| ==> 1 <= |out[i]| <= 8
  {
    if |bytes| < 4 { return []; }
    out := ReadRecords(bytes, EndOf(bytes));
    ParsedLengths(bytes, 4, EndOf(bytes));
    forall ts | Holds(bytes, ts)
      ensures out == ts
    {
      HeldTokens(bytes, ts);
    }
  }

  // -------------------------------------------------------- one process's behaviour

  /** 64-bit FNV-1a over the bytes. */
  function Fnv(data: Bytes): (h: nat)
    ensures h < U64
    decreases |data|
  {
    if data == [] then FNV_OFFSET
    else (BitXor(Fnv(data[..|data| - 1]), data[|data| - 1]) * FNV_PRIME) % U64
  }

  function Hash(data: Bytes): nat { BitXor(Fnv(data), |data|) }

  function Slot(data: Bytes): (slot: nat)
    ensures slot < SLOTS && slot == Hash(data) % SLOTS
  {
    assert Pow2(12) == 4 * Pow2(10) == 64 * Pow2(6) == 4096 * Pow2(0);
    MaskIsMod(Hash(data), 12, SLOTS, 4095);
    BitAnd(Hash(data), 4095)
  }

  /** The dedup tables of the process and the tokens of the log. */
  datatype State = State(seen1: seq<bool>, seenN: seq<nat>, tokens: seq<Bytes>)

  ghost predicate Sized(s: State) { |s.seen1| == 256 && |s.seenN| == SLOTS && Tokens(s.tokens) }

  ghost function Used(s: State): nat requires Sized(s) { |Encode(s.tokens)| }

  /** Whether the dedup tables already hold `data`. */
  predicate Seen(s: State, data: Bytes)
    requires |s.seen1| == 256 && |s.seenN| == SLOTS && data != []
  {
    if |data| == 1 then s.seen1[data[0]] else s.seenN[Slot(data)] == Hash(data)
  }

  function Mark(s: State, data: Bytes): State
    requires |s.seen1| == 256 && |s.seenN| == SLOTS && data != []
  {
    if |data| == 1 then s.(seen1 := s.seen1[data[0] := true])
    else s.(seenN := s.seenN[Slot(data) := Hash(data)])
  }

  /** What one `bhf_vp_add` does: a candidate is marked before the room check, so a
      token that did not fit is never retried. */
  ghost function Added(s: State, data: Bytes): (r: State)
    requires Sized(s)
    ensures Sized(r)
  {
    if !Token(data) || Seen(s, data) then s
    else
      var r := Mark(s, data);
      if Used(s) + 1 + |data| + 4 > VP_BYTES then r else r.(tokens := s.tokens + [data])
  }

  ghost predicate HasRoom(s: State, t: Bytes)
    requires Sized(s)
  {
    Used(s) + 1 + |t| + 4 <= VP_BYTES
  }

  /** This process is offered an operand, or another one appends a token to the same map. */
  datatype Op = Offer(data: Bytes) | Other(token: Bytes)

  ghost function Did(s: State, op: Op): (r: State)
    requires Sized(s)
    ensures Sized(r)
  {
    match op
    case Offer(data) => Added(s, data)
    case Other(t) => if Token(t) && HasRoom(s, t) then s.(tokens := s.tokens + [t]) else s
  }

  ghost function AddedAll(s: State, ops: seq<Op>): (r: State)
    requires Sized(s)
    ensures Sized(r)
    decreases |ops|
  {
    if ops == [] then s else Did(AddedAll(s, ops[..|ops| - 1]), ops[|ops| - 1])
  }

  ghost predicate FreshProcess(s: State)
  {
    Sized(s) && forall b :: 0 <= b < 256 ==> !s.seen1[b]
  }

  /** The tokens this process appended. */
  ghost function Mine(s: State, ops: seq<Op>): seq<Bytes>
    requires Sized(s)
    decreases |ops|
  {
    if ops == [] then [] else
    var init, op := ops[..|ops| - 1], ops[|ops| - 1];
    if op.Offer? && AddedAll(s, ops).tokens != AddedAll(s, init).tokens then Mine(s, init) + [op.data]
    else Mine(s, init)
  }

  lemma DidTokens(s: State, op: Op)
    requires Sized(s)
    ensures s.tokens <= Did(s, op).tokens && Used(s) <= Used(Did(s, op))
    ensures op.Offer? && Did(s, op).tokens != s.tokens ==> Did(s, op).tokens == s.tokens + [op.data]
  {
    EncodeSnoc(s.tokens, if op.Offer? then op.data else op.token);
  }

  lemma {:induction false} LogOnlyGrows(s: State, ops: seq<Op>)
    requires Sized(s)
    ensures s.tokens <= AddedAll(s, ops).tokens && Used(s) <= Used(AddedAll(s, ops))
    decreases |ops|
  {
    if ops != [] {
      LogOnlyGrows(s, ops[..|ops| - 1]);
      DidTokens(AddedAll(s, ops[..|ops| - 1]), ops[|ops| - 1]);
    }
  }

  /** What holds of one-byte token `b` after `ops` when this process has appended `mine`. */
  ghost predicate OneByteLaw(mine: seq<Bytes>, s: State, ops: seq<Op>, b: byte)
    requires Sized(s)
  {
    && (forall i, j :: 0 <= i < j < |mine| && mine[i] == [b] ==> mine[j] != [b])
    && (s.seen1[b] <==> Offer([b]) in ops)
    && ([b] in mine ==> Offer([b]) in ops)
    && (Offer([b]) in ops && Used(s) + 6 <= VP_BYTES ==> [b] in mine)
  }

  /** `op` takes the process from `s` to `s'` and its own tokens from `mine` to `mine'`. */
  ghost predicate Happened(mine: seq<Bytes>, s: State, op: Op, mine': seq<Bytes>, s': State)
    requires Sized(s)
  {
    && s' == Did(s, op)
    && mine' == if op.Offer? && s'.tokens != s.tokens then mine + [op.data] else mine
  }

  lemma OneByteOffer(mine: seq<Bytes>, s: State, ops: seq<Op>, d: Bytes, b: byte, mine': seq<Bytes>, s': State)
    requires Sized(s) && b != 0 && OneByteLaw(mine, s, ops, b) && Happened(mine, s, Offer(d), mine', s')
    ensures OneByteLaw(mine', s', ops + [Offer(d)], b)
  {
    EncodeSnoc(s.tokens, d);
    assert Token([b]) by { assert [b][0] != 0; }
    assert Offer([b]) in ops + [Offer(d)] <==> Offer([b]) in ops || d == [b];
    assert s'.seen1[b] <==> s.seen1[b] || d == [b];
    assert s'.tokens != s.tokens ==> |s'.tokens| == |s.tokens| + 1;
  }

  lemma OneByteOther(mine: seq<Bytes>, s: State, ops: seq<Op>, t: Bytes, b: byte, s': State)
    requires Sized(s) && b != 0 && OneByteLaw(mine, s, ops, b) && s' == Did(s, Other(t))
    ensures OneByteLaw(mine, s', ops + [Other(t)], b)
  {
    DidTokens(s, Other(t));
    assert Offer([b]) in ops + [Other(t)] <==> Offer([b]) in ops;
  }

  lemma AddedAllStep(s: State, ops: seq<Op>, op: Op)
    requires Sized(s)
    ensures AddedAll(s, ops + [op]) == Did(AddedAll(s, ops), op)
  {
    assert (ops + [op])[..|ops|] == ops;
  }

  lemma MineStep(s: State, ops: seq<Op>, op: Op)
    requires Sized(s)
    ensures Happened(Mine(s, ops), AddedAll(s, ops), op, Mine(s, ops + [op]), AddedAll(s, ops + [op]))
  {
    AddedAllStep(s, ops, op);
    assert (ops + [op])[..|ops|] == ops;
  }

  lemma OneByteRun(s: State, ops: seq<Op>, op: Op, b: byte)
    requires Sized(s) && b != 0 && OneByteLaw(Mine(s, ops), AddedAll(s, ops), ops, b)
    ensures OneByteLaw(Mine(s, ops + [op]), AddedAll(s, ops + [op]), ops + [op], b)
  {
    MineStep(s, ops, op);
    if op.Offer? {
      OneByteOffer(Mine(s, ops), AddedAll(s, ops), ops, op.data, b, Mine(s, ops + [op]), AddedAll(s, ops + [op]));
    } else {
      OneByteOther(Mine(s, ops), AddedAll(s, ops), ops, op.token, b, AddedAll(s, ops + [op]));
    }
  }

  /** Over every run of a process, whatever others append meanwhile: it appends a one-byte
      token at most once, exactly the bytes marked seen were offered, and one is missing
      from its tokens only if the log has no room left for it. */
  lemma {:induction false} OneByteTokens(s: State, ops: seq<Op>, b: byte)
    requires FreshProcess(s) && b != 0
    ensures OneByteLaw(Mine(s, ops), AddedAll(s, ops), ops, b)
    decreases |ops|
  {
    if ops != [] {
      var init, op := ops[..|ops| - 1], ops[|ops| - 1];
      OneByteTokens(s, init, b);
      OneByteRun(s, init, op, b);
      assert ops == init + [op];
    }
  }

  /** Offering the same operand twice in a row changes nothing the second time. */
  lemma AddTwice(s: State, data: Bytes)
    requires Sized(s)
    ensures Added(Added(s, data), data) == Added(s, data)
  {
  }

  // ------------------------------------------------- tokens of two and more bytes

  /** The hash that the longer tokens offered in `ops` leave in `slot`, if one falls into it. */
  ghost function LastIn(ops: seq<Op>, slot: nat): Option<nat>
  {
    if ops == [] then None else
    var op := ops[|ops| - 1];
    if FallsInto(op, slot) then Some(Hash(op.data)) else LastIn(ops[..|ops| - 1], slot)
  }

  predicate FallsInto(op: Op, slot: nat)
  {
    op.Offer? && Token(op.data) && |op.data| >= 2 && Slot(op.data) == slot
  }

  lemma SlotStep(s: State, op: Op, slot: nat)
    requires Sized(s) && slot < SLOTS
    ensures Did(s, op).seenN[slot] == if FallsInto(op, slot) then Hash(op.data) else s.seenN[slot]
  {
  }

  /** Over every run, a slot remembers only the last token that fell into it. */
  lemma {:induction false} SlotAfter(s: State, ops: seq<Op>, slot: nat)
    requires Sized(s) && slot < SLOTS
    ensures AddedAll(s, ops).seenN[slot] == if LastIn(ops, slot).Some? then LastIn(ops, slot).value else s.seenN[slot]
    decreases |ops|
  {
    if ops != [] {
      SlotAfter(s, ops[..|ops| - 1], slot);
      SlotStep(AddedAll(s, ops[..|ops| - 1]), ops[|ops| - 1], slot);
    }
  }

  lemma AppendsIff(s: State, t: Bytes)
    requires Sized(s) && Token(t) && |t| >= 2
    ensures Added(s, t).tokens == s.tokens + [t] <==> s.seenN[Slot(t)] != Hash(t) && HasRoom(s, t)
    ensures Added(s, t).tokens != s.tokens <==> s.seenN[Slot(t)] != Hash(t) && HasRoom(s, t)
  {
    assert s.tokens != s.tokens + [t] by { assert |s.tokens| != |s.tokens + [t]|; }
  }

  /** A token of two or more bytes, offered again after `ops`, is appended again if and only
      if there is room and the last token of `ops` that fell into its slot has another hash. */
  lemma AppendedAgainIff(s: State, t: Bytes, ops: seq<Op>)
    requires Sized(s) && Token(t) && |t| >= 2
    ensures var after := AddedAll(Added(s, t), ops);
            Added(after, t).tokens == after.tokens + [t]
            <==> HasRoom(after, t) && LastIn(ops, Slot(t)).Some? && LastIn(ops, Slot(t)).value != Hash(t)
  {
    SlotStep(s, Offer(t), Slot(t));
    SlotAfter(Added(s, t), ops, Slot(t));
    AppendsIff(AddedAll(Added(s, t), ops), t);
  }

  /** The `i`-th of `ops` offers `t`, and then there is room and its slot holds another hash. */
  ghost predicate OfferedInTime(s: State, ops: seq<Op>, i: nat, t: Bytes)
    requires Sized(s)
  {
    && i < |ops| && ops[i] == Offer(t) && HasRoom(AddedAll(s, ops[..i]), t)
    && var last := LastIn(ops[..i], Slot(t));
       (if last.Some? then last.value else s.seenN[Slot(t)]) != Hash(t)
  }

  lemma AppendsWhenInTime(s: State, ops: seq<Op>, t: Bytes)
    requires Sized(s) && Token(t) && |t| >= 2
    ensures Added(AddedAll(s, ops), t).tokens != AddedAll(s, ops).tokens
            <==> OfferedInTime(s, ops + [Offer(t)], |ops|, t)
  {
    assert (ops + [Offer(t)])[..|ops|] == ops;
    SlotAfter(s, ops, Slot(t));
    AppendsIff(AddedAll(s, ops), t);
  }

  lemma InTimeEarlier(s: State, ops: seq<Op>, op: Op, i: nat, t: Bytes)
    requires Sized(s) && i < |ops|
    ensures OfferedInTime(s, ops + [op], i, t) <==> OfferedInTime(s, ops, i, t)
  {
    assert (ops + [op])[..i] == ops[..i];
  }

  /** Over every run, a process has appended a token of two or more bytes if and only if the
      token was offered at some point where the log had room and the token's slot did not
      hold an equal hash. */
  lemma {:induction false} LongTokensIff(s: State, ops: seq<Op>, t: Bytes)
    requires Sized(s) && Token(t) && |t| >= 2
    ensures t in Mine(s, ops) <==> exists i: nat :: OfferedInTime(s, ops, i, t)
    decreases |ops|
  {
    if ops != [] {
      var init, op := ops[..|ops| - 1], ops[|ops| - 1];
      assert ops == init + [op];
      LongTokensIff(s, init, t);
      MineStep(s, init, op);
      forall i: nat | i < |init|
        ensures OfferedInTime(s, ops, i, t) <==> OfferedInTime(s, init, i, t)
      {
        InTimeEarlier(s, init, op, i, t);
      }
      AppendsWhenInTime(s, init, t);
      LastInTime(s, init, op, t);
    }
  }

  /** The step of that induction, for the last operation. */
  lemma LastInTime(s: State, init: seq<Op>, op: Op, t: Bytes)
    requires Sized(s) && Token(t) && |t| >= 2
    requires forall i: nat | i < |init| :: OfferedInTime(s, init + [op], i, t) <==> OfferedInTime(s, init, i, t)
    requires Added(AddedAll(s, init), t).tokens != AddedAll(s, init).tokens
             <==> OfferedInTime(s, init + [Offer(t)], |init|, t)
    requires t in Mine(s, init) <==> exists i: nat :: OfferedInTime(s, init, i, t)
    requires Happened(Mine(s, init), AddedAll(s, init), op, Mine(s, init + [op]), AddedAll(s, init + [op]))
    ensures t in Mine(s, init + [op]) <==> exists i: nat :: OfferedInTime(s, init + [op], i, t)
  {
    var ops := init + [op];
    if t in Mine(s, ops) {
      if t in Mine(s, init) {
        var i: nat :| OfferedInTime(s, init, i, t);
        assert OfferedInTime(s, ops, i, t);
      } else {
        assert op == Offer(t) && OfferedInTime(s, ops, |init|, t);
      }
    }
    if i: nat :| OfferedInTime(s, ops, i, t) {
      if i < |init| {
        assert OfferedInTime(s, init, i, t);
      } else {
        assert i == |init| && op == Offer(t);
      }
    }
  }

  lemma FnvSnoc(data: Bytes, b: byte, h: nat, x: nat)
    requires Fnv(data) == h && BitXor(h, b) == x
    ensures Fnv(data + [b]) == (x * FNV_PRIME) % U64
  {
    assert (data + [b])[..|data|] == data;
  }

  ghost predicate Xors(a: nat, b: nat, x: nat) { BitXor(a, b) == x }

  lemma XorsByte(q: nat, r: byte, b: byte, low: nat)
    requires BitXor(r, b) == low
    ensures Xors(256 * q + r, b, 256 * q + low)
  {
    XorByte(q, r, b);
  }

  /** The hash of a two-byte token, one operation at a time. */
  lemma HashOfPair(a: byte, b: byte, x: nat, h: nat, y: nat, k: nat, z: nat)
    requires Xors(FNV_OFFSET, a, x) && h == (x * FNV_PRIME) % U64
    requires Xors(h, b, y) && k == (y * FNV_PRIME) % U64 && Xors(k, 2, z)
    ensures Hash([a, b]) == z
  {
    FnvSnoc([], a, FNV_OFFSET, x);
    FnvSnoc([a], b, h, y);
    assert [] + [a] == [a] && [a] + [b] == [a, b];
  }

  lemma FirstXors()
    ensures Xors(FNV_OFFSET, 3, 1469598103934665600)
    ensures Xors(4953160058118402688, 3, 4953160058118402691)
    ensures Xors(11123578821612147865, 2, 11123578821612147867)
  {
    XorsByte(5740617593494787, 131, 3, 128);
    XorsByte(19348281477025010, 128, 3, 131);
    XorsByte(43451479771922452, 153, 2, 155);
  }

  lemma SecondXors()
    ensures Xors(FNV_OFFSET, 114, 1469598103934665713)
    ensures Xors(11231668511225304217, 2, 11231668511225304219)
  {
    assert BitXor(8, 7) == 15 && BitXor(32, 28) == 60 && BitXor(131, 114) == 241;
    XorsByte(5740617593494787, 131, 114, 241);
    XorsByte(43873705121973844, 153, 2, 155);
  }

  lemma HashOfFirst()
    ensures Hash([3, 3]) == 11123578821612147867
  {
    FirstXors();
    HashOfPair(3, 3, 1469598103934665600, 4953160058118402688, 4953160058118402691, 11123578821612147865,
               11123578821612147867);
  }

  lemma HashOfSecond()
    ensures Hash([114, 0]) == 11231668511225304219
  {
    SecondXors();
    HashOfPair(114, 0, 1469598103934665713, 4953284302932390531, 4953284302932390531, 11231668511225304217,
               11231668511225304219);
  }

  /** Two tokens that share a slot: offered in turn, the first is appended again. */
  lemma RepeatedTokenExample(s: State)
    requires Sized(s) && Used(s) + 1000 <= VP_BYTES
    ensures var after := AddedAll(Added(s, [3, 3]), [Offer([114, 0])]);
            Added(after, [3, 3]).tokens == after.tokens + [[3, 3]]
  {
    var t: Bytes, u: Bytes := [3, 3], [114, 0];
    assert t[0] != 0 && u[0] != 0;
    HashOfFirst();
    HashOfSecond();
    AppendedAgainIff(s, t, [Offer(u)]);
    assert LastIn([Offer(u)], 1179) == Some(Hash(u));
    UsedStep(s, t);
    UsedStep(Added(s, t), u);
    assert [Offer(u)][..0] == [];
    assert AddedAll(Added(s, t), []) == Added(s, t);
    assert AddedAll(Added(s, t), [Offer(u)]) == Added(Added(s, t), u);
  }

  lemma UsedStep(s: State, d: Bytes)
    requires Sized(s)
    ensures Used(Added(s, d)) <= Used(s) + 1 + |d|
  {
    EncodeSnoc(s.tokens, d);
  }

  lemma AppendedStep(s: State, op: Op)
    requires Sized(s) && 4 + Used(s) <= VP_BYTES
    ensures var s' := Did(s, op);
            && 4 + Used(s') <= VP_BYTES && s.tokens <= s'.tokens
            && (op.Offer? && s'.tokens != s.tokens ==> Token(op.data) && op.data in s'.tokens)
  {
    DidTokens(s, op);
    EncodeSnoc(s.tokens, if op.Offer? then op.data else op.token);
  }

  /** Every token a process appended is in the log and was offered, is 1 to 8 bytes long and
      not all zero, and the log never leaves its 64 KiB. */
  lemma {:induction false} AppendedTokens(s: State, ops: seq<Op>)
    requires Sized(s) && 4 + Used(s) <= VP_BYTES
    ensures 4 + Used(AddedAll(s, ops)) <= VP_BYTES
    ensures forall t :: t in Mine(s, ops) ==> Offer(t) in ops && Token(t) && t in AddedAll(s, ops).tokens
    decreases |ops|
  {
    if ops != [] {
      var init, op := ops[..|ops| - 1], ops[|ops| - 1];
      AppendedTokens(s, init);
      assert ops == init + [op];
      MineStep(s, init, op);
      AppendedStep(AddedAll(s, init), op);
    }
  }

  // ---------------------------------------------------------------- the map itself

  lemma HoldsAfterAppend(m0: Bytes, mid: Bytes, m1: Bytes, ts: seq<Bytes>, t: Bytes)
    requires Holds(m0, ts) && Token(t) && |mid| == |m1| == VP_BYTES
    requires var c := |Encode(ts)|;
             && 4 + c + 1 + |t| <= VP_BYTES
             && mid[..4 + c] == m0[..4 + c] && mid[4 + c..4 + c + 1 + |t|] == Record(t)
             && m1[4..] == mid[4..] && FromLE(m1[..4]) == c + 1 + |t|
    ensures Holds(m1, ts + [t])
  {
    var c := |Encode(ts)|;
    var end := 4 + c + 1 + |t|;
    EncodeSnoc(ts, t);
    assert m1[4..end] == mid[4..end] by {
      assert m1[4..end] == m1[4..][..end - 4] && mid[4..end] == mid[4..][..end - 4];
    }
    assert mid[4..4 + c] == mid[..4 + c][4..] == m0[..4 + c][4..] == m0[4..4 + c];
    assert mid[4..end] == mid[4..4 + c] + mid[4 + c..end];
  }

  class VpLog {
    const m: array<byte>
    const seen1: array<bool>
    const seenN: array<nat>
    ghost var tokens: seq<Bytes>

    ghost predicate Valid()
      reads this, m
    {
      && seen1.Length == 256 && seenN.Length == SLOTS && m.Length == VP_BYTES
      && (m as object) != seenN
      && Holds(m[..], tokens)
    }

    ghost function Model(): State
      reads this, seen1, seenN
    {
      State(seen1[..], seenN[..], tokens)
    }

    constructor (initial: array<byte>, ghost held: seq<Bytes>)
      requires initial.Length == VP_BYTES && Holds(initial[..], held)
      ensures Valid() && m == initial && tokens == held
      ensures fresh(seen1) && fresh(seenN) && FreshProcess(Model())
      ensures forall i :: 0 <= i < SLOTS ==> seenN[i] == 0
    {
      m, tokens := initial, held;
      seen1, seenN := new bool[256](_ => false), new nat[SLOTS](_ => 0);
    }

    /** The dedup half of `bhf_vp_add`. */
    method Remember(data: Bytes) returns (known: bool)
      requires seen1.Length == 256 && seenN.Length == SLOTS && 1 <= |data| <= 8
      modifies seen1, seenN
      ensures known == old(Seen(Model(), data))
      ensures Model() == if known then old(Model()) else old(Mark(Model(), data))
    {
      if |data| == 1 {
        known := seen1[data[0]];
        if !known { seen1[data[0]] := true; }
      } else {
        var h := FNV_OFFSET;
        for i := 0 to |data|
          invariant h == Fnv(data[..i])
        {
          h := (BitXor(h, data[i]) * FNV_PRIME) % U64;
          assert data[..i + 1][..i] == data[..i];
        }
        assert data[..|data|] == data;
        h := BitXor(h, |data|);
        var slot := BitAnd(h, 4095);
        assert slot == Slot(data);
        known := seenN[slot] == h;
        if !known { seenN[slot] := h; }
      }
    }

    /** The length byte and the payload, written past the cursor. */
    method WriteRecord(at: nat, data: Bytes)
      requires |data| <= 8 && at + 1 + |data| <= m.Length
      modifies m
      ensures m[..at] == old(m[..at]) && m[at..at + 1 + |data|] == Record(data)
    {
      m[at] := |data|;
      for i := 0 to |data|
        invariant m[at] == |data| && m[at + 1..at + 1 + i] == data[..i]
        invariant m[..at] == old(m[..at])
      {
        m[at + 1 + i] := data[i];
      }
    }

    method WriteCursor(c: nat)
      requires m.Length == VP_BYTES && c <= VP_BYTES
      modifies m
      ensures FromLE(m[..4]) == c && m[4..] == old(m[4..])
    {
      var word := LE(c, 4);
      m[0], m[1], m[2], m[3] := word[0], word[1], word[2], word[3];
      assert m[..4] == word;
      Pow256At4();
      FromLEOfLE(c, 4);
    }

    /** The append half: room check, record, cursor. */
    method Append(data: Bytes)
      requires Valid() && Token(data)
      modifies this`tokens, m
      ensures Valid()
      ensures tokens == if |Encode(old(tokens))| + 1 + |data| + 4 > VP_BYTES then old(tokens)
                        else old(tokens) + [data]
    {
      var c := FromLE(m[..4]);
      assert m[..][..4] == m[..4];
      if c + 1 + |data| + 4 > VP_BYTES { return; }
      ghost var m0 := m[..];
      WriteRecord(4 + c, data);
      ghost var mid := m[..];
      WriteCursor(c + 1 + |data|);
      HoldsAfterAppend(m0, mid, m[..], tokens, data);
      tokens := tokens + [data];
    }

    /** `bhf_vp_add`. */
    method Add(data: Bytes)
      requires Valid()
      modifies this`tokens, m, seen1, seenN
      ensures Valid()
      ensures Model() == Added(old(Model()), data)
    {
      if |data| == 0 || |data| > 8 { return; }
      var zero := true;
      for i := 0 to |data|
        invariant zero <==> forall k :: 0 <= k < i ==> data[k] == 0
      {
        if data[i] != 0 { zero := false; break; }
      }
      if zero { return; }
      var known := Remember(data);
      if known { return; }
      Append(data);
    }

    /** A run of the process, with others appending to the map in between. */
    method Play(ops: seq<Op>)
      requires Valid()
      modifies this`tokens, m, seen1, seenN
      ensures Valid() && Model() == AddedAll(old(Model()), ops)
    {
      ghost var start := Model();
      for i := 0 to |ops|
        invariant Valid() && Model() == AddedAll(start, ops[..i])
      {
        AddedAllStep(start, ops[..i], ops[i]);
        assert ops[..i + 1] == ops[..i] + [ops[i]];
        match ops[i]
        case Offer(data) => Add(data);
        case Other(t) => if Token(t) { Append(t); }
      }
      assert ops[..|ops|] == ops;
    }
  }
}
