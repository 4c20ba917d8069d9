/**
 The op-program control channel of a sequence harness. An input is argument bytes
 followed by a fixed-stride control block: an optional portfolio byte, one count
 byte, then one five-byte slot per possible step. The harness decodes the block in
 C; the engine describes and edits the same slots from its own decoder.
 */
module ControlChannel {
  import opened Bits

  type Bytes = seq<byte>

  const SLOT: nat := 5
  const U32: nat := 0x1_0000_0000

  datatype Option<T> = None | Some(value: T)

  // ---------------------------------------------------------------- the harness

  /** `BHF_CTRL_LEN`. */
  function CtrlLen(maxSteps: nat): nat { 1 + 5 * maxSteps }

  /** How many bytes `bhf_open_data` gives the argument cursor. */
  function ArgLen(size: nat, ctrlLen: nat): (n: nat)
    ensures n <= size
  {
    if size > ctrlLen then size - ctrlLen else size
  }

  function Arguments(data: Bytes, ctrlLen: nat): Bytes
  {
    data[..ArgLen(|data|, ctrlLen)]
  }

  /** `bhf_ctrl_step_count`. */
  function StepCount(data: Bytes, maxSteps: nat): (n: nat)
    ensures n <= maxSteps && n <= 255
  {
    if maxSteps == 0 || |data| < CtrlLen(maxSteps) then 0
    else data[|data| - CtrlLen(maxSteps)] % (maxSteps + 1)
  }

  function Clamp(raw: nat, min: nat, max: nat): nat
  {
    if raw < min then min else if raw > max then max else raw
  }

  /** `bhf_ctrl_bounded` on a slot's five bytes; over the full 32-bit range its divisor
      would wrap to zero. */
  function SlotValue(slot: Bytes, min: nat, max: nat): (v: nat)
    requires |slot| == SLOT && max < U32 && max - min < U32 - 1
    ensures min <= max ==> min <= v <= max
  {
    if max <= min then min
    else if slot[0] % 4 == 0 then
      Clamp(match slot[0] % 6 case 0 => min case 1 => min + 1 case 2 => max - 1 case 3 => max
            case 4 => 0 case _ => 0xffff_ffff, min, max)
    else min + OrDecode4(slot[1], slot[2], slot[3], slot[4]) % (max - min + 1)
  }

  /** Where slot `step` starts: counted back from the end of the input. */
  function SlotAt(size: nat, step: nat, maxSteps: nat): (at: nat)
    requires step < maxSteps && size >= CtrlLen(maxSteps)
    ensures size - CtrlLen(maxSteps) < at && at + SLOT <= size
  {
    size - CtrlLen(maxSteps) + 1 + 5 * step
  }

  /** `bhf_ctrl_op`. */
  function CtrlOp(data: Bytes, step: nat, maxSteps: nat, opCount: nat): (op: nat)
    requires opCount < U32
    ensures opCount > 0 ==> op < opCount
  {
    if opCount == 0 || step >= maxSteps || |data| < CtrlLen(maxSteps) then 0
    else
      var at := SlotAt(|data|, step, maxSteps);
      SlotValue(data[at..at + SLOT], 0, opCount - 1)
  }

  /** The operations every slot selects, whether or not the count reaches it. */
  function Ops(data: Bytes, maxSteps: nat, opCount: nat): seq<nat>
    requires opCount < U32
  {
    seq(maxSteps, step requires 0 <= step => CtrlOp(data, step, maxSteps, opCount))
  }

  /** The program the control block encodes. */
  function Program(data: Bytes, maxSteps: nat, opCount: nat): seq<nat>
    requires opCount < U32
  {
    Ops(data, maxSteps, opCount)[..StepCount(data, maxSteps)]
  }

  /** The operations a generated harness runs: the program, except that an input too short
      for the whole block, portfolio byte included, runs slot 0 once. */
  function Executed(data: Bytes, maxSteps: nat, extra: nat, opCount: nat): seq<nat>
    requires opCount < U32
  {
    if |data| < CtrlLen(maxSteps) + extra then [CtrlOp(data, 0, maxSteps, opCount)]
    else Program(data, maxSteps, opCount)
  }

  // ----------------------------------------------------------------- the engine

  /** `selector_bounded_value`; `limit` is `usize::MAX`. */
  function SelectorValue(selector: byte, min: nat, max: nat, limit: nat): nat
  {
    Clamp(match selector % 6 case 0 => min case 1 => min + 1
          case 2 => (if max > 0 then max - 1 else 0) case 3 => max case 4 => 0 case _ => limit, min, max)
  }

  /** `decode_bounded_range` over `bytes[start..end]`. */
  function DecodeBounded(bytes: Bytes, start: nat, end: nat, min: nat, max: nat, limit: nat): Option<nat>
  {
    if min > max || start >= end || end > |bytes| then None
    else if max <= min then Some(min)
    else if bytes[start] % 4 == 0 then Some(SelectorValue(bytes[start], min, max, limit))
    else if end - start < 5 then None
    else Some(min + FromLE(bytes[start + 1..start + 5]) % (max - min + 1))
  }

  /** The wide form of `encode_bounded_range`, which is the one a slot takes. */
  function EncodeBounded(bytes: Bytes, start: nat, end: nat, min: nat, max: nat, value: nat): (r: Option<Bytes>)
    requires start + 5 <= end
    ensures r.Some? ==> |r.value| == |bytes|
  {
    if value < min || value > max || end > |bytes| then None
    else Some(bytes[..start] + [1] + LE((value - min) % U32, 4) + bytes[start + 5..])
  }

  /** Slot `step` as `layout_for` describes it; `extra` is the portfolio byte, 0 or 1. */
  function LayoutAt(len: nat, step: nat, maxSteps: nat, extra: nat): nat
    requires len >= CtrlLen(maxSteps) + extra
  {
    var base, prefix := len - (CtrlLen(maxSteps) + extra), 1 + extra;
    base + prefix + 5 * step
  }

  /** `change_operation_selector` once it has chosen a step and an operation. */
  function ChangeOp(bytes: Bytes, step: nat, maxSteps: nat, extra: nat, opCount: nat, op: nat): Option<Bytes>
    requires |bytes| >= CtrlLen(maxSteps) + extra && opCount > 0
  {
    var at := LayoutAt(|bytes|, step, maxSteps, extra);
    EncodeBounded(bytes, at, at + SLOT, 0, opCount - 1, op)
  }

  /** `swap_operation_steps` once it has chosen two steps, the left one first. */
  function SwapSteps(bytes: Bytes, left: nat, right: nat, maxSteps: nat, extra: nat): Bytes
    requires |bytes| >= CtrlLen(maxSteps) + extra && left < right < maxSteps
  {
    var l, r := LayoutAt(|bytes|, left, maxSteps, extra), LayoutAt(|bytes|, right, maxSteps, extra);
    bytes[..l] + bytes[r..r + SLOT] + bytes[l + SLOT..r] + bytes[l..l + SLOT] + bytes[r + SLOT..]
  }

  // ------------------------------------------------ the two decoders are one decoder

  lemma LayoutIsSlotAt(len: nat, step: nat, maxSteps: nat, extra: nat)
    requires len >= CtrlLen(maxSteps) + extra && step < maxSteps
    ensures LayoutAt(len, step, maxSteps, extra) == SlotAt(len, step, maxSteps)
  {
  }

  /** The engine reads from every slot the operation the harness runs. */
  lemma EngineReadsHarnessOps(data: Bytes, step: nat, maxSteps: nat, extra: nat, opCount: nat, limit: nat)
    requires |data| >= CtrlLen(maxSteps) + extra && step < maxSteps
    requires 0 < opCount < U32 && limit >= U32 - 1
    ensures var at := LayoutAt(|data|, step, maxSteps, extra);
            DecodeBounded(data, at, at + SLOT, 0, opCount - 1, limit)
              == Some(CtrlOp(data, step, maxSteps, opCount))
  {
    var at := SlotAt(|data|, step, maxSteps);
    var slot := data[at..at + SLOT];
    OrDecode4IsFromLE(slot[1..5]);
    assert slot[1..5] == data[at + 1..at + 5];
  }

  // --------------------------------------------------------------- non-interference

  lemma OpFromTail(head: Bytes, tail: Bytes, step: nat, maxSteps: nat, opCount: nat)
    requires |tail| >= CtrlLen(maxSteps) && step < maxSteps && opCount < U32
    ensures CtrlOp(head + tail, step, maxSteps, opCount) == CtrlOp(tail, step, maxSteps, opCount)
  {
    var at := SlotAt(|tail|, step, maxSteps);
    assert SlotAt(|head + tail|, step, maxSteps) == |head| + at;
    assert (head + tail)[|head| + at..|head| + at + SLOT] == tail[at..at + SLOT];
  }

  /** The program is a function of the control block alone: changing the argument bytes,
      or how many of them there are, never changes it. */
  lemma ProgramFromTail(head: Bytes, tail: Bytes, maxSteps: nat, opCount: nat)
    requires |tail| >= CtrlLen(maxSteps) && opCount < U32
    ensures Program(head + tail, maxSteps, opCount) == Program(tail, maxSteps, opCount)
  {
    forall step | 0 <= step < maxSteps
      ensures CtrlOp(head + tail, step, maxSteps, opCount) == CtrlOp(tail, step, maxSteps, opCount)
    {
      OpFromTail(head, tail, step, maxSteps, opCount);
    }
    var c := |tail| - CtrlLen(maxSteps);
    assert (head + tail)[|head + tail| - CtrlLen(maxSteps)] == tail[c];
    assert Ops(head + tail, maxSteps, opCount) == Ops(tail, maxSteps, opCount);
  }

  /** The arguments are exactly the bytes before the block, whatever the block holds, if
      and only if there is at least one such byte: at the block's own length the cursor
      is opened over the block itself. */
  lemma ArgumentsAreHeadIff(head: Bytes, tail: Bytes)
    requires tail != []
    ensures Arguments(head + tail, |tail|) == head <==> head != []
  {
    if head == [] { assert Arguments(head + tail, |tail|) == head + tail; }
  }

  /** Two inputs of `size` bytes differ only in bytes the argument cursor covers, and yet
      decode to different programs. */
  ghost predicate ArgumentsChangeProgram(a: Bytes, b: Bytes, size: nat, maxSteps: nat, extra: nat, opCount: nat)
    requires opCount < U32
  {
    && |a| == |b| == size
    && var n := ArgLen(size, CtrlLen(maxSteps) + extra);
       a[n..] == b[n..] && Program(a, maxSteps, opCount) != Program(b, maxSteps, opCount)
  }

  /** Argument bytes can change the program exactly at the sizes from the bare block up to
      the block with its portfolio byte, when there is a step to decode. */
  lemma ChannelsShareIff(size: nat, maxSteps: nat, extra: nat, opCount: nat)
    requires opCount < U32
    ensures (exists a, b :: ArgumentsChangeProgram(a, b, size, maxSteps, extra, opCount))
            <==> maxSteps > 0 && CtrlLen(maxSteps) <= size <= CtrlLen(maxSteps) + extra
  {
    if maxSteps > 0 && CtrlLen(maxSteps) <= size <= CtrlLen(maxSteps) + extra {
      var a, b := CountEdit(size, maxSteps, opCount);
      assert ArgumentsChangeProgram(a, b, size, maxSteps, extra, opCount);
    }
    if a, b :| ArgumentsChangeProgram(a, b, size, maxSteps, extra, opCount) {
      if size > CtrlLen(maxSteps) + extra {
        SameProgramFromTail(a, b, size - CtrlLen(maxSteps) - extra, maxSteps, opCount);
      }
    }
  }

  /** Editing the count byte changes how long the program is. */
  lemma CountEdit(size: nat, maxSteps: nat, opCount: nat) returns (a: Bytes, b: Bytes)
    requires maxSteps > 0 && size >= CtrlLen(maxSteps) && opCount < U32
    ensures |a| == |b| == size && Program(a, maxSteps, opCount) != Program(b, maxSteps, opCount)
  {
    a := seq(size, _ => 0);
    b := a[size - CtrlLen(maxSteps) := 1];
    DivModUnique(0, maxSteps + 1, 0, 0);
    DivModUnique(1, maxSteps + 1, 0, 1);
    assert |Program(a, maxSteps, opCount)| == 0 && |Program(b, maxSteps, opCount)| == 1;
  }

  lemma SameProgramFromTail(a: Bytes, b: Bytes, n: nat, maxSteps: nat, opCount: nat)
    requires |a| == |b| >= n + CtrlLen(maxSteps) && a[n..] == b[n..] && opCount < U32
    ensures Program(a, maxSteps, opCount) == Program(b, maxSteps, opCount)
  {
    ProgramFromTail(a[..n], a[n..], maxSteps, opCount);
    ProgramFromTail(b[..n], b[n..], maxSteps, opCount);
    assert a == a[..n] + a[n..] && b == b[..n] + b[n..];
  }

  // ------------------------------------------------------------- wrapping arithmetic

  lemma ModStep(c: nat, d: nat)
    requires d > 0
    ensures (c + 1) % d == if c % d == d - 1 then 0 else c % d + 1
  {
    var q, r := c / d, c % d;
    if r == d - 1 {
      assert d * (q + 1) == d * q + d;
      DivModUnique(c + 1, d, q + 1, 0);
    } else {
      DivModUnique(c + 1, d, q, r + 1);
    }
  }

  /** Counting up the count byte counts the steps up, from none to the maximum and round. */
  lemma StepCountWraps(data: Bytes, maxSteps: nat)
    requires maxSteps > 0 && |data| >= CtrlLen(maxSteps)
    ensures var at := |data| - CtrlLen(maxSteps);
            && (data[at] == 0 ==> StepCount(data, maxSteps) == 0)
            && (data[at] < 255 ==>
                  StepCount(data[at := data[at] + 1], maxSteps)
                  == if StepCount(data, maxSteps) == maxSteps then 0 else StepCount(data, maxSteps) + 1)
  {
    var at := |data| - CtrlLen(maxSteps);
    if data[at] == 0 { DivModUnique(0, maxSteps + 1, 0, 0); }
    if data[at] < 255 { ModStep(data[at], maxSteps + 1); }
  }

  lemma WordValue(selector: byte, word: nat, min: nat, max: nat)
    requires selector % 4 != 0 && word < U32 && min < max < U32 && max - min < U32 - 1
    ensures SlotValue([selector] + LE(word, 4), min, max) == min + word % (max - min + 1)
  {
    var slot := [selector] + LE(word, 4);
    Pow256At4();
    assert slot[1..5] == LE(word, 4);
    FromLEOfLE(word, 4);
    OrDecode4IsFromLE(slot[1..5]);
  }

  /** Counting up the value word counts the value up, from the least to the greatest and
      round, whatever the selector says as long as it is no multiple of four. */
  lemma SlotValueWraps(selector: byte, word: nat, min: nat, max: nat)
    requires selector % 4 != 0 && word + 1 < U32 && min < max < U32 && max - min < U32 - 1
    ensures SlotValue([selector] + LE(0, 4), min, max) == min
    ensures var v := SlotValue([selector] + LE(word, 4), min, max);
            SlotValue([selector] + LE(word + 1, 4), min, max) == if v == max then min else v + 1
  {
    WordValue(selector, 0, min, max);
    DivModUnique(0, max - min + 1, 0, 0);
    WordValue(selector, word, min, max);
    WordValue(selector, word + 1, min, max);
    ModStep(word, max - min + 1);
  }

  /** Of the boundary values the comments name, a selector that is a multiple of four, hence
      even, only ever takes the least, the one below the greatest, and zero clamped. */
  lemma BoundaryValues(slot: Bytes, min: nat, max: nat)
    requires |slot| == SLOT && min < max < U32 && max - min < U32 - 1 && slot[0] % 4 == 0
    ensures SlotValue(slot, min, max) == if slot[0] % 6 == 2 then max - 1 else min
  {
    assert slot[0] % 6 == 0 || slot[0] % 6 == 2 || slot[0] % 6 == 4;
  }

  /** Slots lie inside the block, after the count byte, and do not overlap. */
  lemma SlotsDisjoint(size: nat, i: nat, j: nat, maxSteps: nat)
    requires i < j < maxSteps && size >= CtrlLen(maxSteps)
    ensures size - CtrlLen(maxSteps) < SlotAt(size, i, maxSteps)
    ensures SlotAt(size, i, maxSteps) + SLOT <= SlotAt(size, j, maxSteps)
    ensures SlotAt(size, j, maxSteps) + SLOT <= size
  {
  }

  // --------------------------------------------------------- which programs there are

  function EncodeOps(ops: seq<nat>, maxSteps: nat): (s: Bytes)
    requires |ops| <= maxSteps
    ensures |s| == 5 * maxSteps
  {
    if maxSteps == 0 then []
    else if ops == [] then [1, 0, 0, 0, 0] + EncodeOps([], maxSteps - 1)
    else [1] + LE(ops[0] % U32, 4) + EncodeOps(ops[1..], maxSteps - 1)
  }

  /** A control block for `ops`. */
  function EncodeProgram(ops: seq<nat>, maxSteps: nat): (s: Bytes)
    requires |ops| <= maxSteps && |ops| <= 255
    ensures |s| == CtrlLen(maxSteps)
  {
    [|ops|] + EncodeOps(ops, maxSteps)
  }

  lemma {:induction false} EncodeOpsAt(ops: seq<nat>, maxSteps: nat, i: nat)
    requires i < |ops| <= maxSteps
    ensures EncodeOps(ops, maxSteps)[5 * i..5 * i + 5] == [1] + LE(ops[i] % U32, 4)
  {
    var first, rest := [1] + LE(ops[0] % U32, 4), EncodeOps(ops[1..], maxSteps - 1);
    if i > 0 {
      EncodeOpsAt(ops[1..], maxSteps - 1, i - 1);
      assert (first + rest)[5 * i..5 * i + 5] == rest[5 * (i - 1)..5 * (i - 1) + 5];
    }
  }

  lemma EncodedRaw(slot: Bytes, op: nat)
    requires op < U32 && slot == [1] + LE(op, 4)
    ensures OrDecode4(slot[1], slot[2], slot[3], slot[4]) == op
  {
    Pow256At4();
    var word := slot[1..5];
    assert word == LE(op, 4);
    FromLEOfLE(op, 4);
    OrDecode4IsFromLE(word);
  }

  lemma EncodedSlotValue(op: nat, opCount: nat)
    requires op < opCount < U32
    ensures SlotValue([1] + LE(op % U32, 4), 0, opCount - 1) == op
  {
    assert op % U32 == op;
    EncodedRaw([1] + LE(op, 4), op);
    DivModUnique(op, opCount, 0, op);
  }

  lemma EncodedSlot(ops: seq<nat>, maxSteps: nat, i: nat)
    requires i < |ops| <= maxSteps && |ops| <= 255
    ensures var tail := EncodeProgram(ops, maxSteps);
            var at := SlotAt(|tail|, i, maxSteps);
            tail[at..at + SLOT] == [1] + LE(ops[i] % U32, 4)
  {
    var tail, body := EncodeProgram(ops, maxSteps), EncodeOps(ops, maxSteps);
    EncodeOpsAt(ops, maxSteps, i);
    assert tail[1 + 5 * i..1 + 5 * i + 5] == body[5 * i..5 * i + 5];
  }

  /** Equal slots select equal operations. */
  lemma SameSlot(a: Bytes, i: nat, b: Bytes, j: nat, maxSteps: nat, opCount: nat)
    requires |a| >= CtrlLen(maxSteps) && |b| >= CtrlLen(maxSteps) && i < maxSteps && j < maxSteps && opCount < U32
    requires var k, l := SlotAt(|a|, i, maxSteps), SlotAt(|b|, j, maxSteps); a[k..k + SLOT] == b[l..l + SLOT]
    ensures CtrlOp(a, i, maxSteps, opCount) == CtrlOp(b, j, maxSteps, opCount)
  {
  }

  lemma EncodedOp(data: Bytes, i: nat, maxSteps: nat, opCount: nat, op: nat)
    requires |data| >= CtrlLen(maxSteps) && i < maxSteps && op < opCount < U32
    requires var at := SlotAt(|data|, i, maxSteps); data[at..at + SLOT] == [1] + LE(op % U32, 4)
    ensures CtrlOp(data, i, maxSteps, opCount) == op
  {
    EncodedSlotValue(op, opCount);
  }

  /** Round trip behind any argument bytes. */
  lemma ProgramRoundTrip(head: Bytes, ops: seq<nat>, maxSteps: nat, opCount: nat)
    requires |ops| <= maxSteps && |ops| <= 255 && opCount < U32
    requires forall i :: 0 <= i < |ops| ==> ops[i] < opCount
    ensures Program(head + EncodeProgram(ops, maxSteps), maxSteps, opCount) == ops
  {
    var tail := EncodeProgram(ops, maxSteps);
    ProgramFromTail(head, tail, maxSteps, opCount);
    assert StepCount(tail, maxSteps) == |ops| by {
      DivModUnique(|ops|, maxSteps + 1, 0, |ops|);
    }
    forall i | 0 <= i < |ops|
      ensures Ops(tail, maxSteps, opCount)[i] == ops[i]
    {
      EncodedSlot(ops, maxSteps, i);
      EncodedOp(tail, i, maxSteps, opCount, ops[i]);
    }
  }

  /** Every input too short for the whole block runs exactly one operation. */
  lemma ShortInputsRunOne(data: Bytes, maxSteps: nat, extra: nat, opCount: nat)
    requires opCount < U32
    ensures |Executed(data, maxSteps, extra, opCount)|
            == if |data| < CtrlLen(maxSteps) + extra then 1 else StepCount(data, maxSteps)
    ensures |data| < CtrlLen(maxSteps) ==> Executed(data, maxSteps, extra, opCount) == [0]
  {
  }

  /** Two inputs of `size` bytes differ only in bytes the argument cursor covers, and yet
      run different operations. */
  ghost predicate ArgumentsChangeExecution(a: Bytes, b: Bytes, size: nat, maxSteps: nat, extra: nat, opCount: nat)
    requires opCount < U32
  {
    && |a| == |b| == size
    && var n := ArgLen(size, CtrlLen(maxSteps) + extra);
       a[n..] == b[n..] && Executed(a, maxSteps, extra, opCount) != Executed(b, maxSteps, extra, opCount)
  }

  /** Argument bytes can change what runs exactly at the size of the whole block, and between
      the bare block and that size when there are two operations to choose from. */
  lemma ExecutionSharesIff(size: nat, maxSteps: nat, extra: nat, opCount: nat)
    requires opCount < U32
    ensures (exists a, b :: ArgumentsChangeExecution(a, b, size, maxSteps, extra, opCount))
            <==> maxSteps > 0 && (size == CtrlLen(maxSteps) + extra
                                  || (opCount >= 2 && CtrlLen(maxSteps) <= size < CtrlLen(maxSteps) + extra))
  {
    if CanChange(size, maxSteps, extra, opCount) {
      var a, b := ExecutionEdit(size, maxSteps, extra, opCount);
    }
    if a, b :| ArgumentsChangeExecution(a, b, size, maxSteps, extra, opCount) {
      ChangeNeeds(a, b, size, maxSteps, extra, opCount);
    }
  }

  /** The sizes at which argument bytes decide what runs. */
  predicate CanChange(size: nat, maxSteps: nat, extra: nat, opCount: nat)
  {
    && maxSteps > 0
    && (size == CtrlLen(maxSteps) + extra
        || (opCount >= 2 && CtrlLen(maxSteps) <= size < CtrlLen(maxSteps) + extra))
  }

  lemma ExecutionEdit(size: nat, maxSteps: nat, extra: nat, opCount: nat) returns (a: Bytes, b: Bytes)
    requires opCount < U32 && CanChange(size, maxSteps, extra, opCount)
    ensures ArgumentsChangeExecution(a, b, size, maxSteps, extra, opCount)
  {
    if size == CtrlLen(maxSteps) + extra {
      a, b := CountEdit(size, maxSteps, opCount);
    } else {
      a, b := SlotEdit(size, maxSteps, opCount);
    }
  }

  lemma ChangeNeeds(a: Bytes, b: Bytes, size: nat, maxSteps: nat, extra: nat, opCount: nat)
    requires opCount < U32 && ArgumentsChangeExecution(a, b, size, maxSteps, extra, opCount)
    ensures CanChange(size, maxSteps, extra, opCount)
  {
    if size > CtrlLen(maxSteps) + extra {
      SameProgramFromTail(a, b, size - CtrlLen(maxSteps) - extra, maxSteps, opCount);
    }
  }

  /** Editing slot 0 changes the first operation. */
  lemma SlotEdit(size: nat, maxSteps: nat, opCount: nat) returns (a: Bytes, b: Bytes)
    requires maxSteps > 0 && size >= CtrlLen(maxSteps) && 2 <= opCount < U32
    ensures |a| == |b| == size && CtrlOp(a, 0, maxSteps, opCount) == 0 && CtrlOp(b, 0, maxSteps, opCount) == 1
  {
    var head: Bytes := seq(size - CtrlLen(maxSteps), _ => 0);
    a, b := head + EncodeProgram([0], maxSteps), head + EncodeProgram([1], maxSteps);
    ProgramRoundTrip(head, [0], maxSteps, opCount);
    ProgramRoundTrip(head, [1], maxSteps, opCount);
    assert Program(a, maxSteps, opCount)[0] == 0 && Program(b, maxSteps, opCount)[0] == 1;
  }

  /** Exactly the programs of at most 255 operations within the step and operation
      bounds have an encoding. */
  lemma RepresentableIff(ops: seq<nat>, maxSteps: nat, opCount: nat)
    requires 0 < opCount < U32
    ensures (exists data: Bytes :: Program(data, maxSteps, opCount) == ops)
            <==> |ops| <= maxSteps && |ops| <= 255 && forall i :: 0 <= i < |ops| ==> ops[i] < opCount
  {
    if |ops| <= maxSteps && |ops| <= 255 && forall i :: 0 <= i < |ops| ==> ops[i] < opCount {
      ProgramRoundTrip([], ops, maxSteps, opCount);
    }
  }

  // ------------------------------------------------------------ what the edits do

  lemma SliceEq(a: Bytes, b: Bytes, lo: nat, hi: nat)
    requires lo <= hi <= |a| && |a| == |b|
    requires forall k :: lo <= k < hi ==> a[k] == b[k]
    ensures a[lo..hi] == b[lo..hi]
  {
  }

  /** Bytes before the first slot carry the count and the arguments. */
  lemma SameBeforeSlots(a: Bytes, b: Bytes, maxSteps: nat, extra: nat)
    requires |a| == |b| >= CtrlLen(maxSteps) + extra
    requires forall k :: 0 <= k <= |a| - CtrlLen(maxSteps) ==> a[k] == b[k]
    ensures StepCount(a, maxSteps) == StepCount(b, maxSteps)
    ensures |a| > CtrlLen(maxSteps) + extra ==>
              Arguments(a, CtrlLen(maxSteps) + extra) == Arguments(b, CtrlLen(maxSteps) + extra)
  {
  }

  lemma ChangedOps(data: Bytes, out: Bytes, step: nat, maxSteps: nat, opCount: nat, op: nat)
    requires |data| == |out| >= CtrlLen(maxSteps) && step < maxSteps && op < opCount < U32
    requires var at := SlotAt(|data|, step, maxSteps);
             && out[at..at + SLOT] == [1] + LE(op % U32, 4)
             && forall k :: 0 <= k < |data| && !(at <= k < at + SLOT) ==> out[k] == data[k]
    ensures Ops(out, maxSteps, opCount) == Ops(data, maxSteps, opCount)[step := op]
  {
    EncodedOp(out, step, maxSteps, opCount, op);
    forall i | 0 <= i < maxSteps && i != step
      ensures CtrlOp(out, i, maxSteps, opCount) == CtrlOp(data, i, maxSteps, opCount)
    {
      var o := SlotAt(|data|, i, maxSteps);
      if i < step { SlotsDisjoint(|data|, i, step, maxSteps); } else { SlotsDisjoint(|data|, step, i, maxSteps); }
      SliceEq(out, data, o, o + SLOT);
      SameSlot(out, i, data, i, maxSteps, opCount);
    }
  }

  /** Retargeting one step replaces that operation and nothing else: same count, same
      other operations, same arguments. */
  lemma ChangeOpRetargets(data: Bytes, step: nat, maxSteps: nat, extra: nat, opCount: nat, op: nat)
    requires |data| >= CtrlLen(maxSteps) + extra && step < maxSteps && op < opCount < U32
    ensures var r := ChangeOp(data, step, maxSteps, extra, opCount, op);
            && r.Some?
            && Ops(r.value, maxSteps, opCount) == Ops(data, maxSteps, opCount)[step := op]
            && StepCount(r.value, maxSteps) == StepCount(data, maxSteps)
            && (|data| > CtrlLen(maxSteps) + extra ==>
                  Arguments(r.value, CtrlLen(maxSteps) + extra) == Arguments(data, CtrlLen(maxSteps) + extra))
  {
    var at := SlotAt(|data|, step, maxSteps);
    var out := ChangeOp(data, step, maxSteps, extra, opCount, op).value;
    assert forall k :: 0 <= k < |data| && !(at <= k < at + SLOT) ==> out[k] == data[k];
    assert out[at..at + SLOT] == [1] + LE(op % U32, 4);
    ChangedOps(data, out, step, maxSteps, opCount, op);
    SameBeforeSlots(out, data, maxSteps, extra);
  }

  lemma SwappedBytes(data: Bytes, l: nat, r: nat, out: Bytes)
    requires l + SLOT <= r && r + SLOT <= |data|
    requires out == data[..l] + data[r..r + SLOT] + data[l + SLOT..r] + data[l..l + SLOT] + data[r + SLOT..]
    ensures |out| == |data| && out[l..l + SLOT] == data[r..r + SLOT] && out[r..r + SLOT] == data[l..l + SLOT]
    ensures forall k :: 0 <= k < |data| && !(l <= k < l + SLOT) && !(r <= k < r + SLOT) ==> out[k] == data[k]
  {
  }

  lemma SwapOps(data: Bytes, out: Bytes, left: nat, right: nat, maxSteps: nat, opCount: nat)
    requires |data| == |out| >= CtrlLen(maxSteps) && left < right < maxSteps && opCount < U32
    requires var l, r := SlotAt(|data|, left, maxSteps), SlotAt(|data|, right, maxSteps);
             && out[l..l + SLOT] == data[r..r + SLOT] && out[r..r + SLOT] == data[l..l + SLOT]
             && forall k :: 0 <= k < |data| && !(l <= k < l + SLOT) && !(r <= k < r + SLOT) ==> out[k] == data[k]
    ensures var ops := Ops(data, maxSteps, opCount);
            Ops(out, maxSteps, opCount) == ops[left := ops[right]][right := ops[left]]
  {
    forall i | 0 <= i < maxSteps
      ensures CtrlOp(out, i, maxSteps, opCount) == CtrlOp(data, Swapped(i, left, right), maxSteps, opCount)
    {
      if i != left && i != right { SwapLeavesSlot(data, out, left, right, maxSteps, i); }
      SameSlot(out, i, data, Swapped(i, left, right), maxSteps, opCount);
    }
    SwappedOps(Ops(out, maxSteps, opCount), Ops(data, maxSteps, opCount), left, right);
  }

  /** Swapping two steps swaps their operations and nothing else. */
  lemma SwapStepsSwaps(data: Bytes, left: nat, right: nat, maxSteps: nat, extra: nat, opCount: nat)
    requires |data| >= CtrlLen(maxSteps) + extra && left < right < maxSteps && opCount < U32
    ensures var out, ops := SwapSteps(data, left, right, maxSteps, extra), Ops(data, maxSteps, opCount);
            && Ops(out, maxSteps, opCount) == ops[left := ops[right]][right := ops[left]]
            && StepCount(out, maxSteps) == StepCount(data, maxSteps)
            && (|data| > CtrlLen(maxSteps) + extra ==>
                  Arguments(out, CtrlLen(maxSteps) + extra) == Arguments(data, CtrlLen(maxSteps) + extra))
  {
    var out := SwapSteps(data, left, right, maxSteps, extra);
    var l, r := SlotAt(|data|, left, maxSteps), SlotAt(|data|, right, maxSteps);
    SlotsDisjoint(|data|, left, right, maxSteps);
    SwappedBytes(data, l, r, out);
    SwapOps(data, out, left, right, maxSteps, opCount);
    SameBeforeSlots(out, data, maxSteps, extra);
  }

  function Swapped(i: nat, left: nat, right: nat): nat { if i == left then right else if i == right then left else i }

  lemma SwappedOps(after: seq<nat>, before: seq<nat>, left: nat, right: nat)
    requires |after| == |before| && left < right < |before|
    requires forall i :: 0 <= i < |after| ==> after[i] == before[Swapped(i, left, right)]
    ensures after == before[left := before[right]][right := before[left]]
  {
  }

  lemma SwapLeavesSlot(data: Bytes, out: Bytes, left: nat, right: nat, maxSteps: nat, i: nat)
    requires |data| == |out| >= CtrlLen(maxSteps) && left < right < maxSteps
    requires var l, r := SlotAt(|data|, left, maxSteps), SlotAt(|data|, right, maxSteps);
             forall k :: 0 <= k < |data| && !(l <= k < l + SLOT) && !(r <= k < r + SLOT) ==> out[k] == data[k]
    requires i < maxSteps && i != left && i != right
    ensures var o := SlotAt(|data|, i, maxSteps); out[o..o + SLOT] == data[o..o + SLOT]
  {
    var o := SlotAt(|data|, i, maxSteps);
    if i < left { SlotsDisjoint(|data|, i, left, maxSteps); } else { SlotsDisjoint(|data|, left, i, maxSteps); }
    if i < right { SlotsDisjoint(|data|, i, right, maxSteps); } else { SlotsDisjoint(|data|, right, i, maxSteps); }
    SliceEq(out, data, o, o + SLOT);
  }
}
