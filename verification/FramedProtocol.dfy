/**
 The persistent fork-server protocol. The engine writes `{u32 LE length, bytes}`
 frames; the C and Python drivers answer one ready byte and then one sync byte
 per completed input. Pipes may return any short read, reads and writes may
 fail, and the target may die on any input.
 */
module FramedProtocol {
  import opened Bits

  type Bytes = seq<byte>

  /** The C driver's input buffer, and the engine's `FRAMED_INPUT_CAP`. */
  const CAP: nat := 0x10_0000
  const U32: nat := 0x1_0000_0000

  function Min(a: nat, b: nat): nat { if a <= b then a else b }

  // ---------------------------------------------------------------- wire format

  function Frame(f: Bytes): Bytes
    requires |f| < U32
  {
    LE(|f|, 4) + f
  }

  ghost predicate Frameable(frames: seq<Bytes>) { forall i :: 0 <= i < |frames| ==> |frames[i]| < U32 }

  ghost predicate WithinCap(frames: seq<Bytes>) { forall i :: 0 <= i < |frames| ==> |frames[i]| <= CAP }

  ghost function Stream(frames: seq<Bytes>): Bytes
    requires Frameable(frames)
  {
    if frames == [] then [] else Frame(frames[0]) + Stream(frames[1..])
  }

  /** What the engine sends for each input: the length is clamped to the buffer. */
  function Clamped(input: Bytes): (f: Bytes)
    ensures |f| == Min(|input|, CAP) && f <= input
  {
    input[..Min(|input|, CAP)]
  }

  function ClampedAll(inputs: seq<Bytes>): (r: seq<Bytes>)
    ensures |r| == |inputs| && WithinCap(r)
    ensures forall i :: 0 <= i < |r| ==> r[i] == Clamped(inputs[i])
  {
    if inputs == [] then [] else [Clamped(inputs[0])] + ClampedAll(inputs[1..])
  }

  // ------------------------------------------- what a byte stream makes a driver run

  /** Inputs the C driver runs: an over-long header is clamped and its surplus left
      in the pipe, and a truncated body stops the loop. */
  function CInputs(s: Bytes): seq<Bytes>
    decreases |s|
  {
    if |s| < 4 then [] else
    var len := Min(FromLE(s[..4]), CAP);
    if |s| < 4 + len then [] else [s[4..4 + len]] + CInputs(s[4 + len..])
  }

  /** Inputs the Python driver runs: the header is not clamped, and a body cut short
      by end of file is run as it is. */
  function PyInputs(s: Bytes): seq<Bytes>
    decreases |s|
  {
    if |s| < 4 then [] else
    var len := FromLE(s[..4]);
    if |s| < 4 + len then [s[4..]] else [s[4..4 + len]] + PyInputs(s[4 + len..])
  }

  lemma FrameParts(f: Bytes, tail: Bytes)
    requires |f| < U32
    ensures var s := Frame(f) + tail;
            |s| == 4 + |f| + |tail| && s[..4] == LE(|f|, 4) && FromLE(s[..4]) == |f|
            && s[4..4 + |f|] == f && s[4 + |f|..] == tail
  {
    Pow256At4();
    FromLEOfLE(|f|, 4);
  }

  lemma StreamCons(frames: seq<Bytes>, tail: Bytes)
    requires Frameable(frames) && frames != []
    ensures Frameable(frames[1..])
    ensures Stream(frames) + tail == Frame(frames[0]) + (Stream(frames[1..]) + tail)
  {
  }

  lemma ConsAppend(frames: seq<Bytes>, tail: seq<Bytes>, rest: seq<Bytes>)
    requires frames != [] && rest == frames[1..] + tail
    ensures [frames[0]] + rest == frames + tail
  {
  }

  lemma CInputsStep(f: Bytes, rest: Bytes)
    requires |f| <= CAP
    ensures CInputs(Frame(f) + rest) == [f] + CInputs(rest)
  {
    FrameParts(f, rest);
  }

  lemma PyInputsStep(f: Bytes, rest: Bytes)
    requires |f| < U32
    ensures PyInputs(Frame(f) + rest) == [f] + PyInputs(rest)
  {
    FrameParts(f, rest);
  }

  lemma {:induction false} CInputsOfFrames(frames: seq<Bytes>, tail: Bytes)
    requires WithinCap(frames)
    ensures CInputs(Stream(frames) + tail) == frames + CInputs(tail)
  {
    if frames == [] {
      assert Stream(frames) + tail == tail;
    } else {
      var rest := Stream(frames[1..]) + tail;
      StreamCons(frames, tail);
      CInputsStep(frames[0], rest);
      CInputsOfFrames(frames[1..], tail);
      ConsAppend(frames, CInputs(tail), CInputs(rest));
    }
  }

  lemma {:induction false} PyInputsOfFrames(frames: seq<Bytes>, tail: Bytes)
    requires Frameable(frames)
    ensures PyInputs(Stream(frames) + tail) == frames + PyInputs(tail)
  {
    if frames == [] {
      assert Stream(frames) + tail == tail;
    } else {
      var rest := Stream(frames[1..]) + tail;
      StreamCons(frames, tail);
      PyInputsStep(frames[0], rest);
      PyInputsOfFrames(frames[1..], tail);
      ConsAppend(frames, PyInputs(tail), PyInputs(rest));
    }
  }

  /** End to end: whatever the engine sends, of any length, both drivers run exactly
      the first `CAP` bytes of each input, in order. */
  lemma EngineToDrivers(inputs: seq<Bytes>)
    ensures CInputs(Stream(ClampedAll(inputs))) == ClampedAll(inputs)
    ensures PyInputs(Stream(ClampedAll(inputs))) == ClampedAll(inputs)
  {
    var frames := ClampedAll(inputs);
    CInputsOfFrames(frames, []);
    PyInputsOfFrames(frames, []);
    assert Stream(frames) + [] == Stream(frames);
  }

  /** The C driver runs exactly the frames it is sent if and only if none is longer
      than its buffer; the Python driver always does. */
  lemma {:induction false} CRunsFramesIff(frames: seq<Bytes>)
    requires Frameable(frames)
    ensures CInputs(Stream(frames)) == frames <==> WithinCap(frames)
    ensures PyInputs(Stream(frames)) == frames
  {
    assert Stream(frames) + [] == Stream(frames);
    PyInputsOfFrames(frames, []);
    if WithinCap(frames) {
      CInputsOfFrames(frames, []);
    } else {
      COverlongFrame(frames);
    }
  }

  lemma {:induction false} COverlongFrame(frames: seq<Bytes>)
    requires Frameable(frames) && !WithinCap(frames)
    ensures CInputs(Stream(frames)) != frames
  {
    StreamCons(frames, []);
    assert Stream(frames) + [] == Stream(frames) && Stream(frames[1..]) + [] == Stream(frames[1..]);
    FrameParts(frames[0], Stream(frames[1..]));
    if |frames[0]| > CAP {
      assert |CInputs(Stream(frames))[0]| == CAP;
    } else {
      COverlongFrame(frames[1..]);
      assert CInputs(Stream(frames)) == [frames[0]] + CInputs(Stream(frames[1..]));
      assert CInputs(Stream(frames))[1..] == CInputs(Stream(frames[1..]));
    }
  }

  /** An over-long frame: C runs its first `CAP` bytes and takes the others for frames. */
  lemma OverlongFrame(f: Bytes, rest: Bytes)
    requires CAP < |f| < U32
    ensures CInputs(Frame(f) + rest) == [f[..CAP]] + CInputs(f[CAP..] + rest)
  {
    FrameParts(f, rest);
    var s := Frame(f) + rest;
    assert s[4..4 + CAP] == f[..CAP] && s[4 + CAP..] == f[CAP..] + rest;
  }

  /** A frame cut anywhere: C drops it, Python runs what arrived of the body. */
  lemma TruncatedLastFrame(frames: seq<Bytes>, last: Bytes, cut: nat)
    requires WithinCap(frames) && |last| <= CAP && cut < |Frame(last)|
    ensures CInputs(Stream(frames) + Frame(last)[..cut]) == frames
    ensures PyInputs(Stream(frames) + Frame(last)[..cut]) ==
            if cut < 4 then frames else frames + [last[..cut - 4]]
  {
    var tail := Frame(last)[..cut];
    CInputsOfFrames(frames, tail);
    PyInputsOfFrames(frames, tail);
    FrameParts(last, []);
    if cut >= 4 {
      assert tail[..4] == LE(|last|, 4) && tail[4..] == last[..cut - 4];
      Pow256At4();
      FromLEOfLE(|last|, 4);
    }
  }

  /** How an unframed end of stream can look the same to both drivers: too short for
      a header, or an over-long header with exactly one buffer of body. */
  predicate HarmlessTail(tail: Bytes)
  {
    |tail| < 4 || (|tail| == 4 + CAP && FromLE(tail[..4]) > CAP)
  }

  ghost predicate CleanlyFramed(s: Bytes)
  {
    exists frames: seq<Bytes>, tail: Bytes ::
      WithinCap(frames) && HarmlessTail(tail) && s == Stream(frames) + tail
  }

  /** Over every byte stream whatever, the two drivers run the same inputs exactly on
      the cleanly framed ones. */
  lemma DriversAgreeIff(s: Bytes)
    ensures CInputs(s) == PyInputs(s) <==> CleanlyFramed(s)
  {
    if CleanlyFramed(s) {
      var frames: seq<Bytes>, tail: Bytes :| WithinCap(frames) && HarmlessTail(tail) && s == Stream(frames) + tail;
      CInputsOfFrames(frames, tail);
      PyInputsOfFrames(frames, tail);
      TailAgreement(tail);
    }
    if CInputs(s) == PyInputs(s) {
      AgreementIsClean(s);
    }
  }

  lemma TailAgreement(tail: Bytes)
    requires HarmlessTail(tail)
    ensures CInputs(tail) == PyInputs(tail)
  {
    if |tail| >= 4 {
      assert tail[4..] == tail[4..4 + CAP] && CInputs(tail[4 + CAP..]) == [];
    }
  }

  lemma {:induction false} AgreementIsClean(s: Bytes)
    requires CInputs(s) == PyInputs(s)
    ensures CleanlyFramed(s)
    decreases |s|
  {
    if |s| < 4 || |s| < 4 + FromLE(s[..4]) {
      AgreementAtEnd(s);
      assert WithinCap([]) && s == Stream([]) + s;
    } else {
      var f, rest := AgreementStep(s);
      AgreementIsClean(rest);
      var frames: seq<Bytes>, tail: Bytes :| WithinCap(frames) && HarmlessTail(tail) && rest == Stream(frames) + tail;
      var all := [f] + frames;
      assert all[1..] == frames;
      StreamCons(all, tail);
      assert WithinCap(all) && s == Stream(all) + tail;
    }
  }

  lemma AgreementAtEnd(s: Bytes)
    requires CInputs(s) == PyInputs(s)
    requires |s| < 4 || |s| < 4 + FromLE(s[..4])
    ensures HarmlessTail(s)
  {
    if |s| >= 4 {
      var n := FromLE(s[..4]);
      assert PyInputs(s) == [s[4..]];
      FirstCInput(s, n);
      assert |CInputs(s)[0]| == |s[4..]|;
    }
  }

  lemma FirstCInput(s: Bytes, n: nat)
    requires |s| >= 4 && n == FromLE(s[..4]) && CInputs(s) != []
    ensures |s| >= 4 + Min(n, CAP) && |CInputs(s)[0]| == Min(n, CAP)
  {
  }

  lemma AgreementStep(s: Bytes) returns (f: Bytes, rest: Bytes)
    requires CInputs(s) == PyInputs(s)
    requires |s| >= 4 && |s| >= 4 + FromLE(s[..4])
    ensures |f| <= CAP && s == Frame(f) + rest && CInputs(rest) == PyInputs(rest) && |rest| < |s|
  {
    var n := FromLE(s[..4]);
    f, rest := s[4..4 + n], s[4 + n..];
    assert PyInputs(s) == [f] + PyInputs(rest);
    assert |CInputs(s)[0]| <= CAP;
    LEOfFromLE(s[..4]);
    assert s == Frame(f) + rest;
    CInputsStep(f, rest);
    assert CInputs(rest) == CInputs(s)[1..] && PyInputs(rest) == PyInputs(s)[1..];
  }

  // ------------------------------------------------------------------ the processes

  /** A pipe: a read returns any nonempty chunk no longer than asked, nothing at end
      of file, or fails. */
  class Pipe {
    var unread: Bytes

    constructor (content: Bytes)
      ensures unread == content
    {
      unread := content;
    }

    method Read(max: nat) returns (chunk: Bytes, failed: bool)
      requires max > 0
      modifies this
      ensures failed ==> chunk == []
      ensures chunk + unread == old(unread) && |chunk| <= max
      ensures !failed && chunk == [] ==> unread == []
    {
      chunk, failed := [], false;
      if * {
        failed := true;
      } else if unread != [] {
        var k: nat :| 1 <= k <= max && k <= |unread|;
        chunk, unread := unread[..k], unread[k..];
      }
    }
  }

  /** The control pipe back to the engine, and the target with the inputs it was given. */
  class Session {
    var control: Bytes
    var ran: seq<Bytes>

    constructor ()
      ensures control == [] && ran == []
    {
      control, ran := [], [];
    }

    method WriteByte() returns (ok: bool)
      modifies this`control
      ensures control == if ok then old(control) + [1] else old(control)
    {
      ok := *;
      if ok { control := control + [1]; }
    }

    method RunTarget(input: Bytes) returns (died: bool)
      modifies this`ran
      ensures ran == old(ran) + [input]
    {
      ran := ran + [input];
      died := *;
    }
  }

  datatype Stop = EndOfStream | ReadFailed | TargetDied | ControlClosed

  /** `n` bytes of value 1: the ready byte and the sync bytes. */
  ghost predicate Ones(s: Bytes, n: nat)
  {
    |s| == n && forall i :: 0 <= i < n ==> s[i] == 1
  }

  /** What one driver run may have done, given the inputs its stdin stands for. */
  ghost predicate Conforms(inputs: seq<Bytes>, ran: seq<Bytes>, control: Bytes, stop: Stop)
  {
    && ran <= inputs
    && match stop
       case EndOfStream => ran == inputs && Ones(control, 1 + |ran|)
       case ReadFailed => Ones(control, 1 + |ran|)
       case TargetDied => ran != [] && Ones(control, |ran|)
       case ControlClosed => Ones(control, |ran|)
  }

  /** `bhf_read_n`: fills `buf[..n]` from as many short reads as it takes. */
  method ReadN(stdin: Pipe, buf: array<byte>, n: nat) returns (ok: bool, failed: bool)
    requires n <= buf.Length
    modifies stdin, buf
    ensures ok ==> buf[..n] + stdin.unread == old(stdin.unread)
    ensures !ok && !failed ==> |old(stdin.unread)| < n
  {
    var got := 0;
    failed := false;
    while got < n
      invariant got <= n
      invariant buf[..got] + stdin.unread == old(stdin.unread)
    {
      var chunk: Bytes;
      label BeforeRead:
      chunk, failed := stdin.Read(n - got);
      if chunk == [] {
        assert !failed ==> |old(stdin.unread)| == got;
        return false, failed;
      }
      ghost var before := buf[..got];
      forall i | 0 <= i < |chunk| { buf[got + i] := chunk[i]; }
      assert buf[..got + |chunk|] == before + chunk;
      got := got + |chunk|;
    }
    ok := true;
  }

  lemma Snoc(ran: seq<Bytes>, x: Bytes, rest: seq<Bytes>)
    ensures ran + ([x] + rest) == (ran + [x]) + rest
  {
  }

  datatype Received = Got(len: nat) | Ended | Broken

  /** One turn of the C loop up to the run: the header, the clamp, the body. */
  method CReadFrame(stdin: Pipe, header: array<byte>, buf: array<byte>) returns (r: Received)
    requires header.Length == 4 && buf.Length == CAP && header != buf
    modifies stdin, header, buf
    ensures r.Got? ==> r.len <= CAP && |stdin.unread| < |old(stdin.unread)|
                       && CInputs(old(stdin.unread)) == [buf[..r.len]] + CInputs(stdin.unread)
    ensures r.Ended? ==> CInputs(old(stdin.unread)) == []
  {
    ghost var s := stdin.unread;
    var ok, failed := ReadN(stdin, header, 4);
    if !ok { return if failed then Broken else Ended; }
    assert header[..] == header[..4] == s[..4];
    OrDecode4IsFromLE(header[..]);
    var len := OrDecode4(header[0], header[1], header[2], header[3]);
    if len > CAP { len := CAP; }
    assert stdin.unread == s[4..];
    if len != 0 {
      ok, failed := ReadN(stdin, buf, len);
      if !ok { return if failed then Broken else Ended; }
    }
    assert s == s[..4] + buf[..len] + stdin.unread;
    assert buf[..len] == s[4..4 + len] && stdin.unread == s[4 + len..];
    r := Got(len);
  }

  /** The framed loop of the C driver. */
  method CDriver(stdin: Pipe, session: Session) returns (stop: Stop)
    requires session.control == [] && session.ran == []
    modifies stdin, session
    ensures Conforms(CInputs(old(stdin.unread)), session.ran, session.control, stop)
  {
    var ready := session.WriteByte();
    if !ready { return ControlClosed; }
    var header, buf := new byte[4], new byte[CAP];
    ghost var inputs := CInputs(stdin.unread);
    while true
      invariant Ones(session.control, 1 + |session.ran|)
      invariant inputs == session.ran + CInputs(stdin.unread)
      decreases |stdin.unread|
    {
      ghost var ran := session.ran;
      var r := CReadFrame(stdin, header, buf);
      if !r.Got? { return if r.Broken? then ReadFailed else EndOfStream; }
      var died := session.RunTarget(buf[..r.len]);
      Snoc(ran, buf[..r.len], CInputs(stdin.unread));
      if died { return TargetDied; }
      var synced := session.WriteByte();
      if !synced { return ControlClosed; }
    }
  }

  /** `_read_exact`: grows a buffer until it is full or the stream ends. */
  method PyReadExact(stdin: Pipe, n: nat) returns (buf: Bytes, failed: bool)
    modifies stdin
    ensures buf + stdin.unread == old(stdin.unread) && |buf| <= n
    ensures !failed && |buf| < n ==> stdin.unread == []
  {
    buf, failed := [], false;
    while |buf| < n
      invariant buf + stdin.unread == old(stdin.unread) && |buf| <= n
    {
      var chunk: Bytes;
      chunk, failed := stdin.Read(n - |buf|);
      if chunk == [] { return; }
      buf := buf + chunk;
    }
  }

  /** One turn of the Python loop up to the run. */
  method PyReadFrame(stdin: Pipe) returns (r: Received, data: Bytes)
    modifies stdin
    ensures r.Got? ==> |stdin.unread| < |old(stdin.unread)|
                       && PyInputs(old(stdin.unread)) == [data] + PyInputs(stdin.unread)
    ensures r.Ended? ==> PyInputs(old(stdin.unread)) == []
  {
    ghost var s := stdin.unread;
    data := [];
    var header, failed := PyReadExact(stdin, 4);
    if failed { return Broken, data; }
    if |header| < 4 { return Ended, data; }
    assert header == s[..4] && stdin.unread == s[4..];
    var n := FromLE(header);
    data, failed := PyReadExact(stdin, n);
    if failed { return Broken, data; }
    assert s == s[..4] + data + stdin.unread;
    if |s| < 4 + n {
      assert stdin.unread == [] && data == s[4..];
      assert PyInputs(s) == [data] + [];
    } else {
      assert data == s[4..4 + n] && stdin.unread == s[4 + n..];
    }
    r := Got(|data|);
  }

  /** `_framed_loop` of the Python driver; a finding exits without a sync byte, and a
      raised read error ends the process. */
  method PyDriver(stdin: Pipe, session: Session) returns (stop: Stop)
    requires session.control == [] && session.ran == []
    modifies stdin, session
    ensures Conforms(PyInputs(old(stdin.unread)), session.ran, session.control, stop)
  {
    var ready := session.WriteByte();
    if !ready { return ControlClosed; }
    ghost var inputs := PyInputs(stdin.unread);
    while true
      invariant Ones(session.control, 1 + |session.ran|)
      invariant inputs == session.ran + PyInputs(stdin.unread)
      decreases |stdin.unread|
    {
      ghost var ran := session.ran;
      var r, data := PyReadFrame(stdin);
      if !r.Got? { return if r.Broken? then ReadFailed else EndOfStream; }
      var died := session.RunTarget(data);
      Snoc(ran, data, PyInputs(stdin.unread));
      if died { return TargetDied; }
      var synced := session.WriteByte();
      if !synced { return ControlClosed; }
    }
  }
}
