/**
 The covered-lines sidecar: the Python driver's checkpoint rule, the size-only test that
 decides whether the covered set has to be written again, and the one file that all the
 driver processes of a campaign write.
 */
module CoveredLines {
  import opened Bits

  type Line = string

  datatype Option<T> = None | Some(value: T)

  // ------------------------------------------------------------ the checkpoint rule

  /** `(count & (count - 1)) == 0 or (count & 0x1FF) == 0`. */
  predicate IsCheckpoint(count: nat)
    requires count >= 1
  {
    BitAnd(count, count - 1) == 0 || BitAnd(count, 0x1FF) == 0
  }

  ghost predicate IsPowerOfTwo(n: nat) { exists k: nat :: n == Pow2(k) }

  lemma {:induction false} ClearLowestBit(n: nat)
    requires n >= 1
    ensures BitAnd(n, n - 1) == 0 <==> IsPowerOfTwo(n)
  {
    if n == 1 {
      assert n == Pow2(0);
    } else if n % 2 == 1 {
      AndSelf(n / 2);
      assert (n - 1) / 2 == n / 2;
      forall k: nat ensures n != Pow2(k) { assert k > 0 ==> Pow2(k) == 2 * Pow2(k - 1); }
    } else {
      var m := n / 2;
      ClearLowestBit(m);
      assert (n - 1) / 2 == m - 1 && BitAnd(n, n - 1) == 2 * BitAnd(m, m - 1);
      if k: nat :| m == Pow2(k) { assert n == Pow2(k + 1); }
      if k: nat :| n == Pow2(k) { assert m == Pow2(k - 1); }
    }
  }

  lemma {:induction false} AndSelf(n: nat)
    ensures BitAnd(n, n) == n
  {
    if n > 0 { AndSelf(n / 2); }
  }

  lemma LowNineBits(n: nat)
    ensures BitAnd(n, 0x1FF) == n % 512
  {
    assert Pow2(9) == 8 * Pow2(6) == 64 * Pow2(3) == 512;
    MaskIsMod(n, 9, 512, 0x1FF);
  }

  /** The rule fires exactly at powers of two and at multiples of 512. */
  lemma CheckpointIff(n: nat)
    requires n >= 1
    ensures IsCheckpoint(n) <==> IsPowerOfTwo(n) || n % 512 == 0
  {
    ClearLowestBit(n);
    LowNineBits(n);
  }

  lemma {:induction false} LargestPower(n: nat) returns (c: nat)
    requires n >= 1
    ensures IsPowerOfTwo(c) && c <= n < 2 * c
  {
    if n == 1 {
      c := 1;
      assert c == Pow2(0);
    } else {
      var h := LargestPower(n / 2);
      c := 2 * h;
      var k: nat :| h == Pow2(k);
      assert c == Pow2(k + 1);
    }
  }

  /** The last checkpoint up to `n` whose write did not fail; 0 when there is none. */
  function LastGood(n: nat, fails: set<nat>): (c: nat)
    ensures c <= n
  {
    if n == 0 then 0 else if IsCheckpoint(n) && n !in fails then n else LastGood(n - 1, fails)
  }

  lemma {:induction false} LastGoodIsLast(n: nat, c: nat)
    requires 1 <= c <= n && IsCheckpoint(c)
    ensures LastGood(n, {}) >= c
  {
    if n > c { LastGoodIsLast(n - 1, c); }
  }

  lemma RecentCheckpoint(n: nat) returns (c: nat)
    requires n >= 1
    ensures 1 <= c <= n < 2 * c && n - c < 512 && IsCheckpoint(c)
  {
    if n >= 512 {
      c := n - n % 512;
      assert c % 512 == 0;
    } else {
      c := LargestPower(n);
    }
    CheckpointIff(c);
  }

  /** Never more than half of the inputs, and never 512 of them, are unsaved. */
  lemma CheckpointsAreDense(n: nat)
    requires n >= 1
    ensures var c := LastGood(n, {}); 1 <= c <= n < 2 * c && n - c < 512
  {
    var c := RecentCheckpoint(n);
    LastGoodIsLast(n, c);
  }

  // --------------------------------------------------------------- the covered set

  function CoveredBy(inputs: seq<set<Line>>): set<Line>
  {
    if inputs == [] then {} else CoveredBy(inputs[..|inputs| - 1]) + inputs[|inputs| - 1]
  }

  /** What the last successful checkpoint of a run of inputs covers, on top of `start`. */
  function AtLastGood(start: set<Line>, inputs: seq<set<Line>>, fails: set<nat>): set<Line>
  {
    var c := LastGood(|inputs|, fails);
    if c == 0 then {} else start + CoveredBy(inputs[..c])
  }

  lemma AtLastGoodStep(start: set<Line>, inputs: seq<set<Line>>, fails: set<nat>, i: nat)
    requires i < |inputs|
    ensures AtLastGood(start, inputs[..i + 1], fails)
            == if IsCheckpoint(i + 1) && i + 1 !in fails then start + CoveredBy(inputs[..i + 1])
               else AtLastGood(start, inputs[..i], fails)
  {
    LastGoodStep(i, fails);
    var c := LastGood(i, fails);
    assert inputs[..i + 1][..c] == inputs[..i][..c] == inputs[..c];
    assert inputs[..i + 1][..i + 1] == inputs[..i + 1];
  }

  lemma LastGoodStep(i: nat, fails: set<nat>)
    ensures LastGood(i + 1, fails) == if IsCheckpoint(i + 1) && i + 1 !in fails then i + 1 else LastGood(i, fails)
  {
  }

  // ------------------------------------------------------------------- one process

  /** What a driver process has covered, what it wrote last, and how many inputs it has
      completed. */
  datatype Proc = Proc(covered: set<Line>, written: set<Line>, count: nat)

  const Fresh := Proc({}, {}, 0)

  /** Lines are executed, while the harness is imported or an input runs; an input of the
      framed loop is completed; the process ends. The last two may write, and fail to. */
  datatype Action = Note(lines: set<Line>) | Done(fails: bool) | Finish(fails: bool)

  /** `dump_covered_lines`. */
  function Dumped(p: Proc, fails: bool): Proc { if fails then p else p.(written := p.covered) }

  function Next(p: Proc, a: Action): Proc
  {
    match a
    case Note(lines) => p.(covered := p.covered + lines)
    case Done(fails) =>
      var q := p.(count := p.count + 1);
      if IsCheckpoint(q.count) then Dumped(q, fails) else q
    case Finish(fails) => Dumped(p, fails)
  }

  /** What an action puts into the file, if anything. */
  function Output(p: Proc, a: Action): Option<set<Line>>
  {
    var w := Next(p, a).written;
    if w == p.written then None else Some(w)
  }

  /** A process after its own actions; nothing another process does matters to it. */
  function After(acts: seq<Action>): Proc
  {
    if acts == [] then Fresh else Next(After(acts[..|acts| - 1]), acts[|acts| - 1])
  }

  lemma AfterSnoc(acts: seq<Action>, a: Action)
    ensures After(acts + [a]) == Next(After(acts), a)
  {
    assert (acts + [a])[..|acts|] == acts;
  }

  lemma {:induction false} WrittenIsCovered(acts: seq<Action>)
    ensures After(acts).written <= After(acts).covered
  {
    if acts != [] { WrittenIsCovered(acts[..|acts| - 1]); }
  }

  /** `main` in framed mode: the import, then the loop; `fails` are the checkpoints at
      which the write fails. */
  function FramedActions(imports: set<Line>, inputs: seq<set<Line>>, fails: set<nat>): seq<Action>
  {
    if inputs == [] then [Note(imports)]
    else FramedActions(imports, inputs[..|inputs| - 1], fails) + Turn(inputs[|inputs| - 1], |inputs|, fails)
  }

  /** One turn of the framed loop. */
  function Turn(lines: set<Line>, count: nat, fails: set<nat>): seq<Action> { [Note(lines), Done(count in fails)] }

  lemma AfterTurn(acts: seq<Action>, lines: set<Line>, count: nat, fails: set<nat>)
    requires count == After(acts).count + 1
    ensures var p, q := After(acts), After(acts + Turn(lines, count, fails));
            && q.covered == p.covered + lines && q.count == count
            && q.written == if IsCheckpoint(count) && count !in fails then p.covered + lines else p.written
  {
    AfterSnoc(acts, Note(lines));
    AfterSnoc(acts + [Note(lines)], Done(count in fails));
    assert acts + Turn(lines, count, fails) == acts + [Note(lines)] + [Done(count in fails)];
  }

  /** What the process of a framed loop has written last is what it had covered at its last
      successful checkpoint. */
  lemma {:induction false} FramedState(imports: set<Line>, inputs: seq<set<Line>>, fails: set<nat>)
    ensures After(FramedActions(imports, inputs, fails))
            == Proc(imports + CoveredBy(inputs), AtLastGood(imports, inputs, fails), |inputs|)
  {
    if inputs == [] {
      AfterSnoc([], Note(imports));
      assert [] + [Note(imports)] == [Note(imports)];
    } else {
      var n := |inputs| - 1;
      var init := inputs[..n];
      FramedState(imports, init, fails);
      AfterTurn(FramedActions(imports, init, fails), inputs[n], n + 1, fails);
      AtLastGoodStep(imports, inputs, fails, n);
      assert inputs[..n + 1] == inputs;
    }
  }

  // --------------------------------------------------- many processes and one file

  /** An action of process `pid`, or something else putting `lines` into the file. */
  datatype Event = By(pid: nat, action: Action) | Outside(lines: set<Line>)

  /** The actions of one process in a history. */
  function Own(es: seq<Event>, pid: nat): seq<Action>
  {
    if es == [] then [] else
    var e, before := es[|es| - 1], Own(es[..|es| - 1], pid);
    if e.By? && e.pid == pid then before + [e.action] else before
  }

  /** What event `e` puts into the file after the history `es`, if anything. */
  function Wrote(es: seq<Event>, e: Event): Option<set<Line>>
  {
    match e
    case Outside(lines) => Some(lines)
    case By(pid, action) => Output(After(Own(es, pid)), action)
  }

  /** The file after a history in which any processes take turns in any way. */
  function FileAfter(file: set<Line>, es: seq<Event>): set<Line>
  {
    if es == [] then file else
    var w := Wrote(es[..|es| - 1], es[|es| - 1]);
    if w.Some? then w.value else FileAfter(file, es[..|es| - 1])
  }

  /** What somebody else wrote last since the last write of `pid`. */
  function Foreign(es: seq<Event>, pid: nat): Option<set<Line>>
  {
    if es == [] then None else
    var init, e := es[..|es| - 1], es[|es| - 1];
    var w := Wrote(init, e);
    if w.None? then Foreign(init, pid) else if e.By? && e.pid == pid then None else w
  }

  function Written(es: seq<Event>, pid: nat): set<Line> { After(Own(es, pid)).written }

  lemma OwnSnoc(es: seq<Event>, e: Event, pid: nat)
    ensures Own(es + [e], pid) == if e.By? && e.pid == pid then Own(es, pid) + [e.action] else Own(es, pid)
  {
    assert (es + [e])[..|es|] == es;
  }

  /** How one event changes what `pid` has written. */
  lemma WrittenStep(es: seq<Event>, e: Event, pid: nat)
    ensures if e.By? && e.pid == pid && Wrote(es, e).Some?
            then Written(es + [e], pid) == Wrote(es, e).value != {}
            else Written(es + [e], pid) == Written(es, pid)
  {
    OwnSnoc(es, e, pid);
    if e.By? && e.pid == pid {
      AfterSnoc(Own(es, pid), e.action);
      WrittenIsCovered(Own(es, pid));
    }
  }

  /** From the point of view of any process, the file is what somebody else wrote last since
      its own last write, else its own last write, else what was there before. */
  lemma {:induction false} FileIs(file: set<Line>, es: seq<Event>, pid: nat)
    ensures FileAfter(file, es)
            == if Foreign(es, pid).Some? then Foreign(es, pid).value
               else if Written(es, pid) != {} then Written(es, pid) else file
  {
    if es != [] {
      var init, e := es[..|es| - 1], es[|es| - 1];
      assert es == init + [e];
      FileIs(file, init, pid);
      WrittenStep(init, e, pid);
    }
  }

  /** A process finds all it wrote last in the file if and only if nobody else has written
      since, or the last who did wrote those lines too. */
  lemma KeptIff(file: set<Line>, es: seq<Event>, pid: nat)
    ensures Written(es, pid) <= FileAfter(file, es)
            <==> Foreign(es, pid).None? || Written(es, pid) <= Foreign(es, pid).value
  {
    FileIs(file, es, pid);
  }

  /** Nothing any process wrote last is lost if and only if that holds of all of them. */
  lemma NothingLostIff(file: set<Line>, es: seq<Event>)
    ensures (forall pid: nat :: Written(es, pid) <= FileAfter(file, es))
            <==> forall pid: nat :: Foreign(es, pid).None? || Written(es, pid) <= Foreign(es, pid).value
  {
    forall pid: nat
      ensures Written(es, pid) <= FileAfter(file, es)
              <==> Foreign(es, pid).None? || Written(es, pid) <= Foreign(es, pid).value
    {
      KeptIff(file, es, pid);
    }
  }

  lemma {:induction false} NotesWriteNothing(acts: seq<Action>, rest: seq<Action>)
    requires forall i :: 0 <= i < |rest| ==> rest[i].Note?
    ensures After(acts + rest).written == After(acts).written
  {
    if rest == [] {
      assert acts + rest == acts;
    } else {
      var n := |rest| - 1;
      NotesWriteNothing(acts, rest[..n]);
      AfterSnoc(acts + rest[..n], rest[n]);
      assert acts + rest == acts + rest[..n] + [rest[n]];
    }
  }

  /** Process `pid` has completed `inputs` in its framed loop and executed nothing but lines
      since. */
  ghost predicate RunsFramed(es: seq<Event>, pid: nat, imports: set<Line>, inputs: seq<set<Line>>, fails: set<nat>)
  {
    var acts := FramedActions(imports, inputs, fails);
    acts <= Own(es, pid) && forall i :: |acts| <= i < |Own(es, pid)| ==> Own(es, pid)[i].Note?
  }

  lemma FramedWritten(es: seq<Event>, pid: nat, imports: set<Line>, inputs: seq<set<Line>>, fails: set<nat>)
    requires RunsFramed(es, pid, imports, inputs, fails)
    ensures Written(es, pid) == AtLastGood(imports, inputs, fails)
  {
    var acts := FramedActions(imports, inputs, fails);
    var rest := Own(es, pid)[|acts|..];
    assert Own(es, pid) == acts + rest;
    NotesWriteNothing(acts, rest);
    FramedState(imports, inputs, fails);
  }

  /** A framed process among any others, after any number of inputs and during the next, with
      any set of failing writes: the lines up to its last successful checkpoint are in the
      file if and only if nobody else has written since, or the last who did wrote those
      lines too. */
  lemma SavedIff(file: set<Line>, es: seq<Event>, pid: nat, imports: set<Line>, inputs: seq<set<Line>>,
                 fails: set<nat>)
    requires RunsFramed(es, pid, imports, inputs, fails)
    ensures var saved := AtLastGood(imports, inputs, fails);
            saved <= FileAfter(file, es) <==> Foreign(es, pid).None? || saved <= Foreign(es, pid).value
  {
    FramedWritten(es, pid, imports, inputs, fails);
    KeptIff(file, es, pid);
  }

  /** With successful writes, that is all but the last half and all but the last 511 of the
      inputs. */
  lemma SavedDensely(file: set<Line>, es: seq<Event>, pid: nat, imports: set<Line>, inputs: seq<set<Line>>)
    requires inputs != [] && RunsFramed(es, pid, imports, inputs, {})
    ensures var n, c := |inputs|, LastGood(|inputs|, {});
            && 1 <= c <= n < 2 * c && n - c < 512
            && (imports + CoveredBy(inputs[..c]) <= FileAfter(file, es)
                <==> Foreign(es, pid).None? || imports + CoveredBy(inputs[..c]) <= Foreign(es, pid).value)
  {
    CheckpointsAreDense(|inputs|);
    SavedIff(file, es, pid, imports, inputs, {});
  }

  // ----------------------------------------------------------------- the processes

  class Disk {
    var lines: set<Line>  // of the sidecar; none while there is no file
  }

  /** One process and the file it shares with others. */
  class Sidecar {
    const disk: Disk
    var covered: set<Line>
    var dumped: nat
    var count: nat
    ghost var written: set<Line>  // what this process wrote last

    /** `dumped` is the size of what this process wrote last, also after writes that failed.
        Of the file nothing is known: others may have replaced it. */
    ghost predicate Valid() reads this { written <= covered && dumped == |written| }

    ghost function Model(): Proc reads this { Proc(covered, written, count) }

    /** A process starts with nothing covered, whatever the file holds. */
    constructor (disk: Disk)
      ensures Valid() && Model() == Fresh && this.disk == disk
    {
      this.disk, covered, dumped, count, written := disk, {}, 0, 0, {};
    }

    /** `note_line`. */
    method NoteLine(line: Line)
      requires Valid()
      modifies this`covered
      ensures Valid() && covered == old(covered) + {line}
    {
      covered := covered + {line};
    }

    /** The size comparison of `dump_covered_lines` decides equality with what this process
        wrote last, in every state. */
    lemma SizeTest()
      requires Valid()
      ensures |covered| == dumped <==> covered == written
    {
      SubsetSize(written, covered);
    }

    /** `dump_covered_lines`; the rename is atomic, and any failure leaves the old file. */
    method Dump(fails: bool)
      requires Valid()
      modifies this`dumped, this`written, disk
      ensures Valid() && Model() == Dumped(old(Model()), fails)
      ensures disk.lines == if fails || covered == old(written) then old(disk.lines) else covered
    {
      SizeTest();
      if |covered| == dumped { return; }
      if fails { return; }
      disk.lines, written := covered, covered;
      dumped := |covered|;
    }

    method NoteAll(lines: set<Line>)
      requires Valid()
      modifies this`covered
      ensures Valid() && covered == old(covered) + lines
    {
      var todo := lines;
      while todo != {}
        invariant Valid() && todo <= lines && covered + todo == old(covered) + lines
        decreases |todo|
      {
        var line :| line in todo;
        NoteLine(line);
        todo := todo - {line};
      }
    }

    /** One action of the process. */
    method Act(a: Action)
      requires Valid()
      modifies this, disk
      ensures Valid() && Model() == Next(old(Model()), a)
      ensures disk.lines == var w := Output(old(Model()), a); if w.Some? then w.value else old(disk.lines)
    {
      match a
      case Note(lines) => NoteAll(lines);
      case Done(fails) =>
        count := count + 1;
        if IsCheckpoint(count) { Dump(fails); }
      case Finish(fails) => Dump(fails);
    }

    /** This is process 0 of the history `es` over a file that held `base`. */
    ghost predicate InStep(base: set<Line>, es: seq<Event>)
      reads this, disk
    {
      Follows(this, disk, es, 0) && disk.lines == FileAfter(base, es)
    }

    method ActIn(ghost base: set<Line>, ghost es: seq<Event>, a: Action)
      requires InStep(base, es)
      modifies this, disk
      ensures InStep(base, es + [By(0, a)])
    {
      FileSnoc(base, es, By(0, a));
      Act(a);
    }

    /** One turn of the framed loop, after which others leave `other` in the file. */
    method RunInput(ghost base: set<Line>, ghost es: seq<Event>, lines: set<Line>, fails: bool,
                    other: Option<set<Line>>)
      requires InStep(base, es)
      modifies this, disk
      ensures InStep(base, es + [By(0, Note(lines)), By(0, Done(fails))]
                           + if other.Some? then [Outside(other.value)] else [])
    {
      ghost var a, b := es + [By(0, Note(lines))], es + [By(0, Note(lines)), By(0, Done(fails))];
      assert b == a + [By(0, Done(fails))] && b + [] == b;
      ActIn(base, es, Note(lines));
      ActIn(base, a, Done(fails));
      if other.Some? {
        FileSnoc(base, b, Outside(other.value));
        disk.lines := other.value;
      }
    }

    /** `main` in framed mode: import, then the loop; after input `i` others leave
        `others[i]` in the file, if anything. */
    method Campaign(imports: set<Line>, inputs: seq<set<Line>>, fails: set<nat>, others: seq<Option<set<Line>>>)
      requires Valid() && Model() == Fresh && |others| == |inputs|
      modifies this, disk
      ensures Valid() && Model() == Proc(imports + CoveredBy(inputs), AtLastGood(imports, inputs, fails), |inputs|)
      ensures disk.lines == FileAfter(old(disk.lines), History(imports, inputs, fails, others))
    {
      ghost var base := disk.lines;
      ActIn(base, [], Note(imports));
      assert [] + [By(0, Note(imports))] == [By(0, Note(imports))];
      for i := 0 to |inputs|
        invariant InStep(base, History(imports, inputs[..i], fails, others[..i]))
      {
        RunInput(base, History(imports, inputs[..i], fails, others[..i]), inputs[i], i + 1 in fails, others[i]);
        HistoryStep(imports, inputs, fails, others, i);
      }
      assert inputs[..|inputs|] == inputs && others[..|others|] == others;
      OwnOfHistory(imports, inputs, fails, others);
      FramedState(imports, inputs, fails);
    }
  }

  /** The history of such a campaign. */
  function History(imports: set<Line>, inputs: seq<set<Line>>, fails: set<nat>, others: seq<Option<set<Line>>>)
    : seq<Event>
    requires |others| == |inputs|
  {
    if inputs == [] then [By(0, Note(imports))] else
    var n := |inputs| - 1;
    History(imports, inputs[..n], fails, others[..n])
    + [By(0, Note(inputs[n])), By(0, Done(n + 1 in fails))]
    + if others[n].Some? then [Outside(others[n].value)] else []
  }

  lemma HistoryStep(imports: set<Line>, inputs: seq<set<Line>>, fails: set<nat>, others: seq<Option<set<Line>>>,
                    i: nat)
    requires |others| == |inputs| && i < |inputs|
    ensures History(imports, inputs[..i + 1], fails, others[..i + 1])
            == History(imports, inputs[..i], fails, others[..i])
               + [By(0, Note(inputs[i])), By(0, Done(i + 1 in fails))]
               + if others[i].Some? then [Outside(others[i].value)] else []
  {
    assert inputs[..i + 1][..i] == inputs[..i] && others[..i + 1][..i] == others[..i];
  }

  /** One event, as its effect on the file and on its own process. */
  lemma FileSnoc(file: set<Line>, es: seq<Event>, e: Event)
    ensures FileAfter(file, es + [e])
            == var w := Wrote(es, e); if w.Some? then w.value else FileAfter(file, es)
    ensures e.By? ==> After(Own(es + [e], e.pid)) == Next(After(Own(es, e.pid)), e.action)
    ensures forall pid: nat :: !(e.By? && e.pid == pid) ==> Own(es + [e], pid) == Own(es, pid)
  {
    assert (es + [e])[..|es|] == es;
    if e.By? {
      OwnSnoc(es, e, e.pid);
      AfterSnoc(Own(es, e.pid), e.action);
    }
    forall pid: nat | !(e.By? && e.pid == pid)
      ensures Own(es + [e], pid) == Own(es, pid)
    {
      OwnSnoc(es, e, pid);
    }
  }

  lemma {:induction false} OwnOfHistory(imports: set<Line>, inputs: seq<set<Line>>, fails: set<nat>,
                                        others: seq<Option<set<Line>>>)
    requires |others| == |inputs|
    ensures Own(History(imports, inputs, fails, others), 0) == FramedActions(imports, inputs, fails)
  {
    if inputs == [] {
      OwnSnoc([], By(0, Note(imports)), 0);
      assert [] + [By(0, Note(imports))] == [By(0, Note(imports))];
    } else {
      var n := |inputs| - 1;
      OwnOfHistory(imports, inputs[..n], fails, others[..n]);
      OwnOfTurn(History(imports, inputs[..n], fails, others[..n]), inputs[n], n + 1, fails, others[n]);
    }
  }

  lemma OwnOfTurn(es: seq<Event>, lines: set<Line>, count: nat, fails: set<nat>, other: Option<set<Line>>)
    ensures Own(es + [By(0, Note(lines)), By(0, Done(count in fails))]
                + (if other.Some? then [Outside(other.value)] else []), 0)
            == Own(es, 0) + Turn(lines, count, fails)
  {
    var a, b := es + [By(0, Note(lines))], es + [By(0, Note(lines)), By(0, Done(count in fails))];
    OwnSnoc(es, By(0, Note(lines)), 0);
    OwnSnoc(a, By(0, Done(count in fails)), 0);
    assert b == a + [By(0, Done(count in fails))];
    if other.Some? {
      OwnSnoc(b, Outside(other.value), 0);
    } else {
      assert b + [] == b;
    }
  }

  /** A process object stands for process `pid` of a history. */
  ghost predicate Follows(s: Sidecar, disk: Disk, es: seq<Event>, pid: nat)
    reads s
  {
    s.Valid() && s.disk == disk && s.Model() == After(Own(es, pid))
  }

  /** The objects of all processes that have done anything. */
  ghost predicate Cast(procs: map<nat, Sidecar>, disk: Disk, es: seq<Event>)
    reads procs.Values
  {
    && (forall q :: q in procs ==> Follows(procs[q], disk, es, q))
    && (forall q, r :: q in procs && r in procs && q != r ==> procs[q] != procs[r])
    && (forall q: nat :: q !in procs ==> Own(es, q) == [])
  }

  /** The engine starts process `pid` unless it is already there. */
  method Admit(procs: map<nat, Sidecar>, disk: Disk, ghost es: seq<Event>, pid: nat)
    returns (more: map<nat, Sidecar>)
    requires Cast(procs, disk, es)
    ensures pid in more && Cast(more, disk, es)
    ensures forall q :: q in more ==> (q in procs && more[q] == procs[q]) || fresh(more[q])
  {
    more := procs;
    if pid !in procs {
      var p := new Sidecar(disk);
      more := procs[pid := p];
    }
  }

  method Perform(procs: map<nat, Sidecar>, disk: Disk, ghost es: seq<Event>, pid: nat, a: Action)
    requires Cast(procs, disk, es) && pid in procs
    modifies procs[pid], disk
    ensures Cast(procs, disk, es + [By(pid, a)])
    ensures disk.lines == var w := Wrote(es, By(pid, a)); if w.Some? then w.value else old(disk.lines)
  {
    FileSnoc({}, es, By(pid, a));
    procs[pid].Act(a);
  }

  method PlayOne(procs: map<nat, Sidecar>, disk: Disk, ghost base: set<Line>, ghost es: seq<Event>, e: Event)
    returns (more: map<nat, Sidecar>)
    requires Cast(procs, disk, es) && disk.lines == FileAfter(base, es)
    modifies disk, procs.Values
    ensures Cast(more, disk, es + [e]) && disk.lines == FileAfter(base, es + [e])
    ensures forall q :: q in more ==> (q in procs && more[q] == procs[q]) || fresh(more[q])
  {
    FileSnoc(base, es, e);
    more := procs;
    match e
    case Outside(lines) => disk.lines := lines;
    case By(pid, action) =>
      more := Admit(procs, disk, es, pid);
      Perform(more, disk, es, pid, action);
  }

  /** Any number of processes over one file, taking turns in any way. */
  method Play(disk: Disk, es: seq<Event>)
    modifies disk
    ensures disk.lines == FileAfter(old(disk.lines), es)
  {
    var procs: map<nat, Sidecar> := map[];
    ghost var base := disk.lines;
    for i := 0 to |es|
      invariant Cast(procs, disk, es[..i]) && disk.lines == FileAfter(base, es[..i])
      invariant forall q :: q in procs ==> fresh(procs[q])
    {
      procs := PlayOne(procs, disk, base, es[..i], es[i]);
      assert es[..i + 1] == es[..i] + [es[i]];
    }
    assert es[..|es|] == es;
  }

  // -------------------------------------------------------------------- lost lines

  /** Two processes of one input each, the second started when the first has died: what the
      first covered is gone. */
  lemma LostByRestart()
    ensures FileAfter({}, [By(0, Note({"a.py:1"})), By(0, Done(false)), By(1, Note({"a.py:2"})), By(1, Done(false))])
            == {"a.py:2"}
  {
    var es := [By(0, Note({"a.py:1"})), By(0, Done(false)), By(1, Note({"a.py:2"}))];
    var e := By(1, Done(false));
    assert es + [e] == [By(0, Note({"a.py:1"})), By(0, Done(false)), By(1, Note({"a.py:2"})), e];
    OwnSnoc([], es[0], 1);
    OwnSnoc([] + [es[0]], es[1], 1);
    assert es == ([] + [es[0]] + [es[1]]) + [By(1, Note({"a.py:2"}))];
    FirstInput([] + [es[0]] + [es[1]], 1, {"a.py:2"});
    FileSnoc({}, es, e);
  }

  /** A process that has done nothing but execute some lines writes them at its first
      checkpoint and at its end. */
  lemma FirstInput(es: seq<Event>, pid: nat, lines: set<Line>)
    requires Own(es, pid) == [] && lines != {}
    ensures var noted := es + [By(pid, Note(lines))];
            && After(Own(noted, pid)) == Proc(lines, {}, 0)
            && Wrote(noted, By(pid, Done(false))) == Wrote(noted, By(pid, Finish(false))) == Some(lines)
  {
    OwnSnoc(es, By(pid, Note(lines)), pid);
    AfterSnoc([], Note(lines));
    assert [] + [Note(lines)] == [Note(lines)];
    assert {} + lines == lines;
    CheckpointIff(1);
    assert Pow2(0) == 1;
  }

  /** A framed process whose two inputs cover `a` and then `b`, each run again in a process of
      its own as the engine does with inputs that cover something new, and then two inputs
      that cover nothing new. At its fourth input the process sees nothing to write, and
      line `a` is gone. */
  lemma LostByRerun(a: Line, b: Line)
    requires a != b
    ensures FileAfter({}, Reruns(a, b)) == {b} && Written(Reruns(a, b), 0) == {a, b}
  {
    var six, eight := Reruns(a, b)[..6], Reruns(a, b)[..8];
    OwnOfReruns(a, b);
    assert eight == six + [By(2, Note({b}))] + [By(2, Finish(false))];
    assert Reruns(a, b) == eight + [By(0, Done(false))] + [By(0, Done(false))];
    RerunReplaces(six, eight, {b});
    QuietTurns(a, b, eight);
  }

  /** A new process that executes `lines` and ends leaves just those in the file. */
  lemma RerunReplaces(es: seq<Event>, after: seq<Event>, lines: set<Line>)
    requires Own(es, 2) == [] && lines != {} && after == es + [By(2, Note(lines))] + [By(2, Finish(false))]
    ensures FileAfter({}, after) == lines
  {
    FirstInput(es, 2, lines);
    FileSnoc({}, es + [By(2, Note(lines))], By(2, Finish(false)));
  }

  function Reruns(a: Line, b: Line): seq<Event>
  {
    [By(0, Note({a})), By(0, Done(false)), By(1, Note({a})), By(1, Finish(false)),
     By(0, Note({b})), By(0, Done(false)), By(2, Note({b})), By(2, Finish(false)),
     By(0, Done(false)), By(0, Done(false))]
  }

  lemma OwnConcatStep(es: seq<Event>, fs: seq<Event>, e: Event, pid: nat)
    requires Own(es + fs, pid) == Own(es, pid) + Own(fs, pid)
    ensures Own(es + fs + [e], pid) == Own(es, pid) + Own(fs + [e], pid)
  {
    OwnSnoc(es + fs, e, pid);
    OwnSnoc(fs, e, pid);
    if e.By? && e.pid == pid {
      assert Own(es, pid) + Own(fs, pid) + [e.action] == Own(es, pid) + (Own(fs, pid) + [e.action]);
    }
  }

  lemma {:induction false} OwnConcat(es: seq<Event>, fs: seq<Event>, pid: nat)
    ensures Own(es + fs, pid) == Own(es, pid) + Own(fs, pid)
  {
    if fs == [] {
      assert es + fs == es && Own(es, pid) + [] == Own(es, pid);
    } else {
      var init, e := fs[..|fs| - 1], fs[|fs| - 1];
      OwnConcat(es, init, pid);
      OwnConcatStep(es, init, e, pid);
      assert fs == init + [e] && es + fs == es + init + [e];
    }
  }

  lemma OwnPair(owner: nat, a: Action, b: Action, pid: nat)
    ensures Own([By(owner, a), By(owner, b)], pid) == if owner == pid then [a, b] else []
  {
    OwnSnoc([], By(owner, a), pid);
    OwnSnoc([] + [By(owner, a)], By(owner, b), pid);
    assert [] + [By(owner, a)] + [By(owner, b)] == [By(owner, a), By(owner, b)];
  }

  lemma OwnOfPairs(p: seq<Event>, q: seq<Event>, r: seq<Event>, pid: nat)
    ensures Own(p + q + r, pid) == Own(p, pid) + Own(q, pid) + Own(r, pid)
  {
    OwnConcat(p, q, pid);
    OwnConcat(p + q, r, pid);
  }

  /** What the framed process has done before the quiet inputs, and that the second re-run is
      a new process. */
  lemma OwnOfReruns(a: Line, b: Line)
    ensures Own(Reruns(a, b)[..6], 2) == []
    ensures Own(Reruns(a, b)[..8], 0) == [Note({a}), Done(false), Note({b}), Done(false)]
  {
    var p, q := [By(0, Note({a})), By(0, Done(false))], [By(1, Note({a})), By(1, Finish(false))];
    var r, t := [By(0, Note({b})), By(0, Done(false))], [By(2, Note({b})), By(2, Finish(false))];
    assert Reruns(a, b)[..6] == p + q + r && Reruns(a, b)[..8] == p + q + r + t;
    SixOwn(a, b, 2);
    SixOwn(a, b, 0);
    OwnPair(2, Note({b}), Finish(false), 0);
    OwnConcat(p + q + r, t, 0);
  }

  lemma SixOwn(a: Line, b: Line, pid: nat)
    ensures Own([By(0, Note({a})), By(0, Done(false))] + [By(1, Note({a})), By(1, Finish(false))]
                + [By(0, Note({b})), By(0, Done(false))], pid)
            == (if pid == 0 then [Note({a}), Done(false)] else [])
               + (if pid == 1 then [Note({a}), Finish(false)] else [])
               + (if pid == 0 then [Note({b}), Done(false)] else [])
  {
    OwnPair(0, Note({a}), Done(false), pid);
    OwnPair(1, Note({a}), Finish(false), pid);
    OwnPair(0, Note({b}), Done(false), pid);
    OwnOfPairs([By(0, Note({a})), By(0, Done(false))], [By(1, Note({a})), By(1, Finish(false))],
               [By(0, Note({b})), By(0, Done(false))], pid);
  }

  /** After both inputs, two more completed inputs write nothing. */
  lemma QuietTurns(a: Line, b: Line, es: seq<Event>)
    requires Own(es, 0) == [Note({a}), Done(false), Note({b}), Done(false)]
    ensures var more := es + [By(0, Done(false))];
            && Wrote(es, By(0, Done(false))).None? && Wrote(more, By(0, Done(false))).None?
            && FileAfter({}, more + [By(0, Done(false))]) == FileAfter({}, es)
            && Written(more + [By(0, Done(false))], 0) == {a, b}
  {
    var acts := [Note({a}), Done(false), Note({b}), Done(false)];
    CheckpointIff(1);
    CheckpointIff(2);
    CheckpointIff(3);
    assert Pow2(0) == 1 && Pow2(1) == 2;
    AfterTurn([], {a}, 1, {});
    AfterTurn([] + Turn({a}, 1, {}), {b}, 2, {});
    assert acts == [] + Turn({a}, 1, {}) + Turn({b}, 2, {});
    assert {} + {a} + {b} == {a, b};
    assert After(acts) == Proc({a, b}, {a, b}, 2);
    FileSnoc({}, es, By(0, Done(false)));
    FileSnoc({}, es + [By(0, Done(false))], By(0, Done(false)));
  }

  lemma SubsetSize<T>(a: set<T>, b: set<T>)
    requires a <= b
    ensures |a| == |b| <==> a == b
  {
    assert b == a + (b - a) && |b| == |a| + |b - a|;
  }
}
