/**
 The block state machine of the documentation renderer. Lines are classified by the
 patterns the renderer tests, in the order it tests them; blocks carry the numbers of
 the source lines they render.
 */
module MarkdownBlocks {

  datatype Option<T> = None | Some(value: T)

  /** What a line looks like; `separator` marks a table row of dashes and colons. */
  datatype Line =
    | Fence
    | Blank
    | TableRow(separator: bool)
    | Heading
    | Bullet
    | Numbered
    | Plain

  datatype ListKind = Unordered | Ordered

  datatype Block =
    | Paragraph(lines: seq<nat>)
    | Table(lines: seq<nat>)
    | Code(open: nat, lines: seq<nat>)
    | Head(line: nat)
    | ListStart(kind: ListKind)
    | ListEnd(kind: ListKind)
    | Item(line: nat)

  /** The output: blocks are only ever appended. */
  datatype Output = Nothing | Snoc(init: Output, last: Block)

  datatype State = State(blocks: Output, paragraph: seq<nat>, list: Option<ListKind>, table: seq<nat>,
                         inCode: bool, codeOpen: nat, code: seq<nat>)

  const Start := State(Nothing, [], None, [], false, 0, [])

  // ------------------------------------------------------------------ output measures

  /** The source lines a block stands for. A table stands for its separator row too, of
      which it shows nothing but that the row before is the header. */
  function BlockLines(b: Block): seq<nat>
  {
    match b
    case Paragraph(ls) => ls
    case Table(ls) => ls
    case Code(open, ls) => [open] + ls
    case Head(l) => [l]
    case Item(l) => [l]
    case _ => []
  }

  /** The source lines in the order they are rendered. */
  function Emitted(o: Output): seq<nat>
  {
    if o.Nothing? then [] else Emitted(o.init) + BlockLines(o.last)
  }

  /** The list left open by the output, or nothing if it is not well nested. */
  function OpenAfter(o: Output): Option<Option<ListKind>>
  {
    if o.Nothing? then Some(None) else
    var before := OpenAfter(o.init);
    if before.None? then None else
    match o.last
    case ListStart(k) => if before.value.None? then Some(Some(k)) else None
    case ListEnd(k) => if before.value == Some(k) then Some(None) else None
    case Item(_) => if before.value.Some? then before else None
    case _ => if before.value.None? then before else None
  }

  // ---------------------------------------------------------------- the state machine

  function FlushParagraph(s: State): (r: State)
    ensures r == s.(blocks := r.blocks, paragraph := [])
    ensures Emitted(r.blocks) == Emitted(s.blocks) + s.paragraph
    ensures OpenAfter(s.blocks) == Some(None) || s.paragraph == [] ==> OpenAfter(r.blocks) == OpenAfter(s.blocks)
  {
    if s.paragraph == [] then s else s.(blocks := Snoc(s.blocks, Paragraph(s.paragraph)), paragraph := [])
  }

  function CloseList(s: State): (r: State)
    ensures r == s.(blocks := r.blocks, list := None)
    ensures Emitted(r.blocks) == Emitted(s.blocks)
    ensures OpenAfter(s.blocks) == Some(s.list) ==> OpenAfter(r.blocks) == Some(None)
  {
    if s.list.None? then s else s.(blocks := Snoc(s.blocks, ListEnd(s.list.value)), list := None)
  }

  /** Whether the second row is a separator. */
  predicate IsTable(rows: seq<nat>, lines: seq<Line>)
  {
    |rows| >= 2 && rows[1] < |lines| && lines[rows[1]] == TableRow(true)
  }

  /** Rows without a separator in second place become a paragraph. */
  function FlushTable(s: State, lines: seq<Line>): (r: State)
    ensures r == s.(blocks := r.blocks, table := [])
    ensures Emitted(r.blocks) == Emitted(s.blocks) + s.table
    ensures OpenAfter(s.blocks) == Some(None) || s.table == [] ==> OpenAfter(r.blocks) == OpenAfter(s.blocks)
  {
    if s.table == [] then s
    else
      s.(blocks := Snoc(s.blocks, if IsTable(s.table, lines) then Table(s.table) else Paragraph(s.table)), table := [])
  }

  function StartList(s: State, wanted: ListKind): (r: State)
    ensures r == s.(blocks := r.blocks, list := Some(wanted))
    ensures Emitted(r.blocks) == Emitted(s.blocks)
    ensures OpenAfter(s.blocks) == Some(s.list) ==> OpenAfter(r.blocks) == Some(Some(wanted))
  {
    if s.list == Some(wanted) then s
    else
      var t := CloseList(s);
      t.(blocks := Snoc(t.blocks, ListStart(wanted)), list := Some(wanted))
  }

  function OnFence(s: State, i: nat): State
  {
    if s.inCode then s.(blocks := Snoc(s.blocks, Code(s.codeOpen, s.code)), code := [], inCode := false)
    else CloseList(FlushParagraph(s)).(inCode := true, codeOpen := i)
  }

  function OnBlank(s: State, lines: seq<Line>): State { FlushTable(CloseList(FlushParagraph(s)), lines) }

  function OnRow(s: State, i: nat): State
  {
    var t := CloseList(FlushParagraph(s));
    t.(table := t.table + [i])
  }

  function OnHeading(s: State, lines: seq<Line>, i: nat): State
  {
    var t := CloseList(FlushParagraph(FlushTable(s, lines)));
    t.(blocks := Snoc(t.blocks, Head(i)))
  }

  function OnItem(s: State, lines: seq<Line>, i: nat, wanted: ListKind): State
  {
    var t := StartList(FlushParagraph(FlushTable(s, lines)), wanted);
    t.(blocks := Snoc(t.blocks, Item(i)))
  }

  function OnPlain(s: State, lines: seq<Line>, i: nat): State
  {
    var t := CloseList(FlushTable(s, lines));
    t.(paragraph := t.paragraph + [i])
  }

  /** The loop body on line `i`. */
  function Step(s: State, lines: seq<Line>, i: nat): State
    requires i < |lines|
  {
    if lines[i].Fence? then OnFence(s, i)
    else if s.inCode then s.(code := s.code + [i])
    else
      match lines[i]
      case Blank => OnBlank(s, lines)
      case TableRow(_) => OnRow(s, i)
      case Heading => OnHeading(s, lines, i)
      case Bullet => OnItem(s, lines, i, Unordered)
      case Numbered => OnItem(s, lines, i, Ordered)
      case _ => OnPlain(s, lines, i)
  }

  function Run(lines: seq<Line>, i: nat): State
    requires i <= |lines|
  {
    if i == 0 then Start else Step(Run(lines, i - 1), lines, i - 1)
  }

  function Finish(s: State, lines: seq<Line>): State
  {
    var t := FlushTable(CloseList(FlushParagraph(s)), lines);
    if t.inCode then t.(blocks := Snoc(t.blocks, Code(t.codeOpen, t.code))) else t
  }

  function Rendered(lines: seq<Line>): Output { Finish(Run(lines, |lines|), lines).blocks }

  // ------------------------------------------------------------------------- nesting

  /** What every reachable state keeps: the open list is the one in the output, and while
      one is open nothing is buffered. */
  ghost predicate Nested(s: State)
  {
    && OpenAfter(s.blocks) == Some(s.list)
    && (s.list.Some? ==> s.paragraph == [] && s.table == [] && !s.inCode)
    && (s.inCode ==> s.paragraph == [])
    && (s.paragraph != [] ==> s.table == [])
    && (!s.inCode ==> s.code == [])
  }

  lemma FenceNested(s: State, i: nat)
    requires Nested(s)
    ensures Nested(OnFence(s, i))
  {
  }

  lemma BlankNested(s: State, lines: seq<Line>)
    requires Nested(s) && !s.inCode
    ensures Nested(OnBlank(s, lines))
  {
  }

  lemma RowNested(s: State, i: nat)
    requires Nested(s) && !s.inCode
    ensures Nested(OnRow(s, i))
  {
  }

  lemma HeadingNested(s: State, lines: seq<Line>, i: nat)
    requires Nested(s) && !s.inCode
    ensures Nested(OnHeading(s, lines, i))
  {
  }

  lemma ItemNested(s: State, lines: seq<Line>, i: nat, wanted: ListKind)
    requires Nested(s) && !s.inCode
    ensures Nested(OnItem(s, lines, i, wanted))
  {
    var t := FlushParagraph(FlushTable(s, lines));
    assert OpenAfter(t.blocks) == Some(t.list);
    assert OpenAfter(StartList(t, wanted).blocks) == Some(Some(wanted));
  }

  lemma PlainNested(s: State, lines: seq<Line>, i: nat)
    requires Nested(s) && !s.inCode
    ensures Nested(OnPlain(s, lines, i))
  {
  }

  lemma StepNested(s: State, lines: seq<Line>, i: nat)
    requires i < |lines| && Nested(s)
    ensures Nested(Step(s, lines, i))
  {
    if lines[i].Fence? {
      FenceNested(s, i);
    } else if !s.inCode {
      match lines[i]
      case Blank => BlankNested(s, lines);
      case TableRow(_) => RowNested(s, i);
      case Heading => HeadingNested(s, lines, i);
      case Bullet => ItemNested(s, lines, i, Unordered);
      case Numbered => ItemNested(s, lines, i, Ordered);
      case Plain => PlainNested(s, lines, i);
    }
  }

  ghost predicate NestedAfter(lines: seq<Line>, i: nat)
    requires i <= |lines|
  {
    Nested(Run(lines, i))
  }

  lemma NestedAtStart(lines: seq<Line>)
    ensures NestedAfter(lines, 0)
  {
  }

  lemma NestedAfterStep(lines: seq<Line>, i: nat, j: nat)
    requires i < |lines| && j == i + 1 && NestedAfter(lines, i)
    ensures NestedAfter(lines, j)
  {
    StepNested(Run(lines, i), lines, i);
    assert Run(lines, j) == Step(Run(lines, i), lines, i);
  }

  lemma {:induction false} RunNested(lines: seq<Line>, i: nat)
    requires i <= |lines|
    ensures NestedAfter(lines, i)
  {
    if i == 0 {
      NestedAtStart(lines);
    } else {
      RunNested(lines, i - 1);
      NestedAfterStep(lines, i - 1, i);
    }
  }

  lemma FinishNested(s: State, lines: seq<Line>)
    requires Nested(s)
    ensures OpenAfter(Finish(s, lines).blocks) == Some(None)
  {
  }

  /** For every text: items occur only inside one open list, nothing else does, and every
      list that is opened is closed. */
  lemma RenderedWellNested(lines: seq<Line>)
    ensures OpenAfter(Rendered(lines)) == Some(None)
  {
    RunNested(lines, |lines|);
    FinishNested(Run(lines, |lines|), lines);
  }

  // ------------------------------------------------------------------- source lines

  /** Whether an odd number of fences precedes line `i`. */
  predicate InCode(lines: seq<Line>, i: nat)
    requires i <= |lines|
  {
    i > 0 && (if lines[i - 1].Fence? then !InCode(lines, i - 1) else InCode(lines, i - 1))
  }

  /** Lines that have to show up: everything but blank lines outside code and the fences
      that close code. An opening fence stands for its code block. */
  predicate IsContent(lines: seq<Line>, i: nat)
    requires i < |lines|
  {
    if InCode(lines, i) then !lines[i].Fence? else !lines[i].Blank?
  }

  function Content(lines: seq<Line>, i: nat): seq<nat>
    requires i <= |lines|
  {
    if i == 0 then [] else Content(lines, i - 1) + (if IsContent(lines, i - 1) then [i - 1] else [])
  }

  function CodeLines(s: State): seq<nat> { if s.inCode then [s.codeOpen] + s.code else [] }

  /** Everything rendered or waiting, in the order it would come out now. */
  function Seen(s: State): seq<nat> { Emitted(s.blocks) + (s.table + s.paragraph + CodeLines(s)) }

  /** The one step that puts lines out of order: closing code while rows are waiting. */
  predicate Displaces(s: State, lines: seq<Line>, i: nat)
    requires i < |lines|
  {
    lines[i].Fence? && s.inCode && s.table != []
  }

  function NewLine(s: State, lines: seq<Line>, i: nat): seq<nat>
    requires i < |lines|
  {
    if (if s.inCode then !lines[i].Fence? else !lines[i].Blank?) then [i] else []
  }

  /** The rearrangements a step makes when rows or paragraph lines, but not both, wait. */
  lemma Rearranged(e: seq<nat>, t: seq<nat>, p: seq<nat>, n: seq<nat>)
    requires t == [] || p == []
    ensures e + p + t == e + (t + p + [])
    ensures e + t + p + n == e + (t + p + []) + n
    ensures e + p + (t + n + [] + []) == e + (t + p + []) + n
    ensures e + p + (t + [] + (n + [])) == e + (t + p + []) + n
    ensures e + t + ([] + (p + n) + []) == e + (t + p + []) + n
  {
    if t == [] {
      assert e + p + t == e + p && e + t == e && t + p == p;
    } else {
      assert e + p == e && t + p == t;
    }
  }

  lemma OpeningSeen(s: State, i: nat)
    requires Nested(s) && !s.inCode
    ensures Seen(OnFence(s, i)) == Seen(s) + [i]
  {
    Rearranged(Emitted(s.blocks), s.table, s.paragraph, [i]);
  }

  lemma ClosingSeen(s: State, i: nat)
    requires Nested(s) && s.inCode && s.table == []
    ensures Seen(OnFence(s, i)) == Seen(s)
  {
    var c := [s.codeOpen] + s.code;
    assert [] + [] + c == c && c + ([] + [] + []) == c;
  }

  lemma BlankSeen(s: State, lines: seq<Line>)
    requires Nested(s) && !s.inCode
    ensures Seen(OnBlank(s, lines)) == Seen(s)
  {
    Rearranged(Emitted(s.blocks), s.table, s.paragraph, []);
  }

  lemma RowSeen(s: State, i: nat)
    requires Nested(s) && !s.inCode
    ensures Seen(OnRow(s, i)) == Seen(s) + [i]
  {
    Rearranged(Emitted(s.blocks), s.table, s.paragraph, [i]);
  }

  lemma PlainSeen(s: State, lines: seq<Line>, i: nat)
    requires Nested(s) && !s.inCode
    ensures Seen(OnPlain(s, lines, i)) == Seen(s) + [i]
  {
    Rearranged(Emitted(s.blocks), s.table, s.paragraph, [i]);
  }

  lemma HeadingSeen(s: State, lines: seq<Line>, i: nat)
    requires Nested(s) && !s.inCode
    ensures Seen(OnHeading(s, lines, i)) == Seen(s) + [i]
  {
    Rearranged(Emitted(s.blocks), s.table, s.paragraph, [i]);
  }

  lemma ItemSeen(s: State, lines: seq<Line>, i: nat, wanted: ListKind)
    requires Nested(s) && !s.inCode
    ensures Seen(OnItem(s, lines, i, wanted)) == Seen(s) + [i]
  {
    Rearranged(Emitted(s.blocks), s.table, s.paragraph, [i]);
  }

  lemma CodeSeen(s: State, i: nat)
    requires s.inCode
    ensures Seen(s.(code := s.code + [i])) == Seen(s) + [i]
  {
    assert [s.codeOpen] + (s.code + [i]) == [s.codeOpen] + s.code + [i];
  }

  lemma OutsideCodeKeepsOrder(s: State, lines: seq<Line>, i: nat)
    requires i < |lines| && Nested(s) && !s.inCode && !lines[i].Fence?
    ensures Seen(Step(s, lines, i)) == Seen(s) + (if lines[i].Blank? then [] else [i])
  {
    match lines[i]
    case Blank => BlankSeen(s, lines);
    case TableRow(_) => RowSeen(s, i);
    case Heading => HeadingSeen(s, lines, i);
    case Bullet => ItemSeen(s, lines, i, Unordered);
    case Numbered => ItemSeen(s, lines, i, Ordered);
    case Plain => PlainSeen(s, lines, i);
  }

  /** Every step but a displacing one keeps the lines seen so far in order and adds its own. */
  lemma StepKeepsOrder(s: State, lines: seq<Line>, i: nat)
    requires i < |lines| && Nested(s) && !Displaces(s, lines, i)
    ensures Seen(Step(s, lines, i)) == Seen(s) + NewLine(s, lines, i)
  {
    if lines[i].Fence? {
      if s.inCode { ClosingSeen(s, i); } else { OpeningSeen(s, i); }
    } else if s.inCode {
      CodeSeen(s, i);
    } else {
      OutsideCodeKeepsOrder(s, lines, i);
    }
  }

  lemma StepKeepsLines(s: State, lines: seq<Line>, i: nat)
    requires i < |lines| && Nested(s)
    ensures multiset(Seen(Step(s, lines, i))) == multiset(Seen(s)) + multiset(NewLine(s, lines, i))
  {
    if Displaces(s, lines, i) {
      var e, c := Emitted(s.blocks), [s.codeOpen] + s.code;
      assert Seen(s) == e + s.table + c;
      assert Seen(Step(s, lines, i)) == e + c + s.table;
    } else {
      StepKeepsOrder(s, lines, i);
    }
  }

  lemma StepInCode(s: State, lines: seq<Line>, i: nat)
    requires i < |lines|
    ensures Step(s, lines, i).inCode == (if lines[i].Fence? then !s.inCode else s.inCode)
  {
  }

  ghost predicate InCodeAfter(lines: seq<Line>, i: nat)
    requires i <= |lines|
  {
    Run(lines, i).inCode <==> InCode(lines, i)
  }

  lemma InCodeAtStart(lines: seq<Line>)
    ensures InCodeAfter(lines, 0)
  {
  }

  lemma InCodeAfterStep(lines: seq<Line>, i: nat, j: nat)
    requires i < |lines| && j == i + 1 && InCodeAfter(lines, i)
    ensures InCodeAfter(lines, j)
  {
    StepInCode(Run(lines, i), lines, i);
    assert Run(lines, j) == Step(Run(lines, i), lines, i);
  }

  lemma {:induction false} RunInCode(lines: seq<Line>, i: nat)
    requires i <= |lines|
    ensures InCodeAfter(lines, i)
  {
    if i == 0 {
      InCodeAtStart(lines);
    } else {
      RunInCode(lines, i - 1);
      InCodeAfterStep(lines, i - 1, i);
    }
  }

  /** Everything later steps need to know about a reachable state. */
  ghost predicate StandsFor(s: State, lines: seq<Line>, i: nat)
    requires i <= |lines|
  {
    Nested(s) && (s.inCode <==> InCode(lines, i))
  }

  lemma RunStandsFor(lines: seq<Line>, i: nat)
    requires i <= |lines|
    ensures StandsFor(Run(lines, i), lines, i)
  {
    RunNested(lines, i);
    RunInCode(lines, i);
  }

  lemma ContentStep(s: State, lines: seq<Line>, i: nat)
    requires i < |lines| && (s.inCode <==> InCode(lines, i))
    ensures Content(lines, i + 1) == Content(lines, i) + NewLine(s, lines, i)
  {
  }

  /** Up to order, the lines seen are the content of the first `i` lines. */
  ghost predicate SameLines(s: State, lines: seq<Line>, i: nat)
    requires i <= |lines|
  {
    multiset(Seen(s)) == multiset(Content(lines, i))
  }

  /** One turn of the loop, from a state that stands for the first `i` lines. */
  lemma LinesStep(s: State, lines: seq<Line>, i: nat)
    requires i < |lines| && StandsFor(s, lines, i)
    requires SameLines(s, lines, i)
    ensures SameLines(Step(s, lines, i), lines, i + 1)
  {
    StepKeepsLines(s, lines, i);
    ContentStep(s, lines, i);
  }

  lemma RunLinesStep(lines: seq<Line>, i: nat)
    requires i < |lines| && SameLines(Run(lines, i), lines, i)
    ensures SameLines(Run(lines, i + 1), lines, i + 1)
  {
    RunStandsFor(lines, i);
    LinesStep(Run(lines, i), lines, i);
  }

  lemma {:induction false} RunKeepsLines(lines: seq<Line>, i: nat)
    requires i <= |lines|
    ensures SameLines(Run(lines, i), lines, i)
  {
    if i == 0 {
      assert Seen(Start) == [];
    } else {
      RunKeepsLines(lines, i - 1);
      RunLinesStep(lines, i - 1);
    }
  }

  lemma Swapped(e: seq<nat>, t: seq<nat>, p: seq<nat>, c: seq<nat>)
    requires t == [] || p == []
    ensures e + p + t + c == e + (t + p + c) && (c == [] ==> e + p + t == e + (t + p + c))
  {
    if t == [] {
      assert e + p + t == e + p && t + p == p;
    } else {
      assert e + p == e && t + p == t;
    }
  }

  lemma FinishEmits(s: State, lines: seq<Line>)
    requires Nested(s)
    ensures Emitted(Finish(s, lines).blocks) == Seen(s)
  {
    Swapped(Emitted(s.blocks), s.table, s.paragraph, CodeLines(s));
  }

  /** Every content line is in exactly one block, and nothing else is. */
  lemma EveryLineInOneBlock(lines: seq<Line>)
    ensures multiset(Emitted(Rendered(lines))) == multiset(Content(lines, |lines|))
  {
    RunKeepsLines(lines, |lines|);
    RunNested(lines, |lines|);
    FinishEmits(Run(lines, |lines|), lines);
  }

  // ---------------------------------------------------------------- separator rows

  /** Every table of the output has a separator row in second place. */
  ghost predicate TablesSeparated(o: Output, lines: seq<Line>)
  {
    o.Snoc? ==> TablesSeparated(o.init, lines) && (o.last.Table? ==> IsTable(o.last.lines, lines))
  }

  ghost predicate Separated(s: State, lines: seq<Line>) { TablesSeparated(s.blocks, lines) }

  lemma SnocSeparated(o: Output, b: Block, lines: seq<Line>)
    requires TablesSeparated(o, lines) && (b.Table? ==> IsTable(b.lines, lines))
    ensures TablesSeparated(Snoc(o, b), lines)
  {
  }

  lemma ClosedSeparated(s: State, lines: seq<Line>)
    requires Separated(s, lines)
    ensures Separated(FlushParagraph(s), lines) && Separated(CloseList(s), lines)
    ensures Separated(FlushTable(s, lines), lines)
  {
    SnocSeparated(s.blocks, Paragraph(s.paragraph), lines);
    SnocSeparated(s.blocks, if IsTable(s.table, lines) then Table(s.table) else Paragraph(s.table), lines);
    if s.list.Some? { SnocSeparated(s.blocks, ListEnd(s.list.value), lines); }
  }

  lemma BothClosed(s: State, lines: seq<Line>)
    requires Separated(s, lines)
    ensures Separated(CloseList(FlushParagraph(s)), lines)
  {
    ClosedSeparated(s, lines);
    ClosedSeparated(FlushParagraph(s), lines);
  }

  lemma FenceSeparated(s: State, lines: seq<Line>, i: nat)
    requires Separated(s, lines)
    ensures Separated(OnFence(s, i), lines)
  {
    if s.inCode { SnocSeparated(s.blocks, Code(s.codeOpen, s.code), lines); } else { BothClosed(s, lines); }
  }

  lemma BlankSeparated(s: State, lines: seq<Line>)
    requires Separated(s, lines)
    ensures Separated(OnBlank(s, lines), lines)
  {
    BothClosed(s, lines);
    ClosedSeparated(CloseList(FlushParagraph(s)), lines);
  }

  lemma RowSeparated(s: State, lines: seq<Line>, i: nat)
    requires Separated(s, lines)
    ensures Separated(OnRow(s, i), lines)
  {
    BothClosed(s, lines);
  }

  lemma HeadingSeparated(s: State, lines: seq<Line>, i: nat)
    requires Separated(s, lines)
    ensures Separated(OnHeading(s, lines, i), lines)
  {
    ClosedSeparated(s, lines);
    BothClosed(FlushTable(s, lines), lines);
    SnocSeparated(CloseList(FlushParagraph(FlushTable(s, lines))).blocks, Head(i), lines);
  }

  lemma StartSeparated(s: State, lines: seq<Line>, wanted: ListKind)
    requires Separated(s, lines)
    ensures Separated(StartList(s, wanted), lines)
  {
    ClosedSeparated(s, lines);
    SnocSeparated(CloseList(s).blocks, ListStart(wanted), lines);
  }

  lemma ItemSeparated(s: State, lines: seq<Line>, i: nat, wanted: ListKind)
    requires Separated(s, lines)
    ensures Separated(OnItem(s, lines, i, wanted), lines)
  {
    var t := FlushTable(s, lines);
    ClosedSeparated(s, lines);
    ClosedSeparated(t, lines);
    StartSeparated(FlushParagraph(t), lines, wanted);
    SnocSeparated(StartList(FlushParagraph(t), wanted).blocks, Item(i), lines);
  }

  lemma PlainSeparated(s: State, lines: seq<Line>, i: nat)
    requires Separated(s, lines)
    ensures Separated(OnPlain(s, lines, i), lines)
  {
    ClosedSeparated(s, lines);
    ClosedSeparated(FlushTable(s, lines), lines);
  }

  lemma StepSeparated(s: State, lines: seq<Line>, i: nat)
    requires i < |lines| && Separated(s, lines)
    ensures Separated(Step(s, lines, i), lines)
  {
    if lines[i].Fence? {
      FenceSeparated(s, lines, i);
    } else if !s.inCode {
      match lines[i]
      case Blank => BlankSeparated(s, lines);
      case TableRow(_) => RowSeparated(s, lines, i);
      case Heading => HeadingSeparated(s, lines, i);
      case Bullet => ItemSeparated(s, lines, i, Unordered);
      case Numbered => ItemSeparated(s, lines, i, Ordered);
      case Plain => PlainSeparated(s, lines, i);
    }
  }

  ghost predicate SeparatedAfter(lines: seq<Line>, i: nat)
    requires i <= |lines|
  {
    Separated(Run(lines, i), lines)
  }

  lemma SeparatedAfterStep(lines: seq<Line>, i: nat, j: nat)
    requires i < |lines| && j == i + 1 && SeparatedAfter(lines, i)
    ensures SeparatedAfter(lines, j)
  {
    StepSeparated(Run(lines, i), lines, i);
    assert Run(lines, j) == Step(Run(lines, i), lines, i);
  }

  lemma SeparatedAtStart(lines: seq<Line>)
    ensures SeparatedAfter(lines, 0)
  {
  }

  lemma {:induction false} RunSeparated(lines: seq<Line>, i: nat)
    requires i <= |lines|
    ensures SeparatedAfter(lines, i)
  {
    if i == 0 {
      SeparatedAtStart(lines);
    } else {
      RunSeparated(lines, i - 1);
      SeparatedAfterStep(lines, i - 1, i);
    }
  }

  lemma FinishSeparated(s: State, lines: seq<Line>)
    requires Separated(s, lines)
    ensures Separated(Finish(s, lines), lines)
  {
    BlankSeparated(s, lines);
    var t := FlushTable(CloseList(FlushParagraph(s)), lines);
    SnocSeparated(t.blocks, Code(t.codeOpen, t.code), lines);
  }

  /** The lines whose text a block shows, and the one row it drops. */
  function ShownLines(b: Block): seq<nat>
  {
    if b.Table? && |b.lines| >= 2 then [b.lines[0]] + b.lines[2..] else BlockLines(b)
  }

  function DroppedLines(b: Block): seq<nat> { if b.Table? && |b.lines| >= 2 then [b.lines[1]] else [] }

  function Shown(o: Output): seq<nat> { if o.Nothing? then [] else Shown(o.init) + ShownLines(o.last) }

  function Dropped(o: Output): seq<nat> { if o.Nothing? then [] else Dropped(o.init) + DroppedLines(o.last) }

  predicate Separator(lines: seq<Line>, k: nat) { k < |lines| && lines[k] == TableRow(true) }

  lemma BlockSplits(b: Block)
    ensures multiset(BlockLines(b)) == multiset(ShownLines(b)) + multiset(DroppedLines(b))
  {
    if b.Table? && |b.lines| >= 2 {
      assert b.lines == [b.lines[0]] + [b.lines[1]] + b.lines[2..];
    }
  }

  lemma SumSplits(a: seq<nat>, b: seq<nat>, a1: seq<nat>, b1: seq<nat>, a2: seq<nat>, b2: seq<nat>)
    requires multiset(a) == multiset(a1) + multiset(a2) && multiset(b) == multiset(b1) + multiset(b2)
    ensures multiset(a + b) == multiset(a1 + b1) + multiset(a2 + b2)
  {
  }

  lemma {:induction false} OutputSplits(o: Output)
    ensures multiset(Emitted(o)) == multiset(Shown(o)) + multiset(Dropped(o))
  {
    if o.Snoc? {
      OutputSplits(o.init);
      BlockSplits(o.last);
      SumSplits(Emitted(o.init), BlockLines(o.last), Shown(o.init), ShownLines(o.last), Dropped(o.init),
                DroppedLines(o.last));
    }
  }

  lemma {:induction false} DropsSeparators(o: Output, lines: seq<Line>)
    requires TablesSeparated(o, lines)
    ensures forall k :: 0 <= k < |Dropped(o)| ==> Separator(lines, Dropped(o)[k])
  {
    if o.Snoc? { DropsSeparators(o.init, lines); }
  }

  /** For every text, every content line is shown exactly once and nothing else is, apart
      from rows that are dropped once each: the separators in second place of a table. */
  lemma RendersEveryLineOnce(lines: seq<Line>)
    ensures var o := Rendered(lines);
            && multiset(Shown(o)) + multiset(Dropped(o)) == multiset(Content(lines, |lines|))
            && forall k :: 0 <= k < |Dropped(o)| ==> Separator(lines, Dropped(o)[k])
  {
    EveryLineInOneBlock(lines);
    RunSeparated(lines, |lines|);
    FinishSeparated(Run(lines, |lines|), lines);
    OutputSplits(Rendered(lines));
    DropsSeparators(Rendered(lines), lines);
  }

  // --------------------------------------------------------------------------- order

  ghost predicate Increasing(s: seq<nat>) { forall p, q :: 0 <= p < q < |s| ==> s[p] < s[q] }

  lemma {:induction false} ContentIncreasing(lines: seq<Line>, i: nat)
    requires i <= |lines|
    ensures Increasing(Content(lines, i)) && forall p :: 0 <= p < |Content(lines, i)| ==> Content(lines, i)[p] < i
  {
    if i > 0 { ContentIncreasing(lines, i - 1); }
  }

  /** Among the first `n` lines, a table row directly followed by a fence that opens code
      which is closed again. */
  ghost predicate RowThenClosedCode(lines: seq<Line>, n: nat)
    requires n <= |lines|
  {
    exists j: nat, k: nat :: RowFenceFence(lines, j, k) && k < n
  }

  predicate RowFenceFence(lines: seq<Line>, j: nat, k: nat)
  {
    j + 1 < k < |lines| && lines[j].TableRow? && !InCode(lines, j) && lines[j + 1].Fence? && lines[k].Fence?
  }

  /** Where waiting rows come from, until the first displacement. */
  ghost predicate RowsJustSeen(s: State, lines: seq<Line>, i: nat)
    requires i <= |lines|
  {
    s.table != [] ==>
      if s.inCode then 1 <= s.codeOpen < i && lines[s.codeOpen].Fence? && Row(lines, s.codeOpen - 1)
      else i > 0 && Row(lines, i - 1)
  }

  predicate Row(lines: seq<Line>, j: nat) { j < |lines| && lines[j].TableRow? && !InCode(lines, j) }

  /** Some rendered line comes before a smaller one, or before a waiting smaller row. */
  ghost predicate Inverted(e: seq<nat>, t: seq<nat>)
  {
    exists p, q :: 0 <= p < |e| && p < q < |e| + |t| && e[p] > (e + t)[q]
  }

  lemma RowsStep(s: State, lines: seq<Line>, i: nat)
    requires i < |lines| && Nested(s) && (s.inCode <==> InCode(lines, i)) && RowsJustSeen(s, lines, i)
    requires !Displaces(s, lines, i)
    ensures RowsJustSeen(Step(s, lines, i), lines, i + 1)
  {
  }

  /** Output grows by `mid`, and every waiting row still waits or is in `mid`. */
  ghost predicate Grows(s: State, s': State, mid: seq<nat>)
  {
    && Emitted(s'.blocks) == Emitted(s.blocks) + mid
    && forall k :: 0 <= k < |s.table| ==> s.table[k] in s'.table || s.table[k] in mid
  }

  lemma Holds(e: seq<nat>, t: seq<nat>, p: seq<nat>, n: seq<nat>)
    ensures e + t + p + n == e + (t + p + n) && e + p + t == e + (p + t)
    ensures forall k :: 0 <= k < |t| ==> t[k] in t + p + n && t[k] in p + t
  {
    forall k | 0 <= k < |t|
      ensures t[k] in t + p + n && t[k] in p + t
    {
      assert (t + p + n)[k] == t[k] && (p + t)[|p| + k] == t[k];
    }
  }

  lemma BlankGrows(s: State, lines: seq<Line>)
    ensures Grows(s, OnBlank(s, lines), s.paragraph + s.table)
  {
    Holds(Emitted(s.blocks), s.table, s.paragraph, []);
  }

  lemma HeadingGrows(s: State, lines: seq<Line>, i: nat)
    ensures Grows(s, OnHeading(s, lines, i), s.table + s.paragraph + [i])
  {
    Holds(Emitted(s.blocks), s.table, s.paragraph, [i]);
  }

  lemma ItemGrows(s: State, lines: seq<Line>, i: nat, wanted: ListKind)
    ensures Grows(s, OnItem(s, lines, i, wanted), s.table + s.paragraph + [i])
  {
    Holds(Emitted(s.blocks), s.table, s.paragraph, [i]);
  }

  /** Waiting rows leave the buffer only into the output. */
  lemma StepGrows(s: State, lines: seq<Line>, i: nat) returns (mid: seq<nat>)
    requires i < |lines|
    ensures Grows(s, Step(s, lines, i), mid)
  {
    mid := [];
    if lines[i].Fence? {
      mid := if s.inCode then [s.codeOpen] + s.code else s.paragraph;
    } else if !s.inCode {
      match lines[i]
      case Blank =>
        BlankGrows(s, lines);
        mid := s.paragraph + s.table;
      case TableRow(_) => mid := s.paragraph;
      case Heading =>
        HeadingGrows(s, lines, i);
        mid := s.table + s.paragraph + [i];
      case Plain => mid := s.table;
      case _ =>
        ItemGrows(s, lines, i, Unordered);
        ItemGrows(s, lines, i, Ordered);
        mid := s.table + s.paragraph + [i];
    }
  }

  lemma InvertedKept(e: seq<nat>, t: seq<nat>, mid: seq<nat>, t': seq<nat>)
    requires Inverted(e, t) && forall k :: 0 <= k < |t| ==> t[k] in t' || t[k] in mid
    ensures Inverted(e + mid, t')
  {
    var p, q :| 0 <= p < |e| && p < q < |e| + |t| && e[p] > (e + t)[q];
    var all := e + mid + t';
    assert (e + mid)[p] == e[p];
    if q < |e| {
      assert all[q] == e[q];
    } else {
      var y := t[q - |e|];
      if y in mid {
        var k :| 0 <= k < |mid| && mid[k] == y;
        assert all[|e| + k] == y;
      } else {
        var k :| 0 <= k < |t'| && t'[k] == y;
        assert all[|e + mid| + k] == y;
      }
    }
  }

  lemma InvertedStep(s: State, lines: seq<Line>, i: nat)
    requires i < |lines| && Inverted(Emitted(s.blocks), s.table)
    ensures var s' := Step(s, lines, i); Inverted(Emitted(s'.blocks), s'.table)
  {
    var mid := StepGrows(s, lines, i);
    InvertedKept(Emitted(s.blocks), s.table, mid, Step(s, lines, i).table);
  }

  /** Closing code before the rows in front of it puts a later line first. */
  lemma DisplacingInverts(s: State, i: nat)
    requires Nested(s) && s.inCode && s.table != [] && Increasing(Seen(s))
    ensures var s' := OnFence(s, i); Inverted(Emitted(s'.blocks), s'.table)
  {
    var e, t, c := Emitted(s.blocks), s.table, [s.codeOpen] + s.code;
    assert Seen(s) == e + t + c;
    assert Seen(s)[|e|] == t[0] && Seen(s)[|e| + |t|] == s.codeOpen;
    var e' := e + c;
    assert Emitted(OnFence(s, i).blocks) == e';
    assert e'[|e|] == s.codeOpen && (e' + t)[|e'|] == t[0];
  }

  lemma CodeStep(s: State, lines: seq<Line>, i: nat)
    requires i < |lines| && s.inCode && !lines[i].Fence?
    ensures var r := Step(s, lines, i); r.inCode && r.table == s.table
  {
  }

  lemma AfterRow(s: State, lines: seq<Line>, j: nat)
    requires j + 1 < |lines| && lines[j].TableRow? && !s.inCode && lines[j + 1].Fence?
    ensures var r := Step(Step(s, lines, j), lines, j + 1); r.inCode && r.table != []
  {
    var t := Step(s, lines, j);
    assert t == OnRow(s, j) && t.table != [] && !t.inCode;
  }

  /** A row, its fence and no fence since: the rows are still waiting inside code. */
  lemma {:induction false} RowsWaitInCode(lines: seq<Line>, j: nat, i: nat)
    requires j + 2 <= i <= |lines| && Row(lines, j) && lines[j + 1].Fence?
    requires forall m :: j + 2 <= m < i ==> !lines[m].Fence?
    ensures Run(lines, i).inCode && Run(lines, i).table != []
  {
    if i == j + 2 {
      RunInCode(lines, j);
      AfterRow(Run(lines, j), lines, j);
      assert Run(lines, j + 1) == Step(Run(lines, j), lines, j);
    } else {
      RowsWaitInCode(lines, j, i - 1);
      CodeStep(Run(lines, i - 1), lines, i - 1);
    }
  }

  /** The first displacement is the first closing fence after a row and its fence. */
  lemma DisplacesIff(lines: seq<Line>, i: nat)
    requires i < |lines| && !RowThenClosedCode(lines, i) && RowsJustSeen(Run(lines, i), lines, i)
    ensures Displaces(Run(lines, i), lines, i) <==> RowThenClosedCode(lines, i + 1)
  {
    var s := Run(lines, i);
    if Displaces(s, lines, i) {
      assert RowFenceFence(lines, s.codeOpen - 1, i);
    }
    if RowThenClosedCode(lines, i + 1) {
      var j: nat, k: nat :| RowFenceFence(lines, j, k) && k < i + 1;
      assert k == i;
      forall m: nat | j + 2 <= m < i
        ensures !lines[m].Fence?
      {
        assert !RowFenceFence(lines, j, m);
      }
      RowsWaitInCode(lines, j, i);
    }
  }

  /** What the state after `i` lines says about order. */
  ghost predicate OrderedOrInverted(s: State, lines: seq<Line>, i: nat)
    requires i <= |lines|
  {
    if RowThenClosedCode(lines, i) then Inverted(Emitted(s.blocks), s.table)
    else Seen(s) == Content(lines, i) && RowsJustSeen(s, lines, i)
  }

  lemma StillClosed(lines: seq<Line>, i: nat)
    requires i < |lines| && RowThenClosedCode(lines, i)
    ensures RowThenClosedCode(lines, i + 1)
  {
    var j: nat, k: nat :| RowFenceFence(lines, j, k) && k < i;
  }

  lemma OrderStep(s: State, lines: seq<Line>, i: nat)
    requires i < |lines| && StandsFor(s, lines, i) && OrderedOrInverted(s, lines, i)
    requires !RowThenClosedCode(lines, i) ==> (Displaces(s, lines, i) <==> RowThenClosedCode(lines, i + 1))
    ensures OrderedOrInverted(Step(s, lines, i), lines, i + 1)
  {
    if RowThenClosedCode(lines, i) {
      StillClosed(lines, i);
      InvertedStep(s, lines, i);
    } else if Displaces(s, lines, i) {
      ContentIncreasing(lines, i);
      DisplacingInverts(s, i);
    } else {
      StepKeepsOrder(s, lines, i);
      ContentStep(s, lines, i);
      RowsStep(s, lines, i);
    }
  }

  lemma RunOrderStep(lines: seq<Line>, i: nat)
    requires i < |lines| && OrderedOrInverted(Run(lines, i), lines, i)
    ensures OrderedOrInverted(Run(lines, i + 1), lines, i + 1)
  {
    RunStandsFor(lines, i);
    if !RowThenClosedCode(lines, i) { DisplacesIff(lines, i); }
    OrderStep(Run(lines, i), lines, i);
  }

  lemma {:induction false} RunOrder(lines: seq<Line>, i: nat)
    requires i <= |lines|
    ensures OrderedOrInverted(Run(lines, i), lines, i)
  {
    if i == 0 {
      assert Seen(Start) == [];
    } else {
      RunOrder(lines, i - 1);
      RunOrderStep(lines, i - 1);
    }
  }

  lemma InvertedNotIncreasing(e: seq<nat>, t: seq<nat>, rest: seq<nat>)
    requires Inverted(e, t)
    ensures !Increasing(e + (t + rest))
  {
    var p, q :| 0 <= p < |e| && p < q < |e| + |t| && e[p] > (e + t)[q];
    var all := e + (t + rest);
    assert all[p] == e[p] && all[q] == (e + t)[q];
  }

  lemma SeenNotIncreasing(s: State)
    requires Inverted(Emitted(s.blocks), s.table)
    ensures !Increasing(Seen(s))
  {
    var e, rest := Emitted(s.blocks), s.paragraph + CodeLines(s);
    InvertedNotIncreasing(e, s.table, rest);
    assert s.table + rest == s.table + s.paragraph + CodeLines(s);
  }

  lemma FinishOrder(s: State, lines: seq<Line>)
    requires OrderedOrInverted(s, lines, |lines|)
    ensures Seen(s) == Content(lines, |lines|) <==> !RowThenClosedCode(lines, |lines|)
  {
    ContentIncreasing(lines, |lines|);
    if RowThenClosedCode(lines, |lines|) { SeenNotIncreasing(s); }
  }

  /** The rendered lines come in source order if and only if no table row is directly
      followed by a code block that is closed again. */
  lemma RendersInOrderIff(lines: seq<Line>)
    ensures Emitted(Rendered(lines)) == Content(lines, |lines|) <==> !RowThenClosedCode(lines, |lines|)
  {
    RunOrder(lines, |lines|);
    RunNested(lines, |lines|);
    FinishEmits(Run(lines, |lines|), lines);
    FinishOrder(Run(lines, |lines|), lines);
  }

  /** A three-line example: a row, then an empty code block. */
  lemma OutOfOrderExample()
    ensures Emitted(Rendered([TableRow(false), Fence, Fence])) != Content([TableRow(false), Fence, Fence], 3)
  {
    var lines := [TableRow(false), Fence, Fence];
    assert RowFenceFence(lines, 0, 2);
    RendersInOrderIff(lines);
  }

  // ------------------------------------------------------------- the document grammar

  function Range(a: nat, b: nat): (r: seq<nat>)
    ensures |r| == if a <= b then b - a else 0
    ensures forall k :: 0 <= k < |r| ==> r[k] == a + k
  {
    seq(if a <= b then b - a else 0, k => a + k)
  }

  function ItemKind(line: Line): Option<ListKind>
  {
    if line.Bullet? then Some(Unordered) else if line.Numbered? then Some(Ordered) else None
  }

  /** Where the run of plain lines that goes through `i` ends. */
  function PlainEnd(lines: seq<Line>, i: nat): (k: nat)
    requires i <= |lines|
    ensures i <= k <= |lines| && (k < |lines| ==> !lines[k].Plain?)
    ensures forall j :: i <= j < k ==> lines[j].Plain?
    decreases |lines| - i
  {
    if i < |lines| && lines[i].Plain? then PlainEnd(lines, i + 1) else i
  }

  /** Where the run of items of one kind ends. */
  function ItemsEnd(lines: seq<Line>, i: nat, kind: ListKind): (k: nat)
    requires i <= |lines|
    ensures i <= k <= |lines| && (k < |lines| ==> ItemKind(lines[k]) != Some(kind))
    ensures forall j :: i <= j < k ==> ItemKind(lines[j]) == Some(kind)
    decreases |lines| - i
  {
    if i < |lines| && ItemKind(lines[i]) == Some(kind) then ItemsEnd(lines, i + 1, kind) else i
  }

  /** The next fence, or the end. */
  function NextFence(lines: seq<Line>, i: nat): (k: nat)
    requires i <= |lines|
    ensures i <= k <= |lines| && (k < |lines| ==> lines[k].Fence?)
    ensures forall j :: i <= j < k ==> !lines[j].Fence?
    decreases |lines| - i
  {
    if i < |lines| && !lines[i].Fence? then NextFence(lines, i + 1) else i
  }

  function ItemsOf(a: nat, b: nat): seq<Block>
    decreases b - a
  {
    if a < b then [Item(a)] + ItemsOf(a + 1, b) else []
  }

  /** The rows waiting, as they come out: a table exactly if the second is a separator. */
  function RowsOut(rows: seq<nat>, lines: seq<Line>): seq<Block>
  {
    if rows == [] then [] else if IsTable(rows, lines) then [Table(rows)] else [Paragraph(rows)]
  }

  /** The document from line `i` on, with `rows` waiting, read one construct at a time: a
      heading; a run of plain lines; a run of items of one kind; code from a fence to the
      next; rows, which wait for the next line that is neither a row nor code. */
  function Document(lines: seq<Line>, i: nat, rows: seq<nat>): seq<Block>
    requires i <= |lines|
    decreases |lines| - i
  {
    if i == |lines| then RowsOut(rows, lines) else
    match lines[i]
    case Blank => RowsOut(rows, lines) + Document(lines, i + 1, [])
    case TableRow(_) => Document(lines, i + 1, rows + [i])
    case Heading => RowsOut(rows, lines) + [Head(i)] + Document(lines, i + 1, [])
    case Plain =>
      var k := PlainEnd(lines, i + 1);
      RowsOut(rows, lines) + [Paragraph(Range(i, k))] + Document(lines, k, [])
    case Fence =>
      var k := NextFence(lines, i + 1);
      if k == |lines| then RowsOut(rows, lines) + [Code(i, Range(i + 1, k))]
      else [Code(i, Range(i + 1, k))] + Document(lines, k + 1, rows)
    case _ =>
      var kind := ItemKind(lines[i]).value;
      var k := ItemsEnd(lines, i + 1, kind);
      RowsOut(rows, lines) + ([ListStart(kind)] + ItemsOf(i, k) + [ListEnd(kind)]) + Document(lines, k, [])
  }

  /** The loop from line `i` on, and the whole output it leads to. */
  function RunFrom(s: State, lines: seq<Line>, i: nat): State
    requires i <= |lines|
    decreases |lines| - i
  {
    if i == |lines| then s else RunFrom(Step(s, lines, i), lines, i + 1)
  }

  /** `out(s, i)` is the whole output of the loop from state `s` at line `i` on. */
  ghost predicate IsOutcome(out: (State, nat) -> seq<Block>, lines: seq<Line>)
  {
    && (forall s: State, i: nat {:trigger Step(s, lines, i)} ::
          i < |lines| ==> out(s, i) == out(Step(s, lines, i), i + 1))
    && (forall s: State {:trigger Finish(s, lines)} :: out(s, |lines|) == ToSeq(Finish(s, lines).blocks))
  }

  lemma OneStep(out: (State, nat) -> seq<Block>, lines: seq<Line>, s: State, i: nat, t: State)
    requires IsOutcome(out, lines) && i < |lines| && t == Step(s, lines, i)
    ensures out(s, i) == out(t, i + 1)
  {
  }

  lemma AtEnd(out: (State, nat) -> seq<Block>, lines: seq<Line>, s: State)
    requires IsOutcome(out, lines)
    ensures out(s, |lines|) == ToSeq(Finish(s, lines).blocks)
  {
  }

  /** Nothing but rows is waiting. */
  predicate Settled(s: State) { s.paragraph == [] && s.list.None? && !s.inCode && s.code == [] }

  function Settle(s: State): State { CloseList(FlushParagraph(s)) }

  /** What waits besides rows comes out before anything the line does, unless the line
      continues it. */
  ghost predicate Breaks(s: State, line: Line)
  {
    (s.paragraph != [] ==> !line.Plain?) && (s.list.Some? ==> ItemKind(line) != s.list)
  }

  lemma SettledStep(s: State, lines: seq<Line>, i: nat)
    requires i < |lines| && Nested(s) && !s.inCode && Breaks(s, lines[i])
    ensures Step(s, lines, i) == Step(Settle(s), lines, i)
  {
  }

  lemma SettledFinish(s: State, lines: seq<Line>)
    requires Nested(s) && !s.inCode
    ensures Finish(s, lines) == Finish(Settle(s), lines)
  {
  }

  /** At the end of a run, settling early makes no difference. */
  lemma SettledOutcome(out: (State, nat) -> seq<Block>, lines: seq<Line>, s: State, t: State, i: nat)
    requires IsOutcome(out, lines) && t == Settle(s)
    requires i <= |lines| && Nested(s) && !s.inCode && (i < |lines| ==> Breaks(s, lines[i]))
    ensures out(s, i) == out(t, i)
  {
    if i < |lines| {
      SettledStep(s, lines, i);
      OneStep(out, lines, s, i, Step(s, lines, i));
      OneStep(out, lines, t, i, Step(s, lines, i));
    } else {
      SettledFinish(s, lines);
      AtEnd(out, lines, s);
      AtEnd(out, lines, t);
    }
  }

  lemma CodeLine(out: (State, nat) -> seq<Block>, lines: seq<Line>, s: State, i: nat)
    requires IsOutcome(out, lines) && i < |lines| && s.inCode && !lines[i].Fence?
    ensures out(s, i) == out(s.(code := s.code + [i]), i + 1)
  {
    OneStep(out, lines, s, i, s.(code := s.code + [i]));
  }

  lemma {:induction false} CodeRun(out: (State, nat) -> seq<Block>, lines: seq<Line>, s: State, i: nat, k: nat)
    requires IsOutcome(out, lines) && s.inCode && i <= k <= |lines| && forall j :: i <= j < k ==> !lines[j].Fence?
    ensures out(s, i) == out(s.(code := s.code + Range(i, k)), k)
    decreases k - i
  {
    if i == k {
      assert s.code + Range(i, k) == s.code;
    } else {
      CodeLine(out, lines, s, i);
      CodeRun(out, lines, s.(code := s.code + [i]), i + 1, k);
      assert s.code + [i] + Range(i + 1, k) == s.code + Range(i, k);
    }
  }

  lemma PlainLine(out: (State, nat) -> seq<Block>, lines: seq<Line>, s: State, i: nat)
    requires IsOutcome(out, lines) && i < |lines| && lines[i].Plain? && !s.inCode && s.table == [] && s.list.None?
    ensures out(s, i) == out(s.(paragraph := s.paragraph + [i]), i + 1)
  {
    OneStep(out, lines, s, i, s.(paragraph := s.paragraph + [i]));
  }

  /** More plain lines of a paragraph. */
  lemma {:induction false} PlainRun(out: (State, nat) -> seq<Block>, lines: seq<Line>, s: State, i: nat, k: nat)
    requires IsOutcome(out, lines) && !s.inCode && s.table == [] && s.list.None?
    requires i <= k <= |lines| && forall j :: i <= j < k ==> lines[j].Plain?
    ensures out(s, i) == out(s.(paragraph := s.paragraph + Range(i, k)), k)
    decreases k - i
  {
    if i == k {
      assert s.paragraph + Range(i, k) == s.paragraph;
    } else {
      PlainLine(out, lines, s, i);
      PlainRun(out, lines, s.(paragraph := s.paragraph + [i]), i + 1, k);
      assert s.paragraph + [i] + Range(i + 1, k) == s.paragraph + Range(i, k);
    }
  }

  lemma ItemLine(out: (State, nat) -> seq<Block>, lines: seq<Line>, s: State, i: nat)
    requires IsOutcome(out, lines) && i < |lines| && !s.inCode && s.table == [] && s.paragraph == []
    requires s.list.Some? && ItemKind(lines[i]) == s.list
    ensures out(s, i) == out(s.(blocks := Snoc(s.blocks, Item(i))), i + 1)
  {
    OneStep(out, lines, s, i, s.(blocks := Snoc(s.blocks, Item(i))));
  }

  /** Items appended to an output. */
  function WithItems(o: Output, a: nat, b: nat): Output
    decreases b - a
  {
    if a < b then WithItems(Snoc(o, Item(a)), a + 1, b) else o
  }

  lemma {:induction false} WithItemsIs(o: Output, a: nat, b: nat)
    ensures ToSeq(WithItems(o, a, b)) == ToSeq(o) + ItemsOf(a, b)
    decreases b - a
  {
    if a < b {
      WithItemsIs(Snoc(o, Item(a)), a + 1, b);
      Reassociate(ToSeq(o), [Item(a)], ItemsOf(a + 1, b));
    }
  }

  lemma {:induction false} WithItemsOpen(o: Output, a: nat, b: nat)
    requires OpenAfter(o).Some? && OpenAfter(o).value.Some?
    ensures OpenAfter(WithItems(o, a, b)) == OpenAfter(o)
    decreases b - a
  {
    if a < b { WithItemsOpen(Snoc(o, Item(a)), a + 1, b); }
  }

  /** More items of an open list. */
  lemma {:induction false} ItemRun(out: (State, nat) -> seq<Block>, lines: seq<Line>, s: State, i: nat, k: nat)
    requires IsOutcome(out, lines) && !s.inCode && s.table == [] && s.paragraph == [] && s.list.Some?
    requires i <= k <= |lines| && forall j :: i <= j < k ==> ItemKind(lines[j]) == s.list
    ensures out(s, i) == out(s.(blocks := WithItems(s.blocks, i, k)), k)
    decreases k - i
  {
    if i < k {
      ItemLine(out, lines, s, i);
      ItemRun(out, lines, s.(blocks := Snoc(s.blocks, Item(i))), i + 1, k);
    }
  }

  lemma RowsFlushed(s: State, lines: seq<Line>)
    ensures ToSeq(FlushTable(s, lines).blocks) == ToSeq(s.blocks) + RowsOut(s.table, lines)
  {
  }

  // One lemma per construct: from a settled `s` at `i` to a settled `t`.

  lemma AfterBlank(out: (State, nat) -> seq<Block>, lines: seq<Line>, s: State, i: nat) returns (t: State)
    requires IsOutcome(out, lines) && i < |lines| && lines[i].Blank? && Settled(s) && Nested(s)
    ensures Settled(t) && Nested(t) && t.table == [] && out(s, i) == out(t, i + 1)
    ensures ToSeq(t.blocks) == ToSeq(s.blocks) + RowsOut(s.table, lines)
  {
    t := FlushTable(s, lines);
    RowsFlushed(s, lines);
    BlankNested(s, lines);
    OneStep(out, lines, s, i, t);
  }

  lemma AfterRowLine(out: (State, nat) -> seq<Block>, lines: seq<Line>, s: State, i: nat) returns (t: State)
    requires IsOutcome(out, lines) && i < |lines| && lines[i].TableRow? && Settled(s) && Nested(s)
    ensures Settled(t) && Nested(t) && t.table == s.table + [i] && t.blocks == s.blocks && out(s, i) == out(t, i + 1)
  {
    t := s.(table := s.table + [i]);
    RowNested(s, i);
    OneStep(out, lines, s, i, t);
  }

  lemma AfterHeading(out: (State, nat) -> seq<Block>, lines: seq<Line>, s: State, i: nat) returns (t: State)
    requires IsOutcome(out, lines) && i < |lines| && lines[i].Heading? && Settled(s) && Nested(s)
    ensures Settled(t) && Nested(t) && t.table == [] && out(s, i) == out(t, i + 1)
    ensures ToSeq(t.blocks) == ToSeq(s.blocks) + (RowsOut(s.table, lines) + [Head(i)])
  {
    var f := FlushTable(s, lines);
    t := f.(blocks := Snoc(f.blocks, Head(i)));
    RowsFlushed(s, lines);
    HeadingNested(s, lines, i);
    OneStep(out, lines, s, i, t);
  }

  lemma FirstPlain(out: (State, nat) -> seq<Block>, lines: seq<Line>, s: State, i: nat) returns (t: State)
    requires IsOutcome(out, lines) && i < |lines| && lines[i].Plain? && Settled(s) && Nested(s)
    ensures t == FlushTable(s, lines).(paragraph := [i]) && Nested(t) && out(s, i) == out(t, i + 1)
  {
    t := FlushTable(s, lines).(paragraph := [i]);
    PlainNested(s, lines, i);
    OneStep(out, lines, s, i, t);
  }

  /** A run of plain lines up to `k`. */
  lemma AfterPlain(out: (State, nat) -> seq<Block>, lines: seq<Line>, s: State, i: nat, k: nat) returns (t: State)
    requires IsOutcome(out, lines) && i < k <= |lines| && Settled(s) && Nested(s)
    requires (forall j :: i <= j < k ==> lines[j].Plain?) && (k < |lines| ==> !lines[k].Plain?)
    ensures Settled(t) && Nested(t) && t.table == [] && out(s, i) == out(t, k)
    ensures ToSeq(t.blocks) == ToSeq(s.blocks) + (RowsOut(s.table, lines) + [Paragraph(Range(i, k))])
  {
    var a := FirstPlain(out, lines, s, i);
    PlainRun(out, lines, a, i + 1, k);
    assert [i] + Range(i + 1, k) == Range(i, k);
    var b := a.(paragraph := Range(i, k));
    t := b.(blocks := Snoc(b.blocks, Paragraph(Range(i, k))), paragraph := []);
    SettledOutcome(out, lines, b, t, k);
    RowsFlushed(s, lines);
  }

  lemma FirstItem(out: (State, nat) -> seq<Block>, lines: seq<Line>, s: State, i: nat, kind: ListKind)
    returns (t: State)
    requires IsOutcome(out, lines) && i < |lines| && ItemKind(lines[i]) == Some(kind) && Settled(s) && Nested(s)
    ensures var f := FlushTable(s, lines);
            t == f.(blocks := Snoc(Snoc(f.blocks, ListStart(kind)), Item(i)), list := Some(kind))
    ensures Nested(t) && out(s, i) == out(t, i + 1)
  {
    var f := FlushTable(s, lines);
    t := f.(blocks := Snoc(Snoc(f.blocks, ListStart(kind)), Item(i)), list := Some(kind));
    ItemNested(s, lines, i, kind);
    OneStep(out, lines, s, i, t);
  }

  /** Closing a list with all its items. */
  lemma ClosedItems(before: Output, kind: ListKind, i: nat, k: nat)
    requires OpenAfter(before) == Some(None)
    ensures var o := WithItems(Snoc(before, ListStart(kind)), i, k);
            && OpenAfter(o) == Some(Some(kind)) && OpenAfter(Snoc(o, ListEnd(kind))) == Some(None)
            && ToSeq(Snoc(o, ListEnd(kind)))
               == ToSeq(before) + ([ListStart(kind)] + ItemsOf(i, k) + [ListEnd(kind)])
  {
    var started := Snoc(before, ListStart(kind));
    WithItemsIs(started, i, k);
    WithItemsOpen(started, i, k);
    ListText(ToSeq(before), [ListStart(kind)], ItemsOf(i, k), [ListEnd(kind)]);
    assert ToSeq(started) == ToSeq(before) + [ListStart(kind)];
  }

  lemma ListText(a: seq<Block>, b: seq<Block>, c: seq<Block>, d: seq<Block>)
    ensures a + b + c + d == a + (b + c + d)
  {
  }

  /** The items after the first, and the end of the list. */
  lemma RestOfItems(out: (State, nat) -> seq<Block>, lines: seq<Line>, a: State, before: Output, i: nat, k: nat,
                    kind: ListKind)
    returns (t: State)
    requires IsOutcome(out, lines) && i < k <= |lines| && OpenAfter(before) == Some(None)
    requires a == State(Snoc(Snoc(before, ListStart(kind)), Item(i)), [], Some(kind), [], false, a.codeOpen, [])
    requires forall j :: i <= j < k ==> ItemKind(lines[j]) == Some(kind)
    requires k < |lines| ==> ItemKind(lines[k]) != Some(kind)
    ensures Settled(t) && Nested(t) && t.table == [] && out(a, i + 1) == out(t, k)
    ensures ToSeq(t.blocks) == ToSeq(before) + ([ListStart(kind)] + ItemsOf(i, k) + [ListEnd(kind)])
  {
    ItemRun(out, lines, a, i + 1, k);
    var b := a.(blocks := WithItems(Snoc(before, ListStart(kind)), i, k));
    ClosedItems(before, kind, i, k);
    t := b.(blocks := Snoc(b.blocks, ListEnd(kind)), list := None);
    SettledOutcome(out, lines, b, t, k);
  }

  /** A run of items of one kind up to `k`. */
  lemma AfterItems(out: (State, nat) -> seq<Block>, lines: seq<Line>, s: State, i: nat, k: nat, kind: ListKind)
    returns (t: State)
    requires IsOutcome(out, lines) && i < k <= |lines| && Settled(s) && Nested(s)
    requires forall j :: i <= j < k ==> ItemKind(lines[j]) == Some(kind)
    requires k < |lines| ==> ItemKind(lines[k]) != Some(kind)
    ensures Settled(t) && Nested(t) && t.table == [] && out(s, i) == out(t, k)
    ensures ToSeq(t.blocks)
            == ToSeq(s.blocks) + (RowsOut(s.table, lines) + ([ListStart(kind)] + ItemsOf(i, k) + [ListEnd(kind)]))
  {
    var a := FirstItem(out, lines, s, i, kind);
    var before := FlushTable(s, lines).blocks;
    t := RestOfItems(out, lines, a, before, i, k, kind);
    RowsFlushed(s, lines);
    Reassociate(ToSeq(s.blocks), RowsOut(s.table, lines), [ListStart(kind)] + ItemsOf(i, k) + [ListEnd(kind)]);
  }

  lemma FirstFence(out: (State, nat) -> seq<Block>, lines: seq<Line>, s: State, i: nat) returns (t: State)
    requires IsOutcome(out, lines) && i < |lines| && lines[i].Fence? && Settled(s) && Nested(s)
    ensures t == s.(inCode := true, codeOpen := i) && Nested(t) && out(s, i) == out(t, i + 1)
  {
    t := s.(inCode := true, codeOpen := i);
    FenceNested(s, i);
    OneStep(out, lines, s, i, t);
  }

  lemma LastFence(out: (State, nat) -> seq<Block>, lines: seq<Line>, s: State, k: nat) returns (t: State)
    requires IsOutcome(out, lines) && k < |lines| && lines[k].Fence? && s.inCode && Nested(s)
    ensures t == s.(blocks := Snoc(s.blocks, Code(s.codeOpen, s.code)), code := [], inCode := false)
    ensures Nested(t) && out(s, k) == out(t, k + 1)
  {
    t := s.(blocks := Snoc(s.blocks, Code(s.codeOpen, s.code)), code := [], inCode := false);
    FenceNested(s, k);
    OneStep(out, lines, s, k, t);
  }

  /** Code from the fence at `i` to the one at `k`. */
  lemma AfterCode(out: (State, nat) -> seq<Block>, lines: seq<Line>, s: State, i: nat, k: nat) returns (t: State)
    requires IsOutcome(out, lines) && i < k < |lines| && Settled(s) && Nested(s)
    requires lines[i].Fence? && lines[k].Fence? && forall j :: i < j < k ==> !lines[j].Fence?
    ensures Settled(t) && Nested(t) && t.table == s.table && out(s, i) == out(t, k + 1)
    ensures ToSeq(t.blocks) == ToSeq(s.blocks) + [Code(i, Range(i + 1, k))]
  {
    var a := FirstFence(out, lines, s, i);
    CodeRun(out, lines, a, i + 1, k);
    assert a.code + Range(i + 1, k) == Range(i + 1, k);
    t := LastFence(out, lines, a.(code := Range(i + 1, k)), k);
  }

  /** Code that is never closed. */
  lemma OpenCode(out: (State, nat) -> seq<Block>, lines: seq<Line>, s: State, i: nat)
    requires IsOutcome(out, lines) && i < |lines| && Settled(s) && Nested(s)
    requires lines[i].Fence? && forall j :: i < j < |lines| ==> !lines[j].Fence?
    ensures out(s, i) == ToSeq(s.blocks) + (RowsOut(s.table, lines) + [Code(i, Range(i + 1, |lines|))])
  {
    var k := |lines|;
    var a := FirstFence(out, lines, s, i);
    CodeRun(out, lines, a, i + 1, k);
    assert a.code + Range(i + 1, k) == Range(i + 1, k);
    var b := a.(code := Range(i + 1, k));
    AtEnd(out, lines, b);
    RowsFlushed(b, lines);
  }

  /** The grammar one construct at a time, and where it goes on. */
  ghost predicate Construct(lines: seq<Line>, i: nat, rows: seq<nat>, made: seq<Block>, k: nat, left: seq<nat>)
    requires i <= |lines|
  {
    i < k <= |lines| && Document(lines, i, rows) == made + Document(lines, k, left)
  }

  /** One construct of a settled state, unless it is the last one. */
  lemma NextConstruct(out: (State, nat) -> seq<Block>, lines: seq<Line>, s: State, i: nat)
    returns (t: State, k: nat, made: seq<Block>)
    requires IsOutcome(out, lines) && i < |lines| && Settled(s) && Nested(s)
    requires lines[i].Fence? ==> NextFence(lines, i + 1) < |lines|
    ensures Construct(lines, i, s.table, made, k, t.table) && Settled(t) && Nested(t)
    ensures out(s, i) == out(t, k) && ToSeq(t.blocks) == ToSeq(s.blocks) + made
  {
    k, made := i + 1, RowsOut(s.table, lines);
    match lines[i]
    case Blank => t := AfterBlank(out, lines, s, i);
    case TableRow(_) =>
      t := AfterRowLine(out, lines, s, i);
      made := [];
    case Heading =>
      t := AfterHeading(out, lines, s, i);
      made := made + [Head(i)];
    case Plain =>
      k := PlainEnd(lines, i + 1);
      t := AfterPlain(out, lines, s, i, k);
      made := made + [Paragraph(Range(i, k))];
    case Fence =>
      k := NextFence(lines, i + 1);
      t := AfterCode(out, lines, s, i, k);
      made, k := [Code(i, Range(i + 1, k))], k + 1;
    case _ =>
      var kind := ItemKind(lines[i]).value;
      k := ItemsEnd(lines, i + 1, kind);
      t := AfterItems(out, lines, s, i, k, kind);
      made := made + ([ListStart(kind)] + ItemsOf(i, k) + [ListEnd(kind)]);
  }

  lemma LastConstruct(out: (State, nat) -> seq<Block>, lines: seq<Line>, s: State, i: nat)
    requires IsOutcome(out, lines) && i <= |lines| && Settled(s) && Nested(s)
    requires i == |lines| || (lines[i].Fence? && NextFence(lines, i + 1) == |lines|)
    ensures out(s, i) == ToSeq(s.blocks) + Document(lines, i, s.table)
  {
    if i == |lines| {
      AtEnd(out, lines, s);
      RowsFlushed(s, lines);
    } else {
      OpenCode(out, lines, s, i);
    }
  }

  /** The state machine renders what the grammar says, from any settled state. */
  lemma {:induction false} RendersGrammar(out: (State, nat) -> seq<Block>, lines: seq<Line>, s: State, i: nat)
    requires IsOutcome(out, lines) && i <= |lines| && Settled(s) && Nested(s)
    ensures out(s, i) == ToSeq(s.blocks) + Document(lines, i, s.table)
    decreases |lines| - i
  {
    if i == |lines| || (lines[i].Fence? && NextFence(lines, i + 1) == |lines|) {
      LastConstruct(out, lines, s, i);
    } else {
      var t, k, made := NextConstruct(out, lines, s, i);
      RendersGrammar(out, lines, t, k);
      Reassociate(ToSeq(s.blocks), made, Document(lines, k, t.table));
    }
  }

  lemma Reassociate(a: seq<Block>, b: seq<Block>, c: seq<Block>)
    ensures a + b + c == a + (b + c)
  {
  }

  function Outcome(lines: seq<Line>, s: State, i: nat): seq<Block>
  {
    if i > |lines| then [] else ToSeq(Finish(RunFrom(s, lines, i), lines).blocks)
  }

  lemma OutcomeOf(lines: seq<Line>) returns (out: (State, nat) -> seq<Block>)
    ensures IsOutcome(out, lines) && forall s: State, i: nat :: out(s, i) == Outcome(lines, s, i)
  {
    out := (s: State, i: nat) => Outcome(lines, s, i);
  }

  lemma {:induction false} RunFromRun(lines: seq<Line>, i: nat)
    requires i <= |lines|
    ensures RunFrom(Run(lines, i), lines, i) == RunFrom(Start, lines, 0)
  {
    if i > 0 { RunFromRun(lines, i - 1); }
  }

  /** For every text, the renderer's output is the document read one construct at a time. */
  lemma RenderedIsDocument(lines: seq<Line>)
    ensures ToSeq(Rendered(lines)) == Document(lines, 0, [])
  {
    var out := OutcomeOf(lines);
    RendersGrammar(out, lines, Start, 0);
    RunFromRun(lines, |lines|);
    assert out(Start, 0) == Outcome(lines, Start, 0) == ToSeq(Rendered(lines));
  }

  /** What a reader sees of single lines: headings, items with the kind of their list, and
      code blocks with the lines they hold. */
  datatype Fact = HeadAt(line: nat) | ItemAt(line: nat, kind: ListKind) | CodeAt(line: nat, code: seq<nat>)

  function OpenIn(bs: seq<Block>, open: Option<ListKind>): Option<ListKind>
  {
    if bs == [] then open else
    OpenIn(bs[1..], if bs[0].ListStart? then Some(bs[0].kind) else if bs[0].ListEnd? then None else open)
  }

  function FactsIn(bs: seq<Block>, open: Option<ListKind>): set<Fact>
  {
    if bs == [] then {} else
    (match bs[0]
     case Head(i) => {HeadAt(i)}
     case Code(i, ls) => {CodeAt(i, ls)}
     case Item(i) => if open.Some? then {ItemAt(i, open.value)} else {}
     case _ => {})
    + FactsIn(bs[1..], OpenIn(bs[..1], open))
  }

  lemma OpenOfOne(bs: seq<Block>, open: Option<ListKind>)
    requires bs != []
    ensures OpenIn(bs, open) == OpenIn(bs[1..], OpenIn(bs[..1], open))
  {
    assert bs[..1][1..] == [];
  }

  lemma {:induction false} FactsConcat(a: seq<Block>, b: seq<Block>, open: Option<ListKind>)
    ensures FactsIn(a + b, open) == FactsIn(a, open) + FactsIn(b, OpenIn(a, open))
    ensures OpenIn(a + b, open) == OpenIn(b, OpenIn(a, open))
  {
    if a == [] {
      assert a + b == b;
    } else {
      var next := OpenIn(a[..1], open);
      FactsConcat(a[1..], b, next);
      assert (a + b)[0] == a[0] && (a + b)[1..] == a[1..] + b && (a + b)[..1] == a[..1];
      OpenOfOne(a, open);
      OpenOfOne(a + b, open);
    }
  }

  lemma FactsOfItem(a: nat, kind: ListKind)
    ensures FactsIn([Item(a)], Some(kind)) == {ItemAt(a, kind)} && OpenIn([Item(a)], Some(kind)) == Some(kind)
  {
    assert [Item(a)][1..] == [];
  }

  lemma {:induction false} FactsOfItems(a: nat, b: nat, kind: ListKind, fact: Fact)
    ensures fact in FactsIn(ItemsOf(a, b), Some(kind)) <==> fact.ItemAt? && fact.kind == kind && a <= fact.line < b
    ensures OpenIn(ItemsOf(a, b), Some(kind)) == Some(kind)
    decreases b - a
  {
    if a < b {
      FactsOfItems(a + 1, b, kind, fact);
      FactsConcat([Item(a)], ItemsOf(a + 1, b), Some(kind));
      FactsOfItem(a, kind);
    }
  }

  lemma FactsOfList(a: nat, b: nat, kind: ListKind, fact: Fact)
    ensures var bs := [ListStart(kind)] + ItemsOf(a, b) + [ListEnd(kind)];
            && (fact in FactsIn(bs, None) <==> fact.ItemAt? && fact.kind == kind && a <= fact.line < b)
            && OpenIn(bs, None) == None
  {
    FactsConcat([ListStart(kind)] + ItemsOf(a, b), [ListEnd(kind)], None);
    FactsConcat([ListStart(kind)], ItemsOf(a, b), None);
    FactsOfItems(a, b, kind, fact);
    assert [ListStart(kind)][1..] == [] && [ListEnd(kind)][1..] == [];
  }

  lemma FactsOfRows(rows: seq<nat>, lines: seq<Line>)
    ensures FactsIn(RowsOut(rows, lines), None) == {} && OpenIn(RowsOut(rows, lines), None) == None
  {
  }

  lemma FactsOfOne(b: Block)
    requires b.Head? || b.Code? || b.Paragraph?
    ensures FactsIn([b], None) == (match b case Head(i) => {HeadAt(i)} case Code(i, ls) => {CodeAt(i, ls)} case _ => {})
    ensures OpenIn([b], None) == None
  {
    assert [b][1..] == [];
  }

  /** What the text says about a line outside code. */
  ghost predicate Says(lines: seq<Line>, fact: Fact)
  {
    && fact.line < |lines| && !InCode(lines, fact.line)
    && match fact
       case HeadAt(j) => lines[j].Heading?
       case ItemAt(j, kind) => ItemKind(lines[j]) == Some(kind)
       case CodeAt(j, ls) => lines[j].Fence? && ls == Range(j + 1, NextFence(lines, j + 1))
  }

  lemma {:induction false} OutsideRun(lines: seq<Line>, i: nat, k: nat)
    requires i <= k <= |lines| && forall j :: i <= j < k ==> !lines[j].Fence?
    ensures InCode(lines, k) == InCode(lines, i)
    decreases k - i
  {
    if i < k { OutsideRun(lines, i, k - 1); }
  }

  /** Between two constructs, the facts are those of the one construct. */
  ghost predicate FactsBetween(lines: seq<Line>, made: seq<Block>, i: nat, k: nat, fact: Fact)
  {
    && (fact in FactsIn(made, None) <==> i <= fact.line < k && Says(lines, fact))
    && OpenIn(made, None) == None
  }

  lemma FactsAfter(lines: seq<Line>, made: seq<Block>, rest: seq<Block>, i: nat, k: nat, fact: Fact)
    requires i <= k && FactsBetween(lines, made, i, k, fact)
    requires fact in FactsIn(rest, None) <==> k <= fact.line && Says(lines, fact)
    ensures fact in FactsIn(made + rest, None) <==> i <= fact.line && Says(lines, fact)
  {
    FactsConcat(made, rest, None);
  }

  /** The facts of the construct at `i`, when rows come out before it. */
  lemma FactsOfConstruct(lines: seq<Line>, rows: seq<nat>, own: seq<Block>, i: nat, k: nat, fact: Fact)
    requires FactsBetween(lines, own, i, k, fact)
    ensures FactsBetween(lines, RowsOut(rows, lines) + own, i, k, fact)
  {
    FactsOfRows(rows, lines);
    FactsConcat(RowsOut(rows, lines), own, None);
  }

  lemma FactsOfLine(lines: seq<Line>, i: nat, fact: Fact)
    requires i < |lines| && !InCode(lines, i)
    ensures lines[i].Blank? || lines[i].TableRow? ==> FactsBetween(lines, [], i, i + 1, fact)
    ensures lines[i].Heading? ==> FactsBetween(lines, [Head(i)], i, i + 1, fact)
  {
    FactsOfOne(Head(i));
  }

  lemma FactsOfPlain(lines: seq<Line>, i: nat, k: nat, fact: Fact)
    requires i < k <= |lines| && !InCode(lines, i) && forall j :: i <= j < k ==> lines[j].Plain?
    ensures FactsBetween(lines, [Paragraph(Range(i, k))], i, k, fact)
  {
    FactsOfOne(Paragraph(Range(i, k)));
  }

  lemma FactsOfItemRun(lines: seq<Line>, i: nat, k: nat, kind: ListKind, fact: Fact)
    requires i < k <= |lines| && !InCode(lines, i) && forall j :: i <= j < k ==> ItemKind(lines[j]) == Some(kind)
    ensures FactsBetween(lines, [ListStart(kind)] + ItemsOf(i, k) + [ListEnd(kind)], i, k, fact)
  {
    FactsOfList(i, k, kind, fact);
    if i <= fact.line < k { OutsideRun(lines, i, fact.line); }
  }

  /** Inside code nothing is said, up to the line after `end`. */
  lemma FactsOfCode(lines: seq<Line>, i: nat, k: nat, end: nat, fact: Fact)
    requires i < |lines| && lines[i].Fence? && !InCode(lines, i) && k == NextFence(lines, i + 1)
    requires end == if k < |lines| then k + 1 else k
    ensures FactsBetween(lines, [Code(i, Range(i + 1, k))], i, end, fact)
  {
    FactsOfOne(Code(i, Range(i + 1, k)));
    if i < fact.line < end {
      assert InCode(lines, i + 1);
      OutsideRun(lines, i + 1, fact.line);
    }
  }

  /** Every heading, item and code block of the text is in the document, with its kind and its
      lines, and nothing else of the sort is. */
  lemma {:induction false} DocumentFacts(lines: seq<Line>, i: nat, rows: seq<nat>, fact: Fact)
    requires i <= |lines| && !InCode(lines, i)
    ensures fact in FactsIn(Document(lines, i, rows), None) <==> i <= fact.line && Says(lines, fact)
    decreases |lines| - i
  {
    if i == |lines| {
      FactsOfRows(rows, lines);
      return;
    }
    var k, own := i + 1, [];
    match lines[i] {
      case Heading =>
        own := [Head(i)];
        FactsOfLine(lines, i, fact);
      case Plain =>
        k := PlainEnd(lines, i + 1);
        own := [Paragraph(Range(i, k))];
        FactsOfPlain(lines, i, k, fact);
      case Fence =>
        CodeFacts(lines, i, rows, fact);
        return;
      case Bullet =>
        k := ItemsEnd(lines, i + 1, Unordered);
        own := [ListStart(Unordered)] + ItemsOf(i, k) + [ListEnd(Unordered)];
        FactsOfItemRun(lines, i, k, Unordered, fact);
      case Numbered =>
        k := ItemsEnd(lines, i + 1, Ordered);
        own := [ListStart(Ordered)] + ItemsOf(i, k) + [ListEnd(Ordered)];
        FactsOfItemRun(lines, i, k, Ordered, fact);
      case _ => FactsOfLine(lines, i, fact);
    }
    OutsideRun(lines, i, k);
    if lines[i].TableRow? {
      DocumentFacts(lines, k, rows + [i], fact);
    } else {
      DocumentFacts(lines, k, [], fact);
      FactsOfConstruct(lines, rows, own, i, k, fact);
      FactsAfter(lines, RowsOut(rows, lines) + own, Document(lines, k, []), i, k, fact);
      assert RowsOut(rows, lines) + [] == RowsOut(rows, lines);
      assert Document(lines, i, rows) == RowsOut(rows, lines) + own + Document(lines, k, []);
    }
  }

  lemma CodeFacts(lines: seq<Line>, i: nat, rows: seq<nat>, fact: Fact)
    requires i < |lines| && lines[i].Fence? && !InCode(lines, i)
    ensures fact in FactsIn(Document(lines, i, rows), None) <==> i <= fact.line && Says(lines, fact)
    decreases |lines| - i, 0
  {
    var k := NextFence(lines, i + 1);
    var own := [Code(i, Range(i + 1, k))];
    if k == |lines| {
      FactsOfCode(lines, i, k, k, fact);
      FactsOfConstruct(lines, rows, own, i, k, fact);
    } else {
      FactsOfCode(lines, i, k, k + 1, fact);
      assert InCode(lines, i + 1);
      OutsideRun(lines, i + 1, k);
      DocumentFacts(lines, k + 1, rows, fact);
      FactsAfter(lines, own, Document(lines, k + 1, rows), i, k + 1, fact);
    }
  }

  /** For every text: a heading outside code and nothing else becomes a heading, a bullet an
      item of an unordered list, a numbered line an item of an ordered one, and every code
      block holds exactly the lines between its fences. */
  lemma RendersKinds(lines: seq<Line>, fact: Fact)
    ensures fact in FactsIn(ToSeq(Rendered(lines)), None) <==> Says(lines, fact)
  {
    RenderedIsDocument(lines);
    DocumentFacts(lines, 0, [], fact);
  }

  // -------------------------------------------------------------------- the renderer

  function ToSeq(o: Output): seq<Block> { if o.Nothing? then [] else ToSeq(o.init) + [o.last] }

  /** `render_markdown` with its local variables and its flushing helpers. */
  class Renderer {
    var blocks: seq<Block>
    var paragraph: seq<nat>
    var list: Option<ListKind>
    var table: seq<nat>
    var inCode: bool
    var codeOpen: nat
    var code: seq<nat>
    ghost var output: Output

    ghost predicate Valid() reads this { blocks == ToSeq(output) }

    ghost function Model(): State reads this { State(output, paragraph, list, table, inCode, codeOpen, code) }

    constructor ()
      ensures Valid() && Model() == Start
    {
      blocks, paragraph, list, table, inCode, codeOpen, code := [], [], None, [], false, 0, [];
      output := Nothing;
    }

    method Append(b: Block)
      requires Valid()
      modifies this`blocks, this`output
      ensures Valid() && Model() == old(Model()).(blocks := Snoc(old(output), b))
    {
      blocks, output := blocks + [b], Snoc(output, b);
    }

    method DoFlushParagraph()
      requires Valid()
      modifies this
      ensures Valid() && Model() == FlushParagraph(old(Model()))
    {
      if paragraph != [] {
        Append(Paragraph(paragraph));
        paragraph := [];
      }
    }

    method DoCloseList()
      requires Valid()
      modifies this
      ensures Valid() && Model() == CloseList(old(Model()))
    {
      if list.Some? {
        Append(ListEnd(list.value));
        list := None;
      }
    }

    method DoFlushTable(lines: seq<Line>)
      requires Valid()
      modifies this
      ensures Valid() && Model() == FlushTable(old(Model()), lines)
    {
      if table == [] { return; }
      var rows := table;
      table := [];
      Append(if IsTable(rows, lines) then Table(rows) else Paragraph(rows));
    }

    method DoFence(i: nat)
      requires Valid()
      modifies this
      ensures Valid() && Model() == OnFence(old(Model()), i)
    {
      if inCode {
        Append(Code(codeOpen, code));
        code, inCode := [], false;
      } else {
        DoFlushParagraph();
        DoCloseList();
        codeOpen, inCode := i, true;
      }
    }

    method DoItem(lines: seq<Line>, i: nat, wanted: ListKind)
      requires Valid()
      modifies this
      ensures Valid() && Model() == OnItem(old(Model()), lines, i, wanted)
    {
      DoFlushTable(lines);
      DoFlushParagraph();
      if list != Some(wanted) {
        DoCloseList();
        Append(ListStart(wanted));
        list := Some(wanted);
      }
      Append(Item(i));
    }

    method DoLine(lines: seq<Line>, i: nat)
      requires Valid() && i < |lines|
      modifies this
      ensures Valid() && Model() == Step(old(Model()), lines, i)
    {
      if lines[i].Fence? {
        DoFence(i);
      } else if inCode {
        code := code + [i];
      } else {
        match lines[i]
        case Blank =>
          DoFlushParagraph();
          DoCloseList();
          DoFlushTable(lines);
        case TableRow(_) =>
          DoFlushParagraph();
          DoCloseList();
          table := table + [i];
        case Heading =>
          DoFlushTable(lines);
          DoFlushParagraph();
          DoCloseList();
          Append(Head(i));
        case Bullet => DoItem(lines, i, Unordered);
        case Numbered => DoItem(lines, i, Ordered);
        case Plain =>
          DoFlushTable(lines);
          DoCloseList();
          paragraph := paragraph + [i];
      }
    }

    /** The whole document. */
    method Render(lines: seq<Line>)
      requires Valid() && Model() == Start
      modifies this
      ensures blocks == ToSeq(Rendered(lines))
    {
      for i := 0 to |lines|
        invariant Valid() && Model() == Run(lines, i)
      {
        DoLine(lines, i);
      }
      DoFlushParagraph();
      DoCloseList();
      DoFlushTable(lines);
      if inCode { Append(Code(codeOpen, code)); }
    }
  }
}
