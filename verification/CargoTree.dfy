/**
 The dependency-tree reader of the image inventory: a stack machine that rebuilds
 the selected packages, their features and their dependency edges from a
 depth-prefixed preorder listing.
 */
module CargoTree {

  type Id = string
  type Feature = string

  datatype Option<T> = None | Some(value: T)

  // ------------------------------------------------------------------------ input

  /** One package of `cargo metadata`. */
  datatype Package = Package(id: Id, name: string, version: string)

  /** One line of the listing, already matched against the line pattern. */
  datatype TreeLine =
    | Blank
    | Unrecognized
    | Listed(depth: nat, name: string, version: string, features: set<Feature>)

  /** A line whose package identity is known. */
  datatype Entry = Entry(depth: nat, id: Id, features: set<Feature>)

  function Candidates(packages: seq<Package>, name: string, version: string): seq<Id>
  {
    if packages == [] then []
    else (if packages[0].name == name && packages[0].version == version then [packages[0].id] else [])
         + Candidates(packages[1..], name, version)
  }

  /** Package `k` is the only one of this name and version. */
  ghost predicate OnlyMatch(packages: seq<Package>, k: nat, name: string, version: string)
  {
    && k < |packages| && packages[k].name == name && packages[k].version == version
    && forall j :: 0 <= j < |packages| && packages[j].name == name && packages[j].version == version ==> j == k
  }

  lemma {:induction false} NoCandidates(packages: seq<Package>, name: string, version: string)
    ensures Candidates(packages, name, version) == []
            <==> forall j :: 0 <= j < |packages| ==> packages[j].name != name || packages[j].version != version
  {
    if packages != [] {
      NoCandidates(packages[1..], name, version);
      assert forall j :: 1 <= j < |packages| ==> packages[j] == packages[1..][j - 1];
    }
  }

  /** A line stands for package `k` if and only if no other package has its name and version;
      other versions of the same crate do not make it ambiguous. */
  lemma {:induction false} IdentifiedIff(packages: seq<Package>, name: string, version: string)
    ensures |Candidates(packages, name, version)| == 1 <==> exists k: nat :: OnlyMatch(packages, k, name, version)
    ensures forall k: nat :: OnlyMatch(packages, k, name, version) ==>
              Candidates(packages, name, version) == [packages[k].id]
  {
    if packages != [] {
      var rest := packages[1..];
      IdentifiedIff(rest, name, version);
      NoCandidates(rest, name, version);
      assert forall j :: 1 <= j < |packages| ==> packages[j] == rest[j - 1];
      if packages[0].name == name && packages[0].version == version {
        if Candidates(rest, name, version) == [] { assert OnlyMatch(packages, 0, name, version); }
      } else {
        forall k: nat
          ensures OnlyMatch(packages, k + 1, name, version) <==> OnlyMatch(rest, k, name, version)
        {
          MatchInRest(packages, k, name, version);
        }
        if k: nat :| OnlyMatch(rest, k, name, version) { assert OnlyMatch(packages, k + 1, name, version); }
        if k: nat :| OnlyMatch(packages, k, name, version) { assert OnlyMatch(rest, k - 1, name, version); }
      }
    }
  }

  lemma MatchInRest(packages: seq<Package>, k: nat, name: string, version: string)
    requires packages != [] && (packages[0].name != name || packages[0].version != version)
    ensures OnlyMatch(packages, k + 1, name, version) <==> OnlyMatch(packages[1..], k, name, version)
  {
    var rest := packages[1..];
    assert forall j :: 1 <= j < |packages| ==> packages[j] == rest[j - 1];
    if OnlyMatch(packages, k + 1, name, version) {
      forall j | 0 <= j < |rest| && rest[j].name == name && rest[j].version == version
        ensures j == k
      {
        assert packages[j + 1] == rest[j];
      }
    }
  }

  /** The entries a listing stands for, when every line can be identified. */
  function Entries(lines: seq<TreeLine>, packages: seq<Package>): Option<seq<Entry>>
  {
    if lines == [] then Some([]) else
    match lines[0]
    case Unrecognized => None
    case Blank => Entries(lines[1..], packages)
    case Listed(depth, name, version, features) =>
      var ids, rest := Candidates(packages, name, version), Entries(lines[1..], packages);
      if |ids| != 1 || rest.None? then None else Some([Entry(depth, ids[0], features)] + rest.value)
  }

  // ------------------------------------------------- what a run of entries builds

  datatype Built = Built(ids: set<Id>, features: set<(Id, Feature)>, edges: set<(Id, Id)>, stack: seq<Id>)

  const Start := Built({}, {}, {}, [])

  /** The (package, feature) pairs of one entry. */
  function Tagged(id: Id, features: set<Feature>): set<(Id, Feature)> { set x | x in features :: (id, x) }

  function Step(b: Built, e: Entry): Option<Built>
  {
    if e.depth > |b.stack| then None
    else
      var path := b.stack[..e.depth];
      Some(Built(b.ids + {e.id}, b.features + Tagged(e.id, e.features),
                 b.edges + (if path == [] then {} else {(path[|path| - 1], e.id)}), path + [e.id]))
  }

  function Run(b: Built, es: seq<Entry>): Option<Built>
    decreases |es|
  {
    if es == [] then Some(b) else
    var next := Step(b, es[0]);
    if next.None? then None else Run(next.value, es[1..])
  }

  lemma {:induction false} RunAppend(b: Built, xs: seq<Entry>, ys: seq<Entry>)
    ensures var mid := Run(b, xs);
            Run(b, xs + ys) == if mid.None? then None else Run(mid.value, ys)
    decreases |xs|
  {
    if xs == [] {
      assert xs + ys == ys;
    } else {
      assert (xs + ys)[1..] == xs[1..] + ys;
      var next := Step(b, xs[0]);
      if next.Some? { RunAppend(next.value, xs[1..], ys); }
    }
  }

  // ------------------------------------------------------------------- the parser

  datatype Error = UnrecognizedLine | AmbiguousPackage | InvalidDepth | EmptyGraph

  datatype Parsed = Ok(selected: map<Id, set<Feature>>, edges: map<Id, set<Id>>) | Err(error: Error)

  ghost function FeaturePairs(selected: map<Id, set<Feature>>): set<(Id, Feature)>
  {
    set u, x | u in selected && x in selected[u] :: (u, x)
  }

  ghost function EdgePairs(edges: map<Id, set<Id>>): set<(Id, Id)>
  {
    set u, v | u in edges && v in edges[u] :: (u, v)
  }

  /** `selected.setdefault(id, set()).update(features)`. */
  function WithFeatures(selected: map<Id, set<Feature>>, id: Id, features: set<Feature>): map<Id, set<Feature>>
  {
    selected[id := (if id in selected then selected[id] else {}) + features]
  }

  /** `edges.setdefault(path[-1], set()).add(id)`, for a nonempty path. */
  function WithEdge(edges: map<Id, set<Id>>, path: seq<Id>, id: Id): map<Id, set<Id>>
  {
    if path == [] then edges else
    var top := path[|path| - 1];
    edges[top := (if top in edges then edges[top] else {}) + {id}]
  }

  ghost function Abs(selected: map<Id, set<Feature>>, edges: map<Id, set<Id>>, stack: seq<Id>): Built
  {
    Built(selected.Keys, FeaturePairs(selected), EdgePairs(edges), stack)
  }

  lemma StepMatches(selected: map<Id, set<Feature>>, edges: map<Id, set<Id>>, stack: seq<Id>, e: Entry)
    requires e.depth <= |stack|
    ensures var path := stack[..e.depth];
            Step(Abs(selected, edges, stack), e)
              == Some(Abs(WithFeatures(selected, e.id, e.features), WithEdge(edges, path, e.id), path + [e.id]))
  {
    var path := stack[..e.depth];
    assert WithFeatures(selected, e.id, e.features).Keys == selected.Keys + {e.id};
    assert FeaturePairs(WithFeatures(selected, e.id, e.features))
        == FeaturePairs(selected) + Tagged(e.id, e.features);
    assert EdgePairs(WithEdge(edges, path, e.id))
        == EdgePairs(edges) + (if path == [] then {} else {(path[|path| - 1], e.id)});
  }

  function After(es: seq<Entry>, rest: Option<seq<Entry>>): Option<seq<Entry>>
  {
    if rest.None? then None else Some(es + rest.value)
  }

  lemma AfterNothing(rest: Option<seq<Entry>>)
    ensures After([], rest) == rest
  {
    if rest.Some? { assert [] + rest.value == rest.value; }
  }

  lemma AfterOne(es: seq<Entry>, e: Entry, rest: Option<seq<Entry>>)
    ensures After(es, After([e], rest)) == After(es + [e], rest)
  {
    if rest.Some? { assert es + ([e] + rest.value) == es + [e] + rest.value; }
  }

  lemma RunSnoc(es: seq<Entry>, b: Built, e: Entry)
    requires Run(Start, es) == Some(b)
    ensures Run(Start, es + [e]) == Step(b, e)
  {
    RunAppend(Start, es, [e]);
    assert [e][1..] == [];
  }

  lemma DepthSkipRefuses(es: seq<Entry>, b: Built, e: Entry, rest: Option<seq<Entry>>)
    requires Run(Start, es) == Some(b) && Step(b, e).None?
    ensures rest.Some? ==> Run(Start, es + [e] + rest.value).None?
  {
    if rest.Some? {
      RunSnoc(es, b, e);
      RunAppend(Start, es + [e], rest.value);
    }
  }

  /** Every entry adds its package. */
  lemma {:induction false} RunEmpty(es: seq<Entry>)
    ensures Run(Start, es).Some? && Run(Start, es).value.ids == {} ==> es == []
    decreases |es|
  {
    if es != [] {
      var init, e := es[..|es| - 1], es[|es| - 1];
      RunAppend(Start, init, [e]);
      assert es == init + [e];
      if Run(Start, init).Some? { RunSnoc(init, Run(Start, init).value, e); }
    }
  }

  ghost predicate Accepted(lines: seq<TreeLine>, packages: seq<Package>)
  {
    var es := Entries(lines, packages);
    es.Some? && es.value != [] && Run(Start, es.value).Some?
  }

  /** `parse_tree`: succeeds exactly when every line is identified, no depth skips a
      level and some package is listed, and then returns what the entries build. */
  method ParseTree(lines: seq<TreeLine>, packages: seq<Package>) returns (r: Parsed)
    ensures r.Ok? <==> Accepted(lines, packages)
    ensures r.Ok? ==> var b := Run(Start, Entries(lines, packages).value).value;
                      r.selected.Keys == b.ids && FeaturePairs(r.selected) == b.features
                      && EdgePairs(r.edges) == b.edges
  {
    var selected: map<Id, set<Feature>>, edges: map<Id, set<Id>>, stack: seq<Id> := map[], map[], [];
    ghost var es: seq<Entry> := [];
    assert lines[0..] == lines;
    AfterNothing(Entries(lines, packages));
    assert Abs(selected, edges, stack) == Start by {
      assert selected.Keys == {} && FeaturePairs(selected) == {} && EdgePairs(edges) == {};
    }
    for i := 0 to |lines|
      invariant Entries(lines, packages) == After(es, Entries(lines[i..], packages))
      invariant Run(Start, es) == Some(Abs(selected, edges, stack))
    {
      var line := lines[i];
      assert lines[i..][0] == line && lines[i..][1..] == lines[i + 1..];
      if line.Blank? { continue; }
      if line.Unrecognized? { return Err(UnrecognizedLine); }
      var ids := Candidates(packages, line.name, line.version);
      if |ids| != 1 { return Err(AmbiguousPackage); }
      var id := ids[0];
      ghost var e, before := Entry(line.depth, id, line.features), Abs(selected, edges, stack);
      AfterOne(es, e, Entries(lines[i + 1..], packages));
      if line.depth > |stack| {
        DepthSkipRefuses(es, before, e, Entries(lines[i + 1..], packages));
        return Err(InvalidDepth);
      }
      StepMatches(selected, edges, stack, e);
      selected := WithFeatures(selected, id, line.features);
      stack := stack[..line.depth];
      edges := WithEdge(edges, stack, id);
      stack := stack + [id];
      RunSnoc(es, before, e);
      es := es + [e];
    }
    assert es + [] == es;
    if |selected| == 0 {
      RunEmpty(es);
      return Err(EmptyGraph);
    }
    r := Ok(selected, edges);
  }

  // ---------------------------------------------------------- forests and listings

  /** An ordered forest: the first tree's root, its children, and the other trees. */
  datatype Forest = Nil | Cons(id: Id, features: set<Feature>, kids: Forest, rest: Forest)

  /** Preorder, each node prefixed with its depth. */
  function Print(f: Forest, depth: nat): seq<Entry>
  {
    match f
    case Nil => []
    case Cons(id, features, kids, rest) =>
      [Entry(depth, id, features)] + Print(kids, depth + 1) + Print(rest, depth)
  }

  function Ids(f: Forest): set<Id>
  {
    match f
    case Nil => {}
    case Cons(id, _, kids, rest) => {id} + Ids(kids) + Ids(rest)
  }

  function Features(f: Forest): set<(Id, Feature)>
  {
    match f
    case Nil => {}
    case Cons(id, features, kids, rest) => Tagged(id, features) + Features(kids) + Features(rest)
  }

  /** The parent-child pairs of a forest whose roots hang below `parent`, if any. */
  function Edges(f: Forest, parent: Option<Id>): set<(Id, Id)>
  {
    match f
    case Nil => {}
    case Cons(id, _, kids, rest) =>
      (if parent.Some? then {(parent.value, id)} else {}) + Edges(kids, Some(id)) + Edges(rest, parent)
  }

  function Parent(stack: seq<Id>, depth: nat): Option<Id>
    requires depth <= |stack|
  {
    if depth == 0 then None else Some(stack[depth - 1])
  }

  /** `r` is `b` with the forest `f` read at `depth`, the path above it kept. */
  ghost predicate Extends(b: Built, r: Built, f: Forest, depth: nat)
  {
    && depth <= |b.stack| && depth <= |r.stack| && r.stack[..depth] == b.stack[..depth]
    && r.ids == b.ids + Ids(f) && r.features == b.features + Features(f)
    && r.edges == b.edges + Edges(f, Parent(b.stack, depth))
  }

  lemma ExtendsCons(b: Built, b1: Built, b2: Built, b3: Built, f: Forest, depth: nat)
    requires f.Cons? && Step(b, Entry(depth, f.id, f.features)) == Some(b1)
    requires Extends(b1, b2, f.kids, depth + 1) && Extends(b2, b3, f.rest, depth)
    ensures Extends(b, b3, f, depth)
  {
    assert b2.stack[..depth] == b2.stack[..depth + 1][..depth] == b1.stack[..depth + 1][..depth] == b.stack[..depth];
    assert Parent(b1.stack, depth + 1) == Some(f.id);
    assert Parent(b2.stack, depth) == Parent(b.stack, depth) by {
      if depth > 0 { assert b2.stack[depth - 1] == b2.stack[..depth][depth - 1] == b.stack[..depth][depth - 1]; }
    }
  }

  /** Reading a printed forest at some depth adds exactly that forest and keeps the
      path above it. */
  lemma {:induction false} RunPrinted(b: Built, f: Forest, depth: nat)
    requires depth <= |b.stack|
    ensures Run(b, Print(f, depth)).Some? && Extends(b, Run(b, Print(f, depth)).value, f, depth)
    decreases f
  {
    if f.Cons? {
      var e, below, beside := Entry(depth, f.id, f.features), Print(f.kids, depth + 1), Print(f.rest, depth);
      var b1 := Step(b, e).value;
      RunPrinted(b1, f.kids, depth + 1);
      var b2 := Run(b1, below).value;
      RunPrinted(b2, f.rest, depth);
      var b3 := Run(b2, beside).value;
      RunParts(b, e, below, beside);
      assert Print(f, depth) == [e] + (below + beside);
      ExtendsCons(b, b1, b2, b3, f, depth);
    }
  }

  lemma RunParts(b: Built, e: Entry, below: seq<Entry>, beside: seq<Entry>)
    requires Step(b, e).Some? && Run(Step(b, e).value, below).Some?
    ensures Run(b, [e] + (below + beside)) == Run(Run(Step(b, e).value, below).value, beside)
  {
    RunAppend(Step(b, e).value, below, beside);
    RunCons(b, e, below + beside);
  }

  lemma RunCons(b: Built, e: Entry, es: seq<Entry>)
    requires Step(b, e).Some?
    ensures Run(b, [e] + es) == Run(Step(b, e).value, es)
  {
    assert ([e] + es)[1..] == es;
  }

  /** The reader returns exactly the forest's packages, features and edges. */
  lemma ReadsForest(f: Forest)
    ensures var r := Run(Start, Print(f, 0));
            r.Some? && r.value.ids == Ids(f) && r.value.features == Features(f) && r.value.edges == Edges(f, None)
  {
    RunPrinted(Start, f, 0);
  }

  // ------------------------------------------------------------ which listings are read

  /** The first tree starts at depth `d` or shallower and no line skips a level. */
  predicate Stepped(es: seq<Entry>, d: nat)
    decreases |es|
  {
    es == [] || (es[0].depth <= d && Stepped(es[1..], es[0].depth + 1))
  }

  lemma {:induction false} RunIffStepped(b: Built, es: seq<Entry>)
    ensures Run(b, es).Some? <==> Stepped(es, |b.stack|)
    decreases |es|
  {
    if es != [] && es[0].depth <= |b.stack| {
      RunIffStepped(Step(b, es[0]).value, es[1..]);
    }
  }

  /** The forest at depth `d` that `es` starts with, and what follows it. */
  function Build(es: seq<Entry>, d: nat): (r: (Forest, seq<Entry>))
    requires Stepped(es, d)
    ensures |r.1| <= |es|
    ensures Stepped(r.1, d) && (r.1 == [] || r.1[0].depth < d)
    decreases |es|
  {
    if es == [] || es[0].depth < d then (Nil, es) else
    var (kids, after) := Build(es[1..], d + 1);
    StepDown(after, d);
    var (rest, left) := Build(after, d);
    (Cons(es[0].id, es[0].features, kids, rest), left)
  }

  lemma {:induction false} BuildPrints(es: seq<Entry>, d: nat)
    requires Stepped(es, d)
    ensures es == Print(Build(es, d).0, d) + Build(es, d).1
    decreases |es|
  {
    if es != [] && es[0].depth == d {
      var (kids, after) := Build(es[1..], d + 1);
      StepDown(after, d);
      var (rest, left) := Build(after, d);
      BuildPrints(es[1..], d + 1);
      BuildPrints(after, d);
      JoinUp(es, Print(kids, d + 1), after, Print(rest, d), left);
    }
  }

  lemma JoinUp(es: seq<Entry>, below: seq<Entry>, after: seq<Entry>, beside: seq<Entry>, left: seq<Entry>)
    requires es != [] && es[1..] == below + after && after == beside + left
    ensures es == [es[0]] + below + beside + left
  {
    assert es == [es[0]] + es[1..];
  }

  lemma StepDown(es: seq<Entry>, d: nat)
    requires Stepped(es, d + 1) && (es == [] || es[0].depth < d + 1)
    ensures Stepped(es, d)
  {
  }

  /** The reader gets through a listing if and only if some forest prints to it. */
  lemma RunsIffForest(es: seq<Entry>)
    ensures Run(Start, es).Some? <==> exists f: Forest :: Print(f, 0) == es
  {
    RunIffStepped(Start, es);
    if Stepped(es, 0) {
      var (f, left) := Build(es, 0);
      BuildPrints(es, 0);
      assert left == [] && Print(f, 0) == es;
    }
    if f: Forest :| Print(f, 0) == es {
      ReadsForest(f);
    }
  }

  lemma PrintedAccepted(f: Forest, lines: seq<TreeLine>, packages: seq<Package>)
    requires f.Cons? && Prints(f, lines, packages)
    ensures Accepted(lines, packages)
  {
    ReadsForest(f);
    assert Print(f, 0)[0] == Entry(0, f.id, f.features);
  }

  /** `parse_tree` accepts a listing if and only if every line is identified and some
      nonempty forest prints to it. */
  lemma AcceptsIffForest(lines: seq<TreeLine>, packages: seq<Package>)
    ensures Accepted(lines, packages) <==> exists f: Forest :: f.Cons? && Prints(f, lines, packages)
  {
    var es := Entries(lines, packages);
    if Accepted(lines, packages) {
      RunsIffForest(es.value);
      var f: Forest :| Print(f, 0) == es.value;
      assert f.Cons? && Prints(f, lines, packages);
    }
    if f: Forest :| f.Cons? && Prints(f, lines, packages) {
      PrintedAccepted(f, lines, packages);
    }
  }

  /** `lines` is a listing of the forest `f`. */
  ghost predicate Prints(f: Forest, lines: seq<TreeLine>, packages: seq<Package>)
  {
    Entries(lines, packages) == Some(Print(f, 0))
  }

  /** End to end: on every listing of a nonempty forest `parse_tree` succeeds and returns
      the forest's packages, feature unions and parent-child pairs. */
  method ReadListing(f: Forest, lines: seq<TreeLine>, packages: seq<Package>) returns (r: Parsed)
    requires f.Cons? && Prints(f, lines, packages)
    ensures r.Ok? && r.selected.Keys == Ids(f) && FeaturePairs(r.selected) == Features(f)
    ensures EdgePairs(r.edges) == Edges(f, None)
  {
    r := ParseTree(lines, packages);
    ReadsForest(f);
    PrintedAccepted(f, lines, packages);
  }

  // ---------------------------------------------------------- de-duplicated listings

  /** A package of the resolved graph. */
  datatype Node = Node(features: set<Feature>, deps: seq<Id>)

  ghost predicate Closed(g: map<Id, Node>, s: set<Id>)
  {
    forall u, v :: u in s && u in g && v in g[u].deps ==> v in s
  }

  ghost predicate WellFormed(g: map<Id, Node>) { Closed(g, g.Keys) }

  ghost predicate Among(nodes: seq<Id>, s: set<Id>) { forall i :: 0 <= i < |nodes| ==> nodes[i] in s }

  /** What `cargo tree` prints: a package already printed is repeated without its
      children. Returns the forest and the packages printed so far. */
  ghost function Dedup(g: map<Id, Node>, nodes: seq<Id>, seen: set<Id>): (r: (Forest, set<Id>))
    requires WellFormed(g) && Among(nodes, g.Keys)
    ensures seen <= r.1
    decreases |g.Keys - seen|, |nodes|
  {
    if nodes == [] then (Nil, seen) else
    var n := nodes[0];
    if n in seen then
      var (rest, seen') := Dedup(g, nodes[1..], seen);
      (Cons(n, g[n].features, Nil, rest), seen')
    else
      assert g.Keys - (seen + {n}) == (g.Keys - seen) - {n};
      var (kids, seen1) := Dedup(g, g[n].deps, seen + {n});
      FewerLeft(g.Keys, seen, seen1, n);
      var (rest, seen2) := Dedup(g, nodes[1..], seen1);
      (Cons(n, g[n].features, kids, rest), seen2)
  }

  lemma FewerLeft(all: set<Id>, seen: set<Id>, seen1: set<Id>, n: Id)
    requires n in all && n !in seen && seen + {n} <= seen1
    ensures |all - seen1| < |all - seen|
  {
    assert all - seen1 <= (all - seen) - {n};
    SubsetSize(all - seen1, (all - seen) - {n});
  }

  lemma SubsetSize(a: set<Id>, b: set<Id>)
    requires a <= b
    ensures |a| <= |b|
  {
    assert b == a + (b - a) && |b| == |a| + |b - a|;
  }

  /** All edges of the graph out of the packages in `s`. */
  ghost function GraphEdges(g: map<Id, Node>, s: set<Id>): set<(Id, Id)>
  {
    set u, v | u in s && u in g && v in g[u].deps :: (u, v)
  }

  ghost function GraphFeatures(g: map<Id, Node>, s: set<Id>): set<(Id, Feature)>
  {
    set u, x | u in s && u in g && x in g[u].features :: (u, x)
  }

  ghost function Below(parent: Option<Id>, nodes: seq<Id>): set<(Id, Id)>
  {
    if parent.None? then {} else set v | v in nodes :: (parent.value, v)
  }

  lemma {:induction false} DedupEdges(g: map<Id, Node>, nodes: seq<Id>, seen: set<Id>, parent: Option<Id>)
    requires WellFormed(g) && Among(nodes, g.Keys)
    ensures var (f, seen') := Dedup(g, nodes, seen);
            Edges(f, parent) == Below(parent, nodes) + GraphEdges(g, seen' - seen)
    decreases |g.Keys - seen|, |nodes|
  {
    if nodes != [] {
      var n, tail := nodes[0], nodes[1..];
      if n in seen {
        BelowCons(parent, nodes);
        DedupEdges(g, tail, seen, parent);
      } else {
        var (kids, seen1) := Dedup(g, g[n].deps, seen + {n});
        FewerLeft(g.Keys, seen, seen + {n}, n);
        FewerLeft(g.Keys, seen, seen1, n);
        var (rest, seen2) := Dedup(g, tail, seen1);
        DedupEdges(g, g[n].deps, seen + {n}, Some(n));
        DedupEdges(g, tail, seen1, parent);
        EdgesOfCons(g, nodes, parent, kids, rest, seen, seen1, seen2);
      }
    }
  }

  lemma EdgesOfCons(g: map<Id, Node>, nodes: seq<Id>, parent: Option<Id>, kids: Forest, rest: Forest,
                    seen: set<Id>, seen1: set<Id>, seen2: set<Id>)
    requires nodes != [] && nodes[0] in g && nodes[0] !in seen && seen + {nodes[0]} <= seen1 <= seen2
    requires Edges(kids, Some(nodes[0]))
             == Below(Some(nodes[0]), g[nodes[0]].deps) + GraphEdges(g, seen1 - (seen + {nodes[0]}))
    requires Edges(rest, parent) == Below(parent, nodes[1..]) + GraphEdges(g, seen2 - seen1)
    ensures Edges(Cons(nodes[0], g[nodes[0]].features, kids, rest), parent)
            == Below(parent, nodes) + GraphEdges(g, seen2 - seen)
  {
    var n, tail := nodes[0], nodes[1..];
    BelowCons(parent, nodes);
    SplitEdges(g, seen, n, seen1, seen2);
    Regroup(Below(parent, [n]), Below(Some(n), g[n].deps), GraphEdges(g, seen1 - (seen + {n})),
            Below(parent, tail), GraphEdges(g, seen2 - seen1));
  }

  lemma BelowCons(parent: Option<Id>, nodes: seq<Id>)
    requires nodes != []
    ensures Below(parent, [nodes[0]]) == if parent.Some? then {(parent.value, nodes[0])} else {}
    ensures Below(parent, nodes) == Below(parent, [nodes[0]]) + Below(parent, nodes[1..])
  {
    assert nodes == [nodes[0]] + nodes[1..];
  }

  lemma Regroup(a: set<(Id, Id)>, b: set<(Id, Id)>, c: set<(Id, Id)>, d: set<(Id, Id)>, e: set<(Id, Id)>)
    ensures a + (b + c) + (d + e) == (a + d) + (b + c + e)
  {
  }

  lemma SplitEdges(g: map<Id, Node>, seen: set<Id>, n: Id, seen1: set<Id>, seen2: set<Id>)
    requires n in g && n !in seen && seen + {n} <= seen1 <= seen2
    ensures GraphEdges(g, seen2 - seen)
            == Below(Some(n), g[n].deps) + GraphEdges(g, seen1 - (seen + {n})) + GraphEdges(g, seen2 - seen1)
  {
    assert seen2 - seen == {n} + (seen1 - (seen + {n})) + (seen2 - seen1);
  }

  /** Nothing reachable is missed: every root is listed, and a package printed in this
      call has all its dependencies listed. */
  lemma {:induction false} DedupCovers(g: map<Id, Node>, nodes: seq<Id>, seen: set<Id>)
    requires WellFormed(g) && Among(nodes, g.Keys)
    ensures var (f, seen') := Dedup(g, nodes, seen);
            && Among(nodes, seen')
            && (forall u :: u in seen' && u !in seen ==> u in g && Among(g[u].deps, seen'))
    decreases |g.Keys - seen|, |nodes|
  {
    if nodes != [] {
      var n, tail := nodes[0], nodes[1..];
      if n in seen {
        DedupCovers(g, tail, seen);
      } else {
        var (kids, seen1) := Dedup(g, g[n].deps, seen + {n});
        FewerLeft(g.Keys, seen, seen + {n}, n);
        FewerLeft(g.Keys, seen, seen1, n);
        DedupCovers(g, g[n].deps, seen + {n});
        DedupCovers(g, tail, seen1);
      }
    }
  }

  lemma {:induction false} DedupIds(g: map<Id, Node>, nodes: seq<Id>, seen: set<Id>)
    requires WellFormed(g) && Among(nodes, g.Keys)
    ensures var (f, seen') := Dedup(g, nodes, seen); seen' == seen + Ids(f)
    decreases |g.Keys - seen|, |nodes|
  {
    if nodes != [] {
      var n, tail := nodes[0], nodes[1..];
      if n in seen {
        DedupIds(g, tail, seen);
      } else {
        var (kids, seen1) := Dedup(g, g[n].deps, seen + {n});
        FewerLeft(g.Keys, seen, seen + {n}, n);
        FewerLeft(g.Keys, seen, seen1, n);
        DedupIds(g, g[n].deps, seen + {n});
        DedupIds(g, tail, seen1);
      }
    }
  }

  /** Every printed node carries its own package's features. */
  ghost predicate Labelled(g: map<Id, Node>, f: Forest)
  {
    f.Cons? ==> f.id in g && f.features == g[f.id].features && Labelled(g, f.kids) && Labelled(g, f.rest)
  }

  lemma {:induction false} DedupLabelled(g: map<Id, Node>, nodes: seq<Id>, seen: set<Id>)
    requires WellFormed(g) && Among(nodes, g.Keys)
    ensures Labelled(g, Dedup(g, nodes, seen).0)
    decreases |g.Keys - seen|, |nodes|
  {
    if nodes != [] {
      var n, tail := nodes[0], nodes[1..];
      if n in seen {
        DedupLabelled(g, tail, seen);
      } else {
        var seen1 := Dedup(g, g[n].deps, seen + {n}).1;
        FewerLeft(g.Keys, seen, seen + {n}, n);
        FewerLeft(g.Keys, seen, seen1, n);
        DedupLabelled(g, g[n].deps, seen + {n});
        DedupLabelled(g, tail, seen1);
      }
    }
  }

  lemma {:induction false} LabelledFeatures(g: map<Id, Node>, f: Forest)
    requires Labelled(g, f)
    ensures Features(f) == GraphFeatures(g, Ids(f))
  {
    if f.Cons? {
      LabelledFeatures(g, f.kids);
      LabelledFeatures(g, f.rest);
    }
  }

  /** Nothing else is listed: any dependency-closed set with the roots has it all. */
  lemma {:induction false} DedupMinimal(g: map<Id, Node>, nodes: seq<Id>, seen: set<Id>, s: set<Id>)
    requires WellFormed(g) && Among(nodes, g.Keys) && Among(nodes, s) && Closed(g, s)
    ensures Dedup(g, nodes, seen).1 <= seen + s
    decreases |g.Keys - seen|, |nodes|
  {
    if nodes != [] {
      var n, tail := nodes[0], nodes[1..];
      if n in seen {
        DedupMinimal(g, tail, seen, s);
      } else {
        var seen1 := Dedup(g, g[n].deps, seen + {n}).1;
        FewerLeft(g.Keys, seen, seen + {n}, n);
        FewerLeft(g.Keys, seen, seen1, n);
        DedupMinimal(g, g[n].deps, seen + {n}, s);
        DedupMinimal(g, tail, seen1, s);
      }
    }
  }

  /** Reading a de-duplicated listing of a dependency graph, cyclic or not, returns the
      packages reachable from the roots, all their features and every edge between
      them: repeated packages printed without children lose nothing. */
  lemma ReadsReachableGraph(g: map<Id, Node>, roots: seq<Id>)
    requires WellFormed(g) && Among(roots, g.Keys)
    ensures var r := Run(Start, Print(Dedup(g, roots, {}).0, 0));
            && r.Some?
            && Among(roots, r.value.ids) && Closed(g, r.value.ids)
            && (forall s: set<Id> :: Among(roots, s) && Closed(g, s) ==> r.value.ids <= s)
            && r.value.features == GraphFeatures(g, r.value.ids)
            && r.value.edges == GraphEdges(g, r.value.ids)
  {
    var (f, seen) := Dedup(g, roots, {});
    ReadsForest(f);
    DedupCovers(g, roots, {});
    DedupIds(g, roots, {});
    DedupLabelled(g, roots, {});
    LabelledFeatures(g, f);
    DedupEdges(g, roots, {}, None);
    assert seen - {} == seen == Ids(f);
    forall s: set<Id> | Among(roots, s) && Closed(g, s)
      ensures seen <= s
    {
      DedupMinimal(g, roots, {}, s);
    }
  }
}
