/**
 The integer graph projected from an inferred Ada state machine, against the named
 machine it comes from.
 */
module StateGraph {

  datatype Option<T> = None | Some(value: T)

  datatype MachineKind = Protected | Task

  datatype State = State(name: string, openEntries: seq<string>)

  datatype Transition = Transition(from: string, entry: string, to: string, barrier: Option<string>)

  datatype Machine = Machine(kind: MachineKind, name: string, states: seq<State>, transitions: seq<Transition>)

  datatype Edge = Edge(from: nat, entry: string, to: nat, guarded: bool)

  datatype Graph = Graph(machine: string, kind: MachineKind, states: seq<string>, openEntries: seq<seq<string>>,
                         initial: nat, edges: seq<Edge>)

  /** First position of `name`. */
  function IndexOf(names: seq<string>, name: string): (r: Option<nat>)
    ensures r.Some? ==> r.value < |names| && names[r.value] == name
                        && forall i :: 0 <= i < r.value ==> names[i] != name
    ensures r.None? ==> name !in names
  {
    if names == [] then None
    else if names[0] == name then Some(0)
    else
      var r := IndexOf(names[1..], name);
      if r.None? then None else Some(r.value + 1)
  }

  function Names(m: Machine): (names: seq<string>)
    ensures |names| == |m.states| && forall i :: 0 <= i < |names| ==> names[i] == m.states[i].name
  {
    seq(|m.states|, i requires 0 <= i < |m.states| => m.states[i].name)
  }

  /** The edges of the transitions whose two states are known, in declaration order. */
  function Edges(names: seq<string>, transitions: seq<Transition>): seq<Edge>
  {
    if transitions == [] then [] else
    var t, rest := transitions[0], Edges(names, transitions[1..]);
    var from, to := IndexOf(names, t.from), IndexOf(names, t.to);
    if from.None? || to.None? then rest else [Edge(from.value, t.entry, to.value, t.barrier.Some?)] + rest
  }

  /** `ProtocolStateGraph::from_machine`. */
  function FromMachine(m: Machine): Graph
  {
    var names := Names(m);
    var ready := IndexOf(names, "ready");
    Graph(m.name, m.kind, names, seq(|m.states|, i requires 0 <= i < |m.states| => m.states[i].openEntries),
          if ready.Some? then ready.value else 0, Edges(names, m.transitions))
  }

  function TransitionsFrom(edges: seq<Edge>, state: nat): seq<Edge>
  {
    if edges == [] then []
    else (if edges[0].from == state then [edges[0]] else []) + TransitionsFrom(edges[1..], state)
  }

  function FindEntry(edges: seq<Edge>, entry: string): Option<nat>
  {
    if edges == [] then None else if edges[0].entry == entry then Some(edges[0].to) else FindEntry(edges[1..], entry)
  }

  /** `next_state`. */
  function NextState(edges: seq<Edge>, state: nat, entry: string): Option<nat>
  {
    FindEntry(TransitionsFrom(edges, state), entry)
  }

  // -------------------------------------------------------------- the named machine

  /** The first declared transition from `state` on `entry` decides. */
  function NamedNext(transitions: seq<Transition>, state: string, entry: string): Option<string>
  {
    if transitions == [] then None
    else if transitions[0].from == state && transitions[0].entry == entry then Some(transitions[0].to)
    else NamedNext(transitions[1..], state, entry)
  }

  function NamedInitial(m: Machine): string
    requires m.states != []
  {
    if "ready" in Names(m) then "ready" else m.states[0].name
  }

  // ----------------------------------------------------------------- correspondence

  lemma {:induction false} NextStateCons(e: Edge, edges: seq<Edge>, state: nat, entry: string)
    ensures NextState([e] + edges, state, entry)
            == if e.from == state && e.entry == entry then Some(e.to) else NextState(edges, state, entry)
  {
    assert ([e] + edges)[1..] == edges;
    var rest := TransitionsFrom(edges, state);
    assert ([e] + rest)[1..] == rest && [] + rest == rest;
  }

  /** From a state the graph knows, sending an entry moves the graph as it moves the
      machine, unless the first matching transition names an unknown state. */
  lemma {:induction false} StepCorresponds(names: seq<string>, ts: seq<Transition>, state: string, entry: string)
    requires state in names
    ensures var next := NextState(Edges(names, ts), IndexOf(names, state).value, entry);
            var named := NamedNext(ts, state, entry);
            && (named.None? ==> next.None?)
            && (named.Some? && named.value in names ==> next == IndexOf(names, named.value))
  {
    if ts != [] {
      var t := ts[0];
      var from, to := IndexOf(names, t.from), IndexOf(names, t.to);
      StepCorresponds(names, ts[1..], state, entry);
      if from.Some? && to.Some? {
        NextStateCons(Edge(from.value, t.entry, to.value, t.barrier.Some?), Edges(names, ts[1..]),
                      IndexOf(names, state).value, entry);
      }
    }
  }

  /** The graph follows the machine along `es`: at each step both stop, or both move, to
      an id and the name it stands for. */
  ghost predicate Follows(g: Graph, id: nat, m: Machine, state: string, es: seq<string>)
    decreases |es|
  {
    es == [] ||
    match (NextState(g.edges, id, es[0]), NamedNext(m.transitions, state, es[0]))
    case (None, None) => true
    case (Some(i), Some(n)) => i < |g.states| && g.states[i] == n && Follows(g, i, m, n, es[1..])
    case _ => false
  }

  /** Every transition the machine takes along `es` names a state it declares. */
  ghost predicate StaysKnown(m: Machine, state: string, es: seq<string>)
    decreases |es|
  {
    es == [] ||
    match NamedNext(m.transitions, state, es[0])
    case None => true
    case Some(n) => n in Names(m) && StaysKnown(m, n, es[1..])
  }

  /** From any known state and for any entry sequence, the graph follows the machine if
      and only if the machine never leaves its declared states; repeated state names do
      not matter. */
  lemma {:induction false} FollowsIff(m: Machine, state: string, es: seq<string>)
    requires state in Names(m)
    ensures Follows(FromMachine(m), IndexOf(Names(m), state).value, m, state, es) <==> StaysKnown(m, state, es)
    decreases |es|
  {
    if es != [] {
      var names := Names(m);
      StepCorresponds(names, m.transitions, state, es[0]);
      var named := NamedNext(m.transitions, state, es[0]);
      if named.Some? && named.value in names {
        FollowsIff(m, named.value, es[1..]);
      }
    }
  }

  lemma InitialCorresponds(m: Machine)
    requires m.states != []
    ensures NamedInitial(m) in Names(m)
    ensures Some(FromMachine(m).initial) == IndexOf(Names(m), NamedInitial(m))
  {
    assert m.states[0].name == Names(m)[0];
  }

  ghost predicate KnownTargets(m: Machine)
  {
    forall i :: 0 <= i < |m.transitions| && m.transitions[i].from in Names(m) ==> m.transitions[i].to in Names(m)
  }

  lemma {:induction false} NamedNextIsDeclared(ts: seq<Transition>, state: string, entry: string)
    ensures var n := NamedNext(ts, state, entry);
            n.Some? ==> exists i :: 0 <= i < |ts| && ts[i].from == state && ts[i].entry == entry && ts[i].to == n.value
  {
    if ts != [] && !(ts[0].from == state && ts[0].entry == entry) {
      NamedNextIsDeclared(ts[1..], state, entry);
      if NamedNext(ts[1..], state, entry).Some? {
        var i :| 0 <= i < |ts[1..]| && ts[1..][i].from == state && ts[1..][i].entry == entry
                 && ts[1..][i].to == NamedNext(ts[1..], state, entry).value;
        assert ts[i + 1] == ts[1..][i];
      }
    }
  }

  lemma {:induction false} KnownTargetsStay(m: Machine, state: string, es: seq<string>)
    requires KnownTargets(m) && state in Names(m)
    ensures StaysKnown(m, state, es)
    decreases |es|
  {
    if es != [] {
      NamedNextIsDeclared(m.transitions, state, es[0]);
      var n := NamedNext(m.transitions, state, es[0]);
      if n.Some? { KnownTargetsStay(m, n.value, es[1..]); }
    }
  }

  /** Machine and graph accept the same entry sequences from their initial states. */
  lemma MachineAndGraphAgree(m: Machine, es: seq<string>)
    requires m.states != [] && KnownTargets(m)
    ensures Follows(FromMachine(m), FromMachine(m).initial, m, NamedInitial(m), es)
  {
    InitialCorresponds(m);
    KnownTargetsStay(m, NamedInitial(m), es);
    FollowsIff(m, NamedInitial(m), es);
  }

  // ------------------------------------------------------------------ nothing is lost

  function Known(names: seq<string>, ts: seq<Transition>): seq<Transition>
  {
    if ts == [] then []
    else (if ts[0].from in names && ts[0].to in names then [ts[0]] else []) + Known(names, ts[1..])
  }

  /** `e` is in bounds and says by number what `t` says by name. */
  predicate Numbers(names: seq<string>, e: Edge, t: Transition)
  {
    && e.from < |names| && e.to < |names| && names[e.from] == t.from && names[e.to] == t.to
    && e.entry == t.entry && (e.guarded <==> t.barrier.Some?)
  }

  /** For every machine all edges are in bounds, and read back by name they are exactly
      the transitions between known states, in order. */
  lemma {:induction false} EdgesAreKnownTransitions(names: seq<string>, ts: seq<Transition>)
    ensures var es, ks := Edges(names, ts), Known(names, ts);
            |es| == |ks| && forall i :: 0 <= i < |es| ==> Numbers(names, es[i], ks[i])
  {
    if ts != [] {
      EdgesAreKnownTransitions(names, ts[1..]);
      var es, ks := Edges(names, ts[1..]), Known(names, ts[1..]);
      if ts[0].from in names && ts[0].to in names {
        var e := Edges(names, ts)[0];
        assert Edges(names, ts) == [e] + es && Known(names, ts) == [ts[0]] + ks;
      } else {
        assert Edges(names, ts) == es && Known(names, ts) == [] + ks == ks;
      }
    }
  }

  // ----------------------------------------------------------------------- inference

  /** A type's entries with their barriers, as the front end collects them. */
  type Entries = seq<(string, Option<string>)>

  function EntryNames(entries: Entries): seq<string>
  {
    if entries == [] then [] else [entries[0].0] + EntryNames(entries[1..])
  }

  function Unguarded(entries: Entries): seq<string>
  {
    if entries == [] then []
    else (if entries[0].1.None? then [entries[0].0] else []) + Unguarded(entries[1..])
  }

  function AfterStates(entries: Entries, open: seq<string>): seq<State>
  {
    if entries == [] then [] else [State("after-" + entries[0].0, open)] + AfterStates(entries[1..], open)
  }

  function EntryTransitions(entries: Entries): seq<Transition>
  {
    if entries == [] then []
    else [Transition("ready", entries[0].0, "after-" + entries[0].0, entries[0].1)] + EntryTransitions(entries[1..])
  }

  /** `extract_machine`: nothing for a type without entries. */
  function Extract(kind: MachineKind, name: string, entries: Entries): Option<Machine>
  {
    if entries == [] then None
    else Some(Machine(kind, name, [State("ready", Unguarded(entries))] + AfterStates(entries, EntryNames(entries)),
                      EntryTransitions(entries)))
  }

  lemma {:induction false} EntryTargets(entries: Entries, open: seq<string>)
    ensures |AfterStates(entries, open)| == |entries| == |EntryTransitions(entries)|
    ensures forall i :: 0 <= i < |entries| ==> EntryTransitions(entries)[i].to == AfterStates(entries, open)[i].name
  {
    if entries != [] { EntryTargets(entries[1..], open); }
  }

  lemma {:induction false} NamesAre(entries: Entries, e: string)
    ensures e in EntryNames(entries) <==> exists i :: 0 <= i < |entries| && entries[i].0 == e
  {
    if entries != [] {
      NamesAre(entries[1..], e);
      assert forall i :: 1 <= i < |entries| ==> entries[i] == entries[1..][i - 1];
      if i :| 0 <= i < |entries| && entries[i].0 == e {
        assert i > 0 ==> entries[1..][i - 1].0 == e;
      }
    }
  }

  /** Initially open are exactly the entries declared without a barrier. */
  lemma {:induction false} OpenInitiallyIff(entries: Entries, e: string)
    ensures e in Unguarded(entries) <==> exists i :: 0 <= i < |entries| && entries[i] == (e, None)
  {
    if entries != [] {
      OpenInitiallyIff(entries[1..], e);
      assert forall i :: 1 <= i < |entries| ==> entries[i] == entries[1..][i - 1];
      if i :| 0 <= i < |entries| && entries[i] == (e, None) {
        assert i > 0 ==> entries[1..][i - 1] == (e, None);
      }
    }
  }

  /** The inferred machine moves from its initial state on every declared entry, to the state
      named after it, and from no other state. */
  lemma {:induction false} InferredMoves(entries: Entries, state: string, e: string)
    ensures NamedNext(EntryTransitions(entries), state, e)
            == if state == "ready" && e in EntryNames(entries) then Some("after-" + e) else None
  {
    if entries != [] { InferredMoves(entries[1..], state, e); }
  }

  /** So from its initial state the graph accepts exactly the declared entries. */
  lemma InferredGraphAccepts(kind: MachineKind, name: string, entries: Entries, e: string)
    requires entries != []
    ensures var g := FromMachine(Extract(kind, name, entries).value);
            && g.states[g.initial] == "ready" && g.openEntries[g.initial] == Unguarded(entries)
            && var next := NextState(g.edges, g.initial, e);
               && (next.Some? <==> e in EntryNames(entries))
               && (next.Some? ==> next.value < |g.states| && g.states[next.value] == "after-" + e
                                  && g.openEntries[next.value] == EntryNames(entries))
  {
    var m := Extract(kind, name, entries).value;
    var g, names := FromMachine(m), Names(m);
    EntryTargets(entries, EntryNames(entries));
    InferredMoves(entries, "ready", e);
    StepCorresponds(names, m.transitions, "ready", e);
    if e in EntryNames(entries) {
      AfterStateKnown(entries, EntryNames(entries), e);
      var k :| 0 <= k < |entries| && AfterStates(entries, EntryNames(entries))[k].name == "after-" + e;
      assert names[k + 1] == "after-" + e;
      AllOpenAfter(entries, EntryNames(entries));
    }
  }

  lemma {:induction false} AfterStateKnown(entries: Entries, open: seq<string>, e: string)
    requires e in EntryNames(entries)
    ensures |AfterStates(entries, open)| == |entries|
    ensures exists k :: 0 <= k < |entries| && AfterStates(entries, open)[k].name == "after-" + e
  {
    EntryTargets(entries, open);
    if e == entries[0].0 {
      assert AfterStates(entries, open)[0].name == "after-" + e;
    } else {
      AfterStateKnown(entries[1..], open, e);
      var k :| 0 <= k < |entries[1..]| && AfterStates(entries[1..], open)[k].name == "after-" + e;
      assert AfterStates(entries, open)[k + 1].name == "after-" + e;
    }
  }

  lemma {:induction false} AllOpenAfter(entries: Entries, open: seq<string>)
    ensures forall k :: 0 <= k < |AfterStates(entries, open)| ==>
              AfterStates(entries, open)[k].openEntries == open && AfterStates(entries, open)[k].name != "ready"
  {
    if entries != [] { AllOpenAfter(entries[1..], open); }
  }

  /** Inference never names an unknown state, so its graphs always follow its machines. */
  lemma InferredGraphsFollow(kind: MachineKind, name: string, entries: Entries, es: seq<string>)
    requires entries != []
    ensures var m := Extract(kind, name, entries).value;
            Follows(FromMachine(m), FromMachine(m).initial, m, NamedInitial(m), es)
  {
    var m := Extract(kind, name, entries).value;
    EntryTargets(entries, EntryNames(entries));
    forall i | 0 <= i < |m.transitions|
      ensures m.transitions[i].to in Names(m)
    {
      assert Names(m)[i + 1] == m.transitions[i].to;
    }
    MachineAndGraphAgree(m, es);
  }
}
