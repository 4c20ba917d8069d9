/**
 The engine trade study: how a trial's row is classified, which rows count as valid
 campaigns, and how rows are aggregated per target and per engine.
 */
module TradeStudy {
  import Wilson

  datatype Option<T> = None | Some(value: T)

  datatype Outcome = Unclassified | Confirmed | ConfirmedLate | Reachable | Censored | BuildFailed | Timeout
                   | Incomplete | Unsupported

  datatype Row = Row(engine: string, target: string, outcome: Outcome, buildRc: Option<int>,
                     supervisorTimeout: Option<bool>, crashConfirmed: bool, crashWithinBudget: bool,
                     ttfc: Option<real>, wall: Option<real>, campaignRc: Option<int>)

  /** Python's truth of an optional integer or flag. */
  predicate NonZero(rc: Option<int>) { rc.Some? && rc.value != 0 }

  predicate IsSet(flag: Option<bool>) { flag.Some? && flag.value }

  /** `classify_trade_outcome`. */
  function Classify(row: Row): Outcome
  {
    if row.outcome == Unsupported then Unsupported
    else if NonZero(row.buildRc) then BuildFailed
    else if IsSet(row.supervisorTimeout) then Timeout
    else if row.crashConfirmed then
      if row.crashWithinBudget then Confirmed else if row.ttfc.Some? then ConfirmedLate else Reachable
    else if row.wall.None? then Incomplete
    else if row.campaignRc == Some(0) then Censored
    else Incomplete
  }

  /** `is_within_budget`. */
  predicate WithinBudget(ttfc: Option<real>, budget: real) { ttfc.Some? && ttfc.value <= budget }

  /** `campaign_eligible`. */
  predicate Eligible(row: Row)
  {
    if NonZero(row.buildRc) || IsSet(row.supervisorTimeout) then false
    else if row.crashConfirmed && row.ttfc.Some? then true
    else row.wall.Some? && row.campaignRc == Some(0)
  }

  // ------------------------------------------------------- the rows a study produces

  /** What running one engine measured; rounding keeps a value a value. */
  datatype Measure = Measure(wall: real, rc: int, timedOut: bool, firstCrash: Option<real>)

  /** The tail of `run_engine`. */
  function EngineRow(engine: string, target: string, buildRc: int, measure: Option<Measure>, nativeConfirmed: bool,
                     corpusConfirmed: bool, budget: real, rounded: real -> real): Row
  {
    var ttfc := if measure.Some? && nativeConfirmed then measure.value.firstCrash else None;
    var row := Row(engine, target, Unclassified, Some(buildRc),
                   if measure.Some? then Some(measure.value.timedOut) else None,
                   nativeConfirmed || corpusConfirmed, WithinBudget(ttfc, budget),
                   if ttfc.Some? then Some(rounded(ttfc.value)) else None,
                   if measure.Some? then Some(rounded(measure.value.wall)) else None,
                   if measure.Some? then Some(measure.value.rc) else None);
    row.(outcome := Classify(row))
  }

  /** `unsupported_rows`. */
  function UnsupportedRow(engine: string, target: string): Row
  {
    Row(engine, target, Unsupported, None, None, false, false, None, None, None)
  }

  ghost predicate Producible(row: Row)
  {
    || row == UnsupportedRow(row.engine, row.target)
    || exists buildRc, measure, native, corpus, budget, rounded ::
         row == EngineRow(row.engine, row.target, buildRc, measure, native, corpus, budget, rounded)
  }

  predicate EligibleClass(row: Row)
  {
    || row.outcome == Confirmed || row.outcome == ConfirmedLate || row.outcome == Censored
    || (row.outcome == Reachable && row.wall.Some? && row.campaignRc == Some(0))
  }

  lemma EngineRowEligible(engine: string, target: string, buildRc: int, measure: Option<Measure>, native: bool,
                          corpus: bool, budget: real, rounded: real -> real)
    ensures var row := EngineRow(engine, target, buildRc, measure, native, corpus, budget, rounded);
            row.outcome != Unclassified && row.outcome == Classify(row) && (Eligible(row) <==> EligibleClass(row))
  {
  }

  /** What each outcome of a run says about what was measured. */
  lemma OutcomeMeans(engine: string, target: string, buildRc: int, measure: Option<Measure>, native: bool,
                     corpus: bool, budget: real, rounded: real -> real)
    ensures var o := EngineRow(engine, target, buildRc, measure, native, corpus, budget, rounded).outcome;
            var built := buildRc == 0;
            var ran := built && !(measure.Some? && measure.value.timedOut);
            var crash := if measure.Some? && native then measure.value.firstCrash else None;
            && (o == BuildFailed <==> !built)
            && (o == Timeout <==> built && measure.Some? && measure.value.timedOut)
            && (o == Confirmed <==> ran && crash.Some? && crash.value <= budget)
            && (o == ConfirmedLate <==> ran && crash.Some? && crash.value > budget)
            && (o == Reachable <==> ran && crash.None? && (native || corpus))
            && (o == Censored <==> ran && !native && !corpus && measure.Some? && measure.value.rc == 0)
            && (o == Incomplete <==> ran && !native && !corpus && (measure.None? || measure.value.rc != 0))
            && o != Unsupported
  {
  }

  /** Confirmation and eligibility are different axes, tied like this on every row a
      study can produce. */
  lemma EligibleIff(row: Row)
    requires Producible(row)
    ensures row.outcome != Unclassified && row.outcome == Classify(row)
    ensures Eligible(row) <==> EligibleClass(row)
    ensures row.outcome == Unsupported ==>
              !row.crashConfirmed && !row.crashWithinBudget && row.ttfc.None? && row.campaignRc.None?
  {
    if row != UnsupportedRow(row.engine, row.target) {
      var buildRc, measure, native, corpus, budget, rounded :|
        row == EngineRow(row.engine, row.target, buildRc, measure, native, corpus, budget, rounded);
      EngineRowEligible(row.engine, row.target, buildRc, measure, native, corpus, budget, rounded);
    }
  }

  // ------------------------------------------------------------------------ counting

  datatype What = Trials | Valid | Class(outcome: Outcome)

  predicate Has(row: Row, what: What)
  {
    match what
    case Trials => true
    case Valid => Eligible(row)
    case Class(o) => row.outcome == o
  }

  function Count(rows: seq<Row>, what: What): nat
  {
    if rows == [] then 0 else (if Has(rows[0], what) then 1 else 0) + Count(rows[1..], what)
  }

  /** The rows of one engine, on one target or on all. */
  function Select(rows: seq<Row>, engine: string, target: Option<string>): seq<Row>
  {
    if rows == [] then []
    else (if rows[0].engine == engine && (target.None? || rows[0].target == target.value) then [rows[0]] else [])
         + Select(rows[1..], engine, target)
  }

  predicate Selected(row: Row, engine: string, target: Option<string>)
  {
    row.engine == engine && (target.None? || row.target == target.value)
  }

  /** Selecting keeps each row of the engine and the target as often as it occurs, and no other. */
  lemma {:induction false} SelectsExactly(rows: seq<Row>, engine: string, target: Option<string>, row: Row)
    ensures multiset(Select(rows, engine, target))[row]
            == if Selected(row, engine, target) then multiset(rows)[row] else 0
  {
    if rows != [] {
      SelectsExactly(rows[1..], engine, target, row);
      assert rows == [rows[0]] + rows[1..];
    }
  }

  datatype Summary = Summary(trials: nat, valid: nat, counts: map<Outcome, nat>)

  function Classes(): set<Outcome>
  {
    {Confirmed, ConfirmedLate, Reachable, Censored, BuildFailed, Timeout, Incomplete, Unsupported}
  }

  /** `engine_summary`, its counts. */
  function Summarize(sub: seq<Row>): Summary
  {
    Summary(|sub|, Count(sub, Valid), map o | o in Classes() :: Count(sub, Class(o)))
  }

  ghost predicate AllProducible(rows: seq<Row>) { forall i :: 0 <= i < |rows| ==> Producible(rows[i]) }

  lemma {:induction false} ClassesPartition(sub: seq<Row>)
    requires AllProducible(sub)
    ensures |sub| == Count(sub, Class(Confirmed)) + Count(sub, Class(ConfirmedLate)) + Count(sub, Class(Reachable))
                     + Count(sub, Class(Censored)) + Count(sub, Class(BuildFailed)) + Count(sub, Class(Timeout))
                     + Count(sub, Class(Incomplete)) + Count(sub, Class(Unsupported))
  {
    if sub != [] {
      EligibleIff(sub[0]);
      ClassesPartition(sub[1..]);
    }
  }

  lemma {:induction false} EveryRowIsATrial(sub: seq<Row>)
    ensures Count(sub, Trials) == |sub|
  {
    if sub != [] { EveryRowIsATrial(sub[1..]); }
  }

  lemma {:induction false} SolvesAreValid(sub: seq<Row>)
    requires AllProducible(sub)
    ensures var solved := Count(sub, Class(Confirmed)) + Count(sub, Class(ConfirmedLate)) + Count(sub, Class(Censored));
            solved <= Count(sub, Valid) <= solved + Count(sub, Class(Reachable))
  {
    if sub != [] {
      EligibleIff(sub[0]);
      SolvesAreValid(sub[1..]);
    }
  }

  /** The outcome classes partition the trials, in-budget solves are among the valid
      campaigns, and so the interval is always asked for within its domain. */
  lemma SummaryIsConsistent(sub: seq<Row>, z: real, root: real)
    requires AllProducible(sub) && z > 0.0
    ensures var s := Summarize(sub);
            && s.trials == Count(sub, Trials)
            && s.trials == s.counts[Confirmed] + s.counts[ConfirmedLate] + s.counts[Reachable] + s.counts[Censored]
                           + s.counts[BuildFailed] + s.counts[Timeout] + s.counts[Incomplete] + s.counts[Unsupported]
            && s.counts[Confirmed] + s.counts[ConfirmedLate] + s.counts[Censored] <= s.valid
            && s.valid <= s.counts[Confirmed] + s.counts[ConfirmedLate] + s.counts[Censored] + s.counts[Reachable]
            && !Wilson.Interval(s.counts[Confirmed], s.valid, z, root).Invalid?
  {
    EveryRowIsATrial(sub);
    ClassesPartition(sub);
    SolvesAreValid(sub);
  }

  // --------------------------------------------------------------------- aggregation

  function SumOverTargets(rows: seq<Row>, engine: string, targets: seq<string>, what: What): nat
  {
    if targets == [] then 0
    else Count(Select(rows, engine, Some(targets[0])), what) + SumOverTargets(rows, engine, targets[1..], what)
  }

  ghost predicate Distinct(s: seq<string>) { forall i, j :: 0 <= i < j < |s| ==> s[i] != s[j] }

  function Contribution(row: Row, engine: string, what: What): nat
  {
    if row.engine == engine && Has(row, what) then 1 else 0
  }

  lemma SelectCons(rows: seq<Row>, engine: string, target: Option<string>, what: What)
    requires rows != []
    ensures Count(Select(rows, engine, target), what)
            == (if target.None? || rows[0].target == target.value then Contribution(rows[0], engine, what) else 0)
               + Count(Select(rows[1..], engine, target), what)
  {
    var rest := Select(rows[1..], engine, target);
    assert ([rows[0]] + rest)[1..] == rest && [] + rest == rest;
  }

  /** One more row adds to exactly one target. */
  lemma {:induction false} SumCons(rows: seq<Row>, engine: string, targets: seq<string>, what: What)
    requires rows != [] && Distinct(targets)
    ensures SumOverTargets(rows, engine, targets, what)
            == (if rows[0].target in targets then Contribution(rows[0], engine, what) else 0)
               + SumOverTargets(rows[1..], engine, targets, what)
  {
    if targets != [] {
      SelectCons(rows, engine, Some(targets[0]), what);
      SumCons(rows, engine, targets[1..], what);
      assert rows[0].target in targets <==> rows[0].target == targets[0] || rows[0].target in targets[1..];
    }
  }

  /** Per-engine totals are the sums over the targets, for trials, valid campaigns and
      every outcome class. */
  lemma {:induction false} EngineTotals(rows: seq<Row>, engine: string, targets: seq<string>, what: What)
    requires Distinct(targets) && forall i :: 0 <= i < |rows| ==> rows[i].target in targets
    ensures Count(Select(rows, engine, None), what) == SumOverTargets(rows, engine, targets, what)
    decreases |rows|
  {
    if rows == [] {
      NoRows(engine, targets, what);
    } else {
      SelectCons(rows, engine, None, what);
      SumCons(rows, engine, targets, what);
      EngineTotals(rows[1..], engine, targets, what);
    }
  }

  lemma {:induction false} NoRows(engine: string, targets: seq<string>, what: What)
    ensures SumOverTargets([], engine, targets, what) == 0
  {
    if targets != [] { NoRows(engine, targets[1..], what); }
  }

  /** `aggregate`. */
  method Aggregate(rows: seq<Row>, engines: seq<string>, targets: seq<string>)
    returns (perTarget: map<string, map<string, Summary>>, perEngine: map<string, Summary>)
    ensures perTarget.Keys == set t | t in targets
    ensures forall t, e :: t in targets ==>
              (e in perTarget[t] <==> e in engines && Select(rows, e, Some(t)) != [])
              && (e in perTarget[t] ==> perTarget[t][e] == Summarize(Select(rows, e, Some(t))))
    ensures forall e :: (e in perEngine <==> e in engines && Select(rows, e, None) != [])
                        && (e in perEngine ==> perEngine[e] == Summarize(Select(rows, e, None)))
  {
    perTarget := map[];
    for i := 0 to |targets|
      invariant perTarget.Keys == set t | t in targets[..i]
      invariant forall t, e :: t in targets[..i] ==>
                  (e in perTarget[t] <==> e in engines && Select(rows, e, Some(t)) != [])
                  && (e in perTarget[t] ==> perTarget[t][e] == Summarize(Select(rows, e, Some(t))))
    {
      var entry := SummariesFor(rows, engines, Some(targets[i]));
      perTarget := perTarget[targets[i] := entry];
      assert targets[..i + 1] == targets[..i] + [targets[i]];
    }
    assert targets[..|targets|] == targets;
    perEngine := SummariesFor(rows, engines, None);
  }

  /** The inner loop over engines: only engines with rows get an entry. */
  method SummariesFor(rows: seq<Row>, engines: seq<string>, target: Option<string>) returns (m: map<string, Summary>)
    ensures forall e :: (e in m <==> e in engines && Select(rows, e, target) != [])
                        && (e in m ==> m[e] == Summarize(Select(rows, e, target)))
  {
    m := map[];
    for i := 0 to |engines|
      invariant forall e :: (e in m <==> e in engines[..i] && Select(rows, e, target) != [])
                            && (e in m ==> m[e] == Summarize(Select(rows, e, target)))
    {
      var sub := Select(rows, engines[i], target);
      if sub != [] { m := m[engines[i] := Summarize(sub)]; }
      assert engines[..i + 1] == engines[..i] + [engines[i]];
    }
    assert engines[..|engines|] == engines;
  }
}
