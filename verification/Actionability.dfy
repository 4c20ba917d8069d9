/**
 Actionability records: backfilling one from a raw finding, and refreshing a stored one.
 The text extractors and keyword tables are facts of the finding; the decisions made
 from them are modelled.
 */
module Actionability {

  datatype Option<T> = None | Some(value: T)

  datatype RunMode = Reporting | Attacking

  datatype Verdict = RealReachable | LikelyReachable | LabOnly | Blocked | Unknown

  datatype Confidence = High | Medium | Low

  datatype EntryPath = EntryPath(kind: string, source: string, target: string, evidence: seq<string>,
                                 attackerReachable: Option<bool>)

  datatype FixLocation = FixLocation(path: string, line: Option<nat>, col: Option<nat>, reason: string)

  datatype Source = Source(kind: string, entry: string, testcase: string)

  datatype Sink = Sink(file: Option<string>, line: Option<nat>, function_: string)

  datatype Item = Item(kind: string, name: string, evidence: string)

  datatype Prosthetics = Prosthetics(used: bool, items: seq<Item>)

  datatype Record = Record(mode: RunMode, verdict: Verdict, impact: string, confidence: Confidence,
                           entryPath: Option<EntryPath>, fixLocation: Option<FixLocation>, source: Option<Source>,
                           sink: Option<Sink>, explanation: Option<string>, cwe: seq<string>,
                           cweName: Option<string>, replay: Option<string>, prosthetics: Prosthetics,
                           patchHints: seq<string>, nextSteps: seq<string>)

  datatype Tier = RealFault | SwallowedCheck | IntendedRejection

  /** What the extractors read from a finding, apart from its stored record. */
  datatype Facts = Facts(
    stubbed: seq<string>, fakeCorba: seq<string>, envInjected: seq<string>, mocks: seq<string>,
    fixLocation: Option<FixLocation>, sink: Option<Sink>, testcase: Option<string>, targetName: string,
    reachability: Option<bool>, explain: (Option<Sink>, Option<Source>) -> string, cwe: seq<string>,
    cweName: Option<string>, replay: Option<string>, impact: string, confidence: Option<string>,
    blocked: bool, harnessArtifact: bool, hasFailure: bool, patchHints: seq<string>, tier: Option<Tier>,
    tierNote: Tier -> string)

  /** A finding: its facts, and what its `actionability` value holds. */
  datatype Stored = Absent | Unreadable(entry: Option<EntryPath>) | Parsed(record: Record)

  datatype Finding = Finding(facts: Facts, stored: Stored)

  // --------------------------------------------------------------------- extractors

  function Items(kind: string, evidence: string, names: seq<string>): (r: seq<Item>)
    ensures |r| == |names|
  {
    if names == [] then [] else [Item(kind, names[0], evidence)] + Items(kind, evidence, names[1..])
  }

  function ProstheticsOf(f: Facts): Prosthetics
  {
    var items := Items("stubbed_dependency", "build.deps.stubbed", f.stubbed)
               + Items("fake_resource", "build.deps.fake_corba", f.fakeCorba)
               + Items("missing_env_shim", "runtime_mode.env_injected", f.envInjected)
               + Items("mock", "mocks", f.mocks);
    Prosthetics(items != [], items)
  }

  /** One of the push loops of `prosthetics_from`. */
  method PushItems(before: seq<Item>, kind: string, evidence: string, names: seq<string>) returns (items: seq<Item>)
    ensures items == before + Items(kind, evidence, names)
  {
    items := before;
    for i := 0 to |names|
      invariant items + Items(kind, evidence, names[i..]) == before + Items(kind, evidence, names)
    {
      assert names[i..][0] == names[i] && names[i..][1..] == names[i + 1..];
      items := items + [Item(kind, names[i], evidence)];
    }
  }

  /** `prosthetics_from`. */
  method ProstheticsFrom(f: Facts) returns (p: Prosthetics)
    ensures p == ProstheticsOf(f)
    ensures p.used <==> f.stubbed != [] || f.fakeCorba != [] || f.envInjected != [] || f.mocks != []
  {
    var items := PushItems([], "stubbed_dependency", "build.deps.stubbed", f.stubbed);
    items := PushItems(items, "fake_resource", "build.deps.fake_corba", f.fakeCorba);
    items := PushItems(items, "missing_env_shim", "runtime_mode.env_injected", f.envInjected);
    items := PushItems(items, "mock", "mocks", f.mocks);
    p := Prosthetics(items != [], items);
  }

  function StoredEntry(finding: Finding): Option<EntryPath>
  {
    match finding.stored
    case Absent => None
    case Unreadable(e) => e
    case Parsed(r) => r.entryPath
  }

  /** `entry_path_from`: a stored entry's own flag wins over the raw signal. */
  function EntryOf(finding: Finding): Option<EntryPath>
  {
    var stored := StoredEntry(finding);
    if stored.Some? then
      Some(if stored.value.attackerReachable.Some? then stored.value
           else stored.value.(attackerReachable := finding.facts.reachability))
    else if finding.facts.targetName != "unknown" then
      Some(EntryPath("harness", "testcase.bin", finding.facts.targetName, [], finding.facts.reachability))
    else None
  }

  predicate IsWhite(c: char) { c == ' ' || 9 <= c as int <= 13 }

  predicate NotBlank(s: string) { exists i :: 0 <= i < |s| && !IsWhite(s[i]) }

  /** `source_from`. */
  function SourceOf(f: Facts, entry: Option<EntryPath>): Option<Source>
  {
    if entry.None? then None
    else Some(Source(entry.value.kind, entry.value.target,
                     if f.testcase.Some? then f.testcase.value
                     else if NotBlank(entry.value.source) then entry.value.source else "testcase.bin"))
  }

  predicate IsSourceFix(l: Option<FixLocation>)
  {
    l.Some? && l.value.reason != "finding_json_path" && l.value.reason != "sink_frame_no_source"
  }

  /** `confidence_from`. */
  function ConfidenceOf(f: Facts, entry: Option<EntryPath>): Confidence
  {
    if f.tier == Some(SwallowedCheck) || f.tier == Some(IntendedRejection) then Low else
    var base := if f.confidence.Some? then
                  (if f.confidence.value == "high" then High
                   else if f.confidence.value == "medium" then Medium else Low)
                else if IsSourceFix(f.fixLocation) then (if f.replay == Some("reproduced") then High else Medium)
                else Low;
    if base == High && entry.Some? && entry.value.attackerReachable == Some(false) then Medium else base
  }

  /** `classify_verdict`. */
  function VerdictOf(f: Facts, entry: Option<EntryPath>, p: Prosthetics): Verdict
  {
    if p.used then LabOnly
    else if f.blocked then Blocked
    else if f.harnessArtifact then LabOnly
    else if entry.Some? && f.hasFailure then
      if entry.value.attackerReachable == Some(false) then LabOnly
      else if f.replay == Some("reproduced") && IsSourceFix(f.fixLocation) then RealReachable
      else LikelyReachable
    else Unknown
  }

  function ReplaceSteps(items: seq<Item>): (r: seq<string>)
    ensures |r| == |items|
  {
    if items == [] then []
    else ["Replace " + items[0].kind + " '" + items[0].name
          + "' with the real dependency before claiming attacker reachability."] + ReplaceSteps(items[1..])
  }

  /** `next_steps_for`. */
  function NextSteps(verdict: Verdict, fix: Option<FixLocation>, p: Prosthetics): seq<string>
  {
    match verdict
    case LabOnly => ReplaceSteps(p.items)
    case Blocked =>
      ["Provide the missing real resource and rerun in attacking mode to test the path without substitutions."]
    case Unknown => ["Replay the testcase and collect source-location evidence before using this as a security gate."]
    case _ => if fix.Some? then ["Inspect " + fix.value.path + " as the primary fix location."] else []
  }

  function TierNote(f: Facts): Option<string>
  {
    if f.tier.Some? then Some(f.tierNote(f.tier.value)) else None
  }

  // ---------------------------------------------------------- backfill and refresh

  /** `backfill_actionability`. */
  function Backfill(mode: RunMode, finding: Finding): Record
  {
    var f, p, entry := finding.facts, ProstheticsOf(finding.facts), EntryOf(finding);
    var source := SourceOf(f, entry);
    var verdict := VerdictOf(f, entry, p);
    var steps := NextSteps(verdict, f.fixLocation, p);
    Record(mode, verdict, f.impact, ConfidenceOf(f, entry), entry, f.fixLocation, source, f.sink,
           Some(f.explain(f.sink, source)), f.cwe, f.cweName, f.replay, p, f.patchHints,
           if TierNote(f).Some? then [TierNote(f).value] + steps else steps)
  }

  /** The fields a record written by an older version may lack. */
  function FillGaps(r: Record, f: Facts): Record
  {
    var sink := if r.sink.None? then f.sink else r.sink;
    var source := if r.source.None? then SourceOf(f, r.entryPath) else r.source;
    r.(sink := sink, source := source,
       fixLocation := if r.fixLocation.None? then f.fixLocation else r.fixLocation,
       explanation := if r.explanation.None? then Some(f.explain(sink, source)) else r.explanation,
       cwe := if r.cwe == [] then f.cwe else r.cwe,
       cweName := if r.cwe == [] && r.cweName.None? then f.cweName else r.cweName,
       patchHints := if r.patchHints == [] then f.patchHints else r.patchHints)
  }

  /** Prosthetics in the finding or in the record make it lab-only. */
  function Override(r: Record, raw: Prosthetics): Record
  {
    var p := if raw.used then raw else r.prosthetics;
    if p.used then r.(prosthetics := p, verdict := LabOnly, nextSteps := NextSteps(LabOnly, r.fixLocation, p)) else r
  }

  /** The stored-record branch of `existing_actionability_or_backfill`. */
  function Refresh(r: Record, f: Facts): Record { Override(FillGaps(r, f), ProstheticsOf(f)) }

  function ExistingOrBackfill(mode: RunMode, finding: Finding): Record
  {
    match finding.stored
    case Parsed(r) => Refresh(r, finding.facts)
    case _ => Backfill(mode, finding)
  }

  method AssignGaps(r: Record, f: Facts) returns (record: Record)
    ensures record == FillGaps(r, f)
  {
    record := r;
    if record.sink.None? { record := record.(sink := f.sink); }
    if record.fixLocation.None? { record := record.(fixLocation := f.fixLocation); }
    if record.source.None? { record := record.(source := SourceOf(f, record.entryPath)); }
    if record.explanation.None? { record := record.(explanation := Some(f.explain(record.sink, record.source))); }
    if record.cwe == [] {
      record := record.(cwe := f.cwe);
      if record.cweName.None? { record := record.(cweName := f.cweName); }
    }
    if record.patchHints == [] { record := record.(patchHints := f.patchHints); }
  }

  /** `existing_actionability_or_backfill`, field by field as the source assigns them. */
  method Existing(mode: RunMode, finding: Finding) returns (record: Record)
    ensures record == ExistingOrBackfill(mode, finding)
  {
    if !finding.stored.Parsed? { return Backfill(mode, finding); }
    record := AssignGaps(finding.stored.record, finding.facts);
    var raw := ProstheticsFrom(finding.facts);
    if raw.used || record.prosthetics.used {
      if raw.used { record := record.(prosthetics := raw); }
      record := record.(verdict := LabOnly);
      record := record.(nextSteps := NextSteps(record.verdict, record.fixLocation, record.prosthetics));
    }
  }

  // ------------------------------------------------------------------------- results

  /** A finding after its record has been written back. */
  function WrittenBack(mode: RunMode, finding: Finding): Finding
  {
    finding.(stored := Parsed(ExistingOrBackfill(mode, finding)))
  }

  /** What each verdict of a fresh record says about the finding. */
  lemma VerdictMeans(mode: RunMode, finding: Finding)
    ensures var f, entry := finding.facts, EntryOf(finding);
            var v := Backfill(mode, finding).verdict;
            var sound := !ProstheticsOf(f).used && !f.blocked && !f.harnessArtifact;
            var entered := sound && entry.Some? && f.hasFailure;
            var internal := entry.Some? && entry.value.attackerReachable == Some(false);
            var proved := && f.replay == Some("reproduced") && f.fixLocation.Some?
                          && f.fixLocation.value.reason !in ["finding_json_path", "sink_frame_no_source"];
            && (v == RealReachable <==> entered && !internal && proved)
            && (v == LikelyReachable <==> entered && !internal && !proved)
            && (v == Blocked <==> !ProstheticsOf(f).used && f.blocked)
            && (v == Unknown <==> sound && (entry.None? || !f.hasFailure))
            && (v == LabOnly <==> ProstheticsOf(f).used || (!f.blocked && f.harnessArtifact) || (entered && internal))
  {
  }

  /** A record claims real reachability if and only if it was written with that claim and no
      prosthetics have been reported since, or it is fresh and the finding proves it. */
  lemma ClaimsRealIff(mode: RunMode, finding: Finding)
    ensures ExistingOrBackfill(mode, finding).verdict == RealReachable
            <==> match finding.stored
                 case Parsed(r) =>
                   r.verdict == RealReachable && !r.prosthetics.used && !ProstheticsOf(finding.facts).used
                 case _ =>
                   var f, entry := finding.facts, EntryOf(finding);
                   && !ProstheticsOf(f).used && !f.blocked && !f.harnessArtifact && f.hasFailure
                   && entry.Some? && entry.value.attackerReachable != Some(false)
                   && f.replay == Some("reproduced") && IsSourceFix(f.fixLocation)
  {
  }

  /** A fresh record knows an entry if and only if one was stored or the target is named; what
      was stored is kept, and a stored flag wins over the finding's own. */
  lemma EntryMeans(mode: RunMode, finding: Finding)
    ensures var f, entry := finding.facts, Backfill(mode, finding).entryPath;
            match StoredEntry(finding)
            case None =>
              && (entry.None? <==> f.targetName == "unknown")
              && (entry.Some? ==> entry.value.target == f.targetName && entry.value.attackerReachable == f.reachability)
            case Some(e) =>
              && entry.Some? && entry.value.(attackerReachable := e.attackerReachable) == e
              && (entry.value.attackerReachable == f.reachability || entry.value == e)
              && (entry.value.attackerReachable.None? <==> e.attackerReachable.None? && f.reachability.None?)
  {
  }

  /** A fresh record is of high confidence only for faults the target did not contain itself,
      at an entry not known to be internal, and never without the finding saying so or both
      a reproduction and a source fix. */
  lemma HighConfidenceIff(mode: RunMode, finding: Finding)
    ensures var f, entry := finding.facts, EntryOf(finding);
            Backfill(mode, finding).confidence == High
            <==> && f.tier != Some(SwallowedCheck) && f.tier != Some(IntendedRejection)
                 && !(entry.Some? && entry.value.attackerReachable == Some(false))
                 && if f.confidence.Some? then f.confidence.value == "high"
                    else f.replay == Some("reproduced") && IsSourceFix(f.fixLocation)
  {
  }

  /** And of low confidence for those the target contained, for any word of the finding's own
      other than high and medium, and when it says nothing and there is no source fix. */
  lemma LowConfidenceIff(mode: RunMode, finding: Finding)
    ensures var f := finding.facts;
            Backfill(mode, finding).confidence == Low
            <==> || f.tier == Some(SwallowedCheck) || f.tier == Some(IntendedRejection)
                 || (if f.confidence.Some? then f.confidence.value !in ["high", "medium"]
                     else !IsSourceFix(f.fixLocation))
  {
  }

  /** Refreshing is idempotent, for every stored record, even an inconsistent one. */
  lemma RefreshIdempotent(r: Record, f: Facts)
    ensures Refresh(Refresh(r, f), f) == Refresh(r, f)
  {
  }

  /** So a report settles: from the second write-back on nothing changes, in any mode. */
  lemma WriteBackSettles(mode: RunMode, mode': RunMode, mode'': RunMode, finding: Finding)
    ensures var once := WrittenBack(mode, finding);
            var twice := WrittenBack(mode', once);
            WrittenBack(mode'', twice) == twice
  {
    var r := ExistingOrBackfill(mode, finding);
    RefreshIdempotent(r, finding.facts);
  }

  /** A fresh record is changed by its first refresh in at most one field, and is a fixed
      point unless prosthetics were used and a tier note was put in front of the steps:
      that note is then lost. */
  lemma FirstRefresh(mode: RunMode, finding: Finding)
    requires !finding.stored.Parsed?
    ensures var b := Backfill(mode, finding);
            && Refresh(b, finding.facts) == b.(nextSteps := Refresh(b, finding.facts).nextSteps)
            && (Refresh(b, finding.facts) == b
                <==> !(ProstheticsOf(finding.facts).used && finding.facts.tier.Some?))
  {
    var b, f := Backfill(mode, finding), finding.facts;
    if ProstheticsOf(f).used && f.tier.Some? {
      assert |b.nextSteps| == 1 + |Refresh(b, f).nextSteps|;
    }
  }

  /** Prosthetics recorded in either place always end in LabOnly, with one step per
      prosthetic item and nothing else once the record has been refreshed. */
  lemma ProstheticsMeanLabOnly(mode: RunMode, finding: Finding)
    requires ProstheticsOf(finding.facts).used
             || (finding.stored.Parsed? && finding.stored.record.prosthetics.used)
    ensures ExistingOrBackfill(mode, finding).verdict == LabOnly
    ensures ExistingOrBackfill(mode, finding).prosthetics.used
    ensures finding.stored.Parsed? ==>
              ExistingOrBackfill(mode, finding).nextSteps
                == ReplaceSteps(ExistingOrBackfill(mode, finding).prosthetics.items)
  {
  }

  // ----------------------------------------------------------- findings that change

  /** A record refreshed against one version of the finding after another. */
  function RefreshAll(r: Record, fs: seq<Facts>): Record
  {
    if fs == [] then r else Refresh(RefreshAll(r, fs[..|fs| - 1]), fs[|fs| - 1])
  }

  /** What `r` says is still in `n`, apart from what prosthetics override. */
  ghost predicate Survives(r: Record, n: Record)
  {
    && n.mode == r.mode && n.impact == r.impact && n.confidence == r.confidence
    && n.entryPath == r.entryPath && n.replay == r.replay
    && (r.sink.Some? ==> n.sink == r.sink) && (r.source.Some? ==> n.source == r.source)
    && (r.fixLocation.Some? ==> n.fixLocation == r.fixLocation)
    && (r.explanation.Some? ==> n.explanation == r.explanation)
    && (r.cwe != [] ==> n.cwe == r.cwe && n.cweName == r.cweName)
    && (r.patchHints != [] ==> n.patchHints == r.patchHints)
  }

  lemma RefreshSurvives(r: Record, f: Facts)
    ensures Survives(r, Refresh(r, f))
  {
  }

  lemma SurvivesTwice(r: Record, n: Record, m: Record)
    requires Survives(r, n) && Survives(n, m)
    ensures Survives(r, m)
  {
  }

  /** However often and however much the finding changes, what a record says is kept. */
  lemma {:induction false} RefreshOnlyFillsGaps(r: Record, fs: seq<Facts>)
    ensures Survives(r, RefreshAll(r, fs))
  {
    if fs != [] {
      var init := fs[..|fs| - 1];
      RefreshOnlyFillsGaps(r, init);
      RefreshSurvives(RefreshAll(r, init), fs[|fs| - 1]);
      SurvivesTwice(r, RefreshAll(r, init), RefreshAll(r, fs));
    }
  }

  /** The prosthetics last reported, starting from `p`. */
  function LastUsed(p: Prosthetics, fs: seq<Facts>): Prosthetics
  {
    if fs == [] then p
    else if ProstheticsOf(fs[|fs| - 1]).used then ProstheticsOf(fs[|fs| - 1])
    else LastUsed(p, fs[..|fs| - 1])
  }

  lemma {:induction false} LastUsedIff(p: Prosthetics, fs: seq<Facts>)
    ensures LastUsed(p, fs).used <==> p.used || exists i :: 0 <= i < |fs| && ProstheticsOf(fs[i]).used
  {
    if fs != [] {
      var init := fs[..|fs| - 1];
      LastUsedIff(p, init);
      assert forall i :: 0 <= i < |init| ==> init[i] == fs[i];
    }
  }

  /** How prosthetics `p` show in a record `n` that was once `r`. */
  ghost predicate Marked(r: Record, n: Record, p: Prosthetics)
  {
    && n.prosthetics == p
    && (p.used ==> n.verdict == LabOnly && n.nextSteps == ReplaceSteps(p.items))
    && (!p.used ==> n.verdict == r.verdict && n.nextSteps == r.nextSteps)
  }

  lemma OverrideMarks(r: Record, raw: Prosthetics)
    ensures Marked(r, Override(r, raw), if raw.used then raw else r.prosthetics)
  {
  }

  lemma RefreshMarks(r: Record, f: Facts, raw: Prosthetics)
    requires raw == ProstheticsOf(f)
    ensures Marked(r, Refresh(r, f), if raw.used then raw else r.prosthetics)
  {
    OverrideMarks(FillGaps(r, f), raw);
  }

  lemma MarkedTwice(r: Record, n: Record, m: Record, p: Prosthetics, raw: Prosthetics)
    requires Marked(r, n, p) && Marked(n, m, if raw.used then raw else n.prosthetics)
    ensures Marked(r, m, if raw.used then raw else p)
  {
  }

  /** Lab-only is for good: once any version of the finding, or the record itself, reports
      prosthetics, every later record is LabOnly and lists the ones last reported, even
      when later versions report none; until then verdict and steps do not change. */
  lemma {:induction false} LabOnlyIsSticky(r: Record, fs: seq<Facts>)
    requires fs != []
    ensures Marked(r, RefreshAll(r, fs), LastUsed(r.prosthetics, fs))
    ensures LastUsed(r.prosthetics, fs).used
            <==> r.prosthetics.used || exists i :: 0 <= i < |fs| && ProstheticsOf(fs[i]).used
  {
    LastUsedIff(r.prosthetics, fs);
    var init, f := fs[..|fs| - 1], fs[|fs| - 1];
    var n, raw := RefreshAll(r, init), ProstheticsOf(f);
    RefreshMarks(n, f, raw);
    if init != [] {
      LabOnlyIsSticky(r, init);
      MarkedTwice(r, n, Refresh(n, f), LastUsed(r.prosthetics, init), raw);
    }
  }
}
