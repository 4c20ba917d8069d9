/**
 The resumable container-selection matrix: one evidence directory, a checkpoint that
 is rewritten after every finished selection, and a process that may be interrupted
 at any point and resumed any number of times.
 */
module SelectionMatrix {
  import Decimal

  datatype Option<T> = None | Some(value: T)

  /** Where a recorded name leads: `<stage directory>/<file>` in the evidence directory, or
      out of it. */
  datatype Path = Path(dir: string, file: string) | Outside(name: string)

  /** How the steps of one selection ended; later ones are missing when the build failed. */
  datatype Exits = Exits(build: int, smoke: Option<int>, runtime: Option<int>, auto: Option<int>)

  datatype Row = Row(requested: string, exits: Exits, passed: bool, evidence: map<Path, string>)

  datatype Report = Report(schema: nat, commit: string, sourceSha: string, platform: string, auto: bool,
                           selections: seq<string>, results: seq<Row>, remaining: seq<string>)

  /** Stage directories with their files' contents. */
  type Dirs = map<string, map<string, string>>

  // ----------------------------------------------------------- what a checkpoint says

  /** Results are a prefix of the selections and `remaining` is the matching suffix. */
  predicate Progress(r: Report)
  {
    && |r.results| <= |r.selections|
    && (forall i :: 0 <= i < |r.results| ==> r.results[i].requested == r.selections[i])
    && r.remaining == r.selections[|r.results|..]
  }

  predicate FileMatches(dirs: Dirs, sha: string -> string, path: Path, digest: string)
  {
    path.Path? && path.dir in dirs && path.file in dirs[path.dir] && sha(dirs[path.dir][path.file]) == digest
  }

  ghost predicate RowIntact(dirs: Dirs, sha: string -> string, row: Row)
  {
    forall p :: p in row.evidence ==> FileMatches(dirs, sha, p, row.evidence[p])
  }

  ghost predicate Intact(dirs: Dirs, sha: string -> string, rows: seq<Row>)
  {
    forall i :: 0 <= i < |rows| ==> RowIntact(dirs, sha, rows[i])
  }

  /** A selection has passed if all its steps ended well and the automatic control, when asked
      for, left its results in the stage directory. */
  predicate AllWell(exits: Exits, auto: bool, files: map<string, string>)
  {
    && exits.build == 0 && exits.smoke == Some(0) && exits.runtime == Some(0)
    && (auto ==> exits.auto == Some(0) && AUTO_RESULTS in files)
  }

  const AUTO_RESULTS := "auto-results.json"

  /** The row records every file of one stage directory, and nothing else, and its status is
      what its steps say. */
  ghost predicate RowOf(dirs: Dirs, row: Row, stage: string, auto: bool)
  {
    && stage in dirs
    && (forall p :: p in row.evidence <==> p.Path? && p.dir == stage && p.file in dirs[stage])
    && (row.passed <==> AllWell(row.exits, auto, dirs[stage]))
  }

  ghost predicate HasStage(dirs: Dirs, row: Row, auto: bool) { exists stage :: RowOf(dirs, row, stage, auto) }

  ghost predicate Complete(dirs: Dirs, rows: seq<Row>, auto: bool)
  {
    forall i :: 0 <= i < |rows| ==> HasStage(dirs, rows[i], auto)
  }

  /** No two rows have evidence in the same directory. */
  ghost predicate SeparateStages(rows: seq<Row>)
  {
    forall i, j, p, q |
      0 <= i < j < |rows| && p in rows[i].evidence && q in rows[j].evidence && p.Path? && q.Path? ::
      p.dir != q.dir
  }

  ghost predicate Sound(r: Report, dirs: Dirs, sha: string -> string)
  {
    && r.schema == 2 && Progress(r) && Intact(dirs, sha, r.results) && SeparateStages(r.results)
    && Complete(dirs, r.results, r.auto)
  }

  /** What `validate_resume` demands. */
  ghost predicate Resumable(r: Report, dirs: Dirs, sha: string -> string, commit: string, sourceSha: string,
                            wanted: Option<seq<string>>, platform: Option<string>)
  {
    && r.schema == 2 && r.commit == commit && r.sourceSha == sourceSha
    && (platform.Some? ==> r.platform == platform.value)
    && (wanted.Some? ==> wanted.value == r.selections)
    && Progress(r) && Intact(dirs, sha, r.results)
  }

  /** Nothing a checkpoint recorded is lost by a later one. */
  ghost predicate Extends(later: Report, earlier: Report)
  {
    && later.(results := earlier.results, remaining := earlier.remaining) == earlier
    && earlier.results <= later.results
  }

  /** `old` directories are still there, unchanged. */
  ghost predicate Keeps(dirs: Dirs, old_: Dirs) { forall d :: d in old_ ==> d in dirs && dirs[d] == old_[d] }

  lemma IntactKept(dirs: Dirs, old_: Dirs, sha: string -> string, rows: seq<Row>)
    requires Keeps(dirs, old_) && Intact(old_, sha, rows)
    ensures Intact(dirs, sha, rows)
  {
    forall i | 0 <= i < |rows|
      ensures RowIntact(dirs, sha, rows[i])
    {
      assert RowIntact(old_, sha, rows[i]);
    }
  }

  lemma CompleteKept(dirs: Dirs, old_: Dirs, rows: seq<Row>, auto: bool)
    requires Keeps(dirs, old_) && Complete(old_, rows, auto)
    ensures Complete(dirs, rows, auto)
  {
    forall i | 0 <= i < |rows|
      ensures HasStage(dirs, rows[i], auto)
    {
      assert HasStage(old_, rows[i], auto);
      var stage :| RowOf(old_, rows[i], stage, auto);
      assert RowOf(dirs, rows[i], stage, auto);
    }
  }

  lemma CompleteWithRow(dirs: Dirs, rows: seq<Row>, row: Row, stage: string, auto: bool)
    requires Complete(dirs, rows, auto) && RowOf(dirs, row, stage, auto)
    ensures Complete(dirs, rows + [row], auto)
  {
    assert HasStage(dirs, row, auto);
  }

  /** Adding a row whose evidence is in a new directory keeps a checkpoint sound. */
  lemma SoundWithRow(r: Report, row: Row, stage: string, old_: Dirs, dirs: Dirs, sha: string -> string)
    requires Sound(r, old_, sha) && |r.results| < |r.selections| && row.requested == r.selections[|r.results|]
    requires Keeps(dirs, old_) && RowIntact(dirs, sha, row) && RowOf(dirs, row, stage, r.auto) && stage !in old_
    ensures var next := r.(results := r.results + [row], remaining := r.selections[|r.results| + 1..]);
            Sound(next, dirs, sha) && Extends(next, r)
  {
    IntactKept(dirs, old_, sha, r.results);
    CompleteKept(dirs, old_, r.results, r.auto);
    CompleteWithRow(dirs, r.results, row, stage, r.auto);
    var rows := r.results + [row];
    forall i, j, p, q | 0 <= i < j < |rows| && p in rows[i].evidence && q in rows[j].evidence && p.Path? && q.Path?
      ensures p.dir != q.dir
    {
      assert RowIntact(old_, sha, r.results[i]);
      assert p.dir in old_;
    }
  }

  // ------------------------------------------------------------------- stage names

  /** `str(index)`, then `f'{index}-attempt-{attempt}'` from the second attempt. */
  function StageName(index: nat, attempt: nat): string
    requires attempt >= 1
  {
    if attempt == 1 then Decimal.Print(index)
    else Decimal.Print(index) + "-attempt-" + Decimal.Print(attempt)
  }

  lemma StageNamesDiffer(index: nat, a: nat, b: nat)
    requires 1 <= a < b
    ensures StageName(index, a) != StageName(index, b)
  {
    var head := Decimal.Print(index) + "-attempt-";
    if a > 1 && StageName(index, a) == StageName(index, b) {
      assert StageName(index, a)[|head|..] == Decimal.Print(a);
      assert StageName(index, b)[|head|..] == Decimal.Print(b);
      Decimal.PrintInjective(a, b);
    }
  }

  function StageNames(index: nat, n: nat): set<string> { set a: nat | 1 <= a < n :: StageName(index, a) }

  lemma {:induction false} StageNamesCount(index: nat, n: nat)
    requires n >= 1
    ensures |StageNames(index, n)| == n - 1
  {
    if n > 1 {
      StageNamesCount(index, n - 1);
      forall a: nat | 1 <= a < n - 1
        ensures StageName(index, a) != StageName(index, n - 1)
      {
        StageNamesDiffer(index, a, n - 1);
      }
      assert StageNames(index, n) == StageNames(index, n - 1) + {StageName(index, n - 1)};
    }
  }

  /** No more attempts can be taken than there are directories. */
  lemma FewAttempts(index: nat, n: nat, dirs: set<string>)
    requires n >= 1 && forall a: nat :: 1 <= a < n ==> StageName(index, a) in dirs
    ensures n - 1 <= |dirs|
  {
    StageNamesCount(index, n);
    SubsetSize(StageNames(index, n), dirs);
  }

  lemma {:induction false} SubsetSize(a: set<string>, b: set<string>)
    requires a <= b
    ensures |a| <= |b|
  {
    assert b == a + (b - a) && |b| == |a| + |b - a|;
  }

  // ------------------------------------------------------------------ the processes

  /** `Aborted` stops before the directory is touched, `Interrupted` after. */
  datatype Outcome = Refused | Aborted | Interrupted | Finished(code: nat)

  /** One call of the script: its arguments, the source and the lock as it finds them, and
      whether nothing stops it from outside. */
  datatype Call = Call(resume: bool, wanted: Option<seq<string>>, platform: string, auto: Option<bool>,
                       commit: string, sourceSha: string, clean: bool, lockFree: bool, calm: bool)

  /** The selections asked for, or all of them. */
  function Chosen(c: Call, defaults: seq<string>): seq<string>
  {
    if c.wanted.Some? && c.wanted.value != [] then c.wanted.value else defaults
  }

  predicate Supported(platform: string) { platform == "linux/amd64" || platform == "linux/arm64" }

  predicate Started(c: Call, o: Outcome) { !c.resume && o != Refused && o != Aborted }

  class EvidenceDir {
    const sha: string -> string
    var report: Option<Report>  // matrix.json
    var temp: bool              // matrix.json.tmp exists
    var dirs: Dirs

    ghost predicate Valid() reads this { report.Some? ==> Sound(report.value, dirs, sha) }

    predicate Empty() reads this { report.None? && !temp && dirs == map[] }

    /** No checkpoint to resume from, yet not empty enough to start over. */
    predicate Stuck() reads this { report.None? && !Empty() }

    constructor (sha: string -> string)
      ensures Valid() && Empty() && this.sha == sha
    {
      this.sha, report, temp, dirs := sha, None, false, map[];
    }

    /** `persist`: written aside, then renamed over; interruptible between the two. */
    method Persist(r: Report, calm: bool) returns (interrupted: bool)
      modifies this`report, this`temp
      ensures calm ==> !interrupted
      ensures report == old(report) || report == Some(r)
      ensures interrupted ==> report == old(report) && temp
      ensures !interrupted ==> report == Some(r) && !temp
    {
      temp := true;
      interrupted := *;
      interrupted := interrupted && !calm;
      if interrupted { return; }
      report, temp := Some(r), false;
    }

    /** `validate_resume`. */
    method ValidateResume(r: Report, commit: string, sourceSha: string, wanted: Option<seq<string>>,
                          platform: Option<string>) returns (ok: bool)
      ensures ok <==> Resumable(r, dirs, sha, commit, sourceSha, wanted, platform)
    {
      if r.schema != 2 || r.commit != commit || r.sourceSha != sourceSha { return false; }
      if platform.Some? && r.platform != platform.value { return false; }
      if wanted.Some? && wanted.value != r.selections { return false; }
      if !Progress(r) { return false; }
      for i := 0 to |r.results|
        invariant Intact(dirs, sha, r.results[..i])
      {
        var ok := ValidateRow(r.results[i]);
        if !ok { return false; }
      }
      assert r.results[..|r.results|] == r.results;
      ok := true;
    }

    method ValidateRow(row: Row) returns (ok: bool)
      ensures ok <==> RowIntact(dirs, sha, row)
    {
      var todo := row.evidence.Keys;
      while todo != {}
        invariant todo <= row.evidence.Keys
        invariant forall p :: p in row.evidence && p !in todo ==> FileMatches(dirs, sha, p, row.evidence[p])
        decreases |todo|
      {
        var p :| p in todo;
        if !FileMatches(dirs, sha, p, row.evidence[p]) { return false; }
        todo := todo - {p};
      }
      ok := true;
    }

    /** The attempt loop: the first stage name that does not exist yet. */
    method ChooseStage(index: nat) returns (stage: string, ghost attempt_: nat)
      ensures stage !in dirs && attempt_ >= 1 && stage == StageName(index, attempt_)
      ensures forall a: nat :: 1 <= a < attempt_ ==> StageName(index, a) in dirs
    {
      var attempt := 1;
      stage := StageName(index, 1);
      while stage in dirs
        invariant attempt >= 1 && stage == StageName(index, attempt)
        invariant forall a: nat :: 1 <= a < attempt ==> StageName(index, a) in dirs
        decreases |dirs.Keys| + 1 - attempt
      {
        attempt := attempt + 1;
        stage := StageName(index, attempt);
        FewAttempts(index, attempt, dirs.Keys);
      }
      attempt_ := attempt;
    }

    /** The build and the smoke runs write files into the stage directory. */
    method WriteFiles(stage: string, calm: bool) returns (interrupted: bool)
      requires stage in dirs
      modifies this`dirs
      ensures calm ==> !interrupted
      ensures stage in dirs && forall d :: d in old(dirs) && d != stage ==> d in dirs && dirs[d] == old(dirs)[d]
    {
      var writes: nat :| true;
      for i := 0 to writes
        invariant stage in dirs && forall d :: d in old(dirs) && d != stage ==> d in dirs && dirs[d] == old(dirs)[d]
      {
        var name: string, content: string := *, *;
        dirs := dirs[stage := dirs[stage][name := content]];
        if * { return !calm; }
      }
      interrupted := *;
      interrupted := interrupted && !calm;
    }

    /** The steps of one selection, each only if those before it allow it. */
    method RunSteps(auto: bool) returns (exits: Exits)
      ensures exits.build != 0 ==> exits.smoke.None? && exits.runtime.None? && exits.auto.None?
      ensures exits.build == 0 ==> exits.smoke.Some? && exits.runtime.Some? && (exits.auto.Some? <==> auto)
    {
      var build: int := *;
      exits := Exits(build, None, None, None);
      if build == 0 {
        var smoke: int, runtime: int, control: int := *, *, *;
        exits := Exits(0, Some(smoke), Some(runtime), if auto then Some(control) else None);
      }
    }

    /** The status of a row, as the script assigns it step by step. */
    method Judge(exits: Exits, auto: bool, files: map<string, string>) returns (passed: bool)
      ensures passed <==> AllWell(exits, auto, files)
    {
      passed := false;
      if exits.build == 0 {
        passed := exits.smoke == exits.runtime == Some(0);
        if auto && (exits.auto != Some(0) || AUTO_RESULTS !in files) { passed := false; }
      }
    }

    /** One selection: a new stage directory, files written into it by the build and the
        smoke runs, then the row with their hashes. May stop anywhere. */
    method RunSelection(index: nat, selection: string, auto: bool, calm: bool)
      returns (interrupted: bool, row: Row, ghost stage_: string)
      modifies this`dirs
      ensures calm ==> !interrupted
      ensures Keeps(dirs, old(dirs))
      ensures !interrupted ==> row.requested == selection && RowIntact(dirs, sha, row)
                               && RowOf(dirs, row, stage_, auto) && stage_ !in old(dirs)
    {
      var exits := RunSteps(auto);
      row := Row(selection, exits, false, map[]);
      var stage, attempt := ChooseStage(index);
      stage_ := stage;
      dirs := dirs[stage := map[]];
      interrupted := WriteFiles(stage, calm);
      if interrupted { return; }
      var passed := Judge(exits, auto, dirs[stage]);
      row := Row(selection, exits, passed, map f | f in dirs[stage] :: Path(stage, f) := sha(dirs[stage][f]));
    }

    /** What `--resume` demands of the directory. */
    ghost predicate CanResume(c: Call)
      reads this
    {
      && report.Some?
      && Resumable(report.value, dirs, sha, c.commit, c.sourceSha, c.wanted, Some(c.platform))
      && (c.auto.Some? ==> c.auto.value == report.value.auto)
    }

    /** Every fresh start that began to write either left a stuck directory or can be resumed
        by the same call. */
    ghost predicate Resumes(calls: seq<Call>, outcomes: seq<Outcome>)
      reads this
    {
      |calls| == |outcomes| && forall i :: 0 <= i < |calls| && Started(calls[i], outcomes[i]) ==> Continues(calls[i])
    }

    ghost predicate Continues(c: Call)
      reads this
    {
      Stuck() || (report.Some? && (c.wanted != Some([]) ==> CanResume(c.(resume := true))))
    }

    /** One invocation of the script. */
    method Invoke(c: Call, defaults: seq<string>) returns (outcome: Outcome)
      requires Valid()
      modifies this
      ensures Valid() && Keeps(dirs, old(dirs))
      ensures old(report).Some? ==> report.Some? && Extends(report.value, old(report).value)
      ensures outcome == Refused || outcome == Aborted ==>
                report == old(report) && temp == old(temp) && dirs == old(dirs)
      ensures outcome == Refused <==>
              !c.lockFree || !c.clean || c.platform !in ["linux/amd64", "linux/arm64"]
              || (if c.resume then !old(CanResume(c)) else !old(Empty()))
      // only a checkpoint of the same source, platform and selections is ever continued
      ensures c.resume && outcome != Refused ==>
                && old(report).Some? && old(report).value.commit == c.commit
                && old(report).value.sourceSha == c.sourceSha && old(report).value.platform == c.platform
                && (c.wanted.Some? ==> old(report).value.selections == c.wanted.value)
                && Intact(old(dirs), sha, old(report).value.results)
      // what could be resumed before still can, and what a fresh start leaves can be resumed
      ensures forall d: Call :: old(CanResume(d)) ==> CanResume(d)
      ensures forall d: Call :: old(Continues(d)) ==> Continues(d)
      ensures Started(c, outcome) ==> Continues(c)
      ensures !c.resume && old(report).None? && report.Some? ==>
                && report.value.selections == Chosen(c, defaults) && report.value.auto == (c.auto == Some(true))
                && (c.wanted != Some([]) ==> CanResume(c.(resume := true)))
      // a run that is not refused and not stopped works through all its selections
      ensures c.calm && outcome != Refused ==> outcome.Finished?
      ensures old(Stuck()) ==> outcome == Refused
      ensures Stuck() && !old(Stuck()) <==> !c.resume && outcome == Interrupted && report.None?
      ensures Stuck() && !old(Stuck()) ==> temp && dirs == map[]
      ensures outcome.Finished? ==> report.Some? && |report.value.results| == |report.value.selections|
                                    && (outcome.code == 0 <==> forall row :: row in report.value.results ==> row.passed)
    {
      outcome := Refused;
      if !Supported(c.platform) || !c.lockFree { return; }
      if !c.resume && !Empty() { return; }
      if !c.clean { return; }
      var r: Report;
      if c.resume {
        if report.None? { return; }
        r := report.value;
        var ok := ValidateResume(r, c.commit, c.sourceSha, c.wanted, Some(c.platform));
        if !ok { return; }
        if c.auto.Some? && c.auto.value != r.auto { return; }
      } else {
        var selections := Chosen(c, defaults);
        r := Report(2, c.commit, c.sourceSha, c.platform, c.auto == Some(true), selections, [], selections);
      }
      if !c.calm {
        if * { return Aborted; }
      }
      outcome := RunFrom(r, c.calm);
    }

    /** The body of the checkpoint loop for the next selection. */
    method RunNext(r: Report, calm: bool) returns (interrupted: bool, next: Report)
      requires report == Some(r) && Sound(r, dirs, sha) && |r.results| < |r.selections|
      modifies this
      ensures Valid() && Keeps(dirs, old(dirs)) && report.Some? && Extends(report.value, r)
      ensures !interrupted ==> report == Some(next) && |next.results| == |r.results| + 1
      ensures calm ==> !interrupted
    {
      next := r;
      if !calm {
        if * { return true, r; }
      }
      var row;
      ghost var stage;
      interrupted, row, stage := RunSelection(|r.results|, r.selections[|r.results|], r.auto, calm);
      IntactKept(dirs, old(dirs), sha, r.results);
      CompleteKept(dirs, old(dirs), r.results, r.auto);
      if interrupted { return; }
      SoundWithRow(r, row, stage, old(dirs), dirs, sha);
      next := r.(results := r.results + [row], remaining := r.selections[|r.results| + 1..]);
      interrupted := Persist(next, calm);
    }

    method RunFrom(start: Report, calm: bool) returns (outcome: Outcome)
      requires Sound(start, dirs, sha) && (report.None? || report.value == start)
      modifies this
      ensures Valid() && Keeps(dirs, old(dirs)) && outcome != Refused && outcome != Aborted
      ensures report.None? ==> old(report).None? && outcome == Interrupted && temp && dirs == old(dirs)
      ensures report.Some? ==> Extends(report.value, start)
      ensures calm ==> outcome.Finished?
      ensures outcome.Finished? ==> report.Some? && |report.value.results| == |report.value.selections|
                                    && (outcome.code == 0 <==> forall row :: row in report.value.results ==> row.passed)
    {
      outcome := Interrupted;
      var r := start;
      var interrupted := Persist(r, calm);
      if interrupted { return; }
      while |r.results| < |r.selections|
        invariant report == Some(r) && Valid() && Extends(r, start) && Keeps(dirs, old(dirs))
        invariant |r.results| <= |r.selections|
      {
        interrupted, r := RunNext(r, calm);
        if interrupted { return; }
      }
      outcome := Finished(if forall row :: row in r.results ==> row.passed then 0 else 1);
    }
  }

  /** Any number of calls, interrupted anywhere: every checkpoint on disk is one that
      `validate_resume` accepts for its own source, its rows are a prefix in order with
      separate evidence, and recorded evidence never changes. Once a fresh start has left a
      checkpoint, the same call with `--resume` can be continued, whatever happens between. */
  method AnyHistory(dir: EvidenceDir, defaults: seq<string>, calls: seq<Call>) returns (outcomes: seq<Outcome>)
    requires dir.Valid()
    modifies dir
    ensures dir.Valid() && Keeps(dir.dirs, old(dir.dirs))
    ensures old(dir.report).Some? ==> dir.report.Some? && Extends(dir.report.value, old(dir.report).value)
    ensures dir.report.Some? ==> var r := dir.report.value;
              Resumable(r, dir.dirs, dir.sha, r.commit, r.sourceSha, Some(r.selections), Some(r.platform))
    ensures |outcomes| == |calls| && dir.Resumes(calls, outcomes)
  {
    outcomes := [];
    for i := 0 to |calls|
      invariant dir.Valid() && Keeps(dir.dirs, old(dir.dirs))
      invariant old(dir.report).Some? ==> dir.report.Some? && Extends(dir.report.value, old(dir.report).value)
      invariant |outcomes| == i && dir.Resumes(calls[..i], outcomes)
    {
      var o := dir.Invoke(calls[i], defaults);
      outcomes := outcomes + [o];
    }
    assert calls[..|calls|] == calls;
  }
}
