/** Model of internal/stats/stats.go: the run-level statistics of one
    command run, built with functional options and updated by nil-safe
    helpers.

    Timestamps are integers (milliseconds), 0 standing for Go's zero
    `time.Time`, and each `time.Now()` reading is a parameter. A nil
    `*Stats` receiver is a null `Stats?`; a nil `Option` is `None` in the
    option list; a nil `*PlanSnapshot` is `None`. */
module StatsRun {
  import opened Wrappers
  import opened GoStrings
  import StatsPlan

  /** RunStats. */
  datatype RunStats = RunStats(
    startedAt: int, endedAt: int, durationMS: int,
    runId: string, inputPath: string, outDir: string, toolVersion: string, irSchema: string,
    warnings: int, errors: int)

  /** The option constructors of the package; each stands for the closure it returns. */
  datatype StatsOption =
    | WithStartedAt(t: int)
    | WithRunID(id: string)
    | WithInputPath(p: string)
    | WithOutDir(p: string)
    | WithToolVersion(v: string)
    | WithIRSchema(v: string)
    | WithWarnErr(warn: int, err: int)

  /** The five text fields are free of leading and trailing white space. */
  predicate Trimmed(rs: RunStats) {
    && TrimSpace(rs.runId) == rs.runId && TrimSpace(rs.inputPath) == rs.inputPath
    && TrimSpace(rs.outDir) == rs.outDir && TrimSpace(rs.toolVersion) == rs.toolVersion
    && TrimSpace(rs.irSchema) == rs.irSchema
  }

  /** What the closure of `o` does to the RunStats it is given: a zero start
      time is ignored, text arguments are stored trimmed, and warning/error
      counts are stored only when strictly positive. */
  function ApplyOption(rs: RunStats, o: StatsOption): (r: RunStats)
    ensures r.endedAt == rs.endedAt && r.durationMS == rs.durationMS
    ensures Trimmed(rs) ==> Trimmed(r)
    ensures r.startedAt == rs.startedAt || (o == WithStartedAt(r.startedAt) && r.startedAt != 0)
    ensures r.warnings == rs.warnings || (o.WithWarnErr? && r.warnings == o.warn > 0)
    ensures r.errors == rs.errors || (o.WithWarnErr? && r.errors == o.err > 0)
    ensures o.WithStartedAt? && o.t != 0 ==> r.startedAt == o.t
    ensures o.WithRunID? ==> r.runId == TrimSpace(o.id)
    ensures o.WithInputPath? ==> r.inputPath == TrimSpace(o.p)
    ensures o.WithOutDir? ==> r.outDir == TrimSpace(o.p)
    ensures o.WithToolVersion? ==> r.toolVersion == TrimSpace(o.v)
    ensures o.WithIRSchema? ==> r.irSchema == TrimSpace(o.v)
    ensures o.WithWarnErr? && o.warn > 0 ==> r.warnings == o.warn
    ensures o.WithWarnErr? && o.err > 0 ==> r.errors == o.err
    ensures !o.WithStartedAt? ==> r.startedAt == rs.startedAt
    ensures !o.WithRunID? ==> r.runId == rs.runId
    ensures !o.WithInputPath? ==> r.inputPath == rs.inputPath
    ensures !o.WithOutDir? ==> r.outDir == rs.outDir
    ensures !o.WithToolVersion? ==> r.toolVersion == rs.toolVersion
    ensures !o.WithIRSchema? ==> r.irSchema == rs.irSchema
    ensures !o.WithWarnErr? ==> r.warnings == rs.warnings && r.errors == rs.errors
  {
    match o
    case WithStartedAt(t) => if t != 0 then rs.(startedAt := t) else rs
    case WithRunID(id) => TrimSpaceIdempotent(id); rs.(runId := TrimSpace(id))
    case WithInputPath(p) => TrimSpaceIdempotent(p); rs.(inputPath := TrimSpace(p))
    case WithOutDir(p) => TrimSpaceIdempotent(p); rs.(outDir := TrimSpace(p))
    case WithToolVersion(v) => TrimSpaceIdempotent(v); rs.(toolVersion := TrimSpace(v))
    case WithIRSchema(v) => TrimSpaceIdempotent(v); rs.(irSchema := TrimSpace(v))
    case WithWarnErr(warn, err) =>
      var afterWarn := if warn > 0 then rs.(warnings := warn) else rs;
      if err > 0 then afterWarn.(errors := err) else afterWarn
  }

  /** The options applied left to right, nil ones skipped. */
  function ApplyAll(rs: RunStats, opts: seq<Option<StatsOption>>): RunStats
    decreases |opts|
  {
    if opts == [] then rs
    else
      var before := ApplyAll(rs, opts[..|opts| - 1]);
      match opts[|opts| - 1]
      case None => before
      case Some(o) => ApplyOption(before, o)
  }

  /** New's defaults: started now, everything else zero. */
  function Defaults(now: int): RunStats {
    RunStats(now, 0, 0, "", "", "", "", "", 0, 0)
  }

  /** A nil option anywhere in the list changes nothing. */
  lemma {:induction false} NilOptionSkipped(rs: RunStats, a: seq<Option<StatsOption>>, b: seq<Option<StatsOption>>)
    ensures ApplyAll(rs, a + [None] + b) == ApplyAll(rs, a + b)
    decreases |b|
  {
    if b == [] {
      assert (a + [None] + b)[..|a + [None] + b| - 1] == a;
      assert a + b == a;
    } else {
      var front := b[..|b| - 1];
      assert (a + [None] + b)[..|a + [None] + b| - 1] == a + [None] + front;
      assert (a + b)[..|a + b| - 1] == a + front;
      NilOptionSkipped(rs, a, front);
    }
  }

  /** Options never touch the end time or the duration, never clear a set
      start time, keep text fields trimmed, and never make a count negative;
      every field either keeps its value or takes one an option supplied. */
  lemma {:induction false} ApplyAllKeeps(rs: RunStats, opts: seq<Option<StatsOption>>)
    ensures var r := ApplyAll(rs, opts);
      && r.endedAt == rs.endedAt && r.durationMS == rs.durationMS
      && (rs.startedAt != 0 ==> r.startedAt != 0)
      && (r.startedAt == rs.startedAt || exists i :: 0 <= i < |opts| && opts[i] == Some(WithStartedAt(r.startedAt)))
      && (Trimmed(rs) ==> Trimmed(r))
      && (rs.warnings >= 0 ==> r.warnings >= 0)
      && (rs.errors >= 0 ==> r.errors >= 0)
    decreases |opts|
  {
    if opts != [] {
      var front := opts[..|opts| - 1];
      ApplyAllKeeps(rs, front);
      var r := ApplyAll(rs, opts);
      var before := ApplyAll(rs, front);
      if r.startedAt != before.startedAt {
        assert opts[|opts| - 1] == Some(WithStartedAt(r.startedAt));
      } else if r.startedAt != rs.startedAt {
        var i :| 0 <= i < |front| && front[i] == Some(WithStartedAt(r.startedAt));
        assert opts[i] == front[i];
      }
    }
  }

  /** What New builds: the start time is `now` unless an option gave a
      non-zero one, the text fields are trimmed, the counts are not
      negative, and no end time or duration is set. */
  lemma NewDefaults(now: int, opts: seq<Option<StatsOption>>)
    ensures var r := ApplyAll(Defaults(now), opts);
      && r.endedAt == 0 && r.durationMS == 0
      && (now != 0 ==> r.startedAt != 0)
      && (r.startedAt == now || exists i :: 0 <= i < |opts| && opts[i] == Some(WithStartedAt(r.startedAt)))
      && Trimmed(r)
      && r.warnings >= 0 && r.errors >= 0
  {
    assert Trimmed(Defaults(now)) by {
      assert TrimSpace("") == "";
    }
    ApplyAllKeeps(Defaults(now), opts);
  }

  /** The option loop of New. */
  method ApplyOptions(rs: RunStats, opts: seq<Option<StatsOption>>) returns (r: RunStats)
    ensures r == ApplyAll(rs, opts)
  {
    r := rs;
    var i := 0;
    while i < |opts|
      invariant 0 <= i <= |opts|
      invariant r == ApplyAll(rs, opts[..i])
    {
      assert opts[..i + 1][..i] == opts[..i];
      var opt := opts[i];
      if opt.Some? {
        r := ApplyOption(r, opt.value);
      }
      i := i + 1;
    }
    assert opts[..i] == opts;
  }

  /** Stats: the run's statistics and, once set, the plan snapshot. */
  class Stats {
    var run: RunStats
    var plan: Option<StatsPlan.PlanSnapshot>

    constructor (rs: RunStats)
      ensures run == rs && plan == None
    {
      run, plan := rs, None;
    }
  }

  /** New: defaults, then the options in order. */
  method New(opts: seq<Option<StatsOption>>, now: int) returns (s: Stats)
    ensures fresh(s) && s.run == ApplyAll(Defaults(now), opts) && s.plan == None
  {
    var rs := ApplyOptions(Defaults(now), opts);
    s := new Stats(rs);
  }

  /** End: stamp the end time, and the duration when a start time is set.
      A nil receiver is left alone. */
  method End(s: Stats?, now: int)
    modifies s
    ensures s != null ==> s.plan == old(s.plan)
    ensures s != null ==> s.run == old(s.run).(
      endedAt := now,
      durationMS := if old(s.run.startedAt) != 0 then now - old(s.run.startedAt) else old(s.run.durationMS))
  {
    if s == null {
      return;
    }
    s.run := s.run.(endedAt := now);
    if s.run.startedAt != 0 {
      s.run := s.run.(durationMS := s.run.endedAt - s.run.startedAt);
    }
  }

  /** The amount IncWarnings and IncErrors add: n, or 1 when n is not positive. */
  function Bump(n: int): (b: int)
    ensures b >= 1
    ensures n > 0 ==> b == n
  {
    if n <= 0 then 1 else n
  }

  /** IncWarnings: a nil receiver is left alone; otherwise the warning count
      grows by n, or by 1 when n is not positive, so it always grows. */
  method IncWarnings(s: Stats?, n: int)
    modifies s
    ensures s != null ==> s.plan == old(s.plan)
    ensures s != null ==> s.run == old(s.run).(warnings := old(s.run.warnings) + Bump(n))
    ensures s != null ==> s.run.warnings > old(s.run.warnings)
  {
    if s == null {
      return;
    }
    var k := n;
    if k <= 0 {
      k := 1;
    }
    s.run := s.run.(warnings := s.run.warnings + k);
  }

  /** IncErrors: as IncWarnings, for the error count. */
  method IncErrors(s: Stats?, n: int)
    modifies s
    ensures s != null ==> s.plan == old(s.plan)
    ensures s != null ==> s.run == old(s.run).(errors := old(s.run.errors) + Bump(n))
    ensures s != null ==> s.run.errors > old(s.run.errors)
  {
    if s == null {
      return;
    }
    var k := n;
    if k <= 0 {
      k := 1;
    }
    s.run := s.run.(errors := s.run.errors + k);
  }

  /** SetPlanSnapshot: with both a receiver and a plan, store a snapshot of
      the plan; otherwise do nothing. The plan itself is not changed. */
  method SetPlanSnapshot(s: Stats?, p: StatsPlan.Plan?)
    modifies s
    ensures s != null && p != null ==> s.run == old(s.run) && s.plan.Some? && p.IsSnapshotOf(s.plan.value)
    ensures s != null && p == null ==> s.run == old(s.run) && s.plan == old(s.plan)
  {
    if s == null || p == null {
      return;
    }
    var snap := p.Snapshot();
    s.plan := Some(snap);
  }

  /** SetPlan: replace the stored snapshot (possibly with none). */
  method SetPlan(s: Stats?, ps: Option<StatsPlan.PlanSnapshot>)
    modifies s
    ensures s != null ==> s.run == old(s.run) && s.plan == ps
  {
    if s == null {
      return;
    }
    s.plan := ps;
  }
}
