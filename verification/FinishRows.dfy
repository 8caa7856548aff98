/** What the aggregator's transaction does to rows, freeze marks and the baseline. */
module FinishRows {
  import opened Calendar
  import opened Registers
  import opened Energy
  import opened Plan
  import opened Ledger
  import opened World
  import opened PollStep
  import opened FinishValues

  // ---- rows ----

  /** A row in a frozen period, or outside the aggregator's domain, is left alone. */
  lemma {:induction false} BatchesFrame(reg: Registry, m: Meta, rows: Rows, bs: seq<Batch>, c: Cell)
    requires !ComputedAccepted(reg, m, c.level, c.key, c.period)
    ensures SameCell(ApplyBatches(reg, m, rows, bs), rows, c)
  {
    if bs != [] {
      BatchesFrame(reg, m, rows, bs[..|bs| - 1], c);
    }
  }

  predicate BatchOf(b: Batch, c: Cell) {
    b.level == c.level && b.period == c.period
  }

  /** A row the aggregator may write ends up with the value its period's batch holds. */
  lemma {:induction false} BatchesWrite(reg: Registry, m: Meta, rows: Rows, bs: seq<Batch>, c: Cell, v: int)
    requires ComputedAccepted(reg, m, c.level, c.key, c.period)
    requires exists b :: b in bs && BatchOf(b, c)
    requires forall b :: b in bs && BatchOf(b, c) ==> c.key in b.vals && b.vals[c.key] == v
    ensures var out := ApplyBatches(reg, m, rows, bs); c in out && out[c] == v
  {
    var n := |bs| - 1;
    if BatchOf(bs[n], c) {
      assert bs[n] in bs;
    } else {
      forall b | b in bs[..n] ensures b in bs { }
      assert forall b :: b in bs ==> b in bs[..n] || b == bs[n];
      BatchesWrite(reg, m, rows, bs[..n], c, v);
    }
  }

  lemma JobsHaveKeys(p: Period, w: Watermarks, l: Level, ks: seq<int>, j: Job)
    requires forall i :: 0 <= i < |ks| ==> ks[i] >= 0
    requires j in JobsFor(p, w, l, ks)
    ensures j.level == l && j.key >= 0 && j == JobFor(p, w, l, j.key)
  {
  }

  lemma BatchesAreJobs(reg: Registry, jobs: seq<Job>, offsets: map<Cell, int>, got: Reads, b: Batch)
    requires b in JobBatches(reg, jobs, offsets, got)
    ensures exists j :: j in jobs && b == Batch(j.level, j.key, JobValues(reg, j, offsets, got))
  {
    var bs := JobBatches(reg, jobs, offsets, got);
    var i :| 0 <= i < |bs| && bs[i] == b;
    assert jobs[i] in jobs;
  }

  /** A level's jobs in a plan. */
  function JobsAt(plan: Plan, l: Level): seq<Job> {
    match l
    case Daily => plan.days
    case Monthly => plan.months
    case Yearly => plan.years
    case Total => []
  }

  lemma PlanJobIs(p: Period, w: Watermarks, l: Level, j: Job)
    requires p.day >= MAX_NET_DAYS && w.Marks() && j in JobsAt(PlanFor(p, w), l)
    ensures j.level == l && j.key >= 0 && j == JobFor(p, w, l, j.key)
  {
    match l
    case Daily => JobsHaveKeys(p, w, l, Range(NetFloor(p, w) + 1, p.day), j);
    case Monthly => JobsHaveKeys(p, w, l, OpenPeriods(w.frozenMonth, p.month), j);
    case Yearly => JobsHaveKeys(p, w, l, OpenPeriods(w.frozenYear, p.year), j);
    case Total =>
  }

  function GatherOf(reg: Registry, r: Run): Computed
    requires r.p.day >= MAX_NET_DAYS && r.st.Marks(reg).Marks() && r.st.baselineYear >= NONE
  {
    Gather(reg, r.st, r.p, RunPlan(reg, r), r.got)
  }

  /** The values a run writes to the total rows. */
  function RunTotals(reg: Registry, r: Run): Values
    requires r.p.day >= MAX_NET_DAYS && r.st.Marks(reg).Marks() && r.st.baselineYear >= NONE
  {
    FoldedYearBounds(RunPlan(reg, r).years, r.st.baselineYear);
    TotalValues(reg, r.p, FoldedBase(r.st.baseline, YearFolds(reg, RunPlan(reg, r).years, r.st.baselineYear, r.got)),
      FoldedYear(RunPlan(reg, r).years, r.st.baselineYear), r.got)
  }

  lemma BatchesOf(reg: Registry, r: Run, b: Batch)
    requires RunReady(reg, r) && b in GatherOf(reg, r).batches
    ensures b == Batch(Total, NONE, RunTotals(reg, r))
      || exists l :: Frozenable(l) && b in JobBatches(reg, JobsAt(RunPlan(reg, r), l), r.st.offsets, r.got)
  {
    var plan := RunPlan(reg, r);
    var days, months, years := JobBatches(reg, plan.days, r.st.offsets, r.got),
      JobBatches(reg, plan.months, r.st.offsets, r.got), JobBatches(reg, plan.years, r.st.offsets, r.got);
    InOneOf(days, months, years, [Batch(Total, NONE, RunTotals(reg, r))], b);
    assert Frozenable(Daily) && plan.days == JobsAt(plan, Daily);
    assert Frozenable(Monthly) && plan.months == JobsAt(plan, Monthly);
    assert Frozenable(Yearly) && plan.years == JobsAt(plan, Yearly);
  }

  lemma GatherSplit(reg: Registry, r: Run, b: Batch)
    requires RunReady(reg, r) && b in GatherOf(reg, r).batches && b.level != Total
    ensures exists l :: Frozenable(l) && b in JobBatches(reg, JobsAt(RunPlan(reg, r), l), r.st.offsets, r.got)
  {
    BatchesOf(reg, r, b);
  }

  lemma InOneOf<T>(a: seq<T>, b: seq<T>, c: seq<T>, d: seq<T>, x: T)
    ensures x in a + b + c + d <==> x in a || x in b || x in c || x in d
  {
  }

  /** A run writes one set of values per period: those of its job. */
  lemma GatheredValues(reg: Registry, r: Run, b: Batch)
    requires RunReady(reg, r) && b in GatherOf(reg, r).batches && b.level != Total
    ensures b.period >= 0
    ensures b.vals == JobValues(reg, JobFor(r.p, r.st.Marks(reg), b.level, b.period), r.st.offsets, r.got)
  {
    GatherSplit(reg, r, b);
    var l :| Frozenable(l) && b in JobBatches(reg, JobsAt(RunPlan(reg, r), l), r.st.offsets, r.got);
    BatchesAreJobs(reg, JobsAt(RunPlan(reg, r), l), r.st.offsets, r.got, b);
    var j :| j in JobsAt(RunPlan(reg, r), l) && b == Batch(j.level, j.key, JobValues(reg, j, r.st.offsets, r.got));
    PlanJobIs(r.p, r.st.Marks(reg), l, j);
  }

  lemma JobIsGathered(reg: Registry, r: Run, l: Level, j: Job)
    requires RunReady(reg, r) && j in JobsAt(RunPlan(reg, r), l)
    ensures Batch(j.level, j.key, JobValues(reg, j, r.st.offsets, r.got)) in GatherOf(reg, r).batches
  {
    var plan := RunPlan(reg, r);
    var jobs := JobsAt(plan, l);
    var i :| 0 <= i < |jobs| && jobs[i] == j;
    var bs := JobBatches(reg, jobs, r.st.offsets, r.got);
    var b := bs[i];
    assert b in bs;
    LevelIsGathered(reg, r, l, b);
  }

  lemma LevelIsGathered(reg: Registry, r: Run, l: Level, b: Batch)
    requires RunReady(reg, r) && b in JobBatches(reg, JobsAt(RunPlan(reg, r), l), r.st.offsets, r.got)
    ensures b in GatherOf(reg, r).batches
  {
    var plan := RunPlan(reg, r);
    var days, months, years := JobBatches(reg, plan.days, r.st.offsets, r.got),
      JobBatches(reg, plan.months, r.st.offsets, r.got), JobBatches(reg, plan.years, r.st.offsets, r.got);
    InOneOf(days, months, years, [Batch(Total, NONE, RunTotals(reg, r))], b);
  }

  /** The row of a job's key after the transaction holds the job's value. */
  lemma JobRowWritten(reg: Registry, m: Meta, rows: Rows, r: Run, l: Level, j: Job, key: string)
    requires RunReady(reg, r) && j in JobsAt(RunPlan(reg, r), l) && l != Total
    requires InDomain(reg, l, key) && j.key > m.Frozen(l)
    requires key in JobValues(reg, j, r.st.offsets, r.got)
    ensures var out := ApplyBatches(reg, m, rows, GatherOf(reg, r).batches);
      Cell(l, key, j.key) in out && out[Cell(l, key, j.key)] == JobValues(reg, j, r.st.offsets, r.got)[key]
  {
    PlanJobIs(r.p, r.st.Marks(reg), l, j);
    JobIsGathered(reg, r, l, j);
    var bs, c := GatherOf(reg, r).batches, Cell(l, key, j.key);
    var own := Batch(j.level, j.key, JobValues(reg, j, r.st.offsets, r.got));
    assert own in bs && BatchOf(own, c);
    forall b | b in bs && BatchOf(b, c)
      ensures b.vals == own.vals
    {
      GatheredValues(reg, r, b);
    }
    BatchesWrite(reg, m, rows, bs, c, own.vals[key]);
  }

  // ---- freeze marks ----

  lemma {:induction false} FreezesOfJobs(jobs: seq<Job>, f: Freeze)
    ensures f in JobFreezes(jobs) <==> exists j :: j in jobs && j.freeze && f == Freeze(j.level, j.key)
  {
    if jobs != [] {
      var n := |jobs| - 1;
      FreezesOfJobs(jobs[..n], f);
      assert jobs == jobs[..n] + [jobs[n]];
    }
  }

  /** Marks only advance, to the latest of the freezes. */
  lemma {:induction false} FreezesAdvance(m: Meta, fs: seq<Freeze>, l: Level)
    ensures var m' := ApplyFreezes(m, fs);
      && m' == m.(frozen := m'.frozen) && m'.Frozen(l) >= m.Frozen(l)
      && (forall f :: f in fs && f.level == l ==> f.period <= m'.Frozen(l))
      && (m'.Frozen(l) == m.Frozen(l) || exists f :: f in fs && f.level == l && f.period == m'.Frozen(l))
  {
    if fs != [] {
      var n := |fs| - 1;
      FreezesAdvance(m, fs[..n], l);
      assert fs == fs[..n] + [fs[n]];
    }
  }

  lemma GatheredFreezes(reg: Registry, r: Run, l: Level, f: Freeze)
    requires RunReady(reg, r) && f.level == l && Frozenable(l)
    ensures f in GatherOf(reg, r).freezes <==>
      exists j :: j in JobsAt(RunPlan(reg, r), l) && j.freeze && j.key == f.period
  {
    var plan, marks := RunPlan(reg, r), r.st.Marks(reg);
    FreezesOfJobs(plan.days, f);
    FreezesOfJobs(plan.months, f);
    FreezesOfJobs(plan.years, f);
    forall k: Level, j | j in JobsAt(plan, k)
      ensures j.level == k
    {
      PlanJobIs(r.p, marks, k, j);
    }
    assert plan.days == JobsAt(plan, Daily) && plan.months == JobsAt(plan, Monthly)
      && plan.years == JobsAt(plan, Yearly);
  }

  // ---- the baseline ----

  lemma {:induction false} FoldsApply(reg: Registry, m: Meta, jobs: seq<Job>, got: Reads)
    ensures var m' := ApplyFolds(m, YearFolds(reg, jobs, m.baselineYear, got));
      && m' == m.(baseline := m'.baseline, baselineYear := m'.baselineYear)
      && m'.baselineYear == FoldedYear(jobs, m.baselineYear)
      && m'.baseline == FoldedBase(m.baseline, YearFolds(reg, jobs, m.baselineYear, got))
  {
    if jobs != [] {
      var n := |jobs| - 1;
      var y := m.baselineYear;
      var before, all := YearFolds(reg, jobs[..n], y, got), YearFolds(reg, jobs, y, got);
      FoldsApply(reg, m, jobs[..n], got);
      YearFoldsOneMore(reg, jobs, y, got);
      if jobs[n].freeze && jobs[n].key > FoldedYear(jobs[..n], y) {
        LastFold(m, before, BaselineFold(jobs[n].key, YearAdd(reg, jobs[n], got)));
      } else {
        assert all == before;
      }
    }
  }

  lemma YearFoldsOneMore(reg: Registry, jobs: seq<Job>, y: int, got: Reads)
    requires jobs != []
    ensures var before, j := jobs[..|jobs| - 1], jobs[|jobs| - 1];
      YearFolds(reg, jobs, y, got) == YearFolds(reg, before, y, got)
        + if j.freeze && j.key > FoldedYear(before, y) then [BaselineFold(j.key, YearAdd(reg, j, got))] else []
  {
  }

  lemma LastFold(m: Meta, before: seq<BaselineFold>, f: BaselineFold)
    ensures ApplyFolds(m, before + [f]) == ApplyFold(ApplyFolds(m, before), f)
    ensures FoldedBase(m.baseline, before + [f]) == Folded(FoldedBase(m.baseline, before), f.add)
  {
    assert (before + [f])[..|before|] == before;
  }

  lemma {:induction false} FoldedYearReaches(jobs: seq<Job>, baseYear: int)
    ensures forall j :: j in jobs && j.freeze ==> j.key <= FoldedYear(jobs, baseYear)
    ensures FoldedYear(jobs, baseYear) == baseYear
         || exists j :: j in jobs && j.freeze && j.key == FoldedYear(jobs, baseYear)
  {
    if jobs != [] {
      var n := |jobs| - 1;
      FoldedYearReaches(jobs[..n], baseYear);
      assert jobs == jobs[..n] + [jobs[n]];
    }
  }

  /** The baseline of a total key after the year jobs. */
  function BaseAfter(
    reg: Registry, jobs: seq<Job>, baseYear: int, base: Values, got: Reads, key: string): int
  {
    Get(FoldedBase(base, YearFolds(reg, jobs, baseYear, got)), key)
  }

  lemma BaseAfterOneMore(
    reg: Registry, jobs: seq<Job>, baseYear: int, base: Values, got: Reads, key: string)
    requires jobs != []
    ensures var before, j := jobs[..|jobs| - 1], jobs[|jobs| - 1];
      var y := FoldedYear(before, baseYear);
      var due := j.freeze && j.key > y;
      && FoldedYear(jobs, baseYear) == (if due then j.key else y)
      && BaseAfter(reg, jobs, baseYear, base, got, key)
           == BaseAfter(reg, before, baseYear, base, got, key)
              + if due then Get(YearAdd(reg, j, got), key) else 0
  {
    var before, j := jobs[..|jobs| - 1], jobs[|jobs| - 1];
    var folds := YearFolds(reg, before, baseYear, got);
    var all := YearFolds(reg, jobs, baseYear, got);
    if j.freeze && j.key > FoldedYear(before, baseYear) {
      assert all[..|all| - 1] == folds;
    } else {
      assert all == folds;
    }
  }

  /** Consecutive year jobs from lo on, the ones to freeze first and read in full. */
  ghost predicate YearRun(reg: Registry, hist: Rows, got: Reads, jobs: seq<Job>, lo: nat) {
    && FreezePrefix(jobs)
    && forall i :: 0 <= i < |jobs| ==>
         YearRead(reg, hist, got, jobs[i], lo + i)
  }

  ghost predicate YearRead(reg: Registry, hist: Rows, got: Reads, j: Job, k: int) {
    && j.level == Yearly && j.key == k
    && (j.freeze ==> JobRead(hist, got, j, Sources(reg.EdgesAt(Yearly))))
  }

  /** A year that is folded follows directly on the last folded one. */
  lemma FoldIsNext(reg: Registry, hist: Rows, got: Reads, jobs: seq<Job>, lo: nat, baseYear: nat)
    requires jobs != [] && YearRun(reg, hist, got, jobs, lo) && lo <= baseYear + 1
    requires var n := |jobs| - 1; jobs[n].freeze && jobs[n].key > FoldedYear(jobs[..n], baseYear)
    ensures var n := |jobs| - 1; jobs[n].key == FoldedYear(jobs[..n], baseYear) + 1
  {
    var n := |jobs| - 1;
    FoldedYearBounds(jobs[..n], baseYear);
    if n > 0 {
      FoldedYearReaches(jobs[..n], baseYear);
      assert jobs[..n][n - 1] == jobs[n - 1] && jobs[n - 1].freeze;
      assert jobs[n - 1] in jobs[..n];
    }
  }

  lemma NextYearSum(hist: Rows, k: string, origin: nat, baseYear: nat, y: nat, next: nat)
    requires origin <= YearFirst(baseYear + 1) && baseYear <= y && next == y + 1
    ensures Sum(hist, k, origin, YearLast(next))
         == Sum(hist, k, origin, YearLast(y)) + Sum(hist, k, YearFirst(next), YearLast(next))
  {
    YearFirstMonotone(baseYear + 1, y + 1);
    YearFirstMonotone(y + 1, y + 2);
    SumSplit(hist, k, origin, YearLast(y), YearLast(y + 1));
  }

  /** Folding the closed years one by one adds up to one sum over all of them: no year is
      skipped and none is counted twice. */
  lemma {:induction false} FoldsAddUp(
    reg: Registry, hist: Rows, jobs: seq<Job>, lo: nat, baseYear: nat, base: Values,
    got: Reads, e: Edge, origin: nat)
    requires reg.Valid() && e in reg.EdgesAt(Total) && YearRun(reg, hist, got, jobs, lo)
    requires lo <= baseYear + 1 && origin <= YearFirst(baseYear + 1)
    requires Get(base, e.target) == Sum(hist, e.source, origin, YearLast(baseYear))
    ensures FoldedYear(jobs, baseYear) >= baseYear
    ensures BaseAfter(reg, jobs, baseYear, base, got, e.target)
         == Sum(hist, e.source, origin, YearLast(FoldedYear(jobs, baseYear)))
    decreases |jobs|
  {
    if jobs != [] {
      var n := |jobs| - 1;
      FoldsAddUp(reg, hist, jobs[..n], lo, baseYear, base, got, e, origin);
      if jobs[n].freeze && jobs[n].key > FoldedYear(jobs[..n], baseYear) {
        FoldIsNext(reg, hist, got, jobs, lo, baseYear);
      }
      FoldNext(reg, hist, jobs, jobs[..n], jobs[n], baseYear, base, got, e, origin);
    }
  }

  lemma FoldNext(
    reg: Registry, hist: Rows, jobs: seq<Job>, before: seq<Job>, j: Job, baseYear: nat, base: Values,
    got: Reads, e: Edge, origin: nat)
    requires reg.Valid() && e in reg.EdgesAt(Total)
    requires jobs != [] && before == jobs[..|jobs| - 1] && j == jobs[|jobs| - 1] && j.level == Yearly
    requires origin <= YearFirst(baseYear + 1) && baseYear <= FoldedYear(before, baseYear)
    requires j.freeze ==> JobRead(hist, got, j, Sources(reg.EdgesAt(Yearly)))
    requires j.freeze && j.key > FoldedYear(before, baseYear) ==> j.key == FoldedYear(before, baseYear) + 1
    requires BaseAfter(reg, before, baseYear, base, got, e.target)
          == Sum(hist, e.source, origin, YearLast(FoldedYear(before, baseYear)))
    ensures FoldedYear(jobs, baseYear) >= baseYear
    ensures BaseAfter(reg, jobs, baseYear, base, got, e.target)
         == Sum(hist, e.source, origin, YearLast(FoldedYear(jobs, baseYear)))
  {
    var y: nat := FoldedYear(before, baseYear);
    BaseAfterOneMore(reg, jobs, baseYear, base, got, e.target);
    if j.freeze && j.key > y {
      FoldedSum(reg, hist, j, got, e, origin, baseYear, y);
    }
    NextFolded(reg, hist, jobs, j, baseYear, base, got, e, origin, y, FoldedYear(jobs, baseYear));
  }

  lemma NextFolded(reg: Registry, hist: Rows, jobs: seq<Job>, j: Job, baseYear: nat, base: Values, got: Reads,
    e: Edge, origin: nat, y: nat, y': nat)
    requires y' == (if j.freeze && j.key > y then j.key else y)
    requires BaseAfter(reg, jobs, baseYear, base, got, e.target)
          == Sum(hist, e.source, origin, YearLast(y)) + if y' != y then Get(YearAdd(reg, j, got), e.target) else 0
    requires y' != y ==>
      Sum(hist, e.source, origin, YearLast(y)) + Get(YearAdd(reg, j, got), e.target)
        == Sum(hist, e.source, origin, YearLast(y'))
    ensures BaseAfter(reg, jobs, baseYear, base, got, e.target) == Sum(hist, e.source, origin, YearLast(y'))
  {
  }

  lemma FoldedSum(
    reg: Registry, hist: Rows, j: Job, got: Reads, e: Edge, origin: nat, baseYear: nat, y: nat)
    requires reg.Valid() && e in reg.EdgesAt(Total) && j.level == Yearly
    requires origin <= YearFirst(baseYear + 1) && baseYear <= y && j.key == y + 1
    requires JobRead(hist, got, j, Sources(reg.EdgesAt(Yearly)))
    ensures Sum(hist, e.source, origin, YearLast(y)) + Get(YearAdd(reg, j, got), e.target)
         == Sum(hist, e.source, origin, YearLast(j.key))
  {
    YearAddExact(reg, hist, j, got, e);
    NextYearSum(hist, e.source, origin, baseYear, y, j.key);
  }
}
