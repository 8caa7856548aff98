/** Writing a run's results keeps the ledger invariant, although polls and cleanups ran
    between capturing the state, reading the sums and this transaction. */
module FinishStep {
  import opened Calendar
  import opened Registers
  import opened Energy
  import opened Plan
  import opened Ledger
  import opened World
  import opened PollStep
  import opened CleanupStep
  import opened RunStep
  import opened FinishValues
  import opened FinishRows

  /** What a finishing run knows. */
  ghost predicate Ready(reg: Registry, w: World, r: Run) {
    && reg.Valid() && w.run == Some(r)
    && MarksOk(reg, w.db.meta) && RunOk(reg, w, r)
    && forall q :: Asks(reg, r, q) ==> q in r.got
  }

  function After(reg: Registry, w: World, r: Run): DB
    requires r.p.day >= MAX_NET_DAYS && r.st.Marks(reg).Marks() && r.st.baselineYear >= NONE
  {
    ApplyComputed(reg, w.db, GatherOf(reg, r))
  }

  lemma SameMarks(reg: Registry, w: World, r: Run)
    requires Ready(reg, w, r)
    ensures forall l :: r.st.Frozen(l) == w.db.meta.Frozen(l)
    ensures r.st.baselineYear == w.db.meta.baselineYear && r.st.baseline == w.db.meta.baseline
    ensures r.st.offsets == w.db.meta.offsets && r.st.cutover == w.db.meta.cutover
  {
  }

  lemma MetaAfter(reg: Registry, w: World, r: Run)
    requires Ready(reg, w, r)
    ensures var m, m' := w.db.meta, After(reg, w, r).meta;
      && m' == m.(frozen := m'.frozen, baseline := m'.baseline, baselineYear := m'.baselineYear)
      && m'.frozen == ApplyFreezes(m, GatherOf(reg, r).freezes).frozen
      && m'.baselineYear == FoldedYear(RunPlan(reg, r).years, m.baselineYear)
      && m'.baseline == FoldedBase(m.baseline, YearFolds(reg, RunPlan(reg, r).years, m.baselineYear, r.got))
  {
    SameMarks(reg, w, r);
    FreezesAdvance(w.db.meta, GatherOf(reg, r).freezes, Daily);
    FoldsApply(reg, ApplyFreezes(w.db.meta, GatherOf(reg, r).freezes), RunPlan(reg, r).years, r.got);
  }

  /** The new mark of a level is the old one or the last period frozen by this run. */
  lemma MarkAfter(reg: Registry, w: World, r: Run, l: Level)
    requires Ready(reg, w, r) && Frozenable(l)
    ensures var m' := After(reg, w, r).meta;
      && m'.Frozen(l) >= w.db.meta.Frozen(l)
      && (forall j :: j in JobsAt(RunPlan(reg, r), l) && j.freeze ==> j.key <= m'.Frozen(l))
      && (m'.Frozen(l) == w.db.meta.Frozen(l)
          || exists j :: j in JobsAt(RunPlan(reg, r), l) && j.freeze && j.key == m'.Frozen(l))
  {
    var fs := GatherOf(reg, r).freezes;
    MetaAfter(reg, w, r);
    FreezesAdvance(w.db.meta, fs, l);
    forall j | j in JobsAt(RunPlan(reg, r), l) && j.freeze
      ensures Freeze(l, j.key) in fs
    {
      GatheredFreezes(reg, r, l, Freeze(l, j.key));
    }
    if f :| f in fs && f.level == l && f.period == After(reg, w, r).meta.Frozen(l) {
      GatheredFreezes(reg, r, l, f);
    }
  }

  /** A period a run freezes lies after the mark, and every key has closed its last day. */
  lemma FreezingIsClosed(reg: Registry, w: World, r: Run, l: Level, j: Job)
    requires Ready(reg, w, r) && Frozenable(l) && j in JobsAt(RunPlan(reg, r), l) && j.freeze
    ensures j.key >= 0 && j.level == l && j.key > w.db.meta.Frozen(l)
    ensures PeriodLast(l, j.key) <= r.st.LowestClosed(reg.dailyKeys)
    ensures ClosedBeyond(reg, w.db.meta, PeriodLast(l, j.key))
  {
    SameMarks(reg, w, r);
    PlanJobIs(r.p, r.st.Marks(reg), l, j);
    JobsFollowMark(reg, r, l, j);
  }

  lemma JobsFollowMark(reg: Registry, r: Run, l: Level, j: Job)
    requires RunReady(reg, r) && MarksOk(reg, r.st) && j in JobsAt(RunPlan(reg, r), l)
    ensures j.key > r.st.Frozen(l)
  {
    var plan := RunPlan(reg, r);
    var jobs := JobsAt(plan, l);
    var i :| 0 <= i < |jobs| && jobs[i] == j;
  }

  lemma BaselineClosedAfter(reg: Registry, w: World, r: Run)
    requires Ready(reg, w, r)
    ensures var m, m' := w.db.meta, After(reg, w, r).meta;
      && m.baselineYear <= m'.baselineYear && m'.Frozen(Yearly) <= m'.baselineYear
      && (m'.baselineYear >= YearOf(m.cutover) ==> ClosedBeyond(reg, m, YearLast(m'.baselineYear)))
  {
    var years := RunPlan(reg, r).years;
    var m' := After(reg, w, r).meta;
    MetaAfter(reg, w, r);
    MarkAfter(reg, w, r, Yearly);
    FoldedYearBounds(years, w.db.meta.baselineYear);
    FoldedYearReaches(years, w.db.meta.baselineYear);
    assert years == JobsAt(RunPlan(reg, r), Yearly);
    if m'.baselineYear != w.db.meta.baselineYear {
      var j :| j in years && j.freeze && j.key == m'.baselineYear;
      FreezingIsClosed(reg, w, r, Yearly, j);
    }
  }

  lemma MarkClosedAfter(reg: Registry, w: World, r: Run, l: Level)
    requires Ready(reg, w, r) && Frozenable(l)
    ensures After(reg, w, r).meta.Frozen(l) >= 0
    ensures ClosedBeyond(reg, w.db.meta, PeriodLast(l, After(reg, w, r).meta.Frozen(l)))
  {
    MarkAfter(reg, w, r, l);
    if j :| j in JobsAt(RunPlan(reg, r), l) && j.freeze && j.key == After(reg, w, r).meta.Frozen(l) {
      FreezingIsClosed(reg, w, r, l, j);
    } else {
      SettledIsClosed(reg, w.db.meta, l, w.db.meta.Frozen(l));
    }
  }

  lemma FinishKeepsMarks(reg: Registry, w: World, r: Run)
    requires Ready(reg, w, r)
    ensures MarksOk(reg, After(reg, w, r).meta)
  {
    MetaAfter(reg, w, r);
    BaselineClosedAfter(reg, w, r);
    MarkClosedAfter(reg, w, r, Daily);
    MarkClosedAfter(reg, w, r, Monthly);
    MarkClosedAfter(reg, w, r, Yearly);
    MarksMoved(reg, w.db.meta, After(reg, w, r).meta);
  }

  lemma MarksMoved(reg: Registry, m: Meta, m': Meta)
    requires MarksOk(reg, m)
    requires m' == m.(frozen := m'.frozen, baseline := m'.baseline, baselineYear := m'.baselineYear)
    requires m.baselineYear <= m'.baselineYear && m'.Frozen(Yearly) <= m'.baselineYear
    requires m'.Frozen(Daily) >= 0 && m'.Frozen(Monthly) >= 0 && m'.Frozen(Yearly) >= 0
    requires ClosedBeyond(reg, m, m'.Frozen(Daily)) && ClosedBeyond(reg, m, MonthLast(m'.Frozen(Monthly)))
    requires ClosedBeyond(reg, m, YearLast(m'.Frozen(Yearly)))
    requires m'.baselineYear >= YearOf(m.cutover) ==> ClosedBeyond(reg, m, YearLast(m'.baselineYear))
    ensures MarksOk(reg, m')
  {
    ClosedMore(reg, m, m', m'.Frozen(Daily));
    ClosedMore(reg, m, m', MonthLast(m'.Frozen(Monthly)));
    ClosedMore(reg, m, m', YearLast(m'.Frozen(Yearly)));
    ClosedMore(reg, m, m', YearLast(m'.baselineYear));
  }

  lemma FirstOpenDayGrows(m: Meta, m': Meta)
    requires 0 <= m.Frozen(Daily) <= m'.Frozen(Daily) && 0 <= m.Frozen(Monthly) <= m'.Frozen(Monthly)
    requires 0 <= m.Frozen(Yearly) <= m'.Frozen(Yearly) && 0 <= m.baselineYear <= m'.baselineYear
    ensures FirstOpenDay(m) <= FirstOpenDay(m')
  {
    var month, year, base := m.Frozen(Monthly) + 1, m.Frozen(Yearly) + 1, m.baselineYear + 1;
    var month', year', base' := m'.Frozen(Monthly) + 1, m'.Frozen(Yearly) + 1, m'.baselineYear + 1;
    assert MonthFirst(month) <= MonthFirst(month') by { MonthFirstMonotone(month, month'); }
    assert YearFirst(year) <= YearFirst(year') by { YearFirstMonotone(year, year'); }
    assert YearFirst(base) <= YearFirst(base') by { YearFirstMonotone(base, base'); }
    FirstOpenDayBelow(m);
    FirstOpenDayReached(m', FirstOpenDay(m'));
  }

  lemma FirstOpenDayReached(m: Meta, d: int)
    requires m.Frozen(Daily) >= 0 && m.Frozen(Monthly) >= 0 && m.Frozen(Yearly) >= 0 && m.baselineYear >= 0
    requires d == FirstOpenDay(m)
    ensures d == m.Frozen(Daily) + 1 || d == MonthFirst(m.Frozen(Monthly) + 1)
      || d == YearFirst(m.Frozen(Yearly) + 1) || d == YearFirst(m.baselineYear + 1)
  {
  }

  lemma FinishKeepsPurge(reg: Registry, w: World, r: Run)
    requires Ready(reg, w, r) && PurgeOk(w)
    ensures var m' := After(reg, w, r).meta;
      w.cut <= FirstOpenDay(m') && m'.purgedBefore == w.db.meta.purgedBefore
  {
    MetaAfter(reg, w, r);
    BaselineClosedAfter(reg, w, r);
    MarkAfter(reg, w, r, Daily);
    MarkAfter(reg, w, r, Monthly);
    MarkAfter(reg, w, r, Yearly);
    FirstOpenDayGrows(w.db.meta, After(reg, w, r).meta);
  }

  // ---- the baseline ----

  lemma YearsAreRun(reg: Registry, w: World, r: Run)
    requires Ready(reg, w, r)
    ensures YearRun(reg, w.hist, r.got, RunPlan(reg, r).years, w.db.meta.Frozen(Yearly) + 1)
  {
    var years, marks, lo := RunPlan(reg, r).years, r.st.Marks(reg), w.db.meta.Frozen(Yearly) + 1;
    SameMarks(reg, w, r);
    PlannedYears(r.p, marks, lo);
    FreezeLeading(r.p, marks, Yearly, lo, r.p.year);
    forall i | 0 <= i < |years|
      ensures YearRead(reg, w.hist, r.got, years[i], lo + i)
    {
      assert years[i] in JobsAt(RunPlan(reg, r), Yearly);
      if years[i].freeze {
        FreezingIsRead(reg, w, r, Yearly, years[i]);
      }
    }
  }

  lemma PlannedYears(p: Period, w: Watermarks, lo: nat)
    requires p.day >= MAX_NET_DAYS && w.Marks() && lo == w.frozenYear + 1 >= 1
    ensures PlanFor(p, w).years == JobsFor(p, w, Yearly, Range(lo, p.year))
  {
  }

  lemma FoldedBaselineIs(reg: Registry, w: World, r: Run, e: Edge, years: seq<Job>)
    requires Ready(reg, w, r) && BaselineOk(reg, w) && e in reg.EdgesAt(Total)
    requires years == RunPlan(reg, r).years
    ensures var m := w.db.meta;
      && FoldedYear(years, m.baselineYear) >= m.baselineYear
      && BaseAfter(reg, years, m.baselineYear, m.baseline, r.got, e.target)
           == Sum(w.hist, e.source, Origin(m), YearLast(FoldedYear(years, m.baselineYear)))
  {
    BaselineFrom(reg, w, r, e, years, w.db.meta.baselineYear, Origin(w.db.meta));
  }

  lemma BaselineFrom(reg: Registry, w: World, r: Run, e: Edge, years: seq<Job>, y: nat, origin: nat)
    requires Ready(reg, w, r) && BaselineOk(reg, w) && e in reg.EdgesAt(Total) && years == RunPlan(reg, r).years
    requires y == w.db.meta.baselineYear && origin == Origin(w.db.meta)
    ensures FoldedYear(years, y) >= y
    ensures BaseAfter(reg, years, y, w.db.meta.baseline, r.got, e.target)
         == Sum(w.hist, e.source, origin, YearLast(FoldedYear(years, y)))
  {
    BaselineSoFar(reg, w, e, y, origin);
    FoldsFromBaseline(reg, w, r, e, years, y, origin);
  }

  lemma BaselineSoFar(reg: Registry, w: World, e: Edge, y: nat, origin: nat)
    requires MarksOk(reg, w.db.meta) && BaselineOk(reg, w) && e in reg.EdgesAt(Total)
    requires y == w.db.meta.baselineYear && origin == Origin(w.db.meta)
    ensures origin <= YearFirst(y + 1)
    ensures Get(w.db.meta.baseline, e.target) == Sum(w.hist, e.source, origin, YearLast(y))
  {
    OriginBeforeFolds(w.db.meta);
    BaselineHere(reg, w, e);
  }

  lemma FoldsFromBaseline(reg: Registry, w: World, r: Run, e: Edge, years: seq<Job>, y: nat, origin: nat)
    requires Ready(reg, w, r) && e in reg.EdgesAt(Total) && years == RunPlan(reg, r).years
    requires y == w.db.meta.baselineYear && origin <= YearFirst(y + 1)
    requires Get(w.db.meta.baseline, e.target) == Sum(w.hist, e.source, origin, YearLast(y))
    ensures FoldedYear(years, y) >= y
    ensures BaseAfter(reg, years, y, w.db.meta.baseline, r.got, e.target)
         == Sum(w.hist, e.source, origin, YearLast(FoldedYear(years, y)))
  {
    YearsAreRun(reg, w, r);
    FoldsAddUp(reg, w.hist, years, w.db.meta.Frozen(Yearly) + 1, y, w.db.meta.baseline, r.got, e, origin);
  }

  lemma BaselineHere(reg: Registry, w: World, e: Edge)
    requires w.db.meta.cutover >= 0 && w.db.meta.baselineYear >= 0 && BaselineOk(reg, w) && e in reg.EdgesAt(Total)
    ensures Get(w.db.meta.baseline, e.target)
         == Sum(w.hist, e.source, Origin(w.db.meta), YearLast(w.db.meta.baselineYear))
  {
  }

  lemma OriginBeforeFolds(m: Meta)
    requires m.cutover >= 0 && 0 <= YearOf(m.cutover) - 1 <= m.baselineYear
    ensures Origin(m) <= YearFirst(m.baselineYear + 1)
  {
    YearFirstMonotone(YearOf(m.cutover), m.baselineYear + 1);
  }

  lemma BaselineAfterIs(reg: Registry, w: World, r: Run, e: Edge)
    requires Ready(reg, w, r) && BaselineOk(reg, w) && e in reg.EdgesAt(Total)
    ensures var m' := After(reg, w, r).meta;
      && m'.baselineYear >= 0
      && Get(m'.baseline, e.target) == Sum(w.hist, e.source, Origin(w.db.meta), YearLast(m'.baselineYear))
  {
    FoldedBaselineIs(reg, w, r, e, RunPlan(reg, r).years);
    MetaAfter(reg, w, r);
  }

  // ---- the periods it freezes ----

  function LevelSources(reg: Registry, l: Level): set<string> {
    if l == Daily then NetSources(reg.NetsAt(Daily)) else Sources(reg.EdgesAt(l))
  }

  function LevelKeys(p: Period, w: Watermarks, l: Level): seq<int> {
    match l
    case Daily => Range(NetFloor(p, w) + 1, p.day)
    case Monthly => OpenPeriods(w.frozenMonth, p.month)
    case Yearly => OpenPeriods(w.frozenYear, p.year)
    case Total => []
  }

  lemma LevelJobs(p: Period, w: Watermarks, l: Level)
    requires p.day >= MAX_NET_DAYS && w.Marks() && Frozenable(l)
    ensures forall i :: 0 <= i < |LevelKeys(p, w, l)| ==> LevelKeys(p, w, l)[i] >= 0
    ensures JobsAt(PlanFor(p, w), l) == JobsFor(p, w, l, LevelKeys(p, w, l))
  {
  }

  lemma AskedAtLevel(reg: Registry, r: Run, l: Level, q: Query)
    requires RunReady(reg, r) && Frozenable(l)
    requires AskedBy(JobsAt(RunPlan(reg, r), l), LevelSources(reg, l), q)
    ensures Asks(reg, r, q)
  {
  }

  lemma FreezingIsRead(reg: Registry, w: World, r: Run, l: Level, j: Job)
    requires Ready(reg, w, r) && Frozenable(l) && j in JobsAt(RunPlan(reg, r), l) && j.freeze
    ensures JobRead(w.hist, r.got, j, LevelSources(reg, l))
  {
    var marks := r.st.Marks(reg);
    var ks := LevelKeys(r.p, marks, l);
    LevelJobs(r.p, marks, l);
    forall q | AskedBy(JobsFor(r.p, marks, l, ks), LevelSources(reg, l), q)
      ensures q in r.got && ReadOk(reg, w, r, q)
    {
      AskedAtLevel(reg, r, l, q);
    }
    FrozenJobIsRead(reg, w, r, l, ks, LevelSources(reg, l), j);
  }

  lemma FrozenEdgeExact(reg: Registry, w: World, r: Run, l: Level, j: Job, e: Edge)
    requires Ready(reg, w, r) && Frozenable(l) && j in JobsAt(RunPlan(reg, r), l) && j.freeze
    requires e in reg.EdgesAt(l)
    ensures j.key >= 0
    ensures var rows, c := After(reg, w, r).rows, Cell(l, e.target, j.key);
      c in rows && rows[c] == Part(reg, w.hist, r.st, l, e.target, j.key)
  {
    SourceIsPollerKey(reg, l, e);
    FreezingIsClosed(reg, w, r, l, j);
    FreezingIsRead(reg, w, r, l, j);
    LevelEdgeExact(reg, w.hist, r.st, j, r.got, e);
    JobRowWritten(reg, w.db.meta, w.db.rows, r, l, j, e.target);
  }

  lemma FrozenNetExact(reg: Registry, w: World, r: Run, l: Level, j: Job, n: NetPair)
    requires Ready(reg, w, r) && Frozenable(l) && j in JobsAt(RunPlan(reg, r), l) && j.freeze
    requires n in reg.NetsAt(l)
    ensures j.key >= 0
    ensures var rows, c := After(reg, w, r).rows, Cell(l, n.target, j.key);
      && c in rows
      && rows[c] == Part(reg, w.hist, r.st, l, n.exported, j.key) - Part(reg, w.hist, r.st, l, n.imported, j.key)
  {
    assert reg.NetOk(n) && InDomain(reg, l, n.target);
    FreezingIsClosed(reg, w, r, l, j);
    FreezingIsRead(reg, w, r, l, j);
    if l == Daily {
      DayNetExact(reg, w.hist, r.st, j, r.got, n);
    } else {
      LevelNetExact(reg, w.hist, r.st, j, r.got, n);
    }
    JobRowWritten(reg, w.db.meta, w.db.rows, r, l, j, n.target);
  }

  lemma SamePart(reg: Registry, hist: Rows, m: Meta, m': Meta, l: Level, key: string, k: nat)
    requires m.offsets == m'.offsets
    ensures Part(reg, hist, m, l, key, k) == Part(reg, hist, m', l, key, k)
  {
  }

  lemma PartAfter(reg: Registry, w: World, r: Run, l: Level, key: string, k: nat)
    requires Ready(reg, w, r)
    ensures Part(reg, w.hist, After(reg, w, r).meta, l, key, k) == Part(reg, w.hist, r.st, l, key, k)
    ensures Part(reg, w.hist, After(reg, w, r).meta, l, key, k) == Part(reg, w.hist, w.db.meta, l, key, k)
  {
    assert r.st.offsets == w.db.meta.offsets == After(reg, w, r).meta.offsets by {
      MetaAfter(reg, w, r);
      SameMarks(reg, w, r);
    }
    SamePart(reg, w.hist, After(reg, w, r).meta, r.st, l, key, k);
    SamePart(reg, w.hist, After(reg, w, r).meta, w.db.meta, l, key, k);
  }

  /** A period frozen by the run is exact from now on. */
  lemma FreezingSettles(reg: Registry, w: World, w': World, r: Run, l: Level, j: Job)
    requires Ready(reg, w, r) && Frozenable(l) && j in JobsAt(RunPlan(reg, r), l) && j.freeze
    requires w'.db == After(reg, w, r) && w'.hist == w.hist
    ensures 0 <= j.key <= w'.db.meta.Frozen(l) && PeriodSettled(reg, w', l, j.key)
  {
    FreezingIsClosed(reg, w, r, l, j);
    MarkAfter(reg, w, r, l);
    forall e | e in reg.EdgesAt(l)
      ensures EdgeSettled(reg, w', e, l, j.key)
    {
      FrozenEdgeExact(reg, w, r, l, j, e);
      PartAfter(reg, w, r, l, e.target, j.key);
    }
    forall n | n in reg.NetsAt(l)
      ensures NetSettled(reg, w', n, l, j.key)
    {
      FrozenNetExact(reg, w, r, l, j, n);
      PartAfter(reg, w, r, l, n.exported, j.key);
      PartAfter(reg, w, r, l, n.imported, j.key);
    }
  }

  lemma FrozenRowStays(reg: Registry, w: World, w': World, r: Run, c: Cell)
    requires Ready(reg, w, r) && Frozenable(c.level) && c.period <= w.db.meta.Frozen(c.level)
    requires w'.db == After(reg, w, r) && w'.cut == w.cut
    ensures CellKept(w, w', c)
  {
    BatchesFrame(reg, w.db.meta, w.db.rows, GatherOf(reg, r).batches, c);
  }

  /** A period settled before is left as it is. */
  lemma SettledStays(reg: Registry, w: World, w': World, r: Run, l: Level, k: nat)
    requires Ready(reg, w, r) && Frozenable(l) && k <= w.db.meta.Frozen(l) && PeriodSettled(reg, w, l, k)
    requires w'.db == After(reg, w, r) && w'.hist == w.hist && w'.cut == w.cut
    ensures k <= w'.db.meta.Frozen(l) && PeriodSettled(reg, w', l, k)
  {
    MarkAfter(reg, w, r, l);
    forall key | InDomain(reg, l, key)
      ensures CellKept(w, w', Cell(l, key, k))
    {
      FrozenRowStays(reg, w, w', r, Cell(l, key, k));
    }
    forall key | reg.IsStore(key, StoreForLevel(l), false)
      ensures PartSame(reg, w, w', l, key, k)
    {
      PartAfter(reg, w, r, l, key, k);
    }
    PeriodTransfer(reg, w, w', l, k);
  }

  lemma FreezingSet(reg: Registry, r: Run, l: Level, k: int)
    requires RunReady(reg, r) && Frozenable(l)
    ensures (l, k) in Freezing(JobsAt(RunPlan(reg, r), l)) <==>
      exists j :: j in JobsAt(RunPlan(reg, r), l) && j.freeze && j.key == k
  {
    forall j | j in JobsAt(RunPlan(reg, r), l)
      ensures j.level == l
    {
      PlanJobIs(r.p, r.st.Marks(reg), l, j);
    }
    if j :| j in JobsAt(RunPlan(reg, r), l) && j.freeze && j.key == k {
      assert (j.level, j.key) in Freezing(JobsAt(RunPlan(reg, r), l));
    }
  }

  lemma SettledAfter(reg: Registry, w: World, w': World, r: Run, l: Level, k: int)
    requires Ready(reg, w, r) && SettledOk(reg, w)
    requires w'.db == After(reg, w, r) && w'.hist == w.hist && w'.cut == w.cut
    requires (l, k) in w.settled
          || (exists i :: Frozenable(i) && (l, k) in Freezing(JobsAt(RunPlan(reg, r), i)))
    ensures Frozenable(l) && 0 <= k <= w'.db.meta.Frozen(l) && PeriodSettled(reg, w', l, k)
  {
    if (l, k) in w.settled {
      SettledStays(reg, w, w', r, l, k);
    } else {
      var i :| Frozenable(i) && (l, k) in Freezing(JobsAt(RunPlan(reg, r), i));
      var j :| j in JobsAt(RunPlan(reg, r), i) && j.freeze && (l, k) == (j.level, j.key);
      PlanJobIs(r.p, r.st.Marks(reg), i, j);
      FreezingSettles(reg, w, w', r, l, j);
    }
  }

  lemma NewlySettled(reg: Registry, w: World, r: Run, l: Level, k: int)
    requires Ready(reg, w, r) && Enabled(reg, w, Finish)
    requires (l, k) in Step(reg, w, Finish).settled
    ensures (l, k) in w.settled
         || (exists i :: Frozenable(i) && (l, k) in Freezing(JobsAt(RunPlan(reg, r), i)))
  {
    var plan := RunPlan(reg, r);
    assert JobsAt(plan, Daily) == plan.days && Frozenable(Daily);
    assert JobsAt(plan, Monthly) == plan.months && Frozenable(Monthly);
    assert JobsAt(plan, Yearly) == plan.years && Frozenable(Yearly);
  }

  lemma FinishKeepsSettled(reg: Registry, w: World, r: Run)
    requires Ready(reg, w, r) && SettledOk(reg, w) && Enabled(reg, w, Finish)
    ensures SettledOk(reg, Step(reg, w, Finish))
  {
    var w' := Step(reg, w, Finish);
    assert w'.db == After(reg, w, r);
    forall l, k | (l, k) in w'.settled
      ensures Frozenable(l) && 0 <= k <= w'.db.meta.Frozen(l) && PeriodSettled(reg, w', l, k)
    {
      NewlySettled(reg, w, r, l, k);
      SettledAfter(reg, w, w', r, l, k);
    }
  }

  /** The freezes of a level leave no gap after its mark. */
  lemma FreezesLeaveNoGap(reg: Registry, w: World, r: Run, l: Level, k: nat)
    requires Ready(reg, w, r) && (l == Monthly || l == Yearly)
    requires w.db.meta.Frozen(l) < k <= After(reg, w, r).meta.Frozen(l)
    ensures (l, k) in Freezing(JobsAt(RunPlan(reg, r), l))
  {
    var marks := r.st.Marks(reg);
    SameMarks(reg, w, r);
    MarkAfter(reg, w, r, l);
    var jobs := JobsAt(RunPlan(reg, r), l);
    var top :| top in jobs && top.freeze && top.key == After(reg, w, r).meta.Frozen(l);
    PlanJobIs(r.p, marks, l, top);
    LevelJobs(r.p, marks, l);
    PeriodLastMonotone(l, k, top.key);
    JobBelow(r.p, marks, l, top, k);
    FreezingSet(reg, r, l, k);
  }

  lemma JobBelow(p: Period, w: Watermarks, l: Level, top: Job, k: nat)
    requires p.day >= MAX_NET_DAYS && w.Marks() && (l == Monthly || l == Yearly)
    requires w.frozenMonth != NONE && w.frozenYear != NONE
    requires top in JobsAt(PlanFor(p, w), l) && top.freeze
    requires (if l == Monthly then w.frozenMonth else w.frozenYear) < k <= top.key
    requires top.key >= 0 && top == JobFor(p, w, l, top.key) && PeriodLast(l, k) <= PeriodLast(l, top.key)
    ensures JobFor(p, w, l, k) in JobsAt(PlanFor(p, w), l) && JobFor(p, w, l, k).freeze
  {
    if l == Monthly {
      JobInRange(p, w, l, w.frozenMonth + 1, p.month, top, k);
    } else {
      JobInRange(p, w, l, w.frozenYear + 1, p.year, top, k);
    }
  }

  lemma JobInRange(p: Period, w: Watermarks, l: Level, lo: nat, hi: int, top: Job, k: nat)
    requires top in JobsFor(p, w, l, Range(lo, hi)) && lo <= k <= top.key
    ensures JobFor(p, w, l, k) in JobsFor(p, w, l, Range(lo, hi))
  {
    var jobs := JobsFor(p, w, l, Range(lo, hi));
    var i :| 0 <= i < |jobs| && jobs[i] == top;
    assert jobs[k - lo] == JobFor(p, w, l, k);
  }

  lemma CutoverAfter(reg: Registry, w: World, r: Run)
    requires Ready(reg, w, r)
    ensures After(reg, w, r).meta.cutover == w.db.meta.cutover
  {
    MetaAfter(reg, w, r);
  }

  lemma FrozenIsSettled(reg: Registry, w: World, w': World, r: Run, l: Level, k: int)
    requires Ready(reg, w, r) && Complete(w) && w'.db == After(reg, w, r)
    requires w.settled + Freezing(RunPlan(reg, r).months) + Freezing(RunPlan(reg, r).years) <= w'.settled
    requires w'.db.meta.cutover == w.db.meta.cutover
    requires (l == Monthly || l == Yearly) && StartMark(w'.db.meta, l) < k <= w'.db.meta.Frozen(l)
    ensures (l, k) in w'.settled
  {
    SameStart(w.db.meta, w'.db.meta, l);
    if k > w.db.meta.Frozen(l) {
      FreezesLeaveNoGap(reg, w, r, l, k);
    } else {
      AlreadySettled(w, l, k);
    }
  }

  lemma SameStart(m: Meta, m': Meta, l: Level)
    requires m.cutover == m'.cutover >= CUTOVER_MARGIN
    ensures StartMark(m, l) == StartMark(m', l)
  {
  }

  lemma AlreadySettled(w: World, l: Level, k: int)
    requires w.db.meta.cutover >= CUTOVER_MARGIN && Complete(w)
    requires (l == Monthly || l == Yearly) && StartMark(w.db.meta, l) < k <= w.db.meta.Frozen(l)
    ensures (l, k) in w.settled
  {
  }

  lemma FinishKeepsComplete(reg: Registry, w: World, w': World, r: Run)
    requires Ready(reg, w, r) && Complete(w) && w'.db == After(reg, w, r)
    requires w.settled + Freezing(RunPlan(reg, r).months) + Freezing(RunPlan(reg, r).years) <= w'.settled
    requires w'.db.meta.cutover == w.db.meta.cutover >= CUTOVER_MARGIN
    ensures Complete(w')
  {
    forall l, k | (l == Monthly || l == Yearly) && StartMark(w'.db.meta, l) < k <= w'.db.meta.Frozen(l)
      ensures (l, k) in w'.settled
    {
      FrozenIsSettled(reg, w, w', r, l, k);
    }
  }

  lemma FinishKeepsHist(reg: Registry, w: World, r: Run)
    requires Ready(reg, w, r) && HistOk(reg, w) && Enabled(reg, w, Finish)
    ensures HistOk(reg, Step(reg, w, Finish))
  {
    var w' := Step(reg, w, Finish);
    MetaAfter(reg, w, r);
    forall k, d | PollerKey(reg, k)
      ensures SameCell(w'.db.rows, w.db.rows, Cell(Daily, k, d))
    {
      BatchesFrame(reg, w.db.meta, w.db.rows, GatherOf(reg, r).batches, Cell(Daily, k, d));
    }
  }

  // ---- the totals ----

  lemma TotalRow(reg: Registry, w: World, r: Run, key: string)
    requires Ready(reg, w, r) && InDomain(reg, Total, key) && key in RunTotals(reg, r)
    ensures var c := Cell(Total, key, NONE);
      c in After(reg, w, r).rows && After(reg, w, r).rows[c] == RunTotals(reg, r)[key]
  {
    TotalBatch(reg, r, key, Batch(Total, NONE, RunTotals(reg, r)));
    BatchesWrite(reg, w.db.meta, w.db.rows, GatherOf(reg, r).batches, Cell(Total, key, NONE), RunTotals(reg, r)[key]);
  }

  lemma TotalWritten(reg: Registry, w: World, r: Run, e: Edge)
    requires Ready(reg, w, r) && e in reg.EdgesAt(Total)
    ensures var c := Cell(Total, e.target, NONE);
      && c in After(reg, w, r).rows
      && After(reg, w, r).rows[c] == TotalOf(reg, w, r, e)
  {
    SourceIsPollerKey(reg, Total, e);
    RunTotal(reg, w, r, e);
    TotalRow(reg, w, r, e.target);
  }

  lemma RunTotal(reg: Registry, w: World, r: Run, e: Edge)
    requires RunReady(reg, r) && reg.Valid() && e in reg.EdgesAt(Total)
    ensures e.target in RunTotals(reg, r) && RunTotals(reg, r)[e.target] == TotalOf(reg, w, r, e)
  {
    var years := RunPlan(reg, r).years;
    FoldedYearBounds(years, r.st.baselineYear);
    TotalValue(reg, r.p, FoldedBase(r.st.baseline, YearFolds(reg, years, r.st.baselineYear, r.got)),
      FoldedYear(years, r.st.baselineYear), r.got, e);
  }

  /** The value of a total row: the folded baseline plus the sum read since. */
  function TotalOf(reg: Registry, w: World, r: Run, e: Edge): int
    requires r.p.day >= MAX_NET_DAYS && r.st.Marks(reg).Marks() && r.st.baselineYear >= NONE
  {
    var y := FoldedYear(RunPlan(reg, r).years, r.st.baselineYear);
    FoldedYearBounds(RunPlan(reg, r).years, r.st.baselineYear);
    BaseAfter(reg, RunPlan(reg, r).years, r.st.baselineYear, r.st.baseline, r.got, e.target)
      + Read(r.got, JobQuery(TotalJob(r.p, y), e.source))
  }

  lemma TotalValue(reg: Registry, p: Period, base: Values, y: int, got: Reads, e: Edge)
    requires reg.Valid() && e in reg.EdgesAt(Total) && y >= NONE
    ensures var vals := TotalValues(reg, p, base, y, got);
      && e.target in vals
      && vals[e.target] == Get(base, e.target) + Read(got, JobQuery(TotalJob(p, y), e.source))
  {
    var edges := reg.EdgesAt(Total);
    var since := SumsOf(Sources(edges), TotalJob(p, y), got);
    EdgesFunctional(reg, Total);
    TotalsApplied(edges, base, since);
    SourceIsPollerKey(reg, Total, e);
    NetTargetsApart(reg, Total, Totals(edges, base, since), e.target);
  }

  lemma JobBatchLevel(reg: Registry, r: Run, l: Level, b: Batch)
    requires RunReady(reg, r) && Frozenable(l)
    requires b in JobBatches(reg, JobsAt(RunPlan(reg, r), l), r.st.offsets, r.got)
    ensures b.level == l && b.level != Total
  {
    BatchesAreJobs(reg, JobsAt(RunPlan(reg, r), l), r.st.offsets, r.got, b);
    var j :| j in JobsAt(RunPlan(reg, r), l) && b == Batch(j.level, j.key, JobValues(reg, j, r.st.offsets, r.got));
    PlanJobIs(r.p, r.st.Marks(reg), l, j);
  }

  lemma OnlyTotals(reg: Registry, r: Run, b: Batch)
    requires RunReady(reg, r) && b in GatherOf(reg, r).batches && b.level == Total
    ensures b == Batch(Total, NONE, RunTotals(reg, r))
  {
    BatchesOf(reg, r, b);
    if l :| Frozenable(l) && b in JobBatches(reg, JobsAt(RunPlan(reg, r), l), r.st.offsets, r.got) {
      JobBatchLevel(reg, r, l, b);
      assert false;
    }
  }

  lemma TotalsGathered(reg: Registry, r: Run, own: Batch)
    requires RunReady(reg, r) && own == Batch(Total, NONE, RunTotals(reg, r))
    ensures own in GatherOf(reg, r).batches
  {
    var all := GatherOf(reg, r).batches;
    assert all[|all| - 1] == own;
  }

  /** A run writes one set of totals. */
  lemma TotalBatch(reg: Registry, r: Run, key: string, own: Batch)
    requires RunReady(reg, r) && own == Batch(Total, NONE, RunTotals(reg, r))
    ensures own in GatherOf(reg, r).batches && BatchOf(own, Cell(Total, key, NONE))
    ensures forall b :: b in GatherOf(reg, r).batches && BatchOf(b, Cell(Total, key, NONE)) ==> b == own
  {
    TotalsGathered(reg, r, own);
    forall b | b in GatherOf(reg, r).batches && BatchOf(b, Cell(Total, key, NONE))
      ensures b == own
    {
      OnlyTotals(reg, r, b);
    }
  }

  function FoldedThrough(reg: Registry, r: Run): int
    requires r.p.day >= MAX_NET_DAYS && r.st.Marks(reg).Marks()
  {
    FoldedYear(RunPlan(reg, r).years, r.st.baselineYear)
  }

  lemma LowestIsBeyond(reg: Registry, m: Meta, d: int)
    requires reg.dailyKeys != [] && ClosedBeyond(reg, m, d)
    ensures d <= m.LowestClosed(reg.dailyKeys)
  {
  }

  /** A folded year lies before the captured day. */
  lemma FoldedBeforeToday(reg: Registry, w: World, r: Run)
    requires Ready(reg, w, r) && reg.dailyKeys != []
    ensures 0 <= YearOf(r.st.cutover) - 1 <= FoldedThrough(reg, r)
    ensures YearLast(FoldedThrough(reg, r)) <= r.p.day
  {
    var years, y := RunPlan(reg, r).years, FoldedThrough(reg, r);
    FoldedYearBounds(years, r.st.baselineYear);
    FoldedYearReaches(years, r.st.baselineYear);
    if y != r.st.baselineYear {
      var j :| j in years && j.freeze && j.key == y;
      assert j in JobsAt(RunPlan(reg, r), Yearly);
      FreezingIsClosed(reg, w, r, Yearly, j);
    } else {
      BaselineBeforeToday(reg, r.st, y, r.p.day);
    }
  }

  lemma BaselineBeforeToday(reg: Registry, m: Meta, y: int, today: int)
    requires MarksOk(reg, m) && y == m.baselineYear && reg.dailyKeys != []
    requires m.LowestClosed(reg.dailyKeys) <= today && m.cutover <= today
    ensures 0 <= YearOf(m.cutover) - 1 <= y && YearLast(y) <= today
  {
    if y >= YearOf(m.cutover) {
      LowestIsBeyond(reg, m, YearLast(y));
    } else {
      YearOfUnique(m.cutover, YearOf(m.cutover));
    }
  }

  lemma SumsAcrossFold(hist: Rows, k: string, origin: nat, y: nat, today: int)
    requires origin <= YearFirst(y + 1) && YearLast(y) <= today
    ensures Sum(hist, k, origin, today) == Sum(hist, k, origin, YearLast(y)) + Sum(hist, k, YearFirst(y + 1), today)
  {
    SumSplit(hist, k, origin, YearLast(y), today);
  }

  lemma TotalIsAsked(reg: Registry, r: Run, e: Edge, y: nat) returns (q: Query)
    requires RunReady(reg, r) && e in reg.EdgesAt(Total) && y == FoldedThrough(reg, r)
    ensures Asks(reg, r, q) && q == JobQuery(TotalJob(r.p, y), e.source)
    ensures q.source == e.source && q.first == YearFirst(y + 1) && q.last == r.p.day
  {
    q := JobQuery(TotalJob(r.p, y), e.source);
    assert e.source in Sources(reg.EdgesAt(Total));
    assert AskedByTotals(reg, r.st, r.p, RunPlan(reg, r), q);
  }

  lemma ReadWithin(reg: Registry, w: World, r: Run, q: Query)
    requires Ready(reg, w, r) && Asks(reg, r, q)
    ensures q in r.got
    ensures Sum(r.seen, q.source, q.first, q.last) <= r.got[q] <= Sum(w.hist, q.source, q.first, q.last)
  {
    assert ReadOk(reg, w, r, q);
  }

  lemma TotalRead(reg: Registry, w: World, r: Run, e: Edge, y: nat, since: int)
    requires Ready(reg, w, r) && e in reg.EdgesAt(Total) && y == FoldedThrough(reg, r)
    requires since == Read(r.got, JobQuery(TotalJob(r.p, y), e.source))
    ensures Sum(r.seen, e.source, YearFirst(y + 1), r.p.day) <= since
    ensures since <= Sum(w.hist, e.source, YearFirst(y + 1), r.p.day)
  {
    var q := TotalIsAsked(reg, r, e, y);
    ReadWithin(reg, w, r, q);
  }

  /** A total row a run writes lies between what was accepted when the run began and what
      is accepted now, counted from 1 January of the cutover year through the captured day. */
  lemma TotalBounds(reg: Registry, w: World, r: Run, e: Edge)
    requires Ready(reg, w, r) && BaselineOk(reg, w) && e in reg.EdgesAt(Total)
    ensures Sum(r.seen, e.source, Origin(w.db.meta), r.p.day) <= TotalOf(reg, w, r, e)
    ensures TotalOf(reg, w, r, e) <= Sum(w.hist, e.source, Origin(w.db.meta), r.p.day)
  {
    var y, years := FoldedThrough(reg, r), RunPlan(reg, r).years;
    FoldedYearBounds(years, r.st.baselineYear);
    var k, base := e.source, BaseAfter(reg, years, r.st.baselineYear, r.st.baseline, r.got, e.target);
    var since := Read(r.got, JobQuery(TotalJob(r.p, y), k));
    assert PollerKey(reg, k) && reg.dailyKeys != [] by { SourceIsPollerKey(reg, Total, e); }
    assert YearOf(w.db.meta.cutover) - 1 <= y && 0 <= y && YearLast(y) <= r.p.day by {
      SameMarks(reg, w, r);
      FoldedBeforeToday(reg, w, r);
    }
    assert base == Sum(w.hist, k, Origin(w.db.meta), YearLast(y)) by {
      SameMarks(reg, w, r);
      FoldedBaselineIs(reg, w, r, e, years);
    }
    OriginBefore(w.db.meta, y);
    TotalRead(reg, w, r, e, y, since);
    TotalArithmetic(reg, w, r, k, Origin(w.db.meta), y, base, since);
  }

  lemma SeenBelow(reg: Registry, w: World, r: Run, k: string)
    requires Ready(reg, w, r) && PollerKey(reg, k)
    ensures forall d :: 0 <= At(r.seen, k, d) <= At(w.hist, k, d)
  {
  }

  lemma OriginBefore(m: Meta, y: nat)
    requires m.cutover >= 0 && YearOf(m.cutover) - 1 <= y
    ensures Origin(m) <= YearFirst(y + 1)
  {
    YearFirstMonotone(YearOf(m.cutover), y + 1);
  }

  lemma TotalArithmetic(
    reg: Registry, w: World, r: Run, k: string, origin: nat, y: nat, base: int, since: int)
    requires Ready(reg, w, r) && PollerKey(reg, k)
    requires origin <= YearFirst(y + 1) && YearLast(y) <= r.p.day
    requires base == Sum(w.hist, k, origin, YearLast(y))
    requires Sum(r.seen, k, YearFirst(y + 1), r.p.day) <= since <= Sum(w.hist, k, YearFirst(y + 1), r.p.day)
    ensures Sum(r.seen, k, origin, r.p.day) <= base + since <= Sum(w.hist, k, origin, r.p.day)
  {
    SeenBelow(reg, w, r, k);
    SumsAcrossFold(w.hist, k, origin, y, r.p.day);
    SumsAcrossFold(r.seen, k, origin, y, r.p.day);
    SumGrows(r.seen, w.hist, k, origin, YearLast(y), YearLast(y));
  }

  lemma FinishKeepsTotals(reg: Registry, w: World, w': World, r: Run)
    requires Ready(reg, w, r) && BaselineOk(reg, w)
    requires w'.db == After(reg, w, r) && w'.lastDay == r.p.day
    ensures w'.db.meta.cutover == w.db.meta.cutover
    ensures TotalsWithin(reg, w', w.hist)
  {
    CutoverAfter(reg, w, r);
    forall e | e in reg.EdgesAt(Total)
      ensures Cell(Total, e.target, NONE) in w'.db.rows
      ensures w'.db.rows[Cell(Total, e.target, NONE)] <= Sum(w.hist, e.source, Origin(w'.db.meta), r.p.day)
    {
      TotalWritten(reg, w, r, e);
      TotalBounds(reg, w, r, e);
    }
  }

  lemma FinishKeepsInv(reg: Registry, w: World)
    requires reg.Valid() && Inv(reg, w) && Enabled(reg, w, Finish)
    ensures Inv(reg, Step(reg, w, Finish))
  {
    var r, w' := w.run.value, Step(reg, w, Finish);
    assert w'.db == After(reg, w, r);
    FinishKeepsMarks(reg, w, r);
    FinishKeepsPurge(reg, w, r);
    FinishKeepsHist(reg, w, r);
    CutoverAfter(reg, w, r);
    forall e | e in reg.EdgesAt(Total)
      ensures Get(w'.db.meta.baseline, e.target)
           == Sum(w'.hist, e.source, Origin(w'.db.meta), YearLast(w'.db.meta.baselineYear))
    {
      BaselineAfterIs(reg, w, r, e);
    }
    FinishKeepsSettled(reg, w, r);
    FinishKeepsComplete(reg, w, w', r);
    FinishKeepsTotals(reg, w, w', r);
  }
}
