/** How the levels of the ledger agree with each other, and what retention cannot change. */
module Agreement {
  import opened Calendar
  import opened Registers
  import opened Energy
  import opened Plan
  import opened Ledger
  import opened World
  import opened PollStep
  import opened CleanupStep
  import opened FinishValues
  import opened FinishRows
  import opened FinishStep
  import opened BackfillStep
  import opened Conservation

  // ---- a year is its twelve months ----

  /** The stored rows of a monthly key over the months first..last. */
  function MonthlySum(rows: Rows, key: string, first: nat, last: int): int
    decreases last - first
  {
    if last < first then 0
    else
      MonthlySum(rows, key, first, last - 1)
      + (if Cell(Monthly, key, last) in rows then rows[Cell(Monthly, key, last)] else 0)
  }

  /** The row of a settled period that carries no offset: the accepted rows of its days. */
  ghost predicate PlainRow(w: World, e: Edge, k: nat) {
    var c := Cell(e.level, e.target, k);
    c in w.db.rows && w.db.rows[c] == Sum(w.hist, e.source, PeriodFirst(e.level, k), PeriodLast(e.level, k))
  }

  /** Settled, free of offsets and not removed by retention. */
  ghost predicate Stands(reg: Registry, w: World, e: Edge, k: nat) {
    && e in reg.EdgesAt(e.level) && (e.level, k) in w.settled && NoOffset(w.db.meta, e.level, k)
    && Cell(e.level, e.target, k) in w.db.rows
  }

  lemma StandingRow(reg: Registry, w: World, e: Edge, k: nat)
    requires reg.Valid() && SettledOk(reg, w) && Stands(reg, w, e, k)
    ensures PlainRow(w, e, k)
  {
    assert PeriodSettled(reg, w, e.level, k);
    assert EdgeSettled(reg, w, e, e.level, k);
    SourceIsPollerKey(reg, e.level, e);
  }

  lemma {:induction false} MonthsAddUp(w: World, m: Edge, first: nat, last: int)
    requires m.level == Monthly && first <= last + 1
    requires forall x: nat :: first <= x <= last ==> PlainRow(w, m, x)
    ensures MonthlySum(w.db.rows, m.target, first, last)
         == Sum(w.hist, m.source, MonthFirst(first), MonthFirst(last + 1) - 1)
    decreases last - first
  {
    if first <= last {
      MonthsAddUp(w, m, first, last - 1);
      MonthFirstMonotone(first, last);
      MonthFirstMonotone(last, last + 1);
      SumSplit(w.hist, m.source, MonthFirst(first), MonthFirst(last) - 1, MonthLast(last));
      assert PlainRow(w, m, last);
    }
  }

  /** In every reachable state, the row of a settled year without an offset is the sum of
      the rows of its twelve settled months, if they carry none either. */
  lemma PlainYearIsItsMonths(
    reg: Registry, ws: seq<World>, es: seq<Event>, i: nat, y: Edge, m: Edge, year: nat, first: nat, last: nat)
    requires reg.Valid() && History(reg, ws, es) && i < |ws|
    requires y.level == Yearly && m.level == Monthly && m.source == y.source
    requires first == 12 * year && last == first + 11 && Stands(reg, ws[i], y, year)
    requires forall x: nat :: first <= x <= last ==> Stands(reg, ws[i], m, x)
    ensures ws[i].db.rows[Cell(Yearly, y.target, year)] == MonthlySum(ws[i].db.rows, m.target, first, last)
  {
    SettledInHistory(reg, ws, es, i);
    AgreedYear(reg, ws[i], y, m, year, first, last);
  }

  lemma SettledInHistory(reg: Registry, ws: seq<World>, es: seq<Event>, i: nat)
    requires reg.Valid() && History(reg, ws, es) && i < |ws|
    ensures SettledOk(reg, ws[i])
  {
    HistoryKeepsInv(reg, ws, es, i);
  }

  lemma AgreedYear(reg: Registry, w: World, y: Edge, m: Edge, year: nat, first: nat, last: nat)
    requires reg.Valid() && SettledOk(reg, w)
    requires y.level == Yearly && m.level == Monthly && m.source == y.source && Stands(reg, w, y, year)
    requires first == 12 * year && last == first + 11
    requires forall x: nat :: first <= x <= last ==> Stands(reg, w, m, x)
    ensures w.db.rows[Cell(Yearly, y.target, year)] == MonthlySum(w.db.rows, m.target, first, last)
  {
    StandingRow(reg, w, y, year);
    StandingMonths(reg, w, m, first, last);
    MonthsOfYear(w, y, m, year, first, last);
  }

  lemma StandingMonths(reg: Registry, w: World, m: Edge, first: nat, last: nat)
    requires reg.Valid() && SettledOk(reg, w)
    requires forall x: nat :: first <= x <= last ==> Stands(reg, w, m, x)
    ensures forall x: nat :: first <= x <= last ==> PlainRow(w, m, x)
  {
    forall x: nat | first <= x <= last
      ensures PlainRow(w, m, x)
    {
      StandingRow(reg, w, m, x);
    }
  }

  lemma MonthsOfYear(w: World, y: Edge, m: Edge, year: nat, first: nat, last: nat)
    requires y.level == Yearly && m.level == Monthly && m.source == y.source
    requires PlainRow(w, y, year) && first == 12 * year && last == first + 11
    requires forall x: nat :: first <= x <= last ==> PlainRow(w, m, x)
    ensures w.db.rows[Cell(Yearly, y.target, year)] == MonthlySum(w.db.rows, m.target, first, last)
  {
    MonthsAddUp(w, m, first, last);
    NextYearFirst(year, last + 1);
  }

  lemma NextYearFirst(year: nat, m: nat)
    requires m == 12 * year + 12
    ensures MonthFirst(m) == YearFirst(year + 1)
  {
    assert m == 12 * (year + 1);
  }

  // ---- a year and the amount folded ----

  /** The stored rows of a yearly key over the years first..last. */
  function YearlySum(rows: Rows, key: string, first: nat, last: int): int
    decreases last - first
  {
    if last < first then 0
    else
      YearlySum(rows, key, first, last - 1)
      + (if Cell(Yearly, key, last) in rows then rows[Cell(Yearly, key, last)] else 0)
  }

  lemma {:induction false} YearsAddUp(w: World, y: Edge, first: nat, last: int)
    requires y.level == Yearly && first <= last + 1
    requires forall x: nat :: first <= x <= last ==> PlainRow(w, y, x)
    ensures YearlySum(w.db.rows, y.target, first, last)
         == Sum(w.hist, y.source, YearFirst(first), YearFirst(last + 1) - 1)
    decreases last - first
  {
    if first <= last {
      YearsAddUp(w, y, first, last - 1);
      OneMoreYear(w.hist, y.source, first, last);
      assert PlainRow(w, y, last);
    }
  }

  lemma OneMoreYear(hist: Rows, k: string, first: nat, last: nat)
    requires first <= last
    ensures Sum(hist, k, YearFirst(first), YearLast(last))
         == Sum(hist, k, YearFirst(first), YearFirst(last) - 1) + Sum(hist, k, YearFirst(last), YearLast(last))
  {
    YearFirstMonotone(first, last);
    YearFirstMonotone(last, last + 1);
    SumSplit(hist, k, YearFirst(first), YearFirst(last) - 1, YearLast(last));
  }

  lemma FoldedYears(reg: Registry, w: World, t: Edge, y: Edge, first: nat, last: nat)
    requires MarksOk(reg, w.db.meta) && BaselineOk(reg, w) && t in reg.EdgesAt(Total)
    requires y.level == Yearly && y.source == t.source
    requires first == YearOf(w.db.meta.cutover) && last == w.db.meta.baselineYear
    requires forall x: nat :: first <= x <= last ==> PlainRow(w, y, x)
    ensures Get(w.db.meta.baseline, t.target) == YearlySum(w.db.rows, y.target, first, last)
  {
    BaselineYears(reg, w, t, first, last);
    YearRowsAddUp(w, y, first, last);
  }

  lemma YearRowsAddUp(w: World, y: Edge, first: nat, last: nat)
    requires y.level == Yearly && first <= last + 1
    requires forall x: nat :: first <= x <= last ==> PlainRow(w, y, x)
    ensures YearlySum(w.db.rows, y.target, first, last) == Sum(w.hist, y.source, YearFirst(first), YearLast(last))
  {
    YearsAddUp(w, y, first, last);
  }

  lemma BaselineYears(reg: Registry, w: World, t: Edge, first: nat, last: nat)
    requires MarksOk(reg, w.db.meta) && BaselineOk(reg, w) && t in reg.EdgesAt(Total)
    requires first == YearOf(w.db.meta.cutover) && last == w.db.meta.baselineYear
    ensures first <= last + 1
    ensures Get(w.db.meta.baseline, t.target) == Sum(w.hist, t.source, YearFirst(first), YearLast(last))
  {
    BaselineSoFar(reg, w, t, last, YearFirst(first));
  }

  /** A run that freezes a year writes the same amount to its row as it folds into the
      baseline, offsets aside. */
  lemma FoldIsTheYearRow(reg: Registry, w: World, r: Run, j: Job, t: Edge, y: Edge)
    requires Ready(reg, w, r) && j in RunPlan(reg, r).years && j.freeze
    requires t in reg.EdgesAt(Total) && y in reg.EdgesAt(Yearly) && y.source == t.source
    ensures j.key >= 0
    ensures var rows, c := After(reg, w, r).rows, Cell(Yearly, y.target, j.key);
      && c in rows
      && rows[c] == Get(YearAdd(reg, j, r.got), t.target) + r.st.Offset(Yearly, y.target, j.key)
  {
    assert j in JobsAt(RunPlan(reg, r), Yearly);
    FreezingIsClosed(reg, w, r, Yearly, j);
    FreezingIsRead(reg, w, r, Yearly, j);
    FrozenEdgeExact(reg, w, r, Yearly, j, y);
    YearAddExact(reg, w.hist, j, r.got, t);
    SourceIsPollerKey(reg, Yearly, y);
  }

  // ---- a run with nothing between its steps ----

  /** Every sum the run asks for, read from one state of the rows. */
  function ReadAll(reg: Registry, st: Meta, p: Period, plan: Plan, rows: Rows): Reads
    requires st.baselineYear >= NONE
  {
    map q | q in AllQueriesOf(reg, p, st, plan) :: Sum(rows, q.source, q.first, q.last)
  }

  lemma ReadAllAsks(reg: Registry, st: Meta, p: Period, plan: Plan, rows: Rows, q: Query)
    requires st.baselineYear >= NONE
    ensures q in ReadAll(reg, st, p, plan, rows) <==> IsQuery(reg, st, p, plan, q)
  {
    FoldedYearBounds(plan.years, st.baselineYear);
    var total := TotalJob(p, FoldedYear(plan.years, st.baselineYear));
    assert total in [total];
  }

  /** What a run over one state writes. */
  function Executed(reg: Registry, db: DB, p: Period): Computed
    requires p.day >= MAX_NET_DAYS && db.meta.Marks(reg).Marks() && db.meta.baselineYear >= NONE
  {
    var plan := PlanFor(p, db.meta.Marks(reg));
    Gather(reg, db.meta, p, plan, ReadAll(reg, db.meta, p, plan, db.rows))
  }

  lemma SamePurgeMarks(reg: Registry, m: Meta, purged: int)
    ensures m.(purgedBefore := purged).Marks(reg) == m.Marks(reg)
  {
    SameLowest(m, m.(purgedBefore := purged), reg.dailyKeys);
  }

  lemma CleanupKeepsReads(reg: Registry, db: DB, p: Period, wanted: nat, plan: Plan)
    requires MarksOk(reg, db.meta) && p.day >= MAX_NET_DAYS && db.meta.Marks(reg).Marks()
    requires plan == PlanFor(p, db.meta.Marks(reg))
    ensures ReadAll(reg, db.meta, p, plan, ApplyCleanup(db, wanted).rows)
         == ReadAll(reg, db.meta, p, plan, db.rows)
  {
    var a, b := ReadAll(reg, db.meta, p, plan, ApplyCleanup(db, wanted).rows), ReadAll(reg, db.meta, p, plan, db.rows);
    forall q | q in b
      ensures a[q] == b[q]
    {
      ReadAllAsks(reg, db.meta, p, plan, db.rows, q);
      CleanupKeepsQueries(reg, Run(p, db.meta, map[], db.rows), db.rows, wanted, q);
    }
  }

  /** Retention preserves meaning: whatever retention is configured, a run after a cleanup
      writes the same rows, freezes and folds as a run without it. */
  lemma CleanupKeepsRuns(reg: Registry, db: DB, p: Period, wanted: nat)
    requires MarksOk(reg, db.meta) && p.day >= MAX_NET_DAYS
    ensures db.meta.Marks(reg).Marks()
    ensures ApplyCleanup(db, wanted).meta.Marks(reg).Marks()
    ensures ApplyCleanup(db, wanted).meta.baselineYear == db.meta.baselineYear
    ensures Executed(reg, ApplyCleanup(db, wanted), p) == Executed(reg, db, p)
  {
    var db' := ApplyCleanup(db, wanted);
    SamePurgeMarks(reg, db.meta, db'.meta.purgedBefore);
    assert db'.meta == db.meta.(purgedBefore := db'.meta.purgedBefore);
    CleanupKeepsReads(reg, db, p, wanted, PlanFor(p, db.meta.Marks(reg)));
  }

  // ---- a run's rows are never rejected ----

  lemma JobValueKeys(reg: Registry, j: Job, offsets: map<Cell, int>, got: Reads, key: string)
    requires reg.Valid() && key in JobValues(reg, j, offsets, got)
    ensures InDomain(reg, j.level, key)
  {
    EdgesFunctional(reg, j.level);
    if j.level == Daily {
      NetKeys(reg, Daily, SumsOf(NetSources(reg.NetsAt(Daily)), j, got), key);
    } else {
      LevelValueKeys(reg, j, offsets, got, key);
    }
  }

  lemma LevelValueKeys(reg: Registry, j: Job, offsets: map<Cell, int>, got: Reads, key: string)
    requires reg.Valid() && j.level != Daily && key in LevelValues(reg, j, offsets, got)
    ensures InDomain(reg, j.level, key)
  {
    var vals := EdgeValues(reg, j, offsets, got);
    if key in vals {
      EdgeValueKeys(reg, j, offsets, got, key);
    } else {
      NetKeys(reg, j.level, vals, key);
    }
  }

  lemma EdgeValueKeys(reg: Registry, j: Job, offsets: map<Cell, int>, got: Reads, key: string)
    requires reg.Valid() && key in EdgeValues(reg, j, offsets, got)
    ensures InDomain(reg, j.level, key)
  {
    EdgeKeys(reg, j.level, SumsOf(Sources(reg.EdgesAt(j.level)), j, got), key);
  }

  lemma TotalValueKeys(reg: Registry, p: Period, base: Values, y: int, got: Reads, key: string)
    requires reg.Valid() && y >= NONE && key in TotalValues(reg, p, base, y, got)
    ensures InDomain(reg, Total, key)
  {
    var edges := reg.EdgesAt(Total);
    var since := SumsOf(Sources(edges), TotalJob(p, y), got);
    if key in Totals(edges, base, since) {
      TotalEdgeKeys(reg, base, since, key);
    } else {
      NetKeys(reg, Total, Totals(edges, base, since), key);
    }
  }

  lemma TotalEdgeKeys(reg: Registry, base: Values, since: Values, key: string)
    requires reg.Valid() && key in Totals(reg.EdgesAt(Total), base, since)
    ensures InDomain(reg, Total, key)
  {
    EdgesFunctional(reg, Total);
    TotalsApplied(reg.EdgesAt(Total), base, since);
    var e :| e in reg.EdgesAt(Total) && e.target == key;
    assert reg.EdgeOk(e);
  }

  /** Although polls and cleanups ran since it captured the state, a finishing run has no
      row rejected: every key is in its domain and no period was frozen meanwhile. */
  lemma RunRowsAccepted(reg: Registry, w: World, r: Run, b: Batch, key: string)
    requires Ready(reg, w, r) && b in GatherOf(reg, r).batches && key in b.vals
    ensures ComputedAccepted(reg, w.db.meta, b.level, key, b.period)
  {
    if b.level != Total {
      GatherSplit(reg, r, b);
      var l :| Frozenable(l) && b in JobBatches(reg, JobsAt(RunPlan(reg, r), l), r.st.offsets, r.got);
      BatchesAreJobs(reg, JobsAt(RunPlan(reg, r), l), r.st.offsets, r.got, b);
      var j :| j in JobsAt(RunPlan(reg, r), l) && b == Batch(j.level, j.key, JobValues(reg, j, r.st.offsets, r.got));
      JobValueKeys(reg, j, r.st.offsets, r.got, key);
      JobsFollowMark(reg, r, l, j);
      PlanJobIs(r.p, r.st.Marks(reg), l, j);
      SameMarks(reg, w, r);
    } else {
      TotalRowAccepted(reg, r, b, key);
    }
  }

  lemma TotalRowAccepted(reg: Registry, r: Run, b: Batch, key: string)
    requires reg.Valid() && RunReady(reg, r) && b in GatherOf(reg, r).batches && key in b.vals && b.level == Total
    ensures InDomain(reg, Total, key)
  {
    OnlyTotals(reg, r, b);
    RunTotalKeys(reg, r, key);
  }

  lemma RunTotalKeys(reg: Registry, r: Run, key: string)
    requires reg.Valid() && RunReady(reg, r) && key in RunTotals(reg, r)
    ensures InDomain(reg, Total, key)
  {
    FoldedYearBounds(RunPlan(reg, r).years, r.st.baselineYear);
    TotalValueKeys(reg, r.p, FoldedBase(r.st.baseline, YearFolds(reg, RunPlan(reg, r).years, r.st.baselineYear, r.got)),
      FoldedYear(RunPlan(reg, r).years, r.st.baselineYear), r.got, key);
  }
}
