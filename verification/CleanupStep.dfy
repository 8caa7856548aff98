/** A retention cleanup keeps the ledger invariant, and nothing an aggregator run reads
    changes. */
module CleanupStep {
  import opened Calendar
  import opened Registers
  import opened Energy
  import opened Plan
  import opened Ledger
  import opened World
  import opened PollStep

  lemma PurgedMonotone(c: Cell, a: nat, b: nat)
    requires a <= b && Purged(c, a)
    ensures Purged(c, b)
  {
    if c.level == Monthly || c.level == Yearly {
      MonthReached(b, MonthOf(a));
    }
  }

  lemma CleanupKeepsMarks(reg: Registry, w: World, wanted: nat)
    requires MarksOk(reg, w.db.meta) && PurgeOk(w)
    ensures var w' := Step(reg, w, Cleanup(wanted));
      MarksOk(reg, w'.db.meta) && PurgeOk(w')
  {
    var w' := Step(reg, w, Cleanup(wanted));
    CleanupMoves(reg, w, wanted, w');
    MarksGrow(reg, w.db.meta, w'.db.meta);
    CleanupKeepsPurge(reg, w, wanted, w');
  }

  /** Only retention's two marks and the deleted rows differ. */
  predicate OnlyPurged(w: World, w': World) {
    && w' == w.(db := w'.db, cut := w'.cut)
    && w'.db.meta == w.db.meta.(purgedBefore := w'.db.meta.purgedBefore)
  }

  lemma CleanupMoves(reg: Registry, w: World, wanted: nat, w': World)
    requires w' == Step(reg, w, Cleanup(wanted))
    ensures OnlyPurged(w, w')
  {
  }

  lemma SameFirstOpenDay(m: Meta, m': Meta)
    requires m' == m.(purgedBefore := m'.purgedBefore)
    ensures FirstOpenDay(m') == FirstOpenDay(m)
  {
  }

  lemma CleanupKeepsPurge(reg: Registry, w: World, wanted: nat, w': World)
    requires w' == Step(reg, w, Cleanup(wanted)) && w.db.meta.baselineYear >= NONE && PurgeOk(w)
    ensures PurgeOk(w')
  {
    CleanupMoves(reg, w, wanted, w');
    SameFirstOpenDay(w.db.meta, w'.db.meta);
    CutStaysBelow(w, wanted, FirstOpenDay(w.db.meta), w'.cut, w'.db.meta.purgedBefore);
  }

  lemma CutStaysBelow(w: World, wanted: nat, first: int, cut: int, purged: int)
    requires w.cut <= first && w.db.meta.purgedBefore <= w.cut && first == FirstOpenDay(w.db.meta)
    requires cut == if CleanupDue(w.db.meta, wanted) then Max(w.cut, Cutoff(w.db.meta, wanted)) else w.cut
    requires purged == ApplyCleanup(DB(w.db.rows, w.db.meta), wanted).meta.purgedBefore
    ensures cut <= first && purged <= cut
  {
  }

  lemma CleanupKeepsHist(reg: Registry, w: World, wanted: nat)
    requires HistOk(reg, w) && w.db.meta.baselineYear >= NONE && PurgeOk(w)
    ensures HistOk(reg, Step(reg, w, Cleanup(wanted)))
  {
    var w' := Step(reg, w, Cleanup(wanted));
    forall k, d | PollerKey(reg, k) && d >= w'.db.meta.purgedBefore
      ensures SameCell(w'.db.rows, w.hist, Cell(Daily, k, d))
    {
      var c := Cell(Daily, k, d);
      assert SameCell(w.db.rows, w.hist, c);
      assert SameCell(w'.db.rows, w.db.rows, c);
    }
  }

  lemma CleanupKeepsCell(reg: Registry, w: World, wanted: nat, c: Cell)
    ensures CellKept(w, Step(reg, w, Cleanup(wanted)), c)
  {
    var w' := Step(reg, w, Cleanup(wanted));
    if CleanupDue(w.db.meta, wanted) {
      var cutoff := Cutoff(w.db.meta, wanted);
      if Purged(c, cutoff) { PurgedMonotone(c, cutoff, w'.cut); }
      if w.cut >= 0 && Purged(c, w.cut) { PurgedMonotone(c, w.cut, w'.cut); }
    }
  }

  lemma CleanupKeepsSettled(reg: Registry, w: World, wanted: nat)
    requires reg.Valid() && SettledOk(reg, w)
    ensures SettledOk(reg, Step(reg, w, Cleanup(wanted)))
  {
    var w' := Step(reg, w, Cleanup(wanted));
    forall l, k | (l, k) in w.settled
      ensures Frozenable(l) && 0 <= k <= w'.db.meta.Frozen(l) && PeriodSettled(reg, w', l, k)
    {
      forall key | InDomain(reg, l, key)
        ensures CellKept(w, w', Cell(l, key, k))
      {
        CleanupKeepsCell(reg, w, wanted, Cell(l, key, k));
      }
      PeriodTransfer(reg, w, w', l, k);
    }
  }

  lemma CleanupKeepsTotals(reg: Registry, w: World, wanted: nat, hist: Rows)
    requires w.db.meta.cutover >= 0 && TotalsWithin(reg, w, hist)
    ensures Step(reg, w, Cleanup(wanted)).db.meta.cutover >= 0
    ensures TotalsWithin(reg, Step(reg, w, Cleanup(wanted)), hist)
  {
    var w' := Step(reg, w, Cleanup(wanted));
    forall e | e in reg.EdgesAt(Total)
      ensures SameCell(w'.db.rows, w.db.rows, Cell(Total, e.target, NONE))
    {
    }
  }

  lemma CleanupKeepsRun(reg: Registry, w: World, wanted: nat, r: Run)
    requires w.db.meta.cutover >= 0 && RunOk(reg, w, r)
    ensures Step(reg, w, Cleanup(wanted)).db.meta.cutover >= 0
    ensures RunOk(reg, Step(reg, w, Cleanup(wanted)), r)
  {
    var w' := Step(reg, w, Cleanup(wanted));
    CleanupKeepsTotals(reg, w, wanted, r.seen);
    ClosedMore(reg, w.db.meta, w'.db.meta, r.st.LowestClosed(reg.dailyKeys));
    forall q | q in r.got
      ensures ReadOk(reg, w', r, q)
    {
      assert ReadOk(reg, w, r, q);
    }
  }

  lemma CleanupKeepsInv(reg: Registry, w: World, wanted: nat)
    requires reg.Valid() && Inv(reg, w)
    ensures Inv(reg, Step(reg, w, Cleanup(wanted)))
  {
    CleanupKeepsMarks(reg, w, wanted);
    CleanupKeepsHist(reg, w, wanted);
    CleanupKeepsSettled(reg, w, wanted);
    CleanupKeepsTotals(reg, w, wanted, w.hist);
    if w.run.Some? {
      CleanupKeepsRun(reg, w, wanted, w.run.value);
    }
    var w' := Step(reg, w, Cleanup(wanted));
    CleanupMoves(reg, w, wanted, w');
    PurgeKeepsBaseline(reg, w, w');
    PurgeKeepsComplete(w, w');
  }

  lemma PurgeKeepsBaseline(reg: Registry, w: World, w': World)
    requires OnlyPurged(w, w') && w.db.meta.cutover >= 0 && w.db.meta.baselineYear >= 0 && BaselineOk(reg, w)
    ensures BaselineOk(reg, w')
  {
  }

  lemma PurgeKeepsComplete(w: World, w': World)
    requires OnlyPurged(w, w') && w.db.meta.cutover >= CUTOVER_MARGIN && Complete(w)
    ensures Complete(w')
  {
  }

  // ---- what retention deletes ----

  /** A row of a period that ends before a day; a total is never over. */
  predicate OverBefore(c: Cell, day: int) {
    c.level != Total && (c.period < 0 || PeriodLast(c.level, c.period) < day)
  }

  lemma PurgedIsOver(c: Cell, cutoff: nat)
    ensures Purged(c, cutoff) <==> OverBefore(c, cutoff)
  {
    if c.period >= 0 {
      MonthReached(cutoff, c.period + 1);
      YearIsOver(cutoff, c.period);
    }
  }

  lemma YearIsOver(d: nat, y: nat)
    ensures y < YearOf(d) <==> YearLast(y) < d
  {
    MonthReached(d, 12 * (y + 1));
  }

  /** A cleanup that is due deletes exactly the daily, monthly and yearly rows of periods that
      end before its cutoff; the other rows keep their values, and no total is ever deleted. */
  lemma CleanupDeletesExactly(db: DB, wanted: nat, c: Cell)
    ensures var rows' := ApplyCleanup(db, wanted).rows;
      && (c in rows' ==> c in db.rows && rows'[c] == db.rows[c])
      && (c in db.rows ==> (c !in rows' <==> CleanupDue(db.meta, wanted) && OverBefore(c, Cutoff(db.meta, wanted))))
  {
    if CleanupDue(db.meta, wanted) {
      PurgedIsOver(c, Cutoff(db.meta, wanted));
    }
  }

  // ---- what a run reads lies after every cutoff ----

  lemma FirstOpenDayBelow(m: Meta)
    requires m.Frozen(Daily) >= 0 && m.Frozen(Monthly) >= 0 && m.Frozen(Yearly) >= 0 && m.baselineYear >= 0
    ensures var first := FirstOpenDay(m);
      && 0 <= first <= m.Frozen(Daily) + 1
      && first <= MonthFirst(m.Frozen(Monthly) + 1)
      && first <= YearFirst(m.Frozen(Yearly) + 1)
      && first <= YearFirst(m.baselineYear + 1)
  {
  }

  lemma OpenJobsStart(p: Period, w: Watermarks, l: Level, lo: nat, hi: int, sources: set<string>, q: Query)
    requires AskedBy(JobsFor(p, w, l, Range(lo, hi)), sources, q)
    ensures q.first >= PeriodFirst(l, lo)
  {
    var ks := Range(lo, hi);
    var jobs := JobsFor(p, w, l, ks);
    var j :| j in jobs && q == JobQuery(j, q.source);
    var i :| 0 <= i < |ks| && jobs[i] == j;
    JobStarts(p, w, l, lo, lo + i, j);
  }

  lemma JobStarts(p: Period, w: Watermarks, l: Level, lo: nat, k: nat, j: Job)
    requires lo <= k && j == JobFor(p, w, l, k)
    ensures j.first >= PeriodFirst(l, lo)
  {
    PeriodFirstMonotone(l, lo, k);
  }

  lemma PeriodFirstMonotone(l: Level, lo: nat, k: nat)
    requires lo <= k
    ensures PeriodFirst(l, lo) <= PeriodFirst(l, k)
  {
    PeriodLastMonotone(l, lo, k);
  }

  /** A plan whose watermarks are all set starts each level after its watermark. */
  lemma PlanStarts(p: Period, w: Watermarks, sources: set<string>, q: Query)
    requires p.day >= MAX_NET_DAYS && w.Marks()
    requires w.frozenNetDay != NONE && w.frozenMonth != NONE && w.frozenYear != NONE
    ensures var plan := PlanFor(p, w);
      && (AskedBy(plan.days, sources, q) ==> q.first >= w.frozenNetDay + 1)
      && (AskedBy(plan.months, sources, q) ==> q.first >= MonthFirst(w.frozenMonth + 1))
      && (AskedBy(plan.years, sources, q) ==> q.first >= YearFirst(w.frozenYear + 1))
  {
    var plan := PlanFor(p, w);
    if AskedBy(plan.days, sources, q) {
      OpenJobsStart(p, w, Daily, NetFloor(p, w) + 1, p.day, sources, q);
    }
    if AskedBy(plan.months, sources, q) {
      OpenJobsStart(p, w, Monthly, w.frozenMonth + 1, p.month, sources, q);
    }
    if AskedBy(plan.years, sources, q) {
      OpenJobsStart(p, w, Yearly, w.frozenYear + 1, p.year, sources, q);
    }
  }

  /** Every sum a run asks for starts on or after the first open day. */
  lemma QueriesAreOpen(reg: Registry, r: Run, q: Query)
    requires RunReady(reg, r) && Asks(reg, r, q)
    requires r.st.Frozen(Daily) >= 0 && r.st.Frozen(Monthly) >= 0 && r.st.Frozen(Yearly) >= 0
    requires r.st.baselineYear >= 0
    ensures q.first >= FirstOpenDay(r.st)
  {
    var w, open := r.st.Marks(reg), FirstOpenDay(r.st);
    MarksAfterOpen(reg, r.st, w, open);
    PlanQueriesAreOpen(reg, r.st, r.p, w, RunPlan(reg, r), q, open);
  }

  lemma MarksAfterOpen(reg: Registry, m: Meta, w: Watermarks, open: int)
    requires w == m.Marks(reg) && open == FirstOpenDay(m) && m.baselineYear >= 0
    requires w.frozenNetDay >= 0 && w.frozenMonth >= 0 && w.frozenYear >= 0
    ensures open <= w.frozenNetDay + 1 && open <= MonthFirst(w.frozenMonth + 1)
    ensures open <= YearFirst(w.frozenYear + 1) && open <= YearFirst(m.baselineYear + 1)
  {
    FirstOpenDayBelow(m);
  }

  lemma PlanQueriesAreOpen(reg: Registry, st: Meta, p: Period, w: Watermarks, plan: Plan, q: Query, open: int)
    requires p.day >= MAX_NET_DAYS && w.Marks() && plan == PlanFor(p, w) && st.baselineYear >= 0
    requires IsQuery(reg, st, p, plan, q)
    requires w.frozenNetDay != NONE && w.frozenMonth != NONE && w.frozenYear != NONE
    requires open <= w.frozenNetDay + 1 && open <= MonthFirst(w.frozenMonth + 1)
    requires open <= YearFirst(w.frozenYear + 1) && open <= YearFirst(st.baselineYear + 1)
    ensures q.first >= open
  {
    if AskedByTotals(reg, st, p, plan, q) {
      TotalsQueryStarts(reg, st, p, plan, q);
    } else {
      PlanStarts(p, w, NetSources(reg.NetsAt(Daily)), q);
      PlanStarts(p, w, Sources(reg.EdgesAt(Monthly)), q);
      PlanStarts(p, w, Sources(reg.EdgesAt(Yearly)), q);
    }
  }

  lemma TotalsQueryStarts(reg: Registry, st: Meta, p: Period, plan: Plan, q: Query)
    requires st.baselineYear >= 0 && AskedByTotals(reg, st, p, plan, q)
    ensures q.first >= YearFirst(st.baselineYear + 1)
  {
    TotalsStart(plan.years, st.baselineYear);
  }

  lemma TotalsStart(years: seq<Job>, baseYear: nat)
    ensures FoldedYear(years, baseYear) >= baseYear
    ensures TotalsFrom(FoldedYear(years, baseYear)) >= YearFirst(baseYear + 1)
  {
    FoldedYearBounds(years, baseYear);
    YearFirstMonotone(baseYear + 1, FoldedYear(years, baseYear) + 1);
  }

  /** Retention never changes what a run computes: a purge that is due now, whatever the
      configured retention, leaves every sum the run asks for as it was. */
  lemma CleanupKeepsQueries(reg: Registry, r: Run, rows: Rows, wanted: nat, q: Query)
    requires MarksOk(reg, r.st) && RunReady(reg, r) && Asks(reg, r, q)
    ensures Sum(ApplyCleanup(DB(rows, r.st), wanted).rows, q.source, q.first, q.last)
         == Sum(rows, q.source, q.first, q.last)
  {
    QueriesAreOpen(reg, r, q);
    SumAgrees(ApplyCleanup(DB(rows, r.st), wanted).rows, rows, q.source, q.first, q.last);
  }
}
