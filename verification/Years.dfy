/** From the cutover on, offsets, months and years keep in step: what makes every later year
    the sum of its months, and the baseline the sum of its years, without further provisos. */
module Years {
  import opened Calendar
  import opened Registers
  import opened Energy
  import opened Plan
  import opened Ledger
  import opened World
  import opened PollStep
  import opened CleanupStep
  import opened FinishRows
  import opened FinishStep
  import opened BackfillStep
  import opened Conservation
  import opened Agreement

  /** Offsets belong to periods that had begun at the cutover. */
  ghost predicate EarlyOffsets(m: Meta)
    requires m.cutover >= 0
  {
    forall c :: c in m.offsets ==>
      c.period <= (if c.level == Monthly then MonthOf(m.cutover) else YearOf(m.cutover))
  }

  /** The months of a frozen year are frozen, and every year frozen since the cutover is
      folded. */
  predicate InStep(m: Meta)
    requires m.cutover >= 0
  {
    && m.Frozen(Monthly) >= 12 * m.Frozen(Yearly) + 11
    && m.baselineYear == Max(m.Frozen(Yearly), YearOf(m.cutover) - 1)
  }

  lemma StartsInStep(reg: Registry, db: DB, p: Period)
    requires Fresh(reg, db, p)
    ensures Started(reg, db, p).db.meta.cutover >= 0
    ensures EarlyOffsets(Started(reg, db, p).db.meta) && InStep(Started(reg, db, p).db.meta)
  {
    CutoverFields(reg, db, p);
    StartMonth(p.day - CUTOVER_MARGIN);
    CutoverMarks(p);
  }

  lemma StartMonth(d: nat)
    ensures MonthOf(d) - 1 >= 12 * (YearOf(d) - 1) + 11
  {
  }

  /** A run that freezes a year freezes its last month with it. */
  lemma LastMonthFreezes(reg: Registry, w: World, r: Run, y: nat, k: nat)
    requires Ready(reg, w, r) && k == 12 * y + 11
    requires w.db.meta.Frozen(Yearly) < y == After(reg, w, r).meta.Frozen(Yearly)
    ensures After(reg, w, r).meta.Frozen(Monthly) >= k
  {
    YearEnds(reg, w, r, y);
    YearEndsMonth(y, k);
    ClosedMonthFreezes(reg, w, r, k);
  }

  lemma YearEndsMonth(y: nat, k: nat)
    requires k == 12 * y + 11
    ensures YearLast(y) == MonthLast(k)
  {
    assert k + 1 == 12 * (y + 1);
  }

  lemma ClosedMonthFreezes(reg: Registry, w: World, r: Run, k: nat)
    requires Ready(reg, w, r) && MonthLast(k) <= r.st.LowestClosed(reg.dailyKeys)
    ensures After(reg, w, r).meta.Frozen(Monthly) >= k
  {
    SameMarks(reg, w, r);
    MarkAfter(reg, w, r, Monthly);
    if w.db.meta.Frozen(Monthly) < k {
      MonthJob(r.p, r.st.Marks(reg), k);
    }
  }

  lemma YearEnds(reg: Registry, w: World, r: Run, y: nat)
    requires Ready(reg, w, r)
    requires w.db.meta.Frozen(Yearly) < y == After(reg, w, r).meta.Frozen(Yearly)
    ensures YearLast(y) <= r.st.LowestClosed(reg.dailyKeys)
  {
    MarkAfter(reg, w, r, Yearly);
    var top :| top in JobsAt(RunPlan(reg, r), Yearly) && top.freeze && top.key == y;
    FreezingIsClosed(reg, w, r, Yearly, top);
  }

  /** A month that has ended and is closed is among the jobs, and frozen. */
  lemma MonthJob(p: Period, w: Watermarks, k: nat)
    requires p.Valid() && w.Marks() && w.frozenMonth != NONE && w.frozenMonth < k
    requires MonthLast(k) <= w.closedThrough <= p.day
    ensures exists j :: j in JobsAt(PlanFor(p, w), Monthly) && j.freeze && j.key == k
  {
    MonthReached(p.day, k);
    MonthFirstMonotone(k, k + 1);
    var jobs := PlanFor(p, w).months;
    var j := jobs[k - (w.frozenMonth + 1)];
    assert j in jobs && j == JobFor(p, w, Monthly, k);
  }

  lemma FinishStaysInStep(reg: Registry, w: World, r: Run)
    requires Ready(reg, w, r) && InStep(w.db.meta)
    ensures After(reg, w, r).meta.cutover == w.db.meta.cutover
    ensures InStep(After(reg, w, r).meta)
  {
    MetaAfter(reg, w, r);
    BaselineFollows(reg, w, r);
    MonthsFollow(reg, w, r, After(reg, w, r).meta.Frozen(Yearly));
  }

  lemma MonthsFollow(reg: Registry, w: World, r: Run, y: int)
    requires Ready(reg, w, r) && w.db.meta.Frozen(Monthly) >= 12 * w.db.meta.Frozen(Yearly) + 11
    requires y == After(reg, w, r).meta.Frozen(Yearly)
    ensures After(reg, w, r).meta.Frozen(Monthly) >= 12 * y + 11
  {
    MarkAfter(reg, w, r, Yearly);
    MarkAfter(reg, w, r, Monthly);
    if y > w.db.meta.Frozen(Yearly) {
      LastMonthFreezes(reg, w, r, y, 12 * y + 11);
    }
  }

  /** The last folded year is the last frozen one, or the one before the cutover. */
  lemma BaselineFollows(reg: Registry, w: World, r: Run)
    requires Ready(reg, w, r)
    ensures var m, m' := w.db.meta, After(reg, w, r).meta;
      (m.baselineYear == Max(m.Frozen(Yearly), YearOf(m.cutover) - 1))
      ==> (m'.baselineYear == Max(m'.Frozen(Yearly), YearOf(m.cutover) - 1))
  {
    var years, m, m' := RunPlan(reg, r).years, w.db.meta, After(reg, w, r).meta;
    MetaAfter(reg, w, r);
    MarkAfter(reg, w, r, Yearly);
    assert years == JobsAt(RunPlan(reg, r), Yearly);
    FoldedYearReaches(years, m.baselineYear);
    FoldedYearBounds(years, m.baselineYear);
  }

  lemma StepStaysInStep(reg: Registry, w: World, e: Event)
    requires reg.Valid() && Inv(reg, w) && Enabled(reg, w, e)
    requires EarlyOffsets(w.db.meta) && InStep(w.db.meta)
    ensures Step(reg, w, e).db.meta.cutover == w.db.meta.cutover
    ensures EarlyOffsets(Step(reg, w, e).db.meta) && InStep(Step(reg, w, e).db.meta)
  {
    match e
    case Poll(rows, closes) => CloseDaysGrow(reg, w.db.meta, closes);
    case Finish =>
      MetaAfter(reg, w, w.run.value);
      FinishStaysInStep(reg, w, w.run.value);
    case Backfill(now, years) =>
      BackfillFrame(reg, w, now, years);
      BackfillOnlyAdds(reg, w, now, years);
    case _ =>
  }

  ghost predicate Aligned(m: Meta) {
    m.cutover >= 0 && EarlyOffsets(m) && InStep(m)
  }

  ghost predicate AlignedStep(ws: seq<World>, i: int) {
    0 <= i && i + 1 < |ws| && (Aligned(ws[i].db.meta) ==> Aligned(ws[i + 1].db.meta))
  }

  lemma {:induction false} AlignedThroughout(ws: seq<World>, n: nat)
    requires n < |ws| && Aligned(ws[0].db.meta) && forall i :: 0 <= i < n ==> AlignedStep(ws, i)
    ensures Aligned(ws[n].db.meta)
  {
    if n > 0 {
      AlignedThroughout(ws, n - 1);
      assert AlignedStep(ws, n - 1);
    }
  }

  lemma HistoryAlignedStep(reg: Registry, ws: seq<World>, es: seq<Event>, i: nat)
    requires reg.Valid() && History(reg, ws, es) && i < |es|
    ensures AlignedStep(ws, i)
  {
    HistoryKeepsInv(reg, ws, es, i);
    StepInHistory(reg, ws, es, i);
    if Aligned(ws[i].db.meta) {
      StepStaysInStep(reg, ws[i], es[i]);
    }
  }

  lemma HistoryStartsInStep(reg: Registry, ws: seq<World>, es: seq<Event>)
    requires History(reg, ws, es)
    ensures Aligned(ws[0].db.meta)
  {
    var db, p :| Fresh(reg, db, p) && ws[0] == Started(reg, db, p);
    StartsInStep(reg, db, p);
  }

  /** In every reachable state, offsets belong to periods that had begun at the cutover, the
      months of a frozen year are frozen, and every year frozen since the cutover is folded. */
  lemma HistoryInStep(reg: Registry, ws: seq<World>, es: seq<Event>, n: nat)
    requires reg.Valid() && History(reg, ws, es) && n < |ws|
    ensures ws[n].db.meta.cutover >= 0 && EarlyOffsets(ws[n].db.meta) && InStep(ws[n].db.meta)
  {
    HistoryStartsInStep(reg, ws, es);
    forall i | 0 <= i < n
      ensures AlignedStep(ws, i)
    {
      HistoryAlignedStep(reg, ws, es, i);
    }
    AlignedThroughout(ws, n);
  }

  // ---- a year is its months, the baseline its years ----

  /** The row of the edge's key is stored. */
  predicate Kept(w: World, e: Edge, k: int) {
    Cell(e.level, e.target, k) in w.db.rows
  }

  lemma LaterPeriodStands(reg: Registry, w: World, e: Edge, k: nat)
    requires e in reg.EdgesAt(e.level) && (e.level == Monthly || e.level == Yearly)
    requires w.db.meta.cutover >= CUTOVER_MARGIN && Complete(w) && MarksOk(reg, w.db.meta)
    requires EarlyOffsets(w.db.meta) && k <= w.db.meta.Frozen(e.level) && Kept(w, e, k)
    requires (if e.level == Monthly then MonthOf(w.db.meta.cutover) else YearOf(w.db.meta.cutover)) < k
    ensures Stands(reg, w, e, k)
  {
    MonthReached(w.db.meta.cutover, MonthOf(w.db.meta.cutover - CUTOVER_MARGIN));
    assert MonthOf(w.db.meta.cutover - CUTOVER_MARGIN) <= MonthOf(w.db.meta.cutover);
    assert (e.level, k) in w.settled;
  }

  /** In every reachable state, the row of a frozen year after the cutover year is the sum of
      the rows of its twelve months. */
  lemma YearIsItsMonths(reg: Registry, ws: seq<World>, es: seq<Event>, i: nat, y: Edge, m: Edge,
    year: nat, first: nat, last: nat)
    requires reg.Valid() && History(reg, ws, es) && i < |ws| && ws[i].db.meta.cutover >= 0
    requires y in reg.EdgesAt(Yearly) && m in reg.EdgesAt(Monthly) && m.source == y.source
    requires first == 12 * year && last == first + 11
    requires YearOf(ws[i].db.meta.cutover) < year <= ws[i].db.meta.Frozen(Yearly) && Kept(ws[i], y, year)
    requires forall x: nat :: first <= x <= last ==> Kept(ws[i], m, x)
    ensures ws[i].db.rows[Cell(Yearly, y.target, year)] == MonthlySum(ws[i].db.rows, m.target, first, last)
  {
    HistoryInStep(reg, ws, es, i);
    HistoryKeepsInv(reg, ws, es, i);
    LaterYear(reg, ws[i], y, m, year, first, last);
  }

  lemma LaterYear(reg: Registry, w: World, y: Edge, m: Edge, year: nat, first: nat, last: nat)
    requires reg.Valid() && Inv(reg, w) && EarlyOffsets(w.db.meta) && InStep(w.db.meta)
    requires y in reg.EdgesAt(Yearly) && m in reg.EdgesAt(Monthly) && m.source == y.source
    requires first == 12 * year && last == first + 11
    requires YearOf(w.db.meta.cutover) < year <= w.db.meta.Frozen(Yearly) && Kept(w, y, year)
    requires forall x: nat :: first <= x <= last ==> Kept(w, m, x)
    ensures w.db.rows[Cell(Yearly, y.target, year)] == MonthlySum(w.db.rows, m.target, first, last)
  {
    LaterPeriodStands(reg, w, y, year);
    forall x: nat | first <= x <= last
      ensures Stands(reg, w, m, x)
    {
      LaterPeriodStands(reg, w, m, x);
    }
    AgreedYear(reg, w, y, m, year, first, last);
  }

  lemma FoldedYearStands(reg: Registry, w: World, y: Edge, x: nat)
    requires y in reg.EdgesAt(Yearly) && MarksOk(reg, w.db.meta)
    requires w.db.meta.cutover >= CUTOVER_MARGIN && Complete(w)
    requires EarlyOffsets(w.db.meta) && InStep(w.db.meta)
    requires YearOf(w.db.meta.cutover) <= x <= w.db.meta.baselineYear && Kept(w, y, x)
    requires x == YearOf(w.db.meta.cutover) ==> NoOffset(w.db.meta, Yearly, x)
    ensures Stands(reg, w, y, x)
  {
    MonthReached(w.db.meta.cutover, MonthOf(w.db.meta.cutover - CUTOVER_MARGIN));
    assert MonthOf(w.db.meta.cutover - CUTOVER_MARGIN) <= MonthOf(w.db.meta.cutover);
    assert (Yearly, x) in w.settled;
  }

  /** In every reachable state, the baseline of a total is the sum of the rows of the years
      folded into it, as long as retention has kept them and the cutover year carries no
      offset. */
  lemma BaselineIsItsYears(reg: Registry, ws: seq<World>, es: seq<Event>, i: nat, t: Edge, y: Edge)
    requires reg.Valid() && History(reg, ws, es) && i < |ws|
    requires t in reg.EdgesAt(Total) && y in reg.EdgesAt(Yearly) && y.source == t.source
    requires ws[i].db.meta.cutover >= 0
    requires NoOffset(ws[i].db.meta, Yearly, YearOf(ws[i].db.meta.cutover))
    requires forall x: nat :: YearOf(ws[i].db.meta.cutover) <= x <= ws[i].db.meta.baselineYear ==> Kept(ws[i], y, x)
    ensures Get(ws[i].db.meta.baseline, t.target)
         == YearlySum(ws[i].db.rows, y.target, YearOf(ws[i].db.meta.cutover), ws[i].db.meta.baselineYear)
  {
    HistoryInStep(reg, ws, es, i);
    HistoryKeepsInv(reg, ws, es, i);
    AllFoldedYears(reg, ws[i], t, y, YearOf(ws[i].db.meta.cutover), ws[i].db.meta.baselineYear);
  }

  lemma AllFoldedYears(reg: Registry, w: World, t: Edge, y: Edge, first: nat, last: nat)
    requires reg.Valid() && SettledOk(reg, w) && MarksOk(reg, w.db.meta) && BaselineOk(reg, w) && Complete(w)
    requires EarlyOffsets(w.db.meta) && InStep(w.db.meta)
    requires t in reg.EdgesAt(Total) && y in reg.EdgesAt(Yearly) && y.source == t.source
    requires first == YearOf(w.db.meta.cutover) && last == w.db.meta.baselineYear && NoOffset(w.db.meta, Yearly, first)
    requires forall x: nat :: first <= x <= last ==> Kept(w, y, x)
    ensures Get(w.db.meta.baseline, t.target) == YearlySum(w.db.rows, y.target, first, last)
  {
    forall x: nat | first <= x <= last
      ensures Stands(reg, w, y, x)
    {
      FoldedYearStands(reg, w, y, x);
    }
    StandingMonths(reg, w, y, first, last);
    FoldedYears(reg, w, t, y, first, last);
  }
}
