/** Net rows are export minus import at every level. */
module Nets {
  import opened Calendar
  import opened Registers
  import opened Energy
  import opened Plan
  import opened Ledger
  import opened World
  import opened PollStep
  import opened FinishValues
  import opened FinishRows
  import opened FinishStep
  import opened BackfillStep
  import opened Conservation
  import opened Coverage

  /** The three rows of a net pair in one period, and their relation. */
  ghost predicate Differs(rows: Rows, n: NetPair, k: int) {
    var net, exported, imported :=
      Cell(n.level, n.target, k), Cell(n.level, n.exported, k), Cell(n.level, n.imported, k);
    && net in rows && exported in rows && imported in rows
    && rows[net] == rows[exported] - rows[imported]
  }

  // ---- months and years ----

  lemma PartRow(reg: Registry, w: World, l: Level, key: string, k: nat)
    requires reg.Valid() && l != Daily && reg.IsStore(key, StoreForLevel(l), false)
    requires PeriodSettled(reg, w, l, k) && Cell(l, key, k) in w.db.rows
    ensures w.db.rows[Cell(l, key, k)] == Part(reg, w.hist, w.db.meta, l, key, k)
  {
    NetPartSource(reg, l, key);
    var e :| e in reg.EdgesAt(l) && e.target == key;
    assert EdgeSettled(reg, w, e, l, k);
  }

  /** In every reachable state, a net row of a month or year frozen since the cutover is the
      stored export row minus the stored import row of its period. */
  lemma PeriodNetIsDifference(reg: Registry, ws: seq<World>, es: seq<Event>, i: nat, n: NetPair, k: nat)
    requires reg.Valid() && History(reg, ws, es) && i < |ws|
    requires n in reg.NetsAt(n.level) && (n.level == Monthly || n.level == Yearly)
    requires ws[i].db.meta.cutover >= CUTOVER_MARGIN
    requires StartMark(ws[i].db.meta, n.level) < k <= ws[i].db.meta.Frozen(n.level)
    requires Cell(n.level, n.target, k) in ws[i].db.rows
    requires Cell(n.level, n.exported, k) in ws[i].db.rows && Cell(n.level, n.imported, k) in ws[i].db.rows
    ensures Differs(ws[i].db.rows, n, k)
  {
    FrozenIsExact(reg, ws, es, i, n.level, k);
    assert reg.NetOk(n) && NetSettled(reg, ws[i], n, n.level, k);
    PartRow(reg, ws[i], n.level, n.exported, k);
    PartRow(reg, ws[i], n.level, n.imported, k);
  }

  // ---- days ----

  lemma DayPart(reg: Registry, w: World, key: string, k: nat)
    requires reg.Valid() && MarksOk(reg, w.db.meta) && HistOk(reg, w)
    requires PollerKey(reg, key) && k >= w.db.meta.purgedBefore
    ensures Part(reg, w.hist, w.db.meta, Daily, key, k) == At(w.db.rows, key, k)
  {
    NoDailyEdges(reg, key);
    assert SameCell(w.db.rows, w.hist, Cell(Daily, key, k));
    assert Sum(w.hist, key, k, k) == Sum(w.hist, key, k, k - 1) + At(w.hist, key, k);
  }

  /** In every reachable state, a stored net day after the cutover's mark that no run skipped
      is the day's export row minus its import row, as long as the daily rows are kept. */
  lemma DayNetIsDifference(reg: Registry, ws: seq<World>, es: seq<Event>, i: nat, n: NetPair, k: nat)
    requires reg.Valid() && History(reg, ws, es) && i < |ws| && n in reg.NetsAt(Daily)
    requires ws[i].db.meta.cutover >= CUTOVER_MARGIN
    requires StartDay(ws[i].db.meta) < k <= ws[i].db.meta.Frozen(Daily)
    requires k !in SkippedDays(reg, ws, es, i) && k >= ws[i].db.meta.purgedBefore
    requires Cell(Daily, n.target, k) in ws[i].db.rows
    ensures ws[i].db.rows[Cell(Daily, n.target, k)]
         == At(ws[i].db.rows, n.exported, k) - At(ws[i].db.rows, n.imported, k)
  {
    FrozenIsExact(reg, ws, es, i, Daily, k);
    HistoryKeepsInv(reg, ws, es, i);
    DayNetRow(reg, ws[i], n, k);
  }

  lemma DayNetRow(reg: Registry, w: World, n: NetPair, k: nat)
    requires reg.Valid() && MarksOk(reg, w.db.meta) && HistOk(reg, w) && n in reg.NetsAt(Daily)
    requires PeriodSettled(reg, w, Daily, k) && k >= w.db.meta.purgedBefore
    requires Cell(Daily, n.target, k) in w.db.rows
    ensures w.db.rows[Cell(Daily, n.target, k)] == At(w.db.rows, n.exported, k) - At(w.db.rows, n.imported, k)
  {
    assert reg.NetOk(n) && NetSettled(reg, w, n, Daily, k);
    DayPart(reg, w, n.exported, k);
    DayPart(reg, w, n.imported, k);
  }

  // ---- totals ----

  /** The value of a total key before the net ones. */
  lemma TotalPart(reg: Registry, base: Values, since: Values, key: string)
    requires reg.Valid() && reg.IsStore(key, StoreTotal, false)
    ensures var vals := Totals(reg.EdgesAt(Total), base, since);
      key in vals && key !in ApplyNet(reg.NetsAt(Total), vals)
    ensures InDomain(reg, Total, key)
  {
    NetPartSource(reg, Total, key);
    var e :| e in reg.EdgesAt(Total) && e.target == key;
    EdgesFunctional(reg, Total);
    TotalsApplied(reg.EdgesAt(Total), base, since);
    NetTargetsApart(reg, Total, Totals(reg.EdgesAt(Total), base, since), key);
    SourceIsPollerKey(reg, Total, e);
  }

  lemma TotalNetValue(reg: Registry, p: Period, base: Values, y: int, got: Reads, n: NetPair)
    requires reg.Valid() && y >= NONE && n in reg.NetsAt(Total)
    ensures var vals := TotalValues(reg, p, base, y, got);
      && n.target in vals && n.exported in vals && n.imported in vals
      && vals[n.target] == vals[n.exported] - vals[n.imported]
    ensures InDomain(reg, Total, n.target) && InDomain(reg, Total, n.exported) && InDomain(reg, Total, n.imported)
  {
    assert reg.NetOk(n);
    var since := SumsOf(Sources(reg.EdgesAt(Total)), TotalJob(p, y), got);
    TotalPart(reg, base, since, n.exported);
    TotalPart(reg, base, since, n.imported);
    NetAdded(reg, Total, Totals(reg.EdgesAt(Total), base, since), n);
  }

  lemma FinishNets(reg: Registry, w: World, r: Run, n: NetPair)
    requires Ready(reg, w, r) && n in reg.NetsAt(Total)
    ensures Differs(After(reg, w, r).rows, n, NONE)
  {
    FoldedYearBounds(RunPlan(reg, r).years, r.st.baselineYear);
    TotalNetValue(reg, r.p,
      FoldedBase(r.st.baseline, YearFolds(reg, RunPlan(reg, r).years, r.st.baselineYear, r.got)),
      FoldedYear(RunPlan(reg, r).years, r.st.baselineYear), r.got, n);
    TotalRow(reg, w, r, n.target);
    TotalRow(reg, w, r, n.exported);
    TotalRow(reg, w, r, n.imported);
  }

  /** Nothing but a finished run writes a total. */
  lemma TotalRowsStay(reg: Registry, w: World, e: Event, key: string)
    requires reg.Valid() && Enabled(reg, w, e) && !e.Finish?
    ensures SameCell(Step(reg, w, e).db.rows, w.db.rows, Cell(Total, key, NONE))
  {
    var c := Cell(Total, key, NONE);
    match e
    case Poll(rows, closes) => WriteDailiesFrame(reg, w.db.meta, w.db.rows, rows, c);
    case Backfill(now, years) => YearsKeepCell(reg, w.db, now.year - years, now.year, now, c);
    case _ =>
  }

  /** From the first finished run on. */
  ghost predicate NetTotalOk(w: World, n: NetPair) {
    w.lastDay != NONE ==> Differs(w.db.rows, n, NONE)
  }

  lemma StepKeepsTotalNet(reg: Registry, w: World, e: Event, n: NetPair)
    requires reg.Valid() && Inv(reg, w) && Enabled(reg, w, e) && n in reg.NetsAt(Total)
    requires NetTotalOk(w, n)
    ensures NetTotalOk(Step(reg, w, e), n)
  {
    if e.Finish? {
      FinishNets(reg, w, w.run.value, n);
    } else {
      TotalRowsStay(reg, w, e, n.target);
      TotalRowsStay(reg, w, e, n.exported);
      TotalRowsStay(reg, w, e, n.imported);
    }
  }

  /** In every state from the first finished run on, a net total is there and is the stored
      export total minus the stored import total. */
  lemma TotalNetIsDifference(reg: Registry, ws: seq<World>, es: seq<Event>, i: nat, n: NetPair)
    requires reg.Valid() && History(reg, ws, es) && i < |ws| && n in reg.NetsAt(Total)
    ensures ws[i].lastDay != NONE ==> Differs(ws[i].db.rows, n, NONE)
  {
    StartsWithoutRun(reg, ws, es);
    forall x | 0 <= x < i
      ensures Carries(ws, n, x)
    {
      if NetTotalOk(ws[x], n) {
        HistoryKeepsTotalNet(reg, ws, es, x, n);
      }
    }
    CarriedThrough(ws, n, i);
  }

  ghost predicate Carries(ws: seq<World>, n: NetPair, x: int) {
    0 <= x && x + 1 < |ws| && (NetTotalOk(ws[x], n) ==> NetTotalOk(ws[x + 1], n))
  }

  lemma {:induction false} CarriedThrough(ws: seq<World>, n: NetPair, i: nat)
    requires i < |ws| && NetTotalOk(ws[0], n) && forall x :: 0 <= x < i ==> Carries(ws, n, x)
    ensures NetTotalOk(ws[i], n)
  {
    if i > 0 {
      CarriedThrough(ws, n, i - 1);
      assert Carries(ws, n, i - 1);
    }
  }

  lemma StartsWithoutRun(reg: Registry, ws: seq<World>, es: seq<Event>)
    requires History(reg, ws, es)
    ensures forall n :: NetTotalOk(ws[0], n)
  {
  }

  lemma HistoryKeepsTotalNet(reg: Registry, ws: seq<World>, es: seq<Event>, i: nat, n: NetPair)
    requires reg.Valid() && History(reg, ws, es) && i < |es| && n in reg.NetsAt(Total)
    requires NetTotalOk(ws[i], n)
    ensures NetTotalOk(ws[i + 1], n)
  {
    HistoryKeepsInv(reg, ws, es, i);
    StepInHistory(reg, ws, es, i);
    StepKeepsTotalNet(reg, ws[i], es[i], n);
  }
}
