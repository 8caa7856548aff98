/** What a run writes for the periods that are still open: every row exists afterwards and
    counts each day up to the captured one; and how far its marks move. */
module OpenRows {
  import opened Calendar
  import opened Registers
  import opened Energy
  import opened Plan
  import opened Ledger
  import opened World
  import opened PollStep
  import opened CleanupStep
  import opened RunStep
  import opened FinishValues
  import opened FinishRows
  import opened FinishStep
  import opened Conservation
  import opened Nets

  /** The last day a run at `today` counts for a period. */
  function Through(l: Level, k: nat, today: int): int {
    if PeriodLast(l, k) < today then PeriodLast(l, k) else today
  }

  /** The row holds at least what was accepted for its days when the run began, and at most
      what is accepted now, each with the cutover offset. */
  ghost predicate EdgeWithin(rows: Rows, w: World, r: Run, e: Edge, l: Level, k: nat) {
    EdgeBetween(rows, w, r, e, l, k, PeriodFirst(l, k), Through(l, k, r.p.day))
  }

  ghost predicate EdgeBetween(rows: Rows, w: World, r: Run, e: Edge, l: Level, k: nat, first: int, last: int) {
    var c, off := Cell(l, e.target, k), w.db.meta.Offset(l, e.target, k);
    && c in rows
    && Sum(r.seen, e.source, first, last) + off <= rows[c]
    && rows[c] <= Sum(w.hist, e.source, first, last) + off
  }

  /** The same for a net day: export less import, each between then and now. */
  ghost predicate DayWithin(rows: Rows, w: World, r: Run, n: NetPair, d: int) {
    var c := Cell(Daily, n.target, d);
    && c in rows
    && At(r.seen, n.exported, d) - At(w.hist, n.imported, d) <= rows[c]
    && rows[c] <= At(w.hist, n.exported, d) - At(r.seen, n.imported, d)
  }

  // ---- the job of an open period ----

  lemma OpenJob(p: Period, w: Watermarks, l: Level, k: nat)
    requires p.day >= MAX_NET_DAYS && w.Marks()
    requires w.frozenMonth != NONE && w.frozenYear != NONE && w.frozenNetDay != NONE
    requires match l case Daily => NetFloor(p, w) < k case Monthly => w.frozenMonth < k
      case Yearly => w.frozenYear < k case Total => false
    requires k <= Current(p, l)
    ensures JobFor(p, w, l, k) in JobsAt(PlanFor(p, w), l)
  {
    var lo := match l case Daily => NetFloor(p, w) + 1 case Monthly => w.frozenMonth + 1 case _ => w.frozenYear + 1;
    var jobs := JobsAt(PlanFor(p, w), l);
    assert jobs[k - lo] == JobFor(p, w, l, k);
  }

  /** What a run read for one source of an open period. */
  lemma JobReadWithin(
    reg: Registry, w: World, r: Run, l: Level, j: Job, s: string, first: int, last: int)
    requires Ready(reg, w, r) && Frozenable(l) && j in JobsAt(RunPlan(reg, r), l) && s in LevelSources(reg, l)
    requires j.first == first && j.last == last
    ensures Sum(r.seen, s, first, last) <= Read(r.got, JobQuery(j, s)) <= Sum(w.hist, s, first, last)
  {
    var q := JobQuery(j, s);
    AskedAtLevel(reg, r, l, q);
    ReadWithin(reg, w, r, q);
  }

  // ---- months and years ----

  lemma PlainRead(reg: Registry, j: Job, got: Reads, e: Edge)
    requires reg.Valid() && e in reg.EdgesAt(j.level)
    ensures var plain := ApplyEdges(reg.EdgesAt(j.level), SumsOf(Sources(reg.EdgesAt(j.level)), j, got));
      e.target in plain && plain[e.target] == Read(got, JobQuery(j, e.source))
  {
    EdgesFunctional(reg, j.level);
    EdgesApplied(reg.EdgesAt(j.level), SumsOf(Sources(reg.EdgesAt(j.level)), j, got));
    assert e.source in Sources(reg.EdgesAt(j.level));
  }

  lemma EdgeRead(reg: Registry, st: Meta, j: Job, got: Reads, e: Edge)
    requires reg.Valid() && e in reg.EdgesAt(j.level)
    ensures e.target in EdgeValues(reg, j, st.offsets, got)
    ensures EdgeValues(reg, j, st.offsets, got)[e.target]
         == Read(got, JobQuery(j, e.source)) + st.Offset(j.level, e.target, j.key)
  {
    PlainRead(reg, j, got, e);
    EdgeValueOf(reg, st, j, got, ApplyEdges(reg.EdgesAt(j.level), SumsOf(Sources(reg.EdgesAt(j.level)), j, got)),
      e.target);
  }

  lemma LevelRead(reg: Registry, st: Meta, j: Job, got: Reads, e: Edge)
    requires reg.Valid() && e in reg.EdgesAt(j.level)
    ensures e.target in LevelValues(reg, j, st.offsets, got)
    ensures LevelValues(reg, j, st.offsets, got)[e.target]
         == Read(got, JobQuery(j, e.source)) + st.Offset(j.level, e.target, j.key)
  {
    EdgeRead(reg, st, j, got, e);
    assert reg.EdgeOk(e);
    NetTargetsApart(reg, j.level, EdgeValues(reg, j, st.offsets, got), e.target);
  }

  lemma LevelPart(reg: Registry, st: Meta, j: Job, got: Reads, key: string)
    requires reg.Valid() && j.level != Daily && reg.IsStore(key, StoreForLevel(j.level), false)
    ensures var vals, all := EdgeValues(reg, j, st.offsets, got), LevelValues(reg, j, st.offsets, got);
      key in vals && key in all && all[key] == vals[key]
  {
    NetPartSource(reg, j.level, key);
    var e :| e in reg.EdgesAt(j.level) && e.target == key;
    EdgeRead(reg, st, j, got, e);
    LevelRead(reg, st, j, got, e);
  }

  lemma LevelNet(reg: Registry, st: Meta, j: Job, got: Reads, n: NetPair)
    requires reg.Valid() && j.level != Daily && n in reg.NetsAt(j.level)
    ensures var all := LevelValues(reg, j, st.offsets, got);
      && n.target in all && n.exported in all && n.imported in all
      && all[n.target] == all[n.exported] - all[n.imported]
  {
    assert reg.NetOk(n);
    LevelPart(reg, st, j, got, n.exported);
    LevelPart(reg, st, j, got, n.imported);
    NetAdded(reg, j.level, EdgeValues(reg, j, st.offsets, got), n);
  }

  /** A month or year after its mark, up to the captured one. */
  predicate Open(w: World, r: Run, l: Level, k: nat) {
    (l == Monthly || l == Yearly) && w.db.meta.Frozen(l) < k <= Current(r.p, l)
  }

  lemma OpenLevelJob(reg: Registry, w: World, r: Run, l: Level, k: nat, j: Job)
    requires Ready(reg, w, r) && Open(w, r, l, k) && j == JobFor(r.p, r.st.Marks(reg), l, k)
    ensures j in JobsAt(RunPlan(reg, r), l)
  {
    SameMarks(reg, w, r);
    OpenJob(r.p, r.st.Marks(reg), l, k);
  }

  lemma OpenEdge(reg: Registry, w: World, r: Run, l: Level, k: nat, e: Edge)
    requires Ready(reg, w, r) && Open(w, r, l, k) && e in reg.EdgesAt(l)
    ensures EdgeWithin(After(reg, w, r).rows, w, r, e, l, k)
  {
    var j := JobFor(r.p, r.st.Marks(reg), l, k);
    OpenLevelJob(reg, w, r, l, k, j);
    OpenJobEdge(reg, w, r, l, j, e, PeriodFirst(l, k), Through(l, k, r.p.day));
  }

  lemma OpenJobEdge(reg: Registry, w: World, r: Run, l: Level, j: Job, e: Edge, first: int, last: int)
    requires Ready(reg, w, r) && Frozenable(l) && e in reg.EdgesAt(l) && j in JobsAt(RunPlan(reg, r), l)
    requires j.level == l && j.key > w.db.meta.Frozen(l) >= 0 && j.first == first && j.last == last
    ensures EdgeBetween(After(reg, w, r).rows, w, r, e, l, j.key, first, last)
  {
    assert e.source in LevelSources(reg, l) by { SourceIsPollerKey(reg, l, e); }
    JobReadWithin(reg, w, r, l, j, e.source, first, last);
    EdgeRow(reg, w, r, l, j, e, Read(r.got, JobQuery(j, e.source)));
  }

  lemma EdgeRow(reg: Registry, w: World, r: Run, l: Level, j: Job, e: Edge, v: int)
    requires Ready(reg, w, r) && Frozenable(l) && e in reg.EdgesAt(l) && j in JobsAt(RunPlan(reg, r), l)
    requires j.level == l && j.key > w.db.meta.Frozen(l) && v == Read(r.got, JobQuery(j, e.source))
    ensures var rows, c := After(reg, w, r).rows, Cell(l, e.target, j.key);
      c in rows && rows[c] == v + w.db.meta.Offset(l, e.target, j.key)
  {
    SameMarks(reg, w, r);
    SourceIsPollerKey(reg, l, e);
    LevelRead(reg, r.st, j, r.got, e);
    JobRowWritten(reg, w.db.meta, w.db.rows, r, l, j, e.target);
  }

  lemma OpenNet(reg: Registry, w: World, r: Run, l: Level, k: nat, n: NetPair)
    requires Ready(reg, w, r) && Open(w, r, l, k) && n in reg.NetsAt(l)
    ensures Differs(After(reg, w, r).rows, n, k)
  {
    var j := JobFor(r.p, r.st.Marks(reg), l, k);
    OpenLevelJob(reg, w, r, l, k, j);
    SameMarks(reg, w, r);
    assert reg.NetOk(n);
    LevelNet(reg, r.st, j, r.got, n);
    JobRowWritten(reg, w.db.meta, w.db.rows, r, l, j, n.target);
    JobRowWritten(reg, w.db.meta, w.db.rows, r, l, j, n.exported);
    JobRowWritten(reg, w.db.meta, w.db.rows, r, l, j, n.imported);
  }

  // ---- net days ----

  /** A day after the day mark, in the last 62 days. */
  predicate OpenDay(w: World, r: Run, d: int) {
    w.db.meta.Frozen(Daily) < d <= r.p.day && d > r.p.day - MAX_NET_DAYS
  }

  lemma OneDay(rows: Rows, s: string, d: int)
    ensures Sum(rows, s, d, d) == At(rows, s, d)
  {
    assert Sum(rows, s, d, d - 1) == 0;
  }

  lemma DayReadWithin(reg: Registry, w: World, r: Run, d: nat, j: Job, s: string)
    requires Ready(reg, w, r) && j in JobsAt(RunPlan(reg, r), Daily) && s in LevelSources(reg, Daily)
    requires j == JobFor(r.p, r.st.Marks(reg), Daily, d) && d <= r.p.day
    ensures At(r.seen, s, d) <= Read(r.got, JobQuery(j, s)) <= At(w.hist, s, d)
  {
    JobReadWithin(reg, w, r, Daily, j, s, d, d);
    OneDay(r.seen, s, d);
    OneDay(w.hist, s, d);
  }

  lemma OpenNetDay(reg: Registry, w: World, r: Run, d: nat, n: NetPair)
    requires Ready(reg, w, r) && OpenDay(w, r, d) && n in reg.NetsAt(Daily)
    ensures DayWithin(After(reg, w, r).rows, w, r, n, d)
  {
    var j := JobFor(r.p, r.st.Marks(reg), Daily, d);
    SameMarks(reg, w, r);
    OpenJob(r.p, r.st.Marks(reg), Daily, d);
    assert reg.NetOk(n);
    DayReadWithin(reg, w, r, d, j, n.exported);
    DayReadWithin(reg, w, r, d, j, n.imported);
    NetsFunctional(reg, Daily);
    DayNetRead(reg.NetsAt(Daily), j, r.got, n);
    JobRowWritten(reg, w.db.meta, w.db.rows, r, Daily, j, n.target);
  }

  /** Every finished run of every history: each month and year from its mark to the captured
      one has the row of every edge, counting each day through the captured one, and every net
      row is the difference of its two rows; and so has every net day after the mark, of the
      last 62. */
  lemma OpenPeriodsAreCounted(reg: Registry, ws: seq<World>, es: seq<Event>, i: nat, l: Level, k: nat)
    requires reg.Valid() && History(reg, ws, es) && i < |es| && es[i] == Finish
    ensures ws[i].run.Some?
    ensures var w, r, rows := ws[i], ws[i].run.value, ws[i + 1].db.rows;
      && (Open(w, r, l, k) ==>
            && (forall e :: e in reg.EdgesAt(l) ==> EdgeWithin(rows, w, r, e, l, k))
            && (forall n :: n in reg.NetsAt(l) ==> Differs(rows, n, k)))
      && (OpenDay(w, r, k) ==> forall n :: n in reg.NetsAt(Daily) ==> DayWithin(rows, w, r, n, k))
  {
    HistoryKeepsInv(reg, ws, es, i);
    StepInHistory(reg, ws, es, i);
    RunCounts(reg, ws[i], ws[i].run.value, l, k);
  }

  lemma RunCounts(reg: Registry, w: World, r: Run, l: Level, k: nat)
    requires Ready(reg, w, r)
    ensures var rows := After(reg, w, r).rows;
      && (Open(w, r, l, k) ==>
            && (forall e :: e in reg.EdgesAt(l) ==> EdgeWithin(rows, w, r, e, l, k))
            && (forall n :: n in reg.NetsAt(l) ==> Differs(rows, n, k)))
      && (OpenDay(w, r, k) ==> forall n :: n in reg.NetsAt(Daily) ==> DayWithin(rows, w, r, n, k))
  {
    if Open(w, r, l, k) {
      forall e | e in reg.EdgesAt(l)
        ensures EdgeWithin(After(reg, w, r).rows, w, r, e, l, k)
      {
        OpenEdge(reg, w, r, l, k, e);
      }
      forall n | n in reg.NetsAt(l)
        ensures Differs(After(reg, w, r).rows, n, k)
      {
        OpenNet(reg, w, r, l, k, n);
      }
    }
    if OpenDay(w, r, k) {
      forall n | n in reg.NetsAt(Daily)
        ensures DayWithin(After(reg, w, r).rows, w, r, n, k)
      {
        OpenNetDay(reg, w, r, k, n);
      }
    }
  }

  // ---- how far the marks move ----

  /** A period that every key has closed freezes, and no other: after a run a month or year
      is at or before its mark exactly when it was before, or its last day was closed. */
  lemma MarkReaches(reg: Registry, w: World, r: Run, l: Level, k: nat)
    requires Ready(reg, w, r) && (l == Monthly || l == Yearly)
    ensures k <= After(reg, w, r).meta.Frozen(l)
      <==> k <= w.db.meta.Frozen(l) || PeriodLast(l, k) <= r.st.LowestClosed(reg.dailyKeys)
  {
    MarkAfter(reg, w, r, l);
    if w.db.meta.Frozen(l) < k {
      if k <= After(reg, w, r).meta.Frozen(l) {
        MarkIsClosed(reg, w, r, l, k);
      } else if PeriodLast(l, k) <= r.st.LowestClosed(reg.dailyKeys) {
        ClosedFreezes(reg, w, r, l, k);
      }
    }
  }

  lemma MarkIsClosed(reg: Registry, w: World, r: Run, l: Level, k: nat)
    requires Ready(reg, w, r) && Frozenable(l)
    requires w.db.meta.Frozen(l) < k <= After(reg, w, r).meta.Frozen(l)
    ensures PeriodLast(l, k) <= r.st.LowestClosed(reg.dailyKeys)
  {
    MarkAfter(reg, w, r, l);
    var top :| top in JobsAt(RunPlan(reg, r), l) && top.freeze && top.key == After(reg, w, r).meta.Frozen(l);
    FreezingIsClosed(reg, w, r, l, top);
    PeriodLastMonotone(l, k, top.key);
  }

  lemma ClosedFreezes(reg: Registry, w: World, r: Run, l: Level, k: nat)
    requires Ready(reg, w, r) && (l == Monthly || l == Yearly) && w.db.meta.Frozen(l) < k
    requires PeriodLast(l, k) <= r.st.LowestClosed(reg.dailyKeys)
    ensures k <= After(reg, w, r).meta.Frozen(l)
  {
    var j := JobFor(r.p, r.st.Marks(reg), l, k);
    ClosedIsCurrent(r.p, l, k);
    OpenLevelJob(reg, w, r, l, k, j);
    MarkAfter(reg, w, r, l);
    EndsAfterStart(l, k);
    assert j.freeze && j.key == k;
  }

  lemma EndsAfterStart(l: Level, k: nat)
    ensures PeriodLast(l, k) >= 0
  {
    PeriodLastMonotone(l, 0, k);
    if l == Monthly {
      MonthFirstMonotone(0, 1);
    } else if l == Yearly {
      YearFirstMonotone(0, 1);
    }
  }

  lemma ClosedIsCurrent(p: Period, l: Level, k: nat)
    requires p.Valid() && (l == Monthly || l == Yearly) && PeriodLast(l, k) <= p.day
    ensures k <= Current(p, l)
  {
    if l == Monthly {
      MonthFirstMonotone(k, k + 1);
      MonthReached(p.day, k);
    } else {
      YearFirstMonotone(k, k + 1);
      MonthReached(p.day, 12 * k);
    }
  }

  /** The day mark moves to the lowest closed day, if that lies among the last 62 days. */
  lemma DayMarkMoves(reg: Registry, w: World, r: Run)
    requires Ready(reg, w, r)
    ensures var lowest, mark := r.st.LowestClosed(reg.dailyKeys), w.db.meta.Frozen(Daily);
      After(reg, w, r).meta.Frozen(Daily)
        == if lowest > mark && lowest > r.p.day - MAX_NET_DAYS then lowest else mark
  {
    var lowest, mark, mark' := r.st.LowestClosed(reg.dailyKeys), w.db.meta.Frozen(Daily),
      After(reg, w, r).meta.Frozen(Daily);
    MarkAfter(reg, w, r, Daily);
    if mark < mark' {
      MarkIsClosed(reg, w, r, Daily, mark');
      DayMarkRecent(reg, w, r);
    }
    if lowest > mark && lowest > r.p.day - MAX_NET_DAYS {
      ClosedDayFreezes(reg, w, r, lowest);
    }
  }

  lemma ClosedDayFreezes(reg: Registry, w: World, r: Run, d: nat)
    requires Ready(reg, w, r) && OpenDay(w, r, d) && d <= r.st.LowestClosed(reg.dailyKeys)
    ensures d <= After(reg, w, r).meta.Frozen(Daily)
  {
    SameMarks(reg, w, r);
    MarkAfter(reg, w, r, Daily);
    OpenJob(r.p, r.st.Marks(reg), Daily, d);
    assert JobFor(r.p, r.st.Marks(reg), Daily, d).freeze;
  }

  lemma DayMarkRecent(reg: Registry, w: World, r: Run)
    requires Ready(reg, w, r) && w.db.meta.Frozen(Daily) < After(reg, w, r).meta.Frozen(Daily)
    ensures After(reg, w, r).meta.Frozen(Daily) > r.p.day - MAX_NET_DAYS
  {
    MarkAfter(reg, w, r, Daily);
    var top :| top in JobsAt(RunPlan(reg, r), Daily) && top.freeze && top.key == After(reg, w, r).meta.Frozen(Daily);
    DayJobRecent(r.p, r.st.Marks(reg), top);
  }

  lemma DayJobRecent(p: Period, w: Watermarks, j: Job)
    requires p.day >= MAX_NET_DAYS && w.Marks() && j in PlanFor(p, w).days
    ensures j.key > p.day - MAX_NET_DAYS
  {
    var days := PlanFor(p, w).days;
    var i :| 0 <= i < |days| && days[i] == j;
  }
}
