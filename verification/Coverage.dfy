/** Which frozen periods a run has computed: every month and year since the cutover, and
    every day but those an advancing run left out because the gap was longer than its
    catch-up window. */
module Coverage {
  import opened Calendar
  import opened Registers
  import opened Energy
  import opened Plan
  import opened Ledger
  import opened World
  import opened PollStep
  import opened CleanupStep
  import opened FinishRows
  import opened FinishStep
  import opened BackfillStep
  import opened Conservation

  // ---- the days a run skips ----

  function SkipRange(skipped: (int, int)): (days: set<int>)
    ensures forall d :: d in days <==> skipped.0 != NONE && skipped.0 <= d <= skipped.1
  {
    if skipped.0 == NONE then {}
    else
      var days := Range(skipped.0, skipped.1);
      assert forall d :: skipped.0 <= d <= skipped.1 ==> d in days by {
        forall d | skipped.0 <= d <= skipped.1
          ensures d in days
        {
          assert days[d - skipped.0] == d;
        }
      }
      set d | d in days
  }

  /** The net days a step moves the mark past without computing them. */
  ghost function SkippedBy(reg: Registry, w: World, e: Event): set<int>
    requires Enabled(reg, w, e)
  {
    if e.Finish? && Step(reg, w, e).db.meta.Frozen(Daily) > w.db.meta.Frozen(Daily)
    then SkipRange(RunPlan(reg, w.run.value).skipped) else {}
  }

  /** A history variable: the net days skipped in the first n steps. */
  ghost function SkippedDays(reg: Registry, ws: seq<World>, es: seq<Event>, n: nat): set<int>
    requires History(reg, ws, es) && n < |ws|
  {
    if n == 0 then {}
    else
      assert Next(reg, ws[n - 1], es[n - 1], ws[n]);
      SkippedDays(reg, ws, es, n - 1) + SkippedBy(reg, ws[n - 1], es[n - 1])
  }

  /** A day of an advancing run: computed and frozen, or skipped. */
  lemma AdvancedDay(reg: Registry, w: World, r: Run, d: int)
    requires Ready(reg, w, r)
    requires w.db.meta.Frozen(Daily) < d <= After(reg, w, r).meta.Frozen(Daily)
    ensures (Daily, d) in Freezing(RunPlan(reg, r).days) <==> d !in SkipRange(RunPlan(reg, r).skipped)
  {
    var marks, plan := r.st.Marks(reg), RunPlan(reg, r);
    SameMarks(reg, w, r);
    MarkAfter(reg, w, r, Daily);
    var top :| top in JobsAt(plan, Daily) && top.freeze && top.key == After(reg, w, r).meta.Frozen(Daily);
    PlanJobIs(r.p, marks, Daily, top);
    DayJob(r.p, marks, top.key, d);
    FreezingSet(reg, r, Daily, d);
  }

  /** Up to the last frozen day, the day jobs freeze exactly the days that are not skipped. */
  lemma DayJob(p: Period, w: Watermarks, top: int, d: int)
    requires p.day >= MAX_NET_DAYS && w.Marks() && w.frozenNetDay != NONE && w.frozenNetDay < d <= top
    requires exists t :: t in PlanFor(p, w).days && t.freeze && t.key == top
    ensures (exists j :: j in PlanFor(p, w).days && j.freeze && j.key == d)
        <==> d !in SkipRange(PlanFor(p, w).skipped)
  {
    var plan, lo := PlanFor(p, w), NetFloor(p, w) + 1;
    var t :| t in plan.days && t.freeze && t.key == top;
    if d >= lo {
      assert plan.days[d - lo].key == d && plan.days[d - lo] in plan.days;
    }
  }

  lemma SkippedAfterMark(reg: Registry, w: World, r: Run)
    requires Ready(reg, w, r)
    ensures forall d :: d in SkipRange(RunPlan(reg, r).skipped) ==> d > w.db.meta.Frozen(Daily)
  {
    SameMarks(reg, w, r);
  }

  lemma SkippedBelowMark(reg: Registry, w: World, r: Run)
    requires Ready(reg, w, r) && After(reg, w, r).meta.Frozen(Daily) > w.db.meta.Frozen(Daily)
    ensures forall d :: d in SkipRange(RunPlan(reg, r).skipped) ==> d <= After(reg, w, r).meta.Frozen(Daily)
  {
    MarkAfter(reg, w, r, Daily);
    var top :| top in JobsAt(RunPlan(reg, r), Daily) && top.freeze && top.key == After(reg, w, r).meta.Frozen(Daily);
    SkippedBeforeJobs(r.p, r.st.Marks(reg), top);
  }

  /** The days a plan leaves out lie before each of its days. */
  lemma SkippedBeforeJobs(p: Period, w: Watermarks, j: Job)
    requires p.day >= MAX_NET_DAYS && w.Marks() && j in PlanFor(p, w).days
    ensures forall d :: d in SkipRange(PlanFor(p, w).skipped) ==> d < j.key
  {
    var days := PlanFor(p, w).days;
    var i :| 0 <= i < |days| && days[i] == j;
  }

  /** Every settled day lies at or before the mark. */
  lemma SettledBelow(reg: Registry, w: World, d: int)
    requires SettledOk(reg, w) && (Daily, d) in w.settled
    ensures d <= w.db.meta.Frozen(Daily)
  {
  }

  lemma FinishSettlesDay(reg: Registry, w: World, d: int)
    requires Enabled(reg, w, Finish)
    ensures (Daily, d) in Step(reg, w, Finish).settled
        <==> (Daily, d) in w.settled || (Daily, d) in Freezing(RunPlan(reg, w.run.value).days)
  {
    NoDayAmong(reg, w.run.value, Monthly, d);
    NoDayAmong(reg, w.run.value, Yearly, d);
  }

  lemma NoDayAmong(reg: Registry, r: Run, l: Level, d: int)
    requires RunReady(reg, r) && l != Daily
    ensures (Daily, d) !in Freezing(JobsAt(RunPlan(reg, r), l))
  {
    forall j | j in JobsAt(RunPlan(reg, r), l)
      ensures j.level == l
    {
      PlanJobIs(r.p, r.st.Marks(reg), l, j);
    }
  }

  /** How the mark and one day may change: a day at or before the mark stays as it was, and
      one the mark reaches is settled unless it is skipped. */
  predicate DayMoves(d: int, mark: int, mark': int, settled: bool, settled': bool, skipped: bool) {
    && (d <= mark ==> (settled' <==> settled) && !skipped)
    && (mark < d <= mark' ==> (settled' <==> !skipped))
    && (skipped ==> mark < d <= mark')
  }

  /** What a step settles and skips among the days at or before the mark. */
  ghost predicate DayKept(reg: Registry, w: World, e: Event, d: int)
    requires Enabled(reg, w, e)
  {
    DayMoves(d, w.db.meta.Frozen(Daily), Step(reg, w, e).db.meta.Frozen(Daily),
      (Daily, d) in w.settled, (Daily, d) in Step(reg, w, e).settled, d in SkippedBy(reg, w, e))
  }

  lemma FinishKeepsDay(reg: Registry, w: World, d: int)
    requires reg.Valid() && Inv(reg, w) && Enabled(reg, w, Finish)
    ensures DayKept(reg, w, Finish, d)
  {
    FinishSettlesDay(reg, w, d);
    FinishSkipped(reg, w, d);
    if (Daily, d) in w.settled {
      SettledBelow(reg, w, d);
    }
    RunMoves(reg, w, w.run.value, d, w.db.meta.Frozen(Daily), After(reg, w, w.run.value).meta.Frozen(Daily),
      (Daily, d) in w.settled, (Daily, d) in Freezing(RunPlan(reg, w.run.value).days),
      d in SkipRange(RunPlan(reg, w.run.value).skipped));
  }

  lemma FinishSkipped(reg: Registry, w: World, d: int)
    requires Enabled(reg, w, Finish)
    ensures Step(reg, w, Finish).db == After(reg, w, w.run.value)
    ensures d in SkippedBy(reg, w, Finish) <==>
      (&& After(reg, w, w.run.value).meta.Frozen(Daily) > w.db.meta.Frozen(Daily)
       && d in SkipRange(RunPlan(reg, w.run.value).skipped))
  {
  }

  lemma RunMoves(
    reg: Registry, w: World, r: Run, d: int, mark: int, mark': int, settled: bool, frozen: bool, left: bool)
    requires Ready(reg, w, r) && mark == w.db.meta.Frozen(Daily) && mark' == After(reg, w, r).meta.Frozen(Daily)
    requires settled ==> d <= mark
    requires frozen <==> (Daily, d) in Freezing(RunPlan(reg, r).days)
    requires left <==> d in SkipRange(RunPlan(reg, r).skipped)
    ensures DayMoves(d, mark, mark', settled, settled || frozen, mark' > mark && left)
  {
    SkippedAfterMark(reg, w, r);
    if d <= mark {
      SameMarks(reg, w, r);
      NothingFrozenAgain(reg, r, d);
    } else if d <= mark' {
      AdvancedDay(reg, w, r, d);
    }
    if mark' > mark {
      SkippedBelowMark(reg, w, r);
    }
  }

  lemma NothingFrozenAgain(reg: Registry, r: Run, d: int)
    requires RunReady(reg, r) && MarksOk(reg, r.st) && d <= r.st.Frozen(Daily)
    ensures (Daily, d) !in Freezing(RunPlan(reg, r).days)
  {
    forall j | j in RunPlan(reg, r).days
      ensures j.key > d
    {
      JobsFollowMark(reg, r, Daily, j);
    }
  }

  lemma StepKeepsDay(reg: Registry, w: World, e: Event, d: int)
    requires reg.Valid() && Inv(reg, w) && Enabled(reg, w, e)
    ensures DayKept(reg, w, e, d)
  {
    match e
    case Finish => FinishKeepsDay(reg, w, d);
    case Poll(rows, closes) => CloseDaysGrow(reg, w.db.meta, closes);
    case Backfill(now, years) => BackfillFrame(reg, w, now, years);
    case _ =>
  }

  /** The day mark the cutover set. */
  function StartDay(m: Meta): int {
    m.cutover - CUTOVER_MARGIN
  }

  /** What one state says about one day: the marks, and whether the day was settled or skipped. */
  datatype DayView = DayView(start: int, mark: int, settled: bool, skipped: bool)

  ghost function ViewOf(reg: Registry, ws: seq<World>, es: seq<Event>, n: nat, d: int): DayView
    requires History(reg, ws, es) && n < |ws|
  {
    DayView(StartDay(ws[n].db.meta), ws[n].db.meta.Frozen(Daily), (Daily, d) in ws[n].settled,
      d in SkippedDays(reg, ws, es, n))
  }

  /** Of the days since the start, those up to the mark are settled unless skipped, and no
      later one is skipped. */
  predicate Covers(d: int, v: DayView) {
    d > v.start ==> if d <= v.mark then v.settled <==> !v.skipped else !v.skipped
  }

  predicate Covering(d: int, v: DayView, v': DayView) {
    v'.start == v.start && (Covers(d, v) ==> Covers(d, v'))
  }

  ghost predicate CoveringAt(d: int, vs: seq<DayView>, i: int) {
    0 <= i && i + 1 < |vs| && Covering(d, vs[i], vs[i + 1])
  }

  lemma {:induction false} CoveredThroughout(d: int, vs: seq<DayView>, n: nat)
    requires n < |vs| && Covers(d, vs[0]) && forall i :: 0 <= i < n ==> CoveringAt(d, vs, i)
    ensures Covers(d, vs[n])
  {
    if n > 0 {
      CoveredThroughout(d, vs, n - 1);
      assert CoveringAt(d, vs, n - 1);
    }
  }

  lemma CoveredStep(reg: Registry, ws: seq<World>, es: seq<Event>, n: nat, d: int)
    requires reg.Valid() && History(reg, ws, es) && n < |es|
    ensures Covering(d, ViewOf(reg, ws, es, n, d), ViewOf(reg, ws, es, n + 1, d))
  {
    HistoryStep(reg, ws, es, n, d);
    SkippedOneMore(reg, ws, es, n);
    MarkStep(reg, ws, es, n);
    CoveredOnward(d, ViewOf(reg, ws, es, n, d), ViewOf(reg, ws, es, n + 1, d), d in SkippedBy(reg, ws[n], es[n]));
  }

  lemma CoveredOnward(d: int, v: DayView, v': DayView, now: bool)
    requires DayMoves(d, v.mark, v'.mark, v.settled, v'.settled, now) && v.mark <= v'.mark
    requires v'.start == v.start && (v'.skipped <==> v.skipped || now)
    ensures Covering(d, v, v')
  {
  }

  /** In every reachable state a net day after the cutover's mark and at or before the mark
      was computed and frozen by a run exactly when no advancing run skipped it. */
  lemma DaysCovered(reg: Registry, ws: seq<World>, es: seq<Event>, n: nat, d: int)
    requires reg.Valid() && History(reg, ws, es) && n < |ws|
    requires StartDay(ws[n].db.meta) < d <= ws[n].db.meta.Frozen(Daily)
    ensures (Daily, d) in ws[n].settled <==> d !in SkippedDays(reg, ws, es, n)
  {
    var vs := ViewsOf(reg, ws, es, n, d);
    StartsCovered(reg, ws, es);
    assert Covers(d, vs[0]);
    forall i | 0 <= i < n
      ensures CoveringAt(d, vs, i)
    {
      CoveredStep(reg, ws, es, i, d);
    }
    CoveredThroughout(d, vs, n);
  }

  ghost function ViewsOf(reg: Registry, ws: seq<World>, es: seq<Event>, n: nat, d: int): (vs: seq<DayView>)
    requires History(reg, ws, es) && n < |ws|
    ensures |vs| == n + 1 && forall i :: 0 <= i <= n ==> vs[i] == ViewOf(reg, ws, es, i, d)
  {
    seq(n + 1, i requires 0 <= i <= n < |ws| && History(reg, ws, es) => ViewOf(reg, ws, es, i, d))
  }

  lemma StartsCovered(reg: Registry, ws: seq<World>, es: seq<Event>)
    requires History(reg, ws, es)
    ensures ws[0].db.meta.Frozen(Daily) == StartDay(ws[0].db.meta)
  {
    var db, p :| Fresh(reg, db, p) && ws[0] == Started(reg, db, p);
    CutoverFields(reg, db, p);
  }

  lemma HistoryStep(reg: Registry, ws: seq<World>, es: seq<Event>, n: nat, d: int)
    requires reg.Valid() && History(reg, ws, es) && n < |es|
    ensures Enabled(reg, ws[n], es[n]) && ws[n + 1] == Step(reg, ws[n], es[n])
    ensures DayKept(reg, ws[n], es[n], d) && StartDay(ws[n + 1].db.meta) == StartDay(ws[n].db.meta)
  {
    HistoryKeepsInv(reg, ws, es, n);
    StepInHistory(reg, ws, es, n);
    StepKeepsDay(reg, ws[n], es[n], d);
    StepKeepsStart(reg, ws[n], es[n]);
  }

  lemma SkippedOneMore(reg: Registry, ws: seq<World>, es: seq<Event>, n: nat)
    requires History(reg, ws, es) && n < |es|
    ensures Enabled(reg, ws[n], es[n])
    ensures SkippedDays(reg, ws, es, n + 1) == SkippedDays(reg, ws, es, n) + SkippedBy(reg, ws[n], es[n])
  {
    StepInHistory(reg, ws, es, n);
  }

  lemma MarkStep(reg: Registry, ws: seq<World>, es: seq<Event>, n: nat)
    requires reg.Valid() && History(reg, ws, es) && n < |es|
    ensures ws[n].db.meta.Frozen(Daily) <= ws[n + 1].db.meta.Frozen(Daily)
  {
    HistoryKeepsInv(reg, ws, es, n);
    StepInHistory(reg, ws, es, n);
    MarksNeverFall(reg, ws[n], es[n], Daily);
  }

  // ---- what is exact ----

  /** The mark the cutover set at a level. */
  function FirstMark(m: Meta, l: Level): int
    requires m.cutover >= CUTOVER_MARGIN
  {
    if l == Daily then StartDay(m) else StartMark(m, l)
  }

  /** A frozen value is exact: in every reachable state, every month and year frozen since
      the cutover, and every net day frozen since then that no run skipped, has rows that add
      up. Months and years are never skipped. */
  lemma FrozenIsExact(reg: Registry, ws: seq<World>, es: seq<Event>, n: nat, l: Level, k: nat)
    requires reg.Valid() && History(reg, ws, es) && n < |ws| && Frozenable(l)
    requires ws[n].db.meta.cutover >= CUTOVER_MARGIN
    requires FirstMark(ws[n].db.meta, l) < k <= ws[n].db.meta.Frozen(l)
    requires l == Daily ==> k !in SkippedDays(reg, ws, es, n)
    ensures PeriodSettled(reg, ws[n], l, k)
  {
    if l == Daily {
      DaysCovered(reg, ws, es, n, k);
    } else {
      NothingSkipped(reg, ws, es, n, l, k);
    }
    SettledIsExact(reg, ws, es, n, l, k);
  }
}
