/** A gap longer than the catch-up window costs net days: the days a run skips end up below
    the freeze mark without a row, and none is ever written for them. */
module Gap {
  import opened Calendar
  import opened Registers
  import opened Energy
  import opened Plan
  import opened Ledger
  import opened World
  import opened PollStep
  import opened CleanupStep
  import opened FinishRows
  import opened FinishStep
  import opened BackfillStep
  import opened Conservation
  import opened Coverage

  lemma {:induction false} BatchesElsewhere(reg: Registry, m: Meta, rows: Rows, bs: seq<Batch>, c: Cell)
    requires forall b :: b in bs ==> !BatchOf(b, c)
    ensures SameCell(ApplyBatches(reg, m, rows, bs), rows, c)
  {
    if bs != [] {
      var n := |bs| - 1;
      forall b | b in bs[..n]
        ensures b in bs
      {
      }
      assert bs[n] in bs;
      BatchesElsewhere(reg, m, rows, bs[..n], c);
    }
  }

  /** A run writes nothing into a day its plan skips. */
  lemma SkippedDayUnwritten(reg: Registry, w: World, r: Run, d: int, key: string)
    requires Ready(reg, w, r) && d in SkipRange(RunPlan(reg, r).skipped)
    ensures SameCell(After(reg, w, r).rows, w.db.rows, Cell(Daily, key, d))
  {
    var c := Cell(Daily, key, d);
    forall b | b in GatherOf(reg, r).batches
      ensures !BatchOf(b, c)
    {
      if b.level == Daily {
        DayBatch(reg, r, b);
      }
    }
    BatchesElsewhere(reg, w.db.meta, w.db.rows, GatherOf(reg, r).batches, c);
  }

  /** The day batches of a run start after the days its plan skips. */
  lemma DayBatch(reg: Registry, r: Run, b: Batch)
    requires RunReady(reg, r) && b in GatherOf(reg, r).batches && b.level == Daily
    ensures b.period !in SkipRange(RunPlan(reg, r).skipped)
  {
    GatherSplit(reg, r, b);
    var l :| Frozenable(l) && b in JobBatches(reg, JobsAt(RunPlan(reg, r), l), r.st.offsets, r.got);
    BatchesAreJobs(reg, JobsAt(RunPlan(reg, r), l), r.st.offsets, r.got, b);
    var j :| j in JobsAt(RunPlan(reg, r), l) && b == Batch(j.level, j.key, JobValues(reg, j, r.st.offsets, r.got));
    PlanJobIs(r.p, r.st.Marks(reg), l, j);
    var i :| 0 <= i < |RunPlan(reg, r).days| && RunPlan(reg, r).days[i] == j;
  }

  /** A run that advances the mark over a gap leaves each skipped day below the mark, not
      settled, and its row as it was: absent, or stale from the last run before the gap. */
  lemma SkippedDayLost(reg: Registry, w: World, d: int, key: string)
    requires reg.Valid() && Inv(reg, w) && Enabled(reg, w, Finish) && d in SkippedBy(reg, w, Finish)
    ensures var w' := Step(reg, w, Finish);
      && d <= w'.db.meta.Frozen(Daily) && (Daily, d) !in w'.settled
      && SameCell(w'.db.rows, w.db.rows, Cell(Daily, key, d))
  {
    StepKeepsDay(reg, w, Finish, d);
    SkippedDayUnwritten(reg, w, w.run.value, d, key);
  }

  // ---- a history in which it happens ----

  function CloseEach(keys: seq<string>, day: int): (cs: seq<DayClose>)
    ensures |cs| == |keys| && forall i :: 0 <= i < |keys| ==> cs[i] == DayClose(keys[i], day)
  {
    seq(|keys|, i requires 0 <= i < |keys| => DayClose(keys[i], day))
  }

  lemma {:induction false} AllClosed(reg: Registry, m: Meta, cs: seq<DayClose>, day: int, k: string)
    requires forall c :: c in cs ==> c.day == day && PollerKey(reg, c.key)
    requires m.Closed(k) <= day && DayClose(k, day) in cs
    ensures CloseDays(reg, m, cs).Closed(k) == day
    decreases |cs|
  {
    var n := |cs| - 1;
    assert cs[n] in cs && forall c :: c in cs[..n] ==> c in cs;
    if DayClose(k, day) in cs[..n] {
      AllClosed(reg, m, cs[..n], day, k);
    } else {
      OthersClosed(reg, m, cs[..n], day, k);
      assert cs[n] == DayClose(k, day);
    }
  }

  lemma {:induction false} OthersClosed(reg: Registry, m: Meta, cs: seq<DayClose>, day: int, k: string)
    requires DayClose(k, day) !in cs && forall c :: c in cs ==> c.day == day
    ensures CloseDays(reg, m, cs).Closed(k) == m.Closed(k)
  {
    if cs != [] {
      var n := |cs| - 1;
      assert cs[n] in cs && forall c :: c in cs[..n] ==> c in cs;
      OthersClosed(reg, m, cs[..n], day, k);
    }
  }

  /** One more step of a history. */
  lemma Extend(reg: Registry, ws: seq<World>, es: seq<Event>, e: Event) returns (ws': seq<World>, es': seq<Event>)
    requires History(reg, ws, es) && Enabled(reg, ws[|es|], e)
    ensures es' == es + [e] && ws' == ws + [Step(reg, ws[|es|], e)] && History(reg, ws', es')
  {
    ws', es' := ws + [Step(reg, ws[|es|], e)], es + [e];
    forall i | 0 <= i < |es'|
      ensures Next(reg, ws'[i], es'[i], ws'[i + 1])
    {
      if i < |es| {
        assert Next(reg, ws[i], es[i], ws[i + 1]);
      }
    }
  }

  /** A run in progress can read every sum it asks for. */
  lemma {:induction false} ReadEverything(reg: Registry, ws: seq<World>, es: seq<Event>, left: set<Query>)
    returns (ws': seq<World>, es': seq<Event>)
    requires History(reg, ws, es) && ws[|es|].run.Some? && RunReady(reg, ws[|es|].run.value)
    requires forall q :: q in left ==> Asks(reg, ws[|es|].run.value, q)
    ensures History(reg, ws', es') && ws'[|es'|].run.Some?
    ensures var w, w' := ws[|es|], ws'[|es'|];
      && w' == w.(run := Some(w.run.value.(got := w'.run.value.got)))
      && w.run.value.got.Keys + left <= w'.run.value.got.Keys
    decreases |left|
  {
    if left == {} {
      return ws, es;
    }
    var q :| q in left;
    var ws1, es1 := Extend(reg, ws, es, ReadSum(q));
    assert ws1[|es1|] == Step(reg, ws[|es|], ReadSum(q));
    ws', es' := ReadEverything(reg, ws1, es1, left - {q});
  }

  /** The period of a day. */
  function PeriodOf(day: nat): Period {
    Period(day, MonthOf(day), YearOf(day))
  }

  lemma LowestOfEqual(m: Meta, keys: seq<string>, day: int)
    requires keys != [] && forall k :: k in keys ==> m.Closed(k) == day
    ensures m.LowestClosed(keys) == day
  {
  }

  /** A first start, and every key closed through a later day. */
  lemma StartAndClose(reg: Registry, db: DB, p: Period, day: nat) returns (ws: seq<World>, es: seq<Event>)
    requires reg.Valid() && reg.dailyKeys != [] && Fresh(reg, db, p) && p.day <= day
    ensures History(reg, ws, es) && |es| == 1 && ws[1].db.rows == db.rows
    ensures ws[1].run.None? && ws[1].cut == NONE && ws[1].lastDay == NONE && ws[1].settled == {}
    ensures ws[1].db.meta.LowestClosed(reg.dailyKeys) == day
    ensures ws[1].db.meta.cutover == p.day && ws[1].db.meta.Frozen(Daily) == p.day - CUTOVER_MARGIN
  {
    var w, cs := Started(reg, db, p), CloseEach(reg.dailyKeys, day);
    CutoverFields(reg, db, p);
    CloseDaysGrow(reg, w.db.meta, cs);
    CloseAllDays(reg, w.db.meta, day);
    Opening(reg, db, p);
    ws, es := Extend(reg, [w], [], Poll([], cs));
    PollClosed(reg, w, cs, ws[1]);
  }

  lemma Opening(reg: Registry, db: DB, p: Period)
    requires Fresh(reg, db, p)
    ensures History(reg, [Started(reg, db, p)], [])
  {
  }

  lemma PollClosed(reg: Registry, w: World, cs: seq<DayClose>, w': World)
    requires w' == Step(reg, w, Poll([], cs))
    ensures w' == w.(db := w'.db) && w'.db.rows == w.db.rows && w'.db.meta == CloseDays(reg, w.db.meta, cs)
  {
  }

  lemma CloseAllDays(reg: Registry, m: Meta, day: int)
    requires reg.Valid() && reg.dailyKeys != [] && forall k :: k in reg.dailyKeys ==> m.Closed(k) <= day
    ensures CloseDays(reg, m, CloseEach(reg.dailyKeys, day)).LowestClosed(reg.dailyKeys) == day
  {
    var cs := CloseEach(reg.dailyKeys, day);
    var m' := CloseDays(reg, m, cs);
    forall k | k in reg.dailyKeys
      ensures m'.Closed(k) == day
    {
      var i :| 0 <= i < |reg.dailyKeys| && reg.dailyKeys[i] == k;
      assert cs[i] == DayClose(k, day);
      AllClosed(reg, m, cs, day, k);
    }
    LowestOfEqual(m', reg.dailyKeys, day);
  }

  /** The run at the far end of the gap, up to its write. */
  lemma RunAndRead(reg: Registry, ws: seq<World>, es: seq<Event>, q: Period)
    returns (ws': seq<World>, es': seq<Event>)
    requires reg.Valid() && History(reg, ws, es) && Enabled(reg, ws[|es|], Begin(q))
    ensures History(reg, ws', es') && Enabled(reg, ws'[|es'|], Finish)
    ensures var w, w' := ws[|es|], ws'[|es'|];
      && w' == w.(run := w'.run) && w'.run.value.p == q && w'.run.value.st == w.db.meta
  {
    var ws1, es1 := Extend(reg, ws, es, Begin(q));
    var r := Run(q, ws[|es|].db.meta, map[], ws[|es|].hist);
    assert ws1[|es1|] == ws[|es|].(run := Some(r));
    HistoryKeepsInv(reg, ws1, es1, |es1|);
    var left := QueriesOf(reg, r);
    ws', es' := ReadEverything(reg, ws1, es1, left);
    CanFinish(reg, ws'[|es'|], r, left);
  }

  function QueriesOf(reg: Registry, r: Run): (qs: set<Query>)
    requires r.p.day >= MAX_NET_DAYS && r.st.Marks(reg).Marks() && r.st.baselineYear >= NONE
    ensures forall q :: q in qs <==> Asks(reg, r, q)
  {
    AllQueries(reg, r.p, r.st, RunPlan(reg, r));
    AllQueriesOf(reg, r.p, r.st, RunPlan(reg, r))
  }

  lemma CanFinish(reg: Registry, w: World, r: Run, qs: set<Query>)
    requires w.run.Some? && w.run.value == r.(got := w.run.value.got) && RunReady(reg, r)
    requires qs == QueriesOf(reg, r) && qs <= w.run.value.got.Keys
    ensures Enabled(reg, w, Finish)
  {
    forall q | Asks(reg, w.run.value, q)
      ensures q in w.run.value.got
    {
      assert Asks(reg, r, q);
    }
  }

  /** A plan whose keys have closed the captured day freezes that day. */
  lemma LastDayFreezes(reg: Registry, w: World, r: Run)
    requires Ready(reg, w, r) && r.st.LowestClosed(reg.dailyKeys) == r.p.day
    ensures After(reg, w, r).meta.Frozen(Daily) >= r.p.day
  {
    var plan := RunPlan(reg, r);
    SameMarks(reg, w, r);
    MarkAfter(reg, w, r, Daily);
    if r.st.Frozen(Daily) < r.p.day {
      var j := plan.days[|plan.days| - 1];
      assert j in JobsAt(plan, Daily) && j.freeze && j.key == r.p.day;
    }
  }

  /** From any first start with a daily net pair there is a history that loses a net day:
      after 62 days without a run, the day after the cutover's mark lies below the new mark,
      was skipped, is not settled, and has no row, although nothing was ever deleted. */
  lemma GapLosesNetDay(reg: Registry, db: DB, p: Period, n: NetPair)
    returns (ws: seq<World>, es: seq<Event>, d: int)
    requires reg.Valid() && n in reg.NetsAt(Daily) && Fresh(reg, db, p) && p.day + MAX_NET_DAYS <= LAST_DAY
    requires forall day :: Cell(Daily, n.target, day) !in db.rows
    ensures History(reg, ws, es) && ws[|es|].cut == NONE
    ensures var w := ws[|es|];
      && StartDay(w.db.meta) < d <= w.db.meta.Frozen(Daily)
      && d in SkippedDays(reg, ws, es, |es|) && (Daily, d) !in w.settled
      && Cell(Daily, n.target, d) !in w.db.rows
  {
    assert reg.NetOk(n) && n.exported in reg.dailyKeys;
    d := p.day - 1;
    var ws1, es1 := UpToTheWrite(reg, db, p, p.day + MAX_NET_DAYS);
    FinishSkips(reg, ws1, es1, d, n.target);
    FinishKeepsCut(reg, ws1[|es1|]);
    ws, es := AddFinish(reg, ws1, es1, d);
  }

  /** A first start, every key closed through a later day, and that day's run up to its write. */
  lemma UpToTheWrite(reg: Registry, db: DB, p: Period, day: nat) returns (ws: seq<World>, es: seq<Event>)
    requires reg.Valid() && reg.dailyKeys != [] && Fresh(reg, db, p) && p.day <= day <= LAST_DAY
    ensures History(reg, ws, es) && Enabled(reg, ws[|es|], Finish)
    ensures var w := ws[|es|];
      && w.cut == NONE && w.db.rows == db.rows
      && w.run.value.p.day == day && w.run.value.st.LowestClosed(reg.dailyKeys) == day
      && w.db.meta.cutover == p.day && w.db.meta.Frozen(Daily) == p.day - CUTOVER_MARGIN
  {
    var ws1, es1 := StartAndClose(reg, db, p, day);
    var q := PeriodOf(day);
    assert q.Valid() && Enabled(reg, ws1[|es1|], Begin(q));
    ws, es := RunAndRead(reg, ws1, es1, q);
  }

  lemma FinishKeepsCut(reg: Registry, w: World)
    requires Enabled(reg, w, Finish)
    ensures Step(reg, w, Finish).cut == w.cut
  {
  }

  lemma AddFinish(reg: Registry, ws: seq<World>, es: seq<Event>, d: int) returns (ws': seq<World>, es': seq<Event>)
    requires History(reg, ws, es) && Enabled(reg, ws[|es|], Finish) && d in SkippedBy(reg, ws[|es|], Finish)
    ensures History(reg, ws', es') && ws'[|es'|] == Step(reg, ws[|es|], Finish)
    ensures d in SkippedDays(reg, ws', es', |es'|)
  {
    ws', es' := Extend(reg, ws, es, Finish);
    assert es'[|es|] == Finish && ws'[|es|] == ws[|es|];
  }

  /** A run that froze its own day after a gap skipped the day d. */
  lemma GapSkips(reg: Registry, w: World, r: Run, d: int)
    requires Ready(reg, w, r) && r.st.LowestClosed(reg.dailyKeys) == r.p.day
    requires w.db.meta.Frozen(Daily) < d <= r.p.day - MAX_NET_DAYS
    ensures d in SkipRange(RunPlan(reg, r).skipped)
    ensures After(reg, w, r).meta.Frozen(Daily) > w.db.meta.Frozen(Daily)
  {
    SameMarks(reg, w, r);
    LastDayFreezes(reg, w, r);
  }

  /** The write of a run that froze its own day, seen from the end of its history. */
  lemma FinishSkips(reg: Registry, ws: seq<World>, es: seq<Event>, d: int, key: string)
    requires reg.Valid() && History(reg, ws, es) && Enabled(reg, ws[|es|], Finish)
    requires var w := ws[|es|];
      && w.run.value.st.LowestClosed(reg.dailyKeys) == w.run.value.p.day
      && w.db.meta.Frozen(Daily) < d <= w.run.value.p.day - MAX_NET_DAYS
      && Cell(Daily, key, d) !in w.db.rows
    ensures var w, w' := ws[|es|], Step(reg, ws[|es|], Finish);
      && d in SkippedBy(reg, w, Finish) && d <= w'.db.meta.Frozen(Daily) && (Daily, d) !in w'.settled
      && Cell(Daily, key, d) !in w'.db.rows && w'.db.meta.cutover == w.db.meta.cutover
  {
    HistoryKeepsInv(reg, ws, es, |es|);
    FinishSkipsHere(reg, ws[|es|], d, key);
  }

  lemma FinishSkipsHere(reg: Registry, w: World, d: int, key: string)
    requires reg.Valid() && Inv(reg, w) && Enabled(reg, w, Finish)
    requires w.run.value.st.LowestClosed(reg.dailyKeys) == w.run.value.p.day
    requires w.db.meta.Frozen(Daily) < d <= w.run.value.p.day - MAX_NET_DAYS
    requires Cell(Daily, key, d) !in w.db.rows
    ensures var w' := Step(reg, w, Finish);
      && d in SkippedBy(reg, w, Finish) && d <= w'.db.meta.Frozen(Daily) && (Daily, d) !in w'.settled
      && Cell(Daily, key, d) !in w'.db.rows && w'.db.meta.cutover == w.db.meta.cutover
  {
    GapSkips(reg, w, w.run.value, d);
    StepKeepsStart(reg, w, Finish);
    SkippedDayLost(reg, w, d, key);
  }
}
