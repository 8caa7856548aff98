/** What holds in every state of every history: any interleaving of polls, cleanups,
    backfills and the steps of aggregator runs after a first start. */
module Conservation {
  import opened Calendar
  import opened Registers
  import opened Energy
  import opened Plan
  import opened Ledger
  import opened World
  import opened PollStep
  import opened CleanupStep
  import opened RunStep
  import opened FinishValues
  import opened FinishRows
  import opened FinishStep
  import opened BackfillStep

  lemma StepKeepsInv(reg: Registry, w: World, e: Event)
    requires reg.Valid() && Inv(reg, w) && Enabled(reg, w, e)
    ensures Inv(reg, Step(reg, w, e))
  {
    match e
    case Poll(rows, closes) => PollKeepsInv(reg, w, rows, closes);
    case Cleanup(wanted) => CleanupKeepsInv(reg, w, wanted);
    case Begin(p) => BeginKeepsInv(reg, w, p);
    case ReadSum(q) => ReadKeepsInv(reg, w, q);
    case Finish => FinishKeepsInv(reg, w);
    case Abort => AbortKeepsInv(reg, w);
    case Backfill(now, years) => BackfillKeepsInv(reg, w, now, years);
  }

  ghost predicate InvStep(reg: Registry, ws: seq<World>, i: int) {
    0 <= i && i + 1 < |ws| && (Inv(reg, ws[i]) ==> Inv(reg, ws[i + 1]))
  }

  lemma {:induction false} InvThroughout(reg: Registry, ws: seq<World>, n: nat)
    requires n < |ws| && Inv(reg, ws[0]) && forall i :: 0 <= i < n ==> InvStep(reg, ws, i)
    ensures Inv(reg, ws[n])
  {
    if n > 0 {
      InvThroughout(reg, ws, n - 1);
      assert InvStep(reg, ws, n - 1);
    }
  }

  lemma HistoryInvStep(reg: Registry, ws: seq<World>, es: seq<Event>, i: nat)
    requires reg.Valid() && History(reg, ws, es) && i < |es|
    ensures InvStep(reg, ws, i)
  {
    StepInHistory(reg, ws, es, i);
    if Inv(reg, ws[i]) {
      StepKeepsInv(reg, ws[i], es[i]);
    }
  }

  /** The invariant holds in every state of every history. */
  lemma HistoryKeepsInv(reg: Registry, ws: seq<World>, es: seq<Event>, n: nat)
    requires reg.Valid() && History(reg, ws, es) && n < |ws|
    ensures Inv(reg, ws[n])
  {
    StartHasInv(reg, ws, es);
    forall i | 0 <= i < n
      ensures InvStep(reg, ws, i)
    {
      HistoryInvStep(reg, ws, es, i);
    }
    InvThroughout(reg, ws, n);
  }

  lemma StartHasInv(reg: Registry, ws: seq<World>, es: seq<Event>)
    requires reg.Valid() && History(reg, ws, es)
    ensures Inv(reg, ws[0])
  {
    var db, p :| Fresh(reg, db, p) && ws[0] == Started(reg, db, p);
    CutoverMakesInv(reg, db, p);
  }

  // ---- conservation ----

  lemma PurgeBeforeBaseline(w: World)
    requires w.db.meta.baselineYear >= 0 && PurgeOk(w)
    requires w.db.meta.Frozen(Daily) >= 0 && w.db.meta.Frozen(Monthly) >= 0 && w.db.meta.Frozen(Yearly) >= 0
    ensures w.db.meta.purgedBefore <= YearFirst(w.db.meta.baselineYear + 1)
  {
    FirstOpenDayBelow(w.db.meta);
  }

  /** Baseline plus the rows stored after the baseline year is every accepted day since
      1 January of the cutover year. */
  ghost predicate Conserves(w: World, e: Edge, through: int) {
    && w.db.meta.baselineYear >= 0 && w.db.meta.cutover >= 0
    && ConservesFrom(w, e, through, w.db.meta.baselineYear, Origin(w.db.meta))
  }

  ghost predicate ConservesFrom(w: World, e: Edge, through: int, y: nat, origin: nat) {
    YearLast(y) <= through ==>
      Get(w.db.meta.baseline, e.target) + Sum(w.db.rows, e.source, YearFirst(y + 1), through)
        == Sum(w.hist, e.source, origin, through)
  }

  /** In every reachable state: no fold and no purge loses a day or counts one twice. */
  lemma Conserved(reg: Registry, ws: seq<World>, es: seq<Event>, i: nat, e: Edge, through: int)
    requires reg.Valid() && History(reg, ws, es) && i < |ws| && e in reg.EdgesAt(Total)
    ensures Conserves(ws[i], e, through)
  {
    HistoryKeepsInv(reg, ws, es, i);
    ConservedHere(reg, ws[i], e, through, ws[i].db.meta.baselineYear, Origin(ws[i].db.meta));
  }

  lemma ConservedHere(reg: Registry, w: World, e: Edge, through: int, y: nat, origin: nat)
    requires reg.Valid() && Inv(reg, w) && e in reg.EdgesAt(Total)
    requires y == w.db.meta.baselineYear && origin == Origin(w.db.meta)
    ensures ConservesFrom(w, e, through, y, origin)
  {
    if YearLast(y) <= through {
      SourceIsPollerKey(reg, Total, e);
      BaselineSoFar(reg, w, e, y, origin);
      RowsAfterBaseline(reg, w, e.source, through, y, YearFirst(y + 1));
      SumsAcrossFold(w.hist, e.source, origin, y, through);
    }
  }

  lemma RowsAfterBaseline(reg: Registry, w: World, k: string, through: int, y: nat, since: nat)
    requires MarksOk(reg, w.db.meta) && PurgeOk(w) && HistOk(reg, w) && PollerKey(reg, k)
    requires y == w.db.meta.baselineYear && since == YearFirst(y + 1)
    ensures Sum(w.db.rows, k, since, through) == Sum(w.hist, k, since, through)
  {
    PurgeBeforeBaseline(w);
    OpenSumsAgree(reg, w, k, since, through);
  }

  // ---- accepted rows are per-day maxima ----

  /** The largest value accepted for a cell: an upper bound that some row, or the start, reached. */
  ghost predicate MaxOf(reg: Registry, m: Meta, before: Rows, after: Rows, rs: seq<DailyRow>, k: string, d: int) {
    var c := Cell(Daily, k, d);
    && (c in before ==> c in after && before[c] <= after[c])
    && (forall r :: r in rs && r.key == k && r.day == d && RowAccepted(reg, m, r) ==>
          c in after && r.value <= after[c])
    && (c in after ==>
          || (c in before && after[c] == before[c])
          || exists r :: r in rs && r.key == k && r.day == d && RowAccepted(reg, m, r) && after[c] == r.value)
  }

  lemma {:induction false} WriteDailiesMax(
    reg: Registry, m: Meta, rows: Rows, rs: seq<DailyRow>, k: string, d: int)
    ensures MaxOf(reg, m, rows, WriteDailies(reg, m, rows, rs), rs, k, d)
  {
    if rs != [] {
      var n := |rs| - 1;
      WriteDailiesMax(reg, m, rows, rs[..n], k, d);
      assert rs == rs[..n] + [rs[n]];
    }
  }

  ghost predicate AcceptedIn(reg: Registry, ws: seq<World>, es: seq<Event>, i: int, r: DailyRow) {
    && 0 <= i < |es| && i < |ws| && es[i].Poll? && r in es[i].rows && RowAccepted(reg, ws[i].db.meta, r)
  }

  /** What the ledger counts for a key and day after n events: the largest value accepted,
      or the one stored at the start. */
  ghost predicate FinalMax(reg: Registry, ws: seq<World>, es: seq<Event>, n: nat, k: string, d: int)
    requires n < |ws|
  {
    var c := Cell(Daily, k, d);
    && (c in ws[0].hist ==> c in ws[n].hist && ws[0].hist[c] <= ws[n].hist[c])
    && (forall i, r :: i < n && AcceptedIn(reg, ws, es, i, r) && r.key == k && r.day == d ==>
          c in ws[n].hist && r.value <= ws[n].hist[c])
    && (c in ws[n].hist ==>
          || (c in ws[0].hist && ws[n].hist[c] == ws[0].hist[c])
          || exists i, r :: i < n && AcceptedIn(reg, ws, es, i, r) && r.key == k && r.day == d
               && ws[n].hist[c] == r.value)
  }

  lemma StepMax(reg: Registry, ws: seq<World>, es: seq<Event>, n: nat, k: string, d: int, rs: seq<DailyRow>)
    requires n < |es| < |ws| && FinalMax(reg, ws, es, n, k, d)
    requires rs == PolledRows(es[n])
    requires MaxOf(reg, ws[n].db.meta, ws[n].hist, ws[n + 1].hist, rs, k, d)
    ensures FinalMax(reg, ws, es, n + 1, k, d)
  {
    var c := Cell(Daily, k, d);
    if c in ws[n + 1].hist && (c in ws[n].hist ==> ws[n + 1].hist[c] != ws[n].hist[c]) {
      var r :| r in rs && r.key == k && r.day == d && RowAccepted(reg, ws[n].db.meta, r)
        && ws[n + 1].hist[c] == r.value;
      assert AcceptedIn(reg, ws, es, n, r);
    }
  }

  lemma EventMax(reg: Registry, ws: seq<World>, es: seq<Event>, n: nat, k: string, d: int)
    requires History(reg, ws, es) && n < |es|
    ensures MaxOf(reg, ws[n].db.meta, ws[n].hist, ws[n + 1].hist, PolledRows(es[n]), k, d)
  {
    StepInHistory(reg, ws, es, n);
    WriteDailiesMax(reg, ws[n].db.meta, ws[n].hist, PolledRows(es[n]), k, d);
  }

  function PolledRows(e: Event): seq<DailyRow> {
    if e.Poll? then e.rows else []
  }

  ghost predicate MaxAt(reg: Registry, ws: seq<World>, es: seq<Event>, n: int, k: string, d: int) {
    && 0 <= n < |es| && n + 1 < |ws|
    && MaxOf(reg, ws[n].db.meta, ws[n].hist, ws[n + 1].hist, PolledRows(es[n]), k, d)
  }

  lemma {:induction false} MaxThroughout(
    reg: Registry, ws: seq<World>, es: seq<Event>, n: nat, k: string, d: int)
    requires n <= |es| && |ws| == |es| + 1 && forall i :: 0 <= i < n ==> MaxAt(reg, ws, es, i, k, d)
    ensures FinalMax(reg, ws, es, n, k, d)
  {
    if n > 0 {
      MaxThroughout(reg, ws, es, n - 1, k, d);
      assert MaxAt(reg, ws, es, n - 1, k, d);
      StepMax(reg, ws, es, n - 1, k, d, PolledRows(es[n - 1]));
    }
  }

  lemma CountedIsFinalMax(reg: Registry, ws: seq<World>, es: seq<Event>, n: nat, k: string, d: int)
    requires History(reg, ws, es) && n < |ws|
    ensures FinalMax(reg, ws, es, n, k, d)
  {
    forall i | 0 <= i < n
      ensures MaxAt(reg, ws, es, i, k, d)
    {
      EventMax(reg, ws, es, i, k, d);
    }
    MaxThroughout(reg, ws, es, n, k, d);
  }

  // ---- what stays as it was ----

  predicate Live(e: Event) {
    !e.Backfill?
  }

  lemma StepKeepsStart(reg: Registry, w: World, e: Event)
    requires reg.Valid() && Inv(reg, w) && Enabled(reg, w, e)
    ensures Step(reg, w, e).db.meta.cutover == w.db.meta.cutover
    ensures w.settled <= Step(reg, w, e).settled
  {
    match e
    case Poll(rows, closes) => CloseDaysGrow(reg, w.db.meta, closes);
    case Finish => CutoverAfter(reg, w, w.run.value);
    case Backfill(now, years) => BackfillFrame(reg, w, now, years);
    case _ =>
  }

  lemma BackfillFrame(reg: Registry, w: World, now: Period, years: nat)
    requires reg.Valid() && Inv(reg, w) && Enabled(reg, w, Backfill(now, years))
    ensures var w' := Step(reg, w, Backfill(now, years));
      && w' == w.(db := w'.db)
      && w'.db.meta == w.db.meta.(offsets := w'.db.meta.offsets, baseline := w'.db.meta.baseline)
  {
    var d, w' := w.(db := BackfillYears(reg, w.db, now.year - years, now.year, now)),
      Step(reg, w, Backfill(now, years));
    BackfillIs(reg, w, now, years, d, w');
    if w' != w {
      YearsTables(reg, w, now, years, d, now.year - years);
      YearsThenBaseline(reg, w, d, w');
    }
  }

  lemma YearsTables(reg: Registry, w: World, now: Period, years: nat, d: World, first: nat)
    requires reg.Valid() && Inv(reg, w) && w.run.None? && first == now.year - years
    requires w.db.meta.LowestClosed(reg.dailyKeys) <= now.day && !BackfillRefused(w.db.meta, now, years)
    requires d == w.(db := BackfillYears(reg, w.db, first, now.year, now))
    ensures SameTables(w, d)
  {
    JobReady(reg, w, now, years, first);
    JobKeeps(reg, w, d, now, first);
  }

  lemma YearsThenBaseline(reg: Registry, w: World, d: World, w': World)
    requires SameTables(w, d)
    requires w' == d || (BaselineRefreshable(d.db.meta) && w' == Refreshed(reg, d))
    ensures w' == w.(db := w'.db)
    ensures w'.db.meta == w.db.meta.(offsets := w'.db.meta.offsets, baseline := w'.db.meta.baseline)
  {
  }

  /** Freeze marks never go back. */
  lemma MarksNeverFall(reg: Registry, w: World, e: Event, l: Level)
    requires reg.Valid() && Inv(reg, w) && Enabled(reg, w, e) && Frozenable(l)
    ensures w.db.meta.Frozen(l) <= Step(reg, w, e).db.meta.Frozen(l)
  {
    match e
    case Poll(rows, closes) => CloseDaysGrow(reg, w.db.meta, closes);
    case Finish => MarkAfter(reg, w, w.run.value, l);
    case Backfill(now, years) => BackfillFrame(reg, w, now, years);
    case _ =>
  }

  /** A live step keeps every row of a period at or before its mark, unless retention
      removes it. */
  lemma LiveStepKeepsFrozen(reg: Registry, w: World, e: Event, l: Level, k: int, key: string)
    requires Enabled(reg, w, e) && Live(e) && InDomain(reg, l, key)
    requires Frozenable(l) && k <= w.db.meta.Frozen(l)
    ensures CellKept(w, Step(reg, w, e), Cell(l, key, k))
  {
    var c := Cell(l, key, k);
    match e
    case Poll(rows, closes) => WriteDailiesFrame(reg, w.db.meta, w.db.rows, rows, c);
    case Cleanup(wanted) => CleanupKeepsCell(reg, w, wanted, c);
    case Finish => BatchesFrame(reg, w.db.meta, w.db.rows, GatherOf(reg, w.run.value).batches, c);
    case _ =>
  }

  lemma FrozenStep(reg: Registry, ws: seq<World>, es: seq<Event>, i: nat, l: Level, k: int, key: string)
    requires reg.Valid() && History(reg, ws, es) && i < |es| && Live(es[i])
    requires Frozenable(l) && k <= ws[i].db.meta.Frozen(l) && InDomain(reg, l, key)
    ensures k <= ws[i + 1].db.meta.Frozen(l) && CellKept(ws[i], ws[i + 1], Cell(l, key, k))
  {
    HistoryKeepsInv(reg, ws, es, i);
    StepInHistory(reg, ws, es, i);
    MarksNeverFall(reg, ws[i], es[i], l);
    LiveStepKeepsFrozen(reg, ws[i], es[i], l, k, key);
  }

  lemma CellKeptOnward(a: World, b: World, c: World, x: Cell)
    requires CellKept(a, b, x) && CellKept(b, c, x)
    ensures CellKept(a, c, x)
  {
  }

  ghost predicate FrozenAt(ws: seq<World>, x: int, l: Level, k: int, key: string) {
    0 <= x && x + 1 < |ws| && (k <= ws[x].db.meta.Frozen(l) ==>
      k <= ws[x + 1].db.meta.Frozen(l) && CellKept(ws[x], ws[x + 1], Cell(l, key, k)))
  }

  lemma {:induction false} FrozenThroughout(ws: seq<World>, i: nat, j: nat, l: Level, k: int, key: string)
    requires i <= j < |ws| && k <= ws[i].db.meta.Frozen(l)
    requires forall x :: i <= x < j ==> FrozenAt(ws, x, l, k, key)
    ensures k <= ws[j].db.meta.Frozen(l) && CellKept(ws[i], ws[j], Cell(l, key, k))
    decreases j
  {
    if i < j {
      FrozenThroughout(ws, i, j - 1, l, k, key);
      assert FrozenAt(ws, j - 1, l, k, key);
      CellKeptOnward(ws[i], ws[j - 1], ws[j], Cell(l, key, k));
    }
  }

  /** A frozen value is final: whatever runs next except an offline backfill, the row of a
      period at or before its freeze mark keeps its value until retention deletes it, a
      deleted row never comes back, and a missing one is never written. */
  lemma FrozenIsFinal(
    reg: Registry, ws: seq<World>, es: seq<Event>, i: nat, j: nat, l: Level, k: int, key: string)
    requires reg.Valid() && History(reg, ws, es) && i <= j < |ws|
    requires forall x :: i <= x < j ==> Live(es[x])
    requires Frozenable(l) && k <= ws[i].db.meta.Frozen(l) && InDomain(reg, l, key)
    ensures k <= ws[j].db.meta.Frozen(l) && CellKept(ws[i], ws[j], Cell(l, key, k))
  {
    forall x | i <= x < j
      ensures FrozenAt(ws, x, l, k, key)
    {
      if k <= ws[x].db.meta.Frozen(l) {
        FrozenStep(reg, ws, es, x, l, k, key);
      }
    }
    FrozenThroughout(ws, i, j, l, k, key);
  }

  /** What a run froze is exact: in every reachable state, the row of a settled period is
      the sum of that period's accepted daily rows plus the cutover offset it carries, and a
      net row is the difference of its two parts. It is missing only after retention
      removed it. */
  lemma SettledIsExact(reg: Registry, ws: seq<World>, es: seq<Event>, i: nat, l: Level, k: nat)
    requires reg.Valid() && History(reg, ws, es) && i < |ws| && (l, k) in ws[i].settled
    ensures PeriodSettled(reg, ws[i], l, k)
  {
    HistoryKeepsInv(reg, ws, es, i);
  }

  ghost predicate ClosedAt(ws: seq<World>, x: int, k: string, first: int, last: int) {
    0 <= x && x + 1 < |ws| && (last <= ws[x].db.meta.Closed(k) ==>
      && Sum(ws[x + 1].hist, k, first, last) == Sum(ws[x].hist, k, first, last)
      && last <= ws[x + 1].db.meta.Closed(k))
  }

  lemma {:induction false} ClosedThroughout(ws: seq<World>, i: nat, j: nat, k: string, first: int, last: int)
    requires i <= j < |ws| && last <= ws[i].db.meta.Closed(k)
    requires forall x :: i <= x < j ==> ClosedAt(ws, x, k, first, last)
    ensures Sum(ws[j].hist, k, first, last) == Sum(ws[i].hist, k, first, last)
    ensures last <= ws[j].db.meta.Closed(k)
    decreases j
  {
    if i < j {
      ClosedThroughout(ws, i, j - 1, k, first, last);
      assert ClosedAt(ws, j - 1, k, first, last);
    }
  }

  /** No accepted row of a settled period, or of a folded year, changes any more. */
  lemma SettledDaysAreFinal(
    reg: Registry, ws: seq<World>, es: seq<Event>, i: nat, j: nat, k: string, first: int, last: int)
    requires reg.Valid() && History(reg, ws, es) && i <= j < |ws|
    requires last <= ws[i].db.meta.Closed(k)
    ensures Sum(ws[j].hist, k, first, last) == Sum(ws[i].hist, k, first, last)
    ensures last <= ws[j].db.meta.Closed(k)
  {
    forall x | i <= x < j
      ensures ClosedAt(ws, x, k, first, last)
    {
      if last <= ws[x].db.meta.Closed(k) {
        ClosedDaysStep(reg, ws, es, x, k, first, last);
      }
    }
    ClosedThroughout(ws, i, j, k, first, last);
  }

  lemma ClosedDaysStep(
    reg: Registry, ws: seq<World>, es: seq<Event>, i: nat, k: string, first: int, last: int)
    requires reg.Valid() && History(reg, ws, es) && i < |es| && last <= ws[i].db.meta.Closed(k)
    ensures Sum(ws[i + 1].hist, k, first, last) == Sum(ws[i].hist, k, first, last)
    ensures last <= ws[i + 1].db.meta.Closed(k)
  {
    HistoryKeepsInv(reg, ws, es, i);
    StepInHistory(reg, ws, es, i);
    ClosedDaysStay(reg, ws[i], es[i], k, first, last);
  }

  lemma ClosedDaysStay(reg: Registry, w: World, e: Event, k: string, first: int, last: int)
    requires reg.Valid() && Inv(reg, w) && Enabled(reg, w, e) && last <= w.db.meta.Closed(k)
    ensures Sum(Step(reg, w, e).hist, k, first, last) == Sum(w.hist, k, first, last)
    ensures last <= Step(reg, w, e).db.meta.Closed(k)
  {
    match e
    case Poll(rows, closes) =>
      CloseDaysGrow(reg, w.db.meta, closes);
      ClosedSumKept(reg, w.db.meta, w.hist, rows, k, first, last);
    case Finish => MetaAfter(reg, w, w.run.value);
    case Backfill(now, years) => BackfillFrame(reg, w, now, years);
    case _ =>
  }

  /** Every month and year frozen since the cutover was frozen by a run, none skipped. */
  lemma NothingSkipped(reg: Registry, ws: seq<World>, es: seq<Event>, i: nat, l: Level, k: int)
    requires reg.Valid() && History(reg, ws, es) && i < |ws| && (l == Monthly || l == Yearly)
    ensures ws[i].db.meta.cutover >= CUTOVER_MARGIN
    ensures StartMark(ws[i].db.meta, l) < k <= ws[i].db.meta.Frozen(l) ==> (l, k) in ws[i].settled
  {
    HistoryKeepsInv(reg, ws, es, i);
  }

  // ---- totals never decrease ----

  function TotalCell(e: Edge): Cell {
    Cell(Total, e.target, NONE)
  }

  /** A total, once a run has written it, is never written lower. */
  ghost predicate TotalKept(w: World, w': World, e: Edge) {
    w.lastDay >= 0 && TotalCell(e) in w.db.rows ==>
      && w'.lastDay >= w.lastDay
      && TotalCell(e) in w'.db.rows && w'.db.rows[TotalCell(e)] >= w.db.rows[TotalCell(e)]
  }

  lemma FinishKeepsTotal(reg: Registry, w: World, e: Edge)
    requires reg.Valid() && Inv(reg, w) && Enabled(reg, w, Finish) && e in reg.EdgesAt(Total)
    ensures TotalKept(w, Step(reg, w, Finish), e)
  {
    if w.lastDay != NONE {
      TotalRises(reg, w, w.run.value, e);
    }
  }

  lemma TotalRises(reg: Registry, w: World, r: Run, e: Edge)
    requires Ready(reg, w, r) && BaselineOk(reg, w) && e in reg.EdgesAt(Total) && w.lastDay != NONE
    ensures TotalCell(e) in w.db.rows && TotalCell(e) in After(reg, w, r).rows
    ensures r.p.day >= w.lastDay && After(reg, w, r).rows[TotalCell(e)] >= w.db.rows[TotalCell(e)]
  {
    TotalWritten(reg, w, r, e);
    TotalBounds(reg, w, r, e);
    assert PollerKey(reg, e.source) by { SourceIsPollerKey(reg, Total, e); }
    SumGrows(r.seen, r.seen, e.source, Origin(w.db.meta), w.lastDay, r.p.day);
  }

  lemma {:induction false} MonthsKeepCell(reg: Registry, db: DB, lo: nat, hi: int, today: int, c: Cell)
    requires c.level != Monthly
    ensures SameCell(BackfillMonths(reg, db, lo, hi, today).rows, db.rows, c)
    decreases hi - lo
  {
    if lo <= hi {
      MonthsKeepCell(reg, db, lo, hi - 1, today, c);
      PeriodKeepsCell(reg, BackfillMonths(reg, db, lo, hi - 1, today), hi, today, c);
    }
  }

  lemma PeriodKeepsCell(reg: Registry, db: DB, k: nat, today: int, c: Cell)
    requires c.level != Monthly
    ensures SameCell(BackfillPeriod(reg, db, Monthly, k, today).rows, db.rows, c)
  {
  }

  lemma {:induction false} YearsKeepCell(reg: Registry, db: DB, first: nat, hi: int, now: Period, c: Cell)
    requires c.level != Monthly && c.level != Yearly
    ensures SameCell(BackfillYears(reg, db, first, hi, now).rows, db.rows, c)
    decreases hi - first
  {
    if first <= hi {
      YearsKeepCell(reg, db, first, hi - 1, now, c);
      MonthsKeepCell(reg, BackfillYears(reg, db, first, hi - 1, now), 12 * hi, Min(12 * hi + 11, now.month),
        now.day, c);
    }
  }

  lemma PollKeepsTotal(reg: Registry, w: World, rows: seq<DailyRow>, closes: seq<DayClose>, e: Edge)
    ensures TotalKept(w, Step(reg, w, Poll(rows, closes)), e)
  {
    WriteDailiesFrame(reg, w.db.meta, w.db.rows, rows, TotalCell(e));
  }

  lemma BackfillKeepsTotal(reg: Registry, w: World, now: Period, years: nat, e: Edge)
    requires Enabled(reg, w, Backfill(now, years))
    ensures TotalKept(w, Step(reg, w, Backfill(now, years)), e)
  {
    YearsKeepCell(reg, w.db, now.year - years, now.year, now, TotalCell(e));
  }

  lemma CleanupKeepsTotal(reg: Registry, w: World, wanted: nat, e: Edge)
    ensures TotalKept(w, Step(reg, w, Cleanup(wanted)), e)
  {
  }

  lemma OtherStepKeepsTotal(reg: Registry, w: World, w': World, e: Edge)
    requires w' == w.(run := w'.run)
    ensures TotalKept(w, w', e)
  {
  }

  lemma StepKeepsTotal(reg: Registry, w: World, ev: Event, e: Edge)
    requires reg.Valid() && Inv(reg, w) && Enabled(reg, w, ev) && e in reg.EdgesAt(Total)
    ensures TotalKept(w, Step(reg, w, ev), e)
  {
    match ev
    case Poll(rows, closes) => PollKeepsTotal(reg, w, rows, closes, e);
    case Cleanup(wanted) => CleanupKeepsTotal(reg, w, wanted, e);
    case Finish => FinishKeepsTotal(reg, w, e);
    case Backfill(now, years) => BackfillKeepsTotal(reg, w, now, years, e);
    case _ => OtherStepKeepsTotal(reg, w, Step(reg, w, ev), e);
  }

  lemma TotalKeptOnward(a: World, b: World, c: World, e: Edge)
    requires TotalKept(a, b, e) && TotalKept(b, c, e)
    ensures TotalKept(a, c, e)
  {
  }

  lemma HistoryStepKeepsTotal(reg: Registry, ws: seq<World>, es: seq<Event>, i: nat, e: Edge)
    requires reg.Valid() && History(reg, ws, es) && i < |es| && e in reg.EdgesAt(Total)
    ensures TotalKept(ws[i], ws[i + 1], e)
  {
    HistoryKeepsInv(reg, ws, es, i);
    StepInHistory(reg, ws, es, i);
    StepKeepsTotal(reg, ws[i], es[i], e);
  }

  ghost predicate KeptAt(ws: seq<World>, e: Edge, x: int) {
    0 <= x && x + 1 < |ws| && TotalKept(ws[x], ws[x + 1], e)
  }

  lemma {:induction false} KeptThroughout(ws: seq<World>, i: nat, j: nat, e: Edge)
    requires i <= j < |ws| && forall x :: i <= x < j ==> KeptAt(ws, e, x)
    ensures TotalKept(ws[i], ws[j], e)
    decreases j
  {
    if i < j {
      KeptThroughout(ws, i, j - 1, e);
      assert KeptAt(ws, e, j - 1);
      TotalKeptOnward(ws[i], ws[j - 1], ws[j], e);
    }
  }

  /** Totals never decrease, from the first finished run on. */
  lemma TotalsNeverDecrease(reg: Registry, ws: seq<World>, es: seq<Event>, i: nat, j: nat, e: Edge)
    requires reg.Valid() && History(reg, ws, es) && i <= j < |ws| && e in reg.EdgesAt(Total)
    ensures TotalKept(ws[i], ws[j], e)
  {
    forall x | i <= x < j
      ensures KeptAt(ws, e, x)
    {
      HistoryStepKeepsTotal(reg, ws, es, x, e);
    }
    KeptThroughout(ws, i, j, e);
  }

  lemma StepInHistory(reg: Registry, ws: seq<World>, es: seq<Event>, i: nat)
    requires History(reg, ws, es) && i < |es|
    ensures Next(reg, ws[i], es[i], ws[i + 1])
  {
  }

  // ---- retention ----

  /** No daily row on or after the purge mark was ever deleted. */
  lemma NothingDeletedAfterMark(reg: Registry, ws: seq<World>, es: seq<Event>, i: nat, k: string, d: int)
    requires reg.Valid() && History(reg, ws, es) && i < |ws|
    requires PollerKey(reg, k) && d >= ws[i].db.meta.purgedBefore
    ensures SameCell(ws[i].db.rows, ws[i].hist, Cell(Daily, k, d))
  {
    HistoryKeepsInv(reg, ws, es, i);
  }

  /** No poll can write a row before the purge mark again. */
  lemma NoWriteBeforeMark(reg: Registry, ws: seq<World>, es: seq<Event>, i: nat, r: DailyRow)
    requires reg.Valid() && History(reg, ws, es) && i < |ws| && RowAccepted(reg, ws[i].db.meta, r)
    ensures r.day >= ws[i].db.meta.purgedBefore
  {
    HistoryKeepsInv(reg, ws, es, i);
    FirstOpenDayBelow(ws[i].db.meta);
    assert r.key in reg.dailyKeys;
  }

  // ---- the offline backfill ----

  lemma {:induction false} MonthsOnlyAdd(reg: Registry, db: DB, lo: nat, hi: int, today: int)
    ensures db.rows.Keys <= BackfillMonths(reg, db, lo, hi, today).rows.Keys
    decreases hi - lo
  {
    if lo <= hi {
      MonthsOnlyAdd(reg, db, lo, hi - 1, today);
    }
  }

  lemma {:induction false} YearsOnlyAdd(reg: Registry, db: DB, first: nat, hi: int, now: Period)
    ensures db.rows.Keys <= BackfillYears(reg, db, first, hi, now).rows.Keys
    decreases hi - first
  {
    if first <= hi {
      YearsOnlyAdd(reg, db, first, hi - 1, now);
      MonthsOnlyAdd(reg, BackfillYears(reg, db, first, hi - 1, now), 12 * hi, Min(12 * hi + 11, now.month), now.day);
    }
  }

  lemma {:induction false} MonthsDropOffsets(reg: Registry, db: DB, lo: nat, hi: int, today: int)
    ensures BackfillMonths(reg, db, lo, hi, today).meta.offsets.Keys <= db.meta.offsets.Keys
    decreases hi - lo
  {
    if lo <= hi {
      MonthsDropOffsets(reg, db, lo, hi - 1, today);
    }
  }

  lemma {:induction false} YearsDropOffsets(reg: Registry, db: DB, first: nat, hi: int, now: Period)
    ensures BackfillYears(reg, db, first, hi, now).meta.offsets.Keys <= db.meta.offsets.Keys
    decreases hi - first
  {
    if first <= hi {
      YearsDropOffsets(reg, db, first, hi - 1, now);
      MonthsDropOffsets(reg, BackfillYears(reg, db, first, hi - 1, now), 12 * hi, Min(12 * hi + 11, now.month),
        now.day);
    }
  }

  lemma PlainParts(reg: Registry, w: World, w': World, l: Level, k: nat, key: string)
    requires w.hist == w'.hist && NoOffset(w.db.meta, l, k)
    requires w'.db.meta.offsets.Keys <= w.db.meta.offsets.Keys
    ensures PartSame(reg, w, w', l, key, k)
  {
  }

  lemma AgreedEdge(reg: Registry, w: World, w': World, l: Level, k: nat, e: Edge)
    requires e in reg.EdgesAt(l) && PeriodSettled(reg, w, l, k) && PeriodSettled(reg, w', l, k)
    requires w.hist == w'.hist && NoOffset(w.db.meta, l, k)
    requires w'.db.meta.offsets.Keys <= w.db.meta.offsets.Keys && w.db.rows.Keys <= w'.db.rows.Keys
    ensures Cell(l, e.target, k) in w.db.rows ==> SameCell(w.db.rows, w'.db.rows, Cell(l, e.target, k))
  {
    PlainParts(reg, w, w', l, k, e.target);
    assert EdgeSettled(reg, w, e, l, k) && EdgeSettled(reg, w', e, l, k);
  }

  lemma AgreedNet(reg: Registry, w: World, w': World, l: Level, k: nat, n: NetPair)
    requires n in reg.NetsAt(l) && PeriodSettled(reg, w, l, k) && PeriodSettled(reg, w', l, k)
    requires w.hist == w'.hist && NoOffset(w.db.meta, l, k)
    requires w'.db.meta.offsets.Keys <= w.db.meta.offsets.Keys && w.db.rows.Keys <= w'.db.rows.Keys
    ensures Cell(l, n.target, k) in w.db.rows ==> SameCell(w.db.rows, w'.db.rows, Cell(l, n.target, k))
  {
    PlainParts(reg, w, w', l, k, n.exported);
    PlainParts(reg, w, w', l, k, n.imported);
    assert NetSettled(reg, w, n, l, k) && NetSettled(reg, w', n, l, k);
  }

  lemma BackfillOnlyAdds(reg: Registry, w: World, now: Period, years: nat)
    requires Enabled(reg, w, Backfill(now, years))
    ensures var w' := Step(reg, w, Backfill(now, years));
      w'.db.meta.offsets.Keys <= w.db.meta.offsets.Keys && w.db.rows.Keys <= w'.db.rows.Keys
  {
    RecomputeOnlyAdds(reg, w.db, now, years);
  }

  lemma RecomputeOnlyAdds(reg: Registry, db: DB, now: Period, years: nat)
    requires years <= now.year
    ensures var db' := ApplyBackfill(reg, db, now, years);
      db'.meta.offsets.Keys <= db.meta.offsets.Keys && db.rows.Keys <= db'.rows.Keys
  {
    YearsOnlyAdd(reg, db, now.year - years, now.year, now);
    YearsDropOffsets(reg, db, now.year - years, now.year, now);
  }

  ghost predicate ComputedAt(reg: Registry, l: Level, key: string) {
    (exists e :: e in reg.EdgesAt(l) && e.target == key) || (exists n :: n in reg.NetsAt(l) && n.target == key)
  }

  /** The backfill agrees with the live aggregator on every month and year the aggregator
      froze without a cutover offset: the stored rows stay as they are. */
  lemma BackfillKeepsFrozen(
    reg: Registry, ws: seq<World>, es: seq<Event>, i: nat, now: Period, years: nat, l: Level, k: nat, key: string)
    requires reg.Valid() && History(reg, ws, es) && i < |es| && es[i] == Backfill(now, years)
    requires (l, k) in ws[i].settled && NoOffset(ws[i].db.meta, l, k)
    requires ComputedAt(reg, l, key) && Cell(l, key, k) in ws[i].db.rows
    ensures SameCell(ws[i].db.rows, ws[i + 1].db.rows, Cell(l, key, k))
  {
    SettledIsExact(reg, ws, es, i, l, k);
    HistoryKeepsInv(reg, ws, es, i);
    StepInHistory(reg, ws, es, i);
    BackfillFrame(reg, ws[i], now, years);
    SettledIsExact(reg, ws, es, i + 1, l, k);
    BackfillOnlyAdds(reg, ws[i], now, years);
    if e :| e in reg.EdgesAt(l) && e.target == key {
      AgreedEdge(reg, ws[i], ws[i + 1], l, k, e);
    } else {
      var n :| n in reg.NetsAt(l) && n.target == key;
      AgreedNet(reg, ws[i], ws[i + 1], l, k, n);
    }
  }

  /** The baseline a backfill writes as one range sum is the one the yearly folds built. */
  lemma BackfillKeepsBaseline(
    reg: Registry, ws: seq<World>, es: seq<Event>, i: nat, now: Period, years: nat, e: Edge)
    requires reg.Valid() && History(reg, ws, es) && i < |es| && es[i] == Backfill(now, years)
    requires e in reg.EdgesAt(Total)
    ensures Get(ws[i + 1].db.meta.baseline, e.target) == Get(ws[i].db.meta.baseline, e.target)
  {
    HistoryKeepsInv(reg, ws, es, i);
    HistoryKeepsInv(reg, ws, es, i + 1);
    assert Next(reg, ws[i], es[i], ws[i + 1]);
    BackfillFrame(reg, ws[i], now, years);
  }
}
