/** The energy ledger as a step system: poll transactions, retention cleanups, offline
    backfills and the separate steps of one aggregator run (capture the state, read one
    sum, write) in any interleaving. */
module World {
  import opened Calendar
  import opened Registers
  import opened Energy
  import opened Plan
  import opened Ledger

  /** A run in progress: what it captured, and the sums it has read. `seen` remembers
      every daily row as it was when the run began. */
  datatype Run = Run(p: Period, st: Meta, got: Reads, seen: Rows)

  /** The stored state with four history variables: every daily row ever accepted (retention
      never removes it here), the largest cutoff retention has applied, the periods frozen by
      a run, and the day of the last finished run. */
  datatype World = World(
    db: DB, run: Option<Run>, hist: Rows, cut: int, settled: set<(Level, int)>, lastDay: int)

  datatype Event =
    | Poll(rows: seq<DailyRow>, closes: seq<DayClose>)
    | Cleanup(wanted: nat)
    | Begin(p: Period)
    | ReadSum(q: Query)
    | Finish
    | Abort
    | Backfill(now: Period, years: nat)

  function RunPlan(reg: Registry, r: Run): Plan
    requires r.p.day >= MAX_NET_DAYS && r.st.Marks(reg).Marks()
  {
    PlanFor(r.p, r.st.Marks(reg))
  }

  ghost predicate RunReady(reg: Registry, r: Run) {
    r.p.day >= MAX_NET_DAYS && r.st.Marks(reg).Marks() && r.st.baselineYear >= NONE
  }

  ghost predicate Asks(reg: Registry, r: Run, q: Query)
    requires RunReady(reg, r)
  {
    IsQuery(reg, r.st, r.p, RunPlan(reg, r), q)
  }

  /** When an event can happen. A run or a backfill captures a day no earlier than the days
      the keys have closed; runs follow a clock that does not go back; a backfill needs the
      application stopped. */
  ghost predicate Enabled(reg: Registry, w: World, e: Event) {
    match e
    case Poll(_, _) => true
    case Cleanup(_) => true
    case Begin(p) =>
      w.run.None? && p.Valid() && p.day >= w.lastDay && p.day >= w.db.meta.cutover
      && w.db.meta.LowestClosed(reg.dailyKeys) <= p.day
    case ReadSum(q) => w.run.Some? && RunReady(reg, w.run.value) && Asks(reg, w.run.value, q)
    case Finish =>
      && w.run.Some? && RunReady(reg, w.run.value)
      && forall q :: Asks(reg, w.run.value, q) ==> q in w.run.value.got
    case Abort => true
    case Backfill(now, years) =>
      w.run.None? && now.Valid() && years < now.year
      && w.db.meta.LowestClosed(reg.dailyKeys) <= now.day
  }

  /** The periods a run freezes. */
  function Freezing(jobs: seq<Job>): set<(Level, int)> {
    set j | j in jobs && j.freeze :: (j.level, j.key)
  }

  ghost function Step(reg: Registry, w: World, e: Event): World
    requires Enabled(reg, w, e)
  {
    match e
    case Poll(rows, closes) =>
      w.(db := ApplyPoll(reg, w.db, rows, closes),
         hist := WriteDailies(reg, w.db.meta, w.hist, rows))
    case Cleanup(wanted) =>
      w.(db := ApplyCleanup(w.db, wanted),
         cut := if CleanupDue(w.db.meta, wanted) then Max(w.cut, Cutoff(w.db.meta, wanted)) else w.cut)
    case Begin(p) => w.(run := Some(Run(p, w.db.meta, map[], w.hist)))
    case ReadSum(q) =>
      var r := w.run.value;
      w.(run := Some(r.(got := r.got[q := Sum(w.db.rows, q.source, q.first, q.last)])))
    case Finish =>
      var r := w.run.value;
      var plan := RunPlan(reg, r);
      w.(db := ApplyComputed(reg, w.db, Gather(reg, r.st, r.p, plan, r.got)),
         run := None,
         settled := w.settled + Freezing(plan.days) + Freezing(plan.months) + Freezing(plan.years),
         lastDay := r.p.day)
    case Abort => w.(run := None)
    case Backfill(now, years) => w.(db := ApplyBackfill(reg, w.db, now, years))
  }

  /** A start: the meta table is empty, daily counters are not negative; then the cutover. */
  ghost predicate Fresh(reg: Registry, db: DB, p: Period) {
    && p.Valid() && db.meta == EMPTY_META
    && forall k, d :: PollerKey(reg, k) ==> At(db.rows, k, d) >= 0
  }

  function Started(reg: Registry, db: DB, p: Period): World
    requires p.day >= CUTOVER_MARGIN
  {
    World(ApplyCutover(reg, db, p), None, db.rows, NONE, {}, NONE)
  }

  ghost predicate Next(reg: Registry, w: World, e: Event, w': World) {
    Enabled(reg, w, e) && w' == Step(reg, w, e)
  }

  /** A history: a fresh start, then any events that could happen, in any order. */
  ghost predicate History(reg: Registry, ws: seq<World>, es: seq<Event>) {
    && |ws| == |es| + 1
    && (exists db, p :: Fresh(reg, db, p) && ws[0] == Started(reg, db, p))
    && forall i {:trigger es[i]} :: 0 <= i < |es| ==> Next(reg, ws[i], es[i], ws[i + 1])
  }

  // ---- the global invariant ----

  /** The first day the totals count. */
  function Origin(m: Meta): nat
    requires m.cutover >= 0
  {
    YearFirst(YearOf(m.cutover))
  }

  predicate Frozenable(l: Level) {
    l == Daily || l == Monthly || l == Yearly
  }

  /** Every key has closed the last day of every frozen period and folded year. */
  ghost predicate ClosedBeyond(reg: Registry, m: Meta, d: int) {
    forall k :: k in reg.dailyKeys ==> d <= m.Closed(k)
  }

  ghost predicate MarksOk(reg: Registry, m: Meta) {
    && m.cutover >= FIRST_DAY
    && m.Frozen(Daily) >= 0 && m.Frozen(Monthly) >= 0 && m.Frozen(Yearly) >= 0
    && 0 <= YearOf(m.cutover) - 1 <= m.baselineYear && m.Frozen(Yearly) <= m.baselineYear
    && ClosedBeyond(reg, m, m.Frozen(Daily))
    && ClosedBeyond(reg, m, MonthLast(m.Frozen(Monthly)))
    && ClosedBeyond(reg, m, YearLast(m.Frozen(Yearly)))
    && (m.baselineYear >= YearOf(m.cutover) ==> ClosedBeyond(reg, m, YearLast(m.baselineYear)))
    && (forall c :: c in m.offsets ==> c.level == Monthly || c.level == Yearly)
  }

  ghost predicate PurgeOk(w: World)
    requires w.db.meta.baselineYear >= NONE
  {
    w.cut <= FirstOpenDay(w.db.meta) && w.db.meta.purgedBefore <= w.cut
  }

  /** From the purge mark on, the stored daily rows are the accepted ones. */
  ghost predicate HistOk(reg: Registry, w: World) {
    forall k, d :: PollerKey(reg, k) ==>
      && At(w.hist, k, d) >= 0
      && (d >= w.db.meta.purgedBefore ==> SameCell(w.db.rows, w.hist, Cell(Daily, k, d)))
  }

  /** The baseline holds exactly the accepted rows since 1 January of the cutover year
      through the last folded year. */
  ghost predicate BaselineOk(reg: Registry, w: World)
    requires w.db.meta.cutover >= 0 && w.db.meta.baselineYear >= 0
  {
    forall e :: e in reg.EdgesAt(Total) ==>
      Get(w.db.meta.baseline, e.target)
        == Sum(w.hist, e.source, Origin(w.db.meta), YearLast(w.db.meta.baselineYear))
  }

  /** The true value of a non-net key in a closed period: its accepted daily rows plus the
      cutover offset it still carries. */
  function Part(reg: Registry, hist: Rows, m: Meta, l: Level, key: string, k: nat): int {
    Sum(hist, SourceOf(reg, l, key), PeriodFirst(l, k), PeriodLast(l, k)) + m.Offset(l, key, k)
  }

  /** A row of a settled period is exact, and there unless retention removed it. */
  ghost predicate Exact(w: World, c: Cell, truth: int) {
    && (c in w.db.rows ==> w.db.rows[c] == truth)
    && (c in w.db.rows || (w.cut >= 0 && Purged(c, w.cut)))
  }

  ghost predicate EdgeSettled(reg: Registry, w: World, e: Edge, l: Level, k: nat) {
    Exact(w, Cell(l, e.target, k), Part(reg, w.hist, w.db.meta, l, e.target, k))
  }

  ghost predicate NetSettled(reg: Registry, w: World, n: NetPair, l: Level, k: nat) {
    Exact(w, Cell(l, n.target, k),
          Part(reg, w.hist, w.db.meta, l, n.exported, k) - Part(reg, w.hist, w.db.meta, l, n.imported, k))
  }

  ghost predicate PeriodSettled(reg: Registry, w: World, l: Level, k: nat) {
    && (forall e :: e in reg.EdgesAt(l) ==> EdgeSettled(reg, w, e, l, k))
    && (forall n :: n in reg.NetsAt(l) ==> NetSettled(reg, w, n, l, k))
  }

  ghost predicate SettledOk(reg: Registry, w: World) {
    forall l, k :: (l, k) in w.settled ==>
      Frozenable(l) && 0 <= k <= w.db.meta.Frozen(l) && PeriodSettled(reg, w, l, k)
  }

  /** The last month and the last year the cutover itself froze. */
  function StartMark(m: Meta, l: Level): int
    requires m.cutover >= CUTOVER_MARGIN
  {
    if l == Monthly then MonthOf(m.cutover - CUTOVER_MARGIN) - 1 else YearOf(m.cutover - CUTOVER_MARGIN) - 1
  }

  /** Every month and year frozen since the cutover was frozen by a run. */
  ghost predicate Complete(w: World)
    requires w.db.meta.cutover >= CUTOVER_MARGIN
  {
    forall l, k :: (l == Monthly || l == Yearly) && StartMark(w.db.meta, l) < k <= w.db.meta.Frozen(l)
      ==> (l, k) in w.settled
  }

  /** Total rows never exceed what was accepted through the last run's day. */
  ghost predicate TotalsWithin(reg: Registry, w: World, hist: Rows)
    requires w.db.meta.cutover >= 0
  {
    w.lastDay != NONE ==>
      forall e :: e in reg.EdgesAt(Total) ==>
        && Cell(Total, e.target, NONE) in w.db.rows
        && w.db.rows[Cell(Total, e.target, NONE)] <= Sum(hist, e.source, Origin(w.db.meta), w.lastDay)
  }

  /** What a run knows: its captured marks still stand, and a sum it read is exact when all
      its days were closed, and between then and now otherwise. */
  ghost predicate ReadOk(reg: Registry, w: World, r: Run, q: Query)
    requires q in r.got
  {
    && PollerKey(reg, q.source)
    && Sum(r.seen, q.source, q.first, q.last) <= r.got[q] <= Sum(w.hist, q.source, q.first, q.last)
    && (q.last <= r.st.LowestClosed(reg.dailyKeys) ==>
          r.got[q] == Sum(w.hist, q.source, q.first, q.last))
  }

  ghost predicate RunOk(reg: Registry, w: World, r: Run)
    requires w.db.meta.cutover >= 0
  {
    && RunReady(reg, r)
    && r.p.Valid() && r.p.day >= w.lastDay && r.p.day >= w.db.meta.cutover
    && r.st.LowestClosed(reg.dailyKeys) <= r.p.day
    && r.st.(closedDaily := map[], purgedBefore := NONE)
         == w.db.meta.(closedDaily := map[], purgedBefore := NONE)
    && MarksOk(reg, r.st)
    && ClosedBeyond(reg, w.db.meta, r.st.LowestClosed(reg.dailyKeys))
    && (forall k, d :: PollerKey(reg, k) ==> 0 <= At(r.seen, k, d) <= At(w.hist, k, d))
    && (forall q :: q in r.got ==> ReadOk(reg, w, r, q))
    && TotalsWithin(reg, w, r.seen)
  }

  ghost predicate Inv(reg: Registry, w: World) {
    && MarksOk(reg, w.db.meta)
    && PurgeOk(w)
    && HistOk(reg, w)
    && BaselineOk(reg, w)
    && SettledOk(reg, w)
    && Complete(w)
    && TotalsWithin(reg, w, w.hist)
    && (w.run.Some? ==> RunOk(reg, w, w.run.value))
  }

  // ---- how a step keeps what is settled ----

  /** The row of a computed key is kept, or removed by retention. */
  ghost predicate CellKept(w: World, w': World, c: Cell) {
    && (c in w'.db.rows ==> c in w.db.rows && w'.db.rows[c] == w.db.rows[c])
    && (c in w.db.rows ==> c in w'.db.rows || (w'.cut >= 0 && Purged(c, w'.cut)))
    && (w.cut >= 0 && Purged(c, w.cut) ==> w'.cut >= 0 && Purged(c, w'.cut))
  }

  ghost predicate PartSame(reg: Registry, w: World, w': World, l: Level, key: string, k: nat) {
    Part(reg, w'.hist, w'.db.meta, l, key, k) == Part(reg, w.hist, w.db.meta, l, key, k)
  }

  lemma PeriodTransfer(reg: Registry, w: World, w': World, l: Level, k: nat)
    requires reg.Valid() && PeriodSettled(reg, w, l, k)
    requires forall key :: InDomain(reg, l, key) ==> CellKept(w, w', Cell(l, key, k))
    requires forall key :: reg.IsStore(key, StoreForLevel(l), false) ==> PartSame(reg, w, w', l, key, k)
    ensures PeriodSettled(reg, w', l, k)
  {
    forall e | e in reg.EdgesAt(l)
      ensures EdgeSettled(reg, w', e, l, k)
    {
      assert reg.EdgeOk(e) && InDomain(reg, l, e.target);
      assert EdgeSettled(reg, w, e, l, k) && PartSame(reg, w, w', l, e.target, k);
      ExactKept(w, w', Cell(l, e.target, k), Part(reg, w.hist, w.db.meta, l, e.target, k));
    }
    forall n | n in reg.NetsAt(l)
      ensures NetSettled(reg, w', n, l, k)
    {
      assert reg.NetOk(n) && InDomain(reg, l, n.target);
      assert NetSettled(reg, w, n, l, k);
      assert PartSame(reg, w, w', l, n.exported, k) && PartSame(reg, w, w', l, n.imported, k);
      ExactKept(w, w', Cell(l, n.target, k),
        Part(reg, w.hist, w.db.meta, l, n.exported, k) - Part(reg, w.hist, w.db.meta, l, n.imported, k));
    }
  }

  lemma ExactKept(w: World, w': World, c: Cell, truth: int)
    requires Exact(w, c, truth) && CellKept(w, w', c)
    ensures Exact(w', c, truth)
  {
  }

  /** Marks stay consistent while days close and retention moves on. */
  lemma MarksGrow(reg: Registry, m: Meta, m': Meta)
    requires MarksOk(reg, m)
    requires m' == m.(closedDaily := m'.closedDaily, purgedBefore := m'.purgedBefore)
    requires forall k :: m'.Closed(k) >= m.Closed(k)
    ensures MarksOk(reg, m')
  {
    ClosedMore(reg, m, m', m.Frozen(Daily));
    ClosedMore(reg, m, m', MonthLast(m.Frozen(Monthly)));
    ClosedMore(reg, m, m', YearLast(m.Frozen(Yearly)));
    ClosedMore(reg, m, m', YearLast(m.baselineYear));
  }

  lemma ClosedMore(reg: Registry, m: Meta, m': Meta, d: int)
    requires forall k :: m'.Closed(k) >= m.Closed(k)
    ensures ClosedBeyond(reg, m, d) ==> ClosedBeyond(reg, m', d)
  {
    if ClosedBeyond(reg, m, d) {
      forall k | k in reg.dailyKeys
        ensures d <= m'.Closed(k)
      {
        assert d <= m.Closed(k) <= m'.Closed(k);
      }
    }
  }
}
