/** What each store transaction and each aggregator run does to the stored rows and
    watermarks, as functions on values (internal/storage, internal/aggregator/compute.go).
    The classes in Storage.dfy and Compute.dfy are proved against these functions; the
    properties of whole histories are proved about them in World.dfy. */
module Ledger {
  import opened Calendar
  import opened Registers
  import opened Energy
  import opened Plan

  /** The meta table: watermarks, baseline, cutover offsets. NONE stands for "". */
  datatype Meta = Meta(
    cutover: int, closedDaily: map<string, int>, frozen: map<Level, int>, baselineYear: int,
    baseline: Values, offsets: map<Cell, int>, purgedBefore: int)
  {
    function Closed(key: string): int {
      if key in closedDaily then closedDaily[key] else NONE
    }

    /** The last frozen period of a level; Daily is the net daily watermark. */
    function Frozen(l: Level): int {
      if l in frozen then frozen[l] else NONE
    }

    function Offset(l: Level, key: string, period: int): int {
      if Cell(l, key, period) in offsets then offsets[Cell(l, key, period)] else 0
    }

    /** The lowest closed day over the keys: NONE as soon as one has closed nothing. */
    function LowestClosed(keys: seq<string>): (d: int)
      ensures forall k :: k in keys ==> d <= Closed(k)
      ensures keys != [] ==> exists k :: k in keys && d == Closed(k)
    {
      if keys == [] then NONE
      else if |keys| == 1 then Closed(keys[0])
      else
        var rest := LowestClosed(keys[1..]);
        assert keys[0] in keys && forall k :: k in keys[1..] ==> k in keys;
        Min(rest, Closed(keys[0]))
    }

    function Marks(reg: Registry): Watermarks {
      Watermarks(Frozen(Monthly), Frozen(Yearly), Frozen(Daily), LowestClosed(reg.dailyKeys))
    }
  }

  const EMPTY_META := Meta(NONE, map[], map[], NONE, map[], map[], NONE)

  datatype DB = DB(rows: Rows, meta: Meta)

  function Max(a: int, b: int): int {
    if b <= a then a else b
  }

  // ---- the poller's transaction ----

  datatype DailyRow = DailyRow(key: string, day: int, value: nat)

  datatype DayClose = DayClose(key: string, day: int)

  predicate PollerKey(reg: Registry, key: string) {
    key in reg.byKey && reg.byKey[key].PollerOwned()
  }

  predicate RowAccepted(reg: Registry, m: Meta, r: DailyRow) {
    PollerKey(reg, r.key) && r.day > m.Closed(r.key)
  }

  /** A max-write: a stored larger value stays. */
  function MaxWrite(rows: Rows, r: DailyRow): Rows {
    var c := Cell(Daily, r.key, r.day);
    if c in rows && r.value <= rows[c] then rows else rows[c := r.value]
  }

  function WriteDailies(reg: Registry, m: Meta, rows: Rows, rs: seq<DailyRow>): Rows {
    if rs == [] then rows
    else
      var n := |rs| - 1;
      var before := WriteDailies(reg, m, rows, rs[..n]);
      if RowAccepted(reg, m, rs[n]) then MaxWrite(before, rs[n]) else before
  }

  function CloseDays(reg: Registry, m: Meta, cs: seq<DayClose>): Meta {
    if cs == [] then m
    else
      var n := |cs| - 1;
      var before := CloseDays(reg, m, cs[..n]);
      if PollerKey(reg, cs[n].key)
      then before.(closedDaily :=
                     before.closedDaily[cs[n].key := Max(before.Closed(cs[n].key), cs[n].day)])
      else before
  }

  function ApplyPoll(reg: Registry, db: DB, rs: seq<DailyRow>, cs: seq<DayClose>): DB {
    DB(WriteDailies(reg, db.meta, db.rows, rs), CloseDays(reg, db.meta, cs))
  }

  // ---- retention ----

  predicate Purged(c: Cell, cutoff: nat) {
    match c.level
    case Daily => c.period < cutoff
    case Monthly => c.period < MonthOf(cutoff)
    case Yearly => c.period < YearOf(cutoff)
    case Total => false
  }

  function PurgedRows(rows: Rows, cutoff: nat): Rows {
    map c | c in rows && !Purged(c, cutoff) :: rows[c]
  }

  /** The earliest day a computed value may still be recomputed from; NONE while some
      watermark is unset. */
  function FirstOpenDay(m: Meta): int {
    if m.Frozen(Daily) < 0 || m.Frozen(Monthly) < 0 || m.Frozen(Yearly) < 0 || m.baselineYear < 0
    then NONE
    else Min(Min(m.Frozen(Daily) + 1, MonthFirst(m.Frozen(Monthly) + 1)),
             Min(YearFirst(m.Frozen(Yearly) + 1), YearFirst(m.baselineYear + 1)))
  }

  /** Whether a cleanup that wants everything before `wanted` gone deletes anything. */
  predicate CleanupDue(m: Meta, wanted: nat) {
    FirstOpenDay(m) != NONE && Min(wanted, FirstOpenDay(m)) > m.purgedBefore
  }

  function Cutoff(m: Meta, wanted: nat): nat
    requires CleanupDue(m, wanted)
  {
    Min(wanted, FirstOpenDay(m))
  }

  predicate LosesDaily(rows: Rows, cutoff: nat) {
    exists c :: c in rows && c.level == Daily && c.period < cutoff
  }

  function ApplyCleanup(db: DB, wanted: nat): DB {
    if !CleanupDue(db.meta, wanted) then db
    else
      var cutoff := Cutoff(db.meta, wanted);
      DB(PurgedRows(db.rows, cutoff),
         if LosesDaily(db.rows, cutoff) then db.meta.(purgedBefore := cutoff) else db.meta)
  }

  // ---- the aggregator's transaction ----

  /** The computed values of one period. */
  datatype Batch = Batch(level: Level, period: int, vals: Values)

  datatype Freeze = Freeze(level: Level, period: int)

  datatype BaselineFold = BaselineFold(year: int, add: Values)

  datatype Computed = Computed(batches: seq<Batch>, freezes: seq<Freeze>, folds: seq<BaselineFold>)

  /** The aggregator may write key at this level. */
  predicate InDomain(reg: Registry, l: Level, key: string) {
    && key in reg.byKey && reg.byKey[key].store == StoreForLevel(l)
    && reg.byKey[key].Computed() && (l == Daily ==> reg.byKey[key].net)
  }

  predicate ComputedAccepted(reg: Registry, m: Meta, l: Level, key: string, period: int) {
    InDomain(reg, l, key) && (l == Total || period > m.Frozen(l))
  }

  function ApplyBatch(reg: Registry, m: Meta, rows: Rows, b: Batch): Rows {
    rows + AcceptedValues(reg, m, b)
  }

  function AcceptedValues(reg: Registry, m: Meta, b: Batch): Rows {
    map k | k in b.vals && ComputedAccepted(reg, m, b.level, k, b.period) :: Cell(b.level, k, b.period) := b.vals[k]
  }

  lemma RowsOneMore(rows: Rows, cells: Rows, c: Cell, v: int)
    ensures rows + cells[c := v] == (rows + cells)[c := v]
  {
  }

  function ApplyBatches(reg: Registry, m: Meta, rows: Rows, bs: seq<Batch>): Rows {
    if bs == [] then rows
    else
      var n := |bs| - 1;
      ApplyBatch(reg, m, ApplyBatches(reg, m, rows, bs[..n]), bs[n])
  }

  function ApplyFreezes(m: Meta, fs: seq<Freeze>): Meta {
    if fs == [] then m
    else
      var n := |fs| - 1;
      var before := ApplyFreezes(m, fs[..n]);
      before.(frozen := before.frozen[fs[n].level := Max(before.Frozen(fs[n].level), fs[n].period)])
  }

  /** A year at or before the baseline year is already counted. */
  function ApplyFold(m: Meta, f: BaselineFold): Meta {
    if f.year <= m.baselineYear then m
    else m.(baseline := Folded(m.baseline, f.add), baselineYear := f.year)
  }

  function ApplyFolds(m: Meta, fs: seq<BaselineFold>): Meta {
    if fs == [] then m
    else
      var n := |fs| - 1;
      ApplyFold(ApplyFolds(m, fs[..n]), fs[n])
  }

  function ApplyComputed(reg: Registry, db: DB, w: Computed): DB {
    DB(ApplyBatches(reg, db.meta, db.rows, w.batches),
       ApplyFolds(ApplyFreezes(db.meta, w.freezes), w.folds))
  }

  // ---- one aggregator run ----

  /** One daily sum a run asks the store for. */
  datatype Query = Query(level: Level, period: int, source: string, first: int, last: int)

  type Reads = map<Query, int>

  function Read(got: Reads, q: Query): int {
    if q in got then got[q] else 0
  }

  function JobQuery(j: Job, source: string): Query {
    Query(j.level, j.key, source, j.first, j.last)
  }

  function Sources(edges: seq<Edge>): set<string> {
    set e | e in edges :: e.source
  }

  function NetSources(nets: seq<NetPair>): set<string> {
    (set n | n in nets :: n.exported) + (set n | n in nets :: n.imported)
  }

  function SumsOf(sources: set<string>, j: Job, got: Reads): Values {
    map s | s in sources :: Read(got, JobQuery(j, s))
  }

  function PeriodOffsets(l: Level, period: int, vals: Values, offsets: map<Cell, int>): Values {
    map k | k in vals && Cell(l, k, period) in offsets :: offsets[Cell(l, k, period)]
  }

  function DayValues(reg: Registry, j: Job, got: Reads): Values {
    var nets := reg.NetsAt(Daily);
    ApplyNet(nets, SumsOf(NetSources(nets), j, got))
  }

  /** A month's or year's edge sums plus its cutover offsets, and the net values of those. */
  function LevelValues(reg: Registry, j: Job, offsets: map<Cell, int>, got: Reads): Values {
    var edges := reg.EdgesAt(j.level);
    var plain := ApplyEdges(edges, SumsOf(Sources(edges), j, got));
    var vals := WithOffsets(plain, PeriodOffsets(j.level, j.key, plain, offsets));
    vals + ApplyNet(reg.NetsAt(j.level), vals)
  }

  function JobValues(reg: Registry, j: Job, offsets: map<Cell, int>, got: Reads): Values {
    if j.level == Daily then DayValues(reg, j, got) else LevelValues(reg, j, offsets, got)
  }

  function JobBatches(reg: Registry, jobs: seq<Job>, offsets: map<Cell, int>, got: Reads): (bs: seq<Batch>)
    ensures |bs| == |jobs|
    ensures forall i :: 0 <= i < |jobs| ==>
      bs[i] == Batch(jobs[i].level, jobs[i].key, JobValues(reg, jobs[i], offsets, got))
  {
    seq(|jobs|, i requires 0 <= i < |jobs| =>
      Batch(jobs[i].level, jobs[i].key, JobValues(reg, jobs[i], offsets, got)))
  }

  function JobFreezes(jobs: seq<Job>): seq<Freeze> {
    if jobs == [] then []
    else
      var n := |jobs| - 1;
      JobFreezes(jobs[..n]) + if jobs[n].freeze then [Freeze(jobs[n].level, jobs[n].key)] else []
  }

  /** What a closed year adds to the baseline: its raw sums, without offsets. */
  function YearAdd(reg: Registry, j: Job, got: Reads): Values {
    ApplyEdges(reg.EdgesAt(Total), SumsOf(Sources(reg.EdgesAt(Yearly)), j, got))
  }

  /** The last folded year after the year jobs. */
  function FoldedYear(jobs: seq<Job>, baseYear: int): int {
    if jobs == [] then baseYear
    else
      var n := |jobs| - 1;
      var y := FoldedYear(jobs[..n], baseYear);
      if jobs[n].freeze && jobs[n].key > y then jobs[n].key else y
  }

  function YearFolds(reg: Registry, jobs: seq<Job>, baseYear: int, got: Reads): seq<BaselineFold> {
    if jobs == [] then []
    else
      var n := |jobs| - 1;
      var j := jobs[n];
      YearFolds(reg, jobs[..n], baseYear, got) +
      if j.freeze && j.key > FoldedYear(jobs[..n], baseYear)
      then [BaselineFold(j.key, YearAdd(reg, j, got))] else []
  }

  function FoldedBase(base: Values, folds: seq<BaselineFold>): Values {
    if folds == [] then base
    else
      var n := |folds| - 1;
      Folded(FoldedBase(base, folds[..n]), folds[n].add)
  }

  /** The first day the totals add to the baseline. */
  function TotalsFrom(baseYear: int): int
    requires baseYear >= NONE
  {
    if baseYear == NONE then NONE else YearFirst(baseYear + 1)
  }

  function TotalJob(p: Period, baseYear: int): Job
    requires baseYear >= NONE
  {
    Job(Total, NONE, TotalsFrom(baseYear), p.day, false)
  }

  function TotalValues(reg: Registry, p: Period, base: Values, baseYear: int, got: Reads): Values
    requires baseYear >= NONE
  {
    var edges := reg.EdgesAt(Total);
    var vals := Totals(edges, base, SumsOf(Sources(edges), TotalJob(p, baseYear), got));
    vals + ApplyNet(reg.NetsAt(Total), vals)
  }

  lemma {:induction false} FoldedYearBounds(jobs: seq<Job>, baseYear: int)
    ensures FoldedYear(jobs, baseYear) >= baseYear
  {
    if jobs != [] {
      FoldedYearBounds(jobs[..|jobs| - 1], baseYear);
    }
  }

  /** Everything a run writes, given the state it captured and what it read. */
  function Gather(reg: Registry, st: Meta, p: Period, plan: Plan, got: Reads): Computed
    requires st.baselineYear >= NONE
  {
    var folds := YearFolds(reg, plan.years, st.baselineYear, got);
    FoldedYearBounds(plan.years, st.baselineYear);
    var totals := TotalValues(reg, p, FoldedBase(st.baseline, folds),
                              FoldedYear(plan.years, st.baselineYear), got);
    Computed(
      JobBatches(reg, plan.days, st.offsets, got) + JobBatches(reg, plan.months, st.offsets, got)
        + JobBatches(reg, plan.years, st.offsets, got) + [Batch(Total, NONE, totals)],
      JobFreezes(plan.days) + JobFreezes(plan.months) + JobFreezes(plan.years),
      folds)
  }

  ghost predicate AskedBy(jobs: seq<Job>, sources: set<string>, q: Query) {
    q.source in sources && exists j :: j in jobs && q == JobQuery(j, q.source)
  }

  function JobQueries(jobs: seq<Job>, sources: set<string>): (qs: set<Query>)
    ensures forall q :: q in qs <==> AskedBy(jobs, sources, q)
  {
    var qs := set j, s | j in jobs && s in sources :: JobQuery(j, s);
    assert forall q :: AskedBy(jobs, sources, q) ==> q in qs;
    qs
  }

  ghost predicate AskedByTotals(reg: Registry, st: Meta, p: Period, plan: Plan, q: Query)
    requires st.baselineYear >= NONE
  {
    FoldedYearBounds(plan.years, st.baselineYear);
    && q.source in Sources(reg.EdgesAt(Total))
    && q == JobQuery(TotalJob(p, FoldedYear(plan.years, st.baselineYear)), q.source)
  }

  /** The sums a run asks for. */
  ghost predicate IsQuery(reg: Registry, st: Meta, p: Period, plan: Plan, q: Query)
    requires st.baselineYear >= NONE
  {
    || AskedBy(plan.days, NetSources(reg.NetsAt(Daily)), q)
    || AskedBy(plan.months, Sources(reg.EdgesAt(Monthly)), q)
    || AskedBy(plan.years, Sources(reg.EdgesAt(Yearly)), q)
    || AskedByTotals(reg, st, p, plan, q)
  }

  function AllQueriesOf(reg: Registry, p: Period, st: Meta, plan: Plan): set<Query>
    requires st.baselineYear >= NONE
  {
    FoldedYearBounds(plan.years, st.baselineYear);
    JobQueries(plan.days, NetSources(reg.NetsAt(Daily)))
      + JobQueries(plan.months, Sources(reg.EdgesAt(Monthly)))
      + JobQueries(plan.years, Sources(reg.EdgesAt(Yearly)))
      + JobQueries([TotalJob(p, FoldedYear(plan.years, st.baselineYear))], Sources(reg.EdgesAt(Total)))
  }

  lemma AllQueries(reg: Registry, p: Period, st: Meta, plan: Plan)
    requires st.baselineYear >= NONE
    ensures forall q :: q in AllQueriesOf(reg, p, st, plan) <==> IsQuery(reg, st, p, plan, q)
  {
    FoldedYearBounds(plan.years, st.baselineYear);
    var total := TotalJob(p, FoldedYear(plan.years, st.baselineYear));
    assert total in [total];
  }

  // ---- the cutover ----

  /** A first start inside the rollover window may still finish the previous day. */
  const CUTOVER_MARGIN := 2

  function CutoverFrozen(m: Meta, p: Period): map<Level, int>
    requires p.day >= CUTOVER_MARGIN
  {
    var closedDay := p.day - CUTOVER_MARGIN;
    m.frozen[Monthly := Max(m.Frozen(Monthly), MonthOf(closedDay) - 1)]
      [Yearly := Max(m.Frozen(Yearly), YearOf(closedDay) - 1)]
      [Daily := Max(m.Frozen(Daily), closedDay)]
  }

  function Current(p: Period, l: Level): int {
    match l
    case Daily => p.day
    case Monthly => p.month
    case Yearly => p.year
    case Total => NONE
  }

  /** The source of the edge that computes key at level l; key itself when there is none. */
  function SourceOf(reg: Registry, l: Level, key: string): string {
    SourceIn(reg.EdgesAt(l), key)
  }

  function SourceIn(edges: seq<Edge>, key: string): string {
    if edges == [] then key
    else if edges[0].target == key then edges[0].source
    else SourceIn(edges[1..], key)
  }

  /** How far a stored open month or year is ahead of its daily rows up to today; 0 when
      the row is not one whose value the cutover keeps. */
  function CutoverOffset(reg: Registry, rows: Rows, frozen: map<Level, int>, p: Period, c: Cell): int
    requires c in rows
  {
    if && (c.level == Monthly || c.level == Yearly) && c.level in frozen
       && 0 <= c.period && frozen[c.level] < c.period <= Current(p, c.level)
       && (exists e :: e in reg.EdgesAt(c.level) && e.target == c.key)
    then rows[c] - Sum(rows, SourceOf(reg, c.level, c.key), PeriodFirst(c.level, c.period),
                       Min(PeriodLast(c.level, c.period), p.day))
    else 0
  }

  function CutoverMeta(reg: Registry, db: DB, p: Period): Meta
    requires p.day >= CUTOVER_MARGIN
  {
    var m := db.meta;
    var frozen := CutoverFrozen(m, p);
    Meta(
      p.day,
      map k | k in m.closedDaily.Keys + (set d | d in reg.dailyKeys) ::
        if k in reg.dailyKeys then Max(m.Closed(k), p.day - CUTOVER_MARGIN) else m.closedDaily[k],
      frozen,
      if m.baselineYear == NONE then p.year - 1 else m.baselineYear,
      m.baseline,
      m.offsets + map c | c in db.rows && CutoverOffset(reg, db.rows, frozen, p, c) > 0
                    :: CutoverOffset(reg, db.rows, frozen, p, c),
      m.purgedBefore)
  }

  function ApplyCutover(reg: Registry, db: DB, p: Period): DB
    requires p.day >= CUTOVER_MARGIN
  {
    if db.meta.cutover != NONE then db else db.(meta := CutoverMeta(reg, db, p))
  }

  // ---- the offline backfill (internal/maintenance/backfill.go) ----

  /** Some daily row lies on or before `first`: the history reaches back that far. */
  predicate HistoryReaches(rows: Rows, first: int) {
    exists c :: c in rows && c.level == Daily && c.period <= first
  }

  function StoredSums(rows: Rows, sources: set<string>, first: int, last: int): Values {
    map s | s in sources :: Sum(rows, s, first, last)
  }

  /** A recomputed month or year: pure daily sums and their net values. */
  function BackfillValues(reg: Registry, rows: Rows, l: Level, k: nat, today: int): Values {
    var edges := reg.EdgesAt(l);
    var vals := ApplyEdges(edges,
      StoredSums(rows, Sources(edges), PeriodFirst(l, k), Min(PeriodLast(l, k), today)));
    vals + ApplyNet(reg.NetsAt(l), vals)
  }

  /** Written past the freeze marks; a cutover offset of a written row is dropped. */
  function PutPeriods(db: DB, l: Level, k: int, vals: Values): DB {
    DB(db.rows + CellsOf(l, k, vals), db.meta.(offsets := Cleared(db.meta.offsets, l, k, vals)))
  }

  function CellsOf(l: Level, k: int, vals: Values): map<Cell, int> {
    map v | v in vals :: Cell(l, v, k) := vals[v]
  }

  function Cleared(offsets: map<Cell, int>, l: Level, k: int, vals: Values): map<Cell, int> {
    map c | c in offsets && !(c.level == l && c.period == k && c.key in vals) :: offsets[c]
  }

  function BackfillPeriod(reg: Registry, db: DB, l: Level, k: nat, today: int): DB {
    if HistoryReaches(db.rows, PeriodFirst(l, k))
    then PutPeriods(db, l, k, BackfillValues(reg, db.rows, l, k, today))
    else db
  }

  /** The months first..last, oldest first. */
  function BackfillMonths(reg: Registry, db: DB, first: nat, last: int, today: int): DB
    decreases last - first
  {
    if last < first then db
    else BackfillPeriod(reg, BackfillMonths(reg, db, first, last - 1, today), Monthly, last, today)
  }

  function BackfillYear(reg: Registry, db: DB, y: nat, now: Period): DB {
    BackfillPeriod(reg, BackfillMonths(reg, db, 12 * y, Min(12 * y + 11, now.month), now.day),
                   Yearly, y, now.day)
  }

  function BackfillYears(reg: Registry, db: DB, first: nat, last: int, now: Period): DB
    decreases last - first
  {
    if last < first then db
    else BackfillYear(reg, BackfillYears(reg, db, first, last - 1, now), last, now)
  }

  /** A year has been folded since the cutover. */
  predicate BaselineRefreshable(m: Meta) {
    m.baselineYear >= 0 && m.cutover >= 0 && m.baselineYear >= YearOf(m.cutover)
  }

  function RefreshedBaseline(reg: Registry, rows: Rows, m: Meta): Values
    requires BaselineRefreshable(m)
  {
    var edges := reg.EdgesAt(Total);
    ApplyEdges(edges, StoredSums(rows, Sources(edges), YearFirst(YearOf(m.cutover)), YearLast(m.baselineYear)))
  }

  /** The job would sum days retention has deleted. */
  predicate BackfillRefused(m: Meta, now: Period, years: nat)
    requires years <= now.year
  {
    && m.purgedBefore != NONE
    && (|| YearFirst(now.year - years) < m.purgedBefore
        || (years > 0 && BaselineRefreshable(m) && YearFirst(YearOf(m.cutover)) < m.purgedBefore))
  }

  /** The current year and `years` closed years, then the baseline. */
  function ApplyBackfill(reg: Registry, db: DB, now: Period, years: nat): DB
    requires years <= now.year
  {
    if BackfillRefused(db.meta, now, years) then db
    else
      var d := BackfillYears(reg, db, now.year - years, now.year, now);
      if years > 0 && BaselineRefreshable(d.meta)
      then d.(meta := d.meta.(baseline := d.meta.baseline + RefreshedBaseline(reg, d.rows, d.meta)))
      else d
  }
}
