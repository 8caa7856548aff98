/** The cutover establishes the ledger invariant; an offline backfill keeps it, and rewrites
    what the live aggregator froze with the same values. */
module BackfillStep {
  import opened Calendar
  import opened Registers
  import opened Energy
  import opened Plan
  import opened Ledger
  import opened World
  import opened PollStep
  import opened CleanupStep
  import opened RunStep
  import opened FinishValues
  import opened FinishRows

  // ---- the cutover ----

  lemma CutoverMarks(p: Period)
    requires p.Valid()
    ensures var d := p.day - CUTOVER_MARGIN;
      && 1 <= MonthOf(d) && MonthLast(MonthOf(d) - 1) < d
      && 1 <= YearOf(d) <= p.year && YearLast(YearOf(d) - 1) < d
  {
    var d := p.day - CUTOVER_MARGIN;
    AfterYearOne(d);
    YearReached(d, YearOf(d));
    MonthReached(p.day, MonthOf(d));
  }

  lemma YearReached(d: nat, y: nat)
    requires y == YearOf(d)
    ensures y >= 1 ==> YearLast(y - 1) < d
  {
    MonthReached(d, 12 * y);
  }

  lemma CutoverFields(reg: Registry, db: DB, p: Period)
    requires Fresh(reg, db, p)
    ensures var m, d := Started(reg, db, p).db.meta, p.day - CUTOVER_MARGIN;
      && m.cutover == p.day && m.purgedBefore == NONE && m.baseline == map[]
      && m.Frozen(Daily) == d && m.Frozen(Monthly) == MonthOf(d) - 1 && m.Frozen(Yearly) == YearOf(d) - 1
      && m.baselineYear == p.year - 1
      && (forall k :: k in reg.dailyKeys ==> m.Closed(k) == d)
      && forall c :: c in m.offsets ==> c.level == Monthly || c.level == Yearly
  {
    CutoverMarks(p);
  }

  lemma CutoverMakesMarks(reg: Registry, db: DB, p: Period)
    requires Fresh(reg, db, p)
    ensures MarksOk(reg, Started(reg, db, p).db.meta)
  {
    CutoverFields(reg, db, p);
    CutoverMarks(p);
  }

  lemma CutoverMakesInv(reg: Registry, db: DB, p: Period)
    requires reg.Valid() && Fresh(reg, db, p)
    ensures Inv(reg, Started(reg, db, p))
  {
    var w := Started(reg, db, p);
    CutoverMakesMarks(reg, db, p);
    StartedParts(reg, db, p, w);
    StartedMarks(reg, db, p, w);
    StartsPurge(w);
    StartsComplete(w);
    StartsWhole(reg, w);
  }

  lemma StartedMarks(reg: Registry, db: DB, p: Period, w: World)
    requires Fresh(reg, db, p) && w == Started(reg, db, p)
    ensures var m := w.db.meta;
      && m.cutover >= CUTOVER_MARGIN && m.purgedBefore == NONE && m.baselineYear == YearOf(m.cutover) - 1
      && m.Frozen(Monthly) == StartMark(m, Monthly) && m.Frozen(Yearly) == StartMark(m, Yearly)
  {
    CutoverFields(reg, db, p);
  }

  ghost predicate Untouched(reg: Registry, w: World) {
    && w.run.None? && w.cut == NONE && w.settled == {} && w.hist == w.db.rows && w.lastDay == NONE
    && w.db.meta.baseline == map[] && forall k, d :: PollerKey(reg, k) ==> At(w.db.rows, k, d) >= 0
  }

  lemma StartedParts(reg: Registry, db: DB, p: Period, w: World)
    requires Fresh(reg, db, p) && w == Started(reg, db, p)
    ensures Untouched(reg, w)
  {
  }

  lemma StartsPurge(w: World)
    requires w.db.meta.Frozen(Daily) >= 0 && w.db.meta.Frozen(Monthly) >= 0 && w.db.meta.Frozen(Yearly) >= 0
    requires w.db.meta.baselineYear >= 0 && w.cut == NONE && w.db.meta.purgedBefore == NONE
    ensures PurgeOk(w)
  {
    FirstOpenDayBelow(w.db.meta);
  }

  lemma StartsComplete(w: World)
    requires w.db.meta.cutover >= CUTOVER_MARGIN
    requires w.db.meta.Frozen(Monthly) == StartMark(w.db.meta, Monthly)
    requires w.db.meta.Frozen(Yearly) == StartMark(w.db.meta, Yearly)
    ensures Complete(w)
  {
  }

  lemma StartsWhole(reg: Registry, w: World)
    requires Untouched(reg, w) && w.db.meta.cutover >= 0 && w.db.meta.baselineYear == YearOf(w.db.meta.cutover) - 1
    requires w.db.meta.baselineYear >= 0
    ensures HistOk(reg, w) && BaselineOk(reg, w) && SettledOk(reg, w) && TotalsWithin(reg, w, w.hist)
  {
  }

  // ---- one backfilled period ----

  /** The daily rows still cover the period, and today lies past what is closed. */
  ghost predicate Backfillable(reg: Registry, w: World, l: Level, k: nat, today: int) {
    && reg.Valid() && MarksOk(reg, w.db.meta) && HistOk(reg, w) && SettledOk(reg, w)
    && (l == Monthly || l == Yearly)
    && PeriodFirst(l, k) >= w.db.meta.purgedBefore
    && w.db.meta.LowestClosed(reg.dailyKeys) <= today
  }

  lemma StoredSumExact(reg: Registry, w: World, sources: set<string>, s: string, first: int, last: int)
    requires HistOk(reg, w) && PollerKey(reg, s) && s in sources && first >= w.db.meta.purgedBefore
    ensures Get(StoredSums(w.db.rows, sources, first, last), s) == Sum(w.hist, s, first, last)
  {
    OpenSumsAgree(reg, w, s, first, last);
  }

  /** The plain sum of an edge over a period the daily rows still cover. */
  lemma PlainBackfill(reg: Registry, w: World, l: Level, first: int, last: int, e: Edge)
    requires reg.Valid() && HistOk(reg, w) && e in reg.EdgesAt(l) && first >= w.db.meta.purgedBefore
    ensures var plain := ApplyEdges(reg.EdgesAt(l), StoredSums(w.db.rows, Sources(reg.EdgesAt(l)), first, last));
      e.target in plain && plain[e.target] == Sum(w.hist, e.source, first, last)
  {
    EdgesFunctional(reg, l);
    SourceIsPollerKey(reg, l, e);
    StoredSumExact(reg, w, Sources(reg.EdgesAt(l)), e.source, first, last);
    EdgesApplied(reg.EdgesAt(l), StoredSums(w.db.rows, Sources(reg.EdgesAt(l)), first, last));
  }

  /** The accepted rows of a key's source over a period up to today. */
  function BackfillPart(reg: Registry, w: World, l: Level, key: string, k: nat, today: int): int {
    Sum(w.hist, SourceOf(reg, l, key), PeriodFirst(l, k), Min(PeriodLast(l, k), today))
  }

  lemma BackfillEdgeValue(reg: Registry, w: World, l: Level, k: nat, today: int, e: Edge)
    requires reg.Valid() && HistOk(reg, w) && e in reg.EdgesAt(l)
    requires PeriodFirst(l, k) >= w.db.meta.purgedBefore
    ensures var vals := BackfillValues(reg, w.db.rows, l, k, today);
      e.target in vals && vals[e.target] == BackfillPart(reg, w, l, e.target, k, today)
  {
    var first, last := PeriodFirst(l, k), Min(PeriodLast(l, k), today);
    PlainBackfill(reg, w, l, first, last, e);
    SourceIsPollerKey(reg, l, e);
    NetTargetsApart(reg, l,
      ApplyEdges(reg.EdgesAt(l), StoredSums(w.db.rows, Sources(reg.EdgesAt(l)), first, last)), e.target);
  }

  lemma BackfillPartPlain(reg: Registry, w: World, l: Level, k: nat, today: int, key: string)
    requires reg.Valid() && HistOk(reg, w) && l != Daily && reg.IsStore(key, StoreForLevel(l), false)
    requires PeriodFirst(l, k) >= w.db.meta.purgedBefore
    ensures var plain := ApplyEdges(reg.EdgesAt(l),
        StoredSums(w.db.rows, Sources(reg.EdgesAt(l)), PeriodFirst(l, k), Min(PeriodLast(l, k), today)));
      key in plain && plain[key] == BackfillPart(reg, w, l, key, k, today)
  {
    NetPartSource(reg, l, key);
    var e :| e in reg.EdgesAt(l) && e.target == key;
    SourceIsPollerKey(reg, l, e);
    PlainBackfill(reg, w, l, PeriodFirst(l, k), Min(PeriodLast(l, k), today), e);
  }

  lemma BackfillNetValue(reg: Registry, w: World, l: Level, k: nat, today: int, n: NetPair)
    requires reg.Valid() && HistOk(reg, w) && l != Daily && n in reg.NetsAt(l)
    requires PeriodFirst(l, k) >= w.db.meta.purgedBefore
    ensures var vals := BackfillValues(reg, w.db.rows, l, k, today);
      && n.target in vals
      && vals[n.target] == BackfillPart(reg, w, l, n.exported, k, today) - BackfillPart(reg, w, l, n.imported, k, today)
  {
    assert reg.NetOk(n);
    BackfillPartPlain(reg, w, l, k, today, n.exported);
    BackfillPartPlain(reg, w, l, k, today, n.imported);
    NetAdded(reg, l, ApplyEdges(reg.EdgesAt(l),
      StoredSums(w.db.rows, Sources(reg.EdgesAt(l)), PeriodFirst(l, k), Min(PeriodLast(l, k), today))), n);
  }

  /** In a settled period today lies past the last day, so the backfilled part is whole. */
  lemma SettledPartWhole(reg: Registry, w: World, l: Level, k: nat, today: int, key: string)
    requires MarksOk(reg, w.db.meta) && Frozenable(l) && k <= w.db.meta.Frozen(l)
    requires reg.dailyKeys != [] && w.db.meta.LowestClosed(reg.dailyKeys) <= today
    ensures BackfillPart(reg, w, l, key, k, today)
         == Sum(w.hist, SourceOf(reg, l, key), PeriodFirst(l, k), PeriodLast(l, k))
  {
    SettledIsClosed(reg, w.db.meta, l, k);
  }

  lemma SettledEdgeRow(reg: Registry, w: World, l: Level, k: nat, today: int, e: Edge)
    requires Backfillable(reg, w, l, k, today) && (l, k) in w.settled && e in reg.EdgesAt(l)
    ensures reg.dailyKeys != [] && k <= w.db.meta.Frozen(l)
    ensures var vals := BackfillValues(reg, w.db.rows, l, k, today);
      && e.target in vals
      && vals[e.target] == Sum(w.hist, SourceOf(reg, l, e.target), PeriodFirst(l, k), PeriodLast(l, k))
  {
    SourceIsPollerKey(reg, l, e);
    BackfillEdgeValue(reg, w, l, k, today, e);
    SettledPartWhole(reg, w, l, k, today, e.target);
  }

  lemma SettledNetRow(reg: Registry, w: World, l: Level, k: nat, today: int, n: NetPair)
    requires Backfillable(reg, w, l, k, today) && (l, k) in w.settled && n in reg.NetsAt(l)
    ensures k <= w.db.meta.Frozen(l)
    ensures var vals := BackfillValues(reg, w.db.rows, l, k, today);
      && n.target in vals
      && vals[n.target] == Sum(w.hist, SourceOf(reg, l, n.exported), PeriodFirst(l, k), PeriodLast(l, k))
                           - Sum(w.hist, SourceOf(reg, l, n.imported), PeriodFirst(l, k), PeriodLast(l, k))
  {
    assert reg.NetOk(n);
    NetPartSource(reg, l, n.exported);
    BackfillNetValue(reg, w, l, k, today, n);
    SettledPartWhole(reg, w, l, k, today, n.exported);
    SettledPartWhole(reg, w, l, k, today, n.imported);
  }

  predicate NoOffset(m: Meta, l: Level, k: int) {
    forall c :: c in m.offsets ==> !(c.level == l && c.period == k)
  }

  /** Backfilling a period the live aggregator froze without a cutover offset rewrites every
      stored row with the value it already has. */
  lemma BackfillAgrees(reg: Registry, w: World, l: Level, k: nat, today: int, key: string)
    requires Backfillable(reg, w, l, k, today) && (l, k) in w.settled && NoOffset(w.db.meta, l, k)
    requires key in BackfillValues(reg, w.db.rows, l, k, today) && Cell(l, key, k) in w.db.rows
    ensures BackfillValues(reg, w.db.rows, l, k, today)[key] == w.db.rows[Cell(l, key, k)]
  {
    BackfillKeysDefined(reg, w, l, k, today, key);
    assert PeriodSettled(reg, w, l, k);
    if n :| n in reg.NetsAt(l) && n.target == key {
      NetRowAgrees(reg, w, l, k, today, n);
    } else {
      var e :| e in reg.EdgesAt(l) && e.target == key;
      assert EdgeSettled(reg, w, e, l, k);
      SettledEdgeRow(reg, w, l, k, today, e);
    }
  }

  lemma NetRowAgrees(reg: Registry, w: World, l: Level, k: nat, today: int, n: NetPair)
    requires Backfillable(reg, w, l, k, today) && (l, k) in w.settled && NoOffset(w.db.meta, l, k)
    requires n in reg.NetsAt(l) && Cell(l, n.target, k) in w.db.rows
    ensures var vals := BackfillValues(reg, w.db.rows, l, k, today);
      n.target in vals && vals[n.target] == w.db.rows[Cell(l, n.target, k)]
  {
    assert PeriodSettled(reg, w, l, k);
    assert NetSettled(reg, w, n, l, k);
    SettledNetRow(reg, w, l, k, today, n);
  }

  lemma BackfillKeysDefined(reg: Registry, w: World, l: Level, k: nat, today: int, key: string)
    requires reg.Valid() && key in BackfillValues(reg, w.db.rows, l, k, today)
    ensures (exists n :: n in reg.NetsAt(l) && n.target == key) || (exists e :: e in reg.EdgesAt(l) && e.target == key)
  {
    var edges := reg.EdgesAt(l);
    var sums := StoredSums(w.db.rows, Sources(edges), PeriodFirst(l, k), Min(PeriodLast(l, k), today));
    ValueKeys(reg, l, sums, ApplyEdges(edges, sums), key);
  }

  // ---- the invariant across one backfilled period ----

  function Backfilled(reg: Registry, w: World, l: Level, k: nat, today: int): World {
    w.(db := BackfillPeriod(reg, w.db, l, k, today))
  }

  lemma BackfillMetaFrame(reg: Registry, w: World, l: Level, k: nat, today: int)
    ensures var m, m' := w.db.meta, Backfilled(reg, w, l, k, today).db.meta;
      && m' == m.(offsets := m'.offsets)
      && (forall c :: c in m'.offsets ==> c in m.offsets)
  {
  }

  lemma BackfillOffsetFrame(reg: Registry, w: World, l: Level, k: nat, today: int, l2: Level, key: string, k2: int)
    requires (l2, k2) != (l, k)
    ensures Backfilled(reg, w, l, k, today).db.meta.Offset(l2, key, k2) == w.db.meta.Offset(l2, key, k2)
  {
  }

  lemma BackfillRowFrame(reg: Registry, w: World, l: Level, k: nat, today: int, c: Cell)
    requires (c.level, c.period) != (l, k)
    ensures SameCell(Backfilled(reg, w, l, k, today).db.rows, w.db.rows, c)
  {
  }

  lemma BackfilledRow(reg: Registry, w: World, l: Level, k: nat, today: int, key: string)
    requires HistoryReaches(w.db.rows, PeriodFirst(l, k))
    requires key in BackfillValues(reg, w.db.rows, l, k, today)
    ensures var db' := Backfilled(reg, w, l, k, today).db;
      && Cell(l, key, k) in db'.rows
      && db'.rows[Cell(l, key, k)] == BackfillValues(reg, w.db.rows, l, k, today)[key]
      && db'.meta.Offset(l, key, k) == 0
  {
  }

  lemma OtherPeriodStays(reg: Registry, w: World, l: Level, k: nat, today: int, l2: Level, k2: nat)
    requires reg.Valid() && (l2, k2) != (l, k) && PeriodSettled(reg, w, l2, k2)
    ensures PeriodSettled(reg, Backfilled(reg, w, l, k, today), l2, k2)
  {
    var w' := Backfilled(reg, w, l, k, today);
    forall key | InDomain(reg, l2, key)
      ensures CellKept(w, w', Cell(l2, key, k2))
    {
      BackfillRowFrame(reg, w, l, k, today, Cell(l2, key, k2));
    }
    forall key | reg.IsStore(key, StoreForLevel(l2), false)
      ensures PartSame(reg, w, w', l2, key, k2)
    {
      BackfillOffsetFrame(reg, w, l, k, today, l2, key, k2);
    }
    PeriodTransfer(reg, w, w', l2, k2);
  }

  lemma BackfilledPeriodSettled(reg: Registry, w: World, l: Level, k: nat, today: int)
    requires Backfillable(reg, w, l, k, today) && (l, k) in w.settled
    requires HistoryReaches(w.db.rows, PeriodFirst(l, k))
    ensures PeriodSettled(reg, Backfilled(reg, w, l, k, today), l, k)
  {
    var w' := Backfilled(reg, w, l, k, today);
    forall e | e in reg.EdgesAt(l)
      ensures EdgeSettled(reg, w', e, l, k)
    {
      SettledEdgeRow(reg, w, l, k, today, e);
      BackfilledRow(reg, w, l, k, today, e.target);
    }
    forall n | n in reg.NetsAt(l)
      ensures NetSettled(reg, w', n, l, k)
    {
      BackfilledNet(reg, w, l, k, today, n);
    }
  }

  lemma BackfilledPart(reg: Registry, w: World, l: Level, k: nat, today: int, key: string)
    requires Backfillable(reg, w, l, k, today) && (l, k) in w.settled
    requires HistoryReaches(w.db.rows, PeriodFirst(l, k)) && reg.IsStore(key, StoreForLevel(l), false)
    ensures Part(reg, w.hist, Backfilled(reg, w, l, k, today).db.meta, l, key, k)
         == Sum(w.hist, SourceOf(reg, l, key), PeriodFirst(l, k), PeriodLast(l, k))
  {
    BackfillHasPart(reg, w, l, k, today, key);
    BackfilledRow(reg, w, l, k, today, key);
  }

  lemma BackfillHasPart(reg: Registry, w: World, l: Level, k: nat, today: int, key: string)
    requires Backfillable(reg, w, l, k, today) && reg.IsStore(key, StoreForLevel(l), false)
    ensures key in BackfillValues(reg, w.db.rows, l, k, today)
  {
    NetPartSource(reg, l, key);
    var e :| e in reg.EdgesAt(l) && e.target == key;
    BackfillEdgeValue(reg, w, l, k, today, e);
  }

  lemma BackfilledNet(reg: Registry, w: World, l: Level, k: nat, today: int, n: NetPair)
    requires Backfillable(reg, w, l, k, today) && (l, k) in w.settled && n in reg.NetsAt(l)
    requires HistoryReaches(w.db.rows, PeriodFirst(l, k))
    ensures NetSettled(reg, Backfilled(reg, w, l, k, today), n, l, k)
  {
    assert reg.NetOk(n);
    SettledNetRow(reg, w, l, k, today, n);
    BackfilledRow(reg, w, l, k, today, n.target);
    BackfilledPart(reg, w, l, k, today, n.exported);
    BackfilledPart(reg, w, l, k, today, n.imported);
  }

  lemma BackfillKeepsSettled(reg: Registry, w: World, l: Level, k: nat, today: int)
    requires Backfillable(reg, w, l, k, today)
    ensures SettledOk(reg, Backfilled(reg, w, l, k, today))
  {
    var w' := Backfilled(reg, w, l, k, today);
    BackfillMetaFrame(reg, w, l, k, today);
    forall l2, k2 | (l2, k2) in w.settled
      ensures Frozenable(l2) && 0 <= k2 <= w'.db.meta.Frozen(l2) && PeriodSettled(reg, w', l2, k2)
    {
      assert PeriodSettled(reg, w, l2, k2);
      if (l2, k2) != (l, k) {
        OtherPeriodStays(reg, w, l, k, today, l2, k2);
      } else if HistoryReaches(w.db.rows, PeriodFirst(l, k)) {
        BackfilledPeriodSettled(reg, w, l, k, today);
      }
    }
  }

  lemma OffsetsShrink(reg: Registry, m: Meta, m': Meta)
    requires MarksOk(reg, m) && m' == m.(offsets := m'.offsets)
    requires forall c :: c in m'.offsets ==> c in m.offsets
    ensures MarksOk(reg, m')
  {
    ClosedMore(reg, m, m', m.Frozen(Daily));
    ClosedMore(reg, m, m', MonthLast(m.Frozen(Monthly)));
    ClosedMore(reg, m, m', YearLast(m.Frozen(Yearly)));
    ClosedMore(reg, m, m', YearLast(m.baselineYear));
  }

  lemma BackfillKeepsTables(reg: Registry, w: World, l: Level, k: nat, today: int)
    requires Backfillable(reg, w, l, k, today)
    ensures MarksOk(reg, Backfilled(reg, w, l, k, today).db.meta)
    ensures HistOk(reg, Backfilled(reg, w, l, k, today))
    ensures TotalsWithin(reg, w, w.hist) ==> TotalsWithin(reg, Backfilled(reg, w, l, k, today), w.hist)
  {
    var w' := Backfilled(reg, w, l, k, today);
    BackfillMetaFrame(reg, w, l, k, today);
    OffsetsShrink(reg, w.db.meta, w'.db.meta);
    forall key, d | PollerKey(reg, key)
      ensures SameCell(w'.db.rows, w.db.rows, Cell(Daily, key, d))
    {
      BackfillRowFrame(reg, w, l, k, today, Cell(Daily, key, d));
    }
    forall e | e in reg.EdgesAt(Total)
      ensures SameCell(w'.db.rows, w.db.rows, Cell(Total, e.target, NONE))
    {
      BackfillRowFrame(reg, w, l, k, today, Cell(Total, e.target, NONE));
    }
  }

  lemma BackfillPeriodKeepsInv(reg: Registry, w: World, l: Level, k: nat, today: int)
    requires Backfillable(reg, w, l, k, today) && w.run.None? && Inv(reg, w)
    ensures Inv(reg, Backfilled(reg, w, l, k, today))
  {
    BackfillMetaFrame(reg, w, l, k, today);
    BackfillKeepsTables(reg, w, l, k, today);
    BackfillKeepsSettled(reg, w, l, k, today);
    OffsetsKeepInv(reg, w, Backfilled(reg, w, l, k, today));
  }

  lemma OffsetsKeepInv(reg: Registry, w: World, w': World)
    requires SameTables(w, w') && w.run.None? && Inv(reg, w)
    requires MarksOk(reg, w'.db.meta) && HistOk(reg, w') && SettledOk(reg, w') && TotalsWithin(reg, w', w.hist)
    ensures Inv(reg, w')
  {
    OffsetsKeepPurge(w, w');
    OffsetsKeepBaseline(reg, w, w');
    OffsetsKeepComplete(w, w');
  }

  lemma OffsetsKeepPurge(w: World, w': World)
    requires SameTables(w, w') && w.db.meta.baselineYear >= NONE && PurgeOk(w)
    ensures PurgeOk(w')
  {
  }

  lemma OffsetsKeepBaseline(reg: Registry, w: World, w': World)
    requires SameTables(w, w') && w.db.meta.cutover >= 0 && w.db.meta.baselineYear >= 0 && BaselineOk(reg, w)
    ensures BaselineOk(reg, w')
  {
  }

  lemma OffsetsKeepComplete(w: World, w': World)
    requires SameTables(w, w') && w.db.meta.cutover >= CUTOVER_MARGIN && Complete(w)
    ensures Complete(w')
  {
  }

  // ---- the whole job ----

  /** What the job keeps from one period to the next. */
  ghost predicate SameTables(w: World, w': World) {
    && w' == w.(db := w'.db)
    && w'.db.meta == w.db.meta.(offsets := w'.db.meta.offsets)
  }

  ghost predicate JobOk(reg: Registry, w: World, first: nat, today: int) {
    && reg.Valid() && w.run.None? && Inv(reg, w)
    && YearFirst(first) >= w.db.meta.purgedBefore && w.db.meta.LowestClosed(reg.dailyKeys) <= today
  }

  lemma BackfillOnePeriod(reg: Registry, w: World, first: nat, l: Level, k: nat, today: int)
    requires JobOk(reg, w, first, today) && (l == Monthly || l == Yearly)
    requires PeriodFirst(l, k) >= YearFirst(first)
    ensures JobOk(reg, Backfilled(reg, w, l, k, today), first, today)
    ensures SameTables(w, Backfilled(reg, w, l, k, today))
  {
    BackfillPeriodKeepsInv(reg, w, l, k, today);
    BackfillMetaFrame(reg, w, l, k, today);
    SameLowest(w.db.meta, Backfilled(reg, w, l, k, today).db.meta, reg.dailyKeys);
  }

  lemma {:induction false} SameLowest(m: Meta, m': Meta, keys: seq<string>)
    requires m.closedDaily == m'.closedDaily
    ensures m.LowestClosed(keys) == m'.LowestClosed(keys)
  {
    if |keys| > 1 {
      SameLowest(m, m', keys[1..]);
    }
  }

  lemma {:induction false} BackfillMonthsKeep(reg: Registry, w: World, first: nat, lo: nat, hi: int, today: int)
    requires JobOk(reg, w, first, today) && lo >= 12 * first
    ensures var w' := w.(db := BackfillMonths(reg, w.db, lo, hi, today));
      JobOk(reg, w', first, today) && SameTables(w, w')
    decreases hi - lo
  {
    if lo <= hi {
      BackfillMonthsKeep(reg, w, first, lo, hi - 1, today);
      NextMonthKeeps(reg, w, w.(db := BackfillMonths(reg, w.db, lo, hi - 1, today)), first, 12 * first, hi, today);
    }
  }

  lemma NextMonthKeeps(reg: Registry, w: World, v: World, first: nat, month: nat, k: nat, today: int)
    requires JobOk(reg, v, first, today) && SameTables(w, v) && month == 12 * first && k >= month
    ensures JobOk(reg, Backfilled(reg, v, Monthly, k, today), first, today)
    ensures SameTables(w, Backfilled(reg, v, Monthly, k, today))
  {
    MonthFirstMonotone(month, k);
    BackfillOnePeriod(reg, v, first, Monthly, k, today);
  }

  lemma BackfillYearKeeps(reg: Registry, w: World, first: nat, y: nat, now: Period)
    requires JobOk(reg, w, first, now.day) && y >= first
    ensures var w' := w.(db := BackfillYear(reg, w.db, y, now));
      JobOk(reg, w', first, now.day) && SameTables(w, w')
  {
    var v := w.(db := BackfillMonths(reg, w.db, 12 * y, Min(12 * y + 11, now.month), now.day));
    BackfillMonthsKeep(reg, w, first, 12 * y, Min(12 * y + 11, now.month), now.day);
    YearFirstMonotone(first, y);
    BackfillOnePeriod(reg, v, first, Yearly, y, now.day);
  }

  lemma {:induction false} BackfillYearsKeep(reg: Registry, w: World, first: nat, hi: int, now: Period)
    requires JobOk(reg, w, first, now.day)
    ensures var w' := w.(db := BackfillYears(reg, w.db, first, hi, now));
      JobOk(reg, w', first, now.day) && SameTables(w, w')
    decreases hi - first
  {
    if first <= hi {
      BackfillYearsKeep(reg, w, first, hi - 1, now);
      BackfillYearKeeps(reg, w.(db := BackfillYears(reg, w.db, first, hi - 1, now)), first, hi, now);
    }
  }

  /** The baseline written as one range sum is the baseline the yearly folds built. */
  lemma BaselineAgrees(reg: Registry, w: World, e: Edge)
    requires reg.Valid() && MarksOk(reg, w.db.meta) && HistOk(reg, w) && BaselineOk(reg, w)
    requires BaselineRefreshable(w.db.meta) && Origin(w.db.meta) >= w.db.meta.purgedBefore
    requires e in reg.EdgesAt(Total)
    ensures var again := RefreshedBaseline(reg, w.db.rows, w.db.meta);
      e.target in again && again[e.target] == Get(w.db.meta.baseline, e.target)
  {
    PlainBackfill(reg, w, Total, Origin(w.db.meta), YearLast(w.db.meta.baselineYear), e);
  }

  function Refreshed(reg: Registry, w: World): World
    requires BaselineRefreshable(w.db.meta)
  {
    w.(db := w.db.(meta := w.db.meta.(
      baseline := w.db.meta.baseline + RefreshedBaseline(reg, w.db.rows, w.db.meta))))
  }

  lemma RefreshKeepsMarks(reg: Registry, m: Meta, baseline: Values)
    requires MarksOk(reg, m)
    ensures MarksOk(reg, m.(baseline := baseline))
  {
    var m' := m.(baseline := baseline);
    ClosedMore(reg, m, m', m.Frozen(Daily));
    ClosedMore(reg, m, m', MonthLast(m.Frozen(Monthly)));
    ClosedMore(reg, m, m', YearLast(m.Frozen(Yearly)));
    ClosedMore(reg, m, m', YearLast(m.baselineYear));
  }

  lemma RefreshKeepsBaseline(reg: Registry, w: World)
    requires reg.Valid() && MarksOk(reg, w.db.meta) && HistOk(reg, w) && BaselineOk(reg, w)
    requires BaselineRefreshable(w.db.meta) && Origin(w.db.meta) >= w.db.meta.purgedBefore
    ensures BaselineOk(reg, Refreshed(reg, w))
  {
    forall e | e in reg.EdgesAt(Total)
      ensures Get(Refreshed(reg, w).db.meta.baseline, e.target) == Get(w.db.meta.baseline, e.target)
    {
      BaselineAgrees(reg, w, e);
    }
  }

  lemma RefreshKeepsSettled(reg: Registry, w: World)
    requires reg.Valid() && SettledOk(reg, w) && BaselineRefreshable(w.db.meta)
    ensures SettledOk(reg, Refreshed(reg, w))
  {
    forall l, k | (l, k) in w.settled
      ensures PeriodSettled(reg, Refreshed(reg, w), l, k)
    {
      RefreshKeepsPeriod(reg, w, l, k);
    }
  }

  lemma RefreshKeepsInv(reg: Registry, w: World)
    requires reg.Valid() && w.run.None? && Inv(reg, w)
    requires BaselineRefreshable(w.db.meta) && Origin(w.db.meta) >= w.db.meta.purgedBefore
    ensures Inv(reg, Refreshed(reg, w))
  {
    RefreshKeepsMarks(reg, w.db.meta, Refreshed(reg, w).db.meta.baseline);
    RefreshKeepsBaseline(reg, w);
    RefreshKeepsSettled(reg, w);
    RefreshFrame(reg, w);
  }

  /** Only the baseline changes. */
  lemma RefreshFrame(reg: Registry, w: World)
    requires BaselineRefreshable(w.db.meta) && MarksOk(reg, w.db.meta) && PurgeOk(w) && HistOk(reg, w)
    requires Complete(w) && TotalsWithin(reg, w, w.hist)
    ensures var w' := Refreshed(reg, w);
      PurgeOk(w') && HistOk(reg, w') && Complete(w') && TotalsWithin(reg, w', w.hist)
  {
    var w' := Refreshed(reg, w);
    BaselineKeepsPurge(w, w');
    BaselineKeepsHist(reg, w, w');
    BaselineKeepsComplete(w, w');
    BaselineKeepsTotals(reg, w, w');
  }

  predicate SameButBaseline(w: World, w': World) {
    w' == w.(db := w.db.(meta := w.db.meta.(baseline := w'.db.meta.baseline)))
  }

  lemma BaselineKeepsPurge(w: World, w': World)
    requires SameButBaseline(w, w') && w.db.meta.baselineYear >= NONE && PurgeOk(w)
    ensures PurgeOk(w')
  {
  }

  lemma BaselineKeepsHist(reg: Registry, w: World, w': World)
    requires SameButBaseline(w, w') && HistOk(reg, w)
    ensures HistOk(reg, w')
  {
  }

  lemma BaselineKeepsComplete(w: World, w': World)
    requires SameButBaseline(w, w') && w.db.meta.cutover >= CUTOVER_MARGIN && Complete(w)
    ensures Complete(w')
  {
    assert forall l :: w'.db.meta.Frozen(l) == w.db.meta.Frozen(l);
  }

  lemma BaselineKeepsTotals(reg: Registry, w: World, w': World)
    requires SameButBaseline(w, w') && w.db.meta.cutover >= 0 && TotalsWithin(reg, w, w.hist)
    ensures TotalsWithin(reg, w', w.hist)
  {
  }

  lemma RefreshKeepsPeriod(reg: Registry, w: World, l: Level, k: nat)
    requires reg.Valid() && BaselineRefreshable(w.db.meta) && PeriodSettled(reg, w, l, k)
    ensures PeriodSettled(reg, Refreshed(reg, w), l, k)
  {
    BaselineKeepsPeriod(reg, w, Refreshed(reg, w), l, k);
  }

  lemma BaselineKeepsPeriod(reg: Registry, w: World, w': World, l: Level, k: nat)
    requires reg.Valid() && SameButBaseline(w, w') && PeriodSettled(reg, w, l, k)
    ensures PeriodSettled(reg, w', l, k)
  {
    forall key | reg.IsStore(key, StoreForLevel(l), false)
      ensures PartSame(reg, w, w', l, key, k)
    {
      BaselineKeepsPart(reg, w, w', l, key, k);
    }
    PeriodTransfer(reg, w, w', l, k);
  }

  lemma BaselineKeepsPart(reg: Registry, w: World, w': World, l: Level, key: string, k: nat)
    requires SameButBaseline(w, w')
    ensures PartSame(reg, w, w', l, key, k)
  {
    assert w'.db.meta.Offset(l, key, k) == w.db.meta.Offset(l, key, k);
  }

  /** A backfill that is not refused keeps the invariant; a refused one changes nothing. */
  lemma BackfillKeepsInv(reg: Registry, w: World, now: Period, years: nat)
    requires reg.Valid() && Inv(reg, w) && Enabled(reg, w, Backfill(now, years))
    ensures Inv(reg, Step(reg, w, Backfill(now, years)))
  {
    var d, w' := w.(db := BackfillYears(reg, w.db, now.year - years, now.year, now)),
      Step(reg, w, Backfill(now, years));
    BackfillIs(reg, w, now, years, d, w');
    if w' != w {
      UnrefusedKeepsInv(reg, w, d, now, years, now.year - years);
    }
  }

  /** A refused backfill changes nothing; another one writes the years and may refresh the baseline. */
  lemma BackfillIs(reg: Registry, w: World, now: Period, years: nat, d: World, w': World)
    requires Enabled(reg, w, Backfill(now, years)) && w' == Step(reg, w, Backfill(now, years))
    requires d == w.(db := BackfillYears(reg, w.db, now.year - years, now.year, now))
    ensures w' == w || !BackfillRefused(w.db.meta, now, years)
    ensures w' == w || w' == d || (years > 0 && BaselineRefreshable(d.db.meta) && w' == Refreshed(reg, d))
  {
  }

  lemma UnrefusedKeepsInv(reg: Registry, w: World, d: World, now: Period, years: nat, first: nat)
    requires reg.Valid() && Inv(reg, w) && w.run.None? && first == now.year - years
    requires w.db.meta.LowestClosed(reg.dailyKeys) <= now.day && !BackfillRefused(w.db.meta, now, years)
    requires d == w.(db := BackfillYears(reg, w.db, first, now.year, now))
    ensures Inv(reg, d)
    ensures years > 0 && BaselineRefreshable(d.db.meta) ==> Inv(reg, Refreshed(reg, d))
  {
    JobReady(reg, w, now, years, first);
    JobKeeps(reg, w, d, now, first);
    if years > 0 && BaselineRefreshable(d.db.meta) {
      RefreshKeepsInv(reg, d);
    }
  }

  lemma JobKeeps(reg: Registry, w: World, d: World, now: Period, first: nat)
    requires JobOk(reg, w, first, now.day) && d == w.(db := BackfillYears(reg, w.db, first, now.year, now))
    ensures JobOk(reg, d, first, now.day) && SameTables(w, d)
  {
    BackfillYearsKeep(reg, w, first, now.year, now);
  }

  lemma JobReady(reg: Registry, w: World, now: Period, years: nat, first: nat)
    requires reg.Valid() && Inv(reg, w) && w.run.None? && first == now.year - years
    requires w.db.meta.LowestClosed(reg.dailyKeys) <= now.day && !BackfillRefused(w.db.meta, now, years)
    ensures JobOk(reg, w, first, now.day)
  {
    FirstYearKept(w.db.meta, now, years, first, YearFirst(first));
  }

  lemma FirstYearKept(m: Meta, now: Period, years: nat, first: nat, start: nat)
    requires first == now.year - years && start == YearFirst(first) && !BackfillRefused(m, now, years)
    ensures m.purgedBefore <= start
  {
  }
}
