/** What an offline backfill rewrites: every month and year from its first year to today whose
    daily rows reach back far enough, each to the plain sums of its days, and nothing else. */
module Rewrites {
  import opened Calendar
  import opened Registers
  import opened Energy
  import opened Plan
  import opened Ledger
  import opened PollStep
  import opened FinishValues
  import opened BackfillStep

  /** The row is the sum of the source's days up to today, and carries no offset any more. */
  predicate EdgeRewritten(rows: Rows, db': DB, e: Edge, l: Level, k: nat, today: int) {
    var c := Cell(l, e.target, k);
    && c in db'.rows && c !in db'.meta.offsets
    && db'.rows[c] == Sum(rows, e.source, PeriodFirst(l, k), Min(PeriodLast(l, k), today))
  }

  /** The net row is the difference of its two rows, and carries no offset. */
  predicate NetRewritten(db': DB, n: NetPair, l: Level, k: nat) {
    var c, x, i := Cell(l, n.target, k), Cell(l, n.exported, k), Cell(l, n.imported, k);
    && c in db'.rows && x in db'.rows && i in db'.rows && c !in db'.meta.offsets
    && db'.rows[c] == db'.rows[x] - db'.rows[i]
  }

  predicate CellSame(db: DB, db': DB, c: Cell) {
    SameCell(db'.rows, db.rows, c) && SameCell(db'.meta.offsets, db.meta.offsets, c)
  }

  ghost predicate ComputedKey(reg: Registry, l: Level, key: string) {
    (exists e :: e in reg.EdgesAt(l) && e.target == key) || (exists n :: n in reg.NetsAt(l) && n.target == key)
  }

  /** Every computed row of the period is rewritten, and no other one. */
  ghost predicate Rewritten(reg: Registry, db: DB, db': DB, l: Level, k: nat, today: int) {
    && (forall e :: e in reg.EdgesAt(l) ==> EdgeRewritten(db.rows, db', e, l, k, today))
    && (forall n :: n in reg.NetsAt(l) ==> NetRewritten(db', n, l, k))
    && (forall key :: !ComputedKey(reg, l, key) ==> CellSame(db, db', Cell(l, key, k)))
  }

  /** No row or offset of the period changes. */
  ghost predicate Untouched(db: DB, db': DB, l: Level, k: int) {
    forall key :: CellSame(db, db', Cell(l, key, k))
  }

  /** A period the job visits: rewritten, or skipped because its daily rows start later. */
  ghost predicate Visited(reg: Registry, db: DB, db': DB, l: Level, k: int, today: int) {
    && k >= 0
    && if HistoryReaches(db.rows, PeriodFirst(l, k)) then Rewritten(reg, db, db', l, k, today)
       else Untouched(db, db', l, k)
  }

  ghost predicate DailySame(rows: Rows, rows': Rows) {
    forall key, d :: SameCell(rows', rows, Cell(Daily, key, d))
  }

  // ---- one period ----

  lemma PlainValue(reg: Registry, rows: Rows, l: Level, first: int, last: int, e: Edge)
    requires reg.Valid() && e in reg.EdgesAt(l)
    ensures var plain := ApplyEdges(reg.EdgesAt(l), StoredSums(rows, Sources(reg.EdgesAt(l)), first, last));
      e.target in plain && plain[e.target] == Sum(rows, e.source, first, last)
  {
    EdgesFunctional(reg, l);
    EdgesApplied(reg.EdgesAt(l), StoredSums(rows, Sources(reg.EdgesAt(l)), first, last));
    assert e.source in Sources(reg.EdgesAt(l));
  }

  lemma EdgeValue(reg: Registry, rows: Rows, l: Level, k: nat, today: int, e: Edge)
    requires reg.Valid() && e in reg.EdgesAt(l)
    ensures var vals := BackfillValues(reg, rows, l, k, today);
      e.target in vals
      && vals[e.target] == Sum(rows, e.source, PeriodFirst(l, k), Min(PeriodLast(l, k), today))
  {
    var first, last := PeriodFirst(l, k), Min(PeriodLast(l, k), today);
    PlainValue(reg, rows, l, first, last, e);
    SourceIsPollerKey(reg, l, e);
    assert reg.EdgeOk(e);
    NetTargetsApart(reg, l,
      ApplyEdges(reg.EdgesAt(l), StoredSums(rows, Sources(reg.EdgesAt(l)), first, last)), e.target);
  }

  /** A part of a net pair is a target of its level's edges, and keeps its value. */
  lemma PartValue(reg: Registry, rows: Rows, l: Level, k: nat, today: int, plain: Values, key: string)
    requires reg.Valid() && l != Daily && reg.IsStore(key, StoreForLevel(l), false)
    requires plain == ApplyEdges(reg.EdgesAt(l),
      StoredSums(rows, Sources(reg.EdgesAt(l)), PeriodFirst(l, k), Min(PeriodLast(l, k), today)))
    ensures var vals := BackfillValues(reg, rows, l, k, today);
      key in plain && key in vals && vals[key] == plain[key]
  {
    NetPartSource(reg, l, key);
    var e :| e in reg.EdgesAt(l) && e.target == key;
    PlainValue(reg, rows, l, PeriodFirst(l, k), Min(PeriodLast(l, k), today), e);
    EdgeValue(reg, rows, l, k, today, e);
  }

  lemma NetValue(reg: Registry, rows: Rows, l: Level, k: nat, today: int, n: NetPair)
    requires reg.Valid() && l != Daily && n in reg.NetsAt(l)
    ensures var vals := BackfillValues(reg, rows, l, k, today);
      && n.target in vals && n.exported in vals && n.imported in vals
      && vals[n.target] == vals[n.exported] - vals[n.imported]
  {
    assert reg.NetOk(n);
    var plain := ApplyEdges(reg.EdgesAt(l),
      StoredSums(rows, Sources(reg.EdgesAt(l)), PeriodFirst(l, k), Min(PeriodLast(l, k), today)));
    PartValue(reg, rows, l, k, today, plain, n.exported);
    PartValue(reg, rows, l, k, today, plain, n.imported);
    NetAdded(reg, l, plain, n);
  }

  /** Writing the values of one period. */
  lemma PutEffect(db: DB, l: Level, k: nat, vals: Values, c: Cell, db': DB)
    requires db' == PutPeriods(db, l, k, vals)
    ensures c.level == l && c.period == k && c.key in vals ==>
      c in db'.rows && db'.rows[c] == vals[c.key] && c !in db'.meta.offsets
    ensures !(c.level == l && c.period == k && c.key in vals) ==> CellSame(db, db', c)
  {
  }

  lemma ValuesComputed(reg: Registry, rows: Rows, l: Level, k: nat, today: int, key: string)
    requires reg.Valid() && key in BackfillValues(reg, rows, l, k, today)
    ensures ComputedKey(reg, l, key)
  {
    var sums := StoredSums(rows, Sources(reg.EdgesAt(l)), PeriodFirst(l, k), Min(PeriodLast(l, k), today));
    ValueKeys(reg, l, sums, ApplyEdges(reg.EdgesAt(l), sums), key);
  }

  lemma PeriodRewritten(reg: Registry, db: DB, l: Level, k: nat, today: int, db': DB)
    requires reg.Valid() && (l == Monthly || l == Yearly)
    requires db' == PutPeriods(db, l, k, BackfillValues(reg, db.rows, l, k, today))
    ensures Rewritten(reg, db, db', l, k, today)
  {
    var vals := BackfillValues(reg, db.rows, l, k, today);
    forall e | e in reg.EdgesAt(l)
      ensures EdgeRewritten(db.rows, db', e, l, k, today)
    {
      EdgeValue(reg, db.rows, l, k, today, e);
      PutEffect(db, l, k, vals, Cell(l, e.target, k), db');
    }
    forall n | n in reg.NetsAt(l)
      ensures NetRewritten(db', n, l, k)
    {
      NetValue(reg, db.rows, l, k, today, n);
      PutEffect(db, l, k, vals, Cell(l, n.target, k), db');
      PutEffect(db, l, k, vals, Cell(l, n.exported, k), db');
      PutEffect(db, l, k, vals, Cell(l, n.imported, k), db');
    }
    forall key | !ComputedKey(reg, l, key)
      ensures CellSame(db, db', Cell(l, key, k))
    {
      if key in vals {
        ValuesComputed(reg, db.rows, l, k, today, key);
      }
      PutEffect(db, l, k, vals, Cell(l, key, k), db');
    }
  }

  /** One period of the job: it is visited, and every other one is left alone. */
  lemma PeriodEffect(reg: Registry, db: DB, l: Level, k: nat, today: int, db': DB, l2: Level, k2: int)
    requires reg.Valid() && (l == Monthly || l == Yearly) && db' == BackfillPeriod(reg, db, l, k, today)
    ensures if (l2, k2) == (l, k) then Visited(reg, db, db', l2, k2, today) else Untouched(db, db', l2, k2)
  {
    if HistoryReaches(db.rows, PeriodFirst(l, k)) {
      if (l2, k2) == (l, k) {
        PeriodRewritten(reg, db, l, k, today, db');
      } else {
        forall key
          ensures CellSame(db, db', Cell(l2, key, k2))
        {
          PutEffect(db, l, k, BackfillValues(reg, db.rows, l, k, today), Cell(l2, key, k2), db');
        }
      }
    }
  }

  lemma PeriodKeepsDaily(reg: Registry, db: DB, l: Level, k: nat, today: int, db': DB)
    requires reg.Valid() && (l == Monthly || l == Yearly) && db' == BackfillPeriod(reg, db, l, k, today)
    ensures DailySame(db.rows, db'.rows)
  {
    forall key, d
      ensures SameCell(db'.rows, db.rows, Cell(Daily, key, d))
    {
      PeriodEffect(reg, db, l, k, today, db', Daily, d);
      assert CellSame(db, db', Cell(Daily, key, d));
    }
  }

  // ---- one after the other ----

  lemma UntouchedOnward(db: DB, mid: DB, db': DB, l: Level, k: int)
    requires Untouched(db, mid, l, k) && Untouched(mid, db', l, k)
    ensures Untouched(db, db', l, k)
  {
    forall key
      ensures CellSame(db, db', Cell(l, key, k))
    {
      assert CellSame(db, mid, Cell(l, key, k)) && CellSame(mid, db', Cell(l, key, k));
    }
  }

  lemma DailyOnward(a: Rows, b: Rows, c: Rows)
    requires DailySame(a, b) && DailySame(b, c)
    ensures DailySame(a, c)
  {
    forall key, d
      ensures SameCell(c, a, Cell(Daily, key, d))
    {
      assert SameCell(b, a, Cell(Daily, key, d)) && SameCell(c, b, Cell(Daily, key, d));
    }
  }

  /** What has been visited stays as it is. */
  lemma VisitedOnward(reg: Registry, db: DB, mid: DB, db': DB, l: Level, k: int, today: int)
    requires reg.Valid() && (l == Monthly || l == Yearly)
    requires Visited(reg, db, mid, l, k, today) && Untouched(mid, db', l, k)
    ensures Visited(reg, db, db', l, k, today)
  {
    forall key
      ensures CellSame(mid, db', Cell(l, key, k))
    {
    }
    if HistoryReaches(db.rows, PeriodFirst(l, k)) {
      RewrittenOnward(reg, db, mid, db', l, k, today);
    } else {
      UntouchedOnward(db, mid, db', l, k);
    }
  }

  lemma RewrittenOnward(reg: Registry, db: DB, mid: DB, db': DB, l: Level, k: nat, today: int)
    requires Rewritten(reg, db, mid, l, k, today) && Untouched(mid, db', l, k)
    ensures Rewritten(reg, db, db', l, k, today)
  {
    forall e | e in reg.EdgesAt(l)
      ensures EdgeRewritten(db.rows, db', e, l, k, today)
    {
      assert EdgeRewritten(db.rows, mid, e, l, k, today) && CellSame(mid, db', Cell(l, e.target, k));
    }
    forall n | n in reg.NetsAt(l)
      ensures NetRewritten(db', n, l, k)
    {
      assert NetRewritten(mid, n, l, k) && CellSame(mid, db', Cell(l, n.target, k));
      assert CellSame(mid, db', Cell(l, n.exported, k)) && CellSame(mid, db', Cell(l, n.imported, k));
    }
    forall key | !ComputedKey(reg, l, key)
      ensures CellSame(db, db', Cell(l, key, k))
    {
      assert CellSame(db, mid, Cell(l, key, k)) && CellSame(mid, db', Cell(l, key, k));
    }
  }

  lemma SameReach(rows: Rows, rows': Rows, d: int)
    requires DailySame(rows, rows')
    ensures HistoryReaches(rows, d) <==> HistoryReaches(rows', d)
  {
    if HistoryReaches(rows, d) {
      var c :| c in rows && c.level == Daily && c.period <= d;
      assert SameCell(rows', rows, Cell(Daily, c.key, c.period));
    }
    if HistoryReaches(rows', d) {
      var c :| c in rows' && c.level == Daily && c.period <= d;
      assert SameCell(rows', rows, Cell(Daily, c.key, c.period));
    }
  }

  /** A period visited later is visited with the sums of the start: daily rows do not change. */
  lemma VisitedLater(reg: Registry, db: DB, mid: DB, db': DB, l: Level, k: int, today: int)
    requires reg.Valid() && (l == Monthly || l == Yearly)
    requires DailySame(db.rows, mid.rows) && Untouched(db, mid, l, k) && Visited(reg, mid, db', l, k, today)
    ensures Visited(reg, db, db', l, k, today)
  {
    SameReach(db.rows, mid.rows, PeriodFirst(l, k));
    if HistoryReaches(db.rows, PeriodFirst(l, k)) {
      RewrittenLater(reg, db, mid, db', l, k, today);
    } else {
      UntouchedOnward(db, mid, db', l, k);
    }
  }

  lemma RewrittenLater(reg: Registry, db: DB, mid: DB, db': DB, l: Level, k: nat, today: int)
    requires DailySame(db.rows, mid.rows) && Untouched(db, mid, l, k) && Rewritten(reg, mid, db', l, k, today)
    ensures Rewritten(reg, db, db', l, k, today)
  {
    forall e | e in reg.EdgesAt(l)
      ensures EdgeRewritten(db.rows, db', e, l, k, today)
    {
      assert EdgeRewritten(mid.rows, db', e, l, k, today);
      DailySums(db.rows, mid.rows, e.source, PeriodFirst(l, k), Min(PeriodLast(l, k), today));
    }
    forall key | !ComputedKey(reg, l, key)
      ensures CellSame(db, db', Cell(l, key, k))
    {
      assert CellSame(db, mid, Cell(l, key, k)) && CellSame(mid, db', Cell(l, key, k));
    }
  }

  lemma DailySums(rows: Rows, rows': Rows, s: string, first: int, last: int)
    requires DailySame(rows, rows')
    ensures Sum(rows', s, first, last) == Sum(rows, s, first, last)
  {
    forall d | first <= d <= last
      ensures SameCell(rows', rows, Cell(Daily, s, d))
    {
    }
    SumAgrees(rows', rows, s, first, last);
  }

  // ---- the whole job ----

  lemma {:induction false} MonthsKeepDaily(reg: Registry, db: DB, lo: nat, hi: int, today: int)
    requires reg.Valid()
    ensures DailySame(db.rows, BackfillMonths(reg, db, lo, hi, today).rows)
    decreases hi - lo
  {
    if lo <= hi {
      var mid := BackfillMonths(reg, db, lo, hi - 1, today);
      MonthsKeepDaily(reg, db, lo, hi - 1, today);
      PeriodKeepsDaily(reg, mid, Monthly, hi, today, BackfillPeriod(reg, mid, Monthly, hi, today));
      DailyOnward(db.rows, mid.rows, BackfillPeriod(reg, mid, Monthly, hi, today).rows);
    }
  }

  /** A first part that visits exactly the periods `before`, and a second that visits one more. */
  lemma OneMore(reg: Registry, db: DB, mid: DB, db': DB, l: Level, k: int, today: int, before: bool, now: bool)
    requires reg.Valid() && (before || now ==> l == Monthly || l == Yearly) && !(before && now)
    requires DailySame(db.rows, mid.rows)
    requires if before then Visited(reg, db, mid, l, k, today) else Untouched(db, mid, l, k)
    requires if now then Visited(reg, mid, db', l, k, today) else Untouched(mid, db', l, k)
    ensures if before || now then Visited(reg, db, db', l, k, today) else Untouched(db, db', l, k)
  {
    if before {
      VisitedOnward(reg, db, mid, db', l, k, today);
    } else if now {
      VisitedLater(reg, db, mid, db', l, k, today);
    } else {
      UntouchedOnward(db, mid, db', l, k);
    }
  }

  lemma {:induction false} MonthsEffect(reg: Registry, db: DB, lo: nat, hi: int, today: int, l: Level, k: int)
    requires reg.Valid()
    ensures var db' := BackfillMonths(reg, db, lo, hi, today);
      if l == Monthly && lo <= k <= hi then Visited(reg, db, db', l, k, today) else Untouched(db, db', l, k)
    decreases hi - lo
  {
    if lo <= hi {
      var mid := BackfillMonths(reg, db, lo, hi - 1, today);
      MonthsEffect(reg, db, lo, hi - 1, today, l, k);
      MonthsKeepDaily(reg, db, lo, hi - 1, today);
      NextMonth(reg, db, mid, lo, hi, today, BackfillPeriod(reg, mid, Monthly, hi, today), l, k);
    }
  }

  lemma NextMonth(reg: Registry, db: DB, mid: DB, lo: nat, hi: nat, today: int, db': DB, l: Level, k: int)
    requires reg.Valid() && lo <= hi && DailySame(db.rows, mid.rows)
    requires if l == Monthly && lo <= k <= hi - 1 then Visited(reg, db, mid, l, k, today) else Untouched(db, mid, l, k)
    requires db' == BackfillPeriod(reg, mid, Monthly, hi, today)
    ensures if l == Monthly && lo <= k <= hi then Visited(reg, db, db', l, k, today) else Untouched(db, db', l, k)
  {
    PeriodEffect(reg, mid, Monthly, hi, today, db', l, k);
    OneMore(reg, db, mid, db', l, k, today, l == Monthly && lo <= k <= hi - 1, l == Monthly && k == hi);
  }

  /** The months of a year up to the current one, and the year. */
  predicate OfYear(l: Level, k: int, y: nat, now: Period) {
    (l == Yearly && k == y) || (l == Monthly && 12 * y <= k <= 12 * y + 11 && k <= now.month)
  }

  lemma YearEffect(reg: Registry, db: DB, y: nat, now: Period, l: Level, k: int)
    requires reg.Valid()
    ensures var db' := BackfillYear(reg, db, y, now);
      if OfYear(l, k, y, now) then Visited(reg, db, db', l, k, now.day) else Untouched(db, db', l, k)
    ensures DailySame(db.rows, BackfillYear(reg, db, y, now).rows)
  {
    var lo, hi := 12 * y, Min(12 * y + 11, now.month);
    var mid := BackfillMonths(reg, db, lo, hi, now.day);
    var db' := BackfillPeriod(reg, mid, Yearly, y, now.day);
    MonthsEffect(reg, db, lo, hi, now.day, l, k);
    MonthsKeepDaily(reg, db, lo, hi, now.day);
    PeriodKeepsDaily(reg, mid, Yearly, y, now.day, db');
    DailyOnward(db.rows, mid.rows, db'.rows);
    PeriodEffect(reg, mid, Yearly, y, now.day, db', l, k);
    OneMore(reg, db, mid, db', l, k, now.day, l == Monthly && lo <= k <= hi, l == Yearly && k == y);
  }

  lemma {:induction false} YearsKeepDaily(reg: Registry, db: DB, first: nat, hi: int, now: Period)
    requires reg.Valid()
    ensures DailySame(db.rows, BackfillYears(reg, db, first, hi, now).rows)
    decreases hi - first
  {
    if first <= hi {
      var mid := BackfillYears(reg, db, first, hi - 1, now);
      YearsKeepDaily(reg, db, first, hi - 1, now);
      YearEffect(reg, mid, hi, now, Daily, 0);
      DailyOnward(db.rows, mid.rows, BackfillYear(reg, mid, hi, now).rows);
    }
  }

  /** The years first..hi, and their months up to the current one. */
  predicate OfYears(l: Level, k: int, first: nat, hi: int, now: Period) {
    || (l == Yearly && first <= k <= hi)
    || (l == Monthly && first <= k / 12 <= hi && k <= now.month)
  }

  lemma {:induction false} YearsEffect(
    reg: Registry, db: DB, first: nat, hi: int, now: Period, l: Level, k: int)
    requires reg.Valid()
    ensures var db' := BackfillYears(reg, db, first, hi, now);
      if OfYears(l, k, first, hi, now) then Visited(reg, db, db', l, k, now.day) else Untouched(db, db', l, k)
    decreases hi - first
  {
    if first <= hi {
      var mid := BackfillYears(reg, db, first, hi - 1, now);
      YearsEffect(reg, db, first, hi - 1, now, l, k);
      YearsKeepDaily(reg, db, first, hi - 1, now);
      NextYear(reg, db, mid, first, hi, now, BackfillYear(reg, mid, hi, now), l, k);
    }
  }

  lemma NextYear(reg: Registry, db: DB, mid: DB, first: nat, hi: nat, now: Period, db': DB, l: Level, k: int)
    requires reg.Valid() && first <= hi && DailySame(db.rows, mid.rows)
    requires if OfYears(l, k, first, hi - 1, now) then Visited(reg, db, mid, l, k, now.day)
             else Untouched(db, mid, l, k)
    requires db' == BackfillYear(reg, mid, hi, now)
    ensures if OfYears(l, k, first, hi, now) then Visited(reg, db, db', l, k, now.day) else Untouched(db, db', l, k)
  {
    YearEffect(reg, mid, hi, now, l, k);
    assert OfYears(l, k, first, hi, now) <==> OfYears(l, k, first, hi - 1, now) || OfYear(l, k, hi, now);
    OneMore(reg, db, mid, db', l, k, now.day, OfYears(l, k, first, hi - 1, now), OfYear(l, k, hi, now));
  }

  /** An accepted backfill visits exactly the current year and the `years` before it, with
      their months up to the current one; of every other period, daily rows and totals
      included, no row and no offset changes. */
  lemma BackfillRewrites(reg: Registry, db: DB, now: Period, years: nat, l: Level, k: int)
    requires reg.Valid() && years <= now.year && !BackfillRefused(db.meta, now, years)
    ensures var db' := ApplyBackfill(reg, db, now, years);
      if OfYears(l, k, now.year - years, now.year, now) then Visited(reg, db, db', l, k, now.day)
      else Untouched(db, db', l, k)
  {
    var first := now.year - years;
    var d, db' := BackfillYears(reg, db, first, now.year, now), ApplyBackfill(reg, db, now, years);
    YearsEffect(reg, db, first, now.year, now, l, k);
    YearsKeepDaily(reg, db, first, now.year, now);
    BaselineApart(reg, db, now, years, first, d);
    SameTables(d, db', l, k);
    OneMore(reg, db, d, db', l, k, now.day, OfYears(l, k, first, now.year, now), false);
  }

  /** After the years only the baseline may change. */
  lemma BaselineApart(reg: Registry, db: DB, now: Period, years: nat, first: nat, d: DB)
    requires first == now.year - years && !BackfillRefused(db.meta, now, years)
    requires d == BackfillYears(reg, db, first, now.year, now)
    ensures var db' := ApplyBackfill(reg, db, now, years);
      db'.rows == d.rows && db'.meta.offsets == d.meta.offsets
  {
  }

  lemma SameTables(d: DB, db': DB, l: Level, k: int)
    requires db'.rows == d.rows && db'.meta.offsets == d.meta.offsets
    ensures Untouched(d, db', l, k)
  {
  }

  /** After the years, the baseline: when the job touches a closed year and a year since the
      cutover has been folded, the baseline of every total is one sum from 1 January of the
      cutover year through the last folded year; otherwise it stays as it was. */
  lemma BaselineRewritten(reg: Registry, db: DB, now: Period, years: nat, e: Edge)
    requires reg.Valid() && years <= now.year && !BackfillRefused(db.meta, now, years)
    requires db.meta.cutover >= 0 && e in reg.EdgesAt(Total)
    ensures var m, m' := db.meta, ApplyBackfill(reg, db, now, years).meta;
      if years > 0 && m.baselineYear >= YearOf(m.cutover)
      then e.target in m'.baseline
        && m'.baseline[e.target] == Sum(db.rows, e.source, YearFirst(YearOf(m.cutover)), YearLast(m.baselineYear))
      else m'.baseline == m.baseline
  {
    var first, m := now.year - years, db.meta;
    var d := BackfillYears(reg, db, first, now.year, now);
    YearsKeepDaily(reg, db, first, now.year, now);
    YearsKeepMarks(reg, db, first, now.year, now);
    BaselineStep(reg, db, now, years, first, d);
    if years > 0 && m.baselineYear >= YearOf(m.cutover) {
      RefreshedSum(reg, db, d, e);
    }
  }

  lemma BaselineStep(reg: Registry, db: DB, now: Period, years: nat, first: nat, d: DB)
    requires first == now.year - years && !BackfillRefused(db.meta, now, years)
    requires d == BackfillYears(reg, db, first, now.year, now)
    ensures ApplyBackfill(reg, db, now, years).meta.baseline
         == if years > 0 && BaselineRefreshable(d.meta) then d.meta.baseline + RefreshedBaseline(reg, d.rows, d.meta)
            else d.meta.baseline
  {
  }

  lemma RefreshedSum(reg: Registry, db: DB, d: DB, e: Edge)
    requires reg.Valid() && e in reg.EdgesAt(Total) && DailySame(db.rows, d.rows) && BaselineRefreshable(d.meta)
    ensures var again := RefreshedBaseline(reg, d.rows, d.meta);
      e.target in again
      && again[e.target] == Sum(db.rows, e.source, YearFirst(YearOf(d.meta.cutover)), YearLast(d.meta.baselineYear))
  {
    RangeSummed(reg, db, d, e, YearFirst(YearOf(d.meta.cutover)), YearLast(d.meta.baselineYear));
  }

  lemma RangeSummed(reg: Registry, db: DB, d: DB, e: Edge, first: int, last: int)
    requires reg.Valid() && e in reg.EdgesAt(Total) && DailySame(db.rows, d.rows)
    ensures var sums := ApplyEdges(reg.EdgesAt(Total), StoredSums(d.rows, Sources(reg.EdgesAt(Total)), first, last));
      e.target in sums && sums[e.target] == Sum(db.rows, e.source, first, last)
  {
    PlainValue(reg, d.rows, Total, first, last, e);
    DailySums(db.rows, d.rows, e.source, first, last);
  }

  lemma {:induction false} MonthsKeepMarks(reg: Registry, db: DB, lo: nat, hi: int, today: int)
    ensures var m' := BackfillMonths(reg, db, lo, hi, today).meta; m' == db.meta.(offsets := m'.offsets)
    decreases hi - lo
  {
    if lo <= hi {
      MonthsKeepMarks(reg, db, lo, hi - 1, today);
    }
  }

  lemma {:induction false} YearsKeepMarks(reg: Registry, db: DB, first: nat, hi: int, now: Period)
    ensures var m' := BackfillYears(reg, db, first, hi, now).meta; m' == db.meta.(offsets := m'.offsets)
    decreases hi - first
  {
    if first <= hi {
      YearsKeepMarks(reg, db, first, hi - 1, now);
      MonthsKeepMarks(reg, BackfillYears(reg, db, first, hi - 1, now), 12 * hi, Min(12 * hi + 11, now.month), now.day);
    }
  }
}
