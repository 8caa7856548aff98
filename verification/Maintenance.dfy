/** The offline backfill (internal/maintenance/backfill.go) inside its one transaction
    (internal/storage/backfill.go): it writes past the freeze marks. */
module Maintenance {
  import opened Calendar
  import opened Registers
  import opened Energy
  import opened Plan
  import opened Ledger
  import opened PollStep
  import opened FinishValues
  import opened MetaTable
  import opened Transactions
  import opened Cutover
  import opened Storage

  // ---- one written period ----

  function Taken(vals: Values, done: set<string>): Values {
    map k | k in vals && k in done :: vals[k]
  }

  lemma CellsOneMore(l: Level, k: int, vals: Values, done: set<string>, key: string)
    requires key in vals
    ensures CellsOf(l, k, Taken(vals, done + {key})) == CellsOf(l, k, Taken(vals, done))[Cell(l, key, k) := vals[key]]
  {
  }

  lemma ClearedOneMore(offsets: map<Cell, int>, l: Level, k: int, vals: Values, done: set<string>, key: string)
    requires key in vals
    ensures Cleared(offsets, l, k, Taken(vals, done + {key}))
         == Cleared(offsets, l, k, Taken(vals, done)) - {Cell(l, key, k)}
  {
  }

  lemma PutOneMore(db: DB, l: Level, k: int, vals: Values, done: set<string>, key: string)
    requires key in vals
    ensures var before := PutPeriods(db, l, k, Taken(vals, done));
      PutPeriods(db, l, k, Taken(vals, done + {key}))
        == DB(before.rows[Cell(l, key, k) := vals[key]],
              before.meta.(offsets := before.meta.offsets - {Cell(l, key, k)}))
  {
    CellsOneMore(l, k, vals, done, key);
    ClearedOneMore(db.meta.offsets, l, k, vals, done, key);
    RowsOneMore(db.rows, CellsOf(l, k, Taken(vals, done)), Cell(l, key, k), vals[key]);
  }

  lemma PutNothing(db: DB, l: Level, k: int, vals: Values)
    ensures PutPeriods(db, l, k, Taken(vals, {})) == db
  {
    assert db.rows + CellsOf(l, k, Taken(vals, {})) == db.rows;
    assert Cleared(db.meta.offsets, l, k, Taken(vals, {})) == db.meta.offsets;
  }

  predicate SomeRange(l: Level, k: int) {
    OffsetCell(Cell(l, "", k))
  }

  /** The values a backfill computes belong to the aggregator. */
  lemma BackfillInDomain(reg: Registry, rows: Rows, l: Level, k: nat, today: int, key: string)
    requires reg.Valid() && key in BackfillValues(reg, rows, l, k, today)
    ensures InDomain(reg, l, key)
  {
    var edges := reg.EdgesAt(l);
    var sums := StoredSums(rows, Sources(edges), PeriodFirst(l, k), Min(PeriodLast(l, k), today));
    ValueKeys(reg, l, sums, ApplyEdges(edges, sums), key);
  }

  /** The oldest daily row, if there is one. */
  ghost predicate Oldest(rows: Rows, first: Option<int>) {
    forall d :: HistoryReaches(rows, d) <==> first.Some? && first.value <= d
  }

  /** Written months and years do not change how far back the daily rows reach. */
  lemma PutKeepsOldest(db: DB, l: Level, k: nat, vals: Values, first: Option<int>)
    requires l != Daily && Oldest(db.rows, first)
    ensures Oldest(PutPeriods(db, l, k, vals).rows, first)
  {
    var rows' := PutPeriods(db, l, k, vals).rows;
    forall d
      ensures HistoryReaches(rows', d) <==> HistoryReaches(db.rows, d)
    {
      SameReach(db.rows, rows', d);
    }
  }

  lemma SameReach(rows: Rows, rows': Rows, d: int)
    requires forall c: Cell :: c.level == Daily ==> (c in rows <==> c in rows')
    ensures HistoryReaches(rows, d) <==> HistoryReaches(rows', d)
  {
    if HistoryReaches(rows, d) {
      var c :| c in rows && c.level == Daily && c.period <= d;
      assert c in rows';
    }
    if HistoryReaches(rows', d) {
      var c :| c in rows' && c.level == Daily && c.period <= d;
      assert c in rows;
    }
  }

  lemma MonthWithinYear(now: Period, y: nat)
    requires now.Valid() && y <= now.year
    ensures 12 * y <= now.month
  {
  }

  /** The months before k are recomputed. */
  ghost predicate MonthsDone(reg: Registry, start: DB, lo: nat, k: int, today: int, db: DB) {
    lo <= k && db == BackfillMonths(reg, start, lo, k - 1, today)
  }

  lemma OneMoreMonth(reg: Registry, start: DB, lo: nat, k: nat, today: int, before: DB, after: DB)
    requires MonthsDone(reg, start, lo, k, today, before) && after == BackfillPeriod(reg, before, Monthly, k, today)
    ensures MonthsDone(reg, start, lo, k + 1, today, after)
  {
  }

  /** The years before y are recomputed; a job that reaches back before the year 1 stops at
      its first year. */
  ghost predicate YearsDone(reg: Registry, start: DB, now: Period, years: nat, y: int, db: DB) {
    if years < now.year then now.year - years <= y && db == BackfillYears(reg, start, now.year - years, y - 1, now)
    else y == now.year - years && db == start
  }

  lemma OneMoreYear(reg: Registry, start: DB, now: Period, years: nat, y: nat, before: DB, after: DB)
    requires YearsDone(reg, start, now, years, y, before) && y >= 1
    requires after == BackfillYear(reg, before, y, now)
    ensures YearsDone(reg, start, now, years, y + 1, after)
  {
    YearAppended(reg, start, now.year - years, y, now, before, after);
  }

  lemma YearAppended(reg: Registry, start: DB, first: nat, y: nat, now: Period, before: DB, after: DB)
    requires first <= y && before == BackfillYears(reg, start, first, y - 1, now)
    requires after == BackfillYear(reg, before, y, now)
    ensures after == BackfillYears(reg, start, first, y, now)
  {
  }

  lemma NoSuchYear(reg: Registry, start: DB, now: Period, years: nat, y: int, db: DB)
    requires YearsDone(reg, start, now, years, y, db) && y < 1
    ensures years >= now.year && db == start
  {
  }

  lemma NoMonthsYet(reg: Registry, db: DB, lo: nat, today: int)
    ensures MonthsDone(reg, db, lo, lo, today, db)
  {
  }

  lemma NoYearsYet(reg: Registry, db: DB, now: Period, years: nat)
    ensures YearsDone(reg, db, now, years, now.year - years, db)
  {
  }

  /** How a job ends inside its transaction. */
  datatype Outcome = Done | PurgedHistory | KeyFailure

  /** The job would sum days retention has deleted, or start before any day. */
  predicate Refuses(m: Meta, now: Period, years: nat) {
    m.purgedBefore != NONE && (years > now.year || BackfillRefused(m, now, years))
  }

  function OutcomeOf(m: Meta, now: Period, years: nat): Outcome {
    if Refuses(m, now, years) then PurgedHistory else if years >= now.year then KeyFailure else Done
  }

  /** The keys of a year's months, listed from the month before its first one. */
  method MonthsOf(lo: nat, through: nat) returns (months: seq<int>)
    requires 1 <= lo <= through < Months.Limit() - 1
    ensures months == Range(lo, through)
  {
    var r := StepBetween(Months, lo - 1, through);
    months := r.value;
  }

  /** What happens inside the transaction: copies of the store's fields. */
  class BackfillTx {
    const reg: Registry
    var rows: Rows
    var table: Table
    var meta: Meta

    ghost predicate Valid()
      reads this
    {
      Agrees(table, meta) && Sane(meta) && InRange(meta)
    }

    function State(): DB
      reads this
    {
      DB(rows, meta)
    }

    constructor (reg: Registry, rows: Rows, table: Table, meta: Meta)
      requires Agrees(table, meta) && Sane(meta) && InRange(meta)
      ensures Valid() && State() == DB(rows, meta) && this.reg == reg
    {
      this.reg, this.rows, this.table, this.meta := reg, rows, table, meta;
    }

    method SumDaily(key: string, first: int, last: int) returns (sum: int)
      ensures sum == Sum(rows, key, first, last)
    {
      sum := Sum(rows, key, first, last);
    }

    /** The oldest daily row. */
    method FirstDailyDay() returns (first: Option<int>)
      ensures Oldest(rows, first)
    {
      first := None;
      var todo := rows.Keys;
      while todo != {}
        invariant todo <= rows.Keys
        invariant forall c :: c in rows && c !in todo && c.level == Daily ==> first.Some? && first.value <= c.period
        invariant first.Some? ==> exists c :: c in rows && c.level == Daily && c.period == first.value
        decreases todo
      {
        var c :| c in todo;
        if c.level == Daily && (first.None? || c.period < first.value) {
          first := Some(c.period);
        }
        todo := todo - {c};
      }
    }

    /** One row, freeze marks ignored; the offset of the row is dropped. */
    method PutPeriod(l: Level, key: string, k: int, v: int) returns (ok: bool)
      requires Valid() && SomeRange(l, k)
      modifies this
      ensures Valid() && ok == InDomain(reg, l, key)
      ensures ok ==> State() == DB(old(rows)[Cell(l, key, k) := v],
                                   old(meta).(offsets := old(meta).offsets - {Cell(l, key, k)}))
      ensures !ok ==> State() == old(State())
    {
      if key !in reg.byKey || !InDomain(reg, l, key) {
        return false;
      }
      var c := Cell(l, key, k);
      if c in meta.offsets {
        DeleteAgrees(table, meta, c);
        table, meta := table - {Name(OffsetSlot(c))}, meta.(offsets := meta.offsets - {c});
      }
      assert meta.offsets == old(meta).offsets - {c};
      rows := rows[c := v];
      ok := true;
    }

    /** Replaces baseline values; the baseline year stays. */
    method PutBaseline(vals: Values)
      requires Valid()
      modifies this
      ensures Valid()
      ensures State() == DB(old(rows), old(meta).(baseline := old(meta).baseline + vals))
    {
      var todo, next, tab := vals.Keys, meta, table;
      tab, next := WriteBaseline(table, meta, vals);
      table, meta := tab, next;
    }

    /** One bounded sum per source. */
    method Sums(sources: set<string>, first: int, last: int) returns (sums: Values)
      ensures sums == StoredSums(rows, sources, first, last)
    {
      sums := map[];
      var todo := sources;
      while todo != {}
        invariant todo <= sources
        invariant sums == StoredSums(rows, sources - todo, first, last)
        decreases todo
      {
        var k :| k in todo;
        var v := SumDaily(k, first, last);
        assert sources - (todo - {k}) == sources - todo + {k};
        sums := sums[k := v];
        todo := todo - {k};
      }
      assert sources - {} == sources;
    }

    /** Every row of one month or year, unless its daily rows do not
        reach back to its start. */
    method RecomputePeriod(l: Level, k: nat, today: int, first: Option<int>)
      requires Valid() && reg.Valid() && SomeRange(l, k)
      requires Oldest(rows, first)
      modifies this
      ensures Valid() && Oldest(rows, first)
      ensures State() == BackfillPeriod(reg, old(State()), l, k, today)
    {
      if first.None? || PeriodFirst(l, k) < first.value {
        return;
      }
      var vals := PeriodValues(l, k, today);
      forall v | v in vals
        ensures InDomain(reg, l, v)
      {
        BackfillInDomain(reg, rows, l, k, today, v);
      }
      PutKeepsOldest(State(), l, k, vals, first);
      PutAll(l, k, vals);
    }

    /** The year's months up to the current one, then the year; a year before the year 1 has
        no key before its first month, and fails before anything is written. */
    method RecomputeYear(y: int, now: Period, first: Option<int>) returns (ok: bool)
      requires Valid() && reg.Valid() && Oldest(rows, first) && now.Valid() && y <= now.year
      modifies this
      ensures Valid() && Oldest(rows, first) && (ok <==> y >= 1)
      ensures State() == if ok then BackfillYear(reg, old(State()), y, now) else old(State())
    {
      if y < 1 {
        return false;
      }
      MonthWithinYear(now, y);
      RecomputeMonths(12 * y, Min(12 * y + 11, now.month), now, first);
      PeriodInRange(now);
      RecomputePeriod(Yearly, y, now.day, first);
      ok := true;
    }

    /** The months lo..through, oldest first. */
    method RecomputeMonths(lo: nat, through: nat, now: Period, first: Option<int>)
      requires Valid() && reg.Valid() && Oldest(rows, first) && now.Valid() && 1 <= lo <= through <= now.month
      modifies this
      ensures Valid() && Oldest(rows, first)
      ensures State() == BackfillMonths(reg, old(State()), lo, through, now.day)
    {
      PeriodInRange(now);
      ghost var start := State();
      var months := MonthsOf(lo, through);
      NoMonthsYet(reg, start, lo, now.day);
      for i := 0 to |months|
        invariant Valid() && Oldest(rows, first)
        invariant MonthsDone(reg, start, lo, lo + i, now.day, State())
      {
        RecomputeMonth(months[i], now.day, first, start, lo);
      }
    }

    method RecomputeMonth(k: nat, today: int, first: Option<int>, ghost start: DB, ghost lo: nat)
      requires Valid() && reg.Valid() && SomeRange(Monthly, k) && Oldest(rows, first)
      requires MonthsDone(reg, start, lo, k, today, State())
      modifies this
      ensures Valid() && Oldest(rows, first)
      ensures MonthsDone(reg, start, lo, k + 1, today, State())
    {
      ghost var before := State();
      RecomputePeriod(Monthly, k, today, first);
      OneMoreMonth(reg, start, lo, k, today, before, State());
    }

    /** The current year and `years` closed ones, oldest first. */
    method RecomputeYears(now: Period, years: nat, first: Option<int>) returns (ok: bool)
      requires Valid() && reg.Valid() && Oldest(rows, first) && now.Valid()
      modifies this
      ensures Valid() && (ok <==> years < now.year)
      ensures State() == if ok then BackfillYears(reg, old(State()), now.year - years, now.year, now) else old(State())
    {
      ghost var start := State();
      var back: int := years;
      NoYearsYet(reg, start, now, years);
      while back >= 0
        invariant NONE <= back <= years && Valid() && Oldest(rows, first)
        invariant YearsDone(reg, start, now, years, now.year - back, State())
      {
        ok := NextYear(now, years, now.year - back, first, start);
        if !ok {
          return;
        }
        back := back - 1;
      }
      ok := true;
    }

    /** One year of the job. */
    method NextYear(now: Period, ghost years: nat, y: int, first: Option<int>, ghost start: DB) returns (ok: bool)
      requires Valid() && reg.Valid() && Oldest(rows, first) && now.Valid() && y <= now.year
      requires YearsDone(reg, start, now, years, y, State())
      modifies this
      ensures Valid() && Oldest(rows, first)
      ensures if ok then YearsDone(reg, start, now, years, y + 1, State()) else years >= now.year && State() == start
    {
      ghost var before := State();
      ok := RecomputeYear(y, now, first);
      if ok {
        OneMoreYear(reg, start, now, years, y, before, State());
      } else {
        NoSuchYear(reg, start, now, years, y, before);
      }
    }

    /** Whether the oldest year, or the baseline range of a job that touches a closed year,
        starts before the purge mark. */
    method CheckPurged(now: Period, years: nat) returns (refused: bool)
      ensures refused == Refuses(meta, now, years)
    {
      var purged := meta.purgedBefore;
      if purged == NONE {
        return false;
      }
      if years > now.year || YearFirst(now.year - years) < purged {
        return true;
      }
      if years == 0 {
        return false;
      }
      var start := BaselineFrom();
      refused := start.Some? && start.value < purged;
    }

    /** The first day of the baseline range: 1 January of the cutover year, once a year since
        then has been folded. */
    method BaselineFrom() returns (start: Option<nat>)
      ensures start.Some? <==> BaselineRefreshable(meta)
      ensures start.Some? ==> start.value == YearFirst(YearOf(meta.cutover))
    {
      if meta.baselineYear < 0 || meta.cutover < 0 || meta.baselineYear < YearOf(meta.cutover) {
        return None;
      }
      start := Some(YearFirst(YearOf(meta.cutover)));
    }

    /** Replaces the baseline by one range sum over every folded year since the cutover year. */
    method RefreshBaseline()
      requires Valid()
      modifies this
      ensures Valid()
      ensures var m := old(meta);
        State() == if BaselineRefreshable(m)
                   then DB(old(rows), m.(baseline := m.baseline + RefreshedBaseline(reg, old(rows), m)))
                   else old(State())
    {
      var start := BaselineFrom();
      if start.None? {
        return;
      }
      var edges := reg.EdgesAt(Total);
      var sums := Sums(Sources(edges), start.value, YearLast(meta.baselineYear));
      var next := ComputeEdges(edges, sums);
      PutBaseline(next);
    }

    /** The whole job: refused before anything is read, failed before anything is written, or
        done. */
    method Recompute(now: Period, years: nat) returns (outcome: Outcome)
      requires Valid() && reg.Valid() && now.Valid()
      modifies this
      ensures Valid() && outcome == OutcomeOf(old(meta), now, years)
      ensures outcome == Done ==> State() == ApplyBackfill(reg, old(State()), now, years)
      ensures outcome != Done ==> State() == old(State())
    {
      var refused := CheckPurged(now, years);
      if refused {
        return PurgedHistory;
      }
      var ok := Rewrite(now, years);
      outcome := if ok then Done else KeyFailure;
    }

    /** The years, then the baseline when a closed year was touched. */
    method Rewrite(now: Period, years: nat) returns (ok: bool)
      requires Valid() && reg.Valid() && now.Valid() && !Refuses(meta, now, years)
      modifies this
      ensures Valid() && (ok <==> years < now.year)
      ensures State() == if ok then ApplyBackfill(reg, old(State()), now, years) else old(State())
    {
      var first := FirstDailyDay();
      ok := RecomputeYears(now, years, first);
      if ok && years > 0 {
        RefreshBaseline();
      }
    }

    method PeriodValues(l: Level, k: nat, today: int) returns (vals: Values)
      ensures vals == BackfillValues(reg, rows, l, k, today)
    {
      var edges := reg.EdgesAt(l);
      var sums := Sums(Sources(edges), PeriodFirst(l, k), Min(PeriodLast(l, k), today));
      vals := ComputeEdges(edges, sums);
      var net := ComputeNet(reg.NetsAt(l), vals);
      vals := vals + net;
    }

    method PutNext(l: Level, k: nat, vals: Values, key: string, ghost start: DB, ghost done: set<string>)
      returns (put: bool)
      requires Valid() && SomeRange(l, k) && key in vals
      requires State() == PutPeriods(start, l, k, Taken(vals, done))
      modifies this
      ensures Valid() && put == InDomain(reg, l, key)
      ensures put ==> State() == PutPeriods(start, l, k, Taken(vals, done + {key}))
    {
      PutOneMore(start, l, k, vals, done, key);
      put := PutPeriod(l, key, k, vals[key]);
    }

    /** Every value lies in the aggregator's domain, so no row is refused. */
    method PutAll(l: Level, k: nat, vals: Values)
      requires Valid() && SomeRange(l, k) && forall v :: v in vals ==> InDomain(reg, l, v)
      modifies this
      ensures Valid() && State() == PutPeriods(old(State()), l, k, vals)
    {
      ghost var start := State();
      ghost var done: set<string> := {};
      var todo := vals.Keys;
      PutNothing(start, l, k, vals);
      while todo != {}
        invariant Valid() && todo <= vals.Keys <= done + todo
        invariant State() == PutPeriods(start, l, k, Taken(vals, done))
        decreases |todo|
      {
        var key :| key in todo;
        assert InDomain(reg, l, key);
        var put := PutNext(l, k, vals, key, start, done);
        done, todo := done + {key}, todo - {key};
      }
      TakenAll(vals, done);
    }
  }

  lemma TakenAll(vals: Values, done: set<string>)
    requires vals.Keys <= done
    ensures Taken(vals, done) == vals
  {
  }

  lemma BaselineOneMore(base: Values, vals: Values, todo: set<string>, k: string)
    requires k in todo && todo <= vals.Keys
    ensures base + Taken(vals, vals.Keys - (todo - {k})) == (base + Taken(vals, vals.Keys - todo))[k := vals[k]]
  {
  }

  lemma BaselineNone(base: Values, vals: Values)
    ensures base + Taken(vals, vals.Keys - vals.Keys) == base
  {
  }

  method WriteBaseline(t: Table, m: Meta, vals: Values) returns (t': Table, m': Meta)
    requires Agrees(t, m) && Sane(m)
    ensures Agrees(t', m') && Sane(m') && m' == m.(baseline := m.baseline + vals)
  {
    t', m' := t, m;
    var todo := vals.Keys;
    BaselineNone(m.baseline, vals);
    while todo != {}
      invariant todo <= vals.Keys && Agrees(t', m') && Sane(m')
      invariant m' == m.(baseline := m.baseline + Taken(vals, vals.Keys - todo))
      decreases todo
    {
      var k :| k in todo;
      Transactions.BaselineAgrees(t', m', k, vals[k]);
      BaselineOneMore(m.baseline, vals, todo, k);
      t', m' := t'[Name(BaselineSlot(k)) := vals[k]], m'.(baseline := m'.baseline[k := vals[k]]);
      todo := todo - {k};
    }
    assert Taken(vals, vals.Keys - {}) == vals;
  }

  /** The job: all of it in one transaction, or nothing. */
  method RunBackfill(st: Storage.Store, now: Period, years: nat, commits: bool) returns (r: Tx<bool>)
    requires st.Valid() && st.reg.Valid() && now.Valid()
    modifies st
    ensures st.Valid()
    ensures r.Committed? <==> commits && OutcomeOf(old(st.meta), now, years) == Done
    ensures r.Committed? ==>
      years < now.year && st.State() == ApplyBackfill(st.reg, old(st.State()), now, years)
    ensures r.RolledBack? ==> st.State() == old(st.State()) && st.table == old(st.table)
  {
    var tx := new BackfillTx(st.reg, st.rows, st.table, st.meta);
    var outcome := tx.Recompute(now, years);
    if outcome != Done || !commits {
      return RolledBack;
    }
    st.rows, st.table, st.meta := tx.rows, tx.table, tx.meta;
    r := Committed(true);
  }
}
