/** The store (internal/storage): rows, the meta table and its copy in memory. A
    transaction takes effect as a whole when it commits, and not at all otherwise. */
module Storage {
  import opened Calendar
  import opened Registers
  import opened Energy
  import opened Plan
  import opened Ledger
  import opened MetaTable
  import opened Transactions
  import opened Cutover
  import opened PollStep

  // ---- the first open day ----

  /** The day after a marked period; NONE without a mark. */
  function DayAfter(mark: (Level, int)): int {
    if mark.1 < 0 then NONE else PeriodFirst(mark.0, mark.1 + 1)
  }

  ghost predicate LeastDay(marks: seq<(Level, int)>, n: nat, first: int)
    requires n <= |marks|
  {
    && (forall j :: 0 <= j < n ==> first <= DayAfter(marks[j]))
    && exists j :: 0 <= j < n && first == DayAfter(marks[j])
  }

  lemma LeastDayOneMore(marks: seq<(Level, int)>, n: nat, first: int)
    requires n < |marks| && (n > 0 ==> LeastDay(marks, n, first))
    ensures LeastDay(marks, n + 1, if n == 0 || DayAfter(marks[n]) < first then DayAfter(marks[n]) else first)
  {
  }

  lemma LeastIsFirstOpen(m: Meta, marks: seq<(Level, int)>, first: int)
    requires marks == [(Daily, m.Frozen(Daily)), (Monthly, m.Frozen(Monthly)),
                       (Yearly, m.Frozen(Yearly)), (Yearly, m.baselineYear)]
    requires LeastDay(marks, 4, first) && forall j :: 0 <= j < 4 ==> marks[j].1 >= 0
    ensures first == FirstOpenDay(m)
  {
    var a, b, c, d := DayAfter(marks[0]), DayAfter(marks[1]), DayAfter(marks[2]), DayAfter(marks[3]);
    assert marks[0].1 >= 0 && marks[1].1 >= 0 && marks[2].1 >= 0 && marks[3].1 >= 0;
    LeastOfFour(marks, first, a, b, c, d);
  }

  lemma LeastOfFour(marks: seq<(Level, int)>, first: int, a: int, b: int, c: int, d: int)
    requires |marks| == 4 && LeastDay(marks, 4, first)
    requires a == DayAfter(marks[0]) && b == DayAfter(marks[1]) && c == DayAfter(marks[2]) && d == DayAfter(marks[3])
    ensures first == Min(Min(a, b), Min(c, d))
  {
  }

  class Store {
    const reg: Registry
    var rows: Rows
    var table: Table
    var meta: Meta
    var statuses: StatusLog

    ghost predicate Valid()
      reads this
    {
      Agrees(table, meta) && Sane(meta) && InRange(meta)
    }

    function State(): DB
      reads this
    {
      DB(rows, meta)
    }

    /** Opening a database whose meta table has been loaded. */
    constructor (reg: Registry, rows: Rows, table: Table, meta: Meta)
      requires Agrees(table, meta) && Sane(meta) && InRange(meta)
      ensures Valid() && State() == DB(rows, meta) && this.reg == reg && this.table == table
    {
      this.reg, this.rows, this.table, this.meta, this.statuses := reg, rows, table, meta, map[];
    }

    /** One poll: max-writes, status changes, closes. Rejected rows are reported, the rest
        commits. */
    method WritePoll(rs: seq<DailyRow>, ss: seq<StatusRow>, cs: seq<DayClose>, commits: bool)
      returns (r: Tx<seq<Rejection>>)
      requires Valid()
      modifies this
      ensures Valid()
      ensures commits ==>
        && State() == ApplyPoll(reg, old(State()), rs, cs)
        && statuses == Logged(reg, old(statuses), ss)
        && r == Committed(DailyRejections(reg, old(meta), rs) + StatusRejections(reg, ss) + CloseRejections(reg, cs))
      ensures !commits ==>
        r == RolledBack && State() == old(State()) && table == old(table) && statuses == old(statuses)
    {
      var out, daily := ApplyDailies(reg, meta, rows, rs);
      var log, changes := ApplyStatuses(reg, statuses, ss);
      var tab, next, closes := ApplyCloses(reg, table, meta, cs);
      CloseDaysGrow(reg, meta, cs);
      if !commits {
        return RolledBack;
      }
      rows, table, meta, statuses := out, tab, next, log;
      r := Committed(daily + changes + closes);
    }

    /** One aggregator run: rows, then freezes, then folds. */
    method WriteComputed(rs: seq<PeriodRow>, freezes: seq<Freeze>, folds: seq<BaselineFold>, commits: bool)
      returns (r: Tx<seq<Rejection>>)
      requires Valid() && forall f :: f in freezes ==> FreezeInRange(f)
      modifies this
      ensures Valid()
      ensures commits ==>
        && State() == DB(ApplyRows(reg, old(meta), old(rows), rs),
                         ApplyFolds(ApplyFreezes(old(meta), freezes), folds))
        && r == Committed(ComputedRejections(reg, old(meta), rs))
      ensures !commits ==> r == RolledBack && State() == old(State()) && table == old(table)
    {
      var out, rejected := ApplyComputedRows(reg, meta, rows, rs);
      var tab, next := FreezePeriods(table, meta, freezes);
      tab, next := FoldYears(tab, next, folds);
      FreezesStayInRange(meta, freezes);
      FoldsKeepMarks(ApplyFreezes(meta, freezes), folds);
      if !commits {
        return RolledBack;
      }
      rows, table, meta := out, tab, next;
      r := Committed(rejected);
    }

    /** The minimum over the four marks; NONE as soon as one is not set. */
    method EarliestOpenDay() returns (first: int)
      requires Valid()
      ensures first == FirstOpenDay(meta)
    {
      var marks := [(Daily, meta.Frozen(Daily)), (Monthly, meta.Frozen(Monthly)),
                    (Yearly, meta.Frozen(Yearly)), (Yearly, meta.baselineYear)];
      first := NONE;
      for i := 0 to |marks|
        invariant forall j :: 0 <= j < i ==> marks[j].1 >= 0
        invariant i > 0 ==> LeastDay(marks, i, first)
      {
        if marks[i].1 == NONE {
          return NONE;
        }
        var day := DayAfter(marks[i]);
        LeastDayOneMore(marks, i, first);
        if i == 0 || day < first {
          first := day;
        }
      }
      LeastIsFirstOpen(meta, marks, first);
    }

    /** Retention: deletes rows before the earlier of `wanted` and the first open day, and
        records the cutoff when daily rows were lost. */
    method CleanupPeriods(wanted: nat, commits: bool) returns (deleted: nat)
      requires Valid()
      modifies this
      ensures Valid()
      ensures commits ==> State() == ApplyCleanup(old(State()), wanted)
      ensures !commits ==> State() == old(State()) && table == old(table)
      ensures deleted == |old(rows)| - |rows|
    {
      var limit := EarliestOpenDay();
      if limit == NONE {
        return 0;
      }
      var cutoff := Min(wanted, limit);
      if cutoff <= meta.purgedBefore {
        return 0;
      }
      var kept, daily := PurgePeriods(rows, cutoff);
      if !commits {
        return 0;
      }
      deleted := |rows| - |kept|;
      rows := kept;
      if daily > 0 {
        PurgedAgrees(table, meta, cutoff);
        table, meta := table[Name(PurgedSlot) := cutoff], meta.(purgedBefore := cutoff);
      }
    }

    /** The lowest closed day, NONE as soon as one key has closed nothing. */
    method ClosedThrough() returns (low: int)
      requires Valid()
      ensures low == meta.LowestClosed(reg.dailyKeys)
    {
      low := LowestMark(meta, reg.dailyKeys);
    }

    /** The sum of one key's daily rows over a range. */
    method SumDaily(key: string, first: int, last: int) returns (sum: int)
      ensures sum == Sum(rows, key, first, last)
    {
      sum := Sum(rows, key, first, last);
    }

    /** The first start writes the cutover; every later one finds it. */
    method EnsureCutover(p: Period, commits: bool) returns (r: Tx<(int, bool)>)
      requires Valid() && reg.Valid() && p.Valid()
      modifies this
      ensures Valid()
      ensures r.Committed? <==>
        old(meta).cutover != NONE || (commits && !CutoverFails(FrozenAtCutover(old(meta), p), p))
      ensures r.Committed? ==>
        && State() == ApplyCutover(reg, old(State()), p)
        && r.value == (meta.cutover, old(meta).cutover == NONE)
      ensures r.RolledBack? ==> State() == old(State()) && table == old(table)
    {
      if meta.cutover != NONE {
        return Committed((meta.cutover, false));
      }
      var next := WriteCutover(reg, rows, p, table, meta);
      if next.None? || !commits {
        return RolledBack;
      }
      CutoverMarksInRange(p);
      table, meta := next.value.0, next.value.1;
      r := Committed((p.day, true));
    }
  }

  predicate FreezeInRange(f: Freeze) {
    && f.level != Total
    && (f.level == Monthly ==> f.period < Months.Limit())
    && (f.level == Yearly ==> f.period < Years.Limit())
  }

  lemma {:induction false} FreezesStayInRange(m: Meta, fs: seq<Freeze>)
    requires InRange(m) && forall f :: f in fs ==> FreezeInRange(f)
    ensures InRange(ApplyFreezes(m, fs))
  {
    if fs != [] {
      var n := |fs| - 1;
      FreezesStayInRange(m, fs[..n]);
      assert fs[n] in fs;
    }
  }

  lemma {:induction false} FoldsKeepMarks(m: Meta, folds: seq<BaselineFold>)
    ensures ApplyFolds(m, folds).frozen == m.frozen
  {
    if folds != [] {
      FoldsKeepMarks(m, folds[..|folds| - 1]);
    }
  }
}
