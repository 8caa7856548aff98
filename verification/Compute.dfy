/** One aggregator run (internal/aggregator/compute.go): capture the state, read sums from
    the store one by one, and write the outcome in one transaction. What each sum returned
    is a parameter, because polls and cleanups run between the reads. */
module Compute {
  import opened Calendar
  import opened Registers
  import opened Energy
  import opened Plan
  import opened Ledger
  import opened Transactions
  import opened Cutover
  import opened Storage

  // ---- rows in map order, and batches ----

  /** The rows are the values of the batch, in any order. */
  ghost predicate Enumerates(rs: seq<PeriodRow>, b: Batch) {
    && (forall i :: 0 <= i < |rs| ==>
          && rs[i].level == b.level && rs[i].period == b.period
          && rs[i].key in b.vals && rs[i].value == b.vals[rs[i].key])
    && (forall k :: k in b.vals ==> k in RowKeys(rs))
  }

  function RowKeys(rs: seq<PeriodRow>): set<string> {
    set r | r in rs :: r.key
  }

  function Flat(segs: seq<seq<PeriodRow>>): seq<PeriodRow> {
    if segs == [] then [] else Flat(segs[..|segs| - 1]) + segs[|segs| - 1]
  }

  /** The rows list the batches one after the other, each in any order. */
  ghost predicate Lists(segs: seq<seq<PeriodRow>>, bs: seq<Batch>) {
    |segs| == |bs| && forall i {:trigger segs[i]} :: 0 <= i < |segs| ==> Enumerates(segs[i], bs[i])
  }

  lemma ListsMore(segs: seq<seq<PeriodRow>>, bs: seq<Batch>, seg: seq<PeriodRow>, b: Batch)
    requires Lists(segs, bs) && Enumerates(seg, b)
    ensures Lists(segs + [seg], bs + [b])
  {
  }

  lemma FlatMore(segs: seq<seq<PeriodRow>>, seg: seq<PeriodRow>)
    ensures Flat(segs + [seg]) == Flat(segs) + seg
  {
    assert (segs + [seg])[..|segs|] == segs;
  }

  function Kept(vals: Values, keys: set<string>): Values {
    map k | k in vals && k in keys :: vals[k]
  }

  lemma {:induction false} SegmentApplied(reg: Registry, m: Meta, rows: Rows, seg: seq<PeriodRow>, b: Batch)
    requires forall i :: 0 <= i < |seg| ==>
      && seg[i].level == b.level && seg[i].period == b.period
      && seg[i].key in b.vals && seg[i].value == b.vals[seg[i].key]
    ensures ApplyRows(reg, m, rows, seg) == ApplyBatch(reg, m, rows, b.(vals := Kept(b.vals, RowKeys(seg))))
  {
    if seg == [] {
      NothingKept(reg, m, rows, b);
    } else {
      var n := |seg| - 1;
      SegmentApplied(reg, m, rows, seg[..n], b);
      KeysOneMore(seg[..n], seg[n], seg);
      BatchOneMore(reg, m, rows, b, RowKeys(seg[..n]), seg[n].key);
    }
  }

  lemma NothingKept(reg: Registry, m: Meta, rows: Rows, b: Batch)
    ensures ApplyBatch(reg, m, rows, b.(vals := Kept(b.vals, RowKeys([])))) == rows
  {
    assert Kept(b.vals, RowKeys([])) == map[];
    assert ApplyBatch(reg, m, rows, b.(vals := map[])) == rows;
  }

  lemma KeysOneMore(before: seq<PeriodRow>, r: PeriodRow, seg: seq<PeriodRow>)
    requires seg == before + [r]
    ensures RowKeys(seg) == RowKeys(before) + {r.key}
  {
  }

  lemma BatchOneMore(reg: Registry, m: Meta, rows: Rows, b: Batch, keys: set<string>, key: string)
    requires key in b.vals
    ensures var before := ApplyBatch(reg, m, rows, b.(vals := Kept(b.vals, keys)));
      ApplyBatch(reg, m, rows, b.(vals := Kept(b.vals, keys + {key})))
        == if ComputedAccepted(reg, m, b.level, key, b.period)
           then before[Cell(b.level, key, b.period) := b.vals[key]] else before
  {
    AcceptedOneMore(reg, m, b, keys, key);
    RowsOneMore(rows, AcceptedValues(reg, m, b.(vals := Kept(b.vals, keys))), Cell(b.level, key, b.period),
      b.vals[key]);
  }

  lemma AcceptedOneMore(reg: Registry, m: Meta, b: Batch, keys: set<string>, key: string)
    requires key in b.vals
    ensures var before := AcceptedValues(reg, m, b.(vals := Kept(b.vals, keys)));
      AcceptedValues(reg, m, b.(vals := Kept(b.vals, keys + {key})))
        == if ComputedAccepted(reg, m, b.level, key, b.period)
           then before[Cell(b.level, key, b.period) := b.vals[key]] else before
  {
  }

  lemma EnumeratedApply(reg: Registry, m: Meta, rows: Rows, seg: seq<PeriodRow>, b: Batch)
    requires Enumerates(seg, b)
    ensures ApplyRows(reg, m, rows, seg) == ApplyBatch(reg, m, rows, b)
  {
    SegmentApplied(reg, m, rows, seg, b);
    assert Kept(b.vals, RowKeys(seg)) == b.vals;
  }

  lemma ListedStep(reg: Registry, m: Meta, rows: Rows, a: seq<PeriodRow>, seg: seq<PeriodRow>,
    all: seq<PeriodRow>, before: Rows, b: Batch)
    requires ApplyRows(reg, m, rows, a) == before && Enumerates(seg, b) && all == a + seg
    ensures ApplyRows(reg, m, rows, all) == ApplyBatch(reg, m, before, b)
  {
    EnumeratedApply(reg, m, before, seg, b);
    RowsConcat(reg, m, rows, a, seg);
  }

  lemma {:induction false} RowsConcat(reg: Registry, m: Meta, rows: Rows, a: seq<PeriodRow>, b: seq<PeriodRow>)
    ensures ApplyRows(reg, m, rows, a + b) == ApplyRows(reg, m, ApplyRows(reg, m, rows, a), b)
    decreases |b|
  {
    if b == [] {
      assert a + b == a;
    } else {
      var n := |b| - 1;
      RowsConcat(reg, m, rows, a, b[..n]);
      assert (a + b)[..|a + b| - 1] == a + b[..n];
    }
  }

  /** Whatever order the values of each period are written in, the store ends up the same. */
  lemma {:induction false} ListedRowsApply(
    reg: Registry, m: Meta, rows: Rows, segs: seq<seq<PeriodRow>>, bs: seq<Batch>)
    requires Lists(segs, bs)
    ensures ApplyRows(reg, m, rows, Flat(segs)) == ApplyBatches(reg, m, rows, bs)
    decreases |bs|
  {
    if bs != [] {
      var k := |bs| - 1;
      ListedRowsApply(reg, m, rows, segs[..k], bs[..k]);
      ListedStep(reg, m, rows, Flat(segs[..k]), segs[k], Flat(segs), ApplyBatches(reg, m, rows, bs[..k]), bs[k]);
    }
  }

  // ---- the run ----

  class RunState {
    const reg: Registry
    const p: Period
    const offsets: map<Cell, int>
    /** What the store answers to each sum, whenever it is asked. */
    const feed: Reads
    var asked: set<Query>
    var rows: seq<PeriodRow>
    var freezes: seq<Freeze>
    var folds: seq<BaselineFold>
    var base: Values
    var baseYr: int
    /** The periods collected so far, and the rows of each. */
    ghost var jobs: seq<Job>
    ghost var segs: seq<seq<PeriodRow>>

    ghost predicate Valid()
      reads this`rows, this`jobs, this`segs
    {
      rows == Flat(segs) && |segs| == |jobs| && forall i :: 0 <= i < |segs| ==> HasRows(i)
    }

    ghost predicate HasRows(i: nat)
      reads this`jobs, this`segs
    {
      && i < |segs| && i < |jobs|
      && Enumerates(segs[i], Batch(jobs[i].level, jobs[i].key, JobValues(reg, jobs[i], offsets, feed)))
    }

    constructor (reg: Registry, p: Period, st: Meta, feed: Reads)
      ensures Valid() && this.reg == reg && this.p == p && this.feed == feed && offsets == st.offsets
      ensures asked == {} && jobs == [] && freezes == [] && folds == []
      ensures base == st.baseline && baseYr == st.baselineYear
    {
      this.reg, this.p, this.feed, this.offsets := reg, p, feed, st.offsets;
      asked, rows, freezes, folds, jobs, segs := {}, [], [], [], [], [];
      base, baseYr := st.baseline, st.baselineYear;
    }

    method SumDaily(q: Query) returns (v: int)
      modifies this`asked
      ensures v == Read(feed, q) && asked == old(asked) + {q}
    {
      asked := asked + {q};
      v := if q in feed then feed[q] else 0;
    }

    /** One sum per source key over the job's days. */
    method Sums(sources: set<string>, j: Job) returns (sums: Values)
      modifies this`asked
      ensures sums == SumsOf(sources, j, feed)
      ensures asked == old(asked) + JobQueries([j], sources)
    {
      sums := map[];
      var todo := sources;
      ghost var done: set<string> := {};
      while todo != {}
        invariant done + todo == sources
        invariant sums == SumsOf(done, j, feed)
        invariant asked == old(asked) + JobQueries([j], done)
        decreases |todo|
      {
        var k :| k in todo;
        var v := SumDaily(JobQuery(j, k));
        QueriesOneMore(j, done, k);
        sums := sums[k := v];
        done, todo := done + {k}, todo - {k};
      }
      assert done == sources;
    }

    /** Rows in map order, and the freeze. */
    method Collect(j: Job, vals: Values) returns (ghost seg: seq<PeriodRow>)
      modifies this`rows, this`freezes
      ensures rows == old(rows) + seg && Enumerates(seg, Batch(j.level, j.key, vals))
      ensures freezes == old(freezes) + if j.freeze then [Freeze(j.level, j.key)] else []
    {
      var out := RowsOf(j, vals);
      rows, seg := rows + out, out;
      if j.freeze {
        freezes := freezes + [Freeze(j.level, j.key)];
      }
    }

    method CollectPeriod(j: Job, vals: Values)
      requires Valid() && vals == JobValues(reg, j, offsets, feed)
      modifies this`rows, this`freezes, this`jobs, this`segs
      ensures Valid() && jobs == old(jobs) + [j]
      ensures freezes == old(freezes) + if j.freeze then [Freeze(j.level, j.key)] else []
    {
      ghost var seg := Collect(j, vals);
      FlatMore(segs, seg);
      ghost var n := |segs|;
      jobs, segs := jobs + [j], segs + [seg];
      assert forall i :: 0 <= i < n ==> old(HasRows(i)) ==> HasRows(i);
      assert HasRows(n);
    }

    /** What the jobs of one level leave behind. */
    ghost predicate Ran(js: seq<Job>, sources: set<string>, before: seq<Job>, f: seq<Freeze>, a: set<Query>)
      reads this`jobs, this`freezes, this`asked
    {
      && jobs == before + js
      && freezes == f + JobFreezes(js)
      && asked == a + JobQueries(js, sources)
    }

    /** One more job of the list has been collected. */
    lemma OneMoreRan(js: seq<Job>, i: nat, sources: set<string>, before: seq<Job>, f: seq<Freeze>, a: set<Query>)
      requires i < |js| && jobs == before + js[..i] + [js[i]]
      requires freezes == f + JobFreezes(js[..i]) + (if js[i].freeze then [Freeze(js[i].level, js[i].key)] else [])
      requires asked == a + JobQueries(js[..i], sources) + JobQueries([js[i]], sources)
      ensures Ran(js[..i + 1], sources, before, f, a)
    {
      assert js[..i + 1] == js[..i] + [js[i]];
      FreezesMore(js, i);
      QueriesOfMore(js, i, sources);
    }

    /** One net row per open day. */
    method NetDays(js: seq<Job>)
      requires Valid() && forall i :: 0 <= i < |js| ==> js[i].level == Daily
      modifies this`asked, this`rows, this`freezes, this`jobs, this`segs
      ensures Valid() && Ran(js, NetSources(reg.NetsAt(Daily)), old(jobs), old(freezes), old(asked))
    {
      ghost var before, f, a := jobs, freezes, asked;
      var pairs := reg.NetsAt(Daily);
      for i := 0 to |js|
        invariant Valid() && Ran(js[..i], NetSources(pairs), before, f, a)
      {
        var sums := Sums(NetSources(pairs), js[i]);
        var vals := ComputeNet(pairs, sums);
        CollectPeriod(js[i], vals);
        OneMoreRan(js, i, NetSources(pairs), before, f, a);
      }
      assert js[..|js|] == js;
    }

    /** Edge sums plus the offsets of this period, and their net values. */
    method LevelRun(j: Job, l: Level) returns (vals: Values, sums: Values)
      requires j.level == l && l != Daily
      modifies this`asked
      ensures vals == JobValues(reg, j, offsets, feed)
      ensures sums == SumsOf(Sources(reg.EdgesAt(l)), j, feed)
      ensures asked == old(asked) + JobQueries([j], Sources(reg.EdgesAt(l)))
    {
      var edges := reg.EdgesAt(l);
      sums := Sums(Sources(edges), j);
      vals := ComputeEdges(edges, sums);
      var own := PeriodOffsets(l, j.key, vals, offsets);
      vals := AddOffsets(vals, own);
      var net := ComputeNet(reg.NetsAt(l), vals);
      vals := vals + net;
    }

    /** One month or year: its values are collected, its raw sums returned. */
    method RunNext(l: Level, js: seq<Job>, i: nat, ghost before: seq<Job>, ghost f: seq<Freeze>, ghost a: set<Query>)
      returns (sums: Values)
      requires i < |js| && js[i].level == l && l != Daily
      requires Valid() && Ran(js[..i], Sources(reg.EdgesAt(l)), before, f, a)
      modifies this`asked, this`rows, this`freezes, this`jobs, this`segs
      ensures Valid() && Ran(js[..i + 1], Sources(reg.EdgesAt(l)), before, f, a)
      ensures sums == SumsOf(Sources(reg.EdgesAt(l)), js[i], feed)
    {
      var vals;
      vals, sums := LevelRun(js[i], l);
      CollectPeriod(js[i], vals);
      OneMoreRan(js, i, Sources(reg.EdgesAt(l)), before, f, a);
    }

    method MonthRuns(js: seq<Job>)
      requires Valid() && forall i :: 0 <= i < |js| ==> js[i].level == Monthly
      modifies this`asked, this`rows, this`freezes, this`jobs, this`segs
      ensures Valid() && Ran(js, Sources(reg.EdgesAt(Monthly)), old(jobs), old(freezes), old(asked))
    {
      ghost var before, f, a := jobs, freezes, asked;
      for i := 0 to |js|
        invariant Valid() && Ran(js[..i], Sources(reg.EdgesAt(Monthly)), before, f, a)
      {
        var _ := RunNext(Monthly, js, i, before, f, a);
      }
      assert js[..|js|] == js;
    }

    /** A fully closed year after the baseline year also folds into the baseline. */
    method FoldIfClosed(j: Job, sums: Values)
      requires j.level == Yearly && sums == SumsOf(Sources(reg.EdgesAt(Yearly)), j, feed)
      modifies this`folds, this`base, this`baseYr
      ensures var due := j.freeze && j.key > old(baseYr);
        && folds == old(folds) + (if due then [BaselineFold(j.key, YearAdd(reg, j, feed))] else [])
        && base == (if due then Folded(old(base), YearAdd(reg, j, feed)) else old(base))
        && baseYr == (if due then j.key else old(baseYr))
    {
      if j.freeze && j.key > baseYr {
        var add := ComputeEdges(reg.EdgesAt(Total), sums);
        folds := folds + [BaselineFold(j.key, add)];
        base := Fold(base, add);
        baseYr := j.key;
      }
    }

    /** What the year jobs fold. */
    ghost predicate FoldedBy(jobs: seq<Job>, baseYear: int, start: Values)
      reads this`folds, this`base, this`baseYr
    {
      && folds == YearFolds(reg, jobs, baseYear, feed)
      && base == FoldedBase(start, folds) && baseYr == FoldedYear(jobs, baseYear)
    }

    method FoldNext(jobs: seq<Job>, i: nat, sums: Values, ghost baseYear: int, ghost start: Values)
      requires i < |jobs| && jobs[i].level == Yearly && FoldedBy(jobs[..i], baseYear, start)
      requires sums == SumsOf(Sources(reg.EdgesAt(Yearly)), jobs[i], feed)
      modifies this`folds, this`base, this`baseYr
      ensures FoldedBy(jobs[..i + 1], baseYear, start)
    {
      FoldsOneMore(reg, jobs, i, baseYear, start, feed);
      FoldIfClosed(jobs[i], sums);
    }

    method YearRuns(js: seq<Job>)
      requires Valid() && folds == [] && forall i :: 0 <= i < |js| ==> js[i].level == Yearly
      modifies this`asked, this`rows, this`freezes, this`jobs, this`segs, this`folds, this`base, this`baseYr
      ensures Valid() && Ran(js, Sources(reg.EdgesAt(Yearly)), old(jobs), old(freezes), old(asked))
      ensures FoldedBy(js, old(baseYr), old(base))
    {
      ghost var before, f, a := jobs, freezes, asked;
      ghost var y, start := baseYr, base;
      for i := 0 to |js|
        invariant Valid() && Ran(js[..i], Sources(reg.EdgesAt(Yearly)), before, f, a)
        invariant FoldedBy(js[..i], y, start)
      {
        YearNext(js, i, before, f, a, y, start);
      }
      assert js[..|js|] == js;
    }

    method YearNext(js: seq<Job>, i: nat, ghost before: seq<Job>, ghost f: seq<Freeze>, ghost a: set<Query>,
      ghost y: int, ghost start: Values)
      requires Valid() && i < |js| && js[i].level == Yearly
      requires Ran(js[..i], Sources(reg.EdgesAt(Yearly)), before, f, a) && FoldedBy(js[..i], y, start)
      modifies this`asked, this`rows, this`freezes, this`jobs, this`segs, this`folds, this`base, this`baseYr
      ensures Valid() && Ran(js[..i + 1], Sources(reg.EdgesAt(Yearly)), before, f, a) && FoldedBy(js[..i + 1], y, start)
    {
      var sums := RunNext(Yearly, js, i, before, f, a);
      FoldNext(js, i, sums, y, start);
    }

    /** The baseline plus the rows since the last folded year. */
    method TotalRun() returns (ghost seg: seq<PeriodRow>)
      requires baseYr >= NONE
      modifies this`asked, this`rows, this`freezes
      ensures rows == old(rows) + seg
      ensures Enumerates(seg, Batch(Total, NONE, TotalValues(reg, p, base, baseYr, feed)))
      ensures freezes == old(freezes)
      ensures asked == old(asked) + JobQueries([TotalJob(p, baseYr)], Sources(reg.EdgesAt(Total)))
    {
      var j := TotalJob(p, baseYr);
      var edges := reg.EdgesAt(Total);
      var since := Sums(Sources(edges), j);
      var vals := ComputeTotals(edges, base, since);
      var net := ComputeNet(reg.NetsAt(Total), vals);
      seg := Collect(j, vals + net);
    }

    /** The days, then the months, then the years of a plan. */
    method RunPeriods(plan: Plan)
      requires Valid() && folds == [] && PlanLevels(plan)
      modifies this
      ensures Valid() && jobs == old(jobs) + plan.days + plan.months + plan.years
      ensures FoldedBy(plan.years, old(baseYr), old(base))
      ensures freezes == old(freezes) + JobFreezes(plan.days) + JobFreezes(plan.months) + JobFreezes(plan.years)
      ensures asked == old(asked) + JobQueries(plan.days, NetSources(reg.NetsAt(Daily)))
        + JobQueries(plan.months, Sources(reg.EdgesAt(Monthly)))
        + JobQueries(plan.years, Sources(reg.EdgesAt(Yearly)))
    {
      NetDays(plan.days);
      MonthRuns(plan.months);
      YearRuns(plan.years);
    }

    lemma ListsPeriods(plan: Plan)
      requires Valid() && jobs == plan.days + plan.months + plan.years
      ensures Lists(segs, PeriodBatches(reg, plan, offsets, feed))
    {
      forall i | 0 <= i < |segs|
        ensures Enumerates(segs[i], PeriodBatches(reg, plan, offsets, feed)[i])
      {
        assert HasRows(i);
        BatchAt(reg, plan, offsets, feed, jobs, i, jobs[i]);
      }
    }

    /** The same on a fresh state: the rows list the batches of the plan, in its order. */
    method ListPeriods(plan: Plan, ghost bs: seq<Batch>)
      requires Valid() && jobs == [] && folds == [] && PlanLevels(plan)
      requires bs == PeriodBatches(reg, plan, offsets, feed)
      modifies this
      ensures rows == Flat(segs) && Lists(segs, bs)
      ensures FoldedBy(plan.years, old(baseYr), old(base))
      ensures freezes == old(freezes) + JobFreezes(plan.days) + JobFreezes(plan.months) + JobFreezes(plan.years)
      ensures asked == old(asked) + JobQueries(plan.days, NetSources(reg.NetsAt(Daily)))
        + JobQueries(plan.months, Sources(reg.EdgesAt(Monthly)))
        + JobQueries(plan.years, Sources(reg.EdgesAt(Yearly)))
    {
      RunPeriods(plan);
      EmptyFirst(plan.days);
      ListsPeriods(plan);
    }

    method TotalAfter(ghost before: seq<seq<PeriodRow>>, ghost bs: seq<Batch>) returns (ghost all: seq<seq<PeriodRow>>)
      requires baseYr >= NONE && rows == Flat(before) && Lists(before, bs)
      modifies this`asked, this`rows, this`freezes
      ensures rows == Flat(all)
      ensures Lists(all, bs + [Batch(Total, NONE, TotalValues(reg, p, base, baseYr, feed))])
      ensures freezes == old(freezes)
      ensures asked == old(asked) + JobQueries([TotalJob(p, baseYr)], Sources(reg.EdgesAt(Total)))
    {
      ghost var seg := TotalRun();
      FlatMore(before, seg);
      ListsMore(before, bs, seg, Batch(Total, NONE, TotalValues(reg, p, base, baseYr, feed)));
      all := before + [seg];
    }
  }

  predicate PlanLevels(plan: Plan) {
    && (forall i :: 0 <= i < |plan.days| ==> plan.days[i].level == Daily)
    && (forall i :: 0 <= i < |plan.months| ==> plan.months[i].level == Monthly)
    && (forall i :: 0 <= i < |plan.years| ==> plan.years[i].level == Yearly)
  }

  lemma FreezesMore(jobs: seq<Job>, i: nat)
    requires i < |jobs|
    ensures JobFreezes(jobs[..i + 1])
         == JobFreezes(jobs[..i]) + if jobs[i].freeze then [Freeze(jobs[i].level, jobs[i].key)] else []
  {
    assert jobs[..i + 1][..i] == jobs[..i];
  }

  lemma FoldsOneMore(reg: Registry, jobs: seq<Job>, i: nat, baseYear: int, base: Values, got: Reads)
    requires i < |jobs|
    ensures var y, folds, j := FoldedYear(jobs[..i], baseYear), YearFolds(reg, jobs[..i], baseYear, got), jobs[i];
      var due := j.freeze && j.key > y;
      var more := folds + (if due then [BaselineFold(j.key, YearAdd(reg, j, got))] else []);
      && YearFolds(reg, jobs[..i + 1], baseYear, got) == more
      && FoldedYear(jobs[..i + 1], baseYear) == (if due then j.key else y)
      && FoldedBase(base, more)
           == (if due then Folded(FoldedBase(base, folds), YearAdd(reg, j, got)) else FoldedBase(base, folds))
  {
    assert jobs[..i + 1][..i] == jobs[..i];
    var folds, j := YearFolds(reg, jobs[..i], baseYear, got), jobs[i];
    if j.freeze && j.key > FoldedYear(jobs[..i], baseYear) {
      assert (folds + [BaselineFold(j.key, YearAdd(reg, j, got))])[..|folds|] == folds;
    } else {
      assert folds + [] == folds;
    }
  }

  lemma QueriesOfMore(jobs: seq<Job>, i: nat, sources: set<string>)
    requires i < |jobs|
    ensures JobQueries(jobs[..i + 1], sources) == JobQueries(jobs[..i], sources) + JobQueries([jobs[i]], sources)
  {
    assert jobs[..i + 1] == jobs[..i] + [jobs[i]];
    forall q
      ensures AskedBy(jobs[..i + 1], sources, q) <==> AskedBy(jobs[..i], sources, q) || AskedBy([jobs[i]], sources, q)
    {
      AskedMore(jobs[..i], jobs[i], jobs[..i + 1], sources, q);
    }
  }

  lemma AskedMore(before: seq<Job>, j: Job, all: seq<Job>, sources: set<string>, q: Query)
    requires all == before + [j]
    ensures AskedBy(all, sources, q) <==> AskedBy(before, sources, q) || AskedBy([j], sources, q)
  {
    if AskedBy(all, sources, q) {
      var x :| x in all && q == JobQuery(x, q.source);
      assert x in before || x in [j];
    }
    if AskedBy(before, sources, q) {
      var x :| x in before && q == JobQuery(x, q.source);
      assert x in all;
    }
    if AskedBy([j], sources, q) {
      assert j in all;
    }
  }

  /** The values as rows, in map order. */
  method RowsOf(j: Job, vals: Values) returns (seg: seq<PeriodRow>)
    ensures Enumerates(seg, Batch(j.level, j.key, vals))
  {
    seg := [];
    var todo := vals.Keys;
    while todo != {}
      invariant todo <= vals.Keys
      invariant forall i :: 0 <= i < |seg| ==>
        && seg[i].level == j.level && seg[i].period == j.key
        && seg[i].key in vals && seg[i].value == vals[seg[i].key]
      invariant forall k :: k in vals && k !in todo ==> k in RowKeys(seg)
      decreases |todo|
    {
      var k :| k in todo;
      var r := PeriodRow(j.level, k, j.key, vals[k]);
      assert RowKeys(seg + [r]) == RowKeys(seg) + {k};
      seg := seg + [r];
      todo := todo - {k};
    }
  }

  lemma QueriesOneMore(j: Job, done: set<string>, k: string)
    ensures JobQueries([j], done + {k}) == JobQueries([j], done) + {JobQuery(j, k)}
  {
    forall q | q in JobQueries([j], done + {k})
      ensures q in JobQueries([j], done) + {JobQuery(j, k)}
    {
      assert q == JobQuery(j, q.source);
    }
    assert j in [j];
  }

  lemma EmptyFirst<T>(a: seq<T>)
    ensures [] + a == a
  {
  }

  /** What a run hands to the store: rows that list the batches of the run, in any order
      within a period, its freezes and its folds. */
  ghost predicate Writes(rs: seq<PeriodRow>, freezes: seq<Freeze>, folds: seq<BaselineFold>, w: Computed) {
    && (exists segs :: Lists(segs, w.batches) && rs == Flat(segs))
    && freezes == w.freezes && folds == w.folds
  }

  /** The four steps of execute after BuildPlan, with what the store answered to each sum:
      they ask exactly the sums of the plan and write exactly what those sums give. */
  method ComputePlan(reg: Registry, p: Period, st: Meta, plan: Plan, feed: Reads)
    returns (rows: seq<PeriodRow>, freezes: seq<Freeze>, folds: seq<BaselineFold>, asked: set<Query>)
    requires p.day >= MAX_NET_DAYS && st.Marks(reg).Marks() && st.baselineYear >= NONE
    requires plan == PlanFor(p, st.Marks(reg))
    ensures Writes(rows, freezes, folds, Gather(reg, st, p, plan, feed))
    ensures forall q :: q in asked <==> IsQuery(reg, st, p, plan, q)
  {
    PlanForLevels(p, st.Marks(reg));
    FoldedYearBounds(plan.years, st.baselineYear);
    var rs := new RunState(reg, p, st, feed);
    EmptyFirst(JobFreezes(plan.days));
    ghost var bs := PeriodBatches(reg, plan, st.offsets, feed);
    rs.ListPeriods(plan, bs);
    ghost var all := rs.TotalAfter(rs.segs, bs);
    AllQueries(reg, p, st, plan);
    rows, freezes, folds, asked := rs.rows, rs.freezes, rs.folds, rs.asked;
  }

  function PeriodBatches(reg: Registry, plan: Plan, offsets: map<Cell, int>, got: Reads): seq<Batch> {
    JobBatches(reg, plan.days, offsets, got) + JobBatches(reg, plan.months, offsets, got)
      + JobBatches(reg, plan.years, offsets, got)
  }

  /** The batches follow the jobs. */
  lemma BatchAt(reg: Registry, plan: Plan, offsets: map<Cell, int>, feed: Reads, jobs: seq<Job>, i: nat, j: Job)
    requires jobs == plan.days + plan.months + plan.years && i < |jobs| && j == jobs[i]
    ensures i < |PeriodBatches(reg, plan, offsets, feed)|
    ensures PeriodBatches(reg, plan, offsets, feed)[i] == Batch(j.level, j.key, JobValues(reg, j, offsets, feed))
  {
    BatchesConcat(reg, plan.days, plan.months, offsets, feed);
    BatchesConcat(reg, plan.days + plan.months, plan.years, offsets, feed);
    OneBatch(reg, jobs, offsets, feed, i, j);
  }

  lemma BatchesConcat(reg: Registry, x: seq<Job>, y: seq<Job>, offsets: map<Cell, int>, feed: Reads)
    ensures JobBatches(reg, x + y, offsets, feed)
         == JobBatches(reg, x, offsets, feed) + JobBatches(reg, y, offsets, feed)
  {
  }

  lemma OneBatch(reg: Registry, jobs: seq<Job>, offsets: map<Cell, int>, feed: Reads, i: nat, j: Job)
    requires i < |jobs| && jobs[i] == j
    ensures |JobBatches(reg, jobs, offsets, feed)| == |jobs|
    ensures JobBatches(reg, jobs, offsets, feed)[i] == Batch(j.level, j.key, JobValues(reg, j, offsets, feed))
  {
  }

  lemma PlanForLevels(p: Period, w: Watermarks)
    requires p.day >= MAX_NET_DAYS && w.Marks()
    ensures PlanLevels(PlanFor(p, w))
  {
  }

  ghost predicate AllInRange(fs: seq<Freeze>) {
    forall f :: f in fs ==> FreezeInRange(f)
  }

  /** What the run freezes still has keys of fixed width. */
  lemma RunFreezesInRange(p: Period, w: Watermarks, l: Level, ks: seq<int>)
    requires p.month < Months.Limit() && p.year < Years.Limit() && (l == Monthly || l == Yearly || l == Daily)
    requires forall i :: 0 <= i < |ks| ==> 0 <= ks[i] <= Current(p, l)
    ensures AllInRange(JobFreezes(JobsFor(p, w, l, ks)))
  {
    forall f | f in JobFreezes(JobsFor(p, w, l, ks))
      ensures FreezeInRange(f)
    {
      FreezeOfJob(JobsFor(p, w, l, ks), f);
    }
  }

  lemma {:induction false} FreezeOfJob(jobs: seq<Job>, f: Freeze)
    requires f in JobFreezes(jobs)
    ensures exists i :: 0 <= i < |jobs| && f == Freeze(jobs[i].level, jobs[i].key)
  {
    var n := |jobs| - 1;
    if f in JobFreezes(jobs[..n]) {
      FreezeOfJob(jobs[..n], f);
      var i :| 0 <= i < n && f == Freeze(jobs[..n][i].level, jobs[..n][i].key);
      assert jobs[i] == jobs[..n][i];
    } else {
      assert f == Freeze(jobs[n].level, jobs[n].key);
    }
  }

  lemma PlanFreezesInRange(p: Period, w: Watermarks)
    requires p.Valid() && w.Marks()
    ensures var plan := PlanFor(p, w);
      AllInRange(JobFreezes(plan.days) + JobFreezes(plan.months) + JobFreezes(plan.years))
  {
    PeriodInRange(p);
    var plan := PlanFor(p, w);
    RunFreezesInRange(p, w, Daily, Range(NetFloor(p, w) + 1, p.day));
    RunFreezesInRange(p, w, Monthly, OpenPeriods(w.frozenMonth, p.month));
    RunFreezesInRange(p, w, Yearly, OpenPeriods(w.frozenYear, p.year));
    InRangeTogether(JobFreezes(plan.days), JobFreezes(plan.months), JobFreezes(plan.years));
  }

  lemma InRangeTogether(a: seq<Freeze>, b: seq<Freeze>, c: seq<Freeze>)
    requires AllInRange(a) && AllInRange(b) && AllInRange(c)
    ensures AllInRange(a + b + c)
  {
  }

  /** A whole run: st is the state captured at the start, feed what the sums returned, and the
      store may have moved on since. A committed run changes the store exactly as the run's
      outcome says; it fails before writing when the plan overruns the year 9999. */
  method Execute(store: Storage.Store, p: Period, st: Meta, feed: Reads, commits: bool)
    returns (r: Tx<seq<Rejection>>)
    requires store.Valid() && p.Valid() && Sane(st) && InRange(st)
    modifies store
    ensures store.Valid()
    ensures st.Marks(store.reg).Marks() && st.baselineYear >= NONE
    ensures r.Committed? <==> commits && !st.Marks(store.reg).Overrun(p)
    ensures r.Committed? ==>
      store.State() == ApplyComputed(store.reg, old(store.State()),
        Gather(store.reg, st, p, PlanFor(p, st.Marks(store.reg)), feed))
    ensures r.RolledBack? ==> store.State() == old(store.State()) && store.table == old(store.table)
  {
    var reg := store.reg;
    var through := LowestMark(st, reg.dailyKeys);
    var marks := Watermarks(st.Frozen(Monthly), st.Frozen(Yearly), st.Frozen(Daily), through);
    var plan := BuildPlan(p, marks);
    if plan.KeyError? {
      return RolledBack;
    }
    var rows, freezes, folds, asked := ComputePlan(reg, p, st, plan.value, feed);
    ghost var w := Gather(reg, st, p, plan.value, feed);
    ghost var segs :| Lists(segs, w.batches) && rows == Flat(segs);
    ListedRowsApply(reg, store.meta, store.rows, segs, w.batches);
    PlanFreezesInRange(p, marks);
    r := store.WriteComputed(rows, freezes, folds, commits);
  }
}
