/** A poll transaction keeps the ledger invariant. */
module PollStep {
  import opened Calendar
  import opened Registers
  import opened Energy
  import opened Plan
  import opened Ledger
  import opened World

  /** A cell the poller may still write. */
  predicate Writable(reg: Registry, m: Meta, c: Cell) {
    c.level == Daily && PollerKey(reg, c.key) && c.period > m.Closed(c.key)
  }

  lemma {:induction false} WriteDailiesFrame(reg: Registry, m: Meta, rows: Rows, rs: seq<DailyRow>, c: Cell)
    requires !Writable(reg, m, c)
    ensures SameCell(WriteDailies(reg, m, rows, rs), rows, c)
  {
    if rs != [] {
      WriteDailiesFrame(reg, m, rows, rs[..|rs| - 1], c);
    }
  }

  lemma {:induction false} WriteDailiesSame(
    reg: Registry, m: Meta, a: Rows, b: Rows, rs: seq<DailyRow>, c: Cell)
    requires SameCell(a, b, c)
    ensures SameCell(WriteDailies(reg, m, a, rs), WriteDailies(reg, m, b, rs), c)
  {
    if rs != [] {
      WriteDailiesSame(reg, m, a, b, rs[..|rs| - 1], c);
    }
  }

  lemma {:induction false} WriteDailiesGrow(
    reg: Registry, m: Meta, rows: Rows, rs: seq<DailyRow>, k: string, d: int)
    requires At(rows, k, d) >= 0
    ensures At(WriteDailies(reg, m, rows, rs), k, d) >= At(rows, k, d)
  {
    if rs != [] {
      WriteDailiesGrow(reg, m, rows, rs[..|rs| - 1], k, d);
    }
  }

  lemma {:induction false} CloseDaysGrow(reg: Registry, m: Meta, cs: seq<DayClose>)
    ensures var m' := CloseDays(reg, m, cs);
      m' == m.(closedDaily := m'.closedDaily) && forall k :: m'.Closed(k) >= m.Closed(k)
  {
    if cs != [] {
      CloseDaysGrow(reg, m, cs[..|cs| - 1]);
    }
  }

  /** Days a key has closed keep their accepted rows. */
  lemma ClosedSumKept(reg: Registry, m: Meta, hist: Rows, rs: seq<DailyRow>, k: string, first: int, last: int)
    requires last < first || !PollerKey(reg, k) || last <= m.Closed(k)
    ensures Sum(WriteDailies(reg, m, hist, rs), k, first, last) == Sum(hist, k, first, last)
  {
    forall d | first <= d <= last
      ensures At(WriteDailies(reg, m, hist, rs), k, d) == At(hist, k, d)
    {
      WriteDailiesFrame(reg, m, hist, rs, Cell(Daily, k, d));
    }
    SumAgrees(WriteDailies(reg, m, hist, rs), hist, k, first, last);
  }

  lemma HistGrows(reg: Registry, m: Meta, hist: Rows, rs: seq<DailyRow>)
    requires forall k, d :: PollerKey(reg, k) ==> At(hist, k, d) >= 0
    ensures forall k, d :: PollerKey(reg, k) ==>
      0 <= At(hist, k, d) <= At(WriteDailies(reg, m, hist, rs), k, d)
  {
    forall k, d | PollerKey(reg, k)
      ensures At(hist, k, d) <= At(WriteDailies(reg, m, hist, rs), k, d)
    {
      WriteDailiesGrow(reg, m, hist, rs, k, d);
    }
  }

  lemma SourceIsPollerKey(reg: Registry, l: Level, e: Edge)
    requires reg.Valid() && e in reg.EdgesAt(l)
    ensures PollerKey(reg, e.source) && e.source in reg.dailyKeys
    ensures e.level == l && e.level != Daily
    ensures InDomain(reg, l, e.target) && !PollerKey(reg, e.target)
    ensures SourceOf(reg, l, e.target) == e.source
  {
    assert reg.EdgeOk(e);
    EdgesFunctional(reg, l);
    SourceInEdges(reg.EdgesAt(l), e);
  }

  lemma EdgesFunctional(reg: Registry, l: Level)
    requires reg.Valid()
    ensures Functional(reg.EdgesAt(l))
  {
  }

  lemma {:induction false} SourceInEdges(edges: seq<Edge>, e: Edge)
    requires e in edges && Functional(edges)
    ensures SourceIn(edges, e.target) == e.source
  {
    if edges[0].target != e.target {
      SourceInEdges(edges[1..], e);
    }
  }

  /** The parts of a net pair are daily counters, or edge targets of its level. */
  lemma NetPartSource(reg: Registry, l: Level, key: string)
    requires reg.Valid() && reg.IsStore(key, StoreForLevel(l), false)
    ensures PollerKey(reg, SourceOf(reg, l, key)) && SourceOf(reg, l, key) in reg.dailyKeys
    ensures l != Daily ==> exists e :: e in reg.EdgesAt(l) && e.target == key
  {
    if l == Daily {
      assert reg.EdgesAt(l) == [] by {
        if reg.EdgesAt(l) != [] {
          SourceIsPollerKey(reg, l, reg.EdgesAt(l)[0]);
        }
      }
    } else {
      var e :| e in reg.edges && e.target == key;
      assert reg.EdgeOk(e);
      assert e.level == l;
      SourceIsPollerKey(reg, l, e);
    }
  }

  lemma PollKeepsHist(reg: Registry, w: World, rs: seq<DailyRow>, cs: seq<DayClose>)
    requires HistOk(reg, w)
    ensures HistOk(reg, Step(reg, w, Poll(rs, cs)))
  {
    var m := w.db.meta;
    CloseDaysGrow(reg, m, cs);
    HistGrows(reg, m, w.hist, rs);
    forall k, d | PollerKey(reg, k) && d >= m.purgedBefore
      ensures SameCell(WriteDailies(reg, m, w.db.rows, rs), WriteDailies(reg, m, w.hist, rs), Cell(Daily, k, d))
    {
      WriteDailiesSame(reg, m, w.db.rows, w.hist, rs, Cell(Daily, k, d));
    }
  }

  lemma PollKeepsMarks(reg: Registry, w: World, rs: seq<DailyRow>, cs: seq<DayClose>)
    requires MarksOk(reg, w.db.meta)
    ensures MarksOk(reg, Step(reg, w, Poll(rs, cs)).db.meta)
  {
    CloseDaysGrow(reg, w.db.meta, cs);
    MarksGrow(reg, w.db.meta, CloseDays(reg, w.db.meta, cs));
  }

  lemma FoldedSumKept(reg: Registry, m: Meta, hist: Rows, rs: seq<DailyRow>, k: string)
    requires MarksOk(reg, m) && k in reg.dailyKeys
    ensures Sum(WriteDailies(reg, m, hist, rs), k, Origin(m), YearLast(m.baselineYear))
         == Sum(hist, k, Origin(m), YearLast(m.baselineYear))
  {
    if m.baselineYear < YearOf(m.cutover) {
      YearFirstMonotone(m.baselineYear + 1, YearOf(m.cutover));
    }
    ClosedSumKept(reg, m, hist, rs, k, Origin(m), YearLast(m.baselineYear));
  }

  lemma PollKeepsBaseline(reg: Registry, w: World, rs: seq<DailyRow>, cs: seq<DayClose>)
    requires reg.Valid() && MarksOk(reg, w.db.meta) && BaselineOk(reg, w)
    ensures var m' := Step(reg, w, Poll(rs, cs)).db.meta; m'.cutover >= 0 && m'.baselineYear >= 0
    ensures BaselineOk(reg, Step(reg, w, Poll(rs, cs)))
  {
    CloseDaysGrow(reg, w.db.meta, cs);
    forall e | e in reg.EdgesAt(Total)
      ensures e.source in reg.dailyKeys
    {
      SourceIsPollerKey(reg, Total, e);
    }
    forall k | k in reg.dailyKeys {
      FoldedSumKept(reg, w.db.meta, w.hist, rs, k);
    }
  }

  /** The last day of a settled period is closed for every key. */
  lemma SettledIsClosed(reg: Registry, m: Meta, l: Level, k: nat)
    requires MarksOk(reg, m) && Frozenable(l) && k <= m.Frozen(l)
    ensures ClosedBeyond(reg, m, PeriodLast(l, k))
  {
    PeriodLastMonotone(l, k, m.Frozen(l));
    assert ClosedBeyond(reg, m, PeriodLast(l, m.Frozen(l)));
  }

  lemma PollKeepsPart(
    reg: Registry, w: World, rs: seq<DailyRow>, cs: seq<DayClose>, l: Level, key: string, k: nat)
    requires MarksOk(reg, w.db.meta) && Frozenable(l) && k <= w.db.meta.Frozen(l)
    requires SourceOf(reg, l, key) in reg.dailyKeys
    ensures PartSame(reg, w, Step(reg, w, Poll(rs, cs)), l, key, k)
  {
    CloseDaysGrow(reg, w.db.meta, cs);
    SettledIsClosed(reg, w.db.meta, l, k);
    ClosedSumKept(reg, w.db.meta, w.hist, rs, SourceOf(reg, l, key), PeriodFirst(l, k), PeriodLast(l, k));
  }

  lemma PollKeepsPeriod(reg: Registry, w: World, rs: seq<DailyRow>, cs: seq<DayClose>, l: Level, k: nat)
    requires reg.Valid() && MarksOk(reg, w.db.meta) && Frozenable(l) && k <= w.db.meta.Frozen(l)
    requires PeriodSettled(reg, w, l, k)
    ensures PeriodSettled(reg, Step(reg, w, Poll(rs, cs)), l, k)
  {
    var w' := Step(reg, w, Poll(rs, cs));
    forall key | InDomain(reg, l, key)
      ensures CellKept(w, w', Cell(l, key, k))
    {
      WriteDailiesFrame(reg, w.db.meta, w.db.rows, rs, Cell(l, key, k));
    }
    forall key | reg.IsStore(key, StoreForLevel(l), false)
      ensures PartSame(reg, w, w', l, key, k)
    {
      NetPartSource(reg, l, key);
      PollKeepsPart(reg, w, rs, cs, l, key, k);
    }
    PeriodTransfer(reg, w, w', l, k);
  }

  lemma PollKeepsTotals(reg: Registry, w: World, rs: seq<DailyRow>, cs: seq<DayClose>, a: Rows, b: Rows)
    requires reg.Valid() && w.db.meta.cutover >= 0 && TotalsWithin(reg, w, a)
    requires forall k, d :: PollerKey(reg, k) ==> 0 <= At(a, k, d) <= At(b, k, d)
    ensures Step(reg, w, Poll(rs, cs)).db.meta.cutover == w.db.meta.cutover
    ensures TotalsWithin(reg, Step(reg, w, Poll(rs, cs)), b)
  {
    var m := w.db.meta;
    CloseDaysGrow(reg, m, cs);
    if w.lastDay != NONE {
      forall e | e in reg.EdgesAt(Total)
        ensures Sum(a, e.source, Origin(m), w.lastDay) <= Sum(b, e.source, Origin(m), w.lastDay)
        ensures SameCell(Step(reg, w, Poll(rs, cs)).db.rows, w.db.rows, Cell(Total, e.target, NONE))
      {
        SourceIsPollerKey(reg, Total, e);
        SumGrows(a, b, e.source, Origin(m), w.lastDay, w.lastDay);
        WriteDailiesFrame(reg, m, w.db.rows, rs, Cell(Total, e.target, NONE));
      }
    }
  }

  lemma PollKeepsRead(reg: Registry, w: World, rs: seq<DailyRow>, cs: seq<DayClose>, r: Run, q: Query)
    requires reg.Valid() && HistOk(reg, w) && q in r.got && ReadOk(reg, w, r, q)
    requires ClosedBeyond(reg, w.db.meta, r.st.LowestClosed(reg.dailyKeys))
    ensures ReadOk(reg, Step(reg, w, Poll(rs, cs)), r, q)
  {
    var m := w.db.meta;
    HistGrows(reg, m, w.hist, rs);
    var hist' := WriteDailies(reg, m, w.hist, rs);
    SumGrows(w.hist, hist', q.source, q.first, q.last, q.last);
    if q.last <= r.st.LowestClosed(reg.dailyKeys) {
      ClosedSumKept(reg, m, w.hist, rs, q.source, q.first, q.last);
    }
  }

  lemma PollKeepsRun(reg: Registry, w: World, rs: seq<DailyRow>, cs: seq<DayClose>)
    requires reg.Valid() && w.run.Some? && HistOk(reg, w)
    requires w.db.meta.cutover >= 0 && RunOk(reg, w, w.run.value)
    ensures Step(reg, w, Poll(rs, cs)).db.meta.cutover >= 0
    ensures RunOk(reg, Step(reg, w, Poll(rs, cs)), w.run.value)
  {
    var r := w.run.value;
    var w' := Step(reg, w, Poll(rs, cs));
    CloseDaysGrow(reg, w.db.meta, cs);
    HistGrows(reg, w.db.meta, w.hist, rs);
    forall q | q in r.got
      ensures ReadOk(reg, w', r, q)
    {
      PollKeepsRead(reg, w, rs, cs, r, q);
    }
    forall k, d | PollerKey(reg, k)
      ensures At(r.seen, k, d) <= At(w'.hist, k, d)
    {
      assert At(r.seen, k, d) <= At(w.hist, k, d) <= At(w'.hist, k, d);
    }
    PollKeepsTotals(reg, w, rs, cs, r.seen, r.seen);
  }

  lemma PollKeepsSettled(reg: Registry, w: World, rs: seq<DailyRow>, cs: seq<DayClose>)
    requires reg.Valid() && MarksOk(reg, w.db.meta) && SettledOk(reg, w) && Complete(w)
    ensures SettledOk(reg, Step(reg, w, Poll(rs, cs)))
    ensures Step(reg, w, Poll(rs, cs)).db.meta.cutover == w.db.meta.cutover
    ensures Complete(Step(reg, w, Poll(rs, cs)))
  {
    var w' := Step(reg, w, Poll(rs, cs));
    CloseDaysGrow(reg, w.db.meta, cs);
    forall l, k | (l, k) in w.settled
      ensures Frozenable(l) && 0 <= k <= w'.db.meta.Frozen(l) && PeriodSettled(reg, w', l, k)
    {
      PollKeepsPeriod(reg, w, rs, cs, l, k);
    }
  }

  lemma PollKeepsPurge(reg: Registry, w: World, rs: seq<DailyRow>, cs: seq<DayClose>, w': World)
    requires w' == Step(reg, w, Poll(rs, cs)) && w.db.meta.baselineYear >= NONE && PurgeOk(w)
    ensures w'.db.meta.baselineYear >= NONE && PurgeOk(w')
  {
    CloseDaysGrow(reg, w.db.meta, cs);
  }

  /** Poll transactions of any rows and closes keep the invariant. */
  lemma PollKeepsInv(reg: Registry, w: World, rs: seq<DailyRow>, cs: seq<DayClose>)
    requires reg.Valid() && Inv(reg, w)
    ensures Inv(reg, Step(reg, w, Poll(rs, cs)))
  {
    PollKeepsMarks(reg, w, rs, cs);
    PollKeepsPurge(reg, w, rs, cs, Step(reg, w, Poll(rs, cs)));
    PollKeepsHist(reg, w, rs, cs);
    PollKeepsBaseline(reg, w, rs, cs);
    PollKeepsSettled(reg, w, rs, cs);
    HistGrows(reg, w.db.meta, w.hist, rs);
    PollKeepsTotals(reg, w, rs, cs, w.hist, Step(reg, w, Poll(rs, cs)).hist);
    if w.run.Some? {
      PollKeepsRun(reg, w, rs, cs);
    }
  }
}
