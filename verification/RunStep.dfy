/** Capturing the state and reading one sum keep the ledger invariant. */
module RunStep {
  import opened Calendar
  import opened Registers
  import opened Energy
  import opened Plan
  import opened Ledger
  import opened World
  import opened PollStep
  import opened CleanupStep

  lemma BeginKeepsInv(reg: Registry, w: World, p: Period)
    requires reg.Valid() && Inv(reg, w) && Enabled(reg, w, Begin(p))
    ensures Inv(reg, Step(reg, w, Begin(p)))
  {
    var w' := Step(reg, w, Begin(p));
    BeginMakesRun(reg, w, p);
    forall l, k | (l, k) in w.settled
      ensures PeriodSettled(reg, w', l, k)
    {
      SettledIrrespectiveOfRun(reg, w, w', l, k);
    }
  }

  lemma SettledIrrespectiveOfRun(reg: Registry, w: World, w': World, l: Level, k: nat)
    requires w' == w.(run := w'.run) && PeriodSettled(reg, w, l, k)
    ensures PeriodSettled(reg, w', l, k)
  {
    forall e | e in reg.EdgesAt(l)
      ensures EdgeSettled(reg, w', e, l, k)
    {
      assert EdgeSettled(reg, w, e, l, k);
    }
    forall n | n in reg.NetsAt(l)
      ensures NetSettled(reg, w', n, l, k)
    {
      assert NetSettled(reg, w, n, l, k);
    }
  }

  lemma BeginMakesRun(reg: Registry, w: World, p: Period)
    requires Enabled(reg, w, Begin(p)) && MarksOk(reg, w.db.meta) && HistOk(reg, w)
    requires TotalsWithin(reg, w, w.hist)
    ensures RunOk(reg, Step(reg, w, Begin(p)), Run(p, w.db.meta, map[], w.hist))
  {
  }

  lemma SourcesArePollerKeys(reg: Registry, l: Level, s: string)
    requires reg.Valid()
    ensures s in Sources(reg.EdgesAt(l)) ==> PollerKey(reg, s)
    ensures s in NetSources(reg.NetsAt(Daily)) ==> PollerKey(reg, s)
  {
    if s in Sources(reg.EdgesAt(l)) {
      var e :| e in reg.EdgesAt(l) && e.source == s;
      SourceIsPollerKey(reg, l, e);
    }
    if s in NetSources(reg.NetsAt(Daily)) {
      var n :| n in reg.NetsAt(Daily) && (n.exported == s || n.imported == s);
      assert reg.NetOk(n);
    }
  }

  lemma AskedIsPollerKey(reg: Registry, r: Run, q: Query)
    requires reg.Valid() && RunReady(reg, r) && Asks(reg, r, q)
    ensures PollerKey(reg, q.source)
  {
    SourcesArePollerKeys(reg, Monthly, q.source);
    SourcesArePollerKeys(reg, Yearly, q.source);
    SourcesArePollerKeys(reg, Total, q.source);
  }

  /** A sum read now is the sum of the accepted rows: retention removed none of them. */
  lemma ReadIsExact(reg: Registry, w: World, r: Run, q: Query)
    requires reg.Valid() && HistOk(reg, w) && MarksOk(reg, r.st)
    requires RunReady(reg, r) && Asks(reg, r, q)
    requires w.db.meta.purgedBefore <= FirstOpenDay(r.st)
    ensures PollerKey(reg, q.source)
    ensures Sum(w.db.rows, q.source, q.first, q.last) == Sum(w.hist, q.source, q.first, q.last)
  {
    AskedIsPollerKey(reg, r, q);
    QueriesAreOpen(reg, r, q);
    OpenSumsAgree(reg, w, q.source, q.first, q.last);
  }

  lemma OpenSumsAgree(reg: Registry, w: World, k: string, first: int, last: int)
    requires HistOk(reg, w) && PollerKey(reg, k) && first >= w.db.meta.purgedBefore
    ensures Sum(w.db.rows, k, first, last) == Sum(w.hist, k, first, last)
  {
    forall d | first <= d <= last
      ensures At(w.db.rows, k, d) == At(w.hist, k, d)
    {
      assert SameCell(w.db.rows, w.hist, Cell(Daily, k, d));
    }
    SumAgrees(w.db.rows, w.hist, k, first, last);
  }

  lemma ReadKeepsReads(reg: Registry, w: World, r: Run, q: Query, x: Query)
    requires reg.Valid() && HistOk(reg, w) && w.run == Some(r) && Enabled(reg, w, ReadSum(q))
    requires MarksOk(reg, r.st) && w.db.meta.purgedBefore <= FirstOpenDay(r.st)
    requires forall k, d :: PollerKey(reg, k) ==> 0 <= At(r.seen, k, d) <= At(w.hist, k, d)
    requires x == q || (x in r.got && ReadOk(reg, w, r, x))
    ensures var w' := Step(reg, w, ReadSum(q));
      x in w'.run.value.got && ReadOk(reg, w', w'.run.value, x)
  {
    if x == q {
      ReadIsExact(reg, w, r, q);
      SumGrows(r.seen, w.hist, q.source, q.first, q.last, q.last);
    }
  }

  lemma SameMarksSameOpenDay(w: World, r: Run)
    requires w.db.meta.baselineYear >= NONE && PurgeOk(w)
    requires r.st.(closedDaily := map[], purgedBefore := NONE)
          == w.db.meta.(closedDaily := map[], purgedBefore := NONE)
    ensures w.db.meta.purgedBefore <= FirstOpenDay(r.st)
  {
    assert r.st.frozen == w.db.meta.frozen && r.st.baselineYear == w.db.meta.baselineYear;
  }

  lemma ReadKeepsRun(reg: Registry, w: World, r: Run, q: Query)
    requires reg.Valid() && HistOk(reg, w) && w.run == Some(r) && Enabled(reg, w, ReadSum(q))
    requires w.db.meta.cutover >= 0 && RunOk(reg, w, r)
    requires w.db.meta.baselineYear >= NONE && PurgeOk(w)
    ensures RunOk(reg, Step(reg, w, ReadSum(q)), Step(reg, w, ReadSum(q)).run.value)
  {
    var w' := Step(reg, w, ReadSum(q));
    var r' := w'.run.value;
    SameMarksSameOpenDay(w, r);
    forall x | x in r'.got
      ensures ReadOk(reg, w', r', x)
    {
      ReadKeepsReads(reg, w, r, q, x);
    }
  }

  lemma ReadKeepsInv(reg: Registry, w: World, q: Query)
    requires reg.Valid() && Inv(reg, w) && Enabled(reg, w, ReadSum(q))
    ensures Inv(reg, Step(reg, w, ReadSum(q)))
  {
    var w' := Step(reg, w, ReadSum(q));
    ReadKeepsRun(reg, w, w.run.value, q);
    forall l, k | (l, k) in w.settled
      ensures PeriodSettled(reg, w', l, k)
    {
      SettledIrrespectiveOfRun(reg, w, w', l, k);
    }
  }

  lemma AbortKeepsInv(reg: Registry, w: World)
    requires Inv(reg, w)
    ensures Inv(reg, Step(reg, w, Abort))
  {
    var w' := Step(reg, w, Abort);
    forall l, k | (l, k) in w.settled
      ensures PeriodSettled(reg, w', l, k)
    {
      SettledIrrespectiveOfRun(reg, w, w', l, k);
    }
  }
}
