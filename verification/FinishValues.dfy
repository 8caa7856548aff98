/** What a run computes for the periods it freezes and folds is exact. */
module FinishValues {
  import opened Calendar
  import opened Registers
  import opened Energy
  import opened Plan
  import opened Ledger
  import opened World
  import opened PollStep
  import opened RunStep

  /** Every sum of the job over its whole period was read as the accepted rows add up. */
  ghost predicate JobRead(hist: Rows, got: Reads, j: Job, sources: set<string>) {
    j.key >= 0 &&
    forall s :: s in sources ==>
      Read(got, JobQuery(j, s)) == Sum(hist, s, PeriodFirst(j.level, j.key), PeriodLast(j.level, j.key))
  }

  lemma FrozenJobIsRead(reg: Registry, w: World, r: Run, l: Level, ks: seq<int>, sources: set<string>, j: Job)
    requires RunReady(reg, r) && r.st.LowestClosed(reg.dailyKeys) <= r.p.day
    requires forall i :: 0 <= i < |ks| ==> ks[i] >= 0
    requires j in JobsFor(r.p, r.st.Marks(reg), l, ks) && j.freeze
    requires forall q :: AskedBy(JobsFor(r.p, r.st.Marks(reg), l, ks), sources, q) ==>
               q in r.got && ReadOk(reg, w, r, q)
    ensures JobRead(w.hist, r.got, j, sources)
  {
    var jobs := JobsFor(r.p, r.st.Marks(reg), l, ks);
    var i :| 0 <= i < |jobs| && jobs[i] == j;
    forall s | s in sources
      ensures Read(r.got, JobQuery(j, s)) == Sum(w.hist, s, PeriodFirst(l, ks[i]), PeriodLast(l, ks[i]))
    {
      assert AskedBy(jobs, sources, JobQuery(j, s));
      assert ReadOk(reg, w, r, JobQuery(j, s));
    }
  }

  /** Plain sums of the edges of a period read in full. */
  lemma PlainExact(reg: Registry, hist: Rows, j: Job, got: Reads, e: Edge)
    requires reg.Valid() && e in reg.EdgesAt(j.level)
    requires JobRead(hist, got, j, Sources(reg.EdgesAt(j.level)))
    ensures var plain := ApplyEdges(reg.EdgesAt(j.level), SumsOf(Sources(reg.EdgesAt(j.level)), j, got));
      && e.target in plain
      && plain[e.target] == Sum(hist, SourceOf(reg, j.level, e.target),
                                PeriodFirst(j.level, j.key), PeriodLast(j.level, j.key))
  {
    EdgesFunctional(reg, j.level);
    SourceIsPollerKey(reg, j.level, e);
    EdgesApplied(reg.EdgesAt(j.level), SumsOf(Sources(reg.EdgesAt(j.level)), j, got));
  }

  lemma NetsFunctional(reg: Registry, l: Level)
    requires reg.Valid()
    ensures OnePerTarget(reg.NetsAt(l))
  {
  }

  lemma NetTargetsApart(reg: Registry, l: Level, vals: Values, key: string)
    requires reg.Valid() && reg.IsStore(key, StoreForLevel(l), false)
    ensures key !in ApplyNet(reg.NetsAt(l), vals)
  {
    NetsFunctional(reg, l);
    NetApplied(reg.NetsAt(l), vals);
    forall n | n in reg.NetsAt(l)
      ensures n.target != key
    {
      assert reg.NetOk(n);
    }
  }

  lemma NetAdded(reg: Registry, l: Level, vals: Values, n: NetPair)
    requires reg.Valid() && n in reg.NetsAt(l) && n.exported in vals && n.imported in vals
    ensures var all := vals + ApplyNet(reg.NetsAt(l), vals);
      n.target in all && all[n.target] == vals[n.exported] - vals[n.imported]
  {
    NetsFunctional(reg, l);
    NetOnTop(reg.NetsAt(l), vals, n);
  }

  lemma NetOnTop(nets: seq<NetPair>, vals: Values, n: NetPair)
    requires OnePerTarget(nets) && n in nets && n.exported in vals && n.imported in vals
    ensures var all := vals + ApplyNet(nets, vals);
      n.target in all && all[n.target] == vals[n.exported] - vals[n.imported]
  {
    NetApplied(nets, vals);
    assert n.target in ApplyNet(nets, vals);
  }

  /** The values of one level before the net ones. */
  function EdgeValues(reg: Registry, j: Job, offsets: map<Cell, int>, got: Reads): Values {
    var edges := reg.EdgesAt(j.level);
    var plain := ApplyEdges(edges, SumsOf(Sources(edges), j, got));
    WithOffsets(plain, PeriodOffsets(j.level, j.key, plain, offsets))
  }

  lemma OffsetAdded(st: Meta, l: Level, k: int, plain: Values, key: string)
    requires key in plain
    ensures WithOffsets(plain, PeriodOffsets(l, k, plain, st.offsets))[key] == plain[key] + st.Offset(l, key, k)
  {
  }

  lemma EdgeValueExact(reg: Registry, hist: Rows, st: Meta, j: Job, got: Reads, e: Edge)
    requires reg.Valid() && e in reg.EdgesAt(j.level)
    requires JobRead(hist, got, j, Sources(reg.EdgesAt(j.level)))
    ensures e.target in EdgeValues(reg, j, st.offsets, got)
    ensures EdgeValues(reg, j, st.offsets, got)[e.target] == Part(reg, hist, st, j.level, e.target, j.key)
  {
    PlainExact(reg, hist, j, got, e);
    EdgeValueOf(reg, st, j, got, ApplyEdges(reg.EdgesAt(j.level), SumsOf(Sources(reg.EdgesAt(j.level)), j, got)),
      e.target);
  }

  lemma EdgeValueOf(reg: Registry, st: Meta, j: Job, got: Reads, plain: Values, key: string)
    requires plain == ApplyEdges(reg.EdgesAt(j.level), SumsOf(Sources(reg.EdgesAt(j.level)), j, got))
    requires key in plain
    ensures key in EdgeValues(reg, j, st.offsets, got)
    ensures EdgeValues(reg, j, st.offsets, got)[key] == plain[key] + st.Offset(j.level, key, j.key)
  {
    OffsetAdded(st, j.level, j.key, plain, key);
  }

  lemma PartValueExact(reg: Registry, hist: Rows, st: Meta, j: Job, got: Reads, key: string)
    requires reg.Valid() && j.level != Daily && reg.IsStore(key, StoreForLevel(j.level), false)
    requires JobRead(hist, got, j, Sources(reg.EdgesAt(j.level)))
    ensures key in EdgeValues(reg, j, st.offsets, got)
    ensures EdgeValues(reg, j, st.offsets, got)[key] == Part(reg, hist, st, j.level, key, j.key)
  {
    NetPartSource(reg, j.level, key);
    var e :| e in reg.EdgesAt(j.level) && e.target == key;
    EdgeValueExact(reg, hist, st, j, got, e);
  }

  lemma LevelEdgeExact(reg: Registry, hist: Rows, st: Meta, j: Job, got: Reads, e: Edge)
    requires reg.Valid() && e in reg.EdgesAt(j.level)
    requires JobRead(hist, got, j, Sources(reg.EdgesAt(j.level)))
    ensures e.target in LevelValues(reg, j, st.offsets, got)
    ensures LevelValues(reg, j, st.offsets, got)[e.target] == Part(reg, hist, st, j.level, e.target, j.key)
  {
    EdgeValueExact(reg, hist, st, j, got, e);
    assert reg.EdgeOk(e);
    NetTargetsApart(reg, j.level, EdgeValues(reg, j, st.offsets, got), e.target);
  }

  lemma LevelNetExact(reg: Registry, hist: Rows, st: Meta, j: Job, got: Reads, n: NetPair)
    requires reg.Valid() && j.level != Daily && n in reg.NetsAt(j.level)
    requires JobRead(hist, got, j, Sources(reg.EdgesAt(j.level)))
    ensures n.target in LevelValues(reg, j, st.offsets, got)
    ensures LevelValues(reg, j, st.offsets, got)[n.target]
         == Part(reg, hist, st, j.level, n.exported, j.key) - Part(reg, hist, st, j.level, n.imported, j.key)
  {
    assert reg.NetOk(n);
    PartValueExact(reg, hist, st, j, got, n.exported);
    PartValueExact(reg, hist, st, j, got, n.imported);
    NetAdded(reg, j.level, EdgeValues(reg, j, st.offsets, got), n);
  }

  lemma DayNetExact(reg: Registry, hist: Rows, st: Meta, j: Job, got: Reads, n: NetPair)
    requires reg.Valid() && j.level == Daily && n in reg.NetsAt(Daily)
    requires JobRead(hist, got, j, NetSources(reg.NetsAt(Daily)))
    requires forall c :: c in st.offsets ==> c.level != Daily
    ensures n.target in DayValues(reg, j, got)
    ensures DayValues(reg, j, got)[n.target]
         == Part(reg, hist, st, Daily, n.exported, j.key) - Part(reg, hist, st, Daily, n.imported, j.key)
  {
    var nets := reg.NetsAt(Daily);
    NetsFunctional(reg, Daily);
    DayNetRead(nets, j, got, n);
    DayPartRead(reg, hist, st, j, got, nets, n.exported);
    DayPartRead(reg, hist, st, j, got, nets, n.imported);
  }

  lemma DayNetRead(nets: seq<NetPair>, j: Job, got: Reads, n: NetPair)
    requires OnePerTarget(nets) && n in nets
    ensures var net := ApplyNet(nets, SumsOf(NetSources(nets), j, got));
      n.target in net && net[n.target] == Read(got, JobQuery(j, n.exported)) - Read(got, JobQuery(j, n.imported))
  {
    NetApplied(nets, SumsOf(NetSources(nets), j, got));
  }

  lemma DayPartRead(
    reg: Registry, hist: Rows, st: Meta, j: Job, got: Reads, nets: seq<NetPair>, key: string)
    requires reg.Valid() && j.level == Daily && key in NetSources(nets) && JobRead(hist, got, j, NetSources(nets))
    requires forall c :: c in st.offsets ==> c.level != Daily
    ensures Read(got, JobQuery(j, key)) == Part(reg, hist, st, Daily, key, j.key)
  {
    NoDailyEdges(reg, key);
  }

  lemma NoDailyEdges(reg: Registry, key: string)
    requires reg.Valid()
    ensures reg.EdgesAt(Daily) == [] && SourceOf(reg, Daily, key) == key
  {
    if reg.EdgesAt(Daily) != [] {
      SourceIsPollerKey(reg, Daily, reg.EdgesAt(Daily)[0]);
    }
  }

  /** What a closed year adds to the baseline is its accepted rows. */
  lemma YearAddExact(reg: Registry, hist: Rows, j: Job, got: Reads, e: Edge)
    requires reg.Valid() && j.level == Yearly && e in reg.EdgesAt(Total)
    requires JobRead(hist, got, j, Sources(reg.EdgesAt(Yearly)))
    ensures Get(YearAdd(reg, j, got), e.target) == Sum(hist, e.source, YearFirst(j.key), YearLast(j.key))
  {
    TotalSourceIsYearly(reg, e);
    EdgesFunctional(reg, Total);
    EdgesApplied(reg.EdgesAt(Total), SumsOf(Sources(reg.EdgesAt(Yearly)), j, got));
  }

  lemma TotalSourceIsYearly(reg: Registry, e: Edge)
    requires reg.Valid() && e in reg.EdgesAt(Total)
    ensures e.source in Sources(reg.EdgesAt(Yearly))
  {
    var y :| y in reg.edges && y.level == Yearly && y.source == e.source;
    assert y in reg.EdgesAt(Yearly);
  }

  /** The keys of a level's values are targets of its edges or its net pairs. */
  lemma ValueKeys(reg: Registry, l: Level, sums: Values, plain: Values, key: string)
    requires reg.Valid() && plain == ApplyEdges(reg.EdgesAt(l), sums)
    requires key in plain || key in ApplyNet(reg.NetsAt(l), plain)
    ensures InDomain(reg, l, key)
    ensures (exists e :: e in reg.EdgesAt(l) && e.target == key) || (exists n :: n in reg.NetsAt(l) && n.target == key)
  {
    if key in plain {
      EdgeKeys(reg, l, sums, key);
    } else {
      NetKeys(reg, l, plain, key);
    }
  }

  lemma EdgeKeys(reg: Registry, l: Level, sums: Values, key: string)
    requires reg.Valid() && key in ApplyEdges(reg.EdgesAt(l), sums)
    ensures InDomain(reg, l, key) && exists e :: e in reg.EdgesAt(l) && e.target == key
  {
    EdgesFunctional(reg, l);
    EdgesApplied(reg.EdgesAt(l), sums);
    var e :| e in reg.EdgesAt(l) && e.target == key;
    assert reg.EdgeOk(e);
  }

  lemma NetKeys(reg: Registry, l: Level, vals: Values, key: string)
    requires reg.Valid() && key in ApplyNet(reg.NetsAt(l), vals)
    ensures InDomain(reg, l, key) && exists n :: n in reg.NetsAt(l) && n.target == key
  {
    NetsFunctional(reg, l);
    NetApplied(reg.NetsAt(l), vals);
    var n :| n in reg.NetsAt(l) && n.target == key;
    assert reg.NetOk(n);
  }
}
