/** The first start (EnsureCutover in internal/storage/meta.go): months and years before
    the last closed day freeze, and an open month or year whose stored value is ahead of its
    daily rows keeps the difference as an offset. */
module Cutover {
  import opened Calendar
  import opened Registers
  import opened Energy
  import opened Plan
  import opened Ledger
  import opened PollStep
  import opened MetaTable
  import opened Transactions

  /** The period watermarks still have keys of fixed width. */
  predicate InRange(m: Meta) {
    m.Frozen(Monthly) < Months.Limit() && m.Frozen(Yearly) < Years.Limit()
  }

  /** The key list of the open periods runs past the year 9999. */
  predicate CutoverFails(m: Meta, p: Period) {
    Watermarks(m.Frozen(Monthly), m.Frozen(Yearly), NONE, NONE).Overrun(p)
  }

  // ---- offsets ----

  /** Every positive offset. */
  function Gains(reg: Registry, rows: Rows, frozen: map<Level, int>, p: Period): map<Cell, int> {
    map c | c in rows && CutoverOffset(reg, rows, frozen, p, c) > 0 :: CutoverOffset(reg, rows, frozen, p, c)
  }

  function Only(gains: map<Cell, int>, cells: set<Cell>): map<Cell, int> {
    map c | c in gains && c in cells :: gains[c]
  }

  lemma OnlyOneMore(offsets: map<Cell, int>, gains: map<Cell, int>, cells: set<Cell>, c: Cell)
    ensures offsets + Only(gains, cells + {c})
         == if c in gains then (offsets + Only(gains, cells))[c := gains[c]] else offsets + Only(gains, cells)
  {
  }

  lemma OnlyUnion(offsets: map<Cell, int>, gains: map<Cell, int>, a: set<Cell>, b: set<Cell>)
    ensures offsets + Only(gains, a) + Only(gains, b) == offsets + Only(gains, a + b)
  {
  }

  function SpanCells(edges: seq<Edge>, l: Level, k: int): set<Cell> {
    set e | e in edges :: Cell(l, e.target, k)
  }

  function SpansCells(edges: seq<Edge>, l: Level, ks: seq<int>): set<Cell> {
    set e, k | e in edges && k in ks :: Cell(l, e.target, k)
  }

  /** A span after the frozen mark and not in the future. */
  predicate OpenSpan(frozen: map<Level, int>, p: Period, l: Level, k: nat) {
    && (l == Monthly || l == Yearly) && l in frozen && frozen[l] < k <= Current(p, l)
    && OffsetCell(Cell(l, "", k))
  }

  lemma SpanOffset(reg: Registry, rows: Rows, frozen: map<Level, int>, p: Period, l: Level, k: nat, e: Edge)
    requires reg.Valid() && OpenSpan(frozen, p, l, k) && e in reg.EdgesAt(l)
    ensures var c, gains := Cell(l, e.target, k), Gains(reg, rows, frozen, p);
      && (c in gains ==> c in rows)
      && (c in rows ==>
            var off := rows[c] - Sum(rows, e.source, PeriodFirst(l, k), Min(PeriodLast(l, k), p.day));
            if off > 0 then c in gains && gains[c] == off else c !in gains)
  {
    SourceIsPollerKey(reg, l, e);
  }

  /** Writes an offset for every edge of one month or year whose row is ahead of its daily sum. */
  method WriteSpanOffsets(reg: Registry, rows: Rows, ghost frozen: map<Level, int>, p: Period,
    l: Level, k: nat, t: Table, m: Meta, ghost gains: map<Cell, int>) returns (t': Table, m': Meta)
    requires reg.Valid() && OpenSpan(frozen, p, l, k) && Agrees(t, m) && Sane(m)
    requires gains == Gains(reg, rows, frozen, p)
    ensures Agrees(t', m') && Sane(m')
    ensures m' == m.(offsets := m.offsets + Only(gains, SpanCells(reg.EdgesAt(l), l, k)))
  {
    var edges := reg.EdgesAt(l);
    t', m' := t, m;
    ghost var cells: set<Cell> := {};
    OnlyNone(m.offsets, gains);
    for i := 0 to |edges|
      invariant Agrees(t', m') && Sane(m') && cells == SpanCells(edges[..i], l, k)
      invariant m' == m.(offsets := m.offsets + Only(gains, cells))
    {
      MoreEdges(edges, l, k, i);
      OnlyOneMore(m.offsets, gains, cells, Cell(l, edges[i].target, k));
      t', m' := WriteOffset(reg, rows, frozen, p, l, k, edges[i], t', m', gains);
      cells := cells + {Cell(l, edges[i].target, k)};
    }
    assert edges[..|edges|] == edges;
  }

  lemma OnlyNone(offsets: map<Cell, int>, gains: map<Cell, int>)
    ensures offsets + Only(gains, {}) == offsets
  {
  }

  method WriteOffset(reg: Registry, rows: Rows, ghost frozen: map<Level, int>, p: Period,
    l: Level, k: nat, e: Edge, t: Table, m: Meta, ghost gains: map<Cell, int>) returns (t': Table, m': Meta)
    requires reg.Valid() && OpenSpan(frozen, p, l, k) && Agrees(t, m) && Sane(m) && e in reg.EdgesAt(l)
    requires gains == Gains(reg, rows, frozen, p)
    ensures Agrees(t', m') && Sane(m')
    ensures var c := Cell(l, e.target, k);
      m' == if c in gains then m.(offsets := m.offsets[c := gains[c]]) else m
  {
    var c := Cell(l, e.target, k);
    t', m' := t, m;
    SpanOffset(reg, rows, frozen, p, l, k, e);
    if c in rows {
      var off := rows[c] - Sum(rows, e.source, PeriodFirst(l, k), Min(PeriodLast(l, k), p.day));
      if off > 0 {
        OffsetAgrees(t, m, c, off);
        t', m' := t[Name(OffsetSlot(c)) := off], m.(offsets := m.offsets[c := off]);
      }
    }
  }

  lemma MoreEdges(edges: seq<Edge>, l: Level, k: int, i: nat)
    requires i < |edges|
    ensures SpanCells(edges[..i + 1], l, k) == SpanCells(edges[..i], l, k) + {Cell(l, edges[i].target, k)}
  {
    assert edges[..i + 1] == edges[..i] + [edges[i]];
  }

  method WriteLevelOffsets(reg: Registry, rows: Rows, ghost frozen: map<Level, int>, p: Period,
    l: Level, ks: seq<int>, t: Table, m: Meta, ghost gains: map<Cell, int>) returns (t': Table, m': Meta)
    requires reg.Valid() && Agrees(t, m) && Sane(m)
    requires forall i :: 0 <= i < |ks| ==> ks[i] >= 0 && OpenSpan(frozen, p, l, ks[i])
    requires gains == Gains(reg, rows, frozen, p)
    ensures Agrees(t', m') && Sane(m')
    ensures m' == m.(offsets := m.offsets + Only(gains, SpansCells(reg.EdgesAt(l), l, ks)))
  {
    t', m' := t, m;
    ghost var cells: set<Cell> := {};
    OnlyNone(m.offsets, gains);
    assert SpansCells(reg.EdgesAt(l), l, ks[..0]) == {};
    for i := 0 to |ks|
      invariant Agrees(t', m') && Sane(m') && cells == SpansCells(reg.EdgesAt(l), l, ks[..i])
      invariant m' == m.(offsets := m.offsets + Only(gains, cells))
    {
      MoreSpans(reg.EdgesAt(l), l, ks, i);
      OnlyUnion(m.offsets, gains, cells, SpanCells(reg.EdgesAt(l), l, ks[i]));
      t', m' := WriteSpanOffsets(reg, rows, frozen, p, l, ks[i], t', m', gains);
      cells := cells + SpanCells(reg.EdgesAt(l), l, ks[i]);
    }
    assert ks[..|ks|] == ks;
  }

  lemma MoreSpans(edges: seq<Edge>, l: Level, ks: seq<int>, i: nat)
    requires i < |ks|
    ensures SpansCells(edges, l, ks[..i + 1]) == SpansCells(edges, l, ks[..i]) + SpanCells(edges, l, ks[i])
  {
    assert ks[..i + 1] == ks[..i] + [ks[i]];
    forall e, k | e in edges && k in ks[..i + 1]
      ensures Cell(l, e.target, k) in SpansCells(edges, l, ks[..i]) + SpanCells(edges, l, ks[i])
    {
      if k in ks[..i] {
        assert Cell(l, e.target, k) in SpansCells(edges, l, ks[..i]);
      } else {
        assert Cell(l, e.target, k) in SpanCells(edges, l, ks[i]);
      }
    }
    forall e | e in edges
      ensures Cell(l, e.target, ks[i]) in SpansCells(edges, l, ks[..i + 1])
    {
      assert ks[i] in ks[..i + 1];
    }
    assert SpansCells(edges, l, ks[..i]) <= SpansCells(edges, l, ks[..i + 1]) by {
      assert forall k :: k in ks[..i] ==> k in ks[..i + 1];
    }
  }

  /** The spans hold every cell the cutover gives an offset. */
  lemma SpansCover(reg: Registry, rows: Rows, frozen: map<Level, int>, p: Period, l: Level, ks: seq<int>, c: Cell)
    requires c in rows && CutoverOffset(reg, rows, frozen, p, c) > 0 && c.level == l
    requires l in frozen && frozen[l] >= NONE && ks == Range(frozen[l] + 1, Current(p, l))
    ensures c in SpansCells(reg.EdgesAt(l), l, ks)
  {
    var e :| e in reg.EdgesAt(l) && e.target == c.key;
    var k := c.period;
    assert ks[k - (frozen[l] + 1)] == k;
    assert e in reg.EdgesAt(l) && k in ks;
    SpanMember(reg.EdgesAt(l), l, ks, e, k);
  }

  lemma SpanMember(edges: seq<Edge>, l: Level, ks: seq<int>, e: Edge, k: int)
    requires e in edges && k in ks
    ensures Cell(l, e.target, k) in SpansCells(edges, l, ks)
  {
  }

  lemma AllGains(reg: Registry, rows: Rows, frozen: map<Level, int>, p: Period, months: seq<int>, years: seq<int>,
    gains: map<Cell, int>, cells: set<Cell>)
    requires Monthly in frozen && Yearly in frozen && frozen[Monthly] >= NONE && frozen[Yearly] >= NONE
    requires months == Range(frozen[Monthly] + 1, p.month) && years == Range(frozen[Yearly] + 1, p.year)
    requires gains == Gains(reg, rows, frozen, p)
    requires SpansCells(reg.EdgesAt(Monthly), Monthly, months) <= cells
    requires SpansCells(reg.EdgesAt(Yearly), Yearly, years) <= cells
    ensures Only(gains, cells) == gains
  {
    forall c | c in gains
      ensures c in cells
    {
      GainCovered(reg, rows, frozen, p, months, years, c);
    }
    OnlyAll(gains, cells);
  }

  lemma GainCovered(
    reg: Registry, rows: Rows, frozen: map<Level, int>, p: Period, months: seq<int>, years: seq<int>, c: Cell)
    requires Monthly in frozen && Yearly in frozen && frozen[Monthly] >= NONE && frozen[Yearly] >= NONE
    requires months == Range(frozen[Monthly] + 1, p.month) && years == Range(frozen[Yearly] + 1, p.year)
    requires c in rows && CutoverOffset(reg, rows, frozen, p, c) > 0
    ensures c in SpansCells(reg.EdgesAt(Monthly), Monthly, months)
      || c in SpansCells(reg.EdgesAt(Yearly), Yearly, years)
  {
    if c.level == Monthly {
      SpansCover(reg, rows, frozen, p, Monthly, months, c);
    } else {
      SpansCover(reg, rows, frozen, p, Yearly, years, c);
    }
  }

  lemma GainsWritten(reg: Registry, rows: Rows, frozen: map<Level, int>, p: Period, months: seq<int>, years: seq<int>,
    gains: map<Cell, int>, offsets: map<Cell, int>)
    requires Monthly in frozen && Yearly in frozen && frozen[Monthly] >= NONE && frozen[Yearly] >= NONE
    requires months == Range(frozen[Monthly] + 1, p.month) && years == Range(frozen[Yearly] + 1, p.year)
    requires gains == Gains(reg, rows, frozen, p)
    ensures offsets + Only(gains, SpansCells(reg.EdgesAt(Monthly), Monthly, months))
              + Only(gains, SpansCells(reg.EdgesAt(Yearly), Yearly, years)) == offsets + gains
  {
    var ofMonths := SpansCells(reg.EdgesAt(Monthly), Monthly, months);
    var ofYears := SpansCells(reg.EdgesAt(Yearly), Yearly, years);
    OnlyUnion(offsets, gains, ofMonths, ofYears);
    AllGains(reg, rows, frozen, p, months, years, gains, ofMonths + ofYears);
  }

  lemma OnlyAll(gains: map<Cell, int>, cells: set<Cell>)
    requires gains.Keys <= cells
    ensures Only(gains, cells) == gains
  {
  }

  lemma SpansOpen(frozen: map<Level, int>, p: Period, l: Level, ks: seq<int>)
    requires p.Valid() && (l == Monthly || l == Yearly) && l in frozen && frozen[l] >= NONE
    requires ks == Range(frozen[l] + 1, Current(p, l))
    ensures forall i :: 0 <= i < |ks| ==> ks[i] >= 0 && OpenSpan(frozen, p, l, ks[i])
  {
    PeriodInRange(p);
  }

  /** Writes the offsets of every open month and year; None when the key list overruns. */
  method WriteOffsets(reg: Registry, rows: Rows, p: Period, t: Table, m: Meta)
    returns (r: Option<(Table, Meta)>)
    requires reg.Valid() && p.Valid() && Agrees(t, m) && Sane(m)
    requires 0 <= m.Frozen(Monthly) < Months.Limit() && 0 <= m.Frozen(Yearly) < Years.Limit()
    ensures r.None? <==> CutoverFails(m, p)
    ensures r.Some? ==> Agrees(r.value.0, r.value.1) && Sane(r.value.1)
    ensures r.Some? ==> r.value.1 == m.(offsets := m.offsets +
      Gains(reg, rows, m.frozen, p))
  {
    var spans := OpenSpans(p, m);
    if spans.None? { return None; }
    var (months, years) := spans.value;
    SpansOpen(m.frozen, p, Monthly, months);
    SpansOpen(m.frozen, p, Yearly, years);
    ghost var gains := Gains(reg, rows, m.frozen, p);
    var t1, m1 := WriteLevelOffsets(reg, rows, m.frozen, p, Monthly, months, t, m, gains);
    var t2, m2 := WriteLevelOffsets(reg, rows, m.frozen, p, Yearly, years, t1, m1, gains);
    GainsWritten(reg, rows, m.frozen, p, months, years, gains, m.offsets);
    r := Some((t2, m2));
  }

  /** The open months and years; None when the key list overruns. */
  method OpenSpans(p: Period, m: Meta) returns (r: Option<(seq<int>, seq<int>)>)
    requires p.Valid() && 0 <= m.Frozen(Monthly) < Months.Limit() && 0 <= m.Frozen(Yearly) < Years.Limit()
    ensures r.None? <==> CutoverFails(m, p)
    ensures r.Some? ==> r.value == (Range(m.Frozen(Monthly) + 1, p.month), Range(m.Frozen(Yearly) + 1, p.year))
  {
    PeriodInRange(p);
    var months := StepBetween(Months, m.Frozen(Monthly), p.month);
    if months.KeyError? { return None; }
    var years := StepBetween(Years, m.Frozen(Yearly), p.year);
    if years.KeyError? { return None; }
    r := Some((months.value, years.value));
  }

  /** The first start takes over what an open month or year shows: its daily sum with the new
      offset is the stored value where that is ahead, and the plain sum otherwise. */
  lemma OpenPeriodContinues(reg: Registry, db: DB, p: Period, l: Level, k: nat, e: Edge)
    requires reg.Valid() && p.day >= CUTOVER_MARGIN && db.meta.offsets == map[]
    requires (l == Monthly || l == Yearly) && e in reg.EdgesAt(l)
    requires CutoverMeta(reg, db, p).Frozen(l) < k <= Current(p, l)
    ensures var sum, c := Sum(db.rows, e.source, PeriodFirst(l, k), Min(PeriodLast(l, k), p.day)), Cell(l, e.target, k);
      sum + CutoverMeta(reg, db, p).Offset(l, e.target, k)
        == if c in db.rows && db.rows[c] > sum then db.rows[c] else sum
  {
    SourceIsPollerKey(reg, l, e);
    var c, frozen := Cell(l, e.target, k), CutoverFrozen(db.meta, p);
    assert frozen[l] == CutoverMeta(reg, db, p).Frozen(l);
    if c in db.rows {
      assert CutoverOffset(reg, db.rows, frozen, p, c)
          == db.rows[c] - Sum(db.rows, e.source, PeriodFirst(l, k), Min(PeriodLast(l, k), p.day));
    }
  }

  // ---- marks ----

  function DayMarks(m: Meta, keys: set<string>, day: int): map<string, int> {
    map k | k in m.closedDaily.Keys + keys :: if k in keys then Max(m.Closed(k), day) else m.closedDaily[k]
  }

  function KeySet(keys: seq<string>): set<string> {
    set k | k in keys
  }

  /** Closes a day for every daily key that has not closed it yet. */
  method CloseAll(keys: seq<string>, day: nat, t: Table, m: Meta) returns (t': Table, m': Meta)
    requires Agrees(t, m) && Sane(m)
    ensures Agrees(t', m') && Sane(m')
    ensures m' == m.(closedDaily := DayMarks(m, KeySet(keys), day))
  {
    t', m' := t, m;
    assert DayMarks(m, KeySet(keys[..0]), day) == m.closedDaily;
    for i := 0 to |keys|
      invariant Agrees(t', m') && Sane(m')
      invariant m' == m.(closedDaily := DayMarks(m, KeySet(keys[..i]), day))
    {
      MoreMarks(m, m', keys, i, day);
      var mark;
      ClosedAgrees(t', m', keys[i], day);
      t', mark := Advance(t', ClosedSlot(keys[i]), m'.Closed(keys[i]), day);
      m' := m'.(closedDaily := m'.closedDaily[keys[i] := mark]);
    }
    assert keys[..|keys|] == keys;
  }

  lemma MoreMarks(m: Meta, m': Meta, keys: seq<string>, i: nat, day: nat)
    requires i < |keys| && m' == m.(closedDaily := DayMarks(m, KeySet(keys[..i]), day))
    ensures DayMarks(m, KeySet(keys[..i + 1]), day)
         == m'.closedDaily[keys[i] := Max(m'.Closed(keys[i]), day)]
  {
    assert keys[..i + 1] == keys[..i] + [keys[i]];
    assert KeySet(keys[..i + 1]) == KeySet(keys[..i]) + {keys[i]};
  }

  function FrozenAtCutover(m: Meta, p: Period): Meta
    requires p.day >= CUTOVER_MARGIN
  {
    m.(cutover := p.day, frozen := CutoverFrozen(m, p))
  }

  /** The cutover day and the three freeze marks. */
  method WriteMarks(p: Period, t: Table, m: Meta) returns (t': Table, m': Meta)
    requires p.day >= CUTOVER_MARGIN && Agrees(t, m) && Sane(m)
    ensures Agrees(t', m') && Sane(m') && m' == FrozenAtCutover(m, p)
  {
    var closedDay := p.day - CUTOVER_MARGIN;
    CutoverAgrees(t, m, p.day);
    t', m' := t[Name(CutoverSlot) := p.day], m.(cutover := p.day);
    t', m' := FreezePeriods(t', m', CutoverMarks(closedDay));
    MarksApplied(m, p);
  }

  function CutoverMarks(closedDay: nat): seq<Freeze> {
    [Freeze(Monthly, MonthOf(closedDay) - 1), Freeze(Yearly, YearOf(closedDay) - 1), Freeze(Daily, closedDay)]
  }

  lemma MarksApplied(m: Meta, p: Period)
    requires p.day >= CUTOVER_MARGIN
    ensures ApplyFreezes(m.(cutover := p.day), CutoverMarks(p.day - CUTOVER_MARGIN)) == FrozenAtCutover(m, p)
  {
    var m0, fs := m.(cutover := p.day), CutoverMarks(p.day - CUTOVER_MARGIN);
    ThreeFreezes(m0, fs[0], fs[1], fs[2], fs);
    CutoverRaises(m, m0, p, fs[0], fs[1], fs[2], RaisedBy(m0, fs[0], fs[1], fs[2]));
  }

  function RaisedBy(m: Meta, f: Freeze, g: Freeze, h: Freeze): Meta {
    m.(frozen := m.frozen[f.level := Max(m.Frozen(f.level), f.period)]
      [g.level := Max(m.Frozen(g.level), g.period)]
      [h.level := Max(m.Frozen(h.level), h.period)])
  }

  lemma ThreeFreezes(m: Meta, f: Freeze, g: Freeze, h: Freeze, fs: seq<Freeze>)
    requires fs == [f, g, h] && f.level != g.level && g.level != h.level && f.level != h.level
    ensures ApplyFreezes(m, fs) == RaisedBy(m, f, g, h)
  {
    FreezeLast(m, [], f);
    FreezeLast(m, [f], g);
    FreezeLast(m, [f, g], h);
    assert [] + [f] == [f] && [f] + [g] == [f, g] && [f, g] + [h] == fs;
  }

  lemma CutoverRaises(m: Meta, m0: Meta, p: Period, f: Freeze, g: Freeze, h: Freeze, raised: Meta)
    requires p.day >= CUTOVER_MARGIN && m0 == m.(cutover := p.day) && raised == RaisedBy(m0, f, g, h)
    requires [f, g, h] == CutoverMarks(p.day - CUTOVER_MARGIN)
    ensures raised == FrozenAtCutover(m, p)
  {
    assert f == [f, g, h][0] && g == [f, g, h][1] && h == [f, g, h][2];
  }

  lemma FreezeLast(m: Meta, fs: seq<Freeze>, f: Freeze)
    ensures var before := ApplyFreezes(m, fs);
      ApplyFreezes(m, fs + [f]) == before.(frozen := before.frozen[f.level := Max(before.Frozen(f.level), f.period)])
  {
    assert (fs + [f])[..|fs|] == fs;
  }

  /** The whole first start: marks, offsets, closed days and baseline year; None when the key
      list overruns. */
  method WriteCutover(reg: Registry, rows: Rows, p: Period, t: Table, m: Meta)
    returns (r: Option<(Table, Meta)>)
    requires reg.Valid() && p.Valid() && Agrees(t, m) && Sane(m) && InRange(m)
    ensures r.None? <==> CutoverFails(FrozenAtCutover(m, p), p)
    ensures r.Some? ==> Agrees(r.value.0, r.value.1) && Sane(r.value.1)
    ensures r.Some? ==> r.value.1 == CutoverMeta(reg, DB(rows, m), p)
  {
    var t1, m1 := WriteMarks(p, t, m);
    CutoverMarksInRange(p);
    var withOffsets := WriteOffsets(reg, rows, p, t1, m1);
    if withOffsets.None? { return None; }
    FinishedIsCutover(reg, rows, m, p);
    var t2, m2 := FinishCutover(reg, p, withOffsets.value.0, withOffsets.value.1);
    r := Some((t2, m2));
  }

  function Finished(reg: Registry, m: Meta, p: Period): Meta
    requires p.day >= CUTOVER_MARGIN
  {
    m.(closedDaily := DayMarks(m, KeySet(reg.dailyKeys), p.day - CUTOVER_MARGIN),
       baselineYear := if m.baselineYear == NONE then p.year - 1 else m.baselineYear)
  }

  /** Closes the day before yesterday for every daily key, and starts the baseline. */
  method FinishCutover(reg: Registry, p: Period, t: Table, m: Meta) returns (t': Table, m': Meta)
    requires p.Valid() && Agrees(t, m) && Sane(m)
    ensures Agrees(t', m') && Sane(m') && m' == Finished(reg, m, p)
  {
    t', m' := CloseAll(reg.dailyKeys, p.day - CUTOVER_MARGIN, t, m);
    t', m' := FirstBaselineYear(p, t', m');
  }

  /** The baseline starts with the year before the cutover. */
  method FirstBaselineYear(p: Period, t: Table, m: Meta) returns (t': Table, m': Meta)
    requires p.Valid() && Agrees(t, m) && Sane(m)
    ensures Agrees(t', m') && Sane(m')
    ensures m' == if m.baselineYear == NONE then m.(baselineYear := p.year - 1) else m
  {
    t', m' := t, m;
    if m.baselineYear == NONE {
      YearBefore(p);
      BaselineYearAgrees(t, m, p.year - 1);
      t', m' := t[Name(BaselineYearSlot) := p.year - 1], m.(baselineYear := p.year - 1);
    }
  }

  lemma FinishedIsCutover(reg: Registry, rows: Rows, m: Meta, p: Period)
    requires p.day >= CUTOVER_MARGIN
    ensures var f := FrozenAtCutover(m, p);
      Finished(reg, f.(offsets := f.offsets + Gains(reg, rows, f.frozen, p)), p)
      == CutoverMeta(reg, DB(rows, m), p)
  {
  }

  lemma YearBefore(p: Period)
    requires p.Valid()
    ensures p.year >= 1
  {
    AfterYearOne(p.day);
  }

  lemma CutoverMarksInRange(p: Period)
    requires p.Valid()
    ensures var d := p.day - CUTOVER_MARGIN;
      && 0 <= MonthOf(d) - 1 < Months.Limit() && 0 <= YearOf(d) - 1 < Years.Limit()
  {
    var d := p.day - CUTOVER_MARGIN;
    AfterYearOne(d);
    PeriodInRange(p);
    MonthReached(p.day, MonthOf(d));
  }
}
