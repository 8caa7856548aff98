/** The bodies of the store's transactions (internal/storage): each works on copies of the
    rows, the meta table and the state in memory, and keeps the last two in agreement. */
module Transactions {
  import opened Calendar
  import opened Registers
  import opened Energy
  import opened Plan
  import opened Ledger
  import opened MetaTable

  /** Why a row was skipped; the rest of its transaction still commits. */
  datatype Rejection =
    | UnknownKey(key: string)
    | WriteDomain(key: string)
    | PeriodClosed(level: Level, key: string, period: int)

  datatype Tx<+T> = Committed(value: T) | RolledBack

  datatype PeriodRow = PeriodRow(level: Level, key: string, period: int, value: int)

  /** A changed status register, timestamped in milliseconds. */
  datatype StatusRow = StatusRow(key: string, at: int, raw: int)

  /** error_data: one raw value per key and timestamp. */
  type StatusLog = map<(string, int), int>

  /** Every watermark is a period or not set. */
  ghost predicate Sane(m: Meta) {
    && (forall k :: k in m.closedDaily ==> m.closedDaily[k] >= NONE)
    && (forall l :: l in m.frozen ==> m.frozen[l] >= NONE)
    && m.baselineYear >= NONE && m.purgedBefore >= NONE && m.cutover >= NONE
  }

  // ---- what a transaction rejects ----

  function DailyError(reg: Registry, m: Meta, r: DailyRow): (e: Option<Rejection>)
    ensures e.None? <==> RowAccepted(reg, m, r)
  {
    if r.key !in reg.byKey then Some(UnknownKey(r.key))
    else if !reg.byKey[r.key].PollerOwned() then Some(WriteDomain(r.key))
    else if r.day <= m.Closed(r.key) then Some(PeriodClosed(Daily, r.key, r.day))
    else None
  }

  function StatusError(reg: Registry, r: StatusRow): (e: Option<Rejection>)
    ensures e.None? <==> r.key in reg.byKey && reg.byKey[r.key].store == StoreStatus
  {
    if r.key !in reg.byKey then Some(UnknownKey(r.key))
    else if reg.byKey[r.key].store != StoreStatus then Some(WriteDomain(r.key))
    else None
  }

  function CloseError(reg: Registry, c: DayClose): (e: Option<Rejection>)
    ensures e.None? <==> PollerKey(reg, c.key)
  {
    if c.key !in reg.byKey then Some(UnknownKey(c.key))
    else if !reg.byKey[c.key].PollerOwned() then Some(WriteDomain(c.key))
    else None
  }

  function ComputedError(reg: Registry, m: Meta, r: PeriodRow): (e: Option<Rejection>)
    ensures e.None? <==> ComputedAccepted(reg, m, r.level, r.key, r.period)
  {
    if r.key !in reg.byKey then Some(UnknownKey(r.key))
    else if !InDomain(reg, r.level, r.key) then Some(WriteDomain(r.key))
    else if r.level != Total && r.period <= m.Frozen(r.level) then Some(PeriodClosed(r.level, r.key, r.period))
    else None
  }

  function Added(rejected: seq<Rejection>, e: Option<Rejection>): seq<Rejection> {
    if e.Some? then rejected + [e.value] else rejected
  }

  function DailyRejections(reg: Registry, m: Meta, rs: seq<DailyRow>): seq<Rejection> {
    if rs == [] then []
    else Added(DailyRejections(reg, m, rs[..|rs| - 1]), DailyError(reg, m, rs[|rs| - 1]))
  }

  function StatusRejections(reg: Registry, ss: seq<StatusRow>): seq<Rejection> {
    if ss == [] then [] else Added(StatusRejections(reg, ss[..|ss| - 1]), StatusError(reg, ss[|ss| - 1]))
  }

  /** Of two changes of one key in the same millisecond the later one stays. */
  function Logged(reg: Registry, log: StatusLog, ss: seq<StatusRow>): StatusLog {
    if ss == [] then log
    else
      var before, r := Logged(reg, log, ss[..|ss| - 1]), ss[|ss| - 1];
      if StatusError(reg, r).None? then before[(r.key, r.at) := r.raw] else before
  }

  /** An accepted change of a key and time that no later one overrides. */
  ghost predicate LastChange(reg: Registry, ss: seq<StatusRow>, i: int, key: string, at: int) {
    && 0 <= i < |ss| && ss[i].key == key && ss[i].at == at && StatusError(reg, ss[i]).None?
    && forall j :: i < j < |ss| && ss[j].key == key && ss[j].at == at ==> StatusError(reg, ss[j]).Some?
  }

  /** The log holds the last accepted change of each key and time; where there is none it is
      as it was. */
  lemma {:induction false} LastChangeStays(
    reg: Registry, log: StatusLog, ss: seq<StatusRow>, key: string, at: int)
    ensures var log' := Logged(reg, log, ss);
      if exists i :: LastChange(reg, ss, i, key, at)
      then exists i :: LastChange(reg, ss, i, key, at) && (key, at) in log' && log'[(key, at)] == ss[i].raw
      else ((key, at) in log' <==> (key, at) in log) && ((key, at) in log ==> log'[(key, at)] == log[(key, at)])
  {
    if ss != [] {
      var n := |ss| - 1;
      LastChangeStays(reg, log, ss[..n], key, at);
      if ss[n].key == key && ss[n].at == at && StatusError(reg, ss[n]).None? {
        assert LastChange(reg, ss, n, key, at);
      } else {
        ChangesBefore(reg, ss, ss[..n], key, at);
      }
    }
  }

  lemma ChangesBefore(reg: Registry, ss: seq<StatusRow>, before: seq<StatusRow>, key: string, at: int)
    requires ss != [] && before == ss[..|ss| - 1]
    requires var r := ss[|ss| - 1]; !(r.key == key && r.at == at && StatusError(reg, r).None?)
    ensures forall i :: LastChange(reg, ss, i, key, at) <==> LastChange(reg, before, i, key, at)
  {
    forall i | LastChange(reg, before, i, key, at)
      ensures LastChange(reg, ss, i, key, at)
    {
      assert forall j :: i < j < |before| ==> before[j] == ss[j];
    }
    forall i | LastChange(reg, ss, i, key, at)
      ensures LastChange(reg, before, i, key, at)
    {
      assert forall j :: i < j < |before| ==> before[j] == ss[j];
    }
  }

  function CloseRejections(reg: Registry, cs: seq<DayClose>): seq<Rejection> {
    if cs == [] then [] else Added(CloseRejections(reg, cs[..|cs| - 1]), CloseError(reg, cs[|cs| - 1]))
  }

  function ComputedRejections(reg: Registry, m: Meta, rs: seq<PeriodRow>): seq<Rejection> {
    if rs == [] then []
    else Added(ComputedRejections(reg, m, rs[..|rs| - 1]), ComputedError(reg, m, rs[|rs| - 1]))
  }

  /** Rows land one by one in list order. */
  function ApplyRows(reg: Registry, m: Meta, rows: Rows, rs: seq<PeriodRow>): Rows {
    if rs == [] then rows
    else
      var before, r := ApplyRows(reg, m, rows, rs[..|rs| - 1]), rs[|rs| - 1];
      if ComputedAccepted(reg, m, r.level, r.key, r.period)
      then before[Cell(r.level, r.key, r.period) := r.value] else before
  }

  // ---- what a table row and its field in memory keep ----

  lemma ClosedAgrees(t: Table, m: Meta, k: string, v: int)
    requires Agrees(t, m) && Sane(m)
    ensures var cur := m.Closed(k);
      var m' := m.(closedDaily := m.closedDaily[k := Max(cur, v)]);
      Sane(m') && Agrees(if v <= cur then t else Put(t, ClosedSlot(k), v), m')
  {
    var cur := m.Closed(k);
    var m' := m.(closedDaily := m.closedDaily[k := Max(cur, v)]);
    if v > cur {
      PutAgrees(t, m, m', ClosedSlot(k), v);
    }
  }

  lemma FrozenAgrees(t: Table, m: Meta, l: Level, v: int)
    requires Agrees(t, m) && Sane(m) && l != Total
    ensures var cur := m.Frozen(l);
      var m' := m.(frozen := m.frozen[l := Max(cur, v)]);
      Sane(m') && Agrees(if v <= cur then t else Put(t, FrozenSlot(l), v), m')
  {
    var cur := m.Frozen(l);
    var m' := m.(frozen := m.frozen[l := Max(cur, v)]);
    if v > cur {
      PutAgrees(t, m, m', FrozenSlot(l), v);
    }
  }

  lemma BaselineAgrees(t: Table, m: Meta, k: string, v: int)
    requires Agrees(t, m) && Sane(m)
    ensures var m' := m.(baseline := m.baseline[k := v]);
      Sane(m') && Agrees(Put(t, BaselineSlot(k), v), m')
  {
    PutAgrees(t, m, m.(baseline := m.baseline[k := v]), BaselineSlot(k), v);
  }

  lemma BaselineYearAgrees(t: Table, m: Meta, y: nat)
    requires Agrees(t, m) && Sane(m)
    ensures var m' := m.(baselineYear := y); Sane(m') && Agrees(Put(t, BaselineYearSlot, y), m')
  {
    PutAgrees(t, m, m.(baselineYear := y), BaselineYearSlot, y);
  }

  lemma PurgedAgrees(t: Table, m: Meta, d: nat)
    requires Agrees(t, m) && Sane(m)
    ensures var m' := m.(purgedBefore := d); Sane(m') && Agrees(Put(t, PurgedSlot, d), m')
  {
    PutAgrees(t, m, m.(purgedBefore := d), PurgedSlot, d);
  }

  lemma CutoverAgrees(t: Table, m: Meta, d: nat)
    requires Agrees(t, m) && Sane(m)
    ensures var m' := m.(cutover := d); Sane(m') && Agrees(Put(t, CutoverSlot, d), m')
  {
    PutAgrees(t, m, m.(cutover := d), CutoverSlot, d);
  }

  lemma OffsetAgrees(t: Table, m: Meta, c: Cell, v: int)
    requires Agrees(t, m) && Sane(m) && OffsetCell(c)
    ensures var m' := m.(offsets := m.offsets[c := v]); Sane(m') && Agrees(Put(t, OffsetSlot(c), v), m')
  {
    PutAgrees(t, m, m.(offsets := m.offsets[c := v]), OffsetSlot(c), v);
  }

  /** The watermark moves only forward, and its row with it. */
  method Advance(t: Table, s: Slot, cur: int, v: int) returns (t': Table, mark: int)
    requires s.Valid()
    ensures mark == Max(cur, v)
    ensures t' == if v <= cur then t else Put(t, s, v)
  {
    if v <= cur {
      return t, cur;
    }
    return t[Name(s) := v], v;
  }

  method WriteDaily(reg: Registry, m: Meta, rows: Rows, r: DailyRow)
    returns (out: Rows, rejected: Option<Rejection>)
    ensures rejected == DailyError(reg, m, r)
    ensures out == if RowAccepted(reg, m, r) then MaxWrite(rows, r) else rows
  {
    if r.key !in reg.byKey {
      return rows, Some(UnknownKey(r.key));
    }
    var register := reg.byKey[r.key];
    if register.store != StoreDaily || register.net {
      return rows, Some(WriteDomain(r.key));
    }
    if r.day <= m.Closed(r.key) {
      return rows, Some(PeriodClosed(Daily, r.key, r.day));
    }
    var c := Cell(Daily, r.key, r.day);
    if c in rows && !(r.value > rows[c]) {
      return rows, None;
    }
    return rows[c := r.value], None;
  }

  method CloseDay(reg: Registry, t: Table, m: Meta, c: DayClose)
    returns (t': Table, m': Meta, rejected: Option<Rejection>)
    requires Agrees(t, m) && Sane(m)
    ensures Agrees(t', m') && Sane(m')
    ensures rejected == CloseError(reg, c)
    ensures m' == if PollerKey(reg, c.key)
                  then m.(closedDaily := m.closedDaily[c.key := Max(m.Closed(c.key), c.day)]) else m
  {
    if c.key !in reg.byKey {
      return t, m, Some(UnknownKey(c.key));
    }
    var register := reg.byKey[c.key];
    if register.store != StoreDaily || register.net {
      return t, m, Some(WriteDomain(c.key));
    }
    var mark;
    ClosedAgrees(t, m, c.key, c.day);
    t', mark := Advance(t, ClosedSlot(c.key), m.Closed(c.key), c.day);
    return t', m.(closedDaily := m.closedDaily[c.key := mark]), None;
  }

  method WriteComputedRow(reg: Registry, m: Meta, rows: Rows, r: PeriodRow)
    returns (out: Rows, rejected: Option<Rejection>)
    ensures rejected == ComputedError(reg, m, r)
    ensures out == if ComputedAccepted(reg, m, r.level, r.key, r.period)
                   then rows[Cell(r.level, r.key, r.period) := r.value] else rows
  {
    if r.key !in reg.byKey {
      return rows, Some(UnknownKey(r.key));
    }
    var register := reg.byKey[r.key];
    if register.store != StoreForLevel(r.level) {
      return rows, Some(WriteDomain(r.key));
    }
    if !register.Computed() || (r.level == Daily && !register.net) {
      return rows, Some(WriteDomain(r.key));
    }
    if r.level != Total && r.period <= m.Frozen(r.level) {
      return rows, Some(PeriodClosed(r.level, r.key, r.period));
    }
    return rows[Cell(r.level, r.key, r.period) := r.value], None;
  }

  method FreezePeriods(t: Table, m: Meta, fs: seq<Freeze>) returns (t': Table, m': Meta)
    requires Agrees(t, m) && Sane(m) && forall f :: f in fs ==> f.level != Total
    ensures Agrees(t', m') && Sane(m') && m' == ApplyFreezes(m, fs)
  {
    t', m' := t, m;
    for i := 0 to |fs|
      invariant Agrees(t', m') && Sane(m') && m' == ApplyFreezes(m, fs[..i])
    {
      assert fs[..i + 1][..i] == fs[..i];
      var mark;
      FrozenAgrees(t', m', fs[i].level, fs[i].period);
      t', mark := Advance(t', FrozenSlot(fs[i].level), m'.Frozen(fs[i].level), fs[i].period);
      m' := m'.(frozen := m'.frozen[fs[i].level := mark]);
    }
    assert fs[..|fs|] == fs;
  }

  /** The amounts of all keys but those left have been added. */
  ghost predicate PartlyFolded(base: Values, add: Values, left: set<string>, now: Values) {
    && now.Keys == base.Keys + (add.Keys - left)
    && forall k :: k in now ==> now[k] == Get(base, k) + if k in left then 0 else Get(add, k)
  }

  lemma OneMoreKey(base: Values, add: Values, left: set<string>, now: Values, k: string)
    requires PartlyFolded(base, add, left, now) && k in left && left <= add.Keys
    ensures PartlyFolded(base, add, left - {k}, now[k := Get(now, k) + add[k]])
  {
  }

  lemma AllKeysFolded(base: Values, add: Values, now: Values)
    requires PartlyFolded(base, add, {}, now)
    ensures now == Folded(base, add)
  {
  }

  method FoldYear(t: Table, m: Meta, f: BaselineFold) returns (t': Table, m': Meta)
    requires Agrees(t, m) && Sane(m)
    ensures Agrees(t', m') && Sane(m') && m' == ApplyFold(m, f)
  {
    t', m' := t, m;
    if f.year <= m.baselineYear {
      return;
    }
    var todo := f.add.Keys;
    while todo != {}
      invariant todo <= f.add.Keys
      invariant Agrees(t', m') && Sane(m') && m' == m.(baseline := m'.baseline)
      invariant PartlyFolded(m.baseline, f.add, todo, m'.baseline)
      decreases todo
    {
      var k :| k in todo;
      var sum := Get(m'.baseline, k) + f.add[k];
      OneMoreKey(m.baseline, f.add, todo, m'.baseline, k);
      BaselineAgrees(t', m', k, sum);
      t', m' := t'[Name(BaselineSlot(k)) := sum], m'.(baseline := m'.baseline[k := sum]);
      todo := todo - {k};
    }
    AllKeysFolded(m.baseline, f.add, m'.baseline);
    BaselineYearAgrees(t', m', f.year);
    t', m' := t'[Name(BaselineYearSlot) := f.year], m'.(baselineYear := f.year);
  }

  method FoldYears(t: Table, m: Meta, folds: seq<BaselineFold>) returns (t': Table, m': Meta)
    requires Agrees(t, m) && Sane(m)
    ensures Agrees(t', m') && Sane(m') && m' == ApplyFolds(m, folds)
  {
    t', m' := t, m;
    for i := 0 to |folds|
      invariant Agrees(t', m') && Sane(m') && m' == ApplyFolds(m, folds[..i])
    {
      assert folds[..i + 1][..i] == folds[..i];
      t', m' := FoldYear(t', m', folds[i]);
    }
    assert folds[..|folds|] == folds;
  }

  method ApplyDailies(reg: Registry, m: Meta, rows: Rows, rs: seq<DailyRow>)
    returns (out: Rows, rejected: seq<Rejection>)
    ensures out == WriteDailies(reg, m, rows, rs) && rejected == DailyRejections(reg, m, rs)
  {
    out, rejected := rows, [];
    for i := 0 to |rs|
      invariant out == WriteDailies(reg, m, rows, rs[..i]) && rejected == DailyRejections(reg, m, rs[..i])
    {
      assert rs[..i + 1][..i] == rs[..i];
      var e;
      out, e := WriteDaily(reg, m, out, rs[i]);
      rejected := Added(rejected, e);
    }
    assert rs[..|rs|] == rs;
  }

  method ApplyStatuses(reg: Registry, log: StatusLog, ss: seq<StatusRow>)
    returns (out: StatusLog, rejected: seq<Rejection>)
    ensures out == Logged(reg, log, ss) && rejected == StatusRejections(reg, ss)
  {
    out, rejected := log, [];
    for i := 0 to |ss|
      invariant out == Logged(reg, log, ss[..i]) && rejected == StatusRejections(reg, ss[..i])
    {
      assert ss[..i + 1][..i] == ss[..i];
      var e := StatusError(reg, ss[i]);
      if e.None? {
        out := out[(ss[i].key, ss[i].at) := ss[i].raw];
      }
      rejected := Added(rejected, e);
    }
    assert ss[..|ss|] == ss;
  }

  method ApplyCloses(reg: Registry, t: Table, m: Meta, cs: seq<DayClose>)
    returns (t': Table, m': Meta, rejected: seq<Rejection>)
    requires Agrees(t, m) && Sane(m)
    ensures Agrees(t', m') && Sane(m')
    ensures m' == CloseDays(reg, m, cs) && rejected == CloseRejections(reg, cs)
  {
    t', m', rejected := t, m, [];
    for i := 0 to |cs|
      invariant Agrees(t', m') && Sane(m')
      invariant m' == CloseDays(reg, m, cs[..i]) && rejected == CloseRejections(reg, cs[..i])
    {
      assert cs[..i + 1][..i] == cs[..i];
      var e;
      t', m', e := CloseDay(reg, t', m', cs[i]);
      rejected := Added(rejected, e);
    }
    assert cs[..|cs|] == cs;
  }

  method ApplyComputedRows(reg: Registry, m: Meta, rows: Rows, rs: seq<PeriodRow>)
    returns (out: Rows, rejected: seq<Rejection>)
    ensures out == ApplyRows(reg, m, rows, rs) && rejected == ComputedRejections(reg, m, rs)
  {
    out, rejected := rows, [];
    for i := 0 to |rs|
      invariant out == ApplyRows(reg, m, rows, rs[..i]) && rejected == ComputedRejections(reg, m, rs[..i])
    {
      assert rs[..i + 1][..i] == rs[..i];
      var e;
      out, e := WriteComputedRow(reg, m, out, rs[i]);
      rejected := Added(rejected, e);
    }
    assert rs[..|rs|] == rs;
  }

  /** The DELETE of one table: the rows of a level before a period. */
  function Before(rows: Rows, l: Level, limit: int): Rows {
    map c | c in rows && c.level == l && c.period < limit :: rows[c]
  }

  /** One DELETE per table; counts the daily rows lost. */
  method PurgePeriods(rows: Rows, cutoff: nat) returns (kept: Rows, daily: nat)
    ensures kept == PurgedRows(rows, cutoff)
    ensures daily > 0 <==> LosesDaily(rows, cutoff)
    ensures |kept| <= |rows|
  {
    var lost := Before(rows, Daily, cutoff);
    daily := |lost|;
    kept := rows - lost.Keys;
    kept := kept - Before(kept, Monthly, MonthOf(cutoff)).Keys;
    kept := kept - Before(kept, Yearly, YearOf(cutoff)).Keys;
    PurgedIsKept(rows, kept, cutoff);
  }

  method LowestMark(m: Meta, keys: seq<string>) returns (low: int)
    requires Sane(m)
    ensures low == m.LowestClosed(keys)
  {
    low := NONE;
    for i := 0 to |keys|
      invariant forall j :: 0 <= j < i ==> low <= m.Closed(keys[j])
      invariant i > 0 ==> exists j :: 0 <= j < i && low == m.Closed(keys[j])
      invariant i == 0 ==> low == NONE
    {
      var d := m.Closed(keys[i]);
      if d == NONE {
        LowestIs(m, keys, NONE);
        return NONE;
      }
      if i == 0 || d < low {
        low := d;
      }
    }
    LowestIs(m, keys, low);
  }

  lemma PurgedIsKept(rows: Rows, kept: Rows, cutoff: nat)
    requires forall c :: c in kept <==> c in rows && !Purged(c, cutoff)
    requires forall c :: c in kept ==> kept[c] == rows[c]
    ensures kept == PurgedRows(rows, cutoff)
    ensures |Before(rows, Daily, cutoff)| > 0 <==> LosesDaily(rows, cutoff)
    ensures |kept| <= |rows|
  {
    var lost := Before(rows, Daily, cutoff);
    if |lost| > 0 {
      assert lost.Keys != {};
      var c :| c in lost.Keys;
      assert c in rows && c.level == Daily && c.period < cutoff;
    }
    if c :| c in rows && c.level == Daily && c.period < cutoff {
      assert c in lost;
    }
    Fewer(kept.Keys, rows.Keys);
  }

  lemma {:induction false} Fewer<T>(a: set<T>, b: set<T>)
    requires a <= b
    ensures |a| <= |b|
  {
    if a != {} {
      var x :| x in a;
      Fewer(a - {x}, b - {x});
    }
  }

  lemma LowestIs(m: Meta, keys: seq<string>, low: int)
    requires keys == [] ==> low == NONE
    requires keys != [] ==> exists k :: k in keys && low == m.Closed(k)
    requires forall k :: k in keys ==> low <= m.Closed(k)
    ensures low == m.LowestClosed(keys)
  {
  }
}
