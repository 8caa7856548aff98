/** The meta table and its copy in memory (internal/storage/meta.go): one text key per
    watermark, baseline and cutover offset. Values are period numbers or amounts; their
    text form is not modelled. */
module MetaTable {
  import opened Calendar
  import opened Registers
  import opened Energy
  import opened Ledger

  type Table = map<string, int>

  /** What a row of the table is about. */
  datatype Slot =
    | CutoverSlot
    | BaselineYearSlot
    | PurgedSlot
    | FrozenSlot(level: Level)
    | ClosedSlot(key: string)
    | BaselineSlot(key: string)
    | OffsetSlot(cell: Cell)
  {
    predicate Valid() {
      && (FrozenSlot? ==> level != Total)
      && (OffsetSlot? ==> OffsetCell(cell))
    }

    /** A period key rather than an amount: NONE means it is not set. */
    predicate Mark() {
      !BaselineSlot? && !OffsetSlot?
    }
  }

  const CUTOVER := "v3_cutover_date"
  const BASELINE_YEAR := "baseline_year"
  const PURGED := "purged_before"
  const NET_DAILY := "closed:netdaily"
  const MONTHLY := "closed:monthly"
  const YEARLY := "closed:yearly"
  const CLOSED := "closed:daily:"
  const BASELINE := "baseline:"
  const OFFSET := "offset:"

  /** Months and years that have a key of fixed width. */
  predicate OffsetCell(c: Cell) {
    || (c.level == Monthly && 0 <= c.period < Months.Limit())
    || (c.level == Yearly && 0 <= c.period < Years.Limit())
  }

  /** The text an offset is stored under: level, period key and register key. */
  function OffsetText(c: Cell): string
    requires OffsetCell(c)
  {
    if c.level == Monthly then "monthly:" + MonthKey(c.period) + ":" + c.key
    else "yearly:" + YearKey(c.period) + ":" + c.key
  }

  function FrozenName(l: Level): string
    requires l != Total
  {
    if l == Daily then NET_DAILY else if l == Monthly then MONTHLY else YEARLY
  }

  function Name(s: Slot): string
    requires s.Valid()
  {
    match s
    case CutoverSlot => CUTOVER
    case BaselineYearSlot => BASELINE_YEAR
    case PurgedSlot => PURGED
    case FrozenSlot(l) => FrozenName(l)
    case ClosedSlot(k) => CLOSED + k
    case BaselineSlot(k) => BASELINE + k
    case OffsetSlot(c) => OFFSET + OffsetText(c)
  }

  predicate StartsWith(s: string, prefix: string) {
    prefix <= s
  }

  /** What apply reads a row as; an offset stays keyed by its text. */
  datatype Decoded =
    | Plain(slot: Slot)
    | OffsetOf(text: string)
    | Unknown

  /** The switch of apply and applyPrefixed. */
  function Decode(name: string): Decoded {
    if name == CUTOVER then Plain(CutoverSlot)
    else if name == BASELINE_YEAR then Plain(BaselineYearSlot)
    else if name == PURGED then Plain(PurgedSlot)
    else if name == NET_DAILY then Plain(FrozenSlot(Daily))
    else if name == MONTHLY then Plain(FrozenSlot(Monthly))
    else if name == YEARLY then Plain(FrozenSlot(Yearly))
    else if StartsWith(name, CLOSED) then Plain(ClosedSlot(name[|CLOSED|..]))
    else if StartsWith(name, BASELINE) then Plain(BaselineSlot(name[|BASELINE|..]))
    else if StartsWith(name, OFFSET) then OffsetOf(name[|OFFSET|..])
    else Unknown
  }

  /** What a slot decodes to. */
  function Target(s: Slot): Decoded
    requires s.Valid()
  {
    if s.OffsetSlot? then OffsetOf(OffsetText(s.cell)) else Plain(s)
  }

  /** The prefixed keys decode uniquely, whatever the register key after the prefix. */
  lemma NameDecodes(s: Slot)
    requires s.Valid()
    ensures Decode(Name(s)) == Target(s)
  {
    match s
    case ClosedSlot(k) => PrefixApart(CLOSED, k);
    case BaselineSlot(k) => PrefixApart(BASELINE, k);
    case OffsetSlot(c) => PrefixApart(OFFSET, OffsetText(c));
    case _ =>
  }

  lemma PrefixApart(prefix: string, k: string)
    requires prefix == CLOSED || prefix == BASELINE || prefix == OFFSET
    ensures var n := prefix + k;
      && n !in {CUTOVER, BASELINE_YEAR, PURGED, NET_DAILY, MONTHLY, YEARLY}
      && n[|prefix|..] == k && StartsWith(n, prefix)
      && forall p :: p in {CLOSED, BASELINE, OFFSET} && StartsWith(n, p) ==> p == prefix
  {
    var n := prefix + k;
    assert n[0] == prefix[0] && n[2] == prefix[2];
    if prefix == CLOSED {
      assert n[7] == 'd';
    } else if prefix == BASELINE {
      assert n[8] == ':';
      assert BASELINE_YEAR[8] == '_';
    }
  }

  lemma CutAfter(a: string, b: string, x: string, y: string)
    requires |a| == |b| && a + x == b + y
    ensures a == b && x == y
  {
    assert a == (a + x)[..|a|] && b == (b + y)[..|b|];
    assert x == (a + x)[|a|..] && y == (b + y)[|b|..];
  }

  lemma OffsetTextUnique(c: Cell, d: Cell)
    requires OffsetCell(c) && OffsetCell(d) && OffsetText(c) == OffsetText(d)
    ensures c == d
  {
    assert OffsetText(c)[0] == (if c.level == Monthly then 'm' else 'y');
    assert OffsetText(d)[0] == (if d.level == Monthly then 'm' else 'y');
    if c.level == Monthly {
      MonthKeyOrder(c.period, d.period);
      PeriodTextUnique("monthly:", MonthKey(c.period), MonthKey(d.period), c.key, d.key);
    } else {
      assert Pow10(4) == 10_000;
      DigitsOrder(c.period, d.period, 4);
      PeriodTextUnique("yearly:", YearKey(c.period), YearKey(d.period), c.key, d.key);
    }
  }

  lemma PeriodTextUnique(head: string, p: string, q: string, k: string, l: string)
    requires |p| == |q| && head + p + ":" + k == head + q + ":" + l
    ensures p == q && k == l
  {
    CutAfter(head + p + ":", head + q + ":", k, l);
    CutAfter(head + p, head + q, ":", ":");
    CutAfter(head, head, p, q);
  }

  /** No two slots share a text key. */
  lemma NameUnique(s: Slot, t: Slot)
    requires s.Valid() && t.Valid() && Name(s) == Name(t)
    ensures s == t
  {
    NameDecodes(s);
    NameDecodes(t);
    if s.OffsetSlot? && t.OffsetSlot? {
      OffsetTextUnique(s.cell, t.cell);
    }
  }

  // ---- the copy in memory ----

  function Marked(v: int): Option<int> {
    if v == NONE then None else Some(v)
  }

  /** The value the state in memory holds for a slot. */
  function Entry(m: Meta, s: Slot): Option<int>
    requires s.Valid()
  {
    match s
    case CutoverSlot => Marked(m.cutover)
    case BaselineYearSlot => Marked(m.baselineYear)
    case PurgedSlot => Marked(m.purgedBefore)
    case FrozenSlot(l) => Marked(m.Frozen(l))
    case ClosedSlot(k) => Marked(m.Closed(k))
    case BaselineSlot(k) => if k in m.baseline then Some(m.baseline[k]) else None
    case OffsetSlot(c) => if c in m.offsets then Some(m.offsets[c]) else None
  }

  function Stored(t: Table, s: Slot): Option<int>
    requires s.Valid()
  {
    if Name(s) in t then Some(t[Name(s)]) else None
  }

  /** The meta table says exactly what the state in memory says. */
  ghost predicate Agrees(t: Table, m: Meta) {
    && (forall s: Slot :: s.Valid() ==> Stored(t, s) == Entry(m, s))
    && (forall c :: c in m.offsets ==> OffsetCell(c))
  }

  function Put(t: Table, s: Slot, v: int): Table
    requires s.Valid()
  {
    t[Name(s) := v]
  }

  lemma PutStored(t: Table, s: Slot, v: int, other: Slot)
    requires s.Valid() && other.Valid()
    ensures Stored(Put(t, s, v), other) == if other == s then Some(v) else Stored(t, other)
  {
    if Name(s) == Name(other) {
      NameUnique(s, other);
    }
  }

  /** Writing a row and its field in memory together keeps them in agreement. */
  lemma PutAgrees(t: Table, m: Meta, m': Meta, s: Slot, v: int)
    requires Agrees(t, m) && s.Valid()
    requires forall o: Slot :: o.Valid() ==> Entry(m', o) == if o == s then Some(v) else Entry(m, o)
    requires forall c :: c in m'.offsets ==> OffsetCell(c)
    ensures Agrees(Put(t, s, v), m')
  {
    forall o: Slot | o.Valid()
      ensures Stored(Put(t, s, v), o) == Entry(m', o)
    {
      PutStored(t, s, v, o);
    }
  }

  lemma DeleteAgrees(t: Table, m: Meta, c: Cell)
    requires Agrees(t, m) && c in m.offsets
    ensures OffsetCell(c)
    ensures Agrees(t - {Name(OffsetSlot(c))}, m.(offsets := m.offsets - {c}))
  {
    forall o: Slot | o.Valid() && Name(o) == Name(OffsetSlot(c))
      ensures o == OffsetSlot(c)
    {
      NameUnique(o, OffsetSlot(c));
    }
  }

  // ---- loading ----

  /** The state a load builds, with offsets keyed by their text. */
  datatype Loaded = Loaded(
    cutover: int, closedDaily: map<string, int>, frozen: map<Level, int>, baselineYear: int,
    baseline: Values, offsets: Values, purgedBefore: int)
  {
    function Apply(name: string, v: int): Loaded {
      Set(Decode(name), v)
    }

    function Set(d: Decoded, v: int): Loaded {
      match d
      case Plain(CutoverSlot) => this.(cutover := v)
      case Plain(BaselineYearSlot) => this.(baselineYear := v)
      case Plain(PurgedSlot) => this.(purgedBefore := v)
      case Plain(FrozenSlot(l)) => this.(frozen := frozen[l := v])
      case Plain(ClosedSlot(k)) => this.(closedDaily := closedDaily[k := v])
      case Plain(BaselineSlot(k)) => this.(baseline := baseline[k := v])
      case OffsetOf(text) => this.(offsets := offsets[text := v])
      case _ => this
    }

    /** What a lookup of a slot finds. */
    function Find(s: Slot): Option<int>
      requires s.Valid()
    {
      match s
      case CutoverSlot => Marked(cutover)
      case BaselineYearSlot => Marked(baselineYear)
      case PurgedSlot => Marked(purgedBefore)
      case FrozenSlot(l) => if l in frozen then Marked(frozen[l]) else None
      case ClosedSlot(k) => if k in closedDaily then Marked(closedDaily[k]) else None
      case BaselineSlot(k) => if k in baseline then Some(baseline[k]) else None
      case OffsetSlot(c) => if OffsetText(c) in offsets then Some(offsets[OffsetText(c)]) else None
    }
  }

  const EMPTY := Loaded(NONE, map[], map[], NONE, map[], map[], NONE)

  lemma ApplyFinds(m: Loaded, name: string, v: int, s: Slot)
    requires s.Valid() && (s.Mark() ==> v != NONE)
    ensures m.Apply(name, v).Find(s) == if name == Name(s) then Some(v) else m.Find(s)
  {
    SetFinds(m, Decode(name), v, s);
    if name == Name(s) {
      NameDecodes(s);
    } else if Decode(name) == Target(s) {
      DecodedName(name, s);
    }
  }

  lemma SetFinds(m: Loaded, d: Decoded, v: int, s: Slot)
    requires s.Valid() && (s.Mark() ==> v != NONE)
    ensures m.Set(d, v).Find(s) == if d == Target(s) then Some(v) else m.Find(s)
  {
    if d == Target(s) {
      SetOwn(m, v, s);
    } else {
      SetKeepsOthers(m, d, v, s);
    }
  }

  lemma SetOwn(m: Loaded, v: int, s: Slot)
    requires s.Valid() && (s.Mark() ==> v != NONE)
    ensures m.Set(Target(s), v).Find(s) == Some(v)
  {
  }

  /** A row that decodes to a slot carries that slot's name. */
  lemma DecodedName(name: string, s: Slot)
    requires s.Valid() && Decode(name) == Target(s)
    ensures name == Name(s)
  {
    if name !in {CUTOVER, BASELINE_YEAR, PURGED, NET_DAILY, MONTHLY, YEARLY} {
      if StartsWith(name, CLOSED) {
        Rejoined(CLOSED, name);
      } else if StartsWith(name, BASELINE) {
        Rejoined(BASELINE, name);
      } else if StartsWith(name, OFFSET) {
        Rejoined(OFFSET, name);
      }
    }
  }

  lemma Rejoined(prefix: string, name: string)
    requires StartsWith(name, prefix)
    ensures name == prefix + name[|prefix|..]
  {
  }

  /** The row holds an amount, which is parsed; the other rows are taken as they are. */
  predicate HoldsAmount(name: string) {
    var d := Decode(name);
    d.OffsetOf? || (d.Plain? && d.slot.BaselineSlot?)
  }

  ghost predicate Unreadable(t: Table, garbled: set<string>) {
    exists name :: name in t && name in garbled && HoldsAmount(name)
  }

  /** Reads the whole table; `garbled` are the rows whose text is not a number. It fails
      exactly when an amount is garbled; otherwise, in whatever order the rows come, every
      slot is found with its stored value. */
  method Load(t: Table, garbled: set<string>) returns (r: Option<Loaded>)
    requires forall s: Slot :: s.Valid() && s.Mark() ==> Stored(t, s) != Some(NONE)
    ensures r.None? <==> Unreadable(t, garbled)
    ensures r.Some? ==> forall s: Slot :: s.Valid() ==> r.value.Find(s) == Stored(t, s)
  {
    var m := EMPTY;
    var todo := t.Keys;
    while todo != {}
      invariant todo <= t.Keys
      invariant forall name :: name in t && name !in todo && name in garbled ==> !HoldsAmount(name)
      invariant forall s: Slot :: s.Valid() ==> m.Find(s) == if Name(s) in todo then None else Stored(t, s)
      decreases todo
    {
      var name :| name in todo;
      if name in garbled && HoldsAmount(name) {
        return None;
      }
      LoadOne(t, m, name);
      m := m.Apply(name, t[name]);
      todo := todo - {name};
    }
    r := Some(m);
  }

  lemma LoadOne(t: Table, m: Loaded, name: string)
    requires name in t && forall s: Slot :: s.Valid() && s.Mark() ==> Stored(t, s) != Some(NONE)
    ensures forall s: Slot :: s.Valid() ==>
      m.Apply(name, t[name]).Find(s) == if name == Name(s) then Some(t[name]) else m.Find(s)
  {
    forall s: Slot | s.Valid()
      ensures m.Apply(name, t[name]).Find(s) == if name == Name(s) then Some(t[name]) else m.Find(s)
    {
      if s.Mark() && t[name] == NONE {
        OtherMark(t, m, name, s);
      } else {
        ApplyFinds(m, name, t[name], s);
      }
    }
  }

  /** A row holding NONE is not the row of a mark. */
  lemma OtherMark(t: Table, m: Loaded, name: string, s: Slot)
    requires name in t && t[name] == NONE && s.Valid() && s.Mark()
    requires forall o: Slot :: o.Valid() && o.Mark() ==> Stored(t, o) != Some(NONE)
    ensures name != Name(s) && m.Apply(name, NONE).Find(s) == m.Find(s)
  {
    assert Stored(t, s) != Some(NONE);
    if Decode(name) == Target(s) {
      DecodedName(name, s);
    }
    SetKeepsOthers(m, Decode(name), NONE, s);
  }

  lemma SetKeepsOthers(m: Loaded, d: Decoded, v: int, s: Slot)
    requires s.Valid() && d != Target(s)
    ensures m.Set(d, v).Find(s) == m.Find(s)
  {
    if d.Plain? {
      PlainKeepsOthers(m, d.slot, v, s);
    } else if s.OffsetSlot? {
      assert d.OffsetOf? ==> d.text != OffsetText(s.cell);
    }
  }

  lemma PlainKeepsOthers(m: Loaded, o: Slot, v: int, s: Slot)
    requires s.Valid() && Plain(o) != Target(s)
    ensures m.Set(Plain(o), v).Find(s) == m.Find(s)
  {
  }

  /** Restarting on a table that agrees with the state in memory finds that state again. */
  lemma AgreedIsFound(t: Table, m: Meta, l: Loaded, s: Slot)
    requires Agrees(t, m) && s.Valid()
    requires forall o: Slot :: o.Valid() ==> l.Find(o) == Stored(t, o)
    ensures l.Find(s) == Entry(m, s)
    ensures s.Mark() ==> Stored(t, s) != Some(NONE)
  {
  }
}
