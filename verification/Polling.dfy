/** The poller loop as a step system (internal/poller/poller.go, cycle.go): polls in any key
    order, failed writes, outages, restarts, and what other writers do to the store. */
module Polling {
  import opened Calendar
  import opened Registers
  import opened Energy
  import opened Plan
  import opened Ledger
  import opened PollStep
  import opened Rollover
  import opened Attribution

  datatype Reading = Reading(key: string, value: nat)

  /** The loop's own state: the attributor, and the closes no write has committed yet. */
  datatype Loop = Loop(attr: Attr, pending: map<string, int>)

  function Merged(pending: map<string, int>, closes: map<string, int>): map<string, int> {
    map k | k in pending.Keys + closes.Keys :: if k in closes then Max(ClosedOf(pending, k), closes[k]) else pending[k]
  }

  function ForcedLoop(r: Time, now: int, l: Loop): Loop {
    Loop(Forced(r, now, l.attr), Merged(l.pending, ForcedCloses(r, now, l.attr)))
  }

  function ReadOne(r: Time, now: int, l: Loop, x: Reading): (Loop, seq<DailyRow>) {
    var (a, out) := AttributedOne(r, now, l.attr, x.key, x.value);
    (Loop(a, if out.closed != NONE then l.pending[x.key := Max(ClosedOf(l.pending, x.key), out.closed)] else l.pending),
     if out.decision == Discard then [] else [DailyRow(x.key, out.day, x.value)])
  }

  /** The values of one poll, one after the other, and the rows they give. */
  function ReadAll(r: Time, now: int, l: Loop, xs: seq<Reading>): (Loop, seq<DailyRow>) {
    if xs == [] then (l, [])
    else
      var (before, rows) := ReadAll(r, now, l, xs[..|xs| - 1]);
      var (after, more) := ReadOne(r, now, before, xs[|xs| - 1]);
      (after, rows + more)
  }

  lemma ReadAllMore(r: Time, now: int, l: Loop, xs: seq<Reading>, i: nat)
    requires i < |xs|
    ensures var (before, rows) := ReadAll(r, now, l, xs[..i]);
      var (after, more) := ReadOne(r, now, before, xs[i]);
      ReadAll(r, now, l, xs[..i + 1]) == (after, rows + more)
  {
    assert xs[..i + 1][..i] == xs[..i];
  }

  /** The poller and the store; clean as long as every write since the last start committed. */
  datatype State = State(loop: Loop, db: DB, last: int, clean: bool)

  datatype Event =
    | Poll(now: int, xs: seq<Reading>, closes: seq<DayClose>, commits: bool)
    | Down(now: int, closes: seq<DayClose>, commits: bool)
    | Restart(now: int)
    | Others(db: DB)

  ghost predicate ListsPending(closes: seq<DayClose>, pending: map<string, int>) {
    && (forall c :: c in closes ==> c.key in pending && c.day == pending[c.key])
    && (forall k :: k in pending ==> DayClose(k, pending[k]) in closes)
  }

  /** What retention, the aggregator and backfills leave alone: the closed days and every
      row of a counter's open days. */
  ghost predicate OtherWriters(reg: Registry, db: DB, db': DB) {
    && db'.meta.closedDaily == db.meta.closedDaily
    && forall k, d :: PollerKey(reg, k) ==>
         var c := Cell(Daily, k, d);
         && (c in db'.rows ==> c in db.rows && db'.rows[c] == db.rows[c])
         && (d > db.meta.Closed(k) && c in db.rows ==> c in db'.rows)
  }

  /** One poll up to its write. */
  function Polled(r: Time, s: State, now: int, xs: seq<Reading>): (Loop, seq<DailyRow>) {
    ReadAll(r, now, ForcedLoop(r, now, s.loop), xs)
  }

  ghost predicate Enabled(reg: Registry, r: Time, s: State, e: Event) {
    match e
    case Poll(now, xs, closes, _) => now >= s.last && ListsPending(closes, Polled(r, s, now, xs).0.pending)
    case Down(now, closes, _) => now >= s.last && ListsPending(closes, ForcedLoop(r, now, s.loop).pending)
    case Restart(now) => now >= s.last
    case Others(db) => OtherWriters(reg, s.db, db)
  }

  function Fresh(keys: set<string>): Attr {
    Attr(map k | k in keys :: UNSEEDED, NONE)
  }

  function Started(r: Time, keys: set<string>, db: DB, now: int): State {
    State(Loop(Seeded(r, now, Fresh(keys), db.rows, db.meta.closedDaily),
               Missed(r, now, Fresh(keys), db.meta.closedDaily)),
          db, now, true)
  }

  function Step(reg: Registry, r: Time, s: State, e: Event): State {
    match e
    case Poll(now, xs, closes, commits) =>
      var (l, rows) := Polled(r, s, now, xs);
      if commits then State(l.(pending := map[]), ApplyPoll(reg, s.db, rows, closes), now, s.clean)
      else State(l, s.db, now, false)
    case Down(now, closes, commits) =>
      var l := ForcedLoop(r, now, s.loop);
      if commits then State(l.(pending := map[]), ApplyPoll(reg, s.db, [], closes), now, s.clean)
      else State(l, s.db, now, s.clean && l.pending == map[])
    case Restart(now) => Started(r, s.loop.attr.keys.Keys, s.db, now)
    case Others(db) => s.(db := db)
  }

  /** A first start: closed days and rows lie before every day a key can have reached. */
  ghost predicate StartOk(reg: Registry, r: Time, keys: set<string>, db: DB, now: int) {
    && (forall k :: k in keys <==> PollerKey(reg, k))
    && r.Expected(now) >= 1
    && forall k :: k in keys ==> db.meta.Closed(k) < r.Reachable(now) && RowsUpTo(db.rows, k, r.Reachable(now))
  }

  ghost predicate History(reg: Registry, r: Time, ss: seq<State>, es: seq<Event>) {
    && |ss| == |es| + 1
    && (exists keys, db, now :: StartOk(reg, r, keys, db, now) && ss[0] == Started(r, keys, db, now))
    && forall i {:trigger es[i]} :: 0 <= i < |es| ==>
         Enabled(reg, r, ss[i], es[i]) && ss[i + 1] == Step(reg, r, ss[i], es[i])
  }

  // ---- the invariant of one key ----

  ghost predicate RowsUpTo(rows: Rows, k: string, day: int) {
    forall d :: Cell(Daily, k, d) in rows ==> d <= day && rows[Cell(Daily, k, d)] >= 0
  }

  /** A key's open day is the expected one or the window's opening day; every day closed for
      it, stored or pending, lies before; no row lies after. */
  ghost predicate KeyOk(r: Time, t: int, st: KeyState, pending: int, closed: int, rows: Rows, k: string) {
    && r.Expected(t) <= st.openDay <= r.Reachable(t)
    && closed < st.openDay && pending < st.openDay
    && (!st.hasBase ==> st.base == 0)
    && RowsUpTo(rows, k, st.openDay)
  }

  /** When every write committed, the stored row of the open day is the base. */
  ghost predicate KeyClean(r: Time, t: int, st: KeyState, closed: int, rows: Rows, k: string) {
    var c := Cell(Daily, k, st.openDay);
    && (c in rows <==> st.hasBase)
    && (st.hasBase ==> rows[c] == st.base)
    && (st.openDay > r.Expected(t) ==> c in rows || closed >= r.Expected(t))
  }

  lemma ForcedKeyOk(r: Time, t: int, now: int, st: KeyState, pending: int, closed: int, rows: Rows, k: string)
    requires r.Valid() && t <= now && r.Expected(t) >= 1 && KeyOk(r, t, st, pending, closed, rows, k)
    ensures var st' := ForcedKey(r, now, st);
      KeyOk(r, now, st', if st' != st then Max(pending, r.Expected(now) - 1) else pending, closed, rows, k)
  {
    DaysAdvance(r, t, now);
    ReachableIs(r, now);
  }

  lemma ForcedKeyClean(r: Time, t: int, now: int, st: KeyState, pending: int, closed: int, rows: Rows, k: string)
    requires r.Valid() && t <= now && r.Expected(t) >= 1 && KeyOk(r, t, st, pending, closed, rows, k)
    requires KeyClean(r, t, st, closed, rows, k)
    ensures KeyClean(r, now, ForcedKey(r, now, st), closed, rows, k)
  {
    DaysAdvance(r, t, now);
    if st.openDay >= r.Expected(now) && st.openDay > r.Expected(now) {
      SameWindow(r, t, now);
    }
  }

  /** A reachable day that is not yet expected later on means it is still the same window. */
  lemma SameWindow(r: Time, t: int, now: int)
    requires r.Valid() && t <= now && r.Reachable(t) > r.Expected(now)
    ensures r.Current(t) == r.Current(now) && r.Current(t).Some?
    ensures r.Expected(t) == r.Expected(now) && r.Reachable(t) == r.Reachable(now)
  {
    DaysAdvance(r, t, now);
    InsideWindow(r, t);
    InsideWindow(r, now);
  }

  /** One value: the key stays in order, and the row it gives lies on its open day. */
  lemma AttributedKeyOk(r: Time, now: int, st: KeyState, confirmed: int, v: nat, pending: int, closed: int,
    rows: Rows, k: string)
    requires r.Valid() && KeyOk(r, now, st, pending, closed, rows, k)
    ensures var (st', _, out) := AttributedKey(r, now, st, confirmed, v);
      && KeyOk(r, now, st', if out.closed != NONE then Max(pending, out.closed) else pending, closed, rows, k)
      && st'.openDay >= st.openDay
      && (out.decision != Discard ==> out.day == st'.openDay && st'.base == v && st'.hasBase)
      && (out.decision == Discard ==> st' == st.(forced := st'.forced))
  {
    ReachableIs(r, now);
    if r.Current(now).Some? {
      InsideWindow(r, now);
    }
  }

  function WithRow(rows: Rows, k: string, out: Attributed, v: nat): Rows {
    if out.decision == Discard then rows else MaxWrite(rows, DailyRow(k, out.day, v))
  }

  lemma AttributedKeyClean(r: Time, now: int, st: KeyState, confirmed: int, v: nat, pending: int, closed: int,
    rows: Rows, k: string)
    requires r.Valid() && KeyOk(r, now, st, pending, closed, rows, k) && KeyClean(r, now, st, closed, rows, k)
    ensures var (st', _, out) := AttributedKey(r, now, st, confirmed, v);
      KeyClean(r, now, st', closed, WithRow(rows, k, out, v), k)
  {
    AttributedKeyOk(r, now, st, confirmed, v, pending, closed, rows, k);
  }

  lemma AttributedKeyRow(r: Time, now: int, st: KeyState, confirmed: int, v: nat, pending: int, closed: int,
    rows: Rows, k: string)
    requires r.Valid() && KeyOk(r, now, st, pending, closed, rows, k)
    ensures var (st', _, out) := AttributedKey(r, now, st, confirmed, v);
      RowsUpTo(WithRow(rows, k, out, v), k, st'.openDay) && RowsUpTo(rows, k, st'.openDay)
  {
    AttributedKeyOk(r, now, st, confirmed, v, pending, closed, rows, k);
  }

  lemma SeededKeyOk(r: Time, now: int, rows: Rows, k: string, closed: int)
    requires r.Valid() && r.Expected(now) >= 1 && closed < r.Reachable(now) && RowsUpTo(rows, k, r.Reachable(now))
    ensures var st := SeededKey(r, now, rows, k, closed);
      KeyOk(r, now, st, r.Expected(now) - 1, closed, rows, k) && KeyClean(r, now, st, closed, rows, k)
  {
    ReachableIs(r, now);
    if r.Current(now).Some? {
      InsideWindow(r, now);
    }
  }

  // ---- the invariant of the loop ----

  ghost predicate LoopOk(reg: Registry, r: Time, t: int, l: Loop, m: Meta, rows: Rows) {
    && (forall k :: k in l.attr.keys <==> PollerKey(reg, k))
    && (forall k :: k in l.pending ==> k in l.attr.keys)
    && r.Expected(t) >= 1 && l.attr.confirmed <= r.Reachable(t)
    && forall k :: k in l.attr.keys ==> KeyOk(r, t, l.attr.keys[k], ClosedOf(l.pending, k), m.Closed(k), rows, k)
  }

  /** In a window the reset is confirmed exactly when some key has moved on. */
  ghost predicate ConfirmedOk(r: Time, t: int, a: Attr) {
    r.Current(t).Some? ==>
      (a.confirmed == r.Reachable(t) <==> exists k :: k in a.keys && a.keys[k].openDay == r.Reachable(t))
  }

  ghost predicate LoopClean(r: Time, t: int, l: Loop, m: Meta, rows: Rows) {
    && (forall k :: k in l.attr.keys ==> KeyClean(r, t, l.attr.keys[k], m.Closed(k), rows, k))
    && ConfirmedOk(r, t, l.attr)
  }

  lemma ForcedLoopOk(reg: Registry, r: Time, t: int, now: int, l: Loop, m: Meta, rows: Rows)
    requires r.Valid() && t <= now && LoopOk(reg, r, t, l, m, rows)
    ensures LoopOk(reg, r, now, ForcedLoop(r, now, l), m, rows)
  {
    DaysAdvance(r, t, now);
    var l' := ForcedLoop(r, now, l);
    forall k | k in l'.attr.keys
      ensures KeyOk(r, now, l'.attr.keys[k], ClosedOf(l'.pending, k), m.Closed(k), rows, k)
    {
      ForcedKeyOk(r, t, now, l.attr.keys[k], ClosedOf(l.pending, k), m.Closed(k), rows, k);
    }
  }

  lemma ForcedConfirmed(r: Time, t: int, now: int, a: Attr)
    requires r.Valid() && t <= now && ConfirmedOk(r, t, a) && a.confirmed <= r.Reachable(t) && r.Expected(t) >= 1
    requires forall k :: k in a.keys ==> r.Expected(t) <= a.keys[k].openDay <= r.Reachable(t)
    ensures ConfirmedOk(r, now, Forced(r, now, a))
  {
    ReachableIs(r, now);
    if r.Reachable(t) > r.Expected(now) {
      SameWindow(r, t, now);
      assert forall k :: k in a.keys ==> Forced(r, now, a).keys[k] == a.keys[k];
    }
  }

  lemma ForcedLoopClean(reg: Registry, r: Time, t: int, now: int, l: Loop, m: Meta, rows: Rows)
    requires r.Valid() && t <= now && LoopOk(reg, r, t, l, m, rows) && LoopClean(r, t, l, m, rows)
    ensures LoopClean(r, now, ForcedLoop(r, now, l), m, rows)
  {
    var l' := ForcedLoop(r, now, l);
    forall k | k in l'.attr.keys
      ensures KeyClean(r, now, l'.attr.keys[k], m.Closed(k), rows, k)
    {
      assert KeyOk(r, t, l.attr.keys[k], ClosedOf(l.pending, k), m.Closed(k), rows, k);
      ForcedKeyClean(r, t, now, l.attr.keys[k], ClosedOf(l.pending, k), m.Closed(k), rows, k);
    }
    forall k | k in l.attr.keys
      ensures r.Expected(t) <= l.attr.keys[k].openDay <= r.Reachable(t)
    {
      assert KeyOk(r, t, l.attr.keys[k], ClosedOf(l.pending, k), m.Closed(k), rows, k);
    }
    ForcedConfirmed(r, t, now, l.attr);
  }

  // ---- one value ----

  function Stored(rows: Rows, sent: seq<DailyRow>): Rows {
    if sent == [] then rows else MaxWrite(Stored(rows, sent[..|sent| - 1]), sent[|sent| - 1])
  }

  lemma StoredFrame(rows: Rows, sent: seq<DailyRow>, k: string)
    requires |sent| <= 1 && forall x :: x in sent ==> x.key == k
    ensures forall c: Cell :: c.key != k ==> SameCell(rows, Stored(rows, sent), c)
  {
    if |sent| == 1 {
      assert sent[..0] == [] && sent[0] in sent;
    }
  }

  /** The rows one value gives: at most one, of its key, on its key's new open day. */
  lemma ReadOneRow(r: Time, now: int, l: Loop, x: Reading, rows: Rows)
    ensures var (l', sent) := ReadOne(r, now, l, x);
      && |sent| <= 1
      && (x.key !in l.attr.keys ==> l' == l && sent == [])
      && (x.key in l.attr.keys ==>
            var (st, c, out) := AttributedKey(r, now, l.attr.keys[x.key], l.attr.confirmed, x.value);
            && l'.attr == Attr(l.attr.keys[x.key := st], c)
            && l'.pending == (if out.closed != NONE
                 then l.pending[x.key := Max(ClosedOf(l.pending, x.key), out.closed)] else l.pending)
            && sent == (if out.decision == Discard then [] else [DailyRow(x.key, out.day, x.value)])
            && Stored(rows, sent) == WithRow(rows, x.key, out, x.value))
  {
    var (l', sent) := ReadOne(r, now, l, x);
    if |sent| == 1 {
      assert sent[..0] == [];
    }
  }

  lemma ReadOneOk(reg: Registry, r: Time, now: int, l: Loop, x: Reading, m: Meta, rows: Rows)
    requires r.Valid() && LoopOk(reg, r, now, l, m, rows)
    ensures LoopOk(reg, r, now, ReadOne(r, now, l, x).0, m, rows)
  {
    ReadOneRow(r, now, l, x, rows);
    if x.key in l.attr.keys {
      ConfirmedReachable(r, now, l.attr.keys[x.key], l.attr.confirmed, x.value);
      AttributedKeyOk(r, now, l.attr.keys[x.key], l.attr.confirmed, x.value, ClosedOf(l.pending, x.key),
        m.Closed(x.key), rows, x.key);
    }
  }

  lemma ConfirmedReachable(r: Time, now: int, st: KeyState, confirmed: int, v: nat)
    requires r.Valid() && confirmed <= r.Reachable(now)
    ensures AttributedKey(r, now, st, confirmed, v).1 <= r.Reachable(now)
  {
  }

  lemma ReadOneStored(reg: Registry, r: Time, now: int, l: Loop, x: Reading, m: Meta, rows: Rows)
    requires r.Valid() && LoopOk(reg, r, now, l, m, rows)
    ensures var (l', sent) := ReadOne(r, now, l, x);
      LoopOk(reg, r, now, l', m, Stored(rows, sent))
  {
    var (l', sent) := ReadOne(r, now, l, x);
    ReadOneOk(reg, r, now, l, x, m, rows);
    ReadOneRow(r, now, l, x, rows);
    ReadOneKey(r, now, l, x, rows);
    StoredFrame(rows, sent, x.key);
    forall k | k in l'.attr.keys
      ensures KeyOk(r, now, l'.attr.keys[k], ClosedOf(l'.pending, k), m.Closed(k), Stored(rows, sent), k)
    {
      if k != x.key {
        assert KeyOk(r, now, l'.attr.keys[k], ClosedOf(l'.pending, k), m.Closed(k), rows, k);
        KeyElsewhere(r, now, l'.attr.keys[k], ClosedOf(l'.pending, k), m.Closed(k), rows, Stored(rows, sent), k, x.key);
      } else {
        AttributedKeyRow(r, now, l.attr.keys[k], l.attr.confirmed, x.value, ClosedOf(l.pending, k), m.Closed(k),
          rows, k);
      }
    }
  }

  lemma ReadOneKey(r: Time, now: int, l: Loop, x: Reading, rows: Rows)
    ensures forall y :: y in ReadOne(r, now, l, x).1 ==> y.key == x.key
  {
  }

  lemma KeyElsewhere(
    r: Time, t: int, st: KeyState, pending: int, closed: int, rows: Rows, rows': Rows, k: string, other: string)
    requires k != other && forall c: Cell :: c.key != other ==> SameCell(rows, rows', c)
    ensures KeyOk(r, t, st, pending, closed, rows, k) ==> KeyOk(r, t, st, pending, closed, rows', k)
    ensures KeyClean(r, t, st, closed, rows, k) ==> KeyClean(r, t, st, closed, rows', k)
  {
    forall d
      ensures SameCell(rows, rows', Cell(Daily, k, d))
    {
    }
  }

  lemma ReadOneConfirmed(r: Time, now: int, l: Loop, x: Reading, rows: Rows)
    requires r.Valid() && ConfirmedOk(r, now, l.attr)
    requires forall k :: k in l.attr.keys ==> l.attr.keys[k].openDay <= r.Reachable(now)
    ensures ConfirmedOk(r, now, ReadOne(r, now, l, x).0.attr)
  {
    ReadOneRow(r, now, l, x, rows);
    if x.key in l.attr.keys && r.Current(now).Some? {
      var st := l.attr.keys[x.key];
      var (st', c, out) := AttributedKey(r, now, st, l.attr.confirmed, x.value);
      var a' := ReadOne(r, now, l, x).0.attr;
      if out.decision == WriteNewDay {
        assert a'.keys[x.key].openDay == r.Reachable(now);
      } else {
        assert st'.openDay == st.openDay && c == l.attr.confirmed;
        forall k | k in l.attr.keys
          ensures a'.keys[k].openDay == l.attr.keys[k].openDay
        {
        }
      }
    }
  }

  lemma ReadOneClean(reg: Registry, r: Time, now: int, l: Loop, x: Reading, m: Meta, rows: Rows)
    requires r.Valid() && LoopOk(reg, r, now, l, m, rows) && LoopClean(r, now, l, m, rows)
    ensures var (l', sent) := ReadOne(r, now, l, x);
      LoopClean(r, now, l', m, Stored(rows, sent))
  {
    var (l', sent) := ReadOne(r, now, l, x);
    ReadOneRow(r, now, l, x, rows);
    ReadOneKey(r, now, l, x, rows);
    StoredFrame(rows, sent, x.key);
    forall k | k in l'.attr.keys
      ensures KeyClean(r, now, l'.attr.keys[k], m.Closed(k), Stored(rows, sent), k)
    {
      if k != x.key {
        KeyElsewhere(r, now, l'.attr.keys[k], ClosedOf(l'.pending, k), m.Closed(k), rows, Stored(rows, sent), k, x.key);
      } else {
        AttributedKeyClean(r, now, l.attr.keys[k], l.attr.confirmed, x.value, ClosedOf(l.pending, k), m.Closed(k),
          rows, k);
      }
    }
    OpenReachable(reg, r, now, l, m, rows);
    ReadOneConfirmed(r, now, l, x, rows);
  }

  lemma OpenReachable(reg: Registry, r: Time, now: int, l: Loop, m: Meta, rows: Rows)
    requires LoopOk(reg, r, now, l, m, rows)
    ensures forall k :: k in l.attr.keys ==> r.Expected(now) <= l.attr.keys[k].openDay <= r.Reachable(now)
  {
    forall k | k in l.attr.keys
      ensures r.Expected(now) <= l.attr.keys[k].openDay <= r.Reachable(now)
    {
      assert KeyOk(r, now, l.attr.keys[k], ClosedOf(l.pending, k), m.Closed(k), rows, k);
    }
  }

  /** A row a value gives is above every closed day of its key, and no earlier than any
      stored row of that key. */
  ghost predicate InOrder(reg: Registry, m: Meta, rows: Rows, x: DailyRow) {
    RowAccepted(reg, m, x) && forall d :: Cell(Daily, x.key, d) in rows ==> d <= x.day
  }

  lemma ReadOneInOrder(reg: Registry, r: Time, now: int, l: Loop, x: Reading, m: Meta, rows: Rows)
    requires r.Valid() && LoopOk(reg, r, now, l, m, rows)
    ensures forall y :: y in ReadOne(r, now, l, x).1 ==> InOrder(reg, m, rows, y)
  {
    ReadOneRow(r, now, l, x, rows);
    if x.key in l.attr.keys {
      AttributedKeyOk(r, now, l.attr.keys[x.key], l.attr.confirmed, x.value, ClosedOf(l.pending, x.key),
        m.Closed(x.key), rows, x.key);
    }
  }

  // ---- all values of a poll ----

  lemma {:induction false} StoredMore(rows: Rows, a: seq<DailyRow>, b: seq<DailyRow>)
    requires |b| <= 1
    ensures Stored(rows, a + b) == Stored(Stored(rows, a), b)
  {
    if b == [] {
      assert a + b == a;
    } else {
      assert (a + b)[..|a|] == a && b[..0] == [];
    }
  }

  lemma {:induction false} AcceptedStored(reg: Registry, m: Meta, rows: Rows, sent: seq<DailyRow>)
    requires forall x :: x in sent ==> RowAccepted(reg, m, x)
    ensures WriteDailies(reg, m, rows, sent) == Stored(rows, sent)
  {
    if sent != [] {
      AcceptedStored(reg, m, rows, sent[..|sent| - 1]);
    }
  }

  lemma {:induction false} ReadAllOk(reg: Registry, r: Time, now: int, l: Loop, xs: seq<Reading>, m: Meta, rows: Rows)
    requires r.Valid() && LoopOk(reg, r, now, l, m, rows)
    ensures var (l', sent) := ReadAll(r, now, l, xs);
      && LoopOk(reg, r, now, l', m, rows) && LoopOk(reg, r, now, l', m, Stored(rows, sent))
      && forall y :: y in sent ==> InOrder(reg, m, rows, y)
  {
    if xs != [] {
      var n := |xs| - 1;
      ReadAllOk(reg, r, now, l, xs[..n], m, rows);
      var (before, sent) := ReadAll(r, now, l, xs[..n]);
      var (after, more) := ReadOne(r, now, before, xs[n]);
      ReadOneOk(reg, r, now, before, xs[n], m, rows);
      ReadOneStored(reg, r, now, before, xs[n], m, Stored(rows, sent));
      ReadOneInOrder(reg, r, now, before, xs[n], m, rows);
      ReadOneRow(r, now, before, xs[n], rows);
      StoredMore(rows, sent, more);
    }
  }

  lemma {:induction false} ReadAllClean(
    reg: Registry, r: Time, now: int, l: Loop, xs: seq<Reading>, m: Meta, rows: Rows)
    requires r.Valid() && LoopOk(reg, r, now, l, m, rows) && LoopClean(r, now, l, m, rows)
    ensures var (l', sent) := ReadAll(r, now, l, xs);
      LoopClean(r, now, l', m, Stored(rows, sent))
  {
    if xs != [] {
      var n := |xs| - 1;
      ReadAllClean(reg, r, now, l, xs[..n], m, rows);
      var (before, sent) := ReadAll(r, now, l, xs[..n]);
      var (after, more) := ReadOne(r, now, before, xs[n]);
      ReadAllOk(reg, r, now, l, xs[..n], m, rows);
      ReadOneClean(reg, r, now, before, xs[n], m, Stored(rows, sent));
      ReadOneRow(r, now, before, xs[n], rows);
      StoredMore(rows, sent, more);
    }
  }

  // ---- writes ----

  lemma {:induction false} ClosedByPending(
    reg: Registry, m: Meta, closes: seq<DayClose>, pending: map<string, int>, k: string)
    requires forall c :: c in closes ==> c.key in pending && c.day == pending[c.key]
    ensures m.Closed(k) <= CloseDays(reg, m, closes).Closed(k) <= Max(m.Closed(k), ClosedOf(pending, k))
  {
    if closes != [] {
      ClosedByPending(reg, m, closes[..|closes| - 1], pending, k);
      assert closes[|closes| - 1] in closes;
    }
  }

  lemma WrittenOk(reg: Registry, r: Time, t: int, l: Loop, m: Meta, rows: Rows, closes: seq<DayClose>)
    requires LoopOk(reg, r, t, l, m, rows) && ListsPending(closes, l.pending)
    ensures LoopOk(reg, r, t, l.(pending := map[]), CloseDays(reg, m, closes), rows)
    ensures LoopClean(r, t, l, m, rows) ==> LoopClean(r, t, l.(pending := map[]), CloseDays(reg, m, closes), rows)
  {
    var m' := CloseDays(reg, m, closes);
    forall k | k in l.attr.keys
      ensures KeyOk(r, t, l.attr.keys[k], NONE, m'.Closed(k), rows, k)
      ensures KeyClean(r, t, l.attr.keys[k], m.Closed(k), rows, k)
        ==> KeyClean(r, t, l.attr.keys[k], m'.Closed(k), rows, k)
    {
      assert KeyOk(r, t, l.attr.keys[k], ClosedOf(l.pending, k), m.Closed(k), rows, k);
      ClosedByPending(reg, m, closes, l.pending, k);
    }
  }

  // ---- every state of every history ----

  ghost predicate StateOk(reg: Registry, r: Time, s: State) {
    && LoopOk(reg, r, s.last, s.loop, s.db.meta, s.db.rows)
    && (s.clean ==> LoopClean(r, s.last, s.loop, s.db.meta, s.db.rows))
  }

  lemma PollKeepsOk(reg: Registry, r: Time, s: State, now: int, xs: seq<Reading>, closes: seq<DayClose>, commits: bool)
    requires r.Valid() && StateOk(reg, r, s) && Enabled(reg, r, s, Poll(now, xs, closes, commits))
    ensures StateOk(reg, r, Step(reg, r, s, Poll(now, xs, closes, commits)))
    ensures forall x :: x in Polled(r, s, now, xs).1 ==> InOrder(reg, s.db.meta, s.db.rows, x)
  {
    var forced := ForcedLoop(r, now, s.loop);
    var m, rows := s.db.meta, s.db.rows;
    ForcedLoopOk(reg, r, s.last, now, s.loop, m, rows);
    var (l, sent) := ReadAll(r, now, forced, xs);
    ReadAllOk(reg, r, now, forced, xs, m, rows);
    if commits {
      AcceptedStored(reg, m, rows, sent);
      if s.clean {
        ForcedLoopClean(reg, r, s.last, now, s.loop, m, rows);
        ReadAllClean(reg, r, now, forced, xs, m, rows);
      }
      WrittenOk(reg, r, now, l, m, Stored(rows, sent), closes);
    }
  }

  lemma DownKeepsOk(reg: Registry, r: Time, s: State, now: int, closes: seq<DayClose>, commits: bool)
    requires r.Valid() && StateOk(reg, r, s) && Enabled(reg, r, s, Down(now, closes, commits))
    ensures StateOk(reg, r, Step(reg, r, s, Down(now, closes, commits)))
  {
    ForcedLoopOk(reg, r, s.last, now, s.loop, s.db.meta, s.db.rows);
    if s.clean {
      ForcedLoopClean(reg, r, s.last, now, s.loop, s.db.meta, s.db.rows);
    }
    WrittenOk(reg, r, now, ForcedLoop(r, now, s.loop), s.db.meta, s.db.rows, closes);
  }

  lemma SeededOpenDay(r: Time, now: int, rows: Rows, k: string, closed: int)
    requires r.Valid() && r.Current(now).Some?
    ensures SeededKey(r, now, rows, k, closed).openDay == r.Reachable(now) <==> Advanced(r, now, rows, k, closed)
  {
    ReachableIs(r, now);
    InsideWindow(r, now);
  }

  lemma StartedOk(reg: Registry, r: Time, keys: set<string>, db: DB, now: int)
    requires r.Valid() && StartOk(reg, r, keys, db, now)
    ensures StateOk(reg, r, Started(r, keys, db, now))
  {
    var s := Started(r, keys, db, now);
    forall k | k in keys
      ensures KeyOk(r, now, s.loop.attr.keys[k], ClosedOf(s.loop.pending, k), db.meta.Closed(k), db.rows, k)
      ensures KeyClean(r, now, s.loop.attr.keys[k], db.meta.Closed(k), db.rows, k)
    {
      SeededKeyOk(r, now, db.rows, k, db.meta.Closed(k));
    }
    SeededConfirmed(r, keys, db, now);
    ReachableIs(r, now);
  }

  lemma SeededConfirmed(r: Time, keys: set<string>, db: DB, now: int)
    requires r.Valid() && r.Expected(now) >= 1
    ensures ConfirmedOk(r, now, Started(r, keys, db, now).loop.attr)
  {
    var a := Started(r, keys, db, now).loop.attr;
    ReachableIs(r, now);
    if r.Current(now).Some? {
      forall k | k in keys
        ensures a.keys[k].openDay == r.Reachable(now)
          <==> Advanced(r, now, db.rows, k, ClosedOf(db.meta.closedDaily, k))
      {
        SeededOpenDay(r, now, db.rows, k, ClosedOf(db.meta.closedDaily, k));
      }
      if k :| k in keys && Advanced(r, now, db.rows, k, ClosedOf(db.meta.closedDaily, k)) {
        assert a.keys[k].openDay == r.Reachable(now);
      }
    }
  }

  lemma RestartKeepsOk(reg: Registry, r: Time, s: State, now: int)
    requires r.Valid() && StateOk(reg, r, s) && now >= s.last
    ensures StateOk(reg, r, Step(reg, r, s, Restart(now)))
  {
    DaysAdvance(r, s.last, now);
    forall k | k in s.loop.attr.keys
      ensures s.db.meta.Closed(k) < r.Reachable(now) && RowsUpTo(s.db.rows, k, r.Reachable(now))
    {
      assert KeyOk(r, s.last, s.loop.attr.keys[k], ClosedOf(s.loop.pending, k), s.db.meta.Closed(k), s.db.rows, k);
    }
    StartedOk(reg, r, s.loop.attr.keys.Keys, s.db, now);
  }

  lemma OthersKeepOk(reg: Registry, r: Time, s: State, db: DB)
    requires StateOk(reg, r, s) && OtherWriters(reg, s.db, db)
    ensures StateOk(reg, r, s.(db := db))
  {
    forall k | k in s.loop.attr.keys
      ensures KeyOk(r, s.last, s.loop.attr.keys[k], ClosedOf(s.loop.pending, k), db.meta.Closed(k), db.rows, k)
      ensures s.clean ==> KeyClean(r, s.last, s.loop.attr.keys[k], db.meta.Closed(k), db.rows, k)
    {
      assert KeyOk(r, s.last, s.loop.attr.keys[k], ClosedOf(s.loop.pending, k), s.db.meta.Closed(k), s.db.rows, k);
      OthersKeepKey(reg, r, s.last, s.loop.attr.keys[k], ClosedOf(s.loop.pending, k), s.db, db, k);
    }
  }

  lemma OthersKeepKey(reg: Registry, r: Time, t: int, st: KeyState, pending: int, db: DB, db': DB, k: string)
    requires OtherWriters(reg, db, db') && PollerKey(reg, k)
    requires KeyOk(r, t, st, pending, db.meta.Closed(k), db.rows, k)
    ensures KeyOk(r, t, st, pending, db'.meta.Closed(k), db'.rows, k)
    ensures KeyClean(r, t, st, db.meta.Closed(k), db.rows, k) ==> KeyClean(r, t, st, db'.meta.Closed(k), db'.rows, k)
  {
    assert db'.meta.Closed(k) == db.meta.Closed(k);
    forall d
      ensures Cell(Daily, k, d) in db'.rows ==>
        Cell(Daily, k, d) in db.rows && db'.rows[Cell(Daily, k, d)] == db.rows[Cell(Daily, k, d)]
      ensures d > db.meta.Closed(k) && Cell(Daily, k, d) in db.rows ==> Cell(Daily, k, d) in db'.rows
    {
    }
  }

  lemma StepKeepsOk(reg: Registry, r: Time, s: State, e: Event)
    requires r.Valid() && StateOk(reg, r, s) && Enabled(reg, r, s, e)
    ensures StateOk(reg, r, Step(reg, r, s, e))
  {
    match e
    case Poll(now, xs, closes, commits) => PollKeepsOk(reg, r, s, now, xs, closes, commits);
    case Down(now, closes, commits) => DownKeepsOk(reg, r, s, now, closes, commits);
    case Restart(now) => RestartKeepsOk(reg, r, s, now);
    case Others(db) => OthersKeepOk(reg, r, s, db);
  }

  lemma {:induction false} HistoryOk(reg: Registry, r: Time, ss: seq<State>, es: seq<Event>, i: nat)
    requires r.Valid() && History(reg, r, ss, es) && i < |ss|
    ensures StateOk(reg, r, ss[i])
  {
    if i == 0 {
      var keys, db, now :| StartOk(reg, r, keys, db, now) && ss[0] == Started(r, keys, db, now);
      StartedOk(reg, r, keys, db, now);
    } else {
      HistoryOk(reg, r, ss, es, i - 1);
      StepKeepsOk(reg, r, ss[i - 1], es[i - 1]);
    }
  }

  /** Poller rows are never rejected: in every history of polls in any key order, failed
      writes, outages, restarts and other writers, every row a poll sends is above every day
      closed for its key and no earlier than any row already stored for it. */
  lemma NeverRejected(reg: Registry, r: Time, ss: seq<State>, es: seq<Event>, i: nat, x: DailyRow)
    requires r.Valid() && History(reg, r, ss, es) && i < |es| && es[i].Poll?
    requires x in Polled(r, ss[i], es[i].now, es[i].xs).1
    ensures InOrder(reg, ss[i].db.meta, ss[i].db.rows, x)
  {
    HistoryOk(reg, r, ss, es, i);
    var e := es[i];
    PollKeepsOk(reg, r, ss[i], e.now, e.xs, e.closes, e.commits);
  }

  /** Closed days never go back. */
  lemma ClosedDaysAdvance(reg: Registry, r: Time, ss: seq<State>, es: seq<Event>, i: nat, k: string)
    requires History(reg, r, ss, es) && i < |es|
    ensures ss[i].db.meta.Closed(k) <= ss[i + 1].db.meta.Closed(k)
  {
    var e := es[i];
    match e
    case Poll(now, xs, closes, commits) => CloseDaysGrow(reg, ss[i].db.meta, closes);
    case Down(now, closes, commits) => CloseDaysGrow(reg, ss[i].db.meta, closes);
    case _ =>
  }

  /** No closed day lies beyond the calendar day of the last poll: what an aggregator run
      assumes of the day it captures. */
  lemma ClosedByToday(reg: Registry, r: Time, ss: seq<State>, es: seq<Event>, i: nat, k: string)
    requires r.Valid() && History(reg, r, ss, es) && i < |ss| && PollerKey(reg, k)
    ensures ss[i].db.meta.Closed(k) <= Today(ss[i].last)
  {
    HistoryOk(reg, r, ss, es, i);
    StateClosedByToday(reg, r, ss[i], k);
  }

  lemma StateClosedByToday(reg: Registry, r: Time, s: State, k: string)
    requires r.Valid() && StateOk(reg, r, s) && PollerKey(reg, k)
    ensures s.db.meta.Closed(k) <= Today(s.last)
  {
    ReachableByTomorrow(r, s.last);
    assert KeyOk(r, s.last, s.loop.attr.keys[k], ClosedOf(s.loop.pending, k), s.db.meta.Closed(k), s.db.rows, k);
  }

  // ---- restart ----

  predicate SameKey(a: KeyState, b: KeyState) {
    a.(forced := false) == b.(forced := false)
  }

  /** Equal up to the warning flag, and to confirmations of windows that are over. */
  ghost predicate Alike(r: Time, now: int, a: Attr, b: Attr) {
    && a.keys.Keys == b.keys.Keys
    && (forall k :: k in a.keys ==> SameKey(a.keys[k], b.keys[k]))
    && (r.Current(now).Some? ==> (a.confirmed == r.Reachable(now) <==> b.confirmed == r.Reachable(now)))
  }

  lemma SeedsBack(r: Time, now: int, st: KeyState, pending: int, closed: int, rows: Rows, k: string)
    requires r.Valid() && KeyOk(r, now, st, pending, closed, rows, k) && KeyClean(r, now, st, closed, rows, k)
    ensures SameKey(SeededKey(r, now, rows, k, closed), st)
  {
    ReachableIs(r, now);
    if r.Current(now).Some? {
      InsideWindow(r, now);
    }
  }

  /** Restart transparency: as long as every write since the last start committed, seeding
      from the stored rows and watermarks rebuilds what the running attributor has after its
      forced close at the same instant. */
  lemma RestartTransparent(reg: Registry, r: Time, ss: seq<State>, es: seq<Event>, i: nat, now: int)
    requires r.Valid() && History(reg, r, ss, es) && i < |ss| && ss[i].clean && now >= ss[i].last
    ensures Alike(r, now, Step(reg, r, ss[i], Restart(now)).loop.attr, Forced(r, now, ss[i].loop.attr))
  {
    HistoryOk(reg, r, ss, es, i);
    RestartAlike(reg, r, ss[i], now, ForcedLoop(r, now, ss[i].loop), Restarted(r, ss[i], now).loop);
  }

  function Restarted(r: Time, s: State, now: int): State {
    Started(r, s.loop.attr.keys.Keys, s.db, now)
  }

  lemma ForcedBoth(reg: Registry, r: Time, s: State, now: int, l: Loop)
    requires r.Valid() && StateOk(reg, r, s) && s.clean && now >= s.last && l == ForcedLoop(r, now, s.loop)
    ensures LoopOk(reg, r, now, l, s.db.meta, s.db.rows) && LoopClean(r, now, l, s.db.meta, s.db.rows)
    ensures l.attr.keys.Keys == s.loop.attr.keys.Keys
  {
    ForcedLoopOk(reg, r, s.last, now, s.loop, s.db.meta, s.db.rows);
    ForcedLoopClean(reg, r, s.last, now, s.loop, s.db.meta, s.db.rows);
  }

  lemma RestartAlike(reg: Registry, r: Time, s: State, now: int, l: Loop, seeded: Loop)
    requires r.Valid() && StateOk(reg, r, s) && s.clean && now >= s.last
    requires l == ForcedLoop(r, now, s.loop) && seeded == Restarted(r, s, now).loop
    ensures Alike(r, now, seeded.attr, l.attr)
  {
    ForcedBoth(reg, r, s, now, l);
    SeededConfirmed(r, s.loop.attr.keys.Keys, s.db, now);
    SeedsAlike(reg, r, now, l, seeded, s.db);
  }

  /** So the first poll after such a restart sends the rows it would have sent without it. */
  lemma RestartSendsTheSame(
    reg: Registry, r: Time, ss: seq<State>, es: seq<Event>, i: nat, now: int, xs: seq<Reading>)
    requires r.Valid() && History(reg, r, ss, es) && i < |ss| && ss[i].clean && now >= ss[i].last
    ensures Polled(r, Step(reg, r, ss[i], Restart(now)), now, xs).1 == Polled(r, ss[i], now, xs).1
  {
    HistoryOk(reg, r, ss, es, i);
    SendsTheSame(reg, r, ss[i], now, xs, ForcedLoop(r, now, ss[i].loop), Restarted(r, ss[i], now));
  }

  lemma SendsTheSame(reg: Registry, r: Time, s: State, now: int, xs: seq<Reading>, l: Loop, s': State)
    requires r.Valid() && StateOk(reg, r, s) && s.clean && now >= s.last
    requires l == ForcedLoop(r, now, s.loop) && s' == Restarted(r, s, now)
    ensures ReadAll(r, now, ForcedLoop(r, now, s'.loop), xs).1 == ReadAll(r, now, l, xs).1
  {
    var f := ForcedLoop(r, now, s'.loop);
    ForcedAlike(reg, r, s, now, l, s', f);
    AlikeAll(r, now, f, l, xs);
  }

  lemma ForcedAlike(reg: Registry, r: Time, s: State, now: int, l: Loop, s': State, f: Loop)
    requires r.Valid() && StateOk(reg, r, s) && s.clean && now >= s.last
    requires l == ForcedLoop(r, now, s.loop) && s' == Restarted(r, s, now) && f == ForcedLoop(r, now, s'.loop)
    ensures Alike(r, now, f.attr, l.attr)
  {
    RestartAlike(reg, r, s, now, l, s'.loop);
    RestartKeepsOk(reg, r, s, now);
    SeededNotForced(reg, r, now, s', f);
  }

  lemma SeededNotForced(reg: Registry, r: Time, now: int, s: State, f: Loop)
    requires StateOk(reg, r, s) && s.last == now && f == ForcedLoop(r, now, s.loop)
    ensures f.attr == s.loop.attr
  {
    NotForcedAgain(reg, r, s);
  }

  lemma NotForcedAgain(reg: Registry, r: Time, s: State)
    requires StateOk(reg, r, s)
    ensures Forced(r, s.last, s.loop.attr) == s.loop.attr
  {
    OpenReachable(reg, r, s.last, s.loop, s.db.meta, s.db.rows);
  }

  lemma SeedsAlike(reg: Registry, r: Time, now: int, l: Loop, seeded: Loop, db: DB)
    requires r.Valid() && LoopOk(reg, r, now, l, db.meta, db.rows) && LoopClean(r, now, l, db.meta, db.rows)
    requires seeded == Started(r, l.attr.keys.Keys, db, now).loop && ConfirmedOk(r, now, seeded.attr)
    ensures Alike(r, now, seeded.attr, l.attr)
  {
    forall k | k in l.attr.keys
      ensures SameKey(seeded.attr.keys[k], l.attr.keys[k])
    {
      SeedsBack(r, now, l.attr.keys[k], ClosedOf(l.pending, k), db.meta.Closed(k), db.rows, k);
    }
    SameMoves(r, now, seeded.attr, l.attr);
  }

  lemma SameMoves(r: Time, now: int, a: Attr, b: Attr)
    requires ConfirmedOk(r, now, a) && ConfirmedOk(r, now, b) && a.keys.Keys == b.keys.Keys
    requires forall k :: k in a.keys ==> SameKey(a.keys[k], b.keys[k])
    ensures Alike(r, now, a, b)
  {
    if k :| k in a.keys && a.keys[k].openDay == r.Reachable(now) {
      assert b.keys[k].openDay == r.Reachable(now);
    }
    if k :| k in b.keys && b.keys[k].openDay == r.Reachable(now) {
      assert a.keys[k].openDay == r.Reachable(now);
    }
  }

  lemma AlikeOne(r: Time, now: int, l: Loop, l': Loop, x: Reading)
    requires Alike(r, now, l.attr, l'.attr)
    ensures Alike(r, now, ReadOne(r, now, l, x).0.attr, ReadOne(r, now, l', x).0.attr)
    ensures ReadOne(r, now, l, x).1 == ReadOne(r, now, l', x).1
  {
    ReadOneRow(r, now, l, x, map[]);
    ReadOneRow(r, now, l', x, map[]);
    if x.key in l.attr.keys {
      AlikeKey(r, now, l.attr.keys[x.key], l'.attr.keys[x.key], l.attr.confirmed, l'.attr.confirmed, x.value);
    }
  }

  lemma AlikeKey(r: Time, now: int, st: KeyState, st': KeyState, c: int, c': int, v: nat)
    requires SameKey(st, st')
    requires r.Current(now).Some? ==> (c == r.Reachable(now) <==> c' == r.Reachable(now))
    ensures var (a, d, out) := AttributedKey(r, now, st, c, v);
      var (a', d', out') := AttributedKey(r, now, st', c', v);
      && SameKey(a, a') && out == out'
      && (r.Current(now).Some? ==> (d == r.Reachable(now) <==> d' == r.Reachable(now)))
  {
  }

  /** Two attributors that are alike attribute every later value of the poll alike. */
  lemma {:induction false} AlikeAll(r: Time, now: int, l: Loop, l': Loop, xs: seq<Reading>)
    requires Alike(r, now, l.attr, l'.attr)
    ensures Alike(r, now, ReadAll(r, now, l, xs).0.attr, ReadAll(r, now, l', xs).0.attr)
    ensures ReadAll(r, now, l, xs).1 == ReadAll(r, now, l', xs).1
  {
    if xs != [] {
      var n := |xs| - 1;
      AlikeAll(r, now, l, l', xs[..n]);
      AlikeOne(r, now, ReadAll(r, now, l, xs[..n]).0, ReadAll(r, now, l', xs[..n]).0, xs[n]);
    }
  }
}
