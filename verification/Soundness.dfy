/** Every row the poller stores belongs to the day its counter was really counting, provided
    the counters only grow between resets and a reset can be seen. */
module Soundness {
  import opened Calendar
  import opened Registers
  import opened Energy
  import opened Plan
  import opened Ledger
  import opened PollStep
  import opened Rollover
  import opened Attribution
  import opened Polling

  /** The instant the inverter resets its counters for a day. */
  type Resets = int -> int

  /** The counter of a key at an instant. */
  type Counters = (string, int) -> nat

  function OpeningWindow(r: Time, day: int): Window {
    r.WindowOn(if r.hour >= 12 then day - 1 else day)
  }

  /** When a reset of a window may happen: at or after midnight, before the window ends. */
  predicate ResetTime(w: Window, t: int) {
    w.start <= t < w.end && w.midnight <= t
  }

  /** One reset per window. */
  ghost predicate ResetsOk(r: Time, resets: Resets) {
    forall d :: ResetTime(OpeningWindow(r, d), resets(d))
  }

  /** Such resets are possible exactly when the window reaches past midnight: for every
      rollover time but 12:00 to 23:00. */
  lemma ResetPossible(r: Time, d: int)
    requires r.Valid()
    ensures (exists t :: ResetTime(OpeningWindow(r, d), t)) <==> (r.hour < 12 || r.Offset() > 23 * HOUR)
  {
    var w := OpeningWindow(r, d);
    OffsetRange(r);
    if w.midnight < w.end {
      assert ResetTime(w, w.end - 1);
    }
  }

  /** The counters count a day from its reset to the next one. */
  predicate Counts(resets: Resets, now: int, day: int) {
    resets(day) <= now < resets(day + 1)
  }

  function TrueDay(r: Time, resets: Resets, now: int): int {
    match r.Current(now)
    case None => r.Expected(now)
    case Some(w) => if now >= resets(w.opening) then w.opening else w.closing
  }

  lemma OpeningWindows(r: Time, d: int)
    requires r.Valid()
    ensures OpeningWindow(r, d).opening == d
    ensures OpeningWindow(r, d).end < OpeningWindow(r, d + 1).start
    ensures forall e :: e > d ==> OpeningWindow(r, d).end < OpeningWindow(r, e).start
  {
  }

  lemma ResetsAscend(r: Time, resets: Resets, d: int, e: int)
    requires r.Valid() && ResetsOk(r, resets) && d < e
    ensures resets(d) < resets(e)
  {
    OpeningWindows(r, d);
    assert ResetTime(OpeningWindow(r, d), resets(d)) && ResetTime(OpeningWindow(r, e), resets(e));
  }

  lemma WindowOpens(r: Time, day: int)
    ensures OpeningWindow(r, r.WindowOn(day).opening) == r.WindowOn(day)
  {
  }

  /** TrueDay is the one day the counters are counting. */
  lemma TrueDayIs(r: Time, resets: Resets, now: int, day: int)
    requires r.Valid() && ResetsOk(r, resets)
    ensures Counts(resets, now, day) <==> day == TrueDay(r, resets, now)
  {
    TrueDayCounts(r, resets, now);
    var d := TrueDay(r, resets, now);
    if day < d && day + 1 < d { ResetsAscend(r, resets, day + 1, d); }
    if d < day && d + 1 < day { ResetsAscend(r, resets, d + 1, day); }
  }

  lemma TrueDayCounts(r: Time, resets: Resets, now: int)
    requires r.Valid() && ResetsOk(r, resets)
    ensures Counts(resets, now, TrueDay(r, resets, now))
  {
    LatestDays(r, now, r.Started(now));
    LatestDays(r, now, r.Started(now) + 1);
    ResetsAround(r, resets, r.Started(now));
    if r.Current(now).None? {
      OutsideWindow(r, now);
    } else {
      InsideWindow(r, now);
    }
  }

  /** The resets of a window and of the ones before and after it. */
  lemma ResetsAround(r: Time, resets: Resets, day: int)
    requires r.Valid() && ResetsOk(r, resets)
    ensures var w := r.WindowOn(day);
      && ResetTime(w, resets(w.opening))
      && resets(w.opening - 1) < w.start
      && r.WindowOn(day + 1).start <= resets(w.opening + 1)
  {
    ResetIn(r, resets, day);
    ResetIn(r, resets, day - 1);
    ResetIn(r, resets, day + 1);
  }

  lemma ResetIn(r: Time, resets: Resets, day: int)
    requires ResetsOk(r, resets)
    ensures ResetTime(r.WindowOn(day), resets(r.WindowOn(day).opening))
  {
    WindowOpens(r, day);
    assert ResetTime(OpeningWindow(r, r.WindowOn(day).opening), resets(r.WindowOn(day).opening));
  }

  lemma TrueDayRange(r: Time, resets: Resets, now: int)
    requires r.Valid() && ResetsOk(r, resets)
    ensures r.Expected(now) <= TrueDay(r, resets, now) <= r.Reachable(now)
    ensures r.Current(now).Some? && now < r.Current(now).value.midnight ==> TrueDay(r, resets, now) == r.Expected(now)
  {
    ReachableIs(r, now);
    if r.Current(now).Some? {
      InsideWindow(r, now);
      ResetIn(r, resets, r.Started(now));
    }
  }

  lemma TrueDayAdvances(r: Time, resets: Resets, a: int, b: int)
    requires r.Valid() && ResetsOk(r, resets) && a <= b
    ensures TrueDay(r, resets, a) <= TrueDay(r, resets, b)
  {
    var d, e := TrueDay(r, resets, a), TrueDay(r, resets, b);
    TrueDayCounts(r, resets, a);
    TrueDayCounts(r, resets, b);
    if e < d && e + 1 < d {
      ResetsAscend(r, resets, e + 1, d);
    }
  }

  /** Between two resets a counter only grows. */
  ghost predicate Grows(r: Time, resets: Resets, counters: Counters) {
    forall k, a, b :: a <= b && TrueDay(r, resets, a) == TrueDay(r, resets, b) ==> counters(k, a) <= counters(k, b)
  }

  // ---- one key ----

  /** v was the counter of k at some instant up to t at which it counted that day. */
  ghost predicate Seen(r: Time, resets: Resets, counters: Counters, t: int, k: string, day: int, v: int) {
    exists t0 :: t0 <= t && TrueDay(r, resets, t0) == day && counters(k, t0) == v
  }

  ghost predicate SoundKey(r: Time, resets: Resets, counters: Counters, t: int, st: KeyState, k: string) {
    && st.openDay <= TrueDay(r, resets, t)
    && (st.hasBase ==> Seen(r, resets, counters, t, k, st.openDay, st.base))
  }

  /** The key has not moved on although its counter was reset. */
  predicate Behind(r: Time, resets: Resets, now: int, st: KeyState) {
    st.openDay < TrueDay(r, resets, now)
  }

  /** A reset is visible: a key left behind with a positive base reads below 10 % of it. */
  predicate Visible(r: Time, resets: Resets, now: int, st: KeyState, v: nat) {
    Behind(r, resets, now, st) && !Blind(st) ==> IsReset(st.base, v)
  }

  lemma BaseBelow(r: Time, resets: Resets, counters: Counters, now: int, st: KeyState, k: string)
    requires Grows(r, resets, counters) && SoundKey(r, resets, counters, now, st, k)
    requires st.hasBase && TrueDay(r, resets, now) == st.openDay
    ensures st.base <= counters(k, now)
  {
  }

  /** A value is written to a wrong day exactly when its key was left behind with a positive
      base that the value already reaches again. */
  lemma WrongDayExactly(
    r: Time, resets: Resets, counters: Counters, now: int, st: KeyState, confirmed: int, k: string, v: nat)
    requires r.Valid() && ResetsOk(r, resets) && Grows(r, resets, counters) && v == counters(k, now)
    requires r.Expected(now) <= st.openDay && SoundKey(r, resets, counters, now, st, k)
    requires confirmed <= TrueDay(r, resets, now)
    ensures var out := AttributedKey(r, now, st, confirmed, v).2;
      (out.decision != Discard && out.day != TrueDay(r, resets, now))
      <==> (Behind(r, resets, now, st) && !Blind(st) && v >= st.base)
  {
    TrueDayRange(r, resets, now);
    if r.Current(now).Some? {
      InsideWindow(r, now);
    }
    if st.hasBase && TrueDay(r, resets, now) == st.openDay {
      BaseBelow(r, resets, counters, now, st, k);
    }
  }

  /** Such a value exists: with resets at midnight, a key closes day 9 at 100 and half an hour
      into day 10, while its window is open, reads 100 again; that value is written to day 9. */
  lemma WrongDayHappens(r: Time, resets: Resets, counters: Counters, st: KeyState, now: int, k: string)
    requires r == Time(0, 0) && now == 10 * DAY + 30 * MINUTE
    requires forall d :: resets(d) == d * DAY
    requires forall key, t :: counters(key, t) == 100
    requires st == KeyState(9, 100, true, false)
    ensures ResetsOk(r, resets) && Grows(r, resets, counters)
    ensures SoundKey(r, resets, counters, now, st, k) && r.Expected(now) <= st.openDay
    ensures TrueDay(r, resets, now) == 10
    ensures AttributedKey(r, now, st, NONE, counters(k, now)).2 == Attributed(WriteCurrent, 9, NONE)
  {
    assert r.WindowOn(10).Contains(now);
    WindowUnique(r, now, 10);
    InsideWindow(r, now);
    var t0 := 9 * DAY + 2 * HOUR;
    assert TrueDay(r, resets, t0) == 9 && counters(k, t0) == 100;
    assert Seen(r, resets, counters, now, k, 9, 100);
  }

  /** A visible value goes to its true day or nowhere, and what the key remembers of it is sound. */
  lemma AttributedSound(
    r: Time, resets: Resets, counters: Counters, now: int, st: KeyState, confirmed: int, k: string, v: nat)
    requires r.Valid() && ResetsOk(r, resets) && Grows(r, resets, counters) && v == counters(k, now)
    requires r.Expected(now) <= st.openDay && SoundKey(r, resets, counters, now, st, k)
    requires confirmed <= TrueDay(r, resets, now) && Visible(r, resets, now, st, v)
    ensures var (st', c, out) := AttributedKey(r, now, st, confirmed, v);
      && (out.decision != Discard ==> out.day == TrueDay(r, resets, now))
      && SoundKey(r, resets, counters, now, st', k) && c <= TrueDay(r, resets, now)
      && Visible(r, resets, now, st', v) && r.Expected(now) <= st'.openDay
  {
    WrongDayExactly(r, resets, counters, now, st, confirmed, k, v);
    TrueDayRange(r, resets, now);
    if r.Current(now).Some? {
      InsideWindow(r, now);
    }
    assert Seen(r, resets, counters, now, k, TrueDay(r, resets, now), v);
  }

  /** The first value after a visible reset moves its key on, so the assumption concerns
      only that value. */
  lemma FirstValueMovesOn(
    r: Time, resets: Resets, counters: Counters, now: int, st: KeyState, confirmed: int, k: string, v: nat)
    requires r.Valid() && ResetsOk(r, resets) && Visible(r, resets, now, st, v)
    requires r.Expected(now) <= st.openDay && Behind(r, resets, now, st) && !Blind(st)
    ensures var (st', c, out) := AttributedKey(r, now, st, confirmed, v);
      out.decision == WriteNewDay && st'.openDay == TrueDay(r, resets, now) == c && !Behind(r, resets, now, st')
  {
    TrueDayRange(r, resets, now);
    if r.Current(now).Some? {
      InsideWindow(r, now);
    }
  }

  lemma SeenLater(r: Time, resets: Resets, counters: Counters, t: int, now: int, k: string, day: int, v: int)
    requires t <= now && Seen(r, resets, counters, t, k, day, v)
    ensures Seen(r, resets, counters, now, k, day, v)
  {
    var t0 :| t0 <= t && TrueDay(r, resets, t0) == day && counters(k, t0) == v;
    assert t0 <= now;
  }

  lemma ForcedSound(r: Time, resets: Resets, counters: Counters, t: int, now: int, st: KeyState, k: string)
    requires r.Valid() && ResetsOk(r, resets) && t <= now && SoundKey(r, resets, counters, t, st, k)
    ensures SoundKey(r, resets, counters, now, ForcedKey(r, now, st), k)
  {
    TrueDayAdvances(r, resets, t, now);
    TrueDayRange(r, resets, now);
    if st.hasBase {
      SeenLater(r, resets, counters, t, now, k, st.openDay, st.base);
    }
  }

  // ---- every history ----

  /** Each stored row is a value its counter really had while it counted that day. */
  ghost predicate RowsSound(r: Time, resets: Resets, counters: Counters, t: int, rows: Rows, k: string) {
    forall d :: Cell(Daily, k, d) in rows ==> Seen(r, resets, counters, t, k, d, rows[Cell(Daily, k, d)])
  }

  ghost predicate LoopSound(reg: Registry, r: Time, resets: Resets, counters: Counters, t: int, l: Loop) {
    && l.attr.confirmed <= TrueDay(r, resets, t)
    && (forall k :: k in l.attr.keys <==> PollerKey(reg, k))
    && forall k :: k in l.attr.keys ==>
         r.Expected(t) <= l.attr.keys[k].openDay && SoundKey(r, resets, counters, t, l.attr.keys[k], k)
  }

  ghost predicate AllRowsSound(reg: Registry, r: Time, resets: Resets, counters: Counters, t: int, rows: Rows) {
    forall k :: PollerKey(reg, k) ==> RowsSound(r, resets, counters, t, rows, k)
  }

  ghost predicate StateSound(reg: Registry, r: Time, resets: Resets, counters: Counters, s: State) {
    LoopSound(reg, r, resets, counters, s.last, s.loop) && AllRowsSound(reg, r, resets, counters, s.last, s.db.rows)
  }

  /** A poll reads the counters as they are, and every reset is visible. */
  ghost predicate Readings(r: Time, resets: Resets, counters: Counters, now: int, l: Loop, xs: seq<Reading>) {
    forall x :: x in xs ==>
      && x.value == counters(x.key, now)
      && (x.key in l.attr.keys ==> Visible(r, resets, now, l.attr.keys[x.key], x.value))
  }

  /** A row on its true day with its true value. */
  predicate TrueRow(r: Time, resets: Resets, counters: Counters, now: int, x: DailyRow) {
    x.day == TrueDay(r, resets, now) && x.value == counters(x.key, now)
  }

  lemma ForcedLoopSound(
    reg: Registry, r: Time, resets: Resets, counters: Counters, t: int, now: int, l: Loop)
    requires r.Valid() && ResetsOk(r, resets) && t <= now && r.Expected(t) >= 1
    requires LoopSound(reg, r, resets, counters, t, l)
    ensures LoopSound(reg, r, resets, counters, now, ForcedLoop(r, now, l))
  {
    TrueDayAdvances(r, resets, t, now);
    forall k | k in l.attr.keys
      ensures r.Expected(now) <= ForcedKey(r, now, l.attr.keys[k]).openDay
      ensures SoundKey(r, resets, counters, now, ForcedKey(r, now, l.attr.keys[k]), k)
    {
      ForcedSound(r, resets, counters, t, now, l.attr.keys[k], k);
    }
  }

  lemma ReadOneSound(
    reg: Registry, r: Time, resets: Resets, counters: Counters, now: int, l: Loop, x: Reading, rest: seq<Reading>)
    requires r.Valid() && ResetsOk(r, resets) && Grows(r, resets, counters)
    requires LoopSound(reg, r, resets, counters, now, l)
    requires Readings(r, resets, counters, now, l, [x]) && Readings(r, resets, counters, now, l, rest)
    ensures var (l', sent) := ReadOne(r, now, l, x);
      && LoopSound(reg, r, resets, counters, now, l')
      && Readings(r, resets, counters, now, l', rest)
      && forall y :: y in sent ==> TrueRow(r, resets, counters, now, y)
  {
    ReadOneRow(r, now, l, x, map[]);
    assert x in [x];
    if x.key in l.attr.keys {
      AttributedSound(r, resets, counters, now, l.attr.keys[x.key], l.attr.confirmed, x.key, x.value);
    }
  }

  lemma {:induction false} ReadAllSound(
    reg: Registry, r: Time, resets: Resets, counters: Counters, now: int, l: Loop, xs: seq<Reading>, rest: seq<Reading>)
    requires r.Valid() && ResetsOk(r, resets) && Grows(r, resets, counters)
    requires LoopSound(reg, r, resets, counters, now, l)
    requires Readings(r, resets, counters, now, l, xs) && Readings(r, resets, counters, now, l, rest)
    ensures var (l', sent) := ReadAll(r, now, l, xs);
      && LoopSound(reg, r, resets, counters, now, l')
      && Readings(r, resets, counters, now, l', rest)
      && forall y :: y in sent ==> TrueRow(r, resets, counters, now, y)
    decreases |xs|
  {
    if xs != [] {
      var n := |xs| - 1;
      assert Readings(r, resets, counters, now, l, [xs[n]] + rest) by {
        assert xs[n] in xs;
      }
      ReadAllSound(reg, r, resets, counters, now, l, xs[..n], [xs[n]] + rest);
      var (before, sent) := ReadAll(r, now, l, xs[..n]);
      assert xs[n] in [xs[n]] + rest && forall y :: y in rest ==> y in [xs[n]] + rest;
      ReadOneSound(reg, r, resets, counters, now, before, xs[n], rest);
    }
  }

  lemma {:induction false} StoredSound(
    r: Time, resets: Resets, counters: Counters, now: int, rows: Rows, sent: seq<DailyRow>, k: string)
    requires RowsSound(r, resets, counters, now, rows, k)
    requires forall y :: y in sent ==> TrueRow(r, resets, counters, now, y)
    ensures RowsSound(r, resets, counters, now, Stored(rows, sent), k)
  {
    if sent != [] {
      var n := |sent| - 1;
      StoredSound(r, resets, counters, now, rows, sent[..n], k);
      assert sent[n] in sent;
      if sent[n].key == k {
        assert Seen(r, resets, counters, now, k, sent[n].day, sent[n].value);
      }
    }
  }

  lemma RowsSoundLater(reg: Registry, r: Time, resets: Resets, counters: Counters, t: int, now: int, rows: Rows)
    requires t <= now && AllRowsSound(reg, r, resets, counters, t, rows)
    ensures AllRowsSound(reg, r, resets, counters, now, rows)
  {
    forall k, d | PollerKey(reg, k) && Cell(Daily, k, d) in rows
      ensures Seen(r, resets, counters, now, k, d, rows[Cell(Daily, k, d)])
    {
      assert RowsSound(r, resets, counters, t, rows, k);
      SeenLater(r, resets, counters, t, now, k, d, rows[Cell(Daily, k, d)]);
    }
  }

  lemma PollSound(
    reg: Registry, r: Time, resets: Resets, counters: Counters, s: State, now: int, xs: seq<Reading>)
    requires r.Valid() && ResetsOk(r, resets) && Grows(r, resets, counters) && now >= s.last
    requires StateOk(reg, r, s) && StateSound(reg, r, resets, counters, s)
    requires Readings(r, resets, counters, now, ForcedLoop(r, now, s.loop), xs)
    ensures var (l, sent) := Polled(r, s, now, xs);
      && LoopSound(reg, r, resets, counters, now, l)
      && AllRowsSound(reg, r, resets, counters, now, s.db.rows)
      && AllRowsSound(reg, r, resets, counters, now, Stored(s.db.rows, sent))
      && forall y :: y in sent ==> TrueRow(r, resets, counters, now, y)
  {
    ForcedLoopSound(reg, r, resets, counters, s.last, now, s.loop);
    ReadAllSound(reg, r, resets, counters, now, ForcedLoop(r, now, s.loop), xs, []);
    RowsSoundLater(reg, r, resets, counters, s.last, now, s.db.rows);
    forall k | PollerKey(reg, k)
      ensures RowsSound(r, resets, counters, now, Stored(s.db.rows, Polled(r, s, now, xs).1), k)
    {
      StoredSound(r, resets, counters, now, s.db.rows, Polled(r, s, now, xs).1, k);
    }
  }

  lemma SeededSound(
    reg: Registry, r: Time, resets: Resets, counters: Counters, keys: set<string>, db: DB, now: int, k: string)
    requires r.Valid() && ResetsOk(r, resets) && k in keys && PollerKey(reg, k)
    requires RowsSound(r, resets, counters, now, db.rows, k) && db.meta.Closed(k) < TrueDay(r, resets, now)
    ensures var st := SeededKey(r, now, db.rows, k, db.meta.Closed(k));
      SoundKey(r, resets, counters, now, st, k) && r.Expected(now) <= st.openDay
    ensures Advanced(r, now, db.rows, k, db.meta.Closed(k)) ==> r.Reachable(now) <= TrueDay(r, resets, now)
  {
    TrueDayRange(r, resets, now);
    ReachableIs(r, now);
    if r.Current(now).Some? {
      InsideWindow(r, now);
      var w := r.Current(now).value;
      if Cell(Daily, k, w.opening) in db.rows {
        SeenOnTrueDay(r, resets, counters, now, k, w.opening, db.rows[Cell(Daily, k, w.opening)]);
      }
    }
  }

  lemma SeenOnTrueDay(r: Time, resets: Resets, counters: Counters, now: int, k: string, day: int, v: int)
    requires r.Valid() && ResetsOk(r, resets) && Seen(r, resets, counters, now, k, day, v)
    ensures day <= TrueDay(r, resets, now)
  {
    var t0 :| t0 <= now && TrueDay(r, resets, t0) == day && counters(k, t0) == v;
    TrueDayAdvances(r, resets, t0, now);
  }

  lemma StartedSound(
    reg: Registry, r: Time, resets: Resets, counters: Counters, keys: set<string>, db: DB, now: int)
    requires r.Valid() && ResetsOk(r, resets) && r.Expected(now) >= 1
    requires (forall k :: k in keys <==> PollerKey(reg, k)) && AllRowsSound(reg, r, resets, counters, now, db.rows)
    requires forall k :: k in keys ==> db.meta.Closed(k) < TrueDay(r, resets, now)
    ensures StateSound(reg, r, resets, counters, Started(r, keys, db, now))
  {
    var s := Started(r, keys, db, now);
    TrueDayRange(r, resets, now);
    forall k | k in keys
      ensures r.Expected(now) <= s.loop.attr.keys[k].openDay
      ensures SoundKey(r, resets, counters, now, s.loop.attr.keys[k], k)
      ensures Advanced(r, now, db.rows, k, db.meta.Closed(k)) ==> r.Reachable(now) <= TrueDay(r, resets, now)
    {
      SeededSound(reg, r, resets, counters, keys, db, now, k);
    }
  }

  lemma ClosedBeforeTrueDay(reg: Registry, r: Time, resets: Resets, counters: Counters, s: State, now: int)
    requires r.Valid() && ResetsOk(r, resets) && now >= s.last
    requires StateOk(reg, r, s) && StateSound(reg, r, resets, counters, s)
    ensures forall k :: k in s.loop.attr.keys ==> s.db.meta.Closed(k) < TrueDay(r, resets, now)
  {
    TrueDayAdvances(r, resets, s.last, now);
    forall k | k in s.loop.attr.keys
      ensures s.db.meta.Closed(k) < TrueDay(r, resets, now)
    {
      assert KeyOk(r, s.last, s.loop.attr.keys[k], ClosedOf(s.loop.pending, k), s.db.meta.Closed(k), s.db.rows, k);
      assert SoundKey(r, resets, counters, s.last, s.loop.attr.keys[k], k);
    }
  }

  ghost predicate TrueEvent(r: Time, resets: Resets, counters: Counters, s: State, e: Event) {
    e.Poll? ==> Readings(r, resets, counters, e.now, ForcedLoop(r, e.now, s.loop), e.xs)
  }

  lemma StepSound(reg: Registry, r: Time, resets: Resets, counters: Counters, s: State, e: Event)
    requires r.Valid() && ResetsOk(r, resets) && Grows(r, resets, counters)
    requires StateOk(reg, r, s) && StateSound(reg, r, resets, counters, s)
    requires Enabled(reg, r, s, e) && TrueEvent(r, resets, counters, s, e)
    ensures StateSound(reg, r, resets, counters, Step(reg, r, s, e))
  {
    match e
    case Poll(now, xs, closes, commits) =>
      PollSound(reg, r, resets, counters, s, now, xs);
      PollKeepsOk(reg, r, s, now, xs, closes, commits);
      AcceptedStored(reg, s.db.meta, s.db.rows, Polled(r, s, now, xs).1);
    case Down(now, closes, commits) =>
      ForcedLoopSound(reg, r, resets, counters, s.last, now, s.loop);
      RowsSoundLater(reg, r, resets, counters, s.last, now, s.db.rows);
    case Restart(now) =>
      ClosedBeforeTrueDay(reg, r, resets, counters, s, now);
      RowsSoundLater(reg, r, resets, counters, s.last, now, s.db.rows);
      ExpectedStays(reg, r, s, now);
      StartedSound(reg, r, resets, counters, s.loop.attr.keys.Keys, s.db, now);
    case Others(db) => OthersSound(reg, r, resets, counters, s, db);
  }

  lemma ExpectedStays(reg: Registry, r: Time, s: State, now: int)
    requires r.Valid() && StateOk(reg, r, s) && now >= s.last
    ensures r.Expected(now) >= 1
  {
    DaysAdvance(r, s.last, now);
  }

  lemma OthersSound(reg: Registry, r: Time, resets: Resets, counters: Counters, s: State, db: DB)
    requires StateSound(reg, r, resets, counters, s) && OtherWriters(reg, s.db, db)
    ensures StateSound(reg, r, resets, counters, s.(db := db))
  {
    forall k, d | PollerKey(reg, k) && Cell(Daily, k, d) in db.rows
      ensures Seen(r, resets, counters, s.last, k, d, db.rows[Cell(Daily, k, d)])
    {
      assert RowsSound(r, resets, counters, s.last, s.db.rows, k);
    }
  }

  /** A first start on a database whose rows are true and whose closed days are over. */
  ghost predicate SoundStart(reg: Registry, r: Time, resets: Resets, counters: Counters,
    keys: set<string>, db: DB, now: int)
  {
    && StartOk(reg, r, keys, db, now) && AllRowsSound(reg, r, resets, counters, now, db.rows)
    && forall k :: k in keys ==> db.meta.Closed(k) < TrueDay(r, resets, now)
  }

  /** A history whose polls read true counters, from a start whose rows are sound. */
  ghost predicate TrueHistory(
    reg: Registry, r: Time, resets: Resets, counters: Counters, ss: seq<State>, es: seq<Event>)
  {
    && History(reg, r, ss, es)
    && (exists keys, db, now ::
          SoundStart(reg, r, resets, counters, keys, db, now) && ss[0] == Started(r, keys, db, now))
    && forall i {:trigger es[i]} :: 0 <= i < |es| ==> TrueEvent(r, resets, counters, ss[i], es[i])
  }

  lemma {:induction false} HistorySound(
    reg: Registry, r: Time, resets: Resets, counters: Counters, ss: seq<State>, es: seq<Event>, i: nat)
    requires r.Valid() && ResetsOk(r, resets) && Grows(r, resets, counters)
    requires TrueHistory(reg, r, resets, counters, ss, es) && i < |ss|
    ensures StateSound(reg, r, resets, counters, ss[i])
  {
    if i == 0 {
      var keys, db, now :|
        SoundStart(reg, r, resets, counters, keys, db, now) && ss[0] == Started(r, keys, db, now);
      StartedSound(reg, r, resets, counters, keys, db, now);
    } else {
      HistorySound(reg, r, resets, counters, ss, es, i - 1);
      HistoryOk(reg, r, ss, es, i - 1);
      StepSound(reg, r, resets, counters, ss[i - 1], es[i - 1]);
    }
  }

  /** Attribution soundness: every row a poll sends lies on the day its counter was really
      counting, whatever the order of the keys, outages, failed writes and restarts. */
  lemma EveryRowIsTrue(
    reg: Registry, r: Time, resets: Resets, counters: Counters, ss: seq<State>, es: seq<Event>, i: nat, x: DailyRow)
    requires r.Valid() && ResetsOk(r, resets) && Grows(r, resets, counters)
    requires TrueHistory(reg, r, resets, counters, ss, es) && i < |es| && es[i].Poll?
    requires x in Polled(r, ss[i], es[i].now, es[i].xs).1
    ensures Counts(resets, es[i].now, x.day) && x.value == counters(x.key, es[i].now)
  {
    HistorySound(reg, r, resets, counters, ss, es, i);
    HistoryOk(reg, r, ss, es, i);
    PollSound(reg, r, resets, counters, ss[i], es[i].now, es[i].xs);
    TrueDayIs(r, resets, es[i].now, x.day);
  }

  /** No day's row exceeds what the counter reached on that day. */
  lemma NoRowExceedsItsDay(
    reg: Registry, r: Time, resets: Resets, counters: Counters, ss: seq<State>, es: seq<Event>, i: nat,
    k: string, d: int, most: int)
    requires r.Valid() && ResetsOk(r, resets) && Grows(r, resets, counters)
    requires TrueHistory(reg, r, resets, counters, ss, es) && i < |ss|
    requires PollerKey(reg, k) && Cell(Daily, k, d) in ss[i].db.rows
    requires forall t :: Counts(resets, t, d) ==> counters(k, t) <= most
    ensures ss[i].db.rows[Cell(Daily, k, d)] <= most
  {
    HistorySound(reg, r, resets, counters, ss, es, i);
    assert RowsSound(r, resets, counters, ss[i].last, ss[i].db.rows, k);
    var v := ss[i].db.rows[Cell(Daily, k, d)];
    assert Seen(r, resets, counters, ss[i].last, k, d, v);
    var t0 :| t0 <= ss[i].last && TrueDay(r, resets, t0) == d && counters(k, t0) == v;
    TrueDayIs(r, resets, t0, d);
  }
}
