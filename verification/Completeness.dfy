/** No energy is lost on the way to the store: every value a committed poll reads is stored on
    the day its counter is counting, except while a reset cannot be seen. */
module Completeness {
  import opened Calendar
  import opened Registers
  import opened Energy
  import opened Plan
  import opened Ledger
  import opened PollStep
  import opened Rollover
  import opened Attribution
  import opened Polling
  import opened Soundness

  /** A value that must wait: its key is still on the closing day of the current window and
      cannot see a reset, midnight has passed, and no key has confirmed the reset yet. */
  predicate Held(r: Time, now: int, st: KeyState, confirmed: int) {
    match r.Current(now)
    case None => false
    case Some(w) => now >= w.midnight && st.openDay == w.closing && Blind(st) && confirmed != w.opening
  }

  // ---- one value ----

  /** A true value is discarded exactly when it must wait; otherwise it is sent, on its true
      day. */
  lemma DiscardedExactly(
    r: Time, resets: Resets, counters: Counters, now: int, st: KeyState, confirmed: int, k: string, v: nat)
    requires r.Valid() && ResetsOk(r, resets) && Grows(r, resets, counters) && v == counters(k, now)
    requires r.Expected(now) <= st.openDay && SoundKey(r, resets, counters, now, st, k)
    requires Visible(r, resets, now, st, v) && (!st.hasBase ==> st.base == 0)
    ensures AttributedKey(r, now, st, confirmed, v).2.decision == Discard <==> Held(r, now, st, confirmed)
  {
    TrueDayRange(r, resets, now);
    if r.Current(now).Some? {
      InsideWindow(r, now);
    }
    if st.hasBase && TrueDay(r, resets, now) == st.openDay {
      BaseBelow(r, resets, counters, now, st, k);
    }
  }

  // ---- one poll ----

  predicate Holds(rows: Rows, k: string, day: int, v: int) {
    var c := Cell(Daily, k, day);
    c in rows && rows[c] >= v
  }

  /** The loop as it meets the i-th value of a poll. */
  function Meets(r: Time, s: State, now: int, xs: seq<Reading>, i: nat): Loop
    requires i <= |xs|
  {
    ReadAll(r, now, ForcedLoop(r, now, s.loop), xs[..i]).0
  }

  /** The i-th value of a poll must wait. */
  predicate Waits(r: Time, s: State, now: int, xs: seq<Reading>, i: nat)
    requires i < |xs|
  {
    var l := Meets(r, s, now, xs, i);
    xs[i].key in l.attr.keys && Held(r, now, l.attr.keys[xs[i].key], l.attr.confirmed)
  }

  /** What a value sends is among what its poll sends. */
  lemma {:induction false} SentStays(r: Time, now: int, l: Loop, xs: seq<Reading>, i: nat, y: DailyRow)
    requires i < |xs| && y in ReadOne(r, now, ReadAll(r, now, l, xs[..i]).0, xs[i]).1
    ensures y in ReadAll(r, now, l, xs).1
  {
    var n := |xs| - 1;
    if i < n {
      assert xs[..n][..i] == xs[..i];
      SentStays(r, now, l, xs[..n], i, y);
    } else {
      assert xs[..i] == xs[..n];
    }
  }

  lemma {:induction false} StoredHolds(rows: Rows, sent: seq<DailyRow>, y: DailyRow)
    requires y in sent
    ensures Holds(Stored(rows, sent), y.key, y.day, y.value)
  {
    var n := |sent| - 1;
    if sent[n] != y {
      StoredHolds(rows, sent[..n], y);
    }
  }

  /** The state of the loop at the i-th value is sound, and the value can be seen. */
  lemma MetSound(
    reg: Registry, r: Time, resets: Resets, counters: Counters, now: int, l: Loop, xs: seq<Reading>, i: nat)
    requires r.Valid() && ResetsOk(r, resets) && Grows(r, resets, counters) && i < |xs|
    requires LoopSound(reg, r, resets, counters, now, l) && Readings(r, resets, counters, now, l, xs)
    ensures var met := ReadAll(r, now, l, xs[..i]).0;
      LoopSound(reg, r, resets, counters, now, met) && Readings(r, resets, counters, now, met, [xs[i]])
  {
    assert Readings(r, resets, counters, now, l, xs[..i]) && Readings(r, resets, counters, now, l, [xs[i]]) by {
      assert xs[i] in xs && forall x :: x in xs[..i] ==> x in xs;
    }
    ReadAllSound(reg, r, resets, counters, now, l, xs[..i], [xs[i]]);
  }

  /** A value that need not wait is sent, on its true day. */
  lemma ValueSent(
    reg: Registry, r: Time, resets: Resets, counters: Counters, now: int, l: Loop, x: Reading, m: Meta, rows: Rows)
    requires r.Valid() && ResetsOk(r, resets) && Grows(r, resets, counters)
    requires LoopSound(reg, r, resets, counters, now, l) && Readings(r, resets, counters, now, l, [x])
    requires LoopOk(reg, r, now, l, m, rows) && PollerKey(reg, x.key)
    ensures x.key in l.attr.keys && x.value == counters(x.key, now)
    ensures Held(r, now, l.attr.keys[x.key], l.attr.confirmed) <==> ReadOne(r, now, l, x).1 == []
    ensures !Held(r, now, l.attr.keys[x.key], l.attr.confirmed) ==>
      DailyRow(x.key, TrueDay(r, resets, now), x.value) in ReadOne(r, now, l, x).1
  {
    assert x in [x];
    var st := l.attr.keys[x.key];
    assert KeyOk(r, now, st, ClosedOf(l.pending, x.key), m.Closed(x.key), rows, x.key);
    ReadOneRow(r, now, l, x, rows);
    DiscardedExactly(r, resets, counters, now, st, l.attr.confirmed, x.key, x.value);
    AttributedSound(r, resets, counters, now, st, l.attr.confirmed, x.key, x.value);
  }

  lemma ReadingSent(
    reg: Registry, r: Time, resets: Resets, counters: Counters, s: State, now: int, xs: seq<Reading>, i: nat)
    requires r.Valid() && ResetsOk(r, resets) && Grows(r, resets, counters) && now >= s.last
    requires StateOk(reg, r, s) && StateSound(reg, r, resets, counters, s)
    requires Readings(r, resets, counters, now, ForcedLoop(r, now, s.loop), xs)
    requires i < |xs| && PollerKey(reg, xs[i].key)
    ensures xs[i].value == counters(xs[i].key, now)
    ensures !Waits(r, s, now, xs, i) ==>
      DailyRow(xs[i].key, TrueDay(r, resets, now), xs[i].value) in Polled(r, s, now, xs).1
  {
    var l := ForcedLoop(r, now, s.loop);
    ForcedLoopSound(reg, r, resets, counters, s.last, now, s.loop);
    ForcedLoopOk(reg, r, s.last, now, s.loop, s.db.meta, s.db.rows);
    MetSound(reg, r, resets, counters, now, l, xs, i);
    ReadAllOk(reg, r, now, l, xs[..i], s.db.meta, s.db.rows);
    ValueSent(reg, r, resets, counters, now, ReadAll(r, now, l, xs[..i]).0, xs[i], s.db.meta, s.db.rows);
    if !Waits(r, s, now, xs, i) {
      SentStays(r, now, l, xs, i, DailyRow(xs[i].key, TrueDay(r, resets, now), xs[i].value));
    }
  }

  lemma SentIsStored(reg: Registry, r: Time, s: State, now: int, xs: seq<Reading>, closes: seq<DayClose>, y: DailyRow)
    requires r.Valid() && StateOk(reg, r, s) && Enabled(reg, r, s, Poll(now, xs, closes, true))
    requires y in Polled(r, s, now, xs).1
    ensures Holds(Step(reg, r, s, Poll(now, xs, closes, true)).db.rows, y.key, y.day, y.value)
  {
    PollKeepsOk(reg, r, s, now, xs, closes, true);
    AcceptedStored(reg, s.db.meta, s.db.rows, Polled(r, s, now, xs).1);
    StoredHolds(s.db.rows, Polled(r, s, now, xs).1, y);
  }

  /** Completeness: in every history whose polls read true counters, each value of a poller key
      that a committed poll reads is stored on its true day, with at least the counter's value,
      unless it must wait. */
  lemma EveryReadingIsStored(
    reg: Registry, r: Time, resets: Resets, counters: Counters, ss: seq<State>, es: seq<Event>, i: nat, n: nat)
    requires r.Valid() && ResetsOk(r, resets) && Grows(r, resets, counters)
    requires TrueHistory(reg, r, resets, counters, ss, es) && i < |es| && es[i].Poll? && es[i].commits
    requires n < |es[i].xs| && PollerKey(reg, es[i].xs[n].key)
    ensures !Waits(r, ss[i], es[i].now, es[i].xs, n) ==>
      Holds(ss[i + 1].db.rows, es[i].xs[n].key, TrueDay(r, resets, es[i].now), counters(es[i].xs[n].key, es[i].now))
  {
    HistoryOk(reg, r, ss, es, i);
    HistorySound(reg, r, resets, counters, ss, es, i);
    PollStores(reg, r, resets, counters, ss[i], es[i], n);
  }

  lemma PollStores(reg: Registry, r: Time, resets: Resets, counters: Counters, s: State, e: Event, n: nat)
    requires r.Valid() && ResetsOk(r, resets) && Grows(r, resets, counters)
    requires StateOk(reg, r, s) && StateSound(reg, r, resets, counters, s) && Enabled(reg, r, s, e)
    requires e.Poll? && e.commits && TrueEvent(r, resets, counters, s, e)
    requires n < |e.xs| && PollerKey(reg, e.xs[n].key)
    ensures !Waits(r, s, e.now, e.xs, n) ==>
      Holds(Step(reg, r, s, e).db.rows, e.xs[n].key, TrueDay(r, resets, e.now), counters(e.xs[n].key, e.now))
  {
    ReadingSent(reg, r, resets, counters, s, e.now, e.xs, n);
    if !Waits(r, s, e.now, e.xs, n) {
      SentIsStored(reg, r, s, e.now, e.xs, e.closes, DailyRow(e.xs[n].key, TrueDay(r, resets, e.now), e.xs[n].value));
    }
  }

  // ---- and stays stored ----

  /** The day holds the value, or it was closed and retention has removed its row for good. */
  predicate Counted(s: State, k: string, day: int, v: int) {
    Holds(s.db.rows, k, day, v) || (Cell(Daily, k, day) !in s.db.rows && day <= s.db.meta.Closed(k))
  }

  lemma {:induction false} WritesKeep(
    reg: Registry, m: Meta, rows: Rows, sent: seq<DailyRow>, k: string, day: int, v: int)
    ensures Holds(rows, k, day, v) ==> Holds(WriteDailies(reg, m, rows, sent), k, day, v)
    ensures Cell(Daily, k, day) !in rows && day <= m.Closed(k) ==>
      Cell(Daily, k, day) !in WriteDailies(reg, m, rows, sent)
  {
    if sent != [] {
      WritesKeep(reg, m, rows, sent[..|sent| - 1], k, day, v);
    }
  }

  lemma StepKeepsCounted(reg: Registry, r: Time, s: State, e: Event, k: string, day: int, v: int)
    requires Enabled(reg, r, s, e) && PollerKey(reg, k) && Counted(s, k, day, v)
    ensures Counted(Step(reg, r, s, e), k, day, v)
  {
    match e
    case Poll(now, xs, closes, commits) =>
      WritesKeep(reg, s.db.meta, s.db.rows, Polled(r, s, now, xs).1, k, day, v);
      CloseDaysGrow(reg, s.db.meta, closes);
    case Down(now, closes, commits) =>
      WritesKeep(reg, s.db.meta, s.db.rows, [], k, day, v);
      CloseDaysGrow(reg, s.db.meta, closes);
    case Restart(now) =>
    case Others(db) => OthersKeepCounted(reg, s.db, db, k, day, v);
  }

  lemma OthersKeepCounted(reg: Registry, db: DB, db': DB, k: string, day: int, v: int)
    requires OtherWriters(reg, db, db') && PollerKey(reg, k)
    ensures Holds(db.rows, k, day, v) ==>
      Holds(db'.rows, k, day, v) || (Cell(Daily, k, day) !in db'.rows && day <= db'.meta.Closed(k))
    ensures Cell(Daily, k, day) !in db.rows ==> Cell(Daily, k, day) !in db'.rows
    ensures db'.meta.Closed(k) == db.meta.Closed(k)
  {
  }

  ghost predicate CountedFrom(ss: seq<State>, x: int, k: string, day: int, v: int) {
    0 <= x && x + 1 < |ss| && (Counted(ss[x], k, day, v) ==> Counted(ss[x + 1], k, day, v))
  }

  lemma {:induction false} CountedThroughout(ss: seq<State>, i: nat, j: nat, k: string, day: int, v: int)
    requires i <= j < |ss| && Counted(ss[i], k, day, v)
    requires forall x :: i <= x < j ==> CountedFrom(ss, x, k, day, v)
    ensures Counted(ss[j], k, day, v)
    decreases j
  {
    if i < j {
      CountedThroughout(ss, i, j - 1, k, day, v);
      assert CountedFrom(ss, j - 1, k, day, v);
    }
  }

  lemma CountedStep(
    reg: Registry, r: Time, ss: seq<State>, es: seq<Event>, x: nat, k: string, day: int, v: int)
    requires History(reg, r, ss, es) && x < |es| && PollerKey(reg, k)
    ensures CountedFrom(ss, x, k, day, v)
  {
    if Counted(ss[x], k, day, v) {
      StepKeepsCounted(reg, r, ss[x], es[x], k, day, v);
    }
  }

  /** So the row of a day reaches the largest value any committed poll read on it and that did
      not have to wait: in every later state it holds at least that, until the day is closed
      and retention removes it. */
  lemma DayReachesItsReadings(
    reg: Registry, r: Time, resets: Resets, counters: Counters, ss: seq<State>, es: seq<Event>,
    i: nat, n: nat, j: nat)
    requires r.Valid() && ResetsOk(r, resets) && Grows(r, resets, counters)
    requires TrueHistory(reg, r, resets, counters, ss, es) && i < j < |ss| && es[i].Poll? && es[i].commits
    requires n < |es[i].xs| && PollerKey(reg, es[i].xs[n].key)
    ensures !Waits(r, ss[i], es[i].now, es[i].xs, n) ==>
      Counted(ss[j], es[i].xs[n].key, TrueDay(r, resets, es[i].now), counters(es[i].xs[n].key, es[i].now))
  {
    EveryReadingIsStored(reg, r, resets, counters, ss, es, i, n);
    HeldOnward(reg, r, ss, es, i + 1, j, es[i].xs[n].key, TrueDay(r, resets, es[i].now),
      counters(es[i].xs[n].key, es[i].now));
  }

  lemma HeldOnward(
    reg: Registry, r: Time, ss: seq<State>, es: seq<Event>, i: nat, j: nat, k: string, day: int, v: int)
    requires History(reg, r, ss, es) && i <= j < |ss| && PollerKey(reg, k)
    ensures Holds(ss[i].db.rows, k, day, v) ==> Counted(ss[j], k, day, v)
  {
    if Holds(ss[i].db.rows, k, day, v) {
      StaysCounted(reg, r, ss, es, i, j, k, day, v);
    }
  }

  lemma StaysCounted(
    reg: Registry, r: Time, ss: seq<State>, es: seq<Event>, i: nat, j: nat, k: string, day: int, v: int)
    requires History(reg, r, ss, es) && i <= j < |ss| && PollerKey(reg, k) && Counted(ss[i], k, day, v)
    ensures Counted(ss[j], k, day, v)
  {
    forall x | i <= x < j
      ensures CountedFrom(ss, x, k, day, v)
    {
      CountedStep(reg, r, ss, es, x, k, day, v);
    }
    CountedThroughout(ss, i, j, k, day, v);
  }
}
