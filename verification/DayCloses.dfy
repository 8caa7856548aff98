/** Which day is closed: in the poll loop a key that has moved on has closed, or has pending,
    exactly the day before its open one; nothing is closed late. */
module DayCloses {
  import opened Calendar
  import opened Registers
  import opened Energy
  import opened Plan
  import opened Ledger
  import opened PollStep
  import opened Rollover
  import opened Attribution
  import opened Polling

  /** The latest day closed for a key, in the store or waiting for the next write. */
  function Closing(s: State, k: string): int {
    Max(NONE, Max(s.db.meta.Closed(k), ClosedOf(s.loop.pending, k)))
  }

  predicate HasKey(s: State, k: string) {
    k in s.loop.attr.keys
  }

  function OpenDay(s: State, k: string): int
    requires HasKey(s, k)
  {
    s.loop.attr.keys[k].openDay
  }

  /** The day before the open day is closed, and no later one. */
  predicate Due(s: State, k: string)
    requires HasKey(s, k)
  {
    Closing(s, k) == OpenDay(s, k) - 1
  }

  // ---- one poll ----

  /** A key's open day and its pending close: both as they were, or the close reaches the day
      before the new open day. */
  predicate Moves(open: int, pending: int, open': int, pending': int) {
    || (open' == open && pending' == pending)
    || (pending' >= open' - 1 && pending' >= pending)
  }

  predicate LoopMoves(l: Loop, l': Loop, k: string) {
    k in l.attr.keys && k in l'.attr.keys
    && Moves(l.attr.keys[k].openDay, ClosedOf(l.pending, k), l'.attr.keys[k].openDay, ClosedOf(l'.pending, k))
  }

  /** A value that moves its key on closes the day before the new one. */
  lemma ValueCloses(r: Time, now: int, st: KeyState, confirmed: int, v: nat)
    requires r.Valid()
    ensures var (st', _, out) := AttributedKey(r, now, st, confirmed, v);
      if st'.openDay == st.openDay then out.closed == NONE || out.closed == st'.openDay - 1
      else out.closed == st'.openDay - 1
  {
  }

  lemma ForcedMoves(r: Time, now: int, l: Loop, k: string)
    requires k in l.attr.keys && l.attr.keys[k].openDay != NONE
    ensures LoopMoves(l, ForcedLoop(r, now, l), k)
  {
    var st := l.attr.keys[k];
    if st.openDay < r.Expected(now) {
      assert k in ForcedCloses(r, now, l.attr);
    } else {
      assert k !in ForcedCloses(r, now, l.attr);
    }
  }

  lemma ReadOneMoves(r: Time, now: int, l: Loop, x: Reading, k: string)
    requires r.Valid() && r.Expected(now) >= 1 && k in l.attr.keys
    ensures LoopMoves(l, ReadOne(r, now, l, x).0, k)
  {
    ReadOneRow(r, now, l, x, map[]);
    if x.key == k {
      ValueCloses(r, now, l.attr.keys[k], l.attr.confirmed, x.value);
      if r.Current(now).Some? {
        InsideWindow(r, now);
      }
    }
  }

  lemma MovesOnward(a: Loop, b: Loop, c: Loop, k: string)
    requires LoopMoves(a, b, k) && LoopMoves(b, c, k)
    ensures LoopMoves(a, c, k)
  {
  }

  lemma {:induction false} ReadAllMoves(r: Time, now: int, l: Loop, xs: seq<Reading>, k: string)
    requires r.Valid() && r.Expected(now) >= 1 && k in l.attr.keys
    ensures LoopMoves(l, ReadAll(r, now, l, xs).0, k)
  {
    if xs != [] {
      var n := |xs| - 1;
      ReadAllMoves(r, now, l, xs[..n], k);
      ReadOneMoves(r, now, ReadAll(r, now, l, xs[..n]).0, xs[n], k);
      MovesOnward(l, ReadAll(r, now, l, xs[..n]).0, ReadAll(r, now, l, xs).0, k);
    }
  }

  // ---- one write ----

  /** A committed write takes every pending close to the store. */
  lemma {:induction false} PendingWritten(
    reg: Registry, m: Meta, closes: seq<DayClose>, k: string, day: int)
    requires PollerKey(reg, k) && DayClose(k, day) in closes
    ensures CloseDays(reg, m, closes).Closed(k) >= day
  {
    var n := |closes| - 1;
    if closes[n] != DayClose(k, day) {
      PendingWritten(reg, m, closes[..n], k, day);
    }
  }

  lemma ClosedAfterWrite(
    reg: Registry, m: Meta, closes: seq<DayClose>, pending: map<string, int>, k: string)
    requires PollerKey(reg, k) && ListsPending(closes, pending)
    ensures Max(NONE, CloseDays(reg, m, closes).Closed(k)) == Max(NONE, Max(m.Closed(k), ClosedOf(pending, k)))
    ensures CloseDays(reg, m, closes).Closed(k) >= m.Closed(k)
  {
    ClosedByPending(reg, m, closes, pending, k);
    if k in pending {
      PendingWritten(reg, m, closes, k, pending[k]);
    }
  }

  // ---- one step ----

  /** What a step other than a restart does to one key. */
  predicate StateMoves(s: State, s': State, k: string) {
    HasKey(s, k) && HasKey(s', k) && Moves(OpenDay(s, k), Closing(s, k), OpenDay(s', k), Closing(s', k))
  }

  predicate Writes(e: Event) {
    (e.Poll? && e.commits) || (e.Down? && e.commits)
  }

  lemma LoopStep(reg: Registry, r: Time, s: State, s': State, l: Loop, closes: seq<DayClose>, commits: bool, k: string)
    requires StateOk(reg, r, s) && HasKey(s, k) && LoopMoves(s.loop, l, k) && ListsPending(closes, l.pending)
    requires s'.loop == if commits then l.(pending := map[]) else l
    requires s'.db.meta == if commits then CloseDays(reg, s.db.meta, closes) else s.db.meta
    ensures StateMoves(s, s', k) && (commits ==> Closing(s', k) == Max(NONE, s'.db.meta.Closed(k)))
    ensures s'.db.meta.Closed(k) >= s.db.meta.Closed(k)
  {
    assert PollerKey(reg, k);
    ClosedAfterWrite(reg, s.db.meta, closes, l.pending, k);
  }

  lemma StepMoves(reg: Registry, r: Time, s: State, e: Event, k: string)
    requires r.Valid() && StateOk(reg, r, s) && Enabled(reg, r, s, e) && HasKey(s, k) && !e.Restart?
    ensures StateMoves(s, Step(reg, r, s, e), k)
    ensures Writes(e) ==> Closing(Step(reg, r, s, e), k) == Max(NONE, Step(reg, r, s, e).db.meta.Closed(k))
    ensures Step(reg, r, s, e).db.meta.Closed(k) >= s.db.meta.Closed(k)
  {
    assert KeyOk(r, s.last, s.loop.attr.keys[k], ClosedOf(s.loop.pending, k), s.db.meta.Closed(k), s.db.rows, k);
    match e
    case Poll(now, xs, closes, commits) =>
      DaysAdvance(r, s.last, now);
      ForcedMoves(r, now, s.loop, k);
      ReadAllMoves(r, now, ForcedLoop(r, now, s.loop), xs, k);
      MovesOnward(s.loop, ForcedLoop(r, now, s.loop), Polled(r, s, now, xs).0, k);
      LoopStep(reg, r, s, Step(reg, r, s, e), Polled(r, s, now, xs).0, closes, commits, k);
    case Down(now, closes, commits) =>
      ForcedMoves(r, now, s.loop, k);
      LoopStep(reg, r, s, Step(reg, r, s, e), ForcedLoop(r, now, s.loop), closes, commits, k);
    case Others(db) =>
  }

  // ---- a key that has moved ----

  /** The upper half: no day at or after the open one is closed. */
  lemma ClosedBelow(reg: Registry, r: Time, s: State, k: string)
    requires StateOk(reg, r, s) && HasKey(s, k)
    ensures Closing(s, k) < OpenDay(s, k)
  {
    assert KeyOk(r, s.last, s.loop.attr.keys[k], ClosedOf(s.loop.pending, k), s.db.meta.Closed(k), s.db.rows, k);
  }

  lemma StepAt(reg: Registry, r: Time, ss: seq<State>, es: seq<Event>, i: nat)
    requires History(reg, r, ss, es) && i < |es|
    ensures Enabled(reg, r, ss[i], es[i]) && ss[i + 1] == Step(reg, r, ss[i], es[i])
  {
  }

  lemma MovesAt(reg: Registry, r: Time, ss: seq<State>, es: seq<Event>, i: nat, k: string)
    requires r.Valid() && History(reg, r, ss, es) && i < |es| && PollerKey(reg, k) && !es[i].Restart?
    ensures StateMoves(ss[i], ss[i + 1], k)
    ensures Writes(es[i]) ==> Closing(ss[i + 1], k) == Max(NONE, ss[i + 1].db.meta.Closed(k))
  {
    HistoryOk(reg, r, ss, es, i);
    StepAt(reg, r, ss, es, i);
    StepMoves(reg, r, ss[i], es[i], k);
  }

  lemma Keyed(reg: Registry, r: Time, ss: seq<State>, es: seq<Event>, i: nat, k: string)
    requires r.Valid() && History(reg, r, ss, es) && i < |ss| && PollerKey(reg, k)
    ensures HasKey(ss[i], k)
  {
    HistoryOk(reg, r, ss, es, i);
  }

  ghost predicate MovesFrom(ss: seq<State>, x: int, k: string) {
    0 <= x && x + 1 < |ss| && StateMoves(ss[x], ss[x + 1], k)
  }

  lemma {:induction false} ReachedThroughout(ss: seq<State>, i: nat, j: nat, k: string)
    requires i <= j < |ss| && forall x :: i <= x < j ==> MovesFrom(ss, x, k)
    requires HasKey(ss[i], k) && Closing(ss[i], k) >= OpenDay(ss[i], k) - 1
    ensures HasKey(ss[j], k) && Closing(ss[j], k) >= OpenDay(ss[j], k) - 1
    decreases j
  {
    if i < j {
      ReachedThroughout(ss, i, j - 1, k);
      assert MovesFrom(ss, j - 1, k);
    }
  }

  lemma BelowAt(reg: Registry, r: Time, ss: seq<State>, es: seq<Event>, i: nat, k: string)
    requires r.Valid() && History(reg, r, ss, es) && i < |ss| && PollerKey(reg, k)
    ensures HasKey(ss[i], k) && Closing(ss[i], k) < OpenDay(ss[i], k) && OpenDay(ss[i], k) >= 1
  {
    HistoryOk(reg, r, ss, es, i);
    ClosedBelow(reg, r, ss[i], k);
  }

  /** Since its open day last changed, moved on by a value or forced by a rollover, a key has
      the day before it closed or pending, and never more, until the process restarts; after a
      committed write it is closed in the store. */
  lemma MovedIsClosed(
    reg: Registry, r: Time, ss: seq<State>, es: seq<Event>, i: nat, j: nat, k: string)
    requires r.Valid() && History(reg, r, ss, es) && i < j < |ss| && PollerKey(reg, k)
    requires HasKey(ss[i], k) && HasKey(ss[i + 1], k) && OpenDay(ss[i + 1], k) != OpenDay(ss[i], k)
    requires forall x :: i <= x < j ==> !es[x].Restart?
    ensures HasKey(ss[j], k) && Due(ss[j], k)
    ensures Writes(es[j - 1]) ==> ss[j].db.meta.Closed(k) == OpenDay(ss[j], k) - 1
  {
    forall x | i <= x < j
      ensures MovesFrom(ss, x, k)
    {
      MovesAt(reg, r, ss, es, x, k);
    }
    assert MovesFrom(ss, i, k);
    ReachedThroughout(ss, i + 1, j, k);
    BelowAt(reg, r, ss, es, j, k);
    MovesAt(reg, r, ss, es, j - 1, k);
  }

  // ---- every key that has ever closed a day ----

  /** Rows beyond the expected day have the day before closed. */
  ghost predicate RowsFollow(r: Time, t: int, closed: int, rows: Rows, k: string) {
    && closed >= NONE
    && (closed != NONE ==> forall d :: Cell(Daily, k, d) in rows && d > r.Expected(t) ==> closed >= d - 1)
  }

  ghost predicate KeyCloses(r: Time, s: State, k: string) {
    && HasKey(s, k)
    && (Closing(s, k) != NONE ==> Due(s, k))
    && RowsFollow(r, s.last, s.db.meta.Closed(k), s.db.rows, k)
  }

  /** A start takes up a key that has closed a day correctly unless the store holds a row of
      the opening day whose closing day it has not closed. */
  lemma SeedCloses(reg: Registry, r: Time, keys: set<string>, db: DB, now: int, k: string)
    requires r.Valid() && StartOk(reg, r, keys, db, now) && k in keys && db.meta.Closed(k) >= NONE
    ensures HasKey(Started(r, keys, db, now), k)
    ensures db.meta.Closed(k) == NONE ==> Closing(Started(r, keys, db, now), k) == NONE
    ensures db.meta.Closed(k) > NONE ==> (Due(Started(r, keys, db, now), k)
      <==> (r.Current(now).Some? && Cell(Daily, k, r.Reachable(now)) in db.rows ==>
              db.meta.Closed(k) >= r.Expected(now)))
  {
    ReachableIs(r, now);
    if r.Current(now).Some? {
      InsideWindow(r, now);
    }
    StartedOk(reg, r, keys, db, now);
    ClosedBelow(reg, r, Started(r, keys, db, now), k);
  }

  /** It does happen: a store upgraded in the morning window of day 10, with a row of day 10
      and day 7 the last closed one, leaves day 9 unclosed, although the key is open on day 10. */
  lemma LateCloseHappens(r: Time, now: int, db: DB, k: string)
    requires r == Time(0, 0) && now == 10 * DAY + 10 * MINUTE
    requires Cell(Daily, k, 10) in db.rows && db.meta.Closed(k) == 7
    ensures var s := Started(r, {k}, db, now);
      HasKey(s, k) && OpenDay(s, k) == 10 && Closing(s, k) == 8
  {
    assert r.WindowOn(10).Contains(now);
    WindowUnique(r, now, 10);
    InsideWindow(r, now);
  }

  lemma StartKeyCloses(reg: Registry, r: Time, keys: set<string>, db: DB, now: int, k: string)
    requires r.Valid() && StartOk(reg, r, keys, db, now) && k in keys
    requires RowsFollow(r, now, db.meta.Closed(k), db.rows, k)
    ensures KeyCloses(r, Started(r, keys, db, now), k)
  {
    ReachableIs(r, now);
    if db.meta.Closed(k) != NONE {
      SeedCloses(reg, r, keys, db, now, k);
    }
  }

  lemma RowsFollowLater(r: Time, t: int, now: int, closed: int, rows: Rows, k: string)
    requires r.Valid() && t <= now && RowsFollow(r, t, closed, rows, k)
    ensures RowsFollow(r, now, closed, rows, k)
  {
    DaysAdvance(r, t, now);
  }

  /** After a committed write no row lies beyond the open day, so the closes keep up. */
  lemma WrittenFollow(reg: Registry, r: Time, s: State, k: string)
    requires StateOk(reg, r, s) && HasKey(s, k) && Closing(s, k) == s.db.meta.Closed(k) >= NONE
    requires Closing(s, k) != NONE ==> Due(s, k)
    ensures RowsFollow(r, s.last, s.db.meta.Closed(k), s.db.rows, k)
  {
    assert KeyOk(r, s.last, s.loop.attr.keys[k], ClosedOf(s.loop.pending, k), s.db.meta.Closed(k), s.db.rows, k);
  }

  lemma StepKeepsCloses(reg: Registry, r: Time, s: State, e: Event, k: string)
    requires r.Valid() && StateOk(reg, r, s) && Enabled(reg, r, s, e) && PollerKey(reg, k) && KeyCloses(r, s, k)
    ensures KeyCloses(r, Step(reg, r, s, e), k)
  {
    var s' := Step(reg, r, s, e);
    StepKeepsOk(reg, r, s, e);
    if e.Restart? {
      RestartKeepsCloses(reg, r, s, e.now, k);
    } else {
      StepMoves(reg, r, s, e, k);
      ClosedBelow(reg, r, s', k);
      if Writes(e) {
        WrittenFollow(reg, r, s', k);
      } else {
        UnwrittenFollow(reg, r, s, e, k);
      }
    }
  }

  lemma UnwrittenFollow(reg: Registry, r: Time, s: State, e: Event, k: string)
    requires r.Valid() && Enabled(reg, r, s, e) && PollerKey(reg, k) && !Writes(e) && !e.Restart?
    requires RowsFollow(r, s.last, s.db.meta.Closed(k), s.db.rows, k)
    ensures var s' := Step(reg, r, s, e); RowsFollow(r, s'.last, s'.db.meta.Closed(k), s'.db.rows, k)
  {
    match e
    case Poll(now, xs, closes, commits) => RowsFollowLater(r, s.last, now, s.db.meta.Closed(k), s.db.rows, k);
    case Down(now, closes, commits) => RowsFollowLater(r, s.last, now, s.db.meta.Closed(k), s.db.rows, k);
    case Others(db) => OthersFollow(reg, r, s.last, s.db, db, k);
  }

  lemma OthersFollow(reg: Registry, r: Time, t: int, db: DB, db': DB, k: string)
    requires OtherWriters(reg, db, db') && PollerKey(reg, k)
    requires RowsFollow(r, t, db.meta.Closed(k), db.rows, k)
    ensures RowsFollow(r, t, db'.meta.Closed(k), db'.rows, k)
  {
    assert db'.meta.Closed(k) == db.meta.Closed(k);
    forall d | Cell(Daily, k, d) in db'.rows
      ensures Cell(Daily, k, d) in db.rows
    {
    }
  }

  lemma RestartKeepsCloses(reg: Registry, r: Time, s: State, now: int, k: string)
    requires r.Valid() && StateOk(reg, r, s) && PollerKey(reg, k) && KeyCloses(r, s, k) && now >= s.last
    ensures KeyCloses(r, Started(r, s.loop.attr.keys.Keys, s.db, now), k)
  {
    RestartStarts(reg, r, s, now);
    RowsFollowLater(r, s.last, now, s.db.meta.Closed(k), s.db.rows, k);
    StartKeyCloses(reg, r, s.loop.attr.keys.Keys, s.db, now, k);
  }

  lemma RestartStarts(reg: Registry, r: Time, s: State, now: int)
    requires r.Valid() && StateOk(reg, r, s) && now >= s.last
    ensures StartOk(reg, r, s.loop.attr.keys.Keys, s.db, now)
  {
    DaysAdvance(r, s.last, now);
    forall k | k in s.loop.attr.keys
      ensures s.db.meta.Closed(k) < r.Reachable(now) && RowsUpTo(s.db.rows, k, r.Reachable(now))
    {
      assert KeyOk(r, s.last, s.loop.attr.keys[k], ClosedOf(s.loop.pending, k), s.db.meta.Closed(k), s.db.rows, k);
    }
  }

  /** A history whose first start finds no row ahead of the closes. */
  ghost predicate FollowingHistory(reg: Registry, r: Time, ss: seq<State>, es: seq<Event>, k: string) {
    && History(reg, r, ss, es)
    && exists keys, db, now :: StartOk(reg, r, keys, db, now) && ss[0] == Started(r, keys, db, now)
         && RowsFollow(r, now, db.meta.Closed(k), db.rows, k)
  }

  /** In every state of every such history, restarts and the closes they missed included, a
      key that has closed or is closing any day has closed, or is closing, exactly the day
      before its open one; after a committed write it is closed in the store. */
  lemma EveryDayIsClosed(
    reg: Registry, r: Time, ss: seq<State>, es: seq<Event>, i: nat, k: string)
    requires r.Valid() && FollowingHistory(reg, r, ss, es, k) && i < |ss| && PollerKey(reg, k)
    ensures HasKey(ss[i], k) && (Closing(ss[i], k) != NONE ==> Due(ss[i], k))
    ensures i > 0 && Writes(es[i - 1]) && Closing(ss[i], k) != NONE ==>
      ss[i].db.meta.Closed(k) == OpenDay(ss[i], k) - 1
  {
    StartsClosing(reg, r, ss, es, k);
    ClosedFromStart(reg, r, ss, es, i, k);
  }

  lemma ClosedFromStart(
    reg: Registry, r: Time, ss: seq<State>, es: seq<Event>, i: nat, k: string)
    requires r.Valid() && History(reg, r, ss, es) && i < |ss| && PollerKey(reg, k) && KeyCloses(r, ss[0], k)
    ensures KeyCloses(r, ss[i], k)
    ensures i > 0 && Writes(es[i - 1]) && Closing(ss[i], k) != NONE ==>
      ss[i].db.meta.Closed(k) == OpenDay(ss[i], k) - 1
  {
    forall x | 0 <= x < i
      ensures ClosesFrom(r, ss, x, k)
    {
      ClosesStep(reg, r, ss, es, x, k);
    }
    ClosesThroughout(r, ss, i, k);
    if i > 0 && !es[i - 1].Restart? {
      MovesAt(reg, r, ss, es, i - 1, k);
    }
  }

  ghost predicate ClosesFrom(r: Time, ss: seq<State>, x: int, k: string) {
    0 <= x && x + 1 < |ss| && (KeyCloses(r, ss[x], k) ==> KeyCloses(r, ss[x + 1], k))
  }

  lemma {:induction false} ClosesThroughout(r: Time, ss: seq<State>, n: nat, k: string)
    requires n < |ss| && KeyCloses(r, ss[0], k) && forall x :: 0 <= x < n ==> ClosesFrom(r, ss, x, k)
    ensures KeyCloses(r, ss[n], k)
  {
    if n > 0 {
      ClosesThroughout(r, ss, n - 1, k);
      assert ClosesFrom(r, ss, n - 1, k);
    }
  }

  lemma StartsClosing(reg: Registry, r: Time, ss: seq<State>, es: seq<Event>, k: string)
    requires r.Valid() && FollowingHistory(reg, r, ss, es, k) && PollerKey(reg, k)
    ensures KeyCloses(r, ss[0], k)
  {
    var keys, db, now :| StartOk(reg, r, keys, db, now) && ss[0] == Started(r, keys, db, now)
      && RowsFollow(r, now, db.meta.Closed(k), db.rows, k);
    StartKeyCloses(reg, r, keys, db, now, k);
  }

  lemma ClosesStep(reg: Registry, r: Time, ss: seq<State>, es: seq<Event>, x: nat, k: string)
    requires r.Valid() && History(reg, r, ss, es) && x < |es| && PollerKey(reg, k)
    ensures ClosesFrom(r, ss, x, k)
  {
    HistoryOk(reg, r, ss, es, x);
    StepAt(reg, r, ss, es, x);
    if KeyCloses(r, ss[x], k) {
      StepKeepsCloses(reg, r, ss[x], es[x], k);
    }
  }
}
