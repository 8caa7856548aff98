/** Day attribution of cumulative daily counters (internal/poller/attribution.go). Values are
    whole tenths of a kWh, so the 10 % rule is exact. */
module Attribution {
  import opened Calendar
  import opened Registers
  import opened Energy
  import opened Plan
  import opened Rollover

  datatype Decision = WriteCurrent | WriteNewDay | Discard

  /** Where a value goes: its day, and the day this decision closed. */
  datatype Attributed = Attributed(decision: Decision, day: int, closed: int)

  const DISCARDED := Attributed(Discard, NONE, NONE)

  /** forced only selects a warning text. */
  datatype KeyState = KeyState(openDay: int, base: nat, hasBase: bool, forced: bool)

  const UNSEEDED := KeyState(NONE, 0, false, false)

  predicate IsReset(prev: nat, cur: nat) {
    10 * cur < prev
  }

  /** A key that cannot see a reset: its counter never decreases. */
  predicate Blind(st: KeyState) {
    !st.hasBase || st.base == 0
  }

  // ---- what each operation does to one key ----

  function SeededKey(r: Time, now: int, rows: Rows, k: string, closed: int): KeyState {
    var expected := r.Expected(now);
    var own := StoredState(rows, k, expected);
    match r.Current(now)
    case None => own
    case Some(w) =>
      if Cell(Daily, k, w.opening) in rows || closed >= expected then StoredState(rows, k, w.opening) else own
  }

  /** A key open on a day, with the row stored for it as its base. */
  function StoredState(rows: Rows, k: string, day: int): KeyState {
    var c := Cell(Daily, k, day);
    if c in rows && rows[c] >= 0 then KeyState(day, rows[c], true, false) else KeyState(day, 0, false, false)
  }

  /** A seed shows the reset was already confirmed in the current window. */
  predicate Advanced(r: Time, now: int, rows: Rows, k: string, closed: int) {
    r.Current(now).Some?
    && (Cell(Daily, k, r.Current(now).value.opening) in rows || closed >= r.Expected(now))
  }

  function ForcedKey(r: Time, now: int, st: KeyState): KeyState {
    if st.openDay == NONE || st.openDay >= r.Expected(now) then st
    else KeyState(r.Expected(now), 0, false, true)
  }

  /** One value of one key: its new state, the confirmed window, and where the value goes. */
  function AttributedKey(r: Time, now: int, st: KeyState, confirmed: int, v: nat): (KeyState, int, Attributed) {
    match r.Current(now)
    case None =>
      if !st.hasBase || v >= st.base then Accepted(st, confirmed, v)
      else (st.(forced := st.forced && !IsReset(st.base, v)), confirmed, DISCARDED)
    case Some(w) =>
      if st.openDay == w.closing && Blind(st) && confirmed == w.opening then NewDay(st, w, v)
      else if st.openDay == w.closing && Blind(st) && now >= w.midnight then (st, confirmed, DISCARDED)
      else if !st.hasBase || v >= st.base then Accepted(st, confirmed, v)
      else if st.openDay == w.closing && (confirmed == w.opening || IsReset(st.base, v)) then NewDay(st, w, v)
      else (st, confirmed, DISCARDED)
  }

  function Accepted(st: KeyState, confirmed: int, v: nat): (KeyState, int, Attributed) {
    (st.(base := v, hasBase := true), confirmed, Attributed(WriteCurrent, st.openDay, NONE))
  }

  function NewDay(st: KeyState, w: Window, v: nat): (KeyState, int, Attributed) {
    (st.(openDay := w.opening, base := v, hasBase := true), w.opening,
     Attributed(WriteNewDay, w.opening, w.closing))
  }

  // ---- the attributor ----

  datatype Attr = Attr(keys: map<string, KeyState>, confirmed: int)

  function Seeded(r: Time, now: int, a: Attr, rows: Rows, closed: map<string, int>): Attr {
    Attr(
      map k | k in a.keys :: SeededKey(r, now, rows, k, ClosedOf(closed, k)),
      if exists k :: k in a.keys && Advanced(r, now, rows, k, ClosedOf(closed, k))
      then r.Reachable(now) else a.confirmed)
  }

  function ClosedOf(closed: map<string, int>, k: string): int {
    if k in closed then closed[k] else NONE
  }

  /** The closes missed while the application was down. */
  function Missed(r: Time, now: int, a: Attr, closed: map<string, int>): map<string, int> {
    map k | k in a.keys && ClosedOf(closed, k) != NONE && ClosedOf(closed, k) < r.Expected(now) - 1
      :: r.Expected(now) - 1
  }

  function Forced(r: Time, now: int, a: Attr): Attr {
    a.(keys := map k | k in a.keys :: ForcedKey(r, now, a.keys[k]))
  }

  function ForcedCloses(r: Time, now: int, a: Attr): map<string, int> {
    map k | k in a.keys && ForcedKey(r, now, a.keys[k]) != a.keys[k] :: r.Expected(now) - 1
  }

  function AttributedOne(r: Time, now: int, a: Attr, k: string, v: nat): (Attr, Attributed) {
    if k !in a.keys then (a, DISCARDED)
    else
      var (st, confirmed, out) := AttributedKey(r, now, a.keys[k], a.confirmed, v);
      (Attr(a.keys[k := st], confirmed), out)
  }

  /** The seed of every key but those still to do. */
  function SeededBut(r: Time, now: int, a: Attr, rows: Rows, closed: map<string, int>, todo: set<string>): Attr {
    Attr(
      map k | k in a.keys :: if k in todo then a.keys[k] else SeededKey(r, now, rows, k, ClosedOf(closed, k)),
      if exists k :: k in a.keys && k !in todo && Advanced(r, now, rows, k, ClosedOf(closed, k))
      then r.Reachable(now) else a.confirmed)
  }

  function MissedBut(r: Time, now: int, a: Attr, closed: map<string, int>, todo: set<string>): map<string, int> {
    map k | k in a.keys && k !in todo && ClosedOf(closed, k) != NONE && ClosedOf(closed, k) < r.Expected(now) - 1
      :: r.Expected(now) - 1
  }

  lemma SeedOneMore(r: Time, now: int, a: Attr, rows: Rows, closed: map<string, int>, todo: set<string>, k: string)
    requires k in todo && todo <= a.keys.Keys
    ensures var c := ClosedOf(closed, k);
      var before, after := SeededBut(r, now, a, rows, closed, todo), SeededBut(r, now, a, rows, closed, todo - {k});
      && after.keys == before.keys[k := SeededKey(r, now, rows, k, c)]
      && after.confirmed == (if Advanced(r, now, rows, k, c) then r.Reachable(now) else before.confirmed)
    ensures var c := ClosedOf(closed, k);
      var before, after := MissedBut(r, now, a, closed, todo), MissedBut(r, now, a, closed, todo - {k});
      after == if c != NONE && c < r.Expected(now) - 1 then before[k := r.Expected(now) - 1] else before
  {
    forall x
      ensures x in a.keys && x !in todo - {k} <==> x == k || (x in a.keys && x !in todo)
    {
    }
  }

  lemma SeededAll(r: Time, now: int, a: Attr, rows: Rows, closed: map<string, int>)
    ensures SeededBut(r, now, a, rows, closed, a.keys.Keys) == a
    ensures SeededBut(r, now, a, rows, closed, {}) == Seeded(r, now, a, rows, closed)
    ensures MissedBut(r, now, a, closed, a.keys.Keys) == map[]
    ensures MissedBut(r, now, a, closed, {}) == Missed(r, now, a, closed)
  {
  }

  class DayAttributor {
    const roll: Time
    var keys: map<string, KeyState>
    /** The opening day of the latest window with a confirmed reset. */
    var confirmed: int

    function State(): Attr
      reads this
    {
      Attr(keys, confirmed)
    }

    constructor (roll: Time, keys: set<string>)
      ensures this.roll == roll && State() == Attr(map k | k in keys :: UNSEEDED, NONE)
    {
      this.roll, this.keys, this.confirmed := roll, map k | k in keys :: UNSEEDED, NONE;
    }

    /** Restores every key from the stored rows and watermarks; returns the closes missed. */
    method Seed(now: int, rows: Rows, closed: map<string, int>) returns (missed: map<string, int>)
      requires roll.Valid()
      modifies this
      ensures State() == Seeded(roll, now, old(State()), rows, closed)
      ensures missed == Missed(roll, now, old(State()), closed)
    {
      var last := LastEnded(roll, now);
      var closedThrough := last.opening - 1;
      missed := map[];
      ghost var start := State();
      var todo := keys.Keys;
      SeededAll(roll, now, start, rows, closed);
      while todo != {}
        invariant todo <= keys.Keys == start.keys.Keys
        invariant State() == SeededBut(roll, now, start, rows, closed, todo)
        invariant missed == MissedBut(roll, now, start, closed, todo)
        decreases todo
      {
        var k :| k in todo;
        var c := if k in closed then closed[k] else NONE;
        SeedOneMore(roll, now, start, rows, closed, todo, k);
        SeedKey(k, now, rows, c);
        if c != NONE && c < closedThrough {
          missed := missed[k := closedThrough];
        }
        todo := todo - {k};
      }
    }

    /** Rebuilds one key from its stored row of the day that is open, and confirms the reset
        when the key had already moved to the day a window opens. */
    method SeedKey(k: string, now: int, rows: Rows, closed: int)
      requires roll.Valid()
      modifies this
      ensures keys == old(keys)[k := SeededKey(roll, now, rows, k, closed)]
      ensures confirmed == if Advanced(roll, now, rows, k, closed) then roll.Reachable(now) else old(confirmed)
    {
      var last := LastEnded(roll, now);
      var st := StoredState(rows, k, last.opening);
      var w := WindowAt(roll, now);
      if w.Some? && (Cell(Daily, k, w.value.opening) in rows || closed >= last.opening) {
        st := StoredState(rows, k, w.value.opening);
        confirmed := w.value.opening;
      }
      keys := keys[k := st];
    }

    /** Moves every key behind the expected day to it; returns the closed-through days. */
    method ForceClose(now: int) returns (closes: map<string, int>)
      requires roll.Valid()
      modifies this
      ensures State() == Forced(roll, now, old(State()))
      ensures closes == ForcedCloses(roll, now, old(State()))
    {
      var last := LastEnded(roll, now);
      var expected := last.opening;
      ghost var start := State();
      closes := map[];
      var todo := keys.Keys;
      while todo != {}
        invariant todo <= keys.Keys == start.keys.Keys && confirmed == start.confirmed
        invariant forall k :: k in keys ==>
          keys[k] == if k in todo then start.keys[k] else ForcedKey(roll, now, start.keys[k])
        invariant closes == map k | k in keys && k !in todo && k in ForcedCloses(roll, now, start) :: expected - 1
        decreases todo
      {
        var k :| k in todo;
        todo := todo - {k};
        if !(keys[k].openDay == NONE || keys[k].openDay >= expected) {
          closes := closes[k := expected - 1];
          keys := keys[k := KeyState(expected, 0, false, true)];
        }
      }
    }

    method Attribute(k: string, v: nat, now: int) returns (a: Attributed)
      requires roll.Valid()
      modifies this
      ensures (State(), a) == AttributedOne(roll, now, old(State()), k, v)
    {
      if k !in keys {
        return DISCARDED;
      }
      var st := keys[k];
      assert keys[k := st] == keys;
      var w := WindowAt(roll, now);
      var blind;
      blind, a := BlindReset(k, v, w, now);
      if blind {
        return;
      }
      if !st.hasBase || v >= st.base {
        keys := keys[k := st.(base := v, hasBase := true)];
        return Attributed(WriteCurrent, st.openDay, NONE);
      }
      if w.Some? {
        a := DecreaseInWindow(k, v, w.value);
        return;
      }
      if st.forced && IsReset(st.base, v) {
        keys := keys[k := st.(forced := false)];
      }
      a := DISCARDED;
    }

    /** A key on the closing day that cannot see the reset follows another key's, and is
        held from the opening day's midnight on until one is confirmed. */
    method BlindReset(k: string, v: nat, w: Option<Window>, now: int) returns (blind: bool, a: Attributed)
      requires k in keys
      modifies this
      ensures var st := old(keys)[k];
        var closing := w.Some? && st.openDay == w.value.closing && Blind(st);
        && (closing && old(confirmed) == w.value.opening ==>
              blind && (keys, a) == (old(keys)[k := NewDay(st, w.value, v).0], NewDay(st, w.value, v).2))
        && (closing && old(confirmed) != w.value.opening && now >= w.value.midnight ==>
              blind && keys == old(keys) && a == DISCARDED)
        && (!closing || (old(confirmed) != w.value.opening && now < w.value.midnight) ==> !blind && keys == old(keys))
      ensures confirmed == old(confirmed)
    {
      var st := keys[k];
      if w.None? || st.openDay != w.value.closing || (st.hasBase && st.base > 0) {
        return false, DISCARDED;
      }
      if confirmed == w.value.opening {
        keys := keys[k := st.(openDay := w.value.opening, base := v, hasBase := true)];
        return true, Attributed(WriteNewDay, w.value.opening, w.value.closing);
      }
      if now < w.value.midnight {
        return false, DISCARDED;
      }
      return true, DISCARDED;
    }

    /** A decrease confirms the reset when it is substantial, or another key confirmed it. */
    method DecreaseInWindow(k: string, v: nat, w: Window) returns (a: Attributed)
      requires k in keys && keys[k].hasBase && v < keys[k].base
      modifies this
      ensures var st := old(keys)[k];
        if st.openDay == w.closing && (old(confirmed) == w.opening || IsReset(st.base, v))
        then (keys, confirmed, a) == (old(keys)[k := NewDay(st, w, v).0], w.opening, NewDay(st, w, v).2)
        else State() == old(State()) && a == DISCARDED
    {
      var st := keys[k];
      if st.openDay != w.closing {
        return DISCARDED;
      }
      if confirmed != w.opening && !IsReset(st.base, v) {
        return DISCARDED;
      }
      confirmed := w.opening;
      keys := keys[k := st.(openDay := w.opening, base := v)];
      return Attributed(WriteNewDay, w.opening, w.closing);
    }
  }
}
