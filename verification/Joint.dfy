/** One application: the poll loop, the aggregator, retention and the offline backfill over
    one store. Its histories are histories of both step systems, so what either guarantees
    holds for the whole. */
module Joint {
  import opened Calendar
  import opened Registers
  import opened Energy
  import opened Plan
  import opened Ledger
  import opened World
  import opened Conservation
  import opened Integration
  import Rollover
  import Polling
  import Ledgers = World
  import Gap

  datatype State = State(s: Polling.State, w: World)

  /** What the poll loop does, or a step of the other writers. */
  datatype Event =
    | Loop(polling: Polling.Event)
    | Other(step: Ledgers.Event)

  /** Runs and backfills capture a day no earlier than the last poll's: one clock drives the
      application. What they need of the closed days follows from it. */
  ghost predicate OnTime(reg: Registry, w: World, e: Ledgers.Event, today: int) {
    match e
    case Begin(p) => w.run.None? && p.Valid() && p.day >= w.lastDay && p.day >= w.db.meta.cutover && p.day >= today
    case Backfill(now, years) => w.run.None? && now.Valid() && years < now.year && now.day >= today
    case _ => Ledgers.Enabled(reg, w, e)
  }

  ghost predicate Enabled(reg: Registry, r: Rollover.Time, x: State, v: Event) {
    match v
    case Loop(e) => !e.Others? && Polling.Enabled(reg, r, x.s, e)
    case Other(e) => !e.Poll? && OnTime(reg, x.w, e, Rollover.Today(x.s.last))
  }

  /** What the ledger sees of an event of the loop: a committed write is a poll transaction, a
      restart drops the run in progress. */
  function LedgerPart(r: Rollover.Time, x: State, v: Event): (e: Ledgers.Event)
  {
    match v
    case Other(e) => e
    case Loop(Poll(now, xs, closes, commits)) =>
      if commits then Ledgers.Poll(Polling.Polled(r, x.s, now, xs).1, closes) else Ledgers.Poll([], [])
    case Loop(Down(now, closes, commits)) => if commits then Ledgers.Poll([], closes) else Ledgers.Poll([], [])
    case Loop(_) => Abort
  }

  ghost function Step(reg: Registry, r: Rollover.Time, x: State, v: Event): State
    requires Ledgers.Enabled(reg, x.w, LedgerPart(r, x, v))
  {
    var w' := Ledgers.Step(reg, x.w, LedgerPart(r, x, v));
    State(Polling.Step(reg, r, x.s, if v.Loop? then v.polling else Polling.Others(w'.db)), w')
  }

  /** A first start: the cutover, then the loop is seeded from the store. */
  ghost predicate StartOk(
    reg: Registry, r: Rollover.Time, keys: set<string>, db: DB, p: Period, now: int, x: State)
  {
    && Ledgers.Fresh(reg, db, p) && x.w == Ledgers.Started(reg, db, p)
    && Polling.StartOk(reg, r, keys, x.w.db, now) && x.s == Polling.Started(r, keys, x.w.db, now)
  }

  /** One step. That the ledger can take its part is not assumed: LedgerEnabled proves it of
      every state of a history. */
  ghost predicate Next(reg: Registry, r: Rollover.Time, x: State, v: Event, x': State) {
    && Enabled(reg, r, x, v)
    && (Ledgers.Enabled(reg, x.w, LedgerPart(r, x, v)) ==> x' == Step(reg, r, x, v))
  }

  ghost predicate History(reg: Registry, r: Rollover.Time, xs: seq<State>, vs: seq<Event>) {
    && |xs| == |vs| + 1
    && (exists keys, db, p, now :: StartOk(reg, r, keys, db, p, now, xs[0]))
    && forall i {:trigger vs[i]} :: 0 <= i < |vs| ==> Next(reg, r, xs[i], vs[i], xs[i + 1])
  }

  // ---- one step is a step of both ----

  ghost predicate Ok(reg: Registry, r: Rollover.Time, x: State) {
    Inv(reg, x.w) && Polling.StateOk(reg, r, x.s) && x.s.db == x.w.db
  }

  /** Every closed day lies on or before the day of the last poll. */
  lemma LowestByToday(reg: Registry, r: Rollover.Time, s: Polling.State, day: nat)
    requires reg.Valid() && r.Valid() && Polling.StateOk(reg, r, s) && Rollover.Today(s.last) <= day
    ensures s.db.meta.LowestClosed(reg.dailyKeys) <= day
  {
    if reg.dailyKeys != [] {
      var k := reg.dailyKeys[0];
      assert k in reg.dailyKeys && PollerKey(reg, k);
      Polling.StateClosedByToday(reg, r, s, k);
    }
  }

  /** Being on time is all a run or a backfill needs. */
  lemma OnTimeEnabled(reg: Registry, r: Rollover.Time, x: State, e: Ledgers.Event)
    requires reg.Valid() && r.Valid() && Ok(reg, r, x) && OnTime(reg, x.w, e, Rollover.Today(x.s.last))
    ensures Ledgers.Enabled(reg, x.w, e)
  {
    match e
    case Begin(p) => LowestByToday(reg, r, x.s, p.day);
    case Backfill(now, years) => LowestByToday(reg, r, x.s, now.day);
    case _ =>
  }

  lemma LedgerEnabled(reg: Registry, r: Rollover.Time, x: State, v: Event)
    requires reg.Valid() && r.Valid() && Ok(reg, r, x) && Enabled(reg, r, x, v)
    ensures Ledgers.Enabled(reg, x.w, LedgerPart(r, x, v))
  {
    if v.Other? {
      OnTimeEnabled(reg, r, x, v.step);
    }
  }

  /** The event of the loop, or what it sees of the other writers. */
  function LoopPart(v: Event, after: DB): Polling.Event {
    if v.Loop? then v.polling else Polling.Others(after)
  }

  lemma LoopEnabled(reg: Registry, r: Rollover.Time, x: State, v: Event)
    requires reg.Valid() && r.Valid() && Ok(reg, r, x) && Enabled(reg, r, x, v)
    requires Ledgers.Enabled(reg, x.w, LedgerPart(r, x, v))
    ensures Polling.Enabled(reg, r, x.s, LoopPart(v, Step(reg, r, x, v).w.db))
  {
    if v.Other? {
      LedgerStepsAreOthers(reg, x.w, v.step);
    }
  }

  lemma EmptyPoll(reg: Registry, w: World)
    ensures Ledgers.Step(reg, w, Ledgers.Poll([], [])) == w
  {
  }

  /** Both keep one store. */
  lemma SameStore(reg: Registry, r: Rollover.Time, x: State, v: Event)
    requires x.s.db == x.w.db && Enabled(reg, r, x, v) && Ledgers.Enabled(reg, x.w, LedgerPart(r, x, v))
    ensures Step(reg, r, x, v).s.db == Step(reg, r, x, v).w.db
  {
    if v.Loop? {
      LoopWrites(reg, r, x, v.polling);
    }
  }

  lemma LoopWrites(reg: Registry, r: Rollover.Time, x: State, e: Polling.Event)
    requires x.s.db == x.w.db && !e.Others? && Ledgers.Enabled(reg, x.w, LedgerPart(r, x, Loop(e)))
    ensures Polling.Step(reg, r, x.s, e).db == Ledgers.Step(reg, x.w, LedgerPart(r, x, Loop(e))).db
  {
    EmptyPoll(reg, x.w);
    match e
    case Poll(now, xs, closes, commits) =>
    case Down(now, closes, commits) =>
    case _ =>
  }

  lemma StepKeepsOk(reg: Registry, r: Rollover.Time, x: State, v: Event, x': State)
    requires reg.Valid() && r.Valid() && Ok(reg, r, x) && Next(reg, r, x, v, x')
    ensures Ledgers.Next(reg, x.w, LedgerPart(r, x, v), x'.w)
    ensures Polling.Enabled(reg, r, x.s, LoopPart(v, x'.w.db))
    ensures x'.s == Polling.Step(reg, r, x.s, LoopPart(v, x'.w.db))
    ensures Ok(reg, r, x')
  {
    LedgerEnabled(reg, r, x, v);
    LoopEnabled(reg, r, x, v);
    SameStore(reg, r, x, v);
    StepKeepsInv(reg, x.w, LedgerPart(r, x, v));
    Polling.StepKeepsOk(reg, r, x.s, LoopPart(v, x'.w.db));
  }

  lemma StartIsOk(
    reg: Registry, r: Rollover.Time, keys: set<string>, db: DB, p: Period, now: int, x: State)
    requires reg.Valid() && r.Valid() && StartOk(reg, r, keys, db, p, now, x)
    ensures Ok(reg, r, x)
  {
    Gap.Opening(reg, db, p);
    HistoryKeepsInv(reg, [x.w], [], 0);
    Polling.StartedOk(reg, r, keys, x.w.db, now);
  }

  // ---- histories ----

  ghost predicate OkAt(reg: Registry, r: Rollover.Time, xs: seq<State>, i: int) {
    0 <= i && i + 1 < |xs| && (Ok(reg, r, xs[i]) ==> Ok(reg, r, xs[i + 1]))
  }

  lemma {:induction false} OkThroughout(reg: Registry, r: Rollover.Time, xs: seq<State>, n: nat)
    requires n < |xs| && Ok(reg, r, xs[0]) && forall i :: 0 <= i < n ==> OkAt(reg, r, xs, i)
    ensures Ok(reg, r, xs[n])
  {
    if n > 0 {
      OkThroughout(reg, r, xs, n - 1);
      assert OkAt(reg, r, xs, n - 1);
    }
  }

  lemma StepAt(reg: Registry, r: Rollover.Time, xs: seq<State>, vs: seq<Event>, i: nat)
    requires History(reg, r, xs, vs) && i < |vs|
    ensures Next(reg, r, xs[i], vs[i], xs[i + 1])
  {
  }

  /** In every state of a joint history both invariants hold, over one store. */
  lemma HistoryOk(reg: Registry, r: Rollover.Time, xs: seq<State>, vs: seq<Event>, n: nat)
    requires reg.Valid() && r.Valid() && History(reg, r, xs, vs) && n < |xs|
    ensures Ok(reg, r, xs[n])
  {
    var keys, db, p, now :| StartOk(reg, r, keys, db, p, now, xs[0]);
    StartIsOk(reg, r, keys, db, p, now, xs[0]);
    forall i | 0 <= i < n
      ensures OkAt(reg, r, xs, i)
    {
      StepAt(reg, r, xs, vs, i);
      if Ok(reg, r, xs[i]) {
        StepKeepsOk(reg, r, xs[i], vs[i], xs[i + 1]);
      }
    }
    OkThroughout(reg, r, xs, n);
  }

  function LedgerStates(xs: seq<State>): (ws: seq<World>)
    ensures |ws| == |xs| && forall i :: 0 <= i < |xs| ==> ws[i] == xs[i].w
  {
    seq(|xs|, i requires 0 <= i < |xs| => xs[i].w)
  }

  function LedgerEvents(r: Rollover.Time, xs: seq<State>, vs: seq<Event>): (es: seq<Ledgers.Event>)
    requires |xs| == |vs| + 1
    ensures |es| == |vs| && forall i :: 0 <= i < |vs| ==> es[i] == LedgerPart(r, xs[i], vs[i])
  {
    seq(|vs|, i requires 0 <= i < |vs| && |xs| == |vs| + 1 => LedgerPart(r, xs[i], vs[i]))
  }

  function LoopStates(xs: seq<State>): (ss: seq<Polling.State>)
    ensures |ss| == |xs| && forall i :: 0 <= i < |xs| ==> ss[i] == xs[i].s
  {
    seq(|xs|, i requires 0 <= i < |xs| => xs[i].s)
  }

  function LoopEvents(xs: seq<State>, vs: seq<Event>): (es: seq<Polling.Event>)
    requires |xs| == |vs| + 1
    ensures |es| == |vs| && forall i :: 0 <= i < |vs| ==> es[i] == LoopPart(vs[i], xs[i + 1].w.db)
  {
    seq(|vs|, i requires 0 <= i < |vs| && |xs| == |vs| + 1 => LoopPart(vs[i], xs[i + 1].w.db))
  }

  /** A joint history is a ledger history: every run that is on time finds no day closed
      beyond the day it captured. */
  lemma IsLedgerHistory(reg: Registry, r: Rollover.Time, xs: seq<State>, vs: seq<Event>)
    requires reg.Valid() && r.Valid() && History(reg, r, xs, vs)
    ensures Ledgers.History(reg, LedgerStates(xs), LedgerEvents(r, xs, vs))
  {
    var ws, es := LedgerStates(xs), LedgerEvents(r, xs, vs);
    var keys, db, p, now :| StartOk(reg, r, keys, db, p, now, xs[0]);
    assert Ledgers.Fresh(reg, db, p) && ws[0] == Ledgers.Started(reg, db, p);
    forall i | 0 <= i < |es|
      ensures Ledgers.Next(reg, ws[i], es[i], ws[i + 1])
    {
      HistoryOk(reg, r, xs, vs, i);
      StepAt(reg, r, xs, vs, i);
      StepKeepsOk(reg, r, xs[i], vs[i], xs[i + 1]);
    }
  }

  ghost predicate LoopStep(reg: Registry, r: Rollover.Time, s: Polling.State, e: Polling.Event, s': Polling.State) {
    Polling.Enabled(reg, r, s, e) && s' == Polling.Step(reg, r, s, e)
  }

  /** A joint history is a history of the poll loop, to which the rest are other writers. */
  lemma IsLoopHistory(reg: Registry, r: Rollover.Time, xs: seq<State>, vs: seq<Event>)
    requires reg.Valid() && r.Valid() && History(reg, r, xs, vs)
    ensures Polling.History(reg, r, LoopStates(xs), LoopEvents(xs, vs))
  {
    var ss, es := LoopStates(xs), LoopEvents(xs, vs);
    var keys, db, p, now :| StartOk(reg, r, keys, db, p, now, xs[0]);
    assert Polling.StartOk(reg, r, keys, xs[0].w.db, now) && ss[0] == Polling.Started(r, keys, xs[0].w.db, now);
    forall i | 0 <= i < |es|
      ensures LoopStep(reg, r, ss[i], es[i], ss[i + 1])
    {
      HistoryOk(reg, r, xs, vs, i);
      StepAt(reg, r, xs, vs, i);
      StepKeepsOk(reg, r, xs[i], vs[i], xs[i + 1]);
    }
  }

  /** Conservation for the whole application: nothing is assumed of the runs but their clock. */
  lemma Conserved(reg: Registry, r: Rollover.Time, xs: seq<State>, vs: seq<Event>, i: nat, e: Edge, through: int)
    requires reg.Valid() && r.Valid() && History(reg, r, xs, vs) && i < |xs| && e in reg.EdgesAt(Total)
    ensures Conserves(xs[i].w, e, through)
  {
    IsLedgerHistory(reg, r, xs, vs);
    Conservation.Conserved(reg, LedgerStates(xs), LedgerEvents(r, xs, vs), i, e, through);
  }
}
