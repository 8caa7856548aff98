/** Supervision of one restartable component (internal/health/supervisor.go, managed.go):
    sweeps, reports and the restart budget. Times are nanoseconds; what the component
    answers, whether its Stop ends in time and whether its factory succeeds are parameters. */
module Supervisor {
  import opened Registers

  const RESTART_BUDGET := 3
  const HEALTHY_GRACE := 3
  const START_GRACE := 5
  const RECOVERING_GRACE := 10
  const SECOND := 1_000_000_000
  const MIN_SWEEP := 5 * SECOND

  datatype Health = Healthy | Recovering | Failed

  function Max(a: int, b: int): int {
    if a < b then b else a
  }

  function SweepInterval(interval: nat): int {
    Max(interval / 2, MIN_SWEEP)
  }

  function GraceFor(st: Health, interval: nat): int {
    if st == Recovering then RECOVERING_GRACE * interval else HEALTHY_GRACE * interval
  }

  /** A registry entry, and the history of its instances: which were created, which had
      Stop called (in call order), which ended it, and when each was started. */
  datatype Entry = Entry(
    comp: Option<nat>, gen: nat, startedAt: int, failures: nat, latched: bool, failed: bool,
    created: nat, stops: seq<nat>, ended: set<nat>, starts: seq<int>)

  /** What a sweep meets: the instance's own state and last beat, and, should it be
      restarted, whether Stop ends in time, whether the factory succeeds, and when the new
      instance starts. */
  datatype Sight = Sight(now: int, st: Health, beat: int, stopsInTime: bool, builds: bool, at: int)

  function Reported(e: Entry, gen: nat, st: Health): Entry {
    if gen == e.gen && st == Failed then e.(failed := true) else e
  }

  function Effective(e: Entry, st: Health): Health {
    if e.latched || e.comp.None? || e.failed then Failed else st
  }

  /** Silent for longer than its grace. */
  predicate Stale(e: Entry, s: Sight, interval: nat) {
    if s.beat > e.startedAt then s.now - s.beat > GraceFor(s.st, interval)
    else s.now - e.startedAt > START_GRACE * interval
  }

  predicate NeedsRestart(e: Entry, s: Sight, interval: nat) {
    !e.latched && (Effective(e, s.st) == Failed || Stale(e, s, interval))
  }

  function Proven(e: Entry, s: Sight, interval: nat): Entry {
    if s.st == Healthy && e.failures > 0 && s.beat - e.startedAt >= HEALTHY_GRACE * interval
    then e.(failures := 0) else e
  }

  function Stopped(e: Entry, inTime: bool): Entry {
    if e.comp.None? then e
    else if inTime then e.(stops := e.stops + [e.comp.value], ended := e.ended + {e.comp.value})
    else e.(stops := e.stops + [e.comp.value], comp := None)
  }

  function Started(e: Entry, at: int, builds: bool): Entry {
    e.(gen := e.gen + 1, startedAt := at, failed := false, starts := e.starts + [at],
       comp := if builds then Some(e.created) else None,
       created := if builds then e.created + 1 else e.created)
  }

  /** The entry after a restart, and whether it escalated. */
  function Restarted(e: Entry, s: Sight): (Entry, bool) {
    if e.failures >= RESTART_BUDGET then (e.(latched := true), true)
    else
      var stopped := Stopped(e.(failures := e.failures + 1), s.stopsInTime);
      if e.comp.Some? && !s.stopsInTime then (stopped.(latched := true), true)
      else (Started(stopped, s.at, s.builds), false)
  }

  /** One sweep of an entry; cancelled is the root context. */
  function Swept(e: Entry, cancelled: bool, s: Sight, interval: nat): (Entry, bool) {
    if cancelled then (e, cancelled)
    else if NeedsRestart(e, s, interval) then
      if s.now - e.startedAt >= SweepInterval(interval) then Restarted(e, s) else (e, cancelled)
    else if e.latched then (e, cancelled)
    else (Proven(e, s, interval), cancelled)
  }

  /** The entry as the supervisor's methods update it. */
  class Managed {
    var state: Entry

    constructor ()
      ensures state == Entry(None, 0, 0, 0, false, false, 0, [], {}, [])
    {
      state := Entry(None, 0, 0, 0, false, false, 0, [], {}, []);
    }

    /** Reports of an old generation are ignored. */
    method Report(gen: nat, st: Health)
      modifies this
      ensures state == Reported(old(state), gen, st)
    {
      if gen != state.gen {
        return;
      }
      if st == Failed {
        state := state.(failed := true);
      }
    }

    method Evaluate(s: Sight, interval: nat) returns (restart: bool)
      modifies this
      ensures restart == NeedsRestart(old(state), s, interval)
      ensures state == if restart || old(state).latched then old(state) else Proven(old(state), s, interval)
    {
      if state.latched {
        return false;
      }
      var st := if state.comp.None? || state.failed then Failed else s.st;
      if st == Failed {
        return true;
      }
      var ref, grace := s.beat, GraceFor(st, interval);
      if !(s.beat > state.startedAt) {
        ref, grace := state.startedAt, START_GRACE * interval;
      }
      if s.now - ref > grace {
        return true;
      }
      if st == Healthy && state.failures > 0 && s.beat - state.startedAt >= HEALTHY_GRACE * interval {
        state := state.(failures := 0);
      }
      restart := false;
    }

    method Stop(inTime: bool) returns (ok: bool)
      modifies this
      ensures state == Stopped(old(state), inTime) && ok == (old(state).comp.None? || inTime)
    {
      if state.comp.None? {
        return true;
      }
      state := state.(stops := state.stops + [state.comp.value]);
      if inTime {
        state := state.(ended := state.ended + {state.comp.value});
        return true;
      }
      state := state.(comp := None);
      ok := false;
    }

    method Start(at: int, builds: bool)
      modifies this
      ensures state == Started(old(state), at, builds)
    {
      state := state.(gen := state.gen + 1, startedAt := at, failed := false, starts := state.starts + [at]);
      if !builds {
        state := state.(comp := None);
        return;
      }
      state := state.(comp := Some(state.created), created := state.created + 1);
    }

    method Restart(s: Sight) returns (fatal: bool)
      modifies this
      ensures (state, fatal) == Restarted(old(state), s)
    {
      if state.failures >= RESTART_BUDGET {
        state := state.(latched := true);
        return true;
      }
      state := state.(failures := state.failures + 1);
      var ok := Stop(s.stopsInTime);
      if !ok {
        state := state.(latched := true);
        return true;
      }
      Start(s.at, s.builds);
      fatal := false;
    }

    /** One entry of sweepManaged. */
    method Sweep(cancelled: bool, s: Sight, interval: nat) returns (cancelled': bool)
      modifies this
      ensures (state, cancelled') == Swept(old(state), cancelled, s, interval)
    {
      if cancelled {
        return cancelled;
      }
      var restart := Evaluate(s, interval);
      if restart && s.now - state.startedAt >= SweepInterval(interval) {
        var fatal := Restart(s);
        return fatal;
      }
      cancelled' := cancelled;
    }
  }

  // ---- runs ----

  datatype Event =
    | Sweep(s: Sight)
    | Report(gen: nat, st: Health)
    | Cancel
    | StopAll(inTime: bool)

  /** The entry, the root context, the time of the last sweep, and whether Run has ended. */
  datatype State = State(e: Entry, cancelled: bool, last: int, done: bool)

  /** Run ends with one StopAll, once the root context is cancelled. */
  predicate Enabled(x: State, v: Event) {
    && (v.Sweep? ==> !x.done && x.last <= v.s.now <= v.s.at)
    && (v.StopAll? ==> !x.done && x.cancelled)
  }

  function Step(x: State, v: Event, interval: nat): State {
    match v
    case Sweep(s) =>
      var (e, cancelled) := Swept(x.e, x.cancelled, s, interval);
      State(e, cancelled, s.now, x.done)
    case Report(gen, st) => x.(e := Reported(x.e, gen, st))
    case Cancel => x.(cancelled := true)
    case StopAll(inTime) => x.(e := Stopped(x.e, inTime), done := true)
  }

  /** Run starts the entry once, at t0. */
  function First(t0: int, builds: bool): State {
    State(Started(Entry(None, 0, 0, 0, false, false, 0, [], {}, []), t0, builds), false, t0, false)
  }

  ghost predicate Run(xs: seq<State>, vs: seq<Event>, t0: int, interval: nat) {
    && |xs| == |vs| + 1 && (xs[0] == First(t0, true) || xs[0] == First(t0, false))
    && forall i {:trigger vs[i]} :: 0 <= i < |vs| ==> Enabled(xs[i], vs[i]) && xs[i + 1] == Step(xs[i], vs[i], interval)
  }

  function Ids(n: nat): (ids: set<nat>)
    ensures forall i :: i in ids <==> 0 <= i < n
  {
    if n == 0 then {} else Ids(n - 1) + {n - 1}
  }

  /** The instances created and not yet ended. */
  function Live(e: Entry): set<nat> {
    Ids(e.created) - e.ended
  }

  ghost predicate Spaced(starts: seq<int>, interval: nat) {
    forall i {:trigger starts[i]} :: 0 <= i < |starts| - 1 ==> starts[i + 1] - starts[i] >= SweepInterval(interval)
  }

  ghost predicate NoRepeats(stops: seq<nat>) {
    forall i, j :: 0 <= i < j < |stops| ==> stops[i] != stops[j]
  }

  /** Only instances that were created have been stopped or have ended. */
  ghost predicate Known(e: Entry) {
    forall i :: i in e.stops || i in e.ended ==> i < e.created
  }

  /** At most one instance has not ended; Stop is called at most once per instance; the
      budget and the spacing hold; a latch always escalates. */
  ghost predicate Safe(x: State, interval: nat) {
    var e := x.e;
    && (e.comp.Some? && !x.done ==>
          e.comp.value < e.created && Live(e) == {e.comp.value} && e.comp.value !in e.stops)
    && (e.comp.None? && Live(e) != {} && !x.done ==> e.latched)
    && |Live(e)| <= 1
    && NoRepeats(e.stops) && Known(e)
    && e.failures <= RESTART_BUDGET && Spaced(e.starts, interval)
    && |e.starts| == e.gen >= 1 && e.starts[|e.starts| - 1] == e.startedAt
    && (e.latched ==> x.cancelled)
  }

  lemma FirstSafe(t0: int, builds: bool, interval: nat)
    ensures Safe(First(t0, builds), interval)
  {
    var e := First(t0, builds).e;
    assert Live(e) == if builds then {0} else {};
  }

  lemma RestartSafe(x: State, s: Sight, interval: nat)
    requires Safe(x, interval) && !x.done && !x.e.latched && s.at - x.e.startedAt >= SweepInterval(interval)
    ensures Safe(State(Restarted(x.e, s).0, Restarted(x.e, s).1, s.now, false), interval)
  {
    if x.e.failures < RESTART_BUDGET && (x.e.comp.None? || s.stopsInTime) {
      ReplacementSafe(x, s, interval, Restarted(x.e, s).0);
    } else {
      GivenUpSafe(x, s, interval, Restarted(x.e, s).0);
    }
  }

  lemma ReplacementSafe(x: State, s: Sight, interval: nat, e': Entry)
    requires Safe(x, interval) && !x.done && !x.e.latched && s.at - x.e.startedAt >= SweepInterval(interval)
    requires x.e.failures < RESTART_BUDGET && (x.e.comp.None? || s.stopsInTime) && e' == Restarted(x.e, s).0
    ensures Safe(State(e', Restarted(x.e, s).1, s.now, false), interval)
  {
    NewInstance(x.e, e', s);
    HistoryGrows(x.e, e', s, interval);
  }

  lemma HistoryGrows(e: Entry, e': Entry, s: Sight, interval: nat)
    requires e' == Started(Stopped(e.(failures := e.failures + 1), s.stopsInTime), s.at, s.builds)
    requires Spaced(e.starts, interval) && NoRepeats(e.stops) && Known(e)
    requires e.starts != [] && s.at - e.starts[|e.starts| - 1] >= SweepInterval(interval)
    requires e.comp.Some? ==> e.comp.value !in e.stops && e.comp.value < e.created
    ensures Spaced(e'.starts, interval) && NoRepeats(e'.stops) && Known(e')
  {
    OneMoreStart(e.starts, s.at, interval);
    if e.comp.Some? {
      OneMoreStop(e.stops, e.comp.value);
    }
  }

  lemma OneMoreStart(starts: seq<int>, at: int, interval: nat)
    requires starts != [] && Spaced(starts, interval) && at - starts[|starts| - 1] >= SweepInterval(interval)
    ensures Spaced(starts + [at], interval)
  {
  }

  lemma OneMoreStop(stops: seq<nat>, i: nat)
    requires NoRepeats(stops) && i !in stops
    ensures NoRepeats(stops + [i])
  {
  }

  lemma GivenUpSafe(x: State, s: Sight, interval: nat, e': Entry)
    requires Safe(x, interval) && !x.done && !x.e.latched
    requires (x.e.failures >= RESTART_BUDGET || (x.e.comp.Some? && !s.stopsInTime)) && e' == Restarted(x.e, s).0
    ensures Safe(State(e', Restarted(x.e, s).1, s.now, false), interval)
  {
    assert Live(e') == Live(x.e);
  }

  /** After a stop in time, or with nothing to stop, the new instance is the only one. */
  lemma NewInstance(e: Entry, e': Entry, s: Sight)
    requires e.comp.Some? ==> Live(e) == {e.comp.value} && s.stopsInTime
    requires e.comp.None? ==> Live(e) == {}
    requires forall i :: i in e.ended ==> i < e.created
    requires e' == Started(Stopped(e.(failures := e.failures + 1), s.stopsInTime), s.at, s.builds)
    ensures Live(e') == if s.builds then {e.created} else {}
  {
    forall i | 0 <= i < e.created
      ensures i in e'.ended
    {
      if i !in e.ended {
        assert i in Live(e);
      }
    }
    assert e.comp.Some? ==> e.comp.value in Live(e);
  }

  lemma StepSafe(x: State, v: Event, interval: nat)
    requires Safe(x, interval) && Enabled(x, v)
    ensures Safe(Step(x, v, interval), interval)
  {
    match v
    case Sweep(s) =>
      if !x.cancelled && NeedsRestart(x.e, s, interval) && s.now - x.e.startedAt >= SweepInterval(interval) {
        RestartSafe(x, s, interval);
      } else {
        SmallChange(x, Step(x, v, interval), interval);
      }
    case StopAll(inTime) => LastStop(x, inTime, interval);
    case _ => SmallChange(x, Step(x, v, interval), interval);
  }

  /** The stop at the end finds at most one instance, never stopped before. */
  lemma LastStop(x: State, inTime: bool, interval: nat)
    requires Safe(x, interval) && !x.done && x.cancelled
    ensures Safe(x.(e := Stopped(x.e, inTime), done := true), interval)
  {
    var e' := Stopped(x.e, inTime);
    if x.e.comp.Some? && inTime {
      assert Live(e') == {};
    } else {
      assert Live(e') == Live(x.e);
    }
  }

  /** Clearing the failure count, recording a failure and cancelling touch no instance. */
  lemma SmallChange(x: State, y: State, interval: nat)
    requires Safe(x, interval) && y.e == x.e.(failures := y.e.failures, failed := y.e.failed) && y.done == x.done
    requires y.e.failures <= x.e.failures && (x.cancelled ==> y.cancelled)
    ensures Safe(y, interval)
  {
    assert Live(y.e) == Live(x.e);
  }

  /** In every run: at most one instance that has not ended, Stop at most once per instance,
      at most three restarts in a row, starts at least a sweep apart, and a latched
      component has cancelled the application. */
  lemma {:induction false} RunSafe(xs: seq<State>, vs: seq<Event>, t0: int, interval: nat, i: nat)
    requires Run(xs, vs, t0, interval) && i < |xs|
    ensures Safe(xs[i], interval)
  {
    if i == 0 {
      FirstSafe(t0, true, interval);
      FirstSafe(t0, false, interval);
    } else {
      RunSafe(xs, vs, t0, interval, i - 1);
      StepSafe(xs[i - 1], vs[i - 1], interval);
    }
  }

  /** Generations only advance: a replaced instance's never becomes current again. */
  lemma {:induction false} GenerationsAdvance(
    xs: seq<State>, vs: seq<Event>, t0: int, interval: nat, i: nat, j: nat)
    requires Run(xs, vs, t0, interval) && i <= j < |xs|
    ensures xs[i].e.gen <= xs[j].e.gen
    decreases j
  {
    if i < j {
      GenerationsAdvance(xs, vs, t0, interval, i, j - 1);
      assert xs[j] == Step(xs[j - 1], vs[j - 1], interval);
    }
  }

  /** Once an instance has been replaced, none of its reports changes anything in the rest of
      the run, whatever happens in between. */
  lemma StaleReportIgnored(
    xs: seq<State>, vs: seq<Event>, t0: int, interval: nat, i: nat, j: nat, gen: nat, st: Health)
    requires Run(xs, vs, t0, interval) && i <= j < |xs| && gen < xs[i].e.gen
    ensures Step(xs[j], Report(gen, st), interval) == xs[j]
  {
    GenerationsAdvance(xs, vs, t0, interval, i, j);
  }

  // ---- a component that falls silent ----

  /** What counts as down: no instance, a reported or claimed failure, or silence: 3 intervals
      since a healthy instance's last beat, 10 since a recovering one's, 5 since the start of
      one that has not beaten yet. */
  predicate Down(e: Entry, s: Sight, interval: nat) {
    || e.comp.None? || e.failed || s.st == Failed
    || (s.beat <= e.startedAt && s.now > e.startedAt + 5 * interval)
    || (s.beat > e.startedAt && s.st == Healthy && s.now > s.beat + 3 * interval)
    || (s.beat > e.startedAt && s.st == Recovering && s.now > s.beat + 10 * interval)
  }

  /** In every run, a sweep replaces the instance or cancels the application exactly when the
      component is down and a sweep interval has passed since its last start. */
  lemma SweepActsExactly(xs: seq<State>, vs: seq<Event>, t0: int, interval: nat, i: nat)
    requires Run(xs, vs, t0, interval) && i < |vs| && vs[i].Sweep? && !xs[i].cancelled
    ensures xs[i + 1].e.gen > xs[i].e.gen || xs[i + 1].cancelled
      <==> Down(xs[i].e, vs[i].s, interval) && vs[i].s.now - xs[i].e.startedAt >= SweepInterval(interval)
  {
    RunSafe(xs, vs, t0, interval, i);
    assert xs[i + 1] == Step(xs[i], vs[i], interval);
  }

  // ---- a component that recovered ----

  /** What a sweep sees of a component that is up, beats within its grace, and whose last beat
      lies a full grace after its start. */
  predicate Recovered(e: Entry, s: Sight, interval: nat) {
    && e.comp.Some? && !e.latched && !e.failed && s.st == Healthy
    && s.beat > e.startedAt && s.now - s.beat <= HEALTHY_GRACE * interval
    && s.beat - e.startedAt >= HEALTHY_GRACE * interval
  }

  /** No restart between two states had to give up on a Stop. */
  ghost predicate StopsInTime(vs: seq<Event>, i: nat, j: nat) {
    forall x :: i <= x < j && x < |vs| && vs[x].Sweep? ==> vs[x].s.stopsInTime
  }

  lemma {:induction false} FailuresAreRestarts(
    xs: seq<State>, vs: seq<Event>, t0: int, interval: nat, i: nat, j: nat)
    requires Run(xs, vs, t0, interval) && i <= j < |xs| && StopsInTime(vs, i, j)
    requires xs[i].e.failures == 0 && !xs[i].e.latched
    ensures xs[j].e.failures <= |xs[j].e.starts| - |xs[i].e.starts|
    ensures xs[j].e.latched ==> |xs[j].e.starts| - |xs[i].e.starts| >= RESTART_BUDGET
    decreases j
  {
    if i < j {
      FailuresAreRestarts(xs, vs, t0, interval, i, j - 1);
      assert xs[j] == Step(xs[j - 1], vs[j - 1], interval);
    }
  }

  /** A component that has recovered has its full budget again: from then on it is given up
      only after three more restarts, or when a Stop does not end in time. */
  lemma RecoveryRestoresBudget(
    xs: seq<State>, vs: seq<Event>, t0: int, interval: nat, i: nat, j: nat)
    requires Run(xs, vs, t0, interval) && i < j < |xs| && StopsInTime(vs, i + 1, j)
    requires vs[i].Sweep? && !xs[i].cancelled && Recovered(xs[i].e, vs[i].s, interval)
    ensures xs[i + 1].e.failures == 0
    ensures xs[j].e.latched ==> |xs[j].e.starts| - |xs[i].e.starts| >= RESTART_BUDGET
  {
    RunSafe(xs, vs, t0, interval, i);
    assert xs[i + 1] == Step(xs[i], vs[i], interval);
    FailuresAreRestarts(xs, vs, t0, interval, i + 1, j);
  }

  // ---- a failure that is reported ----

  /** The current instance has reported that it failed, and still is the current one. */
  predicate Pending(x: State, gen: nat) {
    x.e.gen == gen ==> x.e.failed
  }

  lemma {:induction false} FailureStays(
    xs: seq<State>, vs: seq<Event>, t0: int, interval: nat, i: nat, j: nat, gen: nat)
    requires Run(xs, vs, t0, interval) && i < j < |xs| && vs[i] == Report(gen, Failed)
    requires xs[i].e.gen == gen
    ensures Pending(xs[j], gen) && xs[j].e.gen >= gen
    decreases j
  {
    assert xs[j] == Step(xs[j - 1], vs[j - 1], interval);
    if i < j - 1 {
      FailureStays(xs, vs, t0, interval, i, j - 1, gen);
    }
  }

  /** A failure the current instance reports is acted on: unless the instance has been
      replaced or the application cancelled before, the first sweep that is due replaces it or
      cancels the application, whatever state it claims and however freshly it beat. */
  lemma FailureIsActedOn(
    xs: seq<State>, vs: seq<Event>, t0: int, interval: nat, i: nat, j: nat, gen: nat)
    requires Run(xs, vs, t0, interval) && i < j < |vs|
    requires vs[i] == Report(gen, Failed) && xs[i].e.gen == gen
    requires vs[j].Sweep? && vs[j].s.now - xs[j].e.startedAt >= SweepInterval(interval)
    ensures xs[j + 1].e.gen > gen || xs[j + 1].cancelled
  {
    FailureStays(xs, vs, t0, interval, i, j, gen);
    RunSafe(xs, vs, t0, interval, j);
    assert xs[j + 1] == Step(xs[j], vs[j], interval);
  }

  /** After a latch or a cancel no sweep starts, stops or latches anything again. */
  lemma {:induction false} NothingAfterCancel(
    xs: seq<State>, vs: seq<Event>, t0: int, interval: nat, i: nat, j: nat)
    requires Run(xs, vs, t0, interval) && i <= j < |xs| && xs[i].cancelled
    requires forall k :: i <= k < j ==> !vs[k].StopAll?
    ensures xs[j].cancelled && xs[j].e == xs[i].e.(failed := xs[j].e.failed)
    decreases j
  {
    if i < j {
      NothingAfterCancel(xs, vs, t0, interval, i, j - 1);
      assert xs[j] == Step(xs[j - 1], vs[j - 1], interval);
    }
  }

  // ---- a component that never beats ----

  /** How long a sweep may leave a silent instance alone. */
  function Patience(interval: nat): int {
    Max(START_GRACE * interval, SweepInterval(interval))
  }

  /** No instance ever beats after it was started. */
  ghost predicate NeverBeats(xs: seq<State>, vs: seq<Event>) {
    |xs| == |vs| + 1 && forall i {:trigger vs[i]} :: 0 <= i < |vs| && vs[i].Sweep? ==> vs[i].s.beat <= xs[i].e.startedAt
  }

  /** Sweeps come at most `gap` apart, and a restart takes at most `work`. */
  ghost predicate Punctual(xs: seq<State>, vs: seq<Event>, gap: nat, work: nat) {
    |xs| == |vs| + 1 && forall i {:trigger vs[i]} :: 0 <= i < |vs| && vs[i].Sweep? ==>
      vs[i].s.now - xs[i].last <= gap && vs[i].s.at - vs[i].s.now <= work
  }

  /** One start, one silence, one late sweep and one restart. */
  function Round(interval: nat, gap: nat, work: nat): int {
    Patience(interval) + gap + work
  }

  /** Every restart so far failed within its round, and the last sweep was patient at most
      once more. */
  ghost predicate OnTime(x: State, t0: int, interval: nat, gap: nat, work: nat) {
    && x.e.startedAt <= t0 + x.e.failures * Round(interval, gap, work)
    && (|x.e.starts| == x.e.failures + 1 || (x.e.latched && |x.e.starts| == x.e.failures))
    && (!x.cancelled ==> x.last <= x.e.startedAt + Patience(interval))
  }

  lemma SweepOnTime(x: State, s: Sight, t0: int, interval: nat, gap: nat, work: nat)
    requires Safe(x, interval) && OnTime(x, t0, interval, gap, work) && Enabled(x, Sweep(s)) && interval > 0
    requires s.beat <= x.e.startedAt && s.now - x.last <= gap && s.at - s.now <= work
    ensures OnTime(Step(x, Sweep(s), interval), t0, interval, gap, work)
  {
    var e' := Swept(x.e, x.cancelled, s, interval).0;
    if e'.startedAt != x.e.startedAt || e'.failures != x.e.failures {
      assert (x.e.failures + 1) * Round(interval, gap, work)
          == x.e.failures * Round(interval, gap, work) + Round(interval, gap, work);
    }
  }

  lemma {:induction false} SilenceRuns(
    xs: seq<State>, vs: seq<Event>, t0: int, interval: nat, gap: nat, work: nat, i: nat)
    requires Run(xs, vs, t0, interval) && NeverBeats(xs, vs) && Punctual(xs, vs, gap, work)
    requires interval > 0 && i < |xs|
    ensures OnTime(xs[i], t0, interval, gap, work)
  {
    if i > 0 {
      SilenceRuns(xs, vs, t0, interval, gap, work, i - 1);
      RunSafe(xs, vs, t0, interval, i - 1);
      match vs[i - 1]
      case Sweep(s) => SweepOnTime(xs[i - 1], s, t0, interval, gap, work);
      case _ =>
    }
  }

  /** A component that never beats has brought the application down by a fixed time, unless
      something else cancelled it before. */
  lemma SilenceIsFatal(xs: seq<State>, vs: seq<Event>, t0: int, interval: nat, gap: nat, work: nat, i: nat)
    requires Run(xs, vs, t0, interval) && NeverBeats(xs, vs) && Punctual(xs, vs, gap, work)
    requires interval > 0 && i < |xs|
    requires xs[i].last > t0 + RESTART_BUDGET * Round(interval, gap, work) + Patience(interval)
    ensures xs[i].cancelled
  {
    SilenceRuns(xs, vs, t0, interval, gap, work, i);
    RunSafe(xs, vs, t0, interval, i);
    var f := xs[i].e.failures;
    assert f * Round(interval, gap, work) <= RESTART_BUDGET * Round(interval, gap, work);
  }

  /** It is the fourth instance whose silence escalates, unless a Stop timed out before. */
  lemma ExactlyThreeRestarts(
    xs: seq<State>, vs: seq<Event>, t0: int, interval: nat, gap: nat, work: nat, i: nat)
    requires Run(xs, vs, t0, interval) && NeverBeats(xs, vs) && Punctual(xs, vs, gap, work)
    requires interval > 0 && i < |vs| && vs[i].Sweep? && !xs[i].cancelled && xs[i + 1].cancelled
    ensures |xs[i + 1].e.starts| == RESTART_BUDGET + 1 || !vs[i].s.stopsInTime
    ensures |xs[i + 1].e.starts| <= RESTART_BUDGET + 1
  {
    SilenceRuns(xs, vs, t0, interval, gap, work, i);
    RunSafe(xs, vs, t0, interval, i);
    assert xs[i + 1] == Step(xs[i], vs[i], interval);
  }

  // ---- a component that keeps beating ----

  /** Until Run ends: at every sweep the instance is healthy and has beaten within its grace. */
  ghost predicate KeepsBeating(xs: seq<State>, vs: seq<Event>, interval: nat) {
    |xs| == |vs| + 1 && forall i {:trigger vs[i]} :: 0 <= i < |vs| ==>
      match vs[i]
      case Sweep(s) =>
        && s.st == Healthy
        && (s.beat <= xs[i].e.startedAt ==> s.now - xs[i].e.startedAt <= START_GRACE * interval)
        && (s.beat > xs[i].e.startedAt ==> s.now - s.beat <= HEALTHY_GRACE * interval)
      case Report(gen, st) => st != Failed || gen != xs[i].e.gen
      case Cancel => true
      case StopAll(_) => false
  }

  /** It is never restarted or stopped. */
  lemma {:induction false} BeatingIsLeftAlone(xs: seq<State>, vs: seq<Event>, t0: int, interval: nat, i: nat)
    requires Run(xs, vs, t0, interval) && xs[0] == First(t0, true) && KeepsBeating(xs, vs, interval) && i < |xs|
    ensures xs[i].e == xs[0].e
  {
    if i > 0 {
      BeatingIsLeftAlone(xs, vs, t0, interval, i - 1);
      assert xs[i] == Step(xs[i - 1], vs[i - 1], interval);
    }
  }
}
