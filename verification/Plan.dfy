/** The recompute plan of one aggregator run (internal/aggregation/plan.go). */
module Plan {
  import opened Calendar
  import opened Registers

  /** How many open net days one run recomputes at most. */
  const MAX_NET_DAYS := 62

  /** The first and last day a run can be captured on: 0001-03-04 and 9998-12-31. */
  const FIRST_DAY := 366 + MAX_NET_DAYS
  const LAST_DAY := 3_652_059

  lemma DayRange()
    ensures FIRST_DAY == YearFirst(1) + MAX_NET_DAYS && LAST_DAY == YearLast(9_998)
  {
    Gregorian(1);
    Gregorian(9_999);
  }

  /** A day near the start of the calendar's range lies in the year 1 or later. */
  lemma AfterYearOne(d: nat)
    requires d + MAX_NET_DAYS >= FIRST_DAY
    ensures 12 <= MonthOf(d) && 1 <= YearOf(d)
  {
    DayRange();
    MonthReached(d, 12);
  }

  /** The keys of one captured instant (period.Of). */
  datatype Period = Period(day: nat, month: nat, year: nat) {
    predicate Valid() {
      month == MonthOf(day) && year == YearOf(day) && FIRST_DAY <= day <= LAST_DAY
    }
  }

  datatype Watermarks = Watermarks(
    frozenMonth: int, frozenYear: int, frozenNetDay: int, closedThrough: int)
  {
    predicate Marks() {
      NONE <= frozenMonth && NONE <= frozenYear && NONE <= frozenNetDay
    }

    predicate Valid() {
      NONE <= frozenMonth < Months.Limit() && NONE <= frozenYear < Years.Limit() && NONE <= frozenNetDay
    }

    predicate Overrun(p: Period) {
      Overruns(Months, frozenMonth, p.month) || Overruns(Years, frozenYear, p.year)
    }
  }

  /** One period to recompute from the daily rows first..last. */
  datatype Job = Job(level: Level, key: int, first: int, last: int, freeze: bool)

  /** skipped is the range of net days that never get a row; NONE, NONE when empty. */
  datatype Plan = Plan(days: seq<Job>, months: seq<Job>, years: seq<Job>, skipped: (int, int))

  function PeriodFirst(l: Level, k: nat): nat {
    if l == Monthly then MonthFirst(k) else if l == Yearly then YearFirst(k) else k
  }

  function PeriodLast(l: Level, k: nat): int {
    if l == Monthly then MonthLast(k) else if l == Yearly then YearLast(k) else k
  }

  function Min(a: int, b: int): int {
    if b < a then b else a
  }

  function JobFor(p: Period, w: Watermarks, l: Level, k: nat): Job {
    Job(l, k, PeriodFirst(l, k), Min(PeriodLast(l, k), p.day),
        w.closedThrough != NONE && PeriodLast(l, k) <= w.closedThrough)
  }

  function JobsFor(p: Period, w: Watermarks, l: Level, ks: seq<int>): (jobs: seq<Job>)
    requires forall i :: 0 <= i < |ks| ==> ks[i] >= 0
    ensures |jobs| == |ks|
    ensures forall i :: 0 <= i < |ks| ==> jobs[i] == JobFor(p, w, l, ks[i])
  {
    seq(|ks|, i requires 0 <= i < |ks| => JobFor(p, w, l, ks[i]))
  }

  /** The net day the plan starts after. */
  function NetFloor(p: Period, w: Watermarks): int {
    if w.frozenNetDay == NONE || w.frozenNetDay < p.day - MAX_NET_DAYS then p.day - MAX_NET_DAYS
    else w.frozenNetDay
  }

  function OpenPeriods(frozen: int, current: int): seq<int> {
    if frozen == NONE then [current] else Range(frozen + 1, current)
  }

  function Skipped(p: Period, w: Watermarks): (int, int) {
    if w.frozenNetDay == NONE || w.frozenNetDay >= p.day - MAX_NET_DAYS then (NONE, NONE)
    else (w.frozenNetDay + 1, p.day - MAX_NET_DAYS)
  }

  /** Every period after its watermark up to the current one. */
  function PlanFor(p: Period, w: Watermarks): Plan
    requires p.day >= MAX_NET_DAYS && w.Marks()
  {
    Plan(
      JobsFor(p, w, Daily, Range(NetFloor(p, w) + 1, p.day)),
      JobsFor(p, w, Monthly, OpenPeriods(w.frozenMonth, p.month)),
      JobsFor(p, w, Yearly, OpenPeriods(w.frozenYear, p.year)),
      Skipped(p, w))
  }

  method DayJobs(p: Period, w: Watermarks) returns (jobs: seq<Job>)
    requires p.day >= MAX_NET_DAYS && NONE <= w.frozenNetDay
    ensures jobs == JobsFor(p, w, Daily, Range(NetFloor(p, w) + 1, p.day))
  {
    var floor := p.day - MAX_NET_DAYS;
    var start := w.frozenNetDay;
    if start == NONE || start < floor {
      start := floor;
    }
    jobs := [];
    var day := start + 1;
    while day <= p.day
      invariant start < day && (day <= p.day + 1 || day == start + 1)
      invariant jobs == JobsFor(p, w, Daily, Range(start + 1, day - 1))
    {
      jobs := jobs + [Job(Daily, day, day, day, w.closedThrough != NONE && day <= w.closedThrough)];
      day := day + 1;
    }
  }

  method BoundedJob(p: Period, w: Watermarks, l: Level, key: nat) returns (j: Job)
    requires l == Monthly || l == Yearly
    ensures j == JobFor(p, w, l, key)
  {
    var first, last;
    if l == Monthly {
      first, last := MonthFirst(key), MonthLast(key);
    } else {
      first, last := YearFirst(key), YearLast(key);
    }
    var until := last;
    if p.day < until {
      until := p.day;
    }
    j := Job(l, key, first, until, w.closedThrough != NONE && last <= w.closedThrough);
  }

  method PeriodJobs(p: Period, w: Watermarks, l: Level, frozen: int)
    returns (r: Calendar.Result<seq<Job>>)
    requires l == Monthly || l == Yearly
    requires NONE <= frozen < (if l == Monthly then Months else Years).Limit()
    requires p.month < Months.Limit() && p.year < Years.Limit()
    ensures var u, cur := if l == Monthly then Months else Years, if l == Monthly then p.month else p.year;
      && (r.KeyError? <==> Overruns(u, frozen, cur))
      && (r.Ok? ==> r.value == JobsFor(p, w, l, OpenPeriods(frozen, cur)))
  {
    var keys;
    if l == Monthly {
      keys := StepBetween(Months, frozen, p.month);
    } else {
      keys := StepBetween(Years, frozen, p.year);
    }
    if keys.KeyError? {
      return KeyError;
    }
    var jobs: seq<Job> := [];
    for i := 0 to |keys.value|
      invariant jobs == JobsFor(p, w, l, keys.value[..i])
    {
      var j := BoundedJob(p, w, l, keys.value[i]);
      jobs := jobs + [j];
    }
    assert keys.value[..|keys.value|] == keys.value;
    r := Ok(jobs);
  }

  lemma PeriodInRange(p: Period)
    requires p.Valid()
    ensures p.year < 9_999 && p.month < 12 * 9_999
  {
    DayRange();
    MonthReached(p.day, 12 * 9_999);
  }

  /** Fails exactly when a watermark drives the key list past the year 9999. */
  method BuildPlan(p: Period, w: Watermarks) returns (r: Calendar.Result<Plan>)
    requires p.Valid() && w.Valid()
    ensures r.KeyError? <==> w.Overrun(p)
    ensures r.Ok? ==> r.value == PlanFor(p, w)
  {
    PeriodInRange(p);
    var days := DayJobs(p, w);
    var months := PeriodJobs(p, w, Monthly, w.frozenMonth);
    if months.KeyError? { return KeyError; }
    var years := PeriodJobs(p, w, Yearly, w.frozenYear);
    if years.KeyError? { return KeyError; }
    r := Ok(Plan(days, months.value, years.value, Skipped(p, w)));
  }

  lemma PeriodLastMonotone(l: Level, a: nat, b: nat)
    requires a <= b
    ensures PeriodLast(l, a) <= PeriodLast(l, b) && PeriodFirst(l, a) <= PeriodFirst(l, b)
    ensures a < b ==> PeriodLast(l, a) < PeriodFirst(l, b)
  {
    if l == Monthly {
      MonthsInOrder(a, b);
    } else if l == Yearly {
      YearsInOrder(a, b);
    }
  }

  lemma MonthsInOrder(a: nat, b: nat)
    requires a <= b
    ensures MonthFirst(a) <= MonthFirst(b) && MonthLast(a) <= MonthLast(b)
    ensures a < b ==> MonthLast(a) < MonthFirst(b)
  {
    MonthFirstMonotone(a, b);
    MonthFirstMonotone(a + 1, b + 1);
    if a < b {
      MonthFirstMonotone(a + 1, b);
    }
  }

  lemma YearsInOrder(a: nat, b: nat)
    requires a <= b
    ensures YearFirst(a) <= YearFirst(b) && YearLast(a) <= YearLast(b)
    ensures a < b ==> YearLast(a) < YearFirst(b)
  {
    YearFirstMonotone(a, b);
    YearFirstMonotone(a + 1, b + 1);
    if a < b {
      YearFirstMonotone(a + 1, b);
    }
  }

  ghost predicate FreezePrefix(jobs: seq<Job>) {
    forall i, j :: 0 <= i < j < |jobs| && jobs[j].freeze ==> jobs[i].freeze
  }

  ghost predicate Contiguous(jobs: seq<Job>, after: int, through: int) {
    && |jobs| == (if after < through then through - after else 0)
    && forall i :: 0 <= i < |jobs| ==> jobs[i].key == after + 1 + i
  }

  /** Months and years of a plan are exactly the open ones, oldest first, and the ones to
      freeze come first and end on or before the last day every key has closed. */
  lemma PlanExact(p: Period, w: Watermarks)
    requires p.day >= MAX_NET_DAYS && w.Marks()
    ensures var plan := PlanFor(p, w);
      && (w.frozenMonth != NONE ==> Contiguous(plan.months, w.frozenMonth, p.month))
      && (w.frozenYear != NONE ==> Contiguous(plan.years, w.frozenYear, p.year))
      && Contiguous(plan.days, NetFloor(p, w), p.day)
      && FreezePrefix(plan.months) && FreezePrefix(plan.years) && FreezePrefix(plan.days)
  {
    RangeExact(p, w, Daily, NetFloor(p, w), p.day);
    OpenExact(p, w, Monthly, w.frozenMonth, p.month);
    OpenExact(p, w, Yearly, w.frozenYear, p.year);
  }

  lemma OpenExact(p: Period, w: Watermarks, l: Level, frozen: int, current: nat)
    requires frozen >= NONE
    ensures var jobs := JobsFor(p, w, l, OpenPeriods(frozen, current));
      FreezePrefix(jobs) && (frozen != NONE ==> Contiguous(jobs, frozen, current))
  {
    if frozen != NONE {
      RangeExact(p, w, l, frozen, current);
    }
  }

  lemma RangeExact(p: Period, w: Watermarks, l: Level, after: int, through: int)
    requires after >= NONE
    ensures var jobs := JobsFor(p, w, l, Range(after + 1, through));
      FreezePrefix(jobs) && Contiguous(jobs, after, through)
  {
    FreezeLeading(p, w, l, after + 1, through);
  }

  lemma FreezeLeading(p: Period, w: Watermarks, l: Level, lo: nat, hi: int)
    ensures FreezePrefix(JobsFor(p, w, l, Range(lo, hi)))
  {
    var jobs := JobsFor(p, w, l, Range(lo, hi));
    forall i, j | 0 <= i < j < |jobs| && jobs[j].freeze
      ensures jobs[i].freeze
    {
      PeriodLastMonotone(l, lo + i, lo + j);
    }
  }

  /** The period of a level a day lies in. */
  function PeriodAt(l: Level, d: nat): nat {
    if l == Monthly then MonthOf(d) else if l == Yearly then YearOf(d) else d
  }

  /** A job counts exactly the days of its period up to the captured one, and freezes exactly
      when every key has closed each of its days. */
  lemma JobCounts(p: Period, w: Watermarks, j: Job, d: nat)
    requires p.Valid() && w.Marks() && w.closedThrough <= p.day
    requires var plan := PlanFor(p, w); j in plan.days || j in plan.months || j in plan.years
    ensures j.first <= d <= j.last <==> PeriodAt(j.level, d) == j.key && d <= p.day
    ensures j.freeze <==> AllClosed(j.level, j.key, w.closedThrough)
  {
    JobIsPlanned(p, w, j);
    PeriodHolds(j.level, j.key, d);
    EndsInside(j.level, j.key);
    forall x: nat | PeriodAt(j.level, x) == j.key
      ensures x <= PeriodLast(j.level, j.key)
    {
      PeriodHolds(j.level, j.key, x);
    }
  }

  /** Every day of the period is closed. */
  ghost predicate AllClosed(l: Level, k: int, closedThrough: int) {
    forall x: nat :: PeriodAt(l, x) == k ==> x <= closedThrough
  }

  lemma JobIsPlanned(p: Period, w: Watermarks, j: Job)
    requires p.Valid() && w.Marks()
    requires var plan := PlanFor(p, w); j in plan.days || j in plan.months || j in plan.years
    ensures j.level != Total && j.key >= 0 && j == JobFor(p, w, j.level, j.key)
  {
  }

  lemma PeriodHolds(l: Level, k: nat, d: nat)
    ensures PeriodAt(l, d) == k <==> PeriodFirst(l, k) <= d <= PeriodLast(l, k)
  {
    MonthOfUnique(d, k);
    YearOfUnique(d, k);
  }

  lemma EndsInside(l: Level, k: nat)
    ensures PeriodLast(l, k) >= 0 && PeriodAt(l, PeriodLast(l, k)) == k
  {
    MonthFirstMonotone(k, k + 1);
    YearFirstMonotone(k, k + 1);
    PeriodHolds(l, k, PeriodLast(l, k));
  }

  /** Net-day jobs number at most 62; with the skipped range they cover every day after the
      watermark up to today, and no day twice. */
  lemma NetDaysPartition(p: Period, w: Watermarks, d: int)
    requires p.day >= MAX_NET_DAYS && w.Marks() && w.frozenNetDay != NONE
    ensures var plan := PlanFor(p, w);
      var job := exists j :: j in plan.days && j.key == d;
      var skip := plan.skipped.0 != NONE && plan.skipped.0 <= d <= plan.skipped.1;
      && |plan.days| <= MAX_NET_DAYS
      && (w.frozenNetDay < d <= p.day <==> job || skip)
      && !(job && skip)
  {
    var plan := PlanFor(p, w);
    var lo := NetFloor(p, w) + 1;
    if lo <= d <= p.day {
      assert plan.days[d - lo].key == d;
      assert plan.days[d - lo] in plan.days;
    }
  }
}
