/** Rollover windows (internal/period/rollover.go) at a fixed offset from UTC. An instant is
    a number of nanoseconds of local time since the start of day 0; day d starts at d * DAY. */
module Rollover {
  import opened Registers

  const MINUTE := 60_000_000_000
  const HOUR := 60 * MINUTE
  const DAY := 24 * HOUR

  /** The calendar day of an instant. */
  function Today(now: int): int {
    now / DAY
  }

  /** opening - 1 is the closing day, and midnight the start of the opening day. */
  datatype Window = Window(anchor: int, start: int, end: int, closing: int, opening: int, midnight: int) {
    predicate Contains(t: int) {
      start <= t < end
    }
  }

  datatype Time = Time(hour: nat, minute: nat) {
    predicate Valid() {
      hour <= 23 && minute <= 59
    }

    /** The rollover time of day. */
    function Offset(): int {
      hour * HOUR + minute * MINUTE
    }

    /** The window whose anchor falls on a day. */
    function WindowOn(day: int): Window {
      var anchor := day * DAY + Offset();
      var opening := if hour >= 12 then day + 1 else day;
      Window(anchor, anchor - HOUR, anchor + HOUR, opening - 1, opening, opening * DAY)
    }

    /** The day whose window starts last at or before now. */
    function Started(now: int): int {
      (now - Offset() + HOUR) / DAY
    }

    /** The day whose window ends last at or before now. */
    function Ended(now: int): int {
      (now - Offset() - HOUR) / DAY
    }

    /** The window containing now, if any. */
    function Current(now: int): Option<Window> {
      if WindowOn(Started(now)).Contains(now) then Some(WindowOn(Started(now))) else None
    }

    /** The window that ended last. */
    function Last(now: int): Window {
      WindowOn(Ended(now))
    }

    /** The day every key must have reached by now. */
    function Expected(now: int): int {
      Last(now).opening
    }

    /** The latest day a key can have reached by now. */
    function Reachable(now: int): int {
      if Current(now).Some? then Current(now).value.opening else Expected(now)
    }
  }

  lemma FloorBetween(x: int, d: int)
    ensures d * DAY <= x < (d + 1) * DAY <==> x / DAY == d
  {
  }

  lemma OffsetRange(r: Time)
    requires r.Valid()
    ensures 0 <= r.Offset() < DAY
    ensures r.hour >= 12 <==> r.Offset() >= 12 * HOUR
  {
  }

  /** Started and Ended are the latest days with their property. */
  lemma LatestDays(r: Time, now: int, d: int)
    ensures r.WindowOn(d).start <= now <==> d <= r.Started(now)
    ensures r.WindowOn(d).end <= now <==> d <= r.Ended(now)
  {
    FloorBetween(now - r.Offset() + HOUR, r.Started(now));
    FloorBetween(now - r.Offset() - HOUR, r.Ended(now));
  }

  /** At most one window contains an instant, and Current finds it exactly when it exists. */
  lemma WindowUnique(r: Time, now: int, d: int)
    ensures r.WindowOn(d).Contains(now) <==> r.Current(now) == Some(r.WindowOn(d))
  {
    LatestDays(r, now, d);
    LatestDays(r, now, d + 1);
  }

  /** The window that contains now starts on yesterday's, today's or tomorrow's date, and
      the one that ended last within the two days before today's. */
  lemma SearchRange(r: Time, now: int)
    requires r.Valid()
    ensures Today(now) - 1 <= r.Started(now) <= Today(now) + 1
    ensures Today(now) - 2 <= r.Ended(now) <= Today(now)
  {
    OffsetRange(r);
    FloorBetween(now, Today(now));
    StartRange(r, now, Today(now));
    EndRange(r, now, Today(now));
  }

  lemma StartRange(r: Time, now: int, t: int)
    requires 0 <= r.Offset() < DAY && t * DAY <= now < (t + 1) * DAY
    ensures t - 1 <= r.Started(now) <= t + 1
  {
    LatestDays(r, now, t - 1);
    LatestDays(r, now, t + 2);
  }

  lemma EndRange(r: Time, now: int, t: int)
    requires 0 <= r.Offset() < DAY && t * DAY <= now < (t + 1) * DAY
    ensures t - 2 <= r.Ended(now) <= t
  {
    LatestDays(r, now, t - 2);
    LatestDays(r, now, t + 1);
  }

  /** The search over yesterday's, today's and tomorrow's anchors finds the window exactly
      when there is one. */
  method WindowAt(r: Time, now: int) returns (w: Option<Window>)
    requires r.Valid()
    ensures w == r.Current(now)
    ensures w.None? ==> forall d :: !r.WindowOn(d).Contains(now)
  {
    SearchRange(r, now);
    forall d
      ensures r.WindowOn(d).Contains(now) <==> r.Current(now) == Some(r.WindowOn(d))
    {
      WindowUnique(r, now, d);
    }
    var off := -1;
    while off <= 1
      invariant -1 <= off <= 2
      invariant forall d :: Today(now) - 1 <= d < Today(now) + off ==> !r.WindowOn(d).Contains(now)
    {
      var c := r.WindowOn(Today(now) + off);
      if c.Contains(now) {
        return Some(c);
      }
      off := off + 1;
    }
    assert !r.WindowOn(r.Started(now)).Contains(now);
    w := None;
  }

  /** The search backwards from tomorrow's anchor always returns inside its loop. */
  method LastEnded(r: Time, now: int) returns (w: Window)
    requires r.Valid()
    ensures w == r.Last(now) && w.end <= now
    ensures forall d :: r.WindowOn(d).end <= now ==> r.WindowOn(d).end <= w.end
  {
    SearchRange(r, now);
    forall d
      ensures r.WindowOn(d).end <= now <==> d <= r.Ended(now)
    {
      LatestDays(r, now, d);
    }
    assert r.WindowOn(r.Ended(now)).end <= now;
    var off := 1;
    while off >= -2
      invariant -3 <= off <= 1
      invariant forall d :: Today(now) + off < d <= Today(now) + 1 ==> r.WindowOn(d).end > now
      decreases off + 2
    {
      var c := r.WindowOn(Today(now) + off);
      if c.end <= now {
        assert r.WindowOn(r.Ended(now)).end <= now;
        return c;
      }
      off := off - 1;
    }
    assert false;
  }

  /** Inside a window the day that must be reached is the closing one; the window closes a
      day no later than today, and today is its closing or its opening day. */
  lemma InsideWindow(r: Time, now: int)
    requires r.Valid() && r.Current(now).Some?
    ensures var w := r.Current(now).value;
      && r.Expected(now) == w.closing && w.closing <= Today(now)
      && (Today(now) == w.closing || Today(now) == w.opening)
      && (Today(now) == w.opening <==> now >= w.midnight)
  {
    OffsetRange(r);
    EndedBefore(r, now, r.Started(now));
    TodayInside(r, now, r.Started(now));
  }

  lemma EndedBefore(r: Time, now: int, d: int)
    requires r.WindowOn(d).Contains(now)
    ensures r.Ended(now) == d - 1
  {
    LatestDays(r, now, d);
    LatestDays(r, now, d - 1);
  }

  lemma TodayInside(r: Time, now: int, d: int)
    requires 0 <= r.Offset() < DAY && (r.hour >= 12 <==> r.Offset() >= 12 * HOUR)
    requires r.WindowOn(d).Contains(now)
    ensures var w := r.WindowOn(d);
      && (Today(now) == w.closing || Today(now) == w.opening)
      && (Today(now) == w.opening <==> now >= w.midnight)
  {
    FloorBetween(now, d - 1);
    FloorBetween(now, d);
    FloorBetween(now, d + 1);
  }

  /** Outside every window the last one to start is the last one to end. */
  lemma OutsideWindow(r: Time, now: int)
    requires r.Current(now).None?
    ensures r.Started(now) == r.Ended(now)
  {
    var d := r.Started(now);
    LatestDays(r, now, d);
    LatestDays(r, now, d + 1);
  }

  /** The day reachable is the opening day of the last window to start. */
  lemma ReachableIs(r: Time, now: int)
    requires r.Valid()
    ensures r.Reachable(now) == r.WindowOn(r.Started(now)).opening
    ensures r.Expected(now) <= r.Reachable(now) <= r.Expected(now) + 1
    ensures r.Reachable(now) == r.Expected(now) <==> r.Current(now).None?
  {
    if r.Current(now).None? {
      OutsideWindow(r, now);
    } else {
      InsideWindow(r, now);
    }
  }

  /** No day reachable by now lies beyond tomorrow, so no day closed lies beyond today. */
  lemma ReachableByTomorrow(r: Time, now: int)
    requires r.Valid()
    ensures r.Reachable(now) <= Today(now) + 1
  {
    ReachableIs(r, now);
    OffsetRange(r);
    LatestDays(r, now, r.Started(now));
    FloorBetween(now, Today(now));
  }

  /** Under a clock that does not go back, the expected and reachable days never go back,
      and a day once reachable is expected as soon as another window is current. */
  lemma DaysAdvance(r: Time, a: int, b: int)
    requires r.Valid() && a <= b
    ensures r.Expected(a) <= r.Expected(b) && r.Reachable(a) <= r.Reachable(b)
    ensures r.Reachable(a) <= r.Expected(b) || (r.Current(a) == r.Current(b) && r.Current(a).Some?)
  {
    ReachableIs(r, a);
    ReachableIs(r, b);
    LatestDays(r, a, r.Ended(a));
    LatestDays(r, b, r.Ended(a));
    LatestDays(r, a, r.Started(a));
    LatestDays(r, b, r.Started(a));
    LatestDays(r, b, r.Started(b));
    if r.Reachable(a) > r.Expected(b) {
      assert r.Started(a) == r.Started(b) by {
        assert r.Started(a) > r.Ended(b);
        LatestDays(r, b, r.Started(b) - 1);
        LatestDays(r, b, r.Started(a));
        LatestDays(r, b, r.Started(b));
      }
    }
  }

  // ---- parsing ----

  predicate Digit(c: char) {
    '0' <= c <= '9'
  }

  /** The strict form HH:MM. */
  predicate WellFormed(s: string) {
    && |s| == 5 && s[2] == ':' && Digit(s[0]) && Digit(s[1]) && Digit(s[3]) && Digit(s[4])
    && TwoDigits(s[0], s[1]) <= 23 && TwoDigits(s[3], s[4]) <= 59
  }

  function TwoDigits(a: char, b: char): nat
    requires Digit(a) && Digit(b)
  {
    (a - '0') as int * 10 + (b - '0') as int
  }

  method ParseRollover(s: string) returns (r: Option<Time>)
    ensures r.Some? <==> WellFormed(s)
    ensures r.Some? ==> r.value.Valid() && Text(r.value) == s
  {
    if |s| != 5 || s[2] != ':' {
      return None;
    }
    if !Digit(s[0]) || !Digit(s[1]) || !Digit(s[3]) || !Digit(s[4]) {
      return None;
    }
    var h, m := TwoDigits(s[0], s[1]), TwoDigits(s[3], s[4]);
    if h > 23 || m > 59 {
      return None;
    }
    r := Some(Time(h, m));
    TextParts(s[0], s[1]);
    TextParts(s[3], s[4]);
    assert s == [s[0], s[1], ':', s[3], s[4]];
  }

  function Padded(n: nat): string
    requires n < 100
  {
    ['0' + (n / 10) as char, '0' + (n % 10) as char]
  }

  /** The time as "hh:mm". */
  function Text(r: Time): string
    requires r.Valid()
  {
    Padded(r.hour) + ":" + Padded(r.minute)
  }

  lemma TextParts(a: char, b: char)
    requires Digit(a) && Digit(b)
    ensures TwoDigits(a, b) < 100 && Padded(TwoDigits(a, b)) == [a, b]
  {
    var n := TwoDigits(a, b);
    assert n / 10 == (a - '0') as int && n % 10 == (b - '0') as int;
  }

  /** Every rollover time has a form that parses, and parses back to it. */
  lemma TextParses(r: Time)
    requires r.Valid()
    ensures WellFormed(Text(r))
    ensures TwoDigits(Text(r)[0], Text(r)[1]) == r.hour && TwoDigits(Text(r)[3], Text(r)[4]) == r.minute
  {
    PaddedDigits(r.hour);
    PaddedDigits(r.minute);
  }

  lemma PaddedDigits(n: nat)
    requires n < 100
    ensures |Padded(n)| == 2 && Digit(Padded(n)[0]) && Digit(Padded(n)[1])
    ensures TwoDigits(Padded(n)[0], Padded(n)[1]) == n
  {
  }
}
