/** Day, month and year keys (internal/period/period.go).

    A day is the number of days since 0000-01-01, a month the number of months since
    0000-01, a year its number; the empty key "" is NONE, below every other key. The
    lemmas below justify the reading: days are in bijection with civil dates, and the
    text keys order exactly like the numbers. */
module Calendar {

  /** The empty key. */
  const NONE := -1

  predicate Leap(y: nat) {
    y % 4 == 0 && (y % 100 != 0 || y % 400 == 0)
  }

  /** Days in month m (numbered from 0000-01). */
  function DaysIn(m: nat): (n: nat)
    ensures 28 <= n <= 31
  {
    var i := m % 12;
    if i == 1 then (if Leap(m / 12) then 29 else 28)
    else if i == 3 || i == 5 || i == 8 || i == 10 then 30
    else 31
  }

  /** First day of month m. */
  function MonthFirst(m: nat): (d: nat)
  {
    if m == 0 then 0 else MonthFirst(m - 1) + DaysIn(m - 1)
  }

  function MonthLast(m: nat): int {
    MonthFirst(m + 1) - 1
  }

  function YearFirst(y: nat): nat {
    MonthFirst(12 * y)
  }

  function YearLast(y: nat): int {
    YearFirst(y + 1) - 1
  }

  function MonthFrom(d: nat, m: nat): (r: nat)
    requires MonthFirst(m) <= d
    ensures MonthFirst(r) <= d <= MonthLast(r)
    decreases d - MonthFirst(m)
  {
    if d < MonthFirst(m + 1) then m else MonthFrom(d, m + 1)
  }

  /** The month a day lies in. */
  function MonthOf(d: nat): (m: nat)
    ensures MonthFirst(m) <= d <= MonthLast(m)
  {
    MonthFrom(d, 0)
  }

  function YearOf(d: nat): nat {
    MonthOf(d) / 12
  }

  lemma {:induction false} MonthFirstMonotone(a: nat, b: nat)
    requires a <= b
    ensures MonthFirst(b) - MonthFirst(a) >= 28 * (b - a)
  {
    if a < b {
      MonthFirstMonotone(a, b - 1);
    }
  }

  lemma MonthReached(d: nat, m: nat)
    ensures MonthFirst(m) <= d <==> m <= MonthOf(d)
  {
    var n := MonthOf(d);
    if m <= n {
      MonthFirstMonotone(m, n);
    } else {
      MonthFirstMonotone(n + 1, m);
    }
  }

  /** Months partition the days: a day lies in exactly one month. */
  lemma MonthOfUnique(d: nat, m: nat)
    ensures MonthOf(d) == m <==> MonthFirst(m) <= d <= MonthLast(m)
  {
    MonthReached(d, m);
    MonthReached(d, m + 1);
  }

  /** Years partition the days, and a year is its twelve months. */
  lemma YearOfUnique(d: nat, y: nat)
    ensures YearOf(d) == y <==> YearFirst(y) <= d <= YearLast(y)
  {
    MonthReached(d, 12 * y);
    MonthReached(d, 12 * (y + 1));
  }

  lemma YearFirstMonotone(a: nat, b: nat)
    requires a <= b
    ensures YearFirst(b) - YearFirst(a) >= 336 * (b - a)
  {
    MonthFirstMonotone(12 * a, 12 * b);
  }

  lemma TwelveMonths(y: nat)
    ensures YearFirst(y + 1) == YearFirst(y) + (if Leap(y) then 366 else 365)
  {
    FourQuarters(12 * y, 12 * (y + 1), y);
  }

  lemma FourQuarters(m: nat, next: nat, y: nat)
    requires m == 12 * y && next == m + 12
    ensures MonthFirst(next) == MonthFirst(m) + (if Leap(y) then 366 else 365)
  {
    Quarter(m);
    Quarter(m + 3);
    Quarter(m + 6);
    Quarter(m + 9);
    QuarterDays(m, y);
  }

  lemma Quarter(m: nat)
    ensures MonthFirst(m + 3) == MonthFirst(m) + DaysIn(m) + DaysIn(m + 1) + DaysIn(m + 2)
  {
    assert MonthFirst(m + 1) == MonthFirst(m) + DaysIn(m);
    assert MonthFirst(m + 2) == MonthFirst(m + 1) + DaysIn(m + 1);
    assert MonthFirst(m + 3) == MonthFirst(m + 2) + DaysIn(m + 2);
  }

  lemma QuarterDays(m: nat, y: nat)
    requires m == 12 * y
    ensures DaysIn(m) + DaysIn(m + 1) + DaysIn(m + 2) == if Leap(y) then 91 else 90
    ensures DaysIn(m + 3) + DaysIn(m + 4) + DaysIn(m + 5) == 91
    ensures DaysIn(m + 6) + DaysIn(m + 7) + DaysIn(m + 8) == 92
    ensures DaysIn(m + 9) + DaysIn(m + 10) + DaysIn(m + 11) == 92
  {
    assert (m + 1) / 12 == y;
  }

  function ClosedForm(y: nat): int {
    365 * y + (y + 3) / 4 - (y + 99) / 100 + (y + 399) / 400
  }

  lemma QuotientStep(x: nat, k: nat)
    requires k == 4 || k == 100 || k == 400
    ensures (x + k) / k - (x + k - 1) / k == if x % k == 0 then 1 else 0
  {
  }

  lemma LeapRule(x: nat)
    ensures Leap(x) <==> x % 4 == 0 && !(x % 100 == 0 && x % 400 != 0)
    ensures x % 400 == 0 ==> x % 100 == 0
    ensures x % 100 == 0 ==> x % 4 == 0
  {
    if x % 400 == 0 {
      assert x == 100 * (4 * (x / 400));
    }
    if x % 100 == 0 {
      assert x == 4 * (25 * (x / 100));
    }
  }

  lemma ClosedFormStep(x: nat)
    ensures ClosedForm(x + 1) == ClosedForm(x) + (if Leap(x) then 366 else 365)
  {
    var a, b, c := (x + 3) / 4, (x + 99) / 100, (x + 399) / 400;
    var a', b', c' := (x + 4) / 4, (x + 100) / 100, (x + 400) / 400;
    assert a' - a == if x % 4 == 0 then 1 else 0 by { QuotientStep(x, 4); }
    assert b' - b == if x % 100 == 0 then 1 else 0 by { QuotientStep(x, 100); }
    assert c' - c == if x % 400 == 0 then 1 else 0 by { QuotientStep(x, 400); }
    assert ClosedForm(x + 1) - ClosedForm(x) == 365 + (a' - a) - (b' - b) + (c' - c);
    LeapRule(x);
  }

  /** The recursive calendar is the proleptic Gregorian one. */
  lemma {:induction false} Gregorian(y: nat)
    ensures YearFirst(y) == ClosedForm(y)
  {
    if y > 0 {
      Gregorian(y - 1);
      TwelveMonths(y - 1);
      ClosedFormStep(y - 1);
    }
  }

  // ---- civil dates ----

  datatype Date = Date(year: nat, month: nat, day: nat)

  predicate ValidDate(c: Date) {
    1 <= c.month <= 12 && 1 <= c.day <= DaysIn(12 * c.year + c.month - 1)
  }

  function DateOf(d: nat): (c: Date)
    ensures ValidDate(c)
  {
    var m := MonthOf(d);
    Date(m / 12, m % 12 + 1, d - MonthFirst(m) + 1)
  }

  /** time.Date: a month or day outside its range carries over. */
  function Normalised(year: int, month: int, day: int): int
    requires 12 * year + month >= 1
  {
    MonthFirst(12 * year + month - 1) + day - 1
  }

  function DayOf(c: Date): nat
    requires ValidDate(c)
  {
    Normalised(c.year, c.month, c.day)
  }

  lemma MonthParts(m: nat, year: nat, month: int)
    requires 1 <= month <= 12
    ensures m == 12 * year + month - 1 <==> m / 12 == year && m % 12 == month - 1
  {
  }

  lemma NormalisedAt(year: int, month: int, day: int, m: nat)
    requires 12 * year + month - 1 == m
    ensures Normalised(year, month, day) == MonthFirst(m) + day - 1
  {
  }

  /** Days and civil dates are in bijection. */
  lemma CivilBijection(d: nat, c: Date)
    requires ValidDate(c)
    ensures DayOf(DateOf(d)) == d
    ensures DateOf(DayOf(c)) == c
  {
    DateThenDay(MonthOf(d), d);
    DayThenDate(c, 12 * c.year + c.month - 1);
  }

  lemma DateThenDay(m: nat, d: nat)
    requires m == MonthOf(d)
    ensures DayOf(DateOf(d)) == d
  {
    MonthParts(m, m / 12, m % 12 + 1);
    NormalisedAt(m / 12, m % 12 + 1, d - MonthFirst(m) + 1, m);
  }

  lemma DayThenDate(c: Date, m: nat)
    requires ValidDate(c) && m == 12 * c.year + c.month - 1
    ensures DateOf(DayOf(c)) == c
  {
    NormalisedAt(c.year, c.month, c.day, m);
    MonthParts(m, c.year, c.month);
    MonthOfUnique(DayOf(c), m);
  }

  /** Time.AddDate on the date of a key. */
  function AddDate(c: Date, years: int, months: int, days: int): int
    requires 12 * (c.year + years) + c.month + months >= 1
  {
    Normalised(c.year + years, c.month + months, c.day + days)
  }

  /** AddDays(d, n) is d + n. */
  lemma AddDays(d: nat, n: int)
    ensures AddDate(DateOf(d), 0, 0, n) == d + n
  {
    var m := MonthOf(d);
    MonthParts(m, m / 12, m % 12 + 1);
    NormalisedAt(m / 12, m % 12 + 1, d - MonthFirst(m) + 1 + n, m);
  }

  /** MonthBounds and AddMonths on the key of month m: its first and last day, and m + n. */
  lemma MonthArithmetic(year: nat, month: int, m: nat, n: int)
    requires 1 <= month <= 12 && m == 12 * year + month - 1 && m + n >= 0
    ensures DayOf(Date(year, month, 1)) == MonthFirst(m)
    ensures AddDate(Date(year, month, 1), 0, 1, -1) == MonthLast(m)
    ensures AddDate(Date(year, month, 1), 0, n, 0) == MonthFirst(m + n)
  {
    NormalisedAt(year, month, 1, m);
    NormalisedAt(year, month + 1, 0, m + 1);
    NormalisedAt(year, month + n, 1, m + n);
  }

  /** YearBounds and AddYears: the year's first and last day, and the year plus n. */
  lemma YearArithmetic(y: nat, n: int)
    requires y + n >= 0
    ensures AddDate(Date(y, 1, 1), 1, 0, -1) == YearLast(y)
    ensures AddDate(Date(y, 1, 1), n, 0, 0) == YearFirst(y + n)
  {
    YearStart(y + 1, 0, 12 * (y + 1));
    YearStart(y + n, 1, 12 * (y + n));
  }

  lemma YearStart(y: nat, day: int, m: nat)
    requires m == 12 * y
    ensures Normalised(y, 1, day) == MonthFirst(m) + day - 1
  {
    NormalisedAt(y, 1, day, m);
  }

  // ---- text keys ----

  /** n in decimal, padded to w digits; a larger n keeps all its digits (Go's %0wd). */
  function Digits(n: nat, w: nat): (s: string)
    ensures n < Pow10(w) ==> |s| == w
    ensures forall i :: 0 <= i < |s| ==> '0' <= s[i] <= '9'
    decreases n, w
  {
    if w == 0 && n == 0 then ""
    else Digits(n / 10, if w == 0 then 0 else w - 1) + ['0' + (n % 10) as char]
  }

  function Pow10(w: nat): nat {
    if w == 0 then 1 else 10 * Pow10(w - 1)
  }

  /** Go's and SQLite's order on text keys: bytewise. */
  predicate Less(a: string, b: string) {
    |b| > 0 && (|a| == 0 || a[0] < b[0] || (a[0] == b[0] && Less(a[1..], b[1..])))
  }

  lemma {:induction false} LessIrreflexive(a: string)
    ensures !Less(a, a)
  {
    if a != "" {
      LessIrreflexive(a[1..]);
    }
  }

  /** Two texts that start with equally long parts compare part by part. */
  lemma {:induction false} LessByParts(a: string, b: string, x: string, y: string)
    requires |a| == |b|
    ensures Less(a + x, b + y) <==> Less(a, b) || (a == b && Less(x, y))
  {
    if a == "" {
      assert a + x == x && b + y == y;
    } else {
      assert (a + x)[1..] == a[1..] + x;
      assert (b + y)[1..] == b[1..] + y;
      LessByParts(a[1..], b[1..], x, y);
      assert a == b <==> a[0] == b[0] && a[1..] == b[1..] by {
        assert a == [a[0]] + a[1..] && b == [b[0]] + b[1..];
      }
    }
  }

  lemma {:induction false} DigitsOrder(a: nat, b: nat, w: nat)
    requires a < Pow10(w) && b < Pow10(w)
    ensures Less(Digits(a, w), Digits(b, w)) <==> a < b
    ensures Digits(a, w) == Digits(b, w) <==> a == b
    decreases w
  {
    if w > 0 {
      DigitsOrder(a / 10, b / 10, w - 1);
      TenParts(a, b);
      AppendedDigits(Digits(a / 10, w - 1), Digits(b / 10, w - 1), a, b, Digits(a, w), Digits(b, w));
    }
  }

  lemma TenParts(a: nat, b: nat)
    ensures a < b <==> a / 10 < b / 10 || (a / 10 == b / 10 && a % 10 < b % 10)
    ensures a == b <==> a / 10 == b / 10 && a % 10 == b % 10
  {
  }

  lemma AppendedDigits(p: string, q: string, a: nat, b: nat, s: string, t: string)
    requires |p| == |q| && s == p + ['0' + (a % 10) as char] && t == q + ['0' + (b % 10) as char]
    ensures Less(s, t) <==> Less(p, q) || (p == q && a % 10 < b % 10)
    ensures s == t <==> p == q && a % 10 == b % 10
  {
    LessByParts(p, q, ['0' + (a % 10) as char], ['0' + (b % 10) as char]);
    assert s[..|p|] == p && t[..|q|] == q;
  }

  function YearKey(y: nat): string {
    Digits(y, 4)
  }

  function MonthKey(m: nat): string {
    YearKey(m / 12) + "-" + Digits(m % 12 + 1, 2)
  }

  function DayKey(d: nat): string {
    MonthKey(MonthOf(d)) + "-" + Digits(d - MonthFirst(MonthOf(d)) + 1, 2)
  }

  lemma LessDashed(p: string, q: string, x: string, y: string)
    requires |p| == |q|
    ensures Less(p + "-" + x, q + "-" + y) <==> Less(p, q) || (p == q && Less(x, y))
    ensures p + "-" + x == q + "-" + y <==> p == q && x == y
  {
    LessByParts("-", "-", x, y);
    LessIrreflexive("-");
    LessByParts(p, q, "-" + x, "-" + y);
    var a, b := p + "-" + x, q + "-" + y;
    assert a == p + ("-" + x) && b == q + ("-" + y);
    assert a[..|p|] == p && b[..|q|] == q && a[|p| + 1..] == x && b[|q| + 1..] == y;
  }

  lemma MonthKeyOrder(a: nat, b: nat)
    requires a < 120_000 && b < 120_000
    ensures Less(MonthKey(a), MonthKey(b)) <==> a < b
    ensures MonthKey(a) == MonthKey(b) <==> a == b
    ensures |MonthKey(a)| == |MonthKey(b)| == 7
  {
    MonthKeyParts(a / 12, a % 12 + 1, b / 12, b % 12 + 1);
    assert a == 12 * (a / 12) + a % 12 && b == 12 * (b / 12) + b % 12;
  }

  lemma MonthKeyParts(i: nat, j: nat, k: nat, l: nat)
    requires i < 10_000 && j < 100 && k < 10_000 && l < 100
    ensures var s, t := YearKey(i) + "-" + Digits(j, 2), YearKey(k) + "-" + Digits(l, 2);
      && (Less(s, t) <==> i < k || (i == k && j < l))
      && (s == t <==> i == k && j == l)
      && |s| == |t| == 7
  {
    assert Pow10(2) == 100 && Pow10(4) == 10_000;
    DigitsOrder(i, k, 4);
    DigitsOrder(j, l, 2);
    LessDashed(YearKey(i), YearKey(k), Digits(j, 2), Digits(l, 2));
  }

  /** Text keys of days up to 9999-12-31 order like the days. */
  lemma DayKeyOrder(a: nat, b: nat)
    requires a < YearFirst(10_000) && b < YearFirst(10_000)
    ensures Less(DayKey(a), DayKey(b)) <==> a < b
  {
    var m, n := MonthOf(a), MonthOf(b);
    KeyedMonth(a);
    KeyedMonth(b);
    DayKeyParts(m, a - MonthFirst(m) + 1, n, b - MonthFirst(n) + 1);
    MonthThenDay(a, b);
  }

  lemma MonthThenDay(a: nat, b: nat)
    ensures var m, n := MonthOf(a), MonthOf(b);
      a < b <==> m < n || (m == n && a - MonthFirst(m) < b - MonthFirst(n))
  {
    MonthReached(b, MonthOf(a) + 1);
    MonthReached(a, MonthOf(b) + 1);
  }

  lemma KeyedMonth(d: nat)
    requires d < YearFirst(10_000)
    ensures MonthOf(d) < 120_000
  {
    MonthReached(d, 12 * 10_000);
  }

  lemma DayKeyParts(m: nat, i: nat, n: nat, j: nat)
    requires m < 120_000 && n < 120_000 && i < 100 && j < 100
    ensures Less(MonthKey(m) + "-" + Digits(i, 2), MonthKey(n) + "-" + Digits(j, 2))
      <==> m < n || (m == n && i < j)
  {
    assert Pow10(2) == 100;
    MonthKeyOrder(m, n);
    DigitsOrder(i, j, 2);
    LessDashed(MonthKey(m), MonthKey(n), Digits(i, 2), Digits(j, 2));
  }

  /** A day key starts with its month and its year (what purgePeriods cuts off). */
  lemma DayKeyPrefixes(d: nat)
    requires d < YearFirst(10_000)
    ensures |DayKey(d)| == 10
    ensures DayKey(d)[..7] == MonthKey(MonthOf(d)) && DayKey(d)[..4] == YearKey(YearOf(d))
  {
    var m := MonthOf(d);
    KeyedMonth(d);
    MonthKeyOrder(m, m);
    assert Pow10(2) == 100 && Pow10(4) == 10_000;
    assert |YearKey(m / 12)| == 4;
  }

  // ---- listing the keys between two marks ----

  datatype KeyUnit = Months | Years {
    /** The first key past 9999, whose text no longer has the fixed width. */
    function Limit(): nat {
      if Months? then 120_000 else 10_000
    }

    function Text(k: nat): string {
      if Months? then MonthKey(k) else YearKey(k)
    }
  }

  datatype Result<+T> = Ok(value: T) | KeyError

  function Range(lo: int, hi: int): (s: seq<int>)
    ensures |s| == if lo <= hi then hi - lo + 1 else 0
    ensures forall i :: 0 <= i < |s| ==> s[i] == lo + i
  {
    if lo <= hi then seq(hi - lo + 1, i requires 0 <= i < hi - lo + 1 => lo + i) else []
  }

  lemma TextOrder(u: KeyUnit, a: nat, b: nat)
    requires a < u.Limit() && b < u.Limit()
    ensures Less(u.Text(a), u.Text(b)) <==> a < b
  {
    if u.Months? {
      MonthKeyOrder(a, b);
    } else {
      assert Pow10(4) == 10_000;
      DigitsOrder(a, b, 4);
    }
  }

  /** The key after 9999 sorts before every key of the years 1001 to 9999. */
  lemma FiveDigitYearSortsEarly(u: KeyUnit)
    ensures !Less(u.Text(u.Limit() - 1), u.Text(u.Limit()))
  {
    LastYearKey(9_999);
    NextYearKey(10_000);
    assert u.Text(u.Limit() - 1)[0] == '9' && u.Text(u.Limit())[0] == '1';
  }

  lemma LastYearKey(y: nat)
    requires y == 9_999
    ensures |YearKey(y)| > 0 && YearKey(y)[0] == '9'
  {
    var c, d := y / 10, y / 100;
    DigitsSplit(y, 4);
    DigitsSplit(c, 3);
    DigitsSplit(d, 2);
    DigitsSplit(d / 10, 1);
  }

  lemma NextYearKey(y: nat)
    requires y == 10_000
    ensures |YearKey(y)| > 0 && YearKey(y)[0] == '1'
  {
    var c, d := y / 10, y / 100;
    DigitsSplit(y, 4);
    DigitsSplit(c, 3);
    DigitsSplit(d, 2);
    DigitsSplit(d / 10, 1);
    DigitsSplit(d / 100, 0);
  }

  /** The last digit apart; the leading digit stays where it is. */
  lemma DigitsSplit(n: nat, w: nat)
    requires n > 0 || w > 0
    ensures var rest := Digits(n / 10, if w == 0 then 0 else w - 1);
      && Digits(n, w) == rest + ['0' + (n % 10) as char]
      && (rest == "" ==> Digits(n, w)[0] == '0' + (n % 10) as char)
      && (rest != "" ==> Digits(n, w)[0] == rest[0])
  {
  }

  /** The key's text sorts before that of the first five-digit key. */
  predicate SortsBeforeLimit(u: KeyUnit, k: nat) {
    Less(u.Text(k), u.Text(u.Limit()))
  }

  /** When listing the keys after `after` through `through` runs into the year 10000. */
  predicate Overruns(u: KeyUnit, after: int, through: nat) {
    && after != NONE
    && (after == u.Limit() - 1 || through == u.Limit() - 1)
    && !SortsBeforeLimit(u, through)
  }

  /** stepBetween for months and years: the keys after `after` (exclusive) through
      `through` (inclusive) in order; it fails exactly when it overruns 9999. */
  method StepBetween(u: KeyUnit, after: int, through: nat) returns (r: Result<seq<int>>)
    requires NONE <= after < u.Limit() && through < u.Limit()
    ensures r.KeyError? <==> Overruns(u, after, through)
    ensures r.Ok? ==> r.value == if after == NONE then [through] else Range(after + 1, through)
  {
    if after == NONE {
      return Ok([through]);
    }
    var limit, out: seq<int>, cur: nat := u.Limit(), [], after + 1;
    var past := PastKey(u, through, cur, limit);
    while !past
      invariant after + 1 <= cur <= limit
      invariant cur <= through + 1 || cur == after + 1
      invariant past <==> if cur < limit then through < cur else SortsBeforeLimit(u, through)
      invariant out == Range(after + 1, cur - 1)
      decreases limit - cur
    {
      if cur == limit {
        return KeyError; // the five-digit text does not parse
      }
      out := out + [cur];
      cur := cur + 1;
      past := PastKey(u, through, cur, limit);
    }
    r := Ok(out);
  }

  /** The loop's comparison, on texts. */
  method PastKey(u: KeyUnit, through: nat, cur: nat, limit: nat) returns (past: bool)
    requires limit == u.Limit() && through < limit && cur <= limit
    ensures past <==> if cur < limit then through < cur else SortsBeforeLimit(u, through)
  {
    past := Less(u.Text(through), u.Text(cur));
    if cur < limit {
      TextOrder(u, through, cur);
    }
  }
}
