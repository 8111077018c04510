/** Calendar cadences: a period of calendar months plus seconds, its anchors on the
    proleptic Gregorian calendar, and the index arithmetic that finds the anchor at or
    before (or at or after) an instant. Instants are whole microseconds. */
module Calendar {

  const SECOND: int := 1_000_000
  const DAY: int := 86_400 * SECOND
  /** The mean Gregorian month, in seconds: 146097 days over 4800 months. */
  const MEAN_MONTH: int := 2_629_746

  predicate IsLeap(y: int) {
    y % 4 == 0 && (y % 100 != 0 || y % 400 == 0)
  }

  function DaysInMonth(y: int, m: int): int {
    if m == 2 then (if IsLeap(y) then 29 else 28)
    else if m == 4 || m == 6 || m == 9 || m == 11 then 30
    else 31
  }

  /** A UTC date and time of day (microseconds since midnight). */
  datatype DateTime = DateTime(year: int, month: int, day: int, micros: int) {
    predicate Valid() {
      1 <= month <= 12 && 1 <= day <= DaysInMonth(year, month) && 0 <= micros < DAY
    }

    /** Microseconds since 0001-01-01T00:00:00. */
    function Instant(): int {
      (FirstDay(12 * year + month - 1) + day - 1) * DAY + micros
    }
  }

  function DaysBeforeYear(y: int): int {
    365 * (y - 1) + (y - 1) / 4 - (y - 1) / 100 + (y - 1) / 400
  }

  function DaysBeforeMonth(y: int, m: int): int {
    var leap := if IsLeap(y) && m > 2 then 1 else 0;
    leap + (if m <= 1 then 0 else if m == 2 then 31 else if m == 3 then 59 else if m == 4 then 90
            else if m == 5 then 120 else if m == 6 then 151 else if m == 7 then 181 else if m == 8 then 212
            else if m == 9 then 243 else if m == 10 then 273 else if m == 11 then 304 else 334)
  }

  /** The day number of the first day of month number `i` (12 * year + month - 1). */
  function FirstDay(i: int): int {
    DaysBeforeYear(i / 12) + DaysBeforeMonth(i / 12, i % 12 + 1)
  }

  function MonthLength(i: int): int {
    DaysInMonth(i / 12, i % 12 + 1)
  }

  function Min(a: int, b: int): int {
    if a < b then a else b
  }

  /** `d` moved by `n` months, its day clamped to the last day of the month it lands in. */
  function AddMonths(d: DateTime, n: int): (r: DateTime)
    requires d.Valid()
    ensures r.Valid() && 12 * r.year + r.month == 12 * d.year + d.month + n
    ensures r.day <= d.day && (r.day < d.day ==> r.day == DaysInMonth(r.year, r.month))
    ensures r.micros == d.micros
  {
    var m0 := d.month - 1 + n;
    var y, m := d.year + m0 / 12, m0 % 12 + 1;
    DateTime(y, m, Min(d.day, DaysInMonth(y, m)), d.micros)
  }

  datatype Period = Period(months: int, seconds: int) {
    predicate Valid() {
      months >= 0 && seconds >= 0 && (months > 0 || seconds > 0)
    }

    /** The mean length in seconds, used only to estimate an index. */
    function ApproximateSeconds(): int {
      months * MEAN_MONTH + seconds
    }

    /** Anchor `k`: `k` steps from `start`, the months first. */
    function Anchor(start: DateTime, k: int): int
      requires start.Valid()
    {
      (if months != 0 then AddMonths(start, k * months).Instant() else start.Instant()) + k * seconds * SECOND
    }

    /** The index estimate: whole mean lengths from `start` to `t`. */
    function Estimate(start: DateTime, t: int): int
      requires Valid() && start.Valid()
    {
      (t - start.Instant()) / (ApproximateSeconds() * SECOND)
    }

    /** `k` is the index of the anchor at or before `t`. */
    predicate IsFloor(start: DateTime, t: int, k: int)
      requires start.Valid()
    {
      Anchor(start, k) <= t < Anchor(start, k + 1)
    }

    /** The index of the anchor at or before `t`; FloorIsUnique says there is only one. */
    ghost function Floor(start: DateTime, t: int): (k: int)
      requires Valid() && start.Valid()
      ensures IsFloor(start, t, k)
    {
      FloorExists(this, start, t);
      var k :| IsFloor(start, t, k);
      k
    }

    /** The index of the first anchor at or after `t`. */
    ghost function Ceil(start: DateTime, t: int): (k: int)
      requires Valid() && start.Valid()
      ensures Anchor(start, k - 1) < t <= Anchor(start, k)
    {
      var k := Floor(start, t);
      if Anchor(start, k) == t then AnchorsIncrease(this, start, k - 1, k); k else k + 1
    }
  }

  // ---- the day-number arithmetic -------------------------------------------

  lemma QuotientStep4(y: int)
    ensures y / 4 - (y - 1) / 4 == if y % 4 == 0 then 1 else 0
  {
  }

  lemma QuotientStep100(y: int)
    ensures y / 100 - (y - 1) / 100 == if y % 100 == 0 then 1 else 0
  {
  }

  lemma QuotientStep400(y: int)
    ensures y / 400 - (y - 1) / 400 == if y % 400 == 0 then 1 else 0
  {
  }

  lemma MultipleOf100(k: int)
    ensures (100 * k) % 100 == 0
  {
  }

  lemma MultipleOf4(k: int)
    ensures (4 * k) % 4 == 0
  {
  }

  lemma CenturiesAreFourths(y: int)
    ensures y % 400 == 0 ==> y % 100 == 0
    ensures y % 100 == 0 ==> y % 4 == 0
  {
    if y % 400 == 0 {
      var k := y / 400;
      assert y == 100 * (4 * k);
      MultipleOf100(4 * k);
    }
    if y % 100 == 0 {
      var k := y / 100;
      assert y == 4 * (25 * k);
      MultipleOf4(25 * k);
    }
  }

  lemma YearStep(y: int)
    ensures DaysBeforeYear(y + 1) == DaysBeforeYear(y) + (if IsLeap(y) then 366 else 365)
  {
    QuotientStep4(y);
    QuotientStep100(y);
    QuotientStep400(y);
    CenturiesAreFourths(y);
  }

  /** Months tile the day line. */
  lemma MonthStep(i: int)
    ensures FirstDay(i + 1) == FirstDay(i) + MonthLength(i)
    ensures 28 <= MonthLength(i) <= 31
  {
    if i % 12 == 11 {
      assert (i + 1) / 12 == i / 12 + 1 && (i + 1) % 12 == 0;
      YearStep(i / 12);
    } else {
      assert (i + 1) / 12 == i / 12 && (i + 1) % 12 == i % 12 + 1;
    }
  }

  lemma {:induction false} MonthsIncrease(i: int, j: int)
    requires i < j
    ensures FirstDay(i) + MonthLength(i) <= FirstDay(j)
    decreases j - i
  {
    MonthStep(i);
    if i + 1 < j {
      MonthStep(i + 1);
      MonthsIncrease(i + 1, j);
    }
  }

  lemma YearNearMean(y: int)
    ensures -2 * 400 < 400 * DaysBeforeYear(y) - 146_097 * (y - 1) < 400
  {
    var x := y - 1;
    assert x - 3 <= 4 * (x / 4) <= x;
    assert x - 99 <= 100 * (x / 100) <= x;
    assert x - 399 <= 400 * (x / 400) <= x;
  }

  /** Every month starts within a few days of its mean position, in seconds. */
  lemma MonthNearMean(i: int)
    ensures -4 * 86_400 <= FirstDay(i) * 86_400 - (i - 12) * MEAN_MONTH <= 2 * 86_400
  {
    var y, m := i / 12, i % 12 + 1;
    assert i == 12 * y + m - 1;
    YearNearMean(y);
    assert 12 * MEAN_MONTH * 400 == 146_097 * 86_400;
    assert -2 * 86_400 <= DaysBeforeMonth(y, m) * 86_400 - (m - 1) * MEAN_MONTH <= 86_400;
  }

  /** The day number of day `d` of month number `i`, clamped to the month's last day. */
  function ClampedDay(i: int, d: int): int {
    FirstDay(i) + Min(d, MonthLength(i)) - 1
  }

  lemma AddMonthsInstant(start: DateTime, n: int)
    requires start.Valid()
    ensures AddMonths(start, n).Instant() == ClampedDay(12 * start.year + start.month - 1 + n, start.day) * DAY + start.micros
    ensures start.Instant() == ClampedDay(12 * start.year + start.month - 1, start.day) * DAY + start.micros
  {
    hide FirstDay, IsLeap;
    MonthNumber(start);
    MonthNumber(AddMonths(start, n));
  }

  lemma MonthNumber(d: DateTime)
    requires d.Valid()
    ensures (12 * d.year + d.month - 1) / 12 == d.year && (12 * d.year + d.month - 1) % 12 == d.month - 1
    ensures d.day <= MonthLength(12 * d.year + d.month - 1)
  {
  }

  lemma ClampedDaysIncrease(i: int, j: int, d: int)
    requires i < j && 1 <= d
    ensures ClampedDay(i, d) < ClampedDay(j, d)
  {
    MonthsIncrease(i, j);
    MonthStep(j);
  }

  /** Clamping and uneven months keep a day within nine days of its mean position. */
  lemma ClampedDayNearMean(i: int, n: int, d: int)
    requires 1 <= d <= MonthLength(i)
    ensures -9 * 86_400 <= (ClampedDay(i + n, d) - ClampedDay(i, d)) * 86_400 - n * MEAN_MONTH <= 9 * 86_400
  {
    MonthNearMean(i);
    MonthNearMean(i + n);
    MonthStep(i + n);
    MonthStep(i);
    CombineBounds(FirstDay(i), FirstDay(i + n), i, n, d, MonthLength(i + n));
  }

  lemma CombineBounds(f: int, g: int, i: int, n: int, d: int, len: int)
    requires -4 * 86_400 <= f * 86_400 - (i - 12) * MEAN_MONTH <= 2 * 86_400
    requires -4 * 86_400 <= g * 86_400 - (i + n - 12) * MEAN_MONTH <= 2 * 86_400
    requires 1 <= d <= 31 && 28 <= len
    ensures -9 * 86_400 <= (g + Min(d, len) - f - d) * 86_400 - n * MEAN_MONTH <= 9 * 86_400
  {
  }

  lemma MonthAnchorsIncrease(start: DateTime, i: int, j: int)
    requires start.Valid() && i < j
    ensures AddMonths(start, i).Instant() < AddMonths(start, j).Instant()
  {
    hide AddMonths, ClampedDay, DateTime.Instant;
    AddMonthsInstant(start, i);
    AddMonthsInstant(start, j);
    var m := 12 * start.year + start.month - 1;
    ClampedDaysIncrease(m + i, m + j, start.day);
  }

  /** Anchors are strictly increasing in the index, negative indices included. */
  lemma AnchorsIncrease(p: Period, start: DateTime, i: int, j: int)
    requires p.Valid() && start.Valid() && i < j
    ensures p.Anchor(start, i) < p.Anchor(start, j)
  {
    hide AddMonths, DateTime.Instant;
    Scale(i, j, p.seconds);
    if p.months != 0 {
      Scale(i, j, p.months);
      MonthAnchorsIncrease(start, i * p.months, j * p.months);
    }
  }

  lemma Scale(i: int, j: int, s: int)
    requires i < j && s >= 0
    ensures i * s <= j * s && (s > 0 ==> i * s < j * s)
  {
    assert j * s - i * s == (j - i) * s;
    if s > 0 {
      assert (j - i) * s >= 1 * s by { Grow(j - i, s); }
    }
  }

  lemma Grow(a: int, s: int)
    requires a >= 1 && s > 0
    ensures a * s >= s
  {
    assert a * s == s + (a - 1) * s;
    assert (a - 1) * s >= 0;
  }

  /** Day clamping and uneven months never move an anchor 10 days off its mean position. */
  lemma AnchorNearMean(p: Period, start: DateTime, k: int)
    requires p.Valid() && start.Valid() && p.months > 0
    ensures -10 * DAY < p.Anchor(start, k) - start.Instant() - k * (p.ApproximateSeconds() * SECOND) < 10 * DAY
  {
    hide AddMonths, ClampedDay, DateTime.Instant;
    var n, m := k * p.months, 12 * start.year + start.month - 1;
    AddMonthsInstant(start, n);
    MonthNumber(start);
    ClampedDayNearMean(m, n, start.day);
    StepProduct(k, p.months, p.seconds);
  }

  lemma StepProduct(k: int, months: int, seconds: int)
    ensures k * ((months * MEAN_MONTH + seconds) * SECOND) == (k * months) * (MEAN_MONTH * SECOND) + k * seconds * SECOND
  {
    assert (months * MEAN_MONTH + seconds) * SECOND == months * (MEAN_MONTH * SECOND) + seconds * SECOND;
    assert k * (months * (MEAN_MONTH * SECOND)) == (k * months) * (MEAN_MONTH * SECOND);
    assert k * (seconds * SECOND) == k * seconds * SECOND;
  }

  /** With exact arithmetic the estimated index is the floor or one of its neighbours. */
  lemma EstimateOffByOne(p: Period, start: DateTime, t: int)
    requires p.Valid() && start.Valid()
    ensures p.Anchor(start, p.Estimate(start, t) - 1) <= t < p.Anchor(start, p.Estimate(start, t) + 2)
    ensures p.months == 0 ==> p.IsFloor(start, t, p.Estimate(start, t))
  {
    hide Period.Anchor, DateTime.Instant, Period.ApproximateSeconds;
    var step := p.ApproximateSeconds() * SECOND;
    StepIsPositive(p);
    var e := p.Estimate(start, t);
    assert e == (t - start.Instant()) / step;
    QuotientBounds(t - start.Instant(), step, e);
    if p.months == 0 {
      FixedAnchor(p, start, e - 1);
      FixedAnchor(p, start, e);
      FixedAnchor(p, start, e + 1);
      FixedAnchor(p, start, e + 2);
    } else {
      AnchorNearMean(p, start, e - 1);
      AnchorNearMean(p, start, e + 2);
    }
  }

  lemma StepIsPositive(p: Period)
    requires p.Valid()
    ensures p.ApproximateSeconds() > 0
    ensures p.months > 0 ==> p.ApproximateSeconds() * SECOND >= 30 * DAY
  {
    if p.months > 0 { Grow(p.months, MEAN_MONTH); }
  }

  lemma QuotientBounds(d: int, step: int, e: int)
    requires step > 0 && e == d / step
    ensures (e - 1) * step + step <= d && e * step <= d < (e + 1) * step && d < (e + 2) * step - step
  {
    assert d == step * e + d % step;
    assert (e - 1) * step == e * step - step && (e + 1) * step == e * step + step && (e + 2) * step == e * step + 2 * step;
  }

  lemma FloorExists(p: Period, start: DateTime, t: int)
    requires p.Valid() && start.Valid()
    ensures exists k :: p.IsFloor(start, t, k)
  {
    hide Period.Estimate, Period.Anchor;
    var e := p.Estimate(start, t);
    EstimateOffByOne(p, start, t);
    assert p.IsFloor(start, t, e - 1) || p.IsFloor(start, t, e) || p.IsFloor(start, t, e + 1);
  }

  lemma FixedAnchor(p: Period, start: DateTime, k: int)
    requires p.Valid() && start.Valid() && p.months == 0
    ensures p.Anchor(start, k) == start.Instant() + k * (p.ApproximateSeconds() * SECOND)
  {
    assert k * (p.seconds * SECOND) == k * p.seconds * SECOND;
  }

  // ---- what the anchors are ---------------------------------------------------

  /** `d` is `start` moved by `n` months: that many months on, at the same time of day, on the
      same day, or on the month's last if the month is too short for it. */
  ghost predicate MonthsOn(start: DateTime, n: int, d: DateTime) {
    && d.Valid() && 12 * d.year + d.month == 12 * start.year + start.month + n && d.micros == start.micros
    && (d.day == start.day || d.day == DaysInMonth(d.year, d.month) < start.day)
  }

  /** An anchor is the start moved by its months, day clamped, and then by its seconds: for a
      period with months the instant of the one date that many months on. */
  lemma AnchorIsDate(p: Period, start: DateTime, k: int)
    requires p.Valid() && start.Valid()
    ensures p.months == 0 ==> p.Anchor(start, k) == start.Instant() + k * p.seconds * 1_000_000
    ensures p.months != 0 ==> exists d :: MonthsOn(start, k * p.months, d)
    ensures p.months != 0 ==> forall d :: MonthsOn(start, k * p.months, d) ==> p.Anchor(start, k) == d.Instant() + k * p.seconds * 1_000_000
  {
    hide DateTime.Instant;
    if p.months != 0 {
      var n := k * p.months;
      var m := AddMonths(start, n);
      assert MonthsOn(start, n, m);
      forall d | MonthsOn(start, n, d)
        ensures d == m
      {
        OneMonthOn(start, n, d, m);
      }
    }
  }

  lemma OneMonthOn(start: DateTime, n: int, d: DateTime, e: DateTime)
    requires start.Valid() && MonthsOn(start, n, d) && MonthsOn(start, n, e)
    ensures d == e
  {
    MonthNumber(d);
    MonthNumber(e);
  }

  /** The day after a date's own. */
  function Tomorrow(d: DateTime): DateTime {
    if d.day < DaysInMonth(d.year, d.month) then d.(day := d.day + 1)
    else if d.month < 12 then DateTime(d.year, d.month + 1, 1, d.micros)
    else DateTime(d.year + 1, 1, 1, d.micros)
  }

  /** Instants count microseconds through the days of the calendar from 0001-01-01, with the
      Gregorian month lengths. */
  lemma InstantsCountDays(d: DateTime)
    requires d.Valid()
    ensures DateTime(1, 1, 1, 0).Instant() == 0
    ensures Tomorrow(d).Valid() && Tomorrow(d).Instant() == d.Instant() + 86_400_000_000
    ensures d.Instant() == d.(micros := 0).Instant() + d.micros && 0 <= d.micros < 86_400_000_000
    ensures var leap := d.year % 4 == 0 && (d.year % 100 != 0 || d.year % 400 == 0);
            DaysInMonth(d.year, d.month) == [31, if leap then 29 else 28, 31, 30, 31, 30, 31, 31, 30, 31, 30, 31][d.month - 1]
  {
    hide DateTime.Instant, DaysInMonth, FirstDay;
    FirstInstant();
    TimeOfDay(d);
    MonthTable(d);
    if d.day < DaysInMonth(d.year, d.month) { NextInMonth(d); } else { NextMonth(d); }
  }

  lemma FirstInstant()
    ensures DateTime(1, 1, 1, 0).Instant() == 0
  {
  }

  lemma TimeOfDay(d: DateTime)
    ensures d.Instant() == d.(micros := 0).Instant() + d.micros
  {
    hide FirstDay;
  }

  lemma MonthTable(d: DateTime)
    requires d.Valid()
    ensures var leap := d.year % 4 == 0 && (d.year % 100 != 0 || d.year % 400 == 0);
            DaysInMonth(d.year, d.month) == [31, if leap then 29 else 28, 31, 30, 31, 30, 31, 31, 30, 31, 30, 31][d.month - 1]
  {
  }

  lemma NextInMonth(d: DateTime)
    requires d.Valid() && d.day < DaysInMonth(d.year, d.month)
    ensures Tomorrow(d).Valid() && Tomorrow(d).Instant() == d.Instant() + DAY
  {
    hide FirstDay, DaysInMonth;
  }

  lemma NextMonth(d: DateTime)
    requires d.Valid() && d.day == DaysInMonth(d.year, d.month)
    ensures Tomorrow(d).Valid() && Tomorrow(d).Instant() == d.Instant() + DAY
  {
    hide FirstDay, IsLeap;
    var i := 12 * d.year + d.month - 1;
    FullMonth(d);
    assert 12 * Tomorrow(d).year + Tomorrow(d).month - 1 == i + 1;
    StepOneDay(FirstDay(i), FirstDay(i + 1), d.day, d.micros);
  }

  lemma FullMonth(d: DateTime)
    requires d.Valid() && d.day == DaysInMonth(d.year, d.month)
    ensures var i := 12 * d.year + d.month - 1; FirstDay(i + 1) == FirstDay(i) + d.day
  {
    hide FirstDay, DaysInMonth;
    MonthNumber(d);
    MonthStep(12 * d.year + d.month - 1);
  }

  lemma StepOneDay(f: int, g: int, day: int, micros: int)
    requires g == f + day
    ensures (g + 1 - 1) * DAY + micros == (f + day - 1) * DAY + micros + DAY
  {
  }

  // ---- what the indices mean -------------------------------------------------

  lemma FloorIsUnique(p: Period, start: DateTime, t: int, f: int, k: int)
    requires p.Valid() && start.Valid() && p.IsFloor(start, t, f)
    ensures p.Anchor(start, k) <= t <==> k <= f
    ensures p.IsFloor(start, t, k) <==> k == f
  {
    hide Period.Anchor;
    if k < f { AnchorsIncrease(p, start, k, f); Below(p, start, k + 1, f); }
    if f < k { Below(p, start, f + 1, k); }
  }

  /** The floor is the largest index whose anchor is at or before `t`; the ceiling is the
      smallest whose anchor is at or after it; each is the only such index. */
  lemma FloorAndCeilAreExtremal(p: Period, start: DateTime, t: int, k: int)
    requires p.Valid() && start.Valid()
    ensures p.Anchor(start, k) <= t <==> k <= p.Floor(start, t)
    ensures p.Anchor(start, k) >= t <==> k >= p.Ceil(start, t)
    ensures p.IsFloor(start, t, k) <==> k == p.Floor(start, t)
  {
    hide Period.Anchor, Period.Floor;
    FloorIsUnique(p, start, t, p.Floor(start, t), k);
    var c := p.Ceil(start, t);
    if k < c { Below(p, start, k, c - 1); }
    if c < k { AnchorsIncrease(p, start, c, k); }
  }

  lemma Below(p: Period, start: DateTime, i: int, j: int)
    requires p.Valid() && start.Valid() && i <= j
    ensures p.Anchor(start, i) <= p.Anchor(start, j)
  {
    if i < j { AnchorsIncrease(p, start, i, j); }
  }

  /** The floor of an anchor is its own index, and so is its ceiling. */
  lemma IndexOfAnchor(p: Period, start: DateTime, k: int)
    requires p.Valid() && start.Valid()
    ensures p.Floor(start, p.Anchor(start, k)) == k == p.Ceil(start, p.Anchor(start, k))
  {
    hide Period.Anchor, Period.Floor, Period.Ceil;
    AnchorsIncrease(p, start, k, k + 1);
    FloorAndCeilAreExtremal(p, start, p.Anchor(start, k), k);
    FloorAndCeilAreExtremal(p, start, p.Anchor(start, k), k - 1);
    AnchorsIncrease(p, start, k - 1, k);
  }

  // ---- the code's two searches ----------------------------------------------

  /** The two correction loops, from ANY first guess (a rounded estimate included): they
      end at the floor, and from a guess within one they take at most one step. */
  method CorrectIndex(p: Period, start: DateTime, t: int, guess: int) returns (k: int, steps: nat)
    requires p.Valid() && start.Valid()
    ensures k == p.Floor(start, t)
    ensures steps == if guess < k then k - guess else guess - k
  {
    hide Period.Anchor, Period.Floor;
    k, steps := guess, 0;
    FloorAndCeilAreExtremal(p, start, t, guess);
    while p.Anchor(start, k) > t
      invariant p.Floor(start, t) <= k || k == guess
      invariant k <= guess && steps == guess - k
      decreases p.Anchor(start, k) - t
    {
      FloorAndCeilAreExtremal(p, start, t, k);
      AnchorsIncrease(p, start, k - 1, k);
      k, steps := k - 1, steps + 1;
    }
    FloorAndCeilAreExtremal(p, start, t, k);
    while p.Anchor(start, k + 1) <= t
      invariant k <= p.Floor(start, t)
      invariant if guess < k then steps == k - guess else steps == guess - k && (k == guess || k == p.Floor(start, t))
      decreases t - p.Anchor(start, k)
    {
      FloorAndCeilAreExtremal(p, start, t, k + 1);
      AnchorsIncrease(p, start, k, k + 1);
      k, steps := k + 1, steps + 1;
    }
    FloorAndCeilAreExtremal(p, start, t, k);
  }

  /** `floor`: the exact quotient for a fixed step; otherwise estimate, then correct. */
  method FloorIndex(p: Period, start: DateTime, t: int) returns (k: int, steps: nat)
    requires p.Valid() && start.Valid()
    ensures k == p.Floor(start, t) && steps <= 1
  {
    hide Period.Anchor, Period.Floor, Period.Estimate, DateTime.Instant;
    ghost var e := p.Estimate(start, t);
    EstimateOffByOne(p, start, t);
    FloorAndCeilAreExtremal(p, start, t, e);
    if p.months == 0 {
      FixedEstimate(p, start, t);
      return (t - start.Instant()) / (p.seconds * SECOND), 0;
    }
    FloorAndCeilAreExtremal(p, start, t, e - 1);
    FloorAndCeilAreExtremal(p, start, t, e + 2);
    k, steps := CorrectIndex(p, start, t, p.Estimate(start, t));
  }

  lemma FixedEstimate(p: Period, start: DateTime, t: int)
    requires p.Valid() && start.Valid() && p.months == 0
    ensures p.Estimate(start, t) == (t - start.Instant()) / (p.seconds * SECOND)
  {
    hide DateTime.Instant;
    assert p.ApproximateSeconds() == p.seconds;
  }

  /** The conformance suite's brute-force walk: out from -1 in strides of 50, then up. */
  method BruteForceFloor(p: Period, start: DateTime, t: int) returns (k: int)
    requires p.Valid() && start.Valid()
    ensures k == p.Floor(start, t)
  {
    hide Period.Anchor, Period.Floor;
    k := -1;
    while p.Anchor(start, k) > t
      decreases p.Anchor(start, k) - t
    {
      AnchorsIncrease(p, start, k - 50, k);
      k := k - 50;
    }
    while p.Anchor(start, k + 1) <= t
      invariant p.Anchor(start, k) <= t
      decreases t - p.Anchor(start, k)
    {
      AnchorsIncrease(p, start, k, k + 1);
      k := k + 1;
    }
    FloorAndCeilAreExtremal(p, start, t, k);
  }

  /** `ceil`: the floor if it is an anchor, else the next one. */
  method CeilIndex(p: Period, start: DateTime, t: int) returns (k: int)
    requires p.Valid() && start.Valid()
    ensures k == p.Ceil(start, t)
  {
    var floor, _ := FloorIndex(p, start, t);
    k := if p.Anchor(start, floor) == t then floor else floor + 1;
  }

  /** The walk's own ceiling is the same index. */
  method BruteForceCeil(p: Period, start: DateTime, t: int) returns (k: int)
    requires p.Valid() && start.Valid()
    ensures k == p.Ceil(start, t)
  {
    var floor := BruteForceFloor(p, start, t);
    k := if p.Anchor(start, floor) == t then floor else floor + 1;
  }
}
