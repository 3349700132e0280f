/**
 * Date arithmetic for agents: the next "exact" start date of a timer agent
 * (the next instant at which the calendar field of the interval's unit is a
 * multiple of the interval, finer fields cleared) and the text of a date.
 *
 * Instants are milliseconds since 1970-01-01T00:00:00 on a fixed UTC
 * timeline; the calendar fields are read from it as a Calendar in UTC does.
 */
module DateUtils {
  import opened Wrappers
  import opened Numerals
  import opened TimeUnits

  /** Milliseconds since the epoch; negative before it. */
  type Instant = int

  const MILLIS_PER_SECOND: int := 1000
  const MILLIS_PER_MINUTE: int := 60 * 1000
  const MILLIS_PER_HOUR: int := 60 * 60 * 1000
  const MILLIS_PER_DAY: int := 24 * 60 * 60 * 1000

  const NULL_STRING: string := "null"

  function Millisecond(t: Instant): nat { t % MILLIS_PER_SECOND }
  function Second(t: Instant): nat { (t / MILLIS_PER_SECOND) % 60 }
  function Minute(t: Instant): nat { (t / MILLIS_PER_MINUTE) % 60 }
  function HourOfDay(t: Instant): nat { (t / MILLIS_PER_HOUR) % 24 }

  /** `calendar.get(timeUnit.getCalendarConstant())`: SECOND, MINUTE or HOUR_OF_DAY. */
  function CalendarField(u: TimeUnit, t: Instant): nat
  {
    match u
    case SECONDS => Second(t)
    case MINUTES => Minute(t)
    case HOURS => HourOfDay(t)
  }

  /** How many values the calendar field of a unit takes before it wraps. */
  function FieldRange(u: TimeUnit): nat
  {
    match u
    case SECONDS => 60
    case MINUTES => 60
    case HOURS => 24
  }

  /**
   * How many units the next exact date lies ahead: the distance to the next
   * multiple of the interval, or a whole interval when the field already is
   * one. A negative interval moves backwards, unless the int subtraction
   * `interval - time % interval` overflows (an interval within 59 of
   * Integer.MIN_VALUE): its wrapped value is positive and moves forwards.
   */
  function Advance(interval: Int32, time: nat): int
    requires interval != 0
  {
    var remainder := JavaRem(time, interval);
    if remainder == 0 then interval
    else if interval > 0 then interval - remainder
    else if interval - remainder < INT_MIN then interval - remainder + 0x1_0000_0000
    else 2 * interval - remainder
  }

  /** `timeDiff` of the source: the int distance to the next multiple of the interval, wrapped to 32 bits. */
  function TimeDiff(interval: Int32, time: nat): Int32
    requires interval != 0
  {
    if JavaRem(time, interval) == 0 then 0 else Wrap32(interval - JavaRem(time, interval))
  }

  /** The next exact date, stated on the unit grid: `Advance` units past the start of the current one. */
  function NextExactDate(interval: Int32, u: TimeUnit, t: Instant): Instant
    requires interval != 0
  {
    (t / Scale(u) + Advance(interval, CalendarField(u, t))) * Scale(u)
  }

  /**
   * `getNextExactDateEveryInterval(interval, timeUnit, calendar)`: move the
   * unit's field to the next multiple of the interval (one more interval when
   * that is not later than the source), then clear the finer fields, falling
   * through from HOURS to MINUTES to SECONDS.
   */
  method GetNextExactDateEveryInterval(interval: Int32, timeUnit: TimeUnit, calendar: Option<Instant>)
    returns (r: Result<Instant>)
    ensures calendar.None? ==> r == Err(NullPointer("The source calendar must not be null"))
    ensures calendar.Some? && interval == 0 ==> r == Err(Arithmetic("/ by zero"))
    ensures calendar.Some? && interval != 0 ==> r == Ok(NextExactDate(interval, timeUnit, calendar.value))
  {
    if calendar.None? {
      return Err(NullPointer("The source calendar must not be null"));
    }
    var source := calendar.value;
    var nextDate := source;
    var time := CalendarField(timeUnit, source);
    if interval == 0 {
      return Err(Arithmetic("/ by zero"));
    }
    var timeDiff: Int32 := if JavaRem(time, interval) == 0 then 0 else Wrap32(interval - JavaRem(time, interval));
    nextDate := nextDate + timeDiff * Scale(timeUnit);
    if nextDate <= source {
      nextDate := nextDate + interval * Scale(timeUnit);
    }
    AdvanceMatchesSteps(interval, time, Scale(timeUnit), source);
    nextDate := ClearFinerFields(timeUnit, nextDate);
    AdvancedFloorIsNextExactDate(interval, timeUnit, source);
    r := Ok(nextDate);
  }

  /** Clearing MINUTE (for HOURS), SECOND (for HOURS and MINUTES) and MILLISECOND takes a date to the start of its unit. */
  method ClearFinerFields(timeUnit: TimeUnit, date: Instant) returns (cleared: Instant)
    ensures cleared == (date / Scale(timeUnit)) * Scale(timeUnit)
  {
    cleared := date;
    if timeUnit == HOURS {
      cleared := cleared - Minute(cleared) * MILLIS_PER_MINUTE;
    }
    if timeUnit == HOURS || timeUnit == MINUTES {
      cleared := cleared - Second(cleared) * MILLIS_PER_SECOND;
    }
    cleared := cleared - Millisecond(cleared);
    assert cleared == Clear(timeUnit, date);
    ClearingFinerFieldsIsGridFloor(timeUnit, date);
  }

  /** The start of the unit reached after advancing is the next exact date. */
  lemma AdvancedFloorIsNextExactDate(interval: Int32, u: TimeUnit, t: Instant)
    requires interval != 0
    ensures ((t + Advance(interval, CalendarField(u, t)) * Scale(u)) / Scale(u)) * Scale(u) == NextExactDate(interval, u, t)
  {
    GridShift(Scale(u), t, Advance(interval, CalendarField(u, t)));
  }

  /** The two `add` steps of the source, with the int `timeDiff`, move the date by exactly `Advance` units. */
  lemma AdvanceMatchesSteps(interval: Int32, time: nat, scale: nat, source: Instant)
    requires interval != 0 && scale > 0
    ensures var stepped := source + TimeDiff(interval, time) * scale;
            (if stepped <= source then stepped + interval * scale else stepped)
              == source + Advance(interval, time) * scale
  {
    var remainder := JavaRem(time, interval);
    if remainder != 0 {
      var timeDiff := TimeDiff(interval, time);
      if interval > 0 {
        assert timeDiff == interval - remainder >= 1;
        MultipleAtLeastDivisor(timeDiff, scale);
      } else if interval - remainder < INT_MIN {
        WrapsOnceBelow(interval - remainder);
        assert timeDiff == interval - remainder + 0x1_0000_0000 >= 1;
        MultipleAtLeastDivisor(timeDiff, scale);
      } else {
        assert timeDiff == interval - remainder;
        assert -timeDiff >= 1;
        MultipleAtLeastDivisor(-timeDiff, scale);
        assert timeDiff * scale + interval * scale == (2 * interval - remainder) * scale;
      }
    }
  }

  /** The instant left after clearing the fields finer than the unit, one field at a time. */
  function Clear(u: TimeUnit, t: Instant): Instant
  {
    var m := if u == HOURS then t - Minute(t) * MILLIS_PER_MINUTE else t;
    var s := if u == HOURS || u == MINUTES then m - Second(m) * MILLIS_PER_SECOND else m;
    s - Millisecond(s)
  }

  /** Clearing the fields finer than a unit takes an instant down to the start of its unit. */
  lemma ClearingFinerFieldsIsGridFloor(u: TimeUnit, t: Instant)
    ensures Clear(u, t) == (t / Scale(u)) * Scale(u)
  {
    match u
    case SECONDS =>
    case MINUTES => ClearSecondsAndMillis(t);
    case HOURS =>
      var m := t - Minute(t) * MILLIS_PER_MINUTE;
      ClearMinutes(t);
      ClearSecondsAndMillis(m);
      assert m / MILLIS_PER_MINUTE == (t / MILLIS_PER_HOUR) * 60;
  }

  lemma ClearMinutes(t: Instant)
    ensures t - Minute(t) * MILLIS_PER_MINUTE == (t / MILLIS_PER_HOUR) * MILLIS_PER_HOUR + t % MILLIS_PER_MINUTE
  {
  }

  lemma ClearSecondsAndMillis(t: Instant)
    ensures var s := t - Second(t) * MILLIS_PER_SECOND; s - Millisecond(s) == (t / MILLIS_PER_MINUTE) * MILLIS_PER_MINUTE
  {
  }

  /** Moving k whole units along the timeline moves the unit count by k. */
  lemma GridShift(scale: nat, t: Instant, k: int)
    requires scale > 0
    ensures (t + k * scale) / scale == t / scale + k
  {
    assert t == (t / scale) * scale + t % scale;
    assert t + k * scale == (t / scale + k) * scale + t % scale;
    DivModUnique(t + k * scale, scale, t / scale + k, t % scale);
  }

  /** The Date overload: a null date is refused, otherwise the Calendar overload decides. */
  method GetNextExactDateEveryIntervalFromDate(interval: Int32, timeUnit: TimeUnit, date: Option<Instant>)
    returns (r: Result<Instant>)
    ensures date.None? ==> r == Err(NullPointer("The source date must not be null"))
    ensures date.Some? && interval == 0 ==> r == Err(Arithmetic("/ by zero"))
    ensures date.Some? && interval != 0 ==> r == Ok(NextExactDate(interval, timeUnit, date.value))
  {
    if date.None? {
      return Err(NullPointer("The source date must not be null"));
    }
    r := GetNextExactDateEveryInterval(interval, timeUnit, date);
  }

  predicate IsMultipleOf(x: int, d: int)
    requires d != 0
  {
    x % d == 0
  }

  /** For a positive interval the advance is the least k in 1..interval bringing the field to a multiple of it. */
  lemma AdvanceIsLeastStepToMultiple(interval: Int32, time: nat)
    requires interval > 0
    ensures 1 <= Advance(interval, time) <= interval
    ensures (time + Advance(interval, time)) % interval == 0
    ensures forall y :: time < y < time + Advance(interval, time) ==> !IsMultipleOf(y, interval)
  {
    var q := time / interval;
    var remainder := time % interval;
    assert time == q * interval + remainder;
    assert JavaRem(time, interval) == remainder;
    if remainder == 0 {
      DivModUnique(time + interval, interval, q + 1, 0);
    } else {
      DivModUnique(time + (interval - remainder), interval, q + 1, 0);
    }
    forall y | time < y < time + Advance(interval, time)
      ensures !IsMultipleOf(y, interval)
    {
      DivModUnique(y, interval, q, remainder + (y - time));
    }
  }

  /** The next exact date is strictly later than the source and at most one interval later. */
  lemma NextExactDateIsWithinOneInterval(interval: Int32, u: TimeUnit, t: Instant)
    requires interval > 0
    ensures t < NextExactDate(interval, u, t) <= t + interval * Scale(u)
  {
    AdvanceIsLeastStepToMultiple(interval, CalendarField(u, t));
    var k := Advance(interval, CalendarField(u, t));
    var scale := Scale(u);
    var q := t / scale;
    assert t == q * scale + t % scale;
    assert (q + k) * scale == q * scale + k * scale;
    MultipleAtLeastDivisor(k, scale);
    assert k * scale <= interval * scale by {
      assert interval * scale - k * scale == (interval - k) * scale;
    }
  }

  /** The next exact date falls on the unit grid: every field finer than the unit is zero. */
  lemma NextExactDateIsTruncated(interval: Int32, u: TimeUnit, t: Instant)
    requires interval != 0
    ensures Millisecond(NextExactDate(interval, u, t)) == 0
    ensures u != SECONDS ==> Second(NextExactDate(interval, u, t)) == 0
    ensures u == HOURS ==> Minute(NextExactDate(interval, u, t)) == 0
  {
    var n := t / Scale(u) + Advance(interval, CalendarField(u, t));
    var next := NextExactDate(interval, u, t);
    match u
    case SECONDS =>
      DivModUnique(next, MILLIS_PER_SECOND, n, 0);
    case MINUTES =>
      DivModUnique(next, MILLIS_PER_SECOND, n * 60, 0);
      DivModUnique(n * 60, 60, n, 0);
    case HOURS =>
      DivModUnique(next, MILLIS_PER_SECOND, n * 3600, 0);
      DivModUnique(n * 3600, 60, n * 60, 0);
      DivModUnique(next, MILLIS_PER_MINUTE, n * 60, 0);
      DivModUnique(n * 60, 60, n, 0);
  }

  /**
   * When the interval divides the field's range (5 or 30 minutes, 2 hours,
   * 30 seconds, ...), the field of the next exact date is a multiple of the
   * interval.
   */
  lemma NextExactDateIsAligned(interval: Int32, u: TimeUnit, t: Instant)
    requires interval > 0 && FieldRange(u) % interval == 0
    ensures CalendarField(u, NextExactDate(interval, u, t)) % interval == 0
  {
    var f := CalendarField(u, t);
    var k := Advance(interval, f);
    var q := t / Scale(u);
    AdvanceIsLeastStepToMultiple(interval, f);
    var next := NextExactDate(interval, u, t);
    DivModUnique(next, Scale(u), q + k, 0);
    assert CalendarField(u, next) == (q + k) % FieldRange(u);
    assert f == q % FieldRange(u);
    FieldOfSum(q, k, FieldRange(u), interval);
  }

  /** (q + k) mod R is a multiple of d when d divides R and (q mod R) + k is a multiple of d. */
  lemma FieldOfSum(q: int, k: int, range: nat, d: nat)
    requires range > 0 && d > 0 && range % d == 0 && (q % range + k) % d == 0
    ensures ((q + k) % range) % d == 0
  {
    var x := q % range + k;
    var a := range / d;
    var e := x / d;
    assert range == a * d;
    assert x == e * d;
    var b := (q + k) / range;
    var c := q / range;
    var w := (q + k) % range;
    assert q == c * range + q % range;
    assert q + k == b * range + w;
    assert w == (c - b) * range + x;
    assert (c - b) * range == ((c - b) * a) * d;
    assert w == ((c - b) * a + e) * d;
    DivModUnique(w, d, (c - b) * a + e, 0);
  }

  /** Two decimal digits of a field value. */
  function TwoDigits(n: int): (r: string)
    ensures |r| == 2 && AllDigits(r)
  {
    [DigitChar((n % 100) / 10), DigitChar(n % 10)]
  }

  /** The two digits read back give the value, for values below 100. */
  lemma TwoDigitsRoundTrip(n: nat)
    requires n < 100
    ensures DigitsValue(TwoDigits(n)) == n
  {
    var r := TwoDigits(n);
    var tens, units := (n % 100) / 10, n % 10;
    assert n % 100 == n && tens * 10 + units == n;
    assert DigitValue(r[0]) == tens && DigitValue(r[1]) == units;
    assert r[..1] == [r[0]] && r[..1][..0] == [];
    assert DigitsValue(r[..1]) == tens;
    assert DigitsValue(r) == DigitsValue(r[..1]) * 10 + units;
  }

  /** Zeros in front of a number's digits up to a minimum width. */
  function ZeroPad(digits: string, width: nat): (r: string)
    ensures |digits| >= width ==> r == digits
    ensures |digits| < width ==> r == seq(width - |digits|, _ => '0') + digits
    decreases width - |digits|
  {
    if |digits| >= width then digits
    else
      assert seq(width - |digits| - 1, _ => '0') + ("0" + digits) == seq(width - |digits|, _ => '0') + digits;
      ZeroPad("0" + digits, width)
  }

  /** Padding digits with zeros keeps the number they denote. */
  lemma {:induction false} ZeroPadKeepsValue(digits: string, width: nat)
    requires AllDigits(digits)
    ensures AllDigits(ZeroPad(digits, width)) && DigitsValue(ZeroPad(digits, width)) == DigitsValue(digits)
    decreases width - |digits|
  {
    if |digits| < width {
      LeadingZeroKeepsValue(digits);
      ZeroPadKeepsValue("0" + digits, width);
    }
  }

  /**
   * A year as the pattern "yyyy" prints it: the year of its era (the years
   * before 1 AD count backwards from 1 BC, which has no era letter in the
   * pattern), with at least four digits.
   */
  function FourDigitYear(year: int): (r: string)
    ensures |r| >= 4 && AllDigits(r)
    ensures DigitsValue(r) == if year <= 0 then 1 - year else year
  {
    var yearOfEra := if year <= 0 then 1 - year else year;
    NatToStringRoundTrip(yearOfEra);
    ZeroPadKeepsValue(NatToString(yearOfEra), 4);
    ZeroPad(NatToString(yearOfEra), 4)
  }

  /** The proleptic Gregorian (year, month, day) of a day count since 1970-01-01. */
  function CivilFromDays(days: int): (int, int, int)
  {
    var z := days + 719468;
    var era := z / 146097;
    var dayOfEra := z - era * 146097;
    var yearOfEra := (dayOfEra - dayOfEra / 1460 + dayOfEra / 36524 - dayOfEra / 146096) / 365;
    var dayOfYear := dayOfEra - (365 * yearOfEra + yearOfEra / 4 - yearOfEra / 100);
    var shiftedMonth := (5 * dayOfYear + 2) / 153;
    var day := dayOfYear - (153 * shiftedMonth + 2) / 5 + 1;
    var month := if shiftedMonth < 10 then shiftedMonth + 3 else shiftedMonth - 9;
    (if month <= 2 then yearOfEra + era * 400 + 1 else yearOfEra + era * 400, month, day)
  }

  /** "HH:mm:ss" of an instant, in UTC. */
  function ClockText(t: Instant): (r: string)
    ensures |r| == 8 && r[2] == ':' && r[5] == ':'
  {
    TwoDigits(HourOfDay(t)) + ":" + TwoDigits(Minute(t)) + ":" + TwoDigits(Second(t))
  }

  /** The clock text reads back as the hour, minute and second of the instant. */
  lemma ClockTextReadsBack(t: Instant)
    ensures DigitsValue(ClockText(t)[0..2]) == HourOfDay(t)
    ensures DigitsValue(ClockText(t)[3..5]) == Minute(t)
    ensures DigitsValue(ClockText(t)[6..8]) == Second(t)
  {
    var r := ClockText(t);
    assert r[0..2] == TwoDigits(HourOfDay(t));
    assert r[3..5] == TwoDigits(Minute(t));
    assert r[6..8] == TwoDigits(Second(t));
    TwoDigitsRoundTrip(HourOfDay(t));
    TwoDigitsRoundTrip(Minute(t));
    TwoDigitsRoundTrip(Second(t));
  }

  /** "yyyy-MM-dd" of a day count since the epoch, in the proleptic Gregorian calendar. */
  function CalendarDateText(days: int): (r: string)
    ensures |r| >= 10
  {
    var (year, month, day) := CivilFromDays(days);
    FourDigitYear(year) + "-" + TwoDigits(month) + "-" + TwoDigits(day)
  }

  /** `formatDate`: "yyyy-MM-dd'T'HH:mm:ss" in UTC, and "null" for a null date. */
  function FormatDate(date: Option<Instant>): (r: string)
    ensures date.None? ==> r == NULL_STRING
    ensures date.Some? ==> |r| >= 19 && r[|r| - 9] == 'T' && r[|r| - 8..] == ClockText(date.value)
  {
    if date.None? then NULL_STRING
    else CalendarDateText(date.value / MILLIS_PER_DAY) + "T" + ClockText(date.value)
  }

  /** 2019-06-12T00:00:00Z. */
  const JUNE_12_2019: Instant := 18059 * MILLIS_PER_DAY

  function At(day: Instant, hour: nat, minute: nat, second: nat, millis: nat): Instant
  {
    day + hour * MILLIS_PER_HOUR + minute * MILLIS_PER_MINUTE + second * MILLIS_PER_SECOND + millis
  }

  /** An instant given as whole units plus less than one unit: its unit count and its calendar field. */
  lemma UnitsOf(u: TimeUnit, t: Instant, n: int, rest: nat)
    requires t == n * Scale(u) + rest && rest < Scale(u)
    ensures t / Scale(u) == n && CalendarField(u, t) == n % FieldRange(u)
  {
    DivModUnique(t, Scale(u), n, rest);
  }

  /** One minute after 18:15:01.123 is 18:16:00.000. */
  lemma NextMinuteExample()
    ensures NextExactDate(1, MINUTES, At(JUNE_12_2019, 18, 15, 1, 123)) == At(JUNE_12_2019, 18, 16, 0, 0)
  {
    UnitsOf(MINUTES, At(JUNE_12_2019, 18, 15, 1, 123), 18059 * 1440 + 18 * 60 + 15, 1123);
    assert Advance(1, 15) == 1;
  }

  /** Five minutes after 18:16:01.123 is 18:20:00.000. */
  lemma EveryFiveMinutesExample()
    ensures NextExactDate(5, MINUTES, At(JUNE_12_2019, 18, 16, 1, 123)) == At(JUNE_12_2019, 18, 20, 0, 0)
  {
    UnitsOf(MINUTES, At(JUNE_12_2019, 18, 16, 1, 123), 18059 * 1440 + 18 * 60 + 16, 1123);
    assert Advance(5, 16) == 4;
  }

  /** Thirty minutes after 18:45:01.123 is 19:00:00.000. */
  lemma EveryThirtyMinutesExample()
    ensures NextExactDate(30, MINUTES, At(JUNE_12_2019, 18, 45, 1, 123)) == At(JUNE_12_2019, 19, 0, 0, 0)
  {
    UnitsOf(MINUTES, At(JUNE_12_2019, 18, 45, 1, 123), 18059 * 1440 + 18 * 60 + 45, 1123);
    assert Advance(30, 45) == 15;
  }

  /** One hour after 23:38:01.123 is midnight of the next day. */
  lemma NextHourExample()
    ensures NextExactDate(1, HOURS, At(JUNE_12_2019, 23, 38, 1, 123)) == At(JUNE_12_2019 + MILLIS_PER_DAY, 0, 0, 0, 0)
  {
    UnitsOf(HOURS, At(JUNE_12_2019, 23, 38, 1, 123), 18059 * 24 + 23, 38 * MILLIS_PER_MINUTE + 1123);
    assert Advance(1, 23) == 1;
  }

  /** Two hours after 17:16:01.123 is 18:00:00.000. */
  lemma EveryTwoHoursExample()
    ensures NextExactDate(2, HOURS, At(JUNE_12_2019, 17, 16, 1, 123)) == At(JUNE_12_2019, 18, 0, 0, 0)
  {
    UnitsOf(HOURS, At(JUNE_12_2019, 17, 16, 1, 123), 18059 * 24 + 17, 16 * MILLIS_PER_MINUTE + 1123);
    assert Advance(2, 17) == 1;
  }

  /** Thirty seconds after 18:01:29.123 is 18:01:30.000. */
  lemma EveryThirtySecondsExample()
    ensures NextExactDate(30, SECONDS, At(JUNE_12_2019, 18, 1, 29, 123)) == At(JUNE_12_2019, 18, 1, 30, 0)
  {
    UnitsOf(SECONDS, At(JUNE_12_2019, 18, 1, 29, 123), 18059 * 86400 + 18 * 3600 + 60 + 29, 123);
    assert Advance(30, 29) == 1;
  }

  /**
   * An interval of Integer.MIN_VALUE at second 1 of the epoch: `interval - 1`
   * wraps to Integer.MAX_VALUE, so the date moves about 68 years forwards.
   */
  lemma MinIntervalWrapsExample()
    ensures TimeDiff(INT_MIN, 1) == INT_MAX
    ensures NextExactDate(INT_MIN, SECONDS, 1000) == 2147483648000
  {
    WrapsOnceBelow(INT_MIN - 1);
    assert CalendarField(SECONDS, 1000) == 1;
    assert Advance(INT_MIN, 1) == INT_MAX;
  }

  /** The calendar fields of an instant written as day, hour, minute, second and millisecond. */
  lemma FieldsOfAt(day: int, hour: nat, minute: nat, second: nat, millis: nat)
    requires hour < 24 && minute < 60 && second < 60 && millis < 1000
    ensures var t := At(day * MILLIS_PER_DAY, hour, minute, second, millis);
      && t / MILLIS_PER_DAY == day && HourOfDay(t) == hour && Minute(t) == minute
      && Second(t) == second && Millisecond(t) == millis
  {
    var t := At(day * MILLIS_PER_DAY, hour, minute, second, millis);
    var hours := day * 24 + hour;
    var minutes := hours * 60 + minute;
    var seconds := minutes * 60 + second;
    DivModUnique(t, MILLIS_PER_SECOND, seconds, millis);
    DivModUnique(seconds, 60, minutes, second);
    DivModUnique(t, MILLIS_PER_MINUTE, minutes, second * 1000 + millis);
    DivModUnique(minutes, 60, hours, minute);
    DivModUnique(t, MILLIS_PER_HOUR, hours, minute * MILLIS_PER_MINUTE + second * 1000 + millis);
    DivModUnique(hours, 24, day, hour);
    DivModUnique(t, MILLIS_PER_DAY, day, hour * MILLIS_PER_HOUR + minute * MILLIS_PER_MINUTE + second * 1000 + millis);
  }

  /** 18:15:01.123 on 12 June 2019 prints as 2019-06-12T18:15:01. */
  lemma FormatDateExample()
    ensures FormatDate(Some(At(JUNE_12_2019, 18, 15, 1, 123))) == "2019-06-12T18:15:01"
  {
    var t := At(JUNE_12_2019, 18, 15, 1, 123);
    FieldsOfAt(18059, 18, 15, 1, 123);
    DateTextExample();
    ClockTextExample(t);
    assert "2019-06-12" + "T" + "18:15:01" == "2019-06-12T18:15:01";
  }

  lemma DateTextExample()
    ensures CalendarDateText(18059) == "2019-06-12"
  {
    CivilDateExample();
    assert FourDigitYear(2019) == "2019" by {
      assert NatToString(2019) == "2019" by {
        assert NatToString(2) == "2";
        assert NatToString(20) == "20";
        assert NatToString(201) == "201";
      }
    }
    assert TwoDigits(6) == "06" && TwoDigits(12) == "12";
  }

  lemma ClockTextExample(t: Instant)
    requires HourOfDay(t) == 18 && Minute(t) == 15 && Second(t) == 1
    ensures ClockText(t) == "18:15:01"
  {
    assert TwoDigits(18) == "18" && TwoDigits(15) == "15" && TwoDigits(1) == "01";
  }

  /** Day 18059 of the epoch is 12 June 2019. */
  lemma CivilDateExample()
    ensures CivilFromDays(18059) == (2019, 6, 12)
  {
    assert 737527 / 146097 == 5 && 737527 - 5 * 146097 == 7042;
    assert 7042 / 1460 == 4 && 7042 / 36524 == 0 && 7042 / 146096 == 0;
    assert 7038 / 365 == 19 && 19 / 4 == 4 && 19 / 100 == 0;
    assert 7042 - (365 * 19 + 4 - 0) == 103;
    assert (5 * 103 + 2) / 153 == 3 && (153 * 3 + 2) / 5 == 92;
  }
}
