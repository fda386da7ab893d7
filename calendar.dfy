/**
 * Calendar construction: turning a field table into a validated timestamp,
 * with defaults for absent fields and the 12-hour clock conversion.
 */
module Calendar {
  import opened Common
  import opened Lexing

  /** The timestamp a parse yields; the fields `checkDate` and `checkTime` read. */
  datatype DateTime = DateTime(year: int, month: int, day: int, hour: int, minute: int, second: int)

  /** Leap years of the proleptic Gregorian calendar. */
  predicate IsLeapYear(y: int)
  {
    y % 4 == 0 && (y % 100 != 0 || y % 400 == 0)
  }

  function DaysInMonth(y: int, m: int): (n: nat)
    requires 1 <= m <= 12
    ensures 28 <= n <= 31
    ensures n == 29 <==> m == 2 && IsLeapYear(y)
    ensures n == 28 <==> m == 2 && !IsLeapYear(y)
  {
    if m == 2 then (if IsLeapYear(y) then 29 else 28)
    else if m == 4 || m == 6 || m == 9 || m == 11 then 30
    else 31
  }

  /** A real calendar date and a time of day. */
  predicate Valid(dt: DateTime)
  {
    && 1 <= dt.month <= 12
    && 1 <= dt.day <= DaysInMonth(dt.year, dt.month)
    && 0 <= dt.hour < 24
    && 0 <= dt.minute < 60
    && 0 <= dt.second < 60
  }

  /** The hour of the 24-hour clock that an hour of the 12-hour clock names
      in the given half of the day: 12am is 0 and 12pm is 12. */
  function To24Hour(h12: nat, half: nat): (h: nat)
    requires 1 <= h12 <= 12 && half in {AM, PM}
    ensures h < 24
    ensures h >= 12 <==> half == PM
    ensures h % 12 == h12 % 12
  {
    if half == AM then (if h12 == 12 then 0 else h12)
    else (if h12 == 12 then 12 else h12 + 12)
  }

  /** The 12-hour clock reading of an hour of the 24-hour clock. */
  function From24Hour(h: nat): (r: (nat, nat))
    requires h < 24
    ensures 1 <= r.0 <= 12 && r.1 in {AM, PM}
  {
    var half := if h < 12 then AM else PM;
    var h12 := if h % 12 == 0 then 12 else h % 12;
    (h12, half)
  }

  /** The two clocks name the same hours: each conversion inverts the other. */
  lemma ClockRoundTrip(h: nat, h12: nat, half: nat)
    requires h < 24 && 1 <= h12 <= 12 && half in {AM, PM}
    ensures To24Hour(From24Hour(h).0, From24Hour(h).1) == h
    ensures From24Hour(To24Hour(h12, half)) == (h12, half)
  {
  }

  function Get(t: Table, k: Kind, default: nat): nat
  {
    if k in t then t[k] else default
  }

  /** The half of the day the table names; am when no `%p` was captured. */
  function HalfOf(t: Table): (half: nat)
    ensures half in {AM, PM}
    ensures Meridiem in t && t[Meridiem] in {AM, PM} ==> half == t[Meridiem]
    ensures Meridiem !in t ==> half == AM
  {
    if Meridiem in t && t[Meridiem] == PM then PM else AM
  }

  /** Builds the timestamp from the captured fields. The year defaults to 0,
      month and day to 1, the time of day to midnight. A `%H` hour is taken
      as it is; otherwise a `%I` hour is converted with the meridiem and must
      lie in 1..12 (so `00` is rejected). Every value must be in its
      calendar range, the day checked against its month and year: a value
      out of range is an error, never carried into the next unit. */
  function Build(t: Table): (r: Result<DateTime>)
    ensures r.Ok? ==> Valid(r.value)
    ensures r.Ok? ==> && r.value.year == Get(t, Year, 0)
                      && r.value.month == Get(t, Month, 1)
                      && r.value.day == Get(t, Day, 1)
                      && r.value.minute == Get(t, Minute, 0)
                      && r.value.second == Get(t, Second, 0)
    ensures r.Ok? && Hour24 in t ==> r.value.hour == t[Hour24]
    ensures r.Ok? && Hour24 !in t && Hour12 in t ==>
              1 <= t[Hour12] <= 12 && r.value.hour == To24Hour(t[Hour12], HalfOf(t))
    ensures r.Ok? && Hour24 !in t && Hour12 !in t ==> r.value.hour == 0
    ensures r.Err? ==> r.error.OutOfRange?
  {
    var year, month, day := Get(t, Year, 0), Get(t, Month, 1), Get(t, Day, 1);
    var minute, second := Get(t, Minute, 0), Get(t, Second, 0);
    if !(1 <= month <= 12) then Err(OutOfRange(Month))
    else if Hour24 !in t && Hour12 in t && !(1 <= t[Hour12] <= 12) then Err(OutOfRange(Hour12))
    else
      var hour := if Hour24 in t then t[Hour24]
                  else if Hour12 in t then To24Hour(t[Hour12], HalfOf(t))
                  else 0;
      if hour >= 24 then Err(OutOfRange(Hour24))
      else if minute >= 60 then Err(OutOfRange(Minute))
      else if second >= 60 then Err(OutOfRange(Second))
      else if !(1 <= day <= DaysInMonth(year, month)) then Err(OutOfRange(Day))
      else Ok(DateTime(year, month, day, hour, minute, second))
  }

  /** The converse of `Build`'s contract: a valid timestamp whose fields are
      the ones the table holds, or their defaults, is exactly what `Build`
      makes of the table. */
  lemma BuildExact(t: Table, dt: DateTime)
    requires Valid(dt)
    requires Get(t, Year, 0) == dt.year && Get(t, Month, 1) == dt.month && Get(t, Day, 1) == dt.day
    requires Get(t, Minute, 0) == dt.minute && Get(t, Second, 0) == dt.second
    requires Hour24 in t ==> t[Hour24] == dt.hour
    requires Hour24 !in t && Hour12 in t ==> 1 <= t[Hour12] <= 12 && To24Hour(t[Hour12], HalfOf(t)) == dt.hour
    requires Hour24 !in t && Hour12 !in t ==> dt.hour == 0
    ensures Build(t) == Ok(dt)
  {
  }

  /** Every valid timestamp with a non-negative year is built back from its
      own fields, whether the hour was captured on the 24-hour clock or as
      a 12-hour clock reading with its meridiem. */
  lemma BuildRecovers(dt: DateTime)
    requires Valid(dt) && dt.year >= 0
    ensures Build(map[Year := dt.year, Month := dt.month, Day := dt.day,
                      Hour24 := dt.hour, Minute := dt.minute, Second := dt.second]) == Ok(dt)
    ensures Build(map[Year := dt.year, Month := dt.month, Day := dt.day,
                      Hour12 := From24Hour(dt.hour).0, Meridiem := From24Hour(dt.hour).1,
                      Minute := dt.minute, Second := dt.second]) == Ok(dt)
  {
    ClockRoundTrip(dt.hour, 12, AM);
  }

  /** A day past the end of its month is rejected, not rolled over. */
  lemma DayIsNotRolledOver(t: Table)
    requires Day in t && 1 <= Get(t, Month, 1) <= 12
    requires t[Day] > DaysInMonth(Get(t, Year, 0), Get(t, Month, 1))
    ensures Build(t).Err?
  {
  }
}
