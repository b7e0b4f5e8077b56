/** Trip records. A `RawTrip` holds what the program extracts from one CSV row
    once the two timestamps are parsed: the month, pandas weekday (Monday is 0)
    and hour of the start time, the duration End Time - Start Time in whole
    seconds, and the text columns. A `Trip` is the row after the derived
    columns "Month", "Day", "Start Hour", "Travel Time" and "Travel Minutes"
    are added. */
module Trips {
  import opened Wrappers
  import opened Tables

  type MonthNumber = m: int | 1 <= m <= 12 witness 1
  /** `Series.dt.weekday`: Monday is 0, Sunday is 6. */
  type PandasWeekday = w: int | 0 <= w <= 6
  /** The program's weekday numbering: Monday is 1, Sunday is 7. */
  type Weekday = d: int | 1 <= d <= 7 witness 1
  type HourOfDay = h: int | 0 <= h <= 23

  datatype RawTrip = RawTrip(
    month: MonthNumber,
    weekday: PandasWeekday,
    hour: HourOfDay,
    startStation: string,
    endStation: string,
    userType: Option<string>,
    gender: Option<string>,
    birthYear: Option<int>,
    durationSeconds: int)

  datatype Trip = Trip(
    month: MonthNumber,
    day: Weekday,
    hour: HourOfDay,
    startStation: string,
    endStation: string,
    userType: Option<string>,
    gender: Option<string>,
    birthYear: Option<int>,
    travelSeconds: int)

  const SecondsPerMinute := 60

  /** `total_seconds().div(60).astype(int)`: the cast truncates toward zero, so a
      negative duration rounds up, unlike Dafny's Euclidean division. */
  function MinutesOf(seconds: int): (m: int)
    ensures seconds >= 0 ==> 0 <= SecondsPerMinute * m <= seconds < SecondsPerMinute * m + SecondsPerMinute
    ensures seconds < 0 ==> SecondsPerMinute * m - SecondsPerMinute < seconds <= SecondsPerMinute * m <= 0
  {
    if seconds >= 0 then seconds / SecondsPerMinute else -((-seconds) / SecondsPerMinute)
  }

  /** The "Travel Minutes" column of a trip. */
  function TravelMinutes(t: Trip): (minutes: int) {
    MinutesOf(t.travelSeconds)
  }

  /** Adds the derived columns to a row. A column the file does not have reads
      as missing in every row. */
  function Derive(r: RawTrip, hasGender: bool, hasBirthYear: bool): (t: Trip) {
    Trip(r.month, r.weekday + 1, r.hour, r.startStation, r.endStation, r.userType,
         if hasGender then r.gender else None,
         if hasBirthYear then r.birthYear else None,
         r.durationSeconds)
  }

  /** The derived weekday is one more than pandas' weekday, so it is a real
      weekday key of the day table (never the "all weekdays" key 0), and the
      month is a real month key of the month table. */
  lemma DerivedKeysInTables(r: RawTrip, hasGender: bool, hasBirthYear: bool)
    ensures Derive(r, hasGender, hasBirthYear).day == r.weekday + 1
    ensures Derive(r, hasGender, hasBirthYear).day in DayNames && Derive(r, hasGender, hasBirthYear).day != 0
    ensures Derive(r, hasGender, hasBirthYear).month in MonthNames && Derive(r, hasGender, hasBirthYear).month != 0
  {
  }
}
