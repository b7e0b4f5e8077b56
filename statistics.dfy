/** The statistics of `time_stats`, `station_stats`, `trip_duration_stats`
    and `user_stats`, as functions of the rows of the filtered data frame.
    Each pandas reduction that raises on an empty or all-missing column
    returns `None` here. */
module Statistics {
  import opened Wrappers
  import opened Tables
  import opened Orders
  import opened Trips
  import opened Loading
  import opened Filtering

  /** `m` is the value `Series.mode()[0]` returns: it occurs in the column, no
      value occurs more often, and it is the smallest of the values that occur
      as often as it does (pandas returns the tied values sorted). */
  ghost predicate IsMode<T>(col: seq<T>, m: T, lt: (T, T) -> bool) {
    m in col &&
    (forall x :: x in col ==> multiset(col)[x] <= multiset(col)[m]) &&
    (forall x :: x in col && multiset(col)[x] == multiset(col)[m] ==> x == m || lt(m, x))
  }

  /** The best candidate in `col`, counting occurrences in `all`. */
  function Pick<T(==,!new)>(all: seq<T>, col: seq<T>, lt: (T, T) -> bool): (m: T)
    requires |col| > 0
    requires StrictTotalOrder(lt)
    ensures m in col
    ensures forall x :: x in col ==> multiset(all)[x] <= multiset(all)[m]
    ensures forall x :: x in col && multiset(all)[x] == multiset(all)[m] ==> x == m || lt(m, x)
  {
    if |col| == 1 then col[0]
    else
      var best := Pick(all, col[1..], lt);
      assert forall x :: x in col ==> x == col[0] || x in col[1..];
      if multiset(all)[col[0]] > multiset(all)[best] ||
         (multiset(all)[col[0]] == multiset(all)[best] && lt(col[0], best))
      then col[0]
      else best
  }

  /** `Series.mode()[0]`; an empty column has no mode and indexing it raises. */
  function Mode<T(==,!new)>(col: seq<T>, lt: (T, T) -> bool): (r: Option<T>)
    requires StrictTotalOrder(lt)
    ensures r.None? <==> col == []
    ensures r.Some? ==> IsMode(col, r.value, lt)
  {
    if col == [] then None else Some(Pick(col, col, lt))
  }

  /** Under a strict total order at most one value is the mode, so the
      statistic is determined by the column alone. */
  lemma ModeIsUnique<T(!new)>(col: seq<T>, a: T, b: T, lt: (T, T) -> bool)
    requires StrictTotalOrder(lt)
    requires IsMode(col, a, lt) && IsMode(col, b, lt)
    ensures a == b
  {
  }

  // The columns the statistics read.

  function Months(rows: seq<Trip>): (c: seq<int>)
    ensures |c| == |rows| && forall i :: 0 <= i < |rows| ==> c[i] == rows[i].month
  {
    seq(|rows|, i requires 0 <= i < |rows| => rows[i].month as int)
  }

  function Weekdays(rows: seq<Trip>): (c: seq<int>)
    ensures |c| == |rows| && forall i :: 0 <= i < |rows| ==> c[i] == rows[i].day
  {
    seq(|rows|, i requires 0 <= i < |rows| => rows[i].day as int)
  }

  function StartHours(rows: seq<Trip>): (c: seq<int>)
    ensures |c| == |rows| && forall i :: 0 <= i < |rows| ==> c[i] == rows[i].hour
  {
    seq(|rows|, i requires 0 <= i < |rows| => rows[i].hour as int)
  }

  function StartStations(rows: seq<Trip>): (c: seq<string>)
    ensures |c| == |rows| && forall i :: 0 <= i < |rows| ==> c[i] == rows[i].startStation
  {
    seq(|rows|, i requires 0 <= i < |rows| => rows[i].startStation)
  }

  function EndStations(rows: seq<Trip>): (c: seq<string>)
    ensures |c| == |rows| && forall i :: 0 <= i < |rows| ==> c[i] == rows[i].endStation
  {
    seq(|rows|, i requires 0 <= i < |rows| => rows[i].endStation)
  }

  function Routes(rows: seq<Trip>): (c: seq<(string, string)>)
    ensures |c| == |rows| && forall i :: 0 <= i < |rows| ==> c[i] == (rows[i].startStation, rows[i].endStation)
  {
    seq(|rows|, i requires 0 <= i < |rows| => (rows[i].startStation, rows[i].endStation))
  }

  function UserTypes(rows: seq<Trip>): (c: seq<Option<string>>)
    ensures |c| == |rows| && forall i :: 0 <= i < |rows| ==> c[i] == rows[i].userType
  {
    seq(|rows|, i requires 0 <= i < |rows| => rows[i].userType)
  }

  function Genders(rows: seq<Trip>): (c: seq<Option<string>>)
    ensures |c| == |rows| && forall i :: 0 <= i < |rows| ==> c[i] == rows[i].gender
  {
    seq(|rows|, i requires 0 <= i < |rows| => rows[i].gender)
  }

  function BirthYears(rows: seq<Trip>): (c: seq<Option<int>>)
    ensures |c| == |rows| && forall i :: 0 <= i < |rows| ==> c[i] == rows[i].birthYear
  {
    seq(|rows|, i requires 0 <= i < |rows| => rows[i].birthYear)
  }

  // time_stats

  /** The most popular month is a month of some trip, hence a key of the month
      table other than "all months"; no month is more frequent and it is the
      earliest of the equally frequent ones. */
  function PopularMonth(rows: seq<Trip>): (r: Option<int>)
    ensures r.None? <==> rows == []
    ensures r.Some? ==> r.value in MonthNames && r.value != 0 && IsMode(Months(rows), r.value, IntLess)
  {
    IntLessIsOrder();
    var r := Mode(Months(rows), IntLess);
    assert r.Some? ==> exists i :: 0 <= i < |rows| && rows[i].month == r.value;
    r
  }

  /** The most popular weekday, a key of the weekday table other than "all
      weekdays". */
  function PopularWeekday(rows: seq<Trip>): (r: Option<int>)
    ensures r.None? <==> rows == []
    ensures r.Some? ==> r.value in DayNames && r.value != 0 && IsMode(Weekdays(rows), r.value, IntLess)
  {
    IntLessIsOrder();
    var r := Mode(Weekdays(rows), IntLess);
    assert r.Some? ==> exists i :: 0 <= i < |rows| && rows[i].day == r.value;
    r
  }

  function PopularStartHour(rows: seq<Trip>): (r: Option<int>)
    ensures r.None? <==> rows == []
    ensures r.Some? ==> 0 <= r.value <= 23 && IsMode(StartHours(rows), r.value, IntLess)
  {
    IntLessIsOrder();
    var r := Mode(StartHours(rows), IntLess);
    assert r.Some? ==> exists i :: 0 <= i < |rows| && rows[i].hour == r.value;
    r
  }

  /** With a month chosen, every remaining trip is in that month, so the most
      popular month can only be the chosen one. */
  lemma PopularMonthOfMonthFilter(rows: seq<Trip>, month: int, day: int)
    requires month != 0 && FilterByMonthAndDay(rows, month, day) != []
    ensures PopularMonth(FilterByMonthAndDay(rows, month, day)) == Some(month)
  {
    var kept := FilterByMonthAndDay(rows, month, day);
    FilterSpec(rows, month, day);
    var m := PopularMonth(kept).value;
    var i :| 0 <= i < |kept| && Months(kept)[i] == m;
    assert kept[i] in kept;
  }

  /** With a weekday chosen, the most popular weekday is the chosen one. */
  lemma PopularWeekdayOfDayFilter(rows: seq<Trip>, month: int, day: int)
    requires day != 0 && FilterByMonthAndDay(rows, month, day) != []
    ensures PopularWeekday(FilterByMonthAndDay(rows, month, day)) == Some(day)
  {
    var kept := FilterByMonthAndDay(rows, month, day);
    FilterSpec(rows, month, day);
    var d := PopularWeekday(kept).value;
    var i :| 0 <= i < |kept| && Weekdays(kept)[i] == d;
    assert kept[i] in kept;
  }

  // station_stats

  function PopularStartStation(rows: seq<Trip>): (r: Option<string>)
    ensures r.None? <==> rows == []
    ensures r.Some? ==> IsMode(StartStations(rows), r.value, StrLess)
  {
    StrLessIsOrder();
    Mode(StartStations(rows), StrLess)
  }

  function PopularEndStation(rows: seq<Trip>): (r: Option<string>)
    ensures r.None? <==> rows == []
    ensures r.Some? ==> IsMode(EndStations(rows), r.value, StrLess)
  {
    StrLessIsOrder();
    Mode(EndStations(rows), StrLess)
  }

  /** `groupby([start, end]).size().idxmax()`: group keys come out sorted and
      `idxmax` takes the first largest group, so the result is the
      lexicographically smallest of the most frequent (start, end) pairs. */
  function PopularTrip(rows: seq<Trip>): (r: Option<(string, string)>)
    ensures r.None? <==> rows == []
    ensures r.Some? ==> IsMode(Routes(rows), r.value, PairLess)
    ensures r.Some? ==> exists i :: 0 <= i < |rows| && rows[i].startStation == r.value.0 && rows[i].endStation == r.value.1
  {
    PairLessIsOrder();
    Mode(Routes(rows), PairLess)
  }

  // trip_duration_stats

  /** `df["Travel Time"].sum()`, in seconds. */
  function TotalTravelSeconds(rows: seq<Trip>): (total: int) {
    if rows == [] then 0 else rows[0].travelSeconds + TotalTravelSeconds(rows[1..])
  }

  /** `df["Travel Minutes"].sum()`: the sum of the per-trip truncated minutes. */
  function TotalTravelMinutes(rows: seq<Trip>): (total: int) {
    if rows == [] then 0 else TravelMinutes(rows[0]) + TotalTravelMinutes(rows[1..])
  }

  /** The total over joined data sets is the sum of the totals, so the total
      for "all cities" is the sum of the three cities' totals. */
  lemma {:induction false} TotalTravelMinutesAppend(a: seq<Trip>, b: seq<Trip>)
    ensures TotalTravelMinutes(a + b) == TotalTravelMinutes(a) + TotalTravelMinutes(b)
  {
    if a == [] {
      assert a + b == b;
    } else {
      assert (a + b)[1..] == a[1..] + b;
      TotalTravelMinutesAppend(a[1..], b);
    }
  }

  /** When no trip ends before it starts, the reported minutes undercount the
      true travel time by less than a minute per trip. */
  lemma {:induction false} TotalTravelMinutesBounds(rows: seq<Trip>)
    requires forall i :: 0 <= i < |rows| ==> rows[i].travelSeconds >= 0
    ensures 0 <= TotalTravelSeconds(rows) - SecondsPerMinute * TotalTravelMinutes(rows) <= (SecondsPerMinute - 1) * |rows|
  {
    if rows != [] {
      TotalTravelMinutesBounds(rows[1..]);
    }
  }

  /** The reported total is not the total duration converted to minutes: two
      trips of 30 seconds report 0 minutes although together they last one
      minute. */
  lemma TotalMinutesIsNotMinutesOfTotal()
    ensures exists rows: seq<Trip> ::
      TotalTravelMinutes(rows) == 0 && MinutesOf(TotalTravelSeconds(rows)) == 1
  {
    var t := Trip(1, 1, 0, "A", "B", None, None, None, 30);
    var rows := [t, t];
    assert rows[1..] == [t] && [t][1..] == [];
    assert MinutesOf(30) == 0 && MinutesOf(60) == 1;
    assert TotalTravelSeconds([t]) == 30 && TotalTravelMinutes([t]) == 0;
    assert TotalTravelSeconds(rows) == 60;
    assert TotalTravelMinutes(rows) == 0;
  }

  // user_stats

  /** `Series.value_counts()` as a map: the keys are the values that occur
      (missing cells are skipped) and each maps to its number of occurrences. */
  function ValueCounts(col: seq<Option<string>>): (m: map<string, nat>)
    ensures forall v :: v in m <==> Some(v) in col
    ensures forall v :: v in m ==> m[v] == multiset(col)[Some(v)]
  {
    if col == [] then map[]
    else
      var rest := ValueCounts(col[1..]);
      assert col == [col[0]] + col[1..];
      match col[0]
      case None => rest
      case Some(v) => rest[v := (if v in rest then rest[v] else 0) + 1]
  }

  function UserTypeCounts(rows: seq<Trip>): (m: map<string, nat>)
    ensures forall v :: v in m <==> exists i :: 0 <= i < |rows| && rows[i].userType == Some(v)
    ensures forall v :: v in m ==> m[v] == multiset(UserTypes(rows))[Some(v)]
  {
    ValueCounts(UserTypes(rows))
  }

  /** The gender counts, if the data has a Gender column. */
  function GenderCounts(frame: Frame): (r: Option<map<string, nat>>)
    ensures r.Some? <==> frame.hasGender
    ensures r.Some? ==> forall v :: v in r.value <==> exists i :: 0 <= i < |frame.rows| && frame.rows[i].gender == Some(v)
    ensures r.Some? ==> forall v :: v in r.value ==> r.value[v] == multiset(Genders(frame.rows))[Some(v)]
  {
    if frame.hasGender then Some(ValueCounts(Genders(frame.rows))) else None
  }

  /** `df["Birth Year"].min()`, which skips missing cells; if every cell is
      missing the result is NaN and converting it with `int` raises. */
  function EarliestBirthYear(col: seq<Option<int>>): (r: Option<int>)
    ensures r.None? <==> forall i :: 0 <= i < |col| ==> col[i].None?
    ensures r.Some? ==> Some(r.value) in col && forall i :: 0 <= i < |col| && col[i].Some? ==> r.value <= col[i].value
  {
    if col == [] then None
    else
      var rest := EarliestBirthYear(col[1..]);
      assert forall i :: 1 <= i < |col| ==> col[i] == col[1..][i - 1];
      match col[0]
      case None => rest
      case Some(y) => if rest.Some? && rest.value < y then rest else Some(y)
  }

  /** `df["Birth Year"].max()`, with the same treatment of missing cells. */
  function LatestBirthYear(col: seq<Option<int>>): (r: Option<int>)
    ensures r.None? <==> forall i :: 0 <= i < |col| ==> col[i].None?
    ensures r.Some? ==> Some(r.value) in col && forall i :: 0 <= i < |col| && col[i].Some? ==> col[i].value <= r.value
  {
    if col == [] then None
    else
      var rest := LatestBirthYear(col[1..]);
      assert forall i :: 1 <= i < |col| ==> col[i] == col[1..][i - 1];
      match col[0]
      case None => rest
      case Some(y) => if rest.Some? && rest.value > y then rest else Some(y)
  }

  /** The birth years that are present, in order (`dropna`). */
  function Present(col: seq<Option<int>>): (ys: seq<int>)
    ensures forall y :: multiset(ys)[y] == multiset(col)[Some(y)]
  {
    if col == [] then []
    else
      assert col == [col[0]] + col[1..];
      (if col[0].Some? then [col[0].value] else []) + Present(col[1..])
  }

  /** `int(df["Birth Year"].mode())`: converting the mode series with `int`
      works only when it holds a single value, that is when one birth year is
      strictly more frequent than every other; with no birth year or with a
      tie at the top it raises. */
  function CommonBirthYear(col: seq<Option<int>>): (r: Option<int>)
    ensures r.Some? ==> Some(r.value) in col
    ensures r.Some? ==> forall y :: Some(y) in col && y != r.value ==> multiset(col)[Some(y)] < multiset(col)[Some(r.value)]
    ensures r.None? ==> forall y :: Some(y) in col ==>
      exists z :: z != y && Some(z) in col && multiset(col)[Some(y)] <= multiset(col)[Some(z)]
  {
    IntLessIsOrder();
    var ys := Present(col);
    assert forall y :: y in ys <==> Some(y) in col by {
      forall y ensures y in ys <==> Some(y) in col {
        assert y in ys <==> multiset(ys)[y] > 0;
        assert Some(y) in col <==> multiset(col)[Some(y)] > 0;
      }
    }
    match Mode(ys, IntLess)
    case None => None
    case Some(m) =>
      if forall x :: x in ys ==> x == m || multiset(ys)[x] < multiset(ys)[m] then Some(m)
      else None
  }
}
