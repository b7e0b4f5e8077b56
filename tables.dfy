/** The lookup tables at the top of the program and the numeric ranges its
    prompts accept. The prompts and the tables are written separately in the
    program; the lemmas here show that they agree, so that looking up an
    accepted choice (`cities[city]`, `months[month]`, `days[day]`) never
    fails. */
module Tables {

  const CityNames: map<int, string> :=
    map[0 := "all cities", 1 := "Chicago", 2 := "New York City", 3 := "Washington"]

  const MonthNames: map<int, string> :=
    map[0 := "all months", 1 := "January", 2 := "February", 3 := "March", 4 := "April",
        5 := "May", 6 := "June", 7 := "July", 8 := "August", 9 := "September",
        10 := "October", 11 := "November", 12 := "December"]

  /** Weekday 1 is Monday. The name of day 6 is spelt as the program spells it. */
  const DayNames: map<int, string> :=
    map[0 := "all weekdays", 1 := "Monday", 2 := "Tuesday", 3 := "Wednesday",
        4 := "Thursday", 5 := "Friday", 6 := "Saturady", 7 := "Sunday"]

  const StatisticNames: map<int, string> :=
    map[0 := "All", 1 := "Time Statistics", 2 := "Station Statistics",
        3 := "Trip Duration Statistics", 4 := "User Statistics", 5 := "Revenue"]

  /** Upper bounds of the four numeric prompts. */
  const CityMax := 3
  const MonthMax := 12
  const DayMax := 7
  const StatisticMax := 5

  /** The acceptance test `0 <= n <= max` of every numeric prompt. */
  predicate InRange(n: int, max: int) {
    0 <= n <= max
  }

  lemma CityRangeMatchesTable()
    ensures forall n :: InRange(n, CityMax) <==> n in CityNames
  {
  }

  lemma MonthRangeMatchesTable()
    ensures forall n :: InRange(n, MonthMax) <==> n in MonthNames
  {
  }

  lemma DayRangeMatchesTable()
    ensures forall n :: InRange(n, DayMax) <==> n in DayNames
  {
  }

  lemma StatisticRangeMatchesTable()
    ensures forall n :: InRange(n, StatisticMax) <==> n in StatisticNames
  {
  }
}
