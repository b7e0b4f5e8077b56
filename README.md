# US bikeshare explorer: a Dafny model

The program asks for a city, a month and a weekday. It loads the matching trip records from CSV files. It can show an excerpt of the data and a report of missing values. It then prints statistics: the most popular month, weekday and start hour, the most popular start station, end station and trip, the total travel time, and user-type, gender and birth-year figures.

This project models that core in `bikeshare.py` on abstract data. A trip is a record of the fields the program extracts from a CSV row. The data set is a sequence of trips. pandas operations are modelled as functions over sequences.

- `wrappers.dfy` (`Wrappers`): `Option`, for the results of calls that raise in the program.
- `text.dfy` (`Text`): `str.lower()`, `str.replace()` and the `answer.lower() == "yes"` test.
- `tables.dfy` (`Tables`): the `cities`, `months`, `days` and statistics-menu dictionaries and the prompt ranges.
- `trips.dfy` (`Trips`): raw and derived trip records, with weekday + 1 and "Travel Minutes" truncated toward zero.
- `filtering.dfy` (`Filtering`): the three `df.loc[mask]` masks and the four-branch month/weekday filter.
- `loading.dfy` (`Loading`): the city-to-file rule, `pd.concat` of the files and `load_data`.
- `orders.dfy` (`Orders`): the sort orders pandas uses to break ties: integers, strings by code point, and pairs of strings.
- `statistics.dfy` (`Statistics`): `mode()[0]`, `groupby(...).size().idxmax()`, the sums, `value_counts()`, and the birth-year min, max and mode.
- `prompts.dfy` (`Prompts`): the `while True` input loops of `get_filters` and `main`, as methods.
- `display.dfy` (`Display`): the per-column missing-value loop and the "5 more rows" pager of `display_data`, as methods.

## Model

| member | source | states |
|---|---|---|
| `Text.YesInAnyCase` | bikeshare.py:132 | an answer counts as "yes" iff it is y, e, s in any mix of cases |
| `Tables.CityRangeMatchesTable` | bikeshare.py:27 | the city prompt accepts n iff n is a key of `cities` (0..3) |
| `Tables.MonthRangeMatchesTable` | bikeshare.py:37 | the month prompt accepts n iff n is a key of `months` (0..12) |
| `Tables.DayRangeMatchesTable` | bikeshare.py:47 | the weekday prompt accepts n iff n is a key of `days` (0..7) |
| `Tables.StatisticRangeMatchesTable` | bikeshare.py:297 | the statistics prompt accepts n iff n is a key of the statistics menu (0..5) |
| `Trips.MinutesOf` | bikeshare.py:93 | the minutes are the seconds divided by 60, truncated toward zero: a lower bound within one minute for a non-negative duration, an upper bound within one minute for a negative one |
| `Trips.DerivedKeysInTables` | bikeshare.py:89-90 | the derived weekday is pandas' weekday + 1, and it and the month are keys of `days` and `months` other than the "all" key 0 |
| `Filtering.WhereSpec` | bikeshare.py:97-101 | `df.loc[mask]` is a subsequence of the rows; a selected row keeps all its occurrences, any other row has none |
| `Filtering.FilterSpec` | bikeshare.py:96-101 | the four branches keep a row iff `(month == 0 or row.month == month) and (day == 0 or row.day == day)`; the result is an order-preserving subsequence with exactly the occurrences of the kept rows |
| `Filtering.FilterNoneIsIdentity` | bikeshare.py:96-103 | with month 0 and weekday 0 the data is returned unchanged |
| `Filtering.FilterIdempotent` | bikeshare.py:96-103 | filtering the filtered data again with the same choices changes nothing |
| `Filtering.FilterMonthThenDay` | bikeshare.py:96-101 | filtering by month and then by weekday equals the combined branch |
| `Filtering.FilterAppend` | bikeshare.py:96-101 | filtering joined data equals joining the filtered parts |
| `Loading.ChicagoFileName` | bikeshare.py:82 | city 1 reads `chicago.csv` |
| `Loading.NewYorkCityFileName` | bikeshare.py:82 | city 2 reads `new_york_city.csv` |
| `Loading.WashingtonFileName` | bikeshare.py:82 | city 3 reads `washington.csv` |
| `Loading.AllCitiesAreTheCityFiles` | bikeshare.py:79-82 | the file list for "all cities" is exactly the per-city file names, in city order |
| `Loading.ReadFiles` | bikeshare.py:80 | reading succeeds iff every named file exists, and then yields those files in order |
| `Loading.LoadData` | bikeshare.py:67-103 | `load_data` fails iff a needed file is missing; otherwise it keeps the joined columns and the rows that obey the filter rule, in order, with all their occurrences |
| `Loading.AllCitiesJoinsEachCity` | bikeshare.py:79-82 | city 0 yields the filtered rows of Chicago, New York City and Washington one after another |
| `Orders.IntLessIsOrder` | bikeshare.py:149 | `<` on integers is a strict total order, as a tie-break needs |
| `Orders.StrLessIsOrder` | bikeshare.py:171 | Python's string order, by code point with a prefix first, is a strict total order |
| `Orders.PairLessIsOrder` | bikeshare.py:179 | the lexicographic order on (start, end) pairs is a strict total order |
| `Statistics.Pick` | bikeshare.py:149 | the chosen value occurs, no value occurs more often, and it is the least of those occurring as often |
| `Statistics.Mode` | bikeshare.py:149 | `mode()[0]` raises on an empty column; otherwise it is a most frequent value and the smallest of the tied ones |
| `Statistics.ModeIsUnique` | bikeshare.py:149 | at most one value meets the mode's definition, so the statistic depends on the column alone |
| `Statistics.PopularMonth` | bikeshare.py:149 | the most popular month exists iff there are rows; it is the mode of the months and a key of `months` other than 0 |
| `Statistics.PopularMonthOfMonthFilter` | bikeshare.py:149 | after a month filter with rows left, the most popular month is the chosen month |
| `Statistics.PopularWeekday` | bikeshare.py:153 | the most popular weekday exists iff there are rows; it is the mode of the weekdays and a key of `days` other than 0 |
| `Statistics.PopularWeekdayOfDayFilter` | bikeshare.py:153 | after a weekday filter with rows left, the most popular weekday is the chosen weekday |
| `Statistics.PopularStartHour` | bikeshare.py:157 | the most popular start hour exists iff there are rows; it is the mode of the hours, in 0..23 |
| `Statistics.PopularStartStation` | bikeshare.py:171 | the most popular start station is the mode, ties going to the smallest name |
| `Statistics.PopularEndStation` | bikeshare.py:175 | the most popular end station is the mode, ties going to the smallest name |
| `Statistics.PopularTrip` | bikeshare.py:179 | the most popular trip is a (start, end) pair of some row; no pair is more frequent, and it is the smallest of the most frequent pairs |
| `Statistics.TotalTravelMinutesAppend` | bikeshare.py:201 | the total minutes of joined data are the sum of the parts' totals |
| `Statistics.TotalTravelMinutesBounds` | bikeshare.py:201 | with no negative durations, the total minutes times 60 fall short of the total seconds by at most 59 per trip |
| `Statistics.TotalMinutesIsNotMinutesOfTotal` | bikeshare.py:201 | the total is the sum of the per-trip truncations, not the truncated total duration: two 30-second trips give 0, not 1 |
| `Statistics.ValueCounts` | bikeshare.py:220 | `value_counts()` maps exactly the values that occur, missing ones skipped, to their numbers of occurrences |
| `Statistics.UserTypeCounts` | bikeshare.py:220 | the user-type counts have a key per user type of some row, with its count |
| `Statistics.GenderCounts` | bikeshare.py:230-231 | gender counts exist iff the data has a Gender column, and are then the counts of each gender |
| `Statistics.EarliestBirthYear` | bikeshare.py:244 | the minimum skips missing cells; it fails iff every cell is missing, and is otherwise a present year no later than any other |
| `Statistics.LatestBirthYear` | bikeshare.py:245 | the maximum skips missing cells; it fails iff every cell is missing, and is otherwise a present year no earlier than any other |
| `Statistics.Present` | bikeshare.py:246 | dropping missing cells keeps each present year with its number of occurrences |
| `Statistics.CommonBirthYear` | bikeshare.py:246-250 | converting the mode with `int` succeeds only for a year strictly more frequent than every other year; when it fails, every present year is matched or beaten by another |
| `Prompts.ReadChoice` | bikeshare.py:24-31 | the loop returns the first reply that parses as an integer in 0..max, and every earlier reply was rejected; if the replies run out, nothing is accepted |
| `Prompts.GetFilters` | bikeshare.py:10-64 | the city is the first reply accepted for 0..3, the month the first later reply accepted for 0..12, the weekday the first reply after that accepted for 0..7, and the excerpt answer the next reply; each is a key of its table; the result is `None` exactly when no such chain of replies exists |
| `Prompts.ReadStatistic` | bikeshare.py:294-301 | the statistics choice is the first acceptable reply and is a key of the statistics menu; if none is acceptable nothing is chosen |
| `Display.ColumnTotalsCountCells` | bikeshare.py:115 | `df.isnull().sum().sum()` equals the number of missing cells counted row by row |
| `Display.CountMissing` | bikeshare.py:115-119 | the total is the number of missing cells; the dictionary has one key per column, mapped to that column's missing count |
| `Display.Prefix` | bikeshare.py:133 | `iloc[:n]` is a prefix of the rows, of length n or all rows when fewer |
| `Display.Pager` | bikeshare.py:128-136 | after the k-th "yes" the pager shows the first 5 + 5k rows, a prefix, and `start_loc` is 5 + 5k; it stops at the first answer that is not "yes" |
| `Display.PagesGrow` | bikeshare.py:133-134 | each page extends the previous one by at most five rows |
| `Display.DisplayData` | bikeshare.py:105-139 | nothing is shown and no answer is read unless the excerpt answer is "yes"; otherwise the missing-value report and the first five rows are shown, page k is the first 5 + 5(k+1) rows after k+1 "yes" answers, and paging stops at the first answer that is not "yes" |

## Left out

- Reading CSV files (`pd.read_csv`) is not modelled. The working directory is a map from file names to already parsed files.
- Parsing timestamps (`pd.to_datetime` and the `.dt` accessors) is not modelled. A raw trip carries the start month, pandas weekday, start hour and the duration.
- Durations are whole seconds. Fractional seconds and the floating-point division before truncation are not modelled.
- Birth years are whole numbers. The float column that pandas reads because of missing cells, and `int()`'s truncation of the min, max and mode, are not modelled.
- Python's `int()` parsing of a reply is not modelled. Each reply carries the number `int()` would produce, or none.
- `str.lower()` is modelled on ASCII letters only.
- The program waits forever, or gets `EOFError`, when input runs out. The prompt methods instead return `None`, and the pager stops.
- Only user type, gender and birth year can be missing. Missing stations or times, and `groupby`'s dropping of missing keys, are not modelled.
- The `"Birth Year" in df.columns` test is not modelled on its own. The birth-year functions take the column, and Gender's presence test is modelled by `Statistics.GenderCounts`.
- The CSV files' other columns (the unnamed index, Trip Duration) are not part of `Display.ColumnsOf`.
- Printing and string formatting are not modelled. This covers the excerpt rows, which are computed but not rendered.
- The Plotly pie charts and `fig.show()` are not modelled: they are a browser side effect.
- The elapsed-time printing with `time.time()` is not modelled: it reads a clock.
- The mean travel time is not modelled: it is a floating-point Timedelta mean.
- `revenue` is not modelled: it multiplies by a user-entered float price.
- The dispatch on the statistics choice and the restart loop of `main` are not modelled.
- The `NameError` when statistic 5 is chosen alone is not modelled: `travel_time_minutes` is then undefined.
- The positional `user_types[0]`, `user_types[1]` and `gender_types[0]`, `gender_types[1]` are not modelled. They depend on pandas' label and position indexing and on the data's contents. The counts themselves are modelled as maps.
