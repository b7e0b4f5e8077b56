/** The month/weekday filter at the end of `load_data`. The program picks one
    of three boolean masks (or none) and keeps the rows the mask selects,
    `df.loc[mask]`, in their original order. */
module Filtering {
  import opened Trips

  /** The three masks the program builds. */
  datatype Mask =
    | MonthAndDay(month: int, day: int)
    | MonthOnly(month: int)
    | DayOnly(day: int)

  predicate Matches(t: Trip, mask: Mask) {
    match mask
    case MonthAndDay(m, d) => t.month == m && t.day == d
    case MonthOnly(m) => t.month == m
    case DayOnly(d) => t.day == d
  }

  /** `df.loc[mask]` */
  function Where(rows: seq<Trip>, mask: Mask): (kept: seq<Trip>) {
    if rows == [] then []
    else (if Matches(rows[0], mask) then [rows[0]] else []) + Where(rows[1..], mask)
  }

  /** The four branches of the filter, in the program's order. Choice 0 means
      "no restriction" for both the month and the weekday. */
  function FilterByMonthAndDay(rows: seq<Trip>, month: int, day: int): (kept: seq<Trip>) {
    if month != 0 && day != 0 then Where(rows, MonthAndDay(month, day))
    else if month != 0 then Where(rows, MonthOnly(month))
    else if day != 0 then Where(rows, DayOnly(day))
    else rows
  }

  /** The single rule the four branches implement. */
  predicate Keep(t: Trip, month: int, day: int) {
    (month == 0 || t.month == month) && (day == 0 || t.day == day)
  }

  /** `a` is `b` with some elements deleted and the rest kept in order. */
  predicate IsSubsequence<T(==)>(a: seq<T>, b: seq<T>)
    decreases |b|
  {
    a == [] ||
    (b != [] && ((a[0] == b[0] && IsSubsequence(a[1..], b[1..])) || IsSubsequence(a, b[1..])))
  }

  lemma {:induction false} WhereIsSubsequence(rows: seq<Trip>, mask: Mask)
    ensures IsSubsequence(Where(rows, mask), rows)
  {
    if rows != [] {
      WhereIsSubsequence(rows[1..], mask);
      var rest := Where(rows[1..], mask);
      if Matches(rows[0], mask) {
        assert Where(rows, mask) == [rows[0]] + rest;
        assert ([rows[0]] + rest)[1..] == rest;
      } else {
        assert Where(rows, mask) == rest;
      }
    }
  }

  lemma {:induction false} WhereCounts(rows: seq<Trip>, mask: Mask)
    ensures forall t :: multiset(Where(rows, mask))[t] == if Matches(t, mask) then multiset(rows)[t] else 0
  {
    if rows != [] {
      WhereCounts(rows[1..], mask);
      assert rows == [rows[0]] + rows[1..];
      assert multiset(rows) == multiset{rows[0]} + multiset(rows[1..]);
      var rest := Where(rows[1..], mask);
      if Matches(rows[0], mask) {
        assert multiset(Where(rows, mask)) == multiset{rows[0]} + multiset(rest);
      } else {
        assert Where(rows, mask) == rest;
      }
    }
  }

  /** `df.loc[mask]` keeps exactly the rows the mask selects: the result is a
      subsequence of the input, and each row occurs in it as often as in the
      input if the mask selects it, and not at all otherwise. */
  lemma WhereSpec(rows: seq<Trip>, mask: Mask)
    ensures IsSubsequence(Where(rows, mask), rows)
    ensures forall t :: multiset(Where(rows, mask))[t] == if Matches(t, mask) then multiset(rows)[t] else 0
  {
    WhereIsSubsequence(rows, mask);
    WhereCounts(rows, mask);
  }

  lemma {:induction false} SubsequenceOfItself<T>(s: seq<T>)
    ensures IsSubsequence(s, s)
  {
    if s != [] {
      SubsequenceOfItself(s[1..]);
    }
  }

  /** The four branches collapse to the single rule `Keep`: the filtered rows
      are a subsequence of the input (order is preserved), each row that obeys
      the rule keeps all its occurrences, and every other row is dropped. */
  lemma FilterSpec(rows: seq<Trip>, month: int, day: int)
    ensures IsSubsequence(FilterByMonthAndDay(rows, month, day), rows)
    ensures forall t :: multiset(FilterByMonthAndDay(rows, month, day))[t] ==
                        if Keep(t, month, day) then multiset(rows)[t] else 0
    ensures forall t :: t in FilterByMonthAndDay(rows, month, day) <==> t in rows && Keep(t, month, day)
  {
    if month != 0 && day != 0 {
      WhereSpec(rows, MonthAndDay(month, day));
    } else if month != 0 {
      WhereSpec(rows, MonthOnly(month));
    } else if day != 0 {
      WhereSpec(rows, DayOnly(day));
    } else {
      SubsequenceOfItself(rows);
    }
    var r := FilterByMonthAndDay(rows, month, day);
    forall t ensures t in r <==> t in rows && Keep(t, month, day) {
      assert t in r <==> multiset(r)[t] > 0;
      assert t in rows <==> multiset(rows)[t] > 0;
    }
  }

  /** Choosing "all months" and "all weekdays" leaves the data unchanged. */
  lemma FilterNoneIsIdentity(rows: seq<Trip>)
    ensures FilterByMonthAndDay(rows, 0, 0) == rows
  {
  }

  lemma {:induction false} WhereIdempotent(rows: seq<Trip>, mask: Mask)
    ensures Where(Where(rows, mask), mask) == Where(rows, mask)
  {
    if rows != [] {
      WhereIdempotent(rows[1..], mask);
      var rest := Where(rows[1..], mask);
      if Matches(rows[0], mask) {
        assert Where(rows, mask) == [rows[0]] + rest;
        assert ([rows[0]] + rest)[1..] == rest;
        assert Where([rows[0]] + rest, mask) == [rows[0]] + Where(rest, mask);
      } else {
        assert Where(rows, mask) == rest;
      }
    }
  }

  /** Filtering a second time with the same choices changes nothing. */
  lemma FilterIdempotent(rows: seq<Trip>, month: int, day: int)
    ensures FilterByMonthAndDay(FilterByMonthAndDay(rows, month, day), month, day) ==
            FilterByMonthAndDay(rows, month, day)
  {
    if month != 0 && day != 0 {
      WhereIdempotent(rows, MonthAndDay(month, day));
    } else if month != 0 {
      WhereIdempotent(rows, MonthOnly(month));
    } else if day != 0 {
      WhereIdempotent(rows, DayOnly(day));
    }
  }

  lemma {:induction false} WhereMonthThenDay(rows: seq<Trip>, month: int, day: int)
    ensures Where(Where(rows, MonthOnly(month)), DayOnly(day)) == Where(rows, MonthAndDay(month, day))
  {
    if rows != [] {
      WhereMonthThenDay(rows[1..], month, day);
      var rest := Where(rows[1..], MonthOnly(month));
      if Matches(rows[0], MonthOnly(month)) {
        assert Where(rows, MonthOnly(month)) == [rows[0]] + rest;
        assert ([rows[0]] + rest)[1..] == rest;
        assert Where([rows[0]] + rest, DayOnly(day)) ==
               (if Matches(rows[0], DayOnly(day)) then [rows[0]] else []) + Where(rest, DayOnly(day));
      } else {
        assert Where(rows, MonthOnly(month)) == rest;
        assert Where(rows, MonthAndDay(month, day)) == Where(rows[1..], MonthAndDay(month, day));
      }
    }
  }

  /** The combined branch agrees with filtering by month and then by weekday. */
  lemma FilterMonthThenDay(rows: seq<Trip>, month: int, day: int)
    ensures FilterByMonthAndDay(FilterByMonthAndDay(rows, month, 0), 0, day) ==
            FilterByMonthAndDay(rows, month, day)
  {
    if month != 0 && day != 0 {
      WhereMonthThenDay(rows, month, day);
    }
  }

  lemma {:induction false} WhereAppend(a: seq<Trip>, b: seq<Trip>, mask: Mask)
    ensures Where(a + b, mask) == Where(a, mask) + Where(b, mask)
  {
    if a == [] {
      assert a + b == b;
    } else {
      assert (a + b)[1..] == a[1..] + b;
      WhereAppend(a[1..], b, mask);
    }
  }

  /** Filtering distributes over joining two data sets. */
  lemma FilterAppend(a: seq<Trip>, b: seq<Trip>, month: int, day: int)
    ensures FilterByMonthAndDay(a + b, month, day) ==
            FilterByMonthAndDay(a, month, day) + FilterByMonthAndDay(b, month, day)
  {
    if month != 0 && day != 0 {
      WhereAppend(a, b, MonthAndDay(month, day));
    } else if month != 0 {
      WhereAppend(a, b, MonthOnly(month));
    } else if day != 0 {
      WhereAppend(a, b, DayOnly(day));
    }
  }
}
