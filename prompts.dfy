/** The validated-input loops of `get_filters` and `main`. The console is a
    sequence of replies; each reply carries its text and what Python's `int()`
    makes of that text (`None` when `int()` raises `ValueError`). Parsing
    itself is not modelled. */
module Prompts {
  import opened Wrappers
  import opened Tables

  datatype Reply = Reply(text: string, number: Option<int>)

  /** A numeric prompt with upper bound `max` takes a reply iff it is an
      integer between 0 and `max`. */
  predicate Accepts(r: Reply, max: int) {
    r.number.Some? && InRange(r.number.value, max)
  }

  /** The `while True` loop of one numeric prompt, reading from position
      `start`: it returns the number of the first acceptable reply and the
      position just after it, all replies before it having been rejected.
      When the replies run out first it returns `None` (the program would
      wait for input forever). */
  method ReadChoice(replies: seq<Reply>, start: nat, max: int) returns (choice: Option<int>, next: nat)
    requires start <= |replies|
    ensures start <= next <= |replies|
    ensures choice.Some? ==> start < next && Accepts(replies[next - 1], max) &&
                             replies[next - 1].number == Some(choice.value)
    ensures choice.Some? ==> forall j :: start <= j < next - 1 ==> !Accepts(replies[j], max)
    ensures choice.None? ==> next == |replies| && forall j :: start <= j < |replies| ==> !Accepts(replies[j], max)
  {
    next := start;
    while next < |replies|
      invariant start <= next <= |replies|
      invariant forall j :: start <= j < next ==> !Accepts(replies[j], max)
    {
      var reply := replies[next];
      next := next + 1;
      if Accepts(reply, max) {
        return Some(reply.number.value), next;
      }
    }
    return None, next;
  }

  datatype Filters = Filters(city: int, month: int, day: int, insights: string)

  /** Replies at positions `c < m < d`, followed by one more reply, that the
      city, month and weekday prompts would accept. */
  ghost predicate Chain(replies: seq<Reply>, c: int, m: int, d: int) {
    0 <= c < m < d < |replies| - 1 &&
    Accepts(replies[c], CityMax) && Accepts(replies[m], MonthMax) && Accepts(replies[d], DayMax)
  }

  /** `get_filters`: three numeric prompts, then the free-text excerpt
      question, which takes any reply. The city is the first reply the city
      prompt accepts, the month the first reply after it that the month prompt
      accepts, the weekday the first reply after that which the weekday prompt
      accepts, and the excerpt answer is the reply that follows. Every choice
      is a key of its table, so the lookups that print the choice (and the
      city file lookup in `load_data`) cannot fail. The result is `None`
      exactly when the replies run out before such a chain is complete. */
  method GetFilters(replies: seq<Reply>) returns (filters: Option<Filters>, next: nat, ci: nat, mi: nat, di: nat)
    ensures next <= |replies|
    ensures filters.Some? ==> Chain(replies, ci, mi, di) && next == di + 2
    ensures filters.Some? ==>
      replies[ci].number == Some(filters.value.city) &&
      replies[mi].number == Some(filters.value.month) &&
      replies[di].number == Some(filters.value.day) &&
      filters.value.insights == replies[di + 1].text
    ensures filters.Some? ==>
      (forall j :: 0 <= j < ci ==> !Accepts(replies[j], CityMax)) &&
      (forall j :: ci < j < mi ==> !Accepts(replies[j], MonthMax)) &&
      (forall j :: mi < j < di ==> !Accepts(replies[j], DayMax))
    ensures filters.Some? ==> filters.value.city in CityNames && filters.value.month in MonthNames &&
                              filters.value.day in DayNames
    ensures filters.None? ==> next == |replies| && forall c, m, d :: !Chain(replies, c, m, d)
  {
    CityRangeMatchesTable();
    MonthRangeMatchesTable();
    DayRangeMatchesTable();
    ci, mi, di := 0, 0, 0;
    var city, month, day;
    city, next := ReadChoice(replies, 0, CityMax);
    if city.None? {
      return None, next, ci, mi, di;
    }
    ci := next - 1;
    month, next := ReadChoice(replies, next, MonthMax);
    if month.None? {
      return None, next, ci, mi, di;
    }
    mi := next - 1;
    day, next := ReadChoice(replies, next, DayMax);
    if day.None? || next == |replies| {
      return None, |replies|, ci, mi, di;
    }
    di := next - 1;
    filters := Some(Filters(city.value, month.value, day.value, replies[next].text));
    next := next + 1;
  }

  /** The statistics prompt of `main`: its choice is a key of the statistics
      menu. */
  method ReadStatistic(replies: seq<Reply>, start: nat) returns (choice: Option<int>, next: nat)
    requires start <= |replies|
    ensures start <= next <= |replies|
    ensures choice.Some? ==> choice.value in StatisticNames && start < next &&
                             replies[next - 1].number == Some(choice.value)
    ensures choice.Some? ==> forall j :: start <= j < next - 1 ==> !Accepts(replies[j], StatisticMax)
    ensures choice.None? ==> next == |replies| && forall j :: start <= j < |replies| ==> !Accepts(replies[j], StatisticMax)
  {
    StatisticRangeMatchesTable();
    choice, next := ReadChoice(replies, start, StatisticMax);
  }
}
