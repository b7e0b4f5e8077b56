/** `display_data`: the optional report of missing values per column and the
    pager that shows ever longer prefixes of the data while the user keeps
    answering "yes". */
module Display {
  import opened Wrappers
  import opened Text
  import opened Trips
  import opened Loading

  /** The columns of a loaded frame that the program reads or creates. */
  datatype Column =
    | StartTime | EndTime | StartStation | EndStation | UserType | Gender | BirthYear
    | Month | Day | StartHour | TravelTime | TravelMinutes

  /** The CSV columns, the optional ones only when present, then the derived
      columns in the order `load_data` adds them. */
  function ColumnsOf(frame: Frame): (cols: seq<Column>) {
    [StartTime, EndTime, StartStation, EndStation, UserType] +
    (if frame.hasGender then [Gender] else []) +
    (if frame.hasBirthYear then [BirthYear] else []) +
    [Month, Day, StartHour, TravelTime, TravelMinutes]
  }

  /** `isnull()` of one cell. Only the user columns can be missing in the model. */
  predicate IsMissing(t: Trip, c: Column) {
    match c
    case UserType => t.userType.None?
    case Gender => t.gender.None?
    case BirthYear => t.birthYear.None?
    case _ => false
  }

  /** `df[c].isnull().sum()` */
  function MissingIn(rows: seq<Trip>, c: Column): (n: nat) {
    if rows == [] then 0 else (if IsMissing(rows[0], c) then 1 else 0) + MissingIn(rows[1..], c)
  }

  /** `df.isnull().sum().sum()`: the per-column counts added up. */
  function ColumnTotals(rows: seq<Trip>, cols: seq<Column>): (n: nat) {
    if cols == [] then 0 else MissingIn(rows, cols[0]) + ColumnTotals(rows, cols[1..])
  }

  /** The number of missing cells of one row. */
  function MissingInRow(t: Trip, cols: seq<Column>): (n: nat) {
    if cols == [] then 0 else (if IsMissing(t, cols[0]) then 1 else 0) + MissingInRow(t, cols[1..])
  }

  /** The number of missing cells of the table, counted row by row. */
  function MissingCells(rows: seq<Trip>, cols: seq<Column>): (n: nat) {
    if rows == [] then 0 else MissingInRow(rows[0], cols) + MissingCells(rows[1..], cols)
  }

  lemma {:induction false} ColumnTotalsSplit(rows: seq<Trip>, cols: seq<Column>)
    requires rows != []
    ensures ColumnTotals(rows, cols) == MissingInRow(rows[0], cols) + ColumnTotals(rows[1..], cols)
  {
    if cols != [] {
      ColumnTotalsSplit(rows, cols[1..]);
    }
  }

  /** The total the program prints is the number of missing cells of the
      table: summing column by column and row by row agree. */
  lemma {:induction false} ColumnTotalsCountCells(rows: seq<Trip>, cols: seq<Column>)
    ensures ColumnTotals(rows, cols) == MissingCells(rows, cols)
  {
    if rows == [] {
      ColumnTotalsEmpty(cols);
    } else {
      ColumnTotalsSplit(rows, cols);
      ColumnTotalsCountCells(rows[1..], cols);
    }
  }

  lemma {:induction false} ColumnTotalsEmpty(cols: seq<Column>)
    ensures ColumnTotals([], cols) == 0
  {
    if cols != [] {
      ColumnTotalsEmpty(cols[1..]);
    }
  }

  /** The missing-value report: the total over the frame, then the dictionary
      filled column by column in the `for` loop. */
  method CountMissing(frame: Frame) returns (total: nat, perColumn: map<Column, nat>)
    ensures total == MissingCells(frame.rows, ColumnsOf(frame))
    ensures forall c :: c in perColumn <==> c in ColumnsOf(frame)
    ensures forall c :: c in perColumn ==> perColumn[c] == MissingIn(frame.rows, c)
  {
    var cols := ColumnsOf(frame);
    total := ColumnTotals(frame.rows, cols);
    ColumnTotalsCountCells(frame.rows, cols);
    perColumn := map[];
    for i := 0 to |cols|
      invariant forall c :: c in perColumn <==> c in cols[..i]
      invariant forall c :: c in perColumn ==> perColumn[c] == MissingIn(frame.rows, c)
    {
      perColumn := perColumn[cols[i] := MissingIn(frame.rows, cols[i])];
    }
    assert cols[..|cols|] == cols;
  }

  /** `df.head()` shows five rows and each "yes" five more. */
  const HeadRows := 5
  const PageStep := 5

  /** `df.iloc[:n]`: the first `n` rows, or all of them if there are fewer. */
  function Prefix<T>(rows: seq<T>, n: nat): (p: seq<T>)
    ensures |p| == if n <= |rows| then n else |rows|
    ensures p <= rows
  {
    if n <= |rows| then rows[..n] else rows
  }

  /** The "5 more rows" loop. After the k-th "yes" it shows the first
      `5 + 5k` rows (all rows once there are fewer), and `start_loc` is then
      `5 + 5k`; it stops at the first answer that is not "yes". If the answers
      run out while all are "yes", `used` is their number. */
  method Pager<T>(rows: seq<T>, answers: seq<string>) returns (pages: seq<seq<T>>, startLoc: nat, used: nat)
    ensures startLoc == HeadRows + PageStep * |pages|
    ensures |pages| <= used <= |answers| && used <= |pages| + 1
    ensures forall k :: 0 <= k < |pages| ==> IsYes(answers[k])
    ensures forall k :: 0 <= k < |pages| ==> pages[k] == Prefix(rows, HeadRows + PageStep * (k + 1))
    ensures used == |pages| + 1 ==> !IsYes(answers[|pages|])
    ensures used == |pages| ==> used == |answers|
  {
    pages, startLoc, used := [], HeadRows, 0;
    while used < |answers|
      invariant used == |pages| <= |answers|
      invariant startLoc == HeadRows + PageStep * |pages|
      invariant forall k :: 0 <= k < |pages| ==> IsYes(answers[k])
      invariant forall k :: 0 <= k < |pages| ==> pages[k] == Prefix(rows, HeadRows + PageStep * (k + 1))
    {
      var answer := answers[used];
      used := used + 1;
      if IsYes(answer) {
        pages := pages + [Prefix(rows, startLoc + PageStep)];
        startLoc := startLoc + PageStep;
      } else {
        break;
      }
    }
  }

  /** Successive pages grow: each page is a prefix of the next and of the data. */
  lemma PagesGrow<T>(rows: seq<T>, k: nat)
    ensures Prefix(rows, HeadRows + PageStep * k) <= Prefix(rows, HeadRows + PageStep * (k + 1))
    ensures |Prefix(rows, HeadRows + PageStep * (k + 1))| - |Prefix(rows, HeadRows + PageStep * k)| <= PageStep
  {
  }

  datatype Excerpt = Excerpt(
    missingTotal: nat,
    missingByColumn: map<Column, nat>,
    head: seq<Trip>,
    pages: seq<seq<Trip>>)

  /** `display_data`: nothing is shown and no answer is read unless the
      excerpt question was answered "yes". */
  method DisplayData(frame: Frame, insights: string, answers: seq<string>) returns (shown: Option<Excerpt>, used: nat)
    ensures shown.None? <==> !IsYes(insights)
    ensures shown.None? ==> used == 0
    ensures used <= |answers|
    ensures shown.Some? ==>
      |shown.value.pages| <= used <= |shown.value.pages| + 1 &&
      shown.value.missingTotal == MissingCells(frame.rows, ColumnsOf(frame)) &&
      (forall c :: c in shown.value.missingByColumn <==> c in ColumnsOf(frame)) &&
      (forall c :: c in shown.value.missingByColumn ==> shown.value.missingByColumn[c] == MissingIn(frame.rows, c)) &&
      shown.value.head == Prefix(frame.rows, HeadRows) &&
      (forall k :: 0 <= k < |shown.value.pages| ==>
         IsYes(answers[k]) && shown.value.pages[k] == Prefix(frame.rows, HeadRows + PageStep * (k + 1))) &&
      (used == |shown.value.pages| + 1 ==> !IsYes(answers[|shown.value.pages|])) &&
      (used == |shown.value.pages| ==> used == |answers|)
  {
    if !IsYes(insights) {
      return None, 0;
    }
    var total, perColumn := CountMissing(frame);
    var pages, startLoc;
    pages, startLoc, used := Pager(frame.rows, answers);
    shown := Some(Excerpt(total, perColumn, Prefix(frame.rows, HeadRows), pages));
  }
}
