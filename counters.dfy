/** One per-day statistics table, as each of `VisitStatistics`, `CommentStatistics`
    and `LikeStatistics` stores it: a sequence of rows in insertion order, each
    row holding a surrogate key, a calendar day and the number of events that day.
    A read looks at the first row for a day; an event either appends a row with
    `times = 1` or raises the first row for its day by one. */
module Counters {

  /** A calendar day, numbered consecutively (day `d + 1` follows day `d`). */
  type Date = int

  datatype Option<T> = None | Some(value: T)

  /** A row of a statistics table: `id` (integer primary key), `date`, `times`. */
  datatype Row = Row(id: nat, date: Date, times: int)

  /** The rows of one table, in the order the store returns them. */
  type Table = seq<Row>

  /** No row of `t` is dated `d`. */
  predicate HasNoRow(t: Table, d: Date) {
    forall i | 0 <= i < |t| :: t[i].date != d
  }

  /** The invariant the increment keeps: ids are distinct (primary key), no day
      has two rows, and every row has counted at least one event. */
  predicate WellFormed(t: Table) {
    (forall i | 0 <= i < |t| :: t[i].times >= 1) &&
    (forall i, j | 0 <= i < j < |t| :: t[i].id != t[j].id && t[i].date != t[j].date)
  }

  /** The position of the first row of `t` dated `d`, the query
      `filter_by(date=d).first()`; `None` when there is no such row. */
  function FindFirst(t: Table, d: Date): (r: Option<nat>)
    ensures r.None? <==> HasNoRow(t, d)
    ensures r.Some? ==> r.value < |t| && t[r.value].date == d
    ensures r.Some? ==> forall j | 0 <= j < r.value :: t[j].date != d
  {
    if t == [] then None
    else if t[0].date == d then Some(0)
    else match FindFirst(t[1..], d)
      case None => None
      case Some(i) => Some(i + 1)
  }

  /** The count a read reports for day `d`: the `times` of the first row dated
      `d`, or 0 when the table has none. */
  function Count(t: Table, d: Date): (n: int)
    ensures HasNoRow(t, d) ==> n == 0
    ensures WellFormed(t) && !HasNoRow(t, d) ==> n >= 1
  {
    match FindFirst(t, d)
    case None => 0
    case Some(i) => t[i].times
  }

  /** The key SQLite gives a new row of an integer primary key column: one more
      than the largest key in the table, or 1 for an empty table. */
  function NextId(t: Table): (n: nat)
    ensures n >= 1
    ensures forall i | 0 <= i < |t| :: t[i].id < n
    ensures n == 1 || exists i | 0 <= i < |t| :: t[i].id + 1 == n
  {
    if t == [] then 1
    else
      var rest := NextId(t[1..]);
      assert forall i | 1 <= i < |t| :: t[i] == t[1..][i - 1];
      if t[0].id + 1 > rest then t[0].id + 1 else rest
  }

  /** The table after one event on day `d`: a new row `(NextId, d, 1)` is
      appended when `d` has no row, otherwise the first row for `d` has its
      `times` raised by one. */
  function Bump(t: Table, d: Date): (r: Table)
    ensures |r| == |t| + (if HasNoRow(t, d) then 1 else 0)
    ensures forall i | 0 <= i < |t| :: r[i].id == t[i].id && r[i].date == t[i].date
    ensures !HasNoRow(r, d)
  {
    match FindFirst(t, d)
    case None =>
      var r := t + [Row(NextId(t), d, 1)];
      assert r[|t|].date == d;
      r
    case Some(i) => t[i := t[i].(times := t[i].times + 1)]
  }

  /** The table after `n` events in a row on day `d`. */
  function BumpTimes(t: Table, d: Date, n: nat): (r: Table)
    ensures |r| == |t| + (if n >= 1 && HasNoRow(t, d) then 1 else 0)
    ensures forall i | 0 <= i < |t| :: r[i].id == t[i].id && r[i].date == t[i].date
    ensures n >= 1 ==> !HasNoRow(r, d)
  {
    if n == 0 then t else Bump(BumpTimes(t, d, n - 1), d)
  }

  /** The first row for a day is the unique position a result of `FindFirst` can name. */
  lemma FirstIsUnique(t: Table, d: Date, k: nat)
    requires k < |t| && t[k].date == d
    requires forall j | 0 <= j < k :: t[j].date != d
    ensures FindFirst(t, d) == Some(k)
  {
  }

  /** Two tables whose rows carry the same days answer every lookup alike. */
  lemma FindFirstSameDates(t: Table, u: Table, e: Date)
    requires |t| == |u|
    requires forall i | 0 <= i < |t| :: t[i].date == u[i].date
    ensures FindFirst(t, e) == FindFirst(u, e)
  {
  }

  /** Appending a row does not change the lookup of a day the table already has,
      nor of any day other than the new row's. */
  lemma FindFirstAppend(t: Table, row: Row, e: Date)
    ensures row.date != e || !HasNoRow(t, e) ==> FindFirst(t + [row], e) == FindFirst(t, e)
    ensures row.date == e && HasNoRow(t, e) ==> FindFirst(t + [row], e) == Some(|t|)
  {
    var u := t + [row];
    match FindFirst(t, e)
    case None =>
      if row.date == e {
        FirstIsUnique(u, e, |t|);
      } else {
        assert HasNoRow(u, e);
      }
    case Some(k) =>
      FirstIsUnique(u, e, k);
  }

  /** Incrementing a day with no row appends exactly one row for that day with
      `times = 1` and a fresh key; the existing rows are unchanged. */
  lemma BumpAbsent(t: Table, d: Date)
    requires HasNoRow(t, d)
    ensures var r := Bump(t, d);
      |r| == |t| + 1 && r[..|t|] == t &&
      r[|t|].date == d && r[|t|].times == 1 && r[|t|].id == NextId(t) &&
      forall i | 0 <= i < |t| :: t[i].id != r[|t|].id
  {
  }

  /** Incrementing a day that has a row raises the first row for that day by
      exactly one, keeps its key and day, adds no row and changes no other row. */
  lemma BumpPresent(t: Table, d: Date)
    requires !HasNoRow(t, d)
    ensures var r := Bump(t, d);
      var i := FindFirst(t, d).value;
      |r| == |t| && r[i].id == t[i].id && r[i].date == d && r[i].times == t[i].times + 1 &&
      forall j | 0 <= j < |t| && j != i :: r[j] == t[j]
  {
  }

  /** An increment for day `d` raises the count of `d` by one and leaves the
      count of every other day unchanged. */
  lemma CountAfterBump(t: Table, d: Date, e: Date)
    ensures Count(Bump(t, d), e) == Count(t, e) + (if e == d then 1 else 0)
  {
    var r := Bump(t, d);
    match FindFirst(t, d)
    case None =>
      FindFirstAppend(t, Row(NextId(t), d, 1), e);
    case Some(i) =>
      FindFirstSameDates(t, r, e);
  }

  /** The increment keeps the table invariant: still one row per day, distinct
      keys, and every `times` at least 1. */
  lemma BumpWellFormed(t: Table, d: Date)
    requires WellFormed(t)
    ensures WellFormed(Bump(t, d))
  {
  }

  /** `n` increments in a row for day `d` raise its count by `n`; in particular,
      from a table with no row for `d` they make the lookup for `d` return `n`. */
  lemma {:induction false} CountAfterBumps(t: Table, d: Date, n: nat)
    ensures Count(BumpTimes(t, d, n), d) == Count(t, d) + n
    ensures HasNoRow(t, d) ==> Count(BumpTimes(t, d, n), d) == n
  {
    if n > 0 {
      CountAfterBumps(t, d, n - 1);
      CountAfterBump(BumpTimes(t, d, n - 1), d, d);
    }
  }
}
