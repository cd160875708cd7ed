/** The row test `filterByDate` installs on the invoice history table, stated
    on calendar dates (year, month, day). */
module HistoryFilter {
  import opened Wrappers

  datatype Ymd = Ymd(year: int, month: int, day: int)

  /** The history table's date cell: empty, a date the browser cannot build
      (an Invalid Date, whose comparisons are all false), or a date. */
  datatype CellDate = NoDate | InvalidDate | Date(ymd: Ymd)

  /** `a` is an earlier calendar day than `b`. */
  predicate Before(a: Ymd, b: Ymd)
  {
    a.year < b.year ||
    (a.year == b.year && (a.month < b.month || (a.month == b.month && a.day < b.day)))
  }

  /** `start` and `end` are the range inputs; `None` is an empty input. A row
      without a usable date is always kept, and a dated row is kept by two
      bounds only when the end is not before the start. */
  function KeepRow(cell: CellDate, start: Option<Ymd>, end: Option<Ymd>): (keep: bool)
    ensures !cell.Date? ==> keep
    ensures keep && cell.Date? && start.Some? && end.Some? ==> !Before(end.value, start.value)
  {
    match cell
    case Date(d) =>
      (start.None? || !Before(d, start.value)) && (end.None? || !Before(end.value, d))
    case _ => true
  }

  predicate ValidDay(d: Ymd)
  {
    1 <= d.month <= 12 && 1 <= d.day <= 31
  }

  /** A day number that grows with the calendar, for valid month and day. */
  function DayKey(d: Ymd): int
  {
    (d.year * 13 + d.month) * 32 + d.day
  }

  /** On valid days, `Before` is the order of day numbers. */
  lemma BeforeIsKeyOrder(a: Ymd, b: Ymd)
    requires ValidDay(a) && ValidDay(b)
    ensures Before(a, b) <==> DayKey(a) < DayKey(b)
  {
    if a.year < b.year {
      assert a.year * 13 + a.month < b.year * 13 + b.month;
    } else if a.year > b.year {
      assert b.year * 13 + b.month < a.year * 13 + a.month;
    }
  }

  /** A dated row is kept exactly when its day lies in the closed range. */
  lemma ClosedRange(d: Ymd, s: Ymd, e: Ymd)
    requires ValidDay(d) && ValidDay(s) && ValidDay(e)
    ensures KeepRow(Date(d), Some(s), Some(e)) <==> DayKey(s) <= DayKey(d) <= DayKey(e)
  {
    BeforeIsKeyOrder(d, s);
    BeforeIsKeyOrder(e, d);
  }

  /** Each bound is tested on its own: an unset bound lets every day through,
      a set start drops the days before it, and a set end the days after it. */
  lemma OptionalBounds(d: Ymd, start: Option<Ymd>, end: Option<Ymd>)
    requires ValidDay(d)
    requires start.Some? ==> ValidDay(start.value)
    requires end.Some? ==> ValidDay(end.value)
    ensures KeepRow(Date(d), start, end) <==>
      (start.None? || DayKey(start.value) <= DayKey(d)) &&
      (end.None? || DayKey(d) <= DayKey(end.value))
  {
    if start.Some? {
      BeforeIsKeyOrder(d, start.value);
    }
    if end.Some? {
      BeforeIsKeyOrder(end.value, d);
    }
  }

  /** Rows without a usable date, and every row when neither bound is set, are kept. */
  lemma UndatedOrUnboundedKept(cell: CellDate, start: Option<Ymd>, end: Option<Ymd>)
    requires !cell.Date? || (start.None? && end.None?)
    ensures KeepRow(cell, start, end)
  {
  }

  /** With start and end on the same day, only that day's rows (and undated rows) stay. */
  lemma SingleDay(cell: CellDate, day: Ymd)
    ensures KeepRow(cell, Some(day), Some(day)) <==> !cell.Date? || cell.ymd == day
  {
  }

  /** A range whose end is before its start keeps no dated row. */
  lemma EmptyRange(d: Ymd, s: Ymd, e: Ymd)
    requires Before(e, s)
    ensures !KeepRow(Date(d), Some(s), Some(e))
  {
  }

  /** Moving the start earlier never drops a row. */
  lemma EarlierStartKeepsMore(cell: CellDate, s1: Ymd, s2: Ymd, end: Option<Ymd>)
    requires !Before(s2, s1)
    requires KeepRow(cell, Some(s2), end)
    ensures KeepRow(cell, Some(s1), end)
  {
  }
}
