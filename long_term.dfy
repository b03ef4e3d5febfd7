/** Planning a long-running extraction (`months_to_scan` in
    load_long_term.py): one audit-log row per calendar month between two
    dates, each with the query for that month, its start and end dates as
    text, the prefix of its file names, empty result columns and the status
    `Needs loading`.

    Dates are proleptic Gregorian calendar days at midnight, as pandas
    timestamps are. `pd.date_range(start, end, freq='MS')` is every first of
    the month in `[start, end]`, and `freq='M'` every last of the month, both
    in order. */
module LongTerm {
  import opened Base

  datatype Date = Date(year: int, month: int, day: int)

  /** The whole years pandas timestamps can hold. */
  const MinYear: int := 1678
  const MaxYear: int := 2261

  predicate IsLeap(y: int) {
    y % 4 == 0 && (y % 100 != 0 || y % 400 == 0)
  }

  /** The length of month `m` (1 to 12) of year `y`. */
  function DaysInMonth(y: int, m: int): (n: int)
    ensures 28 <= n <= 31
  {
    if m == 2 then (if IsLeap(y) then 29 else 28)
    else if m == 4 || m == 6 || m == 9 || m == 11 then 30
    else 31
  }

  predicate Valid(d: Date) {
    MinYear <= d.year <= MaxYear && 1 <= d.month <= 12 && 1 <= d.day <= DaysInMonth(d.year, d.month)
  }

  /** `a <= b` in time. */
  predicate NotAfter(a: Date, b: Date) {
    a.year < b.year || (a.year == b.year && (a.month < b.month || (a.month == b.month && a.day <= b.day)))
  }

  predicate InRange(d: Date, s: Date, e: Date) {
    NotAfter(s, d) && NotAfter(d, e)
  }

  /** A calendar month. */
  datatype Month = Month(year: int, month: int)

  function MonthOf(d: Date): Month {
    Month(d.year, d.month)
  }

  /** Months counted from January of year 0. */
  function Index(m: Month): int {
    m.year * 12 + m.month - 1
  }

  /** The month index of a date's month. */
  function MonthIndex(d: Date): int {
    Index(MonthOf(d))
  }

  /** The month after `m`. */
  function Next(m: Month): (n: Month)
    requires 1 <= m.month <= 12
    ensures 1 <= n.month <= 12 && Index(n) == Index(m) + 1
  {
    if m.month == 12 then Month(m.year + 1, 1) else Month(m.year, m.month + 1)
  }

  function FirstDay(m: Month): Date {
    Date(m.year, m.month, 1)
  }

  function LastDay(m: Month): Date {
    Date(m.year, m.month, DaysInMonth(m.year, m.month))
  }

  /** Comparing dates of different months only needs their month indices. */
  lemma {:induction false} MonthOrder(a: Date, b: Date)
    requires 1 <= a.month <= 12 && 1 <= b.month <= 12
    ensures MonthIndex(a) < MonthIndex(b) ==> NotAfter(a, b) && !NotAfter(b, a)
    ensures MonthIndex(a) == MonthIndex(b) ==> a.year == b.year && a.month == b.month
    ensures NotAfter(a, b) ==> MonthIndex(a) <= MonthIndex(b)
  {
  }

  /** A date between two valid dates, in the calendar, is valid. */
  lemma {:induction false} BetweenValid(d: Date, s: Date, e: Date)
    requires Valid(s) && Valid(e) && 1 <= d.month <= 12 && 1 <= d.day <= DaysInMonth(d.year, d.month)
    requires MonthIndex(s) <= MonthIndex(d) <= MonthIndex(e)
    ensures Valid(d)
  {
  }

  // ---------------------------------------------------------------------------
  // The two date ranges

  /** The firsts of month `m` and the months after it, up to the month of
      `e`, that lie in `[s, e]`. */
  function StartsFrom(s: Date, e: Date, m: Month): (r: seq<Date>)
    requires 1 <= m.month <= 12
    ensures forall i :: 0 <= i < |r| ==> r[i].day == 1 && InRange(r[i], s, e)
    decreases MonthIndex(e) - Index(m) + 1
  {
    if Index(m) > MonthIndex(e) then []
    else (if InRange(FirstDay(m), s, e) then [FirstDay(m)] else []) + StartsFrom(s, e, Next(m))
  }

  /** `pd.date_range(s, e, freq='MS')`: the firsts of the month in `[s, e]`;
      none lies outside the months of `s` to `e`. */
  function MonthStarts(s: Date, e: Date): (r: seq<Date>)
    requires Valid(s) && Valid(e)
    ensures forall i :: 0 <= i < |r| ==> r[i].day == 1 && InRange(r[i], s, e)
  {
    StartsFrom(s, e, MonthOf(s))
  }

  function EndsFrom(s: Date, e: Date, m: Month): (r: seq<Date>)
    requires 1 <= m.month <= 12
    ensures forall i :: 0 <= i < |r| ==> r[i].day == DaysInMonth(r[i].year, r[i].month) && InRange(r[i], s, e)
    decreases MonthIndex(e) - Index(m) + 1
  {
    if Index(m) > MonthIndex(e) then []
    else (if InRange(LastDay(m), s, e) then [LastDay(m)] else []) + EndsFrom(s, e, Next(m))
  }

  /** `pd.date_range(s, e, freq='M')`: the lasts of the month in `[s, e]`. */
  function MonthEnds(s: Date, e: Date): (r: seq<Date>)
    requires Valid(s) && Valid(e)
    ensures forall i :: 0 <= i < |r| ==> r[i].day == DaysInMonth(r[i].year, r[i].month) && InRange(r[i], s, e)
  {
    EndsFrom(s, e, MonthOf(s))
  }

  /** The month of the first month start: that of `s` when `s` is a first,
      the next one otherwise. */
  function FirstStartMonth(s: Date): int {
    MonthIndex(s) + (if s.day == 1 then 0 else 1)
  }

  /** The month of the last month end: that of `e` when `e` is a last, the
      previous one otherwise. */
  function LastEndMonth(e: Date): int {
    MonthIndex(e) - (if e.day == DaysInMonth(e.year, e.month) then 0 else 1)
  }

  /** The number of months from `lo` to `hi`, both included. */
  function Span(lo: int, hi: int): nat {
    if lo > hi then 0 else hi - lo + 1
  }

  /** `r` lists the firsts of consecutive months, starting at month `lo`. */
  predicate Firsts(r: seq<Date>, lo: int) {
    forall i :: 0 <= i < |r| ==> 1 <= r[i].month <= 12 && r[i].day == 1 && MonthIndex(r[i]) == lo + i
  }

  /** `r` lists the lasts of consecutive months, starting at month `lo`. */
  predicate Lasts(r: seq<Date>, lo: int) {
    forall i :: 0 <= i < |r| ==>
      1 <= r[i].month <= 12 && r[i].day == DaysInMonth(r[i].year, r[i].month) && MonthIndex(r[i]) == lo + i
  }

  lemma {:induction false} StartsFromClosed(s: Date, e: Date, m: Month)
    requires Valid(s) && Valid(e) && 1 <= m.month <= 12 && Index(m) > MonthIndex(s)
    ensures var r := StartsFrom(s, e, m); |r| == Span(Index(m), MonthIndex(e)) && Firsts(r, Index(m))
    decreases MonthIndex(e) - Index(m) + 1
  {
    if Index(m) <= MonthIndex(e) {
      var f := FirstDay(m);
      MonthOrder(s, f);
      MonthOrder(f, e);
      assert InRange(f, s, e);
      StartsFromClosed(s, e, Next(m));
      var rest := StartsFrom(s, e, Next(m));
      assert StartsFrom(s, e, m) == [f] + rest;
    }
  }

  /** The month starts are the firsts of consecutive months, from
      `FirstStartMonth(s)` to the month of `e`. */
  lemma {:induction false} MonthStartsClosed(s: Date, e: Date)
    requires Valid(s) && Valid(e)
    ensures var r := MonthStarts(s, e);
      |r| == Span(FirstStartMonth(s), MonthIndex(e)) && Firsts(r, FirstStartMonth(s))
  {
    var m := MonthOf(s);
    if Index(m) <= MonthIndex(e) {
      var f := FirstDay(m);
      MonthOrder(f, e);
      MonthOrder(s, f);
      assert InRange(f, s, e) <==> s.day == 1;
      StartsFromClosed(s, e, Next(m));
      var rest := StartsFrom(s, e, Next(m));
      if s.day == 1 {
        assert MonthStarts(s, e) == [f] + rest;
      } else {
        assert MonthStarts(s, e) == rest;
      }
    }
  }

  lemma {:induction false} EndsFromClosed(s: Date, e: Date, m: Month)
    requires Valid(s) && Valid(e) && 1 <= m.month <= 12 && Index(m) >= MonthIndex(s)
    ensures var r := EndsFrom(s, e, m); |r| == Span(Index(m), LastEndMonth(e)) && Lasts(r, Index(m))
    decreases MonthIndex(e) - Index(m) + 1
  {
    if Index(m) <= MonthIndex(e) {
      var l := LastDay(m);
      MonthOrder(s, l);
      MonthOrder(l, e);
      assert InRange(l, s, e) <==> Index(m) <= LastEndMonth(e);
      EndsFromClosed(s, e, Next(m));
      var rest := EndsFrom(s, e, Next(m));
      if Index(m) <= LastEndMonth(e) {
        assert EndsFrom(s, e, m) == [l] + rest;
      } else {
        assert EndsFrom(s, e, m) == rest;
      }
    }
  }

  /** The month ends are the lasts of consecutive months, from the month of
      `s` to `LastEndMonth(e)`. */
  lemma {:induction false} MonthEndsClosed(s: Date, e: Date)
    requires Valid(s) && Valid(e)
    ensures var r := MonthEnds(s, e);
      |r| == Span(MonthIndex(s), LastEndMonth(e)) && Lasts(r, MonthIndex(s))
  {
    EndsFromClosed(s, e, MonthOf(s));
  }

  /** `freq='MS'` means what pandas documents: a date is listed exactly when
      it is a valid first of the month in `[s, e]`, and the list is in
      increasing order. */
  lemma {:induction false} MonthStartsMeaning(s: Date, e: Date)
    requires Valid(s) && Valid(e)
    ensures forall d :: d in MonthStarts(s, e) <==> Valid(d) && d.day == 1 && InRange(d, s, e)
    ensures var r := MonthStarts(s, e);
      forall i, j :: 0 <= i < j < |r| ==> NotAfter(r[i], r[j]) && r[i] != r[j]
  {
    var r := MonthStarts(s, e);
    var lo := FirstStartMonth(s);
    MonthStartsClosed(s, e);
    forall d ensures d in r <==> Valid(d) && d.day == 1 && InRange(d, s, e) {
      if d in r {
        var i :| 0 <= i < |r| && r[i] == d;
        BetweenValid(d, s, e);
        MonthOrder(s, d);
        MonthOrder(d, e);
      }
      if Valid(d) && d.day == 1 && InRange(d, s, e) {
        MonthOrder(s, d);
        MonthOrder(d, e);
        var i := MonthIndex(d) - lo;
        MonthOrder(d, r[i]);
      }
    }
    forall i, j | 0 <= i < j < |r| ensures NotAfter(r[i], r[j]) && r[i] != r[j] {
      MonthOrder(r[i], r[j]);
    }
  }

  /** `freq='M'` likewise: exactly the valid lasts of the month in `[s, e]`,
      in increasing order. */
  lemma {:induction false} MonthEndsMeaning(s: Date, e: Date)
    requires Valid(s) && Valid(e)
    ensures forall d :: d in MonthEnds(s, e) <==>
      Valid(d) && d.day == DaysInMonth(d.year, d.month) && InRange(d, s, e)
    ensures var r := MonthEnds(s, e);
      forall i, j :: 0 <= i < j < |r| ==> NotAfter(r[i], r[j]) && r[i] != r[j]
  {
    var r := MonthEnds(s, e);
    MonthEndsClosed(s, e);
    forall d ensures d in r <==> Valid(d) && d.day == DaysInMonth(d.year, d.month) && InRange(d, s, e) {
      if d in r {
        var i :| 0 <= i < |r| && r[i] == d;
        BetweenValid(d, s, e);
        MonthOrder(s, d);
        MonthOrder(d, e);
      }
      if Valid(d) && d.day == DaysInMonth(d.year, d.month) && InRange(d, s, e) {
        MonthOrder(s, d);
        MonthOrder(d, e);
        var i := MonthIndex(d) - MonthIndex(s);
        MonthOrder(d, r[i]);
      }
    }
    forall i, j | 0 <= i < j < |r| ensures NotAfter(r[i], r[j]) && r[i] != r[j] {
      MonthOrder(r[i], r[j]);
    }
  }

  /** There is a month end for every month start but the last, so the
      `end_date_range[i]` the loop reads always exists. With no month start
      there is at most one month end, so slicing the ends to "all but the
      last" (the bound -1 counts from the end) leaves none either. */
  lemma {:induction false} EndsCoverStarts(s: Date, e: Date)
    requires Valid(s) && Valid(e)
    ensures |MonthEnds(s, e)| >= |MonthStarts(s, e)| - 1
    ensures |MonthStarts(s, e)| == 0 ==> |MonthEnds(s, e)| <= 1
  {
    MonthStartsClosed(s, e);
    MonthEndsClosed(s, e);
  }

  // ---------------------------------------------------------------------------
  // Text

  /** `strftime("%m/%d/%Y")`. */
  function FormatMDY(d: Date): (s: string)
    requires Valid(d)
    ensures |s| == 10
  {
    Pad(d.month, 2) + "/" + Pad(d.day, 2) + "/" + Pad(d.year, 4)
  }

  /** `strftime("%Y_%m")`. */
  function FormatYM(d: Date): (s: string)
    requires Valid(d)
    ensures |s| == 7
  {
    Pad(d.year, 4) + "_" + Pad(d.month, 2)
  }

  /** The fields of `MM/DD/YYYY` read back as the date. */
  lemma {:induction false} FormatMDYRoundTrip(d: Date)
    requires Valid(d)
    ensures var s := FormatMDY(d);
      && s[2] == '/' && s[5] == '/'
      && AllDigits(s[..2]) && AllDigits(s[3..5]) && AllDigits(s[6..])
      && DigitsValue(s[..2]) == d.month && DigitsValue(s[3..5]) == d.day && DigitsValue(s[6..]) == d.year
  {
    var s := FormatMDY(d);
    assert s[..2] == Pad(d.month, 2);
    assert s[3..5] == Pad(d.day, 2);
    assert s[6..] == Pad(d.year, 4);
    PadRoundTrip(d.month, 2);
    PadRoundTrip(d.day, 2);
    PadRoundTrip(d.year, 4);
  }

  /** The fields of `YYYY_MM` read back as the year and month. */
  lemma {:induction false} FormatYMRoundTrip(d: Date)
    requires Valid(d)
    ensures var s := FormatYM(d);
      && s[4] == '_' && AllDigits(s[..4]) && AllDigits(s[5..])
      && DigitsValue(s[..4]) == d.year && DigitsValue(s[5..]) == d.month
  {
    var s := FormatYM(d);
    assert s[..4] == Pad(d.year, 4);
    assert s[5..] == Pad(d.month, 2);
    PadRoundTrip(d.month, 2);
    PadRoundTrip(d.year, 4);
  }

  /** Different dates are written differently. */
  lemma {:induction false} FormatMDYInjective(a: Date, b: Date)
    requires Valid(a) && Valid(b) && FormatMDY(a) == FormatMDY(b)
    ensures a == b
  {
    FormatMDYRoundTrip(a);
    FormatMDYRoundTrip(b);
  }

  function FormatAll(ds: seq<Date>): (r: seq<string>)
    requires forall i :: 0 <= i < |ds| ==> Valid(ds[i])
    ensures |r| == |ds| && forall i :: 0 <= i < |ds| ==> r[i] == FormatMDY(ds[i])
  {
    seq(|ds|, i requires 0 <= i < |ds| => FormatMDY(ds[i]))
  }

  function PrefixAll(ds: seq<Date>): (r: seq<string>)
    requires forall i :: 0 <= i < |ds| ==> Valid(ds[i])
    ensures |r| == |ds| && forall i :: 0 <= i < |ds| ==> r[i] == FormatYM(ds[i])
  {
    seq(|ds|, i requires 0 <= i < |ds| => FormatYM(ds[i]))
  }

  /** The query of one row. */
  function Query(start: string, end: string): string {
    "WHENMODIFIED >= " + start + " AND WHENMODIFIED <= " + end
  }

  // ---------------------------------------------------------------------------
  // The audit log

  /** The audit-log table, column by column. */
  datatype AuditLog = AuditLog(
    query: seq<string>,
    startDate: seq<string>,
    endDate: seq<string>,
    fileDatePrefix: seq<string>,
    totalRows: seq<Option<int>>,
    numberRemaining: seq<Option<int>>,
    pages: seq<Option<int>>,
    status: seq<string>)

  /** The number of rows: one per month start but the last. */
  function Rows(s: Date, e: Date): nat
    requires Valid(s) && Valid(e)
  {
    if |MonthStarts(s, e)| == 0 then 0 else |MonthStarts(s, e)| - 1
  }

  lemma {:induction false} StartsValid(s: Date, e: Date)
    requires Valid(s) && Valid(e)
    ensures forall i :: 0 <= i < |MonthStarts(s, e)| ==> Valid(MonthStarts(s, e)[i])
    ensures forall i :: 0 <= i < |MonthEnds(s, e)| ==> Valid(MonthEnds(s, e)[i])
  {
    MonthStartsMeaning(s, e);
    MonthEndsMeaning(s, e);
  }

  /** The plan `months_to_scan` returns: row `i` pairs the `i`-th month start
      with the `i`-th month end, and the last month start gets no row. */
  function ScanPlan(s: Date, e: Date): (log: AuditLog)
    requires Valid(s) && Valid(e)
    ensures |log.query| == |log.startDate| == |log.endDate| == |log.fileDatePrefix| == Rows(s, e)
    ensures |log.totalRows| == |log.numberRemaining| == |log.pages| == |log.status| == Rows(s, e)
  {
    StartsValid(s, e);
    EndsCoverStarts(s, e);
    var starts := FormatAll(MonthStarts(s, e));
    var ends := FormatAll(MonthEnds(s, e));
    var prefixes := PrefixAll(MonthStarts(s, e));
    var n := Rows(s, e);
    AuditLog(seq(n, i requires 0 <= i < n => Query(starts[i], ends[i])),
             starts[..n], ends[..n], prefixes[..n],
             seq(n, _ => None), seq(n, _ => None), seq(n, _ => None),
             seq(n, _ => "Needs loading"))
  }

  /** Every column has one entry per row; row `i` queries the modification
      dates from the `i`-th month start to the `i`-th month end, written
      month/day/year, files its pages under the start's year and month, has
      no counts yet and needs loading. */
  lemma {:induction false} ScanPlanRows(s: Date, e: Date)
    requires Valid(s) && Valid(e)
    ensures Rows(s, e) <= |MonthStarts(s, e)| && Rows(s, e) <= |MonthEnds(s, e)|
    ensures var log, starts, ends, n := ScanPlan(s, e), MonthStarts(s, e), MonthEnds(s, e), Rows(s, e);
      && |log.query| == |log.startDate| == |log.endDate| == |log.fileDatePrefix| == n
      && |log.totalRows| == |log.numberRemaining| == |log.pages| == |log.status| == n
      && forall i :: 0 <= i < n ==>
           && Valid(starts[i]) && Valid(ends[i])
           && log.query[i] == Query(FormatMDY(starts[i]), FormatMDY(ends[i]))
           && log.startDate[i] == FormatMDY(starts[i])
           && log.endDate[i] == FormatMDY(ends[i])
           && log.fileDatePrefix[i] == FormatYM(starts[i])
           && log.totalRows[i].None? && log.numberRemaining[i].None? && log.pages[i].None?
           && log.status[i] == "Needs loading"
  {
    StartsValid(s, e);
    EndsCoverStarts(s, e);
  }

  /** `months_to_scan`: the query strings built in a loop, then the columns
      assigned one by one. */
  method MonthsToScan(s: Date, e: Date) returns (log: AuditLog)
    requires Valid(s) && Valid(e)
    ensures log == ScanPlan(s, e)
  {
    StartsValid(s, e);
    EndsCoverStarts(s, e);
    var startDateRange := FormatAll(MonthStarts(s, e));
    var endDateRange := FormatAll(MonthEnds(s, e));
    var fileDatePrefix := PrefixAll(MonthStarts(s, e));
    var listOfQueries := QueryList(startDateRange, endDateRange);
    var n := |listOfQueries|;
    SliceTake(startDateRange, |startDateRange| - 1);
    SliceTake(endDateRange, |startDateRange| - 1);
    SliceTake(fileDatePrefix, |fileDatePrefix| - 1);
    log := AuditLog(listOfQueries, [], [], [], [], [], [], []);
    log := log.(startDate := Slice(startDateRange, 0, |startDateRange| - 1));
    log := log.(endDate := Slice(endDateRange, 0, |startDateRange| - 1));
    log := log.(fileDatePrefix := Slice(fileDatePrefix, 0, |fileDatePrefix| - 1));
    log := log.(totalRows := seq(n, _ => None));
    log := log.(numberRemaining := seq(n, _ => None));
    log := log.(pages := seq(n, _ => None));
    log := log.(status := seq(n, _ => "Needs loading"));
    assert log.query == ScanPlan(s, e).query;
  }

  /** The loop of `months_to_scan`: one query per month start but the last,
      from that start to the month end at the same position. */
  method QueryList(startDateRange: seq<string>, endDateRange: seq<string>) returns (queries: seq<string>)
    requires |endDateRange| >= |startDateRange| - 1
    ensures |queries| == if |startDateRange| == 0 then 0 else |startDateRange| - 1
    ensures forall j :: 0 <= j < |queries| ==> queries[j] == Query(startDateRange[j], endDateRange[j])
  {
    queries := [];
    var i := 0;
    while i < |startDateRange| - 1
      invariant 0 <= i && |queries| == i
      invariant i <= if |startDateRange| == 0 then 0 else |startDateRange| - 1
      invariant forall j :: 0 <= j < i ==> queries[j] == Query(startDateRange[j], endDateRange[j])
    {
      queries := queries + [Query(startDateRange[i], endDateRange[i])];
      i := i + 1;
    }
  }

  // ---------------------------------------------------------------------------
  // Row alignment

  /** From a first of the month, row `i` covers one whole calendar month: its
      end is the last day of its start's month. */
  lemma {:induction false} RowsAlignedFromFirst(s: Date, e: Date)
    requires Valid(s) && Valid(e) && s.day == 1
    ensures Rows(s, e) <= |MonthEnds(s, e)|
    ensures forall i :: 0 <= i < Rows(s, e) ==>
      MonthEnds(s, e)[i] == LastDay(MonthOf(MonthStarts(s, e)[i]))
  {
    var starts, ends := MonthStarts(s, e), MonthEnds(s, e);
    MonthStartsClosed(s, e);
    MonthEndsClosed(s, e);
    forall i | 0 <= i < Rows(s, e) ensures ends[i] == LastDay(MonthOf(starts[i])) {
      MonthOrder(ends[i], starts[i]);
    }
  }

  /** From any other day, row `i` pairs the first of a month with the last
      day of the month before, so its query selects nothing. */
  lemma {:induction false} RowsMisalignedFromMidMonth(s: Date, e: Date)
    requires Valid(s) && Valid(e) && s.day != 1
    ensures Rows(s, e) <= |MonthEnds(s, e)|
    ensures forall i :: 0 <= i < Rows(s, e) ==>
      && MonthIndex(MonthEnds(s, e)[i]) == MonthIndex(MonthStarts(s, e)[i]) - 1
      && !NotAfter(MonthStarts(s, e)[i], MonthEnds(s, e)[i])
  {
    var starts, ends := MonthStarts(s, e), MonthEnds(s, e);
    MonthStartsClosed(s, e);
    MonthEndsClosed(s, e);
    forall i | 0 <= i < Rows(s, e)
      ensures MonthIndex(ends[i]) == MonthIndex(starts[i]) - 1 && !NotAfter(starts[i], ends[i])
    {
      MonthOrder(ends[i], starts[i]);
    }
  }

  /** The month starts from 15 January to 1 March 2022: 1 February and
      1 March. */
  lemma {:induction false} MidMonthStarts(s: Date, e: Date)
    requires s == Date(2022, 1, 15) && e == Date(2022, 3, 1)
    ensures Valid(s) && Valid(e)
    ensures |MonthStarts(s, e)| == 2 && MonthStarts(s, e)[0] == Date(2022, 2, 1)
  {
    MonthStartsClosed(s, e);
    MonthOrder(MonthStarts(s, e)[0], Date(2022, 2, 1));
  }

  /** The first month end from 15 January to 1 March 2022: 31 January. */
  lemma {:induction false} MidMonthEnds(s: Date, e: Date)
    requires s == Date(2022, 1, 15) && e == Date(2022, 3, 1)
    ensures Valid(s) && Valid(e)
    ensures |MonthEnds(s, e)| >= 1 && MonthEnds(s, e)[0] == Date(2022, 1, 31)
  {
    assert DaysInMonth(2022, 1) == 31;
    MonthEndsClosed(s, e);
    MonthOrder(MonthEnds(s, e)[0], s);
  }

  lemma {:induction false} MidMonthTexts()
    ensures Valid(Date(2022, 2, 1)) && FormatMDY(Date(2022, 2, 1)) == "02/01/2022"
    ensures Valid(Date(2022, 1, 31)) && FormatMDY(Date(2022, 1, 31)) == "01/31/2022"
  {
  }

  /** From 15 January to 1 March 2022 the plan has one row, and its query
      runs from 1 February back to 31 January:
      `WHENMODIFIED >= 02/01/2022 AND WHENMODIFIED <= 01/31/2022`. */
  lemma {:induction false} MidMonthCounterexample(s: Date, e: Date)
    requires s == Date(2022, 1, 15) && e == Date(2022, 3, 1)
    ensures Valid(s) && Valid(e) && Rows(s, e) == 1 && |MonthEnds(s, e)| >= 1
    ensures Query(FormatMDY(MonthStarts(s, e)[0]), FormatMDY(MonthEnds(s, e)[0]))
         == Query("02/01/2022", "01/31/2022")
  {
    MidMonthStarts(s, e);
    MidMonthEnds(s, e);
    MidMonthTexts();
  }

  /** The end each row evidently intends: the last day of its start's
      month. */
  function AlignedEnds(s: Date, e: Date): (r: seq<Date>)
    requires Valid(s) && Valid(e)
    ensures |r| == Rows(s, e)
  {
    var starts := MonthStarts(s, e);
    seq(Rows(s, e), i requires 0 <= i < Rows(s, e) => LastDay(MonthOf(starts[i])))
  }

  /** With the intended ends every row covers exactly one calendar month
      inside `[s, e]`: its end is a listed month end in the same month as its
      start. From a first of the month these are the ends the source uses. */
  lemma {:induction false} AlignedRowsSpanOneMonth(s: Date, e: Date)
    requires Valid(s) && Valid(e)
    ensures var starts, ends := MonthStarts(s, e), AlignedEnds(s, e);
      forall i :: 0 <= i < |ends| ==>
        && ends[i] in MonthEnds(s, e)
        && MonthIndex(ends[i]) == MonthIndex(starts[i])
        && NotAfter(starts[i], ends[i])
    ensures Rows(s, e) <= |MonthEnds(s, e)|
    ensures s.day == 1 ==> AlignedEnds(s, e) == MonthEnds(s, e)[..Rows(s, e)]
  {
    var starts, ends := MonthStarts(s, e), AlignedEnds(s, e);
    MonthStartsClosed(s, e);
    MonthStartsMeaning(s, e);
    MonthEndsMeaning(s, e);
    EndsCoverStarts(s, e);
    forall i | 0 <= i < |ends|
      ensures ends[i] in MonthEnds(s, e) && MonthIndex(ends[i]) == MonthIndex(starts[i])
           && NotAfter(starts[i], ends[i])
    {
      assert starts[i] in starts;
      assert starts[i + 1] in starts;
      MonthOrder(ends[i], starts[i + 1]);
      BetweenValid(ends[i], s, e);
    }
    if s.day == 1 {
      RowsAlignedFromFirst(s, e);
    }
  }
}
