/**
 * Statisfy::Monthly: a second `values_grouped_by_month`, for counter classes that include
 * it. It reads the host's `value(scope:, month:)`, a parameter here, with the first day of
 * each month, and it computes the window of months with its own arithmetic.
 */
module Monthly {
  import opened Wrappers
  import opened Calendar
  import opened Keys
  import opened Definition
  import opened Counter

  /**
   * `(today.year + today.month) - (start.year + start.month)`, as written: 11 months short
   * of the real distance for every year between the two dates.
   */
  function NMonthsAsWritten(today: Date, start: Date): (n: int)
    ensures n == MonthsSince(today, start) - 11 * (today.year - start.year)
  {
    (today.year + today.month) - (start.year + start.month)
  }

  /** The window as written is the real one exactly when both dates are in the same year. */
  lemma NMonthsAsWrittenExact(today: Date, start: Date)
    ensures NMonthsAsWritten(today, start) == MonthsSince(today, start) <==> today.year == start.year
  {
    var n := NMonthsAsWritten(today, start);
    assert n - MonthsSince(today, start) == 11 * (start.year - today.year);
  }

  /** The months of the series, with the window as written. */
  function MonthsShownAsWritten(today: Date, scope: Option<Scope>, startAt: Option<Date>, stopAt: Option<Instant>): seq<int>
  {
    var n := match SeriesStart(scope, startAt) case None => 24 case Some(start) => NMonthsAsWritten(today, start);
    KeepBefore(RelevantMonths(today, n), stopAt)
  }

  /** Within one calendar year, and without a start, both windows show the same months. */
  lemma MonthsShownAsWrittenWithinYear(today: Date, scope: Option<Scope>, startAt: Option<Date>, stopAt: Option<Instant>)
    requires SeriesStart(scope, startAt).None? || SeriesStart(scope, startAt).value.year == today.year
    ensures MonthsShownAsWritten(today, scope, startAt, stopAt) == MonthsShown(today, scope, startAt, stopAt)
  {
    if SeriesStart(scope, startAt).Some? {
      NMonthsAsWrittenExact(today, SeriesStart(scope, startAt).value);
    }
  }

  /** From an earlier year up to today, the window as written always shows fewer months. */
  lemma MonthsShownAsWrittenShorter(today: Date, scope: Option<Scope>, start: Date)
    requires start.year < today.year
    ensures |MonthsShownAsWritten(today, scope, Some(start), None)| < |MonthsShown(today, scope, Some(start), None)|
  {
    KeepBeforeNone(RelevantMonths(today, NMonthsAsWritten(today, start)));
    KeepBeforeNone(RelevantMonths(today, MonthsSince(today, start)));
  }

  /** `values_grouped_by_month` as written: the series over the window as written. */
  function ValuesGroupedByMonthAsWritten(today: Date, scope: Option<Scope>, startAt: Option<Date>, stopAt: Option<Instant>,
                                         valueOf: (Option<Scope>, Date) -> Result<real, Error>, round2: real -> real)
      : (r: Result<seq<(string, real)>, Error>)
    ensures var ms := MonthsShownAsWritten(today, scope, startAt, stopAt);
      (r.Ok? <==> forall i | 0 <= i < |ms| :: valueOf(scope, BeginningOfMonth(ms[i])).Ok?)
      && (r.Ok? ==> (|r.value| == |ms|
        && forall i | 0 <= i < |ms| ::
             r.value[i] == (Label(ms[i]), round2(valueOf(scope, BeginningOfMonth(ms[i])).value))))
  {
    Series(MonthsShownAsWritten(today, scope, startAt, stopAt), m => valueOf(scope, BeginningOfMonth(m)), round2)
  }

  /**
   * `values_grouped_by_month` with the window of counter.rb: one ("%m/%Y" label, rounded value)
   * entry per month from the start month to the current one, with distinct labels.
   */
  function ValuesGroupedByMonth(today: Date, scope: Option<Scope>, startAt: Option<Date>, stopAt: Option<Instant>,
                                valueOf: (Option<Scope>, Date) -> Result<real, Error>, round2: real -> real)
      : (r: Result<seq<(string, real)>, Error>)
    ensures var ms := MonthsShown(today, scope, startAt, stopAt);
      (r.Ok? <==> forall i | 0 <= i < |ms| :: valueOf(scope, BeginningOfMonth(ms[i])).Ok?)
      && (r.Ok? ==> (|r.value| == |ms|
        && (forall i | 0 <= i < |ms| ::
              r.value[i] == (Label(ms[i]), round2(valueOf(scope, BeginningOfMonth(ms[i])).value)))
        && (forall i, j | 0 <= i < j < |r.value| :: r.value[i].0 != r.value[j].0)))
  {
    var ms := MonthsShown(today, scope, startAt, stopAt);
    var n := match SeriesStart(scope, startAt) case None => 24 case Some(start) => MonthsSince(today, start);
    KeepBeforeIncreasing(RelevantMonths(today, n), stopAt);
    var read := m => valueOf(scope, BeginningOfMonth(m));
    var r := Series(ms, read, round2);
    if r.Ok? then SeriesLabelsDistinct(ms, read, round2); r else r
  }

  /**
   * Started in December and read in the January after it (December 2024 and January 2025,
   * say), the series as written is empty, its window being -10, while two months are due:
   * December and January.
   */
  lemma DecemberToJanuary(today: Date, start: Date, scope: Option<Scope>,
                          valueOf: (Option<Scope>, Date) -> Result<real, Error>, round2: real -> real)
    requires start.month == 12 && today.month == 1 && today.year == start.year + 1
    ensures ValuesGroupedByMonthAsWritten(today, scope, Some(start), None, valueOf, round2) == Ok([])
    ensures var r := ValuesGroupedByMonth(today, scope, Some(start), None, valueOf, round2);
      r.Ok? ==> |r.value| == 2 && r.value[0].0 == Label(MonthIndex(start)) && r.value[1].0 == Label(MonthIndex(today))
  {
    assert NMonthsAsWritten(today, start) == -10;
    assert MonthsShownAsWritten(today, scope, Some(start), None) == [];
    MonthsShownFromStart(today, scope, Some(start), start);
  }
}
