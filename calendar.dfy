/**
 * Calendar months as integers, the strftime labels "%Y-%m" and "%m/%Y", and the window of
 * months that both variants of values_grouped_by_month enumerate. "Today" is a parameter:
 * the clock (Time.zone.today) is not part of the model.
 */
module Calendar {
  import opened Wrappers
  import opened Decimal

  type MonthNumber = m: int | 1 <= m <= 12 witness 1
  type DayNumber = d: int | 1 <= d <= 31 witness 1

  datatype Date = Date(year: int, month: MonthNumber, day: DayNumber)

  /** A point in time: a date and the second of that day (the time part of `stop_at`). */
  datatype Instant = Instant(date: Date, second: nat)

  /** Months counted from January of year 0, so that `n.months.ago` is a subtraction. */
  function MonthIndex(d: Date): int
  {
    d.year * 12 + d.month - 1
  }

  /** `beginning_of_month` of the month with the given index. */
  function BeginningOfMonth(i: int): (d: Date)
    ensures MonthIndex(d) == i && d.day == 1
  {
    Date(i / 12, i % 12 + 1, 1)
  }

  /** The first of a date's own month has the date's year and month. */
  lemma BeginningOfOwnMonth(d: Date)
    ensures BeginningOfMonth(MonthIndex(d)).year == d.year
    ensures BeginningOfMonth(MonthIndex(d)).month == d.month
  {
    var i := MonthIndex(d);
    var q, r := d.year, d.month - 1;
    assert i == q * 12 + r && 0 <= r < 12;
    DivModUnique(i, q, r);
  }

  lemma DivModUnique(i: int, q: int, r: int)
    requires i == q * 12 + r && 0 <= r < 12
    ensures i / 12 == q && i % 12 == r
  {
  }

  /** The "%Y-%m" of a date is the "%Y-%m" of the first of its month. */
  lemma YearMonthOfOwnMonth(d: Date)
    ensures YearMonth(BeginningOfMonth(MonthIndex(d))) == YearMonth(d)
  {
    BeginningOfOwnMonth(d);
  }

  /** `k.months.ago.beginning_of_month`, seen from today. */
  function MonthsAgo(today: Date, k: int): int
  {
    MonthIndex(today) - k
  }

  /** strftime("%Y"): at least four digits, with a leading '-' for years before 0. */
  function YearField(y: int): (s: string)
    ensures 4 <= |s|
  {
    if y < 0 then "-" + PadLeft(NatToString(-y), 4) else PadLeft(NatToString(y), 4)
  }

  /** strftime("%m"): two digits. */
  function MonthField(m: MonthNumber): (s: string)
    ensures |s| == 2 && AllDigits(s) && DigitsValue(s) == m
  {
    SmallNatToString(m);
    DigitsValueOfNatToString(m);
    PadLeft(NatToString(m), 2)
  }

  /** strftime("%Y-%m"): the month of a date as counter keys store it. */
  function YearMonth(d: Date): string
  {
    YearField(d.year) + "-" + MonthField(d.month)
  }

  /** strftime("%m/%Y"): the label of a month in a monthly series. */
  function MonthSlashYear(d: Date): string
  {
    MonthField(d.month) + ("/" + YearField(d.year))
  }

  lemma SmallNatToString(n: nat)
    requires n < 100
    ensures |NatToString(n)| <= 2
  {
    if n >= 10 {
      assert NatToString(n) == NatToString(n / 10) + [DigitChar(n % 10)];
    }
  }

  /** Reads a "%Y" field back. */
  function ReadYear(s: string): int
  {
    if |s| > 0 && s[0] == '-' && AllDigits(s[1..]) then -(DigitsValue(s[1..]) as int)
    else if AllDigits(s) then DigitsValue(s)
    else 0
  }

  lemma ReadPaddedYear(n: nat)
    ensures AllDigits(PadLeft(NatToString(n), 4))
    ensures DigitsValue(PadLeft(NatToString(n), 4)) == n
  {
    DigitsValueOfNatToString(n);
  }

  lemma ReadDigitsYear(p: string)
    requires |p| > 0 && AllDigits(p)
    ensures ReadYear(p) == DigitsValue(p)
  {
    assert IsDigit(p[0]);
  }

  lemma ReadNegativeYear(p: string)
    requires AllDigits(p)
    ensures ReadYear("-" + p) == -(DigitsValue(p) as int)
  {
    assert ("-" + p)[1..] == p;
  }

  lemma ReadYearField(y: int)
    ensures ReadYear(YearField(y)) == y
  {
    if y < 0 {
      ReadPaddedYear(-y);
      ReadNegativeYear(PadLeft(NatToString(-y), 4));
    } else {
      ReadPaddedYear(y);
      ReadDigitsYear(PadLeft(NatToString(y), 4));
    }
  }

  /** Two concatenations with equally long heads are equal part by part. */
  lemma SplitConcat(a: string, b: string, c: string, e: string)
    requires |a| == |c| && a + b == c + e
    ensures a == c && b == e
  {
    assert a == (a + b)[..|a|];
    assert c == (c + e)[..|c|];
    assert b == (a + b)[|a|..];
    assert e == (c + e)[|c|..];
  }

  /** Different months get different "%m/%Y" labels. */
  lemma MonthSlashYearInjective(d: Date, e: Date)
    requires MonthSlashYear(d) == MonthSlashYear(e)
    ensures d.year == e.year && d.month == e.month
  {
    SplitConcat(MonthField(d.month), "/" + YearField(d.year), MonthField(e.month), "/" + YearField(e.year));
    SplitConcat("/", YearField(d.year), "/", YearField(e.year));
    ReadYearField(d.year);
    ReadYearField(e.year);
  }

  /** `month < stop_at` for the first instant (00:00) of the month with index i. */
  predicate StartsBefore(i: int, stop: Instant)
  {
    var start := BeginningOfMonth(i);
    start.year < stop.date.year
    || (start.year == stop.date.year && start.month < stop.date.month)
    || (start.year == stop.date.year && start.month == stop.date.month
        && (1 < stop.date.day || (stop.date.day == 1 && 0 < stop.second)))
  }

  /** `stop_at.blank? || month < stop_at`. */
  predicate Kept(i: int, stopAt: Option<Instant>)
  {
    stopAt.None? || StartsBefore(i, stopAt.value)
  }

  predicate StrictlyIncreasing(s: seq<int>)
  {
    forall i, j | 0 <= i < j < |s| :: s[i] < s[j]
  }

  /**
   * `(0..n).map { |i| (n - i).months.ago.beginning_of_month }`: the n + 1 months that end
   * with the current one, oldest first; empty when n is negative.
   */
  function RelevantMonths(today: Date, n: int): (r: seq<int>)
    ensures |r| == if n < 0 then 0 else n + 1
    ensures forall i | 0 <= i < |r| - 1 :: r[i + 1] == r[i] + 1
    ensures StrictlyIncreasing(r)
    ensures |r| > 0 ==> r[0] == MonthIndex(today) - n && r[|r| - 1] == MonthIndex(today)
  {
    if n < 0 then [] else seq(n + 1, i requires 0 <= i <= n => MonthsAgo(today, n - i))
  }

  /** `.filter { |month| stop_at.blank? || month < stop_at }`, order kept. */
  function KeepBefore(months: seq<int>, stopAt: Option<Instant>): (r: seq<int>)
    ensures forall m :: m in r <==> m in months && Kept(m, stopAt)
    ensures |r| <= |months|
    decreases |months|
  {
    if months == [] then []
    else
      var rest := KeepBefore(months[1..], stopAt);
      assert forall m :: m in months <==> m == months[0] || m in months[1..];
      if Kept(months[0], stopAt) then [months[0]] + rest else rest
  }

  lemma {:induction false} KeepBeforeIncreasing(months: seq<int>, stopAt: Option<Instant>)
    requires StrictlyIncreasing(months)
    ensures StrictlyIncreasing(KeepBefore(months, stopAt))
    decreases |months|
  {
    if months != [] {
      var rest := KeepBefore(months[1..], stopAt);
      KeepBeforeIncreasing(months[1..], stopAt);
      if Kept(months[0], stopAt) {
        var r := [months[0]] + rest;
        assert KeepBefore(months, stopAt) == r;
        forall i, j | 0 <= i < j < |r| ensures r[i] < r[j] {
          assert r[j] == rest[j - 1] && rest[j - 1] in months[1..];
          if i > 0 { assert r[i] == rest[i - 1]; }
        }
      }
    }
  }

  /** The "%m/%Y" label of the month with index i. */
  function Label(i: int): string
  {
    MonthSlashYear(BeginningOfMonth(i))
  }

  lemma LabelInjective(i: int, j: int)
    ensures Label(i) == Label(j) ==> i == j
  {
    if Label(i) == Label(j) {
      MonthSlashYearInjective(BeginningOfMonth(i), BeginningOfMonth(j));
    }
  }

  /**
   * `.to_h { |month| [month.strftime("%m/%Y"), value_of(month).round(2)] }`: the months are
   * read oldest first and the first read that raises ends the series with its error.
   */
  function Series<E>(months: seq<int>, valueOf: int -> Result<real, E>, round2: real -> real)
      : (r: Result<seq<(string, real)>, E>)
    ensures r.Ok? <==> forall i | 0 <= i < |months| :: valueOf(months[i]).Ok?
    ensures r.Ok? ==> (|r.value| == |months|
      && forall i | 0 <= i < |months| :: r.value[i] == (Label(months[i]), round2(valueOf(months[i]).value)))
    decreases |months|
  {
    if months == [] then Ok([])
    else
      var v :- valueOf(months[0]);
      var rest := Series(months[1..], valueOf, round2);
      assert forall i | 1 <= i < |months| :: months[i] == months[1..][i - 1];
      var tail :- rest;
      Ok([(Label(months[0]), round2(v))] + tail)
  }

  /** Over strictly increasing months the labels are distinct, so the hash keeps every entry. */
  lemma SeriesLabelsDistinct<E>(months: seq<int>, valueOf: int -> Result<real, E>, round2: real -> real)
    requires StrictlyIncreasing(months)
    requires Series(months, valueOf, round2).Ok?
    ensures var r := Series(months, valueOf, round2).value;
      forall i, j | 0 <= i < j < |r| :: r[i].0 != r[j].0
  {
    var r := Series(months, valueOf, round2).value;
    forall i, j | 0 <= i < j < |r| ensures r[i].0 != r[j].0 {
      LabelInjective(months[i], months[j]);
    }
  }
}
