/**
 * Statisfy::Aggregate: `aggregate`, a `count` over a value the counter appends to every
 * bucket's list, and the `value` that reads such a counter back as the average of its list.
 */
module Aggregate {
  import opened Wrappers
  import opened Calendar
  import opened Keys
  import opened Redis
  import opened Definition
  import opened Subscriber
  import opened Counter

  /** `aggregate`: a missing `value:` is an ArgumentError; otherwise `count` with type :aggregate. */
  function AggregateCounter(host: HostClass, args: Args, constants: set<string>): (r: Result<CounterDef, Error>)
    ensures args.value.None? ==> r == Err(ArgumentError("You must provide the value to aggregate"))
    ensures args.value.Some? && Blank(args.every) ==> r == Err(ArgumentError("You must provide at least one event"))
    ensures args.value.Some? && !Blank(args.every) ==> (r.Ok? <==> CatchEvents(args.every.value, constants).Ok?)
    ensures r.Ok? ==> r.value.counterType == CounterType.Aggregate && r.value.value == args.value.value
    ensures r.Ok? ==> r.value.bindings == CatchEvents(args.every.value, constants).value
  {
    if args.value.None? then Err(ArgumentError("You must provide the value to aggregate"))
    else Count(host, args.(counterType := Some(CounterType.Aggregate)), constants)
  }

  /** `month&.strftime("%Y-%m") if month.present?` */
  function MonthKey(month: Option<Date>): (r: Option<string>)
    ensures r.None? <==> month.None?
    ensures month.Some? ==> r == Some(YearMonth(month.value))
  {
    match month
    case None => None
    case Some(m) => Some(YearMonth(m))
  }

  /**
   * `value`: the mean of the list in the bucket of the scope and the month ("%Y-%m" of the
   * date given, or the all-time bucket), 0 for an empty list; WRONGTYPE on a set key.
   */
  function Value(def: CounterDef, d: Data, scope: Option<Scope>, month: Option<Date>): (r: Result<real, Error>)
    ensures scope.None? ==> r == Err(NoMethodError("id"))
    ensures scope.Some? ==>
      var k := KeyFor(def, scope.value, MonthKey(month), None);
      (r.Ok? <==> k !in d || d[k].Items?)
      && (r.Ok? ==> r.value == Mean(ItemsOf(d, k)))
      && (r.Err? ==> r.error == WrongType)
  {
    AverageFor(def, d, scope, MonthKey(month))
  }

  /**
   * As the class is built, `value` is Counter's: Counter's class methods are extended after
   * these ones and shadow them. Once an aggregate counter has appended a value, that `value`
   * answers WRONGTYPE for the global bucket, while the average is there to read.
   */
  lemma ShadowedValueRaises(def: CounterDef, ctx: Context, d: Data)
    requires def.counterType == CounterType.Aggregate
    requires ChosenAction(def, ctx).AppendValue? && Effect(def, ctx, d).1
    ensures var after := Effect(def, ctx, d).0;
      Counter.Value(def, after, Some(Global), None) == Err(WrongType)
      && Value(def, after, Some(Global), None).Ok?
  {
    var k := KeyFor(def, Global, None, None);
    var ks := FanOut(def, ctx, None);
    GlobalInFanOut(def, ctx, None);
    OccurrencesOfMember(ks, k);
    AppendPushesValue(def, ctx, d, k);
    var after := Effect(def, ctx, d).0;
    assert ItemsOf(after, k) != [];
  }

  lemma {:induction false} SumAppend(xs: seq<int>, ys: seq<int>)
    ensures Sum(xs + ys) == Sum(xs) + Sum(ys)
    decreases |xs|
  {
    if xs == [] {
      assert xs + ys == ys;
    } else {
      assert (xs + ys)[1..] == xs[1..] + ys;
      SumAppend(xs[1..], ys);
    }
  }

  lemma {:induction false} SumRepeat(v: int, n: nat)
    ensures Sum(Repeat(v, n)) == v * n
    decreases n
  {
    if n > 0 {
      assert Repeat(v, n)[1..] == Repeat(v, n - 1);
      SumRepeat(v, n - 1);
    }
  }

  /** n copies each of 2000, 3000 and 4000 sum to n times 9000, and their mean is 3000. */
  lemma MeanOfSalaries(n: nat)
    requires n >= 1
    ensures Sum(Repeat(2000, n) + Repeat(3000, n) + Repeat(4000, n)) == 9000 * n
    ensures Mean(Repeat(2000, n) + Repeat(3000, n) + Repeat(4000, n)) == 3000.0
  {
    var items := Repeat(2000, n) + Repeat(3000, n) + Repeat(4000, n);
    SumOfSalaries(n);
    IntMulAsReal(9000, n);
    assert Sum(items) as real == 3000.0 * |items| as real;
    MeanFromSum(items, 3000.0);
  }

  lemma SumOfSalaries(n: nat)
    ensures |Repeat(2000, n) + Repeat(3000, n) + Repeat(4000, n)| == 3 * n
    ensures Sum(Repeat(2000, n) + Repeat(3000, n) + Repeat(4000, n)) == 9000 * n
  {
    SumAppend(Repeat(2000, n) + Repeat(3000, n), Repeat(4000, n));
    SumAppend(Repeat(2000, n), Repeat(3000, n));
    SumRepeat(2000, n);
    SumRepeat(3000, n);
    SumRepeat(4000, n);
  }

  /**
   * Three records with salaries 2000, 3000 and 4000, whose events have the same buckets,
   * give the global all-time bucket an average of 3000; its values sum to 9000 when the
   * fan-out names that bucket once.
   */
  lemma SalaryAverage(def: CounterDef, c1: Context, c2: Context, c3: Context)
    requires FanOut(def, c2, None) == FanOut(def, c1, None) && FanOut(def, c3, None) == FanOut(def, c1, None)
    requires ChosenAction(def, c1) == AppendValue(2000)
    requires ChosenAction(def, c2) == AppendValue(3000)
    requires ChosenAction(def, c3) == AppendValue(4000)
    ensures var d1 := Effect(def, c1, map[]);
      var d2 := Effect(def, c2, d1.0);
      var d3 := Effect(def, c3, d2.0);
      d1.1 && d2.1 && d3.1 && Value(def, d3.0, Some(Global), None) == Ok(3000.0)
      && Sum(ItemsOf(d3.0, KeyFor(def, Global, None, None)))
         == 9000 * Occurrences(FanOut(def, c1, None), KeyFor(def, Global, None, None))
  {
    var ks := FanOut(def, c1, None);
    var k := KeyFor(def, Global, None, None);
    var e1 := WriteAll(map[], ks, Push(2000));
    var e2 := WriteAll(e1.0, ks, Push(3000));
    EffectOfAppend(def, c1, map[], 2000);
    EffectOfAppend(def, c2, e1.0, 3000);
    EffectOfAppend(def, c3, e2.0, 4000);
    GlobalInFanOut(def, c1, None);
    ThreePushes(ks, k, 2000, 3000, 4000);
    MeanOfSalaries(Occurrences(ks, k));
  }
}
