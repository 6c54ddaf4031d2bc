/**
 * Statisfy::Counter: the `count` DSL, the Redis keys of a counter's buckets, the reads
 * (`value`, `number_of_elements_in`, `elements_in`, `average_for`, `all_keys`), the monthly
 * series, `reset`, and a counter instance whose `process_event` fans one write out to every
 * bucket of the event. The clock, `round(2)` and the model classes that exist are parameters.
 */
module Counter {
  import opened Wrappers
  import opened Decimal
  import opened Calendar
  import opened Keys
  import opened Redis
  import opened Definition
  import opened Subscriber

  // ---------------------------------------------------------------------------------------
  // The `count` DSL
  // ---------------------------------------------------------------------------------------

  /**
   * `args[:every].blank?`: no option, an empty array, or the empty symbol (a Symbol is blank
   * exactly when it is empty).
   */
  predicate Blank(every: Option<Events>)
  {
    match every
    case None => true
    case Some(EventName(n)) => n == ""
    case Some(EventList(items)) => items == []
  }

  /** The default `identifier`: `params["id"]`, stored by Redis as its decimal text. */
  function DefaultIdentifier(ctx: Context): string
  {
    IntToString(ctx.params.attributes.id)
  }

  /** The counter class that `apply_default_counter_options` and COUNTER_TYPE make of args. */
  function Defined(host: HostClass, bindings: seq<Binding>, args: Args): (r: CounterDef)
    ensures r.host == host && r.bindings == bindings && r.scopes == args.scopes
    ensures args.counterType.None? ==> r.counterType == Increment
    ensures args.counterType.Some? ==> r.counterType == args.counterType.value
    ensures args.uniqBy.None? ==> forall ctx :: r.identifier(ctx) == IntToString(ctx.params.attributes.id)
    ensures args.uniqBy.Some? ==> r.identifier == args.uniqBy.value
    ensures args.ifAsync.None? ==> forall ctx :: r.ifAsync(ctx)
    ensures args.ifAsync.Some? ==> r.ifAsync == args.ifAsync.value
    ensures args.decrementIf.None? ==> forall ctx :: !r.decrementIf(ctx)
    ensures args.decrementIf.Some? ==> r.decrementIf == args.decrementIf.value
    ensures args.value.None? ==> forall ctx :: r.value(ctx).None?
    ensures args.value.Some? ==> r.value == args.value.value
    ensures args.condition.None? ==> forall ctx :: r.shouldRun(ctx)
    ensures args.condition.Some? ==> r.shouldRun == args.condition.value
  {
    CounterDef(
      host,
      bindings,
      match args.counterType case Some(t) => t case None => Increment,
      match args.uniqBy case Some(f) => f case None => DefaultIdentifier,
      args.scopes,
      match args.ifAsync case Some(f) => f case None => (ctx: Context) => true,
      match args.decrementIf case Some(f) => f case None => (ctx: Context) => false,
      match args.value case Some(f) => f case None => (ctx: Context) => None,
      match args.condition case Some(f) => f case None => (ctx: Context) => true)
  }

  /**
   * `count`: a blank `every:` is an ArgumentError; otherwise every event name must resolve
   * to a model, and each option not given takes its default.
   */
  function Count(host: HostClass, args: Args, constants: set<string>): (r: Result<CounterDef, Error>)
    ensures Blank(args.every) ==> r == Err(ArgumentError("You must provide at least one event"))
    ensures !Blank(args.every) ==> (r.Ok? <==> CatchEvents(args.every.value, constants).Ok?)
    ensures !Blank(args.every) && r.Err? ==> r.error == CatchEvents(args.every.value, constants).error
    ensures r.Ok? ==> r.value.host == host && r.value.bindings == CatchEvents(args.every.value, constants).value
    ensures r.Ok? ==> r.value.scopes == args.scopes
    ensures r.Ok? && args.counterType.None? ==> r.value.counterType == Increment
    ensures r.Ok? && args.counterType.Some? ==> r.value.counterType == args.counterType.value
    ensures r.Ok? && args.uniqBy.None? ==> forall ctx :: r.value.identifier(ctx) == IntToString(ctx.params.attributes.id)
    ensures r.Ok? && args.uniqBy.Some? ==> r.value.identifier == args.uniqBy.value
    ensures r.Ok? && args.ifAsync.None? ==> forall ctx :: r.value.ifAsync(ctx)
    ensures r.Ok? && args.ifAsync.Some? ==> r.value.ifAsync == args.ifAsync.value
    ensures r.Ok? && args.decrementIf.None? ==> forall ctx :: !r.value.decrementIf(ctx)
    ensures r.Ok? && args.decrementIf.Some? ==> r.value.decrementIf == args.decrementIf.value
    ensures r.Ok? && args.value.None? ==> forall ctx :: r.value.value(ctx).None?
    ensures r.Ok? && args.value.Some? ==> r.value.value == args.value.value
    ensures r.Ok? && args.condition.None? ==> forall ctx :: r.value.shouldRun(ctx)
    ensures r.Ok? && args.condition.Some? ==> r.value.shouldRun == args.condition.value
  {
    if Blank(args.every) then Err(ArgumentError("You must provide at least one event"))
    else
      var bindings :- CatchEvents(args.every.value, constants);
      Ok(Defined(host, bindings, args))
  }

  /**
   * `count` as written: the `if:` keyword reaches `catch_events`, which takes only a splat,
   * so Ruby appends the options hash to the event names; `optionsText` is that hash's `to_s`.
   */
  function CountAsWritten(host: HostClass, args: Args, constants: set<string>, optionsText: string): (r: Result<CounterDef, Error>)
    ensures r.Ok? ==> ModelAndEventFromEventName(optionsText, constants).Ok?
  {
    if Blank(args.every) then Err(ArgumentError("You must provide at least one event"))
    else
      var names := FlattenEvents(args.every.value) + [optionsText];
      var bindings :- ResolveAll(names, Resolver(constants));
      assert names[|names| - 1] == optionsText;
      Ok(Defined(host, bindings, args))
  }

  /** A name that starts with the given character keeps it as its first field's first character. */
  lemma SplitAllHead(s: string)
    requires s != [] && s[0] != '_'
    ensures SplitAll(s)[0] != [] && SplitAll(s)[0][0] == s[0]
  {
    assert SplitAll(s)[0] == [s[0]] + SplitAll(s[1..])[0];
  }

  lemma JoinHead(parts: seq<string>)
    requires |parts| >= 1 && parts[0] != []
    ensures Join(parts) != [] && Join(parts)[0] == parts[0][0]
  {
    if |parts| > 1 {
      assert Join(parts) == parts[0] + "_" + Join(parts[1..]);
    }
  }

  /** Camelizing keeps a leading '{': it is neither a letter nor a digit. */
  lemma CamelizeBrace(j: string)
    requires j != [] && j[0] == '{'
    ensures Camelize(j) != [] && Camelize(j)[0] == '{'
  {
    SplitAllHead(j);
    var w := SplitAll(j)[0];
    assert RunLength(w, false) == 0;
    assert w[..0] == [] && w[0..] == w;
    assert CamelizeHead(w) == w;
  }

  /**
   * The text of a Hash (`{...}`) names no model: the fields before its last one, joined and
   * camelized, are empty or start with '{', and no class name does.
   */
  lemma OptionsTextNamesNoModel(optionsText: string, constants: set<string>)
    requires optionsText != [] && optionsText[0] == '{'
    requires forall c | c in constants :: c != "" && c[0] != '{'
    ensures ModelAndEventFromEventName(optionsText, constants).Err?
    ensures ModelAndEventFromEventName(optionsText, constants).error.StatisfyError?
  {
    SplitAllHead(optionsText);
    var parts := Split(optionsText);
    if parts != [] {
      assert parts[0] == SplitAll(optionsText)[0];
      var n := |parts|;
      if n == 1 {
        assert parts[..0] == [];
        assert Camelize("") == "" by {
          assert SplitAll("") == [""];
          assert RunLength("", false) == 0;
        }
      } else {
        JoinHead(parts[..n - 1]);
        CamelizeBrace(Join(parts[..n - 1]));
      }
    }
  }

  /** As written, every `count` raises: the options hash, as one more event name, names no model. */
  lemma CountAsWrittenAlwaysFails(host: HostClass, args: Args, constants: set<string>, optionsText: string)
    requires optionsText != [] && optionsText[0] == '{'
    requires forall c | c in constants :: c != "" && c[0] != '{'
    ensures CountAsWritten(host, args, constants, optionsText).Err?
  {
    OptionsTextNamesNoModel(optionsText, constants);
  }

  // ---------------------------------------------------------------------------------------
  // Keys and reads
  // ---------------------------------------------------------------------------------------

  /** The fields of a bucket of the counter. */
  function BucketKey(def: CounterDef, scope: Scope, month: Option<string>, group: Option<string>): CounterKey
  {
    CounterKey(def.host.counterName, group, month, scope.typeName, scope.id)
  }

  /** `key_for`: the JSON text of the bucket's fields. */
  function KeyFor(def: CounterDef, scope: Scope, month: Option<string>, group: Option<string>): string
  {
    Encode(BucketKey(def, scope, month, group))
  }

  /** A key written by `key_for` reads back as exactly the fields it was made of. */
  lemma KeyForDecodes(def: CounterDef, scope: Scope, month: Option<string>, group: Option<string>)
    ensures Decode(KeyFor(def, scope, month, group)) == Some(BucketKey(def, scope, month, group))
  {
    DecodeEncode(BucketKey(def, scope, month, group));
  }

  /** Different buckets of a counter have different keys. */
  lemma KeyForInjective(def: CounterDef, s: Scope, t: Scope, m: Option<string>, n: Option<string>, g: Option<string>, h: Option<string>)
    ensures KeyFor(def, s, m, g) == KeyFor(def, t, n, h) ==>
      s.typeName == t.typeName && s.id == t.id && m == n && g == h
  {
    EncodeInjective(BucketKey(def, s, m, g), BucketKey(def, t, n, h));
  }

  /** `key_for` on a nil scope: `nil.id` raises NoMethodError. */
  function ScopeKey(def: CounterDef, scope: Option<Scope>, month: Option<string>, group: Option<string>): (r: Result<string, Error>)
    ensures scope.None? <==> r.Err?
    ensures r.Err? ==> r.error == NoMethodError("id")
    ensures r.Ok? ==> r.value == KeyFor(def, scope.value, month, group)
  {
    match scope
    case None => Err(NoMethodError("id"))
    case Some(s) => Ok(KeyFor(def, s, month, group))
  }

  /** `number_of_elements_in`: SCARD of the bucket. */
  function NumberOfElementsIn(def: CounterDef, d: Data, scope: Option<Scope>, month: Option<string>, group: Option<string>): (r: Result<nat, Error>)
    ensures scope.None? ==> r == Err(NoMethodError("id"))
    ensures scope.Some? ==>
      var k := KeyFor(def, scope.value, month, group);
      (r.Ok? <==> k !in d || d[k].Members?)
      && (r.Ok? ==> r.value == |MembersOf(d, k)|)
      && (r.Err? ==> r.error == WrongType)
  {
    var k :- ScopeKey(def, scope, month, group);
    match SCard(d, k)
    case None => Err(WrongType)
    case Some(n) => Ok(n)
  }

  /** `elements_in`: LRANGE 0 -1 of the bucket. */
  function ElementsIn(def: CounterDef, d: Data, scope: Option<Scope>, month: Option<string>, group: Option<string>): (r: Result<seq<int>, Error>)
    ensures scope.None? ==> r == Err(NoMethodError("id"))
    ensures scope.Some? ==>
      var k := KeyFor(def, scope.value, month, group);
      (r.Ok? <==> k !in d || d[k].Items?)
      && (r.Ok? ==> r.value == ItemsOf(d, k))
      && (r.Err? ==> r.error == WrongType)
  {
    var k :- ScopeKey(def, scope, month, group);
    match LRange(d, k)
    case None => Err(WrongType)
    case Some(items) => Ok(items)
  }

  function Sum(xs: seq<int>): int
  {
    if xs == [] then 0 else xs[0] + Sum(xs[1..])
  }

  /** Every value between lo and hi puts the sum between |xs| times lo and |xs| times hi. */
  lemma {:induction false} SumBounds(xs: seq<int>, lo: int, hi: int)
    requires forall i | 0 <= i < |xs| :: lo <= xs[i] <= hi
    ensures lo * |xs| <= Sum(xs) <= hi * |xs|
  {
    if xs != [] {
      SumBounds(xs[1..], lo, hi);
      assert lo * |xs| == lo + lo * |xs[1..]|;
      assert hi * |xs| == hi + hi * |xs[1..]|;
    }
  }

  /** The mean of a list of values, 0 for the empty list. */
  function Mean(xs: seq<int>): (r: real)
    ensures xs == [] ==> r == 0.0
    ensures xs != [] ==> r * |xs| as real == Sum(xs) as real
  {
    if xs == [] then 0.0 else Sum(xs) as real / |xs| as real
  }

  /** The mean lies between the smallest and the largest value. */
  lemma MeanWithin(xs: seq<int>, lo: int, hi: int)
    requires xs != []
    requires forall i | 0 <= i < |xs| :: lo <= xs[i] <= hi
    ensures lo as real <= Mean(xs) <= hi as real
  {
    SumBounds(xs, lo, hi);
    var n := |xs| as real;
    IntMulAsReal(lo, |xs|);
    IntMulAsReal(hi, |xs|);
    ScaleBack(lo as real, Mean(xs), n);
    ScaleBack(Mean(xs), hi as real, n);
  }

  /** A list whose values sum to |xs| times m has mean m. */
  lemma MeanFromSum(xs: seq<int>, m: real)
    requires xs != [] && Sum(xs) as real == m * |xs| as real
    ensures Mean(xs) == m
  {
    var n := |xs| as real;
    ScaleBack(Mean(xs), m, n);
    ScaleBack(m, Mean(xs), n);
  }

  lemma IntMulAsReal(a: int, b: int)
    ensures (a * b) as real == a as real * b as real
  {
  }

  lemma ScaleBack(x: real, y: real, n: real)
    requires n > 0.0 && x * n <= y * n
    ensures x <= y
  {
  }

  /** `average_for`: the mean of the bucket's list, 0 when it is empty or absent. */
  function AverageFor(def: CounterDef, d: Data, scope: Option<Scope>, month: Option<string>): (r: Result<real, Error>)
    ensures ElementsIn(def, d, scope, month, None).Err? ==> r == Err(ElementsIn(def, d, scope, month, None).error)
    ensures ElementsIn(def, d, scope, month, None).Ok? ==> r == Ok(Mean(ElementsIn(def, d, scope, month, None).value))
  {
    var items :- ElementsIn(def, d, scope, month, None);
    Ok(Mean(items))
  }

  /**
   * `Counter.value`: the mean of the bucket's list for an `:average` counter, the size of the
   * bucket's set for every other type (`:increment`, `:aggregate`, ...).
   */
  function Value(def: CounterDef, d: Data, scope: Option<Scope>, month: Option<string>): (r: Result<real, Error>)
    ensures def.counterType == Average ==> r == AverageFor(def, d, scope, month)
    ensures def.counterType != Average && scope.Some? ==>
      var k := KeyFor(def, scope.value, month, None);
      (r.Ok? <==> k !in d || d[k].Members?) && (r.Ok? ==> r.value == |MembersOf(d, k)| as real)
    ensures scope.None? ==> r == Err(NoMethodError("id"))
  {
    if def.counterType == Average then AverageFor(def, d, scope, month)
    else
      var n :- NumberOfElementsIn(def, d, scope, month, None);
      Ok(n as real)
  }

  /** Whether s contains t at some position: the glob `*t*`. */
  predicate Contains(s: string, t: string)
    decreases |s|
  {
    t <= s || (s != [] && Contains(s[1..], t))
  }

  /** The KEYS pattern `*"counter":"<name>"*` of `all_keys`. */
  predicate ListedByKeys(name: string, k: string)
  {
    Contains(k, "\"counter\":\"" + name + "\"")
  }

  /** The filter of `all_keys`: each given criterion must hold, an omitted one always does. */
  predicate KeyMatches(key: CounterKey, scope: Option<Scope>, month: Option<string>, group: Option<string>)
  {
    (scope.None? || (key.scopeType == scope.value.typeName && key.scopeId == scope.value.id))
    && (month.None? || key.month == month)
    && (group.None? || key.group == group)
  }

  /** The keys that KEYS returns for the counter. */
  function Listed(def: CounterDef, d: Data): set<string>
  {
    set k | k in d && ListedByKeys(def.host.counterName, k)
  }

  /**
   * `all_keys`: the listed keys whose fields pass the filter. A listed key that is not a
   * counter key makes JSON.parse raise.
   */
  function AllKeys(def: CounterDef, d: Data, scope: Option<Scope>, month: Option<string>, group: Option<string>): (r: Result<set<string>, Error>)
    ensures r.Err? <==> exists k | k in Listed(def, d) :: Decode(k).None?
    ensures r.Err? ==> r.error == ParseError
    ensures r.Ok? ==> forall k :: k in r.value <==>
      k in d && ListedByKeys(def.host.counterName, k) && KeyMatches(Decode(k).value, scope, month, group)
  {
    if exists k | k in Listed(def, d) :: Decode(k).None? then Err(ParseError)
    else Ok(set k | k in Listed(def, d) && Decode(k).Some? && KeyMatches(Decode(k).value, scope, month, group))
  }

  lemma ContainsAfterFirst(s: string, t: string)
    requires s != [] && t <= s[1..]
    ensures Contains(s, t)
  {
    assert Contains(s[1..], t);
  }

  /** The first member of a key: the counter's name, written as it is. */
  lemma CounterMember(name: string)
    requires PlainName(name)
    ensures EncodeMember(("counter", JString(name))) == "\"counter\":\"" + name + "\""
  {
    EscapePlain(name);
  }

  /** Every key a counter with a plain name writes matches its own KEYS pattern. */
  lemma KeyForListed(def: CounterDef, scope: Scope, month: Option<string>, group: Option<string>)
    requires PlainName(def.host.counterName)
    ensures ListedByKeys(def.host.counterName, KeyFor(def, scope, month, group))
  {
    var name := def.host.counterName;
    var ms := Fields(BucketKey(def, scope, month, group));
    assert ms[0] == ("counter", JString(name));
    CounterMember(name);
    JsonObjectStarts(ms);
    ContainsAfterFirst(JsonObject(ms), "\"counter\":\"" + name + "\"");
  }

  /** `all_keys` finds every stored bucket of the counter that the filter selects. */
  lemma AllKeysFindsBucket(def: CounterDef, d: Data, s: Scope, m: Option<string>, g: Option<string>,
                           scope: Option<Scope>, month: Option<string>, group: Option<string>)
    requires PlainName(def.host.counterName)
    requires AllKeys(def, d, scope, month, group).Ok?
    requires KeyMatches(CounterKey(def.host.counterName, g, m, s.typeName, s.id), scope, month, group)
    ensures KeyFor(def, s, m, g) in d <==> KeyFor(def, s, m, g) in AllKeys(def, d, scope, month, group).value
  {
    KeyForListed(def, s, m, g);
    KeyForDecodes(def, s, m, g);
  }

  /** What `reset` leaves in the store: every key that `all_keys` returns is deleted. */
  function ResetData(def: CounterDef, d: Data, scope: Option<Scope>, month: Option<string>, group: Option<string>): (r: Result<Data, Error>)
    ensures r.Ok? <==> AllKeys(def, d, scope, month, group).Ok?
    ensures r.Ok? ==> forall k :: (k in r.value <==> k in d && k !in AllKeys(def, d, scope, month, group).value)
    ensures r.Ok? ==> forall k | k in r.value :: r.value[k] == d[k]
  {
    var keys :- AllKeys(def, d, scope, month, group);
    Ok(d - keys)
  }

  /** After `reset`, every bucket the filter selects reads as empty and others are untouched. */
  lemma ResetEmptiesSelectedBuckets(def: CounterDef, d: Data, s: Scope, m: Option<string>, g: Option<string>,
                                    scope: Option<Scope>, month: Option<string>, group: Option<string>)
    requires PlainName(def.host.counterName)
    requires ResetData(def, d, scope, month, group).Ok?
    requires KeyMatches(CounterKey(def.host.counterName, g, m, s.typeName, s.id), scope, month, group)
    ensures NumberOfElementsIn(def, ResetData(def, d, scope, month, group).value, Some(s), m, g) == Ok(0)
    ensures ElementsIn(def, ResetData(def, d, scope, month, group).value, Some(s), m, g) == Ok([])
  {
    AllKeysFindsBucket(def, d, s, m, g, scope, month, group);
  }

  /** `reset`: deletes the keys of `all_keys` one by one and answers true. */
  method Reset(def: CounterDef, store: Store, scope: Option<Scope>, month: Option<string>, group: Option<string>)
      returns (r: Result<bool, Error>)
    requires store.Valid()
    modifies store
    ensures store.Valid()
    ensures r.Ok? <==> ResetData(def, old(store.data), scope, month, group).Ok?
    ensures r.Ok? ==> r.value && store.data == ResetData(def, old(store.data), scope, month, group).value
    ensures r.Err? ==> r.error == ParseError && store.data == old(store.data)
  {
    var listed := AllKeys(def, store.data, scope, month, group);
    if listed.Err? {
      return Err(listed.error);
    }
    var remaining := listed.value;
    while remaining != {}
      invariant store.Valid()
      invariant remaining <= listed.value
      invariant store.data == old(store.data) - (listed.value - remaining)
      decreases remaining
    {
      var k :| k in remaining;
      store.Del(k);
      remaining := remaining - {k};
    }
    assert listed.value - remaining == listed.value;
    return Ok(true);
  }

  // ---------------------------------------------------------------------------------------
  // values_grouped_by_month
  // ---------------------------------------------------------------------------------------

  /** `(today.year * 12 + today.month) - (start.year * 12 + start.month)` */
  function MonthsSince(today: Date, start: Date): (n: int)
    ensures n == MonthIndex(today) - MonthIndex(start)
  {
    (today.year * 12 + today.month) - (start.year * 12 + start.month)
  }

  /** start_at, else the scope's created_at, else none: the month the series starts from. */
  function SeriesStart(scope: Option<Scope>, startAt: Option<Date>): (r: Option<Date>)
    ensures startAt.Some? ==> r == startAt
    ensures startAt.None? ==> r == (if scope.Some? then scope.value.createdAt else None)
  {
    if startAt.Some? then startAt
    else if scope.Some? && scope.value.createdAt.Some? then scope.value.createdAt
    else None
  }

  /** The months of the series: 24 months back without a start, back to the start otherwise. */
  function MonthsShown(today: Date, scope: Option<Scope>, startAt: Option<Date>, stopAt: Option<Instant>): seq<int>
  {
    var n := match SeriesStart(scope, startAt) case None => 24 case Some(start) => MonthsSince(today, start);
    KeepBefore(RelevantMonths(today, n), stopAt)
  }

  lemma {:induction false} KeepBeforeNone(months: seq<int>)
    ensures KeepBefore(months, None) == months
    decreases |months|
  {
    if months != [] {
      KeepBeforeNone(months[1..]);
      assert [months[0]] + months[1..] == months;
    }
  }

  /**
   * Without stop_at the series covers every month from the start month (start_at, else the
   * scope's created_at) to the current one, oldest first, and none when the start is in a
   * later month.
   */
  lemma MonthsShownFromStart(today: Date, scope: Option<Scope>, startAt: Option<Date>, start: Date)
    requires SeriesStart(scope, startAt) == Some(start)
    ensures var ms := MonthsShown(today, scope, startAt, None);
      |ms| == (if MonthIndex(start) <= MonthIndex(today) then MonthIndex(today) - MonthIndex(start) + 1 else 0)
      && (ms != [] ==> ms[0] == MonthIndex(start) && ms[|ms| - 1] == MonthIndex(today))
      && forall i | 0 <= i < |ms| - 1 :: ms[i + 1] == ms[i] + 1
  {
    KeepBeforeNone(RelevantMonths(today, MonthsSince(today, start)));
  }

  /** Without a start the series covers the current month and the 24 before it. */
  lemma MonthsShownByDefault(today: Date, scope: Option<Scope>)
    requires scope.None? || scope.value.createdAt.None?
    ensures var ms := MonthsShown(today, scope, None, None);
      |ms| == 25 && ms[0] == MonthIndex(today) - 24 && ms[24] == MonthIndex(today)
  {
    var all := RelevantMonths(today, 24);
    KeepBeforeNone(all);
    assert SeriesStart(scope, None) == None;
    assert MonthsShown(today, scope, None, None) == KeepBefore(all, None);
  }

  /** The value of the month with index m, read with the "%Y-%m" key of that month. */
  function MonthValue(def: CounterDef, d: Data, scope: Option<Scope>, m: int): Result<real, Error>
  {
    Value(def, d, scope, Some(YearMonth(BeginningOfMonth(m))))
  }

  /**
   * `values_grouped_by_month`: one ("%m/%Y" label, rounded value) entry per month shown,
   * oldest first, or the error of a read that raises; the labels are distinct, so the Ruby
   * hash keeps every entry.
   */
  function ValuesGroupedByMonth(def: CounterDef, d: Data, today: Date, scope: Option<Scope>,
                                startAt: Option<Date>, stopAt: Option<Instant>, round2: real -> real)
      : (r: Result<seq<(string, real)>, Error>)
    ensures var ms := MonthsShown(today, scope, startAt, stopAt);
      (r.Ok? <==> forall i | 0 <= i < |ms| :: MonthValue(def, d, scope, ms[i]).Ok?)
      && (r.Ok? ==> (|r.value| == |ms|
        && (forall i | 0 <= i < |ms| ::
              r.value[i] == (Label(ms[i]), round2(MonthValue(def, d, scope, ms[i]).value)))
        && (forall i, j | 0 <= i < j < |r.value| :: r.value[i].0 != r.value[j].0)))
  {
    var ms := MonthsShown(today, scope, startAt, stopAt);
    var n := match SeriesStart(scope, startAt) case None => 24 case Some(start) => MonthsSince(today, start);
    KeepBeforeIncreasing(RelevantMonths(today, n), stopAt);
    var valueOf := m => MonthValue(def, d, scope, m);
    var r := Series(ms, valueOf, round2);
    if r.Ok? then SeriesLabelsDistinct(ms, valueOf, round2); r else r
  }

  // ---------------------------------------------------------------------------------------
  // The fan-out of one event
  // ---------------------------------------------------------------------------------------

  function EntryOf(o: Option<Scope>): ScopeEntry
  {
    match o
    case None => NoScope
    case Some(s) => OneScope(s)
  }

  /** A present association as a one-element list, nil as the empty list. */
  function Present(o: Option<Scope>): seq<Scope>
  {
    match o
    case None => []
    case Some(s) => [s]
  }

  /**
   * The counter's `scopes`: its own block, or `[subject.department, subject.organisation]`,
   * whose `flatten.compact` is the associations that are present, department first.
   */
  function ScopesOf(def: CounterDef, ctx: Context): (r: seq<ScopeEntry>)
    ensures def.scopes.Some? ==> r == def.scopes.value(ctx)
    ensures def.scopes.None? ==> Flatten(r) == Present(ctx.subject.department) + Present(ctx.subject.organisation)
  {
    match def.scopes
    case Some(f) => f(ctx)
    case None =>
      FlattenPair(ctx.subject.department, ctx.subject.organisation);
      [EntryOf(ctx.subject.department), EntryOf(ctx.subject.organisation)]
  }

  lemma FlattenPair(a: Option<Scope>, b: Option<Scope>)
    ensures Flatten([EntryOf(a), EntryOf(b)]) == Present(a) + Present(b)
  {
    var entries := [EntryOf(a), EntryOf(b)];
    assert entries[1..] == [EntryOf(b)] && entries[1..][1..] == [];
    assert Flatten([EntryOf(b)]) == Present(b) + [];
  }

  /** `flatten.compact` */
  function Flatten(entries: seq<ScopeEntry>): seq<Scope>
    decreases entries
  {
    if entries == [] then [] else FlattenEntry(entries[0]) + Flatten(entries[1..])
  }

  function FlattenEntry(e: ScopeEntry): seq<Scope>
    decreases e
  {
    match e
    case NoScope => []
    case OneScope(s) => [s]
    case Nested(entries) => Flatten(entries)
  }

  lemma {:induction false} FlattenAppend(a: seq<ScopeEntry>, b: seq<ScopeEntry>)
    ensures Flatten(a + b) == Flatten(a) + Flatten(b)
    decreases |a|
  {
    if a == [] {
      assert a + b == b;
    } else {
      assert (a + b)[0] == a[0];
      assert (a + b)[1..] == a[1..] + b;
      FlattenAppend(a[1..], b);
    }
  }

  /** `scopes_with_global`: the counter's scopes, then the global `Department.new`. */
  function ScopesWithGlobal(def: CounterDef, ctx: Context): (r: seq<Scope>)
    ensures |r| >= 1 && r[|r| - 1] == Global
    ensures r[..|r| - 1] == Flatten(ScopesOf(def, ctx))
  {
    var entries := ScopesOf(def, ctx);
    FlattenAppend(entries, [OneScope(Global)]);
    assert Flatten([OneScope(Global)]) == [Global] + Flatten([]);
    Flatten(entries + [OneScope(Global)])
  }

  /**
   * `month_to_set`: the "%Y-%m" of the record's created_at, which is the key that
   * `values_grouped_by_month` reads for the record's month.
   */
  function MonthToSet(ctx: Context): (r: string)
    ensures r == YearMonth(BeginningOfMonth(MonthIndex(ctx.params.attributes.createdAt)))
  {
    YearMonthOfOwnMonth(ctx.params.attributes.createdAt);
    YearMonth(ctx.params.attributes.createdAt)
  }

  /** The bucket of the given month (None: all time) for each scope, in order. */
  function KeysOf(def: CounterDef, scopes: seq<Scope>, month: Option<string>, group: Option<string>): (ks: seq<string>)
    ensures |ks| == |scopes|
    decreases |scopes|
  {
    if scopes == [] then [] else [KeyFor(def, scopes[0], month, group)] + KeysOf(def, scopes[1..], month, group)
  }

  lemma {:induction false} KeysOfAt(def: CounterDef, scopes: seq<Scope>, month: Option<string>, group: Option<string>, i: int)
    requires 0 <= i < |scopes|
    ensures KeysOf(def, scopes, month, group)[i] == KeyFor(def, scopes[i], month, group)
    decreases |scopes|
  {
    if i > 0 {
      KeysOfAt(def, scopes[1..], month, group, i - 1);
    }
  }

  /** A scope's bucket is among the keys exactly when the month agrees and the scope is listed. */
  lemma {:induction false} InKeysOf(def: CounterDef, scopes: seq<Scope>, month: Option<string>, group: Option<string>,
                                    s: Scope, m: Option<string>)
    ensures KeyFor(def, s, m, group) in KeysOf(def, scopes, month, group) <==>
      m == month && exists t | t in scopes :: t.typeName == s.typeName && t.id == s.id
    decreases |scopes|
  {
    if scopes != [] {
      var t := scopes[0];
      InKeysOf(def, scopes[1..], month, group, s, m);
      KeyForInjective(def, s, t, m, month, group, group);
      if t.typeName == s.typeName && t.id == s.id {
        assert BucketKey(def, t, m, group) == BucketKey(def, s, m, group);
      }
      assert forall u :: u in scopes <==> u == t || u in scopes[1..];
    }
  }

  /**
   * The keys `all_counters_of` yields: the bucket of the record's month for every scope,
   * then the all-time bucket for every scope.
   */
  function FanOut(def: CounterDef, ctx: Context, group: Option<string>): (ks: seq<string>)
    ensures |ks| == 2 * |ScopesWithGlobal(def, ctx)|
  {
    var scopes := ScopesWithGlobal(def, ctx);
    KeysOf(def, scopes, Some(MonthToSet(ctx)), group) + KeysOf(def, scopes, None, group)
  }

  /** The i-th scope's bucket of the record's month, and its all-time bucket |scopes| later. */
  lemma FanOutAt(def: CounterDef, ctx: Context, group: Option<string>, i: int)
    requires 0 <= i < |ScopesWithGlobal(def, ctx)|
    ensures FanOut(def, ctx, group)[i] == KeyFor(def, ScopesWithGlobal(def, ctx)[i], Some(MonthToSet(ctx)), group)
    ensures FanOut(def, ctx, group)[|ScopesWithGlobal(def, ctx)| + i] == KeyFor(def, ScopesWithGlobal(def, ctx)[i], None, group)
  {
    var scopes := ScopesWithGlobal(def, ctx);
    KeysOfAt(def, scopes, Some(MonthToSet(ctx)), group, i);
    KeysOfAt(def, scopes, None, group, i);
  }

  /**
   * A bucket is written by the event exactly when its scope is one of the event's scopes and
   * its month is the record's month or the all-time bucket.
   */
  lemma InFanOut(def: CounterDef, ctx: Context, group: Option<string>, s: Scope, month: Option<string>)
    ensures KeyFor(def, s, month, group) in FanOut(def, ctx, group) <==>
      (exists t | t in ScopesWithGlobal(def, ctx) :: t.typeName == s.typeName && t.id == s.id)
      && (month == Some(MonthToSet(ctx)) || month == None)
  {
    var scopes := ScopesWithGlobal(def, ctx);
    InKeysOf(def, scopes, Some(MonthToSet(ctx)), group, s, month);
    InKeysOf(def, scopes, None, group, s, month);
  }

  /** The event always writes the global all-time bucket and the global bucket of its month. */
  lemma GlobalInFanOut(def: CounterDef, ctx: Context, group: Option<string>)
    ensures KeyFor(def, Global, None, group) in FanOut(def, ctx, group)
    ensures KeyFor(def, Global, Some(MonthToSet(ctx)), group) in FanOut(def, ctx, group)
  {
    var scopes := ScopesWithGlobal(def, ctx);
    var ks := FanOut(def, ctx, group);
    FanOutAt(def, ctx, group, |scopes| - 1);
    assert ks[|scopes| - 1] == KeyFor(def, Global, Some(MonthToSet(ctx)), group);
    assert ks[2 * |scopes| - 1] == KeyFor(def, Global, None, group);
  }

  /** What `process_event` does. */
  datatype Action = NoWrite | AppendValue(value: int) | DecrementAll | IncrementAll

  /**
   * `process_event`'s choice: nothing unless `if_async` holds; then `append` when `value` is
   * present, otherwise `decrement` when `decrement?` holds and `increment` when it does not.
   */
  function ChosenAction(def: CounterDef, ctx: Context): (a: Action)
    ensures a == NoWrite <==> !def.ifAsync(ctx)
    ensures a.AppendValue? <==> def.ifAsync(ctx) && def.value(ctx).Some?
    ensures a.AppendValue? ==> a.value == def.value(ctx).value
    ensures a == DecrementAll <==> def.ifAsync(ctx) && def.value(ctx).None? && def.decrementIf(ctx)
    ensures a == IncrementAll <==> def.ifAsync(ctx) && def.value(ctx).None? && !def.decrementIf(ctx)
  {
    if !def.ifAsync(ctx) then NoWrite
    else match def.value(ctx)
      case Some(v) => AppendValue(v)
      case None => if def.decrementIf(ctx) then DecrementAll else IncrementAll
  }

  /** The Redis command each bucket of the fan-out gets: SADD, SREM or RPUSH. */
  function OpOf(def: CounterDef, ctx: Context, a: Action): Op
    requires a != NoWrite
  {
    match a
    case AppendValue(v) => Push(v)
    case DecrementAll => Remove(def.identifier(ctx))
    case IncrementAll => Add(def.identifier(ctx))
  }

  /**
   * The store after `process_event`, and whether it ran to the end: it does exactly when
   * nothing is written or every bucket of the fan-out holds the kind the command needs.
   */
  function Effect(def: CounterDef, ctx: Context, d: Data): (r: (Data, bool))
    ensures ChosenAction(def, ctx) == NoWrite ==> r == (d, true)
    ensures ChosenAction(def, ctx) != NoWrite ==>
      (r.1 <==> AllFit(d, FanOut(def, ctx, None), OpOf(def, ctx, ChosenAction(def, ctx))))
  {
    var a := ChosenAction(def, ctx);
    if a == NoWrite then (d, true)
    else
      WriteAllSucceeds(d, FanOut(def, ctx, None), OpOf(def, ctx, a));
      WriteAll(d, FanOut(def, ctx, None), OpOf(def, ctx, a))
  }

  /** What an event that increments does to the store. */
  lemma EffectOfIncrement(def: CounterDef, c: Context, d: Data)
    requires ChosenAction(def, c) == IncrementAll
    ensures Effect(def, c, d) == WriteAll(d, FanOut(def, c, None), Add(def.identifier(c)))
  {
  }

  /** What an event that appends does to the store. */
  lemma EffectOfAppend(def: CounterDef, c: Context, d: Data, v: int)
    requires ChosenAction(def, c) == AppendValue(v)
    ensures Effect(def, c, d) == WriteAll(d, FanOut(def, c, None), Push(v))
  {
  }

  /** An event never touches a key outside its fan-out and never leaves an empty set. */
  lemma EffectFrame(def: CounterDef, ctx: Context, d: Data, k: string)
    requires NoEmptySets(d)
    requires k !in FanOut(def, ctx, None)
    ensures (k in Effect(def, ctx, d).0 <==> k in d) && (k in d ==> Effect(def, ctx, d).0[k] == d[k])
    ensures NoEmptySets(Effect(def, ctx, d).0)
  {
    var a := ChosenAction(def, ctx);
    if a != NoWrite {
      WriteAllFrame(d, FanOut(def, ctx, None), OpOf(def, ctx, a), k);
      WriteAllKeepsNoEmptySets(d, FanOut(def, ctx, None), OpOf(def, ctx, a));
    }
  }

  /** An increment puts the identifier into every bucket of the fan-out. */
  lemma IncrementAddsIdentifier(def: CounterDef, ctx: Context, d: Data, s: Scope, month: Option<string>)
    requires ChosenAction(def, ctx) == IncrementAll && Effect(def, ctx, d).1
    requires s in ScopesWithGlobal(def, ctx)
    requires month == Some(MonthToSet(ctx)) || month == None
    ensures MembersOf(Effect(def, ctx, d).0, KeyFor(def, s, month, None))
      == MembersOf(d, KeyFor(def, s, month, None)) + {def.identifier(ctx)}
  {
    ScopeInFanOut(def, ctx, s, month);
    EffectOfIncrement(def, ctx, d);
    WriteAllAddMembers(d, FanOut(def, ctx, None), def.identifier(ctx), KeyFor(def, s, month, None));
  }

  /** Each scope of the event has both of its buckets in the fan-out. */
  lemma ScopeInFanOut(def: CounterDef, ctx: Context, s: Scope, month: Option<string>)
    requires s in ScopesWithGlobal(def, ctx)
    requires month == Some(MonthToSet(ctx)) || month == None
    ensures KeyFor(def, s, month, None) in FanOut(def, ctx, None)
  {
    InFanOut(def, ctx, None, s, month);
  }

  /**
   * A counted record is in the bucket that the series reads for the month of its created_at:
   * that month's entry is the old count of the bucket with the identifier added.
   */
  lemma IncrementCountedInItsMonth(def: CounterDef, ctx: Context, d: Data, s: Scope)
    requires def.counterType != Average
    requires ChosenAction(def, ctx) == IncrementAll && Effect(def, ctx, d).1
    requires s in ScopesWithGlobal(def, ctx)
    ensures var m := MonthIndex(ctx.params.attributes.createdAt);
      var k := KeyFor(def, s, Some(YearMonth(BeginningOfMonth(m))), None);
      MonthValue(def, Effect(def, ctx, d).0, Some(s), m) == Ok(|MembersOf(d, k) + {def.identifier(ctx)}| as real)
  {
    var ks := FanOut(def, ctx, None);
    var k := KeyFor(def, s, Some(MonthToSet(ctx)), None);
    ScopeInFanOut(def, ctx, s, Some(MonthToSet(ctx)));
    EffectOfIncrement(def, ctx, d);
    WriteAllAdd(d, ks, def.identifier(ctx), k);
  }

  /** A second delivery of the same increment changes nothing: counts are by identifier. */
  lemma IncrementIsIdempotent(def: CounterDef, ctx: Context, d: Data)
    requires ChosenAction(def, ctx) == IncrementAll && Effect(def, ctx, d).1
    ensures Effect(def, ctx, Effect(def, ctx, d).0) == Effect(def, ctx, d)
  {
    IncrementIdempotent(d, FanOut(def, ctx, None), def.identifier(ctx));
  }

  /**
   * A decrement of an event with the same buckets and identifier undoes an increment whose
   * identifier none of those buckets held.
   */
  lemma DecrementUndoesIncrement(def: CounterDef, created: Context, destroyed: Context, d: Data)
    requires NoEmptySets(d)
    requires ChosenAction(def, created) == IncrementAll && Effect(def, created, d).1
    requires ChosenAction(def, destroyed) == DecrementAll
    requires FanOut(def, destroyed, None) == FanOut(def, created, None)
    requires def.identifier(destroyed) == def.identifier(created)
    requires forall k | k in FanOut(def, created, None) :: def.identifier(created) !in MembersOf(d, k)
    ensures Effect(def, destroyed, Effect(def, created, d).0) == (d, true)
  {
    IncrementThenDecrementRestores(d, FanOut(def, created, None), def.identifier(created));
  }

  /** An append pushes the value onto every list of the fan-out, once per time it is named. */
  lemma AppendPushesValue(def: CounterDef, ctx: Context, d: Data, k: string)
    requires ChosenAction(def, ctx).AppendValue? && Effect(def, ctx, d).1
    ensures ItemsOf(Effect(def, ctx, d).0, k)
      == ItemsOf(d, k) + Repeat(def.value(ctx).value, Occurrences(FanOut(def, ctx, None), k))
  {
    WriteAllPush(d, FanOut(def, ctx, None), def.value(ctx).value, k);
  }

  /**
   * A counter declared with only `every:` counts the first record it sees as 1, in the
   * all-time global bucket and in the global bucket of the record's month.
   */
  lemma FirstEventCountsOne(host: HostClass, args: Args, constants: set<string>, ctx: Context)
    requires Count(host, args, constants).Ok?
    requires args.counterType.None? && args.ifAsync.None? && args.decrementIf.None? && args.value.None?
    ensures var def := Count(host, args, constants).value;
      var r := Effect(def, ctx, map[]);
      r.1
      && Value(def, r.0, Some(Global), None) == Ok(1.0)
      && Value(def, r.0, Some(Global), Some(MonthToSet(ctx))) == Ok(1.0)
  {
    var def := Count(host, args, constants).value;
    assert ChosenAction(def, ctx) == IncrementAll;
    FirstIncrementCountsOne(def, ctx);
  }

  /** On an empty store, an event that increments leaves 1 in both global buckets it writes. */
  lemma FirstIncrementCountsOne(def: CounterDef, ctx: Context)
    requires def.counterType != Average && ChosenAction(def, ctx) == IncrementAll
    ensures var r := Effect(def, ctx, map[]);
      r.1
      && Value(def, r.0, Some(Global), None) == Ok(1.0)
      && Value(def, r.0, Some(Global), Some(MonthToSet(ctx))) == Ok(1.0)
  {
    var id := def.identifier(ctx);
    var ks := FanOut(def, ctx, None);
    EffectOfIncrement(def, ctx, map[]);
    GlobalInFanOut(def, ctx, None);
    var d := WriteAll(map[], ks, Add(id)).0;
    WriteAllAddFresh(ks, id, KeyFor(def, Global, None, None));
    WriteAllAddFresh(ks, id, KeyFor(def, Global, Some(MonthToSet(ctx)), None));
    ValueOfOneMember(def, d, Global, None, id);
    ValueOfOneMember(def, d, Global, Some(MonthToSet(ctx)), id);
  }

  /** A bucket holding exactly one member counts 1. */
  lemma ValueOfOneMember(def: CounterDef, d: Data, s: Scope, month: Option<string>, m: string)
    requires def.counterType != Average
    requires KeyFor(def, s, month, None) in d && d[KeyFor(def, s, month, None)] == Members({m})
    ensures Value(def, d, Some(s), month) == Ok(1.0)
  {
    assert MembersOf(d, KeyFor(def, s, month, None)) == {m};
  }

  /**
   * Without `decrement_if`, the destroy event of a counted record increments again, which
   * leaves the store as the create event left it: destroying does not lower the count.
   */
  lemma DestroyWithoutDecrementIfKeepsCount(host: HostClass, args: Args, constants: set<string>,
                                            created: Context, destroyed: Context, d: Data)
    requires Count(host, args, constants).Ok?
    requires args.scopes.None? && args.uniqBy.None?
    requires args.ifAsync.None? && args.decrementIf.None? && args.value.None?
    requires created.params.trigger == Some(Create) && destroyed.params.trigger == Some(Destroy)
    requires destroyed.params.attributes == created.params.attributes && destroyed.subject == created.subject
    requires Effect(Count(host, args, constants).value, created, d).1
    ensures var def := Count(host, args, constants).value;
      Effect(def, destroyed, Effect(def, created, d).0) == Effect(def, created, d)
  {
    var def := Count(host, args, constants).value;
    assert ScopesOf(def, destroyed) == ScopesOf(def, created);
    assert FanOut(def, destroyed, None) == FanOut(def, created, None);
    IncrementIsIdempotent(def, created, d);
  }

  /**
   * `decrement_on_destroy: true` as it is evidently meant, with `decrement?` true exactly on
   * the destroy event: the destroy event of a record that the create event counted removes
   * it from every bucket again, giving back the store from before the create.
   */
  lemma DecrementOnDestroyRestores(host: HostClass, args: Args, constants: set<string>,
                                   created: Context, destroyed: Context, d: Data)
    requires Count(host, args, constants).Ok?
    requires args.scopes.None? && args.uniqBy.None? && args.ifAsync.None? && args.value.None?
    requires args.decrementIf.Some? && forall c :: args.decrementIf.value(c) <==> c.params.trigger == Some(Destroy)
    requires created.params.trigger == Some(Create) && destroyed.params.trigger == Some(Destroy)
    requires destroyed.params.attributes == created.params.attributes && destroyed.subject == created.subject
    requires NoEmptySets(d) && Effect(Count(host, args, constants).value, created, d).1
    requires forall k | k in FanOut(Count(host, args, constants).value, created, None) ::
      IntToString(created.params.attributes.id) !in MembersOf(d, k)
    ensures var def := Count(host, args, constants).value;
      Effect(def, destroyed, Effect(def, created, d).0) == (d, true)
  {
    var def := Count(host, args, constants).value;
    assert ScopesOf(def, destroyed) == ScopesOf(def, created);
    assert FanOut(def, destroyed, None) == FanOut(def, created, None);
    assert ChosenAction(def, created) == IncrementAll;
    assert ChosenAction(def, destroyed) == DecrementAll;
    DecrementUndoesIncrement(def, created, destroyed, d);
  }

  // ---------------------------------------------------------------------------------------
  // A counter instance
  // ---------------------------------------------------------------------------------------

  /** An instance of a counter class: `params` and `subject` as the callbacks set them. */
  class CounterInstance {
    const def: CounterDef
    const store: Store
    var params: Params
    var subject: Record

    constructor (def: CounterDef, store: Store, params: Params, subject: Record)
      ensures this.def == def && this.store == store
      ensures this.params == params && this.subject == subject
    {
      this.def := def;
      this.store := store;
      this.params := params;
      this.subject := subject;
    }

    /** What the counter's blocks see. */
    function Ctx(): Context
      reads this
    {
      Context(params, subject)
    }

    /** `all_counters_of` with a write per key: one SADD, SREM or RPUSH per bucket, in order. */
    method WriteFanOut(group: Option<string>, op: Op) returns (ok: bool)
      requires store.Valid()
      modifies store
      ensures store.Valid()
      ensures (store.data, ok) == WriteAll(old(store.data), FanOut(def, Ctx(), group), op)
    {
      ok := WriteKeys(FanOut(def, Ctx(), group), op);
    }

    /** One write per key of ks, in order, stopping at the first WRONGTYPE. */
    method WriteKeys(ks: seq<string>, op: Op) returns (ok: bool)
      requires store.Valid()
      modifies store
      ensures store.Valid()
      ensures (store.data, ok) == WriteAll(old(store.data), ks, op)
    {
      ghost var goal := WriteAll(store.data, ks, op);
      var i := 0;
      while i < |ks|
        invariant 0 <= i <= |ks|
        invariant store.Valid()
        invariant WriteAll(store.data, ks[i..], op) == goal
      {
        WriteAllStep(store.data, ks, i, op);
        var written := store.Write(ks[i], op);
        if !written {
          return false;
        }
        i := i + 1;
      }
      assert ks[i..] == [];
      return true;
    }

    /** `increment(group:)`: SADD of the identifier to every bucket of the group. */
    method Increment(group: Option<string>) returns (ok: bool)
      requires store.Valid()
      modifies store
      ensures store.Valid()
      ensures (store.data, ok) == WriteAll(old(store.data), FanOut(def, Ctx(), group), Add(def.identifier(Ctx())))
    {
      ok := WriteFanOut(group, Add(def.identifier(Ctx())));
    }

    /** `decrement(group:)`: SREM of the identifier from every bucket of the group. */
    method Decrement(group: Option<string>) returns (ok: bool)
      requires store.Valid()
      modifies store
      ensures store.Valid()
      ensures (store.data, ok) == WriteAll(old(store.data), FanOut(def, Ctx(), group), Remove(def.identifier(Ctx())))
    {
      ok := WriteFanOut(group, Remove(def.identifier(Ctx())));
    }

    /** `append(value:, group:)`: RPUSH of the value onto every bucket of the group. */
    method Append(value: int, group: Option<string>) returns (ok: bool)
      requires store.Valid()
      modifies store
      ensures store.Valid()
      ensures (store.data, ok) == WriteAll(old(store.data), FanOut(def, Ctx(), group), Push(value))
    {
      ok := WriteFanOut(group, Push(value));
    }

    /** `process_event` */
    method ProcessEvent() returns (ok: bool)
      requires store.Valid()
      modifies store
      ensures store.Valid()
      ensures (store.data, ok) == Effect(def, Ctx(), old(store.data))
    {
      var a := ChosenAction(def, Ctx());
      match a
      case NoWrite => ok := true;
      case AppendValue(v) => ok := Append(v, None);
      case DecrementAll => ok := Decrement(None);
      case IncrementAll => ok := Increment(None);
    }

    /** `perform`: takes the payload as `params`, then processes the event. */
    method Perform(payload: Params) returns (ok: bool)
      requires store.Valid()
      modifies this, store
      ensures store.Valid()
      ensures params == payload && subject == old(subject)
      ensures (store.data, ok) == Effect(def, Context(payload, subject), old(store.data))
    {
      params := payload;
      ok := ProcessEvent();
    }
  }

  /**
   * `initialize_with`: a new counter on the resource, performed unless `should_run?` fails
   * and validation is not skipped. The flag ran says whether it was performed.
   */
  method InitializeWith(def: CounterDef, store: Store, resource: Record, skipValidation: bool)
      returns (ran: bool, ok: bool)
    requires store.Valid()
    modifies store
    ensures store.Valid()
    ensures ran <==> skipValidation || def.shouldRun(CallbackContext(resource))
    ensures ran ==> (store.data, ok) == Effect(def, CallbackContext(resource), old(store.data))
    ensures !ran ==> ok && store.data == old(store.data)
  {
    var counter := new CounterInstance(def, store, Params(resource.attributes, None), resource);
    if !(skipValidation || def.shouldRun(counter.Ctx())) {
      return false, true;
    }
    ok := counter.Perform(Params(resource.attributes, None));
    ran := true;
  }
}
