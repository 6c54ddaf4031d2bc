/**
 * The subscriber side of a counter: how an event name such as `user_created` is read as a
 * model class and a lifecycle event, how `catch_events` resolves every name it is given, and
 * what the two after_commit callbacks it installs on the model decide to do. The model classes
 * that exist are a parameter (`constants`); Rails' callback machinery and the job queue are
 * not modelled, only the decision each callback takes.
 */
module Subscriber {
  import opened Wrappers
  import opened Definition

  /** String#split("_") before Ruby drops the trailing empty fields. */
  function SplitAll(s: string): (r: seq<string>)
    ensures |r| >= 1
    ensures forall i | 0 <= i < |r| :: '_' !in r[i]
    decreases |s|
  {
    if s == [] then [""]
    else
      var rest := SplitAll(s[1..]);
      if s[0] == '_' then [""] + rest else [[s[0]] + rest[0]] + rest[1..]
  }

  /** Array#join("_") */
  function Join(parts: seq<string>): string
    decreases |parts|
  {
    if |parts| == 0 then ""
    else if |parts| == 1 then parts[0]
    else parts[0] + "_" + Join(parts[1..])
  }

  /** Drops the empty fields at the end, and only those. */
  function DropTrailingEmpty(parts: seq<string>): (r: seq<string>)
    ensures r <= parts
    ensures r == [] || r[|r| - 1] != ""
    ensures forall i | |r| <= i < |parts| :: parts[i] == ""
    decreases |parts|
  {
    if parts != [] && parts[|parts| - 1] == "" then DropTrailingEmpty(parts[..|parts| - 1]) else parts
  }

  /** String#split("_"): the fields between underscores, without the empty ones at the end. */
  function Split(s: string): (r: seq<string>)
    ensures r <= SplitAll(s)
    ensures forall i | 0 <= i < |r| :: '_' !in r[i]
    ensures r == [] || r[|r| - 1] != ""
    ensures forall i | |r| <= i < |SplitAll(s)| :: SplitAll(s)[i] == ""
  {
    DropTrailingEmpty(SplitAll(s))
  }

  /** Joining the fields of a split gives the string back. */
  lemma {:induction false} JoinSplitAll(s: string)
    ensures Join(SplitAll(s)) == s
    decreases |s|
  {
    if s != [] {
      var rest := SplitAll(s[1..]);
      JoinSplitAll(s[1..]);
      if s[0] == '_' {
        assert SplitAll(s) == [""] + rest;
        assert ([""] + rest)[1..] == rest;
      } else if |rest| == 1 {
        assert SplitAll(s) == [[s[0]] + rest[0]];
      } else {
        var r := SplitAll(s);
        assert r == [[s[0]] + rest[0]] + rest[1..];
        assert r[1..] == rest[1..];
        assert Join(rest) == rest[0] + "_" + Join(rest[1..]);
      }
      assert s == [s[0]] + s[1..];
    }
  }

  lemma SplitAllOfWord(w: string)
    requires '_' !in w
    ensures SplitAll(w) == [w]
    decreases |w|
  {
    if w != [] {
      assert '_' !in w[1..] by { assert forall c :: c in w[1..] ==> c in w; }
      SplitAllOfWord(w[1..]);
      assert [w[0]] + w[1..] == w;
    }
  }

  /** Splitting `base_word` gives the fields of base followed by word. */
  lemma {:induction false} SplitAllSuffixed(base: string, word: string)
    requires '_' !in word
    ensures SplitAll(base + "_" + word) == SplitAll(base) + [word]
    decreases |base|
  {
    var s := base + "_" + word;
    if base == [] {
      assert s == "_" + word;
      assert s[1..] == word;
      SplitAllOfWord(word);
    } else {
      assert s[1..] == base[1..] + "_" + word;
      SplitAllSuffixed(base[1..], word);
    }
  }

  predicate IsLowerOrDigit(c: char) { 'a' <= c <= 'z' || '0' <= c <= '9' }

  predicate IsAlphanumeric(c: char) { IsLowerOrDigit(c) || 'A' <= c <= 'Z' }

  function Upcase(c: char): char { if 'a' <= c <= 'z' then (c as int - 32) as char else c }

  function Downcase(c: char): char { if 'A' <= c <= 'Z' then (c as int + 32) as char else c }

  /** String#capitalize on ASCII: the first character upcased, the others downcased. */
  function Capitalize(s: string): (r: string)
    ensures |r| == |s|
  {
    if s == [] then [] else [Upcase(s[0])] + seq(|s| - 1, i requires 0 <= i < |s| - 1 => Downcase(s[i + 1]))
  }

  /** The length of the longest prefix of s whose characters satisfy the test. */
  function RunLength(s: string, allowUpper: bool): (n: nat)
    ensures n <= |s|
    ensures forall i | 0 <= i < n :: if allowUpper then IsAlphanumeric(s[i]) else IsLowerOrDigit(s[i])
    decreases |s|
  {
    if s != [] && (if allowUpper then IsAlphanumeric(s[0]) else IsLowerOrDigit(s[0]))
    then 1 + RunLength(s[1..], allowUpper)
    else 0
  }

  /** The first field: its leading run of lower-case letters and digits is capitalized. */
  function CamelizeHead(w: string): string
  {
    var n := RunLength(w, false);
    Capitalize(w[..n]) + w[n..]
  }

  /** A field after an underscore: the underscore goes, its leading alphanumeric run is capitalized. */
  function CamelizeTail(w: string): string
  {
    var n := RunLength(w, true);
    Capitalize(w[..n]) + w[n..]
  }

  function CamelizeTails(parts: seq<string>): string
    decreases |parts|
  {
    if parts == [] then "" else CamelizeTail(parts[0]) + CamelizeTails(parts[1..])
  }

  /**
   * ActiveSupport's String#camelize for names without '/' and without acronym inflections:
   * the underscores go and every other character stays, possibly in another case.
   */
  function Camelize(s: string): (r: string)
    ensures |r| + Underscores(s) == |s|
  {
    var parts := SplitAll(s);
    SplitAllLength(s);
    CamelizeTailsLength(parts[1..]);
    assert TotalLength(parts) == |parts[0]| + TotalLength(parts[1..]);
    CamelizeHead(parts[0]) + CamelizeTails(parts[1..])
  }

  /** The number of underscores in s. */
  function Underscores(s: string): nat
    decreases |s|
  {
    if s == [] then 0 else (if s[0] == '_' then 1 else 0) + Underscores(s[1..])
  }

  /** The number of characters of all the fields together. */
  function TotalLength(parts: seq<string>): nat
    decreases |parts|
  {
    if parts == [] then 0 else |parts[0]| + TotalLength(parts[1..])
  }

  /** The fields hold every character of s except the underscores. */
  lemma {:induction false} SplitAllLength(s: string)
    ensures TotalLength(SplitAll(s)) + Underscores(s) == |s|
    decreases |s|
  {
    if s != [] {
      var rest := SplitAll(s[1..]);
      SplitAllLength(s[1..]);
      if s[0] == '_' {
        assert ([""] + rest)[1..] == rest;
      } else {
        var parts := [[s[0]] + rest[0]] + rest[1..];
        assert parts[1..] == rest[1..];
      }
    }
  }

  lemma {:induction false} CamelizeTailsLength(parts: seq<string>)
    ensures |CamelizeTails(parts)| == TotalLength(parts)
    decreases |parts|
  {
    if parts != [] {
      CamelizeTailsLength(parts[1..]);
    }
  }

  lemma CamelizeOfParts(x: string, parts: seq<string>)
    requires SplitAll(x) == parts
    ensures Camelize(x) == CamelizeHead(parts[0]) + CamelizeTails(parts[1..])
  {
  }

  /** Camelizing `base_word` camelizes base and appends the capitalized word. */
  lemma CamelizeSuffixed(base: string, word: string)
    requires '_' !in word
    ensures Camelize(base + "_" + word) == Camelize(base) + CamelizeTail(word)
  {
    SplitAllSuffixed(base, word);
    var p := SplitAll(base);
    var q := p + [word];
    assert q[0] == p[0] && q[1..] == p[1..] + [word];
    CamelizeOfParts(base + "_" + word, q);
    CamelizeOfParts(base, p);
    CamelizeTailsAppend(p[1..], word);
    ConcatAssoc(CamelizeHead(p[0]), CamelizeTails(p[1..]), CamelizeTail(word));
  }

  lemma {:induction false} CamelizeTailsAppend(parts: seq<string>, word: string)
    ensures CamelizeTails(parts + [word]) == CamelizeTails(parts) + CamelizeTail(word)
    decreases |parts|
  {
    if parts == [] {
      assert CamelizeTails([word]) == CamelizeTail(word) + CamelizeTails([]);
    } else {
      assert (parts + [word])[1..] == parts[1..] + [word];
      CamelizeTailsAppend(parts[1..], word);
    }
  }

  /** The lifecycle event a suffix names: `created`, `updated`, `destroyed`; nil for any other. */
  function EventFor(suffix: string): (e: Option<Trigger>)
    ensures e == Some(Create) <==> suffix == "created"
    ensures e == Some(Update) <==> suffix == "updated"
    ensures e == Some(Destroy) <==> suffix == "destroyed"
  {
    if suffix == "created" then Some(Create)
    else if suffix == "updated" then Some(Update)
    else if suffix == "destroyed" then Some(Destroy)
    else None
  }

  function NoSuchModel(modelName: string): Error
  {
    StatisfyError("The model " + modelName + " does not exist")
  }

  /**
   * `model_and_event_from_event_name`: the last field of the name is the event, the fields
   * before it, joined and camelized, name the model class. A class that is not defined (a
   * NameError) becomes Statisfy::Error. A name with no field at all makes `pop` return nil,
   * whose NoMethodError is a NameError too; the model name is then still nil and prints empty.
   */
  function ModelAndEventFromEventName(eventName: string, constants: set<string>): (r: Result<Binding, Error>)
    ensures r.Ok? ==> r.value.model in constants
  {
    var parts := Split(eventName);
    if parts == [] then Err(NoSuchModel(""))
    else
      var modelName := Camelize(Join(parts[..|parts| - 1]));
      if modelName in constants then Ok(Binding(modelName, EventFor(parts[|parts| - 1])))
      else Err(NoSuchModel(modelName))
  }

  /**
   * `<model>_<event>` resolves to the camelized model and the event of the suffix exactly when
   * the camelized model is a defined class, and to "The model ... does not exist" otherwise.
   */
  lemma ModelAndEventOfSuffixedName(base: string, suffix: string, constants: set<string>)
    requires suffix != "" && '_' !in suffix
    ensures Camelize(base) in constants ==>
      ModelAndEventFromEventName(base + "_" + suffix, constants) == Ok(Binding(Camelize(base), EventFor(suffix)))
    ensures Camelize(base) !in constants ==>
      ModelAndEventFromEventName(base + "_" + suffix, constants) == Err(NoSuchModel(Camelize(base)))
  {
    SplitAllSuffixed(base, suffix);
    var parts := SplitAll(base) + [suffix];
    assert Split(base + "_" + suffix) == parts;
    assert parts[..|parts| - 1] == SplitAll(base);
    JoinSplitAll(base);
  }

  /** The event names of an `every:` argument, in order: `[*event_names].flatten`. */
  function FlattenEvents(e: Events): (r: seq<string>)
    ensures e.EventName? ==> r == [e.name]
    ensures e.EventList? && (forall i | 0 <= i < |e.items| :: e.items[i].EventName?) ==>
      |r| == |e.items| && forall i | 0 <= i < |e.items| :: r[i] == e.items[i].name
    decreases e
  {
    match e
    case EventName(n) => [n]
    case EventList(items) => FlattenEventList(items)
  }

  function FlattenEventList(items: seq<Events>): (r: seq<string>)
    ensures (forall i | 0 <= i < |items| :: items[i].EventName?) ==>
      |r| == |items| && forall i | 0 <= i < |items| :: r[i] == items[i].name
    decreases items
  {
    if items == [] then []
    else
      var rest := FlattenEventList(items[1..]);
      assert forall i | 1 <= i < |items| :: items[1..][i - 1] == items[i];
      FlattenEvents(items[0]) + rest
  }

  /** Resolves every name in order with the given resolver, raising at the first one that fails. */
  function ResolveAll(names: seq<string>, resolve: string -> Result<Binding, Error>): (r: Result<seq<Binding>, Error>)
    ensures r.Ok? ==> (|r.value| == |names| && forall i | 0 <= i < |names| :: resolve(names[i]) == Ok(r.value[i]))
    decreases |names|
  {
    if names == [] then Ok([])
    else
      var b :- resolve(names[0]);
      var bs :- ResolveAll(names[1..], resolve);
      Ok([b] + bs)
  }

  /** When the first name resolves, the names resolve as the rest of them do, one binding in front. */
  lemma ResolveAllCons(names: seq<string>, resolve: string -> Result<Binding, Error>)
    requires names != [] && resolve(names[0]).Ok?
    ensures ResolveAll(names, resolve).Err? <==> ResolveAll(names[1..], resolve).Err?
    ensures ResolveAll(names, resolve).Err? ==> ResolveAll(names, resolve).error == ResolveAll(names[1..], resolve).error
  {
  }

  /** A failed resolution is the error of the first name that fails; all names before it resolve. */
  lemma {:induction false} ResolveAllFails(names: seq<string>, resolve: string -> Result<Binding, Error>)
    requires ResolveAll(names, resolve).Err?
    ensures exists i | 0 <= i < |names| ::
      resolve(names[i]) == Err(ResolveAll(names, resolve).error)
      && forall j | 0 <= j < i :: resolve(names[j]).Ok?
    decreases |names|
  {
    var e := ResolveAll(names, resolve).error;
    if resolve(names[0]).Err? {
      assert resolve(names[0]) == Err(e);
    } else {
      var rest := names[1..];
      ResolveAllCons(names, resolve);
      ResolveAllFails(rest, resolve);
      var i :| 0 <= i < |rest| && resolve(rest[i]) == Err(e)
        && forall j | 0 <= j < i :: resolve(rest[j]).Ok?;
      assert names[i + 1] == rest[i];
      assert forall j | 1 <= j < i + 1 :: names[j] == rest[j - 1];
    }
  }

  /** The resolver of event names against the defined model classes. */
  function Resolver(constants: set<string>): string -> Result<Binding, Error>
  {
    name => ModelAndEventFromEventName(name, constants)
  }

  /** `catch_events`: the model and event of every name given, or the first resolution error. */
  function CatchEvents(every: Events, constants: set<string>): (r: Result<seq<Binding>, Error>)
    ensures r.Ok? ==> (|r.value| == |FlattenEvents(every)|
      && forall b | b in r.value :: b.model in constants)
  {
    ResolveAll(FlattenEvents(every), Resolver(constants))
  }

  /** What a commit callback does: nothing, enqueue a job, or run `perform` at once. */
  datatype Dispatch = Skip | Deferred(job: Params) | Inline(payload: Params)

  /** The counter the callbacks build: `params` are the attributes, `subject` the record. */
  function CallbackContext(record: Record): Context
  {
    Context(Params(record.attributes, None), record)
  }

  /**
   * The `trigger_event` lambda: a counter class that responds to the configured async method
   * gets a job, except on destroy, where the record will be gone by the time a job runs, so
   * the counter runs inline. Either way the payload is the attributes with the trigger merged.
   */
  function TriggerEvent(def: CounterDef, config: Configuration, record: Record, trigger: Trigger): (d: Dispatch)
    ensures d.Deferred? <==> config.defaultAsyncMethod in def.host.classMethods && trigger != Destroy
    ensures d.Inline? <==> !d.Deferred?
    ensures d.Deferred? ==> d.job == Params(record.attributes, Some(trigger))
    ensures d.Inline? ==> d.payload == Params(record.attributes, Some(trigger))
  {
    var payload := Params(record.attributes, Some(trigger));
    if config.defaultAsyncMethod in def.host.classMethods && trigger != Destroy then Deferred(payload)
    else Inline(payload)
  }

  /**
   * The after_commit callback on destroy: it fires when the counter's `decrement_on_destroy?`
   * holds or the counter defines `on_destroy`. A counter class that defines no
   * `decrement_on_destroy?` raises NoMethodError, since `count` does not define it.
   */
  function OnDestroyCommit(def: CounterDef, config: Configuration, record: Record): (r: Result<Dispatch, Error>)
    ensures r.Err? <==> def.host.decrementOnDestroy.None?
    ensures r.Ok? ==> (r.value == Skip <==>
      !def.host.decrementOnDestroy.value(CallbackContext(record)) && !def.host.respondsToOnDestroy)
    ensures r.Ok? && r.value != Skip ==> r.value == Inline(Params(record.attributes, Some(Destroy)))
  {
    match def.host.decrementOnDestroy
    case None => Err(NoMethodError("decrement_on_destroy?"))
    case Some(decrementOnDestroy) =>
      if decrementOnDestroy(CallbackContext(record)) || def.host.respondsToOnDestroy
      then Ok(TriggerEvent(def, config, record, Destroy))
      else Ok(Skip)
  }

  /** The after_commit callback on the listened event: it fires when `should_run?` holds. */
  function OnEventCommit(def: CounterDef, config: Configuration, record: Record, event: Trigger): (d: Dispatch)
    ensures d == Skip <==> !def.shouldRun(CallbackContext(record))
    ensures d != Skip ==> d == TriggerEvent(def, config, record, event)
  {
    if !def.shouldRun(CallbackContext(record)) then Skip else TriggerEvent(def, config, record, event)
  }

  /** With no async method on the counter class, every callback that fires runs inline. */
  lemma NoAsyncMethodRunsInline(def: CounterDef, config: Configuration, record: Record, event: Trigger)
    requires config.defaultAsyncMethod !in def.host.classMethods
    ensures OnEventCommit(def, config, record, event) != Skip ==>
      OnEventCommit(def, config, record, event) == Inline(Params(record.attributes, Some(event)))
  {
  }
}
