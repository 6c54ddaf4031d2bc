# Statisfy counters in Dafny

Statisfy keeps statistics for a Rails application in Redis. A counter class declares, with
`count every: :user_created, ...`, the lifecycle events it listens to. Each event is turned into
one write: an increment (SADD of an identifier), a decrement (SREM) or an append (RPUSH of a
value). That write is fanned out to every bucket in {record's month, all time} × {declared
scopes, global scope}. Every bucket is a Redis key, the JSON text of
`{counter:, group:, month:, scope_type:, scope_id:}`. The other operations are reads
(`value`, the set size or the list average, and a month-by-month series), key listing and
`reset`.

This project models that core:

- `Counter` (counter.rb):
  - the `count` DSL with its guard and defaults;
  - `key_for`;
  - the reads and `all_keys`/`reset`;
  - `values_grouped_by_month`;
  - the fan-out of `all_counters_of`;
  - `process_event`;
  - a `CounterInstance` class whose methods write to a `Redis.Store` one key at a time.
- `Subscriber` (subscriber.rb):
  - event-name parsing, including `String#split("_")` and `camelize`;
  - `catch_events`;
  - the two `after_commit` gates;
  - the `trigger_event` rule for deferred versus inline execution.
- `Monthly` (monthly.rb): that file's own variant of `values_grouped_by_month`.
- `Aggregate` (aggregate.rb): `aggregate` and its `value`.
- `Redis`: the store is one map from key to a set or a list. It models SADD, SREM (which deletes
  an emptied set), RPUSH, SCARD, LRANGE and DEL, and the WRONGTYPE error of a command on a key of
  the other kind.
- `Keys`: the compact JSON that `to_json` writes for a key, and a parser for it.
- `Calendar` and `Decimal`: months as integers, and the `strftime` and `to_s` texts.
- `Definition`: the counter definition, a record of function-valued fields (the blocks given to
  `count`), evaluated on an explicit context (`params`, `subject`).

These come in as parameters:

- the clock (`today`);
- `round(2)`;
- the set of model classes that exist (`constants`);
- the configuration (`default_async_method`, `perform_async` by default).

The Redis connection is replaced by the in-memory `Redis.Store`.

## Model

| member | source | states |
|---|---|---|
| Counter.Count | lib/statisfy/counter.rb:26-47 | A blank `every:` is ArgumentError "You must provide at least one event". Otherwise the definition exists exactly when every event name resolves. Its bindings are those of `catch_events`. Each option not given takes its default: type increment, identifier `params["id"]`, `if_async` and `should_run?` true, `decrement?` false, value nil. Each option given is kept as given. (With the corrected `count`, see ## Findings.) |
| Counter.Defined | lib/statisfy/counter.rb:40-47 | `apply_default_counter_options` and COUNTER_TYPE: each option given is kept. Each option not given takes its default: type increment, identifier `params["id"]`, `if_async` and `should_run?` true, `decrement?` false, value nil. |
| Counter.CountAsWritten | lib/statisfy/counter.rb:29 | As written, `count` succeeds only if the text of the options hash, appended to the event names, also names a model. |
| Counter.OptionsTextNamesNoModel | lib/statisfy/subscriber.rb:51-63 | The text of a Hash, which starts with `{`, names no model class: the model name it yields is empty or starts with `{`. So it raises Statisfy::Error. |
| Counter.CountAsWrittenAlwaysFails | lib/statisfy/counter.rb:29 | As written, every `count` raises, whatever its events, because the options hash is resolved as one more event name. |
| Counter.KeyFor | lib/statisfy/counter.rb:95-103 | The JSON text of the five fields. It has no contract of its own; the next two rows state what it means. |
| Counter.KeyForDecodes | lib/statisfy/counter.rb:95-103 | The key of a bucket parses back to exactly its counter, group, month, scope_type and scope_id. |
| Counter.KeyForInjective | lib/statisfy/counter.rb:95-103 | Two buckets of a counter with the same key have the same scope type, scope id, month and group. |
| Counter.ScopeKey | lib/statisfy/counter.rb:95-103 | `key_for` fails exactly on a nil scope, with NoMethodError `id`; otherwise it is the bucket's key. |
| Counter.NumberOfElementsIn | lib/statisfy/counter.rb:67-69 | SCARD of the bucket: the size of its set, 0 when the key is absent, WRONGTYPE on a list key, NoMethodError on a nil scope. |
| Counter.ElementsIn | lib/statisfy/counter.rb:74-76 | LRANGE 0 -1 of the bucket: its list, empty when the key is absent, WRONGTYPE on a set key, NoMethodError on a nil scope. |
| Counter.SumBounds | lib/statisfy/counter.rb:89 | When every value lies in [lo, hi], the sum lies between lo·n and hi·n. |
| Counter.Mean | lib/statisfy/counter.rb:87-89 | 0 for an empty list; otherwise the mean times the length is the sum. |
| Counter.MeanFromSum | lib/statisfy/counter.rb:87-89 | A non-empty list whose values sum to m times its length has mean m. |
| Counter.MeanWithin | lib/statisfy/counter.rb:85-90 | The average of a non-empty list lies between its smallest and largest possible value. |
| Counter.AverageFor | lib/statisfy/counter.rb:85-90 | `average_for` fails exactly when `elements_in` does, with the same error; otherwise it is the mean of that list. |
| Counter.Value | lib/statisfy/counter.rb:59-65 | For type `:average` this is `average_for`. For every other type it is the set size of the bucket, succeeding exactly when the key is absent or holds a set. NoMethodError on a nil scope. |
| Counter.AllKeys | lib/statisfy/counter.rb:158-168 | Fails with a parse error exactly when some key that KEYS lists is not a counter key. Otherwise it returns exactly the listed keys whose parsed fields match every given filter. |
| Counter.KeyForListed | lib/statisfy/counter.rb:159 | Every key that a counter with a plain name writes matches its own KEYS pattern. |
| Counter.AllKeysFindsBucket | lib/statisfy/counter.rb:158-168 | A bucket that the filter selects is returned exactly when it is stored. |
| Counter.ResetData | lib/statisfy/counter.rb:174-180 | After `reset` exactly the keys of `all_keys` are gone; every other key keeps its value. |
| Counter.ResetEmptiesSelectedBuckets | lib/statisfy/counter.rb:174-180 | After `reset`, every selected bucket reads as 0 elements and as an empty list. |
| Counter.Reset | lib/statisfy/counter.rb:174-180 | The loop deletes the listed keys one by one, leaves the store as ResetData says, and answers `true`. On a parse error nothing is deleted. |
| Counter.MonthsSince | lib/statisfy/counter.rb:126 | The window `(y·12 + m) − (y'·12 + m')` is the distance in months between the two dates. |
| Counter.SeriesStart | lib/statisfy/counter.rb:124-125 | The series starts at `start_at`; when that is absent it falls back to the scope's `created_at`. |
| Counter.MonthsShownFromStart | lib/statisfy/counter.rb:122-134 | Without `stop_at`, the months run from the start month to the current month, one month apart, oldest first. There are none when the start is later. |
| Counter.MonthsShownByDefault | lib/statisfy/counter.rb:122-131 | With no start, the series covers 25 months: 24 months back up to the current one. |
| Counter.ValuesGroupedByMonth | lib/statisfy/counter.rb:121-138 | The series succeeds exactly when every month's read succeeds. Entry i is ("%m/%Y" of month i, the rounded value in the "%Y-%m" bucket). The months are those shown, and the labels are distinct. |
| Calendar.RelevantMonths | lib/statisfy/counter.rb:129-131 | n+1 months (none when n < 0), one month apart and strictly increasing, from n months ago to the current month. |
| Calendar.KeepBefore | lib/statisfy/counter.rb:133-134 | Keeps exactly the months whose first instant is before `stop_at` (all of them when it is blank). |
| Calendar.KeepBeforeIncreasing | lib/statisfy/counter.rb:133-134 | The filter keeps the months in increasing order. |
| Calendar.Series | lib/statisfy/counter.rb:135-137 | The series succeeds exactly when every read does. Each entry is (label, rounded value), in order. |
| Calendar.SeriesLabelsDistinct | lib/statisfy/counter.rb:135-137 | Over increasing months the labels are pairwise distinct, so `to_h` loses no entry. |
| Calendar.BeginningOfOwnMonth | lib/statisfy/counter.rb:130 | The first of a date's own month has the date's year and month. |
| Calendar.YearMonthOfOwnMonth | lib/statisfy/counter.rb:136 | "%Y-%m" of a date equals "%Y-%m" of the first of its month. |
| Calendar.BeginningOfMonth | lib/statisfy/counter.rb:130 | `beginning_of_month` is day 1 of the month with the given index. |
| Calendar.MonthField | lib/statisfy/counter.rb:136 | "%m" is two digits that read back as the month. |
| Calendar.YearField | lib/statisfy/counter.rb:136 | "%Y" has at least four characters. |
| Calendar.ReadYearField | lib/statisfy/counter.rb:136 | "%Y" reads back as the year, negative years included. |
| Calendar.MonthSlashYearInjective | lib/statisfy/counter.rb:136 | Two dates with the same "%m/%Y" label are in the same month of the same year. |
| Calendar.LabelInjective | lib/statisfy/counter.rb:136 | Different months have different labels. |
| Decimal.IntToString | lib/statisfy/counter.rb:41 | The decimal text of an id is non-empty and starts with '-' exactly for a negative id. |
| Decimal.DigitsValueOfNatToString | lib/statisfy/counter.rb:101-102 | The digits written for a natural number read back as that number. |
| Decimal.ParseIntToString | lib/statisfy/counter.rb:160 | JSON.parse reads the `scope_id` that `to_json` wrote back as the same integer, leaving what follows untouched. |
| Keys.EscapePlain | lib/statisfy/counter.rb:159 | A counter name without `"` or `\` is written unescaped, as the KEYS pattern spells it. |
| Keys.ParseJsonObject | lib/statisfy/counter.rb:160 | An object whose member names are plain parses back to exactly its members, in order. |
| Keys.DecodeEncode | lib/statisfy/counter.rb:95-103 | JSON.parse of the key that `to_json` writes gives back the five fields. |
| Keys.EncodeInjective | lib/statisfy/counter.rb:95-103 | Different fields give different keys. |
| Keys.JsonObjectStarts | lib/statisfy/counter.rb:97 | The key text starts with `{` followed by its first member, `"counter":"<name>"`. |
| Counter.ScopesOf | lib/statisfy/counter.rb:193-195 | A `scopes:` block given to `count` is used as it is. Otherwise `[subject.department, subject.organisation]` is used, whose `flatten.compact` is the associations that are present, department first. |
| Counter.MonthToSet | lib/statisfy/counter.rb:189-191 | The "%Y-%m" of `created_at` is the "%Y-%m" of the first of that month, which is the key `values_grouped_by_month` reads for that month. |
| Counter.ScopesWithGlobal | lib/statisfy/counter.rb:185-187 | The scopes are the declared ones (or `[department, organisation]`), flattened with nils dropped, then the global scope last. |
| Counter.FanOut | lib/statisfy/counter.rb:211-217 | The fan-out has 2 × the number of scopes of `scopes_with_global`. |
| Counter.KeysOfAt | lib/statisfy/counter.rb:212-214 | The i-th key of one month's pass is the bucket of the i-th scope. |
| Counter.InKeysOf | lib/statisfy/counter.rb:212-214 | A bucket is in one month's pass exactly when its month is that month and its scope is one of the scopes. |
| Counter.FanOutAt | lib/statisfy/counter.rb:211-217 | Key i is scope i's bucket of the record's month ("%Y-%m" of created_at). Key |scopes|+i is scope i's all-time bucket. |
| Counter.InFanOut | lib/statisfy/counter.rb:211-217 | A bucket is written exactly when its scope is an event scope and its month is the record's month or all time. |
| Counter.GlobalInFanOut | lib/statisfy/counter.rb:185-191 | Every event writes the global all-time bucket and the global bucket of its month. |
| Counter.ChosenAction | lib/statisfy/counter.rb:197-205 | When `if_async` is false, nothing is written. Otherwise exactly one action runs: append when a value is present, else decrement when `decrement?` holds, else increment. |
| Counter.Effect | lib/statisfy/counter.rb:197-238 | Without `if_async` the store is unchanged. Otherwise the event runs to the end exactly when every bucket of the fan-out holds the kind of key its command needs. |
| Counter.EffectFrame | lib/statisfy/counter.rb:211-238 | An event leaves every key outside its fan-out as it was, and never leaves an empty set. |
| Counter.IncrementAddsIdentifier | lib/statisfy/counter.rb:219-223 | After an increment, each fan-out set is its old members plus the identifier. |
| Counter.IncrementCountedInItsMonth | lib/statisfy/counter.rb:189-191 | A counted record is in the bucket the series reads for the month of its `created_at`: that entry is the old set size with the identifier added. |
| Counter.IncrementIsIdempotent | lib/statisfy/counter.rb:219-223 | Delivering the same increment twice gives the same store as delivering it once. |
| Counter.DecrementUndoesIncrement | lib/statisfy/counter.rb:225-229 | A decrement with the same buckets and identifier restores the store to its state before an increment of an identifier that no bucket held. |
| Counter.DecrementOnDestroyRestores | test/statisfy_test.rb:220-231 | With `decrement_on_destroy: true` read as the `decrement?` it evidently means (true exactly on destroy), destroying a record that was counted gives back the store from before its creation. |
| Counter.AppendPushesValue | lib/statisfy/counter.rb:234-238 | After an append, each list is the old list plus the value, once per time the fan-out names the key. There is no deduplication. |
| Counter.FirstEventCountsOne | test/statisfy_test.rb:21-30 | A counter declared with only `every:` counts its first record as 1, in the global all-time bucket and in the global bucket of the record's month. (With the corrected `count`, see ## Findings.) |
| Counter.FirstIncrementCountsOne | lib/statisfy/counter.rb:219-223 | On an empty store, an event of a non-average counter that increments runs to the end and leaves 1 in the global all-time bucket and in the global bucket of its month. |
| Counter.DestroyWithoutDecrementIfKeepsCount | lib/statisfy/counter.rb:197-205 | Without `decrement_if`, the destroy event of a counted record increments again. The store stays as the create event left it. (With the corrected `count`, see ## Findings.) |
| Counter.CounterInstance.WriteFanOut | lib/statisfy/counter.rb:211-217 | Writes the keys of `all_counters_of`; the store and the answer are WriteAll of the old store over the fan-out. |
| Counter.CounterInstance.WriteKeys | lib/statisfy/counter.rb:219-238 | The loop writes each key in order and stops at the first WRONGTYPE. The store is then as WriteAll says. |
| Counter.CounterInstance.Increment | lib/statisfy/counter.rb:219-223 | SADD of the identifier over the fan-out of the given group. |
| Counter.CounterInstance.Decrement | lib/statisfy/counter.rb:225-229 | SREM of the identifier over the fan-out of the given group. |
| Counter.CounterInstance.Append | lib/statisfy/counter.rb:234-238 | RPUSH of the value over the fan-out of the given group. |
| Counter.CounterInstance.ProcessEvent | lib/statisfy/counter.rb:197-205 | The store after the call is the Effect of the chosen action, written without a group. |
| Counter.CounterInstance.Perform | lib/statisfy/subscriber.rb:83-86 | `params` becomes the payload, `subject` is kept, then the event is processed. |
| Counter.InitializeWith | lib/statisfy/counter.rb:145-152 | The counter is performed on the resource exactly when validation is skipped or `should_run?` holds. Otherwise nothing changes. |
| Redis.Apply | lib/statisfy/counter.rb:219-238 | One SADD, SREM or RPUSH. It fails (WRONGTYPE) exactly on a key of the other kind. SADD adds the member, SREM removes it and deletes an emptied set, RPUSH appends. No other key changes. |
| Redis.SCard | lib/statisfy/counter.rb:68 | SCARD is the size of the set, 0 when the key is absent, WRONGTYPE on a list. |
| Redis.LRange | lib/statisfy/counter.rb:75 | LRANGE 0 -1 is the list, empty when the key is absent, WRONGTYPE on a set. |
| Redis.WriteAll | lib/statisfy/counter.rb:211-238 | The fan-out loop: one command per key, in order, stopping at the first WRONGTYPE with no rollback. It has no contract of its own; the WriteAll rows below state what it means. |
| Redis.WriteAllFrame | lib/statisfy/counter.rb:211-238 | Keys the fan-out does not name are untouched. |
| Redis.WriteAllKeepsNoEmptySets | lib/statisfy/counter.rb:225-229 | The fan-out never leaves an empty set. |
| Redis.WriteAllSucceeds | lib/statisfy/counter.rb:211-238 | The fan-out runs to the end exactly when every key it names has the right kind. |
| Redis.WriteAllAdd | lib/statisfy/counter.rb:219-223 | A completed SADD fan-out leaves each named set as its old members plus the member. |
| Redis.WriteAllRemove | lib/statisfy/counter.rb:225-229 | A completed SREM fan-out removes the member from each named set, and deletes a set it empties. |
| Redis.WriteAllPush | lib/statisfy/counter.rb:234-238 | A completed RPUSH fan-out appends the value to each list once per time the key is named. |
| Redis.PushAgainSucceeds | lib/statisfy/counter.rb:234-238 | After a completed RPUSH fan-out, the next RPUSH fan-out over the same keys completes too. |
| Redis.ThreePushes | test/statisfy_test.rb:212-214 | Three RPUSH fan-outs from an empty store all complete. Each list then holds the three values in order, each repeated once per naming. |
| Redis.IncrementIdempotent | lib/statisfy/counter.rb:219-223 | Running the same SADD fan-out twice equals running it once. |
| Redis.IncrementThenDecrementRestores | lib/statisfy/counter.rb:219-229 | SADD then SREM of a member that no named set held gives back the original store. |
| Redis.Store.Write | lib/statisfy/counter.rb:221 | The store becomes Apply's result, or stays the same on WRONGTYPE. |
| Redis.Store.Del | lib/statisfy/counter.rb:176 | DEL removes the key and nothing else. |
| Subscriber.SplitAll | lib/statisfy/subscriber.rb:52 | The fields between underscores: at least one field, none containing `_`. |
| Subscriber.DropTrailingEmpty | lib/statisfy/subscriber.rb:52 | `split` drops the trailing empty fields and only those: the result is a prefix that does not end with "", and every field after it is "". |
| Subscriber.Split | lib/statisfy/subscriber.rb:52 | `String#split("_")`: a prefix of the fields between underscores, none holding `_` or ending the list with "", everything dropped being "". |
| Subscriber.JoinSplitAll | lib/statisfy/subscriber.rb:52-59 | Joining the fields with `_` gives the name back. |
| Subscriber.SplitAllOfWord | lib/statisfy/subscriber.rb:52 | A word without `_` is a single field. |
| Subscriber.SplitAllSuffixed | lib/statisfy/subscriber.rb:52 | `base_word` splits into the fields of base followed by word. |
| Subscriber.Capitalize | lib/statisfy/subscriber.rb:59 | Capitalizing keeps the length. |
| Subscriber.CamelizeSuffixed | lib/statisfy/subscriber.rb:59 | Camelizing `base_word` is camelizing base, then the capitalized word. |
| Subscriber.CamelizeTailsAppend | lib/statisfy/subscriber.rb:59 | Camelizing one more field appends that field's capitalized form. |
| Subscriber.Camelize | lib/statisfy/subscriber.rb:59 | `camelize` drops the underscores and keeps every other character: the result is as long as the name without its underscores. |
| Subscriber.EventFor | lib/statisfy/subscriber.rb:53-57 | `created`, `updated` and `destroyed` map to create, update and destroy, each in both directions. Any other suffix maps to nil. |
| Subscriber.ModelAndEventFromEventName | lib/statisfy/subscriber.rb:51-64 | A resolved model is always a defined class. |
| Subscriber.ModelAndEventOfSuffixedName | lib/statisfy/subscriber.rb:51-64 | `base_suffix` resolves to (camelize(base), the suffix's event) exactly when that class exists. Otherwise it raises "The model … does not exist". |
| Subscriber.ResolveAll | lib/statisfy/subscriber.rb:9-14 | On success there is one binding per name, in order, each the resolution of that name. |
| Subscriber.ResolveAllFails | lib/statisfy/subscriber.rb:9-14 | A failure is the error of the first name that does not resolve; all earlier names resolve. |
| Subscriber.FlattenEvents | lib/statisfy/subscriber.rb:9 | `[*event_names].flatten`: a single name is itself, and a list of names is those names in order. |
| Subscriber.CatchEvents | lib/statisfy/subscriber.rb:8-15 | Nested lists of event names are flattened. There is one binding per name, each naming a defined model. |
| Subscriber.TriggerEvent | lib/statisfy/subscriber.rb:27-33 | Execution is deferred exactly when the counter class responds to the async method and the trigger is not destroy. Otherwise it runs inline. Either way the payload is the attributes merged with the trigger. |
| Subscriber.OnDestroyCommit | lib/statisfy/subscriber.rb:36-41 | NoMethodError when the counter class defines no `decrement_on_destroy?`. When it does, the callback skips exactly when that method is false and there is no `on_destroy`. Otherwise it runs inline with the destroy trigger. |
| Subscriber.OnEventCommit | lib/statisfy/subscriber.rb:43-47 | Skips exactly when `should_run?` is false. Otherwise it is `trigger_event` with the event. |
| Subscriber.NoAsyncMethodRunsInline | lib/statisfy/subscriber.rb:27-33 | With no async method, every callback that fires runs `perform` inline. |
| Monthly.NMonthsAsWritten | lib/statisfy/monthly.rb:25 | The window as written falls 11 months short for every year between the dates. |
| Monthly.NMonthsAsWrittenExact | lib/statisfy/monthly.rb:25 | The window as written is the real distance exactly when both dates are in the same year. |
| Monthly.MonthsShownAsWrittenWithinYear | lib/statisfy/monthly.rb:21-33 | Without a start, or with a start in the current year, both windows show the same months. |
| Monthly.MonthsShownAsWrittenShorter | lib/statisfy/monthly.rb:25-30 | From an earlier year, the window as written shows fewer months than are due. |
| Monthly.ValuesGroupedByMonthAsWritten | lib/statisfy/monthly.rb:20-37 | The series over the window as written: it succeeds exactly when every read of the host's `value` with the month's first day succeeds. Each entry is (label, rounded value). |
| Monthly.ValuesGroupedByMonth | lib/statisfy/monthly.rb:20-37 | The same series over the counter.rb window, with distinct labels. |
| Monthly.DecemberToJanuary | lib/statisfy/monthly.rb:25 | Started in December and read the next January, the series as written is empty. The corrected series has two entries, December then January. |
| Aggregate.AggregateCounter | lib/statisfy/aggregate.rb:16-20 | A missing value is ArgumentError "You must provide the value to aggregate". Then the `every:` guard of `count` applies. On success the type is `:aggregate`, the value block is kept, and the bindings are those of `catch_events`. (With the corrected `count`, see ## Findings.) |
| Aggregate.MonthKey | lib/statisfy/aggregate.rb:30 | A present month becomes Some of its "%Y-%m"; nil stays nil. |
| Aggregate.Value | lib/statisfy/aggregate.rb:28-32 | The mean of the bucket's list (0 when empty or absent). It succeeds exactly when the key is absent or holds a list; WRONGTYPE otherwise; NoMethodError on a nil scope. |
| Aggregate.ShadowedValueRaises | lib/statisfy/aggregate.rb:5-9 | Once an aggregate counter has appended, the `value` that Counter's class methods provide answers WRONGTYPE for the global bucket, while the average is readable. |
| Aggregate.SumAppend | test/statisfy_test.rb:217 | The sum of two lists joined is the sum of their sums. |
| Aggregate.SumRepeat | test/statisfy_test.rb:217 | n copies of v sum to v·n. |
| Aggregate.MeanOfSalaries | test/statisfy_test.rb:212-217 | n copies each of 2000, 3000 and 4000 sum to 9000·n, and their mean is 3000. |
| Aggregate.SalaryAverage | test/statisfy_test.rb:205-217 | Three records with salaries 2000, 3000 and 4000 and the same buckets are all processed. The global all-time average is 3000, and the stored values sum to 9000 per naming of that bucket. |

## Left out

- The Redis client, its connection and the network (counter.rb `redis_client`): the store is the in-memory `Redis.Store`. KEYS is a filter over the map's keys, and the order in which it lists keys is not modelled (the result is a set).
- Ruby metaprogramming is represented by the `CounterDef` record, whose fields are the blocks given to `count`. This covers `included`, `class_eval`, `define_method`, `const_set`, `define_subject_method` and the `subject` alias.
- The `find_by` subject lookup and the `@subject` memoisation (subscriber.rb:70-73): the subject is a given `Record`.
- `append_to_counters` (counter.rb:32): the configuration hook evaluates arbitrary code in the class.
- `name.demodulize.underscore`: the counter's key name is a given string, `HostClass.counterName`.
- The registration of the `after_commit` callbacks and Rails' callback order: only the decision each callback takes is modelled.
- The job queue: a deferred call is the `Deferred` payload, and running it later is `CounterInstance.Perform`.
- `camelize` covers names without `/` and without acronym inflections. `Upcase` and `Downcase` are ASCII only.
- JSON: only `"` and `\` are escaped, as for plain names. Only the compact form that `to_json` writes is parsed. A listed key that is not a counter key counts as a parse error.
- Redis stores values as strings: SADD identifiers are their decimal text, and RPUSH values are integers read back with `to_i`.
- Floating point: `to_f` division is exact `real` division, and `round(2)` is a parameter.
- `Time.zone.today`: the current date is a parameter.
- `p "HEIN???"` (aggregate.rb:29) is a debug print with no effect on the result.
- `Counter.Value`: calling `value` without the required `scope:` keyword is a Ruby ArgumentError, and it is not modelled. A `None` scope stands for an explicit `nil`, which fails with NoMethodError on `id`.
- `Aggregate.Value`: aggregate.rb:31 calls `average`, which no file of the gem defines, so it is read as `average_for`.
- `sum` and `trigger_with`, used by the tests, are defined in no file of the gem.
- The reference-counting decrement that the tests expect is not in counter.rb. `decrement` is a plain SREM, and no property beyond that is claimed.
- Missing associations and classes: a `Record` always has `department` and `organisation` (each possibly nil), and the global `Department.new` always exists. In Ruby, the default `scopes` block (counter.rb:193-195) raises NoMethodError on a model without those associations, and counter.rb:186 raises NameError when there is no Department class. `constants` is not consulted for either.
- Counter.Blank: an event name is read as a Symbol, which is blank only when empty. A String of spaces, `every: " "`, is blank in ActiveSupport and makes counter.rb:27 raise ArgumentError. The model instead resolves it as a name, which raises Statisfy::Error.
- Aggregate.MonthKey: it takes a Date. counter.rb:136 passes `value` a "%Y-%m" String, on which aggregate.rb:30 would call `strftime` and raise NoMethodError, had the override been reached. The model does not represent that error.
- lib/statisfy/model.rb generates source text with `eval` and is not part of this model. lib/statisfy.rb and the configuration singleton are folded into the `Configuration` parameter.

## Findings

| source | as written | input that shows it | evidently intended | confidence | as-written member | corrected member |
|---|---|---|---|---|---|---|
| lib/statisfy/monthly.rb:25 | the window is `(today.year + today.month) - (start.year + start.month)` | start_at in December 2024, read in January 2025: the window is -10 and the series is empty | the month distance `year*12 + month`, as in counter.rb:126, giving December and January | high (not executed) | Monthly.DecemberToJanuary | Monthly.ValuesGroupedByMonth |
| lib/statisfy/counter.rb:26-47 | `count` never reads `decrement_on_destroy:`, and nothing defines `decrement_on_destroy?` (subscriber.rb:38) | `count every: :user_created, decrement_on_destroy: true`, then create and destroy a user (test/statisfy_test.rb:220-231): the destroy callback raises NoMethodError, or, where the class defines the method, the destroy increments again and the value stays 1 | destroy decrements, bringing the value back to 0 | medium (not executed) | Counter.DestroyWithoutDecrementIfKeepsCount | Counter.DecrementOnDestroyRestores |
| lib/statisfy/aggregate.rb:5-9 | `klass.extend(ClassMethods)` runs before `include Counter`, whose own hook extends Counter's class methods, so `value` resolves to Counter's, which tests only for `:average` | an aggregate counter with one appended value: `value(scope: Department.new)` runs SCARD on a list key and raises WRONGTYPE | the override that returns the average | medium (not executed) | Aggregate.ShadowedValueRaises | Aggregate.Value |
| lib/statisfy/counter.rb:29 | `catch_events(*args[:every], if: ...)`: `catch_events` takes only a splat, so the options hash is appended to the event names and resolved as one more name | `count every: :user_created`: the extra name is the text `{:if=>#<Proc...>}`, whose model part is empty or starts with `{` and so names no class, so `count` raises Statisfy::Error | resolving only the event names | medium (not executed) | Counter.CountAsWrittenAlwaysFails | Counter.Count |
