/**
 * The values a counter definition is made of. A Ruby counter class gets its behaviour from
 * the blocks given to `count`, which `apply_default_counter_options` turns into methods; here
 * those blocks are function-valued fields of a record, evaluated on an explicit Context.
 */
module Definition {
  import opened Wrappers
  import opened Calendar
  import opened Keys

  datatype Trigger = Create | Update | Destroy

  /** The attribute snapshot of a record: its id, its created_at and its other columns. */
  datatype Attributes = Attributes(id: int, createdAt: Date, fields: map<string, string>)

  /**
   * A tracked record as the counter blocks see it: its attributes and the two associations
   * that the default `scopes` reads (`subject.department`, `subject.organisation`).
   */
  datatype Record = Record(attributes: Attributes, department: Option<Scope>, organisation: Option<Scope>)

  /** `params`: the attributes, plus `statisfy_trigger` once the subscriber merged it in. */
  datatype Params = Params(attributes: Attributes, trigger: Option<Trigger>)

  /** What a block evaluated with `instance_exec` on a counter sees: `params` and `subject`. */
  datatype Context = Context(params: Params, subject: Record)

  /** What a `scopes` block returns: scopes, nils and nested arrays, before flatten.compact. */
  datatype ScopeEntry = NoScope | OneScope(scope: Scope) | Nested(entries: seq<ScopeEntry>)

  /** The `type:` symbol of a counter. */
  datatype CounterType = Increment | Average | Aggregate | OtherType(name: string)

  /** `every:`: one event name or a (possibly nested) array of event names. */
  datatype Events = EventName(name: string) | EventList(items: seq<Events>)

  /** The options hash of `count` and `aggregate`; None is an option that was not given. */
  datatype Args = Args(
    every: Option<Events>,
    counterType: Option<CounterType>,
    condition: Option<Context -> bool>,
    ifAsync: Option<Context -> bool>,
    uniqBy: Option<Context -> string>,
    scopes: Option<Context -> seq<ScopeEntry>>,
    decrementIf: Option<Context -> bool>,
    value: Option<Context -> Option<int>>)

  /**
   * What the counter class brings besides `count`: its key name (`name.demodulize.underscore`),
   * the class methods it responds to (a Sidekiq job responds to `perform_async`), its own
   * `decrement_on_destroy?` if it defines one, and whether it defines `on_destroy`.
   */
  datatype HostClass = HostClass(
    counterName: string,
    classMethods: set<string>,
    decrementOnDestroy: Option<Context -> bool>,
    respondsToOnDestroy: bool)

  /** A model class and lifecycle event a counter listens to, as `catch_events` resolved it. */
  datatype Binding = Binding(model: string, event: Option<Trigger>)

  /**
   * A counter class after `count`: the event bindings, the COUNTER_TYPE constant and the
   * instance methods `identifier`, `scopes` (None: the module's default), `if_async`,
   * `decrement?`, `value` and `should_run?`.
   */
  datatype CounterDef = CounterDef(
    host: HostClass,
    bindings: seq<Binding>,
    counterType: CounterType,
    identifier: Context -> string,
    scopes: Option<Context -> seq<ScopeEntry>>,
    ifAsync: Context -> bool,
    decrementIf: Context -> bool,
    value: Context -> Option<int>,
    shouldRun: Context -> bool)

  /** `Statisfy.configuration`, as far as the core reads it. */
  datatype Configuration = Configuration(defaultAsyncMethod: string)

  /** configuration.rb: the default async method is `perform_async`. */
  const DefaultConfiguration := Configuration("perform_async")

  /**
   * Raised exceptions: ArgumentError, Statisfy::Error, NoMethodError, JSON::ParserError and
   * Redis's WRONGTYPE.
   */
  datatype Error =
    | ArgumentError(message: string)
    | StatisfyError(message: string)
    | NoMethodError(name: string)
    | ParseError
    | WrongType
}
