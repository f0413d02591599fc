/**
 * Service definitions as the compiler passes build them: a definition has a
 * class, an optional factory, positional and named arguments, an ordered list
 * of method calls, tags and an optional decorated service. A container
 * snapshot is the pair of maps (definitions by id, aliases by id) that the
 * passes read and change.
 */
module Definitions {
  import opened Wrappers

  /** A float tunable, carried opaquely as mantissa * 10^exponent. */
  datatype Decimal = Decimal(mantissa: int, exponent: int)

  /** A value that can stand in an argument list or a configuration entry. */
  datatype Value =
    | Null
    | Bool(b: bool)
    | Int(i: int)
    | Float(f: Decimal)
    | Str(s: string)
    | Obj(className: string)            // a run-time object of the given class
    | Ref(id: string)                   // new Reference($id)
    | ServiceClosure(target: string)    // new ServiceClosureArgument(new Reference($id))
    | Inline(def: Definition)           // an anonymous Definition object
    | IntervalOf(text: string)          // dateIntervalDefinition($text)
    | LoggerRef                         // referenceLogger()
    | List(items: seq<Value>)
    | Dict(entries: seq<(string, Value)>)

  /** `[$target, $method]` given to `setFactory`. */
  datatype Factory = Factory(target: Value, name: string)

  /** `addMethodCall($method, $arguments, $returnsClone)`. */
  datatype MethodCall = MethodCall(name: string, args: seq<Value>, returnsClone: bool)

  datatype Tag = Tag(name: string, attributes: seq<(string, Value)>)

  /** `setDecoratedService($id, $renamedId)`. */
  datatype Decoration = Decoration(id: string, renamedInner: string)

  datatype Definition = Definition(
    className: Option<string>,
    factory: Option<Factory>,
    args: seq<Value>,
    named: map<string, Value>,
    calls: seq<MethodCall>,
    tags: seq<Tag>,
    decorates: Option<Decoration>,
    public: bool)
  {
    function WithFactory(target: Value, name: string): Definition {
      this.(factory := Some(Factory(target, name)))
    }

    function WithArgs(values: seq<Value>): Definition {
      this.(args := values)
    }

    /** `setArgument('$name', $value)` for a named argument. */
    function WithNamed(name: string, value: Value): Definition {
      this.(named := named[name := value])
    }

    function AddCall(call: MethodCall): Definition {
      this.(calls := calls + [call])
    }

    function AddTag(name: string): Definition {
      this.(tags := tags + [Tag(name, [])])
    }

    function Decorate(id: string, renamedInner: string): Definition {
      this.(decorates := Some(Decoration(id, renamedInner)))
    }

    function Public(): Definition {
      this.(public := true)
    }

    predicate HasTag(name: string) {
      exists i :: 0 <= i < |tags| && tags[i].name == name
    }
  }

  /** `new Definition($class, $arguments)`: the `definition()` helper. */
  function NewDefinition(className: Option<string>, args: seq<Value>): Definition {
    Definition(className, None, args, map[], [], [], None, false)
  }

  /** `array_map(reference(...), $ids)`: one service reference per id, in order. */
  function Refs(ids: seq<string>): (r: seq<Value>)
    ensures |r| == |ids| && forall i :: 0 <= i < |ids| ==> r[i] == Ref(ids[i])
  {
    if ids == [] then [] else Refs(ids[..|ids| - 1]) + [Ref(ids[|ids| - 1])]
  }

  /** A PHP list of strings as an argument value. */
  function StrList(xs: seq<string>): (r: seq<Value>)
    ensures |r| == |xs| && forall i :: 0 <= i < |xs| ==> r[i] == Str(xs[i])
  {
    if xs == [] then [] else StrList(xs[..|xs| - 1]) + [Str(xs[|xs| - 1])]
  }

  /** `$container->register($id, $class)` starts from an empty definition of that class. */
  function Registered(className: string): Definition {
    NewDefinition(Some(className), [])
  }

  /**
   * PHP truthiness, as used by `$x ?? false` guards: null, false, 0, 0.0,
   * "", "0" and empty arrays are falsy; objects are truthy.
   */
  predicate Truthy(v: Value) {
    match v
    case Null => false
    case Bool(b) => b
    case Int(i) => i != 0
    case Float(f) => f.mantissa != 0
    case Str(s) => s != "" && s != "0"
    case List(items) => items != []
    case Dict(entries) => entries != []
    case _ => true
  }

  /** PHP's loose `$s == null` on a nullable string: true for null and for "". */
  predicate NullishString(s: Option<string>) {
    s == None || s == Some("")
  }

  /** The definitions and aliases of a container at one moment. */
  datatype Snapshot = Snapshot(definitions: map<string, Definition>, aliases: map<string, string>)
  {
    /** `register`/`setDefinition`: replaces the definition and drops an alias of the same id. */
    function Register(id: string, def: Definition): (s: Snapshot)
      ensures s.definitions.Keys == definitions.Keys + {id} && s.definitions[id] == def
      ensures s.aliases.Keys == aliases.Keys - {id}
    {
      Snapshot(definitions[id := def], aliases - {id})
    }

    /** `getDefinition($id)->addMethodCall(…)`; only ever applied to a registered id. */
    function AddMethodCall(id: string, call: MethodCall): (s: Snapshot)
      ensures s.definitions.Keys == definitions.Keys && s.aliases == aliases
      ensures id in definitions ==> s.definitions[id].calls == definitions[id].calls + [call]
    {
      if id in definitions then Snapshot(definitions[id := definitions[id].AddCall(call)], aliases)
      else this
    }

    /** `getDefinition($id)->setArgument($name, $value)`; only ever applied to a registered id. */
    function SetArgument(id: string, name: string, value: Value): (s: Snapshot)
      ensures s.definitions.Keys == definitions.Keys && s.aliases == aliases
    {
      if id in definitions then Snapshot(definitions[id := definitions[id].WithNamed(name, value)], aliases)
      else this
    }

    /** `setAlias`: records the alias and drops a definition of the same id. */
    function SetAlias(alias: string, id: string): (s: Snapshot)
      ensures s.aliases.Keys == aliases.Keys + {alias} && s.aliases[alias] == id
      ensures s.definitions.Keys == definitions.Keys - {alias}
    {
      Snapshot(definitions - {alias}, aliases[alias := id])
    }

    function RemoveDefinition(id: string): (s: Snapshot)
      ensures s.definitions.Keys == definitions.Keys - {id} && s.aliases == aliases
    {
      Snapshot(definitions - {id}, aliases)
    }

    /** `$container->has($id)`: a definition or an alias of that id. */
    predicate Has(id: string) {
      id in definitions || id in aliases
    }

    /** The ids `findTaggedServiceIds($tag)` returns, as a set. */
    function TaggedIds(tag: string): set<string> {
      set id | id in definitions && definitions[id].HasTag(tag)
    }
  }

  /** Registering under one id leaves every other id as it was. */
  lemma RegisterElsewhere(s: Snapshot, id: string, def: Definition, other: string)
    requires other != id
    ensures other in s.Register(id, def).definitions <==> other in s.definitions
    ensures other in s.definitions ==> s.Register(id, def).definitions[other] == s.definitions[other]
  {
  }

  /** Setting an argument of one service leaves every other service as it was. */
  lemma SetArgumentElsewhere(s: Snapshot, id: string, name: string, value: Value, other: string)
    requires other != id
    ensures other in s.SetArgument(id, name, value).definitions <==> other in s.definitions
    ensures other in s.definitions ==> s.SetArgument(id, name, value).definitions[other] == s.definitions[other]
  {
  }
}
