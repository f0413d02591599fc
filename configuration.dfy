/**
 * The bundle's configuration tree: the resolved shape the compiler passes
 * read, the validation rules (interval strings, repeated list entries, the
 * two enumerations) and the defaults the tree fills in.
 */
module Configuration {
  import opened Wrappers
  import opened Definitions
  import Php

  // ---------------------------------------------------------------- enums

  /** The ten interval units accepted for `grpcContext.timeout.format`. */
  datatype IntervalFormat =
    Nanoseconds | Microseconds | Milliseconds | Seconds | Minutes | Hours | Days | Weeks | Months | Years

  function FormatName(f: IntervalFormat): string {
    match f
    case Nanoseconds => "nanoseconds"
    case Microseconds => "microseconds"
    case Milliseconds => "milliseconds"
    case Seconds => "seconds"
    case Minutes => "minutes"
    case Hours => "hours"
    case Days => "days"
    case Weeks => "weeks"
    case Months => "months"
    case Years => "years"
  }

  const FormatNames: seq<string> :=
    ["nanoseconds", "microseconds", "milliseconds", "seconds", "minutes",
     "hours", "days", "weeks", "months", "years"]

  /** The enum node for `format`: a value outside the ten names is invalid. */
  function ParseFormat(s: string): (r: Option<IntervalFormat>)
    ensures r.Some? <==> s in FormatNames
    ensures r.Some? ==> FormatName(r.value) == s
  {
    if s == "nanoseconds" then Some(Nanoseconds)
    else if s == "microseconds" then Some(Microseconds)
    else if s == "milliseconds" then Some(Milliseconds)
    else if s == "seconds" then Some(Seconds)
    else if s == "minutes" then Some(Minutes)
    else if s == "hours" then Some(Hours)
    else if s == "days" then Some(Days)
    else if s == "weeks" then Some(Weeks)
    else if s == "months" then Some(Months)
    else if s == "years" then Some(Years)
    else None
  }

  lemma FormatRoundTrip(f: IntervalFormat)
    ensures ParseFormat(FormatName(f)) == Some(f)
  {
  }

  /**
   * `QueryRejectCondition`: UNSPECIFIED = 0, NONE = 1, NOT_OPEN = 2,
   * NOT_COMPLETED_CLEANLY = 3. The enum node compares strictly, so only
   * these four integers are accepted.
   */
  predicate ValidQueryRejectionCondition(v: Value) {
    v.Int? && 0 <= v.i <= 3
  }

  // ------------------------------------------------------ interval validator

  /** What `DateInterval::createFromDateString` does with a string. */
  datatype IntervalParse = Parsed | ReturnedFalse | Malformed

  /**
   * The `$dateIntervalValidator` closure; `true` means "invalid". A null
   * value is accepted, and so is "" because PHP's `"" == null` holds.
   */
  function IntervalRejected(v: Option<string>, parse: string -> IntervalParse): (rejected: bool)
    ensures rejected <==> v.Some? && v.value != "" && parse(v.value) != Parsed
  {
    if NullishString(v) then false
    else
      match parse(v.value)
      case Malformed => true
      case ReturnedFalse => true
      case Parsed => false
  }

  /**
   * What the validator makes of a value written for an interval key. The
   * closure takes `?string` and is called from code without strict types, so
   * PHP hands it the value's string form: an integer's digits, "1" for true
   * and "" for false, which is accepted like null.
   */
  function IntervalValueRejected(v: Value, parse: string -> IntervalParse): (rejected: bool)
    ensures v.Null? || v == Bool(false) ==> !rejected
    ensures v.Str? ==> (rejected <==> v.s != "" && parse(v.s) != Parsed)
    ensures v.Int? ==> (rejected <==> parse(Php.IntText(v.i)) != Parsed)
    ensures v == Bool(true) ==> (rejected <==> parse("1") != Parsed)
  {
    match v
    case Null => false
    case Str(s) => IntervalRejected(Some(s), parse)
    case Int(i) => IntervalRejected(Some(Php.IntText(i)), parse)
    case Bool(b) => IntervalRejected(Some(if b then "1" else ""), parse)
    case _ => true
  }

  // ------------------------------------------------------------- node types

  /** The node type of a key, which decides which written values the tree accepts for it. */
  datatype NodeKind = ScalarNode | IntegerNode | FloatNode | BooleanNode | ListNode

  /** The values of a PHP array, in order: a list's items, a mapping's values. */
  function ArrayValues(v: Value): (r: seq<Value>)
    ensures v.List? ==> r == v.items
    ensures v.Dict? ==> |r| == |v.entries| && forall i :: 0 <= i < |r| ==> r[i] == v.entries[i].1
  {
    match v
    case List(items) => items
    case Dict(entries) => seq(|entries|, i requires 0 <= i < |entries| => entries[i].1)
    case _ => []
  }

  predicate AllStrings(items: seq<Value>) {
    forall i :: 0 <= i < |items| ==> items[i].Str?
  }

  /**
   * `scalarNode` takes any scalar or null, `integerNode` an int, `floatNode`
   * an int or a float, `booleanNode` a bool. An `arrayNode` with a scalar
   * prototype takes any array, a list or a mapping, and its prototype then
   * checks each value (strings, in this model); both checks happen while the
   * node normalizes the entry.
   */
  predicate Accepts(kind: NodeKind, v: Value) {
    match kind
    case ScalarNode => v.Null? || v.Bool? || v.Int? || v.Float? || v.Str?
    case IntegerNode => v.Int?
    case FloatNode => v.Int? || v.Float?
    case BooleanNode => v.Bool?
    case ListNode => (v.List? || v.Dict?) && AllStrings(ArrayValues(v))
  }

  /** A child of an array node: its key, its type and its default (`None`: required). */
  datatype Child = Child(key: string, kind: NodeKind, default: Option<Value>)

  /** The child under `key`, if the node declares one. */
  function ChildOf(children: seq<Child>, key: string): Option<Child> {
    if children == [] then None
    else if children[0].key == key then Some(children[0])
    else ChildOf(children[1..], key)
  }

  /** `ChildOf` finds a child under `key` exactly when one is declared. */
  lemma {:induction false} ChildOfFound(children: seq<Child>, key: string)
    ensures var r := ChildOf(children, key);
      && (r.None? <==> forall j :: 0 <= j < |children| ==> children[j].key != key)
      && (r.Some? ==> exists j :: 0 <= j < |children| && children[j] == r.value && r.value.key == key)
  {
    if children != [] {
      if children[0].key == key {
        assert children[0] == ChildOf(children, key).value;
      } else {
        var rest := children[1..];
        ChildOfFound(rest, key);
        assert forall j :: 1 <= j < |children| ==> children[j] == rest[j - 1];
        if ChildOf(children, key).Some? {
          var j :| 0 <= j < |rest| && rest[j] == ChildOf(rest, key).value;
          assert children[j + 1] == rest[j];
        }
      }
    }
  }

  /** The default the tree fills in for `key` when it is not written, if any. */
  function DefaultOf(children: seq<Child>, key: string): Option<Value> {
    var c := ChildOf(children, key);
    if c.Some? then c.value.default else None
  }

  predicate HasKey<T>(entries: seq<(string, T)>, key: string) {
    exists i :: 0 <= i < |entries| && entries[i].0 == key
  }

  /** `$array[$key] ?? null` on an array given by its entries in order. */
  function Lookup(entries: seq<(string, Value)>, key: string): (r: Option<Value>)
    ensures r.None? <==> !HasKey(entries, key)
    ensures r.Some? ==> exists i :: 0 <= i < |entries| && entries[i] == (key, r.value)
  {
    if entries == [] then None
    else if entries[0].0 == key then Some(entries[0].1)
    else
      assert forall i :: 1 <= i < |entries| ==> entries[i] == entries[1..][i - 1];
      Lookup(entries[1..], key)
  }

  /** A written entry names a child of the node and has a type that child accepts. */
  predicate WellTyped(children: seq<Child>, e: (string, Value)) {
    var c := ChildOf(children, e.0);
    c.Some? && Accepts(c.value.kind, e.1)
  }

  /** A written entry names a child of the node, with a value of a type that child refuses. */
  predicate WrongType(children: seq<Child>, e: (string, Value)) {
    var c := ChildOf(children, e.0);
    c.Some? && !Accepts(c.value.kind, e.1)
  }

  /**
   * The first written entry, in written order, whose declared child refuses
   * its value: the error the node's normalize loop throws as it reaches it.
   */
  function FirstWrongType(children: seq<Child>, entries: seq<(string, Value)>): (r: Option<string>)
    ensures r.None? <==> forall i :: 0 <= i < |entries| ==> !WrongType(children, entries[i])
    ensures r.Some? ==> exists i :: (0 <= i < |entries| && entries[i].0 == r.value && WrongType(children, entries[i])
      && forall j :: 0 <= j < i ==> !WrongType(children, entries[j]))
  {
    if entries == [] then None
    else if WrongType(children, entries[0]) then Some(entries[0].0)
    else
      var rest := entries[1..];
      assert forall i :: 1 <= i < |entries| ==> entries[i] == rest[i - 1];
      var r := FirstWrongType(children, rest);
      assert r.Some? ==> exists i :: (1 <= i < |entries| && entries[i].0 == r.value && WrongType(children, entries[i])
        && forall j :: 0 <= j < i ==> !WrongType(children, entries[j])) by {
        if r.Some? {
          var k :| 0 <= k < |rest| && rest[k].0 == r.value && WrongType(children, rest[k])
            && forall j :: 0 <= j < k ==> !WrongType(children, rest[j]);
          assert entries[k + 1] == rest[k];
        }
      }
      r
  }

  /**
   * The first written key, in written order, that the node does not declare:
   * what "Unrecognized option" names once the loop has gone through every entry.
   */
  function FirstUndeclared(children: seq<Child>, entries: seq<(string, Value)>): (r: Option<string>)
    ensures r.None? <==> forall i :: 0 <= i < |entries| ==> ChildOf(children, entries[i].0).Some?
    ensures r.Some? ==> ChildOf(children, r.value).None? && exists i :: (0 <= i < |entries| && entries[i].0 == r.value
      && forall j :: 0 <= j < i ==> ChildOf(children, entries[j].0).Some?)
  {
    if entries == [] then None
    else if ChildOf(children, entries[0].0).None? then Some(entries[0].0)
    else
      var rest := entries[1..];
      assert forall i :: 1 <= i < |entries| ==> entries[i] == rest[i - 1];
      var r := FirstUndeclared(children, rest);
      assert r.Some? ==> exists i :: (1 <= i < |entries| && entries[i].0 == r.value
        && forall j :: 0 <= j < i ==> ChildOf(children, entries[j].0).Some?) by {
        if r.Some? {
          var k :| 0 <= k < |rest| && rest[k].0 == r.value
            && forall j :: 0 <= j < k ==> ChildOf(children, rest[j].0).Some?;
          assert entries[k + 1] == rest[k];
        }
      }
      r
  }

  /**
   * The children left unwritten that have a default, each with its default,
   * in tree order: what Symfony appends to a written array node when it
   * finalizes it.
   */
  function MissingDefaults(children: seq<Child>, written: seq<(string, Value)>): seq<(string, Value)> {
    if children == [] then []
    else
      var c := children[|children| - 1];
      MissingDefaults(children[..|children| - 1], written)
        + (if c.default.Some? && !HasKey(written, c.key) then [(c.key, c.default.value)] else [])
  }

  /** The appended entries are exactly the unwritten children that have a default, with that default. */
  lemma {:induction false} MissingDefaultsSpec(children: seq<Child>, written: seq<(string, Value)>)
    ensures var r := MissingDefaults(children, written);
      && (forall i :: 0 <= i < |r| ==>
            && !HasKey(written, r[i].0)
            && exists j :: 0 <= j < |children| && children[j].key == r[i].0 && children[j].default == Some(r[i].1))
      && (forall j :: 0 <= j < |children| && children[j].default.Some? && !HasKey(written, children[j].key) ==>
            (children[j].key, children[j].default.value) in r)
  {
    if children != [] {
      var init := children[..|children| - 1];
      MissingDefaultsSpec(init, written);
      assert forall j :: 0 <= j < |init| ==> init[j] == children[j];
      var r := MissingDefaults(children, written);
      var m := MissingDefaults(init, written);
      assert forall i :: 0 <= i < |m| ==> r[i] == m[i];
    }
  }

  predicate DistinctKeys(children: seq<Child>) {
    forall i, j :: 0 <= i < j < |children| ==> children[i].key != children[j].key
  }

  /** Over children with distinct keys, no default is appended twice. */
  lemma {:induction false} MissingDefaultsDistinct(children: seq<Child>, written: seq<(string, Value)>)
    requires DistinctKeys(children)
    ensures DistinctNames(MissingDefaults(children, written))
  {
    if children != [] {
      var init := children[..|children| - 1];
      var c := children[|children| - 1];
      MissingDefaultsDistinct(init, written);
      MissingDefaultsSpec(init, written);
      var m := MissingDefaults(init, written);
      forall i | 0 <= i < |m| ensures m[i].0 != c.key {
        var j :| 0 <= j < |init| && init[j].key == m[i].0 && init[j].default == Some(m[i].1);
        assert init[j] == children[j];
      }
    }
  }

  /** Looking a key up in `a + b` finds it in `a` first. */
  lemma {:induction false} LookupAppend(a: seq<(string, Value)>, b: seq<(string, Value)>, key: string)
    ensures Lookup(a + b, key) == if HasKey(a, key) then Lookup(a, key) else Lookup(b, key)
  {
    if a == [] {
      assert a + b == b;
    } else if a[0].0 == key {
      assert (a + b)[0] == a[0];
      assert HasKey(a, key) by { assert a[0].0 == key; }
    } else {
      assert (a + b)[0] == a[0];
      assert (a + b)[1..] == a[1..] + b;
      LookupAppend(a[1..], b, key);
      assert HasKey(a, key) <==> HasKey(a[1..], key) by {
        if HasKey(a, key) {
          var i :| 0 <= i < |a| && a[i].0 == key;
          assert a[1..][i - 1] == a[i];
        }
        if HasKey(a[1..], key) {
          var i :| 0 <= i < |a[1..]| && a[1..][i].0 == key;
          assert a[i + 1] == a[1..][i];
        }
      }
    }
  }

  /** In a node whose keys are distinct, every child is what its key finds. */
  lemma ChildOfAt(children: seq<Child>, j: nat)
    requires DistinctKeys(children) && j < |children|
    ensures ChildOf(children, children[j].key) == Some(children[j])
  {
    ChildOfFound(children, children[j].key);
    var c := ChildOf(children, children[j].key);
    var k :| 0 <= k < |children| && children[k] == c.value && c.value.key == children[j].key;
  }

  /** In an array whose keys are distinct, every entry is what its key looks up. */
  lemma LookupDistinct(entries: seq<(string, Value)>, i: nat)
    requires DistinctNames(entries) && i < |entries|
    ensures Lookup(entries, entries[i].0) == Some(entries[i].1)
  {
    var r := Lookup(entries, entries[i].0);
    var k :| 0 <= k < |entries| && entries[k] == (entries[i].0, r.value);
  }

  // ------------------------------------------------------- resolved shapes

  datatype Timeout = Timeout(value: int, format: IntervalFormat)

  datatype Client = Client(
    namespace: string,
    address: string,
    identity: Option<Value>,
    dataConverter: string,
    clientKey: Option<string>,
    clientPem: Option<string>,
    queryRejectionCondition: Option<Value>,   // None: the key is absent
    interceptors: seq<string>,
    timeout: Timeout)

  /**
   * A resolved worker: the keys the passes read by name, and the whole
   * resolved array in its order, which the worker-options loop walks.
   */
  datatype Worker = Worker(
    taskQueue: string,
    exceptionInterceptor: string,
    finalizers: seq<string>,
    interceptors: seq<string>,
    entries: seq<(string, Value)>)

  /**
   * The `pool` node. It has no default and its two scalar children are not
   * required, so each may be absent (None); `cannotBeEmpty` only rejects a
   * value that is written. An absent `pool` reads as both settings absent.
   */
  datatype Pool = Pool(dataConverter: Option<string>, roadrunnerRPC: Option<string>)

  const NoPool := Pool(None, None)

  /** `cannotBeEmpty` on both children of a written `pool`. */
  predicate PoolValid(pool: Option<Pool>) {
    pool.Some? ==> pool.value.dataConverter != Some("") && pool.value.roadrunnerRPC != Some("")
  }

  datatype Config = Config(
    defaultClient: string,
    defaultScheduleClient: string,
    workerFactory: string,
    pool: Pool,
    clients: seq<(string, Client)>,
    scheduleClients: seq<(string, Client)>,
    workers: seq<(string, Worker)>)

  /** Names are the keys of a PHP array, so no two entries share one. */
  predicate DistinctNames<T>(entries: seq<(string, T)>) {
    forall i, j :: 0 <= i < j < |entries| ==> entries[i].0 != entries[j].0
  }

  function Names<T>(entries: seq<(string, T)>): (r: seq<string>)
    ensures |r| == |entries| && forall i :: 0 <= i < |r| ==> r[i] == entries[i].0
  {
    if entries == [] then [] else Names(entries[..|entries| - 1]) + [entries[|entries| - 1].0]
  }

  /** The resolved worker array, in the order the worker-options loop walks it. */
  function Entries(w: Worker): seq<(string, Value)> {
    w.entries
  }

  // ---------------------------------------------------------------- defaults

  const DefaultName := "default"
  const DefaultExceptionInterceptor := "temporal.exception_interceptor"
  const DefaultDataConverter := "temporal.data_converter"
  const DefaultWorkerFactory := "Temporal\\WorkerFactory"
  const DefaultTimeout := Timeout(5, Seconds)

  /** The children of `workers.<name>` in tree order, each with its node type and default. */
  const WorkerChildren: seq<Child> := [
    Child("maxConcurrentActivityExecutionSize", ScalarNode, Some(Int(0))),
    Child("workerActivitiesPerSecond", FloatNode, Some(Int(0))),
    Child("taskQueue", ScalarNode, None),
    Child("exceptionInterceptor", ScalarNode, Some(Str(DefaultExceptionInterceptor))),
    Child("finalizers", ListNode, Some(List([]))),
    Child("interceptors", ListNode, Some(List([]))),
    Child("maxConcurrentLocalActivityExecutionSize", IntegerNode, Some(Int(0))),
    Child("workerLocalActivitiesPerSecond", FloatNode, Some(Int(0))),
    Child("taskQueueActivitiesPerSecond", IntegerNode, Some(Int(0))),
    Child("maxConcurrentActivityTaskPollers", IntegerNode, Some(Int(0))),
    Child("maxConcurrentWorkflowTaskExecutionSize", IntegerNode, Some(Int(0))),
    Child("maxConcurrentWorkflowTaskPollers", IntegerNode, Some(Int(0))),
    Child("enableSessionWorker", BooleanNode, Some(Bool(false))),
    Child("sessionResourceId", ScalarNode, Some(Null)),
    Child("maxConcurrentSessionExecutionSize", IntegerNode, Some(Int(1000))),
    Child("stickyScheduleToStartTimeout", ScalarNode, Some(Null)),
    Child("workerStopTimeout", ScalarNode, Some(Null)),
    Child("deadlockDetectionTimeout", ScalarNode, Some(Null)),
    Child("maxHeartbeatThrottleInterval", ScalarNode, Some(Null))]

  /** The four worker keys validated as interval strings. */
  const IntervalKeys: seq<string> := [
    "stickyScheduleToStartTimeout", "workerStopTimeout",
    "deadlockDetectionTimeout", "maxHeartbeatThrottleInterval"]

  lemma WorkerChildrenDistinct()
    ensures DistinctKeys(WorkerChildren)
  {
  }

  // ------------------------------------------------------------ raw input

  datatype ConfigError =
    | UnrecognizedOption(key: string)
    | InvalidType(key: string)
    | MissingTaskQueue
    | EmptyExceptionInterceptor
    | RepeatedFinalizer
    | RepeatedInterceptor
    | BadInterval(key: string)
    | MissingNamespace
    | EmptyAddress
    | EmptyDataConverter
    | BadQueryRejectionCondition
    | BadTimeoutFormat
    | BadWorkerFactory
    | EmptyPoolSetting

  datatype Resolved<T> = Ok(value: T) | Invalid(error: ConfigError)

  /** A worker entry as written: its keys and values in the order they were written. */
  datatype RawWorker = RawWorker(entries: seq<(string, Value)>)

  /** The first interval key (in tree order) whose written value the validator rejects. */
  function FirstBadInterval(keys: seq<string>, entries: seq<(string, Value)>, parse: string -> IntervalParse): (r: Option<string>)
    ensures r.None? <==> forall k :: k in keys && Lookup(entries, k).Some? ==> !IntervalValueRejected(Lookup(entries, k).value, parse)
    ensures r.Some? ==> r.value in keys && Lookup(entries, r.value).Some? && IntervalValueRejected(Lookup(entries, r.value).value, parse)
  {
    if keys == [] then None
    else if Lookup(entries, keys[0]).Some? && IntervalValueRejected(Lookup(entries, keys[0]).value, parse) then
      assert keys[0] in keys;
      Some(keys[0])
    else
      assert forall k :: k in keys <==> k == keys[0] || k in keys[1..];
      FirstBadInterval(keys[1..], entries, parse)
  }

  predicate NonEmptyString(v: Option<Value>) {
    v.Some? && v.value.Str? && v.value.s != ""
  }

  /** A list key: absent, or an array (a list or a mapping) of strings. */
  predicate StringList(v: Option<Value>) {
    v.None? || Accepts(ListNode, v.value)
  }

  /** The strings of a list key, in order and without a mapping's keys; [] when it is absent. */
  function StringsOf(v: Option<Value>): (r: seq<string>)
    requires StringList(v)
    ensures v.Some? ==> |r| == |ArrayValues(v.value)| && forall i :: 0 <= i < |r| ==> ArrayValues(v.value)[i] == Str(r[i])
    ensures v.None? ==> r == []
  {
    if v.None? then []
    else
      var items := ArrayValues(v.value);
      seq(|items|, i requires 0 <= i < |items| => items[i].s)
  }

  /** Every written key is a child of the worker node, with a value of that child's type. */
  predicate KeysWellTyped(e: seq<(string, Value)>) {
    forall i :: 0 <= i < |e| ==> WellTyped(WorkerChildren, e[i])
  }

  /** `exceptionInterceptor`: left out, or a non-empty string. */
  predicate InterceptorValid(v: Option<Value>) {
    v.None? || NonEmptyString(v)
  }

  /** A `finalizers` or `interceptors` list: left out, or strings with no value twice. */
  predicate ListValid(v: Option<Value>) {
    StringList(v) && !Php.Repeated(StringsOf(v))
  }

  predicate IntervalsValid(e: seq<(string, Value)>, parse: string -> IntervalParse) {
    forall k :: k in IntervalKeys && Lookup(e, k).Some? ==> !IntervalValueRejected(Lookup(e, k).value, parse)
  }

  predicate WorkerRulesHold(raw: RawWorker, parse: string -> IntervalParse) {
    && KeysWellTyped(raw.entries)
    && NonEmptyString(Lookup(raw.entries, "taskQueue"))
    && InterceptorValid(Lookup(raw.entries, "exceptionInterceptor"))
    && ListValid(Lookup(raw.entries, "finalizers"))
    && ListValid(Lookup(raw.entries, "interceptors"))
    && IntervalsValid(raw.entries, parse)
  }

  /** The repeated-entry validator of a list key, which runs when the node is finalized. */
  function ListError(v: Option<Value>, repeated: ConfigError): (r: Option<ConfigError>)
    requires StringList(v)
    ensures r.None? <==> ListValid(v)
    ensures r.Some? ==> r == Some(repeated) && Php.HasEqualPair(StringsOf(v))
  {
    if Php.Repeated(StringsOf(v)) then
      Php.RepeatedIffEqualPair(StringsOf(v));
      Some(repeated)
    else None
  }

  /** Each child of the worker node is what its key finds. */
  lemma WorkerChildOf(j: nat)
    requires j < |WorkerChildren|
    ensures ChildOf(WorkerChildren, WorkerChildren[j].key) == Some(WorkerChildren[j])
  {
    WorkerChildrenDistinct();
    ChildOfAt(WorkerChildren, j);
  }

  /** Once every written key is well typed, both list keys are absent or arrays of strings. */
  lemma WellTypedLists(e: seq<(string, Value)>)
    requires KeysWellTyped(e)
    ensures StringList(Lookup(e, "finalizers")) && StringList(Lookup(e, "interceptors"))
  {
    WorkerChildOf(4);
    WorkerChildOf(5);
  }

  /**
   * The first rule of the worker node the entry breaks, if any. Normalizing
   * comes first: a declared key with a value of the wrong type throws as the
   * loop reaches it, and an undeclared key only once the loop is done.
   * Finalizing follows, child by child in tree order: the required
   * `taskQueue`, then the non-empty `exceptionInterceptor`, then the two
   * repeated-entry validators, then the interval validators.
   */
  function WorkerError(raw: RawWorker, parse: string -> IntervalParse): (r: Option<ConfigError>)
    ensures r.None? <==> WorkerRulesHold(raw, parse)
    ensures (r.Some? && r.value.InvalidType?) <==> exists i :: 0 <= i < |raw.entries| && WrongType(WorkerChildren, raw.entries[i])
    ensures r.Some? && r.value.InvalidType? ==>
      exists i :: (0 <= i < |raw.entries| && raw.entries[i].0 == r.value.key && WrongType(WorkerChildren, raw.entries[i])
        && forall j :: 0 <= j < i ==> !WrongType(WorkerChildren, raw.entries[j]))
    ensures r.Some? && r.value.UnrecognizedOption? ==>
      && (forall i :: 0 <= i < |raw.entries| ==> !WrongType(WorkerChildren, raw.entries[i]))
      && ChildOf(WorkerChildren, r.value.key).None?
      && exists i :: (0 <= i < |raw.entries| && raw.entries[i].0 == r.value.key
        && forall j :: 0 <= j < i ==> ChildOf(WorkerChildren, raw.entries[j].0).Some?)
    ensures r.Some? && !r.value.InvalidType? && !r.value.UnrecognizedOption? ==> KeysWellTyped(raw.entries)
    ensures r == Some(RepeatedFinalizer) ==>
      StringList(Lookup(raw.entries, "finalizers")) && Php.HasEqualPair(StringsOf(Lookup(raw.entries, "finalizers")))
    ensures r == Some(RepeatedInterceptor) ==>
      StringList(Lookup(raw.entries, "interceptors")) && Php.HasEqualPair(StringsOf(Lookup(raw.entries, "interceptors")))
  {
    var e := raw.entries;
    var wrongType := FirstWrongType(WorkerChildren, e);
    var undeclared := FirstUndeclared(WorkerChildren, e);
    if wrongType.Some? then Some(InvalidType(wrongType.value))
    else if undeclared.Some? then Some(UnrecognizedOption(undeclared.value))
    else
      assert KeysWellTyped(e) by {
        forall i | 0 <= i < |e| ensures WellTyped(WorkerChildren, e[i]) {
          assert !WrongType(WorkerChildren, e[i]);
        }
      }
      FinalizeError(e, parse)
  }

  /**
   * The first finalize-time rule a normalized worker breaks, child by child
   * in tree order: the required `taskQueue`, the non-empty
   * `exceptionInterceptor`, the two repeated-entry validators, then the
   * interval validators.
   */
  function FinalizeError(e: seq<(string, Value)>, parse: string -> IntervalParse): (r: Option<ConfigError>)
    requires KeysWellTyped(e)
    ensures StringList(Lookup(e, "finalizers")) && StringList(Lookup(e, "interceptors"))
    ensures r.None? <==>
      && NonEmptyString(Lookup(e, "taskQueue"))
      && InterceptorValid(Lookup(e, "exceptionInterceptor"))
      && ListValid(Lookup(e, "finalizers"))
      && ListValid(Lookup(e, "interceptors"))
      && IntervalsValid(e, parse)
    ensures r.Some? ==> !r.value.InvalidType? && !r.value.UnrecognizedOption?
    ensures r == Some(RepeatedFinalizer) ==> Php.HasEqualPair(StringsOf(Lookup(e, "finalizers")))
    ensures r == Some(RepeatedInterceptor) ==> Php.HasEqualPair(StringsOf(Lookup(e, "interceptors")))
  {
    WellTypedLists(e);
    var finalizers := ListError(Lookup(e, "finalizers"), RepeatedFinalizer);
    var interceptors := ListError(Lookup(e, "interceptors"), RepeatedInterceptor);
    var bad := FirstBadInterval(IntervalKeys, e, parse);
    if !NonEmptyString(Lookup(e, "taskQueue")) then Some(MissingTaskQueue)
    else if !InterceptorValid(Lookup(e, "exceptionInterceptor")) then Some(EmptyExceptionInterceptor)
    else if finalizers.Some? then finalizers
    else if interceptors.Some? then interceptors
    else if bad.Some? then Some(BadInterval(bad.value))
    else None
  }

  /**
   * One `workers.<name>` entry through the tree: every key declared and of
   * its node's type, `taskQueue` required and non-empty,
   * `exceptionInterceptor` defaulted and non-empty, both lists defaulted to []
   * and free of repeats, interval values parsable. The resolved array is the
   * written one followed by the defaults of the keys left out.
   */
  function ResolveWorker(raw: RawWorker, parse: string -> IntervalParse): (r: Resolved<Worker>)
    ensures r.Ok? <==> WorkerRulesHold(raw, parse)
    ensures r.Invalid? ==> Some(r.error) == WorkerError(raw, parse)
    ensures r.Ok? ==>
      && Lookup(raw.entries, "taskQueue") == Some(Str(r.value.taskQueue))
      && (Lookup(raw.entries, "exceptionInterceptor").Some? ==>
            Lookup(raw.entries, "exceptionInterceptor") == Some(Str(r.value.exceptionInterceptor)))
      && (Lookup(raw.entries, "exceptionInterceptor").None? ==> r.value.exceptionInterceptor == DefaultExceptionInterceptor)
      && r.value.finalizers == StringsOf(Lookup(raw.entries, "finalizers"))
      && r.value.interceptors == StringsOf(Lookup(raw.entries, "interceptors"))
      && r.value.entries == raw.entries + MissingDefaults(WorkerChildren, raw.entries)
  {
    var e := raw.entries;
    var err := WorkerError(raw, parse);
    if err.Some? then Invalid(err.value)
    else
      var interceptor := Lookup(e, "exceptionInterceptor");
      Ok(Worker(
        Lookup(e, "taskQueue").value.s,
        if interceptor.Some? then interceptor.value.s else DefaultExceptionInterceptor,
        StringsOf(Lookup(e, "finalizers")),
        StringsOf(Lookup(e, "interceptors")),
        e + MissingDefaults(WorkerChildren, e)))
  }

  /**
   * Completing a written array whose keys are distinct children of the node:
   * every key once, every key declared, and under each key the written value
   * or else the node's default.
   */
  lemma WithDefaults(children: seq<Child>, w: seq<(string, Value)>)
    requires DistinctKeys(children) && DistinctNames(w)
    requires forall i :: 0 <= i < |w| ==> ChildOf(children, w[i].0).Some?
    ensures var e := w + MissingDefaults(children, w);
      && DistinctNames(e)
      && (forall i :: 0 <= i < |e| ==> ChildOf(children, e[i].0).Some?)
      && (forall k :: Lookup(e, k) == if HasKey(w, k) then Lookup(w, k) else DefaultOf(children, k))
  {
    var m := MissingDefaults(children, w);
    var e := w + m;
    MissingDefaultsSpec(children, w);
    MissingDefaultsDistinct(children, w);
    DistinctAppend(w, m);
    forall i | 0 <= i < |e| ensures ChildOf(children, e[i].0).Some? {
      if i < |w| {
        assert e[i] == w[i];
      } else {
        assert e[i] == m[i - |w|];
        var j :| 0 <= j < |children| && children[j].key == m[i - |w|].0;
        ChildOfFound(children, e[i].0);
      }
    }
    forall k ensures Lookup(e, k) == if HasKey(w, k) then Lookup(w, k) else DefaultOf(children, k) {
      LookupAppend(w, m, k);
      if !HasKey(w, k) {
        ChildOfFound(children, k);
        var c := ChildOf(children, k);
        if c.Some? && c.value.default.Some? {
          var j :| 0 <= j < |children| && children[j] == c.value;
          var p :| 0 <= p < |m| && m[p] == (k, c.value.default.value);
          LookupDistinct(m, p);
        } else {
          forall p | 0 <= p < |m| ensures m[p].0 != k {
            var j :| 0 <= j < |children| && children[j].key == m[p].0 && children[j].default == Some(m[p].1);
            ChildOfAt(children, j);
          }
        }
      }
    }
  }

  /** Two arrays with distinct names, no name of the second in the first: their concatenation has distinct names. */
  lemma DistinctAppend(a: seq<(string, Value)>, b: seq<(string, Value)>)
    requires DistinctNames(a) && DistinctNames(b)
    requires forall p :: 0 <= p < |b| ==> !HasKey(a, b[p].0)
    ensures DistinctNames(a + b)
  {
    var e := a + b;
    forall i, j | 0 <= i < j < |e| ensures e[i].0 != e[j].0 {
      if j < |a| {
        assert e[i] == a[i] && e[j] == a[j];
      } else if i < |a| {
        assert e[i] == a[i] && e[j] == b[j - |a|];
        assert !HasKey(a, b[j - |a|].0);
      } else {
        assert e[i] == b[i - |a|] && e[j] == b[j - |a|];
      }
    }
  }

  /**
   * The resolved worker array: the written entries first, in written order,
   * then the defaulted keys; every key once, every key declared by the tree,
   * and under each key the written value or else the tree's default.
   */
  lemma ResolvedEntries(raw: RawWorker, parse: string -> IntervalParse)
    requires DistinctNames(raw.entries) && WorkerRulesHold(raw, parse)
    ensures var e := ResolveWorker(raw, parse).value.entries;
      && e[..|raw.entries|] == raw.entries
      && DistinctNames(e)
      && (forall i :: 0 <= i < |e| ==> ChildOf(WorkerChildren, e[i].0).Some?)
      && (forall k :: Lookup(e, k) == if HasKey(raw.entries, k) then Lookup(raw.entries, k) else DefaultOf(WorkerChildren, k))
  {
    var w := raw.entries;
    assert ResolveWorker(raw, parse).value.entries == w + MissingDefaults(WorkerChildren, w);
    assert (w + MissingDefaults(WorkerChildren, w))[..|w|] == w;
    WorkerChildrenDistinct();
    assert forall i :: 0 <= i < |w| ==> WellTyped(WorkerChildren, w[i]);
    WithDefaults(WorkerChildren, w);
  }

  /**
   * A worker that writes only its task queue gets every other key of the tree
   * with its default: 0 for the concurrency and rate keys,
   * `enableSessionWorker` false, `sessionResourceId` null,
   * `maxConcurrentSessionExecutionSize` 1000, null intervals,
   * `temporal.exception_interceptor` and no finalizers or interceptors.
   */
  lemma WorkerDefaults(queue: string, parse: string -> IntervalParse)
    requires queue != ""
    ensures var r := ResolveWorker(RawWorker([("taskQueue", Str(queue))]), parse);
      && r.Ok?
      && r.value.taskQueue == queue
      && r.value.exceptionInterceptor == DefaultExceptionInterceptor
      && r.value.finalizers == [] && r.value.interceptors == []
      && r.value.entries[0] == ("taskQueue", Str(queue))
      && (forall j :: 0 <= j < |WorkerChildren| && WorkerChildren[j].key != "taskQueue" ==>
            Lookup(r.value.entries, WorkerChildren[j].key) == WorkerChildren[j].default)
      && Lookup(r.value.entries, "maxConcurrentSessionExecutionSize") == Some(Int(1000))
      && Lookup(r.value.entries, "enableSessionWorker") == Some(Bool(false))
  {
    QueueOnlyResolved(queue, parse);
    forall j | 0 <= j < |WorkerChildren| && WorkerChildren[j].key != "taskQueue"
      ensures Lookup(ResolveWorker(RawWorker([("taskQueue", Str(queue))]), parse).value.entries, WorkerChildren[j].key)
        == WorkerChildren[j].default
    {
      UnwrittenDefault(queue, parse, j);
    }
    SessionDefaults(queue, parse);
  }

  /** The resolved fields of a worker that writes only its task queue. */
  lemma QueueOnlyResolved(queue: string, parse: string -> IntervalParse)
    requires queue != ""
    ensures var r := ResolveWorker(RawWorker([("taskQueue", Str(queue))]), parse);
      && r.Ok?
      && r.value.taskQueue == queue
      && r.value.exceptionInterceptor == DefaultExceptionInterceptor
      && r.value.finalizers == [] && r.value.interceptors == []
      && r.value.entries[0] == ("taskQueue", Str(queue))
  {
    var w := [("taskQueue", Str(queue))];
    QueueOnlyAccepted(queue, parse);
    assert Lookup(w, "exceptionInterceptor") == None;
    assert Lookup(w, "finalizers") == None && Lookup(w, "interceptors") == None;
  }

  /** The two session keys of a worker that writes only its task queue hold their defaults. */
  lemma SessionDefaults(queue: string, parse: string -> IntervalParse)
    requires queue != ""
    ensures var r := ResolveWorker(RawWorker([("taskQueue", Str(queue))]), parse);
      && r.Ok?
      && Lookup(r.value.entries, "maxConcurrentSessionExecutionSize") == Some(Int(1000))
      && Lookup(r.value.entries, "enableSessionWorker") == Some(Bool(false))
  {
    UnwrittenDefault(queue, parse, 14);
    assert WorkerChildren[14] == Child("maxConcurrentSessionExecutionSize", IntegerNode, Some(Int(1000)));
    UnwrittenDefault(queue, parse, 12);
    assert WorkerChildren[12] == Child("enableSessionWorker", BooleanNode, Some(Bool(false)));
  }

  /** A worker writing only its task queue finds, under any other key of the tree, that key's default. */
  lemma UnwrittenDefault(queue: string, parse: string -> IntervalParse, j: nat)
    requires queue != "" && j < |WorkerChildren| && WorkerChildren[j].key != "taskQueue"
    ensures var r := ResolveWorker(RawWorker([("taskQueue", Str(queue))]), parse);
      && r.Ok?
      && Lookup(r.value.entries, WorkerChildren[j].key) == WorkerChildren[j].default
  {
    var w := [("taskQueue", Str(queue))];
    QueueOnlyAccepted(queue, parse);
    ResolvedEntries(RawWorker(w), parse);
    WorkerChildrenDistinct();
    DefaultsOfUnwritten(WorkerChildren, w);
  }

  /** A worker writing a non-empty task queue and nothing else passes every rule. */
  lemma QueueOnlyAccepted(queue: string, parse: string -> IntervalParse)
    requires queue != ""
    ensures WorkerRulesHold(RawWorker([("taskQueue", Str(queue))]), parse)
  {
    var w := [("taskQueue", Str(queue))];
    WorkerChildrenDistinct();
    ChildOfAt(WorkerChildren, 2);
    assert WorkerChildren[2].key == "taskQueue";
    assert WellTyped(WorkerChildren, w[0]);
    forall k | k != "taskQueue" ensures Lookup(w, k) == None {
    }
  }

  /**
   * `finalizers` written as a mapping is accepted like a list: the resolved
   * finalizers are its values, in order, and its keys are not kept.
   */
  lemma MappingFinalizersAccepted(queue: string, name: string, id: string, parse: string -> IntervalParse)
    requires queue != ""
    ensures var r := ResolveWorker(RawWorker([("taskQueue", Str(queue)), ("finalizers", Dict([(name, Str(id))]))]), parse);
      r.Ok? && r.value.finalizers == [id] && r.value.interceptors == []
  {
    var w := [("taskQueue", Str(queue)), ("finalizers", Dict([(name, Str(id))]))];
    MappingFinalizersRules(queue, name, id, parse);
    assert Lookup(w, "finalizers") == Some(Dict([(name, Str(id))]));
    assert Lookup(w, "interceptors") == None;
    assert StringsOf(Lookup(w, "finalizers")) == [id];
  }

  /** The worker of `MappingFinalizersAccepted` passes every rule of the node. */
  lemma MappingFinalizersRules(queue: string, name: string, id: string, parse: string -> IntervalParse)
    requires queue != ""
    ensures WorkerRulesHold(RawWorker([("taskQueue", Str(queue)), ("finalizers", Dict([(name, Str(id))]))]), parse)
  {
    var w := [("taskQueue", Str(queue)), ("finalizers", Dict([(name, Str(id))]))];
    MappingWorkerTyped(queue, name, id);
    MappingWorkerLookups(queue, name, id);
    assert ListValid(Lookup(w, "finalizers")) by {
      assert StringsOf(Lookup(w, "finalizers")) == [id];
      Php.RepeatedIffEqualPair([id]);
    }
  }

  /** Both keys of the worker of `MappingFinalizersAccepted` are declared and well typed. */
  lemma MappingWorkerTyped(queue: string, name: string, id: string)
    ensures KeysWellTyped([("taskQueue", Str(queue)), ("finalizers", Dict([(name, Str(id))]))])
  {
    WorkerChildOf(2);
    WorkerChildOf(4);
  }

  /** What each key looks up in the worker of `MappingFinalizersAccepted`. */
  lemma MappingWorkerLookups(queue: string, name: string, id: string)
    ensures var w := [("taskQueue", Str(queue)), ("finalizers", Dict([(name, Str(id))]))];
      forall k :: Lookup(w, k) ==
        if k == "taskQueue" then Some(Str(queue))
        else if k == "finalizers" then Some(Dict([(name, Str(id))]))
        else None
  {
  }

  /**
   * A declared key of the wrong type wins over an undeclared key written
   * before it: the type error is thrown inside the normalize loop, the
   * unrecognized-option error only after it.
   */
  lemma TypeErrorBeforeUnrecognized(parse: string -> IntervalParse)
    ensures WorkerError(RawWorker([("bogus", Str("x")), ("maxConcurrentLocalActivityExecutionSize", Str("y")), ("taskQueue", Str("q"))]), parse)
      == Some(InvalidType("maxConcurrentLocalActivityExecutionSize"))
  {
    var w := [("bogus", Str("x")), ("maxConcurrentLocalActivityExecutionSize", Str("y")), ("taskQueue", Str("q"))];
    BogusAndStringTyped();
    assert w[1..][0] == w[1];
    assert FirstWrongType(WorkerChildren, w[1..]) == Some("maxConcurrentLocalActivityExecutionSize");
    assert FirstWrongType(WorkerChildren, w) == Some("maxConcurrentLocalActivityExecutionSize");
  }

  /** `bogus` is undeclared, so not ill typed; a string under an integer node is. */
  lemma BogusAndStringTyped()
    ensures !WrongType(WorkerChildren, ("bogus", Str("x")))
    ensures WrongType(WorkerChildren, ("maxConcurrentLocalActivityExecutionSize", Str("y")))
  {
    WorkerChildOf(6);
    ChildOfFound(WorkerChildren, "bogus");
  }

  /** Over distinct children, each unwritten child finds its own default in the completed array. */
  lemma DefaultsOfUnwritten(children: seq<Child>, w: seq<(string, Value)>)
    requires DistinctKeys(children) && DistinctNames(w)
    requires forall i :: 0 <= i < |w| ==> ChildOf(children, w[i].0).Some?
    ensures forall j :: 0 <= j < |children| && !HasKey(w, children[j].key) ==>
      Lookup(w + MissingDefaults(children, w), children[j].key) == children[j].default
  {
    WithDefaults(children, w);
    forall j | 0 <= j < |children| && !HasKey(w, children[j].key)
      ensures Lookup(w + MissingDefaults(children, w), children[j].key) == children[j].default
    {
      ChildOfAt(children, j);
    }
  }

  /**
   * A client or schedule-client entry as written; `unrecognized` lists the
   * written keys `addClient` does not declare.
   */
  datatype RawClient = RawClient(
    unrecognized: seq<string>,
    namespace: Option<string>,
    address: Option<string>,
    identity: Option<Value>,
    dataConverter: Option<string>,
    clientKey: Option<string>,
    clientPem: Option<string>,
    queryRejectionCondition: Option<Value>,
    interceptors: Option<seq<string>>,
    timeoutValue: Option<int>,
    timeoutFormat: Option<string>,
    initialInterval: Option<Value>,
    maximumInterval: Option<Value>)

  predicate ClientRulesHold(raw: RawClient, parse: string -> IntervalParse) {
    && raw.unrecognized == []
    && (raw.identity.Some? ==> Accepts(ScalarNode, raw.identity.value))
    && raw.namespace.Some? && raw.namespace.value != ""
    && raw.address != Some("")
    && raw.dataConverter != Some("")
    && (raw.queryRejectionCondition.Some? ==> ValidQueryRejectionCondition(raw.queryRejectionCondition.value))
    && !Php.Repeated(raw.interceptors.GetOr([]))
    && (raw.timeoutFormat.Some? ==> ParseFormat(raw.timeoutFormat.value).Some?)
    && (raw.initialInterval.Some? ==> !IntervalValueRejected(raw.initialInterval.value, parse))
    && (raw.maximumInterval.Some? ==> !IntervalValueRejected(raw.maximumInterval.value, parse))
  }

  /**
   * One client entry through `addClient`: a scalar `identity` (checked while
   * the entry is normalized), no undeclared key (reported once the entry has
   * been normalized), `namespace` required and
   * non-empty, `address` defaulted to the TEMPORAL_ADDRESS environment value,
   * `dataConverter` defaulted to `temporal.data_converter`, the query
   * rejection condition one of the four values, interceptors free of repeats,
   * the timeout defaulted to 5 seconds with a valid unit, retry intervals
   * the validator accepts.
   */
  function ResolveClient(raw: RawClient, envAddress: string, parse: string -> IntervalParse): (r: Resolved<Client>)
    ensures r.Ok? <==> ClientRulesHold(raw, parse)
    ensures raw.identity.Some? && !Accepts(ScalarNode, raw.identity.value) ==> r == Invalid(InvalidType("identity"))
    ensures r.Invalid? && r.error.UnrecognizedOption? ==>
      r.error.key in raw.unrecognized && (raw.identity.Some? ==> Accepts(ScalarNode, raw.identity.value))
    ensures r.Ok? ==> r.value == Client(
      raw.namespace.value,
      raw.address.GetOr(envAddress),
      raw.identity,
      raw.dataConverter.GetOr(DefaultDataConverter),
      raw.clientKey, raw.clientPem,
      raw.queryRejectionCondition,
      raw.interceptors.GetOr([]),
      Timeout(raw.timeoutValue.GetOr(5),
              if raw.timeoutFormat.Some? then ParseFormat(raw.timeoutFormat.value).value else Seconds))
  {
    if raw.identity.Some? && !Accepts(ScalarNode, raw.identity.value) then Invalid(InvalidType("identity"))
    else if raw.unrecognized != [] then Invalid(UnrecognizedOption(raw.unrecognized[0]))
    else if raw.namespace.None? || raw.namespace.value == "" then Invalid(MissingNamespace)
    else if raw.address == Some("") then Invalid(EmptyAddress)
    else if raw.dataConverter == Some("") then Invalid(EmptyDataConverter)
    else if raw.queryRejectionCondition.Some? && !ValidQueryRejectionCondition(raw.queryRejectionCondition.value)
    then Invalid(BadQueryRejectionCondition)
    else if Php.Repeated(raw.interceptors.GetOr([])) then Invalid(RepeatedInterceptor)
    else if raw.timeoutFormat.Some? && ParseFormat(raw.timeoutFormat.value).None? then Invalid(BadTimeoutFormat)
    else if raw.initialInterval.Some? && IntervalValueRejected(raw.initialInterval.value, parse)
    then Invalid(BadInterval("initialInterval"))
    else if raw.maximumInterval.Some? && IntervalValueRejected(raw.maximumInterval.value, parse)
    then Invalid(BadInterval("maximumInterval"))
    else
      var format := if raw.timeoutFormat.Some? then ParseFormat(raw.timeoutFormat.value).value else Seconds;
      Ok(Client(
        raw.namespace.value,
        raw.address.GetOr(envAddress),
        raw.identity,
        raw.dataConverter.GetOr(DefaultDataConverter),
        raw.clientKey, raw.clientPem,
        raw.queryRejectionCondition,
        raw.interceptors.GetOr([]),
        Timeout(raw.timeoutValue.GetOr(5), format)))
  }

  /**
   * The default value of `clients` and `scheduleClients`: one `default`
   * entry in namespace `default`. A default value bypasses the prototype, so
   * the optional keys (identity, keys, query rejection condition) are absent.
   */
  function DefaultClients(envAddress: string): seq<(string, Client)> {
    [(DefaultName, Client(DefaultName, envAddress, None, DefaultDataConverter, None, None, None, [], DefaultTimeout))]
  }

  /** Resolves named entries in order; the first invalid entry invalidates the whole tree. */
  function ResolveClients(raw: seq<(string, RawClient)>, envAddress: string, parse: string -> IntervalParse)
    : (r: Resolved<seq<(string, Client)>>)
    ensures r.Ok? <==> forall i :: 0 <= i < |raw| ==> ClientRulesHold(raw[i].1, parse)
    ensures r.Ok? ==> |r.value| == |raw| && forall i :: 0 <= i < |raw| ==>
      r.value[i] == (raw[i].0, ResolveClient(raw[i].1, envAddress, parse).value)
  {
    if raw == [] then Ok([])
    else
      match ResolveClient(raw[0].1, envAddress, parse)
      case Invalid(e) => Invalid(e)
      case Ok(c) =>
        match ResolveClients(raw[1..], envAddress, parse)
        case Invalid(e) => Invalid(e)
        case Ok(rest) =>
          assert forall i :: 1 <= i < |raw| ==> raw[i] == raw[1..][i - 1];
          Ok([(raw[0].0, c)] + rest)
  }

  function ResolveWorkers(raw: seq<(string, RawWorker)>, parse: string -> IntervalParse)
    : (r: Resolved<seq<(string, Worker)>>)
    ensures r.Ok? <==> forall i :: 0 <= i < |raw| ==> WorkerRulesHold(raw[i].1, parse)
    ensures r.Ok? ==> |r.value| == |raw| && forall i :: 0 <= i < |raw| ==>
      r.value[i] == (raw[i].0, ResolveWorker(raw[i].1, parse).value)
  {
    if raw == [] then Ok([])
    else
      match ResolveWorker(raw[0].1, parse)
      case Invalid(e) => Invalid(e)
      case Ok(w) =>
        assert forall i :: 1 <= i < |raw| ==> raw[i] == raw[1..][i - 1];
        match ResolveWorkers(raw[1..], parse)
        case Invalid(e) => Invalid(e)
        case Ok(rest) => Ok([(raw[0].0, w)] + rest)
  }

  datatype RawConfig = RawConfig(
    defaultClient: Option<string>,
    defaultScheduleClient: Option<string>,
    workerFactory: Option<string>,
    pool: Option<Pool>,
    clients: Option<seq<(string, RawClient)>>,
    scheduleClients: Option<seq<(string, RawClient)>>,
    workers: seq<(string, RawWorker)>)

  /** The clients of the tree: the default entry when the key is absent, else every entry resolved. */
  function ClientsOf(raw: Option<seq<(string, RawClient)>>, envAddress: string, parse: string -> IntervalParse)
    : Resolved<seq<(string, Client)>>
  {
    if raw.None? then Ok(DefaultClients(envAddress)) else ResolveClients(raw.value, envAddress, parse)
  }

  predicate ClientsValid(raw: Option<seq<(string, RawClient)>>, parse: string -> IntervalParse) {
    raw.Some? ==> forall i :: 0 <= i < |raw.value| ==> ClientRulesHold(raw.value[i].1, parse)
  }

  /**
   * The whole tree. `implementsFactory` stands for `class_implements($v)`
   * containing WorkerFactoryInterface; Symfony validates a written
   * `workerFactory` only, not the default it fills in. A failure anywhere
   * rejects the whole configuration, so no pass ever sees a partial one.
   */
  function ResolveConfig(raw: RawConfig, envAddress: string, parse: string -> IntervalParse,
                         implementsFactory: string -> bool): (r: Resolved<Config>)
    ensures r.Ok? <==>
      && (raw.workerFactory.Some? ==> implementsFactory(raw.workerFactory.value))
      && PoolValid(raw.pool)
      && ClientsValid(raw.clients, parse)
      && ClientsValid(raw.scheduleClients, parse)
      && (forall i :: 0 <= i < |raw.workers| ==> WorkerRulesHold(raw.workers[i].1, parse))
    ensures r.Ok? ==>
      && r.value.defaultClient == raw.defaultClient.GetOr(DefaultName)
      && r.value.defaultScheduleClient == raw.defaultScheduleClient.GetOr(DefaultName)
      && r.value.workerFactory == raw.workerFactory.GetOr(DefaultWorkerFactory)
      && r.value.pool == raw.pool.GetOr(NoPool)
      && r.value.clients == ClientsOf(raw.clients, envAddress, parse).value
      && r.value.scheduleClients == ClientsOf(raw.scheduleClients, envAddress, parse).value
      && r.value.workers == ResolveWorkers(raw.workers, parse).value
  {
    if raw.workerFactory.Some? && !implementsFactory(raw.workerFactory.value) then Invalid(BadWorkerFactory)
    else if !PoolValid(raw.pool) then Invalid(EmptyPoolSetting)
    else
      match ClientsOf(raw.clients, envAddress, parse)
      case Invalid(e) => Invalid(e)
      case Ok(clients) =>
        match ClientsOf(raw.scheduleClients, envAddress, parse)
        case Invalid(e) => Invalid(e)
        case Ok(scheduleClients) =>
          match ResolveWorkers(raw.workers, parse)
          case Invalid(e) => Invalid(e)
          case Ok(workers) =>
            Ok(Config(raw.defaultClient.GetOr(DefaultName), raw.defaultScheduleClient.GetOr(DefaultName),
                      raw.workerFactory.GetOr(DefaultWorkerFactory), raw.pool.GetOr(NoPool), clients, scheduleClients, workers))
  }

  /**
   * Symfony does not require `pool`: removing it from an accepted tree keeps
   * the tree accepted, and both pool settings then read as absent.
   */
  lemma MissingPoolAccepted(raw: RawConfig, envAddress: string, parse: string -> IntervalParse,
                            implementsFactory: string -> bool)
    requires ResolveConfig(raw, envAddress, parse, implementsFactory).Ok?
    ensures var r := ResolveConfig(raw.(pool := None), envAddress, parse, implementsFactory);
      r.Ok? && r.value.pool == NoPool
      && r.value.pool.dataConverter.None? && r.value.pool.roadrunnerRPC.None?
  {
  }
}
