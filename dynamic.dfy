/**
 * The dynamic-tool glue as pure functions: the defaults and required-check
 * of a task tool's handler, the routing to an executor, the placeholder and
 * quote rewriting of the database executor, and the input schemas and
 * descriptions of task and workflow tools.
 */
module Dynamic {
  import opened Json
  import Strings
  import opened Config
  import Protocol
  import Workflow

  // ---------------------------------------------------------------- registration

  /** Entries written into `m` one after another, each under its key, so a later entry replaces an earlier one. */
  function Register<T, V>(m: map<string, V>, xs: seq<T>, key: T -> string, val: T -> V): map<string, V>
    decreases |xs|
  {
    if xs == [] then m
    else Register(m, xs[..|xs| - 1], key, val)[key(xs[|xs| - 1]) := val(xs[|xs| - 1])]
  }

  /** Some element of `xs` has key `x`. */
  predicate Keyed<T>(xs: seq<T>, key: T -> string, x: string)
  {
    exists i :: 0 <= i < |xs| && key(xs[i]) == x
  }

  /** Registration holds every key it was given, each with the value of the last element under it. */
  lemma {:induction false} RegisterSpec<T, V>(m: map<string, V>, xs: seq<T>, key: T -> string, val: T -> V, x: string)
    ensures var r := Register(m, xs, key, val);
      && (x in r <==> x in m || Keyed(xs, key, x))
      && (!Keyed(xs, key, x) && x in m ==> r[x] == m[x])
      && (Keyed(xs, key, x) ==>
            exists i :: 0 <= i < |xs| && key(xs[i]) == x && r[x] == val(xs[i])
                        && forall j :: i < j < |xs| ==> key(xs[j]) != x)
    decreases |xs|
  {
    if xs != [] {
      var n := |xs| - 1;
      var init := xs[..n];
      RegisterSpec(m, init, key, val, x);
      var r := Register(m, xs, key, val);
      if key(xs[n]) == x {
        assert r[x] == val(xs[n]);
      } else {
        KeyedSnoc(xs, key, x);
        if Keyed(init, key, x) {
          var i :| 0 <= i < n && key(init[i]) == x && Register(m, init, key, val)[x] == val(init[i])
                   && forall j :: i < j < n ==> key(init[j]) != x;
          assert xs[i] == init[i];
          assert forall j :: i < j < |xs| ==> key(xs[j]) != x by {
            forall j | i < j < |xs|
              ensures key(xs[j]) != x
            {
              if j < n {
                assert xs[j] == init[j];
              }
            }
          }
        }
      }
    }
  }

  lemma KeyedSnoc<T>(xs: seq<T>, key: T -> string, x: string)
    requires xs != []
    ensures Keyed(xs, key, x) <==> Keyed(xs[..|xs| - 1], key, x) || key(xs[|xs| - 1]) == x
  {
    var init := xs[..|xs| - 1];
    if Keyed(xs, key, x) {
      var i :| 0 <= i < |xs| && key(xs[i]) == x;
      if i < |init| {
        assert init[i] == xs[i];
      }
    }
    if Keyed(init, key, x) {
      var i :| 0 <= i < |init| && key(init[i]) == x;
      assert xs[i] == init[i];
    }
  }

  // ---------------------------------------------------------------- defaults

  /** How the defaults loop of a task handler ends. */
  datatype Defaults =
    | Ready(params: Json)      // every parameter checked; `params` as completed
    | Missing(name: string)    // a required parameter without a default is absent
    | Raised(error: Exception) // writing a default into a non-object threw

  /** A parameter the caller must supply: required, and without a default to fall back on. */
  predicate Demanded(p: TaskParameter)
  {
    p.required && p.defaultValue.JNull?
  }

  /**
   * The defaults loop of the `create_task_tool` handler: a parameter the
   * arguments lack receives its non-null default; a missing demanded one
   * stops the loop; a missing optional one stays absent.
   */
  function ApplyDefaults(params: Json, parameters: seq<TaskParameter>): Defaults
    decreases |parameters|
  {
    if parameters == [] then Ready(params)
    else
      var p := parameters[0];
      if Contains(params, p.name) then ApplyDefaults(params, parameters[1..])
      else if !p.defaultValue.JNull? then
        match Set(params, p.name, p.defaultValue)
        case Throws(x) => Raised(x)
        case Ok(q) => ApplyDefaults(q, parameters[1..])
      else if p.required then Missing(p.name)
      else ApplyDefaults(params, parameters[1..])
  }

  /** The non-null default of the first parameter named `x` that has one. */
  function FirstDefault(parameters: seq<TaskParameter>, x: string): Option<Json>
    decreases |parameters|
  {
    if parameters == [] then None
    else if parameters[0].name == x && !parameters[0].defaultValue.JNull? then Some(parameters[0].defaultValue)
    else FirstDefault(parameters[1..], x)
  }

  /**
   * A completed parameter object keeps every argument as given; a name the
   * arguments lack is present exactly when some parameter of that name has a
   * default, and then holds the first such default.
   */
  lemma {:induction false} ReadyFills(params: Json, parameters: seq<TaskParameter>, x: string)
    requires ApplyDefaults(params, parameters).Ready?
    ensures var q := FieldsOf(ApplyDefaults(params, parameters).params);
      && (x in FieldsOf(params) ==> x in q && q[x] == FieldsOf(params)[x])
      && (x !in FieldsOf(params) ==> (x in q <==> FirstDefault(parameters, x).Some?))
      && (x !in FieldsOf(params) && FirstDefault(parameters, x).Some? ==> q[x] == FirstDefault(parameters, x).value)
    decreases |parameters|
  {
    if parameters != [] {
      var p := parameters[0];
      if Contains(params, p.name) {
        ReadyFills(params, parameters[1..], x);
      } else if !p.defaultValue.JNull? {
        var q := Set(params, p.name, p.defaultValue).value;
        assert FieldsOf(q) == FieldsOf(params)[p.name := p.defaultValue];
        ReadyFills(q, parameters[1..], x);
      } else {
        ReadyFills(params, parameters[1..], x);
      }
    }
  }

  /** A completed parameter object holds every demanded parameter. */
  lemma {:induction false} ReadyHasDemanded(params: Json, parameters: seq<TaskParameter>, i: int)
    requires ApplyDefaults(params, parameters).Ready?
    requires 0 <= i < |parameters| && Demanded(parameters[i])
    ensures parameters[i].name in FieldsOf(ApplyDefaults(params, parameters).params)
    decreases |parameters|
  {
    var p := parameters[0];
    var q := if !Contains(params, p.name) && !p.defaultValue.JNull? then Set(params, p.name, p.defaultValue).value
             else params;
    assert ApplyDefaults(params, parameters) == ApplyDefaults(q, parameters[1..]);
    if i == 0 {
      assert p.name in FieldsOf(q);
      ReadyFills(q, parameters[1..], p.name);
    } else {
      assert parameters[1..][i - 1] == parameters[i];
      ReadyHasDemanded(q, parameters[1..], i - 1);
    }
  }

  /** The loop stops on a name the arguments lack, and only on a demanded parameter's name. */
  lemma {:induction false} MissingIsDemanded(params: Json, parameters: seq<TaskParameter>)
    requires ApplyDefaults(params, parameters).Missing?
    ensures var n := ApplyDefaults(params, parameters).name;
      n !in FieldsOf(params) && exists i :: 0 <= i < |parameters| && parameters[i].name == n && Demanded(parameters[i])
    decreases |parameters|
  {
    var p := parameters[0];
    var n := ApplyDefaults(params, parameters).name;
    if Contains(params, p.name) {
      MissingIsDemanded(params, parameters[1..]);
      var i :| 0 <= i < |parameters[1..]| && parameters[1..][i].name == n && Demanded(parameters[1..][i]);
      assert parameters[i + 1] == parameters[1..][i];
    } else if !p.defaultValue.JNull? {
      var q := Set(params, p.name, p.defaultValue).value;
      assert FieldsOf(q) == FieldsOf(params)[p.name := p.defaultValue];
      MissingIsDemanded(q, parameters[1..]);
      var i :| 0 <= i < |parameters[1..]| && parameters[1..][i].name == n && Demanded(parameters[1..][i]);
      assert parameters[i + 1] == parameters[1..][i];
    } else if p.required {
      assert parameters[0].name == n && Demanded(parameters[0]);
    } else {
      MissingIsDemanded(params, parameters[1..]);
      var i :| 0 <= i < |parameters[1..]| && parameters[1..][i].name == n && Demanded(parameters[1..][i]);
      assert parameters[i + 1] == parameters[1..][i];
    }
  }

  /** Arguments that supply every demanded parameter never stop the loop. */
  lemma {:induction false} SuppliedNeverMissing(params: Json, parameters: seq<TaskParameter>)
    requires forall i :: 0 <= i < |parameters| && Demanded(parameters[i]) ==> parameters[i].name in FieldsOf(params)
    ensures !ApplyDefaults(params, parameters).Missing?
    decreases |parameters|
  {
    if parameters != [] {
      var p := parameters[0];
      var rest := parameters[1..];
      assert forall i :: 0 <= i < |rest| ==> rest[i] == parameters[i + 1];
      if Contains(params, p.name) {
        SuppliedNeverMissing(params, rest);
      } else if !p.defaultValue.JNull? {
        match Set(params, p.name, p.defaultValue)
        case Throws(_) =>
        case Ok(q) =>
          assert FieldsOf(q) == FieldsOf(params)[p.name := p.defaultValue];
          SuppliedNeverMissing(q, rest);
      } else {
        assert !Demanded(parameters[0]);
        SuppliedNeverMissing(params, rest);
      }
    }
  }

  /** Writing a default throws only into arguments that are neither an object nor null. */
  lemma {:induction false} RaisedOnlyForScalars(params: Json, parameters: seq<TaskParameter>)
    requires ApplyDefaults(params, parameters).Raised?
    ensures !params.JObject? && !params.JNull?
    ensures ApplyDefaults(params, parameters).error.JsonError?
    decreases |parameters|
  {
    var p := parameters[0];
    if Contains(params, p.name) {
      RaisedOnlyForScalars(params, parameters[1..]);
    } else if !p.defaultValue.JNull? {
      if !Set(params, p.name, p.defaultValue).Throws? {
        var q := Set(params, p.name, p.defaultValue).value;
        assert q.JObject?;
        RaisedOnlyForScalars(q, parameters[1..]);
      }
    } else {
      RaisedOnlyForScalars(params, parameters[1..]);
    }
  }

  // ---------------------------------------------------------------- executors

  /** The operation types the generator has an executor for. */
  const KnownOperations: set<string> := {"database", "rest_api", "terminal", "file_operation", "data_processing"}

  /**
   * The executors other than the database one (REST calls, shell commands,
   * file and data operations), given the operation type, the task's `config`
   * and the prepared parameters. Each catches its own exceptions.
   */
  type Backend = (string, Json, Json) -> Json

  /** The task handler: defaults and required check, then the executor for the operation type. */
  function TaskResponse(task: TaskConfig, backend: Backend, dump: Dump, arguments: Json): Outcome<Json>
  {
    match ApplyDefaults(arguments, task.parameters)
    case Raised(x) => Throws(x)
    case Missing(n) => Ok(CreateErrorResponse(MissingParameter + n))
    case Ready(p) =>
      if task.operationType !in KnownOperations then Ok(CreateErrorResponse(UnknownOperation + task.operationType))
      else if task.operationType == "database" then Ok(DatabaseResult(task.config, p, dump))
      else Ok(backend(task.operationType, task.config, p))
  }

  const MissingParameter: string := "Missing required parameter: "
  const UnknownOperation: string := "Unknown operation type: "

  /** The handler stored for a task, in the registry and in the tool. */
  function TaskHandler(task: TaskConfig, backend: Backend, dump: Dump): Workflow.Handler
  {
    arguments => TaskResponse(task, backend, dump, arguments)
  }

  /**
   * A missing demanded parameter is reported before any executor is chosen:
   * the answer is the same whatever the operation type and the executors.
   */
  lemma MissingBeforeExecutor(task: TaskConfig, b1: Backend, b2: Backend, dump: Dump, arguments: Json, op: string)
    requires ApplyDefaults(arguments, task.parameters).Missing?
    ensures var n := ApplyDefaults(arguments, task.parameters).name;
      && TaskResponse(task, b1, dump, arguments) == Ok(CreateErrorResponse(MissingParameter + n))
      && TaskResponse(task.(operationType := op), b2, dump, arguments) == TaskResponse(task, b1, dump, arguments)
      && n !in FieldsOf(arguments)
  {
    MissingIsDemanded(arguments, task.parameters);
  }

  /** With complete arguments an unknown operation type is reported, and no executor runs. */
  lemma UnknownOperationReported(task: TaskConfig, b1: Backend, b2: Backend, dump: Dump, arguments: Json)
    requires ApplyDefaults(arguments, task.parameters).Ready?
    requires task.operationType !in KnownOperations
    ensures TaskResponse(task, b1, dump, arguments)
            == TaskResponse(task, b2, dump, arguments)
            == Ok(CreateErrorResponse(UnknownOperation + task.operationType))
  {
  }

  /** A known operation hands the completed parameters to its executor. */
  lemma KnownOperationExecutes(task: TaskConfig, backend: Backend, dump: Dump, arguments: Json)
    requires ApplyDefaults(arguments, task.parameters).Ready?
    requires task.operationType in KnownOperations && task.operationType != "database"
    ensures var p := ApplyDefaults(arguments, task.parameters).params;
      TaskResponse(task, backend, dump, arguments) == Ok(backend(task.operationType, task.config, p))
  {
  }

  // ---------------------------------------------------------------- database executor

  /** `json::items()`: an object's members in key order, an array's items under their indices, nothing for null, and a single unnamed entry for any other value. */
  function JsonItems(j: Json): seq<(string, Json)>
  {
    match j
    case JObject(f) => Strings.Items(f)
    case JArray(a) => seq(|a|, i requires 0 <= i < |a| => (Strings.NatToString(i), a[i]))
    case JNull => []
    case _ => [("", j)]
  }

  /** Every single quote doubled, the SQL way of writing a quote inside a literal. */
  function Escape(s: string): string
    decreases |s|
  {
    if s == [] then []
    else (if s[0] == '\'' then "''" else [s[0]]) + Escape(s[1..])
  }

  /** Every doubled quote read back as one. */
  function Unescape(t: string): string
    decreases |t|
  {
    if t == [] then []
    else if |t| >= 2 && t[0] == '\'' && t[1] == '\'' then "'" + Unescape(t[2..])
    else [t[0]] + Unescape(t[1..])
  }

  /** Quotes in `t` come only in adjacent pairs, so `t` cannot close a literal it is placed in. */
  predicate QuotesPaired(t: string)
    decreases |t|
  {
    if t == [] then true
    else if t[0] == '\'' then |t| >= 2 && t[1] == '\'' && QuotesPaired(t[2..])
    else QuotesPaired(t[1..])
  }

  lemma {:induction false} EscapeAppend(a: string, b: string)
    ensures Escape(a + b) == Escape(a) + Escape(b)
    decreases |a|
  {
    if a != [] {
      assert (a + b)[1..] == a[1..] + b;
      EscapeAppend(a[1..], b);
    } else {
      assert a + b == b;
    }
  }

  /** Escaping can be undone, and leaves no quote unpaired. */
  lemma {:induction false} EscapeRoundTrip(s: string)
    ensures Unescape(Escape(s)) == s
    ensures QuotesPaired(Escape(s))
    decreases |s|
  {
    if s != [] {
      EscapeRoundTrip(s[1..]);
      var e := Escape(s[1..]);
      if s[0] == '\'' {
        assert Escape(s) == "''" + e;
        assert ("''" + e)[2..] == e;
      } else {
        assert Escape(s) == [s[0]] + e;
        assert ([s[0]] + e)[1..] == e;
      }
    }
  }

  /** A value as it is written into a query: a string as a quoted literal, anything else as its `dump()`. */
  function SqlValue(v: Json, dump: Dump): string
  {
    if v.JString? then "'" + Escape(v.s) + "'" else dump(v)
  }

  /** The placeholder rewrite of `DatabaseExecutor::execute`: each entry substituted in turn. */
  function RewriteQuery(query: string, items: seq<(string, Json)>, dump: Dump): string
    decreases |items|
  {
    if items == [] then query
    else RewriteQuery(Strings.ReplaceAll(query, Workflow.Placeholder(items[0].0), SqlValue(items[0].1, dump)),
                      items[1..], dump)
  }

  const DatabaseError: string := "Database error: "
  const SimulatedPrefix: string := "Database operation simulated (would execute: "
  const DriverNote: string := "Install database drivers for real operations"

  /** The simulated database executor: read the settings, rewrite the query, describe what would run. */
  function DatabaseResult(config: Json, params: Json, dump: Dump): Json
  {
    match ValueOr(config, "db_type", "postgresql")
    case Throws(x) => CreateErrorResponse(DatabaseError + x.what)
    case Ok(dbType) =>
      match ValueOr(config, "query", "")
      case Throws(x) => CreateErrorResponse(DatabaseError + x.what)
      case Ok(query) =>
        match ValueOr(config, "connection_string", "")
        case Throws(x) => CreateErrorResponse(DatabaseError + x.what)
        case Ok(_) => Simulated(dbType, RewriteQuery(query, JsonItems(params), dump))
  }

  function Simulated(dbType: string, query: string): Json
  {
    JObject(map[
      "success" := JBool(true),
      "message" := JString(SimulatedPrefix + query + ")"),
      "db_type" := JString(dbType),
      "query" := JString(query),
      "note" := JString(DriverNote)])
  }

  /** Settings that are present but not strings, or a configuration that is not an object, give an error response. */
  lemma DatabaseConfigErrors(config: Json, params: Json, dump: Dump)
    ensures !config.JObject? ==>
      DatabaseResult(config, params, dump) == CreateErrorResponse(DatabaseError + Message306 + TypeName(config))
    ensures config.JObject? && "query" in config.fields && !config.fields["query"].JString? ==>
      && Failed(DatabaseResult(config, params, dump)) == Ok(true)
      && "error" in DatabaseResult(config, params, dump).fields
      && exists w :: DatabaseResult(config, params, dump) == CreateErrorResponse(DatabaseError + w)
  {
    if !config.JObject? {
      assert DatabaseError + (Message306 + TypeName(config)) == DatabaseError + Message306 + TypeName(config);
    } else if "query" in config.fields && !config.fields["query"].JString? {
      match ValueOr(config, "db_type", "postgresql")
      case Throws(x) =>
        assert DatabaseResult(config, params, dump) == CreateErrorResponse(DatabaseError + x.what);
      case Ok(_) =>
        var q := ValueOr(config, "query", "");
        assert DatabaseResult(config, params, dump) == CreateErrorResponse(DatabaseError + q.error.what);
    }
  }

  /**
   * Without a `db_type`, `query` or `connection_string` the executor reports
   * a PostgreSQL query of the empty string.
   */
  lemma DatabaseDefaults(params: Json, dump: Dump)
    ensures DatabaseResult(JObject(map[]), params, dump) == Simulated("postgresql", RewriteQuery("", JsonItems(params), dump))
  {
  }

  /** Null parameters rewrite nothing. */
  lemma NullParamsRewriteNothing(query: string, dump: Dump)
    ensures RewriteQuery(query, JsonItems(JNull), dump) == query
  {
  }

  /** A query without any parameter's placeholder is passed on unchanged. */
  lemma {:induction false} RewriteAbsent(query: string, items: seq<(string, Json)>, dump: Dump)
    requires forall i :: 0 <= i < |items| ==> !Strings.Contains(query, Workflow.Placeholder(items[i].0))
    ensures RewriteQuery(query, items, dump) == query
    decreases |items|
  {
    if items != [] {
      var pat := Workflow.Placeholder(items[0].0);
      assert !Strings.Contains(query, pat);
      assert forall i: nat :: !Strings.OccursAt(query, pat, i);
      Strings.ReplaceAllAbsent(query, pat, SqlValue(items[0].1, dump));
      assert forall i :: 0 <= i < |items[1..]| ==> items[1..][i] == items[i + 1];
      RewriteAbsent(query, items[1..], dump);
    }
  }

  /** With one string parameter every `{key}` becomes its value as a quoted literal with quotes doubled. */
  lemma SingleStringParameter(query: string, key: string, s: string, dump: Dump)
    ensures RewriteQuery(query, JsonItems(JObject(map[key := JString(s)])), dump)
            == Strings.ReplaceAll(query, Workflow.Placeholder(key), "'" + Escape(s) + "'")
  {
    var items := JsonItems(JObject(map[key := JString(s)]));
    assert items[0] == (key, JString(s));
    assert items[1..] == [];
  }

  /**
   * A parameter array is written positionally: item `i` replaces the
   * placeholder whose digits read `i`, so the first item replaces `{0}`.
   */
  lemma ArrayParametersPositional(a: seq<Json>)
    ensures |JsonItems(JArray(a))| == |a|
    ensures forall i :: 0 <= i < |a| ==>
      && JsonItems(JArray(a))[i].1 == a[i]
      && JsonItems(JArray(a))[i].0 == Strings.NatToString(i)
      && Strings.DigitsValue(JsonItems(JArray(a))[i].0) == i
    ensures |a| > 0 ==> JsonItems(JArray(a))[0].0 == "0"
  {
    forall i | 0 <= i < |a|
      ensures Strings.DigitsValue(Strings.NatToString(i)) == i
    {
      Strings.NatToStringValue(i);
    }
    assert Strings.NatToString(0) == "0";
  }

  /** A scalar parameter value replaces the unnamed placeholder `{}`. */
  lemma ScalarParameterUnnamed(v: Json)
    requires !v.JObject? && !v.JArray? && !v.JNull?
    ensures JsonItems(v) == [("", v)]
    ensures Workflow.Placeholder("") == "{}"
  {
  }

  // ---------------------------------------------------------------- schemas

  function ParamName(p: TaskParameter): string
  {
    p.name
  }

  /** The schema of one parameter: its description and the type the mapping `typeName` gives its tag. */
  function PropertySchema(p: TaskParameter, typeName: string -> string): Json
  {
    JObject(map["description" := JString(p.description), "type" := JString(typeName(p.typeTag))])
  }

  function PropertyOf(typeName: string -> string): TaskParameter -> Json
  {
    p => PropertySchema(p, typeName)
  }

  /** The `properties` object: one member per parameter name, the last parameter of a name winning. */
  function Properties(parameters: seq<TaskParameter>, typeName: string -> string): map<string, Json>
  {
    Register(map[], parameters, ParamName, PropertyOf(typeName))
  }

  /** The `required` array: the name of every demanded parameter, in order, repeated names included. */
  function Required(parameters: seq<TaskParameter>): seq<Json>
    decreases |parameters|
  {
    if parameters == [] then []
    else
      var n := |parameters| - 1;
      Required(parameters[..n]) + (if Demanded(parameters[n]) then [JString(parameters[n].name)] else [])
  }

  /** The input schema of a task or workflow tool, `required` left out when empty. */
  function InputSchema(parameters: seq<TaskParameter>, typeName: string -> string): Json
  {
    var r := Required(parameters);
    JObject(map["type" := JString("object"), "properties" := JObject(Properties(parameters, typeName))]
            + (if r == [] then map[] else map["required" := JArray(r)]))
  }

  /** `required` lists a name exactly when some parameter of that name is demanded, and lists only names. */
  lemma {:induction false} RequiredSpec(parameters: seq<TaskParameter>, x: string)
    ensures forall e :: e in Required(parameters) ==> e.JString?
    ensures JString(x) in Required(parameters) <==>
            exists i :: 0 <= i < |parameters| && parameters[i].name == x && Demanded(parameters[i])
    decreases |parameters|
  {
    if parameters != [] {
      var n := |parameters| - 1;
      var init := parameters[..n];
      RequiredSpec(init, x);
      if exists i :: 0 <= i < |parameters| && parameters[i].name == x && Demanded(parameters[i]) {
        var i :| 0 <= i < |parameters| && parameters[i].name == x && Demanded(parameters[i]);
        if i < n {
          assert init[i] == parameters[i];
        }
      }
      if exists i :: 0 <= i < |init| && init[i].name == x && Demanded(init[i]) {
        var i :| 0 <= i < |init| && init[i].name == x && Demanded(init[i]);
        assert parameters[i] == init[i];
      }
    }
  }

  /** `required` is empty exactly when no parameter is demanded. */
  lemma {:induction false} RequiredEmpty(parameters: seq<TaskParameter>)
    ensures Required(parameters) == [] <==> forall i :: 0 <= i < |parameters| ==> !Demanded(parameters[i])
    decreases |parameters|
  {
    if parameters != [] {
      var n := |parameters| - 1;
      var init := parameters[..n];
      RequiredEmpty(init);
      assert forall i :: 0 <= i < n ==> init[i] == parameters[i];
    }
  }

  /**
   * The input schema is an object schema whose `properties` has one member
   * per parameter name, described by the last parameter of that name, and
   * whose `required` is present exactly when some parameter is demanded.
   */
  lemma InputSchemaSpec(parameters: seq<TaskParameter>, typeName: string -> string, x: string)
    ensures var s := InputSchema(parameters, typeName).fields;
      && s["type"] == JString("object")
      && s["properties"].JObject?
      && ("required" in s <==> exists i :: 0 <= i < |parameters| && Demanded(parameters[i]))
      && (x in s["properties"].fields <==> exists i :: 0 <= i < |parameters| && parameters[i].name == x)
      && ((exists i :: 0 <= i < |parameters| && parameters[i].name == x) ==>
            exists i :: 0 <= i < |parameters| && parameters[i].name == x
                        && s["properties"].fields[x] == PropertySchema(parameters[i], typeName)
                        && forall j :: i < j < |parameters| ==> parameters[j].name != x)
  {
    RequiredEmpty(parameters);
    RegisterSpec(map[], parameters, ParamName, PropertyOf(typeName), x);
    assert Keyed(parameters, ParamName, x) <==> exists i :: 0 <= i < |parameters| && parameters[i].name == x;
  }

  /** A parameter whose absence stops the handler is one the task schema lists as required. */
  lemma MissingIsListed(params: Json, parameters: seq<TaskParameter>)
    requires ApplyDefaults(params, parameters).Missing?
    ensures JString(ApplyDefaults(params, parameters).name) in Required(parameters)
  {
    MissingIsDemanded(params, parameters);
    RequiredSpec(parameters, ApplyDefaults(params, parameters).name);
  }

  /** Arguments carrying every name the schema lists as required never stop the handler. */
  lemma ListedSuppliedNeverMissing(params: Json, parameters: seq<TaskParameter>)
    requires forall e :: e in Required(parameters) ==> e.JString? && e.s in FieldsOf(params)
    ensures !ApplyDefaults(params, parameters).Missing?
  {
    forall i | 0 <= i < |parameters| && Demanded(parameters[i])
      ensures parameters[i].name in FieldsOf(params)
    {
      RequiredSpec(parameters, parameters[i].name);
    }
    SuppliedNeverMissing(params, parameters);
  }

  // ---------------------------------------------------------------- tools

  /** The tool `create_task_tool` registers. */
  function TaskTool(task: TaskConfig, backend: Backend, dump: Dump): Protocol.Tool
  {
    Protocol.Tool(task.name, task.description + " [Operation: " + task.operationType + "]",
                  InputSchema(task.parameters, TaskTypeName), TaskHandler(task, backend, dump))
  }

  /** The handler of a workflow tool: run the workflow over the task handlers it was given. */
  function WorkflowHandler(workflow: WorkflowConfig, registry: Workflow.Registry, dump: Dump): Workflow.Handler
  {
    arguments => Ok(Workflow.ExecuteWorkflow(workflow, registry, arguments, dump))
  }

  /** The tool `create_workflow_tool` registers. */
  function WorkflowTool(workflow: WorkflowConfig, registry: Workflow.Registry, dump: Dump): Protocol.Tool
  {
    Protocol.Tool(workflow.name,
                  workflow.description + " [Workflow with " + Strings.NatToString(|workflow.steps|) + " steps]",
                  InputSchema(workflow.parameters, WorkflowTypeName), WorkflowHandler(workflow, registry, dump))
  }

  function TaskName(t: TaskConfig): string
  {
    t.name
  }

  function WorkflowName(w: WorkflowConfig): string
  {
    w.name
  }

  function HandlerOf(backend: Backend, dump: Dump): TaskConfig -> Workflow.Handler
  {
    t => TaskHandler(t, backend, dump)
  }

  function TaskToolOf(backend: Backend, dump: Dump): TaskConfig -> Protocol.Tool
  {
    t => TaskTool(t, backend, dump)
  }

  function WorkflowToolOf(registry: Workflow.Registry, dump: Dump): WorkflowConfig -> Protocol.Tool
  {
    w => WorkflowTool(w, registry, dump)
  }

  /** `generate_all_tools` on the tool map: every task's tool, then every workflow's tool over the task handlers. */
  function GeneratedTools(tools: map<string, Protocol.Tool>, registry: Workflow.Registry, tasks: seq<TaskConfig>,
                          workflows: seq<WorkflowConfig>, backend: Backend, dump: Dump): map<string, Protocol.Tool>
  {
    var handlers := Register(registry, tasks, TaskName, HandlerOf(backend, dump));
    Register(Register(tools, tasks, TaskName, TaskToolOf(backend, dump)), workflows, WorkflowName,
             WorkflowToolOf(handlers, dump))
  }

  /**
   * After `generate_all_tools` a name has a tool exactly when it had one or a
   * task or workflow has that name; the last workflow of a name wins over
   * every task of it, the last task of a name named by no workflow gets its
   * tool, and every other tool is kept as it was.
   */
  lemma GeneratedToolsSpec(tools: map<string, Protocol.Tool>, registry: Workflow.Registry, tasks: seq<TaskConfig>,
                           workflows: seq<WorkflowConfig>, backend: Backend, dump: Dump, x: string)
    ensures var r := GeneratedTools(tools, registry, tasks, workflows, backend, dump);
      && (x in r <==> x in tools || Keyed(tasks, TaskName, x) || Keyed(workflows, WorkflowName, x))
      && (Keyed(workflows, WorkflowName, x) ==>
            exists i :: (0 <= i < |workflows| && workflows[i].name == x
                         && (forall j :: i < j < |workflows| ==> workflows[j].name != x)
                         && r[x] == WorkflowTool(workflows[i],
                                                 Register(registry, tasks, TaskName, HandlerOf(backend, dump)), dump)))
      && (!Keyed(workflows, WorkflowName, x) && Keyed(tasks, TaskName, x) ==>
            exists i :: (0 <= i < |tasks| && tasks[i].name == x
                         && (forall j :: i < j < |tasks| ==> tasks[j].name != x)
                         && r[x] == TaskTool(tasks[i], backend, dump)))
      && (!Keyed(tasks, TaskName, x) && !Keyed(workflows, WorkflowName, x) && x in tools ==> r[x] == tools[x])
  {
    var handlers := Register(registry, tasks, TaskName, HandlerOf(backend, dump));
    var withTasks := Register(tools, tasks, TaskName, TaskToolOf(backend, dump));
    RegisterSpec(tools, tasks, TaskName, TaskToolOf(backend, dump), x);
    RegisterSpec(withTasks, workflows, WorkflowName, WorkflowToolOf(handlers, dump), x);
  }

  /** Every workflow tool runs over a registry holding every task's handler. */
  lemma WorkflowsSeeAllTasks(registry: Workflow.Registry, tasks: seq<TaskConfig>, backend: Backend, dump: Dump,
                             i: int)
    requires 0 <= i < |tasks|
    ensures tasks[i].name in Register(registry, tasks, TaskName, HandlerOf(backend, dump))
  {
    RegisterSpec(registry, tasks, TaskName, HandlerOf(backend, dump), tasks[i].name);
    assert TaskName(tasks[i]) == tasks[i].name;
  }
}
