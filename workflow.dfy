/**
 * `WorkflowExecutor::execute` and `replace_variables` as functions: the
 * `{name}` substitution, the per-step parameter overlay, the publication of
 * results, and the sequential walk over the resolved order that stops at the
 * first failing step.
 */
module Workflow {
  import opened Json
  import Strings
  import opened Config
  import Resolve

  /** A task handler as the executor calls it: it returns a result or throws. */
  type Handler = Json -> Outcome<Json>

  /** `TaskRegistry`: the task handlers by task name. */
  type Registry = map<string, Handler>

  // ---------------------------------------------------------------- replace_variables

  /** The text a variable stands for: a string as it is, any other value serialised. */
  function Rendered(v: Json, dump: Dump): string
  {
    if v.JString? then v.s else dump(v)
  }

  /** `"{" + name + "}"`. */
  function Placeholder(name: string): (r: string)
    ensures |r| == |name| + 2 && r[0] == '{' && r[|r| - 1] == '}'
    ensures r[1..|r| - 1] == name
  {
    "{" + name + "}"
  }

  /** The variables in `vars`, in that order, each substituted over the result of the previous one. */
  function SubstituteAll(s: string, vars: seq<(string, Json)>, dump: Dump): string
    decreases |vars|
  {
    if vars == [] then s
    else SubstituteAll(Strings.ReplaceAll(s, Placeholder(vars[0].0), Rendered(vars[0].1, dump)), vars[1..], dump)
  }

  /** `replace_variables`: strings get every variable substituted in ascending name order; other values pass. */
  function ReplaceVariables(value: Json, vars: map<string, Json>, dump: Dump): (r: Json)
    ensures !value.JString? ==> r == value
    ensures r.JString? <==> value.JString?
  {
    if value.JString? then JString(SubstituteAll(value.s, Strings.Items(vars), dump)) else value
  }

  lemma {:induction false} SubstituteAbsent(s: string, vars: seq<(string, Json)>, dump: Dump)
    requires forall i :: 0 <= i < |vars| ==> !Strings.Contains(s, Placeholder(vars[i].0))
    ensures SubstituteAll(s, vars, dump) == s
    decreases |vars|
  {
    if vars != [] {
      assert !Strings.Contains(s, Placeholder(vars[0].0));
      assert forall i: nat :: !Strings.OccursAt(s, Placeholder(vars[0].0), i);
      Strings.ReplaceAllAbsent(s, Placeholder(vars[0].0), Rendered(vars[0].1, dump));
      assert forall i :: 0 <= i < |vars[1..]| ==> vars[1..][i] == vars[i + 1];
      SubstituteAbsent(s, vars[1..], dump);
    }
  }

  /** A string with no `{v}` for any variable `v` is returned unchanged; unknown tokens stay in place. */
  lemma NoPlaceholderUnchanged(s: string, vars: map<string, Json>, dump: Dump)
    requires forall k :: k in vars ==> !Strings.Contains(s, Placeholder(k))
    ensures ReplaceVariables(JString(s), vars, dump) == JString(s)
  {
    SubstituteAbsent(s, Strings.Items(vars), dump);
  }

  /** With one variable, every `{v}` is replaced by its text, the scan resuming after each insertion. */
  lemma SingleVariable(s: string, name: string, v: Json, dump: Dump)
    ensures ReplaceVariables(JString(s), map[name := v], dump)
            == JString(Strings.ReplaceAll(s, Placeholder(name), Rendered(v, dump)))
  {
    var items := Strings.Items(map[name := v]);
    assert items[0] == (name, v);
    assert items == [(name, v)];
    var once := Strings.ReplaceAll(s, Placeholder(name), Rendered(v, dump));
    assert items[1..] == [];
    assert SubstituteAll(s, items, dump) == SubstituteAll(once, items[1..], dump) == once;
  }

  /** An empty namespace substitutes nothing. */
  lemma EmptyNamespace(value: Json, dump: Dump)
    ensures ReplaceVariables(value, map[], dump) == value
  {
    if value.JString? {
      var none: map<string, Json> := map[];
      assert Strings.Items(none) == [];
    }
  }

  /** A namespace of two names lists them in ascending order. */
  lemma ItemsAB(x: Json, y: Json)
    ensures Strings.Items(map["a" := x, "b" := y]) == [("a", x), ("b", y)]
  {
    var m := map["a" := x, "b" := y];
    var r := Strings.Items(m);
    Strings.ItemsKeys(m);
    Strings.SortedKeysAscending(m.Keys);
    var keys := Strings.SortedKeys(m.Keys);
    assert keys[0] in m.Keys && keys[1] in m.Keys;
    assert Strings.Less(keys[0], keys[1]);
    assert !Strings.Less("a", "a") && !Strings.Less("b", "b") && !Strings.Less("b", "a");
    assert keys[0] == "a" && keys[1] == "b";
  }

  /**
   * Variables are applied in ascending name order, so text inserted for `a`
   * is scanned again for `b`...
   */
  lemma SubstitutionChains(dump: Dump)
    ensures ReplaceVariables(JString("{a}"), map["a" := JString("{b}"), "b" := JString("X")], dump) == JString("X")
  {
    ItemsAB(JString("{b}"), JString("X"));
    var e: string := [];
    assert "{a}" == Placeholder("a") + e && "{b}" == Placeholder("b") + e;
    Strings.ReplacementNotRescanned(Placeholder("a"), "{b}", e);
    Strings.ReplacementNotRescanned(Placeholder("b"), "X", e);
    Strings.ReplaceAllShort(e, Placeholder("a"), "{b}");
    Strings.ReplaceAllShort(e, Placeholder("b"), "X");
  }

  /** ...but text inserted for `b` is never scanned for `a`, which comes earlier. */
  lemma SubstitutionDoesNotLookBack(dump: Dump)
    ensures ReplaceVariables(JString("{b}"), map["a" := JString("X"), "b" := JString("{a}")], dump) == JString("{a}")
  {
    ItemsAB(JString("X"), JString("{a}"));
    var e: string := [];
    assert "{b}" == Placeholder("b") + e;
    Strings.ReplacementNotRescanned(Placeholder("b"), "{a}", e);
    Strings.ReplaceAllShort(e, Placeholder("b"), "{a}");
    var s: string := "{b}";
    assert forall i: nat :: !Strings.OccursAt(s, Placeholder("a"), i) by {
      forall i: nat
        ensures !Strings.OccursAt(s, Placeholder("a"), i)
      {
        if i == 0 {
          assert s[0..3][1] == 'b' != Placeholder("a")[1];
        }
      }
    }
    Strings.ReplaceAllAbsent(s, Placeholder("a"), "X");
  }

  // ---------------------------------------------------------------- step parameters

  /** The value an input mapping entry contributes: its template after substitution. */
  function Mapped(template: string, vars: map<string, Json>, dump: Dump): Json
  {
    ReplaceVariables(JString(template), vars, dump)
  }

  /** `step_params[name] = ...` for the mapping entries in `entries`, in that order; each write can throw. */
  function MapInputs(p: Json, entries: seq<(string, string)>, vars: map<string, Json>, dump: Dump): Outcome<Json>
    decreases |entries|
  {
    if entries == [] then Ok(p)
    else
      match Set(p, entries[0].0, Mapped(entries[0].1, vars, dump))
      case Throws(x) => Throws(x)
      case Ok(q) => MapInputs(q, entries[1..], vars, dump)
  }

  /** A step's parameters: a copy of the call parameters with the input mapping applied in ascending key order. */
  function StepParams(params: Json, im: map<string, string>, vars: map<string, Json>, dump: Dump): Outcome<Json>
  {
    MapInputs(params, Strings.Items(im), vars, dump)
  }

  /** The fields `f` with the mapping entries written over them in order. */
  function Overlay(f: map<string, Json>, entries: seq<(string, string)>, vars: map<string, Json>, dump: Dump)
    : map<string, Json>
    decreases |entries|
  {
    if entries == [] then f
    else Overlay(f[entries[0].0 := Mapped(entries[0].1, vars, dump)], entries[1..], vars, dump)
  }

  lemma {:induction false} MapInputsObject(f: map<string, Json>, entries: seq<(string, string)>,
                                           vars: map<string, Json>, dump: Dump)
    ensures MapInputs(JObject(f), entries, vars, dump) == Ok(JObject(Overlay(f, entries, vars, dump)))
    decreases |entries|
  {
    if entries != [] {
      MapInputsObject(f[entries[0].0 := Mapped(entries[0].1, vars, dump)], entries[1..], vars, dump);
    }
  }

  /** Some entry has the name `x`. */
  predicate Names<V>(entries: seq<(string, V)>, x: string)
  {
    exists i :: 0 <= i < |entries| && entries[i].0 == x
  }

  lemma NamesCons<V>(entries: seq<(string, V)>, x: string)
    requires entries != []
    ensures Names(entries, x) <==> entries[0].0 == x || Names(entries[1..], x)
  {
    if Names(entries, x) {
      var i :| 0 <= i < |entries| && entries[i].0 == x;
      if i > 0 {
        assert entries[1..][i - 1] == entries[i];
      }
    }
    if Names(entries[1..], x) {
      var i :| 0 <= i < |entries[1..]| && entries[1..][i].0 == x;
      assert entries[i + 1] == entries[1..][i];
    }
  }

  lemma {:induction false} OverlayAt(f: map<string, Json>, entries: seq<(string, string)>, vars: map<string, Json>,
                                     dump: Dump, x: string)
    ensures var g := Overlay(f, entries, vars, dump);
      && (x in g <==> x in f || Names(entries, x))
      && (Names(entries, x) ==>
            exists i :: 0 <= i < |entries| && entries[i].0 == x && g[x] == Mapped(entries[i].1, vars, dump))
      && (!Names(entries, x) && x in f ==> g[x] == f[x])
    decreases |entries|
  {
    if entries != [] {
      var rest := entries[1..];
      OverlayAt(f[entries[0].0 := Mapped(entries[0].1, vars, dump)], rest, vars, dump, x);
      NamesCons(entries, x);
      var g := Overlay(f, entries, vars, dump);
      if Names(rest, x) {
        var i :| 0 <= i < |rest| && rest[i].0 == x && g[x] == Mapped(rest[i].1, vars, dump);
        assert entries[i + 1] == rest[i];
      } else if entries[0].0 == x {
        assert g[x] == Mapped(entries[0].1, vars, dump);
      }
    }
  }

  /**
   * A step's parameters are the call parameters overlaid by every input
   * mapping entry after substitution (null parameters act as an empty object
   * once something is written to them): a mapped name gets its template's
   * value, every other name keeps its own.
   */
  lemma StepParamsOverlay(params: Json, im: map<string, string>, vars: map<string, Json>, dump: Dump, x: string)
    requires params.JObject? || (params.JNull? && im != map[])
    ensures var r := StepParams(params, im, vars, dump);
      && r.Ok? && r.value.JObject?
      && (x in r.value.fields <==> x in FieldsOf(params) || x in im)
      && (x in im ==> r.value.fields[x] == Mapped(im[x], vars, dump))
      && (x !in im && x in FieldsOf(params) ==> r.value.fields[x] == FieldsOf(params)[x])
  {
    var items := Strings.Items(im);
    assert x in im <==> Names(items, x);
    if params.JObject? {
      MapInputsObject(FieldsOf(params), items, vars, dump);
      OverlayAt(FieldsOf(params), items, vars, dump, x);
    } else {
      NullParamsOverlay(im, vars, dump, x);
    }
  }

  lemma NullParamsOverlay(im: map<string, string>, vars: map<string, Json>, dump: Dump, x: string)
    requires im != map[]
    ensures var r := StepParams(JNull, im, vars, dump);
      && r.Ok? && r.value.JObject?
      && (x in r.value.fields <==> x in im)
      && (x in im ==> r.value.fields[x] == Mapped(im[x], vars, dump))
  {
    var items := Strings.Items(im);
    assert x in im <==> Names(items, x);
    var k :| k in im;
    assert Names(items, k);
    var rest := items[1..];
    var f1 := map[items[0].0 := Mapped(items[0].1, vars, dump)];
    MapInputsObject(f1, rest, vars, dump);
    OverlayAt(f1, rest, vars, dump, x);
    NamesCons(items, x);
  }

  /** Without an input mapping the step receives the call parameters as they are. */
  lemma NoMappingPassesParams(params: Json, vars: map<string, Json>, dump: Dump)
    ensures StepParams(params, map[], vars, dump) == Ok(params)
  {
    var none: map<string, string> := map[];
    assert Strings.Items(none) == [];
  }

  /** Parameters that are neither an object nor null make any input mapping throw. */
  lemma StepParamsRejectsScalars(params: Json, im: map<string, string>, vars: map<string, Json>, dump: Dump)
    requires !params.JObject? && !params.JNull? && im != map[]
    ensures StepParams(params, im, vars, dump).Throws?
    ensures StepParams(params, im, vars, dump).error.JsonError?
  {
    var k :| k in im;
    assert Names(Strings.Items(im), k);
  }

  /** Nothing substitutes in the first step: its mapping templates arrive as literal strings. */
  lemma FirstStepTemplatesLiteral(params: Json, im: map<string, string>, dump: Dump, x: string)
    requires params.JObject? || params.JNull?
    requires x in im
    ensures var r := StepParams(params, im, map[], dump);
      r.Ok? && r.value.JObject? && x in r.value.fields && r.value.fields[x] == JString(im[x])
  {
    StepParamsOverlay(params, im, map[], dump, x);
    EmptyNamespace(JString(im[x]), dump);
  }

  // ---------------------------------------------------------------- publication

  /** The output mapping entries `(result key, published name)`, in order: each key present in the result is published. */
  function PublishOutputs(vars: map<string, Json>, entries: seq<(string, string)>, result: Json): map<string, Json>
    decreases |entries|
  {
    if entries == [] then vars
    else
      var (key, name) := entries[0];
      var next := if Contains(result, key) then vars[name := result.fields[key]] else vars;
      PublishOutputs(next, entries[1..], result)
  }

  /** After a step: its outputs published in ascending key order, then the full result under its name. */
  function Publish(vars: map<string, Json>, name: string, om: map<string, string>, result: Json)
    : (r: map<string, Json>)
    ensures name in r && r[name] == result
  {
    PublishOutputs(vars, Strings.Items(om), result)[name := result]
  }

  /** Some entry, whose key the result contains, publishes under `x`. */
  predicate PublishesTo(entries: seq<(string, string)>, result: Json, x: string)
  {
    exists i :: 0 <= i < |entries| && entries[i].1 == x && Contains(result, entries[i].0)
  }

  lemma PublishesToCons(entries: seq<(string, string)>, result: Json, x: string)
    requires entries != []
    ensures PublishesTo(entries, result, x)
            <==> (entries[0].1 == x && Contains(result, entries[0].0)) || PublishesTo(entries[1..], result, x)
  {
    if PublishesTo(entries, result, x) {
      var i :| 0 <= i < |entries| && entries[i].1 == x && Contains(result, entries[i].0);
      if i > 0 {
        assert entries[1..][i - 1] == entries[i];
      }
    }
    if PublishesTo(entries[1..], result, x) {
      var i :| 0 <= i < |entries[1..]| && entries[1..][i].1 == x && Contains(result, entries[1..][i].0);
      assert entries[i + 1] == entries[1..][i];
    }
  }

  lemma {:induction false} PublishOutputsSpec(vars: map<string, Json>, entries: seq<(string, string)>, result: Json,
                                              x: string)
    ensures var r := PublishOutputs(vars, entries, result);
      && (x in r <==> x in vars || PublishesTo(entries, result, x))
      && (!PublishesTo(entries, result, x) && x in vars ==> r[x] == vars[x])
      && (PublishesTo(entries, result, x) ==>
            exists i :: (0 <= i < |entries| && entries[i].1 == x && Contains(result, entries[i].0)
                         && r[x] == result.fields[entries[i].0]
                         && forall j :: i < j < |entries| && entries[j].1 == x ==> !Contains(result, entries[j].0)))
    decreases |entries|
  {
    if entries != [] {
      var (key, name) := entries[0];
      var rest := entries[1..];
      var next := if Contains(result, key) then vars[name := result.fields[key]] else vars;
      PublishOutputsSpec(next, rest, result, x);
      var r := PublishOutputs(vars, entries, result);
      PublishesToCons(entries, result, x);
      if PublishesTo(rest, result, x) {
        var i :| 0 <= i < |rest| && rest[i].1 == x && Contains(result, rest[i].0) && r[x] == result.fields[rest[i].0]
                 && forall j :: i < j < |rest| && rest[j].1 == x ==> !Contains(result, rest[j].0);
        assert entries[i + 1] == rest[i];
        assert forall j :: i + 1 < j < |entries| ==> entries[j] == rest[j - 1];
      } else if PublishesTo(entries, result, x) {
        assert forall j :: 0 < j < |entries| ==> entries[j] == rest[j - 1];
        assert forall j :: 0 < j < |entries| && entries[j].1 == x ==> !Contains(result, entries[j].0);
      }
    }
  }

  /**
   * After a step the namespace holds its full result under its name; every
   * other name holds an output published under it (a mapping key the result
   * contains) or, when nothing was published there, the previous value.
   * Mapping keys the result lacks publish nothing.
   */
  lemma PublishSpec(vars: map<string, Json>, name: string, om: map<string, string>, result: Json, x: string)
    requires x != name
    ensures var r := Publish(vars, name, om, result);
      && (x in r <==> x in vars || exists k :: k in om && om[k] == x && Contains(result, k))
      && ((forall k :: k in om && om[k] == x ==> !Contains(result, k)) && x in vars ==> r[x] == vars[x])
      && ((exists k :: k in om && om[k] == x && Contains(result, k)) ==>
            exists k :: (k in om && om[k] == x && Contains(result, k) && r[x] == result.fields[k]
                         && forall k' :: k' in om && om[k'] == x && Contains(result, k') ==> !Strings.Less(k, k')))
  {
    var items := Strings.Items(om);
    var p := PublishOutputs(vars, items, result);
    assert Publish(vars, name, om, result) == p[name := result];
    assert (x in p[name := result] <==> x in p) && (x in p ==> p[name := result][x] == p[x]);
    PublishOutputsSpec(vars, items, result, x);
    PublishesToKeys(om, result, x);
    if PublishesTo(items, result, x) {
      LastPublished(vars, om, result, x);
    }
  }

  /** Some entry of the output mapping publishes under `x` exactly when some key naming `x` is in the result. */
  lemma PublishesToKeys(om: map<string, string>, result: Json, x: string)
    ensures PublishesTo(Strings.Items(om), result, x) <==> exists k :: k in om && om[k] == x && Contains(result, k)
  {
    var items := Strings.Items(om);
    if exists k :: k in om && om[k] == x && Contains(result, k) {
      var k :| k in om && om[k] == x && Contains(result, k);
      var i :| 0 <= i < |items| && items[i].0 == k;
    }
  }

  /** The output published under `x` comes from the greatest mapping key naming `x` that the result holds. */
  lemma LastPublished(vars: map<string, Json>, om: map<string, string>, result: Json, x: string)
    requires PublishesTo(Strings.Items(om), result, x)
    ensures var r := PublishOutputs(vars, Strings.Items(om), result);
      exists k :: (k in om && om[k] == x && Contains(result, k) && x in r && r[x] == result.fields[k]
                   && forall k' :: k' in om && om[k'] == x && Contains(result, k') ==> !Strings.Less(k, k'))
  {
    var items := Strings.Items(om);
    var r := PublishOutputs(vars, items, result);
    PublishOutputsSpec(vars, items, result, x);
    var i :| 0 <= i < |items| && items[i].1 == x && Contains(result, items[i].0) && r[x] == result.fields[items[i].0]
             && forall j :: i < j < |items| && items[j].1 == x ==> !Contains(result, items[j].0);
    GreatestPublished(om, items, result, x, i);
    assert items[i].0 in om && om[items[i].0] == x;
  }

  /** The entry that publishes last under `x` has the greatest mapping key among those present. */
  lemma GreatestPublished(om: map<string, string>, items: seq<(string, string)>, result: Json, x: string, i: int)
    requires items == Strings.Items(om)
    requires 0 <= i < |items| && items[i].1 == x
    requires forall j :: i < j < |items| && items[j].1 == x ==> !Contains(result, items[j].0)
    ensures forall k' :: k' in om && om[k'] == x && Contains(result, k') ==> !Strings.Less(items[i].0, k')
  {
    var keys := Strings.SortedKeys(om.Keys);
    Strings.ItemsKeys(om);
    Strings.SortedKeysAscending(om.Keys);
    forall k' | k' in om && om[k'] == x && Contains(result, k')
      ensures !Strings.Less(items[i].0, k')
    {
      var j :| 0 <= j < |items| && items[j].0 == k';
      if j < i {
        assert Strings.Less(keys[j], keys[i]);
        Strings.LessAsymmetric(k', items[i].0);
      } else if j == i {
        Strings.LessIrreflexive(k');
      }
    }
  }

  // ---------------------------------------------------------------- execute

  /** `std::find_if` over the configured steps: the first step with that name. */
  function FindStep(steps: seq<WorkflowStep>, name: string): (r: Option<WorkflowStep>)
    ensures r.Some? <==> exists i :: 0 <= i < |steps| && steps[i].name == name
    ensures r.Some? ==> exists i :: 0 <= i < |steps| && steps[i] == r.value && steps[i].name == name
                                    && forall j :: 0 <= j < i ==> steps[j].name != name
  {
    if steps == [] then None
    else if steps[0].name == name then Some(steps[0])
    else
      var r := FindStep(steps[1..], name);
      assert forall i :: 0 < i < |steps| ==> steps[i] == steps[1..][i - 1];
      r
  }

  /** How the walk over the order ended. */
  datatype End = Completed(vars: map<string, Json>) | Stopped(response: Json) | Threw(error: Exception)

  /** The response for a step whose result reports failure. */
  function FailureResponse(name: string, error: string, vars: map<string, Json>): Json
  {
    JObject(map[
      "success" := JBool(false),
      "failed_step" := JString(name),
      "error" := JString(error),
      "step_results" := JObject(vars)])
  }

  /** One pass of the loop of `execute`: go on with the grown namespace, or stop with the names whose task ran. */
  datatype StepEnd = Continue(vars: map<string, Json>) | Halt(end: End, ran: seq<string>)

  /** One pass of the loop of `execute` for the step named `name`. */
  function RunStep(steps: seq<WorkflowStep>, registry: Registry, params: Json, name: string,
                   vars: map<string, Json>, dump: Dump): (r: StepEnd)
    ensures r.Halt? ==> !r.end.Completed? && (r.ran == [] || r.ran == [name])
  {
    match FindStep(steps, name)
    case None => Halt(Stopped(CreateErrorResponse("Step not found: " + name)), [])
    case Some(step) =>
      match StepParams(params, step.inputMapping, vars, dump)
      case Throws(x) => Halt(Threw(x), [])
      case Ok(stepParams) =>
        if step.task !in registry then Halt(Stopped(CreateErrorResponse("Task not found: " + step.task)), [])
        else
          match registry[step.task](stepParams)
          case Throws(x) => Halt(Threw(x), [name])
          case Ok(result) =>
            var published := Publish(vars, name, step.outputMapping, result);
            match Failed(result)
            case Throws(x) => Halt(Threw(x), [name])
            case Ok(failed) =>
              if !failed then Continue(published)
              else
                match ErrorText(result)
                case Throws(x) => Halt(Threw(x), [name])
                case Ok(error) => Halt(Stopped(FailureResponse(name, error, published)), [name])
  }

  /**
   * The loop of `execute` over the remaining order: how it ends, and the
   * names of the steps whose task was called, in order.
   */
  function RunSteps(steps: seq<WorkflowStep>, registry: Registry, params: Json, order: seq<string>,
                    vars: map<string, Json>, dump: Dump): (End, seq<string>)
    decreases |order|
  {
    if order == [] then (Completed(vars), [])
    else
      match RunStep(steps, registry, params, order[0], vars, dump)
      case Halt(end, ran) => (end, ran)
      case Continue(published) =>
        var (end, ran) := RunSteps(steps, registry, params, order[1..], published, dump);
        (end, [order[0]] + ran)
  }

  /** `WorkflowExecutor::execute`: any exception becomes a "Workflow error" response. */
  function ExecuteWorkflow(wf: WorkflowConfig, registry: Registry, params: Json, dump: Dump): Json
  {
    var order := Resolve.Resolve(wf.steps);
    match RunSteps(wf.steps, registry, params, order, map[], dump).0
    case Completed(vars) =>
      JObject(map[
        "success" := JBool(true),
        "workflow" := JString(wf.name),
        "steps_executed" := JInt(|order|),
        "step_results" := JObject(vars)])
    case Stopped(response) => response
    case Threw(x) => CreateErrorResponse("Workflow error: " + x.what)
  }

  /** The walk over a non-empty order is its first pass followed, if that continues, by the rest. */
  lemma RunStepsCons(steps: seq<WorkflowStep>, registry: Registry, params: Json, order: seq<string>,
                     vars: map<string, Json>, dump: Dump)
    requires order != []
    ensures var step := RunStep(steps, registry, params, order[0], vars, dump);
      var r := RunSteps(steps, registry, params, order, vars, dump);
      && (step.Halt? ==> r == (step.end, step.ran))
      && (step.Continue? ==> var rest := RunSteps(steps, registry, params, order[1..], step.vars, dump);
                             r == (rest.0, [order[0]] + rest.1))
  {
  }

  /** Tasks run in the resolved order, and every task runs when the walk completes. */
  lemma {:induction false} RanIsPrefix(steps: seq<WorkflowStep>, registry: Registry, params: Json,
                                       order: seq<string>, vars: map<string, Json>, dump: Dump)
    ensures var r := RunSteps(steps, registry, params, order, vars, dump);
      IsPrefix(r.1, order) && (r.0.Completed? ==> r.1 == order)
    decreases |order|
  {
    if order != [] {
      var step := RunStep(steps, registry, params, order[0], vars, dump);
      RunStepsCons(steps, registry, params, order, vars, dump);
      if step.Continue? {
        RanIsPrefix(steps, registry, params, order[1..], step.vars, dump);
        var rest := RunSteps(steps, registry, params, order[1..], step.vars, dump);
        PrefixCons(order, rest.1);
      } else {
        PrefixCons(order, []);
      }
    }
  }

  /** `p` is an initial segment of `s`. */
  predicate IsPrefix(p: seq<string>, s: seq<string>)
  {
    |p| <= |s| && p == s[..|p|]
  }

  lemma PrefixCons(s: seq<string>, p: seq<string>)
    requires s != [] && IsPrefix(p, s[1..])
    ensures IsPrefix([s[0]] + p, s) && IsPrefix([], s)
    ensures p == s[1..] ==> [s[0]] + p == s
  {
    assert s[..|p| + 1] == [s[0]] + s[1..][..|p|];
  }

  /** Every name of the resolved order names a configured step: "Step not found" cannot occur. */
  lemma ResolvedStepsFound(wf: WorkflowConfig)
    ensures forall n :: n in Resolve.Resolve(wf.steps) ==> FindStep(wf.steps, n).Some?
  {
    Resolve.ResolveExactlyOnce(wf.steps);
  }

  /**
   * A step whose result reports failure stops the walk there and then: the
   * response names it, carries the result's error text and the namespace
   * including its own result, and no later task runs.
   */
  lemma FailingStepStops(steps: seq<WorkflowStep>, registry: Registry, params: Json, order: seq<string>,
                         vars: map<string, Json>, dump: Dump, step: WorkflowStep, stepParams: Json, result: Json,
                         error: string)
    requires order != [] && FindStep(steps, order[0]) == Some(step)
    requires StepParams(params, step.inputMapping, vars, dump) == Ok(stepParams)
    requires step.task in registry && registry[step.task](stepParams) == Ok(result)
    requires Contains(result, "success") && result.fields["success"] == JBool(false)
    requires ErrorText(result) == Ok(error)
    ensures var published := Publish(vars, order[0], step.outputMapping, result);
      && RunSteps(steps, registry, params, order, vars, dump)
         == (Stopped(FailureResponse(order[0], error, published)), [order[0]])
      && published[order[0]] == result
  {
  }

  /**
   * A step whose task is not registered stops the walk with "Task not
   * found" before its task, or any later one, runs.
   */
  lemma TaskNotFoundStops(steps: seq<WorkflowStep>, registry: Registry, params: Json, order: seq<string>,
                          vars: map<string, Json>, dump: Dump, step: WorkflowStep, stepParams: Json)
    requires order != [] && FindStep(steps, order[0]) == Some(step)
    requires StepParams(params, step.inputMapping, vars, dump) == Ok(stepParams)
    requires step.task !in registry
    ensures RunSteps(steps, registry, params, order, vars, dump)
            == (Stopped(CreateErrorResponse("Task not found: " + step.task)), [])
  {
  }

  /**
   * A step whose result does not report failure publishes it and the walk
   * goes on with the next name of the order over the grown namespace.
   */
  lemma SucceedingStepContinues(steps: seq<WorkflowStep>, registry: Registry, params: Json, order: seq<string>,
                                vars: map<string, Json>, dump: Dump, step: WorkflowStep, stepParams: Json,
                                result: Json)
    requires order != [] && FindStep(steps, order[0]) == Some(step)
    requires StepParams(params, step.inputMapping, vars, dump) == Ok(stepParams)
    requires step.task in registry && registry[step.task](stepParams) == Ok(result)
    requires Failed(result) == Ok(false)
    ensures var published := Publish(vars, order[0], step.outputMapping, result);
      var rest := RunSteps(steps, registry, params, order[1..], published, dump);
      RunSteps(steps, registry, params, order, vars, dump) == (rest.0, [order[0]] + rest.1)
  {
  }

  /** The names of the configured steps. */
  function StepNames(steps: seq<WorkflowStep>): set<string>
  {
    set i | 0 <= i < |steps| :: steps[i].name
  }

  /** The resolved order lists each configured step name once. */
  lemma ResolvedCount(steps: seq<WorkflowStep>)
    ensures |Resolve.Resolve(steps)| == |StepNames(steps)|
  {
    var order := Resolve.Resolve(steps);
    Resolve.ResolveExactlyOnce(steps);
    forall n
      ensures n in order <==> n in StepNames(steps)
    {
      if n in StepNames(steps) {
        var i :| 0 <= i < |steps| && steps[i].name == n;
      }
    }
    DistinctCard(order, StepNames(steps));
  }

  /**
   * A completed workflow ran every task of the resolved order and reports
   * success with one execution per distinct step name.
   */
  lemma CompletedCountsDistinctSteps(wf: WorkflowConfig, registry: Registry, params: Json, dump: Dump)
    requires RunSteps(wf.steps, registry, params, Resolve.Resolve(wf.steps), map[], dump).0.Completed?
    ensures var r := ExecuteWorkflow(wf, registry, params, dump);
      && r.JObject? && "success" in r.fields && r.fields["success"] == JBool(true)
      && "steps_executed" in r.fields && r.fields["steps_executed"] == JInt(|StepNames(wf.steps)|)
      && "workflow" in r.fields && r.fields["workflow"] == JString(wf.name)
    ensures RunSteps(wf.steps, registry, params, Resolve.Resolve(wf.steps), map[], dump).1 == Resolve.Resolve(wf.steps)
  {
    var order := Resolve.Resolve(wf.steps);
    var run := RunSteps(wf.steps, registry, params, order, map[], dump);
    RanIsPrefix(wf.steps, registry, params, order, map[], dump);
    ResolvedCount(wf.steps);
    CompletedResponse(wf, registry, params, dump, run.0.vars);
  }

  /** The response of a completed walk, field by field. */
  lemma CompletedResponse(wf: WorkflowConfig, registry: Registry, params: Json, dump: Dump, vars: map<string, Json>)
    requires RunSteps(wf.steps, registry, params, Resolve.Resolve(wf.steps), map[], dump).0 == Completed(vars)
    ensures var r := ExecuteWorkflow(wf, registry, params, dump);
      && r.JObject? && "success" in r.fields && r.fields["success"] == JBool(true)
      && "workflow" in r.fields && r.fields["workflow"] == JString(wf.name)
      && "steps_executed" in r.fields && r.fields["steps_executed"] == JInt(|Resolve.Resolve(wf.steps)|)
  {
  }

  lemma {:induction false} DistinctCard(order: seq<string>, names: set<string>)
    requires Resolve.Distinct(order)
    requires forall n :: n in order <==> n in names
    ensures |order| == |names|
    decreases |order|
  {
    if order != [] {
      var rest := order[1..];
      assert forall n :: n in rest <==> n in names - {order[0]} by {
        forall n
          ensures n in rest <==> n in names - {order[0]}
        {
          if n in rest {
            var j :| 0 <= j < |rest| && rest[j] == n;
            assert order[j + 1] == n;
          }
          if n in order && n != order[0] {
            var j :| 0 <= j < |order| && order[j] == n;
            assert rest[j - 1] == n;
          }
        }
      }
      assert Resolve.Distinct(rest) by {
        forall i, j | 0 <= i < j < |rest|
          ensures rest[i] != rest[j]
        {
          assert rest[i] == order[i + 1] && rest[j] == order[j + 1];
        }
      }
      DistinctCard(rest, names - {order[0]});
    } else {
      assert forall n :: n !in names;
    }
  }
}
