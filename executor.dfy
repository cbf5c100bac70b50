/**
 * `WorkflowExecutor` as a class over the task registry it was built with.
 * Its methods keep the loops and the recursion of the original and are each
 * proved equal to the function of module `Resolve` or `Workflow` that
 * specifies them.
 */
module Executor {
  import opened Json
  import Strings
  import opened Config
  import Resolve
  import opened Workflow

  class WorkflowExecutor {
    /** The task registry the executor was built with. */
    const registry: Registry
    /** `json::dump()`, supplied by the caller. */
    const dump: Dump

    constructor(registry: Registry, dump: Dump)
      ensures this.registry == registry && this.dump == dump
    {
      this.registry := registry;
      this.dump := dump;
    }

    /** The `visit` closure: mark the name, visit the dependencies that name a step, then emit it. */
    method VisitStep(m: map<string, WorkflowStep>, name: string, visited: set<string>, order: seq<string>)
      returns (visited': set<string>, order': seq<string>)
      requires name in m && visited <= m.Keys
      ensures Resolve.Search(visited', order') == Resolve.Visit(m, name, Resolve.Search(visited, order))
      decreases m.Keys - visited, 0
    {
      if name in visited {
        return visited, order;
      }
      visited', order' := visited + {name}, order;
      var deps := m[name].dependencies;
      var i := 0;
      while i < |deps|
        invariant 0 <= i <= |deps|
        invariant visited + {name} <= visited' <= m.Keys
        invariant Resolve.VisitDeps(m, deps[i..], Resolve.Search(visited', order'))
                  == Resolve.VisitDeps(m, deps, Resolve.Search(visited + {name}, order))
      {
        assert deps[i..][1..] == deps[i + 1..];
        if deps[i] in m {
          visited', order' := VisitStep(m, deps[i], visited', order');
        }
        i := i + 1;
      }
      assert deps[i..] == [];
      order' := order' + [name];
    }

    /** `resolve_dependencies`: build the step map, then visit every step name in configuration order. */
    method ResolveDependencies(steps: seq<WorkflowStep>) returns (order: seq<string>)
      ensures order == Resolve.Resolve(steps)
    {
      var m: map<string, WorkflowStep> := map[];
      var i := 0;
      while i < |steps|
        invariant 0 <= i <= |steps|
        invariant m == Resolve.StepMap(steps[..i])
      {
        assert steps[..i + 1][..i] == steps[..i];
        m := m[steps[i].name := steps[i]];
        i := i + 1;
      }
      assert steps[..i] == steps;
      var names := Resolve.Names(steps);
      var visited: set<string> := {};
      order := [];
      var j := 0;
      while j < |steps|
        invariant 0 <= j <= |steps|
        invariant visited <= m.Keys
        invariant Resolve.VisitDeps(m, names[j..], Resolve.Search(visited, order))
                  == Resolve.VisitDeps(m, names, Resolve.Search({}, []))
      {
        assert names[j..][1..] == names[j + 1..];
        assert steps[j].name in m;
        visited, order := VisitStep(m, steps[j].name, visited, order);
        j := j + 1;
      }
      assert names[j..] == [];
    }

    /** `replace_variables`: every variable in ascending name order, strings only. */
    method ReplaceVariables(value: Json, variables: map<string, Json>) returns (r: Json)
      ensures r == Workflow.ReplaceVariables(value, variables, dump)
    {
      if !value.JString? {
        return value;
      }
      var str := value.s;
      var rest := Strings.Items(variables);
      ghost var whole := SubstituteAll(value.s, rest, dump);
      while rest != []
        invariant SubstituteAll(str, rest, dump) == whole
        decreases |rest|
      {
        var (key, varValue) := rest[0];
        var placeholder := "{" + key + "}";
        var replacement := if varValue.JString? then varValue.s else dump(varValue);
        str := ReplaceOne(str, placeholder, replacement);
        rest := rest[1..];
      }
      r := JString(str);
    }

    /** `std::find_if` over the steps: the first step with that name. */
    method FindStep(steps: seq<WorkflowStep>, name: string) returns (found: Option<WorkflowStep>)
      ensures found == Workflow.FindStep(steps, name)
    {
      var i := 0;
      while i < |steps|
        invariant 0 <= i <= |steps|
        invariant Workflow.FindStep(steps[i..], name) == Workflow.FindStep(steps, name)
      {
        if steps[i].name == name {
          return Some(steps[i]);
        }
        assert steps[i..][1..] == steps[i + 1..];
        i := i + 1;
      }
      return None;
    }

    /** The input mapping loop: a copy of the parameters with each mapped value written in, in key order. */
    method PrepareParams(params: Json, im: map<string, string>, variables: map<string, Json>)
      returns (stepParams: Outcome<Json>)
      ensures stepParams == StepParams(params, im, variables, dump)
    {
      var rest := Strings.Items(im);
      ghost var whole := MapInputs(params, rest, variables, dump);
      var p := params;
      while rest != []
        invariant MapInputs(p, rest, variables, dump) == whole
        decreases |rest|
      {
        var (key, template) := rest[0];
        var written := WriteMapped(p, key, template, variables);
        if written.Throws? {
          return Throws(written.error);
        }
        p := written.value;
        rest := rest[1..];
      }
      return Ok(p);
    }

    /** `step_params[param_name] = replace_variables(mapping_value, step_results)`. */
    method WriteMapped(p: Json, key: string, template: string, variables: map<string, Json>)
      returns (written: Outcome<Json>)
      ensures written == Set(p, key, Mapped(template, variables, dump))
    {
      var mapped := ReplaceVariables(JString(template), variables);
      written := Set(p, key, mapped);
    }

    /** The output mapping loop followed by storing the full result under the step's name. */
    method StoreResults(variables: map<string, Json>, name: string, om: map<string, string>, result: Json)
      returns (stored: map<string, Json>)
      ensures stored == Publish(variables, name, om, result)
    {
      var rest := Strings.Items(om);
      ghost var whole := PublishOutputs(variables, rest, result);
      stored := variables;
      while rest != []
        invariant PublishOutputs(stored, rest, result) == whole
        decreases |rest|
      {
        var (key, outputName) := rest[0];
        if Contains(result, key) {
          stored := stored[outputName := result.fields[key]];
        }
        rest := rest[1..];
      }
      stored := stored[name := result];
    }

    /** One pass of the loop of `execute`: the step named `name` run over the results so far. */
    method ExecuteStep(steps: seq<WorkflowStep>, params: Json, name: string, variables: map<string, Json>)
      returns (outcome: StepEnd)
      ensures outcome == RunStep(steps, registry, params, name, variables, dump)
    {
      var found := FindStep(steps, name);
      if found.None? {
        return Halt(Stopped(CreateErrorResponse("Step not found: " + name)), []);
      }
      var step := found.value;
      var stepParams := PrepareParams(params, step.inputMapping, variables);
      if stepParams.Throws? {
        return Halt(Threw(stepParams.error), []);
      }
      if step.task !in registry {
        return Halt(Stopped(CreateErrorResponse("Task not found: " + step.task)), []);
      }
      var result := registry[step.task](stepParams.value);
      if result.Throws? {
        return Halt(Threw(result.error), [name]);
      }
      var stored := StoreResults(variables, name, step.outputMapping, result.value);
      var failed := Failed(result.value);
      if failed.Throws? {
        return Halt(Threw(failed.error), [name]);
      }
      if !failed.value {
        return Continue(stored);
      }
      var error := ValueOr(result.value, "error", "Unknown error");
      if error.Throws? {
        return Halt(Threw(error.error), [name]);
      }
      return Halt(Stopped(FailureResponse(name, error.value, stored)), [name]);
    }

    /** `execute`: the steps in resolved order, stopping at the first that fails or throws. */
    method Execute(workflow: WorkflowConfig, params: Json) returns (response: Json)
      ensures response == ExecuteWorkflow(workflow, registry, params, dump)
    {
      var order := ResolveDependencies(workflow.steps);
      var stepResults: map<string, Json> := map[];
      var i := 0;
      while i < |order|
        invariant 0 <= i <= |order|
        invariant RunSteps(workflow.steps, registry, params, order[i..], stepResults, dump).0
                  == RunSteps(workflow.steps, registry, params, order, map[], dump).0
      {
        RunStepsCons(workflow.steps, registry, params, order[i..], stepResults, dump);
        assert order[i..][1..] == order[i + 1..];
        var outcome := ExecuteStep(workflow.steps, params, order[i], stepResults);
        if outcome.Halt? {
          match outcome.end
          case Stopped(r) =>
            return r;
          case Threw(x) =>
            return CreateErrorResponse("Workflow error: " + x.what);
          case Completed(_) =>
            assert false;
        }
        stepResults := outcome.vars;
        i := i + 1;
      }
      assert order[i..] == [];
      response := JObject(map[
        "success" := JBool(true),
        "workflow" := JString(workflow.name),
        "steps_executed" := JInt(|order|),
        "step_results" := JObject(stepResults)]);
    }
  }

  /** The `find`/`replace` loop for one variable: every occurrence, resuming after each insertion. */
  method ReplaceOne(original: string, placeholder: string, replacement: string) returns (str: string)
    requires |placeholder| > 0
    ensures str == Strings.ReplaceAll(original, placeholder, replacement)
  {
    str := original;
    var pos: nat := 0;
    var p := Strings.Find(str, placeholder, pos);
    while p != -1
      invariant pos <= |str|
      invariant str[..pos] + Strings.ReplaceAll(str[pos..], placeholder, replacement)
                == Strings.ReplaceAll(original, placeholder, replacement)
      invariant p == Strings.Find(str, placeholder, pos)
      decreases |str| - pos
    {
      ReplaceStep(str, placeholder, replacement, pos, p);
      str := str[..p] + replacement + str[p + |placeholder|..];
      pos := p + |replacement|;
      p := Strings.Find(str, placeholder, pos);
    }
    var t := str[pos..];
    forall i: nat
      ensures !Strings.OccursAt(t, placeholder, i)
    {
      Strings.OccursAtShift(str, placeholder, pos, i);
    }
    Strings.ReplaceAllAbsent(t, placeholder, replacement);
    assert str[..pos] + t == str;
  }

  /** One `find`/`replace` round: the text up to the new position is final, the rest still to be scanned. */
  lemma ReplaceStep(str: string, placeholder: string, replacement: string, pos: nat, p: int)
    requires |placeholder| > 0 && pos <= |str|
    requires p != -1 && p == Strings.Find(str, placeholder, pos)
    ensures p + |placeholder| <= |str|
    ensures var str' := str[..p] + replacement + str[p + |placeholder|..];
      && p + |replacement| <= |str'|
      && str'[..p + |replacement|] + Strings.ReplaceAll(str'[p + |replacement|..], placeholder, replacement)
         == str[..pos] + Strings.ReplaceAll(str[pos..], placeholder, replacement)
  {
    FirstFound(str, placeholder, replacement, pos, p);
    var before := str[..p];
    var after := str[p + |placeholder|..];
    var str' := before + replacement + after;
    assert str'[..p + |replacement|] == before + replacement;
    assert str'[p + |replacement|..] == after;
    assert str[..pos] + str[pos..p] == before;
  }

  /** The occurrence `find` reports is the first of the unscanned rest, which is replaced and skipped. */
  lemma FirstFound(str: string, placeholder: string, replacement: string, pos: nat, p: int)
    requires |placeholder| > 0 && pos <= |str|
    requires p != -1 && p == Strings.Find(str, placeholder, pos)
    ensures pos <= p && p + |placeholder| <= |str|
    ensures Strings.ReplaceAll(str[pos..], placeholder, replacement)
            == str[pos..p] + replacement + Strings.ReplaceAll(str[p + |placeholder|..], placeholder, replacement)
  {
    assert Strings.OccursAt(str, placeholder, p);
    assert forall i: nat :: pos <= i < p ==> !Strings.OccursAt(str, placeholder, i);
    FirstOccurrence(str, placeholder, replacement, pos, p);
  }

  /** Replacing from `pos` when the first occurrence at or after `pos` is at `p`. */
  lemma FirstOccurrence(str: string, placeholder: string, replacement: string, pos: nat, p: nat)
    requires |placeholder| > 0 && pos <= p
    requires Strings.OccursAt(str, placeholder, p)
    requires forall i: nat :: pos <= i < p ==> !Strings.OccursAt(str, placeholder, i)
    ensures Strings.ReplaceAll(str[pos..], placeholder, replacement)
            == str[pos..p] + replacement + Strings.ReplaceAll(str[p + |placeholder|..], placeholder, replacement)
  {
    var t := str[pos..];
    var k: nat := p - pos;
    Strings.OccursAtShift(str, placeholder, pos, k);
    forall i: nat | i < k
      ensures !Strings.OccursAt(t, placeholder, i)
    {
      Strings.OccursAtShift(str, placeholder, pos, i);
    }
    Strings.ReplaceAllFirst(t, placeholder, replacement, k);
    assert t[..k] == str[pos..p];
    assert t[k + |placeholder|..] == str[p + |placeholder|..];
  }
}
