/**
 * `DynamicToolGenerator` as a class: the task registry is a field its
 * methods update, and `create_task_tool`, `create_workflow_tool` and
 * `generate_all_tools` register tools on an `McpServer`. The handler's
 * defaults loop, the database executor and the schema loops are methods
 * proved equal to the functions of module `Dynamic`.
 */
module Generator {
  import opened Json
  import Strings
  import opened Config
  import Server
  import Workflow
  import Executor
  import opened Dynamic

  class DynamicToolGenerator {
    /** The executors whose effects are outside the model. */
    const backend: Backend
    /** `json::dump()`, supplied by the caller. */
    const dump: Dump
    /** `task_registry_`: the handler of every task registered so far, used by workflows. */
    var taskRegistry: Workflow.Registry

    constructor(backend: Backend, dump: Dump)
      ensures this.backend == backend && this.dump == dump && taskRegistry == map[]
    {
      this.backend := backend;
      this.dump := dump;
      taskRegistry := map[];
    }

    /** The defaults loop of the task handler, on a copy of the arguments. */
    method PrepareArguments(arguments: Json, parameters: seq<TaskParameter>) returns (d: Defaults)
      ensures d == ApplyDefaults(arguments, parameters)
    {
      var params := arguments;
      var rest := parameters;
      while rest != []
        invariant ApplyDefaults(params, rest) == ApplyDefaults(arguments, parameters)
        decreases |rest|
      {
        var param := rest[0];
        if !Contains(params, param.name) {
          if !param.defaultValue.JNull? {
            var written := Set(params, param.name, param.defaultValue);
            if written.Throws? {
              return Raised(written.error);
            }
            params := written.value;
          } else if param.required {
            return Missing(param.name);
          }
        }
        rest := rest[1..];
      }
      return Ready(params);
    }

    /** The handler of a task tool: complete the arguments, then dispatch on the operation type. */
    method RunTask(task: TaskConfig, arguments: Json) returns (r: Outcome<Json>)
      ensures r == TaskResponse(task, backend, dump, arguments)
    {
      var d := PrepareArguments(arguments, task.parameters);
      match d
      case Raised(x) =>
        return Throws(x);
      case Missing(n) =>
        return Ok(CreateErrorResponse(MissingParameter + n));
      case Ready(params) =>
        if task.operationType !in KnownOperations {
          return Ok(CreateErrorResponse(UnknownOperation + task.operationType));
        }
        if task.operationType == "database" {
          var result := DatabaseExecute(task.config, params);
          return Ok(result);
        }
        return Ok(backend(task.operationType, task.config, params));
    }

    /** The quote-doubling loop. */
    method EscapeQuotes(s: string) returns (escaped: string)
      ensures escaped == Escape(s)
    {
      escaped := "";
      for i := 0 to |s|
        invariant escaped == Escape(s[..i])
      {
        EscapeAppend(s[..i], [s[i]]);
        assert s[..i + 1] == s[..i] + [s[i]];
        if s[i] == '\'' {
          escaped := escaped + "''";
        } else {
          escaped := escaped + [s[i]];
        }
      }
      assert s[..|s|] == s;
    }

    /** `DatabaseExecutor::execute`: the settings, then every parameter substituted into the query. */
    method DatabaseExecute(config: Json, params: Json) returns (r: Json)
      ensures r == DatabaseResult(config, params, dump)
    {
      var dbType := ValueOr(config, "db_type", "postgresql");
      if dbType.Throws? {
        return CreateErrorResponse(DatabaseError + dbType.error.what);
      }
      var configured := ValueOr(config, "query", "");
      if configured.Throws? {
        return CreateErrorResponse(DatabaseError + configured.error.what);
      }
      var connection := ValueOr(config, "connection_string", "");
      if connection.Throws? {
        return CreateErrorResponse(DatabaseError + connection.error.what);
      }
      var query := configured.value;
      var rest := JsonItems(params);
      ghost var whole := RewriteQuery(query, rest, dump);
      while rest != []
        invariant RewriteQuery(query, rest, dump) == whole
        decreases |rest|
      {
        var (key, value) := rest[0];
        var placeholder := "{" + key + "}";
        var replacement: string;
        if value.JString? {
          var escaped := EscapeQuotes(value.s);
          replacement := "'" + escaped + "'";
        } else {
          replacement := dump(value);
        }
        query := Executor.ReplaceOne(query, placeholder, replacement);
        rest := rest[1..];
      }
      r := Simulated(dbType.value, query);
    }

    /** The schema loop shared by task and workflow tools, with the tag-to-type mapping of each. */
    method BuildInputSchema(parameters: seq<TaskParameter>, typeName: string -> string) returns (schema: Json)
      ensures schema == InputSchema(parameters, typeName)
    {
      var properties: map<string, Json> := map[];
      var required: seq<Json> := [];
      for i := 0 to |parameters|
        invariant properties == Properties(parameters[..i], typeName)
        invariant required == Required(parameters[..i])
      {
        var param := parameters[i];
        assert parameters[..i + 1][..i] == parameters[..i];
        var paramSchema := JObject(map["description" := JString(param.description),
                                       "type" := JString(typeName(param.typeTag))]);
        properties := properties[param.name := paramSchema];
        if param.required && param.defaultValue.JNull? {
          required := required + [JString(param.name)];
        }
      }
      assert parameters[..|parameters|] == parameters;
      schema := JObject(map["type" := JString("object"), "properties" := JObject(properties)]);
      if required != [] {
        schema := JObject(schema.fields["required" := JArray(required)]);
      }
    }

    /** `create_task_tool`: store the handler for workflows and register the tool. */
    method CreateTaskTool(server: Server.McpServer, task: TaskConfig)
      modifies this, server
      ensures taskRegistry == old(taskRegistry)[task.name := TaskHandler(task, backend, dump)]
      ensures server.State() == old(server.State()).(tools := old(server.tools)[task.name := TaskTool(task, backend, dump)])
      ensures old(server.Valid()) ==> server.Valid()
    {
      var handler := TaskHandler(task, backend, dump);
      taskRegistry := taskRegistry[task.name := handler];
      var schema := BuildInputSchema(task.parameters, TaskTypeName);
      server.AddTool(task.name, task.description + " [Operation: " + task.operationType + "]", schema, handler);
    }

    /** `create_workflow_tool`: register a tool that runs the workflow over the task handlers stored so far. */
    method CreateWorkflowTool(server: Server.McpServer, workflow: WorkflowConfig)
      modifies server
      ensures server.State()
              == old(server.State()).(tools := old(server.tools)[workflow.name := WorkflowTool(workflow, taskRegistry, dump)])
      ensures old(server.Valid()) ==> server.Valid()
    {
      var handler := WorkflowHandler(workflow, taskRegistry, dump);
      var schema := BuildInputSchema(workflow.parameters, WorkflowTypeName);
      var description := workflow.description + " [Workflow with " + Strings.NatToString(|workflow.steps|) + " steps]";
      server.AddTool(workflow.name, description, schema, handler);
    }

    /** `generate_all_tools`: every task's tool, then every workflow's tool. */
    method GenerateAllTools(server: Server.McpServer, tasks: seq<TaskConfig>, workflows: seq<WorkflowConfig>)
      modifies this, server
      ensures taskRegistry == Register(old(taskRegistry), tasks, TaskName, HandlerOf(backend, dump))
      ensures server.State() == old(server.State()).(tools :=
        GeneratedTools(old(server.tools), old(taskRegistry), tasks, workflows, backend, dump))
      ensures old(server.Valid()) ==> server.Valid()
    {
      for i := 0 to |tasks|
        invariant taskRegistry == Register(old(taskRegistry), tasks[..i], TaskName, HandlerOf(backend, dump))
        invariant server.State()
                  == old(server.State()).(tools := Register(old(server.tools), tasks[..i], TaskName, TaskToolOf(backend, dump)))
        invariant old(server.Valid()) ==> server.Valid()
      {
        assert tasks[..i + 1][..i] == tasks[..i];
        CreateTaskTool(server, tasks[i]);
      }
      assert tasks[..|tasks|] == tasks;
      ghost var withTasks := server.tools;
      for i := 0 to |workflows|
        invariant taskRegistry == Register(old(taskRegistry), tasks, TaskName, HandlerOf(backend, dump))
        invariant server.State()
                  == old(server.State()).(tools := Register(withTasks, workflows[..i], WorkflowName,
                                                            WorkflowToolOf(taskRegistry, dump)))
        invariant old(server.Valid()) ==> server.Valid()
      {
        assert workflows[..i + 1][..i] == workflows[..i];
        CreateWorkflowTool(server, workflows[i]);
      }
      assert workflows[..|workflows|] == workflows;
    }
  }
}
