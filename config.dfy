/**
 * The configuration records of the dynamic server, `parse_parameter`, and
 * the small helpers shared by tasks and workflows: the parameter type check,
 * the schema type names, and the `{success, ...}` response builders.
 */
module Config {
  import opened Json

  /** `TaskParameter`; `typeTag` is the configured type string. */
  datatype TaskParameter = TaskParameter(name: string, typeTag: string, required: bool, description: string,
                                         defaultValue: Json)

  /** `TaskConfig`; `config` is handed to the executor unchanged. */
  datatype TaskConfig = TaskConfig(name: string, description: string, operationType: string, config: Json,
                                   parameters: seq<TaskParameter>)

  /** `WorkflowStep`: both mappings are `std::map`s, so each key occurs once. */
  datatype WorkflowStep = WorkflowStep(name: string, task: string, dependencies: seq<string>,
                                       inputMapping: map<string, string>, outputMapping: map<string, string>)

  datatype WorkflowConfig = WorkflowConfig(name: string, description: string, parameters: seq<TaskParameter>,
                                           steps: seq<WorkflowStep>)

  // ---------------------------------------------------------------- parse_parameter

  /** `param_json[key]` when present and a string, otherwise `fallback`. */
  function StringOr(j: Json, key: string, fallback: string): string
  {
    if Contains(j, key) && j.fields[key].JString? then j.fields[key].s else fallback
  }

  /**
   * `ConfigLoader::parse_parameter`: each field falls back on its own when
   * absent or of the wrong type; a non-object yields all the defaults.
   */
  function ParseParameter(j: Json): (p: TaskParameter)
    ensures !j.JObject? ==> p == TaskParameter("", "string", true, "", JNull)
    ensures Contains(j, "name") && j.fields["name"].JString? ==> p.name == j.fields["name"].s
    ensures !(Contains(j, "name") && j.fields["name"].JString?) ==> p.name == ""
    ensures Contains(j, "type") && j.fields["type"].JString? ==> p.typeTag == j.fields["type"].s
    ensures !(Contains(j, "type") && j.fields["type"].JString?) ==> p.typeTag == "string"
    ensures Contains(j, "required") && j.fields["required"].JBool? ==> p.required == j.fields["required"].b
    ensures !(Contains(j, "required") && j.fields["required"].JBool?) ==> p.required
    ensures Contains(j, "description") && j.fields["description"].JString? ==> p.description == j.fields["description"].s
    ensures !(Contains(j, "description") && j.fields["description"].JString?) ==> p.description == ""
    ensures Contains(j, "default") ==> p.defaultValue == j.fields["default"]
    ensures !Contains(j, "default") ==> p.defaultValue == JNull
  {
    TaskParameter(
      StringOr(j, "name", ""),
      StringOr(j, "type", "string"),
      if Contains(j, "required") && j.fields["required"].JBool? then j.fields["required"].b else true,
      StringOr(j, "description", ""),
      if Contains(j, "default") then j.fields["default"] else JNull)
  }

  /** The configuration object that describes `p` (a null default is written as absent). */
  function RenderParameter(p: TaskParameter): Json
  {
    JObject(map[
      "name" := JString(p.name),
      "type" := JString(p.typeTag),
      "required" := JBool(p.required),
      "description" := JString(p.description)]
      + (if p.defaultValue.JNull? then map[] else map["default" := p.defaultValue]))
  }

  /** Parsing the description of a parameter gives the parameter back. */
  lemma ParseRender(p: TaskParameter)
    ensures ParseParameter(RenderParameter(p)) == p
  {
  }

  /** A parameter description with only a name is a required string parameter without a default. */
  lemma ParseNameOnly(name: string)
    ensures ParseParameter(JObject(map["name" := JString(name)])) == TaskParameter(name, "string", true, "", JNull)
  {
  }

  // ---------------------------------------------------------------- types

  /** `validate_parameter_type`: the configured tag against a value; an unknown tag accepts anything. */
  predicate ValidateParameterType(tag: string, v: Json)
  {
    if tag == "string" || tag == "str" then v.JString?
    else if tag == "integer" || tag == "int" then v.JInt?
    else if tag == "float" || tag == "double" || tag == "number" then v.JInt? || v.JFloat?
    else if tag == "boolean" || tag == "bool" then v.JBool?
    else if tag == "object" then v.JObject?
    else if tag == "array" then v.JArray?
    else true
  }

  /** The tags `validate_parameter_type` knows. */
  const KnownTags: set<string> :=
    {"string", "str", "integer", "int", "float", "double", "number", "boolean", "bool", "object", "array"}

  /** The JSON Schema type a task tool declares for a tag. */
  function TaskTypeName(tag: string): string
  {
    if tag == "integer" || tag == "int" then "number"
    else if tag == "float" || tag == "double" || tag == "number" then "number"
    else if tag == "boolean" || tag == "bool" then "boolean"
    else if tag == "object" then "object"
    else if tag == "array" then "array"
    else "string"
  }

  /** The JSON Schema type a workflow tool declares for a tag: object and array are not recognised. */
  function WorkflowTypeName(tag: string): string
  {
    if tag == "integer" || tag == "int" then "number"
    else if tag == "float" || tag == "double" || tag == "number" then "number"
    else if tag == "boolean" || tag == "bool" then "boolean"
    else "string"
  }

  /** The values a JSON Schema `type` keyword admits. */
  predicate SchemaAdmits(typeName: string, v: Json)
  {
    if typeName == "number" then v.JInt? || v.JFloat?
    else if typeName == "boolean" then v.JBool?
    else if typeName == "object" then v.JObject?
    else if typeName == "array" then v.JArray?
    else if typeName == "string" then v.JString?
    else true
  }

  /**
   * For every known tag the value check is the declared schema type, except
   * that the integer tags are stricter than the "number" they declare.
   */
  lemma ValidationMatchesTaskSchema(tag: string, v: Json)
    requires tag in KnownTags
    ensures ValidateParameterType(tag, v) ==> SchemaAdmits(TaskTypeName(tag), v)
    ensures tag != "integer" && tag != "int" ==> (ValidateParameterType(tag, v) <==> SchemaAdmits(TaskTypeName(tag), v))
  {
  }

  /** An unknown tag accepts every value, though the schema declares "string". */
  lemma UnknownTagAcceptsAnything(tag: string, v: Json)
    requires tag !in KnownTags
    ensures ValidateParameterType(tag, v)
    ensures TaskTypeName(tag) == "string" && WorkflowTypeName(tag) == "string"
  {
  }

  /** The two schema mappings agree except on object and array, which a workflow declares as "string". */
  lemma WorkflowSchemaDiffers(tag: string)
    ensures tag != "object" && tag != "array" ==> WorkflowTypeName(tag) == TaskTypeName(tag)
    ensures tag == "object" || tag == "array" ==> WorkflowTypeName(tag) == "string" != TaskTypeName(tag)
  {
  }

  // ---------------------------------------------------------------- responses

  /** `create_error_response`. */
  function CreateErrorResponse(message: string): Json
  {
    JObject(map["success" := JBool(false), "error" := JString(message)])
  }

  /** `create_success_response`: `data` is included unless it is null. */
  function CreateSuccessResponse(data: Json): Json
  {
    JObject(map["success" := JBool(true)] + (if data.JNull? then map[] else map["data" := data]))
  }

  /**
   * The failure test `execute` applies to every step result: a `success`
   * member that is false. A non-boolean `success` throws.
   */
  function Failed(result: Json): Outcome<bool>
  {
    if !Contains(result, "success") then Ok(false)
    else
      match GetBool(result.fields["success"])
      case Ok(b) => Ok(!b)
      case Throws(x) => Throws(x)
  }

  /** `result.value("error", "Unknown error")`. */
  function ErrorText(result: Json): Outcome<string>
  {
    ValueOr(result, "error", "Unknown error")
  }

  /** An error response is a failure and carries its message. */
  lemma ErrorResponseFails(message: string)
    ensures Failed(CreateErrorResponse(message)) == Ok(true)
    ensures ErrorText(CreateErrorResponse(message)) == Ok(message)
  {
  }

  /** A success response is not a failure and gives back its data (null when there was none). */
  lemma SuccessResponseSucceeds(data: Json)
    ensures Failed(CreateSuccessResponse(data)) == Ok(false)
    ensures var f := CreateSuccessResponse(data).fields;
      ("data" in f <==> !data.JNull?) && ("data" in f ==> f["data"] == data) && f.Keys <= {"success", "data"}
  {
  }

  /** A result without a `success` member never stops a workflow. */
  lemma NoSuccessMemberNeverFails(result: Json)
    requires !Contains(result, "success")
    ensures Failed(result) == Ok(false)
  {
  }
}
