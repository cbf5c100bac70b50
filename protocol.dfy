/**
 * The JSON-RPC 2.0 protocol engine of `MCPServer` as pure functions of the
 * engine state and one message: envelope checks, the
 * Uninitialized -> Initialized rule, routing of the six methods, and the
 * mapping of every failure to an error envelope. The STDIO transport is a
 * fold of the engine over the input lines.
 */
module Protocol {
  import opened Json
  import Strings

  /** A registered tool: its handler either returns a value or throws. */
  datatype Tool = Tool(name: string, description: string, inputSchema: Json, handler: Json -> Outcome<Json>)

  /** A registered resource: its handler takes no argument and produces text or throws. */
  datatype Resource = Resource(uri: string, name: string, description: string, mimeType: string,
                               handler: () -> Outcome<string>)

  /** A registered prompt: its handler maps arguments to messages or throws. */
  datatype Prompt = Prompt(name: string, description: string, arguments: Json, handler: Json -> Outcome<Json>)

  /** Everything `handle_message` reads or writes: server identity, the three registries, the session. */
  datatype Engine = Engine(
    serverName: string,
    serverVersion: string,
    tools: map<string, Tool>,
    resources: map<string, Resource>,
    prompts: map<string, Prompt>,
    initialized: bool,
    clientInfo: Json)

  /** Each registry entry is stored under its own name (uri for resources). */
  ghost predicate KeysMatch(e: Engine)
  {
    && (forall k :: k in e.tools ==> e.tools[k].name == k)
    && (forall k :: k in e.resources ==> e.resources[k].uri == k)
    && (forall k :: k in e.prompts ==> e.prompts[k].name == k)
  }

  const ProtocolVersion: string := "2024-11-05"

  // The error codes of section 5.1 of the JSON-RPC 2.0 specification, plus -32002 for "not initialized".
  const InvalidRequest: int := -32600
  const NotInitialized: int := -32002
  const MethodNotFound: int := -32601
  const InternalError: int := -32603
  const ParseError: int := -32700

  /** The five codes the engine ever answers with. */
  predicate KnownCode(code: int)
  {
    code in {InvalidRequest, NotInitialized, MethodNotFound, InternalError, ParseError}
  }

  /** `create_error_response`. */
  function ErrorResponse(id: int, code: int, message: string): Json
  {
    JObject(map[
      "jsonrpc" := JString("2.0"),
      "id" := JInt(id),
      "error" := JObject(map["code" := JInt(code), "message" := JString(message)])])
  }

  /** `create_success_response`. */
  function SuccessResponse(id: int, result: Json): Json
  {
    JObject(map["jsonrpc" := JString("2.0"), "id" := JInt(id), "result" := result])
  }

  /** What an envelope carries, as a caller reads it. */
  datatype Reply = Success(id: int, result: Json) | Failure(id: int, code: int, message: string)

  function Encode(r: Reply): Json
  {
    match r
    case Success(id, result) => SuccessResponse(id, result)
    case Failure(id, code, message) => ErrorResponse(id, code, message)
  }

  /** Reads a response envelope back; `None` for anything that is not exactly one of the two shapes. */
  function Decode(env: Json): Option<Reply>
  {
    if !env.JObject? then None
    else
      var f := env.fields;
      if !("jsonrpc" in f && f["jsonrpc"] == JString("2.0") && "id" in f && f["id"].JInt?) then None
      else if f.Keys == {"jsonrpc", "id", "result"} then Some(Success(f["id"].i, f["result"]))
      else if f.Keys == {"jsonrpc", "id", "error"} && f["error"].JObject?
              && f["error"].fields.Keys == {"code", "message"}
              && f["error"].fields["code"].JInt? && f["error"].fields["message"].JString? then
        Some(Failure(f["id"].i, f["error"].fields["code"].i, f["error"].fields["message"].s))
      else None
  }

  /** The envelope builders lose nothing: reading an envelope back gives what it was built from. */
  lemma DecodeEncode(r: Reply)
    ensures Decode(Encode(r)) == Some(r)
  {
    match r
    case Success(id, result) =>
      assert SuccessResponse(id, result).fields.Keys == {"jsonrpc", "id", "result"};
    case Failure(id, code, message) =>
      assert ErrorResponse(id, code, message).fields.Keys == {"jsonrpc", "id", "error"};
  }

  /** Every envelope that reads back is exactly the one built from what it carries. */
  lemma EncodeDecode(env: Json)
    requires Decode(env).Some?
    ensures Encode(Decode(env).value) == env
  {
    var f := env.fields;
    if f.Keys == {"jsonrpc", "id", "result"} {
      assert SuccessResponse(f["id"].i, f["result"]).fields == f;
    } else {
      var g := f["error"].fields;
      assert JObject(map["code" := JInt(g["code"].i), "message" := JString(g["message"].s)]).fields == g;
      assert ErrorResponse(f["id"].i, g["code"].i, g["message"].s).fields == f;
    }
  }

  // ---------------------------------------------------------------- initialize

  /** The capabilities object: one key per non-empty registry, each an object. */
  function Capabilities(e: Engine): Json
  {
    var c0: map<string, Json> := map[];
    var c1 := if e.tools != map[] then c0["tools" := EmptyObject] else c0;
    var c2 := if e.resources != map[] then
        c1["resources" := JObject(map["subscribe" := JBool(false), "listChanged" := JBool(false)])]
      else c1;
    var c3 := if e.prompts != map[] then c2["prompts" := JObject(map["listChanged" := JBool(false)])] else c2;
    JObject(c3)
  }

  /** The result of `handle_initialize`. */
  function InitializeResult(e: Engine): Json
  {
    JObject(map[
      "protocolVersion" := JString(ProtocolVersion),
      "capabilities" := Capabilities(e),
      "serverInfo" := JObject(map["name" := JString(e.serverName), "version" := JString(e.serverVersion)])])
  }

  /** The state change of `handle_initialize`: set the flag, record `clientInfo` when given. */
  function Initialize(e: Engine, params: Json): Engine
  {
    e.(initialized := true,
       clientInfo := if Contains(params, "clientInfo") then params.fields["clientInfo"] else e.clientInfo)
  }

  /** The initialize result advertises exactly the non-empty registries, with their fixed shapes. */
  lemma InitializeResultShape(e: Engine)
    ensures InitializeResult(e).fields["protocolVersion"] == JString("2024-11-05")
    ensures InitializeResult(e).fields["serverInfo"]
            == JObject(map["name" := JString(e.serverName), "version" := JString(e.serverVersion)])
    ensures var caps := InitializeResult(e).fields["capabilities"];
      && caps.JObject?
      && caps.fields.Keys <= {"tools", "resources", "prompts"}
      && ("tools" in caps.fields <==> e.tools != map[])
      && ("resources" in caps.fields <==> e.resources != map[])
      && ("prompts" in caps.fields <==> e.prompts != map[])
      && (forall k :: k in caps.fields ==> caps.fields[k].JObject?)
      && ("tools" in caps.fields ==> caps.fields["tools"] == EmptyObject)
      && ("resources" in caps.fields ==>
            caps.fields["resources"] == JObject(map["subscribe" := JBool(false), "listChanged" := JBool(false)]))
      && ("prompts" in caps.fields ==> caps.fields["prompts"] == JObject(map["listChanged" := JBool(false)]))
  {
  }

  // ---------------------------------------------------------------- list methods

  function ToolEntry(t: Tool): Json
  {
    JObject(map["name" := JString(t.name), "description" := JString(t.description), "inputSchema" := t.inputSchema])
  }

  function ResourceEntry(r: Resource): Json
  {
    JObject(map[
      "uri" := JString(r.uri), "name" := JString(r.name),
      "description" := JString(r.description), "mimeType" := JString(r.mimeType)])
  }

  function PromptEntry(p: Prompt): Json
  {
    JObject(map["name" := JString(p.name), "description" := JString(p.description), "arguments" := p.arguments])
  }

  /** The entries of `keys`, in that order: the body of a list handler's loop over a registry. */
  function Entries<T>(m: map<string, T>, keys: seq<string>, entry: T -> Json): seq<Json>
    requires forall k :: k in keys ==> k in m
  {
    seq(|keys|, i requires 0 <= i < |keys| => entry(m[keys[i]]))
  }

  /** Listing one more key appends its entry. */
  lemma EntriesSnoc<T>(m: map<string, T>, keys: seq<string>, k: string, entry: T -> Json)
    requires forall x :: x in keys ==> x in m
    requires k in m
    ensures Entries(m, keys + [k], entry) == Entries(m, keys, entry) + [entry(m[k])]
  {
  }

  /** The result of `handle_tools_list`: the tools in ascending name order. */
  function ToolsList(tools: map<string, Tool>): Json
  {
    JObject(map["tools" := JArray(Entries(tools, Strings.SortedKeys(tools.Keys), ToolEntry))])
  }

  /** The result of `handle_resources_list`: the resources in ascending uri order. */
  function ResourcesList(resources: map<string, Resource>): Json
  {
    JObject(map["resources" := JArray(Entries(resources, Strings.SortedKeys(resources.Keys), ResourceEntry))])
  }

  /** The result of `handle_prompts_list`: the prompts in ascending name order. */
  function PromptsList(prompts: map<string, Prompt>): Json
  {
    JObject(map["prompts" := JArray(Entries(prompts, Strings.SortedKeys(prompts.Keys), PromptEntry))])
  }

  /** Every entry of `m` as an object carrying its key under `field`. */
  predicate KeyedBy<T>(m: map<string, T>, entry: T -> Json, field: string)
  {
    forall k :: k in m ==> entry(m[k]).JObject? && field in entry(m[k]).fields && entry(m[k]).fields[field] == JString(k)
  }

  /** Every element of `a` is the entry of some member of `m`. */
  predicate OnlyEntries<T>(a: seq<Json>, m: map<string, T>, entry: T -> Json)
  {
    forall i :: 0 <= i < |a| ==> exists k :: k in m && a[i] == entry(m[k])
  }

  /** Every member of `m` has its entry somewhere in `a`. */
  predicate AllEntries<T>(a: seq<Json>, m: map<string, T>, entry: T -> Json)
  {
    forall k :: k in m ==> exists i :: 0 <= i < |a| && a[i] == entry(m[k])
  }

  /** The string each element of `a` carries under `field` strictly ascends along `a`. */
  predicate AscendingBy(a: seq<Json>, field: string)
  {
    forall i, j :: 0 <= i < j < |a| ==>
      && a[i].JObject? && field in a[i].fields && a[i].fields[field].JString?
      && a[j].JObject? && field in a[j].fields && a[j].fields[field].JString?
      && Strings.Less(a[i].fields[field].s, a[j].fields[field].s)
  }

  /** `a` lists every entry of `m` exactly once, in strictly ascending order of `field`. */
  predicate ListsExactly<T>(a: seq<Json>, m: map<string, T>, entry: T -> Json, field: string)
  {
    |a| == |m| && OnlyEntries(a, m, entry) && AllEntries(a, m, entry) && AscendingBy(a, field)
  }

  lemma EntriesExact<T>(m: map<string, T>, entry: T -> Json, field: string)
    requires KeyedBy(m, entry, field)
    ensures ListsExactly(Entries(m, Strings.SortedKeys(m.Keys), entry), m, entry, field)
  {
    var keys := Strings.SortedKeys(m.Keys);
    var a := Entries(m, keys, entry);
    assert |a| == |m.Keys| == |m|;
    assert OnlyEntries(a, m, entry) by {
      forall i | 0 <= i < |a|
        ensures exists k :: k in m && a[i] == entry(m[k])
      {
        assert keys[i] in m && a[i] == entry(m[keys[i]]);
      }
    }
    assert AllEntries(a, m, entry) by {
      forall k | k in m
        ensures exists i :: 0 <= i < |a| && a[i] == entry(m[k])
      {
        assert k in keys;
        var i :| 0 <= i < |keys| && keys[i] == k;
        assert a[i] == entry(m[keys[i]]);
      }
    }
    EntriesAscending(m, entry, field);
  }

  lemma EntriesAscending<T>(m: map<string, T>, entry: T -> Json, field: string)
    requires KeyedBy(m, entry, field)
    ensures AscendingBy(Entries(m, Strings.SortedKeys(m.Keys), entry), field)
  {
    var keys := Strings.SortedKeys(m.Keys);
    Strings.SortedKeysAscending(m.Keys);
    var a := Entries(m, keys, entry);
    forall i | 0 <= i < |a|
      ensures a[i].JObject? && field in a[i].fields && a[i].fields[field] == JString(keys[i])
    {
      assert keys[i] in m && a[i] == entry(m[keys[i]]);
    }
    ListedAscending(a, keys, field);
  }

  /** A listing carrying ascending keys under `field` ascends by `field`. */
  lemma ListedAscending(a: seq<Json>, keys: seq<string>, field: string)
    requires Strings.Ascending(keys) && |a| == |keys|
    requires forall i :: 0 <= i < |a| ==> a[i].JObject? && field in a[i].fields && a[i].fields[field] == JString(keys[i])
    ensures AscendingBy(a, field)
  {
  }

  /** `tools/list` lists every registered tool exactly once, in strictly ascending name order. */
  lemma ToolsListExact(tools: map<string, Tool>)
    requires forall k :: k in tools ==> tools[k].name == k
    ensures ListsExactly(ToolsList(tools).fields["tools"].items, tools, ToolEntry, "name")
  {
    assert KeyedBy(tools, ToolEntry, "name") by {
      forall k | k in tools
        ensures ToolEntry(tools[k]).fields["name"] == JString(k)
      {
      }
    }
    assert ToolsList(tools).fields["tools"].items == Entries(tools, Strings.SortedKeys(tools.Keys), ToolEntry);
    EntriesExact(tools, ToolEntry, "name");
  }

  /** `resources/list` lists every resource exactly once, in strictly ascending uri order. */
  lemma ResourcesListExact(resources: map<string, Resource>)
    requires forall k :: k in resources ==> resources[k].uri == k
    ensures ListsExactly(ResourcesList(resources).fields["resources"].items, resources, ResourceEntry, "uri")
  {
    assert KeyedBy(resources, ResourceEntry, "uri") by {
      forall k | k in resources
        ensures ResourceEntry(resources[k]).fields["uri"] == JString(k)
      {
      }
    }
    assert ResourcesList(resources).fields["resources"].items
      == Entries(resources, Strings.SortedKeys(resources.Keys), ResourceEntry);
    EntriesExact(resources, ResourceEntry, "uri");
  }

  /** `prompts/list` lists every prompt exactly once, in strictly ascending name order. */
  lemma PromptsListExact(prompts: map<string, Prompt>)
    requires forall k :: k in prompts ==> prompts[k].name == k
    ensures ListsExactly(PromptsList(prompts).fields["prompts"].items, prompts, PromptEntry, "name")
  {
    assert KeyedBy(prompts, PromptEntry, "name") by {
      forall k | k in prompts
        ensures PromptEntry(prompts[k]).fields["name"] == JString(k)
      {
      }
    }
    assert PromptsList(prompts).fields["prompts"].items == Entries(prompts, Strings.SortedKeys(prompts.Keys), PromptEntry);
    EntriesExact(prompts, PromptEntry, "name");
  }

  // ---------------------------------------------------------------- call methods

  /** `params["arguments"]`, or an empty object when absent. */
  function ArgumentsOf(params: Json): Json
  {
    if Contains(params, "arguments") then params.fields["arguments"] else EmptyObject
  }

  /** One text content block. */
  function TextContent(text: string): Json
  {
    JObject(map["content" := JArray([JObject(map["type" := JString("text"), "text" := JString(text)])])])
  }

  /** `handle_tools_call`: a string result passes through, anything else is serialised. */
  function ToolsCall(tools: map<string, Tool>, params: Json, dump: Dump): Outcome<Json>
  {
    if !Contains(params, "name") then Throws(RuntimeError("Missing 'name' parameter"))
    else
      match GetString(params.fields["name"])
      case Throws(x) => Throws(x)
      case Ok(name) =>
        if name !in tools then Throws(RuntimeError("Tool not found: " + name))
        else
          match tools[name].handler(ArgumentsOf(params))
          case Throws(x) => Throws(RuntimeError("Tool execution failed: " + x.what))
          case Ok(result) => Ok(TextContent(if result.JString? then result.s else dump(result)))
  }

  /** `handle_resources_read`. */
  function ResourcesRead(resources: map<string, Resource>, params: Json): Outcome<Json>
  {
    if !Contains(params, "uri") then Throws(RuntimeError("Missing 'uri' parameter"))
    else
      match GetString(params.fields["uri"])
      case Throws(x) => Throws(x)
      case Ok(uri) =>
        if uri !in resources then Throws(RuntimeError("Resource not found: " + uri))
        else
          match resources[uri].handler()
          case Throws(x) => Throws(RuntimeError("Resource read failed: " + x.what))
          case Ok(content) =>
            Ok(JObject(map["contents" := JArray([JObject(map[
              "uri" := JString(uri),
              "mimeType" := JString(resources[uri].mimeType),
              "text" := JString(content)])])]))
  }

  /** `handle_prompts_get`. */
  function PromptsGet(prompts: map<string, Prompt>, params: Json): Outcome<Json>
  {
    if !Contains(params, "name") then Throws(RuntimeError("Missing 'name' parameter"))
    else
      match GetString(params.fields["name"])
      case Throws(x) => Throws(x)
      case Ok(name) =>
        if name !in prompts then Throws(RuntimeError("Prompt not found: " + name))
        else
          match prompts[name].handler(ArgumentsOf(params))
          case Throws(x) => Throws(RuntimeError("Prompt execution failed: " + x.what))
          case Ok(result) =>
            Ok(JObject(map["description" := JString(prompts[name].description), "messages" := result]))
  }

  /** The six routed methods after initialization; `None` for any other method name. */
  function Dispatch(e: Engine, meth: string, params: Json, dump: Dump): Option<Outcome<Json>>
  {
    if meth == "tools/list" then Some(Ok(ToolsList(e.tools)))
    else if meth == "tools/call" then Some(ToolsCall(e.tools, params, dump))
    else if meth == "resources/list" then Some(Ok(ResourcesList(e.resources)))
    else if meth == "resources/read" then Some(ResourcesRead(e.resources, params))
    else if meth == "prompts/list" then Some(Ok(PromptsList(e.prompts)))
    else if meth == "prompts/get" then Some(PromptsGet(e.prompts, params))
    else None
  }

  const Methods: set<string> :=
    {"tools/list", "tools/call", "resources/list", "resources/read", "prompts/list", "prompts/get"}

  // ---------------------------------------------------------------- handle_message

  /** `message["params"]`, or an empty object when absent. */
  function ParamsOf(message: Json): Json
  {
    if Contains(message, "params") then message.fields["params"] else EmptyObject
  }

  /** `message["id"].get<int>()`, or -1 when absent. */
  function RequestId(message: Json): Outcome<int>
  {
    if Contains(message, "id") then GetInt(message.fields["id"]) else Ok(-1)
  }

  predicate VersionOk(message: Json)
  {
    Contains(message, "jsonrpc") && message.fields["jsonrpc"] == JString("2.0")
  }

  /** `message` passes the envelope checks, names `method` as a string and has a readable `id`. */
  predicate Envelope(message: Json, meth: string, id: int)
  {
    && VersionOk(message)
    && Contains(message, "method")
    && message.fields["method"] == JString(meth)
    && RequestId(message) == Ok(id)
  }

  /** `handle_message`: the response envelope and the engine state afterwards. */
  function Respond(e: Engine, message: Json, dump: Dump): (Json, Engine)
  {
    if !VersionOk(message) then
      (ErrorResponse(-1, InvalidRequest, "Invalid JSON-RPC version"), e)
    else if !Contains(message, "method") then
      (ErrorResponse(-1, InvalidRequest, "Missing method"), e)
    else
      match GetString(message.fields["method"])
      case Throws(x) => (ErrorResponse(-1, ParseError, "Parse error: " + x.what), e)
      case Ok(meth) =>
        match RequestId(message)
        case Throws(x) => (ErrorResponse(-1, ParseError, "Parse error: " + x.what), e)
        case Ok(id) =>
          var params := ParamsOf(message);
          if meth == "initialize" then
            (SuccessResponse(id, InitializeResult(e)), Initialize(e, params))
          else if !e.initialized then
            (ErrorResponse(id, NotInitialized, "Server not initialized"), e)
          else (Answer(id, meth, Dispatch(e, meth, params, dump)), e)
  }

  /**
   * The envelope for a routed request: an unknown method, the result, or a
   * thrown exception (a JSON error loses the id; any other is internal).
   */
  function Answer(id: int, meth: string, d: Option<Outcome<Json>>): Json
  {
    match d
    case None => ErrorResponse(id, MethodNotFound, "Method not found: " + meth)
    case Some(Ok(result)) => SuccessResponse(id, result)
    case Some(Throws(JsonError(w))) => ErrorResponse(-1, ParseError, "Parse error: " + w)
    case Some(Throws(RuntimeError(w))) => ErrorResponse(id, InternalError, "Internal error: " + w)
  }

  /** A missing or wrong `jsonrpc` member is rejected with -32600 and id -1; the state is kept. */
  lemma BadVersionRejected(e: Engine, message: Json, dump: Dump)
    requires !Contains(message, "jsonrpc") || message.fields["jsonrpc"] != JString("2.0")
    ensures Respond(e, message, dump) == (ErrorResponse(-1, -32600, "Invalid JSON-RPC version"), e)
  {
  }

  /** A missing `method` is rejected with -32600 and id -1. */
  lemma MissingMethodRejected(e: Engine, message: Json, dump: Dump)
    requires VersionOk(message) && !Contains(message, "method")
    ensures Respond(e, message, dump) == (ErrorResponse(-1, -32600, "Missing method"), e)
  {
  }

  /** A `method` that is not a string, or an `id` that is not a number, is a parse error with id -1. */
  lemma MalformedFieldsAreParseErrors(e: Engine, message: Json, dump: Dump)
    requires VersionOk(message) && Contains(message, "method")
    requires !message.fields["method"].JString? || RequestId(message).Throws?
    ensures Respond(e, message, dump).1 == e
    ensures var r := Decode(Respond(e, message, dump).0);
      r.Some? && r.value.Failure? && r.value.id == -1 && r.value.code == -32700
  {
    DecodeEncode(Failure(-1, ParseError, "Parse error: " + TypeError302("string", message.fields["method"]).what));
    if message.fields["method"].JString? {
      DecodeEncode(Failure(-1, ParseError, "Parse error: " + RequestId(message).error.what));
    }
  }

  /** Before initialization every method but `initialize` gets -32002 with the request id. */
  lemma NotInitializedGuard(e: Engine, message: Json, meth: string, id: int, dump: Dump)
    requires Envelope(message, meth, id) && meth != "initialize" && !e.initialized
    ensures Respond(e, message, dump) == (ErrorResponse(id, -32002, "Server not initialized"), e)
  {
  }

  /** `initialize` is always accepted, in either state, and (re)sets the flag. */
  lemma InitializeAccepted(e: Engine, message: Json, id: int, dump: Dump)
    requires Envelope(message, "initialize", id)
    ensures Respond(e, message, dump) == (SuccessResponse(id, InitializeResult(e)), Initialize(e, ParamsOf(message)))
    ensures Respond(e, message, dump).1.initialized
    ensures Respond(e, message, dump).1.tools == e.tools
  {
  }

  /** Only `initialize` changes the state, and it changes only the session. */
  lemma OnlyInitializeChangesState(e: Engine, message: Json, dump: Dump)
    ensures var e' := Respond(e, message, dump).1;
      e' == e || exists id :: Envelope(message, "initialize", id) && e' == Initialize(e, ParamsOf(message))
  {
    var e' := Respond(e, message, dump).1;
    if e' != e {
      assert Envelope(message, "initialize", RequestId(message).value);
    }
  }

  /** After initialization an unknown method gets -32601 naming the method, with the request id. */
  lemma UnknownMethodRejected(e: Engine, message: Json, meth: string, id: int, dump: Dump)
    requires Envelope(message, meth, id) && e.initialized
    requires meth != "initialize" && meth !in Methods
    ensures Respond(e, message, dump) == (ErrorResponse(id, -32601, "Method not found: " + meth), e)
  {
  }

  /** Once the envelope is read and the session is initialized, the answer is the dispatched outcome's. */
  lemma Routed(e: Engine, message: Json, meth: string, id: int, dump: Dump)
    requires Envelope(message, meth, id) && meth != "initialize" && e.initialized
    ensures Respond(e, message, dump) == (Answer(id, meth, Dispatch(e, meth, ParamsOf(message), dump)), e)
  {
  }

  /** The three failures of `tools/call` are internal errors carrying the request id. */
  lemma ToolsCallErrors(e: Engine, message: Json, id: int, dump: Dump)
    requires Envelope(message, "tools/call", id) && e.initialized
    ensures var params := ParamsOf(message);
      var response := Respond(e, message, dump).0;
      && (!Contains(params, "name") ==>
            response == ErrorResponse(id, -32603, "Internal error: " + "Missing 'name' parameter"))
      && (Contains(params, "name") && params.fields["name"].JString? && params.fields["name"].s !in e.tools ==>
            response == ErrorResponse(id, -32603, "Internal error: " + ("Tool not found: " + params.fields["name"].s)))
      && (Contains(params, "name") && params.fields["name"].JString? && params.fields["name"].s in e.tools &&
          e.tools[params.fields["name"].s].handler(ArgumentsOf(params)).Throws? ==>
            response == ErrorResponse(id, -32603, "Internal error: " + ("Tool execution failed: "
              + e.tools[params.fields["name"].s].handler(ArgumentsOf(params)).error.what)))
  {
    Routed(e, message, "tools/call", id, dump);
  }

  /** A successful tool call answers with one text block: a string verbatim, anything else dumped. */
  lemma ToolsCallSuccess(e: Engine, message: Json, id: int, name: string, dump: Dump)
    requires Envelope(message, "tools/call", id) && e.initialized
    requires Contains(ParamsOf(message), "name") && ParamsOf(message).fields["name"] == JString(name)
    requires name in e.tools && e.tools[name].handler(ArgumentsOf(ParamsOf(message))).Ok?
    ensures var result := e.tools[name].handler(ArgumentsOf(ParamsOf(message))).value;
      Respond(e, message, dump).0
      == SuccessResponse(id, TextContent(if result.JString? then result.s else dump(result)))
  {
    Routed(e, message, "tools/call", id, dump);
  }

  /** The failures of `resources/read` are internal errors carrying the request id. */
  lemma ResourcesReadErrors(e: Engine, message: Json, id: int, dump: Dump)
    requires Envelope(message, "resources/read", id) && e.initialized
    ensures var params := ParamsOf(message);
      var response := Respond(e, message, dump).0;
      && (!Contains(params, "uri") ==>
            response == ErrorResponse(id, -32603, "Internal error: " + "Missing 'uri' parameter"))
      && (Contains(params, "uri") && params.fields["uri"].JString? && params.fields["uri"].s !in e.resources ==>
            response == ErrorResponse(id, -32603, "Internal error: " + ("Resource not found: " + params.fields["uri"].s)))
      && (Contains(params, "uri") && params.fields["uri"].JString? && params.fields["uri"].s in e.resources &&
          e.resources[params.fields["uri"].s].handler().Throws? ==>
            response == ErrorResponse(id, -32603, "Internal error: " + ("Resource read failed: "
              + e.resources[params.fields["uri"].s].handler().error.what)))
  {
    Routed(e, message, "resources/read", id, dump);
  }

  /** A successful read answers with one entry: the requested uri, its mime type and the text. */
  lemma ResourcesReadSuccess(e: Engine, message: Json, id: int, uri: string, dump: Dump)
    requires Envelope(message, "resources/read", id) && e.initialized
    requires Contains(ParamsOf(message), "uri") && ParamsOf(message).fields["uri"] == JString(uri)
    requires uri in e.resources && e.resources[uri].handler().Ok?
    ensures Respond(e, message, dump).0 == SuccessResponse(id, JObject(map["contents" := JArray([JObject(map[
      "uri" := JString(uri),
      "mimeType" := JString(e.resources[uri].mimeType),
      "text" := JString(e.resources[uri].handler().value)])])]))
  {
    Routed(e, message, "resources/read", id, dump);
  }

  /** The failures of `prompts/get` are internal errors carrying the request id. */
  lemma PromptsGetErrors(e: Engine, message: Json, id: int, dump: Dump)
    requires Envelope(message, "prompts/get", id) && e.initialized
    ensures var params := ParamsOf(message);
      var response := Respond(e, message, dump).0;
      && (!Contains(params, "name") ==>
            response == ErrorResponse(id, -32603, "Internal error: " + "Missing 'name' parameter"))
      && (Contains(params, "name") && params.fields["name"].JString? && params.fields["name"].s !in e.prompts ==>
            response == ErrorResponse(id, -32603, "Internal error: " + ("Prompt not found: " + params.fields["name"].s)))
      && (Contains(params, "name") && params.fields["name"].JString? && params.fields["name"].s in e.prompts &&
          e.prompts[params.fields["name"].s].handler(ArgumentsOf(params)).Throws? ==>
            response == ErrorResponse(id, -32603, "Internal error: " + ("Prompt execution failed: "
              + e.prompts[params.fields["name"].s].handler(ArgumentsOf(params)).error.what)))
  {
    Routed(e, message, "prompts/get", id, dump);
  }

  /** A successful `prompts/get` answers with the stored description and the handler's messages. */
  lemma PromptsGetSuccess(e: Engine, message: Json, id: int, name: string, dump: Dump)
    requires Envelope(message, "prompts/get", id) && e.initialized
    requires Contains(ParamsOf(message), "name") && ParamsOf(message).fields["name"] == JString(name)
    requires name in e.prompts && e.prompts[name].handler(ArgumentsOf(ParamsOf(message))).Ok?
    ensures Respond(e, message, dump).0 == SuccessResponse(id, JObject(map[
      "description" := JString(e.prompts[name].description),
      "messages" := e.prompts[name].handler(ArgumentsOf(ParamsOf(message))).value]))
  {
    Routed(e, message, "prompts/get", id, dump);
  }

  lemma AnswerWellFormed(id: int, meth: string, d: Option<Outcome<Json>>)
    ensures var r := Decode(Answer(id, meth, d));
      && r.Some?
      && (r.value.Failure? ==> KnownCode(r.value.code))
      && (r.value.id == -1 || r.value.id == id)
      && (r.value.Success? ==> r.value.id == id)
  {
    match d
    case None => DecodeEncode(Failure(id, MethodNotFound, "Method not found: " + meth));
    case Some(Ok(result)) => DecodeEncode(Success(id, result));
    case Some(Throws(JsonError(w))) => DecodeEncode(Failure(-1, ParseError, "Parse error: " + w));
    case Some(Throws(RuntimeError(w))) => DecodeEncode(Failure(id, InternalError, "Internal error: " + w));
  }

  /**
   * Every response is exactly one well-formed envelope: a success carrying
   * the request id (-1 when absent), or an error with one of the five codes.
   */
  lemma ResponseWellFormed(e: Engine, message: Json, dump: Dump)
    ensures var r := Decode(Respond(e, message, dump).0);
      && r.Some?
      && (r.value.Failure? ==> KnownCode(r.value.code))
      && (r.value.Success? ==> RequestId(message) == Ok(r.value.id))
      && (r.value.Failure? && r.value.id != -1 ==> RequestId(message) == Ok(r.value.id))
  {
    if !VersionOk(message) {
      DecodeEncode(Failure(-1, InvalidRequest, "Invalid JSON-RPC version"));
    } else if !Contains(message, "method") {
      DecodeEncode(Failure(-1, InvalidRequest, "Missing method"));
    } else {
      match GetString(message.fields["method"])
      case Throws(x) =>
        DecodeEncode(Failure(-1, ParseError, "Parse error: " + x.what));
      case Ok(meth) =>
        match RequestId(message)
        case Throws(x) =>
          DecodeEncode(Failure(-1, ParseError, "Parse error: " + x.what));
        case Ok(id) =>
          var params := ParamsOf(message);
          if meth == "initialize" {
            DecodeEncode(Success(id, InitializeResult(e)));
          } else if !e.initialized {
            DecodeEncode(Failure(id, NotInitialized, "Server not initialized"));
          } else {
            AnswerWellFormed(id, meth, Dispatch(e, meth, params, dump));
          }
    }
  }

  // ---------------------------------------------------------------- STDIO transport

  /** One line of `run_stdio_loop`: empty lines are skipped, unparsable ones answered with -32700. */
  function StdioStep(e: Engine, line: string, parse: Parse, dump: Dump): (seq<string>, Engine)
  {
    if line == "" then ([], e)
    else
      match parse(line)
      case Malformed(_) => ([dump(ErrorResponse(-1, ParseError, "Parse error"))], e)
      case Parsed(message) =>
        var (response, e') := Respond(e, message, dump);
        ([dump(response)], e')
  }

  /** `run_stdio_loop` over a finite input: the lines written and the final engine state. */
  function StdioRun(e: Engine, lines: seq<string>, parse: Parse, dump: Dump): (seq<string>, Engine)
    decreases |lines|
  {
    if lines == [] then ([], e)
    else
      var (out, e1) := StdioStep(e, lines[0], parse, dump);
      var (rest, e2) := StdioRun(e1, lines[1..], parse, dump);
      (out + rest, e2)
  }

  /** One more line of input: the step's output, then the rest of the run. */
  lemma StdioRunUnfold(e: Engine, lines: seq<string>, i: nat, parse: Parse, dump: Dump)
    requires i < |lines|
    ensures var (out, e1) := StdioStep(e, lines[i], parse, dump);
      var (rest, e2) := StdioRun(e1, lines[i + 1..], parse, dump);
      StdioRun(e, lines[i..], parse, dump) == (out + rest, e2)
  {
    assert lines[i..][0] == lines[i];
    assert lines[i..][1..] == lines[i + 1..];
  }

  /** The number of non-empty lines. */
  function NonEmpty(lines: seq<string>): nat
  {
    if lines == [] then 0 else (if lines[0] == "" then 0 else 1) + NonEmpty(lines[1..])
  }

  /** Exactly one response line per non-empty input line: the loop never stops on a bad line. */
  lemma {:induction false} StdioOneResponsePerLine(e: Engine, lines: seq<string>, parse: Parse, dump: Dump)
    ensures |StdioRun(e, lines, parse, dump).0| == NonEmpty(lines)
    decreases |lines|
  {
    if lines != [] {
      var (out, e1) := StdioStep(e, lines[0], parse, dump);
      StdioOneResponsePerLine(e1, lines[1..], parse, dump);
    }
  }

  /** Processing two chunks of input in turn is processing their concatenation. */
  lemma {:induction false} StdioRunAppend(e: Engine, a: seq<string>, b: seq<string>, parse: Parse, dump: Dump)
    ensures var (outA, eA) := StdioRun(e, a, parse, dump);
      var (outB, eB) := StdioRun(eA, b, parse, dump);
      StdioRun(e, a + b, parse, dump) == (outA + outB, eB)
    decreases |a|
  {
    if a == [] {
      assert a + b == b;
      var outB := StdioRun(e, b, parse, dump).0;
      assert [] + outB == outB;
    } else {
      var e1 := StdioStep(e, a[0], parse, dump).1;
      assert (a + b)[0] == a[0];
      assert (a + b)[1..] == a[1..] + b;
      StdioRunAppend(e1, a[1..], b, parse, dump);
      var out := StdioStep(e, a[0], parse, dump).0;
      var outRest := StdioRun(e1, a[1..], parse, dump).0;
      var outB := StdioRun(StdioRun(e1, a[1..], parse, dump).1, b, parse, dump).0;
      assert out + (outRest + outB) == (out + outRest) + outB;
    }
  }

  /** A line that does not parse is answered with the fixed parse-error envelope and changes nothing. */
  lemma StdioMalformedLine(e: Engine, line: string, parse: Parse, dump: Dump)
    requires line != "" && parse(line).Malformed?
    ensures StdioStep(e, line, parse, dump) == ([dump(ErrorResponse(-1, -32700, "Parse error"))], e)
  {
  }
}
