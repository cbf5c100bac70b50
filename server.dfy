/**
 * `MCPServer` as a class: the three registries, the initialized flag and the
 * client information are fields its methods update, and every method is
 * proved against the pure engine of module `Protocol`.
 */
module Server {
  import opened Json
  import Strings
  import opened Protocol

  class McpServer {
    const serverName: string
    const serverVersion: string
    /** `json::dump()`, supplied by the caller. */
    const dump: Dump
    var tools: map<string, Tool>
    var resources: map<string, Resource>
    var prompts: map<string, Prompt>
    var initialized: bool
    var clientInfo: Json

    /** The engine state the fields make up. */
    function State(): Engine
      reads this
    {
      Engine(serverName, serverVersion, tools, resources, prompts, initialized, clientInfo)
    }

    /** Every registry entry sits under its own name (uri for resources). */
    ghost predicate Valid()
      reads this
    {
      KeysMatch(State())
    }

    /** A fresh server: empty registries, not initialized, no client information. */
    constructor(name: string, version: string, dump: Dump)
      ensures State() == Engine(name, version, map[], map[], map[], false, JNull)
      ensures this.dump == dump
      ensures Valid()
    {
      serverName := name;
      serverVersion := version;
      this.dump := dump;
      tools := map[];
      resources := map[];
      prompts := map[];
      initialized := false;
      clientInfo := JNull;
    }

    /** `add_tool`: registers or replaces the tool under `name`; nothing else changes. */
    method AddTool(name: string, description: string, inputSchema: Json, handler: Json -> Outcome<Json>)
      modifies this
      ensures State() == old(State()).(tools := old(tools)[name := Tool(name, description, inputSchema, handler)])
      ensures old(Valid()) ==> Valid()
    {
      tools := tools[name := Tool(name, description, inputSchema, handler)];
    }

    /** `add_resource`: registers or replaces the resource under `uri`; nothing else changes. */
    method AddResource(uri: string, name: string, description: string, mimeType: string,
                       handler: () -> Outcome<string>)
      modifies this
      ensures State() == old(State()).(resources := old(resources)[uri := Resource(uri, name, description, mimeType, handler)])
      ensures old(Valid()) ==> Valid()
    {
      resources := resources[uri := Resource(uri, name, description, mimeType, handler)];
    }

    /** `add_prompt`: registers or replaces the prompt under `name`; nothing else changes. */
    method AddPrompt(name: string, description: string, arguments: Json, handler: Json -> Outcome<Json>)
      modifies this
      ensures State() == old(State()).(prompts := old(prompts)[name := Prompt(name, description, arguments, handler)])
      ensures old(Valid()) ==> Valid()
    {
      prompts := prompts[name := Prompt(name, description, arguments, handler)];
    }

    /** `handle_initialize`: sets the flag, records `clientInfo`, answers with the capabilities. */
    method HandleInitialize(params: Json) returns (result: Json)
      modifies this
      ensures result == InitializeResult(old(State()))
      ensures State() == Initialize(old(State()), params)
    {
      var capabilities := EmptyObject;
      if tools != map[] {
        capabilities := JObject(capabilities.fields["tools" := EmptyObject]);
      }
      if resources != map[] {
        capabilities := JObject(capabilities.fields["resources" :=
          JObject(map["subscribe" := JBool(false), "listChanged" := JBool(false)])]);
      }
      if prompts != map[] {
        capabilities := JObject(capabilities.fields["prompts" := JObject(map["listChanged" := JBool(false)])]);
      }
      assert capabilities == Capabilities(State());
      result := JObject(map[
        "protocolVersion" := JString(ProtocolVersion),
        "capabilities" := capabilities,
        "serverInfo" := JObject(map["name" := JString(serverName), "version" := JString(serverVersion)])]);
      initialized := true;
      if Contains(params, "clientInfo") {
        clientInfo := params.fields["clientInfo"];
      }
    }

    /** `handle_tools_list`: one entry per tool, in the map's ascending key order. */
    method HandleToolsList() returns (result: Json)
      ensures result == ToolsList(tools)
    {
      var keys := Strings.SortedKeys(tools.Keys);
      var items: seq<Json> := [];
      var i := 0;
      while i < |keys|
        invariant 0 <= i <= |keys|
        invariant items == Entries(tools, keys[..i], ToolEntry)
      {
        var tool := tools[keys[i]];
        items := items + [JObject(map[
          "name" := JString(tool.name),
          "description" := JString(tool.description),
          "inputSchema" := tool.inputSchema])];
        EntriesSnoc(tools, keys[..i], keys[i], ToolEntry);
        assert keys[..i + 1] == keys[..i] + [keys[i]];
        i := i + 1;
      }
      assert keys[..i] == keys;
      result := JObject(map["tools" := JArray(items)]);
    }

    /** `handle_resources_list`: one entry per resource, in ascending uri order. */
    method HandleResourcesList() returns (result: Json)
      ensures result == ResourcesList(resources)
    {
      var keys := Strings.SortedKeys(resources.Keys);
      var items: seq<Json> := [];
      var i := 0;
      while i < |keys|
        invariant 0 <= i <= |keys|
        invariant items == Entries(resources, keys[..i], ResourceEntry)
      {
        var resource := resources[keys[i]];
        items := items + [JObject(map[
          "uri" := JString(resource.uri),
          "name" := JString(resource.name),
          "description" := JString(resource.description),
          "mimeType" := JString(resource.mimeType)])];
        EntriesSnoc(resources, keys[..i], keys[i], ResourceEntry);
        assert keys[..i + 1] == keys[..i] + [keys[i]];
        i := i + 1;
      }
      assert keys[..i] == keys;
      result := JObject(map["resources" := JArray(items)]);
    }

    /** `handle_prompts_list`: one entry per prompt, in ascending name order. */
    method HandlePromptsList() returns (result: Json)
      ensures result == PromptsList(prompts)
    {
      var keys := Strings.SortedKeys(prompts.Keys);
      var items: seq<Json> := [];
      var i := 0;
      while i < |keys|
        invariant 0 <= i <= |keys|
        invariant items == Entries(prompts, keys[..i], PromptEntry)
      {
        var prompt := prompts[keys[i]];
        items := items + [JObject(map[
          "name" := JString(prompt.name),
          "description" := JString(prompt.description),
          "arguments" := prompt.arguments])];
        EntriesSnoc(prompts, keys[..i], keys[i], PromptEntry);
        assert keys[..i + 1] == keys[..i] + [keys[i]];
        i := i + 1;
      }
      assert keys[..i] == keys;
      result := JObject(map["prompts" := JArray(items)]);
    }

    /** `handle_message`: the response envelope, with `initialize` the only request that changes state. */
    method HandleMessage(message: Json) returns (response: Json)
      modifies this
      ensures (response, State()) == Respond(old(State()), message, dump)
    {
      if !Contains(message, "jsonrpc") || message.fields["jsonrpc"] != JString("2.0") {
        return ErrorResponse(-1, InvalidRequest, "Invalid JSON-RPC version");
      }
      if !Contains(message, "method") {
        return ErrorResponse(-1, InvalidRequest, "Missing method");
      }
      var meth := GetString(message.fields["method"]);
      if meth.Throws? {
        return ErrorResponse(-1, ParseError, "Parse error: " + meth.error.what);
      }
      var params := if Contains(message, "params") then message.fields["params"] else EmptyObject;
      var id := RequestId(message);
      if id.Throws? {
        return ErrorResponse(-1, ParseError, "Parse error: " + id.error.what);
      }
      if meth.value == "initialize" {
        var result := HandleInitialize(params);
        return SuccessResponse(id.value, result);
      }
      if !initialized {
        return ErrorResponse(id.value, NotInitialized, "Server not initialized");
      }
      var outcome: Outcome<Json>;
      if meth.value == "tools/list" {
        var result := HandleToolsList();
        outcome := Ok(result);
      } else if meth.value == "tools/call" {
        outcome := ToolsCall(tools, params, dump);
      } else if meth.value == "resources/list" {
        var result := HandleResourcesList();
        outcome := Ok(result);
      } else if meth.value == "resources/read" {
        outcome := ResourcesRead(resources, params);
      } else if meth.value == "prompts/list" {
        var result := HandlePromptsList();
        outcome := Ok(result);
      } else if meth.value == "prompts/get" {
        outcome := PromptsGet(prompts, params);
      } else {
        return ErrorResponse(id.value, MethodNotFound, "Method not found: " + meth.value);
      }
      match outcome
      case Ok(result) => response := SuccessResponse(id.value, result);
      case Throws(JsonError(w)) => response := ErrorResponse(-1, ParseError, "Parse error: " + w);
      case Throws(RuntimeError(w)) => response := ErrorResponse(id.value, InternalError, "Internal error: " + w);
    }

    /** One iteration of `run_stdio_loop`: the lines it writes for one input line. */
    method HandleLine(input: string, parse: Parse) returns (written: seq<string>)
      modifies this
      ensures (written, State()) == StdioStep(old(State()), input, parse, dump)
    {
      written := [];
      if input != "" {
        match parse(input)
        case Malformed(_) =>
          written := [dump(ErrorResponse(-1, ParseError, "Parse error"))];
        case Parsed(request) =>
          var response := HandleMessage(request);
          written := [dump(response)];
      }
    }

    /**
     * `run_stdio_loop` over a finite input: one output line per non-empty
     * input line, and the state is that of the engine run over the lines.
     */
    method RunStdioLoop(lines: seq<string>, parse: Parse) returns (out: seq<string>)
      modifies this
      ensures (out, State()) == StdioRun(old(State()), lines, parse, dump)
      ensures |out| == NonEmpty(lines)
    {
      ghost var start := State();
      out := [];
      var i := 0;
      assert lines[0..] == lines;
      assert out + StdioRun(start, lines, parse, dump).0 == StdioRun(start, lines, parse, dump).0;
      while i < |lines|
        invariant 0 <= i <= |lines|
        invariant StdioRun(start, lines, parse, dump)
                  == (out + StdioRun(State(), lines[i..], parse, dump).0, StdioRun(State(), lines[i..], parse, dump).1)
      {
        ghost var before := State();
        ghost var done := out;
        StdioRunUnfold(before, lines, i, parse, dump);
        var written := HandleLine(lines[i], parse);
        out := out + written;
        ghost var after := StdioRun(State(), lines[i + 1..], parse, dump).0;
        assert done + (written + after) == out + after;
        i := i + 1;
      }
      assert lines[i..] == [];
      assert out + [] == out;
      StdioOneResponsePerLine(start, lines, parse, dump);
    }
  }
}
