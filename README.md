# mcpcpp core in Dafny

A model of the core of mcpcpp, a C++ server for the Model Context Protocol. The
model has three parts:

- **The protocol engine (`MCPServer`).** It keeps registries of tools,
  resources and prompts. It answers JSON-RPC 2.0 envelopes: `initialize`,
  the three list methods, `tools/call`, `resources/read` and `prompts/get`.
  It also runs the line-by-line STDIO loop.
- **The dynamic tool generator.** It turns task and workflow configurations
  into registered tools. A task handler completes the arguments with
  defaults and dispatches on the operation type. The database executor
  rewrites its query with quoted parameters. A workflow tool resolves its
  steps' dependencies depth-first, then runs the steps in that order,
  templating their inputs from the variables earlier steps published.
- **The SSE transport.** It keeps a table of connections, each with a FIFO
  queue and a liveness flag. It admits streams up to a cap of 20, purges
  dead ones, runs each stream's drain/keepalive/idle loop, and broadcasts
  every POSTed response to every listed queue.

Modules:

| module | file | flavour |
|---|---|---|
| Strings | strings.dfy | `std::map` key order, `std::string::find`, the find/replace loop, `std::to_string` |
| Json | json.dfy | a JSON value type and the nlohmann accessor semantics the core relies on (`contains`, `get<T>`, `operator[]` on null, `value`) |
| Protocol | protocol.dfy | `handle_message` and the STDIO loop as pure functions over an `Engine` state |
| Server | server.dfy | class `McpServer`: the registries and flags as fields, its methods proved equal to `Protocol` |
| Config | config.dfy | the configuration records, `parse_parameter`, `validate_parameter_type`, the two `create_*_response` helpers |
| Resolve | resolve.dfy | `resolve_dependencies` as a functional depth-first search |
| Workflow | workflow.dfy | `replace_variables`, step parameters, publication of results, the workflow run |
| Executor | executor.dfy | class `WorkflowExecutor`: the loops of the workflow executor, proved equal to `Workflow` and `Resolve` |
| Dynamic | dynamic.dfy | the task handler, the database executor, the input schemas and the tools the generator registers |
| Generator | generator.dfy | class `DynamicToolGenerator`: the task registry as a field, each loop a method proved equal to `Dynamic` |
| Sse | sse.dfy | classes `Connection`, `Stream` and `SseTransport`: the connection table, the stream loop and the POST path |

Things outside the model are parameters:

- `json::dump` and `json::parse` are the `Dump` and `Parse` parameters.
- The tool, resource and prompt callbacks are values stored in the registries.
- The non-database executors are one `Backend` parameter.
- The sink of a stream takes an `accepted` count: how many more writes it takes before the client is gone.
- The derived connection id is a `freshId` parameter.

Exceptions are modelled as `Outcome<T>` (`Ok` or `Throws`). They are split
into `json::exception` and other `std::exception`, because the source
catches the two separately.

Three behaviours of the code worth noting:

- The workflow's variable namespace starts empty (`step_results`, src/dynamic_mcp_server.cpp:612). The caller's parameters reach each step only as the base of its parameters (:629), never as variables for templating.
- A broadcast goes to every connection still listed, including inactive ones the purge has not yet removed (src/mcp_sse.cpp:217).
- An idle stream writes a keepalive after its first and second idle periods and closes at the third without writing one (src/mcp_sse.cpp:163-175).

## Model

| member | source | states |
|---|---|---|
| Strings.SortedKeys | src/mcp_server.cpp:107 | lists exactly the keys of the registry, once each; `Strings.SortedKeysAscending` adds that they are in ascending order, the iteration order of `std::map` |
| Strings.SortedKeysAscending | src/mcp_server.cpp:107 | the keys come out in strictly ascending character (code-point) order, which is the byte order `std::map` uses on UTF-8 keys |
| Strings.Items | src/dynamic_mcp_server.cpp:714 | the (key, value) pairs of a map: one per key, each holding that key's value |
| Strings.Find | src/dynamic_mcp_server.cpp:719 | `find(pat, from)`: -1 when no occurrence starts at or after `from`, else the first such occurrence |
| Strings.ReplaceAllAbsent | src/dynamic_mcp_server.cpp:719-722 | replacement leaves a string without the placeholder unchanged |
| Strings.ReplaceAllFirst | src/dynamic_mcp_server.cpp:719-722 | replacement splits at the first occurrence: prefix, replacement, then the rest replaced |
| Strings.ReplacementNotRescanned | src/dynamic_mcp_server.cpp:721 | scanning resumes after the inserted text, so a replacement is never itself rescanned |
| Strings.NatToString | src/dynamic_mcp_server.cpp:888 | `std::to_string` of a count: non-empty, decimal digits only, no leading zero except for 0 |
| Strings.NatToStringValue | src/dynamic_mcp_server.cpp:888 | the digits read back as the number they render |
| Json.TypeName | src/dynamic_mcp_server.cpp:58 | the nlohmann type name used in error texts; "number" exactly for integers and floats |
| Json.GetString | src/mcp_server.cpp:123 | `get<std::string>()` succeeds exactly on strings and returns their text; otherwise a `json::exception` |
| Json.GetBool | src/dynamic_mcp_server.cpp:657 | `get<bool>()` succeeds exactly on booleans; otherwise a `json::exception` |
| Json.ToInt32 | src/mcp_server.cpp:243 | 32-bit wrap-around: the result is in the `int` range, congruent to the input, and the input itself when it fits |
| Json.Truncate | src/mcp_server.cpp:243 | a float converts to `int` by truncation toward zero |
| Json.GetInt | src/mcp_server.cpp:243 | `get<int>()` succeeds on integers, floats and booleans, with 32-bit results; in-range integers are returned as they are; anything else throws a `json::exception` |
| Json.Set | src/dynamic_mcp_server.cpp:768 | `j[key] = v` turns null into a one-member object and updates an object; any other value throws a `json::exception` |
| Json.ValueOr | src/dynamic_mcp_server.cpp:58-60 | `value(key, default)`: the member's string when present, the default when absent, a `json::exception` on a non-object or a non-string member |
| Protocol.DecodeEncode | src/mcp_server.cpp:48-65 | every reply built by the two envelope builders decodes back to itself |
| Protocol.EncodeDecode | src/mcp_server.cpp:48-65 | an envelope that decodes is exactly the one its reply builds |
| Protocol.InitializeResultShape | src/mcp_server.cpp:94-101 | protocol version "2024-11-05", server name and version, and a capability object for each non-empty registry, with those objects written out |
| Protocol.EntriesAscending | src/mcp_server.cpp:107-113 | list entries come out in ascending key order |
| Protocol.EntriesExact | src/mcp_server.cpp:107-113 | a listing holds exactly one entry per registry member, in ascending key order |
| Protocol.ToolsListExact | src/mcp_server.cpp:104-116 | `tools/list` lists every registered tool exactly once, by name, in order |
| Protocol.ResourcesListExact | src/mcp_server.cpp:148-161 | `resources/list` lists every resource exactly once, by URI, in order |
| Protocol.PromptsListExact | src/mcp_server.cpp:191-203 | `prompts/list` lists every prompt exactly once, by name, in order |
| Protocol.BadVersionRejected | src/mcp_server.cpp:233-235 | a missing or wrong `jsonrpc` gets -32600 for id -1 and changes nothing |
| Protocol.MissingMethodRejected | src/mcp_server.cpp:237-239 | a missing `method` gets -32600 for id -1 and changes nothing |
| Protocol.MalformedFieldsAreParseErrors | src/mcp_server.cpp:241-277 | a non-string method, or an id that is neither a number nor a boolean, is a `json::exception`, answered with -32700 for id -1, state unchanged |
| Protocol.NotInitializedGuard | src/mcp_server.cpp:252-254 | before `initialize`, every other method gets -32002 for its id and changes nothing |
| Protocol.InitializeAccepted | src/mcp_server.cpp:246-249 | `initialize` answers with the initialize result and marks the engine initialized, registries untouched |
| Protocol.OnlyInitializeChangesState | src/mcp_server.cpp:230-282 | no message except a well-formed `initialize` changes the engine state |
| Protocol.UnknownMethodRejected | src/mcp_server.cpp:270-272 | an unknown method gets -32601 with its name, state unchanged |
| Protocol.Routed | src/mcp_server.cpp:257-274 | once initialized, a known method is answered by its handler's result or failure |
| Protocol.ToolsCallErrors | src/mcp_server.cpp:118-146 | a missing name, an unknown tool and a throwing tool each give -32603 with the source's message |
| Protocol.ToolsCallSuccess | src/mcp_server.cpp:129-142 | a tool's result is wrapped as one text item: the string itself, or the dump of a non-string |
| Protocol.ResourcesReadErrors | src/mcp_server.cpp:163-188 | a missing URI, an unknown resource and a throwing reader each give -32603 with the source's message |
| Protocol.ResourcesReadSuccess | src/mcp_server.cpp:174-185 | a read returns one content item with the URI, the MIME type and the text |
| Protocol.PromptsGetErrors | src/mcp_server.cpp:205-227 | a missing name, an unknown prompt and a throwing prompt each give -32603 with the source's message |
| Protocol.PromptsGetSuccess | src/mcp_server.cpp:216-224 | a prompt returns its description and the messages its function produced |
| Protocol.AnswerWellFormed | src/mcp_server.cpp:257-280 | a routed answer decodes, uses a known error code, and carries the request id (or -1) |
| Protocol.ResponseWellFormed | src/mcp_server.cpp:230-282 | every response to every message is a well-formed envelope; a success and a non-(-1) failure carry the request's id |
| Protocol.StdioRunUnfold | src/mcp_server.cpp:298-322 | the loop processes the line at position i, then the rest from the state it left |
| Protocol.StdioOneResponsePerLine | src/mcp_server.cpp:302-318 | the loop writes exactly one line per non-empty input line |
| Protocol.StdioRunAppend | src/mcp_server.cpp:298-322 | running two batches of lines one after the other equals running their concatenation |
| Protocol.StdioMalformedLine | src/mcp_server.cpp:315-318 | a line that does not parse writes the bare -32700 "Parse error" envelope and changes nothing |
| Server.McpServer.constructor | src/mcp_server.cpp:9-11 | empty registries, not initialized |
| Server.McpServer.AddTool | src/mcp_server.cpp:16-24 | the tool is stored under its name, replacing any earlier one; nothing else changes |
| Server.McpServer.AddResource | src/mcp_server.cpp:26-36 | the resource is stored under its URI, replacing any earlier one; nothing else changes |
| Server.McpServer.AddPrompt | src/mcp_server.cpp:38-46 | the prompt is stored under its name, replacing any earlier one; nothing else changes |
| Server.McpServer.HandleInitialize | src/mcp_server.cpp:67-102 | returns the initialize result of the state before the call and records the client info |
| Server.McpServer.HandleToolsList | src/mcp_server.cpp:104-116 | the loop builds exactly the `tools/list` result, which `Protocol.ToolsListExact` characterises |
| Server.McpServer.HandleResourcesList | src/mcp_server.cpp:148-161 | the loop builds exactly the `resources/list` result |
| Server.McpServer.HandlePromptsList | src/mcp_server.cpp:191-203 | the loop builds exactly the `prompts/list` result |
| Server.McpServer.HandleMessage | src/mcp_server.cpp:230-282 | the response and the new state are those of `Protocol.Respond`, the engine the lemmas above characterise |
| Server.McpServer.HandleLine | src/mcp_server.cpp:299-321 | one pass of the STDIO loop, as `Protocol.StdioStep` |
| Server.McpServer.RunStdioLoop | src/mcp_server.cpp:295-323 | the whole loop, as `Protocol.StdioRun`, with one output line per non-empty input line |
| Config.ParseParameter | src/dynamic_mcp_server.cpp:574-603 | each of `name`, `type`, `required` and `description` is read when present with the right type, else falls back to "", "string", true or ""; `default` is taken as it is when present, else null |
| Config.ParseRender | src/dynamic_mcp_server.cpp:574-603 | parsing the JSON rendering of a parameter gives back that parameter |
| Config.ParseNameOnly | src/dynamic_mcp_server.cpp:582-592 | a parameter with only a name is a required string with no default |
| Config.ValidationMatchesTaskSchema | src/dynamic_mcp_server.cpp:22-37 | a value valid for a known tag is admitted by the schema type the task tool advertises, and for every tag except the integer ones the converse holds too |
| Config.UnknownTagAcceptsAnything | src/dynamic_mcp_server.cpp:36 | an unknown tag validates every value and is advertised as "string" |
| Config.WorkflowSchemaDiffers | src/dynamic_mcp_server.cpp:858-867 | the workflow schema maps tags as the task schema does, except "object" and "array", which it advertises as "string" |
| Config.ErrorResponseFails | src/dynamic_mcp_server.cpp:39-44 | an error response reads as failed and carries its message |
| Config.SuccessResponseSucceeds | src/dynamic_mcp_server.cpp:46-52 | a success response reads as not failed and has `data` exactly when the data is not null |
| Config.NoSuccessMemberNeverFails | src/dynamic_mcp_server.cpp:657 | a result without `success` never counts as a failed step |
| Resolve.StepMap | src/dynamic_mcp_server.cpp:680-683 | the step map has exactly the step names as keys |
| Resolve.StepMapLastWins | src/dynamic_mcp_server.cpp:681-683 | a duplicated step name maps to the last step with that name |
| Resolve.Visit | src/dynamic_mcp_server.cpp:688-700 | a visit only adds to the visited set, and adds the visited step |
| Resolve.VisitDeps | src/dynamic_mcp_server.cpp:693-697 | after the dependency loop, every dependency that names a step has been visited |
| Resolve.ResolveExactlyOnce | src/dynamic_mcp_server.cpp:679-707 | the order lists every step name exactly once and nothing else |
| Resolve.ResolveRespectsDependencies | src/dynamic_mcp_server.cpp:688-704 | for an acyclic workflow, every step comes after all of its known dependencies |
| Resolve.ResolveCycleExample | src/dynamic_mcp_server.cpp:689-699 | on a two-step cycle the visited check breaks the cycle, giving ["b", "a"] |
| Workflow.Placeholder | src/dynamic_mcp_server.cpp:715 | a placeholder is the name in braces: an opening brace, exactly the name, a closing brace |
| Workflow.ReplaceVariables | src/dynamic_mcp_server.cpp:709-729 | only strings are templated; every other value is returned unchanged |
| Workflow.SubstituteAbsent | src/dynamic_mcp_server.cpp:714-723 | variables whose placeholders do not occur leave the string unchanged |
| Workflow.NoPlaceholderUnchanged | src/dynamic_mcp_server.cpp:709-725 | a string naming no variable comes back as it was |
| Workflow.SingleVariable | src/dynamic_mcp_server.cpp:714-722 | with one variable, every occurrence of its placeholder becomes its rendering (a string's text, otherwise its dump) |
| Workflow.EmptyNamespace | src/dynamic_mcp_server.cpp:709-729 | with no variables, templating is the identity |
| Workflow.SubstitutionChains | src/dynamic_mcp_server.cpp:714-723 | on a two-key example: variables apply in key order to the string already rewritten, so the value of "a" can introduce the placeholder of the later "b" |
| Workflow.SubstitutionDoesNotLookBack | src/dynamic_mcp_server.cpp:714-723 | on a two-key example: the value of "b" introduces the placeholder of the earlier "a", which is not replaced |
| Workflow.MapInputsObject | src/dynamic_mcp_server.cpp:629-635 | on an object, the input mapping overlays each mapped key on the caller's parameters |
| Workflow.OverlayAt | src/dynamic_mcp_server.cpp:632-635 | each key of the overlay is either mapped, with its templated value, or kept from the parameters |
| Workflow.StepParamsOverlay | src/dynamic_mcp_server.cpp:629-635 | a step's parameters are the caller's, with every mapped key set to its templated value |
| Workflow.NullParamsOverlay | src/dynamic_mcp_server.cpp:629-635 | null parameters with a mapping become an object of exactly the mapped keys |
| Workflow.NoMappingPassesParams | src/dynamic_mcp_server.cpp:629 | without an input mapping a step gets the caller's parameters exactly |
| Workflow.StepParamsRejectsScalars | src/dynamic_mcp_server.cpp:634 | mapping into a scalar parameter value throws a `json::exception` |
| Workflow.FirstStepTemplatesLiteral | src/dynamic_mcp_server.cpp:612 | before any step has run the namespace is empty, so mapped templates pass through literally |
| Workflow.Publish | src/dynamic_mcp_server.cpp:654 | the step's full result is published under the step's name |
| Workflow.PublishOutputsSpec | src/dynamic_mcp_server.cpp:647-651 | an output name is published iff some mapped key is present in the result; it takes the value of the last such entry, so among several present keys mapped to one name the last in order wins; other variables are kept |
| Workflow.PublishSpec | src/dynamic_mcp_server.cpp:647-654 | after a step, each other variable is either republished from the result by the output mapping, from the greatest present mapping key that names it, or kept |
| Workflow.FindStep | src/dynamic_mcp_server.cpp:619-620 | `find_if`: found iff some step has the name, and then it is the first such step |
| Workflow.RunStep | src/dynamic_mcp_server.cpp:617-665 | a halting step never reports completion, and has run at most that step |
| Workflow.RunStepsCons | src/dynamic_mcp_server.cpp:617-665 | the run stops at a halting step, and otherwise goes on with the published variables |
| Workflow.RanIsPrefix | src/dynamic_mcp_server.cpp:617-665 | the executed steps are a prefix of the order, all of it when the workflow completes |
| Workflow.ResolvedStepsFound | src/dynamic_mcp_server.cpp:619-624 | every resolved name is found, so "Step not found" cannot happen |
| Workflow.FailingStepStops | src/dynamic_mcp_server.cpp:656-664 | a step reporting `success: false` stops the run with `failed_step`, its error and the results so far, its own included |
| Workflow.TaskNotFoundStops | src/dynamic_mcp_server.cpp:638-641 | a step whose task is not registered stops the run with "Task not found: " + task, before any task of that step or a later one runs |
| Workflow.SucceedingStepContinues | src/dynamic_mcp_server.cpp:644-665 | a step that did not fail publishes and lets the next step run |
| Workflow.ResolvedCount | src/dynamic_mcp_server.cpp:670 | the order has one entry per distinct step name |
| Workflow.CompletedCountsDistinctSteps | src/dynamic_mcp_server.cpp:667-672 | a completed workflow reports success, `workflow` as its name and `steps_executed` equal to the number of distinct step names, having run every resolved step |
| Executor.WorkflowExecutor.constructor | src/dynamic_mcp_server.cpp:607-608 | keeps the registry it is given |
| Executor.WorkflowExecutor.VisitStep | src/dynamic_mcp_server.cpp:688-700 | the recursive visit method computes `Resolve.Visit` |
| Executor.WorkflowExecutor.ResolveDependencies | src/dynamic_mcp_server.cpp:679-707 | the method computes the order `Resolve.ResolveExactlyOnce` and `Resolve.ResolveRespectsDependencies` describe |
| Executor.WorkflowExecutor.ReplaceVariables | src/dynamic_mcp_server.cpp:709-729 | the loop computes `Workflow.ReplaceVariables` |
| Executor.WorkflowExecutor.FindStep | src/dynamic_mcp_server.cpp:619-620 | the search loop finds the first step with the name |
| Executor.WorkflowExecutor.PrepareParams | src/dynamic_mcp_server.cpp:629-635 | the mapping loop computes the step parameters `Workflow.StepParamsOverlay` describes |
| Executor.WorkflowExecutor.WriteMapped | src/dynamic_mcp_server.cpp:633-634 | one mapped key is templated and written |
| Executor.WorkflowExecutor.StoreResults | src/dynamic_mcp_server.cpp:647-654 | the output loop publishes as `Workflow.PublishSpec` describes |
| Executor.WorkflowExecutor.ExecuteStep | src/dynamic_mcp_server.cpp:617-665 | one step's body, as `Workflow.RunStep` |
| Executor.WorkflowExecutor.Execute | src/dynamic_mcp_server.cpp:610-677 | the whole execution, as `Workflow.ExecuteWorkflow` |
| Executor.ReplaceOne | src/dynamic_mcp_server.cpp:718-722 | the find/replace loop replaces every occurrence, left to right, without rescanning |
| Executor.ReplaceStep | src/dynamic_mcp_server.cpp:719-721 | one replacement keeps the loop invariant, with `pos` advanced past the inserted text |
| Executor.FirstFound | src/dynamic_mcp_server.cpp:719 | the occurrence `find` returns is the first one from `pos` |
| Dynamic.RegisterSpec | src/dynamic_mcp_server.cpp:786 | registering a sequence adds exactly the keys listed, each with the value of its last listing; other keys are unchanged |
| Dynamic.ReadyFills | src/dynamic_mcp_server.cpp:762-773 | completed arguments keep every supplied member and add the first default for each missing name |
| Dynamic.ReadyHasDemanded | src/dynamic_mcp_server.cpp:765-773 | completed arguments hold every required parameter without a default |
| Dynamic.MissingIsDemanded | src/dynamic_mcp_server.cpp:769-770 | a reported missing parameter was not supplied and is required without a default |
| Dynamic.SuppliedNeverMissing | src/dynamic_mcp_server.cpp:765-773 | supplying every required parameter without a default rules out the error |
| Dynamic.RaisedOnlyForScalars | src/dynamic_mcp_server.cpp:768 | writing a default only throws when the arguments are neither an object nor null |
| Dynamic.MissingBeforeExecutor | src/dynamic_mcp_server.cpp:770 | a missing parameter is reported before the operation type or executor is consulted |
| Dynamic.UnknownOperationReported | src/dynamic_mcp_server.cpp:776-779 | an unknown operation type gets "Unknown operation type: " and no executor runs |
| Dynamic.KnownOperationExecutes | src/dynamic_mcp_server.cpp:782 | a known non-database operation runs its executor on the completed arguments |
| Dynamic.EscapeAppend | src/dynamic_mcp_server.cpp:71-74 | quote doubling works character by character |
| Dynamic.EscapeRoundTrip | src/dynamic_mcp_server.cpp:70-75 | quote doubling is undone by halving, and leaves every quote paired |
| Dynamic.DatabaseConfigErrors | src/dynamic_mcp_server.cpp:101-102 | a non-object config becomes the 306 "Database error: " response, and a non-string query a "Database error: " response |
| Dynamic.DatabaseDefaults | src/dynamic_mcp_server.cpp:58-60 | an empty config means PostgreSQL and an empty query |
| Dynamic.NullParamsRewriteNothing | src/dynamic_mcp_server.cpp:63 | null parameters leave the query as it is |
| Dynamic.RewriteAbsent | src/dynamic_mcp_server.cpp:63-87 | parameters whose placeholders do not occur leave the query as it is |
| Dynamic.SingleStringParameter | src/dynamic_mcp_server.cpp:64-86 | a string parameter replaces its placeholder with its quote-doubled text in single quotes |
| Dynamic.ArrayParametersPositional | src/dynamic_mcp_server.cpp:63 | every item of an array parameter is keyed by `std::to_string` of its index, whose digits read back as that index |
| Dynamic.ScalarParameterUnnamed | src/dynamic_mcp_server.cpp:63 | a scalar parameter is one item with the empty key, so it fills `{}` |
| Dynamic.RequiredSpec | src/dynamic_mcp_server.cpp:814-816 | `required` lists exactly the names of the required parameters without defaults |
| Dynamic.RequiredEmpty | src/dynamic_mcp_server.cpp:824-826 | the list is empty iff no parameter is required without a default |
| Dynamic.InputSchemaSpec | src/dynamic_mcp_server.cpp:789-826 | the schema is an object type with one property per parameter name (the last one wins), and has `required` iff something is required |
| Dynamic.MissingIsListed | src/dynamic_mcp_server.cpp:770 | a parameter the handler reports missing is listed as required in the advertised schema |
| Dynamic.ListedSuppliedNeverMissing | src/dynamic_mcp_server.cpp:765-773 | a call supplying everything the schema requires never gets the missing-parameter error |
| Dynamic.GeneratedToolsSpec | src/dynamic_mcp_server.cpp:744-754 | after generation, every task and workflow has its tool; the last workflow of a name wins over any task of it, the last task of a name otherwise wins, and a tool whose name no task or workflow uses is kept unchanged |
| Dynamic.WorkflowsSeeAllTasks | src/dynamic_mcp_server.cpp:744-754 | every task is registered before any workflow tool is created |
| Generator.DynamicToolGenerator.constructor | src/dynamic_mcp_server.cpp:733-742 | an empty task registry |
| Generator.DynamicToolGenerator.PrepareArguments | src/dynamic_mcp_server.cpp:762-773 | the defaults loop computes `Dynamic.ApplyDefaults`, which `Dynamic.ReadyFills` and `Dynamic.MissingIsDemanded` describe |
| Generator.DynamicToolGenerator.RunTask | src/dynamic_mcp_server.cpp:758-783 | the handler computes `Dynamic.TaskResponse` |
| Generator.DynamicToolGenerator.EscapeQuotes | src/dynamic_mcp_server.cpp:70-74 | the loop doubles every single quote |
| Generator.DynamicToolGenerator.DatabaseExecute | src/dynamic_mcp_server.cpp:56-104 | the executor computes `Dynamic.DatabaseResult`: the settings, the rewritten query, and the simulated reply |
| Generator.DynamicToolGenerator.BuildInputSchema | src/dynamic_mcp_server.cpp:789-826 | the schema loop computes `Dynamic.InputSchema` |
| Generator.DynamicToolGenerator.CreateTaskTool | src/dynamic_mcp_server.cpp:756-837 | stores the handler in the registry and registers the tool, description suffixed "[Operation: …]" |
| Generator.DynamicToolGenerator.CreateWorkflowTool | src/dynamic_mcp_server.cpp:839-894 | registers the workflow tool, description suffixed "[Workflow with N steps]" |
| Generator.DynamicToolGenerator.GenerateAllTools | src/dynamic_mcp_server.cpp:744-754 | registers all tasks then all workflows, giving the registry and tool table `Dynamic.GeneratedToolsSpec` describes |
| Sse.Connection.constructor | src/mcp_sse.cpp:12-17 | an empty queue, active |
| Sse.ConnectionId | src/mcp_sse.cpp:94-104 | the session id when one is sent, else the fresh id |
| Sse.PurgeSpec | src/mcp_sse.cpp:34-46 | the purge keeps exactly the active connections, is idempotent, never grows the table, and keeps it injective |
| Sse.AdmissionRespectsCap | src/mcp_sse.cpp:84-110 | admitting a stream after the purge never takes the table past 20 |
| Sse.ErasedEvictsSuccessor | src/mcp_sse.cpp:188 | as written, a superseded stream's teardown removes the entry of the connection that replaced it |
| Sse.ReleasedKeepsOthers | src/mcp_sse.cpp:182-189 | the intended teardown removes only the stream's own connection and keeps every other entry |
| Sse.MalformedPost | src/mcp_sse.cpp:224-227 | a body that does not parse gets 400 and a -32700 envelope for id -1; the engine is unchanged |
| Sse.ParsedPost | src/mcp_sse.cpp:203-211 | a parsed body is answered with the engine's serialised response |
| Sse.DrainSpec | src/mcp_sse.cpp:148-160 | the drain writes the queue in FIFO order; on the first refused write it loses that message, keeps the rest queued and marks the connection inactive |
| Sse.StepExtends | src/mcp_sse.cpp:137-177 | a step only appends to the output and only takes messages off the front of the queue |
| Sse.StepIdle | src/mcp_sse.cpp:146-163 | a wake resets the idle counter; a timeout raises it by one |
| Sse.ThirdIdlePeriodEvicts | src/mcp_sse.cpp:161-176 | an idle stream sends two keepalives and is closed at the third timeout, without a third keepalive |
| Sse.RefusedKeepaliveCloses | src/mcp_sse.cpp:170-175 | a refused keepalive ends the stream at once |
| Sse.Stream.constructor | src/mcp_sse.cpp:124 | the stream starts with no output and a zero idle counter |
| Sse.Stream.Begin | src/mcp_sse.cpp:127-135 | at offset 0 the endpoint event is written first, whatever the sink does with it; the idle counter starts at 0 |
| Sse.Stream.Step | src/mcp_sse.cpp:137-177 | one pass of the stream loop, as `Sse.StreamStep`, which the lemmas above characterise |
| Sse.SseTransport.constructor | src/mcp_sse.cpp:26 | an empty table |
| Sse.SseTransport.CleanupStaleConnections | src/mcp_sse.cpp:34-46 | the table becomes its purge |
| Sse.SseTransport.Health | src/mcp_sse.cpp:49-52 | purges the table and answers `{"status":"ok"}` |
| Sse.SseTransport.OpenStream | src/mcp_sse.cpp:55-113 | 406 without the event-stream type (table untouched); else purge, 503 at 20 live connections; else 200 with a fresh connection under the session or fresh id, replacing any entry there |
| Sse.SseTransport.Broadcast | src/mcp_sse.cpp:214-222 | every listed queue gains the message at its end; flags unchanged |
| Sse.SseTransport.HandlePost | src/mcp_sse.cpp:197-233 | status, body and engine state as `Sse.PostReply`; a 200 response is broadcast to every listed queue, a 400 touches none |
| Sse.SseTransport.TeardownAsWritten | src/mcp_sse.cpp:182-192 | marks the connection inactive and erases its id, whatever that id now lists |
| Sse.SseTransport.Teardown | src/mcp_sse.cpp:182-192 | marks the connection inactive and erases its id only while the id still lists it |
| Sse.ReconnectThenStaleTeardown | src/mcp_sse.cpp:94-188 | a reconnect under the same session id, then the first stream's teardown as written: the live second connection is no longer listed |
| Sse.ReconnectThenOwnTeardown | src/mcp_sse.cpp:94-188 | the same sequence with the intended teardown keeps the second connection listed |

## Left out

- Logging to `std::cerr` and `std::cout` flushing: they do not affect results.
- `RestApiExecutor`, `TerminalExecutor`, `FileOperationExecutor` and `DataProcessingExecutor` (src/dynamic_mcp_server.cpp:108-436): they do network, process and file I/O. They are the `Backend` parameter. Only the routing to them is modelled.
- `ConfigLoader::load`, `parse_task` and `parse_workflow` (src/dynamic_mcp_server.cpp:443-572): they read the configuration file. The model starts from the parsed records. `parse_parameter` is modelled.
- `json::parse` and `json::dump` are parameters. The `json::exception` that `dump` raises on strings that are not valid UTF-8 is not modelled, so `dump` is total.
- The POST 500 branch (src/mcp_sse.cpp:228-231): `handle_message` catches every `std::exception` itself, and `dump` is total in the model, so nothing reaches it.
- Threads, mutexes and the condition variable of the SSE transport: every operation is one uninterrupted method call. The interleavings they allow are not modelled, such as a broadcast between the purge and the insertion of a new connection. The ten-second wait is decided by the state of the queue when the stream takes its step. The cap of 20 in `Sse.SseTransport.Valid` and `Sse.AdmissionRespectsCap` therefore holds only for serialised requests: the source checks the cap under one lock (src/mcp_sse.cpp:68-91) and inserts under another (:108-113), so two concurrent GETs at 19 listed connections could both be admitted.
- Sse.SseTransport.OpenStream: the connection id derived from the remote address, the time and `rand()` (src/mcp_sse.cpp:101-103) is the `freshId` parameter. Hash collisions are therefore not modelled.
- Response headers, CORS and the `OPTIONS` handlers (src/mcp_sse.cpp:115-120, 198-201, 238-240, 274-287): they only set headers and status 204.
- Sse.Stream.Step: a write the sink refuses is modelled by the `accepted` budget. Partial writes and `sink.done()` are not modelled.
- The unused `sessions` map and its mutex (src/mcp_sse.cpp:30-31).
- Generator.DynamicToolGenerator.CreateWorkflowTool: the source's `WorkflowExecutor` holds a reference to the live task registry. The model takes the registry as it is when the workflow tool is created. The two agree under `generate_all_tools`, because every task is registered before any workflow (`Dynamic.WorkflowsSeeAllTasks`). They differ only for tasks created after the workflow.
- Json.GetInt: JSON numbers are unbounded integers (`JInt`) and exact reals (`JFloat`), where nlohmann stores `int64_t`, `uint64_t` and `double`; rounding and the limits of those types are not modelled. A float id outside the `int` range makes `get<int>()` (src/mcp_server.cpp:243) undefined behaviour in C++; the model resolves it as truncation followed by a 32-bit wrap. Strings are sequences of Unicode characters, not UTF-8 bytes; key order is code-point order, which agrees with the byte order on valid UTF-8.
- The resource and prompt callbacks are values in the registries. What they compute is outside the model.
- Server.McpServer.HandleLine: `read_stdio_message` and `write_stdio_message` (src/mcp_server.cpp:284-293) are the input and output line sequences. End of input is the end of the sequence.

## Findings

| source | as written | input that shows it | evidently intended | confidence | as-written member | corrected member |
|---|---|---|---|---|---|---|
| src/mcp_sse.cpp:182-189 | the teardown of a stream erases its connection id from the table, whatever connection that id lists by then | GET `/` with `Mcp-Session-Id: s`, a second GET `/` with the same id, then the first stream ends | erase the id only while it still lists this stream's own connection, so a client that reconnected keeps receiving broadcasts | not executed | `Sse.SseTransport.TeardownAsWritten`, `Sse.ReconnectThenStaleTeardown` | `Sse.SseTransport.Teardown`, `Sse.ReconnectThenOwnTeardown` |
