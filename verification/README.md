# Verified models of the Avix client, bridge, cron and agent cores

Avix is an agent operating system: a daemon that runs language-model agents, clients that talk to it over the ATP protocol,
and services such as the MCP bridge and cron. This project models the parts of it that are protocols, state machines and text
transformations, and proves what they promise over every input, every run or every interleaving. Nothing of Avix is executed.

Each file models one component. Code that changes state in place is a class whose methods are proved against specification
functions; the promises are lemmas about those functions. Concurrent code is a state machine whose steps are the stretches of
the source between two points where another task can run; a run is any sequence of enabled steps.

| file | component |
|---|---|
| Dispatcher.dfy | the ATP client's request/reply protocol: concurrent calls and one reader share a map of one-shot channels |
| McpClient.dfy | the MCP client: replies matched by id, other messages buffered, `tools/list` read page by page |
| BridgeRouting.dfy, BridgeRunner.dfy | the MCP bridge: namespaces and routing; start-up, tool calls, health monitor and shutdown over the kernel's set of names |
| AgentLifecycle.dfy | the lifecycle of one agent, fresh or restored |
| CronScheduler.dfy, CronJobs.dfy | due windows over a clock that is read twice per tick; one job's retries, alerts and timeouts |
| Rendering.dfy | placeholder substitution in hash-map order |
| ToolNames.dfy | tool-name mangling, and the list of tools shown to the model |
| AuthTokens.dfy | sessions, tokens, chains of refreshes, revocation |
| Tui.dfy, CommandParser.dfy | the terminal client's reducer and its command line |
| Notifications.dfy, EventEmitter.dfy, EventBridgeGuard.dfy | the client's notification store, reconnecting event source, and event-bridge guard |
| Common.dfy | `Option`, `Result`, and the string replacement of Rust's standard library |

The environment enters as parameters: the outcome of a send or of a health check, clock readings, generated ids, the order in
which a hash map is traversed, what the server writes, how an agent's turn ends. Signing and encoding are functions of which
only the round trip and the absence of dots in the encoded payload are assumed (`AuthTokens.Lawful`). A `None` result of a
specification function called "panic" in its comment is a Rust panic.

Promises that fail in general are proved with the condition under which they hold, beside the inputs that break them; the
condition is exact except for the values of placeholders, where absence of braces is only sufficient:

- "oneshot cancelled" is reached exactly by a call whose id a later call reuses before a reply comes, so distinct ids exclude
  it (`Dispatcher.CancelledIffDisplaced`; `Dispatcher.ReusedIdCancels` is such a run).
- Shutdown of the bridge leaves behind the names whose registration the kernel carried out without the bridge learning of it
  (`BridgeRunner.ShutdownLeavesOnlyLostNames`; `BridgeRunner.LostNameSurvivesShutdown` is such a run).
- The process table agrees with an agent's last status event exactly when no later write of the launcher, a signal handler or
  the kill command to the same entry says otherwise (`AgentLifecycle.TableAgreesIff`;
  `AgentLifecycle.LauncherOverwritesCrash` and `AgentLifecycle.ResumeOverwritesWaiting` are such histories).
- Placeholder substitution can depend on the order of the map when a value contains a brace
  (`Rendering.BraceInValueMakesOrderMatter`, `Rendering.BracesInValueMeet`), and differs from a simultaneous substitution for
  the keys whose placeholder can be pieced together from others, and only for them (`Rendering.KeyIsHarmlessIff`,
  `Rendering.BraceInKeyMatchesAcross`).
- The terminal client's editor goes wrong at the first key that types, deletes or crosses a character wider than one byte, and
  only then (`Tui.ReducerFollowsEditorIff`, `Tui.WideCharacterPanics`).
- Mangling does not round-trip for names with `_/`, which the rule in README.md:414 of the repository allows
  (`ToolNames.RoundTripIffSafe`, `ToolNames.UnderscoreBeforeSlashCollides`).
- A refreshed token can outlive `connected_at + ttl + 8h` by the time between the session check and the reissue
  (`AuthTokens.RefreshedExpiryBound`).
- The event-bridge guard lets a second bridge start on one connection only after an older task has lowered its flag, and then
  the next registration always starts one (`EventBridgeGuard.BridgesAreBounded`,
  `EventBridgeGuard.OlderExitThenRegistrationDuplicates`).

Where code and comments disagree the model follows the code:

- services/mcp-bridge/src/config.rs:57-58 says that a server without mount gets `mcp/github/`; the code gives `github/`.
- crates/avix-core/src/cron_svc/runner.rs:154 marks a job's last run so that it does not fire again; nothing reads the mark
  when jobs become due (`CronScheduler.LastRunIsIgnored`).
- crates/avix-core/src/cron_svc/runner.rs:161 looks reported ids up among crontab ids, but the scheduler reports ids it
  generated; the model keeps both tables (`CronScheduler.DispatchIffSharedId`).
- services/mcp-bridge/src/runner.rs:153-174 re-registers recovered servers; no step of the runner ever reconnects one.
- The 64-bit request counter of the MCP client wraps around, as in a release build.
- crates/avix-client-core/src/atp/event_emitter.rs:62-69 reconnects after the channel of a session closes. The dispatcher lives
  on through the receive loop and holds a sender of that channel (crates/avix-client-core/src/atp/dispatcher.rs:17-21), so it
  never closes: a run of the code has at most one session, which is its last attempt (`EventEmitter.OnlySessionIsTheLast`).
  The other results hold also for runs whose sessions end.

## Model

| member | source | states |
|---|---|---|
| `Dispatcher.StepKeepsInv` | crates/avix-client-core/src/atp/dispatcher.rs:53-115 | one inductive invariant survives every step of calls and reader: pending entries, channels and outcomes are all determined by the history of registrations and arrivals |
| `Dispatcher.OkIsFirstOwnReply` | crates/avix-client-core/src/atp/dispatcher.rs:73-80 | in every state of every run, a call that returned Ok returned the first reply bearing its own id that arrived after it registered |
| `Dispatcher.ReplyCompletesAtMostOneCall` | crates/avix-client-core/src/atp/dispatcher.rs:76-78 | no arrival completes two calls, whatever ids are used |
| `Dispatcher.PendingIsExact` | crates/avix-client-core/src/atp/dispatcher.rs:98-115 | an id is in the map exactly when some call under it has neither a reply nor a successor, including calls that failed to send or timed out |
| `Dispatcher.FirstReplyReachesItsCall` | crates/avix-client-core/src/atp/dispatcher.rs:74-80 | with distinct ids, the first reply to a call always finds its entry and is what a still waiting call then returns |
| `Dispatcher.CancelledIffDisplaced` | crates/avix-client-core/src/atp/dispatcher.rs:111-115 | the "oneshot cancelled" outcome is received exactly by a call whose id a later call reused before any reply came |
| `Dispatcher.ReusedIdCancels` | crates/avix-client-core/src/atp/dispatcher.rs:98-115 | for every id there is a run in which a call is cancelled because its id is reused before a reply |
| `Dispatcher.NeverCancelledWithUniqueIds` | crates/avix-client-core/src/atp/dispatcher.rs:111-115 | with distinct ids that outcome never occurs |
| `Dispatcher.OutcomeIsFinal` | crates/avix-client-core/src/atp/dispatcher.rs:98-115 | what a call returned never changes afterwards and arrivals are only appended |
| `Dispatcher.OutcomeHasItsStep` | crates/avix-client-core/src/atp/dispatcher.rs:103-115 | in every run a call has returned Timeout exactly when its deadline passed, a JSON or WebSocket error exactly when its send failed that way, and a reply or the cancellation exactly when its wait was answered |
| `Dispatcher.StepsComeInOrder` | crates/avix-client-core/src/atp/dispatcher.rs:98-115 | a call is answered or given up only after its command went out, given up only while it has neither a reply nor a successor, and its send fails only before that |
| `Dispatcher.ReaderTakesEverythingBeforeStop` | crates/avix-client-core/src/atp/dispatcher.rs:55-86 | the reader takes every reply and event, in order, before the first end, error or close, skips unparsable and non-text messages, and takes nothing after |
| `Dispatcher.Dispatcher.constructor` | crates/avix-client-core/src/atp/dispatcher.rs:38-56 | an empty map and a running reader, satisfying the invariant |
| `Dispatcher.Dispatcher.BeginCall` | crates/avix-client-core/src/atp/dispatcher.rs:99-100 | registration as a step: a sender stored under the same id is dropped |
| `Dispatcher.Dispatcher.SendCommand` | crates/avix-client-core/src/atp/dispatcher.rs:103-109 | a send failure returns at once and leaves the map entry behind |
| `Dispatcher.Dispatcher.AwaitReply` | crates/avix-client-core/src/atp/dispatcher.rs:111-115 | Timeout exactly for an empty channel, the cancellation exactly for a dropped sender, otherwise a reply with the call's own id; the channel is looked at before the deadline |
| `Dispatcher.Dispatcher.OnReply` | crates/avix-client-core/src/atp/dispatcher.rs:74-80 | the entry is removed and the reply goes into its channel if the call still waits |
| `Dispatcher.Dispatcher.ReaderTask` | crates/avix-client-core/src/atp/dispatcher.rs:53-87 | the loop has exactly the effect of reading the stream item by item |
| `McpClient.DecidedByIdOrError` | services/mcp-bridge/src/client.rs:347-372 | a message is set aside exactly when it has no id, or no error and another id; an error decides the request whatever its id is, and an answer is the message's result |
| `McpClient.RequestFailsAsTold` | services/mcp-bridge/src/client.rs:342-374 | what each failure of a request returns: failed send, read error, server gone, the server's error text or its default, missing result; and what it leaves in buffer and stream |
| `McpClient.ListFailsAsTold` | services/mcp-bridge/src/client.rs:277-289 | what the list returns for a failing request, a page without a tool array and a tool without a name |
| `McpClient.ListPassesPage` | services/mcp-bridge/src/client.rs:259-318 | after a page with a cursor the list goes on with that cursor and puts the page's tools in front |
| `McpClient.ChainIffKeys` | services/mcp-bridge/src/client.rs:259-374 | a chain is, key by key, a sequence of pages that answer consecutive ids with a tool array of named tools, of which exactly the last has no string `nextCursor` |
| `McpClient.ParsesIffNamed` | services/mcp-bridge/src/client.rs:284-289 | a page parses exactly when every tool has a name |
| `McpClient.PagesInOrder` | services/mcp-bridge/src/client.rs:284-308 | tools and set-aside messages of the pages are put one behind the other |
| `McpClient.OnePage` | services/mcp-bridge/src/client.rs:277-304 | a page contributes the tools of its `tools` array and the messages set aside before it |
| `McpClient.ListFollowsChain` | services/mcp-bridge/src/client.rs:259-318 | for every interleaving of set-aside messages, a chain of n pages gives n requests, the concatenation of the pages, and the set-aside messages appended to the buffer in arrival order |
| `McpClient.ListSucceedsOnlyOnChain` | services/mcp-bridge/src/client.rs:259-318 | a list is returned only for a stream that starts with such a chain, which the lemma constructs |
| `McpClient.ListSucceedsIffChain` | services/mcp-bridge/src/client.rs:259-318 | both directions: `list_tools` succeeds exactly on the streams that start with a finished cursor chain and no failed send |
| `McpClient.RequestsFollowCursors` | services/mcp-bridge/src/client.rs:263-276 | one `tools/list` request per page: request i has the i-th consecutive id, and its params are empty for the first page and the cursor that page i-1 named for the others |
| `McpClient.IdsAreConsecutive` | services/mcp-bridge/src/client.rs:225-229 | ids count up by one and repeat only after the 64-bit counter wraps |
| `McpClient.PageKeepsItems` | services/mcp-bridge/src/client.rs:284-304 | a page yields its items in order with the names, descriptions and schemas the server sent, and the defaults where it sent none |
| `McpClient.McpClient.constructor` | services/mcp-bridge/src/client.rs:217-223 | ids start at 1 and the buffer is empty |
| `McpClient.McpClient.TakeId` | services/mcp-bridge/src/client.rs:225-229 | returns the counter and advances it |
| `McpClient.McpClient.RpcRaw` | services/mcp-bridge/src/client.rs:342-374 | the receive loop refines the recursive specification `Rpc`, including send failure, server gone and missing result |
| `McpClient.McpClient.ListTools` | services/mcp-bridge/src/client.rs:259-318 | the pagination loop refines `List` |
| `McpClient.McpClient.ParsePage` | services/mcp-bridge/src/client.rs:284-304 | the loop over one page; the first tool without a name fails the list |
| `McpClient.McpClient.CallTool` | services/mcp-bridge/src/client.rs:321-338 | one `tools/call` request with the name and arguments under a fresh id, answered as `Rpc` says |
| `BridgeRouting.NamesCollideIffOverlap` | services/mcp-bridge/src/runner.rs:377-384 | two servers can own one full name exactly when one namespace is a prefix of the other |
| `BridgeRouting.DefaultNamespacesOverlap` | services/mcp-bridge/src/config.rs:62-64 | without mounts, exactly when the names are equal or one continues the other after a slash |
| `BridgeRouting.SlashFreeNamesDoNotOverlap` | services/mcp-bridge/src/config.rs:62-64 | distinct slash-free names always give prefix-free namespaces |
| `BridgeRouting.SlashFreeServersArePrefixFree` | services/mcp-bridge/src/config.rs:62-64 | so servers with slash-free names and no mounts have prefix-free namespaces |
| `BridgeRouting.NamespaceEndsInSlash` | services/mcp-bridge/src/config.rs:62-78 | every namespace ends in a slash, whatever the mount |
| `BridgeRouting.MountActsAsName` | services/mcp-bridge/src/config.rs:65-76 | a mount `/tools/p`, with or without final slash, acts as a server named p |
| `BridgeRouting.MountLosesLeadingSlashes` | services/mcp-bridge/src/config.rs:65-76 | any other mount gives itself without its leading slashes and with one slash at the end |
| `BridgeRouting.RouteFindsOwner` | services/mcp-bridge/src/runner.rs:377-384 | the search returns an owner if there is one, for any order of the map |
| `BridgeRouting.OwnerIsUnique` | services/mcp-bridge/src/runner.rs:377-384 | prefix-free namespaces give every name at most one owner |
| `BridgeRouting.RouteIgnoresOrder` | services/mcp-bridge/src/runner.rs:377-384 | with prefix-free namespaces `ns + raw` goes to its server in every map order and leaves exactly `raw` |
| `BridgeRouting.OverlapMakesOrderMatter` | services/mcp-bridge/src/runner.rs:377-384 | if two namespaces overlap, some name goes to either server depending on the order |
| `BridgeRouting.FindServer` | services/mcp-bridge/src/runner.rs:377-384 | the search loop computes that owner |
| `BridgeRunner.StartEstablishesInv` | services/mcp-bridge/src/runner.rs:229-304 | start-up establishes the invariant for every outcome of connecting, discovering and registering |
| `BridgeRunner.StepKeepsInv` | services/mcp-bridge/src/runner.rs:113-196 | every step of calls, monitor and shutdown keeps the invariant and undoes nothing that is settled |
| `BridgeRunner.DegradedIsAbsorbing` | services/mcp-bridge/src/connection.rs:64-115 | in every run a degraded server stays degraded with the tools it had, and names added, recorded or lost never change after start |
| `BridgeRunner.FinishedCallTells` | services/mcp-bridge/src/connection.rs:87-115 | in every run a tool call succeeds, and leaves its server connected, exactly when the server is connected and answers; no other server or call changes |
| `BridgeRunner.CheckTells` | services/mcp-bridge/src/connection.rs:64-80 | in every run a health check caches exactly the tools a connected server lists, degrades one that does not answer, and leaves a degraded one alone |
| `BridgeRunner.MonitorTells` | services/mcp-bridge/src/runner.rs:122-193 | a round visits every server, notes what it sees, and goes on to remove names exactly when a server seen connected fails its check |
| `BridgeRunner.RemovalIsExact` | services/mcp-bridge/src/runner.rs:175-191 | a removal takes exactly the namespaced names of the failed server's cached tools out of the kernel |
| `BridgeRunner.ShutdownTells` | services/mcp-bridge/src/runner.rs:444-465 | shutdown asks once; carried out, the request takes exactly the recorded names out of the kernel, refused it changes nothing; the monitor is stopped only after that and does nothing from then on |
| `BridgeRunner.StartKeepsServers` | services/mcp-bridge/src/runner.rs:233-275 | after start-up exactly the servers whose tools are acknowledged, empty or could not be listed are kept, connected with their tools or degraded without |
| `BridgeRunner.StartRegisters` | services/mcp-bridge/src/runner.rs:229-304 | after start-up the kernel holds what it held and the tools and meta-tools it did not reject, and the bridge's list those acknowledged |
| `BridgeRunner.ReregisterNeverFires` | services/mcp-bridge/src/runner.rs:153-174 | the re-register branch is unreachable in every run |
| `BridgeRunner.ShutdownLeavesOnlyLostNames` | services/mcp-bridge/src/runner.rs:444-465 | after an applied removal exactly the names remain whose acknowledgement was lost at start and which nothing else recorded or removed; with none lost, nothing remains, although the monitor still runs |
| `BridgeRunner.LostNameSurvivesShutdown` | services/mcp-bridge/src/runner.rs:241-261 | for every server and tool there is a run in which a name whose acknowledgement was lost is still registered after an applied shutdown |
| `BridgeRunner.ConnectedKeepsItsNames` | services/mcp-bridge/src/runner.rs:131-193 | with prefix-free namespaces a connected server keeps every name registered at start until shutdown, under any interleaving |
| `BridgeRunner.OverlapLosesNames` | services/mcp-bridge/src/runner.rs:175-191 | for any overlapping pair there is a run in which one server's failure removes a name of the other while that one is connected |
| `BridgeRunner.UnwatchedFailureLeavesNames` | services/mcp-bridge/src/connection.rs:101-114 | a server that degrades by a failed tool call between health checks keeps its names registered: no later step before shutdown removes them |
| `BridgeRunner.FailedCallLeavesNames` | services/mcp-bridge/src/connection.rs:101-114 | in particular a tool call that fails between health checks degrades its server for good and leaves its names registered until shutdown |
| `BridgeRunner.CallsGoToTheirOwner` | services/mcp-bridge/src/runner.rs:363-421 | every answered call was a meta-tool, had no owner, or was forwarded to an owner under exactly the raw name; "unavailable" and "wrong namespace" are unreachable |
| `BridgeRunner.Bridge.constructor` | services/mcp-bridge/src/runner.rs:229-304 | the start-up loop computes `Start` and establishes the invariant |
| `BridgeRunner.Bridge.RegisterTools` | services/mcp-bridge/src/runner.rs:25-75 | one add request; an empty list succeeds without a request |
| `BridgeRunner.Bridge.RouteRequest` | services/mcp-bridge/src/runner.rs:369-396 | meta-tools first, then the owner by namespace |
| `BridgeRunner.Bridge.ForwardRequest` | services/mcp-bridge/src/connection.rs:87-115 | the namespace is stripped; a failure degrades the connection, a degraded one fails without asking |
| `BridgeRunner.Bridge.CheckServer` | services/mcp-bridge/src/connection.rs:64-80 | the health check caches new tools or degrades the connection |
| `BridgeRunner.Bridge.DecideServer` | services/mcp-bridge/src/runner.rs:152-193 | a server seen healthy and then failing loses its cached names; recovery is never seen |
| `BridgeRunner.Bridge.RemoveServerNames` | services/mcp-bridge/src/runner.rs:78-109 | the removal of one server's names |
| `BridgeRunner.Bridge.RemoveRecorded` | services/mcp-bridge/src/runner.rs:449-459 | shutdown's removal leaves none of the bridge's names when no acknowledgement was lost |
| `Rendering.Render` | crates/avix-core/src/agent_manifest/resolver.rs:115-121 | the loop applies the replacements one after another in the order given |
| `Rendering.DoubleWrapsSingle` | crates/avix-core/src/agent_manifest/resolver.rs:118-118 | a manifest placeholder is a cron placeholder with one more brace on either side |
| `Rendering.ReplaceFills` | crates/avix-core/src/agent_manifest/resolver.rs:118-118 | on a template of closed, unnested placeholders, replacing a harmless key fills exactly that key's placeholders |
| `Rendering.KeyIsHarmlessIff` | crates/avix-core/src/agent_manifest/resolver.rs:117-119 | a key is replaced that way in every template and by every value exactly when it has no brace or its own placeholder is not closed text |
| `Rendering.ReplaceIgnores` | crates/avix-core/src/agent_manifest/resolver.rs:118-118 | a placeholder that is not closed text never matches in closed text |
| `Rendering.OrderDoesNotMatter` | crates/avix-core/src/cron_svc/runner.rs:68-79 | for harmless keys and brace-free values every order equals one simultaneous substitution, for both brace styles |
| `Rendering.UnknownPlaceholdersStay` | crates/avix-core/src/cron_svc/runner.rs:65-79 | a placeholder without a value comes through unchanged at its place in every order, whatever is filled around it |
| `Rendering.AnyTwoOrdersAgree` | crates/avix-core/src/agent_manifest/resolver.rs:115-121 | on closed text any two orders of the map render alike |
| `Rendering.ClosedHasSegments` | crates/avix-core/src/agent_manifest/resolver.rs:115-121 | every text whose braces form closed, unnested placeholders is a written template |
| `Rendering.SegmentsAreClosed` | crates/avix-core/src/agent_manifest/resolver.rs:115-121 | and every written template is such a text |
| `Rendering.BraceInValueMakesOrderMatter` | crates/avix-core/src/agent_manifest/resolver.rs:117-119 | for any two keys, a value that spells the other placeholder makes the order decide the result |
| `Rendering.BracesInValueMeet` | crates/avix-core/src/agent_manifest/resolver.rs:117-119 | so does, for any two keys, a value without any placeholder whose end and next beginning enclose one |
| `Rendering.BraceInKeyMatchesAcross` | crates/avix-core/src/agent_manifest/resolver.rs:117-119 | a key with braces can match across two placeholders |
| `CronScheduler.NextAfterIsLeast` | crates/avix-core/src/cron_svc/scheduler.rs:26-31 | the next run is the least fire instant strictly after the given time, and none exactly when no such instant is left |
| `CronScheduler.DueIffFiresInWindow` | crates/avix-core/src/cron_svc/scheduler.rs:100-114 | a job is due exactly when it is enabled and fires after `since` and no later than now |
| `CronScheduler.LastRunIsIgnored` | crates/avix-core/src/cron_svc/scheduler.rs:92-114 | marking a job as run does not change when it is due |
| `CronScheduler.FireInOneOrTwoWindows` | crates/avix-core/src/cron_svc/runner.rs:144-173 | with a nondecreasing clock every instant from the start to the latest tick lies in its tick's window and otherwise only in the window before, exactly when it falls between that tick's two clock reads |
| `CronScheduler.NoFiringMissed` | crates/avix-core/src/cron_svc/runner.rs:144-173 | every firing of an enabled job is reported by the tick that follows it |
| `CronScheduler.FiringReportedTwiceIff` | crates/avix-core/src/cron_svc/runner.rs:147-172 | a firing of any schedule whose other firings miss the two windows concerned is reported by its own tick, and by the tick before exactly when it falls between that tick's two clock reads |
| `CronScheduler.SingleFiringReportedTwiceIff` | crates/avix-core/src/cron_svc/runner.rs:147-172 | a job that fires once is reported by two ticks exactly when that firing falls between the two clock reads of a tick other than the last |
| `CronScheduler.TablesHaveKeys` | crates/avix-core/src/cron_svc/runner.rs:100-127 | the runner's table is keyed by crontab ids, the scheduler's by generated ids |
| `CronScheduler.EveryEntryIsScheduled` | crates/avix-core/src/cron_svc/scheduler.rs:62-72 | with distinct generated ids every crontab entry is scheduled under its own |
| `CronScheduler.LastEntryIsKept` | crates/avix-core/src/cron_svc/runner.rs:110-119 | of entries with one id the runner keeps the last |
| `CronScheduler.MarkIsLastDueTick` | crates/avix-core/src/cron_svc/runner.rs:153-159 | after any ticks the mark of a job is the clock read of the last tick that found it due |
| `CronScheduler.DispatchIffSharedId` | crates/avix-core/src/cron_svc/runner.rs:153-170 | a tick dispatches an id exactly when it is a generated id, also a crontab id, and the job scheduled under it is due |
| `CronScheduler.DisjointIdsDispatchNothing` | crates/avix-core/src/cron_svc/runner.rs:144-173 | so when no generated id is a crontab id no run dispatches anything |
| `CronScheduler.CronScheduler.constructor` | crates/avix-core/src/cron_svc/scheduler.rs:45-50 | no jobs |
| `CronScheduler.CronScheduler.AddJob` | crates/avix-core/src/cron_svc/scheduler.rs:52-73 | an invalid expression is refused and changes nothing; otherwise an enabled job is stored under the generated id |
| `CronScheduler.CronScheduler.RemoveJob` | crates/avix-core/src/cron_svc/scheduler.rs:75-80 | removes the job or reports it missing |
| `CronScheduler.CronScheduler.UpdateLastRun` | crates/avix-core/src/cron_svc/scheduler.rs:92-97 | changes only the mark of that job |
| `CronScheduler.CronScheduler.DueJobs` | crates/avix-core/src/cron_svc/scheduler.rs:100-114 | exactly the due jobs, each once |
| `CronScheduler.CronRunner.FromCrontab` | crates/avix-core/src/cron_svc/runner.rs:100-127 | fails exactly on an invalid schedule; otherwise builds the two tables |
| `CronScheduler.CronRunner.Run` | crates/avix-core/src/cron_svc/runner.rs:144-173 | over any ticks, each report is exact for its window, its dispatches are the reported ids the runner keeps, once each, and the jobs end up with exactly the marks of their last due ticks |
| `CronScheduler.CronRunner.OnTick` | crates/avix-core/src/cron_svc/runner.rs:147-172 | the report and the marks of one tick |
| `CronScheduler.CronRunner.FireAll` | crates/avix-core/src/cron_svc/runner.rs:153-170 | every due id is marked, those in the runner's table are dispatched once |
| `CronJobs.AttemptsIff` | crates/avix-core/src/cron_svc/runner.rs:186-236 | the number of attempts written out: one without Retry; under Retry up to and including the first success within max(1, max_attempts), or that many |
| `CronJobs.AttemptsAreDetermined` | crates/avix-core/src/cron_svc/runner.rs:181-246 | so it is determined by the outcomes |
| `CronJobs.RunJob` | crates/avix-core/src/cron_svc/runner.rs:181-246 | the loop ends for every sequence of outcomes with that number of attempts, again written out, and exactly the specified effects, rendering the goal for each attempt |
| `CronJobs.SpawnsRenderedGoal` | crates/avix-core/src/cron_svc/runner.rs:197-203 | every spawn carries the goal with the job's arguments filled in and the job's timeout |
| `CronJobs.ExecuteOnce` | crates/avix-core/src/cron_svc/runner.rs:249-274 | status and effects of one attempt: spawn error, exit, or stop on timeout |
| `CronJobs.SpawnsAndAlerts` | crates/avix-core/src/cron_svc/runner.rs:213-244 | one spawn per attempt, and one alert exactly when the policy is not Ignore and every allowed attempt failed |
| `CronJobs.AlertTellsWhy` | crates/avix-core/src/cron_svc/runner.rs:222-236 | the alert is the last effect and names the job, the reason of the last attempt and, under Retry, max(1, max_attempts) |
| `CronJobs.PausesBeforeRetries` | crates/avix-core/src/cron_svc/runner.rs:237-239 | every attempt but the first is spawned directly behind one pause of the configured length |
| `CronJobs.PausesAreExact` | crates/avix-core/src/cron_svc/runner.rs:237-239 | there are no other pauses |
| `CronJobs.EachAttemptSpawnsOnce` | crates/avix-core/src/cron_svc/runner.rs:194-212 | every attempt is spawned exactly once |
| `CronJobs.StopsAreExact` | crates/avix-core/src/cron_svc/runner.rs:260-273 | an agent is stopped exactly once if it timed out and never otherwise |
| `CronJobs.JobRunsOneAtATime` | crates/avix-core/src/cron_svc/runner.rs:194-246 | at every spawn all earlier attempts have exited or been stopped, and nothing is left unresolved at the end |
| `AgentLifecycle.LoopTraceHasShape` | crates/avix-core/src/bootstrap/executor_factory.rs:282-347 | every trace of the turn loop is (running waiting)^n followed by an open turn, nothing, or crash and exit; it crashes exactly when killed after a failed turn |
| `AgentLifecycle.TaskTraceHasShape` | crates/avix-core/src/bootstrap/executor_factory.rs:143-275 | every task, fresh or restored, wherever it blocks or ends, has emitted its entry event and then a failed spawn, nothing, or a loop trace |
| `AgentLifecycle.EndedTracesAreInLanguage` | crates/avix-core/src/bootstrap/executor_factory.rs:143-275 | every ended task emitted a trace of the fresh or the restored language |
| `AgentLifecycle.EveryShapeOccurs` | crates/avix-core/src/bootstrap/executor_factory.rs:282-347 | every number of rounds, with or without crash, is the trace of some environment |
| `AgentLifecycle.GoalsRunInOrder` | crates/avix-core/src/bootstrap/executor_factory.rs:292-347 | the goals the loop runs are the first one and then each received goal once, in order, up to the kill |
| `AgentLifecycle.TaskGoalsRunInOrder` | crates/avix-core/src/bootstrap/executor_factory.rs:236-275 | the same for the whole task on both entry paths and at every position |
| `AgentLifecycle.TaskEmits` | crates/avix-core/src/bootstrap/executor_factory.rs:143-275 | the interleaved events and table writes of a task contain exactly its trace |
| `AgentLifecycle.TaskWritesStatus` | crates/avix-core/src/bootstrap/executor_factory.rs:294-341 | wherever an agent task blocks or ends, its own last write to the table is the status its last status event announced |
| `AgentLifecycle.EntryIsLastWrite` | crates/avix-core/src/process/table.rs:38-47 | in every history the shared entry holds the last late write of others, else the own last write, else its first value |
| `AgentLifecycle.TableAgreesIff` | crates/avix-core/src/bootstrap/executor_factory.rs:143-347 | under every interleaving with the writes of the launcher, the signal handlers and the kill command, the entry shows the last status event exactly when nobody wrote to it after the own last write or the last who did wrote that status |
| `AgentLifecycle.LauncherOverwritesCrash` | crates/avix-core/src/kernel/proc/agent.rs:197-202 | a failed spawn followed by the launcher's write leaves the entry running while the last event says crashed |
| `AgentLifecycle.ResumeOverwritesWaiting` | crates/avix-core/src/kernel/proc/signals.rs:140-143 | resuming a waiting agent leaves the entry running while the last event says waiting |
| `AgentLifecycle.LateWriteStays` | crates/avix-core/src/kernel/ipc_server.rs:842-846 | a late write stays in the entry until the agent task's next own write or another write to it |
| `AgentLifecycle.AgentTask.constructor` | crates/avix-core/src/bootstrap/executor_factory.rs:143-145 | a task that has done nothing yet |
| `AgentLifecycle.AgentTask.LetOthersWrite` | crates/avix-core/src/kernel/proc/signals.rs:75-78 | writes of others change the table and nothing else of it |
| `AgentLifecycle.AgentTask.WriteFor` | crates/avix-core/src/process/table.rs:38-47 | one write of another party, recorded in order; the table stays what the recorded acts make it |
| `AgentLifecycle.AgentTask.WriteOwn` | crates/avix-core/src/process/table.rs:38-47 | one own write, recorded in order; an unknown pid is left out |
| `AgentLifecycle.AgentTask.EmitEvent` | crates/avix-core/src/bootstrap/executor_factory.rs:294-294 | one event, with writes of others before it |
| `AgentLifecycle.AgentTask.SetStatus` | crates/avix-core/src/process/table.rs:38-47 | one own write, with writes of others before it |
| `AgentLifecycle.AgentTask.Announce` | crates/avix-core/src/bootstrap/executor_factory.rs:294-295 | an event and then its write |
| `AgentLifecycle.AgentTask.DieAfterFailedTurn` | crates/avix-core/src/bootstrap/executor_factory.rs:336-341 | the crash of a task killed after a failed turn |
| `AgentLifecycle.AgentTask.DieUnspawned` | crates/avix-core/src/bootstrap/executor_factory.rs:184-187 | the crash of a task whose executor does not spawn |
| `AgentLifecycle.AgentTask.OneTurn` | crates/avix-core/src/bootstrap/executor_factory.rs:293-345 | one round: its acts, the goal run and recorded, and where it stops |
| `AgentLifecycle.AgentTask.RunTurnLoop` | crates/avix-core/src/bootstrap/executor_factory.rs:282-347 | the loop's acts, goals and position as functions of the environment |
| `AgentLifecycle.AgentTask.RunRestored` | crates/avix-core/src/bootstrap/executor_factory.rs:207-255 | a restored task waits for a goal before its first turn |
| `AgentLifecycle.AgentTask.RunTask` | crates/avix-core/src/bootstrap/executor_factory.rs:143-275 | the whole task, with the signal channel registered exactly while it lives on |
| `AgentLifecycle.AgentTask.SettleTable` | crates/avix-core/src/bootstrap/executor_factory.rs:143-347 | after all writes of others the entry agrees with the last status event exactly as above |
| `AgentLifecycle.AgentTask.Launch` | crates/avix-core/src/bootstrap/executor_factory.rs:143-275 | trace, goals, position, signal channel and the exact condition for the table to agree |
| `ToolNames.RoundTripIffSafe` | crates/avix-core/src/types/tool.rs:23-30 | leftmost unmangling undoes mangling exactly for names with neither `__` nor `_/` |
| `ToolNames.MangleIsInjectiveOnSafe` | crates/avix-core/src/types/tool.rs:23-25 | mangling is injective on those names |
| `ToolNames.UnderscoreBeforeSlashCollides` | crates/avix-core/src/router/mangle.rs:14-24 | `x_/y` and `x/_y` always have the same wire name |
| `ToolNames.UnmangledHasNoDouble` | crates/avix-core/src/types/tool.rs:27-30 | an unmangled name never contains `__` and is empty only for the empty wire name |
| `ToolNames.NameParsesIff` | crates/avix-core/src/types/tool.rs:7-21 | a tool name is refused exactly when it is empty or contains `__`, each with its own error |
| `ToolNames.DispatchUndoesMangling` | crates/avix-core/src/executor/stop_reason.rs:31-34 | so the fallback is reached only for the empty name, and a call comes back under its own name exactly when that is safe |
| `ToolNames.ToolCallsRoundTrip` | crates/avix-core/src/executor/stop_reason.rs:25-43 | calls for safe names are dispatched as meant, in order, whatever other blocks the reply has |
| `ToolNames.FinishedTurnJoinsText` | crates/avix-core/src/executor/stop_reason.rs:16-24 | a finished turn returns the texts of the blocks in order, skipping blocks without text |
| `ToolNames.ToolTurnDispatches` | crates/avix-core/src/executor/stop_reason.rs:25-44 | a tool turn dispatches one call per tool use, in order, under the unmangled name, with empty text for a missing id or name; a reply cut off by the limit asks for a summary |
| `ToolManager.RemovedIsExact` | crates/avix-core/src/executor/tool_manager.rs:87-99 | over every run the removed list is duplicate-free and holds exactly the tools whose latest added/removed change was "removed" |
| `ToolManager.VisibleIsExact` | crates/avix-core/src/executor/tool_manager.rs:64-79 | the current list is exactly the descriptors not hidden, in order |
| `ToolManager.NativeHiddenIffRemoved` | crates/avix-core/src/executor/tool_manager.rs:69-73 | a native name without `__` is hidden exactly when it is removed |
| `ToolManager.NativeFilterIsExactIff` | crates/avix-core/src/executor/tool_manager.rs:69-73 | for a given name this holds for every removed list exactly when the name has a slash or no `__` |
| `ToolManager.MangledHiddenIffRemoved` | crates/avix-core/src/executor/tool_manager.rs:69-73 | among safe names a mangled name is hidden exactly when its native name is removed |
| `ToolManager.MangledFilterIsExactIff` | crates/avix-core/src/executor/tool_manager.rs:69-73 | among names without `__`, a mangled name is hidden exactly when it is removed, for every removed list, exactly when it contains none of `_/`, `/_` and `//` |
| `ToolManager.ToolManager.constructor` | crates/avix-core/src/executor/tool_manager.rs:28-38 | empty lists |
| `ToolManager.ToolManager.HandleToolChanged` | crates/avix-core/src/executor/tool_manager.rs:87-99 | keeps that exactness, for added, removed and unknown operations |
| `ToolManager.KeptIsExact` | crates/avix-core/src/executor/tool_manager.rs:46-57 | leaving out removed names keeps every other as often as it occurs |
| `ToolManager.KeptKeepsOrder` | crates/avix-core/src/executor/tool_manager.rs:46-57 | and in its place |
| `ToolManager.ToolManager.RefreshToolList` | crates/avix-core/src/executor/tool_manager.rs:41-60 | the new list is the agent's own tools in order and then the registry's in the order of its map, each once, without the currently removed |
| `ToolManager.ToolManager.ListRegistry` | crates/avix-core/src/executor/tool_manager.rs:53-57 | the part of it for the registry |
| `ToolManager.ToolManager.ListOwn` | crates/avix-core/src/executor/tool_manager.rs:46-50 | the part of it for the agent's own tools |
| `ToolManager.ToolManager.CurrentToolList` | crates/avix-core/src/executor/tool_manager.rs:64-79 | the filter loop |
| `AuthTokens.ValidatesIff` | crates/avix-core/src/auth/atp_token.rs:60-78 | a text validates to claims exactly when it is a payload, a dot and the payload's signature, decodes to them and has not expired |
| `AuthTokens.ValidationErrors` | crates/avix-core/src/auth/atp_token.rs:60-78 | which error a text that does not validate gets |
| `AuthTokens.IssueThenValidate` | crates/avix-core/src/auth/atp_token.rs:51-78 | an issued token validates to its own claims until it expires |
| `AuthTokens.RefreshIff` | crates/avix-core/src/auth/service.rs:116-132 | a token refreshes exactly while it and its session are unexpired, the session known and not revoked; only the two times change |
| `AuthTokens.RefreshErrors` | crates/avix-core/src/auth/service.rs:116-132 | which error stops a refresh: expired token, revoked id, unknown session, session whose time is up |
| `AuthTokens.ChainKeepsIdentity` | crates/avix-core/src/auth/service.rs:116-132 | over any chain of refreshes subject, uid, role, crews, session and scope never change |
| `AuthTokens.TokensSpeakForTheirSession` | crates/avix-core/src/gateway/server.rs:226-240 | from login through any chain a token validates to claims with the session's own identity, role, crews and scope, issued at the last clock read and expiring eight hours later |
| `AuthTokens.ChainNeedsLiveSession` | crates/avix-core/src/auth/service.rs:122-124 | every refresh of a chain met a known, unexpired, unrevoked session |
| `AuthTokens.RefreshedExpiryBound` | crates/avix-core/src/auth/service.rs:116-132 | a refreshed expiry is at most connected_at + ttl + 8h exactly when the session check would still pass at the clock read for the reissue |
| `AuthTokens.ExpiryBoundCanFail` | crates/avix-core/src/auth/service.rs:122-130 | a token is refreshed past that bound by exactly the delay between the two clock reads |
| `AuthTokens.RevokedIsExact` | crates/avix-core/src/auth/atp_token.rs:129-131 | the revoked set is exactly the ids ever revoked |
| `AuthTokens.RevokedForever` | crates/avix-core/src/auth/atp_token.rs:120-131 | once a session id is revoked no later history lets any text validate or refresh as that session |
| `AuthTokens.SessionsAreExact` | crates/avix-core/src/auth/service.rs:79-106 | a session is known exactly from its login to its removal |
| `AuthTokens.RemovedSessionStillValidates` | crates/avix-core/src/auth/service.rs:99-106 | removing only the session stops refreshes but not validation |
| `AuthTokens.TokenStore.constructor` | crates/avix-core/src/auth/atp_token.rs:107-112 | nothing revoked |
| `AuthTokens.TokenStore.Validate` | crates/avix-core/src/auth/atp_token.rs:120-126 | an accepted token is unexpired and its session was never revoked |
| `AuthTokens.TokenStore.Revoke` | crates/avix-core/src/auth/atp_token.rs:129-131 | adds the id to the revoked set |
| `AuthTokens.AuthService.constructor` | crates/avix-core/src/auth/service.rs:23-33 | no sessions |
| `AuthTokens.AuthService.Login` | crates/avix-core/src/auth/service.rs:36-84 | the first identity of that name decides: unknown name, refused credential, or one fresh session with its uid and role and the default scope; a failure changes nothing |
| `AuthTokens.AuthService.RevokeSession` | crates/avix-core/src/auth/service.rs:99-106 | removes the session or reports it missing |
| `AuthTokens.AuthService.RefreshToken` | crates/avix-core/src/auth/service.rs:116-132 | computes `Refresh`; success means the session is known and was never revoked |
| `Tui.WidthIsShortestEncoding` | crates/avix-cli/src/tui/state.rs:285-330 | a character takes the fewest UTF-8 bytes that hold its code point, so one byte exactly for ASCII |
| `Tui.EveryRunKeeps` | crates/avix-cli/src/tui/state.rs:236-348 | in every run that does not panic, whatever is typed, cursor and history index stay in bounds, command mode holds exactly when an input exists, a pending request exactly when its start time does, and history and log are the submitted commands and the last ten events since the last disconnect |
| `Tui.FieldsFollowActions` | crates/avix-cli/src/tui/state.rs:236-348 | the connection flag, the toggles, the pending count, the form and the pending request with its start time are determined by the actions since the last disconnect: presence, parity, last value |
| `Tui.PanicsInsideCharacterIff` | crates/avix-cli/src/tui/state.rs:286-303 | an action panics exactly when it inserts or removes inside a character; history and end of text never do |
| `Tui.EditAgreesIff` | crates/avix-cli/src/tui/state.rs:285-330 | for text of any width, one key does what an index-free zipper editor does exactly when the character it types, deletes or crosses is one byte wide |
| `Tui.ReducerFollowsEditorIff` | crates/avix-cli/src/tui/state.rs:236-348 | for every run the reducer shows at every step what the zipper editor shows, without panic, exactly when every key fits in that sense |
| `Tui.AsciiFollowsEditor` | crates/avix-cli/src/tui/state.rs:236-348 | so with ASCII keys and commands it always does |
| `Tui.WideCharacterPanics` | crates/avix-cli/src/tui/state.rs:288-291 | after any run, typing a character after a wider one at the start panics |
| `Tui.PushKeepsLast` | crates/avix-cli/src/tui/state.rs:49-60 | pushing keeps the last ten |
| `Tui.TuiState.constructor` | crates/avix-cli/src/tui/state.rs:236-254 | the initial state, which a disconnect restores |
| `Tui.TuiState.PushEvent` | crates/avix-cli/src/tui/state.rs:49-60 | appends and drops the oldest beyond ten |
| `Tui.TuiState.EditCommand` | crates/avix-cli/src/tui/state.rs:285-330 | one edit, with the exact condition for a panic |
| `Tui.TuiState.Reset` | crates/avix-cli/src/tui/state.rs:239-254 | a disconnect restores the initial state |
| `Tui.TuiState.ReduceCommand` | crates/avix-cli/src/tui/state.rs:273-335 | the actions on the command line, with the exact condition for a panic |
| `Tui.TuiState.Reducer` | crates/avix-cli/src/tui/state.rs:236-348 | one action, with the exact condition for a panic |
| `CommandParser.ParseQuoted` | crates/avix-cli/src/tui/parser.rs:76-102 | the character loop computes the token function and never yields an empty token or one with a quote |
| `CommandParser.TokensAreClean` | crates/avix-cli/src/tui/parser.rs:76-102 | the same from any intermediate state of the tokeniser |
| `CommandParser.TokeniserInvertsQuotingIff` | crates/avix-cli/src/tui/parser.rs:76-102 | a list quoted and joined by single spaces tokenises back to itself exactly when its strings are nonempty and quote-free |
| `CommandParser.PlainWordIff` | crates/avix-cli/src/tui/parser.rs:76-102 | a quote-free word is its own single token exactly when it is nonempty and space-free |
| `CommandParser.DecimalRoundTrip` | crates/avix-cli/src/tui/parser.rs:29-32 | a printed number parses back exactly within 64 bits |
| `CommandParser.NumbersParse` | crates/avix-cli/src/tui/parser.rs:29-32 | digits give their value within 64 bits, also behind one plus sign; anything else is refused |
| `CommandParser.SpawnRoundTripIff` | crates/avix-cli/src/tui/app.rs:249-249 | the printed spawn command parses back to itself exactly for a nonempty, space-free, quote-free name and a nonempty, quote-free goal |
| `CommandParser.KillRoundTrip` | crates/avix-cli/src/tui/app.rs:263-263 | the printed kill command parses back for every 64-bit pid and is refused beyond |
| `CommandParser.CommandsIff` | crates/avix-cli/src/tui/parser.rs:5-72 | every command and error, with exactly the tokens that give it; the complaints about an empty name, goal or source are unreachable |
| `CommandParser.NeedsSlash` | crates/avix-cli/src/tui/parser.rs:6-8 | a line without a slash is refused as such |
| `CommandParser.TrimIsExact` | crates/avix-cli/src/tui/parser.rs:10-10 | trimming takes off white space at both ends and nothing else |
| `Notifications.ConstructorsAreWellFormed` | crates/avix-client-core/src/notification.rs:37-89 | what the constructors make is well formed, unresolved and unread |
| `Notifications.ConstructorsCarryFields` | crates/avix-client-core/src/notification.rs:37-89 | the ids, pid, session, token, prompt, timeout, reason and text they carry over |
| `Notifications.NewestFirstIsStableSort` | crates/avix-client-core/src/notification.rs:144-144 | the order is newest first and keeps the arrival order of equal times |
| `Notifications.StableSortIsUnique` | crates/avix-client-core/src/notification.rs:144-144 | and is the only such order |
| `Notifications.NewestFirstPermutes` | crates/avix-client-core/src/notification.rs:144-144 | sorting neither loses nor duplicates |
| `Notifications.StoreIsSortedArrivals` | crates/avix-client-core/src/notification.rs:129-175 | in every run, even with repeated ids, the store is the stable newest-first arrangement of everything added, up to outcome, resolution time and read mark |
| `Notifications.StoreIsSortedHistories` | crates/avix-client-core/src/notification.rs:129-175 | with unique ids and well-formed entries it is that arrangement of the notifications' own histories, each touched only by operations that name it |
| `Notifications.StoreEntryExplained` | crates/avix-client-core/src/notification.rs:129-175 | with unique ids and well-formed entries, an entry of the store is read exactly if it was added so or later marked, resolved exactly if it was added so or is a request later resolved, and otherwise as added |
| `Notifications.HistoryExplained` | crates/avix-client-core/src/notification.rs:129-175 | the same of every notification's own history, without conditions |
| `Notifications.FirstResolutionIsFinal` | crates/avix-client-core/src/notification.rs:150-166 | in every run, whatever the ids, a resolved entry of the store keeps its outcome and its time of resolution through everything that follows |
| `Notifications.HistoryIsFinal` | crates/avix-client-core/src/notification.rs:150-166 | the same of a notification's own history, which also keeps its identity and never becomes unread |
| `Notifications.FirstResolutionWins` | crates/avix-client-core/src/notification.rs:155-162 | with unique ids the first resolution of an open request in the store fixes its outcome and time through everything that follows |
| `Notifications.HistoryKeepsFirstResolution` | crates/avix-client-core/src/notification.rs:155-162 | the same of a notification's own history |
| `Notifications.StoreStaysConsistent` | crates/avix-client-core/src/notification.rs:159-162 | in every run, whatever the ids, the time of resolution is set in the store exactly when the outcome is |
| `Notifications.HistoriesStayConsistent` | crates/avix-client-core/src/notification.rs:159-162 | the same of the notifications' own histories |
| `Notifications.StoreWellFormedIff` | crates/avix-client-core/src/notification.rs:129-175 | every approval request in the store carries its state exactly when every one added did |
| `Notifications.ResolvingIsSafe` | crates/avix-client-core/src/notification.rs:159-160 | then no resolution panics |
| `Notifications.SomeResolutionPanicsIff` | crates/avix-client-core/src/notification.rs:159-160 | with unique ids some resolution panics exactly otherwise |
| `Notifications.PendingIsSafeIff` | crates/avix-cli/src/tui/app.rs:482-487 | the screen's count of pending requests is safe exactly under the same condition |
| `Notifications.NewestFirstKeepsUnread` | crates/avix-client-core/src/notification.rs:182-185 | sorting does not change the unread count |
| `Notifications.UnreadIsCardinality` | crates/avix-client-core/src/notification.rs:182-185 | the unread count is the number of unread entries |
| `Notifications.PendingIsCardinality` | crates/avix-cli/src/tui/app.rs:482-487 | the pending count is the number of requests without outcome |
| `Notifications.NotificationStore.constructor` | crates/avix-client-core/src/notification.rs:115-120 | an empty store |
| `Notifications.NotificationStore.AddNotification` | crates/avix-client-core/src/notification.rs:129-148 | push and sort |
| `Notifications.NotificationStore.SortNewestFirst` | crates/avix-client-core/src/notification.rs:144-144 | a loop that computes the stable order |
| `Notifications.NotificationStore.ResolveRequest` | crates/avix-client-core/src/notification.rs:150-166 | the first matching request is resolved if open; panics exactly when it has no state |
| `Notifications.NotificationStore.MarkAsRead` | crates/avix-client-core/src/notification.rs:168-175 | the first entry with that id |
| `Notifications.NotificationStore.UnreadCount` | crates/avix-client-core/src/notification.rs:182-185 | the number of unread entries, also over the notifications' histories |
| `EventEmitter.RunIsLawful` | crates/avix-client-core/src/atp/event_emitter.rs:40-71 | every action of every run obeys its law: connects carry the highest number forwarded, sleeps the capped power of two, forwards happen only in a session |
| `EventEmitter.CursorIsHighestForwarded` | crates/avix-client-core/src/atp/event_emitter.rs:43-56 | each connect attempt receives the maximum sequence number forwarded before it, and none exactly when nothing was |
| `EventEmitter.CursorNeverDecreases` | crates/avix-client-core/src/atp/event_emitter.rs:43-56 | the cursor never decreases across attempts |
| `EventEmitter.SleepIsCappedPower` | crates/avix-client-core/src/atp/event_emitter.rs:66-69 | the j-th sleep since the start or since the last session ended is min(2^j, 60) seconds, from j = 0 |
| `EventEmitter.ForwardsEverythingReceived` | crates/avix-client-core/src/atp/event_emitter.rs:48-64 | subscribers get the received events of all sessions in order, and every attempt is one connect and one sleep |
| `EventEmitter.EventEmitter.constructor` | crates/avix-client-core/src/atp/event_emitter.rs:32-38 | no events yet, not connected |
| `EventEmitter.EventEmitter.Drain` | crates/avix-client-core/src/atp/event_emitter.rs:48-64 | the receive loop of one session |
| `EventEmitter.OnlySessionIsTheLast` | crates/avix-client-core/src/atp/event_emitter.rs:45-64 | a run of the code, whose session never ends: every attempt asks without a cursor, each failure is followed by one sleep and none follows the connection, everything received is forwarded |
| `EventEmitter.EventEmitter.Run` | crates/avix-client-core/src/atp/event_emitter.rs:40-71 | the outer loop over any number of attempts, if sessions ended; between attempts the flag is down and the cursor is the highest number forwarded |
| `EventEmitter.EventEmitter.RunIntoSession` | crates/avix-client-core/src/atp/event_emitter.rs:40-64 | the loop into the session that never ends, with the flag up |
| `EventBridgeGuard.StepKeepsGuarded` | crates/avix-client-core/src/state.rs:144-217 | every step of connects, registrations and exits keeps the counting invariant between live bridges, flag and older exits |
| `EventBridgeGuard.BridgesAreBounded` | crates/avix-client-core/src/state.rs:144-217 | in every interleaving the current connection has at most one live bridge plus one per older task that exited since its flag was cleared |
| `EventBridgeGuard.BoundIsTight` | crates/avix-client-core/src/state.rs:144-217 | for every k some run attains k older exits and k + 1 live bridges |
| `EventBridgeGuard.RegistrationAddsIff` | crates/avix-client-core/src/state.rs:173-193 | registering a callback adds a bridge exactly when the flag is down |
| `EventBridgeGuard.OlderExitThenRegistrationDuplicates` | crates/avix-client-core/src/state.rs:173-217 | the exit of an older task followed by a registration always adds one more bridge |
| `EventBridgeGuard.RunTells` | crates/avix-client-core/src/state.rs:144-178 | in every run the status is what the last connect step gives, there is one connection per installed dispatcher, and a callback once one was registered |
| `EventBridgeGuard.ConnectionIsServed` | crates/avix-client-core/src/state.rs:163-178 | after a connect or a registration with both dispatcher and callback the connection has a live bridge |
| `EventBridgeGuard.AppState.constructor` | crates/avix-client-core/src/state.rs:75-88 | disconnected, no callback, flag down |
| `EventBridgeGuard.AppState.StartEventBridge` | crates/avix-client-core/src/state.rs:180-217 | the compare-exchange: at most one start per lowered flag |
| `EventBridgeGuard.AppState.BridgeExits` | crates/avix-client-core/src/state.rs:213-214 | one bridge task ends, and the shared flag falls exactly if it was live |
| `EventBridgeGuard.AppState.BridgesExit` | crates/avix-client-core/src/state.rs:213-214 | exactly the tasks named end, and the shared flag falls exactly if one of them was live |
| `EventBridgeGuard.AppState.InstallDispatcher` | crates/avix-client-core/src/state.rs:156-167 | swap, clear, start, with exits in between |
| `EventBridgeGuard.AppState.DoConnect` | crates/avix-client-core/src/state.rs:144-171 | both outcomes, with exits interleaved; the bound and service hold afterwards |
| `EventBridgeGuard.AppState.SetEmitCallback` | crates/avix-client-core/src/state.rs:173-178 | the bound and service hold after a registration |

## Left out

- Sockets, WebSocket and HTTP clients, subprocesses, files and git: streams, name sets or choices of the environment stand for them.
- A caller that drops an unfinished ATP call, and the shutdown of a dispatcher with calls in flight.
- The bounded capacity of broadcast channels: a lagging receiver is an item of the stream, subscribers' own losses are not modelled.
- HMAC, SHA-256, base64url and JSON encoding: functions with only the facts named above; no cryptographic claim is made.
- Cron expression parsing: an expression is the increasing list of instants at which it fires.
- The `initialize` handshake of the MCP client, and a bridge whose service socket fails to bind after its tools are registered.
- `ToolGrantResolver`, capability maps, tool budgets and the password check: single-pass filters and comparisons without state or interleaving.
- Terminal rendering, the agents list, output buffers, catalogue, installation state, notification count and tabs of the terminal client's state.
- Installing agents and services, the connection form and other commands of the parser are modelled as far as `parse` goes, not executed.
- The conversion of non-string cron arguments to text: values arrive as strings.
- Aborting an agent task from outside, what the executor does inside a turn, and the instants between a status event and its write to the table, when the agent task waits for the table's lock.
- Rendering.OrderDoesNotMatter: assumes brace-free values; whether a value with braces does harm depends on the template and on the other values.
- EventEmitter.EventEmitter.Run: models any finite number of attempts of an endless loop, and lets sessions end, which the code never reaches.
- CronScheduler.CronRunner.Run: models any finite number of ticks of an endless loop.
- EventBridgeGuard.AppState.DoConnect: exits are interleaved between the shared-flag operations; the dispatch of single events to the callback is not modelled.
