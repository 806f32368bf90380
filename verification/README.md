# Verified model of the feature orchestrator

A Dafny model of the parts of the orchestrator, and of the URL service it develops, where
something can go wrong that no single function shows: a pipeline with parallel stages and human
gates that is stored in two places, limits that must hold over every call history, caches that
must agree with something simpler, a tool-calling conversation, a text cleaner, and a counter
that several request handlers update.

| File | Models |
|---|---|
| `BarrierGraph.dfy` | a graph executor that works in supersteps, for any graph with barrier edges and two-way routing |
| `Confluence.dfy` | whole invocations end the same way in whatever order nodes finish |
| `GreenField.dfy`, `RunScript.dfy` | the 14-node pipeline, built edge by edge, the executor theorem applied to it, and the order of a run written out |
| `TextOrder.dfy`, `Auth.dfy` | string order; role inheritance, tokens, four-eyes approval |
| `RunProtocol.dfy`, `History.dfy`, `RunRecords.dfy`, `Agents.dfy`, `Cli.dfy` | the `run`, `approve` and `review` commands over any number of runs: the step relation, what every command history keeps, what the table and the gates say about the commands given, what the stages determine, and the handlers as code that follows the relation |
| `SlidingWindow.dfy`, `FixedWindow.dfy` | the two rate limiters |
| `Accounting.dfy`, `OverlappingCalls.dfy` | cost rounding, the daily token budget for calls one after the other and for overlapping calls, the order of the gateway's steps |
| `ToolCalls.dfy`, `ToolStaleness.dfy`, `ResponseCache.dfy`, `ArtifactCleaner.dfy`, `QuotedNotes.dfy`, `StageAgent.dfy` | tool dispatch and its cache, the response cache, the cleaning of answers, the agent loop over all of them |
| `Clicks.dfy`, `Analytics.dfy` | click recording under interleaving and failure; the click summary |

How the outside world enters:

- The graph library is taken to run in supersteps. All pending nodes of a superstep see the
  same snapshot, their updates are merged in the order in which they finish, a list-source edge
  waits for all its sources, and a resumed gate receives the payload of the command. Which node
  finishes next, what it returns and whether `implementation` reports a schema change are
  arbitrary. The stage nodes in `orchestrator/scenarios/nodes.py` never set that flag, so it is
  part of the update of a node.
- The three scenarios share one graph and differ only in their prompts.
- A CLI command is one atomic step, as the single-operator assumption of the engineering summary
  says. A run identifier that is already taken makes the launch a no-op; identifiers are random
  in the code.
- Parallel stages share one gateway. `Accounting` takes its calls one after the other and the limiter's
  check as one step; `OverlappingCalls` drops the first of these for the budget.
- The clock, the model, the tools, the files behind a prompt, the JSON library and the wording of
  one error message are parameters. Hashes are injective. Prices are exact decimals.
- Times are real numbers of seconds, or integers where only their order matters; any clock that does
  not run backwards is allowed.

Findings:

- The token budget is checked against the caller of the gateway but charged to the user who
  triggered the run. `Accounting.BoundIffOwner` shows that the daily bound holds for every
  sequence of calls if and only if the two are the same user. All callers wired into the pipeline pass
  the token of the user who launched the run (`orchestrator/planner/planner.py:132`), so the two
  differ only for other users of the gateway's interface.
- The budget is checked when a call begins and charged when it ends.
  `OverlappingCalls.SequentialIffNoOverlap` shows that a schedule of begins and ends keeps the bound
  for sequential calls, whatever the calls use, if and only if no two of the user's calls that could
  be admitted overlap (`OverlappingCalls.OverlapExceedsSequentialBound` is one that breaks it, for
  every budget); `OverlappingCalls.OverlapBound` gives the bound that holds for all interleavings.
- `execute` never invalidates the tool cache, although the cache documents that a write should
  (`orchestrator/cache/tool_cache.py:75-80`). `ToolStaleness.TrueInEveryWorldIff` gives the exact
  condition for true answers; `ToolCalls.StaleRead` is an input on which they are not.
- `increment_click_count` is documented as atomic but reads and writes in separate steps.
  `Clicks.ExactIffNoOverlap` shows that the counter is exact at rest if and only if no two handlers
  overlapped and none failed after recording its event.
- Merging updates loses nothing only because no node runs twice:
  `BarrierGraph.StaleSnapshotOverwrites` says exactly when an update would be lost.
- Cleaning frees a JSON text of all its notes if and only if none of them holds a quote
  (`QuotedNotes.CleanedIff`); otherwise the slashes of the first such note stay and the result is no
  JSON, as for `{}//"x"` (`QuotedNotes.QuotedNoteExample`).
- A role whose inheritance line comes back to itself has an expansion that never ends
  (`Auth.EndsIff`). The model refuses its tokens, as the recursion error of the code does.
- The gate order follows the code, where `tests_gate` comes before `documentation`; the diagram in
  the repository's own README shows them the other way round.

## Model

| member | source | states |
|---|---|---|
| BarrierGraph.NoLostUpdate | orchestrator/core/state.py:15-25 | merging the updates of distinct nodes without earlier artifacts keeps every update and every old entry, whatever stale snapshot each update carries |
| BarrierGraph.StaleSnapshotOverwrites | orchestrator/scenarios/nodes.py:208-211 | the updates of a superstep, however many, all survive if and only if none but the last had a different artifact under its key in the snapshot |
| BarrierGraph.FinishingOrderIsIrrelevant | orchestrator/core/state.py:17-25 | any permutation of the updates of a superstep gives the same next superstep, barriers, routing answers and artifacts |
| BarrierGraph.OneEdgeEnabled | orchestrator/scenarios/greenfield.py:101-119 | in a graph that passes the static check at most one edge into a node can ever be enabled |
| BarrierGraph.ExecuteInv | orchestrator/scenarios/greenfield.py:92-127 | the executor invariant holds after any feasible sequence of finishing nodes |
| BarrierGraph.ExecuteGrows | orchestrator/core/state.py:30-33 | execution only adds: the log grows by the nodes that finished, no artifact or routing answer changes |
| BarrierGraph.ExecutorTheorem | orchestrator/scenarios/greenfield.py:92-127 | for any checked graph: each node runs at most once and only after its edge's sources, the artifact keys are the executed nodes, and a run stops only when no enabled edge is left |
| Confluence.InvocationsAgree | orchestrator/core/state.py:17-25 | for stages that depend only on the artifacts shown to them, any two complete invocations from states equal up to finishing order end in such states: all finishing orders of all supersteps are confluent |
| GreenField.BuildGraph | orchestrator/scenarios/greenfield.py:77-127 | the builder ends with exactly the pipeline's entry and edges and the given nodes |
| GreenField.PipelineChecked | orchestrator/scenarios/greenfield.py:93-125 | the pipeline passes the static check: edges into one node exclude each other, and everything that must come before a node comes before or among the sources of each edge into it |
| GreenField.PipelineIsAcyclic | orchestrator/scenarios/greenfield.py:93-125 | every edge leads to a higher level, so the pipeline has no cycle |
| GreenField.NamesAreAll | orchestrator/scenarios/greenfield.py:130-147 | the fourteen node names are all the nodes, each once |
| GreenField.PipelineOrder | orchestrator/scenarios/greenfield.py:93-125 | in every reachable state each node ran at most once and after everything below it, one of the two routes is taken, and a finished run executed the whole pipeline |
| GreenField.GateAlone | orchestrator/scenarios/greenfield.py:95-125 | a pending gate is the one and only pending node |
| GreenField.GatesBelow | orchestrator/scenarios/greenfield.py:95-125 | when a gate is pending exactly the required gates before it were executed |
| GreenField.CompletedRun | orchestrator/scenarios/greenfield.py:93-127 | with nothing pending all nodes ran, the schema gate exactly if `implementation` asked for it |
| RunScript.RunIsScripted | orchestrator/scenarios/greenfield.py:93-127 | in every reachable state the executed nodes are the beginning of one of eight written-out scripts (two orders of each parallel pair, with or without the schema gate), and a run stops exactly at its end |
| BarrierGraph.EventsLast | orchestrator/core/state.py:15-25 | in any checked graph, after any events, every executed node has left exactly the artifact and the answer it returned |
| GreenField.NothingOverwritten | orchestrator/core/state.py:51 | no later event of a run changes an artifact or routing answer recorded before |
| GreenField.NothingLeftOut | orchestrator/prompt_builder/builder.py:218-220 | if all dependencies have artifacts the prior-artifact block lists them all, in order |
| GreenField.PromptIsComplete | orchestrator/prompt_builder/builder.py:110-121 | whenever a stage is pending in a reachable state every declared dependency has its artifact and none is dropped from the prompt: the design is shown to the six later stages that build on it, the implementation to the four that check it |
| GreenField.AtMostFourteen | orchestrator/scenarios/greenfield.py:130-147 | at most fourteen nodes start, so a run cannot go on for ever |
| TextOrder.LessIff | orchestrator/gateway/auth.py:123 | the order of the sorted permissions: the first difference decides, a proper beginning comes first |
| Auth.EndsIff | orchestrator/gateway/auth.py:118-122 | the expansion of a role ends if and only if no climb from it through its ancestors passes a role twice |
| Auth.AcyclicIff | orchestrator/gateway/auth.py:118-122 | no role of a table is its own ancestor if and only if the expansion of every role ends |
| Auth.ExpansionIsExact | orchestrator/gateway/auth.py:107-123 | for every role whose expansion ends, whatever else is in the table: it is, sorted and without duplicates, exactly what the role or one of its ancestors owns |
| Auth.ExpansionIsMonotone | orchestrator/gateway/auth.py:120-122 | such a role holds every permission of every role on its inheritance chain |
| Auth.ResolveIff | orchestrator/gateway/auth.py:73-103 | a token is accepted exactly if it is registered and its role exists and ends; it then stands for its login, with what the role line owns and the budget of the role, 50,000 tokens if it has none |
| Auth.ApprovalMeansEntitled | orchestrator/governance/checkpoint.py:88-121 | a granted approval comes from a login other than the trigger user whose role line owns the permission |
| Auth.ApprovalIff | orchestrator/governance/checkpoint.py:55-121 | every outcome of an approval request by what the two tables say: granted exactly to a known login other than the trigger user whose role line owns the permission, and each refusal exactly for its own reason |
| Auth.EntitledIsApproved | orchestrator/governance/checkpoint.py:55-121 | whoever owns the permission through the role line is refused only by the four-eyes rule, or because the line never ends |
| RunProtocol.PausedIsUnique | orchestrator/run.py:677-686 | a thread at rest has one possible status, so taking the first interrupt is not ambiguous |
| RunProtocol.FirstInvocation | orchestrator/run.py:246-271 | the first invocation executes stages only and reaches a legal state |
| RunProtocol.ResumeAddsOneGate | orchestrator/run.py:486-520 | a resumed gate is executed with the approver's name, and no other gate is executed with it |
| History.OthersUntouched | orchestrator/run.py:147-520 | a command changes neither row nor thread of any other run |
| History.HistoryKeeps | orchestrator/state/store.py:71-151 | after every command of every history each run's row and thread are in step |
| History.TwoStoresAgree | orchestrator/run.py:255-271 | status `awaiting:g` holds exactly when g is the only pending node of a run not rejected, `completed` exactly when nothing is pending, `running` exactly without a thread |
| History.WholeRunAuthority | orchestrator/run.py:411-428 | every recorded gate was approved by someone entitled to it other than the trigger user; completed runs have all mandatory gates, and the schema gate exactly when asked for |
| History.EveryGateIsOneApproval | orchestrator/run.py:486-520 | the gates passed by a run are in number the approvals accepted for it |
| History.ExactApprovalCount | orchestrator/scenarios/greenfield.py:106-125 | a run completes with exactly 4 accepted approvals, 5 with a schema change, and never has more |
| History.FinalIsFinal | orchestrator/run.py:405-460 | once rejected or completed, no command sequence changes the row or executes another node |
| History.ReviewIsExact | orchestrator/run.py:312-340 | after every command history `review`, by its own query and tests, lists in creation order exactly the runs on which `approve` would pass its checks |
| History.ReviewedRunAdvances | orchestrator/run.py:320-338 | approving a run that `review` lists moves it past exactly one gate |
| RunRecords.ApprovalCheckIff | orchestrator/run.py:405-428 | `approve` lets a token decide exactly if the run waits at a gate and the token stands for someone other than the trigger user who owns the permission that gate needs, named for each gate |
| RunRecords.RowsAreLaunches | orchestrator/planner/planner.py:96-103 | after every history a run exists exactly if someone known launched it with a requirement of 10 to 2000 characters, and its row names for good the login behind the first such token, its requirement and its scenario |
| RunRecords.GatesAreApprovals | orchestrator/run.py:486-500 | a gate is recorded exactly if some earlier yes came, while the run waited at that gate, from a user entitled to it; it records that login |
| RunRecords.NobodyApprovesOwnRun | orchestrator/governance/checkpoint.py:107-121 | no gate recorded in a run was approved by the login whose token launched it |
| RunRecords.RefusalRejects | orchestrator/run.py:453-460 | a no that passes its checks sets the row to rejected, with the refuser and the comment, and changes nothing else |
| RunRecords.OutcomeIs | orchestrator/state/store.py:105-151 | a run is rejected exactly if an entitled user said no to it, completed exactly if one approved its release gate; the row then names that user and holds the comment, and names nobody before |
| RunRecords.CompletedByReleaseApprover | orchestrator/run.py:486-520 | a completed run names as `reviewed_by` the approver recorded at its release gate |
| Agents.HistoriesAgree | orchestrator/run.py:147-520 | two histories of the same commands, whose stages return the same for the same artifacts, have equal rows and equal artifacts, answers and pending gates after every command: finishing orders show only in the log |
| Agents.RecordedAsReturned | orchestrator/scenarios/nodes.py:208-211 | a run keeps of every executed stage what it returned for the artifacts it was shown: its text, or its error if it failed, and its schema answer |
| Cli.EventUsesUpANode | orchestrator/scenarios/greenfield.py:130-147 | every finished node lowers the number of nodes that can still run |
| Agents.InvocationIsDeterministic | orchestrator/scenarios/nodes.py:208-211 | two invocations of the same stages end with the same pending gate, artifacts, answers and status, whatever order parallel stages finish in |
| Cli.Orchestrator.Invoke | orchestrator/run.py:246-255 | running stages until only gates are pending, in any order, is a complete invocation, and it terminates |
| Cli.Orchestrator.PauseStatus | orchestrator/run.py:257-271 | computes a status allowed for the thread, whichever interrupt comes first |
| Cli.Orchestrator.HandleRun | orchestrator/run.py:147-271 | the handler makes exactly a step of the protocol, with what its stages return, and keeps both stores in step |
| Cli.Orchestrator.HandleApprove | orchestrator/run.py:397-520 | the same for `approve`, with the outcome of its checks |
| Cli.Orchestrator.HandleReview | orchestrator/run.py:312-340 | the pending query and the loop with its own gate, permission and approval tests compute the review list |
| SlidingWindow.RateLimiter.Check | orchestrator/gateway/rate_limiter.py:42-67 | accepts exactly when fewer than 200 of all the user's accepted calls, counted one by one, are less than 60 s old, although old timestamps were evicted; other users are untouched |
| SlidingWindow.RecentAreYoung | orchestrator/gateway/rate_limiter.py:57-58 | eviction keeps exactly as many timestamps as are less than 60 s old, wherever they stand in the list |
| SlidingWindow.EvictingTwice | orchestrator/gateway/rate_limiter.py:56-58 | evicting early and again later is evicting once |
| SlidingWindow.NoBurst | orchestrator/gateway/rate_limiter.py:43 | no 60-second window holds more than 200 accepted calls of a user |
| SlidingWindow.OnlyOwnAcceptedCallsMatter | orchestrator/gateway/rate_limiter.py:53-67 | refused calls and other users' calls never change what a user is allowed |
| FixedWindow.Limiter.IsRateLimited | service/core/rate_limiter.py:22-42 | refuses exactly when a 60-second window around now already holds `limit` admitted requests; the counter goes up, or starts at one with 60 seconds to live |
| FixedWindow.Limiter.GetRemainingRequests | service/core/rate_limiter.py:45-53 | positive exactly when the next request would be admitted |
| FixedWindow.OneIncrement | service/core/rate_limiter.py:37-40 | one increment keeps every key's counter in step with its admitted requests |
| FixedWindow.RefusedIff | service/core/rate_limiter.py:37-42 | the counter is above the limit exactly when some window around now is full of admitted requests |
| FixedWindow.TwiceTheLimit | service/core/rate_limiter.py:34-42 | any 60-second interval admits at most twice the limit for a key, however requests straddle windows |
| Accounting.Rounded | orchestrator/gateway/cost_tracker.py:104-108 | rounding is within half a micro-dollar, ties going to the even one |
| Accounting.CostIsListPrice | orchestrator/gateway/cost_tracker.py:36-108 | the recorded cost is within half a micro-dollar of the list price in dollars per 1,000 tokens, by model, with the fallback for unknown ones |
| Accounting.LedgerIsPriced | orchestrator/gateway/cost_tracker.py:72-108 | over any sequence of calls recorded cost and exact price differ by at most half a micro-dollar a call |
| Accounting.BudgetBound | orchestrator/gateway/token_budget.py:57-80 | for calls one after the other: tokens recorded in a day never exceed the budget plus what some charged call used beyond its estimate, if all calls charged to a user are the user's own |
| Accounting.ForeignCallsBreakTheBound | orchestrator/gateway/token_budget.py:60-74 | for any two users and any budget, two calls on the other's runs break the bound |
| Accounting.BoundIffOwner | orchestrator/gateway/token_budget.py:60-80 | the bound holds for all call sequences if and only if the caller owns the run |
| Accounting.CallModel | orchestrator/gateway/gateway.py:146-167 | at most four tries, retrying only the tokens-per-minute refusal, after 0, 15, 45 or 105 seconds in all |
| Accounting.Gateway.Call | orchestrator/gateway/gateway.py:84-227 | a call succeeds exactly if it passes all seven checks, each stated on the tables, the books and the call log; otherwise the refusal names the first check it fails. It is recorded exactly if it succeeds, and uses a slot of the limiter exactly if it comes that far |
| Accounting.OneVerdict | orchestrator/gateway/gateway.py:84-227 | the checks leave no choice: at most one result fits a request |
| OverlappingCalls.OverlapBound | orchestrator/gateway/gateway.py:114-209 | for calls that overlap in any way: tokens of a day stay within the budget, plus what some recorded call used beyond its estimate, plus what was recorded while that call was under way |
| OverlappingCalls.SequentialIffNoOverlap | orchestrator/gateway/token_budget.py:60-80 | for any schedule of own calls: the bound for calls one after the other holds whatever the calls use, if and only if no two calls within the budget overlap |
| ToolCalls.KeyInjective | orchestrator/cache/tool_cache.py:99-102 | name and arguments are told apart although they are only concatenated |
| ToolCalls.CacheKeepsTheFirst | orchestrator/tools/registry.py:343-381 | for any operations the cache holds the first successful result other than None since a call was last forgotten, and nothing for errors |
| ToolCalls.MutatingToolsAlwaysRun | orchestrator/tools/registry.py:57-57 | mutating tools are executed every time and never stored |
| ToolStaleness.TrueInEveryWorldIff | orchestrator/tools/registry.py:349-381 | in all worlds that only mutating tools change a call is answered as without a cache, if and only if no mutating tool was called after a remembered call and no result was inherited for it |
| ToolCalls.AnswerIs | orchestrator/tools/registry.py:322-381 | after any operations: an unknown tool has no answer, one of the six reading tools answers with its first success since it was forgotten, and all else runs, an exception keeping its own message |
| ToolCalls.CacheIsTransparent | orchestrator/tools/registry.py:351-360 | in an unchanged environment cached and uncached answers are the same |
| ToolCalls.CallsNeverForget | orchestrator/tools/registry.py:371-372 | no later call, a write included, changes a cached answer |
| ToolCalls.StaleRead | orchestrator/cache/tool_cache.py:75-80 | a file read, overwritten and read again still shows its old content |
| ToolCalls.ToolCache.Invalidate | orchestrator/cache/tool_cache.py:75-82 | removes the one entry and no other |
| ToolCalls.Execute | orchestrator/tools/registry.py:322-381 | dispatch answers as specified and updates the cache as specified, unknown tools and exceptions included |
| ResponseCache.KeyInjective | orchestrator/cache/response_cache.py:166-169 | prompts that end in a bracket and models without one are told apart in the key |
| ResponseCache.ToldApartIff | orchestrator/cache/response_cache.py:166-169 | a model name is told apart from all others in the keys of such prompts if and only if it has no bracket |
| ResponseCache.LatestSetIsLast | orchestrator/cache/response_cache.py:101-154 | the reference entry is the last change of its key, and that change is a set |
| ResponseCache.CountedGetsAreServed | orchestrator/cache/response_cache.py:82-99 | a get after the latest set is served if and only if it comes before the expiry |
| ResponseCache.OtherPairsNeverMatter | orchestrator/cache/response_cache.py:73-92 | operations on other prompts or models never change an entry |
| ResponseCache.ExpectedStep | orchestrator/cache/response_cache.py:60-154 | the timed map changes with each operation exactly as the row does |
| ResponseCache.ResponseCache.Get | orchestrator/cache/response_cache.py:60-99 | returns the latest set value exactly until its expiry, over any history |
| ResponseCache.ResponseCache.Set | orchestrator/cache/response_cache.py:101-146 | inserts or refreshes the row with a fresh counter, negative lifetimes included |
| ResponseCache.ResponseCache.Invalidate | orchestrator/cache/response_cache.py:148-154 | deletes the one row |
| ResponseCache.ResponseCache.HitCount | orchestrator/cache/response_cache.py:156-162 | equals the successful gets since the latest set |
| ArtifactCleaner.QuoteAhead | orchestrator/agents/stage_agent.py:308-310 | inside a JSON string a quote comes before the end of the line |
| ArtifactCleaner.FencePass | orchestrator/agents/stage_agent.py:308 | the pass over fences changes no token |
| ArtifactCleaner.NotePass | orchestrator/agents/stage_agent.py:309-310 | the pass over notes removes all of them, keeps every token, and leaves a text without notes alone |
| ArtifactCleaner.CleanJson | orchestrator/agents/stage_agent.py:302-313 | valid JSON text is unchanged but for the space around it |
| ArtifactCleaner.CleanIsIdentity | orchestrator/agents/stage_agent.py:302-313 | cleaning the text of a JSON object gives that text |
| ArtifactCleaner.CleanUndoesFencing | orchestrator/agents/stage_agent.py:308 | cleaning an object inside a plain or json fence, with any space around and inside, gives the object text |
| ArtifactCleaner.CleanUndoesJsonFencing | orchestrator/agents/stage_agent.py:308 | the same with blanks, tabs and line ends, the whitespace of JSON, spelled out |
| ArtifactCleaner.AtomIsToken | orchestrator/agents/stage_agent.py:308-310 | a JSON number or name is one token, so cleaning neither loses nor tears it |
| ArtifactCleaner.CleanKeepsTokens | orchestrator/agents/stage_agent.py:308-310 | cleaning a text with quote-free notes removes them and keeps the token stream |
| ArtifactCleaner.CleanFencedKeepsTokens | orchestrator/agents/stage_agent.py:308-310 | the same for such a text inside a fence |
| ArtifactCleaner.NotesAreInvisible | orchestrator/agents/stage_agent.py:309 | a quote-free note at the end of a line is no part of the token stream |
| ArtifactCleaner.CleanRemovesNote | orchestrator/agents/stage_agent.py:309-313 | a JSON text with a note added is cleaned to the tokens of the JSON text |
| QuotedNotes.CleanedIff | orchestrator/agents/stage_agent.py:308-310 | of a JSON text with any notes: the cleaned text is free of notes if and only if no note holds a quote |
| QuotedNotes.CleanedFencedIff | orchestrator/agents/stage_agent.py:308-310 | the same for such an object text inside a fence |
| StageAgent.FencedAnswerIsParsed | orchestrator/agents/stage_agent.py:182-185 | a final answer wrapped in a fence ends the stage with the artifact of the bare object text |
| StageAgent.HistoryIsRounds | orchestrator/agents/stage_agent.py:187-237 | every history consists of assistant messages each followed by one tool message per call, in order |
| StageAgent.HistoryExtends | orchestrator/agents/stage_agent.py:159-168 | every history properly extends every earlier one |
| StageAgent.EveryCallIsAnswered | orchestrator/prompt_builder/builder.py:183-196 | in every request the answers follow their question at once, complete and in order |
| StageAgent.RequestsCarryTheTalk | orchestrator/prompt_builder/builder.py:173-196 | every request of every conversation shows, in order, exactly what was said so far, between the system prompt (and codebase) and the instruction, which comes last |
| StageAgent.LaterRequestsShowMore | orchestrator/agents/stage_agent.py:163-168 | what a request shows of the conversation is a proper beginning of what any later one shows |
| StageAgent.NextRequest | orchestrator/agents/stage_agent.py:187-237 | a request adds to the one before exactly the reply to that one and, per tool call, the text of what the registry answered: unknown tool, error or result |
| StageAgent.LastReplyDecides | orchestrator/agents/stage_agent.py:182-247 | a stage succeeds exactly if the last reply calls no tools and its cleaned text is an artifact; every other last reply gives its own error |
| StageAgent.KeyIsThePrompt | orchestrator/agents/stage_agent.py:135-141 | the response cache is asked under the prompt of the stage before anything was said |
| StageAgent.ProtocolHolds | orchestrator/agents/stage_agent.py:163-243 | whatever model and tools do, a stage sends at most the maximum number of requests and all keep to the protocol |
| StageAgent.StageAgent.CallTools | orchestrator/agents/stage_agent.py:195-237 | the inner loop gives the specified history and cache operations, malformed and non-object arguments included |
| StageAgent.StageAgent.TakeTurn | orchestrator/agents/stage_agent.py:165-193 | one pass through the loop is the specified turn |
| StageAgent.StageAgent.Converse | orchestrator/agents/stage_agent.py:163-243 | the loop is a conversation in the sense of the rows above, the iteration limit included |
| StageAgent.StageAgent.Run | orchestrator/agents/stage_agent.py:110-273 | a cached answer needs no request; a completed stage carries an artifact, caches it and hands back its tool cache; a failed one writes neither cache nor state |
| Clicks.NeverTooHigh | service/api/v1/endpoints/redirect.py:45-64 | under any interleaving and any failures the counter never exceeds the recorded events |
| Clicks.ExactIff | service/services/url_service.py:167-170 | the counter is exact if and only if no write was overtaken and every recorded click was counted |
| Clicks.NoOverlapNoRace | service/services/url_service.py:167-170 | handlers that do not overlap are never overtaken |
| Clicks.OverlapLosesClicks | service/services/url_service.py:167-170 | two handlers that have both read and both write leave the counter behind for good |
| Clicks.ExactIffNoOverlap | service/api/v1/endpoints/redirect.py:45-64 | when every handler has written or failed, the counter is exact if and only if no two handlers overlapped and none failed after its insert |
| Clicks.UrlService.Redirect | service/api/v1/endpoints/redirect.py:35-66 | no failure blocks the redirect, targets and expiry of all links stay; the two writes happen in order, and a counter falls behind exactly when a request for it fails between them |
| Clicks.SummaryCoversCounter | service/services/analytics_service.py:30-40 | the summary of a link over all time counts every event recorded for it, and so no fewer than its counter shows |
| Analytics.SelectedExactly | service/services/analytics_service.py:30-37 | exactly the clicks on the link between the two dates are selected, as often as they occur |
| Analytics.RangesAddUp | service/services/analytics_service.py:32-35 | two date ranges that meet account together for the range they make up |
| Analytics.CountIsHistogram | service/services/analytics_service.py:42-60 | a counter holds each key's number of occurrences and adds up to the number of keys |
| Analytics.HistogramEntries | service/services/analytics_service.py:42-60 | an entry is listed exactly when its count is right and positive |
| Analytics.MostCommonIsStable | service/services/analytics_service.py:71-78 | the ranking is a descending permutation in which ties keep their order |
| Analytics.TopIsBest | service/services/analytics_service.py:79-82 | no omitted referrer beats a listed one, and the listed ones add up to the total exactly when at most ten exist |
| Analytics.ByKeyIsAscending | service/services/analytics_service.py:67-70 | the dates come in strictly ascending order with nothing added or lost |
| Analytics.GetAnalytics | service/services/analytics_service.py:19-83 | a day, country or device is listed with n clicks exactly if n selected clicks go by that name; the ten referrers are right and no omitted one has more clicks; tables add up to the selected events, dates strictly ascending, counts descending |

## Left out

- Graph library, database, Redis, OpenAI, LangSmith, GitHub and git: foreign code; only the behaviour stated above is kept.
- Node crashes, and two `approve` commands that overlap on one run: the code does not serialise them, so atomic commands do not cover them.
- A decision that arrives after planning failed: the row stays `running` without a thread, as in the code, and nothing resumes it.
- Retries, rollback, force-stop and dynamic re-planning: designed but not implemented.
- `HybridGate` and `ValidatorAgent`: not part of the pipeline.
- The pull-request fallback in `orchestrator/scenarios/nodes.py:138-206`: the implementation artifact is an arbitrary node output instead.
- Audit, logging, metrics of cached stages, feedback scores, printing and prompting of the CLI: they feed nothing back into the model; the comment of a finished run stands for its feedback comment.
- Which exceptions a prompt builder or a database may raise: those calls are total here.
- Guardrail and injection tables: their verdicts are parameters of `Gateway.Call`.
- The recursion limit of Python: a very long inheritance line without a cycle is expanded in the model.
- The full JSON grammar: the cleaner needs only strings, escapes and what stands outside them.
- Binary floating point in prices and timestamps.
- Reads of the token budget that straddle midnight: a call has one day.
- `EXPIRE` failing after `INCR`: the two are one step, so a counter without expiry does not arise.
- `tool_cache: None` in `ToolRegistry.execute`: the agent always passes a cache.
- Cli.Orchestrator.EndRun: leaves out the feedback score and the completion time.
- Accounting.BudgetBound: needs every call charged to a user to be the user's own call under one budget, because the bound fails otherwise (`BoundIffOwner`); calls that overlap are in `OverlapBound`.
- Geographic lookup and device detection: their results are fields of a click event.
- Service CRUD, schemas, migrations, prompt texts, clarification, memory seeding: direct database reads and writes, or fixed texts.
