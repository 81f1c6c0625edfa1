# Verified models of the hard cores

A Dafny project that models the concurrent, text-transforming and tree-walking cores of this repository and proves
what they keep. `dafny verify dfyconfig.toml` checks all of it.

Code that changes state is a class whose methods are proved against a step function over a value; the theorems are
about that function, over every run. Where code does not keep a stronger statement that one would expect of it, the
exact condition under which it does is proved, with a concrete input that breaks it.

| component | modules | source |
|---|---|---|
| document worker pool | `WorkerPool`, `WorkerPoolProgress`, `WorkerPoolLeaks`, `WorkerPoolResults` | `scripts/docs-i18n/main.go` |
| ACP session store | `SessionStores`, `SessionStoreProperties` | `src/acp/session.ts` |
| ACP gateway agent | `GatewayAgents`, `GatewayAgentProperties`, `GatewayAgentFaults`, `GatewayAgentSettlements` | `src/acp/translator.ts` |
| browser relay worker | `BrowserRelays`, `BrowserRelayProperties`, `BrowserRelayOperations`, `BrowserRelaySnapshots` | `assets/chrome-extension/background.js` |
| parent-stream relay | `ParentStreams`, `ParentStreamProperties`, `ParentStreamOutcomes` | `src/agents/acp-spawn-parent-stream.ts` |
| placeholder masking | `Masking`, `MaskingMatches`, `MaskingSupply`, `MaskingTokens`, `MaskingRoundTrip`, `MaskingClash` | `scripts/docs-i18n/masking.go`, `placeholders.go` |
| tagged documents | `TaggedDocs`, `TaggedDocProperties`, `TaggedDocLayouts`, `TaggedDocEcho`, `TaggedDocOutcomes` | `scripts/docs-i18n/doc_mode.go` |
| front matter | `FrontMatters`, `FrontMatterProperties` | `scripts/docs-i18n/process.go`, `doc_mode.go` |
| prompt text | `PromptTexts`, `PromptTextProperties` | `src/acp/event-mapper.ts` |
| surrogate-safe slicing | `Utf16Slices` | `src/utils.ts` |
| import closure | `ImportClosures` | `scripts/check-gateway-optional-runtime-closure.ts` |
| archive manifest | `ArchiveManifests`, `ArchiveManifestProperties`, `ArchiveRoots` | `scripts/release-archive.ts` |
| dependency prune | `HostedPrunes`, `HostedPruneProperties` | `scripts/hosted-component-contract.ts` |
| marker blocks | `BlockLines` | `scripts/sync-moonshot-docs.ts` |
| splicing, segments | `Splices`, `SegmentMerges`, `SegmentMergeProperties` | `scripts/docs-i18n/markdown_segments.go`, `html_translate.go` |

`JsMaps`, `Texts`, `Decimal`, `Lines`, `Searching`, `Utf16`, `TextOrders` and `FileTrees` are shared: JavaScript's
insertion-ordered map, string searching, decimal numbers, line splitting, UTF-16 code units, text order and directory
trees.

What the proofs found, besides what the code promises:

* Two failing translators and a working one can wedge the pool for good: the second start-up failure finds the result
  channel full after the collector has stopped (`MixedPoolJams`). After an error the feeder can stay blocked exactly
  when there are more files than working translators and the failing ones leave room for it (`FeederLeaksExactly`).
* An idle session whose id is empty keeps a store of size one closed until its time limit passes
  (`EmptyIdBlocksTheStore`). A second prompt on a session, or the late failure of an earlier request, leaves a prompt
  that never settles unless its own request fails (`LostExactlyWhen`, `LostStaysLost`, `SecondPromptLosesFirst`). Two
  sessions with one key hide the later prompt's terminal event (`SharedKeyHidesLaterPrompt`, `SharedKeyHidesPrompt`).
  A cancel whose await outlasts the next prompt settles that prompt and leaves its run active; nothing else does
  (`StrandsExactlyWhen`, `CancelStrandsPrompt`).
* A debugger probe that fails after its tab was replaced hides the replacement from its session id
  (`LateProbeHidesATab`); nothing else does (`RoutedExactly`), and a worker restart repairs it (`RestartHeals`).
* The stream relay can lose text although no snippet is cut, because the buffer is cut first (`BufferCutLosesText`).
* A generated placeholder can already stand in the text, but only where it shares its leading underscores with a
  match before it (`SuppliedOnlyShadowed`), as in `__OC_I18N_5__OC_I18N_900000__` (`TextNameIsHandedOut`); a code span
  behind that text overwrites the name when it is unmasked (`HiddenNameIsOverwritten`).
* A document whose front matter has neither summary, title nor a read_when list is refused even if the translator
  returns it unchanged (`EchoedDocument`).

## Model

| member | source | states |
|---|---|---|
| WorkerPool.Conservation | scripts/docs-i18n/main.go:159-223 | Under every schedule the unsent, held, queued, counted and dropped jobs are exactly all jobs, whatever weights they are counted with |
| WorkerPool.StepInv | scripts/docs-i18n/main.go:159-223 | Every step keeps the pool's invariant: conservation, start-up failures accounted for, phases, tallies, and dropping only after a failed result was enqueued |
| WorkerPool.StepMeasure | scripts/docs-i18n/main.go:159-223 | Every event of every goroutine strictly lowers one measure |
| WorkerPool.SchedulesAreBounded | scripts/docs-i18n/main.go:159-223 | No schedule is longer than 5 * jobs + 4 * workers + 3 events |
| WorkerPoolProgress.WedgesExactlyWhenUnsafe | scripts/docs-i18n/main.go:159-223 | Some schedule gets stuck if and only if the configuration is not `Safe`, a condition on the number of files, workers and failing translators; with translators that all start it never happens |
| WorkerPoolProgress.MixedPoolJams | scripts/docs-i18n/main.go:170-174 | Any pool with two failing translators and a working one has a reachable stuck state |
| WorkerPoolProgress.SendersNeverBlock | scripts/docs-i18n/main.go:161-189 | With translators that all start, the result channel always has room for a sender |
| WorkerPoolProgress.CleanRunHandlesEveryFileOnce | scripts/docs-i18n/main.go:205-222 | A run without error handled every file exactly once, and processed + skipped is the number of files |
| WorkerPoolProgress.FailedRunStopsAtFirstError | scripts/docs-i18n/main.go:205-222 | A failed run read only successes before its last result and counted exactly those; a job is dropped only after a failure was reported |
| WorkerPoolProgress.ErrorsAreReported | scripts/docs-i18n/main.go:176-222 | With translators that all start, the call reports an error exactly when some job failed |
| WorkerPoolLeaks.FeederLeaksExactly | scripts/docs-i18n/main.go:159-223 | A reachable final state with the call returned and the feeder blocked exists if and only if a translator is configured, the files outnumber those that start, and the failing ones do not exceed the files by more than one when none starts, or at all otherwise |
| WorkerPoolLeaks.FeederMayLeak | scripts/docs-i18n/main.go:198-211 | The smallest such run: two files, one translator |
| WorkerPoolResults.ResultsConserved | scripts/docs-i18n/main.go:159-223 | Every schedule: the results read, queued and about to be sent are together exactly what the workers made of the files they held, whatever results are weighed with |
| WorkerPoolResults.OutcomesConserved | scripts/docs-i18n/main.go:176-222 | Every schedule: as many files were finished with an outcome as there are results with it |
| WorkerPoolResults.CountersAreTheWork | scripts/docs-i18n/main.go:176-222 | A call that returns without an error counts as processed and as skipped exactly the files that some worker processed and skipped, and the result read about a file is the outcome its worker had |
| WorkerPoolResults.ErrorIffSomeWorkerFailed | scripts/docs-i18n/main.go:176-222 | With translators that all start, a call that has returned reports an error exactly when some worker failed a file |
| WorkerPoolResults.NothingStartsAfterCancel | scripts/docs-i18n/main.go:176-196 | After a failure has cancelled the context, only files already being worked on are finished |
| SessionStores.SessionStore.constructor | src/acp/session.ts:24-29 | The limits are raised to at least one session and one second |
| SessionStores.SessionStore.RemoveEntry | src/acp/session.ts:35-46 | Removing an entry unindexes its run and aborts its controller |
| SessionStores.SessionStore.ReapIdleSessions | src/acp/session.ts:48-59 | The loop that deletes while iterating leaves the reaped store |
| SessionStores.SessionStore.EvictOldestIdleSession | src/acp/session.ts:61-78 | The minimum search evicts the least recently touched idle session, if its id is not empty |
| SessionStores.SessionStore.CreateSession | src/acp/session.ts:80-107 | Creation is an update, or a reap, an eviction and an insertion, or a failure |
| SessionStores.SessionStore.GetSession | src/acp/session.ts:111-117 | Looking a session up touches it |
| SessionStores.SessionStore.GetSessionByRunId | src/acp/session.ts:119-129 | Looking a run up goes through the index and touches the session |
| SessionStores.SessionStore.SetActiveRun | src/acp/session.ts:131-140 | Recording a run sets run id, controller and index |
| SessionStores.SessionStore.ClearActiveRun | src/acp/session.ts:142-153 | Clearing a run resets all three |
| SessionStores.SessionStore.CancelActiveRun | src/acp/session.ts:155-168 | Cancelling aborts the controller, then clears the run |
| SessionStoreProperties.EvictionPicksLru | src/acp/session.ts:61-78 | The search yields an idle session touched no later than any idle one, the first inserted among equals, and none exactly when all are active |
| SessionStoreProperties.CreateKeepsActiveSessions | src/acp/session.ts:48-107 | Creation, failed or not, leaves every other active session exactly as it was |
| SessionStoreProperties.CreateRemovesExactly | src/acp/session.ts:48-107 | Creation removes exactly the idle sessions past the time limit and, if the survivors fill the store, the least recently touched idle survivor |
| SessionStoreProperties.CreateFailsExactlyWhen | src/acp/session.ts:91-95 | Creation fails exactly when the survivors fill the store and all are active, or the eviction candidate has the empty id |
| SessionStoreProperties.EmptyIdBlocksTheStore | src/acp/session.ts:74-76 | While a lone idle session with the empty id is within its time limit, a store of size one refuses every other session; from then on it accepts them |
| SessionStoreProperties.EmptyIdIsReachable | src/acp/session.ts:74-95 | Creating that session in a new store reaches such a state |
| SessionStoreProperties.NeverMoreThanMaxSessions | src/acp/session.ts:91-105 | After any operations there are at most `maxSessions` sessions |
| SessionStoreProperties.SetRunKeepsIndexExactlyWhen | src/acp/session.ts:131-140 | Recording a run keeps the index exact if and only if the session is unknown, or the run id is not empty and either is already this session's run or the session has none and no session has it |
| SessionStoreProperties.ApplyKeepsIndex | src/acp/session.ts:35-168 | Every operation keeps the run index the exact inverse of the sessions' run ids, recording a run under its exact condition |
| SessionStoreProperties.ApplyKeepsPaired | src/acp/session.ts:35-168 | Run id and controller are set and cleared together |
| SessionStoreProperties.LookupByRun | src/acp/session.ts:119-129 | With an exact index, a run is found in the session that runs it and nowhere else, but for the empty session id |
| SessionStoreProperties.CancelAbortsOneController | src/acp/session.ts:155-168 | Cancelling aborts that session's controller and no other, and leaves the session idle |
| SessionStoreProperties.ApplyTouches | src/acp/session.ts:80-168 | Every operation leaves the session it uses touched now and every other one it keeps exactly as it was |
| SessionStoreProperties.UsedSessionBecomes | src/acp/session.ts:80-168 | What each operation does to the fields of the session it uses; a lookup changes only the time |
| SessionStoreProperties.UsedSessionOutlivesReaping | src/acp/session.ts:48-168 | A session that was used is not reaped before the time limit has passed since |
| SessionStoreProperties.RemovedEntry | src/acp/session.ts:35-46 | Removing an entry takes away that session alone, keeps the index exact and aborts its controller |
| GatewayAgents.AcpGatewayAgent.FinishCreate | src/acp/translator.ts:145-206 | The store part of newSession and loadSession |
| GatewayAgents.AcpGatewayAgent.SetSessionMode | src/acp/translator.ts:232-236 | Choosing a mode touches the session, or reports that there is none |
| GatewayAgents.AcpGatewayAgent.SendPrompt | src/acp/translator.ts:252-302 | One step from the prompt's arrival to its request: cancels the active run, checks the size, records run and pending entry |
| GatewayAgents.AcpGatewayAgent.FailRequest | src/acp/translator.ts:303-307 | The failure handler deletes by session, not by run |
| GatewayAgents.AcpGatewayAgent.BeginCancel | src/acp/translator.ts:311-317 | The first half of cancel, up to its await |
| GatewayAgents.AcpGatewayAgent.EndCancel | src/acp/translator.ts:324-328 | The second half resolves whatever prompt is pending by then |
| GatewayAgents.AcpGatewayAgent.HandleTool | src/acp/translator.ts:331-393 | Tool events go to the first pending prompt under the key: a call's start is announced once, every result sends an update, also for a call that never started |
| GatewayAgents.AcpGatewayAgent.HandleChat | src/acp/translator.ts:395-433 | Chat events reach the first pending prompt under the key unless they name another run |
| GatewayAgents.AcpGatewayAgent.HandleDelta | src/acp/translator.ts:435-462 | Only the part of a cumulative text beyond the length already sent goes out |
| GatewayAgents.AcpGatewayAgent.FinishPrompt | src/acp/translator.ts:464-468 | Settling a prompt removes its entry and clears its session's run |
| GatewayAgents.AcpGatewayAgent.FindPendingBySessionKey | src/acp/translator.ts:470-477 | The search returns the first pending entry with that key |
| GatewayAgents.AcpGatewayAgent.HandleDisconnect | src/acp/translator.ts:103-110 | A disconnect rejects every pending prompt, clears their runs and empties the map |
| GatewayAgentProperties.EveryInterleaving | src/acp/translator.ts:252-468 | After every interleaving the run index is the inverse of the run ids, run ids and controllers are paired, a pending prompt and an active run of one session name the same run, no tool call is announced as started twice, and each prompt was streamed as many characters as its longest text has, and that text if its texts extend one another |
| GatewayAgentProperties.NextInv | src/acp/translator.ts:103-468 | Every step keeps that invariant |
| GatewayAgentProperties.EmittedLength | src/acp/translator.ts:435-462 | Whatever the texts, the total length streamed is the greatest length seen |
| GatewayAgentProperties.EmittedIsLongest | src/acp/translator.ts:435-462 | For texts that extend one another, in any order and with repeats, the chunks concatenate to the longest |
| GatewayAgentProperties.TerminalChatSettlesOnlyItsRun | src/acp/translator.ts:395-433 | A terminal event for run r settles only r's prompt, exactly when that prompt is the first pending one under the key; otherwise it changes nothing |
| GatewayAgentProperties.SharedKeyHidesLaterPrompt | src/acp/translator.ts:470-477 | Of two pending prompts with one key, a terminal event for the later changes nothing |
| GatewayAgentProperties.LostExactlyWhen | src/acp/translator.ts:280-307 | A registered prompt disappears without settling exactly on a second prompt for its session or the failure of another run's request on it |
| GatewayAgentProperties.LostStaysLost | src/acp/translator.ts:280-307 | Nothing but the failure of its own request settles a lost prompt |
| GatewayAgentProperties.NoPromptIsLost | src/acp/translator.ts:252-329 | Without those two events every prompt is settled or still registered |
| GatewayAgentProperties.DisconnectSettles | src/acp/translator.ts:103-110 | A disconnect settles exactly the registered prompts |
| GatewayAgentSettlements.SettlesExactly | src/acp/translator.ts:103-468 | Every event: a prompt settles exactly when its own request fails (rejected), a cancel of its session ends (cancelled), the gateway disconnects (rejected), or a terminal chat event reaches it (by its state); a settlement never changes |
| GatewayAgentSettlements.EverySettlement | src/acp/translator.ts:103-468 | After every interleaving each prompt has the settlement of the first event that settles it, or none |
| GatewayAgentSettlements.EveryDelivery | src/acp/translator.ts:331-462 | After every interleaving the text streamed to a prompt is what the cumulative texts that reached it call for, and its tool notes are those of the tool events that reached it, without repeated starts |
| GatewayAgentSettlements.BusyExactly | src/acp/translator.ts:103-468 | Every event: a session is busy with a new prompt's run, free if a cancel, a refused prompt, the failure of one of its requests, the end of its prompt or a disconnect frees it, or as busy as before |
| GatewayAgentSettlements.AbortsExactly | src/acp/translator.ts:252-317 | Every event: a controller is aborted exactly by a cancel of, or a new prompt for, the session that holds it |
| GatewayAgentFaults.StrandsExactlyWhen | src/acp/translator.ts:103-468 | As long as no active run has settled, an event changes that if and only if it is the end of a cancel that finds a prompt pending on a session with an active run |
| GatewayAgentFaults.RunsStayLive | src/acp/translator.ts:103-468 | In an interleaving without such an event no settled run is ever left active |
| GatewayAgentFaults.CancelHitsLaterPrompt | src/acp/translator.ts:317-328 | A prompt that arrives during a cancel's await is resolved as cancelled while its run stays active in the store, its controller not aborted |
| GatewayAgentFaults.SecondPromptLosesFirst | src/acp/translator.ts:280-302 | From a new agent: one session and two prompts lose the first prompt |
| GatewayAgentFaults.SharedKeyHidesPrompt | src/acp/translator.ts:470-477 | From a new agent: two sessions with one key and a prompt on each; the second prompt's end is ignored |
| GatewayAgentFaults.CancelStrandsPrompt | src/acp/translator.ts:311-328 | From a new agent: a prompt between the halves of a cancel ends cancelled with its run active |
| BrowserRelays.ServiceWorker.PersistState | assets/chrome-extension/background.js:74-89 | What is saved is the list of connected tabs with ids, and the counter |
| BrowserRelays.ServiceWorker.RehydrateState | assets/chrome-extension/background.js:93-128 | A fresh worker ends with the two restoring phases applied to what was stored |
| BrowserRelays.ServiceWorker.CommitAttach | assets/chrome-extension/background.js:469-495 | Attaching numbers the session, fills both maps, and saves unless announcing throws |
| BrowserRelays.ServiceWorker.DetachTab | assets/chrome-extension/background.js:500-552 | Detaching removes the tab and its session id |
| BrowserRelays.ServiceWorker.ConnectOrToggle | assets/chrome-extension/background.js:554-587 | The toolbar button: locked, pending, connected or connecting |
| BrowserRelays.ServiceWorker.LoseDebugger | assets/chrome-extension/background.js:739-765 | A lost debugger removes the tab once and marks it for re-attachment |
| BrowserRelays.ServiceWorker.RemoveTab | assets/chrome-extension/background.js:814-837 | A closed tab leaves both maps, and the rest is saved |
| BrowserRelays.ServiceWorker.ReplaceTab | assets/chrome-extension/background.js:839-854 | A replaced tab hands its entry and its session id over |
| BrowserRelays.ServiceWorker.ProbeFails | assets/chrome-extension/background.js:262-277 | A failed probe deletes the tab and the session id read before it |
| BrowserRelays.ServiceWorker.RouteCommand | assets/chrome-extension/background.js:609-624 | Routing by session, child session, target, then first connected tab |
| BrowserRelayProperties.AttachedTabsNeverClash | assets/chrome-extension/background.js:74-128 | In every reachable state, restarts included, an attached tab's session id is numbered below `nextSession` and no other attached tab has it |
| BrowserRelayProperties.RestartRestores | assets/chrome-extension/background.js:93-128 | A restart brings back exactly the saved tabs that are alive, with the two maps inverse to each other |
| BrowserRelaySnapshots.SaveDescribes | assets/chrome-extension/background.js:74-89 | A snapshot holds an entry for every connected tab with both ids, with its ids and attach order, and nothing else |
| BrowserRelaySnapshots.SavesExactly | assets/chrome-extension/background.js:74-89 | Saving happens on request, on an announced attach, and when a known tab is removed or replaced, and describes the state then |
| BrowserRelaySnapshots.RestartAfterSave | assets/chrome-extension/background.js:74-128 | After any history, a restart that finds the last snapshot has exactly the connected tabs that are still alive, unchanged and reachable, and the same next session number |
| BrowserRelayOperations.OneOperationAtATime | assets/chrome-extension/background.js:554-607 | After any run a tab is locked exactly while a click on it is under way, and then another click does nothing |
| BrowserRelayOperations.WaitsExactly | assets/chrome-extension/background.js:554-830 | A tab waits for re-attachment from the loss of its debugger until the attempt ends, the tab is removed, the relay closes, the worker restarts or a click calls it off |
| BrowserRelayOperations.TabExactly | assets/chrome-extension/background.js:457-856 | Every event but a restart: a tab is attached under the next number, starts connecting, takes the place of another, is forgotten, or is as before |
| BrowserRelayOperations.SessionExactly | assets/chrome-extension/background.js:457-856 | Every event but a restart: a session id leads to the tab it is given to, nowhere if it is given up, or to where it led before |
| BrowserRelayOperations.RoutesExactly | assets/chrome-extension/background.js:609-640 | A command goes to the tab of its session id, else through its child session, else to the first connected tab with its target, else to the first connected tab |
| BrowserRelayProperties.RoutedExactly | assets/chrome-extension/background.js:258-276 | From a state in which every attached tab is found under its id, a step hides one if and only if it is a failed probe whose session has moved to another tab; and the exact list of steps that strand a stale id |
| BrowserRelayProperties.CommandsReachTheirTab | assets/chrome-extension/background.js:442-448 | With timely probes a command with an attached tab's session id reaches that tab, whatever else it names |
| BrowserRelayProperties.RestartHeals | assets/chrome-extension/background.js:93-128 | After any history a restart leaves no hidden tab and no stale id |
| BrowserRelayProperties.LateProbeHidesATab | assets/chrome-extension/background.js:839-846 | Attach, replace during the probe, probe fails: the replacement is attached and unreachable |
| ParentStreams.ParentStreamRelay.OnAssistantDelta | src/agents/acp-spawn-parent-stream.ts:319-353 | A delta wakes a stalled relay, is buffered, and flushes or arms the timer |
| ParentStreams.ParentStreamRelay.FlushPending | src/agents/acp-spawn-parent-stream.ts:244-255 | A flush disarms the timer, empties the buffer and shows a snippet unless it is blank |
| ParentStreams.ParentStreamRelay.OnLifecycle | src/agents/acp-spawn-parent-stream.ts:355-408 | End and error flush, announce, record and dispose |
| ParentStreams.ParentStreamRelay.OnWatcher | src/agents/acp-spawn-parent-stream.ts:267-289 | The watcher announces a stall once per silence |
| ParentStreams.ParentStreamRelay.OnLifetimeEnd | src/agents/acp-spawn-parent-stream.ts:292-307 | The lifetime timer records, announces and disposes |
| ParentStreams.ParentStreamRelay.DisposeRelay | src/agents/acp-spawn-parent-stream.ts:410-420 | Disposal stops all three timers, once |
| ParentStreamProperties.EveryRun | src/agents/acp-spawn-parent-stream.ts:222-426 | For every order of events and timers: the flush timer is armed exactly while text is buffered, the buffer is below 220 units, stalls and resumptions alternate, at most one outcome is announced and the same one recorded |
| ParentStreamOutcomes.OutcomeExactly | src/agents/acp-spawn-parent-stream.ts:292-420 | Over any run the announced and the recorded outcome are a completion, a failure or a time-out exactly when the first closing event is an end, an error or the lifetime timer, and none exactly when it is a disposal or there is none |
| ParentStreamOutcomes.StallExactly | src/agents/acp-spawn-parent-stream.ts:267-289 | After any run a tick of the watcher announces a stall exactly when notices are wanted, none is open, and no text was accepted for the whole delay |
| ParentStreamOutcomes.TimersExactly | src/agents/acp-spawn-parent-stream.ts:222-420 | After any run the watcher and the lifetime timer can fire exactly while no closing event has come, the flush timer exactly while moreover text waits and flushing by time is on |
| ParentStreamOutcomes.EveryNotice | src/agents/acp-spawn-parent-stream.ts:205-317 | Every snippet shown is not empty and has at most 220 units; as many start notices are given as were asked for |
| ParentStreamProperties.TextSurvivesExactly | src/agents/acp-spawn-parent-stream.ts:244-353 | Over any run, shown and buffered text together are the accepted text, white space aside, if and only if every delta was lossless, which its size and the buffer decide beforehand |
| ParentStreamProperties.CompletionShowsEverything | src/agents/acp-spawn-parent-stream.ts:355-408 | A run that ended by itself was shown completely under the same condition |
| ParentStreamProperties.SnippetVisible | src/agents/acp-spawn-parent-stream.ts:21-33 | A snippet keeps its text exactly when the compacted text fits, or the cut happens to replace a lone ellipsis by itself |
| ParentStreamOutcomes.ShownAtOnceExactly | src/agents/acp-spawn-parent-stream.ts:319-353 | An accepted delta is shown at once with all that was buffered exactly when it holds a blank line or the buffer reaches 220 units; otherwise it is buffered whole |
| ParentStreamOutcomes.TruncatedTo | src/agents/acp-spawn-parent-stream.ts:25-33 | A text that fits is kept, any other is cut to the limit with an ellipsis in its last place |
| Utf16.SpaceExactly | src/agents/acp-spawn-parent-stream.ts:21-23 | The white space that is compacted |
| ParentStreamProperties.BufferCutLosesText | src/agents/acp-spawn-parent-stream.ts:343-346 | A unit before 4000 spaces is lost although no snippet is cut |
| ParentStreamProperties.DisposedStaysSilent | src/agents/acp-spawn-parent-stream.ts:410-425 | A disposed relay says nothing more, except one start notice per notifyStarted |
| Masking.PlaceholderState.Next | scripts/docs-i18n/placeholders.go:20-30 | The loop returns the next name not among those collected from the text or already made |
| MaskingSupply.NameIsCollectedExactly | scripts/docs-i18n/placeholders.go:12-18 | A name is collected from the text if and only if one of its occurrences does not share its leading underscores with a match before it |
| MaskingSupply.PlaceholderExactly | scripts/docs-i18n/masking.go:13 | A placeholder in a text is the prefix, at least one digit and two underscores |
| MaskingSupply.CollectedShape | scripts/docs-i18n/placeholders.go:12-18 | Everything collected from a text is a placeholder that occurs in it |
| MaskingSupply.FirstNameIs | scripts/docs-i18n/placeholders.go:17-30 | A text without `__OC_I18N_900000__` gets that name first |
| MaskingSupply.SuppliedOnlyShadowed | scripts/docs-i18n/placeholders.go:12-30 | Every occurrence in the text of any name ever handed out for it begins with the last one or two underscores of a match |
| MaskingSupply.TextNameIsHandedOut | scripts/docs-i18n/placeholders.go:12-30 | In a text of `__OC_I18N_`, another number, the name 900000 and no further underscore, that name is the first one handed out |
| MaskingClash.HiddenNameIsOverwritten | scripts/docs-i18n/masking.go:16-89 | With a code span at its end such a text is validated, yet unmasking puts the code in place of the text's own name too |
| Masking.MaskMatches | scripts/docs-i18n/masking.go:23-71 | The builder loop over sorted matches is one masking pass |
| MaskingMatches.MatchExactly | scripts/docs-i18n/masking.go:9-14 | Each pattern told by its delimiters: the matcher at a position finds exactly the match that begins there |
| MaskingMatches.FindAllExactly | scripts/docs-i18n/masking.go:23-51 | The search finds matches only, disjoint and from left to right, and every match of the text begins with or inside one of them |
| MaskingMatches.PassMasksAll | scripts/docs-i18n/masking.go:23-71 | A pass gives every found match a placeholder of its own and changes no earlier one |
| MaskingMatches.EveryMatchIsMasked | scripts/docs-i18n/masking.go:16-71 | Every code span of a text, angle link and link target begins with or inside a match whose text stands behind a placeholder |
| Masking.MaskMarkdown | scripts/docs-i18n/masking.go:16-21 | Three passes: inline code, angle links, link targets |
| Masking.UnmaskMarkdown | scripts/docs-i18n/masking.go:73-80 | Placeholders are replaced in the order they were made |
| Masking.ValidatePlaceholders | scripts/docs-i18n/masking.go:82-89 | Accepts exactly when every placeholder occurs |
| MaskingTokens.ContainsIsToken | scripts/docs-i18n/masking.go:82-89 | In a masked text a placeholder occurs exactly where a pass put it |
| MaskingTokens.ReplaceIsSubst | scripts/docs-i18n/masking.go:73-80 | Replacing a placeholder everywhere replaces exactly its own occurrences |
| MaskingRoundTrip.MaskRoundTrip | scripts/docs-i18n/masking.go:16-89 | For every text without `OC_I18N_` and a digit: placeholders are distinct and never cut, validation accepts exactly when no later placeholder holds an earlier one, and unmasking restores the text exactly when validation accepts |
| MaskingRoundTrip.EchoTranslation | scripts/docs-i18n/translator.go:89-106 | An echoed translation is the text itself, or is rejected for a missing placeholder |
| MaskingRoundTrip.ReplyExactly | scripts/docs-i18n/translator.go:89-106 | A reply is refused exactly if it is blank or lacks a placeholder; otherwise its placeholders are replaced |
| MaskingRoundTrip.NestedLinkIsSwallowed | scripts/docs-i18n/masking.go:46-80 | `[x](<https://a>)` is rejected by validation and would not be restored |
| TaggedDocs.ParseTaggedDocument | scripts/docs-i18n/doc_mode.go:86-124 | Parsing by moving indices finds the sections between first tags, and refuses text outside |
| TaggedDocLayouts.ParsedExactly | scripts/docs-i18n/doc_mode.go:86-124 | A text is read as two sections if and only if its tags stand in order, each the first of its kind behind the one before, with nothing but white space outside them |
| TaggedDocLayouts.NewlinesTrimmed | scripts/docs-i18n/doc_mode.go:120-124 | A section without newlines at its ends is read as it stands |
| TaggedDocs.BuildFrontmatterTemplate | scripts/docs-i18n/doc_mode.go:133-171 | One line per translatable field, one marker pair per text |
| TaggedDocLayouts.TemplateExactly | scripts/docs-i18n/doc_mode.go:133-171 | The template line by line, with every marker spelled out |
| TaggedDocs.ApplyFrontmatterTranslations | scripts/docs-i18n/doc_mode.go:173-207 | Markers are read back in order and their fields set to the trimmed values |
| TaggedDocs.SetReadWhenValue | scripts/docs-i18n/doc_mode.go:209-219 | The list is padded up to the index, which is then set |
| TaggedDocProperties.TaggedRoundTrip | scripts/docs-i18n/doc_mode.go:82-124 | Parsing a formatted document gives back both sections if and only if neither contains its own closing tag |
| TaggedDocEcho.MarkersFoundExactly | scripts/docs-i18n/doc_mode.go:133-207 | In an unchanged template a field is found between its own markers if and only if no earlier line contains its start marker and its value does not contain its end marker |
| TaggedDocEcho.ReadableValue | scripts/docs-i18n/doc_mode.go:195-207 | A field found between its own markers reads back as its value |
| TaggedDocOutcomes.ReadsBackExactly | scripts/docs-i18n/doc_mode.go:173-207 | A field whose start marker is not quoted earlier reads back as its value, up to white space around it, if and only if the value does not contain its own end marker |
| TaggedDocOutcomes.EchoedDocument | scripts/docs-i18n/doc_mode.go:43-78 | Unless the template quotes its closing tag or a later field's start marker, an unchanged translation is refused if the body quotes its closing tag or the front matter has no translatable field, and otherwise keeps the body, and trims the fields if and only if no value quotes its own end marker |
| FrontMatters.SplitFrontMatter | scripts/docs-i18n/process.go:91-115 | The scan stops at the first line that trims to three dashes |
| FrontMatterProperties.FenceExactly | scripts/docs-i18n/process.go:99-104 | A fence is three dashes with nothing but white space around them |
| Texts.SpaceExactly | scripts/docs-i18n/process.go:104 | The white space that `TrimSpace` removes |
| FrontMatterProperties.SplitExactly | scripts/docs-i18n/process.go:91-115 | A document that begins with three dashes is split at its first later fence, less one newline in front of the body; any other is all body |
| FrontMatters.FrontRoundTrip | scripts/docs-i18n/process.go:91-134 | Splitting encoded front matter from its body gives both back if and only if no line of the YAML trims to three dashes |
| FrontMatters.WrittenDocumentIsSkipped | scripts/docs-i18n/doc_mode.go:221-254 | Given a YAML round trip, a document just written is skipped exactly when its source has the same hash |
| FrontMatterProperties.SkippedExactly | scripts/docs-i18n/doc_mode.go:221-254 | A document is skipped exactly if its translation can be read and records the present hash of the source; only a file that exists and cannot be read is an error |
| FrontMatterProperties.StampExactly | scripts/docs-i18n/process.go:117-134 | What is stamped on a translation, next to its own front matter, which is kept |
| FrontMatterProperties.EqualFoldExactly | scripts/docs-i18n/doc_mode.go:241 | Hashes are equal if they differ in the case of letters only |
| PromptTexts.ExtractTextFromPrompt | src/acp/event-mapper.ts:59-90 | The running byte total makes the loop throw exactly when there are parts and the joined text exceeds the limit |
| PromptTextProperties.EveryBlockIsPrompted | src/acp/event-mapper.ts:59-90 | In a prompt that is not refused, every text block, every embedded resource and every link annotation with its title and address stands on lines of its own |
| PromptTextProperties.SilentBlocksAreSkipped | src/acp/event-mapper.ts:64-79 | Other blocks and resources without text make no difference |
| PromptTexts.ByteLengthsAdd | src/acp/event-mapper.ts:80-83 | UTF-8 lengths add up exactly, less two where a surrogate pair forms at the seam |
| PromptTextProperties.EncodedReadsBack | src/acp/event-mapper.ts:80-83 | The bytes that are counted are UTF-8: read by the table of the standard they give the characters again |
| PromptTextProperties.PairReadsBack | src/acp/event-mapper.ts:80-83 | A surrogate pair counts as the character that UTF-16 writes so |
| PromptTexts.JoinMore | src/acp/event-mapper.ts:80-89 | Each further part adds one byte for the separator and its own length, lone surrogates included |
| PromptTexts.EscapeInlineControlChars | src/acp/event-mapper.ts:20-52 | The loop yields the escaped text |
| PromptTexts.EscapedTitle | src/acp/event-mapper.ts:54-57 | A title has no control character left, and no bracket without a backslash |
| PromptTextProperties.EscapingReadsBack | src/acp/event-mapper.ts:9-52 | Read as a JavaScript string literal, an escaped text without backslashes of its own is the text again |
| PromptTextProperties.TitleReadsBack | src/acp/event-mapper.ts:9-57 | So is an escaped title |
| PromptTextProperties.EscapedExactly | src/acp/event-mapper.ts:29-57 | Exactly the control characters and line separators are escaped, and in a title the four brackets |
| PromptTexts.LinkStaysOnOneLine | src/acp/event-mapper.ts:73-77 | A resource link annotation holds no control character, whatever its title and address |
| Utf16Slices.SliceUtf16Safe | src/utils.ts:248-274 | The adjusted bounds give the safe slice |
| Utf16Slices.BoundsMean | src/utils.ts:248-258 | A negative bound counts from the end and stops at the beginning, a bound behind the end is the end, no second bound means the end |
| Utf16Slices.PlainSlice | src/utils.ts:248-274 | Between positions that split no pair the slice is exactly the part between them |
| Utf16Slices.SafeSliceIsLongest | src/utils.ts:248-274 | Every well-formed part of the requested range lies within the slice |
| Utf16Slices.SafeSliceWellFormed | src/utils.ts:248-274 | A well-formed text gives a well-formed slice, at most one unit short at each end |
| Utf16Slices.SwappedBounds | src/utils.ts:254-258 | The order of two bounds does not matter |
| Utf16Slices.CutInTwo | src/utils.ts:248-274 | Cutting a text at any place loses nothing but the pair the cut would split |
| Utf16Slices.TruncatedPrefix | src/utils.ts:277-283 | Truncation is a prefix within the limit, one unit short exactly when the limit splits a pair |
| ImportClosures.RuntimeSpecifiers | scripts/check-gateway-optional-runtime-closure.ts:24-59 | Exactly the specifiers of imports and exports that load something at run time |
| ImportClosures.ErasedExactly | scripts/check-gateway-optional-runtime-closure.ts:24-36 | An import loads nothing exactly if it imports types only, as a whole or name by name |
| ImportClosures.RelativeExactly | scripts/check-gateway-optional-runtime-closure.ts:62-65 | Only specifiers that begin with a dot are followed |
| ImportClosures.CollectStaticClosure | scripts/check-gateway-optional-runtime-closure.ts:89-110 | For any finite import graph the worklist ends with exactly the reachable files in ascending order, or fails exactly when a reachable file cannot be loaded |
| ImportClosures.AssertOptionalRuntimeClosure | scripts/check-gateway-optional-runtime-closure.ts:112-140 | The check passes exactly when everything reachable loads, is not forbidden and imports no forbidden package |
| ArchiveManifests.ManifestBuilder.Visit | scripts/release-archive.ts:322-347 | The recursive walk adds exactly what its path gathers, also when parts of it are listed already |
| ArchiveManifests.CreateManifest | scripts/release-archive.ts:313-359 | The manifest is strictly ascending and equal to the union over the roots; it fails exactly on an invalid or missing root, an unsupported entry, or nothing left |
| ArchiveManifestProperties.GatherExactly | scripts/release-archive.ts:322-347 | A path is listed exactly when every directory on the way to it is accepted and so is it |
| ArchiveManifestProperties.DirectoriesFirst | scripts/release-archive.ts:356-358 | A directory stands before everything below it |
| ArchiveManifestProperties.GatheredIsClean | scripts/release-archive.ts:268-284 | From a valid root no listed path has an empty, `.` or `..` segment |
| ArchiveRoots.RootExactly | scripts/release-archive.ts:268-284 | Which texts are accepted as roots, told by their characters |
| ArchiveRoots.CleanExactly | scripts/release-archive.ts:279-283 | A path is clean exactly if no two slashes, dot or two dots alone stand between slashes or ends |
| ArchiveManifestProperties.TreeIsConsistent | scripts/release-archive.ts:322-347 | Every finite tree with proper names meets what the walk assumes of lstat and readdir |
| ArchiveManifests.ManifestIsUnique | scripts/release-archive.ts:313-359 | The manifest depends neither on the order of the roots nor on repeated ones |
| TextOrders.BelowExactly | scripts/release-archive.ts:356-358 | The order of the manifest is that of a dictionary |
| HostedPrunes.Measurer.Visit | scripts/hosted-component-contract.ts:319-342 | The walk counts the regular files and bytes not skipped at the top |
| HostedPrunes.Pruner.Visit | scripts/hosted-component-contract.ts:380-417 | The walk leaves the pruned directory and counts what is in it |
| HostedPrunes.PruneHostedDependencies | scripts/hosted-component-contract.ts:368-421 | The returned counts are the files and bytes of the tree that is left |
| HostedPrunes.PruneThenMeasure | scripts/hosted-component-contract.ts:319-421 | Measuring what is left finds what the prune reported |
| HostedPrunes.PruneExactly | scripts/hosted-component-contract.ts:368-421 | At any depth a path is gone if and only if it starts with an excluded package below a node_modules, leads through a foreign clipboard package, or is a .map or .d.ts file; every other path is as before |
| HostedPruneProperties.PrunedPaths | scripts/hosted-component-contract.ts:368-421 | The same with every name written out and without recursion: a path is gone if and only if one of its names makes it so |
| HostedPruneProperties.CountersAreTheFiles | scripts/hosted-component-contract.ts:375-417 | The counters are the number of paths that lead to a regular file, and the sum of those files' sizes |
| HostedPrunes.PruneTwice | scripts/hosted-component-contract.ts:368-421 | Pruning again changes nothing |
| BlockLines.LaterRewriteWins | scripts/sync-moonshot-docs.ts:15-51 | A later rewrite overrides an earlier one if and only if the end marker is in neither the start marker nor an earlier indented line; so rewriting twice is rewriting once |
| BlockLines.OutsideIsKept | scripts/sync-moonshot-docs.ts:28-50 | Text before the block's first line and after its last line is kept, but for the final newline when nothing follows |
| Splices.ApplyTranslations | scripts/docs-i18n/markdown_segments.go:115-131 | The builder loop puts the used pieces in place and copies every gap |
| Splices.UsedInOrder | scripts/docs-i18n/markdown_segments.go:121-128 | In any order and with any overlaps, the used pieces are disjoint and from left to right |
| Splices.SpliceOwnText | scripts/docs-i18n/markdown_segments.go:115-131 | If every piece equals the text it covers, the output is the input |
| Splices.LeftOutOverlaps | scripts/docs-i18n/html_translate.go:79-87 | Among pieces sorted by start, one is left out only if it begins inside a used one |
| Splices.SortedUnique | scripts/docs-i18n/html_translate.go:92-96 | If no two different pieces start at the same place, the unstable sort has one possible outcome |
| Splices.TiesMatter | scripts/docs-i18n/html_translate.go:92-96 | Two different pieces with one start: the two outcomes of the sort give different documents |
| Splices.ApplyHtmlReplacements | scripts/docs-i18n/html_translate.go:73-90 | The result is a splice of the replacements in a sorted order, which leaves out overlaps only; without ties every sorted order gives it |
| SegmentMerges.ExtractSegments | scripts/docs-i18n/markdown_segments.go:21-92 | The walk extends the last segment or appends one |
| SegmentMerges.WalkOrdered | scripts/docs-i18n/markdown_segments.go:47-64 | Segments are sorted and disjoint |
| SegmentMerges.SegmentsAreExact | scripts/docs-i18n/markdown_segments.go:42-64 | The segments hold exactly the visible characters of the collected text nodes |
| SegmentMergeProperties.SegmentsAreRuns | scripts/docs-i18n/markdown_segments.go:21-76 | The segments are the longest runs of visible text nodes outside code that have one block and only white space between them, from the start of the first to the end of the last |
| SegmentMerges.NoSegmentIsBlank | scripts/docs-i18n/markdown_segments.go:70-76 | No segment is blank, so the filter behind the walk drops none |

## Left out

- Network, WebSocket, Chrome, child-process and model calls: their outcomes are events or parameters.
- goldmark, the HTML tokenizer, YAML, SHA-256 and Go's `%v` formatting: parameters, with a YAML round trip assumed only where it is named.
- Regular expressions: the three masking patterns are modelled by exact matchers, not by an engine.
- Time: one clock reading per step; code that reads the clock twice in one step reads the same value here. UUIDs are fresh, non-empty ids.
- Go channels: the job channel is a hand-over between feeder and worker, the result channel a sequence of bounded length; cancelling the caller's own context is not modelled.
- WorkerPool.Next: what a worker does with a file is one event with an outcome.
- GatewayAgents: tool-call titles, permission prompts, the rate limiter and session listing; attachments and the working-directory prefix, of which only "the prompt fits" remains.
- BrowserRelays: badges, titles, the WebSocket, and the child-session map, which is only the `child` argument of `Route`; `requestFromRelay`, which nothing calls.
- BrowserRelayProperties.RoutedExactly: a failed probe may name any tab and session, more than the code can produce.
- ParentStreams: the wording of notices, the log file, heartbeats and the surfacing switch, which only hides notices; run and session keys.
- Masking: the bytes of invalid UTF-8.
- MaskingRoundTrip.MaskRoundTrip: texts that contain `OC_I18N_` and a digit are left out. `NameIsCollectedExactly` says which of their names the generator avoids; a name can also form at a seam between such a text and a placeholder.
- TaggedDocOutcomes.EchoedDocument: a template that quotes its closing tag, or a later field's start marker in an earlier line, is left out: that field is then read from the quotation, which could by chance hold the same text.
- FrontMatters: hashes are compared as hexadecimal digits, without Unicode case folding.
- PromptTexts: image blocks, and tool titles and kinds.
- `Utf16Slices`: bounds are integers; NaN, infinities and fractions are not modelled.
- ImportClosures: TypeScript's parser and the candidate list of `resolveSource`, which is a lookup from file and specifier to file.
- TextOrders: texts are ordered by code point; JavaScript orders by UTF-16 code unit, which differs only between characters above U+FFFF and those from U+E000 to U+FFFF.
- ArchiveManifests: a root that leads through a symbolic link; file sizes of directories; the archive itself and its progress tracker.
- HostedPrunes: excluded packages behind a symbolic link; the tree is a value, so nothing else may change it meanwhile.
- Splices: piece bounds within the document, as the parsers give them; Go panics otherwise.
- Translation memory, sequential modes, configuration, policy checks and reports: they would add only easy members.
