# A verification model of the agent harness

This Dafny project models the parts of the repository whose correctness rests on bookkeeping
that several functions share, and proves what they promise. `dafny verify dfyconfig.toml` checks
all of it.

## What is modelled

**The conversation context** (`agents/`). The message list is one mutable sequence that nearly every
mechanism rewrites: tool rounds append to it, commands are stripped from it, `/clear` truncates it, the
slim passes overwrite old results by stored index, merging deletes whole call/result pairs and renumbers
references, compaction replaces it. `Messages` defines the protocol all of them have to keep (each call is
answered by exactly one result, directly behind its assistant message, in call order), once as a scanner and
once by positions. `MergePairs`, `Slim`, `SlimImages`, `FailureLedger`, `ToolRound`, `Compressor` model the
mechanisms as methods that change the objects of `Context`, each against a specification; `MergeTheorems`,
`MergeDeletions`, `StaleReferences`, `SlimTheorems`, `CompactTheorems`, `CompactedContext`, `InjectionTheorems` prove
what the specifications mean for the messages themselves; `References` cuts texts at their references. `RunHistory` says what the
outside decides in each iteration (provider answers, hooks, polled input, tool results) and what a history of
rounds and compactions does to the protocol; `AgentLoop` is the run loop over arbitrary such inputs.

**The cron engine** (`cron/`, `desktop/bridge/cron.go`). `Calendar` is the Gregorian calendar on all integers,
`CronParser` the field compiler, matcher and bounded search, `CronStore` the job store with its jobs as objects,
`CronScheduler` whole histories of ticks and edits. Times are nanoseconds at a fixed offset of whole minutes.

**The call bridge** (`execproc/`). `BridgeSandbox` and `BridgeHost` are the two ends as objects, `Bridge` every
interleaving of their steps over the frame spool and the stdin pipe. `FrameTail` is the incremental frame
reader against the one-shot splitter.

**Smaller cores.** `ReasoningStream` (line-rewriting reader), `Frontmatter`, `FrontmatterTheorems`, `MemoryList`
(the timestamp writer and its reader), `JsonScan` (cutting a JSON value out of text, against the grammar of
sections 2 to 7 of RFC 8259), `McpLoader` (layered configuration with last-good content), `Reparentable` (the
detachable context as interleaved steps), `LineFolding` (output folding).

Library calls the code relies on (`strings`, `strconv.Atoi`, `bufio`) are written out in `Strings` and where they
are used.

## Where the code differs from its comments

The model follows the code. Each of these is stated as a theorem with its exact condition or as an example.

- Of the reads of a file range behind which enough other calls follow, merging keeps the oldest, not the newest
  (`MergeTheorems.ReadKeptIff`, `MergeTheorems.NewestReadIsDropped`).
- Renumbering rewrites a "#N" in the name of a folded file, and leaves the number in the note of a removed image as
  it was (`StaleReferences.FoldNamesFileIff`, `StaleReferences.NoteNamesItsMessageIff`).
- When the failure guard and the mode or a hook refuse calls of one batch, the guard's results are lost
  (`ToolRound.AnsweredIffNotMixed`, `ToolRound.MixedBatchLosesResult`), which leaves calls without results in
  the context.
- Injected pre-compact context can be put between an assistant and its result and then be kept in the recent
  window (`InjectionTheorems.InjectionBreaksIff`, `InjectionTheorems.InjectionCanSplit`).
- A user block too large to keep takes the original request with it (`CompactedContext.TaskSurvivesIff`).
- A step close to the 64-bit limit wraps and records values the field does not list (`CronParser.StepsRightIff`,
  `CronParser.WrappedStepAddsValues`).
- A failed tool call whose value is a JSON null or "" resolves in the script (`BridgeHost.FailureSeenIff`,
  `BridgeHost.SilentFailures`).
- After a quiet end of input further calls hang (`Bridge.Bridge.SettledIffInputOpen`, `Bridge.FailedScriptHangs`).
- Folding search hits never returns once it meets a `--` line (`LineFolding.EndsIff`,
  `LineFolding.SeparatedHitsNeverEnd`).

## Model

| member | source | states |
|---|---|---|
| Messages.WellPairedIsPositional | agents/merge_pairs.go:24-29 | The scanning definition of the pairing protocol and the positional one are the same: call j of the message at i is answered at i+1+j, and every tool message stands at such a place. |
| Messages.SameShapeSameResidue | agents/slim.go:83-85 | A pass that keeps roles, calls and result ids keeps the protocol, whatever it writes into results. |
| MergePairs.CollectToolPairs | agents/merge_pairs.go:65-98 | The loop over the index of call sites yields the call/result pairs of the context, in result order. |
| MergePairs.GroupByCall | agents/merge_pairs.go:161-207 | The grouping loops compute the groups by tool name and arguments that the plan is made of. |
| MergePairs.VictimsAreRedundant | agents/merge_pairs.go:161-207 | A pair is a victim of the grouping if and only if it is redundant by a definition that only looks at the pairs: unprotected, without image, and either a placeholder with a real sibling, or a repetition of the same text (any later read, for read_file). |
| MergePairs.RedundantHasSurvivor | agents/merge_pairs.go:161-207 | Every redundant pair has a pair with the same tool name and arguments that is real and not redundant. |
| MergePairs.SurvivorRepeatsText | agents/merge_pairs.go:180-183 | Other than for read_file, the stand-in even has the very same text and is older. |
| MergePairs.ReadSurvivesIffOldest | agents/merge_pairs.go:191-194 | Of the unprotected real reads of one file range exactly the oldest is not redundant, against the comment that promises the newest. |
| MergeTheorems.ReadKeptIff | agents/merge_pairs.go:120-230 | In any context a plain read result survives the merge if and only if it is among the protected newest pairs or the oldest plain read of its file range. |
| MergeTheorems.NewestReadIsDropped | agents/merge_pairs.go:191-194 | A well-paired context - two reads of a file with old and new content and two more calls - whose merge deletes the new content and keeps the old one. |
| MergePairs.PlanDeletions | agents/merge_pairs.go:209-230 | The loop over the groups computes which results and which calls go. |
| MergePairs.PlanIsRedundant | agents/merge_pairs.go:209-230 | Exactly the results and calls of redundant pairs are planned for deletion, so never a protected or an image pair. |
| MergePairs.NewIndexIsRank | agents/merge_pairs.go:259-267 | The old-to-new index is the inverse of the ordered list of survivors: strictly increasing and onto. |
| MergePairs.RenumberPlaceholders | agents/merge_pairs.go:268-285 | The loop rewrites the references of surviving placeholders and leaves every other message as it is. |
| MergePairs.MergeToolPairs | agents/merge_pairs.go:120-301 | The in-place merge computes the merged context, and reports whether there was anything to merge. |
| MergeTheorems.MergeKeepsPairing | agents/merge_pairs.go:120-301 | A well-paired context with unique call ids stays well paired. |
| MergeTheorems.MergeKeepsUniqueCalls | agents/merge_pairs.go:120-301 | No call id is doubled or invented by a merge. |
| MergeTheorems.MergedIsSubsequence | agents/merge_pairs.go:232-301 | The merged context is an order-preserving subsequence of the old one, each survivor being the same logical message: what changes are deleted calls, the numbers of a placeholder, and an added merge note. |
| MergeTheorems.DeletedResultHasStandIn | agents/merge_pairs.go:120-230 | Every deleted tool result has a surviving, non-placeholder result of a call with the same name and arguments. |
| MergeTheorems.DeletedOthersAreEmptyAssistants | agents/merge_pairs.go:240-257 | Everything else that is deleted is an assistant message without visible content all of whose calls were deleted. |
| MergeDeletions.ResultGoesIff | agents/merge_pairs.go:120-230 | A tool result goes if and only if it answers a call of the context, shows no image, has at least the protected number of such results behind it, and is a placeholder of a call some other such result still tells about or follows a last such result of the same tool and arguments with the same text (with any text, for read_file). |
| MergeDeletions.AssistantGoesIff | agents/merge_pairs.go:232-257 | In a paired context an assistant goes if and only if it has calls, the results of all of them go, and reasoning, signature and content are blank; users and system messages stay. |
| MergeDeletions.MergesIff | agents/merge_pairs.go:120-230 | The merge changes the context if and only if some result is dispensable in that sense, with two protected results by default. |
| MergeDeletions.PairMeans | agents/merge_pairs.go:65-98 | A collected pair is a tool result and the last call with its id, their name, arguments, text and whether any block is an image. |
| MergeTheorems.ReferencesFollowTheirTarget | agents/merge_pairs.go:260-285 | A reference in a surviving placeholder whose target survives names the same message afterwards. |
| References.CutRenders | agents/merge_pairs.go:46 | Cutting a string at its references loses nothing: the pieces read as the string. |
| StaleReferences.FoldNamesFileIff | agents/merge_pairs.go:268-285 | A surviving fold placeholder still names its file if and only if no "#N" in the file name is the number of a surviving message that moves (or is padded with zeros): the rewriting takes it for a reference. |
| StaleReferences.FoldNamesOtherFile | agents/merge_pairs.go:268-285 | A merge that turns the folded file a#5.go into a#3.go. |
| StaleReferences.NoteNamesItsMessage | agents/slim_image.go:84-87 | The note of a removed image carries the number of the message it stands in. |
| StaleReferences.NoteNamesItsMessageIff | agents/merge_pairs.go:268-285 | Behind a merge it still does if and only if it stands in the first text of a result that starts as a placeholder, or no message before that one was deleted: other results are not renumbered. |
| StaleReferences.NoteGoesStale | agents/merge_pairs.go:268-285 | A merge behind which such a note says message 5 in message 3. |
| MergeTheorems.AssertNoOrphanToolMsgs | agents/merge_pairs.go:305-328 | The self check reports an id exactly if some id is called but not answered or answered but not called. |
| MergeTheorems.WellPairedPassesSelfCheck | agents/merge_pairs.go:305-328 | A well-paired context never fails the self check. |
| Slim.FoldLosesNothing | agents/slim_text.go:274-303 | One more read of a file keeps the invariant that every folded read of a file not edited since is covered by a later read that is not folded, although the reads that covered it may be folded themselves. What that means line by line is stated by Slim.FoldedLinesStay. |
| Slim.FoldingLosesNothing | agents/slim_text.go:253-303 | After any history of results since a reset the invariant holds and the anchors stand in reading order. |
| Slim.FoldedLinesStay | agents/slim_text.go:253-303 | After any history every line a folded read showed of a file not edited since is shown by a later read that is not folded. |
| SlimTheorems.FoldedIff | agents/slim_text.go:253-303 | The anchors of a file are its reads in order, with the lines they show and the number of edits before them; a read is folded if and only if a later read shows all its lines or came behind an edit of the file. |
| SlimTheorems.EditsCounted | agents/slim_text.go:359-372 | The generation of a file is the number of its edits in the history. |
| SlimTheorems.OnlyRedundantChanges | agents/agent_loop.go:1339-1375 | A result already in the context changes only if the new one is the same command or search with the same output, the same read with the same long text, or a read that shows all its lines or finds the file edited; and then into a pointer to the new message. |
| SlimTheorems.RepeatedRunChanges | agents/slim_text.go:179-200 | The last run of the same command or search with the same output does change. |
| SlimTheorems.RepeatedReadChanges | agents/slim.go:147-165 | So does the last read of the path with the same text, when it is long enough. |
| SlimTheorems.StaleReadChanges | agents/slim_text.go:274-303 | So does every read not folded before that the new one shows all lines of, or whose file was edited since. |
| Slim.FoldRead | agents/slim_text.go:274-303 | Behind one more read every earlier one of known, non-empty or unknown range is folded if and only if it was before, its file was edited since, or every one of its lines lies in the new range; which messages that rewrites, and what anchor is added. |
| Slim.FoldedExactly | agents/slim_text.go:281-300 | Exactly the messages of the anchors that give way are rewritten. |
| Slim.NoteEdit | agents/slim_text.go:359-372 | An edit raises the generation of its file and adds up the statistics. |
| Slim.MarkFolded | agents/slim_text.go:388-395 | Exactly the anchor with the given index is marked. |
| Slim.RecordRead | agents/slim.go:147-165 | Duplicate reads are replaced as scanning the history of results back for the last read of the path would replace them. |
| Slim.DedupRerun | agents/slim_text.go:179-200 | Repeated calls are replaced as scanning the history of results back for the last identical call would replace them. |
| Slim.SlimToolResult | agents/slim_text.go:139-173 | Fold, edit note or rerun replacement as the history of results says; each index then scans back in the history with the new result. |
| Slim.AppendResult | agents/agent_loop.go:1339-1375 | A result entering the context slims exactly what the history of results makes redundant; every index stays what scanning that history back finds, each entry naming the tool message it was recorded for. |
| Slim.ApplyStale | agents/slim.go:171-188 | The round starts stay nondecreasing and within the context, and exactly the results of old rounds above the size limit are blanked. |
| Slim.SlimmedKeepsShapes | agents/slim_text.go:139-200 | No replacement changes a role, a call, a result id or anything but a tool result. |
| SlimImages.ApplyImageSlim | agents/slim_image.go:91-165 | The pass strips the images the reference rule names, counts them, and keeps the slim state valid. |
| SlimImages.NewestImagesStay | agents/slim_image.go:143-152 | The newest screenshots stay, user messages stay, and a rewritten message shows no image any more. |
| SlimImages.PositionRank | agents/slim_image.go:133-148 | The rank of an image result in the list the loop builds is the number of image results behind it. |
| SlimImages.Ages | agents/slim_image.go:108-131 | The age map the loop fills is the number of later tool results from the cutoff on. |
| SlimImages.StripImages | agents/slim_image.go:178-196 | The images go; the note is added to the last block left, or becomes a text of its own when no text is left. |
| LineFolding.FoldRepeatedLines | agents/slim_text.go:414-433 | The nested loops fold runs of at least four equal lines. |
| LineFolding.FoldingIsLossless | agents/slim_text.go:414-433 | If no line looks like a fold marker, reading the folded lines back gives exactly the original lines. |
| LineFolding.EndsIff | agents/slim_text.go:464-484 | The loop over the blocks of search hits ends if and only if it meets no "--" line: it never steps over the separator. |
| LineFolding.FoldPerFileMatches | agents/slim_text.go:446-489 | What is returned when the call returns, and that it returns exactly in that case. |
| LineFolding.SeparatedHitsNeverEnd | agents/slim_text.go:464-484 | Any two hits with a "--" line between them, on which the loop never ends. |
| FailureLedger.Ledger.Record | agents/fileledger.go:233-248 | The order list stays a duplicate-free listing of the keys, the recorded key last. |
| FailureLedger.Ledger.RecordToolOutcomes | agents/fileledger.go:312-339 | The entries become those of the trace specification: failures recorded in call order, everything cleared by a successful state change. |
| FailureLedger.BlockedIffFailedLastRound | agents/fileledger.go:268-277 | A call is blocked in a round exactly if the round before ran it, its last run there failed without declaring an unchanged retry fine, and no write, edit or todo call succeeded there. |
| FailureLedger.BlockedIffHeldBack | agents/fileledger.go:268-339 | The same by calls and answers alone: the last failing answer of the last round to this call does not declare a retry fine, and no write, edit or todo call of that round was answered with success. |
| FailureLedger.NeverBlockedTwice | agents/agent_loop.go:2427-2454 | A call blocked in the last round of a trace that respects the guard is not blocked in the next. |
| FailureLedger.GuardedRunsNeverRepeatBlocks | agents/agent_loop.go:2427-2454 | Over a whole run no two consecutive rounds block the same call. |
| ToolRound.BlockedDoesNotRun | agents/agent_loop.go:2438-2454 | A call the ledger blocks has no result among those of the batch that ran. |
| ToolRound.RoundRespectsGuard | agents/agent_loop.go:2419-2614 | So any batch that is run extends the trace by a round that respects the guard, and the ledger becomes that of the longer trace. |
| ToolRound.RunTools | agents/agent_loop.go:2419-2614 | Results returned and ledger after any batch with distinct ids, by ledger and gate: a call that failed in the last round is held back with an error of code repeated_failed_call (or without result, when mode or hooks refuse another call); a call the mode denies or a hook blocks never runs and returns an error with the mode text or the reason; every other call runs and returns the engine answer. |
| ToolRound.GatesDecide | agents/agent_loop.go:2419-2614 | The same of the specification of a batch, for every call of it. |
| ToolRound.ExecutedInOrder | agents/agent_loop.go:2476-2600 | Calls that may run side by side run behind the others, both kinds in call order. |
| ToolRound.AnsweredIffNotMixed | agents/agent_loop.go:2510-2522 | Every call of a batch gets its result if and only if the failure guard and the mode or hooks did not both refuse something in it: the second list of refusals overwrites the first. |
| ToolRound.MixedBatchLosesResult | agents/agent_loop.go:2510-2522 | The input on which it happens: a call fails, and the next batch repeats it beside a call the mode refuses; the repeated call has no result and the context is ill paired. |
| ToolRound.AppendRound | agents/agent_loop.go:1325-1376 | The write-back appends the reply and the results of the answered calls in call order; which earlier texts that slims, result by result, and what history it leaves; the slim state stays valid. |
| ToolRound.RoundPairedIffAnswered | agents/agent_loop.go:1325-1376 | The round keeps the context well paired if and only if every call was answered. |
| ToolRound.RoundKeepsUniqueCalls | agents/agent_loop.go:1325-1376 | Fresh distinct ids keep call ids unique. |
| Compressor.SplitMessages | agents/llm_compressor.go:805-869 | The loops split the context by one place per message, find the first real request, and extend the recent window back to its assistant. |
| Compressor.TrimRecentWindow | agents/llm_compressor.go:246-258 | The trimmed window is the longest suffix within the token limit that does not start with a tool result. |
| CompactedContext.Compact | agents/llm_compressor.go:355-475 | It returns a context if and only if the summarizer answers and there is something besides prompt, old summaries and a fitting last run of user messages. That context is, message by message: the leading system prompt, one summary with the given text, the original task if it stands before the last run, a window that ends right before that run, and that run itself unless it exceeds the limit. |
| CompactedContext.CompactedIsLaidOut | agents/llm_compressor.go:355-475 | The window holds the last messages before the run, extended over tool results to the message they answer, and loses from its old end what does not fit the limit. |
| CompactedContext.OneSummary | agents/llm_compressor.go:449-453 | In a well-formed context the summary is the only one. |
| CompactTheorems.SplitIsPartition | agents/llm_compressor.go:805-869 | Each message goes to exactly one of system, latest user, summary and history. |
| CompactTheorems.LatestUserIsLastRun | agents/llm_compressor.go:806-818 | The latest-user part is the last run of user messages, whole and in order. |
| CompactTheorems.ExtensionReachesAssistant | agents/llm_compressor.go:859-866 | Extending a window that starts with a tool result always ends at a message that is none. |
| CompactTheorems.RecentIsPaired | agents/llm_compressor.go:841-867 | The kept window has no orphan result and no dangling call. |
| CompactTheorems.TrimmedIsPaired | agents/llm_compressor.go:246-258 | Nor has the trimmed window. |
| CompactTheorems.CompactKeepsPairing | agents/llm_compressor.go:355-475 | A context that is paired up to its latest user messages compacts to a well-paired one. |
| CompactTheorems.CompactKeepsUniqueCalls | agents/llm_compressor.go:355-475 | Compaction neither doubles nor invents calls. |
| CompactedContext.TaskSurvivesIff | agents/llm_compressor.go:355-475 | In the returned context the first real request stands as a copy right behind the summary, or verbatim among the last user messages, unless those hold it and exceed the limit: then no message returned is a request, and a copy can only be an older one inside the window. |
| CompactedContext.TaskCanBeLost | agents/llm_compressor.go:359-362 | A context whose only request is lost that way: all that is returned is the summary. |
| Compressor.InjectPreCompactContext | agents/hooks.go:135-153 | Where the backwards walk puts the injected message. |
| InjectionTheorems.InjectionOnlyGrowsHistory | agents/hooks.go:117-153 | Without a recent window, any number of injected texts stand in the history in a row, at the place of the first, and change no other part of the split. |
| InjectionTheorems.InjectionKeepsAnchor | agents/hooks.go:117-153 | Behind any number of injected texts the task anchor names the same message as before. |
| InjectionTheorems.InjectionBreaksIff | agents/hooks.go:135-153 | With injected text, compaction yields a well-paired context if and only if it does not split a tool group: a window is kept, a tool result stands right before the trailing user messages, and it fits the limit together with the last injected message. |
| InjectionTheorems.InjectionCanSplit | agents/hooks.go:135-153 | An ordinary, well-paired context in which that happens: compaction takes place and its outcome is ill paired. |
| LoopLemmas.ConsumedResidue | agents/commands.go:25-38 | Stripping or replacing command messages leaves the pairing as it is. |
| LoopLemmas.ConsumedKeepsSlim | agents/commands.go:25-38 | It moves no message a stored index names, since commands only wait behind all of them. |
| LoopLemmas.ConsumedExactly | agents/commands.go:25-116 | What is left is every message that is no command and a user message for each skill a command loads, in order. |
| LoopLemmas.OldResultsBlanked | agents/slim.go:171-188 | Without image slimming a pass over the texts changes exactly the first text of results over the size limit and older than the given number of rounds. |
| AgentLoop.Run.InjectCommands | agents/commands.go:25-116 | The loop consumes all commands and raises exactly the flags they ask for. |
| AgentLoop.Run.Intake | agents/agent_loop.go:1066-1097 | Polled input, commands and /clear: what the context becomes, and when the run halts. |
| AgentLoop.Run.MergePass | agents/agent_loop.go:1110-1119 | The merge inside the run and the reset of every stored index behind it. |
| AgentLoop.Run.SlimPasses | agents/agent_loop.go:1105-1119 | The whole slim step of an iteration: stale texts, then images, then (when enabled) the merge; exactly which context results, with every index still right. |
| AgentLoop.Run.MaybeCompact | agents/agent_loop.go:2137-2310 | The context behind a compaction attempt, with its injections and handoff messages; a compaction is noted exactly if one takes place. |
| RunHistory.AfterCompactionMeans | agents/agent_loop.go:2137-2310 | A compaction takes place, and is noted, if and only if it is configured, forced or neither undue nor backing off, answered, and has something to compress; then the compacted context, the handoff and the open todos are the new context, otherwise nothing changes. |
| AgentLoop.Run.StreamWithRetry | agents/agent_loop.go:1810-1893 | At most max(1, MaxRetries) calls, each with the context, the first one with the pending reminder. A reply that only failures to retry precede is delivered, behind exactly that many calls; giving up earlier means an abort, a failure not to retry or a cancelled wait; overflow is reported exactly when the last failure was too long and no retry was due. |
| AgentLoop.Run.StopPoint | agents/agent_loop.go:1156-1314 | A reply without calls lets the run go on exactly for one of the five reasons, and each of them is used up by it; the context behind it is stated exactly. |
| AgentLoop.Run.RunRound | agents/agent_loop.go:1317-1378 | A tool round inside the run: context, ledger and trace behind it, and the note of exactly this round. |
| AgentLoop.Run.Iterate | agents/agent_loop.go:1063-1379 | One iteration keeps everything the run relies on, notes exactly the compactions and the round that take place in it, goes on exactly when it should, leaves exactly the context its steps lead to, uses up one unit of slack when it continues, and makes at most max(1, MaxRetries) requests, whose messages are exactly the prepared context (with the pending reminder on the first). |
| AgentLoop.Run.RunStream | agents/agent_loop.go:1063-1379 | Over any behaviour of the outside and any configuration: every request sent before the first step that mixes refusals or splits a tool group is well paired, up to there every step leaves the context well paired, and that step leaves it ill paired; so without such a step all requests are well paired. The failure ledger is that of the trace of rounds, each round respects the guard, and no call is blocked in two consecutive rounds. With T tool rounds and P stop-point inputs there are at most T + P + 14 iterations. Each turn is one iteration, from the context the one before left, and the run ends before the last turn only at the iteration limit or when an iteration does not ask for another. |
| RunHistory.QuietIsUnbroken | agents/agent_loop.go:1063-1379 | No step breaks the pairing if no mode or hook refuses a call, and compaction keeps no recent window or gets no injected text. |
| Calendar.DateOfDay | cron/parser.go:146-167 | Day number to date inverts date to day number. |
| Calendar.DayOfDate | cron/parser.go:146-167 | And the other way round. |
| Calendar.MonthLengths | cron/parser.go:146-167 | Which dates exist: the lengths of the months and 29 February in leap years. |
| Calendar.NextDay | cron/parser.go:146-167 | The day behind a date is the next one of its month, the first of the next month, or New Year. |
| Calendar.WeekdaySteps | cron/parser.go:155-156 | 1 January 1970 was a Thursday, and the weekdays follow one another. |
| Calendar.WeekdayIsCivil | cron/parser.go:155-156 | The weekday of every date is the one the Sakamoto congruence over year, month and day gives. |
| Calendar.WindowHasDate | cron/parser.go:171-182 | Every month and day that exists at all, 29 February included, occurs in any 2921 consecutive days. |
| Calendar.WindowHasWeekday | cron/parser.go:171-182 | So does every weekday in every month. |
| Calendar.LongestWait | cron/parser.go:171-182 | 2921 is exact: from 29 February 2096 on there is none for 2920 days. |
| CronParser.ParseField | cron/parser.go:93-143 | The nested loops compile a field, 64-bit wrap-around of the step included. |
| CronParser.FieldMeaning | cron/parser.go:93-143 | If no step wraps, an accepted field matches exactly what its elements list, all in range, and at least one value. |
| CronParser.ElementMeans | cron/parser.go:81-136 | What a value, a range and a star with or without a step are read as, for decimal numbers and for the names of months and weekdays in any case, with their errors. |
| CronParser.StepsRightIff | cron/parser.go:138-140 | The values a range with a step records are the documented ones if and only if the first sum does not exceed the 64-bit range. |
| CronParser.WrappedStepAddsValues | cron/parser.go:138-140 | The minute field 5/9223372036854775807 is accepted and matches minute 3, which its element does not stand for. |
| CronParser.Parse | cron/parser.go:46-69 | The five fields in order, the first error winning. |
| CronParser.NextAfter | cron/parser.go:171-182 | The least matching minute behind t; none only if no minute ever matches. By the calendar: date and time of day of the answer are on schedule, none in between is, and if only the day of the week is restricted, the weekday of the date by the congruence is a listed one. |
| CronParser.MatchMeans | cron/parser.go:146-167 | A time matches if and only if its minute, hour and month are listed and its day of the month or civil weekday is, either one sufficing when both are restricted. |
| CronParser.NextIsUnique | cron/parser.go:171-182 | That determines the answer. |
| CronParser.MatchRecurs | cron/parser.go:171-182 | A minute that ever matches is followed, from anywhere, by another one within 2922 days. |
| CronParser.FiresIffSatisfiable | cron/parser.go:146-167 | An expression fires at some time if and only if its fields can be met together. |
| CronParser.NeverFiresIff | cron/parser.go:146-167 | An accepted expression never fires exactly if its day of the month lies in none of its months and no day of the week may serve instead. |
| CronStore.IdNumOfNewId | cron/store.go:396-404 | The number read back from a new id is the counter it was made of, so ids never collide. |
| CronStore.Due | cron/scheduler.go:21-32 | The loop lists exactly the jobs that are due, in order. |
| CronStore.Store.Add | cron/store.go:109-138 | Refused with the right reason, or appended with the next id and the first slot behind now. |
| CronStore.Store.Update | cron/store.go:165-213 | Only the one job changes, in what was given; a new expression restarts from now. |
| CronStore.Store.Delete | cron/store.go:243-257 | Exactly the job with the id goes. |
| CronStore.Store.Advance | cron/store.go:264-306 | Only the one job changes; its next run is the least match behind now; deletion is asked for exactly for one-shot and expired jobs. |
| CronStore.Store.MarkFinished | cron/store.go:311-323 | Only status and last run of the one job change. |
| CronStore.GoodAfterAdvance | cron/store.go:264-306 | A due job that is advanced moves to a later slot on schedule, keeps its fired slots strictly increasing and as many as its run count, and is not due any more. |
| CronStore.GoodAfterUpdate | cron/store.go:165-213 | An edit keeps that. |
| CronStore.SlotIsScheduled | cron/store.go:264-306 | The next slot of such a job is a time of day on a date its expression names. |
| CronScheduler.Tick | desktop/bridge/cron.go:59-141 | A tick serves each due job once, leaves all others alone, leaves no job due, returns exactly the firings of the due jobs (none while the feature is off), and deletes exactly the jobs that fired with a session and are one-shot or past their expiry. |
| CronScheduler.FiresExactly | cron/scheduler.go:21-32 | Exactly the jobs that are not paused and whose next run is not after now fire, each once and for that slot. |
| CronScheduler.Handle | desktop/bridge/cron.go:59-141 | One event of a history: it fires exactly what a tick finds due, for no job and slot that fired before. |
| CronScheduler.RunHistory | desktop/bridge/cron.go:59-141 | Over any history of ticks, edits and completions under a clock that never goes back no job sticks; among all firings returned, those of deleted jobs included, no pair of job and slot occurs twice, and of the jobs still there they are exactly the slots fired for. |
| BridgeSandbox.Sandbox.FailAllPending | execproc/prelude_bridge.js:226-236 | All calls in flight are rejected, once; the first reason is kept. |
| BridgeSandbox.Sandbox.Handle | execproc/prelude_bridge.js:238-273 | A reply settles the promise of its own id and no other; any other line closes the channel. |
| BridgeSandbox.Sandbox.EndOfInput | execproc/prelude_bridge.js:294-296 | The end of input rejects the calls in flight; without any it changes nothing. |
| BridgeSandbox.Sandbox.CallTool | execproc/prelude_bridge.js:303-344 | A call is sent and entered into the table, or rejected at once; in both cases table and keep-alive flag agree with it. |
| BridgeSandbox.Sandbox.ScriptEnds | execproc/prelude_bridge.js:610-637 | The keep-alive flag follows the end of the script. |
| BridgeHost.Host.OnLine | execproc/script.go:594-619 | Calls are numbered in frame order when they are read. |
| BridgeHost.Host.Respond | execproc/script.go:623-650 | A call is answered at most once and by a reply that carries its id, in any order of completion; the reply is in the pipe exactly if the channel was open and took it. |
| BridgeHost.FailureSeenIff | execproc/script.go:642-650 | The script sees a failed call fail if and only if its value is neither a JSON null nor the JSON string ""; with those it resolves. |
| BridgeHost.SilentFailures | execproc/script.go:642-650 | With those two values a failed call looks to the script like one that succeeded without a value. |
| BridgeHost.SeenByValue | execproc/script.go:623-763 | What the script sees of each kind of value, of successes and of failures. |
| BridgeHost.Host.Write | execproc/script.go:706-723 | Nothing is written once the channel is closed, and a failed write closes it. |
| Bridge.Bridge.Act | execproc/prelude_bridge.js:193-344 | Every interleaved step keeps: one settling per promise, by its own reply or by the closing of the channel; dispatch in frame order; the keep-alive flag equal to its two conditions. |
| Bridge.Bridge.Deliver | execproc/prelude_bridge.js:238-273 | A delivered reply settles the one unsettled promise of its id and no other; a delivered shutdown leaves no call in flight and closes the channel to later calls. |
| Bridge.Bridge.CallIsAnswered | execproc/script.go:594-650 | A call that is read, answered and delivered while the channel is open resolves or rejects with its own answer. |
| Bridge.Bridge.Run | execproc/prelude_bridge.js:193-344 | The same over any run; if the input ends in it, every promise made before is settled. |
| Bridge.Bridge.EndInput | execproc/prelude_bridge.js:294-296 | The end of the input leaves every promise made before it settled; a quiet one leaves no other trace. |
| Bridge.Bridge.WindDown | execproc/script.go:652-690 | When the host shuts down and the pipe is drained, every promise is settled unless the input had ended before. |
| Bridge.Bridge.SettledIffInputOpen | execproc/prelude_bridge.js:294-344 | Whatever steps follow a call, once the host has wound down its promise is settled if and only if the call was refused on the spot or the input had not ended when it was made. |
| Bridge.Bridge.CallAfterQuietEnd | execproc/prelude_bridge.js:294-344 | A call made after the host closed its end while nothing was in flight is never settled by any run and keeps the process alive. |
| Bridge.FailedScriptHangs | execproc/prelude.js:159-170 | A run that gets there: the error frame of an unhandled rejection is read while no call is in flight, the input ends, and what the script calls then hangs. |
| FrameTail.Tail.Consume | execproc/script.go:484-501 | However the bytes were chunked, the callback has seen the terminated lines of all of them, and the rest is kept. |
| FrameTail.Tail.Finish | execproc/script.go:505-525 | The raw text returned is everything read. |
| FrameTail.SplitFrames | execproc/executor.go:546-556 | The one-shot form: frames in order, the other lines joined. |
| FrameTail.EachLineOnce | execproc/executor.go:546-556 | Each line goes to exactly one side, in order. |
| FrameTail.NoFramesNoLoss | execproc/executor.go:546-556 | A text without frames is kept whole up to outer white space. |
| FrameTail.IncrementalFrames | execproc/script.go:484-525 | The frames dispatched while reading are those of the one-shot form, a last line without newline aside. |
| ReasoningStream.Body.Read | provider/reasoning_stream.go:104-131 | Any buffer size delivers the next bytes of the concatenated rewritten lines, and the end of the stream only after all of them. |
| ReasoningStream.Body.ReadAll | provider/reasoning_stream.go:104-131 | Any sequence of reads delivers them without loss or repetition. |
| ReasoningStream.LinesKeepAllBytes | provider/reasoning_stream.go:104-131 | Cutting into lines loses no byte. |
| Frontmatter.FindFrontmatter | memory/stamp.go:131-157 | The loops find the opening and closing delimiter or report none. |
| Frontmatter.FrontmatterIndent | memory/stamp.go:234-247 | The loop finds the shortest indentation of the lines that are not blank, the first of that length. |
| Frontmatter.SetFrontmatterField | memory/stamp.go:168-209 | The loop computes the stamped text. |
| FrontmatterTheorems.StampIsLocal | memory/stamp.go:159-209 | Only the first top-level line with the key changes, or one line is added right before the closing delimiter; no block is ever created. |
| FrontmatterTheorems.StampedText | memory/stamp.go:168-209 | The lines of the written text are the edited lines, and the byte order mark stays. |
| FrontmatterTheorems.StampIsIdempotent | memory/stamp.go:168-209 | Stamping the same value again changes nothing. |
| FrontmatterTheorems.StampTakesEffect | memory/stamp.go:168-209 | Wherever there is a block, its first top-level line with the key holds the value behind a stamp. |
| FrontmatterTheorems.BlockIff | memory/stamp.go:131-157 | A block opens with the first line that is not blank, which has to be "---", and closes with the next "---" or "...". |
| FrontmatterTheorems.KeyMeans | memory/stamp.go:264-288 | The key of a line may be indented, quoted, and have white space in front of its colon. |
| Strings.TrimmedTo | memory/stamp.go:131-157 | Trimming takes the outer white space, all of it and nothing else. |
| MemoryList.FrontmatterFields | memory/list.go:157-187 | The loop reads the flat fields of the block. |
| MemoryList.ListedFile | memory/list.go:104-126 | The first non-empty value of type and modified. |
| MemoryList.FieldIsKeyLine | memory/list.go:157-187 | Every line the reader takes for a key is a top-level line with that key to the writer. |
| MemoryList.ReaderSeesBlock | memory/list.go:157-170 | In a flush-left block the reader sees the lines the writer edits. |
| MemoryList.FieldMeans | memory/list.go:171-187 | The reader takes key and value of a line whatever the white space around the colon and the quotes around the value. |
| MemoryList.NoBlockNoFields | memory/list.go:157-170 | A text that does not open a block, or never closes it, lists nothing. |
| MemoryList.ListedIsStamped | memory/list.go:104-187 | For flush-left blocks between "---" lines the listing shows exactly the RFC 3339 timestamp that was stamped. |
| JsonScan.FirstJSONValue | provider/error_body.go:113-152 | The scanning loop computes the first bracketed value. |
| JsonScan.ValueIsNeutral | provider/error_body.go:113-152 | Inside brackets any well-formed JSON value leaves the scan where it was, whichever bracket is counted. |
| JsonScan.FirstValueIsExact | provider/error_body.go:113-152 | Behind noise without brackets and in front of anything, a well-formed object or array is cut out exactly. |
| JsonScan.CutsAtBalance | provider/error_body.go:113-152 | Of any text at all, JSON or not, what is cut out runs from the first bracket to where the brackets of its kind outside strings balance for the first time. |
| JsonScan.NothingToCut | provider/error_body.go:113-152 | Nothing is cut out when they never balance or there is no bracket. |
| McpLoader.Loader.LoadLayer | mcp/loader.go:99-164 | The stored snapshot of every file is its last valid content since it was last absent; the reported state matches. |
| McpLoader.Loader.LoadWithBase | mcp/loader.go:67-96 | Each name gets the entry of the highest layer whose effective content has it, or of the base, with that source. |
| Reparentable.Context.Act | core/reparentable.go:45-97 | Every interleaved step keeps: done closed at most once and only after err was set, err never changed, detach closed at most once. |
| Reparentable.Context.Run | core/reparentable.go:45-97 | The same over any run. |
| Reparentable.Context.OnlyCancelCloses | core/reparentable.go:72-97 | Once Detach has returned while the parent was alive, done can only be closed by a call of Cancel. |

## Left out

- Provider streaming, HTTP, timers, wall clocks, files and child processes: their outcomes are inputs of the steps.
- Tool execution, approval and parallel scheduling inside the engine: it is taken to return one result per executed call.
- Argument rewriting by pre-tool hooks, result spilling and the parsing of read and edit headers: the rewritten call and the parsed fields of a result are inputs.
- Wording of prompts, reminders and placeholders: kept as short fixed texts; only the prefix of a placeholder and its references matter.
- Message texts are sequences of literal parts and `#N` references; lengths count characters, not UTF-8 bytes.
- SHA-256 keys and content hashes: the texts themselves are compared, as if the hash were injective.
- The expansion of @-references and its `inputMark`: not modelled; the mark is not remapped by a merge, so expansion exactly once is not claimed.
- `RunHistory`, usage and cost accounting, events, goal-alignment reminders, checkpoints and the system-prompt step at the start of a run.
- Token estimates and the decision when to compact: an input; only the window trimming counts tokens.
- Truncation of the task anchor text, the summary prompt, quality retries and the previous summary: the summarizer's answer is an input.
- The read/write ledger shown to the summarizer (agents/fileledger.go:31-138): left out, it would only add an easy member and does not deduplicate ranges.
- ANSI stripping and the other text simplifications of command output.
- Daylight saving and the local time zone of cron: a fixed offset is assumed.
- Persistence, the run ledger, restoring jobs from disk, IM targets and `SetNextRun` of the cron store.
- CronStore.Store.Delete: does not model the delete callback, which only cleans up files.
- Bridge.Bridge.Act: the sandbox is not stopped behind its result frame, which only adds runs; line reassembly on the sandbox side and the 100 ms shutdown budget are not modelled; a write may fail or succeed at any time.
- ReasoningStream.Body.Read: does not model what is rewritten in a line, which is an arbitrary function of the line.
- JsonScan.FirstValueIsExact: is about noise without brackets, since the first bracket of a text decides.
- MemoryList.ListedIsStamped: is about flush-left blocks between "---" lines, since the reader accepts no other closing line and no indentation.
- McpLoader.Loader.LoadWithBase: the JSON decoding and the validation of one entry are inputs, and load times are left out.
- Reparentable.Context.Act: deadlines and values, which are delegated to the parent unchanged.
