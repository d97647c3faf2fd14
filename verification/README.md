# Verified models of the host's protocols, editors and encodings

This project models the stateful cores of the desktop host and proves what they are for. Every `.dfy` file holds one
module; `dafny verify dfyconfig.toml` checks them all.

| core | modules | main results |
|---|---|---|
| chat-inbox channel: many processes, one claim file, one log | `ChatRecords`, `ChatInbox` (transition system), `ChatInboxSafety`, `ChatInboxTheorems`, `ChatInboxAlways` (any run at all), `ChatInboxDuties` (what is written), `ChatRuntime` (the two classes), `ChatEpochs` | one writer at a time over whole runs with handovers, prompts partition the messages, checkpoints never run ahead |
| skill rules and settings | `SkillRules`, `SkillEditor`, `SkillToggle`, `SkillFrame`, `ManifestOverrides`, `SettingsLock` | the minimal edit achieves its request, exactly when it can; it is minimal and disturbs nobody else; no update is lost |
| skill inventory | `SkillPrecedence`, `PrecedenceTheorems`, `SkillTree`, `TreeTheorems` | one skill in use a name, ambiguity is exactly a shared rule, every skill at its place in the tree |
| terminal replay | `TerminalReplay`, `TerminalSafety`, `TerminalStore` | what is on screen is an exact prefix of the server's log, under loss, duplication, overlap and reordering |
| overlay panels | `OverlayStack`, `OverlayTheorems`, `OverlayEffects`, `OverlayBridge` | the remote view's trace is well formed and shows the top panel |
| file saving | `FileSave`, `FileTab` | an unforced save replaces exactly the version it was based on |
| installation revision | `Utf8`, `InstallRevision`, `RevisionTheorems` | the hashed stream is injective; order-independence holds exactly when paths do not tie |
| patch rows | `DiffRows`, `DiffTheorems` | both columns are the two sides of the patch, exactly when headers and body lines are not mistaken for each other |
| shell quoting | `ShellQuote` | the POSIX shell reads a quoted value back as itself |

`StableSort` (the stable sort all of them share) and `Wrappers` (optional values) serve the others.

Code that changes state step by step is modelled by classes and loops (`ChatRuntime`, `TerminalReplay`, `TerminalStore`,
`OverlayBridge`, `FileTab`, `ManifestOverrides`, the methods of the skill, revision and patch modules). Each method is
proved to compute a function of the old state, and the promises are proved about that function over all runs.

## Assumptions

- Chat inbox: owner ids are unique among live processes, operations of one runtime are serialised, and a line is appended
  whole. Everything asynchronous is cut at its awaits; in particular the ownership check and the write of an append are
  two steps, and so are the read and the rename of a claim.
- Skill rules: the glob matcher is an arbitrary relation. Toggle results are about SKILL.md directories whose rule is in
  normal form (`SkillToggle.Normal`).
- Settings lock: the critical section is any function of the list it read (`SettingsLock.Toggling` is the one that
  switches skills), one step per system call, any clock; the guarantee is for runs in which no holder keeps the lock longer
  than the staleness bound of 10000 ms.
- Terminal: a message is valid for the server's log of that terminal and generation; `TerminalStore` proves that the
  server's own store produces such messages. Serialising a checkpoint preserves the screen.
- Overlay: rendering is pure and there is one user-interface context.
- File saving: the server's compare and write is one step; a read is two, the time and then the content
  (`src-tauri/src/host_data.rs:595-650`). That saves replace their base holds for runs in which different versions have
  times more than one millisecond apart (`FileSave.Separates`); the results on the dirty mark do not assume it. Nothing
  else happens to a tab between a confirmation that settles its edits and the reload behind it.
- Revision: the two digests have no collisions, a locale's collation is a total preorder, the order by code units is a
  total order.

## Where the code departs from what it or its documentation promises

- `extensions/chat-inbox/log.ts:125-132` says the epoch only ever grows. It restarts at 1 after a release
  (`ChatEpochs.PairRecursAfterRelease`); the exact condition is `ChatEpochs.EpochsGrowExactlyBetweenReleases`.
- `extensions/chat-inbox/runtime.ts:139-143` presents the ownership check as what keeps a second writer out. Check and
  write are separate awaits, so a write already under way can land after the new holder's read
  (`ChatInboxTheorems.LateWriteOccurs`); `ChatInboxTheorems.LoadSafeExactlyWhenDrained` says exactly when it cannot.
- `extensions/skill-inventory.ts:1015` puts a group's directory into a glob as it stands, so a directory that reads as a
  pattern, or members below a directory the matcher skips, are not matched and stay enabled
  (`SkillToggle.UnmatchedMemberStaysEnabled`); `SkillToggle.DisableGroupDecides` is the exact condition.
- `extensions/skill-installation.ts:137` sorts by `localeCompare`, which can tie; then the revision depends on discovery
  order (`RevisionTheorems.OrderIndependentExactlyWithoutTies`).
- `public/git-diff-renderer.js:22` skips lines that look like file headers wherever they stand, so a removed line that
  starts with two dashes is dropped when it opens a block (`DiffTheorems.LostLineOccurs`). Inside a block the filter
  does not apply, so a file header directly behind removed lines, or one with pluses directly behind a block, is shown
  as one of its lines (`DiffTheorems.SwallowedHeaderOccurs`). The two theorems `SidesAreShownExactlyWhen...` say exactly
  when; `FaultsCanCancel` shows why they are two.
- `public/file-preview-panel.js:1111-1116` clears the dirty mark before the reload has succeeded, and a conflict leads
  there with unsaved edits (`FileSave.FailedReloadDropsTheMark`); `FileSave.MarkStaysExactExactlyUnless` is the exact condition.
- `src-tauri/src/host_data.rs:913` compares times with a tolerance of one millisecond, so a save can overwrite a version
  the tab never showed (`FileSave.UnseenIsOverwrittenInARun`), exactly when the times are that close.
- `extensions/custom-ui-bridge.ts:256-258` settles the stacked panels only, so a caller whose factory has not produced its
  component yet is not released by a shutdown (`OverlayTheorems.ShutdownLeavesAnEarlyCallerWaiting`).
- `public/terminal-client.js:164-169` ignores a batch that starts on screen and ends behind it, also when a list brings it.
  Such a list ends the pause and nothing else, so a tab that lost a batch stays where it is, asking for list after list,
  until a checkpoint comes (`TerminalSafety.NoOverlappingListMovesATab`, `TerminalSafety.LostBatchStaysLost`).

## Model

| member | source | states |
|---|---|---|
| ChatInboxTheorems.LogIsExclusive | extensions/chat-inbox/runtime.ts:119-172 | in every disciplined run of any number of processes (claims, loads, fenced appends, releases, crashes, cut at every await) the ids in the shared log strictly increase, and whoever owns the channel and has loaded holds exactly the file, with its next id above all of it |
| ChatInboxTheorems.LoadSafeExactlyWhenDrained | extensions/chat-inbox/runtime.ts:124-172 | a load keeps every continuation safe if and only if no append is between its ownership check and its write, or the loader has lost the channel |
| ChatInboxTheorems.LateWriteClashes | extensions/chat-inbox/runtime.ts:144-172 | the other half: a load in front of a late write has a continuation of legal steps whose log repeats an id |
| ChatInboxTheorems.LateWriteOccurs | extensions/chat-inbox/runtime.ts:144-172 | and it occurs: the run from the start in which a second process takes over while an append of the first is under way, and the log ends with one id twice |
| ChatInboxTheorems.AtomicAppendsAreDisciplined | extensions/chat-inbox/runtime.ts:165-172 | if check and write were one step, every run would be disciplined, so the promises hold without further condition |
| ChatInboxTheorems.EveryMessageInOnePrompt | extensions/chat-inbox/runtime.ts:182-191 | in every disciplined run, across handovers, the settled triggers strictly increase in log order, the settled prompts concatenate to exactly the inbound records up to the last settled trigger, a record is in one of them if and only if it is such an inbound record, and each prompt ends in its own trigger |
| ChatInboxTheorems.PromptsPartition | extensions/chat-inbox/runtime.ts:332-343 | prompts that each start behind the previous settled trigger partition the inbound records up to the boundary |
| ChatInboxTheorems.HandoverResumesAtLastCheckpoint | extensions/chat-inbox/runtime.ts:119-129 | in every disciplined run, what any process, evicted or not, holds as written is a prefix of what a new holder loads, so no earlier checkpoint is missing from it, and its last one is the last in the file |
| ChatInboxAlways.EvictionIsFinal | extensions/chat-inbox/runtime.ts:144-151 | in any run at all, disciplined or not, a process that has lost the channel never regains it and its records never grow again |
| ChatInboxAlways.CheckpointsFollowTheirMessages | extensions/chat-inbox/runtime.ts:277-299 | in any run at all, when a checkpoint of an ingest is written behind the log, the message of that ingest already stands in the log, with a smaller id, at every crash point |
| ChatInboxAlways.MessagesAreWrittenFirst | extensions/chat-inbox/runtime.ts:277-299 | in any run at all, what an ingest writes first is its message, and it does not go on before that |
| ChatInboxAlways.OwnerQueuesEveryTrigger | extensions/chat-inbox/runtime.ts:244-253 | in any run at all, a process at its queue decision queues a job for its message if and only if it is armed and the sender may trigger one, and a record naming that message is written exactly when it also owns the channel |
| ChatInboxDuties.CursorIsNoted | extensions/chat-inbox/runtime.ts:264-275 | when the owner notes a cursor that has moved, a checkpoint with it goes to memory under the next id and on its way to the file, otherwise nothing does; either way the newest checkpoint then stands at the cursor |
| ChatInboxDuties.IngestNotesItsCursor | extensions/chat-inbox/runtime.ts:277-299 | behind its message, an ingest of the owner that carries a cursor notes it in just this way, in every state |
| ChatInboxDuties.IngestLeaves | extensions/chat-inbox/runtime.ts:277-317 | with nobody in between, an ingest of the owner leaves exactly the message, the checkpoint if the cursor moved, and the job if the process is armed and the sender may trigger one; the job waits behind the others and the newest checkpoint stands at the cursor |
| ChatInboxDuties.FirstJobIsDispatched | extensions/chat-inbox/runtime.ts:319-343 | the first waiting job is handed out, and a record is in its prompt if and only if it is an inbound message above every settled trigger and not above the job's own |
| ChatInboxDuties.QueuedJobWaits | extensions/chat-inbox/runtime.ts:309-316 | a job whose record has been pushed is put behind the waiting ones |
| ChatInboxDuties.ReplyIsLogged | extensions/chat-inbox/runtime.ts:345-366 | the owner logs the reply as given, or nothing for an empty one |
| ChatInboxDuties.CompletionIsLogged | extensions/chat-inbox/runtime.ts:367-375 | behind it the completion of the active job, and then the job is over |
| ChatInboxDuties.FailureIsLogged | extensions/chat-inbox/runtime.ts:378-388 | a failed job of the owner is logged as failed |
| ChatInboxDuties.CompleteLeaves | extensions/chat-inbox/runtime.ts:345-376 | with nobody in between, completing leaves exactly the reply, if there is one, and the completion, and no active job |
| ChatInboxDuties.FailLeaves | extensions/chat-inbox/runtime.ts:378-389 | and failing exactly the failure |
| ChatInboxDuties.OtherActsAreLogged | extensions/chat-inbox/runtime.ts:153-397 | a message and an error of the owner go to the log as given; arming takes the id of the newest record |
| ChatInboxDuties.LoadingSorts | extensions/chat-inbox/runtime.ts:119-129 | in any state, loading brings the records of the file, by id, with the next id right above them all and no job |
| ChatInboxSafety.StepKeepsInv | extensions/chat-inbox/runtime.ts:119-397 | every step of every process, with loads under the discipline, keeps the protocol invariant: increasing log, unique owners, one current holder, instances consistent with the file, history of settled jobs |
| ChatInboxSafety.RunKeepsInv | extensions/chat-inbox/runtime.ts:119-397 | the invariant holds after every disciplined run |
| ChatRuntime.Channel.constructor | extensions/chat-inbox/log.ts:81-103 | a fresh channel has no claim and no records |
| ChatRuntime.Channel.Acquire | extensions/chat-inbox/log.ts:197-223 | takes a free channel at epoch 1, adopts its own claim, takes over with the next epoch on explicit intent or over a dead holder, and otherwise refuses and changes nothing |
| ChatRuntime.Channel.Release | extensions/chat-inbox/log.ts:235-243 | removes the claim exactly when it is one's own |
| ChatRuntime.ConversationRuntime.constructor | extensions/chat-inbox/runtime.ts:90-107 | a runtime starts with no records and next id 1 |
| ChatRuntime.ConversationRuntime.Initialize | extensions/chat-inbox/runtime.ts:119-129 | claims first and reads the log only afterwards: on success the claim is held and the instance is the loaded one, on refusal nothing changes |
| ChatRuntime.ConversationRuntime.StillOwnsChannel | extensions/chat-inbox/runtime.ts:144-151 | the ownership check with its latch |
| ChatRuntime.ConversationRuntime.ArmAfterCurrentTail | extensions/chat-inbox/runtime.ts:153-155 | arms behind the last record at hand |
| ChatRuntime.ConversationRuntime.AppendRecord | extensions/chat-inbox/runtime.ts:165-172 | the fenced append: the record reaches memory and file together, or neither |
| ChatRuntime.ConversationRuntime.GetLastQueuedTriggerRecordId | extensions/chat-inbox/runtime.ts:174-180 | the largest queued trigger |
| ChatRuntime.ConversationRuntime.GetLastCompletedTriggerRecordId | extensions/chat-inbox/runtime.ts:182-191 | the largest settled trigger, completed or failed |
| ChatRuntime.ConversationRuntime.GetLastCheckpoint | extensions/chat-inbox/runtime.ts:255-262 | the newest checkpoint by a backward search, or the empty cursor |
| ChatRuntime.ConversationRuntime.NoteCheckpoint | extensions/chat-inbox/runtime.ts:264-275 | appends a checkpoint unless the cursor is unchanged |
| ChatRuntime.ConversationRuntime.IngestInbound | extensions/chat-inbox/runtime.ts:277-317 | run alone, equals the protocol steps of an ingest run to their end |
| ChatRuntime.ConversationRuntime.QueueJob | extensions/chat-inbox/runtime.ts:300-317 | logs and queues the job of a trigger |
| ChatRuntime.ConversationRuntime.BuildPrompt | extensions/chat-inbox/runtime.ts:332-343 | the inbound records after the last settled trigger up to the job's own |
| ChatRuntime.ConversationRuntime.BeginNextJob | extensions/chat-inbox/runtime.ts:319-330 | takes the first pending job unless one is active |
| ChatRuntime.ConversationRuntime.CompleteActiveJob | extensions/chat-inbox/runtime.ts:345-376 | run alone, equals the protocol steps of a completion run to their end |
| ChatRuntime.ConversationRuntime.FailActiveJob | extensions/chat-inbox/runtime.ts:378-389 | run alone, equals the protocol steps of a failure run to their end |
| ChatRuntime.FinishIsARun | extensions/chat-inbox/runtime.ts:165-172 | running an operation to its end is a run of the protocol by that one process, so the methods refine the transition system |
| ChatRuntime.FinishIngest | extensions/chat-inbox/runtime.ts:277-317 | with nobody in between, an ingest writes the message, then the checkpoint, then the queued job |
| ChatEpochs.EpochsGrowExactlyBetweenReleases | extensions/chat-inbox/log.ts:125-139 | from a channel claimed or never claimed, the epochs written climb strictly if and only if no claim is written after a release |
| ChatEpochs.ClimbingEpochsDiffer | extensions/chat-inbox/log.ts:125-139 | claims with climbing epochs are pairwise distinct |
| ChatEpochs.ClaimsAreDistinctBetweenReleases | extensions/chat-inbox/log.ts:125-139 | as long as none is, no (owner, epoch) pair recurs |
| ChatEpochs.PairRecursAfterRelease | extensions/chat-inbox/log.ts:235-243 | after a release a pair does recur, so the epoch does not only ever grow |
| ChatEpochs.OnlyExplicitOrDeadIsDisplaced | extensions/chat-inbox/log.ts:197-223 | a claim passes to another owner if and only if on explicit intent or over a dead holder, with the epoch raised by exactly one |
| ChatEpochs.RacingClaimsShareAnEpoch | extensions/chat-inbox/log.ts:182-223 | with read and rename as the two steps they are, two racing takeovers write the same epoch |
| ChatEpochs.ClaimStepsAcquire | extensions/chat-inbox/log.ts:197-223 | reading and renaming with nobody in between is acquiring: the claim is the process's own afterwards if and only if it was free, its own, or taken on intent or from a dead holder, and exactly then the process goes on |
| ChatEpochs.ClaimStepsRelease | extensions/chat-inbox/log.ts:235-243 | checking and unlinking is releasing: no claim is left if and only if there was none or one's own |
| ChatEpochs.OnlyClaimStepsTouchTheClaim | extensions/chat-inbox/log.ts:182-243 | no other step changes the claim |
| StableSort.SortPermutes | extensions/chat-inbox/runtime.ts:124-129 | sorting permutes (also used for the skill orders) |
| StableSort.SortSorts | extensions/skill-inventory.ts:698-702 | sorting by a total preorder sorts |
| StableSort.SortIsStable | extensions/skill-inventory.ts:698-702 | elements that tie keep their order |
| StableSort.SortedIsUnique | extensions/skill-installation.ts:137-150 | sorted lists of the same elements are equal when no different elements tie |
| SkillRules.OverridesOf | extensions/skill-inventory.ts:314-324 | one pass splits the list into the three kinds of rules |
| SkillRules.IsEnabledByOverrides | extensions/skill-inventory.ts:326-355 | the sequential evaluation equals the layered decision, and the reported rules are exactly the entries that match |
| SkillRules.MatchingAre | extensions/skill-inventory.ts:292-312 | the rules that match are exactly the list entries whose body hits the skill |
| SkillEditor.FilterInPlace | extensions/skill-inventory.ts:954-965 | splicing from the back leaves exactly the entries that do not name the rules, in order |
| SkillEditor.EnsureOverridePresent | extensions/skill-inventory.ts:967-970 | adds the rule unless it is there |
| SkillEditor.ComputeNextSkills | extensions/skill-inventory.ts:977-1034 | the edit of the list, step by step, equals the specified next list |
| SkillToggle.DisableSkillDisables | extensions/skill-inventory.ts:977-1034 | a disabled skill is judged disabled, for every list and every glob matcher |
| SkillToggle.EnableSkillEnables | extensions/skill-inventory.ts:977-1034 | an enabled skill is judged enabled if and only if no `-` entry hits it in another spelling |
| SkillToggle.DisableGroupDecides | extensions/skill-inventory.ts:1002-1015 | for every glob matcher and every list: a skill is judged enabled behind disabling a group if and only if no `-` hits it and either a `+` in another spelling survives or neither a `!` of the list nor the added one matches it |
| SkillToggle.DisableGroupDisables | extensions/skill-inventory.ts:1002-1015 | so a member that the added glob matches is judged enabled if and only if a `+` in another spelling hits it and no `-` does |
| SkillToggle.UnmatchedMemberStaysEnabled | extensions/skill-inventory.ts:1002-1015 | and a member that the added glob does not match stays enabled where no other rule speaks of it |
| SkillToggle.EnableGroupEnables | extensions/skill-inventory.ts:977-1034 | a member of an enabled group is judged enabled if and only if no `-` entry hits it |
| SkillToggle.SkillEditIsMinimal | extensions/skill-inventory.ts:977-1000 | entry by entry: disabling a skill adds its `-` and nothing else changes; enabling takes its `-` away and adds its `+` if and only if a `!` of the list matches the skill |
| SkillToggle.GroupEditIsMinimal | extensions/skill-inventory.ts:1002-1034 | disabling a group takes its members' `+` away and adds its `!`; enabling takes its `!` away and adds the `+` of exactly those members that no `-` hits and another `!` still matches |
| SkillToggle.EditAppends | extensions/skill-inventory.ts:954-1034 | what stays keeps its order in front of what is added |
| SkillToggle.RemoveKeepsOrder | extensions/skill-inventory.ts:954-965 | removing judges the entries one by one and keeps the order of the rest |
| SkillToggle.BasenameIsTail | extensions/skill-inventory.ts:201-204 | the bare name is the longest tail of the path without a slash |
| SkillToggle.ExclusionHits | extensions/skill-inventory.ts:268-305 | a `!` hits a skill by glob on its file or directory, relative or absolute, or on a bare name |
| SkillToggle.ForceHits | extensions/skill-inventory.ts:268-312 | a `+` or `-` hits by equality on one of those paths, a leading `./` not counted |
| SkillFrame.PosixedJudgesAlike | extensions/skill-inventory.ts:197-199 | rewriting separators changes no judgement |
| SkillFrame.DifferentDirectoriesAreApart | extensions/skill-inventory.ts:268-290 | the rule of one skill directory is no spelling of another |
| SkillFrame.ToggleKeepsOthers | extensions/skill-inventory.ts:977-1034 | toggling a skill changes the judgement of no skill it is apart from |
| SkillFrame.EditKeepsUnmanaged | extensions/skill-inventory.ts:958-1034 | entries the edit does not manage keep their order, and plain source entries are never managed |
| SkillFrame.EditIsIdempotent | extensions/skill-inventory.ts:977-1034 | the same edit a second time changes nothing |
| ManifestOverrides.PipelineAgreesWithEvaluator | extensions/package-skill-inventory.ts:739-769 | filter, add back, filter contains a collected skill if and only if the evaluator enables it, without duplicates |
| ManifestOverrides.FilterKeepsOrder | extensions/package-skill-inventory.ts:739-769 | a filter pass judges the skills one by one and keeps their order |
| ManifestOverrides.AddBackKeepsOrder | extensions/package-skill-inventory.ts:739-769 | and so does adding back |
| ManifestOverrides.KeptThenBroughtBack | extensions/package-skill-inventory.ts:739-769 | the result is the kept skills, then those brought back, without what a `-` hits |
| ManifestOverrides.FilterOut | extensions/package-skill-inventory.ts:739-769 | a filter pass returns a new array of the skills that no body hits |
| ManifestOverrides.AddBack | extensions/package-skill-inventory.ts:739-769 | the add-back loop appends the force-included skills, also when the result aliases the input |
| ManifestOverrides.ApplyManifestOverrides | extensions/package-skill-inventory.ts:739-769 | the whole pipeline, with the collected array unchanged even when the result is the same object |
| SettingsLock.NoUpdateIsLost | extensions/skill-inventory.ts:907-948 | in every run of any number of processes in which no holder overstays the staleness bound, critical sections never overlap, and the list is the fold of the requests of the run's writes, read off its events alone; every finished process has written its own request exactly once, unless it gave up |
| SettingsLock.LastDisableHolds | extensions/skill-inventory.ts:1065-1072 | with the skill editor as the critical section: a skill whose disabling was the last write is judged disabled by the list |
| SettingsLock.AloneItGetsThrough | extensions/skill-inventory.ts:915-948 | a process that meets no other has written its request and freed the lock |
| SettingsLock.GivesUpAfter750Tries | extensions/skill-inventory.ts:915-948 | in any run, timely or not, a process gives up behind exactly 750 tries, and none tries more often |
| SettingsLock.OverstayingIsUnsafe | extensions/skill-inventory.ts:915-948 | as soon as a holder overstays, four legal steps of a waiter put two processes in the critical section |
| SettingsLock.StepKeepsInv | extensions/skill-inventory.ts:915-948 | every step keeps the lock invariant while nobody overstays, and no process tries more than 750 times |
| SettingsLock.RunKeepsInv | extensions/skill-inventory.ts:915-948 | and so does every such run |
| SkillPrecedence.Collect | extensions/skill-inventory.ts:704-736 | one pass drops repeated paths and records the first enabled skill of every name |
| SkillPrecedence.GroupRoots | extensions/skill-inventory.ts:751-757 | collects the roots every rule directory occurs under |
| SkillPrecedence.Resolve | extensions/skill-inventory.ts:698-760 | sorting, deduplication, shadowing and ambiguity in the source's loops yield the specified entries |
| PrecedenceTheorems.ProjectThenLocalFirst | extensions/skill-inventory.ts:366-369 | a project skill ranks before a user skill, and within a scope a configured one before a discovered one |
| PrecedenceTheorems.EachPathSurvivesOnce | extensions/skill-inventory.ts:698-708 | every path survives exactly once, with its record that is first by rank and then by discovery, and the survivors stand in order of rank |
| PrecedenceTheorems.OneInUsePerName | extensions/skill-inventory.ts:733-745 | of the enabled survivors of a name exactly the first is in use and exactly the later ones are shadowed, by it |
| PrecedenceTheorems.AmbiguousExactlyWhenRuleIsShared | extensions/skill-inventory.ts:747-760 | the inventory has one entry for each survivor, in order, and the entry is marked ambiguous if and only if another survivor of its scope has the same rule directory |
| PrecedenceTheorems.UnambiguousToggleKeepsOthers | extensions/skill-inventory.ts:1056-1060 | switching a skill whose entry is not marked ambiguous changes the judgement of no other entry of its scope |
| SkillTree.BuildTree | extensions/skill-inventory.ts:786-791 | inserting, annotating and sorting in the source's order |
| TreeTheorems.InsertionAddsOne | extensions/skill-inventory.ts:498-537 | inserting adds the skill at its place and moves nothing else |
| TreeTheorems.EverySkillStandsAtItsPlace | extensions/skill-inventory.ts:498-597 | the finished tree holds every skill as often as the list, each under precisely the groups its path names |
| TreeTheorems.TreeIsTidy | extensions/skill-inventory.ts:498-537 | sibling groups have different names, every group knows its path, no group is empty, at every depth |
| TreeTheorems.StatesTellTheCount | extensions/skill-inventory.ts:539-573 | a group is all-on if and only if all its skills are enabled, all-off if and only if none is, otherwise mixed |
| TreeTheorems.SortDisplays | extensions/skill-inventory.ts:589-597 | at every depth skills come first and both kinds are in order of name |
| TerminalReplay.TerminalClient.constructor | public/terminal-client.js:10-26 | a new client shows nothing |
| TerminalReplay.TerminalClient.SendCommand | public/terminal-client.js:45-55 | commands are sent only while a workspace generation is known |
| TerminalReplay.TerminalClient.ApplyBatch | public/terminal-client.js:164-201 | one batch applied to a tab: new screen, pause, acknowledgement or request for a list |
| TerminalReplay.TerminalClient.ApplySnapshot | public/terminal-client.js:118-142 | a listed descriptor applied to its tab |
| TerminalReplay.TerminalClient.ApplyListed | public/terminal-client.js:94-111 | a whole list: closed tabs go, every descriptor is applied |
| TerminalReplay.TerminalClient.ApplyOutput | public/terminal-client.js:145-151 | live output of a tab of the right generation |
| TerminalReplay.TerminalClient.RemoveTab | public/terminal-client.js:154-162 | a tab is removed exactly if it exists in that generation |
| TerminalSafety.TabsShowExactPrefixes | public/terminal-client.js:94-201 | for every sequence of lists, snapshots and live output with loss, duplication, overlap and reordering, a tab never flagged shows exactly the log prefix up to its sequence |
| TerminalSafety.AcknowledgementsNameTheScreen | public/terminal-client.js:164-201 | along any run, whenever an acknowledgement goes out for a terminal no list has flagged up to then, its tab in the view has just that last applied sequence and shows exactly that prefix of its log at that moment |
| TerminalSafety.MomentsAreInView | public/terminal-client.js:94-201 | the tab a command is about is the one the view has when it goes out, and still has after the message unless the same list goes on about it |
| TerminalSafety.MomentsAreWhatIsSent | public/terminal-client.js:94-201 | those moments are complete: the commands a message sends are theirs, all of them and in order |
| TerminalSafety.RunKeepsView | public/terminal-client.js:94-201 | the invariant behind it holds after every run |
| TerminalSafety.BatchKeepsExact | public/terminal-client.js:164-201 | a batch keeps a tab exact, acknowledges what is on screen, and asks for a list exactly when it leaves a gap |
| TerminalSafety.SnapshotKeepsExact | public/terminal-client.js:118-142 | an unflagged snapshot keeps a tab exact |
| TerminalSafety.WrittenRangesNeverOverlap | public/terminal-client.js:164-201 | also with lost history, what is written between resets is increasing and disjoint |
| TerminalSafety.CatchesUpExactlyWhen | public/terminal-client.js:118-142 | when a snapshot that holds the log from its watermark on brings a tab to the end, for every tab and descriptor |
| TerminalSafety.CheckpointResynchronizes | public/terminal-client.js:118-142 | with a checkpoint it always does, whatever was on screen before |
| TerminalSafety.NoOverlappingListMovesATab | public/terminal-client.js:118-142 | a tab that lost a batch does not move again, whatever number of lists and outputs follow, while none of them brings a checkpoint, a gap flag or the lost batch |
| TerminalSafety.LostBatchStaysLost | public/terminal-client.js:164-201 | the run in which that happens: 1 is shown, 2 is lost, 3 pauses the tab, and the list 1 to 3 it asked for ends the pause and is ignored |
| TerminalSafety.CaughtUpTabFollows | public/terminal-client.js:145-201 | along any run of live output, others' messages and repeats between, a caught-up tab of the view shows every batch in order, reaches the newest, and never pauses |
| TerminalSafety.ListDecidesTabs | public/terminal-client.js:94-127 | after a list there is a tab for exactly the live terminals it names, in the generation it names |
| TerminalSafety.OutputElsewhereIsIgnored | public/terminal-client.js:145-151 | output for a tab that is missing, of another generation or paused changes and sends nothing |
| TerminalSafety.RemovalTakesOneTab | public/terminal-client.js:154-162 | a removal takes the named tab if the generation fits, and no other |
| TerminalSafety.EmptyCheckpointIsNone | public/terminal-client.js:133-138 | a checkpoint with an empty screen counts for none |
| TerminalStore.TerminalOutputStore.constructor | src-tauri/src/terminal_output.rs:76-88 | an empty store is valid |
| TerminalStore.TerminalOutputStore.DropFront | src-tauri/src/terminal_output.rs:204-232 | dropping the oldest entry keeps the byte count and flags a gap exactly when it was past the watermark |
| TerminalStore.TerminalOutputStore.ReclaimCovered | src-tauri/src/terminal_output.rs:204-220 | drops what the checkpoint covers, from the front, while the bound is exceeded, without a gap flag |
| TerminalStore.TerminalOutputStore.EnforceJournalBound | src-tauri/src/terminal_output.rs:204-232 | drops from the front until the bound holds and not one entry more, and a new gap flag means something needed is gone |
| TerminalStore.TerminalOutputStore.PushEntry | src-tauri/src/terminal_output.rs:117-132 | the entry of the next sequence goes behind the others |
| TerminalStore.TerminalOutputStore.Append | src-tauri/src/terminal_output.rs:117-132 | one chunk, one sequence; an empty chunk takes none; of the journal with the new entry only what the bound asks for is dropped |
| TerminalStore.TerminalOutputStore.AcceptCheckpoint | src-tauri/src/terminal_output.rs:138-174 | the three rejections change nothing; an accepted checkpoint keeps exactly what lies past its watermark and raises no gap |
| TerminalStore.TerminalOutputStore.JournalFrom | src-tauri/src/terminal_output.rs:186-202 | one batch of exactly what is retained past a point |
| TerminalStore.TerminalOutputStore.Describe | src-tauri/src/terminal_manager.rs:175-205 | what the server lists is what the client's theorems assume of a descriptor |
| OverlayTheorems.TraceIsWellFormed | extensions/custom-ui-bridge.ts:99-151 | in every run the frames form open, updates, close per panel with at most one panel open, and the view shows what the bridge believes |
| OverlayTheorems.QuiescentViewShowsTop | extensions/custom-ui-bridge.ts:110-116 | with no first paint pending the view shows the topmost panel that is not hidden |
| OverlayTheorems.OneResolutionOneDisposal | extensions/custom-ui-bridge.ts:163-246 | each caller resolves at most once; each component is stacked or disposed exactly once |
| OverlayTheorems.ShutdownReleasesExactlyTheStacked | extensions/custom-ui-bridge.ts:256-258 | after any run, shutdown leaves nothing stacked, nothing on screen and every component disposed once; a caller is resolved if and only if it is not an unsettled one still waiting for its component |
| OverlayTheorems.ShutdownLeavesAnEarlyCallerWaiting | extensions/custom-ui-bridge.ts:256-258 | the run in which one is: a caller whose factory is at work when the session shuts down is not released by it |
| OverlayTheorems.FocusAndUnfocus | extensions/custom-ui-bridge.ts:123-151 | focus shows a stacked panel; unfocus yields to any other visible one |
| OverlayEffects.HiddenIsTheLastWord | extensions/custom-ui-bridge.ts:123-151 | after any run a panel is hidden if and only if the last setHidden or focus of it said so |
| OverlayEffects.HighestVisibleIsShown | extensions/custom-ui-bridge.ts:78-116 | with no first paint pending the view shows the highest stacked panel whose last word was not to hide it |
| OverlayEffects.EndingSettles | extensions/custom-ui-bridge.ts:163-306 | after any run, done, a failure, an error or a cancelling keystroke leaves the panel settled, off the stack and the screen, its caller resolved once and its component disposed once; an error is reported first |
| OverlayEffects.HandlingRepaints | extensions/custom-ui-bridge.ts:99-102 | a handled keystroke or a request to render updates the panel if it is the one shown, and does nothing else |
| OverlayEffects.ArrivalStacks | extensions/custom-ui-bridge.ts:218-235 | a component in time goes on top of the stack with its paint due; a late one is disposed at once |
| OverlayEffects.CallsAndHandles | extensions/custom-ui-bridge.ts:163-246 | every call leads to a fresh id that can be done or fail from then on, and a stacked panel can be handled |
| OverlayEffects.OthersKeepTheirOrder | extensions/custom-ui-bridge.ts:123-246 | no event but a shutdown changes the order of the panels it is not about |
| OverlayTheorems.StepOk | extensions/custom-ui-bridge.ts:78-306 | every event keeps the invariant of panels, counts and trace |
| OverlayBridge.CustomUiBridge.constructor | extensions/custom-ui-bridge.ts:71-76 | a new bridge has nothing stacked and nothing shown |
| OverlayBridge.CustomUiBridge.FindTop | extensions/custom-ui-bridge.ts:78-84 | the backward search finds the topmost panel that is not hidden |
| OverlayBridge.CustomUiBridge.RepaintPanel | extensions/custom-ui-bridge.ts:99-102 | only the shown panel is updated |
| OverlayBridge.CustomUiBridge.Sync | extensions/custom-ui-bridge.ts:110-116 | closes the old panel and opens the new top |
| OverlayBridge.CustomUiBridge.HandleSetHidden | extensions/custom-ui-bridge.ts:123-151 | hiding and showing a panel |
| OverlayBridge.CustomUiBridge.Raise | extensions/custom-ui-bridge.ts:123-151 | splices a panel to the top in place |
| OverlayBridge.CustomUiBridge.Lower | extensions/custom-ui-bridge.ts:123-151 | splices a panel to the bottom in place |
| OverlayBridge.CustomUiBridge.HandleFocus | extensions/custom-ui-bridge.ts:123-151 | focus unhides and raises |
| OverlayBridge.CustomUiBridge.HandleUnfocus | extensions/custom-ui-bridge.ts:123-151 | unfocus lowers |
| OverlayBridge.CustomUiBridge.SettlePanel | extensions/custom-ui-bridge.ts:179-191 | settles once: off the stack, disposed, view synchronized, caller resolved |
| OverlayBridge.CustomUiBridge.ComponentArrived | extensions/custom-ui-bridge.ts:218-227 | a component that arrives late is disposed, one in time is stacked |
| OverlayBridge.CustomUiBridge.RunPaint | extensions/custom-ui-bridge.ts:233-235 | the deferred first paint does nothing for a settled panel |
| OverlayBridge.CustomUiBridge.InputTarget | extensions/custom-ui-bridge.ts:260-306 | which panel a keystroke goes to |
| OverlayBridge.CustomUiBridge.FinishInput | extensions/custom-ui-bridge.ts:260-306 | after the handler: error, cancel or repaint |
| OverlayBridge.CustomUiBridge.ShutDown | extensions/custom-ui-bridge.ts:256-258 | settles a snapshot of the stack from the top down |
| FileSave.UnforcedSavesReplaceTheirBase | public/file-preview-panel.js:1016-1085 | under any interleaving of loads (time and content read separately), edits, saves and foreign writes, every unforced save that succeeds replaced exactly the version whose content was the tab's original when it was issued, as long as times tell versions apart |
| FileSave.SaveSendsTheScreen | public/file-preview-panel.js:1016-1048 | a save sends what is on screen with the known time if and only if the tab is marked, editable and not in conflict unless forced; in conflict it asks instead |
| FileSave.OverwritingReachesTheDisk | src-tauri/src/host_data.rs:885-938 | a conflict answered with overwriting writes what is on screen whatever is on disk, and makes it the original |
| FileSave.RefusedSaveKeepsTheEdits | public/file-preview-panel.js:1049-1085 | a save that fails or meets a conflict leaves the disk and the edits with their mark |
| FileSave.LeavingAConflict | public/file-preview-panel.js:1087-1100 | a conflict that is left ends the save and changes nothing; one answered with reloading starts a load |
| FileSave.SaveWithoutTimeIsRejected | src-tauri/src/host_data.rs:885-938 | an unforced save that expects no time is turned away |
| FileSave.OutdatedLoadIsNeverShown | public/file-preview-panel.js:695-708 | once a load is outdated, whatever happens in between, its answer changes nothing on screen |
| FileSave.NewestLoadIsShown | public/file-preview-panel.js:695-847 | aborting, loading and reloading outdate the load before; the newest load that brings a text shows it |
| FileSave.LoadsWithoutText | public/file-preview-panel.js:709-780 | what a failed load, a binary and a lost conversion leave of the tab |
| FileSave.TypingShows | public/file-preview-panel.js:938-949 | typing shows what is typed, against the original that stays |
| FileSave.MarkStaysExactExactlyUnless | public/file-preview-panel.js:938-1137 | an exact dirty mark stays exact through a step if and only if the step is neither a reload of a dirty tab out of a conflict nor the end of the current load of a dirty tab with nothing to show |
| FileSave.DirtyIsExactExactlyUnlessLagging | public/file-preview-panel.js:938-1137 | at the end of every run the mark equals "content differs from original" if and only if the history flag is down; the flag is told from the events and the mark alone, never from a content: those two steps raise it, and an edit, a discard, a load that shows a file, a successful save, or a conflict reload that drops a mark left standing over nothing lower it; right after a successful save the mark is always exact |
| FileSave.UntroubledRunsKeepTheMark | public/file-preview-panel.js:938-1137 | a run without either step keeps the mark exact throughout |
| FileSave.FailedReloadDropsTheMark | public/file-preview-panel.js:1087-1116 | a run from the start: load, foreign write, edit, save refused as a conflict, reload chosen, and its read fails; the edits stay on screen without the mark |
| FileSave.UnseenIsOverwrittenExactlyWithinTolerance | src-tauri/src/host_data.rs:885-938 | with a version on disk that the tab never showed, an unforced save overwrites it if and only if its time is within one millisecond of the one the tab knows; otherwise the version stays and the save ends in a conflict |
| FileSave.UnseenIsOverwrittenInARun | src-tauri/src/host_data.rs:885-938 | the run that does it: load, foreign write, edit, save; the foreign version is lost unseen if and only if the two times are within one millisecond |
| FileSave.StepOk | public/file-preview-panel.js:695-1137 | every event after which times still tell versions apart keeps the invariant of versions, tab, running loads and requests |
| FileSave.RunOk | public/file-preview-panel.js:695-1137 | and so does every such run |
| FileTab.FilePreviewTab.constructor | public/file-preview-panel.js:56-126 | an empty tab |
| FileTab.FilePreviewTab.LoadTabContent | public/file-preview-panel.js:695-703 | a load takes a new token |
| FileTab.FilePreviewTab.AbortTabLoad | public/file-preview-panel.js:836-847 | aborting outdates the running load |
| FileTab.FilePreviewTab.FinishTabLoad | public/file-preview-panel.js:704-830 | an answer is used only if its token is still current |
| FileTab.FilePreviewTab.OnChange | public/file-preview-panel.js:938-949 | an edit compares with the original |
| FileTab.FilePreviewTab.ReloadTab | public/file-preview-panel.js:1101-1116 | a dirty tab is reloaded only behind its confirmation or where that is skipped; a reload drops the mark before it loads |
| FileTab.FilePreviewTab.DiscardEdits | public/file-preview-panel.js:1126-1137 | discarding puts the original content back |
| FileTab.FilePreviewTab.PerformSave | public/file-preview-panel.js:1016-1028 | a save request carries the tab's content and the expected time |
| FileTab.FilePreviewTab.FinishPerformSave | public/file-preview-panel.js:1049-1085 | a success makes the saved content the original |
| Utf8.EncodeInjective | extensions/skill-installation.ts:74-76 | the UTF-8 encoding separates all texts |
| Utf8.HeadsAgree | extensions/skill-installation.ts:74-76 | and is prefix-free character by character |
| Utf8.EncodingIsStandard | extensions/skill-installation.ts:74-76 | every character is encoded in the one to four bytes of RFC 3629, section 3, that hold its code point |
| InstallRevision.LengthDelimited | extensions/skill-installation.ts:72-81 | the chunks in order, or failure exactly when a part does not fit its length field |
| InstallRevision.FieldReads | extensions/skill-installation.ts:72-81 | a field is its length in four bytes, the most significant first, and then the text |
| InstallRevision.DelimitedInjective | extensions/skill-installation.ts:72-81 | the parts and where they end can be read back from the bytes |
| InstallRevision.HashCandidates | extensions/skill-installation.ts:137-148 | feeds the sorted candidates |
| InstallRevision.HashGroups | extensions/skill-installation.ts:149-150 | feeds the sorted memberships |
| InstallRevision.BuildRevision | extensions/skill-installation.ts:134-152 | the revision is the hash of exactly the specified texts |
| RevisionTheorems.DirectoriesAgree | extensions/skill-installation.ts:134-152 | the hashed texts of a directory determine its source, its candidates and its memberships, in the order fed |
| RevisionTheorems.NeverMissing | extensions/skill-installation.ts:161-174 | and are never those of an unreadable source |
| RevisionTheorems.EqualRevisionsExactlyForEqualScans | extensions/skill-installation.ts:134-203 | with collision-free digests, equal revisions if and only if equal scans, when the collation separates the paths |
| RevisionTheorems.OrderIndependentExactlyWithoutTies | extensions/skill-installation.ts:137-137 | the revision is independent of discovery order if and only if the collation separates every two different skills |
| RevisionTheorems.MembershipOrderNeverMatters | extensions/skill-installation.ts:149-150 | sorting by code units makes the order of memberships irrelevant |
| RevisionTheorems.OpaqueId | extensions/skill-installation.ts:83-93 | the keyed digest of the four texts |
| RevisionTheorems.OpaqueIdsSeparate | extensions/skill-installation.ts:83-93 | under one key, ids coincide if and only if source, revision, kind and path do |
| DiffRows.RemovedRun | public/git-diff-renderer.js:38-43 | takes all removed lines of a block |
| DiffRows.AddedRun | public/git-diff-renderer.js:44-48 | takes all added lines behind them |
| DiffRows.Align | public/git-diff-renderer.js:49-51 | pairs the two columns, padding the shorter |
| DiffRows.PushLine | public/git-diff-renderer.js:16-36 | a line outside a block: header, skipped line, context, lone added line |
| DiffRows.Turn | public/git-diff-renderer.js:14-52 | one turn of the main loop conserves the rows pushed plus the rows to come |
| DiffRows.ParsePatch | public/git-diff-renderer.js:8-54 | the loops compute the rows of the text; what is returned is all of them, or the first 600 |
| DiffTheorems.SidesAreShownExactlyWhenReadable | public/git-diff-renderer.js:8-54 | for every patch text without a file header where a block reads on: the left cells are the context and removed lines and the right cells the context and added lines, in order and numbered from the hunk headers, if and only if no body line is mistaken for a file header |
| DiffTheorems.ParsedSides | public/git-diff-renderer.js:8-54 | what is returned of a readable, guarded text: its columns are the front of the two sides, and the sides themselves up to 600 rows; every row pairs up |
| DiffTheorems.RowsShowSides | public/git-diff-renderer.js:14-52 | the same on lines as read, with strictly fewer cells in the other case |
| DiffTheorems.HeadReads | public/git-diff-renderer.js:16-20 | a printed hunk header is read as its two start numbers, whatever its counts and section |
| DiffTheorems.ZipKeepsColumns | public/git-diff-renderer.js:49-51 | pairing loses and reorders nothing in either column |
| DiffTheorems.BlockAligns | public/git-diff-renderer.js:38-51 | the k-th row of a change block faces the k-th removed line with the k-th added one, each under its own number, in as many rows as the longer side has lines |
| DiffTheorems.SidesAreShownExactlyWhenGuarded | public/git-diff-renderer.js:38-48 | for every patch text without a body line that is mistaken for a header: the columns are the two sides if and only if no file header stands where the block before it reads on |
| DiffTheorems.RowsShowNoLess | public/git-diff-renderer.js:38-48 | the same on lines as read, with strictly more cells in the other case |
| DiffTheorems.FaultsCanCancel | public/git-diff-renderer.js:22-48 | a text that is neither readable nor guarded and yet shown right, so the two conditions cannot be joined into one |
| DiffTheorems.SwallowedHeaderOccurs | public/git-diff-renderer.js:38-43 | the texts that fail: a removed line with the next file's header directly behind it |
| DiffTheorems.LostLineOccurs | public/git-diff-renderer.js:22-22 | and a removed line that starts with two dashes |
| DiffTheorems.EveryRowPairsUp | public/git-diff-renderer.js:8-54 | no row is empty on both sides; context faces the same context, a removed line an added one or nothing |
| ShellQuote.QuotedReadsBack | extensions/ssh-remote.ts:243-245 | for every value and every delimited continuation, the shell reads exactly the quoted text as one word, the value, all of it literal, if and only if the value has no NUL |
| ShellQuote.ReadAlikeExactlyWhenEqual | extensions/ssh-remote.ts:243-245 | two values without a NUL are read alike if and only if they are equal |
| ShellQuote.ArgumentsReadBack | extensions/ssh-remote.ts:243-245 | a command line of quoted arguments is read as exactly those arguments |

## Left out

- SidesAreShownExactlyWhenReadable: is about texts in which no file header stands where a block reads on; texts that have both faults are covered by neither theorem, because the faults can cancel (`FaultsCanCancel`).
- LogIsExclusive: holds for runs in which the owner loads while no append is under way; `LoadSafeExactlyWhenDrained` shows that this condition cannot be dropped.
- EveryMessageInOnePrompt: holds for the same runs; behind a repeated id the ranges of ids no longer tell messages apart.
- HandoverResumesAtLastCheckpoint: holds for the same runs; a list sorted by id is the file only while ids increase.
- IngestInbound: message normalisation, attachments and remote commands are not modelled; who may trigger a job is the access list, the bot rule and the direct-message rule.
- CompleteActiveJob: trimming of the reply text and attachments are not modelled; an empty reply writes no outbound record, as in the source.
- BuildPrompt: the prompt is the sequence of records, not its formatted text.
- Initialize: torn log lines (a bad line empties the whole log) and a claim file that does not parse are not modelled.
- DisableGroupDisables: which members the added glob matches is the matcher's affair, and the matcher is not part of this model.
- UnambiguousToggleKeepsOthers: for SKILL.md directories under an absolute POSIX base, not the base directory itself; loose Markdown skills share one rule per directory.
- Resolve: configured skill files and the reading of settings are not modelled; the judgement of the rules enters as a flag of each record.
- BuildTree: the tree is a value, not linked mutable nodes, so updating nodes in place is not captured; group ambiguity (`markGroupAmbiguity`) and the group's rule paths are not modelled.
- NoUpdateIsLost: taking over a stale lock after a crash, and writers that do not take the lock, are outside it.
- AcceptCheckpoint: the acknowledged sequence (`ack`) is not modelled, it only feeds diagnostics.
- ApplyListed: request numbers, awaiting answers and the DOM around a tab are not modelled; a tab that is closed and opened again is a new tab.
- SettlePanel: frames carry no lines or widths; a component's callbacks appear as further events, but `dispose` runs within one step, so one that itself hides, focuses or settles another panel is not covered.
- PerformSave: autosave timers and the conflict dialog are not modelled; forcing a save is a parameter.
- NeverMissing: `extensions/skill-installation.ts:176` tests the method `isDirectory` instead of calling it, so the branch for a source that is a file is never taken; the model has no such branch.
- BuildRevision: lone surrogates in a name or path are not modelled; the file system, both digests and the collation are parameters.
- ParsePatch: line numbers are unbounded integers; rendering the rows and the fallback to the raw patch are not modelled.
- QuotedReadsBack: expansions, double quotes and here-documents are outside the word reader, which reports them as unsettled.
- Telegram, HTTP, SSH processes, provider probing and the agent SDK: foreign input and output.
- `flattenCandidates`, `commonDirectory`, `dedupeConfiguredPackages`, `remotePathFor`, the compact coordinator, the OAuth manager, tab selection: they would only add easy members.
- Real paths, symbolic links, YAML and JSON parsing: not part of this model.
