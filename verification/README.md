# Verified model of the Phus runtime's state machines

Phus is an agent runtime. This Dafny project models the parts of it whose behaviour spans many
calls, and proves what holds over all their inputs, runs and interleavings.

- **Session runtimes** (`RegistryModel`, `RegistryInvariant`, `RegistryTheorems`, `RegistryRecency`,
  `RegistrySelection`, `SessionRuntimeRegistry`): an LRU cache of live runtimes that is also a job queue per session. The
  model is a step system: every stretch of code between two suspension points is one step, a run is
  any list of steps, and the class with the source's fields is proved to make exactly those steps.
- **Memory file** (`Text`, `MemoryMeta`, `MemoryHeading`, `MemoryDoc`, `MemoryStore`, `MemoryRuns`):
  parsing and printing of `phus.md` with metadata comments, character by character, edits through that
  pair, and runs of edits.
- **Line wrapping** (`Terminal`, `TerminalCursor`): greedy wrapping by display width and the separate
  cursor-row computation, over UTF-16 code units.
- **LLM fuse** (`LlmFuse`): the billing fuse and the two budgets over arbitrary call traces.
- **Provider mesh** (`Circuit`, `Routing`, `MeshModel`, `ProviderMesh`): circuit breakers, routing
  and failover, with other calls and health passes acting on the same endpoints while an invocation
  is pending.
- **Viewport** (`Viewport`): the bottom-anchored scroll window and what `render` shows.
- **Session catalog and tape** (`SessionCatalog`, `SessionStore`, `TapeModel`, `Checkpoints`, `Tape`,
  `Compaction`): addresses derived from session ids, bootstrapping, checkpoints, compaction. Tables
  are sequences of rows with their declared keys and orders.
- **Chat state, hooks, context budget** (`ChatState`, `ChatReplies`, `HookModel`, `HookRegistry`,
  `ContextBudget`).
- `Wrappers` and `StableSort` hold what several components need.

Where the source updates state in place there is a class (or a method with the source's loop), proved
against a function on values; the lemmas about those functions carry the results. Clock readings,
random draws and ids, answers of callbacks and the outcome of writes are parameters. Lemmas carry
`{:induction false}` throughout: every induction is written out.

## What the code does not do

Some promises hold only under a condition; the condition is then proved to be exact.

- The registry keeps running the queued jobs of a disposed runtime after `disposeAll`
  (`OpenJobsRuntimeLives`; `JobStartsOnDisposedRuntime` shows a job starting on one); exclusivity and
  order still hold. Eviction and a change of selection checkpoint what has messages, `disposeAll`
  nothing (`CheckpointsAre`).
- `findCursorDisplayRow` counts the halves of a surrogate pair as a column each, where the wrapper counts
  the pair. At every place between the characters of a line its row is the wrapper's if and only if the
  line is in step, at every width (`CursorAlwaysRightIff`): the units of each wrapped row have room on
  it, but for the half of a pair counted on the row above, and the next row's first character has none.
  For pairs of one column, such as most emoji, that says that each row has room for twice its pairs
  (`NarrowPairsRightIff`, `CursorMiscountsPairs`); a line without pairs is in step from width 2 on.
- The memory file's header comment promises backward-compatible parsing. Writing an edit and reading
  it back changes only the named section exactly when the trimmed body has no heading line, the named
  heading can be printed with its new metadata, and every other heading of the file can be
  (`ApplyThenRead`, `StableIff`); a section named `x <!-- y -->`, one with a line break, and a body
  whose trimming uncovers a heading line fail (`FailingEdits`). Every write adds one line break behind
  the last body; over a run of edits a section gains one for each write that left it last, and nothing
  else from other sections' edits (`RunOfEdits`, `UntouchedSection`, `SectionInk`).
- Checkpoint timestamps are documented as unique and ordered; they are unique up to a thousand saves
  in a millisecond (`StampsDistinctIff`) and increase exactly when the counter does not wrap within
  one (`StampsIncreaseIff`). Under that condition, and only under it, every run leaves each session's
  last save as the checkpoint to resume from (`LatestIsLastSavedIff`); after a wrap the older of two
  saves is taken (`WrapResumesOlder`). Pruning keeps the newest checkpoints exactly when the cut does
  not fall between two with one timestamp (`PruneExactIff`), and over all runs exactly when no
  millisecond sees more than a thousand saves (`PrunesRightInEveryRunIff`).
- A request below the compaction tier fits the context window only if the reserved output alone does
  (`BelowCompactFitsIff`). Compaction with `keepRecent = 0` keeps everything (`SplitIsExactIff`,
  `KeptMessages`), and shortens the message list exactly when more than one message is left
  out (`TrimmedShorterIff`).
- Failed health checks alone take an endpoint to any number of failures without opening its circuit
  (`PingsDoNotOpen`): a closed circuit is below its threshold in every history exactly when there is no
  threshold, or one of at least one and no health URL (`AlwaysBelowThresholdIff`). A half-open
  endpoint stays on offer however often it fails (`HalfOpenStaysAvailable`).

## Model

| member | source | states |
|---|---|---|
| `SessionRuntimeRegistry.Registry.constructor` | packages/runtime/src/bridge/session-runtime-registry.ts:58-64 | a registry starts empty, open and unselected, with a cap of at least one and eight by default |
| `SessionRuntimeRegistry.Registry.GetOrCreate` | packages/runtime/src/bridge/session-runtime-registry.ts:66-92 | the object makes the model's step: refusal when disposed, touch when resident, factory mismatch, admission with all subscribers, then eviction protecting the session |
| `SessionRuntimeRegistry.Registry.SetSelected` | packages/runtime/src/bridge/session-runtime-registry.ts:113-126 | the object makes the model's step: the previous selection is checkpointed if it has messages, the new one becomes most recent, then eviction |
| `SessionRuntimeRegistry.Registry.SelectIfUnset` | packages/runtime/src/bridge/session-runtime-registry.ts:108-111 | selects only when nothing (or the empty id) is selected, otherwise touches the selection |
| `SessionRuntimeRegistry.Registry.StartExclusive` | packages/runtime/src/bridge/session-runtime-registry.ts:138-147 | a submitted job counts as pending and becomes the tail of its session's entry |
| `SessionRuntimeRegistry.Registry.EnterExclusive` | packages/runtime/src/bridge/session-runtime-registry.ts:148-152 | a job enters when the promise it awaits is resolved |
| `SessionRuntimeRegistry.Registry.FinishExclusive` | packages/runtime/src/bridge/session-runtime-registry.ts:153-158 | a finished job stops pending, resolves its promise, and eviction runs without protection |
| `SessionRuntimeRegistry.Registry.Subscribe` | packages/runtime/src/bridge/session-runtime-registry.ts:195-211 | a new subscriber record holds a closure for every resident runtime |
| `SessionRuntimeRegistry.Registry.SubscribeToResidents` | packages/runtime/src/bridge/session-runtime-registry.ts:203-205 | the loop attaches the handler to each resident runtime once and keeps each closure under its session |
| `SessionRuntimeRegistry.Registry.Unsubscribe` | packages/runtime/src/bridge/session-runtime-registry.ts:206-210 | the returned closure removes the record once and calls all its closures |
| `SessionRuntimeRegistry.Registry.DisposeAll` | packages/runtime/src/bridge/session-runtime-registry.ts:185-193 | a first call disposes every entry, clears subscribers and selection; later calls do nothing |
| `SessionRuntimeRegistry.Registry.AttachSubscribers` | packages/runtime/src/bridge/session-runtime-registry.ts:213-223 | every subscriber is attached to the new runtime |
| `SessionRuntimeRegistry.Registry.EvictIfNeeded` | packages/runtime/src/bridge/session-runtime-registry.ts:225-238 | the loop evicts the victims of the model's recursion, in its order |
| `SessionRuntimeRegistry.Registry.DisposeEntry` | packages/runtime/src/bridge/session-runtime-registry.ts:240-255 | one entry is detached from every subscriber, disposed and removed |
| `SessionRuntimeRegistry.Registry.DetachSubscribers` | packages/runtime/src/bridge/session-runtime-registry.ts:243-252 | each record's closure for the session is called and forgotten |
| `RegistryInvariant.NextKeeps` | packages/runtime/src/bridge/session-runtime-registry.ts:66-260 | every step keeps: unique residents each disposed once when gone, exact attachments and closures, promise chains, `pending` and `tail` accounting, open jobs resident until disposal, selection resident, at most one idle unselected entry over capacity |
| `RegistryInvariant.RunKeeps` | packages/runtime/src/bridge/session-runtime-registry.ts:66-260 | that invariant holds after every interleaving |
| `RegistryInvariant.EvictFits` | packages/runtime/src/bridge/session-runtime-registry.ts:225-238 | after eviction over capacity nothing idle is left except the selected and the protected entry |
| `RegistryInvariant.EvictSpares` | packages/runtime/src/bridge/session-runtime-registry.ts:228-231 | eviction never touches a protected, selected or busy entry |
| `RegistryInvariant.UnsubscribeOnce` | packages/runtime/src/bridge/session-runtime-registry.ts:206-210 | unsubscribing detaches exactly that subscriber everywhere and a second call changes nothing |
| `RegistryInvariant.DisposeAllKeeps` | packages/runtime/src/bridge/session-runtime-registry.ts:185-193 | disposing everything keeps the invariant and leaves nothing resident or attached |
| `RegistryTheorems.JobsRunInOrder` | packages/runtime/src/bridge/session-runtime-registry.ts:134-159 | in every interleaving a job of a session starts only when all earlier jobs of that session are done, across eviction and recreation |
| `RegistryTheorems.JobsOnlyAdvance` | packages/runtime/src/bridge/session-runtime-registry.ts:134-159 | no step forgets, reorders or restarts a job |
| `RegistryTheorems.StartQueuesOnResident` | packages/runtime/src/bridge/session-runtime-registry.ts:138-147 | a started job is queued last on the runtime resident for its session |
| `RegistryTheorems.NoJobStuck` | packages/runtime/src/bridge/session-runtime-registry.ts:143-158 | whenever a job waits, some open job of its session can move |
| `RegistryTheorems.PendingCountsOpenJobs` | packages/runtime/src/bridge/session-runtime-registry.ts:141-154 | an entry's `pending` equals its waiting and running jobs |
| `RegistryTheorems.OpenJobsRuntimeLives` | packages/runtime/src/bridge/session-runtime-registry.ts:185-193 | the runtime of an open job has been disposed exactly when `disposeAll` was called |
| `RegistryTheorems.JobStartsOnDisposedRuntime` | packages/runtime/src/bridge/session-runtime-registry.ts:148-152 | in every run a job that may start still starts after everything was disposed, on a runtime disposed once |
| `RegistryTheorems.FirstJobMayStart` | packages/runtime/src/bridge/session-runtime-registry.ts:138-152 | the first job of a new registry may start |
| `RegistryTheorems.ResidencyBound` | packages/runtime/src/bridge/session-runtime-registry.ts:225-238 | residents never exceed the configured cap, one, or the busy sessions plus two, and the selected session is resident |
| `RegistryTheorems.EvictsOldestFirst` | packages/runtime/src/bridge/session-runtime-registry.ts:226-234 | eviction removes exactly as many entries as needed or allowed, least recently used first with ties by insertion, and keeps the rest in order |
| `RegistryTheorems.EvictSavesAndDisposes` | packages/runtime/src/bridge/session-runtime-registry.ts:235-236 | victims with messages are checkpointed, nothing else is, and each victim is disposed once |
| `RegistryTheorems.SubscribersMirrored` | packages/runtime/src/bridge/session-runtime-registry.ts:195-255 | in every reachable state a handler is attached once to each resident runtime if its subscriber is live, and not at all otherwise |
| `RegistryTheorems.SubscriberStaysLive` | packages/runtime/src/bridge/session-runtime-registry.ts:185-211 | a subscriber stays live exactly until it is unsubscribed or everything is disposed |
| `RegistryTheorems.SubscribeMakesLive` | packages/runtime/src/bridge/session-runtime-registry.ts:195-211 | subscribing makes exactly one new subscriber live, of its kind, and is refused once everything is disposed |
| `RegistryRecency.LastUsedIsLastUse` | packages/runtime/src/bridge/session-runtime-registry.ts:66-159 | over every run a resident session's time is the clock reading of the last step that used it, read off the list of steps; no other step changes it |
| `RegistryRecency.VictimsUsedLeastRecently` | packages/runtime/src/bridge/session-runtime-registry.ts:225-238 | every session evicted in a run is unselected, has only finished jobs, and was used last no later than any session that might have been evicted instead |
| `RegistryRecency.VictimsUsedFirst` | packages/runtime/src/bridge/session-runtime-registry.ts:225-238 | with a clock that never goes back its last use came before theirs, or at the same reading |
| `RegistrySelection.SelectedIsChosen` | packages/runtime/src/bridge/session-runtime-registry.ts:108-126 | over every run the selected session is the one last chosen successfully, and the registry is disposed exactly after `disposeAll` |
| `RegistrySelection.CheckpointsAre` | packages/runtime/src/bridge/session-runtime-registry.ts:113-238 | every step checkpoints exactly the runtimes with messages that it evicts or that lose the selection by it; disposing everything checkpoints none |
| `Text.WhiteSpaceIs` | packages/runtime/src/infra/memory/store.ts:145-150 | the white space and line ends the expressions mean, by code point |
| `MemoryMeta.DecimalRoundTrip` | packages/runtime/src/infra/memory/store.ts:124-128 | a printed timestamp is all digits and is read back as the same number |
| `MemoryMeta.ParseMetaText` | packages/runtime/src/infra/memory/store.ts:113-142 | written metadata is read back unchanged, whatever the category, authority and timestamp |
| `MemoryMeta.MetaTextIs` | packages/runtime/src/infra/memory/store.ts:135-142 | the comment spells category, authority and time in that order |
| `MemoryMeta.KeyMatches` | packages/runtime/src/infra/memory/store.ts:116-124 | a key is found in whatever case it is written |
| `MemoryMeta.CaptureIsFirst` | packages/runtime/src/infra/memory/store.ts:116-126 | what is read for a key is the value behind its leftmost place that has one |
| `MemoryMeta.MissingMeta` | packages/runtime/src/infra/memory/store.ts:113-133 | a missing or unknown category, authority or time reads as notes, agent and 0, and a known one as what it names |
| `MemoryHeading.TrimHeading` | packages/runtime/src/infra/memory/store.ts:145-151 | trimming a heading line leaves a heading line, or nothing but hashes |
| `MemoryHeading.HeadingLineIs` | packages/runtime/src/infra/memory/store.ts:168-173 | a line is a section boundary when it begins with two hashes or more, white space and anything behind it |
| `MemoryHeading.CommentFoundIff` | packages/runtime/src/infra/memory/store.ts:146-150 | a comment is found in a heading line exactly when the source's expression matches |
| `MemoryHeading.StableIff` | packages/runtime/src/infra/memory/store.ts:135-151 | a heading prints as one heading line that splits back into it and its metadata exactly when it is trimmed, a heading line, and free of an earlier comment mark |
| `MemoryHeading.SplitGives` | packages/runtime/src/infra/memory/store.ts:145-151 | splitting a heading line gives a trimmed heading that can be printed and read back unless it is only hashes or begins with a comment mark |
| `MemoryHeading.BareHeadingMeta` | packages/runtime/src/infra/memory/store.ts:145-150 | a heading line without a comment is a note of the agent's with time 0 |
| `MemoryHeading.BareHeadingIff` | packages/runtime/src/infra/memory/store.ts:135-142 | a heading is printed bare exactly for notes, agent and 0 |
| `MemoryDoc.ParsedShape` | packages/runtime/src/infra/memory/store.ts:157-186 | whatever the file holds, parsing gives distinct headings, one body and metadata record each, and bodies of complete lines without heading lines |
| `MemoryDoc.RoundTrip` | packages/runtime/src/infra/memory/store.ts:332-345 | parsing a printed document gives the same headings, metadata and bodies with exactly one line break more behind the last body |
| `MemoryDoc.RoundTripIff` | packages/runtime/src/infra/memory/store.ts:332-345 | the round trip holds exactly when every heading can be printed and read back with its metadata and no body holds a heading line |
| `MemoryStore.EditedShape` | packages/runtime/src/infra/memory/store.ts:412-449 | an edit keeps the document's shape; its bodies stay free of heading lines exactly when the trimmed body has none |
| `MemoryStore.ApplyThenRead` | packages/runtime/src/infra/memory/store.ts:406-451 | writing an action and reading back changes only the named section (append, replace, delete) and keeps the order with a new section last, exactly when the trimmed body has no heading line, the named heading can be printed with its new metadata and the other headings of the file with theirs |
| `MemoryStore.EditedStableIff` | packages/runtime/src/infra/memory/store.ts:412-449 | the edited document can be printed and read back heading by heading exactly when the named heading with its new metadata and the other headings can |
| `MemoryStore.BadNameFails` | packages/runtime/src/infra/memory/store.ts:347-354 | a section name with a line break, or with a comment mark behind its text, never comes back as written, whatever the file |
| `MemoryStore.FailingEdits` | packages/runtime/src/infra/memory/store.ts:406-451 | three edits that change more than the named section on every file: a name with a comment, a name with a line break, an indented heading as body |
| `MemoryRuns.RunOfEdits` | packages/runtime/src/infra/memory/store.ts:406-451 | after any run of readable edits the headings are in the order of first mention, and every section's body and metadata are what its own actions made of them, with one line break more for each write that left it last |
| `MemoryRuns.EachChangesItsOwnIff` | packages/runtime/src/infra/memory/store.ts:406-451 | every edit of a run changes only the section it names if and only if the run is readable |
| `MemoryRuns.UntouchedSection` | packages/runtime/src/infra/memory/store.ts:332-345 | a section no edit names keeps metadata and body and gains exactly one line break for each write that left it last |
| `MemoryRuns.SectionInk` | packages/runtime/src/infra/memory/store.ts:420-449 | the non-empty lines of every section, in order, are the fold of its own actions alone |
| `MemoryRuns.SectionAuthor` | packages/runtime/src/infra/memory/store.ts:406-419 | after any readable run a section's authority is the one its edits named last; a section made by edits that named none is the agent's |
| `MemoryRuns.PlainRunIsReadable` | packages/runtime/src/infra/memory/store.ts:347-354 | a run whose bodies are text and whose headings can be printed with any metadata, on a file with printable headings, is readable |
| `MemoryStore.ParsedHeadingsStable` | packages/runtime/src/infra/memory/store.ts:167-181 | every heading of a parsed file can be printed and read back with its metadata unless it is only hashes or begins with a comment mark |
| `MemoryStore.NormalizePlain` | packages/runtime/src/infra/memory/store.ts:347-354 | a plain name, bare or behind two or more hashes, names one section, printable with any metadata |
| `MemoryStore.IndentedHeading` | packages/runtime/src/infra/memory/store.ts:429-436 | a body that is no heading line becomes one when trimmed |
| `MemoryStore.SplitSections` | packages/runtime/src/infra/memory/store.ts:157-186 | the loop over lines builds the parsed document |
| `MemoryStore.Serialize` | packages/runtime/src/infra/memory/store.ts:332-345 | the loop over headings builds the printed document |
| `MemoryStore.MemoryStore.Read` | packages/runtime/src/infra/memory/store.ts:379-394 | a missing file reads as empty, otherwise all sections without the preamble |
| `MemoryStore.MemoryStore.Apply` | packages/runtime/src/infra/memory/store.ts:406-476 | the file becomes the printed edited document, or stays untouched with the reason: missing section or failed write |
| `MemoryStore.MemoryStore.Edit` | packages/runtime/src/infra/memory/store.ts:412-449 | the three kinds of action on headings, bodies and metadata, in the source's order |
| `Terminal.DisplayWidth` | packages/tui/src/utils/terminal.ts:38-44 | the sum of the widths of the characters a `for ... of` loop visits |
| `Terminal.WidthOfString` | packages/tui/src/utils/terminal.ts:38-44 | any string of code points, encoded in UTF-16, is visited code point by code point, and its width is the sum of their columns |
| `Terminal.ColumnsAre` | packages/tui/src/utils/terminal.ts:10-36 | a code point takes two columns in the East Asian wide ranges, none as a control character or combining mark, else one |
| `Terminal.WrapLineToRows` | packages/tui/src/utils/terminal.ts:46-69 | the loop computes the greedy wrapping, one row for widths of zero or less |
| `Terminal.WrapLosesNothing` | packages/tui/src/utils/terminal.ts:46-69 | at every width the rows joined are the line |
| `Terminal.WrapRecordsWidths` | packages/tui/src/utils/terminal.ts:58-67 | every row records its own display width |
| `Terminal.RowsFit` | packages/tui/src/utils/terminal.ts:57-64 | from width one every row fits exactly when every character does, and from width two always |
| `Terminal.WrapIsOptimal` | packages/tui/src/utils/terminal.ts:46-69 | no way of cutting the line into rows that fit uses fewer rows |
| `Terminal.FindCursorDisplayRow` | packages/tui/src/utils/terminal.ts:72-94 | the rows of the earlier lines plus the descent along the code units before the cursor, also for cursors outside the text |
| `Terminal.DescendLine` | packages/tui/src/utils/terminal.ts:82-91 | the loop over code units counts the line breaks the cursor passes |
| `TerminalCursor.CursorRowIsLastWrappedRow` | packages/tui/src/utils/terminal.ts:83-91 | for the text before one cursor the descent is the last row of wrapping it when it is in step, and only then if it has no pairs, fits one row, or the width is zero or less; without pairs every text is in step from width two |
| `TerminalCursor.CursorAlwaysRightIff` | packages/tui/src/utils/terminal.ts:72-94 | for every line and width, the cursor's row is right at every place between characters if and only if the wrapped rows are in step |
| `TerminalCursor.NarrowPairsRightIff` | packages/tui/src/utils/terminal.ts:84-91 | with pairs of one column, from width two, it is right all along the line if and only if each wrapped row has room for its code units |
| `TerminalCursor.CountsMeetAgain` | packages/tui/src/utils/terminal.ts:84-91 | a text out of step may still end on the right row, so one place alone cannot decide |
| `TerminalCursor.CursorRowOnScreen` | packages/tui/src/utils/terminal.ts:72-94 | the cursor's row is the rows of earlier lines plus the wrapped prefix's last row, and is a row of the wrapped line |
| `TerminalCursor.CursorRowShows` | packages/tui/src/utils/terminal.ts:72-94 | of all lines wrapped one below the other, the cursor is on the row of its line where the text before it ends; outside the text it is above or below all of them |
| `TerminalCursor.CursorRowOnScreenInStep` | packages/tui/src/utils/terminal.ts:72-94 | the same for any line in step, whatever its pairs, at every place between characters |
| `TerminalCursor.CursorMiscountsPairs` | packages/tui/src/utils/terminal.ts:84-91 | after any pair of width one given twice, on two columns, the cursor is placed on a row the wrapped line does not have |
| `LlmFuse.LlmFuse.constructor` | packages/runtime/src/infra/llm-fuse.ts:67-78 | a fuse starts shut with nothing counted |
| `LlmFuse.LlmFuse.ResetTurn` | packages/runtime/src/infra/llm-fuse.ts:85-87 | only the turn counter is reset |
| `LlmFuse.LlmFuse.Check` | packages/runtime/src/infra/llm-fuse.ts:94-133 | the in-place check, with its pruning loop, makes the model's step and gives its verdict |
| `LlmFuse.LlmFuse.Report` | packages/runtime/src/infra/llm-fuse.ts:136-153 | a billing error opens the fuse only when it is shut |
| `LlmFuse.LlmFuse.Status` | packages/runtime/src/infra/llm-fuse.ts:159-175 | openness, the reason and time exactly while open, the turn count and the attempts of the last hour |
| `LlmFuseModel.WindowIsLog` | packages/runtime/src/infra/llm-fuse.ts:104-109 | with a clock that never goes back the pruned window is the full log of counted attempts cut to the last hour |
| `LlmFuseModel.StatusCountsLog` | packages/runtime/src/infra/llm-fuse.ts:166-173 | the reported hourly count is that of the full log |
| `LlmFuseModel.TurnIsCounted` | packages/runtime/src/infra/llm-fuse.ts:85-104 | the turn counter counts the attempts since the last reset |
| `LlmFuseModel.CheckSucceedsIff` | packages/runtime/src/infra/llm-fuse.ts:94-133 | a check passes exactly when the billing fuse is shut and neither budget is used up by the attempts before it |
| `LlmFuseModel.VerdictIs` | packages/runtime/src/infra/llm-fuse.ts:94-133 | the exact verdict in every run: the billing fuse first, then the budget of the turn, then that of the last hour, each used up by the attempts before |
| `LlmFuseModel.HourlyBound` | packages/runtime/src/infra/llm-fuse.ts:105-132 | any closed hour of any run holds at most the hourly limit of successful checks |
| `LlmFuseModel.TurnBound` | packages/runtime/src/infra/llm-fuse.ts:111-121 | since the last reset at most the turn limit of checks succeeded |
| `LlmFuseModel.BillingBlocks` | packages/runtime/src/infra/llm-fuse.ts:96-102 | a check fails with the billing reason, uncounted, exactly while a billing error that found the fuse shut is younger than its fuse time |
| `LlmFuseModel.OpenNamesItsCause` | packages/runtime/src/infra/llm-fuse.ts:136-146 | the time until which the fuse is open is that of the last billing error that found it shut, and the reason is the billing text |
| `Circuit.EndpointState.constructor` | packages/runtime/src/llm/provider-mesh/index.ts:58-65 | an endpoint starts closed with nothing counted |
| `Circuit.IsAvailable` | packages/runtime/src/llm/provider-mesh/circuit.ts:18-33 | in-place availability with the transition to half-open after the cooldown |
| `Circuit.RecordSuccess` | packages/runtime/src/llm/provider-mesh/circuit.ts:37-52 | in-place success with the latency window and closing |
| `Circuit.RecordFailure` | packages/runtime/src/llm/provider-mesh/circuit.ts:59-80 | in-place failure with opening at the threshold |
| `Circuit.RecordPing` | packages/runtime/src/llm/provider-mesh/health.ts:36-48 | one endpoint's part of a health pass |
| `CircuitModel.WindowIsLastTwenty` | packages/runtime/src/llm/provider-mesh/circuit.ts:45-46 | the latency window holds exactly the last twenty successful latencies, oldest first |
| `CircuitModel.HistoryOfEndpoint` | packages/runtime/src/llm/provider-mesh/circuit.ts:37-80 | open implies an opening time, and the failure counter is the failed calls, and the failed pings that found the circuit closed, since the last success |
| `CircuitModel.TotalsOfHistory` | packages/runtime/src/llm/provider-mesh/circuit.ts:37-80 | the totals count all successes and failures, and the last latency and health are the last ones of the history |
| `CircuitModel.ClosedIsBelowThreshold` | packages/runtime/src/llm/provider-mesh/circuit.ts:66-79 | without health passes or a health URL a closed circuit has fewer failures in a row than the threshold |
| `CircuitModel.CircuitMoves` | packages/runtime/src/llm/provider-mesh/circuit.ts:18-80 | closed opens only on a failed call at the threshold, half-open leaves only by a success to closed |
| `CircuitModel.OpenStaysOpen` | packages/runtime/src/llm/provider-mesh/circuit.ts:24-33 | an open circuit takes no traffic until its cooldown, a success or a good ping, and failures do not prolong the cooldown |
| `CircuitModel.OpenIff` | packages/runtime/src/llm/provider-mesh/circuit.ts:59-80 | over every history a circuit is open exactly when some failed call took a closed circuit to the threshold and nothing since ended that cooldown |
| `CircuitModel.HalfOpenStaysAvailable` | packages/runtime/src/llm/provider-mesh/circuit.ts:24-24 | half-open stays on offer until a success, however many calls fail |
| `CircuitModel.PingsDoNotOpen` | packages/runtime/src/llm/provider-mesh/health.ts:44-48 | any number of failed pings of a new endpoint is counted and leaves its circuit closed |
| `CircuitModel.AlwaysBelowThresholdIff` | packages/runtime/src/llm/provider-mesh/health.ts:44-48 | in every history a closed circuit is below the threshold, if and only if there is no threshold, or one of at least one and no health URL |
| `Routing.ComputeAvg` | packages/runtime/src/llm/provider-mesh/stats.ts:20-25 | the loop computes the mean of the window, nothing for an empty one |
| `Routing.MeanIs` | packages/runtime/src/llm/provider-mesh/stats.ts:20-25 | the mean times the number of latencies is their sum |
| `Routing.RouteWeighted` | packages/runtime/src/llm/provider-mesh/routing.ts:42-53 | the decrementing loop picks the candidate the draw falls on |
| `Routing.RouteIsLeftmostLeast` | packages/runtime/src/llm/provider-mesh/routing.ts:35-81 | the deterministic strategies pick the first declared candidate of least priority, cost or mean latency, unknown last |
| `Routing.FailoverPicksLowest` | packages/runtime/src/llm/provider-mesh/routing.ts:35-39 | failover picks the lowest priority, zero if absent, and of equals the first declared |
| `Routing.CostFirstPicksCheapest` | packages/runtime/src/llm/provider-mesh/routing.ts:55-69 | cost-first picks the lowest input plus output price, and an unknown one only if all are unknown |
| `Routing.LatencyFirstPicksFastest` | packages/runtime/src/llm/provider-mesh/routing.ts:71-81 | latency-first picks the lowest mean latency, compared crosswise, and an empty window only if all are empty |
| `Routing.WeightedShares` | packages/runtime/src/llm/provider-mesh/routing.ts:42-53 | a draw picks the candidate in whose share of the total weight it falls; the pick has weight exactly when the draw is not zero or the first candidate has weight |
| `Routing.WeightedPicksShare` | packages/runtime/src/llm/provider-mesh/routing.ts:41-53 | in the specifications' weights, one if absent, a draw picks the candidate in whose share of the total it falls |
| `MeshModel.ReplayIsPerEndpoint` | packages/runtime/src/llm/provider-mesh/index.ts:98-127 | in any interleaving each endpoint lives through its own events only |
| `MeshModel.PickMeaning` | packages/runtime/src/llm/provider-mesh/index.ts:90-95 | a pick is not open and not excluded; there is none only when every endpoint is open or excluded |
| `MeshModel.PicksAmongEligible` | packages/runtime/src/llm/provider-mesh/index.ts:90-95 | the strategy picks among exactly the endpoints that take traffic and were not tried, in the order of declaration |
| `MeshModel.InvocationBound` | packages/runtime/src/llm/provider-mesh/index.ts:98-127 | a call picks each endpoint at most once and records at most endpoints times retries invocations |
| `MeshModel.ReturnsIffLastSucceeds` | packages/runtime/src/llm/provider-mesh/index.ts:107-126 | a call returns exactly when an invocation succeeded, and that is its last record and only success |
| `MeshModel.GivesUpExhausted` | packages/runtime/src/llm/provider-mesh/index.ts:102-126 | a call gives up only when each endpoint is out of traffic or has failed once for every retry allowed |
| `MeshModel.AllTried` | packages/runtime/src/llm/provider-mesh/index.ts:102-105 | when as many names were tried as there are endpoints, all were |
| `MeshModel.MergedIs` | packages/runtime/src/llm/provider-mesh/index.ts:54-66 | each name mentioned gives one endpoint with its last specification, in the order of first mention |
| `MeshModel.RoundTimes` | packages/runtime/src/llm/provider-mesh/index.ts:107-122 | each invocation of a round is recorded with its own readings: a failure by when it began, a success by how long it took |
| `ProviderMesh.Mesh.constructor` | packages/runtime/src/llm/provider-mesh/index.ts:54-66 | one fresh closed endpoint for each name, in the order of first mention, with the last specification of that name |
| `ProviderMesh.Mesh.PickEndpoint` | packages/runtime/src/llm/provider-mesh/index.ts:90-95 | probes every endpoint in order, then picks by strategy among those available and not excluded |
| `ProviderMesh.Mesh.TryEndpoint` | packages/runtime/src/llm/provider-mesh/index.ts:107-122 | the retry loop ends at the first success or after all retries; its log is exactly one record for each invocation, with the clock readings of that attempt, behind what others did meanwhile |
| `ProviderMesh.Mesh.Call` | packages/runtime/src/llm/provider-mesh/index.ts:98-127 | the endpoints end as the log says, the log is exactly the probes, the records with their clock readings and what others did, each round picks what the strategy picks at that moment, and the call ends in one success or with nothing left to pick |
| `ProviderMesh.Mesh.RunHealthChecks` | packages/runtime/src/llm/provider-mesh/health.ts:26-50 | a pass pings the endpoints with a health URL in order and applies each answer to its own endpoint, with others acting while a ping is awaited |
| `Viewport.BottomAnchoredSlice` | packages/tui/src/runtime/scroll.ts:28-60 | the start index and skipped rows locate exactly the first row of the window, inside its item |
| `Viewport.EveryRowReachable` | packages/tui/src/runtime/scroll.ts:22-25 | unscrolled, a full window ends with the last row; every row is visible at some offset |
| `Viewport.ScrollByOne` | packages/tui/src/runtime/scroll.ts:40-57 | one line of scrolling moves the window by one row until the top, then changes nothing |
| `Viewport.ScreenLines` | packages/tui/src/components/chat/ChatViewport.ts:52-94 | line by line which row of the chat, blank or pill is shown |
| `Viewport.EmptyScreenIs` | packages/tui/src/components/chat/ChatViewport.ts:96-110 | the picture is in the middle, cut to its first lines in a low window |
| `Viewport.ChatViewport.constructor` | packages/tui/src/components/chat/ChatViewport.ts:26-30 | a viewport starts six rows high |
| `Viewport.ChatViewport.SetHeight` | packages/tui/src/components/chat/ChatViewport.ts:36-38 | only the height changes |
| `Viewport.ChatViewport.SetDeps` | packages/tui/src/components/chat/ChatViewport.ts:40-42 | only the dependencies change |
| `Viewport.ChatViewport.Render` | packages/tui/src/components/chat/ChatViewport.ts:46-94 | exactly `height` lines: that window of the flattened rows, blanks behind, the pill on the last line; nothing for heights of zero or less |
| `Viewport.ChatViewport.Visible` | packages/tui/src/components/chat/ChatViewport.ts:52-84 | the window before the pill |
| `Viewport.ChatViewport.FillWindow` | packages/tui/src/components/chat/ChatViewport.ts:65-79 | the nested loops take the rows behind the skipped ones, as many as fit |
| `Viewport.ChatViewport.EmptyState` | packages/tui/src/components/chat/ChatViewport.ts:96-110 | the art centred between blanks and cut to the height |
| `SessionCatalog.LegacyRoundTrip` | packages/core/src/session/session-store.ts:456-498 | a legacy address gives back the session id it was derived from |
| `SessionCatalog.LegacyInjective` | packages/core/src/session/session-store.ts:456-498 | distinct session ids have distinct legacy addresses |
| `SessionCatalog.LegacyAddressIs` | packages/core/src/session/session-store.ts:456-498 | a known channel, a colon and a key without one give that address, and nothing else does; the rest keep their whole id |
| `SessionCatalog.TapeSessionsAre` | packages/core/src/session/session-store.ts:291-300 | the grouping gives each session of the tape once, in ascending order |
| `SessionCatalog.StringLessIs` | packages/core/src/session/session-store.ts:291-300 | ascending ids: by the first character that differs, a string before its extensions |
| `SessionCatalog.AggregateIs` | packages/core/src/session/session-store.ts:292-298 | the aggregates are the attained bounds of the session's timestamps and of its turns |
| `SessionCatalog.BootstrapAdds` | packages/core/src/session/session-store.ts:301-345 | existing rows stay, keys stay unique, and a tape session gets its row exactly when neither its id nor its address is taken |
| `SessionCatalog.BootstrapFromEmpty` | packages/core/src/session/session-store.ts:284-349 | from an empty catalog every tape session gets its row and none is skipped |
| `SessionCatalog.BootstrapTwice` | packages/core/src/session/session-store.ts:284-349 | a second run creates nothing |
| `SessionCatalog.EnsureFailsIff` | packages/core/src/session/session-store.ts:134-168 | ensuring fails exactly when nobody has the id and it is empty or both its addresses are taken |
| `SessionCatalog.EnsureTwice` | packages/core/src/session/session-store.ts:134-168 | whatever other writers insert meanwhile, the returned session is the one in the table and ensuring again finds it unchanged |
| `SessionCatalog.EnsuredIs` | packages/core/src/session/session-store.ts:134-168 | the whole row ensuring makes for a new id, at the legacy address or, if that is taken, the fallback one |
| `SessionCatalog.BootstrappedIs` | packages/core/src/session/session-store.ts:301-345 | the whole row bootstrapping makes for a session of the tape |
| `SessionCatalog.CreatedIs` | packages/core/src/session/session-store.ts:72-125 | when creating fails, with which error, and the row made with its defaults otherwise |
| `SessionCatalog.EnsureSucceeds` | packages/core/src/session/session-store.ts:134-168 | in a catalog made by bootstrapping and ensuring, every non-empty id succeeds at its legacy address |
| `SessionCatalog.BootstrapOwnAddresses` | packages/core/src/session/session-store.ts:301-345 | bootstrapping gives every new row an address derived from its own id |
| `SessionCatalog.ResolveTwice` | packages/core/src/session/session-store.ts:184-200 | the resolved session is the one at the address, resolving again finds it, and failure means an empty or taken id |
| `SessionCatalog.TurnsGiveLatest` | packages/core/src/session/session-store.ts:234-258 | in whatever order turns are recorded the latest times remain and nothing else changes |
| `SessionStore.SessionStore.CreateSession` | packages/core/src/session/session-store.ts:72-125 | a row is inserted unless its id is empty or a key is taken; keys stay unique |
| `SessionStore.SessionStore.Ensure` | packages/core/src/session/session-store.ts:134-168 | look up, legacy address, re-read, fallback address, re-read, with other writers between |
| `SessionStore.SessionStore.ResolveOrCreate` | packages/core/src/session/session-store.ts:184-200 | look up by address, create, re-read, with other writers between |
| `SessionStore.SessionStore.RecordTurn` | packages/core/src/session/session-store.ts:234-258 | only the named row's times move, forward; an unknown id is an error |
| `SessionStore.SessionStore.BootstrapFromTape` | packages/core/src/session/session-store.ts:284-349 | inserts the model's rows; created counts them and created plus skipped are the tape's sessions |
| `TapeModel.ListAfterDelete` | packages/core/src/session/tape.ts:66-78 | deleting rows deletes them from every list read in time order, and changes nothing else of it |
| `TapeModel.SameCheckpoints` | packages/core/src/session/tape.ts:133-135 | the checkpoints pruning looks at are the listed ones |
| `TapeModel.ReadsInOrder` | packages/core/src/session/tape.ts:66-78 | replaying reads exactly the session's rows, or all rows for an empty name, by time and then by key |
| `TapeModel.ListsNewestFirst` | packages/core/src/session/checkpoint.ts:63-72 | listing gives exactly the session's checkpoints, newest first |
| `Checkpoints.KeysAscend` | packages/core/src/session/tape.ts:50-57 | in every run keys stay in ascending order and none is given out twice |
| `Checkpoints.StampsDistinctIff` | packages/core/src/session/checkpoint.ts:29-45 | with a clock that never goes back timestamps are distinct exactly up to a thousand saves in a millisecond |
| `Checkpoints.StampsIncreaseIff` | packages/core/src/session/checkpoint.ts:42-44 | the timestamps of a run of saves strictly increase exactly when the counter never wraps within a millisecond |
| `Checkpoints.LatestIsLastSavedIff` | packages/core/src/session/checkpoint.ts:50-60 | in every run of saves, prunes and other entries each session resumes from its last save, or from nothing once a prune keeps none, if and only if the counter never wraps within a millisecond of the saves |
| `Checkpoints.WrapResumesOlder` | packages/core/src/session/checkpoint.ts:44-57 | when the counter wraps between two saves in one millisecond, the older of them is loaded as the latest |
| `TapeModel.LatestAfterSave` | packages/core/src/session/checkpoint.ts:51-60 | a saved checkpoint is the latest unless the latest before it has a later timestamp |
| `Checkpoints.PruneExactIff` | packages/core/src/session/tape.ts:132-149 | for every number to keep, pruning leaves exactly the first so many of the list if and only if the cut separates two timestamps |
| `Checkpoints.PruneCountIff` | packages/core/src/session/tape.ts:141-148 | the count of deleted rows is what lies behind the kept part under the same condition |
| `Checkpoints.PruneTouchesNoOther` | packages/core/src/session/tape.ts:138-140 | other kinds and other sessions stay, in order |
| `Checkpoints.LatestKeptIff` | packages/core/src/session/checkpoint.ts:51-60 | the latest checkpoint stays the latest exactly when its timestamp is newer than every deleted one |
| `Checkpoints.PruneAlwaysExactIff` | packages/core/src/session/tape.ts:132-149 | pruning is exact for every number to keep if and only if the session's timestamps are distinct |
| `Checkpoints.PruneExactInEveryRun` | packages/core/src/session/checkpoint.ts:31-84 | after any run of saves, prunes and other entries over a tape that may hold older checkpoints, under the clock conditions, pruning any session is exact |
| `Checkpoints.PrunesRightInEveryRunIff` | packages/core/src/session/checkpoint.ts:29-84 | in every run of saves, prunes and other entries, pruning any session to any number is exact and its count right, if and only if no millisecond sees more than a thousand saves |
| `Tape.Tape.Append` | packages/core/src/session/tape.ts:50-57 | one row is added under the next key |
| `Tape.Tape.PruneCheckpoints` | packages/core/src/session/tape.ts:132-149 | the deletion loop, timestamp by timestamp, leaves the model's rows and counts the deleted |
| `Tape.CheckpointWriter.SaveCheckpoint` | packages/core/src/session/checkpoint.ts:31-48 | the timestamp combines clock and counter, and the counter advances |
| `Tape.CheckpointWriter.LoadLatestCheckpoint` | packages/core/src/session/checkpoint.ts:51-60 | the loop gives the last checkpoint in time order |
| `Tape.CheckpointWriter.ListAll` | packages/core/src/session/checkpoint.ts:63-72 | the loop and the sort give all checkpoints, newest first |
| `Tape.CheckpointWriter.Prune` | packages/core/src/session/checkpoint.ts:76-84 | delegates to the tape and returns its count |
| `ChatState.TranscriptIsStream` | packages/tui/src/state/state.ts:194-246 | over any actions the assistant texts joined are the deltas since the last clear, and the reasonings likewise |
| `ChatState.PermissionsInOrder` | packages/tui/src/state/state.ts:349-366 | every request pushed is resolved once, in order, or still queued in order |
| `ChatReplies.AnswersAre` | packages/tui/src/state/state.ts:349-366 | over any actions each answer goes to the first request waiting, with its permission and what to remember, for once by default |
| `ChatState.AllowedToolsAre` | packages/tui/src/state/state.ts:357-365 | a tool is allowed for good exactly when a request for it was resolved with "always" |
| `ChatState.SessionToolsAre` | packages/tui/src/state/state.ts:357-369 | a tool is allowed for the session exactly when it was at the start or a request for it was resolved with "session", and the session tools were not cleared since |
| `ChatState.OneItemPerCall` | packages/tui/src/state/state.ts:247-278 | one tool call item for each id upserted since the last clear, in the order of first upserts |
| `ChatState.CallsShowLatest` | packages/tui/src/state/state.ts:247-294 | with distinct item ids each tool call item shows the last arguments of its call, when it began, and its last result, error flag and duration |
| `ChatReplies.RepliesAreShown` | packages/tui/src/state/state.ts:195-301 | over any actions the assistant items since the last clear are exactly the replies of the run, one item each, with their text and reasoning |
| `ChatReplies.StreamingIff` | packages/tui/src/state/state.ts:295-301 | an item is streaming exactly when no finalize came after its last delta or thought |
| `ChatReplies.ItemsInOrder` | packages/tui/src/state/state.ts:195-330 | over any actions the items are the replies, messages and calls since the last clear, in the order they began, each saying what it was given |
| `ChatReplies.MetadataOnLast` | packages/tui/src/state/state.ts:302-308 | model and usage go to the last reply and nothing else changes |
| `ChatReplies.FoldingIs` | packages/tui/src/state/state.ts:454-507 | what each folding action does to every item |
| `ChatReplies.CallFolds` | packages/tui/src/state/state.ts:247-294 | a new call is unfolded, its completion folds it, and no other item changes its folding |
| `ChatReplies.ScrollIs` | packages/tui/src/state/state.ts:337-348 | over any actions the view is as far up as was scrolled, and marked exactly when something new came since it was last sent to the bottom |
| `ChatReplies.FlagsAre` | packages/tui/src/state/state.ts:331-336 | the busy flag, the operation and the hint are as last set |
| `HookModel.ListIsSorted` | packages/core/src/runtime/hook/registry.ts:38-44 | sorting after every registration comes to sorting all of them once |
| `HookModel.ListOrder` | packages/core/src/runtime/hook/registry.ts:38-44 | a hook's list is its registrations by descending priority, then in the order of registration |
| `HookModel.FirstRegistrationSetsMode` | packages/core/src/runtime/hook/registry.ts:45-46 | the first registration of a name sets its mode for good |
| `HookModel.FirstResultUnique` | packages/core/src/runtime/hook/registry.ts:58-68 | the properties proved of the first-result mode determine its outcome |
| `HookModel.FoldAppend` | packages/core/src/runtime/hook/registry.ts:70-80 | chaining two lists is chaining the second after the first |
| `HookModel.FailingHookIsIdentity` | packages/core/src/runtime/hook/registry.ts:73-77 | under isolation a hook that throws can be left out of the chain |
| `HookModel.ChainGives` | packages/core/src/runtime/hook/registry.ts:70-80 | each hook gets the last value given before it and the chain gives the last; isolated errors are reported in order, else the first hook that throws ends it |
| `HookModel.FirstResultGives` | packages/core/src/runtime/hook/registry.ts:58-68 | the value of the first hook that gives one, nothing when none does, with the errors before it reported or, unisolated, ending it |
| `HookModel.BroadcastGives` | packages/core/src/runtime/hook/registry.ts:82-94 | the values of exactly the hooks that gave one, in list order, or, unisolated, the error of the first to settle among those that threw |
| `HookRegistry.HookRegistry.constructor` | packages/core/src/runtime/hook/registry.ts:32-35 | a registry starts without hooks |
| `HookRegistry.HookRegistry.Register` | packages/core/src/runtime/hook/registry.ts:38-47 | push, stable sort, first mode wins, with the default mode and priority |
| `HookRegistry.ModeIs` | packages/core/src/runtime/hook/registry.ts:45-56 | the mode asked for, else that of the name's first registration, else a chain |
| `HookRegistry.HookRegistry.Execute` | packages/core/src/runtime/hook/registry.ts:54-95 | the mode given, else registered, else chain decides, over the name's list, in all three modes |
| `HookRegistry.HookRegistry.RunFirstResult` | packages/core/src/runtime/hook/registry.ts:58-68 | the first hook in list order that gives a value (or throws, unisolated) decides, and nothing after it runs |
| `HookRegistry.HookRegistry.RunChain` | packages/core/src/runtime/hook/registry.ts:70-80 | the left fold over the list, failing hooks being the identity under isolation, else the first error |
| `HookRegistry.HookRegistry.RunBroadcast` | packages/core/src/runtime/hook/registry.ts:82-94 | every hook runs; the values come in list order, the reported errors in the order of settling, and without isolation the first error to settle is given |
| `HookModel.BroadcastInAnyOrder` | packages/core/src/runtime/hook/registry.ts:83-94 | the order in which the hooks settle changes neither the values nor which errors are reported, only their order and, without isolation, which error is given |
| `HookModel.BroadcastFailsIff` | packages/core/src/runtime/hook/registry.ts:83-107 | without isolation a broadcast fails exactly when some hook throws, with an error some hook threw |
| `ContextBudget.EstimateMessagesTokens` | packages/core/src/session/context-budget.ts:26-48 | the loop counts text and fifty characters of overhead for each object message, rounded up by fours |
| `ContextBudget.BuildSnapshot` | packages/core/src/session/context-budget.ts:108-164 | the branches compute the model's budget, counts, total, ratio and tier, which `SnapshotCounts` and `TierIff` state in characters |
| `ContextBudget.TotalCounts` | packages/core/src/session/context-budget.ts:139-142 | the total is the reported count, or else every character of prompt, tools and message texts and fifty for each object message, at four to a token, each of the three sums rounded up |
| `ContextBudget.SnapshotCounts` | packages/core/src/session/context-budget.ts:112-142 | each count of a snapshot in the characters it stands for, and the budget the window leaves |
| `ContextBudget.RatioIs` | packages/core/src/session/context-budget.ts:142-143 | the ratio times the input budget is the total; zero without a budget |
| `ContextBudget.TierIff` | packages/core/src/session/context-budget.ts:170-177 | the tier in tokens: which share of the input budget, without a window none |
| `ContextBudget.SnapshotTier` | packages/core/src/session/context-budget.ts:145-150 | a snapshot's own tier is that of a half and six tenths |
| `ContextBudget.BelowCompactFitsIff` | packages/core/src/session/context-budget.ts:119-177 | a request below the compaction tier fits with its reserved output, character by character at four to a token, exactly when the reserved output fits |
| `ContextBudget.AppendingKeepsTier` | packages/core/src/session/context-budget.ts:139-177 | without a reported count appending messages never lowers the tier |
| `Compaction.SplitIsExactIff` | packages/core/src/session/compaction.ts:93-94 | summarized and kept turns make up all turns exactly for a positive number to keep, or one so negative that none is kept |
| `Compaction.TurnsAre` | packages/core/src/session/compaction.ts:77-80 | the turns compacted are exactly the session's turn rows, oldest first |
| `Compaction.KeptMessages` | packages/core/src/session/auto-compact.ts:231-231 | a positive number keeps exactly the last so many messages, zero keeps all, a negative one drops the first so many |
| `Compaction.TrimmedShorterIff` | packages/core/src/session/auto-compact.ts:231-232 | the new list is shorter exactly when more than one message is left out, for every number to keep |
| `Compaction.CompactionKeepsTurns` | packages/core/src/session/compaction.ts:109-122 | the anchor changes no session's turns or checkpoints |
| `Compaction.OnlyCheckpointsGo` | packages/core/src/session/tape.ts:50-149 | whatever is saved, pruned and appended, every row but checkpoints stays, in order, before the new ones |
| `Compaction.ReportIs` | packages/core/src/session/compaction.ts:83-134 | for every number to keep, what is reported as kept and summarized, and when it fails |
| `Compaction.CompactSession` | packages/core/src/session/compaction.ts:63-135 | what is summarized and kept of the turns read before the summarizer, the one anchor behind what others wrote while it ran, no anchor when there is nothing to compact or it fails, and no lasting row lost |
| `Compaction.CompactionDueIff` | packages/core/src/session/auto-compact.ts:114-146 | compaction is due by tokens exactly when what is sent fills the configured fraction of what the reserved output leaves of a known window |
| `Compaction.MaybeCompact` | packages/core/src/session/auto-compact.ts:114-165 | compaction fires exactly when due and the summarizer succeeds, and gives one message, the summary or that nothing was compacted, and the last messages |

## Left out

- Registry: `setToolPermissionHandler`, `get`, `getSelected` and `list` only read or pass on; the three
  subscriber sets are one sequence with a kind; callbacks neither re-enter the registry nor throw; the
  entry object of a disposed runtime is not followed further.
- Memory: `buildDiff`, `compact`, prompt selection and the cached size; `inferCategory` is a parameter;
  timestamps beyond the exact integers of a double are not rounded.
- Terminal: widths are those of the source's ranges; what a terminal really draws is not modelled.
- TerminalCursor.CursorRowIsLastWrappedRow: for one place in a line with surrogate pairs on several rows
  it gives a sufficient condition only, because the counts may part and meet again (`CountsMeetAgain`);
  over all places of the line the condition is exact. A cursor between the halves of a pair is not
  considered.
- LlmFuse: error texts, the billing pattern itself and log events; whether an error matches is an input.
- Provider mesh: events, logging, the periodic timer and the aggregate percentile; costs, weights and
  mean latencies are exact reals.
- Viewport: drawing an item, padding and the pill's text are parameters; heights and offsets are
  integers.
- Session catalog: JSON columns are values, `identity_id`, `list` and the status changes; the identity
  store.
- Checkpoints and tape: malformed rows, `summary`, `stats` and `loadAnchor`. The theorems about one
  session are for a non-empty session id: `replay("")` reads all sessions while pruning `""` looks only
  at rows of that name.
- Chat state: plan, sidebar, quit and focus fields, which no modelled action reads.
- Hooks: registration during an execution and effects of hooks on each other; the order in which the
  hooks of a broadcast settle is a parameter.
- Context budget and compaction: `shouldCompact`, the wording of summaries and logging; ratios are
  exact reals where the source rounds.
