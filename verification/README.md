# A verified model of the OpenAI API bridge

The bridge is one process on one event loop: HTTP routes in front of several image, video and chat
providers, one SQLite connection, one directory of stored files. What can go wrong in it is mostly
a matter of order: a cancellation between two awaits, a commit that lands after its task has gone,
two requests that pass the same check. This project models those parts in Dafny and proves what
holds over every run of them, next to the loops and transformations the bridge relies on.

`dafny verify dfyconfig.toml` checks everything.

| files | what they model |
|---|---|
| `JsonGrammar`, `JsonTexts`, `JsonTrees` | what a JSON text is, as concrete syntax trees without a scanner, and that the decoder reads exactly those texts |
| `JsonScanner`, `JsonEncoder`, `JsonAscii`, `JsonBody`, `JsonParser`, `JsonEdits`, `JsonFields`, `JsonSplice`, `JsonDicts` | the JSON body that is edited in place: scanner, encoder, member-at-a-time parser, splice with its shift table, dictionaries and the fallback that encodes anew |
| `Tables`, `JobStore`, `Database`, `DatabaseRuns`, `VideoJobs` and the other `VideoJob` files | the two tables and their statements, the shared connection with its FIFO worker, the life of a video job under POST, runner, DELETE, deadline, hard cap, shutdown and eviction |
| `Scheduler`, `SchedulerRuns`, `SingleFlight` | slots, permits and names of background tasks; at most one task per key |
| `TtlCache`, `FalCatalogue`, `FalVariants`, `DisplayNames`, `DisplayLabels` | the catalogue cache, fal's stale-while-revalidate listing, variant pairing, telling equal titles apart and how the labels for it are spelled |
| `FileStore`, `FileStoreHolders`, `FileStoreRuns`, `FileStoreSweeps`, `Eviction` | stored files under failure, cancellation and crashes; the TTL and LRU sweep |
| `BodyLimit`, `CompletionPoll`, `AspectRatio`, `AspectText`, `Workflows`, `WorkflowValues` | the request-size guard, the ComfyUI poller, aspect ratios, workflow preparation and what every input of a prepared workflow holds |
| `Changelog`, `ChangelogText` | the changelog's parser and validator, and what its lines, fences, sections and problems are by the text itself |
| `Options`, `Strings`, `Durations` | shared notions |

Components whose tasks interleave are state machines. A step is what happens between two
suspension points, a run is any sequence of enabled steps, and each main theorem speaks of every
state of every run. The classes and methods next to a machine are the source's own loops and
updates, each proved equal to the function the machine or the theorems use.

## What turned out not to hold

Each of these is a lemma with the family of inputs that shows it, next to the condition under which
the property does hold.

* A replacement gives back a body whose fields are what its text parses to exactly when no new
  value has a high surrogate followed by a low one inside a string: encoded with `\u` escapes, the
  two come back as one code point. After any sequence of replacements that is so exactly when no
  key's last value has such a pair (`JsonEncoder.SplitPairIsLost`, `JsonSplices.SpliceIsReparsed`,
  `JsonSplices.ReplacementsAreReparsed`). Keys, order, duplicates and offsets are right either way
  (`JsonSplices.ReplacementsKeepMeaning`).
* A row that committed `failed` can be overwritten: whatever the tables at start, there is a run that
  does it to a new job (`VideoJobHoles.FinishedRowsCanChange`). After a run it can happen exactly
  when somebody is left who can write the row: a runner that nobody has cancelled and whose last
  write is still to come and says something else, or a POST about to submit a runner
  (`VideoJobHoles.OverwrittenExactlyWhen`). Only a
  DELETE leaves a finished row like that, and exactly in two ways: it comes back before the job's
  POST has submitted, and finds no task to cancel, or its own request is cancelled between its
  commit and its return (`VideoJobHoles.LeftBehindExactlyWhen`). A job id is a fresh token of 128
  bits that no route lists, so the first needs a client that deletes a job before its POST has
  answered; with clients that wait and DELETEs that are let finish, every finished row stays
  (`VideoJobRuns.PatientClientsLeaveNobody`, `VideoJobRuns.FinishedRowsStay`). A completed row stays
  in any case (`VideoJobRuns.CompletedRowsStay`).
* Files can be left without rows. A settled run has left a file so exactly when at some step the last
  of the file's holders (its row, a sweep about to unlink it, its `put`, an insert that may still
  land) let go of it, which `FileStoreHolders.LetsGo` reads off the steps' guards; and a temporary
  file exactly when its unlink failed or a crash came while it was there
  (`FileStoreRuns.OrphanedExactlyWhen`, `FileStoreRuns.TempStaysExactlyWhen`). It takes a crash, a
  cancelled sweep or a failed unlink (`FileStoreRuns.NothingIsOrphaned`), and each of the three is
  enough (`FileStoreRuns.EachProvisoIsNeeded`).
* A key can have two live tasks, after a `cancel_all` has ended while a task started during it was
  alive (`SingleFlights.TwinsHappen`). Callers of a live task's key join it exactly when no
  `cancel_all` has ended while it was alive (`SingleFlights.FoundExactlyWhen`), and it can get a twin
  exactly when it has one, has outlived a `cancel_all`, or one under way does not wait for it
  (`SingleFlights.TwinExactlyWhen`).
* Entries of one title can keep it both. They are still titled alike exactly when both are pinned, or
  neither is and their labels are the same, or nothing of that title is pinned and both labels say no
  more than the title (`DisplayNames.AlikeExactlyWhen`). The last happens in every family that has an
  endpoint with one below it that repeats the title (`DisplayLabels.TwoKeepTheTitle`); entries whose own
  parts of the id differ in letters or digits are otherwise told apart
  (`DisplayLabels.DifferentLettersTellApart`).
* A job can stay queued or in progress after its runner has ended, exactly because the runner was
  stopped before it had its permit, or its write of last resort failed or was cut short
  (`VideoJobEnds.NoJobIsForgotten`).
* The wire can carry two response starts when the application itself sends two before the cap is
  crossed, and only then (`BodyLimit.AtMostOneStart`).
* The reported aspect ratio is not the rendered one when the prompt or the frame count is written
  into the ratio's slot, or when a reference image can be the last thing written there and is not
  what the graph was saved with; and in no other case (`Workflows.PromptInTheSlot`,
  `Workflows.LengthInTheSlot`, `Workflows.ImageInTheSlot`, `Workflows.TruthfulExactlyWhen`).
* Surplus reference images are not refused by a workflow that declares no image inputs at all
  (`Workflows.SurplusExactlyWhen`).

## Model

| member | source | states |
|---|---|---|
| JsonScanner.ValueLocal | src/openai_api_bridge/util/json_body.py:161-161 | a value reads the same wherever its text stands, as long as nothing behind it could extend it |
| JsonScanner.StringLocal | src/openai_api_bridge/util/json_body.py:156-156 | a string reads the same wherever it stands |
| JsonScanner.NumberLocal | src/openai_api_bridge/util/json_body.py:161-161 | a number ends at the same place wherever it stands, unless its follower would continue it |
| JsonScanner.MembersLocal | src/openai_api_bridge/util/json_body.py:151-171 | the members of an object read the same, their offsets moved with the text |
| JsonEncoder.ValueReads | src/openai_api_bridge/util/json_body.py:87-87 | where an encoded value stands in a text the scanner reads it, surrogate pairs joined, and stops at its end |
| JsonEncoder.RoundTrip | src/openai_api_bridge/util/json_body.py:74-74 | decoding an encoding always works, gives the value with split surrogate pairs joined, and the same value exactly when there is no such pair |
| JsonEncoder.SplitPairIsLost | src/openai_api_bridge/util/json_body.py:87-87 | every high surrogate followed by a low one comes back as one code point |
| JsonTexts.DocumentReads | src/openai_api_bridge/util/json_body.py:151-173 | every text that a concrete syntax tree shows, with any run of the four blanks around its tokens, any spelling of its strings and any numeral, decodes to what the tree means |
| JsonTrees.DecodesExactlyWhen | src/openai_api_bridge/util/json_body.py:151-173 | the decoder reads a value from a text if and only if some concrete syntax tree of that text means the value |
| JsonTrees.SpelledOnce | src/openai_api_bridge/util/json_body.py:128-138 | a text spells at most one value, and the decoder fails exactly when it spells none |
| JsonParser.ParseObject | src/openai_api_bridge/util/json_body.py:128-181 | its fields are a mapping that the text spells, with the recorded spans; malformed exactly when the text spells nothing, and no object exactly when it spells something else |
| JsonParser.SpansSpellValues | src/openai_api_bridge/util/json_body.py:160-163 | what a recorded span holds is a spelling of its member's value with no blank around it |
| JsonDicts.LastValueWins | src/openai_api_bridge/util/json_body.py:162-162 | of the values given to a key the last one counts |
| JsonDicts.KeysKeepTheirPlaces | src/openai_api_bridge/util/json_body.py:162-162 | every key given is there once, in the order in which the keys first stood |
| JsonDicts.ReencodingKeepsMeaning | src/openai_api_bridge/util/json_body.py:84-85 | a body without a span for one of the keys is encoded anew: the text decodes to a mapping with each update's value, every other key's as it was and no key more or less, as encoding gives values back |
| JsonAscii.EncodingIsAscii | src/openai_api_bridge/util/json_body.py:87-87 | whatever the value holds, its encoding is printable ASCII |
| JsonBodies.TopLevelDecodes | src/openai_api_bridge/util/json_body.py:140-173 | the member-at-a-time grammar and the recursive decoder accept the same objects and agree on their fields |
| JsonBodies.SpansAreExact | src/openai_api_bridge/util/json_body.py:160-163 | recorded spans are ordered, apart and non-empty, and each decodes to its member's value |
| JsonEdits.SplicedReads | src/openai_api_bridge/util/json_body.py:97-105 | the member scan over a spliced text finds the same keys with the edits' values at the moved offsets |
| JsonEdits.SplicedTopLevel | src/openai_api_bridge/util/json_body.py:76-125 | a spliced object is an object, with exactly the members the splice says |
| JsonSplices.SpliceKeepsMeaning | src/openai_api_bridge/util/json_body.py:76-125 | re-parsing a spliced body gives the same key sequence, every occurrence of an updated key with the new value and all else unchanged, and the moved spans are those a fresh parse records |
| JsonSplices.SpliceIsReparsed | src/openai_api_bridge/util/json_body.py:121-125 | the result is a parsed body again if and only if no new value has a split surrogate pair |
| JsonSplices.ReplacementsKeepMeaning | src/openai_api_bridge/util/json_body.py:76-125 | after any sequence of replacements of keys that have spans, re-parsing gives the same keys in the same order, every occurrence of an updated key with the last value given to it and all else unchanged, the recorded spans are a fresh parse's, and the fields are the originals with the updates written over them in turn |
| JsonSplices.ReplacementsAreReparsed | src/openai_api_bridge/util/json_body.py:121-125 | the result of any such sequence is a parsed body, its fields those of its text, if and only if no key's last value has a split surrogate pair |
| JsonSplices.FromFieldsDecodes | src/openai_api_bridge/util/json_body.py:63-74 | a body built from fields decodes to them, and unchanged exactly when they are clean |
| JsonSplices.TableIsExact | src/openai_api_bridge/util/json_body.py:94-119 | the bisected prefix shift equals the naive sum over earlier edits, and the shifted span is where a fresh parse finds the value |
| JsonSplices.AllSpansShift | src/openai_api_bridge/util/json_body.py:124-124 | shifting the whole span table gives the span table of the spliced text |
| JsonSplices.Splice | src/openai_api_bridge/util/json_body.py:92-105 | the edit loop builds the spliced text and the table of shifts before each edit |
| JsonSplices.ReplaceTopLevel | src/openai_api_bridge/util/json_body.py:76-125 | the loop, the bisect and the fallback together compute the specified replacement |
| JobStores.SetsArePatch | src/openai_api_bridge/infra/jobstore.py:133-157 | the assignments built for the arguments come to the patch: what is left out stays, and only the ratio can be cleared |
| JobStores.JobStore.Assignments | src/openai_api_bridge/infra/jobstore.py:133-153 | the list `update` builds, argument by argument |
| JobStores.JobStore.Update | src/openai_api_bridge/infra/jobstore.py:119-159 | patches the one row and nothing else, and nothing when it is not there |
| JobStores.JobStore.FailIfActive | src/openai_api_bridge/infra/jobstore.py:161-181 | fails the row, stamps it and leaves its other columns exactly if it was active, and says whether it did |
| JobStores.JobStore.MarkStaleFailed | src/openai_api_bridge/infra/jobstore.py:183-195 | fails and stamps every active row, leaves the others and counts them |
| JobStores.JobStore.PruneTerminal | src/openai_api_bridge/infra/jobstore.py:197-212 | deletes the finished rows last updated before the limit, keeps all others as they are and counts them |
| JobStores.FileStatementsAre | src/openai_api_bridge/infra/filestore.py:200-345 | an insert writes no file's row over, and the other statements change the rows they name and of them the one column |
| JobStores.FirstMarkWins | src/openai_api_bridge/infra/jobstore.py:161-181 | of two guarded marks of one job the second changes nothing |
| JobStores.RestartReaps | src/openai_api_bridge/infra/jobstore.py:183-195 | after a restart no job is active and no finished row has changed |
| DatabaseRuns.CommittedIsWholeBlocks | src/openai_api_bridge/infra/db.py:80-158 | in every state of every run the committed tables are whole blocks in lock order, and later states only add blocks |
| DatabaseRuns.NothingIsAdopted | src/openai_api_bridge/infra/db.py:97-110 | whoever takes the lock starts, once the worker has caught up, from committed tables only: no commit adopts another block's statements |
| DatabaseRuns.ReturnedCommitIsIn | src/openai_api_bridge/infra/db.py:103-106 | a commit that came back is in the committed tables |
| Database.StepKeeps | src/openai_api_bridge/infra/db.py:120-158 | what each step of a writer or of the worker keeps |
| Database.SharedDatabase.ExecuteAlone | src/openai_api_bridge/infra/db.py:80-110 | undisturbed, `execute` commits its statement or changes nothing |
| Database.SharedDatabase.WorkerTurn | src/openai_api_bridge/infra/db.py:86-90 | the worker takes the oldest operation: a statement, a commit or a rollback of the whole connection |
| Database.SharedDatabase.AcquireLock | src/openai_api_bridge/infra/db.py:103-103 | the write lock is taken for a new block |
| Database.SharedDatabase.QueueStatement | src/openai_api_bridge/infra/db.py:105-105 | a statement is queued and cannot be recalled |
| Database.SharedDatabase.QueueCommitOp | src/openai_api_bridge/infra/db.py:106-106 | a commit is queued and cannot be recalled |
| Database.SharedDatabase.QueueRollbackOp | src/openai_api_bridge/infra/db.py:107-110 | an error or a cancellation queues a rollback |
| Database.SharedDatabase.ReleaseLock | src/openai_api_bridge/infra/db.py:103-110 | the lock is released, for a rollback even before the worker has got to it |
| VideoJobRuns.StepKeeps | src/openai_api_bridge/api/_videos_runner.py:53-134 | the invariant of the whole protocol, kept by each step of POST, runner, DELETE, deadline, hard cap, shutdown, eviction and the database worker |
| VideoJobRuns.FinishedRowsStay | src/openai_api_bridge/api/videos.py:153-182 | over every run a committed finished row keeps every column but its time stamp until it is pruned, and does not come back afterwards, as long as no DELETE of the job left behind somebody who can write it |
| VideoJobRuns.CompletedRowsStay | src/openai_api_bridge/api/_videos_runner.py:53-134 | over every run, with no proviso at all, a committed completed row keeps every column but its time stamp until it is pruned |
| VideoJobColumns.ColumnsTell | src/openai_api_bridge/api/_videos_runner.py:65-134 | over every run a committed completed row has the file stored for the asset its runner was handed, 100 percent and the ratio that was rendered, was in progress before, and nobody had asked the runner to stop; a failed one has the DELETE's message, or the deadline's, "Job cancelled" or what went wrong according to who last asked the runner to stop before the write; one not completed has no file, no progress and the ratio asked for |
| VideoJobColumns.EarlierRowsTell | src/openai_api_bridge/api/videos.py:153-182 | a row an earlier process left is as it was left, unless it was active and a DELETE has failed it |
| VideoJobEnds.NoJobIsForgotten | src/openai_api_bridge/api/_videos_runner.py:86-134 | once its runner has ended a job is queued or in progress no more, unless the runner was stopped before it began or its own last write failed or was cut short |
| VideoJobRuns.PatientClientsLeaveNobody | src/openai_api_bridge/api/videos.py:111-182 | nobody is left behind if no DELETE arrives before the job's POST has answered and none is cancelled between its commit and its return |
| VideoJobRuns.CompletedNamesStoredFile | src/openai_api_bridge/api/_videos_runner.py:65-84 | a committed completed row names a file whose insert committed before it |
| VideoJobRows.WriterFindsActive | src/openai_api_bridge/api/_videos_runner.py:53-134 | an unconditional write about to commit finds a finished row only if its writer was left behind or says again what the row says |
| VideoJobRows.FinishesQuietly | src/openai_api_bridge/api/_videos_runner.py:53-134 | whoever finishes a row, nobody is left who can write it, but for a DELETE still on its way to cancel the runner |
| VideoJobRows.MarkEnds | src/openai_api_bridge/api/videos.py:167-182 | a DELETE that failed the row ends with the row as it wrote it, and with somebody left who can change that exactly when it came back before the POST had submitted or was cancelled before it came back |
| VideoJobHoles.OverwrittenExactlyWhen | src/openai_api_bridge/api/videos.py:111-182 | after every run, some continuation changes the outcome of the job's finished row if and only if a runner that nobody cancelled has its last write, of something else than the row says, to come, or the POST is about to submit a runner |
| VideoJobHoles.LeftBehindExactlyWhen | src/openai_api_bridge/api/videos.py:176-182 | wherever in a run a DELETE of the job ends, what it wrote can be overwritten from there if and only if it left somebody behind |
| VideoJobHoles.NobodyLeftExactlyWhen | src/openai_api_bridge/api/videos.py:153-182 | over every run nobody was left behind if and only if every DELETE that ended in it was final |
| VideoJobHoles.FinishedRowsCanChange | src/openai_api_bridge/api/videos.py:111-140 | from any tables at start there is a run in which a new job's committed failure is overwritten, by way of a DELETE between the insert and the submit |
| VideoJobRuns.CommittedIsLog | src/openai_api_bridge/infra/db.py:80-110 | the committed tables are a prefix of the statements in lock order, applied in turn |
| VideoJobRows.RowKept | src/openai_api_bridge/infra/jobstore.py:161-181 | which statements can change a finished row, and how a row becomes finished |
| SchedulerRuns.SlotsAreConserved | src/openai_api_bridge/infra/tasks.py:161-187 | at every suspension point tasks plus reservations are the holders, one slot each, never above the cap, and permits out never exceed those made |
| SchedulerRuns.SlotIsKept | src/openai_api_bridge/api/videos.py:92-140 | an admitted request holds its slot from `reserve` until its reservation is left without a submit or its task is cleaned up, on every path, and never again |
| SchedulerRuns.SlotSteps | src/openai_api_bridge/infra/tasks.py:170-187 | a slot begins only at an arrival that finds room and ends only at that request's own abort or cleanup |
| SchedulerRuns.NamesFindTheLatest | src/openai_api_bridge/infra/tasks.py:133-159 | a name finds a live task exactly while the last one submitted under it is live; an older one that ends takes nothing away |
| SchedulerRuns.CountedTwice | src/openai_api_bridge/api/videos.py:120-140 | between submit and leaving the reservation the slot counts twice, one over the cap at most, with no suspension point between |
| Scheduler.TaskScheduler.constructor | src/openai_api_bridge/infra/tasks.py:73-87 | an empty pool with all permits free |
| Scheduler.TaskScheduler.Reserve | src/openai_api_bridge/infra/tasks.py:170-184 | claims a slot if there is room, else changes nothing |
| Scheduler.TaskScheduler.ReleaseReservation | src/openai_api_bridge/infra/tasks.py:186-187 | gives one reservation back |
| Scheduler.TaskScheduler.Submit | src/openai_api_bridge/infra/tasks.py:128-131 | tracks the task and points its name at it |
| Scheduler.TaskScheduler.AcquirePermit | src/openai_api_bridge/infra/tasks.py:105-107 | a queued task takes a free permit |
| Scheduler.TaskScheduler.Finish | src/openai_api_bridge/infra/tasks.py:112-126 | however the job ends, its permit goes back exactly if it had one |
| Scheduler.TaskScheduler.Cleanup | src/openai_api_bridge/infra/tasks.py:133-143 | untracks the task and drops its name only if it is still this task's |
| Scheduler.TaskScheduler.Cancel | src/openai_api_bridge/infra/tasks.py:148-159 | finds a live task by name or says there is none |
| Scheduler.Reservation.Exit | src/openai_api_bridge/infra/tasks.py:61-69 | releases the slot once, however often it is left |
| SingleFlights.FoundExactlyWhen | src/openai_api_bridge/infra/tasks.py:227-276 | after every run, callers of a live task's key join it if and only if no `cancel_all` has ended while it was alive |
| SingleFlights.OneLiveTaskPerKey | src/openai_api_bridge/infra/tasks.py:227-252 | of the live tasks of one key, over every run, all but one have outlived a `cancel_all` |
| SingleFlights.TwinExactlyWhen | src/openai_api_bridge/infra/tasks.py:227-276 | after every run, some continuation has a second live task beside a live one if and only if there is one already, or the task has outlived a `cancel_all`, or one is under way that does not wait for it |
| SingleFlights.TwinsHappen | src/openai_api_bridge/infra/tasks.py:260-276 | for every key a run from the start that ends with two live tasks |
| SingleFlights.SingleFlight.JoinOrStart | src/openai_api_bridge/infra/tasks.py:227-252 | the existing task, or the new one under the key |
| SingleFlights.SingleFlight.Forget | src/openai_api_bridge/infra/tasks.py:245-249 | removes the entry by identity, not by key |
| TtlCache.FetchesAreSpaced | src/openai_api_bridge/util/cache.py:161-192 | in any run of concurrent `get` calls a fetch starts no sooner than the stored TTL after a success, and than the cooldown, at least 300s for a rejected credential, after a failure |
| TtlCache.FetchesExactlyWhen | src/openai_api_bridge/util/cache.py:144-192 | over every run a call serves the last value kept while its window is open, else raises the last failure since while its cooldown is, and else fetches |
| TtlCache.KeptForTheLesser | src/openai_api_bridge/util/cache.py:102-117 | over every run a value is kept for the configured time, or for the override if that is less |
| TtlCache.StaleIsLastKept | src/openai_api_bridge/util/cache.py:75-100 | over every run the value that may be served at any age is the last one kept, unless it was not to be cached |
| TtlCache.ServedIsYoung | src/openai_api_bridge/util/cache.py:61-73 | a value served is the last one kept and younger than its window and the configured TTL, whatever overrides were passed |
| TtlCache.FetchesNeverOverlap | src/openai_api_bridge/util/cache.py:172-192 | between two fetches the first has ended |
| TtlCache.CancelledArmsNothing | src/openai_api_bridge/util/cache.py:186-190 | a cancelled fetch arms neither window |
| TtlCache.StepKeeps | src/openai_api_bridge/util/cache.py:61-192 | every bound still to come is one the cache remembers, and what was served was fresh |
| TtlCache.AsyncTTLCache.Store | src/openai_api_bridge/util/cache.py:102-117 | keeps the value for the smaller of what was asked and configured, and forgets failures |
| TtlCache.AsyncTTLCache.NoteFailure | src/openai_api_bridge/util/cache.py:119-122 | remembers the failure and leaves the value alone |
| TtlCache.AsyncTTLCache.IsFresh | src/openai_api_bridge/util/cache.py:61-73 | the value while its window is open |
| TtlCache.AsyncTTLCache.IsStale | src/openai_api_bridge/util/cache.py:75-100 | the last value whatever its age, and none when it was not cacheable |
| TtlCache.AsyncTTLCache.Pending | src/openai_api_bridge/util/cache.py:144-159 | the failure while its cooldown is open |
| TtlCache.AsyncTTLCache.Get | src/openai_api_bridge/util/cache.py:161-192 | asks upstream exactly when there is neither a fresh value nor a failure to remember |
| FalCatalogue.PublishedTogether | src/openai_api_bridge/backends/fal/adapter.py:351-381 | over every interleaving the stored catalogue and the routing map come from the same, last, successful and non-empty fetch |
| FalCatalogue.OnlySuccessPublishes | src/openai_api_bridge/backends/fal/adapter.py:307-356 | a failed, empty, rejected or cancelled refresh changes neither, nor the catalogue's age |
| FalCatalogue.OneRefreshAtATime | src/openai_api_bridge/backends/fal/adapter.py:265-280 | over every run a live background refresh is the one listings join if and only if no `cancel_all` has ended while it was alive, of several live ones all but one have outlived one, and one fetch asks upstream at a time |
| FalCatalogue.ListingRefreshesExactlyWhen | src/openai_api_bridge/backends/fal/adapter.py:258-288 | over every run, told by its steps: a listing starts a background refresh if and only if none is under way, the last store is at least the TTL ago and no failure since is held against it, and an inline fetch if and only if nothing is stored or caching is off; a rejected key starts nothing |
| FalCatalogue.AsksExactlyWhen | src/openai_api_bridge/backends/fal/adapter.py:303-316 | and a fetch that has the lock asks upstream if and only if no listing younger than the TTL is stored and no failure since is held against it |
| FalCatalogue.ListingAnswers | src/openai_api_bridge/backends/fal/adapter.py:258-288 | what a listing answers without waiting, in each case |
| FalCatalogue.ListingIsUnion | src/openai_api_bridge/backends/fal/adapter.py:357-374 | the listing is the translated entries plus the configured models that were not folded away, and nothing else |
| FalCatalogue.AddedInOrder | src/openai_api_bridge/backends/fal/adapter.py:373-374 | and the models added back stand behind the entries in their configured order |
| FalCatalogue.FalBackend.ListModels | src/openai_api_bridge/backends/fal/adapter.py:223-288 | what is answered at once, and exactly when a background refresh is asked for |
| FalCatalogue.FalBackend.FetchCatalogEntries | src/openai_api_bridge/backends/fal/adapter.py:290-381 | state and answer in every outcome, from lock to release |
| FalCatalogue.FalBackend.AddConfigured | src/openai_api_bridge/backends/fal/adapter.py:373-374 | the union with the configured models |
| FalVariants.ListedOrRouted | src/openai_api_bridge/backends/fal/catalog.py:90-110 | with collapsing on every catalogue id is listed exactly once or is the target of a listed id's route, never both, and nothing else is listed |
| FalVariants.RoutesNeverChain | src/openai_api_bridge/backends/fal/catalog.py:45-48 | no route's target is itself routed |
| FalVariants.RouteIsFirstFit | src/openai_api_bridge/backends/fal/catalog.py:176-186 | a route goes to the first candidate the catalogue has in the partner category, and exists whenever there is one |
| FalVariants.OrderDoesNotMatter | src/openai_api_bridge/backends/fal/catalog.py:158-189 | the pairing, and which ids are listed, do not depend on catalogue order |
| FalVariants.CandidateShapes | src/openai_api_bridge/backends/fal/catalog.py:51-71 | which candidates there are, for each category, and in which order they are tried: an id with the text suffix has it replaced first and is added to next, any other only gains a suffix |
| FalVariants.ListedInOrder | src/openai_api_bridge/backends/fal/catalog.py:90-110 | ids are listed in the order in which the catalogue first has them |
| FalVariants.PairVariants | src/openai_api_bridge/backends/fal/catalog.py:158-189 | the nested loop computes the routes and their targets |
| FalVariants.Partner | src/openai_api_bridge/backends/fal/catalog.py:182-186 | the inner loop stops at the first candidate that fits |
| FalVariants.EntriesFromCatalog | src/openai_api_bridge/backends/fal/catalog.py:90-110 | the entries loop lists each kept id once, in order |
| DisplayNames.FragmentsDiffer | src/openai_api_bridge/backends/base.py:258-284 | in a colliding group with distinct ids the fragments differ pairwise and at most one is empty |
| DisplayNames.NoneIsBareBesidePinned | src/openai_api_bridge/backends/base.py:259-284 | beside a pinned entry no fragment is empty, however many entries are renamed |
| DisplayNames.FragmentsAreShort | src/openai_api_bridge/backends/base.py:278-284 | the shared prefix is as long as it can be |
| DisplayNames.WhoIsRenamed | src/openai_api_bridge/backends/base.py:245-286 | pinned, untitled and unshared titles stay, a title that clashes with a pinned one changes, and the family name stays in front |
| DisplayNames.Disambiguate | src/openai_api_bridge/backends/base.py:207-286 | ids, order and length stay; a title that somebody else has gets the entry's own label in parentheses, unless the entry is pinned, or nothing of that title is and the label says no more; every other title stays |
| DisplayNames.AlikeExactlyWhen | src/openai_api_bridge/backends/base.py:207-286 | two entries of one title are titled alike afterwards if and only if both are pinned, or neither is and their labels are the same, or nothing of that title is pinned and both labels say no more than it |
| DisplayLabels.PrettyKeepsLetters | src/openai_api_bridge/backends/base.py:169-204 | prettifying a fragment changes nothing but case and separators |
| DisplayLabels.SquashedOne | src/openai_api_bridge/backends/base.py:202-204 | squashing keeps digits and letters, these small, and nothing else |
| DisplayLabels.ResolutionsExactly | src/openai_api_bridge/backends/base.py:166-166 | a resolution is digits and a `p` |
| DisplayLabels.VersionsExactly | src/openai_api_bridge/backends/base.py:162-162 | a version token is up to two letters, digits and dots, and up to three letters |
| DisplayLabels.DifferentLettersTellApart | src/openai_api_bridge/backends/base.py:210-232 | entries of one title whose own parts of the id differ in letters or digits are told apart, except where nothing is pinned and both say no more than the title |
| DisplayLabels.TwoKeepTheTitle | src/openai_api_bridge/backends/base.py:227-232 | for every title and id: that entry and one below it that repeats the title both keep it |
| DisplayLabels.ExampleIsPretty | src/openai_api_bridge/backends/base.py:182-183 | the documented example |
| DisplayLabels.Prettify | src/openai_api_bridge/backends/base.py:181-199 | the two loops compute the label |
| DisplayNames.GroupByName | src/openai_api_bridge/backends/base.py:239-243 | groups every titled entry, in order |
| DisplayNames.SharedPrefix | src/openai_api_bridge/backends/base.py:272-278 | the loop stops at the first segment that cannot be shared |
| DisplayNames.RenameGroup | src/openai_api_bridge/backends/base.py:246-285 | one group is retitled and no other entry touched |
| FileStoreRuns.RowsAreExact | src/openai_api_bridge/infra/filestore.py:41-55 | whatever fails, is cancelled or crashes, a row's path holds exactly the bytes its `put` was given or nothing |
| FileStoreRuns.OrphanedExactlyWhen | src/openai_api_bridge/infra/filestore.py:158-345 | once everything has settled, a stored file is without its row if and only if at some step of the run its last holder let go of it |
| FileStoreRuns.TempStaysExactlyWhen | src/openai_api_bridge/infra/filestore.py:41-55 | and a temporary file is there if and only if its unlink failed or a crash came while it was there |
| FileStoreRuns.NothingIsOrphaned | src/openai_api_bridge/infra/filestore.py:181-228 | with no crash, no cancelled sweep and no failed unlink, no stored or temporary file of a settled run is without its row |
| FileStoreHolders.StepKeepsHolder | src/openai_api_bridge/infra/filestore.py:158-345 | a file that is there keeps a holder through every step that does not let go of it |
| FileStoreRuns.ReturnedPutIsStored | src/openai_api_bridge/infra/filestore.py:158-229 | a `put` that returned keeps row and bytes until a sweep or a reap sets out to remove them, even across a crash |
| FileStoreRuns.CancelledSweepOrphans | src/openai_api_bridge/infra/filestore.py:331-343 | any run that has a row with its file can go on to a sweep that is cancelled with its commit queued and leaves the file without a row |
| FileStoreRuns.FailedUnlinkOrphans | src/openai_api_bridge/infra/filestore.py:200-228 | any run with a `put` that is discarding its file can go on to orphan it by failing to unlink |
| FileStoreRuns.CrashOrphans | src/openai_api_bridge/infra/filestore.py:181-228 | any run with a stored file whose row is not in can crash and leave it so |
| FileStoreRuns.EachProvisoIsNeeded | src/openai_api_bridge/infra/filestore.py:158-345 | for every file there are settled runs that orphan it with a crash alone, a failed unlink alone and a cancelled sweep alone |
| FileStoreSweeps.SweptIsGone | src/openai_api_bridge/infra/filestore.py:318-345 | whatever runs beside it: once a sweep's delete has landed no file of it whose insert had landed has a row ever again, and once the sweep has ended such a file is not on disk ever again, unless its unlink failed |
| FileStoreSweeps.ReapedIsGone | src/openai_api_bridge/infra/filestore.py:235-271 | a row a read found without a file is gone for good once its delete has landed |
| FileStoreSweeps.CancelledWriteComesToNothing | src/openai_api_bridge/infra/filestore.py:190-198 | a `put` cancelled while its file is being written never returns and never has a row |
| FileStore.Disk.WriteAtomic | src/openai_api_bridge/infra/filestore.py:41-55 | the final name changes only on success and then to the whole data; nothing temporary stays unless its unlink fails |
| FileStore.StepKeeps | src/openai_api_bridge/infra/filestore.py:158-345 | what every step of writes, inserts, sweeps, reads and crashes keeps |
| Eviction.RunEvictionPass | src/openai_api_bridge/infra/eviction.py:44-90 | for every chunk size the pass leaves what expiry and one ordered scan leave, with the counts and the files on disk to match |
| Eviction.SweepOverCap | src/openai_api_bridge/infra/eviction.py:62-88 | the chunked loop is the single ordered scan, its running total always the stored sum, and it terminates |
| Eviction.PickVictims | src/openai_api_bridge/infra/eviction.py:79-84 | takes candidates until the total is under the cap |
| Eviction.ShortestPrefix | src/openai_api_bridge/infra/eviction.py:62-88 | the victims are the shortest oldest-accessed prefix that brings the total to the cap, or all unpinned files |
| Eviction.OldestGoFirst | src/openai_api_bridge/infra/eviction.py:68-70 | every file that goes was accessed no later than every unpinned one that stays |
| Eviction.PassKeepsPinned | src/openai_api_bridge/infra/eviction.py:54-57 | pinned files stay, expired ones go, nothing new appears |
| Eviction.ProgressSteps | src/openai_api_bridge/infra/eviction.py:68-85 | one turn deletes just the victims among its candidates and leaves the same sweep to do |
| Eviction.FileStore.DeleteMany | src/openai_api_bridge/infra/filestore.py:318-345 | in chunks of 400: the ids' rows and files go, others stay, and the count is right |
| Eviction.FileStore.TotalByteSize | src/openai_api_bridge/infra/filestore.py:347-351 | the sum of the stored sizes |
| Eviction.DropExpired | src/openai_api_bridge/infra/eviction.py:51-60 | the TTL phase removes exactly the expired unpinned files |
| BodyLimit.NeverOverfed | src/openai_api_bridge/api/_limits.py:122-130 | for every application and every chunking it is never given more than the cap, all of a body within it, and of one over it all that came before |
| BodyLimit.WithinTheCap | src/openai_api_bridge/api/_limits.py:132-164 | if the cap is never crossed the wire is exactly what the application sends |
| BodyLimit.OverTheCap | src/openai_api_bridge/api/_limits.py:153-192 | if it is, the wire is what was sent before and, when no response had started, one 413 |
| BodyLimit.NothingButTheAnswer | src/openai_api_bridge/api/_limits.py:153-161 | crossed before anything was sent, nothing but the 413 goes out |
| BodyLimit.AtMostOneStart | src/openai_api_bridge/api/_limits.py:153-164 | there is more than one response start exactly when the application sent more than one before the crossing |
| BodyLimit.AfterCrossing | src/openai_api_bridge/api/_limits.py:122-164 | the middleware's whole state after the crossing, for every continuation |
| BodyLimit.BodySizeLimit.LimitedReceive | src/openai_api_bridge/api/_limits.py:122-130 | counts, and raises instead of delivering past the cap |
| BodyLimit.BodySizeLimit.GuardedSend | src/openai_api_bridge/api/_limits.py:132-164 | forwards, replaces or drops |
| BodyLimit.BodySizeLimit.Run | src/openai_api_bridge/api/_limits.py:180-192 | the application's acts in turn, and the error that comes back |
| BodyLimit.Call | src/openai_api_bridge/api/_limits.py:86-192 | pass-through when disabled, a 413 without running the application for a declared length over the cap, the guarded run otherwise |
| CompletionPoll.IntervalIs | src/openai_api_bridge/backends/comfyui/client.py:227-235 | the k-th interval is the start times 1.5 to the k, or the ceiling if that is less |
| CompletionPoll.IntervalsNeverShrink | src/openai_api_bridge/backends/comfyui/client.py:302-303 | intervals never shrink and stay between start and ceiling |
| CompletionPoll.PollsAreBounded | src/openai_api_bridge/backends/comfyui/client.py:238-244 | at most timeout / start + 1 rounds ask at all |
| CompletionPoll.DroppedWhen | src/openai_api_bridge/backends/comfyui/client.py:266-300 | dropped exactly at a check that makes three negative ones with no positive one between |
| CompletionPoll.DroppedIsLate | src/openai_api_bridge/backends/comfyui/client.py:266-300 | and never before 90 seconds, with the three checks exhibited |
| CompletionPoll.PollCompletion | src/openai_api_bridge/backends/comfyui/client.py:224-303 | the loop stops, at the first round that stops it, with that round's outcome |
| CompletionPoll.ConfigFor | src/openai_api_bridge/backends/comfyui/client.py:229-233 | the ceiling is never below the starting interval |
| AspectRatio.SnapIsNearest | src/openai_api_bridge/util/aspect.py:118-153 | the option chosen is nearest in log space, one spelled as requested first, of equals the earliest |
| AspectRatio.SnapIsIdempotent | src/openai_api_bridge/util/aspect.py:118-153 | the value snapped to snaps to itself |
| AspectText.RatiosExactly | src/openai_api_bridge/util/aspect.py:29-81 | a text names a ratio if and only if it is two figures of one to six digits, neither zero, with a colon between and white space anywhere before and around it; the figures are kept as they are, and the label is the rest, taken out of its parentheses |
| AspectText.DistanceIs | src/openai_api_bridge/util/aspect.py:146-147 | the distance is the greater of the two ratios divided by the lesser |
| AspectRatio.SpelledParses | src/openai_api_bridge/util/aspect.py:53-81 | the value shown for a ratio parses to that ratio |
| AspectRatio.DistanceIsOne | src/openai_api_bridge/util/aspect.py:146-147 | the distance is least exactly for equal ratios |
| AspectRatio.ParsedIsMenu | src/openai_api_bridge/util/aspect.py:84-115 | options differ pairwise and each is what its own literal says |
| AspectRatio.NothingIsLost | src/openai_api_bridge/util/aspect.py:98-114 | every declared ratio that parses is offered |
| AspectRatio.ParseAspectRatios | src/openai_api_bridge/util/aspect.py:84-115 | the loop keeps first spellings in declared order |
| AspectRatio.SnapAspectRatio | src/openai_api_bridge/util/aspect.py:136-153 | the search for an exact value and then for the nearest |
| Workflows.ReportedIsRendered | src/openai_api_bridge/backends/comfyui/workflows.py:405-464 | for a declaration that passed the scan and an unchanged graph whose ratio slot is its own, the reported ratio is the one in the prepared graph, for every request |
| Workflows.TruthfulExactlyWhen | src/openai_api_bridge/backends/comfyui/workflows.py:351-450 | for all requests if and only if neither prompt nor frame count is written there and no image can be the last to be written there as something else than the graph was saved with, or no request can be prepared at all, for want of room for the prompt or because looking for seeds raises |
| Workflows.PromptInTheSlot | src/openai_api_bridge/backends/comfyui/workflows.py:351-358 | for every such record a request whose prompt ends up in the ratio's slot |
| Workflows.LengthInTheSlot | src/openai_api_bridge/backends/comfyui/workflows.py:447-450 | for every such record a request whose frame count does |
| Workflows.ImageInTheSlot | src/openai_api_bridge/backends/comfyui/workflows.py:360-382 | for every such record a request whose images do |
| Workflows.OptionsAreScanned | src/openai_api_bridge/backends/comfyui/workflows.py:196-308 | options that passed the scan form a menu, their slot exists and the default is read from it |
| Workflows.ImagesAreConserved | src/openai_api_bridge/backends/comfyui/workflows.py:360-382 | with distinct slots the image step puts every supplied image into the graph once, in declared order |
| Workflows.ImagesReachTheWorkflow | src/openai_api_bridge/backends/comfyui/workflows.py:360-452 | and they are still there in the workflow that is submitted, unless the ratio, the size or the frame count is written to the same slot |
| Workflows.NothingVanishes | src/openai_api_bridge/backends/comfyui/workflows.py:362-382 | what was handed out and what remains is always what was supplied |
| Workflows.SurplusExactlyWhen | src/openai_api_bridge/backends/comfyui/workflows.py:383-389 | surplus is refused exactly when there is no usable `multiple` input and fewer usable single ones than images, provided some image input is declared |
| Workflows.HandOutImages | src/openai_api_bridge/backends/comfyui/workflows.py:360-389 | the loop that uses up the remaining names |
| Workflows.PrepareWorkflow | src/openai_api_bridge/backends/comfyui/workflows.py:326-452 | the overrides in order, with the errors and the crashes of each |
| WorkflowValues.EveryInputTells | src/openai_api_bridge/backends/comfyui/workflows.py:326-452 | every input of a prepared workflow, by who writes it last: the frame count, the snapped ratio or the height and the width, a drawn seed, an image, the prompt, or what the graph was saved with |
| WorkflowValues.ImagesArePut | src/openai_api_bridge/backends/comfyui/workflows.py:360-382 | the last image input on a slot puts all that remain there, or the first that remains |
| WorkflowValues.PreparesExactlyWhen | src/openai_api_bridge/backends/comfyui/workflows.py:326-452 | a workflow is prepared if and only if the prompt's node takes it, the images fit, looking for seeds does not raise, and the ratio or the sizes and the frame count find room |
| WorkflowValues.OfferedExactlyWhen | src/openai_api_bridge/backends/comfyui/workflows.py:196-308 | a ratio declaration is offered if and only if it names a node, lists a ratio that parses, and the graph has the input; the menu is then all that parses |
| Workflows.SeedingKeepsRatios | src/openai_api_bridge/backends/comfyui/workflows.py:391-403 | drawing seeds never changes a ratio |
| Changelog.ValidReleases | scripts/release_notes.py:197-258 | if validation reports nothing, released versions are strictly descending and `section_for` gives each a non-empty body |
| Changelog.ValidPrevious | scripts/release_notes.py:266-286 | and the previous version of any tag, listed or not, is the greatest released one strictly below it |
| Changelog.ValidFences | scripts/release_notes.py:162-194 | and no fence is left open and no line outside one looks like a heading without being one |
| Changelog.ScansAgree | scripts/release_notes.py:104-194 | both scans hold the same fence after every line |
| Changelog.HeadingsAreKept | scripts/release_notes.py:136-152 | there is a section for each heading outside fences, in order |
| Changelog.QuietWalk | scripts/release_notes.py:210-236 | a walk over the sections that reports nothing has seen the versions in descending order |
| Changelog.FirstBelowIsGreatest | scripts/release_notes.py:282-286 | in descending versions the first below a key is the greatest below it |
| ChangelogText.MarkersExactly | scripts/release_notes.py:67-101 | a fence marker is at most three blanks, three or more backticks or tildes and the rest, without a backtick behind backticks |
| ChangelogText.HeadingsExactly | scripts/release_notes.py:64-64 | a heading is at most three blanks, two hash signs, white space and a trimmed title |
| ChangelogText.LooseExactly | scripts/release_notes.py:70-70 | a loose heading has something stuck to its hash signs |
| ChangelogText.TitleExactly | scripts/release_notes.py:201-203 | the first line is one hash sign, white space and the word |
| ChangelogText.VersionsExactly | scripts/release_notes.py:59-159 | a version is `v` and three numerals with dots between, and its key their values |
| ChangelogText.ClosesExactly | scripts/release_notes.py:104-121 | an open fence is closed by its own mark, at least as often and with nothing but white space behind, and by nothing else |
| ChangelogText.OpenExactly | scripts/release_notes.py:104-121 | after any number of lines a fence is open if and only if a line opened it and none since has closed it, and that line is the one reported |
| ChangelogText.StartsExactly | scripts/release_notes.py:146-148 | a line starts a section if and only if no fence is open and it is a heading |
| ChangelogText.SectionsExactly | scripts/release_notes.py:124-152 | the sections are the stretches from one such line to the next, with all the lines between in order |
| ChangelogText.LinesExactly | scripts/release_notes.py:137-137 | the lines are the text between its line feeds |
| ChangelogText.ReportsExactly | scripts/release_notes.py:162-244 | each problem is reported if and only if the text has it, at the line or the section where it is |
| ChangelogText.EntriesExactly | scripts/release_notes.py:247-258 | the entries of a tag are those of the first section under it, and the errors say whether there is one |
| Changelog.ParseChangelog | scripts/release_notes.py:124-152 | the first scan |
| Changelog.LostHeadingProblems | scripts/release_notes.py:162-194 | the second scan |
| Changelog.Validate | scripts/release_notes.py:197-244 | all problems, in order |
| Changelog.SectionFor | scripts/release_notes.py:247-258 | the first section of the tag, or which error |
| Changelog.PreviousVersion | scripts/release_notes.py:266-286 | the search through the released versions |

## Left out

- Byte encodings in the JSON body: UTF-8, UTF-16, UTF-32, byte order marks and their detection; the model starts from decoded code points, lone surrogates included.
- Number values: a number is its lexeme; the decoder's limits on integer digits and on nesting are not modelled.
- JsonSplices.ReplaceTopLevel: `sorted` and `bisect_left` are specification functions with the properties Python documents, not loops of their own.
- Reads outside the write lock: `fetchone` and `fetchall` see uncommitted rows, so claims speak of committed rows only.
- DatabaseRuns.NothingIsAdopted: assumes that the worker is FIFO and that a rollback works; the check against calling `execute` inside a transaction is not modelled.
- VideoJobRuns.FinishedRowsStay: the tables at start are whatever an earlier process left whose completed rows name a file; the restart's own reaping is `JobStores.RestartReaps`.
- Columns of a job row that nobody updates (model, prompt, size, seconds) and the routes that only read.
- The scheduler's hard timeout and `shutdown` are arbitrary cancellations; they say when, not whether, one comes.
- FalCatalogue.ListingAnswers: the permanent rejection latch is checked where a listing starts; fetches already queued for the lock do not look at it again, so no claim says that no fetch follows a rejection.
- The rest of a model entry (kind, capabilities, prompt hints) and the introspection of model schemas.
- DisplayLabels.Prettify: letters and digits are those of ASCII, and case is changed for these only; `DisplayNames` itself takes any spelling and any comparison.
- FileStoreRuns.NothingIsOrphaned: a directory that cannot be created counts as a failed write; the throttled touch of the access time and the pin do not affect files.
- Eviction.RunEvictionPass: ties in the access time keep one fixed order and no other writer runs during a pass; the periodic loop around it only repeats it.
- BodyLimit.OverTheCap: the 413 is two messages, of its text only the declared length is kept, and its headers and what is logged are not modelled; a send never fails.
- CompletionPoll.PollCompletion: exact times, a clock that does not go back, sleeps at least as long as asked.
- AspectRatio.SnapIsNearest: exact quotients in place of logarithms of floats; white space is blank, tab, line feed and carriage return, and digits are ASCII.
- Finding workflow files, slugs, the detection of the output type and the conversion of seconds to frames.
- Changelog.ParseChangelog: white space as above; `--draft`, rendering and the calls to git are not part of this model.
- HTTP clients, streaming, routing, authentication of callers, configuration and logging.
