# ElectricEel: verified model

ElectricEel is a Sailfish OS client for Tesla cars. This project models the parts of it whose correctness
does not show in any single function, and proves what they promise. Check everything with
`dafny verify dfyconfig.toml` (Dafny 4.11).

**Hotspot presence protocol** (`app/src/automagicsetup.cpp`). The installer writes two step programs,
"hotspot on" and "hotspot off after 3m". Any number of their runs are alive at once and coordinate only
through one shared state cell that serves as a cancellation token.
`FlowLang` is the step language and its interpreter; `HotspotFlows` builds the two programs step by step as
the installer does, and `HotspotJson` the JSON objects for them, which read back as those programs;
`HotspotWorld` is the transition system over cell, clock, live runs and trace.
The engine that runs flows is a separate program; its meaning is fixed at the head of `FlowLang` from what
the flow builders say about it. Every theorem about runs says at which granularity they interleave:

- full interleaving, one step of one run at a time, any step failing: `HotspotSafety` and
  `HotspotGuarantees` (what can and cannot happen), `HotspotProgress` (what does get done), and the second
  half of `HotspotJam`;
- atomic prefix (read, skip, arm of a presence_far run in one go, everything else interleaved):
  `HotspotPrefix`; and coarse, which on top of that takes the tail of a woken run and a whole presence_inside
  run in one go: `HotspotController` and the first half of `HotspotJam`. Coarse moves are sequences of events
  of the full interleaving (`HotspotController.MovesAreEvents`).

Three things the flows do not promise, each with a concrete run and the exact condition:

- The comment at `app/src/automagicsetup.cpp:427-428` says that an older wait must not wipe a token a later
  away stored. The clear tests a value read two steps earlier, so it can (full interleaving):
  `HotspotGuarantees.ClearCanWipeALaterToken`. It does exactly when the last write to the cell is a token and
  came after the run's re-read: `HotspotGuarantees.ClearWipesALaterTokenIff`. A cancel in that gap does no
  harm.
- Two runs can both arm (full interleaving, `HotspotGuarantees.TwoRunsCanBothArm`), exactly when one arms
  between the other's read and arm (`HotspotGuarantees.ArmOverwritesTokenIff`). A run that is still waiting,
  or about to re-read, is silent once its token is overwritten. One that has already re-read its own token
  still turns the hotspot off, and it is the only kind that does (`HotspotGuarantees.OverwrittenTurnsOffIff`).
  So the hotspot can be turned off twice, by different runs (`HotspotGuarantees.TwoRunsCanBothTurnOff`).
- Coarse granularity: when the wait, the re-read or the clear of the token's holder fails, and only then, the
  holder ends with its token left in the cell (`HotspotJam.WakeJamsIff`, reached in `HotspotJam.JamIsReachable`).
  No later presence_far then arms, and no hotspot-off is ever issued, until a presence_inside cancels the
  token (`HotspotJam.JammedUntilInside`). Under full interleaving a run already under way can end such a jam
  (`HotspotJam.JamCanPass`); it lasts exactly if no presence_far run is past a read that saw no token with its
  arm still to come, and none is past a re-read of its own token with its off or clear still to come
  (`HotspotJam.JamIsPermanentIff`).

**Merges that keep order.** `Upsert` and `Install` model merging items into JSON lists by id and the
three-file installation that can stop after any file. `Translations`, `TranslationLaws` and
`TranslationFill` model carrying finished translations onto a new template and the positional writer that
feeds it.

**State machines.** `Enrollment` is the pairing gate and its retry loop under a deadline, `TeslaClient` the
resume latch and the phone-key status, `CoreWorker` the worker that owns the core handle (each slot method of
`CoreWorker.Worker` is proved equal to one step of `Process`, the function its laws are about), `WorkerClient`
the two connected: what the client shows after any sequence of worker slots. `LogDates` and `KeyLog` are the
daily log with its rotation and retention. The retention constant says seven days; because file dates are read
as UTC midnight while the cutoff is local, a log of six days ago can already go and one of seven days ago can
stay (`KeyLog.RetentionBounds`, `KeyLog.BoundsAreTight`).

Loops and objects of the program are methods and classes here, each proved against a specification function;
the laws are lemmas about those functions over whole runs, traces or lists.

## Model

| member | source | states |
|---|---|---|
| FlowLang.ForwardFlowHalts | app/src/automagicsetup.cpp:95-173 | the interpreter, stepped from any position in whatever worlds it finds with any steps failing, reaches the end of a flow whose jumps all go forward within the steps that are left |
| HotspotFlows.InstalledFlowsHalt | app/src/automagicsetup.cpp:378-435 | both installed flows are of that kind, so the interpreter finishes them |
| HotspotWorld.InterpreterIsTable | app/src/automagicsetup.cpp:378-435 | interpreting the two step programs, in any world, is exactly the transition table written out by hand |
| HotspotWorld.RunFinishes | app/src/automagicsetup.cpp:378-435 | full interleaving: in every world and schedule a run of either flow moves on with each step it takes and takes no more than its flow has left |
| HotspotSafety.ReReadEarns | app/src/automagicsetup.cpp:404-417 | full interleaving: a run that re-reads its own token armed it at least three minutes before, untouched since |
| HotspotSafety.RunKeeps | app/src/automagicsetup.cpp:378-435 | full interleaving: the invariant behind the safety theorems holds after every interleaving with any failures |
| HotspotGuarantees.OffIsEarned | app/src/automagicsetup.cpp:395-425 | full interleaving: hotspot-off by a run comes at least three minutes after its own arm, with no write to the token between that arm and its re-read |
| HotspotGuarantees.OffAtMostOnce | app/src/automagicsetup.cpp:418-425 | full interleaving: no run turns the hotspot off twice, and only away runs do |
| HotspotGuarantees.SilentOnceOverwritten | app/src/automagicsetup.cpp:404-433 | full interleaving: a waiting run whose token was overwritten never again writes the cell or commands the tether |
| HotspotGuarantees.OverwrittenTurnsOffIff | app/src/automagicsetup.cpp:404-425 | full interleaving: a run whose token is gone from the cell can still turn the hotspot off exactly if it has re-read that token and stands at its off step |
| HotspotGuarantees.TwoRunsCanBothTurnOff | app/src/automagicsetup.cpp:398-425 | full interleaving: a concrete interleaving in which an arm over a live token comes too late and two runs turn the hotspot off |
| HotspotGuarantees.DueRunFinishes | app/src/automagicsetup.cpp:404-433 | full interleaving: a run whose wait is due has ended after its remaining turns, whatever fails |
| HotspotGuarantees.ClearHitsOwnTokenIff | app/src/automagicsetup.cpp:426-433 | full interleaving: the clear meets the run's own token exactly if nobody wrote since its re-read |
| HotspotGuarantees.ClearWipesALaterTokenIff | app/src/automagicsetup.cpp:426-433 | full interleaving: the clear wipes another run's token exactly if the last write is a token and came after the re-read |
| HotspotGuarantees.ClearCanWipeALaterToken | app/src/automagicsetup.cpp:426-433 | full interleaving: a concrete interleaving in which an older run wipes a later run's token |
| HotspotGuarantees.ArmOverwritesTokenIff | app/src/automagicsetup.cpp:398-403 | full interleaving: an arm overwrites a live token exactly if another arm came after this run's read and was not cleared |
| HotspotGuarantees.TwoRunsCanBothArm | app/src/automagicsetup.cpp:398-403 | full interleaving: a concrete interleaving with two arms in a row, the first run being silent from then on |
| HotspotGuarantees.TailOutcome | app/src/automagicsetup.cpp:404-433 | from every world of the full interleaving: the tail of a waiting run in one go: exactly which outcomes turn the hotspot off and which clear the token |
| HotspotProgress.OffIssuedIff | app/src/automagicsetup.cpp:404-425 | full interleaving: a run past its off step has turned the hotspot off exactly if it re-read the cell with its token untouched since its arm |
| HotspotProgress.StaysUnarmed | app/src/automagicsetup.cpp:379-403 | full interleaving: a reachable cell without a token stays without one as long as nobody arms |
| HotspotProgress.InsideRestoresArming | app/src/automagicsetup.cpp:379-403 | full interleaving: in every reachable world, jammed or not, a cancel that works leaves the cell unarmed for as long as nobody arms, and a presence_far run that reads it in that time arms a fresh wait, whatever happens between its steps |
| HotspotPrefix.ArmsAreSeparated | app/src/automagicsetup.cpp:140-160 | atomic prefix: between any two arms the empty token is written, whatever else interleaves or fails |
| HotspotPrefix.FurtherLeavesChangeNothing | app/src/automagicsetup.cpp:89-92 | atomic prefix: leaving out of a whole execution any presence_far runs that start while a token is armed, scattered anywhere, changes neither token, nor any other run, nor the tether commands |
| HotspotController.MovesAreEvents | app/src/automagicsetup.cpp:378-435 | every coarse run, failures included, is a run of the full interleaving |
| HotspotController.FlowsRefineController | app/src/automagicsetup.cpp:378-435 | coarse, with reads, writes and waits working: the flows over any number of runs are a two-state controller, same deadline, same commands at the same times |
| HotspotController.ExpiryIsAlwaysPossible | app/src/automagicsetup.cpp:404-433 | coarse, all working: whenever the controller's deadline has passed, a sleeping run is there to act it out |
| HotspotController.MovesSettle | app/src/automagicsetup.cpp:378-435 | coarse: between moves every run sleeps at its wait or has ended, whatever failed |
| HotspotJam.WakeJamsIff | app/src/automagicsetup.cpp:404-433 | coarse: waking the token's holder leaves a dead token exactly if its wait, re-read or clear failed |
| HotspotJam.JammedUntilInside | app/src/automagicsetup.cpp:398-433 | coarse: with a dead token no hotspot-off is ever issued until a presence_inside cancels it |
| HotspotJam.JamIsReachable | app/src/automagicsetup.cpp:398-433 | coarse: one run that arms and whose wait fails leaves a dead token |
| HotspotJam.JamIsPermanentIff | app/src/automagicsetup.cpp:398-433 | full interleaving: a dead token stays, with no hotspot-off, in every continuation without a cancel exactly if no run is between a read of no token and its arm, or past a re-read of its own token with off or clear to come |
| HotspotJam.JamCanPass | app/src/automagicsetup.cpp:398-433 | full interleaving: a reachable jam that a run under way can still end |
| HotspotJson.StepReadsBack | app/src/automagicsetup.cpp:95-184 | round trip: id, operation with all its parameters, conditions and both jumps of any step are what is read back from the object built for it |
| HotspotJson.ProgramReadsBack | app/src/automagicsetup.cpp:378-435 | the steps built for either flow read back, one by one, as the program the theorems about runs are about |
| HotspotJson.InsideStepsSpelled | app/src/automagicsetup.cpp:379-394 | the two objects of the hotspot-on flow, field by field |
| HotspotJson.AwayStepsSpelled | app/src/automagicsetup.cpp:396-433 | the seven objects of the hotspot-off flow, field by field |
| Upsert.MergeItems | app/src/automagicsetup.cpp:196-213 | the nested loops compute the merge function that the laws below are about |
| Upsert.MergeOverrides | app/src/automagicsetup.cpp:196-213 | after the merge each item id finds the last item with that id, every other id what it found before |
| Upsert.MergeByField | app/src/automagicsetup.cpp:196-213 | the same on the JSON: the first entry whose "id" is an item's is the last such item, and for any other "id" it is what it was |
| Upsert.MergeKeepsTheRest | app/src/automagicsetup.cpp:196-213 | entries with other ids keep contents and relative order |
| Upsert.MergeIds | app/src/automagicsetup.cpp:196-213 | existing ids stay in place; distinct ids stay distinct |
| Upsert.MergeGrowth | app/src/automagicsetup.cpp:196-213 | the list grows by exactly the ids that are new |
| Upsert.MergeIsIdempotent | app/src/automagicsetup.cpp:196-213 | merging the same items again changes nothing, duplicate ids on either side included |
| Install.UpdateOnRoot | app/src/automagicsetup.cpp:233-260 | on the JSON root, whatever other keys it has: a list under "data" becomes its merge, with entries of other ids kept in order, anything else becomes the merge of the empty list, and an integral 32-bit version is kept while any other becomes 1 |
| Install.FailureIs | app/src/automagicsetup.cpp:233-274 | which outcome of reading, writing or committing stops an update of which kind of file, and with which failure |
| Install.MergedTwice | app/src/automagicsetup.cpp:233-275 | updating a file again with the same items writes the same file |
| Install.AutomagicSetup.UpsertFile | app/src/automagicsetup.cpp:233-275 | a failed update leaves every file alone, with its reason; a successful one replaces exactly this file by its merge |
| Install.AutomagicSetup.Install | app/src/automagicsetup.cpp:437-443 | the three updates in order, stopping at the first failure; nothing at all without the directory |
| Install.SucceedsIff | app/src/automagicsetup.cpp:437-443 | an installation succeeds exactly if each file is missing or a JSON object and every operation made on it works |
| Install.PerformStaysUnderway | app/src/automagicsetup.cpp:437-443 | an interrupted installation leaves each file as it was or, if it was usable, completely updated |
| Install.InstallConverges | app/src/automagicsetup.cpp:437-443 | after any number of interrupted installations a successful one leaves exactly the files of a single uninterrupted one |
| Install.UnrelatedItemsSurvive | app/src/automagicsetup.cpp:196-260 | whether an installation succeeds or stops anywhere, entries with other ids under "data" keep contents and order, whatever other keys the file has |
| Install.InstalledFlowsResolve | app/src/automagicsetup.cpp:353-443 | whatever the files held, after installation each of the two flows is found by id, its one trigger is the id of a source that filters on its event, its steps read back as its program, and the action they name sets Tethering to true for presence_inside and false for presence_far |
| Translations.Messages | tools/apply-translations.py:20-35 | the reading loops compute the first-wins dictionary |
| Translations.CollectIsFirst | tools/apply-translations.py:25-35 | a source is in that dictionary exactly if it is not blank and some message gives it a text that is neither empty nor marked unfinished; its value is the first such text |
| Translations.BlankIsStripped | tools/apply-translations.py:27-28 | a source is blank exactly if stripping white space leaves nothing |
| Translations.TemplateMessages | tools/apply-translations.py:38-48 | the template loops keep the first message of each context and source that is not blank, in order |
| TranslationLaws.DedupDistinct | tools/apply-translations.py:39-48 | no two kept template messages share context and source |
| TranslationLaws.DedupKeepsFirst | tools/apply-translations.py:39-48 | each kept template message is the first of its context and source, and they stand in template order |
| Translations.MergeLanguage | tools/apply-translations.py:58-83 | grouping and writing compute the merged file; kept counts the carried messages and kept plus new the deduplicated template |
| TranslationLaws.CountsAreOfTheFile | tools/apply-translations.py:76-81 | the messages counted as kept are all but those the merged file marks unfinished |
| TranslationLaws.MergeFinishes | tools/apply-translations.py:38-82 | the finished translations of a merged file are exactly the old ones whose source the template still has |
| TranslationLaws.MergesCompose | tools/apply-translations.py:38-82 | merging with two templates in turn keeps the finished translations whose sources are in both |
| TranslationLaws.MergeIsFixpoint | tools/apply-translations.py:38-82 | merging again with the same template gives the same file |
| TranslationLaws.DetourIsHarmlessIff | tools/apply-translations.py:38-82 | an intermediate template makes no difference exactly if it has every finished source the final one has |
| TranslationLaws.EqualSourcesEqualText | tools/apply-translations.py:69-80 | equal sources have equal translations in every context |
| TranslationLaws.MergedContexts | tools/apply-translations.py:63-80 | one context a name, holding that name's template messages in template order with their locations, each with the finished text of its source and no mark, or an empty one marked unfinished |
| TranslationLaws.MergedContextOrder | tools/apply-translations.py:63-80 | a name has a context exactly if the template has a message of that name that is not blank, and contexts stand in the order those first appear |
| TranslationFill.WriteNodes | tools/fill_common.py:31-55 | the nodes are filled in place by position, source, locations and any mark but "unfinished" kept; nothing is written when the count is wrong; mismatches are counted |
| TranslationFill.MismatchesAre | tools/fill_common.py:41-45 | the count is the number of positions whose source and text differ in some placeholder digit |
| TranslationFill.PlaceholdersAre | tools/fill_common.py:23-24 | the placeholder set is exactly the digits directly after a percent sign |
| TranslationFill.BuildKeepsOrder | tools/apply-translations.py:63-80 | grouping does not move any message when the contexts of the template stand together |
| TranslationFill.DistinctNamesAreContiguous | tools/apply-translations.py:41-42 | distinct context names are enough for contexts to stand together |
| TranslationFill.FilledThenMerged | tools/fill_common.py:27-54 | merging the writer's output keeps every message in place; its text is the first one given to its source that is not empty |
| TranslationFill.TextsSurviveIff | tools/fill_common.py:27-54 | the written texts survive the merge exactly if repeated sources were given the same text |
| TranslationFill.FinishedSurviveIff | tools/fill_common.py:27-54 | they survive as finished exactly if, besides, none is empty |
| Enrollment.WaitForEnrollment | helper/session/pairing.go:63-82 | the complete record of attempts; confirmed exactly if the last attempt succeeded, refused only once the deadline has come, returned by then |
| Enrollment.AttemptsAreBounded | helper/session/pairing.go:63-82 | the k-th attempt starts at least k intervals after the first and before the deadline, and is given three seconds or what is left |
| Enrollment.AttemptsAreDetermined | helper/session/pairing.go:63-82 | the record is the only one that fits, so no attempt is skipped, repeated or made after a success |
| Enrollment.ConfirmEnrollment | helper/session/pairing.go:37-61 | confirmed exactly if one single attempt, the last, saw the requested key enrolled and, for the phone's own key, opened a session |
| Enrollment.Session.DispatchAddKey | helper/session/main.go:1323-1366 | success exactly if linked or connected, sent and confirmed; no link is left either way; over within 90 seconds and 90 attempts |
| Enrollment.Session.DispatchPair | helper/session/pairing.go:16-33 | refused with code 2, before any traffic, exactly if there are not three arguments, a key cannot be loaded, or the offered key is not the phone's own; otherwise success exactly as above |
| TeslaClient.ResumesAreWakes | app/src/teslaclient.cpp:562-584 | over every trace the queued resumes are exactly the first activations after a suspension |
| TeslaClient.BackgroundIsIrrelevant | app/src/teslaclient.cpp:565-569 | erasing all hidden and inactive states changes nothing |
| TeslaClient.TeslaClient.OnApplicationStateChanged | app/src/teslaclient.cpp:562-584 | one state change moves latch and queue as the trace theorems assume |
| TeslaClient.LastActiveWins | app/src/teslaclient.cpp:498-522 | after any interleaving the active flag is that of the last start result, stopped, restarted or near event: as reported, off, on, on; no other event changes it |
| TeslaClient.LastStatusWins | app/src/teslaclient.cpp:498-547 | and the text is the one of the last start result or event of one of eight kinds, with the error appended to a failure that has one |
| TeslaClient.TeslaClient.OnPhoneKeyStarted | app/src/teslaclient.cpp:498-510 | flag and text set, notified exactly on change, and an observer that reads only when notified stays right |
| TeslaClient.TeslaClient.OnPhoneKeyEvent | app/src/teslaclient.cpp:512-547 | every event forwarded; flag and text set; notified exactly on change; the observer stays right |
| CoreWorker.OneReplyEach | app/src/teslaclient.cpp:191-379 | over every sequence of slots each command, preview and share request gets exactly one reply with its id, in order |
| CoreWorker.HeldIff | app/src/teslaclient.cpp:83-189 | a core is held exactly if one was created and neither another initialize nor a shutdown nor the destructor came since |
| CoreWorker.RepliesSay | app/src/teslaclient.cpp:191-379 | a command is answered as finished exactly if a core is held, the call works and reports no hard error; a preview or share is fine exactly if a core is held, the call works and says so |
| CoreWorker.ReportsSay | app/src/teslaclient.cpp:91-334 | what every other slot reports, and after which the phone key is reported again |
| CoreWorker.PollDelivers | app/src/teslaclient.cpp:119-145 | a poll delivers the queued events in order up to the first failing call, unchanged but for an empty time |
| CoreWorker.NoUseAfterFree | app/src/teslaclient.cpp:83-237 | no handle is used or freed unless created before and not yet freed |
| CoreWorker.FreedInTheEndIff | app/src/teslaclient.cpp:83-117 | after the destructor every core created has been freed, exactly if no initialize ran while one was held |
| CoreWorker.OneInitializeNeverOverwrites | app/src/teslaclient.cpp:440-443 | with the single initialize the client queues nothing is overwritten |
| CoreWorker.TimerRunsWhileHeld | app/src/teslaclient.cpp:91-189 | with that single initialize, and until the destructor, the poll timer runs exactly while a core is held |
| CoreWorker.Worker.PollPhoneKeyEvents | app/src/teslaclient.cpp:119-145 | the loop forwards exactly the events before the first failing call and leaves the rest queued |
| WorkerClient.ClientFollowsWorker | app/src/teslaclient.cpp:91-334 | over every sequence of slots the client receives exactly what the slots report about the phone key, in slot order |
| WorkerClient.ClientShowsLastReport | app/src/teslaclient.cpp:165-174 | if a slot reported a start result and no later one reported anything, the client shows that flag and its text |
| WorkerClient.ClientShowsLastFlag | app/src/teslaclient.cpp:498-522 | over every sequence of slots the client's flag is that of the last emitted start result, stopped, restarted or near event |
| WorkerClient.ClientShowsLastText | app/src/teslaclient.cpp:498-547 | and its text that of the last emitted signal that carries one, spelled out by kind |
| WorkerClient.ClientShowsNothingYet | app/src/teslaclient.cpp:498-547 | as long as no such signal was emitted the flag is off and the text empty |
| LogDates.DayNumbersFollow | helper/session/keylog.go:111-117 | day numbers order dates as the calendar does and name each date once |
| LogDates.DayNumberAfter | helper/session/keylog.go:106-117 | going n days on in the calendar, day by day over months and leap years, adds n to the day number |
| LogDates.DayNumberClosed | helper/session/keylog.go:106-117 | day numbers are those of the Gregorian calendar in closed form |
| LogDates.FormatReads | helper/session/keylog.go:51-52 | a date's text is its year, month and day as decimals of four, two and two digits |
| LogDates.ParseFormat | helper/session/keylog.go:51-52 | every date parses back from its text |
| LogDates.FormatParse | helper/session/keylog.go:112-115 | only a date's own text parses to it |
| LogDates.DateOfIff | helper/session/keylog.go:107-115 | a file name has a date exactly if it is the logger's name for that date |
| KeyLog.KeyLogger.OpenKeyLog | helper/session/keylog.go:72-99 | reuse of today's handle, or closing the old one and opening or creating today's file |
| KeyLog.KeyLogger.Keylog | helper/session/keylog.go:59-70 | one line to today's file if it can be opened, and to standard error in any case |
| KeyLog.OneHandle | helper/session/keylog.go:72-99 | for every sequence of calls at most one handle is open, and it is of the recorded day and the last call's day |
| KeyLog.ExistingFileGrows | helper/session/keylog.go:59-99 | a file that was there before only gains its own day's accepted lines, in call order |
| KeyLog.CreatedFileIsHeaderAndLines | helper/session/keylog.go:84-99 | a file this logger creates is its header, once and first, and then its day's accepted lines in call order |
| KeyLog.PruneKeyLogs | helper/session/keylog.go:101-121 | the loop attempts exactly the stale logs, in directory order |
| KeyLog.RetentionBounds | helper/session/keylog.go:106-118 | at every time of day and in every zone logs dated up to five calendar days before the local date stay and those of eight or more go; for six and seven days, exactly when |
| KeyLog.FutureLogsStay | helper/session/keylog.go:106-118 | a log dated after the local date stays |
| KeyLog.BoundsAreTight | helper/session/keylog.go:106-118 | a log of six calendar days ago can go and one of seven days ago can stay |
| KeyLog.OnlyLogsArePruned | helper/session/keylog.go:109-117 | nothing but a file of the logger's own naming is ever touched |

## Left out

- The engine that executes flows is not part of this model; a failed state write is taken to change nothing, a failed action call to have been issued, and an unset variable to fail every comparison.
- A wait starts when its run arrives at it; waking later than due is covered, since a due run may take its step at any time.
- The shared state is missing at first; a token left by an earlier daemon process is not modelled.
- JSON text and its parsing. How the engine reads a step is taken to be `HotspotJson.StepOf`, which undoes the builders.
- The daemon handshake, its secret, configuration directory probing and the final user messages of `install`.
- XML syntax, indentation and encoding; nested contexts; reading the template and listing the languages.
- A message's translation is either absent or one text with one mark; other attributes of the element are not modelled.
- TranslationFill.WriteNodes: works on the message nodes of a file in order, and FillDoc says how they sit in their contexts; sharing of tree nodes is not captured.
- TranslationFill.PlaceholdersAre: covers the ten ASCII digits, while the pattern also matches other Unicode decimal digits.
- Enrollment.WaitForEnrollment: timers fire exactly when due and computing takes no time, so a late scheduler is not modelled.
- The vehicle, its keys' cryptography and the radio are parameters; the texts of the replies are not modelled beyond their exit codes.
- The worker's replies: outputs, exit codes, previewed and configured values and error texts are not modelled, nor the argument marshaling; of the reports, the phone key's error text is.
- The Qt event loop is a sequence of slots; the poll timer is only on or off, and signals reach the client in the order they were emitted.
- KeyLog.KeyLogger.Keylog: a write is all or nothing, and the log directory does not change once set.
- The same log file being written by the Qt side as well, locks, and file removal failing after it was attempted.
- The fill tables, the translation catalogs, QML and the Rust core.
