# Verified models of stateful parts of the Codestra Grafana tree

This project models the parts of the repository whose correctness rests on state that lives longer
than one call, or on an algorithm with more than one pass, and proves what those parts promise. The
models follow the code branch by branch; where the code and its own comments disagree, the code is
followed and the difference is stated below.

`dafny verify dfyconfig.toml` checks everything.

## Modules

| file | models |
|---|---|
| `DiagnosticsJobs.dfy` | the in-memory job store of the dashboard diagnostics endpoint, as a class whose methods are proved against relations on the store's value |
| `DiagnosticsRuns.dfy` | that store together with the detached goroutines, in every interleaving, and the panel loop |
| `JourneyRecorder.dfy` | the console recorder of journey logs: its mutable maps, handlers, waits, timeouts and dispose |
| `JourneyMessages.dfy` | what the text of a message asks of the recorder, and the records by the messages themselves |
| `JourneyRuns.dfy` | what the records must be by the log of operations alone, and what waiting tests are answered |
| `RequestsRecorder.dfy` | the recorder of response sizes, its in-flight count and its stop promise |
| `DashboardSave.dfy` | the legacy dashboard save: identity, manager lock, version check; whole runs of saves, atomic and with read and write apart |
| `DashboardAcl.dfy` | the legacy update of a dashboard's access control list and what applying its commands does |
| `ScopeNavigations.dfy` | the flattening of navigation trees with one counter over all roots |
| `PluginSettings.dfy` | the three passes that give every plugin its settings, and when their outcome depends on plugin order |
| `JourneyImport.dfy` | the text edit that adds an import to app.ts, parsed again |
| `CoverageCompare.dfy` | rounding, classification and partition of coverage changes |
| `DashboardPortfolio.dfy` | the generated dashboard files: slugs, paths, uids, and how many files there are |
| `PortfolioValidator.dfy` | the validator's count, uid, title and business-health checks of them |
| `SmokeTally.dfy` | the nested tallies of the smoke runner and its run loop |
| `NameCycle.dfy` | the cycle of generated two-word names |
| `Common.dfy`, `Text.dfy` | optional values, sequence facts, substring search |

## What the proofs show about the code

Properties that hold only under a condition are stated with the condition, both ways, and with an
input that shows the failure.

- A diagnostics slot can be lost for good. The job is pending from `create` on, but the handler writes a
  usage counter to the database before it starts the goroutine; a panic there is answered by the web
  server's recovery middleware (`upstream/pkg/middleware/recovery.go:108`) and nothing ever completes,
  fails or prunes the job (`DiagnosticsRuns.OrphansStayPending`). Every slot is held by work still going
  on exactly when no start has died (`DiagnosticsRuns.SlotsAreWorkIff`), and after four such starts every
  later one is refused (`DiagnosticsRuns.OrphansBlockAllStarts`,
  `DiagnosticsRuns.DeadStartsFillTheStore`).
- A completed diagnostics job is final: after `complete` the goroutine only increments a counter in
  memory. A failed one can be stamped anew by a panic in the counter write that follows `fail`
  (`DiagnosticsRuns.ResultRewrittenOnlyByPanic`).
- The version check of the legacy save protects against lost updates when saves are atomic. With the
  read and the write as separate steps it holds in every schedule of the saves under way, and as long as
  no further save reads the dashboard for a change before the write, exactly when no other save under way
  has decided to update it with other content, because the update carries no resource version
  (`DashboardSave.RaceIsExcludedIff`); otherwise a continuation loses the other change without either
  client being told (`DashboardSave.RivalsChangeIsLost`, `DashboardSave.BothVersionsAccepted`).
- In the same way a dashboard whose manager disallows edits is overwritten by a save that read it before
  the lock, and stays as it is exactly when there is no such save (`DashboardSave.LockHoldsIff`,
  `DashboardSave.LockedIsOverwritten`).
- The in-flight count of the requests recorder is exact if and only if no counted response has met a url
  that does not parse, its own or the document's (`RequestsRecorder.CountIsExactIff`). One such response
  is enough for the count never to come back to zero and for every later stop to hang; whether a page can
  deliver such a url is not decided by this code
  (`RequestsRecorder.OneBadUrlLeaks`, `RequestsRecorder.LeakIsForGood`,
  `RequestsRecorder.StopsHangAfterLeak`). A second stop while responses are in flight leaves the first
  stop's promise unresolved for good (`RequestsRecorder.FirstStopLeftBehind`).
- The type declaration of the journey recorder says dispose cleans up the console listener
  (`upstream/e2e-playwright/journey-tracking/types.ts:49`); the code only clears the waiters, so
  recording goes on. A start with an empty id counts as not started for a waiting test
  (`JourneyRuns.StartWaitAnsweredIff`).
- A hidden user whose stored actions have no permission name loses the entry on the next update: it is
  granted again under the empty name, which removes (`DashboardAcl.UpdateOutcome`).
- The settings of a plugin depend on the order of the plugin store exactly when it is included in an
  enabled plugin that is no app and has no row (`PluginSettings.OrderIsIrrelevantIff`). The store
  sorts by id, so such a plugin is enabled exactly when the other's id sorts first
  (`PluginSettings.NestedIsEnabledIffAfter`).
- The duplicate check of the app.ts edit looks for a substring, so after a journey is added every name
  that is a prefix of its name is refused although it is not imported
  (`JourneyImport.RefusedThoughNotImported`). The optional comment of the pattern ends at the last
  "journey" of its line; what follows on that line becomes code exactly when it is neither blank nor a
  comment of its own, as " modules" of "// load journey modules"
  (`JourneyImport.CommentTextBecomesCodeIff`, `JourneyImport.RestOfRemarkIsLeft`).
- A coverage drop of at most 0.02 points never fails and one of 0.03 or more always does; in between
  rounding decides (`CoverageCompare.RawDropBands`).
- The validator's uid check cannot fail on generated dashboards, whatever the registry: slugs that
  collide overwrite a file instead, which only the count check sees
  (`DashboardPortfolio.GeneratedUidsAreDistinct`, `PortfolioValidator.CountPassesIff`).
- As far as its count, uid, title and business-health checks go, the validator accepts a generated
  portfolio exactly when business slugs, service slugs and the titles given by the registry's names do
  not repeat, none of these titles is that of the incident dashboard, the business slugs are the required
  ones, and no service and no business with services has "business health" in its name
  (`PortfolioValidator.AcceptedIff`). A service named "Business Health" gets its business's own title
  (`PortfolioValidator.BusinessHealthServiceClashes`); one named "Prod Business Health" has a title of its
  own and is refused all the same (`PortfolioValidator.HealthServiceIsRefused`).
  The check's message asks for exactly one business-health dashboard for each business; a second one whose
  uid has the other form, with or without "biz-", goes unnoticed (`PortfolioValidator.SecondHealthDocument`).
- The smoke runner accepts a fraction as the number of runs. Completed and failed runs then add up to the
  number rounded down, not to the number printed (`SmokeTally.CompletedAndFailed`,
  `SmokeTally.HalfARunIsPrinted`). A run whose end is logged without an outcome ends the program without
  a summary (`SmokeTally.RunAll`).

## Assumptions

- Diagnostics: every store call is one step; a generated uid is never issued twice; the clock does not
  go back. Equal finish times are allowed. Code that writes to the database, runs queries or builds the
  archive may panic; incrementing a counter in memory whose labels exist does not.
- Recorders: code between two awaits runs without interruption; the page's input is arbitrary.
- Dashboard save: the storage layer raises the generation exactly when the content changes, and nothing
  is deleted or created again between a read and a save. The manager it stores with a write is an input.
- Access control list: the listed entries are the stored ones, one per principal; known principals have
  positive ids and roles have names.
- Plugins: the store holds one version of a plugin, and its list does not change during one call.

## Model

| member | source | states |
|---|---|---|
| DiagnosticsJobs.JobStore.Create | upstream/pkg/api/ds_query_dashboard_diagnostics.go:138-163 | refuses without any change when four jobs are pending; otherwise the new pending job is stored and the whole store is pruned |
| DiagnosticsJobs.JobStore.PruneLocked | upstream/pkg/api/ds_query_dashboard_diagnostics.go:177-202 | keeps every pending job unchanged, and of the terminal ones inside retention all, or the hundred that finished last |
| DiagnosticsJobs.JobStore.DropExpired | upstream/pkg/api/ds_query_dashboard_diagnostics.go:178-188 | the first loop lists each unexpired terminal job once and drops exactly the expired ones |
| DiagnosticsJobs.JobStore.SortByFinishedAt | upstream/pkg/api/ds_query_dashboard_diagnostics.go:196-198 | a permutation in order of finish time, equal times in any order |
| DiagnosticsJobs.JobStore.SetProgress | upstream/pkg/api/ds_query_dashboard_diagnostics.go:204-210 | changes one job's progress and nothing else; nothing at all for an unknown uid |
| DiagnosticsJobs.JobStore.CompleteJob | upstream/pkg/api/ds_query_dashboard_diagnostics.go:212-225 | makes the job complete with its archive and finish time, then prunes; nothing for an unknown uid |
| DiagnosticsJobs.JobStore.FailJob | upstream/pkg/api/ds_query_dashboard_diagnostics.go:227-236 | makes the job an error with its finish time, then prunes; nothing for an unknown uid |
| DiagnosticsJobs.JobStore.GetSnapshot | upstream/pkg/api/ds_query_dashboard_diagnostics.go:241-249 | the status for the owner, and for anybody else what an unknown uid gets |
| DiagnosticsJobs.JobStore.ArchiveOf | upstream/pkg/api/ds_query_dashboard_diagnostics.go:252-260 | archive and state for the same org and the same non-empty uid only |
| DiagnosticsJobs.ToldIff | upstream/pkg/api/ds_query_dashboard_diagnostics.go:91-97 | a status is shown, and an archive found, if and only if the job is there and the requester has a uid, which is its creator's, and its creator's organisation |
| DiagnosticsJobs.ColleagueIsNotTold | upstream/pkg/api/ds_query_dashboard_diagnostics.go:91-97 | another admin of the same organisation gets what an unknown uid gets |
| DiagnosticsJobs.PruneIsDetermined | upstream/pkg/api/ds_query_dashboard_diagnostics.go:177-202 | with distinct finish times a prune has exactly one outcome |
| DiagnosticsJobs.EvictedForSpace | upstream/pkg/api/ds_query_dashboard_diagnostics.go:189-201 | a job taken away for any reason but age was terminal and leaves a hundred others that finished no earlier |
| DiagnosticsRuns.PanelDatasourceUIDs | upstream/pkg/api/ds_query_dashboard_diagnostics.go:560-574 | every non-empty uid mentioned, once, in the order of first mention |
| DiagnosticsRuns.RunPanels | upstream/pkg/api/ds_query_dashboard_diagnostics.go:424-482 | the loop's counters are the tally of all panels and the job's progress ends at their number |
| DiagnosticsRuns.TalliedCounts | upstream/pkg/api/ds_query_dashboard_diagnostics.go:455-482 | skipped and run panels make up those done; skipped, failed and captured are the sizes of the sets of such panels; failed and captured are at most those run |
| DiagnosticsRuns.StepKeepsInv | upstream/pkg/api/ds_query_dashboard_diagnostics.go:288-354 | every step of any handler or goroutine keeps the invariant that ties store, runs and endings together |
| DiagnosticsRuns.StoreStaysBounded | upstream/pkg/api/ds_query_dashboard_diagnostics.go:117-132 | in every reachable state the pending jobs are exactly the runs being started, those generating and those whose start died, at most four together, and at most a hundred terminal jobs are kept |
| DiagnosticsRuns.StartRefusedIffFull | upstream/pkg/api/ds_query_dashboard_diagnostics.go:142-150 | a start is refused if and only if the runs being started, generating and orphaned are four |
| DiagnosticsRuns.OrphansStayPending | upstream/pkg/api/ds_query_dashboard_diagnostics.go:288-324 | a run whose start died stays pending in every later state |
| DiagnosticsRuns.OrphansDied | upstream/pkg/api/ds_query_dashboard_diagnostics.go:296-324 | the orphans are exactly the runs whose start died |
| DiagnosticsRuns.SlotsAreWorkIff | upstream/pkg/api/ds_query_dashboard_diagnostics.go:125-131 | every slot is held by work still going on if and only if no start has died |
| DiagnosticsRuns.OrphansBlockAllStarts | upstream/pkg/api/ds_query_dashboard_diagnostics.go:142-150 | once four starts have died every later start is refused |
| DiagnosticsRuns.DeadStartsFillTheStore | upstream/pkg/api/ds_query_dashboard_diagnostics.go:288-324 | for any four uids a run in which all four starts die and nothing is generating |
| DiagnosticsRuns.ProgressIsTrue | upstream/pkg/api/ds_query_dashboard_diagnostics.go:204-225 | progress never falls, never passes its total, and is the total in every complete job |
| DiagnosticsRuns.CompletedRunAddsUp | upstream/pkg/api/ds_query_dashboard_diagnostics.go:422-490 | in every run that completes, skipped and run panels make up the total, and failed and captured are each at most those run |
| DiagnosticsRuns.ResultRewrittenOnlyByPanic | upstream/pkg/api/ds_query_dashboard_diagnostics.go:325-353 | a complete result is never rewritten, an error only by a panic of the same goroutine, and it stays an error without archive |
| DiagnosticsRuns.EndingLasts | upstream/pkg/api/ds_query_dashboard_diagnostics.go:173-176 | what a completion wrote is that run's last word in every later state |
| DiagnosticsRuns.ArchiveStaysAvailable | upstream/pkg/api/ds_query_dashboard_diagnostics.go:87-97 | in every interleaving a completed archive is found by a requester with its creator's uid and organisation until more than an hour has passed or a hundred others have ended no earlier, and never by a requester in whom either differs |
| DiagnosticsRuns.EndingHasEvent | upstream/pkg/api/ds_query_dashboard_diagnostics.go:212-236 | every ending counted against an archive was a terminal call of that run, at that time and with that archive or error |
| DiagnosticsRuns.EndedSinceMeansLater | upstream/pkg/api/ds_query_dashboard_diagnostics.go:192-198 | with a strictly increasing clock those others ended after the completion |
| DiagnosticsRuns.SnapshotIsTrue | upstream/pkg/api/ds_query_dashboard_diagnostics.go:241-249 | in every reachable state a polled status is its run's: the creator asks, the total is the number of panels posted, done is the number of results while it is pending and the total once it is complete, an error is the one the run ended with |
| DiagnosticsRuns.RunHasStart | upstream/pkg/api/ds_query_dashboard_diagnostics.go:138-163 | every run goes back to the one start that posted its panels, by its creator at that time |
| DiagnosticsRuns.NothingStaleAfterPrune | upstream/pkg/api/ds_query_dashboard_diagnostics.go:177-188 | after every admitted start and every terminal call no terminal job older than an hour is left |
| JourneyRecorder.Recorder.OnConsole | upstream/e2e-playwright/journey-tracking/journeyRecorder.ts:59-66 | only tracker and registry messages are logged and go on, and no record changes before the first await |
| JourneyRecorder.Recorder.Resume | upstream/e2e-playwright/journey-tracking/journeyRecorder.ts:101-198 | a handler's second segment does the operations its message asks for, in the order of the four tests |
| JourneyRecorder.Recorder.HandleStart | upstream/e2e-playwright/journey-tracking/journeyRecorder.ts:102-125 | a start opens a new entry, becomes its type's id and resolves every waiter for the type once |
| JourneyRecorder.Recorder.HandleStep | upstream/e2e-playwright/journey-tracking/journeyRecorder.ts:129-145 | a step is added in place to the one active journey it resolves to |
| JourneyRecorder.Recorder.HandleEnd | upstream/e2e-playwright/journey-tracking/journeyRecorder.ts:164-197 | an end pushes a record of the active journey, removes it and resolves every waiter for the type with that record |
| JourneyRecorder.Recorder.WaitForJourneyEnd | upstream/e2e-playwright/journey-tracking/journeyRecorder.ts:201-228 | resolved at once with the first record of the type, else a waiter is queued |
| JourneyRecorder.Recorder.WaitForJourneyStart | upstream/e2e-playwright/journey-tracking/journeyRecorder.ts:230-257 | resolved at once with the type's id unless that is missing or empty, else a waiter is queued |
| JourneyRecorder.Recorder.Dispose | upstream/e2e-playwright/journey-tracking/journeyRecorder.ts:267-270 | clears both kinds of waiters and leaves records, promises and recording alone |
| JourneyRuns.PositionFound | upstream/e2e-playwright/journey-tracking/journeyRecorder.ts:129-145 | the positions a record is made of miss no operation resolved to its id since its start |
| JourneyRuns.PositionsOrdered | upstream/e2e-playwright/journey-tracking/journeyRecorder.ts:129-145 | and they keep the order of the log |
| JourneyRuns.RecorderFollowsLog | upstream/e2e-playwright/journey-tracking/journeyRecorder.ts:102-186 | after any log the active map holds exactly the ids started and not ended since, each with the steps, updates and texts of its own operations, and there is one completed record per end |
| JourneyRuns.RecordsFollowLog | upstream/e2e-playwright/journey-tracking/journeyRecorder.ts:56-198 | the same whatever the order of handlers, waits, timeouts and dispose |
| JourneyRuns.EndsStayTrue | upstream/e2e-playwright/journey-tracking/journeyRecorder.ts:188-228 | over every life end waiters of a type exist only while no record of it does |
| JourneyRuns.EndWaitsGetTheFirstRecord | upstream/e2e-playwright/journey-tracking/journeyRecorder.ts:201-228 | every wait for a type that resolves gets the first completed record of it; one still pending means there is none or a dispose cut it off, and a cut-off wait never resolves |
| JourneyRuns.StartWaitsGetAStartedId | upstream/e2e-playwright/journey-tracking/journeyRecorder.ts:230-257 | a start wait that resolves gets an id the type was started with; one still pending was cut off or its type has no id but the empty one |
| JourneyRuns.StartWaitAnsweredIff | upstream/e2e-playwright/journey-tracking/journeyRecorder.ts:230-235 | a start wait is answered at once if and only if the type's latest start had a non-empty id |
| JourneyRuns.PromisesSettleOnce | upstream/e2e-playwright/journey-tracking/journeyRecorder.ts:201-257 | no step changes a promise that is settled, and only its own timeout rejects one |
| JourneyMessages.OpsAreAsked | upstream/e2e-playwright/journey-tracking/journeyRecorder.ts:101-198 | a resumed handler does exactly what its message asks for: of the words of the prefix and the parts of the context before and after the first slash or arrow, a start, a step, attributes and an end, in this order |
| JourneyMessages.AskedIsDetermined | upstream/e2e-playwright/journey-tracking/journeyRecorder.ts:101-198 | and a message asks for one thing only |
| JourneyMessages.StartMessage | upstream/e2e-playwright/journey-tracking/journeyRecorder.ts:102-110 | a message that only reports a start is exactly that start with its id and count |
| JourneyMessages.StepMessage | upstream/e2e-playwright/journey-tracking/journeyRecorder.ts:129-141 | a message that only reports a step, in the context kind/name, is exactly the step of that name of that kind |
| JourneyMessages.AttributesMessage | upstream/e2e-playwright/journey-tracking/journeyRecorder.ts:147-161 | a message that only sets attributes adds exactly its payload |
| JourneyMessages.EndMessage | upstream/e2e-playwright/journey-tracking/journeyRecorder.ts:164-186 | a message that only reports an end, in the context kind -> outcome, is exactly that end with its duration, count and attributes |
| JourneyMessages.NothingAskedIff | upstream/e2e-playwright/journey-tracking/journeyRecorder.ts:101-198 | nothing is done if and only if none of the four tests is met |
| JourneyMessages.RecordsFollowMessages | upstream/e2e-playwright/journey-tracking/journeyRecorder.ts:56-198 | whatever the order of handlers, waits, timeouts and dispose, the records are those of the log that the messages tell |
| RequestsRecorder.Recorder.HandleRequest | upstream/e2e-playwright/utils/RequestsRecorder.ts:73-81 | documents, and everything once a document url is known, are tracked |
| RequestsRecorder.Recorder.HandleResponse | upstream/e2e-playwright/utils/RequestsRecorder.ts:91-126 | the segment up to the first await: the document url, the increment, the host test, whether a body is read |
| RequestsRecorder.Recorder.Finish | upstream/e2e-playwright/utils/RequestsRecorder.ts:137-143 | the decrement, and the stop's promise resolved when it reaches zero |
| RequestsRecorder.Recorder.Stop | upstream/e2e-playwright/utils/RequestsRecorder.ts:57-70 | a promise resolved at once when nothing is in flight, else the one a later decrement resolves |
| RequestsRecorder.TrackedIff | upstream/e2e-playwright/utils/RequestsRecorder.ts:73-81 | over every execution a request is tracked if and only if some earlier request event was of it, of a document or after a document response whose url was not empty |
| RequestsRecorder.HandlersAreCounted | upstream/e2e-playwright/utils/RequestsRecorder.ts:91-112 | the counted handlers are as many as the response events whose request was tracked by then |
| RequestsRecorder.CountedResponseGoesOn | upstream/e2e-playwright/utils/RequestsRecorder.ts:112-126 | a counted response throws if its host or the document's is unknown, else waits for sizes if its status has no body, else for the body |
| RequestsRecorder.MetersAreTrue | upstream/e2e-playwright/utils/RequestsRecorder.ts:120-136 | the size counters are the sums over the events that delivered a body or sizes to a handler waiting for them |
| RequestsRecorder.CountIsLiveAndLeaked | upstream/e2e-playwright/utils/RequestsRecorder.ts:112-138 | in every reachable state the count is the handlers between increment and decrement plus those that died before the try |
| RequestsRecorder.HandlerDiesIff | upstream/e2e-playwright/utils/RequestsRecorder.ts:107-113 | a counted response always has a document url to be compared with; its handler dies if and only if one of the two urls does not parse |
| RequestsRecorder.CountIsExactIff | upstream/e2e-playwright/utils/RequestsRecorder.ts:107-138 | the count is exactly the handlers between increment and decrement if and only if no counted response has met a url that does not parse |
| RequestsRecorder.CountIsExact | upstream/e2e-playwright/utils/RequestsRecorder.ts:112-138 | in particular when all response urls parse |
| RequestsRecorder.LeakIsForGood | upstream/e2e-playwright/utils/RequestsRecorder.ts:112-140 | once a handler has died before the try the count never comes back to zero |
| RequestsRecorder.StopsHangAfterLeak | upstream/e2e-playwright/utils/RequestsRecorder.ts:57-70 | after that no unresolved promise and no later stop's promise ever resolves |
| RequestsRecorder.OneBadUrlLeaks | upstream/e2e-playwright/utils/RequestsRecorder.ts:112-113 | a run with one response whose url does not parse: every handler is done, the count is one, the stop's promise is unresolved |
| RequestsRecorder.StopResolvesIffDrained | upstream/e2e-playwright/utils/RequestsRecorder.ts:57-70 | a stop's promise is resolved if and only if the count has been zero since, as long as no later stop takes it over |
| RequestsRecorder.StopResolvesIffAllFinished | upstream/e2e-playwright/utils/RequestsRecorder.ts:57-70 | in terms of responses: if and only if at some moment since the stop every counted response had gone through its finally block |
| RequestsRecorder.OvertakenNeverResolves | upstream/e2e-playwright/utils/RequestsRecorder.ts:67-69 | an unresolved promise that a later stop has overtaken never resolves |
| RequestsRecorder.FirstStopLeftBehind | upstream/e2e-playwright/utils/RequestsRecorder.ts:57-70 | a run with two stops in which every response finishes and the first promise stays unresolved |
| DashboardSave.DashboardApi.SaveDashboard | upstream/pkg/api/dashboard.go:458-581 | the new store and the reply, with every refusal in its order |
| DashboardSave.DashboardApi.ResolveLegacyInternalId | upstream/pkg/api/dashboard.go:588-618 | the name an id stands for, or the 404, 500 or 400 the legacy contract pins, and the object only if it was read |
| DashboardSave.SaveChangesOneName | upstream/pkg/api/dashboard.go:509-563 | a refusal leaves the store unchanged; a success writes the posted content under the one name it reports and touches no other |
| DashboardSave.SaveOutcome | upstream/pkg/api/dashboard.go:436-618 | for every store and request: refused for the first reason against it with that reason's code, saved if and only if there is none, and then under which name and with which version |
| DashboardSave.ProvisionedIff | upstream/pkg/api/dashboard.go:530-535 | an update that gets as far is refused with 400 for its manager if and only if that manager disallows edits; an unmanaged dashboard and one whose manager allows them never are |
| DashboardSave.SaveWritesTheIntendedName | upstream/pkg/api/dashboard.go:490-507 | a supplied uid is always the name written, an id alone writes under the uid it maps to |
| DashboardSave.ForeignUidRefusedIffTaken | upstream/pkg/api/dashboard.go:608-617 | the refusal for a foreign uid, for every request: if and only if the request is well formed and readable and its id's uid differs from the supplied one, which is taken; a free one is created |
| DashboardSave.UpdateAcceptedIff | upstream/pkg/api/dashboard.go:499-545 | an existing dashboard, named by uid or by id, is replaced if and only if the request is well formed, its id agrees with its uid, nothing fails, its manager allows edits and it overwrites or carries the current generation |
| DashboardSave.LockedNeverChanges | upstream/pkg/api/dashboard.go:530-535 | over any run of atomic saves a dashboard whose manager disallows edits never changes |
| DashboardSave.LockHoldsIff | upstream/pkg/api/dashboard.go:509-563 | with read and write apart it never changes in any continuation if and only if no save that has read it is about to update it |
| DashboardSave.LockedIsOverwritten | upstream/pkg/api/dashboard.go:530-559 | a run in which a save that read before the lock overwrites the locked dashboard |
| DashboardSave.RunMovesOn | upstream/pkg/api/dashboard.go:547-563 | over any run nothing disappears, generations never fall, and equal generations mean equal content |
| DashboardSave.AcceptedVersionReplacesWhatWasRead | upstream/pkg/api/dashboard.go:537-544 | an accepted update with version v replaces exactly the content that had generation v, at every state since it was read |
| DashboardSave.RaceIsExcludedIff | upstream/pkg/api/dashboard.go:483-559 | with read and write apart, and as long as no further save reads the dashboard for a change, the version read is bound to be the one replaced in every schedule of the saves under way if and only if no other of them has decided to update the dashboard with other content |
| DashboardSave.UndisturbedSaveReplacesWhatWasRead | upstream/pkg/api/dashboard.go:509-559 | a save that reads while nobody else is about to change the dashboard, and writes before anybody reads it for a change, replaces exactly what it read |
| DashboardSave.RivalsChangeIsLost | upstream/pkg/api/dashboard.go:537-559 | where there is such another save, a continuation in which both are accepted and its change is lost |
| DashboardSave.BothVersionsAccepted | upstream/pkg/api/dashboard.go:509-563 | a run in which two saves with the same version are both accepted and the first one's content is lost |
| DashboardAcl.ValidatePermissionsUpdate | upstream/pkg/api/dashboard_permission.go:294-305 | accepts if and only if no item names two kinds of principal |
| DashboardAcl.FilterHiddenAcl | upstream/pkg/api/dashboard_permission.go:200-227 | nothing for a server admin, else the items of exactly the hidden entries of others, in order |
| DashboardAcl.AccessControlCommands | upstream/pkg/api/dashboard_permission.go:230-279 | one grant per item in order, then one removal per old entry that no item covers, in order |
| DashboardAcl.PermissionService.SetPermissions | upstream/pkg/services/accesscontrol/resourcepermissions/store.go:244-277 | all commands applied in order if all their principals are known and the transaction commits, else none |
| DashboardAcl.PermissionService.UpdateDashboardPermissions | upstream/pkg/api/dashboard_permission.go:91-141 | the request's items and the kept ones reconciled with the entries, or no change |
| DashboardAcl.CoversIffSamePrincipal | upstream/pkg/api/dashboard_permission.go:253-264 | for a valid item the three tests that spare an old entry are equality of principals |
| DashboardAcl.GrantsGive | upstream/pkg/api/dashboard_permission.go:235-248 | after the grants a principal some item is about holds View, Edit or Admin as the last such item has permission 1, 2 or 4, and nothing for any other number; without an item it has what it had |
| DashboardAcl.RemovalsTake | upstream/pkg/api/dashboard_permission.go:250-279 | the removals take exactly the principals with an entry that no item covers |
| DashboardAcl.RemovalsSpareTheGranted | upstream/pkg/api/dashboard_permission.go:250-279 | no removal is about a principal some item is about |
| DashboardAcl.CommandsGiveTheItems | upstream/pkg/api/dashboard_permission.go:230-292 | applied in order to the old list the commands leave every principal with exactly the permission of the last item about it, and with none where no item is |
| DashboardAcl.HiddenItemIsLast | upstream/pkg/api/dashboard_permission.go:134-136 | a hidden entry's kept item is the last one about its user and says what the entry said |
| DashboardAcl.UpdateOutcome | upstream/pkg/api/dashboard_permission.go:115-136 | for a requester who is no server admin a hidden other user keeps the old permission whatever the request says, and everybody else holds View, Edit or Admin exactly when the last item about them has permission 1, 2 or 4, and nothing otherwise |
| DashboardAcl.MixedItemKeepsStaleEntry | upstream/pkg/api/dashboard_permission.go:300-302 | without the validation an item naming a user and a role would leave a role's old entry in place |
| ScopeNavigations.TreeToNavigations | upstream/devenv/scopes/scopes.go:412-462 | the entries of the tree and the counter moved on by the urls generated |
| ScopeNavigations.FlattenRoots | upstream/devenv/scopes/scopes.go:611-627 | one flattening of all roots with one counter |
| ScopeNavigations.FlattenShowsPreorder | upstream/devenv/scopes/scopes.go:412-462 | one entry per node, in preorder, with the node's own data; the k-th node without a url over all roots gets the k-th generated one |
| ScopeNavigations.ScopesFollowParents | upstream/devenv/scopes/scopes.go:443-458 | every entry has its node's scope, else its parent's subScope, else its parent's effective scope |
| ScopeNavigations.ParentsHaveTheirChildren | upstream/devenv/scopes/scopes.go:446-458 | the parent these scopes are inherited from has the node among its children, and a node without one is a root |
| ScopeNavigations.GeneratedUrlsAreDistinct | upstream/devenv/scopes/scopes.go:416-421 | the generated urls, as text, are pairwise distinct over all roots |
| ScopeNavigations.AllScopedIff | upstream/devenv/scopes/scopes.go:446-456 | every entry has a scope if and only if every root has one |
| ScopeNavigations.DecimalDenotes | upstream/devenv/scopes/scopes.go:420 | the decimal text of a number determines it |
| ScopeNavigations.GeneratedUrlReads | upstream/devenv/scopes/scopes.go:416-421 | the k-th generated url is /d/dash- and the decimal digits of k |
| PluginSettings.FillSettings | upstream/pkg/api/bootdata.go:572-635 | the settings are what the three passes give, or the rows' error |
| PluginSettings.AvailablePlugins | upstream/pkg/api/bootdata.go:524-570 | every app, data source and panel of the store is listed under its kind with its settings, apps pinned as these say, and nothing else is |
| PluginSettings.EveryPluginHasSettings | upstream/pkg/api/bootdata.go:607-632 | no plugin of the store is left without settings |
| PluginSettings.BaseGives | upstream/pkg/api/bootdata.go:578-605 | after two passes an id has its row, else the default of the app of that name, else nothing |
| PluginSettings.SettledSettings | upstream/pkg/api/bootdata.go:607-632 | unless a plugin is nested in an enabled one that is no app, the settings are a closed form with no reference to order |
| PluginSettings.NestedIsEnabledIffAfter | upstream/pkg/api/bootdata.go:623-630 | such a nested plugin is enabled if and only if the one it is included in comes first |
| PluginSettings.OrderIsIrrelevantIff | upstream/pkg/api/bootdata.go:607-632 | all orders of the store give the same settings if and only if there is no such pair |
| PluginSettings.ChildrenFollowTheirApps | upstream/pkg/api/bootdata.go:587-632 | when plugins are included in apps or in nothing known: rows are kept, apps without one are enabled and pinned as AutoEnabled says, children without one are enabled if and only if their app is, and those in no app always |
| PluginSettings.RowsAreKept | upstream/pkg/api/bootdata.go:578-632 | a plugin with a row has exactly that row |
| PluginSettings.RowlessSettings | upstream/pkg/api/bootdata.go:587-632 | without a row: the store's version; an app is enabled and pinned as AutoEnabled says; anything else is never pinned, and enabled if it belongs to no app |
| PluginSettings.NestedIff | upstream/pkg/api/bootdata.go:615-630 | which pairs these are, by the plugins' own fields and the rows |
| JourneyImport.ModifyAppTs | upstream/scripts/cuj-new.ts:415-458 | the edited text, or the refusal |
| JourneyImport.ItemsOfJoined | upstream/scripts/cuj-new.ts:443 | splitting the one-line form gives back the items |
| JourneyImport.ItemsOfLines | upstream/scripts/cuj-new.ts:452-453 | splitting the multi-line form gives back the items |
| JourneyImport.EditReparses | upstream/scripts/cuj-new.ts:418-457 | the edited text parses to a block at the same place whose items are the old ones and then the new one; the text before and after the match is unchanged |
| JourneyImport.EditAcceptedIff | upstream/scripts/cuj-new.ts:420-433 | an edit is accepted if and only if there is a block and none of its items mentions the path |
| JourneyImport.RefusedAfterwards | upstream/scripts/cuj-new.ts:430-433 | after an edit the same name, and every name it starts with, is refused |
| JourneyImport.RefusedThoughNotImported | upstream/scripts/cuj-new.ts:431 | a shorter name is refused although no item is its import |
| JourneyImport.EditsAddUp | upstream/scripts/cuj-new.ts:435-457 | names added one after the other are listed after the old items in that order |
| JourneyImport.EditedBlockReads | upstream/scripts/cuj-new.ts:435-457 | the block after an edit: the old items and the new import, in one row exactly when the block was on one line and the row with its statement is at most 120 long, else one to a line |
| JourneyImport.MatchEndsAtJourney | upstream/scripts/cuj-new.ts:420 | the match ends after the bracket, or after the last "journey" on the line of a comment that follows |
| JourneyImport.CommentTextBecomesCodeIff | upstream/scripts/cuj-new.ts:420-456 | an edit turns text of a comment into code if and only if a comment with "journey" follows and its line goes on with something neither blank nor a comment |
| JourneyImport.CodeIs | upstream/scripts/cuj-new.ts:420-456 | what counts as code there: blanks and one-line block comments do not matter, the end of the line and a line comment are none, any other character is |
| JourneyImport.RestOfRemarkIsLeft | upstream/scripts/cuj-new.ts:420-456 | for any block followed by such a comment, what the edit leaves standing after the statement |
| CoverageCompare.RoundPctIsNearest | upstream/scripts/compare-coverage-by-codeowner.js:33-35 | no value in hundredths is nearer, and of two equally near the larger in magnitude is taken, as section 21.1.3.3 of ECMA-262 defines toFixed |
| CoverageCompare.ClassifiedByDrop | upstream/scripts/compare-coverage-by-codeowner.js:43-57 | pass, tolerated or fail by the exact difference of the two rounded values |
| CoverageCompare.RawDropBands | upstream/scripts/compare-coverage-by-codeowner.js:43-57 | by raw values: no drop passes, up to 0.02 points never fails, 0.03 or more always fails |
| CoverageCompare.GetFilesWithDecreasedCoverage | upstream/scripts/compare-coverage-by-codeowner.js:144-164 | exactly the files with some rounded drop, sorted by the collation |
| CoverageCompare.GetFilesWithIncreasedCoverage | upstream/scripts/compare-coverage-by-codeowner.js:175-203 | exactly the files with a rounded rise and no drop, with their total, sorted by it |
| CoverageCompare.BuildCoverageResult | upstream/scripts/compare-coverage-by-codeowner.js:247-290 | status, metric rows, totals, the rows of the first 200 decreased and the first 5 increased files |
| CoverageCompare.RowsAgree | upstream/scripts/compare-coverage-by-codeowner.js:228-236 | a metric row's change is the exact difference of its shown values, not negative if and only if it passes, below the tolerance if and only if it fails |
| CoverageCompare.RowsShowFields | upstream/scripts/compare-coverage-by-codeowner.js:222-245 | the four metric rows show the rounded lines, statements, functions and branches of either side |
| CoverageCompare.FileRowShows | upstream/scripts/compare-coverage-by-codeowner.js:212-220 | the four cells of a file's row show the rounded values of both sides, or nothing where these are equal |
| CoverageCompare.DecreasedRowShowsDrop | upstream/scripts/compare-coverage-by-codeowner.js:212-220 | every decreased file's row has a cell with a drop |
| CoverageCompare.StatusByDrops | upstream/scripts/compare-coverage-by-codeowner.js:252-263 | fail if and only if lines, statements, functions or branches drop by more than two hundredths after rounding, pass if and only if none of them drops |
| CoverageCompare.NoDropPasses | upstream/scripts/compare-coverage-by-codeowner.js:106-118 | never fail or tolerated when every raw value is at least the main one |
| CoverageCompare.TotalIncreaseIs | upstream/scripts/compare-coverage-by-codeowner.js:196-198 | the total is exact, and of a file without a drop positive if and only if some metric rose |
| CoverageCompare.SidesAreDisjoint | upstream/scripts/compare-coverage-by-codeowner.js:144-203 | a file on both branches is decreased, increased or unchanged by its rounded values, exactly one of them |
| CoverageCompare.SidesAddUp | upstream/scripts/compare-coverage-by-codeowner.js:144-203 | decreased, increased, unchanged and new files make up all of the branch's files |
| CoverageCompare.SelectedFrom | upstream/scripts/compare-coverage-by-codeowner.js:149-160 | a side lists an entry if and only if a file of that side has it |
| CoverageCompare.SortedByIs | upstream/scripts/compare-coverage-by-codeowner.js:202 | sorting orders, loses nothing and keeps entries of equal key in order |
| CoverageCompare.TopIncreases | upstream/scripts/compare-coverage-by-codeowner.js:336-340 | increased files all have a positive total and come in falling order |
| DashboardPortfolio.SlugCutsCleanText | scripts/generate_codestra_dashboards.py:23-24 | of text in slug characters with no dash at either end the slug is the first forty |
| DashboardPortfolio.SlugDropsOuterDashes | scripts/generate_codestra_dashboards.py:23-24 | a dash at either end changes no slug |
| DashboardPortfolio.SlugJoinsWords | scripts/generate_codestra_dashboards.py:23-24 | everything between two words counts as one dash |
| DashboardPortfolio.SlugIgnoresCase | scripts/generate_codestra_dashboards.py:23-24 | upper and lower case of a letter give the same slug |
| DashboardPortfolio.Generate | scripts/generate_codestra_dashboards.py:704-736 | the directory holds the last dashboard written to each path |
| DashboardPortfolio.PathsDiffer | scripts/generate_codestra_dashboards.py:643-649 | a path belongs to one special dashboard, business slug or service slug |
| DashboardPortfolio.UidsDiffer | scripts/generate_codestra_dashboards.py:690-736 | so does a uid |
| DashboardPortfolio.GeneratedCount | scripts/generate_codestra_dashboards.py:652-736 | for every registry 18 files plus one per distinct business slug plus one per distinct service slug |
| DashboardPortfolio.EveryBusinessIsFiled | scripts/generate_codestra_dashboards.py:709-724 | every business of the registry has the file business/business-slug.json, with the uid of its slug and the health title of a business of that slug |
| DashboardPortfolio.EveryServiceIsFiled | scripts/generate_codestra_dashboards.py:725-736 | every service has the file business/app-slug.json, with the uid of its slug and the title of a service of that slug and its business |
| PortfolioValidator.CountPassesIff | scripts/validate_codestra_observability.py:554-562 | the exact count check passes if and only if no two businesses and no two services share a slug |
| DashboardPortfolio.GeneratedUidsAreDistinct | scripts/validate_codestra_observability.py:572-573 | whatever the registry, no two files share a uid and none lacks uid or title |
| PortfolioValidator.ValidateGenerated | scripts/validate_codestra_observability.py:554-601 | accepts if and only if the count is right, uids and titles are present and distinct, the required titles are there and the dashboards titled "business health" are exactly the required businesses' |
| PortfolioValidator.TitlesRequiredIff | scripts/validate_codestra_observability.py:598-599 | whatever documents there are, the required titles are found if and only if each of the eighteen is one of theirs |
| PortfolioValidator.HealthRequiredIff | scripts/validate_codestra_observability.py:595-601 | the business-health check passes if and only if each required business has a document of such a title under its id, with or without "biz-", and no other document has such a title |
| PortfolioValidator.SecondHealthDocument | scripts/validate_codestra_observability.py:600-601 | a second document about a business's health passes the check |
| PortfolioValidator.AcceptedIff | scripts/validate_codestra_observability.py:554-601 | in any reading order these checks accept a generated portfolio if and only if business slugs, service slugs and the titles of the registry's names do not repeat, none is the incident dashboard's title, the business slugs are the required ones, and no service and no business with services speaks of business health |
| PortfolioValidator.TellsApartIff | scripts/validate_codestra_observability.py:554-577 | the same for the count, uid and title checks alone |
| PortfolioValidator.HealthAcceptedIff | scripts/validate_codestra_observability.py:595-601 | without colliding slugs the required titles are there, and the business-health check passes if and only if the business slugs are the required ones and no other name speaks of business health |
| PortfolioValidator.TitleIsHealthIff | scripts/validate_codestra_observability.py:595-596 | a title made of two names speaks of business health if and only if one of the names does |
| PortfolioValidator.HealthServiceIsRefused | scripts/validate_codestra_observability.py:595-601 | any service whose name ends in "Business Health" makes the validator refuse |
| PortfolioValidator.TitlesDifferIff | scripts/generate_codestra_dashboards.py:652-736 | without colliding slugs, the titles of the files differ if and only if those of the registry's names do and none is the incident dashboard's |
| PortfolioValidator.BusinessHealthServiceClashes | scripts/generate_codestra_dashboards.py:714-736 | a service named "Business Health" gets its business's own title |
| SmokeTally.Summary.RecordOutcome | upstream/scripts/cuj-smoke.ts:462-469 | one more in the flat tally and in the one nested tally, with no inner map shared |
| SmokeTally.RunAll | upstream/scripts/cuj-smoke.ts:484-529 | for any number asked for and any supply of runs: a summary if and only if at least one is asked for and no run ends the program; the body then ran that number rounded down, and the summary has the tallies of the completed runs, their duration and the failures; the exit code is 0 if and only if there are none |
| SmokeTally.OneRun | upstream/scripts/cuj-smoke.ts:492-526 | one run counts once, after at most one retry on an expired session |
| SmokeTally.RunCounts | upstream/scripts/cuj-smoke.ts:492-526 | a run counts by its first attempt, or by its second when the first met an expired session: an end is recorded under its outcome, a failure is listed with its number and message, a second expiry is a failure that names where it landed |
| SmokeTally.AbortsIff | upstream/scripts/cuj-smoke.ts:492-526 | a run ends the program if and only if the login after an expired session fails or the attempt that counts ends without an outcome |
| SmokeTally.CountsAreTrue | upstream/scripts/cuj-smoke.ts:462-469 | each nested count is the number of completed runs of that journey, scenario and outcome, each flat one of that outcome |
| SmokeTally.FlatIsSumOfNested | upstream/scripts/cuj-smoke.ts:462-469 | for every outcome the flat tally is the sum of the nested ones over all journeys and scenarios |
| SmokeTally.CountCompleted | upstream/scripts/cuj-smoke.ts:439 | what printSummary counts as completed, to take the average over, is the sum of the flat tally |
| SmokeTally.CompletedAndFailed | upstream/scripts/cuj-smoke.ts:434-440 | of a finished summary completed and failed add up to its printed number of runs if and only if that is whole |
| SmokeTally.HalfARunIsPrinted | upstream/scripts/cuj-smoke.ts:434-440 | asked for two and a half runs, two are completed and two and a half printed |
| NameCycle.SameNameIff | upstream/devenv/secrets/secrets.go:602-606 | two indices give the same name if and only if they agree modulo 702 |
| NameCycle.NamesAreDistinctIff | upstream/devenv/secrets/secrets.go:602-606 | n names are pairwise distinct if and only if n is at most 702 |
| NameCycle.GenerateResources | upstream/devenv/secrets/secrets.go:608-636 | the names given to keepers and secure values, in order |

## Left out

- HTTP binding, JSON, logging, metrics, tracing, feature flags, permission checks: not part of the modelled state.
- HAR capture, query execution and archive building: arbitrary inputs of the steps.
- Saturation of a Go duration at 292 years, and the monotonic part of a Go time.
- Number, String and the loose types of a console payload: a message carries the converted values; attribute values are text.
- The journey recorder's arrays: a completed record takes over the active journey's arrays, modelled by value; nothing appends to them after the journey has left the map.
- The labels of the size counters: each counter is a total over all labels.
- What a panic in the deferred recovery of a diagnostics run does: it ends the process, and the store with it.
- The storage layer of dashboards beyond its generation and atomic create and update: what it makes of the manager and which name it generates are inputs; deletion is not modelled.
- The lookup of a numeric dashboard id: its answer is an input.
- GetPermissions and the mapping from actions to permission names: the entries are inputs tied to the stored list by an assumption.
- DashboardAcl.PermissionService.SetPermissions: hooks are left out, and so is the redirect of team memberships, which dashboards do not take; a role name the service knows is a member of the set of known principals.
- ScopeNavigations: the parent path is passed down by the code and never used; it is not modelled.
- PluginSettings: aliases and the lookup by alias; they do not affect the settings.
- JourneyImport.ModifyAppTs: one pattern only, not regular expressions in general; text is a sequence of code points where JavaScript counts UTF-16 units, which matters only for the 120 limit.
- CoverageCompare.RoundPctIsNearest: percentages are rationals, so binary floating point and values of 10 to the 21 or more are not modelled.
- CoverageCompare.GetFilesWithDecreasedCoverage: localeCompare is an arbitrary key, paths that compare equal keep their order.
- The markdown text of the coverage report, and the commit, repository and artifact passed through it.
- PortfolioValidator.ValidateGenerated: a dashboard is its uid and title, so the checks of its other fields and the searches for required and forbidden tokens in its text are left out, as are the validator's checks of the registry and of the configuration files.
- DashboardPortfolio: panels, tags and templating of a dashboard.
- SmokeTally.RunAll: what the browser and the login do are inputs; the text of a failure is its parts.
- The generated resources' specs beyond their names.
- Settings filtering, auto-login, invitations, certificates, reverse proxies and build configuration: their behaviour is decided by services and libraries that are not part of this model.
