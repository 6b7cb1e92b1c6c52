# Dinodia OS: verified models of the hub's state machines

Dinodia OS is a smart-home hub that runs for months on observations, timers and acknowledgements.  This project models
its decision logic in Dafny and proves what the logic promises over whole runs.  `dafny verify dfyconfig.toml` checks it.

Each component has a file with its specification, which gives steps on values, runs of steps and the lemmas about runs, and,
where the program is an object that changes in place, a file with a class whose methods follow the program statement by
statement and are proved to compute those steps.  The classes carry their history as ghost fields, and their validity
says that the object is where that history leads, so that every lemma about runs is a statement about the object.

- `Incidents`, `Activity`: device outages, integration outages and battery alarms.
- `Ledger`, `Outbox`, `Store`: the activity ledger with its cursor, the outbox of reports, and the object that holds both
  and undoes changes that could not be saved.
- `Reporting`: incidents and outbox together, from an observation to what the platform has been told.
- `Heating`, `HeatingController`: the heating demand decision and the protocol by which the boiler is commanded.
- `ElectricUsage`, `UsageTracker`: accounting of on, off and unknown seconds, and its upload.
- `Notifier`, `StateChangeNotifier`: delivery of state changes with repeats suppressed and failures retried.
- `OccurrenceIds`, `Schedule`: identifiers of automation occurrences, local calendar time and the search for the next run.
- `Scheduler`, `AutomationScheduler`: which minutes a tick of the scheduler looks at, what it claims and what it forgets.
- `KeyOrder`, `Json`: canonical JSON values and references in them.
- `LanGrants`, `LanAuthorizer`: offline authorisations for commands over the local network.
- `Prelude`: shared vocabulary, among it the sum over a map.

Every service call is one atomic step.  Times are integer milliseconds read from a clock that does not go back and, where
the program treats zero as absent, is positive.  Temperatures and battery levels are exact reals.  The order in which an
object enumerates its keys is a parameter wherever a loop depends on it, and the theorems hold for every order.  Random
identifiers are parameters that are new, or numbers given out in sequence.

## What the proofs found

- Revision numbers start again with every outage, and the outbox drops a report whose incident and revision already
  wait.  So the platform can be told last that a device is online that is not, or that it is offline when it is not
  (`Reporting.ReopenedOutageLooksResolved`, `Reporting.ResolvedOutageLooksOpen`).  Once the opening and the resolution of
  an outage wait, later outages are not reported until an acknowledgement (`Reporting.LaterOutagesAreMerged`).  An
  acknowledgement that names the incident takes a resolution that was never sent (`Reporting.UnsentResolutionIsTaken`).
  `Reporting.TellsLatestExactlyWhen` says exactly which runs keep what the platform is told last up to date.
- An unhealthy reading does not end the recovery of an integration as an unavailable device ends its own.  So one healthy
  reading after a report is enough for the platform to be told, two minutes later, that the integration is back, though
  it has failed ever since (`Incidents.RelapseIsResolved`, `Incidents.FailingIsReportedBack`).
- Envelopes without a revision are compared as revision 1 but stored as 0, so they are queued twice
  (`Outbox.RevisionlessEnvelopesRepeat`; `Outbox.PairsStayDistinctExactlyWhen` gives the exact condition).
- Electric usage that is counted between an upload and its acknowledgement never reaches the platform if the segment is
  closed in between, because the light changed area or its device was removed (`ElectricUsage.RollBeforeAckLoses`,
  `ElectricUsage.RemovalBeforeAckLoses`; `ElectricUsage.LostExactlyWhen` and `ElectricUsage.RunLosesExactlyWhen` give the
  exact condition).  What is counted in between for a light that stays where it is is sent with the next upload after
  its next sighting (`ElectricUsage.UploadRestoresExactlyWhen`).
- Retiring a light counts the time since it was last seen but does not note that it did, so a light that is seen again
  has that time counted twice (`ElectricUsage.ReappearanceCountsTwice`; `ElectricUsage.RunCountsSightingsExactlyWhen`).
- A scheduler whose clock is set back by more than ninety days can claim an occurrence again
  (`Scheduler.SetBackClaimsAgain`).  It cannot while the clock falls back by less than a bound (`Scheduler.NoMinuteTwice`),
  which is two days for a hundred automations at the default interval and some hours less than ninety days for two
  (`Scheduler.HomesKeepLongEnough`).
- A pending boiler command blocks every other command until an event confirms it: one that may act, wants the same mode,
  sees it, and does not see another set-point (`Heating.PendingBlocksExactlyWhile`).  So a boiler told to heat is not
  told to stop when the demand ends before its state has been seen (`Heating.BoilerHeatsForNobody`), and a boiler that
  keeps a set-point of its own is not commanded again (`Heating.OwnSetPointEndsControl`).

## Model

| member | source | states |
|---|---|---|
| Incidents.EveryEmissionIsJustified | src/activity/activityService.js:415-558 | every incident ever recorded in a run was recorded by one event, and the run up to that event justifies it: a device opens only in a sweep outside the warm-up, its unbroken bad observations as old as its threshold and its parent integration not offline; it resolves only after an unbroken good streak of the recovery window; an integration opens only after unhealthy readings as old as its threshold and resolves only a recovery window after a healthy reading; a battery opens or resolves only where the readings raise or clear its alarm |
| Incidents.RunInvariant | src/activity/activityService.js:415-617 | after every run the stored incidents agree with what the observations alone say (bad and good streaks, unhealthy series, battery alarm), revisions and thresholds are consistent, and each record of the last event is justified |
| Incidents.EmissionsAlternate | src/activity/activityService.js:478-608 | what is recorded about one incident is a prefix of open revision 1, resolved revision 2, repeated; its length is odd exactly while the incident is reported, so flapping records nothing |
| Incidents.ReclassificationNeverApplies | src/activity/activityService.js:573-608 | with a clock that does not go back and fixed thresholds, the correction for incidents opened too early never applies in a run from no incidents |
| Incidents.OutageChangesExactlyWhen | src/activity/activityService.js:478-523 | what a sweep's turn records about a device: its opening exactly if it is unreported, its bad streak has lasted the threshold and its parent is not offline at that turn; its resolution exactly if it is reported and its good streak has lasted the recovery window; otherwise nothing |
| Incidents.IntegrationChangesExactlyWhen | src/activity/activityService.js:478-558 | what any event records about an integration: its opening exactly if the event is an unhealthy reading of it or a sweep outside the warm-up that reaches it, it is unreported, and its first unhealthy reading since it was last healthy or last recorded is at least as old as the threshold; its resolution exactly if the event is such a sweep, it is reported, and its first healthy reading since then is at least as old as the recovery window; otherwise nothing |
| Incidents.RelapseIsResolved | src/activity/activityService.js:485-557 | an integration that was healthy once after its report is resolved by the first sweep past the recovery window, whatever its readings since then |
| Incidents.FailingIsReportedBack | src/activity/activityService.js:485-557 | a run at the hub's own thresholds: an integration that was healthy once is reported as back while it has been failing for two minutes less a second |
| Incidents.IntegrationFollows | src/activity/activityService.js:478-558 | after every run the stored incident of an integration agrees with those two times and with its log |
| Incidents.SweepIsItsTurn | src/activity/activityService.js:482-521 | in any enumeration order a sweep does to an integration what its own turn would do to the state before the sweep |
| Incidents.DeviceTurn | src/activity/activityService.js:484-520 | the two records a turn of the sweep can make for a device, by the phase and age of its incident |
| Incidents.ParentAtTurn | src/activity/activityService.js:485-515 | whether a parent integration still counts as offline when the sweep reaches a device: it was active before, and the sweep has not already resolved it on an earlier turn |
| Incidents.SweepRecordsAtItsTurn | src/activity/activityService.js:482-521 | in a sweep in any enumeration order only an incident's own turn records anything about it, and that turn sees it as the sweep found it |
| Incidents.SweepOneFrame | src/activity/activityService.js:484-520 | a turn of the sweep changes no other incident, adds none and records at most one, about its own incident |
| Incidents.EventRecordsOnce | src/activity/activityService.js:415-558 | an event adds at most one record about an incident, and takes none back |
| Incidents.SweepToIsJustified | src/activity/activityService.js:482-521 | every record of a sweep stays justified by the state the sweep ends in, because a sweep never adds an offline parent |
| Incidents.BatteryFollowsAlarm | src/activity/activityService.js:432-462 | a battery is reported exactly while the alarm with hysteresis over its readings (raised at 10 or less, cleared above 25) is up, with one record for each change of the alarm |
| Incidents.BatteryEntry | src/activity/activityService.js:432-462 | a reading leaves a battery reported exactly if it is at most 10, or it was reported and the reading is at most 25; it records exactly the changes |
| Incidents.ObservationRecords | src/activity/activityService.js:415-476 | an observation records at most one incident, and only about the integration or battery it is about; observations of devices record none |
| Incidents.OpeningIsSound | src/activity/activityService.js:508-520 | opening a watched incident whose threshold has passed keeps every invariant of the store |
| Incidents.ResolvingIsSound | src/activity/activityService.js:485-500 | resolving a recovering outage or a critical battery keeps every invariant of the store |
| Incidents.NeverPremature | src/activity/activityService.js:573-577 | in a sound state no open incident is younger than its threshold |
| Activity.ActivityService.constructor | src/activity/activityService.js:258-269 | a new service has no incidents and an empty history |
| Activity.ActivityService.Start | src/activity/activityService.js:271-276 | restarting the timer moves only the start of the warm-up |
| Activity.ActivityService.ReclassifyPremature | src/activity/activityService.js:573-608 | the correction is made exactly for an open incident younger than its threshold |
| Activity.ActivityService.ObserveUnavailable | src/activity/activityService.js:415-430 | the object follows the specified step, and so stays where its whole history leads |
| Activity.ActivityService.IncidentMonitorRecovery | src/activity/activityService.js:464-476 | an available device's incident starts recovering, keeps recovering or is forgotten, as specified |
| Activity.ActivityService.ObserveIntegration | src/activity/activityService.js:525-558 | a reading of an integration watches, opens, starts the recovery of or forgets its incident, as specified |
| Activity.ActivityService.ObserveBattery | src/activity/activityService.js:432-462 | a reading of a battery warns, raises, clears or does nothing, as specified |
| Activity.ActivityService.ParentIntegrationIsOffline | src/activity/activityService.js:610-617 | decides whether the integration behind a protocol has an active outage |
| Activity.ActivityService.SweepTurn | src/activity/activityService.js:484-520 | one pass of the loop, taken on the incident as the snapshot has it |
| Activity.ActivityService.Sweep | src/activity/activityService.js:478-523 | the loop over any enumeration of the incidents computes the specified sweep, and returns the number of openings recorded |
| Ledger.LedgerInvariant | src/store.js:1708-1819 | under any appends, updates and prunes numbers stay distinct and below the next one, and a record that is gone stays gone |
| Ledger.ApplyKeepsValid | src/store.js:1708-1819 | one operation gives out at most one number, never one already used, and brings no record back |
| Ledger.AppendKeepsValid | src/store.js:1708-1733 | an append adds only a record under the next number |
| Ledger.AppendLosesNothing | src/store.js:1721-1723 | the appended record comes first unless it is too old, and a retained record is lost only when the bound is reached |
| Ledger.UpdateIsExact | src/store.js:1735-1756 | an update overlays a retained record with the id by what the patch mentions and the time of the change, keeping id and number, and leaves every record with another id |
| Ledger.UpdateKeepsValid | src/store.js:1735-1756 | an update changes no number and adds no record |
| Ledger.PruneKeepsValid | src/store.js:1804-1819 | pruning only removes records |
| Ledger.PageIsExact | src/store.js:1758-1781 | a page lists only visible records below the cursor, in descending order, and omits a visible one only if it is below the next cursor; there is a next cursor exactly if the page is full |
| Ledger.WalkReturnsEachOnce | src/store.js:1758-1781 | following the cursor to the end, with any operations between the pages, lists each number at most once in descending order, none given out after the start, and every number that is visible throughout; it takes a bounded number of pages and ends if given more |
| Ledger.WalkDescends | src/store.js:1758-1781 | pages read one after another never repeat or reorder a number |
| Ledger.WalkFinds | src/store.js:1758-1781 | a finished walk has met every record that was visible whenever a page was read |
| Ledger.WalkEnds | src/store.js:1758-1781 | all pages but the last are full, so a walk has at most one page more than its starting number divided by the page size |
| Ledger.WalkFinishes | src/store.js:1776-1778 | a walk given more pages than that has come to its end |
| Ledger.SortSorts | src/store.js:1774 | sorting records with distinct numbers is a strictly descending rearrangement |
| Ledger.RetainedIsSubsequence | src/store.js:31-34 | retention keeps exactly the records with a readable time not before the cutoff |
| Outbox.OutboxInvariant | src/store.js:1872-1914 | in every run at most 100 entries wait, with distinct ids, and with distinct pairs of incident and revision if the envelopes have revisions |
| Outbox.QueueKeepsValid | src/store.js:1872-1889 | queueing keeps the bound and the distinct ids, keeps pairs distinct for envelopes with a revision, and leaves the envelope pending unless it came with neither id nor revision |
| Outbox.PairsStayDistinctExactlyWhen | src/store.js:1872-1889 | pairs stay distinct exactly if the envelope has a revision, is already pending, or meets no surviving entry of its incident without one |
| Outbox.RevisionlessEnvelopesRepeat | src/store.js:1876-1878 | two equal envelopes without id and revision are both queued: the stored revision 0 is compared with 1 |
| Outbox.QueuedList | src/store.js:1880-1887 | queueing appends one entry and drops just enough of the oldest |
| Outbox.SplitIsExact | src/store.js:1891-1906 | an acknowledgement splits the list into kept and taken entries by request alone, with nothing lost or duplicated |
| Outbox.AcknowledgeIsExact | src/store.js:1891-1914 | every requested entry leaves the list and has a receipt for its incident and revision; other entries and earlier receipts stay |
| Outbox.AcknowledgeKeepsValid | src/store.js:1891-1914 | acknowledging keeps the invariants of the list |
| Outbox.StepConserves | src/store.js:1872-1929 | entries with an id before an operation plus those it adds are those after it, acknowledged by it or pushed out by it |
| Outbox.RunConserves | src/store.js:1872-1929 | over every run, entries that ever entered are pending, acknowledged or pushed out, once each |
| Store.HubStore.RetainRecords | src/store.js:1721-1723 | the loop keeps the newest retained records up to the bound |
| Store.HubStore.AppendActivity | src/store.js:1708-1733 | record and envelope are stored together, or neither is when saving fails; an envelope without incident is refused after the record was added |
| Store.HubStore.QueueInState | src/store.js:1872-1889 | the search and the append compute the specified queue |
| Store.HubStore.UpdateActivity | src/store.js:1735-1756 | prunes, then patches the record with the id if there is one; a failed save undoes the patch |
| Store.HubStore.PruneActivity | src/store.js:1804-1819 | stores the retained records, or leaves everything when saving fails |
| Store.HubStore.SplitPending | src/store.js:1895-1903 | the loop separates the requested entries and writes their receipts |
| Store.HubStore.AcknowledgeIncidentEnvelopes | src/store.js:1891-1914 | acknowledges exactly the requested entries and returns how many, or changes nothing when saving fails |
| Store.HubStore.MarkIncidentUploadError | src/store.js:1916-1928 | counts an attempt on every pending entry and notes the error, or changes nothing when saving fails |
| Reporting.RunIsSound | src/activity/activityService.js:340-382 | queueing every recorded incident keeps the outbox sound in every run, and every waiting report was made from a recorded incident |
| Reporting.EnvelopesAreIdentified | src/activity/activityService.js:357-363 | two reports have one identifier exactly if they have one incident and one revision |
| Reporting.AtMostTwoReportsWait | src/activity/activityService.js:345-363 | in every run no three reports of one incident wait, whatever happens to it |
| Reporting.ReportIsQueuedExactlyWhen | src/store.js:1872-1889 | in every run a report changes the outbox exactly if none of the same incident and revision waits |
| Reporting.CurrentExactlyWhen | src/server.js:793-803 | an incident is up to date exactly if an upload at this moment leaves the platform with the revision recorded last about it: the last report that waits says so, or the last one uploaded if none waits |
| Reporting.StepCurrentExactlyWhen | src/store.js:1872-1914 | an event keeps an incident up to date exactly under a condition on the event: of what an observation records, if some report of the incident is not pushed out, the last one that waited or is added has the revision recorded, and if all are pushed out the one uploaded last has; an acknowledgement does not name the last report that waits, or names all that wait while the one uploaded last has the revision of the last of them |
| Reporting.TellsLatestExactlyWhen | src/store.js:1872-1914 | in every run, with uploads and acknowledgements in any order and with a full outbox too, an incident is up to date at every moment exactly if every event keeps it so |
| Reporting.QueueAllShares | src/store.js:1872-1889 | what waited for an incident and what a sweep adds to it is shared out, in order, between what is pushed out and what waits then |
| Reporting.AcknowledgedWaiting | src/store.js:1891-1906 | an acknowledgement leaves exactly the reports it names neither by themselves nor by their incident, in order |
| Reporting.LaterOutagesAreMerged | src/activity/activityService.js:421-423 | because revisions start again with every outage, once an opening and a resolution wait nothing more is reported about the incident until an acknowledgement |
| Reporting.ReopenedOutageLooksResolved | src/activity/activityService.js:478-523 | a run of six events, at the hub's own thresholds, after which an outage is open and the last waiting report says that the one before is over |
| Reporting.ResolvedOutageLooksOpen | src/store.js:1876-1887 | a run of two outages, at the hub's own thresholds, of which the first opening alone is uploaded and acknowledged: both are over and the last waiting report is an opening |
| Reporting.UnsentResolutionIsTaken | src/store.js:1896-1906 | a run in which the opening is uploaded and the answer names the incident when the resolution waits: the outage is over, nothing waits, and the platform was told last that it is open |
| Heating.DecisionIsExact | src/heatingDemandController.js:230-287 | heat is asked for exactly if a radiator calls; the controller fails off exactly if every evaluation for the grace period found all radiators unknown; it is undecided exactly if all are unknown for less than that |
| Heating.CallsExactlyWhen | src/heatingDemandController.js:230-243 | when a radiator calls and when it is unknown, in terms of what it reports |
| Heating.UnknownSinceIsEarliest | src/heatingDemandController.js:549-571 | the remembered time is that of the first evaluation of the longest unbroken series that found all radiators unknown |
| Heating.RuntimeKnowsUnknownSince | src/heatingDemandController.js:556-568 | in every run the runtime holds exactly that time |
| Heating.IdsCount | src/heatingDemandController.js:250-253 | a radiator calls exactly if one is listed as calling, and all are unknown exactly if as many are listed as unknown as there are |
| Heating.SendResult | src/heatingDemandController.js:613-635 | sending stops at the first failure; the outcome and the count of failures depend only on whether all and whether the first succeeded |
| Heating.BatchResult | src/heatingDemandController.js:589-640 | a batch ends accepted with a command pending and no failures exactly if the adapter accepted all of it; otherwise it leaves nothing pending and a retry time its back-off later |
| Heating.ProtocolInvariant | src/heatingDemandController.js:589-640 | after every run the runtime remembers how the last batch ended, when, and what to wait for |
| Heating.PendingIsAccepted | src/heatingDemandController.js:596-624 | in every run a pending command is the accepted last command, belongs to the last batch, and no retry is scheduled |
| Heating.NextBatchWaits | src/heatingDemandController.js:594-609 | between two batches, the boiler was seen in the mode of the first if it was accepted, with the cooldown passed if the commands are the same; if the first failed, its back-off has passed |
| Heating.RetryDelayDoubles | src/heatingDemandController.js:627 | the back-off is 15, 30, 60, 120 and then 240 seconds |
| Heating.FailuresAreCounted | src/heatingDemandController.js:604-626 | the counter is the number of failures in a row that the adapter's answers and idle evaluations imply |
| Heating.BatchesFollowDemand | src/heatingDemandController.js:575-612 | heat is sent only while a radiator calls and off only while none does, and only to a boiler that differs |
| Heating.PendingClearsExactlyWhen | src/heatingDemandController.js:702-712 | an event takes a pending command as carried out, and notes when, exactly if it may act, still wants the pending mode, finds the boiler in it, needs no temperature command and does not find another set-point than asked for; otherwise the command stays, and in either case nothing is sent |
| Heating.PendingBlocksExactlyWhile | src/heatingDemandController.js:589-640 | in every run a pending command stays exactly while no event confirms it, and every later batch comes after one that did |
| Heating.TurnedDemandBlocks | src/heatingDemandController.js:596-599 | if the demand turns round while a command is pending, nothing is sent for as long as it stays so, whatever the boiler shows |
| Heating.OtherSetPointBlocks | src/heatingDemandController.js:702-705 | if the boiler keeps reporting another set-point than asked for, nothing is sent in the rest of the run, whatever the demand does |
| Heating.BoilerHeatsForNobody | src/heatingDemandController.js:596-599 | an input: the boiler heats as told, nobody calls any more, and off is never sent while nobody calls |
| Heating.OwnSetPointEndsControl | src/heatingDemandController.js:592-599 | an input: the boiler heats as told but its set-point cannot be written, and no command is sent in any continuation |
| HeatingController.HeatingDemandController.EvaluateHeatingDemand | src/heatingDemandController.js:249-287 | the loop over the radiators computes the specified evaluation |
| HeatingController.HeatingDemandController.Evaluate | src/heatingDemandController.js:529-587 | one evaluation takes the runtime where the whole history of evaluations leads |
| HeatingController.HeatingDemandController.EvaluateWithoutConfig | src/heatingDemandController.js:542-546 | an evaluation without a valid configuration only counts a failure |
| HeatingController.HeatingDemandController.ApplyDesiredState | src/heatingDemandController.js:589-640 | the guards and the batch compute the specified step |
| HeatingController.HeatingDemandController.SendBatch | src/heatingDemandController.js:613-635 | the loop over the commands computes the specified result |
| ElectricUsage.RunCounts | src/electricUsage.js:103-223 | in every run, what is counted for an entity over all its segments grows by exactly the intervals between its sightings and one interval for each time it is retired, whether it is dropped and seen again or not |
| ElectricUsage.StepCounts | src/electricUsage.js:129-266 | every event adds exactly what its sightings of an entity contribute and, if it retires it, the interval since the last one, and leaves the entity with its latest sighting |
| ElectricUsage.RetireUnseenCounts | src/electricUsage.js:190-196 | retiring an entity counts the interval since it was last seen, and does not move that sighting |
| ElectricUsage.RunCountsSightingsExactlyWhen | src/electricUsage.js:103-223 | a run counts at least what the sightings of an entity add up to, and exactly that if and only if no retirement in it counts anything |
| ElectricUsage.ReappearanceCountsTwice | src/electricUsage.js:177-215 | an entity whose device is removed and that is seen again has the time from its last sighting counted up to the removal and counted again up to the new sighting |
| ElectricUsage.RunAccrues | src/electricUsage.js:103-198 | while an entity is never retired, what is counted for it over all its segments grows by exactly what its sightings add up to, whatever areas, other entities, uploads and acknowledgements do |
| ElectricUsage.StepAccrues | src/electricUsage.js:129-266 | one event adds exactly what the sightings in it add up to, for each of the three counters |
| ElectricUsage.SeeAccrues | src/electricUsage.js:103-157 | a sighting adds the time since the last one to its own entity, across a change of area too, and nothing to any other |
| ElectricUsage.SeeAllAccrues | src/electricUsage.js:165-189 | a change of a device adds what the sightings of its entities in it add up to |
| ElectricUsage.RetireUnseenAccrues | src/electricUsage.js:190-196 | retiring entities counts nothing for the others |
| ElectricUsage.ExpectedTotal | src/electricUsage.js:103-115 | the three counters together get the sum of the floored and capped intervals |
| ElectricUsage.FlooringLosesLittle | src/electricUsage.js:105 | over n intervals of at most a day the total is within n seconds below the time that passed, and never above it |
| ElectricUsage.LongGapsAreUnknown | src/electricUsage.js:106-113 | on and off get exactly the known intervals of at most ten minutes, in whole seconds; so at most 600 seconds an interval |
| ElectricUsage.StepIsValid | src/electricUsage.js:117-266 | epochs stay unused until given out and no two segments share a key |
| ElectricUsage.AcknowledgeKeepsSegments | src/electricUsage.js:251-266 | an acknowledgement of any rows at any time loses, invents and changes no segment |
| ElectricUsage.PayloadKeys | src/electricUsage.js:225-249 | a segment is in the payload exactly if it is closed and unacknowledged, or live and changed, with its current count |
| ElectricUsage.SyncIsExact | src/electricUsage.js:225-266 | if nothing happens between upload and acknowledgement, nothing is left to send, live counters are unchanged, retired segments are gone, the platform holds every segment's count, and no row it had decreases |
| ElectricUsage.UploadThenAckIsSync | src/electricUsage.js:225-266 | an upload and the acknowledgement of its rows with nothing in between are such an uninterrupted upload, for the hub and for the platform |
| ElectricUsage.PlatformFollows | src/electricUsage.js:204-266 | in every run of such uploads the platform is never ahead of the hub, and up to date for everything that will not be sent again |
| ElectricUsage.PlatformSumsToAccrued | src/electricUsage.js:204-266 | after such an upload the platform's rows for an entity add up to everything ever counted for it |
| ElectricUsage.LateAckIsSafeExactlyWhen | src/electricUsage.js:251-266 | an acknowledgement at any other time keeps the platform exact for all that is not marked to be sent exactly if it holds the present count of every acknowledged segment that still waits; a sighting in between breaks this until the next one |
| ElectricUsage.LostExactlyWhen | src/electricUsage.js:251-266 | an acknowledgement drops a segment behind the platform exactly if it names it, the segment waits closed, left behind or retired, and the platform lacks its present count |
| ElectricUsage.DroppedIsFinal | src/electricUsage.js:225-266 | a dropped segment is never sent again: in every later run the platform's row for it stays as it is |
| ElectricUsage.RunLosesExactlyWhen | src/electricUsage.js:204-266 | a run of sightings, uploads and acknowledgements in any order loses nothing exactly if none of its acknowledgements does |
| ElectricUsage.ClosedBeforeAckIsLost | src/electricUsage.js:225-266 | a segment that is counted on and closed between its upload and the acknowledgement stays at the uploaded count on the platform in every later run |
| ElectricUsage.UploadRestoresExactlyWhen | src/electricUsage.js:225-266 | an upload brings the platform up to date with everything ever counted exactly if nothing was lost and no entity counted on since its last upload is unmarked |
| ElectricUsage.RollBeforeAckLoses | src/electricUsage.js:117-124 | if a light changes area between upload and acknowledgement, the platform keeps the uploaded count in every later run, short of what was counted in between |
| ElectricUsage.RemovalBeforeAckLoses | src/electricUsage.js:204-223 | the same if the light's device is removed in between |
| ElectricUsage.StepGrows | src/electricUsage.js:103-223 | between uploads no segment shrinks or disappears, and one that is not marked as changed has not changed |
| UsageTracker.ElectricUsageTracker.AccrueEntry | src/electricUsage.js:103-115 | adds the floored, capped time since the entry was last seen to the specified counter |
| ElectricUsage.NewKey | src/electricUsage.js:80-101 | the epochs an entry is created with name no segment that was ever counted |
| UsageTracker.ElectricUsageTracker.RollAssignment | src/electricUsage.js:117-124 | closes the old segment with its time counted and begins another under new epochs |
| UsageTracker.ElectricUsageTracker.Sight | src/electricUsage.js:135-156 | a sighting of an entity, new, known or moved, computes the specified step |
| UsageTracker.ElectricUsageTracker.Observe | src/electricUsage.js:129-157 | ignores an empty identifier and otherwise sights the entity |
| UsageTracker.ElectricUsageTracker.RetireUnseenEntries | src/electricUsage.js:190-196 | the loop retires exactly the device's entities that were not seen, counting their last interval |
| UsageTracker.ElectricUsageTracker.OnDeviceChanged | src/electricUsage.js:159-198 | the two loops compute the specified change, within the limit of tracked entities |
| UsageTracker.ElectricUsageTracker.RetireDevice | src/electricUsage.js:204-223 | retires all entities of a device; the pass over closed segments changes none |
| UsageTracker.ElectricUsageTracker.SweptPending | src/electricUsage.js:215-221 | the loop over the closed segments retires the device's |
| UsageTracker.ElectricUsageTracker.GetPayload | src/electricUsage.js:225-249 | the rows, in any enumeration order, are the specified table, and there are none exactly if it is empty; the call is an upload in the history of the object and changes nothing else |
| UsageTracker.ElectricUsageTracker.PendingRows | src/electricUsage.js:227-228 | the rows of closed segments are those marked as changed |
| UsageTracker.ElectricUsageTracker.LiveRows | src/electricUsage.js:229 | the rows of live segments are those marked as changed |
| UsageTracker.ElectricUsageTracker.AcknowledgeUploaded | src/electricUsage.js:251-266 | drops and unmarks exactly the acknowledged segments |
| UsageTracker.ElectricUsageTracker.UnacknowledgedPending | src/electricUsage.js:254-257 | the loop keeps the closed segments that were not acknowledged |
| UsageTracker.ElectricUsageTracker.SweepEntities | src/electricUsage.js:258-264 | the loop removes acknowledged retired entries and unmarks the other acknowledged ones |
| Notifier.OneChainPerKey | src/stateChangeNotifier.js:20-63 | under every interleaving of deliveries a key is pending exactly if a chain of attempts exists for it, and then exactly one |
| Notifier.CountersAgree | src/stateChangeNotifier.js:20-63 | accepted notifications are sent, dropped or pending; failures are at least three for each dropped one and at most two more for each other |
| Notifier.AttemptsAreSpaced | src/stateChangeNotifier.js:34-60 | no notification is tried more than three times, the second attempt at least 250 ms and the third at least 500 ms after the one before; it is dropped exactly after three failures |
| Notifier.DeliveriesAreApart | src/stateChangeNotifier.js:23-26 | every attempt at, and delivery of, a later notification for a key comes at least a second after the delivery of an earlier one |
| Notifier.UpdateIsTakenExactlyWhen | src/stateChangeNotifier.js:20-33 | an update is counted as a repeat exactly if one for its key is under way or was delivered within the last second; otherwise it is accepted |
| Notifier.EveryItemEnds | src/stateChangeNotifier.js:34-60 | each step of a notification's chain uses up one of at most six, steps of others none, and it has ended exactly when none is left |
| Notifier.StepChanges | src/stateChangeNotifier.js:20-63 | a step accepts a notification, goes on with one or ends one, and touches the links of no other |
| Notifier.StepIsLinked | src/stateChangeNotifier.js:20-63 | a step keeps chains, pending keys and unended notifications in one-to-one correspondence |
| Notifier.StepIsCounted | src/stateChangeNotifier.js:44-55 | a step keeps the counters equal to what happened to the notifications |
| Notifier.TotalBounds | src/stateChangeNotifier.js:48-56 | the bounds on failures follow from what each notification can have failed |
| Notifier.RunIsSound | src/stateChangeNotifier.js:20-63 | all invariants hold after every interleaving |
| StateChangeNotifier.StateChangeNotifier.Enqueue | src/stateChangeNotifier.js:20-33 | does nothing unless configured, and otherwise accepts or counts a repeat as specified |
| StateChangeNotifier.StateChangeNotifier.Begin | src/stateChangeNotifier.js:34-42 | the timer's callback sends a request for its key if one is pending, and otherwise ends the chain |
| StateChangeNotifier.StateChangeNotifier.Succeeded | src/stateChangeNotifier.js:43-47 | a delivery clears the pending key, its time is remembered and the last error forgotten |
| StateChangeNotifier.StateChangeNotifier.Failed | src/stateChangeNotifier.js:48-60 | a failure is counted and noted; the third drops the notification, an earlier one schedules another attempt |
| Schedule.NextRunAt | src/automations/schedule.js:33-45 | returns the first matching whole number of minutes after the start within the horizon, and nothing exactly if there is none or date or minute are invalid |
| Schedule.NextRunExists | src/automations/schedule.js:20-45 | in any zone with a fixed offset a schedule has a next run exactly if its minute is a minute of the day and one of its weekdays is an ISO 8601 weekday, and then within 10080 minutes of any instant |
| Schedule.NothingIsSkipped | src/automations/schedule.js:39-43 | no instant that matches in a later local minute than the start is passed over |
| Schedule.RunsAreDaysApart | src/automations/schedule.js:33-45 | the run after a run is one to seven whole days later, and exactly seven for a single weekday |
| Schedule.MatchesByMinute | src/automations/schedule.js:3-23 | whether an instant matches depends only on the number of its local minute, and no impossible schedule ever matches |
| Schedule.DaysFollowEachOther | src/automations/schedule.js:13-16 | day numbers count calendar days from Thursday, 1 January 1970, over months and leap years, so that weekdays follow each other |
| Schedule.NumbersAreInjective | src/automations/schedule.js:13-16 | two dates of the calendar have one number only if they are the same |
| Schedule.ZoneAheadIsFixed | src/automations/schedule.js:3-18 | the calendar gives a zone for every fixed offset, whose civil times are real dates and times of the day |
| Schedule.OneOccurrencePerMinute | src/automations/schedule.js:25-31 | two occurrences have one identifier exactly if they are of one automation and revision in one local minute, in any zones |
| Schedule.DatesAreInjective | src/automations/schedule.js:12 | the text of a date determines it, and contains no colon |
| OccurrenceIds.IdsAreInjective | src/automations/domain.js:89-93 | identifiers agree exactly if automation, revision, date and minute agree, even if the automation's own identifier contains colons |
| OccurrenceIds.ColonsInDatesCollide | src/automations/domain.js:89-93 | with colons in the date two different occurrences share an identifier |
| OccurrenceIds.HourAndMinuteTellTime | src/automations/domain.js:90-91 | the padded hour and minute determine the minute of the day, negative ones too |
| OccurrenceIds.TextStandsForNumber | src/automations/domain.js:90-91 | a padded numeral determines its number |
| OccurrenceIds.PaddedIsInjective | src/automations/schedule.js:12 | a padded numeral determines its number, even where padding goes in front of a sign |
| Scheduler.ExactlyOnce | src/automations/scheduler.js:5-107 | over every run of ticks none of which looks back too far, each matching local minute of each automation of a home, from the first tick to the last, is claimed exactly once though old claims are dropped, in any zone that changes by whole minutes and repeats a local minute within three hours or not at all |
| Scheduler.EveryMinuteIsClaimed | src/automations/scheduler.js:5-107 | no matching minute of an automation is passed over between such ticks, across a restart too if the first tick still looks back to the stored one |
| Scheduler.NoMinuteTwice | src/automations/scheduler.js:64-97 | whatever the ticks, no automation claims a local minute twice, not even one that the clocks repeat, as long as the clock of the hub never falls back by more than a bound: dropping claims of more than ninety days ago or beyond the newest five hundred drops none whose minute can come up again |
| Scheduler.HomesKeepLongEnough | src/automations/scheduler.js:68-75 | the bound in numbers: no falling back in any home of up to a hundred automations and intervals of up to an hour; two days at the default interval; ninety days less the hours in which a minute can come up again with up to two automations |
| Scheduler.SetBackClaimsAgain | src/automations/scheduler.js:68-75 | a clock set back by more than ninety days after another run claims an occurrence again, whose claim was dropped |
| Scheduler.RetentionKeeps | src/automations/scheduler.js:68-75 | after a new claim everything is still kept that is at most ninety days older than the latest time so far and among the newest five hundred, in whatever order the clock ran |
| Scheduler.FewRecentClaims | src/automations/scheduler.js:80-101 | in any time an automation claims at most one occurrence for every twenty hours begun, so there are only so many claims since one whose minute comes up again |
| Scheduler.FixedOffsetIsCalendar | src/automations/schedule.js:3-18 | zones with a fixed offset and real dates meet the condition on zones under which this is proved |
| Scheduler.ZonesExist | src/automations/schedule.js:3-18 | for every whole number of minutes there is a zone that meets it and changes by whole minutes |
| Scheduler.UsualTicksLookAtAll | src/automations/scheduler.js:5-16 | at the default interval ticks up to five minutes and twenty seconds apart look at every minute between them |
| Scheduler.CandidateOf | src/automations/scheduler.js:9-15 | every minute from that of the previous tick to that of this one is among the instants looked at |
| AutomationScheduler.AutomationScheduler.DueMinuteCandidates | src/automations/scheduler.js:5-16 | the loop lists the first nine minute starts since the previous tick, or just the present if that tick is missing, later or too long ago |
| AutomationScheduler.AutomationScheduler.Retain | src/automations/scheduler.js:68-75 | the loop drops claims that are too old, and then the oldest beyond the bound |
| AutomationScheduler.AutomationScheduler.Claim | src/automations/scheduler.js:64-78 | records an occurrence exactly if there is one at the instant and no claim with its identifier is kept, and then drops what is not retained |
| AutomationScheduler.AutomationScheduler.ClaimEach | src/automations/scheduler.js:92-97 | the loop over the instants claims each in turn for one automation |
| AutomationScheduler.AutomationScheduler.Tick | src/automations/scheduler.js:80-101 | the loop over the automations takes the recorded claims where the whole history of ticks leads, and returns the ones it made |
| Json.StableForgetsOnlyOrder | src/automations/domain.js:31-35 | two values have the same stable form exactly if they differ only in the order of keys, at any depth |
| Json.StableIsIdempotent | src/automations/domain.js:31-35 | the stable form of a stable form is itself; a value is unchanged exactly if every object enumerates its keys in the canonical order |
| Json.StableIsCanonical | src/automations/domain.js:31-35 | the stable form is canonical and differs from the value in nothing but order |
| Json.CanonicalIsUnique | src/automations/domain.js:31-39 | a value has one canonical form |
| KeyOrder.SortedKeysAreOrdered | src/automations/domain.js:34 | keys added in sorted order are enumerated in one total order, array indices first, whatever order they had before |
| KeyOrder.OrderedKeysStay | src/automations/domain.js:34 | an object in that order is rebuilt in the same order |
| Json.RenameMovesReferences | src/store.js:503-515 | after renaming nothing refers to the old name, the new one is referred to exactly if either was, and other references are as before |
| Json.RenameBackRestores | src/store.js:503-508 | renaming and renaming back restores exactly the values that did not refer to the new name |
| Json.UnchangedWithoutReference | src/store.js:503-515 | renaming changes exactly the values that refer to the old name |
| Json.ReplacedContains | src/store.js:503-515 | for every set of references, a renamed value contains one exactly if the original contains one of those the set stands for |
| Json.ContainsUnion | src/store.js:510-515 | containing one of several references is containing one of the parts |
| Json.RenameKeepsStable | src/store.js:503-508 | renaming and taking the stable form commute |
| Json.StableKeepsReferences | src/store.js:510-515 | the stable form refers to what the value refers to |
| Json.ReplacedIsWellFormed | src/store.js:503-508 | renaming keeps the keys of every object and their order |
| LanGrants.NoChallengeTwice | src/auth/offlineLanAuthorizer.js:26-110 | no challenge is accepted twice in any run of enrolling, revoking, verifying and pruning, from any stored state |
| LanGrants.NoncesRest | src/auth/offlineLanAuthorizer.js:97-109 | a nonce is accepted again at the earliest after the time for which nonces are kept, at least a day |
| LanGrants.AcceptedExactlyWhen | src/auth/offlineLanAuthorizer.js:89-103 | a challenge is accepted exactly if a grant in force admits it and its nonce is new; then every earlier acceptance of the nonce is at least that long ago |
| LanGrants.StoreKnowsGrants | src/auth/offlineLanAuthorizer.js:45-87 | the store holds as unrevoked exactly the grant last enrolled or stored under an identifier, unless it or its device was revoked since |
| LanGrants.RevokedStaysRevoked | src/auth/offlineLanAuthorizer.js:73-91 | after a revocation nothing is accepted for a grant until its identifier is enrolled again |
| LanGrants.StepIsSound | src/auth/offlineLanAuthorizer.js:45-110 | each operation keeps every accepted nonce remembered until its time is over |
| LanAuthorizer.OfflineLanAuthorisationStore.Enroll | src/auth/offlineLanAuthorizer.js:45-71 | stores the specified grant, or nothing for an incomplete request |
| LanAuthorizer.OfflineLanAuthorisationStore.Revoke | src/auth/offlineLanAuthorizer.js:73-78 | revokes the grant if there is one, again if it was revoked before |
| LanAuthorizer.OfflineLanAuthorisationStore.RevokeRecords | src/auth/offlineLanAuthorizer.js:83-84 | the loop revokes exactly the device's unrevoked grants and counts them |
| LanAuthorizer.OfflineLanAuthorisationStore.RevokeDevice | src/auth/offlineLanAuthorizer.js:80-87 | afterwards the device has no unrevoked grant, and the result is how many it had |
| LanAuthorizer.OfflineLanAuthorisationStore.Verify | src/auth/offlineLanAuthorizer.js:89-103 | returns the principal exactly if the challenge is acceptable, and then remembers its nonce |
| LanAuthorizer.OfflineLanAuthorisationStore.Prune | src/auth/offlineLanAuthorizer.js:105-110 | keeps exactly the nonces used less than the memory ago |

## Left out

- Persistence, HTTP, MQTT, timers and logging: saving succeeds or fails as a parameter, and timers are events that come no earlier than they are due.
- Coalescing of equal records within two seconds, their text and sanitising (src/activity/activityService.js:313-355): incident properties are about what is passed to `record`, and `Reporting` takes every recorded incident to be queued.  With the hub's own thresholds this is so for outages; a battery alarm raised again within two seconds is merged with the one before.
- Removal of a device, which drops its incident without a resolution, is not an event of `Incidents.Run`.
- Incident thresholds are finite integers fixed for a run, zero standing for one that is absent; the power class and protocol of a device are given with each observation.
- Incidents.EveryEmissionIsJustified: promises no unbroken recovery for integrations, because an unhealthy reading while one recovers changes nothing (src/activity/activityService.js:547-557); `Incidents.IntegrationChangesExactlyWhen` says what counts instead.
- The retention cutoff of the ledger is a parameter of each call; the calendar arithmetic of months behind it is not modelled.
- Ledger.PageIsExact: cursors are numbers; texts that are not numbers are not modelled.
- The mapping of labels to boiler and radiators is fixed for a run; reconfiguring, snapshots of devices, provider health and status texts are parameters or left out, and an evaluation whose mapping cannot be synchronised is `ConfigError`.
- Heating.NextBatchWaits: is about a runtime whose batches are atomic, so an evaluation that starts while commands are under way is not modelled; the guards of one evaluation read the clock once.
- Electric usage reset by the platform's response, and the derivation of descriptors from capabilities.
- The `extra` fields of a notification, the address and the headers of its request; additions to a notification under way are not part of its delivery.
- A failed delivery is one event, whatever its cause.
- Time zone data: a zone is any function from instants to civil time, and fixed offsets or civil times that are not repeated for long are assumed only where needed; years before 1 are numbered on into the negative, without an era.
- The scheduler is modelled for automations that stay as they are, at most the hundred a home can have; enabling, editing and health, running what is claimed and its recovery after an interruption are not modelled, and the claims of one tick are made at the time of the tick.
- Validation of schedules.
- Serialising and hashing of canonical JSON; numbers are reals, so negative zero and values JSON cannot express do not occur.
- Signatures and keys: two unknown predicates; digests of commands are not modelled.
- Identifiers of grants that name inherited object properties; nonces that do are modelled as used.
- Heating usage, the Home Assistant projection and the control catalogue, which repeat these ideas.
