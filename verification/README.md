# Verified model of the remote-car platform's stateful cores

People queue for real cars, accept a 15-second offer, drive over WebRTC and pay in seconds. This project models
the parts of that platform where state outlives one call, and proves what they keep over whole runs.

| files | what they model |
|---|---|
| `LiveQueue.dfy`, `FairWaiting.dfy` | the live queue's table, the advance that hands out offers, bounded waiting |
| `Fleet.dfy`, `FleetLaws.dfy`, `FleetEffects.dfy`, `FleetExamples.dfy`, `FleetStore.dfy` | every transaction of the web app and the gateway on queue rows, sessions, cars and devices; their joint invariant and what it buys; what each does, told from the rows it finds; a corner case they reach; the stores as one class |
| `SessionRegistry.dfy`, `Gateway.dfy` | the gateway's in-memory registry with its message trace, and the handlers around registry and database, cut at every await |
| `AdaptiveVideo.dfy`, `VideoLaw.dfy`, `VideoEvidence.dfy`, `VideoPrompt.dfy`, `VideoReadings.dfy`, `VideoSteady.dfy` | the camera-profile controller: evidence for every request, a request for all complete evidence, both told from readings, numbers and times alone, and what a steady link does |
| `Ledger.dfy`, `LedgerOrder.dfy`, `TimeLedger.dfy` | the append-only time wallet: exact and optimal debits, whose seconds go first, idempotency keys |
| `KeyboardDrive.dfy`, `ControlLoop.dfy`, `RideAudio.dfy` | keyboard ramps, the control channel's arm/disarm loop, optimistic saving of audio settings |

How the modelling is done:

- The source's objects are classes; each method is proved to have exactly the effect of a specification
  function on the object's abstract value, and the properties are lemmas about runs of those functions.
- One SQL transaction, or one lone statement outside a transaction, is one step, and steps of all services
  interleave freely. What `select ... limit 1` may return, generated ids, clock readings, the state of a channel
  and the iteration order of a map are arguments of the step.
- Clocks are arbitrary unless a lemma says otherwise. Time has to move forward in `FleetLaws.WaitingIsBounded`,
  `VideoEvidence.RequestsAreSpaced`, `VideoReadings.CountsMean` and `VideoReadings.ShortagesAreAnswered`; the lemmas on acceptance take the second reading of `create` to be no earlier
  than its first; and `Gateway` assumes the same of the two readings of one handler.
- Times are whole milliseconds, axes and ramps are reals, ids, peers and accounts are opaque types.

Where code and description differ, the model follows the code:

- `packages/database/migrations/0004_device_gateway.sql:50-55` and `0008_live_queue.sql:4-6,27-29` create unique
  indexes (one held session per car, one per user, one session per queue row, one live row per user) that the
  TypeScript table definitions do not show. They turn an insert into nothing, so `Fleet.Create` refuses there.
  `FleetLaws.CreateSucceedsIff` shows that only the index on users can ever fire: a user's session that has run out
  but was not yet ended blocks the next one, although the explicit check ignores it; `FleetExamples.RunOutSessionBlocks`
  reaches such a state.
- A credit that names no lot counts in the balance but cannot be drained (`WalletLedger.UnassignedCreditTrapsDebit`),
  and a debit is taken for done if any entry, a credit's included, has a key that extends its own by a colon
  (`WalletLedger.ExtendedKeySwallowsDebit`, `ExtendedCreditSwallowsDebit`; exactly then, `TakenForDoneIff`).
- "Saved" can be reported for a value the client never wrote (`RideAudio.SwitchingAccountsCanMislead`):
  exactly if, while the last request is awaited, a load arrives that finds no edit standing on the account it was
  asked for and leaves another value (`SavedMisleadsIff`). It cannot happen in a run whose loads never switch the
  account (`SavedIsTrueWithoutSwitch`).
- A steady link can move the profile against the one-way law once, lowering an affordable one say: if a request from
  before, which does not fit the link, is still outstanding and acknowledged late (`VideoSteady.StaleRequestIsReal`). Exactly the states with such a request
  allow it (`OneWayIff`), and it happens at most once (`StaleRequestChangesOnce`).
- Accepting an offer reads the clock twice. An advance in between, or at the second reading, treats everybody else
  as if nothing had been accepted exactly if the queue and the cars left room for the driver beforehand
  (`FleetLaws.AcceptCommutesIff`, `LiveQueue.RoomFor`). When cars have gone and offers in front have lapsed by then,
  somebody in front may wait, or be spared a miss (`LiveQueue.AcceptanceCanDisturb`).
- Binding another pair of channels does not disarm the control loop: the frames that follow are armed although no arm
  message went over the new pair (`ControlLoop.RebindingKeepsArmed`). An armed frame follows an arm over its own pair
  exactly if no pair was bound within the present arm (`FrameIsOnPairIff`), so a bind is safe exactly while the
  loop is not armed (`BindingIsSafeIff`).
- A device that replaced an earlier connection may end, or by dropping end, the session the earlier one started;
  the starting device then gets no `session.end` (it was closed when it was replaced):
  `Registry.ReplacedDeviceIsNotTold`.
- Two authentications that overlap on one socket can make it a device's and a browser's at once; the gateway's model
  allows that.

## Model

| member | source | states |
|---|---|---|
| LiveQueue.AdvanceObeysLaw | apps/web/app/live-queue-store.ts:152-181 | each row's outcome depends on the row and on the number of survivors before it in the result alone |
| LiveQueue.LawDeterminesAdvance | apps/web/app/live-queue-store.ts:152-181 | that law has one solution: any table that satisfies it is the advanced table |
| LiveQueue.AdvanceRowOutcome | apps/web/app/live-queue-store.ts:163-179 | a kept offer keeps its deadline, a new one gets 15 s, a cancelled one a fresh lease; missed iff offered, past its deadline and within capacity; expired iff a lapsed lease |
| LiveQueue.AdvanceOutcome | apps/web/app/live-queue-store.ts:152-181 | survivors are in FIFO order, exactly the first `capacity` of them are offered, all expire strictly after now |
| LiveQueue.AdvanceFixpoint | apps/web/app/live-queue-store.ts:152-181 | an advance changes nothing iff the table is settled |
| LiveQueue.AdvanceIsIdempotent | apps/web/app/live-queue-store.ts:152-181 | a second advance at the same time with the same fleet changes nothing |
| LiveQueue.SnapshotAgrees | apps/web/app/live-queue-store.ts:46-69 | after an advance the snapshot shows "ready" exactly when the stored row is offered, with its position and deadline |
| LiveQueue.JoiningIsTotal | apps/web/app/live-queue-store.ts:101-124 | whatever the capacities at the two advances of a join, the user has a live row at the end, so the snapshot cannot fail |
| LiveQueue.JoiningRenewsLease | apps/web/app/live-queue-store.ts:101-124 | every join or poll renews a waiting driver's lease in full and prolongs no offer, whatever the capacities at the two advances |
| LiveQueue.AcceptanceDisturbsNobody | apps/web/app/drive-session-store.ts:93-99 | taking an offered row and one car out of a settled queue leaves a settled queue |
| LiveQueue.AcceptanceCommutesIff | apps/web/app/drive-session-store.ts:76-99 | with one row accepted and one car fewer, an advance at any time gives everybody else the same outcome as without the acceptance iff, beforehand, the rows in front with deadlines still to come number at least two fewer than the cars, or one fewer and every lapsed offer in front has such a row behind it |
| LiveQueue.AcceptanceCanDisturb | apps/web/app/live-queue-store.ts:163-179 | two offers, two cars, one gone by the second clock reading: accepting the second offer spares the first driver a miss |
| FairWaiting.OnlyAdvancesOffer | apps/web/app/live-queue-store.ts:170-177 | no statement but an advance makes an offer or moves its deadline |
| FairWaiting.BoundedWaiting | apps/web/app/live-queue-store.ts:42-43 | with an advance at least every d ms that sees a car, joins in time order and a kept lease, until there is an offer, a driver with k ahead is offered a place within k * (15000 + d) ms, whatever others do |
| Fleet.CreateEffect | apps/web/app/drive-session-store.ts:38-106 | a granted create adds one created session on an offered, unexpired row of the user and turns that row accepted and the car reserved, nothing else |
| Fleet.NextKeepsValid | apps/gateway/src/postgres-store.ts:302-464 | every transaction of both services keeps: held cars are exclusive and never AVAILABLE, users are exclusive, queue rows and sessions are paired |
| Fleet.RunKeepsValid | apps/gateway/src/postgres-store.ts:302-464 | and so does every run |
| FleetLaws.CarsStayExclusive | apps/web/app/drive-session-store.ts:45-99 | over every interleaving from an empty database, an AVAILABLE car has no created, negotiating or active session, and no car has two |
| FleetLaws.EntriesStayPaired | apps/web/app/drive-session-store.ts:84-99 | over every run a queue row is accepted iff a held session names it, and no two sessions ever name the same row |
| FleetLaws.FinalRowsStay | apps/web/app/live-queue-store.ts:136-180 | no step changes or removes a missed, expired or left row |
| FleetLaws.FinalRowsStayForever | apps/web/app/live-queue-store.ts:136-180 | and no run does |
| FleetLaws.EndIsLocal | apps/gateway/src/postgres-store.ts:400-426 | supporting fact: ending a session touches no other held session, its car or its row, and ending it again changes nothing |
| FleetLaws.ActivationMeetsExpiry | apps/gateway/src/postgres-store.ts:22-34 | supporting fact: a negotiating session can be activated exactly when the expiry would spare it |
| FleetLaws.JoinAlwaysAnswers | apps/web/app/live-queue-store.ts:74-126 | joining and polling always answer; "expired" only after a missed offer nobody renewed, "ready" iff the stored row is offered |
| FleetLaws.CreateSucceedsIff | apps/web/app/drive-session-store.ts:38-93 | an offer becomes a drive iff it still stands at the second clock reading, the locked car's device is still fresh then, and the user has no held session |
| FleetExamples.RunOutSessionBlocks | apps/web/app/drive-session-store.ts:65-93 | a state reached from an empty database in which the offer stands, the car is free and the explicit check passes, and create refuses because of a run-out session not yet ended |
| FleetLaws.AcceptTakesOneCountedCar | apps/web/app/live-queue-store.ts:183-212 | supporting fact: the accepted car is counted as available at both clock readings and between them, and at any time the acceptance takes exactly this car out of the count |
| FleetLaws.AcceptDisturbsNobody | apps/web/app/drive-session-store.ts:40-99 | for any second clock reading, an advance at the time of the first changes nothing after an acceptance, and all other rows are still there |
| FleetLaws.AcceptCommutesIff | apps/web/app/drive-session-store.ts:76-99 | at any time from the first to the second reading, an advance after the acceptance treats everybody else as without it iff the queue and the cars counted then left room for the driver |
| FleetLaws.StepIsStatements | apps/web/app/live-queue-store.ts:74-141 | every transaction acts on the queue as its statements in order |
| FleetLaws.RunIsTrace | apps/web/app/live-queue-store.ts:74-141 | and every run as the concatenation |
| FleetLaws.OffersAreShort | apps/web/app/live-queue-store.ts:43 | in every reachable state no offer reaches more than 15 s past the latest clock read |
| FleetLaws.RunIsSane | apps/web/app/live-queue-store.ts:101-124 | over every run, at each statement the table is in order, inserted ids are new, only offered rows are accepted and only accepted ones closed |
| FleetLaws.WaitingIsBounded | apps/web/app/live-queue-store.ts:152-181 | the waiting bound over whole runs of both services from an empty database, with fairness asked only of what the services cannot see to and only until the offer |
| FleetEffects.EarlyRefusal | apps/web/app/drive-session-store.ts:40-74 | without an offer that runs past the first clock reading, without a car that can be locked, or with an unexpired held session on the car or the user, create refuses and leaves exactly the first advance |
| FleetEffects.LapsedRefusal | apps/web/app/drive-session-store.ts:76-81 | an offer that runs out between the two readings is refused and the queue advanced to the second: every live row left outlives it and the places are settled for the cars counted then |
| FleetEffects.LateRefusal | apps/web/app/drive-session-store.ts:82-93 | an offer that stands at both readings is refused, leaving the first advance, if the device has gone stale by the second or any session of the user has not been ended |
| FleetEffects.Grant | apps/web/app/drive-session-store.ts:82-99 | otherwise the user gets a created session on the car, reserved, for five minutes from the second reading |
| FleetEffects.PollAfterMiss | apps/web/app/live-queue-store.ts:103-124 | a poll by a user with no live row and no drive adds no row and shows "expired" with the id of their last row if that row is missed, and else puts them in line |
| FleetEffects.JoinIsNeverHeldBack | apps/web/app/live-queue-store.ts:101-124 | pressing join always ends with a live row and an answer other than "expired", after a miss too |
| FleetEffects.JoinerQueuesUp | apps/web/app/live-queue-store.ts:115-118 | whoever is put in line gets a new row that joined now, waiting or offered |
| FleetEffects.FirstComeFirstOffered | apps/web/app/live-queue-store.ts:155-178 | told by joined-at and id: after an advance nobody is offered a place while a live row that came first waits, and whoever came first has fewer live rows ahead |
| FleetEffects.DriverIsAnswered | apps/web/app/live-queue-store.ts:81-99 | supporting fact: a user who drives is shown the row of their drive, and the queue is only advanced |
| FleetEffects.AnswersCount | apps/web/app/live-queue-store.ts:92-93 | supporting fact: every answer gives the live rows and the free cars at the end of the transaction |
| FleetEffects.LeaveEffect | apps/web/app/live-queue-store.ts:131-141 | supporting fact: leaving marks exactly the live rows of the user as left now, and the queue is advanced |
| FleetEffects.CarCountsIff | apps/web/app/live-queue-store.ts:183-212 | a car is counted iff it is AVAILABLE and not blocked, an AVAILABLE device of its own was heard of within 15 s, and no held session that still runs is on it |
| FleetEffects.LockedIff | apps/web/app/drive-session-store.ts:43-63 | supporting fact: the car and device that create can lock, told from the rows |
| FleetEffects.AuthorizeIff | apps/gateway/src/postgres-store.ts:359-378 | supporting fact: who can authorize which session until when, and all that changes then |
| FleetEffects.ActivateIff | apps/gateway/src/postgres-store.ts:380-398 | supporting fact: which session can be marked active until when, and all that changes then |
| FleetEffects.ExpiryIff | apps/gateway/src/postgres-store.ts:22-34 | supporting fact: a session is ended by the expiry iff it has run out, or is not active and was last touched 20 s ago; others stay as they were |
| FleetEffects.ExpiryRestores | apps/gateway/src/postgres-store.ts:36-48 | the car of every session that expires goes to ADMIN_BLOCKED if blocked, to the state of the device heard of last if that was within 15 s, and else to OFFLINE |
| FleetEffects.EndEffect | apps/gateway/src/postgres-store.ts:400-426 | the same for a session that is ended; its row is left, and no other row, session or device changes |
| FleetEffects.AuthenticateEffect | apps/gateway/src/postgres-store.ts:145-161 | supporting fact: the device and its car, unless blocked, become INITIALIZING and nothing else changes |
| FleetEffects.PresenceEffect | apps/gateway/src/postgres-store.ts:302-329 | supporting fact: a presence report reaches the car exactly while no held session is on it |
| FleetEffects.OfflineEffect | apps/gateway/src/postgres-store.ts:331-345 | supporting fact: a lost device takes its car offline, in a session or not, unless it is blocked |
| FleetStore.AdvanceTable | apps/web/app/live-queue-store.ts:152-181 | the row-by-row loop computes the advance and returns its survivors |
| FleetStore.Store.JoinOrRefresh | apps/web/app/live-queue-store.ts:74-126 | the new tables and the answer of join and read |
| FleetStore.Store.Leave | apps/web/app/live-queue-store.ts:131-141 | the new tables of leave; the user has no live row afterwards |
| FleetStore.Store.Create | apps/web/app/drive-session-store.ts:33-107 | the new tables of create, when it grants, and the session it grants |
| FleetStore.Store.AuthorizeDriveSession | apps/gateway/src/postgres-store.ts:359-378 | only a created, unexpired session of this user and car becomes negotiating |
| FleetStore.Store.MarkDriveSessionActive | apps/gateway/src/postgres-store.ts:380-398 | marks exactly a negotiating session that the expiry would spare |
| FleetStore.Store.EndDriveSession | apps/gateway/src/postgres-store.ts:400-426 | ends a held session once, with its row and car |
| FleetStore.Store.ExpireDriveSessions | apps/gateway/src/postgres-store.ts:428-464 | the loop ends exactly the due sessions; no held session is due afterwards |
| FleetStore.Store.AuthenticateDevice | apps/gateway/src/postgres-store.ts:145-161 | the device and its unblocked car become INITIALIZING |
| FleetStore.Store.SetPresenceState | apps/gateway/src/postgres-store.ts:302-329 | device first; the car follows only while no session holds it |
| FleetStore.Store.MarkDeviceOffline | apps/gateway/src/postgres-store.ts:331-345 | device first; the car goes offline unconditionally |
| Registry.ApplyKeepsValid | apps/gateway/src/sessions.ts:36-145 | sessions and the per-car index stay mutual inverses, and every car in session has a device |
| Registry.SweepEndsLapsed | apps/gateway/src/sessions.ts:122-134 | a sweep ends and reports exactly the lapsed sessions and leaves the others as they were |
| Registry.SessionIsToldInFull | apps/gateway/src/sessions.ts:51-145 | over every run, all ever sent about a session is, in this order: a start to its device, the same start to its browser, what is relayed between these two (offers to the device, answers to the browser), and last its ends: device then browser, the browser alone if the device was lost, the browser twice if the car's device ended it |
| Registry.EndedSessionsAreCounted | apps/gateway/src/sessions.ts:136-145 | counted: one session.end to the browser, two if the car's device ended it, and one to the starting device unless that ended it or was lost |
| Registry.ReplacedDeviceIsNotTold | apps/gateway/src/sessions.ts:36-40 | runs in which the connection that replaced a device ends the session, or drops, and the starting device is sent no session.end |
| Registry.RelayedMessagesArrive | apps/gateway/src/sessions.ts:78-93 | supporting fact: a message of a live session reaches exactly the other side and changes nothing else; one for another session, or of a kind its side may not send, changes nothing |
| Registry.AttachingDevice | apps/gateway/src/sessions.ts:36-40 | supporting fact: the device serves the car; the connection it replaces is closed iff it is another |
| Registry.DetachingDevice | apps/gateway/src/sessions.ts:42-49 | only the connection that serves the car detaches; the session on that car is then over, reported and told to its browser |
| Registry.AttachingBrowser | apps/gateway/src/sessions.ts:51-76 | a browser attaches iff its session is not there, its car has a device and no session is on that car; the session then starts unconnected with both peers and its deadline |
| Registry.EndingSession | apps/gateway/src/sessions.ts:103-105 | supporting fact: both peers are told the reason, the device first, and the car is free; ending what is not there does nothing |
| Registry.RelayedEndsEnd | apps/gateway/src/sessions.ts:78-93 | a relayed end reaches the other side, ends the session and is told to the browser with the same reason |
| Registry.TelemetryArrives | apps/gateway/src/sessions.ts:95-101 | telemetry of a car reaches the browser of the session on it, under its name, and nobody if there is none |
| Registry.LapsedIff | apps/gateway/src/sessions.ts:124-128 | supporting fact: a session lapses at its deadline, or 20 s after it attached if not connected by then |
| Registry.MarkingConnected | apps/gateway/src/sessions.ts:115-120 | supporting fact: a session can be marked for 20 s after it attached, and the first time stays |
| Registry.SweepTellsWhy | apps/gateway/src/sessions.ts:128-131 | every session a sweep ends is told to both sides with its reason: timed out if it never connected within 20 s, else expired |
| Registry.ApplyIsTold | apps/gateway/src/sessions.ts:51-145 | each operation carries that account of every session on |
| Registry.SessionRegistry.AttachBrowserTo | apps/gateway/src/sessions.ts:51-76 | when a browser is attached, the new maps and the two starts sent |
| Registry.SessionRegistry.DetachDeviceFrom | apps/gateway/src/sessions.ts:42-49 | only the current peer detaches; its car's session ends without telling the device |
| Registry.SessionRegistry.RelayBrowser | apps/gateway/src/sessions.ts:78-84 | what a browser may relay and its effect |
| Registry.SessionRegistry.RelayDevice | apps/gateway/src/sessions.ts:86-93 | what a device may relay and its effect |
| Registry.SessionRegistry.MarkConnectedAt | apps/gateway/src/sessions.ts:115-120 | when a session is marked connected; the first time stays |
| Registry.SessionRegistry.SweepLapsed | apps/gateway/src/sessions.ts:122-134 | the sweep's loop |
| Gateway.NextKeepsInv | apps/gateway/src/server.ts:136-224 | every cut of every handler keeps: a session negotiating or active in the database is being attached, in the registry, or owed an end |
| Gateway.ActivationMeetsRegistry | apps/gateway/src/server.ts:212-218 | whenever the database would activate a session, neither of its registry deadlines has passed |
| Gateway.MarkingFailsOnlyIfGone | apps/gateway/src/server.ts:212-218 | after the database marked a session active, marking it connected fails iff the registry has already ended it |
| Gateway.NoSessionIsLeftBehind | apps/gateway/src/server.ts:136-224 | with no handler in between and no end owed, active in the database implies connected in the registry, negotiating implies in the registry |
| Gateway.ConnectedOrEnded | apps/gateway/src/server.ts:212-224 | supporting fact: after the session.connected handler and the end it may owe, the session is connected or ended, even if a sweep ran between its two calls |
| Gateway.OnlyGoneSessionsAreOwed | apps/gateway/src/server.ts:136-224 | over every run, an end is owed only to sessions that are gone from the registry and not being attached |
| Gateway.OnlyEndsOweEnds | apps/gateway/src/server.ts:194-211 | supporting fact: relaying a message other than an end, from either side, owes no end and touches no session |
| Gateway.EndsAreOwed | apps/gateway/src/server.ts:194-250 | supporting fact: a relayed end and a closed browser connection owe the database an end |
| Gateway.UndisturbedDriveConnects | apps/gateway/src/server.ts:136-224 | a created session of the user, on a car with a device and without a session, is active in the database and connected in the registry, with no end owed, if its four steps follow within 20 s and before its deadline |
| Gateway.GatewayTellsEverySession | apps/gateway/src/server.ts:136-166 | every gateway run attaches each session at most once, so its messages are told in full, also when one socket is a device's and a browser's |
| AdaptiveVideo.StepKeepsValid | apps/web/app/adaptive-video.ts:220-354 | every event keeps the controller's invariant and changes the profile only by an effective acknowledgement |
| AdaptiveVideo.AdaptiveVideoPolicy.ObserveReport | apps/web/app/adaptive-video.ts:220-259 | the new state and the request of a bandwidth report |
| AdaptiveVideo.AdaptiveVideoPolicy.ObserveSample | apps/web/app/adaptive-video.ts:286-341 | the new state and the request of a stats sample |
| AdaptiveVideo.AdaptiveVideoPolicy.AcknowledgeProfile | apps/web/app/adaptive-video.ts:343-354 | the new state of an acknowledgement, late ones included |
| VideoLaw.StepObeysLaw | apps/web/app/adaptive-video.ts:220-354 | what one event may do to every counter and start time |
| VideoEvidence.EveryRunHasTrace | apps/web/app/adaptive-video.ts:189-217 | any events, from any valid state, make a run, so the run-level results cover all of them |
| VideoEvidence.RequestsAreSupported | apps/web/app/adaptive-video.ts:277-284 | every request is a supported profile other than the current one, and only its acknowledgement changes the profile |
| VideoEvidence.RequestsAreSpaced | apps/web/app/adaptive-video.ts:269-284 | two requests with no effective acknowledgement between them are at least 5000 ms apart |
| VideoEvidence.RequestsAreCapped | apps/web/app/adaptive-video.ts:277-284 | n effective acknowledgements allow at most 3 * (n + 1) requests, and n is at most the number of requests, for any clocks |
| VideoEvidence.ReportRequestsHaveEvidence | apps/web/app/adaptive-video.ts:220-259 | a request on a report is the best fit below, after an unbroken run of valid low reports for 1000 ms or severe ones for 500 ms |
| VideoEvidence.LowRunKeepsProfile | apps/web/app/adaptive-video.ts:241-258 | all reports of such a run were judged against one current profile |
| VideoEvidence.BestFitIsBest | apps/web/app/adaptive-video.ts:246 | the target is the best lower profile the estimate covers, or the lowest |
| VideoEvidence.SampleDowngradesHaveEvidence | apps/web/app/adaptive-video.ts:326-340 | a downgrade on a sample follows three consecutive counted impaired samples; one for fewer pixels, three with a low frame rate |
| VideoEvidence.FirstBelowIsBest | apps/web/app/adaptive-video.ts:328-333 | the profile for fewer pixels is the best one with a smaller height |
| VideoEvidence.SampleRequestsAreSettled | apps/web/app/adaptive-video.ts:286-303 | a request on a sample comes after 3000 ms of sampling without a gap and, before any report, 8000 ms after the last change of profile |
| VideoEvidence.UpgradesHaveEvidence | apps/web/app/adaptive-video.ts:312-340 | an upgrade goes one place up, after 6000 ms in which every sample looked at counted, was healthy and in budget, and every report kept the budget |
| VideoPrompt.PoorStreaksAreAnswered | apps/web/app/adaptive-video.ts:318-340 | the third counted impaired sample of a streak is answered with a downgrade if one can be asked for |
| VideoPrompt.LowRunsAreAnswered | apps/web/app/adaptive-video.ts:241-258 | a low run of 1000 ms, or a severe one of 500 ms, with nothing pending or asked, is answered with the best fit |
| VideoPrompt.GoodRunsAreAnswered | apps/web/app/adaptive-video.ts:318-340 | a good run of 6000 ms with nothing asked is answered with the next better profile |
| VideoReadings.ReadingsMean | apps/web/app/adaptive-video.ts:306-319 | supporting fact: the limits of a bad, a good and a low-frame sample in numbers |
| VideoReadings.ProfilesAreGraded | apps/web/app/adaptive-video.ts:26-33 | supporting fact: the table of profiles: better ones need strictly more and show no fewer lines |
| VideoReadings.DowngradesRestOnReadings | apps/web/app/adaptive-video.ts:306-340 | a downgrade on a sample rests on three consecutive counted samples, each stalled, under 21 fps, or over 250 ms round trip, 50 ms jitter, 5 % loss or 150 ms buffer; it goes to the best profile below or, if all three were under 21 fps, to the best one with fewer pixels |
| VideoReadings.BadSamplesAreAnswered | apps/web/app/adaptive-video.ts:306-340 | three such samples with only quiet events between them are answered with exactly that profile, as long as fewer than three requests are unanswered and a worse profile is supported |
| VideoReadings.UpgradesRestOnReadings | apps/web/app/adaptive-video.ts:306-340 | an upgrade goes one place up and rests on 6000 ms in which every sample looked at counted, had at least 21 fps, under 160 ms round trip, 25 ms jitter, 1 % loss and 80 ms buffer (or none told), and the last report, if there was any, was at most 1500 ms old and covered the next profile one and a quarter times |
| VideoReadings.GoodReadingsAreAnswered | apps/web/app/adaptive-video.ts:306-340 | and such 6000 ms are answered with the next better profile, unless there is none, something was asked meanwhile, or three requests are unanswered |
| VideoReadings.ReportRequestsRestOnNumbers | apps/web/app/adaptive-video.ts:220-259 | a request on a report goes to the best worse profile its estimate covers (or the last) after valid reports at most 1500 ms apart, all below the current minimum for 1000 ms, or for 500 ms all below 650 kbit/s with a profile passed over and fewer pixels |
| VideoReadings.ShortagesAreAnswered | apps/web/app/adaptive-video.ts:220-259 | and such reports are answered, if the first found no request of the last 5000 ms outstanding, nothing was asked since and fewer than three requests are unanswered |
| VideoReadings.CountsMean | apps/web/app/adaptive-video.ts:286-303 | which samples count, told from the events and requests alone: 750 ms apart, after 3000 ms without a gap over 3000 ms, no request of the last 5000 ms outstanding, and before any report 8000 ms after a change |
| VideoReadings.ChangesMean | apps/web/app/adaptive-video.ts:343-354 | the profile changes iff the request made last is acknowledged, however late, and then to the profile it asked for |
| VideoSteady.SteadyLinkNeverSwings | apps/web/app/adaptive-video.ts:242-267 | from any state whose outstanding request, if any, fits the link: with one estimate and no impaired sample an affordable profile only rises, to affordable ones; an unaffordable one moves once, to its best fit, and nothing is asked after that |
| VideoSteady.OneWayIff | apps/web/app/adaptive-video.ts:343-354 | every steady run from a state obeys that law iff nothing is outstanding or what is outstanding fits the link |
| VideoSteady.StaleRequestChangesOnce | apps/web/app/adaptive-video.ts:343-354 | from any state with feedback, the profile changes against the law at most once, by acknowledging the request outstanding at the start; from then on the law holds |
| VideoSteady.StaleRequestIsReal | apps/web/app/adaptive-video.ts:343-354 | there is a run from the start in which such a late acknowledgement lowers an affordable profile, from where the way back up is justified |
| Ledger.BalanceByLots | packages/domain/src/ledger.ts:94-113 | the balance is the sum over the wallet's live lots of what each holds |
| Ledger.BalanceIsCovered | packages/domain/src/ledger.ts:134-136 | if every entry names a lot of the wallet, the live lots can give the whole balance, so the closing throw is unreachable |
| Ledger.DebitIsExact | packages/domain/src/ledger.ts:138-180 | the debit covers the amount iff the live lots can give it, and lowers the balance by exactly what it took |
| Ledger.PlanSparesLots | packages/domain/src/ledger.ts:152-175 | no lot is driven below zero |
| Ledger.FirstToExpireIsOptimal | packages/domain/src/ledger.ts:140-175 | no other way to take the same seconds from the live lots leaves a larger balance at any later time |
| Ledger.PlanIsAlternative | packages/domain/src/ledger.ts:140-175 | the debit is itself one of the ways it is compared with |
| LedgerOrder.DebitGoesFirstInFirstOut | packages/domain/src/ledger.ts:138-175 | told by expiry and creation: a debit takes only from usable lots, and from a lot only if every usable lot that expires earlier, or expires with it and was created earlier, or agrees in both and was added earlier, has nothing left |
| LedgerOrder.BalanceCounts | packages/domain/src/ledger.ts:94-113 | supporting fact: an entry counts in the balance of its wallet iff it names no lot of the wallet that has run out |
| LedgerOrder.LotBalanceCounts | packages/domain/src/ledger.ts:156-158 | supporting fact: and in what is left of a lot iff it names the wallet and the lot |
| LedgerOrder.PlanInFull | packages/domain/src/ledger.ts:163-171 | supporting fact: every field of the entries a debit appends |
| LedgerOrder.DigitsAreDecimal | packages/domain/src/ledger.ts:168 | supporting fact: they are numbered in decimal |
| WalletLedger.TakenForDoneIff | packages/domain/src/ledger.ts:123-128 | a debit is taken for done iff some entry, of any kind, has a key that is the debit's, a colon and something more |
| WalletLedger.DebitEntryIff | packages/domain/src/ledger.ts:123-128 | among debits: an entry is taken for another debit's iff the keys are equal or the first extends the second by a colon |
| WalletLedger.RepeatReturnsSame | packages/domain/src/ledger.ts:123-128 | a repeated debit finds exactly its own entries iff nothing appended since, by whatever call, has a key that extends the debit's by a colon |
| WalletLedger.RepeatAfterOtherDebits | packages/domain/src/ledger.ts:123-128 | in particular if only debits with unrelated keys came between |
| WalletLedger.UnassignedCreditTrapsDebit | packages/domain/src/ledger.ts:177-179 | a credit with no lot makes the closing throw reachable, with entries already appended |
| WalletLedger.ExtendedKeySwallowsDebit | packages/domain/src/ledger.ts:123-128 | a debit with key "ride" finds an entry of the debit "ride:extra" |
| WalletLedger.ExtendedCreditSwallowsDebit | packages/domain/src/ledger.ts:123-128 | and returns the credit "ride:refund" as its own entry |
| WalletLedger.TrimIsBetween | packages/domain/src/ledger.ts:74 | supporting fact: the reason that is measured is the part between the blanks at its ends |
| WalletLedger.TimeLedger.AddLot | packages/domain/src/ledger.ts:55-64 | when a lot is refused and why; otherwise it is added |
| WalletLedger.TimeLedger.Append | packages/domain/src/ledger.ts:66-92 | one entry per key, the errors in order, and the entry appended |
| WalletLedger.TimeLedger.DebitFifo | packages/domain/src/ledger.ts:115-181 | every outcome of a debit: repeated, refused, covered, or short; in each, what was lost went first to expire and first in, first out, and only entries of this debit were appended |
| KeyboardDrive.AliasesAgree | apps/web/app/keyboard-control.ts:9-60 | supporting fact: codes of one key are interchangeable, unknown codes do nothing |
| KeyboardDrive.OppositesCancel | apps/web/app/keyboard-control.ts:36-53 | supporting fact: opposite keys cancel, Nitro needs forward drive, and each axis is -1, 0 or 1 |
| KeyboardDrive.KeysMean | apps/web/app/keyboard-control.ts:9-53 | each axis and Nitro by key codes: left is -1, forward is 1, and Nitro needs forward without reverse |
| KeyboardDrive.PressingIsHeld | apps/web/app/keyboard-control.ts:25-34 | supporting fact: pressing and releasing change the one code |
| KeyboardDrive.RampFills | apps/web/app/keyboard-drive-model.ts:31-34 | supporting fact: a turn fills in up to 450 ms, 600 ms with Nitro, in proportion to the gas held before it, up to a second |
| KeyboardDrive.ProgressIsLinear | apps/web/app/keyboard-drive-model.ts:49-52 | supporting fact: how far a turn has got at a time |
| KeyboardDrive.NowIsLatest | apps/web/app/keyboard-drive-model.ts:66-69 | supporting fact: the clock is the latest finite reading so far, and never below zero |
| KeyboardDrive.OutputIsClosedForm | apps/web/app/keyboard-drive-model.ts:20-69 | after any history with any clocks the output is what the history of intents means: the starts of the gas, reverse and turn runs, Nitro at turn start, gas release within the turn |
| KeyboardDrive.MeaningIsUnique | apps/web/app/keyboard-drive-model.ts:44-55 | that meaning fixes the output |
| KeyboardDrive.RepeatsAreSamples | apps/web/app/keyboard-drive-model.ts:20-42 | supporting fact: an update that leaves the intent as it is does exactly what a sample does |
| KeyboardDrive.BackwardClocksStandStill | apps/web/app/keyboard-drive-model.ts:66-69 | clocks that run backwards or are not finite act like clocks standing still |
| KeyboardDrive.TurnsOnlyGrow | apps/web/app/keyboard-drive-model.ts:44-55 | outputs stay within range and a turn only grows while time passes |
| KeyboardDrive.KeyboardDriveModel.UpdateKeys | apps/web/app/keyboard-drive-model.ts:20-42 | the new fields and output of an update |
| KeyboardDrive.KeyboardDriveModel.SampleAt | apps/web/app/keyboard-drive-model.ts:44-55 | the output of a sample, and that only the clock changes |
| ControlLoop.EveryFrameIsLawful | apps/web/app/control-loop.ts:81-219 | over every run: unarmed frames are zero; armed ones follow an accepted arm with no disarm or failure since, carry exactly the input since the last clearing and never go over HTTP; nothing on a backed-up channel; sequence numbers rise; an arm message only over bound channels, while unarmed, and if asked for since the last disarm or failure; armed iff so in the log |
| ControlLoop.ArmedFramesCarryTheLastInput | apps/web/app/control-loop.ts:75-181 | over every run, an armed frame's steering is the encoding of the steering last given since anything was cleared, clipped to one and 0 if not finite or never given; the throttle is that of the throttle last given; Nitro is the flag last given |
| ControlLoop.ClearedInputIsGone | apps/web/app/control-loop.ts:101-108 | input from before a clearing has no influence after it |
| ControlLoop.CongestionDisarms | apps/web/app/control-loop.ts:161-170 | a backed-up tick sends no frame, and disarms an armed loop iff at least 200 ms passed since the congestion was first seen |
| ControlLoop.FrameIsOnPairIff | apps/web/app/control-loop.ts:50-63 | over every run, an armed frame follows an arm over its own pair of channels iff no pair was bound within the present arm |
| ControlLoop.BindingUnarmedKeepsPair | apps/web/app/control-loop.ts:50-63 | if channels are bound only while the loop is unarmed, every armed frame follows an arm over its own pair |
| ControlLoop.BindingIsSafeIff | apps/web/app/control-loop.ts:50-63 | after a bind, the next frame on a sound channel is unarmed or on its own pair iff the loop was not armed at the bind |
| ControlLoop.RebindingKeepsArmed | apps/web/app/control-loop.ts:50-63 | a run from a fresh loop: bind, arm, bind another pair, and the next frame is armed with no arm over its pair |
| ControlLoop.DisarmAlwaysDisarms | apps/web/app/control-loop.ts:90-108 | supporting fact: a disarm leaves nothing armed, requested, provided or held, whatever the channels do |
| ControlLoop.DisarmTellsTheCar | apps/web/app/control-loop.ts:90-108 | supporting fact: on sound channels a disarm sends a neutral message and then one all-zero frame |
| ControlLoop.TickSendsOneFrame | apps/web/app/control-loop.ts:161-196 | supporting fact: a tick on a sound channel sends exactly one frame with the next number and what is held after asking the provider |
| ControlLoop.ArmingSucceedsIff | apps/web/app/control-loop.ts:85-126 | supporting fact: arming succeeds at once iff both channels are open and empty and the message can be sent |
| ControlLoop.AttemptsToArm | apps/web/app/control-loop.ts:50-126 | binding, arming and an opening channel are each noted and followed by one attempt, whose outcomes are spelt out |
| ControlLoop.InputIsTaken | apps/web/app/control-loop.ts:65-69 | supporting fact: a direct input is applied as it is and ends the timed one |
| ControlLoop.ClosingStops | apps/web/app/control-loop.ts:128-149 | supporting fact: a channel that closes or fails stops everything and leaves at most one neutral message |
| ControlLoop.ThrowingFrameStops | apps/web/app/control-loop.ts:186-193 | supporting fact: a frame that cannot be sent does the same |
| ControlLoop.HttpIsForUnboundLoops | apps/web/app/control-loop.ts:186-206 | supporting fact: a frame goes over HTTP iff no channels were bound and there is an address |
| ControlLoop.NeutralTellsTheCar | apps/web/app/control-loop.ts:101-108 | supporting fact: on sound channels a neutral call clears, tells the car and sends one frame, armed as before |
| ControlLoop.EncodingIsFaithful | apps/web/app/control-loop.ts:221-233 | supporting fact: the encoding is the nearest thousandth, the upper of two as near, in range and in order; or just the sign |
| ControlLoop.ThousandthsSurvive | apps/web/app/control-loop.ts:231-233 | supporting fact: every thousandth survives encoding and decoding |
| ControlLoop.BrowserControlLoop.TryToArm | apps/web/app/control-loop.ts:121-126 | the new state and messages of an arming attempt |
| ControlLoop.BrowserControlLoop.SendFrame | apps/web/app/control-loop.ts:161-206 | the new state and messages of a tick |
| ControlLoop.BrowserControlLoop.DisarmNow | apps/web/app/control-loop.ts:90-108 | the new state and messages of a disarm |
| RideAudio.EveryWriteIsOnTheLast | apps/web/app/audio-preferences-store.ts:31-40 | the server's revision is the number of accepted writes, and each was based on the revision before it |
| RideAudio.SavedMeansStored | apps/web/app/ride-audio-preferences.ts:104-142 | when the save loop ends with "saved", its last request is this client's last accepted write and none on its way can still be accepted |
| RideAudio.SavedMisleadsIff | apps/web/app/ride-audio-preferences.ts:54-74 | the client then holds another value than it wrote iff, while that request was awaited, a load arrived that found no edit standing on the account it was asked for, and the last such load left another value: the row it was served, or on a closed page what was there |
| RideAudio.SavedIsTrueWithoutSwitch | apps/web/app/ride-audio-preferences.ts:104-142 | over every run whose loads never switch the account, "saved" means the client's value is the one it wrote |
| RideAudio.UndisturbedSaveIsStored | apps/web/app/ride-audio-preferences.ts:104-142 | left undisturbed, a save loop with at most one conflict behind it stores its value and reports "saved", at the latest with the request after a conflict |
| RideAudio.EditIsStored | apps/web/app/ride-audio-preferences.ts:76-142 | an edit on an idle, loaded page, flushed and left undisturbed, is in the row when the loop says "saved", at the latest after one conflict |
| RideAudio.EditIsTaken | apps/web/app/ride-audio-preferences.ts:76-89 | supporting fact: what an edit changes, and when it is ignored |
| RideAudio.LoadIsTaken | apps/web/app/ride-audio-preferences.ts:54-74 | what a finished load shows, keeps, forgets and sends |
| RideAudio.AcceptedGoesOn | apps/web/app/ride-audio-preferences.ts:108-135 | supporting fact: after an accepted answer the loop ends, or sends what was edited meanwhile on the new revision |
| RideAudio.FailuresStopTheLoop | apps/web/app/ride-audio-preferences.ts:122-138 | supporting fact: which answers end the loop as not saved, with the value still to be sent |
| RideAudio.PercentIsNearest | apps/web/app/ride-audio-preferences.ts:78 | supporting fact: the stored per cent is the nearest to the level, within 0 to 100 |
| RideAudio.LateRequestsConflict | apps/web/app/audio-preferences-store.ts:32-38 | supporting fact: a request based on an old revision is never accepted again |
| RideAudio.RequestsAreBounded | apps/web/app/ride-audio-preferences.ts:104-142 | a save loop sends at most three requests more than there were edits during it |
| RideAudio.SwitchingAccountsCanMislead | apps/web/app/ride-audio-preferences.ts:54-74 | a concrete run in which "saved" is reported for a value never written |
| RideAudio.AudioPreferencesStore.SavePreferences | apps/web/app/audio-preferences-store.ts:31-40 | the compare-and-swap on the row's revision |
| RideAudio.RideAudioPreferences.ReceiveReply | apps/web/app/ride-audio-preferences.ts:124-141 | the save loop from the end of its await to the next one |
| RideAudio.RideAudioPreferences.ReceiveLoad | apps/web/app/ride-audio-preferences.ts:54-74 | what a finished load does |

## Left out

- SQL: isolation, row and advisory locks and query text; each transaction or lone statement is atomic, and a store
  call of the gateway is assumed not to fail.
- `setPresenceState`, `markDeviceOffline` and `recordHeartbeat` are cut into their statements for interleaving
  (`Fleet.DeviceStep`, `CarPresenceStep`, `CarOfflineStep`, `HeartbeatStep`); battery, health and metadata columns are not kept.
- FleetStore.Store.AuthenticateDevice: the credential check, hashing, tickets, update jobs, viewers, pings and TURN are not modelled.
- Operators: their blocking of cars is one step that flips the flag; writes of admin tools to sessions or to car states are not modelled.
- The queue's table is kept in the order of its index instead of being sorted by each select.
- AdaptiveVideo.AdaptiveVideoPolicy.constructor: an unsupported initial profile is excluded by a precondition where the source throws.
- `VideoStatsSampler`: samples are arbitrary values; NaN and infinities count as readings that are not finite.
- WalletLedger.TimeLedger.DebitFifo: `entries` metadata, ISO time strings and `localeCompare` are replaced by integers; the id factory is a function of the count.
- ControlLoop.BrowserControlLoop.SendFrame: steering trim, the session id and the protocol's message format are not modelled; a callback of
  the loop does not call back into it; `stop` is a disarm after which channels no longer report.
- RideAudio: parsing, HTTP statuses without preferences and disabled accounts are one refusal; the timers only decide when a flush or load comes.
- ControlLoop.RebindingKeepsArmed: channels are told apart only by when they were bound.
- Liveness across processes: a crash of the gateway loses its registry; `expireDriveSessions` then cleans the database, which is not stated.
- `packages/domain/src/queue.ts`, `rides.ts`, `state-machine.ts`, the edge safety gate, the outbox and device updates: table walks and single branches.
