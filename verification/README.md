# Notify hub: a verified model

The repository is a notification hub: agents post a notification, the hub fans it out to
named channel instances, and an admin panel edits the instances and profiles. Clients are a
Claude Code hook that announces finished tasks and a host-side player that speaks messages.
This project models the three parts that keep state, and the text formats that feed them,
and proves what they promise.

- **The idle-debounce protocol** (`Debounce`, `DebounceChains`, `DebounceProofs`, `StartTimes`,
  `DebounceRuns`, `SessionFiles`). Prompt processes, Stop processes and detached senders share
  three files of a session. Every clock read, every read, write or deletion of a file and both
  ends of a POST are separate steps, and a run is any interleaving of them.
- **The configuration store** (`Validation`, `Ordering`, `Store`, `Repositories`, `PutConfig`,
  `ConfigService`, `EntityIsPut`, `InterruptedPut`, `ConfigHandlers`, `Seeding`). Three SQLite
  tables with their constraints, the write-time validator, the whole-state PUT as four loops of
  separate calls, the entity operations and the first boot. Repositories and handlers are code
  that changes the tables in place, proved against functions on the tables; the theorems are
  about those functions.
- **The queues** (`Dispatch`, `QueueRuns`, `StoreRuns`, `SpeechQueue`). Fan-out and delivery over
  the synchronous queue, every run of the retrying queue beside panel edits, arbitrary ones in
  `QueueRuns` and completed operations on the store in `StoreRuns`, and the speech queue.
- **Text formats** (`Text`, `Slug`, `Tokens`, `HookEnv`, `Voices`, `Panel`). Slugs, the TOKENS
  variable, `hook.env`, the `say -v '?'` listing, and the panel's payload.

`dafny verify dfyconfig.toml` checks everything.

## Where the code does less than its documents say

- *Only the newest Stop sends* (requirement HOOK-06.3, restated at
  `clients/claude-code/notify-hook.mjs:261-268`). A sender decides, posts and then deletes
  whatever the pending file holds. A newer Stop written in that window is erased and never
  posted. `NewestStopCanBeErased` gives such a run for every idle window; `FateTheorem` gives the
  exact condition for every Stop. An older hook process that is slow to write can also replace a
  newer entry (`OlderStopCanSupersede`).
- *A prompt before the deferred send cancels it* (requirement HOOK-06.2). Exactly when the last
  marker written before the sender's activity read is that of a prompt newer than the Stop
  (`CancelSignal`). A prompt after that read comes too late (`LatePromptDoesNotCancel`), and a
  slower older prompt can overwrite a newer marker (`SlowPromptUndoesCancel`).
- *The start time shown is the session's* (requirement HOOK-06.3). A Stop that finds a start time
  consumes it, so a second Stop may have none. `DurationIffCached` says exactly when one is
  shown; `StartLostToEarlierStop` loses one that no Stop had read.
- *Stops in quick succession collapse into one message.* By the gaps between their writes of the
  pending file (`BurstCollapse`), not between their timestamps (`LateWriteEscapesBurst`);
  `FateTheorem` is exact for each of them.
- *"Atomicity comes from never writing until every check has passed"* (`src/admin/config-validation.ts:4-8`).
  A valid payload can still hit the unique token halfway (`ValidPutCanThrow`); `PutTheorem` says
  exactly when a valid PUT completes. What it leaves otherwise may break the validator's own rule
  (`InterruptedPutCanBreakRule`); `PutLeavesValidStoreIff` says exactly when it does not.
- *Seeding is a one-time migration* (`src/db/seed-from-env.ts:1-9`). It can throw halfway
  (`FreshSeedCompletesIff` says when), and if any channel type was enabled no later boot seeds the
  profiles that are missing (`SeededOnce`).

The validator does not look for repeated profile ids. `PutTheorem` therefore covers payloads that
repeat one (the last entry counts); `RequestedExactIff` says when every entry is held as it stands.

## Assumptions

- In one session the clock reads of Stops and the second clock reads of prompts are strictly
  increasing, a single file read, write or deletion is one step, and writes to the cache files
  succeed; the window is the same for a Stop and its sender, and a gateway address is set
  (`SessionFiles` covers the runs without one).
- `created_at` is a natural number; ids are ordered character by character.
- The required-key registry, the known channel types, lower-casing, what a send answers and all
  clock readings are parameters, so the theorems hold for any of them.
- The retrying queue is known by its contract only: a bounded number of attempts, and jobs whose
  attempts are exhausted are kept.

## Model

| member | source | states |
|---|---|---|
| `DebounceProofs.FateTheorem` | clients/claude-code/notify-hook.mjs:595-665 | In every interleaving, each debounced Stop whose sender has finished has exactly one fate read off the order of events alone (cancelled, because the last prompt to write the marker before the sender read it had read its clock after the Stop; replaced by another Stop's later write; erased by an older sender; or posted), and the gateway received it once if that fate is "posted" and never otherwise |
| `DebounceProofs.PostIsJustified` | clients/claude-code/notify-hook.mjs:595-665 | When the sender of Stop s starts its POST: the prompt that last wrote the marker before the activity read, if any, had read its clock before the Stop did; no other Stop wrote or deleted the pending entry between the write and the pending read; the idle window has passed since the write; and the gateway is sent one message, the one Stop s wrote, with the Stop's own time as its end and the headline the Stop was given |
| `DebounceProofs.UndisturbedStopIsPosted` | clients/claude-code/notify-hook.mjs:269-317 | A finished Stop that no newer prompt follows, no other Stop replaces and no older sender's read-to-delete window contains has been posted exactly once |
| `DebounceProofs.StopNeverStuck` | clients/claude-code/notify-hook.mjs:595-665 | In every reachable state the next action of an unfinished Stop or its sender can happen: no Stop is left without a fate because the protocol blocks |
| `DebounceProofs.PromptNeverStuck` | clients/claude-code/notify-hook.mjs:595-608 | Nor is a prompt ever blocked between its four actions |
| `DebounceProofs.DecisionMatchesFate` | clients/claude-code/notify-hook.mjs:309-317 | The two comparisons of `shouldDeferredSend` decide to send exactly when the fate is "posted", and the payload it then holds is the one its own Stop wrote |
| `DebounceProofs.CancelSignal` | clients/claude-code/notify-hook.mjs:213-255 | The marker a sender reads is newer than its Stop if and only if the last activity write before that read is by a prompt that read its clock after the Stop |
| `DebounceProofs.InOrderAnyPromptCancels` | clients/claude-code/notify-hook.mjs:604-608 | As long as prompts write their markers in the order of their clock reads, any newer prompt recorded before the activity read cancels |
| `DebounceProofs.PendingSignal` | clients/claude-code/notify-hook.mjs:269-299 | The pending file read by a sender is its own if and only if no other Stop replaced it and no older sender erased it since it was written |
| `DebounceChains.LostForGood` | clients/claude-code/notify-hook.mjs:269-299 | Once another chain has written or deleted the pending file it never again names Stop s |
| `DebounceChains.MarkerIsLastWrite` | clients/claude-code/notify-hook.mjs:213-224 | The activity marker holds the time read earlier by the prompt that wrote it last, and nothing else |
| `DebounceProofs.DeleteMeansErased` | clients/claude-code/notify-hook.mjs:652-664 | A deletion that hits a newer Stop's entry, with no third Stop in between, comes from a sender that had read the pending file before that entry was written |
| `DebounceRuns.NewestStopCanBeErased` | clients/claude-code/notify-hook.mjs:652-664 | The exception is real for every idle window: a run without prompts in which the newest Stop, also the last to write, is never posted, because the older sender's clean-up deletes its entry |
| `DebounceRuns.OlderStopCanSupersede` | clients/claude-code/notify-hook.mjs:625-632 | Without any deletion the newest Stop can still be lost: a hook process delayed between its clock read and its write replaces the newer entry |
| `DebounceRuns.LatePromptDoesNotCancel` | clients/claude-code/notify-hook.mjs:652-660 | A prompt cancels only up to the sender's activity read: for every idle window one recorded between that read and the POST leaves the Stop posted |
| `DebounceRuns.SlowPromptUndoesCancel` | clients/claude-code/notify-hook.mjs:604-608 | The marker can go back: for every idle window there is a run in which a newer prompt is recorded before the activity read, a slower older one overwrites it, and the Stop is posted |
| `DebounceProofs.BurstCollapse` | clients/claude-code/notify-hook.mjs:621-665 | Of Stops whose writes of the pending file are less than the idle window apart, however many, at most one is ever posted and it is the last |
| `DebounceProofs.SupersededInTime` | clients/claude-code/notify-hook.mjs:309-317 | A Stop whose pending entry is overwritten by another Stop less than the idle window after it was written is never posted, whatever else happens |
| `DebounceRuns.LateWriteEscapesBurst` | clients/claude-code/notify-hook.mjs:625-632 | Measured between timestamps the claim fails: for every window above 1 two Stops one apart are both posted when the second writes late |
| `DebounceProofs.IdleElapsed` | clients/claude-code/notify-hook.mjs:647-650 | A sender past its sleep is at least the idle window later than the write of its Stop |
| `DebounceChains.AtMostOnce` | clients/claude-code/notify-hook.mjs:595-665 | No action of the chain of one Stop happens twice in a run |
| `StartTimes.DurationIffCached` | clients/claude-code/notify-hook.mjs:172-191 | A message carries a duration if and only if a start time is cached before the Stop's start read: going backwards, a prompt's write caches one, and an unlink takes it away only when the unlinking Stop's own read had found one |
| `StartTimes.CachedSignal` | clients/claude-code/notify-hook.mjs:172-208 | The start file is there exactly when the order of writes, reads and unlinks says so, in every interleaving |
| `StartTimes.DurationSinceLastStart` | clients/claude-code/notify-hook.mjs:524-536 | A duration that is there runs from the time read by the prompt that wrote the start file last, and is not negative when that prompt read its clock before the Stop did |
| `StartTimes.LaterStopLosesStart` | clients/claude-code/notify-hook.mjs:172-191 | In the plain sequence, a Stop that reads after an earlier Stop's unlink with no start written since that Stop's own read finds none |
| `DebounceRuns.StartLostToEarlierStop` | clients/claude-code/notify-hook.mjs:172-191 | A prompt's start can be lost though no Stop ever reads it: a Stop that read before the prompt wrote unlinks afterwards |
| `SessionFiles.Session.Run` | clients/claude-code/notify-hook.mjs:595-637 | One hook invocation, for each of the three event names and any other: which files change and to what, and which message, with its end time, duration and headline, is sent now or left in the pending file, for every toggle, address, session and window; a prompt's own message has an empty headline and no duration |
| `SessionFiles.Session.RunDeferredSend` | clients/claude-code/notify-hook.mjs:647-665 | Run alone, a sender posts and clears the pending entry exactly when it is its own and no newer prompt was recorded; otherwise it leaves every file as it was |
| `SessionFiles.Session.ReadAndClearStartTime` | clients/claude-code/notify-hook.mjs:172-191 | The start time is handed out once and gone afterwards |
| `Validation.VerdictIffRule` | src/admin/config-validation.ts:38-119 | The early-returning loops accept exactly the payloads that keep the declarative rule (slug ids, unique ids, known types, required keys not blank when enabled, defaults existing and enabled, unique tokens) |
| `Validation.RejectionNamesFirstFailure` | src/admin/config-validation.ts:107-119 | A rejection names the first failure in the declarative rule's own terms: the first channel in array order that fails one of its checks, and of those checks the first, with the first missing key; or, when all channels pass, the first profile likewise, with the first bad default |
| `Validation.VerdictPermutes` | src/admin/config-validation.ts:38-119 | Reordering channels, profiles or the defaults of a profile never changes whether a payload is accepted |
| `Validation.FirstBadChannel` | src/admin/config-validation.ts:38-76 | A rejecting channel loop reports a channel all of whose predecessors are clean |
| `Validation.FirstBadProfile` | src/admin/config-validation.ts:78-105 | A rejecting profile loop reports a profile all of whose predecessors are clean |
| `Validation.ValidateChannels` | src/admin/config-validation.ts:38-76 | The loop over channels with its seen-id set gives the verdict defined entry by entry |
| `Validation.ValidateProfiles` | src/admin/config-validation.ts:78-105 | The loop over profiles with its seen-token set and nested loop over defaults gives the verdict defined entry by entry |
| `Validation.ValidateConfigPayload` | src/admin/config-validation.ts:108-119 | Accepts if and only if the declarative rule holds; channels are reported before profiles |
| `Ordering.OrderedIsListing` | src/db/sqlite-channel-repository.ts:35-40 | A listing by creation time and id holds every row once, in strictly increasing order |
| `Ordering.StringBeforeIsDictionary` | src/db/sqlite-channel-repository.ts:35-40 | The order of ids is dictionary order: one is a proper prefix of the other, or the first character where they differ decides |
| `Store.ChannelsListedInOrder` | src/db/sqlite-channel-repository.ts:35-40 | Of two channels listed, the earlier one was created no later, and if at the same time has the id that is first in dictionary order |
| `Store.ProfilesListedInOrder` | src/db/sqlite-profile-repository.ts:41-46 | The same for profiles |
| `Store.DefaultsListedInOrder` | src/db/sqlite-profile-repository.ts:23-30 | The default channels of a profile are listed in dictionary order |
| `Store.PlayKeepsIntegrity` | src/db/sqlite-profile-repository.ts:65-106 | Between any two repository calls, and after a sequence cut short by a throw, tokens are distinct and every default names an existing profile and channel |
| `Store.PlayConcat` | src/admin/routes/config-routes.ts:52-63 | Two sequences of calls in a row do what the second does to the result of the first, unless the first throws |
| `Store.ThrowEnds` | src/admin/routes/config-routes.ts:55-57 | A constraint violation ends the sequence: nothing after it is written and nothing before it is undone |
| `Store.ListChannelsIsTable` | src/db/sqlite-channel-repository.ts:35-40 | A channel listing holds each row of the table once and nothing else |
| `Store.ListProfilesIsTable` | src/db/sqlite-profile-repository.ts:41-46 | A profile listing holds each row of the table once, with its defaults, and nothing else |
| `Store.ListDefaultsIsSet` | src/db/sqlite-profile-repository.ts:23-30 | The default channels of a profile come back as the set of its links, each once |
| `Repositories.ChannelRepository.List` | src/db/sqlite-channel-repository.ts:35-40 | All rows with their fields, oldest first, those created at one time in dictionary order of their ids |
| `Repositories.ChannelRepository.ListEnabled` | src/db/sqlite-channel-repository.ts:42-47 | The enabled rows and no others, in the same order |
| `Repositories.ChannelRepository.Upsert` | src/db/sqlite-channel-repository.ts:56-75 | Inserts with the time of the call, or updates in place keeping the creation time; the row has the fields given, and no other row or link changes |
| `Repositories.ChannelRepository.Delete` | src/db/sqlite-channel-repository.ts:77-79 | Removes the row and, where the foreign key cascades, its links; nothing else |
| `Repositories.ProfileRepository.List` | src/db/sqlite-profile-repository.ts:41-46 | All rows, oldest first and then by id, each with its name, its token and exactly the channels it is linked to |
| `Repositories.ProfileRepository.ResolveByToken` | src/db/sqlite-profile-repository.ts:55-63 | Finds the one profile holding a non-empty token, if any; an empty token never resolves |
| `Repositories.ProfileRepository.Upsert` | src/db/sqlite-profile-repository.ts:65-82 | Throws with nothing changed when another row holds the token; otherwise writes the row, a new one with the time of the call, and replaces its links by the references that exist |
| `Repositories.ProfileRepository.ReplaceDefaultChannels` | src/db/sqlite-profile-repository.ts:95-106 | The delete-then-insert loop leaves exactly the references that exist, and throws exactly when the profile has no row and some reference exists |
| `Repositories.ProfileRepository.SetDefaultChannels` | src/db/sqlite-profile-repository.ts:88-93 | Replaces the links of one profile, or throws and rolls back |
| `Repositories.ProfileRepository.Delete` | src/db/sqlite-profile-repository.ts:84-86 | Removes the row and its links; nothing else |
| `PutConfig.PutTheorem` | src/admin/routes/config-routes.ts:43-65 | A valid PUT completes if and only if, for each payload profile in order, no row with another id that an earlier payload profile has not already rewritten holds its token; and when it completes the store holds exactly what was asked, surviving rows keeping their creation time |
| `PutConfig.NewChannelRowTime` | src/db/sqlite-channel-repository.ts:56-75 | A channel row that a completed PUT creates has the time read for its own call, the first with that id |
| `PutConfig.NewProfileRowTime` | src/db/sqlite-profile-repository.ts:65-82 | A profile row likewise |
| `PutConfig.AfterUpserts` | src/admin/routes/config-routes.ts:52-57 | The two upsert loops lose none of the references asked for: the contents become the old ones overridden by the payload |
| `PutConfig.ClashIff` | src/admin/routes/config-routes.ts:55-57 | At its turn a profile is refused its token by the partly updated table if and only if a row from before, or an earlier entry not rewritten since, still holds it; repeated ids and tokens included |
| `PutConfig.AfterProfileUpserts` | src/admin/routes/config-routes.ts:55-57 | The profile loop completes exactly when every token is free at its turn, and then the profiles are the old ones overridden by the list |
| `PutConfig.DeletionsLeaveRequested` | src/admin/routes/config-routes.ts:58-63 | The two deletion loops remove everything not asked for, and their cascades remove nothing that was |
| `PutConfig.PutIsUpsertsThenDeletions` | src/admin/routes/config-routes.ts:49-63 | Deletions never throw, so the whole PUT is the upserts followed, if those complete, by one exact sweep |
| `PutConfig.RequestedExactIff` | src/admin/routes/config-routes.ts:19-22 | A valid payload is held by the requested store entry by entry, each as it stands, if and only if it repeats no profile id |
| `PutConfig.IdsToDeleteIs` | src/admin/routes/config-routes.ts:25-28 | The ids to delete are exactly the existing ids that the payload does not mention |
| `PutConfig.ValidPutCanThrow` | src/admin/routes/config-routes.ts:52-57 | Validation is not enough: a valid payload that exchanges two tokens throws, and one configuration can throw or complete depending on the order of its profiles |
| `ConfigService.ValidStoreIsAccepted` | src/admin/config-service.ts:39-42 | On a store that keeps its constraints, being valid is exactly being accepted by the validator as a whole configuration |
| `ConfigService.ValidityIsInductive` | src/admin/config-service.ts:56-111 | Along every history of entity operations and completed PUTs a valid store stays valid |
| `ConfigService.PerformKeepsValid` | src/admin/config-service.ts:56-111 | From a valid store no entity operation ever throws, every operation leaves the database constraints intact, and every completed one leaves a valid store |
| `ConfigService.RefsExist` | src/admin/config-service.ts:89-101 | A profile the validator accepts can never hit the unique token and never refers to a channel without a row |
| `ConfigService.SaveReachesCandidate` | src/admin/config-service.ts:56-101 | After an accepted save the store holds exactly the candidate that was validated, although only one row was written |
| `ConfigService.UpsertedByIdIs` | src/admin/config-service.ts:45-53 | The candidate list holds the item, everything of another id, nothing else, and no id twice |
| `ConfigService.UpsertedInPlace` | src/admin/config-service.ts:45-53 | An item whose id is there replaces the first entry with it, at its place |
| `ConfigService.UpsertedAtEnd` | src/admin/config-service.ts:45-53 | An item with a new id goes to the end |
| `ConfigService.FullConfigAsksForStore` | src/admin/config-service.ts:40-42 | The configuration read back asks for exactly what the store holds |
| `ConfigService.RuleGivesValid` | src/admin/config-service.ts:56-68 | A payload the validator accepts asks for a valid store |
| `ConfigService.ValidGivesRule` | src/admin/config-service.ts:56-68 | With distinct ids, a payload asking for a valid store is accepted |
| `EntityIsPut.SaveChannelIsPut` | src/admin/config-service.ts:55-68 | Saving one channel leaves the same contents as a PUT of the full configuration with that edit, and that PUT never throws |
| `EntityIsPut.SaveProfileIsPut` | src/admin/config-service.ts:88-101 | The same for saving one profile |
| `EntityIsPut.RemoveChannelIsPut` | src/admin/config-service.ts:70-86 | Deleting a channel leaves the very tables that a PUT of everything else, with the channel gone from all defaults, leaves |
| `EntityIsPut.RemoveProfileIsPut` | src/admin/config-service.ts:103-111 | Deleting a profile leaves the very tables that a PUT of everything else leaves |
| `EntityIsPut.PutOfFullConfigIsNoOp` | src/admin/routes/config-routes.ts:31-66 | On a valid store, saving the configuration just read is accepted and changes no row, link or creation time |
| `EntityIsPut.CascadeMakesNoDifference` | src/admin/config-service.ts:76-84 | Deleting only the channel row and running the clean-up loop reaches the same tables as the cascading delete |
| `InterruptedPut.PutLeavesValidStoreIff` | src/admin/routes/config-routes.ts:43-65 | From a valid store, a PUT leaves a valid store if and only if it is refused, or meets no token clash, or at its first clash no profile row it has not yet rewritten defaults to a channel the payload disables |
| `InterruptedPut.InterruptedPutValidIff` | src/admin/routes/config-routes.ts:52-63 | A valid PUT stopped at its first clash leaves a valid store if and only if no profile row not yet rewritten defaults to a channel the payload disables |
| `InterruptedPut.PutStopsAtClash` | src/admin/routes/config-routes.ts:52-57 | What a PUT stopped at its first clash leaves: all channels upserted, exactly the profiles before the clash upserted, nothing deleted |
| `InterruptedPut.InterruptedPutCanBreakRule` | src/admin/routes/config-routes.ts:52-63 | The bad case occurs for every known type and complete configuration: a valid PUT that leaves a store which keeps the database constraints but which the validator would refuse |
| `ConfigHandlers.PutHandler` | src/admin/routes/config-routes.ts:35-66 | Refuses without writing for a bad body, told by the four empty fields, or a failed check, naming the first failure; otherwise answers 200 with the store exactly as requested, or crashes, only when a token clash exists, with the calls made so far |
| `ConfigHandlers.CollectIds` | src/admin/routes/config-routes.ts:25-28 | The filter over existing ids yields the ids to delete, in order |
| `ConfigHandlers.UpsertProfiles` | src/admin/routes/config-routes.ts:55-57 | The loop makes exactly the calls of the specification, up to the first that throws |
| `ConfigHandlers.UpsertChannelEntity` | src/admin/config-service.ts:56-68 | Writes the one row, with the fields given and a time kept or new, only if the whole candidate passes, and names the first failure otherwise |
| `ConfigHandlers.UpsertProfileEntity` | src/admin/config-service.ts:89-101 | Writes the one row and its links only if the whole candidate passes, and names the first failure otherwise; no path escapes with a constraint violation, even from a store the validator would refuse |
| `ConfigHandlers.DeleteChannelEntity` | src/admin/config-service.ts:71-86 | An unknown id changes nothing; otherwise the row and every default naming it are gone, whether or not the repository cascades |
| `ConfigHandlers.DeleteProfileEntity` | src/admin/config-service.ts:104-111 | An unknown id changes nothing; otherwise the row and its links are gone |
| `Dispatch.ResolveIs` | src/dispatch/dispatch-service.ts:28-45 | Resolution yields exactly the enabled ids of the source, once each, in the order of their first occurrence |
| `Dispatch.ResolveIdempotent` | src/dispatch/dispatch-service.ts:28-45 | Resolving what was resolved changes nothing |
| `Dispatch.StoredDefaultsResolveUnchanged` | src/dispatch/dispatch-service.ts:63-72 | On a valid store a profile's stored defaults are dispatched as they are |
| `Dispatch.ResolveChannels` | src/dispatch/dispatch-service.ts:28-45 | The loop with its seen set computes the resolution of the requested channels, even an empty list, or else of the defaults |
| `Dispatch.InMemoryQueue.Deliver` | src/delivery/delivery-service.ts:37-76 | A missing or disabled instance resolves without an attempt; an unknown type throws the text that names type and instance, a failed send its own text; the instance is the one stored at that moment, and one send is made exactly when it is enabled and of a known type |
| `Dispatch.InMemoryQueue.EnqueueDelivery` | src/queue/in-memory-queue.ts:47-62 | Once a handler is registered, appends one outcome: ok exactly for a missing or disabled instance or a send that succeeded, and with an error text exactly when not ok, that of the failed send or of the unknown type |
| `Dispatch.InMemoryQueue.HandleDispatch` | src/dispatch/dispatch-service.ts:63-97 | Appends one such outcome per resolved id, in resolved order, each for its own turn to send; the ids are the enabled ones of the requested channels or else of the stored defaults |
| `Dispatch.InMemoryQueue.EnqueueDispatch` | src/queue/in-memory-queue.ts:34-45 | The composed pipeline appends exactly one such outcome per resolved id in resolved order, a failure recorded as a failure with its text, and nothing without both handlers |
| `Dispatch.FanOutIsIsolated` | src/queue/in-memory-queue.ts:34-62 | Answers may depend on how many sends came before. Each resolved id is still attempted and gets the outcome it would get as the only requested channel if its own send were answered alike, whatever the world answers to the other sends |
| `Dispatch.SendsInCounts` | src/delivery/delivery-service.ts:37-76 | The number of sends a list of ids makes is the number of its positions whose instance is enabled and has an adapter |
| `QueueRuns.RunKeepsInv` | src/queue/bullmq-queue.ts:57-99 | The full invariant of jobs, attempts, sends and fan-out holds in every state of every run |
| `QueueRuns.JobsAreAccountedFor` | src/queue/bullmq-queue.ts:57-62 | Each delivery job is in exactly one of waiting, active, done and dead; it is dead exactly when all its attempts have failed; it is sent at most once an attempt |
| `QueueRuns.SendUsedLiveInstance` | src/delivery/delivery-service.ts:37-53 | Every send used an instance that existed and was enabled when the worker read it, with the configuration it had then |
| `QueueRuns.DoneMeansSentOrSkipped` | src/delivery/delivery-service.ts:37-76 | A job is done only because its send succeeded or because its instance was missing or disabled when read |
| `QueueRuns.ResolvedFromReads` | src/dispatch/dispatch-service.ts:63-72 | For the event that added a dispatch: channels it named, even an empty list, are resolved whatever the profile's defaults are; otherwise the defaults at the second of its two reads, or none for an unknown profile; either way cut to the instances enabled at the first read, that of its latest start |
| `QueueRuns.JobsFollowResolved` | src/dispatch/dispatch-service.ts:86-97 | An attempt enqueues the resolved ids one by one in their order, each in a new waiting job |
| `QueueRuns.DispatchStepIs` | src/queue/bullmq-queue.ts:64-99 | Adding, starting, failing and finishing a dispatch: what each finds and leaves; a failed one is retried exactly while it has attempts left, and one finishes only with nothing left to enqueue |
| `QueueRuns.ReadInstanceIs` | src/delivery/delivery-service.ts:37-76 | At its read a worker ends the job without a send, fails the attempt for want of an adapter, or begins exactly one send through the instance as it stands |
| `QueueRuns.SendAnswerIs` | src/queue/bullmq-queue.ts:57-62 | A successful send ends the job; a failed one counts one more failure and puts the job back in line, or among the dead when it was the last attempt |
| `QueueRuns.JobNeverStuck` | src/queue/bullmq-queue.ts:57-99 | In every reachable state an unfinished delivery job can go on, whichever way its send ends |
| `QueueRuns.DispatchNeverStuck` | src/queue/bullmq-queue.ts:57-99 | So can an unfinished dispatch, whose attempt may also fail at any point |
| `QueueRuns.DispatchFansOut` | src/dispatch/dispatch-service.ts:63-97 | A completed dispatch has a job for every id its last attempt resolved, and no id ever has more jobs than the dispatch had attempts |
| `QueueRuns.IdleQueueHasSettled` | src/dispatch/dispatch-service.ts:86-97 | Once the delivery queue is idle, every id of a completed dispatch has a job that ended without error or failed on every attempt |
| `StoreRuns.StoredDefaultsAreDispatched` | src/dispatch/dispatch-service.ts:63-72 | Where every edit is a completed operation on the store and none falls between the two reads, a dispatch without requested channels resolves exactly its profile's stored defaults, and nothing for an unknown profile; one that names channels resolves those enabled in the store |
| `StoreRuns.StoreStaysValid` | src/admin/config-service.ts:56-111 | Along every such run the store the workers read is valid at every step |
| `StoreRuns.SendUsedValidInstance` | src/delivery/delivery-service.ts:37-53 | Every send then goes through an enabled instance that keeps the validator's rule |
| `SpeechQueue.QueueIsFifo` | clients/local-tts-player/local-tts-server.mjs:109-139 | In every run: at most one item in flight and it is the last started, an idle queue holds nothing, started items followed by waiting ones are the items enqueued in order, and every started item has thrown, settled or is in flight |
| `SpeechQueue.EverythingIsSpoken` | clients/local-tts-player/local-tts-server.mjs:113-136 | A failing item never blocks later ones: once as many items have settled as do not throw, all have been started in order and the queue is idle |
| `SpeechQueue.AdvanceKeepsOrder` | clients/local-tts-player/local-tts-server.mjs:113-129 | Starting the next item, past any that throw at once, keeps the order of all items and ends with one in flight or nothing waiting |
| `SpeechQueue.Player.RunNext` | clients/local-tts-player/local-tts-server.mjs:113-129 | The recursive method, with its flag and its throw path, is the specified step and terminates |
| `SpeechQueue.Player.Enqueue` | clients/local-tts-player/local-tts-server.mjs:131-136 | Appends, and starts at once only when nothing runs |
| `SpeechQueue.Player.Settle` | clients/local-tts-player/local-tts-server.mjs:128-128 | A settlement of either kind makes room for the next item |
| `SpeechQueue.Player.Speak` | clients/local-tts-player/local-tts-server.mjs:154-165 | Status 400 with nothing queued exactly for a missing or blank text; otherwise 202 with the text queued under the given voice, or the default for a blank one |
| `Seeding.SeedTheorem` | src/db/seed-from-env.ts:39-72 | Seeding completes exactly when every token is free at its turn; the channels are written either way, and when it completes the profiles are those before overridden by the seeded ones |
| `Seeding.SeededChannelRow` | src/db/seed-from-env.ts:48-58 | The channel rows of a seeded database, also when seeding is cut short: one for each enabled type, of that type, with the settings captured for it or none, and enabled exactly when every required setting is there with more than space |
| `Seeding.SeededProfileRow` | src/db/seed-from-env.ts:60-69 | The profile rows of a completed seeding: one for each slug, with the name and token of the last entry that has it and its defaults cut to the enabled types |
| `Seeding.FreshSeedCompletesIff` | src/db/seed-from-env.ts:62-69 | On an empty database it completes if and only if no TOKENS entry asks for a token that an earlier entry gave to another slug and no entry in between took back |
| `Seeding.SeededOnce` | src/db/seed-from-env.ts:44-46 | Once a boot has written any channel no later boot seeds anything, so the profiles a seeding cut short did not reach are never seeded |
| `Seeding.SeedLeavesValidStoreIff` | src/db/seed-from-env.ts:48-69 | A completed seeding of an empty database leaves a valid store if and only if all types are known slugs and, of the last entry of each slug, every default among the enabled types is of a type for which the environment gave all required settings, none of them blank |
| `Seeding.SeedFromEnvIfEmpty` | src/db/seed-from-env.ts:39-72 | The code makes exactly the specified calls, and none when any channel exists |
| `Slug.SlugifyIsWords` | src/admin/ui/admin-instance-id.js:13-19 | The chain of replacements computes the maximal runs of letters and digits joined by single hyphens |
| `Slug.TrimIsRedundant` | src/admin/ui/admin-instance-id.js:16-16 | The `trim` call never affects the result |
| `Slug.SlugifyIsCleanAndAccepted` | src/admin/ui/admin-instance-id.js:13-24 | The panel's slug has no doubled, leading or trailing hyphen, and is empty or accepted by the server's rule |
| `Slug.SlugifyNameIsAccepted` | src/db/seed-from-env.ts:19-26 | The seeder's slug is never empty and always accepted; a name without a letter or digit becomes "profile" |
| `Slug.SlugifyIsIdempotent` | src/admin/ui/admin-instance-id.js:13-19 | Slugifying a slug changes nothing, for both generators, given only that lower-casing leaves a slug as it is |
| `Tokens.TokensRoundTrip` | src/config/load-config.ts:35-55 | Printing any list of well-formed profiles as `name:token:c1,c2` joined by `;` and parsing gives back the list |
| `Tokens.EntryRoundTrip` | src/config/load-config.ts:40-54 | The same for one entry |
| `Tokens.CsvRoundTrip` | src/config/load-config.ts:28-33 | The same for a comma-separated list |
| `Tokens.PaddedCsv` | src/config/load-config.ts:28-33 | Space around the items of a comma list and blank items among them never matter |
| `Tokens.PaddedEntry` | src/config/load-config.ts:40-54 | An entry keeps its name and token to the character; only its default channels are trimmed |
| `Tokens.PaddedTokens` | src/config/load-config.ts:35-55 | Space around the entries of the variable and blank entries among them never matter |
| `Tokens.FailsExactlyOnBadEntry` | src/config/load-config.ts:40-53 | The parse fails exactly when some entry has not three parts or an empty name or token, and reports the first such entry, telling the two faults apart; otherwise each profile is its own entry's |
| `Tokens.ParsedIsWellFormed` | src/config/load-config.ts:35-55 | Whatever parses is well-formed, so the printed form covers every possible result |
| `HookEnv.ParseIsHomomorphism` | clients/claude-code/notify-hook.mjs:89-107 | Parsing a, a newline, then b is parsing a overridden by parsing b |
| `HookEnv.NeutralLine` | clients/claude-code/notify-hook.mjs:89-107 | A blank, comment or malformed line may stand anywhere without effect |
| `HookEnv.EntryIff` | clients/claude-code/notify-hook.mjs:89-107 | A line contributes a key and a value if and only if it is that key, an equals sign and that value with any space before and after each; the key is a letter or underscore followed by letters, digits and underscores, and the value has no space at its ends |
| `HookEnv.HookEnvRoundTrip` | clients/claude-code/notify-hook.mjs:89-107 | Printing any map of legal keys to trimmed single-line values, in any order of its keys, and parsing gives back the map |
| `HookEnv.ParseConfigFile` | clients/claude-code/notify-hook.mjs:89-107 | The loop with its four ways to skip a line computes the specified map |
| `Voices.VoicesRoundTrip` | clients/local-tts-player/local-tts-server.mjs:58-73 | Printing any list of well-formed voices with any padding, blank lines anywhere among them, and parsing gives back exactly the list |
| `Voices.LineRoundTrip` | clients/local-tts-player/local-tts-server.mjs:49-70 | A printed voice line reads back as the voice: the lazy name is never cut short |
| `Voices.ParseLineIff` | clients/local-tts-player/local-tts-server.mjs:40-70 | A line parses to exactly the voice it has the shape of: the shortest name, space, a locale, space, a hash sign and the sample |
| `Voices.NoShorterName` | clients/local-tts-player/local-tts-server.mjs:40-49 | No proper prefix of the name lets the rest of the pattern match |
| `Voices.ParseVoicesOutput` | clients/local-tts-player/local-tts-server.mjs:58-73 | The loop that skips blank and malformed lines computes the specified list |
| `Panel.AssembleKeepsVerdict` | src/admin/ui/admin-config-payload.js:10-38 | Trimming each config to the required keys never changes the server's verdict, not even which fault it reports |
| `Panel.AssembleIsIdempotent` | src/admin/ui/admin-config-payload.js:19-38 | Assembling an assembled payload changes nothing |
| `Panel.AssembledIs` | src/admin/ui/admin-config-payload.js:19-38 | Assembling touches nothing but configs, and of those drops only keys that the type does not require |
| `Panel.PickRequiredConfig` | src/admin/ui/admin-config-payload.js:10-16 | The loop keeps exactly the required keys, each with the value it had, a missing one as the empty string |
| `Panel.PruneDefaultChannelsToEnabled` | src/admin/ui/admin-defaults.js:14-26 | Each profile keeps its id, name and token and exactly the defaults that name an enabled channel of the list, in order, and the answer says whether any profile had one to lose |
| `ConfigTypes.WithinConcat` | src/admin/ui/admin-defaults.js:14-26 | Pruning a list of defaults is a filter: entry by entry, nothing reordered or merged |
| `Panel.PrunedDefaultsAlwaysPass` | src/admin/ui/admin-defaults.js:14-26 | After pruning, the assembled payload is never refused for a default channel |

## Left out

- HTTP servers and clients, routing, MCP tools, gateway authentication, telemetry, child processes and the real filesystem: input and output.
- The result of a POST: success, error and timeout are all swallowed by the code and end the same way.
- Two clock reads in the same millisecond, clocks that step back, failing or corrupt cache files, and a window that changes between a Stop and its sender.
- Parsing of the idle window, project naming through git, transcript reading, headline and status heuristics, and the formatting of times and durations; a payload is its end time, its duration and its headline.
- Notification priority, tags and metadata, job ids, delivery durations and log lines.
- StoredDefaultsAreDispatched: a worker that reads the store in the middle of a PUT is not covered, because its runs take completed operations; `QueueRuns` allows any panel at any moment.
- BullMQ and Redis themselves: backoff timing, stalled jobs, and the deduplication key.
- Channel adapters and the truncating and logging wrappers: a send answers success or failure.
- A dispatch handler that throws inside the synchronous queue: the in-process store and queue give it nothing to throw.
- `loadConfig` other than the TOKENS and comma-list parsers: its captured settings are an input of `Seeding`.
- The wire schema beyond non-empty ids, types and tokens; error texts, which are values naming the same ids and keys.
- Unicode case mapping, SQLite's byte order of non-ASCII ids, and JavaScript's inherited object keys.
- Aliasing between the panel's payload and its working state: `assembleConfigPayload` is modelled on values. Pruning in place is modelled.
- An item of the speech queue that enqueues another while it is being started.
- The worker-log parser, test sends, and everything that touches the DOM.
