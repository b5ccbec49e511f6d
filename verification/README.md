# Background sync of MatrixSDK

A notification extension runs `MXBackgroundSyncService` beside the app, whose `MXSession` may be running at the same time
on the same files. The service syncs forward from the session's token, caches the replies, takes Megolm keys out of their
to-device events into a crypto store of its own, and answers `event(withEventId:inRoom:)` one call at a time. The session
later merges the cached replies, handles them, and deletes them.

This project models that protocol, the code of the service and of the stores it shares with the session, the push rule
engine of the extension, and the chunked key download, and proves what they promise.

## Modules

- `Dictionaries`, `KeysQuery`, `KeysDownload`: the recursive sum of dictionaries, the sum of key query replies, and the
  scatter and gather of a chunked download as a transition system and as a class.
- `PushRules`: flattening, following account data, and the scan over the flat rules.
- `Events`, `SyncResponses`, `SyncResponseJson`: events, sync responses, and `merged(_:onto:)` as functions of one room and
  as the four passes of the source, tied to the sum of the JSON dictionaries.
- `SessionReplay`: what a session does with a response, and how merging and chunking change it.
- `SyncStore`, `FileStore`: the cache of responses, as a value with its chain, and as the two classes that update it.
- `Crypto`, `EventDecryption`, `OlmDevice`: the two crypto stores as one, Olm and Megolm decryption, and the taking of room
  keys, as functions and as a class that updates the stores and the shared event objects in place. The primitives are the
  functions of `Oracle`.
- `SyncService`, `BackgroundStore`, `BackgroundSyncService`: one request of the service as functions on its fields, the
  snapshot of the session's store, and the class whose methods are the blocks of the source, proved against the functions.
- `AsyncTaskQueue`: the queue that runs one task at a time.
- `ServerLog`, `BackgroundSync`: the homeserver as an append-only log with positions as tokens, and the transition system of
  homeserver, session and service, which can be interrupted between any two steps.
- `ChainSafety`, `Refinement`, `Staleness`, `Conservation`, `KeyProvenance`, `OlmInRuns`, `Requests`, `Termination`,
  `RequestsInTurn`: what holds in every run.
- `TasksOfTheService`: the service with a stage for every task that the queue starts, and why it is the one with one stage.
- `RunPieces`, `LostToDevice`, `StaleCache`, `UnreadableSuccess`: complete runs in which something does not hold.
- `KeyOnTheWay`: a complete run in which the key comes after the event.

## Where the code does less than it seems to promise

Each point has a lemma with the exact condition and one with a concrete input.

- A Megolm message whose text is not a JSON object is reported as decrypted, and so as a success, without clear data. That is
  the only way to a success that cannot be read (`Requests.SuccessIsReadableAndStable`,
  `UnreadableSuccess.SuccessReadableInEveryRunExactly`), and the next request for the event need not answer at once
  (`Requests.UnreadableSuccessAgainExactly`, `UnreadableSuccess.UnreadableSuccessSyncsAgain`).
- An override or underride rule with an unrecognised condition before a satisfied one matches, because that branch of the
  loop does not leave it; section 13.13 of the Matrix Client-Server API r0.6.1 asks for all conditions
  (`PushRules.LoopMeetsSpecificationExactly`, `PushRules.UnrecognisedThenSatisfiedMatches`).
- Push rules without a global set trap as soon as a room is asked about (`PushRules.MentionsOnlyTrapsExactly`,
  `PushRules.RulesWithoutGlobalTrap`).
- A session stopped in the middle of `deleteData()` leaves an id without a file; `syncToken()` is then nil, the staleness
  check does not see that the rest of the cache is old, and the next start of the service drops the background keys
  (`Staleness.StaleInRunsExactly`, `StaleCache.InterruptedDeletionBlindsTheCheck`).
- A reply that the service stores between the session's reading of the cache and the end of its deletion is deleted unread,
  and with it to-device events that the homeserver sends only once (`Conservation.DeletionConservesExactly`,
  `Conservation.CutOffDeletionConservesExactly`, `LostToDevice.UnquietRunLosesEvent`).
- A room key that claims no Ed25519 key stops the extension at a forced cast (`EventDecryption.CrashesExactly`,
  `EventDecryption.UnclaimedKeyCrashes`).
- A key for another room under the same session id and sender key replaces a known one, whose room
  then cannot be read any more (`EventDecryption.KeyChangesExactly`, `EventDecryption.AnotherRoomTakesTheKey`).
- A reset of the background store lets a replayed prekey message create a session again
  (`Crypto.CreatesAfterResetExactly`, `Crypto.ResetCreatesAgain`).
- Merging depends on where chunks end once somebody leaves a room (`SessionReplay.MergedAssociatesExactly`,
  `SessionReplay.LeaveRevealsGrouping`); a room joined or invited again after a leave in the same cache is removed by the
  session, and an invite to a joined room is forgotten (`SessionReplay.MergedReplayExactly`,
  `SessionReplay.ReturnIsRemoved`, `SessionReplay.InviteIsForgotten`); a gap drops the state changes of the timeline before
  it (`SessionReplay.MergedStateLogExactly`, `SessionReplay.GapDropsStateChange`); the previous-batch token of an older gap
  is overwritten (`SessionReplay.MergedPaginationExactly`, `SessionReplay.LaterTokenHidesGap`).
- A negative chunk size reports an empty success, and a size of 0 traps (`KeysDownload.NegativeSizeReportsNothing`,
  `KeysDownload.DownloadKeysByChunk`; each such size is an input).
- The sum of dictionaries is not associative when a value changes its kind (`Dictionaries.AssociativeExactly`,
  `Dictionaries.ChangeOfKindShowsGrouping`).

## Model

| member | source | states |
|---|---|---|
| `ChainSafety.EveryRunIsSafe` | MatrixSDK/Background/MXBackgroundSyncService.swift:321-375 | In every run of server, session and service, whatever the replies say about rooms and with interruptions anywhere: the cached responses are one token chain, and a sync in flight asks from its end |
| `ChainSafety.StepKeeps` | MatrixSDK/Background/MXBackgroundSyncService.swift:200-375 | Each single step of the server, the session and the service keeps the whole-run invariant |
| `ChainSafety.HandleCacheKeeps` | MatrixSDK/MXSession.m:1936-2038 | A cache that starts at the session token moves the session to the end of the chain; any other cache does not move it |
| `ChainSafety.EmptyCacheIsLeftAlone` | MatrixSDK/MXSession.m:1972-1982 | An empty cache is left alone, any other is deleted after it is handled |
| `Refinement.SessionShowsTheLog` | MatrixSDK/MXSession.m:1956-2014 | In every run, each room about which no reply reports a gap, an invite or a leave shows exactly the log up to the session token, each event id once and in order of arrival, whatever replies say of other rooms, through any number of background syncs, merges and chunks |
| `Refinement.CacheBringsTheSessionToItsEnd` | MatrixSDK/MXSession.m:2000-2014 | Handling a valid cache shows, in each such room, what a direct sync to the end of the cache would |
| `Refinement.StepShows` | MatrixSDK/Background/MXBackgroundSyncService.swift:490-502 | No step that reports a room without a gap makes it, or a cached response about it, differ from the log |
| `Refinement.HandledShows` | MatrixSDK/MXSession.m:469-713 | Handling a response extends what a room that it reports without a gap shows by exactly the events of the log between the two tokens that it does not show yet |
| `ChainSafety.SessionSyncsKeeps` | MatrixSDK/MXSession.m:469-713 | A live sync of the session beside the service keeps the invariant |
| `ChainSafety.BeginKeeps` | MatrixSDK/Background/MXBackgroundSyncService.swift:200-209 | Starting a request, staleness check included, keeps the invariant |
| `ChainSafety.ContinueKeeps` | MatrixSDK/Background/MXBackgroundSyncService.swift:352-360 | Syncing again or looking for the event once the to-device events are handled keeps the invariant |
| `ChainSafety.ReceivedKeeps` | MatrixSDK/Background/MXBackgroundSyncService.swift:350-350 | Storing a sync reply keeps the chain, the soundness of its responses and the origin of the to-device events to handle |
| `ChainSafety.WriteCutOffKeeps` | MatrixSDK/Background/Store/SyncResponseFileStore/MXSyncResponseFileStore.swift:192-197 | Stopping between the write of a new file and the write of its id keeps the chain |
| `ChainSafety.DeleteNextKeeps` | MatrixSDK/Background/Store/SyncResponseFileStore/MXSyncResponseFileStore.swift:218-221 | Every single write of the deletion keeps the chain, and what is left to delete is still its beginning |
| `ServerLog.MergedIsLongerReply` | MatrixSDK/Background/Store/MXSyncResponseStoreManager.swift:258-308 | Two replies that follow each other, merged, report a room like one reply to the longer request |
| `ServerLog.MergedChain` | MatrixSDK/Background/Store/MXSyncResponseStoreManager.swift:84-123 | Merging the first k responses of a readable chain leads from the start of the chain to the end of the k-th |
| `ServerLog.MergedChainIsOneReply` | MatrixSDK/Background/Store/MXSyncResponseStoreManager.swift:84-123 | And each room that all of them report without gaps is reported by the merged one like by one reply |
| `ServerLog.ReplayShows` | MatrixSDK/Data/MXEventTimeline.m:434-583 | A room that shows a part of the log shows the longer part after one more gapless reply, an event that is there already being skipped |
| `Staleness.RequestBeginsUpToDateExactly` | MatrixSDK/Background/MXBackgroundSyncService.swift:591-628 | A request begins with the token of the session and with cached responses that are none or start there, except exactly when they were stale behind a first response without a file |
| `Staleness.StaleInRunsExactly` | MatrixSDK/Background/MXBackgroundSyncService.swift:608-619 | In every run a request begins on a stale cache exactly when the file of the first valid response is gone and the second one was asked from another token than that of the session |
| `Staleness.RequestsBeginUpToDate` | MatrixSDK/Background/MXBackgroundSyncService.swift:591-628 | In every run that stops the session in no deletion, every request that begins outside a deletion begins up to date |
| `StaleCache.InterruptedDeletionBlindsTheCheck` | MatrixSDK/Background/Store/MXSyncResponseStoreManager.swift:52-61 | A complete run from the start: the session moves past a cache of two chunks, is stopped after the first write of the deletion, and a request then begins on the rest of that cache |
| `SyncService.CheckIsExact` | MatrixSDK/Background/MXBackgroundSyncService.swift:591-628 | The check leaves the snapshot at the up-to-date token and no background key beside an empty cache; what it leaves to be read starts at that token, except exactly when it was stale behind a first response without a file; every listed response stays listed, and a second check changes nothing |
| `SyncService.CheckMarksExactly` | MatrixSDK/Background/MXBackgroundSyncService.swift:591-628 | All responses become outdated exactly when the first can be read and the token of the session has moved since the last check or is not the one that the first response was asked with; keys go where no valid response is left, else they stay |
| `Conservation.NoToDeviceEventIsLost` | MatrixSDK/Background/MXBackgroundSyncService.swift:502-506 | In every run each to-device event that the homeserver no longer sends has been handled by the session or is in a cached or outdated response it can read, unless a reply stored that very event unhandled during a deletion |
| `Conservation.StepConserves` | MatrixSDK/Background/MXBackgroundSyncService.swift:490-506 | No step loses a to-device event, but one that stores it unhandled during a deletion |
| `Conservation.CachedAllHandled` | MatrixSDK/MXSession.m:1956-2014 | Handling the cache hands every to-device event of every readable listed response to the session, outdated or not |
| `Conservation.HandledIsStoredExactly` | MatrixSDK/MXSession.m:1984-2014 | Handling the cache hands over the to-device events stored in it and no other |
| `Conservation.ReceiveConserves` | MatrixSDK/Background/MXBackgroundSyncService.swift:502-502 | A stored reply carries a to-device event that lies beyond what earlier replies reached, and keeps it, unless it is stored unhandled during a deletion |
| `Conservation.DeletionKeepsExactly` | MatrixSDK/Background/Store/SyncResponseFileStore/MXSyncResponseFileStore.swift:255-261 | From any point after the reading of the cache to the end of the deletion, whatever is stored meanwhile: exactly the events that the session has handled are still there |
| `Conservation.DeletionConservesExactly` | MatrixSDK/MXSession.m:2016-2029 | A deletion loses nothing exactly when the session had handled every to-device event of each reply stored during it |
| `Conservation.CutOffDeletionConservesExactly` | MatrixSDK/Background/Store/SyncResponseFileStore/MXSyncResponseFileStore.swift:255-261 | A deletion that is cut off loses nothing exactly when each such event had been handled or is in a response that the deletion has left |
| `Conservation.CutOffConserves` | MatrixSDK/Background/Store/SyncResponseFileStore/MXSyncResponseFileStore.swift:192-197 | A file written without its id loses no to-device event that was there |
| `Conservation.CutOffLeavesFile` | MatrixSDK/Background/Store/SyncResponseFileStore/MXSyncResponseFileStore.swift:192-197 | A file written without its id holds the reply, and no step of a deletion takes it away |
| `LostToDevice.UnquietRunLosesEvent` | MatrixSDK/MXSession.m:2016-2029 | A complete run from the start in which a reply stored between the reading of the cache and its deletion costs a to-device event |
| `KeyProvenance.EveryKeyIsAccounted` | MatrixSDK/Background/MXBackgroundSyncService.swift:526-589 | In every run each background key was read from the store of the app or came from a to-device event of the log that decrypted, passed its checks and was complete |
| `KeyProvenance.EveryKeyIsRecoverable` | MatrixSDK/Background/MXBackgroundSyncService.swift:502-506 | In every run a background key was lent by the app or came from an event of the log that the session has handled or still can, unless that event was stored unhandled during a deletion |
| `KeyProvenance.StepAccounts` | MatrixSDK/Background/MXBackgroundSyncService.swift:390-452 | No step brings in a background key of another origin |
| `KeyProvenance.StartKeepsKeysExactly` | MatrixSDK/Background/MXBackgroundSyncService.swift:69-94 | A service that starts keeps the background keys exactly when the first cached response can be read |
| `Requests.CompletionsFollowCalls` | MatrixSDK/Background/MXBackgroundSyncService.swift:101-114 | In every run the n-th completion answers the n-th call with its event and room, none is answered twice or dropped, one at most is in progress, with at most one sync more than replies that carried to-device events |
| `Requests.SyncFailureReachesCaller` | MatrixSDK/Background/MXBackgroundSyncService.swift:361-373 | A sync that fails reaches the caller as a failure of the network and changes nothing else |
| `Termination.RequestStepsDecrease` | MatrixSDK/Background/MXBackgroundSyncService.swift:352-360 | Every step of a request lowers the rank made of the to-device events still to come, the stage and the events to handle, or crashes the service |
| `Termination.ReplyEnds` | MatrixSDK/Background/MXBackgroundSyncService.swift:350-356 | A reply that lets the service sync again leaves strictly fewer to-device events to come |
| `Termination.EveryRequestEnds` | MatrixSDK/Background/MXBackgroundSyncService.swift:352-360 | In an endless history of any steps short of the next request, with room traffic without limit and with finitely many to-device events and deletions, the request takes only finitely many steps: the recursion of syncing again ends, whatever the replies are |
| `Termination.EveryRequestIsAnswered` | MatrixSDK/Background/MXBackgroundSyncService.swift:101-114 | If moreover each network call of the request is answered or fails at last, the request gets its result, or the service is gone |
| `Termination.SyncsWithinToDevice` | MatrixSDK/Background/MXBackgroundSyncService.swift:352-360 | A request syncs at most once more than there are to-device events behind its first sync, those included that arrive before its last step |
| `Termination.BesideKeepsRank` | MatrixSDK/Background/MXBackgroundSyncService.swift:335-339 | A question reaching the server, further calls, events in rooms and the session short of its deletion leave the request where it is |
| `Termination.NeverStuck` | MatrixSDK/Background/MXBackgroundSyncService.swift:293-317 | A request in progress has a result to deliver, or goes on by itself, or waits for a network call that can succeed; a sync that has reached the server can be answered, without a gap |
| `Termination.AskedCanBeAnswered` | MatrixSDK/Background/MXBackgroundSyncService.swift:335-341 | Once the question has reached the server, a reply is possible |
| `Termination.SessionCanBeAnswered` | MatrixSDK/MXSession.m:469-713 | A session whose question has reached the server can be answered, in every room without a gap |
| `Requests.SuccessIsReadableAndStable` | MatrixSDK/Background/MXBackgroundSyncService.swift:226-285 | In every run and for all primitives a success is cached, and is readable or its event is a Megolm message whose text some session of its room decrypts into no JSON object; once it is readable every later request for its event completes at once with the same object, without a network call |
| `Requests.UnreadableSuccessAgainExactly` | MatrixSDK/Background/MXBackgroundSyncService.swift:226-270 | In every run, while a success is not readable the next request for its event completes at once exactly when after the check of the stores its key is there and decrypts it without an error; else it syncs, or has no token to sync from |
| `UnreadableSuccess.SuccessReadableInEveryRunExactly` | MatrixSDK/Background/MXBackgroundSyncService.swift:226-265 | Every success of every run is readable exactly when no Megolm message decrypts to something that is not a JSON object |
| `UnreadableSuccess.UnreadableSuccessHappens` | MatrixSDK/Background/MXBackgroundSyncService.swift:250-255 | For every such message, a complete run from the start that reports it as a success without clear data |
| `UnreadableSuccess.UnreadableSuccessSyncsAgain` | MatrixSDK/Background/MXBackgroundSyncService.swift:619-627 | A complete run from the start in which an event is reported as such a success and the next request for it syncs, because the check has dropped its key |
| `RequestsInTurn.ServiceRunsOnItsQueue` | MatrixSDK/Background/MXBackgroundSyncService.swift:101-114 | In every run the calls, beginnings and completions of the service are a run of the queue of one task at a time, and a request can begin exactly when that queue lets it pass |
| `RequestsInTurn.StepIsOnTheQueue` | MatrixSDK/Background/MXBackgroundSyncService.swift:101-114 | Each step of the service is steps of its queue, none for what happens within a request |
| `TasksOfTheService.TasksNeverOverlap` | MatrixSDK/Utils/MXAsyncTaskQueue.swift:41-54 | With a stage for every dispatched task and only the queue deciding which tasks start, at most one task ever runs, tasks complete in the order of the calls, and every run is a run of the service with one stage |
| `TasksOfTheService.MoveIsAStep` | MatrixSDK/Background/MXBackgroundSyncService.swift:101-114 | Each move of the service with a stage per task is a step of the service with one stage, or none |
| `SyncService.SuccessIsReadableExactly` | MatrixSDK/Background/MXBackgroundSyncService.swift:226-265 | A success is readable, except exactly when a Megolm session decrypts the event into something that is not a JSON object |
| `SyncService.CachedSuccessIsStable` | MatrixSDK/Background/MXBackgroundSyncService.swift:267-270 | A cached readable event answers every request at once, whatever has become of token, cache and keys |
| `SyncService.CachedUnreadableExactly` | MatrixSDK/Background/MXBackgroundSyncService.swift:226-270 | A cached unreadable event answers at once exactly when its key is there after the check and decrypts it without an error, and is then readable unless its text is again no JSON object |
| `SyncService.HandleEncryptionExplained` | MatrixSDK/Background/MXBackgroundSyncService.swift:226-265 | Whatever the primitives do, a success is readable or its event is a Megolm message that some session of its room decrypts into no JSON object |
| `SyncService.AskProgress` | MatrixSDK/Background/MXBackgroundSyncService.swift:200-319 | Asking without leave to sync never syncs; a sync asks from the end of the cache or the snapshot token; a success is the object cached under the id; readable objects and cached places never change |
| `SyncService.AnswerExactly` | MatrixSDK/Background/MXBackgroundSyncService.swift:200-319 | The answer to a request in terms of the event it holds, cached or newest in the responses: that event when it is not encrypted, is decrypted, or its key is in one of the stores and decrypts it; else a sync from the end of the cache or the token of the session, where allowed, else the error; without the event a sync, or a request to the homeserver for it |
| `SyncService.SyncsAgainExactly` | MatrixSDK/Background/MXBackgroundSyncService.swift:352-360 | After a reply the service syncs again exactly when the reply carried to-device events, the newest response that has the event holds it encrypted, neither store has the key it names, and there is a token; else it looks for the event without syncing |
| `BackgroundSyncService.SyncsAgainAfterReplyExactly` | MatrixSDK/Background/MXBackgroundSyncService.swift:341-360 | From the arrival of a reply: once it is stored and its to-device events are handled, the service syncs again, from the end of this reply, exactly when it carried some and the event has come without its key |
| `KeyOnTheWay.KeyComesLater` | MatrixSDK/Background/MXBackgroundSyncService.swift:352-356 | A complete run from the start in which the event comes with the first reply and its key with the second: the request syncs twice and succeeds with the decrypted event |
| `SyncService.FetchedProgress` | MatrixSDK/Background/MXBackgroundSyncService.swift:293-316 | The reply to an event request completes the request and caches its event, and never syncs |
| `SyncService.AskCopies` | MatrixSDK/Background/MXBackgroundSyncService.swift:246-259 | Looking for an event adds no key but copies from the store of the app |
| `BackgroundSyncService.MXBackgroundSyncService.constructor` | MatrixSDK/Background/MXBackgroundSyncService.swift:69-94 | The background keys are kept exactly when the first cached response can be read, and the push rules are those of the cached account data, else of the session |
| `BackgroundSyncService.MXBackgroundSyncService.UpdateBackgroundServiceStoresIfNeeded` | MatrixSDK/Background/MXBackgroundSyncService.swift:591-628 | The check on the fields does what its specification function says |
| `BackgroundSyncService.MXBackgroundSyncService.StartNext` | MatrixSDK/Background/MXBackgroundSyncService.swift:200-209 | The first waiting call is checked and processed as specified |
| `BackgroundSyncService.MXBackgroundSyncService.LookForEvent` | MatrixSDK/Background/MXBackgroundSyncService.swift:267-318 | Cache, stored responses, sync or event request, in this order, as specified |
| `BackgroundSyncService.MXBackgroundSyncService.HandleEncryption` | MatrixSDK/Background/MXBackgroundSyncService.swift:226-265 | The shared event object is decrypted in place and the outcome is the specified one |
| `BackgroundSyncService.MXBackgroundSyncService.HandleDecryptionFailure` | MatrixSDK/Background/MXBackgroundSyncService.swift:212-222 | A failed decryption syncs if it may, else fails |
| `BackgroundSyncService.MXBackgroundSyncService.LaunchBackgroundSync` | MatrixSDK/Background/MXBackgroundSyncService.swift:321-339 | The sync asks from the end of the cache, else from the snapshot token, else the request fails |
| `BackgroundSyncService.MXBackgroundSyncService.HandleToDeviceEvents` | MatrixSDK/Background/MXBackgroundSyncService.swift:504-506 | The loop handles the to-device events in order, up to a crash |
| `BackgroundSyncService.MXBackgroundSyncService.HandleSyncResponse` | MatrixSDK/Background/MXBackgroundSyncService.swift:490-506 | Account data reaches the push rules, and the reply is stored before its first to-device event is handled |
| `BackgroundSyncService.MXBackgroundSyncService.CacheResponse` | MatrixSDK/Background/MXBackgroundSyncService.swift:502-502 | The reply is stored under the token it was asked with |
| `BackgroundSyncService.MXBackgroundSyncService.HandleAccountData` | MatrixSDK/Background/MXBackgroundSyncService.swift:499-501 | The push rules follow the account data of the reply |
| `BackgroundSyncService.MXBackgroundSyncService.ContinueRequest` | MatrixSDK/Background/MXBackgroundSyncService.swift:352-360 | The service syncs again exactly when the event has come without its key and the reply carried to-device events |
| `BackgroundSyncService.MXBackgroundSyncService.Complete` | MatrixSDK/Background/MXBackgroundSyncService.swift:109-112 | The caller gets the shared event object or the error, and the next call can start |
| `BackgroundSyncService.MXBackgroundSyncService.OnSyncResponse` | MatrixSDK/Background/MXBackgroundSyncService.swift:341-360 | After the reply is handled the service syncs again exactly when the event has come without its key and the reply carried to-device events |
| `BackgroundSyncService.MXBackgroundSyncService.OnSyncFailure` | MatrixSDK/Background/MXBackgroundSyncService.swift:361-373 | A failed sync fails the request |
| `BackgroundSyncService.MXBackgroundSyncService.OnEventResponse` | MatrixSDK/Background/MXBackgroundSyncService.swift:300-315 | The fetched event is cached and decrypted without leave to sync |
| `BackgroundStore.SnapshotIsStable` | MatrixSDK/Background/MXBackgroundStore.swift:28-53 | Whatever the session writes, a snapshot keeps its token, and a room stays as it was when first found |
| `BackgroundStore.MXBackgroundStore.RoomStore` | MatrixSDK/Background/MXBackgroundStore.swift:104-117 | The memoised room file is returned, else the one on disk, which is kept |
| `BackgroundStore.MXBackgroundStore.Event` | MatrixSDK/Background/MXBackgroundStore.swift:91-100 | An event is found exactly when the room file holds one of that id |
| `AsyncTaskQueue.TasksRunOneAfterTheOther` | MatrixSDK/Utils/MXAsyncTaskQueue.swift:41-54 | Under every schedule task n + 1 starts after task n has completed, in the order of the calls, and no two run at once |
| `AsyncTaskQueue.EveryCallGetsItsTurn` | MatrixSDK/Utils/MXAsyncTaskQueue.swift:41-54 | While a call is unfinished some step leads on, and each such step leaves fewer to do |
| `AsyncTaskQueue.MXAsyncTaskQueue.Schedule` | MatrixSDK/Utils/MXAsyncTaskQueue.swift:41-42 | A call joins the end of the serial queue |
| `AsyncTaskQueue.MXAsyncTaskQueue.PassGroup` | MatrixSDK/Utils/MXAsyncTaskQueue.swift:42-47 | The head of the serial queue enters the empty group and is dispatched |
| `AsyncTaskQueue.MXAsyncTaskQueue.TaskCompleted` | MatrixSDK/Utils/MXAsyncTaskQueue.swift:48-51 | The completion of a task leaves the group |
| `AsyncTaskQueue.MXAsyncTaskQueue.StartTask` | MatrixSDK/Utils/MXAsyncTaskQueue.swift:47-48 | A dispatched task starts |
| `BackgroundSyncService.MXBackgroundSyncService.Event` | MatrixSDK/Background/MXBackgroundSyncService.swift:101-113 | A call waits behind the calls before it |
| `BackgroundSyncService.MXBackgroundSyncService.CacheEvent` | MatrixSDK/Background/MXBackgroundSyncService.swift:304-305 | A new event object is cached under the id asked for |
| `BackgroundStore.MXBackgroundStore.constructor` | MatrixSDK/Background/MXBackgroundStore.swift:39-44 | The token is that of the moment of opening, and no room file is loaded yet |
| `Crypto.TrySessionsMeaning` | MatrixSDK/Background/MXBackgroundSyncService.swift:459-474 | The first known session that decrypts or matches the message decides; without one all have been tried |
| `Crypto.OlmTextExactly` | MatrixSDK/Background/MXBackgroundSyncService.swift:454-488 | A message decrypts to a text exactly when a known session gives it before any other decrypts or matches the message, or none does either, it is a prekey message and the session created from it gives the text |
| `Crypto.OlmStoresExactly` | MatrixSDK/Background/MXBackgroundCryptoStore.m:173-188 | Afterwards the background store lists the sessions of the device that it had, in front, each one that was tried, and the one created |
| `Crypto.OlmSessionsGrowExactly` | MatrixSDK/Background/MXBackgroundSyncService.swift:454-488 | A session is created exactly for a prekey message that no known session decrypts or matches, and nothing else becomes known or is forgotten |
| `Crypto.ReplayCreatesOncePerLoss` | MatrixSDK/Background/MXBackgroundSyncService.swift:454-488 | If a created session recognises its prekey message, one message creates at most one session, and one more for each step that forgets a session of its device, in any run of deliveries, resets and restarts |
| `Crypto.ArrivalsForgetNothing` | MatrixSDK/Background/MXBackgroundSyncService.swift:454-488 | Decrypting forgets no session: only a reset or an app with fewer sessions does |
| `OlmInRuns.StepArrives` | MatrixSDK/Background/MXBackgroundSyncService.swift:454-488 | Each step of the whole protocol changes the Olm sessions by exactly the message it decrypts, the reset of its check or the start of the service |
| `OlmInRuns.MessagesCreateOncePerLoss` | MatrixSDK/Background/MXBackgroundSyncService.swift:454-488 | In every run of the whole protocol one message creates at most one session, and one more for each time a session of its device is forgotten |
| `Crypto.CreatesAfterResetExactly` | MatrixSDK/Background/MXBackgroundSyncService.swift:621-627 | After a reset a message creates a session exactly when it is a prekey message that no session of the app takes and from which one can be built |
| `Crypto.ResetCreatesAgain` | MatrixSDK/Background/MXBackgroundSyncService.swift:621-627 | A concrete store where the bound is reached: one message creates a session before and after a reset |
| `EventDecryption.DecryptedIsReadableExactly` | MatrixSDK/Background/MXBackgroundSyncService.swift:404-417 | Decryption without an error leaves a readable event, except exactly when a Megolm text is not a JSON object |
| `EventDecryption.OlmDecryptsExactly` | MatrixSDK/Background/MXBackgroundSyncService.swift:412-447 | An Olm event decrypts, and to which clear data, exactly when it has a message for this device, a session gives a text, and the text names this user and device, the sender and the room of the event |
| `EventDecryption.MegolmDecryptsExactly` | MatrixSDK/Background/MXBackgroundSyncService.swift:401-411 | A Megolm event decrypts, and to which clear data, exactly when its key is in the background store or else that of the app, is of its room, and gives this content |
| `EventDecryption.DecryptionErrorsExactly` | MatrixSDK/Background/MXBackgroundSyncService.swift:390-451 | Which error is reported for which event |
| `EventDecryption.DecryptionBorrowsExactly` | MatrixSDK/Background/MXBackgroundCryptoStore.m:220-250 | A key is copied from the store of the app exactly when a Megolm message names it and the background store lacks it, and no other key changes |
| `EventDecryption.FailedDecryptionLeavesEvent` | MatrixSDK/Background/MXBackgroundSyncService.swift:390-452 | A failed decryption leaves the event unchanged |
| `EventDecryption.OnlyAuthenticEventsAddKeys` | MatrixSDK/Background/MXBackgroundSyncService.swift:526-589 | Every key after a to-device event was there, is a copy from the store of the app, or is described by the decryption of this event, which passed the recipient, key, sender and room checks if it was an Olm message |
| `EventDecryption.OtherEventsBringNothing` | MatrixSDK/Background/MXBackgroundSyncService.swift:526-547 | An event that is not encrypted or does not decrypt brings no key |
| `EventDecryption.CrashesExactly` | MatrixSDK/Background/MXBackgroundSyncService.swift:553-555 | A to-device event stops the service exactly when it decrypts to a complete room key that claims no Ed25519 key |
| `EventDecryption.UnclaimedKeyCrashes` | MatrixSDK/Background/MXBackgroundSyncService.swift:553-555 | A concrete room key event without a claimed Ed25519 key that stops the service |
| `EventDecryption.KeysAreKept` | MatrixSDK/Crypto/MXOlmDevice.m:340-392 | No key is lost; one is replaced only by a key that reaches further back or belongs to another room |
| `EventDecryption.KeyChangesExactly` | MatrixSDK/Crypto/MXOlmDevice.m:357-389 | A known key changes exactly when the event decrypts to a complete key of its id that imports under that id and names another room or reaches further back, and becomes that key |
| `EventDecryption.KeyAfterExactly` | MatrixSDK/Background/MXBackgroundSyncService.swift:526-589 | What becomes of any key, known before or not, by a room key or a forwarded one: it is the session that the decrypted content describes, if the known one is of another room or reaches less far back or there is none, and else what it was |
| `EventDecryption.NewOlmKeyIsTaken` | MatrixSDK/Background/MXBackgroundSyncService.swift:526-589 | A text that some session, established or new, gives, that is addressed to this user and device and describes an unknown session, leaves that session under its id |
| `EventDecryption.AnotherRoomTakesTheKey` | MatrixSDK/Crypto/MXOlmDevice.m:357-361 | A concrete key of one room that gives way to one of another room, after which a message of the first room can no longer be decrypted |
| `EventDecryption.DecryptIsAuthentic` | MatrixSDK/Background/MXBackgroundSyncService.swift:418-448 | The clear data set by a decryption is the text of some session for this event, with all Olm checks passed |
| `EventDecryption.DecryptKeys` | MatrixSDK/Background/MXBackgroundCryptoStore.m:220-250 | Decryption changes no readable key; at most it copies one from the store of the app |
| `OlmDevice.BackgroundDevice.DecryptMessageWithOlm` | MatrixSDK/Background/MXBackgroundSyncService.swift:454-488 | The loop with its early exits computes the specified sessions and text |
| `OlmDevice.BackgroundDevice.DecryptMessage` | MatrixSDK/Background/MXBackgroundCryptoStore.m:173-188 | The session is copied from the store of the app before it is used |
| `OlmDevice.BackgroundDevice.CreateInboundSession` | MatrixSDK/Crypto/MXOlmDevice.m:186-227 | A created session is stored for its device, even when it does not decrypt its message |
| `OlmDevice.BackgroundDevice.DecryptGroupMessage` | MatrixSDK/Crypto/MXOlmDevice.m:435-502 | A group session decrypts for its own room only |
| `OlmDevice.BackgroundDevice.DecryptEvent` | MatrixSDK/Background/MXBackgroundSyncService.swift:390-452 | The branches, checks and the update in place of the event agree with the specification |
| `OlmDevice.BackgroundDevice.AddInboundGroupSession` | MatrixSDK/Crypto/MXOlmDevice.m:340-392 | A key is taken exactly when it imports under its own id and reaches further back than a known one of its room |
| `OlmDevice.BackgroundDevice.HandleToDeviceEvent` | MatrixSDK/Background/MXBackgroundSyncService.swift:526-589 | The reassigned sender key and forwarding chain give the specified key, and the forced cast the specified crash |
| `OlmDevice.BackgroundDevice.CanDecryptEvent` | MatrixSDK/Background/MXBackgroundSyncService.swift:377-388 | An event can be decrypted exactly when it is not encrypted or its Megolm key is in one of the stores |
| `OlmDevice.BackgroundDevice.Reset` | MatrixSDK/Background/MXBackgroundCryptoStore.m:101-110 | A reset empties the background store and leaves the store of the app |
| `OlmDevice.EventObject.SetClear` | MatrixSDK/JSONModels/MXEvent.m:939-1010 | Without a clear event nothing is set; with one its sender keys are |
| `OlmDevice.BackgroundDevice.constructor` | MatrixSDK/Background/MXBackgroundCryptoStore.m:43-99 | The background store is kept or reset as asked |
| `OlmDevice.BackgroundDevice.StoreSession` | MatrixSDK/Background/MXBackgroundCryptoStore.m:212-215 | A session is stored for its device, once, in the background store |
| `SyncStore.UpdateExtendsChain` | MatrixSDK/Background/Store/MXSyncResponseStoreManager.swift:129-163 | A reply asked for from the end of the chain extends the chain, merged into the last chunk or as a new one |
| `SyncStore.UpdateStoresExactly` | MatrixSDK/Background/Store/MXSyncResponseStoreManager.swift:129-163 | Storing a reply adds its to-device events and loses none |
| `SyncStore.LookupExactly` | MatrixSDK/Background/Store/MXSyncResponseStoreManager.swift:185-228 | Nothing is found exactly when no valid response that can be read has an event of this id in the state, timeline or account data of the room joined or left or in the invite; else the first in that order of the newest such response is found, told its room |
| `SyncStore.MarkOutdatedStores` | MatrixSDK/Background/Store/MXSyncResponseStoreManager.swift:74-82 | Marking all responses outdated drops no to-device event |
| `SyncStore.MergeIdsCarries` | MatrixSDK/Background/Store/MXSyncResponseStoreManager.swift:84-123 | The merge of some responses carries exactly the to-device events of those that can be read |
| `SyncStore.DeletionKeepsChain` | MatrixSDK/Background/Store/SyncResponseFileStore/MXSyncResponseFileStore.swift:218-221 | Deleting in order keeps the chain at every write, and its end while it can be read |
| `SyncStore.WithoutExactly` | MatrixSDK/Background/Store/SyncResponseFileStore/MXSyncResponseFileStore.swift:218-221 | A deleted id is taken out of the lists wherever it is, and no other |
| `FileStore.MarkEachValid` | MatrixSDK/Background/Store/SyncResponseFileStore/MXSyncResponseFileStore.swift:231-240 | Moving the valid ids one by one moves all of them, in their order |
| `FileStore.SyncResponseFileStore.MarkSyncResponsesOutdated` | MatrixSDK/Background/Store/SyncResponseFileStore/MXSyncResponseFileStore.swift:231-240 | The loop over ids moves each listed one |
| `FileStore.SyncResponseFileStore.AddSyncResponse` | MatrixSDK/Background/Store/SyncResponseFileStore/MXSyncResponseFileStore.swift:192-197 | A new file is written and its id appended |
| `FileStore.SyncResponseFileStore.SyncResponse` | MatrixSDK/Background/Store/SyncResponseFileStore/MXSyncResponseFileStore.swift:199-204 | A file is read if it is there |
| `FileStore.SyncResponseFileStore.SyncResponseSize` | MatrixSDK/Background/Store/SyncResponseFileStore/MXSyncResponseFileStore.swift:206-212 | A missing file has size 0 |
| `FileStore.SyncResponseFileStore.DeleteSyncResponse` | MatrixSDK/Background/Store/SyncResponseFileStore/MXSyncResponseFileStore.swift:218-221 | The file is removed, and its id from both lists |
| `FileStore.SyncResponseFileStore.DeleteData` | MatrixSDK/Background/Store/SyncResponseFileStore/MXSyncResponseFileStore.swift:255-261 | Every listed file is gone, no other, and both lists are empty |
| `FileStore.SyncResponseStoreManager.UpdateStore` | MatrixSDK/Background/Store/MXSyncResponseStoreManager.swift:129-163 | The reply joins the last chunk if that is small and can be read, else starts a new one |
| `FileStore.SyncResponseStoreManager.MarkDataOutdated` | MatrixSDK/Background/Store/MXSyncResponseStoreManager.swift:74-82 | All valid responses become outdated |
| `FileStore.SyncResponseStoreManager.Event` | MatrixSDK/Background/Store/MXSyncResponseStoreManager.swift:185-226 | The newest response that has the event is found first |
| `FileStore.SyncResponseStoreManager.MergedSyncResponse` | MatrixSDK/Background/Store/MXSyncResponseStoreManager.swift:84-123 | The loop merges the responses that can be read and keeps the token of the first |
| `FileStore.SyncResponseStoreManager.GetSyncToken` | MatrixSDK/Background/Store/MXSyncResponseStoreManager.swift:42-61 | The token the first valid response was asked with, if it can be read |
| `FileStore.SyncResponseStoreManager.GetNextSyncToken` | MatrixSDK/Background/Store/MXSyncResponseStoreManager.swift:48-72 | The next batch of the last valid response, if it can be read |
| `FileStore.SyncResponseFileStore.UpdateSyncResponse` | MatrixSDK/Background/Store/SyncResponseFileStore/MXSyncResponseFileStore.swift:214-216 | The file of the id is rewritten |
| `FileStore.SyncResponseStoreManager.FirstSyncResponse` | MatrixSDK/Background/Store/MXSyncResponseStoreManager.swift:52-61 | The first valid response, if there is one and it can be read |
| `FileStore.SyncResponseStoreManager.LastSyncResponse` | MatrixSDK/Background/Store/MXSyncResponseStoreManager.swift:63-72 | The last valid response, if there is one and it can be read |
| `SyncResponses.MergeOnto` | MatrixSDK/Background/Store/MXSyncResponseStoreManager.swift:258-308 | The four passes and the sum compute the merge of every room at once |
| `SyncResponses.DropGaps` | MatrixSDK/Background/Store/MXSyncResponseStoreManager.swift:261-269 | A new limited timeline empties and marks the old joined one, and nothing else |
| `SyncResponses.KeepLimits` | MatrixSDK/Background/Store/MXSyncResponseStoreManager.swift:271-277 | An old limited timeline marks the new joined one, and nothing else |
| `SyncResponses.MoveInvites` | MatrixSDK/Background/Store/MXSyncResponseStoreManager.swift:279-287 | An old invite becomes the first state of the room now joined or left |
| `SyncResponses.MoveJoins` | MatrixSDK/Background/Store/MXSyncResponseStoreManager.swift:289-300 | The old joined state and timeline go in front of those of the room now left |
| `SyncResponseJson.PlusIsDictionarySum` | MatrixSDK/Background/Store/MXSyncResponseStoreManager.swift:302-307 | Summing two responses room by room is the recursive sum of their JSON dictionaries |
| `SessionReplay.MergeKeepsToDevice` | MatrixSDK/Background/Store/MXSyncResponseStoreManager.swift:302-304 | However many responses are merged, no to-device event is lost, repeated or reordered, and the last token is kept |
| `SessionReplay.ChunkSizeIsInvisible` | MatrixSDK/Background/Store/MXSyncResponseStoreManager.swift:132-163 | Where the size limit cuts chunks changes nothing in what the session gets about a room that nobody leaves |
| `SessionReplay.ChunkSizeKeepsToDevice` | MatrixSDK/Background/Store/MXSyncResponseStoreManager.swift:132-163 | Whoever leaves what, chunks lose and reorder no to-device event and keep the last token |
| `SessionReplay.MergeSlotAssociatesExactly` | MatrixSDK/Background/Store/MXSyncResponseStoreManager.swift:258-308 | For what a server sends about a room, merging is associative exactly when no timeline before a gap, gap or invite meets a leave in one of the listed ways |
| `SessionReplay.MergeSlotLeaving` | MatrixSDK/Background/Store/MXSyncResponseStoreManager.swift:261-299 | The merge with a leave: joined state, invite and timeline go in front of what the leave brings, less a timeline before a gap, and the account data is that of the leave |
| `SessionReplay.MergedAssociatesExactly` | MatrixSDK/Background/Store/MXSyncResponseStoreManager.swift:258-308 | Merging three responses is associative exactly when that holds in every room |
| `SessionReplay.RestartUnseenExactly` | MatrixSDK/Data/MXEventTimeline.m:675-681 | Adding events to a room is adding them to an empty one exactly when those shown come first there anyway |
| `SessionReplay.LeaveRevealsGrouping` | MatrixSDK/Background/Store/MXSyncResponseStoreManager.swift:289-300 | A concrete history with a leave where the cut between chunks changes the timeline |
| `SessionReplay.MergedReplayExactly` | MatrixSDK/MXSession.m:489-624 | Two responses merged leave a room as the two in turn, exactly when the room does not come back after a leave and no gapless join follows an invite to a joined room whose messages it does not bring again |
| `SessionReplay.ReturnIsRemoved` | MatrixSDK/MXSession.m:469-713 | A concrete pair of responses: a room left and joined again is there when they are handled in turn, and removed when they are merged |
| `SessionReplay.InviteIsForgotten` | MatrixSDK/Background/Store/MXSyncResponseStoreManager.swift:280-286 | A concrete pair of responses: an invite to a joined room, then a join; merged, the room keeps the events that it drops otherwise |
| `SessionReplay.MergeAllReplays` | MatrixSDK/MXSession.m:489-624 | The same for any number of responses and orderly rooms |
| `SessionReplay.ChunkedReplays` | MatrixSDK/MXSession.m:489-624 | The same through chunks of any sizes |
| `SessionReplay.CachedReplayIsLiveReplay` | MatrixSDK/MXSession.m:2000-2014 | The session that merges its chunks ends, in every orderly room, like one that handled the responses one by one |
| `SessionReplay.MergedStateLogExactly` | MatrixSDK/Background/Store/MXSyncResponseStoreManager.swift:261-269 | The room state is built from the same events in the same order under an exact condition on gaps and state sections |
| `SessionReplay.MergedPaginationExactly` | MatrixSDK/Data/MXEventTimeline.m:434-583 | The token to paginate back from survives the merge under an exact condition |
| `SessionReplay.GapDropsStateChange` | MatrixSDK/Background/Store/MXSyncResponseStoreManager.swift:261-269 | A concrete pair of responses after which a state change before a gap is missing |
| `SessionReplay.LaterTokenHidesGap` | MatrixSDK/Data/MXEventTimeline.m:434-583 | A concrete pair of responses after which the session paginates back from behind a gap |
| `SyncResponses.MoveInviteOf` | MatrixSDK/Background/Store/MXSyncResponseStoreManager.swift:280-286 | For one room, the old invite becomes its first state; no other room changes |
| `SyncResponses.MoveJoinOf` | MatrixSDK/Background/Store/MXSyncResponseStoreManager.swift:290-299 | For one room left, the joined state and timeline go in front; no other room changes |
| `Dictionaries.Plus` | MatrixSDK/Utils/Categories/NSDictionary.swift:26-45 | The fold over the keys of the right operand computes the recursive merge, in any key order |
| `Dictionaries.PlusEntry` | MatrixSDK/Utils/Categories/NSDictionary.swift:31-38 | Dictionaries merge, arrays are appended, anything else is replaced |
| `Dictionaries.AssociativeExactly` | MatrixSDK/Utils/Categories/NSDictionary.swift:26-45 | The sum is associative exactly on values that hide nothing mergeable behind a value of another kind |
| `Dictionaries.ChangeOfKindShowsGrouping` | MatrixSDK/Utils/Categories/NSDictionary.swift:26-45 | Three concrete dictionaries whose two sums differ |
| `Dictionaries.CommutativeExactly` | MatrixSDK/Utils/Categories/NSDictionary.swift:26-45 | The sum is commutative exactly on values that agree wherever both speak |
| `Dictionaries.AbsorbedExactly` | MatrixSDK/Utils/Categories/NSDictionary.swift:26-45 | A value leaves no trace under a later one exactly when it is absorbed by it |
| `Dictionaries.EmptyIsNeutral` | MatrixSDK/Utils/Categories/NSDictionary.swift:26-45 | The empty dictionary is neutral on both sides |
| `KeysQuery.PlusUnites` | MatrixSDK/Categories/MXKeysQueryResponse+Extensions.swift:22-40 | The casts never fail: users and devices are united, the right side wins |
| `KeysQuery.EmptyResponseIsNeutral` | MatrixSDK/Categories/MXKeysQueryResponse+Extensions.swift:22-40 | The empty response is neutral, missing dictionaries reading as empty |
| `KeysQuery.PlusAssociates` | MatrixSDK/Categories/MXKeysQueryResponse+Extensions.swift:22-40 | Grouping is invisible in the keys, and in the failures exactly when they are regroupable |
| `KeysQuery.PlusCommutesExactly` | MatrixSDK/Categories/MXKeysQueryResponse+Extensions.swift:22-40 | Order is invisible exactly when both sides agree on what they share |
| `KeysQuery.ReduceFailsExactly` | MatrixSDK/Contrib/Swift/MXResponse.swift:134-147 | The sum of replies fails exactly when some reply did |
| `KeysQuery.ReduceReportsFirstError` | MatrixSDK/Contrib/Swift/MXResponse.swift:134-147 | The error is that of the first reply that failed |
| `KeysQuery.ReduceAnswers` | MatrixSDK/Categories/MXRestClient+Extensions.swift:81-81 | Replies in any order sum up to an answer for all the users asked for |
| `KeysQuery.ChunksCover` | MatrixSDK/Utils/Categories/Array.swift:27-31 | For a positive size the chunks ask for exactly the users |
| `KeysQuery.ChunksInOrder` | MatrixSDK/Utils/Categories/Array.swift:27-31 | For a positive size the chunks are the users in their order, and all but the last are full |
| `KeysQuery.ChunkSizes` | MatrixSDK/Utils/Categories/Array.swift:27-31 | No chunk is empty or longer than the size, and a negative size makes none |
| `KeysDownload.GatherIsSafe` | MatrixSDK/Categories/MXRestClient+Extensions.swift:53-90 | Under every schedule the caller hears at most once, of the sum of one reply from every chunk, and exactly once if nobody cancelled |
| `KeysDownload.CancelledIsSilent` | MatrixSDK/Categories/MXRestClient+Extensions.swift:72-78 | A cancellation before the final block silences the download |
| `KeysDownload.CancelSilences` | MatrixSDK/Categories/MXRestClient+Extensions.swift:72-78 | A download that is cancelled at any step before its final block never reaches the caller |
| `KeysDownload.RepliesInOrder` | MatrixSDK/Categories/MXRestClient+Extensions.swift:59-69 | Replies are summed in the order in which they arrive |
| `KeysDownload.ChunkedRefinesDirect` | MatrixSDK/Categories/MXRestClient+Extensions.swift:38-87 | For every user list, positive size and order of arrival the download answers like the one direct request, unless some chunk failed |
| `KeysDownload.NegativeSizeReportsNothing` | MatrixSDK/Categories/MXRestClient+Extensions.swift:31-33 | A negative size reports an empty success, right exactly when none of the users is known |
| `KeysDownload.DownloadKeysByChunk` | MatrixSDK/Categories/MXRestClient+Extensions.swift:31-58 | Fewer users than the size are asked for directly, a size of 0 traps in the stride and no other does, any other download gathers |
| `KeysDownload.ChunkedDownload.constructor` | MatrixSDK/Categories/MXRestClient+Extensions.swift:55-58 | The group is entered once per chunk |
| `KeysDownload.ChunkedDownload.OnReply` | MatrixSDK/Categories/MXRestClient+Extensions.swift:59-69 | A reply is appended and leaves the group |
| `KeysDownload.ChunkedDownload.OnGroupEmpty` | MatrixSDK/Categories/MXRestClient+Extensions.swift:72-88 | The final block reports the sum unless cancelled |
| `KeysDownload.ChunkedDownload.Cancel` | MatrixSDK/Categories/MXRestClient+Extensions.swift:51-53 | A cancellation is noted and stops no request |
| `PushRules.LoopMeetsSpecificationExactly` | MatrixSDK/Background/MXBackgroundPushRulesManager.swift:129-147 | The loop asks for all conditions to be recognised and satisfied exactly on lists whose last condition is unrecognised or that hold no unrecognised one |
| `PushRules.ConditionRuleFiresExactly` | MatrixSDK/Background/MXBackgroundPushRulesManager.swift:124-147 | An override or underride rule fires exactly when it is enabled, each condition of one of the four kinds is accepted by the checker of that kind, and the list is empty or ends in one of these kinds |
| `PushRules.ShorthandRuleFiresExactly` | MatrixSDK/Background/MXBackgroundPushRulesManager.swift:148-175 | A content, room or sender rule fires exactly when it is enabled and the event match accepts the body with its pattern, the room id with its rule id, or the user id with its rule id |
| `PushRules.UnrecognisedThenSatisfiedMatches` | MatrixSDK/Background/MXBackgroundPushRulesManager.swift:144-146 | A concrete list where it does not: an unrecognised condition before a satisfied one |
| `PushRules.FirstFiringMeaning` | MatrixSDK/Background/MXBackgroundPushRulesManager.swift:122-180 | The scan returns the first enabled rule that matches, or none matches |
| `PushRules.ScanIsTiered` | MatrixSDK/Background/MXBackgroundPushRulesManager.swift:24-46 | Scanning the flat list is consulting override, content, room, sender and underride rules in this order |
| `PushRules.DisabledRulesDoNotMatter` | MatrixSDK/Background/MXBackgroundPushRulesManager.swift:122-122 | Disabled rules never affect the result |
| `PushRules.LastRulesOfBatches` | MatrixSDK/Background/MXBackgroundPushRulesManager.swift:65-74 | Handling two batches of account data is handling their concatenation |
| `PushRules.LastRulesExactly` | MatrixSDK/Background/MXBackgroundPushRulesManager.swift:65-74 | The rules in force are those of the last event that carries rules |
| `PushRules.FormerRulesStay` | MatrixSDK/Background/MXBackgroundPushRulesManager.swift:65-74 | Without such an event they are the former ones |
| `PushRules.CarriesRulesExactly` | MatrixSDK/Background/MXBackgroundPushRulesManager.swift:68-70 | An event carries rules exactly when it is of the push rules type and its content is a dictionary |
| `PushRules.MentionsOnlyAgreesWithMatching` | MatrixSDK/Background/MXBackgroundPushRulesManager.swift:79-93 | In a mentions-only room every event matches the rule of the room or one before it, never a sender or underride rule |
| `PushRules.MentionsOnlyExactly` | MatrixSDK/Background/MXBackgroundPushRulesManager.swift:79-93 | A room is mentions-only exactly when the first room rule with its id is enabled and has the action not to notify |
| `PushRules.MentionsOnlyTrapsExactly` | MatrixSDK/Background/MXBackgroundPushRulesManager.swift:183-188 | After any account data the question traps exactly when the last push rules that arrived have no global set, or none arrived and those before had none |
| `PushRules.RulesWithoutGlobalTrap` | MatrixSDK/Background/MXBackgroundPushRulesManager.swift:183-188 | Concrete account data after which asking about any room traps |
| `PushRules.BackgroundPushRulesManager.SetPushRulesResponse` | MatrixSDK/Background/MXBackgroundPushRulesManager.swift:23-47 | The flat rules are the five lists, in order |
| `PushRules.BackgroundPushRulesManager.HandleAccountData` | MatrixSDK/Background/MXBackgroundPushRulesManager.swift:65-74 | The flat rules follow the last push rules delivered |
| `PushRules.BackgroundPushRulesManager.PushRule` | MatrixSDK/Background/MXBackgroundPushRulesManager.swift:101-181 | The scan with its reused condition object returns the first enabled matching rule, and none for events of the user |
| `PushRules.BackgroundPushRulesManager.RunConditions` | MatrixSDK/Background/MXBackgroundPushRulesManager.swift:129-147 | The loop holds exactly when every recognised condition is satisfied and the list is empty or ends in a recognised one |
| `PushRules.BackgroundPushRulesManager.IsRoomMentionsOnly` | MatrixSDK/Background/MXBackgroundPushRulesManager.swift:79-93 | Whether the rule of the room is enabled and says not to notify; rules without a global set trap where the set is unwrapped |

## Left out

- SessionShowsTheLog: speaks of the rooms about which no reply of the run reports a gap, an invite or a leave, since a log has
  no place for those; what the session makes of them is in `SessionReplay`.
- CacheBringsTheSessionToItsEnd: speaks of the same rooms.
- StepShows: asks for the same of its step and room, and so do HandledShows and ReplayShows of their response.
- MergeAllReplays: asks that the room be orderly, and so do ChunkedReplays and CachedReplayIsLiveReplay; for two responses
  the exact condition is in `SessionReplay.MergedReplayExactly`.
- NoToDeviceEventIsLost: leaves out an event that a reply stored unhandled during a deletion, which can be lost
  (`LostToDevice.UnquietRunLosesEvent`); for one deletion the exact condition is in `Conservation.DeletionConservesExactly`.
- StepConserves: leaves out the step that stores the event so, and so does ReceiveConserves.
- EveryKeyIsRecoverable: leaves out such an event for the same reason; `KeyProvenance.EveryKeyIsAccounted` does not.
- RequestsBeginUpToDate: asks that no deletion be cut off; without that the exact condition is in
  `Staleness.StaleInRunsExactly`.
- EveryRequestEnds: asks that to-device events and deletions come finitely often; each can send the service back to a sync, a
  deletion by taking away the end of the chain, so that the service asks from its snapshot token again.
- SyncsWithinToDevice: asks that the session delete nothing meanwhile, for the same reason.
- ChunkSizeIsInvisible: asks that no response list the room as left; with a leave the exact condition is in
  `SessionReplay.MergedAssociatesExactly`.
- SuccessReadableInEveryRunExactly: speaks of all runs of given primitives together; of the single success speaks
  `Requests.SuccessIsReadableAndStable`.
- ServiceRunsOnItsQueue: speaks of a service with one stage; with a stage for every task the same is
  `TasksOfTheService.TasksNeverOverlap`.
- UpdateStore: leaves out the account data kept beside the responses (lines 165-178 of its file).
- HandleSyncResponse: takes the account data of the response as an argument of its own, since merging does not look at it
  here, and leaves out the auto-accepted invites.
- SetClear: leaves out `m.new_content` and `m.relates_to`.
- Room objects inside a response are values: `merged(_:onto:)` updates them in place in the source, and the aliasing between
  the responses given and the merged one is not captured.
- `MXBackgroundSyncService.cachedEvents` names event objects by their place in a list instead of holding references; the
  objects themselves are shared and updated in place.
- The queues of the file store: apart from a new chunk and a deletion, whose two writes can be cut off from each
  other, each operation on the cache is one step; an operation of one process never runs between the read and the write of
  the metadata in another, and a write that was queued is done.
- The session reads the two lists of the cache, the files, and hands over what they hold in one step
  (`MatrixSDK/MXSession.m` lines 1956-2014 read the files in two tasks after the lists); a reply merged into the last chunk
  between the lists and the files is not modelled.
- The commit of the session's store is taken to be done with the step that handles a response; the service reads the token
  from then on.
- `clearCache`, logout and a change of credentials; the deallocation of the service during a request.
- Event ids are always there; the session draws a fresh one for an invite event without one.
- The order of Olm sessions by the time of their last message: any fixed order is allowed.
- Ephemeral events, presence, groups, device lists and one-time key counts
  of a response.
- The room summary overlay, room state, profiles and summaries.
- The condition checkers of push rules: event match, display name, member count and permission are given functions.
- The cryptography of Olm and Megolm: given functions, with the one assumption that a created session matches its own prekey
  message where a lemma says so.
- Network and server timeouts, HTTP errors other than a failed reply, logging and time measurement.
- The direct request of `downloadKeysByChunk` for fewer users than the chunk size: it forwards one reply.
