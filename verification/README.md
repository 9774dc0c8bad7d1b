# Verified model of the zmessaging sync core

This project models the state machines of the Wire sync engine that decide what is sent, when and how often, and proves
what they promise over every run, every backend answer and every input. Run `dafny verify dfyconfig.toml` to check it.

| file | models |
|---|---|
| `Packing.dfy`, `Splitting.dfy`, `SplittingBounds.dfy` | splitting a message into pieces of bounded UTF-8 length (lengths as in section 3 of RFC 3629) |
| `PingBack.dfy` | the queue of VoIP notifications to ping back for, and the two request strategies that drain it |
| `PingBackEvents.dfy` | which of its events reach the notification dispatcher |
| `PingBackFailures.dfy` | what becomes of that queue without a self client and when a pending notification is received again |
| `MissingClients.dfy` | users, clients, and which missing clients one prekeys request asks for |
| `MissingClientRecovery.dfy` | fetching the prekeys of missing clients page by page, and the messages that wait for them |
| `PrekeyReplies.dfy` | what a prekeys reply does to each client, read off the reply itself |
| `OTRMessageUpload.dfy` | what an encrypted message does with an upload response, and what it depends on afterwards |
| `ResendTermination.dfy` | one message through uploads, prekey replies and refetches in any order |
| `MessageOrder.dfy` | the backward scan for a blocking message, and the order messages go out in |
| `FileUpload.dfy` | the stages of a file upload, driven by replies through the upstream sync |
| `HistorySync.dfy` | scheduling the download of missing conversation history |
| `CallNotification.dfy` | folding call events into one notification |
| `NotificationBundling.dfy` | copying notes event by event, and the notifications they keep on screen |

Objects that the source updates in place are classes; each method is proved against a function of the old state, and the
theorems are about those functions. A completion handler is one atomic step. Dictionaries and sets are enumerated in an
arbitrary order: a sequence stands for one enumeration, and nothing is assumed about which one it is.

Results that are not visible in any single function:

* Recovering missing clients ends within as many rounds as there are missing clients, whatever the backend answers,
  exactly when every missing client has a user and a page has room for one. If one has not, empty replies keep the
  recovery going for any number of rounds. Even then no message is held back by it for more rounds than clients were
  missing.
* A message that is told of missing clients is never sent again before something has been fetched for it. Each time it
  goes out it is encrypted for every client it was ever rejected for, so over a whole run it is rejected at most once for
  each client the backend holds, not counting rejections that name only clients it was encrypted for. Of those there can
  be any number: against such a backend the endless loop the source fears does occur.
  From every state the message can go out again once its conversation and connection are refetched and as many rounds
  are through as clients were missing, whatever is answered.
* Every ping-back handler runs exactly once, as long as no pending id is received again and the self client exists. In
  every run a handler is lost exactly as often as a receipt overwrites it, and for good; that of a notice dropped for want
  of a self client is not called before the notice is received again.
* The dispatcher is handed the events of a notification only once it was answered with success, however often it was
  retried: over every fair run it gets exactly the batches of the replies.
* The queue wedges, whatever ids are received, exactly when for want of a self client and with no reply to come a notice is
  dropped before a ping, or dropped as the last one before a ping is received. Then it is wedged for good: nothing drains
  it, no handler is called, and the activity stays held.
* From every state that a run reaches, every way of draining takes the same number of steps. It ends idle exactly if the
  status is sound, and over every run that holds throughout exactly when no notice is dropped with no reply to come and no
  notice behind it.
* The background activity covers all queued and requested work throughout a run exactly when no notification is received
  or retried unauthenticated into nothing, and no final reply meets an empty queue while another request is in flight.
* Splitting is lossless and keeps every word that fits whole. A single word is cut into as few pieces as possible, and no
  grouping of the words has fewer pieces. Against every cutting of the text that keeps the fitting words whole, each word
  over the limit costs at most two pieces more: without such words there is none better, and with them the bound is
  reached. It traps exactly when a word over the limit opens with a character over the limit; the source only documents
  that characters have to be shorter than the limit.
* No message is under way while an earlier one within three minutes blocks, and there is never a deadlock.
* A "not uploaded" message is pending exactly when the thumbnail or the full asset failed other than by expiry. On expiry
  the upstream sync resets the key after the strategy has set it, so nothing is announced then.
* The text of a missed call can meet an empty table; it never does as long as joins name the current session. A join is
  safe against the end of a call after it exactly when it names the current session or the caller is not known, and over
  every sequence of events it is known exactly which event traps.

## Model

| member | source | states |
|---|---|---|
| `Packing.PackIsGreedy` | Source/Utility/String+Splitting.swift:109-120 | the pieces tile the items, each is within the limit or a single item, and none could also take the item after it |
| `Packing.GreedyIsUnique` | Source/Utility/String+Splitting.swift:109-120 | that property determines the pieces completely |
| `Packing.PackIsOptimal` | Source/Utility/String+Splitting.swift:105-123 | no cutting into pieces within the limit has fewer pieces |
| `Splitting.EnumerateCharacter` | Source/Utility/String+Splitting.swift:109-120 | one composed character keeps finished pieces and open range equal to the greedy pieces so far; a trap exactly on a first character over the limit |
| `Splitting.SplitWord` | Source/Utility/String+Splitting.swift:105-123 | for every text and limit, the greedy pieces by composed character, or a trap exactly when the first character is over the limit |
| `Splitting.SplitWordBounded` | Source/Utility/String+Splitting.swift:109-122 | the pieces are within the limit in bytes if and only if the encoding of every composed character is |
| `Splitting.Utf8LengthIsBytes` | Source/Utility/String+Splitting.swift:53-65 | the length compared with the limit is the number of bytes of the UTF-8 encoding |
| `Splitting.EnumerateWord` | Source/Utility/String+Splitting.swift:59-95 | one word keeps the correspondence between messages, open chunk and the greedy groups of words |
| `Splitting.EnumerateWords` | Source/Utility/String+Splitting.swift:55-95 | the enumeration yields the pieces of the greedy groups of all words, or traps exactly on a word with a too wide first character |
| `Splitting.SplitInSubstrings` | Source/Utility/String+Splitting.swift:51-99 | greedy groups of words, words over the limit cut greedily by character, one piece if all fits, and exactly when it traps |
| `Splitting.SubstringsLossless` | Source/Utility/String+Splitting.swift:51-99 | the pieces concatenate to the text, for every text, tiling and limit |
| `Splitting.SubstringsBounded` | Source/Utility/String+Splitting.swift:51-99 | the pieces of a text of more bytes than the limit are all within it, in bytes, if and only if the encoding of every composed character is; any other text is one piece |
| `Splitting.NoTrapWithinLimit` | Source/Utility/String+Splitting.swift:27-27 | a text whose characters are all within the limit is split without a trap |
| `Splitting.SubstringsKeepWords` | Source/Utility/String+Splitting.swift:67-94 | a word within the limit lies wholly inside one piece |
| `Packing.GreedyIsCheapest` | Source/Utility/String+Splitting.swift:59-95 | among all tilings by blocks within the limit and single items, whatever the single items over it cost, a greedy one is cheapest |
| `Packing.StretchPacked` | Source/Utility/String+Splitting.swift:84-86 | a stretch cut on its own has at most one piece more than end within it in any cutting of the whole |
| `SplittingBounds.SubstringsOptimal` | Source/Utility/String+Splitting.swift:59-98 | for every text and limit, no grouping of the words into groups within the limit and single words has fewer pieces |
| `SplittingBounds.SubstringsNearOptimal` | Source/Utility/String+Splitting.swift:51-99 | no cutting into pieces within the limit that keeps the fitting words whole has fewer pieces by more than two for each word over the limit |
| `SplittingBounds.LongWordCostsOne` | Source/Utility/String+Splitting.swift:84-86 | for every limit from two on, a word over the limit and one that fits: three pieces where two would do |
| `SplittingBounds.LongWordCostsTwo` | Source/Utility/String+Splitting.swift:78-86 | for every limit from three on, one word over the limit and two more pieces than needed: the bound is reached |
| `PingBack.BackgroundAPNSPingBackStatus.constructor` | Source/UserSession/BackgroundAPNSPingBackStatus.swift:83-117 | nothing queued, no handlers, status done, no background activity |
| `PingBack.BackgroundAPNSPingBackStatus.NextNotificationEventsWithID` | Source/UserSession/BackgroundAPNSPingBackStatus.swift:123-125 | takes the head exactly when it is no notice, and changes nothing else |
| `PingBack.BackgroundAPNSPingBackStatus.NextNoticeNotificationEventsWithID` | Source/UserSession/BackgroundAPNSPingBackStatus.swift:127-129 | takes the head exactly when it is a notice, and changes nothing else |
| `PingBack.BackgroundAPNSPingBackStatus.DidReceiveVoIPNotification` | Source/UserSession/BackgroundAPNSPingBackStatus.swift:131-144 | the whole new state; a status other than done is not refreshed |
| `PingBack.BackgroundAPNSPingBackStatus.DidPerformPingBackRequest` | Source/UserSession/BackgroundAPNSPingBackStatus.swift:146-163 | the whole new state with handler calls and dispatched events, for each transport result |
| `PingBack.BackgroundAPNSPingBackStatus.DidFetchNoticeNotification` | Source/UserSession/BackgroundAPNSPingBackStatus.swift:165-188 | the whole new state, with the fallthrough into the ping-back on success |
| `PingBack.BackgroundAPNSPingBackStatus.UpdateStatus` | Source/UserSession/BackgroundAPNSPingBackStatus.swift:190-198 | the status follows the head, and the activity ends with an empty queue |
| `PingBack.PingBackRequestStrategy.NextRequest` | Source/Synchronization/Strategies/PingBackRequestStrategy.swift:53-88 | dequeues and requests exactly when authenticated, pinging and a ping at the head |
| `PingBack.PushNoticeRequestStrategy.NextRequest` | Source/Synchronization/Strategies/PushNoticeRequestStrategy.swift:51-101 | dequeues exactly when enabled, but requests only with a self client |
| `PingBack.RetryEffect` | Source/UserSession/BackgroundAPNSPingBackStatus.swift:155-158 | a retried notification goes to the back under its old handler, the status matches the head, the activity is held exactly if it was with more queued or authenticated, and nothing of a ping is dispatched |
| `PingBack.ReceiveEffect` | Source/UserSession/BackgroundAPNSPingBackStatus.swift:131-144 | a receipt queues the notification under its handler and dispatches, calls and remembers nothing; the status is refreshed only from done |
| `PingBack.SendEffect` | Source/Synchronization/Strategies/PushNoticeRequestStrategy.swift:51-78 | a strategy takes the head exactly while authenticated and under the status for its kind, and changes nothing else; a notice is in flight only with a self client |
| `PingBack.NoHandlerEffect` | Source/UserSession/BackgroundAPNSPingBackStatus.swift:146-188 | a reply for a notification without a handler calls none and is not retried; what it still dispatches and remembers |
| `PingBack.FinalReplyEffect` | Source/UserSession/BackgroundAPNSPingBackStatus.swift:146-188 | any other reply removes it and calls its handler once, failing only for a notice not fetched; with which events, what is dispatched and remembered, and that the activity stays exactly with more queued |
| `PingBack.RunKeepsInv` | Source/UserSession/BackgroundAPNSPingBackStatus.swift:123-198 | in every reachable state the handler keys are the queued and in-flight ids, each once; every handler is called or waiting; the status is stale only with a request in flight |
| `PingBack.HandlerCalledOnce` | Source/UserSession/BackgroundAPNSPingBackStatus.swift:146-188 | a handler runs at most as often as received, and exactly as often once its id is neither queued nor in flight |
| `PingBack.NeverWedged` | Source/UserSession/BackgroundAPNSPingBackStatus.swift:131-198 | over every run in which no step strands the status, whatever ids are received: done means empty and inactive; with work queued and nothing in flight exactly one strategy is enabled |
| `PingBack.StatusStep` | Source/Synchronization/Strategies/PushNoticeRequestStrategy.swift:51-78 | a step keeps the status sound if and only if it is not a notice dropped without a self client, with no reply to come and no notice behind it |
| `PingBack.StatusSoundIff` | Source/UserSession/BackgroundAPNSPingBackStatus.swift:131-198 | over every run the status is sound throughout if and only if no step is of that kind |
| `PingBack.FairRunNeverStrands` | Source/Synchronization/Strategies/PushNoticeRequestStrategy.swift:74-78 | no step of a fair run is of that kind |
| `PingBack.WorkIsTakenUp` | Source/Synchronization/Strategies/PingBackRequestStrategy.swift:53-60 | as long as the status is sound and work is left some step moves a notification on |
| `PingBack.DrainTakesWork` | Source/UserSession/BackgroundAPNSPingBackStatus.swift:123-198 | from every state each draining step takes exactly one unit of work, and keeps a sound status and the invariant |
| `PingBack.DrainEmptiesQueue` | Source/UserSession/BackgroundAPNSPingBackStatus.swift:123-198 | from every state with a sound status, whatever ids were received, every maximal drain has the same length and empties the queue |
| `PingBack.DrainEndsIdle` | Source/UserSession/BackgroundAPNSPingBackStatus.swift:123-198 | every maximal drain has the same length and ends idle, with every handler called as often as received |
| `PingBack.ReceiveNeedsFreshId` | Source/UserSession/BackgroundAPNSPingBackStatus.swift:131-133 | receiving keeps conservation and accounting if and only if the id is not pending: otherwise the first handler is lost |
| `PingBack.NoticeNeedsSelfClient` | Source/Synchronization/Strategies/PushNoticeRequestStrategy.swift:74-78 | taking up a notice keeps conservation if and only if the self client exists, and the status sound if and only if it does, a reply is to come, or the next one is a notice too |
| `PingBack.ActivityWhileQueued` | Source/UserSession/BackgroundAPNSPingBackStatus.swift:135-137 | in every run while authenticated the background activity is held as long as anything is queued |
| `PingBack.ActivityEndsInFlight` | Source/UserSession/BackgroundAPNSPingBackStatus.swift:190-194 | a fair, authenticated run that ends with a request in flight and no activity |
| `PingBack.ActivityEndsIff` | Source/UserSession/BackgroundAPNSPingBackStatus.swift:190-194 | a step ends the activity if and only if it is a reply that meets an empty queue and is not retried while authenticated |
| `PingBack.CoverStep` | Source/UserSession/BackgroundAPNSPingBackStatus.swift:131-198 | a step keeps all queued and requested work under the activity if and only if it is none of three kinds of step |
| `PingBack.ActivityCoversIff` | Source/UserSession/BackgroundAPNSPingBackStatus.swift:131-198 | over every run the activity covers all work throughout if and only if no step is of those kinds |
| `PingBackFailures.NoConsumerIffWedged` | Source/Synchronization/Strategies/PingBackRequestStrategy.swift:53-60 | over every run, queued work with nothing in flight has no enabled strategy if and only if a ping stands at the head under the status of a notice |
| `PingBackFailures.NeverWedgedIff` | Source/Synchronization/Strategies/PushNoticeRequestStrategy.swift:51-78 | over every run the queue is never wedged if and only if, with no reply to come, no notice is dropped before a ping and no ping is received under the status of a dropped notice |
| `PingBackFailures.WedgedForGood` | Source/UserSession/BackgroundAPNSPingBackStatus.swift:131-144 | a wedged queue stays wedged in every run, no handler is called any more, what is queued stays queued and a held activity stays held |
| `PingBackFailures.WedgedRun` | Source/Synchronization/Strategies/PushNoticeRequestStrategy.swift:74-78 | three authenticated steps that wedge the queue |
| `PingBackFailures.DrainEndsIdleIff` | Source/UserSession/BackgroundAPNSPingBackStatus.swift:123-198 | from every state a run reaches, a maximal drain ends idle if and only if the status was sound |
| `PingBackFailures.LostStep` | Source/UserSession/BackgroundAPNSPingBackStatus.swift:131-163 | a step, fair or not, loses a handler if and only if it receives its pending id again, and then just that one |
| `PingBackFailures.LostForGood` | Source/UserSession/BackgroundAPNSPingBackStatus.swift:131-188 | over every run the handlers lost are those overwritten, and they are never called |
| `PingBackFailures.DroppedIsOrphaned` | Source/Synchronization/Strategies/PushNoticeRequestStrategy.swift:74-78 | a notice taken up without a self client leaves a handler whose id is neither queued nor in flight |
| `PingBackFailures.OrphanNeverCalled` | Source/UserSession/BackgroundAPNSPingBackStatus.swift:146-188 | over every run such a handler is not called as long as its id is not received again |
| `PingBackEvents.DispatchedByReplies` | Source/UserSession/BackgroundAPNSPingBackStatus.swift:146-188 | over every fair run the dispatcher is handed exactly the batches of the replies, in order: the events of a notification on success, and of a notice what was decrypted or came with the response |
| `PingBackEvents.FetchedStep` | Source/UserSession/BackgroundAPNSPingBackStatus.swift:170-177 | what a fetch decrypted is remembered for its notification until it is fetched again, and for no other |
| `MissingClientsPage.SelectPage` | Source/Synchronization/Strategies/UserClientRequestStrategy.swift:614-619 | the filter with its captured set selects the page |
| `MissingClientsPage.PageIsLongestPrefix` | Source/Synchronization/Strategies/UserClientRequestStrategy.swift:614-619 | the page is the longest prefix, over clients with a user, that mentions at most `pageSize` users |
| `MissingClientsPage.PageIsNonEmpty` | Source/Synchronization/Strategies/UserClientRequestStrategy.swift:614-619 | it is non-empty if any client has a user and the page size is positive |
| `MissingClientsPage.MissingClientsMap` | Source/Synchronization/Strategies/UserClientRequestStrategy.swift:605-623 | the payload lists under each user id exactly the page's clients of that user, in order; the request remembers the whole page |
| `MissingClientsPage.WithUserInOrder` | Source/Synchronization/Strategies/UserClientRequestStrategy.swift:614-619 | the clients considered are exactly those with a user, in their order |
| `MissingClientsPage.UsersOfMembers` | Source/Synchronization/Strategies/UserClientRequestStrategy.swift:614-619 | the users counted against the page size are exactly those of the clients |
| `MissingClientsPage.IdsInOrder` | Source/Synchronization/Strategies/UserClientRequestStrategy.swift:605-623 | the ids under a user are those of exactly that user's clients, in their order |
| `MissingClientRecovery.UserClientRequestStrategy.CleanMessagesMissingRecipient` | Source/Synchronization/Strategies/UserClientRequestStrategy.swift:517-528 | no message waits for the client any more; all other pairs stay |
| `MissingClientRecovery.UserClientRequestStrategy.ClearMissingMessagesBecauseClientCanNotBeFetched` | Source/Synchronization/Strategies/UserClientRequestStrategy.swift:380-384 | the client is marked failed, not missing, and not waited for |
| `MissingClientRecovery.UserClientRequestStrategy.EstablishSessionAndUpdateMissingClients` | Source/Synchronization/Strategies/UserClientRequestStrategy.swift:389-402 | the client leaves with a session, or marked failed |
| `MissingClientRecovery.UserClientRequestStrategy.ProcessPrekeyEntry` | Source/Synchronization/Strategies/UserClientRequestStrategy.swift:405-418 | which of the two happens to a client entry |
| `MissingClientRecovery.UserClientRequestStrategy.MissingUserClientIdToUserClientMap` | Source/Synchronization/Strategies/UserClientRequestStrategy.swift:421-430 | the table holds every missing identifier and maps it to a missing client that has it |
| `MissingClientRecovery.UserClientRequestStrategy.ProcessUser` | Source/Synchronization/Strategies/UserClientRequestStrategy.swift:476-493 | the clients under a valid user id are processed in order and struck off; an invalid one is skipped |
| `MissingClientRecovery.UserClientRequestStrategy.ClearAll` | Source/Synchronization/Strategies/UserClientRequestStrategy.swift:500-504 | all clients asked for are cleared together |
| `MissingClientRecovery.UserClientRequestStrategy.ProcessResponseForUpdatingMissingClients` | Source/Synchronization/Strategies/UserClientRequestStrategy.swift:454-507 | the whole effect of a reply for some look-up table, and that more is needed exactly while clients are missing |
| `MissingClientRecovery.ReplySettles` | Source/Synchronization/Strategies/UserClientRequestStrategy.swift:466-505 | exactly the named clients leave, and all those asked for when none is named; its marks say exactly whether some entry established a session and whether the last one did; nobody else changes |
| `MissingClientRecovery.SettledEitherWay` | Source/Synchronization/Strategies/UserClientRequestStrategy.swift:380-402 | every client that leaves the missing set has a session or is marked failed |
| `MissingClientRecovery.GoneByIdentifier` | Source/Synchronization/Strategies/UserClientRequestStrategy.swift:466-505 | with unique identifiers, who leaves in terms of the missing clients alone |
| `PrekeyReplies.MentionsIff` | Source/Synchronization/Strategies/UserClientRequestStrategy.swift:476-493 | an identifier is named if and only if some entry under a valid user id is for it |
| `PrekeyReplies.ReplyEffect` | Source/Synchronization/Strategies/UserClientRequestStrategy.swift:454-507 | the whole effect of a reply on a client, from the entries under valid user ids: it leaves when one is for it, or when it was asked for and none is for any client asked for; it has a session from any entry that establishes one, and is marked failed exactly if the last entry did not |
| `PrekeyReplies.LeavesByIdentifier` | Source/Synchronization/Strategies/UserClientRequestStrategy.swift:454-507 | with unique identifiers, who leaves in terms of the missing clients and the reply alone |
| `MissingClientRecovery.RoundProgress` | Source/Synchronization/Strategies/UserClientRequestStrategy.swift:454-507 | a round strictly shrinks the missing set if and only if it asked for a client or the reply names a missing one |
| `MissingClientRecovery.RecoveryTerminates` | Source/Synchronization/Strategies/UserClientRequestStrategy.swift:454-507 | whatever is answered, recovery of clients with users ends within as many rounds as clients are missing |
| `MissingClientRecovery.AskableBounded` | Source/Synchronization/Strategies/UserClientRequestStrategy.swift:454-507 | whoever is missing and whatever is answered, after as many rounds as clients were missing none with a user is missing any more |
| `MissingClientRecovery.RecoveryStuckWithoutUsers` | Source/Synchronization/Strategies/UserClientRequestStrategy.swift:615-619 | when no missing client can be asked for an empty reply changes nothing |
| `MissingClientRecovery.RecoveryGoesOn` | Source/Synchronization/Strategies/UserClientRequestStrategy.swift:454-507 | as long as one missing client cannot be asked for there are recoveries of any number of rounds |
| `MissingClientRecovery.RecoveryTerminatesIff` | Source/Synchronization/Strategies/UserClientRequestStrategy.swift:454-507 | every recovery from a context is bounded if and only if each missing client has a user and the page size is positive |
| `MissingClientRecovery.RunKeepsWaitingMissing` | Source/Synchronization/ZMOTRMessage+Missing.swift:101-110 | over every run of registering, fetching, replies and deletions, each client a message waits for is missing; nothing waits once nothing is missing |
| `MissingClientRecovery.StepEffect` | Source/Synchronization/ZMOTRMessage+Missing.swift:101-110 | what registering, fetching and deleting clients does to each client and to the messages that wait for it |
| `MissingClientRecovery.RecoveryUnblocks` | Source/Synchronization/Strategies/UserClientRequestStrategy.swift:380-402 | after any rounds each formerly missing client is still missing, has a session or is marked failed, and messages wait exactly for those of their clients still missing |
| `OTRMessageUpload.ZMOTRMessage.CheckIfMissingActiveParticipant` | Source/Synchronization/ZMOTRMessage+Missing.swift:140-158 | the refetch flags and connections after a reported user is checked |
| `OTRMessageUpload.ZMOTRMessage.ProcessMissingClients` | Source/Synchronization/ZMOTRMessage+Missing.swift:78-98 | the whole effect of a missing map, and that it reports whether any client was named |
| `OTRMessageUpload.ZMOTRMessage.RegistersNewMissingClients` | Source/Synchronization/ZMOTRMessage+Missing.swift:101-110 | the clients are missing for the self client, for the message, and ignored |
| `OTRMessageUpload.ZMOTRMessage.ProcessDeletedClients` | Source/Synchronization/ZMOTRMessage+Missing.swift:113-132 | the known clients named are gone from every relation |
| `OTRMessageUpload.ZMOTRMessage.ParseUploadResponse` | Source/Synchronization/ZMOTRMessage+Missing.swift:49-74 | the whole effect of a response; after a positive answer the message depends on something if and only if it is in a conversation |
| `OTRMessageUpload.ZMOTRMessage.DependendObjectNeedingUpdateBeforeProcessing` | Source/Synchronization/ZMMessage+Dependency.swift:26-58 | the dependency, and that depending on clients marks them to be fetched again |
| `OTRMessageUpload.UsersCheckedEffect` | Source/Synchronization/ZMOTRMessage+Missing.swift:80-94 | the conversation is flagged exactly when some reported user is no participant; in a personal conversation such a user ends with a stale connection |
| `OTRMessageUpload.OutsiderEffect` | Source/Synchronization/ZMOTRMessage+Missing.swift:140-158 | the whole effect of checking a reported user outside the conversation: its connection, the stale ones, and the flag |
| `OTRMessageUpload.ParticipantEffect` | Source/Synchronization/ZMOTRMessage+Missing.swift:140-142 | checking a participant changes nothing |
| `OTRMessageUpload.ReportedIff` | Source/Synchronization/ZMOTRMessage+Missing.swift:78-98 | a client is reported if and only if its identifier stands under that of its user |
| `OTRMessageUpload.OwnDeletionDetected` | Source/Synchronization/ZMOTRMessage+Missing.swift:49-61 | the deletion of the own client is noticed if and only if the response has status 403 and the label, and such a response changes nothing else |
| `OTRMessageUpload.ResponseEffect` | Source/Synchronization/ZMOTRMessage+Missing.swift:49-132 | the whole effect of any other response on a client: named as missing it is known, missing, waited for and ignored; named as deleted and not as missing it is in no relation any more |
| `OTRMessageUpload.RepeatedIff` | Source/Synchronization/ZMOTRMessage+Missing.swift:49-110 | the upload is repeated if and only if some client is named as missing and the own one is not deleted |
| `OTRMessageUpload.DependencyIff` | Source/Synchronization/ZMMessage+Dependency.swift:26-58 | exactly when the message depends on the conversation, its connection, missing clients, what any message depends on, or nothing |
| `OTRMessageUpload.ReportBlocksMessage` | Source/Synchronization/ZMOTRMessage+Missing.swift:78-110 | no endless resend: a response that asks for a repeat leaves the message with a dependency |
| `OTRMessageUpload.ReportRegisters` | Source/Synchronization/ZMOTRMessage+Missing.swift:63-110 | the reported clients, and no others, become missing and waited for; waiting implies missing is kept |
| `OTRMessageUpload.DeletedAreForgotten` | Source/Synchronization/ZMOTRMessage+Missing.swift:113-132 | a client reported as deleted, and not as missing again, is in no relation any more, sessions and failed marks included; every other client is kept |
| `OTRMessageUpload.RecoveryReleasesMessage` | Source/Synchronization/ZMMessage+Dependency.swift:42-57 | a message blocked only by missing clients depends on them if and only if one of its conversation is still missing, and not any more after as many rounds as clients were missing, even if the recovery never ends |
| `ResendTermination.UploadReachesRejected` | Source/Synchronization/ZMMessage+Dependency.swift:30-57 | each upload is encrypted for every client the message was rejected for |
| `ResendTermination.UploadKeepsInv` | Source/Synchronization/ZMOTRMessage+Missing.swift:49-110 | the clients a rejection names that the message was not encrypted for are new ones; every other part of the invariant is kept |
| `ResendTermination.StepKeepsInv` | Source/Synchronization/Strategies/UserClientRequestStrategy.swift:395-401 | whatever step comes, a client the message was rejected for stays known, missing or reachable, and a participant or about to be refetched |
| `ResendTermination.ResendingTerminates` | Source/Synchronization/ZMMessage+Dependency.swift:30-35 | over every run, with arbitrary prekey replies and refetches in any order, a message is rejected at most once for each client the backend holds, besides the rejections that name only clients it was encrypted for |
| `ResendTermination.UnfoundedGoOn` | Source/Synchronization/ZMMessage+Dependency.swift:30-35 | of such rejections a run can have any number |
| `ResendTermination.MessageGoesOut` | Source/Synchronization/ZMMessage+Dependency.swift:26-58 | from every state with a conversation, refetching it and its connection and as many prekey rounds as clients are missing leave no dependency, whatever is answered |
| `ResendTermination.WayOut` | Source/Synchronization/Strategies/UserClientRequestStrategy.swift:454-507 | such rounds always exist |
| `MessageOrder.BlockingMessage` | Source/Synchronization/ZMMessage+Dependency.swift:93-127 | the last message before the sender that blocks, with it and everything after it at most three minutes older; none exactly if there is none |
| `MessageOrder.DependendObject` | Source/Synchronization/ZMMessage+Dependency.swift:73-127 | no conversation, a conversation unknown to the backend, a blocking message or nothing |
| `MessageOrder.HoldsWhenSorted` | Source/Synchronization/ZMMessage+Dependency.swift:101-126 | with sorted times and distinct messages these are exactly the earlier messages within three minutes that are pending, not expired, and no asset past its placeholder |
| `MessageOrder.HoldsForCopy` | Source/Synchronization/ZMMessage+Dependency.swift:113-116 | the same for a sender that stands in the conversation only as another object with its nonce |
| `MessageOrder.FirstPendingIsFree` | Source/Synchronization/ZMMessage+Dependency.swift:97-124 | the first pending message is held back by nothing |
| `MessageOrder.NothingOvertakesABlocker` | Source/Synchronization/ZMMessage+Dependency.swift:61-66 | over every run no message is under way while an earlier one within three minutes blocks |
| `MessageOrder.DeliveredInOrder` | Source/Synchronization/ZMMessage+Dependency.swift:93-136 | over every run a plain message and a later one within three minutes are delivered in conversation order |
| `MessageOrder.NeverDeadlocked` | Source/Synchronization/ZMMessage+Dependency.swift:93-144 | over every run, while a message waits, one no later than it is under way or may begin |
| `FileUpload.FileUploadRequestStrategy.RequestForUpdatingObject` | Source/Synchronization/Strategies/FileUploadRequestStrategy.swift:108-137 | which request each stage calls for |
| `FileUpload.FileUploadRequestStrategy.FailMessageUpload` | Source/Synchronization/Strategies/FileUploadRequestStrategy.swift:222-256 | the whole new state of a failed upload |
| `FileUpload.FileUploadRequestStrategy.CompletionHandler` | Source/Synchronization/Strategies/FileUploadRequestStrategy.swift:265-327 | the upload requests fail the message when given up; a placeholder also resets the key |
| `FileUpload.FileUploadRequestStrategy.UpdateUpdatedObject` | Source/Synchronization/Strategies/FileUploadRequestStrategy.swift:152-199 | the next stage, and whether more requests are needed |
| `FileUpload.FileUploadRequestStrategy.ShouldRetryToSyncAfterFailedToUpdateObject` | Source/Synchronization/Strategies/FileUploadRequestStrategy.swift:205-218 | retried for missing clients without change, otherwise failed and retried past the placeholder only |
| `FileUpload.FileUploadRequestStrategy.Perform` | Source/Synchronization/ZMUpstreamModifiedObjectSync.m:254-305 | one request and its reply through both handlers and the key bookkeeping has the effect stated for the reply |
| `FileUpload.RunKeepsInv` | Source/Synchronization/Strategies/FileUploadRequestStrategy.swift:152-256 | along every reply sequence an upload is under way and due, failed and expired, or done and delivered |
| `FileUpload.StagesOnlyAdvance` | Source/Synchronization/Strategies/FileUploadRequestStrategy.swift:165-196 | the stage never goes back, and failed and done are final |
| `FileUpload.NextStage` | Source/Synchronization/Strategies/FileUploadRequestStrategy.swift:152-256 | in every run which stage each reply leads to: a success advances, past the placeholder to the thumbnail exactly with a preview; missing clients change nothing; any other reply fails the upload |
| `FileUpload.ThumbnailIff` | Source/Synchronization/Strategies/FileUploadRequestStrategy.swift:165-175 | a run passes through the thumbnail stage if and only if its accepted placeholder had a preview |
| `FileUpload.DueIffModified` | Source/Synchronization/Strategies/FileUploadRequestStrategy.swift:108-137 | in every run a request is due exactly as long as the key is modified |
| `FileUpload.CancelledIsAnnounced` | Source/Synchronization/Strategies/FileUploadRequestStrategy.swift:222-256 | the failure of a cancelled upload is sent too, and it stays cancelled |
| `FileUpload.DoneIffFullAssetAccepted` | Source/Synchronization/Strategies/FileUploadRequestStrategy.swift:176-179 | done, delivered and downloaded coincide, and hold if and only if a full-asset request was accepted |
| `FileUpload.PlaceholderAcceptedFirst` | Source/Synchronization/Strategies/FileUploadRequestStrategy.swift:205-256 | a pending not-uploaded request, or any later stage, implies an earlier accepted placeholder |
| `FileUpload.NotUploadedPendingIff` | Source/Synchronization/Strategies/FileUploadRequestStrategy.swift:205-327 | exactly which reply sequences leave a not-uploaded request pending |
| `FileUpload.MissingClientsRetry` | Source/Synchronization/Strategies/FileUploadRequestStrategy.swift:210-217 | a retry for missing clients leaves the message as it was and due |
| `HistorySync.IncompleteConversationsDownstreamSync.NextConversationWithGap` | Source/Synchronization/IncompleteConversationsDownstreamSync.swift:109-157 | the choice, and that the cooldown restarts exactly on a low priority choice |
| `HistorySync.IncompleteConversationsDownstreamSync.NextRequest` | Source/Synchronization/IncompleteConversationsDownstreamSync.swift:86-106 | the choice is marked as being fetched; without an encoder nothing is, though the cooldown may restart |
| `HistorySync.IncompleteConversationsDownstreamSync.Complete` | Source/Synchronization/IncompleteConversationsDownstreamSync.swift:96-102 | parsed unless to be tried again, and unmarked, if the parser is alive |
| `HistorySync.FirstNotIn` | Source/Synchronization/IncompleteConversationsDownstreamSync.swift:141-157 | the first conversation of the list outside the set, or none exactly if there is none |
| `HistorySync.Choice` | Source/Synchronization/IncompleteConversationsDownstreamSync.swift:109-127 | a conversation that is not being fetched, with its own gap; the first of the whitelisted list goes first, that of the other list only when history is wanted and the cooldown is over |
| `HistorySync.Candidate` | Source/Synchronization/IncompleteConversationsDownstreamSync.swift:141-157 | the first conversation of a list that is not being fetched, with its gap, or none exactly if it has no gap or there is no such conversation |
| `HistorySync.CooldownRestartsIff` | Source/Synchronization/IncompleteConversationsDownstreamSync.swift:115-131 | the cooldown restarts if and only if a conversation is chosen from the list that is not whitelisted |
| `HistorySync.FinishNeedsParser` | Source/Synchronization/IncompleteConversationsDownstreamSync.swift:96-102 | a completion keeps the bookkeeping if and only if the parser is alive |
| `HistorySync.RunKeepsTracked` | Source/Synchronization/IncompleteConversationsDownstreamSync.swift:86-106 | in every run the set being fetched is that of the requests in flight, none twice, whichever list a conversation is on |
| `HistorySync.LowPrioritySpan` | Source/Synchronization/IncompleteConversationsDownstreamSync.swift:115-138 | low priority requests `i` and `j` are more than `j - i` cooldowns apart |
| `CallNotification.ZMLocalNotificationForCallEvent.PrepareForCopy` | Source/Notifications/Push notifications/ZMLocalNotificationForCallEvent.swift:90-98 | the copy starts with the whole state of the note |
| `CallNotification.ZMLocalNotificationForCallEvent.CanCreateNotification` | Source/Notifications/Push notifications/ZMLocalNotificationForCallEvent.swift:38-49 | which events are accepted, and the new state; a refused event changes nothing |
| `CallNotification.ZMLocalNotificationForCallEvent.Configure` | Source/Notifications/Push notifications/ZMLocalNotificationForCallEvent.swift:51-81 | the new state for each kind of call event |
| `CallNotification.ZMLocalNotificationForCallEvent.ConfigureAlertBody` | Source/Notifications/Push notifications/ZMLocalNotificationForCallEvent.swift:110-133 | which text, with which count, whether a caller is named and that the count is theirs, and exactly when the forced unwrap fails |
| `CallNotification.TableCountsStarts` | Source/Notifications/Push notifications/ZMLocalNotificationForCallEvent.swift:54-75 | over every event sequence the table counts each user's starts accepted since the last accepted join, and sums up to all of them |
| `CallNotification.AcceptedIff` | Source/Notifications/Push notifications/ZMLocalNotificationForCallEvent.swift:38-108 | exactly which events a note accepts |
| `CallNotification.AcceptedEffect` | Source/Notifications/Push notifications/ZMLocalNotificationForCallEvent.swift:51-81 | what each kind of accepted event leaves behind, for every caller |
| `CallNotification.StateIsLatest` | Source/Notifications/Push notifications/ZMLocalNotificationForCallEvent.swift:51-81 | over every event sequence the call type is that of the last accepted event and the joined session that of the last accepted join |
| `CallNotification.GroupTextCountsStarts` | Source/Notifications/Push notifications/ZMLocalNotificationForCallEvent.swift:121-128 | a group is told that number, or one |
| `CallNotification.StartAcceptedIff` | Source/Notifications/Push notifications/ZMLocalNotificationForCallEvent.swift:100-108 | a start counts if and only if it is not of the current session |
| `CallNotification.MatchingJoinsNeverTrap` | Source/Notifications/Push notifications/ZMLocalNotificationForCallEvent.swift:116-120 | if each accepted join names the current session no text ever traps |
| `CallNotification.JoinSafeIff` | Source/Notifications/Push notifications/ZMLocalNotificationForCallEvent.swift:71-75 | a join is safe against every end of a call that may follow if and only if it names the current session or the caller of that session is not known |
| `CallNotification.TrapsNextIff` | Source/Notifications/Push notifications/ZMLocalNotificationForCallEvent.swift:100-120 | after every event sequence the text of an event traps if and only if it ends the current, unjoined session of a known caller for the first time with no start accepted since the last accepted join |
| `CallNotification.NeverTrapsIff` | Source/Notifications/Push notifications/ZMLocalNotificationForCallEvent.swift:110-133 | no text along an event sequence traps if and only if none of its events is of that kind |
| `NotificationBundling.ZMLocalNotificationForEvent.CancelNotifications` | Source/Notifications/Push notifications/Notification Types/ZMLocalNotificationForEvent.swift:170-172 | cancels exactly the notifications held |
| `NotificationBundling.ZMLocalNotificationForEvent.CopyByAddingEvent` | Source/Notifications/Push notifications/Notification Types/ZMLocalNotificationForEvent.swift:131-168 | the copy and the screen after an event; the old note counts the event whether or not the copy fails |
| `NotificationBundling.ChainAccounted` | Source/Notifications/Push notifications/Notification Types/ZMLocalNotificationForEvent.swift:155-172 | along every chain each notification created is held by the current note or cancelled, not both |
| `NotificationBundling.MessagesAreBundled` | Source/Notifications/Push notifications/Notification Types/ZMLocalNotificationForMessageEvent.swift:69-71 | a message note holds one to five notifications, and only its own once copied past the fifth event |
| `NotificationBundling.AddedEffect` | Source/Notifications/Push notifications/Notification Types/ZMLocalNotificationForEvent.swift:155-168 | what an event does to a note and the screen; notifications are copied exactly for messages up to the fifth event |
| `NotificationBundling.BundledFromTheSixth` | Source/Notifications/Push notifications/Notification Types/ZMLocalNotificationForMessageEvent.swift:69-71 | exactly how many notifications a message note holds after any number of shown events |

## Left out

- Core Data, contexts, saving, inverse relationships beyond the pairs modelled here, and dispatch queues.
- Cryptobox, key generation, encryption and decryption: whether a session is established and what decrypts are inputs.
- HTTP paths and bodies, logging, localisation, sounds: plumbing around the decisions modelled here.
- Registering, deleting and updating the self client, and prekey upload: settled by reading a branch.
- User cancellation and other writes to the upload state from outside the strategy, and waiting for preprocessing.
- Resending an expired message, and a server time that replaces the local one on delivery: both reorder a conversation.
- Missing or deleted maps with malformed keys or client lists, which the source answers with a fatal error.
- ResendTermination.ResendingTerminates: takes the backend's clients as fixed over a run, and a refetched conversation to include the users of them all.
- Handlers that call back into the ping-back status while they run.
- The notification dispatcher, which makes a fresh note for an event its notes refuse.
- `ZMCallTimer.swift` and the small status objects: easy machines.
- CallNotification.ZMLocalNotificationForCallEvent.ConfigureAlertBody: leaves out the wording, and whether there is a local user for the caller's identifier.
- NotificationBundling.ZMLocalNotificationForEvent.CopyByAddingEvent: takes the decisions of the subclasses on an event as inputs.
