# Formation Chat Core: a verified model

Formation Chat Core keeps chat conversations in a database, lets workers run agents on them, and
streams what happens to browsers. This project models the parts in which something can go wrong
between several parties, or across a reconnect, a retry or a crash, and proves what they promise for
every input, every interleaving and every run. `dafny verify dfyconfig.toml` checks all of it.

| files | what they model |
|---|---|
| `SseText`, `SseParser`, `SseDialect` | the event-stream text, its printer, and the browser's incremental parser with its frame cap; which other texts mean the same, and which are never delivered |
| `WidgetStream` | the direct widget's reader, which rewrites CRLF in its buffer |
| `EventBroker` | bounded subscriptions and the broker's map of them |
| `EventLog` | numbering, pruning and replay of a conversation's events |
| `EventDelivery`, `EventProgress`, `EventResends` | log, broker, stream and reconnecting client together, as interleaved steps; that they can always come to rest, what is sent twice, and what aborted streams can do |
| `ChatDatabase` | the tables of conversations, messages, runs, handoffs, inputs and command keys, with each transaction as one step |
| `RunLifecycle`, `ChatIntegrity`, `ChatInvariants`, `InputLifecycle` | what every interleaving of these steps keeps, stale workers included |
| `RowHistories`, `ChatTexts` | every row after every step, and what texts and answers the rows hold over whole runs |
| `RunLeases`, `StaleRuns` | the same steps when workers respect their leases, and runs in which they do not |
| `CommandRetries` | retried commands |
| `WorkerConduct` | what a worker may do with a run it claimed, judged by the record of its waits and statements |
| `ChatStore`, `RunWorker`, `ChatServices` | the worker loop and the services as objects that change rows statement by statement, proved to take exactly those steps |
| `ChatReducer`, `ChatFields`, `ConnectorText` | the client's reducer, every field of its state after every action, and a connector's answer on its way through it |
| `RateLimiter` | the fixed-window rate limiter |
| `MessagePaging`, `ConversationPaging` | keyset pages with their cursors, and the client's loop over them |
| `TenantMove` | moving a site to another tenant |

## How to read it

Where the program changes things in place there is a class whose methods do the same, statement by
statement, and whose contracts equate the new state with a function of the old one; the theorems are
about those functions. One transaction is one step: locks and `for update skip locked` make it so.
Whatever the program waits for (network, timers, other workers, aborts) is an arbitrary environment step
or a parameter. Generated identifiers are parameters; a transaction that would insert one twice fails and
leaves nothing behind.

Assumptions, and where they enter:

- Events of one conversation are published in the order of their numbers, and a replay reads the log in
  one step (`EventDelivery`). The code publishes after an `await` and issues separate reads.
- One client with one current stream; an aborted stream may still hand over what it had received, interleaved with
  everything else (`EventDelivery`). `NoSilentGap` and `RestIsComplete` name the condition on that.
- Fenced theorems (`RunLeases`) need workers that take no database step once their own last claim or
  renewal has run out, and clocks that agree. Unfenced ones (`RunLifecycle`, `ChatInvariants`,
  `InputLifecycle`, `CommandRetries`) need neither. All workers share one attempt limit.
- A request hash is equality of the canonical request. Run identifiers are not empty.
- Identifiers compare code unit by code unit, as `localeCompare` and the database do on lower-case UUIDs.
- Rows of a site carry the site's tenant also in the tables without a foreign key to it (`TenantMove`).

## What turned out to be false

Each of these has its lemma, with a concrete input or run and the exact condition under which the code is safe.

- The frame cap counts bytes of whole reads, so the same text can be refused in one read and accepted in
  several (`SseParser.OneReadMayBeRefused`); short streams never are (`SseParser.ShortStreamsFit`).
- `docs/api/conversation-events.md` says that the cursor event is not sent again. A stream sends events up to its
  cursor again exactly if it was opened before the cursor's event was published and its replay was empty, because its
  last sequence starts at 0 (`EventResends.SentAgainIff`), and every such stream still can
  (`EventResends.SentAgainEventually`). The client ignores the repeat exactly if it has received an event since the
  page was loaded (`CursorEventHiddenIff`); after a reload it applies it a second time (`CursorEventMayBeAppliedAgain`).
- An aborted stream goes on handing over what it had received. If that fixes the client's base, or comes after a
  `sync.required` cleared it, events can be missing without notice (`EventResends.LateEventHidesGap`); a single event
  leaves a gap exactly if it does not fix the base and a public event lies between (`EventDelivery.ReceivedCoversIff`).
- Completed, failed and cancelled are not absorbing one by one while stale workers act: a finished run gets another
  status exactly when a worker settles it again with another outcome (`RunLifecycle.TerminalStatusChangesIff`; a run
  from empty tables is `StaleRuns.CompletedRunFails`). A failed run gets an open handoff exactly when a worker's request
  for one is written then (`RunLeases.HandoffReopensIff`, `StaleRuns.FailedRunsHandoffReopens`). With leases respected
  neither happens.
- A run that pauses for an input that was already resolved waits for ever, and cancelling it is answered with
  `already_finished` (`StaleRuns.AskingAgainIsStuck`). There is something to answer exactly when the request is new or
  another one is pending (`InputLifecycle.PauseCanBeAnsweredIff`, `StuckRunStays`, `StuckRunCannotBeCancelled`).
- Redelivery of an event after a hundred others is not recognised (`ChatReducer.LateRepeatIsAppendedAgain`).
- A submitted message can be live and canonical at once (`ChatReducer.ReduceKeepsDisjointIff`).
- Listing conversations loses rows of one millisecond that straddle a page, since the cursor is coarser than the
  column (`ConversationPaging.SameMillisecondIsLost`); the exact condition is `PagesAreExactIff`.
- The rate limiter keeps a key to twice its limit exactly while the keys in use fit its table
  (`RateLimiter.LimitsIff`); one key more, and three times the limit is granted at one instant (`EvictionForgets`).
- What the direct widget has cut and left over after receiving a text depends on nothing but the text if and only if
  it never has two carriage returns before a line feed (`WidgetStream.ReadTheSameIff`). Without those, whether it
  refuses the text for size depends on the reads exactly if one read would accept it and some frame does not fit together
  with its blank line (`WidgetStream.AcceptanceIsTheSameIff`); a frame of exactly the limit is such an input
  (`WidgetStream.LimitDependsOnReads`).
- An answer whose text is empty does not replace text shown before (`ConnectorText.AnswerSurvives`).
- Stored operation names of inputs are distinct while conversation identifiers hold no colon
  (`CommandRetries.OperationNamesAreDistinct`); with one they collide at every split (`ColonConfusesNames`).

## Model

| member | source | states |
|---|---|---|
| SseText.SplitIsUnique | packages/browser-client/src/http-transport.ts:284-291 | line feeds cut a text into lines and a tail in exactly one way, losing nothing |
| SseText.RoundTrip | apps/server/src/event/route.ts:111-115 | parsing any printed list of events gives exactly that list |
| SseParser.ParseEventStream | packages/browser-client/src/http-transport.ts:224-299 | the read loop computes the chunk-wise meaning for every chunking, cap and failure |
| SseParser.EventStreamParser.ConsumeLine | packages/browser-client/src/http-transport.ts:264-274 | one line takes the parser from the meaning of the lines before to the meaning with it |
| SseParser.EventStreamParser.Dispatch | packages/browser-client/src/http-transport.ts:238-257 | a frame is delivered or refused as the whole-text meaning says |
| SseParser.EventStreamParser.ReadNext | packages/browser-client/src/http-transport.ts:277-292 | after any number of reads the buffer and the fields are those of the text so far, or the cap was hit |
| SseParser.ChunkBoundariesDoNotMatter | packages/browser-client/src/http-transport.ts:276-295 | within the cap, every chunking gives the events of the concatenated text, CRLF split or not |
| SseParser.OverCapKeepsEarlierFrames | packages/browser-client/src/http-transport.ts:280-282 | at the cap, what was delivered is what the earlier reads gave |
| SseParser.ShortStreamsFit | packages/browser-client/src/http-transport.ts:280-282 | a stream no longer than the cap is never refused, however it is read |
| SseParser.OneReadMayBeRefused | packages/browser-client/src/http-transport.ts:280-282 | the same text in one read larger than the cap is refused |
| SseParser.PrintedStreamIsReadBack | apps/server/src/event/route.ts:111-115 | what the server prints, read in any chunks within the cap, is delivered unchanged |
| SseParser.MemoryIsBounded | packages/browser-client/src/http-transport.ts:232-292 | buffer and fields together never exceed twice the cap, at any point inside a read |
| SseParser.MemoryIsBoundedAtEnd | packages/browser-client/src/http-transport.ts:293-295 | nor at the decoder's flush and the last line |
| SseParser.FrameByFrameFits | packages/browser-client/src/http-transport.ts:258-282 | a stream of any length is read in full if every read fits the cap and completes a frame |
| SseDialect.AcceptedIff | packages/browser-client/src/http-transport.ts:247-254 | a frame passes if and only if its data is an envelope and its identifier and type are there and are the envelope's own; otherwise the error says which |
| SseDialect.BlankDelivers | packages/browser-client/src/http-transport.ts:238-257 | a blank line delivers the frame's event exactly then; a frame that does not pass ends the stream and keeps what was delivered |
| SseDialect.OnlyNamedAreDelivered | packages/browser-client/src/http-transport.ts:252-254 | whatever the text, nothing without an identifier and a type is delivered |
| SseDialect.CrLfReadsTheSame | packages/browser-client/src/http-transport.ts:286-289 | a text whose lines end in CRLF means what it means with LF |
| SseDialect.FieldsAreSet | packages/browser-client/src/http-transport.ts:264-274 | id and event replace what the frame had, data is added, and nothing else changes |
| SseDialect.OthersAreIgnored | packages/browser-client/src/http-transport.ts:266-273 | comments and fields of other names change nothing |
| SseDialect.FrameWithoutDataIsDropped | packages/browser-client/src/http-transport.ts:239-239 | a frame without data is dropped with its fields |
| SseDialect.UnfinishedFrameIsDelivered | packages/browser-client/src/http-transport.ts:293-295 | after any printed stream, a last frame is delivered also without its blank line and without the end of its last line |
| WidgetStream.ReadEventStream | examples/direct-chat-widget/site/stream.ts:8-39 | refused for size exactly when some read cuts a frame or leaves a buffer over the limit, as unfinished exactly when what is left is not blank; handed over are exactly the non-blank frames cut before |
| WidgetStream.ReadStep | examples/direct-chat-widget/site/stream.ts:19-28 | rewriting and cutting only what is left over, with the next read, equals rewriting and cutting everything |
| WidgetStream.WholeTextIsRead | examples/direct-chat-widget/site/stream.ts:17-31 | without two carriage returns before a line feed, all reads together cut and leave what the whole text gives |
| WidgetStream.ReadTheSameIff | examples/direct-chat-widget/site/stream.ts:19-28 | what is cut and left over is the same for every way of reading a text if and only if it has no such place |
| WidgetStream.AcceptedHoweverReadIff | examples/direct-chat-widget/site/stream.ts:25-29 | a text is accepted however it is read if and only if every frame fits with its terminator, CRLF counted, and the rest fits |
| WidgetStream.AcceptanceIsTheSameIff | examples/direct-chat-widget/site/stream.ts:25-29 | acceptance depends on the reads exactly if one read accepts and some frame does not fit with its terminator |
| WidgetStream.LimitDependsOnReads | examples/direct-chat-widget/site/stream.ts:25-29 | a frame of exactly the limit is accepted with its blank line and refused when its last line feed comes alone |
| WidgetStream.ReadsMatterWithCrCrLf | examples/direct-chat-widget/site/stream.ts:20-20 | for every plain name, two ways of reading one text hand over different frames |
| WidgetStream.SpokenExactly | examples/direct-chat-widget/site/stream.ts:26-26 | handed over are exactly the cut frames with a character that is not white space |
| EventBroker.BufferedSubscription.Push | apps/server/src/event/broker.ts:21-36 | the pushed subscription is the specified one, and the broker's map stays exact |
| EventBroker.BufferedSubscription.Next | apps/server/src/event/broker.ts:38-46 | reading takes the head, reports the close, waits, or refuses a second waiter |
| EventBroker.BufferedSubscription.Close | apps/server/src/event/broker.ts:48-58 | the closed subscription is the specified one: emptied, detached, its pending read resolved with `closed`; the broker's map stays exact |
| EventBroker.EventBroker.Subscribe | apps/server/src/event/broker.ts:72-81 | the new subscription is in the map's set for its conversation |
| EventBroker.EventBroker.Publish | apps/server/src/event/broker.ts:83-87 | every subscription of the conversation is pushed to, no other is touched |
| EventBroker.EventBroker.MapIsExact | apps/server/src/event/broker.ts:61-81 | the map holds exactly the non-terminal subscriptions of each conversation and no empty set |
| EventBroker.ReadsRefineHistory | apps/server/src/event/broker.ts:11-59 | reads are a prefix of the pushes, in order, then at most one overflow, then closed for ever |
| EventBroker.NothingIsLostSilently | apps/server/src/event/broker.ts:21-46 | a drained subscription without overflow or close has delivered everything |
| EventBroker.DetachesOnce | apps/server/src/event/broker.ts:33-58 | the detach callback runs once, when the subscription becomes terminal |
| EventBroker.ReadsAreResolved | apps/server/src/event/broker.ts:21-58 | over every history, reads seen plus the pending one are the reads that were not refused; a pending one sees an empty queue and a subscription that has not ended |
| EventBroker.PendingReadResolves | apps/server/src/event/broker.ts:21-58 | a pending read is resolved by the next event with that event, and by a close with `closed` |
| EventBroker.EndLeaves | apps/server/src/event/broker.ts:29-57 | a close leaves nothing to read; a push ends the subscription exactly if nobody waits and the queue is full, and leaves just the mark; else nothing is lost |
| EventBroker.ClosedForGood | apps/server/src/event/broker.ts:38-46 | once a subscription has ended and is drained, any number of reads resolve with `closed` at once |
| EventLog.EventStore.Append | apps/server/src/event/store.ts:44-91 | appending numbers the event next, and what is stored stays the last window of the history |
| EventLog.EventStore.Replay | apps/server/src/event/store.ts:93-147 | sync-required exactly when the cursor is no retained public event; otherwise all and only the later public ones, in order |
| EventLog.OrderBySequence | apps/server/src/event/store.ts:144-145 | the ordered selection has the same events, ascending |
| EventLog.OrderedSelection | apps/server/src/event/store.ts:136-146 | ascending rows after a number are the public part of the retained suffix |
| EventDelivery.NoSilentGap | apps/server/src/event/route.ts:50-97 | over all interleavings, aborted streams' leftovers included, only public events are applied; and every one after the base up to the last sequence, unless a leftover of a stream aborted before the base was fixed is delivered |
| EventDelivery.ReceivedCoversIff | packages/browser-client/src/state.ts:79-90 | a new event leaves no gap if and only if it fixes the base or no public event lies between the last one and it |
| EventDelivery.StreamsAreOrdered | apps/server/src/event/route.ts:78-96 | each stream writes public events in strictly increasing order without skipping one |
| EventResends.FirstEvent | apps/server/src/event/route.ts:78-96 | the first event is the next public one after the cursor, or, after an empty replay, the next since the stream was opened |
| EventResends.SentAgainIff | apps/server/src/event/route.ts:78-95 | events up to the cursor are sent again exactly by streams opened before its event was published and answered with nothing |
| EventResends.SentAgainEventually | apps/server/src/event/route.ts:83-96 | every such stream that follows its subscription has a continuation that sends the cursor's event |
| EventResends.CursorEventHiddenIff | packages/browser-client/src/state.ts:79-90 | on every run the client ignores its cursor's event exactly if it received an event since the page was loaded, else applies it again |
| EventResends.CursorEventMayBeAppliedAgain | packages/browser-client/src/client.ts:60-80 | a run with a reload in which that happens |
| EventResends.LateEventHidesGap | packages/browser-client/src/http-transport.ts:284-291 | a run in which an aborted stream's leftover fixes the base and an event is missing |
| EventDelivery.RestIsComplete | apps/server/src/event/route.ts:83-96 | whenever everything is published, read and delivered, the client lacks nothing, under the same condition |
| EventDelivery.BaseIsLostOnlyToSync | packages/browser-client/src/client.ts:230-240 | the base is lost only by a reload or by a delivered sync.required |
| EventDelivery.LossIsAnnounced | apps/server/src/event/route.ts:86-92 | on every run, a stream that has not ended owes exactly the published events it has not taken, or an overflow; one that has ended owes a sync.required, and with its events delivered the next delivery leaves a fresh client |
| EventDelivery.LostCursorIsAnnounced | apps/server/src/event/route.ts:55-76 | a replay is answered with nothing but a sync.required exactly if the log no longer retains the cursor, and its delivery leaves a fresh client |
| EventDelivery.LateIsHeeded | packages/browser-client/src/client.ts:230-246 | an aborted stream's leftovers count in order, its sync.required included, which also gives up the present stream |
| EventProgress.OverflowIsDelivered | apps/server/src/event/route.ts:83-97 | from every run in which a stream has overflowed, a continuation delivers its sync.required |
| EventProgress.CanAlwaysCatchUp | apps/server/src/event/route.ts:50-97 | from every run, without another event or reload, everything can come to rest, and then the client has every public event after its base |
| EventDelivery.ClientFollowsReducer | packages/browser-client/src/client.ts:230-246 | cursor, last sequence and remembered identifiers evolve as in the reducer |
| ChatDatabase.OutcomeRoundTrip | apps/server/src/run/service.ts:127-140 | the stored cancellation outcome reads back for every run identifier |
| RunLifecycle.StepMoves | apps/server/src/run/worker.ts:446-530 | each step moves each run by one named move; runs appear queued under unused identifiers and vanish only with their conversation |
| RunLifecycle.Bookkeeping | apps/server/src/run/worker.ts:446-530 | in every reachable state the lease is set exactly while running or cancel_requested, completion exactly when terminal, attempts within the limit |
| RunLifecycle.NoResurrection | apps/server/src/run/service.ts:72-94 | a run asked to cancel or finished is never queued, running or waiting again, and a claim of it does nothing |
| RunLifecycle.TerminalStatusChangesIff | apps/server/src/run/worker.ts:446-531 | a finished run gets another status exactly when a worker completes, cancels or fails it with another outcome |
| StaleRuns.CompletedRunFails | apps/server/src/run/worker.ts:446-531 | a run of the system from empty tables in which a stale worker turns completed into failed |
| RunLifecycle.ClaimsAreBounded | apps/server/src/run/worker.ts:36-49 | successful claims are at most the attempts left plus the limit for each run added |
| RunLifecycle.CancelReplyIsTrue | apps/server/src/run/service.ts:61-108 | the reply says what became of the newest run: cancelled on the spot exactly if queued, asked to cancel exactly while held, else untouched |
| RunLifecycle.SettlingLeavesNothingOpen | apps/server/src/run/worker.ts:494-531 | cancelling leaves no answer pending or streaming; failing leaves the code, no handoff of the run open, and other or completed handoffs alone |
| RunLifecycle.SubmittedIsClaimable | apps/server/src/message/service.ts:123-135 | a submitted message's run can be claimed at once |
| ChatInvariants.AlwaysWhole | apps/server/src/run/worker.ts:301-531 | every run of the system keeps message numbering, the pairing of messages and runs, foreign keys and unique handoffs |
| ChatInvariants.NumbersAreGapless | apps/server/src/message/service.ts:96-122 | a conversation's sequences are exactly 1 to next - 1, each once, user and assistant messages together |
| ChatInvariants.OneAnswerPerRun | apps/server/src/run/worker.ts:307-331 | each assistant message belongs to one run and a run has at most one over all attempts |
| ChatInvariants.AlwaysKeyed | apps/server/src/message/service.ts:56-149 | without retention, user messages, the runs they trigger and their idempotency keys stay in bijection |
| ChatInvariants.MessageSubmittedKeepsWhole | apps/server/src/message/service.ts:96-148 | submitting takes the next number and adds the pair of message and run |
| ChatInvariants.EmailHandoffCreatedKeepsWhole | apps/server/src/email-handoff/service.ts:96-158 | run, handoff and input are added together and fit |
| ChatInvariants.DeletedKeepsWhole | apps/server/src/privacy/retention.ts:105-152 | deleting a conversation leaves no dangling row |
| RowHistories.AcceptedIff | apps/server/src/structured-input/service.ts:65-161 | a command with a new key is accepted if and only if conditions on the rows hold that a caller could check; each refusal names its error and changes nothing |
| RowHistories.NotOwnedIsRefused | apps/server/src/message/service.ts:78-86 | a command with a new key on somebody else's conversation changes nothing and is refused as malformed or not found |
| RowHistories.PickedIsNewest | apps/server/src/run/service.ts:61-71 | a cancellation works on the newest run, an email handoff on the last completed user message |
| RowHistories.SameKeyIff | apps/server/src/message/service.ts:52-66 | two commands share a key exactly if caller, key, kind and address agree |
| RowHistories.WriteFailsIff | apps/server/src/run/worker.ts:301-419 | a worker's write fails exactly when the rows it needs are not there or belong to another run |
| RowHistories.MessageAfterStep | apps/server/src/message/service.ts:96-122 | every message row after every step of anyone, in full: submitting and starting make one, only finishing sets its text, only cancelling cuts it off |
| RowHistories.RunAfterStep | apps/server/src/run/worker.ts:134-169 | likewise every run row: attempts, lease, times, error code, trigger |
| RowHistories.HandoffAfterStep | apps/server/src/structured-input/service.ts:144-150 | likewise every handoff row: an answer with a value sets the run's handoffs to delivering, a declined one leaves them |
| RowHistories.InputAfterEveryStep | apps/server/src/structured-input/service.ts:105-115 | likewise every input row: value, consent and its time, exactly as answered |
| RowHistories.ConversationAfterStep | apps/server/src/message/service.ts:96-104 | likewise every conversation row: owner and agent never change, numbers are taken one at a time |
| RowHistories.KeyAfterStep | apps/server/src/message/service.ts:136-147 | likewise every key: recorded exactly by an accepted command, with its request and answer, and forgotten only by the sweep |
| ChatTexts.ReportedTextIsStored | apps/server/src/run/worker.ts:332-342 | after any run of the system, an accepted report completes the run's answer with exactly its parts and changes nothing else |
| ChatTexts.TextIsLastTold | apps/server/src/run/worker.ts:332-342 | after any run of the system, every message holds what its user submitted or its run's connector reported last |
| ChatTexts.SubmittedRows | apps/server/src/message/service.ts:96-135 | after any run of the system, an accepted message has the next number and its text, and its run is queued, triggered by it, at the time of the command |
| ChatTexts.UserMessageStays | apps/server/src/message/service.ts:108-122 | no later step changes a user's message, except that deletion of its conversation removes it |
| ChatTexts.GivenAnswerIsLoaded | apps/server/src/structured-input/service.ts:104-122 | an accepted answer is what a worker loads from then on, with its time of consent, until it is redacted |
| InputLifecycle.ResolvedInputsLoad | apps/server/src/run/worker.ts:246-276 | the consent errors are unreachable and the values handed on are those submitted |
| InputLifecycle.AlwaysResolutions | apps/server/src/database/migrations/006_create_handoffs_and_structured_inputs.ts:70-76 | every step keeps the resolution check, expiry and email handoffs included |
| InputLifecycle.LeavesPendingByAnswer | apps/server/src/structured-input/service.ts:95-122 | an input leaves pending exactly by an accepted answer |
| InputLifecycle.ResumedExactlyWhenAnswered | apps/server/src/structured-input/service.ts:104-143 | a waiting run is queued in the same step in which one of its pending inputs is answered, and in no other |
| InputLifecycle.AnsweredAtMostOnce | apps/server/src/structured-input/service.ts:80-150 | over any run of the system at most one answer to an input is accepted, none if it was resolved |
| InputLifecycle.AnsweredIsClaimable | apps/server/src/structured-input/service.ts:123-143 | the resumed run can be claimed at once, while it has attempts left |
| InputLifecycle.EmailHandoffLoads | apps/server/src/email-handoff/service.ts:78-145 | its run starts from the latest user message and loads the address with its consent |
| InputLifecycle.RedactionIsComplete | apps/server/src/privacy/retention.ts:31-36 | exactly the values older than the cutoff are gone, and nothing else changed |
| InputLifecycle.PauseCanBeAnsweredIff | apps/server/src/run/worker.ts:365-469 | after asking and pausing there is something to answer exactly if the request is new or one was pending |
| InputLifecycle.StuckRunStays | apps/server/src/structured-input/service.ts:123-143 | a run waiting with nothing pending is never moved by any command, other worker or redaction |
| InputLifecycle.StuckRunCannotBeCancelled | apps/server/src/run/service.ts:92-94 | cancelling it is answered with already_finished |
| StaleRuns.AskingAgainIsStuck | apps/server/src/run/worker.ts:365-469 | a run of the system from empty tables that ends in such a state: ask, answer, ask the same again |
| RunLeases.OneWorkerPerRun | apps/server/src/run/worker.ts:134-169 | with leases respected, one live worker per run, at the row's attempt and lease, the row running or cancel_requested |
| RunLeases.FinishedForGood | apps/server/src/run/worker.ts:446-531 | with leases respected, a finished run's row never changes again |
| RunLeases.FailedRunsHaveNoOpenHandoff | apps/server/src/run/worker.ts:510-530 | with leases respected, a failed run's handoff is completed or failed |
| RunLeases.HandoffReopensIff | apps/server/src/run/worker.ts:345-419 | without them, a failed run gets an open handoff exactly when a request for contact or a first handoff is written for it |
| StaleRuns.FailedRunsHandoffReopens | apps/server/src/run/worker.ts:365-405 | a run of the system from empty tables in which that happens |
| RunLeases.LeasedRunsAreRuns | apps/server/src/run/worker.ts:480-492 | every leased run is an unrestricted one, so all the unfenced theorems apply |
| CommandRetries.RepeatsStutter | apps/server/src/message/service.ts:56-149 | dropping every repeat of an accepted command from any run leaves the same final database |
| CommandRetries.RepeatGetsFirstAnswer | apps/server/src/message/service.ts:58-76 | a repeat changes nothing and gets the first answer if and only if it asks for the same, a conflict otherwise |
| CommandRetries.OperationNamesAreDistinct | apps/server/src/structured-input/service.ts:41-41 | stored operation names of different operations differ |
| CommandRetries.ColonConfusesNames | apps/server/src/structured-input/service.ts:41-41 | every text with two colons is the name of two operations |
| RunWorkers.RunWorker.SelectCandidate | apps/server/src/run/worker.ts:136-154 | the candidate is claimable and first by availability and creation; none means none is claimable |
| RunWorkers.RunWorker.Claim | apps/server/src/run/worker.ts:134-169 | claiming changes exactly that row as the model's step does |
| RunWorkers.RunWorker.RenewLease | apps/server/src/run/worker.ts:480-492 | renewal succeeds exactly while running at that attempt |
| RunWorkers.RunWorker.Materialize | apps/server/src/run/worker.ts:301-419 | the statements for each event do the model's step, and a throw leaves the tables as they were; what that step does is `RowHistories` and `ChatTexts` |
| RunWorkers.RunWorker.Cancel | apps/server/src/run/worker.ts:494-508 | both updates together are the model's step |
| RunWorkers.RunWorker.Fail | apps/server/src/run/worker.ts:510-530 | both updates together are the model's step |
| RunWorkers.RunWorker.ProcessNext | apps/server/src/run/worker.ts:51-132 | whatever the connector and everybody else do, the account of waits and statements is a run of the model, and each decision in it is owed to what the tables and the stop signal showed at a moment of that account; the run is at rest unless its row is gone |
| WorkerConduct.OutcomeWasReported | apps/server/src/run/worker.ts:101-110 | completed or set to wait only on a valid, logged event of the connector, after all earlier ones were written in order |
| WorkerConduct.CancelWasAsked | apps/server/src/run/worker.ts:81-126 | cancelled only if a request to cancel was in the row, or the signal up, at a moment before |
| WorkerConduct.FailureWasOwed | apps/server/src/run/worker.ts:74-126 | failed for a broken execution only if the context did not load, the row was gone, the connector threw, or an event could not be written, logged or waited for |
| WorkerConduct.FailingAtOnceIff | apps/server/src/run/worker.ts:74-126 | failing a run at once is a worker's work if and only if its context does not load or the connector throws before it yields |
| WorkerConduct.EveryEndIsExplained | apps/server/src/run/worker.ts:51-132 | every execution without a connector fails the run at once; with one, what it said is written in order up to some event, and then comes exactly what that event, a cancellation, or one of the three failures calls for |
| WorkerConduct.ContextAlwaysLoads | apps/server/src/run/worker.ts:171-299 | in every reachable state the context of a run loads exactly if its row is there |
| ChatServices.CommandService.SubmitMessage | apps/server/src/message/service.ts:45-151 | the statements, rolled back on failure, do exactly the model's command; what that makes of each row is `RowHistories` and `ChatTexts` |
| ChatServices.CommandService.CancelRun | apps/server/src/run/service.ts:29-114 | likewise, on the run with the newest creation time |
| ChatServices.CommandService.SubmitInput | apps/server/src/structured-input/service.ts:33-165 | likewise, with the input's update undone when its run is not waiting |
| ChatServices.CommandService.CreateEmailHandoff | apps/server/src/email-handoff/service.ts:29-161 | likewise, on the latest completed user message |
| ChatServices.CommandService.CreateConversation | apps/server/src/conversation/service.ts:34-103 | likewise |
| ChatReducer.CanonicalIs | packages/browser-client/src/state.ts:162-168 | the canonical messages are the last of each identifier, in order |
| ChatReducer.SortedIsUnique | packages/browser-client/src/state.ts:164-167 | that leaves no choice, so any sort gives them |
| ChatReducer.AlwaysSane | packages/browser-client/src/state.ts:13-160 | in every reachable state remembered identifiers are distinct and at most a hundred, messages canonical, live messages under their own identifier |
| ChatReducer.ReduceKeepsDisjointIff | packages/browser-client/src/state.ts:19-49 | live and canonical messages stay apart except exactly when a live message's identifier is submitted |
| ChatReducer.IgnoredExactly | packages/browser-client/src/state.ts:79-90 | an event changes nothing if and only if it is remembered or asks for a resync |
| ChatReducer.RedeliveryIsHarmless | packages/browser-client/src/state.ts:79-160 | when repeats come within the last hundred distinct identifiers, the state is that of the first deliveries alone, whatever these give (`ChatFields`) |
| ChatReducer.LateRepeatIsAppendedAgain | packages/browser-client/src/state.ts:83-129 | a hundred other events later repeated text is appended again |
| ChatReducer.RunIsTheLatestToldOf | packages/browser-client/src/state.ts:91-105 | after new events the run is what the latest run event says, whatever came between |
| ChatReducer.ToolIsShownOnce | packages/browser-client/src/state.ts:181-201 | a tool that starts and ends is shown once, as ended, and other parts stay |
| ChatFields.ToldAfter | packages/browser-client/src/state.ts:91-118 | run, contact request and handoff after every action, in full |
| ChatFields.PhaseAndErrorAfter | packages/browser-client/src/state.ts:13-118 | phase and error after every action, in full |
| ChatFields.PlaceAfter | packages/browser-client/src/state.ts:18-90 | session, conversation and cursor after every action; the last sequence never falls by an event |
| ChatFields.RecentAfter | packages/browser-client/src/state.ts:83-89 | an event that counts is remembered last, with all the latest before it up to a hundred |
| ChatFields.MessagesAfter | packages/browser-client/src/state.ts:19-48 | canonical messages come only from a snapshot, the last of each identifier, or by submitting |
| ChatFields.LiveAfter | packages/browser-client/src/state.ts:119-160 | a live message goes when it becomes canonical or is cleared, and else changes only by a counting event of its own, as that event says |
| ChatFields.HandoffIsTheLatestToldOf | packages/browser-client/src/state.ts:108-118 | after distinct new events the handoff is what the latest handoff event says, completed exactly if it says so |
| ConnectorText.TextChunks | connectors/haystack/src/translate.ts:95-101 | chunks are non-empty, at most 20,000 long, full but for the last, and concatenate to the text |
| ConnectorText.SplitTextJoins | connectors/mock/src/index.ts:82-90 | pieces are non-empty, at most the requested number, no longer than the ceiling, and concatenate to the text |
| ConnectorText.PieceAt | connectors/mock/src/index.ts:87-89 | piece k is the slice from k sizes to k + 1 sizes |
| ConnectorText.AnswerSurvives | connectors/haystack/src/translate.ts:14-56 | after the events the client shows a completed message with the answer's parts, and its text unless that is empty and something was shown |
| ConnectorText.OnceIs | connectors/haystack/src/translate.ts:24-24 | each tool is there once, no other is, in the order of first use |
| ConnectorText.AnswerIsShownAsItComes | connectors/haystack/src/translate.ts:26-41 | after any number of chunks the client shows each tool once, as completed, then the citations, and the text so far |
| ConnectorText.AnswerSettlesRun | connectors/haystack/src/translate.ts:47-55 | in the end the run is completed, the chat ready, and the handoff requested exactly if the answer asks for it |
| RateLimiter.FixedWindowRateLimiter.Consume | apps/server/src/security/rate-limit.ts:29-52 | table and decision are the specified functions of the old table |
| RateLimiter.FixedWindowRateLimiter.MakeRoom | apps/server/src/security/rate-limit.ts:54-65 | when full, the first of the least recently seen windows goes, no other |
| RateLimiter.AtMostTwiceTheLimit | apps/server/src/security/rate-limit.ts:29-52 | a key never evicted is allowed at most twice the limit in any closed interval of one window length |
| RateLimiter.LimiterBound | apps/server/src/security/rate-limit.ts:29-65 | so from an empty table while the keys used fit |
| RateLimiter.LimitsIff | apps/server/src/security/rate-limit.ts:29-65 | the bound is kept for the callers of a set of keys if and only if the table has room for all of them |
| RateLimiter.SizeIsBounded | apps/server/src/security/rate-limit.ts:36-40 | the table never exceeds maxKeys windows, or one if that is zero |
| RateLimiter.NoEvictionAtAll | apps/server/src/security/rate-limit.ts:54-65 | while the distinct keys used fit nothing is evicted |
| RateLimiter.WaitingIsEnough | apps/server/src/security/rate-limit.ts:46-51 | a refused caller is allowed after resetSeconds, whatever others do |
| RateLimiter.LessIsNotEnough | apps/server/src/security/rate-limit.ts:46-51 | one second less and a refused caller that is not forgotten is still refused |
| RateLimiter.LimitIsGranted | apps/server/src/security/rate-limit.ts:42-49 | a key without a window is granted exactly the announced limit at once |
| RateLimiter.EvictedIsLeastRecent | apps/server/src/security/rate-limit.ts:54-65 | over any calls, a key whose window goes by another's call had been called no later than any other key that has one |
| RateLimiter.RemainingIsExact | apps/server/src/security/rate-limit.ts:42-50 | of further calls at the same time exactly the announced remainder is allowed |
| RateLimiter.EvictionForgets | apps/server/src/security/rate-limit.ts:54-65 | any names one more than there is room for, called at one instant: one gets three times its limit |
| MessagePaging.CursorRoundTrip | apps/server/src/message/service.ts:28-40 | a sequence's cursor reads back exactly if it is positive and a safe integer |
| MessagePaging.DecodedIsEncoded | apps/server/src/message/service.ts:31-40 | every accepted cursor is the encoding of its number |
| MessagePaging.CursorRefusedIff | apps/server/src/message/service.ts:31-40 | a cursor is refused if and only if it is neither empty nor that of a positive safe integer |
| MessagePaging.PageAt | apps/server/src/message/service.ts:153-184 | the cursor of a row leads to the page that starts at the next row |
| MessagePaging.ListMessages | packages/browser-client/src/http-transport.ts:100-120 | on a growing table the loop returns all of the first table that fits the pages read, never an invalid or repeated cursor, and fails exactly when none fits |
| MessagePaging.NothingIsMissed | packages/browser-client/src/http-transport.ts:100-120 | every message there at the first request is returned once, in order |
| ConversationPaging.PagesAreExactIff | apps/server/src/conversation/service.ts:156-204 | on a fixed table the pages together are the table if and only if at each page boundary the cursor selects the next row |
| ConversationPaging.SamePrecisionIsExact | apps/server/src/conversation/service.ts:170-186 | with a cursor as precise as the column that always holds |
| ConversationPaging.MillisecondsApartIsExact | apps/server/src/conversation/service.ts:195-201 | the code's cursor is exact when neighbours are never of one millisecond |
| ConversationPaging.SameMillisecondIsLost | apps/server/src/conversation/service.ts:195-201 | two rows of one millisecond, one to a page: the second is never listed |
| TenantMove.WidgetRegistry.ProvisionWidgetRegistry | apps/server/src/provisioning/widget.ts:61-213 | the statements in order give the specified registry, or roll back with the specified error; constraints hold on commit |
| TenantMove.ProvisionKeepsCoherent | apps/server/src/provisioning/widget.ts:78-177 | on commit every scoped foreign key and unique constraint holds |
| TenantMove.RelabelKeepsUnique | apps/server/src/provisioning/widget.ts:85-156 | no relabelling statement can break a unique constraint, which are not deferred |
| TenantMove.MoveIsPureRelabelling | apps/server/src/provisioning/widget.ts:83-210 | rows of the moved site carry the new tenant and are otherwise unchanged, all others untouched, save the widget written |
| TenantMove.CommittedRows | apps/server/src/provisioning/widget.ts:67-210 | after a commit tenant, site and widget are as configured, field by field, and every other tenant and site is as it was |
| TenantMove.AuditMoves | apps/server/src/provisioning/widget.ts:151-156 | exactly the audit rows of the moved site under its former tenant carry the new one |
| TenantMove.ProvisionSucceedsIff | apps/server/src/provisioning/widget.ts:78-210 | the exact condition, checkable beforehand, under which the transaction commits |
| TenantMove.FailureReason | apps/server/src/provisioning/widget.ts:159-210 | and otherwise it fails for the first of three reasons, in the order of the statements |
| TenantMove.MovingBackRestores | apps/server/src/provisioning/widget.ts:85-156 | moving back restores every row |

## Left out

- InputLifecycle.AnsweredAtMostOnce: excludes deletion of conversations, because it frees request identifiers, which connectors choose.
- ChatTexts.GivenAnswerIsLoaded: excludes deletion of conversations, for the same reason.
- CommandRetries.RepeatsStutter: excludes the sweep of old keys, after which a repeat is a new command.
- CommandRetries.RepeatGetsFirstAnswer: the reply is the resource identifier or the cancel outcome; the read of the resource that follows a command is not modelled, so a resource deleted meanwhile is not.
- ChatInvariants.AlwaysKeyed: excludes retention, which deletes messages and keys separately.
- ChatInvariants.DeletedKeepsWhole: participants, events and the tenant and site columns of the deletions are left out.
- ChatInvariants.AlwaysWhole: participants, and the tenant and site columns of rows below a conversation, are left out.
- EventDelivery.NoSilentGap: does not say exactly-once across streams, which is false of the code; the condition on leftovers is sufficient, `ReceivedCoversIff` is the exact one for each event.
- RunWorkers.RunWorker.ProcessNext: reads of participants and the principal in the run's context always succeed, and a database failure other than a constraint is not modelled.
- SseParser.MemoryIsBounded: decoding of UTF-8 enters only through how many characters a number of bytes can give.
- WidgetStream.ReadEventStream: the parsing of a frame's JSON is not modelled; frames are compared as text, and white space is that of ASCII.
- WidgetStream.ReadTheSameIff: speaks of a text received, not of the flush that ends a stream, which rewrites what is left over once more.
- ConnectorText.AnswerSurvives: public tool labels, source identifiers and safe links of citations are taken as given.
- JSON, schemas, base64url, SHA-256, UUIDs and time zones: library behaviour, as abstract codecs or parameters.
- Liveness of runs whose cancellation was requested, or whose attempts are used up: the code does not promise it.
- The Haystack connector's own event-stream parser: the same loop as the browser's, without fields other than data.
- Reconnect timers, session renewal and cross-tab storage of the client: environment steps or outside the cursor path.
- The list methods of the admin service: the same keyset pages as for conversations and messages.
- Export of worker sites, configuration parsing, routes, authentication, appearance and analytics: they would add easy members only.
