# ADACS job controller client: a verified model

The client is a daemon that talks to a job controller over one persistent WebSocket, and over one more socket for each
file transfer. This project models its concurrent and stateful core in Dafny 4.11 and proves what that core keeps, over
every input and every interleaving:

* **the outbound queue and its scheduler**: 20 priority levels, a FIFO per source, the scan that restarts at level 0
  when more urgent data shows up and moves on after 16 messages, and the `Notify` it parks on
  (`Outbound`, `Scheduler`, `Gates`, `Fairness`, `Starvation`, `Sender`);
* **DB requests over reconnecting links**: 32-bit ids, the promise map, the check / insert / queue / re-check sequence,
  replies, timeouts, disconnects and generations (`Requests`, `Outcomes`, `RequestClient`);
* **file transfers**: the download loop with pause and resume, the upload loop, the recursive listing
  (`Download`, `DownloadRuns`, `TransferLoop`, `Upload`, `Listing`, `Frames`);
* **the wire format and the records on it** (`Wire`, `Utf8`, `Messaging`, `Records`);
* **submission claims and status reconciliation** (`Submit`, `Settlement`, `StatusSync`, `StatusUpdates`).

Interleaved behaviour is a step machine: an event is one atomic access to shared state and carries every choice of the
environment (the source a map yields first, contended locks, peer input, timers), so a run is a list of events and a
statement about all lists is a statement about all interleavings. Code that updates fields or loops is a class or a
method whose contract ties it to the machine (`Sender.Client`, `RequestClient.Client`, `TransferLoop.Supervisor`,
`Messaging.Message`, `Submit.Handler`, `StatusSync.Checker`, `Upload.ReceiveUpload`, `Listing.Walk`), so the lemmas about the
machine are lemmas about it.

`dafny verify dfyconfig.toml` checks the whole project.

## What was found on the way

Five promises fail in general. Each comes with the condition that decides it, and with a reachable run that breaks it.

* *The 16-message cap protects less urgent messages.* It bounds what overtakes a waiting level if and only if no level
  above it other than level 0 is busy; on runs where no lock is found contended, if and only if at most one level above it
  is busy (`Starvation.ProtectedExactly`). Otherwise the restart at level 0 starves the waiting level for as long as one
  likes: two busy levels do it alone (`Starvation.TwoBusyLevelsStarve`), and one does it when a lock is contended after
  each of its messages (`Starvation.ContentionStarves`).
* *The re-check after queueing fails every request whose message was dropped.* It does if and only if the connection is
  still closed at the re-check (`Requests.DroppedRequestFailsIffClosed`); after a reconnect in between, the request waits
  for its timeout on a live connection (`Requests.ReconnectHidesDroppedMessage`).
* *A Pause stops a download until the next Resume.* It does if and only if no Resume came in since a stored permit last
  ended a wait (`DownloadRuns.PauseEndsEarlyIffResumeUnspent`). Every Resume stores a permit, and the next wait spends it:
  Resume, Pause, and the reads go on (`DownloadRuns.StalePermitEndsPause`).
* *A second status pass over the same report is silent.* It is if and only if every status fits in an i32 and no name is
  reported with two values (`StatusSync.SecondPassIsQuietIffSteady`).
* *The last status update on a name is the last status reported for it.* In a forced pass it is; in an unforced one, if and
  only if the name is not reported as i32::MAX after something larger (`StatusUpdates.LastWordIsTheReportUnlessMasked`).
  The larger status is stored as i32::MAX, so the i32::MAX that follows looks old and is not told
  (`StatusUpdates.MaskedReport`).

Where comments and code disagree the model follows the code. `clear_queued_messages` says that data in a contended level is
cleared on reconnect (src/src/websocket.rs:206-226); no code does that, so the model keeps such data queued and the
scheduler of the next connection sends it. `does_higher_priority_data_exist` says that a contended lock costs at most one
extra empty scan (src/src/websocket.rs:182-187); it also restarts the count of 16, as above.

## Model

| member | source | states |
|---|---|---|
| Wire.FromToLE | src/src/messaging.rs:195-214 | the little-endian image of every value of every width decodes to that value |
| Wire.ToFromLE | src/src/messaging.rs:231-250 | and every byte string is the image of the value it decodes to |
| Wire.ByteAt | src/src/messaging.rs:195-198 | byte i of an image is the i-th least significant byte of the value |
| Wire.FromLEIsWeighted | src/src/messaging.rs:200-214 | a decoded value is the sum of its bytes, each times 256 to its position |
| Wire.TwosComplement | src/src/messaging.rs:216-229 | the image of a signed value is the value modulo 2^bits, and what is read of an image is congruent to it |
| Utf8.LossyIsValid | src/src/messaging.rs:307-312 | a popped string is valid UTF-8 whatever bytes were on the wire |
| Utf8.LossyIdentityIffValid | src/src/messaging.rs:307-312 | lossy decoding changes exactly the byte strings that are not UTF-8 |
| Utf8.ValidIffScalars | src/src/messaging.rs:297-312 | the accepted byte strings are exactly the encodings of sequences of Unicode scalar values, surrogates and overlong forms excluded |
| Utf8.LossyKeepsPrefix | src/src/messaging.rs:307-312 | a valid prefix survives decoding whatever follows it |
| Utf8.LossyMarksTheError | src/src/messaging.rs:307-312 | every ill-formed string keeps what precedes its first error and shows U+FFFD right after it |
| Utf8.OneMarkPerError | src/src/messaging.rs:307-312 | a scalar cut short and a byte that starts none each become one U+FFFD, and decoding resumes right behind |
| Messaging.PopAllStaysInside | src/src/messaging.rs:136-334 | on arbitrary bytes any sequence of pops moves the cursor forward only, never past the buffer, and leaves the buffer alone |
| Messaging.PopUnsignedExactly | src/src/messaging.rs:200-214 | on any bytes a pop yields the weighted bytes and steps over them, or yields 0 and stays |
| Messaging.PopBlobExactly | src/src/messaging.rs:320-334 | on any bytes a pop yields what the length announces if it is all there, otherwise nothing past the length field |
| Messaging.BooleanExactly | src/src/messaging.rs:123-129 | a boolean is the byte 1 or 0, and reads as true from a byte 1 only |
| Messaging.TextsAreValid | src/src/messaging.rs:307-312 | whatever the bytes, popped strings and parsed sources are valid UTF-8, and valid ones come back as they are |
| Messaging.BlobLayout | src/src/messaging.rs:314-318 | a byte string is eight length bytes, least significant first, and the bytes |
| Messaging.HeaderLayout | src/src/messaging.rs:76-97 | a message starts with its source as such a string and its id in four bytes |
| Messaging.PopEncoded | src/src/messaging.rs:123-334 | popping a pushed value of any kind returns it and advances by exactly its image |
| Messaging.PopBlobEncoded | src/src/messaging.rs:314-334 | a length-prefixed byte string reads back whole, the empty one included |
| Messaging.PopAllEncoded | src/src/messaging.rs:123-334 | any sequence of pushes reads back as itself from any position in a buffer |
| Messaging.ParseMessage | src/src/messaging.rs:76-121 | `from_data` recovers source, id and the exact payload of any message |
| Messaging.MessageRoundTrip | src/src/messaging.rs:76-334 | new, any typed pushes, from_data, matching pops: the same source, id and values, cursor at the end of the buffer |
| Messaging.EncodingIsInjective | src/src/messaging.rs:76-334 | equal bytes mean equal headers, and equal values when read with the same kinds |
| Messaging.Message.New | src/src/messaging.rs:76-97 | a new message holds the image of its source and id |
| Messaging.Message.FromData | src/src/messaging.rs:99-121 | parsing sets source, id and cursor as specified and priority Lowest |
| Messaging.Message.PushUnsigned | src/src/messaging.rs:195-198 | an unsigned push appends the value's image and nothing else |
| Messaging.Message.PopUnsigned | src/src/messaging.rs:200-214 | an unsigned pop; on underflow 0 with the cursor unmoved |
| Messaging.Message.PushSigned | src/src/messaging.rs:216-218 | a signed push appends the two's complement image |
| Messaging.Message.PopSigned | src/src/messaging.rs:220-229 | a signed pop; on underflow 0 with the cursor unmoved |
| Messaging.Message.PushBool | src/src/messaging.rs:123-125 | a boolean is one byte, 0 or 1 |
| Messaging.Message.PopBool | src/src/messaging.rs:127-129 | only the byte 1 reads as true |
| Messaging.Message.PushBytes | src/src/messaging.rs:314-318 | length then bytes are appended |
| Messaging.Message.PopBytes | src/src/messaging.rs:320-334 | a length past the end yields nothing and consumes the length only |
| Messaging.Message.PushString | src/src/messaging.rs:297-305 | a string is pushed as its UTF-8 bytes |
| Messaging.Message.PopString | src/src/messaging.rs:307-312 | a string is popped through lossy decoding |
| Messaging.Message.ClonePayloadBytes | src/src/messaging.rs:358-361 | the payload independent of the cursor |
| Messaging.Message.CloneForPayloadReading | src/src/messaging.rs:344-356 | a fresh message is read from its payload under its parsed header, a partly read one from its cursor under its own |
| Messaging.Message.AppendRawBytes | src/src/messaging.rs:363-365 | raw bytes are appended unframed |
| Records.JobRoundTrip | src/src/db/mod.rs:220-235 | a saved job parses back as its normal form and the cursor lands right behind it |
| Records.StatusRoundTrip | src/src/db/mod.rs:244-253 | the same for a saved status |
| Records.ParsedJobIsNormal | src/src/db/mod.rs:35-48 | whatever parse_job returns, from any bytes, is a fixed point of that normalisation with valid strings |
| Records.NormaliseExactly | src/src/db/mod.rs:225-235 | a save keeps a job as it is iff its ids are positive or absent and its counter not negative, and says what becomes of the rest |
| Records.SaturatesToNearest | src/src/db/mod.rs:16-33 | ids and states are converted to the nearest value that fits, negative states to u32::MAX |
| Records.JobLayout | src/src/db/mod.rs:226-235 | the position of every field of a saved job |
| Records.StatusLayout | src/src/db/mod.rs:249-253 | the position of every field of a saved status |
| Records.FieldLayout | src/src/db/mod.rs:226-235 | the bytes of the fixed-width fields |
| Records.JobsRoundTrip | src/src/db/mod.rs:82-93 | a run of encoded jobs parses back job by job |
| Records.ListRoundTrip | src/src/db/mod.rs:21-23 | the count clamp never bites on a well-formed list: all records come back in order |
| Records.PopCount | src/src/db/mod.rs:21-23 | on any bytes the count is at most the bytes left |
| Records.PopCountExactly | src/src/db/mod.rs:21-23 | on any bytes the count is the smaller of what is announced and what is left |
| Records.EnvelopeRoundTrip | src/src/websocket.rs:859-866 | a wrapped request is received with the same source and id, its request id, and exactly the original payload left to read |
| Records.SavedJobRoundTrip | src/src/db/mod.rs:220-242 | a saved job sent in the envelope arrives as that request and as the job's normal form, with nothing left over |
| Records.WrapRequest | src/src/websocket.rs:859-866 | the wrapping code produces header, request id and payload, whatever was read of the message before |
| Records.EncodeSaveJob | src/src/db/mod.rs:225-235 | the pushes of save_job produce the image of the job under the database source, id and priority |
| Records.ExchangeSaveJob | src/src/db/mod.rs:220-242 | encoding, wrapping, parsing and popping in sequence: the other side reads this request's id and the job's normal form, and nothing is left |
| Records.PushStatus | src/src/db/mod.rs:249-253 | the pushes of save_status produce the image of the status |
| Records.PopJob | src/src/db/mod.rs:35-48 | the pops of parse_job compute the specified record and cursor |
| Records.PopStatus | src/src/db/mod.rs:50-57 | the pops of parse_status likewise |
| Records.ReadJobs | src/src/db/mod.rs:75-94 | the response loop returns the specified list for fresh and for partly read responses |
| Outbound.TakeShrinks | src/src/websocket.rs:487-498 | taking one message removes exactly one from the total |
| Outbound.PrunedAndClearedExactly | src/src/websocket.rs:202-253 | which sources pruning and clearing keep, source by source, and that pruning loses no message |
| Scheduler.InvStep | src/src/websocket.rs:440-533 | every atomic access keeps: a level the pass has gone by is empty, or a wake-up is under way, or another pass follows |
| Scheduler.NoLostWakeUp | src/src/websocket.rs:440-461 | in every interleaving of one generation, parked with the server ready and data queued means a permit is stored or a writer is between its write and its notify |
| Gates.EverySendIsCleared | src/src/websocket.rs:441-461 | in every interleaving each send belongs to a pass whose wake-up, the last before it, was followed by a look that found the server ready while it was, and one that found the connection open while it was |
| Gates.NoSendBeforeServerReady | src/src/websocket.rs:448-454 | nothing goes out before SERVER_READY came in |
| Gates.NoSendAfterARefusal | src/src/websocket.rs:448-454 | a wake-up that found the server not ready is followed by no send before the next wake-up |
| Gates.NoPassAfterADisconnect | src/src/websocket.rs:455-461 | no wake-up after a disconnect is followed by a send |
| Gates.AdmittedWhileOpen | src/src/websocket.rs:805-816 | messages are admitted to the queue before the disconnect only |
| Gates.NothingAfterTheExit | src/src/websocket.rs:505-514 | a scheduler whose writer is gone, or that read a closed connection, takes no further step |
| Scheduler.InternalRunsTerminate | src/src/websocket.rs:469-533 | without arrivals every run of scheduler and pending notifies is bounded by the queued work, whatever locks are contended |
| Scheduler.OnlyParkedWaits | src/src/websocket.rs:441-442 | the scheduler can always move unless it is parked or has exited |
| Scheduler.QuiescentIsParked | src/src/websocket.rs:441-461 | when nothing can move, the scheduler has exited or is parked with no wake-up pending |
| Scheduler.Conservation | src/src/websocket.rs:202-253 | for each level and source, what was queued plus what was accepted equals, in order, what was sent or cleared plus what is queued, under any mix of queueing, scanning, pruning and clearing with skipped levels |
| Scheduler.DrainsInOrder | src/src/websocket.rs:469-533 | on a ready connection a run that cannot go on has emptied all levels and sent each FIFO in its order |
| Scheduler.HeadingServesUrgent | src/src/websocket.rs:188-200 | once the scan is bound to pass a level with data, the first send is at that level or above |
| Scheduler.NextSendIsMostUrgent | src/src/websocket.rs:523-526 | after a send that leaves a more urgent level with data, the next send is at the most urgent such level, or above if something arrives there, even under contention |
| Fairness.BoundedOvertaking | src/src/websocket.rs:471-528 | with unlimited arrivals at one level, at most 16 x (1 + restarts by a contended lock after its messages) go out before the next message of a waiting less urgent level, when no other level above that one holds data; 16 for level 0 or without contention |
| Fairness.AtMostSixteenInARow | src/src/websocket.rs:471-528 | while a less urgent level holds data no level sends more than 16 x (1 + such restarts) in a row, whatever arrives, without clears; 16 for level 0 or without contention |
| Starvation.TwoBusyLevelsStarve | src/src/websocket.rs:523-526 | for any two levels above a waiting one and any n there is a run with 2n sends of theirs and none of the waiting level, without contention or clears |
| Starvation.ContentionStarves | src/src/websocket.rs:182-200 | for any one level above a waiting one except level 0, and any n, there is a run with n of its sends and none of the waiting level, without clears, in which locks are contended |
| Starvation.StarvationIsReachable | src/src/websocket.rs:440-533 | a fresh connection gets into the state these runs start from by queueing one message at the waiting level |
| Starvation.ProtectedExactly | src/src/websocket.rs:471-528 | over all runs of all connections, the number of more urgent messages sent while a level waits is bounded iff no level above it but level 0 is busy; over those without contended locks, iff at most one is; then 16 bounds it |
| Sender.Client.QueueMessage | src/src/websocket.rs:805-826 | appends to exactly one FIFO and stores a permit, or drops the message on a closed connection |
| Sender.Client.HigherPriorityDataExists | src/src/websocket.rs:188-200 | true exactly when some more urgent level has data or is contended |
| Sender.Client.ClearQueuedMessages | src/src/websocket.rs:202-229 | empties every uncontended level and no other, and returns the number of messages removed |
| Sender.Client.PruneSources | src/src/websocket.rs:233-253 | removes exactly the idle sources of uncontended levels |
| Sender.Client.ScanCycle | src/src/websocket.rs:469-533 | the nested loops are a run of the machine; they end, empty all levels and send each FIFO in order under any contention |
| Sender.LogIsGone | src/src/websocket.rs:499-518 | what a scheduler run hands to the writer per level and source is what it removes |
| Requests.InvStep | src/src/websocket.rs:269-303 | every step keeps the map equal to the open channels, and the closed-connection and epoch invariants |
| Requests.NoStrandedRequest | src/src/websocket.rs:279-293 | while the connection is closed each stored promise belongs to a request not past its re-check, and every waiting request has been answered or failed |
| Requests.DroppedRequestAwaitsOnlyAfterReconnect | src/src/websocket.rs:878-891 | a request whose message was dropped passes its re-check only in a later connection than the drop |
| Requests.DroppedRequestFailsIffClosed | src/src/websocket.rs:883-891 | in every reachable state the connection is closed as long as none was established since the drop, and the re-check fails such a request iff it is closed |
| Requests.ReconnectHidesDroppedMessage | src/src/websocket.rs:878-891 | and there is a run in which it passes, ending up waiting on an open connection |
| Requests.AtMostOnce | src/src/websocket.rs:723-746 | a request is completed at most once and handed at most one reply |
| Requests.RequestCorrelation | src/src/websocket.rs:843-937 | over any interleaving of requests, replies, timeouts, disconnects and reconnects a request completes at most once, and with a reply only if that reply came in carrying its id after its promise was inserted |
| Outcomes.OutcomeTable | src/src/websocket.rs:878-937 | over runs, both ways: a request times out iff its timer expired, fails as disconnected iff its re-check failed, returns a reply iff it received one delivered, and a channel error iff it received without one |
| Outcomes.AnsweredRequestSucceeds | src/src/websocket.rs:893-937 | a reply that comes in on the current connection while its request waits is what the request returns, whatever happens in between |
| Outcomes.AdmissionIsGated | src/src/websocket.rs:832-843 | requests are let in while the connection is open and the server ready, by events alone, and no more ids are issued than callers passed |
| Outcomes.OutcomesAreEarned | src/src/websocket.rs:723-746 | a reply came in on the then current generation with the right id after the insertion; a disconnected outcome means the re-check saw the connection closed, any other that it saw it open; a cut request lost the then current connection |
| Requests.ReplyReachesItsRequest | src/src/websocket.rs:723-739 | a reply on the current connection reaches the request waiting under its id and touches no other |
| Requests.Isolation | src/src/websocket.rs:843-857 | while fewer than 2^32 ids are issued during any unfinished request, a closed channel means a disconnect cut it |
| Requests.WrapDisplaces | src/src/websocket.rs:843-857 | at 2^32 ids the bound is sharp: a reused id drops a waiting request without a disconnect |
| RequestClient.Client.HandleResponse | src/src/websocket.rs:723-746 | the response handler performs the machine's step, the generation filter included |
| RequestClient.Client.DropSenders | src/src/websocket.rs:287-293 | dropping the taken map closes exactly the channels stored in it |
| RequestClient.Client.HandleDisconnect | src/src/websocket.rs:269-303 | the disconnect handler performs the machine's step |
| RequestClient.Client.IssueId | src/src/websocket.rs:832-843 | on an open and ready connection the caller obtains the serial modulo 2^32, otherwise an error that leaves no trace |
| RequestClient.Client.InsertPromise | src/src/websocket.rs:849-857 | insertion performs the machine's step, dropping the sender under a reused id |
| RequestClient.Client.NoteQueued | src/src/websocket.rs:873-877 | queueing records whether the message was dropped |
| RequestClient.Client.RecheckOrFail | src/src/websocket.rs:883-891 | the re-check lets a request wait or takes its promise back and fails it |
| RequestClient.Client.ReceiveReply | src/src/websocket.rs:902-936 | the await returns the delivered reply, or an error when the sender was dropped |
| RequestClient.Client.TimeOut | src/src/websocket.rs:902-921 | the timer takes the promise back and ends the request as timed out |
| Download.ChunkRoundTrip | src/src/files/mod.rs:1127-1129 | a chunk message carries the transfer's id as source and the chunk id, its payload is the bytes read, and nothing follows it |
| Download.NextExact | src/src/files/mod.rs:1042-1238 | one iteration keeps the byte accounting and never fails the expect |
| Download.TurnDecides | src/src/files/mod.rs:1029-1036 | an iteration ends the loop exactly when it meets a terminal event, and the result is that event's |
| Download.DecimalReadsBack | src/src/files/mod.rs:1119-1121 | the sizes in the error text are decimal numbers that read back as the sizes |
| Download.DownloadExact | src/src/files/mod.rs:1010-1040 | at every loop head a chunk is pending iff Sending, and sent payloads followed by it equal the bytes read; a clean end means exactly the expected bytes were sent |
| DownloadRuns.RunOutcome | src/src/files/mod.rs:1283-1336 | the result of a whole run is that of the first terminal event, and the loop ends iff there is one |
| DownloadRuns.RunAmount | src/src/files/mod.rs:1010-1238 | a run reads exactly what the file yields, handles exactly the Pauses and Resumes the peer sent, in order, and completes exactly the sends that resolved |
| DownloadRuns.RunRecognised | src/src/files/mod.rs:1127-1129 | every completed send of a run parses as a chunk of this transfer |
| DownloadRuns.ControlMessages | src/src/files/mod.rs:1258-1277 | a message pauses or resumes by its id alone; every other message and frame leaves the transfer as it was |
| DownloadRuns.CleanReportIsEarned | src/src/files/mod.rs:946-963 | a finished loop reports its first terminal event, and success only if a server that takes chunks of this transfer alone has received the bytes of the file, in order and of the announced size |
| DownloadRuns.PrimaryErrorSticks | src/src/files/mod.rs:1491-1517 | over any history of results the last primary error wins, a standing one yields to nothing else, without any the last event decides, and nothing but the result changes |
| DownloadRuns.DownloadStepBound | src/src/files/mod.rs:1010-1040 | the loop takes at most 2 x peer messages + 2 x non-empty reads + 1 iterations |
| DownloadRuns.PauseAccounting | src/src/files/mod.rs:1240-1256 | in every run no read or send starts while paused, permit releases never exceed Resumes at any point of the log, and a permit is stored iff a Resume followed the last release |
| DownloadRuns.PauseHoldsUntilResume | src/src/files/mod.rs:1052-1062 | before the first Resume nothing is read or sent after a Pause |
| DownloadRuns.PauseEndsEarlyIffPermit | src/src/files/mod.rs:1240-1256 | from any loop head, a paused transfer has a run that starts a read or a send without another Resume iff a permit is stored |
| DownloadRuns.PauseEndsEarlyIffResumeUnspent | src/src/files/mod.rs:1240-1256 | in every reachable paused state such a run exists iff a Resume came in since the permit last ended a wait |
| DownloadRuns.StalePermitEndsPause | src/src/files/mod.rs:1290-1298 | such a state is reached: Resume, Pause, and the read starts again |
| TransferLoop.Supervisor.SetResult | src/src/files/mod.rs:1491-1500 | result selection performs the machine's step |
| TransferLoop.Supervisor.PeerTerminated | src/src/files/mod.rs:1510-1517 | a peer terminal event is recorded unless a primary error stands |
| TransferLoop.Supervisor.HandleIncomingEvent | src/src/files/mod.rs:1283-1306 | one peer event performs the machine's step |
| TransferLoop.Supervisor.DrainPendingIncoming | src/src/files/mod.rs:1314-1336 | the drain loop handles events in order up to the first terminal one |
| TransferLoop.Supervisor.WaitForTerminalOrResume | src/src/files/mod.rs:1240-1256 | the paused wait ends by a peer event or by spending the permit |
| TransferLoop.Supervisor.RunReadingPhase | src/src/files/mod.rs:1042-1148 | the Reading phase performs the machine's iteration |
| TransferLoop.Supervisor.AtEndOfFile | src/src/files/mod.rs:1072-1123 | the end-of-file boundary: size check, then a ready terminal event wins over success |
| TransferLoop.Supervisor.RunSendingPhase | src/src/files/mod.rs:1150-1238 | the Sending phase performs the machine's iteration, restoring the chunk when interrupted |
| TransferLoop.Supervisor.RunTransferLoop | src/src/files/mod.rs:1010-1040 | the loop computes the machine's run and ends when it ends |
| Upload.ReceiveUpload | src/src/files/mod.rs:1709-1794 | the outcome is that of the first chunk that does not fit or cannot be written, else of how the conversation ends, else of the disk; the file is kept iff accepted and then is the concatenation of the chunks, otherwise it is removed, or left as a prefix of the chunks if removal fails; the counter never passes the size |
| Upload.JudgedIsAccepted | src/src/files/mod.rs:1753-1781 | the outcome is success exactly when completion came with the announced size and every write, flush and sync succeeded |
| Upload.NoiseDoesNotMatter | src/src/files/mod.rs:1723-1788 | text, ping and foreign binary frames anywhere change neither acceptance nor the stored file |
| Upload.BrokenOffIsNotAccepted | src/src/files/mod.rs:1710-1721 | a close, an error or the end of the stream before the completion message means no acceptance |
| Upload.HonestUploadIsStored | src/src/files/mod.rs:1723-1781 | however a peer cuts a file into chunks, it is accepted and stored as it was |
| Listing.Walk | src/src/files/mod.rs:537-547 | the stack walk ends and yields, as a multiset, the recursive listing |
| Listing.ReadDirInto | src/src/files/mod.rs:635-669 | reading one directory moves its entries from the unread part to the list and the stack |
| Listing.HandleEntry | src/src/files/mod.rs:679-691 | an entry is listed unless it is a link or unreadable, and stacked if it is a directory |
| Listing.ListedIffReachable | src/src/files/mod.rs:590-615 | listed is exactly what a chain of readable non-link directories leads to |
| Listing.RelativeStrips | src/src/files/mod.rs:609-613 | a path below the working directory is listed relative to it, any other as it is |
| Submit.NeverTwoInFlight | src/src/jobs/mod.rs:149-192 | for a nonzero job id and whatever this client left stored when it starts, with fewer than 60 duplicates during each submission, two are never in flight together, and what is stored is again such a start; polls and status checks on stale copies interleave |
| Submit.ReclaimedExactlyAtSixty | src/src/jobs/mod.rs:156-170 | for submits with any bundles, an unfinished claim is taken over on exactly the submit that brings its counter to 60, the 60th after the claim, and by none before; the row then differs in the counter, that submit's bundle and an empty directory only |
| Submit.SixtyDuplicatesClaimTwice | src/src/jobs/mod.rs:156-163 | the bound is sharp, for any bundles |
| Settlement.FirstSubmitClaims | src/src/jobs/mod.rs:181-192 | the first submit of a job creates its row for its own bundle |
| Settlement.CopiesComeFromSubmits | src/src/jobs/mod.rs:183-210 | in every run the bundle of a submission is that of a submit and its directory the one saved for it |
| Settlement.SettledJobIsNeverClaimed | src/src/jobs/mod.rs:172-179 | no number of further submits, polls and status checks claims a settled job or changes its row, except that running is cleared exactly when a check finds the job over |
| Settlement.BundleDecides | src/src/jobs/mod.rs:239-268 | a scheduler id settles the job under it, capped at i64::MAX, for good: running until a status check finds it over, never claimed again, with the bundle and directory it was submitted with; none removes the row so that the next submit starts afresh |
| Submit.Handler.ClaimSubmission | src/src/jobs/mod.rs:149-192 | the mutex block computes the specified row and decision: counted, status check, or submission |
| Submit.Handler.FinishSubmission | src/src/jobs/mod.rs:239-268 | the finish computes the specified row |
| Submit.Handler.SaveOver | src/src/jobs/mod.rs:409-415 | the end of a status check saves its copy with running cleared |
| StatusSync.ReconcileOne | src/src/jobs/mod.rs:334-383 | one reported status leaves one row for it, showing it, and no other lookup changed, from any rows |
| StatusSync.PassReconciles | src/src/jobs/mod.rs:322-385 | after a pass each reported status has exactly one row showing the last value reported, all other rows as before |
| StatusSync.SecondPassIsQuietIffSteady | src/src/jobs/mod.rs:355-383 | on rows as this client saves them, a repeated unforced pass queues nothing iff all statuses are at most i32::MAX and equal names have equal statuses |
| StatusUpdates.UpdatesExactly | src/src/jobs/mod.rs:355-383 | a pass queues exactly one update for each entry that is forced or not shown by exactly one row when its turn comes, with its own name and status, in report order |
| StatusUpdates.ForcedPassTellsAll | src/src/jobs/mod.rs:355-383 | a forced pass tells every reported status, whatever is stored |
| StatusUpdates.CappedExactly | src/src/jobs/mod.rs:100-102 | a number is told as it is up to u32::MAX and as u32::MAX beyond, anything else as 0 |
| StatusUpdates.LastWordIsTheReportUnlessMasked | src/src/jobs/mod.rs:355-383 | on rows as this client saves them, the last update of an unforced pass on a name carries its last reported status iff the name is not masked |
| StatusUpdates.ForcedLastWordIsTheReport | src/src/jobs/mod.rs:355-383 | in a forced pass it always does |
| StatusUpdates.MaskedReport | src/src/jobs/mod.rs:355-383 | a masked report of which only the first status is told |
| StatusSync.ErrorsExactly | src/src/jobs/mod.rs:398-400 | which stored states are errors, by number |
| StatusSync.JobError | src/src/jobs/mod.rs:396-403 | the last stored error, 0 iff there is none |
| StatusSync.Completion | src/src/jobs/mod.rs:405-428 | the job is over iff some stored status is an error or it is reported complete with all statuses completed; it ends with its last error if it has one |
| StatusSync.Checker.ReconcileOneStatus | src/src/jobs/mod.rs:323-384 | the loop body computes the specified table and update |
| StatusSync.Checker.ReconcileStatuses | src/src/jobs/mod.rs:322-385 | the loop computes the specified pass |

## Left out

- Scheduler.NoLostWakeUp: is about one connection generation, because `data_ready` is shared and a parked scheduler of an older generation can take a permit; the scheduler's exit on a newer connection id is not an event of the machine.
- Sender.Client.QueueMessage: runs without interference; its interleaved form is the events Admit, Enqueue and NotifyOne.
- RequestClient.Client.IssueId: runs the two admission checks and the fetch_add without interference; the separate events interleave in `Requests`.
- Download.DownloadExact: counts bytes in unbounded integers, so a transfer of 2^64 bytes or more is outside the model; it speaks of sends that resolved, and what an abandoned send leaves in the socket is not modelled.
- Upload.ReceiveUpload: starts once the target file is created; the path checks and error replies before and after it are not modelled.
- Listing.Walk: works on a snapshot of the tree, and on the stack and the list as values; the single-directory mode and the reply message are not modelled.
- Submit.NeverTwoInFlight: assumes successful database operations and no cancel or delete of the job; job id 0, which is submitted anew by every message, is outside it.
- StatusSync.PassReconciles: assumes that row ids and the 32-bit id count of a delete do not run out, and successful database operations.
- Records.ReadJobs: the status list has the same loop over `PopStatus`; the id list of `delete_status_by_id_list` is modelled by its cap only.
- Requests that are dropped by their caller before they finish, which leave their promise behind.
- Whether a disconnect is followed by a reconnect: the disconnect notification stores no permit.
- Floating-point pushes and pops, the bundle runtime and its Python interface, archiving, path containment, update checks, configuration, logging and process handling.
- Cancel and delete handlers, ping timing, TLS and WebSocket framing.
