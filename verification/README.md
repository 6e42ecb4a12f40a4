# Mail system: delivery queue, SMTP session and their counterparts

This project models the mail system in Dafny and proves what its parts promise each other. Three larger
pieces carry the weight.

**The delivery queue.** The two tables of the mail store are a value with one function per SQL statement and
a class that updates them in place (`MailStorage`). `DeliverySystem` is the concurrent protocol: SMTP
sessions store mail, several dispatchers claim batches, the thread pool queues tasks, workers deliver, any
statement may throw and the pool may stop at any time. `Handoff` proves that a claimed recipient is always
held exactly once, `DeliverySummary` that the status of a message agrees with its recipients,
`DeliveryOutcome` that complete runs are bounded and end in the same statuses in every order, and
`StatementTraces` what holds over arbitrary sequences of statements. `Dispatcher` is the code itself, tied
to the steps of that system.

**The SMTP session.** `SmtpSession` is the session as a function of state and event, `SmtpHandler` the object
that assigns the fields. `SessionInvariant`, `SessionDialogue` and `DotTransparency` say what holds over all
event sequences: the invariant of the fields, that a stored message is the one which commands and replies
show, and what happens to dots. `Sockets` models the connections with their posted operations and completion
handlers; `ConnectionRun`, `LockStep`, `ConnectionInvariant` and `ServerSystem` put connections, server loop,
sessions and workers together and prove the guarantees of every interleaving; `SmtpServer` has the session
queue and the server loop as objects, which `ServerLoop` ties to those interleavings. `RequestedClose` and
`PipelinedQuit` settle when a requested close is carried out, and `ConnectionLoss` what becomes of a lost
connection. `AuthDialogue`, `PathArguments` and `SessionOffers` say what the session makes of credentials,
addresses and parameters, over all dialogues. `Base64` has the decoder with its bit
accumulator.

**Both ends together.** `SmtpClient` is the sending client against any server, `ClientResult` says what it
answers against any server, `ClientServer` runs it against this one, `MailText` is the reader, with
`FoldedHeaders` and `MessageReading` on any text, `RoundTrip` goes from the written mail to the shown one, and
`ClientDelivery` from the client's call to the final status of every recipient. `WholeProgram` runs server,
sessions and delivery queue on the same tables, and `AcceptedMail` proves of all its runs that every stored
message was said by some client, and that every mail answered with 250 stays and is delivered.

Smaller cores: `CacheStore` and `EmailCache` (LIKE escaping, expiry, refinement of a map), `Migrations` and
`MigrationRun`, `Highlight`.

Conventions: an exception is a `Result`, an `Option` or a flag; where statements may throw, a parameter says
which one does. Clocks are integers. The lock of the storage makes a critical section one step. Text is
ASCII without NUL, since the store binds C strings. `dafny verify dfyconfig.toml` checks everything.

Where code and intention part ways, the code is modelled and the exact condition is proved:

- A close that was asked for is carried out once the writes are through iff nothing was left to write when it
  was asked for, or no TLS handshake was waiting (`Sockets.CloseThenDrain`, and over runs of the server
  `RequestedClose.CloseCarriedOut`): with a handshake waiting, the handshake function returns early and nothing
  finishes the close. A client gets there with STARTTLS and QUIT in one packet, if the 220 reply is still being
  written when the Close of QUIT is run, as for a client that does not read
  (`PipelinedQuit.QuitBehindStartTlsSticks`); and then the connection stays for good
  (`PipelinedQuit.NeverClosed`). In every run this is the only way in which a drained connection stays open
  after a requested close (`ServerSystem.WritesConserved`).
- STARTTLS is offered by EHLO, and refused all the same, iff a handshake is on its way
  (`SessionOffers.StartTlsAsOffered`).
- A connection that a cancelled operation closes is not announced to the server; every other end of a connection
  is, exactly once (`ConnectionLoss.DisconnectedIffClosed`).
- InvalidateAll of the mail list cache removes the rows of another cache iff that one's namespace happens to
  begin with the same letters (`EmailCache.OtherCachesKept`, `EmailCache.ForeignRowLost`).
- The client does not stuff dots, so its lines survive iff none is a dot or begins with two
  (`DotTransparency.RawLinesSurvive`).
- A recipient stays in Delivering for good iff neither attempt of Deliver could mark its row
  (`StrandedRecipient.DeliveringIffLost`, `StrandedRecipient.StrandedForGood`); `StrandedRecipient.StrandingRun`
  is such a run.

## Model

| member | source | states |
|---|---|---|
| MailStorage.MailStore.CreateMessage | libs/mail-storage/src/MailMessageRepository.cpp:17-57 | inserts one row under the next AUTOINCREMENT id and touches no other |
| MailStorage.MailStore.CreateActor | libs/mail-storage/src/MailMessageActorRepository.cpp:17-54 | inserts one row, Pending by default for a recipient; fails exactly for a missing message or a FROM row with a status |
| MailStorage.MailStore.QueueActor | libs/mail-storage/src/MailMessageActorRepository.cpp:170-188 | Pending or TemporaryFailed becomes Queued and loses its next attempt; every other row is left alone |
| MailStorage.MailStore.ClaimReadyRecipients | libs/mail-storage/src/MailMessageActorRepository.cpp:190-265 | claims the first limit ready rows by (next attempt or epoch, id), counts the attempt and returns them |
| MailStorage.TakeIsPrefix | libs/mail-storage/src/MailMessageActorRepository.cpp:190-230 | exactly min(limit, ready) rows are taken, in order, and no row left behind precedes one that is taken |
| MailStorage.FirstExists | libs/mail-storage/src/MailMessageActorRepository.cpp:205-228 | every non-empty set of rows has a first row in claim order |
| MailStorage.MailStore.MarkDelivered | libs/mail-storage/src/MailMessageActorRepository.cpp:267-286 | Delivering becomes Delivered at the given time; a row in any other status is left alone |
| MailStorage.MailStore.MarkTemporaryFailed | libs/mail-storage/src/MailMessageActorRepository.cpp:288-311 | Delivering becomes TemporaryFailed with its next attempt; a row in any other status is left alone |
| MailStorage.MailStore.MarkTerminal | libs/mail-storage/src/MailMessageActorRepository.cpp:441-464 | Delivering becomes Bounced or Failed; a row in any other status is left alone |
| MailStorage.MailStore.UpdateStatus | libs/mail-storage/src/MailMessageRepository.cpp:145-163 | changes the status only from the expected one |
| MailStorage.MailStore.DeleteMessage | libs/mail-storage/src/MailMessageRepository.cpp:165-177 | removes the message and, by cascade, its actors |
| MailStorage.MailStore.FinalizeDelivery | libs/mail-storage/src/MailMessageRepository.cpp:179-220 | Queued or Sending becomes Sent or Failed exactly when no recipient is open; reports whether a row changed |
| MailStorage.MailStore.Rollback | apps/smtp-server/src/smtp/SmtpSessionHandler.cpp:580-590 | restores the tables of BEGIN |
| StoredMail.StoreMailExact | apps/smtp-server/src/smtp/SmtpSessionHandler.cpp:559-578 | a stored mail is one Queued message row, one FROM row and one Queued TO row per recipient in order, with consecutive ids; nothing else changes |
| StatementTraces.ClaimIsExact | libs/mail-storage/src/MailMessageActorRepository.cpp:190-265 | a claim moves exactly the claimed ready rows to Delivering and keeps every other row as it was |
| DueRows.ClaimedAreDue | libs/mail-storage/src/MailMessageActorRepository.cpp:190-228 | a claim takes only Queued recipients and temporarily failed ones whose next attempt is not later than now, and all of them if the limit allows it |
| DueRows.ClaimedInOrder | libs/mail-storage/src/MailMessageActorRepository.cpp:205-228 | of two rows claimed the first is due earlier, or as early with the smaller id |
| DueRows.RetryWaits | libs/mail-storage/src/MailMessageActorRepository.cpp:190-311 | over any statements a recipient that was put back for a time is not claimed before it, unless QueueActor is called for it |
| DueRows.ColumnsAlwaysAgree | libs/mail-storage/src/MailMessageActorRepository.cpp:170-321 | over any statements delivered_at is set iff the row is Delivered, next_attempt_at iff it is TemporaryFailed, last_error where it failed and not where it never did |
| DueRows.PutBackByMark | libs/mail-storage/src/MailMessageActorRepository.cpp:288-311 | MarkTemporaryFailed puts a row in delivery back for the given time, with its error |
| DueRows.QueuedIsDue | libs/mail-storage/src/MailMessageActorRepository.cpp:170-188 | QueueActor makes a pending or put back recipient due at once |
| DueRows.NewRecipient | libs/mail-storage/src/MailMessageActorRepository.cpp:17-54 | a new recipient has no attempts, and is Pending and not due unless it is given a status |
| DueRows.DeletedIsGone | libs/mail-storage/src/MailMessageRepository.cpp:165-177 | a deleted message is gone with its actors, and nothing else is |
| DueRows.MarkedForever | libs/mail-storage/src/MailMessageActorRepository.cpp:267-321 | the time of a delivery and the error of a failed one are those of the mark that settled the row, over any later statements |
| StatementTraces.TraceWellFormed | libs/mail-storage/migrations/007_mail_message_actors.sql:62-86 | every sequence of statements keeps the CHECK and FOREIGN KEY constraints, the id counters only grow, and every new row has an id above the counter of before |
| StatementTraces.TerminalForever | libs/mail-storage/src/MailMessageActorRepository.cpp:267-321 | Delivered, Bounced and Failed rows never change status again, whatever statements follow; a late MarkFailed is a no-op |
| StatementTraces.ClaimedOnce | libs/mail-storage/src/MailMessageActorRepository.cpp:190-265 | over any sequence of statements, from several dispatchers too, a row is claimed at most once more than it is put back for a retry |
| StatementTraces.AttemptsCountClaims | libs/mail-storage/src/MailMessageActorRepository.cpp:229-240 | attempt_count grows by exactly the number of claims of the row |
| StatementTraces.GoneForever | libs/mail-storage/src/MailMessageRepository.cpp:165-177 | an id that was deleted never comes back |
| StatementTraces.DrainBound | libs/mail-storage/src/MailMessageActorRepository.cpp:190-265 | a Queued row with k rows at or ahead of it is claimed within ceil(k / limit) claims, whatever new mail, retries due after the epoch or re-queues of younger rows come in between |
| Handoff.StoreMailRows | apps/smtp-server/src/smtp/SmtpSessionHandler.cpp:559-578 | storing mail keeps every old row and adds Queued recipients of the new message only |
| Handoff.StepKeepsRows | apps/smtp-server/src/smtp/QueueDispatcher.cpp:34-128 | no step of the system removes a row, changes an address or reopens a terminal recipient |
| Handoff.StepKeepsHandoff | apps/smtp-server/src/smtp/QueueDispatcher.cpp:58-127 | each step moves a recipient between the batch of Poll, the pool queue and the workers without losing or doubling it |
| Handoff.HandoffInEveryRun | apps/smtp-server/src/smtp/QueueDispatcher.cpp:34-128 | in every reachable state the rows in Delivering are exactly those held by a batch, the queue or a worker that has not marked, or stranded by two storage failures |
| DeliverySummary.FinalizeAgrees | libs/mail-storage/src/MailMessageRepository.cpp:179-220 | after FinalizeDelivery the status of the message is the function Summary of its recipients |
| DeliverySummary.StepKeepsSummary | apps/smtp-server/src/smtp/QueueDispatcher.cpp:46-101 | every step keeps the agreement of each message that is not owed a FinalizeDelivery |
| DeliverySummary.SummaryInEveryRun | libs/mail-storage/src/MailMessageRepository.cpp:179-220 | the agreement holds in every reachable state, with failing statements and a stopping pool |
| DeliveryOutcome.StatusIsSummary | libs/mail-storage/src/MailMessageRepository.cpp:179-220 | Queued iff all recipients are Queued, Sending iff one was claimed and one is not terminal, Sent iff all are terminal and one is Delivered, Failed iff all are terminal and none is Delivered |
| DeliveryOutcome.StopDrains | libs/thread_pool/src/ThreadPool.cpp:52-91 | once the polls are done and the workers have left, nothing is in Delivering except what two failed attempts stranded |
| StrandedRecipient.DeliveringIffLost | apps/smtp-server/src/smtp/QueueDispatcher.cpp:103-128 | with nothing left in batches, queue and workers, a recipient is in Delivering iff the catch block of Deliver threw for it before the row was marked; so in runs without that, none is |
| StrandedRecipient.StrandedForGood | apps/smtp-server/src/smtp/QueueDispatcher.cpp:103-128 | no later run takes such a recipient out of Delivering |
| StrandedRecipient.StrandingRun | apps/smtp-server/src/smtp/QueueDispatcher.cpp:46-128 | the run: claimed, handed over, taken, and both attempts to mark the row throw; from every state with one recipient to claim and a free worker |
| StrandedRecipient.OneMailClaimed | libs/mail-storage/src/MailMessageActorRepository.cpp:190-228 | such as the state after one mail to one recipient |
| DeliveryOutcome.FinalStatuses | apps/smtp-server/src/smtp/QueueDispatcher.cpp:46-101 | when nothing is left to do, a recipient is Delivered iff it is an active local user, else Failed, and a message is Sent iff one recipient is active |
| DeliveryOutcome.OrderIndependence | apps/smtp-server/src/smtp/QueueDispatcher.cpp:34-128 | any two complete interleavings of polls and deliveries from the same start end in the same statuses |
| DeliveryOutcome.RunsAreBounded | apps/smtp-server/src/smtp/QueueDispatcher.cpp:34-128 | a fault-free run has at most as many effective steps as there is work left |
| DeliveryOutcome.NeverStuck | apps/smtp-server/src/smtp/QueueDispatcher.cpp:34-128 | while a recipient is open some step is possible |
| Dispatcher.ThreadPool.AddTask | libs/thread_pool/src/ThreadPool.cpp:37-50 | appends the task, or throws and changes nothing once the pool is stopping |
| Dispatcher.ThreadPool.Stop | libs/thread_pool/src/ThreadPool.cpp:52-68 | stops accepting tasks and keeps those that are queued |
| Dispatcher.ThreadPool.NextTask | libs/thread_pool/src/ThreadPool.cpp:70-91 | a worker takes the oldest task and leaves only when the pool is stopping and empty |
| Dispatcher.CreateDispatcher | apps/smtp-server/src/smtp/QueueDispatcher.cpp:13-32 | throws exactly for a batch size of zero |
| Dispatcher.BatchLimitIs | apps/smtp-server/src/smtp/QueueDispatcher.cpp:43-44 | a batch size that fits an int is taken as it is, a larger one is cut, and none becomes zero |
| Dispatcher.QueueDispatcher.ClaimUnderLock | apps/smtp-server/src/smtp/QueueDispatcher.cpp:46-56 | one critical section: claim, then Queued to Sending for the messages of the claimed recipients |
| Dispatcher.QueueDispatcher.HandOver | apps/smtp-server/src/smtp/QueueDispatcher.cpp:60-75 | hands the recipient to the pool, or marks it failed and finalizes its message when the pool refuses |
| Dispatcher.QueueDispatcher.Poll | apps/smtp-server/src/smtp/QueueDispatcher.cpp:34-77 | nothing before the interval is over; afterwards everything claimed is queued in order or has failed |
| Dispatcher.PollIsRun | apps/smtp-server/src/smtp/QueueDispatcher.cpp:34-77 | an undisturbed Poll is a run of the transition system; on a stopping pool the run in which every enqueue throws and the recipients fail |
| Dispatcher.TryDeliver | apps/smtp-server/src/smtp/QueueDispatcher.cpp:86-101 | the try block of Deliver, with the statement that throws |
| Dispatcher.DeliverRecipient | apps/smtp-server/src/smtp/QueueDispatcher.cpp:79-128 | Deliver with both of its attempts, whatever throws |
| Dispatcher.DeliverIsRun | apps/smtp-server/src/smtp/QueueDispatcher.cpp:79-128 | Deliver is one step of the transition system, or two |
| Text.Trim | apps/smtp-server/src/smtp/SmtpSessionHandler.cpp:15-28 | the loop computes the trimmed core |
| Text.TrimmedOfPadded | apps/smtp-server/src/smtp/SmtpSessionHandler.cpp:15-28 | white space around a core that has none at its ends is exactly what is removed |
| Text.StartsWithCaseInsensitive | apps/smtp-server/src/smtp/SmtpSessionHandler.cpp:39-56 | the loop compares the prefix up to ASCII case |
| Text.PrefixIs | apps/smtp-server/src/smtp/SmtpSessionHandler.cpp:39-56 | character by character: the same, or the same letter in the other case |
| Text.FindFirst | apps/smtp-server/src/smtp/SmtpSessionHandler.cpp:62-72 | find returns the first occurrence |
| Base64.DecodeBase64 | apps/smtp-server/src/smtp/SmtpSessionHandler.cpp:82-137 | the loop over a bit accumulator yields the bytes of the sextets, or nothing for a foreign character |
| Base64.RegisterWidthIrrelevant | apps/smtp-server/src/smtp/SmtpSessionHandler.cpp:126-133 | an accumulator that wraps at 32 bits and an unbounded one give the same bytes |
| Base64.DecodeInvertsEncode | apps/smtp-server/src/smtp/SmtpSessionHandler.cpp:82-137 | decoding inverts the encoding of section 4 of RFC 4648 for every byte string, with white space anywhere |
| Base64.RejectedIffForeign | apps/smtp-server/src/smtp/SmtpSessionHandler.cpp:106-133 | decoding fails iff a character before the first = is neither white space nor in the alphabet |
| Base64.PlainAuthRecovered | apps/smtp-server/src/smtp/SmtpSessionHandler.cpp:139-163 | authcid and passwd of the message of section 2 of RFC 4616 are recovered |
| Base64.CredentialsIff | apps/smtp-server/src/smtp/SmtpSessionHandler.cpp:139-163 | credentials are recognised iff the decoded text has three fields and a user name |
| SmtpHandler.SmtpSessionHandler.ResetMailTransaction | apps/smtp-server/src/smtp/SmtpSessionHandler.cpp:593-602 | clears the mail; the phase is ReadyForMail unless the session is closing |
| SmtpHandler.SmtpSessionHandler.StoreMessage | apps/smtp-server/src/smtp/SmtpSessionHandler.cpp:559-591 | commits the whole mail or, whichever statement of the transaction throws, leaves the tables unchanged |
| SmtpHandler.SmtpSessionHandler.HandleData | apps/smtp-server/src/smtp/SmtpSessionHandler.cpp:275-300 | final dot, dot removal, size limit and buffer as OnDataLine |
| SmtpHandler.SmtpSessionHandler.MarkAuthenticated | apps/smtp-server/src/smtp/SmtpSessionHandler.cpp:170-176 | stores the result and ends the AUTH dialogue |
| SmtpHandler.SmtpSessionHandler.HandlePlainResponse | apps/smtp-server/src/smtp/SmtpSessionHandler.cpp:220-237 | as OnPlainResponse |
| SmtpHandler.SmtpSessionHandler.HandleLoginUsername | apps/smtp-server/src/smtp/SmtpSessionHandler.cpp:239-253 | as OnLoginUsername |
| SmtpHandler.SmtpSessionHandler.HandleLoginPassword | apps/smtp-server/src/smtp/SmtpSessionHandler.cpp:255-273 | as OnLoginPassword |
| SmtpHandler.SmtpSessionHandler.HandleAuth | apps/smtp-server/src/smtp/SmtpSessionHandler.cpp:370-438 | as OnAuth |
| SmtpHandler.SmtpSessionHandler.HandleHello | apps/smtp-server/src/smtp/SmtpSessionHandler.cpp:315-339 | as OnHello |
| SmtpHandler.SmtpSessionHandler.HandleStartTls | apps/smtp-server/src/smtp/SmtpSessionHandler.cpp:341-368 | as OnStartTls |
| SmtpHandler.SmtpSessionHandler.HandleMail | apps/smtp-server/src/smtp/SmtpSessionHandler.cpp:440-466 | as OnMail |
| SmtpHandler.SmtpSessionHandler.HandleRcpt | apps/smtp-server/src/smtp/SmtpSessionHandler.cpp:468-492 | as OnRcpt |
| SmtpHandler.SmtpSessionHandler.HandleDataCommand | apps/smtp-server/src/smtp/SmtpSessionHandler.cpp:494-506 | as OnDataCommand |
| SmtpHandler.SmtpSessionHandler.HandleCommand | apps/smtp-server/src/smtp/SmtpSessionHandler.cpp:302-550 | the dispatch on the command word, RSET, VRFY, EXPN, HELP, NOOP, QUIT and unknown commands |
| SmtpHandler.SmtpSessionHandler.HandleMessageReceived | apps/smtp-server/src/smtp/SmtpSessionHandler.cpp:214-551 | the new state, tables and replies of one line are those of OnLine |
| SmtpHandler.SmtpSessionHandler.HandleEvent | apps/smtp-server/src/smtp/SmtpSessionHandler.cpp:180-212 | the new state, tables and replies of one event are those of Handle; only the final dot stores a message, and the session invariant goes in and comes out |
| SessionInvariant.EventKeeps | apps/smtp-server/src/smtp/SmtpSessionHandler.cpp:180-206 | one event keeps the session invariant |
| SessionInvariant.InvariantAlways | apps/smtp-server/src/smtp/SmtpSessionHandler.cpp:165-506 | over any events: DATA only with sender, recipients and no AUTH under way; buffer within the limit; authenticated iff an identity is set; pending user name iff LOGIN waits for a password; authenticated only over TLS or where plain is allowed; a sender only for authenticated clients where demanded |
| SessionInvariant.StoredOnlyByData | apps/smtp-server/src/smtp/SmtpSessionHandler.cpp:275-283 | only the final dot stores a message, 250 follows the commit, and a failed store changes nothing and is not answered |
| SessionInvariant.StoreNeedsAuthentication | apps/smtp-server/src/smtp/SmtpSessionHandler.cpp:442-446 | where authentication is demanded, only an authenticated client has a message stored |
| SessionDialogue.EventAdvances | apps/smtp-server/src/smtp/SmtpSessionHandler.cpp:180-551 | one event moves sender, recipients and buffer exactly as the visible exchange does |
| SessionDialogue.StoredEqualsDialogue | apps/smtp-server/src/smtp/SmtpSessionHandler.cpp:275-300 | over any events a stored message has the sender, recipients and text that commands and replies show |
| SessionDialogue.SenderIsOfLastMail | apps/smtp-server/src/smtp/SmtpSessionHandler.cpp:440-492 | that sender is of the last accepted MAIL and the recipients are those accepted since, in order, with no reset between |
| SessionDialogue.TextIsSinceData | apps/smtp-server/src/smtp/SmtpSessionHandler.cpp:494-505 | that text is the unanswered lines since the last accepted DATA, dots removed |
| PathArguments.BracketedAddress | apps/smtp-server/src/smtp/SmtpSessionHandler.cpp:58-80 | an address in brackets, whatever white space is before it and whatever parameters follow |
| PathArguments.PlainAddress | apps/smtp-server/src/smtp/SmtpSessionHandler.cpp:58-80 | and without brackets |
| PathArguments.MailLineTaken | apps/smtp-server/src/smtp/SmtpSessionHandler.cpp:440-466 | a MAIL line of that form, in any case: the address is the sender of a new mail, or 530 where authentication is missing |
| PathArguments.RcptLineTaken | apps/smtp-server/src/smtp/SmtpSessionHandler.cpp:468-492 | a RCPT line of that form: the address is one more recipient, or 503 without a sender |
| SessionOffers.CommandInAnyCase | apps/smtp-server/src/smtp/SmtpSessionHandler.cpp:302-313 | the case of the command word does not matter |
| SessionOffers.HelloReplies | apps/smtp-server/src/smtp/SmtpSessionHandler.cpp:321-339 | EHLO is answered with 250 lines of which exactly the last is marked as last and names the size limit |
| SessionOffers.StartTlsAsOffered | apps/smtp-server/src/smtp/SmtpSessionHandler.cpp:315-368 | after EHLO, STARTTLS is accepted iff it was offered and no handshake is on its way |
| SessionOffers.AuthAsOffered | apps/smtp-server/src/smtp/SmtpSessionHandler.cpp:315-383 | after EHLO, AUTH is refused for where the session stands iff it was not offered |
| SessionOffers.WordsAre | apps/smtp-server/src/smtp/SmtpSessionHandler.cpp:383-388 | the operands of AUTH are the first two words, whatever white space is around them |
| SessionRefusals.MailAcceptedIff | apps/smtp-server/src/smtp/SmtpSessionHandler.cpp:440-466 | MAIL is accepted iff authentication is not missing and FROM: with an address is there; 530 iff authentication is missing |
| SessionRefusals.RcptAcceptedIff | apps/smtp-server/src/smtp/SmtpSessionHandler.cpp:468-492 | RCPT is accepted iff there is a sender and TO: with an address; 503 iff there is no sender |
| SessionRefusals.DataAcceptedIff | apps/smtp-server/src/smtp/SmtpSessionHandler.cpp:494-506 | DATA is accepted iff there are sender and recipients |
| SessionRefusals.RefusedChangesNothing | apps/smtp-server/src/smtp/SmtpSessionHandler.cpp:302-550 | a command that is refused leaves the session as if it had not been sent |
| SessionRefusals.OthersInform | apps/smtp-server/src/smtp/SmtpSessionHandler.cpp:515-550 | VRFY, EXPN, HELP, NOOP and unknown words answer with their code and change nothing |
| SessionRefusals.HeloReply | apps/smtp-server/src/smtp/SmtpSessionHandler.cpp:315-324 | HELO is answered with one line, the name of the server |
| SessionRefusals.ResetForgets | apps/smtp-server/src/smtp/SmtpSessionHandler.cpp:508-513 | RSET forgets the mail, and a session that is over stays so |
| SessionRefusals.VerbNames | apps/smtp-server/src/smtp/SmtpSessionHandler.cpp:302-550 | each command word names its verb and no other word names one |
| SessionRefusals.EndAsksForClose | apps/smtp-server/src/smtp/SmtpSessionHandler.cpp:190-212 | a session that comes to its end, other than by Disconnected, has asked for the connection to be closed |
| AuthDialogue.AcceptedIffCorrect | apps/smtp-server/src/smtp/SmtpSessionHandler.cpp:139-273 | over any events a line is answered 235 iff the credentials that the dialogue carried, in one PLAIN message or as LOGIN user name and password, are a user and its password; with AUTH itself only where nobody is authenticated and TLS is on or not needed |
| AuthDialogue.AuthenticatedIff | apps/smtp-server/src/smtp/SmtpSessionHandler.cpp:170-438 | over any events a session is authenticated as a user iff an exchange answered 235 carried that user and its password, and neither an accepted STARTTLS nor another such exchange followed |
| AuthDialogue.TlsIffSucceeded | apps/smtp-server/src/smtp/SmtpSessionHandler.cpp:190-195 | over any events TLS is on in a session iff a handshake has succeeded |
| DotTransparency.StuffingIsTransparent | apps/smtp-server/src/smtp/SmtpSessionHandler.cpp:275-299 | lines stuffed as in section 4.5.2 of RFC 5321 are stored exactly, each with CRLF, and no line ends the message early |
| DotTransparency.RawLinesSurvive | libs/smtp-server-sdk/src/SmtpClient.cpp:146-149 | unstuffed lines reach the buffer unchanged iff none is a dot or begins with two |
| DotTransparency.TwoDotsLoseOne | apps/smtp-server/src/smtp/SmtpSessionHandler.cpp:285-288 | the concrete line that is not kept |
| Sockets.BoostSocketsManager.OnAccept | apps/smtp-server/src/smtp/BoostSocketsManager.cpp:80-100 | a new connection under the next id, and Connected |
| Sockets.BoostSocketsManager.ContinueReading | apps/smtp-server/src/smtp/BoostSocketsManager.cpp:102-120 | starts a read or the pending handshake, or does nothing |
| Sockets.BoostSocketsManager.RunPosted | apps/smtp-server/src/smtp/BoostSocketsManager.cpp:162-179 | runs the oldest posted Send, StartTls or Close on a connection that is still found |
| Sockets.BoostSocketsManager.OnReadEnds | apps/smtp-server/src/smtp/BoostSocketsManager.cpp:131-150 | queues the line, or closes on an error |
| Sockets.BoostSocketsManager.OnWriteEnds | apps/smtp-server/src/smtp/BoostSocketsManager.cpp:191-219 | next write, handshake or close after a write |
| Sockets.BoostSocketsManager.OnHandshakeEnds | apps/smtp-server/src/smtp/BoostSocketsManager.cpp:259-272 | TlsSucceeded, or TlsFailed and close |
| Sockets.BoostSocketsManager.CloseConnection | apps/smtp-server/src/smtp/BoostSocketsManager.cpp:294-319 | closes once and announces Disconnected if asked to |
| Sockets.BoostSocketsManager.TakeEvents | apps/smtp-server/src/smtp/BoostSocketsManager.cpp:337-353 | returns the queued events in order and empties the queue |
| Sockets.PostKeeps | apps/smtp-server/src/smtp/BoostSocketsManager.cpp:162-292 | accepted = written ++ pending, a write in progress iff messages wait, and a requested close waits only for writes or a handshake: kept by Send, StartTls and Close |
| Sockets.WriteEndsKeeps | apps/smtp-server/src/smtp/BoostSocketsManager.cpp:191-219 | the same for the end of a write |
| Sockets.CloseThenDrain | apps/smtp-server/src/smtp/BoostSocketsManager.cpp:191-292 | Close on an open connection and the writes after it: closed in the end iff nothing was left to write or no TLS handshake was waiting; everything accepted is written |
| RequestedClose.CloseCarriedOut | apps/smtp-server/src/smtp/BoostSocketsManager.cpp:201-292 | the same over runs of the whole server, whatever else happens, short of a second Close and an I/O error of the connection |
| RequestedClose.StuckForever | apps/smtp-server/src/smtp/BoostSocketsManager.cpp:162-292 | a stuck connection is unchanged by every run that runs no second Close of it |
| RequestedClose.AbandonedForever | apps/smtp-server/src/smtp/BoostSocketsManager.cpp:102-292 | without a post, an event or a task of it on the way, no run whatever changes a stuck connection or its session |
| PipelinedQuit.QuitBehindStartTlsSticks | apps/smtp-server/src/smtp/BoostSocketsManager.cpp:102-258 | the run from the start of the server, handlers in the order of one I/O thread: STARTTLS and QUIT in one packet, the posts of QUIT run while the 220 reply is being written, both replies written, no failure, and the connection is stuck; for every setting with TLS |
| PipelinedQuit.NeverClosed | apps/smtp-server/src/smtp/BoostSocketsManager.cpp:201-218 | no continuation of that run closes the connection or removes its session |
| RequestedClose.HandshakesStartDrained | apps/smtp-server/src/smtp/BoostSocketsManager.cpp:231-258 | in every run a TLS handshake starts only when everything accepted on the connection is written |
| ConnectionLoss.BrokenIsAnnounced | apps/smtp-server/src/smtp/BoostSocketsManager.cpp:131-319 | a read, write or handshake of an open connection that fails closes it and queues exactly Disconnected, behind TlsFailed for a handshake |
| ConnectionLoss.AbortedIsSilent | apps/smtp-server/src/smtp/BoostSocketsManager.cpp:131-219 | one that was cancelled closes it and queues nothing |
| ConnectionLoss.FineIsQueued | apps/smtp-server/src/smtp/BoostSocketsManager.cpp:131-150 | a read that ends well queues its line, a handshake that ends well TlsSucceeded, and the connection stays open |
| ConnectionLoss.DisconnectedIffClosed | apps/smtp-server/src/smtp/BoostSocketsManager.cpp:131-319 | in every run Disconnected is queued exactly once for a closed connection, unless a cancelled operation closed it, and never for an open one |
| ConnectionLoss.LostSessionGoes | apps/smtp-server/src/smtp/Server.cpp:39-121 | from every state with one connection that is being read and idle: when the client drops it, the session is removed |
| ConnectionLoss.GreetedThenLost | apps/smtp-server/src/smtp/Server.cpp:39-121 | such a run from the start of the server |
| ConnectionRun.ActionOrder | apps/smtp-server/src/smtp/Server.cpp:39-106 | every event of a connection is handled or dropped once, in the order of arrival |
| ConnectionRun.ActionKeepsTasks | apps/smtp-server/src/smtp/Session.cpp:26-46 | every action keeps the tasks of a session, in the pool or held by a worker, equal to its scheduled event, if it has one |
| ConnectionRun.RouteOrder | apps/smtp-server/src/smtp/Server.cpp:70-93 | an event is dropped only when the connection has no session |
| LockStep.TokensNeverGrow | apps/smtp-server/src/smtp/Session.cpp:26-87 | no action creates a second read, waiting input or owed Continue while no TLS event is handled |
| LockStep.AnnouncedOnceKept | apps/smtp-server/src/smtp/BoostSocketsManager.cpp:294-319 | every action keeps Disconnected announced at most once |
| LockStep.NoTlsKept | apps/smtp-server/src/smtp/BoostSocketsManager.cpp:231-273 | no handshake and no TLS event before an accepted STARTTLS |
| ConnectionInvariant.LockStepKept | apps/smtp-server/src/smtp/Session.cpp:53-87 | one token until STARTTLS, none after QUIT, kept by every action |
| ConnectionInvariant.SendsKept | apps/smtp-server/src/smtp/BoostSocketsManager.cpp:162-292 | accepted messages are those asked for before the first Close, kept by every action |
| ConnectionInvariant.LocalKept | apps/smtp-server/src/smtp/BoostSocketsManager.cpp:102-319 | all invariants of one connection, kept by every action |
| ConnectionInvariant.OneLineAtATime | apps/smtp-server/src/smtp/Session.cpp:26-46 | a line about to be handled is alone |
| ConnectionInvariant.CloseWritesEverything | apps/smtp-server/src/smtp/BoostSocketsManager.cpp:275-292 | a connection closed without an I/O error has written all it was asked to before the first Close |
| ServerSystem.MoveSimulates | apps/smtp-server/src/smtp/Server.cpp:39-121 | seen from one connection, a move of the whole server is an action of that connection or nothing |
| ServerSystem.ServerKept | apps/smtp-server/src/smtp/Server.cpp:39-121 | every move of the server keeps the invariants of all connections |
| ServerSystem.EventsInOrder | apps/smtp-server/src/smtp/Server.cpp:70-93 | in every run the events of a connection are handled or dropped once each, in order |
| ServerSystem.OneTaskEach | apps/smtp-server/src/smtp/Server.cpp:95-106 | in every run a session has exactly one task, in the pool or with a worker, while an event of it is scheduled, and none otherwise; a task that is held can be processed |
| ServerSystem.ReadInLockStep | apps/smtp-server/src/smtp/BoostSocketsManager.cpp:102-150 | in every run, until STARTTLS is accepted, at most one of read, waiting input, owed Continue; none after QUIT |
| ServerSystem.LinesOneByOne | apps/smtp-server/src/smtp/Session.cpp:21-87 | in every run a line about to be handled is alone and QUIT was not handled |
| ServerSystem.WritesConserved | apps/smtp-server/src/smtp/BoostSocketsManager.cpp:162-229 | in every run accepted = written ++ pending, and a drained close still waits only for a pending handshake |
| ServerSystem.ClosedHasWritten | apps/smtp-server/src/smtp/BoostSocketsManager.cpp:275-319 | in every run a close without I/O error has written everything sent before it was requested |
| ServerSystem.DisconnectedOnce | apps/smtp-server/src/smtp/BoostSocketsManager.cpp:294-319 | in every run Disconnected is queued at most once per connection |
| ServerLimits.SessionsAreLimited | apps/smtp-server/src/smtp/Server.cpp:70-93 | in every run there are at most as many sessions as configured |
| ServerLimits.FirstEvent | apps/smtp-server/src/smtp/Server.cpp:78-93 | the first event of a connection starts a session below the limit, and asks for a close at the limit |
| ServerLimits.TlsIffHandshake | apps/smtp-server/src/smtp/BoostSocketsManager.cpp:244-272 | in every run a connection uses TLS iff TlsSucceeded was queued for it |
| ServerLimits.HandshakesStartOnce | apps/smtp-server/src/smtp/BoostSocketsManager.cpp:102-258 | a handshake that starts no longer waits, and none starts on a connection with TLS unless one waits |
| ServerLimits.ProcessedIs | apps/smtp-server/src/smtp/Session.cpp:53-87 | a handler that throws has the connection closed; Disconnected and the phase Closed mark the session, and nothing else does |
| ServerLimits.OverMeansRemovable | apps/smtp-server/src/smtp/Session.cpp:48-51 | in every run a session that is over, idle and without events can be removed |
| SmtpServer.ConnectionSession.PushEvent | apps/smtp-server/src/smtp/Session.cpp:21-24 | appends to the queue |
| SmtpServer.ConnectionSession.TryExtractNextTask | apps/smtp-server/src/smtp/Session.cpp:26-46 | takes the oldest event iff none is being processed |
| SmtpServer.ConnectionSession.IsReadyForRemoval | apps/smtp-server/src/smtp/Session.cpp:48-51 | closed, idle and without events |
| SmtpServer.ConnectionSession.ProcessEvent | apps/smtp-server/src/smtp/Session.cpp:53-87 | HandleEvent, a Close if it threw, the flags, Continue unless the session is over |
| SmtpServer.SmtpServer.RouteEvent | apps/smtp-server/src/smtp/Server.cpp:70-93 | to the session, to a new one, or dropped, as the model says |
| SmtpServer.SmtpServer.ScheduleReadySessions | apps/smtp-server/src/smtp/Server.cpp:95-106 | the pool gains exactly one task for each idle session with an event, that event, and no other, and these sessions become scheduled; it throws iff the pool is stopping and some session can run, then one of them is marked and no task is made |
| SmtpServer.SmtpServer.RemoveClosedSessions | apps/smtp-server/src/smtp/Server.cpp:108-121 | exactly the sessions ready for removal go |
| SmtpServer.SmtpServer.RunOnce | apps/smtp-server/src/smtp/Server.cpp:39-51 | one turn of the loop has the effect of LoopOnce: all polled events routed in order, then one task in the pool per ready session, then removal; or it throws, exactly when a stopping pool refuses a task, and nothing is removed |
| ServerLoop.LoopIsRun | apps/smtp-server/src/smtp/Server.cpp:39-51 | that effect, in whatever order the tasks are made, is a run of moves, so the guarantees of every run hold of the loop |
| ServerLoop.ProcessingIsRun | apps/smtp-server/src/smtp/Session.cpp:53-87 | ProcessEvent on a task that a worker holds is a run of three moves |
| SmtpClient.Client.SendCommand | libs/smtp-server-sdk/src/SmtpClient.cpp:44-47 | the server receives the lines of the command |
| SmtpClient.Client.ReadResponse | libs/smtp-server-sdk/src/SmtpClient.cpp:24-42 | skips to the last line of the reply |
| SmtpClient.Client.ReadReply | libs/smtp-server-sdk/src/SmtpClient.cpp:49-61 | code and text of that line, or an exception |
| SmtpClient.SignIsRead | libs/smtp-server-sdk/src/SmtpClient.cpp:49-61 | white space and a sign in front of a reply code are read as std::stoi does |
| SmtpClient.Client.SendMailMessage | libs/smtp-server-sdk/src/SmtpClient.cpp:92-197 | greeting, envelope, text and QUIT with every rejected reply, against any server |
| ClientResult.SuccessIff | libs/smtp-server-sdk/src/SmtpClient.cpp:92-160 | against every server: success iff the greeting has code 220 and EHLO, MAIL, each RCPT, DATA and the text are answered 250, 250, 250, 354 and 250 |
| ClientResult.GreetedResult | libs/smtp-server-sdk/src/SmtpClient.cpp:109-160 | otherwise error, text and code are those of the first reply that deviates, or of an exception if there is none; QUIT is sent after success |
| ClientResult.NotGreeted | libs/smtp-server-sdk/src/SmtpClient.cpp:101-107 | a greeting with another code, or none, fails the connection |
| ClientServer.PathUndone | apps/smtp-server/src/smtp/SmtpSessionHandler.cpp:58-80 | ExtractPathArgument undoes the wrapping of sections 4.1.1.2 and 4.1.1.3 of RFC 5321 |
| ClientServer.ReplyReads | libs/smtp-server-sdk/src/SmtpClient.cpp:24-61 | the client reads the code of a reply of any number of lines |
| ClientServer.WireMessage | libs/smtp-server-sdk/src/SmtpClient.cpp:146-149 | the bytes of the message are received as its header lines, body lines and final dot |
| ClientServer.EnvelopeAccepted | libs/smtp-server-sdk/src/SmtpClient.cpp:110-136 | the envelope leaves sender and recipients, in order, in the session |
| ClientServer.MailIsStored | libs/smtp-server-sdk/src/SmtpClient.cpp:92-160 | against this server the client succeeds and exactly this mail is stored |
| MailText.HeaderValue | apps/mail-client/models/mail/EmailListModel.cpp:75-99 | the loop over the lines, with folded headers |
| FoldedHeaders.HeaderWithFolds | apps/mail-client/models/mail/EmailListModel.cpp:75-99 | for any header lines: the last line with the name, in any case, with each of its continuations trimmed and behind one blank; other headers and the body count for nothing |
| FoldedHeaders.HeaderMissing | apps/mail-client/models/mail/EmailListModel.cpp:75-99 | no value without a line of that name before the first blank line |
| MailText.NormalizedLines | apps/mail-client/models/mail/EmailListModel.cpp:68-73 | stored lines read with normalised endings |
| MessageReading.AnyEndings | apps/mail-client/models/mail/EmailListModel.cpp:68-73 | lines that end in CRLF, LF or CR, in any mixture, read as these lines |
| MailText.BlankLineAfter | apps/mail-client/models/mail/EmailListModel.cpp:101-110 | the header ends at the first empty line |
| MessageReading.BodyIs | apps/mail-client/models/mail/EmailListModel.cpp:101-110 | the body is what is behind the first empty line, or the whole text without one, trimmed |
| MessageReading.SubjectShown | apps/mail-client/models/mail/EmailListModel.cpp:112-120 | a subject that is given is shown, else that of the header, else the placeholder |
| RoundTrip.BodyComesBack | apps/mail-client/models/mail/EmailListModel.cpp:101-110 | the body shown is the body written, up to line endings |
| RoundTrip.SubjectComesBack | apps/mail-client/models/mail/EmailListModel.cpp:112-120 | the subject shown is the subject written, or (No subject) |
| RoundTrip.MailRoundTrip | libs/smtp-server-sdk/src/SmtpClient.cpp:92-160 | sending, storing and showing a mail gives back body and subject |
| ClientDelivery.ArrivalIsSettled | apps/smtp-server/src/smtp/QueueDispatcher.cpp:34-128 | a mail that arrives in the middle of any fault-free run is, when the run is complete, Delivered to exactly its active recipients, Failed for the others, Sent iff there is an active one; sender, recipients and text are unchanged |
| ClientDelivery.MailIsDelivered | libs/smtp-server-sdk/src/SmtpClient.cpp:92-160 | the client sends a mail, it is stored as that arrival, and at the end of every complete fault-free run exactly the active recipients have it, with the body and the subject that were written |
| WholeProgram.ProgramKept | apps/smtp-server/src/smtp/Server.cpp:39-121 | every run of server, sessions and delivery queue on the same tables keeps the invariants of all three |
| WholeProgram.SessionsInEveryRun | apps/smtp-server/src/smtp/Session.cpp:53-87 | in every run each session is what the events last handled for its connection, in order, make of a fresh session, each with the tables that it met; so the session invariant holds of it |
| WholeProgram.ServerRuns | apps/smtp-server/src/smtp/Server.cpp:39-121 | the server in a run of the program makes a run of ServerSystem |
| WholeProgram.DeliveryRuns | apps/smtp-server/src/smtp/QueueDispatcher.cpp:34-128 | the queue in a run of the program makes a run of DeliverySystem, in which each stored mail is one that arrives |
| AcceptedMail.EveryMessageWasSaid | apps/smtp-server/src/smtp/SmtpSessionHandler.cpp:275-300 | in every run each new row of mail_messages is the mail that the dialogue of one connection showed at the turn which stored it: sender, recipients in order and text, whatever happened since |
| AcceptedMail.AcceptedMailStays | apps/smtp-server/src/smtp/SmtpSessionHandler.cpp:559-591 | a mail that was answered with 250 is in the tables in every later state, as its dialogue showed it |
| AcceptedMail.AcceptedMailIsDelivered | apps/smtp-server/src/smtp/QueueDispatcher.cpp:46-101 | in a fault-free run that has come to its end, a mail accepted from any connection at any turn is Delivered to exactly its active recipients, Failed for the others, and Sent iff there is an active one |
| CacheStore.EscapeLike | apps/mail-client/models/database/CacheStore.cpp:251-265 | the loop escapes the three special characters |
| CacheStore.BeginsWithIs | apps/mail-client/models/database/CacheStore.cpp:176-189 | beginning with a prefix, character by character up to ASCII case |
| CacheStore.LikeIsExact | apps/mail-client/models/database/CacheStore.cpp:176-189 | a value matches the escaped prefix followed by % iff it begins with the prefix up to ASCII case |
| CacheStore.UnescapedIsWrong | apps/mail-client/models/database/CacheStore.cpp:256-259 | without the escape an underscore matches more |
| CacheStore.ServedForItsTime | apps/mail-client/models/database/CacheStore.cpp:126-131 | fresh for the time to live less one second, never at or after its end |
| CacheStore.Store.Put | apps/mail-client/models/database/CacheStore.cpp:44-89 | one row is replaced; a time to live that is not positive throws and changes nothing |
| CacheStore.Store.Get | apps/mail-client/models/database/CacheStore.cpp:91-137 | the row, unless it is missing or stale |
| CacheStore.Store.Exists | apps/mail-client/models/database/CacheStore.cpp:139-142 | stale rows exist |
| CacheStore.Store.Invalidate | apps/mail-client/models/database/CacheStore.cpp:144-159 | removes one row |
| CacheStore.Store.InvalidateNamespace | apps/mail-client/models/database/CacheStore.cpp:161-174 | removes exactly one namespace |
| CacheStore.Store.InvalidateNamespacePrefix | apps/mail-client/models/database/CacheStore.cpp:176-189 | removes exactly the namespaces that begin with the prefix up to ASCII case |
| EmailCache.RowsAgree | apps/mail-client/models/mail/EmailCache.cpp:73-81 | two requests share a row iff folder and search text agree when normalised |
| EmailCache.NormsAgree | apps/mail-client/models/mail/EmailCache.cpp:73-81 | two spellings of a folder or search text are the same iff they agree between white space at their ends, up to ASCII case |
| EmailCache.KeyAloneIsAmbiguous | apps/mail-client/models/mail/EmailCache.cpp:73-76 | the key without the namespace would not tell requests apart |
| EmailCache.CacheRefinesMap | apps/mail-client/models/mail/EmailCache.cpp:15-66 | after any operations the rows are those of a map from normalised folder and search text |
| EmailCache.LoadReturnsLastSaved | apps/mail-client/models/mail/EmailCache.cpp:35-52 | Load returns what was saved last and not invalidated, within its time to live |
| EmailCache.OtherCachesKept | apps/mail-client/models/mail/EmailCache.cpp:15-66 | over any operations a row of another cache is never made or changed, and lost iff InvalidateAll is among them and its namespace begins with email-list in any case |
| EmailCache.ForeignRowLost | apps/mail-client/models/mail/EmailCache.cpp:62-71 | such a namespace: the rows of a cache named email-listing are lost |
| EmailCache.EmailListCache.Save | apps/mail-client/models/mail/EmailCache.cpp:15-33 | one row of the map |
| EmailCache.EmailListCache.Load | apps/mail-client/models/mail/EmailCache.cpp:35-52 | the entry under the normalised request |
| EmailCache.EmailListCache.InvalidateFolder | apps/mail-client/models/mail/EmailCache.cpp:54-60 | exactly that folder |
| EmailCache.EmailListCache.InvalidateAll | apps/mail-client/models/mail/EmailCache.cpp:62-66 | the whole cache |
| Migrations.VersionParsed | libs/mail-storage/src/MigrationRunner.cpp:179-217 | every version up to the largest int is read back from its file name, with any leading zeros |
| Migrations.AcceptedNames | libs/mail-storage/src/MigrationRunner.cpp:179-217 | a file name is accepted with a version iff it is digits, _, a title and .sql, and the digits are that positive int |
| Migrations.CandidateIs | libs/mail-storage/src/MigrationRunner.cpp:63-69 | the candidates are the regular files with a name before .sql |
| Migrations.ListedIs | libs/mail-storage/src/MigrationRunner.cpp:44-78 | loading fails at the first candidate with a name that is not valid, and else takes every candidate, in order, and nothing else |
| Migrations.SortedSorts | libs/mail-storage/src/MigrationRunner.cpp:79-89 | the sort is an ascending permutation |
| Migrations.DuplicatesFound | libs/mail-storage/src/MigrationRunner.cpp:91-97 | comparing neighbours after the sort finds exactly the repeated versions; what passes is strictly ascending |
| Migrations.LoadMigrations | libs/mail-storage/src/MigrationRunner.cpp:44-100 | filter, parse, sort and check, with the first error |
| MigrationRun.CommittedAtMostOnce | libs/mail-storage/src/MigrationRunner.cpp:102-129 | over any attempts, failing or not, each version is committed at most once and never undone |
| MigrationRun.FailureLeavesPrefix | libs/mail-storage/src/MigrationRunner.cpp:22-30 | a run failing at a version has applied every smaller one and left no effect of it |
| MigrationRun.FreshRunIsFold | libs/mail-storage/src/MigrationRunner.cpp:22-30 | a finished run on an empty database is the fold of the scripts in ascending order |
| MigrationRun.FinishedIsFold | libs/mail-storage/src/MigrationRunner.cpp:22-30 | and commits the versions in that order |
| MigrationRun.RunsRepeat | libs/mail-storage/src/MigrationRunner.cpp:131-143 | a second run on the same files changes nothing, whatever fails |
| MigrationRun.MigrationRunner.ApplyMigration | libs/mail-storage/src/MigrationRunner.cpp:102-129 | the transaction commits script and record together, or leaves the database as it was |
| MigrationRun.MigrationRunner.Run | libs/mail-storage/src/MigrationRunner.cpp:22-30 | the loop applies the loaded migrations up to the first exception |
| Highlight.HighlightAllFoundWords | apps/mail-client/models/search/MessageSearchModel.cpp:55-81 | the loop terminates and renders text and tagged occurrences |
| Highlight.OccursIs | apps/mail-client/models/search/MessageSearchModel.cpp:65-66 | an occurrence, character by character up to ASCII case |
| Highlight.HighlightRoundTrip | apps/mail-client/models/search/MessageSearchModel.cpp:55-81 | deleting the two tags and undoing the HTML escapes gives back the text |
| Highlight.TagsAreLeftmost | apps/mail-client/models/search/MessageSearchModel.cpp:63-78 | the tagged pieces are the leftmost occurrences that do not overlap, up to ASCII case |
| Highlight.LeftmostIsUnique | apps/mail-client/models/search/MessageSearchModel.cpp:65-76 | there is only one such list of positions |
| Highlight.UnescapedInverts | apps/mail-client/models/search/MessageSearchModel.cpp:68-78 | undoing the escapes inverts toHtmlEscaped |

## Left out

- SQLite, Boost.Asio, OpenSSL and Qt are not modelled: a statement is one update of the tables, a completion
  is a step that may happen at any time with any result, library string functions are their definitions.
- RETURNING has no order in SQLite: the method returns the claimed rows in claim order, the protocol allows
  any order.
- MailStorage.MailStore.CreateMessage: reply_to links between messages and their foreign key are not modelled.
- Finders, and SetStarred, SetArchived and MarkDeleted of actors, which do not touch delivery.
- A storage exception that leaves Poll ends the server loop; runs in which Poll throws between claim and
  hand-over are not considered, nor is recovery of Delivering rows after a crash.
- SmtpHandler.SmtpSessionHandler.StoreMessage: a ROLLBACK that throws is not modelled; the source swallows that
  exception (SmtpSessionHandler.cpp, lines 582-588), and what SQLite then does with the open transaction is
  outside the model.
- MigrationRun.MigrationRunner.ApplyMigration: the same of its ROLLBACK.
- Dispatcher.ThreadPool.Stop: joining the workers is the step WorkerExits of DeliverySystem, not part of the
  method.
- Dispatcher.ThreadPool.NextTask: one pass of WorkerLoop; the futures of Enqueue are not modelled, and the tasks
  of sessions and of deliveries, which share one pool in the program, are separate.
- Dispatcher.QueueDispatcher.Poll: states an undisturbed call; interleavings are the subject of
  DeliverySystem.
- SmtpServer.ConnectionSession.ProcessEvent: states an undisturbed call; the interleaved form has
  HandleEvent, Continue and the end as three moves of ServerSystem.
- SmtpServer.SmtpServer.RunOnce: leaves out the dispatcher's Poll, which works on other objects, and the time
  for which the I/O context runs, whose steps are moves of ServerSystem.
- Start and Stop of the sockets manager and of the server, reading configuration, certificates, logging.
- Reading behind an accepted STARTTLS: Continue may run before the posted StartTls, so lock-step is claimed
  only up to there.
- Continue runs in a worker thread while the I/O context may run; the model takes it as atomic.
- The user directory of AUTH is fixed during a run; AddUser is not modelled.
- SmtpClient.Client.ReadResponse: takes one reply line per read, without the bytes that a read may leave in
  its buffer.
- SmtpClient.Client.SendMailMessage: resolving, connecting and the texts of network errors are not modelled.
- ClientServer.MailIsStored: other sessions do not change the tables while the client talks, and likewise in
  ClientDelivery.MailIsDelivered.
- CacheStore.ServedForItsTime: formatting and parsing of time stamps are taken to keep the whole seconds.
- Migrations: scripts act on the schema only, not on schema_migrations; the order of equal versions by name
  is modelled but never matters, since equal versions are rejected.
- Recipient and sender addresses with non-ASCII characters, and Unicode case folding in cache keys and search.
- MessageSearchModel filtering, proxies, account list, HTTP handlers, registration, password hashing, avatar
  files: plumbing, or easy members.
