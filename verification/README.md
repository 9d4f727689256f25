# Verified model of the chat service and its HTTP server

This project models, in Dafny, the stateful protocols and the byte-level algorithms of the chat
service, and proves what they promise. Run `dafny verify dfyconfig.toml` to check it.

The model has two layers. Classes with methods follow the code that updates state in place: the
message-queue handler, the chat helper and server, the HTTP parser and connection, the event-stream
callback, the model's cache pool, the session storage, the connection pool, and the loops over
bytes. Each such method is proved to compute a function of its inputs and the old state. The
properties, over single steps, whole runs and all inputs, are lemmas about those functions.

## What is modelled

- **Message queue** (`MqClient`, `MqHandler`, `MqSystem`, `MqRecovery`, `MqWindow`, `MqTokens`,
  `MqCustody*`, `MqCopies`, `MqNoLoss`, `MqAnswers`, `MqSettled`, `MqFlow`, `MqReconnect`). The client
  is the event-loop object of `MQManager` with its queued closures, retry timers, workers and
  publishers; every locked or event-loop section is one step, and
  a compare-and-swap loop is a load step and a compare step. The broker is a step system that follows
  AMQP 0-9-1, class basic, with RabbitMQ publisher confirms: queue contents, deliveries
  unacknowledged per (generation, tag), publishes numbered per channel, and for an unroutable
  mandatory message a return before its ack. A connection may be lost, and a publish torn, at any
  point.
- **Chat history** (`ChatMessage`, `ChatHistory`). Commit, queue text, the table with its unique key
  on `message_id` (deploy/init.sql), the consumer, and the restore after a restart.
- **End to end** (`EndToEnd`, `Restart`). The queue system with the consumer at work on the table, the
  database failing before or after its commit; and the histories the next process restores once
  everything has been delivered.
- **HTTP** (`HttpText`, `HttpRequest`, `HttpContext`, `HttpServer`, `HttpSplit`, `HttpDispatch`,
  `HttpWire`, `HttpClosing`, `HttpRefusal`). The incremental parser and the dispatch loop of one
  connection. A handler is any function of the request; its reply says whether it closes, streams or throws.
- **Streaming** (`Sse`, `ChatStream`, `ChatExamples`). The line splitter fed by network writes, and one
  streamed question up to the history and the callbacks, which may throw.
- **Local model** (`GemmaPool`, `GemmaInferencePool`, `GemmaTransparency`, `GemmaAnswers`, `Recency`,
  `GemmaLru`). The cache pool at the level of tokens: a cache is the tokens it holds, and reading it as a
  conversation means cutting it into wrapped user turns and assistant turns.
- **Sessions** (`SessionStore`, `SessionStorage`, `SessionLife`) and **database pool** (`DbPool`,
  `DbConnectionPool`, `DbLeases`).
- **Bytes** (`Base64`, `Crc32`, `CrcDivision`, `ImagePng`, `ImageJpeg`, `ImageJpegGrammar`,
  `ImageFields`): RFC 4648 sections 4 and 5 with '.' as padding in the URL alphabet, RFC 2045 section 6.8 line breaks, PNG Specification
  (Second Edition) sections 5.2, 5.3, 5.5 and 11.2.2, ITU-T T.81 Annex B.

`Json`, `Optional`, `Counting` and `Finite` hold what several of these share.

## Assumptions

Code that is not part of this model appears as a parameter, so each theorem holds for every choice
of it. What is assumed of it is stated where it is used:

- The JSON library: parsing what was printed returns the value, and an object that was parsed can be
  printed again after its retry counter is set (`Json.Lawful`; `ChatExamples.CodecLawful` shows that
  this can be met).
- The engine of the local model streams every prompt token and then what it generates, and its cache
  then holds all of them, the last generated token included; that a later hit reads the whole
  conversation (`GemmaTransparency.Transparent`) depends on it. Only the capacity bound needs that it
  generates no more than it was asked for. Tokenizer, decoder and engine are otherwise arbitrary.
- The history query returns the table's rows in any order that agrees with its ORDER BY.
- Clocks are values passed to each call; one locked section reads its clock once, except in the
  default session lifecycle, where the two looks are told apart.
- Message ids are distinct (they come from the secure random source), where a theorem says so.

## Where the code does not meet a promise on every input

Each of these has a lemma that says exactly when the promise holds, with a concrete input that
breaks it where the condition does not already name one:

- `SessionStore.StepRefines` and `SessionStore.RevivedEntry`: refreshing an expired, unswept session
  object from outside brings its entry back.
- `SessionStore.DefaultUpdateExact` and `SessionStore.OldObjectReturns`: the default update goes by
  name, so it can replace a newer object.
- `ChatStream.ExactlyOneReport` and `ChatExamples.DoneThenFailed`: a completion callback that is
  reached and throws is followed by an error report.
- `ChatStream.SilentCommit` and `ChatExamples.CommittedUnseen`: a throwing token callback of a
  tool-using model hides a commit.
- `Base64.EncoderEnds`: the 32-bit counter of the encoder never reaches the end of 4 GiB or more.

## Model

| member | source | states |
|---|---|---|
| `MqNoLoss.NoLoss` | AIApps/ChatServer/src/AIUtil/MQManager.cpp:165-266 | In every state of every run of client and broker, with connection loss, nacks, returns, rejected admission and stale timers, each message the broker ever accepted is still owned by the broker, was answered Ack by its handler, or lives on in a later stored message that is itself safe and is the publish the client made for a delivery of it |
| `MqNoLoss.AcksJustified` | AIApps/ChatServer/src/AIUtil/MQManager.cpp:185-217 | Every acknowledgement frame on any channel names a delivery made on that channel whose handler said Ack, or for which the broker has stored, in the work or dead queue, the very publish whose completion settles that delivery |
| `MqCopies.NoSharing` | AIApps/ChatServer/src/AIUtil/MQManager.cpp:185-217 | In every state of every run no stored message stands for two deliveries: the publishes that justify two acknowledgements are different stored messages, also when their texts are equal |
| `MqCopies.CopiesOne` | AIApps/ChatServer/src/AIUtil/MQManager.cpp:185-217 | So a stored message is the copy of at most one message |
| `MqCopies.NumberedStep` | AIApps/ChatServer/src/AIUtil/MQManager.cpp:237-251 | Every step keeps the numbers of stored publishes distinct across all channels |
| `MqNoLoss.ConfirmedAreStored` | AIApps/ChatServer/src/AIUtil/MQManager.cpp:237-266 | The in-flight entry a confirmation removes is the very message (queue and body) the broker stored under that publish number: client tags match the broker's numbering of the current channel |
| `MqNoLoss.TagsKnown` | AIApps/ChatServer/src/AIUtil/MQManager.cpp:185-217 | The broker never receives a settle frame for a delivery tag it does not hold as unacknowledged on that connection |
| `MqCustodyBroker.NextSettleKnown` | AIApps/ChatServer/src/AIUtil/MQManager.cpp:185-217 | One-step form: under the custody and token invariants the next settle frame of a connection names an unacknowledged delivery |
| `MqNoLoss.InvStep` | AIApps/ChatServer/src/AIUtil/MQManager.cpp:33-279 | Each of the twenty kinds of step of client threads, event loop and broker keeps the joint invariant of custody, settle tokens and recovery |
| `MqCustodyClient.CoveredJustifies` | AIApps/ChatServer/src/AIUtil/MQManager.cpp:253-266 | A confirmed in-flight copy justifies acknowledging the delivery it copies: the broker stored that very publish, made for that delivery, under the confirmed number and after the delivery's message, with the copy's queue and body |
| `MqCustodyClient.ConfirmGood` | AIApps/ChatServer/src/AIUtil/MQManager.cpp:253-266 | The confirmation loop, erasing entries and running their completions, keeps custody when what it covers is stored |
| `MqCustodySteps.CompleteKeeps` | AIApps/ChatServer/src/AIUtil/MQManager.cpp:185-217 | A handler result, Ack, Retry or Reject, keeps custody; what it brings about is the subject of `MqSettled.AckTakesEffect` and `MqFlow.ReplacementGoesOut` |
| `MqCustodySteps.DisconnectKeeps` | AIApps/ChatServer/src/AIUtil/MQManager.cpp:47-64 | Disconnecting moves all in-flight entries back to pending and keeps custody |
| `MqTokens.SettledOnceAlways` | AIApps/ChatServer/src/AIUtil/MQManager.cpp:165-217 | On every run each (generation, delivery tag) is settled at most once, and only by a frame on the channel of its own generation, whatever repeated or late results, timers, resends and reconnects occur |
| `MqTokens.TokensStep` | AIApps/ChatServer/src/AIUtil/MQManager.cpp:165-217 | No step makes a second right to settle a delivery, wherever the one is held: worker, loop, timer, publisher, pending, in flight or on the wire; that none is lost is `MqTokens.TotalKept` |
| `MqTokens.TotalKept` | AIApps/ChatServer/src/AIUtil/MQManager.cpp:165-266 | Nothing a live client does or hears on its channel, but being handed a delivery, changes how often a delivery of that channel is settled or can still be: no result, timer, publisher, pending or in-flight copy loses the right to settle, or spends it without writing a frame |
| `MqAnswers.NoneForgotten` | AIApps/ChatServer/src/AIUtil/MQManager.cpp:165-217 | In every reachable state of a client that serves a channel, each delivery handed over on it is either settled once or the right to settle it is held in exactly one place |
| `MqSettled.AckTakesEffect` | AIApps/ChatServer/src/AIUtil/MQManager.cpp:185-188 | In every reachable state in which the loop comes to an Ack of the present channel, its frame is written there, stays there over every further run, and once the broker has taken it the message is gone |
| `MqSettled.GoneExactly` | AIApps/ChatServer/src/AIUtil/MQManager.cpp:185-217 | In every reachable state a message is gone from the broker if and only if it has taken an acknowledgement frame of a delivery of that message |
| `MqFlow.ConfirmExact` | AIApps/ChatServer/src/AIUtil/MQManager.cpp:253-266 | A confirmation of a tag, single or cumulative, erases exactly the entries it answers for, takes them off the counter, acknowledges in order the deliveries of the present channel that they copied, and refills the window |
| `MqFlow.DrainExact` | AIApps/ChatServer/src/AIUtil/MQManager.cpp:237-251 | The drain loop publishes the oldest pending items, as many as are there, fit the window of 128 and are accepted, under consecutive tags and with their queue, body and completion; it fails the connection exactly when a publish is refused |
| `MqFlow.Resumes` | AIApps/ChatServer/src/AIUtil/MQManager.cpp:137-138 | Being allowed to publish, or told that the connection is writable, publishes what is pending as far as the window goes |
| `MqFlow.Admission` | AIApps/ChatServer/src/AIUtil/MQManager.cpp:219-235 | An uninterrupted publish call is admitted if and only if fewer than 10000 publications are outstanding; it then counts one more and queues the item |
| `MqFlow.RefusedGoesBack` | AIApps/ChatServer/src/AIUtil/MQManager.cpp:206-216 | A replacement refused at the bound sends the original back with a reject frame and counts nothing |
| `MqFlow.ReplacementGoesOut` | AIApps/ChatServer/src/AIUtil/MQManager.cpp:185-251 | Undisturbed, a delivery answered Retry or Reject goes out as its replacement, as the next publish on the channel, with the completion that settles it, and no frame is written before |
| `MqFlow.LateAnswer` | AIApps/ChatServer/src/AIUtil/MQManager.cpp:185-187 | An answer for another channel or during a recovery is dropped: nothing is written, published or set |
| `MqFlow.LateTimer` | AIApps/ChatServer/src/AIUtil/MQManager.cpp:203-205 | A retry timer of another channel only expires |
| `MqFlow.LateNotice` | AIApps/ChatServer/src/AIUtil/MQManager.cpp:253-255 | What the broker says during a recovery is not heard |
| `MqFlow.StopIsFinal` | AIApps/ChatServer/src/AIUtil/MQManager.cpp:66-72 | Once stopped, a client opens no connection, publishes nothing and settles nothing, whatever its timers, workers and publishers still do |
| `MqFlow.StopCancels` | AIApps/ChatServer/src/AIUtil/MQManager.cpp:66-72 | Stopping in any reachable state leaves no reconnect timer |
| `MqReconnect.ReadyFirst` | AIApps/ChatServer/src/AIUtil/MQManager.cpp:126-145 | In every reachable state nothing has been published on a channel on which publishing has not been allowed yet, and it is allowed on a channel only |
| `MqReconnect.Reconnects` | AIApps/ChatServer/src/AIUtil/MQManager.cpp:105-122 | Wherever a run comes to a recovery, it sets the one timer, the timer connects, a channel of a new generation can be established with the back-off reset, and once publishing is allowed there everything in flight goes out again first, in order |
| `MqWindow.WindowAlways` | AIApps/ChatServer/src/AIUtil/MQManager.cpp:219-266 | In every reachable state `outstanding_` equals the number of in-flight, pending and reserved or queued publications and stays within 10000 under concurrent compare-and-swap publishers; at most 128 are in flight |
| `MqWindow.OrderKept` | AIApps/ChatServer/src/AIUtil/MQManager.cpp:47-56 | While alive, in-flight by tag then pending then queued closures is a subsequence of what it was plus what was admitted, and that is, as a multiset, what is left plus the entries confirmations covered: over a whole run disconnect and resend keep the order, add nothing and drop nothing but confirmed entries |
| `MqWindow.LineStep` | AIApps/ChatServer/src/AIUtil/MQManager.cpp:237-266 | One step changes the publication sequence only by appending an admitted item or deleting the entries a confirmation covers |
| `MqRecovery.RecoveryAlways` | AIApps/ChatServer/src/AIUtil/MQManager.cpp:33-45 | In every reachable live state `recovering_` holds exactly when one recovery action is outstanding, a queued disconnect or the single reconnect timer; the back-off is always min(60, 5*2^k) |
| `MqRecovery.RecoveryStep` | AIApps/ChatServer/src/AIUtil/MQManager.cpp:105-121 | Each step keeps exactly one recovery action outstanding for a recovering client and none otherwise |
| `MqHandler.Handler.Connect` | AIApps/ChatServer/src/AIUtil/MQManager.cpp:33-45 | Clears `recovering_` and either has a connection or fails again, as the transition `Connect` says |
| `MqHandler.Handler.Disconnect` | AIApps/ChatServer/src/AIUtil/MQManager.cpp:47-64 | The in-place disconnect, with its reverse loop over the in-flight map, is the transition `Disconnect` |
| `MqHandler.Handler.Stop` | AIApps/ChatServer/src/AIUtil/MQManager.cpp:66-72 | Shutting down cancels the last timer set and disconnects, as the transition `Stop` |
| `MqHandler.Handler.ConnectionFailed` | AIApps/ChatServer/src/AIUtil/MQManager.cpp:105-116 | Ignored while shutting down or recovering; otherwise queues exactly one recovery |
| `MqHandler.Handler.OnConnected` | AIApps/ChatServer/src/AIUtil/MQManager.cpp:118-122 | Resets the back-off and opens the channels of the current generation |
| `MqHandler.Handler.OnConsumerMessage` | AIApps/ChatServer/src/AIUtil/MQManager.cpp:165-183 | Hands the delivery to a worker that remembers generation, tag and body |
| `MqHandler.Handler.WorkerResult` | AIApps/ChatServer/src/AIUtil/MQManager.cpp:165-183 | Only the first result of a worker queues a completion |
| `MqHandler.Handler.CompleteDelivery` | AIApps/ChatServer/src/AIUtil/MQManager.cpp:185-217 | Stale generations do nothing; Ack settles; Retry and Reject schedule the replacement with its queue, body and delay |
| `MqHandler.Handler.FireTimer` | AIApps/ChatServer/src/AIUtil/MQManager.cpp:203-216 | A retry timer of another generation does nothing; otherwise the replacement is offered for publication, and a refused one rejects the original |
| `MqHandler.Handler.BeginPublish` | AIApps/ChatServer/src/AIUtil/MQManager.cpp:219-235 | Admission starts by loading the counter, if the client is alive |
| `MqHandler.Handler.PublisherTurn` | AIApps/ChatServer/src/AIUtil/MQManager.cpp:219-235 | One turn of the compare-and-swap loop, or the queueing of the reserved item |
| `MqHandler.Handler.DrainPending` | AIApps/ChatServer/src/AIUtil/MQManager.cpp:237-251 | The publishing loop, which may stop at a full window or a failed publish whose message may or may not have reached the wire |
| `MqHandler.Handler.Confirm` | AIApps/ChatServer/src/AIUtil/MQManager.cpp:253-266 | The erasing loop over the in-flight map, single or cumulative, with each completion run in order, then a drain |
| `MqHandler.Handler.ScheduleReconnect` | AIApps/ChatServer/src/AIUtil/MQManager.cpp:268-279 | At most one timer is set |
| `MqHandler.Handler.FireReconnect` | AIApps/ChatServer/src/AIUtil/MQManager.cpp:272-278 | The timer doubles the delay up to 60 and connects |
| `MqHandler.Handler.RunClosure` | AIApps/ChatServer/src/AIUtil/MQManager.cpp:110-115 | The loop runs its oldest closure: an admitted item, a completion or a recovery, and nothing once the client is not alive |
| `ChatMessage.ParseSerialize` | AIApps/ChatServer/include/AIUtil/ChatMessage.h:15-42 | Serialising then parsing returns the exchange exactly when it meets the schema bounds, and is rejected otherwise |
| `ChatMessage.AttemptIgnored` | AIApps/ChatServer/include/AIUtil/ChatMessage.h:20-42 | The retry counter does not influence what a body parses to |
| `ChatMessage.ParsesExactly` | AIApps/ChatServer/include/AIUtil/ChatMessage.h:20-42 | A text is taken as an exchange if and only if it is an object of version 1 whose members spell one: user 1 to 2^31-1, time up to 2^63-3, a 32-digit lower-case hexadecimal id, and texts within their lengths; other members are ignored |
| `ChatMessage.RetryStep` | AIApps/ChatServer/src/AIUtil/MQManager.cpp:185-203 | A Retry whose counter is in 0..4 goes to the work queue with the counter one higher, delay 2^attempt and the same message; any other body goes unchanged to the dead queue |
| `ChatMessage.RetryExact` | AIApps/ChatServer/src/AIUtil/MQManager.cpp:189-203 | By its text: a retried object whose counter is n from 0 to 4 (none counts 0, a truth value 0 or 1, a fraction its whole part) goes to the work queue with every other member kept, counter n+1 and a delay of 1, 2, 4, 8 or 16 seconds; any other number, another kind of counter, or a text that is no object goes to the dead queue as it is, at once |
| `ChatMessage.RejectExact` | AIApps/ChatServer/src/AIUtil/MQManager.cpp:189-190 | A rejected body goes to the dead queue as it is, at once, whatever it is |
| `ChatMessage.RetryChain` | AIApps/ChatServer/src/AIUtil/MQManager.cpp:185-203 | A chain of n retries stays in the work queue if and only if the first counter is between 0 and 5-n, so no chain exceeds five; every copy parses to the same exchange |
| `ChatMessage.ExecuteMysql` | AIApps/ChatServer/src/main.cpp:22-35 | Unparseable bodies leave the table alone and are rejected; database failures are retried, also when the rows had already been committed; success is acknowledged |
| `ChatMessage.ExecutedMeans` | AIApps/ChatServer/src/main.cpp:22-35 | Nothing is ever taken out of the table; Ack is answered if and only if the body parses and the database works, and then a row stands under each key; Reject exactly for what does not parse; nothing is added for the rejected or by a call that failed before its commit |
| `ChatMessage.RowsTell` | AIApps/ChatServer/include/AIUtil/ChatMessage.h:43-53 | The two rows of an exchange tell it completely: two exchanges with the same rows are the same |
| `ChatMessage.PersistAgain` | AIApps/ChatServer/include/AIUtil/ChatMessage.h:43-53 | Persisting an exchange again, after anything else was added, changes nothing |
| `ChatMessage.CopyPersistsAlike` | AIApps/ChatServer/include/AIUtil/ChatMessage.h:20-53 | Persisting a retried copy after the original leaves the table as it is |
| `ChatHistory.AIHelper.RestoreMessage` | AIApps/ChatServer/src/AIUtil/AIHelper.cpp:29-38 | Appends one message and its role |
| `ChatHistory.AIHelper.ValidateCanonicalHistory` | AIApps/ChatServer/src/AIUtil/AIHelper.cpp:40-49 | Accepts exactly the histories of equal lists, even length and alternating roles starting with the user |
| `ChatHistory.AIHelper.Commit` | AIApps/ChatServer/src/AIUtil/AIHelper.cpp:304-324 | Either changes nothing and publishes nothing, or appends question and answer at strictly later times and publishes the exchange |
| `ChatHistory.CommitMeans` | AIApps/ChatServer/src/AIUtil/AIHelper.cpp:304-324 | A commit gives the question the first time that is neither before the clock nor at or before any message of the conversation, appends question and answer at that time and one more, and publishes exactly that |
| `ChatHistory.RefusedExactly` | AIApps/ChatServer/src/AIUtil/AIHelper.cpp:304-324 | A commit is refused if and only if it is not admitted, the conversation is at the end of time, the text cannot be printed, or the exchange does not fit the schema |
| `ChatHistory.RunCommits` | AIApps/ChatServer/src/AIUtil/AIHelper.cpp:304-324 | Over any interleaving the next commit changes nothing at all, or extends its own conversation at its first possible time and logs exactly that |
| `ChatHistory.CanonicalMeans` | AIApps/ChatServer/src/AIUtil/AIHelper.cpp:40-49 | A history is canonical if and only if its roles are question and answer in turn, one for each message |
| `ChatHistory.RunBooks` | AIApps/ChatServer/src/AIUtil/AIHelper.cpp:304-324 | Over any interleaving of commits across users and sessions, each live history is canonical, strictly increasing in time, and equal to the rows of its logged exchanges |
| `ChatHistory.ChatServer.ReadDataFromMySQL` | AIApps/ChatServer/src/ChatServer.cpp:64-99 | The row loop builds both maps on the side and swaps them in only if every row is valid and the traversal completes |
| `ChatHistory.RestoreSelects` | AIApps/ChatServer/src/ChatServer.cpp:64-99 | The restore splits any valid result by conversation, keeps the order within each, and lists each session of a user exactly once |
| `ChatHistory.RestoreRejects` | AIApps/ChatServer/src/ChatServer.cpp:64-99 | A restore is rejected if and only if some row has a user outside 1 to 2^31-1 or a role that is neither |
| `ChatHistory.TableInsensitive` | AIApps/ChatServer/include/AIUtil/ChatMessage.h:43-53 | Two deliveries of the same exchanges, in any order and with any duplicates, leave tables with the same rows |
| `ChatHistory.RestoreIsIdentity` | AIApps/ChatServer/src/ChatServer.cpp:64-99 | After any interleaving of commits with distinct message ids, each delivered at least once in any order with any duplicates, every result the query may return restores exactly the live histories: content, times, roles and session lists, all canonical |
| `EndToEnd.NothingLost` | AIApps/ChatServer/src/AIUtil/AIHelper.cpp:304-324 | From commit to table: in every run of client, broker and consumer, while the client stays alive, an admitted exchange is still in the client's publication sequence, or in some queue of the broker in whatever retry copy, or in the table: rows under both its keys, and where ids are distinct exactly its own two rows |
| `EndToEnd.AcceptedKept` | AIApps/ChatServer/src/main.cpp:22-35 | Every exchange the broker ever accepted is still in one of its queues or in the table, whatever connections, publishes and database calls fail; where ids are distinct the rows in the table are its own, with user, session, role, text and time |
| `EndToEnd.PersistedAlways` | AIApps/ChatServer/src/main.cpp:22-35 | In every run each message whose handler answered Ack parses to an exchange that has a row under both its keys |
| `EndToEnd.AckedHeld` | AIApps/ChatServer/src/main.cpp:22-35 | Where ids are distinct, a message whose handler answered Ack has its own two rows in the table, from then on |
| `EndToEnd.RowsInAlways` | AIApps/ChatServer/include/AIUtil/ChatMessage.h:43-53 | In every run no keyed row is in the table but the rows it started with and the rows of exchanges the broker accepted |
| `EndToEnd.CopyParses` | AIApps/ChatServer/src/AIUtil/MQManager.cpp:185-203 | Every retried or quarantined copy of a delivery is the same exchange |
| `Restart.SourcedAlways` | AIApps/ChatServer/src/AIUtil/MQManager.cpp:185-266 | In every run each text in the publication sequence, on a wire or in a queue that parses at all is an exchange that was published, whatever was retried, quarantined, resent or redelivered |
| `Restart.TableBuilt` | AIApps/ChatServer/src/main.cpp:22-35 | In every run the table is what some sequence of deliveries of published exchanges makes of an empty one |
| `Restart.DrainedRestores` | AIApps/ChatServer/src/ChatServer.cpp:64-99 | From commits to the next process: after any interleaving of commits with distinct ids and any run in which these exchanges are what is published, once no exchange waits in the client or in a queue, every result of the history query restores exactly the live histories, whatever failed, was resent, retried or redelivered on the way |
| `EndToEnd.LineHolds` | AIApps/ChatServer/src/AIUtil/MQManager.cpp:219-266 | In every run of a live client each admitted publication is still in its sequence or was accepted by the broker with its queue and body |
| `HttpRequest.SetQueryParameters` | HttpServer/src/http/HttpRequest.cpp:79-115 | The splitting loop computes the recursive reading of the query string |
| `HttpRequest.ProcessRequestLine` | HttpServer/src/http/HttpContext.cpp:119-162 | Three words, a known method and version 1.0 or 1.1, the target split at the first question mark |
| `HttpRequest.AddHeaderField` | HttpServer/src/http/HttpRequest.cpp:118-155 | Token check and lower-casing, trimming, control-character check, the content-length conflict and the joining of connection fields |
| `HttpRequest.LowerName` | HttpServer/src/http/HttpRequest.cpp:120-131 | Accepts exactly non-empty token names and lowers them |
| `HttpRequest.TrimValue` | HttpServer/src/http/HttpRequest.cpp:132-135 | Removes exactly the blanks at both ends |
| `HttpRequest.ContentLengthExact` | HttpServer/src/http/HttpContext.cpp:59-72 | Content-Length is accepted exactly when it is non-empty, all digits and of decimal value at most 10485760 |
| `HttpText.ParseBounded` | HttpServer/src/http/HttpContext.cpp:61-70 | The overflow-free accumulation loop accepts exactly digit strings of value within the bound and returns that value |
| `HttpText.AccumulateExact` | HttpServer/src/http/HttpContext.cpp:61-70 | The early exit of the loop loses nothing: it fails exactly on a non-digit or a value past the bound |
| `HttpContext.HttpContext.TakeOne` | HttpServer/src/http/HttpContext.cpp:17-113 | One iteration of the parser loop is the move `Advance`, and consumes exactly the bytes it says |
| `HttpContext.HttpContext.TakeHeader` | HttpServer/src/http/HttpContext.cpp:44-92 | The header branch: a field, the blank line with its length decision, or a malformed line |
| `HttpContext.HttpContext.ParseRequest` | HttpServer/src/http/HttpContext.cpp:10-116 | The resumable loop ends, consumes exactly the bytes `Parse` says, and is never entered with a finished request |
| `HttpContext.HttpContext.Reset` | HttpServer/include/http/HttpContext.h:31-36 | Forgets the request and keeps the stop flag |
| `HttpServer.HasConnectionToken` | HttpServer/src/http/HttpServer.cpp:188-209 | The scanning loop finds a token exactly if it is one of the comma-separated elements, blanks and case aside |
| `HttpServer.Connection.Serve` | HttpServer/src/http/HttpServer.cpp:143-164 | One round is `Turn`: parse, reject with one 400, wait, or dispatch and decide to go on or stop; when it stops is the subject of `HttpClosing` |
| `HttpServer.Connection.OnMessage` | HttpServer/src/http/HttpServer.cpp:100-180 | A whole read callback is `Feed`: round after round while requests are complete, and input is dropped once stopped |
| `HttpSplit.ParseSplit` | HttpServer/src/http/HttpContext.cpp:10-116 | More input neither changes a finished or failed parse nor the place where an unfinished one resumes |
| `HttpSplit.FeedTwo` | HttpServer/src/http/HttpServer.cpp:100-180 | Two reads do what one read of both chunks does |
| `HttpSplit.ChunkIndependence` | HttpServer/src/http/HttpServer.cpp:100-180 | Any two ways of cutting the same bytes into reads dispatch the same requests in the same order and end in the same state: waiting, stopped, or stopped after a 400 |
| `HttpDispatch.DispatchedWhole` | HttpServer/src/http/HttpContext.cpp:50-104 | On every byte stream a dispatched request has a known method and version, no Transfer-Encoding, and a body exactly as long as its bounded Content-Length; at most one error response is given, when the connection stops |
| `HttpDispatch.StopIsFinal` | HttpServer/include/http/HttpContext.h:38-40 | A stopped connection dispatches and answers nothing more, whatever arrives |
| `HttpWire.QueryParsed` | HttpServer/src/http/HttpRequest.cpp:79-115 | The text of a list of pairs parses to the map they denote, later pairs winning |
| `HttpWire.FieldParsed` | HttpServer/src/http/HttpRequest.cpp:118-155 | The text of a valid field is taken as that field, wherever it stands |
| `HttpWire.TextParsed` | HttpServer/src/http/HttpContext.cpp:10-116 | Parsing the canonical text of a valid request followed by anything takes exactly that text and returns the request it denotes |
| `HttpWire.Unambiguous` | HttpServer/src/http/HttpContext.cpp:10-116 | One byte stream cannot begin with the texts of two requests of different meaning or length |
| `HttpWire.Pipelined` | HttpServer/src/http/HttpServer.cpp:138-164 | The texts of any list of valid requests that keep the connection open, followed by any suffix, are dispatched one by one in order, leaving the suffix |
| `HttpWire.LastRequest` | HttpServer/src/http/HttpServer.cpp:157-163 | A request that ends the connection is the last one dispatched, whatever was sent after it |
| `HttpClosing.EndsConnection` | HttpServer/src/http/HttpServer.cpp:187-250 | A request is the last one dispatched, whatever was sent after it, if its connection fields list "close" in any case, or it is of HTTP/1.0 and they do not list "keep-alive", or the handler closes or takes over the connection |
| `HttpClosing.StaysOpen` | HttpServer/src/http/HttpServer.cpp:187-250 | Any number of requests of which none of this holds are dispatched one by one in order, and leave the connection open for what follows |
| `HttpClosing.RaisesEnds` | HttpServer/src/http/HttpServer.cpp:219-226 | A handler's exception ends the connection with one error response, the request having been dispatched |
| `HttpClosing.TokenListed` | HttpServer/src/http/HttpServer.cpp:188-209 | A word is found if and only if an element of the comma-separated list is that word in any case with blanks around it or not |
| `HttpRefusal.StartExact` | HttpServer/src/http/HttpContext.cpp:119-162 | A request line is accepted if and only if it is one of the five methods, a target without blanks and version 1.0 or 1.1, one blank between them; path and query are what stands before and after the first question mark |
| `HttpRefusal.FieldExact` | HttpServer/src/http/HttpRequest.cpp:118-155 | A field line is accepted if and only if its name is made of visible characters other than delimiters, its value has no control character but tabs, and it is not a second, different length |
| `HttpRefusal.TokenExact` | HttpServer/src/http/HttpRequest.cpp:122-131 | Token characters are the visible ones other than the delimiters of RFC 9110 |
| `HttpRefusal.BlockDecides` | HttpServer/src/http/HttpContext.cpp:50-91 | After a good request line and good fields the blank line is refused if and only if the block says two different lengths, announces a transfer coding, says a length that is no decimal number up to 10485760, or says none for POST or PUT; then one error response is given and nothing dispatched |
| `HttpRefusal.TwoLengths` | HttpServer/src/http/HttpRequest.cpp:138-142 | Two different lengths anywhere in one block give one error response and no dispatch |
| `HttpRefusal.StartRefused` | HttpServer/src/http/HttpServer.cpp:143-150 | A first line that is no request line gives one error response and no dispatch |
| `HttpRefusal.LineRefused` | HttpServer/src/http/HttpServer.cpp:143-150 | So does, after good fields, a line without a colon, with a bad name or with a control character |
| `HttpRefusal.PieceDropped` | HttpServer/src/http/HttpRequest.cpp:86-113 | A piece of a query without an equals sign says nothing |
| `Sse.StreamState.OnWrite` | AIApps/ChatServer/src/AIUtil/AIHelper.cpp:244-279 | The write callback's loop over complete lines is `Write`, and reports failure exactly when an error is recorded |
| `Sse.StreamState.TakeEvent` | AIApps/ChatServer/src/AIUtil/AIHelper.cpp:256-271 | One event: completion mark, empty event, parse failure, reported error, token, provider completion |
| `Sse.ConsumeSplit` | AIApps/ChatServer/src/AIUtil/AIHelper.cpp:248-272 | Later bytes are read where earlier ones left off, and not at all after an error |
| `Sse.ChunkIndependence` | AIApps/ChatServer/src/AIUtil/AIHelper.cpp:244-279 | Any cuts between network writes give the same tokens, completion flag and error |
| `Sse.EventsTaken` | AIApps/ChatServer/src/AIUtil/AIHelper.cpp:250-271 | The text of any events, with LF or CRLF line ends, is read back as those events in order up to the first that fails |
| `Sse.StreamMeans` | AIApps/ChatServer/src/AIUtil/AIHelper.cpp:250-271 | With callbacks that do not throw, events are read without error if and only if each is empty, the end mark, or data that parses and reports no error; the stream has then completed if and only if one of them completes it, and its tokens are those up to that event |
| `Sse.OtherLines` | AIApps/ChatServer/src/AIUtil/AIHelper.cpp:251-255 | A line that does not begin with the data field says nothing, and a data line may do without the blank |
| `ChatStream.Report` | AIApps/ChatServer/src/AIUtil/AIHelper.cpp:285-294 | Completion is reported exactly if no error, no transport failure, a 2xx status and a completed stream |
| `ChatStream.Stream` | AIApps/ChatServer/src/AIUtil/AIHelper.cpp:90-132 | The procedure, over the local model, a remote stream or a tool-using model, gives exactly the outcome `ChatStream` |
| `ChatStream.RunTransfer` | AIApps/ChatServer/src/AIUtil/AIHelper.cpp:281-284 | The transfer hands over the chunks until one aborts it |
| `ChatStream.ExactlyOneReport` | AIApps/ChatServer/src/AIUtil/AIHelper.cpp:121-131 | Exactly one of completion and error is reported, and last, if and only if not both hold: the completion callback throws, and the history is canonical, the source delivers its whole answer to a token callback that does not throw, and the exchange with that answer is accepted |
| `ChatStream.SaysDoneExactly` | AIApps/ChatServer/src/AIUtil/AIHelper.cpp:90-131 | Completion is reported if and only if the history is canonical, the answer arrives whole (for a remote stream: no stream error, a clean transfer, a 2xx status and the completion mark), no token callback throws, and the exchange is accepted |
| `ChatStream.DeliveredUntil` | AIApps/ChatServer/src/AIUtil/AIHelper.cpp:107-110 | Where the token callback throws, the tokens shown are those up to the first it refuses, that one included |
| `ChatExamples.DoneThenFailed` | AIApps/ChatServer/src/AIUtil/AIHelper.cpp:121-131 | A concrete run: one token of the local model and a completion callback that throws report the token, completion and then an error |
| `ChatStream.HistoryFollowsReport` | AIApps/ChatServer/src/AIUtil/AIHelper.cpp:90-132 | With callbacks that do not throw, the history changes exactly on runs that report completion, by the question and the very text shown |
| `ChatStream.SilentCommit` | AIApps/ChatServer/src/AIUtil/AIHelper.cpp:97-103 | A committed exchange goes unreported if and only if a tool-using model's single token callback throws |
| `ChatExamples.CommittedUnseen` | AIApps/ChatServer/src/AIUtil/AIHelper.cpp:97-103 | A concrete run: a tool-using model whose token callback throws commits and publishes the exchange and reports only an error |
| `ChatStream.SameOutcome` | AIApps/ChatServer/src/AIUtil/AIHelper.cpp:115-120 | Chunking changes neither the history nor what the caller is told |
| `GemmaPool.ValidBudget` | AIApps/ChatServer/src/AIUtil/GemmaInferencePool.cpp:30-35 | True exactly if the prompt is not empty and start + prompt + generated fit the capacity, with no subtraction below zero and no sum that could wrap |
| `GemmaPool.CallSound` | AIApps/ChatServer/src/AIUtil/GemmaInferencePool.cpp:104-208 | Every call, successful or not, keeps the caches within the bound, filled to their position, with distinct orders of use |
| `GemmaAnswers.AnswerHeard` | AIApps/ChatServer/src/AIUtil/GemmaInferencePool.cpp:178-187 | The answer is the text of the generated tokens one after the other, without those that end the sequence or have no text |
| `GemmaAnswers.AnsweredExactly` | AIApps/ChatServer/src/AIUtil/GemmaInferencePool.cpp:104-181 | A call is answered if and only if it is well-formed, its prompt can be encoded and fits its cache with everything it may generate, and the engine does not fail; the model then has read the cached conversation and the new turn, or all turns anew, and nothing else |
| `GemmaAnswers.RefusedExactly` | AIApps/ChatServer/src/AIUtil/GemmaInferencePool.cpp:104-116 | A call that is not well-formed names the first thing wrong and touches nothing |
| `GemmaAnswers.FollowUp` | AIApps/ChatServer/src/AIUtil/GemmaInferencePool.cpp:117-126 | The next question of an answered conversation, asked before its cache expires, makes the model read the new turn only, after everything it has read and said |
| `GemmaAnswers.OthersKept` | AIApps/ChatServer/src/AIUtil/GemmaInferencePool.cpp:94-166 | A well-formed call drops every cache idle for the limit, changes no other one, and drops no live one while there is room |
| `GemmaAnswers.FailureForgets` | AIApps/ChatServer/src/AIUtil/GemmaInferencePool.cpp:168-208 | A call whose engine or token callback fails leaves no cache under its key; any other call that is not answered leaves the key's cache as it was, or none |
| `GemmaAnswers.Dropped` | AIApps/ChatServer/src/AIUtil/GemmaInferencePool.cpp:82-93 | Clearing a conversation drops its cache and no other; stopping drops all of them and the model |
| `GemmaAnswers.LoadedExactly` | AIApps/ChatServer/src/AIUtil/GemmaInferencePool.cpp:48-76 | A pool is loaded if and only if the model can be built and the policy keeps a cache for some time, of 32 to 8192 tokens in steps of 32 |
| `GemmaAnswers.ReplayExact` | AIApps/ChatServer/src/AIUtil/GemmaInferencePool.cpp:128-149 | A replay succeeds if and only if every turn can be encoded and all together fit the limit, and is then all turns in their places |
| `GemmaTransparency.PeakBounded` | AIApps/ChatServer/src/AIUtil/GemmaInferencePool.cpp:154-173 | In every reachable state there are at most `max_sessions` caches, and a call that allocates one does so on the pool expiry and eviction left, where the key has none and the new one still fits |
| `GemmaPool.AllocationPoint` | AIApps/ChatServer/src/AIUtil/GemmaInferencePool.cpp:104-173 | A call allocates on exactly the pool left by expiry and eviction, whose caches are live ones kept from before |
| `GemmaTransparency.Transparent` | AIApps/ChatServer/src/AIUtil/GemmaInferencePool.cpp:104-208 | After any run of calls, failures, evictions, expiry, clearing and restarts, an answered history call, hit or miss, made the model read exactly the supplied history, recorded it with the answer, and no position exceeds its cache's capacity |
| `GemmaTransparency.AlwaysFaithful` | AIApps/ChatServer/src/AIUtil/GemmaInferencePool.cpp:187-202 | A non-empty transcript always is the conversation the cache holds, token by token |
| `GemmaTransparency.ReplayReads` | AIApps/ChatServer/src/AIUtil/GemmaInferencePool.cpp:146-149 | A full replay's tokens read as exactly the supplied turns |
| `GemmaTransparency.HitReads` | AIApps/ChatServer/src/AIUtil/GemmaInferencePool.cpp:120-126 | On a hit the cached tokens and the new turn read as exactly the supplied history |
| `GemmaLru.LruExact` | AIApps/ChatServer/src/AIUtil/GemmaInferencePool.cpp:154-173 | Over answered runs without expiry a key is cached exactly when it was used and fewer than `max_sessions` other keys were used since |
| `GemmaLru.CallTracks` | AIApps/ChatServer/src/AIUtil/GemmaInferencePool.cpp:160-166 | Each answered call moves its key to the front of the recency list and drops only what falls off its end |
| `GemmaInferencePool.InferencePool.Generate` | AIApps/ChatServer/src/AIUtil/GemmaInferencePool.cpp:104-208 | The whole call, under its checks, is `Call` and keeps the pool sound |
| `GemmaInferencePool.InferencePool.PruneExpired` | AIApps/ChatServer/src/AIUtil/GemmaInferencePool.cpp:94-102 | The erasing loop keeps exactly the caches idle for less than the limit |
| `GemmaInferencePool.InferencePool.MinElement` | AIApps/ChatServer/src/AIUtil/GemmaInferencePool.cpp:161-164 | The scan finds a key with the least order of use |
| `GemmaInferencePool.InferencePool.Evict` | AIApps/ChatServer/src/AIUtil/GemmaInferencePool.cpp:159-166 | The eviction loop, after dropping the key's own cache, leaves what `MakeRoom` leaves |
| `GemmaInferencePool.InferencePool.Reusable` | AIApps/ChatServer/src/AIUtil/GemmaInferencePool.cpp:118-126 | The turn-by-turn comparison decides reuse |
| `GemmaInferencePool.InferencePool.ReplayTurns` | AIApps/ChatServer/src/AIUtil/GemmaInferencePool.cpp:128-149 | The tokenising loop with its budget check |
| `GemmaInferencePool.InferencePool.Init` | AIApps/ChatServer/src/AIUtil/GemmaInferencePool.cpp:48-76 | A loaded pool is left alone; an invalid policy or failed construction changes nothing |
| `GemmaInferencePool.InferencePool.Stop` | AIApps/ChatServer/src/AIUtil/GemmaInferencePool.cpp:82-89 | Drops every cache and the model |
| `GemmaInferencePool.InferencePool.ClearSession` | AIApps/ChatServer/src/AIUtil/GemmaInferencePool.cpp:90-93 | Drops one cache |
| `Recency.TopKeys` | AIApps/ChatServer/src/AIUtil/GemmaInferencePool.cpp:160-166 | Among the first m of the move-to-front list are exactly the keys with fewer than m keys used since their last use |
| `SessionStore.StepRefines` | HttpServer/src/session/SessionStorage.cpp:20-109 | Each call answers as a map that drops entries the instant they expire; the live sessions afterwards agree if and only if the call is not a refresh from outside of an expired, unswept entry |
| `SessionStore.RunRefines` | HttpServer/src/session/SessionStorage.cpp:20-109 | Over every run with monotone time and no such refresh, lazy and eager expiry give the same answers, the same live sessions, and a size within capacity |
| `SessionStore.RevivedEntry` | HttpServer/src/session/Session.cpp:27-31 | The concrete case: a session expired and unswept, refreshed by its holder, is found again in the lazy map only |
| `SessionStore.AdmitRefines` | HttpServer/src/session/SessionStorage.cpp:20-37 | Admission answers and changes the live sessions as the eager map does, also for an object that is already expired |
| `SessionStore.AdmitKeepsLive` | HttpServer/src/session/SessionStorage.cpp:20-37 | Admission never drops a live session |
| `SessionStore.Bounded` | HttpServer/src/session/SessionStorage.cpp:20-109 | No call exceeds the capacity |
| `SessionStore.StaysOut` | HttpServer/src/session/SessionStorage.cpp:96-109 | A removed or replaced object is never returned by a load, nor re-admitted by an update, until it is admitted again |
| `SessionStore.DefaultRefreshExact` | HttpServer/include/session/SessionStorage.h:31-45 | The default refresh put together from single calls is the atomic one exactly when the session does not expire between its two looks at the clock |
| `SessionStore.DefaultUpdateExact` | HttpServer/include/session/SessionStorage.h:48-60 | The default update is the atomic one exactly when it does not put a live object over another live object of the same name |
| `SessionStore.OldObjectReturns` | HttpServer/include/session/SessionStorage.h:48-60 | The concrete case: a session removed and logged in anew under the same id is replaced by a late default update of the old object, where the atomic update refuses |
| `SessionLife.RefreshLasts` | HttpServer/src/session/Session.cpp:27-31 | A session of age a refreshed at a time, by a load or by its holder, is found at every later time before a thousand million times a ticks have passed, and at none from then on |
| `SessionLife.ExpiryStands` | HttpServer/src/session/SessionStorage.cpp:40-53 | Loads without refresh, refreshes and updates of another object, and sweeps leave its time as it is |
| `SessionLife.AdmittedLasts` | HttpServer/src/session/SessionStorage.cpp:20-37 | A session that is let in is found until its time |
| `SessionLife.AdmittedExactly` | HttpServer/src/session/SessionStorage.cpp:20-37 | A session is let in if and only if it is stored already, or its name is not in use and fewer names than the capacity are |
| `SessionLife.UpdatedExactly` | HttpServer/src/session/SessionStorage.cpp:96-109 | An update succeeds if and only if it is of the stored object while it lives, and writes nothing |
| `SessionLife.TakenAway` | HttpServer/src/session/SessionStorage.cpp:73-94 | A sweep and a removal take away exactly what they name |
| `SessionStorage.MemorySessionStorage.Admit` | HttpServer/src/session/SessionStorage.cpp:20-37 | The in-place admission, with its sweep of a full map |
| `SessionStorage.MemorySessionStorage.Save` | HttpServer/src/session/SessionStorage.cpp:15-18 | Admission that throws instead of answering |
| `SessionStorage.MemorySessionStorage.Load` | HttpServer/src/session/SessionStorage.cpp:40-53 | Finds only live sessions and drops the expired entry it met |
| `SessionStorage.MemorySessionStorage.LoadAndRefresh` | HttpServer/src/session/SessionStorage.cpp:55-70 | As load, with the found session's expiry moved |
| `SessionStorage.MemorySessionStorage.Drop` | HttpServer/src/session/SessionStorage.cpp:73-77 | Removes one entry |
| `SessionStorage.MemorySessionStorage.CleanExpired` | HttpServer/src/session/SessionStorage.cpp:79-94 | The erasing loop keeps exactly the live entries |
| `SessionStorage.MemorySessionStorage.UpdateExisting` | HttpServer/src/session/SessionStorage.cpp:96-109 | True only for the very object stored, while live; never adds |
| `SessionStorage.Session.SetValue` | HttpServer/src/session/Session.cpp:34-45 | Writes the value, then updates the bound storage, which is left as `UpdateExisting` leaves it |
| `SessionStorage.Session.SetManager` | HttpServer/src/session/Session.cpp:47-53 | Rebinds the storage later writes report to |
| `SessionStorage.Session.Refresh` | HttpServer/src/session/Session.cpp:27-31 | Moves the expiry to now plus the lifetime |
| `SessionStorage.Session.IsExpired` | HttpServer/src/session/Session.cpp:20-24 | Expired from the expiry instant on |
| `DbPool.SlotsConserved` | HttpServer/src/utils/db/DbConnectionPool.cpp:6-81 | In every interleaving of checkouts, failures, returns and shutdown: allocated = idle + leases + checkouts in progress, at most the target, no connection in two places or lent twice, and none allocated once stopped with everything returned |
| `DbPool.WaitsIffExhausted` | HttpServer/src/utils/db/DbConnectionPool.cpp:42-44 | A borrower of a running pool waits exactly while all connections of the target are out |
| `DbPool.FailureFreesSlot` | HttpServer/src/utils/db/DbConnectionPool.cpp:64-69 | A failed checkout makes its slot available at once |
| `DbPool.CountedKept` | HttpServer/src/utils/db/DbConnectionPool.cpp:6-81 | Every step conserves the slots |
| `DbPool.ExclusiveKept` | HttpServer/src/utils/db/DbConnectionPool.cpp:6-81 | Every step keeps each connection in one place |
| `DbLeases.HandedExactly` | HttpServer/src/utils/db/DbConnectionPool.cpp:51-63 | A connection is handed out if and only if there is one to begin with and one of the three checks succeeds, and it is the one whose ping, the last one made, succeeded |
| `DbLeases.FinishExactly` | HttpServer/src/utils/db/DbConnectionPool.cpp:51-70 | A checkout that ends lends exactly one connection, its own or a new one, or frees its slot and lends nothing |
| `DbLeases.StartExactly` | HttpServer/src/utils/db/DbConnectionPool.cpp:18-32 | The pool starts once, with exactly the connections asked for, all idle and new; a failed start changes nothing |
| `DbLeases.OldestFirst` | HttpServer/src/utils/db/DbConnectionPool.cpp:46-48 | Connections are lent in the order in which they came back |
| `DbLeases.StoppedForGood` | HttpServer/src/utils/db/DbConnectionPool.cpp:42-45 | Once stopped, a pool lends nothing more, keeps nothing idle and gives up what comes back |
| `DbConnectionPool.ConnectionPool.Initialize` | HttpServer/src/utils/db/DbConnectionPool.cpp:18-32 | The creation loop publishes all connections or none |
| `DbConnectionPool.ConnectionPool.Take` | HttpServer/src/utils/db/DbConnectionPool.cpp:46-50 | Takes the oldest idle connection or reserves a slot |
| `DbConnectionPool.ConnectionPool.Check` | HttpServer/src/utils/db/DbConnectionPool.cpp:52-63 | Creation, ping, reconnect and replacement outside the lock |
| `DbConnectionPool.ConnectionPool.GetConnection` | HttpServer/src/utils/db/DbConnectionPool.cpp:36-69 | A whole checkout: the connection handed out, or the slot given back |
| `DbConnectionPool.ConnectionPool.ReturnLease` | HttpServer/src/utils/db/DbConnectionPool.cpp:72-80 | A lease goes back to the idle queue, or frees its slot after shutdown |
| `DbConnectionPool.ConnectionPool.Shutdown` | HttpServer/src/utils/db/DbConnectionPool.cpp:6-17 | Retires the idle connections and their slots |
| `Base64.CharValue` | AIApps/ChatServer/src/AIUtil/base64.cpp:55-71 | Each letter of either alphabet has its own value, is no padding and no line break |
| `Base64.EncodeBytes` | AIApps/ChatServer/src/AIUtil/base64.cpp:111-160 | The encoding loop, with its 32-bit counter, computes `Encode` for inputs below 4 GiB |
| `Base64.EncoderEnds` | AIApps/ChatServer/src/AIUtil/base64.cpp:131-157 | The encoder's loop ends if and only if the input is below 4 GiB |
| `Base64.DecodeChars` | AIApps/ChatServer/src/AIUtil/base64.cpp:163-241 | The decoding loop computes `Decode`, with its two kinds of failure |
| `Base64.RoundTrip` | AIApps/ChatServer/src/AIUtil/base64.cpp:111-241 | Decoding an encoded text returns the bytes, in both alphabets |
| `Base64.ConcatRoundTrip` | AIApps/ChatServer/src/AIUtil/base64.cpp:163-241 | Two encoded texts put together, in either alphabet each, decode to the bytes put together |
| `Base64.DecodeConcat` | AIApps/ChatServer/src/AIUtil/base64.cpp:193-238 | Decoding a whole number of chunks followed by anything is decoding each and joining |
| `Base64.EncodeLength` | AIApps/ChatServer/src/AIUtil/base64.cpp:113-113 | The encoded text has 4*ceil(n/3) characters |
| `Base64.GroupBits` | AIApps/ChatServer/src/AIUtil/base64.cpp:131-157 | Each group is encoded as its bytes, one number of 24 bits, six bits a character from the highest, with padding where there is no input |
| `Base64.CharTable` | AIApps/ChatServer/src/AIUtil/base64.cpp:44-53 | The characters are those of RFC 4648, Table 1 and Table 2, and the padding is = or . |
| `Base64.LetterTable` | AIApps/ChatServer/src/AIUtil/base64.cpp:55-71 | The decoder's characters are those of the two tables, and its padding is either one |
| `Base64.AcceptsExactly` | AIApps/ChatServer/src/AIUtil/base64.cpp:193-238 | The decoder accepts exactly the texts whose length is not 1 modulo 4 and whose characters are letters, or padding at the third or fourth place of a chunk, or anything after padding at the third; it runs out of range only for length 1 modulo 4 |
| `Base64.RunsOutExactly` | AIApps/ChatServer/src/AIUtil/base64.cpp:193-238 | The decoder runs out of range if and only if one character is left over after acceptable ones |
| `Base64.DecodedBits` | AIApps/ChatServer/src/AIUtil/base64.cpp:193-238 | A group decodes to the whole bytes of the number its significant characters spell, six bits each, one byte less than there are such characters, whatever bits are left over |
| `Base64.ValueTable` | AIApps/ChatServer/src/AIUtil/base64.cpp:55-71 | The value of a character is its place in one of the two tables |
| `Base64.InsertLinebreaks` | AIApps/ChatServer/src/AIUtil/base64.cpp:73-89 | The inserting loop breaks the text every `distance` characters |
| `Base64.BreakPositions` | AIApps/ChatServer/src/AIUtil/base64.cpp:73-89 | The breaks stand at every (d+1)-th position and nowhere else |
| `Base64.BrokenRoundTrip` | AIApps/ChatServer/src/AIUtil/base64.cpp:92-104 | PEM and MIME text decodes, with line breaks removed, to what was encoded |
| `ImagePng.Setting` | AIApps/ChatServer/include/AIUtil/ImageResource.h:26-38 | A configured number is accepted exactly if non-empty, all digits, not zero and within 64 bits |
| `ImagePng.CheckShapeExact` | AIApps/ChatServer/include/AIUtil/ImageResource.h:71-78 | Dimensions pass exactly if both are in 1..INT_MAX, w*h is within the pixel budget and 3*w*h within the byte budget |
| `ImagePng.WalkChunks` | AIApps/ChatServer/include/AIUtil/ImageResource.h:104-118 | The chunk loop ends with every read in bounds and decides as `Walk` |
| `ImagePng.PreflightPng` | AIApps/ChatServer/include/AIUtil/ImageResource.h:94-119 | The header checks in their order, then the walk |
| `ImagePng.PngDecides` | AIApps/ChatServer/include/AIUtil/ImageResource.h:90-119 | A PNG passes if and only if it is the signature, a valid header within the budget, and chunks with an IDAT, no second IHDR and an empty IEND as the last and only IEND |
| `ImageFields.PngFields` | AIApps/ChatServer/include/AIUtil/ImageResource.h:94-103 | An accepted PNG begins with the signature and a header of thirteen bytes whose big-endian numbers are the accepted dimensions, of a depth and colour type of the standard's table, and within the policy |
| `ImageFields.SupportedExact` | AIApps/ChatServer/include/AIUtil/ImageResource.h:98-102 | The allowed depths of each colour type and the allowed methods, as a table |
| `ImagePng.HeaderTamperDetected` | AIApps/ChatServer/include/AIUtil/ImageResource.h:95-96 | No change confined to four neighbouring bytes of an accepted header's 17 checked bytes passes with its checksum unchanged |
| `ImageJpeg.WalkMarkers` | AIApps/ChatServer/include/AIUtil/ImageResource.h:120-154 | The marker loop ends with every read in bounds and decides as `Markers` |
| `ImageJpeg.ScanEnd` | AIApps/ChatServer/include/AIUtil/ImageResource.h:143-150 | The inner loop skips entropy-coded data up to the next marker proper |
| `ImageJpeg.Preflight` | AIApps/ChatServer/include/AIUtil/ImageResource.h:90-156 | Size, signature and the walk of the format shown |
| `ImageJpegGrammar.JpegDecides` | AIApps/ChatServer/include/AIUtil/ImageResource.h:120-154 | A JPEG passes with a shape if and only if it is the start of image, formed segments with exactly one supported frame of that shape within the budget, no scan before it, some scan after it, and the end of image |
| `ImageFields.JpegFields` | AIApps/ChatServer/include/AIUtil/ImageResource.h:132-142 | An accepted JPEG has one frame segment of a supported kind, whose bytes 5 to 7 and 3 to 5 are width and height, and a scan segment after it, both of the length their components need |
| `ImageFields.FrameExact` | AIApps/ChatServer/include/AIUtil/ImageResource.h:132-136 | Supported frames are baseline, extended and progressive, of eight bits and one, three or four components, and their dimensions stand height first |
| `ImageFields.PreflightDecides` | AIApps/ChatServer/include/AIUtil/ImageResource.h:90-156 | The preflight accepts a file with a shape if and only if it is not empty, within the encoded limit, and a PNG or JPEG of the grammars with that shape |
| `ImageFields.StatusExact` | AIApps/ChatServer/include/AIUtil/ImageResource.h:67-78 | Status 413 is for what is larger than the policy allows, status 400 for everything else refused |
| `ImageJpegGrammar.PreflightSound` | AIApps/ChatServer/include/AIUtil/ImageResource.h:90-156 | What passes is not empty, within the encoded limit and the dimension budgets, and marked JPEG exactly if it begins as one |
| `Crc32.ComputeCRC` | AIApps/ChatServer/include/AIUtil/ImageResource.h:82-89 | The two nested loops compute the CRC |
| `CrcDivision.CrcIsRemainder` | AIApps/ChatServer/include/AIUtil/ImageResource.h:82-89 | The CRC is that of section 5.5 of the PNG Specification: the complement of what is left when the message bits, lowest of each byte first, 32 zeros after them and the first 32 inverted, are divided by x^32+x^26+x^23+x^22+x^16+x^12+x^11+x^10+x^8+x^7+x^5+x^4+x^2+x+1 |
| `CrcDivision.EndChunk` | AIApps/ChatServer/include/AIUtil/ImageResource.h:82-89 | The CRC of the type IEND is 0xae426082 |
| `Crc32.UpdateInjective` | AIApps/ChatServer/include/AIUtil/ImageResource.h:85-86 | For each byte, different states lead to different states |
| `Crc32.UpdateSurjective` | AIApps/ChatServer/include/AIUtil/ImageResource.h:85-86 | For each byte, every state is reached |
| `Crc32.WindowDetected` | AIApps/ChatServer/include/AIUtil/ImageResource.h:82-89 | Two texts of equal length that differ, but only inside one window of four bytes, have different CRCs |

## Left out

- TLS, sockets, the event-loop and AMQP libraries, descriptor channels and deferred destruction of
  connection objects: only their callbacks appear, as steps.
- The two channels of a connection are one flag, and setting up queues is part of the step that makes
  the producer ready; the prefetch limit of one is not imposed, so more deliveries may be in progress
  than in the service.
- Generations, tags, publish numbers and the order counter of the cache pool are unbounded; their
  64-bit wrap-around is not modelled.
- `inflight_` is a sequence of entries in tag order instead of an ordered map.
- A handler object that outlives its shutdown is modelled as not alive; expiry of its weak references
  adds nothing observable.
- The conversion of a fractional or huge retry counter to `int` follows truncation and wrap-around; the
  C++ result for values out of range is undefined.
- The request is a value that the context replaces, where the C++ class changes its fields; what a
  request holds after a failed parse, its receive time and its connection handle are not modelled.
- A peer that disconnects in the middle of the read loop (HttpServer.cpp:138-164 then leaves the loop with
  requests unserved).
- A provider whose event parser throws something that is not a standard exception.
- Response formatting, routing, middleware and logging, and the streaming of a taken-over connection.
- A tool-using model's question takes the lock twice; the model runs it as one, so a commit of another
  thread between the two checks is not shown.
- Prompt building, tool calls and the request formats of the providers; which events carry tokens is a
  parameter.
- The helpers built during a restore are values in the staged maps, put in place by the swap.
- `Restart.DrainedRestores`: starts from an empty table; legacy rows without a message id and rows
  written by other programs take no part in it. They do in `EndToEnd.NothingLost`.
- `GemmaLru.LruExact`: covers runs in which every call is answered and nothing expires, as other calls
  drop caches for other reasons; the bound on their number holds in all runs.
- `GemmaInferencePool.InferencePool.Generate`: allocation sizes and engine failures are parameters;
  the temperature is only checked for validity.
- `SessionStorage.MemorySessionStorage.constructor`: a capacity of zero, which throws, is excluded.
- Null session pointers, which throw, cannot be passed.
- Session ids, cookies and the cleanup thread's timing.
- Fairness of condition variables and wall-clock liveness; a waiting borrower is a step that is not
  enabled.
- `Base64.EncodeBytes`: requires input below 4 GiB, beyond which the loop does not end.
- The concurrency permit of the image service, its default values and caching of the policy, and
  decoding proper.
- PBKDF2, random sources, image preprocessing in floating point, HTML and deployment scripts.
