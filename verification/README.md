# A verified model of the chat server and its HTTP transport

The repository is a chat: an HTTP client and server over a stream buffer, a server with worker threads over an
in-memory database, and connections that either alternate request and response or poll for new messages. This
project models these parts and proves what they promise. `dafny verify dfyconfig.toml` checks all of it.

## How it is modelled

**HTTP over a stream buffer** (`Text`, `Letters`, `Numbers`, `NumberTexts`, `Http`, `HeaderTexts`, `HttpClient`,
`HttpPrinters`, `HttpRoundTrip`, `Truncation`, `Malformed`). The network is an arbitrary list of segments that
ends in an error or end of file. `HttpClient` holds the buffer and the callbacks of `net/client.cpp` as classes
whose methods consume the buffer in place; `Http.Run` is the parser that sees all bytes at once. Between them
stands `Http.Stream`, the streaming parser as a function: every callback is proved to compute it, and it is
proved to compute what `Run` computes, however the bytes are cut. The three printers are then proved to be
inverted by the parser, message after message, and so is the chunked encoding of section 4.1 of RFC 7230. Number
texts are read with all the leniency of `strtoul` and `strtol`, said in `NumberTexts` with the alphabets of the
digits, and the addition `chunk_size + 2` wraps around as `size_t` does. `HeaderTexts` says which header a name
finds among the lines of a message; `Truncation` says what the handler is told when the stream ends anywhere
within a message, and `Malformed` what is refused.

**Storage, workers, connections** (`Tables`, `InMemory`, `Integrity`, `Worker`, `Commands`, `Ledger`,
`DatabaseWorker`, `Session`, `Routing`, `ApiClient`, `Server`, `InFlight`, `Moments`, `Runs`, `Promises`,
`Endings`, `Counts`, `History`, `Clocks`, `Queries`, `Batches`, `Interleaved`, `Idle`, `Poll`, `Delivery`,
`Losses`, `LockQueue`). `InMemory.Connection` has the loops of `inmemory_dbconn.cpp`, proved against functions
on the tables. `Worker.Step` is one locked section of a worker; `Server.Next` is one event of the whole server:
a callback of some connection, a worker taking a task, or one step of some worker. The theorems of `Runs`,
`Promises`, `Endings`, `Counts`, `Queries`, `Batches`, `Interleaved` and `Delivery` speak of every run, with any
number of connections and workers and any order of events. `Commands` says of the tables what each command does
and whom it admits, `Routing` which resource queues which command, and `Promises` what a client that has been
answered may rely on for the rest of a run. `DatabaseWorker.ProcessTask` is the loop body of `processQueue` as
it is written, proved to do what the steps do when nobody interferes; `ApiClient.Client` has the callbacks as
methods, proved against the functions of `Session` that `Server` uses. `History` compares the two limited
selections of `USER_HISTORY` with the plain question for the newest messages of a conversation, and `Queries`
finds that answer in every run. `Idle` is a polling client as a list of ticks; `Poll` proves that a tick of a
connection, an undisturbed worker and a completed write are one of them, and `Delivery` that a run of the
server, with everything else going on in between, is such a list, and what the client has then received.
`Interleaved` lets other workers in between the locked sections of a scan, and writes fail: still no message
comes twice. `Losses` has two runs of the server in which a message is lost.

**Connectors** (`SyncConnect`, `AsyncConnect`). Callback state machines over nondeterministic system answers;
`SyncConnect.Connect` picks callbacks in any order and is proved to end.

## What turned out different from what one might expect

- `CHAT_HISTORY` is routed (server/src/apiclient.cpp:565) but no branch of `processQueue` serves it: the task ends
  without a reply, nothing is pending for its connection any more, and no event of any later run reaches that
  connection (`Endings.ChatHistoryNeverAnswered`, and `Endings.ClientWaitsForEver` for a run that gets there).
- Chat names are unique exactly as long as no user is created under the name of a chat
  (`Counts.NamesUniqueExactly`), and a chat can be addressed by its name exactly as long as no other bears it
  (`Worker.AddressedExactly`).
- The history query meets its specification exactly when the count is at most 1, or the two users differ and the
  count is at most 2^31 (`History.LawfulExactly`): a query of oneself selects every message twice, and beyond 2^31
  the doubled count wraps around in 32 bits. Counts are 32-bit numbers.
- A poll returns at most three messages of a chat and then moves its cursor past the rest. `Idle.DeliveredExactly`
  says which messages reach the client. Of four messages in one chat between two polls the oldest never does
  (`Idle.FourthIsLost`), nor does one saved later but stamped in the same second as one already delivered
  (`Idle.LateStampIsLost`, `Idle.SameSecondIsLost`). The server gets there from its start, with two users and one
  worker (`Losses.FourthIsLost`, `Losses.SameSecondIsLost`).
- A message is stamped before the lock under which it is saved is taken (server/src/database_worker.cpp:276-277).
  With one worker and a clock that does not go back the log is in the order of its stamps
  (`Clocks.OneWorkerInOrder`); two workers can overtake each other (`Clocks.Overtaken`). Theorems that need the
  order say so.
- When the stream ends while a header block or a chunk size line is awaited, the handler is given an empty reply;
  in a body or a chunk it is given what there is.
- A message with both `Content-Length` and `Transfer-Encoding: chunked` is read by its length, where section 3.3.3
  of RFC 7230 prefers the chunks (`HttpRoundTrip.LengthBeforeChunks`). The model follows the code.
- A response that could not be written is nevertheless followed by the next read (server/src/apiclient.cpp:589-604).
- `split` ends exactly when the delimiter is not empty or the limit is at least two parts
  (`Text.SplitEndsExactly`), which is the precondition of `Text.Split`; a limit of zero, one or less means "no
  limit".
- Status codes that are not in the table of `http_code_to_string` are sent as 200 (`HttpPrinters.Message.Status`).

## Model

| member | source | states |
|---|---|---|
| Text.FindInPrefix | net/client.cpp:586-596 | a delimiter found in the bytes that have arrived stays the first one whatever arrives later |
| Text.Split | common/utils.cpp:101-130 | for every text, delimiter and limit for which the loop ends: the list of parts, with the limits below two meaning all |
| Text.SplitEndsExactly | common/utils.cpp:101-125 | the loop is left if and only if the delimiter is not empty or the limit is at least two |
| Text.Join | common/utils.cpp:132-143 | the parts with the connector between neighbours and nowhere else |
| Text.JoinInvertsSplit | common/utils.cpp:101-143 | joining what split made gives the text back, for every delimiter and every limit |
| Text.SplitRespectsLimit | common/utils.cpp:101-125 | never more parts than the limit |
| Text.PartsFree | common/utils.cpp:101-125 | no part holds the delimiter, except the last one when the limit ended the loop |
| Text.SplitInvertsJoin | common/utils.cpp:101-143 | splitting what join made gives the parts back when they share no character with the delimiter |
| Text.ToLower | common/utils.cpp:164-170 | every character lowered, in place, ASCII only |
| Quoting.Dequote | common/utils.cpp:216-250 | the searching loop computes the character-by-character meaning of quotes and backslashes, malformed quoting included |
| Quoting.DequotedInverts | common/utils.cpp:216-250 | quoting and escaping any text is undone, and so is escaping alone |
| Quoting.DequotedLeaves | common/utils.cpp:216-250 | a quote that is not closed stays, and so does a backslash that stands before neither a backslash nor a quote |
| Letters.SameExactly | common/utils.cpp:164-170 | lowered texts are equal if and only if the texts differ in the case of letters of the alphabet only |
| Numbers.StoulReadsToString | net/client.cpp:791-806 | a printed length below 2^64 is read back, and all of it is read |
| Numbers.StoiReadsToString | net/client.cpp:747-789 | a printed status code is read back |
| Numbers.ScanPlain | net/client.cpp:867-911 | a run of digits of the base is read whole as its positional value, which `NumberTexts.SpelledValue` ties to the digits |
| NumberTexts.SpelledValue | net/client.cpp:885-885 | digits of the alphabets, in either case, that spell a number are a run of digits with this value |
| NumberTexts.ValueSpelled | net/client.cpp:885-885 | and every run of digits spells its value in these alphabets |
| NumberTexts.StoulReadsHex | net/client.cpp:885-885 | a hexadecimal spelling of a number below 2^64, each letter in either case, is read back whole |
| NumberTexts.StoulReadsToHex | net/client.cpp:885-885 | a number below 2^64 written in hexadecimal, in small or in capital letters, is read back |
| NumberTexts.StoulReads | net/client.cpp:797-797 | white space, a sign and a hexadecimal mark may stand before the digits and anything behind them: the number, or what is missing to 2^64 behind a minus sign, and how many characters it took; an exception from 2^64 on |
| NumberTexts.StoulRefuses | net/client.cpp:797-805 | an exception where no digits stand |
| NumberTexts.StoiReads | net/client.cpp:769-769 | the same for a status code: the signed number if 32 bits hold it, otherwise an exception |
| NumberTexts.StoiRefuses | net/client.cpp:769-777 | an exception where no digits stand |
| NumberTexts.EveryText | net/client.cpp:797-797 | every text is of one of these two kinds |
| HeaderTexts.HeaderIs | net/client.cpp:520-539 | a header has the value of the last line that bears its name before the first colon, compared up to a NUL and without case: what stands behind the colon and the white space |
| HeaderTexts.HeaderMissing | net/client.cpp:940-950 | without such a line there is no header of this name, and its value is empty |
| Http.FireSeesPrefix | net/client.cpp:732-938 | a callback whose condition holds does the same and takes the same bytes whatever lies behind them |
| Http.AwaitKeepsBytes | net/client.cpp:360-387 | waiting moves bytes from the network to the buffer and loses or reorders none |
| Http.StreamRefinesRun | net/client.cpp:713-938 | a response request over any segments gives the outcome and leaves the bytes that the one-shot parser does on their concatenation |
| Http.StreamManyRefinesRunMany | net/client.cpp:713-938 | the same for any number of response requests in a row |
| Http.SegmentationIndependence | net/client.cpp:713-938 | two segmentations of the same bytes give the same outcomes in the same order and the same bytes left over |
| HttpClient.TcpClient.AsyncRead | net/client.cpp:360-387 | reads segments only while the condition does not hold, and reports whether it does |
| HttpClient.TcpClient.ReadUntil | net/client.cpp:197-222 | takes the bytes before the first delimiter and the delimiter; falls back to the socket only when the buffer holds none |
| HttpClient.TcpClient.Read | net/client.cpp:268-288 | takes what is asked for from the buffer; falls back to the socket only when the buffer holds too little |
| HttpClient.ParseHeaderLine | net/client.cpp:520-539 | the header map after one line, later lines overriding, names compared without case |
| HttpClient.ParseHeaderLines | net/client.cpp:747-789 | the header map of all lines behind the first |
| HttpClient.ParseFirstLine | net/client.cpp:747-789 | verb and resource of a request line, status of a status line, or the protocol error |
| HttpClient.ParseHead | net/client.cpp:747-789 | refuses exactly the heads the one-shot parser refuses, and otherwise goes on as it does |
| HttpClient.AsyncHttpClient.AsyncResponse | net/client.cpp:713-719 | one handler call with the streaming parser's outcome, its bytes left over, and no blocking read |
| HttpClient.AsyncHttpClient.HandleHeaders | net/client.cpp:732-844 | the same from the header block on; when the stream ends first, its error and an empty reply |
| HttpClient.AsyncHttpClient.AwaitBody | net/client.cpp:791-844 | the same from the parsed headers on: by length, by chunks, or no body; when the stream ends within the announced length, its error and the head |
| HttpClient.AsyncHttpClient.ProcessReply | net/client.cpp:846-865 | one handler call with the body, inflated when it came zipped |
| HttpClient.AsyncHttpClient.StartProcessChunk | net/client.cpp:867-911 | the same from a chunk size line on, for every number of chunks; it ends because bytes are used up; when the stream ends first, its error and an empty reply |
| HttpClient.AsyncHttpClient.ProcessChunk | net/client.cpp:913-938 | the same from a chunk's data on; when the stream ends first, its error and the data of the earlier chunks |
| HttpClient.AsyncHttpClient.AsyncResponses | net/client.cpp:713-938 | n requests in a row make exactly n handler calls, as the streaming parser says, and no blocking read |
| HttpPrinters.BuildRequest | client/src/apiclient_utils.cpp:310-318 | the message text: lines joined by CRLF, a blank line, the body |
| HttpPrinters.BuildApiOkResponse | server/src/apiclient.cpp:353-364 | the message text of a 200 response |
| HttpPrinters.BuildApiErrorResponse | server/src/apiclient.cpp:277-305 | the message text of an error response, for every status code |
| HttpRoundTrip.HeadersFire | net/client.cpp:732-789 | the header callback takes exactly the joined lines of any head and leaves what follows |
| HttpRoundTrip.PrintedHeaders | net/client.cpp:520-539 | the header map of every printed message announces its length and its content type and no chunks |
| HttpRoundTrip.BodyRead | net/client.cpp:791-865 | after an announced length exactly that many bytes become the body, whatever they are |
| HttpRoundTrip.MessageRoundTrip | net/client.cpp:732-865 | every printed message is read back: verb and resource or status, content type, exact body; what lies behind it stays |
| HttpRoundTrip.ResourceExactly | net/client.cpp:747-789 | a printed request line always parses, and gives back the resource if and only if the resource holds no space |
| HttpRoundTrip.PipelinedRoundTrip | net/client.cpp:732-865 | n printed messages one behind the other are read back as n outcomes in order |
| HttpRoundTrip.PipelinedOverSegments | net/client.cpp:713-865 | the same over any segmentation, with nothing left over |
| HttpRoundTrip.ChunkRound | net/client.cpp:867-938 | one size line, its data and CRLF are taken and appended; size zero ends the message |
| HttpRoundTrip.ChunkedRoundTrip | net/client.cpp:867-938 | decoding inverts encoding for every list of chunks and every hexadecimal spelling of their sizes in the digits 0-9, a-f and A-F |
| HttpRoundTrip.ChunkedMessageRoundTrip | net/client.cpp:732-938 | the same for a whole message under any head that announces chunks and no length |
| HttpRoundTrip.LengthBeforeChunks | net/client.cpp:791-844 | under a head with both a length and chunks exactly that many bytes become the body, undecoded |
| HttpPrinters.ReasonPhrases | server/src/apiclient.cpp:277-291 | the eight codes with the reason phrases of the standards, every other code as 200 OK |
| Truncation.MessageCut | net/client.cpp:733-824 | of a printed message only a proper prefix has arrived: the handler gets the error of the stream, with an empty reply within the header block and with the head and no body behind it; what was not taken stays |
| Truncation.MessageCutOverSegments | net/client.cpp:733-824 | the same over any segments |
| Truncation.ChunksCut | net/client.cpp:868-935 | of a chunked body only a proper prefix has arrived: the error of the stream, with an empty reply within a size line and with the data of the earlier chunks within a chunk |
| Truncation.ChunkedMessageCut | net/client.cpp:733-935 | the same of a whole chunked message over any segments |
| Malformed.TwoWords | net/client.cpp:752-784 | a first line by its first two words: a status line when the first one opens with HTTP/ in any case, otherwise a verb and a resource |
| Malformed.FirstLineRefused | net/client.cpp:744-778 | a first line of one word, or a status that is no number of 32 bits: a protocol error, and nothing behind the head is taken |
| Malformed.EmptyHead | net/client.cpp:744-750 | an empty header block: a protocol error |
| Malformed.LengthRefused | net/client.cpp:793-807 | a length that is no number below 2^64: a protocol error with the head |
| Malformed.LengthRead | net/client.cpp:793-807 | anything behind the digits of a length is ignored, and a negative length is what is missing to 2^64 |
| Malformed.NoBody | net/client.cpp:840-844 | neither a length nor chunks: a success with the head, and every byte behind it is left |
| Malformed.SizeRefused | net/client.cpp:877-900 | a size line that is not a number below 2^64 and nothing else: a protocol error with the data read so far |
| Malformed.SizeAccepted | net/client.cpp:877-900 | white space, a sign and a hexadecimal mark are accepted before a size |
| Malformed.SizeWrapsAround | net/client.cpp:902-926 | of a chunk of size 2^64-2 no byte is taken, of one of size 2^64-1 a single byte |
| Malformed.BodyHanded | net/client.cpp:847-865 | a whole body reaches the handler as it came, or inflated when the coding header names gzip; a body that cannot be inflated is a protocol error |
| Malformed.ChunksHanded | net/client.cpp:914-935 | and so do the chunks together |
| Tables.NewestExactly | server/src/inmemory_dbconn.cpp:206-271 | a position is selected exactly when the filter accepts it and fewer than the limit later ones are accepted |
| Tables.HitsReadBackwards | server/src/inmemory_dbconn.cpp:206-271 | selecting is reading the log backwards and keeping what the filter accepts |
| InMemory.Connection.UpdateUserHeartBit | server/src/inmemory_dbconn.cpp:11-23 | the first row of that id is touched and nothing else |
| InMemory.Connection.CreateUser | server/src/inmemory_dbconn.cpp:25-54 | a taken name changes nothing; else user, self chat and membership appear together under the next ids |
| InMemory.Connection.CreateChat | server/src/inmemory_dbconn.cpp:56-79 | a taken name changes nothing; else the chat appears, with its creator as member unless the id is 0 |
| InMemory.Connection.LookupUserByName | server/src/inmemory_dbconn.cpp:81-94 | all users of that name in table order |
| InMemory.Connection.LookupUserById | server/src/inmemory_dbconn.cpp:96-107 | the first user of that id or the default one |
| InMemory.Connection.LookupChatsForUserId | server/src/inmemory_dbconn.cpp:109-131 | the chats of the user's rows in row order |
| InMemory.Connection.LookupChatByName | server/src/inmemory_dbconn.cpp:133-146 | all chats of that name in table order |
| InMemory.Connection.LookupChatById | server/src/inmemory_dbconn.cpp:148-159 | the first chat of that id or the default one |
| InMemory.Connection.LookupUsersForChatId | server/src/inmemory_dbconn.cpp:161-183 | the users of the chat's rows in row order |
| InMemory.Connection.AddUserToChat | server/src/inmemory_dbconn.cpp:185-198 | the row is there afterwards, once if it was there before, and no other is new |
| InMemory.Connection.SaveMessage | server/src/inmemory_dbconn.cpp:200-204 | the message is appended |
| InMemory.Connection.GetMessages | server/src/inmemory_dbconn.cpp:206-240 | returns the newest messages of the chat above the bound, unmarked, and marks exactly those as read; the index never underflows |
| InMemory.Connection.SelectMessages | server/src/inmemory_dbconn.cpp:242-271 | the same form for any filter, changing nothing |
| Integrity.UserKeeps | server/src/inmemory_dbconn.cpp:25-54 | creating a user keeps every integrity rule and only extends the tables |
| Integrity.ChatKeeps | server/src/inmemory_dbconn.cpp:56-79 | so does creating a chat for a user that exists |
| Integrity.MemberKeeps | server/src/inmemory_dbconn.cpp:185-198 | so does adding a member |
| Integrity.MessageKeeps | server/src/inmemory_dbconn.cpp:200-204 | so does saving a message whose sender and target exist |
| Integrity.MarkKeeps | server/src/inmemory_dbconn.cpp:206-240 | so does marking messages as read |
| Integrity.AtMostOneUser | server/src/database_worker.cpp:53-81 | at most one user of a name, so the branch for several users is dead |
| Integrity.UserKeepsUniqueExactly | server/src/inmemory_dbconn.cpp:25-54 | creating a user leaves chat names unique if and only if it is refused or no chat bears the name |
| Integrity.ChatKeepsUnique | server/src/inmemory_dbconn.cpp:56-79 | creating a chat always does |
| Integrity.ChatNameShared | server/src/inmemory_dbconn.cpp:25-79 | a witness for the other case, in a store that is otherwise in order: one user, a chat, and a user of the chat's name |
| Integrity.UsersLinearize | server/src/inmemory_dbconn.cpp:161-183 | each user looked up under a lock of its own is the real one of the first lock, but for its heartbeat |
| Worker.CarriesStays | server/src/database_worker.cpp:140-368 | nothing other workers do invalidates what a worker carries between two locked sections |
| Worker.ResolvingKeeps | server/src/inmemory_dbconn.cpp:109-131 | each chat looked up under a lock of its own is the one an atomic read at the first lock would have given |
| Worker.FormattingKeeps | server/src/database_worker.cpp:83-112 | the two lookups per message give the names of the real sender and the real target |
| Worker.StepKeeps | server/src/database_worker.cpp:140-368 | every locked section of every command keeps the integrity rules, only extends the tables, and leaves real rows in the worker's hands |
| Worker.StepNears | server/src/database_worker.cpp:140-368 | every locked section brings its task nearer to its end in a well-founded order, whatever the tables have become |
| Worker.UniqueExactly | server/src/database_worker.cpp:251-345 | one locked section ends the uniqueness of chat names, the creation of a user under a chat's name, and no other does |
| Worker.AddressedExactly | server/src/database_worker.cpp:320-366 | adding to a chat and sending to it find it if and only if no other chat bears its name |
| Worker.SharedNameUnreachable | server/src/database_worker.cpp:320-366 | with a shared name, adding to the chat and sending to it answer 404 |
| Commands.LoginExactly | server/src/database_worker.cpp:291-301 | a login is answered with a user if and only if it bears the name and the digest of the password is its own; 403 if and only if the digest differs, 404 if and only if nobody bears the name |
| Commands.AdmittedExactly | server/src/database_worker.cpp:35-51 | every other command that is served goes on if and only if the user of the id exists and the digest is its own; 403 and 409 otherwise |
| Commands.UserCreatedExactly | server/src/inmemory_dbconn.cpp:25-54 | 409 and nothing changed if the name is taken; otherwise exactly the new user with its password's digest, its own chat of its name and its membership |
| Commands.ChatCreatedExactly | server/src/database_worker.cpp:302-319 | 409 and nothing changed if a chat bears the name; otherwise exactly the new chat and its creator's membership, its only one |
| Commands.MemberAdded | server/src/inmemory_dbconn.cpp:185-198 | behind this step the memberships are the old ones and that of the added user in the chat, and nothing else has changed |
| Commands.MessageSaved | server/src/database_worker.cpp:274-278 | the message is the last of the log and nothing else has changed |
| Commands.StatusExactly | server/src/database_worker.cpp:193-209 | the user of the asked name, or 404 if and only if there is none |
| Commands.HistoryAskedExactly | server/src/database_worker.cpp:210-223 | the other user is the one of the asked name, or 404 if and only if there is none |
| Commands.MessageAddressedExactly | server/src/database_worker.cpp:251-277 | a message goes from the sender to the own chat of the user of the name, with its text and this stamp; 404 if and only if there is none |
| Commands.InItsConversation | server/src/database_worker.cpp:224-245 | such a message matches the history filter of exactly one pair of users and one direction: its sender and its addressee |
| Commands.AddedUserExactly | server/src/database_worker.cpp:320-332 | the user to be added is the one of the name, or 404 if and only if there is none |
| Commands.JoinedChatExactly | server/src/database_worker.cpp:334-341 | the chat to be joined is the only one of the name, or 404 if and only if there is not exactly one |
| Commands.ChatAddressedExactly | server/src/database_worker.cpp:346-365 | and so is the chat to be written to |
| Commands.HeartBeats | server/src/inmemory_dbconn.cpp:11-23 | a poll leaves its time as the heartbeat of the polling user and changes nothing else |
| Commands.ScanMarks | server/src/inmemory_dbconn.cpp:206-240 | a scan marks the messages it takes as read, and changes nothing else |
| Ledger.StepBalances | server/src/database_worker.cpp:140-368 | along a task: one reply at most, no change before an error reply, one message exactly on a successful send |
| DatabaseWorker.DatabaseWorker.LookupCheckPass | server/src/database_worker.cpp:35-51 | the user, or the default one after exactly one error reply: 409 for an unknown id, 403 for a wrong password |
| DatabaseWorker.DatabaseWorker.LookupCheckPassByName | server/src/database_worker.cpp:53-81 | the user, or the default one after exactly one error reply |
| DatabaseWorker.DatabaseWorker.ToApiFormat | server/src/database_worker.cpp:83-112 | one entry per message, in order, with the names found |
| DatabaseWorker.DatabaseWorker.ProcessTask | server/src/database_worker.cpp:142-367 | for every command the loop body ends in the tables, and with the replies, of the worker's steps taken in a row, and its reply promises what every reply does |
| DatabaseWorker.DatabaseWorker.IdlePoll | server/src/database_worker.cpp:153-192 | the same for a poll with any number of chats |
| DatabaseWorker.DatabaseWorker.UserHistory | server/src/database_worker.cpp:210-250 | the same for a history query |
| ApiClient.MaxTimestampOf | server/src/apiclient.cpp:53-64 | an upper bound of all stamps that is one of them, or 0 |
| ApiClient.Client.ProcessClientRequest | server/src/apiclient.cpp:339-351 | a failed handshake starts nothing, a completed one starts one read |
| ApiClient.Client.SendOkResponseAndStartIdle | server/src/apiclient.cpp:410-425 | one write and one timer wait |
| ApiClient.Client.SendErrorResponse | server/src/apiclient.cpp:427-437 | one write with this status code |
| ApiClient.Client.RequestFromClientReadHandler | server/src/apiclient.cpp:512-587 | exactly one of: nothing after an error, one write, one queued task, or the idle mode |
| ApiClient.Client.AskIdle | server/src/apiclient.cpp:529-542 | the idle mode with its cursor, or a 400 with the parameters that were already read kept |
| ApiClient.Client.V1Handler | server/src/apiclient.cpp:439-446 | the command is kept even when the request is refused |
| ApiClient.Client.HandlerImpl | server/src/apiclient.cpp:448-479 | a 400 for a refused type, a 400 with half-read parameters kept for a refused body, else one task with the right command and storage |
| ApiClient.Client.ResponseToClientWroteHandler | server/src/apiclient.cpp:589-604 | one write less, one read more, even after a write error |
| ApiClient.Client.SendMessagesToIdleConn | server/src/apiclient.cpp:390-400 | one write that remembers the newest stamp of its batch |
| ApiClient.Client.IdleWroteHandler | server/src/apiclient.cpp:398-407 | only a completed write moves the newest stamp |
| ApiClient.Client.TimerWaitTaskResultHandler | server/src/apiclient.cpp:481-510 | the cursor only moves forward, the queued poll carries it, a ping at most every five seconds |
| Routing.RequestRouted | server/src/apiclient.cpp:512-587 | each of the nine resources, in any case of letters, and no other request queues its command with the client's own parameters; /v1/idle and nothing else starts polling; 404 if and only if it is none of the ten |
| Routing.RequestRefused | server/src/apiclient.cpp:448-479 | a type other than text/plain and application/json, or a refused body: one write of 400 and no task |
| Routing.RequestUnknown | server/src/apiclient.cpp:579-587 | any other resource: one write of 404 and no task, whatever the request brings |
| Routing.FailureStartsNothing | server/src/apiclient.cpp:339-351 | a failed read or handshake starts nothing |
| Routing.ReplySent | server/src/apiclient.cpp:360-437 | one write for each reply of a worker: an error with its code, a batch with the newest of its stamps, all else with 200 |
| Routing.PingsApart | server/src/apiclient.cpp:499-503 | while the clock does not go back, any two pings of a connection are more than five seconds apart |
| Routing.PingsCome | server/src/apiclient.cpp:499-503 | and between any two ticks more than five seconds apart there is one |
| Server.SoundStep | server/src/database_worker.cpp:140-368 | every event of the server keeps the tables, the workers and the accounts sound |
| InFlight.KeptStep | server/src/apiclient.cpp:331-604 | every event keeps, for every connection, the single operation in flight or the safe polling state |
| InFlight.SilentStays | server/src/apiclient.cpp:331-604 | a connection that does not poll and has nothing pending is not touched by any event |
| InFlight.UnansweredEnds | server/src/database_worker.cpp:140-368 | a command without a branch ends in one step, unanswered, with nothing pending for its connection |
| Runs.ReferentialIntegrity | mysql/init.sql:25-41 | in every state of every run: ids 1..n, unique user names, self chats, no repeated membership, all references resolve |
| Runs.StorageOnlyGrows | server/src/inmemory_dbconn.cpp:25-79 | a later state of a run has every earlier row, users changed in their heartbeat only, messages in their flags only |
| Runs.OneInFlight | server/src/apiclient.cpp:331-604 | on a connection that does not poll: at most one operation in flight, no write buffer overwritten, exactly one until an error or a CHAT_HISTORY request |
| Runs.EveryTaskOnce | common/lock_queue.hpp:28-100 | tasks are taken in the order they were queued, each is with one worker or ended once, and each ended one kept the reply promise |
| Runs.CursorSafe | server/src/apiclient.cpp:390-407 | an idle connection's cursor is its start or the stamp of a message whose write has completed |
| Runs.CursorNeverMovesBack | server/src/apiclient.cpp:481-497 | no event moves it back, whatever pings reset, and nothing delivered is forgotten |
| Runs.BatchAboveItsCursor | server/src/database_worker.cpp:153-192 | every message of a batch is newer than its own poll's cursor and names its real sender and target |
| Runs.HistoryNamesReal | server/src/database_worker.cpp:210-250 | so does every message of a history answer |
| Runs.ChatListLinearizes | server/src/inmemory_dbconn.cpp:109-131 | in every run the chat list equals an atomic read at a moment since the worker took the task, and holds no default chat |
| Promises.EveryPromiseKept | server/src/database_worker.cpp:140-368 | in every state of every run, all that was answered without an error still holds: the password was right, the user with its own chat, the chat with its creator, the membership of the user of the asked name in a chat of the asked name is there, and the message sent is in the log, from its sender to the addressee by name |
| Promises.AnswersAreTrue | server/src/database_worker.cpp:140-368 | and so does what is about to be answered |
| Promises.UndisturbedReply | server/src/database_worker.cpp:140-368 | and the reply of a task that nobody interrupts |
| Moments.PastInRuns | server/src/database_worker.cpp:140-368 | in every run, the stores and logs a worker carries from one locked section to the next are those of moments since it took its task, in that order |
| Runs.SharedNamesArePaired | server/src/inmemory_dbconn.cpp:33-79 | of any two chats that share a name the older is from createChat and the younger is a self chat |
| Runs.ChatNameMultiplicity | server/src/inmemory_dbconn.cpp:33-79 | no three chats share a name |
| Endings.SilentForEver | server/src/apiclient.cpp:331-604 | such a silent connection stays as it is to the end of any run |
| Endings.ChatHistoryNeverAnswered | server/src/apiclient.cpp:563-566 | a CHAT_HISTORY task, once looked at, leaves its connection silent for ever |
| Endings.ClientWaitsForEver | server/src/apiclient.cpp:563-566 | any client gets there with five events and no error |
| Endings.TasksEnd | server/src/database_worker.cpp:140-368 | in every run a worker's steps bring its task nearer to its end and no other event touches it |
| Counts.NamesUniqueExactly | server/src/inmemory_dbconn.cpp:25-79 | over a run chat names are unique if and only if no user was created under the name of a chat |
| Counts.LogCountsSends | server/src/database_worker.cpp:251-278 | in every run the log holds one message per successful send, told to its client or about to be |
| History.CutIsTop | server/src/database_worker.cpp:125-135 | sorting and cutting gives the newest ones |
| History.MixFromAndToMessages | server/src/database_worker.cpp:114-136 | the newest ones of both lists together, newest first, each as often as it was there |
| History.LimitedMergeIsTop | server/src/database_worker.cpp:224-246 | a limit of at least the count on each direction loses nothing |
| History.AnswerIsTwoSteps | server/src/database_worker.cpp:224-246 | two steps of a worker, with anything in between, compute this answer |
| History.ConversationIsBoth | server/src/database_worker.cpp:224-245 | the conversation of two different users is the disjoint sum of both directions |
| History.AnswerIsTop | server/src/database_worker.cpp:210-250 | the answer is the newest of what its two selections saw, even of two different states |
| History.LawfulExactly | server/src/database_worker.cpp:210-250 | the answer is the newest part of the conversation on every log, if and only if the count is at most 1, or the users differ and the count is at most 2^31; a user looked up twice may have another heartbeat the second time |
| History.SelfQueryDoubles | server/src/database_worker.cpp:216-245 | a query of oneself fails with a count above 1 |
| History.OverflowFallsShort | server/src/database_worker.cpp:234-234 | a count above 2^31 fails |
| Queries.AnswersInRuns | server/src/database_worker.cpp:210-250 | in every run each history answer is the answer to its own task's query, from the real user who asks and the real user of the asked name, and from the log at two moments since the task was taken, one not before the other |
| Queries.AnswersAreTop | server/src/database_worker.cpp:210-250 | on a log in the order of its stamps, and with a doubled count that does not wrap around to something smaller, that answer is the newest part of what the log held at those two moments of the conversation of these two users |
| Clocks.OneWorkerInOrder | server/src/database_worker.cpp:251-278 | with one worker and a clock that does not go back, the log of every run is in the order of its stamps |
| Clocks.Overtaken | server/src/database_worker.cpp:276-277 | two workers about to send: four steps, under any clock, leave their messages in the opposite order of their stamps |
| Batches.BatchesInRuns | server/src/database_worker.cpp:153-192 | in every run each batch about to be sent is, in words, what stands at distinct positions of the log, newer than its poll's cursor, in chats that the polling user is in |
| Interleaved.NeverTwice | server/src/apiclient.cpp:390-510 | in every run in which a connection ticks only when its last poll is done with, however its scans are interleaved with other workers and whichever writes fail: what its client has received is, in order and in words, the log at positions of which none comes twice, newer than its start and in chats it is in |
| Losses.FourthIsLost | server/src/database_worker.cpp:165-181 | a run of the server from its start after which, however it goes on, the first of four messages is never delivered and the other three are |
| Losses.SameSecondIsLost | server/src/apiclient.cpp:53-64 | a run of the server from its start after which, however it goes on, the second of two messages of one second is never delivered and the first is |
| Idle.TickDelivers | server/src/database_worker.cpp:165-181 | a tick delivers exactly those messages of the client's chats above the cursor that have fewer than three later ones, also above it, in the same chat |
| Idle.LevelMoves | server/src/apiclient.cpp:481-497 | where a tick starts depends on what was delivered only, although pings reset the newest stamp to 0 |
| Idle.DeliveredOnce | server/src/apiclient.cpp:390-510 | over a list of ticks no message is delivered twice, whatever chats the client joins between them |
| Idle.DeliveredExactly | server/src/apiclient.cpp:390-510 | on logs in the order of their stamps, a message is delivered by a list of ticks if and only if it is due at the first of them after it was saved, and by that one; the client is in its chat by then or never |
| Idle.LateStampIsLost | server/src/database_worker.cpp:165-181 | a message saved after a tick, stamped no later than something delivered by then, is never delivered |
| Idle.NothingMissed | server/src/database_worker.cpp:153-192 | with at most three news per chat and tick and later stamps for later messages, every message above the start is delivered exactly once, by the first tick after it was saved, when the client is in its chat by then |
| Idle.FourthIsLost | server/src/database_worker.cpp:165-181 | of four messages in one chat between two ticks exactly the last three are ever delivered |
| Idle.SameSecondIsLost | server/src/apiclient.cpp:53-64 | of two messages of one second, saved before and after a tick, the second is never delivered |
| Poll.PollAlone | server/src/database_worker.cpp:153-192 | a poll nobody interrupts sends exactly one tick's batch, pings, or stays silent, and changes no message but its flags |
| Poll.BatchInWords | server/src/database_worker.cpp:83-112 | what a poll sends is the log at its batch's positions, with the names of real senders and targets |
| Poll.TickIsRound | server/src/apiclient.cpp:390-510 | tick, undisturbed poll and completed write are one round: same cursor, same newest stamp, the same messages received |
| Delivery.ScanCanEnd | server/src/database_worker.cpp:153-192 | a poll that passes the password check comes to its end after finitely many steps of its worker |
| Delivery.RunFollows | server/src/apiclient.cpp:390-510 | in any run of the server in which a connection's scans are undisturbed and its writes complete between ticks, the connection goes through the rounds of the polling client, whatever chats the client is added to meanwhile |
| Delivery.ReceivedIs | server/src/apiclient.cpp:390-510 | what its client has then received is, in order and in words, the log at the delivered positions, and no write has overwritten another |
| Delivery.NeverTwice | server/src/apiclient.cpp:390-510 | no position of the log among them twice, whatever chats the client is added to |
| Delivery.DeliveredExactly | server/src/database_worker.cpp:153-192 | on a log in the order of its stamps, a message is among them if and only if it was due at the first scan after it was saved, and then in that scan's batch; the client is in its chat by then or never |
| Delivery.EveryMessageOnce | server/src/database_worker.cpp:153-192 | with at most three news per chat and scan and later stamps for later messages, every message above the client's start in a chat it is in by then is among them exactly once, in the batch of the first scan after it was saved |
| LockQueue.Queue.Push | common/lock_queue.hpp:28-33 | the element is the last |
| LockQueue.Queue.Pop | common/lock_queue.hpp:46-51 | the first element is gone and no other |
| LockQueue.Queue.GetTask | common/lock_queue.hpp:67-78 | the first element, or false and the caller's value untouched |
| LockQueue.Queue.GetTasks | common/lock_queue.hpp:80-102 | what as many single calls would take, appended to the caller's vector; false exactly on an empty queue |
| LockQueue.SinglesTakePrefix | common/lock_queue.hpp:67-102 | single calls take a prefix in order, as long as there is one |
| SyncConnect.SyncConnectContext.TimerCallback | net/client.cpp:104-113 | the timer's event |
| SyncConnect.SyncConnector.StartConnect | net/sync_connect.hpp:60-88 | one attempt, or the end with the last error, not_found, or the error of opening |
| SyncConnect.SyncConnector.AsyncConnectHandler | net/sync_connect.hpp:42-58 | the connect's event |
| SyncConnect.AlwaysOneOfEach | net/sync_connect.hpp:31-106 | in every interleaving one of connect pending and connect finished, one of wait pending and timer finished; endpoints in order, at most once each |
| SyncConnect.NoAttemptAfterTimer | net/sync_connect.hpp:42-58 | once the timer has finished no attempt starts |
| SyncConnect.EveryRunEnds | net/client.cpp:123-135 | a run has at most one callback more than endpoints, and it can go on exactly until both have finished |
| SyncConnect.SuccessReported | net/sync_connect.hpp:42-106 | success is reported if and only if some attempt connected |
| SyncConnect.FailureReported | net/sync_connect.hpp:42-106 | which error a failed connect reports: nothing to try, not opened, timed out, or what the last attempt met |
| SyncConnect.Connect | net/client.cpp:96-142 | with callbacks in any order the whole call ends, after at most one callback more than endpoints, with that result |
| AsyncConnect.RangeConnectOp.Start | net/async_connect.hpp:33-38 | the first attempt |
| AsyncConnect.RangeConnectOp.StartConnect | net/async_connect.hpp:82-107 | a connect, or one posted handler call when the socket does not open |
| AsyncConnect.RangeConnectOp.Call | net/async_connect.hpp:40-67 | the callback's event |
| AsyncConnect.HandlerOnce | net/async_connect.hpp:33-107 | on every non-empty list the handler is called exactly once, endpoints are tried in order and at most once, and the report is that of the endpoint where the search ended |
| AsyncConnect.SuccessIsFirst | net/async_connect.hpp:40-67 | endpoint k is reported connected if and only if it connects and every one before it failed with an error other than an abort |

## Left out

- Sockets, TLS, real timers, threads and the io_service: their completions are events in any order.
- The blocking halves of `read_until` and `read` (net/client.cpp:222-265, net/client.cpp:288-334): only counted, and proved never to be entered by the HTTP callbacks.
- zlib, crc32 and std::sort: parameters of the model (`Env.inflate`, `Host.digest`, `Host.sort`). What is needed of the sort is stated as a precondition: that it permutes, or that it sorts.
- rapidjson and regular expressions: the model starts from the parsed request parameters; a body that `parse_meta` refuses leaves them in any half-assigned state.
- MySQL: `MysqlConnection` is a stub in the repository; its schema is where the referential rules are written down.
- 64-bit wrap-around of the id counters and of time stamps: natural numbers.
- Chunk extensions are refused by the code and trailers are not parsed; `HttpRoundTrip.ChunkedRoundTrip` has neither, and chunks are smaller than 2^64-2 bytes because the code's addition of 2 wraps around from there on (`Malformed.SizeWrapsAround`).
- Session ids, logging, the HTTP code kept for the log, `/proc` statistics, the console client, the file, trimming and privilege helpers: I/O or easy members.
- InMemory.Connection.LookupChatsForUserId: sequential in this form; with other threads between its locks it is the steps of `Worker.Step`, and `Runs.ChatListLinearizes` is its theorem.
- InMemory.Connection.LookupUsersForChatId: sequential in this form, and no command of the server calls it; `Integrity.UsersLinearize` says what other threads between its locks can change.
- DatabaseWorker.DatabaseWorker.ToApiFormat: the names of one state; with other threads between its lookups it is the steps of `Worker.Step`, and `Worker.FormattingKeeps` is its theorem.
- DatabaseWorker.DatabaseWorker.IdlePoll: undisturbed, like `ProcessTask`.
- DatabaseWorker.DatabaseWorker.UserHistory: undisturbed, like `ProcessTask`; `Queries.AnswersInRuns` says what it answers among other workers.
- ApiClient.Client.SendErrorResponse: the status code of the write, not its text; the text is `HttpPrinters.BuildApiErrorResponse`.
- ApiClient.Client.SendOkResponseAndStartIdle: not the polling interval, since timers fire at any time here.
- DatabaseWorker.DatabaseWorker.ProcessTask: says what a task does undisturbed; what it does among other workers is the subject of `Runs`.
- Runs.CursorSafe: says nothing once an error reply was sent on an idle connection, where the code starts a read beside the polling.
- Idle.NothingMissed: assumes that a tick's scan is undisturbed and that its write completes before the next tick; `Delivery.RunFollows` makes the same assumptions of a run of the server. For interleaved scans and failed writes there is `Interleaved.NeverTwice`; overlapping ticks have `Runs.CursorSafe` and `Batches.BatchesInRuns`.
