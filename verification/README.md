# A verified model of the oracle-rs driver core

oracle-rs is an Oracle thin driver: it speaks the TNS protocol over a byte stream, keeps a
statement cache, delivers rows, and logs on by the O5LOGON exchange. This project models the
parts of it that hold state or loop over unbounded input, and proves what they promise.

Each reader has a partner that does not know it: an encoder with a value in every field, a grammar,
or a predicate on the bytes, and a result for all inputs that connects the two. So what is proved of
a response, from `PacketAnswers.DmlOnTheWire` to `HonestServer.SlowHandshake`, is said of the bytes on
the wire.

Code that works step by step is modelled as classes and methods with loops. Each such method is
proved equal to a function of its inputs and the old state, and the properties are proved of
those functions. A read is a function of the bytes and the position that yields an outcome and
the position the cursor is left at, also when it fails.

| file | what it models |
|---|---|
| `Bytes.dfy`, `Texts.dfy`, `Messages.dfy`, `Wrappers.dfy` | machine integers, numerals, searching, message types |
| `ReadBuffer.dfy`, `WriteBuffer.dfy`, `WireFormat.dfy` | the cursor, the appender, and the laws between them |
| `Framing.dfy`, `Reassembly.dfy`, `Recovery.dfy`, `Transport.dfy` | packets, splitting, reassembly, the MARKER/RESET recovery, the connection that does it |
| `Statements.dfy`, `StatementCache.dfy`, `TouchOrder.dfy`, `CacheSharing.dfy`, `CheckOut.dfy` | statements, the cache and the meaning of its order, calls that interleave at the connection's lock, and when a statement is checked out to one of them only |
| `ResponseEnd.dfy`, `WirePackets.dfy` | the bytes with which a response is complete, as a grammar; the client's packets byte by byte |
| `ServedStatements.dfy` | over every interleaving, which statement a call executes |
| `ErrorMessage.dfy`, `ErrorTexts.dfy` | the message that ends a response: layout, text, and the search for the text elsewhere; the same said of the bytes |
| `Rows.dfy`, `QueryResponse.dfy`, `Draining.dfy`, `Responses.dfy` | duplicate columns, the response to a query, fetching to the end, response loops that go back and search |
| `Replies.dfy`, `Lob.dfy` | DML, batches, fetches and LOB operations from the stream to the answer |
| `ServerMessages.dfy`, `Answers.dfy` | every message of a response as a server writes it, field by field, and what the answers come to |
| `BindScanner.dfy`, `StatementTexts.dfy` | the bind scanner, string literals, and a reference lexer of SQL; kinds, names and UTF-8 by their characters |
| `ConnectString.dfy` | connect strings, descriptors, redirect addresses |
| `Logon.dfy`, `Handshake.dfy`, `ServerAnswers.dfy`, `HonestServer.dfy` | the two logon phases and the handshake; a server that follows the protocol, and what comes of it |

## What turned out

- **Markers are transparent, once.** A response interrupted by markers before it is complete is
  recovered to the bytes of the uninterrupted stream, exactly if the first marker is more than a
  bare header (`Recovery.TransparentExactly`). DML, batches and fetches get the answer of the
  uninterrupted stream (`Replies.RepliesSurvive`).
- **A second interruption is reported as success.** The caller gets the bare marker
  (`Recovery.SecondMarkerIsReturned`), whose three bytes its parser takes for a response with
  nothing in it: the DML statement has affected no rows, all rows of the batch have succeeded, the
  fetch has brought none, whatever the server was about to say (`Replies.InterruptedTwiceSucceeds`).
- **An interrupted LOB operation fails.** What is recovered goes to a parser that has errors only to
  return (src/connection.rs:4982-4987, 5526-5535), so the operation fails whatever the bytes are
  (`LobReplies.MarkedLobFails`). That parser takes the type byte of the first message for the start
  of an error message. An ordinary failure loses its code and its text that way
  (`LobReplies.FailureIsLost`), every other message is lost at once
  (`LobReplies.OtherMessageIsLost`), and `LobReplies.InterruptedLobExactly` says when the failure is
  that of the uninterrupted operation. Moreover the packet that goes to it lacks what was gathered
  before the marker (`Recovery.LobTransparentExactly`).
- **An interrupted query fails.** Its bytes are recovered whole, and then go to a parser that knows
  error messages only (src/connection.rs:2850-2857). The answer is that of the uninterrupted query
  exactly if that is a failure whose error message comes first and whose text comes to the same
  when it is read two fields early (`QueryResponses.InterruptedQueryExactly`); if those fields are
  zero, as they usually are, exactly if the first Oracle error named in the response is that text
  (`QueryResponses.UsualFailure`). Rows are lost (`QueryResponses.RowsAreLost`), and a success
  without rows becomes the error ORA-00000 (`QueryResponses.SuccessBecomesError`). PL/SQL blocks,
  REF cursors, scrolling and the second round of a query with LOB columns take the same path
  (src/connection.rs:1866-1879, 2266-2274, 2565-2582, 2664-2673, 2892-2901).
- **A query's parser passes over the mask in a row header**, which the parser of fetches uses. On
  one and the same payload the one delivers the rows, and the other takes the first bytes of the
  error message for a value (`QueryResponses.HeaderMaskIsIgnored`).
  Masks in bit-vector messages are undone (`QueryResponses.QueryRowsComeBack`).
- **How a response may be cut.** The terminal scanner never takes back a yes, so a response comes
  back whole exactly if the scanner does not stop on all packets but the last
  (`Reassembly.CutComesBackWhole`).
- **A response is complete by its first message.** LOB data and then an error, a status or an end
  message; behind a parameter message any later byte 4 or 29 will do, also one inside a value
  (`ResponseEnd.ScannerIsGrammar`).
- **The cache never saves a parse.** Its documentation says that a second call reuses the cursor
  without parsing again (src/statement_cache.rs:60-67). In every interleaving of the calls no
  cached statement has a cursor, so each is sent with its text and parsed
  (`CacheSharing.EveryRequestIsFromScratch`).
- **Eviction is by last touch.** Although removals scramble the storage, what is dropped was idle
  and touched before every other idle statement (`TouchOrder.DroppedIsLeastRecent`).
- **The cache can outgrow its size** when calls are in progress at the same time
  (`CacheSharing.CacheCanExceedItsSize`), by no more than one entry beyond those in use at once
  (`CacheSharing.CacheSizeBoundInUse`).
- **Two calls can hold one entry** (`CacheSharing.EntryCanBeShared`). The one step that opens the
  way is a call that stores its statement under a text which another call holds: without it a
  statement is checked out to one call at a time, and after it the next call with that text is
  served what another still holds (`CheckOut.GuardedExactly`, `CheckOut.RunToTwoHolders`).
- **Skipping an integer is laxer than reading it**, and `WireFormat.SkipUbAgreement` says exactly
  where the two part ways.
- **Two dashes in a block comment** hide its end from the bind scanner
  (`SqlLexing.DashesHideABind`); `SqlLexing.CommentsAgree` gives the exact condition. A colon in a
  quoted identifier is taken for a bind (`SqlLexing.IdentifierTakenForBind`).
- **A signed minimum** is written and read back with wrapping arithmetic, as a release build does;
  with overflow checks it is the one value that cannot be negated (`WireFormat.NegationOverflows`).
- **A complete logon is not a ready session.** The phase is set to complete before the server's
  proof is checked (`LogonMessages.AuthMessage.ParseResponse`); a session is ready exactly if the
  check also went well (`Handshake.ReadyExactlyIfLoggedOn`).
- **What was parsed can print to something that parses differently**, exactly if a blank follows
  the slashes that a text begins with and becomes the start of the host
  (`ConnectStrings.ParseThenPrint`, and `ConnectStrings.BlankHostIsLost` for the text "/ h/s").

## Model

| member | source | states |
|---|---|---|
| `ReadBuffers.ReadBuffer.SetPosition` | src/buffer/read.rs:139-148 | the cursor moves anywhere up to the end of the data, and stays where it is otherwise |
| `ReadBuffers.ReadBuffer.ReadU8` | src/buffer/read.rs:181-186 | the next byte, or an underflow that moves nothing |
| `ReadBuffers.ReadBuffer.ReadBytesVec` | src/buffer/read.rs:206-215 | so many bytes, or an underflow that moves nothing |
| `ReadBuffers.ReadBuffer.ReadUb2` | src/buffer/read.rs:288-296 | a number of up to two digits; a longer one is refused behind its length byte |
| `ReadBuffers.ReadBuffer.ReadUb4` | src/buffer/read.rs:320-336 | a number of up to four digits, three included |
| `ReadBuffers.ReadBuffer.ReadUb8` | src/buffer/read.rs:340-362 | the cursor reads a big-endian number of up to eight digits behind its length byte, and is left where the bytes gave out if there are too few |
| `ReadBuffers.ReadBuffer.SkipUbN` | src/buffer/read.rs:503-531 | whatever length the length byte gives is passed over |
| `ReadBuffers.ReadBuffer.ReadRawBytesChunked` | src/buffer/read.rs:113-131 | the chunk loop that extends a vector yields the concatenation of the chunks, or the first failure at its position |
| `ReadBuffers.ReadBuffer.ReadBytesWithLength` | src/buffer/read.rs:376-409 | null, empty, escaped, short and chunked byte strings, each with value and final position |
| `ReadBuffers.ReadBuffer.SkipRawChunked` | src/buffer/read.rs:90-110 | the skip loop ends where the function that skips chunk by chunk does |
| `ReadBuffers.ReadBuffer.ReadOracleInt` | src/buffer/read.rs:442-470 | sign bit, digits one by one and the wrapping negation; a short buffer is used up |
| `ReadBuffers.ReadBuffer.ReadOracleUint` | src/buffer/read.rs:473-493 | up to eight digits one by one, and where the reading stops if there are too few |
| `WriteBuffers.WriteBuffer.WriteBytes` | src/buffer/write.rs:131-135 | the bytes are appended exactly if they fit the limit, else nothing is |
| `WriteBuffers.WriteBuffer.WriteUb2` | src/buffer/write.rs:194-207 | the encoding the round trip is about is appended, as far as the limit lets it |
| `WriteBuffers.WriteBuffer.WriteUb4` | src/buffer/write.rs:215-233 | the same for four bytes; three digits are written as four |
| `WriteBuffers.WriteBuffer.WriteUb8` | src/buffer/write.rs:241-262 | the same for eight bytes; five to seven digits are written as eight |
| `WriteBuffers.WriteBuffer.WriteBytesWithLength` | src/buffer/write.rs:270-298 | all of the encoding is appended exactly if it fits the buffer's limit; a failed write leaves a prefix of it and nothing else |
| `WriteBuffers.WriteBuffer.WriteOracleInt` | src/buffer/write.rs:309-333 | the bytes appended are sign, length and digits, most significant first, up to the limit of the buffer |
| `WriteBuffers.WriteBuffer.WriteOracleUint` | src/buffer/write.rs:336-352 | length and digits, most significant first, up to the limit |
| `WireFormat.UbRoundTrip` | src/buffer/write.rs:194-261 | every ub2, ub4 and ub8 value reads back with any bytes around it, and the cursor stops exactly behind it |
| `WireFormat.WrittenNumbers` | src/buffer/write.rs:194-261 | numbers byte by byte: a length of 0, 1, 2, 4 or 8 and as many digits, the highest first |
| `WireFormat.NumbersRefused` | src/buffer/read.rs:288-362 | when a number is refused, and whether the refusal names the length byte or the bytes needed and there |
| `WireFormat.SkipUbOfWritten` | src/buffer/read.rs:503-531 | skipping a written integer consumes what reading it would |
| `WireFormat.SkipUbAgreement` | src/buffer/read.rs:365-368 | on arbitrary bytes skip and read differ exactly if the length byte is too large for the read and the bytes for the skip are there |
| `WireFormat.OracleUintRoundTrip` | src/buffer/write.rs:336-352 | every unsigned 64-bit value reads back, with any bytes around it |
| `WireFormat.OracleIntRoundTrip` | src/buffer/read.rs:442-470 | every signed 64-bit value reads back, the minimum through two wrap-arounds |
| `WireFormat.NegationOverflows` | src/buffer/write.rs:314-318 | negating leaves the 64-bit range for the minimum and no other value |
| `WireFormat.OracleUintShortest` | src/buffer/write.rs:341-344 | no shorter byte string reads back as the value |
| `WireFormat.OracleIntShortest` | src/buffer/write.rs:320-325 | the same for signed values, against every byte string the reader accepts |
| `WireFormat.LengthPrefixedRoundTrip` | src/buffer/write.rs:270-298 | absent, short and chunked byte strings of any length read back by both readers, which stop exactly at their end |
| `WireFormat.WrittenStrings` | src/buffer/write.rs:270-298 | byte strings byte by byte: 255 for none, up to 252 bytes behind their length, or 254 and chunks of 32767 bytes |
| `WireFormat.SkipRawAgrees` | src/buffer/read.rs:90-131 | on every buffer skipping a chunked value ends as reading it does: outcome, error and position |
| `WireFormat.ReadsSurviveExtension` | src/buffer/read.rs:113-131 | bytes that arrive later change neither value nor position of a read that succeeded |
| `Texts.NumbersParsed` | src/config.rs:441-467 | a number may have one plus sign in front and must fit; the empty text and anything but digits are refused |
| `Framing.NextOfFramed` | src/connection.rs:459-513 | a packet whose length field is its length is cut off the stream exactly, whatever follows |
| `Framing.DeframeOfFlat` | src/connection.rs:459-513 | cutting a stream of such packets gives back the packets |
| `Framing.FragmentThenDeframe` | src/connection.rs:400-457 | splitting a request and cutting the stream again is the identity on the payload; every packet fits the SDU and the last alone is marked |
| `Framing.EndMarkUnique` | src/connection.rs:433-441 | with flags of the caller's the mark is on the last packet alone exactly if those flags lack it or one packet is enough |
| `WirePackets.DataBytes` | src/connection.rs:417-443 | a DATA packet byte by byte in both header forms |
| `WirePackets.RequestPackets` | src/connection.rs:400-457 | all packets of a request but the last are full and without flags, the last has the flag 0x0800, each with the next piece of the payload |
| `Transport.Connection.SendMultiPacket` | src/connection.rs:400-457 | the loop writes the fragments one after the other and nothing else |
| `Transport.Connection.SendLobMessage` | src/connection.rs:4952-4968 | one packet or several, the bytes sent are those of the fragmenter |
| `Transport.BuildSinglePacket` | src/messages/lob_op.rs:246-272 | the pushed bytes are a DATA packet marked as the last; a length field of two bytes wraps around |
| `Transport.Connection.Receive` | src/connection.rs:459-513 | the next packet by its header, or a closed state with the stream used up |
| `Reassembly.TerminalMonotone` | src/connection.rs:673-744 | the scanner says yes on every extension of bytes it said yes to |
| `Transport.Connection.ScanForTerminalMessage` | src/connection.rs:673-744 | the cursor loop decides the recursive predicate |
| `ResponseEnd.ScannerIsGrammar` | src/connection.rs:673-744 | the scanner says yes exactly to LOB-data messages, short or in chunks, followed by a byte 4, 9 or 29, or by a byte 8 with a 4 or 29 somewhere behind it |
| `ResponseEnd.WrittenIsLob` | src/connection.rs:703-715 | any data as the writer of length-prefixed data writes it is such LOB data |
| `ResponseEnd.MarksAreSignals` | src/connection.rs:544-560 | a packet ends a response by itself exactly by bit 0x20 of its first flag byte, bit 0x40 of its second, or a body that is the one byte 29 |
| `ResponseEnd.GatheredByGrammar` | src/connection.rs:534-587 | from DATA packets the loop returns flags and bodies up to the first packet that is so marked or makes the bodies complete by the grammar |
| `ResponseEnd.EndIsFound` | src/connection.rs:570-586 | a response that no packet marks, cut anyhow, is whole with the packet that brings the byte that decides and with none before |
| `ResponseEnd.ErrorByteEnds` | src/connection.rs:695-699 | one packet without flags that brings the type byte of an error message is a whole response |
| `Reassembly.ShortestCompletePrefix` | src/connection.rs:534-587 | from a stream of DATA packets the loop takes the shortest complete prefix: the first packet's flags and all bodies, and leaves the rest |
| `Reassembly.GatherFrom` | src/connection.rs:599-649 | the loop resumed with what was gathered so far returns the same as one that was never stopped |
| `Reassembly.CutComesBackWhole` | src/connection.rs:544-586 | a response cut into packets comes back whole exactly if the scanner does not stop on all of them but the last |
| `Reassembly.CutsAgree` | src/connection.rs:605-648 | two such cuts of a response yield the same payload |
| `Transport.Connection.ReceiveResponseFrom` | src/connection.rs:534-587 | the loop that carries a partial payload computes the one reassembly specification; without a stream it gets no further than the packet in hand |
| `Transport.Connection.ReceiveResponseOrMarker` | src/connection.rs:599-649 | the other loop computes the same one, and hands over packet and partial payload when another kind of packet arrives |
| `Transport.Connection.ReceiveResponse` | src/connection.rs:651-661 | from a fresh packet the loop computes the response specification, and a broken stream closes the connection |
| `Recovery.MarkersAreTransparent` | src/connection.rs:777-843 | wherever and by however many markers a response is interrupted, the caller gets the packet and the unread rest of the uninterrupted stream |
| `Recovery.TransparentExactly` | src/connection.rs:2974-2985 | and this holds exactly if the first marker is more than a bare header, which is taken for an empty response |
| `Recovery.SecondMarkerIsReturned` | src/connection.rs:815-830 | markers that interrupt the rest again are handed to the caller in place of the response |
| `Recovery.SecondMarkerInFull` | src/connection.rs:815-830 | a stream of two markers and two packets on which that happens |
| `WirePackets.BrokenRecovery` | src/connection.rs:777-843 | if only markers come during the recovery and then nothing, the error says whether the server's RESET had come |
| `WirePackets.RecoveryInFull` | src/connection.rs:777-843 | a recovery byte by byte: BREAK, RESET, and the answer that the caller gets |
| `Recovery.LobCutForgets` | src/connection.rs:845-848 | the packet recovered for a LOB operation is made of the packets behind the cut alone |
| `Recovery.LobTransparentExactly` | src/connection.rs:845-848 | that packet is the one of the uninterrupted stream exactly if the packets before the cut had empty bodies and the one behind it has the flags of the first |
| `Recovery.LobDataIsLost` | src/connection.rs:845-848 | two packets with a marker between them, and the recovered packet without the data of the first |
| `Transport.Connection.HandleMarkerReset` | src/connection.rs:777-843 | one RESET is sent, and the two waiting loops compute the recovery specification; a broken stream closes the connection |
| `Transport.Connection.ReceiveReply` | src/connection.rs:2974-2985 | receiving and recovering together compute the exchange the transparency results are about; one RESET is sent if a marker stopped the loop, and nothing else |
| `Replies.RepliesSurvive` | src/connection.rs:2974-2991 | a DML statement, a batch and a fetch that markers interrupt get the answer of the uninterrupted stream |
| `Replies.InterruptedTwiceSucceeds` | src/connection.rs:815-830 | interrupted once more, all three are reported as successful with nothing in them, whatever the rest of the response says |
| `ReplyCode.ReceiveDml` | src/connection.rs:2974-2991 | a DML statement from its response on computes the reply those results are about, and leaves the connection closed only if the stream broke |
| `ReplyCode.ReceiveBatch` | src/connection.rs:1990-2025 | the same for a batch |
| `ReplyCode.ReceiveFetch` | src/connection.rs:2159-2175 | the same for a fetch |
| `LobReplies.MarkedLobFails` | src/connection.rs:4978-4987 | with a marker in front every LOB operation fails, whatever follows |
| `LobReplies.InterruptedLobExactly` | src/connection.rs:4974-4991 | a LOB operation that markers interrupt always fails, and fails as the uninterrupted one does exactly if the packets behind the cut are complete where all of them are and their misread error is the one that the whole response reports |
| `LobReplies.OtherMessageIsLost` | src/connection.rs:5526-5535 | unless the first message is an error message, nothing is said but that the operation failed |
| `LobReplies.LostDiffers` | src/connection.rs:5526-5535 | and no response comes to that without a marker |
| `LobReplies.FailureIsLost` | src/connection.rs:5526-5535 | an error message that reports a failure, with whatever cursor, code and text, comes to the same: code and text are lost |
| `LobReplies.FailureIsReported` | src/connection.rs:5461-5469 | without a marker the failure is reported, with the code and text named in the response |
| `LobCode.ParseLobResponse` | src/connection.rs:4834-4893 | the message loop of the operations computes the LOB function on every payload, also behind error messages it cannot read |
| `Answers.LobAnswers` | src/connection.rs:4834-4893 | from the bytes: the data, the number or the flag that was sent last |
| `Answers.LobFails` | src/connection.rs:4862-4872 | any code but zero fails the operation, with the text it says |
| `PacketAnswers.LobOnTheWire` | src/connection.rs:4970-4991 | reading and writing take a whole response, the other operations one packet |
| `LobCode.ParseLobError` | src/connection.rs:5526-5535 | the parser behind a marker returns the error of the misreading, or that the operation failed |
| `LobCode.ReceiveLob` | src/connection.rs:4974-4991 | an operation from its response on, with the RESET it sends and the state it leaves |
| `ErrorMessages.FieldsMoved` | src/connection.rs:4083-4164 | an error message reads the same, outcome and place, from a buffer that starts at any place before it |
| `ErrorMessages.PlainEndRoundTrip` | src/connection.rs:4083-4164 | an error message of a cursor, a code, a row count and a text reads back by both readers, whatever stands around it |
| `ServerMessages.EndRead` | src/connection.rs:4083-4166 | an error message with a value in every field, lists of failed rows and their texts included, is read as it was written |
| `ServerMessages.FetchEndRead` | src/connection.rs:2439-2515 | so it is by the reader of fetches, if no rows failed |
| `ServerMessages.ErrorRead` | src/connection.rs:4083-4206 | cursor and row count are those written, code and text those that the message says in its response |
| `ErrorTexts.NamedExactly` | src/connection.rs:4168-4180 | a failure says its own code and text if its text names an Oracle error, or else the first `ORA-` with five digits in the response and the line it is on, if that is not blank; and nothing else |
| `ErrorTexts.FoundAt` | src/connection.rs:4337-4355 | the search finds the five digits as a number and the line up to a line feed, a group separator or a zero |
| `ErrorTexts.RowErrorsTold` | src/connection.rs:4182-4197 | to each failed row belong row number, code and text in the same place of the three lists, and what the message says of the batch where a list is shorter or a text empty |
| `ErrorTexts.StandInText` | src/connection.rs:4191-4195 | the stand-in for a missing text is `ORA-` and five digits |
| `ServerMessages.SaysItsOwn` | src/connection.rs:4168-4180 | a message of code zero, with the name of an error in its text, or in a response that names none, says what it brings |
| `ErrorMessageCode.ParseErrorInfo` | src/connection.rs:4083-4206 | the reader computes layout, text and batch errors, position included |
| `ErrorMessageCode.ParseFetchEnd` | src/connection.rs:2439-2515 | the reader of fetches likewise |
| `Transport.Connection.SendMarker` | src/connection.rs:747-771 | the marker packet is written in the header form of the SDU mode |
| `WirePackets.MarkerBytes` | src/connection.rs:747-771 | the eleven bytes of a marker in both header forms; RESET is kind 2 |
| `Statements.FromScratchExactly` | src/messages/execute.rs:151-169 | a request parses its text and names no cursor exactly if the statement has none |
| `Statements.RequestExactly` | src/messages/execute.rs:151-169 | a statement goes by its cursor alone exactly if it has been executed under one and nothing about it or the options asks for more; a query that prefetches then fetches too; the text is sent exactly if it is to be parsed |
| `RecencyList.VictimIsLeastRecentIdle` | src/statement_cache.rs:153-165 | a full cache gives up the least recently touched idle entry and nothing else; no entry in use goes |
| `RecencyList.FullyInUseGrows` | src/statement_cache.rs:215-236 | putting a new statement into a full cache makes it larger exactly if every entry is in use |
| `RecencyList.PutExactly` | src/statement_cache.rs:126-163 | what is DDL or has no cursor leaves the cache as it is; anything else goes to its recent end, idle, and nothing new comes with it |
| `TouchOrder.OrderIsTouchOrder` | src/statement_cache.rs:92-189 | after every history of operations the list is in the order of the last touches |
| `TouchOrder.DroppedIsLeastRecent` | src/statement_cache.rs:215-236 | a statement that an operation drops was idle in a full cache, and was touched before every other idle one |
| `StatementCaches.StatementCache.Get` | src/statement_cache.rs:92-120 | the entry moves to the recent end, is marked, and is handed out unless it was in use |
| `StatementCaches.StatementCache.Put` | src/statement_cache.rs:126-163 | the stored map does to its list by recency what `RecencyList.Put` does |
| `StatementCaches.StatementCache.EvictLru` | src/statement_cache.rs:215-236 | the entry with the least time stamp among the idle ones is the first idle one by recency, although removal scrambles the storage |
| `StatementCaches.StatementCache.ReturnStatement` | src/statement_cache.rs:168-173 | the entry becomes idle in its place |
| `StatementCaches.StatementCache.MarkCursorClosed` | src/statement_cache.rs:181-189 | the entry loses its cursor in its place |
| `StatementCaches.StatementCache.Clear` | src/statement_cache.rs:194-197 | nothing is left |
| `CacheSharing.AlwaysSound` | src/connection.rs:1618-1684 | in every interleaving of the locked sections no cached entry and no statement held by a call has a cursor |
| `CacheSharing.EveryRequestIsFromScratch` | src/connection.rs:1537-1598 | hence every statement is first sent with its text, to be parsed, and names no cursor |
| `ServedStatements.AlwaysServes` | src/statement.rs:811-825 | in every interleaving each cached statement has its key for a text and a kind that this text was begun with, no cursor, and no columns but those of an answer to it; and so has each statement that a call holds, by the call's own text |
| `ServedStatements.TaskWasBegun` | src/connection.rs:1618-1636 | text and kind of call are those the call was begun with |
| `ServedStatements.ExecutesItsText` | src/connection.rs:1553-1561 | so a call executes the text it was made with, as the kind of statement that text is, and sends it to be parsed |
| `ServedStatements.ColumnsAreKept` | src/connection.rs:1650-1684 | a query answered for the first time leaves its columns in the cache for the next call, without the cursor |
| `CacheSharing.CacheSizeBoundInUse` | src/statement_cache.rs:215-236 | the cache never holds more than its size or one more than the largest number of entries in use at once |
| `CacheSharing.SequentialCallsStayWithinSize` | src/statement_cache.rs:153-155 | calls one after the other keep it within its size |
| `CacheSharing.CacheCanExceedItsSize` | src/statement_cache.rs:232-235 | a run in which a cache of size one holds two entries |
| `CacheSharing.EntryCanBeShared` | src/statement_cache.rs:144-149 | a run in which two calls hold the same entry |
| `CheckOut.StepKeepsGuarded` | src/statement_cache.rs:144-149 | a step from a world where no two calls hold one text and all that is held is in use leads to another one exactly if it does not store a statement under a text that another call holds |
| `CheckOut.GuardedExactly` | src/connection.rs:1618-1684 | so a run has been like that all along exactly if no step before did so |
| `CheckOut.CheckedOutOnce` | src/connection.rs:1618-1684 | in such a run two calls that hold one text are one call |
| `CheckOut.ThenTwoHold` | src/statement_cache.rs:92-120 | after the first such step the next call with the text is served while another holds it |
| `CheckOut.RunToTwoHolders` | src/statement_cache.rs:92-120 | so every run whose last step is the first of that kind goes on to one in which two calls hold one entry |
| `CachedCalls.SettleQuery` | src/connection.rs:1650-1684 | the end of a query does to the stored cache what the interleaving model's second section does |
| `CachedCalls.SettleExecute` | src/connection.rs:1563-1598 | the same for execute |
| `CachedCalls.SettleDml` | src/connection.rs:1714-1741 | the same for DML |
| `CachedCalls.BeginCall` | src/connection.rs:1618-1636 | the first locked section, on the stored cache, is that of the interleaving model |
| `CachedCalls.FinishQuery` | src/connection.rs:1645-1684 | whatever the answer and the fetches come to, the outcome is one the interleaving model admits, and no cached statement keeps a cursor |
| `Rows.PackVectorBit` | src/connection.rs:3722-3734 | bit `i % 8` of byte `i / 8` is the bit of column `i` |
| `Rows.BitsOfByte` | src/connection.rs:3722-3734 | and that is the bit with the value 1, 2, 4 and so on up to 128 |
| `Rows.RowRoundTrip` | src/connection.rs:3709-3755 | a row comes back from any choice of left-out columns that repeat the row before |
| `Rows.RowsComeBack` | src/connection.rs:2350-2430 | a whole response, with row headers or without, masks in bit-vector messages, in row headers or absent, row identifiers or none, yields the original rows, and the end of it decides whether there are more |
| `Answers.FetchSays` | src/connection.rs:2330-2437 | a fetch whose error message has code 0 or 1403 brings the rows sent, says whether there are more and under which cursor, and fails with code and text of the message otherwise |
| `Answers.FetchWithoutEnd` | src/connection.rs:2350-2430 | without an error message there may be more rows under the cursor asked |
| `RowDecoders.ParseRowData` | src/connection.rs:3709-3755 | the connection's row decoder computes the row function, position included |
| `RowDecoders.DecodeRow` | src/row.rs:608-642 | the second row decoder computes the same function, so the two agree on every buffer |
| `RowDecoders.ParseFetchResponse` | src/connection.rs:2350-2430 | the message loop computes the fetch function on every payload |
| `RowDecoders.ReadRowHeader` | src/connection.rs:2357-2375 | the skipped fields, the bit vector if there is one, and the row identifier |
| `RowDecoders.ReadVectorMessage` | src/connection.rs:2390-2399 | a count and one bit for each column |
| `QueryResponses.InterruptedQueryExactly` | src/connection.rs:2843-2861 | a query interrupted by markers always fails, and fails as the uninterrupted one does exactly if its payload starts with an error message that reports a failure and whose text, read behind two more fields and in their place, comes to the same |
| `QueryResponses.ParsersAgree` | src/connection.rs:4215-4244 | on every payload the query parser returns the error of the error parser exactly in that case |
| `QueryResponses.UsualFailure` | src/connection.rs:4157-4180 | with a zero in the first of those fields: exactly if the first Oracle error named in the response is that text |
| `QueryResponses.SuccessBecomesError` | src/connection.rs:4228-4237 | an error message that reports success, with whatever cursor and row count, makes the error ORA-00000 |
| `QueryResponses.RowsAreLost` | src/connection.rs:2850-2857 | a query whose one packet holds a row and a success delivers the row, and fails with a marker in front |
| `QueryResponses.DescriptionRead` | src/connection.rs:3037-3042 | the columns are what the bytes behind the length-prefixed head describe, and the reading goes on behind those |
| `QueryResponses.QueryRowsComeBack` | src/connection.rs:3003-3125 | from the bytes of a response: the rows come back in order under the columns known or described in front of them, masks in bit-vector messages undone, with encoded messages of other kinds before and behind; the first error message decides row count, cursor, whether there are more rows, or the failure |
| `QueryResponses.QueryWithoutEnd` | src/connection.rs:3100-3125 | without an error message the query succeeds with its rows and without a cursor |
| `QueryResponses.HeaderMaskIsIgnored` | src/connection.rs:3409-3425 | for every text, header and end: a payload from which the fetch parser reads two rows right, and the query parser takes four bytes of the error message for the second |
| `QueryCode.ParseRowHeader` | src/connection.rs:3409-3425 | the row header is passed over, its bit vector with it |
| `QueryCode.ParseQueryResponse` | src/connection.rs:3003-3125 | the message loop computes the query function on every payload |
| `QueryCode.ParseErrorResponse` | src/connection.rs:4215-4244 | nothing but an error comes of any payload: the one the error function gives |
| `QueryCode.ReceiveQuery` | src/connection.rs:2843-2861 | the end of a query computes the exchange the interruption result is about, with the RESET it sends and the state it leaves |
| `Draining.FetchMore` | src/connection.rs:2141-2175 | the answer's bytes, through the fetch parser, give the next rows of the cursor in order, and an end only if there is one |
| `Draining.FetchRemaining` | src/connection.rs:2919-2946 | success never claims more rows; all rows are there, once and in order, exactly if the first batch did not leave rows behind unasked; every fetch but the last was full |
| `Draining.PlainWireIsFaithful` | src/connection.rs:2330-2437 | for every codec that reads back what it wrote there is a server of the kind these results are about |
| `Draining.QueryAll` | src/connection.rs:2859-2946 | from the bytes a server writes for its first response and for the answers to its fetches, a query that succeeds has the whole table in order exactly if the first response held all of it or its error message named a cursor and there are columns; at most one further fetch per full batch; a failure in the first response is the query's |
| `Responses.ReturnParametersMoveOn` | src/connection.rs:3435-3452 | return parameters leave the cursor behind their start, and on an error byte if they had to search |
| `Responses.SearchFinds` | src/connection.rs:3516-3561 | the search settles on the first aligned error message, or else the last likely one |
| `Responses.FoundOnce` | src/connection.rs:3516-3561 | and that describes one place |
| `Responses.RoundsBounded` | src/connection.rs:4263-4317 | a response takes no more rounds than it has bytes, however often the parser goes back |
| `Responses.SearchKeepsOutcome` | src/connection.rs:3442-3451 | garbled return parameters do not lose the outcome: the answer is the one read from the aligned error message on |
| `Answers.AlignedExactly` | src/connection.rs:3520-3544 | an encoded error message is one that the search settles on exactly if nothing, a status or an end message follows it |
| `Answers.LikelyExactly` | src/connection.rs:3546-3560 | a 4 and two numbers are likely exactly if a byte 29 is anywhere behind |
| `Answers.GarbledParameters` | src/connection.rs:3435-3452 | bytes in the place of return parameters that make no sense and hold no 4 do not lose the row count of the error message behind them |
| `ResponseParsers.SkipSessionStateReturnParameter` | src/connection.rs:3516-3561 | both search loops, forwards and backwards, find the place and move there |
| `ResponseParsers.ParseReturnParameters` | src/connection.rs:3435-3452 | the parser that rewinds computes the return-parameter function |
| `ResponseParsers.ParseStandardReturnParameters` | src/connection.rs:3454-3514 | the loops over parameters, pairs and row counts end where the layout does |
| `ServerMessages.ParametersRead` | src/connection.rs:3454-3514 | encoded return parameters, with numbers, pairs of keys and values, a registration and row counts, are passed over to their end, and the row counts are told |
| `ServerMessages.ParametersWithoutCounts` | src/connection.rs:3499-3513 | row counts that were asked for but not sent are not made up if fewer than four bytes follow |
| `ResponseParsers.ParseServerSidePiggyback` | src/connection.rs:3563-3683 | where each kind of piggybacked message ends, and that others are refused |
| `ServerMessages.PiggybackRead` | src/connection.rs:3563-3683 | each of the nine kinds of piggybacked message, encoded with a value in every field, is passed over to its end |
| `ResponseParsers.ParseMessage` | src/connection.rs:4263-4317 | one round of the loops: what the message tells and where the next one starts |
| `ServerMessages.QuietMessage` | src/connection.rs:4289-4316 | encoded parameters, piggybacks, statuses, bit vectors and bytes of unknown kind tell a DML statement or a batch nothing but row counts |
| `ResponseParsers.ParseDmlResponse` | src/connection.rs:4247-4325 | the DML loop terminates on every payload with the answer of the message function |
| `Answers.DmlSucceeds` | src/connection.rs:4263-4325 | from the bytes: without a failure the answer has row count and cursor of the last error message, or none of either |
| `Answers.DmlFails` | src/connection.rs:4265-4280 | the first error message that reports a failure fails the statement with the code and the text it says, whatever is behind it |
| `PacketAnswers.Delivered` | src/connection.rs:2974-2991 | from the packets: flags and bodies are delivered whole, wherever markers interrupt them once |
| `PacketAnswers.DmlOnTheWire` | src/connection.rs:2974-2991 | a DML statement from the packets of its response, interrupted or not, to the row count and cursor of its last error message |
| `PacketAnswers.DmlFailsOnTheWire` | src/connection.rs:2974-2991 | or to the code and the text of the first failure |
| `PacketAnswers.ParsedOnTheWire` | src/connection.rs:2159-2175 | a fetch or a query comes to what its parser makes of that payload |
| `ResponseParsers.ParseBatchResponse` | src/connection.rs:2028-2124 | the batch loop likewise, with row counts, tolerated errors, and how many rows succeeded and failed |
| `Answers.BatchReports` | src/connection.rs:2028-2124 | from the bytes: the last row count, the row counts told last, and every failed row with the code and the text in its place; all other rows have succeeded |
| `Answers.BatchFails` | src/connection.rs:2055-2068 | a failure that is not borne fails the batch with the code and the text it says |
| `PacketAnswers.BatchOnTheWire` | src/connection.rs:1990-2025 | the same from the packets on |
| `BindScanning.BindListLaws` | src/statement.rs:599-703 | a PL/SQL block names each bind once; return binds come last, and only in DML with RETURNING INTO |
| `BindScanning.LiteralIsTransparent` | src/statement.rs:613-626 | the scanner reads exactly the literal of any text and has found nothing in it |
| `BindScanning.LiteralRoundTrip` | src/ffi.rs:422-433 | the literal of a text denotes the text |
| `SqlLexing.CommentsAgree` | src/statement.rs:642-659 | the scanner leaves a closed block comment at its end exactly if it does not end in a slash and no two dashes stand on its last line |
| `SqlLexing.ScannerFindsTheBinds` | src/statement.rs:599-703 | on ASCII text with tight colons, such comments, quoted identifiers without anything the scanner notices, and literals with delimiters of their own that hold no quote, the scanner finds the binds that the rules of SQL give, flags included |
| `SqlLexing.IdentifierTakenForBind` | src/statement.rs:673-694 | a quoted identifier in which the scanner finds a bind |
| `SqlLexing.DashesHideABind` | src/statement.rs:628-633 | a statement whose bind the scanner misses |
| `BindScanner.ParsedStatement.ParseBindVariables` | src/statement.rs:599-703 | the loop over flags and position computes the scan |
| `BindScanner.MatchKeyword` | src/statement.rs:706-734 | the keyword stands there with no letter or digit on either side |
| `BindScanner.ExtractBindName` | src/statement.rs:737-794 | the name behind a colon: quoted, numeric or regular |
| `StatementTexts.RegularName` | src/statement.rs:774-793 | behind blanks a letter and then letters, digits, `_`, `$` and `#`, in upper case |
| `StatementTexts.NumericName` | src/statement.rs:765-772 | or digits |
| `StatementTexts.QuotedName` | src/statement.rs:751-763 | or what stands between double quotes, as it is written |
| `StatementTexts.NoName` | src/statement.rs:774-777 | and nothing else is a name |
| `StatementTexts.LengthOfEncoding` | src/statement.rs:673-695 | a name is skipped by the length of its encoding in UTF-8 |
| `StatementTexts.EncodingIsValid` | src/buffer/read.rs:411-419 | every text in UTF-8 passes the check of length-prefixed texts |
| `StatementTexts.ValidIsEncoding` | src/buffer/read.rs:411-419 | and what passes it is some text in UTF-8 |
| `BindScanner.SqlLiteral` | src/ffi.rs:422-433 | the loop doubles every quote and adds two |
| `BindScanner.ParsedStatement.constructor` | src/statement.rs:573-596 | the kind by the first word, and the bind list of the scan unless the statement is DDL |
| `StatementTexts.KindByFirstWord` | src/statement.rs:573-596 | a statement is a query, DML, DDL or PL/SQL exactly by the lists of first words, in whatever case and behind whatever blanks |
| `StatementTexts.BlankIsUnknown` | src/statement.rs:573-588 | blanks alone are of no kind |
| `ConnectStrings.PrintThenParse` | src/config.rs:488-499 | printing and parsing lead back to the target exactly under the stated conditions on host, service name and SID |
| `ConnectStrings.ParseThenPrint` | src/config.rs:401-485 | what was parsed prints to something that parses to it again, exactly if the text, out of the blanks around it and the slashes in front, does not start with a blank |
| `ConnectStrings.BlankHostIsLost` | src/config.rs:401-485 | a text whose target does not come back |
| `ConnectStrings.ShortForms` | src/config.rs:388-485 | a host alone, with a service, with a port, and with both behind two slashes; what is left out is port 1521 and service FREEPDB1 |
| `ConnectStrings.RefusedForms` | src/config.rs:401-485 | nothing but blanks, a descriptor, a port that is no number, too many colons, and no host are refused, each as what it is |
| `ConnectStrings.DescriptorTexts` | src/config.rs:343-364 | the descriptor of a service name and of a SID, character by character |
| `ConnectStrings.DescriptorTellsTarget` | src/config.rs:343-364 | two targets with one descriptor are one target, if their hosts have no parenthesis and no port key in them |
| `ConnectStrings.AddressReadBack` | src/messages/redirect.rs:92-113 | host and port are read back from a descriptor, or a bare address, exactly if the host has no closing parenthesis and no port key that leads elsewhere |
| `ConnectStringCode.FromStr` | src/config.rs:401-485 | the parser that fills a configuration in field by field computes the parse function, each error in its place |
| `ConnectStringCode.BuildConnectString` | src/config.rs:343-364 | the pushed parts join to the descriptor |
| `ConnectStringCode.ExtractAddress` | src/messages/redirect.rs:92-113 | the two searches read the fields the read-back result is about |
| `Logon.FirstAnswerSuffices` | src/messages/auth.rs:412-476 | after an accepted first answer nothing is missing for the second request, which can be made unless a cipher fails |
| `ServerAnswers.AnswerRead` | src/messages/auth.rs:412-448 | an encoded answer is read as its entries, the last of those with one key counting, and the verifier is the flags of the verifier data |
| `ServerAnswers.HexEitherCase` | src/messages/auth.rs:516-607 | digits are read in upper and lower case |
| `ServerAnswers.FirstAnswerAgrees` | src/messages/auth.rs:516-607 | the first answer of an honest server, 12c or 11g, is accepted; the server can decrypt the client's key part, and both make the same combo key |
| `ServerAnswers.SecondRequestProves` | src/messages/auth.rs:232-261 | the second request decrypts under that key to the salted password and, in 12c, to the speedy data |
| `LogonMessages.AuthMessage.BuildPhaseTwo` | src/messages/auth.rs:232-261 | the second request is made exactly if the keys are there and the ciphers succeed |
| `LogonMessages.AuthMessage.ParseResponse` | src/messages/auth.rs:412-476 | what an accepted answer leaves, and that the phase has moved on even when the answer is refused |
| `LogonMessages.AuthMessage.VerifyServerResponse` | src/messages/auth.rs:671-699 | the server's answer is absent or decrypts under the combo key to its mark |
| `ServerAnswers.ProofExactly` | src/messages/auth.rs:671-699 | an answer is accepted exactly if it gives no proof, or one that is hexadecimal and decrypts to sixteen bytes, SERVER_TO_CLIENT, and anything |
| `ServerAnswers.SecondAnswerCompletes` | src/messages/auth.rs:671-699 | so the second answer of an honest server completes the logon |
| `LogonMessages.AuthMessage.GenerateVerifier` | src/messages/auth.rs:516-607 | the keys that data, verifier and ciphers lead to, or a refusal |
| `Handshake.ReadyExactlyIfLoggedOn` | src/connection.rs:1459-1507 | in every run a session is ready exactly if two answers in a row were accepted, the server's proof checked under the keys of the first, and since then the stream has not broken and the program not closed it |
| `Handshake.RequestsInOrder` | src/connection.rs:1054-1091 | in every run CONNECT is sent at most four times, and a session that was established held one of six conversations, ending with the proof of the password |
| `Handshake.ResendsFollowed` | src/connection.rs:1134-1226 | three requests to resend are followed, the fourth fails the handshake |
| `Handshake.ClosedForGood` | src/connection.rs:459-513 | a session closed by a broken stream or by the program stays closed |
| `Handshake.StreamsAreSafe` | src/connection.rs:1054-1091 | whatever the server sends the handshake ends, ready or failed, and ready exactly if its last two answers log the client on |
| `HonestServer.Greeted` | src/connection.rs:1134-1226 | up to three resends and the server's terms: large packets from version 315, the out-of-band check from 318 if both sides can, the fast logon if offered, the packet size up to 65535 |
| `HonestServer.SlowHandshake` | src/connection.rs:1054-1091 | from the bytes of a server that follows the protocol: the session is ready under its terms, the requests were sent in their order, and both sides hold one combo key |
| `HonestServer.FastHandshake` | src/connection.rs:1334-1458 | the same for a fast answer with messages about protocol and data types in front of the first answer |
| `HonestServer.RenegotiatedHandshake` | src/connection.rs:1334-1458 | and for a server that answers the fast logon with the wish to negotiate again |
| `HonestServer.ThereIsAnHonestServer` | src/messages/auth.rs:412-476 | wherever the ciphers do not fail there is a server of the kind these results are about |
| `HonestServer.GoesOnExactly` | src/connection.rs:1134-1290 | which packets the handshake goes on with while it waits for the terms, the protocol and the data types, and no others |
| `HonestServer.RefusedLogon` | src/connection.rs:1293-1490 | an error message ends the logon in both phases, a marker in the second, and so does a packet with nothing in it |
| `HonestServer.FastRefused` | src/connection.rs:1334-1458 | a fast answer with a message of unknown kind, or with no answer to the logon, ends the handshake |
| `HandshakeCode.Client.SendConnectPacket` | src/connection.rs:1134-1226 | the resend loop goes as the machine goes |
| `HandshakeCode.Client.SendOobCheck` | src/connection.rs:1095-1131 | any answer will do; the machine goes on to negotiate |
| `HandshakeCode.Client.NegotiateProtocol` | src/connection.rs:1230-1264 | the step goes as the machine goes, or fails with it |
| `HandshakeCode.Client.NegotiateDataTypes` | src/connection.rs:1267-1290 | the same for the data types |
| `HandshakeCode.Client.Authenticate` | src/connection.rs:1293-1332 | both phases go as the machine goes, from a new logon to a ready session or a failure |
| `HandshakeCode.Client.AuthenticateWithFastAuth` | src/connection.rs:1334-1458 | the combined request and its loop over messages go as the machine goes, to a logon, a renegotiation or a failure |
| `HandshakeCode.Client.AuthenticatePhaseTwo` | src/connection.rs:1459-1490 | the second phase goes as the machine goes; on a logon in another phase nothing happens |
| `HandshakeCode.Client.FinishAuthentication` | src/connection.rs:1492-1507 | only a complete logon makes the session ready, and leaves its combo key and the sequence number two |
| `HandshakeCode.Client.Close` | src/connection.rs:5566-5589 | the first close logs a ready session off and goes as the machine goes, the second does nothing |
| `WirePackets.LogoffBytes` | src/connection.rs:5566-5589 | the logoff request byte by byte, with a zero more from field version 18 on |
| `HandshakeCode.Client.PerformHandshake` | src/connection.rs:1054-1091 | the whole handshake ends as the machine does on every stream |

## Left out

- Sockets, TLS, asynchronous scheduling and logging: the server is a finite byte stream, a write
  never fails on an open connection, and each locked section is one step.
- Transport.Connection.SendMultiPacket: a payload under an SDU of exactly ten bytes is excluded, with
  which the loop never ends. Below that the subtraction wraps around, as in a release build.
- Transport.Connection.SendLobMessage: excludes the same case.
- CacheSharing.EveryRequestIsFromScratch: speaks of the request a call starts with. A query with
  LOB columns is sent again with column defines under the cursor it has just been given.
- CacheSharing.AlwaysSound: its steps admit no answer that reports more rows;
  `CachedCalls.FinishQuery` proves that there is none.
- SqlLexing.ScannerFindsTheBinds: ASCII text without blanks or double quotes behind colons, in one
  direction. Names are skipped by their length in UTF-8, which for other text is not the number
  of characters; and a comment or an identifier that the scanner misreads does no harm if nothing
  of note is behind it, so the exact condition is proved for each comment
  (`SqlLexing.CommentsAgree`) and not for the text.
- Draining.FetchRemaining: a fetch size of zero is excluded, with which the loop may never end; the
  driver fetches a hundred rows at a time.
- Draining.QueryAll: the server is one that sends rows so that they can be told from the bytes
  (`Draining.PlainWireIsFaithful` gives one); where it refuses a fetch or does not answer, the query
  fails and nothing is said of the rows.
- QueryResponses.QueryRowsComeBack: in one direction. A row that a header mask has made shorter may
  by chance be followed by bytes that read as the missing value.
- QueryCode.ReceiveQuery: the second round of a query with LOB columns, which goes through the same
  path once more, is not part of it.
- HandshakeCode.Client.Close: the BREAK handling of the function message it sends concerns other
  functions than logoff, and nothing sends those.
- ResponseParsers.ParseStandardReturnParameters: the session values that pairs hold are passed over
  and not recorded.
- LogonMessages.AuthMessage.BuildPhaseTwo: the request is a record of the proofs in it; its bytes
  are not built.
- Rows.RowsComeBack: the columns' own formats are an abstract codec that consumes what it wrote.
- ErrorMessages.PlainEndRoundTrip: writes no batch errors and no numbers besides cursor, code and row
  count; `ServerMessages.EndRead` has all fields. Strings stand by their UTF-8 bytes; taking blanks off
  them and replacing what is not UTF-8 are given functions.
- ServerMessages.FetchEndRead: a message without failed rows. The reader of fetches takes such lists
  for chunked values.
- Answers.BatchReports: the three lists of a message are equally long and no text is blank;
  `ErrorTexts.RowErrorsTold` says what is filled in otherwise.
- Answers.LobAnswers: error messages as older servers send them. The two newer numbers of a success,
  if they are zero, are two bytes that are not looked at.
- Answers.GarbledParameters: of all bytes that make no sense, those that start with a number of more
  than two bytes and hold no 4; `Responses.SearchKeepsOutcome` is for any.
- HonestServer.SlowHandshake: the ciphers decrypt what they encrypted and do not fail. A server that
  gives no proof, which the client accepts too, is covered by `ServerAnswers.ProofExactly`.
- StatementTexts.KindByFirstWord: words of ASCII characters, with an ASCII blank behind them or nothing.
- LobReplies.FailureIsLost: an error message without a row count, on a server that sends the two newer
  fields. A text of up to four bytes, or of 128 to 132, is left out: its length fits a list.
- LobCode.ParseLobResponse: the parsers of the operations in one loop; creating a temporary LOB, whose
  locator has a length of its own, is not part of it, nor is the decoding of the data.
- LogonMessages.AuthMessage.VerifyServerResponse: AES, PBKDF2, SHA and the random generator are
  parameters; slices of key material that would be too short are not modelled.
- HandshakeCode.Client.PerformHandshake: requests are recorded by kind, not by their bytes;
  `Packet::from_bytes` is not part of this model, so the reading of the ACCEPT packet is a given
  function, as are the lengths of protocol and data-type messages.
- The length field of a rebuilt response over 65535 bytes wraps around and is modelled so, but no
  caller reads it and nothing is stated of it.
- The session identity, values and transaction identifier that piggybacked messages record, and the
  columns' names.
- Number, date, LOB, OSON, vector and collection formats; describe information.
- The binds' values in execute requests, and the request fields besides text, parse and cursor.
- DRCP, implicit results, scrollable cursors, batch building, the C interface and the shell: easy
  or data only.
