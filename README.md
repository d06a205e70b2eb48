# Chat server model

A Dafny model of a small client–server chat system written in Python. The
repository ships four server variants that share one set of concepts:
accounts with a hashed password and an inbox of undelivered messages,
a table of logged-in sessions, optional per-pair conversation histories,
and a command loop per connection.

* `server.py` — newline-delimited JSON requests; numbered messages with
  timestamps, conversation histories, push of a `chat` frame to an online
  recipient (`ServerPy`).
* `JSON_impl/server.py` — the same wire format; inbox entries are
  `(sender, text)` pairs and `read` sends one frame per message
  (`JsonServer`).
* `Server/chat_server.py` with `Server/handlers.py` and
  `Server/data_store.py` — the same protocol split into a router and a
  handler per command (`ChatServerMain`, `Handlers`, `DataStore`).
* `Custom_impl/server_custom.py` with `Custom_impl/protocol_custom.py` —
  a binary protocol: a 3-byte header (command byte, big-endian 16-bit
  payload length), length-prefixed short (1-byte length) and long (2-byte
  length) strings (`ServerCustom`, `ProtocolCustom`), and the client-side
  request packers of `Custom_impl./client_custom.py` (`ClientCustom`).

Each server is a class whose fields are the dictionaries the Python code
mutates (`users`, `active_users`, `conversations`, `next_msg_id`), with a
`Valid()` invariant (the account names are distinct and match the `users`
keys, every session belongs to an account, message ids increase, history
keys are sorted pairs) that every handler preserves. Every handler states
its whole new state and the exact replies it sends, per branch of the
source. A connection is a value: the bytes or text chunks `recv` would
return, in order. Replies are records naming the connection they go to;
a push to another user's session is a reply addressed to that session.
The JSON object of a request is a record `Request(cmd, from, to, body,
password)` whose `body` is absent, `null`, a string, a number or a list of
integers, and `json.loads` is a parameter `parse`. The password hash, the
rendering of a conversation as text, the clock and whether a push to a
recipient's socket fails are parameters too.

Shared pieces: `Seqs` (Python slicing, filters, `split`/`join`, dropping
positions), `Maps` (updating or deleting dictionary entries in a loop),
`Pairs` (`tuple(sorted([a, b]))` as a canonical key), `PyText` (`strip`,
`isdigit`, `int()` of a string, `f"{n}"`, the comma-separated id lists),
`LineFraming` (the `read_messages` generator), `JsonRequest` (how each
server reads the `body` field), `Bytes` (big-endian 16-bit fields),
`Sessions` (which received lines of a JSON connection become requests,
and the trace of turns a `handle_client` loop takes over them).

Each `handle_client` loop returns, besides the replies it sent, a ghost
trace of turns: for every handled request the state before and after,
how the handler ended and what it sent. Its contract says the turns take
the requests of the connection in order, each doing what the server's
single-request handler states, and that the replies are the turns'
replies in order.

## Model

| member | source | states |
|---|---|---|
| Bytes.BigEndian16RoundTrip | Custom_impl/protocol_custom.py:38-51 | the 2-byte big-endian length field written by `pack_long_string` reads back to the same number wherever it sits in a buffer |
| ProtocolCustom.PackShortString | Custom_impl/protocol_custom.py:23-28 | succeeds exactly when the string has at most 255 bytes; the result is the length byte followed by the string; a longer string is the `ValueError` |
| ProtocolCustom.UnpackShortString | Custom_impl/protocol_custom.py:30-36 | fails exactly when the offset is past the end; otherwise returns the bytes after the length byte (truncated by Python slicing when the buffer is short) and the offset advanced by the declared length |
| ProtocolCustom.PackLongString | Custom_impl/protocol_custom.py:38-43 | succeeds exactly when the string has at most 65535 bytes; the result is the 2-byte big-endian length and the string |
| ProtocolCustom.UnpackLongString | Custom_impl/protocol_custom.py:45-51 | fails exactly when fewer than 2 bytes remain; otherwise returns the slice after the length field and the offset advanced by the declared length |
| ProtocolCustom.UnpackShortOfPacked | Custom_impl/protocol_custom.py:23-36 | unpacking a packed short string at its position gives back the string and the offset just after it, whatever precedes or follows |
| ProtocolCustom.UnpackLongOfPacked | Custom_impl/protocol_custom.py:38-51 | the same round trip for long strings |
| ProtocolCustom.EncodeMessage | Custom_impl/protocol_custom.py:54-62 | succeeds exactly when the command fits a byte and the payload fits 65535 bytes; the frame is the command byte, the big-endian payload length, then the payload |
| ProtocolCustom.DecodedOfEncoded | Custom_impl/protocol_custom.py:54-86 | decoding the byte stream that starts with an encoded frame gives back its command and payload, whatever follows |
| ProtocolCustom.DecodedOfTruncated | Custom_impl/protocol_custom.py:64-86 | every proper prefix of an encoded frame is a connection-closed error |
| ProtocolCustom.Recv | Custom_impl/protocol_custom.py:72-76 | `sock.recv(n)` returns at most `n` bytes, returns nothing only when the peer has closed, and loses no byte of the stream |
| ProtocolCustom.ReceiveExactly | Custom_impl/protocol_custom.py:72-85 | the receive loop returns exactly `n` bytes unless the stream ends first, and the bytes received plus the rest are the original stream |
| ProtocolCustom.DecodeMessage | Custom_impl/protocol_custom.py:64-86 | the result depends only on the concatenated bytes, not on how `recv` chunks them; a decoded frame re-encodes to exactly the bytes consumed |
| ProtocolCustom.DecodeAnyChunking | Custom_impl/protocol_custom.py:64-86 | for every chunking of an encoded frame followed by more bytes, decoding returns the frame and leaves exactly the following bytes |
| ProtocolCustom.FramesIn | Custom_impl/protocol_custom.py:64-86 | the frames `decode_message` returns call after call on a connection that then closes; none exactly when the first call fails |
| ProtocolCustom.FramesInOfEncoded | Custom_impl/protocol_custom.py:54-86 | an encoded frame in front of any bytes is the first frame taken, and the later frames are those of the bytes behind it |
| ProtocolCustom.FramesInOfEncodeAll | Custom_impl/protocol_custom.py:54-86 | frames sent one after another are taken back as exactly those frames, in order, followed by those of whatever comes after |
| ProtocolCustom.EncodeAllStep | Custom_impl/protocol_custom.py:54-86 | the first of several encoded frames is taken first, then the frames of the rest |
| ClientCustom.PackRead | Custom_impl./client_custom.py:24-26 | a read request packs exactly when the name fits 255 bytes and the limit fits a byte; the limit is the last byte |
| ClientCustom.DeleteMsgPayload | Custom_impl./client_custom.py:28-33 | packs exactly when the name fits, there are fewer than 256 indices and each fits a byte; the count byte follows the name and each index is one byte |
| ClientCustom.PackDeleteMsg | Custom_impl./client_custom.py:28-33 | the byte-per-index loop builds exactly `DeleteMsgPayload` |
| CustomRoundTrips.LoginRoundTrip | Custom_impl./client_custom.py:15-19 | login and create requests are identical, pack exactly when both fields fit 255 bytes, and the server's parser gets back the name and password |
| CustomRoundTrips.ViewConvRoundTrip | Custom_impl./client_custom.py:35-36 | a view-conversation request packs exactly when both names fit, and the server reads back both names |
| CustomRoundTrips.SendRoundTrip | Custom_impl./client_custom.py:21-22 | a send request packs exactly when the names fit 255 bytes and the text 65535, and the server's parser returns sender, recipient and text |
| CustomRoundTrips.ReadRoundTrip | Custom_impl./client_custom.py:24-26 | the server's read parser returns the packed name and limit |
| CustomRoundTrips.DeleteMsgRoundTrip | Custom_impl./client_custom.py:28-33 | the server's delete parser returns the packed name and the indices in order |
| CustomRoundTrips.ShortOnlyRoundTrip | Custom_impl./client_custom.py:38-45 | delete-account, logoff and close requests are the same single short string, and the server reads back the name |
| CustomRoundTrips.MessagePayloadRoundTrip | Custom_impl/server_custom.py:108-110 | a delivered message frame unpacks to its sender (short string) followed by its text (long string) filling the payload |
| CustomRoundTrips.OfflineDeliveryScenario | Custom_impl/server_custom.py:61-113 | a message sent to an offline user is delivered at that user's next login and read: the login reports 1 unread message, the read sends the message frame and then the end marker |
| ServerCustom.ParseTwoShort | Custom_impl/server_custom.py:33-35 | two consecutive short strings parse exactly when a byte remains after the first one's declared length; both results fit 255 bytes |
| ServerCustom.ParseSend | Custom_impl/server_custom.py:63-66 | a send payload parses exactly when the two names parse and 2 bytes remain for the text length; the results fit their fields |
| ServerCustom.ParseRead | Custom_impl/server_custom.py:91-94 | a read payload parses exactly when it is non-empty; the limit is the byte after the name, or 0 when there is none |
| ServerCustom.DeleteMsgRequest | Custom_impl/server_custom.py:138-146 | parses exactly when the count byte and that many index bytes are present; the indices are those bytes |
| ServerCustom.ParseDeleteMsg | Custom_impl/server_custom.py:138-146 | the byte-by-byte loop computes `DeleteMsgRequest` |
| ServerCustom.MessagePayload | Custom_impl/server_custom.py:108-110 | a message is deliverable exactly when the sender fits 255 bytes and the frame fits 65535; the payload length is `3 + sender + text` |
| ServerCustom.MessageFramesInOrder | Custom_impl/server_custom.py:108-110 | the delivered frames carry the inbox messages in order, one frame per message, stopping exactly at the first undeliverable one |
| ServerCustom.SendMessages | Custom_impl/server_custom.py:108-110 | the send loop builds exactly `MessageFrames` and reports completion exactly when every message was deliverable |
| ServerCustom.TakeMessages | Custom_impl/server_custom.py:97-102 | the inbox is split into the messages sent and those kept; a limit of 0 sends all, a positive limit sends `min(limit, n)` |
| ServerCustom.SearchText | Custom_impl/server_custom.py:162 | no match gives "No matching users"; otherwise splitting the reply at commas gives back the names, unless a name itself holds a comma |
| ServerCustom.CustomServer.MatchingNames | Custom_impl/server_custom.py:21-23 | exactly the account names the wildcard matches, each once, in registration order |
| ServerCustom.CustomServer.Login | Custom_impl/server_custom.py:31-47 | unknown name, wrong password and success replies; success records the session and reports the inbox size; a duplicate login replaces the session; a malformed payload raises |
| ServerCustom.CustomServer.Create | Custom_impl/server_custom.py:48-60 | an existing name is refused and leaves everything unchanged; otherwise the account is added with the hashed password and an empty inbox; a malformed payload raises |
| ServerCustom.CustomServer.Send | Custom_impl/server_custom.py:61-87 | the message is appended to the pair's history first; an unknown recipient then gets "Recipient not found"; otherwise it is pushed to the recipient's session or, when offline or the push fails, queued in the inbox; a malformed payload raises |
| ServerCustom.CustomServer.Read | Custom_impl/server_custom.py:89-118 | the taken messages leave the inbox and are sent as frames in order with the end marker, or "NO_MESSAGES"; the server then waits for an acknowledgement; an unknown user or a malformed payload raises before anything is sent, a message too long for a frame raises after the frames before it |
| ServerCustom.CustomServer.ViewConv | Custom_impl/server_custom.py:122-135 | an unknown other user gets "User not found"; otherwise the rendered history of the sorted pair is sent; a history too long for one frame or a malformed payload raises; nothing changes |
| ServerCustom.CustomServer.DeleteMsg | Custom_impl/server_custom.py:136-152 | an existing user's inbox loses exactly the listed positions, order kept; unknown users are untouched; the reply is always the same; a malformed payload raises |
| ServerCustom.CustomServer.SearchUsers | Custom_impl/server_custom.py:153-165 | replies with `SearchText` of the matching names; a reply too long for one frame or a malformed payload raises; nothing changes |
| ServerCustom.CustomServer.DeleteAccount | Custom_impl/server_custom.py:166-181 | unknown user and non-empty inbox are refused without change; otherwise the account and its session are removed and histories are kept; a malformed payload raises |
| ServerCustom.CustomServer.Logoff | Custom_impl/server_custom.py:182-189 | the session is removed if present and the reply is sent either way; a malformed payload raises |
| ServerCustom.CustomServer.Handle | Custom_impl/server_custom.py:28-195 | each command byte reaches its own branch, which changes the state and sends exactly what that command's row states; close ends the loop without change; every other code, the read acknowledgement among them, gets "Unknown command" with code 0; only read waits for an acknowledgement |
| ServerCustom.CustomServer.HandleClient | Custom_impl/server_custom.py:24-195 | the turns take the frames decodable from the stream in order, each from the state the previous turn left and doing what `Handle` states; after a read the next frame is taken as its acknowledgement and is not handled; only a close or a raise leaves frames untaken; `sent` is every turn's frames in order; a stream without a frame changes nothing and sends nothing |
| ServerCustom.CustomServer.Serve | Custom_impl/server_custom.py:27-195 | one pass of the loop: with no decodable frame left it stops and changes nothing; otherwise the handled request is the first pending frame, the turn does what `Handle` states, a read takes the next frame as its acknowledgement, and the loop goes on exactly after a continue or an acknowledged read, with less pending |
| ServerCustom.FramesTaken | Custom_impl/server_custom.py:27-118 | one more turn takes its request and its acknowledgement from the front of what was pending, and its frames follow those sent before |
| ServerCustom.ProgressTurn | Custom_impl/server_custom.py:27-195 | after a turn that goes on, the turns so far have taken their frames in order, each from the state the previous one left, and what is pending is the rest of the stream |
| ServerCustom.ProgressStop | Custom_impl/server_custom.py:27-195 | a turn that closes, raises or finds no acknowledgement ends a connection served as `HandleClient` states |
| ServerCustom.ServedAt | Custom_impl/server_custom.py:27-195 | where the loop ends with frames pending, the last turn closed or raised, and the connection is served |
| ServerCustom.ProgressEnd | Custom_impl/server_custom.py:27-29 | when no frame is left the connection is served, and a stream without a frame leaves the state unchanged and sends nothing |
| ServerCustom.NextRequest | Custom_impl/server_custom.py:28-29 | takes a frame exactly when one can be decoded from what is pending; the frame is the first pending one, the rest are what is left, and what is left strictly shrinks; with none, nothing stays pending |
| DataStore.MatchingUsers | Server/data_store.py:14-18 | `fnmatch.filter`: exactly the names the pattern matches, in their original order |
| DataStore.StarMatchesAll | Server/data_store.py:14-18 | `*` matches every name |
| DataStore.LiteralMatchesItself | Server/data_store.py:14-18 | a pattern without wildcards matches exactly itself |
| DataStore.DefaultPatternListsAll | Server/data_store.py:14-18 | the default pattern lists every account, in order |
| DataStore.ListScenario | Server/data_store.py:14-18 | `a*` over `alice, adam, bob` lists `alice, adam` |
| Seqs.SplitOfJoin | Server/chat_server.py:55-56 | splitting at a separator that occurs in no part gives back the parts that were joined |
| Seqs.DropPositionsSelectsSurvivors | JSON_impl/server.py:190 | `[m for i, m in enumerate(msgs) if i not in indices]` keeps exactly the positions not listed, in increasing order |
| Seqs.SliceTo | JSON_impl/server.py:160 | Python's `s[:k]`: a prefix of `min(k, n)` for `k >= 0` and `max(n + k, 0)` for negative `k` |
| Seqs.SliceFrom | JSON_impl/server.py:161 | Python's `s[k:]`: what `s[:k]` leaves |
| Seqs.Remove | JSON_impl/server.py:202 | removing a name keeps every other name and the order, and keeps names distinct |
| Seqs.FilterIsSubsequence | Server/data_store.py:18 | a list comprehension with a condition keeps a subsequence of its input |
| Maps.UpdateWhere | server.py:190-193 | the loop over the conversation keys rewrites exactly the entries whose key satisfies the condition |
| Maps.RemoveWhere | server.py:231-233 | the loop deletes exactly the entries whose key satisfies the condition and keeps the rest |
| Pairs.SortedPair | server.py:116 | `tuple(sorted([a, b]))` is one of the two orders and its first component is lexicographically not greater |
| Pairs.SortedPairSymmetric | server.py:116 | both people in a conversation compute the same key |
| PyText.Decimal | JSON_impl/server.py:104-105 | `f"{n}"` is a string of digits with no leading zero whose value is `n` |
| PyText.ParseIntOfDecimal | server.py:155 | `int()` of a decimal string gives back the number |
| PyText.ParseIntOfNegativeDecimal | server.py:155 | `int()` of a minus sign and a decimal string gives back the negative number |
| PyText.StripNoSpace | server.py:182 | `strip()` (whose whitespace is that of `str.isspace()`, the separators 28-31 and the Unicode spaces included) and the whitespace skip of `int()` leave a string that neither starts nor ends with their whitespace unchanged |
| PyText.StripSurrounding | server.py:182 | `strip()` removes exactly the whitespace around a string that neither starts nor ends with it |
| PyText.SeparatorStripped | server.py:182 | a body of character 28 followed by `5` gives the id list `[5]`, because `strip()` removes the separator, while `int()` of the same two characters (as at server.py:155) fails |
| PyText.CommaIdsOfJoin | server.py:182 | parsing the comma-joined decimals of a list of ids gives back that list |
| PyText.DigitTokensAppend | server.py:182 | the comprehension over the split pieces distributes over concatenation |
| JsonRequest.ReadLimit | server.py:151-157 | a falsy body gives no limit; a number is the limit (0 means none); a string is `int()` of it or none when it does not parse; a non-empty list raises |
| JsonRequest.ListPattern | server.py:107-108 | a missing body is `*`, a string is the pattern, anything else makes `fnmatch` raise |
| JsonRequest.CommaIdList | server.py:180-182 | a missing body is no ids, a string is its comma-separated digit tokens, anything else raises |
| JsonRequest.IndexList | JSON_impl/server.py:176-186 | a list body is used as given, a string or missing body is parsed as ids, a number is "Invalid indices" |
| JsonRequest.TakeSlice | JSON_impl/server.py:158-164 | the inbox splits into messages read and kept; no limit reads all; a non-negative limit reads `min(limit, n)`, a negative one keeps `min(-limit, n)` |
| JsonRequest.ReadOut | JSON_impl/server.py:166-167 | one `read` frame per message, in order, with the sender as source and the text as body |
| JsonRequest.ListReply | Server/handlers.py:113-118 | a string or missing body lists the names `fnmatch` selects, in registration order and comma-joined, in one reply; any other body raises and nothing is sent |
| LineFraming.LinesAreSplit | Server/chat_server.py:42-58 | the complete lines and the leftover are exactly `split("\n")` of what was received |
| LineFraming.YieldLines | Server/chat_server.py:54-57 | the inner loop moves every complete line out of the buffer and loses no character |
| LineFraming.ReadMessages | Server/chat_server.py:42-58 | the lines yielded, each with a newline, followed by the unterminated leftover, are exactly the text received |
| Sessions.Lines | Server/chat_server.py:42-58 | the lines the generator yields before the peer closes: every piece of the received text between newlines but the unterminated last one, none holding a newline |
| Sessions.Scan | Server/chat_server.py:68-80 | the items of the first lines: one per non-blank line, in line order, each what `json.loads` made of it; JSON that is not an object stops the scan exactly when such a line is among them, and no item comes after it |
| Sessions.ScanPrefix | Server/chat_server.py:68-80 | scanning more lines only appends items, and none once the scan has stopped |
| Sessions.ScanNext | Server/chat_server.py:68-80 | a non-blank line before any stop adds exactly its own item |
| Sessions.ServedBlank | Server/chat_server.py:69-70 | a blank line is skipped: nothing is handled, sent or changed |
| Sessions.ServedStop | Server/chat_server.py:79-106 | JSON that is not an object ends the loop with every earlier item handled |
| Sessions.ServedItem | Server/chat_server.py:68-103 | the turn for a line's item extends the session: the loop goes on if the turn continued, otherwise the connection ends with every earlier item handled; its replies follow those sent before |
| Sessions.ServedEnd | Server/chat_server.py:68 | once every line is taken, the session covers all the items |
| Sessions.SessionAppend | Server/chat_server.py:68-103 | a session that has handled all its items and continued takes one more turn, from the state it left, for the next item |
| ServerPy.FilterKeepsOrder | server.py:188 | filtering a list of messages keeps ids increasing and below the next id |
| ServerPy.AppendFresh | server.py:120-128 | appending the entry with the next id keeps a history increasing and below the new next id |
| ServerPy.WithoutIds | server.py:188 | exactly the entries whose id is not listed |
| ServerPy.NotFrom | server.py:206 | exactly the entries not sent by the other user |
| ServerPy.TakePositive | server.py:159-164 | a positive limit reads `min(limit, n)` messages and keeps the rest; any other limit reads all |
| ServerPy.PurgedIds | server.py:190-193 | purging keeps every conversation key |
| ServerPy.ListAnswer | server.py:106-110 | a string or missing body lists the names `fnmatch` selects, in registration order and comma-joined, in one reply; any other body raises and nothing is sent |
| ServerPy.ChatServer.Login | server.py:83-96 | unknown name, wrong password and already-logged-in are refused without change; success records the session and reports the unread count |
| ServerPy.ChatServer.Create | server.py:98-104 | an existing name is refused; otherwise the account is added with the hashed password and an empty inbox |
| ServerPy.ChatServer.List | server.py:106-110 | replies with the comma-joined matching names; a non-string pattern raises |
| ServerPy.ChatServer.Send | server.py:112-143 | the entry with the next id is always appended to the pair's history; an unknown recipient is then refused; otherwise it is pushed as `chat` or queued, and "Message sent" follows |
| ServerPy.ChatServer.Record | server.py:115-128 | the entry gets the next id, the counter advances by one and only that history grows |
| ServerPy.ChatServer.Queue | server.py:140-142 | only the recipient's inbox changes, by the entry at its end |
| ServerPy.ChatServer.Read | server.py:147-174 | the messages taken by `TakePositive` are sent and removed from the inbox; an unknown user is refused; a list body raises |
| ServerPy.ChatServer.PurgeConversations | server.py:190-193 | every history that mentions the user loses the listed ids, the others are unchanged |
| ServerPy.ChatServer.DeleteMsg | server.py:176-194 | the listed ids leave the user's inbox and every history the user is in; an unknown user or a non-string body leaves everything unchanged |
| ServerPy.ChatServer.ViewConv | server.py:196-220 | an unknown other user is refused; otherwise the inbox loses the other user's messages and the pair's history is sent, or "No conversation history found" |
| ServerPy.ChatServer.DropConversationsOf | server.py:231-233 | exactly the histories that mention the user are removed |
| ServerPy.ChatServer.Delete | server.py:222-234 | an unknown user is refused; otherwise account, session and every history with the user go |
| ServerPy.ChatServer.Logoff | server.py:236-239 | the session is removed if present and "User logged off" is sent |
| ServerPy.ChatServer.Handle | server.py:80-245 | each `cmd` reaches its own branch, which changes the state and replies exactly as that command's row states; close ends the loop unchanged; any other command gets "Unknown command"; every reply goes to the caller except a `chat` push |
| ServerPy.ChatServer.StepReplies | server.py:112-143 | every reply of a request goes back on the caller's connection except the `chat` frame pushed to an online recipient |
| ServerPy.ChatServer.HandleLine | server.py:71-245 | one pass of the loop: a blank line is skipped, a line that is not JSON gets "Invalid JSON", JSON that is not an object stops, a request is handled by `Handle`; the loop stops exactly when the turn did not continue, and the replies extend those sent before |
| ServerPy.ChatServer.HandleClient | server.py:68-250 | the turns handle the received lines in order, each from the state the previous turn left and doing what `Handle` states; blank lines are skipped, a line that is not JSON gets "Invalid JSON" with no change, and JSON that is not an object ends the loop; only a close or a raise leaves lines unhandled; `sent` is every turn's replies in order; a stream without a request changes nothing and sends nothing |
| ServerPy.ConversationScenario | server.py:112-220 | alice writes "hi" to bob and bob answers "yo" while both are offline; after bob reads, alice's view of the conversation lists both entries with ids 1 and 2 in send order, and her inbox, which held bob's message, becomes empty |
| JsonServer.ChatServer.Login | JSON_impl/server.py:88-105 | unknown name, wrong password and already-logged-in are refused without change; success records the session and reports the inbox size |
| JsonServer.ChatServer.Create | JSON_impl/server.py:107-115 | an existing name is refused; otherwise the account is added with an empty inbox |
| JsonServer.ChatServer.List | JSON_impl/server.py:117-122 | replies with `ListReply`: the matching names in registration order, comma-joined; a non-string pattern raises |
| JsonServer.ChatServer.Send | JSON_impl/server.py:124-141 | an unknown or missing recipient is refused without change; otherwise the text is pushed or queued and the sender is told it was sent |
| JsonServer.ChatServer.Read | JSON_impl/server.py:143-168 | the messages taken by `TakeSlice` are sent one frame each and the rest stay; an unknown user is refused |
| JsonServer.ChatServer.DeleteMsg | JSON_impl/server.py:170-192 | the inbox keeps exactly the positions not listed; a number body is "Invalid indices" |
| JsonServer.ChatServer.Delete | JSON_impl/server.py:194-205 | an unknown user or a non-empty inbox is refused without change; otherwise the account and session go and nothing is sent |
| JsonServer.ChatServer.Logoff | JSON_impl/server.py:207-211 | the session is removed if present; nothing is sent |
| JsonServer.ChatServer.Handle | JSON_impl/server.py:85-218 | each `cmd` reaches its own branch, which changes the state and replies exactly as that command's row states; close ends the loop unchanged; any other command gets "Unknown command"; every reply goes to the caller except a `read` push |
| JsonServer.ChatServer.HandleLine | JSON_impl/server.py:74-218 | one pass of the loop: a blank line is skipped, a line that is not JSON gets "Invalid JSON", JSON that is not an object stops, a request is handled by `Handle`; the loop stops exactly when the turn did not continue, and the replies extend those sent before |
| JsonServer.ChatServer.HandleClient | JSON_impl/server.py:70-225 | the turns handle the received lines in order, each from the state the previous turn left and doing what `Handle` states; blank lines are skipped, a line that is not JSON gets "Invalid JSON" with no change, and JSON that is not an object ends the loop; only a close or a raise leaves lines unhandled; `sent` is every turn's replies in order; a stream without a request changes nothing and sends nothing |
| JsonServer.DeleteScenario | JSON_impl/server.py:143-205 | an account with a queued message cannot be deleted; once the message is read it can, and the name is gone |
| Handlers.ChatState.AsWritten | Server/chat_server.py:19-27 | the server as constructed: no accounts, no sessions and no `conversations` attribute |
| Handlers.ChatState.Corrected | Server/chat_server.py:19-27 | the server with `conversations` initialised to an empty dictionary |
| Handlers.ChatState.Login | Server/handlers.py:5-21 | unknown name, wrong password and already-logged-in are refused without change; success records the session |
| Handlers.ChatState.Delete | Server/handlers.py:23-36 | an unknown user or a non-empty inbox is refused; otherwise the account and session go |
| Handlers.ChatState.Logoff | Server/handlers.py:38-45 | the session is removed if present; nothing is sent |
| Handlers.ChatState.DeleteMsg | Server/handlers.py:48-70 | the inbox keeps exactly the positions not listed; unknown users are refused |
| Handlers.ChatState.Read | Server/handlers.py:72-97 | the messages taken by `TakeSlice` are sent one frame each and the rest stay |
| Handlers.ChatState.Create | Server/handlers.py:99-111 | an existing name is refused; otherwise the account is added with an empty inbox |
| Handlers.ChatState.List | Server/handlers.py:113-118 | replies with `ListReply`: the matching names in registration order, comma-joined; a non-string pattern raises |
| Handlers.ChatState.Send | Server/handlers.py:120-144 | an unknown recipient is refused first; without `conversations` the call raises before any change; otherwise the history grows, the text is pushed or queued, and the sender is answered |
| Handlers.ChatState.ViewConv | Server/handlers.py:146-162 | "User not found", "No conversation history found" or the rendered history; nothing changes |
| ChatServerMain.RouteOf | Server/chat_server.py:79-103 | the nine routed commands select their handler and every other command, `view_conv` among them, is unknown |
| ChatServerMain.RouteOfCommand | Server/chat_server.py:79-103 | each route is selected by its own command name |
| ChatServerMain.Dispatch | Server/chat_server.py:79-103 | each routed command reaches its own handler, whose row states the new state and the replies; close ends the loop unchanged; an unknown command gets an error; every reply goes to the caller except a `read` push; a server without `conversations` never gets them |
| ChatServerMain.DispatchReplies | Server/handlers.py:120-144 | every reply of a request goes back on the caller's connection except the `read` frame pushed to an online recipient |
| ChatServerMain.HandleLine | Server/chat_server.py:68-103 | one pass of the loop: a blank line is skipped, a line that is not JSON gets "Invalid JSON", JSON that is not an object stops, a request is handled by `Dispatch`; the loop stops exactly when the turn did not continue, and the replies extend those sent before |
| ChatServerMain.HandleClient | Server/chat_server.py:64-110 | the turns handle the received lines in order, each from the state the previous turn left and doing what `Dispatch` states; blank lines are skipped, a line that is not JSON gets "Invalid JSON" with no change, and JSON that is not an object ends the loop; only a close or a raise leaves lines unhandled; `sent` is every turn's replies in order; a stream without a request changes nothing and sends nothing |
| ChatServerMain.SendAsWritten | Server/handlers.py:130-133 | on the server as constructed, a message to an existing user raises: the sender gets no reply and the recipient's inbox stays empty |
| ChatServerMain.SendCorrected | Server/handlers.py:120-144 | with `conversations` initialised, the same message is recorded in the pair's history, queued for the recipient and confirmed |

## Where the code differs from the documented protocol

The model follows the code in each of these cases.

* The custom server accepts a second login for a user who is already
  logged in and replaces the stored session. A duplicate login is
  documented as refused; the JSON servers do refuse it.
* `server.py` and `server_custom.py` record a message in the
  conversation history before checking that the recipient exists, so a
  message to an unknown user still enters a history. `handlers.py`
  checks first.
* `server.py` deletes an account whatever its inbox holds, and it drops
  every conversation that mentions the user. The other variants refuse
  while messages are undelivered and keep the histories.
* No server checks that the request's `from` field names the logged-in
  user of the connection. The field is trusted as sent.
* For a `read` of an empty inbox, `JSON_impl/server.py` and
  `Server/handlers.py` send nothing, `server.py` replies with an empty
  list, and the custom server sends its "NO_MESSAGES" frame.
* Some domain errors are raised rather than answered, for instance a
  malformed custom payload or a `list` pattern that is not a string. This
  ends the connection.

## Left out

- Sockets, threads, `accept` and the listening loop: a connection is its received chunks, and interleaving between client threads is not modelled.
- JSON encoding and decoding: a request is the record its fields denote, `json.loads` is the parameter `parse`, and reply bodies that are JSON dumps (lists of messages, histories) are the lists themselves or the `render` parameter.
- Password hashing (SHA-256): a function parameter fixed at construction.
- Timestamps (`datetime.now()`, `time.strftime`): a parameter or a clock function of the request number.
- `fnmatch` bracket classes (`[abc]`) and its case normalisation on case-insensitive platforms: only `*`, `?` and literal characters are modelled.
- Unicode digits in `isdigit()` and `int()`, and the non-ASCII whitespace `int()` skips: only ASCII digits and the six ASCII whitespace characters of `int()` are modelled; `strip()` removes the whole `str.isspace()` set. `int()`'s underscores are not modelled, and a boolean `body` is not among the modelled values.
- UTF-8 encoding and decoding in the custom protocol: names and texts are byte sequences; a decode error is not modelled. So `?` in a `CMD_SEARCH_USERS` pattern matches one byte here, where `fnmatch` on the decoded name (Custom_impl/server_custom.py:21-23) matches one character: `?` matches the name `é` in the source but not its two bytes in the model.
- A `from` field that is missing or not a string, and `password`, `to` or `body` values beyond the modelled ones.
- A `"to": null` in `view_conv` is read as a missing `to`, the empty name. server.py:197 and Server/handlers.py:149 get `None`, which is never a registered name, so the reply is "User not found". The two differ only once an account named by the empty string exists; server.py would then also filter that inbox.
- A failed `send` on the caller's own connection: only the push to another user's session can fail, as the parameter `pushFails`.
- The read acknowledgement of the custom server is the next frame on the stream; the blocking wait and its debug message are not modelled.
- Errors raised by `recv` itself: the stream simply ends.
- The interactive clients (`client.py`, `Client/`, the `ChatClient` class of `Custom_impl./client_custom.py`) and the tests: only the request packers are modelled.
- `Server/protocol_json.py` `create_msg`: a reply is the record of its fields; the serialised text and its newline are not modelled.
- ClientCustom.PackLogin, PackCreate, PackSend, PackViewConv, PackDeleteAcc, PackLogoff and PackClose carry no contract of their own; what they produce is stated by the round-trip lemmas of `CustomRoundTrips`.

## Findings

| source | as written | input that shows it | evidently intended | confidence | as-written member | corrected member |
|---|---|---|---|---|---|---|
| Server/chat_server.py:19-27 | `ChatServer.__init__` never creates `self.conversations`, so `handle_send` (Server/handlers.py:130-133) raises `AttributeError` for every existing recipient; the connection closes, the sender gets no reply and the message is lost. `handle_view_conv` reads the same missing attribute. | create `alice` and `bob`, then `{"cmd": "send", "from": "alice", "to": "bob", "body": "hi"}` | `self.conversations = {}` in `__init__`, so the message is recorded, queued for `bob` and confirmed | not executed | ChatServerMain.SendAsWritten | ChatServerMain.SendCorrected |
