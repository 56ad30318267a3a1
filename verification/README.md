# E-book forum: server, reader and earlier reader, modelled in Dafny

The system is a small client/server forum for e-books. The server
(`server/server_ex.py`) loads a set of books. A book has pages, and a page
has numbered lines. Readers (`reader/reader_ex.py`) connect over TCP, ask for
pages to display, and post comments ("posts") on individual lines. Posts
are kept in the server's `ServerDB` under integer IDs, handed out from 1000
up. Readers in *push* mode have every new post forwarded to them. Readers
in *pull* mode ask for the posts of a page or a full sync. Two readers can
set up a direct chat, with the server relaying the invitation.
`reader/reader.py` is an earlier revision of the reader. It has its own book
objects with per-line post flags, and a database keyed by book.

Every message is a string whose fields are joined by `#`, and the second
field is the message tag (`#DisplayReq#book#page`). A post travels as
`#PostInfo#id#sender#book#page#line|#PostContent#id#content`. A list of IDs
travels as decimal numerals joined by `,`. Lists of items (page lines, post
strings) go through a *stream* sub-protocol. Its four phrases (start,
start acknowledgement, item acknowledgement and end) are parameters of each
call. The sync response (server/server_ex.py:519) is one example:
- the server sends `#SyncPostsResp` and waits for `#BeginSyncPostsResp`;
- it then sends each post string and waits for `#NewPostRcvd` after each one;
- it ends with `#EndSyncPostsResp`.

The model has these modules:

- `PyText`: the Python 2 built-ins the code leans on. These are
  `str.split` (exact, including multi-character separators), `str.join`,
  `int()` and `str()` on integers, negative list indexing, `list.remove`,
  and dictionary iteration in an unspecified order.
- `Wire`: the `,`-joined ID lists and the `#` tag of a message.
- `Stream`: the stream sub-protocol over an abstract inbox/outbox pair
  (`Channel`). It has a specification function for each side and lemmas
  that join the two sides together.
- `PageFormat`, `ServerBooks`: the page-file line format and the server's
  books, as values.
- `ServerStore`: the server's `ServerDB` as a class. It covers ID
  generation, upload validation and the serialised post.
- `ServerSession`: the server's per-connection `ClientThread` handlers and
  the shared `ClientThreadIterator` registry.
- `ReaderStore`, `ReaderClient`: the reader's post database (a class), its
  request encoders, its message decoders, and the handlers of its listening
  thread.
- `LegacyStore`, `LegacyBook`: the earlier reader revision's database and
  book/page/line objects. These are classes, because `update` and
  `setRead` change them in place.
- `Protocol`: round-trip lemmas between the reader's encoders and the
  server's decoders, and the reverse. It also proves that a sync stream
  copies exactly the missing posts into the reader.

Python exceptions that end a handler are modelled as outcomes. These are
`IndexError`, `ValueError`, `UnboundLocalError` and `TypeError`, and they appear as the
`Raised`, `Crash`, `PushCrash`, `Crashed`, `PlanCrash`, `ShownCrash` and `None` results
and as the `crashed` flag of `LegacyBook.Book.Update`. The `TypeError` is the
one raised in reader/reader.py:56-59 when the loop iterates the `None` returned for an unregistered book.
The exceptions to this rule are the four preconditions listed under
"## Left out": two relay handlers require a registered requester, and two
members that call `list.remove` require a registered thread. Where the Python code waits forever for a
message that never comes, the model stops with `Blocked` and an empty
inbox.

## Model

| member | source | states |
|---|---|---|
| PyText.SplitCounts | server/server_ex.py:364-365 | `str.split(sep)` has a second piece, the one the dispatch reads, exactly when the separator occurs |
| PyText.SplitPiecesAvoid | server/server_ex.py:155-161 | no piece of a split on a character contains that character |
| PyText.Split | server/server_ex.py:365 | `str.split(sep)` never gives an empty list, so the first piece always exists; `JoinSplit` and `SplitJoin` state that it and `Join` (`sep.join`) undo each other |
| PyText.ParseInt | server/server_ex.py:159-160 | `int(s)` succeeds exactly on an optional `-` followed by at least one digit; an unsigned numeral gives a non-negative value and a signed one a non-positive value |
| PyText.JoinSplit | reader/reader_ex.py:60 | joining the pieces of a split with the same separator gives back the original string |
| PyText.SplitJoin | server/server_ex.py:233-236 | splitting a join of separator-free fields gives back exactly those fields |
| PyText.ParseIntToString | reader/reader_ex.py:55-59 | `int(str(n)) == n` for every integer, negatives included |
| PyText.PyIndex | reader/reader.py:110-114 | Python list indexing: `-len <= i < len` is valid and negatives count from the end; anything else is the IndexError |
| PyText.IndexOf | server/server_ex.py:297-299 | the position `list.remove` deletes: the first occurrence |
| PyText.DictKeys | server/server_ex.py:245-246 | `dict.keys()`: every key exactly once, in some order |
| Wire.Numerals | reader/reader_ex.py:523-526 | one `str(id)` per ID, in order |
| Wire.ParseInts | server/server_ex.py:480-481 | `[int(x) for x in parts]` succeeds exactly when every piece is an integer, and then holds `int` of each piece, in order |
| Wire.ParseIdList | server/server_ex.py:477-481 | an empty first piece leaves no integer IDs; otherwise the list succeeds exactly when every `,`-piece is an integer, and then holds `int` of each piece, in order |
| Wire.ParseIntsNumerals | server/server_ex.py:506-507 | parsing the numerals of a list of IDs gives back the list |
| Wire.IdListRoundTrip | server/server_ex.py:505-507 | the server's `split(',')` followed by `int` recovers exactly the ID list the reader joined with `,`, and the empty list too |
| Wire.AppendIds | reader/reader_ex.py:523-526 | the append loop produces the prefix followed by the `,`-joined numerals |
| Wire.Tag | server/server_ex.py:364-365 | `data.split('#')[1]` exists exactly when the message contains a `#` |
| Stream.Await | server/server_ex.py:659-662 | waiting for a message succeeds exactly when it is in the inbox, and it consumes a prefix |
| Stream.AwaitFirst | server/server_ex.py:659-662 | the wait stops just after the first occurrence of the awaited message |
| Stream.SendItemsShape | server/server_ex.py:649-655 | a completed send has sent every item and then the end marker; a blocked one has sent a non-empty prefix of the items and consumed the inbox |
| Stream.SendStreamSpec | server/server_ex.py:641-655 | the start message goes first; on completion the sent log is start, items, end; a blocked run sent start plus a prefix of the items |
| Stream.SendStreamStart | reader/reader_ex.py:608-616 | without the start acknowledgement nothing but the start message is sent; with it the item loop runs on the rest of the inbox |
| Stream.Acks | reader/reader_ex.py:651 | the acknowledgements a receiver sends: `n` copies of `#ack` |
| Stream.FirstNonEmpty | reader/reader_ex.py:641-643 | the receiver skips empty reads: the first non-empty message, with only empty ones before it |
| Stream.ReceiveItemsShape | reader/reader_ex.py:644-657 | the receiver sends one acknowledgement per collected item; every collected item is tagged and is not the end marker; a blocked receive consumed the inbox |
| Stream.ReceiveStreamSpec | reader/reader_ex.py:633-658 | the receiver first sends the start acknowledgement, then one acknowledgement per item it keeps |
| Stream.EndMarkerTag | reader/reader_ex.py:647 | the end marker `#end` carries tag `end` |
| Stream.ReceiveItemsCollects | reader/reader_ex.py:647-657 | given tagged items followed by the end marker, the receiver collects exactly those items, acknowledges each, and leaves what follows the marker |
| Stream.SendItemsCompletes | server/server_ex.py:649-655 | given one acknowledgement per item, the sender sends every item and the end marker, and leaves the rest of the inbox |
| Stream.StreamHandshake | server/server_ex.py:641-655 | a sender and a receiver fed each other's output both finish; the receiver holds exactly the items sent, and each side's log is the other's input |
| Stream.Channel.Send | server/server_ex.py:594-597 | `sock.send` appends to the outbox and leaves the inbox alone |
| Stream.Channel.Recv | server/server_ex.py:666-671 | `selectRecv` takes the first message of the inbox, or finds none |
| PageFormat.ParseLineText | server/server_ex.py:93-104 | `Line.__init__` fails (IndexError) exactly when the raw line holds no run of three spaces |
| PageFormat.ParseLayout | server/server_ex.py:98-104 | a line laid out as three spaces, its number, a space and its text parses back to that text |
| ServerBooks.LoadPage | server/server_ex.py:67-74 | lines are numbered from 1 in file order, each holding its parsed text; loading fails exactly when some line fails to parse |
| ServerBooks.HasPage | server/server_ex.py:47-48 | true exactly for page numbers 1 to the page count; then page `n` is index `n-1` |
| ServerBooks.HasLine | server/server_ex.py:86-87 | true exactly for line numbers 1 to the line count |
| ServerBooks.DisplayLineStr | server/server_ex.py:80 | `#num#text`: splits on `#` into the empty piece, the numeral and the text when the text holds no `#`; `Protocol.DisplayLineRoundTrip` reads it back |
| ServerBooks.GetContent | server/server_ex.py:77-82 | one `#num#text` item per line, in order |
| ServerBooks.GetPageContent | server/server_ex.py:36-43 | a missing page gives the single `#Error#Page n does not exist.` item; otherwise the page's line items |
| ServerStore.ParseUpload | server/server_ex.py:155-161 | parsing succeeds exactly when the info has at least six `#` pieces, the content at least three, and the info's fifth and sixth pieces are integers; the sender, book, page and line are the info's third to sixth pieces, and the stored content is the content's third `#` piece, so it never holds `#` |
| ServerStore.RejectReason | server/server_ex.py:164-173 | an upload is accepted exactly when book, page and line exist; the book is checked first, then the page, then the line, and the first failure gives its message (`Line 'n' not found.` for a missing line) |
| ServerStore.PostInfoFields | server/server_ex.py:233-234 | the info half of a post string splits on `#` into exactly its header fields |
| ServerStore.PostContentFields | server/server_ex.py:235-236 | the content half splits into its tag, its ID and the pieces of the content |
| ServerStore.PostAsStr | server/server_ex.py:233-236 | the info half, `|` and the content half: a post with plain fields splits on `|` into exactly those two halves |
| ServerStore.ServerDB.constructor | server/server_ex.py:142-145 | a new database holds no posts and has handed out no IDs |
| ServerStore.ServerDB.GeneratePostID | server/server_ex.py:264-273 | returns the smallest ID from 1000 up not yet handed out, and records it |
| ServerStore.NextIdIsCount | server/server_ex.py:264-273 | with IDs handed out in order, the smallest free ID is 1000 plus the number already handed out |
| ServerStore.ServerDB.InsertPost | server/server_ex.py:152-190 | a valid upload is stored under a fresh ID, the next in line; a refused upload (with its reason) or a malformed one changes nothing |
| ServerStore.ServerDB.GetPostsID | server/server_ex.py:193-213 | failure messages for a missing book or page; otherwise exactly the stored IDs on that page of that book, each once |
| ServerStore.ServerDB.GetPost | server/server_ex.py:216-223 | the stored post, or the failure message, exactly when the ID is absent |
| ServerStore.ServerDB.GetPostAsStr | server/server_ex.py:229-241 | the serialised post, or the failure of `getPost` |
| ServerStore.ServerDB.GetAllPostIds | server/server_ex.py:245-246 | every stored ID exactly once |
| ServerSession.ParseRequest | server/server_ex.py:364-584 | the dispatch: no `#` is a malformed message; an unknown tag is ignored; `Exit` is recognised |
| ServerSession.UnknownIds | server/server_ex.py:510-513 | the server's IDs that the client lacks, each once |
| ServerSession.PostStrings | server/server_ex.py:515-516 | one serialised post per ID, in order |
| ServerSession.ClientObj.constructor | server/server_ex.py:316-321 | a new client has an empty name, mode and address on its own socket |
| ServerSession.PushFilter | server/server_ex.py:292-293 | the push list holds exactly the registered threads in `push` mode, and a registry holding each thread once gives a push list holding each thread once |
| ServerSession.ClientThreadIterator.constructor | server/server_ex.py:279-281 | the registry holds the given threads, with their push list |
| ServerSession.ClientThreadIterator.Append | server/server_ex.py:792 | a new connection is appended to the thread list; the push list is untouched until the next update |
| ServerSession.ClientThreadIterator.UpdatePushList | server/server_ex.py:292-293 | the push list is recomputed from the thread list |
| ServerSession.ClientThreadIterator.RemoveClientThread | server/server_ex.py:297-299 | the first occurrence of the thread is removed and the push list is recomputed |
| ServerSession.ClientThreadIterator.GetClientThread | server/server_ex.py:303-310 | the first thread with that user name, or null when there is none |
| ServerSession.ClientThreadIterator.PushPost | server/server_ex.py:284-289 | one `#NewSinglePost` delivery to each push thread, in push-list order |
| ServerSession.ClientThread.constructor | server/server_ex.py:337-348 | a fresh client object on the connection's socket, not stopped |
| ServerSession.ClientThread.ListenFor | server/server_ex.py:659-662 | consumes the inbox up to and including `#want`; leaves the outbox alone |
| ServerSession.ClientThread.SendItem | server/server_ex.py:651-652 | sends one item and waits for its acknowledgement |
| ServerSession.ClientThread.SendItemsOut | server/server_ex.py:650-655 | the item loop and end marker of `sendStream`, as the stream sender's specification |
| ServerSession.ClientThread.SendStream | server/server_ex.py:641-655 | `sendStream` does exactly what the stream sender's specification says, on the socket's inbox and outbox |
| ServerSession.ClientThread.HandleIntro | server/server_ex.py:369-379 | records name, mode and address, and refreshes the push list |
| ServerSession.ClientThread.HandleExit | server/server_ex.py:382-388 | stops the thread and removes it from the registry |
| ServerSession.ClientThread.HandleUpload | server/server_ex.py:413-439 | a malformed upload crashes the thread; a refused one replies with the error; an accepted one is stored under the next ID, acknowledged, and pushed to every push thread as its post string |
| ServerSession.ClientThread.HandleStartChat | server/server_ex.py:524-544 | an unknown target gets the error reply; otherwise the first registered thread with the target's name gets the relay message naming the requester |
| ServerSession.ClientThread.HandleRelayAccept | server/server_ex.py:554-570 | the first registered thread with the requester's name gets the acceptance with B's name, address and both ports |
| ServerSession.ClientThread.HandleRelayReject | server/server_ex.py:573-580 | the first registered thread with the requester's name gets a rejection that names the requester itself (see below) |
| ServerSession.ClientThread.HandleGetPostsLoc | server/server_ex.py:470-498 | on a valid page it streams exactly the page's posts the reader lacks; on an error it appends to the previous request's list, or crashes when there was none |
| ServerSession.DisplayItems | server/server_ex.py:391-409 | an unknown book gives a single error item; otherwise the page's items, or the missing-page item |
| ServerSession.GetPostsIDReply | server/server_ex.py:443-466 | the `#Error#` reply for a missing book or page; otherwise the page's IDs joined by `,` |
| ServerSession.SyncItems | server/server_ex.py:502-519 | exactly the stored posts whose IDs the client lacks, each once, serialised |
| ServerSession.RelayStartChatReqStr | server/server_ex.py:603-607 | `#RelayStartChatReq#name#ip#port`, splitting on `#` back into those fields when they hold no `#`; `Protocol.InvitationRoundTrip` reads it back |
| ServerSession.StartChatAcceptStr | server/server_ex.py:624-635 | `#StartChatResp#Accept#bName#bIp#bPort#aPort`, splitting back into those fields; `Protocol.ChatAnswerAcceptRoundTrip` reads it back |
| ServerSession.StartChatRejectStr | server/server_ex.py:619-621 | `#StartChatResp#Reject#name`, splitting back into those fields; `Protocol.ChatAnswerRejectNamesRequester` reads it back |
| ReaderStore.ParseWirePost | reader/reader_ex.py:40-67 | ID mismatch exactly when both IDs exist and differ; a parsed post is unread and its content is the rejoined tail of the content string |
| ReaderStore.MarkRead | reader/reader_ex.py:77-91 | only the given post changes, and only its status, which becomes read |
| ReaderStore.MarkReadIdempotent | reader/reader_ex.py:77-91 | marking a post read twice is the same as once |
| ReaderStore.ReaderDB.constructor | reader/reader_ex.py:32-34 | a new reader database is empty |
| ReaderStore.ReaderDB.InsertPost | reader/reader_ex.py:40-67 | a parsed post is stored under its ID, replacing any earlier one; a mismatch or parse error stores nothing |
| ReaderStore.ReaderDB.GetPost | reader/reader_ex.py:70-74 | the stored post, present exactly when the ID is stored |
| ReaderStore.ReaderDB.SetRead | reader/reader_ex.py:77-91 | the database afterwards is `MarkRead` of the one before |
| ReaderStore.ReaderDB.GetAllPostIds | reader/reader_ex.py:110-111 | every stored ID exactly once |
| ReaderStore.ReaderDB.GetPostIDs | reader/reader_ex.py:139-162 | exactly the stored posts that match the book, page and line given, each once |
| ReaderStore.ReaderDB.ConsultPostsStatus | reader/reader_ex.py:115-131 | `' '` exactly when the line has no posts, `'n'` exactly when one of them is unread, `'m'` otherwise |
| ReaderClient.ReqSyncPosts | reader/reader_ex.py:516-527 | `#SyncPostsReq#` followed by every stored ID, each once, joined by `,` |
| ReaderClient.ReqUpdateLocalPosts | reader/reader_ex.py:531-544 | the location request followed by exactly the IDs the reader has for that page, joined by `,` |
| ReaderClient.ReqDisplayPage | reader/reader_ex.py:549-552 | `#DisplayReq#book#page`, splitting on `#` back into those fields when the book name holds no `#`; `Protocol.DisplayRequestRoundTrip` reads it back |
| ReaderClient.NewPostInfoStr | reader/reader_ex.py:825-826 | `#NewPostInfo#user#book#page#line`, splitting back into those fields; `Protocol.UploadRoundTrip` reads it back |
| ReaderClient.NewPostContentStr | reader/reader_ex.py:827 | `#NewPostContent#content`, splitting back into those fields when the content holds no `#` |
| ReaderClient.SendNewPost | reader/reader_ex.py:557-563 | `#UploadPost` + info + `|` + content: the second `#`-piece is the tag, and splitting on `#UploadPost` leaves exactly the info, `|` and the content when the tag does not recur |
| ReaderClient.ReqChatSession | reader/reader_ex.py:599-603 | `#StartChatReq#target#port`, splitting back into those fields; `Protocol.ChatRequestRoundTrip` reads it back |
| ReaderClient.ChatAcceptStr | reader/reader_ex.py:379-381 | `#RelayStartChatResp#Accept#bPort#aName#aPort`, splitting back into those fields; `Protocol.ChatAcceptRoundTrip` reads it back |
| ReaderClient.ChatRejectStr | reader/reader_ex.py:388-389 | `#RelayStartChatResp#Reject#aName`, splitting back into those fields; `Protocol.ChatRejectRoundTrip` reads it back |
| ReaderClient.DecodeChatAnswer | reader/reader_ex.py:400-423 | the `StartChatResp` branch: fewer than four pieces, or an acceptance without an integer sixth piece, raises; otherwise acceptance, rejection and error carry the fields the branch reads, and any other kind gives `OtherAnswer`, on which the branch does nothing |
| ReaderClient.DecodeInvitation | reader/reader_ex.py:364-366 | decoding succeeds exactly when the message has at least five `#` pieces and the fifth is an integer; the invitation carries the name, address and port fields of the message |
| ReaderClient.ChatMessageStr | reader/reader_ex.py:498-504 | `#NewChatMessage#sender#text`: splits on `#` into the tag, the sender and the pieces of the text when the sender holds no `#` |
| ReaderClient.DecodeChatMessage | reader/reader_ex.py:477-490 | a chat message is accepted exactly when it has at least four `#` pieces; the text is the rejoined tail |
| ReaderClient.ChatMessageRoundTrip | reader/reader_ex.py:498-504 | decoding a sent chat message gives back sender and text, even when the text holds `#` |
| ReaderClient.PostHalves | reader/reader_ex.py:322-324 | `split('|')[1]` exists exactly when the post holds a `|` |
| ReaderClient.DecodeNewSinglePost | reader/reader_ex.py:256-257 | decoding succeeds exactly when the `#NewSinglePost` tag occurs and what follows it holds a `|`; the result is the two halves of that text |
| ReaderClient.OnNewSinglePost | reader/reader_ex.py:253-265 | a pushed post is stored as `insertPost` stores it; the notice is shown exactly when it is on the current page, also after an ID mismatch, which stores nothing and still reads the book and page; malformed input crashes the thread |
| ReaderClient.InsertAll | reader/reader_ex.py:322-325 | the insert loop never loses a post, and every new ID comes from one of the streamed posts |
| ReaderClient.InsertAllWitness | reader/reader_ex.py:322-325 | a post stored by the rest of the loop is still witnessed by the whole list |
| ReaderClient.StoreSyncedPosts | reader/reader_ex.py:310-327 | the database afterwards, and whether the loop completed, are those of `InsertAll` |
| ReaderClient.StoreLocPosts | reader/reader_ex.py:333-356 | a single `#Error#` item stores nothing; a single item without `#` crashes; otherwise the posts go through the insert loop |
| ReaderClient.DisplayPlanAsWritten | reader/reader_ex.py:275-279 | the check as written agrees with the corrected one except that a shown one-item page is replaced by that item's `#` pieces |
| ReaderClient.DisplayPlanFixed | reader/reader_ex.py:275-279 | the corrected one-item check: a page of other than one item is shown as received; a single item whose second `#` piece is `Error` shows its third piece as the error, and crashes when that third piece is missing; a single item with fewer than two pieces crashes; shown lines are the received items unchanged |
| ReaderClient.ParseDisplayLine | reader/reader_ex.py:288-290 | parsing succeeds exactly when the item has three `#` pieces and the second is an integer; the result is that integer and the third piece |
| ReaderClient.DisplayPage | reader/reader_ex.py:268-297 | with the corrected check, each shown row holds the line's number and text and the flag `consultPostsStatus` gives it, which is one of ` `, `n` and `m`; a well-formed page is always shown, and a shown page with a malformed item crashes |
| ReaderClient.WaitFor | reader/reader_ex.py:614-616 | consumes the inbox up to and including the awaited message |
| ReaderClient.SendItem | reader/reader_ex.py:620-625 | sends one item and waits for its acknowledgement |
| ReaderClient.SendItemsLoop | reader/reader_ex.py:619-628 | the item loop and end marker, as the stream sender's specification |
| ReaderClient.SendStream | reader/reader_ex.py:608-628 | `sendStream` does exactly what the stream sender's specification says |
| ReaderClient.NextMessage | reader/reader_ex.py:641-643 | reads past empty messages to the next non-empty one |
| ReaderClient.AckAndRead | reader/reader_ex.py:651-656 | sends one acknowledgement and reads the next non-empty message |
| ReaderClient.ReceiveItemsLoop | reader/reader_ex.py:647-657 | the collecting loop, as the stream receiver's specification |
| ReaderClient.ReceiveStream | reader/reader_ex.py:633-658 | `receiveStream` does exactly what the stream receiver's specification says |
| LegacyStore.ParseLegacy | reader/reader.py:262-282 | ID mismatch first; the header carries its own read status; the content is the fourth `#` piece only |
| LegacyStore.AddPost | reader/reader.py:284-295 | the first post of a book turns `{}` into the two dictionaries; the new post is in both, and other posts are unchanged |
| LegacyStore.MarkPost | reader/reader.py:355-358 | only the status of that post changes, to READ |
| LegacyStore.SetReadAtMostOne | reader/reader.py:347-359 | `setRead` changes at most one book's entry, and in it only the status of that post |
| LegacyStore.SetReadFinds | reader/reader.py:347-359 | when every book visited earlier has posts and lacks the ID, the post is marked read in its own book |
| LegacyStore.StatusesOf | reader/reader.py:308-315 | one `(status, page, line)` per post, in iteration order |
| LegacyStore.TupleIds | reader/reader.py:333-337 | the IDs of the collected tuples, in order |
| LegacyStore.ReaderDB.constructor | reader/reader.py:252-256 | one empty entry per book of the booklist |
| LegacyStore.ReaderDB.InsertPost | reader/reader.py:262-298 | a post for a registered book is stored with its given status and content; a mismatch, an unknown book or a parse error stores nothing |
| LegacyStore.ReaderDB.GetBookPostStatuses | reader/reader.py:302-319 | None exactly for an unregistered book; `[]` for a book without posts; otherwise one status per post |
| LegacyStore.ReaderDB.GetPosts | reader/reader.py:323-343 | None exactly for an unregistered book; a crash exactly for a book without posts; otherwise exactly the posts on that line |
| LegacyStore.ReaderDB.SetRead | reader/reader.py:347-359 | the walk over the books in dictionary order, as `SetReadWalk` |
| LegacyBook.Line.constructor | reader/reader.py:204-218 | a new line has its number and text and no posts |
| LegacyBook.Line.SetPostRead | reader/reader.py:230-231 | the line's flag becomes READ_POST |
| LegacyBook.Line.SetPostUnread | reader/reader.py:234-235 | the line's flag becomes UNREAD_POST |
| LegacyBook.SetLineStatus | reader/reader.py:173-177 | `lines[lineNum-1]` with Python indexing; its contract states that the line count is kept, and `LegacyBook.ApplyStatusAt` states which flag changes |
| LegacyBook.Page.constructor | reader/reader.py:143-158 | line `j` of the page is numbered `j+1`, holds its text, and has no posts |
| LegacyBook.Page.HasLine | reader/reader.py:189-190 | true exactly for line numbers 1 to the line count |
| LegacyBook.Page.SetPostRead | reader/reader.py:173-177 | the flags afterwards are `SetLineStatus` with READ_POST |
| LegacyBook.Page.SetPostUnread | reader/reader.py:181-185 | the flags afterwards are `SetLineStatus` with UNREAD_POST |
| LegacyBook.SetStatus | reader/reader.py:110-114 | page then line, both with Python indexing; its contract states that the shape of the book is unchanged, and `LegacyBook.ApplyStatusAt` states which flag changes |
| LegacyBook.ApplyStatus | reader/reader.py:59-65 | keeps the shape of the book; `LegacyBook.ApplyStatusAt` states its effect: status 1 marks the line unread, 2 marks it read, and anything else is ignored |
| LegacyBook.ApplyAll | reader/reader.py:53-65 | keeps the shape of the book; `LegacyBook.UpdateUntouched` and `LegacyBook.UpdateLastWins` state its effect, the statuses applied in list order |
| LegacyBook.ApplyStatusAt | reader/reader.py:59-65 | a step sets the line it targets and no other line |
| LegacyBook.UpdateUntouched | reader/reader.py:53-65 | a line no status points at keeps its flag |
| LegacyBook.UpdateLastWins | reader/reader.py:53-65 | when several posts share a line, the last one in the list decides its flag |
| LegacyBook.Book.constructor | reader/reader.py:23-36 | page `i` is numbered `i+1` and holds its lines; no line has posts |
| LegacyBook.Book.HasPage | reader/reader.py:126-127 | true exactly for page numbers 1 to the page count |
| LegacyBook.Book.HasLine | reader/reader.py:131-135 | nothing (the caught IndexError) exactly when the page index is out of Python's range; otherwise the `hasLine` of the page that index picks, counted from the end for page numbers 0 and below |
| LegacyBook.Book.SetPostRead | reader/reader.py:110-114 | the flags afterwards are `SetStatus` with READ_POST |
| LegacyBook.Book.SetPostUnread | reader/reader.py:118-122 | the flags afterwards are `SetStatus` with UNREAD_POST |
| LegacyBook.Book.Update | reader/reader.py:53-65 | applies the database's statuses in order; an unregistered book crashes the iteration and changes nothing |
| Protocol.PostStringRoundTrip | reader/reader_ex.py:322-325 | a post string from the server parses in the reader to the same post, unread |
| Protocol.PushedPostRoundTrip | reader/reader_ex.py:256-258 | a pushed `#NewSinglePost` message decodes to the same post |
| Protocol.MirrorAllValues | reader/reader_ex.py:322-325 | after the posts of a list are inserted, each listed ID holds its mirrored post and other IDs are unchanged |
| Protocol.SyncStreamStored | reader/reader_ex.py:322-325 | inserting the server's post strings completes and stores exactly their mirrored posts |
| Protocol.SyncCompletesCopy | server/server_ex.py:502-519 | after a sync, the reader holds every server post it lacked, as the server stores it, and keeps its own posts |
| Protocol.DisplayRequestRoundTrip | reader/reader_ex.py:549-552 | the server decodes the reader's display request to the same book and page |
| Protocol.SyncRequestRoundTrip | reader/reader_ex.py:516-527 | the server decodes the reader's sync request to the same ID list |
| Protocol.LocRequestRoundTrip | reader/reader_ex.py:531-544 | the server decodes the reader's location request to the same book, page and IDs |
| Protocol.UploadRoundTrip | reader/reader_ex.py:557-563 | the server decodes the reader's upload and parses it to the same sender, place and content |
| Protocol.ChatRequestRoundTrip | reader/reader_ex.py:599-603 | the server decodes the reader's chat request to the same target and port |
| Protocol.ChatAcceptRoundTrip | reader/reader_ex.py:379-381 | the server decodes the reader's acceptance to the same ports and user name |
| Protocol.ChatRejectRoundTrip | reader/reader_ex.py:388-389 | the server decodes the reader's rejection to the same user name |
| Protocol.InvitationRoundTrip | server/server_ex.py:603-607 | the reader decodes the server's relayed invitation to the same name, address and port |
| Protocol.ChatAnswerAcceptRoundTrip | server/server_ex.py:624-635 | the requester decodes the server's acceptance to B's name, address and port |
| Protocol.ChatAnswerRejectNamesRequester | server/server_ex.py:619-621 | the requester decodes the server's rejection as a rejection naming the requester itself |
| Protocol.NoSuchUserDecodes | server/server_ex.py:536-540 | the requester decodes the unknown-user reply as the error `User does not exists.` |
| Protocol.DisplayLineRoundTrip | server/server_ex.py:77-82 | the reader parses each of the server's display items back to the line's number and text |
| Protocol.OneLinePageAsWritten | reader/reader_ex.py:275-290 | as written, a one-line page is replaced by its own `#` pieces, the first of which is empty and fails the line parse |
| Protocol.PageDisplayFixed | reader/reader_ex.py:275-290 | with the corrected check, every page the server sends, one-line pages included, is shown line by line |

## Left out

- Sockets, `select` and threads are not modelled. A connection is a `Channel` with an inbox of the messages it will read and an outbox of those it has sent. The listening thread's, chat thread's and server's `while` loops are modelled as their single-message handlers.
- Blocking is not modelled as such. Where the code would wait forever for a message that never arrives, the model returns `Blocked` and an empty inbox.
- Buffer sizes, message boundaries on TCP, and `recv` returning partial or joined messages are left out. Each inbox element is one whole message.
- Reading the booklist and page files is left out. Constructors take the contents instead: a page is its lines with trailing whitespace already stripped.
- `LegacyBook.Line.constructor` takes the already-parsed text of its line. The parse is the same as the server's and is modelled by `PageFormat.ParseLineText`.
- Console input, menus, `time.sleep` polling in pull mode, and output-only code (`showPage`, `showLine`, `displayPage`, `exportAsStr`, every `print`) are left out. The only printed decision kept is whether the new-post notice appears.
- `displayPosts` (reader/reader_ex.py:568-594 and reader/reader.py:70-103) is left out as a composition: besides printing, it calls the modelled `setRead` once for each post it shows (reader/reader_ex.py:594; reader/reader.py:100), and the legacy version then calls the modelled `setPostRead` on the shown line (reader/reader.py:103). Its only state changes are therefore sequences of `ReaderStore.ReaderDB.SetRead`, `LegacyStore.ReaderDB.SetRead` and `LegacyBook.Book.SetPostRead` calls.
- The chat thread's UDP socket and its `chatClients` dictionary are left out. The chat message format, its decoding, and the decoding of the `#StartChatResp` answers (`ReaderClient.DecodeChatAnswer`) are modelled; the update of `chatClients` and the printing that follow that decoding are not.
- `PyText.ParseInt` accepts an optional `-` and decimal digits only. The leading and trailing whitespace and the `+` that Python's `int()` also accepts are left out.
- Dictionary iteration order is unspecified in Python 2. Every member that iterates a dictionary promises membership and no duplicates, never an order.
- In `reader/reader.py` the database dictionary is a class attribute shared by every `ReaderDB`. The model makes it a field of the one database object.
- `ServerStore.ServerDB` likewise keeps its class-level dictionary as an instance field. `MAX_ID_VAL` is never used by the source and is not modelled.
- `ServerSession.ClientThread.HandleRelayAccept` and `ServerSession.ClientThread.HandleRelayReject` require the requesting user to be registered. The source assumes this and calls a method on `None` otherwise.
- `ServerSession.ClientThreadIterator.RemoveClientThread` and `ServerSession.ClientThread.HandleExit` require the thread to be registered. `list.remove` raises otherwise.
- `ServerSession.ParseRequest` decodes the fields of each known request. Its contract states only the malformed, ignored and `Exit` cases; the per-request results are stated by the round-trip lemmas in `Protocol`.
- `ReaderClient.InsertAll` states only that keys are kept and new ones are witnessed. The exact resulting database is stated by `Protocol.SyncStreamStored` for the post strings the server sends.
- The server stores only the first `#` piece of uploaded content (`ServerStore.ParseUpload`), while the reader rejoins every piece. Content holding `#` is therefore truncated by the server. This is modelled as written; the round-trip lemmas assume content without `#`.
- `ServerSession.ClientThread.HandleRelayReject` sends the requester a rejection naming the requester, not the user who rejected. This is modelled as written.

## Findings

| source | as written | input that shows it | evidently intended | confidence | as-written member | corrected member |
|---|---|---|---|---|---|---|
| reader/reader_ex.py:275-290 | when the display stream holds one item that is not an error, `pageContents` is replaced by that item's `#` pieces, and the loop then unpacks the empty first piece into three names | a page with exactly one line, e.g. the single item `#1#text` | a single item is checked for `Error` without replacing the list, and a one-line page is shown like any other | high, not executed | Protocol.OneLinePageAsWritten | Protocol.PageDisplayFixed |
