/**
 * The per-client side of the server: parsing a request received from a
 * reader, the handlers of `serve_client`, the registry of connected client
 * threads (`ClientThreadIterator`), the chat relay messages, and the server
 * end of the stream sub-protocol.
 */
module ServerSession {
  import opened PyText
  import Wire
  import opened Stream
  import opened ServerBooks
  import opened ServerStore

  // ---------------------------------------------------------------------
  // Requests
  // ---------------------------------------------------------------------

  /** A message from a reader, as `serve_client` reads it. */
  datatype Request =
    | Intro(userName: string, opmode: string, ipAddr: string)
    | Exit
    | DisplayReq(book: string, page: int)
    | UploadPost(info: string, content: string)
    | GetPostsIDReq(book: string, page: int)
    | GetPostsLocReq(book: string, page: int, readerIds: seq<int>)
    | SyncPostsReq(clientIds: seq<int>)
    | StartChatReq(target: string, aFreeport: string)
    | RelayAccept(bFreeport: string, aUserName: string, aFreeport: string)
    | RelayReject(aUserName: string)
    | Ignored    // an unknown tag, or a chat answer that is neither Accept nor Reject
    | Malformed  // the IndexError or ValueError that ends the client's thread

  predicate KnownTag(tag: string)
  {
    tag in {"Intro", "Exit", "DisplayReq", "UploadPost", "GetPostsIDReq", "GetPostsLocReq",
            "SyncPostsReq", "StartChatReq", "RelayStartChatResp"}
  }

  /** `data.split('#')` and the branch taken on its second piece. */
  function ParseRequest(data: string): (r: Request)
    ensures Wire.Tag(data).None? ==> r == Malformed
    ensures Wire.Tag(data).Some? && !KnownTag(Wire.Tag(data).value) ==> r == Ignored
    ensures Wire.Tag(data) == Some("Exit") ==> r == Exit
  {
    var parts := Split(data, "#");
    if |parts| < 2 then Malformed
    else
      var tag := parts[1];
      if tag == "Intro" then
        if |parts| < 5 then Malformed else Intro(parts[2], parts[3], parts[4])
      else if tag == "Exit" then Exit
      else if tag == "DisplayReq" then
        if |parts| < 4 then Malformed
        else match ParseInt(parts[3])
          case Some(n) => DisplayReq(parts[2], n)
          case None => Malformed
      else if tag == "UploadPost" then
        var afterTag := Split(data, "#UploadPost");
        if |afterTag| < 2 then Malformed
        else
          var halves := Split(afterTag[1], "|");
          if |halves| < 2 then Malformed else UploadPost(halves[0], halves[1])
      else if tag == "GetPostsIDReq" then
        if |parts| < 4 then Malformed
        else match ParseInt(parts[3])
          case Some(n) => GetPostsIDReq(parts[2], n)
          case None => Malformed
      else if tag == "GetPostsLocReq" then
        if |parts| < 5 then Malformed
        else match (ParseInt(parts[3]), Wire.ParseIdList(parts[4]))
          case (Some(n), Some(ids)) => GetPostsLocReq(parts[2], n, ids)
          case _ => Malformed
      else if tag == "SyncPostsReq" then
        var afterTag := Split(data, "#SyncPostsReq#");
        if |afterTag| < 2 then Malformed
        else match Wire.ParseIdList(afterTag[1])
          case Some(ids) => SyncPostsReq(ids)
          case None => Malformed
      else if tag == "StartChatReq" then
        if |parts| < 4 then Malformed else StartChatReq(parts[2], parts[3])
      else if tag == "RelayStartChatResp" then
        if |parts| < 3 then Malformed
        else if parts[2] == "Accept" then
          if |parts| < 6 then Malformed else RelayAccept(parts[3], parts[4], parts[5])
        else if parts[2] == "Reject" then
          if |parts| < 4 then Malformed else RelayReject(parts[3])
        else Ignored
      else Ignored
  }

  // ---------------------------------------------------------------------
  // Sync difference
  // ---------------------------------------------------------------------

  /** `[postID for postID in serverPostIDs if postID not in readerPostIDs]`. */
  function UnknownIds(serverIds: seq<int>, known: seq<int>): (r: seq<int>)
    ensures forall id :: id in r <==> id in serverIds && id !in known
    ensures NoDuplicates(serverIds) ==> NoDuplicates(r)
  {
    if serverIds == [] then []
    else
      var rest := UnknownIds(serverIds[1..], known);
      if serverIds[0] in known then rest
      else
        assert NoDuplicates(serverIds) ==> serverIds[0] !in serverIds[1..];
        [serverIds[0]] + rest
  }

  /** `[serverDB.getPostAsStr(postID)[1] for postID in ids]`. */
  function PostStrings(db: map<int, ServerPost>, ids: seq<int>): (r: seq<string>)
    requires forall id :: id in ids ==> id in db
    ensures |r| == |ids| && forall i :: 0 <= i < |ids| ==> r[i] == PostAsStr(ids[i], db[ids[i]])
  {
    if ids == [] then [] else [PostAsStr(ids[0], db[ids[0]])] + PostStrings(db, ids[1..])
  }

  // ---------------------------------------------------------------------
  // Chat relay messages
  // ---------------------------------------------------------------------

  /** `relayStartChatReq`: what B receives when A asks for a chat, `#RelayStartChatReq#aUserName#aIp#aFreeport`. */
  function RelayStartChatReqStr(aUserName: string, aIp: string, aFreeport: string): (r: string)
    ensures '#' !in aUserName && '#' !in aIp && '#' !in aFreeport ==>
      Split(r, "#") == ["", "RelayStartChatReq", aUserName, aIp, aFreeport]
  {
    SplitJoinWhenPlain(["", "RelayStartChatReq", aUserName, aIp, aFreeport], '#');
    Join(["", "RelayStartChatReq", aUserName, aIp, aFreeport], "#")
  }

  /** `startChat(True, ...)`: what A receives when B accepts, `#StartChatResp#Accept#bUserName#bIp#bFreeport#aFreeport`. */
  function StartChatAcceptStr(bUserName: string, bIp: string, bFreeport: string, aFreeport: string): (r: string)
    ensures '#' !in bUserName && '#' !in bIp && '#' !in bFreeport && '#' !in aFreeport ==>
      Split(r, "#") == ["", "StartChatResp", "Accept", bUserName, bIp, bFreeport, aFreeport]
  {
    SplitJoinWhenPlain(["", "StartChatResp", "Accept", bUserName, bIp, bFreeport, aFreeport], '#');
    Join(["", "StartChatResp", "Accept", bUserName, bIp, bFreeport, aFreeport], "#")
  }

  /** `startChat(False)` run on A's thread: it names the user of that thread, `#StartChatResp#Reject#ownUserName`. */
  function StartChatRejectStr(ownUserName: string): (r: string)
    ensures '#' !in ownUserName ==> Split(r, "#") == ["", "StartChatResp", "Reject", ownUserName]
  {
    SplitJoinWhenPlain(["", "StartChatResp", "Reject", ownUserName], '#');
    Join(["", "StartChatResp", "Reject", ownUserName], "#")
  }

  /** The answer to a chat request for an unknown user: `#StartChatResp#Error#User does not exists.`. */
  const NoSuchUserMsg := "User does not exists."
  const NoSuchUser := Join(["", "StartChatResp", "Error", NoSuchUserMsg], "#")

  // ---------------------------------------------------------------------
  // Clients and the registry of client threads
  // ---------------------------------------------------------------------

  /** `ClientObj`: what the server knows of a connected reader. */
  class ClientObj {
    var userName: string
    var opmode: string
    var ipAddr: string
    const sock: Channel

    constructor (sock: Channel)
      ensures userName == "" && opmode == "" && ipAddr == "" && this.sock == sock
    {
      userName := "";
      opmode := "";
      ipAddr := "";
      this.sock := sock;
    }
  }

  /** A message the server sends on some other client's socket. */
  datatype Delivery = Delivery(to: ClientThread, msg: string)

  /** What handling one request makes the serving thread do. */
  datatype Action =
    | NoReply
    | Closed
    | Reply(msg: string)
    | StreamOut(items: seq<string>, start: string, startAck: string, ack: string, end: string)
    | Uploaded(reply: string, pushed: seq<Delivery>)
    | Relay(delivery: Delivery)
    | Crash

  /** The client threads in push mode, in registry order. */
  function PushFilter(threads: seq<ClientThread>): (r: seq<ClientThread>)
    reads set t | t in threads :: t.client
    ensures forall i :: 0 <= i < |r| ==> r[i] in threads && r[i].client.opmode == "push"
    ensures forall i :: 0 <= i < |threads| && threads[i].client.opmode == "push" ==> threads[i] in r
    ensures |r| <= |threads|
    ensures NoDuplicates(threads) ==> NoDuplicates(r)
  {
    if threads == [] then []
    else
      var rest := PushFilter(threads[1..]);
      if threads[0].client.opmode == "push" then
        assert NoDuplicates(threads) ==> threads[0] !in threads[1..];
        [threads[0]] + rest
      else rest
  }

  /** `ClientThreadIterator`: the list of client threads and the derived push list. */
  class ClientThreadIterator {
    var clientThreads: seq<ClientThread>
    var pushThreads: seq<ClientThread>

    constructor (threads: seq<ClientThread>)
      ensures clientThreads == threads && pushThreads == PushFilter(threads)
    {
      clientThreads := threads;
      pushThreads := PushFilter(threads);
    }

    /**
     * The server's accept loop appends each new thread to the list this
     * registry shares with it; the push list is not recomputed.
     */
    method Append(t: ClientThread)
      modifies this
      ensures clientThreads == old(clientThreads) + [t] && pushThreads == old(pushThreads)
    {
      clientThreads := clientThreads + [t];
    }

    /** `updatePushList`. */
    method UpdatePushList()
      modifies this
      ensures clientThreads == old(clientThreads)
      ensures pushThreads == PushFilter(clientThreads)
    {
      pushThreads := PushFilter(clientThreads);
    }

    /** `removeClientThread`: `list.remove` (first occurrence), then `updatePushList`. */
    method RemoveClientThread(t: ClientThread)
      requires t in clientThreads
      modifies this
      ensures clientThreads == RemoveFirst(old(clientThreads), t)
      ensures pushThreads == PushFilter(clientThreads)
    {
      clientThreads := RemoveFirst(clientThreads, t);
      UpdatePushList();
    }

    /** `getClientThread`: the first registered thread with that user name, or null. */
    method GetClientThread(userName: string) returns (t: ClientThread?)
      ensures t == null ==> forall i :: 0 <= i < |clientThreads| ==> clientThreads[i].client.userName != userName
      ensures t != null ==> FirstNamed(clientThreads, userName, t)
    {
      for i := 0 to |clientThreads|
        invariant forall j :: 0 <= j < i ==> clientThreads[j].client.userName != userName
      {
        if clientThreads[i].client.userName == userName {
          return clientThreads[i];
        }
      }
      return null;
    }

    /** `pushPost`: one `#NewSinglePost` message to every thread on the push list, in order. */
    method PushPost(postData: string) returns (pushed: seq<Delivery>)
      ensures |pushed| == |pushThreads|
      ensures forall i :: 0 <= i < |pushed| ==> pushed[i] == Delivery(pushThreads[i], "#NewSinglePost" + postData)
    {
      pushed := [];
      for i := 0 to |pushThreads|
        invariant |pushed| == i
        invariant forall j :: 0 <= j < i ==> pushed[j] == Delivery(pushThreads[j], "#NewSinglePost" + postData)
      {
        pushed := pushed + [Delivery(pushThreads[i], "#NewSinglePost" + postData)];
      }
    }
  }

  /** Whether some registered thread has that user name. */
  predicate Registered(threads: seq<ClientThread>, userName: string)
    reads set t | t in threads :: t.client
  {
    exists i :: 0 <= i < |threads| && threads[i].client.userName == userName
  }

  /** `t` is the first thread of the list whose user has that name, the one `getClientThread` returns. */
  predicate FirstNamed(threads: seq<ClientThread>, userName: string, t: ClientThread)
    reads set u | u in threads :: u.client
  {
    exists i :: 0 <= i < |threads| && threads[i] == t && threads[i].client.userName == userName &&
      forall j :: 0 <= j < i ==> threads[j].client.userName != userName
  }

  /** `ClientThread`: the thread serving one reader. */
  class ClientThread {
    const client: ClientObj
    var stop: bool
    /** The `sendList` local of `serve_client`: bound only by a successful `GetPostsLocReq`. */
    var sendList: Option<seq<string>>

    constructor (sock: Channel)
      ensures fresh(client) && client.sock == sock
      ensures client.userName == "" && client.opmode == "" && client.ipAddr == ""
      ensures !stop && sendList.None?
    {
      client := new ClientObj(sock);
      stop := false;
      sendList := None;
    }

    // -------------------------------------------------------------------
    // The stream sub-protocol, server end
    // -------------------------------------------------------------------

    /** `listenFor`: discards received messages up to and including `#want`. */
    method ListenFor(want: string) returns (found: bool)
      modifies client.sock
      ensures Await(old(client.sock.inbox), "#" + want) == (if found then Some(client.sock.inbox) else None)
      ensures !found ==> client.sock.inbox == []
      ensures client.sock.outbox == old(client.sock.outbox)
    {
      var sock := client.sock;
      var msg := sock.Recv();
      while msg.Some? && msg.value != "#" + want
        invariant sock.outbox == old(sock.outbox)
        invariant msg.None? ==> sock.inbox == []
        invariant Await(old(sock.inbox), "#" + want) ==
          (if msg == Some("#" + want) then Some(sock.inbox)
           else if msg.None? then None
           else Await(sock.inbox, "#" + want))
        decreases |sock.inbox| + (if msg.Some? then 1 else 0)
      {
        msg := sock.Recv();
      }
      found := msg.Some?;
    }

    /** One item of `sendStream`: send it, then `listenFor(ack)`. */
    method SendItem(item: string, ack: string) returns (acked: bool)
      modifies client.sock
      ensures client.sock.outbox == old(client.sock.outbox) + [item]
      ensures Await(old(client.sock.inbox), "#" + ack) == (if acked then Some(client.sock.inbox) else None)
      ensures !acked ==> client.sock.inbox == []
    {
      client.sock.Send(item);
      acked := ListenFor(ack);
    }

    /** The item loop of `sendStream`: each item followed by a wait for `#ack`, then `#end`. */
    method SendItemsOut(items: seq<string>, ack: string, end: string) returns (status: Status)
      modifies client.sock
      ensures var r := SendItems(items, ack, end, old(client.sock.inbox));
        client.sock.outbox == old(client.sock.outbox) + r.sent && client.sock.inbox == r.rest && status == r.status
    {
      var sock := client.sock;
      ghost var inbox0 := sock.inbox;
      ghost var out0 := sock.outbox;
      SendLoopStart(items, ack, end, inbox0);
      for i := 0 to |items|
        invariant sock.outbox == out0 + items[..i]
        invariant SendItems(items, ack, end, inbox0) == After(items[..i], SendItems(items[i..], ack, end, sock.inbox))
      {
        ghost var waiting := sock.inbox;
        SentOneMore(out0, items, i);
        var acked := SendItem(items[i], ack);
        SendLoopStep(items, i, ack, end, inbox0, waiting, if acked then Some(sock.inbox) else None);
        if !acked {
          return Blocked;
        }
      }
      SendLoopEnd(items, ack, end, inbox0, sock.inbox);
      sock.Send("#" + end);
      status := Done;
    }

    /** `sendStream`: `#start`, wait for `#startAck`, then the items and `#end`. */
    method SendStream(items: seq<string>, start: string, startAck: string, ack: string, end: string)
      returns (status: Status)
      modifies client.sock
      ensures var r := SendStreamSpec(items, start, startAck, ack, end, old(client.sock.inbox));
        client.sock.outbox == old(client.sock.outbox) + r.sent && client.sock.inbox == r.rest && status == r.status
    {
      client.sock.Send("#" + start);
      var ready := ListenFor(startAck);
      if !ready {
        return Blocked;
      }
      status := SendItemsOut(items, ack, end);
    }

    // -------------------------------------------------------------------
    // Handlers of serve_client
    // -------------------------------------------------------------------

    /** `Intro`: records the reader's name, mode and address and refreshes the push list. */
    method HandleIntro(userName: string, opmode: string, ipAddr: string, registry: ClientThreadIterator)
      modifies client, registry
      ensures client.userName == userName && client.opmode == opmode && client.ipAddr == ipAddr
      ensures registry.clientThreads == old(registry.clientThreads)
      ensures registry.pushThreads == PushFilter(registry.clientThreads)
    {
      client.userName := userName;
      client.opmode := opmode;
      client.ipAddr := ipAddr;
      registry.UpdatePushList();
    }

    /** `Exit`: stops serving and leaves the registry. */
    method HandleExit(registry: ClientThreadIterator)
      requires this in registry.clientThreads
      modifies this, registry
      ensures stop && sendList == old(sendList)
      ensures registry.clientThreads == RemoveFirst(old(registry.clientThreads), this)
      ensures registry.pushThreads == PushFilter(registry.clientThreads)
    {
      stop := true;
      registry.RemoveClientThread(this);
    }

    /** `UploadPost`: insert, answer the uploader, and push the stored post to push-mode readers. */
    method HandleUpload(db: ServerDB, books: map<string, Book>, registry: ClientThreadIterator,
                        info: string, content: string) returns (act: Action)
      requires db.Valid()
      modifies db
      ensures db.Valid()
      ensures ParseUpload(info, content).None? ==> act == Crash && db.db == old(db.db)
      ensures ParseUpload(info, content).Some? && RejectReason(books, ParseUpload(info, content).value).Some? ==>
        act == Reply("#UploadPostResp#Error#" + RejectReason(books, ParseUpload(info, content).value).value) &&
        db.db == old(db.db)
      ensures ParseUpload(info, content).Some? && RejectReason(books, ParseUpload(info, content).value).None? ==>
        var id := MIN_ID_VAL + |old(db.postIds)|;
        db.db == old(db.db)[id := ParseUpload(info, content).value] &&
        act.Uploaded? && act.reply == "#UploadPostResp#Success" &&
        |act.pushed| == |registry.pushThreads| &&
        forall i :: 0 <= i < |act.pushed| ==>
          act.pushed[i] == Delivery(registry.pushThreads[i], "#NewSinglePost" + PostAsStr(id, db.db[id]))
    {
      var outcome := db.InsertPost(books, info, content);
      match outcome
      case Raised => act := Crash;
      case Refused(msg) => act := Reply("#UploadPostResp#Error#" + msg);
      case Inserted(id) =>
        var stored := db.GetPostAsStr(id);
        var pushed := registry.PushPost(stored.value);
        act := Uploaded("#UploadPostResp#Success", pushed);
    }

    /** `StartChatReq`: relay the invitation to the target reader, or answer that no such user exists. */
    method HandleStartChat(registry: ClientThreadIterator, target: string, aFreeport: string) returns (act: Action)
      ensures !Registered(registry.clientThreads, target) ==> act == Reply(NoSuchUser)
      ensures Registered(registry.clientThreads, target) ==>
        act.Relay? && FirstNamed(registry.clientThreads, target, act.delivery.to) &&
        act.delivery.msg == RelayStartChatReqStr(client.userName, client.ipAddr, aFreeport)
    {
      var b := registry.GetClientThread(target);
      if b == null {
        return Reply(NoSuchUser);
      }
      act := Relay(Delivery(b, RelayStartChatReqStr(client.userName, client.ipAddr, aFreeport)));
    }

    /**
     * `RelayStartChatResp#Accept`: B's acceptance goes to A with B's name,
     * address and port. The requester A is assumed to be registered.
     */
    method HandleRelayAccept(registry: ClientThreadIterator, bFreeport: string, aUserName: string, aFreeport: string)
      returns (act: Action)
      requires Registered(registry.clientThreads, aUserName)
      ensures act.Relay? && FirstNamed(registry.clientThreads, aUserName, act.delivery.to)
      ensures act.delivery.msg == StartChatAcceptStr(client.userName, client.ipAddr, bFreeport, aFreeport)
    {
      var a := registry.GetClientThread(aUserName);
      act := Relay(Delivery(a, StartChatAcceptStr(client.userName, client.ipAddr, bFreeport, aFreeport)));
    }

    /**
     * `RelayStartChatResp#Reject`: `startChat(False)` runs on A's thread and
     * so names A, the requester, rather than B who declined.
     */
    method HandleRelayReject(registry: ClientThreadIterator, aUserName: string) returns (act: Action)
      requires Registered(registry.clientThreads, aUserName)
      ensures act.Relay? && FirstNamed(registry.clientThreads, aUserName, act.delivery.to)
      ensures act.delivery.msg == StartChatRejectStr(aUserName)
    {
      var a := registry.GetClientThread(aUserName);
      act := Relay(Delivery(a, StartChatRejectStr(a.client.userName)));
    }

    /**
     * `GetPostsLocReq`: the posts of that page the reader lacks. On a lookup
     * error the error item is appended to the `sendList` of an earlier
     * request; with no earlier list the thread dies (UnboundLocalError).
     */
    method HandleGetPostsLoc(db: ServerDB, books: map<string, Book>, book: string, page: int, readerIds: seq<int>)
      returns (act: Action)
      modifies this
      ensures stop == old(stop)
      ensures (book !in books || !HasPage(books[book], page)) && old(sendList).None? ==>
        act == Crash && sendList.None?
      ensures (book !in books || !HasPage(books[book], page)) && old(sendList).Some? ==>
        var msg := if book !in books then BookNotFound(book) else PageNotFound(page);
        sendList == Some(old(sendList).value + ["#Error#" + msg]) &&
        act == StreamOut(sendList.value, "GetPostsLocResp", "BeginGetPostsLocResp", "NewPostRcvd", "EndGetPostsLocResp")
      ensures book in books && HasPage(books[book], page) ==>
        exists ids :: NoDuplicates(ids) &&
          (forall id :: id in ids <==> id in db.db && db.db[id].book == book && db.db[id].page == page && id !in readerIds) &&
          sendList == Some(PostStrings(db.db, ids)) &&
          act == StreamOut(PostStrings(db.db, ids), "GetPostsLocResp", "BeginGetPostsLocResp", "NewPostRcvd", "EndGetPostsLocResp")
    {
      var found := db.GetPostsID(books, book, page);
      if found.Failure? {
        if sendList.None? {
          return Crash;
        }
        sendList := Some(sendList.value + ["#Error#" + found.msg]);
      } else {
        var unknown := UnknownIds(found.value, readerIds);
        sendList := Some(PostStrings(db.db, unknown));
      }
      act := StreamOut(sendList.value, "GetPostsLocResp", "BeginGetPostsLocResp", "NewPostRcvd", "EndGetPostsLocResp");
    }
  }

  /** `DisplayReq`: the display items of a page, or the one error item for an unknown book. */
  method DisplayItems(books: map<string, Book>, book: string, page: int) returns (items: seq<string>)
    ensures book !in books ==> items == ["#Error#Book name '" + book + "' not found."]
    ensures book in books && !HasPage(books[book], page) ==> items == [PageMissing(page)]
    ensures book in books && HasPage(books[book], page) ==>
      var p := books[book].pages[page - 1];
      |items| == |p.lines| && forall i :: 0 <= i < |items| ==> items[i] == DisplayLineStr(p.lines[i])
  {
    if book !in books {
      return ["#Error#Book name '" + book + "' not found."];
    }
    items := GetPageContent(books[book], page);
  }

  /** `GetPostsIDReq`: `#GetPostsIDResp#` and the page's IDs, or `#Error#` and the lookup error. */
  method GetPostsIDReply(db: ServerDB, books: map<string, Book>, book: string, page: int) returns (msg: string)
    ensures book !in books ==> msg == "#Error#" + BookNotFound(book)
    ensures book in books && !HasPage(books[book], page) ==> msg == "#Error#" + PageNotFound(page)
    ensures book in books && HasPage(books[book], page) ==>
      exists ids :: NoDuplicates(ids) &&
        (forall id :: id in ids <==> id in db.db && db.db[id].book == book && db.db[id].page == page) &&
        msg == "#GetPostsIDResp#" + Wire.JoinIds(ids)
  {
    var found := db.GetPostsID(books, book, page);
    match found
    case Failure(m) => msg := "#Error#" + m;
    case Success(ids) => msg := Wire.AppendIds("#GetPostsIDResp#", ids);
  }

  /** `SyncPostsReq`: every stored post whose ID is not among the reader's, serialised. */
  method SyncItems(db: ServerDB, clientIds: seq<int>) returns (ids: seq<int>, items: seq<string>)
    ensures NoDuplicates(ids)
    ensures forall id :: id in ids <==> id in db.db && id !in clientIds
    ensures forall id :: id in ids ==> id in db.db
    ensures items == PostStrings(db.db, ids)
  {
    var serverIds := db.GetAllPostIds();
    ids := UnknownIds(serverIds, clientIds);
    items := PostStrings(db.db, ids);
  }
}
