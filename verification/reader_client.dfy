/**
 * The reader's side of the conversation with the server: the requests it
 * builds, the chat messages it exchanges with other readers, the decoding of
 * what the listening thread receives, and the reader end of the stream
 * sub-protocol. Sending a request on the socket is left to the caller: each
 * request builder returns the message it would send.
 */
module ReaderClient {
  import opened PyText
  import Wire
  import opened Stream
  import opened ReaderStore

  // ---------------------------------------------------------------------
  // Requests
  // ---------------------------------------------------------------------

  /** `reqSyncPosts`: `#SyncPostsReq#` and every locally stored ID, comma-separated. */
  method ReqSyncPosts(db: ReaderDB) returns (msg: string)
    ensures exists ids ::
      NoDuplicates(ids) && (forall id :: id in ids <==> id in db.db) && msg == "#SyncPostsReq#" + Wire.JoinIds(ids)
  {
    var postIDs := db.GetAllPostIds();
    msg := Wire.AppendIds("#SyncPostsReq#", postIDs);
  }

  /**
   * `reqUpdateLocalPosts(bookname, pagenum)`: `#GetPostsLocReq#book#page#`
   * and the IDs already held for that page.
   */
  method ReqUpdateLocalPosts(db: ReaderDB, book: string, page: int) returns (msg: string)
    ensures exists ids ::
      (NoDuplicates(ids) &&
       (forall id :: id in ids <==> id in db.db && db.db[id].book == book && db.db[id].page == page) &&
       msg == LocRequestHead(book, page) + "#" + Wire.JoinIds(ids))
  {
    var knownIDs := db.GetPostIDs(ByPage(book, page));
    msg := Wire.AppendIds(LocRequestHead(book, page) + "#", knownIDs);
  }

  /** `#GetPostsLocReq#book#page`, the fields before the ID list. */
  function LocRequestHead(book: string, page: int): string
  {
    Join(["", "GetPostsLocReq", book, IntToString(page)], "#")
  }

  /** `reqDisplayPage(bookName, pageNum)`: `#DisplayReq#book#page`. */
  function ReqDisplayPage(book: string, page: int): (r: string)
    ensures '#' !in book ==> Split(r, "#") == ["", "DisplayReq", book, IntToString(page)]
  {
    var fields := ["", "DisplayReq", book, IntToString(page)];
    NumeralAvoids(page, '#');
    SplitJoinWhenPlain(fields, '#');
    Join(fields, "#")
  }

  /** The info string of a new post, built by the `post_to_forum` command: `#NewPostInfo#user#book#page#line`. */
  function NewPostInfoStr(user: string, book: string, page: int, line: int): (r: string)
    ensures '#' !in user && '#' !in book ==>
      Split(r, "#") == ["", "NewPostInfo", user, book, IntToString(page), IntToString(line)]
  {
    var fields := ["", "NewPostInfo", user, book, IntToString(page), IntToString(line)];
    NumeralAvoids(page, '#');
    NumeralAvoids(line, '#');
    SplitJoinWhenPlain(fields, '#');
    Join(fields, "#")
  }

  /** The content string of a new post: `#NewPostContent#content`. */
  function NewPostContentStr(content: string): (r: string)
    ensures '#' !in content ==> Split(r, "#") == ["", "NewPostContent", content]
  {
    SplitJoinWhenPlain(["", "NewPostContent", content], '#');
    Join(["", "NewPostContent", content], "#")
  }

  /**
   * `sendNewPost(postInfoStr, postContentStr)`: `#UploadPost`, the info
   * string, '|' and the content string. The server reads the tag as the
   * second '#'-piece and the rest as what follows `#UploadPost`.
   */
  function SendNewPost(info: string, content: string): (r: string)
    ensures |info| >= 1 && info[0] == '#' ==> |Split(r, "#")| >= 2 && Split(r, "#")[1] == "UploadPost"
    ensures !Occurs(info + "|" + content, "#UploadPost") ==> Split(r, "#UploadPost") == ["", info + "|" + content]
  {
    var rest := info + "|" + content;
    UploadTag(rest);
    UploadAfterTag(rest);
    assert "#UploadPost" + info + "|" + content == "#UploadPost" + rest;
    "#UploadPost" + info + "|" + content
  }

  /** The second '#'-piece of `#UploadPost` followed by a '#'-led string is the tag. */
  lemma UploadTag(rest: string)
    ensures |rest| >= 1 && rest[0] == '#' ==>
      |Split("#UploadPost" + rest, "#")| >= 2 && Split("#UploadPost" + rest, "#")[1] == "UploadPost"
  {
    if |rest| >= 1 && rest[0] == '#' {
      assert "#UploadPost" + rest == ['#'] + "UploadPost" + ['#'] + rest[1..];
      SplitTagged('#', "UploadPost", rest[1..]);
    }
  }

  /** Splitting on the tag leaves what follows it, when the tag does not recur. */
  lemma UploadAfterTag(rest: string)
    ensures !Occurs(rest, "#UploadPost") ==> Split("#UploadPost" + rest, "#UploadPost") == ["", rest]
  {
    if !Occurs(rest, "#UploadPost") {
      SplitLeadingSeparator("#UploadPost", rest);
      SplitNoOccurrence(rest, "#UploadPost");
    }
  }

  /** `reqChatSession(targetUser)`: `#StartChatReq#target#chatPort`. */
  function ReqChatSession(target: string, chatPort: int): (r: string)
    ensures '#' !in target ==> Split(r, "#") == ["", "StartChatReq", target, IntToString(chatPort)]
  {
    var fields := ["", "StartChatReq", target, IntToString(chatPort)];
    NumeralAvoids(chatPort, '#');
    SplitJoinWhenPlain(fields, '#');
    Join(fields, "#")
  }

  /** B's answer when it accepts A's invitation: `#RelayStartChatResp#Accept#bChatPort#aUserName#aChatPort`. */
  function ChatAcceptStr(bChatPort: int, aUserName: string, aChatPort: int): (r: string)
    ensures '#' !in aUserName ==>
      Split(r, "#") == ["", "RelayStartChatResp", "Accept", IntToString(bChatPort), aUserName, IntToString(aChatPort)]
  {
    var fields := ["", "RelayStartChatResp", "Accept", IntToString(bChatPort), aUserName, IntToString(aChatPort)];
    NumeralAvoids(bChatPort, '#');
    NumeralAvoids(aChatPort, '#');
    SplitJoinWhenPlain(fields, '#');
    Join(fields, "#")
  }

  /** B's answer when it declines: `#RelayStartChatResp#Reject#aUserName`. */
  function ChatRejectStr(aUserName: string): (r: string)
    ensures '#' !in aUserName ==> Split(r, "#") == ["", "RelayStartChatResp", "Reject", aUserName]
  {
    SplitJoinWhenPlain(["", "RelayStartChatResp", "Reject", aUserName], '#');
    Join(["", "RelayStartChatResp", "Reject", aUserName], "#")
  }

  /** The invitation the server relays to B, as B's listening thread reads it. */
  datatype Invitation = Invitation(aUserName: string, aIp: string, aChatPort: int)

  /** `#RelayStartChatReq#user#ip#port`: `None` is the IndexError or ValueError. */
  function DecodeInvitation(data: string): (r: Option<Invitation>)
    ensures r.Some? <==> |Split(data, "#")| >= 5 && ParseInt(Split(data, "#")[4]).Some?
    ensures r.Some? ==>
      |Split(data, "#")| >= 5 && r.value.aUserName == Split(data, "#")[2] &&
      r.value.aIp == Split(data, "#")[3] && ParseInt(Split(data, "#")[4]) == Some(r.value.aChatPort)
  {
    var parts := Split(data, "#");
    if |parts| < 5 then None
    else match ParseInt(parts[4])
      case Some(port) => Some(Invitation(parts[2], parts[3], port))
      case None => None
  }

  /** What A's listening thread makes of B's answer, relayed as `#StartChatResp#…`. */
  datatype ChatAnswer =
    | Accepted(bUserName: string, bIp: string, bChatPort: int)
    | Rejected(bUserName: string)
    | ChatError(msg: string)
    | OtherAnswer   // a kind the branch neither acts on nor reports

  /**
   * The `StartChatResp` branch: the user name is the fourth piece and is read
   * before the kind is looked at; an acceptance also carries B's address and
   * chat port. `None` is the IndexError or ValueError.
   */
  function DecodeChatAnswer(data: string): (r: Option<ChatAnswer>)
    ensures r.Some? <==>
      |Split(data, "#")| >= 4 &&
      (Split(data, "#")[2] == "Accept" ==> |Split(data, "#")| >= 6 && ParseInt(Split(data, "#")[5]).Some?)
    ensures r.Some? && Split(data, "#")[2] == "Accept" ==>
      r.value == Accepted(Split(data, "#")[3], Split(data, "#")[4], ParseInt(Split(data, "#")[5]).value)
    ensures r.Some? && Split(data, "#")[2] == "Reject" ==> r.value == Rejected(Split(data, "#")[3])
    ensures r.Some? && Split(data, "#")[2] == "Error" ==> r.value == ChatError(Split(data, "#")[3])
    ensures r.Some? && Split(data, "#")[2] !in {"Accept", "Reject", "Error"} ==> r.value == OtherAnswer
  {
    var parts := Split(data, "#");
    if |parts| < 4 then None
    else if parts[2] == "Accept" then
      if |parts| < 6 then None
      else match ParseInt(parts[5])
        case Some(port) => Some(Accepted(parts[3], parts[4], port))
        case None => None
    else if parts[2] == "Reject" then Some(Rejected(parts[3]))
    else if parts[2] == "Error" then Some(ChatError(parts[3]))
    else Some(OtherAnswer)
  }

  // ---------------------------------------------------------------------
  // Chat messages between readers
  // ---------------------------------------------------------------------

  /** `sendChatMessage`: `#NewChatMessage#sender#message`. */
  function ChatMessageStr(sender: string, text: string): (r: string)
    ensures '#' !in sender ==> Split(r, "#") == ["", "NewChatMessage", sender] + Split(text, "#")
  {
    var msg := "#NewChatMessage#" + sender + "#" + text;
    if '#' in sender then msg
    else
      var tail := sender + ['#'] + text;
      assert msg == ['#'] + "NewChatMessage" + ['#'] + tail;
      SplitTagged('#', "NewChatMessage", tail);
      SplitAtFirst(sender, '#', text);
      msg
  }

  /**
   * The chat thread's decoding: fewer than four '#'-pieces is ignored;
   * otherwise the sender is the third piece and the message every later
   * piece re-joined with '#'.
   */
  function DecodeChatMessage(msg: string): (r: Option<(string, string)>)
    ensures r.Some? <==> |Split(msg, "#")| >= 4
    ensures r.Some? ==> r.value == (Split(msg, "#")[2], Join(Split(msg, "#")[3..], "#"))
  {
    var parts := Split(msg, "#");
    if |parts| < 4 then None else Some((parts[2], Join(parts[3..], "#")))
  }

  /** A chat message decodes to its sender and its whole text, '#' included. */
  lemma ChatMessageRoundTrip(sender: string, text: string)
    requires '#' !in sender
    ensures DecodeChatMessage(ChatMessageStr(sender, text)) == Some((sender, text))
  {
    var parts := Split(ChatMessageStr(sender, text), "#");
    assert parts[3..] == Split(text, "#");
    JoinSplit(text, "#");
  }

  // ---------------------------------------------------------------------
  // What the listening thread receives
  // ---------------------------------------------------------------------

  /** `postData.split('|')[0]` and `[1]`: `None` is the IndexError of a string without '|'. */
  function PostHalves(postData: string): (r: Option<(string, string)>)
    ensures r.Some? <==> '|' in postData
    ensures r.Some? ==> |Split(postData, "|")| >= 2 && r.value == (Split(postData, "|")[0], Split(postData, "|")[1])
  {
    SplitCountsChar(postData, '|');
    var halves := Split(postData, "|");
    if |halves| < 2 then None else Some((halves[0], halves[1]))
  }

  /** `data.split('#NewSinglePost')[1]`, then its two halves. */
  function DecodeNewSinglePost(data: string): (r: Option<(string, string)>)
    ensures r.Some? <==> |Split(data, "#NewSinglePost")| >= 2 && '|' in Split(data, "#NewSinglePost")[1]
    ensures r.Some? ==> |Split(data, "#NewSinglePost")| >= 2 && PostHalves(Split(data, "#NewSinglePost")[1]) == r
  {
    var afterTag := Split(data, "#NewSinglePost");
    if |afterTag| < 2 then None else PostHalves(afterTag[1])
  }

  /** What handling a pushed post ends in: whether the new-posts notice is printed, or an exception. */
  datatype PushOutcome = Noticed(onCurrentPage: bool) | PushCrash

  /**
   * The `NewSinglePost` branch: the post is inserted, then its info string is
   * split again to compare its book and page with the page on display.
   */
  method OnNewSinglePost(db: ReaderDB, data: string, currentBook: string, currentPage: int) returns (r: PushOutcome)
    modifies db
    ensures DecodeNewSinglePost(data).None? ==> r == PushCrash && db.db == old(db.db)
    ensures DecodeNewSinglePost(data).Some? ==>
      var (info, content) := DecodeNewSinglePost(data).value;
      var parsed := ParseWirePost(info, content);
      (parsed.Parsed? ==> db.db == old(db.db)[parsed.id := parsed.post]) &&
      (!parsed.Parsed? ==> db.db == old(db.db)) &&
      (parsed.ParseError? ==> r == PushCrash) &&
      (parsed.Parsed? ==> r == Noticed(parsed.post.book == currentBook && parsed.post.page == currentPage)) &&
      (parsed.IdMismatch? ==>
        var fields := Split(info, "#");
        (|fields| < 6 || ParseInt(fields[5]).None? ==> r == PushCrash) &&
        (|fields| >= 6 && ParseInt(fields[5]).Some? ==>
          r == Noticed(fields[4] == currentBook && ParseInt(fields[5]).value == currentPage)))
  {
    var halves := DecodeNewSinglePost(data);
    if halves.None? {
      return PushCrash;
    }
    var (info, content) := halves.value;
    var parsed := db.InsertPost(info, content);
    if parsed.ParseError? {
      return PushCrash;
    }
    var fields := Split(info, "#");
    if |fields| < 6 {
      return PushCrash;
    }
    var pageNum := ParseInt(fields[5]);
    if pageNum.None? {
      return PushCrash;
    }
    r := Noticed(fields[4] == currentBook && pageNum.value == currentPage);
  }

  /** The database after inserting streamed posts in order, and whether the loop got to the end. */
  function InsertAll(db: map<int, ReaderPost>, posts: seq<string>): (r: (map<int, ReaderPost>, bool))
    ensures db.Keys <= r.0.Keys
    ensures forall id :: id in r.0 && id !in db ==> exists i :: 0 <= i < |posts| && Stored(posts[i], id)
    decreases |posts|
  {
    if posts == [] then (db, true)
    else
      match PostHalves(posts[0])
      case None => (db, false)
      case Some((info, content)) =>
        match ParseWirePost(info, content)
        case ParseError => (db, false)
        case IdMismatch =>
          var r := InsertAll(db, posts[1..]);
          InsertAllWitness(posts, r.0, db);
          r
        case Parsed(id, p) =>
          var r := InsertAll(db[id := p], posts[1..]);
          assert Stored(posts[0], id);
          InsertAllWitness(posts, r.0, db[id := p]);
          r
  }

  /** The stream item `postData` carries a well-formed post with this ID. */
  predicate Stored(postData: string, id: int)
  {
    PostHalves(postData).Some? &&
    var parsed := ParseWirePost(PostHalves(postData).value.0, PostHalves(postData).value.1);
    parsed.Parsed? && parsed.id == id
  }

  /** A witness found among the later posts is a witness among all of them. */
  lemma InsertAllWitness(posts: seq<string>, after: map<int, ReaderPost>, db: map<int, ReaderPost>)
    requires posts != []
    requires forall id :: id in after && id !in db ==> exists i :: 0 <= i < |posts[1..]| && Stored(posts[1..][i], id)
    ensures forall id :: id in after && id !in db ==> exists i :: 0 <= i < |posts| && Stored(posts[i], id)
  {
    forall id | id in after && id !in db
      ensures exists i :: 0 <= i < |posts| && Stored(posts[i], id)
    {
      var i :| 0 <= i < |posts[1..]| && Stored(posts[1..][i], id);
      assert Stored(posts[i + 1], id);
    }
  }

  /** The `SyncPostsResp` branch after the stream: insert every received post, in order. */
  method StoreSyncedPosts(db: ReaderDB, posts: seq<string>) returns (completed: bool)
    modifies db
    ensures (db.db, completed) == InsertAll(old(db.db), posts)
  {
    for i := 0 to |posts|
      invariant InsertAll(old(db.db), posts) == InsertAll(db.db, posts[i..])
    {
      assert posts[i..][1..] == posts[i + 1..];
      var halves := PostHalves(posts[i]);
      if halves.None? {
        return false;
      }
      var parsed := db.InsertPost(halves.value.0, halves.value.1);
      if parsed.ParseError? {
        return false;
      }
    }
    assert posts[|posts|..] == [];
    completed := true;
  }

  /**
   * The `GetPostsLocResp` branch after the stream: nothing to do for an
   * empty list or a single `#Error#…` item, otherwise as for a sync.
   */
  method StoreLocPosts(db: ReaderDB, posts: seq<string>) returns (completed: bool)
    modifies db
    ensures |posts| == 1 && |Split(posts[0], "#")| < 2 ==> !completed && db.db == old(db.db)
    ensures |posts| == 1 && |Split(posts[0], "#")| >= 2 && Split(posts[0], "#")[1] == "Error" ==>
      completed && db.db == old(db.db)
    ensures !(|posts| == 1 && (|Split(posts[0], "#")| < 2 || Split(posts[0], "#")[1] == "Error")) ==>
      (db.db, completed) == InsertAll(old(db.db), posts)
  {
    if |posts| == 0 {
      return true;
    }
    if |posts| == 1 {
      var postData := Split(posts[0], "#");
      if |postData| < 2 {
        return false;
      }
      if postData[1] == "Error" {
        return true;
      }
    }
    completed := StoreSyncedPosts(db, posts);
  }

  // ---------------------------------------------------------------------
  // Display
  // ---------------------------------------------------------------------

  /** What the display branch does with the received page: show an error, or walk over these items. */
  datatype DisplayPlan = ShowError(msg: string) | ShowLines(items: seq<string>) | PlanCrash

  /**
   * The error check of the `DisplayResp` branch as written: a one-item
   * stream is replaced by the '#'-pieces of that item, so a page of exactly
   * one line is walked piece by piece.
   */
  function DisplayPlanAsWritten(contents: seq<string>): (r: DisplayPlan)
    ensures !r.ShowLines? ==> r == DisplayPlanFixed(contents)
    ensures r.ShowLines? <==> DisplayPlanFixed(contents).ShowLines?
    ensures r.ShowLines? && |contents| == 1 ==> r.items == Split(contents[0], "#")
    ensures r.ShowLines? && |contents| != 1 ==> r.items == contents
  {
    if |contents| == 1 then
      var comps := Split(contents[0], "#");
      if |comps| < 2 then PlanCrash
      else if comps[1] == "Error" then (if |comps| < 3 then PlanCrash else ShowError(comps[2]))
      else ShowLines(comps)
    else ShowLines(contents)
  }

  /**
   * The same check keeping the received items when the single item is not
   * an error: a lone `#Error#msg` item is the error `msg`; a lone item with
   * fewer than two pieces, or an error item without its message, raises
   * IndexError; anything else is shown line by line as received.
   */
  function DisplayPlanFixed(contents: seq<string>): (r: DisplayPlan)
    ensures r.ShowLines? ==> r.items == contents
    ensures |contents| != 1 ==> r == ShowLines(contents)
    ensures |contents| == 1 ==>
      var comps := Split(contents[0], "#");
      (r == PlanCrash <==> |comps| < 2 || (comps[1] == "Error" && |comps| < 3)) &&
      (r.ShowError? <==> |comps| >= 3 && comps[1] == "Error") &&
      (r.ShowError? ==> r.msg == comps[2])
  {
    if |contents| == 1 then
      var comps := Split(contents[0], "#");
      if |comps| < 2 then PlanCrash
      else if comps[1] == "Error" then (if |comps| < 3 then PlanCrash else ShowError(comps[2]))
      else ShowLines(contents)
    else ShowLines(contents)
  }

  /** `_, linenum, linecontent = pageContent.split('#')` and `int(linenum)`: `None` is the ValueError. */
  function ParseDisplayLine(item: string): (r: Option<(int, string)>)
    ensures r.Some? <==> |Split(item, "#")| == 3 && ParseInt(Split(item, "#")[1]).Some?
    ensures r.Some? ==>
      |Split(item, "#")| == 3 && ParseInt(Split(item, "#")[1]) == Some(r.value.0) && r.value.1 == Split(item, "#")[2]
  {
    var parts := Split(item, "#");
    if |parts| != 3 then None
    else match ParseInt(parts[1])
      case Some(n) => Some((n, parts[2]))
      case None => None
  }

  /** One printed line of a page: its post-status character, number and text. */
  datatype Row = Row(status: char, lineNum: int, text: string)

  /** The outcome of the display branch. */
  datatype Shown = ShownError(msg: string) | ShownRows(rows: seq<Row>) | ShownCrash

  /**
   * The `DisplayResp` branch after the stream, with the one-line fix: each
   * item is parsed and paired with the status character of its line.
   */
  method DisplayPage(db: ReaderDB, book: string, page: int, contents: seq<string>) returns (r: Shown)
    ensures DisplayPlanFixed(contents) == PlanCrash ==> r == ShownCrash
    ensures DisplayPlanFixed(contents).ShowError? ==> r == ShownError(DisplayPlanFixed(contents).msg)
    ensures r.ShownRows? ==>
      DisplayPlanFixed(contents).ShowLines? && |r.rows| == |contents| &&
      forall i :: 0 <= i < |contents| ==>
        ParseDisplayLine(contents[i]) == Some((r.rows[i].lineNum, r.rows[i].text)) &&
        (r.rows[i].status == ' ' <==> forall id :: id in db.db ==> !Matches(db.db[id], ByLine(book, page, r.rows[i].lineNum))) &&
        (r.rows[i].status == 'n' <==>
          exists id :: id in db.db && Matches(db.db[id], ByLine(book, page, r.rows[i].lineNum)) && db.db[id].status == Unread) &&
        r.rows[i].status in {' ', 'n', 'm'}
    ensures DisplayPlanFixed(contents).ShowLines? && (forall i :: 0 <= i < |contents| ==> ParseDisplayLine(contents[i]).Some?) ==>
      r.ShownRows?
    ensures DisplayPlanFixed(contents).ShowLines? && (exists i :: 0 <= i < |contents| && ParseDisplayLine(contents[i]).None?) ==>
      r == ShownCrash
  {
    var plan := DisplayPlanFixed(contents);
    match plan
    case PlanCrash => return ShownCrash;
    case ShowError(msg) => return ShownError(msg);
    case ShowLines(items) =>
      var rows: seq<Row> := [];
      for i := 0 to |items|
        invariant |rows| == i
        invariant forall j :: 0 <= j < i ==> ParseDisplayLine(items[j]).Some?
        invariant forall j :: 0 <= j < i ==>
          ParseDisplayLine(items[j]) == Some((rows[j].lineNum, rows[j].text)) &&
          (rows[j].status == ' ' <==> forall id :: id in db.db ==> !Matches(db.db[id], ByLine(book, page, rows[j].lineNum))) &&
          (rows[j].status == 'n' <==>
            exists id :: id in db.db && Matches(db.db[id], ByLine(book, page, rows[j].lineNum)) && db.db[id].status == Unread) &&
          rows[j].status in {' ', 'n', 'm'}
      {
        var line := ParseDisplayLine(items[i]);
        if line.None? {
          return ShownCrash;
        }
        var c := db.ConsultPostsStatus(book, page, line.value.0);
        rows := rows + [Row(c, line.value.0, line.value.1)];
      }
      return ShownRows(rows);
  }

  // ---------------------------------------------------------------------
  // The stream sub-protocol, reader end
  // ---------------------------------------------------------------------

  /** The wait loop `sendStream` repeats: read until the exact message `want` arrives. */
  method WaitFor(sock: Channel, want: string) returns (found: bool)
    modifies sock
    ensures Await(old(sock.inbox), want) == (if found then Some(sock.inbox) else None)
    ensures !found ==> sock.inbox == []
    ensures sock.outbox == old(sock.outbox)
  {
    var msg := sock.Recv();
    while msg.Some? && msg.value != want
      invariant sock.outbox == old(sock.outbox)
      invariant msg.None? ==> sock.inbox == []
      invariant Await(old(sock.inbox), want) ==
        (if msg == Some(want) then Some(sock.inbox)
         else if msg.None? then None
         else Await(sock.inbox, want))
      decreases |sock.inbox| + (if msg.Some? then 1 else 0)
    {
      msg := sock.Recv();
    }
    found := msg.Some?;
  }

  /** One item of `sendStream`: send it, then wait for `#ack`. */
  method SendItem(sock: Channel, item: string, ack: string) returns (acked: bool)
    modifies sock
    ensures sock.outbox == old(sock.outbox) + [item]
    ensures Await(old(sock.inbox), "#" + ack) == (if acked then Some(sock.inbox) else None)
    ensures !acked ==> sock.inbox == []
  {
    sock.Send(item);
    acked := WaitFor(sock, "#" + ack);
  }

  /** The item loop of `sendStream`: each item followed by a wait for `#ack`, then `#end`. */
  method SendItemsLoop(sock: Channel, items: seq<string>, ack: string, end: string) returns (status: Status)
    modifies sock
    ensures var r := SendItems(items, ack, end, old(sock.inbox));
      sock.outbox == old(sock.outbox) + r.sent && sock.inbox == r.rest && status == r.status
  {
    ghost var inbox0 := sock.inbox;
    ghost var out0 := sock.outbox;
    SendLoopStart(items, ack, end, inbox0);
    for i := 0 to |items|
      invariant sock.outbox == out0 + items[..i]
      invariant SendItems(items, ack, end, inbox0) == After(items[..i], SendItems(items[i..], ack, end, sock.inbox))
    {
      ghost var waiting := sock.inbox;
      SentOneMore(out0, items, i);
      var acked := SendItem(sock, items[i], ack);
      SendLoopStep(items, i, ack, end, inbox0, waiting, if acked then Some(sock.inbox) else None);
      if !acked {
        return Blocked;
      }
    }
    SendLoopEnd(items, ack, end, inbox0, sock.inbox);
    sock.Send("#" + end);
    status := Done;
  }

  /** `sendStream(listToSend, startMsg, startAckPhrase, ackPhrase, endMsg)`. */
  method SendStream(sock: Channel, items: seq<string>, start: string, startAck: string, ack: string, end: string)
    returns (status: Status)
    modifies sock
    ensures var r := SendStreamSpec(items, start, startAck, ack, end, old(sock.inbox));
      sock.outbox == old(sock.outbox) + r.sent && sock.inbox == r.rest && status == r.status
  {
    sock.Send("#" + start);
    var ready := WaitFor(sock, "#" + startAck);
    if !ready {
      return Blocked;
    }
    status := SendItemsLoop(sock, items, ack, end);
  }

  /** `selectRecv` repeated while it returns the empty string. */
  method NextMessage(sock: Channel) returns (msg: Option<string>)
    modifies sock
    ensures (msg, sock.inbox) == NextNonEmpty(old(sock.inbox))
    ensures sock.outbox == old(sock.outbox)
  {
    msg := sock.Recv();
    while msg == Some("")
      invariant sock.outbox == old(sock.outbox)
      invariant msg.None? ==> sock.inbox == []
      invariant NextNonEmpty(old(sock.inbox)) == (if msg == Some("") then NextNonEmpty(sock.inbox) else (msg, sock.inbox))
      decreases |sock.inbox| + (if msg == Some("") then 1 else 0)
    {
      NextNonEmptySkip([""] + sock.inbox);
      assert ([""] + sock.inbox)[1..] == sock.inbox;
      msg := sock.Recv();
    }
  }

  /** One turn of `receiveStream`'s loop: acknowledge the item, then read the next non-empty message. */
  method AckAndRead(sock: Channel, ack: string) returns (msg: Option<string>)
    modifies sock
    ensures (msg, sock.inbox) == NextNonEmpty(old(sock.inbox))
    ensures sock.outbox == old(sock.outbox) + ["#" + ack]
  {
    sock.Send("#" + ack);
    msg := NextMessage(sock);
  }

  /**
   * The loop of `receiveStream`: every non-empty message up to the end
   * marker is collected and acknowledged. A message without '#' raises
   * where its tag is read.
   */
  method ReceiveItemsLoop(sock: Channel, ack: string, end: string) returns (items: seq<string>, status: Status)
    modifies sock
    ensures var r := ReceiveItems(old(sock.inbox), ack, end);
      items == r.items && status == r.status && sock.inbox == r.rest && sock.outbox == old(sock.outbox) + r.sent
  {
    ghost var inbox0 := sock.inbox;
    ghost var out0 := sock.outbox;
    items := [];
    var msg := NextMessage(sock);
    ReceiveLoopStart(inbox0, ack, end);
    while msg.Some? && Wire.Tag(msg.value).Some? && Wire.Tag(msg.value).value != end
      invariant sock.outbox == out0 + Acks(ack, |items|)
      invariant msg.None? ==> sock.inbox == []
      invariant ReceiveItems(inbox0, ack, end) == Collected(items, ack, ReceiveFrom(msg, sock.inbox, ack, end))
      decreases |sock.inbox| + (if msg.Some? then 1 else 0)
    {
      ReceiveLoopStep(items, msg.value, sock.inbox, ack, end, inbox0);
      AcksSnoc(ack, |items|);
      items := items + [msg.value];
      msg := AckAndRead(sock, ack);
    }
    ReceiveLoopEnd(items, msg, sock.inbox, ack, end, inbox0);
    if msg.None? {
      status := Blocked;
    } else if Wire.Tag(msg.value).None? {
      status := Crashed;
    } else {
      status := Done;
    }
  }

  /** `receiveStream(startAckPhrase, ackPhrase, endMsg)`: `#startAck`, then the receive loop. */
  method ReceiveStream(sock: Channel, startAck: string, ack: string, end: string)
    returns (items: seq<string>, status: Status)
    modifies sock
    ensures var r := ReceiveStreamSpec(startAck, ack, end, old(sock.inbox));
      items == r.items && status == r.status && sock.inbox == r.rest && sock.outbox == old(sock.outbox) + r.sent
  {
    sock.Send("#" + startAck);
    items, status := ReceiveItemsLoop(sock, ack, end);
  }
}
