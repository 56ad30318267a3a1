/**
 * The conversation between reader and server, end to end: what one side
 * encodes, the other side's parser reads back. Each lemma joins an encoder
 * of one side to the matching decoder of the other.
 */
module Protocol {
  import opened PyText
  import Wire
  import opened ServerBooks
  import opened ServerStore
  import opened ServerSession
  import opened ReaderStore
  import opened ReaderClient

  /** The reader's copy of a server post: same fields, unread. */
  function Mirror(p: ServerPost): ReaderPost
  {
    ReaderPost(p.sender, p.book, p.page, p.line, Unread, p.content)
  }

  // ---------------------------------------------------------------------
  // Posts, server to reader
  // ---------------------------------------------------------------------

  /**
   * A post string from `getPostAsStr`, split on '|' and read by the
   * reader's `insertPost`, gives back the same ID and fields, unread.
   */
  lemma PostStringRoundTrip(id: int, p: ServerPost)
    requires PlainFields(p)
    ensures PostHalves(PostAsStr(id, p)) == Some((PostInfoStr(id, p), PostContentStr(id, p)))
    ensures ParseWirePost(PostInfoStr(id, p), PostContentStr(id, p)) == Parsed(id, Mirror(p))
  {
    assert ParseWirePost(PostInfoStr(id, p), PostContentStr(id, p)) == Parsed(id, Mirror(p)) by {
      PostInfoFields(id, p);
      PostContentFields(id, p);
      ParseIntToString(id);
      ParseIntToString(p.page);
      ParseIntToString(p.line);
      var cp := Split(PostContentStr(id, p), "#");
      assert cp[3..] == Split(p.content, "#");
      JoinSplit(p.content, "#");
    }
  }

  /**
   * The `#NewSinglePost` message the server pushes after an upload decodes,
   * on a push-mode reader, to the post that was stored.
   */
  lemma PushedPostRoundTrip(id: int, p: ServerPost)
    requires PlainFields(p) && !Occurs(PostAsStr(id, p), "#NewSinglePost")
    ensures DecodeNewSinglePost("#NewSinglePost" + PostAsStr(id, p)) == Some((PostInfoStr(id, p), PostContentStr(id, p)))
    ensures ParseWirePost(PostInfoStr(id, p), PostContentStr(id, p)) == Parsed(id, Mirror(p))
  {
    SplitLeadingSeparator("#NewSinglePost", PostAsStr(id, p));
    SplitNoOccurrence(PostAsStr(id, p), "#NewSinglePost");
    PostStringRoundTrip(id, p);
  }

  /** The reader's map after storing the mirror of each listed server post in turn. */
  function MirrorAll(db: map<int, ReaderPost>, sdb: map<int, ServerPost>, ids: seq<int>): (r: map<int, ReaderPost>)
    requires forall id :: id in ids ==> id in sdb
    ensures r.Keys == db.Keys + (set id | id in ids)
    decreases |ids|
  {
    if ids == [] then db
    else
      assert forall id :: id in ids <==> id == ids[0] || id in ids[1..];
      MirrorAll(db[ids[0] := Mirror(sdb[ids[0]])], sdb, ids[1..])
  }

  /** Each listed post is held as its mirror; the others are as they were. */
  lemma {:induction false} MirrorAllValues(db: map<int, ReaderPost>, sdb: map<int, ServerPost>, ids: seq<int>)
    requires forall id :: id in ids ==> id in sdb
    ensures forall id :: id in ids ==> MirrorAll(db, sdb, ids)[id] == Mirror(sdb[id])
    ensures forall k :: k in db && k !in ids ==> MirrorAll(db, sdb, ids)[k] == db[k]
    decreases |ids|
  {
    if ids != [] {
      var id0 := ids[0];
      assert id0 in ids && id0 in sdb;
      MirrorAllValues(db[id0 := Mirror(sdb[id0])], sdb, ids[1..]);
      assert forall id :: id in ids <==> id == ids[0] || id in ids[1..];
    }
  }

  /**
   * A stream of server posts, inserted by the reader in order, completes and
   * leaves the reader holding the mirror of each of them.
   */
  lemma {:induction false} SyncStreamStored(db: map<int, ReaderPost>, sdb: map<int, ServerPost>, ids: seq<int>)
    requires forall id :: id in ids ==> id in sdb && PlainFields(sdb[id])
    ensures InsertAll(db, PostStrings(sdb, ids)) == (MirrorAll(db, sdb, ids), true)
    decreases |ids|
  {
    if ids != [] {
      var posts := PostStrings(sdb, ids);
      var id0 := ids[0];
      PostStringRoundTrip(id0, sdb[id0]);
      assert posts[1..] == PostStrings(sdb, ids[1..]);
      InsertAllParsed(db, posts, PostInfoStr(id0, sdb[id0]), PostContentStr(id0, sdb[id0]), id0, Mirror(sdb[id0]));
      SyncStreamStored(db[id0 := Mirror(sdb[id0])], sdb, ids[1..]);
    }
  }

  /** A first item that parses is stored before the rest are inserted. */
  lemma InsertAllParsed(db: map<int, ReaderPost>, posts: seq<string>, info: string, content: string, id: int, p: ReaderPost)
    requires posts != [] && PostHalves(posts[0]) == Some((info, content))
    requires ParseWirePost(info, content) == Parsed(id, p)
    ensures InsertAll(db, posts) == InsertAll(db[id := p], posts[1..])
  {
  }

  /**
   * After a sync, with the server streaming the posts whose IDs the reader
   * did not send, the reader holds an entry for every post of the server.
   */
  lemma SyncCompletesCopy(db: map<int, ReaderPost>, sdb: map<int, ServerPost>, ids: seq<int>)
    requires forall id :: id in ids <==> id in sdb && id !in db
    requires forall id :: id in sdb ==> PlainFields(sdb[id])
    ensures var r := InsertAll(db, PostStrings(sdb, ids));
      r.1 && r.0.Keys == db.Keys + sdb.Keys &&
      (forall id :: id in sdb && id !in db ==> r.0[id] == Mirror(sdb[id])) &&
      (forall id :: id in db ==> r.0[id] == db[id])
  {
    SyncStreamStored(db, sdb, ids);
    MirrorMissing(db, sdb, ids);
  }

  /** Mirroring exactly the server posts the reader lacks gives it every key of the server. */
  lemma MirrorMissing(db: map<int, ReaderPost>, sdb: map<int, ServerPost>, ids: seq<int>)
    requires forall id :: id in ids <==> id in sdb && id !in db
    ensures var m := MirrorAll(db, sdb, ids);
      m.Keys == db.Keys + sdb.Keys &&
      (forall id :: id in sdb && id !in db ==> m[id] == Mirror(sdb[id])) &&
      (forall id :: id in db ==> m[id] == db[id])
  {
    MirrorAllValues(db, sdb, ids);
    var m := MirrorAll(db, sdb, ids);
    forall k
      ensures k in m.Keys <==> k in db.Keys + sdb.Keys
    {
      assert k in (set id | id in ids) <==> k in ids;
    }
  }

  // ---------------------------------------------------------------------
  // Requests, reader to server
  // ---------------------------------------------------------------------

  /** Fields with no '#' in them are split back out of their '#'-join. */
  lemma JoinedFields(fields: seq<string>)
    requires |fields| >= 1 && forall i :: 0 <= i < |fields| ==> '#' !in fields[i]
    ensures Split(Join(fields, "#"), "#") == fields
  {
    SplitJoin(fields, '#');
  }

  /** The pieces the server's parser sees in a display request. */
  lemma ParseDisplayReq(data: string, book: string, page: int)
    requires Split(data, "#") == ["", "DisplayReq", book, IntToString(page)]
    ensures ParseRequest(data) == DisplayReq(book, page)
  {
    ParseIntToString(page);
  }

  /** The server reads `reqDisplayPage(book, page)` back as that book and page. */
  lemma DisplayRequestRoundTrip(book: string, page: int)
    requires '#' !in book
    ensures ParseRequest(ReqDisplayPage(book, page)) == DisplayReq(book, page)
  {
    NumeralAvoids(page, '#');
    JoinedFields(["", "DisplayReq", book, IntToString(page)]);
    ParseDisplayReq(ReqDisplayPage(book, page), book, page);
  }

  lemma ParseSyncReq(data: string, ids: seq<int>)
    requires |Split(data, "#")| >= 2 && Split(data, "#")[1] == "SyncPostsReq"
    requires Split(data, "#SyncPostsReq#") == ["", Wire.JoinIds(ids)]
    ensures ParseRequest(data) == SyncPostsReq(ids)
  {
    Wire.IdListRoundTrip(ids);
  }

  /** The server reads a `#SyncPostsReq#` message back as the reader's ID list, empty or not. */
  lemma SyncRequestRoundTrip(ids: seq<int>)
    ensures ParseRequest("#SyncPostsReq#" + Wire.JoinIds(ids)) == SyncPostsReq(ids)
  {
    var list := Wire.JoinIds(ids);
    var data := "#SyncPostsReq#" + list;
    Wire.JoinIdsAvoids(ids, '#');
    assert data == ['#'] + "SyncPostsReq" + ['#'] + list;
    SplitTagged('#', "SyncPostsReq", list);
    SplitLeadingSeparator("#SyncPostsReq#", list);
    AbsentCharNoOccurrence(list, "#SyncPostsReq#", '#');
    SplitNoOccurrence(list, "#SyncPostsReq#");
    ParseSyncReq(data, ids);
  }

  lemma ParseLocReq(data: string, book: string, page: int, ids: seq<int>)
    requires Split(data, "#") == ["", "GetPostsLocReq", book, IntToString(page), Wire.JoinIds(ids)]
    ensures ParseRequest(data) == GetPostsLocReq(book, page, ids)
  {
    ParseIntToString(page);
    Wire.IdListRoundTrip(ids);
  }

  /** The server reads `reqUpdateLocalPosts`' message back as the book, page and ID list. */
  lemma LocRequestRoundTrip(book: string, page: int, ids: seq<int>)
    requires '#' !in book
    ensures ParseRequest(LocRequestHead(book, page) + "#" + Wire.JoinIds(ids)) == GetPostsLocReq(book, page, ids)
  {
    var head := ["", "GetPostsLocReq", book, IntToString(page)];
    var fields := head + [Wire.JoinIds(ids)];
    var data := LocRequestHead(book, page) + "#" + Wire.JoinIds(ids);
    Wire.JoinIdsAvoids(ids, '#');
    NumeralAvoids(page, '#');
    JoinSnoc(head, Wire.JoinIds(ids), "#");
    JoinedFields(fields);
    ParseLocReq(data, book, page, ids);
  }

  lemma ParseUploadReq(data: string, info: string, content: string)
    requires |Split(data, "#")| >= 2 && Split(data, "#")[1] == "UploadPost"
    requires Split(data, "#UploadPost") == ["", info + "|" + content]
    requires Split(info + "|" + content, "|") == [info, content]
    ensures ParseRequest(data) == UploadPost(info, content)
  {
  }

  /** The info and content strings of a new post parse on the server to the post the user wrote. */
  lemma NewPostParses(user: string, book: string, page: int, line: int, content: string)
    requires '#' !in user && '#' !in book && '#' !in content
    ensures ParseUpload(NewPostInfoStr(user, book, page, line), NewPostContentStr(content)) ==
      Some(ServerPost(user, book, page, line, content))
  {
    NumeralAvoids(page, '#');
    NumeralAvoids(line, '#');
    JoinedFields(["", "NewPostInfo", user, book, IntToString(page), IntToString(line)]);
    JoinedFields(["", "NewPostContent", content]);
    ParseIntToString(page);
    ParseIntToString(line);
  }

  /**
   * `#UploadPost` followed by a '#'-led info string, '|' and the content
   * string is read back as those two strings.
   */
  lemma UploadMessage(info: string, body: string)
    requires |info| >= 1 && info[0] == '#'
    requires '|' !in info && '|' !in body
    requires !Occurs(info + "|" + body, "#UploadPost")
    ensures ParseRequest(SendNewPost(info, body)) == UploadPost(info, body)
  {
    SplitJoin([info, body], '|');
    ParseUploadReq(SendNewPost(info, body), info, body);
  }

  /** The info string of a new post starts with '#' and holds no '|' when its fields hold none. */
  lemma NewPostShape(user: string, book: string, page: int, line: int, content: string)
    requires '|' !in user && '|' !in book && '|' !in content
    ensures |NewPostInfoStr(user, book, page, line)| >= 1 && NewPostInfoStr(user, book, page, line)[0] == '#'
    ensures '|' !in NewPostInfoStr(user, book, page, line) && '|' !in NewPostContentStr(content)
  {
    var infoFields := ["", "NewPostInfo", user, book, IntToString(page), IntToString(line)];
    NumeralAvoids(page, '|');
    NumeralAvoids(line, '|');
    JoinAvoidsChar(infoFields, "#", '|');
    JoinAvoidsChar(["", "NewPostContent", content], "#", '|');
    assert infoFields == [""] + infoFields[1..];
    JoinCons("", infoFields[1..], "#");
  }

  /**
   * An upload built by the reader reaches the server's `insertPost` as the
   * same two strings, which parse to the post the user wrote, provided the
   * header fields hold no '#', nothing holds '|', the content holds no '#'
   * and the tag `#UploadPost` does not recur after the start.
   */
  lemma UploadRoundTrip(user: string, book: string, page: int, line: int, content: string)
    requires '#' !in user && '#' !in book && '#' !in content
    requires '|' !in user && '|' !in book && '|' !in content
    requires !Occurs(NewPostInfoStr(user, book, page, line) + "|" + NewPostContentStr(content), "#UploadPost")
    ensures var info := NewPostInfoStr(user, book, page, line);
      ParseRequest(SendNewPost(info, NewPostContentStr(content))) == UploadPost(info, NewPostContentStr(content)) &&
      ParseUpload(info, NewPostContentStr(content)) == Some(ServerPost(user, book, page, line, content))
  {
    NewPostShape(user, book, page, line, content);
    UploadMessage(NewPostInfoStr(user, book, page, line), NewPostContentStr(content));
    NewPostParses(user, book, page, line, content);
  }

  // ---------------------------------------------------------------------
  // Chat set-up
  // ---------------------------------------------------------------------

  lemma ParseStartChatReq(data: string, target: string, port: string)
    requires Split(data, "#") == ["", "StartChatReq", target, port]
    ensures ParseRequest(data) == StartChatReq(target, port)
  {
  }

  /** The server reads `reqChatSession(target)` as that target and the requester's port. */
  lemma ChatRequestRoundTrip(target: string, chatPort: int)
    requires '#' !in target
    ensures ParseRequest(ReqChatSession(target, chatPort)) == StartChatReq(target, IntToString(chatPort))
  {
    NumeralAvoids(chatPort, '#');
    JoinedFields(["", "StartChatReq", target, IntToString(chatPort)]);
    ParseStartChatReq(ReqChatSession(target, chatPort), target, IntToString(chatPort));
  }

  lemma ParseRelayAccept(data: string, bPort: string, aUserName: string, aPort: string)
    requires Split(data, "#") == ["", "RelayStartChatResp", "Accept", bPort, aUserName, aPort]
    ensures ParseRequest(data) == RelayAccept(bPort, aUserName, aPort)
  {
  }

  /** The server reads B's acceptance as B's port, A's name and A's port. */
  lemma ChatAcceptRoundTrip(bChatPort: int, aUserName: string, aChatPort: int)
    requires '#' !in aUserName
    ensures ParseRequest(ChatAcceptStr(bChatPort, aUserName, aChatPort)) ==
      RelayAccept(IntToString(bChatPort), aUserName, IntToString(aChatPort))
  {
    NumeralAvoids(bChatPort, '#');
    NumeralAvoids(aChatPort, '#');
    JoinedFields(["", "RelayStartChatResp", "Accept", IntToString(bChatPort), aUserName, IntToString(aChatPort)]);
    ParseRelayAccept(ChatAcceptStr(bChatPort, aUserName, aChatPort), IntToString(bChatPort), aUserName, IntToString(aChatPort));
  }

  lemma ParseRelayReject(data: string, aUserName: string)
    requires Split(data, "#") == ["", "RelayStartChatResp", "Reject", aUserName]
    ensures ParseRequest(data) == RelayReject(aUserName)
  {
  }

  /** The server reads B's refusal as A's name. */
  lemma ChatRejectRoundTrip(aUserName: string)
    requires '#' !in aUserName
    ensures ParseRequest(ChatRejectStr(aUserName)) == RelayReject(aUserName)
  {
    JoinedFields(["", "RelayStartChatResp", "Reject", aUserName]);
    ParseRelayReject(ChatRejectStr(aUserName), aUserName);
  }

  /**
   * The invitation relayed by the server is decoded by B as A's name, address
   * and the chat port A sent.
   */
  lemma InvitationRoundTrip(aUserName: string, aIp: string, aChatPort: int)
    requires '#' !in aUserName && '#' !in aIp
    ensures DecodeInvitation(RelayStartChatReqStr(aUserName, aIp, IntToString(aChatPort))) ==
      Some(Invitation(aUserName, aIp, aChatPort))
  {
    NumeralAvoids(aChatPort, '#');
    JoinedFields(["", "RelayStartChatReq", aUserName, aIp, IntToString(aChatPort)]);
    ParseIntToString(aChatPort);
  }

  /** A's thread reads B's relayed acceptance as B's name, address and chat port. */
  lemma ChatAnswerAcceptRoundTrip(bUserName: string, bIp: string, bChatPort: int, aFreeport: string)
    requires '#' !in bUserName && '#' !in bIp && '#' !in aFreeport
    ensures DecodeChatAnswer(StartChatAcceptStr(bUserName, bIp, IntToString(bChatPort), aFreeport)) ==
      Some(Accepted(bUserName, bIp, bChatPort))
  {
    NumeralAvoids(bChatPort, '#');
    JoinedFields(["", "StartChatResp", "Accept", bUserName, bIp, IntToString(bChatPort), aFreeport]);
    ParseIntToString(bChatPort);
  }

  /**
   * The refusal is sent from A's own thread, so A's listening thread reads
   * it as a refusal by A itself, not by B.
   */
  lemma ChatAnswerRejectNamesRequester(aUserName: string)
    requires '#' !in aUserName
    ensures DecodeChatAnswer(StartChatRejectStr(aUserName)) == Some(Rejected(aUserName))
  {
    JoinedFields(["", "StartChatResp", "Reject", aUserName]);
  }

  /** The server's answer for an unknown target reaches A as an error with its message. */
  lemma NoSuchUserDecodes()
    ensures DecodeChatAnswer(NoSuchUser) == Some(ChatError(NoSuchUserMsg))
  {
    JoinedFields(["", "StartChatResp", "Error", NoSuchUserMsg]);
  }

  // ---------------------------------------------------------------------
  // Page display
  // ---------------------------------------------------------------------

  /** A display item of the server is read by the reader as the line's number and text. */
  lemma DisplayLineRoundTrip(line: Line)
    requires '#' !in line.content
    ensures ParseDisplayLine(DisplayLineStr(line)) == Some((line.lineNum, line.content))
  {
    NumeralAvoids(line.lineNum, '#');
    JoinedFields(["", IntToString(line.lineNum), line.content]);
    ParseIntToString(line.lineNum);
  }

  /**
   * As written, the reader turns the single item of a one-line page into its
   * '#'-pieces, the first of which is empty and fails to unpack into
   * `_, linenum, linecontent`.
   */
  lemma OneLinePageAsWritten(line: Line)
    requires '#' !in line.content
    ensures DisplayPlanAsWritten([DisplayLineStr(line)]) == ShowLines(["", IntToString(line.lineNum), line.content])
    ensures ParseDisplayLine("") == None
  {
    var n := IntToString(line.lineNum);
    NumeralAvoids(line.lineNum, '#');
    JoinedFields(["", n, line.content]);
    NumeralAvoids(line.lineNum, 'E');
    assert n != "Error" by {
      assert 'E' in "Error";
    }
    SplitNoOccurrence("", "#");
  }

  /** With the fix, every page the server sends is shown line by line. */
  lemma PageDisplayFixed(p: Page)
    requires forall i :: 0 <= i < |p.lines| ==> '#' !in p.lines[i].content
    ensures var items := seq(|p.lines|, i requires 0 <= i < |p.lines| => DisplayLineStr(p.lines[i]));
      DisplayPlanFixed(items) == ShowLines(items) &&
      forall i :: 0 <= i < |items| ==> ParseDisplayLine(items[i]) == Some((p.lines[i].lineNum, p.lines[i].content))
  {
    var items := seq(|p.lines|, i requires 0 <= i < |p.lines| => DisplayLineStr(p.lines[i]));
    forall i | 0 <= i < |items|
      ensures ParseDisplayLine(items[i]) == Some((p.lines[i].lineNum, p.lines[i].content))
    {
      DisplayLineRoundTrip(p.lines[i]);
    }
    if |items| == 1 {
      OneLinePageAsWritten(p.lines[0]);
    }
  }
}
