/**
 * The server's post database (`ServerDB`): posts keyed by an integer ID,
 * IDs handed out by a smallest-free counter starting at 1000, uploads
 * validated against the loaded books, and the `#PostInfo#…|#PostContent#…`
 * serialisation of a stored post.
 */
module ServerStore {
  import opened PyText
  import opened ServerBooks

  const MIN_ID_VAL := 1000

  /** A stored post: `((sender, bookname, page, line), content)`. */
  datatype ServerPost = ServerPost(sender: string, book: string, page: int, line: int, content: string)

  /** The `(OP_FAILURE, message)` / `(OP_SUCCESS, result)` pairs the database returns. */
  datatype Reply<T> = Failure(msg: string) | Success(value: T)

  /** What `insertPost` does with an upload: stores it, refuses it, or raises while parsing. */
  datatype InsertOutcome = Inserted(id: int) | Refused(msg: string) | Raised

  /**
   * The parse at the top of `insertPost`:
   * `#NewPostInfo#sender#book#page#line` and `#NewPostContent#content`.
   * The content is only the third '#'-separated piece. `None` stands for the
   * IndexError or ValueError raised on a malformed string.
   */
  function ParseUpload(info: string, content: string): (r: Option<ServerPost>)
    ensures var ip := Split(info, "#");
      r.Some? <==> |ip| >= 6 && |Split(content, "#")| >= 3 && ParseInt(ip[4]).Some? && ParseInt(ip[5]).Some?
    ensures var ip := Split(info, "#");
      r.Some? ==>
        r.value.sender == ip[2] && r.value.book == ip[3] &&
        r.value.page == ParseInt(ip[4]).value && r.value.line == ParseInt(ip[5]).value
    ensures r.Some? ==> |Split(content, "#")| >= 3 && r.value.content == Split(content, "#")[2] && '#' !in r.value.content
  {
    var ip := Split(info, "#");
    var cp := Split(content, "#");
    if |ip| < 6 || |cp| < 3 then None
    else
      SplitPiecesAvoid(content, '#');
      match (ParseInt(ip[4]), ParseInt(ip[5]))
      case (Some(page), Some(line)) => Some(ServerPost(ip[2], ip[3], page, line, cp[2]))
      case _ => None
  }

  /** The failure messages of the book, page and line look-ups. */
  function BookNotFound(book: string): string
  {
    "Book '" + book + "' not found."
  }

  function PageNotFound(page: int): string
  {
    "Page '" + IntToString(page) + "' not found."
  }

  function LineNotFound(line: int): string
  {
    "Line '" + IntToString(line) + "' not found."
  }

  /**
   * The validation of `insertPost`: book first, then page, then line; the
   * message of the first check that fails, or `None` when all pass.
   */
  function RejectReason(books: map<string, Book>, p: ServerPost): (r: Option<string>)
    ensures r.None? <==>
      p.book in books && HasPage(books[p.book], p.page) && HasLine(books[p.book].pages[p.page - 1], p.line)
    ensures p.book !in books ==> r == Some(BookNotFound(p.book))
    ensures p.book in books && !HasPage(books[p.book], p.page) ==> r == Some(PageNotFound(p.page))
    ensures p.book in books && HasPage(books[p.book], p.page) && !HasLine(books[p.book].pages[p.page - 1], p.line) ==>
      r == Some(LineNotFound(p.line))
  {
    if p.book !in books then Some(BookNotFound(p.book))
    else if !HasPage(books[p.book], p.page) then Some(PageNotFound(p.page))
    else if !HasLine(books[p.book].pages[p.page - 1], p.line) then Some(LineNotFound(p.line))
    else None
  }

  /** `#PostInfo#id#sender#book#page#line`: the header fields joined by '#'. */
  function PostInfoStr(id: int, p: ServerPost): string
  {
    Join(PostInfoFieldList(id, p), "#")
  }

  function PostInfoFieldList(id: int, p: ServerPost): seq<string>
  {
    ["", "PostInfo", IntToString(id), p.sender, p.book, IntToString(p.page), IntToString(p.line)]
  }

  function PostContentStr(id: int, p: ServerPost): string
  {
    "#PostContent#" + IntToString(id) + "#" + p.content
  }

  /** `getPostAsStr`'s string for a stored post. */
  function PostAsStr(id: int, p: ServerPost): (r: string)
    ensures PlainFields(p) ==> Split(r, "|") == [PostInfoStr(id, p), PostContentStr(id, p)]
  {
    if !PlainFields(p) then PostInfoStr(id, p) + "|" + PostContentStr(id, p)
    else
      PostInfoFields(id, p);
      PostContentFields(id, p);
      NumeralAvoids(id, '|');
      assert '|' !in PostContentStr(id, p);
      SplitJoin([PostInfoStr(id, p), PostContentStr(id, p)], '|');
      PostInfoStr(id, p) + "|" + PostContentStr(id, p)
  }

  /** Header fields a reader can split back out of a post string. */
  predicate PlainFields(p: ServerPost)
  {
    '#' !in p.sender && '#' !in p.book && '|' !in p.sender && '|' !in p.book && '|' !in p.content
  }

  /** The info half of a post string splits on '#' into exactly its header fields. */
  lemma PostInfoFields(id: int, p: ServerPost)
    requires PlainFields(p)
    ensures Split(PostInfoStr(id, p), "#") == PostInfoFieldList(id, p)
    ensures '|' !in PostInfoStr(id, p)
  {
    var fields := PostInfoFieldList(id, p);
    NumeralAvoids(id, '#');
    NumeralAvoids(p.page, '#');
    NumeralAvoids(p.line, '#');
    NumeralAvoids(id, '|');
    NumeralAvoids(p.page, '|');
    NumeralAvoids(p.line, '|');
    SplitJoin(fields, '#');
    JoinAvoidsChar(fields, "#", '|');
  }

  /** The content half splits on '#' into its tag, the post ID, and the pieces of the content. */
  lemma PostContentFields(id: int, p: ServerPost)
    ensures Split(PostContentStr(id, p), "#") == ["", "PostContent", IntToString(id)] + Split(p.content, "#")
  {
    var n := IntToString(id);
    var tail := n + ['#'] + p.content;
    NumeralAvoids(id, '#');
    assert PostContentStr(id, p) == ['#'] + "PostContent" + ['#'] + tail;
    SplitTagged('#', "PostContent", tail);
    SplitAtFirst(n, '#', p.content);
  }

  /** The posts database of the server. */
  class ServerDB {
    var db: map<int, ServerPost>
    var postIds: seq<int>

    /**
     * Every ID handed out is stored, and the IDs were handed out in the
     * order 1000, 1001, 1002, ...
     */
    ghost predicate Valid()
      reads this
    {
      (forall i :: 0 <= i < |postIds| ==> postIds[i] == MIN_ID_VAL + i) &&
      (forall id :: id in db <==> id in postIds)
    }

    constructor ()
      ensures Valid() && db == map[] && postIds == []
    {
      db := map[];
      postIds := [];
    }

    /** `generatePostID`: the smallest integer from 1000 up that was never handed out, now recorded. */
    method GeneratePostID() returns (id: int)
      modifies this
      ensures id >= MIN_ID_VAL && id !in old(postIds)
      ensures forall k :: MIN_ID_VAL <= k < id ==> k in old(postIds)
      ensures postIds == old(postIds) + [id] && db == old(db)
    {
      id := MIN_ID_VAL;
      while id in postIds
        invariant id >= MIN_ID_VAL
        invariant forall k :: MIN_ID_VAL <= k < id ==> k in postIds
        decreases set k | k in postIds && k >= id
      {
        ghost var before := set k | k in postIds && k >= id;
        assert id in before;
        id := id + 1;
        assert (set k | k in postIds && k >= id) < before;
      }
      postIds := postIds + [id];
    }

    /**
     * `insertPost(postInfoString, postContentString)`: a valid upload gets
     * the next ID and is stored under it; a refused or unparsable one leaves
     * the database as it was.
     */
    method InsertPost(books: map<string, Book>, info: string, content: string) returns (r: InsertOutcome)
      requires Valid()
      modifies this
      ensures Valid()
      ensures ParseUpload(info, content).None? ==> r == Raised && db == old(db) && postIds == old(postIds)
      ensures ParseUpload(info, content).Some? && RejectReason(books, ParseUpload(info, content).value).Some? ==>
        r == Refused(RejectReason(books, ParseUpload(info, content).value).value) && db == old(db) && postIds == old(postIds)
      ensures ParseUpload(info, content).Some? && RejectReason(books, ParseUpload(info, content).value).None? ==>
        r == Inserted(MIN_ID_VAL + |old(postIds)|) && r.id !in old(db) &&
        db == old(db)[r.id := ParseUpload(info, content).value] && postIds == old(postIds) + [r.id]
    {
      var post := ParseUpload(info, content);
      if post.None? {
        return Raised;
      }
      var reason := RejectReason(books, post.value);
      if reason.Some? {
        return Refused(reason.value);
      }
      var id := GeneratePostID();
      NextIdIsCount(old(postIds), id);
      db := db[id := post.value];
      return Inserted(id);
    }

    /** `getPostsID(bookName, pageNum)`: the IDs of the stored posts on that page of that book. */
    method GetPostsID(books: map<string, Book>, book: string, page: int) returns (r: Reply<seq<int>>)
      ensures book !in books ==> r == Failure(BookNotFound(book))
      ensures book in books && !HasPage(books[book], page) ==> r == Failure(PageNotFound(page))
      ensures book in books && HasPage(books[book], page) ==>
        r.Success? && NoDuplicates(r.value) &&
        forall id :: id in r.value <==> id in db && db[id].book == book && db[id].page == page
    {
      if book !in books {
        return Failure(BookNotFound(book));
      }
      if !HasPage(books[book], page) {
        return Failure(PageNotFound(page));
      }
      var keys := DictKeys(db);
      var ids: seq<int> := [];
      for i := 0 to |keys|
        invariant NoDuplicates(ids)
        invariant forall id :: id in ids <==> id in keys[..i] && db[id].book == book && db[id].page == page
      {
        var post := db[keys[i]];
        if post.book == book && post.page == page {
          ids := ids + [keys[i]];
        }
      }
      assert keys[..|keys|] == keys;
      return Success(ids);
    }

    /** `getPost(postID)`. */
    function GetPost(id: int): (r: Reply<ServerPost>)
      reads this
      ensures r.Success? <==> id in db
      ensures r.Success? ==> r.value == db[id]
      ensures r.Failure? ==> r.msg == "No such postID exists."
    {
      if id in db then Success(db[id]) else Failure("No such postID exists.")
    }

    /** `getPostAsStr(postID)`: the serialised post, or the same failure as `getPost`. */
    function GetPostAsStr(id: int): (r: Reply<string>)
      reads this
      ensures r.Success? <==> id in db
      ensures r.Success? ==> r.value == PostAsStr(id, db[id])
      ensures r.Failure? ==> r.msg == "No such postID exists."
    {
      match GetPost(id)
      case Success(p) => Success(PostAsStr(id, p))
      case Failure(m) => Failure(m)
    }

    /** `getAllPostIDs`: every stored ID once, in dictionary order. */
    method GetAllPostIds() returns (ids: seq<int>)
      ensures NoDuplicates(ids)
      ensures forall id :: id in ids <==> id in db
    {
      ids := DictKeys(db);
    }
  }

  /** With IDs handed out in order, the smallest free one is the next in line. */
  lemma NextIdIsCount(ids: seq<int>, id: int)
    requires forall i :: 0 <= i < |ids| ==> ids[i] == MIN_ID_VAL + i
    requires id >= MIN_ID_VAL && id !in ids
    requires forall k :: MIN_ID_VAL <= k < id ==> k in ids
    ensures id == MIN_ID_VAL + |ids|
  {
    forall k | MIN_ID_VAL <= k < MIN_ID_VAL + |ids|
      ensures k in ids
    {
      assert ids[k - MIN_ID_VAL] == k;
    }
    forall i | 0 <= i < |ids|
      ensures ids[i] != MIN_ID_VAL + |ids|
    {
    }
    assert MIN_ID_VAL + |ids| !in ids;
  }
}
