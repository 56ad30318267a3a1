/**
 * The earlier reader revision's post database: one entry per book named in
 * the booklist, holding either nothing yet (the empty dict the constructor
 * puts there) or a pair of dictionaries keyed by the post ID *string*, one
 * with the post's header and read status, one with its content. Statuses
 * are the integers `UNREAD = 1` and `READ = 2`.
 */
module LegacyStore {
  import opened PyText

  const UNREAD := 1
  const READ := 2

  /** `(sendername, bookname, pagenumber, linenumber, readstatus)`. */
  datatype PostInfo = PostInfo(sender: string, book: string, page: int, line: int, status: int)

  /** `{}` before the first post of a book, `(postInfo, postContent)` after. */
  datatype BookPosts = NoPosts | Posts(info: map<string, PostInfo>, content: map<string, string>)

  /** One item of `getBookPostStatuses`: `(status, pagenum, linenum)`. */
  datatype PostStatus = PostStatus(status: int, page: int, line: int)

  /** One item of `getPosts`: `(postID, senderName, postcontent, readStatus)`. */
  datatype PostTuple = PostTuple(id: string, sender: string, content: string, status: int)

  /** How `insertPost` reads its two strings before touching the database. */
  datatype LegacyParse =
    | Fields(id: string, info: PostInfo, text: string)
    | IdMismatch   // the two ID fields differ: an error is printed, nothing stored
    | ParseError   // IndexError or ValueError escapes `insertPost`

  /** What `insertPost` did. */
  datatype InsertResult = Stored(id: string) | Mismatched | UnknownBook(book: string) | Raised

  /** What `getPosts` did. */
  datatype PostsResult = Found(posts: seq<PostTuple>) | NoBook | Crashed

  /**
   * The parse at the top of `insertPost`: the ID fields are compared first;
   * the header carries an explicit read status in its eighth piece, and the
   * content is only the fourth '#'-piece of the content string.
   */
  function ParseLegacy(infoStr: string, contentStr: string): (r: LegacyParse)
    ensures r.IdMismatch? <==>
      |Split(infoStr, "#")| >= 3 && |Split(contentStr, "#")| >= 3 && Split(infoStr, "#")[2] != Split(contentStr, "#")[2]
    ensures r.Fields? <==>
      var ip := Split(infoStr, "#");
      var cp := Split(contentStr, "#");
      |ip| >= 8 && |cp| >= 4 && ip[2] == cp[2] &&
      ParseInt(ip[5]).Some? && ParseInt(ip[6]).Some? && ParseInt(ip[7]).Some?
    ensures r.Fields? ==>
      var ip := Split(infoStr, "#");
      var cp := Split(contentStr, "#");
      |ip| >= 8 && |cp| >= 4 && r.id == ip[2] && r.text == cp[3] && '#' !in r.text &&
      r.info == PostInfo(ip[3], ip[4], ParseInt(ip[5]).value, ParseInt(ip[6]).value, ParseInt(ip[7]).value)
  {
    var ip := Split(infoStr, "#");
    var cp := Split(contentStr, "#");
    if |ip| < 3 || |cp| < 3 then ParseError
    else if ip[2] != cp[2] then IdMismatch
    else if |ip| < 8 || |cp| < 4 then ParseError
    else
      SplitPiecesAvoid(contentStr, '#');
      match (ParseInt(ip[5]), ParseInt(ip[6]), ParseInt(ip[7]))
      case (Some(page), Some(line), Some(status)) =>
        Fields(ip[2], PostInfo(ip[3], ip[4], page, line, status), cp[3])
      case _ => ParseError
  }

  /** A book's entry after one more post: the first post turns `{}` into the pair of dicts. */
  function AddPost(bp: BookPosts, id: string, info: PostInfo, text: string): (r: BookPosts)
    ensures r.Posts? && id in r.info && r.info[id] == info && id in r.content && r.content[id] == text
    ensures bp.NoPosts? ==> r.info.Keys == {id} && r.content.Keys == {id}
    ensures bp.Posts? ==> r.info.Keys == bp.info.Keys + {id} && r.content.Keys == bp.content.Keys + {id}
    ensures bp.Posts? ==> forall k :: k in bp.info && k != id ==> r.info[k] == bp.info[k]
  {
    match bp
    case NoPosts => Posts(map[id := info], map[id := text])
    case Posts(i, c) => Posts(i[id := info], c[id := text])
  }

  /** The entry of a book after `setRead` found the post there. */
  function MarkPost(bp: BookPosts, id: string): (r: BookPosts)
    requires bp.Posts? && id in bp.info
    ensures r.Posts? && r.content == bp.content && r.info.Keys == bp.info.Keys
    ensures r.info[id] == bp.info[id].(status := READ)
    ensures forall k :: k in bp.info && k != id ==> r.info[k] == bp.info[k]
  {
    bp.(info := bp.info[id := bp.info[id].(status := READ)])
  }

  /**
   * `setRead(readPostID)` walking the books in the order `order`: it stops
   * at the first book with no posts, or at the first book holding the ID,
   * whose entry it marks read.
   */
  function SetReadWalk(db: map<string, BookPosts>, order: seq<string>, id: string): map<string, BookPosts>
    requires forall b :: b in order ==> b in db
  {
    if order == [] then db
    else if db[order[0]].NoPosts? then db
    else if id in db[order[0]].info then db[order[0] := MarkPost(db[order[0]], id)]
    else SetReadWalk(db, order[1..], id)
  }

  /** `setRead` rewrites at most one post, and of that post only its status. */
  lemma {:induction false} SetReadAtMostOne(db: map<string, BookPosts>, order: seq<string>, id: string)
    requires forall b :: b in order ==> b in db
    ensures var r := SetReadWalk(db, order, id);
      r == db ||
      exists b :: b in db && db[b].Posts? && id in db[b].info && r == db[b := MarkPost(db[b], id)]
  {
    if order != [] && db[order[0]].Posts? && id !in db[order[0]].info {
      SetReadAtMostOne(db, order[1..], id);
    }
  }

  /**
   * `setRead` marks the post when every book it visits before the post's
   * own book has posts and does not hold the ID.
   */
  lemma {:induction false} SetReadFinds(db: map<string, BookPosts>, order: seq<string>, id: string, k: nat)
    requires forall b :: b in order ==> b in db
    requires k < |order| && db[order[k]].Posts? && id in db[order[k]].info
    requires forall j :: 0 <= j < k ==> db[order[j]].Posts? && id !in db[order[j]].info
    ensures SetReadWalk(db, order, id) == db[order[k] := MarkPost(db[order[k]], id)]
  {
    if k > 0 {
      SetReadFinds(db, order[1..], id, k - 1);
    }
  }

  /** `getBookPostStatuses` on a book with posts, visiting its IDs in `order`. */
  function StatusesOf(info: map<string, PostInfo>, order: seq<string>): (r: seq<PostStatus>)
    requires forall id :: id in order ==> id in info
    ensures |r| == |order|
    ensures forall i :: 0 <= i < |order| ==>
      r[i] == PostStatus(info[order[i]].status, info[order[i]].page, info[order[i]].line)
  {
    seq(|order|, i requires 0 <= i < |order| => PostStatus(info[order[i]].status, info[order[i]].page, info[order[i]].line))
  }

  /** A stored post lies on the given page and line of the given book. */
  predicate OnLine(p: PostInfo, book: string, page: int, line: int)
  {
    p.book == book && p.page == page && p.line == line
  }

  /** The IDs of a list of `getPosts` tuples. */
  function TupleIds(ts: seq<PostTuple>): (r: seq<string>)
    ensures |r| == |ts| && forall i :: 0 <= i < |ts| ==> r[i] == ts[i].id
  {
    seq(|ts|, i requires 0 <= i < |ts| => ts[i].id)
  }

  /** The posts database of the earlier reader. */
  class ReaderDB {
    var db: map<string, BookPosts>

    /** Every post has both its header and its content. */
    ghost predicate Valid()
      reads this
    {
      forall b :: b in db && db[b].Posts? ==> db[b].info.Keys == db[b].content.Keys
    }

    /** `ReaderDB(booklist)`: an empty entry for every book of the list. */
    constructor (booklist: seq<(string, string)>)
      ensures Valid()
      ensures db.Keys == set i | 0 <= i < |booklist| :: booklist[i].0
      ensures forall b :: b in db ==> db[b] == NoPosts
    {
      var m: map<string, BookPosts> := map[];
      for i := 0 to |booklist|
        invariant m.Keys == set k | 0 <= k < i :: booklist[k].0
        invariant forall b :: b in m ==> m[b] == NoPosts
      {
        m := m[booklist[i].0 := NoPosts];
      }
      db := m;
    }

    /**
     * `insertPost(postInfoStr, postContentStr)`: a post for a registered book
     * is stored under its ID with the status and content the strings carry;
     * a mismatch, an unregistered book or a parse error stores nothing.
     */
    method InsertPost(infoStr: string, contentStr: string) returns (r: InsertResult)
      requires Valid()
      modifies this
      ensures Valid()
      ensures ParseLegacy(infoStr, contentStr).ParseError? ==> r == Raised && db == old(db)
      ensures ParseLegacy(infoStr, contentStr).IdMismatch? ==> r == Mismatched && db == old(db)
      ensures ParseLegacy(infoStr, contentStr).Fields? ==>
        var p := ParseLegacy(infoStr, contentStr);
        if p.info.book in old(db) then
          r == Stored(p.id) && db == old(db)[p.info.book := AddPost(old(db)[p.info.book], p.id, p.info, p.text)]
        else
          r == UnknownBook(p.info.book) && db == old(db)
    {
      var p := ParseLegacy(infoStr, contentStr);
      if p.ParseError? {
        return Raised;
      }
      if p.IdMismatch? {
        return Mismatched;
      }
      var book := p.info.book;
      if book !in db {
        return UnknownBook(book);
      }
      db := db[book := AddPost(db[book], p.id, p.info, p.text)];
      r := Stored(p.id);
    }

    /**
     * `getBookPostStatuses(bookname)`: `None` for an unregistered book,
     * `[]` for a book with no posts, otherwise one `(status, page, line)`
     * per post in the dictionary's order.
     */
    method GetBookPostStatuses(book: string) returns (r: Option<seq<PostStatus>>, ghost order: seq<string>)
      ensures r.None? <==> book !in db
      ensures book in db && db[book].NoPosts? ==> r == Some([])
      ensures book in db && db[book].Posts? ==>
        NoDuplicates(order) && (forall id :: id in order <==> id in db[book].info) &&
        r == Some(StatusesOf(db[book].info, order))
    {
      order := [];
      if book !in db {
        return None, order;
      }
      if db[book].NoPosts? {
        return Some([]), order;
      }
      var info := db[book].info;
      var keys := DictKeys(info);
      order := keys;
      var statusList: seq<PostStatus> := [];
      for i := 0 to |keys|
        invariant statusList == StatusesOf(info, keys[..i])
      {
        var p := info[keys[i]];
        statusList := statusList + [PostStatus(p.status, p.page, p.line)];
      }
      assert keys[..|keys|] == keys;
      r := Some(statusList);
    }

    /**
     * `getPosts(bookName, pageNum, lineNum)`: the posts of that line, as
     * tuples; `None` for an unregistered book, and a crash for a registered
     * book with no posts (its `{}` cannot be unpacked into two dicts).
     */
    method GetPosts(book: string, page: int, line: int) returns (r: PostsResult)
      requires Valid()
      ensures r.NoBook? <==> book !in db
      ensures r.Crashed? <==> book in db && db[book].NoPosts?
      ensures r.Found? ==>
        book in db && db[book].Posts? && NoDuplicates(TupleIds(r.posts)) &&
        forall t :: t in r.posts <==>
          t.id in db[book].info && OnLine(db[book].info[t.id], book, page, line) &&
          t == PostTuple(t.id, db[book].info[t.id].sender, db[book].content[t.id], db[book].info[t.id].status)
    {
      if book !in db {
        return NoBook;
      }
      if db[book].NoPosts? {
        return Crashed;
      }
      var info := db[book].info;
      var content := db[book].content;
      var keys := DictKeys(info);
      var postList: seq<PostTuple> := [];
      for i := 0 to |keys|
        invariant NoDuplicates(TupleIds(postList))
        invariant forall t :: t in postList <==>
          t.id in keys[..i] && OnLine(info[t.id], book, page, line) &&
          t == PostTuple(t.id, info[t.id].sender, content[t.id], info[t.id].status)
      {
        var id := keys[i];
        var p := info[id];
        if p.book == book && p.page == page && p.line == line {
          var t := PostTuple(id, p.sender, content[id], p.status);
          assert id !in TupleIds(postList);
          postList := postList + [t];
          assert TupleIds(postList) == TupleIds(postList[..|postList| - 1]) + [id];
        }
      }
      assert keys[..|keys|] == keys;
      r := Found(postList);
    }

    /**
     * `setRead(readPostID)`: walks the books in dictionary order, returns at
     * the first book without posts, and marks the post read in the first
     * book that holds its ID.
     */
    method SetRead(id: string) returns (ghost order: seq<string>)
      requires Valid()
      modifies this
      ensures Valid()
      ensures NoDuplicates(order) && forall b :: b in order <==> b in old(db)
      ensures db == SetReadWalk(old(db), order, id)
    {
      var keys := DictKeys(db);
      order := keys;
      for i := 0 to |keys|
        invariant db == old(db)
        invariant SetReadWalk(db, keys, id) == SetReadWalk(db, keys[i..], id)
      {
        var b := keys[i];
        assert keys[i..][1..] == keys[i + 1..];
        if db[b].NoPosts? {
          return;
        }
        if id in db[b].info {
          db := db[b := MarkPost(db[b], id)];
          return;
        }
      }
    }
  }
}
