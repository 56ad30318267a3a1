/**
 * The reader's local copy of the forum posts (`ReaderDB`): posts keyed by
 * the server's post ID, each with a read flag, filled from the
 * `#PostInfo#…` / `#PostContent#…` strings the server sends.
 */
module ReaderStore {
  import opened PyText

  /** `UNREAD = 0`, `READ = 1`. */
  datatype ReadStatus = Unread | Read

  /** A stored post: `((sender, book, page, line, readStatus), content)`. */
  datatype ReaderPost = ReaderPost(sender: string, book: string, page: int, line: int, status: ReadStatus, content: string)

  /** How `insertPost` reads a pair of wire strings. */
  datatype WireParse =
    | Parsed(id: int, post: ReaderPost)
    | IdMismatch   // the two ID fields differ as strings: nothing is stored
    | ParseError   // IndexError or ValueError: the listening thread dies

  /**
   * The parse of `insertPost`: the ID fields of both strings are compared as
   * text first; the content is every piece after the ID re-joined with '#',
   * so a '#' inside the content survives.
   */
  function ParseWirePost(info: string, content: string): (r: WireParse)
    ensures r.Parsed? ==>
      var ip := Split(info, "#");
      var cp := Split(content, "#");
      |ip| >= 7 && |cp| >= 3 && ip[2] == cp[2] && ParseInt(ip[2]) == Some(r.id) &&
      ParseInt(ip[5]) == Some(r.post.page) && ParseInt(ip[6]) == Some(r.post.line) &&
      r.post == ReaderPost(ip[3], ip[4], r.post.page, r.post.line, Unread, Join(cp[3..], "#"))
    ensures
      var ip := Split(info, "#");
      var cp := Split(content, "#");
      (|ip| >= 7 && |cp| >= 3 && ip[2] == cp[2] &&
       ParseInt(ip[2]).Some? && ParseInt(ip[5]).Some? && ParseInt(ip[6]).Some?) ==> r.Parsed?
    ensures r.IdMismatch? <==> |Split(info, "#")| >= 3 && |Split(content, "#")| >= 3 && Split(info, "#")[2] != Split(content, "#")[2]
  {
    var ip := Split(info, "#");
    var cp := Split(content, "#");
    if |ip| < 3 || |cp| < 3 then ParseError
    else if ip[2] != cp[2] then IdMismatch
    else if |ip| < 7 then ParseError
    else
      match (ParseInt(ip[2]), ParseInt(ip[5]), ParseInt(ip[6]))
      case (Some(id), Some(page), Some(line)) =>
        Parsed(id, ReaderPost(ip[3], ip[4], page, line, Unread, Join(cp[3..], "#")))
      case _ => ParseError
  }

  /** The narrowing of `getPostIDs`: one, two or three of book, page, line. */
  datatype Query = ByBook(book: string) | ByPage(book: string, page: int) | ByLine(book: string, page: int, line: int)

  /** The number of arguments `getPostIDs` was called with. */
  function Arity(q: Query): nat
  {
    match q
    case ByBook(_) => 1
    case ByPage(_, _) => 2
    case ByLine(_, _, _) => 3
  }

  /** A post lies in the part of the book a query names. */
  predicate Matches(p: ReaderPost, q: Query)
  {
    match q
    case ByBook(b) => p.book == b
    case ByPage(b, n) => p.book == b && p.page == n
    case ByLine(b, n, l) => p.book == b && p.page == n && p.line == l
  }

  /** The database after `setRead(id)`: that post, if stored, marked read. */
  function MarkRead(db: map<int, ReaderPost>, id: int): (r: map<int, ReaderPost>)
    ensures r.Keys == db.Keys
    ensures forall k :: k in db && k != id ==> r[k] == db[k]
    ensures id in db ==> r[id] == db[id].(status := Read)
  {
    if id in db then db[id := db[id].(status := Read)] else db
  }

  /** Marking a post read twice is marking it once. */
  lemma MarkReadIdempotent(db: map<int, ReaderPost>, id: int)
    ensures MarkRead(MarkRead(db, id), id) == MarkRead(db, id)
  {
    var once := MarkRead(db, id);
    assert MarkRead(once, id).Keys == once.Keys;
  }

  /** The reader's posts database. */
  class ReaderDB {
    var db: map<int, ReaderPost>

    constructor ()
      ensures db == map[]
    {
      db := map[];
    }

    /**
     * `insertPost(postInfoStr, postContentStr)`: a parsed post is stored
     * unread under its ID, replacing any post with that ID; a mismatch or a
     * parse error stores nothing.
     */
    method InsertPost(info: string, content: string) returns (r: WireParse)
      modifies this
      ensures r == ParseWirePost(info, content)
      ensures r.Parsed? ==> db == old(db)[r.id := r.post]
      ensures !r.Parsed? ==> db == old(db)
    {
      r := ParseWirePost(info, content);
      if r.Parsed? {
        db := db[r.id := r.post];
      }
    }

    /** `getPost(postID)`: the stored post, or `None` after printing an error. */
    function GetPost(id: int): (r: Option<ReaderPost>)
      reads this
      ensures r.Some? <==> id in db
      ensures r.Some? ==> r.value == db[id]
    {
      if id in db then Some(db[id]) else None
    }

    /**
     * `setRead(readPostID)`: the post's status becomes READ, all its other
     * fields and every other post unchanged; a missing ID (the TypeError
     * caught around the tuple unpacking) changes nothing.
     */
    method SetRead(id: int)
      modifies this
      ensures db == MarkRead(old(db), id)
    {
      var found := GetPost(id);
      if found.Some? {
        var p := found.value;
        db := db[id := ReaderPost(p.sender, p.book, p.page, p.line, Read, p.content)];
      }
    }

    /** `getAllPostIDs`: every stored ID once, in dictionary order. */
    method GetAllPostIds() returns (ids: seq<int>)
      ensures NoDuplicates(ids)
      ensures forall id :: id in ids <==> id in db
    {
      ids := DictKeys(db);
    }

    /**
     * `getPostIDs(*args)`: counts how many of the given arguments a post
     * matches, in order book, page, line, and keeps the post when the count
     * reaches the number of arguments.
     */
    method GetPostIDs(q: Query) returns (ids: seq<int>)
      ensures NoDuplicates(ids)
      ensures forall id :: id in ids <==> id in db && Matches(db[id], q)
    {
      var numargs := Arity(q);
      var keys := DictKeys(db);
      ids := [];
      for j := 0 to |keys|
        invariant NoDuplicates(ids)
        invariant forall id :: id in ids <==> id in keys[..j] && Matches(db[id], q)
      {
        var postID := keys[j];
        var p := db[postID];
        var i := 0;
        if p.book == q.book {
          i := i + 1;
          if numargs > 1 && p.page == q.page {
            i := i + 1;
            if numargs > 2 && p.line == q.line {
              i := i + 1;
            }
          }
        }
        assert i == numargs <==> Matches(p, q);
        if i == numargs {
          ids := ids + [postID];
        }
      }
      assert keys[..|keys|] == keys;
    }

    /**
     * `consultPostsStatus(bookname, pagenum, linenum)`: ' ' when no post is
     * on that line, 'n' when one of them is unread, 'm' when all are read.
     */
    method ConsultPostsStatus(book: string, page: int, line: int) returns (c: char)
      ensures c in {' ', 'n', 'm'}
      ensures c == ' ' <==> forall id :: id in db ==> !Matches(db[id], ByLine(book, page, line))
      ensures c == 'n' <==> exists id :: id in db && Matches(db[id], ByLine(book, page, line)) && db[id].status == Unread
    {
      var postIDs := GetPostIDs(ByLine(book, page, line));
      if |postIDs| == 0 {
        return ' ';
      }
      ghost var first := postIDs[0];
      assert first in postIDs;
      assert first in db && Matches(db[first], ByLine(book, page, line));
      for i := 0 to |postIDs|
        invariant forall j :: 0 <= j < i ==> db[postIDs[j]].status == Read
      {
        var post := GetPost(postIDs[i]);
        if post.value.status == Unread {
          return 'n';
        }
      }
      forall id | id in db && Matches(db[id], ByLine(book, page, line))
        ensures db[id].status == Read
      {
        var j :| 0 <= j < |postIDs| && postIDs[j] == id;
      }
      assert !(forall id :: id in db ==> !Matches(db[id], ByLine(book, page, line))) by {
        assert first in db && Matches(db[first], ByLine(book, page, line));
      }
      return 'm';
    }
  }
}
