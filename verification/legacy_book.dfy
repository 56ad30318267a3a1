/**
 * The earlier reader revision's books: a `Book` holds its `Page`s, a `Page`
 * its `Line`s, and every `Line` carries the post flag shown beside it
 * (`NO_POST = 0`, `UNREAD_POST = 1`, `READ_POST = 2`). The flags are the
 * only state that changes after construction; `Book.update` copies them from
 * the linked post database.
 */
module LegacyBook {
  import opened PyText
  import opened LegacyStore

  const NO_POST := 0
  const UNREAD_POST := 1
  const READ_POST := 2

  /** A line of a page with its post flag. */
  class Line {
    const linenum: int
    const linecontent: string
    var poststatus: int

    /** A new line has no posts. */
    constructor (text: string, lineNum: int)
      ensures linenum == lineNum && linecontent == text && poststatus == NO_POST
    {
      linenum := lineNum;
      linecontent := text;
      poststatus := NO_POST;
    }

    /** `setPostRead`. */
    method SetPostRead()
      modifies this
      ensures poststatus == READ_POST
    {
      poststatus := READ_POST;
    }

    /** `setPostUnread`. */
    method SetPostUnread()
      modifies this
      ensures poststatus == UNREAD_POST
    {
      poststatus := UNREAD_POST;
    }
  }

  /**
   * The flags of a page after setting line `lineNum` (counted from 1) to
   * `v`: `lines[lineNum-1]` with Python's indexing, so 0 and negative
   * numbers count from the end and an index past either end changes nothing.
   */
  function SetLineStatus(st: seq<int>, lineNum: int, v: int): (r: seq<int>)
    ensures |r| == |st|
  {
    match PyIndex(lineNum - 1, |st|)
    case Some(k) => st[k := v]
    case None => st
  }

  /** A page of a book. */
  class Page {
    const bookname: string
    const pagenum: int
    const lines: seq<Line>

    /** Each line of the page is its own object. */
    ghost predicate Valid()
    {
      forall i, j :: 0 <= i < j < |lines| ==> lines[i] != lines[j]
    }

    /** The text of every line, in order. */
    function Contents(): (r: seq<string>)
      ensures |r| == |lines|
    {
      seq(|lines|, j requires 0 <= j < |lines| => lines[j].linecontent)
    }

    /** The post flag of every line, in order. */
    function Statuses(): (r: seq<int>)
      reads lines
      ensures |r| == |lines|
      ensures forall j :: 0 <= j < |lines| ==> r[j] == lines[j].poststatus
    {
      seq(|lines|, j requires 0 <= j < |lines| reads lines => lines[j].poststatus)
    }

    /** `Page(bookName, pageNum)` over the page's line texts: line `j` is numbered `j + 1` and has no posts. */
    constructor (bookName: string, pageNum: int, texts: seq<string>)
      ensures bookname == bookName && pagenum == pageNum
      ensures Valid() && Contents() == texts
      ensures forall j :: 0 <= j < |lines| ==> fresh(lines[j]) && lines[j].linenum == j + 1 && lines[j].poststatus == NO_POST
    {
      var acc: seq<Line> := [];
      for j := 0 to |texts|
        invariant |acc| == j
        invariant forall k :: 0 <= k < j ==>
          fresh(acc[k]) && acc[k].linenum == k + 1 && acc[k].linecontent == texts[k] && acc[k].poststatus == NO_POST
        invariant forall k, m :: 0 <= k < m < j ==> acc[k] != acc[m]
      {
        var l := new Line(texts[j], j + 1);
        acc := acc + [l];
      }
      bookname := bookName;
      pagenum := pageNum;
      lines := acc;
    }

    /** `hasLine(lineNum)`. */
    function HasLine(lineNum: int): (r: bool)
      ensures r <==> 1 <= lineNum <= |lines|
    {
      0 <= lineNum - 1 < |lines|
    }

    /** `setPostRead(lineNum)`: that line's flag becomes READ_POST; an IndexError is caught. */
    method SetPostRead(lineNum: int)
      requires Valid()
      modifies lines
      ensures Statuses() == SetLineStatus(old(Statuses()), lineNum, READ_POST)
    {
      var k := PyIndex(lineNum - 1, |lines|);
      if k.Some? {
        lines[k.value].SetPostRead();
      }
    }

    /** `setPostUnread(lineNum)`: that line's flag becomes UNREAD_POST; an IndexError is caught. */
    method SetPostUnread(lineNum: int)
      requires Valid()
      modifies lines
      ensures Statuses() == SetLineStatus(old(Statuses()), lineNum, UNREAD_POST)
    {
      var k := PyIndex(lineNum - 1, |lines|);
      if k.Some? {
        lines[k.value].SetPostUnread();
      }
    }
  }

  /** The flags of a book after setting line `lineNum` of page `pageNum` to `v`, both with Python's indexing. */
  function SetStatus(st: seq<seq<int>>, pageNum: int, lineNum: int, v: int): (r: seq<seq<int>>)
    ensures |r| == |st| && forall p :: 0 <= p < |st| ==> |r[p]| == |st[p]|
  {
    match PyIndex(pageNum - 1, |st|)
    case Some(p) => st[p := SetLineStatus(st[p], lineNum, v)]
    case None => st
  }

  /** One step of `Book.update`: status 1 marks the line unread, 2 marks it read, anything else is ignored. */
  function ApplyStatus(st: seq<seq<int>>, t: PostStatus): (r: seq<seq<int>>)
    ensures |r| == |st| && forall p :: 0 <= p < |st| ==> |r[p]| == |st[p]|
  {
    if t.status == UNREAD_POST then SetStatus(st, t.page, t.line, UNREAD_POST)
    else if t.status == READ_POST then SetStatus(st, t.page, t.line, READ_POST)
    else st
  }

  /** `Book.update` over the whole status list, in list order. */
  function ApplyAll(st: seq<seq<int>>, ts: seq<PostStatus>): (r: seq<seq<int>>)
    ensures |r| == |st| && forall p :: 0 <= p < |st| ==> |r[p]| == |st[p]|
    decreases |ts|
  {
    if ts == [] then st else ApplyAll(ApplyStatus(st, ts[0]), ts[1..])
  }

  /** Page `p` and line `l` are where item `t` of the status list points, counted as Python indexes. */
  predicate Targets(st: seq<seq<int>>, t: PostStatus, p: nat, l: nat)
  {
    (t.status == UNREAD_POST || t.status == READ_POST) &&
    PyIndex(t.page - 1, |st|) == Some(p) && p < |st| && PyIndex(t.line - 1, |st[p]|) == Some(l)
  }

  /** A single step sets the line it targets and leaves every other line alone. */
  lemma ApplyStatusAt(st: seq<seq<int>>, t: PostStatus, p: nat, l: nat)
    requires p < |st| && l < |st[p]|
    ensures Targets(st, t, p, l) ==> ApplyStatus(st, t)[p][l] == t.status
    ensures !Targets(st, t, p, l) ==> ApplyStatus(st, t)[p][l] == st[p][l]
  {
  }

  /** A line that no item of the list targets keeps its flag. */
  lemma {:induction false} UpdateUntouched(st: seq<seq<int>>, ts: seq<PostStatus>, p: nat, l: nat)
    requires p < |st| && l < |st[p]|
    requires forall i :: 0 <= i < |ts| ==> !Targets(st, ts[i], p, l)
    ensures ApplyAll(st, ts)[p][l] == st[p][l]
    decreases |ts|
  {
    if ts != [] {
      var next := ApplyStatus(st, ts[0]);
      ApplyStatusAt(st, ts[0], p, l);
      assert forall i :: 0 <= i < |ts[1..]| ==> !Targets(next, ts[1..][i], p, l) by {
        forall i | 0 <= i < |ts[1..]|
          ensures !Targets(next, ts[1..][i], p, l)
        {
          assert ts[1..][i] == ts[i + 1];
          assert !Targets(st, ts[i + 1], p, l);
        }
      }
      UpdateUntouched(next, ts[1..], p, l);
    }
  }

  /** When several posts share a line, the flag left is the status of the last one in the list. */
  lemma {:induction false} UpdateLastWins(st: seq<seq<int>>, ts: seq<PostStatus>, p: nat, l: nat, i: nat)
    requires p < |st| && l < |st[p]|
    requires i < |ts| && Targets(st, ts[i], p, l)
    requires forall j :: i < j < |ts| ==> !Targets(st, ts[j], p, l)
    ensures ApplyAll(st, ts)[p][l] == ts[i].status
    decreases |ts|
  {
    var next := ApplyStatus(st, ts[0]);
    ApplyStatusAt(st, ts[0], p, l);
    assert forall t :: Targets(next, t, p, l) == Targets(st, t, p, l);
    if i == 0 {
      assert forall j :: 0 <= j < |ts[1..]| ==> !Targets(next, ts[1..][j], p, l) by {
        forall j | 0 <= j < |ts[1..]|
          ensures !Targets(next, ts[1..][j], p, l)
        {
          assert ts[1..][j] == ts[j + 1];
        }
      }
      UpdateUntouched(next, ts[1..], p, l);
    } else {
      assert ts[1..][i - 1] == ts[i];
      assert forall j :: i - 1 < j < |ts[1..]| ==> !Targets(next, ts[1..][j], p, l) by {
        forall j | i - 1 < j < |ts[1..]|
          ensures !Targets(next, ts[1..][j], p, l)
        {
          assert ts[1..][j] == ts[j + 1];
        }
      }
      UpdateLastWins(next, ts[1..], p, l, i - 1);
    }
  }

  /** A book: its name, author and pages. */
  class Book {
    const bookname: string
    const author: string
    const pages: seq<Page>
    ghost const Repr: set<Line>

    /** Every line of every page is its own object, and `Repr` holds them all. */
    ghost predicate Valid()
    {
      (forall i :: 0 <= i < |pages| ==> pages[i].Valid()) &&
      (forall i, j :: 0 <= i < |pages| && 0 <= j < |pages[i].lines| ==> pages[i].lines[j] in Repr) &&
      (forall i, j, i2, j2 ::
         (0 <= i < |pages| && 0 <= j < |pages[i].lines| && 0 <= i2 < |pages| && 0 <= j2 < |pages[i2].lines| &&
          pages[i].lines[j] == pages[i2].lines[j2]) ==> i == i2 && j == j2)
    }

    /** The post flags of the whole book, page by page. */
    function Statuses(): (r: seq<seq<int>>)
      requires Valid()
      reads Repr
      ensures |r| == |pages| && forall i :: 0 <= i < |pages| ==> r[i] == pages[i].Statuses()
    {
      seq(|pages|, i requires 0 <= i < |pages| reads Repr =>
        assert forall l :: l in pages[i].lines ==> l in Repr;
        pages[i].Statuses())
    }

    /**
     * `Book(bookName, bookAuthor)` over the line texts of each page: page
     * `i` is numbered `i + 1`, and no line has posts.
     */
    constructor (bookName: string, bookAuthor: string, pageTexts: seq<seq<string>>)
      ensures Valid() && bookname == bookName && author == bookAuthor
      ensures |pages| == |pageTexts|
      ensures forall i :: 0 <= i < |pages| ==> pages[i].pagenum == i + 1 && pages[i].Contents() == pageTexts[i]
      ensures forall i, j :: 0 <= i < |pages| && 0 <= j < |pages[i].lines| ==> pages[i].lines[j].poststatus == NO_POST
    {
      var acc: seq<Page> := [];
      ghost var repr: set<Line> := {};
      for k := 0 to |pageTexts|
        invariant |acc| == k
        invariant forall i :: 0 <= i < k ==>
          acc[i].Valid() && acc[i].pagenum == i + 1 && acc[i].Contents() == pageTexts[i]
        invariant forall i, j :: 0 <= i < k && 0 <= j < |acc[i].lines| ==>
          acc[i].lines[j] in repr && acc[i].lines[j].poststatus == NO_POST
        invariant forall x :: x in repr ==> fresh(x)
        invariant forall i, j, i2, j2 ::
          (0 <= i < k && 0 <= j < |acc[i].lines| && 0 <= i2 < k && 0 <= j2 < |acc[i2].lines| &&
           acc[i].lines[j] == acc[i2].lines[j2]) ==> i == i2 && j == j2
      {
        var page := new Page(bookName, k + 1, pageTexts[k]);
        acc := acc + [page];
        repr := repr + set j | 0 <= j < |page.lines| :: page.lines[j];
      }
      bookname := bookName;
      author := bookAuthor;
      pages := acc;
      Repr := repr;
    }

    /** `hasPage(pageNum)`. */
    function HasPage(pageNum: int): (r: bool)
      ensures r <==> 1 <= pageNum <= |pages|
    {
      0 <= pageNum - 1 < |pages|
    }

    /**
     * `hasLine(pageNum, lineNum)`: `None` when indexing the pages raises
     * (the IndexError is caught and nothing is returned); page numbers 0
     * and below count from the last page.
     */
    function HasLine(pageNum: int, lineNum: int): (r: Option<bool>)
      ensures r.None? <==> PyIndex(pageNum - 1, |pages|).None?
      ensures HasPage(pageNum) ==> r == Some(1 <= lineNum <= |pages[pageNum - 1].lines|)
      ensures PyIndex(pageNum - 1, |pages|).Some? ==>
        r == Some(1 <= lineNum <= |pages[PyIndex(pageNum - 1, |pages|).value].lines|)
    {
      match PyIndex(pageNum - 1, |pages|)
      case Some(p) => Some(pages[p].HasLine(lineNum))
      case None => None
    }

    /** `setPostRead(pageNum, lineNum)`: that line's flag becomes READ_POST; index errors are caught. */
    method SetPostRead(pageNum: int, lineNum: int)
      requires Valid()
      modifies Repr
      ensures Statuses() == SetStatus(old(Statuses()), pageNum, lineNum, READ_POST)
    {
      var p := PyIndex(pageNum - 1, |pages|);
      if p.Some? {
        var page := pages[p.value];
        page.SetPostRead(lineNum);
        forall i, j | 0 <= i < |pages| && i != p.value && 0 <= j < |pages[i].lines|
          ensures pages[i].lines[j].poststatus == old(pages[i].lines[j].poststatus)
        {
          assert pages[i].lines[j] !in page.lines;
        }
      }
    }

    /** `setPostUnread(pageNum, lineNum)`: that line's flag becomes UNREAD_POST; index errors are caught. */
    method SetPostUnread(pageNum: int, lineNum: int)
      requires Valid()
      modifies Repr
      ensures Statuses() == SetStatus(old(Statuses()), pageNum, lineNum, UNREAD_POST)
    {
      var p := PyIndex(pageNum - 1, |pages|);
      if p.Some? {
        var page := pages[p.value];
        page.SetPostUnread(lineNum);
        forall i, j | 0 <= i < |pages| && i != p.value && 0 <= j < |pages[i].lines|
          ensures pages[i].lines[j].poststatus == old(pages[i].lines[j].poststatus)
        {
          assert pages[i].lines[j] !in page.lines;
        }
      }
    }

    /**
     * `update()`: asks the linked database for the book's post statuses and
     * applies them in the order it returns them. An unregistered book makes
     * the database return `None`, and iterating over it raises.
     */
    method Update(db: ReaderDB) returns (crashed: bool, ghost postsStatuses: seq<PostStatus>)
      requires Valid()
      modifies Repr
      ensures crashed <==> bookname !in db.db
      ensures crashed ==> Statuses() == old(Statuses())
      ensures !crashed ==> Statuses() == ApplyAll(old(Statuses()), postsStatuses)
      ensures !crashed && db.db[bookname].NoPosts? ==> postsStatuses == []
      ensures !crashed && db.db[bookname].Posts? ==>
        exists order :: NoDuplicates(order) && (forall id :: id in order <==> id in db.db[bookname].info) &&
          postsStatuses == StatusesOf(db.db[bookname].info, order)
    {
      var r, order := db.GetBookPostStatuses(bookname);
      if r.None? {
        return true, [];
      }
      var ts := r.value;
      postsStatuses := ts;
      for i := 0 to |ts|
        invariant ApplyAll(old(Statuses()), ts) == ApplyAll(Statuses(), ts[i..])
      {
        var t := ts[i];
        assert ts[i..][1..] == ts[i + 1..];
        if t.status == UNREAD_POST {
          SetPostUnread(t.page, t.line);
        } else if t.status == READ_POST {
          SetPostRead(t.page, t.line);
        }
      }
      crashed := false;
    }
  }
}
