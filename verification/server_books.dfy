/**
 * The server's books: a book is a list of pages, a page a list of numbered
 * lines. The server never changes a book once loaded, so books are values.
 * Reading the page files from disk is not modelled: a page is built from the
 * lines of its file, already stripped of trailing whitespace.
 */
module ServerBooks {
  import opened PyText
  import PageFormat

  datatype Line = Line(lineNum: int, content: string)
  datatype Page = Page(lines: seq<Line>)
  datatype Book = Book(name: string, author: string, pages: seq<Page>)

  /**
   * The loop of `Page.__init__`: numbers the lines from 1 and parses each
   * with `Line.__init__`; `None` when some line makes `Line.__init__` raise.
   */
  method LoadPage(rawLines: seq<string>) returns (page: Option<Page>)
    ensures page.Some? <==> forall i :: 0 <= i < |rawLines| ==> PageFormat.ParseLineText(rawLines[i]).Some?
    ensures page.Some? ==>
      |page.value.lines| == |rawLines| &&
      forall i :: 0 <= i < |rawLines| ==>
        page.value.lines[i] == Line(i + 1, PageFormat.ParseLineText(rawLines[i]).value)
  {
    var lines: seq<Line> := [];
    var lineNum := 0;
    for i := 0 to |rawLines|
      invariant lineNum == i && |lines| == i
      invariant forall j :: 0 <= j < i ==> PageFormat.ParseLineText(rawLines[j]).Some?
      invariant forall j :: 0 <= j < i ==> lines[j] == Line(j + 1, PageFormat.ParseLineText(rawLines[j]).value)
    {
      lineNum := lineNum + 1;
      var text := PageFormat.ParseLineText(rawLines[i]);
      if text.None? {
        return None;
      }
      lines := lines + [Line(lineNum, text.value)];
    }
    page := Some(Page(lines));
  }

  /** `Book.hasPage`: page numbers start at 1; unlike a Python index, 0 and negatives are refused. */
  function HasPage(book: Book, pageNum: int): (r: bool)
    ensures r <==> 1 <= pageNum <= |book.pages|
    ensures r ==> PyIndex(pageNum - 1, |book.pages|) == Some(pageNum - 1)
  {
    0 <= pageNum - 1 < |book.pages|
  }

  /** `Page.hasLine`, the same range check over the lines. */
  function HasLine(page: Page, lineNum: int): (r: bool)
    ensures r <==> 1 <= lineNum <= |page.lines|
    ensures r ==> PyIndex(lineNum - 1, |page.lines|) == Some(lineNum - 1)
  {
    0 <= lineNum - 1 < |page.lines|
  }

  /** One display item: `#<line number>#<line text>`. */
  function DisplayLineStr(line: Line): (r: string)
    ensures '#' !in line.content ==> Split(r, "#") == ["", IntToString(line.lineNum), line.content]
  {
    var fields := ["", IntToString(line.lineNum), line.content];
    NumeralAvoids(line.lineNum, '#');
    SplitJoinWhenPlain(fields, '#');
    Join(fields, "#")
  }

  /** `Page.getContent`: one display item per line, in page order. */
  method GetContent(page: Page) returns (items: seq<string>)
    ensures |items| == |page.lines|
    ensures forall i :: 0 <= i < |items| ==> items[i] == DisplayLineStr(page.lines[i])
  {
    items := [];
    for i := 0 to |page.lines|
      invariant |items| == i
      invariant forall j :: 0 <= j < i ==> items[j] == DisplayLineStr(page.lines[j])
    {
      var line := page.lines[i];
      items := items + [DisplayLineStr(line)];
    }
  }

  function PageMissing(pageNum: int): string
  {
    "#Error#Page " + IntToString(pageNum) + " does not exist."
  }

  /**
   * `Book.getPageContent`: the display items of page `pageNum`, or the one
   * error item when the page does not exist.
   */
  method GetPageContent(book: Book, pageNum: int) returns (items: seq<string>)
    ensures !HasPage(book, pageNum) ==> items == [PageMissing(pageNum)]
    ensures HasPage(book, pageNum) ==>
      var page := book.pages[pageNum - 1];
      |items| == |page.lines| && forall i :: 0 <= i < |items| ==> items[i] == DisplayLineStr(page.lines[i])
  {
    if !HasPage(book, pageNum) {
      return [PageMissing(pageNum)];
    }
    items := GetContent(book.pages[pageNum - 1]);
  }
}
