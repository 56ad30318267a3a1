/**
 * The text of one line of a page file: three spaces, the line number, one
 * space, the line's words. Both the server and the earlier reader revision
 * parse page lines this way when they build their `Line` objects.
 */
module PageFormat {
  import opened PyText

  /**
   * `Line.__init__`: the piece after the first "   ", minus its first
   * space-separated word. `None` is the IndexError raised for a line that
   * holds no run of three spaces.
   */
  function ParseLineText(raw: string): (text: Option<string>)
    ensures text.None? <==> !Occurs(raw, "   ")
  {
    SplitCounts(raw, "   ");
    var pieces := Split(raw, "   ");
    if |pieces| < 2 then None
    else
      var words := Split(pieces[1], " ");
      Some(Join(words[1..], " "))
  }

  /** The page-file layout of a line. */
  function LineLayout(number: string, text: string): string
  {
    "   " + number + " " + text
  }

  /** A line laid out as the page files are parses back to its text. */
  lemma ParseLayout(number: string, text: string)
    requires ' ' !in number
    requires !Occurs(number + " " + text, "   ")
    ensures ParseLineText(LineLayout(number, text)) == Some(text)
  {
    var rest := number + " " + text;
    assert LineLayout(number, text) == "   " + rest;
    SplitLeadingSeparator("   ", rest);
    SplitNoOccurrence(rest, "   ");
    assert Split(LineLayout(number, text), "   ") == ["", rest];
    assert rest == number + [' '] + text;
    SplitAtFirst(number, ' ', text);
    JoinSplit(text, " ");
  }

}
