/**
 * Pieces of the `#`/`,` text format that reader and server share:
 * the comma-separated list of post IDs a reader sends in its sync requests
 * (and the server sends back in `#GetPostsIDResp#`), the server's parse of
 * such a list, and the message tag (the text between the first and second `#`).
 */
module Wire {
  import opened PyText

  /** `[str(id) for id in ids]`. */
  function Numerals(ids: seq<int>): (r: seq<string>)
    ensures |r| == |ids|
    ensures forall i :: 0 <= i < |ids| ==> r[i] == IntToString(ids[i])
  {
    if ids == [] then [] else [IntToString(ids[0])] + Numerals(ids[1..])
  }

  /** The IDs joined with commas, no trailing comma. */
  function JoinIds(ids: seq<int>): string
  {
    Join(Numerals(ids), ",")
  }

  /** `[int(p) for p in parts]`; `None` when some `int()` raises ValueError. */
  function ParseInts(parts: seq<string>): (r: Option<seq<int>>)
    ensures r.Some? <==> forall i :: 0 <= i < |parts| ==> ParseInt(parts[i]).Some?
    ensures r.Some? ==> |r.value| == |parts| && forall i :: 0 <= i < |parts| ==> r.value[i] == ParseInt(parts[i]).value
  {
    if parts == [] then Some([])
    else
      match (ParseInt(parts[0]), ParseInts(parts[1..]))
      case (Some(x), Some(xs)) => Some([x] + xs)
      case _ => None
  }

  /**
   * The server's reading of a comma-separated ID list
   * (`ids = field.split(',')`, converted with `int` unless the first piece is
   * empty). When the first piece is empty the list stays a list of strings,
   * which no integer post ID is `in`; it is returned as the empty list.
   * `None` is the ValueError of a non-numeric piece.
   */
  function ParseIdList(field: string): (r: Option<seq<int>>)
    ensures var parts := Split(field, ","); parts[0] == "" ==> r == Some([])
    ensures var parts := Split(field, ",");
      parts[0] != "" ==> (r.Some? <==> forall i :: 0 <= i < |parts| ==> ParseInt(parts[i]).Some?)
    ensures var parts := Split(field, ",");
      parts[0] != "" && r.Some? ==>
        |r.value| == |parts| && forall i :: 0 <= i < |parts| ==> r.value[i] == ParseInt(parts[i]).value
  {
    var parts := Split(field, ",");
    if parts[0] == "" then Some([]) else ParseInts(parts)
  }

  lemma {:induction false} ParseIntsNumerals(ids: seq<int>)
    ensures ParseInts(Numerals(ids)) == Some(ids)
    decreases |ids|
  {
    if ids != [] {
      ParseIntToString(ids[0]);
      ParseIntsNumerals(ids[1..]);
      assert [ids[0]] + ids[1..] == ids;
    }
  }

  /** The server's parse recovers exactly the list of IDs the reader joined, empty or not. */
  lemma IdListRoundTrip(ids: seq<int>)
    ensures ParseIdList(JoinIds(ids)) == Some(ids)
  {
    if ids != [] {
      var parts := Numerals(ids);
      forall i | 0 <= i < |parts| ensures ',' !in parts[i] {
        NumeralAvoids(ids[i], ',');
      }
      SplitJoin(parts, ',');
      assert Split(JoinIds(ids), ",") == parts;
      assert parts[0] != "";
      ParseIntsNumerals(ids);
    }
  }

  /** A joined ID list holds only digits, '-' and ','. */
  lemma JoinIdsAvoids(ids: seq<int>, c: char)
    requires c != '-' && c != ',' && !IsDigit(c)
    ensures c !in JoinIds(ids)
  {
    var parts := Numerals(ids);
    forall i | 0 <= i < |parts| ensures c !in parts[i] {
      NumeralAvoids(ids[i], c);
    }
    JoinAvoidsChar(parts, ",", c);
  }

  /**
   * Appends the IDs to `prefix` one at a time, a comma after every ID but
   * the last: the loop that builds the ID list of `#SyncPostsReq#`,
   * `#GetPostsLocReq#` and `#GetPostsIDResp#`.
   */
  method AppendIds(prefix: string, ids: seq<int>) returns (s: string)
    ensures s == prefix + JoinIds(ids)
  {
    s := prefix;
    for i := 0 to |ids|
      invariant s == prefix + PartialIds(ids, i)
    {
      PartialIdsStep(prefix, ids, i);
      s := s + IntToString(ids[i]);
      if i < |ids| - 1 {
        s := s + ",";
      }
    }
    assert ids[..|ids|] == ids;
  }

  /** What `AppendIds` has appended after `i` IDs: those IDs, and a comma when more follow. */
  function PartialIds(ids: seq<int>, i: nat): string
    requires i <= |ids|
  {
    JoinIds(ids[..i]) + (if 0 < i < |ids| then "," else "")
  }

  lemma PartialIdsStep(prefix: string, ids: seq<int>, i: nat)
    requires i < |ids|
    ensures prefix + PartialIds(ids, i + 1) ==
      prefix + PartialIds(ids, i) + IntToString(ids[i]) + (if i < |ids| - 1 then "," else "")
  {
    JoinIdsStep(ids, i);
    if i == 0 {
      assert PartialIds(ids, 0) == "" by {
        assert ids[..0] == [];
      }
    } else {
      assert PartialIds(ids, i) == JoinIds(ids[..i]) + ",";
    }
  }

  lemma JoinIdsStep(ids: seq<int>, i: nat)
    requires i < |ids|
    ensures JoinIds(ids[..i + 1]) ==
      (if i == 0 then IntToString(ids[0]) else JoinIds(ids[..i]) + "," + IntToString(ids[i]))
  {
    if i == 0 {
      assert Numerals(ids[..1]) == [IntToString(ids[0])];
    } else {
      assert Numerals(ids[..i + 1]) == Numerals(ids[..i]) + [IntToString(ids[i])];
      JoinSnoc(Numerals(ids[..i]), IntToString(ids[i]), ",");
    }
  }

  /** `msg.split('#')[1]`, or `None` for the IndexError of a message without '#'. */
  function Tag(msg: string): (t: Option<string>)
    ensures t.Some? <==> '#' in msg
  {
    SplitCountsChar(msg, '#');
    var parts := Split(msg, "#");
    if |parts| >= 2 then Some(parts[1]) else None
  }
}
