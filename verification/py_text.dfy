/**
 * The Python builtins the e-book system leans on, stated exactly:
 * `str.split(sep)`, `sep.join(parts)`, `str(n)` / `int(s)` on integers,
 * list indexing with negative indices, and the enumeration of a
 * dictionary's keys (whose order Python 2 leaves unspecified).
 */
module PyText {

  datatype Option<T> = None | Some(value: T)

  predicate IsDigit(ch: char) { '0' <= ch <= '9' }

  // ---------------------------------------------------------------------
  // str.split / str.join
  // ---------------------------------------------------------------------

  /** True when `sep` occurs somewhere in `s`. */
  predicate Occurs(s: string, sep: string)
    decreases |s|
  {
    |sep| <= |s| && (s[..|sep|] == sep || Occurs(s[1..], sep))
  }

  /**
   * Python's `s.split(sep)` for a non-empty separator: scans left to right
   * and cuts at every non-overlapping occurrence of `sep`.
   */
  function Split(s: string, sep: string): (parts: seq<string>)
    requires |sep| > 0
    ensures |parts| >= 1
    decreases |s|
  {
    if |s| < |sep| then [s]
    else if s[..|sep|] == sep then [""] + Split(s[|sep|..], sep)
    else
      var rest := Split(s[1..], sep);
      [[s[0]] + rest[0]] + rest[1..]
  }

  /** Python's `sep.join(parts)`. */
  function Join(parts: seq<string>, sep: string): string
  {
    if |parts| == 0 then ""
    else if |parts| == 1 then parts[0]
    else parts[0] + sep + Join(parts[1..], sep)
  }

  /** Joining the pieces of a split gives back the original string. */
  lemma {:induction false} JoinSplit(s: string, sep: string)
    requires |sep| > 0
    ensures Join(Split(s, sep), sep) == s
    decreases |s|
  {
    if |s| < |sep| {
    } else if s[..|sep|] == sep {
      JoinSplit(s[|sep|..], sep);
      JoinSplitAtSeparator(s, sep);
    } else {
      JoinSplit(s[1..], sep);
      JoinSplitAtChar(s, sep);
    }
  }

  /** `JoinSplit` for a string that starts with the separator, given it for the rest. */
  lemma JoinSplitAtSeparator(s: string, sep: string)
    requires 0 < |sep| <= |s| && s[..|sep|] == sep
    requires Join(Split(s[|sep|..], sep), sep) == s[|sep|..]
    ensures Join(Split(s, sep), sep) == s
  {
    var rest := Split(s[|sep|..], sep);
    assert Split(s, sep) == [""] + rest;
    JoinCons("", rest, sep);
    TakeDrop(s, |sep|);
  }

  lemma TakeDrop(s: string, n: nat)
    requires n <= |s|
    ensures s[..n] + s[n..] == s
  {
  }

  /** `JoinSplit` for a string that does not start with the separator, given it for its tail. */
  lemma JoinSplitAtChar(s: string, sep: string)
    requires 0 < |sep| <= |s| && s[..|sep|] != sep
    requires Join(Split(s[1..], sep), sep) == s[1..]
    ensures Join(Split(s, sep), sep) == s
  {
    var rest := Split(s[1..], sep);
    assert Split(s, sep) == [[s[0]] + rest[0]] + rest[1..];
    JoinGrowHead(s[0], rest, sep);
    assert s == [s[0]] + s[1..];
  }

  /** Joining a list with one more piece in front. */
  lemma JoinCons(head: string, rest: seq<string>, sep: string)
    requires |rest| >= 1
    ensures Join([head] + rest, sep) == head + sep + Join(rest, sep)
  {
    assert ([head] + rest)[1..] == rest;
  }

  /** Joining a list whose first piece has one more character in front. */
  lemma JoinGrowHead(c: char, rest: seq<string>, sep: string)
    requires |rest| >= 1
    ensures Join([[c] + rest[0]] + rest[1..], sep) == [c] + Join(rest, sep)
  {
    var parts := [[c] + rest[0]] + rest[1..];
    if |rest| > 1 {
      assert parts[1..] == rest[1..];
    }
  }

  /** A string in which the separator does not occur splits into itself alone. */
  lemma {:induction false} SplitNoOccurrence(s: string, sep: string)
    requires |sep| > 0 && !Occurs(s, sep)
    ensures Split(s, sep) == [s]
    decreases |s|
  {
    if |s| >= |sep| {
      SplitNoOccurrence(s[1..], sep);
      assert s == [s[0]] + s[1..];
    }
  }

  /** A separator that holds a character absent from `s` does not occur in `s`. */
  lemma {:induction false} AbsentCharNoOccurrence(s: string, sep: string, ch: char)
    requires ch in sep && ch !in s
    ensures !Occurs(s, sep)
    decreases |s|
  {
    if |sep| <= |s| {
      AbsentCharNoOccurrence(s[1..], sep, ch);
    }
  }

  /** A string that starts with the separator splits into "" followed by the split of the remainder. */
  lemma SplitLeadingSeparator(sep: string, s: string)
    requires |sep| > 0
    ensures Split(sep + s, sep) == [""] + Split(s, sep)
  {
    assert (sep + s)[..|sep|] == sep;
    assert (sep + s)[|sep|..] == s;
  }

  /** Cutting at the first occurrence of a one-character separator. */
  lemma {:induction false} SplitAtFirst(a: string, c: char, b: string)
    requires c !in a
    ensures Split(a + [c] + b, [c]) == [a] + Split(b, [c])
    decreases |a|
  {
    var s := a + [c] + b;
    if a == [] {
      assert s[..1] == [c];
      assert s[1..] == b;
    } else {
      assert s[0] == a[0] && a[0] != c;
      assert s[..1] != [c];
      assert s[1..] == a[1..] + [c] + b;
      SplitAtFirst(a[1..], c, b);
      assert [a[0]] + a[1..] == a;
    }
  }

  /** A message `#tag#rest` splits into "", the tag, and the pieces of the rest. */
  lemma SplitTagged(c: char, tag: string, rest: string)
    requires c !in tag
    ensures Split([c] + tag + [c] + rest, [c]) == ["", tag] + Split(rest, [c])
  {
    assert [c] + tag + [c] + rest == [] + [c] + (tag + [c] + rest);
    SplitAtFirst([], c, tag + [c] + rest);
    SplitAtFirst(tag, c, rest);
  }

  /** A separator cuts the string exactly when it occurs in it. */
  lemma {:induction false} SplitCounts(s: string, sep: string)
    requires |sep| > 0
    ensures |Split(s, sep)| >= 2 <==> Occurs(s, sep)
    decreases |s|
  {
    if !Occurs(s, sep) {
      SplitNoOccurrence(s, sep);
    } else if s[..|sep|] != sep {
      SplitCounts(s[1..], sep);
    }
  }

  /** A one-character separator cuts the string exactly when it occurs in it. */
  lemma {:induction false} SplitCountsChar(s: string, c: char)
    ensures |Split(s, [c])| >= 2 <==> c in s
    decreases |s|
  {
    if c !in s {
      AbsentCharNoOccurrence(s, [c], c);
      SplitNoOccurrence(s, [c]);
    } else if s[0] != c {
      assert s[..1] != [c];
      SplitCountsChar(s[1..], c);
    } else {
      assert s[..1] == [c];
    }
  }

  /** Split undoes Join when no piece contains the one-character separator. */
  lemma {:induction false} SplitJoin(parts: seq<string>, c: char)
    requires |parts| >= 1
    requires forall i :: 0 <= i < |parts| ==> c !in parts[i]
    ensures Split(Join(parts, [c]), [c]) == parts
    decreases |parts|
  {
    if |parts| == 1 {
      AbsentCharNoOccurrence(parts[0], [c], c);
      SplitNoOccurrence(parts[0], [c]);
    } else {
      SplitJoin(parts[1..], c);
      SplitAtFirst(parts[0], c, Join(parts[1..], [c]));
      assert [parts[0]] + parts[1..] == parts;
    }
  }

  /** The form an encoder uses: Split undoes Join whenever every field avoids the separator. */
  lemma SplitJoinWhenPlain(fields: seq<string>, c: char)
    requires |fields| >= 1
    ensures (forall i :: 0 <= i < |fields| ==> c !in fields[i]) ==> Split(Join(fields, [c]), [c]) == fields
  {
    if forall i :: 0 <= i < |fields| ==> c !in fields[i] {
      SplitJoin(fields, c);
    }
  }

  /** Joining one more piece onto a non-empty list appends the separator and the piece. */
  lemma {:induction false} JoinSnoc(parts: seq<string>, x: string, sep: string)
    requires |parts| >= 1
    ensures Join(parts + [x], sep) == Join(parts, sep) + sep + x
    decreases |parts|
  {
    if |parts| == 1 {
      assert (parts + [x])[1..] == [x];
    } else {
      assert (parts + [x])[1..] == parts[1..] + [x];
      JoinSnoc(parts[1..], x, sep);
    }
  }

  /** Membership of a one-character separator in a join. */
  lemma {:induction false} JoinAvoidsChar(parts: seq<string>, sep: string, c: char)
    requires c !in sep
    requires forall i :: 0 <= i < |parts| ==> c !in parts[i]
    ensures c !in Join(parts, sep)
    decreases |parts|
  {
    if |parts| > 1 {
      JoinAvoidsChar(parts[1..], sep, c);
    }
  }

  // ---------------------------------------------------------------------
  // str(n) and int(s)
  // ---------------------------------------------------------------------

  function DigitChar(d: nat): char
    requires d < 10
  {
    ('0' as int + d) as char
  }

  /** Decimal numeral of a natural number, most significant digit first. */
  function NatToString(n: nat): (s: string)
    ensures |s| > 0
    ensures forall i :: 0 <= i < |s| ==> IsDigit(s[i])
  {
    if n < 10 then [DigitChar(n)] else NatToString(n / 10) + [DigitChar(n % 10)]
  }

  /** Python's `str(n)` for an integer. */
  function IntToString(n: int): (s: string)
    ensures |s| > 0
    ensures forall i :: 0 <= i < |s| ==> IsDigit(s[i]) || s[i] == '-'
  {
    if n < 0 then "-" + NatToString(-n) else NatToString(n)
  }

  function DigitsValue(s: string): nat
    requires forall i :: 0 <= i < |s| ==> IsDigit(s[i])
  {
    if s == [] then 0
    else
      assert IsDigit(s[|s| - 1]);
      DigitsValue(s[..|s| - 1]) * 10 + (s[|s| - 1] as int - '0' as int)
  }

  function ParseNat(s: string): Option<nat>
  {
    if s != [] && forall i :: 0 <= i < |s| ==> IsDigit(s[i]) then Some(DigitsValue(s)) else None
  }

  /**
   * Python's `int(s)` restricted to an optional minus sign followed by decimal
   * digits; `None` stands for the ValueError Python raises otherwise.
   */
  function ParseInt(s: string): (r: Option<int>)
    ensures var digits := if |s| > 0 && s[0] == '-' then s[1..] else s;
      r.Some? <==> digits != [] && forall i :: 0 <= i < |digits| ==> IsDigit(digits[i])
    ensures r.Some? && |s| > 0 && s[0] == '-' ==> r.value <= 0
    ensures r.Some? && !(|s| > 0 && s[0] == '-') ==> r.value >= 0
  {
    if |s| > 0 && s[0] == '-' then
      match ParseNat(s[1..])
      case Some(v) => Some(-(v as int))
      case None => None
    else
      match ParseNat(s)
      case Some(v) => Some(v)
      case None => None
  }

  lemma {:induction false} DigitsValueOfNat(n: nat)
    ensures DigitsValue(NatToString(n)) == n
  {
    if n >= 10 {
      var s := NatToString(n);
      DigitsValueOfNat(n / 10);
      assert s[..|s| - 1] == NatToString(n / 10);
    }
  }

  /** `int(str(n)) == n` for every integer. */
  lemma ParseIntToString(n: int)
    ensures ParseInt(IntToString(n)) == Some(n)
  {
    if n < 0 {
      var s := IntToString(n);
      assert s[0] == '-' && s[1..] == NatToString(-n);
      ParseNatToString(-n);
    } else {
      var s := NatToString(n);
      assert IsDigit(s[0]);
      ParseNatToString(n);
    }
  }

  lemma ParseNatToString(n: nat)
    ensures ParseNat(NatToString(n)) == Some(n)
  {
    DigitsValueOfNat(n);
  }

  /** Numerals hold no separator character used by the wire format. */
  lemma NumeralAvoids(n: int, c: char)
    requires c != '-' && !IsDigit(c)
    ensures c !in IntToString(n)
  {
  }

  // ---------------------------------------------------------------------
  // Lists and dictionaries
  // ---------------------------------------------------------------------

  predicate NoDuplicates<T(==)>(s: seq<T>)
  {
    forall i, j :: 0 <= i < j < |s| ==> s[i] != s[j]
  }

  /**
   * Python list indexing `xs[i]` on a list of length n: a negative index
   * counts from the end; `None` stands for IndexError.
   */
  function PyIndex(i: int, n: nat): (r: Option<nat>)
    ensures r.Some? ==> r.value < n
    ensures r.Some? <==> -(n as int) <= i < n
  {
    if 0 <= i < n then Some(i) else if -(n as int) <= i < 0 then Some(n + i) else None
  }

  /** Pieces of a split hold no separator. */
  lemma {:induction false} SplitPiecesAvoid(s: string, c: char)
    ensures forall i :: 0 <= i < |Split(s, [c])| ==> c !in Split(s, [c])[i]
    decreases |s|
  {
    if |s| >= 1 {
      SplitPiecesAvoid(s[1..], c);
      if s[..1] == [c] {
        assert s[1..] == s[|[c]|..];
      }
    }
  }

  /** `xs.index(x)`: the position of the first occurrence of `x`. */
  function IndexOf<T(==)>(xs: seq<T>, x: T): (i: nat)
    requires x in xs
    ensures i < |xs| && xs[i] == x && x !in xs[..i]
  {
    if xs[0] == x then 0
    else
      var k := IndexOf(xs[1..], x);
      assert xs[..k + 1] == [xs[0]] + xs[1..][..k];
      k + 1
  }

  /** `xs.remove(x)`: drops the first occurrence of `x`, keeping the others in order. */
  function RemoveFirst<T(==)>(xs: seq<T>, x: T): seq<T>
    requires x in xs
  {
    xs[..IndexOf(xs, x)] + xs[IndexOf(xs, x) + 1..]
  }

  /**
   * `d.keys()`: every key exactly once, in an order the model leaves open
   * (Python 2 dictionaries do not keep insertion order).
   */
  method DictKeys<K, V>(d: map<K, V>) returns (keys: seq<K>)
    ensures NoDuplicates(keys)
    ensures forall k :: k in keys <==> k in d
    ensures |keys| == |d|
  {
    keys := [];
    var remaining := d.Keys;
    while remaining != {}
      invariant remaining <= d.Keys
      invariant NoDuplicates(keys)
      invariant forall k :: k in keys <==> k in d && k !in remaining
      invariant |keys| + |remaining| == |d.Keys|
      decreases remaining
    {
      var k :| k in remaining;
      keys := keys + [k];
      remaining := remaining - {k};
    }
  }
}
