/** The functions of Go's `strings` package that the analyzer calls, over
    `string` (a sequence of characters). The separators the analyzer uses are
    ASCII, so working on characters instead of bytes changes nothing. */
module GoStrings {

  /** strings.HasPrefix */
  predicate HasPrefix(s: string, prefix: string) {
    |prefix| <= |s| && s[..|prefix|] == prefix
  }

  /** strings.Contains: `sep` occurs somewhere in `s`. */
  predicate Contains(s: string, sep: string)
    decreases |s|
  {
    HasPrefix(s, sep) || (s != [] && Contains(s[1..], sep))
  }

  /** A string shorter than `sep` cannot contain it. */
  lemma {:induction false} ShorterDoesNotContain(s: string, sep: string)
    requires |s| < |sep|
    ensures !Contains(s, sep)
    decreases |s|
  {
    if s != [] {
      ShorterDoesNotContain(s[1..], sep);
    }
  }

  /** A string without the first character of `sep` cannot contain it. */
  lemma {:induction false} FirstCharAbsentDoesNotContain(s: string, sep: string)
    requires |sep| > 0 && sep[0] !in s
    ensures !Contains(s, sep)
    decreases |s|
  {
    if s != [] {
      assert s[0] != sep[0];
      FirstCharAbsentDoesNotContain(s[1..], sep);
    }
  }

  /** strings.ReplaceAll(s, string(c), ""): `s` with every `c` deleted and
      every other character kept. */
  function RemoveAll(s: string, c: char): (r: string)
    ensures c !in r
    ensures forall x :: x in r ==> x in s
    ensures |r| <= |s|
  {
    if s == [] then []
    else if s[0] == c then RemoveAll(s[1..], c)
    else [s[0]] + RemoveAll(s[1..], c)
  }

  lemma {:induction false} RemoveAllAppend(a: string, b: string, c: char)
    ensures RemoveAll(a + b, c) == RemoveAll(a, c) + RemoveAll(b, c)
    decreases |a|
  {
    if a == [] {
      assert a + b == b;
    } else {
      assert (a + b)[0] == a[0] && (a + b)[1..] == a[1..] + b;
      RemoveAllAppend(a[1..], b, c);
      if a[0] != c {
        assert [a[0]] + RemoveAll(a[1..], c) + RemoveAll(b, c) == [a[0]] + (RemoveAll(a[1..], c) + RemoveAll(b, c));
      }
    }
  }

  /** A string without `c` is left as it is. */
  lemma {:induction false} RemoveAllAbsent(s: string, c: char)
    requires c !in s
    ensures RemoveAll(s, c) == s
    decreases |s|
  {
    if s != [] {
      RemoveAllAbsent(s[1..], c);
    }
  }

  /** Removing the quote character from a quoted literal gives back its text. */
  lemma Unquote(p: string, c: char)
    requires c !in p
    ensures RemoveAll([c] + p + [c], c) == p
  {
    RemoveAllAppend([c] + p, [c], c);
    RemoveAllAppend([c], p, c);
    RemoveAllAbsent(p, c);
  }

  /** strings.SplitAfter(s, sep) for a non-empty `sep`: `s` cut after each
      occurrence of `sep`, scanning from the left, with the rest as the last
      piece. */
  function SplitAfter(s: string, sep: string): (parts: seq<string>)
    requires |sep| > 0
    ensures |parts| >= 1
    ensures HasPrefix(s, sep) ==> |parts| >= 2 && parts[0] == sep
    ensures !Contains(s, sep) ==> parts == [s]
    decreases |s|
  {
    if HasPrefix(s, sep) then [sep] + SplitAfter(s[|sep|..], sep)
    else if s == [] then [""]
    else
      var rest := SplitAfter(s[1..], sep);
      assert s == [s[0]] + s[1..];
      [[s[0]] + rest[0]] + rest[1..]
  }

  /** The pieces laid end to end. */
  function Concat(parts: seq<string>): string {
    if parts == [] then "" else parts[0] + Concat(parts[1..])
  }

  /** SplitAfter loses no character: its pieces concatenate back to `s`. */
  lemma {:induction false} SplitAfterConcat(s: string, sep: string)
    requires |sep| > 0
    ensures Concat(SplitAfter(s, sep)) == s
    decreases |s|
  {
    var parts := SplitAfter(s, sep);
    if HasPrefix(s, sep) {
      SplitAfterConcat(s[|sep|..], sep);
      assert parts[1..] == SplitAfter(s[|sep|..], sep);
      assert s == sep + s[|sep|..];
    } else if s != [] {
      var rest := SplitAfter(s[1..], sep);
      SplitAfterConcat(s[1..], sep);
      assert parts[1..] == rest[1..];
      assert Concat(rest) == rest[0] + Concat(rest[1..]);
      assert s == [s[0]] + s[1..];
    }
  }

  /** The second piece of SplitAfter on a string that starts with `sep` is a
      prefix of what follows that `sep`. */
  lemma SecondPieceIsPrefixOfRest(s: string, sep: string)
    requires |sep| > 0 && HasPrefix(s, sep)
    ensures HasPrefix(s[|sep|..], SplitAfter(s, sep)[1])
  {
    var rest := SplitAfter(s[|sep|..], sep);
    SplitAfterConcat(s[|sep|..], sep);
    assert Concat(rest) == rest[0] + Concat(rest[1..]);
  }

  /** strings.Split(s, string(sep)) for a one-character separator: the pieces
      between the separators, always at least one. */
  function Split(s: string, sep: char): (parts: seq<string>)
    ensures |parts| >= 1
    ensures forall i :: 0 <= i < |parts| ==> sep !in parts[i]
    decreases |s|
  {
    if s == [] then [""]
    else
      var rest := Split(s[1..], sep);
      if s[0] == sep then [""] + rest
      else [[s[0]] + rest[0]] + rest[1..]
  }

  /** strings.Join(parts, string(sep)) */
  function Join(parts: seq<string>, sep: char): string {
    if parts == [] then ""
    else if |parts| == 1 then parts[0]
    else parts[0] + [sep] + Join(parts[1..], sep)
  }

  /** Joining the pieces of Split with the same separator gives back `s`. */
  lemma {:induction false} SplitJoin(s: string, sep: char)
    ensures Join(Split(s, sep), sep) == s
    decreases |s|
  {
    if s != [] {
      var rest := Split(s[1..], sep);
      SplitJoin(s[1..], sep);
      var parts := Split(s, sep);
      if s[0] == sep {
        assert parts[1..] == rest;
      } else if |rest| > 1 {
        assert parts[1..] == rest[1..];
        assert Join(rest, sep) == rest[0] + [sep] + Join(rest[1..], sep);
      }
      assert s == [s[0]] + s[1..];
    }
  }

  /** A string with no separator is a single piece. */
  lemma {:induction false} SplitNoSeparator(x: string, sep: char)
    requires sep !in x
    ensures Split(x, sep) == [x]
    decreases |x|
  {
    if x != [] {
      SplitNoSeparator(x[1..], sep);
      assert x == [x[0]] + x[1..];
    }
  }

  /** A separator after a separator-free prefix ends the first piece. */
  lemma {:induction false} SplitAtFirstSeparator(x: string, y: string, sep: char)
    requires sep !in x
    ensures Split(x + [sep] + y, sep) == [x] + Split(y, sep)
    decreases |x|
  {
    if x == [] {
      assert x + [sep] + y == [sep] + y;
      assert ([sep] + y)[1..] == y;
    } else {
      assert (x + [sep] + y)[1..] == x[1..] + [sep] + y;
      SplitAtFirstSeparator(x[1..], y, sep);
      assert x == [x[0]] + x[1..];
    }
  }

  /** Splitting a join of separator-free pieces gives back the pieces. */
  lemma {:induction false} JoinSplit(parts: seq<string>, sep: char)
    requires |parts| >= 1
    requires forall i :: 0 <= i < |parts| ==> sep !in parts[i]
    ensures Split(Join(parts, sep), sep) == parts
    decreases |parts|
  {
    if |parts| == 1 {
      SplitNoSeparator(parts[0], sep);
    } else {
      JoinSplit(parts[1..], sep);
      SplitAtFirstSeparator(parts[0], Join(parts[1..], sep), sep);
      assert parts == [parts[0]] + parts[1..];
    }
  }

  /** The last piece of Split: the text after the last separator. */
  function LastPiece(s: string, sep: char): (r: string)
    ensures sep !in r
  {
    var parts := Split(s, sep);
    parts[|parts| - 1]
  }

  lemma {:induction false} JoinLast(parts: seq<string>, sep: char)
    requires |parts| >= 2
    ensures Join(parts, sep) == Join(parts[..|parts| - 1], sep) + [sep] + parts[|parts| - 1]
    decreases |parts|
  {
    if |parts| > 2 {
      JoinLast(parts[1..], sep);
      assert parts[1..][..|parts| - 2] == parts[..|parts| - 1][1..];
    }
  }

  /** The last piece is a suffix of `s` that is either all of `s` or comes
      right after a separator. */
  lemma LastPieceIsFinalSegment(s: string, sep: char)
    ensures |LastPiece(s, sep)| <= |s|
    ensures s[|s| - |LastPiece(s, sep)|..] == LastPiece(s, sep)
    ensures |LastPiece(s, sep)| == |s| || s[|s| - |LastPiece(s, sep)| - 1] == sep
  {
    var parts := Split(s, sep);
    SplitJoin(s, sep);
    if |parts| >= 2 {
      JoinLast(parts, sep);
    }
  }
}
