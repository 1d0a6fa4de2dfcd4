/** JavaScript's `String.prototype.split`, `Array.prototype.join` and
    `String.prototype.startsWith`, for the one-character separators
    ("\n", ":", ",") that index.js uses. */
module Strings {

  /** `s.split(sep)` for a one-character separator: the maximal runs of `s`
      between occurrences of `sep`, in order. The empty string gives `[""]`,
      and a separator at either end gives an empty first or last piece. */
  function Split(s: string, sep: char): (pieces: seq<string>)
    ensures |pieces| >= 1
    ensures forall i :: 0 <= i < |pieces| ==> sep !in pieces[i]
    decreases |s|
  {
    if |s| == 0 then [""]
    else
      var rest := Split(s[1..], sep);
      if s[0] == sep then [""] + rest
      else [[s[0]] + rest[0]] + rest[1..]
  }

  /** `parts.join(sep)`: the parts with one `sep` between neighbours; the
      empty array gives the empty string. */
  function Join(parts: seq<string>, sep: char): string
  {
    if |parts| == 0 then ""
    else if |parts| == 1 then parts[0]
    else parts[0] + [sep] + Join(parts[1..], sep)
  }

  /** `s.startsWith(prefix)`. */
  predicate StartsWith(s: string, prefix: string)
  {
    prefix <= s
  }

  /** Joining the pieces of a split with the same separator gives the text back. */
  lemma {:induction false} JoinSplit(s: string, sep: char)
    ensures Join(Split(s, sep), sep) == s
    decreases |s|
  {
    if |s| > 0 {
      var rest := Split(s[1..], sep);
      JoinSplit(s[1..], sep);
      if s[0] == sep {
        assert ([""] + rest)[1..] == rest;
      } else {
        var pieces := [[s[0]] + rest[0]] + rest[1..];
        assert pieces[1..] == rest[1..];
        if |rest| > 1 {
          assert Join(rest, sep) == rest[0] + [sep] + Join(rest[1..], sep);
        }
      }
      assert s == [s[0]] + s[1..];
    }
  }

  /** Splitting a text that starts with a run free of the separator glues that
      run onto the first piece of the rest. */
  lemma {:induction false} SplitPrefix(x: string, s: string, sep: char)
    requires sep !in x
    ensures Split(x + s, sep) == [x + Split(s, sep)[0]] + Split(s, sep)[1..]
    decreases |x|
  {
    if |x| > 0 {
      assert (x + s)[1..] == x[1..] + s;
      SplitPrefix(x[1..], s, sep);
      assert [x[0]] + (x[1..] + Split(s, sep)[0]) == x + Split(s, sep)[0];
    } else {
      var pieces := Split(s, sep);
      assert x + s == s && x + pieces[0] == pieces[0];
      assert [pieces[0]] + pieces[1..] == pieces;
    }
  }

  /** Splitting is the inverse of joining when no part holds the separator. */
  lemma {:induction false} SplitJoin(parts: seq<string>, sep: char)
    requires |parts| >= 1
    requires forall i :: 0 <= i < |parts| ==> sep !in parts[i]
    ensures Split(Join(parts, sep), sep) == parts
    decreases |parts|
  {
    if |parts| == 1 {
      SplitPrefix(parts[0], "", sep);
      assert parts[0] + "" == parts[0];
    } else {
      var tail := Join(parts[1..], sep);
      SplitJoin(parts[1..], sep);
      assert Split([sep] + tail, sep) == [""] + Split(tail, sep) by {
        assert ([sep] + tail)[1..] == tail;
      }
      assert parts[0] + [sep] + tail == parts[0] + ([sep] + tail);
      SplitPrefix(parts[0], [sep] + tail, sep);
      assert parts[0] + "" == parts[0];
      assert [parts[0]] + parts[1..] == parts;
    }
  }

  /** A split yields one more piece than there are separators in the text. */
  lemma {:induction false} SplitCount(s: string, sep: char)
    ensures |Split(s, sep)| == multiset(s)[sep] + 1
    decreases |s|
  {
    if |s| > 0 {
      SplitCount(s[1..], sep);
      assert s == [s[0]] + s[1..];
      assert multiset(s) == multiset([s[0]]) + multiset(s[1..]);
    }
  }

  /** Joining two non-empty lists is joining each and putting one separator
      between the results. */
  lemma {:induction false} JoinAppend(xs: seq<string>, ys: seq<string>, sep: char)
    requires |xs| >= 1 && |ys| >= 1
    ensures Join(xs + ys, sep) == Join(xs, sep) + [sep] + Join(ys, sep)
    decreases |xs|
  {
    if |xs| == 1 {
      assert (xs + ys)[1..] == ys;
    } else {
      JoinAppend(xs[1..], ys, sep);
      assert (xs + ys)[1..] == xs[1..] + ys;
    }
  }

  /** Splitting two texts glued by one separator splits each of them. */
  lemma SplitAppend(a: string, b: string, sep: char)
    ensures Split(a + [sep] + b, sep) == Split(a, sep) + Split(b, sep)
  {
    var pa, pb := Split(a, sep), Split(b, sep);
    JoinSplit(a, sep);
    JoinSplit(b, sep);
    JoinAppend(pa, pb, sep);
    SplitJoin(pa + pb, sep);
  }

  /** A join of parts free of a character other than the separator is free
      of it too. */
  lemma {:induction false} JoinAvoids(parts: seq<string>, sep: char, c: char)
    requires c != sep
    requires forall i :: 0 <= i < |parts| ==> c !in parts[i]
    ensures c !in Join(parts, sep)
    decreases |parts|
  {
    if |parts| > 1 {
      JoinAvoids(parts[1..], sep, c);
    }
  }

  /** The first two pieces of a split, and what follows them in the text. */
  lemma JoinFirstTwo(parts: seq<string>, sep: char)
    requires |parts| >= 2
    ensures Join(parts, sep) == parts[0] + [sep] + parts[1] +
      (if |parts| == 2 then "" else [sep] + Join(parts[2..], sep))
  {
    assert parts[1..][1..] == parts[2..];
  }

  /** A text free of the separator is a single piece. */
  lemma SplitOne(x: string, sep: char)
    requires sep !in x
    ensures Split(x, sep) == [x]
  {
    SplitJoin([x], sep);
  }

  /** The first two pieces of a ++ sep ++ b ++ rest, when a and b hold no
      separator and rest is empty or starts with one, are a and b. */
  lemma SplitFirstTwo(a: string, b: string, rest: string, sep: char)
    requires sep !in a && sep !in b
    requires rest == [] || rest[0] == sep
    ensures var pieces := Split(a + [sep] + b + rest, sep);
      |pieces| >= 2 && pieces[0] == a && pieces[1] == b
  {
    SplitOne(a, sep);
    var tail := b + rest;
    assert a + [sep] + b + rest == a + [sep] + tail;
    SplitAppend(a, tail, sep);
    assert Split(tail, sep)[0] == b by {
      SplitOne(b, sep);
      if rest != [] {
        assert tail == b + [sep] + rest[1..];
        SplitAppend(b, rest[1..], sep);
      } else {
        assert tail == b;
      }
    }
  }

  /** Appending a separator and one more piece free of it appends that piece. */
  lemma AddPiece(text: string, pieces: seq<string>, piece: string, sep: char)
    requires Split(text, sep) == pieces
    requires sep !in piece
    ensures Split(text + [sep] + piece, sep) == pieces + [piece]
  {
    SplitAppend(text, piece, sep);
    SplitOne(piece, sep);
  }

  /** Seven pieces joined by separators split back into those seven pieces. */
  lemma SplitSeven(a: string, b: string, c: string, d: string, e: string, f: string, g: string, sep: char)
    requires sep !in a && sep !in b && sep !in c && sep !in d
    requires sep !in e && sep !in f && sep !in g
    ensures Split(a + [sep] + b + [sep] + c + [sep] + d + [sep] + e + [sep] + f + [sep] + g, sep) ==
      [a, b, c, d, e, f, g]
  {
    SplitOne(a, sep);
    AddPiece(a, [a], b, sep);
    AddPiece(a + [sep] + b, [a, b], c, sep);
    AddPiece(a + [sep] + b + [sep] + c, [a, b, c], d, sep);
    AddPiece(a + [sep] + b + [sep] + c + [sep] + d, [a, b, c, d], e, sep);
    AddPiece(a + [sep] + b + [sep] + c + [sep] + d + [sep] + e, [a, b, c, d, e], f, sep);
    AddPiece(a + [sep] + b + [sep] + c + [sep] + d + [sep] + e + [sep] + f, [a, b, c, d, e, f], g, sep);
  }

  /** Three pieces free of the separator, joined by it, split back into them. */
  lemma SplitThree(a: string, b: string, c: string, sep: char)
    requires sep !in a && sep !in b && sep !in c
    ensures Split(a + [sep] + b + [sep] + c, sep) == [a, b, c]
  {
    SplitOne(a, sep);
    AddPiece(a, [a], b, sep);
    AddPiece(a + [sep] + b, [a, b], c, sep);
  }
}
