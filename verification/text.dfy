/** String helpers after JavaScript's: `indexOf` and splitting on a
    separator character. A Dafny string is a sequence of Unicode scalar
    values, not of UTF-16 code units, so positions can differ from
    JavaScript's for characters outside the Basic Multilingual Plane; whether
    a character occurs does not. */
module Text {

  /** Position of the first `c` in `s`, or -1 when `s` has none, counted
      in characters; it is -1 exactly when JavaScript's `indexOf` gives -1. */
  function IndexOf(s: string, c: char): (i: int)
    ensures i == -1 <==> c !in s
    ensures i != -1 ==> 0 <= i < |s| && s[i] == c && c !in s[..i]
  {
    if |s| == 0 then -1
    else if s[0] == c then 0
    else
      var k := IndexOf(s[1..], c);
      if k == -1 then -1
      else
        assert s[..k + 1] == [s[0]] + s[1..][..k];
        k + 1
  }

  /** The first occurrence is found in a prefix that holds one. */
  lemma IndexOfInPrefix(a: string, b: string, c: char)
    requires c in a
    ensures IndexOf(a + b, c) == IndexOf(a, c)
  {
    var i := IndexOf(a, c);
    assert (a + b)[i] == c;
    assert (a + b)[..i] == a[..i];
  }

  /** A prefix free of `c` shifts the first occurrence by its length. */
  lemma IndexOfAfterPrefix(a: string, b: string, c: char)
    requires c !in a && c in b
    ensures IndexOf(a + b, c) == |a| + IndexOf(b, c)
  {
    var i := IndexOf(b, c);
    assert (a + b)[|a| + i] == c;
    assert (a + b)[..|a| + i] == a + b[..i];
  }

  /** The pieces of `s` between occurrences of `sep`, in order, as
      JavaScript's `s.split(sep)` gives them; never empty. A leading
      separator closes an empty first piece; any other first character
      starts the first piece. */
  function Split(s: string, sep: char): (parts: seq<string>)
    ensures |parts| >= 1
  {
    if |s| == 0 then [""]
    else
      var rest := Split(s[1..], sep);
      if s[0] == sep then [""] + rest
      else [[s[0]] + rest[0]] + rest[1..]
  }

  /** A string without the separator is a single piece. */
  lemma {:induction false} SplitWithout(s: string, sep: char)
    requires sep !in s
    ensures Split(s, sep) == [s]
  {
    if |s| > 0 {
      SplitWithout(s[1..], sep);
      assert s == [s[0]] + s[1..];
    }
  }

  /** No piece holds the separator. */
  lemma {:induction false} SplitPieces(s: string, sep: char)
    ensures forall k :: 0 <= k < |Split(s, sep)| ==> sep !in Split(s, sep)[k]
  {
    if |s| > 0 {
      SplitPieces(s[1..], sep);
    }
  }

  /** Puts pieces back together with `sep` between them. */
  function Join(parts: seq<string>, sep: char): string
    requires |parts| >= 1
  {
    if |parts| == 1 then parts[0] else parts[0] + [sep] + Join(parts[1..], sep)
  }

  /** Splitting loses nothing: joining the pieces restores the string. */
  lemma {:induction false} JoinSplit(s: string, sep: char)
    ensures Join(Split(s, sep), sep) == s
  {
    if |s| > 0 {
      var rest := Split(s[1..], sep);
      JoinSplit(s[1..], sep);
      if s[0] == sep {
        assert ([""] + rest)[1..] == rest;
      } else {
        var parts := [[s[0]] + rest[0]] + rest[1..];
        assert parts[1..] == rest[1..];
        if |rest| > 1 {
          assert Join(rest, sep) == rest[0] + [sep] + Join(rest[1..], sep);
        }
      }
      assert s == [s[0]] + s[1..];
    }
  }

  /** Splitting a string that starts with `c` extends the split of the rest. */
  lemma SplitCons(c: char, t: string, sep: char)
    ensures Split([c] + t, sep) ==
      if c == sep then [""] + Split(t, sep)
      else [[c] + Split(t, sep)[0]] + Split(t, sep)[1..]
  {
    assert ([c] + t)[1..] == t;
  }

  /** Putting the same character in front of two strings keeps a common
      trailing run of pieces. */
  lemma SplitConsKeepsTail(c: char, t: string, u: string, right: seq<string>, sep: char)
    requires Split(u, sep) == Split(t, sep) + right
    ensures Split([c] + u, sep) == Split([c] + t, sep) + right
  {
    SplitCons(c, u, sep);
    SplitCons(c, t, sep);
    if c == sep {
      EmptyHeadAppend(Split(t, sep), right);
    } else {
      ExtendHeadAppend([c], Split(t, sep), right);
    }
  }

  lemma EmptyHeadAppend(xs: seq<string>, right: seq<string>)
    ensures [""] + (xs + right) == [""] + xs + right
  {
  }

  /** Extending the head of `xs + right` is extending the head of `xs`. */
  lemma ExtendHeadAppend(p: string, xs: seq<string>, right: seq<string>)
    requires |xs| >= 1
    ensures [p + (xs + right)[0]] + (xs + right)[1..] == [p + xs[0]] + xs[1..] + right
  {
    assert (xs + right)[0] == xs[0];
    assert (xs + right)[1..] == xs[1..] + right;
  }

  /** Splitting `a`, a separator, then `b` splits `a` and `b` separately. */
  lemma {:induction false} SplitAppend(a: string, b: string, sep: char)
    ensures Split(a + [sep] + b, sep) == Split(a, sep) + Split(b, sep)
  {
    if |a| == 0 {
      assert a + [sep] + b == [sep] + b;
      SplitCons(sep, b, sep);
    } else {
      var c, t := a[0], a[1..];
      var u := t + [sep] + b;
      assert a + [sep] + b == [c] + u && a == [c] + t;
      SplitAppend(t, b, sep);
      SplitConsKeepsTail(c, t, u, Split(b, sep), sep);
    }
  }
}
