/** The Python string operations the core uses: `str.split`, `str.join` and `str.startswith`. */
module Strings {

  /** `sep.join(xs)`. */
  function Join(xs: seq<string>, sep: string): (r: string)
    ensures xs != [] ==> xs[0] <= r
    ensures |xs| >= 2 ==> xs[0] + sep <= r
  {
    if xs == [] then "" else if |xs| == 1 then xs[0] else xs[0] + sep + Join(xs[1..], sep)
  }

  /** `s.split(c)` for a one-character separator: the pieces between separators, empty ones included. */
  function Split(s: string, c: char): (parts: seq<string>)
    ensures |parts| >= 1
  {
    if s == [] then [""]
    else if s[0] == c then [""] + Split(s[1..], c)
    else
      var rest := Split(s[1..], c);
      [[s[0]] + rest[0]] + rest[1..]
  }

  /** `s.startswith(pre)`. */
  predicate StartsWith(s: string, pre: string)
  {
    pre <= s
  }

  /** Joining the pieces back with the separator gives the string that was split. */
  lemma {:induction false} JoinSplit(s: string, c: char)
    ensures Join(Split(s, c), [c]) == s
  {
    if s != [] {
      JoinSplit(s[1..], c);
      if s[0] == c {
        JoinSplitAtSeparator(s, c);
      } else {
        JoinSplitInPiece(s, c);
      }
    }
  }

  /** The step of JoinSplit where the string starts with the separator. */
  lemma {:induction false} JoinSplitAtSeparator(s: string, c: char)
    requires s != [] && s[0] == c && Join(Split(s[1..], c), [c]) == s[1..]
    ensures Join(Split(s, c), [c]) == s
  {
    var rest := Split(s[1..], c);
    assert Split(s, c)[1..] == rest;
    assert Join(Split(s, c), [c]) == "" + [c] + Join(rest, [c]);
    assert s == [s[0]] + s[1..];
  }

  /** The step of JoinSplit where the string starts inside its first piece. */
  lemma {:induction false} JoinSplitInPiece(s: string, c: char)
    requires s != [] && s[0] != c && Join(Split(s[1..], c), [c]) == s[1..]
    ensures Join(Split(s, c), [c]) == s
  {
    var rest := Split(s[1..], c);
    var first := [s[0]] + rest[0];
    SplitInPiece(s, c);
    if |rest| == 1 {
      assert [first] + rest[1..] == [first];
    } else {
      var tail := Join(rest[1..], [c]);
      JoinCons(first, rest[1..], [c]);
      assert rest == [rest[0]] + rest[1..];
      JoinCons(rest[0], rest[1..], [c]);
      assert first + [c] + tail == [s[0]] + (rest[0] + [c] + tail);
    }
    assert s == [s[0]] + s[1..];
  }

  /** Joining a piece in front of a non-empty list puts the separator between them. */
  lemma {:induction false} JoinCons(x: string, xs: seq<string>, sep: string)
    requires xs != []
    ensures Join([x] + xs, sep) == x + sep + Join(xs, sep)
  {
    assert ([x] + xs)[1..] == xs;
  }

  /** A string that starts inside its first piece: that piece grows by the first character. */
  lemma {:induction false} SplitInPiece(s: string, c: char)
    requires s != [] && s[0] != c
    ensures Split(s, c) == [[s[0]] + Split(s[1..], c)[0]] + Split(s[1..], c)[1..]
  {
  }

  /** No piece holds the separator, and there is one piece more than there are separators. */
  lemma {:induction false} SplitPieces(s: string, c: char)
    ensures forall i :: 0 <= i < |Split(s, c)| ==> c !in Split(s, c)[i]
    ensures |Split(s, c)| == multiset(s)[c] + 1
  {
    if s != [] {
      SplitPieces(s[1..], c);
      assert s == [s[0]] + s[1..];
      assert multiset(s) == multiset{s[0]} + multiset(s[1..]);
      var rest := Split(s[1..], c);
      if s[0] != c {
        var parts := Split(s, c);
        forall i | 0 <= i < |parts|
          ensures c !in parts[i]
        {
          if i == 0 {
            assert c !in rest[0];
          } else {
            assert parts[i] == rest[i];
          }
        }
      }
    }
  }

  /** A string free of the separator is one piece. */
  lemma SplitNoSeparator(s: string, c: char)
    requires c !in s
    ensures Split(s, c) == [s]
  {
    SplitPieces(s, c);
    JoinSplit(s, c);
  }

  /** Splitting at a leading piece free of the separator. */
  lemma {:induction false} SplitAfterPiece(a: string, c: char, b: string)
    requires c !in a
    ensures Split(a + [c] + b, c) == [a] + Split(b, c)
  {
    if a == [] {
      assert a + [c] + b == [c] + b;
      assert ([c] + b)[1..] == b;
    } else {
      assert (a + [c] + b)[1..] == a[1..] + [c] + b;
      SplitAfterPiece(a[1..], c, b);
      assert [a[0]] + a[1..] == a;
    }
  }
}
