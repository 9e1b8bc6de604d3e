/** Positions in and pieces of sequences, as Go's `slices.Index` and `strings.Split` give them. */
module Sequences {
  /** The position of the first `x`, or the length. */
  function IndexOf<T(==)>(xs: seq<T>, x: T): (k: nat)
    ensures k <= |xs|
    ensures k < |xs| ==> xs[k] == x
    ensures x !in xs[..k]
  {
    if xs == [] || xs[0] == x then 0
    else
      var k := 1 + IndexOf(xs[1..], x);
      assert xs[..k] == [xs[0]] + xs[1..][..k - 1];
      k
  }

  /** The pieces of `s` between separators; never none, also for the empty sequence. */
  function Split<T(==)>(s: seq<T>, sep: T): (pieces: seq<seq<T>>)
    ensures |pieces| > 0
  {
    if s == [] then [[]]
    else if s[0] == sep then [[]] + Split(s[1..], sep)
    else WithFirst(s[0], Split(s[1..], sep))
  }

  /** The pieces with one more element at the front of the first. */
  function WithFirst<T>(c: T, pieces: seq<seq<T>>): (r: seq<seq<T>>)
    requires |pieces| > 0
    ensures |r| == |pieces|
  {
    [[c] + pieces[0]] + pieces[1..]
  }

  lemma WithFirstConcat<T>(c: T, a: seq<seq<T>>, b: seq<seq<T>>)
    requires |a| > 0
    ensures WithFirst(c, a + b) == WithFirst(c, a) + b
  {
  }

  lemma {:induction false} PiecesHaveNoSeparator<T>(s: seq<T>, sep: T)
    ensures forall i :: 0 <= i < |Split(s, sep)| ==> sep !in Split(s, sep)[i]
  {
    if s != [] {
      PiecesHaveNoSeparator(s[1..], sep);
    }
  }

  lemma {:induction false} SplitOfOne<T>(s: seq<T>, sep: T)
    requires sep !in s
    ensures Split(s, sep) == [s]
  {
    if s != [] {
      SplitOfOne(s[1..], sep);
      assert [s[0]] + s[1..] == s;
    }
  }

  /** Splitting distributes over a joining separator. */
  lemma {:induction false} SplitOfJoin<T>(a: seq<T>, sep: T, b: seq<T>)
    ensures Split(a + [sep] + b, sep) == Split(a, sep) + Split(b, sep)
  {
    hide WithFirst;
    var whole := a + [sep] + b;
    if a == [] {
      assert whole[0] == sep && whole[1..] == b;
    } else {
      var rest, tail := Split(a[1..], sep), Split(b, sep);
      SplitOfJoin(a[1..], sep, b);
      assert whole[0] == a[0] && whole[1..] == a[1..] + [sep] + b;
      if a[0] == sep {
        assert [[]] + (rest + tail) == ([[]] + rest) + tail;
      } else {
        WithFirstConcat(a[0], rest, tail);
      }
    }
  }
}
