/** Reversal of a sequence, used both for the reverse iterator over the
    dash items and for walking side b back to front. */
module Sequences {
  /** A sequence back to front. */
  function Reversed<T>(s: seq<T>): (r: seq<T>)
    ensures |r| == |s|
    ensures forall i :: 0 <= i < |s| ==> r[i] == s[|s| - 1 - i]
  {
    seq(|s|, i requires 0 <= i < |s| => s[|s| - 1 - i])
  }

  /** Reversing twice gives the sequence back. */
  lemma ReversedTwice<T>(s: seq<T>)
    ensures Reversed(Reversed(s)) == s
  {
  }

  /** Reversing a concatenation reverses the order of its parts. */
  lemma ReversedAppend<T>(s: seq<T>, t: seq<T>)
    ensures Reversed(s + t) == Reversed(t) + Reversed(s)
  {
  }

  /** Reversing keeps the elements and how often each occurs. */
  lemma {:induction false} ReversedMultiset<T>(s: seq<T>)
    ensures multiset(Reversed(s)) == multiset(s)
  {
    if |s| > 0 {
      ReversedMultiset(s[1..]);
      assert s == [s[0]] + s[1..];
      ReversedAppend([s[0]], s[1..]);
      assert Reversed([s[0]]) == [s[0]];
    }
  }
}
