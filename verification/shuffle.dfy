/** The arrangement step of the replace options. The source sorts with a comparator
    that answers at random; the model draws each position from the remaining elements
    by an index taken from `picks`, which stands for the random numbers (an index out
    of range, or a missing one, picks the first remaining element). Every arrangement,
    and only arrangements, can come out. */
module Shuffling {

  /** The options in the order picked by `picks`. */
  function Shuffle<T>(s: seq<T>, picks: seq<nat>): (r: seq<T>)
    ensures |r| == |s|
    ensures multiset(r) == multiset(s)
    decreases |s|
  {
    if |s| == 0 then []
    else
      var j := if |picks| > 0 && picks[0] < |s| then picks[0] else 0;
      var rest := if |picks| == 0 then [] else picks[1..];
      assert s == s[..j] + [s[j]] + s[j + 1..];
      [s[j]] + Shuffle(s[..j] + s[j + 1..], rest)
  }

  /** Removing the element at `j` removes one occurrence of it from the multiset. */
  lemma MultisetRemoveAt<T>(s: seq<T>, j: nat)
    requires j < |s|
    ensures multiset(s[..j] + s[j + 1..]) == multiset(s) - multiset{s[j]}
  {
    assert s == s[..j] + [s[j]] + s[j + 1..];
  }

  /** An index at which an element of the sequence occurs. */
  lemma IndexOf<T>(s: seq<T>, x: T) returns (j: nat)
    requires x in multiset(s)
    ensures j < |s| && s[j] == x
  {
    assert x in s;
    j :| 0 <= j < |s| && s[j] == x;
  }

  /** After matching the first element of `r` with `s[j]`, the rest of `r` rearranges the rest of `s`. */
  lemma RestSameElements<T>(s: seq<T>, r: seq<T>, j: nat)
    requires multiset(r) == multiset(s)
    requires j < |s| && 0 < |r| && s[j] == r[0]
    ensures multiset(r[1..]) == multiset(s[..j] + s[j + 1..])
  {
    MultisetRemoveAt(s, j);
    MultisetRemoveAt(r, 0);
  }

  /** Picking index `j` first puts `s[j]` in front of a shuffle of the rest. */
  lemma ShuffleCons<T>(s: seq<T>, r: seq<T>, j: nat, tail: seq<nat>)
    requires j < |s| && 0 < |r| && s[j] == r[0]
    requires Shuffle(s[..j] + s[j + 1..], tail) == r[1..]
    ensures Shuffle(s, [j] + tail) == r
  {
    var picks := [j] + tail;
    assert picks[0] == j && picks[1..] == tail;
    assert r == [r[0]] + r[1..];
  }

  /** Every rearrangement of `s` is the outcome of some sequence of random picks. */
  lemma {:induction false} ShuffleReaches<T>(s: seq<T>, r: seq<T>) returns (picks: seq<nat>)
    requires multiset(r) == multiset(s)
    ensures Shuffle(s, picks) == r
    decreases |s|
  {
    assert |r| == |multiset(r)| == |s|;
    if |s| == 0 {
      picks := [];
    } else {
      var j := IndexOf(s, r[0]);
      RestSameElements(s, r, j);
      var tail := ShuffleReaches(s[..j] + s[j + 1..], r[1..]);
      ShuffleCons(s, r, j, tail);
      picks := [j] + tail;
    }
  }
}
