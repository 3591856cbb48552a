/**
  The in-place shuffle that produces the "classical" route variant. The
  library shuffle walks the positions from the last down to the second and
  swaps each position i with a position drawn uniformly from 0..i. The
  draws are the only randomness, so they are a parameter here: `rand(i)`
  stands for the draw made at position i, reduced into 0..i.
*/
module Shuffle {

  /** The list with the elements at positions `i` and `j` exchanged: the
      same elements, in a different arrangement. */
  function Swap<T>(s: seq<T>, i: nat, j: nat): (r: seq<T>)
    requires i < |s| && j < |s|
    ensures |r| == |s|
    ensures multiset(r) == multiset(s)
  {
    var r := seq(|s|, k requires 0 <= k < |s| => if k == j then s[i] else if k == i then s[j] else s[k]);
    assert r == s[i := s[j]][j := s[i]];
    r
  }

  /** A swap moves exactly the two elements it names. */
  lemma SwapMovesTwo<T>(s: seq<T>, i: nat, j: nat)
    requires i < |s| && j < |s|
    ensures Swap(s, i, j)[i] == s[j] && Swap(s, i, j)[j] == s[i]
    ensures forall k :: 0 <= k < |s| && k != i && k != j ==> Swap(s, i, j)[k] == s[k]
  {
  }

  /** The position drawn for position `i`: always one of 0..i. */
  function Draw(rand: nat -> nat, i: nat): (j: nat)
    ensures j <= i
  {
    rand(i) % (i + 1)
  }

  /** Positions i, i - 1, ..., 1 of the shuffle, each swapped with its draw:
      the remaining steps only ever exchange elements. */
  function ShuffleFrom<T>(s: seq<T>, rand: nat -> nat, i: nat): (r: seq<T>)
    requires i < |s|
    ensures |r| == |s|
    ensures multiset(r) == multiset(s)
    decreases i
  {
    if i == 0 then s
    else ShuffleFrom(Swap(s, i, Draw(rand, i)), rand, i - 1)
  }

  /** The shuffled copy of a list: a rearrangement of exactly its elements,
      none added, dropped or changed. */
  function Shuffled<T>(s: seq<T>, rand: nat -> nat): (r: seq<T>)
    ensures |r| == |s|
    ensures multiset(r) == multiset(s)
  {
    if |s| == 0 then s
    else ShuffleFrom(s, rand, |s| - 1)
  }

  /** The draws that pick, at every position, that position itself. */
  function KeepInPlace(i: nat): nat
  {
    i
  }

  lemma SwapWithItself<T>(s: seq<T>, i: nat)
    requires i < |s|
    ensures Swap(s, i, i) == s
  {
    SwapMovesTwo(s, i, i);
    var r := Swap(s, i, i);
    assert forall k :: 0 <= k < |s| ==> r[k] == s[k];
  }

  lemma DrawKeepsInPlace(i: nat)
    ensures Draw(KeepInPlace, i) == i
  {
    assert KeepInPlace(i) == i;
    assert i < i + 1;
  }

  /** Draws that never move anything keep the input order. */
  lemma {:induction false} ShuffleFromKeepsOrder<T>(s: seq<T>, i: nat)
    requires i < |s|
    ensures ShuffleFrom(s, KeepInPlace, i) == s
    decreases i
  {
    if i > 0 {
      DrawKeepsInPlace(i);
      SwapWithItself(s, i);
      ShuffleFromKeepsOrder(s, i - 1);
    }
  }

  /** The input order is one of the orders the shuffle can produce. */
  lemma ShuffledCanKeepOrder<T>(s: seq<T>)
    ensures Shuffled(s, KeepInPlace) == s
  {
    if |s| > 0 {
      ShuffleFromKeepsOrder(s, |s| - 1);
    }
  }
}
