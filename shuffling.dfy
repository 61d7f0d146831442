/**
 * Kotlin's `shuffled()`. The random source is a stream of picks handed in
 * by the caller: each pick chooses, modulo the number of elements still
 * left, the element that comes next. Every stream gives a permutation of
 * the input, and every permutation is given by some stream.
 */
module Shuffling {

  /** The position the next pick chooses among `n` remaining elements; an exhausted stream chooses the first. */
  function PickIndex(picks: seq<nat>, n: nat): (k: nat)
    requires n > 0
    ensures k < n
  {
    if picks == [] then 0 else picks[0] % n
  }

  /** The picks left after the next one. */
  function RestPicks(picks: seq<nat>): (r: seq<nat>) {
    if picks == [] then [] else picks[1..]
  }

  /** The list `s` without its element at `k`. */
  function RemoveAt<T>(s: seq<T>, k: nat): (r: seq<T>)
    requires k < |s|
    ensures |r| == |s| - 1
  {
    s[..k] + s[k + 1..]
  }

  /** The list `s` rearranged by the picks. */
  function Shuffle<T>(s: seq<T>, picks: seq<nat>): (r: seq<T>)
    ensures |r| == |s|
    decreases |s|
  {
    if s == [] then []
    else
      var k := PickIndex(picks, |s|);
      [s[k]] + Shuffle(RemoveAt(s, k), RestPicks(picks))
  }

  /** A shuffle is a permutation: it keeps every element with its multiplicity. */
  lemma {:induction false} ShuffleMultiset<T>(s: seq<T>, picks: seq<nat>)
    ensures multiset(Shuffle(s, picks)) == multiset(s)
    decreases |s|
  {
    if s != [] {
      var k := PickIndex(picks, |s|);
      ShuffleMultiset(RemoveAt(s, k), RestPicks(picks));
      RemoveAtMultiset(s, k);
    }
  }

  /** The position of the first occurrence of `x` in `s`. */
  ghost function IndexOf<T>(s: seq<T>, x: T): (i: nat)
    requires x in s
    ensures i < |s| && s[i] == x
    ensures forall j :: 0 <= j < i ==> s[j] != x
  {
    if s[0] == x then 0 else 1 + IndexOf(s[1..], x)
  }

  /** An empty pick stream always picks the first element: the list stays in order. */
  lemma {:induction false} ShuffleWithoutPicks<T>(s: seq<T>)
    ensures Shuffle(s, []) == s
    decreases |s|
  {
    if s != [] {
      ShuffleWithoutPicks(s[1..]);
      assert RemoveAt(s, 0) == s[1..];
    }
  }

  /** Removing the element at `k` removes one occurrence of it from the multiset. */
  lemma RemoveAtMultiset<T>(s: seq<T>, k: nat)
    requires k < |s|
    ensures multiset(RemoveAt(s, k)) == multiset(s) - multiset{s[k]}
  {
    assert s == s[..k] + [s[k]] + s[k + 1..];
  }

  /** A pick already below the bound is its own remainder. */
  lemma ModOfSmaller(k: nat, n: nat)
    requires k < n
    ensures k % n == k
  {
  }

  /** A first pick `k` below the length puts `s[k]` first. */
  lemma ShuffleFirstPick<T>(s: seq<T>, k: nat, picks: seq<nat>)
    requires k < |s|
    ensures Shuffle(s, [k] + picks) == [s[k]] + Shuffle(RemoveAt(s, k), picks)
  {
    ModOfSmaller(k, |s|);
    assert ([k] + picks)[1..] == picks;
  }

  /** Equal multisets have equal lengths, and agree after removing one shared element. */
  lemma SameMultisetAfterRemoval<T>(s: seq<T>, t: seq<T>, k: nat)
    requires multiset(s) == multiset(t) && k < |s| && |t| > 0 && s[k] == t[0]
    ensures multiset(RemoveAt(s, k)) == multiset(t[1..])
  {
    RemoveAtMultiset(s, k);
    RemoveAtMultiset(t, 0);
    assert RemoveAt(t, 0) == t[1..];
  }

  /** Equal multisets have equal lengths. */
  lemma SameMultisetSameLength<T>(s: seq<T>, t: seq<T>)
    requires multiset(s) == multiset(t)
    ensures |s| == |t|
    ensures |s| > 0 ==> t[0] in s
  {
    assert |multiset(s)| == |s| && |multiset(t)| == |t|;
    if |s| > 0 {
      assert t[0] in multiset(t);
    }
  }

  /** A pick stream that makes `Shuffle(s, ·)` produce the permutation `t`. */
  ghost function PicksFor<T>(s: seq<T>, t: seq<T>): (picks: seq<nat>)
    requires multiset(s) == multiset(t)
    ensures Shuffle(s, picks) == t
    decreases |s|
  {
    SameMultisetSameLength(s, t);
    if s == [] then []
    else
      var k := IndexOf(s, t[0]);
      SameMultisetAfterRemoval(s, t, k);
      var picks' := PicksFor(RemoveAt(s, k), t[1..]);
      ShuffleFirstPick(s, k, picks');
      assert t == [t[0]] + t[1..];
      [k] + picks'
  }

  /** `shuffled()` can return any permutation of its input. */
  lemma EveryPermutationIsAShuffle<T>(s: seq<T>, t: seq<T>)
    requires multiset(s) == multiset(t)
    ensures exists picks :: Shuffle(s, picks) == t
  {
    var picks := PicksFor(s, t);
    assert Shuffle(s, picks) == t;
  }
}
