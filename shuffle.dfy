/** `shuffle`: the descending Fisher–Yates loop on a copy of the input array. The random draw
    `Math.floor(Math.random() * (i + 1))` of step `i` is the oracle value `js[i]`, which lies
    in `[0, i]`; everything proved holds for every such oracle. */
module Shuffling {
  import opened Seqs

  /** The oracle can serve every step of a shuffle of `n` elements. */
  ghost predicate ValidPicks(js: seq<nat>, n: nat)
  {
    n <= |js| && forall i :: 0 <= i < n ==> js[i] <= i
  }

  /** The exchange `[result[i], result[j]] = [result[j], result[i]]` on a sequence value. */
  function Swap<T>(s: seq<T>, i: nat, j: nat): (r: seq<T>)
    requires i < |s| && j < |s|
    ensures |r| == |s| && r[i] == s[j] && r[j] == s[i]
    ensures forall k :: 0 <= k < |s| && k != i && k != j ==> r[k] == s[k]
  {
    s[i := s[j]][j := s[i]]
  }

  /** The loop's remaining steps `i, i - 1, ..., 1` applied to `s`; nothing is left once `i <= 0`. */
  function ShuffleSteps<T>(s: seq<T>, js: seq<nat>, i: int): (r: seq<T>)
    requires i < |s| && ValidPicks(js, |s|)
    ensures |r| == |s|
    decreases i
  {
    if i <= 0 then s else ShuffleSteps(Swap(s, i, js[i]), js, i - 1)
  }

  /** What `shuffle(s)` returns for the oracle `js`: every step from the last index down. */
  function Shuffled<T>(s: seq<T>, js: seq<nat>): (r: seq<T>)
    requires ValidPicks(js, |s|)
    ensures |r| == |s|
  {
    ShuffleSteps(s, js, |s| - 1)
  }

  /** An exchange keeps every element, as often as it occurs. */
  lemma SwapPermutes<T>(s: seq<T>, i: nat, j: nat)
    requires i < |s| && j < |s|
    ensures multiset(Swap(s, i, j)) == multiset(s)
  {
  }

  lemma {:induction false} ShuffleStepsPermutes<T>(s: seq<T>, js: seq<nat>, i: int)
    requires i < |s| && ValidPicks(js, |s|)
    ensures multiset(ShuffleSteps(s, js, i)) == multiset(s)
    decreases i
  {
    if i > 0 {
      SwapPermutes(s, i, js[i]);
      ShuffleStepsPermutes(Swap(s, i, js[i]), js, i - 1);
    }
  }

  /** For every oracle, `shuffle` returns a permutation of its input: same length, same multiset. */
  lemma ShuffledPermutes<T>(s: seq<T>, js: seq<nat>)
    requires ValidPicks(js, |s|)
    ensures |Shuffled(s, js)| == |s|
    ensures multiset(Shuffled(s, js)) == multiset(s)
  {
    ShuffleStepsPermutes(s, js, |s| - 1);
  }

  /** The destructuring exchange of two array cells. */
  method SwapCells<T>(a: array<T>, i: nat, j: nat)
    requires i < a.Length && j < a.Length
    modifies a
    ensures a[..] == Swap(old(a[..]), i, j)
  {
    a[i], a[j] := a[j], a[i];
  }

  /** The shuffle loop: copies `arr`, then swaps position `i` with the oracle's `js[i]` for
      `i` from the last index down to 1. The result is a fresh array holding a permutation of
      `arr`, which itself is left alone (the method may modify nothing but the new array). */
  method Shuffle<T>(arr: array<T>, js: seq<nat>) returns (result: array<T>)
    requires ValidPicks(js, arr.Length)
    ensures fresh(result)
    ensures result[..] == Shuffled(arr[..], js)
    ensures multiset(result[..]) == multiset(arr[..])
  {
    result := new T[arr.Length](k requires 0 <= k < arr.Length reads arr => arr[k]);
    assert result[..] == arr[..];
    ghost var target := Shuffled(arr[..], js);
    var i := result.Length - 1;
    while i > 0
      invariant -1 <= i < result.Length
      invariant ShuffleSteps(result[..], js, i) == target
    {
      ghost var before := result[..];
      SwapCells(result, i, js[i]);
      assert ShuffleSteps(before, js, i) == ShuffleSteps(result[..], js, i - 1);
      i := i - 1;
    }
    ShuffledPermutes(arr[..], js);
  }

  /** Shuffling never invents or loses an element. */
  lemma ShuffledMembers<T>(s: seq<T>, js: seq<nat>)
    requires ValidPicks(js, |s|)
    ensures forall k :: 0 <= k < |s| ==> Shuffled(s, js)[k] in s
    ensures forall k :: 0 <= k < |s| ==> s[k] in Shuffled(s, js)
  {
    var r := Shuffled(s, js);
    ShuffledPermutes(s, js);
    forall k | 0 <= k < |s| ensures r[k] in s && s[k] in r {
      assert r[k] in multiset(r);
      assert s[k] in multiset(s);
    }
  }

  /** Exchanging two positions keeps keys distinct. */
  lemma SwapDistinctBy<T, K>(s: seq<T>, i: nat, j: nat, key: T -> K)
    requires i < |s| && j < |s|
    requires DistinctBy(s, key)
    ensures DistinctBy(Swap(s, i, j), key)
  {
  }

  lemma {:induction false} ShuffleStepsDistinctBy<T, K>(s: seq<T>, js: seq<nat>, i: int, key: T -> K)
    requires i < |s| && ValidPicks(js, |s|)
    requires DistinctBy(s, key)
    ensures DistinctBy(ShuffleSteps(s, js, i), key)
    decreases i
  {
    if i > 0 {
      var t := Swap(s, i, js[i]);
      SwapDistinctBy(s, i, js[i], key);
      ShuffleStepsDistinctBy(t, js, i - 1, key);
      assert ShuffleSteps(s, js, i) == ShuffleSteps(t, js, i - 1);
    }
  }

  /** Shuffling keeps keys distinct: a duplicate-free input gives a duplicate-free output. */
  lemma ShuffledDistinctBy<T, K>(s: seq<T>, js: seq<nat>, key: T -> K)
    requires ValidPicks(js, |s|)
    requires DistinctBy(s, key)
    ensures DistinctBy(Shuffled(s, js), key)
  {
    ShuffleStepsDistinctBy(s, js, |s| - 1, key);
  }
}
