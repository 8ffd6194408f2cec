/** `buildFailoverQueue`: the other candidates (by URL), shuffled, behind the primary, cut by
    `slice(0, maxRetries)`. `maxRetries` is not validated by the source, so the full
    semantics of `slice` is modelled: a negative end counts from the back. */
module Failover {
  import opened Seqs
  import opened OriginPool
  import opened Shuffling

  function Url(o: Origin): string
  {
    o.url
  }

  /** The end index that `slice(0, end)` uses on a list of length `len`. */
  function SliceEnd(len: nat, end: int): nat
  {
    if end < 0 then (if len + end < 0 then 0 else len + end)
    else if end < len then end
    else len
  }

  /** `s.slice(0, end)`. */
  function SliceFront<T>(s: seq<T>, end: int): seq<T>
  {
    s[..SliceEnd(|s|, end)]
  }

  /** `candidates.filter((o) => o.url !== primary.url)`. */
  function Others(primary: Origin, candidates: seq<Origin>): seq<Origin>
  {
    Filter(candidates, (o: Origin) => o.url != primary.url)
  }

  /** The queue `buildFailoverQueue(primary, candidates, maxRetries)` builds for the oracle `js`. */
  function FailoverQueue(primary: Origin, candidates: seq<Origin>, maxRetries: int, js: seq<nat>): seq<Origin>
    requires ValidPicks(js, |candidates|)
  {
    SliceFront([primary] + Shuffled(Others(primary, candidates), js), maxRetries)
  }

  /** The source's function, with the shuffle done by the array method. */
  method BuildFailoverQueue(primary: Origin, candidates: seq<Origin>, maxRetries: int, js: seq<nat>)
    returns (queue: seq<Origin>)
    requires ValidPicks(js, |candidates|)
    ensures queue == FailoverQueue(primary, candidates, maxRetries, js)
  {
    var others := Others(primary, candidates);
    var a := new Origin[|others|](k requires 0 <= k < |others| => others[k]);
    assert a[..] == others;
    var shuffled := Shuffle(a, js);
    queue := SliceFront([primary] + shuffled[..], maxRetries);
  }

  /** With `maxRetries >= 1`: the primary comes first; the queue holds `maxRetries` origins or,
      if fewer are available, the primary and every candidate whose URL differs from it; no
      later entry has the primary's URL, each comes from the candidates, and none is used more
      often than it occurs among them. */
  lemma QueueShape(primary: Origin, candidates: seq<Origin>, maxRetries: int, js: seq<nat>)
    requires ValidPicks(js, |candidates|)
    requires maxRetries >= 1
    ensures var n := |Others(primary, candidates)|;
            |FailoverQueue(primary, candidates, maxRetries, js)| == if maxRetries < 1 + n then maxRetries else 1 + n
    ensures FailoverQueue(primary, candidates, maxRetries, js)[0] == primary
    ensures var q := FailoverQueue(primary, candidates, maxRetries, js);
            forall k :: 1 <= k < |q| ==> q[k].url != primary.url && q[k] in candidates
    ensures var q := FailoverQueue(primary, candidates, maxRetries, js);
            multiset(q[1..]) <= multiset(Others(primary, candidates))
    ensures var q := FailoverQueue(primary, candidates, maxRetries, js);
            maxRetries > |Others(primary, candidates)| ==> multiset(q[1..]) == multiset(Others(primary, candidates))
  {
    var others := Others(primary, candidates);
    var shuffled := Shuffled(others, js);
    var full := [primary] + shuffled;
    var n := SliceEnd(|full|, maxRetries);
    var q := FailoverQueue(primary, candidates, maxRetries, js);
    assert q == full[..n] && 1 <= n;
    assert q[1..] == shuffled[..n - 1];
    QueueMembers(primary, candidates, maxRetries, js);
    ShuffledPermutes(others, js);
    PrefixMultiset(shuffled, n - 1);
  }

  /** Whatever `maxRetries` is, a non-empty queue starts with the primary and every later entry
      is a candidate whose URL differs from the primary's. */
  lemma QueueMembers(primary: Origin, candidates: seq<Origin>, maxRetries: int, js: seq<nat>)
    requires ValidPicks(js, |candidates|)
    ensures var q := FailoverQueue(primary, candidates, maxRetries, js);
            |q| > 0 ==> q[0] == primary
    ensures var q := FailoverQueue(primary, candidates, maxRetries, js);
            forall k :: 1 <= k < |q| ==> q[k] in candidates && q[k].url != primary.url
  {
    var others := Others(primary, candidates);
    var shuffled := Shuffled(others, js);
    var q := FailoverQueue(primary, candidates, maxRetries, js);
    ShuffledMembers(others, js);
    forall k | 1 <= k < |q| ensures q[k] in candidates && q[k].url != primary.url {
      assert q[k] == shuffled[k - 1] && shuffled[k - 1] in others;
      var m :| 0 <= m < |others| && others[m] == q[k];
    }
  }

  /** If no two candidates share a URL, no two queue entries do. */
  lemma QueueDistinct(primary: Origin, candidates: seq<Origin>, maxRetries: int, js: seq<nat>)
    requires ValidPicks(js, |candidates|)
    requires DistinctBy(candidates, Url)
    ensures DistinctBy(FailoverQueue(primary, candidates, maxRetries, js), Url)
  {
    var others := Others(primary, candidates);
    var shuffled := Shuffled(others, js);
    FilterDistinctBy(candidates, (o: Origin) => o.url != primary.url, Url);
    ShuffledDistinctBy(others, js, Url);
    ShuffledMembers(others, js);
    forall y | y in shuffled ensures Url(y) != Url(primary) {
      var m :| 0 <= m < |others| && others[m] == y;
    }
    ConsDistinctBy(primary, shuffled, Url);
    var full := [primary] + shuffled;
    PrefixDistinctBy(full, SliceEnd(|full|, maxRetries), Url);
  }

  /** `maxRetries` of 0 yields an empty queue; a negative one drops that many entries from
      the back of the full list. */
  lemma QueueNonPositiveRetries(primary: Origin, candidates: seq<Origin>, maxRetries: int, js: seq<nat>)
    requires ValidPicks(js, |candidates|)
    requires maxRetries <= 0
    ensures maxRetries == 0 ==> FailoverQueue(primary, candidates, maxRetries, js) == []
    ensures var full := 1 + |Others(primary, candidates)|;
            maxRetries < 0 ==> |FailoverQueue(primary, candidates, maxRetries, js)| == if full + maxRetries < 0 then 0 else full + maxRetries
    ensures var whole := [primary] + Shuffled(Others(primary, candidates), js);
            var q := FailoverQueue(primary, candidates, maxRetries, js);
            |q| <= |whole| && q == whole[..|q|]
  {
  }

  /** A pool holding only the primary's URL gives the one-entry queue: failover without retries. */
  lemma SoleCandidateQueue(primary: Origin, maxRetries: int, js: seq<nat>)
    requires ValidPicks(js, 1)
    requires maxRetries >= 1
    ensures FailoverQueue(primary, [primary], maxRetries, js) == [primary]
  {
  }

  /** Two retries over three distinct origins with the first as primary: the queue is that
      primary and exactly one of the other two. */
  lemma TwoOfThreeScenario(candidates: seq<Origin>, js: seq<nat>)
    requires |candidates| == 3 && ValidPicks(js, 3)
    requires DistinctBy(candidates, Url)
    ensures var q := FailoverQueue(candidates[0], candidates, 2, js);
            |q| == 2 && q[0] == candidates[0] && (q[1] == candidates[1] || q[1] == candidates[2])
  {
  }
}
