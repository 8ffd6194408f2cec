# Hyperfly origin selection and failover, modelled in Dafny

Hyperfly is a reverse proxy that sits in front of a set of origins (backends). For each inbound request it:

- classifies the HTTP method as a write or a read;
- picks the pool of origins for that kind of request;
- chooses a primary origin, either the first one serving the request's continent or a random one;
- if failover is enabled, tries a bounded, shuffled queue of origins in order until one gives a response whose status is not retryable.

This project models that engine from `src/index.ts` and proves properties of the model.

Modules:

- `Wrappers` (`wrappers.dfy`): the `Option` type, standing for values that may be `undefined`.
- `Seqs` (`seqs.dfy`): the order-preserving `filter` of JavaScript arrays, and distinctness of a sequence under a key (such as the URL).
- `OriginPool` (`origin_pool.dfy`):
  - the `Origin` record (optional `regions`, optional `write`);
  - `normalizeOrigins`;
  - the split into write-capable and read-only origins.
- `Selection` (`selection.dfy`): `pickRandom`, `pickGeo`, and the strategy dispatch of `fetch`.
- `Shuffling` (`shuffle.dfy`):
  - `shuffle` as an array method: it copies the input, then runs the descending Fisher–Yates loop of swaps;
  - the method is proved equal to a function `Shuffled` that specifies the loop;
  - lemmas prove the result is a permutation.
- `Failover` (`failover_queue.dfy`):
  - `buildFailoverQueue`, with the full semantics of `Array.prototype.slice(0, maxRetries)`; a negative end counts from the back;
  - a method that builds the queue by calling the array shuffle.
- `Router` (`router.dfy`):
  - `isWriteMethod` and `shouldFailover`;
  - the configuration defaults;
  - candidate and failover pools;
  - the `Hyperfly` class: its constructor and a `Fetch` method with the selection and failover logic of `fetch`.

  The attempt loop of `fetch` (lines 122-136) is the method `TryInOrder`. `Fetch` calls it. It is proved equal to `RunQueue`, a closed-form function: the first accepted response, or else the failure from the last attempt.

The effects of the source become parameters:

- `Math.random` in `pickRandom` becomes an index `pick < |candidates|`.
- `Math.random` in `shuffle` becomes a sequence `js` with `js[i] <= i` for every step `i` (`ValidPicks`).
- Each `proxyRequest` call becomes `proxy(k, origin)`, the outcome of attempt number `k` against `origin`. It is either `Resp(status)` or `TransportErr`.

Every statement holds for every such oracle. `Fetch` also has a ghost out-parameter, `tried`: the origins it attempted, in order.

The model keeps these behaviours of the code as written:

- Origin URLs are not validated at construction.
- `maxRetries` is not checked to be at least 1.
- Duplicate URLs among the candidates are not removed. The queue is duplicate-free only when the candidate URLs are distinct (`Failover.QueueDistinct`).
- The per-attempt timeout comes only from a failover object. With `failover: true`, or with failover disabled, `timeout` is undefined.
- The failover pool of lines 116-119 always equals the candidate pool of lines 103-104 (`Router.FailoverPoolIsCandidates`). So the rule "a write never fails over to a read-only origin" is already met by the candidate pool.

The source does not reject an empty origin list either. The model does not follow it there: the constructor requires at least one origin (see "## Left out").

## Model

| member | source | states |
|---|---|---|
| `Seqs.Filter` | src/index.ts:58 | JavaScript's `filter`, used at lines 58, 98 and 99. The result is no longer than the input. Every kept element is in the input and passes the test, and every input element that passes is kept. |
| `OriginPool.NormalizeOrigin` | src/index.ts:22 | Definition with no contract of its own: the lambda of the `map`, keeping a record and turning a bare string into `{ url }`. Its properties are in the `OriginPool.NormalizeOrigins` row. |
| `OriginPool.NormalizeOrigins` | src/index.ts:21-23 | Length and order are kept, and each entry keeps its URL. A record is kept unchanged. A bare string becomes a read-only origin that serves no continent. |
| `OriginPool.PartitionExact` | src/index.ts:98-99 | `writeOrigins` holds only write-capable origins and `readOrigins` only read-only ones. Together they hold every configured origin exactly as often as the list does (multiset sum, and lengths add up). |
| `OriginPool.PartitionKeepsOrder` | src/index.ts:98-99 | Both pools are stable filters: partitioning a concatenation gives the concatenation of the partitions. |
| `OriginPool.PoolEmptiness` | src/index.ts:98-99 | A pool is empty exactly when no configured origin is of its kind (both directions, for both pools). |
| `OriginPool.IsWrite` | src/index.ts:98 | Definition with no contract of its own: the truthiness of `o.write`, which only an explicit `true` passes. Its properties are in the partition rows. |
| `OriginPool.IsReadOnly` | src/index.ts:99 | Definition with no contract of its own: the test `!o.write`. Its properties are in the partition rows. |
| `OriginPool.WriteOrigins` | src/index.ts:98 | Definition with no contract of its own: the stable filter on `write`. Its properties are in the `OriginPool.PartitionExact`, `OriginPool.PartitionKeepsOrder` and `OriginPool.PoolEmptiness` rows. |
| `OriginPool.ReadOrigins` | src/index.ts:99 | Definition with no contract of its own: the stable filter on `!write`. Its properties are in the same three partition rows. |
| `OriginPool.Serves` | src/index.ts:31 | Definition with no contract of its own: `o.regions?.includes(continent)`, false when `regions` is absent. Its properties are in the `Selection.FirstServing` and `Selection.PickGeo` rows. |
| `Selection.PickRandom` | src/index.ts:25-27 | The result is an element of the pool: the one at the oracle's index. |
| `Selection.FirstServing` | src/index.ts:31 | `find` returns the position of the first origin whose regions contain the continent; every earlier origin fails the test; the length means no match. |
| `Selection.PickGeo` | src/index.ts:29-32 | A match exists exactly when the continent is present, is not empty, and some origin serves it. An origin without `regions` never matches. A match is an element of the list that serves the continent, and no earlier origin serves it (first match in input order). |
| `Selection.SelectPrimary` | src/index.ts:107-110 | The primary is always a member of the candidates. With the geo strategy it is the geo match when there is one; otherwise (random strategy, or no geo match) it is `candidates[pick]`. |
| `Selection.GeoSelectsSoleMatch` | src/index.ts:29-32 | When exactly one candidate serves a non-empty continent, the geo strategy selects it, whatever the random index. |
| `Selection.GeoScenario` | src/index.ts:107-110 | With `a` serving "EU" and `b` serving "US", a request from "US" selects `b`. |
| `Shuffling.Swap` | src/index.ts:48 | The exchange on a sequence value: the length is kept, position `i` takes the old value at `j` and `j` the old value at `i`, and every other position is unchanged. |
| `Shuffling.SwapCells` | src/index.ts:48 | The destructuring exchange changes the array exactly as `Swap` exchanges positions `i` and `j`. |
| `Shuffling.SwapPermutes` | src/index.ts:48 | An exchange keeps the multiset of elements. |
| `Shuffling.ShuffleSteps` | src/index.ts:46-49 | The remaining loop steps `i` down to 1 keep the length. The multiset is in the `Shuffling.ShuffleStepsPermutes` row. |
| `Shuffling.ShuffleStepsPermutes` | src/index.ts:46-49 | Any number of remaining loop steps keeps the multiset. |
| `Shuffling.ValidPicks` | src/index.ts:47 | Definition with no contract of its own: the bound `0 <= j <= i` that `Math.floor(Math.random() * (i + 1))` guarantees at step `i`. It is the precondition of every shuffle row. |
| `Shuffling.Shuffled` | src/index.ts:44-51 | What `shuffle` returns: the full loop on a copy, keeping the length. The permutation, membership and distinctness are in the rows below. |
| `Shuffling.Shuffle` | src/index.ts:44-51 | Returns a fresh array equal to `Shuffled(arr[..], js)` with the same multiset as the input. The input array is not modified: the method may modify only the new array. |
| `Shuffling.ShuffledPermutes` | src/index.ts:44-51 | For every oracle, the shuffle has the input's length and multiset: it is a permutation. |
| `Shuffling.ShuffledMembers` | src/index.ts:44-51 | Every output element occurs in the input, and every input element occurs in the output. |
| `Shuffling.ShuffledDistinctBy` | src/index.ts:44-51 | If no two input elements share a key, no two output elements do. |
| `Failover.SliceEnd` | src/index.ts:59 | Definition with no contract of its own: the end index of `slice(0, end)`. A negative end counts from the back and stops at 0, and an end past the length stops at the length. Its cases are in the `Failover.QueueShape` and `Failover.QueueNonPositiveRetries` rows. |
| `Failover.SliceFront` | src/index.ts:59 | Definition with no contract of its own: `s.slice(0, end)` as the prefix up to `SliceEnd`. Its properties are in the queue rows. |
| `Failover.Others` | src/index.ts:58 | Definition with no contract of its own: the candidates whose URL differs from the primary's, in order. Its properties are in the `Failover.QueueShape` and `Failover.QueueMembers` rows. |
| `Failover.FailoverQueue` | src/index.ts:53-60 | Definition with no contract of its own: `slice(0, maxRetries)` of the primary followed by the shuffled other-URL candidates, for the oracle `js`. Its properties are in the rows from `Failover.BuildFailoverQueue` to `Failover.TwoOfThreeScenario`. |
| `Failover.BuildFailoverQueue` | src/index.ts:53-60 | The queue built with the array shuffle is `FailoverQueue(primary, candidates, maxRetries, js)`. |
| `Failover.QueueShape` | src/index.ts:53-60 | For `maxRetries >= 1`, the primary comes first. The length is `min(maxRetries, 1 + #others)`, where `#others` counts the candidates whose URL differs from the primary's. No later entry has the primary's URL, and each later entry is a candidate. The later entries are a sub-multiset of those others, and all of them when `maxRetries` exceeds their number. |
| `Failover.QueueMembers` | src/index.ts:58-59 | For any `maxRetries`, a non-empty queue starts with the primary, and every later entry is a candidate whose URL differs from the primary's. |
| `Failover.QueueDistinct` | src/index.ts:53-60 | If the candidate URLs are distinct, the queue has no two entries with the same URL. |
| `Failover.QueueNonPositiveRetries` | src/index.ts:59 | `maxRetries == 0` gives an empty queue. For a negative `maxRetries`, the queue is a prefix of `[primary, ...shuffled others]` whose length is `max(1 + #others + maxRetries, 0)`. So that many entries are dropped from the back, down to empty. |
| `Failover.SoleCandidateQueue` | src/index.ts:53-60 | A pool holding only the primary gives the one-entry queue `[primary]`. |
| `Failover.TwoOfThreeScenario` | src/index.ts:53-60 | With `maxRetries = 2` and three candidates with distinct URLs, where the first is the primary, the queue is the primary plus exactly one of the other two. |
| `Router.IsWriteMethod` | src/index.ts:34-36 | Definition with no contract of its own: exact, case-sensitive membership in the four write verbs. Its property is in the `Router.WriteMethodsAreUpperCase` row. |
| `Router.WriteMethodsAreUpperCase` | src/index.ts:34-36 | Only the exact strings "POST", "PUT", "PATCH" and "DELETE" are writes. All their characters are upper case, so "post" is a read. |
| `Router.ShouldFailover` | src/index.ts:40-42 | Definition with no contract of its own: membership of the status in the configured codes. Its properties are in the `Router.DefaultRetryableStatuses`, `Router.RunReturnsFirstAccepted` and `Router.NotFoundIsNotRetried` rows. |
| `Router.DefaultRetryableStatuses` | src/index.ts:38-42 | Under the default codes a status is retried exactly when it is 429, 500, 502, 503 or 504. So 501, every success, every redirect and every other client error is returned at once. |
| `Router.FailoverEnabled` | src/index.ts:91 | Definition with no contract of its own: the setting is neither absent nor `false`. Its property is in the `Router.FailoverSettingCases` row. |
| `Router.FailoverObject` | src/index.ts:93 | Definition with no contract of its own: the failover object, or an empty one. Its property is in the `Router.FailoverSettingCases` row. |
| `Router.FailoverSettingCases` | src/index.ts:91-96 | Failover is on exactly for `true` and for an object. Only an object supplies `maxRetries`, `statusCodes` or `timeout`; for an absent or boolean setting all three are undefined. |
| `Router.CandidatePool` | src/index.ts:103-104 | Definition with no contract of its own: the pool of the request's kind, or all origins when that pool is empty. Its properties are in the `Router.PoolChoice` and `Router.AttemptTargets` rows. |
| `Router.FailoverPool` | src/index.ts:116-119 | Definition with no contract of its own: the write pool for a write with write-capable origins, else the candidates. Its property is in the `Router.FailoverPoolIsCandidates` row. |
| `Router.PoolChoice` | src/index.ts:103-104 | The candidate pool is never empty when origins are configured, and it never holds an unconfigured origin. A write uses the write-capable origins when one exists, and all origins otherwise. Any other method uses the read-only origins when one exists, and all origins otherwise. |
| `Router.FailoverPoolIsCandidates` | src/index.ts:116-119 | The failover pool always equals the candidate pool. |
| `Router.AttemptTargets` | src/index.ts:103-120 | Every queued origin comes from the candidate pool. A write never reaches a read-only origin while a write-capable one exists. A read never reaches a write-capable origin while a read-only one exists. |
| `Router.Deliver` | src/index.ts:113 | Definition with no contract of its own: an attempt's outcome passed to the caller unchanged. A response is returned and a transport error is thrown, at line 113 and again at 135-136. Its uses are in the `Router.RunExhausted` and `Router.Hyperfly.Fetch` rows. |
| `Router.Accepted` | src/index.ts:126 | Definition with no contract of its own: the attempt gave a response whose status is not retryable. Its properties are in the `Router.FirstAccepted` and `Router.RunReturnsFirstAccepted` rows. |
| `Router.FirstAccepted` | src/index.ts:123-128 | Gives the position of the first response whose status is not retryable, with every earlier outcome retryable or a transport error; the length means there is none. |
| `Router.Surface` | src/index.ts:135-136 | Definition with no contract of its own: a recorded response is returned, a recorded transport error is thrown, and nothing recorded throws `undefined`. Its cases are in the `Router.RunExhausted` row. |
| `Router.AttemptsMade` | src/index.ts:122-133 | Definition with no contract of its own: how many origins the loop tries, up to and including the first accepted one, or all of them. Its properties are in the `Router.RunReturnsFirstAccepted`, `Router.RunExhausted` and `Router.TryInOrder` rows. |
| `Router.RunQueue` | src/index.ts:122-136 | Definition with no contract of its own: the closed form of the attempt loop. Its properties are in the `Router.RunReturnsFirstAccepted`, `Router.RunExhausted` and `Router.RunReportsLastAttempt` rows, and `Router.TryInOrder` is proved equal to it. |
| `Router.RunReturnsFirstAccepted` | src/index.ts:122-128 | The first response whose status is not in the failover codes is returned as it is, and exactly that many attempts are made. Nothing after it is tried. |
| `Router.RunExhausted` | src/index.ts:122-136 | If every attempt is retryable or a transport error, every queued origin is tried. The last outcome decides: a last response is returned, even when earlier ones also failed, and a last transport error is thrown. An empty queue throws `undefined`. |
| `Router.RunReportsLastAttempt` | src/index.ts:122-136 | The result is always what the last attempt made gave. `undefined` is thrown exactly when nothing was attempted, and every attempt before the last one was a failure. |
| `Router.NotFoundIsNotRetried` | src/index.ts:38-42 | Under the default codes, a 404 from the primary is returned after one attempt. |
| `Router.TryInOrder` | src/index.ts:122-136 | The loop's result is `RunQueue` of the queue's outcomes. The origins it attempts are the queue's prefix up to and including the first accepted one, or the whole queue. |
| `Router.Hyperfly.constructor` | src/index.ts:88-100 | `origins` is the normalised list, and `strategy` defaults to geo. Failover is enabled exactly when `failover` is neither absent nor `false`. `maxRetries` defaults to the number of origins. The status codes default to [429, 500, 502, 503, 504]. The timeout is taken only from a failover object. The pools are the two stable filters on `write`. |
| `Router.Hyperfly.Fetch` | src/index.ts:102-136 | Without failover, it tries the selected primary once and passes its outcome through unchanged. With failover, it builds the queue from the primary and the failover pool, and settles as `RunQueue` of the queue's outcomes. It tries exactly the queue's prefix up to the first accepted response. |

## Left out

- `proxyRequest` (src/index.ts:62-76) is not modelled. Its URL rewriting relies on the WHATWG URL parser, and it calls `fetch`, `AbortController` and `setTimeout`. Each call is the abstract outcome `proxy(k, origin)`. The `timeout` field is stored but has no effect in the model.
- `Math.random` and its floating-point arithmetic are not modelled (src/index.ts:26, 47). The index oracles carry only the bounds that `Math.floor` guarantees. Uniformity of `pickRandom` and `shuffle` is probabilistic and is not stated.
- The inbound request is only its method string and an optional continent. Reading `cf.continent` off the host's request object (src/index.ts:106) is host metadata. Headers, body, URL and any method normalisation done by the host's `Request` constructor are outside the model.
- `async`/`await` and concurrency between requests are not modelled: the attempt loop is an ordinary sequential loop.
- Router.Hyperfly.constructor: requires a non-empty origin list. The source does not check this, and with no origins `fetch` ends in one of two ways, neither modelled. Without failover, or with failover and a `maxRetries` of at least 1, the primary is `undefined`, and `proxyRequest` fails with a `TypeError` when it reads that origin's URL. With failover and a `maxRetries` of 0 or less, `[undefined].slice(0, maxRetries)` is empty; 0 is the default, since it is the number of origins. The loop then never runs and `fetch` throws `undefined` without calling `proxyRequest`.
- Router.Hyperfly.Fetch: inherits the non-empty origin list through `Valid()`, for the same reason.
- JavaScript numbers are modelled as unbounded integers. Fractional, `NaN` or infinite values of `maxRetries` or of a status code are not modelled.
- Configuration values outside the declared TypeScript types (a `null` failover setting, say) are not modelled.
