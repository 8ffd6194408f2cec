/** The `Hyperfly` router: configuration defaults, method classification, pool choice and the
    sequential failover loop of `fetch`. Each call of `proxyRequest` is abstracted to the
    outcome `proxy(k, origin)` of attempt number `k` against `origin`. */
module Router {
  import opened Wrappers
  import opened Seqs
  import opened OriginPool
  import opened Selection
  import opened Shuffling
  import opened Failover

  const WriteMethods: seq<string> := ["POST", "PUT", "PATCH", "DELETE"]

  /** `DEFAULT_FAILOVER_CODES`. */
  const DefaultFailoverCodes: seq<int> := [429, 500, 502, 503, 504]

  /** `isWriteMethod`: exact, case-sensitive membership in the four write verbs. */
  predicate IsWriteMethod(verb: string)
  {
    verb in WriteMethods
  }

  /** `shouldFailover`: the status is one of the configured retryable codes. */
  predicate ShouldFailover(status: int, codes: seq<int>)
  {
    status in codes
  }

  /** Only the four upper-case verbs are writes: any spelling with a character outside
      `A`..`Z` (a lower-case "post", say) is a read. */
  lemma WriteMethodsAreUpperCase(verb: string)
    requires IsWriteMethod(verb)
    ensures forall k :: 0 <= k < |verb| ==> 'A' <= verb[k] <= 'Z'
    ensures verb == "POST" || verb == "PUT" || verb == "PATCH" || verb == "DELETE"
  {
  }

  /** Under the default codes exactly 429, 500, 502, 503 and 504 are retried: 501, every
      success, every redirect and every other client error ends the attempt loop. */
  lemma DefaultRetryableStatuses(status: int)
    ensures ShouldFailover(status, DefaultFailoverCodes) <==>
            status == 429 || (500 <= status <= 504 && status != 501)
  {
  }

  // ---------------------------------------------------------------- configuration

  /** The `failover` field of the configuration: absent, a boolean, or an object. */
  datatype FailoverSetting = Unset | Flag(on: bool) | Settings(settings: FailoverConfig)

  datatype FailoverConfig = FailoverConfig(maxRetries: Option<int>, statusCodes: Option<seq<int>>, timeout: Option<int>)

  datatype Config = Config(origins: seq<RawOrigin>, strategy: Option<Strategy>, failover: FailoverSetting)

  /** `config.failover !== undefined && config.failover !== false`. */
  predicate FailoverEnabled(f: FailoverSetting)
  {
    !f.Unset? && f != Flag(false)
  }

  /** `typeof config.failover === "object" ? config.failover : {}`. */
  function FailoverObject(f: FailoverSetting): FailoverConfig
  {
    if f.Settings? then f.settings else FailoverConfig(None, None, None)
  }

  /** Failover is on exactly for `failover: true` and for a failover object, and only an object
      supplies `maxRetries`, `statusCodes` or `timeout`. */
  lemma FailoverSettingCases(f: FailoverSetting)
    ensures FailoverEnabled(f) <==> f == Flag(true) || f.Settings?
    ensures !f.Settings? ==> FailoverObject(f) == FailoverConfig(None, None, None)
    ensures f.Settings? ==> FailoverObject(f) == f.settings
  {
  }

  // ---------------------------------------------------------------- pools

  /** The candidate pool of `fetch`: the pool of the request's kind, or every origin when that
      pool is empty. */
  function CandidatePool(verb: string, origins: seq<Origin>, writeOrigins: seq<Origin>, readOrigins: seq<Origin>): seq<Origin>
  {
    var pool := if IsWriteMethod(verb) then writeOrigins else readOrigins;
    if |pool| > 0 then pool else origins
  }

  /** The pool the failover queue is drawn from. */
  function FailoverPool(verb: string, writeOrigins: seq<Origin>, candidates: seq<Origin>): seq<Origin>
  {
    if IsWriteMethod(verb) && |writeOrigins| > 0 then writeOrigins else candidates
  }

  /** Pool choice over the partition of the configured origins: never empty when origins are
      configured, never holding an unconfigured origin; a write goes to the write-capable
      origins when there is one and to all origins otherwise; any other method goes to the
      read-only origins when there is one and to all origins otherwise. */
  lemma PoolChoice(verb: string, origins: seq<Origin>)
    ensures var c := CandidatePool(verb, origins, WriteOrigins(origins), ReadOrigins(origins));
            (|origins| > 0 ==> |c| > 0) && forall k :: 0 <= k < |c| ==> c[k] in origins
    ensures var c := CandidatePool(verb, origins, WriteOrigins(origins), ReadOrigins(origins));
            IsWriteMethod(verb) && (exists k :: 0 <= k < |origins| && IsWrite(origins[k])) ==>
              c == WriteOrigins(origins) && forall o :: o in c ==> IsWrite(o)
    ensures IsWriteMethod(verb) && (forall k :: 0 <= k < |origins| ==> IsReadOnly(origins[k])) ==>
              CandidatePool(verb, origins, WriteOrigins(origins), ReadOrigins(origins)) == origins
    ensures var c := CandidatePool(verb, origins, WriteOrigins(origins), ReadOrigins(origins));
            !IsWriteMethod(verb) && (exists k :: 0 <= k < |origins| && IsReadOnly(origins[k])) ==>
              c == ReadOrigins(origins) && forall o :: o in c ==> IsReadOnly(o)
    ensures !IsWriteMethod(verb) && (forall k :: 0 <= k < |origins| ==> IsWrite(origins[k])) ==>
              CandidatePool(verb, origins, WriteOrigins(origins), ReadOrigins(origins)) == origins
  {
    PoolEmptiness(origins);
  }

  /** The failover pool is always the candidate pool: for a write with write-capable origins
      both are the write-capable origins, otherwise the failover pool is the candidates. */
  lemma FailoverPoolIsCandidates(verb: string, origins: seq<Origin>, writeOrigins: seq<Origin>, readOrigins: seq<Origin>)
    ensures var c := CandidatePool(verb, origins, writeOrigins, readOrigins);
            FailoverPool(verb, writeOrigins, c) == c
  {
  }

  /** Every origin a request can be sent to, primary or retry, comes from its candidate pool;
      a write never goes to a read-only origin while a write-capable one exists, and a read
      never goes to a write-capable origin while a read-only one exists. */
  lemma AttemptTargets(verb: string, origins: seq<Origin>, strategy: Strategy, continent: Option<string>,
                       pick: nat, maxRetries: int, js: seq<nat>)
    requires |origins| > 0
    requires pick < |CandidatePool(verb, origins, WriteOrigins(origins), ReadOrigins(origins))|
    requires ValidPicks(js, |origins|)
    ensures var c := CandidatePool(verb, origins, WriteOrigins(origins), ReadOrigins(origins));
            var primary := SelectPrimary(strategy, c, continent, pick);
            var q := FailoverQueue(primary, FailoverPool(verb, WriteOrigins(origins), c), maxRetries, js);
            forall k :: 0 <= k < |q| ==> q[k] in c
    ensures var c := CandidatePool(verb, origins, WriteOrigins(origins), ReadOrigins(origins));
            var primary := SelectPrimary(strategy, c, continent, pick);
            var q := FailoverQueue(primary, FailoverPool(verb, WriteOrigins(origins), c), maxRetries, js);
            IsWriteMethod(verb) && (exists k :: 0 <= k < |origins| && IsWrite(origins[k])) ==>
              forall k :: 0 <= k < |q| ==> IsWrite(q[k])
    ensures var c := CandidatePool(verb, origins, WriteOrigins(origins), ReadOrigins(origins));
            var primary := SelectPrimary(strategy, c, continent, pick);
            var q := FailoverQueue(primary, FailoverPool(verb, WriteOrigins(origins), c), maxRetries, js);
            !IsWriteMethod(verb) && (exists k :: 0 <= k < |origins| && IsReadOnly(origins[k])) ==>
              forall k :: 0 <= k < |q| ==> IsReadOnly(q[k])
  {
    var c := CandidatePool(verb, origins, WriteOrigins(origins), ReadOrigins(origins));
    var primary := SelectPrimary(strategy, c, continent, pick);
    assert FailoverPool(verb, WriteOrigins(origins), c) == c;
    QueueMembers(primary, c, maxRetries, js);
    var q := FailoverQueue(primary, c, maxRetries, js);
    assert forall k :: 0 <= k < |q| ==> q[k] in c by {
      forall k | 0 <= k < |q| ensures q[k] in c {
        if k == 0 { assert q[k] == primary; }
      }
    }
    PoolChoice(verb, origins);
  }

  // ---------------------------------------------------------------- the attempt loop

  datatype Request = Request(verb: string, continent: Option<string>)

  /** What one `proxyRequest` call yields: a response with its status, or a thrown error. */
  datatype Attempt = Resp(status: int) | TransportErr

  /** What `fetch` throws: the last transport error, or `undefined` when nothing was attempted. */
  datatype Thrown = TransportError | Undefined

  /** What `fetch` settles with. */
  datatype Outcome = Responded(status: int) | Threw(error: Thrown)

  /** An attempt's outcome passed to the caller unchanged. */
  function Deliver(a: Attempt): Outcome
  {
    match a
    case Resp(s) => Responded(s)
    case TransportErr => Threw(TransportError)
  }

  /** `if (lastError instanceof Response) return lastError; throw lastError;` */
  function Surface(lastError: Option<Attempt>): Outcome
  {
    match lastError
    case None => Threw(Undefined)
    case Some(a) => Deliver(a)
  }

  /** A response that ends the loop: its status is not retryable. */
  predicate Accepted(a: Attempt, codes: seq<int>)
  {
    a.Resp? && !ShouldFailover(a.status, codes)
  }

  /** Index of the first accepted outcome, or `|outcomes|` when there is none. */
  function FirstAccepted(outcomes: seq<Attempt>, codes: seq<int>): (k: nat)
    ensures k <= |outcomes|
    ensures k < |outcomes| ==> Accepted(outcomes[k], codes)
    ensures forall j :: 0 <= j < k ==> !Accepted(outcomes[j], codes)
  {
    if |outcomes| == 0 then 0
    else if Accepted(outcomes[0], codes) then 0
    else 1 + FirstAccepted(outcomes[1..], codes)
  }

  /** The outcomes every queued origin would give, attempt by attempt. */
  function Outcomes(queue: seq<Origin>, proxy: (nat, Origin) -> Attempt): seq<Attempt>
  {
    seq(|queue|, k requires 0 <= k < |queue| => proxy(k, queue[k]))
  }

  /** How many attempts the loop makes: up to and including the first accepted one, or all. */
  function AttemptsMade(outcomes: seq<Attempt>, codes: seq<int>): nat
  {
    var k := FirstAccepted(outcomes, codes);
    if k < |outcomes| then k + 1 else |outcomes|
  }

  /** How the loop settles: the first accepted response, or else the last failure recorded. */
  function RunQueue(outcomes: seq<Attempt>, codes: seq<int>): Outcome
  {
    var k := FirstAccepted(outcomes, codes);
    if k < |outcomes| then Responded(outcomes[k].status)
    else Surface(if |outcomes| == 0 then None else Some(outcomes[|outcomes| - 1]))
  }

  /** The first response with a non-retryable status is returned as it is, whatever its status,
      and nothing after it is attempted. */
  lemma RunReturnsFirstAccepted(outcomes: seq<Attempt>, codes: seq<int>, k: nat)
    requires k < |outcomes| && Accepted(outcomes[k], codes)
    requires forall j :: 0 <= j < k ==> !Accepted(outcomes[j], codes)
    ensures RunQueue(outcomes, codes) == Responded(outcomes[k].status)
    ensures AttemptsMade(outcomes, codes) == k + 1
  {
  }

  /** When every attempt fails, each queued origin is tried and the last failure decides:
      a last response is returned (not an earlier one), a last transport error is thrown;
      an empty queue throws `undefined`. */
  lemma RunExhausted(outcomes: seq<Attempt>, codes: seq<int>)
    requires forall j :: 0 <= j < |outcomes| ==> !Accepted(outcomes[j], codes)
    ensures AttemptsMade(outcomes, codes) == |outcomes|
    ensures |outcomes| == 0 ==> RunQueue(outcomes, codes) == Threw(Undefined)
    ensures |outcomes| > 0 ==> RunQueue(outcomes, codes) == Deliver(outcomes[|outcomes| - 1])
  {
  }

  /** Whatever happens, the loop settles with what its last attempt gave: a returned response
      is the last one attempted, a thrown transport error comes from the last attempt, and
      `undefined` is thrown exactly when nothing was attempted. */
  lemma RunReportsLastAttempt(outcomes: seq<Attempt>, codes: seq<int>)
    ensures var n := AttemptsMade(outcomes, codes);
            && n <= |outcomes|
            && (RunQueue(outcomes, codes) == Threw(Undefined) <==> n == 0)
            && (n > 0 ==> RunQueue(outcomes, codes) == Deliver(outcomes[n - 1]))
            && (forall j :: 0 <= j < n - 1 ==> !Accepted(outcomes[j], codes))
  {
  }

  /** A 404 under the default codes is returned at once from the primary. */
  lemma NotFoundIsNotRetried(outcomes: seq<Attempt>)
    requires |outcomes| > 0 && outcomes[0] == Resp(404)
    ensures RunQueue(outcomes, DefaultFailoverCodes) == Responded(404)
    ensures AttemptsMade(outcomes, DefaultFailoverCodes) == 1
  {
  }

  /** The attempt loop of `fetch`: tries the queued origins strictly in order, returns the first
      response whose status is not retryable, records every other outcome as the last error,
      and after the last attempt surfaces that error. `tried` records the origins attempted. */
  method TryInOrder(queue: seq<Origin>, codes: seq<int>, proxy: (nat, Origin) -> Attempt)
    returns (result: Outcome, ghost tried: seq<Origin>)
    ensures result == RunQueue(Outcomes(queue, proxy), codes)
    ensures tried == queue[..AttemptsMade(Outcomes(queue, proxy), codes)]
  {
    ghost var outcomes := Outcomes(queue, proxy);
    var lastError: Option<Attempt> := None;
    tried := [];
    var i := 0;
    while i < |queue|
      invariant 0 <= i <= |queue|
      invariant tried == queue[..i]
      invariant forall j :: 0 <= j < i ==> !Accepted(outcomes[j], codes)
      invariant lastError == if i == 0 then None else Some(outcomes[i - 1])
    {
      var response := proxy(i, queue[i]);
      tried := tried + [queue[i]];
      if response.Resp? && !ShouldFailover(response.status, codes) {
        RunReturnsFirstAccepted(outcomes, codes, i);
        return Responded(response.status), tried;
      }
      lastError := Some(response);
      i := i + 1;
    }
    RunExhausted(outcomes, codes);
    result := Surface(lastError);
  }

  // ---------------------------------------------------------------- the router

  class Hyperfly {
    const origins: seq<Origin>
    const strategy: Strategy
    const failoverEnabled: bool
    const maxRetries: int
    const failoverCodes: seq<int>
    /** Kept for `proxyRequest`, which is not part of this model. */
    const timeout: Option<int>
    const writeOrigins: seq<Origin>
    const readOrigins: seq<Origin>

    ghost predicate Valid()
    {
      && |origins| > 0
      && writeOrigins == WriteOrigins(origins)
      && readOrigins == ReadOrigins(origins)
    }

    /** The source's constructor: normalises the origins, fills in the defaults (geo strategy,
        `maxRetries` = number of origins, the default retryable codes) and partitions the
        origins; only a failover object supplies settings, `true` takes every default. */
    constructor (config: Config)
      requires |config.origins| > 0
      ensures Valid()
      ensures origins == NormalizeOrigins(config.origins)
      ensures strategy == if config.strategy.Some? then config.strategy.value else Geo
      ensures failoverEnabled <==> !config.failover.Unset? && config.failover != Flag(false)
      ensures var fc := FailoverObject(config.failover);
              && maxRetries == (if fc.maxRetries.Some? then fc.maxRetries.value else |config.origins|)
              && failoverCodes == (if fc.statusCodes.Some? then fc.statusCodes.value else DefaultFailoverCodes)
              && timeout == fc.timeout
      ensures writeOrigins == WriteOrigins(origins) && readOrigins == ReadOrigins(origins)
    {
      var normalized := NormalizeOrigins(config.origins);
      origins := normalized;
      strategy := if config.strategy.Some? then config.strategy.value else Geo;
      failoverEnabled := FailoverEnabled(config.failover);
      var fc := FailoverObject(config.failover);
      maxRetries := if fc.maxRetries.Some? then fc.maxRetries.value else |normalized|;
      failoverCodes := if fc.statusCodes.Some? then fc.statusCodes.value else DefaultFailoverCodes;
      timeout := fc.timeout;
      writeOrigins := WriteOrigins(normalized);
      readOrigins := ReadOrigins(normalized);
    }

    /** The selection and failover logic of `fetch`. `pick` is the random index of `pickRandom`,
        `js` the random draws of `shuffle`, `proxy(k, o)` the outcome of attempt `k` sent to `o`;
        `tried` records the origins attempted, in order. Without failover the primary is tried
        once and its outcome passed through; with failover the queue is tried in order until a
        non-retryable response, and otherwise the last failure is surfaced. */
    method Fetch(request: Request, pick: nat, js: seq<nat>, proxy: (nat, Origin) -> Attempt)
      returns (result: Outcome, ghost tried: seq<Origin>)
      requires Valid()
      requires pick < |CandidatePool(request.verb, origins, writeOrigins, readOrigins)|
      requires ValidPicks(js, |origins|)
      ensures var candidates := CandidatePool(request.verb, origins, writeOrigins, readOrigins);
              var primary := SelectPrimary(strategy, candidates, request.continent, pick);
              !failoverEnabled ==> result == Deliver(proxy(0, primary))
      ensures var candidates := CandidatePool(request.verb, origins, writeOrigins, readOrigins);
              var primary := SelectPrimary(strategy, candidates, request.continent, pick);
              var queue := FailoverQueue(primary, FailoverPool(request.verb, writeOrigins, candidates), maxRetries, js);
              failoverEnabled ==> result == RunQueue(Outcomes(queue, proxy), failoverCodes)
      ensures var candidates := CandidatePool(request.verb, origins, writeOrigins, readOrigins);
              var primary := SelectPrimary(strategy, candidates, request.continent, pick);
              !failoverEnabled ==> tried == [primary]
      ensures var candidates := CandidatePool(request.verb, origins, writeOrigins, readOrigins);
              var primary := SelectPrimary(strategy, candidates, request.continent, pick);
              var queue := FailoverQueue(primary, FailoverPool(request.verb, writeOrigins, candidates), maxRetries, js);
              failoverEnabled ==> tried == queue[..AttemptsMade(Outcomes(queue, proxy), failoverCodes)]
    {
      var candidates := CandidatePool(request.verb, origins, writeOrigins, readOrigins);
      var primary := SelectPrimary(strategy, candidates, request.continent, pick);
      if !failoverEnabled {
        tried := [primary];
        result := Deliver(proxy(0, primary));
        return;
      }
      var failoverPool := FailoverPool(request.verb, writeOrigins, candidates);
      var queue := BuildFailoverQueue(primary, failoverPool, maxRetries, js);
      result, tried := TryInOrder(queue, failoverCodes, proxy);
    }
  }
}
