/** Choice of the primary origin: the first origin serving the request's continent, or an
    origin picked by the random source. `Math.random` is replaced by an index supplied by the
    caller, so every statement below holds for every choice the random source can make. */
module Selection {
  import opened Wrappers
  import opened OriginPool

  datatype Strategy = Geo | Random

  /** `pickRandom`: the origin at the random index. The index stands for
      `Math.floor(Math.random() * origins.length)`, which lies in `[0, |origins|)`. */
  function PickRandom(origins: seq<Origin>, pick: nat): (r: Origin)
    requires pick < |origins|
    ensures r in origins
    ensures r == origins[pick]
  {
    origins[pick]
  }

  /** Position of the first origin serving `continent`, or `|origins|` when none does:
      the scan that `Array.prototype.find` performs. */
  function FirstServing(origins: seq<Origin>, continent: string): (k: nat)
    ensures k <= |origins|
    ensures k < |origins| ==> Serves(origins[k], continent)
    ensures forall j :: 0 <= j < k ==> !Serves(origins[j], continent)
  {
    if |origins| == 0 then 0
    else if Serves(origins[0], continent) then 0
    else 1 + FirstServing(origins[1..], continent)
  }

  /** `pickGeo`: no origin when the continent is absent or empty (`!continent`), otherwise the
      first origin, in list order, whose regions contain it. */
  function PickGeo(origins: seq<Origin>, continent: Option<string>): (r: Option<Origin>)
    ensures r.Some? <==>
              continent.Some? && continent.value != "" &&
              exists k :: 0 <= k < |origins| && Serves(origins[k], continent.value)
    ensures r.Some? ==>
              exists k :: 0 <= k < |origins| && origins[k] == r.value && Serves(r.value, continent.value) &&
                forall j :: 0 <= j < k ==> !Serves(origins[j], continent.value)
  {
    if continent.None? || continent.value == "" then None
    else
      var k := FirstServing(origins, continent.value);
      if k < |origins| then Some(origins[k]) else None
  }

  /** The primary of `fetch`: with the geo strategy, the geo match when there is one and the
      random pick otherwise; with the random strategy, the random pick. */
  function SelectPrimary(strategy: Strategy, candidates: seq<Origin>, continent: Option<string>, pick: nat): (r: Origin)
    requires pick < |candidates|
    ensures r in candidates
    ensures strategy == Geo && PickGeo(candidates, continent).Some? ==> r == PickGeo(candidates, continent).value
    ensures strategy == Random || PickGeo(candidates, continent).None? ==> r == candidates[pick]
  {
    if strategy == Geo then
      match PickGeo(candidates, continent)
      case Some(o) => o
      case None => PickRandom(candidates, pick)
    else PickRandom(candidates, pick)
  }

  /** When exactly one candidate serves a non-empty continent, the geo strategy selects it,
      whatever the random source would have picked. */
  lemma GeoSelectsSoleMatch(candidates: seq<Origin>, continent: string, k: nat, pick: nat)
    requires pick < |candidates| && k < |candidates|
    requires continent != "" && Serves(candidates[k], continent)
    requires forall j :: 0 <= j < |candidates| && j != k ==> !Serves(candidates[j], continent)
    ensures SelectPrimary(Geo, candidates, Some(continent), pick) == candidates[k]
  {
  }

  /** The two-origin scenario: `a` serves "EU", `b` serves "US"; a request from "US" goes to `b`. */
  lemma GeoScenario(pick: nat)
    requires pick < 2
    ensures var a := Origin("https://a", Some(["EU"]), None);
            var b := Origin("https://b", Some(["US"]), None);
            SelectPrimary(Geo, [a, b], Some("US"), pick) == b
  {
  }
}
