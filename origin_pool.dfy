/** The configured backends: normalisation of the mixed origin list and the split of the
    normalised list into write-capable and read-only pools. */
module OriginPool {
  import opened Wrappers
  import opened Seqs

  /** One backend. `regions` and `write` are optional fields of the source's record: an absent
      `regions` matches no geo label, an absent `write` makes the origin read-only. */
  datatype Origin = Origin(url: string, regions: Option<seq<string>>, write: Option<bool>)

  /** An entry of the configured `origins` list: a bare URL string or a full record. */
  datatype RawOrigin = Bare(url: string) | Full(origin: Origin)

  function RawUrl(r: RawOrigin): string
  {
    match r
    case Bare(u) => u
    case Full(o) => o.url
  }

  /** The truthiness test `o.write` of the partition: only an explicit `true` makes an origin write-capable. */
  predicate IsWrite(o: Origin)
  {
    o.write == Some(true)
  }

  predicate IsReadOnly(o: Origin)
  {
    !IsWrite(o)
  }

  /** `o.regions?.includes(continent)`: the origin lists the continent among its regions. */
  predicate Serves(o: Origin, continent: string)
  {
    o.regions.Some? && continent in o.regions.value
  }

  function NormalizeOrigin(r: RawOrigin): Origin
  {
    match r
    case Bare(u) => Origin(u, None, None)
    case Full(o) => o
  }

  /** `normalizeOrigins`: a bare string becomes a record with only its URL; a record is kept as is;
      the order and length of the list are preserved. */
  function NormalizeOrigins(raw: seq<RawOrigin>): (r: seq<Origin>)
    ensures |r| == |raw|
    ensures forall i :: 0 <= i < |raw| ==> r[i].url == RawUrl(raw[i])
    ensures forall i :: 0 <= i < |raw| && raw[i].Full? ==> r[i] == raw[i].origin
    ensures forall i :: 0 <= i < |raw| && raw[i].Bare? ==>
              IsReadOnly(r[i]) && forall continent: string :: !Serves(r[i], continent)
  {
    if |raw| == 0 then [] else [NormalizeOrigin(raw[0])] + NormalizeOrigins(raw[1..])
  }

  /** The constructor's `origins.filter((o) => o.write)`. */
  function WriteOrigins(origins: seq<Origin>): seq<Origin>
  {
    Filter(origins, IsWrite)
  }

  /** The constructor's `origins.filter((o) => !o.write)`. */
  function ReadOrigins(origins: seq<Origin>): seq<Origin>
  {
    Filter(origins, IsReadOnly)
  }

  /** The two pools hold only origins of their kind, and together they hold every origin
      exactly as often as the configured list does. */
  lemma PartitionExact(origins: seq<Origin>)
    ensures forall k :: 0 <= k < |WriteOrigins(origins)| ==> IsWrite(WriteOrigins(origins)[k])
    ensures forall k :: 0 <= k < |ReadOrigins(origins)| ==> IsReadOnly(ReadOrigins(origins)[k])
    ensures multiset(WriteOrigins(origins)) + multiset(ReadOrigins(origins)) == multiset(origins)
    ensures |WriteOrigins(origins)| + |ReadOrigins(origins)| == |origins|
  {
    FilterSplits(origins, IsWrite, IsReadOnly);
    assert |multiset(WriteOrigins(origins)) + multiset(ReadOrigins(origins))| == |multiset(origins)|;
  }

  /** Both pools are stable filters: splitting the configured list in two and partitioning each
      half gives the pools of the whole, in order. */
  lemma PartitionKeepsOrder(front: seq<Origin>, back: seq<Origin>)
    ensures WriteOrigins(front + back) == WriteOrigins(front) + WriteOrigins(back)
    ensures ReadOrigins(front + back) == ReadOrigins(front) + ReadOrigins(back)
  {
    FilterAppend(front, back, IsWrite);
    FilterAppend(front, back, IsReadOnly);
  }

  /** A pool is empty exactly when no configured origin is of its kind. */
  lemma PoolEmptiness(origins: seq<Origin>)
    ensures |WriteOrigins(origins)| == 0 <==> forall k :: 0 <= k < |origins| ==> IsReadOnly(origins[k])
    ensures |ReadOrigins(origins)| == 0 <==> forall k :: 0 <= k < |origins| ==> IsWrite(origins[k])
  {
    var w, r := WriteOrigins(origins), ReadOrigins(origins);
    if |w| > 0 {
      var m :| 0 <= m < |origins| && origins[m] == w[0];
      assert IsWrite(origins[m]);
    }
    if |r| > 0 {
      var m :| 0 <= m < |origins| && origins[m] == r[0];
      assert IsReadOnly(origins[m]);
    }
  }
}
