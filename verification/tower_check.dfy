/** The Tower Information Consistency check shared by both versions of
    `tic.py`: the data it reads, the verdict it writes for one observation,
    and the verdict list for a whole (already ordered) batch.

    The two versions differ only in the directory key they build from an
    observation, the rank they give an observation the directory does not
    know, and which observation field the verdict records; a `Variant`
    carries exactly those three choices. */
module TowerCheck {

  /** One observed cell, as decoded from the air interface. */
  datatype Observation = Observation(
    mcc: int,
    mnc: int,
    lac: int,
    cid: int,
    arfcn: int,
    observationId: int)

  /** A point on the earth, in degrees. */
  datatype Location = Location(lat: real, lon: real)

  /** A directory entry: where the tower stands and the range it covers, in metres. */
  datatype Tower = Tower(lat: real, lon: real, range: real)

  /** The identifier tuple the directory is queried with. */
  datatype Key =
    | FullKey(mcc: int, mnc: int, lac: int, cid: int)
    | PartialKey(mcc: int, mnc: int, cid: int)

  /** What the verdict refers to: the observation's id or its channel number. */
  datatype Subject = ObservationRef(id: int) | ChannelRef(arfcn: int)

  /** The explanation attached to a verdict. */
  datatype Comment =
    | NotFound
    | WrongLocation(distance: real, range: real)
    | InRange

  /** One rank record. */
  datatype Verdict = Verdict(rank: nat, detector: string, comment: Comment, subject: Subject)

  /** Everything a check run reads besides the observations: the tower
      directory, the great-circle distance (lat1, lon1, lat2, lon2) in
      metres, the reference point and the range multiplier. */
  datatype Context = Context(
    directory: Key -> seq<Tower>,
    distance: (real, real, real, real) -> real,
    here: Location,
    multiplier: real)

  /** The per-version choices. */
  datatype Variant = Variant(
    key: Observation -> Key,
    notFoundRank: nat,
    subject: Observation -> Subject)

  const DetectorName: string := "tic"

  /** Default reference point and multiplier of the `tic` entry point. */
  const DefaultHere: Location := Location(52.2311057, 6.8553815)
  const DefaultMultiplier: real := 1.0

  /** The towers the directory returns for `o` under variant `v`. */
  function Lookup(v: Variant, ctx: Context, o: Observation): seq<Tower>
  {
    ctx.directory(v.key(o))
  }

  /** Distance from a directory tower to the reference point. */
  function DistanceTo(ctx: Context, t: Tower): real
  {
    ctx.distance(t.lat, t.lon, ctx.here.lat, ctx.here.lon)
  }

  /** The tower lies strictly farther away than its range allows. */
  predicate OutOfRange(ctx: Context, t: Tower)
  {
    DistanceTo(ctx, t) > t.range * ctx.multiplier
  }

  /** The verdict for one observation: not found, wrong location (rank 1)
      or in range (rank 0), judged on the first tower the directory returns. */
  function Judge(v: Variant, ctx: Context, o: Observation): (r: Verdict)
    ensures r.detector == DetectorName && r.subject == v.subject(o)
    ensures r.comment.NotFound? <==> |Lookup(v, ctx, o)| == 0
    ensures r.comment.NotFound? ==> r.rank == v.notFoundRank
    ensures r.comment.WrongLocation? <==>
              |Lookup(v, ctx, o)| > 0 && OutOfRange(ctx, Lookup(v, ctx, o)[0])
    ensures r.comment.WrongLocation? ==>
              var t := Lookup(v, ctx, o)[0];
              r.rank == 1 && r.comment == WrongLocation(DistanceTo(ctx, t), t.range)
    ensures r.comment.InRange? ==> r.rank == 0
  {
    var towers := ctx.directory(v.key(o));
    if |towers| > 0 then
      var tower := towers[0];
      var distance := ctx.distance(tower.lat, tower.lon, ctx.here.lat, ctx.here.lon);
      if distance > tower.range * ctx.multiplier then
        Verdict(1, DetectorName, WrongLocation(distance, tower.range), v.subject(o))
      else
        Verdict(0, DetectorName, InRange, v.subject(o))
    else
      Verdict(v.notFoundRank, DetectorName, NotFound, v.subject(o))
  }

  /** The verdicts for a batch, appended one per observation in order. */
  function Batch(v: Variant, ctx: Context, obs: seq<Observation>): (r: seq<Verdict>)
    ensures |r| == |obs|
    ensures forall i :: 0 <= i < |obs| ==> r[i] == Judge(v, ctx, obs[i])
  {
    if |obs| == 0 then []
    else Batch(v, ctx, obs[..|obs| - 1]) + [Judge(v, ctx, obs[|obs| - 1])]
  }

  /** A distance exactly equal to the allowed range is in range. */
  lemma BoundaryIsInRange(v: Variant, ctx: Context, o: Observation)
    requires |Lookup(v, ctx, o)| > 0
    requires DistanceTo(ctx, Lookup(v, ctx, o)[0]) == Lookup(v, ctx, o)[0].range * ctx.multiplier
    ensures Judge(v, ctx, o).rank == 0 && Judge(v, ctx, o).comment == InRange
  {
  }

  /** Only the first tower the directory returns is consulted. */
  lemma FirstTowerDecides(v: Variant, ctx: Context, other: Key -> seq<Tower>, o: Observation)
    requires |Lookup(v, ctx, o)| > 0 && |other(v.key(o))| > 0
    requires other(v.key(o))[0] == Lookup(v, ctx, o)[0]
    ensures Judge(v, ctx.(directory := other), o) == Judge(v, ctx, o)
  {
  }

  /** Observations the variant maps to the same key get the same verdict,
      apart from the field that names the observation. */
  lemma SameKeySameJudgement(v: Variant, ctx: Context, o1: Observation, o2: Observation)
    requires v.key(o1) == v.key(o2)
    ensures Judge(v, ctx, o1).rank == Judge(v, ctx, o2).rank
    ensures Judge(v, ctx, o1).comment == Judge(v, ctx, o2).comment
  {
  }
}
