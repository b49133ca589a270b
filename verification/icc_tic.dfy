/** The `tic` check of `icc/cellinfochecks/tic.py`: the directory is queried
    with the full identifier tuple and both "no such tower" and "wrong
    location" give rank 1, so every rank is 0 or 1. Each rank record names
    the observation it judges by its id. */
module IccTic {
  import opened TowerCheck
  import opened Ordering

  function FullKeyOf(o: Observation): Key
  {
    FullKey(o.mcc, o.mnc, o.lac, o.cid)
  }

  function IdOf(o: Observation): Subject
  {
    ObservationRef(o.observationId)
  }

  const Icc: Variant := Variant(FullKeyOf, 1, IdOf)

  /** One rank record per observation, in the order `less` sorts them;
      no observations give no records. */
  function Tic(ctx: Context, less: (Observation, Observation) -> bool, found: seq<Observation>)
    : (ranks: seq<Verdict>)
    ensures |found| == 0 ==> ranks == []
    ensures |ranks| == |found|
    ensures forall i :: 0 <= i < |ranks| ==> ranks[i] == Judge(Icc, ctx, Sort(less, found)[i])
    ensures forall i :: 0 <= i < |ranks| ==>
              && ranks[i].rank <= 1
              && ranks[i].detector == DetectorName
              && ranks[i].subject == ObservationRef(Sort(less, found)[i].observationId)
  {
    if |found| > 0 then Batch(Icc, ctx, Sort(less, found)) else []
  }

  function SubjectOf(r: Verdict): Subject
  {
    r.subject
  }

  /** The records name every observation exactly as often as it occurs in
      the input: one record per observation, none invented, none dropped. */
  lemma {:induction false} OneRankPerObservation(ctx: Context, less: (Observation, Observation) -> bool, found: seq<Observation>)
    ensures multiset(Project(SubjectOf, Tic(ctx, less, found))) == multiset(Project(IdOf, found))
  {
    var sorted := Sort(less, found);
    assert Project(SubjectOf, Tic(ctx, less, found)) == Project(IdOf, sorted);
    ProjectPermutation(IdOf, sorted, found);
  }

  /** What the i-th rank says about the i-th sorted observation: rank 1 with
      "no match" exactly when the full-tuple lookup finds nothing, rank 1
      with "wrong location" exactly when the first tower found is strictly
      out of range, rank 0 otherwise. */
  lemma RankMeaning(ctx: Context, less: (Observation, Observation) -> bool, found: seq<Observation>, i: int)
    requires 0 <= i < |found|
    ensures var o := Sort(less, found)[i];
            var towers := ctx.directory(FullKey(o.mcc, o.mnc, o.lac, o.cid));
            var r := Tic(ctx, less, found)[i];
            && (r.comment == NotFound <==> |towers| == 0)
            && (|towers| == 0 ==> r.rank == 1)
            && (r.comment.WrongLocation? <==> |towers| > 0 && OutOfRange(ctx, towers[0]))
            && (r.rank == 0 <==> |towers| > 0 && !OutOfRange(ctx, towers[0]))
            && (r.rank == 0 <==> r.comment == InRange)
  {
  }

  /** A directory that knows only location area 1 of cell (204, 4, 100),
      with a 500 m range. */
  function ExampleDirectory(k: Key): seq<Tower>
  {
    if k == FullKey(204, 4, 1, 100) then [Tower(0.0, 0.0, 500.0)] else []
  }

  function ExampleContext(metres: real): Context
  {
    Context(ExampleDirectory, (lat1, lon1, lat2, lon2) => metres, DefaultHere, DefaultMultiplier)
  }

  /** The full-tuple key sees the location area: the same cell announced in
      another area is not found, 300 m within a 500 m range is in range,
      900 m is the wrong location and 500 m is still in range. */
  lemma LocationAreaMatters()
    ensures var o := Observation(204, 4, 1, 100, 17, 1);
            && Judge(Icc, ExampleContext(300.0), o).rank == 0
            && Judge(Icc, ExampleContext(500.0), o).rank == 0
            && Judge(Icc, ExampleContext(900.0), o) ==
                 Verdict(1, DetectorName, WrongLocation(900.0, 500.0), ObservationRef(1))
            && Judge(Icc, ExampleContext(300.0), o.(lac := 2)) ==
                 Verdict(1, DetectorName, NotFound, ObservationRef(1))
  {
  }
}
