/** The `tic` check of `src/cellinfochecks/tic.py`: the directory is queried
    with (mcc, mnc, cid) only, an unknown tower gets rank 2, and each record
    names the observation's channel number.

    As written, the function cannot return: `result` is bound to a dict and
    then appended to, and it is not bound at all when there are no
    observations. `TicAsWritten` models that code; `Tic` is the evidently
    intended function, with `result` a list bound before the emptiness test. */
module SrcTic {
  import opened Outcomes
  import opened TowerCheck
  import opened Ordering

  function PartialKeyOf(o: Observation): Key
  {
    PartialKey(o.mcc, o.mnc, o.cid)
  }

  function ChannelOf(o: Observation): Subject
  {
    ChannelRef(o.arfcn)
  }

  const Src: Variant := Variant(PartialKeyOf, 2, ChannelOf)

  /** The Python exceptions the code as written can raise. */
  datatype PyError =
    | UnboundResult     // `return result` with `result` never assigned
    | NoAppendOnDict    // `.append` called on a dict

  /** The value bound to `result`. */
  datatype Container = Dict | List(items: seq<Verdict>)

  /** `result.append(v)`. */
  function Append(c: Container, v: Verdict): (r: Result<Container, PyError>)
    ensures r.Failure? <==> c.Dict?
    ensures c.List? ==> r == Success(List(c.items + [v]))
  {
    match c
    case Dict => Failure(NoAppendOnDict)
    case List(items) => Success(List(items + [v]))
  }

  /** The loop's appends, one per verdict, stopping at the first exception. */
  function AppendAll(c: Container, vs: seq<Verdict>): Result<Container, PyError>
    decreases |vs|
  {
    if |vs| == 0 then Success(c)
    else
      match Append(c, vs[0])
      case Failure(e) => Failure(e)
      case Success(next) => AppendAll(next, vs[1..])
  }

  /** The function as written: `result = dict()` inside the non-empty branch. */
  function TicAsWritten(ctx: Context, less: (Observation, Observation) -> bool, found: seq<Observation>)
    : Result<Container, PyError>
  {
    if |found| > 0 then AppendAll(Dict, Batch(Src, ctx, Sort(less, found)))
    else Failure(UnboundResult)
  }

  /** As written, the check never returns: an empty batch ends in an unbound
      `result`, any other batch fails at its first append. */
  lemma AsWrittenNeverReturns(ctx: Context, less: (Observation, Observation) -> bool, found: seq<Observation>)
    ensures |found| == 0 ==> TicAsWritten(ctx, less, found) == Failure(UnboundResult)
    ensures |found| > 0 ==> TicAsWritten(ctx, less, found) == Failure(NoAppendOnDict)
  {
  }

  /** The intended check: one record per observation, in sorted order, with
      ranks 0, 1 or 2; no observations give no records. */
  function Tic(ctx: Context, less: (Observation, Observation) -> bool, found: seq<Observation>)
    : (verdicts: seq<Verdict>)
    ensures |found| == 0 ==> verdicts == []
    ensures |verdicts| == |found|
    ensures forall i :: 0 <= i < |verdicts| ==> verdicts[i] == Judge(Src, ctx, Sort(less, found)[i])
    ensures forall i :: 0 <= i < |verdicts| ==>
              && verdicts[i].rank <= 2
              && verdicts[i].detector == DetectorName
              && verdicts[i].subject == ChannelRef(Sort(less, found)[i].arfcn)
  {
    if |found| > 0 then Batch(Src, ctx, Sort(less, found)) else []
  }

  /** Appending to a list never fails and extends it in order. */
  lemma {:induction false} AppendAllToList(items: seq<Verdict>, vs: seq<Verdict>)
    ensures AppendAll(List(items), vs) == Success(List(items + vs))
    decreases |vs|
  {
    if |vs| > 0 {
      AppendAllToList(items + [vs[0]], vs[1..]);
      assert items + [vs[0]] + vs[1..] == items + vs;
    } else {
      assert items + vs == items;
    }
  }

  /** `Tic` is the code as written with the single repair of binding
      `result` to an empty list before the emptiness test. */
  lemma CorrectedIsListRepair(ctx: Context, less: (Observation, Observation) -> bool, found: seq<Observation>)
    ensures AppendAll(List([]), Batch(Src, ctx, Sort(less, found))) == Success(List(Tic(ctx, less, found)))
  {
    var verdicts := Batch(Src, ctx, Sort(less, found));
    AppendAllToList([], verdicts);
    assert [] + verdicts == verdicts;
    if |found| == 0 {
      assert verdicts == [];
    }
  }

  /** What the i-th record says about the i-th sorted observation, under the
      (mcc, mnc, cid) lookup: rank 2 exactly when nothing is found, rank 1
      exactly when the first tower is strictly out of range, else rank 0. */
  lemma RankMeaning(ctx: Context, less: (Observation, Observation) -> bool, found: seq<Observation>, i: int)
    requires 0 <= i < |found|
    ensures var o := Sort(less, found)[i];
            var towers := ctx.directory(PartialKey(o.mcc, o.mnc, o.cid));
            var r := Tic(ctx, less, found)[i];
            && (r.rank == 2 <==> |towers| == 0)
            && (r.rank == 1 <==> |towers| > 0 && OutOfRange(ctx, towers[0]))
            && (r.rank == 0 <==> |towers| > 0 && !OutOfRange(ctx, towers[0]))
  {
  }

  /** The location area takes no part in the lookup: two observations that
      differ only in it receive the same record. */
  lemma LocationAreaIgnored(ctx: Context, o: Observation, lac: int)
    ensures Judge(Src, ctx, o.(lac := lac)) == Judge(Src, ctx, o)
  {
  }
}
