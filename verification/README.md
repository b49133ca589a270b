# IMSI-catcher detection core, modelled in Dafny

This project models the two decision procedures at the centre of the IMSI-catcher
detector:

- the **Tower Information Consistency check** (`tic`), which walks a batch of observed
  cells in sorted order, looks each one up in a directory of known towers and writes one
  rank record per observation: not found, found but farther away than the tower's range
  allows ("wrong location", rank 1), or found and in range (rank 0). It exists in two
  versions that disagree on the directory key and on the rank of an unknown tower:

  | | `icc/cellinfochecks/tic.py` | `src/cellinfochecks/tic.py` |
  |---|---|---|
  | directory key | (mcc, mnc, lac, cid) | (mcc, mnc, cid) |
  | rank when not found | 1 | 2 |
  | record names | the observation id | the ARFCN |

  Both are one classification (`TowerCheck.Judge`) parameterised by a `Variant` that holds
  the key projection, the not-found rank and the field the record names, with one
  instantiation per file (`IccTic.Icc`, `SrcTic.Src`);
- **`IDRequestDetector.handle_packet`**, which matches a decoded frame against the layer
  chain LAPDm / GSM A-interface DTAP / Identity Request and, when the requested identity
  type is the IMSI (code 1), increments the detector's counter and sets its rank to
  UNKNOWN with the message "IMSI request detected N times".

Files:

- `outcomes.dfy` — `Option` and `Result`.
- `ordering.dfy` — the stable insertion sort standing for Python's `sorted`, with its
  permutation, sortedness and uniqueness lemmas.
- `tower_check.dfy` — observations, towers, directory keys, verdicts, the per-observation
  judgement and the batch.
- `icc_tic.dfy`, `src_tic.dfy` — the two versions of `tic`.
- `decimal.dfy` — how `%s` writes the counter, and the parse that reads it back.
- `id_request_detector.dfy` — decoded layers, detector state, `handle_packet` and the
  receive loop as a fold over frames.

The directory (`queryTower`) is a function from a key to a sequence of towers, and the
great-circle distance (`calc_distance`) is a function parameter returning a `real`, called
with the tower's coordinates first and the reference point second, as the source calls it.
The ordering `sorted` uses is a parameter `less`.

The two versions disagree on the directory key and on the not-found rank; each is
modelled as written.

## Model

| member | source | states |
|---|---|---|
| Ordering.Sort | icc/cellinfochecks/tic.py:29 | the iteration order is a permutation of the observations: same length, same multiset |
| Ordering.SortSorted | icc/cellinfochecks/tic.py:29 | when the comparison is a strict order, no observation is visited after one it is smaller than |
| Ordering.SortIsTheSortedPermutation | src/cellinfochecks/tic.py:27 | under a strict total order, any sorted permutation of the batch (the one Python's `sorted` returns included) is exactly the model's iteration order |
| TowerCheck.Judge | icc/cellinfochecks/tic.py:31-47 | every record carries detector "tic" and the judged observation's reference; "no match" exactly when the lookup returns nothing, with the variant's not-found rank; "wrong location" with rank 1, the distance and the range exactly when the first tower is strictly beyond range times multiplier; rank 0 when in range |
| TowerCheck.Batch | icc/cellinfochecks/tic.py:29-49 | one record per observation, the i-th judging the i-th observation |
| TowerCheck.BoundaryIsInRange | icc/cellinfochecks/tic.py:40-44 | a distance exactly equal to range times multiplier is in range (rank 0): the test is strict |
| TowerCheck.FirstTowerDecides | icc/cellinfochecks/tic.py:37-40 | only the first tower returned matters: two directories whose results share the first tower give the same record |
| TowerCheck.SameKeySameJudgement | src/cellinfochecks/tic.py:31-42 | observations mapped to the same directory key get the same rank and comment |
| IccTic.Tic | icc/cellinfochecks/tic.py:22-53 | no observations give no records; one record per observation, the i-th judging the i-th sorted observation with the full-tuple key; every rank is 0 or 1, detector "tic", naming the observation's id |
| IccTic.OneRankPerObservation | icc/cellinfochecks/tic.py:29-49 | the records name each observation id exactly as often as it occurs in the input |
| IccTic.RankMeaning | icc/cellinfochecks/tic.py:36-47 | for the i-th sorted observation: "no match" iff the full-tuple lookup is empty, then rank 1; "wrong location" iff the first tower is strictly out of range; rank 0 iff a tower is found in range, and only then is the comment "in range" |
| IccTic.LocationAreaMatters | icc/cellinfochecks/tic.py:36-47 | with a 500 m tower: 300 m and 500 m are in range, 900 m is the wrong location with distance 900 and range 500, and the same cell in another location area is not found |
| SrcTic.Append | src/cellinfochecks/tic.py:37-42 | `append` fails exactly on a dict and extends a list by the record |
| SrcTic.AsWrittenNeverReturns | src/cellinfochecks/tic.py:23-46 | as written the check raises on every input: an empty batch leaves `result` unbound, any other fails at its first append to the dict |
| SrcTic.AppendAllToList | src/cellinfochecks/tic.py:37-42 | appending the records to a list never fails and keeps them in order after the existing items |
| SrcTic.CorrectedIsListRepair | src/cellinfochecks/tic.py:26-42 | the corrected check is exactly the written loop with `result` a list instead of a dict |
| SrcTic.Tic | src/cellinfochecks/tic.py:21-46 | the corrected check returns no records for no observations and otherwise one record per observation, the i-th judging the i-th sorted observation with the (mcc, mnc, cid) key, with rank 0, 1 or 2, detector "tic" and the observation's ARFCN |
| SrcTic.RankMeaning | src/cellinfochecks/tic.py:31-43 | for the i-th sorted observation: rank 2 iff the (mcc, mnc, cid) lookup is empty; rank 1 iff the first tower is strictly out of range; rank 0 iff it is within range |
| SrcTic.LocationAreaIgnored | src/cellinfochecks/tic.py:31 | two observations that differ only in location area receive the same record |
| Decimal.Show | icc/detectors/id_request_detector.py:17 | the counter is written as canonical decimal digits: at least one digit, no leading zero |
| Decimal.ParseShow | icc/detectors/id_request_detector.py:17 | reading back the written counter gives the counter |
| Decimal.ShowParse | icc/detectors/id_request_detector.py:17 | every canonical digit string is what writing its value produces |
| Decimal.ShowInjective | icc/detectors/id_request_detector.py:17 | different counts are written differently |
| IdRequestDetector.MessageRoundTrip | icc/detectors/id_request_detector.py:17 | the reported message states the count it was written for |
| IdRequestDetector.HandlePacket | icc/detectors/id_request_detector.py:8-17 | a LAPDm / DTAP / Identity Request frame with identity type 1 increments the counter by one, sets rank UNKNOWN and a message stating the new count; a mismatch at any layer or another identity type changes nothing |
| IdRequestDetector.RunAppend | src/det_methods/detector.py:25-27 | handling two runs of frames one after the other is handling their concatenation (this loop stands in for the receive loop of the detector base class `IDRequestDetector` inherits, which is not part of this model) |
| IdRequestDetector.RunCounts | icc/detectors/id_request_detector.py:10-16 | over any frame sequence the final counter is the initial counter plus the number of IMSI requests among the frames |
| IdRequestDetector.CounterMonotone | icc/detectors/id_request_detector.py:16 | the counter never decreases as frames arrive |
| IdRequestDetector.MismatchesAreNoOps | icc/detectors/id_request_detector.py:10-14 | a sequence containing no IMSI request leaves counter, rank and message unchanged |
| IdRequestDetector.ReportStatesCount | icc/detectors/id_request_detector.py:16-17 | once an IMSI request has been handled, the rank is UNKNOWN and the message states the current counter |

## Left out

- The haversine body of `calc_distance` (both `tic.py` files): floating-point trigonometry; the distance is an uninterpreted parameter, so symmetry and zero distance are not stated.
- `query_cell_tower.queryTower` is not part of this model: the model's directory is a total function from key to towers; an exception from `queryTower` propagates uncaught out of both `tic` functions, and that path is not modelled.
- The comparison `sorted` relies on (`icc.aux`) is not part of this model: it is the parameter `less`. Python's sort is replaced by a stable insertion sort, proved equal to any sorted permutation when `less` is a strict total order; when distinct observations compare as equal, agreement with Python's stable order is not proved.
- `TowerCheck.Judge`: the comment is the variant NotFound / WrongLocation(distance, range) / InRange rather than the formatted text, so the `%d` truncation of distance and range is not modelled.
- SrcTic.Tic: the src version prints its comment instead of storing it, while the model's records still carry the comment variant; returning no records for no observations is the repair of the unbound `result`, not the code as written (see Findings).
- Ranges, multipliers and distances are `real`, so float rounding in `distance > range * range_multiplier` is not modelled.
- `print` and `verbose` output in both `tic.py` files and in `handle_packet`.
- GSMTAP decoding with scapy (`icc.gsmpackets`) is not part of this model: frames arrive already decoded into layers, and the `is` comparison of layer names is modelled as matching the layer's constructor.
- The detector base class (`icc/detectors/detector.py`) is not part of this model: `update_rank` is modelled as setting the rank and the message, the value of `UNKNOWN` and the other ranks are abstract, and the counter's initial value is any natural number.
- `src/det_methods/detector.py`: the UDP socket, the fixed 39-byte read and the worker process; `Run` keeps only the order in which received frames reach `handle_packet`. `IDRequestDetector` inherits from `icc/detectors/detector.py` (imported at icc/detectors/id_request_detector.py:3), which is not part of this model; the `listen` loop of `src/det_methods/detector.py` stands in for its receive loop.
- `src/det_methods/analyzer.py`: the radio flowgraph, hardware settings and option parsing.

## Findings

| source | as written | input that shows it | evidently intended | confidence | as-written member | corrected member |
|---|---|---|---|---|---|---|
| src/cellinfochecks/tic.py:26-42 | `result = dict()` and then `result.append(...)` for every observation | any non-empty observation list: the first `append` raises AttributeError, so no records are returned | `result` is a list that collects one record per observation | high; not executed | SrcTic.AsWrittenNeverReturns | SrcTic.Tic |
| src/cellinfochecks/tic.py:23-46 | `result` is assigned only inside `if len(found_list) > 0` | an empty observation list: `return result` raises UnboundLocalError | an empty list of records, as `icc/cellinfochecks/tic.py` returns | high; not executed | SrcTic.AsWrittenNeverReturns | SrcTic.Tic |
