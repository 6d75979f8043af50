# Evaluator and training-statistics bookkeeping, in Dafny

This project models the bookkeeping at the heart of two utility modules of a
human-body-pose estimation pipeline and proves properties of it.

- `util/evaluator.py`, class `Evaluator`: a store of per-image prediction
  records. `update` appends one record per batch position, `clear` empties
  the store, `remove_redunc` keeps the first record per image (the image of
  a record is found by looking its `data_idx` up in the sample list and
  taking the sample's image path), `save_to_pkl` / `load_from_pkl` write and
  restore the sample list together with the records, and
  `visualize_result` splits the records among at most eight rendering
  workers.
- `util/train_utils.py`: `AverageMeter` (last value, running sum, count and
  average), `LossStat` (two required loss meters, three optional ones whose
  report sections switch on the first time the loss is supplied) and
  `TimeStat` (per-epoch time spent in the data, forward and visualisation
  phases, folded into running averages at the end of each epoch).

Modules, one per concept:

| file | module | models |
|---|---|---|
| `outcomes.dfy` | `Outcomes` | Python exceptions: `Outcome(state, result)` is the object after a call together with the value returned or the exception raised |
| `dedup.dfy` | `Dedup` | the first-per-key scan of `remove_redunc`, generic in the element and key types |
| `partition.dfy` | `Partition` | the worker ranges of `visualize_result` |
| `evaluator.dfy` | `Evaluator` | the `Evaluator` class |
| `meter.dfy` | `Meters` | `AverageMeter` |
| `loss_stat.dfy` | `LossStats` | `LossStat` |
| `time_stat.dfy` | `TimeStats` | `TimeStat` |

Modelling choices:

- Objects are immutable datatypes and methods are functions from the old
  object to an `Outcome`. Where Python mutates an attribute and then raises,
  the `Outcome` carries the partly updated object. This happens in
  `AverageMeter.update`, where `val`, `sum` and `count` are written before
  the division. It happens in `LossStat.update`, where the total meter is
  updated before a missing `kp_loss` is looked up. It happens in
  `Evaluator.update`, where records are appended until a batch field runs
  out. And it happens in `print_stat`, where the meters are folded before
  `epoch_time` is read.
- An attribute that may not have been assigned yet is an `Option`. Reading
  it while unset raises `AttributeError`. Examples are the evaluator's
  `data_list` when it was built without one, `LossStat.epoch` before
  `set_epoch`, and the `TimeStat` epoch attributes before `epoch_init`.
- The image key (`get_img_path`) is the parameter `key: S -> K`. The
  conversion of predicted vertices to half precision is the parameter
  `half`. Neither has a body anywhere in the model, so every property holds
  for every choice of them.
- `data_list[data_idx]` follows Python list indexing. Indices from `-n` to
  `n - 1` are accepted, negative ones counting from the end; any other index
  raises `IndexError`.
- Every clock reading is a `real` parameter (`now`). `epoch_init` reads the
  clock twice, so its model takes two readings.
- Averages are `real` arithmetic. `count` is an `int` because the weight `n`
  may be any integer.
- `LossStat` and `TimeStat` only ever give their meters unit-weight updates
  from a reset state. So every meter keeps a non-negative count and an
  average equal to sum / count (`Meters.Valid`). Their operations take that
  invariant as a precondition. The constructors establish it and every
  operation preserves it, so the `ZeroDivisionError` path of
  `AverageMeter.update` is unreachable for them.

Three behaviours of the code worth knowing. `Evaluator.update` raises
`IndexError` only when a field is shorter than `data_idxs`, and only after
appending the records before that position; longer fields are silently
ignored. `LossStat.update` raises `KeyError` when a required loss is
missing, and for a missing `kp_loss` it does so after updating the total
meter. `TimeStat.epoch_init` reads the clock twice, once for the segment
start and once for the epoch start.

## Model

| member | source | states |
|---|---|---|
| `Dedup.Unique` | util/evaluator.py:43-51 | the scan keeps exactly one element per distinct key: its keys are pairwise distinct, the key set is unchanged, every survivor comes from the input, and the length is the number of distinct keys, at most the input length |
| `Dedup.UniqueKeepsFirst` | util/evaluator.py:45-51 | every survivor is the first input element carrying its key |
| `Dedup.UniqueIsSubseq` | util/evaluator.py:45-51 | the survivors, compared by value, are a subsequence of the input |
| `Dedup.UniqueFirstOrdered` | util/evaluator.py:45-51 | the survivors appear in the order in which their keys first occur in the input, also when the input holds equal elements |
| `Dedup.UniqueOfDistinct` | util/evaluator.py:45-51 | an input whose keys are already distinct is returned unchanged |
| `Dedup.UniqueIdempotent` | util/evaluator.py:42-52 | deduplicating twice gives the same sequence as deduplicating once |
| `Dedup.UniqueOfABAB` | util/evaluator.py:45-51 | four elements keyed a, b, a, b deduplicate to the first two |
| `Dedup.FirstIndex` | util/evaluator.py:49-51 | for a key that occurs, the index of its first occurrence: that element has the key and no earlier one does |
| `Dedup.KeysBound` | util/evaluator.py:44-51 | a sequence has no more distinct keys than elements |
| `Evaluator.Init` | util/evaluator.py:23-26 | a new evaluator holds no records and the given sample list, or none |
| `Evaluator.Clear` | util/evaluator.py:28-29 | `clear` leaves no records and the sample list untouched |
| `Evaluator.Update` | util/evaluator.py:31-40 | earlier records are unchanged; on success exactly `len(data_idxs)` records are appended; the call succeeds exactly when every field has an entry for every position; otherwise it raises `IndexError` after appending one record per fully populated leading position; the record at position i carries `data_idxs[i]`, the i-th camera, shape and pose and the converted i-th vertices |
| `Evaluator.RemoveRedunc` | util/evaluator.py:42-53 | succeeds exactly when there are no records or every record index resolves in a present sample list; otherwise raises `AttributeError` (no sample list) or `IndexError` and changes nothing; on success reports the new count, which is at most the old one, and keeps only old records |
| `Evaluator.RemoveReduncIsSubseq` | util/evaluator.py:45-52 | the surviving records, compared by value, are a subsequence of the old ones and still resolve |
| `Evaluator.RemoveReduncFirstOrdered` | util/evaluator.py:45-52 | the surviving records appear in the order in which their image keys first occur among the old records, also when old records are equal by value |
| `Evaluator.RemoveReduncDistinct` | util/evaluator.py:45-52 | the surviving records' image keys are pairwise distinct |
| `Evaluator.RemoveReduncKeepsFirst` | util/evaluator.py:45-52 | every image key present before is still present, the new length equals the number of distinct keys and is at most the old length, and each survivor is the first old record with its key |
| `Evaluator.RemoveReduncIdempotent` | util/evaluator.py:42-52 | a second `remove_redunc` changes nothing and reports the same count |
| `Evaluator.TwoBatchesScenario` | util/evaluator.py:31-52 | two batches that share a sample, with a third sample showing the same image as a second one, deduplicate to the first batch's two records, count 2 |
| `Evaluator.Resolve` | util/evaluator.py:47 | a Python list index in range names the position inside the list that is congruent to it modulo the length, so a negative index counts from the end |
| `Evaluator.Save` | util/evaluator.py:110-115 | saving needs the sample list and raises `AttributeError` without one |
| `Evaluator.Load` | util/evaluator.py:117-120 | loading replaces both the sample list and the records |
| `Evaluator.SaveLoadRoundTrip` | util/evaluator.py:110-120 | loading what was saved into any evaluator reproduces the saved evaluator |
| `Partition.WorkerSpans` | util/evaluator.py:96-101 | with no records the chunk size divides by zero; otherwise there are `min(8, n)` ranges |
| `Partition.SpansContiguous` | util/evaluator.py:96-101 | the ranges start at 0, end at n, each starts where the previous ends, all are non-empty, all but the last hold `n // k` records and the last at least that many |
| `Partition.SpansDisjoint` | util/evaluator.py:96-101 | an index before the end of one range lies before the start of every later range |
| `Partition.SpansCoverOnce` | util/evaluator.py:96-101 | every index below n lies in exactly one range |
| `Partition.SlicesReassemble` | util/evaluator.py:96-101 | the slices `pred_results[start:end]` of all workers, concatenated in order, are the whole record list |
| `Meters.Reset` | util/train_utils.py:16-23 | a new or reset meter has value, average and sum 0 and count 0, and is valid |
| `Meters.Update` | util/train_utils.py:25-29 | the value is recorded and `val * n` and `n` are added to sum and count; the call raises `ZeroDivisionError` exactly when the new count is zero, leaving the average unchanged; otherwise average times count equals sum |
| `Meters.UpdateKeepsConsistent` | util/train_utils.py:25-29 | after any update, raising or not, the average agrees with sum and count whenever the count is non-zero |
| `Meters.Add` | util/train_utils.py:25-29 | a unit-weight update on a valid meter never raises, keeps the meter valid and is exactly `update(val, 1)` |
| `Meters.Feed` | util/train_utils.py:25-29 | unit updates in sequence keep the meter valid |
| `Meters.FeedTotals` | util/train_utils.py:25-29 | k unit updates add k to the count and the values' sum to the sum, and leave the last value as `val` |
| `Meters.FeedFromResetIsMean` | util/train_utils.py:19-29 | after `reset` and k >= 1 unit updates with v1..vk, the count is k and the average is (v1+...+vk)/k |
| `LossStats.Init` | util/train_utils.py:33-43 | a new `LossStat` has six freshly reset meters, the given data count, no optional section switched on and no epoch yet |
| `LossStats.UpdateOptional` | util/train_utils.py:51-59 | an optional meter is updated exactly when its key is present, and the presence is reported for the flag |
| `LossStats.Update` | util/train_utils.py:48-59 | every update keeps every meter valid |
| `LossStats.UpdateRequired` | util/train_utils.py:48-50 | `update` succeeds exactly when both `total_loss` and `kp_loss` are present and then updates both required meters; otherwise it raises `KeyError`, changing nothing when `total_loss` is missing and only the total meter when `kp_loss` is missing; the 3D-joints meter, the data count and the epoch never change |
| `LossStats.UpdateOptionalMeters` | util/train_utils.py:51-59 | each optional meter is updated exactly when its key is present and untouched otherwise; its flag afterwards is the old flag or the key's presence |
| `LossStats.FlagsSticky` | util/train_utils.py:51-59 | a set flag is never cleared, even by a call that raises |
| `LossStats.UpdateAll` | util/train_utils.py:48-59 | a run of updates keeps every meter valid |
| `LossStats.UpdateAllCounts` | util/train_utils.py:48-59 | over complete updates the required meters count all of them, each optional meter counts and sums exactly the updates that supplied it, and its flag is set exactly when some update did |
| `LossStats.RequiredAveragesAreMeans` | util/train_utils.py:48-50 | from a fresh `LossStat`, after N >= 1 complete updates the required averages are the means of the N supplied values |
| `LossStats.PrintLoss` | util/train_utils.py:61-84 | the report needs an epoch and raises `AttributeError` without one |
| `LossStats.ReportSections` | util/train_utils.py:61-84 | the report opens with the base section showing the total and 2D-joint meters, lists sections in the fixed order dp, SMPL joints, SMPL params, includes each optional section exactly when its flag is set, shows each section's own meter, and has one section plus one per set flag |
| `TimeStats.Init` | util/train_utils.py:89-94 | a new `TimeStat` has four freshly reset meters, the given epoch total and no epoch attributes yet |
| `TimeStats.EpochInit` | util/train_utils.py:96-104 | `epoch_init` zeroes each of the three accumulators, sets the forward and visualisation starts to -1, takes the first reading as segment start and the second as epoch start, records the epoch, and changes nothing outside the epoch attributes |
| `TimeStats.StatData` | util/train_utils.py:106-108 | the data accumulator grows by the time since the segment start and the forward phase starts now; nothing else changes; `AttributeError` before `epoch_init` |
| `TimeStats.StatForward` | util/train_utils.py:110-112 | the forward accumulator grows by the time since the forward start and visualisation starts now; nothing else changes; `AttributeError` before `epoch_init` |
| `TimeStats.StatVisualize` | util/train_utils.py:114-117 | the visualisation accumulator grows by the time since the visualisation start and the next segment starts now; nothing else changes; `AttributeError` before `epoch_init` |
| `TimeStats.StatEpochTime` | util/train_utils.py:119-121 | the epoch time becomes the time since the epoch start; `AttributeError` before `epoch_init` |
| `TimeStats.CycleTelescopes` | util/train_utils.py:106-117 | in one data, forward, visualise cycle each phase is charged the time between its own boundaries, the accumulators together grow by the time since the previous segment start, and the segment start moves to the cycle's last reading |
| `TimeStats.FirstCyclePerPhase` | util/train_utils.py:96-117 | in the first data, forward, visualise cycle after `epoch_init`, each phase accumulator holds exactly the time between that phase's own two boundaries |
| `TimeStats.CyclesTelescope` | util/train_utils.py:106-117 | over any number of complete cycles, accumulated time minus segment start is invariant |
| `TimeStats.EpochAccounting` | util/train_utils.py:96-121 | after `epoch_init` at reading t0 and m >= 1 complete cycles ending at tm, the accumulators sum to tm - t0; the epoch time measured at tEnd is that sum plus tEnd - tm plus the gap between the two initial readings |
| `TimeStats.PrintStat` | util/train_utils.py:123-134 | before `epoch_init` raises `AttributeError` and changes nothing; otherwise folds each accumulator into its meter, then reports the epoch, the three averages and the epoch time, or raises `AttributeError` with the meters already folded when no epoch time was ever measured |
| `TimeStats.PrintStatFoldsOnce` | util/train_utils.py:123-126 | each call adds one sample to each phase meter, adds the accumulated amounts to their sums, and leaves the total-time meter and the epoch attributes unchanged |

## Left out

- `build_dirs`, `visualize_result_single` and the worker processes of `visualize_result`: image reading and writing, rendering through an external library, and process concurrency. Only the index ranges given to the workers are modelled.
- The byte encoding of `save_to_pkl` / `load_from_pkl`: the pickling helper is not part of this model. Saving is modelled as producing the pair of sample list and records, loading as replacing both.
- `get_img_path` and the half-precision conversion: external helpers, taken as parameters.
- Number formatting, `datetime.now()` and `print`: reports are modelled as the values they show, not as text. The record count that `remove_redunc` prints is the call's result.
- `time.time()`: every reading is a parameter.
- `LossStat.set_epoch` (`LossStats.SetEpoch`) only assigns an attribute and has no contract of its own.
- The `__main__` block and the Python-2 version assertion of `visualize_result`.
- `Evaluator.Update`: a `pred_results` dictionary missing one of its four fields would raise `KeyError` in the source. `Batch` always has the four fields, so that case is not represented.
- `TimeStats.StatData`: before the first `epoch_init`, `stat_data_time`, `stat_forward_time` and `stat_visualize_time` each assign one timestamp attribute and then raise `AttributeError`; `stat_epoch_time` raises before assigning anything. The model leaves the state unchanged in all four. `epoch_init` overwrites those attributes before anything reads them, so the difference is never observable.
- `LossStats.Update`: requires every meter to satisfy `Meters.Valid`. This is an invariant of every reachable `LossStat`, not a demand on callers.
- `TimeStats.PrintStat`: requires every meter to satisfy `Meters.Valid`, an invariant of every reachable `TimeStat` for the same reason.
- `Meters.Update`: uses exact `real` arithmetic, not floating point with rounding.
