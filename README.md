# pytransmission time-averaging windows and network change times, in Dafny

This project models two small stateful pieces of the pytransmission library.

- `MoranTimeAverager` (module `TimeAveraging`, file `timeaveraging.dfy`). It builds a stack of nested
  time-averaging windows for a Moran-model simulation. Durations come in generations. They are scaled
  to ticks by the population size. Every window shares one anchor tick:
  - in "ending" mode (`ending_interval` true) all windows start at the anchor;
  - in "starting" mode they all end at it.

  The averager records the earliest and latest tick over all windows. It answers an inclusive bounds
  query over them.
- `NetworkSequence` (module `TemporalNetwork`, file `networksequence.dfy`). It is a temporal network
  kept as snapshots keyed by change time, plus the list of change times, which is re-sorted after every
  addition. The class description says a snapshot added at time T is valid until the next change
  time. The lookup instead selects the greatest change time strictly before the query, and a query at
  time 0 always selects time 0. So a query exactly at a non-zero change time selects the change time
  before it (see "## Findings"). Snapshot values (graphs, adjacency matrices) are an opaque type
  parameter `M`.

Both classes keep the source's fields: `intervalsByTick`, `intervalTuples`, `earliestTick`,
`latestTick`; `timeToMatrix`, `times`. The constructors set those fields, and
`NetworkSequence.AddNetwork` updates `timeToMatrix` and `times` in place; every other method only reads
them. `Valid()` states the invariant each class keeps:
- for the averager, the windows and bounds are the ones the anchor, the mode and the tick lengths
  determine;
- for the sequence, the change times are sorted and are exactly the keys of the snapshot map.

The list sort that `add_network` calls is modelled by `SortList`, an insertion sort.
`SortedPermutationUnique` proves that a sorted list is determined by its elements, so any sorting
algorithm yields the same list. The methods `StartingIntervalInitialization`,
`EndingIntervalInitialization` and `InInterval` rebuild the scenarios of the time-averaging unit tests
and state the tests' expected values as postconditions. The method `ChangeTimes` and the lemmas
`ExampleTimesSorted` and `ExampleFloors` rebuild the network test's scenario. That test asserts
nothing about its results, so the values they state are the ones the model derives.

## Model

| member | source | states |
|---|---|---|
| TimeAveraging.MaxOf | pytransmission/aggregation/timeaveraging.py:54 | the `max` over the window ends is an element of the list and no element exceeds it |
| TimeAveraging.MinOf | pytransmission/aggregation/timeaveraging.py:64 | the `min` over the window starts is an element of the list and no element is below it |
| TimeAveraging.WindowsShareAnchor | pytransmission/aggregation/timeaveraging.py:46-62 | every window starts at the anchor in ending mode and ends at it in starting mode, and window i spans exactly tick length i |
| TimeAveraging.WindowsNested | pytransmission/aggregation/timeaveraging.py:20-27 | the windows are nested: a window whose tick length is not longer lies inside the other |
| TimeAveraging.BoundsEncloseWindows | pytransmission/aggregation/timeaveraging.py:46-65 | the recorded earliest/latest ticks enclose every window, and some window starts at the earliest and some window ends at the latest |
| TimeAveraging.BoundsFromLongestWindow | pytransmission/aggregation/timeaveraging.py:46-65 | ending mode: earliest = anchor and latest = anchor + longest tick length; starting mode: earliest = anchor - longest tick length and latest = anchor |
| TimeAveraging.WithinIffInSomeWindow | pytransmission/aggregation/timeaveraging.py:79-80 | earliest <= t <= latest holds exactly when t lies in some window taken closed at both ends (both directions) |
| TimeAveraging.PairWithStart | pytransmission/aggregation/timeaveraging.py:48-51 | the ending-mode append loop yields one pair (start, end i) per end, in input order |
| TimeAveraging.PairWithEnd | pytransmission/aggregation/timeaveraging.py:58-62 | the starting-mode append loop yields one pair (start i, end) per start, in input order |
| TimeAveraging.MoranTimeAverager.constructor | pytransmission/aggregation/timeaveraging.py:31-65 | tick length i = duration i × popsize, in input order; window i = (anchor, anchor + length i) in ending mode and (anchor - length i, anchor) otherwise, in input order and not sorted (the closed forms `WindowAt` and `Windows`); `ending_interval` defaults to true; Valid() records earliest = anchor and latest = max end in ending mode, earliest = min start and latest = anchor otherwise (the closed forms `EarliestOf` and `LatestOf`); the duration list must be non-empty |
| TimeAveraging.MoranTimeAverager.GetIntervalTuples | pytransmission/aggregation/timeaveraging.py:70-71 | returns the stored windows, one per duration in input order, each sharing the anchor and spanning its tick length; no state changes |
| TimeAveraging.MoranTimeAverager.GetEarliestTickForAllIntervals | pytransmission/aggregation/timeaveraging.py:73-74 | returns the stored earliest tick: no window starts before it and some window starts at it; no state changes |
| TimeAveraging.MoranTimeAverager.GetLatestTickForAllIntervals | pytransmission/aggregation/timeaveraging.py:76-77 | returns the stored latest tick: no window ends after it and some window ends at it; no state changes |
| TimeAveraging.MoranTimeAverager.IsWithinIntervals | pytransmission/aggregation/timeaveraging.py:79-80 | true iff earliest <= timestep <= latest (inclusive at both ends), equivalently iff some closed window contains the timestep; no state changes |
| TimeAveraging.MoranTimeAverager.RecordSample | pytransmission/aggregation/timeaveraging.py:83-84 | accepts a sample and leaves the whole averager unchanged |
| TimeAveraging.StartingIntervalInitialization | test/test_timeaveraging.py:22-31 | anchor 100000, durations [10, 50, 100], popsize 100, starting mode give [(99000,100000), (95000,100000), (90000,100000)] |
| TimeAveraging.EndingIntervalInitialization | test/test_timeaveraging.py:34-42 | the same inputs in ending mode give [(100000,101000), (100000,105000), (100000,110000)] |
| TimeAveraging.DefaultModeIsEnding | pytransmission/aggregation/timeaveraging.py:31-37 | a constructor call without the mode argument builds the ending-mode windows [(100000,101000), (100000,105000), (100000,110000)] |
| TimeAveraging.InInterval | test/test_timeaveraging.py:45-57 | in ending mode the bounds are 100000 and 110000; 103501, 100000 and 110000 are within and 99999 is not |
| TemporalNetwork.SortList | pytransmission/temporalnetwork/network_sequence.py:47 | the sort of the change-time list returns a sorted permutation of its input |
| TemporalNetwork.InsertSorted | pytransmission/temporalnetwork/network_sequence.py:46-47 | placing one new time into a sorted list keeps it sorted (the step the insertion sort repeats) |
| TemporalNetwork.SortedPermutationUnique | pytransmission/temporalnetwork/network_sequence.py:47 | two sorted lists with the same multiset of elements are equal, so the result of the sort does not depend on the algorithm |
| TemporalNetwork.SortListOfSorted | pytransmission/temporalnetwork/network_sequence.py:47 | sorting an already sorted list of change times leaves it unchanged |
| TemporalNetwork.StrictFloor | pytransmission/temporalnetwork/network_sequence.py:57-65 | the selection is None iff every change time is >= the query; otherwise it is a change time strictly before the query |
| TemporalNetwork.StrictFloorIsGreatest | pytransmission/temporalnetwork/network_sequence.py:57-65 | on sorted change times the selection is the greatest change time strictly before the query |
| TemporalNetwork.StrictFloorIgnoresLaterTimes | pytransmission/temporalnetwork/network_sequence.py:57-65 | change times at or after the query never change the selection made from the ones before them, which justifies the loop's early break |
| TemporalNetwork.Floor | pytransmission/temporalnetwork/network_sequence.py:18-20 | the selection is None iff every change time is after the query; otherwise it is a change time at or before the query |
| TemporalNetwork.FloorIsGreatest | pytransmission/temporalnetwork/network_sequence.py:18-20 | on sorted change times Floor selects the greatest change time at or before the query, the snapshot valid then |
| TemporalNetwork.FloorAtChangeTime | pytransmission/temporalnetwork/network_sequence.py:18-20 | a query exactly at a change time selects that change time |
| TemporalNetwork.FloorAgreesOffChangeTimes | pytransmission/temporalnetwork/network_sequence.py:57-69 | when the query is not a change time, Floor and StrictFloor select the same time |
| TemporalNetwork.QueryAtChangeTimeSelectsEarlier | pytransmission/temporalnetwork/network_sequence.py:57-65 | on [0, 3, 5, 10, 25] a query at 5 selects 3 under StrictFloor and 5 under Floor |
| TemporalNetwork.QueryAtChangeTime | pytransmission/temporalnetwork/network_sequence.py:51-69 | a sequence with change times 0 and 5 answers a query at 5 with 0 |
| TemporalNetwork.NetworkSequence.constructor | pytransmission/temporalnetwork/network_sequence.py:30-33 | a new sequence has no change times and no snapshots |
| TemporalNetwork.NetworkSequence.AddNetwork | pytransmission/temporalnetwork/network_sequence.py:38-47 | the snapshot map gains or overwrites the entry for time and keeps every other entry; the change times gain exactly one occurrence of time (duplicates kept) and stay sorted |
| TemporalNetwork.NetworkSequence.GetListOfChangeTimes | pytransmission/temporalnetwork/network_sequence.py:93-103 | returns the stored change times, which are sorted and are exactly the times that have a snapshot; no state changes |
| TemporalNetwork.NetworkSequence.GetGraphMatrixForTime | pytransmission/temporalnetwork/network_sequence.py:51-73 | the scanning loop with its early break selects StrictFloor of the sorted change times; a query at time 0 selects 0 whatever the list holds; no state changes |
| TemporalNetwork.ExampleTimesSorted | test/test_temporalnetwork.py:30-36 | the only sorted arrangement of the added times 0, 10, 5, 25, 3 is [0, 3, 5, 10, 25] |
| TemporalNetwork.ExampleFloors | test/test_temporalnetwork.py:39-43 | on [0, 3, 5, 10, 25] the lookup selects 5, 10, 25 and 0 for queries at 8, 12, 50 and 1 |
| TemporalNetwork.ChangeTimes | test/test_temporalnetwork.py:23-46 | adding 0, 10, 5, 25, 3 yields change times [0, 3, 5, 10, 25]; queries at 8, 12, 0, 50, 1 select 5, 10, 0, 25, 0 (the test runs these queries without asserting their results) |

## Left out

- `get_graph_matrix_for_time` returns `None` and only logs the selected time. The model returns the
  selected time as the method's result. It does not return a snapshot.
- `time_to_graph` is initialised in `__init__` and never used. It is not part of this model.
- `get_new_vertices_for_time` and `get_removed_vertices_for_time` are empty stubs. They are not part of
  this model.
- `record_sample` ignores its argument. The population type is an opaque type parameter.
- All `log.debug` calls are I/O and are left out.
- `TimeAveraging.MoranTimeAverager.constructor` requires a non-empty duration list. With an empty list
  the source's `max`/`min` call raises, so there is no normal result to model.
- `ending_interval` is a `bool` in the model. The source compares the argument with `== True`, so a
  truthy non-boolean such as `2` would select starting mode. That behaviour is not modelled.
- `GetIntervalTuples` and `GetListOfChangeTimes` return sequence values. The source returns its internal
  list by reference, so a caller that mutates the returned list also mutates the object. The model
  does not capture that aliasing.
- The constructor's two append loops are written as the module-level methods `PairWithStart` and
  `PairWithEnd`, which the constructor calls. The order of the appends is the same.
- Durations and the population size are modelled as integers. Python also accepts fractional
  durations, which give fractional tick lengths through `t * popsize`; those are not modelled.
- `GetGraphMatrixForTime` keeps the source's strict comparison, so it selects the earlier change time
  at a non-zero change time. The intended selection `Floor` is stated and proved as functions and
  lemmas. It is not used by a second lookup method.
- Python integers are unbounded, like Dafny's `int`, so no wrap-around is modelled.
- The floating-point formula modules (`popgen/moran.py`, `popgen/wright_fisher.py`,
  `madsenlab/common/moran.py`, `madsenlab/common/wright_fisher.py`) are not modelled. They evaluate
  closed-form formulas with `math.log` and float division.
- The Chinese Restaurant Process simulator (`popgen/crp.py`) is not modelled. It is driven by random
  numbers and NumPy calls.
- The sampling helpers (`utils/sampling.py`) are not modelled. They wrap library random sampling.

## Findings

| source | as written | input that shows it | evidently intended | confidence | as-written member | corrected member |
|---|---|---|---|---|---|---|
| pytransmission/temporalnetwork/network_sequence.py:59-61 | the loop keeps a change time only when `time > t`, so a query at a change time selects the previous change time; the zero case at lines 67-69 patches only time 0 | change times 0 and 5, query 5: selects 0, though the class description says the snapshot at 5 is valid from 5 | select the greatest change time at or before the query | medium, not executed | TemporalNetwork.QueryAtChangeTime | TemporalNetwork.FloorIsGreatest |
