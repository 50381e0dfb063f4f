# Trace-to-noise-configuration compiler, modelled in Dafny

`scripts/traces_to_noise_config.py` turns the kernel traces of several runs of a
benchmarked workload into a per-cpu schedule of noise intervals that a noise injector can
replay. This project models the core of that script and proves properties about it:

- **Records** (`get_cpu_dict`). The script groups the matched trace lines of one run into
  a table `cpu -> task -> [(start, duration)]`. The task label is the raw name up to its
  last `:`, or `"nmi"` when that is empty. Each list is sorted by start. The script also
  reads the run length from the last "Total Duration" line of the benchmark output, with
  the decimal point deleted, or -1 when no line matches.
- **Profile** (`compute_average_trace`). The script concatenates every run's list of
  each (cpu, task) in run order. Each list is then replaced by every N-th occurrence
  (N = number of runs), each carrying the list's mean duration, truncated toward zero.
- **Subtraction** (`clean_worst_trace`). For every profile entry, the script subtracts
  its duration from the worst run's timing whose duration is closest to it (the first
  such timing on ties). A timing that would go negative is removed.
- **Separation** (`seperate_traces`). For each cpu, the script concatenates the
  workload's timings across cpus, collects all other tasks' timings and sorts them by
  start.
- **Merge** (`combine_consecutive_noises`). For each cpu, the script shifts every noise
  by the anchor and drops noises that start before it. It fuses noises whose gap is
  within the merge threshold. A cpu with no surviving noise gets the placeholder
  `(-1, -1)`.
- **Pipeline** (`main`). The script picks the first run of maximal length as the worst
  run, profiles all runs and cleans the worst run. It separates that run's workload,
  anchors on its earliest start and merges the noise.

Where the script updates in place a dictionary its caller passed in (`clean_worst_trace`,
`combine_consecutive_noises`), the model has a class whose table field the method
reassigns. Dictionaries a function builds and updates locally (the sorting loop of
`get_cpu_dict`, both phases of `compute_average_trace`) are maps that its methods
return. Every loop of the script is a method with invariants, proved equal to a
specification function. The properties are lemmas about those functions.

Python dictionaries are iterated in insertion order. The model leaves that order
unknown: a method that walks a table returns the order it used as a ghost
out-parameter, and its result is stated for that order. The workload list's order
depends on it, but `main` only uses its earliest start, which does not. The order of
equal-start timings of different tasks within a cpu's noise list also depends on it,
because the sort is stable. The merged list can then differ too, for instance when the
merge threshold is negative. `Pipeline.CompileNoiseConfig` therefore returns the visiting
order of every cpu's tasks, and states each merged list in terms of it.

## Model

| member | source | states |
|---|---|---|
| Timings.SortByStart | scripts/traces_to_noise_config.py:302 | the result is sorted by start and is a permutation of the input |
| Timings.SortByStartStable | scripts/traces_to_noise_config.py:302 | timings with equal starts keep their input order, as Python's stable `sorted` does |
| Timings.SortByStartOfSorted | scripts/traces_to_noise_config.py:299-302 | sorting again a list that is already sorted by start returns it unchanged |
| Records.LastColon | scripts/traces_to_noise_config.py:293 | finds the position of the last `:` of the raw task name, or reports that there is none |
| Records.TaskLabel | scripts/traces_to_noise_config.py:293 | a task label is never empty (`or "nmi"`) |
| Records.TaskLabelOfName | scripts/traces_to_noise_config.py:293 | `name:suffix`, where the suffix has no `:`, is labelled `name` |
| Records.TaskLabelWithoutColon | scripts/traces_to_noise_config.py:293 | a non-empty name without `:` is its own label |
| Records.TaskLabelNmi | scripts/traces_to_noise_config.py:293 | an empty name, or one with nothing before its last `:`, is labelled `nmi` |
| Records.GroupRecords | scripts/traces_to_noise_config.py:289-297 | the loop of `setdefault(...).append(...)` builds the grouping function of the records |
| Records.GroupedLookup | scripts/traces_to_noise_config.py:297 | a (cpu, task) list holds exactly that pair's records' timings, in file order |
| Records.GroupedKeys | scripts/traces_to_noise_config.py:297 | a cpu, or a (cpu, task) pair, is in the table iff some record has it |
| Records.SortTasks | scripts/traces_to_noise_config.py:301-302 | every task list of one cpu is replaced by its sorted copy, with the same keys |
| Records.SortAll | scripts/traces_to_noise_config.py:300-302 | every task list of every cpu is sorted by start |
| Records.MatchValue | scripts/traces_to_noise_config.py:282 | the value of `whole.fraction` with the point deleted is `whole * 10^len(fraction) + fraction` |
| Records.MatchValueNanoseconds | scripts/traces_to_noise_config.py:282 | with nine fraction digits, the run length is the seconds as nanoseconds |
| Records.LastMatch | scripts/traces_to_noise_config.py:280-282 | the captured line is the last matching line; there is none iff no line matches |
| Records.ReadTotalDuration | scripts/traces_to_noise_config.py:275-282 | the loop leaves the value of the last match, or -1 |
| Records.GetCpuDict | scripts/traces_to_noise_config.py:248-304 | returns the records grouped and sorted, and the run length |
| Records.CpuDictEntry | scripts/traces_to_noise_config.py:289-302 | keys are iff some record has them; each list is the pair's timings, sorted by start, as a permutation, and never empty |
| Records.CpuDictNonEmpty | scripts/traces_to_noise_config.py:297 | no task list of a run's table is empty |
| Profile.TruncatedDiv | scripts/traces_to_noise_config.py:242 | `int(a / b)` truncates toward zero, for negative and non-negative totals |
| Profile.MeanBetween | scripts/traces_to_noise_config.py:231-242 | the mean duration lies between the least and the greatest duration |
| Profile.SampledLength | scripts/traces_to_noise_config.py:235-239 | sampling at `i % N == 0` keeps ceil(len / N) occurrences |
| Profile.SampledIndex | scripts/traces_to_noise_config.py:235-239 | the j-th sample is occurrence j*N |
| Profile.AverageOf | scripts/traces_to_noise_config.py:229-245 | a task's profile has ceil(len / N) entries; entry j has the start of occurrence j*N and the mean duration |
| Profile.AverageTimings | scripts/traces_to_noise_config.py:231-245 | the total/sampling loop computes that profile |
| Profile.ExtendTasks | scripts/traces_to_noise_config.py:225-226 | the task loop of one cpu appends the run's lists to the gathered ones |
| Profile.ExtendRun | scripts/traces_to_noise_config.py:224-226 | the cpu loop of one run extends every gathered cpu, and adds a new cpu only when the run has a task on it (`setdefault(cpu, {})` is inside the task loop) |
| Profile.GatherRuns | scripts/traces_to_noise_config.py:223-226 | the run loop builds the gathered table of all runs |
| Profile.GatheredLookup | scripts/traces_to_noise_config.py:223-226 | a gathered (cpu, task) list is the concatenation of the runs' lists, in run order |
| Profile.GatheredCpus | scripts/traces_to_noise_config.py:223-226 | a cpu is gathered iff some run has a task on it |
| Profile.GatheredTasks | scripts/traces_to_noise_config.py:223-226 | a (cpu, task) pair is gathered iff some run has it |
| Profile.AverageTasks | scripts/traces_to_noise_config.py:230-245 | every task of one cpu is replaced by its profile, with the same keys |
| Profile.AverageGathered | scripts/traces_to_noise_config.py:229-245 | every gathered list is replaced by its profile |
| Profile.ComputeAverageTrace | scripts/traces_to_noise_config.py:208-246 | the average dict is the profile of the gathered runs, with N = number of runs |
| Profile.ProfileEntry | scripts/traces_to_noise_config.py:223-245 | the average dict has a (cpu, task) pair iff some run has it; its entry is the profile of that pair's occurrences in run order |
| Profile.ProfileCoversRun | scripts/traces_to_noise_config.py:188 | every (cpu, task) pair of any run, the worst one included, is in the average dict, so `average_dict[cpu][task]` never fails |
| Profile.ProfileNonNegative | scripts/traces_to_noise_config.py:231-245 | with non-negative durations in the runs, every average duration is non-negative |
| Subtraction.ClosestIndex | scripts/traces_to_noise_config.py:193-196 | the first index whose duration is nearest to the average (`min` with a key) |
| Subtraction.SubtractOne | scripts/traces_to_noise_config.py:199-206 | the closest timing is removed if shorter than the average, otherwise reduced by it; every other timing stays in place |
| Subtraction.SubtractLength | scripts/traces_to_noise_config.py:188-206 | cleaning removes at most one timing per profile entry and adds none |
| Subtraction.SubtractTotal | scripts/traces_to_noise_config.py:188-206 | cleaning keeps durations non-negative and removes at most the profile's total duration |
| Subtraction.SubtractSorted | scripts/traces_to_noise_config.py:188-206 | a list sorted by start stays sorted |
| Subtraction.SubtractStarts | scripts/traces_to_noise_config.py:199-206 | cleaning introduces no new start time |
| Subtraction.CleanTimings | scripts/traces_to_noise_config.py:188-206 | the loop over the profile entries, with its `break` on an empty list, computes the subtraction |
| Subtraction.CleanTasks | scripts/traces_to_noise_config.py:187-206 | every task of one cpu is cleaned by its own profile `average_dict[cpu][task]`, looked up only for tasks the cpu has, with the same keys |
| Subtraction.TraceTable.CleanWorstTrace | scripts/traces_to_noise_config.py:178-206 | the worst run's table is replaced in place by its cleaned table; a cpu without tasks stays as it is and needs no entry in the average dict |
| Subtraction.CleanTableShrinks | scripts/traces_to_noise_config.py:186-206 | cleaning keeps every cpu and task, and no list grows; durations stay non-negative and totals do not grow; sorted lists stay sorted |
| Separation.SeparateTasks | scripts/traces_to_noise_config.py:165-171 | one cpu's tasks are split into noise timings, in visiting order, and workload timings, which are exactly the workload task's list or nothing |
| Separation.WorkloadCollect | scripts/traces_to_noise_config.py:167-169 | a cpu contributes exactly its workload task's list (or nothing) to the workload |
| Separation.CollectPartition | scripts/traces_to_noise_config.py:167-171 | every timing goes to exactly one of workload and noise |
| Separation.CollectNoiseMembers | scripts/traces_to_noise_config.py:170-171 | a timing is noise iff some task other than the workload has it |
| Separation.SeparateTraces | scripts/traces_to_noise_config.py:148-176 | every cpu gets its sorted noise list; the workload list concatenates the cpus' workload lists in visiting order |
| Separation.NoiseListShape | scripts/traces_to_noise_config.py:171-174 | a cpu's noise list is sorted by start and is a permutation of its non-workload timings |
| Separation.WorkloadMembers | scripts/traces_to_noise_config.py:164-169 | a timing is in the workload list iff some cpu's workload task has it |
| Separation.EarliestStart | scripts/traces_to_noise_config.py:89-91 | after sorting, the first workload start is one of the starts and is the earliest |
| Merge.CombineNoises | scripts/traces_to_noise_config.py:114-141 | the loop over one cpu's noises computes the sweep's result |
| Merge.NoiseTable.CombineConsecutiveNoises | scripts/traces_to_noise_config.py:113-144 | every cpu's list is replaced in place by its merged list, with the same cpus |
| Merge.CombineSeparated | scripts/traces_to_noise_config.py:115-141 | the result is the placeholder iff no noise starts at or after the anchor; otherwise starts are non-negative and each interval begins beyond the end of the previous one plus the threshold |
| Merge.CombineStartsIncrease | scripts/traces_to_noise_config.py:127-138 | with non-negative durations and threshold, merged starts strictly increase and durations stay non-negative |
| Merge.CombineOfSeparated | scripts/traces_to_noise_config.py:127-141 | separated intervals, anchored at 0, merge to themselves |
| Merge.CombineIdempotent | scripts/traces_to_noise_config.py:113-141 | merging a merged list again, anchored at 0, changes nothing |
| Merge.CombineDurationAccounting | scripts/traces_to_noise_config.py:127-138 | merging never loses duration, and adds at most the threshold per fused gap; with threshold <= 0 it adds none |
| Pipeline.WorstRun | scripts/traces_to_noise_config.py:77 | the first run of maximal length (`max` with a key) |
| Pipeline.WorstRunUnique | scripts/traces_to_noise_config.py:77 | any run that is maximal and earlier than every other maximal run is the selected one |
| Pipeline.BuildRuns | scripts/traces_to_noise_config.py:72 | each run's table and length is what `get_cpu_dict` returns, in file order |
| Pipeline.CleanedWorstRun | scripts/traces_to_noise_config.py:77-84 | the worst run's table, cleaned by the profile of all runs, keeps the worst run's cpus |
| Pipeline.WorkloadEmpty | scripts/traces_to_noise_config.py:87-91 | the workload list is empty iff no cpu of the cleaned table has a workload timing left |
| Pipeline.AnchorIsEarliest | scripts/traces_to_noise_config.py:89-91 | the anchor, the first start of the sorted workload list, is the earliest start of any cpu's workload timing, whatever the visiting order |
| Pipeline.MergeNoise | scripts/traces_to_noise_config.py:94 | every cpu's list is replaced by its merged list, which is the placeholder or separated intervals |
| Pipeline.CompileNoiseConfig | scripts/traces_to_noise_config.py:72-94 | fails iff there are no traces, or no workload timing survives cleaning; otherwise yields, for every cpu of the worst run, the merged list of its cleaned noise (collected in the visiting order and sorted), anchored on the earliest workload start, each the placeholder or separated intervals |

## Left out

- Command-line parsing (:13-55), listing and numbering the `.trace` files (:65-66) and writing the JSON (:97-99) are I/O. The model starts from each run's captured lines and ends with the merged table.
- The process pool (:69-72) runs `get_cpu_dict` once per file, and `starmap` keeps the file order. `Pipeline.BuildRuns` calls it sequentially, which gives the same list.
- The two regular expressions (:261-272) are not modelled. A trace line is given as its captured fields (`Records.Record`) and a "Total Duration" line as its captured digits (`Records.DurationMatch`). Python's `\d` also matches non-ASCII digits; the model takes ASCII digits only.
- The start time conversion `int(float(x) * 1e9)` (:294) is floating point. The start is taken as an integer number of nanoseconds.
- `get_cpu_dict` returns `None` for a file not named `.trace` (:277). `main` never passes one, so the model always reads the run length.
- The mean (:242) divides in floating point before truncating. `Profile.TruncatedDiv` divides exactly, which differs only when the total exceeds 2^53.
- Python dictionaries iterate in insertion order; the model's visiting order is left unknown. The workload list's order depends on it, but only its earliest start is used. So does the order of equal-start noise timings of different tasks, and with it the merged list, for instance when the merge threshold is negative. The model states those lists for the visiting order it returns, not for insertion order.
- In `main`, `worst_trace[0]` is the same dictionary object as the worst run's entry of `trace_list`, and cleaning mutates it. The model cleans a table built from that entry. `trace_list` is not read after the profile is computed, so the outcome is the same.
- The errors `main` stops on are the `max` of an empty list (no trace files) and indexing an empty workload list. `Pipeline.CompileNoiseConfig` returns them as `Failure(NoTraces)` and `Failure(NoWorkload)`.
- `clean_worst_trace` raises `KeyError` when a task of the worst run has no entry in the average dict (:188). The lookup happens only inside the task loop, so a cpu without tasks needs no entry. `Subtraction.TraceTable.CleanWorstTrace` requires an entry for every (cpu, task) pair of the table, and `Profile.ProfileCoversRun` proves that `main` always provides one.
- Other scripts of the repository (plotting, benchmarks, the noise injector) are not part of this model.
