/** compute_average_trace: every (cpu, task) list of every run is concatenated in run
    order; the profile keeps every N-th start (N the number of runs) and gives each kept
    start the truncated mean duration of the whole concatenation. */
module Profile {
  import opened Timings

  /** Python's `int(a / b)` for b > 0: the quotient truncated toward zero. */
  function TruncatedDiv(a: int, b: int): (q: int)
    requires b > 0
    ensures a >= 0 ==> q >= 0 && q * b <= a < q * b + b
    ensures a < 0 ==> q <= 0 && q * b - b < a <= q * b
  {
    if a >= 0 then a / b else -((-a) / b)
  }

  /** The average duration the profile assigns to a (cpu, task). */
  function Mean(timingList: seq<Timing>): int
    requires |timingList| > 0
  {
    TruncatedDiv(TotalDuration(timingList), |timingList|)
  }

  lemma {:induction false} TotalDurationBetween(s: seq<Timing>, lo: int, hi: int)
    requires forall i :: 0 <= i < |s| ==> lo <= s[i].duration <= hi
    ensures |s| * lo <= TotalDuration(s) <= |s| * hi
    decreases |s|
  {
    if s != [] {
      TotalDurationBetween(s[..|s| - 1], lo, hi);
      assert |s| * lo == (|s| - 1) * lo + lo;
      assert |s| * hi == (|s| - 1) * hi + hi;
    }
  }

  lemma MulMonotone(a: int, b: int, n: int)
    requires a <= b && 0 <= n
    ensures a * n <= b * n
  {
    assert b * n - a * n == (b - a) * n;
  }

  /** The profile's average duration lies within the range of the durations it
      averages (so it is non-negative when they are). */
  lemma MeanBetween(timingList: seq<Timing>, lo: int, hi: int)
    requires |timingList| > 0
    requires forall i :: 0 <= i < |timingList| ==> lo <= timingList[i].duration <= hi
    ensures lo <= Mean(timingList) <= hi
  {
    var n := |timingList|;
    TotalDurationBetween(timingList, lo, hi);
    var q := Mean(timingList);
    assert (q + 1) * n == q * n + n;
    assert (q - 1) * n == q * n - n;
    if q < lo {
      MulMonotone(q + 1, lo, n);
    } else if q > hi {
      MulMonotone(hi, q - 1, n);
    }
  }

  /** Two integers at distance less than n agree when divided by n. */
  lemma DivisionBy(a: int, n: int, q: int)
    requires n > 0 && q * n <= a < q * n + n
    ensures a / n == q
  {
    var d := a / n;
    assert a == d * n + a % n;
    assert (d + 1) * n == d * n + n;
    assert (q + 1) * n == q * n + n;
    if d < q {
      MulMonotone(d + 1, q, n);
    } else if d > q {
      MulMonotone(q + 1, d, n);
    }
  }

  /** The occurrences the loop keeps: those at indices 0, n, 2n, ... of the list. */
  function Sampled(timingList: seq<Timing>, n: nat): seq<Timing>
    requires n > 0
    decreases |timingList|
  {
    if timingList == [] then []
    else
      var i := |timingList| - 1;
      Sampled(timingList[..i], n) + (if i % n == 0 then [timingList[i]] else [])
  }

  /** Sampling keeps ceil(|list| / n) occurrences. */
  lemma {:induction false} SampledLength(timingList: seq<Timing>, n: nat)
    requires n > 0
    ensures |Sampled(timingList, n)| == (|timingList| + n - 1) / n
    decreases |timingList|
  {
    if timingList == [] {
      DivisionBy(n - 1, n, 0);
    } else {
      var i := |timingList| - 1;
      SampledLength(timingList[..i], n);
      var q := i / n;
      assert i == q * n + i % n;
      assert (q + 1) * n == q * n + n;
      if i % n == 0 {
        DivisionBy(i + n - 1, n, q);
      } else {
        DivisionBy(i + n - 1, n, q + 1);
      }
      DivisionBy(i + n, n, q + 1);
    }
  }

  /** The j-th kept occurrence is the one at index j * n. */
  lemma {:induction false} SampledIndex(timingList: seq<Timing>, n: nat)
    requires n > 0
    ensures forall j :: 0 <= j < |Sampled(timingList, n)| ==>
              j * n < |timingList| && Sampled(timingList, n)[j] == timingList[j * n]
    decreases |timingList|
  {
    if timingList != [] {
      var i := |timingList| - 1;
      var init := timingList[..i];
      SampledIndex(init, n);
      var s := Sampled(timingList, n);
      var m := |Sampled(init, n)|;
      if i % n == 0 {
        SampledLength(init, n);
        var q := i / n;
        assert i == q * n;
        DivisionBy(i + n - 1, n, q);
        assert s[m] == timingList[m * n];
      }
      forall j | 0 <= j < m ensures j * n < |timingList| && s[j] == timingList[j * n] {
        assert s[j] == Sampled(init, n)[j];
      }
    }
  }

  /** The profile entries of one (cpu, task): ceil(|list| / n) of them, the j-th keeping
      the start of the occurrence at index j * n and carrying the mean duration. */
  function AverageOf(timingList: seq<Timing>, runCount: nat): (r: seq<Timing>)
    requires |timingList| > 0 && runCount > 0
    ensures |r| == (|timingList| + runCount - 1) / runCount
    ensures forall j :: 0 <= j < |r| ==>
              j * runCount < |timingList|
              && r[j] == Timing(timingList[j * runCount].start, Mean(timingList))
  {
    var sampled := Sampled(timingList, runCount);
    SampledLength(timingList, runCount);
    SampledIndex(timingList, runCount);
    seq(|sampled|, j requires 0 <= j < |sampled| => Timing(sampled[j].start, Mean(timingList)))
  }

  /** The loop of compute_average_trace over one concatenated (cpu, task) list. */
  method AverageTimings(timingList: seq<Timing>, runCount: nat) returns (averaged: seq<Timing>)
    requires |timingList| > 0 && runCount > 0
    ensures averaged == AverageOf(timingList, runCount)
  {
    var totalDuration := 0;
    var sampledOccurrences := [];
    for i := 0 to |timingList|
      invariant totalDuration == TotalDuration(timingList[..i])
      invariant sampledOccurrences == Sampled(timingList[..i], runCount)
    {
      assert timingList[..i + 1][..i] == timingList[..i];
      totalDuration := totalDuration + timingList[i].duration;
      if i % runCount == 0 {
        sampledOccurrences := sampledOccurrences + [timingList[i]];
      }
    }
    assert timingList[..|timingList|] == timingList;
    var averageDuration := TruncatedDiv(totalDuration, |timingList|);
    averaged := seq(|sampledOccurrences|, j requires 0 <= j < |sampledOccurrences| =>
                      Timing(sampledOccurrences[j].start, averageDuration));
  }

  function ListOf(tasks: TaskTable, k: string): seq<Timing>
  {
    if k in tasks then tasks[k] else []
  }

  /** One cpu's part of the gathering phase: `setdefault(task, []).extend(timings)` for
      every task of the run on that cpu. */
  function ExtendedTasks(acc: TaskTable, tasks: TaskTable): TaskTable
  {
    map k | k in acc.Keys + tasks.Keys :: ListOf(acc, k) + ListOf(tasks, k)
  }

  /** Extending by no tasks leaves a cpu's lists as they were. */
  lemma ExtendedTasksEmpty(acc: TaskTable)
    ensures ExtendedTasks(acc, map[]) == acc
  {
    var e := ExtendedTasks(acc, map[]);
    assert e.Keys == acc.Keys;
    assert forall k :: k in e ==> e[k] == acc[k];
  }

  /** The cpus of a run that have at least one task: `setdefault(cpu, {})` runs only
      inside the loop over a cpu's tasks, so only these cpus are added. */
  function Busy(run: CpuTable): set<int>
  {
    set c | c in run && run[c] != map[]
  }

  /** One run's contribution to the gathering phase. */
  function Extended(acc: CpuTable, run: CpuTable): CpuTable
  {
    map c | c in acc.Keys + Busy(run) :: ExtendedTasks(TasksOf(acc, c), TasksOf(run, c))
  }

  /** The gathered table after the first phase over `runs`. */
  function Gathered(runs: seq<CpuTable>): CpuTable
    decreases |runs|
  {
    if runs == [] then map[] else Extended(Gathered(runs[..|runs| - 1]), runs[|runs| - 1])
  }

  /** The concatenation, in run order, of a (cpu, task)'s lists. */
  function RunOrder(runs: seq<CpuTable>, c: int, k: string): seq<Timing>
    decreases |runs|
  {
    if runs == [] then [] else RunOrder(runs[..|runs| - 1], c, k) + Lookup(runs[|runs| - 1], c, k)
  }

  /** Some run has a task on cpu c. */
  ghost predicate HasCpu(runs: seq<CpuTable>, c: int)
  {
    exists r :: 0 <= r < |runs| && c in Busy(runs[r])
  }

  ghost predicate HasTask(runs: seq<CpuTable>, c: int, k: string)
  {
    exists r :: 0 <= r < |runs| && c in runs[r] && k in runs[r][c]
  }

  /** Extending appends the run's list of every (cpu, task) to the gathered one. */
  lemma ExtendedLookup(acc: CpuTable, run: CpuTable, c: int, k: string)
    ensures Lookup(Extended(acc, run), c, k) == Lookup(acc, c, k) + Lookup(run, c, k)
  {
  }

  /** Gathering gives every (cpu, task) its lists concatenated in run order. */
  lemma {:induction false} GatheredLookup(runs: seq<CpuTable>, c: int, k: string)
    ensures Lookup(Gathered(runs), c, k) == RunOrder(runs, c, k)
    decreases |runs|
  {
    if runs != [] {
      GatheredLookup(runs[..|runs| - 1], c, k);
      ExtendedLookup(Gathered(runs[..|runs| - 1]), runs[|runs| - 1], c, k);
    }
  }

  /** Extending keeps the cpus of the gathered table, adds those on which the run has a
      task, and keeps the (cpu, task) pairs of both tables; it adds nothing else. */
  lemma ExtendedKeys(acc: CpuTable, run: CpuTable, c: int, k: string)
    ensures c in Extended(acc, run) <==> c in acc || c in Busy(run)
    ensures c in Extended(acc, run) && k in Extended(acc, run)[c] <==>
              (c in acc && k in acc[c]) || (c in run && k in run[c])
  {
  }

  lemma HasCpuSplit(runs: seq<CpuTable>, c: int)
    requires runs != []
    ensures HasCpu(runs, c) <==> HasCpu(runs[..|runs| - 1], c) || c in Busy(runs[|runs| - 1])
  {
    var init := runs[..|runs| - 1];
    if HasCpu(runs, c) {
      var r :| 0 <= r < |runs| && c in Busy(runs[r]);
      if r < |runs| - 1 { assert c in Busy(init[r]); }
    }
    if HasCpu(init, c) {
      var r :| 0 <= r < |init| && c in Busy(init[r]);
      assert runs[r] == init[r];
    }
  }

  /** Gathering keeps exactly the cpus on which some run has a task. */
  lemma {:induction false} GatheredCpus(runs: seq<CpuTable>, c: int)
    ensures c in Gathered(runs) <==> HasCpu(runs, c)
    decreases |runs|
  {
    if runs != [] {
      var init := runs[..|runs| - 1];
      GatheredCpus(init, c);
      ExtendedKeys(Gathered(init), runs[|runs| - 1], c, "");
      HasCpuSplit(runs, c);
    }
  }

  lemma HasTaskSplit(runs: seq<CpuTable>, c: int, k: string)
    requires runs != []
    ensures HasTask(runs, c, k) <==>
              HasTask(runs[..|runs| - 1], c, k) || (c in runs[|runs| - 1] && k in runs[|runs| - 1][c])
  {
    var init := runs[..|runs| - 1];
    if HasTask(runs, c, k) {
      var r :| 0 <= r < |runs| && c in runs[r] && k in runs[r][c];
      if r < |runs| - 1 { assert c in init[r] && k in init[r][c]; }
    }
    if HasTask(init, c, k) {
      var r :| 0 <= r < |init| && c in init[r] && k in init[r][c];
      assert runs[r] == init[r];
    }
  }

  /** Gathering keeps exactly the (cpu, task) pairs seen in some run. */
  lemma {:induction false} GatheredTasks(runs: seq<CpuTable>, c: int, k: string)
    ensures c in Gathered(runs) && k in Gathered(runs)[c] <==> HasTask(runs, c, k)
    decreases |runs|
  {
    if runs != [] {
      var init := runs[..|runs| - 1];
      GatheredTasks(init, c, k);
      ExtendedKeys(Gathered(init), runs[|runs| - 1], c, k);
      HasTaskSplit(runs, c, k);
    }
  }

  lemma {:induction false} RunOrderNonEmpty(runs: seq<CpuTable>, c: int, k: string, r: nat)
    requires r < |runs| && c in runs[r] && k in runs[r][c] && |runs[r][c][k]| > 0
    ensures |RunOrder(runs, c, k)| > 0
    decreases |runs|
  {
    if r < |runs| - 1 {
      RunOrderNonEmpty(runs[..|runs| - 1], c, k, r);
    }
  }

  lemma GatheredNonEmpty(runs: seq<CpuTable>)
    requires forall r :: 0 <= r < |runs| ==> NonEmptyLists(runs[r])
    ensures NonEmptyLists(Gathered(runs))
  {
    var g := Gathered(runs);
    forall c, k | c in g && k in g[c] ensures |g[c][k]| > 0 {
      GatheredTasks(runs, c, k);
      GatheredLookup(runs, c, k);
      var r :| 0 <= r < |runs| && c in runs[r] && k in runs[r][c];
      RunOrderNonEmpty(runs, c, k, r);
    }
  }

  /** The second phase: every gathered list replaced by its profile entries. */
  function AverageTable(gathered: CpuTable, runCount: nat): CpuTable
    requires NonEmptyLists(gathered) && runCount > 0
  {
    map c | c in gathered :: map k | k in gathered[c] :: AverageOf(gathered[c][k], runCount)
  }

  /** A table holding, for every task of either table, both lists concatenated is the
      extended table. */
  lemma ExtendedTasksOf(acc: TaskTable, tasks: TaskTable, extended: TaskTable)
    requires extended.Keys == acc.Keys + tasks.Keys
    requires forall k :: k in extended ==> extended[k] == ListOf(acc, k) + ListOf(tasks, k)
    ensures extended == ExtendedTasks(acc, tasks)
  {
  }

  /** The inner loop of the gathering phase over one run's tasks on one cpu. */
  method ExtendTasks(acc: TaskTable, tasks: TaskTable) returns (extended: TaskTable)
    ensures extended == ExtendedTasks(acc, tasks)
  {
    extended := acc;
    var todo := tasks.Keys;
    while todo != {}
      invariant todo <= tasks.Keys
      invariant extended.Keys == acc.Keys + (tasks.Keys - todo)
      invariant forall k :: k in extended ==>
                  extended[k] == ListOf(acc, k) + (if k in tasks && k !in todo then tasks[k] else [])
      decreases todo
    {
      SomeTask(todo);
      var task :| task in todo;
      var timings := if task in extended then extended[task] else [];
      extended := extended[task := timings + tasks[task]];
      todo := todo - {task};
    }
    ExtendedTasksOf(acc, tasks, extended);
  }

  /** A table holding, for every gathered cpu and every cpu on which the run has a task,
      its extended tasks is the extended table. */
  lemma ExtendedOf(acc: CpuTable, run: CpuTable, extended: CpuTable)
    requires extended.Keys == acc.Keys + Busy(run)
    requires forall c :: c in extended ==> extended[c] == ExtendedTasks(TasksOf(acc, c), TasksOf(run, c))
    ensures extended == Extended(acc, run)
  {
  }

  /** The middle loop of the gathering phase: one run's cpus. */
  method ExtendRun(acc: CpuTable, run: CpuTable) returns (extended: CpuTable)
    ensures extended == Extended(acc, run)
  {
    forall c | c in acc && TasksOf(run, c) == map[] ensures ExtendedTasks(TasksOf(acc, c), TasksOf(run, c)) == acc[c] {
      ExtendedTasksEmpty(acc[c]);
    }
    extended := acc;
    var todo := run.Keys;
    while todo != {}
      invariant todo <= run.Keys
      invariant extended.Keys == acc.Keys + (Busy(run) - todo)
      invariant forall c :: c in extended && c !in todo ==>
                  extended[c] == ExtendedTasks(TasksOf(acc, c), TasksOf(run, c))
      invariant forall c :: c in extended && c in todo ==> extended[c] == acc[c]
      decreases todo
    {
      SomeCpu(todo);
      var cpu :| cpu in todo;
      if run[cpu] != map[] {
        // setdefault(cpu, {}) is evaluated inside the task loop: only for a cpu with tasks
        var tasks := if cpu in extended then extended[cpu] else map[];
        var merged := ExtendTasks(tasks, run[cpu]);
        extended := extended[cpu := merged];
      }
      todo := todo - {cpu};
    }
    ExtendedOf(acc, run, extended);
  }

  /** The first phase of compute_average_trace: gather every run into one table. */
  method GatherRuns(runs: seq<CpuTable>) returns (gathered: CpuTable)
    ensures gathered == Gathered(runs)
  {
    gathered := map[];
    for i := 0 to |runs|
      invariant gathered == Gathered(runs[..i])
    {
      assert runs[..i + 1][..i] == runs[..i];
      gathered := ExtendRun(gathered, runs[i]);
    }
    assert runs[..|runs|] == runs;
  }

  /** The inner loop of the second phase over one cpu's tasks. */
  method AverageTasks(tasks: TaskTable, runCount: nat) returns (averaged: TaskTable)
    requires forall k :: k in tasks ==> |tasks[k]| > 0
    requires runCount > 0
    ensures averaged.Keys == tasks.Keys
    ensures forall k :: k in averaged ==> averaged[k] == AverageOf(tasks[k], runCount)
  {
    averaged := tasks;
    var todo := tasks.Keys;
    while todo != {}
      invariant todo <= averaged.Keys && averaged.Keys == tasks.Keys
      invariant forall k :: k in todo ==> averaged[k] == tasks[k]
      invariant forall k :: k in averaged && k !in todo ==> averaged[k] == AverageOf(tasks[k], runCount)
      decreases todo
    {
      SomeTask(todo);
      var task :| task in todo;
      var entries := AverageTimings(averaged[task], runCount);
      averaged := averaged[task := entries];
      todo := todo - {task};
    }
  }

  /** The second phase of compute_average_trace, replacing each gathered list in place. */
  method AverageGathered(gathered: CpuTable, runCount: nat) returns (averageDict: CpuTable)
    requires NonEmptyLists(gathered) && runCount > 0
    ensures averageDict == AverageTable(gathered, runCount)
  {
    averageDict := gathered;
    var todo := gathered.Keys;
    while todo != {}
      invariant todo <= averageDict.Keys && averageDict.Keys == gathered.Keys
      invariant forall c :: c in todo ==> averageDict[c] == gathered[c]
      invariant forall c :: c in averageDict && c !in todo ==>
                  averageDict[c] == AverageTable(gathered, runCount)[c]
      decreases todo
    {
      SomeCpu(todo);
      var cpu :| cpu in todo;
      var tasks := AverageTasks(averageDict[cpu], runCount);
      assert tasks == AverageTable(gathered, runCount)[cpu];
      averageDict := averageDict[cpu := tasks];
      todo := todo - {cpu};
    }
    ghost var expected := AverageTable(gathered, runCount);
    assert averageDict.Keys == expected.Keys;
    assert forall c :: c in averageDict ==> averageDict[c] == expected[c];
  }

  /** compute_average_trace over the runs' tables (an empty list of runs is rejected
      before it is called). */
  method ComputeAverageTrace(runs: seq<CpuTable>) returns (averageDict: CpuTable)
    requires runs != []
    requires forall r :: 0 <= r < |runs| ==> NonEmptyLists(runs[r])
    ensures NonEmptyLists(Gathered(runs))
    ensures averageDict == AverageTable(Gathered(runs), |runs|)
  {
    var gathered := GatherRuns(runs);
    GatheredNonEmpty(runs);
    averageDict := AverageGathered(gathered, |runs|);
  }

  /** What the profile holds, stated on the runs: an entry list for exactly the
      (cpu, task) pairs seen in some run, namely the profile entries of the
      run-ordered concatenation of that pair's lists. */
  lemma ProfileEntry(runs: seq<CpuTable>, c: int, k: string)
    requires runs != []
    requires forall r :: 0 <= r < |runs| ==> NonEmptyLists(runs[r])
    ensures NonEmptyLists(Gathered(runs))
    ensures var avg := AverageTable(Gathered(runs), |runs|);
            c in avg && k in avg[c] <==> HasTask(runs, c, k)
    ensures var avg := AverageTable(Gathered(runs), |runs|);
            c in avg && k in avg[c] ==>
              |RunOrder(runs, c, k)| > 0 && avg[c][k] == AverageOf(RunOrder(runs, c, k), |runs|)
  {
    GatheredNonEmpty(runs);
    GatheredTasks(runs, c, k);
    GatheredLookup(runs, c, k);
  }

  /** Every (cpu, task) of every run, the worst one included, has a profile entry, so
      the lookup average_dict[cpu][task] in clean_worst_trace cannot fail. */
  lemma ProfileCoversRun(runs: seq<CpuTable>, w: nat)
    requires w < |runs|
    requires forall r :: 0 <= r < |runs| ==> NonEmptyLists(runs[r])
    ensures NonEmptyLists(Gathered(runs))
    ensures var avg := AverageTable(Gathered(runs), |runs|);
            forall c, k :: c in runs[w] && k in runs[w][c] ==> c in avg && k in avg[c]
  {
    GatheredNonEmpty(runs);
    forall c, k | c in runs[w] && k in runs[w][c]
      ensures c in Gathered(runs) && k in Gathered(runs)[c]
    {
      GatheredTasks(runs, c, k);
    }
  }

  /** The largest duration of a list (0 for the empty list). */
  function MaxDuration(s: seq<Timing>): (m: int)
    ensures forall i :: 0 <= i < |s| ==> s[i].duration <= m
    decreases |s|
  {
    if s == [] then 0 else Max(MaxDuration(s[..|s| - 1]), s[|s| - 1].duration)
  }

  ghost predicate NonNegativeRuns(runs: seq<CpuTable>)
  {
    forall r, c, k :: 0 <= r < |runs| && c in runs[r] && k in runs[r][c] ==>
      NonNegativeDurations(runs[r][c][k])
  }

  lemma {:induction false} RunOrderNonNegative(runs: seq<CpuTable>, c: int, k: string)
    requires NonNegativeRuns(runs)
    ensures NonNegativeDurations(RunOrder(runs, c, k))
    decreases |runs|
  {
    if runs != [] {
      var init := runs[..|runs| - 1];
      assert NonNegativeRuns(init) by {
        forall r, c, k | 0 <= r < |init| && c in init[r] && k in init[r][c]
          ensures NonNegativeDurations(init[r][c][k])
        {
          assert init[r] == runs[r];
        }
      }
      RunOrderNonNegative(init, c, k);
      var a := RunOrder(init, c, k);
      var b := Lookup(runs[|runs| - 1], c, k);
      assert forall i :: 0 <= i < |a + b| ==> (a + b)[i] == if i < |a| then a[i] else b[i - |a|];
    }
  }

  /** The profile of a list of non-negative durations has non-negative durations. */
  lemma AverageOfNonNegative(timingList: seq<Timing>, runCount: nat)
    requires |timingList| > 0 && runCount > 0 && NonNegativeDurations(timingList)
    ensures NonNegativeDurations(AverageOf(timingList, runCount))
  {
    MeanBetween(timingList, 0, MaxDuration(timingList));
    var r := AverageOf(timingList, runCount);
    forall j | 0 <= j < |r| ensures r[j].duration >= 0 {
      assert r[j].duration == Mean(timingList);
    }
  }

  /** With non-negative durations in every run, every profile duration is non-negative. */
  lemma ProfileNonNegative(runs: seq<CpuTable>, c: int, k: string)
    requires runs != []
    requires forall r :: 0 <= r < |runs| ==> NonEmptyLists(runs[r])
    requires NonNegativeRuns(runs)
    ensures NonEmptyLists(Gathered(runs))
    ensures var avg := AverageTable(Gathered(runs), |runs|);
            c in avg && k in avg[c] ==> NonNegativeDurations(avg[c][k])
  {
    ProfileEntry(runs, c, k);
    var avg := AverageTable(Gathered(runs), |runs|);
    if c in avg && k in avg[c] {
      RunOrderNonNegative(runs, c, k);
      AverageOfNonNegative(RunOrder(runs, c, k), |runs|);
    }
  }
}
