/** The steps of main that turn the runs' traces into a noise configuration: build every
    run's table, pick the worst run, profile all runs, subtract the profile from the worst
    run, separate its workload from its noise, anchor on the earliest workload start and
    merge each cpu's noise events. */
module Pipeline {
  import opened Timings
  import Records
  import Profile
  import Subtraction
  import Separation
  import Merge

  /** Why main stops without writing a configuration: `max` of no runs raises, and so
      does indexing an empty workload list. */
  datatype Error = NoTraces | NoWorkload

  /** One run: the matched lines of its trace and the lines of its benchmark output
      (each the captured run length when the line matches). */
  datatype Trace = Trace(records: seq<Records.Record>, lines: seq<Option<Records.DurationMatch>>)

  /** What the "Total Duration" pattern captures is digits, a point and digits. */
  ghost predicate WellFormedTraces(traces: seq<Trace>)
  {
    forall t, i :: 0 <= t < |traces| && 0 <= i < |traces[t].lines| && traces[t].lines[i].Some? ==>
      Records.WellFormed(traces[t].lines[i].value)
  }

  /** `max(trace_list, key=duration)`: the first run of maximal duration. */
  function WorstRun(durations: seq<int>): (w: nat)
    requires |durations| > 0
    ensures w < |durations|
    ensures forall i :: 0 <= i < |durations| ==> durations[i] <= durations[w]
    ensures forall i :: 0 <= i < w ==> durations[i] < durations[w]
    decreases |durations|
  {
    if |durations| == 1 then 0
    else
      var w := WorstRun(durations[..|durations| - 1]);
      if durations[|durations| - 1] > durations[w] then |durations| - 1 else w
  }

  /** Only one run is maximal and earlier than every other maximal run, so the selection
      is determined by the durations. */
  lemma WorstRunUnique(durations: seq<int>, v: nat)
    requires v < |durations|
    requires forall i :: 0 <= i < |durations| ==> durations[i] <= durations[v]
    requires forall i :: 0 <= i < v ==> durations[i] < durations[v]
    ensures WorstRun(durations) == v
  {
  }

  /** The table get_cpu_dict builds for every run. */
  function Tables(traces: seq<Trace>): (runs: seq<CpuTable>)
    ensures |runs| == |traces|
  {
    seq(|traces|, t requires 0 <= t < |traces| =>
      Records.SortedTable(Records.Grouped(traces[t].records)))
  }

  /** The run length get_cpu_dict reads for every run. */
  function Durations(traces: seq<Trace>): (durations: seq<int>)
    requires WellFormedTraces(traces)
    ensures |durations| == |traces|
  {
    seq(|traces|, t requires 0 <= t < |traces| => Records.RunLength(traces[t].lines))
  }

  lemma TablesNonEmpty(traces: seq<Trace>)
    ensures forall r :: 0 <= r < |traces| ==> NonEmptyLists(Tables(traces)[r])
  {
    forall r | 0 <= r < |traces| ensures NonEmptyLists(Tables(traces)[r]) {
      Records.CpuDictNonEmpty(traces[r].records);
    }
  }

  /** The worst run's table after the profile of all runs has been subtracted. */
  ghost function Cleaned(traces: seq<Trace>): CpuTable
    requires traces != [] && WellFormedTraces(traces)
  {
    var runs := Tables(traces);
    var w := WorstRun(Durations(traces));
    TablesNonEmpty(traces);
    Profile.ProfileCoversRun(runs, w);
    Subtraction.CleanTable(runs[w], Profile.AverageTable(Profile.Gathered(runs), |runs|))
  }

  /** Some cpu of the table still has a workload timing. */
  ghost predicate HasWorkload(table: CpuTable, workloadName: string)
  {
    exists c :: c in table && workloadName in table[c] && table[c][workloadName] != []
  }

  /** The workload list is empty exactly when no cpu has a workload timing left. */
  lemma WorkloadEmpty(table: CpuTable, order: seq<int>, workloadName: string)
    requires Separation.Listing(order, table.Keys)
    ensures Separation.WorkloadAcross(table, order, workloadName) == [] <==> !HasWorkload(table, workloadName)
  {
    var w := Separation.WorkloadAcross(table, order, workloadName);
    if HasWorkload(table, workloadName) {
      var c :| c in table && workloadName in table[c] && table[c][workloadName] != [];
      var t := table[c][workloadName][0];
      Separation.WorkloadMembers(table, order, workloadName, t);
    }
    if w != [] {
      Separation.WorkloadMembers(table, order, workloadName, w[0]);
    }
  }

  /** The starmap of get_cpu_dict over the runs. */
  method BuildRuns(traces: seq<Trace>) returns (runs: seq<CpuTable>, durations: seq<int>)
    requires WellFormedTraces(traces)
    ensures runs == Tables(traces) && durations == Durations(traces)
  {
    runs, durations := [], [];
    for i := 0 to |traces|
      invariant runs == Tables(traces[..i]) && durations == Durations(traces[..i])
    {
      var table, totalDuration := Records.GetCpuDict(traces[i].records, traces[i].lines);
      runs := runs + [table];
      durations := durations + [totalDuration];
    }
    assert traces[..|traces|] == traces;
  }

  /** Steps :77-84 of main: the worst run's table with the profile of all runs
      subtracted. */
  method CleanedWorstRun(traces: seq<Trace>) returns (cleaned: CpuTable)
    requires traces != [] && WellFormedTraces(traces)
    ensures cleaned == Cleaned(traces)
    ensures cleaned.Keys == Tables(traces)[WorstRun(Durations(traces))].Keys
  {
    var runs, durations := BuildRuns(traces);
    var worst := WorstRun(durations);
    TablesNonEmpty(traces);
    var averageDict := Profile.ComputeAverageTrace(runs);
    Profile.ProfileCoversRun(runs, worst);
    var worstTrace := new Subtraction.TraceTable(runs[worst]);
    worstTrace.CleanWorstTrace(averageDict);
    cleaned := worstTrace.cpus;
  }

  /** Step :94 of main: every cpu's noise list is replaced by its merged list, which is
      the placeholder or separated intervals. */
  method MergeNoise(noiseDict: map<int, seq<Timing>>, syncStartDiff: int, mergeThreshold: int)
    returns (merged: map<int, seq<Timing>>)
    ensures merged.Keys == noiseDict.Keys
    ensures forall c :: c in merged ==> merged[c] == Merge.Combine(noiseDict[c], syncStartDiff, mergeThreshold)
    ensures forall c :: c in merged ==>
              merged[c] == [Merge.Placeholder] || Merge.Separated(merged[c], mergeThreshold)
  {
    var noiseTable := new Merge.NoiseTable(noiseDict);
    noiseTable.CombineConsecutiveNoises(syncStartDiff, mergeThreshold);
    merged := noiseTable.cpus;
    forall c | c in merged
      ensures merged[c] == [Merge.Placeholder] || Merge.Separated(merged[c], mergeThreshold)
    {
      Merge.CombineSeparated(noiseDict[c], syncStartDiff, mergeThreshold);
    }
  }

  /** s is the earliest start of a workload timing on any cpu of the table. */
  ghost predicate EarliestWorkloadStart(table: CpuTable, workloadName: string, s: int)
  {
    && (exists c, t :: c in table && workloadName in table[c] && t in table[c][workloadName] && t.start == s)
    && (forall c, t :: c in table && workloadName in table[c] && t in table[c][workloadName] ==> s <= t.start)
  }

  /** The anchor of :89-91, the first start of the sorted workload list, is the earliest
      workload start of the table, whatever order the cpus were visited in. */
  lemma AnchorIsEarliest(table: CpuTable, order: seq<int>, workloadName: string)
    requires Separation.Listing(order, table.Keys)
    requires Separation.WorkloadAcross(table, order, workloadName) != []
    ensures EarliestWorkloadStart(table, workloadName,
                                  SortByStart(Separation.WorkloadAcross(table, order, workloadName))[0].start)
  {
    var w := Separation.WorkloadAcross(table, order, workloadName);
    var s := SortByStart(w)[0].start;
    Separation.EarliestStart(w);
    var i :| 0 <= i < |w| && w[i].start == s;
    Separation.WorkloadMembers(table, order, workloadName, w[i]);
    forall c, t | c in table && workloadName in table[c] && t in table[c][workloadName]
      ensures s <= t.start
    {
      Separation.WorkloadMembers(table, order, workloadName, t);
      var j :| 0 <= j < |w| && w[j] == t;
    }
  }

  /** A cpu's configuration entry: the merged list of its noise, collected in the order
      its tasks were visited and sorted by start. */
  ghost predicate MergedNoiseOf(merged: seq<Timing>, tasks: TaskTable, order: seq<string>, workloadName: string,
                                syncStartDiff: int, mergeThreshold: int)
  {
    && Separation.Listing(order, tasks.Keys)
    && merged == Merge.Combine(SortByStart(Separation.Collect(tasks, order, workloadName, Separation.Noise)),
                               syncStartDiff, mergeThreshold)
  }

  /** main from the runs' traces to the configuration it writes: for every cpu of the
      worst run, the merged list of its cleaned noise, anchored on the earliest workload
      start. The noise list of a cpu depends on the order its tasks were visited in,
      returned as taskOrders. */
  method CompileNoiseConfig(traces: seq<Trace>, workloadName: string, mergeThreshold: int)
    returns (result: Result<map<int, seq<Timing>>, Error>,
             ghost taskOrders: map<int, seq<string>>, ghost syncStartDiff: int)
    requires WellFormedTraces(traces)
    ensures traces == [] <==> result == Failure(NoTraces)
    ensures result == Failure(NoWorkload) <==> traces != [] && !HasWorkload(Cleaned(traces), workloadName)
    ensures result.Success? ==>
              traces != [] && result.value.Keys == Cleaned(traces).Keys
              && result.value.Keys == Tables(traces)[WorstRun(Durations(traces))].Keys
    ensures result.Success? ==> EarliestWorkloadStart(Cleaned(traces), workloadName, syncStartDiff)
    ensures result.Success? ==>
              forall c :: c in result.value ==>
                c in Cleaned(traces) && c in taskOrders
                && MergedNoiseOf(result.value[c], Cleaned(traces)[c], taskOrders[c], workloadName,
                                 syncStartDiff, mergeThreshold)
    ensures result.Success? ==>
              forall c :: c in result.value ==>
                result.value[c] == [Merge.Placeholder] || Merge.Separated(result.value[c], mergeThreshold)
  {
    if |traces| == 0 {
      return Failure(NoTraces), map[], 0;
    }
    var cleaned := CleanedWorstRun(traces);
    var noiseDict, workloadExec, cpuOrder, orders := Separation.SeparateTraces(cleaned, workloadName);
    taskOrders := orders;
    WorkloadEmpty(cleaned, cpuOrder, workloadName);
    if |workloadExec| > 0 {
      AnchorIsEarliest(cleaned, cpuOrder, workloadName);
    }
    workloadExec := SortByStart(workloadExec);
    if |workloadExec| == 0 {
      return Failure(NoWorkload), taskOrders, 0;
    }
    syncStartDiff := workloadExec[0].start;
    var merged := MergeNoise(noiseDict, workloadExec[0].start, mergeThreshold);
    result := Success(merged);
  }
}
