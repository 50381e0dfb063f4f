/** clean_worst_trace: for every averaged occurrence of a (cpu, task), the worst run's
    occurrence whose duration is nearest the average is shortened by the average, or
    removed when it is shorter than the average. Matching never crosses cpus or tasks. */
module Subtraction {
  import opened Timings

  /** Python's `min(range(len(l)), key=lambda i: abs(l[i][1] - average))`: the first
      index whose duration is nearest the average. */
  function ClosestIndex(timings: seq<Timing>, average: int): (k: nat)
    requires |timings| > 0
    ensures k < |timings|
    ensures forall j :: 0 <= j < |timings| ==>
              Abs(timings[k].duration - average) <= Abs(timings[j].duration - average)
    ensures forall j :: 0 <= j < k ==>
              Abs(timings[j].duration - average) > Abs(timings[k].duration - average)
    decreases |timings|
  {
    if |timings| == 1 then 0
    else
      var k := ClosestIndex(timings[..|timings| - 1], average);
      if Abs(timings[|timings| - 1].duration - average) < Abs(timings[k].duration - average)
      then |timings| - 1
      else k
  }

  /** One iteration of the loop over the averaged entries: exactly the first nearest
      occurrence is touched; it is removed when its duration is below the average and
      otherwise keeps its start and loses the average from its duration. */
  function SubtractOne(timings: seq<Timing>, average: int): (r: seq<Timing>)
    requires |timings| > 0
    ensures var k := ClosestIndex(timings, average);
            if timings[k].duration < average then
              && |r| == |timings| - 1
              && (forall j :: 0 <= j < k ==> r[j] == timings[j])
              && (forall j :: k <= j < |r| ==> r[j] == timings[j + 1])
            else
              && |r| == |timings|
              && r[k] == Timing(timings[k].start, timings[k].duration - average)
              && r[k].duration >= 0
              && (forall j :: 0 <= j < |timings| && j != k ==> r[j] == timings[j])
  {
    var k := ClosestIndex(timings, average);
    if timings[k].duration - average < 0 then timings[..k] + timings[k + 1..]
    else timings[k := Timing(timings[k].start, timings[k].duration - average)]
  }

  /** The whole loop over the averaged entries of one (cpu, task), which stops as soon
      as the list is empty. */
  function Subtract(timings: seq<Timing>, averaged: seq<Timing>): seq<Timing>
    decreases |averaged|
  {
    if averaged == [] || timings == [] then timings
    else Subtract(SubtractOne(timings, averaged[0].duration), averaged[1..])
  }

  lemma SubtractOneSorted(timings: seq<Timing>, average: int)
    requires |timings| > 0 && SortedByStart(timings)
    ensures SortedByStart(SubtractOne(timings, average))
  {
    var k := ClosestIndex(timings, average);
    var r := SubtractOne(timings, average);
    if timings[k].duration < average {
      forall i, j | 0 <= i < j < |r| ensures r[i].start <= r[j].start {
        var i' := if i < k then i else i + 1;
        var j' := if j < k then j else j + 1;
        assert r[i] == timings[i'] && r[j] == timings[j'];
      }
    }
  }

  /** Removing one timing keeps durations non-negative and removes its duration. */
  lemma RemovedTotal(timings: seq<Timing>, k: nat, r: seq<Timing>)
    requires k < |timings| && NonNegativeDurations(timings)
    requires |r| == |timings| - 1
    requires forall j :: 0 <= j < k ==> r[j] == timings[j]
    requires forall j :: k <= j < |r| ==> r[j] == timings[j + 1]
    ensures NonNegativeDurations(r) && TotalDuration(r) == TotalDuration(timings) - timings[k].duration
  {
    assert r == timings[..k] + timings[k + 1..];
    TotalDurationRemove(timings, k);
    forall i | 0 <= i < |r| ensures r[i].duration >= 0 {
      assert r[i] == if i < k then timings[i] else timings[i + 1];
    }
  }

  /** Replacing one timing by one of non-negative duration keeps durations non-negative. */
  lemma ReducedTotal(timings: seq<Timing>, k: nat, t: Timing, r: seq<Timing>)
    requires k < |timings| && NonNegativeDurations(timings) && t.duration >= 0
    requires |r| == |timings| && r[k] == t
    requires forall j :: 0 <= j < |timings| && j != k ==> r[j] == timings[j]
    ensures NonNegativeDurations(r) && TotalDuration(r) == TotalDuration(timings) - timings[k].duration + t.duration
  {
    assert r == timings[k := t];
    TotalDurationUpdate(timings, k, t);
    forall i | 0 <= i < |r| ensures r[i].duration >= 0 {
      assert r[i] == if i == k then t else timings[i];
    }
  }

  lemma SubtractOneTotal(timings: seq<Timing>, average: int)
    requires |timings| > 0 && NonNegativeDurations(timings) && average >= 0
    ensures var r := SubtractOne(timings, average);
            && NonNegativeDurations(r)
            && TotalDuration(r) <= TotalDuration(timings) <= TotalDuration(r) + average
  {
    var k := ClosestIndex(timings, average);
    var r := SubtractOne(timings, average);
    if timings[k].duration < average {
      RemovedTotal(timings, k, r);
    } else {
      ReducedTotal(timings, k, Timing(timings[k].start, timings[k].duration - average), r);
    }
  }

  /** Per (cpu, task), the subtraction never lengthens the list and removes at most one
      occurrence per averaged entry. */
  lemma {:induction false} SubtractLength(timings: seq<Timing>, averaged: seq<Timing>)
    ensures |timings| - |averaged| <= |Subtract(timings, averaged)| <= |timings|
    decreases |averaged|
  {
    if averaged != [] && timings != [] {
      SubtractLength(SubtractOne(timings, averaged[0].duration), averaged[1..]);
    }
  }

  /** The bounds of one subtraction step and of the rest of the loop add up. */
  lemma TotalsChain(timings: seq<Timing>, once: seq<Timing>, rest: seq<Timing>, averaged: seq<Timing>)
    requires averaged != []
    requires TotalDuration(once) <= TotalDuration(timings) <= TotalDuration(once) + averaged[0].duration
    requires TotalDuration(rest) <= TotalDuration(once) <= TotalDuration(rest) + TotalDuration(averaged[1..])
    ensures TotalDuration(rest) <= TotalDuration(timings) <= TotalDuration(rest) + TotalDuration(averaged)
  {
    TotalDurationRemove(averaged, 0);
    assert averaged[..0] + averaged[1..] == averaged[1..];
  }

  /** Per (cpu, task), with non-negative durations and averages: durations stay
      non-negative, and the total duration drops by at least 0 and at most the sum of
      the averaged durations. */
  lemma {:induction false} SubtractTotal(timings: seq<Timing>, averaged: seq<Timing>)
    requires NonNegativeDurations(timings) && NonNegativeDurations(averaged)
    ensures var r := Subtract(timings, averaged);
            && NonNegativeDurations(r)
            && TotalDuration(r) <= TotalDuration(timings) <= TotalDuration(r) + TotalDuration(averaged)
    decreases |averaged|
  {
    if averaged == [] {
    } else if timings == [] {
      TotalDurationNonNegative(averaged);
    } else {
      var once := SubtractOne(timings, averaged[0].duration);
      SubtractOneTotal(timings, averaged[0].duration);
      SubtractTotal(once, averaged[1..]);
      TotalsChain(timings, once, Subtract(once, averaged[1..]), averaged);
    }
  }

  /** Per (cpu, task), a start-ordered list stays start-ordered. */
  lemma {:induction false} SubtractSorted(timings: seq<Timing>, averaged: seq<Timing>)
    requires SortedByStart(timings)
    ensures SortedByStart(Subtract(timings, averaged))
    decreases |averaged|
  {
    if averaged != [] && timings != [] {
      SubtractOneSorted(timings, averaged[0].duration);
      SubtractSorted(SubtractOne(timings, averaged[0].duration), averaged[1..]);
    }
  }

  lemma StartsRemove(timings: seq<Timing>, k: nat)
    requires k < |timings|
    ensures multiset(Starts(timings[..k] + timings[k + 1..])) <= multiset(Starts(timings))
  {
    var all := Starts(timings);
    var kept := Starts(timings[..k] + timings[k + 1..]);
    assert kept == all[..k] + all[k + 1..];
    assert all == all[..k] + [all[k]] + all[k + 1..];
    assert multiset(all) == multiset(all[..k]) + multiset{all[k]} + multiset(all[k + 1..]);
  }

  lemma SubtractOneStarts(timings: seq<Timing>, average: int)
    requires |timings| > 0
    ensures multiset(Starts(SubtractOne(timings, average))) <= multiset(Starts(timings))
  {
    var k := ClosestIndex(timings, average);
    var d := timings[k].duration;
    if d < average {
      assert SubtractOne(timings, average) == timings[..k] + timings[k + 1..];
      StartsRemove(timings, k);
    } else {
      var t := Timing(timings[k].start, d - average);
      assert SubtractOne(timings, average) == timings[k := t];
      assert Starts(timings[k := t]) == Starts(timings);
    }
  }

  /** Per (cpu, task), no start time is invented: the remaining starts are some of the
      original ones. */
  lemma {:induction false} SubtractStarts(timings: seq<Timing>, averaged: seq<Timing>)
    ensures multiset(Starts(Subtract(timings, averaged))) <= multiset(Starts(timings))
    decreases |averaged|
  {
    if averaged != [] && timings != [] {
      SubtractOneStarts(timings, averaged[0].duration);
      SubtractStarts(SubtractOne(timings, averaged[0].duration), averaged[1..]);
    }
  }

  /** The loop of clean_worst_trace over one (cpu, task)'s averaged entries. */
  method CleanTimings(timings: seq<Timing>, averaged: seq<Timing>) returns (cleaned: seq<Timing>)
    ensures cleaned == Subtract(timings, averaged)
  {
    cleaned := timings;
    for i := 0 to |averaged|
      invariant Subtract(cleaned, averaged[i..]) == Subtract(timings, averaged)
    {
      if |cleaned| <= 0 {
        break;
      }
      assert averaged[i..][1..] == averaged[i + 1..];
      var duration := averaged[i].duration;
      var closestIdx := ClosestIndex(cleaned, duration);
      var closest := cleaned[closestIdx];
      if closest.duration - duration < 0 {
        cleaned := cleaned[..closestIdx] + cleaned[closestIdx + 1..];
      } else {
        cleaned := cleaned[closestIdx := Timing(closest.start, closest.duration - duration)];
      }
    }
  }

  /** Every (cpu, task) of the table has an averaged entry list; otherwise the script's
      lookup average_dict[cpu][task] raises KeyError. A cpu without tasks is never
      looked up. */
  ghost predicate Profiled(table: CpuTable, averageDict: CpuTable)
  {
    forall c, k :: c in table && k in table[c] ==> c in averageDict && k in averageDict[c]
  }

  /** The worst run's table after clean_worst_trace. */
  function CleanTable(table: CpuTable, averageDict: CpuTable): CpuTable
    requires Profiled(table, averageDict)
  {
    map c | c in table :: map k | k in table[c] :: Subtract(table[c][k], averageDict[c][k])
  }

  /** The subtraction keeps every cpu and task, and per (cpu, task) the list does not
      grow, its total duration does not grow, its durations stay non-negative and its
      start order is kept. */
  lemma CleanTableShrinks(table: CpuTable, averageDict: CpuTable)
    requires Profiled(table, averageDict)
    requires forall c, k :: c in table && k in table[c] ==> NonNegativeDurations(table[c][k])
    requires forall c, k :: c in averageDict && k in averageDict[c] ==> NonNegativeDurations(averageDict[c][k])
    ensures var cleaned := CleanTable(table, averageDict);
            && cleaned.Keys == table.Keys
            && forall c :: c in cleaned ==> cleaned[c].Keys == table[c].Keys
    ensures var cleaned := CleanTable(table, averageDict);
            forall c, k :: c in cleaned && k in cleaned[c] ==>
              && |cleaned[c][k]| <= |table[c][k]|
              && TotalDuration(cleaned[c][k]) <= TotalDuration(table[c][k])
              && NonNegativeDurations(cleaned[c][k])
              && (SortedByStart(table[c][k]) ==> SortedByStart(cleaned[c][k]))
  {
    var cleaned := CleanTable(table, averageDict);
    forall c, k | c in cleaned && k in cleaned[c]
      ensures && |cleaned[c][k]| <= |table[c][k]|
              && TotalDuration(cleaned[c][k]) <= TotalDuration(table[c][k])
              && NonNegativeDurations(cleaned[c][k])
              && (SortedByStart(table[c][k]) ==> SortedByStart(cleaned[c][k]))
    {
      SubtractLength(table[c][k], averageDict[c][k]);
      SubtractTotal(table[c][k], averageDict[c][k]);
      if SortedByStart(table[c][k]) {
        SubtractSorted(table[c][k], averageDict[c][k]);
      }
    }
  }

  /** The inner loop of clean_worst_trace over the tasks of one cpu, each looked up in
      the average dict as average_dict[cpu][task]. */
  method CleanTasks(tasks: TaskTable, averageDict: CpuTable, cpu: int) returns (cleaned: TaskTable)
    requires forall k :: k in tasks ==> cpu in averageDict && k in averageDict[cpu]
    ensures cleaned.Keys == tasks.Keys
    ensures forall k :: k in cleaned ==> cleaned[k] == Subtract(tasks[k], averageDict[cpu][k])
  {
    cleaned := tasks;
    var todo := tasks.Keys;
    while todo != {}
      invariant todo <= cleaned.Keys && cleaned.Keys == tasks.Keys
      invariant forall k :: k in todo ==> cleaned[k] == tasks[k]
      invariant forall k :: k in cleaned && k !in todo ==> cleaned[k] == Subtract(tasks[k], averageDict[cpu][k])
      decreases todo
    {
      SomeTask(todo);
      var task :| task in todo;
      var timings := CleanTimings(cleaned[task], averageDict[cpu][task]);
      cleaned := cleaned[task := timings];
      todo := todo - {task};
    }
  }

  /** A table holding every task of the cpu, each cleaned by its averaged entries, is
      the cpu's entry of the cleaned table. */
  lemma CleanedTasksOf(table: CpuTable, averageDict: CpuTable, cpu: int, cleaned: TaskTable)
    requires Profiled(table, averageDict) && cpu in table
    requires cleaned.Keys == table[cpu].Keys
    requires forall k :: k in cleaned ==> cleaned[k] == Subtract(table[cpu][k], averageDict[cpu][k])
    ensures cleaned == CleanTable(table, averageDict)[cpu]
  {
  }

  /** The worst run's table, which clean_worst_trace edits in place. */
  class TraceTable {
    var cpus: CpuTable

    constructor (table: CpuTable)
      ensures cpus == table
    {
      cpus := table;
    }

    method CleanWorstTrace(averageDict: CpuTable)
      requires Profiled(cpus, averageDict)
      modifies this
      ensures cpus == CleanTable(old(cpus), averageDict)
    {
      ghost var original := cpus;
      var todo := cpus.Keys;
      while todo != {}
        invariant todo <= cpus.Keys && cpus.Keys == original.Keys
        invariant forall c :: c in todo ==> cpus[c] == original[c]
        invariant forall c :: c in cpus && c !in todo ==> cpus[c] == CleanTable(original, averageDict)[c]
        decreases todo
      {
        SomeCpu(todo);
        var cpu :| cpu in todo;
        var tasks := CleanTasks(cpus[cpu], averageDict, cpu);
        CleanedTasksOf(original, averageDict, cpu, tasks);
        cpus := cpus[cpu := tasks];
        todo := todo - {cpu};
      }
      ghost var expected := CleanTable(original, averageDict);
      assert cpus.Keys == expected.Keys;
      assert forall c :: c in cpus ==> cpus[c] == expected[c];
      assert cpus == expected;
    }
  }
}
