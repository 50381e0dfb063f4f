/** seperate_traces: the workload task's timings are pooled across cpus, and every cpu's
    other tasks become one start-sorted list of noise events. Dictionaries are visited
    in an order the model does not fix; each method also returns, as a ghost, the order
    in which it visited the keys, and its contract is stated in terms of that order. */
module Separation {
  import opened Timings

  /** Which of a cpu's task lists a collection takes. */
  datatype Share = Workload | Noise | Every

  /** Whether the list of task k belongs to the share. */
  predicate InShare(k: string, workloadName: string, share: Share)
  {
    match share
    case Workload => k == workloadName
    case Noise => k != workloadName
    case Every => true
  }

  /** order visits every key of keys exactly once. */
  ghost predicate Listing<K>(order: seq<K>, keys: set<K>)
  {
    && (forall i :: 0 <= i < |order| ==> order[i] in keys)
    && (forall k :: k in keys ==> k in order)
    && (forall i, j :: 0 <= i < j < |order| ==> order[i] != order[j])
  }

  /** The lists of the tasks in order that belong to the share, concatenated. */
  function Collect(tasks: TaskTable, order: seq<string>, workloadName: string, share: Share): seq<Timing>
    requires forall i :: 0 <= i < |order| ==> order[i] in tasks
    decreases |order|
  {
    if order == [] then []
    else
      var k := order[|order| - 1];
      Collect(tasks, order[..|order| - 1], workloadName, share)
      + (if InShare(k, workloadName, share) then tasks[k] else [])
  }

  /** Whatever the visiting order, the workload list of a cpu is exactly the list of the
      task named workloadName, or nothing when the cpu has no such task. */
  lemma WorkloadCollect(tasks: TaskTable, order: seq<string>, workloadName: string)
    requires Listing(order, tasks.Keys)
    ensures Collect(tasks, order, workloadName, Workload)
            == if workloadName in tasks then tasks[workloadName] else []
  {
    if workloadName in tasks {
      var i :| 0 <= i < |order| && order[i] == workloadName;
      CollectSplit(tasks, order, i, workloadName, Workload);
      CollectWithout(tasks, order[..i], workloadName);
      CollectWithout(tasks, order[i + 1..], workloadName);
    } else {
      CollectWithout(tasks, order, workloadName);
    }
  }

  /** Collecting around the key at index i. */
  lemma CollectSplit(tasks: TaskTable, order: seq<string>, i: nat, workloadName: string, share: Share)
    requires forall j :: 0 <= j < |order| ==> order[j] in tasks
    requires i < |order|
    ensures Collect(tasks, order, workloadName, share)
            == Collect(tasks, order[..i], workloadName, share)
               + (if InShare(order[i], workloadName, share) then tasks[order[i]] else [])
               + Collect(tasks, order[i + 1..], workloadName, share)
  {
    var one := [order[i]];
    assert one[..0] == [];
    CollectAppend(tasks, order[..i], one, workloadName, share);
    CollectAppend(tasks, order[..i] + one, order[i + 1..], workloadName, share);
    assert order == order[..i] + one + order[i + 1..];
  }

  /** Visiting one more key keeps the visiting order a listing of the visited keys. */
  lemma ListingExtend<K>(order: seq<K>, keys: set<K>, rest: set<K>, k: K)
    requires rest <= keys && k in rest && Listing(order, keys - rest)
    ensures Listing(order + [k], keys - (rest - {k}))
  {
    var next := order + [k];
    forall i, j | 0 <= i < j < |next| ensures next[i] != next[j] {
      if j == |order| {
        assert next[i] == order[i] && order[i] !in rest;
      } else {
        assert next[i] == order[i] && next[j] == order[j];
      }
    }
    forall x | x in keys - (rest - {k}) ensures x in next {
      if x != k {
        assert x in order;
        var i :| 0 <= i < |order| && order[i] == x;
        assert next[i] == x;
      } else {
        assert next[|order|] == k;
      }
    }
  }

  /** A visiting order that misses the workload task collects no workload timings. */
  lemma {:induction false} CollectWithout(tasks: TaskTable, order: seq<string>, workloadName: string)
    requires forall i :: 0 <= i < |order| ==> order[i] in tasks && order[i] != workloadName
    ensures Collect(tasks, order, workloadName, Workload) == []
    decreases |order|
  {
    if order != [] {
      CollectWithout(tasks, order[..|order| - 1], workloadName);
    }
  }

  lemma {:induction false} CollectAppend(tasks: TaskTable, a: seq<string>, b: seq<string>, workloadName: string, share: Share)
    requires forall i :: 0 <= i < |a| ==> a[i] in tasks
    requires forall i :: 0 <= i < |b| ==> b[i] in tasks
    ensures Collect(tasks, a + b, workloadName, share)
            == Collect(tasks, a, workloadName, share) + Collect(tasks, b, workloadName, share)
    decreases |b|
  {
    if b == [] {
      assert a + b == a;
    } else {
      var init, k := b[..|b| - 1], b[|b| - 1];
      var piece := if InShare(k, workloadName, share) then tasks[k] else [];
      assert forall i :: 0 <= i < |a + b| ==> (a + b)[i] in tasks;
      assert (a + b)[..|a + b| - 1] == a + init && (a + b)[|a + b| - 1] == k;
      assert Collect(tasks, a + b, workloadName, share) == Collect(tasks, a + init, workloadName, share) + piece;
      CollectAppend(tasks, a, init, workloadName, share);
      assert Collect(tasks, b, workloadName, share) == Collect(tasks, init, workloadName, share) + piece;
    }
  }

  /** Workload and noise together hold every timing of the cpu, each exactly once. */
  lemma {:induction false} CollectPartition(tasks: TaskTable, order: seq<string>, workloadName: string)
    requires forall i :: 0 <= i < |order| ==> order[i] in tasks
    ensures multiset(Collect(tasks, order, workloadName, Workload))
            + multiset(Collect(tasks, order, workloadName, Noise))
            == multiset(Collect(tasks, order, workloadName, Every))
    decreases |order|
  {
    if order != [] {
      CollectPartition(tasks, order[..|order| - 1], workloadName);
    }
  }

  /** A timing is among a cpu's noise exactly when some other task of the cpu has it. */
  lemma {:induction false} CollectNoiseMembers(tasks: TaskTable, order: seq<string>, workloadName: string, t: Timing)
    requires Listing(order, tasks.Keys)
    ensures t in Collect(tasks, order, workloadName, Noise) <==>
              exists k :: k in tasks && k != workloadName && t in tasks[k]
  {
    CollectMembers(tasks, order, workloadName, t);
    if exists k :: k in tasks && k != workloadName && t in tasks[k] {
      var k :| k in tasks && k != workloadName && t in tasks[k];
      var i :| 0 <= i < |order| && order[i] == k;
    }
  }

  lemma {:induction false} CollectMembers(tasks: TaskTable, order: seq<string>, workloadName: string, t: Timing)
    requires forall i :: 0 <= i < |order| ==> order[i] in tasks
    ensures t in Collect(tasks, order, workloadName, Noise) <==>
              exists i :: 0 <= i < |order| && order[i] != workloadName && t in tasks[order[i]]
    decreases |order|
  {
    if order != [] {
      var init := order[..|order| - 1];
      CollectMembers(tasks, init, workloadName, t);
      if exists i :: 0 <= i < |order| && order[i] != workloadName && t in tasks[order[i]] {
        var i :| 0 <= i < |order| && order[i] != workloadName && t in tasks[order[i]];
        if i < |init| {
          assert init[i] == order[i];
        }
      }
      if exists i :: 0 <= i < |init| && init[i] != workloadName && t in tasks[init[i]] {
        var i :| 0 <= i < |init| && init[i] != workloadName && t in tasks[init[i]];
        assert order[i] == init[i];
      }
    }
  }

  /** The inner loop over one cpu's tasks: each list goes to the workload or the noise. */
  method SeparateTasks(tasks: TaskTable, workloadName: string)
    returns (noise: seq<Timing>, workload: seq<Timing>, ghost order: seq<string>)
    ensures Listing(order, tasks.Keys)
    ensures noise == Collect(tasks, order, workloadName, Noise)
    ensures workload == Collect(tasks, order, workloadName, Workload)
    ensures workload == if workloadName in tasks then tasks[workloadName] else []
  {
    noise, workload, order := [], [], [];
    var rest := tasks.Keys;
    while rest != {}
      invariant rest <= tasks.Keys
      invariant Listing(order, tasks.Keys - rest)
      invariant noise == Collect(tasks, order, workloadName, Noise)
      invariant workload == Collect(tasks, order, workloadName, Workload)
      decreases rest
    {
      SomeTask(rest);
      var task :| task in rest;
      if task == workloadName {
        workload := workload + tasks[task];
      } else {
        noise := noise + tasks[task];
      }
      assert (order + [task])[..|order|] == order;
      ListingExtend(order, tasks.Keys, rest, task);
      order := order + [task];
      rest := rest - {task};
    }
    WorkloadCollect(tasks, order, workloadName);
  }

  /** The workload lists of the cpus in order, concatenated. */
  function WorkloadAcross(cpuDict: CpuTable, order: seq<int>, workloadName: string): seq<Timing>
    requires forall i :: 0 <= i < |order| ==> order[i] in cpuDict
    decreases |order|
  {
    if order == [] then []
    else
      var c := order[|order| - 1];
      WorkloadAcross(cpuDict, order[..|order| - 1], workloadName)
      + (if workloadName in cpuDict[c] then cpuDict[c][workloadName] else [])
  }

  /** A cpu's noise list: the start-sorted concatenation of its non-workload lists in
      the order its tasks were visited. */
  ghost predicate NoiseOf(noise: seq<Timing>, tasks: TaskTable, order: seq<string>, workloadName: string)
  {
    Listing(order, tasks.Keys) && noise == SortByStart(Collect(tasks, order, workloadName, Noise))
  }

  /** The cpus of cpuOrder are those visited: all but rest, each once. */
  ghost predicate Visited(cpuDict: CpuTable, rest: set<int>, cpuOrder: seq<int>)
  {
    rest <= cpuDict.Keys && Listing(cpuOrder, cpuDict.Keys - rest)
  }

  /** Each visited cpu has its noise list. */
  ghost predicate NoiseRecorded(cpuDict: CpuTable, workloadName: string, rest: set<int>,
                                noiseDict: map<int, seq<Timing>>, taskOrders: map<int, seq<string>>)
  {
    && noiseDict.Keys == cpuDict.Keys - rest && taskOrders.Keys == noiseDict.Keys
    && forall c :: c in noiseDict ==> NoiseOf(noiseDict[c], cpuDict[c], taskOrders[c], workloadName)
  }

  /** The workload list holds the visited cpus' workload lists in visiting order. */
  ghost predicate WorkloadRecorded(cpuDict: CpuTable, workloadName: string, workloadExec: seq<Timing>,
                                   cpuOrder: seq<int>)
  {
    && (forall i :: 0 <= i < |cpuOrder| ==> cpuOrder[i] in cpuDict)
    && workloadExec == WorkloadAcross(cpuDict, cpuOrder, workloadName)
  }

  lemma VisitedStep(cpuDict: CpuTable, rest: set<int>, cpuOrder: seq<int>, cpu: int)
    requires Visited(cpuDict, rest, cpuOrder) && cpu in rest
    ensures Visited(cpuDict, rest - {cpu}, cpuOrder + [cpu])
  {
    ListingExtend(cpuOrder, cpuDict.Keys, rest, cpu);
  }

  lemma NoiseStep(cpuDict: CpuTable, workloadName: string, rest: set<int>,
                  noiseDict: map<int, seq<Timing>>, taskOrders: map<int, seq<string>>,
                  cpu: int, noise: seq<Timing>, order: seq<string>)
    requires NoiseRecorded(cpuDict, workloadName, rest, noiseDict, taskOrders)
    requires rest <= cpuDict.Keys && cpu in rest && Listing(order, cpuDict[cpu].Keys)
    requires noise == Collect(cpuDict[cpu], order, workloadName, Noise)
    ensures NoiseRecorded(cpuDict, workloadName, rest - {cpu}, noiseDict[cpu := SortByStart(noise)],
                          taskOrders[cpu := order])
  {
  }

  lemma WorkloadStep(cpuDict: CpuTable, workloadName: string, workloadExec: seq<Timing>,
                     cpuOrder: seq<int>, cpu: int, workload: seq<Timing>, order: seq<string>)
    requires WorkloadRecorded(cpuDict, workloadName, workloadExec, cpuOrder)
    requires cpu in cpuDict && Listing(order, cpuDict[cpu].Keys)
    requires workload == Collect(cpuDict[cpu], order, workloadName, Workload)
    ensures WorkloadRecorded(cpuDict, workloadName, workloadExec + workload, cpuOrder + [cpu])
  {
    WorkloadCollect(cpuDict[cpu], order, workloadName);
    assert (cpuOrder + [cpu])[..|cpuOrder|] == cpuOrder;
  }

  /** seperate_traces: every cpu of the table gets the start-sorted concatenation of its
      non-workload lists, and the workload list is the concatenation, cpu by cpu, of
      the lists of the task named workloadName. */
  method SeparateTraces(cpuDict: CpuTable, workloadName: string)
    returns (noiseDict: map<int, seq<Timing>>, workloadExec: seq<Timing>,
             ghost cpuOrder: seq<int>, ghost taskOrders: map<int, seq<string>>)
    ensures Listing(cpuOrder, cpuDict.Keys)
    ensures noiseDict.Keys == cpuDict.Keys && taskOrders.Keys == cpuDict.Keys
    ensures forall c :: c in noiseDict ==> NoiseOf(noiseDict[c], cpuDict[c], taskOrders[c], workloadName)
    ensures workloadExec == WorkloadAcross(cpuDict, cpuOrder, workloadName)
  {
    noiseDict, workloadExec, cpuOrder, taskOrders := map[], [], [], map[];
    var rest := cpuDict.Keys;
    while rest != {}
      invariant Visited(cpuDict, rest, cpuOrder)
      invariant NoiseRecorded(cpuDict, workloadName, rest, noiseDict, taskOrders)
      invariant WorkloadRecorded(cpuDict, workloadName, workloadExec, cpuOrder)
      decreases rest
    {
      SomeCpu(rest);
      var cpu :| cpu in rest;
      var noise, workload, order := SeparateTasks(cpuDict[cpu], workloadName);
      VisitedStep(cpuDict, rest, cpuOrder, cpu);
      NoiseStep(cpuDict, workloadName, rest, noiseDict, taskOrders, cpu, noise, order);
      WorkloadStep(cpuDict, workloadName, workloadExec, cpuOrder, cpu, workload, order);
      workloadExec := workloadExec + workload;
      noiseDict := noiseDict[cpu := SortByStart(noise)];
      taskOrders := taskOrders[cpu := order];
      cpuOrder := cpuOrder + [cpu];
      rest := rest - {cpu};
    }
  }

  /** A cpu's noise list is sorted by start and is a permutation of its non-workload
      timings: a timing is in it exactly when some other task of the cpu has it. */
  lemma NoiseListShape(noise: seq<Timing>, tasks: TaskTable, order: seq<string>, workloadName: string, t: Timing)
    requires NoiseOf(noise, tasks, order, workloadName)
    ensures SortedByStart(noise)
    ensures multiset(noise) == multiset(Collect(tasks, order, workloadName, Noise))
    ensures t in noise <==> exists k :: k in tasks && k != workloadName && t in tasks[k]
  {
    CollectNoiseMembers(tasks, order, workloadName, t);
    assert t in noise <==> t in multiset(noise);
    assert t in Collect(tasks, order, workloadName, Noise)
           <==> t in multiset(Collect(tasks, order, workloadName, Noise));
  }

  /** A timing is in the workload list exactly when some cpu's workload task has it. */
  lemma {:induction false} WorkloadMembers(cpuDict: CpuTable, order: seq<int>, workloadName: string, t: Timing)
    requires Listing(order, cpuDict.Keys)
    ensures t in WorkloadAcross(cpuDict, order, workloadName) <==>
              exists c :: c in cpuDict && workloadName in cpuDict[c] && t in cpuDict[c][workloadName]
  {
    WorkloadPrefixMembers(cpuDict, order, workloadName, t);
    if exists c :: c in cpuDict && workloadName in cpuDict[c] && t in cpuDict[c][workloadName] {
      var c :| c in cpuDict && workloadName in cpuDict[c] && t in cpuDict[c][workloadName];
      var i :| 0 <= i < |order| && order[i] == c;
    }
  }

  lemma {:induction false} WorkloadPrefixMembers(cpuDict: CpuTable, order: seq<int>, workloadName: string, t: Timing)
    requires forall i :: 0 <= i < |order| ==> order[i] in cpuDict
    ensures t in WorkloadAcross(cpuDict, order, workloadName) <==>
              exists i :: 0 <= i < |order| && workloadName in cpuDict[order[i]]
                          && t in cpuDict[order[i]][workloadName]
    decreases |order|
  {
    if order != [] {
      var init := order[..|order| - 1];
      WorkloadPrefixMembers(cpuDict, init, workloadName, t);
      if exists i :: 0 <= i < |order| && workloadName in cpuDict[order[i]] && t in cpuDict[order[i]][workloadName] {
        var i :| 0 <= i < |order| && workloadName in cpuDict[order[i]] && t in cpuDict[order[i]][workloadName];
        if i < |init| {
          assert init[i] == order[i];
        }
      }
      if exists i :: 0 <= i < |init| && workloadName in cpuDict[init[i]] && t in cpuDict[init[i]][workloadName] {
        var i :| 0 <= i < |init| && workloadName in cpuDict[init[i]] && t in cpuDict[init[i]][workloadName];
        assert order[i] == init[i];
      }
    }
  }

  /** main sorts the workload timings and anchors on the first: that is the earliest
      workload start, and it is one of the workload's own starts. */
  lemma EarliestStart(workloadExec: seq<Timing>)
    requires |workloadExec| > 0
    ensures var sorted := SortByStart(workloadExec);
            && (exists i :: 0 <= i < |workloadExec| && workloadExec[i].start == sorted[0].start)
            && forall i :: 0 <= i < |workloadExec| ==> sorted[0].start <= workloadExec[i].start
  {
    var sorted := SortByStart(workloadExec);
    assert sorted[0] in multiset(workloadExec);
    forall i | 0 <= i < |workloadExec| ensures sorted[0].start <= workloadExec[i].start {
      assert workloadExec[i] in multiset(sorted);
      var j :| 0 <= j < |sorted| && sorted[j] == workloadExec[i];
    }
  }
}
