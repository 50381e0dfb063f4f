/** The record-building part of get_cpu_dict: matched trace lines become
    (cpu, task, start, duration) records grouped into a cpu -> task -> timings table
    whose lists are sorted by start, and the run length is read from the benchmark's
    "Total Duration" line. The regular expressions themselves are not modelled: the
    inputs are what they capture. */
module Records {
  import opened Timings

  /** One matched trace line: the cpu number, the captured task text, the start and the
      duration, both in nanoseconds. */
  datatype Record = Record(cpu: int, rawTask: string, start: int, duration: int)

  /** The index of the last ':' of s, if any. */
  function LastColon(s: string): (r: Option<nat>)
    ensures r.Some? ==> r.value < |s| && s[r.value] == ':'
                        && forall j :: r.value < j < |s| ==> s[j] != ':'
    ensures r.None? ==> forall j :: 0 <= j < |s| ==> s[j] != ':'
    decreases |s|
  {
    if s == [] then None
    else if s[|s| - 1] == ':' then Some(|s| - 1)
    else LastColon(s[..|s| - 1])
  }

  /** Python's `s.rsplit(":", 1)[0]`: the text before the last colon, or all of s when it
      has none. */
  function BeforeLastColon(s: string): string
  {
    match LastColon(s)
    case None => s
    case Some(i) => s[..i]
  }

  /** The task label of a record: the captured name up to its last colon, or "nmi" when
      that is empty. */
  function TaskLabel(rawTask: string): (taskName: string)
    ensures taskName != []
  {
    var name := BeforeLastColon(rawTask);
    if name == [] then "nmi" else name
  }

  /** The usual capture, a name followed by ":" and a colon-free suffix (the thread id),
      is labelled with the name. */
  lemma TaskLabelOfName(name: string, suffix: string)
    requires name != [] && ':' !in suffix
    ensures TaskLabel(name + ":" + suffix) == name
  {
    var s := name + ":" + suffix;
    assert s[|name|] == ':';
    assert forall j :: |name| < j < |s| ==> s[j] == suffix[j - |name| - 1];
    assert s[..|name|] == name;
  }

  /** A capture without any colon is its own label. */
  lemma TaskLabelWithoutColon(rawTask: string)
    requires rawTask != [] && ':' !in rawTask
    ensures TaskLabel(rawTask) == rawTask
  {
    assert forall j :: 0 <= j < |rawTask| ==> rawTask[j] in rawTask;
  }

  /** An empty capture, or one whose only colon comes first, is labelled "nmi". */
  lemma TaskLabelNmi(suffix: string)
    requires ':' !in suffix
    ensures TaskLabel("") == "nmi"
    ensures TaskLabel(":" + suffix) == "nmi"
  {
    var s := ":" + suffix;
    forall j | 0 < j < |s| ensures s[j] != ':' {
      assert s[j] == suffix[j - 1] && suffix[j - 1] in suffix;
    }
    assert s[0] == ':';
    var r := LastColon(s);
    assert r.Some?;
    assert r.value == 0;
  }

  /** The timings of the records of cpu c whose label is k, in record order. */
  function Matching(records: seq<Record>, c: int, k: string): seq<Timing>
    decreases |records|
  {
    if records == [] then []
    else
      var r := records[|records| - 1];
      Matching(records[..|records| - 1], c, k)
      + (if r.cpu == c && TaskLabel(r.rawTask) == k then [Timing(r.start, r.duration)] else [])
  }

  /** `cpu_dict.setdefault(cpu, {}).setdefault(task, []).append((start, duration))`. */
  function Appended(table: CpuTable, r: Record): CpuTable
  {
    var taskName := TaskLabel(r.rawTask);
    var tasks := TasksOf(table, r.cpu);
    var timings := if taskName in tasks then tasks[taskName] else [];
    table[r.cpu := tasks[taskName := timings + [Timing(r.start, r.duration)]]]
  }

  /** The table after appending every record in order. */
  function Grouped(records: seq<Record>): CpuTable
    decreases |records|
  {
    if records == [] then map[] else Appended(Grouped(records[..|records| - 1]), records[|records| - 1])
  }

  ghost predicate HasCpu(records: seq<Record>, c: int)
  {
    exists i :: 0 <= i < |records| && records[i].cpu == c
  }

  ghost predicate HasTask(records: seq<Record>, c: int, k: string)
  {
    exists i :: 0 <= i < |records| && records[i].cpu == c && TaskLabel(records[i].rawTask) == k
  }

  /** Grouping gives every (cpu, label) the timings of its records, in record order. */
  lemma {:induction false} GroupedLookup(records: seq<Record>, c: int, k: string)
    ensures Lookup(Grouped(records), c, k) == Matching(records, c, k)
    decreases |records|
  {
    if records != [] {
      GroupedLookup(records[..|records| - 1], c, k);
    }
  }

  lemma HasTaskSplit(records: seq<Record>, c: int, k: string)
    requires records != []
    ensures var r := records[|records| - 1];
            HasTask(records, c, k) <==>
              HasTask(records[..|records| - 1], c, k) || (r.cpu == c && TaskLabel(r.rawTask) == k)
  {
    var init := records[..|records| - 1];
    if HasTask(records, c, k) {
      var i :| 0 <= i < |records| && records[i].cpu == c && TaskLabel(records[i].rawTask) == k;
      if i < |init| { assert init[i] == records[i]; }
    }
    if HasTask(init, c, k) {
      var i :| 0 <= i < |init| && init[i].cpu == c && TaskLabel(init[i].rawTask) == k;
      assert records[i] == init[i];
    }
  }

  lemma HasCpuSplit(records: seq<Record>, c: int)
    requires records != []
    ensures HasCpu(records, c) <==> HasCpu(records[..|records| - 1], c) || records[|records| - 1].cpu == c
  {
    var init := records[..|records| - 1];
    if HasCpu(records, c) {
      var i :| 0 <= i < |records| && records[i].cpu == c;
      if i < |init| { assert init[i] == records[i]; }
    }
    if HasCpu(init, c) {
      var i :| 0 <= i < |init| && init[i].cpu == c;
      assert records[i] == init[i];
    }
  }

  /** Grouping has exactly the cpus and (cpu, label) pairs of the records. */
  lemma {:induction false} GroupedKeys(records: seq<Record>, c: int, k: string)
    ensures c in Grouped(records) <==> HasCpu(records, c)
    ensures c in Grouped(records) && k in Grouped(records)[c] <==> HasTask(records, c, k)
    decreases |records|
  {
    if records != [] {
      GroupedKeys(records[..|records| - 1], c, k);
      HasCpuSplit(records, c);
      HasTaskSplit(records, c, k);
    }
  }

  /** The table after the sorting loop: every list sorted by start. */
  function SortedTasks(tasks: TaskTable): TaskTable
  {
    map k | k in tasks :: SortByStart(tasks[k])
  }

  function SortedTable(table: CpuTable): CpuTable
  {
    map c | c in table :: SortedTasks(table[c])
  }

  /** A table with the same tasks whose every list is the sorted one is the sorted table. */
  lemma SortedTasksOf(tasks: TaskTable, sorted: TaskTable)
    requires sorted.Keys == tasks.Keys
    requires forall k :: k in sorted ==> sorted[k] == SortByStart(tasks[k])
    ensures sorted == SortedTasks(tasks)
  {
  }

  /** The inner sorting loop, over one cpu's tasks. */
  method SortTasks(tasks: TaskTable) returns (sorted: TaskTable)
    ensures sorted == SortedTasks(tasks)
  {
    sorted := tasks;
    var todo := tasks.Keys;
    while todo != {}
      invariant todo <= sorted.Keys && sorted.Keys == tasks.Keys
      invariant forall k :: k in todo ==> sorted[k] == tasks[k]
      invariant forall k :: k in sorted && k !in todo ==> sorted[k] == SortByStart(tasks[k])
      decreases todo
    {
      SomeTask(todo);
      var task :| task in todo;
      sorted := sorted[task := SortByStart(sorted[task])];
      todo := todo - {task};
    }
    SortedTasksOf(tasks, sorted);
  }

  /** The outer sorting loop, replacing every cpu's task lists by sorted ones. */
  method SortAll(table: CpuTable) returns (sorted: CpuTable)
    ensures sorted == SortedTable(table)
  {
    sorted := table;
    var todo := table.Keys;
    while todo != {}
      invariant todo <= sorted.Keys && sorted.Keys == table.Keys
      invariant forall c :: c in todo ==> sorted[c] == table[c]
      invariant forall c :: c in sorted && c !in todo ==> sorted[c] == SortedTable(table)[c]
      decreases todo
    {
      SomeCpu(todo);
      var cpu :| cpu in todo;
      var tasks := SortTasks(sorted[cpu]);
      sorted := sorted[cpu := tasks];
      todo := todo - {cpu};
    }
    ghost var expected := SortedTable(table);
    assert sorted.Keys == expected.Keys;
    assert forall c :: c in sorted ==> sorted[c] == expected[c];
  }

  /** The loop over the matched lines, appending each record to its (cpu, label) list. */
  method GroupRecords(records: seq<Record>) returns (cpuDict: CpuTable)
    ensures cpuDict == Grouped(records)
  {
    cpuDict := map[];
    for i := 0 to |records|
      invariant cpuDict == Grouped(records[..i])
    {
      assert records[..i + 1][..i] == records[..i];
      var r := records[i];
      var task := TaskLabel(r.rawTask);
      var tasks := if r.cpu in cpuDict then cpuDict[r.cpu] else map[];
      var timings := if task in tasks then tasks[task] else [];
      cpuDict := cpuDict[r.cpu := tasks[task := timings + [Timing(r.start, r.duration)]]];
    }
    assert records[..|records|] == records;
  }

  /** A match of the "Total Duration" line: the digits before and after the point. */
  datatype DurationMatch = DurationMatch(whole: string, fraction: string)

  predicate IsDigit(ch: char)
  {
    '0' <= ch <= '9'
  }

  predicate AllDigits(s: string)
  {
    forall i :: 0 <= i < |s| ==> IsDigit(s[i])
  }

  /** What the pattern `\d+\.\d+` captures. */
  predicate WellFormed(m: DurationMatch)
  {
    m.whole != [] && m.fraction != [] && AllDigits(m.whole) && AllDigits(m.fraction)
  }

  function Pow10(n: nat): nat
  {
    if n == 0 then 1 else 10 * Pow10(n - 1)
  }

  function DigitOf(ch: char): nat
    requires IsDigit(ch)
  {
    ch as int - '0' as int
  }

  /** Python's int() of a string of decimal digits. */
  function DigitsValue(s: string): nat
    requires AllDigits(s)
    decreases |s|
  {
    if s == [] then 0 else 10 * DigitsValue(s[..|s| - 1]) + DigitOf(s[|s| - 1])
  }

  /** Python's `s.replace(".", "")`. */
  function DeletePoints(s: string): (r: string)
    decreases |s|
  {
    if s == [] then []
    else DeletePoints(s[..|s| - 1]) + (if s[|s| - 1] == '.' then [] else [s[|s| - 1]])
  }

  lemma {:induction false} DeletePointsAppend(a: string, b: string)
    ensures DeletePoints(a + b) == DeletePoints(a) + DeletePoints(b)
    decreases |b|
  {
    if b == [] {
      assert a + b == a;
    } else {
      assert (a + b)[..|a + b| - 1] == a + b[..|b| - 1];
      DeletePointsAppend(a, b[..|b| - 1]);
    }
  }

  lemma {:induction false} DeletePointsOfDigits(s: string)
    requires AllDigits(s)
    ensures DeletePoints(s) == s
    decreases |s|
  {
    if s != [] {
      DeletePointsOfDigits(s[..|s| - 1]);
      assert s == s[..|s| - 1] + [s[|s| - 1]];
    }
  }

  lemma DeletePointsOfPoint()
    ensures DeletePoints(".") == []
  {
    assert "."[..0] == [];
  }

  lemma AllDigitsAppend(a: string, b: string)
    requires AllDigits(a) && AllDigits(b)
    ensures AllDigits(a + b)
  {
    var both := a + b;
    forall i | 0 <= i < |both| ensures IsDigit(both[i]) {
      if i < |a| {
        assert both[i] == a[i];
      } else {
        assert both[i] == b[i - |a|];
      }
    }
  }

  /** Deleting the point of a match leaves its two digit strings side by side. */
  lemma DeletePointsOfMatch(m: DurationMatch)
    requires WellFormed(m)
    ensures DeletePoints(m.whole + "." + m.fraction) == m.whole + m.fraction
    ensures AllDigits(m.whole + m.fraction)
  {
    var w, f := m.whole, m.fraction;
    var point: string := ".";
    calc {
      DeletePoints(w + point + f);
      { DeletePointsAppend(w + point, f); }
      DeletePoints(w + point) + DeletePoints(f);
      { DeletePointsAppend(w, point); }
      DeletePoints(w) + DeletePoints(point) + DeletePoints(f);
      { DeletePointsOfDigits(w); DeletePointsOfDigits(f); DeletePointsOfPoint(); }
      w + [] + f;
      { assert w + [] == w; }
      w + f;
    }
    AllDigitsAppend(m.whole, m.fraction);
  }

  lemma Distribute(x: int, p: int, y: int, d: int)
    ensures 10 * (x * p + y) + d == x * (10 * p) + (10 * y + d)
  {
  }

  lemma {:induction false} DigitsValueAppend(a: string, b: string)
    requires AllDigits(a) && AllDigits(b) && AllDigits(a + b)
    ensures DigitsValue(a + b) == DigitsValue(a) * Pow10(|b|) + DigitsValue(b)
    decreases |b|
  {
    if b == [] {
      assert a + b == a;
    } else {
      var init := b[..|b| - 1];
      var ab := a + b;
      assert ab[..|ab| - 1] == a + init;
      assert ab[|ab| - 1] == b[|b| - 1];
      assert AllDigits(a + init);
      DigitsValueAppend(a, init);
      var d := DigitOf(b[|b| - 1]);
      assert DigitsValue(ab) == 10 * DigitsValue(a + init) + d;
      assert DigitsValue(b) == 10 * DigitsValue(init) + d;
      Distribute(DigitsValue(a), Pow10(|init|), DigitsValue(init), d);
    }
  }

  /** The run length the script reads: the integer formed by the digits of the match
      with the point deleted. */
  function MatchValue(m: DurationMatch): (v: nat)
    requires WellFormed(m)
    ensures v == DigitsValue(m.whole) * Pow10(|m.fraction|) + DigitsValue(m.fraction)
  {
    DeletePointsOfMatch(m);
    DigitsValueAppend(m.whole, m.fraction);
    DigitsValue(DeletePoints(m.whole + "." + m.fraction))
  }

  /** With the nine fraction digits of a nanosecond-resolution time, the value is the run
      length in nanoseconds. */
  lemma MatchValueNanoseconds(m: DurationMatch)
    requires WellFormed(m) && |m.fraction| == 9
    ensures MatchValue(m) == DigitsValue(m.whole) * 1000000000 + DigitsValue(m.fraction)
  {
    assert Pow10(9) == 1000000000 by {
      assert Pow10(0) == 1;
      assert Pow10(3) == 1000;
      assert Pow10(6) == 1000 * Pow10(3);
    }
  }

  /** The last matching line wins. */
  function LastMatch(lines: seq<Option<DurationMatch>>): (r: Option<DurationMatch>)
    ensures r.None? ==> forall i :: 0 <= i < |lines| ==> lines[i].None?
    ensures r.Some? ==> exists i :: 0 <= i < |lines| && lines[i] == r
                                    && forall j :: i < j < |lines| ==> lines[j].None?
    decreases |lines|
  {
    if lines == [] then None
    else if lines[|lines| - 1].Some? then lines[|lines| - 1]
    else
      var r := LastMatch(lines[..|lines| - 1]);
      assert forall j :: 0 <= j < |lines| - 1 ==> lines[..|lines| - 1][j] == lines[j];
      r
  }

  /** The run length: the value of the last "Total Duration" match, or -1 when no line
      matches. */
  function RunLength(lines: seq<Option<DurationMatch>>): int
    requires forall i :: 0 <= i < |lines| && lines[i].Some? ==> WellFormed(lines[i].value)
  {
    match LastMatch(lines)
    case None => -1
    case Some(m) => MatchValue(m)
  }

  /** The loop over the benchmark output: one entry per line, the captured number when
      the line matches the "Total Duration" pattern. */
  method ReadTotalDuration(lines: seq<Option<DurationMatch>>) returns (totalDuration: int)
    requires forall i :: 0 <= i < |lines| && lines[i].Some? ==> WellFormed(lines[i].value)
    ensures totalDuration == RunLength(lines)
  {
    totalDuration := -1;
    for i := 0 to |lines|
      invariant totalDuration == RunLength(lines[..i])
    {
      assert lines[..i + 1][..i] == lines[..i];
      match lines[i] {
        case Some(m) =>
          DeletePointsOfMatch(m);
          totalDuration := DigitsValue(DeletePoints(m.whole + "." + m.fraction));
        case None =>
      }
    }
    assert lines[..|lines|] == lines;
  }

  /** What get_cpu_dict returns for a trace whose matched lines are records and whose
      benchmark output is lines. */
  method GetCpuDict(records: seq<Record>, lines: seq<Option<DurationMatch>>)
    returns (cpuDict: CpuTable, totalDuration: int)
    requires forall i :: 0 <= i < |lines| && lines[i].Some? ==> WellFormed(lines[i].value)
    ensures cpuDict == SortedTable(Grouped(records))
    ensures totalDuration == RunLength(lines)
  {
    totalDuration := ReadTotalDuration(lines);
    var grouped := GroupRecords(records);
    cpuDict := SortAll(grouped);
  }

  /** The table of a trace, stated on its records: an entry for exactly the cpus and
      (cpu, label) pairs of the records, each holding the timings of those records sorted
      by start (records with equal starts keep their order), never empty. */
  lemma CpuDictEntry(records: seq<Record>, c: int, k: string)
    ensures var table := SortedTable(Grouped(records));
            && (c in table <==> HasCpu(records, c))
            && (c in table && k in table[c] <==> HasTask(records, c, k))
    ensures var table := SortedTable(Grouped(records));
            c in table && k in table[c] ==>
              && table[c][k] == SortByStart(Matching(records, c, k))
              && SortedByStart(table[c][k])
              && multiset(table[c][k]) == multiset(Matching(records, c, k))
              && |table[c][k]| > 0
  {
    GroupedKeys(records, c, k);
    GroupedLookup(records, c, k);
    if HasTask(records, c, k) {
      var i :| 0 <= i < |records| && records[i].cpu == c && TaskLabel(records[i].rawTask) == k;
      MatchingNonEmpty(records, c, k, i);
    }
  }

  lemma {:induction false} MatchingNonEmpty(records: seq<Record>, c: int, k: string, i: nat)
    requires i < |records| && records[i].cpu == c && TaskLabel(records[i].rawTask) == k
    ensures |Matching(records, c, k)| > 0
    decreases |records|
  {
    if i < |records| - 1 {
      MatchingNonEmpty(records[..|records| - 1], c, k, i);
    }
  }

  /** Every list of a trace's table is non-empty, which the profile's mean relies on. */
  lemma CpuDictNonEmpty(records: seq<Record>)
    ensures NonEmptyLists(SortedTable(Grouped(records)))
  {
    var table := SortedTable(Grouped(records));
    forall c, k | c in table && k in table[c] ensures |table[c][k]| > 0 {
      CpuDictEntry(records, c, k);
    }
  }
}
