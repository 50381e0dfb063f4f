/** Values shared by every stage of the noise-configuration compiler: a timing is one
    occurrence of a task on a cpu, and a run's table maps cpu -> task label -> timings. */
module Timings {

  /** One occurrence of a task: when it started and how long it ran, in nanoseconds. */
  datatype Timing = Timing(start: int, duration: int)

  /** The per-task lists of one cpu. */
  type TaskTable = map<string, seq<Timing>>

  /** cpu id -> task label -> timings: the table built from one trace. */
  type CpuTable = map<int, TaskTable>

  /** The list of a (cpu, task) in one table, or the empty list. */
  function Lookup(table: CpuTable, c: int, k: string): seq<Timing>
  {
    if c in table && k in table[c] then table[c][k] else []
  }

  /** The task table of a cpu, or the empty one. */
  function TasksOf(table: CpuTable, c: int): TaskTable
  {
    if c in table then table[c] else map[]
  }

  /** Every list of the table is non-empty, as get_cpu_dict builds them. */
  ghost predicate NonEmptyLists(table: CpuTable)
  {
    forall c, k :: c in table && k in table[c] ==> |table[c][k]| > 0
  }

  datatype Option<+T> = None | Some(value: T)

  datatype Result<+R, +E> = Success(value: R) | Failure(error: E)

  /** A non-empty set of cpu ids has an element; loops over a dictionary's remaining
      cpus use it to pick the next one. */
  lemma SomeCpu(cpus: set<int>)
    ensures cpus != {} ==> exists c :: c in cpus
  {
    if forall c :: c !in cpus {
      assert cpus == {};
    }
  }

  /** A non-empty set of task labels has an element. */
  lemma SomeTask(tasks: set<string>)
    ensures tasks != {} ==> exists k :: k in tasks
  {
    if forall k :: k !in tasks {
      assert tasks == {};
    }
  }

  function Max(a: int, b: int): int
  {
    if a < b then b else a
  }

  function Abs(x: int): int
  {
    if x < 0 then -x else x
  }

  ghost predicate SortedByStart(s: seq<Timing>)
  {
    forall i, j :: 0 <= i < j < |s| ==> s[i].start <= s[j].start
  }

  /** Every start in s is at least b. */
  ghost predicate StartsFrom(s: seq<Timing>, b: int)
  {
    forall i :: 0 <= i < |s| ==> b <= s[i].start
  }

  ghost predicate NonNegativeDurations(s: seq<Timing>)
  {
    forall i :: 0 <= i < |s| ==> s[i].duration >= 0
  }

  /** Sum of the durations of a list, accumulated front to back. */
  function TotalDuration(s: seq<Timing>): int
  {
    if s == [] then 0 else TotalDuration(s[..|s| - 1]) + s[|s| - 1].duration
  }

  /** The start times of a list, in list order. */
  function Starts(s: seq<Timing>): seq<int>
  {
    seq(|s|, i requires 0 <= i < |s| => s[i].start)
  }

  lemma {:induction false} TotalDurationAppend(a: seq<Timing>, b: seq<Timing>)
    ensures TotalDuration(a + b) == TotalDuration(a) + TotalDuration(b)
    decreases |b|
  {
    if b == [] {
      assert a + b == a;
    } else {
      assert (a + b)[..|a + b| - 1] == a + b[..|b| - 1];
      TotalDurationAppend(a, b[..|b| - 1]);
    }
  }

  lemma {:induction false} TotalDurationNonNegative(s: seq<Timing>)
    requires NonNegativeDurations(s)
    ensures TotalDuration(s) >= 0
    decreases |s|
  {
    if s != [] {
      TotalDurationNonNegative(s[..|s| - 1]);
    }
  }

  /** Removing the element at k takes exactly its duration off the total. */
  lemma TotalDurationRemove(s: seq<Timing>, k: nat)
    requires k < |s|
    ensures TotalDuration(s[..k] + s[k + 1..]) == TotalDuration(s) - s[k].duration
  {
    assert s == s[..k] + ([s[k]] + s[k + 1..]);
    TotalDurationAppend(s[..k], [s[k]] + s[k + 1..]);
    TotalDurationAppend([s[k]], s[k + 1..]);
    TotalDurationAppend(s[..k], s[k + 1..]);
    assert TotalDuration([s[k]]) == TotalDuration([]) + s[k].duration;
  }

  /** Changing the duration at k changes the total by the same amount. */
  lemma TotalDurationUpdate(s: seq<Timing>, k: nat, t: Timing)
    requires k < |s|
    ensures TotalDuration(s[k := t]) == TotalDuration(s) - s[k].duration + t.duration
  {
    var s' := s[k := t];
    assert s' == s[..k] + [t] + s[k + 1..];
    assert s == s[..k] + [s[k]] + s[k + 1..];
    TotalDurationAppend(s[..k] + [t], s[k + 1..]);
    TotalDurationAppend(s[..k], [t]);
    TotalDurationAppend(s[..k] + [s[k]], s[k + 1..]);
    TotalDurationAppend(s[..k], [s[k]]);
    assert TotalDuration([t]) == TotalDuration([]) + t.duration;
    assert TotalDuration([s[k]]) == TotalDuration([]) + s[k].duration;
  }

  /** Inserts t before the first element that does not start earlier than t; inserting
      each earlier element of a list in front of the later ones keeps equal starts in
      their original order, as Python's stable sort does. */
  function InsertByStart(t: Timing, s: seq<Timing>): (r: seq<Timing>)
    ensures multiset(r) == multiset(s) + multiset{t}
    ensures |r| == |s| + 1
    decreases |s|
  {
    if s == [] || t.start <= s[0].start then [t] + s
    else
      assert s == [s[0]] + s[1..];
      [s[0]] + InsertByStart(t, s[1..])
  }

  /** Inserting a timing that starts at or after b into a list that does keeps that bound. */
  lemma {:induction false} InsertByStartFrom(t: Timing, s: seq<Timing>, b: int)
    requires b <= t.start && StartsFrom(s, b)
    ensures StartsFrom(InsertByStart(t, s), b)
    decreases |s|
  {
    if s != [] && t.start > s[0].start {
      InsertByStartFrom(t, s[1..], b);
      assert InsertByStart(t, s) == [s[0]] + InsertByStart(t, s[1..]);
    }
  }

  lemma {:induction false} InsertByStartSorted(t: Timing, s: seq<Timing>)
    requires SortedByStart(s)
    ensures SortedByStart(InsertByStart(t, s))
    decreases |s|
  {
    if s != [] && t.start > s[0].start {
      var rest := InsertByStart(t, s[1..]);
      InsertByStartSorted(t, s[1..]);
      InsertByStartFrom(t, s[1..], s[0].start);
      var r := InsertByStart(t, s);
      assert r == [s[0]] + rest;
      forall i, j | 0 <= i < j < |r| ensures r[i].start <= r[j].start {
        if i > 0 {
          assert r[i] == rest[i - 1] && r[j] == rest[j - 1];
        } else {
          assert r[j] == rest[j - 1];
        }
      }
    }
  }

  /** Python's `sorted(timings, key=lambda x: x[0])`: a stable sort by start time. */
  function SortByStart(s: seq<Timing>): (r: seq<Timing>)
    ensures SortedByStart(r)
    ensures multiset(r) == multiset(s)
    ensures |r| == |s|
    decreases |s|
  {
    if s == [] then []
    else
      assert s == [s[0]] + s[1..];
      InsertByStartSorted(s[0], SortByStart(s[1..]));
      InsertByStart(s[0], SortByStart(s[1..]))
  }

  /** The elements of s whose start equals v, in list order. */
  function WithStart(s: seq<Timing>, v: int): seq<Timing>
  {
    if s == [] then []
    else (if s[0].start == v then [s[0]] else []) + WithStart(s[1..], v)
  }

  lemma {:induction false} WithStartAppend(a: seq<Timing>, b: seq<Timing>, v: int)
    ensures WithStart(a + b, v) == WithStart(a, v) + WithStart(b, v)
    decreases |a|
  {
    if a == [] {
      assert a + b == b;
    } else {
      var h := if a[0].start == v then [a[0]] else [];
      assert (a + b)[0] == a[0] && (a + b)[1..] == a[1..] + b;
      assert WithStart(a + b, v) == h + WithStart(a[1..] + b, v);
      WithStartAppend(a[1..], b, v);
      assert WithStart(a, v) == h + WithStart(a[1..], v);
    }
  }

  lemma WithStartSingle(x: Timing, v: int)
    ensures WithStart([x], v) == if x.start == v then [x] else []
  {
    assert [x][1..] == [];
  }

  /** Two timings with different starts cannot both start at v, so their selections
      commute. */
  lemma WithStartSwap(a: Timing, b: Timing, rest: seq<Timing>, v: int)
    requires a.start != b.start
    ensures WithStart([a], v) + (WithStart([b], v) + rest) == WithStart([b], v) + (WithStart([a], v) + rest)
  {
    WithStartSingle(a, v);
    WithStartSingle(b, v);
  }

  lemma {:induction false} InsertByStartStable(t: Timing, s: seq<Timing>, v: int)
    ensures WithStart(InsertByStart(t, s), v) == WithStart([t] + s, v)
    decreases |s|
  {
    if s != [] && t.start > s[0].start {
      var head, tail := s[0], s[1..];
      var rest := InsertByStart(t, tail);
      assert s == [head] + tail;
      assert InsertByStart(t, s) == [head] + rest;
      calc {
        WithStart(InsertByStart(t, s), v);
        { WithStartAppend([head], rest, v); }
        WithStart([head], v) + WithStart(rest, v);
        { InsertByStartStable(t, tail, v); WithStartAppend([t], tail, v); }
        WithStart([head], v) + (WithStart([t], v) + WithStart(tail, v));
        { WithStartSwap(head, t, WithStart(tail, v), v); }
        WithStart([t], v) + (WithStart([head], v) + WithStart(tail, v));
        { WithStartAppend([head], tail, v); }
        WithStart([t], v) + WithStart(s, v);
        { WithStartAppend([t], s, v); }
        WithStart([t] + s, v);
      }
    }
  }

  /** Stability: for every start value, the elements that carry it come out of the sort
      in the order they had in the input. */
  lemma {:induction false} SortByStartStable(s: seq<Timing>, v: int)
    ensures WithStart(SortByStart(s), v) == WithStart(s, v)
    decreases |s|
  {
    if s != [] {
      SortByStartStable(s[1..], v);
      InsertByStartStable(s[0], SortByStart(s[1..]), v);
      WithStartAppend([s[0]], SortByStart(s[1..]), v);
      WithStartAppend([s[0]], s[1..], v);
      assert s == [s[0]] + s[1..];
    }
  }

  /** A list that is already in start order is returned unchanged by the stable sort. */
  lemma {:induction false} SortByStartOfSorted(s: seq<Timing>)
    requires SortedByStart(s)
    ensures SortByStart(s) == s
    decreases |s|
  {
    if s != [] {
      SortByStartOfSorted(s[1..]);
      assert SortByStart(s[1..]) == s[1..];
      var r := s[1..];
      assert r == [] || s[0].start <= r[0].start;
      assert [s[0]] + s[1..] == s;
    }
  }
}
