/** combine_consecutive_noises: per cpu, every noise event is shifted so that the
    workload's first start becomes time 0, events that began before it are dropped, and
    each remaining event is either fused into the interval being grown (when it starts
    no later than mergeThreshold after that interval's end) or closes that interval and
    opens a new one. */
module Merge {
  import opened Timings

  /** What the sweep emits for a cpu on which no event survives the shift. */
  const Placeholder := Timing(-1, -1)

  /** The sweep's variables after some prefix of a cpu's list: the intervals already
      emitted and the interval being grown; nextStart == -1 means none has been
      started yet, exactly as the script uses it. */
  datatype Sweep = Sweep(emitted: seq<Timing>, nextStart: int, nextDuration: int)

  const Initial := Sweep([], -1, -1)

  /** One iteration of the inner loop over a cpu's events. */
  function Step(s: Sweep, noise: Timing, syncStartDiff: int, mergeThreshold: int): Sweep
  {
    var adjusted := noise.start - syncStartDiff;
    if adjusted < 0 then s
    else if s.nextStart == -1 then Sweep(s.emitted, adjusted, noise.duration)
    else if s.nextStart + s.nextDuration + mergeThreshold >= adjusted then
      Sweep(s.emitted, s.nextStart,
            s.nextDuration + noise.duration + Max(adjusted - (s.nextStart + s.nextDuration), 0))
    else
      Sweep(s.emitted + [Timing(s.nextStart, s.nextDuration)], adjusted, noise.duration)
  }

  /** The sweep's variables after the whole of `noises`. */
  function SweepOf(noises: seq<Timing>, syncStartDiff: int, mergeThreshold: int): Sweep
    decreases |noises|
  {
    if noises == [] then Initial
    else
      Step(SweepOf(noises[..|noises| - 1], syncStartDiff, mergeThreshold),
           noises[|noises| - 1], syncStartDiff, mergeThreshold)
  }

  /** The list the script stores back into noise_dict[cpu]: the emitted intervals
      followed by the last one, which is always appended. */
  function Combine(noises: seq<Timing>, syncStartDiff: int, mergeThreshold: int): seq<Timing>
  {
    var s := SweepOf(noises, syncStartDiff, mergeThreshold);
    s.emitted + [Timing(s.nextStart, s.nextDuration)]
  }

  /** The events that survive the shift, shifted, in list order. */
  function Surviving(noises: seq<Timing>, syncStartDiff: int): (r: seq<Timing>)
    ensures |r| <= |noises|
    decreases |noises|
  {
    if noises == [] then []
    else
      var last := noises[|noises| - 1];
      Surviving(noises[..|noises| - 1], syncStartDiff)
        + (if last.start - syncStartDiff >= 0 then [Timing(last.start - syncStartDiff, last.duration)] else [])
  }

  /** Every interval starts at or after time 0, and each next interval starts more
      than mergeThreshold after the previous one ends. */
  ghost predicate Separated(r: seq<Timing>, mergeThreshold: int)
  {
    && (forall i :: 0 <= i < |r| ==> r[i].start >= 0)
    && (forall i :: 0 <= i < |r| - 1 ==> r[i].start + r[i].duration + mergeThreshold < r[i + 1].start)
  }

  /** The relation the loop keeps between its variables and the surviving prefix. */
  ghost predicate Shaped(s: Sweep, surviving: seq<Timing>, mergeThreshold: int)
  {
    && Separated(s.emitted, mergeThreshold)
    && (s.nextStart == -1 <==> surviving == [])
    && (s.nextStart == -1 ==> s.emitted == [] && s.nextDuration == -1)
    && (s.nextStart != -1 ==> s.nextStart >= 0)
    && (s.nextStart != -1 && s.emitted != [] ==>
          s.emitted[|s.emitted| - 1].start + s.emitted[|s.emitted| - 1].duration + mergeThreshold < s.nextStart)
  }

  lemma {:induction false} SweepOfShaped(noises: seq<Timing>, syncStartDiff: int, mergeThreshold: int)
    ensures Shaped(SweepOf(noises, syncStartDiff, mergeThreshold), Surviving(noises, syncStartDiff), mergeThreshold)
    decreases |noises|
  {
    if noises != [] {
      SweepOfShaped(noises[..|noises| - 1], syncStartDiff, mergeThreshold);
    }
  }

  /** A cpu yields exactly the placeholder (-1, -1) when, and only when, none of its
      events survives the shift; otherwise every emitted interval starts at or after 0
      and consecutive intervals are more than mergeThreshold apart. */
  lemma CombineSeparated(noises: seq<Timing>, syncStartDiff: int, mergeThreshold: int)
    ensures Combine(noises, syncStartDiff, mergeThreshold) == [Placeholder]
            <==> Surviving(noises, syncStartDiff) == []
    ensures Surviving(noises, syncStartDiff) != [] ==>
              Separated(Combine(noises, syncStartDiff, mergeThreshold), mergeThreshold)
  {
    var s := SweepOf(noises, syncStartDiff, mergeThreshold);
    SweepOfShaped(noises, syncStartDiff, mergeThreshold);
    var r := Combine(noises, syncStartDiff, mergeThreshold);
    assert r[|r| - 1] == Timing(s.nextStart, s.nextDuration);
  }

  ghost predicate NonNegativeSweep(s: Sweep)
  {
    NonNegativeDurations(s.emitted) && (s.nextStart != -1 ==> s.nextDuration >= 0)
  }

  lemma {:induction false} SweepOfNonNegative(noises: seq<Timing>, syncStartDiff: int, mergeThreshold: int)
    requires NonNegativeDurations(noises)
    ensures NonNegativeSweep(SweepOf(noises, syncStartDiff, mergeThreshold))
    decreases |noises|
  {
    if noises != [] {
      SweepOfNonNegative(noises[..|noises| - 1], syncStartDiff, mergeThreshold);
    }
  }

  /** With non-negative durations and a non-negative threshold the emitted starts
      strictly increase, whatever the order of the input events. */
  lemma CombineStartsIncrease(noises: seq<Timing>, syncStartDiff: int, mergeThreshold: int)
    requires NonNegativeDurations(noises) && mergeThreshold >= 0
    ensures var r := Combine(noises, syncStartDiff, mergeThreshold);
            NonNegativeDurations(r) || r == [Placeholder]
    ensures var r := Combine(noises, syncStartDiff, mergeThreshold);
            forall i, j :: 0 <= i < j < |r| ==> r[i].start < r[j].start
  {
    var r := Combine(noises, syncStartDiff, mergeThreshold);
    CombineSeparated(noises, syncStartDiff, mergeThreshold);
    SweepOfNonNegative(noises, syncStartDiff, mergeThreshold);
    if r != [Placeholder] {
      assert NonNegativeDurations(r);
      AdjacentIncreasing(r);
    }
  }

  lemma {:induction false} AdjacentIncreasing(r: seq<Timing>)
    requires forall i :: 0 <= i < |r| - 1 ==> r[i].start < r[i + 1].start
    ensures forall i, j :: 0 <= i < j < |r| ==> r[i].start < r[j].start
    decreases |r|
  {
    if |r| > 1 {
      var tail := r[1..];
      AdjacentIncreasing(tail);
      forall i, j | 0 <= i < j < |r| ensures r[i].start < r[j].start {
        if i == 0 {
          if j > 1 {
            assert tail[0].start < tail[j - 1].start;
          }
        } else {
          assert tail[i - 1].start < tail[j - 1].start;
        }
      }
    }
  }

  /** Running the sweep over a separated list leaves every element where it is. */
  lemma {:induction false} SweepOfSeparated(r: seq<Timing>, mergeThreshold: int, i: nat)
    requires Separated(r, mergeThreshold) && 1 <= i <= |r|
    ensures SweepOf(r[..i], 0, mergeThreshold) == Sweep(r[..i - 1], r[i - 1].start, r[i - 1].duration)
    decreases i
  {
    assert r[..i][..i - 1] == r[..i - 1];
    if i > 1 {
      SweepOfSeparated(r, mergeThreshold, i - 1);
      assert r[..i - 2] + [r[i - 2]] == r[..i - 1];
    }
  }

  /** A separated list is a fixed point of the merge with offset 0. */
  lemma CombineOfSeparated(r: seq<Timing>, mergeThreshold: int)
    requires Separated(r, mergeThreshold) && r != []
    ensures Combine(r, 0, mergeThreshold) == r
  {
    SweepOfSeparated(r, mergeThreshold, |r|);
    assert r[..|r|] == r;
    assert r[..|r| - 1] + [r[|r| - 1]] == r;
  }

  lemma CombineOfPlaceholder(mergeThreshold: int)
    ensures Combine([Placeholder], 0, mergeThreshold) == [Placeholder]
  {
    assert [Placeholder][..0] == [];
    assert SweepOf([Placeholder], 0, mergeThreshold) == Initial;
  }

  /** Merging is idempotent: the merge of a merged list, with offset 0 and the same
      threshold, is that list again (the placeholder included). */
  lemma CombineIdempotent(noises: seq<Timing>, syncStartDiff: int, mergeThreshold: int)
    ensures var r := Combine(noises, syncStartDiff, mergeThreshold);
            Combine(r, 0, mergeThreshold) == r
  {
    var r := Combine(noises, syncStartDiff, mergeThreshold);
    CombineSeparated(noises, syncStartDiff, mergeThreshold);
    if Surviving(noises, syncStartDiff) == [] {
      assert r == [Placeholder];
      CombineOfPlaceholder(mergeThreshold);
    } else {
      CombineOfSeparated(r, mergeThreshold);
    }
  }

  /** Durations are accounted for: the emitted total plus the open interval is the
      surviving total plus the bridged gaps, and each of the |surviving| - (intervals)
      fusions bridges a gap of at most max(mergeThreshold, 0). */
  ghost predicate Accounted(s: Sweep, surviving: seq<Timing>, mergeThreshold: int)
  {
    s.nextStart != -1 ==>
      var total := TotalDuration(s.emitted) + s.nextDuration;
      var fusions := |surviving| - |s.emitted| - 1;
      && fusions >= 0
      && TotalDuration(surviving) <= total <= TotalDuration(surviving) + Max(mergeThreshold, 0) * fusions
      && (mergeThreshold <= 0 ==> total == TotalDuration(surviving))
  }

  /** The surviving list after one more event. */
  function SurvivingStep(surviving: seq<Timing>, noise: Timing, syncStartDiff: int): seq<Timing>
  {
    surviving + (if noise.start - syncStartDiff >= 0 then [Timing(noise.start - syncStartDiff, noise.duration)] else [])
  }

  lemma AccountedFusion(s: Sweep, surviving: seq<Timing>, noise: Timing, syncStartDiff: int, mergeThreshold: int)
    requires Accounted(s, surviving, mergeThreshold) && s.nextStart != -1
    requires var adjusted := noise.start - syncStartDiff;
             adjusted >= 0 && s.nextStart + s.nextDuration + mergeThreshold >= adjusted
    ensures Accounted(Step(s, noise, syncStartDiff, mergeThreshold),
                      SurvivingStep(surviving, noise, syncStartDiff), mergeThreshold)
  {
    var adjusted := noise.start - syncStartDiff;
    var e := Timing(adjusted, noise.duration);
    TotalDurationAppend(surviving, [e]);
    assert TotalDuration([e]) == noise.duration;
    var m := Max(mergeThreshold, 0);
    var fusions := |surviving| - |s.emitted| - 1;
    var gap := Max(adjusted - (s.nextStart + s.nextDuration), 0);
    assert 0 <= gap <= m;
    assert mergeThreshold <= 0 ==> gap == 0;
    assert Step(s, noise, syncStartDiff, mergeThreshold) == Sweep(s.emitted, s.nextStart, s.nextDuration + noise.duration + gap);
    assert m * (fusions + 1) == m * fusions + m;
  }

  lemma AccountedClose(s: Sweep, surviving: seq<Timing>, noise: Timing, syncStartDiff: int, mergeThreshold: int)
    requires Accounted(s, surviving, mergeThreshold) && s.nextStart != -1
    requires var adjusted := noise.start - syncStartDiff;
             adjusted >= 0 && s.nextStart + s.nextDuration + mergeThreshold < adjusted
    ensures Accounted(Step(s, noise, syncStartDiff, mergeThreshold),
                      SurvivingStep(surviving, noise, syncStartDiff), mergeThreshold)
  {
    var e := Timing(noise.start - syncStartDiff, noise.duration);
    TotalDurationAppend(surviving, [e]);
    assert TotalDuration([e]) == noise.duration;
    var closed := Timing(s.nextStart, s.nextDuration);
    TotalDurationAppend(s.emitted, [closed]);
    assert TotalDuration([closed]) == s.nextDuration;
  }

  lemma AccountedStep(s: Sweep, surviving: seq<Timing>, noise: Timing, syncStartDiff: int, mergeThreshold: int)
    requires Accounted(s, surviving, mergeThreshold) && Shaped(s, surviving, mergeThreshold)
    ensures Accounted(Step(s, noise, syncStartDiff, mergeThreshold),
                      SurvivingStep(surviving, noise, syncStartDiff), mergeThreshold)
  {
    var adjusted := noise.start - syncStartDiff;
    if adjusted >= 0 {
      if s.nextStart == -1 {
        var e := Timing(adjusted, noise.duration);
        assert surviving == [] && s.emitted == [];
        assert SurvivingStep(surviving, noise, syncStartDiff) == [e];
        assert TotalDuration([e]) == noise.duration;
      } else if s.nextStart + s.nextDuration + mergeThreshold >= adjusted {
        AccountedFusion(s, surviving, noise, syncStartDiff, mergeThreshold);
      } else {
        AccountedClose(s, surviving, noise, syncStartDiff, mergeThreshold);
      }
    } else {
      assert SurvivingStep(surviving, noise, syncStartDiff) == surviving;
    }
  }

  lemma {:induction false} SweepOfAccounted(noises: seq<Timing>, syncStartDiff: int, mergeThreshold: int)
    ensures Accounted(SweepOf(noises, syncStartDiff, mergeThreshold), Surviving(noises, syncStartDiff), mergeThreshold)
    decreases |noises|
  {
    if noises != [] {
      var init := noises[..|noises| - 1];
      SweepOfAccounted(init, syncStartDiff, mergeThreshold);
      SweepOfShaped(init, syncStartDiff, mergeThreshold);
      AccountedStep(SweepOf(init, syncStartDiff, mergeThreshold), Surviving(init, syncStartDiff),
                    noises[|noises| - 1], syncStartDiff, mergeThreshold);
    }
  }

  /** Merging adds up durations: when some event survives, the merged total lies
      between the surviving events' total and that total plus max(mergeThreshold, 0)
      for every fusion, and with a threshold of 0 or less (so nothing but overlapping
      or touching events fuse) the two totals are equal: overlaps are counted in full. */
  lemma CombineDurationAccounting(noises: seq<Timing>, syncStartDiff: int, mergeThreshold: int)
    requires Surviving(noises, syncStartDiff) != []
    ensures var r := Combine(noises, syncStartDiff, mergeThreshold);
            var surv := Surviving(noises, syncStartDiff);
            && 1 <= |r| <= |surv|
            && TotalDuration(surv) <= TotalDuration(r)
                 <= TotalDuration(surv) + Max(mergeThreshold, 0) * (|surv| - |r|)
            && (mergeThreshold <= 0 ==> TotalDuration(r) == TotalDuration(surv))
  {
    var s := SweepOf(noises, syncStartDiff, mergeThreshold);
    SweepOfShaped(noises, syncStartDiff, mergeThreshold);
    SweepOfAccounted(noises, syncStartDiff, mergeThreshold);
    TotalDurationAppend(s.emitted, [Timing(s.nextStart, s.nextDuration)]);
    assert TotalDuration([Timing(s.nextStart, s.nextDuration)]) == s.nextDuration;
  }

  /** The inner loop of combine_consecutive_noises for one cpu. */
  method CombineNoises(noises: seq<Timing>, syncStartDiff: int, mergeThreshold: int)
    returns (combined: seq<Timing>)
    ensures combined == Combine(noises, syncStartDiff, mergeThreshold)
  {
    combined := [];
    var nextStart, nextDuration := -1, -1;
    for i := 0 to |noises|
      invariant Sweep(combined, nextStart, nextDuration) == SweepOf(noises[..i], syncStartDiff, mergeThreshold)
    {
      assert noises[..i + 1][..i] == noises[..i];
      var adjustedStart := noises[i].start - syncStartDiff;
      var duration := noises[i].duration;
      if adjustedStart < 0 {
        continue;
      }
      if nextStart == -1 {
        nextStart := adjustedStart;
        nextDuration := duration;
      } else {
        if nextStart + nextDuration + mergeThreshold >= adjustedStart {
          nextDuration := nextDuration + duration + Max(adjustedStart - (nextStart + nextDuration), 0);
        } else {
          combined := combined + [Timing(nextStart, nextDuration)];
          nextStart := adjustedStart;
          nextDuration := duration;
        }
      }
    }
    assert noises[..|noises|] == noises;
    combined := combined + [Timing(nextStart, nextDuration)];
  }

  /** noise_dict, which combine_consecutive_noises overwrites cpu by cpu. */
  class NoiseTable {
    var cpus: map<int, seq<Timing>>

    constructor (noiseDict: map<int, seq<Timing>>)
      ensures cpus == noiseDict
    {
      cpus := noiseDict;
    }

    method CombineConsecutiveNoises(syncStartDiff: int, mergeThreshold: int)
      modifies this
      ensures cpus.Keys == old(cpus).Keys
      ensures forall c :: c in cpus ==> cpus[c] == Combine(old(cpus)[c], syncStartDiff, mergeThreshold)
    {
      var todo := cpus.Keys;
      ghost var original := cpus;
      while todo != {}
        invariant todo <= cpus.Keys && cpus.Keys == original.Keys
        invariant forall c :: c in cpus && c !in todo ==> cpus[c] == Combine(original[c], syncStartDiff, mergeThreshold)
        invariant forall c :: c in todo ==> cpus[c] == original[c]
        decreases todo
      {
        SomeCpu(todo);
        var cpu :| cpu in todo;
        var combined := CombineNoises(cpus[cpu], syncStartDiff, mergeThreshold);
        cpus := cpus[cpu := combined];
        todo := todo - {cpu};
      }
    }
  }
}
