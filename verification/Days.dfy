/** What a day's report says, second by second and beat by beat. */
module Days {
  import opened Sequences
  import opened Availability
  import opened Uptime

  function NextBeat(sorted: seq<int>, now: int, i: int): int
    requires 0 <= i < |sorted|
  {
    if i + 1 < |sorted| then sorted[i + 1] else now
  }

  // Second t lies between two beats, or the last one and now, that are more than gapS apart.
  ghost predicate InGap(sorted: seq<int>, now: int, gapS: int, t: int) {
    exists i :: GapAt(sorted, now, gapS, t, i)
  }

  predicate GapAt(sorted: seq<int>, now: int, gapS: int, t: int, i: int) {
    && 0 <= i < |sorted|
    && sorted[i] <= t < NextBeat(sorted, now, i)
    && NextBeat(sorted, now, i) - sorted[i] > gapS
  }

  predicate In(t: int, lo: int, hi: int) {
    lo <= t < hi
  }

  ghost function Seconds(lo: int, hi: int): set<int> {
    set t: int | lo <= t < hi && In(t, lo, hi)
  }

  // The seconds of a day that heartbeats cover: from the first beat on, before now.
  ghost function CoveredSeconds(sorted: seq<int>, now: int, day: int): set<int>
    requires sorted != []
  {
    set t: int | day * 86400 <= t < (day + 1) * 86400 && In(t, sorted[0], now)
  }

  ghost function DownSeconds(sorted: seq<int>, now: int, gapS: int, lo: int, hi: int): set<int> {
    set t: int | lo <= t < hi && InGap(sorted, now, gapS, t)
  }

  lemma {:induction false} SecondsCounted(lo: int, hi: int)
    ensures |Seconds(lo, hi)| == if lo < hi then hi - lo else 0
    decreases hi - lo
  {
    if lo < hi {
      SecondsCounted(lo, hi - 1);
      assert Seconds(lo, hi) == Seconds(lo, hi - 1) + {hi - 1};
    } else {
      assert Seconds(lo, hi) == {};
    }
  }

  lemma OverlapCounted(a: int, b: int, lo: int, hi: int)
    ensures |Seconds(Max(a, lo), Min(b, hi))| == Overlap(a, b, lo, hi)
  {
    SecondsCounted(Max(a, lo), Min(b, hi));
  }

  // The seconds in a gap: those in the first one, and those in the gaps of the later beats.
  lemma DownSecondsSplit(sorted: seq<int>, now: int, gapS: int, lo: int, hi: int)
    requires Sorted(sorted) && sorted != []
    ensures var a, next := sorted[0], NextBeat(sorted, now, 0);
      var head := if next - a > gapS then Seconds(Max(a, lo), Min(next, hi)) else {};
      var rest := DownSeconds(sorted[1..], now, gapS, lo, hi);
      DownSeconds(sorted, now, gapS, lo, hi) == head + rest && head !! rest
  {
    var a, next, rest := sorted[0], NextBeat(sorted, now, 0), sorted[1..];
    forall t: int
      ensures InGap(sorted, now, gapS, t) <==> (a <= t < next && next - a > gapS) || InGap(rest, now, gapS, t)
      ensures InGap(rest, now, gapS, t) ==> t >= next
    {
      InGapCons(sorted, now, gapS, t);
    }
    hide InGap, NextBeat, Sorted;
  }

  lemma BeatsShift(a: int, rest: seq<int>, now: int)
    ensures var sorted := [a] + rest;
      && sorted[0] == a && NextBeat(sorted, now, 0) == (if rest == [] then now else rest[0])
      && forall i :: 0 <= i < |rest| ==>
           sorted[i + 1] == rest[i] && NextBeat(sorted, now, i + 1) == NextBeat(rest, now, i)
  {}

  lemma InGapCons(sorted: seq<int>, now: int, gapS: int, t: int)
    requires Sorted(sorted) && sorted != []
    ensures var a, next, rest := sorted[0], NextBeat(sorted, now, 0), sorted[1..];
      && (InGap(sorted, now, gapS, t) <==> (a <= t < next && next - a > gapS) || InGap(rest, now, gapS, t))
      && (InGap(rest, now, gapS, t) ==> t >= next)
  {
    var rest := sorted[1..];
    FirstGapAt(sorted, now, gapS, t);
    hide GapAt, NextBeat, Sorted;
    if i :| GapAt(rest, now, gapS, t, i) {
      GapAtShift(sorted, now, gapS, t, i);
      assert GapAt(sorted, now, gapS, t, i + 1);
    }
    if i :| GapAt(sorted, now, gapS, t, i) {
      GapAtShift(sorted, now, gapS, t, i - 1);
    }
  }

  lemma FirstGapAt(sorted: seq<int>, now: int, gapS: int, t: int)
    requires sorted != []
    ensures var a, next := sorted[0], NextBeat(sorted, now, 0);
      && (GapAt(sorted, now, gapS, t, 0) <==> a <= t < next && next - a > gapS)
      && forall i :: GapAt(sorted, now, gapS, t, i) ==> i >= 0
  {}

  lemma GapAtShift(sorted: seq<int>, now: int, gapS: int, t: int, i: int)
    requires Sorted(sorted) && sorted != []
    ensures i >= 0 ==> (GapAt(sorted[1..], now, gapS, t, i) <==> GapAt(sorted, now, gapS, t, i + 1))
    ensures GapAt(sorted[1..], now, gapS, t, i) ==> i >= 0 && t >= NextBeat(sorted, now, 0)
  {}

  lemma {:induction false} OverlapCountsSeconds(sorted: seq<int>, now: int, gapS: int, lo: int, hi: int)
    requires Sorted(sorted)
    ensures TotalOverlap(Gaps(sorted, now, gapS), lo, hi) == |DownSeconds(sorted, now, gapS, lo, hi)|
  {
    if sorted == [] {
      assert DownSeconds(sorted, now, gapS, lo, hi) == {};
    } else {
      var a, rest := sorted[0], sorted[1..];
      assert Sorted(rest) && sorted == [a] + rest;
      hide Gaps, TotalOverlap, DownSeconds, Seconds, Sorted, Overlap, Max, Min;
      OverlapCountsSeconds(rest, now, gapS, lo, hi);
      DownSecondsSplit(sorted, now, gapS, lo, hi);
      GapsCons(a, rest, now, gapS, lo, hi);
      OverlapCounted(a, NextBeat(sorted, now, 0), lo, hi);
      assert NextBeat(sorted, now, 0) == if rest == [] then now else rest[0];
    }
  }

  /** A day's report, second by second: it is measured iff heartbeats cover some second of the day, its
      coverage is the number of seconds covered, and its downtime the number of those in a gap. */
  lemma ReportCountsSeconds(beats: seq<int>, statuses: seq<int>, now: int, day: int, gapS: int)
    requires Sort(beats) != []
    ensures var sorted := Sort(beats);
      var r, covered := Report(sorted, statuses, now, day, gapS), CoveredSeconds(sorted, now, day);
      && (r.Measured? <==> covered != {})
      && (r.Measured? ==>
            && r.covered == |covered|
            && r.downtime == |set t | t in covered && InGap(sorted, now, gapS, t)|)
  {
    SortSorts(beats);
    hide Sort;
    var sorted := Sort(beats);
    var lo, hi := WindowStart(sorted, day), WindowEnd(now, day);
    ReportMeans(sorted, statuses, now, day, gapS);
    SecondsCounted(lo, hi);
    OverlapCountsSeconds(sorted, now, gapS, lo, hi);
    WindowIsCovered(sorted, now, day);
    hide Report, Gaps, TotalOverlap, WindowStart, WindowEnd, InGap, Sorted, UptimePercent;
    var covered := CoveredSeconds(sorted, now, day);
    assert DownSeconds(sorted, now, gapS, lo, hi) == set t | t in covered && InGap(sorted, now, gapS, t);
    if lo < hi {
      assert lo in Seconds(lo, hi);
    }
  }

  lemma WindowIsCovered(sorted: seq<int>, now: int, day: int)
    requires sorted != []
    ensures CoveredSeconds(sorted, now, day) == Seconds(WindowStart(sorted, day), WindowEnd(now, day))
  {}

  // ---------------------------------------------------------------- percentages

  ghost function ErrorIndices(statuses: seq<int>): set<int> {
    set i | 0 <= i < |statuses| && statuses[i] >= 500
  }

  lemma {:induction false} ErrorsCounted(statuses: seq<int>)
    ensures Errors(statuses) == |ErrorIndices(statuses)|
  {
    if statuses != [] {
      var init, n := statuses[..|statuses| - 1], |statuses| - 1;
      ErrorsCounted(init);
      assert ErrorIndices(statuses) == ErrorIndices(init) + if statuses[n] >= 500 then {n} else {};
    } else {
      assert ErrorIndices(statuses) == {};
    }
  }

  // u percent of all is no more than good.
  predicate IsAtMostShare(u: real, good: int, all: int) {
    u * all as real <= 100.0 * good as real
  }

  lemma AtMostPercentIff(good: int, all: int, u: real)
    requires all > 0
    ensures u <= Percent(good, all) <==> IsAtMostShare(u, good, all)
  {
    var g, a := good as real, all as real;
    assert g / a * a == g;
    assert Percent(good, all) * a == 100.0 * g;
    if u <= Percent(good, all) {
      Scaled(u, Percent(good, all), a);
    } else {
      StrictlyScaled(Percent(good, all), u, a);
    }
  }

  lemma Scaled(u: real, v: real, a: real)
    requires u <= v && a > 0.0
    ensures u * a <= v * a
  {}

  lemma StrictlyScaled(u: real, v: real, a: real)
    requires u < v && a > 0.0
    ensures u * a < v * a
  {}

  // u is the greatest percentage that exceeds neither the share of covered seconds that were up nor,
  // given n requests, the share of those that went well.
  ghost predicate IsSmallerShare(u: real, up: int, covered: int, well: int, n: int) {
    forall v: real :: IsAtMostShare(v, up, covered) && (n > 0 ==> IsAtMostShare(v, well, n)) <==> v <= u
  }

  /** A measured day's uptime is the smaller of the share of covered seconds without downtime and the share
      of requests answered below 500; without requests the first. */
  lemma UptimeIsTheSmaller(sorted: seq<int>, statuses: seq<int>, now: int, day: int, gapS: int)
    requires sorted != []
    ensures var r := Report(sorted, statuses, now, day, gapS);
      r.Measured? ==>
        var n := |statuses|;
        r.covered > 0 && IsSmallerShare(r.uptime, r.covered - r.downtime, r.covered, n - |ErrorIndices(statuses)|, n)
  {
    var r := Report(sorted, statuses, now, day, gapS);
    ReportMeans(sorted, statuses, now, day, gapS);
    hide Report, Gaps, TotalOverlap, WindowStart, WindowEnd, UptimePercent, ErrorIndices, IsSmallerShare;
    if r.Measured? {
      SmallerPercent(r.covered, r.downtime, statuses);
    }
  }

  lemma AtMostHundred(covered: int, downtime: int)
    requires covered > 0 && downtime >= 0
    ensures Percent(covered - downtime, covered) <= 100.0
  {
    var g, a := (covered - downtime) as real, covered as real;
    assert g / a <= 1.0;
  }

  lemma SmallerPercent(covered: int, downtime: int, statuses: seq<int>)
    requires covered > 0 && downtime >= 0
    ensures var u, n := UptimePercent(covered, downtime, statuses), |statuses|;
      IsSmallerShare(u, covered - downtime, covered, n - |ErrorIndices(statuses)|, n)
  {
    ErrorsCounted(statuses);
    AtMostHundred(covered, downtime);
    var u, n := UptimePercent(covered, downtime, statuses), |statuses|;
    var up, well := covered - downtime, n - |ErrorIndices(statuses)|;
    hide Percent, Errors, ErrorIndices, IsAtMostShare;
    forall v: real
      ensures IsAtMostShare(v, up, covered) && (n > 0 ==> IsAtMostShare(v, well, n)) <==> v <= u
    {
      AtMostPercentIff(up, covered, v);
      if n > 0 {
        AtMostPercentIff(well, n, v);
      }
    }
  }

  /** Every report is about its own day, oldest first and today last, and counts that day's requests. */
  lemma ReportsAreByDay(sorted: seq<int>, byDay: map<int, seq<int>>, now: int, days: nat, gapS: int, i: nat)
    requires i < days
    ensures var r, day := Reports(sorted, byDay, now, days, gapS)[i], now / 86400 - (days - 1 - i);
      && r.day == day
      && r.requests == (if day in byDay then |byDay[day]| else 0)
      && r.errors == (if day in byDay then |ErrorIndices(byDay[day])| else 0)
  {
    var day := now / 86400 - (days - 1 - i);
    ErrorsCounted(StatusesOf(byDay, day));
    assert Reports(sorted, byDay, now, days, gapS)[i] == Report(sorted, StatusesOf(byDay, day), now, day, gapS);
    hide Reports, Outages, Gaps, TotalDuration, Errors, UptimePercent;
  }

  // ---------------------------------------------------------------- outages

  ghost function GapIndices(sorted: seq<int>, now: int, gapS: int): set<int> {
    set i | 0 <= i < |sorted| && NextBeat(sorted, now, i) - sorted[i] > gapS
  }

  lemma GapIndicesCons(a: int, rest: seq<int>, now: int, gapS: int)
    ensures var sorted, next := [a] + rest, if rest == [] then now else rest[0];
      GapIndices(sorted, now, gapS)
        == (if next - a > gapS then {0} else {}) + set i | i in GapIndices(rest, now, gapS) :: i + 1
  {
    var sorted, next := [a] + rest, if rest == [] then now else rest[0];
    var later := set i | i in GapIndices(rest, now, gapS) :: i + 1;
    forall i ensures i in GapIndices(sorted, now, gapS) <==> (i == 0 && next - a > gapS) || i in later {
      IsGapIndexCons(a, rest, now, gapS, i);
      hide GapIndices;
      assert i in later <==> i - 1 in GapIndices(rest, now, gapS);
    }
    hide GapIndices;
  }

  lemma IsGapIndexCons(a: int, rest: seq<int>, now: int, gapS: int, i: int)
    ensures i in GapIndices([a] + rest, now, gapS)
       <==> (i == 0 && (if rest == [] then now else rest[0]) - a > gapS) || i - 1 in GapIndices(rest, now, gapS)
  {
    if 0 < i <= |rest| {
      assert ([a] + rest)[i] == rest[i - 1];
    }
  }

  function Shifted(idx: seq<int>): (s: seq<int>)
    ensures |s| == |idx| && forall k :: 0 <= k < |idx| ==> s[k] == idx[k] + 1
  {
    seq(|idx|, k requires 0 <= k < |idx| => idx[k] + 1)
  }

  lemma ShiftEnumerates(idx: seq<int>, chosen: set<int>)
    requires Enumerates(idx, chosen) && forall i :: i in chosen ==> i >= 0
    ensures var later := set i | i in chosen :: i + 1;
      Enumerates(Shifted(idx), later) && Enumerates([0] + Shifted(idx), {0} + later)
  {
    var s, later := Shifted(idx), set i | i in chosen :: i + 1;
    forall i ensures i in s <==> i in later {
      if i in s {
        var k :| 0 <= k < |s| && s[k] == i;
        assert idx[k] in idx;
      }
      if i in later {
        var k :| 0 <= k < |idx| && idx[k] == i - 1;
        assert s[k] == i;
      }
    }
    forall k | 0 <= k < |s| ensures s[k] > 0 {
      assert s[k] in s;
    }
  }

  // gaps run from the beats at the given indices to the next ones.
  ghost predicate AreGapsAt(sorted: seq<int>, now: int, idx: seq<int>, gaps: seq<Gap>) {
    && |gaps| == |idx|
    && forall k :: 0 <= k < |idx| ==>
         0 <= idx[k] < |sorted| && gaps[k] == Gap(sorted[idx[k]], NextBeat(sorted, now, idx[k]))
  }

  lemma GapsAtCons(a: int, rest: seq<int>, now: int, idx: seq<int>, gaps: seq<Gap>)
    requires AreGapsAt(rest, now, idx, gaps)
    ensures AreGapsAt([a] + rest, now, Shifted(idx), gaps)
    ensures AreGapsAt([a] + rest, now, [0] + Shifted(idx), [Gap(a, if rest == [] then now else rest[0])] + gaps)
  {
    var sorted := [a] + rest;
    BeatsShift(a, rest, now);
    hide NextBeat;
    var s := Shifted(idx);
    forall k | 0 <= k < |idx|
      ensures 0 <= s[k] < |sorted| && gaps[k] == Gap(sorted[s[k]], NextBeat(sorted, now, s[k]))
    {
      assert s[k] == idx[k] + 1;
    }
    hide Shifted;
    var more, s0 := [Gap(a, if rest == [] then now else rest[0])] + gaps, [0] + s;
    forall k | 0 <= k < |s0|
      ensures 0 <= s0[k] < |sorted| && more[k] == Gap(sorted[s0[k]], NextBeat(sorted, now, s0[k]))
    {
      if k > 0 {
        assert s0[k] == s[k - 1] && more[k] == gaps[k - 1];
      }
    }
  }

  lemma GapsStep(a: int, rest: seq<int>, now: int, gapS: int)
    ensures var next := if rest == [] then now else rest[0];
      Gaps([a] + rest, now, gapS) == (if next - a > gapS then [Gap(a, next)] else []) + Gaps(rest, now, gapS)
  {
    assert ([a] + rest)[1..] == rest;
  }

  lemma StretchesCons(a: int, rest: seq<int>, now: int, gapS: int, later: seq<int>) returns (idx: seq<int>)
    requires Enumerates(later, GapIndices(rest, now, gapS)) && AreGapsAt(rest, now, later, Gaps(rest, now, gapS))
    ensures Enumerates(idx, GapIndices([a] + rest, now, gapS))
    ensures AreGapsAt([a] + rest, now, idx, Gaps([a] + rest, now, gapS))
  {
    assert forall i :: i in GapIndices(rest, now, gapS) ==> i >= 0;
    hide Enumerates, AreGapsAt, Gaps, Shifted, GapIndices;
    var next, gaps := if rest == [] then now else rest[0], Gaps(rest, now, gapS);
    var chosen := set i | i in GapIndices(rest, now, gapS) :: i + 1;
    GapsStep(a, rest, now, gapS);
    GapIndicesCons(a, rest, now, gapS);
    ShiftEnumerates(later, GapIndices(rest, now, gapS));
    GapsAtCons(a, rest, now, later, gaps);
    idx := if next - a > gapS then [0] + Shifted(later) else Shifted(later);
    assert {} + chosen == chosen && [] + gaps == gaps;
  }

  /** The gaps are exactly the stretches over the threshold between a beat and the next, in order. */
  lemma {:induction false} GapsAreStretches(sorted: seq<int>, now: int, gapS: int) returns (idx: seq<int>)
    ensures Enumerates(idx, GapIndices(sorted, now, gapS)) && AreGapsAt(sorted, now, idx, Gaps(sorted, now, gapS))
  {
    idx := [];
    if sorted != [] {
      var later := GapsAreStretches(sorted[1..], now, gapS);
      assert sorted == [sorted[0]] + sorted[1..];
      idx := StretchesCons(sorted[0], sorted[1..], now, gapS, later);
    }
  }

  // An outage inside a window: the gap between a beat and the next, cut to the window.
  predicate IsCut(o: Outage, beat: int, next: int, lo: int, hi: int, now: int) {
    && beat <= o.start && lo <= o.start && (o.start == beat || o.start == lo)
    && o.end <= next && o.end <= hi && (o.end == next || o.end == hi)
    && o.duration == o.end - o.start >= 1
    && (o.ongoing <==> next == now)
  }

  // The gaps that share at least a second with a window.
  ghost function CutIndices(gaps: seq<Gap>, lo: int, hi: int): set<int> {
    set k | 0 <= k < |gaps| && Overlap(gaps[k].start, gaps[k].end, lo, hi) >= 1
  }

  lemma ClipIsCut(gap: Gap, lo: int, hi: int, now: int)
    ensures if Overlap(gap.start, gap.end, lo, hi) >= 1
            then |Clip(gap, lo, hi, now)| == 1 && IsCut(Clip(gap, lo, hi, now)[0], gap.start, gap.end, lo, hi, now)
            else Clip(gap, lo, hi, now) == []
  {}

  /** The outages of a window are the gaps that share at least a second with it, in order, each from its beat or
      the window's start to the next beat or the window's end, and ongoing iff the gap runs up to now. */
  lemma {:induction false} OutagesAreCutGaps(gaps: seq<Gap>, lo: int, hi: int, now: int) returns (idx: seq<int>)
    ensures Enumerates(idx, CutIndices(gaps, lo, hi))
    ensures var outages := Outages(gaps, lo, hi, now);
      && |outages| == |idx|
      && forall k :: 0 <= k < |idx| ==>
           0 <= idx[k] < |gaps| && IsCut(outages[k], gaps[idx[k]].start, gaps[idx[k]].end, lo, hi, now)
  {
    idx := [];
    if gaps != [] {
      var init, last := gaps[..|gaps| - 1], gaps[|gaps| - 1];
      idx := OutagesAreCutGaps(init, lo, hi, now);
      assert gaps == init + [last];
      hide Clip, IsCut, Overlap, Enumerates, CutIndices;
      ClipIsCut(last, lo, hi, now);
      CutIndicesOneMore(init, last, lo, hi);
      EnumeratesOneMore(idx, CutIndices(init, lo, hi), |init|);
      if Overlap(last.start, last.end, lo, hi) >= 1 {
        idx := idx + [|init|];
      } else {
        assert CutIndices(init, lo, hi) + {} == CutIndices(init, lo, hi);
      }
    }
  }

  lemma CutIndicesOneMore(init: seq<Gap>, last: Gap, lo: int, hi: int)
    ensures CutIndices(init + [last], lo, hi)
         == CutIndices(init, lo, hi) + (if Overlap(last.start, last.end, lo, hi) >= 1 then {|init|} else {})
    ensures forall k :: k in CutIndices(init, lo, hi) ==> k < |init|
  {
    hide Overlap;
    assert forall k :: 0 <= k < |init| ==> (init + [last])[k] == init[k];
  }

  /** So a measured day's outages are its gaps between beats, cut to the day, the first beat and now. */
  lemma ReportedOutages(sorted: seq<int>, statuses: seq<int>, now: int, day: int, gapS: int) returns (idx: seq<int>)
    requires sorted != []
    ensures var r := Report(sorted, statuses, now, day, gapS);
      var lo := if sorted[0] > day * 86400 then sorted[0] else day * 86400;
      var hi := if now < (day + 1) * 86400 then now else (day + 1) * 86400;
      r.Measured? ==>
        && |r.outages| == |idx|
        && (forall j, k :: 0 <= j < k < |idx| ==> idx[j] < idx[k])
        && (forall i :: i in idx <==> i in GapIndices(sorted, now, gapS) && Shares(sorted, now, i, lo, hi))
        && (forall k :: 0 <= k < |idx| ==>
              && 0 <= idx[k] < |sorted|
              && IsCut(r.outages[k], sorted[idx[k]], NextBeat(sorted, now, idx[k]), lo, hi, now))
  {
    OutagesOfReport(sorted, statuses, now, day, gapS);
    hide Report, Gaps, Outages, IsCut, GapIndices, CutIndices, WindowStart, WindowEnd, NextBeat;
    var lo, hi, gaps := WindowStart(sorted, day), WindowEnd(now, day), Gaps(sorted, now, gapS);
    var beats := GapsAreStretches(sorted, now, gapS);
    var cuts := OutagesAreCutGaps(gaps, lo, hi, now);
    idx := CutBeats(sorted, now, gapS, gaps, beats, cuts, lo, hi);
  }

  // The stretch from beat i to the next has a second in the window.
  predicate Shares(sorted: seq<int>, now: int, i: int, lo: int, hi: int)
    requires 0 <= i < |sorted|
  {
    var beat, next := sorted[i], NextBeat(sorted, now, i);
    (if next < hi then next else hi) - (if beat > lo then beat else lo) >= 1
  }

  // The beats whose gaps are cut into outages.
  lemma CutBeats(sorted: seq<int>, now: int, gapS: int, gaps: seq<Gap>, beats: seq<int>, cuts: seq<int>, lo: int,
                 hi: int)
    returns (idx: seq<int>)
    requires Enumerates(beats, GapIndices(sorted, now, gapS)) && AreGapsAt(sorted, now, beats, gaps)
    requires Enumerates(cuts, CutIndices(gaps, lo, hi))
    ensures |idx| == |cuts| && forall j, k :: 0 <= j < k < |idx| ==> idx[j] < idx[k]
    ensures forall k :: 0 <= k < |cuts| ==> 0 <= cuts[k] < |beats| && idx[k] == beats[cuts[k]]
    ensures forall i :: i in idx <==> i in GapIndices(sorted, now, gapS) && Shares(sorted, now, i, lo, hi)
  {
    forall k | 0 <= k < |cuts| ensures 0 <= cuts[k] < |beats| {
      assert cuts[k] in cuts;
    }
    idx := seq(|cuts|, k requires 0 <= k < |cuts| => beats[cuts[k]]);
    forall m | 0 <= m < |beats|
      ensures beats[m] in GapIndices(sorted, now, gapS)
      ensures m in cuts <==> Shares(sorted, now, beats[m], lo, hi)
    {
      assert beats[m] in beats;
      assert gaps[m] == Gap(sorted[beats[m]], NextBeat(sorted, now, beats[m]));
    }
    hide GapIndices, CutIndices, AreGapsAt, NextBeat, Shares;
    forall i ensures i in idx <==> i in GapIndices(sorted, now, gapS) && Shares(sorted, now, i, lo, hi) {
      if i in idx {
        var k :| 0 <= k < |idx| && idx[k] == i;
        assert cuts[k] in cuts;
      }
      if i in GapIndices(sorted, now, gapS) && Shares(sorted, now, i, lo, hi) {
        var m :| 0 <= m < |beats| && beats[m] == i;
        var k :| 0 <= k < |cuts| && cuts[k] == m;
        assert idx[k] == i;
      }
    }
  }

  lemma OutagesOfReport(sorted: seq<int>, statuses: seq<int>, now: int, day: int, gapS: int)
    requires sorted != []
    ensures var r, lo, hi := Report(sorted, statuses, now, day, gapS), WindowStart(sorted, day), WindowEnd(now, day);
      && lo == (if sorted[0] > day * 86400 then sorted[0] else day * 86400)
      && hi == (if now < (day + 1) * 86400 then now else (day + 1) * 86400)
      && (r.Measured? ==> r.outages == Outages(Gaps(sorted, now, gapS), lo, hi, now))
  {
    hide Outages, Gaps, UptimePercent, TotalDuration, Errors;
  }
}
