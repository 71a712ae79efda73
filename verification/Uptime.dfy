/** Properties of the availability report. */
module Uptime {
  import opened Sequences
  import opened Availability

  // ---------------------------------------------------------------- downtime is overlap

  lemma {:induction false} TotalOverlapConcat(a: seq<Gap>, b: seq<Gap>, lo: int, hi: int)
    ensures TotalOverlap(a + b, lo, hi) == TotalOverlap(a, lo, hi) + TotalOverlap(b, lo, hi)
  {
    if a == [] {
      assert a + b == b;
    } else {
      assert (a + b)[1..] == a[1..] + b;
      TotalOverlapConcat(a[1..], b, lo, hi);
    }
  }

  lemma OneGap(gap: Gap, lo: int, hi: int)
    ensures TotalOverlap([gap], lo, hi) == Overlap(gap.start, gap.end, lo, hi)
  {
    assert [gap][1..] == [];
  }

  // The reported outages of a day last exactly as long as the gaps overlap its window.
  lemma {:induction false} OutagesMeasureOverlap(gaps: seq<Gap>, lo: int, hi: int, now: int)
    ensures TotalDuration(Outages(gaps, lo, hi, now)) == TotalOverlap(gaps, lo, hi)
  {
    if gaps != [] {
      var init, last := gaps[..|gaps| - 1], gaps[|gaps| - 1];
      OutagesMeasureOverlap(init, lo, hi, now);
      assert gaps == init + [last];
      TotalOverlapConcat(init, [last], lo, hi);
      OneGap(last, lo, hi);
      var clip := Clip(last, lo, hi, now);
      if clip != [] {
        TotalDurationStep(Outages(init, lo, hi, now), clip[0]);
      } else {
        assert Outages(gaps, lo, hi, now) == Outages(init, lo, hi, now);
      }
    }
  }

  lemma {:induction false} GapsStartAfterFirst(beats: seq<int>, now: int, gapS: int)
    requires Sorted(beats) && beats != []
    ensures forall i :: 0 <= i < |Gaps(beats, now, gapS)| ==> Gaps(beats, now, gapS)[i].start >= beats[0]
  {
    if |beats| > 1 {
      GapsStartAfterFirst(beats[1..], now, gapS);
    }
  }

  lemma {:induction false} ClippingAtFirstChangesNothing(gaps: seq<Gap>, first: int, lo: int, hi: int)
    requires forall i :: 0 <= i < |gaps| ==> gaps[i].start >= first
    ensures TotalOverlap(gaps, Max(lo, first), hi) == TotalOverlap(gaps, lo, hi)
    ensures hi <= Max(lo, first) ==> TotalOverlap(gaps, lo, hi) == 0
  {
    if gaps != [] {
      ClippingAtFirstChangesNothing(gaps[1..], first, lo, hi);
    }
  }

  // A day's downtime is the part of the gaps inside the day, up to now.
  lemma DowntimeIsOverlap(sorted: seq<int>, statuses: seq<int>, now: int, day: int, gapS: int)
    requires Sorted(sorted)
    ensures Downtime(Report(sorted, statuses, now, day, gapS))
      == TotalOverlap(Gaps(sorted, now, gapS), day * DAY, WindowEnd(now, day))
  {
    if sorted != [] {
      var gaps := Gaps(sorted, now, gapS);
      GapsStartAfterFirst(sorted, now, gapS);
      ClippingAtFirstChangesNothing(gaps, sorted[0], day * DAY, WindowEnd(now, day));
      OutagesMeasureOverlap(gaps, WindowStart(sorted, day), WindowEnd(now, day), now);
    }
  }

  // ---------------------------------------------------------------- tiling

  lemma OverlapTiles(a: int, b: int, x: int, y: int, z: int)
    requires x <= y <= z
    ensures Overlap(a, b, x, y) + Overlap(a, b, y, z) == Overlap(a, b, x, z)
  {}

  lemma {:induction false} TotalOverlapTiles(gaps: seq<Gap>, x: int, y: int, z: int)
    requires x <= y <= z
    ensures TotalOverlap(gaps, x, y) + TotalOverlap(gaps, y, z) == TotalOverlap(gaps, x, z)
  {
    if gaps != [] {
      OverlapTiles(gaps[0].start, gaps[0].end, x, y, z);
      TotalOverlapTiles(gaps[1..], x, y, z);
    }
  }

  lemma {:induction false} EmptyWindow(gaps: seq<Gap>, lo: int, hi: int)
    requires hi <= lo
    ensures TotalOverlap(gaps, lo, hi) == 0
  {
    if gaps != [] {
      EmptyWindow(gaps[1..], lo, hi);
    }
  }

  function TotalDowntime(rs: seq<DayReport>): int {
    if rs == [] then 0 else Downtime(rs[0]) + TotalDowntime(rs[1..])
  }

  // The days from first to today, today included, cover the time from the first day's start to now.
  lemma {:induction false} DaysTile(sorted: seq<int>, byDay: map<int, seq<int>>, now: int, rs: seq<DayReport>,
                                    first: int, gapS: int)
    requires Sorted(sorted) && first + |rs| == now / DAY + 1
    requires forall i :: 0 <= i < |rs| ==> rs[i] == Report(sorted, StatusesOf(byDay, first + i), now, first + i, gapS)
    ensures TotalDowntime(rs) == TotalOverlap(Gaps(sorted, now, gapS), first * DAY, now)
  {
    var gaps := Gaps(sorted, now, gapS);
    hide Gaps, Report, TotalOverlap, StatusesOf, Sorted;
    if rs == [] {
      EmptyWindow(gaps, first * DAY, now);
    } else {
      DowntimeIsOverlap(sorted, StatusesOf(byDay, first), now, first, gapS);
      forall i | 0 <= i < |rs[1..]|
        ensures rs[1..][i] == Report(sorted, StatusesOf(byDay, first + 1 + i), now, first + 1 + i, gapS)
      {
        assert rs[1..][i] == rs[1 + i];
      }
      DaysTile(sorted, byDay, now, rs[1..], first + 1, gapS);
      assert WindowEnd(now, first) == if |rs| == 1 then now else (first + 1) * DAY;
      if |rs| == 1 {
        EmptyWindow(gaps, (first + 1) * DAY, now);
      } else {
        TotalOverlapTiles(gaps, first * DAY, (first + 1) * DAY, now);
      }
    }
  }

  /** Daily downtime tiles the gaps: the days' downtimes add up to the total length of the
      over-threshold gaps inside the reporting window, nothing counted twice or lost at midnight. */
  lemma DailyDowntimeTilesTheGaps(beats: seq<int>, byDay: map<int, seq<int>>, now: int, days: nat, gapS: int)
    ensures TotalDowntime(Reports(Sort(beats), byDay, now, days, gapS))
         == TotalOverlap(Gaps(Sort(beats), now, gapS), (now / DAY - days + 1) * DAY, now)
  {
    hide Sort, Gaps, Report, TotalOverlap, StatusesOf, Sorted, TotalDowntime;
    SortSorts(beats);
    var sorted, first := Sort(beats), now / DAY - days + 1;
    DaysTile(sorted, byDay, now, Reports(sorted, byDay, now, days, gapS), first, gapS);
  }

  // ---------------------------------------------------------------- bounds

  // Gaps between consecutive beats do not overlap, so together they fit into any window.
  lemma {:induction false} GapsFit(beats: seq<int>, now: int, gapS: int, lo: int, hi: int)
    requires Sorted(beats) && beats != []
    ensures TotalOverlap(Gaps(beats, now, gapS), lo, hi) <= Overlap(beats[0], Max(beats[|beats| - 1], now), lo, hi)
  {
    var next := if |beats| > 1 then beats[1] else now;
    var head := if next - beats[0] > gapS then [Gap(beats[0], next)] else [];
    TotalOverlapConcat(head, Gaps(beats[1..], now, gapS), lo, hi);
    OneGap(Gap(beats[0], next), lo, hi);
    if |beats| > 1 {
      GapsFit(beats[1..], now, gapS, lo, hi);
      OverlapSplits(beats[0], beats[1], Max(beats[|beats| - 1], now), lo, hi);
    }
  }

  lemma OverlapSplits(a: int, b: int, c: int, lo: int, hi: int)
    requires a <= b <= c
    ensures Overlap(a, b, lo, hi) + Overlap(b, c, lo, hi) == Overlap(a, c, lo, hi)
  {}

  lemma PercentInRange(good: int, all: int)
    requires 0 <= good <= all && all > 0
    ensures 0.0 <= Percent(good, all) <= 100.0
  {
    var g, a := good as real, all as real;
    assert g / a <= 1.0;
  }

  // What a report says, in terms of the gaps.
  lemma ReportMeans(sorted: seq<int>, statuses: seq<int>, now: int, day: int, gapS: int)
    requires sorted != []
    ensures var r, lo, hi := Report(sorted, statuses, now, day, gapS), WindowStart(sorted, day), WindowEnd(now, day);
      && (r.Measured? <==> lo < hi)
      && (r.Measured? ==>
            && r.covered == hi - lo && r.downtime == TotalOverlap(Gaps(sorted, now, gapS), lo, hi)
            && r.uptime == UptimePercent(r.covered, r.downtime, statuses))
  {
    hide Outages, Gaps, UptimePercent, TotalDuration, TotalOverlap, WindowStart, WindowEnd;
    OutagesMeasureOverlap(Gaps(sorted, now, gapS), WindowStart(sorted, day), WindowEnd(now, day), now);
  }

  lemma UptimeInRange(covered: int, downtime: int, statuses: seq<int>)
    requires covered > 0 && 0 <= downtime <= covered
    ensures 0.0 <= UptimePercent(covered, downtime, statuses) <= 100.0
  {
    hide Percent;
    PercentInRange(covered - downtime, covered);
    if statuses != [] {
      PercentInRange(|statuses| - Errors(statuses), |statuses|);
    }
  }

  /** On every measured day 0 <= downtime <= covered time, so the uptime lies between 0 and 100. */
  lemma MeasuredDayIsBounded(beats: seq<int>, statuses: seq<int>, now: int, day: int, gapS: int)
    ensures var r := Report(Sort(beats), statuses, now, day, gapS);
      r.Measured? ==> 0 <= r.downtime <= r.covered && 0.0 <= r.uptime <= 100.0
  {
    SortSorts(beats);
    if Sort(beats) != [] {
      hide Report, Sort;
      SortedDayIsBounded(Sort(beats), statuses, now, day, gapS);
    }
  }

  lemma SortedDayIsBounded(sorted: seq<int>, statuses: seq<int>, now: int, day: int, gapS: int)
    requires sorted != [] && Sorted(sorted)
    ensures var r := Report(sorted, statuses, now, day, gapS);
      r.Measured? ==> 0 <= r.downtime <= r.covered && 0.0 <= r.uptime <= 100.0
  {
    hide Report, Gaps, TotalOverlap, UptimePercent, WindowStart, WindowEnd;
    var lo, hi := WindowStart(sorted, day), WindowEnd(now, day);
    ReportMeans(sorted, statuses, now, day, gapS);
    if lo < hi {
      GapsFit(sorted, now, gapS, lo, hi);
      UptimeInRange(hi - lo, TotalOverlap(Gaps(sorted, now, gapS), lo, hi), statuses);
    }
  }

  // ---------------------------------------------------------------- more beats, less downtime

  // Inserting a beat cuts one gap in two, either of which may fall under the threshold.
  lemma {:induction false} InsertedBeatCutsAGap(beats: seq<int>, x: int, now: int, gapS: int, lo: int, hi: int)
    requires Sorted(beats) && beats != [] && beats[0] <= x <= now
    ensures TotalOverlap(Gaps(Insert(x, beats), now, gapS), lo, hi) <= TotalOverlap(Gaps(beats, now, gapS), lo, hi)
    ensures Insert(x, beats) != [] && Insert(x, beats)[0] == beats[0]
  {
    var a := beats[0];
    if x == a || |beats| == 1 || x <= beats[1] {
      CutFirstGap(beats, x, now, gapS, lo, hi);
    } else {
      var rest := beats[1..];
      InsertedBeatCutsAGap(rest, x, now, gapS, lo, hi);
      assert Insert(x, beats) == [a] + Insert(x, rest);
      GapsCons(a, rest, now, gapS, lo, hi);
      GapsCons(a, Insert(x, rest), now, gapS, lo, hi);
      assert beats == [a] + rest;
    }
  }

  function HeadOverlap(a: int, next: int, gapS: int, lo: int, hi: int): nat {
    if next - a > gapS then Overlap(a, next, lo, hi) else 0
  }

  lemma GapsCons(a: int, rest: seq<int>, now: int, gapS: int, lo: int, hi: int)
    ensures TotalOverlap(Gaps([a] + rest, now, gapS), lo, hi)
         == HeadOverlap(a, if rest == [] then now else rest[0], gapS, lo, hi)
            + TotalOverlap(Gaps(rest, now, gapS), lo, hi)
  {
    var next := if rest == [] then now else rest[0];
    assert ([a] + rest)[1..] == rest;
    var head := if next - a > gapS then [Gap(a, next)] else [];
    TotalOverlapConcat(head, Gaps(rest, now, gapS), lo, hi);
    OneGap(Gap(a, next), lo, hi);
  }

  lemma CutOverlap(a: int, x: int, next: int, gapS: int, lo: int, hi: int)
    requires a <= x <= next
    ensures HeadOverlap(a, x, gapS, lo, hi) + HeadOverlap(x, next, gapS, lo, hi) <= HeadOverlap(a, next, gapS, lo, hi)
  {
    OverlapSplits(a, x, next, lo, hi);
  }

  lemma CutFirstGap(beats: seq<int>, x: int, now: int, gapS: int, lo: int, hi: int)
    requires Sorted(beats) && beats != [] && beats[0] <= x <= now
    requires x == beats[0] || |beats| == 1 || x <= beats[1]
    ensures Insert(x, beats)[0] == beats[0]
    ensures TotalOverlap(Gaps(Insert(x, beats), now, gapS), lo, hi) <= TotalOverlap(Gaps(beats, now, gapS), lo, hi)
  {
    var a, rest := beats[0], beats[1..];
    var next := if rest == [] then now else rest[0];
    assert beats == [a] + rest;
    if x == a {
      assert Insert(x, beats) == [a] + beats;
      GapsCons(a, beats, now, gapS, lo, hi);
      assert Overlap(a, a, lo, hi) == 0;
    } else {
      assert Insert(x, rest) == [x] + rest;
      assert Insert(x, beats) == [a] + ([x] + rest);
      GapsCons(a, [x] + rest, now, gapS, lo, hi);
      GapsCons(x, rest, now, gapS, lo, hi);
      GapsCons(a, rest, now, gapS, lo, hi);
      CutOverlap(a, x, next, gapS, lo, hi);
    }
  }

  lemma {:induction false} SortOfCons(beats: seq<int>, x: int)
    ensures Sort([x] + beats) == Insert(x, Sort(beats))
  {
    assert ([x] + beats)[1..] == beats;
  }

  lemma PercentMonotone(good: int, good': int, all: int)
    requires good <= good' && all > 0
    ensures Percent(good, all) <= Percent(good', all)
  {
    var g, g', a := good as real, good' as real, all as real;
    assert g / a <= g' / a;
  }

  /** A further heartbeat between the first one and now, wherever it stands in the input, leaves every
      day's coverage as it was, never increases its downtime and never lowers its uptime. */
  lemma MoreBeatsNeverHurt(beats: seq<int>, more: seq<int>, x: int, statuses: seq<int>, now: int, day: int, gapS: int)
    requires beats != [] && Sort(beats) != [] && Sort(beats)[0] <= x <= now
    requires multiset(more) == multiset(beats) + multiset{x}
    ensures var r, r' := Report(Sort(beats), statuses, now, day, gapS), Report(Sort(more), statuses, now, day, gapS);
      && (r'.Measured? <==> r.Measured?)
      && Downtime(r') <= Downtime(r)
      && (r.Measured? ==> r'.covered == r.covered && r'.uptime >= r.uptime)
  {
    SortSorts(beats);
    SortOfMultiset(more, [x] + beats);
    SortOfCons(beats, x);
    hide Sort, Report, Insert;
    OneMoreSortedBeat(Sort(beats), x, statuses, now, day, gapS);
  }

  lemma OneMoreSortedBeat(s: seq<int>, x: int, statuses: seq<int>, now: int, day: int, gapS: int)
    requires Sorted(s) && s != [] && s[0] <= x <= now
    ensures var r, r' := Report(s, statuses, now, day, gapS), Report(Insert(x, s), statuses, now, day, gapS);
      && (r'.Measured? <==> r.Measured?)
      && Downtime(r') <= Downtime(r)
      && (r.Measured? ==> r'.covered == r.covered && r'.uptime >= r.uptime)
  {
    hide Insert, Gaps, Report, TotalOverlap, UptimePercent, WindowStart, WindowEnd, Sorted;
    var s' := Insert(x, s);
    var lo, hi := WindowStart(s, day), WindowEnd(now, day);
    InsertedBeatCutsAGap(s, x, now, gapS, lo, hi);
    SameFirstSameWindow(s, s', day);
    CompareReports(s, s', statuses, now, day, gapS);
  }

  lemma SameFirstSameWindow(s: seq<int>, s': seq<int>, day: int)
    requires s != [] && s' != [] && s[0] == s'[0]
    ensures WindowStart(s', day) == WindowStart(s, day)
  {}

  // Within the same window, less gap time means less downtime and no lower uptime.
  lemma CompareReports(s: seq<int>, s': seq<int>, statuses: seq<int>, now: int, day: int, gapS: int)
    requires s != [] && s' != [] && WindowStart(s', day) == WindowStart(s, day)
    requires var lo, hi := WindowStart(s, day), WindowEnd(now, day);
      TotalOverlap(Gaps(s', now, gapS), lo, hi) <= TotalOverlap(Gaps(s, now, gapS), lo, hi)
    ensures var r, r' := Report(s, statuses, now, day, gapS), Report(s', statuses, now, day, gapS);
      && (r'.Measured? <==> r.Measured?)
      && Downtime(r') <= Downtime(r)
      && (r.Measured? ==> r'.covered == r.covered && r'.uptime >= r.uptime)
  {
    hide Gaps, Report, TotalOverlap, UptimePercent, WindowStart, WindowEnd;
    var lo, hi := WindowStart(s, day), WindowEnd(now, day);
    ReportMeans(s, statuses, now, day, gapS);
    ReportMeans(s', statuses, now, day, gapS);
    if lo < hi {
      UptimeMonotone(hi - lo, TotalOverlap(Gaps(s, now, gapS), lo, hi), TotalOverlap(Gaps(s', now, gapS), lo, hi),
        statuses);
    }
  }

  lemma UptimeMonotone(covered: int, downtime: int, downtime': int, statuses: seq<int>)
    requires covered > 0 && downtime' <= downtime
    ensures UptimePercent(covered, downtime', statuses) >= UptimePercent(covered, downtime, statuses)
  {
    hide Percent;
    PercentMonotone(covered - downtime, covered - downtime', covered);
  }

  /** The order in which the beats are given does not matter. */
  lemma OrderOfBeatsDoesNotMatter(beats: seq<int>, beats': seq<int>, byDay: map<int, seq<int>>, now: int, days: nat,
                                  gapS: int)
    requires multiset(beats) == multiset(beats')
    ensures Reports(Sort(beats), byDay, now, days, gapS) == Reports(Sort(beats'), byDay, now, days, gapS)
  {
    SortOfMultiset(beats, beats');
  }
}
