/** Uptime from heartbeat gaps. Times are whole seconds since the epoch, days are counted in UTC,
    and percentages are exact, before rounding. */
module Availability {
  import opened Sequences

  const DAY: int := 86400

  datatype Gap = Gap(start: int, end: int)

  datatype Outage = Outage(start: int, end: int, duration: int, ongoing: bool)

  // A day without heartbeat coverage, or one with covered seconds, outages and percentage.
  datatype DayReport =
    | NoData(day: int, requests: nat, errors: nat)
    | Measured(day: int, covered: int, outages: seq<Outage>, downtime: int, uptime: real, requests: nat, errors: nat)

  function Min(a: int, b: int): int { if a < b then a else b }
  function Max(a: int, b: int): int { if a > b then a else b }

  // Seconds that [a, b] and [lo, hi] have in common.
  function Overlap(a: int, b: int, lo: int, hi: int): nat {
    Max(0, Min(b, hi) - Max(a, lo))
  }

  // The stretches longer than gapS between consecutive beats, the last beat paired with now.
  function Gaps(beats: seq<int>, now: int, gapS: int): seq<Gap> {
    if beats == [] then []
    else
      var next := if |beats| > 1 then beats[1] else now;
      (if next - beats[0] > gapS then [Gap(beats[0], next)] else []) + Gaps(beats[1..], now, gapS)
  }

  function TotalOverlap(gaps: seq<Gap>, lo: int, hi: int): nat {
    if gaps == [] then 0 else Overlap(gaps[0].start, gaps[0].end, lo, hi) + TotalOverlap(gaps[1..], lo, hi)
  }

  // A gap clipped to a window, reported if it lasts at least a second there.
  function Clip(gap: Gap, lo: int, hi: int, now: int): seq<Outage> {
    var s, e := Max(gap.start, lo), Min(gap.end, hi);
    if e - s >= 1 then [Outage(s, e, e - s, gap.end == now)] else []
  }

  function Outages(gaps: seq<Gap>, lo: int, hi: int, now: int): seq<Outage> {
    if gaps == [] then []
    else Outages(gaps[..|gaps| - 1], lo, hi, now) + Clip(gaps[|gaps| - 1], lo, hi, now)
  }

  function TotalDuration(outages: seq<Outage>): int {
    if outages == [] then 0 else TotalDuration(outages[..|outages| - 1]) + outages[|outages| - 1].duration
  }

  function Errors(statuses: seq<int>): (n: nat)
    ensures n <= |statuses|
  {
    if statuses == [] then 0
    else Errors(statuses[..|statuses| - 1]) + (if statuses[|statuses| - 1] >= 500 then 1 else 0)
  }

  function Percent(good: int, all: int): real
    requires all > 0
  {
    good as real / all as real * 100.0
  }

  function MinReal(a: real, b: real): real { if a < b then a else b }

  // The smaller of heartbeat uptime and share of requests without a server error.
  function UptimePercent(covered: int, downtime: int, statuses: seq<int>): real
    requires covered > 0
  {
    MinReal(Percent(covered - downtime, covered),
            if statuses == [] then 100.0 else Percent(|statuses| - Errors(statuses), |statuses|))
  }

  // The window of a day that heartbeats cover: from the first beat on, up to now.
  function WindowStart(sorted: seq<int>, day: int): int
    requires sorted != []
  {
    Max(day * DAY, sorted[0])
  }

  function WindowEnd(now: int, day: int): int {
    Min(day * DAY + DAY, now)
  }

  function Report(sorted: seq<int>, statuses: seq<int>, now: int, day: int, gapS: int): DayReport {
    if sorted == [] || WindowEnd(now, day) <= WindowStart(sorted, day) then NoData(day, |statuses|, Errors(statuses))
    else
      var lo, hi := WindowStart(sorted, day), WindowEnd(now, day);
      var outages := Outages(Gaps(sorted, now, gapS), lo, hi, now);
      var downtime := TotalDuration(outages);
      Measured(day, hi - lo, outages, downtime, UptimePercent(hi - lo, downtime, statuses), |statuses|,
        Errors(statuses))
  }

  function Downtime(r: DayReport): int {
    if r.NoData? then 0 else r.downtime
  }

  function StatusesOf(byDay: map<int, seq<int>>, day: int): seq<int> {
    if day in byDay then byDay[day] else []
  }

  // The report of the given number of days, oldest first, ending today.
  function Reports(sorted: seq<int>, byDay: map<int, seq<int>>, now: int, days: nat, gapS: int): (rs: seq<DayReport>)
    ensures |rs| == days
  {
    seq(days, i requires 0 <= i < days =>
      Report(sorted, StatusesOf(byDay, now / DAY - days + 1 + i), now, now / DAY - days + 1 + i, gapS))
  }

  method FindGaps(beats: seq<int>, now: int, gapS: int) returns (down: seq<Gap>)
    ensures down == Gaps(beats, now, gapS)
  {
    down := [];
    for i := 0 to |beats|
      invariant down + Gaps(beats[i..], now, gapS) == Gaps(beats, now, gapS)
    {
      var a, b := beats[i], if i + 1 < |beats| then beats[i + 1] else now;
      assert beats[i..][1..] == beats[i + 1..];
      ghost var rest := Gaps(beats[i + 1..], now, gapS);
      if b - a > gapS {
        assert down + ([Gap(a, b)] + rest) == (down + [Gap(a, b)]) + rest;
        down := down + [Gap(a, b)];
      } else {
        assert [] + rest == rest;
      }
    }
  }

  method CountErrors(statuses: seq<int>) returns (n: nat)
    ensures n == Errors(statuses)
  {
    n := 0;
    for i := 0 to |statuses|
      invariant n == Errors(statuses[..i])
    {
      assert statuses[..i + 1][..i] == statuses[..i];
      if statuses[i] >= 500 {
        n := n + 1;
      }
    }
    assert statuses[..|statuses|] == statuses;
  }

  lemma TotalDurationStep(outages: seq<Outage>, o: Outage)
    ensures TotalDuration(outages + [o]) == TotalDuration(outages) + o.duration
  {
    assert (outages + [o])[..|outages|] == outages;
  }

  method ClipGaps(down: seq<Gap>, lo: int, hi: int, now: int) returns (outages: seq<Outage>, downtime: int)
    ensures outages == Outages(down, lo, hi, now) && downtime == TotalDuration(outages)
  {
    outages, downtime := [], 0;
    for i := 0 to |down|
      invariant outages == Outages(down[..i], lo, hi, now)
      invariant downtime == TotalDuration(outages)
    {
      assert down[..i + 1][..i] == down[..i];
      var s, e := Max(down[i].start, lo), Min(down[i].end, hi);
      if e - s >= 1 {
        TotalDurationStep(outages, Outage(s, e, e - s, down[i].end == now));
        outages := outages + [Outage(s, e, e - s, down[i].end == now)];
        downtime := downtime + (e - s);
      }
    }
    assert down[..|down|] == down;
  }

  /** compute_availability: what every reported day says, as a function of the sorted beats. */
  method ComputeAvailability(beats: seq<int>, byDay: map<int, seq<int>>, now: int, days: nat, gapS: int)
    returns (out: seq<DayReport>)
    ensures out == Reports(Sort(beats), byDay, now, days, gapS)
  {
    var sorted := Sort(beats);
    var down := FindGaps(sorted, now, gapS);
    out := [];
    var today := now / DAY;
    var i: int := days - 1;
    hide Report, Gaps, StatusesOf, Sort;
    while i >= 0
      invariant -1 <= i < days
      invariant |out| == days - 1 - i
      invariant forall j :: 0 <= j < |out| ==>
        out[j] == Report(sorted, StatusesOf(byDay, today - days + 1 + j), now, today - days + 1 + j, gapS)
    {
      var d := today - i;
      assert d == today - days + 1 + |out|;
      var report := ReportDay(sorted, down, byDay, now, d, gapS);
      out := out + [report];
      i := i - 1;
    }
  }

  method ReportDay(sorted: seq<int>, down: seq<Gap>, byDay: map<int, seq<int>>, now: int, day: int, gapS: int)
    returns (r: DayReport)
    requires down == Gaps(sorted, now, gapS)
    ensures r == Report(sorted, StatusesOf(byDay, day), now, day, gapS)
  {
    var statuses := if day in byDay then byDay[day] else [];
    var errors := CountErrors(statuses);
    if sorted == [] {
      return NoData(day, |statuses|, errors);
    }
    var lo, hi := Max(day * DAY, sorted[0]), Min(day * DAY + DAY, now);
    if hi <= lo {
      return NoData(day, |statuses|, errors);
    }
    var outages, downtime := ClipGaps(down, lo, hi, now);
    var errorFree := if statuses == [] then 100.0 else Percent(|statuses| - errors, |statuses|);
    r := Measured(day, hi - lo, outages, downtime, MinReal(Percent(hi - lo - downtime, hi - lo), errorFree),
      |statuses|, errors);
  }
}
