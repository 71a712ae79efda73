/** The heartbeat file: one timestamp a line; reading within a window and rotating. */
module Heartbeats {
  import opened Text
  import opened Lines
  import opened Sequences

  // datetime.fromisoformat on a stripped line: a time with its offset, one without, or a ValueError.
  datatype Stamp = Aware(time: int) | Naive | NotATime

  type BeatParser = string -> Stamp

  predicate IsFreshBeat(parse: BeatParser, line: string, cutoff: int) {
    var t := parse(TrimSpace(line));
    t.Aware? && t.time >= cutoff
  }

  // Comparing a time without offset to the cutoff raises a TypeError, which nobody catches.
  predicate Comparable(parse: BeatParser, lines: seq<string>) {
    forall i :: 0 <= i < |lines| ==> !parse(TrimSpace(lines[i])).Naive?
  }

  function FreshLines(parse: BeatParser, lines: seq<string>, cutoff: int): (kept: seq<string>)
    ensures forall i :: 0 <= i < |kept| ==> IsFreshBeat(parse, kept[i], cutoff) && kept[i] in lines
  {
    if lines == [] then []
    else
      assert lines == lines[..|lines| - 1] + [lines[|lines| - 1]];
      FreshLines(parse, lines[..|lines| - 1], cutoff)
      + (if IsFreshBeat(parse, lines[|lines| - 1], cutoff) then [lines[|lines| - 1]] else [])
  }

  function BeatTimes(parse: BeatParser, lines: seq<string>): (ts: seq<int>)
    requires forall i :: 0 <= i < |lines| ==> parse(TrimSpace(lines[i])).Aware?
    ensures |ts| == |lines|
  {
    seq(|lines|, i requires 0 <= i < |lines| => parse(TrimSpace(lines[i])).time)
  }

  // The beats of a file within a cutoff, in file order; None if reading it raises.
  function BeatsSince(parse: BeatParser, file: string, cutoff: int): Option<seq<int>> {
    if Comparable(parse, ReadLines(file)) then Some(BeatTimes(parse, FreshLines(parse, ReadLines(file), cutoff)))
    else None
  }

  method ReadHeartbeats(file: Option<string>, cutoff: int, parse: BeatParser) returns (read: Option<seq<int>>)
    ensures read == if file.None? then Some([]) else BeatsSince(parse, file.value, cutoff)
  {
    var beats: seq<int> := [];
    if file.None? {
      return Some(beats);
    }
    var lines := ReadLines(file.value);
    hide FreshLines, BeatTimes, Comparable, ReadLines, IsFreshBeat;
    NoLines(parse, cutoff);
    for i := 0 to |lines|
      invariant Comparable(parse, lines[..i])
      invariant beats == BeatTimes(parse, FreshLines(parse, lines[..i], cutoff))
    {
      OneMoreLine(parse, lines, i, cutoff);
      OneMoreBeat(parse, lines, i, cutoff);
      var t := parse(TrimSpace(lines[i]));
      if t.Naive? {
        return None;
      }
      if t.Aware? && t.time >= cutoff {
        beats := beats + [t.time];
      }
    }
    assert lines[..|lines|] == lines;
    return Some(beats);
  }

  lemma OneMoreBeat(parse: BeatParser, lines: seq<string>, i: nat, cutoff: int)
    requires i < |lines|
    ensures var t := parse(TrimSpace(lines[i]));
      var more := if t.Aware? && t.time >= cutoff then [t.time] else [];
      BeatTimes(parse, FreshLines(parse, lines[..i + 1], cutoff))
        == BeatTimes(parse, FreshLines(parse, lines[..i], cutoff)) + more
  {
    assert lines[..i + 1][..i] == lines[..i];
  }

  // A rotation that raises leaves the file alone.
  function RotatedBeats(parse: BeatParser, file: string, cutoff: int): string {
    if Comparable(parse, ReadLines(file)) then Concat(FreshLines(parse, ReadLines(file), cutoff)) else file
  }

  // Malformed lines go as well, and count as removed; None when the rotation raises.
  method RotateHeartbeats(file: Option<string>, cutoff: int, parse: BeatParser)
    returns (removed: Option<int>, file': Option<string>)
    ensures file.None? ==> removed == Some(0) && file'.None?
    ensures file.Some? ==> var lines := ReadLines(file.value);
      removed == if Comparable(parse, lines) then Some(|lines| - |FreshLines(parse, lines, cutoff)|) else None
    ensures file.Some? ==> file' == Some(RotatedBeats(parse, file.value, cutoff))
  {
    if file.None? {
      return Some(0), None;
    }
    var lines := ReadLines(file.value);
    var kept: seq<string> := [];
    hide FreshLines, Comparable, Concat, ReadLines;
    NoLines(parse, cutoff);
    for i := 0 to |lines|
      invariant Comparable(parse, lines[..i])
      invariant kept == FreshLines(parse, lines[..i], cutoff)
    {
      OneMoreLine(parse, lines, i, cutoff);
      var t := parse(TrimSpace(lines[i]));
      if t.Naive? {
        return None, file;
      }
      if t.Aware? && t.time >= cutoff {
        kept := kept + [lines[i]];
      }
    }
    assert lines[..|lines|] == lines;
    removed := Some(|lines| - |kept|);
    file' := file;
    if |lines| != |kept| {
      file' := Some(Concat(kept));
    } else {
      FreshOfSameLength(parse, lines, cutoff);
      ReadLinesAreLines(file.value);
    }
  }

  lemma NoLines(parse: BeatParser, cutoff: int)
    ensures Comparable(parse, []) && FreshLines(parse, [], cutoff) == [] && BeatTimes(parse, []) == []
  {}

  lemma OneMoreLine(parse: BeatParser, lines: seq<string>, i: nat, cutoff: int)
    requires i < |lines| && Comparable(parse, lines[..i])
    ensures var t := parse(TrimSpace(lines[i]));
      && (t.Naive? ==> !Comparable(parse, lines))
      && (!t.Naive? ==> Comparable(parse, lines[..i + 1]))
    ensures FreshLines(parse, lines[..i + 1], cutoff)
         == FreshLines(parse, lines[..i], cutoff) + if IsFreshBeat(parse, lines[i], cutoff) then [lines[i]] else []
  {
    assert lines[..i + 1][..i] == lines[..i];
  }

  lemma {:induction false} FreshOfSameLength(parse: BeatParser, lines: seq<string>, cutoff: int)
    ensures |FreshLines(parse, lines, cutoff)| <= |lines|
    ensures |FreshLines(parse, lines, cutoff)| == |lines| ==> FreshLines(parse, lines, cutoff) == lines
  {
    if lines != [] {
      FreshOfSameLength(parse, lines[..|lines| - 1], cutoff);
    }
  }

  lemma {:induction false} FreshAreLines(parse: BeatParser, lines: seq<string>, cutoff: int)
    requires AreLines(lines)
    ensures AreLines(FreshLines(parse, lines, cutoff))
    ensures (forall i :: 0 <= i < |lines| ==> EndsInNewline(lines[i])) ==>
      forall i :: 0 <= i < |FreshLines(parse, lines, cutoff)| ==> EndsInNewline(FreshLines(parse, lines, cutoff)[i])
  {
    hide IsLine, EndsInNewline, IsFreshBeat;
    if lines != [] {
      var init := lines[..|lines| - 1];
      assert forall i :: 0 <= i < |init| ==> EndsInNewline(init[i]);
      FreshAreLines(parse, init, cutoff);
    }
  }

  lemma {:induction false} FreshTwice(parse: BeatParser, lines: seq<string>, cutoff: int, later: int)
    requires cutoff <= later
    ensures FreshLines(parse, FreshLines(parse, lines, cutoff), later) == FreshLines(parse, lines, later)
  {
    if lines != [] {
      var init, last := lines[..|lines| - 1], lines[|lines| - 1];
      FreshTwice(parse, init, cutoff, later);
      var kept := FreshLines(parse, init, cutoff);
      assert (kept + [last])[..|kept|] == kept;
      assert kept + [] == kept;
    }
  }

  /** Rotation is invisible to readers with a later cutoff, whatever order the beats are in, also when
      a time without offset makes both raise; and a second rotation removes nothing. */
  lemma RotationIsInvisible(parse: BeatParser, file: string, cutoff: int, later: int)
    requires cutoff <= later
    ensures BeatsSince(parse, RotatedBeats(parse, file, cutoff), later) == BeatsSince(parse, file, later)
    ensures var lines' := ReadLines(RotatedBeats(parse, file, cutoff));
      Comparable(parse, lines') ==> FreshLines(parse, lines', cutoff) == lines'
    ensures RotatedBeats(parse, RotatedBeats(parse, file, cutoff), cutoff) == RotatedBeats(parse, file, cutoff)
  {
    var lines := ReadLines(file);
    var kept := FreshLines(parse, lines, cutoff);
    if Comparable(parse, lines) {
      assert Comparable(parse, kept);
      hide IsFreshBeat, Comparable;
      ReadLinesAreLines(file);
      FreshAreLines(parse, lines, cutoff);
      LinesRoundTrip(kept);
      FreshTwice(parse, lines, cutoff, later);
      FreshTwice(parse, lines, cutoff, cutoff);
    }
  }

  // ---------------------------------------------------------------- line by line

  ghost function FreshIndices(parse: BeatParser, lines: seq<string>, cutoff: int): set<int> {
    set i | 0 <= i < |lines| && parse(TrimSpace(lines[i])).Aware? && parse(TrimSpace(lines[i])).time >= cutoff
  }

  // kept are the lines at the given indices, as they are.
  ghost predicate AreLinesAt(lines: seq<string>, idx: seq<int>, kept: seq<string>) {
    |kept| == |idx| && forall k :: 0 <= k < |idx| ==> 0 <= idx[k] < |lines| && kept[k] == lines[idx[k]]
  }

  lemma FreshOneMore(parse: BeatParser, init: seq<string>, line: string, cutoff: int)
    ensures FreshIndices(parse, init + [line], cutoff)
         == FreshIndices(parse, init, cutoff) + (if IsFreshBeat(parse, line, cutoff) then {|init|} else {})
    ensures forall j :: j in FreshIndices(parse, init, cutoff) ==> j < |init|
  {
    hide TrimSpace;
    assert forall i :: 0 <= i < |init| ==> (init + [line])[i] == init[i];
  }

  lemma {:induction false} FreshLinesAre(parse: BeatParser, lines: seq<string>, cutoff: int) returns (idx: seq<int>)
    ensures Enumerates(idx, FreshIndices(parse, lines, cutoff))
    ensures AreLinesAt(lines, idx, FreshLines(parse, lines, cutoff))
  {
    idx := [];
    if lines != [] {
      var init, line := lines[..|lines| - 1], lines[|lines| - 1];
      idx := FreshLinesAre(parse, init, cutoff);
      assert lines == init + [line];
      hide IsFreshBeat, FreshIndices, Enumerates;
      FreshOneMore(parse, init, line, cutoff);
      EnumeratesOneMore(idx, FreshIndices(parse, init, cutoff), |init|);
      if IsFreshBeat(parse, line, cutoff) {
        idx := idx + [|init|];
      } else {
        assert FreshIndices(parse, init, cutoff) + {} == FreshIndices(parse, init, cutoff);
      }
    }
  }

  /** Line by line: a read raises iff some line has a time without offset; otherwise it returns the times
      of exactly the lines that parse to one within the cutoff, in order. */
  lemma BeatsLineByLine(parse: BeatParser, file: string, cutoff: int) returns (idx: seq<int>)
    ensures var lines, read := ReadLines(file), BeatsSince(parse, file, cutoff);
      && (read.None? <==> exists i :: 0 <= i < |lines| && parse(TrimSpace(lines[i])).Naive?)
      && (read.Some? ==>
            && Enumerates(idx, FreshIndices(parse, lines, cutoff)) && |read.value| == |idx|
            && forall k :: 0 <= k < |idx| ==>
                 0 <= idx[k] < |lines| && parse(TrimSpace(lines[idx[k]])) == Aware(read.value[k]))
  {
    var lines := ReadLines(file);
    idx := FreshLinesAre(parse, lines, cutoff);
    hide ReadLines, FreshLines, Enumerates, TrimSpace;
  }

  /** And a rotation that does not raise keeps exactly those lines, in order and unchanged. */
  lemma RotationLineByLine(parse: BeatParser, file: string, cutoff: int) returns (idx: seq<int>)
    ensures var lines, kept := ReadLines(file), ReadLines(RotatedBeats(parse, file, cutoff));
      if exists i :: 0 <= i < |lines| && parse(TrimSpace(lines[i])).Naive?
      then RotatedBeats(parse, file, cutoff) == file
      else Enumerates(idx, FreshIndices(parse, lines, cutoff)) && AreLinesAt(lines, idx, kept)
  {
    var lines := ReadLines(file);
    idx := FreshLinesAre(parse, lines, cutoff);
    hide FreshLines, Enumerates, TrimSpace, AreLinesAt, AreLines, Concat;
    ReadLinesAreLines(file);
    FreshAreLines(parse, lines, cutoff);
    LinesRoundTrip(FreshLines(parse, lines, cutoff));
    hide ReadLines;
  }
}
