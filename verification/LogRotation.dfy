/** Rotating the request log: what is removed, and why readers cannot tell. */
module LogRotation {
  import opened Text
  import opened Lines
  import opened Sequences
  import opened Logs

  function Terminated(line: string): string {
    if EndsInNewline(line) then line else line + "\n"
  }

  // Blank lines and lines with an entry older than the cutoff go; malformed lines stay.
  predicate IsKept(parse: Parser, line: string, cutoff: int) {
    var raw := TrimSpace(line);
    raw != "" && (parse(raw).Some? ==> parse(raw).value.timestamp >= cutoff)
  }

  function KeptLines(parse: Parser, lines: seq<string>, cutoff: int): seq<string> {
    if lines == [] then []
    else
      var kept, last := KeptLines(parse, lines[..|lines| - 1], cutoff), lines[|lines| - 1];
      if IsKept(parse, last, cutoff) then kept + [Terminated(last)] else kept
  }

  // The file a rotation leaves behind.
  function Rotated(parse: Parser, file: string, cutoff: int): string {
    var es := Entries(parse, ReadLines(file));
    if |Fresh(es, cutoff)| == |es| then file else Concat(KeptLines(parse, ReadLines(file), cutoff))
  }

  // Returns how many entries went and the file afterwards; nothing is rewritten when nothing is old.
  method RotateLogs(file: Option<string>, cutoff: int, parse: Parser) returns (removed: int, file': Option<string>)
    ensures file.None? ==> removed == 0 && file'.None?
    ensures file.Some? ==> var es := Entries(parse, ReadLines(file.value)); removed == |es| - |Fresh(es, cutoff)|
    ensures file.Some? ==> file' == Some(Rotated(parse, file.value, cutoff))
    ensures file.Some? ==> removed == |OldLines(parse, ReadLines(file.value), cutoff)|
  {
    hide Entries, Fresh, EntryOf, TrimSpace, ReadLines;
    removed, file' := 0, file;
    if file.None? {
      return;
    }
    NoEntries(parse, cutoff);
    var lines := ReadLines(file.value);
    var kept: seq<string> := [];
    ghost var es: seq<LogEntry> := [];
    for i := 0 to |lines|
      invariant es == Entries(parse, lines[..i])
      invariant kept == KeptLines(parse, lines[..i], cutoff)
      invariant removed == |es| - |Fresh(es, cutoff)|
    {
      var line := lines[i];
      assert lines[..i + 1][..i] == lines[..i] && lines[..i + 1] == lines[..i] + [line];
      EntriesSnoc(parse, lines[..i], line);
      EntryEffect(parse, es, line, cutoff);
      es := es + EntryOf(parse, line);
      var stripped := TrimSpace(line);
      if stripped != "" {
        var e := parse(stripped);
        if e.Some? && e.value.timestamp < cutoff {
          removed := removed + 1;
        } else {
          kept := kept + [if EndsInNewline(line) then line else line + "\n"];
        }
      }
    }
    assert lines[..|lines|] == lines;
    OldLinesCounted(parse, lines, cutoff);
    if removed != 0 {
      file' := Some(Concat(kept));
    }
  }

  lemma NoEntries(parse: Parser, cutoff: int)
    ensures Entries(parse, []) == [] && Fresh([], cutoff) == []
  {}

  lemma EntriesCons(parse: Parser, line: string, rest: seq<string>)
    ensures Entries(parse, [line] + rest) == EntryOf(parse, line) + Entries(parse, rest)
  {
    assert ([line] + rest)[1..] == rest;
  }

  lemma EntriesSnoc(parse: Parser, init: seq<string>, line: string)
    ensures Entries(parse, init + [line]) == Entries(parse, init) + EntryOf(parse, line)
  {
    hide EntryOf;
    EntriesConcat(parse, init, [line]);
    EntriesOfOne(parse, line);
  }

  // What one line does to the number of entries and of fresh entries.
  lemma EntryEffect(parse: Parser, es: seq<LogEntry>, line: string, cutoff: int)
    ensures var more, raw := EntryOf(parse, line), TrimSpace(line);
      && |more| == (if raw != "" && parse(raw).Some? then 1 else 0)
      && |Fresh(es + more, cutoff)| == |Fresh(es, cutoff)|
           + (if raw != "" && parse(raw).Some? && parse(raw).value.timestamp >= cutoff then 1 else 0)
  {
    FreshOfOneMore(es, EntryOf(parse, line), cutoff);
  }

  lemma EntriesOfOne(parse: Parser, line: string)
    ensures Entries(parse, [line]) == EntryOf(parse, line)
  {
    assert Entries(parse, [line][1..]) == [];
  }

  lemma FreshOfOneMore(es: seq<LogEntry>, more: seq<LogEntry>, cutoff: int)
    requires |more| <= 1
    ensures Fresh(es + more, cutoff) == Fresh(es, cutoff) + Fresh(more, cutoff)
    ensures Fresh(more, cutoff) == if more != [] && more[0].timestamp >= cutoff then more else []
  {
    if more == [] {
      assert es + more == es;
    } else {
      assert (es + more)[..|es|] == es && more[..0] == [];
    }
  }

  lemma SameEntryWithNewline(parse: Parser, line: string)
    ensures EntryOf(parse, line + "\n") == EntryOf(parse, line)
  {
    assert line + "\n" == line + ['\n'];
    TrailingSpaceTrimmed(line, '\n');
  }

  /** Reading a file by splitting its bytes or line by line yields the same entries. */
  lemma {:induction false} SplitAndReadLinesAgree(parse: Parser, file: string)
    ensures Entries(parse, Split(file)) == Entries(parse, ReadLines(file))
    decreases |file|
  {
    if file == "" {
      EntriesOfOne(parse, "");
    } else {
      hide Split, Entries, EntryOf, IsLine, EndsInNewline, ReadLines;
      var n := LineLength(file);
      FirstLineIsLine(file);
      ReadLinesStep(file);
      SplitAndReadLinesAgree(parse, file[n..]);
      FirstLineEntries(parse, file[..n], file[n..]);
      EntriesCons(parse, file[..n], ReadLines(file[n..]));
    }
  }

  lemma FirstLineEntries(parse: Parser, line: string, rest: string)
    requires IsLine(line) && (EndsInNewline(line) || rest == "")
    ensures Entries(parse, Split(line + rest)) == EntryOf(parse, line) + Entries(parse, Split(rest))
  {
    hide Split, Entries, EntryOf;
    SplitFirstLine(line, rest);
    if EndsInNewline(line) {
      var body := line[..|line| - 1];
      SameEntryWithNewline(parse, body);
      assert line == body + "\n";
      EntriesCons(parse, body, Split(rest));
    } else {
      EntriesOfOne(parse, line);
      EntriesOfEmptyFile(parse);
    }
  }

  lemma EntriesOfEmptyFile(parse: Parser)
    ensures Entries(parse, Split("")) == []
  {
    EntriesOfOne(parse, "");
  }

  lemma SplitFirstLine(line: string, rest: string)
    requires IsLine(line) && (EndsInNewline(line) || rest == "")
    ensures Split(line + rest) == if EndsInNewline(line) then [line[..|line| - 1]] + Split(rest) else [line]
  {
    if EndsInNewline(line) {
      var body := line[..|line| - 1];
      assert line + rest == body + ("\n" + rest);
      SplitConcat(body, "\n" + rest);
      SplitNewlineFree(body);
      assert ("\n" + rest)[1..] == rest;
      assert body + "" == body;
    } else {
      assert line + rest == line;
      SplitNewlineFree(line);
    }
  }

  lemma {:induction false} KeptAreLines(parse: Parser, lines: seq<string>, cutoff: int)
    requires forall i :: 0 <= i < |lines| ==> IsLine(lines[i])
    ensures AreLines(KeptLines(parse, lines, cutoff))
    ensures forall i :: 0 <= i < |KeptLines(parse, lines, cutoff)| ==> EndsInNewline(KeptLines(parse, lines, cutoff)[i])
  {
    if lines != [] {
      KeptAreLines(parse, lines[..|lines| - 1], cutoff);
      TerminatedIsLine(lines[|lines| - 1]);
      hide IsKept, Terminated, IsLine;
    }
  }

  lemma TerminatedIsLine(line: string)
    requires IsLine(line)
    ensures IsLine(Terminated(line)) && EndsInNewline(Terminated(line))
  {
    if !EndsInNewline(line) {
      assert (line + "\n")[..|line|] == line;
    }
  }

  lemma KeptOne(parse: Parser, line: string, es: seq<LogEntry>, cutoff: int)
    ensures Fresh(es + EntryOf(parse, line), cutoff) ==
      Fresh(es, cutoff) + if IsKept(parse, line, cutoff) then EntryOf(parse, Terminated(line)) else []
  {
    SameEntryWithNewline(parse, line);
    FreshOfOneMore(es, EntryOf(parse, line), cutoff);
  }

  // Rotation filters the entries.
  lemma {:induction false} KeptEntries(parse: Parser, lines: seq<string>, cutoff: int)
    ensures Entries(parse, KeptLines(parse, lines, cutoff)) == Fresh(Entries(parse, lines), cutoff)
  {
    if lines != [] {
      var init, last := lines[..|lines| - 1], lines[|lines| - 1];
      hide Entries, Fresh, EntryOf, IsKept, Terminated;
      KeptEntries(parse, init, cutoff);
      assert lines == init + [last];
      EntriesSnoc(parse, init, last);
      EntriesSnoc(parse, KeptLines(parse, init, cutoff), Terminated(last));
      KeptOne(parse, last, Entries(parse, init), cutoff);
    } else {
      NoEntries(parse, cutoff);
    }
  }

  /** The rotated file holds exactly the entries no older than the cutoff, in order. */
  lemma RotatedEntries(parse: Parser, file: string, cutoff: int)
    ensures Entries(parse, Split(Rotated(parse, file, cutoff))) == Fresh(Entries(parse, Split(file)), cutoff)
  {
    hide IsLine, Split, Entries, KeptLines;
    var lines := ReadLines(file);
    SplitAndReadLinesAgree(parse, file);
    SplitAndReadLinesAgree(parse, Rotated(parse, file, cutoff));
    ReadLinesAreLines(file);
    KeptAreLines(parse, lines, cutoff);
    LinesRoundTrip(KeptLines(parse, lines, cutoff));
    KeptEntries(parse, lines, cutoff);
    FreshOfSameLength(Entries(parse, lines), cutoff);
  }

  lemma {:induction false} FreshOfSameLength(es: seq<LogEntry>, cutoff: int)
    ensures |Fresh(es, cutoff)| <= |es|
    ensures |Fresh(es, cutoff)| == |es| ==> Fresh(es, cutoff) == es
  {
    if es != [] {
      FreshOfSameLength(es[..|es| - 1], cutoff);
    }
  }

  lemma {:induction false} FreshTwice(es: seq<LogEntry>, cutoff: int, later: int)
    requires cutoff <= later
    ensures Fresh(Fresh(es, cutoff), later) == Fresh(es, later)
  {
    if es != [] {
      var init, last := es[..|es| - 1], es[|es| - 1];
      FreshTwice(init, cutoff, later);
      FreshOfOneMore(Fresh(init, cutoff), if last.timestamp >= cutoff then [last] else [], later);
    }
  }

  lemma {:induction false} FreshIsOrdered(es: seq<LogEntry>, cutoff: int)
    requires TimeOrdered(es)
    ensures TimeOrdered(Fresh(es, cutoff))
    ensures forall e :: e in Fresh(es, cutoff) ==> e in es
  {
    if es != [] {
      var init, last := es[..|es| - 1], es[|es| - 1];
      FreshIsOrdered(init, cutoff);
      var kept := Fresh(init, cutoff);
      forall i | 0 <= i < |kept| ensures kept[i].timestamp <= last.timestamp {
        assert kept[i] in kept;
      }
    }
  }

  /** With time-ordered entries the reader, early stop and all, returns every entry within its cutoff. */
  lemma OrderedReadIsComplete(es: seq<LogEntry>, cutoff: int)
    requires TimeOrdered(es)
    ensures FreshSuffix(es, cutoff) == Fresh(es, cutoff)
  {
    SuffixIsFilterIff(es, cutoff);
  }

  /** Rotation is invisible to any reader whose window starts no earlier than the rotation's, and a
      second rotation at the same cutoff removes nothing. */
  lemma RotationIsInvisible(parse: Parser, file: string, cutoff: int, later: int)
    requires cutoff <= later
    ensures var es, es' := Entries(parse, Split(file)), Entries(parse, Split(Rotated(parse, file, cutoff)));
      && Fresh(es', later) == Fresh(es, later)
      && (TimeOrdered(es) ==> FreshSuffix(es', later) == FreshSuffix(es, later))
    ensures Rotated(parse, Rotated(parse, file, cutoff), cutoff) == Rotated(parse, file, cutoff)
  {
    var es := Entries(parse, Split(file));
    var file' := Rotated(parse, file, cutoff);
    RotatedEntries(parse, file, cutoff);
    FreshTwice(es, cutoff, later);
    FreshTwice(es, cutoff, cutoff);
    SplitAndReadLinesAgree(parse, file');
    hide Entries, Fresh, FreshSuffix, Split, TimeOrdered;
    if TimeOrdered(es) {
      FreshIsOrdered(es, cutoff);
      OrderedReadIsComplete(es, later);
      OrderedReadIsComplete(Fresh(es, cutoff), later);
    }
  }

  // ---------------------------------------------------------------- line by line

  // A line a rotation drops from a rewritten file: blank, or decoding to a record older than the cutoff.
  predicate IsDropped(parse: Parser, line: string, cutoff: int) {
    TrimSpace(line) == "" || (HasRecord(parse, line) && Record(parse, line).timestamp < cutoff)
  }

  ghost function OldLines(parse: Parser, lines: seq<string>, cutoff: int): set<int> {
    set i | 0 <= i < |lines| && HasRecord(parse, lines[i]) && Record(parse, lines[i]).timestamp < cutoff
  }

  ghost function SurvivingLines(parse: Parser, lines: seq<string>, cutoff: int): set<int> {
    set i | 0 <= i < |lines| && !IsDropped(parse, lines[i], cutoff)
  }

  // kept are the chosen lines, each with a newline at its end.
  ghost predicate AreLinesOf(lines: seq<string>, chosen: set<int>, idx: seq<int>, kept: seq<string>) {
    && Enumerates(idx, chosen) && |kept| == |idx|
    && (forall k :: 0 <= k < |idx| ==>
          && 0 <= idx[k] < |lines|
          && kept[k] == if EndsInNewline(lines[idx[k]]) then lines[idx[k]] else lines[idx[k]] + "\n")
  }

  lemma SurvivorsOneMore(parse: Parser, init: seq<string>, line: string, cutoff: int)
    ensures var lines := init + [line];
      && SurvivingLines(parse, lines, cutoff)
           == SurvivingLines(parse, init, cutoff) + (if IsDropped(parse, line, cutoff) then {} else {|init|})
      && OldLines(parse, lines, cutoff) == OldLines(parse, init, cutoff)
           + (if HasRecord(parse, line) && Record(parse, line).timestamp < cutoff then {|init|} else {})
    ensures forall j :: j in SurvivingLines(parse, init, cutoff) || j in OldLines(parse, init, cutoff) ==> j < |init|
  {
    hide IsDropped, HasRecord, Record;
    assert forall i :: 0 <= i < |init| ==> (init + [line])[i] == init[i];
  }

  lemma KeptIffNotDropped(parse: Parser, line: string, cutoff: int)
    ensures IsKept(parse, line, cutoff) <==> !IsDropped(parse, line, cutoff)
  {
    hide TrimSpace;
  }

  lemma LinesOfMore(init: seq<string>, line: string, chosen: set<int>, idx: seq<int>, kept: seq<string>)
    requires AreLinesOf(init, chosen, idx, kept) && forall j :: j in chosen ==> j < |init|
    ensures AreLinesOf(init + [line], chosen, idx, kept)
    ensures AreLinesOf(init + [line], chosen + {|init|}, idx + [|init|],
                       kept + [if EndsInNewline(line) then line else line + "\n"])
  {
    hide EndsInNewline, Enumerates;
    EnumeratesOneMore(idx, chosen, |init|);
  }

  lemma {:induction false} KeptLinesSurvive(parse: Parser, lines: seq<string>, cutoff: int) returns (idx: seq<int>)
    ensures AreLinesOf(lines, SurvivingLines(parse, lines, cutoff), idx, KeptLines(parse, lines, cutoff))
  {
    idx := [];
    if lines != [] {
      var init, line := lines[..|lines| - 1], lines[|lines| - 1];
      idx := KeptLinesSurvive(parse, init, cutoff);
      assert lines == init + [line];
      hide AreLinesOf, SurvivingLines, IsKept, IsDropped, EndsInNewline;
      SurvivorsOneMore(parse, init, line, cutoff);
      KeptIffNotDropped(parse, line, cutoff);
      LinesOfMore(init, line, SurvivingLines(parse, init, cutoff), idx, KeptLines(parse, init, cutoff));
      if IsKept(parse, line, cutoff) {
        idx := idx + [|init|];
      } else {
        assert SurvivingLines(parse, init, cutoff) + {} == SurvivingLines(parse, init, cutoff);
      }
    }
  }

  lemma {:induction false} OldLinesCounted(parse: Parser, lines: seq<string>, cutoff: int)
    ensures var es := Entries(parse, lines); |es| - |Fresh(es, cutoff)| == |OldLines(parse, lines, cutoff)|
  {
    if lines == [] {
      NoEntries(parse, cutoff);
    } else {
      var init, line := lines[..|lines| - 1], lines[|lines| - 1];
      OldLinesCounted(parse, init, cutoff);
      assert lines == init + [line];
      hide Entries, Fresh, HasRecord, Record, OldLines, SurvivingLines, IsDropped;
      EntriesOfMore(parse, init, line);
      FreshOfOneMore(Entries(parse, init), if HasRecord(parse, line) then [Record(parse, line)] else [], cutoff);
      SurvivorsOneMore(parse, init, line, cutoff);
    }
  }

  /** Line by line: a rotation rewrites the file iff some line decodes to a record older than the cutoff.
      Then exactly those lines and the blank ones go, and every other line stays in place, whether it
      decodes or not, with a newline at its end. */
  lemma RotationLineByLine(parse: Parser, file: string, cutoff: int) returns (idx: seq<int>)
    ensures var lines, kept := ReadLines(file), ReadLines(Rotated(parse, file, cutoff));
      if OldLines(parse, lines, cutoff) == {} then Rotated(parse, file, cutoff) == file
      else AreLinesOf(lines, SurvivingLines(parse, lines, cutoff), idx, kept)
  {
    var lines := ReadLines(file);
    idx := KeptLinesSurvive(parse, lines, cutoff);
    hide IsLine, Entries, Fresh, KeptLines, AreLinesOf, SurvivingLines, OldLines, ReadLines, Concat, EndsInNewline;
    OldLinesCounted(parse, lines, cutoff);
    ReadLinesAreLines(file);
    LinesOf(lines);
    KeptAreLines(parse, lines, cutoff);
    LinesRoundTrip(KeptLines(parse, lines, cutoff));
    NoneOld(OldLines(parse, lines, cutoff));
  }

  lemma LinesOf(lines: seq<string>)
    requires AreLines(lines)
    ensures forall i :: 0 <= i < |lines| ==> IsLine(lines[i])
  {}

  lemma NoneOld(s: set<int>)
    ensures |s| == 0 <==> s == {}
  {}
}
