/** The request log: the backward chunked reader, the rotation, and what both mean in terms
    of the file's entries. A line is decoded by parse, which is a parameter: None is any failure. */
module Logs {
  import opened Text
  import opened Lines
  import opened Sequences

  // timestamp is what the cutoff is compared with; body is the rest of the record.
  datatype LogEntry = LogEntry(timestamp: int, body: string)

  type Parser = string -> Option<LogEntry>

  function EntryOf(parse: Parser, line: string): seq<LogEntry> {
    var raw := TrimSpace(line);
    if raw == "" || parse(raw).None? then [] else [parse(raw).value]
  }

  // The entries of a list of lines, in order; blank and malformed lines have none.
  function Entries(parse: Parser, lines: seq<string>): seq<LogEntry> {
    if lines == [] then [] else EntryOf(parse, lines[0]) + Entries(parse, lines[1..])
  }

  // The entries no older than the cutoff, in order.
  function Fresh(es: seq<LogEntry>, cutoff: int): seq<LogEntry> {
    if es == [] then []
    else Fresh(es[..|es| - 1], cutoff) + (if es[|es| - 1].timestamp >= cutoff then [es[|es| - 1]] else [])
  }

  // The entries after the last one older than the cutoff.
  function FreshSuffix(es: seq<LogEntry>, cutoff: int): seq<LogEntry> {
    if es == [] || es[|es| - 1].timestamp < cutoff then []
    else FreshSuffix(es[..|es| - 1], cutoff) + [es[|es| - 1]]
  }

  predicate HasStale(es: seq<LogEntry>, cutoff: int) {
    exists i :: 0 <= i < |es| && es[i].timestamp < cutoff
  }

  function Reverse<T>(s: seq<T>): seq<T> {
    if s == [] then [] else [s[|s| - 1]] + Reverse(s[..|s| - 1])
  }

  // No entry within the cutoff is followed by an older one; true of time-ordered entries.
  ghost predicate FreshStayFresh(es: seq<LogEntry>, cutoff: int) {
    forall i, j :: 0 <= i < j < |es| && es[i].timestamp >= cutoff ==> es[j].timestamp >= cutoff
  }

  ghost predicate TimeOrdered(es: seq<LogEntry>) {
    forall i, j :: 0 <= i < j < |es| ==> es[i].timestamp <= es[j].timestamp
  }

  lemma {:induction false} EntriesConcat(parse: Parser, a: seq<string>, b: seq<string>)
    ensures Entries(parse, a + b) == Entries(parse, a) + Entries(parse, b)
  {
    if a == [] {
      assert a + b == b;
    } else {
      assert (a + b)[1..] == a[1..] + b;
      EntriesConcat(parse, a[1..], b);
    }
  }

  lemma {:induction false} NoStaleSuffix(es: seq<LogEntry>, cutoff: int)
    requires !HasStale(es, cutoff)
    ensures FreshSuffix(es, cutoff) == es
  {
    if es != [] {
      assert forall i :: 0 <= i < |es| - 1 ==> es[..|es| - 1][i] == es[i];
      NoStaleSuffix(es[..|es| - 1], cutoff);
    }
  }

  // A stale entry hides everything before it; fresh entries extend the suffix.
  lemma {:induction false} SuffixOfConcat(a: seq<LogEntry>, b: seq<LogEntry>, cutoff: int)
    ensures FreshSuffix(a + b, cutoff) == if HasStale(b, cutoff) then FreshSuffix(b, cutoff)
      else FreshSuffix(a, cutoff) + b
  {
    if b == [] {
      assert a + b == a;
    } else {
      var init, last := b[..|b| - 1], b[|b| - 1];
      assert (a + b)[..|a + b| - 1] == a + init;
      if last.timestamp < cutoff {
        assert HasStale(b, cutoff);
      } else {
        SuffixOfConcat(a, init, cutoff);
        HasStaleLast(b, cutoff);
      }
    }
  }

  lemma HasStaleLast(b: seq<LogEntry>, cutoff: int)
    requires b != [] && b[|b| - 1].timestamp >= cutoff
    ensures HasStale(b, cutoff) <==> HasStale(b[..|b| - 1], cutoff)
  {
    var init := b[..|b| - 1];
    assert forall i :: 0 <= i < |init| ==> init[i] == b[i];
    if i :| 0 <= i < |b| && b[i].timestamp < cutoff {
      assert init[i].timestamp < cutoff;
    }
  }

  lemma {:induction false} ReverseConcat<T>(a: seq<T>, b: seq<T>)
    ensures Reverse(a + b) == Reverse(b) + Reverse(a)
  {
    if b == [] {
      assert a + b == a;
    } else {
      assert (a + b)[..|a + b| - 1] == a + b[..|b| - 1];
      ReverseConcat(a, b[..|b| - 1]);
    }
  }

  lemma {:induction false} ReverseTwice<T>(s: seq<T>)
    ensures Reverse(Reverse(s)) == s
  {
    if s != [] {
      ReverseConcat([s[|s| - 1]], Reverse(s[..|s| - 1]));
      ReverseTwice(s[..|s| - 1]);
      assert Reverse([s[|s| - 1]]) == [s[|s| - 1]] by {
        assert [s[|s| - 1]][..0] == [];
      }
    }
  }

  // results.reverse(), in place.
  method ReverseList<T>(s: seq<T>) returns (r: seq<T>)
    ensures r == Reverse(s)
  {
    r := [];
    for i := 0 to |s|
      invariant r == Reverse(s[..i])
    {
      assert s[..i + 1][..i] == s[..i];
      r := [s[i]] + r;
    }
    assert s[..|s|] == s;
  }

  // The inner loop: lines from the last to the second, newest entry first; stops at a stale entry.
  method ScanBackward(lines: seq<string>, cutoff: int, parse: Parser, results: seq<LogEntry>)
    returns (extended: seq<LogEntry>, stopped: bool)
    requires lines != []
    ensures var es := Entries(parse, lines[1..]);
      stopped == HasStale(es, cutoff) && extended == results + Reverse(FreshSuffix(es, cutoff))
  {
    hide HasStale, FreshSuffix, Reverse, TrimSpace;
    extended, stopped := results, false;
    var i := |lines|;
    ghost var es: seq<LogEntry> := [];
    NothingScanned("", parse, cutoff);
    while i > 1
      invariant 1 <= i <= |lines|
      invariant es == Entries(parse, lines[i..])
      invariant !HasStale(es, cutoff)
      invariant extended == results + Reverse(es)
    {
      i := i - 1;
      ghost var before := Entries(parse, lines[1..i]);
      assert lines[i..] == [lines[i]] + lines[i + 1..];
      assert lines[1..] == lines[1..i] + lines[i..];
      EntriesConcat(parse, lines[1..i], lines[i..]);
      var raw := TrimSpace(lines[i]);
      if raw != "" {
        var e := parse(raw);
        if e.Some? {
          if e.value.timestamp < cutoff {
            StaleEnds(before, e.value, es, cutoff);
            return extended, true;
          }
          FreshExtends(e.value, es, cutoff);
          extended := extended + [e.value];
          es := [e.value] + es;
        }
      }
    }
    assert i == 1;
    NoStaleSuffix(es, cutoff);
  }

  lemma StaleEnds(before: seq<LogEntry>, e: LogEntry, es: seq<LogEntry>, cutoff: int)
    requires e.timestamp < cutoff && !HasStale(es, cutoff)
    ensures HasStale(before + ([e] + es), cutoff)
    ensures FreshSuffix(before + ([e] + es), cutoff) == es
  {
    assert (before + ([e] + es))[|before|] == e;
    SuffixOfConcat(before + [e], es, cutoff);
    assert before + ([e] + es) == (before + [e]) + es;
    assert FreshSuffix(before + [e], cutoff) == [];
  }

  lemma FreshExtends(e: LogEntry, es: seq<LogEntry>, cutoff: int)
    requires e.timestamp >= cutoff && !HasStale(es, cutoff)
    ensures !HasStale([e] + es, cutoff)
    ensures Reverse([e] + es) == Reverse(es) + [e]
  {
    assert forall i :: 1 <= i < |es| + 1 ==> ([e] + es)[i] == es[i - 1];
    ReverseConcat([e], es);
    assert [e][..0] == [];
  }

  // ---------------------------------------------------------------- what the entries of a file are

  // A line with a record: not blank once stripped, and decodable.
  predicate HasRecord(parse: Parser, line: string) {
    TrimSpace(line) != "" && parse(TrimSpace(line)).Some?
  }

  function Record(parse: Parser, line: string): LogEntry
    requires HasRecord(parse, line)
  {
    parse(TrimSpace(line)).value
  }

  // The lines with a record within the cutoff that no line with an older record follows.
  ghost function FreshTail(parse: Parser, lines: seq<string>, cutoff: int): set<int> {
    set i | 0 <= i < |lines| && HasRecord(parse, lines[i])
            && forall j :: i <= j < |lines| && HasRecord(parse, lines[j]) ==>
                 Record(parse, lines[j]).timestamp >= cutoff
  }

  // All lines with a record within the cutoff.
  ghost function FreshRecords(parse: Parser, lines: seq<string>, cutoff: int): set<int> {
    set i | 0 <= i < |lines| && HasRecord(parse, lines[i]) && Record(parse, lines[i]).timestamp >= cutoff
  }

  // results are the records of the chosen lines, in order.
  ghost predicate AreRecordsOf(parse: Parser, lines: seq<string>, chosen: set<int>, idx: seq<int>,
                               results: seq<LogEntry>) {
    && Enumerates(idx, chosen) && |results| == |idx|
    && (forall k :: 0 <= k < |idx| ==>
          0 <= idx[k] < |lines| && HasRecord(parse, lines[idx[k]]) && results[k] == Record(parse, lines[idx[k]]))
  }

  lemma EntriesOfMore(parse: Parser, init: seq<string>, line: string)
    ensures Entries(parse, init + [line])
         == Entries(parse, init) + if HasRecord(parse, line) then [Record(parse, line)] else []
  {
    hide TrimSpace;
    EntriesConcat(parse, init, [line]);
    assert [line][1..] == [];
    assert Entries(parse, [line]) == EntryOf(parse, line) + Entries(parse, []);
  }

  lemma RecordsOfMore(parse: Parser, init: seq<string>, line: string, chosen: set<int>, idx: seq<int>,
                      results: seq<LogEntry>)
    requires AreRecordsOf(parse, init, chosen, idx, results)
    ensures AreRecordsOf(parse, init + [line], chosen, idx, results)
    ensures HasRecord(parse, line) ==>
      AreRecordsOf(parse, init + [line], chosen + {|init|}, idx + [|init|], results + [Record(parse, line)])
  {
    hide HasRecord, Record, Enumerates;
    assert forall i :: 0 <= i < |init| ==> (init + [line])[i] == init[i];
    forall j | j in chosen ensures j < |init| {
      Listed(idx, chosen, j);
    }
    EnumeratesOneMore(idx, chosen, |init|);
  }

  lemma Listed(idx: seq<int>, chosen: set<int>, j: int)
    requires Enumerates(idx, chosen) && j in chosen
    ensures exists k :: 0 <= k < |idx| && idx[k] == j
  {
    assert j in idx;
  }

  /** A forward filter: exactly the records within the cutoff, decoded from their lines, in file order. */
  lemma {:induction false} FilteredEntriesAreRecords(parse: Parser, lines: seq<string>, cutoff: int)
    returns (idx: seq<int>)
    ensures AreRecordsOf(parse, lines, FreshRecords(parse, lines, cutoff), idx, Fresh(Entries(parse, lines), cutoff))
  {
    idx := [];
    if lines != [] {
      var init, line := lines[..|lines| - 1], lines[|lines| - 1];
      idx := FilteredEntriesAreRecords(parse, init, cutoff);
      assert lines == init + [line];
      EntriesOfMore(parse, init, line);
      RecordsOfMore(parse, init, line, FreshRecords(parse, init, cutoff), idx, Fresh(Entries(parse, init), cutoff));
      FilteredOneMore(parse, init, line, cutoff);
      hide AreRecordsOf, FreshRecords, Entries, Fresh, HasRecord, Record;
      if HasRecord(parse, line) && Record(parse, line).timestamp >= cutoff {
        idx := idx + [|init|];
      }
    }
  }

  lemma FilteredOneMore(parse: Parser, init: seq<string>, line: string, cutoff: int)
    ensures var recent := HasRecord(parse, line) && Record(parse, line).timestamp >= cutoff;
      && FreshRecords(parse, init + [line], cutoff)
           == FreshRecords(parse, init, cutoff) + (if recent then {|init|} else {})
      && Fresh(Entries(parse, init + [line]), cutoff)
           == Fresh(Entries(parse, init), cutoff) + if recent then [Record(parse, line)] else []
  {
    hide TrimSpace, Entries;
    EntriesOfMore(parse, init, line);
    assert forall i :: 0 <= i < |init| ==> (init + [line])[i] == init[i];
    var es := Entries(parse, init);
    if HasRecord(parse, line) {
      assert (es + [Record(parse, line)])[..|es|] == es;
    } else {
      assert es + [] == es;
    }
  }

  /** What the backward reader returns: exactly the records after the last one older than the cutoff,
      decoded from their lines, in file order. */
  lemma {:induction false} SuffixEntriesAreRecords(parse: Parser, lines: seq<string>, cutoff: int)
    returns (idx: seq<int>)
    ensures AreRecordsOf(parse, lines, FreshTail(parse, lines, cutoff), idx, FreshSuffix(Entries(parse, lines), cutoff))
  {
    idx := [];
    if lines != [] {
      var init, line := lines[..|lines| - 1], lines[|lines| - 1];
      assert lines == init + [line];
      SuffixOneMore(parse, init, line, cutoff);
      hide FreshTail, Entries, FreshSuffix, HasRecord, Record;
      if !(HasRecord(parse, line) && Record(parse, line).timestamp < cutoff) {
        idx := SuffixEntriesAreRecords(parse, init, cutoff);
        var before := FreshSuffix(Entries(parse, init), cutoff);
        RecordsOfMore(parse, init, line, FreshTail(parse, init, cutoff), idx, before);
        if HasRecord(parse, line) {
          idx := idx + [|init|];
        }
      }
    }
  }

  lemma SuffixOneMore(parse: Parser, init: seq<string>, line: string, cutoff: int)
    ensures var tail, es := FreshTail(parse, init + [line], cutoff), FreshSuffix(Entries(parse, init + [line]), cutoff);
      if !HasRecord(parse, line) then
        tail == FreshTail(parse, init, cutoff) && es == FreshSuffix(Entries(parse, init), cutoff)
      else if Record(parse, line).timestamp < cutoff then tail == {} && es == []
      else
        && tail == FreshTail(parse, init, cutoff) + {|init|}
        && es == FreshSuffix(Entries(parse, init), cutoff) + [Record(parse, line)]
  {
    hide TrimSpace, Entries;
    EntriesOfMore(parse, init, line);
    var lines, es := init + [line], Entries(parse, init);
    assert forall i :: 0 <= i < |init| ==> lines[i] == init[i];
    assert lines[|init|] == line;
    if HasRecord(parse, line) {
      assert (es + [Record(parse, line)])[..|es|] == es;
    } else {
      assert es + [] == es;
    }
  }

  /** The backward reader: whatever the chunk size and however lines straddle chunks, it returns
      the entries after the last one older than the cutoff, in file order: the records its lines decode to. */
  method ReadLogs(file: Option<string>, cutoff: int, chunk: nat, parse: Parser) returns (results: seq<LogEntry>)
    requires chunk >= 1
    ensures results == if file.None? then [] else FreshSuffix(Entries(parse, Split(file.value)), cutoff)
    ensures file.Some? ==> var lines := Split(file.value);
      exists idx :: AreRecordsOf(parse, lines, FreshTail(parse, lines, cutoff), idx, results)
  {
    results := [];
    if file.None? {
      return;
    }
    ghost var idx := SuffixEntriesAreRecords(parse, Split(file.value), cutoff);
    hide Split, Entries, FreshSuffix, HasStale, EntryOf, Reverse, TrimSpace, AreRecordsOf, FreshTail;
    var f := file.value;
    var pos, tail := |f|, "";
    ghost var done: seq<string>, collected: seq<LogEntry> := [], [];
    NothingScanned(f, parse, cutoff);
    while pos > 0
      invariant 0 <= pos <= |f|
      invariant Split(f[pos..]) == [tail] + done
      invariant collected == Entries(parse, done) && !HasStale(collected, cutoff)
      invariant results == Reverse(collected)
    {
      var step := if chunk < pos then chunk else pos;
      var next := pos - step;
      var block := f[next..pos] + tail;
      var lines := Split(block);
      ScanStep(parse, f, next, pos, tail, done, cutoff);
      var stopped: bool;
      results, stopped := ScanBackward(lines, cutoff, parse, results);
      collected := FreshSuffix(Entries(parse, lines[1..]), cutoff) + collected;
      if stopped {
        results := ReverseList(results);
        ReverseTwice(collected);
        return;
      }
      tail, done := lines[0], lines[1..] + done;
      pos := next;
    }
    assert f[0..] == f;
    results := ScanFirstLine(tail, cutoff, parse, results, done, collected);
    results := ReverseList(results);
    ReverseTwice(FreshSuffix(Entries(parse, Split(f)), cutoff));
  }

  lemma NothingScanned(f: string, parse: Parser, cutoff: int)
    ensures Split(f[|f|..]) == [""] + []
    ensures Entries(parse, []) == [] && !HasStale([], cutoff) && Reverse<LogEntry>([]) == []
  {
    assert f[|f|..] == "";
  }

  // The first line of the file, left over once every newline has been seen.
  method ScanFirstLine(tail: string, cutoff: int, parse: Parser, results: seq<LogEntry>, ghost done: seq<string>,
                       ghost collected: seq<LogEntry>)
    returns (extended: seq<LogEntry>)
    requires collected == Entries(parse, done) && !HasStale(collected, cutoff) && results == Reverse(collected)
    ensures extended == Reverse(FreshSuffix(Entries(parse, [tail] + done), cutoff))
  {
    extended := results;
    SuffixOfConcat(EntryOf(parse, tail), collected, cutoff);
    assert ([tail] + done)[1..] == done;
    SingleEntry(parse, tail, cutoff);
    var raw := TrimSpace(tail);
    if raw != "" {
      var e := parse(raw);
      if e.Some? && e.value.timestamp >= cutoff {
        FreshExtends(e.value, collected, cutoff);
        extended := extended + [e.value];
        assert EntryOf(parse, tail) == [e.value];
        return;
      }
    }
    assert FreshSuffix(EntryOf(parse, tail), cutoff) + collected == collected;
  }

  // What one block adds: its lines complete the tail, and its entries go before those collected.
  lemma ScanStep(parse: Parser, f: string, next: nat, pos: nat, tail: string, done: seq<string>, cutoff: int)
    requires next <= pos <= |f| && Split(f[pos..]) == [tail] + done
    requires !HasStale(Entries(parse, done), cutoff)
    ensures var lines, collected := Split(f[next..pos] + tail), Entries(parse, done);
      var es := Entries(parse, lines[1..]);
      var more := FreshSuffix(es, cutoff) + collected;
      && Split(f[next..]) == [lines[0]] + (lines[1..] + done)
      && Reverse(collected) + Reverse(FreshSuffix(es, cutoff)) == Reverse(more)
      && (HasStale(es, cutoff) ==> FreshSuffix(Entries(parse, Split(f)), cutoff) == more)
      && (!HasStale(es, cutoff) ==> Entries(parse, lines[1..] + done) == more && !HasStale(more, cutoff))
  {
    hide Split, Entries, FreshSuffix, HasStale, Reverse;
    var lines := Split(f[next..pos] + tail);
    BlockLines(f, next, pos, tail, done);
    BlockEntries(parse, lines, done, cutoff);
    assert lines == [lines[0]] + lines[1..];
    if HasStale(Entries(parse, lines[1..]), cutoff) {
      StoppedEarly(parse, f, next, lines, done, cutoff);
    }
  }

  lemma SingleEntry(parse: Parser, line: string, cutoff: int)
    ensures var es := EntryOf(parse, line);
      FreshSuffix(es, cutoff) == if es != [] && es[0].timestamp >= cutoff then es else []
  {
    var es := EntryOf(parse, line);
    if es != [] {
      assert es[..0] == [];
    }
  }

  // The lines of the file from next on are the block's lines followed by those already done.
  lemma BlockLines(f: string, next: nat, pos: nat, tail: string, done: seq<string>)
    requires next <= pos <= |f| && Split(f[pos..]) == [tail] + done
    ensures Split(f[next..]) == Split(f[next..pos] + tail) + done
  {
    hide Split;
    assert f[next..] == f[next..pos] + f[pos..];
    SplitConcat(f[next..pos], f[pos..]);
    SplitConcat(f[next..pos], tail);
    assert NewlineFree(tail) by { assert tail == Split(f[pos..])[0]; }
    SplitNewlineFree(tail);
    assert ([tail] + done)[1..] == done;
  }

  lemma BlockEntries(parse: Parser, lines: seq<string>, done: seq<string>, cutoff: int)
    requires lines != [] && !HasStale(Entries(parse, done), cutoff)
    ensures var es, tailEntries := Entries(parse, lines[1..]), Entries(parse, done);
      && Reverse(tailEntries) + Reverse(FreshSuffix(es, cutoff)) == Reverse(FreshSuffix(es, cutoff) + tailEntries)
      && (!HasStale(es, cutoff) ==> Entries(parse, lines[1..] + done) == FreshSuffix(es, cutoff) + tailEntries
                                    && !HasStale(Entries(parse, lines[1..] + done), cutoff))
  {
    var es, tailEntries := Entries(parse, lines[1..]), Entries(parse, done);
    ReverseConcat(FreshSuffix(es, cutoff), tailEntries);
    EntriesConcat(parse, lines[1..], done);
    if !HasStale(es, cutoff) {
      NoStaleSuffix(es, cutoff);
      NoStaleConcat(es, tailEntries, cutoff);
    }
  }

  lemma NoStaleConcat(a: seq<LogEntry>, b: seq<LogEntry>, cutoff: int)
    requires !HasStale(a, cutoff) && !HasStale(b, cutoff)
    ensures !HasStale(a + b, cutoff)
  {}

  // Having met a stale entry, what was collected is already the answer for the whole file.
  lemma StoppedEarly(parse: Parser, f: string, next: nat, lines: seq<string>, done: seq<string>, cutoff: int)
    requires next <= |f| && lines != [] && Split(f[next..]) == lines + done
    requires HasStale(Entries(parse, lines[1..]), cutoff) && !HasStale(Entries(parse, done), cutoff)
    ensures FreshSuffix(Entries(parse, Split(f)), cutoff)
      == FreshSuffix(Entries(parse, lines[1..]), cutoff) + Entries(parse, done)
  {
    hide Entries, FreshSuffix, HasStale;
    var front := FrontLines(f, next, lines, done);
    EntriesConcat(parse, front + lines[1..], done);
    EntriesConcat(parse, front, lines[1..]);
    SuffixOfConcat(Entries(parse, front + lines[1..]), Entries(parse, done), cutoff);
    SuffixOfConcat(Entries(parse, front), Entries(parse, lines[1..]), cutoff);
  }

  lemma FrontLines(f: string, next: nat, lines: seq<string>, done: seq<string>) returns (front: seq<string>)
    requires next <= |f| && lines != [] && Split(f[next..]) == lines + done
    ensures Split(f) == (front + lines[1..]) + done
  {
    hide Split;
    assert f == f[..next] + f[next..];
    SplitConcat(f[..next], f[next..]);
    var x := Split(f[..next]);
    front := x[..|x| - 1] + [x[|x| - 1] + lines[0]];
    assert (lines + done)[1..] == lines[1..] + done;
  }

  /** The early stop is exact precisely when no entry within the cutoff precedes an older one. */
  lemma {:induction false} SuffixIsFilterIff(es: seq<LogEntry>, cutoff: int)
    ensures FreshSuffix(es, cutoff) == Fresh(es, cutoff) <==> FreshStayFresh(es, cutoff)
    ensures |FreshSuffix(es, cutoff)| <= |Fresh(es, cutoff)|
  {
    if es != [] {
      var init, last := es[..|es| - 1], es[|es| - 1];
      SuffixIsFilterIff(init, cutoff);
      assert forall i :: 0 <= i < |init| ==> init[i] == es[i];
      if last.timestamp < cutoff {
        FreshEmptyIff(init, cutoff);
      } else {
        assert FreshStayFresh(es, cutoff) <==> FreshStayFresh(init, cutoff);
        assert FreshSuffix(es, cutoff) == FreshSuffix(init, cutoff) + [last];
        assert Fresh(es, cutoff) == Fresh(init, cutoff) + [last];
        assert FreshSuffix(es, cutoff)[..|FreshSuffix(init, cutoff)|] == FreshSuffix(init, cutoff);
        assert Fresh(es, cutoff)[..|Fresh(init, cutoff)|] == Fresh(init, cutoff);
      }
    }
  }

  lemma {:induction false} FreshEmptyIff(es: seq<LogEntry>, cutoff: int)
    ensures Fresh(es, cutoff) == [] <==> forall i :: 0 <= i < |es| ==> es[i].timestamp < cutoff
  {
    if es != [] {
      FreshEmptyIff(es[..|es| - 1], cutoff);
      assert forall i :: 0 <= i < |es| - 1 ==> es[..|es| - 1][i] == es[i];
    }
  }
}
