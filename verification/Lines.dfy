/** Text files as lines: splitting on newlines, and reading lines with their endings. */
module Lines {

  predicate NewlineFree(s: string) {
    forall i :: 0 <= i < |s| ==> s[i] != '\n'
  }

  // A character in front of the first piece.
  function Prepend(c: char, pieces: seq<string>): seq<string>
    requires pieces != []
  {
    [[c] + pieces[0]] + pieces[1..]
  }

  // bytes.split(b"\n"): the pieces between newlines; never empty.
  function Split(s: string): (pieces: seq<string>)
    ensures pieces != [] && forall i :: 0 <= i < |pieces| ==> NewlineFree(pieces[i])
  {
    if s == "" then [""]
    else if s[0] == '\n' then [""] + Split(s[1..])
    else Prepend(s[0], Split(s[1..]))
  }

  // Two lists of pieces whose last and first piece are one line.
  function Glue(x: seq<string>, y: seq<string>): seq<string>
    requires x != [] && y != []
  {
    x[..|x| - 1] + [x[|x| - 1] + y[0]] + y[1..]
  }

  lemma GlueCons(p: string, x: seq<string>, y: seq<string>)
    requires x != [] && y != []
    ensures Glue([p] + x, y) == [p] + Glue(x, y)
  {
    assert ([p] + x)[..|x|] == [p] + x[..|x| - 1];
  }

  lemma GluePrepend(c: char, x: seq<string>, y: seq<string>)
    requires x != [] && y != []
    ensures Glue(Prepend(c, x), y) == Prepend(c, Glue(x, y))
  {
    if |x| == 1 {
      assert [c] + x[0] + y[0] == [c] + (x[0] + y[0]);
    } else {
      assert x == [x[0]] + x[1..];
      GlueCons(x[0], x[1..], y);
      GlueCons([c] + x[0], x[1..], y);
    }
  }

  /** Splitting a concatenation: the pieces at the seam are one line. */
  lemma {:induction false} SplitConcat(a: string, b: string)
    ensures Split(a + b) == Glue(Split(a), Split(b))
  {
    if a == "" {
      assert a + b == b;
      assert "" + Split(b)[0] == Split(b)[0];
    } else {
      assert (a + b)[1..] == a[1..] + b;
      SplitConcat(a[1..], b);
      GlueCons("", Split(a[1..]), Split(b));
      GluePrepend(a[0], Split(a[1..]), Split(b));
    }
  }

  lemma {:induction false} SplitNewlineFree(s: string)
    requires NewlineFree(s)
    ensures Split(s) == [s]
  {
    if s != "" {
      SplitNewlineFree(s[1..]);
      assert [s[0]] + s[1..] == s;
    }
  }

  // Length of the first line, its newline included if it has one.
  function LineLength(s: string): (n: nat)
    requires s != ""
    ensures 0 < n <= |s|
    ensures forall i :: 0 <= i < n - 1 ==> s[i] != '\n'
    ensures n < |s| ==> s[n - 1] == '\n'
  {
    if s[0] == '\n' || |s| == 1 then 1 else 1 + LineLength(s[1..])
  }

  // Iterating over a text file: each line with its ending.
  function ReadLines(s: string): seq<string>
    decreases |s|
  {
    if s == "" then [] else [s[..LineLength(s)]] + ReadLines(s[LineLength(s)..])
  }

  lemma ReadLinesStep(s: string)
    requires s != ""
    ensures ReadLines(s) == [s[..LineLength(s)]] + ReadLines(s[LineLength(s)..])
  {}

  lemma FirstLineIsLine(s: string)
    requires s != ""
    ensures var n := LineLength(s);
      && IsLine(s[..n]) && (EndsInNewline(s[..n]) || s[n..] == "")
      && s == s[..n] + s[n..]
  {
    var n := LineLength(s);
    assert s == s[..n] + s[n..];
    assert n < |s| ==> s[..n][n - 1] == '\n';
  }

  function Concat(lines: seq<string>): string {
    if lines == [] then "" else lines[0] + Concat(lines[1..])
  }

  predicate IsLine(line: string) {
    line != "" && forall i :: 0 <= i < |line| - 1 ==> line[i] != '\n'
  }

  predicate EndsInNewline(line: string) {
    line != "" && line[|line| - 1] == '\n'
  }

  // What ReadLines can return: only the last line may lack its newline.
  ghost predicate AreLines(lines: seq<string>) {
    && (forall i :: 0 <= i < |lines| ==> IsLine(lines[i]))
    && (forall i :: 0 <= i < |lines| - 1 ==> EndsInNewline(lines[i]))
  }

  lemma AreLinesCons(line: string, rest: seq<string>)
    requires IsLine(line) && AreLines(rest) && (rest != [] ==> EndsInNewline(line))
    ensures AreLines([line] + rest) && Concat([line] + rest) == line + Concat(rest)
  {
    hide IsLine, EndsInNewline;
    assert ([line] + rest)[1..] == rest;
  }

  lemma {:induction false} ReadLinesAreLines(s: string)
    ensures AreLines(ReadLines(s)) && Concat(ReadLines(s)) == s
    decreases |s|
  {
    if s != "" {
      var n := LineLength(s);
      var line, rest := s[..n], s[n..];
      ReadLinesAreLines(rest);
      assert s == line + rest;
      assert IsLine(line);
      assert rest != "" ==> EndsInNewline(line);
      AreLinesCons(line, ReadLines(rest));
    }
  }

  lemma FirstLineLength(line: string, rest: string)
    requires IsLine(line) && (EndsInNewline(line) || rest == "")
    ensures LineLength(line + rest) == |line|
  {
    var s := line + rest;
    var n := LineLength(s);
    assert forall i :: 0 <= i < |line| ==> s[i] == line[i];
  }

  /** Writing lines out and reading them back gives the lines. */
  lemma {:induction false} LinesRoundTrip(lines: seq<string>)
    requires AreLines(lines)
    ensures ReadLines(Concat(lines)) == lines
  {
    if lines != [] {
      var s := Concat(lines);
      LinesRoundTrip(lines[1..]);
      if |lines| > 1 {
        assert EndsInNewline(lines[0]);
      }
      FirstLineLength(lines[0], Concat(lines[1..]));
      assert s[..|lines[0]|] == lines[0] && s[|lines[0]|..] == Concat(lines[1..]);
    }
  }

  // Pieces with newlines in between.
  function Join(pieces: seq<string>): string
    requires pieces != []
  {
    if |pieces| == 1 then pieces[0] else pieces[0] + "\n" + Join(pieces[1..])
  }

  /** Splitting loses nothing: the pieces, none of which has a newline, joined by newlines are the text. */
  lemma {:induction false} SplitJoins(s: string)
    ensures Join(Split(s)) == s
  {
    if s != "" {
      var rest := Split(s[1..]);
      SplitJoins(s[1..]);
      if s[0] == '\n' {
        assert ([""] + rest)[1..] == rest;
        assert "" + "\n" + Join(rest) == s;
      } else {
        JoinPrepend(s[0], rest);
      }
    }
  }

  lemma JoinPrepend(c: char, pieces: seq<string>)
    requires pieces != []
    ensures Join(Prepend(c, pieces)) == [c] + Join(pieces)
  {
    if |pieces| > 1 {
      assert [c] + pieces[0] + "\n" + Join(pieces[1..]) == [c] + (pieces[0] + "\n" + Join(pieces[1..]));
    }
  }
}
