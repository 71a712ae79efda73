/** The string handling the cache relies on: whitespace splitting and decimal numbers. */
module Text {
  datatype Option<+T> = None | Some(value: T)

  // unicode.IsSpace
  predicate IsSpace(c: char) {
    var n := c as int;
    9 <= n <= 13 || n == 32 || n == 0x85 || n == 0xA0 || n == 0x1680 || 0x2000 <= n <= 0x200A
    || n == 0x2028 || n == 0x2029 || n == 0x202F || n == 0x205F || n == 0x3000
  }

  // A non-empty run of characters without whitespace: what strings.Fields yields.
  predicate Token(s: string) {
    s != "" && forall i :: 0 <= i < |s| ==> !IsSpace(s[i])
  }

  // Length of the leading run of non-space characters.
  function WordLength(s: string): (n: nat)
    ensures n <= |s|
    ensures forall i :: 0 <= i < n ==> !IsSpace(s[i])
    ensures n < |s| ==> IsSpace(s[n])
  {
    if s == "" || IsSpace(s[0]) then 0 else 1 + WordLength(s[1..])
  }

  // strings.Fields
  function Fields(s: string): (fs: seq<string>)
    ensures forall i :: 0 <= i < |fs| ==> Token(fs[i])
    decreases |s|
  {
    if s == "" then []
    else if IsSpace(s[0]) then Fields(s[1..])
    else
      var n := WordLength(s);
      [s[..n]] + Fields(s[n..])
  }

  lemma FieldsOfLastToken(t: string)
    requires Token(t)
    ensures Fields(t) == [t]
  {
    assert WordLength(t) == |t|;
    assert t[..|t|] == t;
  }

  lemma FieldsOfTokenThen(t: string, rest: string)
    requires Token(t)
    ensures Fields(t + " " + rest) == [t] + Fields(rest)
  {
    var s := t + " " + rest;
    assert s[0] == t[0] && s[|t|] == ' ';
    assert forall i :: 0 <= i < |t| ==> s[i] == t[i];
    var n := WordLength(s);
    assert n == |t|;
    assert s[..n] == t;
    assert s[n..][0] == ' ' && s[n..][1..] == rest;
  }

  function Digit(d: nat): char
    requires d < 10
  {
    "0123456789"[d]
  }

  predicate IsDigit(c: char) {
    '0' <= c <= '9'
  }

  function DigitValue(c: char): nat
    requires IsDigit(c)
  {
    c as int - '0' as int
  }

  // The %d verb for a natural number.
  function Itoa(n: nat): (s: string)
    ensures s != "" && forall i :: 0 <= i < |s| ==> IsDigit(s[i])
  {
    if n < 10 then [Digit(n)] else Itoa(n / 10) + [Digit(n % 10)]
  }

  function Digits(s: string): nat
    requires forall i :: 0 <= i < |s| ==> IsDigit(s[i])
  {
    if s == "" then 0 else 10 * Digits(s[..|s| - 1]) + DigitValue(s[|s| - 1])
  }

  const MAX_INT64: int := 0x7FFF_FFFF_FFFF_FFFF

  predicate AllDigits(s: string) {
    s != "" && forall i :: 0 <= i < |s| ==> IsDigit(s[i])
  }

  // strconv.Atoi: an optional sign, decimal digits, and the int64 range.
  function Atoi(s: string): Option<int> {
    var body := if s != "" && (s[0] == '-' || s[0] == '+') then s[1..] else s;
    if !AllDigits(body) then None
    else
      var n: int := if s[0] == '-' then 0 - Digits(body) as int else Digits(body);
      if -MAX_INT64 - 1 <= n <= MAX_INT64 then Some(n) else None
  }

  lemma {:induction false} DigitsOfItoa(n: nat)
    ensures Digits(Itoa(n)) == n
  {
    var s := Itoa(n);
    if n < 10 {
      assert s[..|s| - 1] == "";
    } else {
      DigitsOfItoa(n / 10);
      assert s[..|s| - 1] == Itoa(n / 10);
    }
  }

  /** Printing a number and reading it back gives the number. */
  lemma AtoiOfItoa(n: nat)
    requires n <= MAX_INT64
    ensures Token(Itoa(n)) && Atoi(Itoa(n)) == Some(n)
  {
    DigitsOfItoa(n);
    var s := Itoa(n);
    assert IsDigit(s[0]);
    forall i | 0 <= i < |s| ensures !IsSpace(s[i]) {
      assert IsDigit(s[i]);
    }
  }

  // The label "id:i" whose hash is one ring position of a node.
  function Label(id: string, i: nat): string {
    id + ":" + Itoa(i)
  }

  /** Different (node, index) pairs have different labels, so positions can clash only in the hash. */
  lemma LabelsDiffer(id: string, i: nat, id': string, j: nat)
    requires Label(id, i) == Label(id', j)
    ensures id == id' && i == j
  {
    var s, m, n := Label(id, i), Itoa(i), Itoa(j);
    assert s[|id|] == ':' && s[|id'|] == ':';
    assert s[|id| + 1..] == m && s[|id'| + 1..] == n;
    assert forall k :: |id| < k < |s| ==> IsDigit(s[k]) by {
      assert forall k :: |id| < k < |s| ==> s[k] == m[k - |id| - 1];
    }
    assert forall k :: |id'| < k < |s| ==> IsDigit(s[k]) by {
      assert forall k :: |id'| < k < |s| ==> s[k] == n[k - |id'| - 1];
    }
    assert |id| == |id'|;
    assert id == s[..|id|] == id';
    DigitsOfItoa(i);
    DigitsOfItoa(j);
  }

  // Stripping whitespace at both ends.
  function TrimLeft(s: string): string {
    if s != "" && IsSpace(s[0]) then TrimLeft(s[1..]) else s
  }

  function TrimRight(s: string): string {
    if s != "" && IsSpace(s[|s| - 1]) then TrimRight(s[..|s| - 1]) else s
  }

  function TrimSpace(s: string): string {
    TrimRight(TrimLeft(s))
  }

  lemma {:induction false} TrimLeftBeforeSpace(s: string, c: char)
    requires IsSpace(c)
    ensures TrimLeft(s + [c]) == if TrimLeft(s) == "" then "" else TrimLeft(s) + [c]
  {
    if s == "" {
      assert (s + [c])[1..] == "";
    } else {
      assert (s + [c])[1..] == s[1..] + [c];
      TrimLeftBeforeSpace(s[1..], c);
    }
  }

  lemma TrailingSpaceTrimmed(s: string, c: char)
    requires IsSpace(c)
    ensures TrimSpace(s + [c]) == TrimSpace(s)
  {
    TrimLeftBeforeSpace(s, c);
    var t := TrimLeft(s);
    assert (t + [c])[..|t|] == t;
  }

  predicate Blank(s: string) {
    forall i :: 0 <= i < |s| ==> IsSpace(s[i])
  }

  /** Trimming takes whitespace away at both ends, all of it and nothing else. */
  lemma TrimmingIsExact(s: string) returns (before: string, after: string)
    ensures Blank(before) && Blank(after) && s == before + TrimSpace(s) + after
    ensures TrimSpace(s) != "" ==> !IsSpace(TrimSpace(s)[0]) && !IsSpace(TrimSpace(s)[|TrimSpace(s)| - 1])
  {
    before := LeftTrimmed(s);
    after := RightTrimmed(TrimLeft(s));
    var t := TrimLeft(s);
    assert before + (TrimSpace(s) + after) == before + TrimSpace(s) + after;
    if TrimSpace(s) != "" {
      assert TrimSpace(s)[0] == t[0];
    }
  }

  lemma {:induction false} LeftTrimmed(s: string) returns (before: string)
    ensures Blank(before) && s == before + TrimLeft(s)
    ensures TrimLeft(s) != "" ==> !IsSpace(TrimLeft(s)[0])
  {
    before := "";
    if s != "" && IsSpace(s[0]) {
      var b := LeftTrimmed(s[1..]);
      before := [s[0]] + b;
    }
  }

  lemma {:induction false} RightTrimmed(s: string) returns (after: string)
    ensures Blank(after) && s == TrimRight(s) + after
    ensures TrimRight(s) != "" ==> !IsSpace(TrimRight(s)[|TrimRight(s)| - 1])
  {
    after := "";
    if s != "" && IsSpace(s[|s| - 1]) {
      var a := RightTrimmed(s[..|s| - 1]);
      after := a + [s[|s| - 1]];
    }
  }

  /** The fields of a text: whitespace separates, and a token is one field. With FieldsOfLastToken this
      determines them. */
  lemma {:induction false} SpaceSeparatesFields(a: string, c: char, b: string)
    requires IsSpace(c)
    ensures Fields(a + [c] + b) == Fields(a) + Fields(b)
    decreases |a|
  {
    var s := a + [c] + b;
    FieldsStep(s);
    FieldsStep(a);
    hide Fields;
    if a == "" {
      assert s[1..] == b;
    } else if IsSpace(a[0]) {
      assert s[1..] == a[1..] + [c] + b;
      SpaceSeparatesFields(a[1..], c, b);
    } else {
      WordLengthUpToSpace(a, c, b);
      var n := WordLength(a);
      assert s[..n] == a[..n] && s[n..] == a[n..] + [c] + b;
      SpaceSeparatesFields(a[n..], c, b);
    }
  }

  lemma FieldsStep(s: string)
    ensures Fields(s) ==
      if s == "" then []
      else if IsSpace(s[0]) then Fields(s[1..])
      else [s[..WordLength(s)]] + Fields(s[WordLength(s)..])
  {}

  lemma {:induction false} WordLengthUpToSpace(a: string, c: char, b: string)
    requires IsSpace(c)
    ensures WordLength(a + [c] + b) == WordLength(a)
  {
    if a == "" {
      assert (a + [c] + b)[0] == c;
    } else {
      assert (a + [c] + b)[1..] == a[1..] + [c] + b;
      WordLengthUpToSpace(a[1..], c, b);
    }
  }

  /** What Atoi reads: digits with at most one sign in front, if their value fits into 64 bits. */
  lemma AtoiReads(s: string)
    ensures AllDigits(s) ==> Atoi(s) == if Digits(s) <= MAX_INT64 then Some(Digits(s)) else None
    ensures AllDigits(s) ==> Atoi("+" + s) == if Digits(s) <= MAX_INT64 then Some(Digits(s)) else None
    ensures AllDigits(s) ==> Atoi("-" + s) == if Digits(s) <= MAX_INT64 + 1 then Some(0 - Digits(s) as int) else None
    ensures Atoi(s).Some? ==> AllDigits(s) || (s != "" && (s[0] == '+' || s[0] == '-') && AllDigits(s[1..]))
  {
    hide Digits;
    var body := if s != "" && (s[0] == '-' || s[0] == '+') then s[1..] else s;
    if AllDigits(s) {
      assert IsDigit(s[0]);
      assert ("+" + s)[1..] == s && ("-" + s)[1..] == s;
    }
  }
}
