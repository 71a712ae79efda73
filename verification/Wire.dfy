/** The line protocol: what a received line means, how internal commands are printed, and
    that printing loses nothing. */
module Wire {
  import opened Text
  import opened StoreSpec

  datatype Request =
    | Blank
    | Ping
    | LocalSet(key: string, value: string, ttl: int)
    | LocalGet(key: string)
    | LocalDel(key: string)
    | Set(key: string, value: string, seconds: Option<string>)
    | Get(key: string)
    | Del(key: string)
    | Ttl(key: string)
    | Migrate
    | TooShort(usage: string)
    | Report(name: string)
    | Unknown(name: string)

  // strings.ToUpper on ASCII letters.
  function UpperChar(c: char): char {
    if 'a' <= c <= 'z' then (c as int - 32) as char else c
  }

  function Upper(s: string): (u: string)
    ensures |u| == |s| && forall i :: 0 <= i < |s| ==> u[i] == UpperChar(s[i])
  {
    seq(|s|, i requires 0 <= i < |s| => UpperChar(s[i]))
  }

  // A 64-bit signed product: time.Duration(secs) * time.Second wraps around.
  function Wrap64(n: int): int {
    (n + MAX_INT64 + 1) % (2 * (MAX_INT64 + 1)) - MAX_INT64 - 1
  }

  function Duration(seconds: int): int {
    Wrap64(seconds * SECOND)
  }

  const MAX_SECONDS: int := 9223372036

  /** A requested TTL is kept exactly when it is at most 9223372036 seconds; beyond that it wraps. */
  lemma DurationExactIff(seconds: int)
    requires 0 < seconds <= MAX_INT64
    ensures Duration(seconds) == seconds * SECOND <==> seconds <= MAX_SECONDS
  {}

  /** In general the product is taken modulo 2 to the 64, into the signed range. */
  lemma DurationWraps(seconds: int)
    ensures -0x8000_0000_0000_0000 <= Duration(seconds) < 0x8000_0000_0000_0000
    ensures (Duration(seconds) - seconds * 1_000_000_000) % 0x1_0000_0000_0000_0000 == 0
  {
    Wraps64(seconds * SECOND);
  }

  lemma Wraps64(n: int)
    ensures -MAX_INT64 - 1 <= Wrap64(n) <= MAX_INT64
    ensures (Wrap64(n) - n) % (2 * (MAX_INT64 + 1)) == 0
  {
    var word, m := 2 * (MAX_INT64 + 1), n + MAX_INT64 + 1;
    assert m == m / word * word + m % word;
    assert Wrap64(n) - n == (-(m / word)) * word;
  }

  // LOCALSET's optional last field: ignored unless it is a positive number.
  function OptionalTtl(parts: seq<string>): int {
    if |parts| < 4 || Atoi(parts[3]).None? || Atoi(parts[3]).value <= 0 then 0
    else Duration(Atoi(parts[3]).value)
  }

  function Understand(parts: seq<string>): Request {
    if parts == [] then Blank
    else
      var cmd := Upper(parts[0]);
      if cmd == "PING" then Ping
      else if cmd == "LOCALSET" then
        if |parts| < 3 then TooShort("ERR LOCALSET key value [ttl]")
          else LocalSet(parts[1], parts[2], OptionalTtl(parts))
      else if cmd == "LOCALGET" then
        if |parts| < 2 then TooShort("ERR LOCALGET key") else LocalGet(parts[1])
      else if cmd == "LOCALDEL" then
        if |parts| < 2 then TooShort("ERR LOCALDEL key") else LocalDel(parts[1])
      else if cmd == "SET" then
        if |parts| < 3 then TooShort("ERR SET key value [ttl]")
        else Set(parts[1], parts[2], if |parts| >= 4 then Some(parts[3]) else None)
      else if cmd == "GET" then
        if |parts| < 2 then TooShort("ERR GET key") else Get(parts[1])
      else if cmd == "DEL" then
        if |parts| < 2 then TooShort("ERR DEL key") else Del(parts[1])
      else if cmd == "TTL" then
        if |parts| < 2 then TooShort("ERR TTL key") else Ttl(parts[1])
      else if cmd == "MIGRATE" then Migrate
      else if cmd in {"INFO", "CLUSTER", "KEYS", "KEYSTTL"} then Report(cmd)
      else Unknown(cmd)
  }

  function Parse(line: string): Request {
    Understand(Fields(line))
  }

  /** Every key and value a request carries is a non-empty whitespace-free token. */
  lemma RequestsCarryTokens(line: string)
    ensures var r := Parse(line);
      && (r.LocalSet? || r.Set? ==> Token(r.key) && Token(r.value))
      && (r.LocalGet? || r.LocalDel? || r.Get? || r.Del? || r.Ttl? ==> Token(r.key))
  {
    hide Token, Fields, Atoi;
    assert forall i :: 0 <= i < |Fields(line)| ==> Token(Fields(line)[i]);
  }

  // What replicate prints for the replica.
  function ReplicaCommand(key: string, value: string, ttl: int, del: bool): string {
    if del then "LOCALDEL " + key
    else if ttl > 0 then "LOCALSET " + key + " " + value + " " + Itoa(ttl / SECOND)
    else "LOCALSET " + key + " " + value
  }

  // What migrate prints for a key with the given TTL answer.
  function PushCommand(key: string, value: string, seconds: int): string {
    if seconds > 0 then "LOCALSET " + key + " " + value + " " + Itoa(seconds)
    else "LOCALSET " + key + " " + value
  }

  // The requests those lines stand for.
  function ReplicaRequest(key: string, value: string, ttl: int, del: bool): Request {
    if del then LocalDel(key) else LocalSet(key, value, if ttl > 0 then ttl / SECOND * SECOND else 0)
  }

  function PushRequest(key: string, value: string, seconds: int): Request {
    LocalSet(key, value, if seconds > 0 then seconds * SECOND else 0)
  }

  lemma FieldsOfTwo(a: string, b: string)
    requires Token(a) && Token(b)
    ensures Fields(a + " " + b) == [a, b]
  {
    FieldsOfTokenThen(a, b);
    FieldsOfLastToken(b);
  }

  lemma FieldsOfThree(a: string, b: string, c: string)
    requires Token(a) && Token(b) && Token(c)
    ensures Fields(a + " " + b + " " + c) == [a, b, c]
  {
    assert a + " " + b + " " + c == a + " " + (b + " " + c);
    FieldsOfTokenThen(a, b + " " + c);
    FieldsOfTwo(b, c);
  }

  lemma FieldsOfFour(a: string, b: string, c: string, d: string)
    requires Token(a) && Token(b) && Token(c) && Token(d)
    ensures Fields(a + " " + b + " " + c + " " + d) == [a, b, c, d]
  {
    assert a + " " + b + " " + c + " " + d == a + " " + (b + " " + c + " " + d);
    FieldsOfTokenThen(a, b + " " + c + " " + d);
    FieldsOfThree(b, c, d);
  }

  lemma LocalSetUnderstood(key: string, value: string)
    ensures Understand(["LOCALSET", key, value]) == LocalSet(key, value, 0)
  {
    assert Upper("LOCALSET") == "LOCALSET";
  }

  lemma TimedLocalSetUnderstood(key: string, value: string, seconds: nat)
    requires seconds <= MAX_SECONDS
    ensures Understand(["LOCALSET", key, value, Itoa(seconds)]) == LocalSet(key, value, seconds * SECOND)
  {
    assert Upper("LOCALSET") == "LOCALSET";
    AtoiOfItoa(seconds);
    if seconds > 0 {
      DurationExactIff(seconds);
    }
  }

  /** A printed push parses back to exactly the key, value and TTL it was printed from. */
  lemma PushRoundTrip(key: string, value: string, seconds: int)
    requires Token(key) && Token(value) && seconds <= MAX_SECONDS
    ensures Parse(PushCommand(key, value, seconds)) == PushRequest(key, value, seconds)
  {
    hide Fields, Understand, Itoa, Atoi, Token;
    LiteralTokens();
    if seconds > 0 {
      AtoiOfItoa(seconds);
      FieldsOfFour("LOCALSET", key, value, Itoa(seconds));
      assert PushCommand(key, value, seconds) == "LOCALSET" + " " + key + " " + value + " " + Itoa(seconds);
      TimedLocalSetUnderstood(key, value, seconds);
    } else {
      FieldsOfThree("LOCALSET", key, value);
      assert PushCommand(key, value, seconds) == "LOCALSET" + " " + key + " " + value;
      LocalSetUnderstood(key, value);
    }
  }

  lemma LiteralTokens()
    ensures Token("LOCALSET") && Token("LOCALDEL")
  {}

  lemma LocalDelUnderstood(key: string)
    ensures Understand(["LOCALDEL", key]) == LocalDel(key)
  {
    assert Upper("LOCALDEL") == "LOCALDEL";
    assert "LOCALDEL"[5] != "LOCALSET"[5] && "LOCALDEL"[5] != "LOCALGET"[5];
  }

  /** A printed replication command parses back to the write it stands for, to the whole second. */
  lemma ReplicaRoundTrip(key: string, value: string, ttl: int, del: bool)
    requires Token(key) && (!del ==> Token(value)) && ttl <= MAX_INT64
    ensures Parse(ReplicaCommand(key, value, ttl, del)) == ReplicaRequest(key, value, ttl, del)
  {
    hide Fields, Understand, Itoa, Atoi, Token;
    LiteralTokens();
    if del {
      FieldsOfTwo("LOCALDEL", key);
      assert ReplicaCommand(key, value, ttl, del) == "LOCALDEL" + " " + key;
      LocalDelUnderstood(key);
    } else if ttl > 0 {
      var seconds := ttl / SECOND;
      AtoiOfItoa(seconds);
      FieldsOfFour("LOCALSET", key, value, Itoa(seconds));
      assert ReplicaCommand(key, value, ttl, del) == "LOCALSET" + " " + key + " " + value + " " + Itoa(seconds);
      TimedLocalSetUnderstood(key, value, seconds);
    } else {
      FieldsOfThree("LOCALSET", key, value);
      assert ReplicaCommand(key, value, ttl, del) == "LOCALSET" + " " + key + " " + value;
      LocalSetUnderstood(key, value);
    }
  }

  lemma {:induction false} TrailingSpaceIgnored(s: string, c: char)
    requires IsSpace(c)
    ensures Fields(s + [c]) == Fields(s)
    decreases |s|
  {
    if s == "" {
      assert (s + [c])[1..] == "";
    } else if IsSpace(s[0]) {
      assert (s + [c])[1..] == s[1..] + [c];
      TrailingSpaceIgnored(s[1..], c);
    } else {
      WordLengthBeforeSpace(s, c);
      var n := WordLength(s);
      assert (s + [c])[..n] == s[..n];
      assert (s + [c])[n..] == s[n..] + [c];
      TrailingSpaceIgnored(s[n..], c);
    }
  }

  lemma {:induction false} WordLengthBeforeSpace(s: string, c: char)
    requires IsSpace(c)
    ensures WordLength(s + [c]) == WordLength(s)
  {
    if s != "" {
      assert (s + [c])[1..] == s[1..] + [c];
      WordLengthBeforeSpace(s[1..], c);
    }
  }

  lemma {:induction false} TrimRightKeepsFields(s: string)
    ensures Fields(TrimRight(s)) == Fields(s)
  {
    if s != "" && IsSpace(s[|s| - 1]) {
      TrimRightKeepsFields(s[..|s| - 1]);
      TrailingSpaceIgnored(s[..|s| - 1], s[|s| - 1]);
      assert s[..|s| - 1] + [s[|s| - 1]] == s;
    }
  }

  lemma {:induction false} TrimLeftKeepsFields(s: string)
    ensures Fields(TrimLeft(s)) == Fields(s)
  {
    if s != "" && IsSpace(s[0]) {
      TrimLeftKeepsFields(s[1..]);
    }
  }

  /** A line forwarded verbatim, with the line ending the transport adds and the trimming the
      receiver does, means the same at the receiver. */
  lemma ForwardedLineMeansTheSame(line: string)
    ensures Parse(TrimSpace(line + "\r\n")) == Parse(line)
  {
    hide Understand;
    assert line + "\r\n" == (line + ['\r']) + ['\n'];
    TrailingSpaceIgnored(line, '\r');
    TrailingSpaceIgnored(line + ['\r'], '\n');
    TrimLeftKeepsFields(line + "\r\n");
    TrimRightKeepsFields(TrimLeft(line + "\r\n"));
  }
}
