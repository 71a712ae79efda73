/** A timed table: what the store's operations mean, and why sweeping out expired entries
    is invisible. Times and durations are whole nanoseconds. */
module StoreSpec {
  import opened Text

  const SECOND: int := 1_000_000_000

  datatype Entry = Entry(value: string, expiresAt: Option<int>)

  type Table = map<string, Entry>

  // Past its expiry: invisible to Get and TTL, and sweepable.
  predicate Expired(e: Entry, now: int) {
    e.expiresAt.Some? && now > e.expiresAt.value
  }

  // Listed by All and AllWithTTL; at the very instant of expiry an entry is neither listed nor expired.
  predicate Listed(e: Entry, now: int) {
    e.expiresAt.Some? ==> e.expiresAt.value > now
  }

  function SetEntry(t: Table, key: string, value: string, ttl: int, now: int): Table {
    t[key := Entry(value, if ttl > 0 then Some(now + ttl) else None)]
  }

  function Lookup(t: Table, key: string, now: int): Option<string> {
    if key !in t || Expired(t[key], now) then None else Some(t[key].value)
  }

  // Remaining whole seconds; -1 without expiry, -2 when missing.
  function RemainingSeconds(t: Table, key: string, now: int): (s: int)
    ensures s >= -2
    ensures s == -2 <==> Lookup(t, key, now).None?
  {
    if key !in t || Expired(t[key], now) then -2
    else if t[key].expiresAt.None? then -1
    else (t[key].expiresAt.value - now) / SECOND
  }

  function Snapshot(t: Table, now: int): map<string, string> {
    map k | k in t && Listed(t[k], now) :: t[k].value
  }

  function SnapshotWithTTL(t: Table, now: int): map<string, int> {
    map k | k in t && Listed(t[k], now) :: if t[k].expiresAt.None? then -1 else (t[k].expiresAt.value - now) / SECOND
  }

  function Sweep(t: Table, now: int): Table {
    map k | k in t && !Expired(t[k], now) :: t[k]
  }

  datatype Op = SetOp(key: string, value: string, ttl: int) | DelOp(key: string) | SweepOp
              | GetOp(key: string) | TtlOp(key: string) | AllOp | AllWithTtlOp

  datatype StoreEvent = StoreEvent(now: int, op: Op)

  datatype Answer = Value(v: Option<string>) | Seconds(s: int) | Pairs(all: map<string, string>)
    | Ttls(ttls: map<string, int>)

  function Apply(t: Table, e: StoreEvent): Table {
    match e.op
    case SetOp(key, value, ttl) => SetEntry(t, key, value, ttl, e.now)
    case DelOp(key) => t - {key}
    case SweepOp => Sweep(t, e.now)
    case _ => t
  }

  function Reply(t: Table, e: StoreEvent): seq<Answer> {
    match e.op
    case GetOp(key) => [Value(Lookup(t, key, e.now))]
    case TtlOp(key) => [Seconds(RemainingSeconds(t, key, e.now))]
    case AllOp => [Pairs(Snapshot(t, e.now))]
    case AllWithTtlOp => [Ttls(SnapshotWithTTL(t, e.now))]
    case _ => []
  }

  // Everything a run answers to reads.
  function Answers(t: Table, run: seq<StoreEvent>): seq<Answer>
    decreases run
  {
    if run == [] then [] else Reply(t, run[0]) + Answers(Apply(t, run[0]), run[1..])
  }

  function WithoutSweeps(run: seq<StoreEvent>): seq<StoreEvent>
    decreases run
  {
    if run == [] then []
    else (if run[0].op.SweepOp? then [] else [run[0]]) + WithoutSweeps(run[1..])
  }

  ghost predicate Monotone(run: seq<StoreEvent>, start: int) {
    run != [] ==> run[0].now >= start && Monotone(run[1..], run[0].now)
  }

  // swept and full differ only in entries that have expired by now.
  ghost predicate SameUpToExpiry(swept: Table, full: Table, now: int) {
    && (forall k :: k in swept ==> k in full && swept[k] == full[k])
    && (forall k :: k in full && k !in swept ==> Expired(full[k], now))
  }

  lemma SameReplies(swept: Table, full: Table, e: StoreEvent)
    requires SameUpToExpiry(swept, full, e.now)
    ensures Reply(swept, e) == Reply(full, e)
  {
    if e.op.AllOp? {
      assert Snapshot(swept, e.now) == Snapshot(full, e.now);
    }
    if e.op.AllWithTtlOp? {
      assert SnapshotWithTTL(swept, e.now) == SnapshotWithTTL(full, e.now);
    }
  }

  /** Sweeping at any moments of any run changes no answer of Get, TTL, All or AllWithTTL, then or later. */
  lemma {:induction false} SweepsAreInvisible(swept: Table, full: Table, run: seq<StoreEvent>, start: int)
    requires SameUpToExpiry(swept, full, start) && Monotone(run, start)
    ensures Answers(swept, run) == Answers(full, WithoutSweeps(run))
    decreases run
  {
    if run != [] {
      var e, rest := run[0], run[1..];
      SameReplies(swept, full, e);
      if e.op.SweepOp? {
        SweepsAreInvisible(Apply(swept, e), full, rest, e.now);
        assert WithoutSweeps(run) == WithoutSweeps(rest);
      } else {
        SweepsAreInvisible(Apply(swept, e), Apply(full, e), rest, e.now);
        assert WithoutSweeps(run)[1..] == WithoutSweeps(rest);
      }
    }
  }

  /** Get and the snapshots tell the same story except at the very instant of expiry. */
  lemma ListedIffReadable(t: Table, key: string, now: int)
    ensures Snapshot(t, now).Keys == SnapshotWithTTL(t, now).Keys
    ensures key in Snapshot(t, now) <==> Lookup(t, key, now).Some? && t[key].expiresAt != Some(now)
    ensures key in Snapshot(t, now) ==> Lookup(t, key, now) == Some(Snapshot(t, now)[key])
    ensures key in Snapshot(t, now) ==> SnapshotWithTTL(t, now)[key] == RemainingSeconds(t, key, now)
  {}
}
