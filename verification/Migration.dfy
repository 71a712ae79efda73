/** What repeated moves do to an expiry. */
module Migration {
  import opened StoreSpec
  import opened Wire
  import opened NodeSpec

  // The entry the receiver of a push made at now ends up with.
  function Moved(e: Entry, key: string, now: int): Entry {
    var r := PushRequest(key, e.value, RemainingSeconds(map[key := e], key, now));
    ApplyLocal(map[], r, now)[key]
  }

  function MovedThrough(e: Entry, key: string, times: seq<int>): Entry {
    if times == [] then e else Moved(MovedThrough(e, key, times[..|times| - 1]), key, times[|times| - 1])
  }

  // At every move at least one whole second is left.
  predicate AlwaysASecondLeft(e: Entry, key: string, times: seq<int>) {
    times == [] ||
    (AlwaysASecondLeft(e, key, times[..|times| - 1]) &&
     RemainingSeconds(map[key := MovedThrough(e, key, times[..|times| - 1])], key, times[|times| - 1]) >= 1)
  }

  /** TTL drift: each move rounds the remaining time down to whole seconds, so n moves cost an expiry
      less than n seconds, and it is kept at all exactly when a whole second was left at every move;
      otherwise the key never expires. A key without a TTL stays without one. */
  lemma {:induction false} TtlDriftIsBounded(e: Entry, key: string, times: seq<int>)
    ensures var e' := MovedThrough(e, key, times);
      && e'.value == e.value
      && (e.expiresAt.None? ==> e'.expiresAt.None?)
      && (e.expiresAt.Some? ==> (e'.expiresAt.Some? <==> AlwaysASecondLeft(e, key, times)))
      && (e'.expiresAt.Some? ==>
            && e'.expiresAt.value <= e.expiresAt.value
            && e.expiresAt.value - e'.expiresAt.value <= |times| * (SECOND - 1))
  {
    if times != [] {
      TtlDriftIsBounded(e, key, times[..|times| - 1]);
      MoveRoundsDown(MovedThrough(e, key, times[..|times| - 1]), key, times[|times| - 1]);
    }
  }

  lemma MoveRoundsDown(e: Entry, key: string, now: int)
    ensures var e', left := Moved(e, key, now), RemainingSeconds(map[key := e], key, now);
      && e'.value == e.value
      && (e'.expiresAt.Some? <==> left >= 1)
      && (left >= 1 ==> e.expiresAt.Some? && e'.expiresAt.Some?)
      && (left >= 1 ==> e.expiresAt.value - (SECOND - 1) <= e'.expiresAt.value <= e.expiresAt.value)
      && (e.expiresAt.None? ==> left == -1)
  {}
}
