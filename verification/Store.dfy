/** The in-memory store of a node. The clock reading of each call is a parameter. */
module Store {
  import opened Text
  import opened StoreSpec

  class KeyStore {
    var data: Table
    var hits: int
    var misses: int

    constructor ()
      ensures data == map[] && hits == 0 && misses == 0
    {
      data := map[];
      hits, misses := 0, 0;
    }

    method Set(key: string, value: string, ttl: int, now: int)
      modifies this`data
      ensures data == SetEntry(old(data), key, value, ttl, now)
    {
      var e := Entry(value, None);
      if ttl > 0 {
        e := e.(expiresAt := Some(now + ttl));
      }
      data := data[key := e];
    }

    method Get(key: string, now: int) returns (v: Option<string>)
      modifies this`hits, this`misses
      ensures v == Lookup(data, key, now)
      ensures hits + misses == old(hits + misses) + 1 && hits == old(hits) + (if v.Some? then 1 else 0)
    {
      if key !in data || Expired(data[key], now) {
        misses := misses + 1;
        return None;
      }
      hits := hits + 1;
      return Some(data[key].value);
    }

    method Del(key: string) returns (existed: bool)
      modifies this`data
      ensures data == old(data) - {key}
      ensures existed == (key in old(data))
    {
      existed := key in data;
      data := data - {key};
    }

    method TTL(key: string, now: int) returns (seconds: int)
      ensures seconds == RemainingSeconds(data, key, now)
    {
      if key !in data || Expired(data[key], now) {
        return -2;
      }
      if data[key].expiresAt.None? {
        return -1;
      }
      seconds := (data[key].expiresAt.value - now) / SECOND;
    }

    method All(now: int) returns (out: map<string, string>)
      ensures out == Snapshot(data, now)
    {
      out := map[];
      var todo := data.Keys;
      while todo != {}
        invariant todo <= data.Keys
        invariant out == map k | k in data && k !in todo && Listed(data[k], now) :: data[k].value
      {
        var k :| k in todo;
        if Listed(data[k], now) {
          out := out[k := data[k].value];
        }
        todo := todo - {k};
      }
    }

    method AllWithTTL(now: int) returns (out: map<string, int>)
      ensures out == SnapshotWithTTL(data, now)
    {
      out := map[];
      var todo := data.Keys;
      while todo != {}
        invariant todo <= data.Keys
        invariant out == map k | k in SnapshotWithTTL(data, now) && k !in todo :: SnapshotWithTTL(data, now)[k]
      {
        var k :| k in todo;
        var e := data[k];
        if e.expiresAt.None? {
          out := out[k := -1];
        } else if e.expiresAt.value > now {
          out := out[k := (e.expiresAt.value - now) / SECOND];
        }
        todo := todo - {k};
      }
    }

    // One pass of the eviction loop.
    method Evict(now: int)
      modifies this`data
      ensures data == Sweep(old(data), now)
    {
      ghost var before := data;
      var todo := data.Keys;
      while todo != {}
        invariant todo <= data.Keys
        invariant data == map k | k in before && (k in todo || !Expired(before[k], now)) :: before[k]
      {
        var k :| k in todo;
        if Expired(data[k], now) {
          data := data - {k};
        }
        todo := todo - {k};
      }
    }
  }
}
