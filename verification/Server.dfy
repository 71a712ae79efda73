/** A cache node: its store, its router, its failure detector, and the commands it serves.
    net says what each peer would answer to a line this node sends it (None: unreachable);
    order is the order in which this node's map of peers happens to be iterated. */
module Server {
  import opened Text
  import opened Sequences
  import opened StoreSpec
  import opened Wire
  import opened NodeSpec
  import opened Preference
  import RingSpec
  import M = Membership
  import opened Router
  import opened Gossip
  import opened Store

  type Network = (string, string) -> Option<string>

  // A peer with no known address cannot be reached either.
  function Forwarded(peers: map<string, string>, net: Network, id: string, line: string): Option<string> {
    if id in peers then net(id, line) else None
  }

  function Polls(net: Network, order: seq<string>, key: string): (ps: seq<Option<string>>)
    ensures |ps| == |order|
  {
    seq(|order|, i requires 0 <= i < |order| => net(order[i], "LOCALGET " + key))
  }

  function KeyOf(r: Request): string {
    match r
    case Set(key, _, _) => key
    case Get(key) => key
    case Del(key) => key
    case Ttl(key) => key
    case _ => ""
  }

  ghost predicate PollOrder(order: seq<string>, peers: map<string, string>) {
    Distinct(order) && forall id :: id in order <==> id in peers
  }

  // Every configured peer joins ring and address book, whatever order the configuration is read in.
  method ConfiguredRouter(hash: RingSpec.Hash, nodeID: string, peers: map<string, string>) returns (r: PeerRouter)
    ensures r.Valid() && fresh(r) && fresh(r.ring) && fresh(r.ring.buf) && r.ring.hash == hash && r.myID == nodeID
    ensures r.State().ring.nodes == peers.Keys + {nodeID} && r.State().peers == peers
    ensures RingSpec.CollisionFree(hash, peers.Keys + {nodeID}) ==> RingSpec.Canonical(hash, r.State().ring)
  {
    hide RingSpec.CollisionFree, RingSpec.Canonical, RingSpec.Add, Sorted;
    r := new PeerRouter(hash, nodeID);
    ghost var all := peers.Keys + {nodeID};
    JoiningKeepsCanonical(hash, RingSpec.EMPTY, nodeID, all);
    var todo := peers.Keys;
    ghost var joined := {nodeID};
    assert peers - peers.Keys == map[];
    while todo != {}
      invariant todo <= peers.Keys && r.Valid() && fresh(r.ring.buf)
      invariant r.State().ring.nodes == joined && joined <= all && all == joined + todo
      invariant r.State().peers == peers - todo
      invariant RingSpec.CollisionFree(hash, all) ==> RingSpec.Canonical(hash, r.State().ring)
    {
      var id :| id in todo;
      assert todo == todo - {id} + {id};
      JoiningKeepsCanonical(hash, r.State().ring, id, all);
      r.AddPeer(id, peers[id]);
      todo := todo - {id};
      joined := joined + {id};
      SeeOneMore(peers, todo, id);
    }
    assert peers - todo == peers;
  }

  lemma JoiningKeepsCanonical(hash: RingSpec.Hash, r: RingSpec.RingState, id: string, all: set<string>)
    requires r.nodes + {id} <= all
    ensures RingSpec.Add(hash, r, id).nodes == r.nodes + {id}
    ensures RingSpec.CollisionFree(hash, all) && (r == RingSpec.EMPTY || RingSpec.Canonical(hash, r))
      ==> RingSpec.Canonical(hash, RingSpec.Add(hash, r, id))
  {
    if RingSpec.CollisionFree(hash, all) && (r == RingSpec.EMPTY || RingSpec.Canonical(hash, r)) {
      M.SmallerCollisionFree(hash, r.nodes + {id}, all);
      RingSpec.AddKeepsCanonical(hash, r, id);
    }
  }

  class CacheServer {
    const nodeID: string
    const store: KeyStore
    const router: PeerRouter
    var detector: Detector?

    ghost predicate Valid()
      reads this, router, router.ring, router.ring.buf
    {
      router.Valid() && router.myID == nodeID
    }

    ghost function OwnerOf(key: string): string
      reads router, router.ring, router.ring.buf
      requires router.Valid()
    {
      Owner(router.ring.State(), router.ring.hash(key))
    }

    // Wires up a node from its configuration. With peers to watch, a failure detector is started.
    constructor (hash: RingSpec.Hash, nodeID: string, peers: map<string, string>)
      ensures Valid() && this.nodeID == nodeID && fresh(store) && fresh(router) && store.data == map[]
      ensures router.State().ring.nodes == peers.Keys + {nodeID} && router.State().peers == peers
      ensures RingSpec.CollisionFree(hash, peers.Keys + {nodeID}) ==> RingSpec.Canonical(hash, router.State().ring)
      ensures detector != null <==> peers != map[]
      ensures detector != null ==> detector.router == router && detector.Valid() && fresh(detector.peers.Values)
      ensures detector != null && RingSpec.CollisionFree(hash, peers.Keys + {nodeID})
        ==> M.Started(hash, detector.State(), nodeID, peers)
    {
      hide RingSpec.CollisionFree, RingSpec.Canonical, Sorted;
      this.nodeID := nodeID;
      store := new KeyStore();
      var r := ConfiguredRouter(hash, nodeID, peers);
      router := r;
      if peers == map[] {
        detector := null;
      } else {
        var d := new Detector(nodeID, r);
        detector := d;
      }
    }

    // Own store first, then each peer in turn; the first hit ends the search.
    method ReadFromAnyPeer(key: string, now: int, net: Network, order: seq<string>) returns (v: Option<string>)
      requires Valid() && PollOrder(order, router.peers)
      modifies store`hits, store`misses
      ensures v == FromAnyPeer(store.data, key, now, Polls(net, order, key))
    {
      v := store.Get(key, now);
      if v.Some? {
        return;
      }
      ghost var polls := Polls(net, order, key);
      for i := 0 to |order|
        invariant FirstHit(polls) == FirstHit(polls[i..])
      {
        assert order[i] in router.peers;
        var resp := net(order[i], "LOCALGET " + key);
        assert polls[i..][0] == resp && polls[i..][1..] == polls[i + 1..];
        if resp.Some? && resp.value != "MISS" {
          return resp;
        }
      }
      return None;
    }

    // Serves one line; spawned is the replication the node starts in the background.
    method Dispatch(line: string, now: int, net: Network, order: seq<string>) returns (response: string,
                    spawned: Option<Task>)
      requires Valid() && PollOrder(order, router.peers)
      requires !Parse(line).Migrate? && !Parse(line).Report?
      modifies store
      ensures var r := Parse(line);
        var owner := OwnerOf(KeyOf(r));
        var out := Handle(nodeID, owner, old(store.data), r, now, Forwarded(router.peers, net, owner, line),
          Polls(net, order, KeyOf(r)));
        response == out.response && store.data == out.table && spawned == out.spawned
      ensures var r := Parse(line);
        var owner := OwnerOf(KeyOf(r));
        (r.Set? || r.Get? || r.Del? || r.Ttl?) && owner != nodeID ==>
          && store.data == old(store.data) && spawned.None?
          && (owner in router.peers && net(owner, line).Some? ==> response == net(owner, line).value)
    {
      hide Parse, GetAnswer, Polls, Owner, Sorted, Distinct, SetEntry, RequestedTtl, RemainingSeconds;
      var r := Parse(line);
      spawned := None;
      match r {
        case Blank => response := "ERR empty command";
        case Ping => response := "PONG " + nodeID;
        case LocalSet(key, value, ttl) =>
          store.Set(key, value, ttl, now);
          response := "OK";
        case LocalGet(key) =>
          var v := store.Get(key, now);
          response := if v.Some? then v.value else "MISS";
        case LocalDel(key) =>
          var _ := store.Del(key);
          response := "OK";
        case Set(key, value, seconds) =>
          response, spawned := ServeSet(key, value, seconds, line, now, net);
        case Get(key) =>
          response := ServeGet(key, line, now, net, order);
        case Del(key) =>
          response, spawned := ServeDel(key, line, net);
        case Ttl(key) =>
          response := ServeTtl(key, line, now, net);
        case TooShort(usage) => response := usage;
        case Unknown(name) => response := "ERR unknown command " + name;
      }
      ghost var owner := OwnerOf(KeyOf(r));
      if (r.Set? || r.Get? || r.Del? || r.Ttl?) && owner != nodeID {
        RelayedAnswer(nodeID, owner, old(store.data), r, now, Forwarded(router.peers, net, owner, line),
                      Polls(net, order, KeyOf(r)));
      }
    }

    method Forward(id: string, line: string, net: Network) returns (resp: string)
      ensures resp == var f := Forwarded(router.peers, net, id, line);
        if f.Some? then f.value else "ERR forward to " + id
    {
      var f := Forwarded(router.peers, net, id, line);
      resp := if f.Some? then f.value else "ERR forward to " + id;
    }

    method ServeSet(key: string, value: string, seconds: Option<string>, line: string, now: int, net: Network)
      returns (response: string, spawned: Option<Task>)
      requires Valid()
      modifies store`data
      ensures var out := Handle(nodeID, OwnerOf(key), old(store.data), Set(key, value, seconds), now,
                                Forwarded(router.peers, net, OwnerOf(key), line), []);
        response == out.response && store.data == out.table && spawned == out.spawned
    {
      var owner := router.OwnerOf(key);
      if owner != nodeID {
        response := Forward(owner, line, net);
        return response, None;
      }
      var ttl := 0;
      if seconds.Some? {
        var secs := Atoi(seconds.value);
        if secs.None? || secs.value <= 0 {
          return "ERR invalid TTL", None;
        }
        ttl := Duration(secs.value);
      }
      store.Set(key, value, ttl, now);
      return "OK", Some(Task(key, value, ttl, false));
    }

    method ServeGet(key: string, line: string, now: int, net: Network, order: seq<string>) returns (response: string)
      requires Valid() && PollOrder(order, router.peers)
      modifies store`hits, store`misses
      ensures response == GetAnswer(OwnerOf(key) == nodeID, store.data, key, now,
                                    Forwarded(router.peers, net, OwnerOf(key), line), Polls(net, order, key))
    {
      var owner := router.OwnerOf(key);
      if owner == nodeID {
        var own := store.Get(key, now);
        if own.Some? {
          return own.value;
        }
      } else {
        var f := Forwarded(router.peers, net, owner, line);
        if f.Some? {
          return f.value;
        }
      }
      var any := ReadFromAnyPeer(key, now, net, order);
      response := if any.Some? then any.value else "MISS";
    }

    method ServeDel(key: string, line: string, net: Network) returns (response: string, spawned: Option<Task>)
      requires Valid()
      modifies store`data
      ensures var out := Handle(nodeID, OwnerOf(key), old(store.data), Del(key), 0,
                                Forwarded(router.peers, net, OwnerOf(key), line), []);
        response == out.response && store.data == out.table && spawned == out.spawned
    {
      var owner := router.OwnerOf(key);
      if owner != nodeID {
        response := Forward(owner, line, net);
        return response, None;
      }
      var existed := store.Del(key);
      return if existed then "OK" else "MISS", Some(Task(key, "", 0, true));
    }

    method ServeTtl(key: string, line: string, now: int, net: Network) returns (response: string)
      requires Valid()
      ensures response == Handle(nodeID, OwnerOf(key), store.data, Ttl(key), now,
                                 Forwarded(router.peers, net, OwnerOf(key), line), []).response
    {
      var owner := router.OwnerOf(key);
      if owner != nodeID {
        response := Forward(owner, line, net);
        return;
      }
      var t := store.TTL(key, now);
      response := if t == -2 then "MISS" else if t == -1 then "-1" else Itoa(t);
    }

    // The replication goroutine: the line it sends and to whom, if there is a replica.
    method Replicate(task: Task) returns (sent: Option<(string, string)>)
      requires Valid()
      ensures var preferred := Take(PreferenceList(router.ring.State(), router.ring.hash(task.key)), 2);
        var target := ReplicaTarget(preferred, nodeID);
        sent == if target.None? then None
                else Some((target.value, ReplicaCommand(task.key, task.value, task.ttl, task.del)))
    {
      var owners := router.ring.GetNodes(task.key, 2);
      if |owners| < 2 {
        return None;
      }
      var replica := owners[1];
      if replica == nodeID {
        return None;
      }
      var cmd: string;
      if task.del {
        cmd := "LOCALDEL " + task.key;
      } else if task.ttl > 0 {
        cmd := "LOCALSET " + task.key + " " + task.value + " " + Itoa(task.ttl / SECOND);
      } else {
        cmd := "LOCALSET " + task.key + " " + task.value;
      }
      return Some((replica, cmd));
    }

    // Pushes one key to its owner; the own copy is deleted if the push is acknowledged.
    method PushKey(key: string, value: string, owner: string, now: int, net: Network) returns (cmd: string, acked: bool)
      requires Valid()
      modifies store`data
      ensures cmd == PushCommand(key, value, RemainingSeconds(old(store.data), key, now))
      ensures acked == Forwarded(router.peers, net, owner, cmd).Some?
      ensures acked <==> owner in router.peers && net(owner, cmd).Some?
      ensures store.data == if acked then old(store.data) - {key} else old(store.data)
    {
      var ttl := store.TTL(key, now);
      if ttl > 0 {
        cmd := "LOCALSET " + key + " " + value + " " + Itoa(ttl);
      } else {
        cmd := "LOCALSET " + key + " " + value;
      }
      acked := Forwarded(router.peers, net, owner, cmd).Some?;
      if acked {
        var _ := store.Del(key);
      }
    }

    // migrate (only == None) and migrateToRecoveredNode (only == Some(id)): the snapshot is taken at
    // start, and the TTL of each key is read when the key is pushed, at clock(key). A key leaves the
    // store exactly when its push was acknowledged.
    method PushKeys(only: Option<string>, start: int, clock: string -> int, net: Network)
      returns (moved: nat, sent: map<string, (string, string)>)
      requires Valid()
      modifies store`data
      ensures sent == Pushes(router.ring.State(), router.ring.hash, nodeID, only, old(store.data), clock,
                             Snapshot(old(store.data), start))
      ensures store.data == old(store.data) - Acknowledged(sent, router.peers, net)
      ensures moved == |Acknowledged(sent, router.peers, net)|
      ensures forall k :: k in old(store.data) ==>
        (k !in store.data <==> k in sent && sent[k].0 in router.peers && net(sent[k].0, sent[k].1).Some?)
    {
      hide Owner, Sorted, RemainingSeconds, Snapshot, PushCommand, Acknowledged, Forwarded, MustMove, Pushes;
      var all := store.All(start);
      moved, sent := 0, map[];
      ghost var before, ring, hash := store.data, router.ring.State(), router.ring.hash;
      ghost var seen: map<string, string> := map[];
      ghost var acknowledged: set<string> := {};
      NothingPushed(ring, hash, nodeID, only, before, clock, router.peers, net);
      var todo := all.Keys;
      while todo != {}
        invariant todo <= all.Keys && seen == all - todo
        invariant sent == Pushes(ring, hash, nodeID, only, before, clock, seen)
        invariant acknowledged == Acknowledged(sent, router.peers, net)
        invariant store.data == before - acknowledged
        invariant moved == |acknowledged|
      {
        var key :| key in todo;
        assert todo == todo - {key} + {key};
        todo := todo - {key};
        var owner := router.OwnerOf(key);
        PushesStep(ring, hash, nodeID, only, before, clock, seen, key, all[key]);
        SeeOneMore(all, todo, key);
        seen := seen[key := all[key]];
        if MustMove(owner, nodeID, only) {
          var cmd, acked := PushKey(key, all[key], owner, clock(key), net);
          AcknowledgedStep(sent, router.peers, net, key, owner, cmd);
          SecondsUnaffected(before, acknowledged, key, clock(key));
          DropOneMore(before, acknowledged, key);
          sent := sent[key := (owner, cmd)];
          if acked {
            moved := moved + 1;
            acknowledged := acknowledged + {key};
          }
        }
      }
      assert seen == all;
      AcknowledgedIff(sent, router.peers, net);
    }
  }

  // A node that does not own the key relays the answer it gets.
  lemma RelayedAnswer(self: string, owner: string, t: Table, r: Request, now: int, forwarded: Option<string>,
                      polls: seq<Option<string>>)
    requires (r.Set? || r.Get? || r.Del? || r.Ttl?) && owner != self
    ensures var out := Handle(self, owner, t, r, now, forwarded, polls);
      out.table == t && out.spawned.None? && (forwarded.Some? ==> out.response == forwarded.value)
  {
    hide Itoa;
  }

  lemma AcknowledgedIff(sent: map<string, (string, string)>, peers: map<string, string>, net: Network)
    ensures forall k :: k in Acknowledged(sent, peers, net) <==>
      k in sent && sent[k].0 in peers && net(sent[k].0, sent[k].1).Some?
  {}

  // The pushes a migration attempts: for each snapshot key owned elsewhere, the owner and the line sent.
  function Pushes(ring: RingSpec.RingState, hash: RingSpec.Hash, self: string, only: Option<string>, t: Table,
                  clock: string -> int, all: map<string, string>): map<string, (string, string)>
  {
    map k | k in all && MustMove(Owner(ring, hash(k)), self, only)
      :: (Owner(ring, hash(k)), PushCommand(k, all[k], RemainingSeconds(t, k, clock(k))))
  }

  lemma NothingPushed(ring: RingSpec.RingState, hash: RingSpec.Hash, self: string, only: Option<string>, t: Table,
                      clock: string -> int, peers: map<string, string>, net: Network)
    ensures Pushes(ring, hash, self, only, t, clock, map[]) == map[]
    ensures Acknowledged(map[], peers, net) == {}
  {}

  lemma PushesStep(ring: RingSpec.RingState, hash: RingSpec.Hash, self: string, only: Option<string>, t: Table,
                   clock: string -> int, seen: map<string, string>, key: string, value: string)
    requires key !in seen
    ensures var owner, sent := Owner(ring, hash(key)), Pushes(ring, hash, self, only, t, clock, seen);
      && key !in sent
      && Pushes(ring, hash, self, only, t, clock, seen[key := value]) ==
           if MustMove(owner, self, only)
             then sent[key := (owner, PushCommand(key, value, RemainingSeconds(t, key, clock(key))))]
           else sent
  {}

  lemma DropOneMore(t: Table, gone: set<string>, key: string)
    ensures (t - gone) - {key} == t - (gone + {key})
  {}

  lemma SeeOneMore(all: map<string, string>, todo: set<string>, key: string)
    requires key in all && key !in todo
    ensures (all - (todo + {key}))[key := all[key]] == all - todo
  {}

  lemma SecondsUnaffected(t: Table, gone: set<string>, key: string, now: int)
    requires key !in gone
    ensures RemainingSeconds(t - gone, key, now) == RemainingSeconds(t, key, now)
  {}

  // The keys whose push got an answer.
  function Acknowledged(sent: map<string, (string, string)>, peers: map<string, string>, net: Network): set<string> {
    set k | k in sent && Forwarded(peers, net, sent[k].0, sent[k].1).Some?
  }

  lemma AcknowledgedStep(sent: map<string, (string, string)>, peers: map<string, string>, net: Network, key: string,
                         owner: string, cmd: string)
    requires key !in sent
    ensures var before, after := Acknowledged(sent, peers, net), Acknowledged(sent[key := (owner, cmd)], peers, net);
      && key !in before
      && after == before + (if Forwarded(peers, net, owner, cmd).Some? then {key} else {})
      && |after| == |before| + (if Forwarded(peers, net, owner, cmd).Some? then 1 else 0)
  {
    var before, after := Acknowledged(sent, peers, net), Acknowledged(sent[key := (owner, cmd)], peers, net);
    assert after == before + (if Forwarded(peers, net, owner, cmd).Some? then {key} else {});
  }
}
