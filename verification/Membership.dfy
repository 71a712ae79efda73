/** The failure detector: what a history of heartbeat outcomes does to a node's view of
    its peers, its address book and its ring. */
module Membership {
  import opened RingSpec

  datatype Status = Alive | Suspect | Dead

  const DEAD_AFTER: nat := 3

  datatype Peer = Peer(status: Status, missed: nat)

  datatype RouterState = RouterState(ring: RingState, peers: map<string, string>)

  // addrs is the configuration the detector was started with.
  datatype View = View(router: RouterState, addrs: map<string, string>, peers: map<string, Peer>)

  datatype Ping = Ping(id: string, ok: bool)

  function AddPeer(hash: Hash, r: RouterState, id: string, addr: string): RouterState {
    RouterState(Add(hash, r.ring, id), r.peers[id := addr])
  }

  function RemovePeer(r: RouterState, id: string): RouterState {
    RouterState(Remove(r.ring, id), r.peers - {id})
  }

  // One heartbeat outcome for one peer.
  function AfterPing(p: Peer, ok: bool): Peer {
    if ok then Peer(Alive, 0)
    else if p.missed + 1 >= DEAD_AFTER && p.status != Dead then Peer(Dead, p.missed + 1)
    else if p.status == Alive then Peer(Suspect, p.missed + 1)
    else Peer(p.status, p.missed + 1)
  }

  // The router is told of a death once, and of every return from suspect or dead.
  function RouterAfterPing(hash: Hash, r: RouterState, id: string, addr: string, was: Peer, ok: bool): RouterState {
    if ok && was.status != Alive then AddPeer(hash, r, id, addr)
    else if !ok && was.missed + 1 >= DEAD_AFTER && was.status != Dead then RemovePeer(r, id)
    else r
  }

  function Heartbeat(hash: Hash, v: View, ping: Ping): View
    requires v.peers.Keys == v.addrs.Keys
  {
    if ping.id !in v.peers then v
    else
      var was := v.peers[ping.id];
      View(RouterAfterPing(hash, v.router, ping.id, v.addrs[ping.id], was, ping.ok), v.addrs,
           v.peers[ping.id := AfterPing(was, ping.ok)])
  }

  // The state of a starting node: every configured peer is added and presumed alive.
  ghost predicate Started(hash: Hash, v: View, myID: string, config: map<string, string>) {
    && v.addrs == config
    && v.router.peers == config
    && v.peers == (map id | id in config :: Peer(Alive, 0))
    && Canonical(hash, v.router.ring)
    && v.router.ring.nodes == config.Keys + {myID}
  }

  function Run(hash: Hash, v: View, pings: seq<Ping>): (v': View)
    requires v.peers.Keys == v.addrs.Keys
    ensures v'.peers.Keys == v'.addrs.Keys && v'.addrs == v.addrs
  {
    if pings == [] then v else Heartbeat(hash, Run(hash, v, pings[..|pings| - 1]), pings[|pings| - 1])
  }

  // The outcomes of one peer's heartbeats, in order.
  function History(pings: seq<Ping>, id: string): seq<bool> {
    if pings == [] then []
    else
      var h, last := History(pings[..|pings| - 1], id), pings[|pings| - 1];
      if last.id == id then h + [last.ok] else h
  }

  // Length of the failure run a history ends in.
  function TrailingFailures(h: seq<bool>): nat {
    if h == [] || h[|h| - 1] then 0 else 1 + TrailingFailures(h[..|h| - 1])
  }

  function Judge(failures: nat): Peer {
    Peer(if failures == 0 then Alive else if failures < DEAD_AFTER then Suspect else Dead, failures)
  }

  function Failures(pings: seq<Ping>, id: string): nat {
    TrailingFailures(History(pings, id))
  }

  function Judged(config: map<string, string>, pings: seq<Ping>): map<string, Peer> {
    map id | id in config :: Judge(Failures(pings, id))
  }

  function Addresses(config: map<string, string>, living: set<string>): map<string, string> {
    map id | id in config && id in living :: config[id]
  }

  function Living(config: map<string, string>, pings: seq<Ping>): set<string> {
    set id | id in config && Failures(pings, id) < DEAD_AFTER
  }

  // The state a history of heartbeats must lead to.
  ghost predicate MatchesHistory(hash: Hash, v: View, myID: string, config: map<string, string>, pings: seq<Ping>) {
    && v.addrs == config
    && v.peers == Judged(config, pings)
    && v.router.peers == Addresses(config, Living(config, pings))
    && Canonical(hash, v.router.ring)
    && v.router.ring.nodes == Living(config, pings) + {myID}
  }

  /** The failure detector is a function of history: in every run a peer is dead, and gone from
      ring and address book, iff its last three heartbeats failed, suspect iff the last one or two
      did; known addresses are the configured ones and the node itself never leaves its ring. */
  lemma {:induction false} StatusIsFunctionOfHistory(hash: Hash, v: View, myID: string, config: map<string, string>,
                                                     pings: seq<Ping>)
    requires Started(hash, v, myID, config)
    requires myID !in config && CollisionFree(hash, config.Keys + {myID})
    ensures MatchesHistory(hash, Run(hash, v, pings), myID, config, pings)
  {
    if pings == [] {
      assert Living(config, pings) == config.Keys;
    } else {
      var init, last := pings[..|pings| - 1], pings[|pings| - 1];
      StatusIsFunctionOfHistory(hash, v, myID, config, init);
      HeartbeatMatches(hash, Run(hash, v, init), myID, config, pings);
    }
  }

  lemma FailuresStep(pings: seq<Ping>, id: string)
    requires pings != []
    ensures var before, last := Failures(pings[..|pings| - 1], id), pings[|pings| - 1];
      Failures(pings, id) == if last.id != id then before else if last.ok then 0 else 1 + before
  {
    var before, last := History(pings[..|pings| - 1], id), pings[|pings| - 1];
    assert (before + [last.ok])[..|before|] == before;
  }

  lemma JudgedStep(config: map<string, string>, pings: seq<Ping>)
    requires pings != []
    ensures var before, last := Judged(config, pings[..|pings| - 1]), pings[|pings| - 1];
      Judged(config, pings) == if last.id !in config then before
        else before[last.id := AfterPing(before[last.id], last.ok)]
  {
    forall id | id in config
      ensures Judge(Failures(pings, id)) ==
        var before, last := Judge(Failures(pings[..|pings| - 1], id)), pings[|pings| - 1];
        if last.id != id then before else AfterPing(before, last.ok)
    {
      FailuresStep(pings, id);
    }
  }

  lemma LivingStep(config: map<string, string>, pings: seq<Ping>)
    requires pings != []
    ensures var init, last := pings[..|pings| - 1], pings[|pings| - 1];
      var before := Living(config, init);
      Living(config, pings) ==
        if last.id !in config then before
        else if last.ok then before + {last.id}
        else if Failures(init, last.id) + 1 >= DEAD_AFTER then before - {last.id}
        else before
  {
    forall id | id in config
      ensures var last := pings[|pings| - 1];
        Failures(pings, id) ==
          if last.id != id then Failures(pings[..|pings| - 1], id)
          else if last.ok then 0 else 1 + Failures(pings[..|pings| - 1], id)
    {
      FailuresStep(pings, id);
    }
  }

  lemma HeartbeatMatches(hash: Hash, v: View, myID: string, config: map<string, string>, pings: seq<Ping>)
    requires pings != []
    requires myID !in config && CollisionFree(hash, config.Keys + {myID})
    requires MatchesHistory(hash, v, myID, config, pings[..|pings| - 1])
    ensures MatchesHistory(hash, Heartbeat(hash, v, pings[|pings| - 1]), myID, config, pings)
  {
    var init, ping := pings[..|pings| - 1], pings[|pings| - 1];
    JudgedStep(config, pings);
    LivingStep(config, pings);
    if ping.id in config {
      RouterMatches(hash, v.router, ping, config, Living(config, init), Living(config, pings),
        Failures(init, ping.id), myID);
    }
  }

  lemma RouterMatches(hash: Hash, r: RouterState, ping: Ping, config: map<string, string>, living: set<string>,
                      living': set<string>, failures: nat, myID: string)
    requires ping.id in config && myID !in config && living <= config.Keys
    requires CollisionFree(hash, config.Keys + {myID})
    requires ping.id in living <==> failures < DEAD_AFTER
    requires living' == if ping.ok then living + {ping.id} else if failures + 1 >= DEAD_AFTER then living - {ping.id}
      else living
    requires r.peers == Addresses(config, living)
    requires Canonical(hash, r.ring) && r.ring.nodes == living + {myID}
    ensures var r' := RouterAfterPing(hash, r, ping.id, config[ping.id], Judge(failures), ping.ok);
      && r'.peers == Addresses(config, living')
      && Canonical(hash, r'.ring) && r'.ring.nodes == living' + {myID}
  {
    hide Canonical, CollisionFree;
    if ping.ok && failures > 0 {
      SmallerCollisionFree(hash, r.ring.nodes + {ping.id}, config.Keys + {myID});
      AddKeepsCanonical(hash, r.ring, ping.id);
    } else if !ping.ok && failures + 1 == DEAD_AFTER {
      RemoveKeepsCanonical(hash, r.ring, ping.id);
    } else {
      assert living' == living;
    }
  }

  lemma SmallerCollisionFree(hash: Hash, small: set<string>, big: set<string>)
    requires CollisionFree(hash, big) && small <= big
    ensures CollisionFree(hash, small)
  {}

  // The last three outcomes of a history are failures.
  predicate LastThreeFailed(h: seq<bool>) {
    |h| >= 3 && !h[|h| - 1] && !h[|h| - 2] && !h[|h| - 3]
  }

  lemma FailuresOfHistory(h: seq<bool>)
    ensures TrailingFailures(h) == 0 <==> h == [] || h[|h| - 1]
    ensures TrailingFailures(h) >= 3 <==> LastThreeFailed(h)
  {
    if h != [] && !h[|h| - 1] {
      var h1 := h[..|h| - 1];
      assert TrailingFailures(h) == 1 + TrailingFailures(h1);
      if h1 != [] && !h1[|h1| - 1] {
        assert TrailingFailures(h1) == 1 + TrailingFailures(h1[..|h1| - 1]);
      }
    }
  }

  /** In every run the last three outcomes decide: a peer is dead, and absent from ring and address book,
      iff it has missed all of them; it is alive iff it answered the last one or was never pinged. */
  lemma LastThreeDecide(hash: Hash, v: View, myID: string, config: map<string, string>, pings: seq<Ping>, id: string)
    requires Started(hash, v, myID, config) && id in config
    requires myID !in config && CollisionFree(hash, config.Keys + {myID})
    ensures var v', h := Run(hash, v, pings), History(pings, id);
      && id in v'.peers
      && (v'.peers[id].status == Dead <==> LastThreeFailed(h))
      && (v'.peers[id].status == Alive <==> h == [] || h[|h| - 1])
      && (id in v'.router.ring.nodes <==> !LastThreeFailed(h))
      && (id in v'.router.peers <==> !LastThreeFailed(h))
  {
    StatusIsFunctionOfHistory(hash, v, myID, config, pings);
    FailuresOfHistory(History(pings, id));
    hide Canonical, CollisionFree, Started, History, LastThreeFailed, TrailingFailures;
  }

  // In a state its history accounts for, a peer was alive before a heartbeat iff its last one succeeded.
  lemma NotAliveIff(hash: Hash, v: View, myID: string, config: map<string, string>, pings: seq<Ping>, id: string)
    requires MatchesHistory(hash, v, myID, config, pings) && id in config
    ensures id in v.peers
    ensures v.peers[id].status != Alive <==> Failures(pings, id) > 0
    ensures v.peers[id].status != Alive <==> History(pings, id) != [] && !History(pings, id)[|History(pings, id)| - 1]
  {
    FailuresOfHistory(History(pings, id));
    hide Canonical, History, TrailingFailures;
  }

  /** Heartbeats of different peers may finish in any order: runs that agree on every peer's own
      history end in the same state, ring included. */
  lemma OrderOfPeersDoesNotMatter(hash: Hash, v: View, myID: string, config: map<string, string>, pings: seq<Ping>,
                                  pings': seq<Ping>)
    requires Started(hash, v, myID, config)
    requires myID !in config && CollisionFree(hash, config.Keys + {myID})
    requires forall id :: id in config ==> History(pings, id) == History(pings', id)
    ensures Run(hash, v, pings) == Run(hash, v, pings')
  {
    StatusIsFunctionOfHistory(hash, v, myID, config, pings);
    StatusIsFunctionOfHistory(hash, v, myID, config, pings');
    assert Living(config, pings) == Living(config, pings');
    var a, b := Run(hash, v, pings), Run(hash, v, pings');
    CanonicalUnique(hash, a.router.ring, b.router.ring);
    assert a.peers == b.peers;
  }

  // One round over ids: each is pinged once, in some order, with the given outcomes.
  ghost predicate IsRound(round: seq<Ping>, ids: set<string>, outcome: string -> bool) {
    && (forall i, j :: 0 <= i < j < |round| ==> round[i].id != round[j].id)
    && (forall p :: p in round ==> p.id in ids && p.ok == outcome(p.id))
    && (forall id :: id in ids ==> Ping(id, outcome(id)) in round)
  }

  lemma {:induction false} HistoryConcat(a: seq<Ping>, b: seq<Ping>, id: string)
    ensures History(a + b, id) == History(a, id) + History(b, id)
  {
    if b == [] {
      assert a + b == a;
    } else {
      assert (a + b)[..|a + b| - 1] == a + b[..|b| - 1];
      HistoryConcat(a, b[..|b| - 1], id);
    }
  }

  lemma {:induction false} HistoryOfRound(round: seq<Ping>, id: string, ok: bool)
    requires forall i, j :: 0 <= i < j < |round| ==> round[i].id != round[j].id
    requires forall p :: p in round && p.id == id ==> p.ok == ok
    ensures History(round, id) == if Ping(id, ok) in round then [ok] else []
  {
    if round != [] {
      var init, last := round[..|round| - 1], round[|round| - 1];
      assert round == init + [last];
      assert forall p :: p in init ==> p in round;
      HistoryOfRound(init, id, ok);
      assert last.id == id ==> Ping(id, ok) !in init;
    }
  }

  /** The state after a tick is the same whichever way its pings are interleaved. */
  lemma TickOrderDoesNotMatter(hash: Hash, v: View, myID: string, config: map<string, string>, pings: seq<Ping>,
                               round: seq<Ping>, round': seq<Ping>, outcome: string -> bool)
    requires Started(hash, v, myID, config)
    requires myID !in config && CollisionFree(hash, config.Keys + {myID})
    requires IsRound(round, config.Keys, outcome) && IsRound(round', config.Keys, outcome)
    ensures Run(hash, v, pings + round) == Run(hash, v, pings + round')
  {
    forall id | id in config ensures History(pings + round, id) == History(pings + round', id) {
      HistoryConcat(pings, round, id);
      HistoryConcat(pings, round', id);
      HistoryOfRound(round, id, outcome(id));
      HistoryOfRound(round', id, outcome(id));
    }
    OrderOfPeersDoesNotMatter(hash, v, myID, config, pings + round, pings + round');
  }

  lemma RunStep(hash: Hash, v: View, pings: seq<Ping>, ping: Ping)
    requires v.peers.Keys == v.addrs.Keys
    ensures Run(hash, v, pings + [ping]) == Heartbeat(hash, Run(hash, v, pings), ping)
  {
    assert (pings + [ping])[..|pings|] == pings;
  }

  lemma ThreeFailuresRemove(hash: Hash, v: View, id: string)
    requires v.peers.Keys == v.addrs.Keys && id in v.peers && v.peers[id] == Peer(Alive, 0)
    ensures id !in Run(hash, v, [Ping(id, false), Ping(id, false), Ping(id, false)]).router.ring.nodes
  {
    hide Remove, Add;
    var p := Ping(id, false);
    RunStep(hash, v, [], p);
    RunStep(hash, v, [p], p);
    RunStep(hash, v, [p, p], p);
    assert [] + [p] == [p] && [p] + [p] == [p, p] && [p, p] + [p] == [p, p, p];
    var v2 := Run(hash, v, [p, p]);
    assert v2.peers[id] == Peer(Suspect, 2);
    RemovedIsGone(v2.router.ring, id);
  }

  lemma RemovedIsGone(r: RingState, id: string)
    ensures id !in Remove(r, id).nodes
  {}

  /** A node stays in its own ring in every run exactly when it is not configured as its own peer. */
  lemma SelfStaysIff(hash: Hash, v: View, myID: string, config: map<string, string>)
    requires Started(hash, v, myID, config)
    requires CollisionFree(hash, config.Keys + {myID})
    ensures (forall pings :: myID in Run(hash, v, pings).router.ring.nodes) <==> myID !in config
  {
    if myID in config {
      ThreeFailuresRemove(hash, v, myID);
    } else {
      forall pings ensures myID in Run(hash, v, pings).router.ring.nodes {
        StatusIsFunctionOfHistory(hash, v, myID, config, pings);
      }
    }
  }
}
