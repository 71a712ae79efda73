/** The heartbeat loop: peer records updated in place, and a router kept in step with them. */
module Gossip {
  import opened RingSpec
  import opened M = Membership
  import opened Router
  import opened Sequences

  class PeerState {
    const id: string
    const addr: string
    var status: Status
    var missed: nat

    constructor (id: string, addr: string)
      ensures this.id == id && this.addr == addr && status == Alive && missed == 0
    {
      this.id, this.addr := id, addr;
      status, missed := Alive, 0;
    }
  }

  class Detector {
    const myID: string
    const router: PeerRouter
    var peers: map<string, PeerState>

    ghost predicate Valid()
      reads this, router, router.ring, router.ring.buf
    {
      router.Valid() && forall id :: id in peers ==> peers[id].id == id
    }

    ghost function Records(): map<string, Peer>
      reads this, peers.Values
    {
      map id | id in peers :: Peer(peers[id].status, peers[id].missed)
    }

    ghost function State(): View
      reads this, router, router.ring, router.ring.buf, peers.Values
      requires Valid()
    {
      View(router.State(), map id | id in peers :: peers[id].addr, Records())
    }

    // One record per configured peer, presumed alive.
    constructor (myID: string, router: PeerRouter)
      requires router.Valid()
      ensures Valid() && this.myID == myID && this.router == router
      ensures fresh(peers.Values)
      ensures State() == View(router.State(), router.peers, map id | id in router.peers :: Peer(Alive, 0))
    {
      this.myID, this.router := myID, router;
      peers := map[];
      new;
      var todo := router.peers.Keys;
      while todo != {}
        invariant todo <= router.peers.Keys
        invariant peers.Keys == router.peers.Keys - todo
        invariant forall id :: id in peers ==> fresh(peers[id])
        invariant forall id :: id in peers ==>
          peers[id].id == id && peers[id].addr == router.peers[id] && peers[id].status == Alive && peers[id].missed == 0
      {
        var id :| id in todo;
        var p := new PeerState(id, router.peers[id]);
        peers := peers[id := p];
        todo := todo - {id};
      }
    }

    // The record's part of a heartbeat outcome: miss count and status.
    method Record(p: PeerState, alive: bool)
      requires p.id in peers && peers[p.id] == p
      requires forall id :: id in peers ==> peers[id].id == id
      modifies p`status, p`missed
      ensures Records() == old(Records())[p.id := AfterPing(old(Peer(p.status, p.missed)), alive)]
    {
      if alive {
        p.missed := 0;
        p.status := Alive;
        return;
      }
      p.missed := p.missed + 1;
      if p.missed >= DEAD_AFTER && p.status != Dead {
        p.status := Dead;
      } else if p.status == Alive {
        p.status := Suspect;
      }
    }

    // Records one heartbeat outcome and tells the router of a death or a return; says whether the
    // recovery callback is started: at a success after a failure, however many there were.
    method PingPeer(p: PeerState, alive: bool) returns (recovered: bool)
      requires Valid() && p.id in peers && peers[p.id] == p
      modifies p`status, p`missed, router`peers, router.ring, router.ring.buf
      ensures Valid() && (router.ring.buf == old(router.ring.buf) || fresh(router.ring.buf))
      ensures State() == Heartbeat(router.ring.hash, old(State()), Ping(p.id, alive))
      ensures recovered <==> alive && old(p.status) != Alive
      ensures forall config, pings ::
        p.id in config && MatchesHistory(router.ring.hash, old(State()), myID, config, pings) ==>
        (recovered <==> alive && Failures(pings, p.id) > 0)
    {
      hide Sorted, M.AddPeer, M.RemovePeer, MatchesHistory, Failures;
      ghost var v := State();
      assert v.peers[p.id] == Peer(p.status, p.missed) && v.addrs[p.id] == p.addr;
      var was := p.status;
      Record(p, alive);
      assert router.State() == v.router;
      recovered := alive && was != Alive;
      TellRouter(p.id, p.addr, recovered, p.status == Dead && was != Dead);
      ReturnsAfterFailures(router.ring.hash, v, myID, p.id);
    }

    // Passes a return or a death on to the router.
    method TellRouter(id: string, addr: string, recovered: bool, died: bool)
      requires Valid()
      modifies router`peers, router.ring, router.ring.buf
      ensures Valid() && (router.ring.buf == old(router.ring.buf) || fresh(router.ring.buf))
      ensures router.State() ==
        if recovered then M.AddPeer(router.ring.hash, old(router.State()), id, addr)
        else if died then M.RemovePeer(old(router.State()), id)
        else old(router.State())
    {
      hide Sorted, M.AddPeer, M.RemovePeer;
      if recovered {
        router.AddPeer(id, addr);
      } else if died {
        router.RemovePeer(id);
      }
    }

    // One round of heartbeats; the goroutines finish in an order nobody controls.
    method Tick(outcome: string -> bool) returns (ghost round: seq<Ping>)
      requires Valid()
      modifies peers.Values, router`peers, router.ring, router.ring.buf
      ensures Valid() && peers == old(peers)
      ensures IsRound(round, old(peers.Keys), outcome)
      ensures State() == M.Run(router.ring.hash, old(State()), round)
    {
      hide Heartbeat, Sorted, IsRound, MatchesHistory, Failures;
      round := [];
      NoRound(outcome);
      var todo := peers.Keys;
      ghost var done: set<string> := {};
      while todo != {}
        invariant Valid() && peers == old(peers) && todo <= peers.Keys && done == peers.Keys - todo
        invariant router.ring.buf == old(router.ring.buf) || fresh(router.ring.buf)
        invariant IsRound(round, done, outcome)
        invariant State() == M.Run(router.ring.hash, old(State()), round)
      {
        var id :| id in todo;
        var _ := PingPeer(peers[id], outcome(id));
        RunStep(router.ring.hash, old(State()), round, Ping(id, outcome(id)));
        RoundStep(round, done, outcome, id);
        round := round + [Ping(id, outcome(id))];
        todo, done := todo - {id}, done + {id};
      }
      assert done == peers.Keys;
    }
  }

  lemma ReturnsAfterFailures(hash: Hash, v: View, myID: string, id: string)
    ensures forall config, pings :: id in config && MatchesHistory(hash, v, myID, config, pings) ==>
      id in v.peers && (v.peers[id].status != Alive <==> Failures(pings, id) > 0)
  {
    hide MatchesHistory, Failures;
    forall config, pings | id in config && MatchesHistory(hash, v, myID, config, pings)
      ensures id in v.peers && (v.peers[id].status != Alive <==> Failures(pings, id) > 0)
    {
      NotAliveIff(hash, v, myID, config, pings, id);
    }
  }

  lemma RoundStep(round: seq<Ping>, ids: set<string>, outcome: string -> bool, id: string)
    requires IsRound(round, ids, outcome) && id !in ids
    ensures IsRound(round + [Ping(id, outcome(id))], ids + {id}, outcome)
  {
    forall i | 0 <= i < |round| ensures round[i].id != id {
      assert round[i] in round;
    }
  }

  lemma NoRound(outcome: string -> bool)
    ensures IsRound([], {}, outcome)
  {}
}
