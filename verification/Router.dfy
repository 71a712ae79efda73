/** The router: the ring of live members plus the address book of live peers. */
module Router {
  import opened RingSpec
  import opened Preference
  import M = Membership
  import opened Ring

  class PeerRouter {
    const myID: string
    const ring: HashRing
    var peers: map<string, string>

    ghost predicate Valid()
      reads this, ring, ring.buf
    {
      ring.Valid()
    }

    ghost function State(): M.RouterState
      reads this, ring, ring.buf
      requires Valid()
    {
      M.RouterState(ring.State(), peers)
    }

    constructor (hash: Hash, myID: string)
      ensures Valid() && fresh(ring) && fresh(ring.buf) && ring.hash == hash && this.myID == myID
      ensures State() == M.RouterState(Add(hash, EMPTY, myID), map[])
    {
      this.myID := myID;
      var r := new HashRing(hash);
      r.AddNode(myID);
      ring := r;
      peers := map[];
    }

    method AddPeer(id: string, addr: string)
      requires Valid()
      modifies this`peers, ring, ring.buf
      ensures Valid() && (ring.buf == old(ring.buf) || fresh(ring.buf))
      ensures State() == M.AddPeer(ring.hash, old(State()), id, addr)
    {
      peers := peers[id := addr];
      ring.AddNode(id);
    }

    method RemovePeer(id: string)
      requires Valid()
      modifies this`peers, ring, ring.buf
      ensures Valid() && ring.buf == old(ring.buf)
      ensures State() == M.RemovePeer(old(State()), id)
    {
      peers := peers - {id};
      ring.RemoveNode(id);
    }

    method OwnerOf(key: string) returns (id: string)
      requires Valid()
      ensures id == Owner(ring.State(), ring.hash(key))
    {
      id := ring.GetNode(key);
    }

    // The node after the owner in clockwise order, if there is one.
    method Replicas(key: string) returns (ids: seq<string>)
      requires Valid()
      ensures ids == var pref := PreferenceList(ring.State(), ring.hash(key));
        if |pref| < 2 then [] else [pref[1]]
    {
      var nodes := ring.GetNodes(key, 2);
      if |nodes| < 2 {
        return [];
      }
      ids := nodes[1..];
    }
  }
}
