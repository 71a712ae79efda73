/** The value of a consistent-hash ring, the meaning of its operations, and when that
    value depends on the set of member nodes alone. */
module RingSpec {
  import opened Sequences
  import Fnv
  import Text

  const VIRTUAL_NODES: nat := 150

  type Hash = string -> Fnv.Pos

  // positions is kept sorted; nodeMap says which node a position belongs to.
  datatype RingState = RingState(positions: seq<int>, nodeMap: map<int, string>, nodes: set<string>)

  const EMPTY := RingState([], map[], {})

  function Vnode(hash: Hash, id: string, i: nat): int {
    hash(Text.Label(id, i))
  }

  function VnodesUpTo(hash: Hash, id: string, n: nat): (ps: seq<int>)
    ensures |ps| == n
    ensures forall i: nat :: i < n ==> ps[i] == Vnode(hash, id, i)
  {
    seq(n, i requires i >= 0 => Vnode(hash, id, i))
  }

  // The ring positions of a node.
  function Vnodes(hash: Hash, id: string): (ps: seq<int>)
    ensures |ps| == VIRTUAL_NODES
  {
    VnodesUpTo(hash, id, VIRTUAL_NODES)
  }

  // A Go map read: absent positions yield the empty string.
  function Lookup(nodeMap: map<int, string>, pos: int): string {
    if pos in nodeMap then nodeMap[pos] else ""
  }

  function Claim(nodeMap: map<int, string>, ps: seq<int>, id: string): map<int, string> {
    nodeMap + map p | p in ps :: id
  }

  function Add(hash: Hash, r: RingState, id: string): RingState {
    if id in r.nodes then r
    else RingState(Sort(r.positions + Vnodes(hash, id)), Claim(r.nodeMap, Vnodes(hash, id), id), r.nodes + {id})
  }

  // The removal loop over ps: what it keeps, and the map it leaves behind. An entry is
  // deleted when its position is met, so a repeated position is looked up after deletion.
  function Compact(ps: seq<int>, nodeMap: map<int, string>, id: string): (seq<int>, map<int, string>) {
    if ps == [] then ([], nodeMap)
    else
      var (kept, m) := Compact(ps[..|ps| - 1], nodeMap, id);
      var pos := ps[|ps| - 1];
      if Lookup(m, pos) == id then (kept, m - {pos}) else (kept + [pos], m)
  }

  function Remove(r: RingState, id: string): RingState {
    if id !in r.nodes then r
    else
      var (kept, m) := Compact(r.positions, r.nodeMap, id);
      RingState(kept, m, r.nodes - {id})
  }

  // The hypothesis of consistent hashing: no two virtual nodes of ids share a position.
  ghost predicate CollisionFree(hash: Hash, ids: set<string>) {
    forall a, b, i: nat, j: nat ::
      a in ids && b in ids && i < VIRTUAL_NODES && j < VIRTUAL_NODES && Vnode(hash, a, i) == Vnode(hash, b, j)
      ==> a == b && i == j
  }

  // The canonical state: sorted distinct positions, exactly those of the members, each mapped to its owner.
  ghost predicate Canonical(hash: Hash, r: RingState) {
    && StrictlySorted(r.positions)
    && (forall p :: p in r.positions <==> p in r.nodeMap)
    && (forall p :: p in r.nodeMap ==> r.nodeMap[p] in r.nodes && p in Vnodes(hash, r.nodeMap[p]))
    && (forall id, p :: id in r.nodes && p in Vnodes(hash, id) ==> p in r.nodeMap && r.nodeMap[p] == id)
  }

  lemma VnodesDistinct(hash: Hash, id: string, ids: set<string>)
    requires CollisionFree(hash, ids) && id in ids
    ensures Distinct(Vnodes(hash, id))
  {
    var ps := Vnodes(hash, id);
    forall i, j | 0 <= i < j < |ps| ensures ps[i] != ps[j] {
      assert ps[i] == Vnode(hash, id, i) && ps[j] == Vnode(hash, id, j);
    }
  }

  lemma VnodesDisjoint(hash: Hash, a: string, b: string, ids: set<string>)
    requires CollisionFree(hash, ids) && a in ids && b in ids && a != b
    ensures forall p :: p in Vnodes(hash, a) ==> p !in Vnodes(hash, b)
  {
    var ps, qs := Vnodes(hash, a), Vnodes(hash, b);
    forall i, j | 0 <= i < |ps| && 0 <= j < |qs| ensures ps[i] != qs[j] {
      assert ps[i] == Vnode(hash, a, i) && qs[j] == Vnode(hash, b, j);
    }
  }

  lemma NewVnodesAreFresh(hash: Hash, r: RingState, id: string)
    requires Canonical(hash, r) && CollisionFree(hash, r.nodes + {id}) && id !in r.nodes
    ensures Distinct(Vnodes(hash, id))
    ensures forall p :: p in r.nodeMap ==> p !in Vnodes(hash, id)
  {
    VnodesDistinct(hash, id, r.nodes + {id});
    forall p | p in r.nodeMap ensures p !in Vnodes(hash, id) {
      VnodesDisjoint(hash, r.nodeMap[p], id, r.nodes + {id});
    }
  }

  lemma AddKeepsCanonical(hash: Hash, r: RingState, id: string)
    requires Canonical(hash, r) && CollisionFree(hash, r.nodes + {id})
    ensures Canonical(hash, Add(hash, r, id))
  {
    if id !in r.nodes {
      var ps, vs, s := r.positions, Vnodes(hash, id), Add(hash, r, id);
      NewVnodesAreFresh(hash, r, id);
      assert StrictlySorted(s.positions) && forall p :: p in s.positions <==> p in ps || p in vs by {
        DistinctConcat(ps, vs);
        SortOfDistinct(ps + vs);
        SortElements(ps + vs);
      }
      ExtensionIsCanonical(hash, r, s, id);
    }
  }

  lemma ExtensionIsCanonical(hash: Hash, r: RingState, s: RingState, id: string)
    requires Canonical(hash, r)
    requires s.nodes == r.nodes + {id} && s.nodeMap == Claim(r.nodeMap, Vnodes(hash, id), id)
    requires StrictlySorted(s.positions)
    requires forall p :: p in s.positions <==> p in r.positions || p in Vnodes(hash, id)
    requires forall p :: p in r.nodeMap ==> p !in Vnodes(hash, id)
    ensures Canonical(hash, s)
  {
    forall other, p | other in s.nodes && p in Vnodes(hash, other) ensures p in s.nodeMap && s.nodeMap[p] == other {
      if other != id {
        assert p in r.nodeMap && r.nodeMap[p] == other;
      }
    }
  }

  function Others(nodeMap: map<int, string>, id: string): set<int> {
    set p | p in nodeMap && nodeMap[p] != id
  }

  function Unclaim(nodeMap: map<int, string>, ps: seq<int>, id: string): map<int, string> {
    map p | p in nodeMap && !(p in ps && nodeMap[p] == id) :: nodeMap[p]
  }

  // What the removal loop does when every position is met once.
  lemma {:induction false} CompactKeepsOthers(ps: seq<int>, nodeMap: map<int, string>, id: string)
    requires Distinct(ps)
    requires forall p :: p in ps ==> p in nodeMap
    ensures Compact(ps, nodeMap, id) == (Keep(ps, Others(nodeMap, id)), Unclaim(nodeMap, ps, id))
  {
    if ps == [] {
      assert Unclaim(nodeMap, ps, id) == nodeMap;
    } else {
      var init, pos := ps[..|ps| - 1], ps[|ps| - 1];
      CompactKeepsOthers(init, nodeMap, id);
      assert pos !in init;
      assert ps == init + [pos];
      var m := Unclaim(nodeMap, init, id);
      assert Lookup(m, pos) == nodeMap[pos];
      if nodeMap[pos] == id {
        assert Unclaim(nodeMap, ps, id) == m - {pos};
      } else {
        assert Unclaim(nodeMap, ps, id) == m;
      }
      assert Compact(ps, nodeMap, id).0 == Keep(ps, Others(nodeMap, id));
    }
  }

  lemma RemoveKeepsCanonical(hash: Hash, r: RingState, id: string)
    requires Canonical(hash, r)
    ensures Canonical(hash, Remove(r, id))
  {
    if id in r.nodes {
      CompactKeepsOthers(r.positions, r.nodeMap, id);
      KeepSorted(r.positions, Others(r.nodeMap, id));
      KeepElements(r.positions, Others(r.nodeMap, id));
    }
  }

  /** Equal member sets give equal rings. */
  lemma CanonicalUnique(hash: Hash, r: RingState, s: RingState)
    requires Canonical(hash, r) && Canonical(hash, s) && r.nodes == s.nodes
    ensures r == s
  {
    forall p ensures p in r.nodeMap <==> p in s.nodeMap {
      if p in r.nodeMap {
        assert p in Vnodes(hash, r.nodeMap[p]);
      }
      if p in s.nodeMap {
        assert p in Vnodes(hash, s.nodeMap[p]);
      }
    }
    forall p | p in r.nodeMap ensures r.nodeMap[p] == s.nodeMap[p] {
      assert p in Vnodes(hash, r.nodeMap[p]);
    }
    assert r.nodeMap == s.nodeMap;
    StrictlySortedUnique(r.positions, s.positions);
  }

  /** A ring has 150 positions per member. */
  lemma {:induction false} CanonicalSize(hash: Hash, r: RingState)
    requires Canonical(hash, r) && CollisionFree(hash, r.nodes)
    ensures |r.positions| == 150 * |r.nodes|
    decreases |r.nodes|
  {
    if r.nodes == {} {
      NonEmptyHasElement(r.positions);
    } else {
      var id :| id in r.nodes;
      var s := Remove(r, id);
      RemoveKeepsCanonical(hash, r, id);
      CanonicalSize(hash, s);
      assert s.nodes + {id} == r.nodes;
      AddKeepsCanonical(hash, s, id);
      CanonicalUnique(hash, Add(hash, s, id), r);
      SortElements(s.positions + Vnodes(hash, id));
    }
  }

  datatype Op = AddOp(id: string) | RemoveOp(id: string)

  // The ring and the member set after a history of operations, starting from a new ring.
  function Run(hash: Hash, ops: seq<Op>): RingState {
    if ops == [] then EMPTY
    else
      var r := Run(hash, ops[..|ops| - 1]);
      match ops[|ops| - 1]
      case AddOp(id) => Add(hash, r, id)
      case RemoveOp(id) => Remove(r, id)
  }

  function Members(ops: seq<Op>): set<string> {
    if ops == [] then {}
    else
      var s := Members(ops[..|ops| - 1]);
      match ops[|ops| - 1]
      case AddOp(id) => s + {id}
      case RemoveOp(id) => s - {id}
  }

  function Mentioned(ops: seq<Op>): set<string> {
    set op | op in ops :: op.id
  }

  lemma {:induction false} MembersMentioned(ops: seq<Op>)
    ensures Members(ops) <= Mentioned(ops)
  {
    if ops != [] {
      var init := ops[..|ops| - 1];
      MembersMentioned(init);
      assert forall op :: op in init ==> op in ops;
      assert Mentioned(init) <= Mentioned(ops);
      assert ops[|ops| - 1] in ops;
    }
  }

  /** After any history the ring is canonical for the surviving members. */
  lemma {:induction false} RunIsCanonical(hash: Hash, ops: seq<Op>)
    requires CollisionFree(hash, Mentioned(ops))
    ensures Canonical(hash, Run(hash, ops)) && Run(hash, ops).nodes == Members(ops)
    ensures |Run(hash, ops).positions| == 150 * |Members(ops)|
  {
    if ops != [] {
      var init, op := ops[..|ops| - 1], ops[|ops| - 1];
      assert Mentioned(init) <= Mentioned(ops);
      RunIsCanonical(hash, init);
      MembersMentioned(init);
      assert op.id in Mentioned(ops) by { assert op in ops; }
      match op {
        case AddOp(id) => AddKeepsCanonical(hash, Run(hash, init), id);
        case RemoveOp(id) => RemoveKeepsCanonical(hash, Run(hash, init), id);
      }
    }
    MembersMentioned(ops);
    CanonicalSize(hash, Run(hash, ops));
  }

  /** Histories with the same surviving members, in whatever order, end in the same ring. */
  lemma HistoryDoesNotMatter(hash: Hash, ops: seq<Op>, ops': seq<Op>)
    requires CollisionFree(hash, Mentioned(ops) + Mentioned(ops'))
    requires Members(ops) == Members(ops')
    ensures Run(hash, ops) == Run(hash, ops')
  {
    RunIsCanonical(hash, ops);
    RunIsCanonical(hash, ops');
    CanonicalUnique(hash, Run(hash, ops), Run(hash, ops'));
  }

  ghost predicate Disjoint(s: seq<int>, t: seq<int>) {
    forall p :: p in s ==> p !in t
  }

  lemma InsertedPositionsCommute(hash: Hash, r: RingState, a: string, b: string)
    requires a != b && a !in r.nodes && b !in r.nodes
    ensures Add(hash, Add(hash, r, a), b).positions == Add(hash, Add(hash, r, b), a).positions
  {
    var vs, ws := Vnodes(hash, a), Vnodes(hash, b);
    SortSorts(r.positions + vs);
    SortSorts(r.positions + ws);
    assert multiset(Sort(r.positions + vs) + ws) == multiset(r.positions) + multiset(vs) + multiset(ws);
    assert multiset(Sort(r.positions + ws) + vs) == multiset(r.positions) + multiset(vs) + multiset(ws);
    SortOfMultiset(Sort(r.positions + vs) + ws, Sort(r.positions + ws) + vs);
  }

  lemma ClaimsCommuteIff(nodeMap: map<int, string>, vs: seq<int>, ws: seq<int>, a: string, b: string)
    requires a != b
    ensures Claim(Claim(nodeMap, vs, a), ws, b) == Claim(Claim(nodeMap, ws, b), vs, a) <==> Disjoint(vs, ws)
  {
    var ab, ba := Claim(Claim(nodeMap, vs, a), ws, b), Claim(Claim(nodeMap, ws, b), vs, a);
    if p :| p in vs && p in ws {
      assert ab[p] == b && ba[p] == a;
    } else {
      forall p | p in ab || p in ba ensures p in ab && p in ba && ab[p] == ba[p] {}
      assert ab == ba;
    }
  }

  /** Two insertions commute exactly when the nodes share no position: on a shared position the
      last writer wins. */
  lemma InsertionsCommuteIff(hash: Hash, r: RingState, a: string, b: string)
    requires a != b && a !in r.nodes && b !in r.nodes
    ensures Add(hash, Add(hash, r, a), b) == Add(hash, Add(hash, r, b), a)
       <==> Disjoint(Vnodes(hash, a), Vnodes(hash, b))
  {
    InsertedPositionsCommute(hash, r, a, b);
    ClaimsCommuteIff(r.nodeMap, Vnodes(hash, a), Vnodes(hash, b), a, b);
    assert r.nodes + {a} + {b} == r.nodes + {b} + {a};
  }

  // Whatever repetitions ps has, positions of other nodes stay and those of id lose their entry.
  lemma {:induction false} CompactEffect(ps: seq<int>, nodeMap: map<int, string>, id: string, p: int)
    requires p in ps && p in nodeMap
    ensures var (kept, m) := Compact(ps, nodeMap, id);
      && (nodeMap[p] == id ==> p !in m)
      && (nodeMap[p] != id ==> p in m && m[p] == nodeMap[p])
      && (nodeMap[p] == id != "" && multiset(ps)[p] >= 2 ==> p in kept)
  {
    var init, pos := ps[..|ps| - 1], ps[|ps| - 1];
    assert ps == init + [pos];
    if p in init {
      CompactEffect(init, nodeMap, id, p);
    } else {
      CompactLeavesAlone(init, nodeMap, id, p);
    }
  }

  lemma {:induction false} CompactLeavesAlone(ps: seq<int>, nodeMap: map<int, string>, id: string, p: int)
    requires p !in ps
    ensures var (kept, m) := Compact(ps, nodeMap, id);
      p !in kept && (p in m <==> p in nodeMap) && (p in nodeMap ==> m[p] == nodeMap[p])
  {
    if ps != [] {
      CompactLeavesAlone(ps[..|ps| - 1], nodeMap, id, p);
    }
  }

  /** Removing a node undoes adding it exactly when its positions are pairwise distinct and none of
      them was taken; a repeated position dangles, a taken one is lost to its former owner. */
  lemma RemoveUndoesAddIff(hash: Hash, r: RingState, id: string)
    requires id != "" && id !in r.nodes
    requires Canonical(hash, r)
    ensures Remove(Add(hash, r, id), id) == r
       <==> Distinct(Vnodes(hash, id)) && Disjoint(Vnodes(hash, id), r.positions)
  {
    var vs := Vnodes(hash, id);
    if Distinct(vs) && Disjoint(vs, r.positions) {
      AddThenRemove(hash, r, id);
    } else {
      AddThenRemoveDiffers(hash, r, id);
    }
  }

  lemma AddedPositions(hash: Hash, r: RingState, id: string)
    requires id !in r.nodes && Canonical(hash, r)
    requires Distinct(Vnodes(hash, id)) && Disjoint(Vnodes(hash, id), r.positions)
    ensures var s := Add(hash, r, id);
      && StrictlySorted(s.positions)
      && (forall p :: p in s.positions <==> p in s.nodeMap)
      && (forall p :: p in Vnodes(hash, id) ==> p in s.positions)
      && Keep(s.positions, Others(s.nodeMap, id)) == r.positions
  {
    var ps, vs, s := r.positions, Vnodes(hash, id), Add(hash, r, id);
    DistinctConcat(ps, vs);
    SortOfDistinct(ps + vs);
    SortElements(ps + vs);
    var others := Others(s.nodeMap, id);
    assert forall p :: p in others <==> p in r.nodeMap;
    KeepSorted(s.positions, others);
    KeepElements(s.positions, others);
    StrictlySortedUnique(Keep(s.positions, others), ps);
  }

  lemma AddThenRemove(hash: Hash, r: RingState, id: string)
    requires id !in r.nodes && Canonical(hash, r)
    requires Distinct(Vnodes(hash, id)) && Disjoint(Vnodes(hash, id), r.positions)
    ensures Remove(Add(hash, r, id), id) == r
  {
    var s := Add(hash, r, id);
    AddedPositions(hash, r, id);
    CompactKeepsOthers(s.positions, s.nodeMap, id);
    ClaimThenUnclaim(r.nodeMap, Vnodes(hash, id), s.positions, id);
    assert Remove(s, id).nodes == r.nodes;
  }

  lemma ClaimThenUnclaim(nodeMap: map<int, string>, vs: seq<int>, ps: seq<int>, id: string)
    requires forall p :: p in nodeMap ==> p !in vs && nodeMap[p] != id
    requires forall p :: p in vs ==> p in ps
    ensures Unclaim(Claim(nodeMap, vs, id), ps, id) == nodeMap
  {
    var m := Unclaim(Claim(nodeMap, vs, id), ps, id);
    forall p | p in m || p in nodeMap ensures p in m && p in nodeMap && m[p] == nodeMap[p] {}
  }

  lemma AddThenRemoveDiffers(hash: Hash, r: RingState, id: string)
    requires id != "" && id !in r.nodes && Canonical(hash, r)
    requires !(Distinct(Vnodes(hash, id)) && Disjoint(Vnodes(hash, id), r.positions))
    ensures Remove(Add(hash, r, id), id) != r
  {
    var ps, vs, s := r.positions, Vnodes(hash, id), Add(hash, r, id);
    SortElements(ps + vs);
    SortSorts(ps + vs);
    if p :| p in vs && p in ps {
      CompactEffect(s.positions, s.nodeMap, id, p);
    } else {
      var i, j :| 0 <= i < j < |vs| && vs[i] == vs[j];
      OccursTwice(vs, i, j);
      assert multiset(s.positions)[vs[i]] >= 2;
      CompactEffect(s.positions, s.nodeMap, id, vs[i]);
      assert vs[i] !in ps;
    }
  }
}
