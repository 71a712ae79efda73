/** Ownership and replica choice: the clockwise preference list of a key, and how it
    changes with the member set. */
module Preference {
  import opened Sequences
  import opened RingSpec

  // Index of the first position at or past h: what the binary search over sorted positions finds.
  function FirstAtLeast(ps: seq<int>, h: int): (k: nat)
    ensures k <= |ps|
  {
    if ps == [] || ps[0] >= h then 0 else 1 + FirstAtLeast(ps[1..], h)
  }

  // The positions in the order a clockwise walk from h meets them, wrapping past the end.
  function Clockwise(ps: seq<int>, h: int): (qs: seq<int>)
    ensures |qs| == |ps|
  {
    var k := FirstAtLeast(ps, h);
    ps[k..] + ps[..k]
  }

  function OwnersOf(nodeMap: map<int, string>, ps: seq<int>): (ids: seq<string>)
    ensures |ids| == |ps|
    ensures forall i :: 0 <= i < |ps| ==> ids[i] == Lookup(nodeMap, ps[i])
  {
    seq(|ps|, i requires 0 <= i < |ps| => Lookup(nodeMap, ps[i]))
  }

  // All members in the order a clockwise walk from h first meets them.
  function PreferenceList(r: RingState, h: int): seq<string> {
    Dedup(OwnersOf(r.nodeMap, Clockwise(r.positions, h)))
  }

  // The owner of hash h: the node at the first position at or past h, wrapping; "" on an empty ring.
  function Owner(r: RingState, h: int): string {
    if r.positions == [] then "" else Lookup(r.nodeMap, Clockwise(r.positions, h)[0])
  }

  lemma {:induction false} FirstAtLeastSplits(ps: seq<int>, h: int)
    requires Sorted(ps)
    ensures var k := FirstAtLeast(ps, h);
      && (forall i :: 0 <= i < k ==> ps[i] < h)
      && (forall i :: k <= i < |ps| ==> ps[i] >= h)
  {
    if ps != [] && ps[0] < h {
      FirstAtLeastSplits(ps[1..], h);
      var k := FirstAtLeast(ps[1..], h);
      assert forall i :: 1 <= i < |ps| ==> ps[i] == ps[1..][i - 1];
    }
  }

  lemma {:induction false} FirstAtLeastOfSplit(lo: seq<int>, hi: seq<int>, h: int)
    requires forall i :: 0 <= i < |lo| ==> lo[i] < h
    requires hi != [] ==> hi[0] >= h
    ensures FirstAtLeast(lo + hi, h) == |lo|
  {
    if lo == [] {
      assert lo + hi == hi;
    } else {
      assert (lo + hi)[1..] == lo[1..] + hi;
      FirstAtLeastOfSplit(lo[1..], hi, h);
    }
  }

  lemma ClockwiseKeep(ps: seq<int>, h: int, keep: set<int>)
    requires StrictlySorted(ps)
    ensures Clockwise(Keep(ps, keep), h) == Keep(Clockwise(ps, h), keep)
  {
    var k := FirstAtLeast(ps, h);
    var lo, hi := ps[..k], ps[k..];
    var lo', hi' := Keep(lo, keep), Keep(hi, keep);
    assert ps == lo + hi;
    assert Keep(ps, keep) == lo' + hi' by { KeepConcat(lo, hi, keep); }
    assert Keep(hi + lo, keep) == hi' + lo' by { KeepConcat(hi, lo, keep); }
    assert FirstAtLeast(lo' + hi', h) == |lo'| by {
      FirstAtLeastSplits(ps, h);
      KeepElements(lo, keep);
      KeepElements(hi, keep);
      assert forall i :: 0 <= i < |lo'| ==> lo'[i] in lo';
      assert forall i :: 0 <= i < |hi'| ==> hi'[i] in hi';
      FirstAtLeastOfSplit(lo', hi', h);
    }
  }

  lemma {:induction false} OwnersKeep(m: map<int, string>, m': map<int, string>, ps: seq<int>, ids: set<string>,
                                      keep: set<int>)
    requires forall p :: p in ps ==> p in m
    requires keep == set p | p in m && m[p] in ids
    requires forall p :: p in keep ==> p in m' && m'[p] == m[p]
    ensures OwnersOf(m', Keep(ps, keep)) == Keep(OwnersOf(m, ps), ids)
  {
    if ps != [] {
      var init, last := ps[..|ps| - 1], ps[|ps| - 1];
      OwnersKeep(m, m', init, ids, keep);
      assert OwnersOf(m, ps)[..|ps| - 1] == OwnersOf(m, init);
      assert ps == init + [last];
      if last in keep {
        assert OwnersOf(m', Keep(init, keep) + [last]) == OwnersOf(m', Keep(init, keep)) + [m[last]];
      }
    }
  }

  lemma ClockwiseElements(ps: seq<int>, h: int)
    ensures forall p :: p in Clockwise(ps, h) <==> p in ps
  {
    var k := FirstAtLeast(ps, h);
    assert ps == ps[..k] + ps[k..];
  }

  lemma SubringPositions(hash: Hash, u: RingState, s: RingState, keep: set<int>)
    requires Canonical(hash, u) && Canonical(hash, s) && s.nodes <= u.nodes
    requires keep == set p | p in u.nodeMap && u.nodeMap[p] in s.nodes
    ensures s.positions == Keep(u.positions, keep)
    ensures forall p :: p in keep ==> p in s.nodeMap && s.nodeMap[p] == u.nodeMap[p]
  {
    KeepSorted(u.positions, keep);
    KeepElements(u.positions, keep);
    forall p ensures p in s.nodeMap <==> p in keep {
      if p in s.nodeMap {
        assert p in Vnodes(hash, s.nodeMap[p]);
      }
      if p in keep {
        assert p in Vnodes(hash, u.nodeMap[p]);
      }
    }
    StrictlySortedUnique(s.positions, Keep(u.positions, keep));
  }

  /** The preference-list theorem: a smaller ring prefers the same nodes in the same order,
      with the missing ones deleted. */
  lemma SmallerRingPrefersTheSame(hash: Hash, u: RingState, s: RingState, h: int)
    requires Canonical(hash, u) && Canonical(hash, s) && s.nodes <= u.nodes
    ensures PreferenceList(s, h) == Keep(PreferenceList(u, h), s.nodes)
  {
    var keep := set p | p in u.nodeMap && u.nodeMap[p] in s.nodes;
    SubringPositions(hash, u, s, keep);
    ClockwiseKeep(u.positions, h, keep);
    var qs := Clockwise(u.positions, h);
    ClockwiseElements(u.positions, h);
    OwnersKeep(u.nodeMap, s.nodeMap, qs, s.nodes, keep);
    DedupKeepCommute(OwnersOf(u.nodeMap, qs), s.nodes);
  }

  lemma OwnersAreMembers(hash: Hash, r: RingState, h: int)
    requires Canonical(hash, r)
    ensures forall id :: id in OwnersOf(r.nodeMap, Clockwise(r.positions, h)) <==> id in r.nodes
  {
    var qs := Clockwise(r.positions, h);
    var ids := OwnersOf(r.nodeMap, qs);
    ClockwiseElements(r.positions, h);
    forall id | id in r.nodes ensures id in ids {
      var p := Vnodes(hash, id)[0];
      assert p in Vnodes(hash, id);
      assert p in qs;
      var i :| 0 <= i < |qs| && qs[i] == p;
      assert ids[i] == id;
    }
    forall id | id in ids ensures id in r.nodes {
      var i :| 0 <= i < |ids| && ids[i] == id;
      assert qs[i] in qs;
    }
  }

  lemma DedupHead<T>(s: seq<T>)
    requires s != []
    ensures Dedup(s) != [] && Dedup(s)[0] == s[0]
  {
    DedupPrefix(s, 1);
    assert s[..1][..0] == [];
    assert Dedup(s[..1]) == [s[0]];
  }

  /** The preference list holds every member exactly once, and its head is the owner. */
  lemma PreferenceListHoldsMembers(hash: Hash, r: RingState, h: int)
    requires Canonical(hash, r)
    ensures Distinct(PreferenceList(r, h))
    ensures forall id :: id in PreferenceList(r, h) <==> id in r.nodes
    ensures r.nodes != {} ==> PreferenceList(r, h) != [] && PreferenceList(r, h)[0] == Owner(r, h)
    ensures r.nodes == {} ==> Owner(r, h) == ""
  {
    var ids := OwnersOf(r.nodeMap, Clockwise(r.positions, h));
    OwnersAreMembers(hash, r, h);
    DedupElements(ids);
    NonEmptyHasElement(ids);
    if ids != [] {
      DedupHead(ids);
    }
  }

  lemma RemovalKeepsOrder(hash: Hash, r: RingState, id: string, h: int)
    requires Canonical(hash, r) && id in r.nodes && |r.nodes| >= 2
    ensures PreferenceList(Remove(r, id), h) == Keep(PreferenceList(r, h), r.nodes - {id})
    ensures PreferenceList(Remove(r, id), h) != []
    ensures Owner(Remove(r, id), h) == PreferenceList(Remove(r, id), h)[0]
    ensures Owner(Remove(r, id), h) != id
  {
    var s := Remove(r, id);
    RemoveKeepsCanonical(hash, r, id);
    PreferenceListHoldsMembers(hash, s, h);
    SmallerRingPrefersTheSame(hash, r, s, h);
    assert |s.nodes| == |r.nodes| - 1;
  }

  lemma KeepDropsHead<T>(s: seq<T>, keep: set<T>)
    requires s != [] && s[0] !in keep
    requires forall x :: x in s[1..] ==> x in keep
    ensures Keep(s, keep) == s[1..]
  {
    assert s == [s[0]] + s[1..];
    KeepConcat([s[0]], s[1..], keep);
    assert [s[0]][..0] == [];
    KeepAll(s[1..], keep);
  }

  /** Removing the owner of a key promotes exactly its replica. */
  lemma RemovingOwnerPromotesReplica(hash: Hash, r: RingState, h: int)
    requires Canonical(hash, r) && |r.nodes| >= 2
    ensures |PreferenceList(r, h)| >= 2
    ensures Owner(Remove(r, Owner(r, h)), h) == PreferenceList(r, h)[1]
  {
    var pref, owner := PreferenceList(r, h), Owner(r, h);
    PreferenceListHoldsMembers(hash, r, h);
    DistinctCoverSize(pref, r.nodes);
    assert owner in pref by { assert pref[0] in pref; }
    RemovalKeepsOrder(hash, r, owner, h);
    assert forall x :: x in pref[1..] ==> x in pref;
    KeepDropsHead(pref, r.nodes - {owner});
  }

  lemma {:induction false} DistinctCoverSize<T(!new)>(s: seq<T>, all: set<T>)
    requires Distinct(s) && forall x :: x in s <==> x in all
    ensures |s| == |all|
  {
    if s == [] {
      assert all == {};
    } else {
      var init, last := s[..|s| - 1], s[|s| - 1];
      assert s == init + [last];
      assert last !in init;
      DistinctCoverSize(init, all - {last});
    }
  }

  /** Removing a node moves exactly the keys it owned. */
  lemma RemovalMovesOnlyOwnKeys(hash: Hash, r: RingState, id: string, h: int)
    requires Canonical(hash, r) && id in r.nodes && |r.nodes| >= 2
    ensures Owner(Remove(r, id), h) != Owner(r, h) <==> Owner(r, h) == id
  {
    var pref := PreferenceList(r, h);
    PreferenceListHoldsMembers(hash, r, h);
    RemovalKeepsOrder(hash, r, id, h);
    assert pref[0] in pref;
    if Owner(r, h) != id {
      KeepStartsWithFirstKept(pref, r.nodes - {id}, 0);
    }
  }

  /** Adding a node moves keys only to that node. */
  lemma AdditionMovesKeysOnlyToNewNode(hash: Hash, r: RingState, id: string, h: int)
    requires Canonical(hash, r) && CollisionFree(hash, r.nodes + {id}) && id !in r.nodes && r.nodes != {}
    ensures Owner(Add(hash, r, id), h) in {id, Owner(r, h)}
  {
    var big := Add(hash, r, id);
    var pref := PreferenceList(big, h);
    AddKeepsCanonical(hash, r, id);
    PreferenceListHoldsMembers(hash, big, h);
    PreferenceListHoldsMembers(hash, r, h);
    SmallerRingPrefersTheSame(hash, big, r, h);
    if pref[0] != id {
      KeepStartsWithFirstKept(pref, r.nodes, 0);
    }
  }

  // The first element of s that lies in keep starts Keep(s, keep).
  lemma KeepStartsWithFirstKept<T>(s: seq<T>, keep: set<T>, k: nat)
    requires k < |s| && s[k] in keep
    requires forall i :: 0 <= i < k ==> s[i] !in keep
    ensures Keep(s, keep) != [] && Keep(s, keep)[0] == s[k]
  {
    assert s == s[..k] + ([s[k]] + s[k + 1..]);
    KeepConcat(s[..k], [s[k]] + s[k + 1..], keep);
    KeepConcat([s[k]], s[k + 1..], keep);
    assert [s[k]][..0] == [];
    KeepNone(s[..k], keep);
  }

  lemma {:induction false} KeepNone<T>(s: seq<T>, keep: set<T>)
    requires forall x :: x in s ==> x !in keep
    ensures Keep(s, keep) == []
  {
    if s != [] {
      KeepNone(s[..|s| - 1], keep);
    }
  }

  // The place of id in a preference list.
  function Rank(pref: seq<string>, id: string): (k: nat)
    requires id in pref
    ensures k < |pref| && pref[k] == id
    ensures forall i :: 0 <= i < k ==> pref[i] != id
  {
    if pref[0] == id then 0 else 1 + Rank(pref[1..], id)
  }

  // The first node of a preference list that a view contains.
  function OwnerIn(pref: seq<string>, view: set<string>): string {
    var kept := Keep(pref, view);
    if kept == [] then "" else kept[0]
  }

  /** In a view that contains id, the owner is never ranked behind id. */
  lemma OwnerRanksFirst(pref: seq<string>, view: set<string>, id: string)
    requires id in pref && id in view
    ensures OwnerIn(pref, view) in pref && OwnerIn(pref, view) in view
    ensures forall v :: v in pref && v in view ==> Rank(pref, OwnerIn(pref, view)) <= Rank(pref, v)
  {
    var k := FirstIn(pref, view, id);
    KeepStartsWithFirstKept(pref, view, k);
  }

  lemma {:induction false} FirstIn(pref: seq<string>, view: set<string>, id: string) returns (k: nat)
    requires id in pref && id in view
    ensures k < |pref| && pref[k] in view
    ensures forall i :: 0 <= i < k ==> pref[i] !in view
  {
    if pref[0] in view {
      k := 0;
    } else {
      k := FirstIn(pref[1..], view, id);
      k := k + 1;
    }
  }

  /** The owner a node's ring computes is the first node of its view in the full clockwise order. */
  lemma OwnerInView(hash: Hash, u: RingState, s: RingState, h: int)
    requires Canonical(hash, u) && Canonical(hash, s) && s.nodes <= u.nodes
    ensures Owner(s, h) == OwnerIn(PreferenceList(u, h), s.nodes)
  {
    SmallerRingPrefersTheSame(hash, u, s, h);
    PreferenceListHoldsMembers(hash, s, h);
    assert s.nodes == {} ==> PreferenceList(s, h) == [] by {
      NonEmptyHasElement(PreferenceList(s, h));
    }
  }
}
