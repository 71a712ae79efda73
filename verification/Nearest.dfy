/** What clockwise means: the preference list of a key orders the members by the distance of their nearest
    position ahead of the key, around a circle of 2 to the 32 positions. */
module Nearest {
  import opened Sequences
  import Fnv
  import opened RingSpec
  import opened Preference

  // How far ahead of h a position is, going up and around.
  function Ahead(h: int, p: int): int {
    if p >= h then p - h else p - h + 0x1_0000_0000
  }

  ghost predicate OnCircle(ps: seq<int>) {
    forall i :: 0 <= i < |ps| ==> 0 <= ps[i] < 0x1_0000_0000
  }

  lemma CanonicalIsOnCircle(hash: Hash, r: RingState)
    requires Canonical(hash, r)
    ensures OnCircle(r.positions)
  {
    forall i | 0 <= i < |r.positions| ensures 0 <= r.positions[i] < 0x1_0000_0000 {
      var p := r.positions[i];
      assert p in r.nodeMap;
      var ps := Vnodes(hash, r.nodeMap[p]);
      var j :| 0 <= j < |ps| && ps[j] == p;
      assert p == Vnode(hash, r.nodeMap[p], j);
    }
  }

  // A clockwise walk meets the positions by increasing distance.
  lemma ClockwiseByDistance(ps: seq<int>, h: int, i: nat, j: nat)
    requires StrictlySorted(ps) && OnCircle(ps) && 0 <= h < 0x1_0000_0000 && i < j < |ps|
    ensures Ahead(h, Clockwise(ps, h)[i]) < Ahead(h, Clockwise(ps, h)[j])
  {
    FirstAtLeastSplits(ps, h);
    var k, n := FirstAtLeast(ps, h), |ps|;
    assert Clockwise(ps, h)[i] == if i < n - k then ps[k + i] else ps[i - (n - k)];
    assert Clockwise(ps, h)[j] == if j < n - k then ps[k + j] else ps[j - (n - k)];
  }

  // The first place of x in s.
  ghost predicate FirstAt(s: seq<string>, x: string, k: nat) {
    k < |s| && s[k] == x && forall i :: 0 <= i < k ==> s[i] != x
  }

  // Deduplication keeps the order of first places.
  lemma DedupOrder(s: seq<string>, a: string, b: string, i: nat, j: nat)
    requires FirstAt(s, a, i) && FirstAt(s, b, j) && i < j
    ensures a in Dedup(s) && b in Dedup(s) && Rank(Dedup(s), a) < Rank(Dedup(s), b)
  {
    DedupElements(s);
    DedupElements(s[..j]);
    DedupPrefix(s, j);
    assert s[..j][i] == a && b !in s[..j];
    var d, e := Dedup(s), Dedup(s[..j]);
    assert a in e && b !in e;
    var k :| 0 <= k < |e| && e[k] == a;
    assert d[k] == a;
    assert forall m :: 0 <= m < |e| ==> d[m] == e[m] && d[m] != b;
    RankAtMost(d, a, k);
  }

  lemma RankAtMost(d: seq<string>, x: string, k: nat)
    requires k < |d| && d[k] == x
    ensures Rank(d, x) <= k
  {}

  // Some position of a is nearer ahead of h than every position of b.
  ghost predicate Nearer(hash: Hash, h: int, a: string, b: string) {
    exists i: nat :: i < 150 && forall j: nat :: j < 150 ==> Ahead(h, Vnode(hash, a, i)) < Ahead(h, Vnode(hash, b, j))
  }

  lemma {:induction false} FirstPlace(s: seq<string>, x: string) returns (k: nat)
    requires x in s
    ensures FirstAt(s, x, k)
  {
    if s[0] == x {
      k := 0;
    } else {
      var j := FirstPlace(s[1..], x);
      k := j + 1;
    }
  }

  // Where a walk from h first meets a member: at the nearest of its positions.
  lemma FirstMet(hash: Hash, r: RingState, h: int, a: string) returns (f: nat, i: nat)
    requires Canonical(hash, r) && a in r.nodes && 0 <= h < 0x1_0000_0000
    ensures var qs := Clockwise(r.positions, h);
      && FirstAt(OwnersOf(r.nodeMap, qs), a, f) && i < 150 && f < |qs| && Vnode(hash, a, i) == qs[f]
      && forall j: nat :: j < 150 ==> Ahead(h, qs[f]) <= Ahead(h, Vnode(hash, a, j))
  {
    var qs := Clockwise(r.positions, h);
    var ids := OwnersOf(r.nodeMap, qs);
    var at := MetAt(hash, r, h, a, 0);
    assert ids[at] == a;
    f := FirstPlace(ids, a);
    i := PositionOf(hash, r, h, a, f);
    CanonicalIsOnCircle(hash, r);
    hide Canonical, Ahead, Clockwise;
    forall j: nat | j < 150 ensures Ahead(h, qs[f]) <= Ahead(h, Vnode(hash, a, j)) {
      var k := MetAt(hash, r, h, a, j);
      if k != f {
        ClockwiseIsLater(hash, r, h, f, k);
      }
    }
  }

  // Each position of a member is met somewhere, under its name.
  lemma MetAt(hash: Hash, r: RingState, h: int, a: string, j: nat) returns (k: nat)
    requires Canonical(hash, r) && a in r.nodes && j < 150
    ensures var qs := Clockwise(r.positions, h);
      k < |qs| && qs[k] == Vnode(hash, a, j) && OwnersOf(r.nodeMap, qs)[k] == a
  {
    var p, qs := Vnode(hash, a, j), Clockwise(r.positions, h);
    assert Vnodes(hash, a)[j] == p;
    assert p in Vnodes(hash, a) && p in r.nodeMap && p in r.positions;
    ClockwiseElements(r.positions, h);
    k :| 0 <= k < |qs| && qs[k] == p;
  }

  lemma PositionOf(hash: Hash, r: RingState, h: int, a: string, f: nat) returns (i: nat)
    requires Canonical(hash, r) && a in r.nodes && f < |r.positions|
    requires OwnersOf(r.nodeMap, Clockwise(r.positions, h))[f] == a
    ensures i < 150 && Vnode(hash, a, i) == Clockwise(r.positions, h)[f]
  {
    var p := Clockwise(r.positions, h)[f];
    ClockwiseElements(r.positions, h);
    assert p in Clockwise(r.positions, h) && p in r.positions && p in r.nodeMap;
    var ps := Vnodes(hash, a);
    i :| 0 <= i < |ps| && ps[i] == p;
  }

  lemma ClockwiseIsLater(hash: Hash, r: RingState, h: int, f: nat, k: nat)
    requires Canonical(hash, r) && OnCircle(r.positions) && 0 <= h < 0x1_0000_0000 && f < k < |r.positions|
    ensures Ahead(h, Clockwise(r.positions, h)[f]) < Ahead(h, Clockwise(r.positions, h)[k])
  {
    ClockwiseByDistance(r.positions, h, f, k);
  }

  lemma FirstMetDecides(hash: Hash, r: RingState, h: int, a: string, f: nat, i: nat, b: string, g: nat)
    requires Canonical(hash, r) && 0 <= h < 0x1_0000_0000 && f < g < |r.positions| && i < 150
    requires var qs := Clockwise(r.positions, h);
      && FirstAt(OwnersOf(r.nodeMap, qs), a, f) && FirstAt(OwnersOf(r.nodeMap, qs), b, g)
      && Vnode(hash, a, i) == qs[f]
      && forall j: nat :: j < 150 ==> Ahead(h, qs[g]) <= Ahead(h, Vnode(hash, b, j))
    ensures a in PreferenceList(r, h) && b in PreferenceList(r, h)
    ensures Rank(PreferenceList(r, h), a) < Rank(PreferenceList(r, h), b) && Nearer(hash, h, a, b)
  {
    CanonicalIsOnCircle(hash, r);
    ClockwiseIsLater(hash, r, h, f, g);
    DedupOrder(OwnersOf(r.nodeMap, Clockwise(r.positions, h)), a, b, f, g);
    hide Canonical, Ahead, Clockwise, FirstAt, Rank, Dedup;
  }

  lemma NotBothNearer(hash: Hash, h: int, a: string, b: string)
    requires Nearer(hash, h, a, b)
    ensures !Nearer(hash, h, b, a)
  {
    hide Ahead, Vnode;
    var i: nat :| i < 150 && forall j: nat :: j < 150 ==> Ahead(h, Vnode(hash, a, i)) < Ahead(h, Vnode(hash, b, j));
    forall k: nat | k < 150
      ensures exists j: nat :: j < 150 && !(Ahead(h, Vnode(hash, b, k)) < Ahead(h, Vnode(hash, a, j)))
    {
      assert !(Ahead(h, Vnode(hash, b, k)) < Ahead(h, Vnode(hash, a, i)));
    }
  }

  /** The preference list is the order of nearness: a member precedes another iff one of its 150 positions is
      nearer ahead of the key, going up and around, than all of the other's. */
  lemma PreferredIffNearer(hash: Hash, r: RingState, h: int, a: string, b: string)
    requires Canonical(hash, r) && a in r.nodes && b in r.nodes && a != b && 0 <= h < 0x1_0000_0000
    ensures a in PreferenceList(r, h) && b in PreferenceList(r, h)
    ensures Rank(PreferenceList(r, h), a) < Rank(PreferenceList(r, h), b) <==> Nearer(hash, h, a, b)
  {
    hide Canonical, Nearer, Clockwise, PreferenceList, Ahead;
    var f, i := FirstMet(hash, r, h, a);
    var g, j := FirstMet(hash, r, h, b);
    if f < g {
      FirstMetDecides(hash, r, h, a, f, i, b, g);
    } else {
      FirstMetDecides(hash, r, h, b, g, j, a, f);
      NotBothNearer(hash, h, b, a);
    }
  }

  /** And the owner of a key is the member nearest ahead of it. */
  lemma OwnerIsNearest(hash: Hash, r: RingState, h: int, b: string)
    requires Canonical(hash, r) && b in r.nodes && 0 <= h < 0x1_0000_0000
    ensures Owner(r, h) in r.nodes && (b != Owner(r, h) ==> Nearer(hash, h, Owner(r, h), b))
  {
    PreferenceListHoldsMembers(hash, r, h);
    var o, pref := Owner(r, h), PreferenceList(r, h);
    assert pref[0] in pref;
    hide Canonical, Nearer, PreferenceList, Owner;
    if b != o {
      PreferredIffNearer(hash, r, h, o, b);
      RankAtMost(pref, o, 0);
      assert pref[Rank(pref, b)] == b;
    }
  }
}
