/** The consistent-hash ring as the program keeps it: a growable buffer of sorted
    positions, compacted in place on removal, and a position-to-node map. */
module Ring {
  import opened Sequences
  import opened RingSpec
  import opened Preference
  import Text

  class HashRing {
    const hash: Hash
    var buf: array<int>
    var len: nat
    var nodeMap: map<int, string>
    var nodes: set<string>

    ghost predicate Valid()
      reads this, buf
    {
      len <= buf.Length && Sorted(buf[..len])
    }

    ghost function State(): RingState
      reads this, buf
      requires len <= buf.Length
    {
      RingState(buf[..len], nodeMap, nodes)
    }

    constructor (hash: Hash)
      ensures Valid() && fresh(buf) && this.hash == hash
      ensures State() == EMPTY
    {
      this.hash := hash;
      buf := new int[0];
      len := 0;
      nodeMap := map[];
      nodes := {};
    }

    // append: grows the buffer when it is full.
    method Append(pos: int)
      requires len <= buf.Length
      modifies this`buf, this`len, buf
      ensures buf == old(buf) || fresh(buf)
      ensures len == old(len) + 1 <= buf.Length
      ensures buf[..len] == old(buf[..len]) + [pos]
    {
      if len == buf.Length {
        var bigger := new int[2 * len + 1];
        forall i | 0 <= i < len {
          bigger[i] := buf[i];
        }
        buf := bigger;
      }
      buf[len] := pos;
      len := len + 1;
    }

    // sort.Slice on the positions.
    method SortPositions()
      requires len <= buf.Length
      modifies buf
      ensures buf[..len] == Sort(old(buf[..len]))
    {
      var sorted := Sort(buf[..len]);
      SortElements(buf[..len]);
      forall i | 0 <= i < len {
        buf[i] := sorted[i];
      }
    }

    // The insertion loop: one position per virtual node, appended and claimed.
    method AppendVnodes(id: string)
      requires len <= buf.Length
      modifies this`buf, this`len, this`nodeMap, buf
      ensures len <= buf.Length && (buf == old(buf) || fresh(buf))
      ensures buf[..len] == old(buf[..len]) + Vnodes(hash, id)
      ensures nodeMap == Claim(old(nodeMap), Vnodes(hash, id), id)
    {
      ghost var ps, m := buf[..len], nodeMap;
      ghost var vs := VnodesUpTo(hash, id, 0);
      for i := 0 to VIRTUAL_NODES
        invariant vs == VnodesUpTo(hash, id, i)
        invariant len <= buf.Length && (buf == old(buf) || fresh(buf))
        invariant buf[..len] == ps + vs
        invariant nodeMap == Claim(m, vs, id)
      {
        var pos := hash(Text.Label(id, i));
        VnodesStep(hash, id, i);
        ClaimStep(m, vs, pos, id);
        Append(pos);
        nodeMap := nodeMap[pos := id];
        vs := vs + [pos];
      }
    }

    method AddNode(id: string)
      requires Valid()
      modifies this`buf, this`len, this`nodeMap, this`nodes, buf
      ensures Valid() && (buf == old(buf) || fresh(buf))
      ensures State() == Add(hash, old(State()), id)
    {
      if id in nodes {
        return;
      }
      nodes := nodes + {id};
      AppendVnodes(id);
      SortSorts(buf[..len]);
      SortPositions();
    }

    method RemoveNode(id: string)
      requires Valid()
      modifies this`len, this`nodeMap, this`nodes, buf
      ensures Valid()
      ensures State() == Remove(old(State()), id)
    {
      if id !in nodes {
        return;
      }
      nodes := nodes - {id};
      CompactStaysSorted(buf[..len], nodeMap, id);
      hide Compact;
      var kept := CompactBuffer(id);
      len := kept;
    }

    // Moves the other nodes' positions to the front of the buffer, and drops the node's own from the map.
    method CompactBuffer(id: string) returns (kept: nat)
      requires len <= buf.Length
      modifies this`nodeMap, buf
      ensures kept <= len
      ensures buf[..kept] == Compact(old(buf[..len]), old(nodeMap), id).0
      ensures nodeMap == Compact(old(buf[..len]), old(nodeMap), id).1
    {
      ghost var ps, m := buf[..len], nodeMap;
      kept := 0;
      assert ps[..0] == [] && Compact(ps[..0], m, id) == ([], m);
      hide Compact, Lookup;
      for i := 0 to len
        invariant kept <= i
        invariant forall j :: i <= j < len ==> buf[j] == ps[j]
        invariant buf[..kept] == Compact(ps[..i], m, id).0
        invariant nodeMap == Compact(ps[..i], m, id).1
      {
        var pos := buf[i];
        CompactStep(ps, i, m, id);
        if Lookup(nodeMap, pos) == id {
          nodeMap := nodeMap - {pos};
        } else {
          ghost var done := buf[..kept];
          buf[kept] := pos;
          kept := kept + 1;
          assert buf[..kept] == done + [pos];
        }
      }
      assert ps[..len] == ps;
    }

    // sort.Search: the first index whose position is at least h.
    method Search(h: int) returns (k: nat)
      requires Valid()
      ensures k == FirstAtLeast(buf[..len], h)
    {
      var lo, hi := 0, len;
      while lo < hi
        invariant lo <= hi <= len
        invariant forall i :: 0 <= i < lo ==> buf[i] < h
        invariant forall i :: hi <= i < len ==> buf[i] >= h
      {
        var mid := (lo + hi) / 2;
        if buf[mid] >= h {
          hi := mid;
        } else {
          lo := mid + 1;
        }
      }
      ghost var below, rest := buf[..lo], buf[lo..len];
      assert buf[..len] == below + rest;
      assert forall i :: 0 <= i < |below| ==> below[i] == buf[i];
      assert rest != [] ==> rest[0] == buf[lo];
      FirstAtLeastOfSplit(below, rest, h);
      k := lo;
    }

    method GetNode(key: string) returns (id: string)
      requires Valid()
      ensures id == Owner(State(), hash(key))
    {
      if len == 0 {
        return "";
      }
      var k := Search(hash(key));
      if k == len {
        k := 0;
      }
      id := Lookup(nodeMap, buf[k]);
    }

    method GetNodes(key: string, n: int) returns (result: seq<string>)
      requires Valid()
      ensures result == Take(PreferenceList(State(), hash(key)), n)
    {
      result := [];
      if len == 0 {
        return;
      }
      var k := Search(hash(key));
      if k == len {
        k := 0;
      }
      ghost var ids := OwnersOf(nodeMap, Clockwise(buf[..len], hash(key)));
      forall i | 0 <= i < len ensures ids[i] == OwnerAt(k, i) {
        ClockwiseAt(buf[..len], hash(key), i);
      }
      result := DistinctOwners(k, n, ids);
    }

    // The node met i positions clockwise of index k.
    function OwnerAt(k: nat, i: nat): string
      reads this, buf
      requires len <= buf.Length && len > 0
    {
      Lookup(nodeMap, buf[(k + i) % len])
    }

    method DistinctOwners(k: nat, n: int, ghost ids: seq<string>) returns (result: seq<string>)
      requires Valid() && len > 0
      requires |ids| == len && forall i :: 0 <= i < len ==> ids[i] == OwnerAt(k, i)
      ensures result == Take(Dedup(ids), n)
    {
      result := [];
      var seen: set<string> := {};
      var i := 0;
      assert Dedup(ids[..0]) == [];
      hide Dedup, Take, Lookup, Sorted;
      while i < len && |result| < n
        invariant i <= len
        invariant result == Dedup(ids[..i])
        invariant seen == set id | id in result
        invariant |result| <= n || result == []
      {
        DedupStep(ids, i);
        var id := OwnerAt(k, i);
        if id !in seen {
          seen := seen + {id};
          result := result + [id];
        }
        i := i + 1;
      }
      DedupPrefix(ids, i);
      assert ids[..len] == ids;
    }
  }

  lemma ClockwiseAt(ps: seq<int>, h: int, i: nat)
    requires i < |ps|
    ensures var k := if FirstAtLeast(ps, h) == |ps| then 0 else FirstAtLeast(ps, h);
      Clockwise(ps, h)[i] == ps[(k + i) % |ps|]
  {
    var k := FirstAtLeast(ps, h);
    if k == |ps| {
      Wraps(0, i, |ps|);
    } else {
      Wraps(k, i, |ps|);
    }
  }

  lemma Wraps(k: nat, i: nat, n: nat)
    requires k < n && i < n
    ensures (k + i) % n == if k + i < n then k + i else k + i - n
  {
    if k + i >= n {
      assert (k + i) % n == (k + i - n) % n;
    }
  }

  lemma VnodesStep(hash: Hash, id: string, n: nat)
    ensures VnodesUpTo(hash, id, n + 1) == VnodesUpTo(hash, id, n) + [Vnode(hash, id, n)]
  {}

  lemma ClaimStep(m: map<int, string>, ps: seq<int>, pos: int, id: string)
    ensures Claim(m, ps + [pos], id) == Claim(m, ps, id)[pos := id]
  {}

  lemma CompactStep(ps: seq<int>, i: nat, m: map<int, string>, id: string)
    requires i < |ps|
    ensures var (kept, m') := Compact(ps[..i], m, id);
      Compact(ps[..i + 1], m, id) == if Lookup(m', ps[i]) == id then (kept, m' - {ps[i]}) else (kept + [ps[i]], m')
  {
    assert ps[..i + 1][..i] == ps[..i];
  }

  lemma DedupStep(ids: seq<string>, i: nat)
    requires i < |ids|
    ensures var d := Dedup(ids[..i]);
      Dedup(ids[..i + 1]) == if ids[i] in d then d else d + [ids[i]]
  {
    assert ids[..i + 1][..i] == ids[..i];
  }

  lemma {:induction false} CompactStaysSorted(ps: seq<int>, m: map<int, string>, id: string)
    requires Sorted(ps)
    ensures Sorted(Compact(ps, m, id).0)
    ensures forall p :: p in Compact(ps, m, id).0 ==> p in ps
  {
    if ps != [] {
      var init, last := ps[..|ps| - 1], ps[|ps| - 1];
      CompactStaysSorted(init, m, id);
      assert ps == init + [last];
      var kept := Compact(init, m, id).0;
      forall i | 0 <= i < |kept| ensures kept[i] <= last {
        assert kept[i] in kept;
      }
    }
  }
}
