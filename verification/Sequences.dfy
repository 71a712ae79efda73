/** Filtering, deduplicating and sorting sequences. */
module Sequences {

  // The elements of s that lie in keep, in order.
  function Keep<T(==)>(s: seq<T>, keep: set<T>): seq<T> {
    if s == [] then []
    else Keep(s[..|s| - 1], keep) + (if s[|s| - 1] in keep then [s[|s| - 1]] else [])
  }

  // s without repetitions; the first occurrence of each element stays.
  function Dedup<T(==)>(s: seq<T>): seq<T> {
    if s == [] then []
    else
      var d := Dedup(s[..|s| - 1]);
      if s[|s| - 1] in d then d else d + [s[|s| - 1]]
  }

  function Take<T>(s: seq<T>, n: int): seq<T> {
    if n <= 0 then [] else if n < |s| then s[..n] else s
  }

  ghost predicate Distinct<T(!new)>(s: seq<T>) {
    forall i, j :: 0 <= i < j < |s| ==> s[i] != s[j]
  }

  // idx lists the chosen indices in increasing order, each once.
  ghost predicate Enumerates(idx: seq<int>, chosen: set<int>) {
    && (forall a, b :: 0 <= a < b < |idx| ==> idx[a] < idx[b])
    && (forall i :: i in idx <==> i in chosen)
  }

  lemma EnumeratesOneMore(idx: seq<int>, chosen: set<int>, i: int)
    requires Enumerates(idx, chosen) && forall j :: j in chosen ==> j < i
    ensures Enumerates(idx + [i], chosen + {i})
  {
    forall a | 0 <= a < |idx| ensures idx[a] < i {
      assert idx[a] in idx;
    }
  }

  lemma NonEmptyHasElement<T(!new)>(s: seq<T>)
    ensures s != [] ==> exists x :: x in s
  {
    if s != [] {
      assert s[0] in s;
    }
  }

  lemma DistinctConcat<T(!new)>(s: seq<T>, t: seq<T>)
    requires Distinct(s) && Distinct(t)
    requires forall x :: x in s ==> x !in t
    ensures Distinct(s + t)
  {
    forall i, j | 0 <= i < |s| && 0 <= j < |t| ensures s[i] != t[j] {
      assert s[i] in s && t[j] in t;
    }
  }

  lemma {:induction false} KeepElements<T>(s: seq<T>, keep: set<T>)
    ensures forall x :: x in Keep(s, keep) <==> x in s && x in keep
  {
    if s != [] {
      KeepElements(s[..|s| - 1], keep);
      assert s == s[..|s| - 1] + [s[|s| - 1]];
    }
  }

  lemma {:induction false} KeepConcat<T>(s: seq<T>, t: seq<T>, keep: set<T>)
    ensures Keep(s + t, keep) == Keep(s, keep) + Keep(t, keep)
  {
    if t == [] {
      assert s + t == s;
    } else {
      assert (s + t)[..|s + t| - 1] == s + t[..|t| - 1];
      KeepConcat(s, t[..|t| - 1], keep);
    }
  }

  lemma {:induction false} KeepAll<T>(s: seq<T>, keep: set<T>)
    requires forall x :: x in s ==> x in keep
    ensures Keep(s, keep) == s
  {
    if s != [] {
      KeepAll(s[..|s| - 1], keep);
    }
  }

  lemma {:induction false} DedupElements<T(!new)>(s: seq<T>)
    ensures forall x :: x in Dedup(s) <==> x in s
    ensures Distinct(Dedup(s))
  {
    if s != [] {
      DedupElements(s[..|s| - 1]);
      assert s == s[..|s| - 1] + [s[|s| - 1]];
    }
  }

  lemma {:induction false} DedupPrefix<T>(s: seq<T>, k: nat)
    requires k <= |s|
    ensures Dedup(s[..k]) <= Dedup(s)
  {
    if k == |s| {
      assert s[..k] == s;
    } else {
      assert s[..|s| - 1][..k] == s[..k];
      DedupPrefix(s[..|s| - 1], k);
    }
  }

  /** Deleting elements before or after deduplication is the same. */
  lemma {:induction false} DedupKeepCommute<T(!new)>(s: seq<T>, keep: set<T>)
    ensures Dedup(Keep(s, keep)) == Keep(Dedup(s), keep)
  {
    if s != [] {
      var init, last := s[..|s| - 1], s[|s| - 1];
      DedupKeepCommute(init, keep);
      DedupElements(init);
      KeepElements(Dedup(init), keep);
      KeepConcat(Dedup(init), [last], keep);
      assert Keep([last], keep) == if last in keep then [last] else [] by {
        assert [last][..0] == [];
      }
      if last in keep {
        assert (Keep(init, keep) + [last])[..|Keep(init, keep)|] == Keep(init, keep);
      } else {
        assert Keep(s, keep) == Keep(init, keep);
      }
    }
  }

  ghost predicate Sorted(s: seq<int>) {
    forall i, j :: 0 <= i < j < |s| ==> s[i] <= s[j]
  }

  ghost predicate StrictlySorted(s: seq<int>) {
    forall i, j :: 0 <= i < j < |s| ==> s[i] < s[j]
  }

  function Insert(x: int, s: seq<int>): seq<int> {
    if s == [] || x <= s[0] then [x] + s else [s[0]] + Insert(x, s[1..])
  }

  // The sorted rearrangement of s.
  function Sort(s: seq<int>): seq<int> {
    if s == [] then [] else Insert(s[0], Sort(s[1..]))
  }

  lemma {:induction false} InsertHolds(x: int, s: seq<int>)
    ensures multiset(Insert(x, s)) == multiset(s) + multiset{x}
  {
    if s != [] && s[0] < x {
      InsertHolds(x, s[1..]);
      assert s == [s[0]] + s[1..];
    }
  }

  lemma {:induction false} InsertSorts(x: int, s: seq<int>)
    requires Sorted(s)
    ensures Sorted(Insert(x, s))
  {
    if s != [] && s[0] < x {
      var t := Insert(x, s[1..]);
      InsertSorts(x, s[1..]);
      InsertHolds(x, s[1..]);
      assert forall j :: 0 <= j < |s[1..]| ==> s[0] <= s[1..][j];
      assert forall i :: 0 <= i < |t| ==> s[0] <= t[i] by {
        hide Insert, Sorted;
        forall i | 0 <= i < |t| ensures s[0] <= t[i] {
          assert t[i] in multiset(t);
          assert t[i] == x || t[i] in s[1..];
        }
      }
    }
  }

  lemma {:induction false} SortSorts(s: seq<int>)
    ensures Sorted(Sort(s)) && multiset(Sort(s)) == multiset(s)
  {
    if s != [] {
      SortSorts(s[1..]);
      InsertSorts(s[0], Sort(s[1..]));
      InsertHolds(s[0], Sort(s[1..]));
      assert s == [s[0]] + s[1..];
    }
  }

  lemma HeadIsLeast(s: seq<int>, t: seq<int>)
    requires Sorted(s) && multiset(s) == multiset(t) && t != []
    ensures s != [] && s[0] <= t[0]
  {
    assert t[0] in multiset(t);
    assert t[0] in multiset(s);
    assert t[0] in s;
  }

  lemma TailsHoldTheSame(s: seq<int>, t: seq<int>)
    requires s != [] && t != [] && s[0] == t[0] && multiset(s) == multiset(t)
    ensures multiset(s[1..]) == multiset(t[1..])
  {
    assert s == [s[0]] + s[1..] && t == [t[0]] + t[1..];
    assert multiset(s[1..]) == multiset(s) - multiset{s[0]};
  }

  /** A sorted sequence is determined by what it holds. */
  lemma {:induction false} SortedUnique(s: seq<int>, t: seq<int>)
    requires Sorted(s) && Sorted(t) && multiset(s) == multiset(t)
    ensures s == t
  {
    if s == [] {
      assert |multiset(t)| == 0;
    } else {
      HeadIsLeast(t, s);
      HeadIsLeast(s, t);
      TailsHoldTheSame(s, t);
      SortedUnique(s[1..], t[1..]);
      assert s == [s[0]] + s[1..] && t == [t[0]] + t[1..];
    }
  }

  lemma {:induction false} StrictlySortedUnique(s: seq<int>, t: seq<int>)
    requires StrictlySorted(s) && StrictlySorted(t)
    requires forall x :: x in s <==> x in t
    ensures s == t
  {
    DistinctMultiset(s);
    DistinctMultiset(t);
    forall x ensures multiset(s)[x] == multiset(t)[x] {}
    assert multiset(s) == multiset(t);
    SortedUnique(s, t);
  }

  lemma {:induction false} DistinctMultiset<T(!new)>(s: seq<T>)
    requires Distinct(s)
    ensures forall x :: multiset(s)[x] == if x in s then 1 else 0
  {
    if s != [] {
      var init, last := s[..|s| - 1], s[|s| - 1];
      DistinctMultiset(init);
      assert s == init + [last];
      assert last !in init;
    }
  }

  lemma OccursTwice<T>(s: seq<T>, i: nat, j: nat)
    requires i < j < |s| && s[i] == s[j]
    ensures multiset(s)[s[i]] >= 2
  {
    assert s == s[..j] + [s[j]] + s[j + 1..];
    assert s[..j][i] == s[i];
    assert s[i] in multiset(s[..j]);
  }

  lemma MultisetDistinct<T(!new)>(s: seq<T>)
    requires forall x :: multiset(s)[x] <= 1
    ensures Distinct(s)
  {
    forall i, j | 0 <= i < j < |s| ensures s[i] != s[j] {
      if s[i] == s[j] {
        OccursTwice(s, i, j);
      }
    }
  }

  lemma SortElements(s: seq<int>)
    ensures forall x :: x in Sort(s) <==> x in s
    ensures |Sort(s)| == |s|
  {
    SortSorts(s);
    forall x ensures x in Sort(s) <==> x in s {
      assert x in multiset(Sort(s)) <==> x in multiset(s);
    }
    assert |Sort(s)| == |multiset(Sort(s))| == |multiset(s)| == |s|;
  }

  lemma SortOfDistinct(s: seq<int>)
    requires Distinct(s)
    ensures StrictlySorted(Sort(s))
  {
    SortSorts(s);
    DistinctMultiset(s);
    MultisetDistinct(Sort(s));
  }

  lemma SortOfMultiset(s: seq<int>, t: seq<int>)
    requires multiset(s) == multiset(t)
    ensures Sort(s) == Sort(t)
  {
    SortSorts(s);
    SortSorts(t);
    SortedUnique(Sort(s), Sort(t));
  }

  lemma {:induction false} KeepSorted(s: seq<int>, keep: set<int>)
    requires StrictlySorted(s)
    ensures StrictlySorted(Keep(s, keep))
  {
    if s != [] {
      KeepSorted(s[..|s| - 1], keep);
      KeepElements(s[..|s| - 1], keep);
      var k := Keep(s[..|s| - 1], keep);
      forall i | 0 <= i < |k| ensures k[i] < s[|s| - 1] {
        assert k[i] in k;
      }
    }
  }
}
