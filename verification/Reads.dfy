/** Forwarding and reads: a request never loops, and a read that reaches every node finds a copy
    whenever there is one. */
module Reads {
  import opened Text
  import opened Sequences
  import opened StoreSpec
  import opened NodeSpec
  import opened Preference
  import opened Cluster
  import RingSpec
  import M = Membership

  // A request's way through the cluster: at hop i the node acts on the view it has at that moment,
  // views[i], and forwards because somebody else owns the key there.
  ghost predicate IsForwardPath(pref: Prefs, ids: set<string>, key: string, path: seq<string>, views: seq<set<string>>)
    {
    && path != [] && |views| == |path|
    && path[0] in ids
    && (forall i :: 0 <= i < |path| ==> path[i] in views[i] && views[i] <= ids)
    && (forall i :: 0 <= i < |path| - 1 ==> path[i + 1] == OwnerIn(pref(key), views[i]) && path[i + 1] != path[i])
  }

  lemma HopGoesEarlier(pref: Prefs, ids: set<string>, key: string, n: string, view: set<string>)
    requires GoodPrefs(pref, ids) && n in view && view <= ids
    ensures n in pref(key)
    ensures var owner := OwnerIn(pref(key), view);
      owner in view && owner in pref(key) && (owner != n ==> Rank(pref(key), owner) < Rank(pref(key), n))
  {
    var p := pref(key);
    assert n in p;
    OwnerRanksFirst(p, view, n);
    assert p[Rank(p, n)] == n && p[Rank(p, OwnerIn(p, view))] == OwnerIn(p, view);
  }

  lemma {:induction false} PathDescends(pref: Prefs, ids: set<string>, key: string, path: seq<string>,
                                        views: seq<set<string>>, i: nat, j: nat)
    requires GoodPrefs(pref, ids) && IsForwardPath(pref, ids, key, path, views)
    requires i <= j < |path|
    ensures path[i] in pref(key) && path[j] in pref(key)
    ensures i < j ==> Rank(pref(key), path[j]) < Rank(pref(key), path[i])
    decreases j - i
  {
    assert path[i] in views[i] && path[j] in views[j];
    HopGoesEarlier(pref, ids, key, path[i], views[i]);
    HopGoesEarlier(pref, ids, key, path[j], views[j]);
    if i < j {
      assert path[i + 1] == OwnerIn(pref(key), views[i]);
      PathDescends(pref, ids, key, path, views, i + 1, j);
    }
  }

  /** Forwarding never loops: even with stale, disagreeing views that change under way, each hop goes
      to a node strictly earlier in the key's clockwise order, no node is visited twice, and there are
      fewer hops than nodes. */
  lemma ForwardingNeverLoops(pref: Prefs, ids: set<string>, key: string, path: seq<string>, views: seq<set<string>>)
    requires GoodPrefs(pref, ids) && IsForwardPath(pref, ids, key, path, views)
    ensures Distinct(path)
    ensures |path| <= |ids|
    ensures forall i :: 0 <= i < |path| ==> path[i] in pref(key)
    ensures forall i :: 0 <= i < |path| - 1 ==> Rank(pref(key), path[i + 1]) < Rank(pref(key), path[i])
  {
    forall i, j | 0 <= i < j < |path| ensures path[i] != path[j] {
      PathDescends(pref, ids, key, path, views, i, j);
    }
    forall i | 0 <= i < |path| - 1 ensures Rank(pref(key), path[i + 1]) < Rank(pref(key), path[i]) {
      PathDescends(pref, ids, key, path, views, i, i + 1);
    }
    forall i | 0 <= i < |path| ensures path[i] in pref(key) && path[i] in ids {
      PathDescends(pref, ids, key, path, views, i, i);
    }
    assert forall x :: x in path ==> x in ids;
    DistinctFits(path, ids);
  }

  lemma {:induction false} DistinctFits<T(!new)>(s: seq<T>, all: set<T>)
    requires Distinct(s) && forall x :: x in s ==> x in all
    ensures |s| <= |all|
  {
    if s != [] {
      var init, last := s[..|s| - 1], s[|s| - 1];
      assert last in s && last !in init;
      assert forall x :: x in init ==> x in s;
      DistinctFits(init, all - {last});
    }
  }

  /** The rings nodes really keep make such preferences: with canonical rings over a common universe,
      the owner each node computes is the first node of its view in the full clockwise order. */
  lemma RingsGiveGoodPrefs(hash: RingSpec.Hash, u: RingSpec.RingState)
    requires RingSpec.Canonical(hash, u)
    ensures GoodPrefs(key => PreferenceList(u, hash(key)), u.nodes)
    ensures forall s, key :: RingSpec.Canonical(hash, s) && s.nodes <= u.nodes ==>
              Owner(s, hash(key)) == OwnerIn(PreferenceList(u, hash(key)), s.nodes)
              && PreferenceList(s, hash(key)) == Keep(PreferenceList(u, hash(key)), s.nodes)
  {
    RingMakesGoodPrefs(hash, u);
    hide RingSpec.Canonical, PreferenceList, Owner, OwnerIn, GoodPrefs, Keep;
    forall s, key | RingSpec.Canonical(hash, s) && s.nodes <= u.nodes
      ensures Owner(s, hash(key)) == OwnerIn(PreferenceList(u, hash(key)), s.nodes)
           && PreferenceList(s, hash(key)) == Keep(PreferenceList(u, hash(key)), s.nodes)
    {
      OwnerInView(hash, u, s, hash(key));
      SmallerRingPrefersTheSame(hash, u, s, hash(key));
    }
  }

  lemma RingMakesGoodPrefs(hash: RingSpec.Hash, u: RingSpec.RingState)
    requires RingSpec.Canonical(hash, u)
    ensures GoodPrefs(key => PreferenceList(u, hash(key)), u.nodes)
  {
    hide RingSpec.Canonical, PreferenceList, Owner, Distinct;
    forall key: string {
      PreferenceListHoldsMembers(hash, u, hash(key));
    }
  }

  // The answers a node's polls get: None from nodes that are down.
  function PollAnswers(c: State, order: seq<string>, key: string, now: int): (polls: seq<Option<string>>)
    ensures |polls| == |order|
    ensures forall i :: 0 <= i < |order| ==> polls[i] == PollAnswer(c, order[i], key, now)
  {
    seq(|order|, i requires 0 <= i < |order| => PollAnswer(c, order[i], key, now))
  }

  function PollAnswer(c: State, id: string, key: string, now: int): Option<string> {
    if id in c.nodes && c.nodes[id].up then Some(LocalAnswer(c.nodes[id].table, key, now)) else None
  }

  // What becomes of the line each node forwards; one request is forwarded at most once by any node.
  type Fates = string -> Delivery

  // The response to GET key at node n; order(m) is the order in which m polls its peers. A forwarded
  // GET whose reply does not come back is answered by polling, like one that never arrived.
  function Read(pref: Prefs, ghost ids: set<string>, c: State, n: string, key: string, now: int,
                order: string -> seq<string>, fate: Fates): string
    requires GoodPrefs(pref, ids) && ViewsOk(c, ids) && n in ids
    decreases (OwnerIsEarlier(pref, ids, c, n, key); Rank(pref(key), n))
  {
    OwnerIsEarlier(pref, ids, c, n, key);
    var owner := OwnerAt(pref, c, n, key);
    var polls := PollAnswers(c, order(n), key, now);
    if owner == n then GetAnswer(true, c.nodes[n].table, key, now, None, polls)
    else
      OwnerIsEarlier(pref, ids, c, owner, key);
      var forwarded :=
        if c.nodes[owner].up && fate(n) == Acknowledged then Some(Read(pref, ids, c, owner, key, now, order, fate))
        else None;
      GetAnswer(false, c.nodes[n].table, key, now, forwarded, polls)
  }

  // A node whose forwarded GET gets no reply answers from its own table and its peers'.
  lemma LostReplyIsPolled(pref: Prefs, ids: set<string>, c: State, n: string, key: string, now: int,
                          order: string -> seq<string>, fate: Fates)
    requires GoodPrefs(pref, ids) && ViewsOk(c, ids) && n in ids && OwnerAt(pref, c, n, key) in c.nodes
    requires var owner := OwnerAt(pref, c, n, key); owner != n && (!c.nodes[owner].up || fate(n) != Acknowledged)
    ensures Read(pref, ids, c, n, key, now, order, fate)
         == OrMiss(FromAnyPeer(c.nodes[n].table, key, now, PollAnswers(c, order(n), key, now)))
  {}

  lemma OwnerAnswers(pref: Prefs, ids: set<string>, c: State, n: string, key: string, now: int,
                     order: string -> seq<string>, fate: Fates)
    requires GoodPrefs(pref, ids) && ViewsOk(c, ids) && n in ids && OwnerAt(pref, c, n, key) == n
    ensures Read(pref, ids, c, n, key, now, order, fate)
         == OrMiss(FromAnyPeer(c.nodes[n].table, key, now, PollAnswers(c, order(n), key, now)))
  {
    hide GoodPrefs, OwnerAt;
  }

  lemma ReplyIsRelayed(pref: Prefs, ids: set<string>, c: State, n: string, key: string, now: int,
                       order: string -> seq<string>, fate: Fates)
    requires GoodPrefs(pref, ids) && ViewsOk(c, ids) && n in ids && OwnerAt(pref, c, n, key) in ids
    requires var owner := OwnerAt(pref, c, n, key); owner != n && c.nodes[owner].up && fate(n) == Acknowledged
    ensures Read(pref, ids, c, n, key, now, order, fate)
         == Read(pref, ids, c, OwnerAt(pref, c, n, key), key, now, order, fate)
  {
    hide GoodPrefs, OwnerAt, FromAnyPeer;
  }

  // Each node polls exactly the other nodes of its view.
  ghost predicate PollsPeers(c: State, order: string -> seq<string>) {
    forall n :: n in c.nodes ==> forall id :: id in order(n) <==> id in c.nodes[n].view && id != n
  }

  lemma {:induction false} FirstHitIff(polls: seq<Option<string>>)
    ensures FirstHit(polls).Some? ==> FirstHit(polls) in polls && FirstHit(polls).value != "MISS"
    ensures FirstHit(polls).None? <==> forall i :: 0 <= i < |polls| ==> polls[i].None? || polls[i].value == "MISS"
  {
    if polls != [] {
      FirstHitIff(polls[1..]);
      assert polls == [polls[0]] + polls[1..];
      assert FirstHit(polls).None? && polls[0].Some? ==> polls[0].value == "MISS";
      assert forall i :: 1 <= i < |polls| ==> polls[i] == polls[1..][i - 1];
    }
  }

  ghost predicate AllReachable(c: State, ids: set<string>) {
    c.nodes.Keys == ids && forall n :: n in ids ==> c.nodes[n].up && c.nodes[n].view == ids
  }

  lemma OwnerInFullView(pref: Prefs, ids: set<string>, key: string)
    requires GoodPrefs(pref, ids) && ids != {}
    ensures pref(key) != [] && pref(key)[0] in ids && OwnerIn(pref(key), ids) == pref(key)[0]
  {
    var p := pref(key);
    var id :| id in ids;
    assert id in p;
    assert p[0] in p;
    KeepAll(p, ids);
  }

  // No node would answer LOCALGET with anything but MISS.
  ghost predicate NobodyAnswers(c: State, key: string, now: int) {
    forall m :: m in c.nodes ==> LocalAnswer(c.nodes[m].table, key, now) == "MISS"
  }

  // What a node finds in its own table or, on a miss, at everybody else's.
  lemma NodeReads(c: State, ids: set<string>, n: string, key: string, now: int, order: string -> seq<string>)
    requires AllReachable(c, ids) && PollsPeers(c, order) && n in ids
    ensures var r := OrMiss(FromAnyPeer(c.nodes[n].table, key, now, PollAnswers(c, order(n), key, now)));
      && (r == "MISS" <==> Lookup(c.nodes[n].table, key, now) == Some("MISS") || NobodyAnswers(c, key, now))
      && (r != "MISS" ==> exists m :: m in ids && Lookup(c.nodes[m].table, key, now) == Some(r))
  {
    var polls := PollAnswers(c, order(n), key, now);
    FirstHitIff(polls);
    if Lookup(c.nodes[n].table, key, now).None? {
      assert LocalAnswer(c.nodes[n].table, key, now) == "MISS";
      forall m | m in ids && m != n ensures Some(LocalAnswer(c.nodes[m].table, key, now)) in polls {
        assert m in order(n);
        var i :| 0 <= i < |order(n)| && order(n)[i] == m;
        assert polls[i] == PollAnswer(c, m, key, now);
      }
      forall i | 0 <= i < |polls|
        ensures order(n)[i] in ids && polls[i] == Some(LocalAnswer(c.nodes[order(n)[i]].table, key, now))
      {
        assert order(n)[i] in order(n);
      }
    }
  }

  // The node whose search answers a GET at n: the owner, unless its reply is lost.
  function Answerer(pref: Prefs, n: string, key: string, fate: Fates): string
    requires pref(key) != []
  {
    if fate(n) == Acknowledged then pref(key)[0] else n
  }

  lemma AnswererReads(pref: Prefs, ids: set<string>, c: State, n: string, key: string, now: int,
                      order: string -> seq<string>, fate: Fates)
    requires GoodPrefs(pref, ids) && ViewsOk(c, ids) && AllReachable(c, ids) && n in ids
    ensures pref(key) != [] && Answerer(pref, n, key, fate) in ids
    ensures var a := Answerer(pref, n, key, fate);
      Read(pref, ids, c, n, key, now, order, fate)
        == OrMiss(FromAnyPeer(c.nodes[a].table, key, now, PollAnswers(c, order(a), key, now)))
  {
    OwnerInFullView(pref, ids, key);
    var o := pref(key)[0];
    assert OwnerAt(pref, c, n, key) == o && OwnerAt(pref, c, o, key) == o && c.nodes[o].up;
    hide Read, OwnerAt, GoodPrefs, AllReachable, FromAnyPeer;
    OwnerAnswers(pref, ids, c, o, key, now, order, fate);
    if n != o {
      if fate(n) == Acknowledged {
        ReplyIsRelayed(pref, ids, c, n, key, now, order, fate);
      } else {
        LostReplyIsPolled(pref, ids, c, n, key, now, order, fate);
      }
    }
  }

  /** Read completeness: with every node reachable and in every view, GET at any node answers MISS
      exactly when no node has a live copy or the answering node's copy is the literal text MISS (a
      copy reading MISS elsewhere is not found either); any other answer is a live copy of some node.
      This holds whatever forwarded requests or replies are lost. */
  lemma ReadIsComplete(pref: Prefs, ids: set<string>, c: State, n: string, key: string, now: int,
                       order: string -> seq<string>, fate: Fates)
    requires GoodPrefs(pref, ids) && ViewsOk(c, ids) && AllReachable(c, ids) && PollsPeers(c, order) && n in ids
    ensures pref(key) != [] && pref(key)[0] in ids
    ensures var r, a := Read(pref, ids, c, n, key, now, order, fate), Answerer(pref, n, key, fate);
      && (r == "MISS" <==> Lookup(c.nodes[a].table, key, now) == Some("MISS") || NobodyAnswers(c, key, now))
      && (r != "MISS" ==> exists m :: m in ids && Lookup(c.nodes[m].table, key, now) == Some(r))
  {
    OwnerInFullView(pref, ids, key);
    AnswererReads(pref, ids, c, n, key, now, order, fate);
    NodeReads(c, ids, Answerer(pref, n, key, fate), key, now, order);
    hide Read, GoodPrefs, NobodyAnswers, AllReachable, PollsPeers, FromAnyPeer;
  }

  lemma {:induction false} FirstHitIsFirst(polls: seq<Option<string>>, i: nat)
    requires i < |polls| && polls[i].Some? && polls[i].value != "MISS"
    requires forall j :: 0 <= j < i ==> polls[j].None? || polls[j].value == "MISS"
    ensures FirstHit(polls) == polls[i]
  {
    if i > 0 {
      assert polls[0].None? || polls[0].value == "MISS";
      FirstHitIsFirst(polls[1..], i - 1);
    }
  }

  /** Which copy is read: the answering node's own if it has a live one, else that of the first polled node
      whose live value is not the text MISS. */
  lemma FirstCopyIsRead(pref: Prefs, ids: set<string>, c: State, n: string, key: string, now: int,
                        order: string -> seq<string>, fate: Fates, i: nat)
    requires GoodPrefs(pref, ids) && ViewsOk(c, ids) && AllReachable(c, ids) && PollsPeers(c, order) && n in ids
    ensures pref(key) != [] && Answerer(pref, n, key, fate) in ids
    ensures var r, a := Read(pref, ids, c, n, key, now, order, fate), Answerer(pref, n, key, fate);
      && (Lookup(c.nodes[a].table, key, now).Some? ==> r == Lookup(c.nodes[a].table, key, now).value)
      && (Lookup(c.nodes[a].table, key, now).None? && i < |order(a)| && order(a)[i] in ids
          && Lookup(c.nodes[order(a)[i]].table, key, now).Some?
          && Lookup(c.nodes[order(a)[i]].table, key, now).value != "MISS"
          && (forall j :: 0 <= j < i && order(a)[j] in ids ==>
                Lookup(c.nodes[order(a)[j]].table, key, now) in {None, Some("MISS")})
          ==> r == Lookup(c.nodes[order(a)[i]].table, key, now).value)
  {
    AnswererReads(pref, ids, c, n, key, now, order, fate);
    hide Read, GoodPrefs;
    var a := Answerer(pref, n, key, fate);
    var polls := PollAnswers(c, order(a), key, now);
    if i < |order(a)| && polls[i].Some? && polls[i].value != "MISS"
      && forall j :: 0 <= j < i ==> polls[j].None? || polls[j].value == "MISS"
    {
      FirstHitIsFirst(polls, i);
    }
  }

  /** A node's own ring, router and replication loop compute what the cluster's steps say: with a canonical
      ring of the members of its view, the owner and the replica of a key are OwnerAt and ReplicaAt. */
  lemma RingsDriveTheCluster(hash: RingSpec.Hash, u: RingSpec.RingState, s: RingSpec.RingState, c: State, n: string,
                             key: string)
    requires RingSpec.Canonical(hash, u) && RingSpec.Canonical(hash, s) && s.nodes <= u.nodes
    requires n in c.nodes && c.nodes[n].view == s.nodes
    ensures var pref: Prefs := k => PreferenceList(u, hash(k));
      && Owner(s, hash(key)) == OwnerAt(pref, c, n, key)
      && ReplicaTarget(Take(PreferenceList(s, hash(key)), 2), n) == ReplicaAt(pref, c, n, key)
  {
    hide RingSpec.Canonical, PreferenceList, Owner, OwnerIn, Keep, Take, ReplicaTarget;
    OwnerInView(hash, u, s, hash(key));
    SmallerRingPrefersTheSame(hash, u, s, hash(key));
  }

  /** Corollary: when nobody stores the text MISS under the key, MISS means there is no live copy. */
  lemma MissMeansNoCopy(pref: Prefs, ids: set<string>, c: State, n: string, key: string, now: int,
                        order: string -> seq<string>, fate: Fates)
    requires GoodPrefs(pref, ids) && ViewsOk(c, ids) && AllReachable(c, ids) && PollsPeers(c, order) && n in ids
    requires forall m :: m in ids ==> Lookup(c.nodes[m].table, key, now) != Some("MISS")
    ensures Read(pref, ids, c, n, key, now, order, fate) == "MISS"
       <==> forall m :: m in ids ==> Lookup(c.nodes[m].table, key, now).None?
  {
    ReadIsComplete(pref, ids, c, n, key, now, order, fate);
    forall m | m in ids
      ensures LocalAnswer(c.nodes[m].table, key, now) == "MISS" <==> Lookup(c.nodes[m].table, key, now).None?
    {}
  }

  // Every node that is up polls the given one.
  ghost predicate Polled(c: State, h: string, order: string -> seq<string>) {
    forall n :: n in c.nodes && c.nodes[n].up && n != h ==> h in order(n)
  }

  lemma PollFindsTheCopy(c: State, n: string, holder: string, key: string, v: string, now: int,
                         order: string -> seq<string>)
    requires n in c.nodes && c.nodes[n].up && Polled(c, holder, order)
    requires holder in c.nodes && c.nodes[holder].up && Lookup(c.nodes[holder].table, key, now) == Some(v)
    requires forall m :: m in c.nodes && c.nodes[m].up ==> Lookup(c.nodes[m].table, key, now) in {None, Some(v)}
    ensures OrMiss(FromAnyPeer(c.nodes[n].table, key, now, PollAnswers(c, order(n), key, now))) == v
  {
    var polls := PollAnswers(c, order(n), key, now);
    FirstHitIff(polls);
    if Lookup(c.nodes[n].table, key, now).None? {
      var i :| 0 <= i < |order(n)| && order(n)[i] == holder;
      assert polls[i] == PollAnswer(c, holder, key, now) == Some(v);
      forall i | 0 <= i < |polls| ensures polls[i] in {None, Some("MISS"), Some(v)} {
        assert polls[i] == PollAnswer(c, order(n)[i], key, now);
      }
    }
  }

  /** Agreeing reads: when all live copies of a key have one value and every node that is up polls a
      holder of it, GET at any of them answers that value, however their views differ, whichever
      nodes are down and whatever forwarded requests or replies are lost. */
  lemma {:induction false} AgreedCopiesAreRead(pref: Prefs, ids: set<string>, c: State, n: string, holder: string,
                                               key: string, v: string, now: int, order: string -> seq<string>,
                                               fate: Fates)
    requires GoodPrefs(pref, ids) && ViewsOk(c, ids) && n in ids && c.nodes[n].up && Polled(c, holder, order)
    requires holder in c.nodes && c.nodes[holder].up && Lookup(c.nodes[holder].table, key, now) == Some(v)
    requires forall m :: m in ids && c.nodes[m].up ==> Lookup(c.nodes[m].table, key, now) in {None, Some(v)}
    ensures Read(pref, ids, c, n, key, now, order, fate) == v
    decreases (OwnerIsEarlier(pref, ids, c, n, key); Rank(pref(key), n))
  {
    OwnerIsEarlier(pref, ids, c, n, key);
    var owner := OwnerAt(pref, c, n, key);
    PollFindsTheCopy(c, n, holder, key, v, now, order);
    if owner != n && c.nodes[owner].up {
      OwnerIsEarlier(pref, ids, c, owner, key);
      AgreedCopiesAreRead(pref, ids, c, owner, holder, key, v, now, order, fate);
    }
  }

  /** A key of which no reachable node has a live copy is a miss at every node. */
  lemma {:induction false} AbsentIsMiss(pref: Prefs, ids: set<string>, c: State, n: string, key: string, now: int,
                                        order: string -> seq<string>, fate: Fates)
    requires GoodPrefs(pref, ids) && ViewsOk(c, ids) && n in ids && c.nodes[n].up
    requires forall m :: m in ids && c.nodes[m].up ==> Lookup(c.nodes[m].table, key, now).None?
    ensures Read(pref, ids, c, n, key, now, order, fate) == "MISS"
    decreases (OwnerIsEarlier(pref, ids, c, n, key); Rank(pref(key), n))
  {
    OwnerIsEarlier(pref, ids, c, n, key);
    var owner := OwnerAt(pref, c, n, key);
    var polls := PollAnswers(c, order(n), key, now);
    FirstHitIff(polls);
    assert forall i :: 0 <= i < |polls| ==> polls[i] == PollAnswer(c, order(n)[i], key, now);
    if owner != n && c.nodes[owner].up {
      OwnerIsEarlier(pref, ids, c, owner, key);
      AbsentIsMiss(pref, ids, c, owner, key, now, order, fate);
    }
  }

  /** The views the cluster's steps range over are those failure detectors really have: after any
      sequence of heartbeat outcomes a detector's ring members contain the node itself and only
      configured nodes, so taking them over is a legal change of view. */
  lemma DetectorViewsAreLegal(hash: RingSpec.Hash, v: M.View, myID: string, config: map<string, string>,
                              pings: seq<M.Ping>, pref: Prefs, c: State, now: int)
    requires M.Started(hash, v, myID, config)
    requires myID !in config && RingSpec.CollisionFree(hash, config.Keys + {myID})
    requires GoodPrefs(pref, config.Keys + {myID}) && ViewsOk(c, config.Keys + {myID}) && c.nodes[myID].up
    ensures var ids, view := config.Keys + {myID}, M.Run(hash, v, pings).router.ring.nodes;
      var c' := Next(pref, ids, c, Event(now, ViewChange(myID, view)));
      myID in view && view <= ids && c'.nodes[myID].view == view && ViewsOk(c', ids)
  {
    DetectorMembers(hash, v, myID, config, pings);
    var ids, view := config.Keys + {myID}, M.Run(hash, v, pings).router.ring.nodes;
    hide RingSpec.CollisionFree, M.Started, GoodPrefs;
    NextKeepsViews(pref, ids, c, Event(now, ViewChange(myID, view)));
  }

  lemma DetectorMembers(hash: RingSpec.Hash, v: M.View, myID: string, config: map<string, string>, pings: seq<M.Ping>)
    requires M.Started(hash, v, myID, config)
    requires myID !in config && RingSpec.CollisionFree(hash, config.Keys + {myID})
    ensures var view := M.Run(hash, v, pings).router.ring.nodes; myID in view && view <= config.Keys + {myID}
  {
    hide RingSpec.CollisionFree, RingSpec.Canonical;
    M.StatusIsFunctionOfHistory(hash, v, myID, config, pings);
    assert M.Run(hash, v, pings).router.ring.nodes == M.Living(config, pings) + {myID};
  }
}
