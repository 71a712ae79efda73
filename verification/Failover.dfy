/** What a read finds after a crash, whichever survivors have noticed it. */
module Failover {
  import opened Text
  import opened StoreSpec
  import opened NodeSpec
  import opened Cluster
  import opened Reads
  import opened Durability

  // x is down; every other node is as before, and has or has not removed x from its view.
  ghost predicate AfterCrash(c: State, c': State, ids: set<string>, x: string) {
    && x in ids && c.nodes.Keys == ids && ViewsOk(c', ids)
    && !c'.nodes[x].up && c'.nodes[x].table == map[]
    && forall n :: n in ids && n != x ==>
         && c'.nodes[n].up && c'.nodes[n].table == c.nodes[n].table
         && (c'.nodes[n].view == ids || c'.nodes[n].view == ids - {x})
  }

  ghost predicate Detections(run: seq<Event>, ids: set<string>, x: string) {
    forall e :: e in run ==> e.step.ViewChange? && e.step.n != x && e.step.view == ids - {x}
  }

  lemma CrashStep(pref: Prefs, ids: set<string>, c: State, x: string, t: int)
    requires GoodPrefs(pref, ids) && ViewsOk(c, ids) && AllReachable(c, ids) && x in ids
    ensures ViewsOk(Next(pref, ids, c, Event(t, Crash(x))), ids)
    ensures AfterCrash(c, Next(pref, ids, c, Event(t, Crash(x))), ids, x)
  {
    NextKeepsViews(pref, ids, c, Event(t, Crash(x)));
    hide GoodPrefs;
  }

  lemma DetectionStep(pref: Prefs, ids: set<string>, c: State, c': State, x: string, e: Event)
    requires GoodPrefs(pref, ids) && AfterCrash(c, c', ids, x)
    requires e.step.ViewChange? && e.step.n != x && e.step.view == ids - {x}
    ensures AfterCrash(c, Next(pref, ids, c', e), ids, x)
  {
    NextKeepsViews(pref, ids, c', e);
    hide GoodPrefs;
  }

  lemma {:induction false} DetectionsKeepCrash(pref: Prefs, ids: set<string>, c: State, c': State, x: string,
                                               run: seq<Event>)
    requires GoodPrefs(pref, ids) && AfterCrash(c, c', ids, x) && Detections(run, ids, x)
    ensures AfterCrash(c, Cluster.Run(pref, ids, c', run), ids, x)
    decreases run
  {
    hide Next, GoodPrefs;
    if run != [] {
      assert run[0] in run;
      DetectionStep(pref, ids, c, c', x, run[0]);
      DetectionsKeepCrash(pref, ids, c, Next(pref, ids, c', run[0]), x, run[1..]);
    }
  }

  // Once nothing is pending, primary and replica answer with the latest write, and nobody else has one.
  lemma QuiescentCopies(pref: Prefs, ids: set<string>, c: State, key: string, last: Last, end: int, now: int)
    requires Holds(pref, ids, c, key, last, end) && !Pending(c, key)
    requires now >= end && (last.expiresAt.Some? ==> now <= last.expiresAt.value)
    ensures Lookup(c.nodes[pref(key)[0]].table, key, now) == last.value
    ensures Lookup(c.nodes[pref(key)[1]].table, key, now) == last.value
    ensures forall m :: m in ids && m != pref(key)[0] && m != pref(key)[1] ==> Lookup(c.nodes[m].table, key, now).None?
  {
    assert NoTask(c.nodes[pref(key)[0]].tasks, key);
  }

  lemma SurvivorsPoll(c: State, c': State, ids: set<string>, x: string, holder: string, s: string,
                      order: string -> seq<string>)
    requires AfterCrash(c, c', ids, x) && PollsPeers(c', order) && holder in ids && holder != x && s in ids && s != x
    ensures ViewsOk(c', ids) && Polled(c', holder, order) && c'.nodes[holder].up && c'.nodes[s].up
  {}

  lemma ReadAfterCrash(pref: Prefs, ids: set<string>, c: State, c': State, x: string, s: string, key: string,
                       last: Last, end: int, now: int, order: string -> seq<string>, fate: Fates)
    requires GoodPrefs(pref, ids) && |ids| >= 2 && Holds(pref, ids, c, key, last, end) && !Pending(c, key)
    requires AfterCrash(c, c', ids, x) && s in ids && s != x && PollsPeers(c', order)
    requires now >= end && (last.expiresAt.Some? ==> now <= last.expiresAt.value)
    ensures Read(pref, ids, c', s, key, now, order, fate) == OrMiss(last.value)
  {
    PrimaryAndReplica(pref, ids, key);
    CopiesAfterCrash(pref, ids, c, c', x, key, last, end, now);
    var holder := if x == pref(key)[0] then pref(key)[1] else pref(key)[0];
    SurvivorsPoll(c, c', ids, x, holder, s, order);
    hide Holds, Read, GoodPrefs, Lookup, Pending, PollsPeers, Polled, AfterCrash;
    if last.value.None? {
      AbsentIsMiss(pref, ids, c', s, key, now, order, fate);
    } else {
      AgreedCopiesAreRead(pref, ids, c', s, holder, key, last.value.value, now, order, fate);
    }
  }

  lemma CopiesAfterCrash(pref: Prefs, ids: set<string>, c: State, c': State, x: string, key: string, last: Last,
                         end: int, now: int)
    requires Holds(pref, ids, c, key, last, end) && !Pending(c, key) && AfterCrash(c, c', ids, x)
    requires now >= end && (last.expiresAt.Some? ==> now <= last.expiresAt.value)
    ensures c'.nodes.Keys == ids
    ensures forall m :: m in ids ==>
      Lookup(c'.nodes[m].table, key, now)
        == (if m != x && (m == pref(key)[0] || m == pref(key)[1]) then last.value else None)
  {
    QuiescentCopies(pref, ids, c, key, last, end, now);
    assert |pref(key)| >= 2 && pref(key)[0] in ids && pref(key)[1] in ids by { hide Lookup, Pending, AfterCrash; }
    hide Holds, Pending;
  }

  /** Single-failure durability: after any disciplined run, once a key has no replication pending and
      any one node crashes, GET at any survivor, whichever of them have noticed, in whatever order
      they poll and whatever forwarded requests or replies are lost, returns the last value set and not yet expired,
      or MISS after a DEL or without a SET. */
  lemma SurvivesAnySingleCrash(pref: Prefs, ids: set<string>, run: seq<Event>, start: int, c: State, last: Last,
                               key: string, x: string, t: int, detections: seq<Event>, c': State, s: string, now: int,
                               order: string -> seq<string>, fate: Fates)
    requires GoodPrefs(pref, ids) && |ids| >= 2 && Disciplined(pref, ids, Initial(ids), run, start)
    requires c == Cluster.Run(pref, ids, Initial(ids), run) && last == LastWrite(NEVER, run, key) && !Pending(c, key)
    requires x in ids && s in ids && s != x && Detections(detections, ids, x)
    requires c' == Cluster.Run(pref, ids, c, [Event(t, Crash(x))] + detections) && PollsPeers(c', order)
    requires now >= EndTime(run, start) && (last.expiresAt.Some? ==> now <= last.expiresAt.value)
    ensures ViewsOk(c', ids) && Read(pref, ids, c', s, key, now, order, fate) == OrMiss(last.value)
  {
    InitialHolds(pref, ids, key, start);
    RunHolds(pref, ids, Initial(ids), run, start, key, NEVER);
    assert AllReachable(c, ids);
    hide Holds, Next, GoodPrefs, Disciplined, Read, LastWrite, Initial, Pending;
    var crash := Event(t, Crash(x));
    CrashStep(pref, ids, c, x, t);
    var suffix := [crash] + detections;
    assert suffix[0] == crash && suffix[1..] == detections;
    DetectionsKeepCrash(pref, ids, c, Next(pref, ids, c, crash), x, detections);
    ReadAfterCrash(pref, ids, c, c', x, s, key, last, EndTime(run, start), now, order, fate);
  }
}
