/** Why a key's writes must be replicated one by one: replications delivered in another order leave
    the replica with whichever came last. */
module Races {
  import opened StoreSpec
  import opened Wire
  import opened NodeSpec
  import opened Cluster
  import opened Reads
  import opened Durability

  // Nothing but replications of the key from p that get through.
  ghost predicate DeliveryRun(run: seq<Event>, p: string, key: string) {
    forall e :: e in run ==> e.step.Replicate? && e.step.n == p && e.step.delivered && e.step.task.key == key
  }

  function Delivered(run: seq<Event>): multiset<Task>
    requires forall e :: e in run ==> e.step.Replicate?
    decreases run
  {
    if run == [] then multiset{}
    else
      assert run[0] in run && forall e :: e in run[1..] ==> e in run;
      multiset{run[0].step.task} + Delivered(run[1..])
  }

  // The table is as after the given write, as far as presence and value go.
  predicate Shows(t: Table, task: Task) {
    if task.del then task.key !in t else task.key in t && t[task.key].value == task.value
  }

  predicate SameContent(t: Table, t': Table, key: string) {
    (key in t <==> key in t') && (key in t ==> t[key].value == t'[key].value)
  }

  predicate SameWrite(a: Task, b: Task) {
    a.del == b.del && (a.del || a.value == b.value)
  }

  lemma OneDelivery(pref: Prefs, ids: set<string>, c: State, e: Event, task: Task)
    requires GoodPrefs(pref, ids) && ViewsOk(c, ids) && |ids| >= 2 && AllReachable(c, ids)
    requires |pref(task.key)| >= 2 && pref(task.key)[0] in ids && pref(task.key)[1] in ids
    requires e.step == Replicate(pref(task.key)[0], task, true) && task in c.nodes[pref(task.key)[0]].tasks
    ensures var c', p, r := Next(pref, ids, c, e), pref(task.key)[0], pref(task.key)[1];
      && AllReachable(c', ids) && ViewsOk(c', ids)
      && c'.nodes[p].table == c.nodes[p].table && c'.nodes[p].tasks == c.nodes[p].tasks - multiset{task}
      && Shows(c'.nodes[r].table, task)
  {
    hide Next, GoodPrefs, ViewsOk, FinishTask, ReplicaAt, ApplyLocal, ReplicaRequest, Shows;
    var p, r, c' := pref(task.key)[0], pref(task.key)[1], Next(pref, ids, c, e);
    PrimaryAndReplica(pref, ids, task.key);
    ReplicaIsNext(pref, ids, c, task.key);
    NextKeepsViews(pref, ids, c, e);
    NextIsFinish(pref, ids, c, e, p, task);
    OthersUntouched(pref, c, p, r, task, e.now);
    ShowsLatest(c.nodes[r].table, task, e.now);
    StillReachable(c, c', ids, p, r);
  }

  lemma ShowsLatest(t: Table, task: Task, now: int)
    ensures Shows(ApplyLocal(t, ReplicaRequest(task.key, task.value, task.ttl, task.del), now), task)
  {}

  lemma StillReachable(c: State, c': State, ids: set<string>, p: string, r: string)
    requires AllReachable(c, ids) && c'.nodes.Keys == c.nodes.Keys && p in ids && r in ids
    requires forall n :: n in c.nodes && n != p && n != r ==> c'.nodes[n] == c.nodes[n]
    requires c'.nodes[p].up && c'.nodes[p].view == ids && c'.nodes[r].up && c'.nodes[r].view == ids
    ensures AllReachable(c', ids)
  {}

  lemma {:induction false} RaceEnds(pref: Prefs, ids: set<string>, c: State, run: seq<Event>, key: string)
    requires GoodPrefs(pref, ids) && ViewsOk(c, ids) && |ids| >= 2 && AllReachable(c, ids) && run != []
    requires |pref(key)| >= 2 && pref(key)[0] in ids && pref(key)[1] in ids && DeliveryRun(run, pref(key)[0], key)
    requires Delivered(run) <= c.nodes[pref(key)[0]].tasks
    ensures var c', p, r := Cluster.Run(pref, ids, c, run), pref(key)[0], pref(key)[1];
      && AllReachable(c', ids) && c'.nodes[p].table == c.nodes[p].table
      && Shows(c'.nodes[r].table, run[|run| - 1].step.task)
    decreases run
  {
    FirstDelivery(run, pref(key)[0], key);
    assert pref(key)[0] in c.nodes;
    hide Next, GoodPrefs, ViewsOk, Shows, Delivered, AllReachable, DeliveryRun;
    var p, e, rest := pref(key)[0], run[0], run[1..];
    FirstOfMany(run, c.nodes[p].tasks);
    OneDelivery(pref, ids, c, e, e.step.task);
    var c1 := Next(pref, ids, c, e);
    if rest == [] {
      assert Cluster.Run(pref, ids, c1, rest) == c1;
    } else {
      RaceEnds(pref, ids, c1, rest, key);
    }
  }

  lemma FirstDelivery(run: seq<Event>, p: string, key: string)
    requires run != [] && DeliveryRun(run, p, key)
    ensures run[0].step == Replicate(p, run[0].step.task, true) && run[0].step.task.key == key
    ensures DeliveryRun(run[1..], p, key) && forall e :: e in run ==> e.step.Replicate?
  {
    assert run[0] in run && forall e :: e in run[1..] ==> e in run;
  }

  lemma FirstOfMany(run: seq<Event>, tasks: multiset<Task>)
    requires (forall e :: e in run ==> e.step.Replicate?) && run != [] && Delivered(run) <= tasks
    ensures run[0] in run && run[0].step.task in tasks
    ensures forall e :: e in run[1..] ==> e.step.Replicate?
    ensures Delivered(run[1..]) <= tasks - multiset{run[0].step.task}
  {
    assert run[0] in run && forall e :: e in run[1..] ==> e in run;
    var task, rest := run[0].step.task, Delivered(run[1..]);
    assert Delivered(run) == multiset{task} + rest;
    hide Delivered;
    assert forall t :: (multiset{task} + rest)[t] <= tasks[t];
  }

  /** Several replications of a key outstanding at its primary may get through in any order. Afterwards
      replica and primary agree exactly when the last one delivered was of the primary's last write. */
  lemma RacingReplicationsAgreeIff(pref: Prefs, ids: set<string>, c: State, run: seq<Event>, key: string, write: Task)
    requires GoodPrefs(pref, ids) && ViewsOk(c, ids) && |ids| >= 2 && AllReachable(c, ids) && run != []
    requires pref(key) != [] && pref(key)[0] in ids && DeliveryRun(run, pref(key)[0], key)
    requires Delivered(run) <= c.nodes[pref(key)[0]].tasks
    requires write.key == key && Shows(c.nodes[pref(key)[0]].table, write)
    ensures |pref(key)| >= 2
    ensures var c', p, r := Cluster.Run(pref, ids, c, run), pref(key)[0], pref(key)[1];
      && p in c'.nodes && r in c'.nodes
      && (SameContent(c'.nodes[p].table, c'.nodes[r].table, key) <==> SameWrite(run[|run| - 1].step.task, write))
  {
    PrimaryAndReplica(pref, ids, key);
    RaceEnds(pref, ids, c, run, key);
    assert run[|run| - 1] in run;
    hide GoodPrefs, ViewsOk, Cluster.Run, Delivered;
  }
}
