/** From write to crash to recovery: what was written and replicated is still read after any one node
    crashes, comes back empty, and the cluster rebalances. */
module Recovery {
  import opened Text
  import opened StoreSpec
  import opened Wire
  import opened NodeSpec
  import opened Cluster
  import opened Reads
  import opened Durability
  import opened Conservation

  ghost predicate NoMigration(c: State) {
    c.pushes == [] && forall n :: n in c.nodes ==> c.nodes[n].jobs == [] && c.nodes[n].acked == multiset{}
  }

  lemma WriteStartsNoMigration(c: State, n: string, task: Task, now: int)
    requires NoMigration(c) && n in c.nodes
    ensures NoMigration(WriteAt(c, n, task, now))
  {}

  lemma DeliveryStartsNoMigration(c: State, n: string, r: Request, now: int)
    requires NoMigration(c) && n in c.nodes
    ensures NoMigration(Deliver(c, n, r, now))
  {
    hide ApplyLocal;
  }

  lemma ReplicationStartsNoMigration(pref: Prefs, c: State, n: string, task: Task, delivered: bool, now: int)
    requires NoMigration(c) && n in c.nodes
    ensures NoMigration(FinishTask(pref, c, n, task, delivered, now))
  {
    var c1 := WithNode(c, n, c.nodes[n].(tasks := c.nodes[n].tasks - multiset{task}));
    assert NoMigration(c1);
    hide NoMigration, ReplicaAt, Deliver;
    var target := ReplicaAt(pref, c, n, task.key);
    if target.Some? && target.value in c1.nodes {
      DeliveryStartsNoMigration(c1, target.value, ReplicaRequest(task.key, task.value, task.ttl, task.del), now);
    }
  }

  lemma StepStartsNoMigration(pref: Prefs, ids: set<string>, c: State, e: Event)
    requires GoodPrefs(pref, ids) && ViewsOk(c, ids) && NoMigration(c) && Allowed(c, e)
    ensures NoMigration(Next(pref, ids, c, e))
  {
    assert c.nodes.Keys == ids;
    hide GoodPrefs, ViewsOk, NoMigration, WriteAt, FinishTask, Route, Token, Pending, Sweep;
    match e.step
    case ClientSet(_, _, _, _) => ClientStartsNoMigration(pref, ids, c, e);
    case ClientDel(_, _) => ClientStartsNoMigration(pref, ids, c, e);
    case Replicate(n, task, delivered) =>
      if n in c.nodes {
        ReplicationStartsNoMigration(pref, c, n, task, delivered, e.now);
      }
    case SweepNode(n) => SweepStartsNoMigration(c, n, e.now);
  }

  lemma ClientStartsNoMigration(pref: Prefs, ids: set<string>, c: State, e: Event)
    requires GoodPrefs(pref, ids) && ViewsOk(c, ids) && NoMigration(c) && Allowed(c, e)
    requires e.step.ClientSet? || e.step.ClientDel?
    ensures NoMigration(Next(pref, ids, c, e))
  {
    assert c.nodes.Keys == ids && e.step.entry in ids;
    hide GoodPrefs, ViewsOk, NoMigration, WriteAt, Route, Token, Pending;
    var end := Route(pref, ids, c, e.step.entry, e.step.key);
    if end.Some? && Next(pref, ids, c, e) != c {
      var task := if e.step.ClientDel? then Task(e.step.key, "", 0, true)
        else Task(e.step.key, e.step.value, e.step.ttl, false);
      WriteStartsNoMigration(c, end.value, task, e.now);
      SameMigration(WriteAt(c, end.value, task, e.now), Next(pref, ids, c, e));
    }
  }

  lemma SameMigration(a: State, b: State)
    requires NoMigration(a) && b.nodes == a.nodes && b.pushes == a.pushes
    ensures NoMigration(b)
  {}

  lemma SweepStartsNoMigration(c: State, n: string, now: int)
    requires NoMigration(c)
    ensures n in c.nodes ==> NoMigration(WithNode(c, n, c.nodes[n].(table := Sweep(c.nodes[n].table, now))))
  {}

  lemma {:induction false} DisciplinedRunMigratesNothing(pref: Prefs, ids: set<string>, c: State, run: seq<Event>,
                                                         start: int)
    requires GoodPrefs(pref, ids) && ViewsOk(c, ids) && NoMigration(c) && Disciplined(pref, ids, c, run, start)
    ensures NoMigration(Cluster.Run(pref, ids, c, run))
    decreases run
  {
    hide Next, NoMigration, Allowed, GoodPrefs, ViewsOk;
    if run != [] {
      StepStartsNoMigration(pref, ids, c, run[0]);
      NextKeepsViews(pref, ids, c, run[0]);
      DisciplinedRunMigratesNothing(pref, ids, Next(pref, ids, c, run[0]), run[1..], run[0].now);
    }
  }

  function Values(last: Last): set<string> {
    if last.value.None? then {} else {last.value.value}
  }

  // What a key's primary and replica hold when nothing is pending.
  lemma QuiescentLiveCopies(pref: Prefs, ids: set<string>, c: State, key: string, last: Last, now: int)
    requires Holds(pref, ids, c, key, last, now) && !Pending(c, key)
    ensures LiveCopies(c, key, Values(last), last.expiresAt, now)
  {
    assert NoTask(c.nodes[pref(key)[0]].tasks, key);
  }

  // The primary, or after its crash the replica, still has the value.
  lemma SurvivingCopy(pref: Prefs, ids: set<string>, c: State, key: string, last: Last, x: string, now: int)
    requires GoodPrefs(pref, ids) && |ids| >= 2 && Holds(pref, ids, c, key, last, now) && !Pending(c, key)
    requires last.value.Some? && Within(now, last.expiresAt)
    ensures exists n :: n in ids && n in c.nodes && n != x && c.nodes[n].up && Lookup(c.nodes[n].table, key, now).Some?
  {
    PrimaryAndReplica(pref, ids, key);
    assert NoTask(c.nodes[pref(key)[0]].tasks, key);
    hide GoodPrefs;
    var n := if x == pref(key)[0] then pref(key)[1] else pref(key)[0];
    assert Lookup(c.nodes[n].table, key, now).Some?;
  }

  lemma CrashKeepsCopies(pref: Prefs, ids: set<string>, c: State, key: string, values: set<string>, until: Option<int>,
                         x: string, t: int)
    requires GoodPrefs(pref, ids) && ViewsOk(c, ids) && x in ids
    requires LiveCopies(c, key, values, until, t) && NoMigration(c)
    ensures var c1 := Crashed(pref, ids, c, x, t);
      && LiveCopies(c1, key, values, until, t) && SnapshotValues(c1, key, values) && Settled(c1, key)
      && forall n :: n in ids && n != x ==> c1.nodes[n] == c.nodes[n]
  {
    hide GoodPrefs;
  }

  lemma LaterCopies(c: State, key: string, values: set<string>, until: Option<int>, now: int, now': int)
    requires LiveCopies(c, key, values, until, now) && now <= now'
    ensures LiveCopies(c, key, values, until, now')
    ensures LiveSomewhere(c, key, now) && Within(now', until) ==> LiveSomewhere(c, key, now')
  {
    if LiveSomewhere(c, key, now) && Within(now', until) {
      var n :| n in c.nodes && c.nodes[n].up && Lookup(c.nodes[n].table, key, now).Some?;
      assert Lookup(c.nodes[n].table, key, now').Some?;
    }
  }

  // Nodes that are up know each other.
  ghost predicate Meshed(c: State) {
    forall n, m :: n in c.nodes && m in c.nodes && c.nodes[n].up && c.nodes[m].up ==> m in c.nodes[n].view
  }

  // The nodes that are up know and poll each other, and s is one of them.
  ghost predicate Readable(c: State, s: string, order: string -> seq<string>) {
    Meshed(c) && PollsPeers(c, order) && s in c.nodes && c.nodes[s].up
  }

  // GET anywhere answers the one value the key's live copies have, or MISS when it has none.
  lemma ReadsTheValue(pref: Prefs, ids: set<string>, c: State, key: string, last: Last, until: Option<int>, s: string,
                      now: int, order: string -> seq<string>, fate: Fates)
    requires GoodPrefs(pref, ids) && ViewsOk(c, ids) && Readable(c, s, order)
    requires LiveCopies(c, key, Values(last), until, now) && (last.value.Some? ==> LiveSomewhere(c, key, now))
    ensures Read(pref, ids, c, s, key, now, order, fate) == OrMiss(last.value)
  {
    hide Read, GoodPrefs;
    if last.value.None? {
      AbsentIsMiss(pref, ids, c, s, key, now, order, fate);
    } else {
      var holder :| holder in c.nodes && c.nodes[holder].up && Lookup(c.nodes[holder].table, key, now).Some?;
      assert Polled(c, holder, order);
      AgreedCopiesAreRead(pref, ids, c, s, holder, key, last.value.value, now, order, fate);
    }
  }

  ghost function Crashed(pref: Prefs, ids: set<string>, c: State, x: string, t: int): (c': State)
    requires GoodPrefs(pref, ids) && ViewsOk(c, ids)
    ensures ViewsOk(c', ids)
  {
    NextKeepsViews(pref, ids, c, Event(t, Crash(x)));
    Next(pref, ids, c, Event(t, Crash(x)))
  }

  /** Durability from write to recovery. After any disciplined run, once a key has no replication
      pending, let any node crash, and then let anything happen but writes of the key and further
      crashes: detection by some or all, the node's return with an empty store, migrations and
      rebalancing pushes lost, delayed or acknowledged, deletes, sweeps, all traffic of other keys.
      Whenever the nodes that are up know each other again, GET at any of them, whatever forwarded
      requests or replies are lost, returns the last value set, or MISS after a DEL or without a SET.
      A value with a TTL is returned until its expiry less what the pushes may have cost. */
  lemma SurvivesCrashAndRebalancing(pref: Prefs, ids: set<string>, run: seq<Event>, start: int, c: State, last: Last,
                                    key: string, x: string, t: int, c1: State, run': seq<Event>, c': State, s: string,
                                    now: int, order: string -> seq<string>, fate: Fates)
    requires GoodPrefs(pref, ids) && |ids| >= 2 && Disciplined(pref, ids, Initial(ids), run, start)
    requires c == Cluster.Run(pref, ids, Initial(ids), run) && last == LastWrite(NEVER, run, key) && !Pending(c, key)
    requires x in ids && QuietRun(run', key) && EndTime(run, start) <= t && InTimeOrder(run', t)
    requires c1 == Next(pref, ids, c, Event(t, Crash(x)))
    requires ViewsOk(c1, ids) // by NextKeepsViews
    requires c' == Cluster.Run(pref, ids, c1, run')
    requires Readable(c', s, order)
    requires now >= EndTime(run', t) && Within(now, Sooner(last.expiresAt, Sends(run', key)))
    ensures ViewsOk(c', ids) && Read(pref, ids, c', s, key, now, order, fate) == OrMiss(last.value)
  {
    assert c1 == Crashed(pref, ids, c, x, t);
    hide Holds, Next, Crashed, GoodPrefs, Disciplined, Read, LastWrite, Initial, Pending, NoMigration, LiveCopies,
         QuietRun, Readable, LiveSomewhere, Cluster.Run, InTimeOrder, EndTime, Sooner, Within;
    EndOfWrites(pref, ids, run, start, c, last, key);
    AfterTheCrash(pref, ids, c, last, key, x, t, EndTime(run, start), run', now);
    ReadsTheValue(pref, ids, c', key, last, Sooner(last.expiresAt, Sends(run', key)), s, now, order, fate);
  }

  lemma EndOfWrites(pref: Prefs, ids: set<string>, run: seq<Event>, start: int, c: State, last: Last, key: string)
    requires GoodPrefs(pref, ids) && |ids| >= 2 && Disciplined(pref, ids, Initial(ids), run, start)
    requires c == Cluster.Run(pref, ids, Initial(ids), run) && last == LastWrite(NEVER, run, key)
    ensures Holds(pref, ids, c, key, last, EndTime(run, start)) && NoMigration(c)
  {
    assert NoMigration(Initial(ids));
    hide Holds, Next, GoodPrefs, ViewsOk, Disciplined, LastWrite, Initial, NoMigration;
    InitialHolds(pref, ids, key, start);
    RunHolds(pref, ids, Initial(ids), run, start, key, NEVER);
    DisciplinedRunMigratesNothing(pref, ids, Initial(ids), run, start);
  }

  lemma AfterTheCrash(pref: Prefs, ids: set<string>, c: State, last: Last, key: string, x: string, t: int, end: int,
                      run': seq<Event>, now: int)
    requires GoodPrefs(pref, ids) && ViewsOk(c, ids) && |ids| >= 2 && x in ids
    requires Holds(pref, ids, c, key, last, end) && !Pending(c, key) && NoMigration(c)
    requires end <= t && QuietRun(run', key) && InTimeOrder(run', t)
    requires now >= EndTime(run', t) && Within(now, Sooner(last.expiresAt, Sends(run', key)))
    ensures var c' := Cluster.Run(pref, ids, Crashed(pref, ids, c, x, t), run');
      && LiveCopies(c', key, Values(last), Sooner(last.expiresAt, Sends(run', key)), now)
      && (last.value.Some? ==> LiveSomewhere(c', key, now))
  {
    var c1, until' := Crashed(pref, ids, c, x, t), Sooner(last.expiresAt, Sends(run', key));
    SelfSame(pref, ids, c, key, last, end, t);
    QuiescentLiveCopies(pref, ids, c, key, last, t);
    CrashKeepsCopies(pref, ids, c, key, Values(last), last.expiresAt, x, t);
    EndIsLast(run', t);
    if last.value.Some? {
      SurvivingCopy(pref, ids, c, key, last, x, t);
      var n :| n in ids && n in c.nodes && n != x && c.nodes[n].up && Lookup(c.nodes[n].table, key, t).Some?;
      assert c1.nodes[n].up && Lookup(c1.nodes[n].table, key, t).Some?;
    }
    hide Holds, Crashed, GoodPrefs, ViewsOk, Pending, NoMigration, LiveCopies, Lookup, QuietRun, Settled,
         SnapshotValues;
    RebalancingConservesKeys(pref, ids, c1, run', key, Values(last), last.expiresAt, t);
    LaterCopies(Cluster.Run(pref, ids, c1, run'), key, Values(last), until', EndTime(run', t), now);
  }

  // ---------------------------------------------------------------- an instance

  function SetAndReplicate(p: string, key: string, value: string): seq<Event> {
    [Event(0, ClientSet(p, key, value, 0)), Event(0, Replicate(p, Task(key, value, 0, false), true))]
  }

  lemma FirstWrite(pref: Prefs, ids: set<string>, key: string, value: string, p: string)
    requires GoodPrefs(pref, ids) && p in ids && Token(key) && Token(value)
    requires Route(pref, ids, Initial(ids), p, key) == Some(p)
    ensures var e := Event(0, ClientSet(p, key, value, 0));
      var c := Next(pref, ids, Initial(ids), e);
      && Allowed(Initial(ids), e) && AllReachable(c, ids)
      && c.nodes[p].tasks == multiset{Task(key, value, 0, false)}
      && forall n :: n in ids && n != p ==> c.nodes[n].tasks == multiset{}
  {
    var e, task := Event(0, ClientSet(p, key, value, 0)), Task(key, value, 0, false);
    FirstWriteAt(ids, p, task);
    assert Allowed(Initial(ids), e) by { hide GoodPrefs, Token, Route, Next; }
    assert Next(pref, ids, Initial(ids), e).nodes == WriteAt(Initial(ids), p, task, 0).nodes by {
      hide GoodPrefs, Token, Route, WriteAt;
    }
    hide GoodPrefs, Token, Route, Next, WriteAt, Initial;
  }

  lemma FirstWriteAt(ids: set<string>, p: string, task: Task)
    requires p in ids
    ensures var c := WriteAt(Initial(ids), p, task, 0);
      && AllReachable(c, ids) && c.nodes[p].tasks == multiset{task}
      && forall n :: n in ids && n != p ==> c.nodes[n].tasks == multiset{}
  {
    assert multiset{} + multiset{task} == multiset{task};
  }

  lemma FirstReplication(pref: Prefs, ids: set<string>, c: State, task: Task)
    requires GoodPrefs(pref, ids) && ViewsOk(c, ids) && |ids| >= 2 && AllReachable(c, ids)
    requires pref(task.key) != [] && pref(task.key)[0] in ids && c.nodes[pref(task.key)[0]].tasks == multiset{task}
    requires forall n :: n in ids && n != pref(task.key)[0] ==> c.nodes[n].tasks == multiset{}
    ensures var c' := Next(pref, ids, c, Event(0, Replicate(pref(task.key)[0], task, true)));
      AllReachable(c', ids) && !Pending(c', task.key)
  {
    hide GoodPrefs, Next, FinishTask, AllReachable, ReplicaAt, ApplyLocal, ReplicaRequest, Pending;
    PrimaryAndReplica(pref, ids, task.key);
    ReplicaIsNext(pref, ids, c, task.key);
    var p, r := pref(task.key)[0], pref(task.key)[1];
    ReachableNode(c, ids, p);
    ReachableNode(c, ids, r);
    OthersUntouched(pref, c, p, r, task, 0);
    NextIsFinish(pref, ids, c, Event(0, Replicate(p, task, true)), p, task);
    NothingPending(c, FinishTask(pref, c, p, task, true, 0), ids, p, r, task);
  }

  lemma ReachableNode(c: State, ids: set<string>, n: string)
    requires AllReachable(c, ids) && n in ids
    ensures n in c.nodes && c.nodes[n].up
  {}

  lemma NothingPending(c: State, c': State, ids: set<string>, p: string, r: string, task: Task)
    requires AllReachable(c, ids) && p in ids && r in ids && p != r && c'.nodes.Keys == c.nodes.Keys
    requires forall n :: n in ids && n != p && n != r ==> c'.nodes[n] == c.nodes[n]
    requires forall n :: n in ids && n != p ==> c.nodes[n].tasks == multiset{}
    requires c.nodes[p].tasks == multiset{task} && c'.nodes[p] == c.nodes[p].(tasks := multiset{task} - multiset{task})
    requires c'.nodes[r] == c.nodes[r].(table := c'.nodes[r].table)
    ensures AllReachable(c', ids) && !Pending(c', task.key)
  {
    forall n | n in ids ensures c'.nodes[n].tasks == multiset{} {}
  }

  lemma TwoSteps(pref: Prefs, ids: set<string>, c: State, a: Event, b: Event, key: string)
    requires GoodPrefs(pref, ids) && ViewsOk(c, ids) && 0 <= a.now <= b.now && Allowed(c, a)
    ensures ViewsOk(Next(pref, ids, c, a), ids)
    ensures Cluster.Run(pref, ids, c, [a, b]) == Next(pref, ids, Next(pref, ids, c, a), b)
    ensures Allowed(Next(pref, ids, c, a), b) ==> Disciplined(pref, ids, c, [a, b], 0)
    ensures LastWrite(NEVER, [a, b], key) == LastAfter(LastAfter(NEVER, a, key), b, key)
    ensures EndTime([a, b], 0) == b.now
  {
    hide Next, GoodPrefs, ViewsOk, Allowed, LastAfter;
    NextKeepsViews(pref, ids, c, a);
    var c1, last := Next(pref, ids, c, a), LastAfter(NEVER, a, key);
    OneStep(pref, ids, c1, b, last, key);
    assert [a, b][1..] == [b];
    if Allowed(c1, b) {
      assert Disciplined(pref, ids, c1, [b], a.now);
    }
    assert LastWrite(NEVER, [a, b], key) == LastWrite(last, [b], key);
  }

  lemma OneStep(pref: Prefs, ids: set<string>, c: State, e: Event, last: Last, key: string)
    requires GoodPrefs(pref, ids) && ViewsOk(c, ids)
    ensures Cluster.Run(pref, ids, c, [e]) == Next(pref, ids, c, e)
    ensures forall start :: start <= e.now && Allowed(c, e) ==> Disciplined(pref, ids, c, [e], start)
    ensures LastWrite(last, [e], key) == LastAfter(last, e, key)
  {
    hide Next, GoodPrefs, ViewsOk, Allowed, LastAfter;
    NextKeepsViews(pref, ids, c, e);
    var c' := Next(pref, ids, c, e);
    assert [e][1..] == [];
    assert Cluster.Run(pref, ids, c', []) == c' && Disciplined(pref, ids, c', [], e.now);
    assert LastWrite(LastAfter(last, e, key), [], key) == LastAfter(last, e, key);
  }

  lemma SetAndReplicateRuns(pref: Prefs, ids: set<string>, key: string, value: string)
    requires GoodPrefs(pref, ids) && |ids| >= 2 && Token(key) && Token(value)
    ensures pref(key) != [] && pref(key)[0] in ids
    ensures var run := SetAndReplicate(pref(key)[0], key, value);
      && Disciplined(pref, ids, Initial(ids), run, 0) && EndTime(run, 0) == 0
      && !Pending(Cluster.Run(pref, ids, Initial(ids), run), key)
      && LastWrite(NEVER, run, key) == Last(Some(value), None)
      && AllReachable(Cluster.Run(pref, ids, Initial(ids), run), ids)
  {
    PrimaryAndReplica(pref, ids, key);
    var run, c := SetAndReplicate(pref(key)[0], key, value), Initial(ids);
    WritesGoToPrimary(pref, ids, c, pref(key)[0], key);
    FirstWrite(pref, ids, key, value, pref(key)[0]);
    TwoSteps(pref, ids, c, run[0], run[1], key);
    assert run == [run[0], run[1]];
    hide Next, GoodPrefs, ViewsOk, Token, Disciplined, Pending, Initial, Cluster.Run, LastWrite, AllReachable;
    FirstReplication(pref, ids, Next(pref, ids, c, run[0]), Task(key, value, 0, false));
  }

  lemma RestartOnly(pref: Prefs, ids: set<string>, c: State, x: string, t: int, key: string)
    requires GoodPrefs(pref, ids) && ViewsOk(c, ids)
    ensures var run := [Event(t, Restart(x))];
      && InTimeOrder(run, t) && EndTime(run, t) == t && QuietRun(run, key)
      && Cluster.Run(pref, ids, c, run) == Next(pref, ids, c, run[0])
  {
    hide Next, GoodPrefs, ViewsOk;
    var run := [Event(t, Restart(x))];
    NextKeepsViews(pref, ids, c, run[0]);
    assert run[1..] == [];
    assert Cluster.Run(pref, ids, Next(pref, ids, c, run[0]), []) == Next(pref, ids, c, run[0]);
  }

  lemma CrashAndRestart(pref: Prefs, ids: set<string>, c: State, c1: State, x: string, t: int)
    requires GoodPrefs(pref, ids) && ViewsOk(c, ids) && ViewsOk(c1, ids) && x in ids
    requires c1 == Next(pref, ids, c, Event(t, Crash(x)))
    ensures Next(pref, ids, c1, Event(t, Restart(x))).nodes == c.nodes[x := Fresh(ids)]
  {
    assert c.nodes.Keys == ids && c1.nodes.Keys == ids;
    hide GoodPrefs, ViewsOk, Orphaned;
    assert c1.nodes == c.nodes[x := Fresh(ids).(up := false)];
  }

  lemma FreshIsReachable(c: State, c': State, ids: set<string>, x: string)
    requires AllReachable(c, ids) && x in ids && c'.nodes == c.nodes[x := Fresh(ids)]
    ensures AllReachable(c', ids)
  {}

  lemma ComesBack(pref: Prefs, ids: set<string>, c: State, x: string, t: int)
    requires GoodPrefs(pref, ids) && ViewsOk(c, ids) && AllReachable(c, ids) && x in ids
    ensures var c1 := Next(pref, ids, c, Event(t, Crash(x)));
      && c1 == Crashed(pref, ids, c, x, t) && ViewsOk(c1, ids)
      && AllReachable(Next(pref, ids, c1, Event(t, Restart(x))), ids)
  {
    hide GoodPrefs, Orphaned;
    var c1 := Next(pref, ids, c, Event(t, Crash(x)));
    NextKeepsViews(pref, ids, c, Event(t, Crash(x)));
    assert c1 == Crashed(pref, ids, c, x, t);
    hide Crashed, ViewsOk, AllReachable;
    CrashAndRestart(pref, ids, c, c1, x, t);
    hide Next;
    FreshIsReachable(c, Next(pref, ids, c1, Event(t, Restart(x))), ids, x);
  }

  /** For instance: a value set and replicated is read anywhere once its primary has crashed and come
      back, empty, under full views. */
  lemma PrimaryComesBack(pref: Prefs, ids: set<string>, key: string, value: string, t: int, s: string, now: int,
                         order: string -> seq<string>, fate: Fates) returns (c': State)
    requires GoodPrefs(pref, ids) && |ids| >= 2 && Token(key) && Token(value) && s in ids && 0 <= t <= now
    requires forall n, id :: n in ids ==> (id in order(n) <==> id in ids && id != n)
    ensures pref(key) != []
    ensures var x := pref(key)[0];
      var c := Cluster.Run(pref, ids, Initial(ids), SetAndReplicate(x, key, value));
      var c1 := Next(pref, ids, c, Event(t, Crash(x)));
      ViewsOk(c1, ids) && c' == Cluster.Run(pref, ids, c1, [Event(t, Restart(x))])
    ensures AllReachable(c', ids) && ViewsOk(c', ids) && Read(pref, ids, c', s, key, now, order, fate) == value
  {
    hide Next, GoodPrefs, Disciplined, Pending, LastWrite, Token, Read, Initial, SetAndReplicate, Crashed, Cluster.Run,
         InTimeOrder, EndTime, QuietRun, AllReachable, Readable;
    SetAndReplicateRuns(pref, ids, key, value);
    var x := pref(key)[0];
    var run, run' := SetAndReplicate(x, key, value), [Event(t, Restart(x))];
    var c := Cluster.Run(pref, ids, Initial(ids), run);
    var c1 := Next(pref, ids, c, Event(t, Crash(x)));
    ComesBack(pref, ids, c, x, t);
    RestartOnly(pref, ids, c1, x, t, key);
    c' := Cluster.Run(pref, ids, c1, run');
    AllReadable(c', ids, s, order);
    SurvivesCrashAndRebalancing(pref, ids, run, 0, c, Last(Some(value), None), key, x, t, c1, run', c', s, now,
                                order, fate);
  }

  lemma AllReadable(c: State, ids: set<string>, s: string, order: string -> seq<string>)
    requires AllReachable(c, ids) && s in ids
    requires forall n, id :: n in ids ==> (id in order(n) <==> id in ids && id != n)
    ensures Readable(c, s, order)
  {}
}
