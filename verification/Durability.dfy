/** Single-failure durability: what is written and replicated survives the crash of any one node. */
module Durability {
  import opened Text
  import opened Sequences
  import opened StoreSpec
  import opened Wire
  import opened NodeSpec
  import opened Preference
  import opened Cluster
  import opened Reads

  // The outcome of the latest write of a key: its value (None: never set, or deleted) and expiry.
  datatype Last = Last(value: Option<string>, expiresAt: Option<int>)

  const NEVER := Last(None, None)

  function LastAfter(last: Last, e: Event, key: string): Last {
    match e.step
    case ClientSet(_, k, value, ttl) =>
      if k == key then Last(Some(value), if ttl > 0 then Some(e.now + ttl) else None) else last
    case ClientDel(_, k) => if k == key then NEVER else last
    case _ => last
  }

  function LastWrite(last: Last, run: seq<Event>, key: string): Last
    decreases run
  {
    if run == [] then last else LastWrite(LastAfter(last, run[0], key), run[1..], key)
  }

  ghost predicate Pending(c: State, key: string) {
    exists n, task :: n in c.nodes && task in c.nodes[n].tasks && task.key == key
  }

  // Well-formed client writes, each after the previous write of its key was replicated, and
  // replications that get through, and eviction sweeps at any time. TTLs are whole
  // seconds, as the SET command has them.
  ghost predicate Allowed(c: State, e: Event) {
    match e.step
    case ClientSet(entry, key, value, ttl) =>
      entry in c.nodes && Token(key) && Token(value) && ttl <= MAX_INT64 && ttl % SECOND == 0 && !Pending(c, key)
    case ClientDel(entry, key) => entry in c.nodes && Token(key) && !Pending(c, key)
    case Replicate(_, _, delivered) => delivered
    case SweepNode(_) => true
    case _ => false
  }

  ghost predicate Disciplined(pref: Prefs, ids: set<string>, c: State, run: seq<Event>, start: int)
    requires GoodPrefs(pref, ids) && ViewsOk(c, ids)
    decreases run
  {
    run != [] ==>
      && run[0].now >= start && Allowed(c, run[0])
      && (NextKeepsViews(pref, ids, c, run[0]);
          Disciplined(pref, ids, Next(pref, ids, c, run[0]), run[1..], run[0].now))
  }

  // The write's value has expired, so a sweep may have removed it.
  predicate Gone(last: Last, now: int) {
    last.expiresAt.Some? && now > last.expiresAt.value
  }

  ghost predicate Stored(t: Table, key: string, last: Last, now: int) {
    if last.value.None? then key !in t
    else if key in t then t[key] == Entry(last.value.value, last.expiresAt)
    else Gone(last, now)
  }

  // A replica's copy has the value and expires no sooner.
  ghost predicate Copied(t: Table, key: string, last: Last, now: int) {
    if last.value.None? then key !in t
    else if key !in t then Gone(last, now)
    else
      && t[key].value == last.value.value
      && (if last.expiresAt.None? then t[key].expiresAt.None?
          else t[key].expiresAt.Some? && t[key].expiresAt.value >= last.expiresAt.value)
  }

  // The replication a write leaves behind.
  ghost predicate TaskFor(task: Task, key: string, last: Last, now: int) {
    if last.value.None? then task == Task(key, "", 0, true)
    else
      && task == Task(key, last.value.value, task.ttl, false) && task.ttl % SECOND == 0
      && (if last.expiresAt.None? then task.ttl <= 0 else task.ttl > 0 && last.expiresAt.value <= now + task.ttl)
  }

  // The tasks of one key among a node's tasks: at most one, and it is the given write's.
  ghost predicate OnlyTask(tasks: multiset<Task>, key: string, last: Last, now: int) {
    && (forall task :: task in tasks && task.key == key ==> tasks[task] == 1 && TaskFor(task, key, last, now))
    && (forall task, other :: task in tasks && other in tasks && task.key == key && other.key == key ==> other == task)
  }

  ghost predicate NoTask(tasks: multiset<Task>, key: string) {
    forall task :: task in tasks ==> task.key != key
  }

  // Primary and replica of a key hold its latest write, the replica once no replication is pending;
  // nobody else holds the key.
  ghost predicate Holds(pref: Prefs, ids: set<string>, c: State, key: string, last: Last, now: int) {
    && AllReachable(c, ids)
    && |pref(key)| >= 2 && pref(key)[0] in ids && pref(key)[1] in ids
    && var p, r := pref(key)[0], pref(key)[1];
      && Stored(c.nodes[p].table, key, last, now)
      && OnlyTask(c.nodes[p].tasks, key, last, now)
      && (NoTask(c.nodes[p].tasks, key) ==> Copied(c.nodes[r].table, key, last, now))
      && (forall n :: n in ids && n != p ==> NoTask(c.nodes[n].tasks, key))
      && (forall n :: n in ids && n != p && n != r ==> key !in c.nodes[n].table)
  }

  lemma PrimaryAndReplica(pref: Prefs, ids: set<string>, key: string)
    requires GoodPrefs(pref, ids) && |ids| >= 2
    ensures |pref(key)| >= 2 && pref(key)[0] in ids && pref(key)[1] in ids && pref(key)[0] != pref(key)[1]
    ensures OwnerIn(pref(key), ids) == pref(key)[0]
    ensures Take(Keep(pref(key), ids), 2) == [pref(key)[0], pref(key)[1]]
  {
    var p := pref(key);
    assert Distinct(p) && forall id :: id in p <==> id in ids;
    DistinctCoverSize(p, ids);
    KeepAll(p, ids);
    assert p[0] in p && p[1] in p;
    assert p[0] != p[1];
    hide GoodPrefs, Distinct, Keep;
  }

  lemma WritesGoToPrimary(pref: Prefs, ids: set<string>, c: State, entry: string, key: string)
    requires GoodPrefs(pref, ids) && ViewsOk(c, ids) && AllReachable(c, ids) && entry in ids && |ids| >= 2
    ensures Route(pref, ids, c, entry, key) == Some(pref(key)[0])
  {
    PrimaryAndReplica(pref, ids, key);
    OwnerIsEarlier(pref, ids, c, entry, key);
    var owner := OwnerAt(pref, c, entry, key);
    if owner != entry {
      OwnerIsEarlier(pref, ids, c, owner, key);
      assert OwnerAt(pref, c, owner, key) == owner;
    }
  }

  // Two states of a node that agree on everything concerning one key.
  ghost predicate SameForKey(a: Node, b: Node, key: string) {
    && a.up == b.up && a.view == b.view
    && (key in a.table <==> key in b.table) && (key in a.table ==> a.table[key] == b.table[key])
    && (forall task: Task :: task.key == key ==> a.tasks[task] == b.tasks[task])
  }

  lemma TaskForLater(key: string, last: Last, now: int, now': int)
    requires now <= now'
    ensures forall task :: TaskFor(task, key, last, now) ==> TaskFor(task, key, last, now')
  {}

  lemma SameTable(a: Node, b: Node, key: string, last: Last, now: int, now': int)
    requires SameForKey(a, b, key) && now <= now'
    ensures Stored(a.table, key, last, now) ==> Stored(b.table, key, last, now')
    ensures Copied(a.table, key, last, now) ==> Copied(b.table, key, last, now')
  {}

  lemma SameTasks(a: Node, b: Node, key: string, last: Last, now: int, now': int)
    requires SameForKey(a, b, key) && now <= now'
    ensures NoTask(a.tasks, key) <==> NoTask(b.tasks, key)
    ensures OnlyTask(a.tasks, key, last, now) ==> OnlyTask(b.tasks, key, last, now')
  {
    hide TaskFor;
    TaskForLater(key, last, now, now');
    assert forall task: Task :: task.key == key ==> (task in a.tasks <==> task in b.tasks);
  }

  lemma HoldsIfSame(pref: Prefs, ids: set<string>, c: State, c': State, key: string, last: Last, now: int, now': int)
    requires Holds(pref, ids, c, key, last, now) && c'.nodes.Keys == ids && now <= now'
    requires forall n :: n in ids ==> SameForKey(c.nodes[n], c'.nodes[n], key)
    ensures Holds(pref, ids, c', key, last, now')
  {
    forall n | n in ids
      ensures NoTask(c.nodes[n].tasks, key) <==> NoTask(c'.nodes[n].tasks, key)
      ensures OnlyTask(c.nodes[n].tasks, key, last, now) ==> OnlyTask(c'.nodes[n].tasks, key, last, now')
    {
      SameTasks(c.nodes[n], c'.nodes[n], key, last, now, now');
    }
    assert |pref(key)| >= 2 && pref(key)[0] in ids && pref(key)[1] in ids by {
      hide NoTask, OnlyTask, Stored, Copied, SameForKey;
    }
    SameTable(c.nodes[pref(key)[0]], c'.nodes[pref(key)[0]], key, last, now, now');
    SameTable(c.nodes[pref(key)[1]], c'.nodes[pref(key)[1]], key, last, now, now');
    hide NoTask, OnlyTask, Stored, Copied;
  }

  lemma OneTask(tasks: multiset<Task>, task: Task, last: Last, now: int)
    requires NoTask(tasks, task.key) && TaskFor(task, task.key, last, now)
    ensures OnlyTask(tasks + multiset{task}, task.key, last, now)
    ensures !NoTask(tasks + multiset{task}, task.key)
  {
    hide TaskFor;
    assert tasks[task] == 0;
    assert task in tasks + multiset{task};
  }

  lemma TaskDone(tasks: multiset<Task>, task: Task, last: Last, now: int)
    requires OnlyTask(tasks, task.key, last, now) && task in tasks
    ensures NoTask(tasks - multiset{task}, task.key) && TaskFor(task, task.key, last, now)
  {
    hide TaskFor;
    forall t | t in tasks - multiset{task} ensures t.key != task.key {
      assert t in tasks;
      assert (tasks - multiset{task})[task] == 0;
    }
  }

  lemma CopyArrives(t: Table, task: Task, last: Last, now: int, now': int)
    requires TaskFor(task, task.key, last, now) && now <= now'
    ensures Copied(ApplyLocal(t, ReplicaRequest(task.key, task.value, task.ttl, task.del), now'), task.key, last, now')
  {}

  // A change confined to primary and replica.
  lemma HoldsAfterChange(pref: Prefs, ids: set<string>, c: State, c': State, key: string, last: Last, last': Last,
                         now: int, now': int)
    requires Holds(pref, ids, c, key, last, now) && c'.nodes.Keys == ids
    requires forall n :: n in ids && n != pref(key)[0] && n != pref(key)[1] ==> c'.nodes[n] == c.nodes[n]
    requires var p, r := c'.nodes[pref(key)[0]], c'.nodes[pref(key)[1]];
      && pref(key)[0] != pref(key)[1]
      && p.up && r.up && p.view == r.view == ids
      && Stored(p.table, key, last', now') && OnlyTask(p.tasks, key, last', now') && NoTask(r.tasks, key)
      && (NoTask(p.tasks, key) ==> Copied(r.table, key, last', now'))
    ensures Holds(pref, ids, c', key, last', now')
  {
    hide Stored, Copied, OnlyTask, NoTask;
  }

  lemma WriteOfKey(pref: Prefs, ids: set<string>, c: State, task: Task, last: Last, last': Last, now: int, now': int)
    requires GoodPrefs(pref, ids) && |ids| >= 2 && now <= now'
    requires Holds(pref, ids, c, task.key, last, now) && NoTask(c.nodes[pref(task.key)[0]].tasks, task.key)
    requires if task.del then task == Task(task.key, "", 0, true) && last' == NEVER
             else
               && task.ttl % SECOND == 0
               && last' == Last(Some(task.value), if task.ttl > 0 then Some(now' + task.ttl) else None)
    ensures Holds(pref, ids, WriteAt(c, pref(task.key)[0], task, now'), task.key, last', now')
  {
    hide NoTask, OnlyTask, TaskFor, Copied, GoodPrefs, Stored, WriteAt;
    var p, c' := pref(task.key)[0], WriteAt(c, pref(task.key)[0], task, now');
    PrimaryAndReplica(pref, ids, task.key);
    WriteEffect(c, p, task, last', now');
    HoldsAfterChange(pref, ids, c, c', task.key, last, last', now, now');
  }

  lemma WriteEffect(c: State, p: string, task: Task, last: Last, now: int)
    requires p in c.nodes && NoTask(c.nodes[p].tasks, task.key)
    requires if task.del then task == Task(task.key, "", 0, true) && last == NEVER
             else
               && task.ttl % SECOND == 0
               && last == Last(Some(task.value), if task.ttl > 0 then Some(now + task.ttl) else None)
    ensures var c' := WriteAt(c, p, task, now);
      && c'.nodes == c.nodes[p := c'.nodes[p]]
      && c'.nodes[p].up == c.nodes[p].up && c'.nodes[p].view == c.nodes[p].view
      && Stored(c'.nodes[p].table, task.key, last, now)
      && OnlyTask(c'.nodes[p].tasks, task.key, last, now) && !NoTask(c'.nodes[p].tasks, task.key)
  {
    assert TaskFor(task, task.key, last, now);
    hide NoTask, OnlyTask, TaskFor;
    OneTask(c.nodes[p].tasks, task, last, now);
  }

  lemma WriteOfOtherKey(pref: Prefs, ids: set<string>, c: State, n: string, task: Task, key: string, last: Last,
                        now: int, now': int)
    requires Holds(pref, ids, c, key, last, now) && task.key != key && n in ids && now <= now'
    ensures Holds(pref, ids, WriteAt(c, n, task, now'), key, last, now')
  {
    hide Stored, Copied, NoTask, OnlyTask;
    HoldsIfSame(pref, ids, c, WriteAt(c, n, task, now'), key, last, now, now');
  }

  lemma OnlyPrimaryReplicates(pref: Prefs, ids: set<string>, c: State, n: string, task: Task, last: Last, now: int)
    requires Holds(pref, ids, c, task.key, last, now) && n in ids && task in c.nodes[n].tasks
    ensures n == pref(task.key)[0]
  {
    hide Stored, Copied, OnlyTask;
  }

  lemma ReplicationOfKey(pref: Prefs, ids: set<string>, c: State, n: string, task: Task, last: Last, now: int,
                         now': int)
    requires GoodPrefs(pref, ids) && |ids| >= 2 && now <= now'
    requires Holds(pref, ids, c, task.key, last, now) && n in ids && task in c.nodes[n].tasks
    ensures Holds(pref, ids, FinishTask(pref, c, n, task, true, now'), task.key, last, now')
  {
    PrimaryAndReplica(pref, ids, task.key);
    OnlyPrimaryReplicates(pref, ids, c, n, task, last, now);
    var p, r := pref(task.key)[0], pref(task.key)[1];
    ReplicaIsNext(pref, ids, c, task.key);
    hide GoodPrefs, NoTask, OnlyTask, TaskFor, Copied, ApplyLocal, Stored, FinishTask, ReplicaAt, ReplicaRequest,
         Distinct;
    StoredLater(c.nodes[p].table, task.key, last, now, now');
    TaskDone(c.nodes[p].tasks, task, last, now);
    CopyArrives(c.nodes[r].table, task, last, now, now');
    NoTaskIsOnlyTask(c.nodes[p].tasks - multiset{task}, task.key, last, now');
    OthersUntouched(pref, c, p, r, task, now');
    HoldsAfterChange(pref, ids, c, FinishTask(pref, c, n, task, true, now'), task.key, last, last, now, now');
  }

  lemma StoredLater(t: Table, key: string, last: Last, now: int, now': int)
    requires Stored(t, key, last, now) && now <= now'
    ensures Stored(t, key, last, now')
  {}

  lemma ReplicaIsNext(pref: Prefs, ids: set<string>, c: State, key: string)
    requires GoodPrefs(pref, ids) && |ids| >= 2 && AllReachable(c, ids)
    ensures |pref(key)| >= 2 && pref(key)[0] in ids && ReplicaAt(pref, c, pref(key)[0], key) == Some(pref(key)[1])
  {
    PrimaryAndReplica(pref, ids, key);
  }

  lemma NoTaskIsOnlyTask(tasks: multiset<Task>, key: string, last: Last, now: int)
    requires NoTask(tasks, key)
    ensures OnlyTask(tasks, key, last, now)
  {}

  // What a replication that gets through changes: the sender's tasks and the replica's table.
  lemma OthersUntouched(pref: Prefs, c: State, p: string, r: string, task: Task, now: int)
    requires p in c.nodes && r in c.nodes && p != r && c.nodes[r].up
    requires ReplicaAt(pref, c, p, task.key) == Some(r)
    ensures var c' := FinishTask(pref, c, p, task, true, now);
      && c'.nodes.Keys == c.nodes.Keys
      && (forall n :: n in c.nodes && n != p && n != r ==> c'.nodes[n] == c.nodes[n])
      && c'.nodes[p] == c.nodes[p].(tasks := c.nodes[p].tasks - multiset{task})
      && c'.nodes[r] == c.nodes[r].(table :=
           ApplyLocal(c.nodes[r].table, ReplicaRequest(task.key, task.value, task.ttl, task.del), now))
  {
    hide ReplicaAt, ApplyLocal;
  }

  lemma DeliverySameForKey(c: State, n: string, r: Request, key: string, now: int)
    requires n in c.nodes && (r.LocalSet? || r.LocalDel?) && r.key != key
    ensures forall m :: m in c.nodes ==> SameForKey(c.nodes[m], Deliver(c, n, r, now).nodes[m], key)
  {}

  lemma FinishSameForKey(pref: Prefs, c: State, n: string, task: Task, key: string, now: int)
    requires n in c.nodes && task.key != key
    ensures forall m :: m in c.nodes ==> SameForKey(c.nodes[m], FinishTask(pref, c, n, task, true, now).nodes[m], key)
  {
    hide ReplicaAt, Deliver;
    var c1 := WithNode(c, n, c.nodes[n].(tasks := c.nodes[n].tasks - multiset{task}));
    var target := ReplicaAt(pref, c, n, task.key);
    assert forall m :: m in c.nodes ==> SameForKey(c.nodes[m], c1.nodes[m], key);
    if target.Some? && target.value in c1.nodes {
      DeliverySameForKey(c1, target.value, ReplicaRequest(task.key, task.value, task.ttl, task.del), key, now);
    }
  }

  lemma ReplicationOfOtherKey(pref: Prefs, ids: set<string>, c: State, n: string, task: Task, key: string, last: Last,
                              now: int, now': int)
    requires Holds(pref, ids, c, key, last, now) && task.key != key && n in ids
    requires task in c.nodes[n].tasks && now <= now'
    ensures Holds(pref, ids, FinishTask(pref, c, n, task, true, now'), key, last, now')
  {
    hide Stored, Copied, NoTask, OnlyTask, FinishTask, SameForKey;
    FinishSameForKey(pref, c, n, task, key, now');
    HoldsIfSame(pref, ids, c, FinishTask(pref, c, n, task, true, now'), key, last, now, now');
  }

  lemma StepHolds(pref: Prefs, ids: set<string>, c: State, e: Event, key: string, last: Last, now: int)
    requires GoodPrefs(pref, ids) && ViewsOk(c, ids) && |ids| >= 2
    requires Holds(pref, ids, c, key, last, now) && Allowed(c, e) && now <= e.now
    ensures Holds(pref, ids, Next(pref, ids, c, e), key, LastAfter(last, e, key), e.now)
  {
    hide Holds, GoodPrefs, ViewsOk, Next, Pending, Token;
    if e.step.Replicate? {
      ReplicationHolds(pref, ids, c, e.step.n, e.step.task, e, key, last, now);
    } else if e.step.SweepNode? {
      SweepHolds(pref, ids, c, e.step.n, e, key, last, now);
    } else {
      ClientStepHolds(pref, ids, c, e, key, last, now);
    }
  }

  lemma ClientStepHolds(pref: Prefs, ids: set<string>, c: State, e: Event, key: string, last: Last, now: int)
    requires GoodPrefs(pref, ids) && ViewsOk(c, ids) && |ids| >= 2
    requires Holds(pref, ids, c, key, last, now) && Allowed(c, e) && (e.step.ClientSet? || e.step.ClientDel?)
      && now <= e.now
    ensures Holds(pref, ids, Next(pref, ids, c, e), key, LastAfter(last, e, key), e.now)
  {
    assert c.nodes.Keys == ids;
    hide Holds, Token, Route, GoodPrefs, ViewsOk, WriteAt, Pending, Next;
    var k := e.step.key;
    var task := if e.step.ClientDel? then Task(k, "", 0, true) else Task(k, e.step.value, e.step.ttl, false);
    var last' := LastAfter(last, e, key);
    ClientWriteHolds(pref, ids, c, e.step.entry, task, key, last, last', now, e.now);
    ClientStepIsWrite(pref, ids, c, e, task, pref(k)[0]);
    HistoryIrrelevant(pref, ids, WriteAt(c, pref(k)[0], task, e.now), Next(pref, ids, c, e).written, key, last', e.now);
  }

  lemma ClientStepIsWrite(pref: Prefs, ids: set<string>, c: State, e: Event, task: Task, p: string)
    requires GoodPrefs(pref, ids) && ViewsOk(c, ids)
    requires e.step.ClientSet? || e.step.ClientDel?
    requires e.step.entry in ids && c.nodes[e.step.entry].up && Token(e.step.key)
    requires e.step.ClientSet? ==> Token(e.step.value) && e.step.ttl <= MAX_INT64
    requires task == if e.step.ClientDel? then Task(e.step.key, "", 0, true)
      else Task(e.step.key, e.step.value, e.step.ttl, false)
    requires p in ids && Route(pref, ids, c, e.step.entry, e.step.key) == Some(p)
    ensures Next(pref, ids, c, e) == WriteAt(c, p, task, e.now).(written := Next(pref, ids, c, e).written)
  {
    hide Token, Route, GoodPrefs, WriteAt;
  }

  lemma ReplicationHolds(pref: Prefs, ids: set<string>, c: State, n: string, task: Task, e: Event, key: string,
                         last: Last, now: int)
    requires GoodPrefs(pref, ids) && ViewsOk(c, ids) && |ids| >= 2
    requires Holds(pref, ids, c, key, last, now) && e.step == Replicate(n, task, true) && now <= e.now
    ensures Holds(pref, ids, Next(pref, ids, c, e), key, last, e.now)
  {
    assert c.nodes.Keys == ids;
    hide Next, Holds, GoodPrefs, ViewsOk, FinishTask;
    SelfSame(pref, ids, c, key, last, now, e.now);
    NextIsFinish(pref, ids, c, e, n, task);
    if n in c.nodes && c.nodes[n].up && task in c.nodes[n].tasks {
      if task.key == key {
        ReplicationOfKey(pref, ids, c, n, task, last, now, e.now);
      } else {
        ReplicationOfOtherKey(pref, ids, c, n, task, key, last, now, e.now);
      }
    }
  }

  lemma NextIsFinish(pref: Prefs, ids: set<string>, c: State, e: Event, p: string, task: Task)
    requires GoodPrefs(pref, ids) && ViewsOk(c, ids) && e.step == Replicate(p, task, true)
    ensures Next(pref, ids, c, e)
         == if p in c.nodes && c.nodes[p].up && task in c.nodes[p].tasks
              then FinishTask(pref, c, p, task, true, e.now) else c
  {
    hide GoodPrefs, ViewsOk, FinishTask;
  }

  lemma SweepHolds(pref: Prefs, ids: set<string>, c: State, n: string, e: Event, key: string, last: Last, now: int)
    requires GoodPrefs(pref, ids) && ViewsOk(c, ids) && |ids| >= 2
    requires Holds(pref, ids, c, key, last, now) && e.step == SweepNode(n) && now <= e.now
    ensures Holds(pref, ids, Next(pref, ids, c, e), key, last, e.now)
  {
    SelfSame(pref, ids, c, key, last, now, e.now);
    hide Holds, GoodPrefs, Sweep;
    if n in c.nodes && c.nodes[n].up {
      var c' := WithNode(c, n, c.nodes[n].(table := Sweep(c.nodes[n].table, e.now)));
      assert Next(pref, ids, c, e) == c';
      hide Next, ViewsOk;
      if key in c.nodes[n].table && Expired(c.nodes[n].table[key], e.now) {
        SweptCopy(pref, ids, c, n, key, last, e.now);
      } else {
        UnsweptSame(c.nodes[n], key, e.now);
        HoldsIfSame(pref, ids, c, c', key, last, e.now, e.now);
      }
    }
  }

  lemma UnsweptSame(node: Node, key: string, now: int)
    requires key in node.table ==> !Expired(node.table[key], now)
    ensures SameForKey(node, node.(table := Sweep(node.table, now)), key)
  {}

  // A sweep that removes the key finds it at primary or replica, and expired.
  lemma SweptCopy(pref: Prefs, ids: set<string>, c: State, n: string, key: string, last: Last, now: int)
    requires GoodPrefs(pref, ids) && |ids| >= 2 && Holds(pref, ids, c, key, last, now)
    requires n in ids && key in c.nodes[n].table && Expired(c.nodes[n].table[key], now)
    ensures Holds(pref, ids, WithNode(c, n, c.nodes[n].(table := Sweep(c.nodes[n].table, now))), key, last, now)
  {
    PrimaryAndReplica(pref, ids, key);
    SweptTable(c.nodes[n].table, key, last, now);
    hide Stored, Copied, OnlyTask, NoTask, Sweep, GoodPrefs;
    var c' := WithNode(c, n, c.nodes[n].(table := Sweep(c.nodes[n].table, now)));
    HoldsAfterChange(pref, ids, c, c', key, last, last, now, now);
  }

  lemma SweptTable(t: Table, key: string, last: Last, now: int)
    requires key in t && Expired(t[key], now)
    ensures Stored(t, key, last, now) ==> Stored(Sweep(t, now), key, last, now)
    ensures Copied(t, key, last, now) ==> Copied(Sweep(t, now), key, last, now)
  {}

  lemma SelfSame(pref: Prefs, ids: set<string>, c: State, key: string, last: Last, now: int, now': int)
    requires Holds(pref, ids, c, key, last, now) && now <= now'
    ensures Holds(pref, ids, c, key, last, now')
  {
    hide Stored, Copied, NoTask, OnlyTask;
    HoldsIfSame(pref, ids, c, c, key, last, now, now');
  }

  lemma HistoryIrrelevant(pref: Prefs, ids: set<string>, c: State, written: set<(string, string)>, key: string,
                          last: Last, now: int)
    requires Holds(pref, ids, c, key, last, now)
    ensures Holds(pref, ids, c.(written := written), key, last, now)
  {}

  lemma ClientWriteHolds(pref: Prefs, ids: set<string>, c: State, entry: string, task: Task, key: string, last: Last,
                         last': Last, now: int, now': int)
    requires GoodPrefs(pref, ids) && ViewsOk(c, ids) && |ids| >= 2 && now <= now'
    requires Holds(pref, ids, c, key, last, now) && entry in ids && !Pending(c, task.key)
    requires if task.del then task == Task(task.key, "", 0, true) else task.ttl % SECOND == 0
    requires last' == if task.key != key then last
                      else if task.del then NEVER
                      else Last(Some(task.value), if task.ttl > 0 then Some(now' + task.ttl) else None)
    ensures c.nodes[entry].up && Route(pref, ids, c, entry, task.key) == Some(pref(task.key)[0])
    ensures Holds(pref, ids, WriteAt(c, pref(task.key)[0], task, now'), key, last', now')
  {
    hide WriteAt, Stored, Copied, OnlyTask;
    WritesGoToPrimary(pref, ids, c, entry, task.key);
    PrimaryAndReplica(pref, ids, task.key);
    if task.key == key {
      WriteOfKey(pref, ids, c, task, last, last', now, now');
    } else {
      WriteOfOtherKey(pref, ids, c, pref(task.key)[0], task, key, last, now, now');
    }
  }

  lemma InitialHolds(pref: Prefs, ids: set<string>, key: string, start: int)
    requires GoodPrefs(pref, ids) && |ids| >= 2
    ensures Holds(pref, ids, Initial(ids), key, NEVER, start)
  {
    PrimaryAndReplica(pref, ids, key);
  }

  /** After every disciplined run primary and replica of each key hold its latest write. */
  lemma {:induction false} RunHolds(pref: Prefs, ids: set<string>, c: State, run: seq<Event>, start: int, key: string,
                                    last: Last)
    requires GoodPrefs(pref, ids) && ViewsOk(c, ids) && |ids| >= 2
    requires Holds(pref, ids, c, key, last, start) && Disciplined(pref, ids, c, run, start)
    ensures Holds(pref, ids, Cluster.Run(pref, ids, c, run), key, LastWrite(last, run, key), EndTime(run, start))
    decreases run
  {
    hide Next, Holds, Allowed, GoodPrefs, ViewsOk;
    if run != [] {
      var e := run[0];
      StepHolds(pref, ids, c, e, key, last, start);
      NextKeepsViews(pref, ids, c, e);
      RunHolds(pref, ids, Next(pref, ids, c, e), run[1..], e.now, key, LastAfter(last, e, key));
      assert EndTime(run, start) == EndTime(run[1..], e.now);
    }
  }
}
