/** What holds in every state of every run: views stay sane, every stored or travelling value was
    once written by a client, and every internal line in flight parses back to what it stands for. */
module Safety {
  import opened Text
  import opened StoreSpec
  import opened Wire
  import opened NodeSpec
  import opened Cluster

  predicate Known(written: set<(string, string)>, key: string, value: string) {
    Token(key) && Token(value) && (key, value) in written
  }

  // An entry's expiry is never further away than the longest duration.
  ghost predicate TableSafe(t: Table, written: set<(string, string)>, now: int) {
    forall k :: k in t ==>
      Known(written, k, t[k].value) && (t[k].expiresAt.Some? ==> t[k].expiresAt.value <= now + MAX_INT64)
  }

  ghost predicate TaskSafe(task: Task, written: set<(string, string)>) {
    Token(task.key) && task.ttl <= MAX_INT64 && (!task.del ==> Known(written, task.key, task.value))
  }

  ghost predicate TodoSafe(todo: map<string, string>, written: set<(string, string)>) {
    forall k :: k in todo ==> Known(written, k, todo[k])
  }

  ghost predicate NodeSafe(node: Node, written: set<(string, string)>, now: int) {
    && TableSafe(node.table, written, now)
    && (forall task :: task in node.tasks ==> TaskSafe(task, written))
    && (forall j :: 0 <= j < |node.jobs| ==> TodoSafe(node.jobs[j].todo, written))
  }

  ghost predicate PushSafe(p: Pushed, written: set<(string, string)>) {
    Known(written, p.key, p.value) && p.seconds <= MAX_SECONDS
  }

  ghost predicate StateSafe(c: State, now: int) {
    && (forall n :: n in c.nodes ==> NodeSafe(c.nodes[n], c.written, now))
    && (forall p :: p in c.pushes ==> PushSafe(p, c.written))
  }

  lemma NodeStaysSafe(node: Node, written: set<(string, string)>, written': set<(string, string)>, now: int, now': int)
    requires NodeSafe(node, written, now) && written <= written' && now <= now'
    ensures NodeSafe(node, written', now')
  {
    hide Token;
  }

  // A request that stores only known values keeps a table safe.
  predicate RequestSafe(r: Request, written: set<(string, string)>) {
    r.LocalSet? ==> Known(written, r.key, r.value) && r.ttl <= MAX_INT64
  }

  lemma ApplyKeepsSafe(t: Table, r: Request, written: set<(string, string)>, now: int)
    requires TableSafe(t, written, now) && RequestSafe(r, written)
    ensures TableSafe(ApplyLocal(t, r, now), written, now)
  {
    hide Token;
  }

  lemma RemainingIsShort(t: Table, key: string, written: set<(string, string)>, now: int)
    requires TableSafe(t, written, now)
    ensures RemainingSeconds(t, key, now) <= MAX_SECONDS
  {}

  lemma WriteIsSafe(c: State, n: string, task: Task, written: set<(string, string)>, now: int)
    requires n in c.nodes && StateSafe(c, now) && c.written <= written && TaskSafe(task, written)
    ensures StateSafe(WriteAt(c, n, task, now).(written := written), now)
  {
    forall m | m in c.nodes ensures NodeSafe(c.nodes[m], written, now) {
      NodeStaysSafe(c.nodes[m], c.written, written, now, now);
    }
    forall p | p in c.pushes ensures PushSafe(p, written) {
      assert PushSafe(p, c.written);
    }
    WrittenNodeIsSafe(c, n, task, written, now);
    hide NodeSafe, PushSafe, TaskSafe, SetEntry;
  }

  lemma WrittenNodeIsSafe(c: State, n: string, task: Task, written: set<(string, string)>, now: int)
    requires n in c.nodes && NodeSafe(c.nodes[n], written, now) && TaskSafe(task, written)
    ensures NodeSafe(WriteAt(c, n, task, now).nodes[n], written, now)
  {
    hide Token;
    if !task.del {
      ApplyKeepsSafe(c.nodes[n].table, LocalSet(task.key, task.value, task.ttl), written, now);
    }
  }

  lemma DeliverIsSafe(c: State, n: string, r: Request, now: int)
    requires n in c.nodes && StateSafe(c, now) && RequestSafe(r, c.written)
    ensures StateSafe(Deliver(c, n, r, now), now)
  {
    hide Token, ApplyLocal;
    ApplyKeepsSafe(c.nodes[n].table, r, c.written, now);
  }

  lemma SmallerNodeIsSafe(c: State, n: string, node: Node, now: int)
    requires n in c.nodes && StateSafe(c, now) && NodeSafe(node, c.written, now)
    ensures StateSafe(WithNode(c, n, node), now)
  {
    hide NodeSafe;
  }

  lemma FinishIsSafe(pref: Prefs, c: State, n: string, task: Task, delivered: bool, now: int)
    requires n in c.nodes && StateSafe(c, now) && task in c.nodes[n].tasks
    ensures StateSafe(FinishTask(pref, c, n, task, delivered, now), now)
  {
    hide Token, TableSafe, TodoSafe, Known, ReplicaAt;
    var node := c.nodes[n];
    var node' := node.(tasks := node.tasks - multiset{task});
    assert forall t :: t in node'.tasks ==> t in node.tasks;
    SmallerNodeIsSafe(c, n, node', now);
    var target := ReplicaAt(pref, c, n, task.key);
    var c1 := WithNode(c, n, node');
    if target.Some? && target.value in c1.nodes {
      assert TaskSafe(task, c.written);
      DeliverIsSafe(c1, target.value, ReplicaRequest(task.key, task.value, task.ttl, task.del), now);
    }
  }

  lemma SendIsSafe(pref: Prefs, c: State, n: string, j: nat, key: string, now: int)
    requires n in c.nodes && j < |c.nodes[n].jobs| && key in c.nodes[n].jobs[j].todo && StateSafe(c, now)
    ensures StateSafe(SendPush(pref, c, n, j, key, now), now)
  {
    hide Token, Known, OwnerAt, MustMove, RemainingSeconds;
    var node := c.nodes[n];
    assert TodoSafe(node.jobs[j].todo, c.written);
    RemainingIsShort(node.table, key, c.written, now);
    SmallerNodeIsSafe(c, n, Visited(node, j, key), now);
  }

  lemma ArriveIsSafe(c: State, i: nat, delivery: Delivery, now: int)
    requires i < |c.pushes| && StateSafe(c, now)
    ensures StateSafe(ArrivePush(c, i, delivery, now), now)
  {
    hide Token, Known, ApplyLocal, NodeSafe, Without, Deliver;
    var p, c1 := c.pushes[i], c.(pushes := Without(c.pushes, i));
    assert PushSafe(p, c.written);
    assert StateSafe(c1, now);
    if p.to in c.nodes {
      DeliverIsSafe(c1, p.to, PushRequest(p.key, p.value, p.seconds), now);
      var c2 := Deliver(c1, p.to, PushRequest(p.key, p.value, p.seconds), now);
      if p.from in c2.nodes {
        AckIsSafe(c2.nodes[p.from], p.key, c.written, now);
        SmallerNodeIsSafe(c2, p.from, c2.nodes[p.from].(acked := c2.nodes[p.from].acked + multiset{p.key}), now);
      }
    }
  }

  lemma AckIsSafe(node: Node, key: string, written: set<(string, string)>, now: int)
    requires NodeSafe(node, written, now)
    ensures NodeSafe(node.(acked := node.acked + multiset{key}), written, now)
  {}

  lemma LocalStepIsSafe(pref: Prefs, ids: set<string>, c: State, e: Event)
    requires GoodPrefs(pref, ids) && ViewsOk(c, ids) && StateSafe(c, e.now)
    requires e.step.ViewChange? || e.step.StartMigration? || e.step.DeletePushed? || e.step.SweepNode?
      || e.step.Restart?
    ensures StateSafe(Next(pref, ids, c, e), e.now)
  {
    var n := e.step.n;
    if n in c.nodes {
      LocalNodeIsSafe(pref, ids, c, e, n);
      SmallerNodeIsSafe(c, n, Next(pref, ids, c, e).nodes[n], e.now);
    }
    hide NodeSafe, PushSafe, GoodPrefs, ViewsOk, Deleted, Sweep, Snapshot;
  }

  lemma LocalNodeIsSafe(pref: Prefs, ids: set<string>, c: State, e: Event, n: string)
    requires GoodPrefs(pref, ids) && ViewsOk(c, ids) && n in c.nodes && NodeSafe(c.nodes[n], c.written, e.now)
    requires e.step.ViewChange? || e.step.StartMigration? || e.step.DeletePushed? || e.step.SweepNode?
      || e.step.Restart?
    ensures NodeSafe(Next(pref, ids, c, e).nodes[n], c.written, e.now)
  {
    hide NodeSafe, GoodPrefs, ViewsOk, Snapshot, Sweep, Deleted;
    var node := c.nodes[n];
    match e.step
    case ViewChange(_, view) => ViewAndFreshAreSafe(node, view, c.written, e.now);
    case StartMigration(_, only) => SnapshotIsSafe(node, only, c.written, e.now);
    case DeletePushed(_, key) => DeletedIsSafe(node, key, c.written, e.now);
    case SweepNode(_) => SweptIsSafe(node, c.written, e.now);
    case Restart(_) => ViewAndFreshAreSafe(node, c.nodes.Keys, c.written, e.now);
  }

  lemma ViewAndFreshAreSafe(node: Node, view: set<string>, written: set<(string, string)>, now: int)
    requires NodeSafe(node, written, now)
    ensures NodeSafe(node.(view := view), written, now) && NodeSafe(Fresh(view), written, now)
  {
    hide TaskSafe, TodoSafe, Known;
  }

  lemma SnapshotIsSafe(node: Node, only: Option<string>, written: set<(string, string)>, now: int)
    requires NodeSafe(node, written, now)
    ensures NodeSafe(node.(jobs := node.jobs + [Job(only, Snapshot(node.table, now))]), written, now)
  {
    assert TodoSafe(Snapshot(node.table, now), written) by { hide Known; }
    hide TableSafe, TaskSafe, TodoSafe, Snapshot;
  }

  lemma DeletedIsSafe(node: Node, key: string, written: set<(string, string)>, now: int)
    requires NodeSafe(node, written, now)
    ensures NodeSafe(Deleted(node, key), written, now)
  {
    hide TaskSafe, TodoSafe, Known;
  }

  lemma SweptIsSafe(node: Node, written: set<(string, string)>, now: int)
    requires NodeSafe(node, written, now)
    ensures NodeSafe(node.(table := Sweep(node.table, now)), written, now)
  {
    hide TaskSafe, TodoSafe, Known;
  }

  lemma CrashIsSafe(c: State, n: string, now: int)
    requires n in c.nodes && StateSafe(c, now)
    ensures StateSafe(WithNode(c, n, Fresh(c.nodes.Keys).(up := false)).(pushes := Orphaned(c.pushes, n)), now)
  {
    assert NodeSafe(Fresh(c.nodes.Keys).(up := false), c.written, now);
    hide NodeSafe;
    forall p | p in Orphaned(c.pushes, n) ensures PushSafe(p, c.written) {
      var i :| 0 <= i < |c.pushes| && Orphaned(c.pushes, n)[i] == p;
      assert PushSafe(c.pushes[i], c.written);
    }
  }

  lemma ClientStepIsSafe(pref: Prefs, ids: set<string>, c: State, e: Event)
    requires GoodPrefs(pref, ids) && ViewsOk(c, ids) && StateSafe(c, e.now)
    requires e.step.ClientSet? || e.step.ClientDel?
    ensures StateSafe(Next(pref, ids, c, e), e.now)
  {
    hide Token, NodeSafe, GoodPrefs, ViewsOk, WriteAt, Route;
    var entry, key := e.step.entry, e.step.key;
    ClientNodeKnown(c, ids, entry);
    if entry in c.nodes && Token(key) {
      var end := Route(pref, ids, c, entry, key);
      if end.Some? {
        ClientNodeKnown(c, ids, end.value);
        if e.step.ClientDel? {
          WriteIsSafe(c, end.value, Task(key, "", 0, true), c.written, e.now);
        } else if Token(e.step.value) && e.step.ttl <= MAX_INT64 {
          WriteIsSafe(c, end.value, Task(key, e.step.value, e.step.ttl, false), c.written + {(key, e.step.value)},
            e.now);
        }
      }
    }
  }

  lemma StepIsSafe(pref: Prefs, ids: set<string>, c: State, e: Event)
    requires GoodPrefs(pref, ids) && ViewsOk(c, ids) && StateSafe(c, e.now)
    ensures StateSafe(Next(pref, ids, c, e), e.now)
  {
    hide Token, NodeSafe, GoodPrefs, ViewsOk, WriteAt, FinishTask, SendPush, ArrivePush, Sweep, Snapshot;
    match e.step
    case ClientSet(_, _, _, _) => ClientStepIsSafe(pref, ids, c, e);
    case ClientDel(_, _) => ClientStepIsSafe(pref, ids, c, e);
    case Replicate(n, task, delivered) =>
      if n in c.nodes && task in c.nodes[n].tasks {
        FinishIsSafe(pref, c, n, task, delivered, e.now);
      }
    case Send(n, j, key) =>
      if n in c.nodes && j < |c.nodes[n].jobs| && key in c.nodes[n].jobs[j].todo {
        SendIsSafe(pref, c, n, j, key, e.now);
      }
    case Arrive(i, delivery) =>
      if i < |c.pushes| {
        ArriveIsSafe(c, i, delivery, e.now);
      }
    case Crash(n) =>
      if n in c.nodes {
        CrashIsSafe(c, n, e.now);
      }
    case _ => LocalStepIsSafe(pref, ids, c, e);
  }

  lemma ClientNodeKnown(c: State, ids: set<string>, n: string)
    requires ViewsOk(c, ids)
    ensures n in c.nodes <==> n in ids
  {}

  /** Safety of every run, whatever interleaves: the state stays safe, so no value ever appears that
      no client wrote, and views always contain their owner (the latter is Run's own promise). */
  lemma {:induction false} EveryRunIsSafe(pref: Prefs, ids: set<string>, c: State, run: seq<Event>, start: int)
    requires GoodPrefs(pref, ids) && ViewsOk(c, ids) && StateSafe(c, start) && InTimeOrder(run, start)
    ensures StateSafe(Cluster.Run(pref, ids, c, run), EndTime(run, start))
    decreases run
  {
    hide Next, NodeSafe, GoodPrefs, ViewsOk;
    if run != [] {
      var e := run[0];
      forall n | n in c.nodes ensures NodeSafe(c.nodes[n], c.written, e.now) {
        NodeStaysSafe(c.nodes[n], c.written, c.written, start, e.now);
      }
      StepIsSafe(pref, ids, c, e);
      NextKeepsViews(pref, ids, c, e);
      EveryRunIsSafe(pref, ids, Next(pref, ids, c, e), run[1..], e.now);
      assert EndTime(run, start) == EndTime(run[1..], e.now);
    }
  }

  /** From the initial state, at the end of every run: everything stored or queued was written by a
      client, and every line a node may still print parses back to the write it stands for. */
  lemma ReachableLinesRoundTrip(pref: Prefs, ids: set<string>, run: seq<Event>, start: int, n: string)
    requires GoodPrefs(pref, ids) && InTimeOrder(run, start) && n in ids
    ensures var c, now := Cluster.Run(pref, ids, Initial(ids), run), EndTime(run, start);
      && (forall k :: k in c.nodes[n].table ==> (k, c.nodes[n].table[k].value) in c.written)
      && (forall task :: task in c.nodes[n].tasks ==>
            Parse(ReplicaCommand(task.key, task.value, task.ttl, task.del))
              == ReplicaRequest(task.key, task.value, task.ttl, task.del))
      && (forall p :: p in c.pushes ==>
            Parse(PushCommand(p.key, p.value, p.seconds)) == PushRequest(p.key, p.value, p.seconds))
      && (forall j, k :: 0 <= j < |c.nodes[n].jobs| && k in c.nodes[n].jobs[j].todo ==>
            var seconds := RemainingSeconds(c.nodes[n].table, k, now);
            Parse(PushCommand(k, c.nodes[n].jobs[j].todo[k], seconds))
              == PushRequest(k, c.nodes[n].jobs[j].todo[k], seconds))
  {
    hide Next, Parse, ReplicaCommand, PushCommand, ReplicaRequest, PushRequest, Token, RemainingSeconds, GoodPrefs;
    assert StateSafe(Initial(ids), start);
    EveryRunIsSafe(pref, ids, Initial(ids), run, start);
    var c, now := Cluster.Run(pref, ids, Initial(ids), run), EndTime(run, start);
    var node := c.nodes[n];
    assert NodeSafe(node, c.written, now);
    forall task | task in node.tasks
      ensures Parse(ReplicaCommand(task.key, task.value, task.ttl, task.del))
        == ReplicaRequest(task.key, task.value, task.ttl, task.del)
    {
      ReplicaRoundTrip(task.key, task.value, task.ttl, task.del);
    }
    forall p | p in c.pushes
      ensures Parse(PushCommand(p.key, p.value, p.seconds)) == PushRequest(p.key, p.value, p.seconds)
    {
      assert PushSafe(p, c.written);
      PushRoundTrip(p.key, p.value, p.seconds);
    }
    forall j, k | 0 <= j < |node.jobs| && k in node.jobs[j].todo
      ensures var seconds := RemainingSeconds(node.table, k, now);
        Parse(PushCommand(k, node.jobs[j].todo[k], seconds)) == PushRequest(k, node.jobs[j].todo[k], seconds)
    {
      RemainingIsShort(node.table, k, c.written, now);
      PushRoundTrip(k, node.jobs[j].todo[k], RemainingSeconds(node.table, k, now));
    }
  }
}
